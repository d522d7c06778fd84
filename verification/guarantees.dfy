/** What one Do call guarantees its caller, stated about Execute, the value that
    NetHttp.Client.Do is proved to compute (httpclient/nethttp/nethttp.go:109-161). */
module Guarantees {
  import opened HttpClient
  import opened Attempts

  /** With retryCount n >= 0 the transport is called once per attempt, in attempt
      order, at least once and at most n + 1 times; with a negative retryCount it
      is never called. */
  lemma TransportCalls(cfg: Config, req: Request, transport: nat -> Outcome)
    requires CanExecute(cfg, req, transport) && !req.body.Unreadable?
    ensures var sends := Select(Execute(cfg, req, transport).trace, SendKind);
            && sends == Range(AttemptCount(cfg.retryCount, transport))
            && (0 <= cfg.retryCount ==> 1 <= |sends| <= cfg.retryCount + 1)
            && (cfg.retryCount < 0 ==> sends == [])
  {
    var n := AttemptCount(cfg.retryCount, transport);
    ExecuteReadable(cfg, req, transport, n);
    ScriptSends(cfg, req, transport, n);
  }

  /** A negative retryCount skips the loop: no event, a nil response, and an error
      whose message is empty. */
  lemma NegativeRetryCount(cfg: Config, req: Request, transport: nat -> Outcome)
    requires CanExecute(cfg, req, transport) && !req.body.Unreadable? && cfg.retryCount < 0
    ensures Execute(cfg, req, transport) == Execution(Nil, Some(Error("")), [])
  {
    ExecuteReadable(cfg, req, transport, 0);
  }

  /** retryCount 0 makes exactly one attempt; it still backs off when that attempt fails. */
  lemma SingleAttempt(cfg: Config, req: Request, transport: nat -> Outcome)
    requires CanExecute(cfg, req, transport) && !req.body.Unreadable? && cfg.retryCount == 0
    ensures var r := Execute(cfg, req, transport);
            && Select(r.trace, SendKind) == [0]
            && Select(r.trace, BackoffKind) == (if Fails(transport(0)) then [0] else [])
            && r.response == LastResponse(transport, 1)
  {
    ExecuteReadable(cfg, req, transport, 1);
    ScriptSends(cfg, req, transport, 1);
    ScriptBackoffs(cfg, req, transport, 1);
  }

  /** The loop stops at the first attempt k that gets a status below 500: that
      response is returned, the error message is empty because the list was
      cleared, k + 1 transport calls were made and attempts 0 .. k - 1 backed off. */
  lemma FirstSuccessReturned(cfg: Config, req: Request, transport: nat -> Outcome, k: nat)
    requires CanExecute(cfg, req, transport) && !req.body.Unreadable?
    requires k <= cfg.retryCount
    requires forall j :: 0 <= j < k ==> Fails(transport(j))
    requires !Fails(transport(k))
    ensures var r := Execute(cfg, req, transport);
            && r.response == Some(Response(k, transport(k).status))
            && r.err == Some(Error(""))
            && Select(r.trace, SendKind) == Range(k + 1)
            && Select(r.trace, BackoffKind) == Range(k)
  {
    AttemptCountStops(cfg.retryCount, transport, k);
    ExecuteReadable(cfg, req, transport, k + 1);
    ScriptSends(cfg, req, transport, k + 1);
    ScriptBackoffs(cfg, req, transport, k + 1);
    FailingBelowAll(transport, k);
  }

  /** When every attempt fails, all retryCount + 1 are made and every one backs
      off, the last one included; the last attempt's response is returned (nil
      after a transport error, the 5xx response otherwise) with the transport
      error messages joined by commas in attempt order. */
  lemma AllAttemptsFail(cfg: Config, req: Request, transport: nat -> Outcome)
    requires CanExecute(cfg, req, transport) && !req.body.Unreadable?
    requires 0 <= cfg.retryCount
    requires forall k :: 0 <= k <= cfg.retryCount ==> Fails(transport(k))
    ensures var r, rc := Execute(cfg, req, transport), cfg.retryCount;
            && (transport(rc).TransportErr? ==> r.response == Nil)
            && (transport(rc).Resp? ==> r.response == Some(Response(rc, transport(rc).status)))
            && r.err == Some(Error(Join(ErrorList(transport, rc + 1), ",")))
            && Select(r.trace, SendKind) == Range(rc + 1)
            && Select(r.trace, BackoffKind) == Range(rc + 1)
  {
    var n := cfg.retryCount + 1;
    AttemptCountExhausted(cfg.retryCount, transport);
    ExecuteReadable(cfg, req, transport, n);
    ScriptSends(cfg, req, transport, n);
    ScriptBackoffs(cfg, req, transport, n);
    FailingBelowAll(transport, n);
  }

  /** Two attempts that both hit a transport error give their messages in order. */
  lemma TimeoutThenRefused(cfg: Config, req: Request, transport: nat -> Outcome)
    requires cfg.retrier.Some? && !req.body.Unreadable? && cfg.retryCount == 1
    requires transport(0) == TransportErr("timeout") && transport(1) == TransportErr("refused")
    ensures Execute(cfg, req, transport).err == Some(Error("timeout,refused"))
  {
    assert ErrorList(transport, 2) == ["timeout", "refused"] by {
      assert ErrorList(transport, 1) == ["timeout"];
    }
    assert Join(["timeout", "refused"], ",") == "timeout,refused" by {
      JoinPair("timeout", "refused", ",");
    }
    AllAttemptsFail(cfg, req, transport);
  }

  lemma JoinPair(a: string, b: string, sep: string)
    ensures Join([a, b], sep) == a + sep + b
  {
    assert [a, b][1..] == [b];
  }

  /** With a non-empty separator, a joined message is empty only for no message
      or a single empty one. */
  lemma {:induction false} JoinEmpty(xs: seq<string>, sep: string)
    requires sep != ""
    ensures Join(xs, sep) == "" <==> xs == [] || xs == [""]
  {
    if 1 < |xs| {
      assert |Join(xs, sep)| >= |sep| > 0;
    }
  }

  /** The returned message is empty exactly when the list Do joins is empty or
      holds one empty message: when the loop ended on a status below 500 (which
      clears the list), or when the attempts left no error message but one
      empty one. */
  lemma ErrorMessageEmpty(cfg: Config, req: Request, transport: nat -> Outcome)
    requires CanExecute(cfg, req, transport) && !req.body.Unreadable?
    ensures var n := AttemptCount(cfg.retryCount, transport);
            var errs := ErrorList(transport, n);
            Execute(cfg, req, transport).err.value.msg == ""
            <==> (0 < n && !Fails(transport(n - 1))) || errs == [] || errs == [""]
  {
    var n := AttemptCount(cfg.retryCount, transport);
    ExecuteReadable(cfg, req, transport, n);
    JoinEmpty(FinalErrors(transport, n), ",");
  }

  /** Every transport call goes to the net/http transport the configuration
      holds, `GetNetHttpClient()`. */
  lemma SendsUseInstalledTransport(cfg: Config, req: Request, transport: nat -> Outcome)
    requires CanExecute(cfg, req, transport)
    ensures forall e | e in Execute(cfg, req, transport).trace && e.Send? :: e.via == cfg.netHttpClient
  {
    if !req.body.Unreadable? {
      var n := AttemptCount(cfg.retryCount, transport);
      ExecuteReadable(cfg, req, transport, n);
      forall e | e in Execute(cfg, req, transport).trace && e.Send?
        ensures e.via == cfg.netHttpClient
      {
        ScriptMembers(cfg, req, transport, n, e);
      }
    }
  }

  /** Which transport is installed shows in every call that makes an attempt:
      two configurations that differ only in it give different events. */
  lemma TransportChoiceObservable(cfg: Config, req: Request, transport: nat -> Outcome, d: Nilable<NetDoer>)
    requires CanExecute(cfg, req, transport) && !req.body.Unreadable? && 0 <= cfg.retryCount
    requires d != cfg.netHttpClient
    ensures Execute(cfg.(netHttpClient := d), req, transport).trace != Execute(cfg, req, transport).trace
  {
    var other := cfg.(netHttpClient := d);
    var send := Send(0, cfg.netHttpClient, WireOf(req));
    HookOrder(cfg, req, transport, 0);
    assert send in AttemptEvents(cfg, req, transport, 0);
    assert send in Execute(cfg, req, transport).trace by {
      var p := Script(cfg, req, transport, 0) + AttemptEvents(cfg, req, transport, 0);
      assert send in p;
    }
    SendsUseInstalledTransport(other, req, transport);
  }

  /** Every response except the returned one is closed, in attempt order, before
      the next attempt; the returned response is never closed. */
  lemma ResponsesClosed(cfg: Config, req: Request, transport: nat -> Outcome)
    requires CanExecute(cfg, req, transport) && !req.body.Unreadable?
    ensures var r, n := Execute(cfg, req, transport), AttemptCount(cfg.retryCount, transport);
            var closed := Select(r.trace, CloseKind);
            && closed == RespondedBefore(transport, n)
            && (forall k: nat :: k + 1 < n && transport(k).Resp? ==> k in closed)
            && (r.response.Some? ==> r.response.value.attempt !in closed)
  {
    var n := AttemptCount(cfg.retryCount, transport);
    ExecuteReadable(cfg, req, transport, n);
    ScriptCloses(cfg, req, transport, n);
  }

  /** Every transport call receives the same request: Close set, and the full
      buffered body (no body when there was none). */
  lemma BodyReplayed(cfg: Config, req: Request, transport: nat -> Outcome)
    requires CanExecute(cfg, req, transport)
    ensures forall e | e in Execute(cfg, req, transport).trace && e.Send? ::
              && e.wire.close
              && (req.body.Readable? ==> e.wire.body == Some(req.body.content))
              && (req.body.NoBody? ==> e.wire.body == Nil)
              && e.wire.verb == req.verb && e.wire.url == req.url && e.wire.header == req.header
  {
    if !req.body.Unreadable? {
      var n := AttemptCount(cfg.retryCount, transport);
      ExecuteReadable(cfg, req, transport, n);
      forall e | e in Execute(cfg, req, transport).trace && e.Send?
        ensures e.wire == WireOf(req)
      {
        ScriptMembers(cfg, req, transport, n, e);
      }
    }
  }

  /** The hooks follow the outcome of their attempt: OnError only after a
      transport error, with its message; OnRequestEnd only after a response,
      with that response. So an attempt that errs never fires OnRequestEnd. */
  lemma HooksFollowOutcome(cfg: Config, req: Request, transport: nat -> Outcome)
    requires CanExecute(cfg, req, transport)
    ensures forall e | e in Execute(cfg, req, transport).trace && e.OnError? ::
              transport(e.attempt) == TransportErr(e.err.msg)
    ensures forall e | e in Execute(cfg, req, transport).trace && e.OnRequestEnd? ::
              transport(e.attempt) == Resp(e.response.status) && e.response.attempt == e.attempt
  {
    if !req.body.Unreadable? {
      var n := AttemptCount(cfg.retryCount, transport);
      ExecuteReadable(cfg, req, transport, n);
      forall e | e in Execute(cfg, req, transport).trace
        ensures e.OnError? ==> transport(e.attempt) == TransportErr(e.err.msg)
        ensures e.OnRequestEnd? ==> transport(e.attempt) == Resp(e.response.status) && e.response.attempt == e.attempt
      {
        ScriptMembers(cfg, req, transport, n, e);
      }
    }
  }

  /** Every backoff is NextInterval of the attempt it follows, and only a failed
      attempt backs off. */
  lemma BackoffUsesNextInterval(cfg: Config, req: Request, transport: nat -> Outcome)
    requires CanExecute(cfg, req, transport)
    ensures forall e | e in Execute(cfg, req, transport).trace && e.Backoff? ::
              Fails(transport(e.attempt)) && cfg.retrier.Some? && e.interval == cfg.retrier.value.nextInterval(e.attempt)
  {
    if !req.body.Unreadable? {
      var n := AttemptCount(cfg.retryCount, transport);
      ExecuteReadable(cfg, req, transport, n);
      forall e | e in Execute(cfg, req, transport).trace && e.Backoff?
        ensures Fails(transport(e.attempt)) && cfg.retrier.Some? && e.interval == cfg.retrier.value.nextInterval(e.attempt)
      {
        ScriptMembers(cfg, req, transport, n, e);
      }
    }
  }

  /** The events of every attempt i come right after those of the attempts
      before it, in the order AttemptEvents lays out: the close of the previous
      response when there is one, OnRequestStart on every interceptor in list
      order, the transport call, the hook its outcome calls for on every
      interceptor in list order, and the backoff if the attempt failed. */
  lemma HookOrder(cfg: Config, req: Request, transport: nat -> Outcome, i: nat)
    requires CanExecute(cfg, req, transport) && !req.body.Unreadable?
    requires i < AttemptCount(cfg.retryCount, transport)
    ensures BackoffsDefined(cfg, transport, i) && (cfg.retrier.Some? || !Fails(transport(i)))
    ensures Script(cfg, req, transport, i) + AttemptEvents(cfg, req, transport, i) <= Execute(cfg, req, transport).trace
  {
    var n := AttemptCount(cfg.retryCount, transport);
    ExecuteReadable(cfg, req, transport, n);
    AttemptInScript(cfg, req, transport, n, i);
  }
}
