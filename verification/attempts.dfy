/** What one call of the retrying executor `Client.Do` (httpclient/nethttp/nethttp.go)
    does, stated as values: how many attempts it makes, which response and which
    error it returns, and the sequence of observable events it produces (response
    bodies closed, interceptor hooks fired, transport calls, backoff waits). */
module Attempts {
  import opened HttpClient

  type byte = bv8

  datatype Method = GET | POST | PUT | PATCH | DELETE

  /** http.Header: each key with its values. */
  type Header = map<string, seq<string>>

  /** A Go error, by the text its Error() method returns. */
  datatype Error = Error(msg: string)

  /** A request body as Do finds it: absent, a reader that yields these bytes, or
      a reader on which ReadAll fails with readError. */
  datatype Body = NoBody | Readable(content: seq<byte>) | Unreadable(readError: Error)

  datatype Request = Request(verb: Method, url: string, header: Header, body: Body, close: bool)

  /** What one call of the transport yields: an error (and no response), or a
      response with this status code. */
  datatype Outcome = TransportErr(msg: string) | Resp(status: int)

  /** net/http's StatusInternalServerError. */
  const StatusInternalServerError: int := 500

  /** An attempt fails when the transport errs or the status is a server error
      (5xx, section 15.6 of RFC 9110, or above). */
  predicate Fails(o: Outcome)
  {
    o.TransportErr? || o.status >= StatusInternalServerError
  }

  /** A response, tagged with the attempt that received it. */
  datatype Response = Response(attempt: nat, status: int)

  /** The request as the transport receives it, with the body bytes it reads. */
  datatype Wire = Wire(verb: Method, url: string, header: Header, close: bool, body: Nilable<seq<byte>>)

  /** The three interceptor hooks, with what they are passed besides the request. */
  datatype Hook = StartHook | ErrorHook(err: Error) | EndHook(response: Response)

  /** The observable steps of one Do call, each tagged with an attempt index. */
  datatype Event =
    | CloseBody(attempt: nat)                                          // response of that attempt closed
    | OnRequestStart(attempt: nat, interceptor: Interceptor)
    | Send(attempt: nat, via: Nilable<NetDoer>, wire: Wire)            // one call of the transport via
    | OnError(attempt: nat, interceptor: Interceptor, err: Error)
    | OnRequestEnd(attempt: nat, interceptor: Interceptor, response: Response)
    | Backoff(attempt: nat, interval: Duration)                        // NextInterval(attempt), then sleep

  /** What Do returns, with the events it produced. */
  datatype Execution = Execution(response: Nilable<Response>, err: Nilable<Error>, trace: seq<Event>)

  function HookEvent(hook: Hook, attempt: nat, ic: Interceptor): Event
  {
    match hook
    case StartHook => OnRequestStart(attempt, ic)
    case ErrorHook(e) => OnError(attempt, ic, e)
    case EndHook(r) => OnRequestEnd(attempt, ic, r)
  }

  /** One hook fired on every interceptor, in list order. */
  function FanOut(ics: seq<Interceptor>, attempt: nat, hook: Hook): (evs: seq<Event>)
    ensures |evs| == |ics|
    ensures forall k :: 0 <= k < |ics| ==> evs[k] == HookEvent(hook, attempt, ics[k])
  {
    if ics == [] then [] else [HookEvent(hook, attempt, ics[0])] + FanOut(ics[1..], attempt, hook)
  }

  /** The number of attempts the loop `for i := 0; i <= retryCount; i++` makes when
      it stops at the first attempt that does not fail. */
  function AttemptCount(retryCount: int, transport: nat -> Outcome): (n: nat)
    ensures retryCount < 0 ==> n == 0
    ensures 0 <= retryCount ==> 1 <= n <= retryCount + 1
    ensures forall k :: 0 <= k < n - 1 ==> Fails(transport(k))
    ensures 0 < n <= retryCount ==> !Fails(transport(n - 1))
  {
    if retryCount < 0 then 0 else AttemptsFrom(0, retryCount, transport)
  }

  function AttemptsFrom(i: nat, last: nat, transport: nat -> Outcome): (n: nat)
    requires i <= last
    ensures i + 1 <= n <= last + 1
    ensures forall k :: i <= k < n - 1 ==> Fails(transport(k))
    ensures n <= last ==> !Fails(transport(n - 1))
    decreases last - i
  {
    if i == last || !Fails(transport(i)) then i + 1 else AttemptsFrom(i + 1, last, transport)
  }

  /** When every allowed attempt fails, all retryCount + 1 of them are made. */
  lemma AttemptCountExhausted(retryCount: int, transport: nat -> Outcome)
    requires 0 <= retryCount
    requires forall k :: 0 <= k <= retryCount ==> Fails(transport(k))
    ensures AttemptCount(retryCount, transport) == retryCount + 1
  {
  }

  /** The loop stops right after the first attempt that does not fail. */
  lemma AttemptCountStops(retryCount: int, transport: nat -> Outcome, i: nat)
    requires i <= retryCount
    requires forall k :: 0 <= k < i ==> Fails(transport(k))
    requires !Fails(transport(i))
    ensures AttemptCount(retryCount, transport) == i + 1
  {
  }

  /** The messages of the transport errors among the first n attempts, in order. */
  function ErrorList(transport: nat -> Outcome, n: nat): (errs: seq<string>)
    ensures |errs| <= n
    ensures (forall k :: 0 <= k < n ==> transport(k).TransportErr?) ==> |errs| == n
  {
    if n == 0 then []
    else ErrorList(transport, n - 1) + (match transport(n - 1)
                                        case TransportErr(m) => [m]
                                        case Resp(_) => [])
  }

  /** The error list Do joins at the end: cleared when the last attempt succeeded. */
  function FinalErrors(transport: nat -> Outcome, n: nat): seq<string>
  {
    if 0 < n && !Fails(transport(n - 1)) then [] else ErrorList(transport, n)
  }

  /** strings.Join. */
  function Join(xs: seq<string>, sep: string): string
  {
    if xs == [] then "" else if |xs| == 1 then xs[0] else xs[0] + sep + Join(xs[1..], sep)
  }

  /** The request the transport receives: Close set, and the buffered body. */
  function WireOf(req: Request): (w: Wire)
  {
    Wire(req.verb, req.url, req.header, true,
         match req.body
         case Readable(bytes) => Some(bytes)
         case _ => Nil)
  }

  /** Every failing attempt among the first n has a retrier to ask for its backoff. */
  predicate BackoffsDefined(cfg: Config, transport: nat -> Outcome, n: nat)
  {
    cfg.retrier.Some? || forall i :: 0 <= i < n ==> !Fails(transport(i))
  }

  /** The close of the previous response, if attempt i - 1 got one. */
  function Prelude(transport: nat -> Outcome, i: nat): seq<Event>
  {
    if 0 < i && transport(i - 1).Resp? then [CloseBody(i - 1)] else []
  }

  /** The hook an outcome fires: OnError for a transport error, OnRequestEnd for a response. */
  function ReactionHook(transport: nat -> Outcome, i: nat): Hook
  {
    match transport(i)
    case TransportErr(m) => ErrorHook(Error(m))
    case Resp(s) => EndHook(Response(i, s))
  }

  /** The backoff of attempt i: NextInterval(i), when the attempt failed. */
  function BackoffTail(cfg: Config, transport: nat -> Outcome, i: nat): seq<Event>
    requires cfg.retrier.Some? || !Fails(transport(i))
  {
    if Fails(transport(i)) then [Backoff(i, cfg.retrier.value.nextInterval(i))] else []
  }

  /** What follows the transport call of attempt i. */
  function Reaction(cfg: Config, transport: nat -> Outcome, i: nat): seq<Event>
    requires cfg.retrier.Some? || !Fails(transport(i))
  {
    FanOut(cfg.interceptors, i, ReactionHook(transport, i)) + BackoffTail(cfg, transport, i)
  }

  /** The events of attempt i. */
  function AttemptEvents(cfg: Config, req: Request, transport: nat -> Outcome, i: nat): seq<Event>
    requires cfg.retrier.Some? || !Fails(transport(i))
  {
    Prelude(transport, i) + FanOut(cfg.interceptors, i, StartHook) + [Send(i, cfg.netHttpClient, WireOf(req))]
    + Reaction(cfg, transport, i)
  }

  /** The events of the first n attempts. */
  function Script(cfg: Config, req: Request, transport: nat -> Outcome, n: nat): seq<Event>
    requires BackoffsDefined(cfg, transport, n)
  {
    if n == 0 then [] else Script(cfg, req, transport, n - 1) + AttemptEvents(cfg, req, transport, n - 1)
  }

  /** The response variable after n attempts: that of the last one, nil if it erred. */
  function LastResponse(transport: nat -> Outcome, n: nat): Nilable<Response>
  {
    if n == 0 then Nil
    else match transport(n - 1)
         case Resp(s) => Some(Response(n - 1, s))
         case TransportErr(_) => Nil
  }

  /** The first attempt fails and there is no retrier to ask: Do would dereference nil. */
  predicate RetrierNeeded(cfg: Config, req: Request, transport: nat -> Outcome)
  {
    !req.body.Unreadable? && 0 <= cfg.retryCount && Fails(transport(0))
  }

  predicate CanExecute(cfg: Config, req: Request, transport: nat -> Outcome)
  {
    cfg.retrier.Some? || !RetrierNeeded(cfg, req, transport)
  }

  lemma RetrierSuffices(cfg: Config, req: Request, transport: nat -> Outcome)
    requires CanExecute(cfg, req, transport) && !req.body.Unreadable?
    ensures BackoffsDefined(cfg, transport, AttemptCount(cfg.retryCount, transport))
  {
    var n := AttemptCount(cfg.retryCount, transport);
    if cfg.retrier.Nil? && 0 < n {
      assert !Fails(transport(0));
      assert n == 1;
    }
  }

  /** One more attempt, while every earlier one failed: the retrier is there if
      this one fails, and the events and errors grow by this attempt's. */
  lemma ScriptStep(cfg: Config, req: Request, transport: nat -> Outcome, i: nat)
    requires CanExecute(cfg, req, transport) && !req.body.Unreadable?
    requires i <= cfg.retryCount
    requires forall k :: 0 <= k < i ==> Fails(transport(k))
    ensures cfg.retrier.Some? || !Fails(transport(i))
    ensures BackoffsDefined(cfg, transport, i) && BackoffsDefined(cfg, transport, i + 1)
    ensures Script(cfg, req, transport, i + 1) == Script(cfg, req, transport, i) + AttemptEvents(cfg, req, transport, i)
    ensures ErrorList(transport, i + 1)
            == ErrorList(transport, i) + (if transport(i).TransportErr? then [transport(i).msg] else [])
  {
    if cfg.retrier.Nil? {
      assert !Fails(transport(0));
      assert i == 0;
    }
  }

  /** One Do call on a client configured as cfg. */
  function Execute(cfg: Config, req: Request, transport: nat -> Outcome): (r: Execution)
    requires CanExecute(cfg, req, transport)
    ensures r.err.Some?
  {
    if req.body.Unreadable? then Execution(Nil, Some(req.body.readError), [])
    else
      var n := AttemptCount(cfg.retryCount, transport);
      RetrierSuffices(cfg, req, transport);
      Execution(LastResponse(transport, n), Some(Error(Join(FinalErrors(transport, n), ","))),
                Script(cfg, req, transport, n))
  }

  /** A body that cannot be read ends the call before any attempt: no transport
      call, no hook, a nil response and the read error. */
  lemma ExecuteUnreadable(cfg: Config, req: Request, transport: nat -> Outcome)
    requires CanExecute(cfg, req, transport) && req.body.Unreadable?
    ensures Execute(cfg, req, transport) == Execution(Nil, Some(req.body.readError), [])
  {
  }

  /** Execute for a body that can be read, in terms of the number of attempts. */
  lemma ExecuteReadable(cfg: Config, req: Request, transport: nat -> Outcome, n: nat)
    requires CanExecute(cfg, req, transport) && !req.body.Unreadable?
    requires n == AttemptCount(cfg.retryCount, transport)
    ensures BackoffsDefined(cfg, transport, n)
    ensures Execute(cfg, req, transport)
            == Execution(LastResponse(transport, n), Some(Error(Join(FinalErrors(transport, n), ","))),
                         Script(cfg, req, transport, n))
  {
    RetrierSuffices(cfg, req, transport);
  }

  // ---------------------------------------------------------------------------
  // Counting events by kind

  datatype Kind = CloseKind | StartKind | SendKind | ErrorKind | EndKind | BackoffKind

  function KindOf(e: Event): Kind
  {
    match e
    case CloseBody(_) => CloseKind
    case OnRequestStart(_, _) => StartKind
    case Send(_, _, _) => SendKind
    case OnError(_, _, _) => ErrorKind
    case OnRequestEnd(_, _, _) => EndKind
    case Backoff(_, _) => BackoffKind
  }

  /** The attempt indices of the events of this kind, in trace order. */
  function Select(t: seq<Event>, kind: Kind): seq<nat>
  {
    if t == [] then []
    else (if KindOf(t[0]) == kind then [t[0].attempt] else []) + Select(t[1..], kind)
  }

  /** 0, 1, ..., n - 1. */
  function Range(n: nat): (r: seq<nat>)
    ensures |r| == n
    ensures forall k :: 0 <= k < n ==> r[k] == k
  {
    if n == 0 then [] else Range(n - 1) + [n - 1]
  }

  /** The attempts below n whose outcome fails, in order. */
  function FailingBelow(transport: nat -> Outcome, n: nat): (r: seq<nat>)
    ensures forall k: nat :: k in r <==> k < n && Fails(transport(k))
  {
    if n == 0 then [] else FailingBelow(transport, n - 1) + (if Fails(transport(n - 1)) then [n - 1] else [])
  }

  /** The attempts among the first n, other than the last one, that received a
      response, in order. */
  function RespondedBefore(transport: nat -> Outcome, n: nat): (r: seq<nat>)
    ensures forall k: nat :: k in r <==> k + 1 < n && transport(k).Resp?
  {
    if n == 0 then [] else RespondedBefore(transport, n - 1) + (if 1 < n && transport(n - 2).Resp? then [n - 2] else [])
  }

  /** When every attempt below n fails, every one of them is listed. */
  lemma {:induction false} FailingBelowAll(transport: nat -> Outcome, n: nat)
    requires forall k :: 0 <= k < n ==> Fails(transport(k))
    ensures FailingBelow(transport, n) == Range(n)
  {
    if n > 0 {
      FailingBelowAll(transport, n - 1);
    }
  }

  lemma {:induction false} SelectAppend(a: seq<Event>, b: seq<Event>, kind: Kind)
    ensures Select(a + b, kind) == Select(a, kind) + Select(b, kind)
  {
    if a == [] {
      assert a + b == b;
    } else {
      assert (a + b)[0] == a[0] && (a + b)[1..] == a[1..] + b;
      SelectAppend(a[1..], b, kind);
    }
  }

  lemma {:induction false} SelectNone(t: seq<Event>, kind: Kind)
    requires forall q :: 0 <= q < |t| ==> KindOf(t[q]) != kind
    ensures Select(t, kind) == []
  {
    if t != [] {
      SelectNone(t[1..], kind);
    }
  }

  lemma SelectFanOut(ics: seq<Interceptor>, i: nat, hook: Hook, kind: Kind)
    requires kind in {CloseKind, SendKind, BackoffKind}
    ensures Select(FanOut(ics, i, hook), kind) == []
  {
    SelectNone(FanOut(ics, i, hook), kind);
  }

  lemma SelectOne(e: Event, kind: Kind)
    ensures Select([e], kind) == if KindOf(e) == kind then [e.attempt] else []
  {
    assert [e][1..] == [];
  }

  lemma AttemptSelect(cfg: Config, req: Request, transport: nat -> Outcome, i: nat, kind: Kind)
    requires cfg.retrier.Some? || !Fails(transport(i))
    requires kind in {CloseKind, SendKind, BackoffKind}
    ensures Select(AttemptEvents(cfg, req, transport, i), kind)
            == Select(Prelude(transport, i), kind) + Select([Send(i, cfg.netHttpClient, WireOf(req))], kind)
               + Select(BackoffTail(cfg, transport, i), kind)
  {
    var ics := cfg.interceptors;
    var pre, starts, send := Prelude(transport, i), FanOut(ics, i, StartHook), [Send(i, cfg.netHttpClient, WireOf(req))];
    var reactions, tail := FanOut(ics, i, ReactionHook(transport, i)), BackoffTail(cfg, transport, i);
    SelectAppend(pre + starts + send, reactions + tail, kind);
    SelectAppend(pre + starts, send, kind);
    SelectAppend(pre, starts, kind);
    SelectFanOut(ics, i, StartHook, kind);
    SelectAppend(reactions, tail, kind);
    SelectFanOut(ics, i, ReactionHook(transport, i), kind);
  }

  /** The transport call of attempt i, projected on kind. */
  lemma SendSelect(cfg: Config, req: Request, i: nat, kind: Kind)
    ensures Select([Send(i, cfg.netHttpClient, WireOf(req))], kind) == if kind == SendKind then [i] else []
  {
    SelectOne(Send(i, cfg.netHttpClient, WireOf(req)), kind);
  }

  /** The close that opens attempt i, projected on kind. */
  lemma PreludeSelect(transport: nat -> Outcome, i: nat, kind: Kind)
    ensures Select(Prelude(transport, i), kind)
            == if kind == CloseKind && 0 < i && transport(i - 1).Resp? then [i - 1] else []
  {
    if 0 < i && transport(i - 1).Resp? {
      SelectOne(CloseBody(i - 1), kind);
    }
  }

  /** The backoff that ends attempt i, projected on kind. */
  lemma BackoffTailSelect(cfg: Config, transport: nat -> Outcome, i: nat, kind: Kind)
    requires cfg.retrier.Some? || !Fails(transport(i))
    ensures Select(BackoffTail(cfg, transport, i), kind)
            == if kind == BackoffKind && Fails(transport(i)) then [i] else []
  {
    if Fails(transport(i)) {
      SelectOne(Backoff(i, cfg.retrier.value.nextInterval(i)), kind);
    }
  }

  lemma AttemptSends(cfg: Config, req: Request, transport: nat -> Outcome, i: nat)
    requires cfg.retrier.Some? || !Fails(transport(i))
    ensures Select(AttemptEvents(cfg, req, transport, i), SendKind) == [i]
  {
    AttemptSelect(cfg, req, transport, i, SendKind);
    PreludeSelect(transport, i, SendKind);
    SendSelect(cfg, req, i, SendKind);
    BackoffTailSelect(cfg, transport, i, SendKind);
  }

  lemma AttemptBackoffs(cfg: Config, req: Request, transport: nat -> Outcome, i: nat)
    requires cfg.retrier.Some? || !Fails(transport(i))
    ensures Select(AttemptEvents(cfg, req, transport, i), BackoffKind) == if Fails(transport(i)) then [i] else []
  {
    AttemptSelect(cfg, req, transport, i, BackoffKind);
    PreludeSelect(transport, i, BackoffKind);
    SendSelect(cfg, req, i, BackoffKind);
    BackoffTailSelect(cfg, transport, i, BackoffKind);
  }

  lemma AttemptCloses(cfg: Config, req: Request, transport: nat -> Outcome, i: nat)
    requires cfg.retrier.Some? || !Fails(transport(i))
    ensures Select(AttemptEvents(cfg, req, transport, i), CloseKind)
            == if 0 < i && transport(i - 1).Resp? then [i - 1] else []
  {
    AttemptSelect(cfg, req, transport, i, CloseKind);
    PreludeSelect(transport, i, CloseKind);
    SendSelect(cfg, req, i, CloseKind);
    BackoffTailSelect(cfg, transport, i, CloseKind);
  }

  /** Each of the first n attempts calls the transport exactly once, in attempt order. */
  lemma {:induction false} ScriptSends(cfg: Config, req: Request, transport: nat -> Outcome, n: nat)
    requires BackoffsDefined(cfg, transport, n)
    ensures Select(Script(cfg, req, transport, n), SendKind) == Range(n)
  {
    if n > 0 {
      ScriptSends(cfg, req, transport, n - 1);
      SelectAppend(Script(cfg, req, transport, n - 1), AttemptEvents(cfg, req, transport, n - 1), SendKind);
      AttemptSends(cfg, req, transport, n - 1);
    }
  }

  /** An attempt backs off exactly when it fails, in attempt order. */
  lemma {:induction false} ScriptBackoffs(cfg: Config, req: Request, transport: nat -> Outcome, n: nat)
    requires BackoffsDefined(cfg, transport, n)
    ensures Select(Script(cfg, req, transport, n), BackoffKind) == FailingBelow(transport, n)
  {
    if n > 0 {
      ScriptBackoffs(cfg, req, transport, n - 1);
      SelectAppend(Script(cfg, req, transport, n - 1), AttemptEvents(cfg, req, transport, n - 1), BackoffKind);
      AttemptBackoffs(cfg, req, transport, n - 1);
    }
  }

  /** The response of an attempt is closed exactly when it exists and another
      attempt follows it. */
  lemma {:induction false} ScriptCloses(cfg: Config, req: Request, transport: nat -> Outcome, n: nat)
    requires BackoffsDefined(cfg, transport, n)
    ensures Select(Script(cfg, req, transport, n), CloseKind) == RespondedBefore(transport, n)
  {
    if n > 0 {
      ScriptCloses(cfg, req, transport, n - 1);
      SelectAppend(Script(cfg, req, transport, n - 1), AttemptEvents(cfg, req, transport, n - 1), CloseKind);
      AttemptCloses(cfg, req, transport, n - 1);
    }
  }

  // ---------------------------------------------------------------------------
  // Where events sit in the trace

  lemma InFanOut(ics: seq<Interceptor>, i: nat, hook: Hook, e: Event)
    requires e in FanOut(ics, i, hook)
    ensures exists ic :: ic in ics && e == HookEvent(hook, i, ic)
  {
    var evs := FanOut(ics, i, hook);
    var k :| 0 <= k < |evs| && evs[k] == e;
    assert ics[k] in ics && e == HookEvent(hook, i, ics[k]);
  }

  /** The first m attempts' events are a prefix of the first n attempts'. */
  lemma {:induction false} ScriptPrefix(cfg: Config, req: Request, transport: nat -> Outcome, m: nat, n: nat)
    requires m <= n && BackoffsDefined(cfg, transport, n)
    ensures BackoffsDefined(cfg, transport, m)
    ensures Script(cfg, req, transport, m) <= Script(cfg, req, transport, n)
  {
    if m < n {
      ScriptPrefix(cfg, req, transport, m, n - 1);
    }
  }

  /** Attempt i's events sit in the trace of n > i attempts right after the
      events of the attempts before it. */
  lemma AttemptInScript(cfg: Config, req: Request, transport: nat -> Outcome, n: nat, i: nat)
    requires i < n && BackoffsDefined(cfg, transport, n)
    ensures BackoffsDefined(cfg, transport, i)
    ensures cfg.retrier.Some? || !Fails(transport(i))
    ensures Script(cfg, req, transport, i) + AttemptEvents(cfg, req, transport, i) <= Script(cfg, req, transport, n)
  {
    ScriptPrefix(cfg, req, transport, i + 1, n);
  }

  // ---------------------------------------------------------------------------
  // What each event in the trace says

  /** Every event of attempt i is about attempt i (a close, about the attempt
      before it) and agrees with the outcome of that attempt. */
  lemma AttemptMembers(cfg: Config, req: Request, transport: nat -> Outcome, i: nat, e: Event)
    requires cfg.retrier.Some? || !Fails(transport(i))
    requires e in AttemptEvents(cfg, req, transport, i)
    ensures e.CloseBody? ==> e.attempt + 1 == i && transport(e.attempt).Resp?
    ensures !e.CloseBody? ==> e.attempt == i
    ensures e.Send? ==> e.via == cfg.netHttpClient && e.wire == WireOf(req)
    ensures e.OnRequestStart? ==> e.interceptor in cfg.interceptors
    ensures e.OnError? ==> e.interceptor in cfg.interceptors && transport(i) == TransportErr(e.err.msg)
    ensures e.OnRequestEnd? ==> e.interceptor in cfg.interceptors
                                && transport(i) == Resp(e.response.status) && e.response.attempt == i
    ensures e.Backoff? ==> Fails(transport(i)) && cfg.retrier.Some?
                           && e.interval == cfg.retrier.value.nextInterval(i)
  {
    var ics := cfg.interceptors;
    var pre, starts, send := Prelude(transport, i), FanOut(ics, i, StartHook), [Send(i, cfg.netHttpClient, WireOf(req))];
    var reactions, tail := FanOut(ics, i, ReactionHook(transport, i)), BackoffTail(cfg, transport, i);
    assert AttemptEvents(cfg, req, transport, i) == pre + starts + send + (reactions + tail);
    if e in starts {
      InFanOut(ics, i, StartHook, e);
    } else if e in reactions {
      InFanOut(ics, i, ReactionHook(transport, i), e);
    }
  }

  /** Every event among the first n attempts agrees with the outcome of the
      attempt it is about: transport calls carry the buffered request, OnError
      follows only a transport error and passes its message, OnRequestEnd
      follows only a response and passes it, a close follows only a response,
      and a backoff follows only a failure and waits NextInterval(i). */
  lemma {:induction false} ScriptMembers(cfg: Config, req: Request, transport: nat -> Outcome, n: nat, e: Event)
    requires BackoffsDefined(cfg, transport, n)
    requires e in Script(cfg, req, transport, n)
    ensures e.attempt < n
    ensures e.CloseBody? ==> e.attempt + 1 < n && transport(e.attempt).Resp?
    ensures e.Send? ==> e.via == cfg.netHttpClient && e.wire == WireOf(req)
    ensures e.OnRequestStart? ==> e.interceptor in cfg.interceptors
    ensures e.OnError? ==> e.interceptor in cfg.interceptors && transport(e.attempt) == TransportErr(e.err.msg)
    ensures e.OnRequestEnd? ==> e.interceptor in cfg.interceptors
                                && transport(e.attempt) == Resp(e.response.status) && e.response.attempt == e.attempt
    ensures e.Backoff? ==> Fails(transport(e.attempt)) && cfg.retrier.Some?
                           && e.interval == cfg.retrier.value.nextInterval(e.attempt)
  {
    if n > 0 {
      var s, a := Script(cfg, req, transport, n - 1), AttemptEvents(cfg, req, transport, n - 1);
      assert Script(cfg, req, transport, n) == s + a;
      if e in s {
        ScriptMembers(cfg, req, transport, n - 1, e);
      } else {
        AttemptMembers(cfg, req, transport, n - 1, e);
      }
    }
  }
}
