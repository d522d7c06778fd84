/** The net/http adapter (httpclient/nethttp/nethttp.go): NewClient, the verb
    facades and the retrying executor Do, proved against the specification in
    module Attempts. */
module NetHttp {
  import HttpClient
  import opened Options
  import opened Attempts
  import Guarantees

  type Nilable<T> = HttpClient.Nilable<T>
  type Config = HttpClient.Config
  type Duration = HttpClient.Duration

  /** Declared next to the timeout but never read: the zero-value retry count is 0 anyway. */
  const DefaultRetryCount: int := 0

  /** The Timeout of the net/http client NewClient installs when none was given. */
  const DefaultHTTPTimeout: Duration := 30 * HttpClient.Second

  /** The transport NewClient installs when the options left none. */
  const DefaultTransport: HttpClient.NetDoer := HttpClient.StdClient(DefaultHTTPTimeout)

  /** The configuration NewClient ends with: the default transport filled in when
      there is none, every other field as the options left it. */
  function WithDefaultTransport(cfg: Config): (r: Config)
    ensures r.netHttpClient.Some?
    ensures cfg.netHttpClient.Some? ==> r.netHttpClient == cfg.netHttpClient
    ensures forall f :: f != NetHttpClientField ==> Current(r, f) == Current(cfg, f)
  {
    if cfg.netHttpClient.Nil? then cfg.(netHttpClient := HttpClient.Some(DefaultTransport)) else cfg
  }

  /** bytes.Reader over the buffered request body: the bytes and the read offset. */
  class BytesReader {
    const data: seq<byte>
    var pos: nat

    ghost predicate Valid()
      reads this
    {
      pos <= |data|
    }

    /** bytes.NewReader(data). */
    constructor (data: seq<byte>)
      ensures this.data == data && pos == 0 && Valid()
    {
      this.data := data;
      pos := 0;
    }

    /** Reads everything from the offset to the end, as a transport does with a request body. */
    method ReadAll() returns (bytes: seq<byte>)
      requires Valid()
      modifies this
      ensures Valid()
      ensures bytes == old(data[pos..]) && pos == |data|
    {
      bytes := data[pos..];
      pos := |data|;
    }

    /** Seek(0, io.SeekStart). */
    method Rewind()
      modifies this
      ensures Valid() && pos == 0
    {
      pos := 0;
    }
  }

  /** http.NewRequest: the URL parse outcome is given as urlError. */
  datatype Built = Built(request: Request) | Rejected(err: Error)

  function NewRequest(verb: Method, url: string, body: Body, urlError: Nilable<Error>): (b: Built)
    ensures b.Rejected? <==> urlError.Some?
    ensures b.Rejected? ==> b.err == urlError.value
    ensures b.Built? ==> b.request.verb == verb && b.request.url == url && b.request.body == body
                         && b.request.header == map[] && !b.request.close
  {
    match urlError
    case Some(e) => Rejected(e)
    case Nil => Built(Request(verb, url, map[], body, false))
  }

  class Client {
    const httpClient: HttpClient.Client

    /** A client built by NewClient: a net/http transport is installed. */
    ghost predicate Valid()
      reads httpClient
    {
      httpClient.netHttpClient.Some?
    }

    constructor (httpClient: HttpClient.Client)
      ensures this.httpClient == httpClient
    {
      this.httpClient := httpClient;
    }

    /** Fires one hook on every interceptor, in list order (onRequestStart,
        onError and onRequestEnd). */
    method Notify(attempt: nat, hook: Hook) returns (fired: seq<Event>)
      ensures |fired| == |httpClient.interceptors|
      ensures forall k :: 0 <= k < |fired| ==> fired[k] == HookEvent(hook, attempt, httpClient.interceptors[k])
    {
      var ics := httpClient.GetInterceptors();
      fired := [];
      for k := 0 to |ics|
        invariant |fired| == k
        invariant forall j :: 0 <= j < k ==> fired[j] == HookEvent(hook, attempt, ics[j])
      {
        fired := fired + [HookEvent(hook, attempt, ics[k])];
      }
    }

    /** One call of the installed transport, `GetNetHttpClient().Do(request)`: it
        goes to the configured net/http transport, reads the body from the
        reader's offset to its end and yields the outcome the transport gives on
        its attempt-th call. */
    method RoundTrip(request: Request, reader: BytesReader?, transport: nat -> Outcome, attempt: nat)
      returns (via: Nilable<HttpClient.NetDoer>, wire: Wire, outcome: Outcome)
      requires Valid()
      requires reader != null ==> reader.Valid()
      modifies reader
      ensures via.Some? && via == httpClient.netHttpClient
      ensures reader != null ==> reader.Valid() && reader.pos == |reader.data|
      ensures wire == Wire(request.verb, request.url, request.header, request.close,
                           if reader == null then HttpClient.Nil else HttpClient.Some(old(reader.data[reader.pos..])))
      ensures outcome == transport(attempt)
    {
      via := httpClient.GetNetHttpClient();
      var body: Nilable<seq<byte>> := HttpClient.Nil;
      if reader != null {
        var bytes := reader.ReadAll();
        body := HttpClient.Some(bytes);
      }
      wire := Wire(request.verb, request.url, request.header, request.close, body);
      outcome := transport(attempt);
    }

    /** One attempt of Do's loop, up to the decision to stop or retry: closes the
        previous response, fires OnRequestStart, calls the transport, rewinds the
        body, then fires OnError or OnRequestEnd and backs off if the attempt failed. */
    method RunAttempt(req: Request, reader: BytesReader?, transport: nat -> Outcome, i: nat,
                      previous: Nilable<Response>)
      returns (events: seq<Event>, response: Nilable<Response>, outcome: Outcome)
      requires Valid()
      requires reader != null ==> reader.Valid() && reader.pos == 0 && req.body == Readable(reader.data)
      requires reader == null ==> !req.body.Readable?
      requires req.close
      requires previous == LastResponse(transport, i)
      requires httpClient.retrier.Some? || !Fails(transport(i))
      modifies reader
      ensures reader != null ==> reader.Valid() && reader.pos == 0
      ensures outcome == transport(i)
      ensures response == LastResponse(transport, i + 1)
      ensures events == AttemptEvents(httpClient.Value(), req, transport, i)
    {
      events := [];
      if previous.Some? {
        events := [CloseBody(previous.value.attempt)];
      }
      var fired := Notify(i, StartHook);
      assert fired == FanOut(httpClient.interceptors, i, StartHook);
      events := events + fired;
      var via, wire;
      via, wire, outcome := RoundTrip(req, reader, transport, i);
      if reader != null {
        assert reader.data[0..] == reader.data;
        reader.Rewind();
      }
      assert wire == WireOf(req);
      events := events + [Send(i, via, wire)];
      assert events == Prelude(transport, i) + FanOut(httpClient.interceptors, i, StartHook) + [Send(i, httpClient.netHttpClient, WireOf(req))];

      var reaction: seq<Event>;
      match outcome {
        case TransportErr(m) =>
          response := HttpClient.Nil;
          fired := Notify(i, ErrorHook(Error(m)));
          var retrier := httpClient.GetRetrier();
          reaction := fired + [Backoff(i, retrier.value.nextInterval(i))];
        case Resp(status) =>
          response := HttpClient.Some(Response(i, status));
          fired := Notify(i, EndHook(response.value));
          reaction := fired;
          if status >= StatusInternalServerError {
            var retrier := httpClient.GetRetrier();
            reaction := reaction + [Backoff(i, retrier.value.nextInterval(i))];
          }
      }
      assert fired == FanOut(httpClient.interceptors, i, ReactionHook(transport, i));
      assert reaction == Reaction(httpClient.Value(), transport, i);
      events := events + reaction;
    }

    /** Runs request with retries: up to retryCount + 1 attempts, stopping at the
        first one that neither errs nor gets a 5xx status. */
    method Do(request: Request, transport: nat -> Outcome)
      returns (response: Nilable<Response>, err: Nilable<Error>, trace: seq<Event>)
      requires Valid()
      requires CanExecute(httpClient.Value(), request, transport)
      ensures Execution(response, err, trace) == Execute(httpClient.Value(), request, transport)
    {
      var req := request.(close := true);
      var reader: BytesReader? := null;
      match req.body {
        case Unreadable(e) =>
          ExecuteUnreadable(httpClient.Value(), request, transport);
          return HttpClient.Nil, HttpClient.Some(e), [];
        case Readable(bytes) =>
          reader := new BytesReader(bytes);
        case NoBody =>
      }
      response, err, trace := Retry(request, req, reader, transport);
    }

    /** Do's loop over the attempts, once the body is buffered in reader, and
        the error it returns. */
    method Retry(request: Request, req: Request, reader: BytesReader?, transport: nat -> Outcome)
      returns (response: Nilable<Response>, err: Nilable<Error>, trace: seq<Event>)
      requires Valid()
      requires CanExecute(httpClient.Value(), request, transport) && !request.body.Unreadable?
      requires req == request.(close := true)
      requires reader != null ==> reader.Valid() && reader.pos == 0 && req.body == Readable(reader.data)
      requires reader == null ==> !req.body.Readable?
      modifies reader
      ensures Execution(response, err, trace) == Execute(httpClient.Value(), request, transport)
    {
      var errStrList;
      ghost var n;
      response, errStrList, trace, n := Loop(request, req, reader, transport);
      ExecuteReadable(httpClient.Value(), request, transport, n);
      err := HttpClient.Some(Error(Join(errStrList, ",")));
    }

    /** The loop `for i := 0; i <= retryCount; i++`: it ends after n attempts
        with the last response, the error list and the events of those attempts. */
    method Loop(request: Request, req: Request, reader: BytesReader?, transport: nat -> Outcome)
      returns (response: Nilable<Response>, errStrList: seq<string>, trace: seq<Event>, ghost n: nat)
      requires Valid()
      requires CanExecute(httpClient.Value(), request, transport) && !request.body.Unreadable?
      requires req == request.(close := true)
      requires reader != null ==> reader.Valid() && reader.pos == 0 && req.body == Readable(reader.data)
      requires reader == null ==> !req.body.Readable?
      modifies reader
      ensures n == AttemptCount(httpClient.retryCount, transport)
      ensures BackoffsDefined(httpClient.Value(), transport, n)
      ensures trace == Script(httpClient.Value(), request, transport, n)
      ensures errStrList == FinalErrors(transport, n)
      ensures response == LastResponse(transport, n)
    {
      ghost var cfg := httpClient.Value();
      var retryCount := httpClient.GetRetryCount();
      errStrList := [];
      response, trace := HttpClient.Nil, [];

      var i: nat := 0;
      while i <= retryCount
        invariant i <= if retryCount < 0 then 0 else retryCount + 1
        invariant forall k :: 0 <= k < i ==> Fails(transport(k))
        invariant BackoffsDefined(cfg, transport, i)
        invariant trace == Script(cfg, request, transport, i)
        invariant errStrList == ErrorList(transport, i)
        invariant response == LastResponse(transport, i)
        invariant reader != null ==> reader.Valid() && reader.pos == 0 && req.body == Readable(reader.data)
      {
        var events, stop;
        events, response, errStrList, stop := Iterate(request, req, reader, transport, i, response, errStrList);
        trace := trace + events;
        if stop {
          return response, errStrList, trace, i + 1;
        }
        i := i + 1;
      }
      if 0 <= retryCount {
        AttemptCountExhausted(retryCount, transport);
      }
      n := i;
    }

    /** One pass of Do's loop body: the attempt, then the error list appended to,
        or cleared when the attempt got a status below 500, which ends the loop. */
    method Iterate(request: Request, req: Request, reader: BytesReader?, transport: nat -> Outcome, i: nat,
                   previous: Nilable<Response>, errStrList: seq<string>)
      returns (events: seq<Event>, response: Nilable<Response>, errs: seq<string>, stop: bool)
      requires Valid()
      requires CanExecute(httpClient.Value(), request, transport) && !request.body.Unreadable?
      requires req == request.(close := true)
      requires reader != null ==> reader.Valid() && reader.pos == 0 && req.body == Readable(reader.data)
      requires reader == null ==> !req.body.Readable?
      requires i <= httpClient.retryCount
      requires forall k :: 0 <= k < i ==> Fails(transport(k))
      requires previous == LastResponse(transport, i) && errStrList == ErrorList(transport, i)
      modifies reader
      ensures reader != null ==> reader.Valid() && reader.pos == 0
      ensures stop <==> !Fails(transport(i))
      ensures response == LastResponse(transport, i + 1)
      ensures BackoffsDefined(httpClient.Value(), transport, i) && BackoffsDefined(httpClient.Value(), transport, i + 1)
      ensures Script(httpClient.Value(), request, transport, i + 1) == Script(httpClient.Value(), request, transport, i) + events
      ensures !stop ==> errs == ErrorList(transport, i + 1)
      ensures stop ==> errs == [] && AttemptCount(httpClient.retryCount, transport) == i + 1
    {
      ScriptStep(httpClient.Value(), request, transport, i);
      var outcome;
      events, response, outcome := RunAttempt(req, reader, transport, i, previous);
      assert AttemptEvents(httpClient.Value(), req, transport, i) == AttemptEvents(httpClient.Value(), request, transport, i);
      errs, stop := errStrList, false;
      match outcome {
        case TransportErr(m) =>
          errs := errStrList + [m];
        case Resp(status) =>
          if status < StatusInternalServerError {
            errs, stop := [], true;
            AttemptCountStops(httpClient.retryCount, transport, i);
          }
      }
    }

    /** Builds the request as http.NewRequest does, stores the headers on it and
        hands it to Do; a URL that does not parse ends the call with that error,
        before any attempt. */
    method Perform(verb: Method, url: string, body: Body, headers: Header, urlError: Nilable<Error>,
                   transport: nat -> Outcome)
      returns (response: Nilable<Response>, err: Nilable<Error>, trace: seq<Event>)
      requires Valid()
      requires urlError.Nil? ==> CanExecute(httpClient.Value(), Request(verb, url, headers, body, false), transport)
      ensures urlError.Some? ==> response == HttpClient.Nil && err == urlError && trace == []
      ensures urlError.Nil? ==> Execution(response, err, trace)
                                == Execute(httpClient.Value(), Request(verb, url, headers, body, false), transport)
    {
      match NewRequest(verb, url, body, urlError) {
        case Rejected(e) =>
          return HttpClient.Nil, HttpClient.Some(e), [];
        case Built(request) =>
          var req := request.(header := headers);
          response, err, trace := Do(req, transport);
      }
    }

    /** A GET: no body. */
    method Get(url: string, headers: Header, urlError: Nilable<Error>, transport: nat -> Outcome)
      returns (response: Nilable<Response>, err: Nilable<Error>, trace: seq<Event>)
      requires Valid()
      requires urlError.Nil? ==> CanExecute(httpClient.Value(), Request(GET, url, headers, NoBody, false), transport)
      ensures urlError.Some? ==> response == HttpClient.Nil && err == urlError && trace == []
      ensures urlError.Nil? ==> Execution(response, err, trace)
                                == Execute(httpClient.Value(), Request(GET, url, headers, NoBody, false), transport)
    {
      response, err, trace := Perform(GET, url, NoBody, headers, urlError, transport);
    }

    /** A POST with the given body. */
    method Post(url: string, body: Body, headers: Header, urlError: Nilable<Error>, transport: nat -> Outcome)
      returns (response: Nilable<Response>, err: Nilable<Error>, trace: seq<Event>)
      requires Valid()
      requires urlError.Nil? ==> CanExecute(httpClient.Value(), Request(POST, url, headers, body, false), transport)
      ensures urlError.Some? ==> response == HttpClient.Nil && err == urlError && trace == []
      ensures urlError.Nil? ==> Execution(response, err, trace)
                                == Execute(httpClient.Value(), Request(POST, url, headers, body, false), transport)
    {
      response, err, trace := Perform(POST, url, body, headers, urlError, transport);
    }

    /** A PUT with the given body. */
    method Put(url: string, body: Body, headers: Header, urlError: Nilable<Error>, transport: nat -> Outcome)
      returns (response: Nilable<Response>, err: Nilable<Error>, trace: seq<Event>)
      requires Valid()
      requires urlError.Nil? ==> CanExecute(httpClient.Value(), Request(PUT, url, headers, body, false), transport)
      ensures urlError.Some? ==> response == HttpClient.Nil && err == urlError && trace == []
      ensures urlError.Nil? ==> Execution(response, err, trace)
                                == Execute(httpClient.Value(), Request(PUT, url, headers, body, false), transport)
    {
      response, err, trace := Perform(PUT, url, body, headers, urlError, transport);
    }

    /** A PATCH with the given body. */
    method Patch(url: string, body: Body, headers: Header, urlError: Nilable<Error>, transport: nat -> Outcome)
      returns (response: Nilable<Response>, err: Nilable<Error>, trace: seq<Event>)
      requires Valid()
      requires urlError.Nil? ==> CanExecute(httpClient.Value(), Request(PATCH, url, headers, body, false), transport)
      ensures urlError.Some? ==> response == HttpClient.Nil && err == urlError && trace == []
      ensures urlError.Nil? ==> Execution(response, err, trace)
                                == Execute(httpClient.Value(), Request(PATCH, url, headers, body, false), transport)
    {
      response, err, trace := Perform(PATCH, url, body, headers, urlError, transport);
    }

    /** A DELETE: no body. */
    method Delete(url: string, headers: Header, urlError: Nilable<Error>, transport: nat -> Outcome)
      returns (response: Nilable<Response>, err: Nilable<Error>, trace: seq<Event>)
      requires Valid()
      requires urlError.Nil? ==> CanExecute(httpClient.Value(), Request(DELETE, url, headers, NoBody, false), transport)
      ensures urlError.Some? ==> response == HttpClient.Nil && err == urlError && trace == []
      ensures urlError.Nil? ==> Execution(response, err, trace)
                                == Execute(httpClient.Value(), Request(DELETE, url, headers, NoBody, false), transport)
    {
      response, err, trace := Perform(DELETE, url, NoBody, headers, urlError, transport);
    }
  }

  /** NewClient: a zero-valued configuration record, the options run on it in
      order, then the default transport installed if none was given. */
  method NewClient(opts: seq<Option>) returns (c: Client)
    ensures fresh(c) && fresh(c.httpClient)
    ensures c.Valid()
    ensures c.httpClient.Value() == WithDefaultTransport(ApplyAll(opts, HttpClient.Zero))
  {
    var hc := new HttpClient.Client();
    for i := 0 to |opts|
      invariant hc.Value() == ApplyAll(opts[..i], HttpClient.Zero)
    {
      Apply(opts[i], hc);
      assert opts[..i + 1] == opts[..i] + [opts[i]];
      ApplyAllSnoc(opts[..i], opts[i], HttpClient.Zero);
    }
    assert opts[..|opts|] == opts;
    var d := hc.GetNetHttpClient();
    if d == HttpClient.Nil {
      hc.SetNetHttpClient(HttpClient.Some(DefaultTransport));
    }
    c := new Client(hc);
  }

  /** Without a WithNetHTTPClient option, NewClient installs net/http's client
      with the 30-second timeout, whatever WithHTTPTimeout set; every other field
      is as the options left it. */
  lemma NewClientDefaultTransport(opts: seq<Option>)
    requires forall j :: 0 <= j < |opts| ==> FieldOf(opts[j]) != NetHttpClientField
    ensures var cfg := WithDefaultTransport(ApplyAll(opts, HttpClient.Zero));
            && cfg.netHttpClient == HttpClient.Some(HttpClient.StdClient(30 * HttpClient.Second))
            && cfg.timeout == ApplyAll(opts, HttpClient.Zero).timeout
  {
    ApplyAllUntouched(opts, HttpClient.Zero, NetHttpClientField);
  }

  /** Without a WithNetHTTPClient option, every transport call of a client that
      NewClient built goes to the default 30-second net/http client. */
  lemma NewClientCallsDefaultTransport(opts: seq<Option>, req: Request, transport: nat -> Outcome)
    requires forall j :: 0 <= j < |opts| ==> FieldOf(opts[j]) != NetHttpClientField
    requires CanExecute(WithDefaultTransport(ApplyAll(opts, HttpClient.Zero)), req, transport)
    ensures forall e | e in Execute(WithDefaultTransport(ApplyAll(opts, HttpClient.Zero)), req, transport).trace
                       && e.Send? :: e.via == HttpClient.Some(DefaultTransport)
  {
    NewClientDefaultTransport(opts);
    Guarantees.SendsUseInstalledTransport(WithDefaultTransport(ApplyAll(opts, HttpClient.Zero)), req, transport);
  }

  /** The last WithNetHTTPClient option decides the transport; if it passed nil,
      the default one is installed. */
  lemma NewClientLastTransport(opts: seq<Option>, j: nat)
    requires j < |opts| && FieldOf(opts[j]) == NetHttpClientField
    requires forall k :: j < k < |opts| ==> FieldOf(opts[k]) != NetHttpClientField
    ensures WithDefaultTransport(ApplyAll(opts, HttpClient.Zero)).netHttpClient
            == if opts[j].netClient.Some? then opts[j].netClient else HttpClient.Some(DefaultTransport)
  {
    ApplyAllLastWrite(opts, HttpClient.Zero, j);
  }
}
