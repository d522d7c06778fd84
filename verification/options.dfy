/** The configuration options (httpclient/options.go). Each `With*` constructor
    returns a closure that overwrites exactly one field of a Client; here the
    closure is the value it writes, tagged by the field it writes to. */
module Options {
  import opened HttpClient

  /** An Option closure: which field it overwrites and with what. */
  datatype Option =
    | TimeoutOpt(timeout: Duration)
    | RetryCountOpt(retryCount: int)
    | RetrierOpt(retrier: Nilable<Retrier>)
    | NetHTTPClientOpt(netClient: Nilable<NetDoer>)
    | FastHTTPClientOpt(fastClient: Nilable<FastDoer>)
    | InterceptorsOpt(interceptors: seq<Interceptor>)

  /** The six fields of a Client. */
  datatype Field = TimeoutField | RetryCountField | RetrierField
                 | NetHttpClientField | FastHttpClientField | InterceptorsField

  /** The field an option writes to. */
  function FieldOf(o: Option): Field
  {
    match o
    case TimeoutOpt(_) => TimeoutField
    case RetryCountOpt(_) => RetryCountField
    case RetrierOpt(_) => RetrierField
    case NetHTTPClientOpt(_) => NetHttpClientField
    case FastHTTPClientOpt(_) => FastHttpClientField
    case InterceptorsOpt(_) => InterceptorsField
  }

  /** The value cfg holds in field f, as the option that would write it. */
  function Current(cfg: Config, f: Field): (o: Option)
    ensures FieldOf(o) == f
  {
    match f
    case TimeoutField => TimeoutOpt(cfg.timeout)
    case RetryCountField => RetryCountOpt(cfg.retryCount)
    case RetrierField => RetrierOpt(cfg.retrier)
    case NetHttpClientField => NetHTTPClientOpt(cfg.netHttpClient)
    case FastHttpClientField => FastHTTPClientOpt(cfg.fastHttpClient)
    case InterceptorsField => InterceptorsOpt(cfg.interceptors)
  }

  /** Two configurations that agree on every field are the same configuration. */
  lemma FieldsDetermineConfig(a: Config, b: Config)
    requires forall f :: Current(a, f) == Current(b, f)
    ensures a == b
  {
    assert Current(a, TimeoutField) == Current(b, TimeoutField);
    assert Current(a, RetryCountField) == Current(b, RetryCountField);
    assert Current(a, RetrierField) == Current(b, RetrierField);
    assert Current(a, NetHttpClientField) == Current(b, NetHttpClientField);
    assert Current(a, FastHttpClientField) == Current(b, FastHttpClientField);
    assert Current(a, InterceptorsField) == Current(b, InterceptorsField);
  }

  /** What running the closure o does to a Client holding cfg: its own field
      takes the option's value, every other field keeps its value. */
  function ApplyTo(o: Option, cfg: Config): (r: Config)
    ensures Current(r, FieldOf(o)) == o
    ensures forall f :: f != FieldOf(o) ==> Current(r, f) == Current(cfg, f)
  {
    match o
    case TimeoutOpt(t) => cfg.(timeout := t)
    case RetryCountOpt(n) => cfg.(retryCount := n)
    case RetrierOpt(r) => cfg.(retrier := r)
    case NetHTTPClientOpt(d) => cfg.(netHttpClient := d)
    case FastHTTPClientOpt(d) => cfg.(fastHttpClient := d)
    case InterceptorsOpt(ics) => cfg.(interceptors := ics)
  }

  /** WithHTTPTimeout(t) sets the timeout to t and nothing else. */
  function WithHTTPTimeout(t: Duration): (o: Option)
    ensures FieldOf(o) == TimeoutField
    ensures forall cfg :: ApplyTo(o, cfg) == cfg.(timeout := t)
  {
    TimeoutOpt(t)
  }

  /** WithRetryCount(n) sets the retry count to n, negative or not, and nothing else. */
  function WithRetryCount(n: int): (o: Option)
    ensures FieldOf(o) == RetryCountField
    ensures forall cfg :: ApplyTo(o, cfg) == cfg.(retryCount := n)
  {
    RetryCountOpt(n)
  }

  /** WithRetrier(r) sets the backoff policy and nothing else. */
  function WithRetrier(r: Nilable<Retrier>): (o: Option)
    ensures FieldOf(o) == RetrierField
    ensures forall cfg :: ApplyTo(o, cfg) == cfg.(retrier := r)
  {
    RetrierOpt(r)
  }

  /** WithNetHTTPClient(d) sets the net/http transport and nothing else. */
  function WithNetHTTPClient(d: Nilable<NetDoer>): (o: Option)
    ensures FieldOf(o) == NetHttpClientField
    ensures forall cfg :: ApplyTo(o, cfg) == cfg.(netHttpClient := d)
  {
    NetHTTPClientOpt(d)
  }

  /** WithFastHTTPClient(d) sets the fasthttp transport and nothing else. */
  function WithFastHTTPClient(d: Nilable<FastDoer>): (o: Option)
    ensures FieldOf(o) == FastHttpClientField
    ensures forall cfg :: ApplyTo(o, cfg) == cfg.(fastHttpClient := d)
  {
    FastHTTPClientOpt(d)
  }

  /** WithInterceptor(ics) replaces the interceptor list wholesale: the old
      list is not kept, not even as a prefix. */
  function WithInterceptor(ics: seq<Interceptor>): (o: Option)
    ensures FieldOf(o) == InterceptorsField
    ensures forall cfg :: ApplyTo(o, cfg).interceptors == ics
    ensures forall cfg :: ApplyTo(o, cfg) == cfg.(interceptors := ics)
  {
    InterceptorsOpt(ics)
  }

  /** Runs the closure o on the Client c. */
  method Apply(o: Option, c: Client)
    modifies c
    ensures c.Value() == ApplyTo(o, old(c.Value()))
  {
    match o
    case TimeoutOpt(t) => c.timeout := t;
    case RetryCountOpt(n) => c.retryCount := n;
    case RetrierOpt(r) => c.retrier := r;
    case NetHTTPClientOpt(d) => c.netHttpClient := d;
    case FastHTTPClientOpt(d) => c.fastHttpClient := d;
    case InterceptorsOpt(ics) => c.interceptors := ics;
  }

  /** Every option is an overwrite: applying it twice is applying it once. */
  lemma ApplyIdempotent(o: Option, cfg: Config)
    ensures ApplyTo(o, ApplyTo(o, cfg)) == ApplyTo(o, cfg)
  {
  }

  /** Of two options on the same field, the later one wins. */
  lemma LaterOptionWins(first: Option, second: Option, cfg: Config)
    requires FieldOf(first) == FieldOf(second)
    ensures ApplyTo(second, ApplyTo(first, cfg)) == ApplyTo(second, cfg)
  {
  }

  /** Options on different fields can be given in either order. */
  lemma DistinctOptionsCommute(a: Option, b: Option, cfg: Config)
    requires FieldOf(a) != FieldOf(b)
    ensures ApplyTo(b, ApplyTo(a, cfg)) == ApplyTo(a, ApplyTo(b, cfg))
  {
  }

  /** The options applied in order, as NewClient's loop does. */
  function ApplyAll(opts: seq<Option>, cfg: Config): Config
  {
    if opts == [] then cfg else ApplyAll(opts[1..], ApplyTo(opts[0], cfg))
  }

  lemma {:induction false} ApplyAllAppend(a: seq<Option>, b: seq<Option>, cfg: Config)
    ensures ApplyAll(a + b, cfg) == ApplyAll(b, ApplyAll(a, cfg))
  {
    if a == [] {
      assert a + b == b;
    } else {
      assert (a + b)[0] == a[0] && (a + b)[1..] == a[1..] + b;
      ApplyAllAppend(a[1..], b, ApplyTo(a[0], cfg));
    }
  }

  /** Applying one more option applies it to the configuration the earlier
      options built. */
  lemma ApplyAllSnoc(opts: seq<Option>, o: Option, cfg: Config)
    ensures ApplyAll(opts + [o], cfg) == ApplyTo(o, ApplyAll(opts, cfg))
  {
    ApplyAllAppend(opts, [o], cfg);
  }

  /** A field that no option in opts writes keeps its starting value. */
  lemma {:induction false} ApplyAllUntouched(opts: seq<Option>, cfg: Config, f: Field)
    requires forall j :: 0 <= j < |opts| ==> FieldOf(opts[j]) != f
    ensures Current(ApplyAll(opts, cfg), f) == Current(cfg, f)
  {
    if opts != [] {
      ApplyAllUntouched(opts[1..], ApplyTo(opts[0], cfg), f);
    }
  }

  /** A field written by some option in opts ends with the value of the last
      option that writes it. */
  lemma ApplyAllLastWrite(opts: seq<Option>, cfg: Config, j: nat)
    requires j < |opts|
    requires forall k :: j < k < |opts| ==> FieldOf(opts[k]) != FieldOf(opts[j])
    ensures Current(ApplyAll(opts, cfg), FieldOf(opts[j])) == opts[j]
  {
    var f := FieldOf(opts[j]);
    assert opts == opts[..j] + [opts[j]] + opts[j + 1..];
    ApplyAllAppend(opts[..j] + [opts[j]], opts[j + 1..], cfg);
    ApplyAllSnoc(opts[..j], opts[j], cfg);
    var mid := ApplyAll(opts[..j] + [opts[j]], cfg);
    assert Current(mid, f) == opts[j];
    ApplyAllUntouched(opts[j + 1..], mid, f);
  }
}
