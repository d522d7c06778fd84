/** The configuration record shared by the transport adapters: which transports
    to use, the timeout, the retry count, the backoff policy and the interceptor
    chain (httpclient/httpclient.go). */
module HttpClient {

  /** A Go value that may be nil: an interface or a pointer. */
  datatype Nilable<+T> = Nil | Some(value: T)

  /** time.Duration, a count of nanoseconds. */
  type Duration = int

  const Second: Duration := 1_000_000_000

  /** An implementation of NetHttpDoer, known by identity. StdClient is net/http's
      own client, with its Timeout field; any other implementation is Custom. */
  datatype NetDoer = StdClient(timeout: Duration) | CustomNetDoer(id: nat)

  /** An implementation of FastHttpDoer, known by identity. */
  datatype FastDoer = FastDoer(id: nat)

  /** A Retriable backoff policy, known only through NextInterval: the wait
      before the attempt after attempt i. */
  datatype Retrier = Retrier(nextInterval: nat -> Duration)

  /** An Interceptor (request-start, request-end and error hooks), known by identity. */
  datatype Interceptor = Interceptor(id: nat)

  /** The six fields of a Client, as a value. */
  datatype Config = Config(
    netHttpClient: Nilable<NetDoer>,
    fastHttpClient: Nilable<FastDoer>,
    timeout: Duration,
    retryCount: int,
    retrier: Nilable<Retrier>,
    interceptors: seq<Interceptor>)

  /** The zero value `httpclient.Client{}`. */
  const Zero: Config := Config(Nil, Nil, 0, 0, Nil, [])

  class Client {
    var netHttpClient: Nilable<NetDoer>
    var fastHttpClient: Nilable<FastDoer>
    var timeout: Duration
    var retryCount: int
    var retrier: Nilable<Retrier>
    var interceptors: seq<Interceptor>

    /** The record's fields as one value. */
    ghost function Value(): Config
      reads this
    {
      Config(netHttpClient, fastHttpClient, timeout, retryCount, retrier, interceptors)
    }

    /** `&httpclient.Client{}`: every field holds its zero value. */
    constructor ()
      ensures Value() == Zero
    {
      netHttpClient, fastHttpClient := Nil, Nil;
      timeout, retryCount := 0, 0;
      retrier, interceptors := Nil, [];
    }

    method GetNetHttpClient() returns (d: Nilable<NetDoer>)
      ensures d == netHttpClient
    {
      d := netHttpClient;
    }

    /** Stores d as the net/http transport; the other five fields are unchanged. */
    method SetNetHttpClient(d: Nilable<NetDoer>)
      modifies this
      ensures Value() == old(Value()).(netHttpClient := d)
    {
      netHttpClient := d;
    }

    method GetFastHttpClient() returns (d: Nilable<FastDoer>)
      ensures d == fastHttpClient
    {
      d := fastHttpClient;
    }

    /** Stores d as the fasthttp transport; the other five fields are unchanged. */
    method SetFastHttpClient(d: Nilable<FastDoer>)
      modifies this
      ensures Value() == old(Value()).(fastHttpClient := d)
    {
      fastHttpClient := d;
    }

    method GetInterceptors() returns (ics: seq<Interceptor>)
      ensures ics == interceptors
    {
      ics := interceptors;
    }

    method GetTimeout() returns (t: Duration)
      ensures t == timeout
    {
      t := timeout;
    }

    method GetRetryCount() returns (n: int)
      ensures n == retryCount
    {
      n := retryCount;
    }

    method GetRetrier() returns (r: Nilable<Retrier>)
      ensures r == retrier
    {
      r := retrier;
    }
  }
}
