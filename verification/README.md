# netgd retrying HTTP client, modelled in Dafny

This project models the core of netgd, a Go HTTP client library. The library
puts a verb API (GET, POST, PUT, PATCH, DELETE) in front of a pluggable
transport and adds retries with a backoff policy and interceptor hooks.

The model covers three parts of the library:

- **The configuration record** `httpclient.Client` (`httpclient/httpclient.go`).
  It has six fields: the net/http transport, the fasthttp transport, the
  timeout, the retry count, the backoff policy (`Retriable`) and the interceptor
  list. It has getters for all six and setters for the two transports. It is
  modelled as the class `HttpClient.Client`, whose ghost function `Value()`
  gives its fields as one `Config` value.
- **The options** (`httpclient/options.go`). Each `With*` constructor returns a
  closure that overwrites one field. A closure is modelled as the datatype
  `Options.Option`, which records the field and the value written. `ApplyTo` is
  what the closure does to a `Config`. The method `Apply` runs the closure on a
  `Client` in place.
- **The net/http adapter** (`httpclient/nethttp/nethttp.go`):
  - `NewClient` applies the options in order. It installs a default 30-second
    net/http client when no transport was given.
  - The verb facades build a request and hand it to `Do`.
  - `Do` is the retrying executor. It buffers the body once and makes up to
    `retryCount + 1` attempts. Each attempt closes the previous response, fires
    `OnRequestStart` on every interceptor, calls the transport and rewinds the
    body. A transport error records its message, fires `OnError` and backs off.
    A response fires `OnRequestEnd`. A status of 500 or more backs off and
    retries. Any other status clears the error list and stops the loop. `Do`
    returns the last response and an error whose message is the comma-joined
    list of errors.

`NetHttp.Client.Do` is imperative. Its loop is split across the methods
`Retry`, `Loop`, `Iterate`, `RunAttempt`, `RoundTrip` and `Notify`. The reader
over the buffered body is a class (`BytesReader`) with a read offset that the
transport advances and `Do` rewinds.

`Do` is proved equal to `Attempts.Execute`, a function of three inputs:

- the configuration;
- the request;
- the transport, given as the function from call number to outcome.

`Execute` returns three things:

- the response, tagged with the attempt that received it;
- the error;
- the **trace**: the sequence of observable events of the call. The events are
  a closed response body, a hook fired on an interceptor, a transport call with
  the net/http transport it went to and the exact request that transport received, and a backoff wait of
  `NextInterval(i)`.

The module `Guarantees` proves what a caller of `Do` can rely on, stated about
`Execute`:

- how many transport calls are made;
- which response and error come back;
- that every attempt sends the same bytes;
- the order of hooks around each call;
- which attempts back off;
- which responses are closed.

Files: `httpclient.dfy` (module `HttpClient`), `options.dfy` (`Options`),
`attempts.dfy` (`Attempts`: the specification of one `Do` call), `nethttp.dfy`
(`NetHttp`) and `guarantees.dfy` (`Guarantees`).

## Model

| member | source | states |
|---|---|---|
| HttpClient.Client.constructor | httpclient/nethttp/nethttp.go:26 | `&httpclient.Client{}` holds the zero value in every field: no transports, timeout 0, retry count 0, no retrier, no interceptors |
| HttpClient.Client.GetNetHttpClient | httpclient/httpclient.go:37-39 | returns the stored net/http transport and changes nothing |
| HttpClient.Client.SetNetHttpClient | httpclient/httpclient.go:41-43 | the net/http transport becomes d, so the next `GetNetHttpClient` returns d; the other five fields keep their values |
| HttpClient.Client.GetFastHttpClient | httpclient/httpclient.go:45-47 | returns the stored fasthttp transport and changes nothing |
| HttpClient.Client.SetFastHttpClient | httpclient/httpclient.go:49-51 | the fasthttp transport becomes d, so the next `GetFastHttpClient` returns d; the other five fields keep their values |
| HttpClient.Client.GetInterceptors | httpclient/httpclient.go:53-55 | returns the interceptor list and changes nothing |
| HttpClient.Client.GetTimeout | httpclient/httpclient.go:57-59 | returns the timeout and changes nothing |
| HttpClient.Client.GetRetryCount | httpclient/httpclient.go:61-63 | returns the retry count and changes nothing |
| HttpClient.Client.GetRetrier | httpclient/httpclient.go:65-67 | returns the backoff policy and changes nothing |
| Options.FieldsDetermineConfig | httpclient/httpclient.go:27-34 | two records that agree on all six fields are equal |
| Options.ApplyTo | httpclient/options.go:11-50 | running an option closure leaves its own field holding the option's value and every other field unchanged |
| Options.WithHTTPTimeout | httpclient/options.go:11-15 | the option sets the timeout to t and nothing else, for every record |
| Options.WithRetryCount | httpclient/options.go:18-22 | the option sets the retry count to n, negative values included, and nothing else |
| Options.WithRetrier | httpclient/options.go:25-29 | the option sets the backoff policy and nothing else |
| Options.WithNetHTTPClient | httpclient/options.go:32-36 | the option sets the net/http transport and nothing else |
| Options.WithFastHTTPClient | httpclient/options.go:39-43 | the option sets the fasthttp transport and nothing else |
| Options.WithInterceptor | httpclient/options.go:46-50 | the interceptor list becomes exactly the given list: it replaces the old list instead of appending to it |
| Options.Apply | httpclient/options.go:8-50 | running the closure on a Client changes its record exactly as `ApplyTo` says |
| Options.ApplyIdempotent | httpclient/options.go:11-50 | applying an option twice gives the same record as applying it once |
| Options.LaterOptionWins | httpclient/options.go:11-50 | of two options on the same field, the later one decides the result |
| Options.DistinctOptionsCommute | httpclient/options.go:11-50 | options on different fields give the same record in either order |
| Options.ApplyAllAppend | httpclient/nethttp/nethttp.go:28-30 | applying the options of a + b in order is applying a, then b |
| Options.ApplyAllSnoc | httpclient/nethttp/nethttp.go:28-30 | one more option in the loop applies to the record the earlier ones built |
| Options.ApplyAllUntouched | httpclient/nethttp/nethttp.go:28-30 | a field that no option writes keeps its starting value |
| Options.ApplyAllLastWrite | httpclient/nethttp/nethttp.go:28-30 | a field ends with the value of the last option that writes it |
| Attempts.FanOut | httpclient/nethttp/nethttp.go:163-179 | a hook fires once per interceptor, in list order, and only on the interceptors in the list |
| Attempts.AttemptCount | httpclient/nethttp/nethttp.go:126-158 | the loop makes no attempt when the retry count is negative, and otherwise between 1 and retryCount + 1 attempts; every attempt before the last one failed; if it stopped early, the last attempt got a status below 500 |
| Attempts.AttemptCountExhausted | httpclient/nethttp/nethttp.go:126-154 | when every attempt fails, the loop makes exactly retryCount + 1 attempts |
| Attempts.AttemptCountStops | httpclient/nethttp/nethttp.go:148-157 | the loop stops right after the first attempt that gets a status below 500 |
| Attempts.ErrorList | httpclient/nethttp/nethttp.go:140-141 | the recorded error list has at most one entry per attempt, and exactly one per attempt when every attempt got a transport error |
| Attempts.RetrierSuffices | httpclient/nethttp/nethttp.go:143-152 | under `CanExecute`, every failing attempt finds a retrier to ask for its backoff |
| Attempts.Execute | httpclient/nethttp/nethttp.go:109-161 | the returned error is never nil, whatever the outcomes |
| Attempts.ExecuteUnreadable | httpclient/nethttp/nethttp.go:114-118 | a body that cannot be read ends the call with a nil response and the read error, before any event |
| Attempts.AttemptSends | httpclient/nethttp/nethttp.go:133 | each attempt calls the transport exactly once |
| Attempts.AttemptBackoffs | httpclient/nethttp/nethttp.go:140-154 | an attempt backs off exactly when it fails, and then only once |
| Attempts.AttemptCloses | httpclient/nethttp/nethttp.go:127-129 | an attempt closes exactly the previous attempt's response, and only when that attempt got one |
| Attempts.ScriptSends | httpclient/nethttp/nethttp.go:126-133 | over n attempts, the transport calls are for attempts 0, 1, …, n - 1, in that order |
| Attempts.ScriptBackoffs | httpclient/nethttp/nethttp.go:140-154 | over n attempts, the backoffs are for exactly the failing attempts, in order |
| Attempts.ScriptCloses | httpclient/nethttp/nethttp.go:127-129 | over n attempts, the closed responses are exactly those of attempts other than the last that got a response, in order |
| Attempts.AttemptMembers | httpclient/nethttp/nethttp.go:127-154 | every event of one attempt is about that attempt and agrees with its outcome |
| Attempts.ScriptMembers | httpclient/nethttp/nethttp.go:127-154 | every event over n attempts agrees with its attempt's outcome: each transport call carries the buffered request; OnError only after a transport error, with its message; OnRequestEnd only after a response, with it; backoff only after a failure, for NextInterval(i) |
| Guarantees.TransportCalls | httpclient/nethttp/nethttp.go:126-133 | with retryCount n ≥ 0 there are between 1 and n + 1 transport calls, one per attempt in order; a negative retryCount gives none |
| Guarantees.NegativeRetryCount | httpclient/nethttp/nethttp.go:126-160 | a negative retryCount returns a nil response and an error with an empty message, with no event at all |
| Guarantees.SingleAttempt | httpclient/nethttp/nethttp.go:126-158 | retryCount 0 makes exactly one transport call, and still backs off once if that attempt fails |
| Guarantees.FirstSuccessReturned | httpclient/nethttp/nethttp.go:148-160 | when attempt k is the first with a status below 500, that response is returned; the error message is "" because the list was cleared; there are k + 1 transport calls and attempts 0 … k - 1 back off |
| Guarantees.AllAttemptsFail | httpclient/nethttp/nethttp.go:126-160 | when every attempt fails, all retryCount + 1 attempts run and each backs off, the last one too; the last response is returned (nil after a transport error); the error is the ","-join of the transport error messages in attempt order |
| Guarantees.TimeoutThenRefused | httpclient/nethttp/nethttp.go:141-160 | two attempts that get the errors "timeout" and "refused" return the error "timeout,refused" |
| Guarantees.JoinPair | httpclient/nethttp/nethttp.go:160 | joining two strings puts the separator between them |
| Guarantees.JoinEmpty | httpclient/nethttp/nethttp.go:160 | with a non-empty separator, the joined message is empty exactly for an empty list or a list holding one empty message |
| Guarantees.ErrorMessageEmpty | httpclient/nethttp/nethttp.go:140-160 | the returned error's message is empty exactly when the loop ended on a status below 500, or when the attempts recorded no error message, or only one empty one |
| Guarantees.SendsUseInstalledTransport | httpclient/nethttp/nethttp.go:133 | every transport call goes to the net/http transport the configuration holds |
| Guarantees.TransportChoiceObservable | httpclient/nethttp/nethttp.go:133 | two configurations that differ only in the installed transport give different events whenever an attempt is made |
| Guarantees.ResponsesClosed | httpclient/nethttp/nethttp.go:127-160 | the closed responses are exactly those of the attempts other than the last that got one, in attempt order; the returned response is never closed (that each close opens the next attempt is `Guarantees.HookOrder`) |
| Guarantees.BodyReplayed | httpclient/nethttp/nethttp.go:110-138 | every transport call gets the same request: Close set, the full buffered body (none when there was none), and the same verb, URL and header |
| Guarantees.HooksFollowOutcome | httpclient/nethttp/nethttp.go:140-148 | OnError fires only for an attempt with a transport error, with its message; OnRequestEnd fires only for an attempt with a response, with that response; so an attempt that errs never fires OnRequestEnd |
| Guarantees.BackoffUsesNextInterval | httpclient/nethttp/nethttp.go:143-152 | every backoff follows a failed attempt and waits NextInterval of that attempt's own index |
| Guarantees.HookOrder | httpclient/nethttp/nethttp.go:127-154 | each attempt's events come right after those of the earlier attempts, in this order: the close of the previous response; OnRequestStart on every interceptor; the transport call; OnError or OnRequestEnd on every interceptor; the backoff |
| NetHttp.WithDefaultTransport | httpclient/nethttp/nethttp.go:32-36 | a transport is always installed, the one given is kept, and every other field is unchanged |
| NetHttp.BytesReader.constructor | httpclient/nethttp/nethttp.go:119 | a reader over the buffered bytes, at offset 0 |
| NetHttp.BytesReader.ReadAll | httpclient/nethttp/nethttp.go:133 | reading the body yields every byte from the offset to the end and leaves the offset at the end |
| NetHttp.BytesReader.Rewind | httpclient/nethttp/nethttp.go:134-138 | `Seek(0, 0)` puts the offset back to 0 |
| NetHttp.NewRequest | httpclient/nethttp/nethttp.go:46-49 | the request is rejected exactly when the URL does not parse, with that error; otherwise it carries the verb, URL and body, an empty header, and Close unset |
| NetHttp.Client.constructor | httpclient/nethttp/nethttp.go:38-40 | the adapter wraps the configuration record it is given |
| NetHttp.Client.Notify | httpclient/nethttp/nethttp.go:163-179 | the hook fires on every interceptor in list order, once each |
| NetHttp.Client.RoundTrip | httpclient/nethttp/nethttp.go:133 | the call goes to the installed net/http transport (`GetNetHttpClient()`); it receives the request with the body bytes from the reader's offset to its end, and the outcome is the transport's for this call |
| NetHttp.Client.RunAttempt | httpclient/nethttp/nethttp.go:127-154 | one attempt produces exactly `AttemptEvents` for its index, leaves the reader at offset 0 and the response variable at `LastResponse` |
| NetHttp.Client.Do | httpclient/nethttp/nethttp.go:109-161 | the response, the error and the events of the call are those of `Execute` |
| NetHttp.Client.Retry | httpclient/nethttp/nethttp.go:123-160 | the loop and the joined error give `Execute`'s result for a readable body |
| NetHttp.Client.Loop | httpclient/nethttp/nethttp.go:126-158 | the loop ends after `AttemptCount` attempts, with the last response, the final error list and the events of those attempts |
| NetHttp.Client.Iterate | httpclient/nethttp/nethttp.go:127-157 | one pass of the loop body stops exactly when the attempt does not fail; then the list is cleared; otherwise the transport error, if any, is appended |
| NetHttp.Client.Perform | httpclient/nethttp/nethttp.go:43-106 | a bad URL returns a nil response and the parse error with no event; otherwise the request is built with the given headers and without Close, and the result is `Do`'s |
| NetHttp.Client.Get | httpclient/nethttp/nethttp.go:44-54 | a GET without a body, as `Perform` |
| NetHttp.Client.Post | httpclient/nethttp/nethttp.go:57-67 | a POST with the given body, as `Perform` |
| NetHttp.Client.Put | httpclient/nethttp/nethttp.go:70-80 | a PUT with the given body, as `Perform` |
| NetHttp.Client.Patch | httpclient/nethttp/nethttp.go:83-93 | a PATCH with the given body, as `Perform` |
| NetHttp.Client.Delete | httpclient/nethttp/nethttp.go:96-106 | a DELETE without a body, as `Perform` |
| NetHttp.NewClient | httpclient/nethttp/nethttp.go:25-41 | the new client's record is the zero record with the options applied in order, and with the default transport when none was given |
| NetHttp.NewClientDefaultTransport | httpclient/nethttp/nethttp.go:32-36 | without a WithNetHTTPClient option the transport is net/http's client with a 30-second timeout, whatever timeout the options set |
| NetHttp.NewClientLastTransport | httpclient/nethttp/nethttp.go:28-36 | the last WithNetHTTPClient option decides the transport; if it passed nil, the default is installed |
| NetHttp.NewClientCallsDefaultTransport | httpclient/nethttp/nethttp.go:32-36 | without a WithNetHTTPClient option, every transport call of the built client goes to the default 30-second net/http client |

## Left out

- Sleeping: `time.Sleep(backoffTime)` is recorded as a `Backoff(i, NextInterval(i))` event. No time passes.
- The backoff policy `Retriable` is not part of this model. It is taken as an arbitrary function from attempt index to duration.
- The transport (`NetHttpDoer.Do`, net/http's client) is taken as a function from call number to outcome. An outcome is a transport error with its message, or a response with a status. A transport error always comes with a nil response. net/http can also return a response together with an error (a failed redirect check); this is not modelled.
- A custom `NetHttpDoer` that returns a nil response together with a nil error makes `Do` dereference nil when it reads the status (nethttp.go:150). In Go that is a panic. An `Outcome` cannot express that pair, so the model has no such case.
- Interceptors are known by identity. Their hooks are recorded as events. What a hook does with the request or response is not modelled; in particular, mutating them is not.
- Response bodies: only the `Close` call is recorded. The response body's contents, and the error `Close` returns (which `Do` ignores), are not modelled.
- `http.NewRequest`: URL parsing is a parameter of the facades (`urlError`). The headers, content length and `GetBody` that NewRequest derives from the body are not modelled.
- `ioutil.ReadAll` on the request body is given as its result. The body is either the bytes it yields or the error it fails with. Streaming and partial reads are not modelled.
- The interceptor list is a Go slice, shared and not copied. `WithInterceptor` stores the caller's slice (options.go:48). `GetInterceptors` returns that same slice (httpclient.go:53-55). Each hook loop reads it afresh (nethttp.go:164, 170, 176). The model holds the list as a value. So a write into the slice made after configuration, by the caller or by an interceptor, is not modelled. Such a write would change which interceptors later hooks fire on, even within one `Do` call.
- `Do` overwrites `Close` and `Body` on the caller's request object. The model shows the effect only in the request the transport receives (`Wire`). The caller seeing the changed object afterwards (aliasing) is not modelled.
- A nil retrier is dereferenced when an attempt fails. In Go that is a panic. `Do` and the facades instead require `CanExecute`: a retrier is present whenever the first attempt can fail.
- A nil net/http transport is also dereferenced. `NetHttp.Client.Valid` requires one to be installed, that is, a non-nil interface value. `NewClient` always installs one.
- A `NetHttpDoer` interface value that holds a nil pointer, such as `WithNetHTTPClient` given a nil `*http.Client`, is not modelled. `Nilable` only tells a nil interface from a non-nil one. The check at nethttp.go:32 sees such a value as non-nil and installs no default. Go then panics on the first attempt at nethttp.go:133.
- `retryCount` and the loop counter are Go `int`s, but here they are unbounded integers. With `retryCount` at the largest `int`, the Go loop condition never becomes false; this is not modelled.
- `defaultRetryCount` (nethttp.go:16) is declared but never read. It is kept as `NetHttp.DefaultRetryCount`, and no operation uses it.
- The `timeout` field is stored by `WithHTTPTimeout` and read by `GetTimeout`, but the net/http adapter never consults it. The default transport always gets 30 seconds (`NewClientDefaultTransport`).
- `httpclient.NewClient(hc HttpClient) *HttpClient` (httpclient.go:69-71) only returns the address of its argument. No behaviour is left to state.
- httpclient/fasthttp/fasthttp.go is not part of this model. The adapter does not type-check against the interfaces it uses, so it has no coherent behaviour.
- httpclient/interceptor.go (the interface declaration) and example/mock_httpclient.go (a generated test double) are not part of this model.
- Concurrency: each `Do` call is sequential. Sharing a client between goroutines is not modelled.
- Two behaviours of the code that a caller might not expect are kept as written:
  - A failing final attempt still calls `NextInterval` and sleeps, even with `retryCount` 0 (`Guarantees.SingleAttempt`, `Guarantees.AllAttemptsFail`).
  - The returned error is never nil. When the loop ends on a status below 500, its message is "" (`Attempts.Execute`, `Guarantees.FirstSuccessReturned`).
