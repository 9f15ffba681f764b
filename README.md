# Retry tripperware of go-httpwares, modelled in Dafny

This project models the client-side retry decorator of package `http_retry`
(`retry/tripperware.go`): the round-trip function that `Tripperware` wraps
around the next `http.RoundTripper`, the back-off wait `waitRetryBackoff`
and the cancellation test `isContextError`. The model follows the Go code
and proves what it does.

What the decorator does:
- It gates the request. If the decider rejects it and the context does not
  carry `Enable`, or the budget `maxRetry` is 0, or the request has no
  `GetBody`, the next transport is called once and its answer is returned.
- Otherwise it runs up to `maxRetry` attempts. Each attempt calls `GetBody`,
  waits its back-off (none for attempt 0, `backoffFunc(attempt)` otherwise,
  cancellable by the context), invokes the transport with the fresh body and
  classifies the outcome.
- When the attempts run out, it falls back on the last attempt's outcome.

Files:
- `seq_facts.dfy`, module `SeqFacts`: a fact about sequence concatenation
  that the proofs call on explicitly.
- `retry.dfy`, module `HttpRetry`: the data model, the specification of one
  loop iteration (`Iteration`), of the loop (`LoopFrom`) and of the whole
  round trip (`RoundTripOf`), and the two imperative members. `RoundTrip` is
  the round-trip closure, a `while` loop over the mutable locals `err` and
  `lastResp` with early returns. `WaitRetryBackoff` is the back-off wait.
- `retry_proofs.dfy`, module `HttpRetryProofs`: the properties, as lemmas
  about `RoundTripOf`.

How the collaborators are modelled:
- The wrapped transport is a function `next: nat -> Outcome`; its n-th call
  answers `next(n)`. An `Outcome` is a possibly nil response and a possibly
  nil error, so all four combinations Go allows are covered.
- `GetBody` is `Option<nat -> Result<Body>>`: `None` when `req.GetBody` is
  nil, otherwise its n-th call answers `getBody(n)`.
- The request's context is a value with the `Enable` marker, an oracle
  `doneDuringWait(attempt)` and the reason it reports (`Canceled` or
  `DeadlineExceeded`). The oracle says whether the context is done before
  the back-off timer of that attempt fires.
- The options (`maxRetry`, decider, discarder, back-off) are a value.
  `time.Duration` is a signed 64-bit newtype.
- Each run produces a trace of `GetBodyCalled(i)`, `Waited(i, waitTime)` and
  `Invoked(i, body)` events. The proofs show that the loop's n-th transport
  call and n-th `GetBody` call both happen at attempt n, so indexing the
  scripts by attempt is the same as indexing them by call number.

What the code does at the edges, as the model states it:
- The "maximum retry budget reached" error is reachable. It is returned
  when the last attempt yields a nil response and a nil error and the
  discarder rejects that nil response (retry/tripperware.go:47-61).
  `Exhausted` states when it happens.
- The code never closes or drains a discarded response before the next
  attempt, so the model claims nothing about it.
- On exhaustion the response and the error both come from the final
  attempt, because `lastResp` and `err` are overwritten together on every
  attempt (retry/tripperware.go:47). `ExhaustionUsesLastAttempt` proves
  this.

## Model

| member | source | states |
|---|---|---|
| `HttpRetry.RoundTrip` | retry/tripperware.go:26-62 | the closure's reply and its trace of GetBody calls, waits and invocations are exactly `RoundTripOf` of the options, transport and request; the loop's `err` is reset by each GetBody and the wait's shadowing `err` never reaches it |
| `HttpRetry.WaitRetryBackoff` | retry/tripperware.go:66-79 | no wait and no error for attempt 0; for later attempts the wait is `backoff(attempt)`; an error is returned exactly when that wait is positive and the context is done before the timer, and then it is the context's error, a context error |
| `HttpRetry.Context.Err` | retry/tripperware.go:72-74 | what a done context reports is always one of the two context sentinels, `Canceled` exactly when it was cancelled |
| `HttpRetry.IsContextError` | retry/tripperware.go:81-83 | an error is a context error exactly when it is one of the two sentinels `Canceled` and `DeadlineExceeded` |
| `HttpRetry.Exhausted` | retry/tripperware.go:56-61 | the fallback keeps the last response; it never returns a nil response with a nil error; it differs from the last error only when the last outcome was (nil, nil), and then the error is the budget error |
| `HttpRetryProofs.PassThrough` | retry/tripperware.go:27-35 | decider false and no `Enable`, or budget 0, or no GetBody: the transport is invoked exactly once with the original request and its (resp, err) is returned verbatim, whatever `maxRetry` is; otherwise the first event is the GetBody call of attempt 0 |
| `HttpRetryProofs.AttemptsInOrder` | retry/tripperware.go:38-47 | invocations carry attempt indices 0..n-1 in order and GetBody calls 0..m-1 with m = n or n + 1, at most `maxRetry` of each; the pass-through path has one invocation and no GetBody call |
| `HttpRetryProofs.InvocationCarriesFreshBody` | retry/tripperware.go:38-47 | every invocation of attempt i is directly preceded by the GetBody call of attempt i and then its back-off wait (0 for attempt 0, `backoff(i)` after), and carries the body that GetBody returned |
| `HttpRetryProofs.BodyFailureEndsLoop` | retry/tripperware.go:40-43 | a GetBody error at attempt i ends the round trip with a nil response and the wrapped error; only attempts 0..i-1 were invoked, and GetBody was called for attempts 0..i |
| `HttpRetryProofs.WaitCancellationEndsLoop` | retry/tripperware.go:44-45 | a context done during a positive wait before attempt i ends the round trip with a nil response and the context's error, not an earlier transport error; only attempts 0..i-1 were invoked, and GetBody was called for attempts 0..i |
| `HttpRetryProofs.AcceptedEndsLoop` | retry/tripperware.go:47-51 | the first attempt with a nil error and a response the discarder keeps is returned as (resp, nil); invocations and GetBody calls are exactly 0..i |
| `HttpRetryProofs.TransportCancellationEndsLoop` | retry/tripperware.go:52-54 | a transport error equal to `Canceled` or `DeadlineExceeded` ends the round trip at once with (nil, that error); invocations and GetBody calls are exactly 0..i |
| `HttpRetryProofs.ExhaustionUsesLastAttempt` | retry/tripperware.go:47-61 | when every attempt is retried there are exactly `maxRetry` GetBody calls and invocations, 0..maxRetry-1, and the reply depends only on the final attempt: (resp, err) if it has a response, else (nil, err) if it has an error, else the budget error |
| `HttpRetryProofs.AllDiscardedReturnsLast` | retry/tripperware.go:48-58 | when each attempt gets a response with a nil error and the discarder rejects it, there are exactly `maxRetry` invocations and the last response is returned with a nil error |
| `HttpRetryProofs.FailTwiceThenSucceed` | retry/tripperware.go:38-55 | budget 3, two ordinary failures then an accepted response: the full trace is three GetBody/wait/invoke rounds with waits 0, `backoff(1)` and `backoff(2)`, and the response is returned |
| `HttpRetryProofs.ContextErrorIsSentinelEquality` | retry/tripperware.go:81-83 | `isContextError` holds for the two sentinels and for nothing else: the GetBody wrapper around any error (a cancellation included), an ordinary failure and the budget error are not context errors |

## Left out

- `logging/logrus/context.go` is not part of this model. Its `Extract` functions only forward to an external logging library.
- The timer/context race of `waitRetryBackoff` (`select` over `time.Tick` and `ctx.Done()`) is replaced by the oracle `doneDuringWait`. Real time and concurrency are not modelled. The wait records the duration it computed; no clock is kept.
- `net/http` types, `req.WithContext` copying and the contents of requests, bodies and responses are abstracted. Bodies and responses are identities. Each invocation records the body it carries.
- The transport and `GetBody` are scripted by call number and do not depend on the request they receive.
- `evaluateOptions`, `isEnabled`, the `With*` option constructors and the default decider, discarder and back-off are not part of this model. They are not among the modelled files. The options and the `Enable` marker are inputs.
- Error messages are distinct constructors (`BodyReadFailed`, `BudgetExhausted`), not text. The model does not rule out a transport that returns one of these values, although in Go they are fresh values no collaborator can return.
- `maxRetry` and the attempt index are unbounded naturals. Go's `uint` cannot wrap here, because the attempt index stays below `maxRetry`.
- Draining or closing discarded responses is not modelled, because the code does not do it.
