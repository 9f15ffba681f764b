/** A model of the client-side retry decorator of package http_retry
    (retry/tripperware.go): the round-trip closure built by `Tripperware`,
    `waitRetryBackoff` and `isContextError`.

    The collaborators the closure talks to are scripted:
    - the wrapped transport answers its n-th call with `next(n)`;
    - `GetBody`, when present, answers its n-th call with `getBody(n)`;
    - the request's context says, per attempt, whether it is done before the
      back-off timer fires (`doneDuringWait`), and which error it then reports.
    Every run of the closure is recorded as a trace of events. */
module HttpRetry {
  import opened SeqFacts

  datatype Option<T> = None | Some(value: T)

  datatype Result<T> = Ok(value: T) | Err(error: Error)

  /** The error values the decorator inspects or creates. Go compares errors
      by identity; here each constructor is one distinct value. */
  datatype Error =
    | Canceled                    // context.Canceled
    | DeadlineExceeded            // context.DeadlineExceeded
    | Failure(code: nat)          // any other error a collaborator returns
    | BodyReadFailed(cause: Error) // the wrapper made when GetBody fails
    | BudgetExhausted             // "maximum retry budget reached"

  /** time.Duration: a signed 64-bit count of nanoseconds. */
  newtype Duration = d: int | -0x8000_0000_0000_0000 <= d < 0x8000_0000_0000_0000

  /** Identities of request bodies and of responses. */
  datatype Body = Body(id: nat)
  datatype Response = Response(id: nat)

  datatype DoneReason = ByCancel | ByDeadline

  /** The request's context: the per-request `Enable` marker, whether it is
      done before the back-off timer of a given attempt fires, and why. */
  datatype Context = Context(retryEnabled: bool, doneDuringWait: nat -> bool, reason: DoneReason)
  {
    /** ctx.Err() once the context is done. */
    function Err(): (e: Error)
      ensures IsContextError(e)
      ensures e == Canceled <==> reason == ByCancel
    {
      match reason
      case ByCancel => Canceled
      case ByDeadline => DeadlineExceeded
    }
  }

  /** An outbound request: its own body, its GetBody function (None when
      `req.GetBody == nil`) and its context. */
  datatype Request = Request(body: Body, getBody: Option<nat -> Result<Body>>, ctx: Context)

  /** What one RoundTrip returns: a possibly nil response and a possibly nil error. */
  datatype Outcome = Outcome(resp: Option<Response>, err: Option<Error>)

  /** The evaluated options: retry budget, decider, discarder and back-off. */
  datatype Options = Options(
    maxRetry: nat,
    decider: Request -> bool,
    discarder: Option<Response> -> bool,
    backoff: nat -> Duration)

  /** What the closure does to its collaborators, in order. `Waited` is
      recorded when the back-off wait of an attempt returned nil; the caller
      was suspended for `waitTime` when it is positive, not at all otherwise. */
  datatype Event =
    | GetBodyCalled(attempt: nat)
    | Waited(attempt: nat, waitTime: Duration)
    | Invoked(attempt: nat, body: Body)

  /** isContextError: equality with the two context sentinels, so a wrapped
      cancellation is not recognised. */
  function IsContextError(err: Error): (r: bool)
    ensures r <==> err.Canceled? || err.DeadlineExceeded?
  {
    err == DeadlineExceeded || err == Canceled
  }

  /** The closure enters its attempt loop: the gate passes and a retry is
      possible at all. */
  predicate Retries(p: Options, req: Request) {
    (p.decider(req) || req.ctx.retryEnabled) && p.maxRetry != 0 && req.getBody.Some?
  }

  /** The back-off waitRetryBackoff computes for an attempt. */
  function WaitTime(p: Options, attempt: nat): (d: Duration)
    ensures attempt == 0 ==> d == 0
  {
    if attempt > 0 then p.backoff(attempt) else 0
  }

  /** A transport outcome the loop returns at once as a success. */
  predicate Accepts(p: Options, o: Outcome) {
    o.err.None? && !p.discarder(o.resp)
  }

  /** A transport outcome that ends the loop as a cancellation. */
  predicate IsCancellation(o: Outcome) {
    o.err.Some? && IsContextError(o.err.value)
  }

  /** The fallback once every attempt is used up, from the last attempt's
      outcome alone. It never returns a nil response with a nil error. */
  function Exhausted(last: Outcome): (r: Outcome)
    ensures r.resp == last.resp
    ensures r.resp.Some? || r.err.Some?
    ensures r.err != last.err ==> last == Outcome(None, None) && r.err == Some(BudgetExhausted)
  {
    if last.resp.Some? then Outcome(last.resp, last.err)
    else if last.err.Some? then Outcome(None, last.err)
    else Outcome(None, Some(BudgetExhausted))
  }

  /** How one iteration of the attempt loop ends: the loop returns `reply`,
      or goes on to the next attempt with `last` as the new `lastResp` and
      `err`. `events` is what the iteration did. */
  datatype Step =
    | Return(reply: Outcome, events: seq<Event>)
    | Continue(last: Outcome, events: seq<Event>)

  /** One iteration of the attempt loop, for an attempt below the budget:
      a fresh body, the back-off wait, the invocation and its classification. */
  function Iteration(p: Options, next: nat -> Outcome, req: Request, attempt: nat): (s: Step)
    requires req.getBody.Some?
  {
    match req.getBody.value(attempt)
    case Err(e) => Return(Outcome(None, Some(BodyReadFailed(e))), [GetBodyCalled(attempt)])
    case Ok(b) =>
      var w := WaitTime(p, attempt);
      if w > 0 && req.ctx.doneDuringWait(attempt) then
        Return(Outcome(None, Some(req.ctx.Err())), [GetBodyCalled(attempt)])
      else
        var o := next(attempt);
        var events := [GetBodyCalled(attempt), Waited(attempt, w), Invoked(attempt, b)];
        if Accepts(p, o) then Return(o, events)
        else if IsCancellation(o) then Return(Outcome(None, o.err), events)
        else Continue(o, events)
  }

  /** What a run of the closure, or of part of its loop, produces: the
      reply and the events, in order. */
  datatype Run = Run(reply: Outcome, trace: seq<Event>)

  /** The attempt loop from `attempt` on, given the outcome of the previous
      attempt (`lastResp` and `err` in the code): the reply and the events. */
  function LoopFrom(p: Options, next: nat -> Outcome, req: Request, attempt: nat, last: Outcome): (r: Run)
    requires req.getBody.Some?
    decreases p.maxRetry - attempt
  {
    if attempt >= p.maxRetry then Run(Exhausted(last), [])
    else
      match Iteration(p, next, req, attempt)
      case Return(reply, events) => Run(reply, events)
      case Continue(o, events) =>
        var rest := LoopFrom(p, next, req, attempt + 1, o);
        Run(rest.reply, events + rest.trace)
  }

  /** LoopFrom below the budget, one iteration unrolled. */
  lemma LoopFromUnrolled(p: Options, next: nat -> Outcome, req: Request, attempt: nat, last: Outcome)
    requires req.getBody.Some? && attempt < p.maxRetry
    ensures Iteration(p, next, req, attempt).Return? ==>
      LoopFrom(p, next, req, attempt, last)
        == Run(Iteration(p, next, req, attempt).reply, Iteration(p, next, req, attempt).events)
    ensures Iteration(p, next, req, attempt).Continue? ==>
      var o := Iteration(p, next, req, attempt).last;
      LoopFrom(p, next, req, attempt, last)
        == Run(LoopFrom(p, next, req, attempt + 1, o).reply,
               Iteration(p, next, req, attempt).events + LoopFrom(p, next, req, attempt + 1, o).trace)
  {
  }

  /** An iteration that continues moves the loop on by one attempt, its
      events coming after whatever the loop recorded before it. */
  lemma LoopFromContinues(p: Options, next: nat -> Outcome, req: Request, attempt: nat, last: Outcome, before: seq<Event>)
    requires req.getBody.Some? && attempt < p.maxRetry && Iteration(p, next, req, attempt).Continue?
    ensures var step := Iteration(p, next, req, attempt);
      var rest := LoopFrom(p, next, req, attempt + 1, step.last);
      && LoopFrom(p, next, req, attempt, last).reply == rest.reply
      && before + LoopFrom(p, next, req, attempt, last).trace == (before + step.events) + rest.trace
  {
    var step := Iteration(p, next, req, attempt);
    LoopFromUnrolled(p, next, req, attempt, last);
    ConcatAssociative(before, step.events, LoopFrom(p, next, req, attempt + 1, step.last).trace);
  }

  /** The decorated round trip: pass-through when the gate or the retry
      preconditions fail, the attempt loop otherwise. */
  function RoundTripOf(p: Options, next: nat -> Outcome, req: Request): (r: Run)
    ensures r.trace != []
  {
    if !p.decider(req) && !req.ctx.retryEnabled then Run(next(0), [Invoked(0, req.body)])
    else if p.maxRetry == 0 || req.getBody.None? then Run(next(0), [Invoked(0, req.body)])
    else LoopFrom(p, next, req, 0, Outcome(None, None))
  }

  /** waitRetryBackoff: no wait before the first attempt, `backoff(attempt)`
      before the others; the context is consulted only for a positive wait,
      and when it is done first its error is returned. `waitTime` is the
      duration the source computes (the time the caller is suspended). */
  method WaitRetryBackoff(attempt: nat, ctx: Context, p: Options) returns (err: Option<Error>, waitTime: Duration)
    ensures attempt == 0 ==> waitTime == 0 && err == None
    ensures attempt > 0 ==> waitTime == p.backoff(attempt)
    ensures err.Some? <==> waitTime > 0 && ctx.doneDuringWait(attempt)
    ensures err.Some? ==> err.value == ctx.Err() && IsContextError(err.value)
  {
    waitTime := 0;
    if attempt > 0 {
      waitTime := p.backoff(attempt);
    }
    if waitTime > 0 {
      if ctx.doneDuringWait(attempt) {
        return Some(ctx.Err()), waitTime;
      }
      // the timer fired first
    }
    return None, waitTime;
  }

  /** The round-trip closure of Tripperware: gate, pass-through, the attempt
      loop and the exhaustion fallback. Returns the reply and the trace. */
  method RoundTrip(p: Options, next: nat -> Outcome, req: Request) returns (reply: Outcome, trace: seq<Event>)
    ensures Run(reply, trace) == RoundTripOf(p, next, req)
  {
    if !p.decider(req) && !req.ctx.retryEnabled {
      return next(0), [Invoked(0, req.body)];
    }
    if p.maxRetry == 0 || req.getBody.None? {
      return next(0), [Invoked(0, req.body)];
    }
    var err: Option<Error> := None;
    var lastResp: Option<Response> := None;
    trace := [];
    var attempt: nat := 0;
    ghost var whole := RoundTripOf(p, next, req);
    while attempt < p.maxRetry
      invariant attempt <= p.maxRetry
      invariant whole.reply == LoopFrom(p, next, req, attempt, Outcome(lastResp, err)).reply
      invariant whole.trace == trace + LoopFrom(p, next, req, attempt, Outcome(lastResp, err)).trace
    {
      ghost var before := trace;
      ghost var step := Iteration(p, next, req, attempt);
      ghost var last := Outcome(lastResp, err);
      trace := trace + [GetBodyCalled(attempt)];
      var body := req.getBody.value(attempt);
      err := if body.Err? then Some(body.error) else None;
      if err.Some? {
        assert step == Return(Outcome(None, Some(BodyReadFailed(err.value))), [GetBodyCalled(attempt)]);
        LoopFromUnrolled(p, next, req, attempt, last);
        return Outcome(None, Some(BodyReadFailed(err.value))), trace;
      }
      var waitErr, waitTime := WaitRetryBackoff(attempt, req.ctx, p);
      if waitErr.Some? {
        assert step == Return(Outcome(None, waitErr), [GetBodyCalled(attempt)]);
        LoopFromUnrolled(p, next, req, attempt, last);
        return Outcome(None, waitErr), trace;
      }
      trace := trace + [Waited(attempt, waitTime)];
      var o := next(attempt);
      lastResp, err := o.resp, o.err;
      trace := trace + [Invoked(attempt, body.value)];
      ghost var head := [GetBodyCalled(attempt), Waited(attempt, waitTime), Invoked(attempt, body.value)];
      assert trace == before + head;
      if err.None? {
        if !p.discarder(lastResp) {
          assert step == Return(o, head);
          LoopFromUnrolled(p, next, req, attempt, last);
          return Outcome(lastResp, None), trace;
        }
      } else if IsContextError(err.value) {
        assert step == Return(Outcome(None, err), head);
        LoopFromUnrolled(p, next, req, attempt, last);
        return Outcome(None, err), trace;
      }
      assert step == Continue(o, head);
      LoopFromContinues(p, next, req, attempt, last, before);
      attempt := attempt + 1;
    }
    if lastResp.Some? {
      reply := Outcome(lastResp, err);
    } else if err.Some? {
      reply := Outcome(None, err);
    } else {
      reply := Outcome(None, Some(BudgetExhausted));
    }
    assert trace + [] == trace;
  }
}
