/** Properties of the retry decorator's round trip (module HttpRetry):
    when it passes the request straight through, how many attempts it makes
    and in which order, what each invocation carries, and which outcome it
    returns. */
module HttpRetryProofs {
  import opened SeqFacts
  import opened HttpRetry

  /** The attempt indices of the transport invocations in a trace, in order. */
  function Invocations(t: seq<Event>): seq<nat> {
    if t == [] then []
    else (if t[0].Invoked? then [t[0].attempt] else []) + Invocations(t[1..])
  }

  /** The attempt indices of the GetBody calls in a trace, in order. */
  function BodyCalls(t: seq<Event>): seq<nat> {
    if t == [] then []
    else (if t[0].GetBodyCalled? then [t[0].attempt] else []) + BodyCalls(t[1..])
  }

  /** lo, lo + 1, ..., lo + n - 1 */
  function Range(lo: nat, n: nat): seq<nat>
    decreases n
  {
    if n == 0 then [] else [lo] + Range(lo + 1, n - 1)
  }

  /** The attempt gets a fresh body and is not cancelled during its back-off
      wait, so it reaches the transport. */
  predicate Proceeds(p: Options, req: Request, j: nat)
    requires req.getBody.Some?
  {
    req.getBody.value(j).Ok? && !(WaitTime(p, j) > 0 && req.ctx.doneDuringWait(j))
  }

  /** The attempt reaches the transport and its outcome sends the loop on. */
  predicate Retryable(p: Options, next: nat -> Outcome, req: Request, j: nat)
    requires req.getBody.Some?
  {
    Proceeds(p, req, j) && !Accepts(p, next(j)) && !IsCancellation(next(j))
  }

  lemma {:induction false} InvocationsAppend(a: seq<Event>, b: seq<Event>)
    ensures Invocations(a + b) == Invocations(a) + Invocations(b)
  {
    if a == [] {
      assert a + b == b;
    } else {
      var head := if a[0].Invoked? then [a[0].attempt] else [];
      assert (a + b)[0] == a[0] && (a + b)[1..] == a[1..] + b;
      assert Invocations(a + b) == head + Invocations(a[1..] + b);
      InvocationsAppend(a[1..], b);
      ConcatAssociative(head, Invocations(a[1..]), Invocations(b));
    }
  }

  lemma {:induction false} BodyCallsAppend(a: seq<Event>, b: seq<Event>)
    ensures BodyCalls(a + b) == BodyCalls(a) + BodyCalls(b)
  {
    if a == [] {
      assert a + b == b;
    } else {
      var head := if a[0].GetBodyCalled? then [a[0].attempt] else [];
      assert (a + b)[0] == a[0] && (a + b)[1..] == a[1..] + b;
      assert BodyCalls(a + b) == head + BodyCalls(a[1..] + b);
      BodyCallsAppend(a[1..], b);
      ConcatAssociative(head, BodyCalls(a[1..]), BodyCalls(b));
    }
  }

  /** The events of one iteration: a GetBody call alone when the loop stops
      before the transport, and GetBody, the wait and the invocation when
      it reaches the transport. */
  lemma IterationEvents(p: Options, next: nat -> Outcome, req: Request, j: nat)
    requires req.getBody.Some?
    ensures var ev := Iteration(p, next, req, j).events;
      if Proceeds(p, req, j) then
        ev == [GetBodyCalled(j), Waited(j, WaitTime(p, j)), Invoked(j, req.getBody.value(j).value)]
        && Invocations(ev) == [j] && BodyCalls(ev) == [j]
      else
        ev == [GetBodyCalled(j)] && Invocations(ev) == [] && BodyCalls(ev) == [j]
    ensures Iteration(p, next, req, j).Continue? <==> Retryable(p, next, req, j)
  {
    var ev := Iteration(p, next, req, j).events;
    if Proceeds(p, req, j) {
      var invoked := [Invoked(j, req.getBody.value(j).value)];
      var waited := [Waited(j, WaitTime(p, j))] + invoked;
      assert invoked[1..] == [] && waited[1..] == invoked && ev[1..] == waited;
      assert Invocations(invoked) == [j] && BodyCalls(invoked) == [];
      assert Invocations(waited) == [j] && BodyCalls(waited) == [];
    } else {
      assert ev[1..] == [];
    }
  }

  /** An attempt that is retried is called for and invoked once, and the
      loop goes on from the next attempt with the transport's outcome. */
  lemma RetriedStep(p: Options, next: nat -> Outcome, req: Request, a: nat, last: Outcome)
    requires req.getBody.Some? && a < p.maxRetry && Retryable(p, next, req, a)
    ensures var here := LoopFrom(p, next, req, a, last);
      var rest := LoopFrom(p, next, req, a + 1, next(a));
      && here.reply == rest.reply
      && Invocations(here.trace) == [a] + Invocations(rest.trace)
      && BodyCalls(here.trace) == [a] + BodyCalls(rest.trace)
  {
    LoopFromUnrolled(p, next, req, a, last);
    IterationEvents(p, next, req, a);
    var s := Iteration(p, next, req, a);
    var rest := LoopFrom(p, next, req, a + 1, s.last);
    InvocationsAppend(s.events, rest.trace);
    BodyCallsAppend(s.events, rest.trace);
  }

  /** An attempt that is not retried ends the loop: GetBody is called for
      it, and it is invoked at most once. */
  lemma FinalStep(p: Options, next: nat -> Outcome, req: Request, a: nat, last: Outcome)
    requires req.getBody.Some? && a < p.maxRetry && !Retryable(p, next, req, a)
    ensures var t := LoopFrom(p, next, req, a, last).trace;
      && BodyCalls(t) == [a]
      && (Invocations(t) == [a] || Invocations(t) == [])
  {
    LoopFromUnrolled(p, next, req, a, last);
    IterationEvents(p, next, req, a);
  }

  /** The events of an attempt that reaches the transport, in order. */
  function AttemptEvents(p: Options, req: Request, a: nat): seq<Event>
    requires req.getBody.Some? && req.getBody.value(a).Ok?
  {
    [GetBodyCalled(a), Waited(a, WaitTime(p, a)), Invoked(a, req.getBody.value(a).value)]
  }

  /** The trace of the loop from an attempt on: that attempt's events, then
      the rest of the loop when the attempt is retried; when it is not, only
      its GetBody call or only its own three events. */
  lemma StepTrace(p: Options, next: nat -> Outcome, req: Request, a: nat, last: Outcome)
    requires req.getBody.Some? && a < p.maxRetry
    ensures var t := LoopFrom(p, next, req, a, last).trace;
      if Retryable(p, next, req, a) then
        t == AttemptEvents(p, req, a) + LoopFrom(p, next, req, a + 1, next(a)).trace
      else
        t == [GetBodyCalled(a)] || (Proceeds(p, req, a) && t == AttemptEvents(p, req, a))
  {
    LoopFromUnrolled(p, next, req, a, last);
    IterationEvents(p, next, req, a);
  }

  lemma {:induction false} LoopAttempts(p: Options, next: nat -> Outcome, req: Request, a: nat, last: Outcome)
    requires req.getBody.Some? && a <= p.maxRetry
    ensures var t := LoopFrom(p, next, req, a, last).trace;
      && a + |BodyCalls(t)| <= p.maxRetry
      && (a < p.maxRetry ==> |BodyCalls(t)| >= 1)
      && Invocations(t) == Range(a, |Invocations(t)|)
      && BodyCalls(t) == Range(a, |BodyCalls(t)|)
      && (|BodyCalls(t)| == |Invocations(t)| || |BodyCalls(t)| == |Invocations(t)| + 1)
    decreases p.maxRetry - a
  {
    if a < p.maxRetry {
      if Retryable(p, next, req, a) {
        RetriedStep(p, next, req, a, last);
        var rest := LoopFrom(p, next, req, a + 1, next(a)).trace;
        LoopAttempts(p, next, req, a + 1, next(a));
        assert Range(a, 1 + |Invocations(rest)|) == [a] + Range(a + 1, |Invocations(rest)|);
        assert Range(a, 1 + |BodyCalls(rest)|) == [a] + Range(a + 1, |BodyCalls(rest)|);
      } else {
        FinalStep(p, next, req, a, last);
      }
    }
  }

  /** The gate and the retry preconditions: when the request is neither
      accepted by the decider nor marked with Enable, or when the budget is
      zero or GetBody is nil, the transport is invoked exactly once with the
      request as it came and its answer is returned unchanged; otherwise the
      first thing done is a GetBody call. */
  lemma PassThrough(p: Options, next: nat -> Outcome, req: Request)
    ensures !p.decider(req) && !req.ctx.retryEnabled ==>
      RoundTripOf(p, next, req) == Run(next(0), [Invoked(0, req.body)])
    ensures p.maxRetry == 0 || req.getBody.None? ==>
      RoundTripOf(p, next, req) == Run(next(0), [Invoked(0, req.body)])
    ensures Retries(p, req) ==>
      |RoundTripOf(p, next, req).trace| > 0 && RoundTripOf(p, next, req).trace[0] == GetBodyCalled(0)
  {
  }

  /** Attempts run in order 0, 1, ...: the invocations carry the attempt
      indices 0..n-1 and the GetBody calls 0..m-1, with m = n or m = n + 1
      (the last GetBody call may end the loop before the transport). There
      are at most maxRetry of either, and exactly one invocation and no
      GetBody call on the pass-through path. */
  lemma AttemptsInOrder(p: Options, next: nat -> Outcome, req: Request)
    ensures var t := RoundTripOf(p, next, req).trace;
      && Invocations(t) == Range(0, |Invocations(t)|)
      && |Invocations(t)| <= (if Retries(p, req) then p.maxRetry else 1)
    ensures var t := RoundTripOf(p, next, req).trace;
      Retries(p, req) ==>
        && BodyCalls(t) == Range(0, |BodyCalls(t)|)
        && 1 <= |BodyCalls(t)| <= p.maxRetry
        && (|BodyCalls(t)| == |Invocations(t)| || |BodyCalls(t)| == |Invocations(t)| + 1)
    ensures !Retries(p, req) ==>
      Invocations(RoundTripOf(p, next, req).trace) == [0] && BodyCalls(RoundTripOf(p, next, req).trace) == []
  {
    if Retries(p, req) {
      LoopAttempts(p, next, req, 0, Outcome(None, None));
    } else {
      var t := [Invoked(0, req.body)];
      assert t[1..] == [];
      assert Range(0, 1) == [0];
    }
  }

  lemma {:induction false} LoopInvocationPreceded(p: Options, next: nat -> Outcome, req: Request, a: nat, last: Outcome, k: nat)
    requires req.getBody.Some?
    requires k < |LoopFrom(p, next, req, a, last).trace| && LoopFrom(p, next, req, a, last).trace[k].Invoked?
    ensures var t := LoopFrom(p, next, req, a, last).trace; var i := t[k].attempt;
      && 2 <= k && a <= i < p.maxRetry
      && t[k - 2] == GetBodyCalled(i)
      && t[k - 1] == Waited(i, WaitTime(p, i))
      && req.getBody.value(i) == Ok(t[k].body)
    decreases p.maxRetry - a
  {
    var t := LoopFrom(p, next, req, a, last).trace;
    StepTrace(p, next, req, a, last);
    if Retryable(p, next, req, a) && k >= 3 {
      var rest := LoopFrom(p, next, req, a + 1, next(a)).trace;
      assert t[k] == rest[k - 3];
      LoopInvocationPreceded(p, next, req, a + 1, next(a), k - 3);
      assert t[k - 2] == rest[k - 5] && t[k - 1] == rest[k - 4];
    }
  }

  /** Each invocation of the attempt loop is preceded, in the same
      iteration, by exactly one GetBody call for that attempt and by its
      back-off wait (none for attempt 0, backoff(i) for attempt i), and it
      carries the body that GetBody call returned. */
  lemma InvocationCarriesFreshBody(p: Options, next: nat -> Outcome, req: Request)
    requires Retries(p, req)
    ensures var t := RoundTripOf(p, next, req).trace;
      forall k :: 0 <= k < |t| && t[k].Invoked? ==>
        && 2 <= k && t[k].attempt < p.maxRetry
        && t[k - 2] == GetBodyCalled(t[k].attempt)
        && t[k - 1] == Waited(t[k].attempt, if t[k].attempt == 0 then 0 else p.backoff(t[k].attempt))
        && req.getBody.value(t[k].attempt) == Ok(t[k].body)
  {
    var t := RoundTripOf(p, next, req).trace;
    forall k | 0 <= k < |t| && t[k].Invoked?
      ensures && 2 <= k && t[k].attempt < p.maxRetry
              && t[k - 2] == GetBodyCalled(t[k].attempt)
              && t[k - 1] == Waited(t[k].attempt, if t[k].attempt == 0 then 0 else p.backoff(t[k].attempt))
              && req.getBody.value(t[k].attempt) == Ok(t[k].body)
    {
      LoopInvocationPreceded(p, next, req, 0, Outcome(None, None), k);
    }
  }

  /** Attempts a..i-1 that are all retried leave the reply to attempt i on,
      and contribute exactly the invocations a..i-1. */
  lemma {:induction false} LoopSkipsRetryable(p: Options, next: nat -> Outcome, req: Request, a: nat, last: Outcome, i: nat)
    requires req.getBody.Some? && a <= i <= p.maxRetry
    requires forall j :: a <= j < i ==> Retryable(p, next, req, j)
    ensures var here := LoopFrom(p, next, req, a, last);
      var there := LoopFrom(p, next, req, i, if i == a then last else next(i - 1));
      && here.reply == there.reply
      && Invocations(here.trace) == Range(a, i - a) + Invocations(there.trace)
    decreases i - a
  {
    if a < i {
      assert Retryable(p, next, req, a);
      RetriedStep(p, next, req, a, last);
      var rest := LoopFrom(p, next, req, a + 1, next(a));
      var there := LoopFrom(p, next, req, i, if i == a + 1 then next(a) else next(i - 1));
      LoopSkipsRetryable(p, next, req, a + 1, next(a), i);
      PrependRange(a, i - a, i - (a + 1), Invocations(there.trace), Invocations(rest.trace));
    }
  }

  /** Attempts a..i-1 that are all retried contribute exactly the GetBody
      calls a..i-1. */
  lemma {:induction false} LoopSkipsRetryableBodyCalls(p: Options, next: nat -> Outcome, req: Request, a: nat, last: Outcome, i: nat)
    requires req.getBody.Some? && a <= i <= p.maxRetry
    requires forall j :: a <= j < i ==> Retryable(p, next, req, j)
    ensures var there := LoopFrom(p, next, req, i, if i == a then last else next(i - 1));
      BodyCalls(LoopFrom(p, next, req, a, last).trace) == Range(a, i - a) + BodyCalls(there.trace)
    decreases i - a
  {
    if a < i {
      assert Retryable(p, next, req, a);
      RetriedStep(p, next, req, a, last);
      var rest := LoopFrom(p, next, req, a + 1, next(a));
      var there := LoopFrom(p, next, req, i, if i == a + 1 then next(a) else next(i - 1));
      LoopSkipsRetryableBodyCalls(p, next, req, a + 1, next(a), i);
      PrependRange(a, i - a, i - (a + 1), BodyCalls(there.trace), BodyCalls(rest.trace));
    }
  }

  /** When attempts 0..i-1 are all retried, the round trip is the loop from
      attempt i on, after the invocations and GetBody calls 0..i-1. */
  lemma ReachesAttempt(p: Options, next: nat -> Outcome, req: Request, i: nat)
    requires Retries(p, req) && i < p.maxRetry
    requires forall j :: 0 <= j < i ==> Retryable(p, next, req, j)
    ensures var there := LoopFrom(p, next, req, i, if i == 0 then Outcome(None, None) else next(i - 1));
      && RoundTripOf(p, next, req).reply == there.reply
      && Invocations(RoundTripOf(p, next, req).trace) == Range(0, i) + Invocations(there.trace)
      && BodyCalls(RoundTripOf(p, next, req).trace) == Range(0, i) + BodyCalls(there.trace)
  {
    LoopSkipsRetryable(p, next, req, 0, Outcome(None, None), i);
    LoopSkipsRetryableBodyCalls(p, next, req, 0, Outcome(None, None), i);
  }

  /** The first attempt whose response is not discarded and comes without an
      error is returned as it is, and no invocation follows it. */
  lemma AcceptedEndsLoop(p: Options, next: nat -> Outcome, req: Request, i: nat)
    requires Retries(p, req) && i < p.maxRetry
    requires forall j :: 0 <= j < i ==> Retryable(p, next, req, j)
    requires Proceeds(p, req, i) && next(i).err.None? && !p.discarder(next(i).resp)
    ensures RoundTripOf(p, next, req).reply == Outcome(next(i).resp, None)
    ensures Invocations(RoundTripOf(p, next, req).trace) == Range(0, i + 1)
    ensures BodyCalls(RoundTripOf(p, next, req).trace) == Range(0, i + 1)
  {
    var last := if i == 0 then Outcome(None, None) else next(i - 1);
    ReachesAttempt(p, next, req, i);
    LoopFromUnrolled(p, next, req, i, last);
    IterationEvents(p, next, req, i);
    RangeSnoc(0, i);
  }

  /** A transport error equal to context.Canceled or
      context.DeadlineExceeded ends the loop at once with a nil response and
      that error; no invocation follows it. */
  lemma TransportCancellationEndsLoop(p: Options, next: nat -> Outcome, req: Request, i: nat)
    requires Retries(p, req) && i < p.maxRetry
    requires forall j :: 0 <= j < i ==> Retryable(p, next, req, j)
    requires Proceeds(p, req, i) && next(i).err.Some?
    requires next(i).err.value == Canceled || next(i).err.value == DeadlineExceeded
    ensures RoundTripOf(p, next, req).reply == Outcome(None, next(i).err)
    ensures Invocations(RoundTripOf(p, next, req).trace) == Range(0, i + 1)
    ensures BodyCalls(RoundTripOf(p, next, req).trace) == Range(0, i + 1)
  {
    var last := if i == 0 then Outcome(None, None) else next(i - 1);
    ReachesAttempt(p, next, req, i);
    LoopFromUnrolled(p, next, req, i, last);
    IterationEvents(p, next, req, i);
    RangeSnoc(0, i);
  }

  /** A context that is done during a positive back-off wait ends the loop
      with a nil response and the context's error, whatever the earlier
      attempts returned; the attempt it interrupts is never invoked. */
  lemma WaitCancellationEndsLoop(p: Options, next: nat -> Outcome, req: Request, i: nat)
    requires Retries(p, req) && i < p.maxRetry
    requires forall j :: 0 <= j < i ==> Retryable(p, next, req, j)
    requires req.getBody.value(i).Ok?
    requires i > 0 && p.backoff(i) > 0 && req.ctx.doneDuringWait(i)
    ensures RoundTripOf(p, next, req).reply == Outcome(None, Some(req.ctx.Err()))
    ensures IsContextError(RoundTripOf(p, next, req).reply.err.value)
    ensures Invocations(RoundTripOf(p, next, req).trace) == Range(0, i)
    ensures BodyCalls(RoundTripOf(p, next, req).trace) == Range(0, i + 1)
  {
    var last := if i == 0 then Outcome(None, None) else next(i - 1);
    ReachesAttempt(p, next, req, i);
    LoopFromUnrolled(p, next, req, i, last);
    IterationEvents(p, next, req, i);
    RangeSnoc(0, i);
    assert Range(0, i) + [] == Range(0, i);
  }

  /** A GetBody failure ends the loop with a nil response and the wrapped
      error; neither that attempt nor any later one is invoked. */
  lemma BodyFailureEndsLoop(p: Options, next: nat -> Outcome, req: Request, i: nat, e: Error)
    requires Retries(p, req) && i < p.maxRetry
    requires forall j :: 0 <= j < i ==> Retryable(p, next, req, j)
    requires req.getBody.value(i) == Err(e)
    ensures RoundTripOf(p, next, req).reply == Outcome(None, Some(BodyReadFailed(e)))
    ensures Invocations(RoundTripOf(p, next, req).trace) == Range(0, i)
    ensures BodyCalls(RoundTripOf(p, next, req).trace) == Range(0, i + 1)
  {
    var last := if i == 0 then Outcome(None, None) else next(i - 1);
    ReachesAttempt(p, next, req, i);
    LoopFromUnrolled(p, next, req, i, last);
    IterationEvents(p, next, req, i);
    RangeSnoc(0, i);
    assert Range(0, i) + [] == Range(0, i);
  }

  /** When every attempt is retried, the transport is invoked exactly
      maxRetry times and the reply depends on the final attempt's outcome
      alone: its response (and error) when it has a response, else its
      error, else the budget error. */
  lemma ExhaustionUsesLastAttempt(p: Options, next: nat -> Outcome, req: Request)
    requires Retries(p, req)
    requires forall j :: 0 <= j < p.maxRetry ==> Retryable(p, next, req, j)
    ensures var last := next(p.maxRetry - 1);
      RoundTripOf(p, next, req).reply
        == if last.resp.Some? then last
           else if last.err.Some? then Outcome(None, last.err)
           else Outcome(None, Some(BudgetExhausted))
    ensures Invocations(RoundTripOf(p, next, req).trace) == Range(0, p.maxRetry)
    ensures BodyCalls(RoundTripOf(p, next, req).trace) == Range(0, p.maxRetry)
  {
    LoopSkipsRetryable(p, next, req, 0, Outcome(None, None), p.maxRetry);
    LoopSkipsRetryableBodyCalls(p, next, req, 0, Outcome(None, None), p.maxRetry);
    assert Range(0, p.maxRetry) + [] == Range(0, p.maxRetry);
  }

  /** When every attempt gets a response without an error and the
      discarder rejects each one, there are exactly maxRetry invocations
      and the last response is returned with a nil error. */
  lemma AllDiscardedReturnsLast(p: Options, next: nat -> Outcome, req: Request)
    requires Retries(p, req)
    requires forall j :: 0 <= j < p.maxRetry ==>
      Proceeds(p, req, j) && next(j).resp.Some? && next(j).err.None? && p.discarder(next(j).resp)
    ensures RoundTripOf(p, next, req).reply == Outcome(next(p.maxRetry - 1).resp, None)
    ensures |Invocations(RoundTripOf(p, next, req).trace)| == p.maxRetry
  {
    ExhaustionUsesLastAttempt(p, next, req);
    RangeLength(0, p.maxRetry);
  }

  /** Three attempts, the first two failing with ordinary errors and the
      third accepted: the whole trace, with the back-off waits 0,
      backoff(1) and backoff(2) before the three invocations. */
  lemma FailTwiceThenSucceed(p: Options, next: nat -> Outcome, req: Request, c0: nat, c1: nat, r: Response)
    requires Retries(p, req) && p.maxRetry == 3
    requires forall j :: req.getBody.value(j).Ok?
    requires forall j :: !req.ctx.doneDuringWait(j)
    requires next(0) == Outcome(None, Some(Failure(c0))) && next(1) == Outcome(None, Some(Failure(c1)))
    requires next(2) == Outcome(Some(r), None) && !p.discarder(Some(r))
    ensures RoundTripOf(p, next, req).reply == Outcome(Some(r), None)
    ensures var b := j => req.getBody.value(j).value;
      RoundTripOf(p, next, req).trace == [
        GetBodyCalled(0), Waited(0, 0), Invoked(0, b(0)),
        GetBodyCalled(1), Waited(1, p.backoff(1)), Invoked(1, b(1)),
        GetBodyCalled(2), Waited(2, p.backoff(2)), Invoked(2, b(2))]
  {
    var none := Outcome(None, None);
    LoopFromUnrolled(p, next, req, 0, none);
    LoopFromUnrolled(p, next, req, 1, next(0));
    LoopFromUnrolled(p, next, req, 2, next(1));
  }

  /** isContextError compares by equality: it holds for the two context
      sentinels and for no other error, not even for the GetBody wrapper
      around a cancellation. */
  lemma ContextErrorIsSentinelEquality(e: Error, code: nat)
    ensures !IsContextError(BodyReadFailed(e))
    ensures !IsContextError(Failure(code)) && !IsContextError(BudgetExhausted)
    ensures IsContextError(Canceled) && IsContextError(DeadlineExceeded)
  {
  }

  lemma PrependRange(a: nat, n: nat, m: nat, x: seq<nat>, r: seq<nat>)
    requires n == m + 1 && r == Range(a + 1, m) + x
    ensures [a] + r == Range(a, n) + x
  {
    ConcatAssociative([a], Range(a + 1, m), x);
  }

  lemma {:induction false} RangeSnoc(lo: nat, n: nat)
    ensures Range(lo, n) + [lo + n] == Range(lo, n + 1)
    decreases n
  {
    if n > 0 {
      RangeSnoc(lo + 1, n - 1);
    }
  }

  lemma {:induction false} RangeLength(lo: nat, n: nat)
    ensures |Range(lo, n)| == n
    decreases n
  {
    if n > 0 {
      RangeLength(lo + 1, n - 1);
    }
  }
}
