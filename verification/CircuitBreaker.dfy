/** The circuit breaker in front of the order pipeline, related to the history of what it was told. */
module CircuitBreaker {
  import opened Wrappers

  datatype State = Closed | Open | HalfOpen

  datatype Event =
    | Success
    | Failure(at: int)
    | Gate(at: int)
    | Reset

  datatype Breaker = Breaker(state: State, failureCount: nat, openTime: Option<int>)

  const START := Breaker(Closed, 0, None)

  function Overdue(b: Breaker, now: int, timeout: int): bool {
    b.openTime.Some? && now - b.openTime.value > timeout
  }

  function Step(b: Breaker, e: Event, threshold: int, timeout: int): Breaker {
    match e
    case Success => if b.state == HalfOpen then b.(state := Closed, failureCount := 0) else b
    case Failure(t) =>
      if b.failureCount + 1 >= threshold then Breaker(Open, b.failureCount + 1, Some(t))
      else b.(failureCount := b.failureCount + 1)
    case Gate(t) => if b.state == Open && Overdue(b, t, timeout) then b.(state := HalfOpen) else b
    case Reset => START
  }

  /** What the gate answers, given the state it finds. */
  function Refuses(b: Breaker, now: int, timeout: int): bool {
    b.state == Open && !Overdue(b, now, timeout)
  }

  function Run(h: seq<Event>, threshold: int, timeout: int): Breaker {
    if h == [] then START else Step(Run(h[..|h| - 1], threshold, timeout), h[|h| - 1], threshold, timeout)
  }

  lemma RunPush(h: seq<Event>, e: Event, threshold: int, timeout: int)
    ensures Run(h + [e], threshold, timeout) == Step(Run(h, threshold, timeout), e, threshold, timeout)
  {
    assert (h + [e])[..|h|] == h;
  }

  // ---- The same, told from the history ----

  function Failures(w: seq<Event>): nat {
    if w == [] then 0 else Failures(w[..|w| - 1]) + if w[|w| - 1].Failure? then 1 else 0
  }

  /** Enough failures, at least one; in whatever order with successes. */
  predicate Tripped(w: seq<Event>, threshold: int) {
    Failures(w) >= 1 && Failures(w) >= threshold
  }

  function LastFailure(w: seq<Event>): Option<int> {
    if w == [] then None
    else if w[|w| - 1].Failure? then Some(w[|w| - 1].at)
    else LastFailure(w[..|w| - 1])
  }

  /** An order was let through to probe: after the last failure the gate was asked later than the timeout. */
  predicate Probed(w: seq<Event>, timeout: int) {
    && w != []
    && var e := w[|w| - 1]; var earlier := w[..|w| - 1];
       !e.Failure? && (Probed(earlier, timeout) ||
                       (e.Gate? && LastFailure(earlier).Some? && e.at - LastFailure(earlier).value > timeout))
  }

  /** The events since the breaker last recovered: since a reset, or a success after a probe of a tripped breaker. */
  function SinceRecovery(h: seq<Event>, threshold: int, timeout: int): seq<Event> {
    if h == [] then []
    else
      var w := SinceRecovery(h[..|h| - 1], threshold, timeout);
      var e := h[|h| - 1];
      if e.Reset? || (e.Success? && Tripped(w, threshold) && Probed(w, timeout)) then [] else w + [e]
  }

  ghost predicate Explained(b: Breaker, w: seq<Event>, threshold: int, timeout: int) {
    && b.failureCount == Failures(w)
    && (b.state == Closed <==> !Tripped(w, threshold))
    && (b.state == HalfOpen <==> Tripped(w, threshold) && Probed(w, timeout))
    && (Tripped(w, threshold) ==> b.openTime == LastFailure(w))
  }

  lemma {:induction false} FailedOnce(w: seq<Event>)
    ensures LastFailure(w).Some? <==> Failures(w) >= 1
  {
    if w != [] {
      FailedOnce(w[..|w| - 1]);
    }
  }

  lemma {:induction false} ProbedFailed(w: seq<Event>, timeout: int)
    ensures Probed(w, timeout) ==> LastFailure(w).Some?
  {
    if w != [] {
      ProbedFailed(w[..|w| - 1], timeout);
    }
  }

  lemma StepExplained(b: Breaker, w: seq<Event>, e: Event, threshold: int, timeout: int)
    requires Explained(b, w, threshold, timeout)
    ensures var recovered := e.Reset? || (e.Success? && Tripped(w, threshold) && Probed(w, timeout));
      Explained(Step(b, e, threshold, timeout), if recovered then [] else w + [e], threshold, timeout)
  {
    FailedOnce(w);
    assert (w + [e])[..|w|] == w;
  }

  /** Main result: after any history the breaker is CLOSED exactly when too few failures came since it last recovered,
      HALF_OPEN exactly when it tripped and a probe went through since the last failure, and OPEN otherwise; it counts
      all failures since the recovery. */
  lemma {:induction false} StateFromHistory(h: seq<Event>, threshold: int, timeout: int)
    ensures Explained(Run(h, threshold, timeout), SinceRecovery(h, threshold, timeout), threshold, timeout)
  {
    if h != [] {
      StateFromHistory(h[..|h| - 1], threshold, timeout);
      StepExplained(Run(h[..|h| - 1], threshold, timeout), SinceRecovery(h[..|h| - 1], threshold, timeout),
                    h[|h| - 1], threshold, timeout);
    }
  }

  /** CLOSED below the threshold, tripped at or above it; so one more failure in HALF_OPEN opens the breaker again. */
  lemma CountAndState(h: seq<Event>, threshold: int, timeout: int, t: int)
    ensures var b := Run(h, threshold, timeout); var next := Run(h + [Failure(t)], threshold, timeout);
      && (b.state == Closed <==> b.failureCount == 0 || b.failureCount < threshold)
      && (b.state != Closed ==> next.state == Open && next.openTime == Some(t))
  {
    StateFromHistory(h, threshold, timeout);
    RunPush(h, Failure(t), threshold, timeout);
  }

  ghost predicate TimeOrdered(h: seq<Event>, now: int) {
    forall i :: 0 <= i < |h| ==>
        && (h[i].Gate? ==> h[i].at <= now)
        && (h[i].Failure? ==> h[i].at <= now)
  }

  lemma {:induction false} ProbeWasLate(w: seq<Event>, timeout: int, now: int)
    requires Probed(w, timeout) && TimeOrdered(w, now)
    ensures LastFailure(w).Some? && now - LastFailure(w).value > timeout
  {
    var n := |w| - 1;
    assert w[n] in w;
    if Probed(w[..n], timeout) {
      ProbeWasLate(w[..n], timeout, now);
    }
  }

  lemma {:induction false} SinceRecoveryOrdered(h: seq<Event>, threshold: int, timeout: int, now: int)
    requires TimeOrdered(h, now)
    ensures TimeOrdered(SinceRecovery(h, threshold, timeout), now)
  {
    if h != [] {
      SinceRecoveryOrdered(h[..|h| - 1], threshold, timeout, now);
    }
  }

  /** Main result: with a clock that never runs back, an order is refused exactly while the breaker has tripped since
      its last recovery and the latest failure is no older than the timeout. */
  lemma GateExact(h: seq<Event>, threshold: int, timeout: int, now: int)
    requires TimeOrdered(h, now)
    ensures var w := SinceRecovery(h, threshold, timeout);
      && (Tripped(w, threshold) ==> LastFailure(w).Some?)
      && (Refuses(Run(h, threshold, timeout), now, timeout) <==>
            Tripped(w, threshold) && now - LastFailure(w).value <= timeout)
  {
    var w := SinceRecovery(h, threshold, timeout);
    StateFromHistory(h, threshold, timeout);
    SinceRecoveryOrdered(h, threshold, timeout, now);
    FailedOnce(w);
    if Probed(w, timeout) {
      ProbeWasLate(w, timeout, now);
    }
  }

  // ---- Failures need not be consecutive ----

  function Alternating(n: nat): seq<Event> {
    if n == 0 then [] else Alternating(n - 1) + [Success, Failure(0)]
  }

  lemma {:induction false} AlternatingCounts(n: nat, threshold: int, timeout: int)
    requires n < threshold
    ensures Run(Alternating(n), threshold, timeout) == Breaker(Closed, n, None)
  {
    if n > 0 {
      AlternatingCounts(n - 1, threshold, timeout);
      TwoMore(Alternating(n - 1), threshold, timeout);
    }
  }

  lemma TwoMore(h: seq<Event>, threshold: int, timeout: int)
    ensures Run(h + [Success, Failure(0)], threshold, timeout) ==
            Step(Step(Run(h, threshold, timeout), Success, threshold, timeout), Failure(0), threshold, timeout)
  {
    assert h + [Success, Failure(0)] == (h + [Success]) + [Failure(0)];
    RunPush(h + [Success], Failure(0), threshold, timeout);
    RunPush(h, Success, threshold, timeout);
  }

  /** Successes while CLOSED do not reset the count: with a success before every failure the breaker still trips at the
      threshold, though no two failures are consecutive. */
  lemma NotConsecutive(threshold: int, timeout: int)
    requires threshold >= 1
    ensures Run(Alternating(threshold), threshold, timeout).state == Open
    ensures threshold > 1 ==> Run(Alternating(threshold - 1), threshold, timeout).state == Closed
  {
    AlternatingCounts(threshold - 1, threshold, timeout);
    TwoMore(Alternating(threshold - 1), threshold, timeout);
  }

  // ---- The breaker ----

  class CircuitBreaker {
    const threshold: int
    const timeout: int
    var state: State
    var failureCount: nat
    var lastFailureTime: Option<int>
    var circuitOpenTime: Option<int>
    /** What the breaker was told so far. */
    ghost var history: seq<Event>

    /** The fields are what the history explains. */
    ghost predicate Valid()
      reads this
    {
      Breaker(state, failureCount, circuitOpenTime) == Run(history, threshold, timeout)
    }

    constructor (threshold: int, timeout: int)
      ensures Valid() && history == [] && this.threshold == threshold && this.timeout == timeout
    {
      this.threshold, this.timeout := threshold, timeout;
      state, failureCount, lastFailureTime, circuitOpenTime := Closed, 0, None, None;
      history := [];
    }

    method RecordSuccess()
      requires Valid()
      modifies this
      ensures Valid() && history == old(history) + [Success]
    {
      hide Run;
      if state == HalfOpen {
        state, failureCount := Closed, 0;
      }
      RunPush(history, Success, threshold, timeout);
      history := history + [Success];
    }

    method RecordFailure(now: int)
      requires Valid()
      modifies this
      ensures Valid() && history == old(history) + [Failure(now)] && lastFailureTime == Some(now)
    {
      hide Run;
      failureCount := failureCount + 1;
      lastFailureTime := Some(now);
      if failureCount >= threshold {
        state, circuitOpenTime := Open, Some(now);
      }
      RunPush(history, Failure(now), threshold, timeout);
      history := history + [Failure(now)];
    }

    /** The gate in front of a submission. */
    method IsOpen(now: int) returns (refused: bool)
      requires Valid()
      modifies this
      ensures Valid() && history == old(history) + [Gate(now)]
      ensures refused == Refuses(Run(old(history), threshold, timeout), now, timeout)
    {
      hide Run;
      RunPush(history, Gate(now), threshold, timeout);
      history := history + [Gate(now)];
      if state == Closed {
        return false;
      }
      if state == Open && circuitOpenTime.Some? {
        if now - circuitOpenTime.value > timeout {
          state := HalfOpen;
          return false;
        }
      }
      return state == Open;
    }

    method ResetBreaker()
      requires Valid()
      modifies this
      ensures Valid() && history == old(history) + [Reset]
    {
      hide Run;
      state, failureCount, lastFailureTime, circuitOpenTime := Closed, 0, None, None;
      RunPush(history, Reset, threshold, timeout);
      history := history + [Reset];
    }
  }
}
