/**
  Calls of `execute` running in parallel. Every locked section is one step, the check that the
  `finally` clause makes without the lock is a step of its own, and any number of steps of other
  calls may come between two steps of one call.
 */
module BreakerInterleavings {
  import opened Prelude
  import opened BreakerRules

  /** Where an admitted call stands: its operation runs, its outcome is recorded, it has seen the
      breaker half-open and is about to decrement, or it has returned. */
  datatype Pc = Running | Recorded | Draining | Done

  /** `period` is the half-open period that counted the call as a probe, if one did. */
  datatype Call = Call(pc: Pc, period: Option<nat>)

  /** The breaker, the calls admitted so far, and a history: the number of half-open periods begun,
      the calls the latest one admitted, and the calls that were past their record when it began. */
  datatype State = State(
    breaker: Breaker,
    clock: real,
    calls: seq<Call>,
    period: nat,
    admitted: nat,
    leftOver: nat)

  datatype Step =
    | Enter(now: real)
    | Succeed(i: nat)
    | Fail(i: nat, error: string, failedAt: real, armedAt: real)
    | Check(i: nat)
    | Decrement(i: nat)
    | Reset

  predicate At(s: State, i: nat, pc: Pc) {
    i < |s.calls| && s.calls[i].pc == pc
  }

  /** A breaker that is switched off is never entered: `execute` runs the operation and nothing else. */
  predicate Enabled(c: Config, s: State, step: Step) {
    match step
    case Enter(now) => c.enabled && now >= s.clock
    case Succeed(i) => At(s, i, Running)
    case Fail(i, _, failedAt, armedAt) => At(s, i, Running) && s.clock <= failedAt <= armedAt
    case Check(i) => At(s, i, Recorded)
    case Decrement(i) => At(s, i, Draining)
    case Reset => true
  }

  function Move(calls: seq<Call>, i: nat, pc: Pc): seq<Call>
    requires i < |calls|
  {
    calls[i := calls[i].(pc := pc)]
  }

  /** The call enters; the history notes whether that begins a half-open period. */
  function Arrive(c: Config, s: State, now: real): State {
    var (b, admission) := BreakerRules.Enter(c, s.breaker, now);
    var s' := s.(breaker := b, clock := now);
    if admission.Refused? then
      s'
    else if !admission.asProbe then
      s'.(calls := s.calls + [Call(Running, None)])
    else if s.breaker.phase == Open then
      s'.(calls := s.calls + [Call(Running, Some(s.period + 1))],
          period := s.period + 1, admitted := 1, leftOver := Count(s.calls, Pending, 0))
    else
      s'.(calls := s.calls + [Call(Running, Some(s.period))], admitted := s.admitted + 1)
  }

  function Apply(c: Config, s: State, step: Step): State
    requires Enabled(c, s, step)
  {
    match step
    case Enter(now) => Arrive(c, s, now)
    case Succeed(i) =>
      s.(breaker := RecordSuccess(c, s.breaker), calls := Move(s.calls, i, Recorded))
    case Fail(i, error, failedAt, armedAt) =>
      s.(breaker := RecordFailure(c, s.breaker, error, failedAt, armedAt),
         clock := armedAt, calls := Move(s.calls, i, Recorded))
    case Check(i) =>
      s.(calls := Move(s.calls, i, if s.breaker.phase == HalfOpen then Draining else Done))
    case Decrement(i) =>
      s.(breaker := BreakerRules.Decrement(s.breaker), calls := Move(s.calls, i, Done))
    case Reset => s.(breaker := FRESH)
  }

  predicate Legal(c: Config, s: State, steps: seq<Step>)
    decreases |steps|
  {
    steps == [] || (Enabled(c, s, steps[0]) && Legal(c, Apply(c, s, steps[0]), steps[1..]))
  }

  function Run(c: Config, s: State, steps: seq<Step>): State
    requires Legal(c, s, steps)
    decreases |steps|
  {
    if steps == [] then s else Run(c, Apply(c, s, steps[0]), steps[1..])
  }

  function Initial(clock: real): State {
    State(FRESH, clock, [], 0, 0, 0)
  }

  ghost predicate Reachable(c: Config, s: State) {
    exists clock: real, steps: seq<Step> ::
      Legal(c, Initial(clock), steps) && Run(c, Initial(clock), steps) == s
  }

  // -------------------------------------------------------------------------------------------
  // Counting calls

  /** The groups of calls the bounds speak of: those that have not returned; those past their record but
      not returned; running without being a probe of the given period; and probes of that period, running
      or merely unreturned. */
  datatype Kind = Unfinished | Pending | Stale | LiveProbe | OpenProbe

  predicate Is(k: Call, kind: Kind, period: nat) {
    match kind
    case Unfinished => k.pc != Done
    case Pending => k.pc == Recorded || k.pc == Draining
    case Stale => k.pc == Running && k.period != Some(period)
    case LiveProbe => k.pc == Running && k.period == Some(period)
    case OpenProbe => k.pc != Done && k.period == Some(period)
  }

  function Count(calls: seq<Call>, kind: Kind, period: nat): nat {
    if calls == [] then 0
    else Count(calls[..|calls| - 1], kind, period) + if Is(calls[|calls| - 1], kind, period) then 1 else 0
  }

  lemma CountAppend(calls: seq<Call>, k: Call, kind: Kind, period: nat)
    ensures Count(calls + [k], kind, period) ==
            Count(calls, kind, period) + if Is(k, kind, period) then 1 else 0
  {
    assert (calls + [k])[..|calls|] == calls;
  }

  lemma {:induction false} CountMove(calls: seq<Call>, i: nat, k: Call, kind: Kind, period: nat)
    requires i < |calls|
    ensures Count(calls[i := k], kind, period) + (if Is(calls[i], kind, period) then 1 else 0) ==
            Count(calls, kind, period) + if Is(k, kind, period) then 1 else 0
  {
    var before := calls[..|calls| - 1];
    if i == |before| {
      assert calls[i := k][..|before|] == before;
    } else {
      CountMove(before, i, k, kind, period);
      assert calls[i := k][..|before|] == before[i := k];
    }
  }

  /** A positive count has a witness. */
  lemma {:induction false} Pick(calls: seq<Call>, kind: Kind, period: nat) returns (i: nat)
    requires Count(calls, kind, period) > 0
    ensures i < |calls| && Is(calls[i], kind, period)
  {
    if Is(calls[|calls| - 1], kind, period) {
      i := |calls| - 1;
    } else {
      i := Pick(calls[..|calls| - 1], kind, period);
    }
  }

  lemma {:induction false} CountNone(calls: seq<Call>, kind: Kind, period: nat)
    requires forall k :: k in calls ==> !Is(k, kind, period)
    ensures Count(calls, kind, period) == 0
  {
    if calls == [] {
    } else {
      CountNone(calls[..|calls| - 1], kind, period);
    }
  }

  lemma {:induction false} CountLive(calls: seq<Call>, period: nat)
    ensures Count(calls, LiveProbe, period) <= Count(calls, OpenProbe, period) <= Count(calls, Unfinished, 0)
  {
    if calls == [] {
    } else {
      CountLive(calls[..|calls| - 1], period);
    }
  }

  // -------------------------------------------------------------------------------------------
  // Invariants of every interleaving

  /** What the latest period has spent: admissions and calls still to drain, against the probes in
      flight, the successes counted, and the calls left over from before it. */
  predicate Ledger(s: State) {
    s.breaker.phase == HalfOpen ==>
      s.admitted + Count(s.calls, Pending, 0) <=
      s.breaker.halfOpenInFlight + s.breaker.successCount + s.leftOver
  }

  predicate Budget(c: Config, s: State) {
    s.admitted <= 2 * c.halfOpenRequests - 1 + s.leftOver
  }

  predicate Numbered(s: State) {
    forall i :: 0 <= i < |s.calls| && s.calls[i].period.Some? ==> s.calls[i].period.value <= s.period
  }

  predicate Safe(c: Config, s: State) {
    Inv(c, s.breaker) && Ledger(s) && Budget(c, s) && Numbered(s)
  }

  /** How a step changes the number of calls still to drain. */
  lemma PendingAfter(c: Config, s: State, step: Step)
    requires Enabled(c, s, step)
    ensures var before, after := Count(s.calls, Pending, 0), Count(Apply(c, s, step).calls, Pending, 0);
            match step
            case Succeed(_) => after == before + 1
            case Fail(_, _, _, _) => after == before + 1
            case Check(_) => after == if s.breaker.phase == HalfOpen then before else before - 1
            case Decrement(_) => after == before - 1
            case _ => after == before
  {
    var s' := Apply(c, s, step);
    match step
    case Enter(now) =>
      if |s'.calls| > |s.calls| {
        CountAppend(s.calls, s'.calls[|s.calls|], Pending, 0);
      }
    case Reset =>
    case _ => CountMove(s.calls, step.i, s'.calls[step.i], Pending, 0);
  }

  lemma StepKeepsSafe(c: Config, s: State, step: Step)
    requires c.Valid() && Safe(c, s) && Enabled(c, s, step)
    ensures Safe(c, Apply(c, s, step))
  {
    PendingAfter(c, s, step);
  }

  lemma {:induction false} RunKeepsSafe(c: Config, s: State, steps: seq<Step>)
    requires c.Valid() && Safe(c, s) && Legal(c, s, steps)
    ensures Safe(c, Run(c, s, steps))
    decreases |steps|
  {
    if steps == [] {
    } else {
      StepKeepsSafe(c, s, steps[0]);
      RunKeepsSafe(c, Apply(c, s, steps[0]), steps[1..]);
    }
  }

  lemma ReachableIsSafe(c: Config, s: State)
    requires c.Valid() && Reachable(c, s)
    ensures Safe(c, s)
  {
    var clock: real, steps: seq<Step> :|
      Legal(c, Initial(clock), steps) && Run(c, Initial(clock), steps) == s;
    RunKeepsSafe(c, Initial(clock), steps);
  }

  /** The fields agree in every reachable state, whatever the interleaving. */
  lemma BreakerInvariant(c: Config, s: State)
    requires c.Valid() && Reachable(c, s)
    ensures s.breaker.phase == Closed <==> s.breaker.failures < c.failureThreshold
    ensures s.breaker.phase != HalfOpen ==> s.breaker.successCount == 0 == s.breaker.halfOpenInFlight
    ensures s.breaker.phase == Open ==> s.breaker.nextAttempt.Some?
    ensures s.breaker.phase == HalfOpen ==>
              && 0 <= s.breaker.successCount < c.halfOpenRequests
              && 0 <= s.breaker.halfOpenInFlight <= c.halfOpenRequests
  {
    ReachableIsSafe(c, s);
  }

  /** No half-open period admits more than 2N - 1 calls beyond those left over from before it. */
  lemma ProbeBudget(c: Config, s: State)
    requires c.Valid() && Reachable(c, s)
    ensures s.admitted <= 2 * c.halfOpenRequests - 1 + s.leftOver
  {
    ReachableIsSafe(c, s);
  }

  // -------------------------------------------------------------------------------------------
  // Runs put together

  lemma {:induction false} RunConcat(c: Config, s: State, first: seq<Step>, second: seq<Step>)
    requires Legal(c, s, first) && Legal(c, Run(c, s, first), second)
    ensures Legal(c, s, first + second)
    ensures Run(c, s, first + second) == Run(c, Run(c, s, first), second)
    decreases |first|
  {
    hide Apply;
    if first == [] {
      assert first + second == second;
    } else {
      RunConcat(c, Apply(c, s, first[0]), first[1..], second);
      assert (first + second)[1..] == first[1..] + second;
    }
  }

  lemma RunThen(c: Config, s: State, first: seq<Step>, step: Step)
    requires Legal(c, s, first) && Enabled(c, Run(c, s, first), step)
    ensures Legal(c, s, first + [step])
    ensures Run(c, s, first + [step]) == Apply(c, Run(c, s, first), step)
  {
    hide Apply, Enabled;
    var mid := Run(c, s, first);
    assert [step][1..] == [];
    assert Legal(c, mid, [step]) && Run(c, mid, [step]) == Apply(c, mid, step);
    RunConcat(c, s, first, [step]);
  }
}
