/**
  What the interleavings of a half-open breaker can and cannot reach: the cool-down holds over whole
  runs, the probe budget is attained, and the plain bound of N live probes holds exactly when no
  older call can still disturb the period.
 */
module BreakerBounds {
  import opened Prelude
  import opened BreakerRules
  import opened BreakerInterleavings

  // -------------------------------------------------------------------------------------------
  // Cool-down

  predicate CoolingUntil(c: Config, s: State, until: real) {
    && until <= s.clock + c.CoolDown()
    && (s.clock < until ==>
          s.breaker.phase == Open && s.breaker.nextAttempt.Some? && s.breaker.nextAttempt.value >= until)
  }

  lemma {:induction false} CoolingPersists(c: Config, s: State, steps: seq<Step>, until: real)
    requires c.Valid() && Safe(c, s) && CoolingUntil(c, s, until) && Legal(c, s, steps) && Reset !in steps
    ensures CoolingUntil(c, Run(c, s, steps), until)
    decreases |steps|
  {
    if steps == [] {
    } else {
      assert steps[0] in steps;
      StepKeepsSafe(c, s, steps[0]);
      CoolingPersists(c, Apply(c, s, steps[0]), steps[1..], until);
    }
  }

  /** After a failure that leaves the breaker open, whatever calls finish meanwhile, none is admitted
      until the cool-down is over, unless `reset` runs. */
  lemma NoAdmissionDuringCoolDown(c: Config, s: State, failure: Step, steps: seq<Step>, now: real)
    requires c.Valid() && Reachable(c, s) && failure.Fail? && Enabled(c, s, failure)
    requires Apply(c, s, failure).breaker.phase == Open
    requires Legal(c, Apply(c, s, failure), steps) && Reset !in steps
    requires var later := Run(c, Apply(c, s, failure), steps);
             now >= later.clock && BreakerRules.Enter(c, later.breaker, now).1.Admitted?
    ensures now >= failure.armedAt + c.resetTimeout as real / 1000.0
  {
    ReachableIsSafe(c, s);
    StepKeepsSafe(c, s, failure);
    CoolingPersists(c, Apply(c, s, failure), steps, failure.armedAt + c.CoolDown());
  }

  // -------------------------------------------------------------------------------------------
  // Below the threshold

  function Failures(steps: seq<Step>): nat {
    if steps == [] then 0 else (if steps[0].Fail? then 1 else 0) + Failures(steps[1..])
  }

  predicate ClosedWith(s: State, failures: int) {
    s.breaker.phase == Closed && s.breaker.failures <= failures
  }

  lemma StepStaysClosed(c: Config, s: State, step: Step, failures: nat)
    requires Enabled(c, s, step) && ClosedWith(s, failures)
    requires failures + (if step.Fail? then 1 else 0) < c.failureThreshold
    ensures ClosedWith(Apply(c, s, step), failures + if step.Fail? then 1 else 0)
  {
  }

  lemma {:induction false} StaysClosed(c: Config, s: State, steps: seq<Step>, failures: nat)
    requires Legal(c, s, steps) && ClosedWith(s, failures) && failures + Failures(steps) < c.failureThreshold
    ensures ClosedWith(Run(c, s, steps), failures + Failures(steps))
    decreases |steps|
  {
    hide Apply, Enabled;
    if steps == [] {
    } else {
      StepStaysClosed(c, s, steps[0], failures);
      StaysClosed(c, Apply(c, s, steps[0]), steps[1..], failures + if steps[0].Fail? then 1 else 0);
    }
  }

  /** After a `reset`, whatever the state before it and whichever calls are still under way, every call is let
      in, and none as a probe, until as many failures as the threshold says have been recorded. */
  lemma ResetReadmits(c: Config, s: State, steps: seq<Step>, now: real)
    requires c.Valid() && Legal(c, s, [Reset] + steps) && Failures(steps) < c.failureThreshold
    ensures BreakerRules.Enter(c, Run(c, s, [Reset] + steps).breaker, now).1 == Admitted(false)
    ensures Apply(c, s, Reset).calls == s.calls && Apply(c, s, Reset).clock == s.clock
  {
    var s1 := Apply(c, s, Reset);
    assert ([Reset] + steps)[1..] == steps;
    assert Run(c, s, [Reset] + steps) == Run(c, s1, steps);
    StaysClosed(c, s1, steps, 0);
  }

  // -------------------------------------------------------------------------------------------
  // Runs inside one half-open period

  predicate InPeriod(s: State, period: nat) {
    s.breaker.phase == HalfOpen && s.period == period
  }

  /** `now` finds the breaker open and cooled down, so its call begins a half-open period. */
  ghost predicate Opening(c: Config, s: State, now: real) {
    c.Valid() && Reachable(c, s) && s.breaker.phase == Open && Due(s.breaker.nextAttempt, now)
    && Enabled(c, s, Enter(now))
  }

  lemma PeriodBegins(c: Config, s: State, now: real)
    requires Opening(c, s, now)
    ensures var s' := Apply(c, s, Enter(now));
            && Safe(c, s') && InPeriod(s', s.period + 1)
            && s'.admitted == 1 == s'.breaker.halfOpenInFlight && s'.breaker.successCount == 0
            && s'.leftOver == Count(s.calls, Pending, 0) == Count(s'.calls, Pending, 0)
            && Count(s'.calls, LiveProbe, s'.period) == 1 == Count(s'.calls, OpenProbe, s'.period)
            && s'.calls == s.calls + [Call(Running, Some(s.period + 1))]
  {
    hide Count;
    ReachableIsSafe(c, s);
    StepKeepsSafe(c, s, Enter(now));
    PendingAfter(c, s, Enter(now));
    CountNone(s.calls, LiveProbe, s.period + 1);
    CountNone(s.calls, OpenProbe, s.period + 1);
    CountAppend(s.calls, Call(Running, Some(s.period + 1)), LiveProbe, s.period + 1);
    CountAppend(s.calls, Call(Running, Some(s.period + 1)), OpenProbe, s.period + 1);
  }

  /** One more probe enters while the limit allows it. */
  lemma ProbeEnters(c: Config, s: State)
    requires c.enabled && c.Valid() && Safe(c, s) && s.breaker.phase == HalfOpen
    requires s.breaker.halfOpenInFlight < c.halfOpenRequests
    ensures var s' := Apply(c, s, Enter(s.clock));
            && Safe(c, s') && InPeriod(s', s.period)
            && s'.breaker == s.breaker.(halfOpenInFlight := s.breaker.halfOpenInFlight + 1)
            && s'.admitted == s.admitted + 1 && s'.leftOver == s.leftOver
            && s'.calls == s.calls + [Call(Running, Some(s.period))]
            && Count(s'.calls, Pending, 0) == Count(s.calls, Pending, 0)
            && Count(s'.calls, LiveProbe, s.period) == Count(s.calls, LiveProbe, s.period) + 1
  {
    StepKeepsSafe(c, s, Enter(s.clock));
    PendingAfter(c, s, Enter(s.clock));
    CountAppend(s.calls, Call(Running, Some(s.period)), LiveProbe, s.period);
  }

  /** Probes enter until the limit is reached. */
  lemma {:induction false} FillUp(c: Config, s: State) returns (steps: seq<Step>)
    requires c.enabled && c.Valid() && Safe(c, s) && s.breaker.phase == HalfOpen
    ensures Legal(c, s, steps)
    ensures var s' := Run(c, s, steps);
            && Safe(c, s') && InPeriod(s', s.period)
            && s'.breaker == s.breaker.(halfOpenInFlight := c.halfOpenRequests)
            && s'.admitted == s.admitted + c.halfOpenRequests - s.breaker.halfOpenInFlight
            && s'.leftOver == s.leftOver
            && |s.calls| <= |s'.calls| && s'.calls[..|s.calls|] == s.calls
            && Count(s'.calls, Pending, 0) == Count(s.calls, Pending, 0)
            && Count(s'.calls, LiveProbe, s.period) ==
               Count(s.calls, LiveProbe, s.period) + c.halfOpenRequests - s.breaker.halfOpenInFlight
    decreases c.halfOpenRequests - s.breaker.halfOpenInFlight
  {
    if s.breaker.halfOpenInFlight == c.halfOpenRequests {
      return [];
    }
    ProbeEnters(c, s);
    var s1 := Apply(c, s, Enter(s.clock));
    var rest := FillUp(c, s1);
    steps := [Enter(s.clock)] + rest;
    assert steps[1..] == rest;
  }

  /** A call past its record returns, and takes one off the probes in flight. */
  lemma DrainOne(c: Config, s: State, i: nat) returns (steps: seq<Step>)
    requires c.Valid() && Safe(c, s) && s.breaker.phase == HalfOpen
    requires i < |s.calls| && Is(s.calls[i], Pending, 0)
    ensures Legal(c, s, steps)
    ensures var s' := Run(c, s, steps);
            && Safe(c, s') && s'.(calls := s.calls) == s.(breaker := BreakerRules.Decrement(s.breaker))
            && s'.calls == Move(s.calls, i, Done)
            && Count(s'.calls, Pending, 0) == Count(s.calls, Pending, 0) - 1
            && Count(s'.calls, LiveProbe, s.period) == Count(s.calls, LiveProbe, s.period)
  {
    if s.calls[i].pc == Recorded {
      var s1 := Apply(c, s, Check(i));
      StepKeepsSafe(c, s, Check(i));
      StepKeepsSafe(c, s1, Decrement(i));
      assert [Check(i)][1..] == [];
      steps := [Check(i)] + [Decrement(i)];
      RunThen(c, s, [Check(i)], Decrement(i));
      assert Run(c, s, steps).calls == Move(s.calls, i, Done);
    } else {
      StepKeepsSafe(c, s, Decrement(i));
      steps := [Decrement(i)];
      assert steps[1..] == [];
    }
    CountMove(s.calls, i, s.calls[i].(pc := Done), Pending, 0);
    CountMove(s.calls, i, s.calls[i].(pc := Done), LiveProbe, s.period);
  }

  // -------------------------------------------------------------------------------------------
  // The budget is attained

  /** Probes of the period succeed without being enough of them to close the breaker. */
  lemma {:induction false} SucceedMany(c: Config, s: State, m: nat) returns (steps: seq<Step>)
    requires c.Valid() && Safe(c, s) && s.breaker.phase == HalfOpen
    requires s.breaker.successCount + m < c.halfOpenRequests && m <= Count(s.calls, LiveProbe, s.period)
    ensures Legal(c, s, steps)
    ensures var s' := Run(c, s, steps);
            && Safe(c, s')
            && s'.(calls := s.calls) ==
               s.(breaker := s.breaker.(successCount := s.breaker.successCount + m))
            && Count(s'.calls, Pending, 0) == Count(s.calls, Pending, 0) + m
    decreases m
  {
    if m == 0 {
      return [];
    }
    var i := Pick(s.calls, LiveProbe, s.period);
    var s1 := Apply(c, s, Succeed(i));
    StepKeepsSafe(c, s, Succeed(i));
    PendingAfter(c, s, Succeed(i));
    CountMove(s.calls, i, s.calls[i].(pc := Recorded), LiveProbe, s.period);
    var rest := SucceedMany(c, s1, m - 1);
    steps := [Succeed(i)] + rest;
    assert steps[1..] == rest;
  }

  /** Each call that drains makes room for one more probe. */
  lemma {:induction false} DrainAndRefill(c: Config, s: State) returns (steps: seq<Step>)
    requires c.enabled && c.Valid() && Safe(c, s) && s.breaker.phase == HalfOpen
    requires s.breaker.halfOpenInFlight == c.halfOpenRequests
    ensures Legal(c, s, steps)
    ensures var s' := Run(c, s, steps);
            && InPeriod(s', s.period) && s'.leftOver == s.leftOver
            && s'.admitted == s.admitted + Count(s.calls, Pending, 0)
    decreases Count(s.calls, Pending, 0)
  {
    if Count(s.calls, Pending, 0) == 0 {
      return [];
    }
    var i := Pick(s.calls, Pending, 0);
    var drain := DrainOne(c, s, i);
    var s1 := Run(c, s, drain);
    ProbeEnters(c, s1);
    var s2 := Apply(c, s1, Enter(s1.clock));
    RunThen(c, s, drain, Enter(s1.clock));
    var rest := DrainAndRefill(c, s2);
    steps := drain + [Enter(s1.clock)] + rest;
    RunConcat(c, s, drain + [Enter(s1.clock)], rest);
  }

  /** Every period that begins can be driven to admit exactly 2N - 1 calls beyond those left over. */
  lemma ProbeBudgetIsAttained(c: Config, s: State, now: real)
    requires Opening(c, s, now)
    ensures exists steps: seq<Step> ::
              && Legal(c, Apply(c, s, Enter(now)), steps)
              && var s' := Run(c, Apply(c, s, Enter(now)), steps);
                 InPeriod(s', s.period + 1) &&
                 s'.admitted == 2 * c.halfOpenRequests - 1 + Count(s.calls, Pending, 0)
  {
    hide Apply, Safe, Count, Reachable;
    PeriodBegins(c, s, now);
    var s1 := Apply(c, s, Enter(now));
    var fill := FillUp(c, s1);
    var s2 := Run(c, s1, fill);
    var succeed := SucceedMany(c, s2, c.halfOpenRequests - 1);
    RunConcat(c, s1, fill, succeed);
    var s3 := Run(c, s2, succeed);
    var refill := DrainAndRefill(c, s3);
    RunConcat(c, s1, fill + succeed, refill);
    assert Legal(c, s1, fill + succeed + refill);
  }

  // -------------------------------------------------------------------------------------------
  // Live probes

  /** An older call that can still take a probe out of the count: one past its record, or one still
      running when a single success does not close the breaker. */
  predicate Hazard(c: Config, s: State) {
    Count(s.calls, Pending, 0) > 0 ||
    (c.halfOpenRequests >= 2 && Count(s.calls, Stale, s.period + 1) > 0)
  }

  /** While the period lasts, only its own calls drain, so each open probe is counted. */
  ghost predicate Sheltered(c: Config, s: State, period: nat) {
    InPeriod(s, period) ==>
      && Count(s.calls, OpenProbe, period) <= s.breaker.halfOpenInFlight
      && forall i :: 0 <= i < |s.calls| && s.calls[i].pc != Done ==>
           if c.halfOpenRequests == 1 then s.calls[i].pc == Running else s.calls[i].period == Some(period)
  }

  lemma OpenProbesAfter(c: Config, s: State, step: Step)
    requires Enabled(c, s, step)
    ensures var before := Count(s.calls, OpenProbe, s.period);
            var after := Count(Apply(c, s, step).calls, OpenProbe, s.period);
            match step
            case Enter(now) => after <= before + if BreakerRules.Enter(c, s.breaker, now).1.Admitted? then 1 else 0
            case Decrement(i) => after == before - if s.calls[i].period == Some(s.period) then 1 else 0
            case _ => after <= before
  {
    var s' := Apply(c, s, step);
    match step
    case Enter(now) =>
      if |s'.calls| > |s.calls| {
        CountAppend(s.calls, s'.calls[|s.calls|], OpenProbe, s.period);
      }
    case Reset =>
    case _ => CountMove(s.calls, step.i, s'.calls[step.i], OpenProbe, s.period);
  }

  lemma ShelterPersists(c: Config, s: State, step: Step, period: nat)
    requires c.Valid() && Safe(c, s) && s.period >= period && Sheltered(c, s, period) && Enabled(c, s, step)
    ensures Apply(c, s, step).period >= period && Sheltered(c, Apply(c, s, step), period)
  {
    OpenProbesAfter(c, s, step);
  }

  lemma {:induction false} ShelterLasts(c: Config, s: State, steps: seq<Step>, period: nat)
    requires c.Valid() && Safe(c, s) && s.period >= period && Sheltered(c, s, period) && Legal(c, s, steps)
    ensures Safe(c, Run(c, s, steps)) && Sheltered(c, Run(c, s, steps), period)
    decreases |steps|
  {
    if steps == [] {
    } else {
      StepKeepsSafe(c, s, steps[0]);
      ShelterPersists(c, s, steps[0], period);
      ShelterLasts(c, Apply(c, s, steps[0]), steps[1..], period);
    }
  }

  lemma {:induction false} CountZero(calls: seq<Call>, kind: Kind, period: nat)
    requires Count(calls, kind, period) == 0
    ensures forall i :: 0 <= i < |calls| ==> !Is(calls[i], kind, period)
  {
    if calls == [] {
    } else {
      CountZero(calls[..|calls| - 1], kind, period);
    }
  }

  lemma NoHazardBoundsLiveProbes(c: Config, s: State, now: real, steps: seq<Step>)
    requires Opening(c, s, now) && !Hazard(c, s)
    requires Legal(c, Apply(c, s, Enter(now)), steps)
    requires InPeriod(Run(c, Apply(c, s, Enter(now)), steps), s.period + 1)
    ensures Count(Run(c, Apply(c, s, Enter(now)), steps).calls, LiveProbe, s.period + 1) <= c.halfOpenRequests
  {
    PeriodBegins(c, s, now);
    var s1 := Apply(c, s, Enter(now));
    CountZero(s.calls, Pending, 0);
    if c.halfOpenRequests >= 2 {
      CountZero(s.calls, Stale, s.period + 1);
      ReachableIsSafe(c, s);
      assert forall i :: 0 <= i < |s.calls| ==> !Is(s.calls[i], Stale, s.period + 1) && !Is(s.calls[i], Pending, 0);
    }
    ShelterLasts(c, s1, steps, s.period + 1);
    CountLive(Run(c, s1, steps).calls, s.period + 1);
  }

  /** A hazardous call lets one probe too many run. */
  lemma HazardBreaksLimit(c: Config, s: State, now: real) returns (steps: seq<Step>)
    requires Opening(c, s, now) && Hazard(c, s)
    ensures Legal(c, Apply(c, s, Enter(now)), steps)
    ensures InPeriod(Run(c, Apply(c, s, Enter(now)), steps), s.period + 1)
    ensures Count(Run(c, Apply(c, s, Enter(now)), steps).calls, LiveProbe, s.period + 1) > c.halfOpenRequests
  {
    PeriodBegins(c, s, now);
    ReachableIsSafe(c, s);
    var p := s.period + 1;
    var s1 := Apply(c, s, Enter(now));
    var fill := FillUp(c, s1);
    var s2 := Run(c, s1, fill);
    var i: nat, record: seq<Step>;
    if Count(s.calls, Pending, 0) > 0 {
      i := Pick(s.calls, Pending, 0);
      record := [];
    } else {
      i := Pick(s.calls, Stale, p);
      record := [Succeed(i)];
    }
    assert s2.calls[i] == s1.calls[i] == s.calls[i] by {
      assert s2.calls[..|s1.calls|][i] == s1.calls[i];
    }
    if record != [] {
      assert record[1..] == [];
      StepKeepsSafe(c, s2, Succeed(i));
      CountMove(s2.calls, i, s2.calls[i].(pc := Recorded), LiveProbe, p);
    }
    var s3 := Run(c, s2, record);
    RunConcat(c, s1, fill, record);
    var drain := DrainOne(c, s3, i);
    RunConcat(c, s1, fill + record, drain);
    var s4 := Run(c, s3, drain);
    ProbeEnters(c, s4);
    steps := fill + record + drain + [Enter(s4.clock)];
    RunThen(c, s1, fill + record + drain, Enter(s4.clock));
  }

  /** `half_open_requests` bounds the probes running at once exactly when no hazardous call is around
      as the period begins. */
  lemma LiveProbesBoundedIffNoHazard(c: Config, s: State, now: real)
    requires Opening(c, s, now)
    ensures !Hazard(c, s) <==>
            forall steps: seq<Step> ::
              Legal(c, Apply(c, s, Enter(now)), steps) &&
              InPeriod(Run(c, Apply(c, s, Enter(now)), steps), s.period + 1) ==>
              Count(Run(c, Apply(c, s, Enter(now)), steps).calls, LiveProbe, s.period + 1) <= c.halfOpenRequests
  {
    if Hazard(c, s) {
      var steps := HazardBreaksLimit(c, s, now);
    } else {
      forall steps: seq<Step> |
        Legal(c, Apply(c, s, Enter(now)), steps) &&
        InPeriod(Run(c, Apply(c, s, Enter(now)), steps), s.period + 1)
        ensures Count(Run(c, Apply(c, s, Enter(now)), steps).calls, LiveProbe, s.period + 1) <= c.halfOpenRequests
      {
        NoHazardBoundsLiveProbes(c, s, now, steps);
      }
    }
  }
}
