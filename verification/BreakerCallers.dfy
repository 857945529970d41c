/**
  How many callers it takes to exceed the limit on probes. In the service, calls of `execute` come from
  the flush workers only, of which at most `max_concurrent_flushes` are alive.
 */
module BreakerCallers {
  import opened Prelude
  import opened BreakerRules
  import opened BreakerInterleavings
  import opened BreakerBounds

  /** Legal, with never more than `k` calls that have not returned. */
  predicate Within(c: Config, k: nat, s: State, steps: seq<Step>)
    decreases |steps|
  {
    && Count(s.calls, Unfinished, 0) <= k
    && (steps == [] || (Enabled(c, s, steps[0]) && Within(c, k, Apply(c, s, steps[0]), steps[1..])))
  }

  lemma {:induction false} WithinIsLegal(c: Config, k: nat, s: State, steps: seq<Step>)
    requires Within(c, k, s, steps)
    ensures Legal(c, s, steps) && Count(Run(c, s, steps).calls, Unfinished, 0) <= k
    decreases |steps|
  {
    hide Apply, Count;
    if steps == [] {
    } else {
      WithinIsLegal(c, k, Apply(c, s, steps[0]), steps[1..]);
    }
  }

  lemma {:induction false} WithinThen(c: Config, k: nat, s: State, first: seq<Step>, step: Step)
    requires Within(c, k, s, first) && Legal(c, s, first) && Enabled(c, Run(c, s, first), step)
    requires Count(Apply(c, Run(c, s, first), step).calls, Unfinished, 0) <= k
    ensures Within(c, k, s, first + [step])
    decreases |first|
  {
    hide Apply, Count;
    if first == [] {
      assert (first + [step])[1..] == [];
    } else {
      WithinThen(c, k, Apply(c, s, first[0]), first[1..], step);
      assert (first + [step])[1..] == first[1..] + [step];
    }
  }

  ghost predicate ReachableWithin(c: Config, k: nat, s: State) {
    exists clock: real, steps: seq<Step> ::
      Within(c, k, Initial(clock), steps) && Legal(c, Initial(clock), steps) && Run(c, Initial(clock), steps) == s
  }

  lemma WithinIsReachable(c: Config, k: nat, s: State)
    requires ReachableWithin(c, k, s)
    ensures Reachable(c, s) && Count(s.calls, Unfinished, 0) <= k
  {
    hide Apply, Enabled;
    var clock: real, steps: seq<Step> :|
      Within(c, k, Initial(clock), steps) && Legal(c, Initial(clock), steps) && Run(c, Initial(clock), steps) == s;
    WithinIsLegal(c, k, Initial(clock), steps);
  }

  lemma Extend(c: Config, k: nat, s: State, step: Step)
    requires ReachableWithin(c, k, s) && Enabled(c, s, step)
    requires Count(Apply(c, s, step).calls, Unfinished, 0) <= k
    ensures ReachableWithin(c, k, Apply(c, s, step))
  {
    hide Apply, Enabled, Count;
    var clock: real, steps: seq<Step> :|
      Within(c, k, Initial(clock), steps) && Legal(c, Initial(clock), steps) && Run(c, Initial(clock), steps) == s;
    WithinThen(c, k, Initial(clock), steps, step);
    RunThen(c, Initial(clock), steps, step);
  }

  // -------------------------------------------------------------------------------------------
  // One caller more than probes is enough

  /** Nobody is under way but call `i`, which has recorded its outcome and not returned. */
  predicate Lone(s: State, i: nat) {
    At(s, i, Recorded) && Count(s.calls, Unfinished, 0) == 1 == Count(s.calls, Pending, 0)
  }

  /** A call enters a closed breaker and fails. */
  lemma OneFailure(c: Config, k: nat, s: State) returns (s': State)
    requires c.enabled && c.Valid() && k >= 1 && ReachableWithin(c, k, s) && Safe(c, s)
    requires s.breaker.phase == Closed && Count(s.calls, Unfinished, 0) == 0 == Count(s.calls, Pending, 0)
    ensures ReachableWithin(c, k, s') && Safe(c, s') && s'.clock == s.clock && Lone(s', |s.calls|)
    ensures s'.breaker == RecordFailure(c, s.breaker, "", s.clock, s.clock)
    ensures var s1 := Apply(c, s, Enter(s.clock));
            && ReachableWithin(c, k, s1) && Safe(c, s1) && |s1.calls| == |s.calls| + 1
            && Enabled(c, s1, Fail(|s.calls|, "", s.clock, s.clock))
            && s' == Apply(c, s1, Fail(|s.calls|, "", s.clock, s.clock))
  {
    hide ReachableWithin, Count;
    var i := |s.calls|;
    var call := Call(Running, None);
    var s1 := Apply(c, s, Enter(s.clock));
    assert s1.calls == s.calls + [call];
    CountAppend(s.calls, call, Unfinished, 0);
    CountAppend(s.calls, call, Pending, 0);
    Extend(c, k, s, Enter(s.clock));
    StepKeepsSafe(c, s, Enter(s.clock));
    var fail := Fail(i, "", s.clock, s.clock);
    CountMove(s1.calls, i, call.(pc := Recorded), Unfinished, 0);
    CountMove(s1.calls, i, call.(pc := Recorded), Pending, 0);
    Extend(c, k, s1, fail);
    StepKeepsSafe(c, s1, fail);
    s' := Apply(c, s1, fail);
  }

  /** A call that has recorded returns from a closed breaker. */
  lemma OneReturn(c: Config, k: nat, s: State, i: nat) returns (s': State)
    requires c.Valid() && ReachableWithin(c, k, s) && Safe(c, s) && s.breaker.phase == Closed && Lone(s, i)
    ensures ReachableWithin(c, k, s') && Safe(c, s') && s' == s.(calls := s'.calls)
    ensures s' == Apply(c, s, Check(i)) && At(s', i, Done)
    ensures Count(s'.calls, Unfinished, 0) == 0 == Count(s'.calls, Pending, 0)
  {
    WithinIsReachable(c, k, s);
    CountMove(s.calls, i, s.calls[i].(pc := Done), Unfinished, 0);
    CountMove(s.calls, i, s.calls[i].(pc := Done), Pending, 0);
    Extend(c, k, s, Check(i));
    StepKeepsSafe(c, s, Check(i));
    s' := Apply(c, s, Check(i));
  }

  /** Failures one after the other open the breaker, the last of them not yet returned. */
  lemma {:induction false} Trip(c: Config, k: nat, s: State) returns (s': State, i: nat)
    requires c.enabled && c.Valid() && k >= 1 && ReachableWithin(c, k, s) && Safe(c, s)
    requires s.breaker.phase == Closed && Count(s.calls, Unfinished, 0) == 0 == Count(s.calls, Pending, 0)
    ensures ReachableWithin(c, k, s') && s'.clock == s.clock && Lone(s', i)
    ensures s'.breaker.phase == Open && s'.breaker.nextAttempt == Some(s.clock + c.CoolDown())
    decreases c.failureThreshold - s.breaker.failures
  {
    hide ReachableWithin, Count, Ledger, Budget, Numbered;
    var s1 := OneFailure(c, k, s);
    if s1.breaker.phase == Open {
      s', i := s1, |s.calls|;
    } else {
      var s2 := OneReturn(c, k, s1, |s.calls|);
      s', i := Trip(c, k, s2);
    }
  }

  /** Probes enter until the limit is reached. */
  lemma {:induction false} FillWithin(c: Config, k: nat, s: State) returns (s': State)
    requires c.enabled && c.Valid() && ReachableWithin(c, k, s) && Safe(c, s) && s.breaker.phase == HalfOpen
    requires Count(s.calls, Unfinished, 0) + c.halfOpenRequests - s.breaker.halfOpenInFlight <= k
    ensures ReachableWithin(c, k, s') && Safe(c, s') && InPeriod(s', s.period)
    ensures s'.breaker == s.breaker.(halfOpenInFlight := c.halfOpenRequests)
    ensures |s.calls| <= |s'.calls| && s'.calls[..|s.calls|] == s.calls
    ensures var more := c.halfOpenRequests - s.breaker.halfOpenInFlight;
            && Count(s'.calls, Unfinished, 0) == Count(s.calls, Unfinished, 0) + more
            && Count(s'.calls, LiveProbe, s.period) == Count(s.calls, LiveProbe, s.period) + more
    decreases c.halfOpenRequests - s.breaker.halfOpenInFlight
  {
    hide ReachableWithin, Count, Ledger, Budget, Numbered;
    if s.breaker.halfOpenInFlight == c.halfOpenRequests {
      s' := s;
    } else {
      var s1 := ProbeWithin(c, k, s);
      s' := FillWithin(c, k, s1);
    }
  }

  lemma ProbeWithin(c: Config, k: nat, s: State) returns (s': State)
    requires c.enabled && c.Valid() && ReachableWithin(c, k, s) && Safe(c, s) && s.breaker.phase == HalfOpen
    requires s.breaker.halfOpenInFlight < c.halfOpenRequests && Count(s.calls, Unfinished, 0) < k
    ensures ReachableWithin(c, k, s') && Safe(c, s') && InPeriod(s', s.period)
    ensures s'.breaker == s.breaker.(halfOpenInFlight := s.breaker.halfOpenInFlight + 1)
    ensures s' == Apply(c, s, Enter(s.clock)) && s'.calls == s.calls + [Call(Running, Some(s.period))]
    ensures Count(s'.calls, Unfinished, 0) == Count(s.calls, Unfinished, 0) + 1
    ensures Count(s'.calls, LiveProbe, s.period) == Count(s.calls, LiveProbe, s.period) + 1
  {
    ProbeEnters(c, s);
    CountAppend(s.calls, Call(Running, Some(s.period)), Unfinished, 0);
    Extend(c, k, s, Enter(s.clock));
    s' := Apply(c, s, Enter(s.clock));
  }

  /** The older call returns and takes a probe out of the count. */
  lemma DrainWithin(c: Config, k: nat, s: State, i: nat) returns (s': State)
    requires c.Valid() && ReachableWithin(c, k, s) && Safe(c, s) && s.breaker.phase == HalfOpen
    requires At(s, i, Recorded) && s.breaker.halfOpenInFlight >= 1
    ensures ReachableWithin(c, k, s') && Safe(c, s') && InPeriod(s', s.period)
    ensures s' == Apply(c, Apply(c, s, Check(i)), Decrement(i))
    ensures s'.breaker == s.breaker.(halfOpenInFlight := s.breaker.halfOpenInFlight - 1)
    ensures Count(s'.calls, Unfinished, 0) == Count(s.calls, Unfinished, 0) - 1
    ensures Count(s'.calls, LiveProbe, s.period) == Count(s.calls, LiveProbe, s.period)
  {
    hide ReachableWithin;
    WithinIsReachable(c, k, s);
    var s1 := Apply(c, s, Check(i));
    CountMove(s.calls, i, s.calls[i].(pc := Draining), Unfinished, 0);
    CountMove(s.calls, i, s.calls[i].(pc := Draining), LiveProbe, s.period);
    Extend(c, k, s, Check(i));
    StepKeepsSafe(c, s, Check(i));
    CountMove(s1.calls, i, s1.calls[i].(pc := Done), Unfinished, 0);
    CountMove(s1.calls, i, s1.calls[i].(pc := Done), LiveProbe, s.period);
    Extend(c, k, s1, Decrement(i));
    StepKeepsSafe(c, s1, Decrement(i));
    s' := Apply(c, s1, Decrement(i));
  }

  /** The period begins beside the older call. */
  lemma BeginWithin(c: Config, k: nat, s: State, i: nat, now: real) returns (s': State)
    requires c.Valid() && k >= 2 && ReachableWithin(c, k, s) && Opening(c, s, now) && Lone(s, i)
    ensures ReachableWithin(c, k, s') && Safe(c, s') && InPeriod(s', s.period + 1) && At(s', i, Recorded)
    ensures s' == Apply(c, s, Enter(now)) && s'.calls == s.calls + [Call(Running, Some(s.period + 1))]
    ensures s'.breaker.halfOpenInFlight == 1 && Count(s'.calls, Unfinished, 0) == 2
    ensures Count(s'.calls, LiveProbe, s'.period) == 1
  {
    PeriodBegins(c, s, now);
    CountAppend(s.calls, Call(Running, Some(s.period + 1)), Unfinished, 0);
    Extend(c, k, s, Enter(now));
    s' := Apply(c, s, Enter(now));
  }

  lemma InitialIsReachable(c: Config, k: nat, clock: real)
    ensures ReachableWithin(c, k, Initial(clock)) && (c.Valid() ==> Safe(c, Initial(clock)))
  {
    assert Within(c, k, Initial(clock), []) && Legal(c, Initial(clock), []);
    assert Run(c, Initial(clock), []) == Initial(clock);
  }

  /** With more than N callers a breaker that is on lets more than N probes run at once. */
  lemma ManyCallersOverrun(c: Config, k: nat) returns (s: State)
    requires c.enabled && c.Valid() && k > c.halfOpenRequests
    ensures ReachableWithin(c, k, s) && s.breaker.phase == HalfOpen
    ensures Count(s.calls, LiveProbe, s.period) > c.halfOpenRequests
  {
    hide ReachableWithin, Count, Safe;
    var coolDown := c.CoolDown();
    var clock := if coolDown >= 0.0 then 1.0 else 1.0 - coolDown;
    InitialIsReachable(c, k, clock);
    NoCallsAtFirst(clock);
    var s1, i := Trip(c, k, Initial(clock));
    WithinIsReachable(c, k, s1);
    var s2 := BeginWithin(c, k, s1, i, if coolDown >= 0.0 then clock + coolDown else clock);
    var s3 := FillWithin(c, k, s2);
    assert s3.calls[i] == s2.calls[i] by {
      assert s3.calls[..|s2.calls|][i] == s2.calls[i];
    }
    var s4 := DrainWithin(c, k, s3, i);
    s := ProbeWithin(c, k, s4);
  }

  lemma NoCallsAtFirst(clock: real)
    ensures Count(Initial(clock).calls, Unfinished, 0) == 0 == Count(Initial(clock).calls, Pending, 0)
  {
  }

  // -------------------------------------------------------------------------------------------
  // Main results

  lemma {:induction false} OffMeansNoCalls(c: Config, s: State, steps: seq<Step>)
    requires !c.enabled && s.calls == [] && Legal(c, s, steps)
    ensures Run(c, s, steps).calls == []
    decreases |steps|
  {
    if steps == [] {
    } else {
      OffMeansNoCalls(c, Apply(c, s, steps[0]), steps[1..]);
    }
  }

  /** The probes running at once stay within `half_open_requests` in every run of at most `k` callers. */
  ghost predicate ProbeLimitHolds(c: Config, k: nat) {
    forall s :: ReachableWithin(c, k, s) && s.breaker.phase == HalfOpen ==>
                  Count(s.calls, LiveProbe, s.period) <= c.halfOpenRequests
  }

  /** That is so exactly if the breaker is off or there are no more callers than probes are allowed. */
  lemma ProbeLimitIffFewCallers(c: Config, k: nat)
    requires c.Valid()
    ensures ProbeLimitHolds(c, k) <==> !c.enabled || k <= c.halfOpenRequests
  {
    if c.enabled && k > c.halfOpenRequests {
      var s := ManyCallersOverrun(c, k);
    } else {
      forall s | ReachableWithin(c, k, s)
        ensures Count(s.calls, LiveProbe, s.period) <= c.halfOpenRequests
      {
        WithinIsReachable(c, k, s);
        CountLive(s.calls, s.period);
        if !c.enabled {
          var clock: real, steps: seq<Step> :| Legal(c, Initial(clock), steps) && Run(c, Initial(clock), steps) == s;
          OffMeansNoCalls(c, Initial(clock), steps);
        }
      }
    }
  }

  ghost predicate PlainProbeLimit(c: Config) {
    forall s :: Reachable(c, s) && s.breaker.phase == HalfOpen ==>
                  Count(s.calls, LiveProbe, s.period) <= c.halfOpenRequests
  }

  /** With any number of callers, exactly if the breaker is off. */
  lemma PlainProbeLimitIffOff(c: Config)
    requires c.Valid()
    ensures PlainProbeLimit(c) <==> !c.enabled
  {
    if c.enabled {
      var s := ManyCallersOverrun(c, c.halfOpenRequests + 1);
      WithinIsReachable(c, c.halfOpenRequests + 1, s);
    } else {
      forall s | Reachable(c, s)
        ensures s.calls == []
      {
        var clock: real, steps: seq<Step> :| Legal(c, Initial(clock), steps) && Run(c, Initial(clock), steps) == s;
        OffMeansNoCalls(c, Initial(clock), steps);
      }
    }
  }
}
