/**
  The running service and its circuit breaker together: a worker calls `execute` once, while it sends,
  so no more calls are under way than flushes are allowed at once.
 */
module ServiceBreakers {
  import opened Prelude
  import opened FlushPools
  import Flush = FlushInterleavings
  import Deadlocks = FlushDeadlocks
  import Crews = FlushCrews
  import Receipts = FlushReceipts
  import Dlqs = ServiceDlqs
  import Rules = BreakerRules
  import Breaker = BreakerInterleavings
  import Callers = BreakerCallers

  /** A worker has not called yet, was turned away, is in call `i`, or has come out of it; and whether the
      operation, if it has ended, failed. */
  datatype Errand = Before | Away | Calling(i: nat, failed: bool) | Over(failed: bool)

  datatype State = State(service: Flush.State, breaker: Breaker.State, errands: seq<Errand>)

  datatype Step =
    | Serve(step: Flush.Step)
    | Call(w: nat, now: real)
    | Succeed(w: nat)
    | Fail(w: nat, error: string, failedAt: real, armedAt: real)
    | Check(w: nat)
    | Decrement(w: nat)
    | Reset

  function Initial(clock: real): State {
    State(Flush.INITIAL, Breaker.Initial(clock), [])
  }

  predicate CallingAt(s: State, w: nat) {
    Dlqs.SendingAt(s.service.pool, w) && w < |s.errands| && s.errands[w].Calling?
  }

  /** How a send may end, given what came of the call; without the breaker, anyhow. */
  predicate Ends(b: Rules.Config, errand: Errand, failed: bool) {
    match errand
    case Before => !b.enabled
    case Away => failed
    case Calling(_, _) => false
    case Over(f) => failed == f
  }

  /** The breaker's step, where a step has one. */
  function BreakerStep(s: State, step: Step): Breaker.Step
    requires !step.Serve? && !step.Call? && (step.Reset? || CallingAt(s, step.w))
  {
    match step
    case Succeed(w) => Breaker.Succeed(s.errands[w].i)
    case Fail(w, error, failedAt, armedAt) => Breaker.Fail(s.errands[w].i, error, failedAt, armedAt)
    case Check(w) => Breaker.Check(s.errands[w].i)
    case Decrement(w) => Breaker.Decrement(s.errands[w].i)
    case Reset => Breaker.Reset
  }

  predicate Enabled(c: Flush.Config, b: Rules.Config, s: State, step: Step) {
    match step
    case Serve(step) =>
      && Flush.Enabled(c, s.service, step)
      && (step.EndSend? ==> step.w < |s.errands| && Ends(b, s.errands[step.w], step.error.Some?))
    case Call(w, now) =>
      && Dlqs.SendingAt(s.service.pool, w) && w < |s.errands| && s.errands[w].Before?
      && Breaker.Enabled(b, s.breaker, Breaker.Enter(now))
    case Reset => true
    case _ => CallingAt(s, step.w) && Breaker.Enabled(b, s.breaker, BreakerStep(s, step))
  }

  function Grow(errands: seq<Errand>, n: nat): seq<Errand> {
    if |errands| >= n then errands else errands + seq(n - |errands|, _ => Before)
  }

  function ErrandAfter(s: State, breaker: Breaker.State, step: Step): Errand
    requires !step.Serve? && !step.Call? && !step.Reset? && CallingAt(s, step.w)
    requires s.errands[step.w].i < |breaker.calls|
  {
    var errand := s.errands[step.w];
    if step.Succeed? then errand.(failed := false)
    else if step.Fail? then errand.(failed := true)
    else if breaker.calls[errand.i].pc == Breaker.Done then Over(errand.failed)
    else errand
  }

  function Apply(c: Flush.Config, b: Rules.Config, s: State, step: Step): State
    requires Enabled(c, b, s, step)
  {
    match step
    case Serve(step) =>
      var service := Flush.Apply(c, s.service, step);
      s.(service := service, errands := Grow(s.errands, |service.pool.workers|))
    case Call(w, now) =>
      var breaker := Breaker.Apply(b, s.breaker, Breaker.Enter(now));
      var i := |s.breaker.calls|;
      s.(breaker := breaker, errands := s.errands[w := if |breaker.calls| > i then Calling(i, false) else Away])
    case Reset => s.(breaker := Breaker.Apply(b, s.breaker, Breaker.Reset))
    case _ =>
      var breaker := Breaker.Apply(b, s.breaker, BreakerStep(s, step));
      s.(breaker := breaker, errands := s.errands[step.w := ErrandAfter(s, breaker, step)])
  }

  /** A `reset` closes the breaker and leaves the service and the calls under way alone. */
  lemma ResetLaw(c: Flush.Config, b: Rules.Config, s: State)
    ensures var s' := Apply(c, b, s, Reset);
            && s'.service == s.service && s'.errands == s.errands && s'.breaker.calls == s.breaker.calls
            && s'.breaker.breaker == Rules.Breaker(Rules.Closed, 0, 0, 0, None, None, None)
  {
  }

  predicate Legal(c: Flush.Config, b: Rules.Config, s: State, steps: seq<Step>)
    decreases |steps|
  {
    steps == [] || (Enabled(c, b, s, steps[0]) && Legal(c, b, Apply(c, b, s, steps[0]), steps[1..]))
  }

  function Run(c: Flush.Config, b: Rules.Config, s: State, steps: seq<Step>): State
    requires Legal(c, b, s, steps)
    decreases |steps|
  {
    if steps == [] then s else Run(c, b, Apply(c, b, s, steps[0]), steps[1..])
  }

  ghost predicate Reachable(c: Flush.Config, b: Rules.Config, s: State) {
    exists clock: real, steps: seq<Step> ::
      Legal(c, b, Initial(clock), steps) && Run(c, b, Initial(clock), steps) == s
  }

  lemma {:induction false} RunThen(c: Flush.Config, b: Rules.Config, s: State, first: seq<Step>, step: Step)
    requires Legal(c, b, s, first) && Enabled(c, b, Run(c, b, s, first), step)
    ensures Legal(c, b, s, first + [step])
    ensures Run(c, b, s, first + [step]) == Apply(c, b, Run(c, b, s, first), step)
    decreases |first|
  {
    hide Apply, Enabled;
    if first == [] {
      assert (first + [step])[1..] == [];
    } else {
      RunThen(c, b, Apply(c, b, s, first[0]), first[1..], step);
      assert (first + [step])[1..] == first[1..] + [step];
    }
  }

  lemma Extend(c: Flush.Config, b: Rules.Config, s: State, step: Step)
    requires Reachable(c, b, s) && Enabled(c, b, s, step)
    ensures Reachable(c, b, Apply(c, b, s, step))
  {
    hide Apply, Enabled;
    var clock: real, steps: seq<Step> :| Legal(c, b, Initial(clock), steps) && Run(c, b, Initial(clock), steps) == s;
    RunThen(c, b, Initial(clock), steps, step);
  }

  // -------------------------------------------------------------------------------------------
  // No more calls than workers

  function CallCount(errands: seq<Errand>): nat {
    if errands == [] then 0
    else CallCount(errands[..|errands| - 1]) + if errands[|errands| - 1].Calling? then 1 else 0
  }

  lemma {:induction false} CallCountUpdate(errands: seq<Errand>, w: nat, errand: Errand)
    requires w < |errands|
    ensures CallCount(errands[w := errand]) + (if errands[w].Calling? then 1 else 0) ==
            CallCount(errands) + if errand.Calling? then 1 else 0
  {
    var before := errands[..|errands| - 1];
    if w == |before| {
      assert errands[w := errand][..|before|] == before;
    } else {
      CallCountUpdate(before, w, errand);
      assert errands[w := errand][..|before|] == before[w := errand];
    }
  }

  lemma {:induction false} GrowAddsNoCall(errands: seq<Errand>, n: nat)
    ensures CallCount(Grow(errands, n)) == CallCount(errands)
    decreases n
  {
    if n <= |errands| {
    } else {
      GrowAddsNoCall(errands, n - 1);
      assert Grow(errands, n)[..n - 1] == Grow(errands, n - 1);
    }
  }

  lemma {:induction false} CallersAreLive(errands: seq<Errand>, workers: seq<Worker>)
    requires |errands| == |workers|
    requires forall w :: 0 <= w < |errands| && errands[w].Calling? ==> workers[w].pc == Sending
    ensures CallCount(errands) <= LiveCount(workers)
  {
    if errands == [] {
    } else {
      CallersAreLive(errands[..|errands| - 1], workers[..|workers| - 1]);
    }
  }

  /** A call under way is some sending worker's. */
  predicate Coupled(p: Pool, breaker: Breaker.State, errands: seq<Errand>) {
    && |errands| == |p.workers|
    && (forall w :: 0 <= w < |errands| && errands[w].Calling? ==> p.workers[w].pc == Sending)
    && Breaker.Count(breaker.calls, Breaker.Unfinished, 0) == CallCount(errands)
  }

  /** With the breaker on, a send that has ended was turned away and failed, or ended as its call did. */
  predicate Told(b: Rules.Config, p: Pool, errands: seq<Errand>) {
    |errands| == |p.workers| && forall w :: 0 <= w < |errands| && b.enabled && p.workers[w].pc != Sending ==>
      (errands[w].Away? && p.workers[w].sendError.Some?) || errands[w] == Over(p.workers[w].sendError.Some?)
  }

  ghost predicate Safe(c: Flush.Config, b: Rules.Config, s: State) {
    && Flush.Safe(c, s.service) && Coupled(s.service.pool, s.breaker, s.errands)
    && Told(b, s.service.pool, s.errands)
    && Callers.ReachableWithin(b, c.maxConcurrent, s.breaker)
  }

  lemma CoupledBound(c: Flush.Config, s: Flush.State, breaker: Breaker.State, errands: seq<Errand>)
    requires Flush.Safe(c, s) && Coupled(s.pool, breaker, errands)
    ensures Breaker.Count(breaker.calls, Breaker.Unfinished, 0) <= LiveCount(s.pool.workers) <= c.maxConcurrent
  {
    hide Breaker.Count, CallCount, LiveCount, Flush.CallersInformed, Flush.LockKnown;
    CallersAreLive(errands, s.pool.workers);
  }

  lemma CallKeepsSafe(c: Flush.Config, b: Rules.Config, s: State, w: nat, now: real)
    requires Safe(c, b, s) && Enabled(c, b, s, Call(w, now))
    ensures Safe(c, b, Apply(c, b, s, Call(w, now)))
  {
    hide Breaker.Count, CallCount, Flush.Safe, Callers.ReachableWithin;
    var s' := Apply(c, b, s, Call(w, now));
    if |s'.breaker.calls| > |s.breaker.calls| {
      Breaker.CountAppend(s.breaker.calls, s'.breaker.calls[|s.breaker.calls|], Breaker.Unfinished, 0);
    }
    CallCountUpdate(s.errands, w, s'.errands[w]);
    CoupledBound(c, s'.service, s'.breaker, s'.errands);
    Callers.Extend(b, c.maxConcurrent, s.breaker, Breaker.Enter(now));
  }

  lemma OwnStepKeepsSafe(c: Flush.Config, b: Rules.Config, s: State, step: Step)
    requires Safe(c, b, s) && Enabled(c, b, s, step) && !step.Serve? && !step.Call?
    ensures Safe(c, b, Apply(c, b, s, step))
  {
    hide Breaker.Count, CallCount, Flush.Safe, Callers.ReachableWithin;
    var s' := Apply(c, b, s, step);
    if !step.Reset? {
      var i := s.errands[step.w].i;
      Breaker.CountMove(s.breaker.calls, i, s'.breaker.calls[i], Breaker.Unfinished, 0);
      CallCountUpdate(s.errands, step.w, s'.errands[step.w]);
    }
    CoupledBound(c, s'.service, s'.breaker, s'.errands);
    Callers.Extend(b, c.maxConcurrent, s.breaker, BreakerStep(s, step));
  }

  lemma GrowKeepsErrands(errands: seq<Errand>, n: nat)
    ensures |Grow(errands, n)| == Max(|errands|, n) && Grow(errands, n)[..|errands|] == errands
    ensures forall w :: |errands| <= w < |Grow(errands, n)| ==> Grow(errands, n)[w].Before?
  {
  }

  lemma ServeKeepsSafe(c: Flush.Config, b: Rules.Config, s: State, step: Flush.Step)
    requires c.Valid() && Safe(c, b, s) && Enabled(c, b, s, Serve(step))
    ensures Safe(c, b, Apply(c, b, s, Serve(step)))
  {
    hide Breaker.Count, CallCount, Flush.Safe, Flush.Apply, Flush.Enabled, Callers.ReachableWithin, Grow;
    var s' := Apply(c, b, s, Serve(step));
    var n := |s'.service.pool.workers|;
    Flush.StepKeepsSafe(c, s.service, step);
    Receipts.StepMoves(c, s.service, step);
    GrowAddsNoCall(s.errands, n);
    GrowKeepsErrands(s.errands, n);
    forall w | 0 <= w < n
      ensures w < |s.errands| ==> s'.errands[w] == s.errands[w]
    {
      assert w < |s.errands| ==> s'.errands[..|s.errands|][w] == s'.errands[w];
    }
  }

  /** A call remembers how its operation ended until it is over. */
  lemma OutcomeIsRemembered(c: Flush.Config, b: Rules.Config, s: State, step: Step)
    requires Enabled(c, b, s, step) && !step.Serve? && !step.Call? && !step.Reset?
    ensures var before, after := s.errands[step.w], Apply(c, b, s, step).errands[step.w];
            && (step.Succeed? ==> after == Calling(before.i, false))
            && (step.Fail? ==> after == Calling(before.i, true))
            && (step.Check? || step.Decrement? ==> after == before || after == Over(before.failed))
  {
  }

  lemma {:induction false} RunKeepsSafe(c: Flush.Config, b: Rules.Config, s: State, steps: seq<Step>)
    requires c.Valid() && Safe(c, b, s) && Legal(c, b, s, steps)
    ensures Safe(c, b, Run(c, b, s, steps))
    decreases |steps|
  {
    hide Apply, Enabled, Safe;
    if steps == [] {
    } else {
      match steps[0] {
        case Serve(step) => ServeKeepsSafe(c, b, s, step);
        case Call(w, now) => CallKeepsSafe(c, b, s, w, now);
        case _ => OwnStepKeepsSafe(c, b, s, steps[0]);
      }
      RunKeepsSafe(c, b, Apply(c, b, s, steps[0]), steps[1..]);
    }
  }

  lemma ReachableIsSafe(c: Flush.Config, b: Rules.Config, s: State)
    requires c.Valid() && Reachable(c, b, s)
    ensures Safe(c, b, s)
  {
    hide Apply, Enabled;
    var clock: real, steps: seq<Step> :| Legal(c, b, Initial(clock), steps) && Run(c, b, Initial(clock), steps) == s;
    Callers.InitialIsReachable(b, c.maxConcurrent, clock);
    RunKeepsSafe(c, b, Initial(clock), steps);
  }

  lemma StepKeepsAway(c: Flush.Config, b: Rules.Config, s: State, step: Step, w: nat)
    requires Enabled(c, b, s, step) && w < |s.errands| && s.errands[w] == Away
    ensures w < |Apply(c, b, s, step).errands| && Apply(c, b, s, step).errands[w] == Away
  {
    hide Flush.Apply, Flush.Enabled, Breaker.Apply, Breaker.Enabled;
  }

  lemma {:induction false} RunKeepsAway(c: Flush.Config, b: Rules.Config, s: State, steps: seq<Step>, w: nat)
    requires Legal(c, b, s, steps) && w < |s.errands| && s.errands[w] == Away
    ensures w < |Run(c, b, s, steps).errands| && Run(c, b, s, steps).errands[w] == Away
    decreases |steps|
  {
    hide Apply, Enabled;
    if steps == [] {
    } else {
      StepKeepsAway(c, b, s, steps[0], w);
      RunKeepsAway(c, b, Apply(c, b, s, steps[0]), steps[1..], w);
    }
  }

  /** A worker that the breaker turns away does not get in later: its send ends, if it does, in failure. */
  lemma RefusedSendFails(c: Flush.Config, b: Rules.Config, s: State, w: nat, now: real, steps: seq<Step>)
    requires c.Valid() && Reachable(c, b, s) && Enabled(c, b, s, Call(w, now))
    requires Rules.Enter(b, s.breaker.breaker, now).1.Refused?
    requires Legal(c, b, Apply(c, b, s, Call(w, now)), steps)
    ensures var workers := Run(c, b, Apply(c, b, s, Call(w, now)), steps).service.pool.workers;
            w < |workers| && (workers[w].pc == Sending || workers[w].sendError.Some?)
  {
    hide Reachable, Run, Legal, Rules.Enter, Flush.Safe, Coupled, Callers.ReachableWithin;
    var s1 := Apply(c, b, s, Call(w, now));
    ReachableIsSafe(c, b, s);
    CallKeepsSafe(c, b, s, w, now);
    RunKeepsSafe(c, b, s1, steps);
    assert s1.errands[w] == Away;
    RunKeepsAway(c, b, s1, steps, w);
  }

  // -------------------------------------------------------------------------------------------
  // More flushes at once than probes are allowed

  /** `f` flushes have failed and the next `n - f` are sending, of which those from `w` on have not called. */
  ghost predicate Stage(c: Flush.Config, b: Rules.Config, s: State, f: nat, n: nat, w: nat) {
    && Reachable(c, b, s) && Flush.Safe(c, s.service) && Crews.Crew(s.service, f, n) && |s.errands| == n
    && Callers.ReachableWithin(b, c.maxConcurrent, s.breaker) && Breaker.Safe(b, s.breaker)
    && forall v :: w <= v < n ==> s.errands[v].Before?
  }

  /** The service goes on without the breaker, as long as no send ends. */
  lemma {:induction false} Glide(c: Flush.Config, b: Rules.Config, s: State, steps: seq<Flush.Step>, t: Flush.State)
    returns (s': State)
    requires c.Valid() && Flush.Safe(c, s.service) && Reachable(c, b, s) && |s.errands| == |s.service.pool.workers|
    requires Crews.Path(c, s.service, steps, t)
    ensures Reachable(c, b, s') && s'.service == t && Flush.Safe(c, t) && s'.breaker == s.breaker
    ensures |s'.errands| == |t.pool.workers| && s'.errands == Grow(s.errands, |t.pool.workers|)
    decreases |steps|
  {
    hide Flush.Apply, Flush.Enabled, Flush.Safe, Reachable;
    if steps == [] {
      s' := s;
    } else {
      var s1 := Apply(c, b, s, Serve(steps[0]));
      Extend(c, b, s, Serve(steps[0]));
      Flush.StepKeepsSafe(c, s.service, steps[0]);
      Receipts.StepMoves(c, s.service, steps[0]);
      s' := Glide(c, b, s1, steps[1..], t);
    }
  }

  /** More workers start sending. */
  lemma Grows(c: Flush.Config, b: Rules.Config, s: State, f: nat, n: nat, w: nat, m: nat) returns (s': State)
    requires c.Valid() && c.buffer.HasRoom() && n <= m && m - f <= c.maxConcurrent && w <= n && Stage(c, b, s, f, n, w)
    ensures Stage(c, b, s', f, m, w) && s'.breaker == s.breaker && s'.errands[..n] == s.errands
  {
    hide Reachable, Flush.Safe, Callers.ReachableWithin, Breaker.Safe;
    var steps, t := Crews.CrewFills(c, s.service, f, n, m);
    s' := Glide(c, b, s, steps, t);
  }

  /** The oldest send, whose call is over and failed, ends, and so does its worker. */
  lemma Shrinks(c: Flush.Config, b: Rules.Config, s: State, f: nat, n: nat, w: nat) returns (s': State)
    requires c.Valid() && f < n && Stage(c, b, s, f, n, w) && s.errands[f] == Over(true)
    ensures Stage(c, b, s', f + 1, n, w) && s'.breaker == s.breaker && s'.errands == s.errands
  {
    hide Reachable, Flush.Safe, Callers.ReachableWithin, Breaker.Safe, Flush.Enabled, Flush.Apply;
    var step := Flush.Step.EndSend(f, Some(""));
    Crews.SendFails(c, s.service, f, n, "");
    Flush.StepKeepsSafe(c, s.service, step);
    SendLeavesWorkers(c, s.service, f);
    Extend(c, b, s, Serve(step));
    var s1 := Apply(c, b, s, Serve(step));
    var steps, t := Crews.CrewShrinks(c, s.service, f, n, "");
    s' := Glide(c, b, s1, steps, t);
  }

  lemma SendLeavesWorkers(c: Flush.Config, s: Flush.State, w: nat)
    requires WorkerAt(s.pool, w)
    ensures |Flush.SendStep(c, s, w, Some("")).pool.workers| == |s.pool.workers|
  {
  }

  lemma CrewSends(s: Flush.State, f: nat, n: nat, w: nat)
    requires Crews.Crew(s, f, n) && f <= w < n
    ensures Dlqs.SendingAt(s.pool, w)
  {
  }

  /** Worker `w` is let into its call, as the breaker `d` says. */
  lemma Enters(c: Flush.Config, b: Rules.Config, s: State, f: nat, n: nat, w: nat, now: real, d: Breaker.State)
    returns (s': State)
    requires Stage(c, b, s, f, n, w) && f <= w < n
    requires Breaker.Enabled(b, s.breaker, Breaker.Enter(now)) && d == Breaker.Apply(b, s.breaker, Breaker.Enter(now))
    requires |d.calls| == |s.breaker.calls| + 1
    requires Callers.ReachableWithin(b, c.maxConcurrent, d) && Breaker.Safe(b, d)
    ensures Stage(c, b, s', f, n, w + 1) && s'.breaker == d && s'.service == s.service
    ensures s'.errands == s.errands[w := Calling(|s.breaker.calls|, false)]
  {
    hide Reachable, Flush.Safe, Callers.ReachableWithin, Breaker.Safe, Crews.Crew, Breaker.Apply, Breaker.Enabled;
    CrewSends(s.service, f, n, w);
    Extend(c, b, s, Call(w, now));
    s' := Apply(c, b, s, Call(w, now));
  }

  /** Worker `w`, in a call, takes a step of it. */
  lemma Goes(c: Flush.Config, b: Rules.Config, s: State, f: nat, n: nat, w: nat, step: Step) returns (s': State)
    requires Reachable(c, b, s) && Crews.Crew(s.service, f, n) && f <= w < n == |s.errands| && s.errands[w].Calling?
    requires step.Fail? || step.Check? || step.Decrement?
    requires step.w == w && Breaker.Enabled(b, s.breaker, BreakerStepOf(s.errands[w].i, step))
    requires s.errands[w].i < |Breaker.Apply(b, s.breaker, BreakerStepOf(s.errands[w].i, step)).calls|
    ensures Reachable(c, b, s') && s'.service == s.service
    ensures s'.breaker == Breaker.Apply(b, s.breaker, BreakerStepOf(s.errands[w].i, step))
    ensures |s'.errands| == n && s'.errands == s.errands[w := s'.errands[w]]
    ensures s'.errands[w] ==
            if step.Fail? then s.errands[w].(failed := true)
            else if s'.breaker.calls[s.errands[w].i].pc == Breaker.Done then Over(s.errands[w].failed)
            else s.errands[w]
  {
    hide Reachable, Crews.Crew, Breaker.Apply, Breaker.Enabled;
    CrewSends(s.service, f, n, w);
    Extend(c, b, s, step);
    s' := Apply(c, b, s, step);
  }

  function BreakerStepOf(i: nat, step: Step): Breaker.Step
    requires step.Fail? || step.Check? || step.Decrement?
  {
    match step
    case Fail(_, error, failedAt, armedAt) => Breaker.Fail(i, error, failedAt, armedAt)
    case Check(_) => Breaker.Check(i)
    case Decrement(_) => Breaker.Decrement(i)
  }

  /** The next flush calls and fails. */
  lemma OneFails(c: Flush.Config, b: Rules.Config, s: State, f: nat) returns (s': State, i: nat)
    requires c.Valid() && c.buffer.HasRoom() && b.enabled && b.Valid() && Stage(c, b, s, f, f, f)
    requires s.breaker.breaker.phase == Rules.Closed
    requires Breaker.Count(s.breaker.calls, Breaker.Unfinished, 0) == 0
    requires Breaker.Count(s.breaker.calls, Breaker.Pending, 0) == 0
    ensures Stage(c, b, s', f, f + 1, f + 1) && s'.errands[f] == Calling(i, true) && Callers.Lone(s'.breaker, i)
    ensures s'.breaker.clock == s.breaker.clock
    ensures s'.breaker.breaker == Rules.RecordFailure(b, s.breaker.breaker, "", s.breaker.clock, s.breaker.clock)
  {
    hide Reachable, Flush.Safe, Callers.ReachableWithin, Breaker.Safe, Crews.Crew, Breaker.Count, Breaker.Apply;
    var now := s.breaker.clock;
    i := |s.breaker.calls|;
    var s1 := Grows(c, b, s, f, f, f, f + 1);
    var d := Callers.OneFailure(b, c.maxConcurrent, s1.breaker);
    var s2 := Enters(c, b, s1, f, f + 1, f, now, Breaker.Apply(b, s1.breaker, Breaker.Enter(now)));
    s' := Goes(c, b, s2, f, f + 1, f, Fail(f, "", now, now));
  }

  /** Its call is over, and so is the flush. */
  lemma OneReturns(c: Flush.Config, b: Rules.Config, s: State, f: nat, i: nat) returns (s': State)
    requires c.Valid() && b.Valid() && Stage(c, b, s, f, f + 1, f + 1) && s.breaker.breaker.phase == Rules.Closed
    requires s.errands[f] == Calling(i, true) && Callers.Lone(s.breaker, i)
    ensures Stage(c, b, s', f + 1, f + 1, f + 1) && s'.breaker == s.breaker.(calls := s'.breaker.calls)
    ensures Breaker.Count(s'.breaker.calls, Breaker.Unfinished, 0) == 0
    ensures Breaker.Count(s'.breaker.calls, Breaker.Pending, 0) == 0
  {
    hide Reachable, Flush.Safe, Callers.ReachableWithin, Breaker.Safe, Crews.Crew, Breaker.Count, Breaker.Apply;
    var d := Callers.OneReturn(b, c.maxConcurrent, s.breaker, i);
    var s1 := Goes(c, b, s, f, f + 1, f, Check(f));
    s' := Shrinks(c, b, s1, f, f + 1, f + 1);
  }

  /** Failing flushes one after the other open the breaker, the last of them not yet out of its call. */
  lemma {:induction false} Trip(c: Flush.Config, b: Rules.Config, s: State, f: nat) returns (s': State, f': nat, i: nat)
    requires c.Valid() && c.buffer.HasRoom() && b.enabled && b.Valid() && Stage(c, b, s, f, f, f)
    requires s.breaker.breaker.phase == Rules.Closed
    requires Breaker.Count(s.breaker.calls, Breaker.Unfinished, 0) == 0
    requires Breaker.Count(s.breaker.calls, Breaker.Pending, 0) == 0
    ensures Stage(c, b, s', f', f' + 1, f' + 1) && s'.errands[f'] == Calling(i, true) && Callers.Lone(s'.breaker, i)
    ensures s'.breaker.clock == s.breaker.clock && s'.breaker.breaker.phase == Rules.Open
    ensures s'.breaker.breaker.nextAttempt == Some(s.breaker.clock + b.CoolDown())
    decreases b.failureThreshold - s.breaker.breaker.failures
  {
    hide Reachable, Flush.Safe, Callers.ReachableWithin, Crews.Crew, Breaker.Count;
    hide Breaker.Ledger, Breaker.Budget, Breaker.Numbered;
    s', i := OneFails(c, b, s, f);
    f' := f;
    if s'.breaker.breaker.phase != Rules.Open {
      var s2 := OneReturns(c, b, s', f, i);
      s', f', i := Trip(c, b, s2, f + 1);
    }
  }

  /** From worker `w` on, everybody is let in as a probe. */
  lemma {:induction false} Fills(c: Flush.Config, b: Rules.Config, s: State, f: nat, n: nat, w: nat) returns (s': State)
    requires c.Valid() && b.enabled && b.Valid() && Stage(c, b, s, f, n, w) && f <= w <= n
    requires s.breaker.breaker.phase == Rules.HalfOpen
    requires n - w == b.halfOpenRequests - s.breaker.breaker.halfOpenInFlight
    requires Breaker.Count(s.breaker.calls, Breaker.Unfinished, 0) + n - w <= c.maxConcurrent
    ensures Stage(c, b, s', f, n, n) && s'.service == s.service && s'.errands[..w] == s.errands[..w]
    ensures s'.breaker.breaker == s.breaker.breaker.(halfOpenInFlight := b.halfOpenRequests)
    ensures s'.breaker.period == s.breaker.period
    ensures |s.breaker.calls| <= |s'.breaker.calls| && s'.breaker.calls[..|s.breaker.calls|] == s.breaker.calls
    ensures var unfinished := Breaker.Count(s.breaker.calls, Breaker.Unfinished, 0);
            Breaker.Count(s'.breaker.calls, Breaker.Unfinished, 0) == unfinished + n - w
    ensures var period := s.breaker.period;
            Breaker.Count(s'.breaker.calls, Breaker.LiveProbe, period) ==
            Breaker.Count(s.breaker.calls, Breaker.LiveProbe, period) + n - w
    decreases n - w
  {
    hide Reachable, Flush.Safe, Callers.ReachableWithin, Breaker.Safe, Crews.Crew, Breaker.Count, Breaker.Apply;
    if w == n {
      s' := s;
    } else {
      var d := Callers.ProbeWithin(b, c.maxConcurrent, s.breaker);
      var s1 := Enters(c, b, s, f, n, w, s.breaker.clock, d);
      s' := Fills(c, b, s1, f, n, w + 1);
      assert s'.errands[..w] == s'.errands[..w + 1][..w];
    }
  }

  /** The older call comes out, and takes a probe out of the count. */
  lemma Drains(c: Flush.Config, b: Rules.Config, s: State, f: nat, n: nat, i: nat) returns (s': State)
    requires c.Valid() && b.Valid() && Stage(c, b, s, f, n, n) && f < n && s.breaker.breaker.phase == Rules.HalfOpen
    requires s.errands[f] == Calling(i, true) && Breaker.At(s.breaker, i, Breaker.Recorded)
    requires s.breaker.breaker.halfOpenInFlight >= 1
    ensures Stage(c, b, s', f + 1, n, n) && s'.breaker.period == s.breaker.period
    ensures s'.breaker.breaker ==
            s.breaker.breaker.(halfOpenInFlight := s.breaker.breaker.halfOpenInFlight - 1)
    ensures Breaker.Count(s'.breaker.calls, Breaker.Unfinished, 0) ==
            Breaker.Count(s.breaker.calls, Breaker.Unfinished, 0) - 1
    ensures Breaker.Count(s'.breaker.calls, Breaker.LiveProbe, s.breaker.period) ==
            Breaker.Count(s.breaker.calls, Breaker.LiveProbe, s.breaker.period)
  {
    hide Reachable, Flush.Safe, Callers.ReachableWithin, Breaker.Safe, Crews.Crew, Breaker.Count;
    var d := Callers.DrainWithin(b, c.maxConcurrent, s.breaker, i);
    var s1 := Goes(c, b, s, f, n, f, Check(f));
    var s2 := Goes(c, b, s1, f, n, f, Decrement(f));
    s' := Shrinks(c, b, s2, f, n, n);
  }

  lemma NothingAtFirst(c: Flush.Config, b: Rules.Config, clock: real)
    requires c.Valid() && b.Valid()
    ensures Stage(c, b, Initial(clock), 0, 0, 0)
  {
    Crews.NoCrew(c);
    Callers.InitialIsReachable(b, c.maxConcurrent, clock);
    assert Legal(c, b, Initial(clock), []) && Run(c, b, Initial(clock), []) == Initial(clock);
  }

  /** Failing flushes open the breaker; while the last of them is on its way out, the cool-down ends and as
      many flushes as probes are allowed are let in; then it is out, and one more is let in. */
  lemma ServiceOverruns(c: Flush.Config, b: Rules.Config) returns (s: State)
    requires c.Valid() && c.buffer.HasRoom() && b.enabled && b.Valid() && c.maxConcurrent > b.halfOpenRequests
    ensures Reachable(c, b, s) && s.breaker.breaker.phase == Rules.HalfOpen
    ensures Breaker.Count(s.breaker.calls, Breaker.LiveProbe, s.breaker.period) > b.halfOpenRequests
  {
    hide Reachable, Flush.Safe, Callers.ReachableWithin, Breaker.Safe, Crews.Crew, Breaker.Count, Breaker.Apply;
    var coolDown := b.CoolDown();
    var clock := if coolDown >= 0.0 then 1.0 else 1.0 - coolDown;
    var now := if coolDown >= 0.0 then clock + coolDown else clock;
    NothingAtFirst(c, b, clock);
    Callers.NoCallsAtFirst(clock);
    var s1, f, i := Trip(c, b, Initial(clock), 0);
    var n := f + 1 + b.halfOpenRequests;
    var s2 := Grows(c, b, s1, f, f + 1, f + 1, n);
    Callers.WithinIsReachable(b, c.maxConcurrent, s2.breaker);
    var d := Callers.BeginWithin(b, c.maxConcurrent, s2.breaker, i, now);
    var s3 := Enters(c, b, s2, f, n, f + 1, now, d);
    var s4 := Fills(c, b, s3, f, n, f + 2);
    StillRecorded(s3.breaker, s4.breaker, i);
    assert s4.errands[f] == s4.errands[..f + 2][f] == s3.errands[f] == s2.errands[f] == s2.errands[..f + 1][f];
    var s5 := Drains(c, b, s4, f, n, i);
    var s6 := Grows(c, b, s5, f + 1, n, n, n + 1);
    var d7 := Callers.ProbeWithin(b, c.maxConcurrent, s6.breaker);
    s := Enters(c, b, s6, f + 1, n + 1, n, s6.breaker.clock, d7);
  }

  lemma StillRecorded(s: Breaker.State, s': Breaker.State, i: nat)
    requires Breaker.At(s, i, Breaker.Recorded) && |s.calls| <= |s'.calls| && s'.calls[..|s.calls|] == s.calls
    ensures Breaker.At(s', i, Breaker.Recorded)
  {
    assert s'.calls[..|s.calls|][i] == s'.calls[i];
  }

  // -------------------------------------------------------------------------------------------
  // Main result

  ghost predicate ProbeLimitHolds(c: Flush.Config, b: Rules.Config) {
    forall s :: Reachable(c, b, s) && s.breaker.breaker.phase == Rules.HalfOpen ==>
                  Breaker.Count(s.breaker.calls, Breaker.LiveProbe, s.breaker.period) <= b.halfOpenRequests
  }

  /** The probes running at once stay within `half_open_requests` in every run of the service exactly if the
      breaker is off, no more flushes are allowed at once than probes, or the buffer has no room. */
  lemma ServiceProbeLimitIff(c: Flush.Config, b: Rules.Config)
    requires c.Valid() && b.Valid()
    ensures ProbeLimitHolds(c, b) <==>
            !b.enabled || c.maxConcurrent <= b.halfOpenRequests || !c.buffer.HasRoom()
  {
    hide Reachable;
    if b.enabled && c.maxConcurrent > b.halfOpenRequests && c.buffer.HasRoom() {
      var s := ServiceOverruns(c, b);
    } else {
      forall s | Reachable(c, b, s) && s.breaker.breaker.phase == Rules.HalfOpen
        ensures Breaker.Count(s.breaker.calls, Breaker.LiveProbe, s.breaker.period) <= b.halfOpenRequests
      {
        ReachableIsSafe(c, b, s);
        if !b.enabled || c.maxConcurrent <= b.halfOpenRequests {
          Callers.ProbeLimitIffFewCallers(b, c.maxConcurrent);
        } else {
          NoRoomMeansNoCalls(c, b, s);
        }
      }
    }
  }

  lemma NoRoomMeansNoCalls(c: Flush.Config, b: Rules.Config, s: State)
    requires c.Valid() && !c.buffer.HasRoom() && Reachable(c, b, s)
    ensures Breaker.Count(s.breaker.calls, Breaker.LiveProbe, s.breaker.period) == 0
  {
    hide Apply, Enabled, Flush.Apply, Flush.Enabled;
    var clock: real, steps: seq<Step> :| Legal(c, b, Initial(clock), steps) && Run(c, b, Initial(clock), steps) == s;
    var serve := ServiceOf(c, b, Initial(clock), steps);
    assert Flush.Reachable(c, s.service);
    Deadlocks.ReachableIsHarmless(c, s.service);
    ReachableIsSafe(c, b, s);
    CoupledBound(c, s.service, s.breaker, s.errands);
    Breaker.CountLive(s.breaker.calls, s.breaker.period);
  }

  /** The service alone, in a run of both. */
  lemma {:induction false} ServiceOf(c: Flush.Config, b: Rules.Config, s: State, steps: seq<Step>)
    returns (serve: seq<Flush.Step>)
    requires Legal(c, b, s, steps)
    ensures Flush.Legal(c, s.service, serve)
    ensures Flush.Run(c, s.service, serve) == Run(c, b, s, steps).service
    decreases |steps|
  {
    hide Flush.Apply, Flush.Enabled, Breaker.Apply, Breaker.Enabled;
    if steps == [] {
      serve := [];
    } else {
      serve := ServiceOf(c, b, Apply(c, b, s, steps[0]), steps[1..]);
      if steps[0].Serve? {
        var rest := serve;
        serve := [steps[0].step] + rest;
        assert serve[1..] == rest;
      }
    }
  }
}
