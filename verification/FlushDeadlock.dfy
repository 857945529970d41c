/**
  Which calls of the running service end: exactly when a timer's flush can, exactly when it can lock
  up, and exactly which configurations are free of that.
 */
module FlushDeadlocks {
  import opened Prelude
  import opened LogEntries
  import opened MemoryAccounting
  import BufferPolicy
  import Pools = FlushPools
  import opened FlushPools
  import opened FlushInterleavings
  import opened FlushProgress
  import opened FlushTimers

  ghost predicate CanFinish(c: Config, s: State, i: nat) {
    exists steps: seq<Step> ::
      Legal(c, s, steps) && i < |Run(c, s, steps).callers| && Run(c, s, steps).callers[i].Finished()
  }

  // -------------------------------------------------------------------------------------------
  // When a timer's flush can end

  /** At its very start a timer's flush may still find the service destroyed. */
  lemma CalledCanFinish(c: Config, s: State, i: nat)
    requires i < |s.callers| && s.callers[i].pc == Called
    ensures CanFinish(c, s, i)
  {
    hide Pools.Enqueue, CloseStep, WakeStep, BufferPolicy.AfterAdd;
    if s.destroyed {
      RunOne(c, s, Act(i));
      assert Run(c, s, [Act(i)]).callers[i].Finished();
    } else {
      var j := |s.callers|;
      var s1 := BeginStep(s, Destroy);
      var s2 := Goto(s1, j, Marking);
      var s3 := Goto(s2, j, Sizing).(destroyed := true);
      hide Run, Legal;
      RunOne(c, s, Begin(Destroy));
      RunThen(c, s, [Begin(Destroy)], Act(j));
      RunThen(c, s, [Begin(Destroy)] + [Act(j)], Act(j));
      RunThen(c, s, [Begin(Destroy)] + [Act(j)] + [Act(j)], Act(i));
      assert Run(c, s, [Begin(Destroy)] + [Act(j)] + [Act(j)] + [Act(i)]).callers[i].Finished();
    }
  }

  /** In every reachable state in which a timer's flush holds the buffer's lock, it can still end exactly
      if metrics are off, it has not made its first test, or it is not jammed: its batch, if started, is
      with a worker that does not want the lock, and if not, some slot is not taken by such a worker. */
  lemma TimerFlushFinishesIff(c: Config, s: State, i: nat)
    requires c.Valid() && Reachable(c, s) && s.lockHolder == Some(i)
    ensures i < |s.callers|
    ensures CanFinish(c, s, i) <==>
            !c.metricsEnabled || s.callers[i].pc == Called || !Jammed(c.maxConcurrent, s.pool, s.callers[i].task)
  {
    ReachableIsOnCourse(c, s);
    hide Reachable, Sound, CallersInformed, Jammed;
    if !c.metricsEnabled {
      ReachableHasNoUpdates(c, s);
      var steps := CallCanFinish(c, s, i);
    } else if s.callers[i].pc == Called {
      CalledCanFinish(c, s, i);
    } else if !Jammed(c.maxConcurrent, s.pool, s.callers[i].task) {
      var steps := FreeFlushEnds(c, s, i);
    } else {
      forall steps: seq<Step> | Legal(c, s, steps)
        ensures i < |Run(c, s, steps).callers| && !Run(c, s, steps).callers[i].Finished()
      {
        StuckForever(c, s, steps, i);
      }
    }
  }

  // -------------------------------------------------------------------------------------------
  // When a timer's flush can lock up

  /** It has not found the service destroyed, and its batch's send has not failed. */
  predicate Undecided(s: State, caller: Caller) {
    && (caller.pc == Called ==> !s.destroyed)
    && (caller.task.Some? && caller.task.value < |s.pool.workers| ==>
          var pc := s.pool.workers[caller.task.value].pc; pc == Sending || pc == Updating)
  }

  /** What a worker that does not want the lock does next, its send going well if it is still sending. */
  function Hinder(w: nat, worker: Worker): Step {
    match worker.pc
    case Sending => Step.EndSend(w, None)
    case Signalling(_) => Step.Signal(w)
    case _ => Step.Release(w)
  }

  lemma HinderKeepsUndecided(c: Config, s: State, w: nat, caller: Caller)
    requires WorkerAt(s.pool, w) && Live(s.pool.workers[w]) && s.pool.workers[w].pc != Updating
    requires Undecided(s, caller) && c.metricsEnabled
    ensures Enabled(c, s, Hinder(w, s.pool.workers[w]))
    ensures Undecided(Apply(c, s, Hinder(w, s.pool.workers[w])), caller)
  {
    hide Pools.Release;
    if Hinder(w, s.pool.workers[w]).Release? {
      ReleaseLeavesWorkers(c.maxConcurrent, s.pool, w);
    }
  }

  /** A step towards a jam: on with the flush, a send that goes well, or a slot for the next batch. */
  lemma StepToJam(c: Config, s: State, i: nat) returns (step: Step)
    requires c.Valid() && Safe(c, s) && c.metricsEnabled && HolderOnCourse(c, s) && s.lockHolder == Some(i)
    requires Undecided(s, s.callers[i]) && !Stuck(c, s, i)
    ensures Enabled(c, s, step) && (step == Act(i) || IsWorkerStep(step))
    ensures step == Act(i) ==> !s.callers[i].pc.Waiting?
    ensures IsWorkerStep(step) ==> Undecided(Apply(c, s, step), s.callers[i])
  {
    hide Jammed, Apply, Sound, CallersInformed, LockKnown, OnlyFailures;
    CallerInformed(s.pool.tasks, s.callers, i);
    if !s.callers[i].pc.Waiting? {
      return Act(i);
    }
    var w := Helper(c, s, s.callers[i].task.value);
    step := Hinder(w, s.pool.workers[w]);
    HinderKeepsUndecided(c, s, w, s.callers[i]);
  }

  lemma OwnStepKeepsUndecided(c: Config, s: State, i: nat)
    requires c.Valid() && Safe(c, s) && c.metricsEnabled && HolderOnCourse(c, s) && s.lockHolder == Some(i)
    requires CanAct(s, i) && Undecided(s, s.callers[i]) && !s.callers[i].pc.Waiting?
    ensures var s' := ActStep(c, s, i);
            s'.lockHolder == Some(i) && i < |s'.callers| && Undecided(s', s'.callers[i])
  {
    hide CallersInformed, Pools.Enqueue, LiveCount;
    if s.callers[i].pc.Holding? {
      EnqueueStartsFresh(c.maxConcurrent, s.pool, i, s.callers[i].pc.batch);
    }
  }

  lemma {:induction false} UndecidedCanJam(c: Config, s: State, i: nat) returns (steps: seq<Step>)
    requires c.Valid() && Safe(c, s) && c.metricsEnabled && HolderOnCourse(c, s) && s.lockHolder == Some(i)
    requires Undecided(s, s.callers[i])
    ensures Legal(c, s, steps) && Stuck(c, Run(c, s, steps), i)
    decreases Potential(s)
  {
    hide Apply, Safe, Potential, OnCourse, ActStep, Stuck, Undecided;
    if Stuck(c, s, i) {
      return [];
    }
    var step := StepToJam(c, s, i);
    StepKeepsSafe(c, s, step);
    StepKeepsHolderOnCourse(c, s, step);
    MoveLowersPotential(c, s, step);
    if step == Act(i) {
      ApplyAct(c, s, i);
      OwnStepKeepsUndecided(c, s, i);
    } else {
      WorkersLeaveCallers(c, s, step);
    }
    var rest := UndecidedCanJam(c, Apply(c, s, step), i);
    steps := [step] + rest;
    assert steps[1..] == rest;
  }

  /** It has ended, or it is decided that it will. */
  ghost predicate Decided(s: State, i: nat) {
    i < |s.callers| && (s.callers[i].Finished() || (s.lockHolder == Some(i) && !Undecided(s, s.callers[i])))
  }

  lemma DecidedActs(c: Config, s: State, i: nat)
    requires c.Valid() && Safe(c, s) && c.metricsEnabled && HolderOnCourse(c, s) && Decided(s, i) && CanAct(s, i)
    ensures Decided(ActStep(c, s, i), i)
  {
    CallerInformed(s.pool.tasks, s.callers, i);
    hide CallersInformed, Pools.Enqueue, LiveCount;
    if s.callers[i].pc.Waiting? {
      var t := s.callers[i].task.value;
      assert Reports(s.pool.tasks[t], s.pool.workers[t]);
    }
  }

  lemma DecidedBesideCaller(c: Config, s: State, i: nat, j: nat)
    requires LockKnown(s.lockHolder, s.callers) && Decided(s, i) && CanAct(s, j) && i != j
    ensures Decided(ActStep(c, s, j), i)
  {
    hide Pools.Enqueue, Idle;
    if s.callers[j].pc.Holding? {
      EnqueueLeavesWorkers(c.maxConcurrent, s.pool, j, s.callers[j].pc.batch);
    }
    ApplyAct(c, s, j);
    OthersLeaveCaller(c, s, Act(j), i);
  }

  lemma DecidedBesideWorker(c: Config, s: State, step: Step, i: nat)
    requires c.Valid() && Safe(c, s) && Decided(s, i) && Enabled(c, s, step) && IsWorkerStep(step)
    ensures Decided(Apply(c, s, step), i)
  {
    hide Pools.Release, LiveCount, CallersInformed, LockKnown;
    if step.Release? {
      ReleaseLeavesWorkers(c.maxConcurrent, s.pool, step.w);
    }
  }

  lemma StepKeepsDecided(c: Config, s: State, step: Step, i: nat)
    requires c.Valid() && Safe(c, s) && c.metricsEnabled && HolderOnCourse(c, s)
    requires Decided(s, i) && Enabled(c, s, step)
    ensures Decided(Apply(c, s, step), i)
  {
    hide Sound, CallersInformed, HolderOnCourse, BufferPolicy.AfterAdd;
    hide ActStep, SendStep, Pools.EndUpdate, Pools.Signal, Pools.Release;
    match step {
      case Log(_, _) =>
      case Begin(_) =>
      case Act(j) =>
        if i == j {
          DecidedActs(c, s, i);
        } else {
          DecidedBesideCaller(c, s, i, j);
        }
      case _ => DecidedBesideWorker(c, s, step, i);
    }
  }

  lemma {:induction false} RunKeepsDecided(c: Config, s: State, steps: seq<Step>, i: nat)
    requires c.Valid() && Safe(c, s) && c.metricsEnabled && HolderOnCourse(c, s)
    requires Decided(s, i) && Legal(c, s, steps)
    ensures Decided(Run(c, s, steps), i)
    decreases |steps|
  {
    hide Apply, Enabled, Safe, HolderOnCourse, Decided;
    if steps == [] {
    } else {
      StepKeepsSafe(c, s, steps[0]);
      StepKeepsHolderOnCourse(c, s, steps[0]);
      StepKeepsDecided(c, s, steps[0], i);
      RunKeepsDecided(c, Apply(c, s, steps[0]), steps[1..], i);
    }
  }

  /** Some continuation ends in a state from which the call cannot end any more. */
  ghost predicate CanLockUp(c: Config, s: State, i: nat) {
    exists steps: seq<Step> :: Legal(c, s, steps) && !CanFinish(c, Run(c, s, steps), i)
  }

  /** In every reachable state in which a timer's flush holds the buffer's lock, some continuation locks
      it up for good exactly if metrics are on, it has not found the service destroyed, and its batch, if
      started, has not failed to be sent. */
  lemma TimerFlushLocksUpIff(c: Config, s: State, i: nat)
    requires c.Valid() && Reachable(c, s) && s.lockHolder == Some(i)
    ensures i < |s.callers|
    ensures CanLockUp(c, s, i) <==> c.metricsEnabled && Undecided(s, s.callers[i])
  {
    ReachableIsOnCourse(c, s);
    hide Safe, Undecided, HolderOnCourse, Reachable, CanFinish;
    if c.metricsEnabled && Undecided(s, s.callers[i]) {
      var steps := UndecidedCanJam(c, s, i);
      StuckCannotFinish(c, s, steps, i);
    } else {
      forall steps: seq<Step> | Legal(c, s, steps)
        ensures CanFinish(c, Run(c, s, steps), i)
      {
        ReachableRun(c, s, steps);
        DecidedCanFinish(c, s, steps, i);
      }
    }
  }

  lemma StuckCannotFinish(c: Config, s: State, steps: seq<Step>, i: nat)
    requires c.Valid() && Safe(c, s) && Legal(c, s, steps) && Stuck(c, Run(c, s, steps), i)
    ensures !CanFinish(c, Run(c, s, steps), i)
  {
    RunKeepsSafe(c, s, steps);
    var s' := Run(c, s, steps);
    forall more: seq<Step> | Legal(c, s', more)
      ensures i < |Run(c, s', more).callers| && !Run(c, s', more).callers[i].Finished()
    {
      StuckForever(c, s', more, i);
    }
  }

  lemma DecidedCanFinish(c: Config, s: State, steps: seq<Step>, i: nat)
    requires c.Valid() && Reachable(c, s) && s.lockHolder == Some(i) && i < |s.callers| && Legal(c, s, steps)
    requires !(c.metricsEnabled && Undecided(s, s.callers[i])) && Reachable(c, Run(c, s, steps))
    ensures CanFinish(c, Run(c, s, steps), i)
  {
    var s' := Run(c, s, steps);
    ReachableIsOnCourse(c, s);
    ReachableIsOnCourse(c, s');
    hide Reachable, Safe, OnCourse, Apply, Enabled;
    if c.metricsEnabled {
      RunKeepsDecided(c, s, steps, i);
      if s'.callers[i].Finished() {
        assert Run(c, s', []) == s';
      } else {
        TimerFlushFinishesIff(c, s', i);
      }
    } else {
      ReachableHasNoUpdates(c, s');
      CallersStay(c, s, steps);
      var more := CallCanFinish(c, s', i);
    }
  }

  lemma {:induction false} CallersStay(c: Config, s: State, steps: seq<Step>)
    requires Legal(c, s, steps)
    ensures |s.callers| <= |Run(c, s, steps).callers|
    decreases |steps|
  {
    hide Apply, Enabled;
    if steps == [] {
    } else {
      StepKeepsCallers(c, s, steps[0]);
      CallersStay(c, Apply(c, s, steps[0]), steps[1..]);
    }
  }

  lemma StepKeepsCallers(c: Config, s: State, step: Step)
    requires Enabled(c, s, step)
    ensures |s.callers| <= |Apply(c, s, step).callers|
  {
    hide Pools.Enqueue, BufferPolicy.AfterAdd, Idle, Pools.Release;
  }

  lemma ReachableRun(c: Config, s: State, steps: seq<Step>)
    requires Reachable(c, s) && Legal(c, s, steps)
    ensures Reachable(c, Run(c, s, steps))
  {
    hide Apply, Enabled;
    var first: seq<Step> :| Legal(c, INITIAL, first) && Run(c, INITIAL, first) == s;
    RunConcat(c, INITIAL, first, steps);
  }

  /** Every timer that fires on a buffer with entries, while the service is up, can lock up for good: with
      metrics on it takes no more than sends going well. */
  lemma FiringTimerCanLockUp(c: Config, s: State)
    requires c.Valid() && c.metricsEnabled && Reachable(c, s)
    requires Enabled(c, s, Begin(TimerFlush)) && !s.destroyed
    ensures CanLockUp(c, Apply(c, s, Begin(TimerFlush)), |s.callers|)
  {
    var s1 := Apply(c, s, Begin(TimerFlush));
    assert s1.lockHolder == Some(|s.callers|) && Undecided(s1, s1.callers[|s.callers|]);
    hide Apply, Enabled, Undecided, CanLockUp, Reachable;
    RunOne(c, s, Begin(TimerFlush));
    ReachableRun(c, s, [Begin(TimerFlush)]);
    TimerFlushLocksUpIff(c, s1, |s.callers|);
  }

  // -------------------------------------------------------------------------------------------
  // Configurations

  /** Timers fire on entries, and workers take the lock. */
  predicate Deadlocks(c: Config) {
    c.metricsEnabled && c.buffer.autoFlush && c.buffer.HasRoom()
  }

  predicate NoTimers(callers: seq<Caller>) {
    forall i :: 0 <= i < |callers| ==> callers[i].kind != TimerFlush
  }

  /** A service that never has an entry to send. */
  predicate Barren(s: State) {
    && s.buffer == [] && s.pool == EMPTY
    && forall i :: 0 <= i < |s.callers| ==> !s.callers[i].pc.Holding?
  }

  lemma StepKeepsBarren(c: Config, s: State, step: Step)
    requires !c.buffer.HasRoom() && Barren(s) && Enabled(c, s, step)
    ensures Barren(Apply(c, s, step))
  {
    hide BufferPolicy.AfterAdd, ActStep, Pools.EndSend, Pools.EndUpdate, Pools.Signal, Pools.Release, CanAct;
    match step {
      case Log(item, now) => BufferPolicy.NoRoomKeepsNothing(c.buffer, item, now);
      case Act(i) => BarrenActs(c, s, i);
      case _ =>
    }
  }

  lemma BarrenActs(c: Config, s: State, i: nat)
    requires Barren(s) && CanAct(s, i)
    ensures Barren(ActStep(c, s, i))
  {
    hide Pools.Enqueue, Idle;
  }

  lemma StepKeepsNoTimers(c: Config, s: State, step: Step)
    requires !c.buffer.autoFlush || s.buffer == []
    requires NoTimers(s.callers) && Enabled(c, s, step)
    ensures NoTimers(Apply(c, s, step).callers)
  {
    hide Pools.Enqueue, Pools.EndSend, Pools.EndUpdate, Pools.Signal, Pools.Release;
    hide BufferPolicy.AfterAdd, Idle, LockFree;
    if step.Act? {
      hide NoTimers;
      ActKeepsKinds(c, s, step.i);
    }
  }

  lemma ActKeepsKinds(c: Config, s: State, i: nat)
    requires CanAct(s, i) && NoTimers(s.callers)
    ensures NoTimers(ActStep(c, s, i).callers)
  {
    hide Pools.Enqueue, Idle;
    ActLowersCost(c, s, i);
    assert ActStep(c, s, i).callers[i].kind == s.callers[i].kind;
  }

  lemma {:induction false} RunKeepsHarmless(c: Config, s: State, steps: seq<Step>)
    requires !c.buffer.HasRoom() ==> Barren(s)
    requires !c.buffer.autoFlush || !c.buffer.HasRoom() ==> NoTimers(s.callers)
    requires Legal(c, s, steps)
    ensures !c.buffer.HasRoom() ==> Barren(Run(c, s, steps))
    ensures !c.buffer.autoFlush || !c.buffer.HasRoom() ==> NoTimers(Run(c, s, steps).callers)
    decreases |steps|
  {
    hide Apply, Enabled, NoTimers;
    if steps == [] {
    } else {
      if !c.buffer.HasRoom() {
        StepKeepsBarren(c, s, steps[0]);
      }
      if !c.buffer.autoFlush || !c.buffer.HasRoom() {
        StepKeepsNoTimers(c, s, steps[0]);
      }
      RunKeepsHarmless(c, Apply(c, s, steps[0]), steps[1..]);
    }
  }

  lemma ReachableIsHarmless(c: Config, s: State)
    requires c.Valid() && Reachable(c, s)
    ensures !c.buffer.HasRoom() ==> Barren(s)
    ensures !Deadlocks(c) ==> Unblocked(c, s)
  {
    ReachableIsSafe(c, s);
    hide Apply, Enabled;
    var steps: seq<Step> :| Legal(c, INITIAL, steps) && Run(c, INITIAL, steps) == s;
    RunKeepsHarmless(c, INITIAL, steps);
    if !c.metricsEnabled {
      ReachableHasNoUpdates(c, s);
    }
  }

  /** A small entry, one object for each number. */
  function SomeItem(ref: nat): Item {
    Item(ref, LogEntry("", "", "info", "", None, None, None, None, None, None), None)
  }

  /** It fits into an empty buffer that has room at all. */
  lemma SomeItemIsKept(c: BufferPolicy.Config, ref: nat)
    requires c.HasRoom()
    ensures BufferPolicy.AfterAdd(c, [], SomeItem(ref), 0.0) == [SomeItem(ref)]
  {
    var items := [SomeItem(ref)];
    assert [] + items == items && items[..0] == [];
    assert LastN(items, c.maxSize) == items;
    assert Bytes(items) == Size(SomeItem(ref).entry);
    BufferPolicy.AddKeepsNewestIff(c, [], SomeItem(ref), 0.0);
  }

  /** The first entry of a service whose buffer has room is buffered. */
  lemma FirstEntryIsBuffered(c: Config)
    requires c.buffer.HasRoom()
    ensures Enabled(c, INITIAL, Log(SomeItem(0), 0.0))
    ensures var s := Apply(c, INITIAL, Log(SomeItem(0), 0.0));
            s.buffer == [SomeItem(0)] && s.(buffer := [], books := INITIAL.books) == INITIAL && Reachable(c, s)
  {
    SomeItemIsKept(c.buffer, 0);
    RunOne(c, INITIAL, Log(SomeItem(0), 0.0));
  }

  ghost predicate EveryCallCanFinish(c: Config) {
    forall s, i | Reachable(c, s) && 0 <= i < |s.callers| :: CanFinish(c, s, i)
  }

  /** Whatever the order of steps: where no worker and no caller can move, every call has ended. */
  ghost predicate EveryScheduleEndsWell(c: Config) {
    forall s | Reachable(c, s) && Quiet(c, s) :: forall i :: 0 <= i < |s.callers| ==> s.callers[i].Finished()
  }

  /** With metrics, a timer and room for an entry, a fresh service gets into a state whose call never ends. */
  lemma SomeCallCannotFinish(c: Config) returns (s: State, i: nat)
    requires c.Valid() && Deadlocks(c)
    ensures Reachable(c, s) && i < |s.callers| && !CanFinish(c, s, i)
  {
    FirstEntryIsBuffered(c);
    var s1 := Apply(c, INITIAL, Log(SomeItem(0), 0.0));
    FiringTimerCanLockUp(c, s1);
    var s2 := Apply(c, s1, Begin(TimerFlush));
    hide Apply, Enabled, CanFinish;
    i := 0;
    var steps: seq<Step> :| Legal(c, s2, steps) && !CanFinish(c, Run(c, s2, steps), 0);
    s := Run(c, s2, steps);
    RunOne(c, s1, Begin(TimerFlush));
    ReachableRun(c, s1, [Begin(TimerFlush)]);
    ReachableRun(c, s2, steps);
    CallersStay(c, s2, steps);
  }

  /** In every reachable state every call can still end, exactly if metrics are off, the buffer has no
      timer, or it has no room for an entry. */
  lemma EveryCallCanFinishIff(c: Config)
    requires c.Valid()
    ensures EveryCallCanFinish(c) <==> !Deadlocks(c)
  {
    if Deadlocks(c) {
      var s, i := SomeCallCannotFinish(c);
    } else {
      forall s, i: nat | Reachable(c, s) && i < |s.callers|
        ensures CanFinish(c, s, i)
      {
        ReachableIsSafe(c, s);
        ReachableIsHarmless(c, s);
        var steps := CallCanFinish(c, s, i);
      }
    }
  }

  /** And under the same condition every order of steps brings all of them to their end. */
  lemma EveryScheduleEndsIff(c: Config)
    requires c.Valid()
    ensures EveryScheduleEndsWell(c) <==> !Deadlocks(c)
  {
    if Deadlocks(c) {
      var s, i := SomeCallCannotFinish(c);
      ReachableIsSafe(c, s);
      var steps := ComeToRest(c, s);
      ReachableRun(c, s, steps);
      CallersStay(c, s, steps);
      assert !Run(c, s, steps).callers[i].Finished();
    } else {
      forall s | Reachable(c, s) && Quiet(c, s)
        ensures forall i :: 0 <= i < |s.callers| ==> s.callers[i].Finished()
      {
        ReachableIsSafe(c, s);
        ReachableIsHarmless(c, s);
        QuietMeansFinished(c, s);
      }
    }
  }
}
