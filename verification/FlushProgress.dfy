/**
  Progress of the flush pipeline: the queue drains, and every call that the buffer's lock does not
  keep out ends, on any schedule.
 */
module FlushProgress {
  import opened Prelude
  import opened MemoryAccounting
  import BufferPolicy
  import opened FlushRules
  import Pools = FlushPools
  import opened FlushPools
  import opened FlushInterleavings

  // -------------------------------------------------------------------------------------------
  // The work left

  function Rank(w: Worker): nat {
    match w.pc
    case Sending => 4
    case Updating => 3
    case Signalling(_) => 2
    case Releasing(_) => 1
    case Exited(_) => 0
  }

  function Ranks(workers: seq<Worker>): nat {
    if workers == [] then 0 else Ranks(workers[..|workers| - 1]) + Rank(workers[|workers| - 1])
  }

  /** The worker steps still to come for the batches queued and in flight. */
  function Work(p: Pool): nat {
    5 * |p.lanes.queue| + Ranks(p.workers)
  }

  lemma {:induction false} RanksLaunch(workers: seq<Worker>, tasks: seq<nat>)
    ensures Ranks(workers + Launch(tasks)) == Ranks(workers) + 4 * |tasks|
  {
    if tasks == [] {
      assert workers + Launch(tasks) == workers;
    } else {
      var before := tasks[..|tasks| - 1];
      RanksLaunch(workers, before);
      assert (workers + Launch(tasks))[..|workers| + |before|] == workers + Launch(before);
    }
  }

  lemma {:induction false} RanksUpdate(workers: seq<Worker>, i: nat, w: Worker)
    requires i < |workers|
    ensures Ranks(workers[i := w]) + Rank(workers[i]) == Ranks(workers) + Rank(w)
  {
    var before := workers[..|workers| - 1];
    if i == |before| {
      assert workers[i := w][..|before|] == before;
    } else {
      RanksUpdate(before, i, w);
      assert workers[i := w][..|before|] == before[i := w];
    }
  }

  lemma LaunchLowersWork(p: Pool, lanes: Lanes, k: nat)
    requires k <= |p.lanes.queue| && lanes.queue == p.lanes.queue[k..]
    requires lanes.started == p.lanes.started + p.lanes.queue[..k]
    ensures Work(SetLanes(p, lanes)) == Work(p) - k
  {
    assert lanes.started[|p.lanes.started|..] == p.lanes.queue[..k];
    RanksLaunch(p.workers, p.lanes.queue[..k]);
  }

  predicate IsWorkerStep(step: Step) {
    step.EndSend? || step.EndUpdate? || step.Signal? || step.Release?
  }

  /** A step of a worker or of a caller: anything but a new entry or a new call. */
  predicate IsMove(step: Step) {
    !step.Log? && !step.Begin?
  }

  predicate IsEnqueue(s: State, step: Step) {
    step.Act? && step.i < |s.callers| && s.callers[step.i].pc.Holding?
  }

  lemma ReleaseLowersWork(max: nat, p: Pool, w: nat)
    requires max >= 1 && Sound(max, p) && WorkerAt(p, w) && p.workers[w].pc.Releasing?
    ensures Work(Pools.Release(max, p, w)) < Work(p)
  {
    hide Dispatch;
    ReleaseKeepsSafe(max, p, w);
    RanksUpdate(p.workers, w, Exit(p, w).workers[w]);
    var freed := p.lanes.(inFlight := p.lanes.inFlight - 1);
    DispatchStartsPrefix(max, freed);
    LaunchLowersWork(Exit(p, w), Dispatch(max, freed), Max(0, Min(max - freed.inFlight, |freed.queue|)));
    assert Pools.Release(max, p, w) == SetLanes(Exit(p, w), Dispatch(max, freed));
  }

  lemma EnqueueAddsWork(max: nat, p: Pool, owner: nat, batch: seq<Item>)
    ensures Work(Pools.Enqueue(max, p, owner, batch)) <= Work(p) + 5
  {
    hide Dispatch;
    var q := Append(p, owner, batch);
    DispatchStartsPrefix(max, q.lanes);
    LaunchLowersWork(q, Dispatch(max, q.lanes), Max(0, Min(max - q.lanes.inFlight, |q.lanes.queue|)));
  }

  lemma StepChangesWork(c: Config, s: State, step: Step)
    requires c.Valid() && Safe(c, s) && Enabled(c, s, step)
    ensures IsWorkerStep(step) ==> Work(Apply(c, s, step).pool) < Work(s.pool)
    ensures IsEnqueue(s, step) ==> Work(Apply(c, s, step).pool) <= Work(s.pool) + 5
    ensures !IsWorkerStep(step) && !IsEnqueue(s, step) ==> Work(Apply(c, s, step).pool) == Work(s.pool)
  {
    hide Sound, CallersInformed, LockKnown, Pools.Release, Pools.Enqueue, Idle, BufferPolicy.AfterAdd, Ranks;
    match step
    case Log(_, _) =>
    case Begin(_) =>
    case Act(i) =>
      if s.callers[i].pc.Holding? {
        EnqueueAddsWork(c.maxConcurrent, s.pool, i, s.callers[i].pc.batch);
      }
    case Release(w) => ReleaseLowersWork(c.maxConcurrent, s.pool, w);
    case _ => RanksUpdate(s.pool.workers, step.w, Apply(c, s, step).pool.workers[step.w]);
  }

  function WorkerSteps(steps: seq<Step>): nat {
    if steps == [] then 0 else (if IsWorkerStep(steps[0]) then 1 else 0) + WorkerSteps(steps[1..])
  }

  function Enqueues(c: Config, s: State, steps: seq<Step>): nat
    requires Legal(c, s, steps)
    decreases |steps|
  {
    if steps == [] then 0
    else (if IsEnqueue(s, steps[0]) then 1 else 0) + Enqueues(c, Apply(c, s, steps[0]), steps[1..])
  }

  /** No run has more worker steps than the work at its start and five for each batch it enqueues. */
  lemma {:induction false} WorkIsBounded(c: Config, s: State, steps: seq<Step>)
    requires c.Valid() && Safe(c, s) && Legal(c, s, steps)
    ensures Work(Run(c, s, steps).pool) + WorkerSteps(steps) <= Work(s.pool) + 5 * Enqueues(c, s, steps)
    decreases |steps|
  {
    hide Apply, Enabled, Safe, Work, IsWorkerStep;
    if steps == [] {
    } else {
      StepKeepsSafe(c, s, steps[0]);
      StepChangesWork(c, s, steps[0]);
      WorkIsBounded(c, Apply(c, s, steps[0]), steps[1..]);
    }
  }

  // -------------------------------------------------------------------------------------------
  // Draining

  /** No worker has come to its metrics. */
  predicate NoUpdates(workers: seq<Worker>) {
    forall w :: 0 <= w < |workers| ==> workers[w].pc != Updating && workers[w].updateError.None?
  }

  /** No worker is, or will be, kept from the buffer's lock. */
  predicate Unblocked(c: Config, s: State) {
    s.lockHolder == None || (!c.metricsEnabled && NoUpdates(s.pool.workers))
  }

  /** Work left means that some worker can move. */
  lemma SomeWorkerCanMove(c: Config, s: State) returns (step: Step)
    requires c.Valid() && Safe(c, s) && Unblocked(c, s) && !Idle(s.pool)
    ensures IsWorkerStep(step) && Enabled(c, s, step)
  {
    var w := LiveCountWitness(s.pool.workers);
    match s.pool.workers[w].pc {
      case Sending => step := Step.EndSend(w, None);
      case Updating => step := Step.EndUpdate(w, None);
      case Signalling(_) => step := Step.Signal(w);
      case Releasing(_) => step := Step.Release(w);
      case Exited(_) => assert false;
    }
  }

  lemma WorkersLeaveCallers(c: Config, s: State, step: Step)
    requires Enabled(c, s, step) && IsWorkerStep(step)
    ensures Apply(c, s, step).callers == s.callers && Apply(c, s, step).lockHolder == s.lockHolder
  {
    hide Pools.EndSend, Pools.EndUpdate, Pools.Signal, Pools.Release;
  }

  /** Without metrics no worker ever wants the buffer's lock. */
  lemma StepKeepsNoUpdates(c: Config, s: State, step: Step)
    requires !c.metricsEnabled && NoUpdates(s.pool.workers) && Enabled(c, s, step)
    ensures NoUpdates(Apply(c, s, step).pool.workers)
  {
    hide Dispatch, BufferPolicy.AfterAdd;
    match step
    case Release(w) =>
      DispatchStartsPrefix(c.maxConcurrent, s.pool.lanes.(inFlight := Max(0, s.pool.lanes.inFlight - 1)));
    case Act(i) =>
      if s.callers[i].pc.Holding? {
        DispatchStartsPrefix(c.maxConcurrent, s.pool.lanes.(queue := s.pool.lanes.queue + [|s.pool.tasks|]));
      }
    case _ =>
  }

  lemma {:induction false} RunKeepsNoUpdates(c: Config, s: State, steps: seq<Step>)
    requires !c.metricsEnabled && NoUpdates(s.pool.workers) && Legal(c, s, steps)
    ensures NoUpdates(Run(c, s, steps).pool.workers)
    decreases |steps|
  {
    hide Apply, Enabled, NoUpdates;
    if steps == [] {
    } else {
      StepKeepsNoUpdates(c, s, steps[0]);
      RunKeepsNoUpdates(c, Apply(c, s, steps[0]), steps[1..]);
    }
  }

  lemma ReachableHasNoUpdates(c: Config, s: State)
    requires Reachable(c, s) && !c.metricsEnabled
    ensures NoUpdates(s.pool.workers)
  {
    hide Apply, Enabled;
    var steps: seq<Step> :| Legal(c, INITIAL, steps) && Run(c, INITIAL, steps) == s;
    RunKeepsNoUpdates(c, INITIAL, steps);
  }

  /** Moves never take the lock for good. */
  lemma MoveKeepsUnblocked(c: Config, s: State, step: Step)
    requires Unblocked(c, s) && Enabled(c, s, step) && IsMove(step)
    ensures Unblocked(c, Apply(c, s, step))
  {
    if s.lockHolder.Some? {
      StepKeepsNoUpdates(c, s, step);
    } else {
      hide Pools.Enqueue, Pools.EndSend, Pools.EndUpdate, Pools.Signal, Pools.Release, NoUpdates, Idle;
    }
  }

  /** The workers alone empty the queue. */
  lemma {:induction false} Drain(c: Config, s: State) returns (steps: seq<Step>)
    requires c.Valid() && Safe(c, s) && Unblocked(c, s)
    ensures Legal(c, s, steps)
    ensures var s' := Run(c, s, steps);
            && Safe(c, s') && Unblocked(c, s') && Idle(s'.pool)
            && s'.callers == s.callers && s'.lockHolder == s.lockHolder
    decreases Work(s.pool)
  {
    hide Apply, Enabled, Safe, Work, Unblocked, Idle, IsWorkerStep;
    if Idle(s.pool) {
      return [];
    }
    var step := SomeWorkerCanMove(c, s);
    StepKeepsSafe(c, s, step);
    StepChangesWork(c, s, step);
    MoveKeepsUnblocked(c, s, step);
    WorkersLeaveCallers(c, s, step);
    var rest := Drain(c, Apply(c, s, step));
    steps := [step] + rest;
    assert steps[1..] == rest;
  }

  /** Once drained, every task is signalled, and a caller waiting for its batch or for the queue moves on. */
  lemma DrainedMeansSignalled(c: Config, s: State)
    requires c.Valid() && Safe(c, s) && Idle(s.pool)
    ensures forall t :: 0 <= t < |s.pool.tasks| ==> s.pool.tasks[t].signalled
    ensures forall i :: 0 <= i < |s.callers| && (s.callers[i].pc.Waiting? || s.callers[i].pc.Idling?) ==> CanAct(s, i)
  {
    LiveCountZero(s.pool.workers);
    forall t | 0 <= t < |s.pool.tasks|
      ensures s.pool.tasks[t].signalled
    {
      assert Reports(s.pool.tasks[t], s.pool.workers[t]);
    }
    forall i | 0 <= i < |s.callers| && s.callers[i].pc.Waiting?
      ensures CanAct(s, i)
    {
      CallerInformed(s.pool.tasks, s.callers, i);
    }
  }

  lemma ApplyAct(c: Config, s: State, i: nat)
    requires CanAct(s, i)
    ensures Enabled(c, s, Act(i)) && Apply(c, s, Act(i)) == ActStep(c, s, i)
  {
  }

  // -------------------------------------------------------------------------------------------
  // The idle moment

  /** A caller that has caught its batch's error cannot return normally any more. */
  predicate Doomed(caller: Caller) {
    (caller.pc.Closing? && caller.pc.error.Some?) || caller.pc.Raised?
  }

  /** A step of anyone else leaves a caller where it was. */
  lemma OthersLeaveCaller(c: Config, s: State, step: Step, i: nat)
    requires Enabled(c, s, step) && step != Act(i) && i < |s.callers|
    ensures i < |Apply(c, s, step).callers| && Apply(c, s, step).callers[i] == s.callers[i]
  {
    hide Pools.Enqueue, Pools.EndSend, Pools.EndUpdate, Pools.Signal, Pools.Release, BufferPolicy.AfterAdd, Idle;
  }

  lemma {:induction false} DoomedStaysDoomed(c: Config, s: State, steps: seq<Step>, i: nat)
    requires Legal(c, s, steps) && i < |s.callers| && Doomed(s.callers[i])
    ensures i < |Run(c, s, steps).callers| && Doomed(Run(c, s, steps).callers[i])
    decreases |steps|
  {
    hide Apply;
    if steps == [] {
    } else {
      if steps[0] == Act(i) {
        ApplyAct(c, s, i);
      } else {
        OthersLeaveCaller(c, s, steps[0], i);
      }
      DoomedStaysDoomed(c, Apply(c, s, steps[0]), steps[1..], i);
    }
  }

  predicate Unsettled(pc: CallerPc) {
    pc.Holding? || pc.Waiting? || pc.Idling?
  }

  lemma UnsettledMoves(c: Config, s: State, i: nat)
    requires CanAct(s, i) && Unsettled(s.callers[i].pc)
    ensures i < |ActStep(c, s, i).callers|
    ensures var pc := ActStep(c, s, i).callers[i].pc;
            Unsettled(pc) || Doomed(ActStep(c, s, i).callers[i]) || (s.callers[i].pc.Idling? && Idle(s.pool))
  {
    hide Pools.Enqueue;
  }

  /** A `flush` that enqueued and returned normally has seen, after its enqueue, a moment with an
      empty queue and nothing in flight. */
  lemma {:induction false} ReturnSawIdle(c: Config, s: State, steps: seq<Step>, i: nat) returns (k: nat)
    requires Legal(c, s, steps) && i < |s.callers| && Unsettled(s.callers[i].pc)
    requires i < |Run(c, s, steps).callers| && Run(c, s, steps).callers[i].pc.Returned?
    ensures k <= |steps| && Legal(c, s, steps[..k]) && Idle(Run(c, s, steps[..k]).pool)
    decreases |steps|
  {
    hide Apply, Idle;
    var step := steps[0];
    var s1 := Apply(c, s, step);
    if step == Act(i) {
      ApplyAct(c, s, i);
      UnsettledMoves(c, s, i);
      if s.callers[i].pc.Idling? && Idle(s.pool) {
        return 0;
      }
      if Doomed(s1.callers[i]) {
        DoomedStaysDoomed(c, s1, steps[1..], i);
      }
    } else {
      OthersLeaveCaller(c, s, step, i);
    }
    var k1 := ReturnSawIdle(c, s1, steps[1..], i);
    k := k1 + 1;
    assert steps[..k][1..] == steps[1..][..k1];
  }

  // -------------------------------------------------------------------------------------------
  // Any schedule ends

  /** The steps a call may still cause: its own, and those of the workers for its batch. */
  function Cost(pc: CallerPc): nat {
    match pc
    case Called => 13
    case Marking => 12
    case Sizing => 11
    case Taking => 10
    case Holding(_) => 9
    case Waiting => 3
    case Idling => 2
    case Closing(_) => 1
    case Returned => 0
    case Raised(_) => 0
  }

  function Costs(callers: seq<Caller>): nat {
    if callers == [] then 0 else Costs(callers[..|callers| - 1]) + Cost(callers[|callers| - 1].pc)
  }

  function Potential(s: State): nat {
    Work(s.pool) + Costs(s.callers)
  }

  lemma {:induction false} CostsUpdate(callers: seq<Caller>, i: nat, caller: Caller)
    requires i < |callers|
    ensures Costs(callers[i := caller]) + Cost(callers[i].pc) == Costs(callers) + Cost(caller.pc)
  {
    var before := callers[..|callers| - 1];
    if i == |before| {
      assert callers[i := caller][..|before|] == before;
    } else {
      CostsUpdate(before, i, caller);
      assert callers[i := caller][..|before|] == before[i := caller];
    }
  }

  /** A caller's step concerns no other caller, and leads on. */
  lemma ActLowersCost(c: Config, s: State, i: nat)
    requires CanAct(s, i)
    ensures var s' := ActStep(c, s, i);
            && i < |s'.callers| && s'.callers == s.callers[i := s'.callers[i]]
            && Cost(s'.callers[i].pc) < Cost(s.callers[i].pc)
            && (s.callers[i].pc.Holding? ==> Cost(s'.callers[i].pc) + 6 <= Cost(s.callers[i].pc))
  {
    hide Pools.Enqueue, Idle;
    match s.callers[i].pc {
      case Waiting => assert ActStep(c, s, i) == WakeStep(s, i);
      case Closing(error) => assert ActStep(c, s, i) == CloseStep(s, i, error);
      case _ =>
    }
  }

  lemma MoveLowersPotential(c: Config, s: State, step: Step)
    requires c.Valid() && Safe(c, s) && Enabled(c, s, step) && IsMove(step)
    ensures Potential(Apply(c, s, step)) < Potential(s)
    ensures |Apply(c, s, step).callers| == |s.callers|
  {
    StepChangesWork(c, s, step);
    if step.Act? {
      hide Work, Safe, Cost;
      ApplyAct(c, s, step.i);
      ActLowersCost(c, s, step.i);
      CostsUpdate(s.callers, step.i, ActStep(c, s, step.i).callers[step.i]);
    } else {
      WorkersLeaveCallers(c, s, step);
    }
  }

  predicate AllMoves(steps: seq<Step>) {
    forall k :: 0 <= k < |steps| ==> IsMove(steps[k])
  }

  /** As long as no entry and no call comes in, there are only so many steps to take, in any order. */
  lemma {:induction false} MovesAreBounded(c: Config, s: State, steps: seq<Step>)
    requires c.Valid() && Safe(c, s) && Legal(c, s, steps) && AllMoves(steps)
    ensures |steps| + Potential(Run(c, s, steps)) <= Potential(s)
    ensures Safe(c, Run(c, s, steps)) && |s.callers| == |Run(c, s, steps).callers|
    ensures Unblocked(c, s) ==> Unblocked(c, Run(c, s, steps))
    decreases |steps|
  {
    hide Apply, Enabled, Safe, Potential, IsMove, Unblocked;
    if steps == [] {
    } else {
      assert IsMove(steps[0]) && AllMoves(steps[1..]);
      StepKeepsSafe(c, s, steps[0]);
      MoveLowersPotential(c, s, steps[0]);
      if Unblocked(c, s) {
        MoveKeepsUnblocked(c, s, steps[0]);
      }
      MovesAreBounded(c, Apply(c, s, steps[0]), steps[1..]);
    }
  }

  /** Neither a worker nor a caller can move. */
  ghost predicate Quiet(c: Config, s: State) {
    forall step :: Enabled(c, s, step) ==> !IsMove(step)
  }

  /** Where every step has been taken and no worker was kept from the buffer's lock, every call has ended
      and the queue is idle. */
  lemma QuietMeansFinished(c: Config, s: State)
    requires c.Valid() && Safe(c, s) && Unblocked(c, s) && Quiet(c, s)
    ensures Idle(s.pool) && s.lockHolder == None
    ensures forall i :: 0 <= i < |s.callers| ==> s.callers[i].Finished()
  {
    hide Safe, Unblocked, CanAct;
    if !Idle(s.pool) {
      var step := SomeWorkerCanMove(c, s);
    }
    DrainedMeansSignalled(c, s);
    forall i | 0 <= i < |s.callers|
      ensures !CanAct(s, i)
    {
      assert Enabled(c, s, Act(i)) <==> CanAct(s, i);
    }
    HolderFinishes(c, s);
    forall i | 0 <= i < |s.callers|
      ensures s.callers[i].Finished()
    {
      FreeCallerFinishes(s, i);
    }
  }

  lemma FreeCallerFinishes(s: State, i: nat)
    requires i < |s.callers| && !CanAct(s, i) && LockFree(s, i)
    requires s.callers[i].pc.Waiting? || s.callers[i].pc.Idling? ==> CanAct(s, i)
    ensures s.callers[i].Finished()
  {
  }

  lemma HolderFinishes(c: Config, s: State)
    requires Safe(c, s) && forall i :: 0 <= i < |s.callers| ==> !CanAct(s, i)
    requires forall i :: 0 <= i < |s.callers| && (s.callers[i].pc.Waiting? || s.callers[i].pc.Idling?) ==> CanAct(s, i)
    ensures s.lockHolder == None
  {
    if s.lockHolder.Some? {
      hide CanAct, Sound, CallersInformed;
      FreeCallerFinishes(s, s.lockHolder.value);
    }
  }

  /** From any state, some run of moves comes to rest. */
  lemma {:induction false} ComeToRest(c: Config, s: State) returns (steps: seq<Step>)
    requires c.Valid() && Safe(c, s)
    ensures Legal(c, s, steps) && AllMoves(steps) && Quiet(c, Run(c, s, steps))
    decreases Potential(s)
  {
    hide Apply, Enabled, Safe, Potential, IsMove;
    if Quiet(c, s) {
      return [];
    }
    var step :| Enabled(c, s, step) && IsMove(step);
    StepKeepsSafe(c, s, step);
    MoveLowersPotential(c, s, step);
    var rest := ComeToRest(c, Apply(c, s, step));
    steps := [step] + rest;
    assert steps[1..] == rest;
  }

  /** Whatever the order of the steps, once no more entries and calls come in, and no worker is kept from
      the lock, everything comes to rest within the potential, with every call ended and the queue idle. */
  lemma EveryScheduleEnds(c: Config, s: State, steps: seq<Step>)
    requires c.Valid() && Safe(c, s) && Unblocked(c, s) && Legal(c, s, steps) && AllMoves(steps)
    ensures |steps| <= Potential(s)
    ensures var s' := Run(c, s, steps);
            Quiet(c, s') ==> Idle(s'.pool) && forall i :: 0 <= i < |s'.callers| ==> s'.callers[i].Finished()
  {
    hide Safe, Unblocked, Quiet, Idle, Potential;
    MovesAreBounded(c, s, steps);
    if Quiet(c, Run(c, s, steps)) {
      QuietMeansFinished(c, Run(c, s, steps));
    }
  }

  /** In particular every call can still end. */
  lemma CallCanFinish(c: Config, s: State, i: nat) returns (steps: seq<Step>)
    requires c.Valid() && Safe(c, s) && Unblocked(c, s) && i < |s.callers|
    ensures Legal(c, s, steps)
    ensures i < |Run(c, s, steps).callers| && Run(c, s, steps).callers[i].Finished()
  {
    hide Safe, Unblocked, Quiet, Idle, Potential;
    steps := ComeToRest(c, s);
    MovesAreBounded(c, s, steps);
    EveryScheduleEnds(c, s, steps);
  }
}
