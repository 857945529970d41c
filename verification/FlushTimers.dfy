/**
  The buffer's timer calls `flush` while it holds the buffer's lock, and a worker takes that lock
  before it tells its caller that a batch was sent. When such a flush can end, and for which
  configurations every call ends.
 */
module FlushTimers {
  import opened Prelude
  import opened MemoryAccounting
  import BufferPolicy
  import opened FlushRules
  import Pools = FlushPools
  import opened FlushPools
  import opened FlushInterleavings
  import opened FlushProgress

  // -------------------------------------------------------------------------------------------
  // Workers that want the buffer's lock

  function UpdatingCount(workers: seq<Worker>): nat {
    if workers == [] then 0
    else UpdatingCount(workers[..|workers| - 1]) + if workers[|workers| - 1].pc == Updating then 1 else 0
  }

  lemma {:induction false} UpdatingLaunch(workers: seq<Worker>, tasks: seq<nat>)
    ensures UpdatingCount(workers + Launch(tasks)) == UpdatingCount(workers)
  {
    if tasks == [] {
      assert workers + Launch(tasks) == workers;
    } else {
      var before := tasks[..|tasks| - 1];
      UpdatingLaunch(workers, before);
      assert (workers + Launch(tasks))[..|workers| + |before|] == workers + Launch(before);
    }
  }

  lemma {:induction false} UpdatingUpdate(workers: seq<Worker>, i: nat, w: Worker)
    requires i < |workers|
    ensures UpdatingCount(workers[i := w]) + (if workers[i].pc == Updating then 1 else 0) ==
            UpdatingCount(workers) + if w.pc == Updating then 1 else 0
  {
    var before := workers[..|workers| - 1];
    if i == |before| {
      assert workers[i := w][..|before|] == before;
    } else {
      UpdatingUpdate(before, i, w);
      assert workers[i := w][..|before|] == before[i := w];
    }
  }

  /** A worker that wants the lock is live, and unless all live ones want it there is another. */
  lemma {:induction false} UpdatingBound(workers: seq<Worker>)
    ensures UpdatingCount(workers) <= LiveCount(workers)
    ensures UpdatingCount(workers) == LiveCount(workers) <==>
            forall w :: 0 <= w < |workers| && Live(workers[w]) ==> workers[w].pc == Updating
  {
    if workers == [] {
    } else {
      var n := |workers| - 1;
      UpdatingBound(workers[..n]);
      assert forall w :: 0 <= w < n ==> workers[..n][w] == workers[w];
      assert Live(workers[n]) || !Live(workers[n]);
    }
  }

  // -------------------------------------------------------------------------------------------
  // Jammed pools

  /** What stands between a flush and the end of its batch waits for the buffer's lock: the worker that
      has the batch, or, while no worker has it, every slot. */
  predicate Jammed(max: nat, p: Pool, task: Option<nat>) {
    if task.Some? && task.value < |p.workers| then p.workers[task.value].pc == Updating
    else UpdatingCount(p.workers) >= max
  }

  lemma JamKeepsQueueShut(max: nat, p: Pool, owner: nat, batch: seq<Item>)
    requires max >= 1 && Sound(max, p) && UpdatingCount(p.workers) >= max
    ensures Pools.Enqueue(max, p, owner, batch).workers == p.workers
  {
    hide Dispatch, LiveCount, UpdatingCount;
    UpdatingBound(p.workers);
    var q := Append(p, owner, batch);
    DispatchStartsPrefix(max, q.lanes);
    assert Dispatch(max, q.lanes).started == p.lanes.started;
    assert Launch([]) == [];
  }

  /** Enqueuing starts nobody who wants the lock. */
  lemma EnqueueLeavesWorkers(max: nat, p: Pool, owner: nat, batch: seq<Item>)
    ensures var p' := Pools.Enqueue(max, p, owner, batch);
            && UpdatingCount(p'.workers) == UpdatingCount(p.workers)
            && |p.workers| <= |p'.workers| && p'.workers[..|p.workers|] == p.workers
            && forall w :: |p.workers| <= w < |p'.workers| ==> Fresh(p'.workers[w])
  {
    hide Dispatch, UpdatingCount;
    var lanes := p.lanes.(queue := p.lanes.queue + [|p.tasks|]);
    DispatchStartsPrefix(max, lanes);
    UpdatingLaunch(p.workers, Dispatch(max, lanes).started[|p.lanes.started|..]);
  }

  predicate Fresh(w: Worker) {
    w.pc == Sending && w.sendError.None? && w.updateError.None?
  }

  lemma ReleaseLeavesWorkers(max: nat, p: Pool, w: nat)
    requires WorkerAt(p, w) && p.workers[w].pc.Releasing?
    ensures var p' := Pools.Release(max, p, w);
            && UpdatingCount(p'.workers) == UpdatingCount(p.workers)
            && |p.workers| <= |p'.workers|
            && (forall v :: 0 <= v < |p.workers| && v != w ==> p'.workers[v] == p.workers[v])
            && p'.workers[w] == p.workers[w].(pc := Exited(p.workers[w].pc.error))
            && forall v :: |p.workers| <= v < |p'.workers| ==> Fresh(p'.workers[v])
  {
    hide Dispatch, UpdatingCount;
    var lanes := p.lanes.(inFlight := Max(0, p.lanes.inFlight - 1));
    DispatchStartsPrefix(max, lanes);
    var q := Exit(p, w);
    UpdatingUpdate(p.workers, w, q.workers[w]);
    UpdatingLaunch(q.workers, Dispatch(max, lanes).started[|p.lanes.started|..]);
  }

  // -------------------------------------------------------------------------------------------
  // A jam lasts

  /** The timer's flush `i` is past its first test, holds the lock, and is jammed. */
  ghost predicate Stuck(c: Config, s: State, i: nat) {
    && i < |s.callers| && s.lockHolder == Some(i)
    && (s.callers[i].pc.Sizing? || s.callers[i].pc.Taking? || s.callers[i].pc.Holding?
        || s.callers[i].pc.Waiting? || s.callers[i].pc.Idling?)
    && Jammed(c.maxConcurrent, s.pool, s.callers[i].task)
  }

  lemma StuckPersists(c: Config, s: State, step: Step, i: nat)
    requires c.Valid() && Safe(c, s) && Stuck(c, s, i) && Enabled(c, s, step)
    ensures Stuck(c, Apply(c, s, step), i)
  {
    match step {
      case Log(_, _) =>
      case Begin(_) => hide Sound, Jammed, CallersInformed;
      case Act(j) =>
        if j == i {
          StuckActs(c, s, i);
        } else {
          OtherActs(c, s, i, j);
        }
      case EndSend(w, error) => StuckBesideWorker(c, s, step, i, w);
      case EndUpdate(_, _) =>
      case Signal(w) => StuckBesideWorker(c, s, step, i, w);
      case Release(w) => StuckBesideWorker(c, s, step, i, w);
    }
  }

  /** What the stuck flush does itself leads at most into the wait that does not end. */
  lemma StuckActs(c: Config, s: State, i: nat)
    requires c.Valid() && Safe(c, s) && Stuck(c, s, i) && CanAct(s, i)
    ensures Stuck(c, ActStep(c, s, i), i)
  {
    CallerInformed(s.pool.tasks, s.callers, i);
    hide CallersInformed, Pools.Enqueue, UpdatingCount, LiveCount;
    UpdatingBound(s.pool.workers);
    match s.callers[i].pc {
      case Holding(batch) =>
        JamKeepsQueueShut(c.maxConcurrent, s.pool, i, batch);
      case _ =>
    }
  }

  lemma OtherActs(c: Config, s: State, i: nat, j: nat)
    requires c.Valid() && Safe(c, s) && Stuck(c, s, i) && CanAct(s, j) && i != j
    ensures Stuck(c, ActStep(c, s, j), i)
  {
    OthersLeaveCaller(c, s, Act(j), i);
    ApplyAct(c, s, j);
    hide CallersInformed, Pools.Enqueue, UpdatingCount, Apply, Sound;
    if s.callers[j].pc.Holding? {
      var batch := s.callers[j].pc.batch;
      EnqueueLeavesWorkers(c.maxConcurrent, s.pool, j, batch);
      if UpdatingCount(s.pool.workers) >= c.maxConcurrent {
        JamKeepsQueueShut(c.maxConcurrent, s.pool, j, batch);
      }
    }
  }

  lemma StuckBesideWorker(c: Config, s: State, step: Step, i: nat, w: nat)
    requires c.Valid() && Safe(c, s) && Stuck(c, s, i) && Enabled(c, s, step)
    requires step == Step.Signal(w) || step == Step.Release(w) || (step.EndSend? && step.w == w)
    ensures Stuck(c, Apply(c, s, step), i)
  {
    hide CallersInformed, LockKnown, UpdatingCount, LiveCount, Pools.Release;
    UpdatingBound(s.pool.workers);
    match step {
      case EndSend(_, error) => UpdatingUpdate(s.pool.workers, w, Apply(c, s, step).pool.workers[w]);
      case Signal(_) => UpdatingUpdate(s.pool.workers, w, Apply(c, s, step).pool.workers[w]);
      case Release(_) => ReleaseLeavesWorkers(c.maxConcurrent, s.pool, w);
    }
  }

  /** Nothing anyone does ends it, and no producer gets another entry in. */
  lemma {:induction false} StuckForever(c: Config, s: State, steps: seq<Step>, i: nat)
    requires c.Valid() && Safe(c, s) && Stuck(c, s, i) && Legal(c, s, steps)
    ensures Stuck(c, Run(c, s, steps), i)
    ensures forall item, now :: !Enabled(c, Run(c, s, steps), Log(item, now))
    decreases |steps|
  {
    if steps == [] {
    } else {
      hide Apply, Safe, Stuck;
      StuckPersists(c, s, steps[0], i);
      StepKeepsSafe(c, s, steps[0]);
      StuckForever(c, Apply(c, s, steps[0]), steps[1..], i);
    }
  }

  // -------------------------------------------------------------------------------------------
  // The course of a timer's flush

  /** While the lock is held no worker gets past its update, so only a failed send is ever reported. */
  predicate OnlyFailures(w: Worker) {
    w.updateError.None? && (w.pc == Sending || w.pc == Updating || w.sendError.Some?)
  }

  predicate OnCourse(p: Pool, buffer: seq<Item>, caller: Caller) {
    match caller.pc
    case Called => buffer != [] && caller.task.None?
    case Sizing => buffer != [] && caller.task.None?
    case Taking => buffer != [] && caller.task.None?
    case Holding(_) => caller.task.None?
    case Waiting =>
      caller.task.Some? && (caller.task.value < |p.workers| ==> OnlyFailures(p.workers[caller.task.value]))
    case _ => false
  }

  predicate HolderOnCourse(c: Config, s: State) {
    c.metricsEnabled && s.lockHolder.Some? ==>
      s.lockHolder.value < |s.callers| && OnCourse(s.pool, s.buffer, s.callers[s.lockHolder.value])
  }

  lemma HolderActs(c: Config, s: State, i: nat)
    requires c.Valid() && Safe(c, s) && c.metricsEnabled && HolderOnCourse(c, s)
    requires s.lockHolder == Some(i) && CanAct(s, i)
    ensures HolderOnCourse(c, ActStep(c, s, i))
  {
    CallerInformed(s.pool.tasks, s.callers, i);
    hide CallersInformed, Pools.Enqueue, LiveCount;
    match s.callers[i].pc {
      case Holding(batch) => EnqueueStartsFresh(c.maxConcurrent, s.pool, i, batch);
      case Waiting =>
        var t := s.callers[i].task.value;
        assert Reports(s.pool.tasks[t], s.pool.workers[t]);
      case _ =>
    }
  }

  lemma EnqueueStartsFresh(max: nat, p: Pool, owner: nat, batch: seq<Item>)
    requires Sound(max, p)
    ensures var p' := Pools.Enqueue(max, p, owner, batch);
            |p.tasks| < |p'.workers| ==> Fresh(p'.workers[|p.tasks|])
  {
    hide Pools.Enqueue, LiveCount;
    EnqueueLeavesWorkers(max, p, owner, batch);
  }

  lemma HolderBesideCaller(c: Config, s: State, j: nat)
    requires c.Valid() && Safe(c, s) && HolderOnCourse(c, s) && CanAct(s, j) && s.lockHolder != Some(j)
    ensures HolderOnCourse(c, ActStep(c, s, j))
  {
    hide CallersInformed, LockKnown, Pools.Enqueue, Sound, Idle;
    if s.callers[j].pc.Holding? {
      EnqueueLeavesWorkers(c.maxConcurrent, s.pool, j, s.callers[j].pc.batch);
    }
  }

  lemma HolderBesideWorker(c: Config, s: State, step: Step)
    requires c.Valid() && Safe(c, s) && HolderOnCourse(c, s) && Enabled(c, s, step) && IsWorkerStep(step)
    ensures HolderOnCourse(c, Apply(c, s, step))
  {
    hide CallersInformed, LockKnown, LiveCount, Pools.Release;
    if step.Release? {
      ReleaseLeavesWorkers(c.maxConcurrent, s.pool, step.w);
    }
  }

  lemma StepKeepsHolderOnCourse(c: Config, s: State, step: Step)
    requires c.Valid() && Safe(c, s) && HolderOnCourse(c, s) && Enabled(c, s, step)
    ensures HolderOnCourse(c, Apply(c, s, step))
  {
    match step {
      case Log(_, _) => hide BufferPolicy.AfterAdd;
      case Begin(_) =>
        hide OnCourse, Sound, CallersInformed;
        assert OnCourse(s.pool, s.buffer, Caller(TimerFlush, Called, None)) <==> s.buffer != [];
      case Act(j) =>
        if s.lockHolder == Some(j) {
          if c.metricsEnabled {
            HolderActs(c, s, j);
          }
        } else {
          HolderBesideCaller(c, s, j);
        }
      case _ => HolderBesideWorker(c, s, step);
    }
  }

  lemma {:induction false} RunKeepsHolderOnCourse(c: Config, s: State, steps: seq<Step>)
    requires c.Valid() && Safe(c, s) && HolderOnCourse(c, s) && Legal(c, s, steps)
    ensures HolderOnCourse(c, Run(c, s, steps))
    decreases |steps|
  {
    hide Apply, Enabled, Safe, HolderOnCourse;
    if steps == [] {
    } else {
      StepKeepsSafe(c, s, steps[0]);
      StepKeepsHolderOnCourse(c, s, steps[0]);
      RunKeepsHolderOnCourse(c, Apply(c, s, steps[0]), steps[1..]);
    }
  }

  lemma ReachableIsOnCourse(c: Config, s: State)
    requires c.Valid() && Reachable(c, s)
    ensures Safe(c, s) && HolderOnCourse(c, s)
  {
    hide Apply, Enabled;
    ReachableIsSafe(c, s);
    var steps: seq<Step> :| Legal(c, INITIAL, steps) && Run(c, INITIAL, steps) == s;
    RunKeepsHolderOnCourse(c, INITIAL, steps);
  }

  // -------------------------------------------------------------------------------------------
  // A flush that is not jammed can end

  /** A worker that stands between the flush and its end and does not want the lock: the one with the
      batch, unless that has reported already, or one whose slot the batch may get. */
  lemma Helper(c: Config, s: State, task: nat) returns (w: nat)
    requires Sound(c.maxConcurrent, s.pool) && task < |s.pool.tasks|
    requires !Jammed(c.maxConcurrent, s.pool, Some(task))
    ensures WorkerAt(s.pool, w) && s.pool.workers[w].task == w && s.pool.workers[w].pc != Updating
    ensures task < |s.pool.workers| ==> w == task
    ensures task >= |s.pool.workers| ==> Live(s.pool.workers[w])
  {
    hide LiveCount, UpdatingCount, Reports;
    w := task;
    if task >= |s.pool.workers| {
      UpdatingBound(s.pool.workers);
      w :| 0 <= w < |s.pool.workers| && Live(s.pool.workers[w]) && s.pool.workers[w].pc != Updating;
    }
  }

  /** What that worker does next, its send failing if it is still sending. */
  function Help(w: nat, worker: Worker): Step {
    match worker.pc
    case Sending => Step.EndSend(w, Some(""))
    case Signalling(_) => Step.Signal(w)
    case _ => Step.Release(w)
  }

  /** It does not add to a jam. */
  lemma HelpKeepsFree(c: Config, s: State, w: nat, task: nat)
    requires WorkerAt(s.pool, w) && Live(s.pool.workers[w]) && s.pool.workers[w].pc != Updating
    requires !Jammed(c.maxConcurrent, s.pool, Some(task))
    ensures Enabled(c, s, Help(w, s.pool.workers[w]))
    ensures !Jammed(c.maxConcurrent, Apply(c, s, Help(w, s.pool.workers[w])).pool, Some(task))
  {
    hide UpdatingCount, Pools.Release;
    var step := Help(w, s.pool.workers[w]);
    if step.Release? {
      ReleaseLeavesWorkers(c.maxConcurrent, s.pool, w);
    } else {
      UpdatingUpdate(s.pool.workers, w, Apply(c, s, step).pool.workers[w]);
    }
  }

  /** Its worker has reported, so the flush itself may go on. */
  lemma ReportedCanAct(c: Config, s: State, i: nat)
    requires Safe(c, s) && i < |s.callers| && s.callers[i].pc.Waiting? && s.callers[i].task.Some?
    requires s.callers[i].task.value < |s.pool.workers|
    requires s.pool.workers[s.callers[i].task.value].pc.Exited?
    ensures CanAct(s, i)
  {
    assert Reports(s.pool.tasks[s.callers[i].task.value], s.pool.workers[s.callers[i].task.value]);
  }

  /** The next step towards its end: its own, the send of its batch failing, or a slot getting free. */
  lemma NextStep(c: Config, s: State, i: nat) returns (step: Step)
    requires c.Valid() && Safe(c, s) && c.metricsEnabled && HolderOnCourse(c, s) && s.lockHolder == Some(i)
    requires s.callers[i].pc != Called && !Jammed(c.maxConcurrent, s.pool, s.callers[i].task)
    ensures Enabled(c, s, step)
    ensures step == Act(i) ||
            (IsWorkerStep(step) && !Jammed(c.maxConcurrent, Apply(c, s, step).pool, s.callers[i].task))
  {
    hide Jammed, Apply, Sound, CallersInformed, LockKnown, OnlyFailures;
    CallerInformed(s.pool.tasks, s.callers, i);
    if !s.callers[i].pc.Waiting? {
      return Act(i);
    }
    var t := s.callers[i].task.value;
    var w := Helper(c, s, t);
    if Live(s.pool.workers[w]) {
      step := Help(w, s.pool.workers[w]);
      HelpKeepsFree(c, s, w, t);
    } else {
      step := Act(i);
      ReportedCanAct(c, s, i);
    }
  }

  /** Its own step ends it or leaves it without a jam. */
  lemma OwnStepKeepsFree(c: Config, s: State, i: nat)
    requires c.Valid() && Safe(c, s) && c.metricsEnabled && HolderOnCourse(c, s)
    requires s.lockHolder == Some(i) && CanAct(s, i)
    requires s.callers[i].pc != Called && !Jammed(c.maxConcurrent, s.pool, s.callers[i].task)
    ensures var s' := ActStep(c, s, i);
            && i < |s'.callers| && s'.callers[i].pc != Called
            && (s'.callers[i].Finished() ||
                (s'.lockHolder == Some(i) && !Jammed(c.maxConcurrent, s'.pool, s'.callers[i].task)))
  {
    CallerInformed(s.pool.tasks, s.callers, i);
    hide CallersInformed, Pools.Enqueue, LiveCount, UpdatingCount;
    match s.callers[i].pc {
      case Holding(batch) =>
        EnqueueLeavesWorkers(c.maxConcurrent, s.pool, i, batch);
        EnqueueStartsFresh(c.maxConcurrent, s.pool, i, batch);
      case Waiting =>
        var t := s.callers[i].task.value;
        assert Reports(s.pool.tasks[t], s.pool.workers[t]);
      case _ =>
    }
  }

  lemma {:induction false} FreeFlushEnds(c: Config, s: State, i: nat) returns (steps: seq<Step>)
    requires c.Valid() && Safe(c, s) && c.metricsEnabled && HolderOnCourse(c, s) && s.lockHolder == Some(i)
    requires s.callers[i].pc != Called && !Jammed(c.maxConcurrent, s.pool, s.callers[i].task)
    ensures Legal(c, s, steps)
    ensures i < |Run(c, s, steps).callers| && Run(c, s, steps).callers[i].Finished()
    decreases Potential(s)
  {
    hide Apply, Safe, Potential, Jammed, OnCourse, ActStep;
    var step := NextStep(c, s, i);
    var s1 := Apply(c, s, step);
    StepKeepsSafe(c, s, step);
    StepKeepsHolderOnCourse(c, s, step);
    MoveLowersPotential(c, s, step);
    if step == Act(i) {
      ApplyAct(c, s, i);
      OwnStepKeepsFree(c, s, i);
    } else {
      WorkersLeaveCallers(c, s, step);
    }
    var rest: seq<Step> := [];
    if !s1.callers[i].Finished() {
      rest := FreeFlushEnds(c, s1, i);
    }
    steps := [step] + rest;
    assert steps[1..] == rest;
  }
}
