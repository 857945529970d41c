/**
  The log service running in parallel: producers that log, threads that call `flush` or `destroy`,
  the buffer's flush timer, and the workers that send batches. A step is one locked section, one
  unlocked read or write of a shared flag, or the end of a send.
 */
module FlushInterleavings {
  import opened Prelude
  import opened MemoryAccounting
  import BufferPolicy
  import Pools = FlushPools
  import opened FlushPools

  /** `updatesCanFail` tells whether bringing the metrics up to date can raise, as a foreign transport whose
      own metrics raise makes it. */
  datatype Config = Config(
    maxConcurrent: nat,
    metricsEnabled: bool,
    updatesCanFail: bool,
    buffer: BufferPolicy.Config)
  {
    predicate Valid() {
      maxConcurrent >= 1
    }
  }

  datatype Kind = Flush | TimerFlush | Destroy

  datatype CallerPc =
    | Called
    | Marking
    | Sizing
    | Taking
    | Holding(batch: seq<Item>)
    | Waiting
    | Idling
    | Closing(error: Option<Error>)
    | Returned
    | Raised(reason: Error)

  datatype Caller = Caller(kind: Kind, pc: CallerPc, task: Option<nat>) {
    predicate Finished() {
      pc.Returned? || pc.Raised?
    }
  }

  /** The history of where entries went: accepted by the buffer or ignored by a destroyed one; of the
      accepted ones, dropped by the buffer's limits, cleared with it, sent, or failed to send. */
  datatype Books = Books(
    accepted: multiset<Item>,
    ignored: multiset<Item>,
    dropped: multiset<Item>,
    cleared: multiset<Item>,
    sent: multiset<Item>,
    failed: multiset<Item>)

  /** The buffer's lock is reentrant and released within each step, except by a firing timer. */
  datatype State = State(
    buffer: seq<Item>,
    bufferDestroyed: bool,
    lockHolder: Option<nat>,
    destroyed: bool,
    pool: Pool,
    callers: seq<Caller>,
    books: Books)

  const INITIAL := State([], false, None, false, EMPTY, [],
                         Books(multiset{}, multiset{}, multiset{}, multiset{}, multiset{}, multiset{}))

  datatype Step =
    | Log(item: Item, now: real)
    | Begin(kind: Kind)
    | Act(i: nat)
    | EndSend(w: nat, error: Option<Error>)
    | EndUpdate(w: nat, error: Option<Error>)
    | Signal(w: nat)
    | Release(w: nat)

  predicate LockFree(s: State, i: nat) {
    s.lockHolder == None || s.lockHolder == Some(i)
  }

  predicate Signalled(p: Pool, task: Option<nat>) {
    task.Some? && task.value < |p.tasks| && p.tasks[task.value].signalled
  }

  predicate CanAct(s: State, i: nat) {
    i < |s.callers| &&
    match s.callers[i].pc
    case Called => true
    case Marking => true
    case Sizing => LockFree(s, i)
    case Taking => LockFree(s, i)
    case Holding(_) => true
    case Waiting => Signalled(s.pool, s.callers[i].task)
    case Idling => Idle(s.pool)
    case Closing(_) => LockFree(s, i)
    case Returned => false
    case Raised(_) => false
  }

  /** A producer hands over a new object each time. */
  predicate New(s: State, item: Item) {
    && item !in s.books.accepted && item !in s.books.ignored
    && forall k :: 0 <= k < |s.buffer| ==> s.buffer[k].ref != item.ref
  }

  predicate Enabled(c: Config, s: State, step: Step) {
    match step
    case Log(item, _) => s.lockHolder == None && New(s, item)
    case Begin(kind) =>
      kind == TimerFlush ==> c.buffer.autoFlush && s.lockHolder == None && !s.bufferDestroyed && s.buffer != []
    case Act(i) => CanAct(s, i)
    case EndSend(w, _) => WorkerAt(s.pool, w) && s.pool.workers[w].pc == Sending
    case EndUpdate(w, error) =>
      && WorkerAt(s.pool, w) && s.pool.workers[w].pc == Updating && s.lockHolder == None
      && (error.Some? ==> c.updatesCanFail)
    case Signal(w) => WorkerAt(s.pool, w) && s.pool.workers[w].pc.Signalling?
    case Release(w) => WorkerAt(s.pool, w) && s.pool.workers[w].pc.Releasing?
  }

  // -------------------------------------------------------------------------------------------
  // Steps

  /** `MemoryBuffer.add`. */
  function LogStep(c: Config, s: State, item: Item, now: real): State {
    if s.bufferDestroyed then
      s.(books := s.books.(ignored := s.books.ignored + multiset{item}))
    else
      var kept := BufferPolicy.AfterAdd(c.buffer, s.buffer, item, now);
      s.(buffer := kept,
         books := s.books.(accepted := s.books.accepted + multiset{item},
                           dropped := s.books.dropped + (multiset(s.buffer) + multiset{item} - multiset(kept))))
  }

  function Goto(s: State, i: nat, pc: CallerPc): State
    requires i < |s.callers|
  {
    s.(callers := s.callers[i := s.callers[i].(pc := pc)])
  }

  /** The call ends; the timer's callback lets go of the buffer's lock. */
  function End(s: State, i: nat, pc: CallerPc): State
    requires i < |s.callers|
  {
    Goto(s, i, pc).(lockHolder := if s.callers[i].kind == TimerFlush then None else s.lockHolder)
  }

  function EnqueueStep(c: Config, s: State, i: nat, batch: seq<Item>): State
    requires i < |s.callers|
  {
    s.(callers := s.callers[i := s.callers[i].(pc := Waiting, task := Some(|s.pool.tasks|))],
       pool := Enqueue(c.maxConcurrent, s.pool, i, batch))
  }

  function WakeStep(s: State, i: nat): State
    requires CanAct(s, i) && s.callers[i].pc == Waiting
  {
    var error := s.pool.tasks[s.callers[i].task.value].error;
    if error.None? then Goto(s, i, Idling)
    else if s.callers[i].kind == Destroy then Goto(s, i, Closing(error))
    else End(s, i, Raised(error.value))
  }

  /** `MemoryBuffer.destroy`, after which the call returns or raises what it had caught. */
  function CloseStep(s: State, i: nat, error: Option<Error>): State
    requires i < |s.callers|
  {
    End(s, i, if error.Some? then Raised(error.value) else Returned)
      .(bufferDestroyed := true, buffer := [],
        books := s.books.(cleared := s.books.cleared + multiset(s.buffer)))
  }

  function ActStep(c: Config, s: State, i: nat): State
    requires CanAct(s, i)
  {
    var kind := s.callers[i].kind;
    match s.callers[i].pc
    case Called => if s.destroyed then End(s, i, Returned) else Goto(s, i, if kind == Destroy then Marking else Sizing)
    case Marking => Goto(s, i, Sizing).(destroyed := true)
    case Sizing => Goto(s, i, if |s.buffer| > 0 then Taking else Idling)
    case Taking => Goto(s, i, if s.buffer != [] then Holding(s.buffer) else Idling).(buffer := [])
    case Holding(batch) => EnqueueStep(c, s, i, batch)
    case Waiting => WakeStep(s, i)
    case Idling => if kind == Destroy then Goto(s, i, Closing(None)) else End(s, i, Returned)
    case Closing(error) => CloseStep(s, i, error)
    case Returned => s
    case Raised(_) => s
  }

  function SendStep(c: Config, s: State, w: nat, error: Option<Error>): State
    requires WorkerAt(s.pool, w)
  {
    var batch := multiset(s.pool.batches[s.pool.workers[w].task]);
    s.(pool := Pools.EndSend(c.metricsEnabled, s.pool, w, error),
       books := if error.None? then s.books.(sent := s.books.sent + batch)
                else s.books.(failed := s.books.failed + batch))
  }

  function BeginStep(s: State, kind: Kind): State {
    s.(callers := s.callers + [Caller(kind, Called, None)],
       lockHolder := if kind == TimerFlush then Some(|s.callers|) else s.lockHolder)
  }

  function Apply(c: Config, s: State, step: Step): State
    requires Enabled(c, s, step)
  {
    match step
    case Log(item, now) => LogStep(c, s, item, now)
    case Begin(kind) => BeginStep(s, kind)
    case Act(i) => ActStep(c, s, i)
    case EndSend(w, error) => SendStep(c, s, w, error)
    case EndUpdate(w, error) => s.(pool := Pools.EndUpdate(s.pool, w, error))
    case Signal(w) => s.(pool := Pools.Signal(s.pool, w))
    case Release(w) => s.(pool := Pools.Release(c.maxConcurrent, s.pool, w))
  }

  // -------------------------------------------------------------------------------------------
  // Runs

  predicate Legal(c: Config, s: State, steps: seq<Step>)
    decreases |steps|
  {
    steps == [] || (Enabled(c, s, steps[0]) && Legal(c, Apply(c, s, steps[0]), steps[1..]))
  }

  function Run(c: Config, s: State, steps: seq<Step>): State
    requires Legal(c, s, steps)
    decreases |steps|
  {
    if steps == [] then s else Run(c, Apply(c, s, steps[0]), steps[1..])
  }

  ghost predicate Reachable(c: Config, s: State) {
    exists steps: seq<Step> :: Legal(c, INITIAL, steps) && Run(c, INITIAL, steps) == s
  }

  lemma {:induction false} RunConcat(c: Config, s: State, first: seq<Step>, second: seq<Step>)
    requires Legal(c, s, first) && Legal(c, Run(c, s, first), second)
    ensures Legal(c, s, first + second)
    ensures Run(c, s, first + second) == Run(c, Run(c, s, first), second)
    decreases |first|
  {
    hide Apply, Enabled;
    if first == [] {
      assert first + second == second;
    } else {
      RunConcat(c, Apply(c, s, first[0]), first[1..], second);
      assert (first + second)[1..] == first[1..] + second;
    }
  }

  lemma RunOne(c: Config, s: State, step: Step)
    requires Enabled(c, s, step)
    ensures Legal(c, s, [step]) && Run(c, s, [step]) == Apply(c, s, step)
  {
    hide Apply, Enabled;
    assert [step][1..] == [];
  }

  lemma RunThen(c: Config, s: State, first: seq<Step>, step: Step)
    requires Legal(c, s, first) && Enabled(c, Run(c, s, first), step)
    ensures Legal(c, s, first + [step])
    ensures Run(c, s, first + [step]) == Apply(c, Run(c, s, first), step)
  {
    hide Apply, Enabled;
    RunOne(c, Run(c, s, first), step);
    RunConcat(c, s, first, [step]);
  }

  // -------------------------------------------------------------------------------------------
  // The invariant

  /** What a caller's position says of its task. */
  predicate Informed(tasks: seq<Task>, i: nat, caller: Caller) {
    && (caller.task.Some? ==> caller.task.value < |tasks| && tasks[caller.task.value].owner == i)
    && match caller.pc
       case Waiting => caller.task.Some?
       case Holding(batch) => caller.task.None? && batch != []
       case Idling => EndedWell(tasks, caller.task)
       case Returned => EndedWell(tasks, caller.task)
       case Closing(error) =>
         if error.None? then EndedWell(tasks, caller.task)
         else caller.task.Some? && Settled(tasks[caller.task.value], error)
       case Raised(reason) => caller.task.Some? && Settled(tasks[caller.task.value], Some(reason))
       case _ => caller.task.None?
  }

  predicate EndedWell(tasks: seq<Task>, task: Option<nat>)
    requires task.Some? ==> task.value < |tasks|
  {
    task.Some? ==> Settled(tasks[task.value], None)
  }

  predicate CallersInformed(tasks: seq<Task>, callers: seq<Caller>) {
    forall i :: 0 <= i < |callers| ==> Informed(tasks, i, callers[i])
  }

  /** The buffer's lock is kept exactly by a timer flush that has not ended. */
  predicate LockKnown(holder: Option<nat>, callers: seq<Caller>) {
    && (holder.Some? ==> holder.value < |callers|)
    && forall i :: 0 <= i < |callers| ==>
         (holder == Some(i) <==> callers[i].kind == TimerFlush && !callers[i].Finished())
  }

  predicate Safe(c: Config, s: State) {
    && Pools.Sound(c.maxConcurrent, s.pool)
    && CallersInformed(s.pool.tasks, s.callers)
    && LockKnown(s.lockHolder, s.callers)
  }

  /** Tasks only gain members and, once signalled, never change. */
  predicate Progressed(tasks: seq<Task>, tasks': seq<Task>) {
    && |tasks| <= |tasks'|
    && forall t :: 0 <= t < |tasks| ==>
         tasks'[t].owner == tasks[t].owner && (tasks[t].signalled ==> tasks'[t] == tasks[t])
  }

  lemma InformedPersists(tasks: seq<Task>, tasks': seq<Task>, callers: seq<Caller>)
    requires CallersInformed(tasks, callers) && Progressed(tasks, tasks')
    ensures CallersInformed(tasks', callers)
  {
  }

  /** What the workers' steps do to the pool and to nothing the callers rely on. */
  lemma WorkerStepKeepsSafe(c: Config, s: State, step: Step)
    requires c.Valid() && Safe(c, s) && Enabled(c, s, step) && !step.Log? && !step.Begin? && !step.Act?
    ensures Safe(c, Apply(c, s, step))
    ensures Progressed(s.pool.tasks, Apply(c, s, step).pool.tasks)
  {
    hide Pools.Sound, Pools.EndSend, Pools.EndUpdate, Pools.Signal, Pools.Release, CallersInformed, LockKnown;
    match step {
      case EndSend(w, error) =>
        EndSendKeepsSafe(c.maxConcurrent, c.metricsEnabled, s.pool, w, error);
        assert Progressed(s.pool.tasks, Apply(c, s, step).pool.tasks);
      case EndUpdate(w, error) =>
        EndUpdateKeepsSafe(c.maxConcurrent, s.pool, w, error);
        assert Progressed(s.pool.tasks, Apply(c, s, step).pool.tasks);
      case Signal(w) =>
        SignalKeepsSafe(c.maxConcurrent, s.pool, w);
        assert Progressed(s.pool.tasks, Apply(c, s, step).pool.tasks);
      case Release(w) =>
        ReleaseKeepsSafe(c.maxConcurrent, s.pool, w);
        assert Progressed(s.pool.tasks, Apply(c, s, step).pool.tasks);
    }
    InformedPersists(s.pool.tasks, Apply(c, s, step).pool.tasks, s.callers);
  }

  lemma EnqueueStepKeepsSafe(c: Config, s: State, i: nat)
    requires c.Valid() && Safe(c, s) && CanAct(s, i) && s.callers[i].pc.Holding?
    ensures Safe(c, EnqueueStep(c, s, i, s.callers[i].pc.batch))
    ensures Progressed(s.pool.tasks, EnqueueStep(c, s, i, s.callers[i].pc.batch).pool.tasks)
  {
    hide Pools.Sound, Enqueue;
    EnqueueKeepsSafe(c.maxConcurrent, s.pool, i, s.callers[i].pc.batch);
    InformedPersists(s.pool.tasks, EnqueueStep(c, s, i, s.callers[i].pc.batch).pool.tasks, s.callers);
  }

  lemma CallerInformed(tasks: seq<Task>, callers: seq<Caller>, i: nat)
    requires CallersInformed(tasks, callers) && i < |callers|
    ensures Informed(tasks, i, callers[i])
  {
  }

  lemma GotoKeepsSafe(c: Config, s: State, i: nat, pc: CallerPc)
    requires Safe(c, s) && i < |s.callers| && !s.callers[i].Finished()
    requires Informed(s.pool.tasks, i, s.callers[i].(pc := pc))
    ensures !pc.Returned? && !pc.Raised? ==> Safe(c, Goto(s, i, pc))
    ensures pc.Returned? || pc.Raised? ==> Safe(c, End(s, i, pc))
  {
    hide Pools.Sound, Informed;
  }

  lemma WakeStepKeepsSafe(c: Config, s: State, i: nat)
    requires Safe(c, s) && CanAct(s, i) && s.callers[i].pc == Waiting
    ensures Safe(c, WakeStep(s, i))
  {
    CallerInformed(s.pool.tasks, s.callers, i);
    hide Pools.Sound, CallersInformed, LockKnown, Idle;
    GotoKeepsSafe(c, s, i, WakeStep(s, i).callers[i].pc);
  }

  lemma ActStepKeepsSafe(c: Config, s: State, i: nat)
    requires c.Valid() && Safe(c, s) && CanAct(s, i)
    ensures Safe(c, ActStep(c, s, i))
    ensures Progressed(s.pool.tasks, ActStep(c, s, i).pool.tasks)
  {
    if s.callers[i].pc.Holding? {
      EnqueueStepKeepsSafe(c, s, i);
    } else {
      CallerInformed(s.pool.tasks, s.callers, i);
      hide Pools.Sound, CallersInformed, LockKnown, Idle, Settled;
      match s.callers[i].pc {
        case Called =>
          GotoKeepsSafe(c, s, i, Returned);
          GotoKeepsSafe(c, s, i, Marking);
          GotoKeepsSafe(c, s, i, Sizing);
        case Waiting => WakeStepKeepsSafe(c, s, i);
        case Marking => GotoKeepsSafe(c, s, i, Sizing);
        case Sizing =>
          GotoKeepsSafe(c, s, i, Taking);
          GotoKeepsSafe(c, s, i, Idling);
        case Taking =>
          GotoKeepsSafe(c, s, i, Idling);
          if s.buffer != [] {
            GotoKeepsSafe(c, s, i, Holding(s.buffer));
          }
        case Idling =>
          GotoKeepsSafe(c, s, i, Closing(None));
          GotoKeepsSafe(c, s, i, Returned);
        case Closing(error) => GotoKeepsSafe(c, s, i, if error.Some? then Raised(error.value) else Returned);
      }
    }
  }

  lemma StepKeepsSafe(c: Config, s: State, step: Step)
    requires c.Valid() && Safe(c, s) && Enabled(c, s, step)
    ensures Safe(c, Apply(c, s, step))
    ensures Progressed(s.pool.tasks, Apply(c, s, step).pool.tasks)
  {
    match step
    case Log(_, _) => hide Pools.Sound;
    case Begin(_) => hide Pools.Sound;
    case Act(i) => ActStepKeepsSafe(c, s, i);
    case _ => WorkerStepKeepsSafe(c, s, step);
  }

  lemma {:induction false} RunKeepsSafe(c: Config, s: State, steps: seq<Step>)
    requires c.Valid() && Safe(c, s) && Legal(c, s, steps)
    ensures Safe(c, Run(c, s, steps))
    decreases |steps|
  {
    hide Apply, Enabled, Safe;
    if steps == [] {
    } else {
      StepKeepsSafe(c, s, steps[0]);
      RunKeepsSafe(c, Apply(c, s, steps[0]), steps[1..]);
    }
  }

  lemma ReachableIsSafe(c: Config, s: State)
    requires c.Valid() && Reachable(c, s)
    ensures Safe(c, s)
  {
    hide Apply, Enabled;
    var steps: seq<Step> :| Legal(c, INITIAL, steps) && Run(c, INITIAL, steps) == s;
    RunKeepsSafe(c, INITIAL, steps);
  }

  // -------------------------------------------------------------------------------------------
  // Main results

  /** The limit on concurrent flushes, exact slot counting, work conservation and first-in-first-out. */
  lemma SchedulerSafety(c: Config, s: State)
    requires c.Valid() && Reachable(c, s)
    ensures s.pool.lanes.inFlight == LiveCount(s.pool.workers) <= c.maxConcurrent
    ensures s.pool.lanes.queue != [] ==> s.pool.lanes.inFlight == c.maxConcurrent
    ensures s.pool.lanes.started + s.pool.lanes.queue == seq(|s.pool.tasks|, i => i)
    ensures forall w :: Enabled(c, s, Step.Release(w)) ==> s.pool.lanes.inFlight >= 1
  {
    hide Apply, Reachable;
    ReachableIsSafe(c, s);
    forall w | Enabled(c, s, Step.Release(w))
      ensures s.pool.lanes.inFlight >= 1
    {
      ReleaseKeepsSafe(c.maxConcurrent, s.pool, w);
    }
  }

  /** A caller that enqueued a batch ends with the outcome of that batch: it raises exactly the error
      of its own send, or of its own worker's metrics update when the send went well. */
  lemma OwnOutcome(c: Config, s: State, i: nat)
    requires c.Valid() && Reachable(c, s) && i < |s.callers| && s.callers[i].Finished()
    ensures s.callers[i].pc.Raised? ==> s.callers[i].task.Some?
    ensures s.callers[i].task.Some? ==>
              var t := s.callers[i].task.value;
              && t < |s.pool.workers| && t < |s.pool.tasks| && s.pool.tasks[t].owner == i
              && s.pool.workers[t].task == t
              && (s.callers[i].pc.Raised? <==>
                  s.pool.workers[t].sendError.Some? || s.pool.workers[t].updateError.Some?)
              && (s.callers[i].pc.Raised? ==> Some(s.callers[i].pc.reason) == Verdict(s.pool.workers[t]))
  {
    hide Apply, Reachable, LiveCount;
    ReachableIsSafe(c, s);
    assert Informed(s.pool.tasks, i, s.callers[i]);
    if s.callers[i].task.Some? {
      var t := s.callers[i].task.value;
      assert s.pool.tasks[t].signalled;
      assert t < |s.pool.workers|;
      assert Reports(s.pool.tasks[t], s.pool.workers[t]);
    }
  }
}
