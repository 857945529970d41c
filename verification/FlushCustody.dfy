/**
  Custody of entries: whatever the interleaving, every entry the buffer accepted is in exactly one
  place, from the buffer through the callers, the queue and the workers to its end.
 */
module FlushCustody {
  import opened Prelude
  import opened Subsequences
  import opened MemoryAccounting
  import BufferPolicy
  import opened FlushRules
  import Pools = FlushPools
  import opened FlushPools
  import opened FlushInterleavings

  type Bag = multiset<Item>

  /** How often an entry occurs in all the bags together. */
  function Sum(bags: seq<Bag>, item: Item): nat {
    if bags == [] then 0 else Sum(bags[..|bags| - 1], item) + bags[|bags| - 1][item]
  }

  lemma {:induction false} SumConcat(xs: seq<Bag>, ys: seq<Bag>, item: Item)
    ensures Sum(xs + ys, item) == Sum(xs, item) + Sum(ys, item)
  {
    if ys == [] {
      assert xs + ys == xs;
    } else {
      SumConcat(xs, ys[..|ys| - 1], item);
      assert (xs + ys)[..|xs + ys| - 1] == xs + ys[..|ys| - 1];
    }
  }

  lemma {:induction false} SumUpdate(xs: seq<Bag>, i: nat, x: Bag, item: Item)
    requires i < |xs|
    ensures Sum(xs[i := x], item) + xs[i][item] == Sum(xs, item) + x[item]
  {
    var before := xs[..|xs| - 1];
    if i == |before| {
      assert xs[i := x][..|before|] == before;
    } else {
      SumUpdate(before, i, x, item);
      assert xs[i := x][..|before|] == before[i := x];
    }
  }

  lemma {:induction false} SumNothing(bags: seq<Bag>, item: Item)
    requires forall i :: 0 <= i < |bags| ==> bags[i] == multiset{}
    ensures Sum(bags, item) == 0
  {
    if bags == [] {
    } else {
      SumNothing(bags[..|bags| - 1], item);
    }
  }

  // -------------------------------------------------------------------------------------------
  // Places

  function BatchBag(batches: seq<seq<Item>>, t: nat): Bag {
    if t < |batches| then multiset(batches[t]) else multiset{}
  }

  function QueueBags(batches: seq<seq<Item>>, queue: seq<nat>): seq<Bag> {
    seq(|queue|, k requires 0 <= k < |queue| => BatchBag(batches, queue[k]))
  }

  function WorkerBag(batches: seq<seq<Item>>, w: Worker): Bag {
    if w.pc == Sending then BatchBag(batches, w.task) else multiset{}
  }

  function WorkerBags(batches: seq<seq<Item>>, workers: seq<Worker>): seq<Bag> {
    seq(|workers|, w requires 0 <= w < |workers| => WorkerBag(batches, workers[w]))
  }

  function CallerBag(caller: Caller): Bag {
    if caller.pc.Holding? then multiset(caller.pc.batch) else multiset{}
  }

  function CallerBags(callers: seq<Caller>): seq<Bag> {
    seq(|callers|, i requires 0 <= i < |callers| => CallerBag(callers[i]))
  }

  function Queued(p: Pool, item: Item): nat {
    Sum(QueueBags(p.batches, p.lanes.queue), item)
  }

  function InFlight(p: Pool, item: Item): nat {
    Sum(WorkerBags(p.batches, p.workers), item)
  }

  function Held(callers: seq<Caller>, item: Item): nat {
    Sum(CallerBags(callers), item)
  }

  datatype Place = InBuffer | HeldByCaller | InQueue | BeingSent | Sent | Failed | Dropped | Cleared

  /** How often an entry occurs in a place. */
  function Occurrences(s: State, place: Place, item: Item): nat {
    match place
    case InBuffer => multiset(s.buffer)[item]
    case HeldByCaller => Held(s.callers, item)
    case InQueue => Queued(s.pool, item)
    case BeingSent => InFlight(s.pool, item)
    case Sent => s.books.sent[item]
    case Failed => s.books.failed[item]
    case Dropped => s.books.dropped[item]
    case Cleared => s.books.cleared[item]
  }

  function Everywhere(s: State, item: Item): nat {
    Occurrences(s, InBuffer, item) + Occurrences(s, HeldByCaller, item) + Occurrences(s, InQueue, item)
    + Occurrences(s, BeingSent, item) + Occurrences(s, Sent, item) + Occurrences(s, Failed, item)
    + Occurrences(s, Dropped, item) + Occurrences(s, Cleared, item)
  }

  /** The entry occurs in all places together as often as it was accepted, which is at most once. */
  predicate InCustody(s: State, item: Item) {
    && s.books.accepted[item] == Everywhere(s, item)
    && s.books.accepted[item] + s.books.ignored[item] <= 1
    && (s.bufferDestroyed ==> s.buffer == [])
  }

  // -------------------------------------------------------------------------------------------
  // Batches in the pool

  /** A batch that leaves the queue is in flight at once. */
  lemma LaunchMovesBatches(p: Pool, lanes: Lanes, k: nat, item: Item)
    requires k <= |p.lanes.queue| && lanes.queue == p.lanes.queue[k..]
    requires lanes.started == p.lanes.started + p.lanes.queue[..k]
    ensures var p' := SetLanes(p, lanes);
            Queued(p', item) + InFlight(p', item) == Queued(p, item) + InFlight(p, item)
  {
    hide Sum, BatchBag;
    var queue := p.lanes.queue;
    assert lanes.started[|p.lanes.started|..] == queue[..k];
    LaunchedBags(p.batches, p.workers, queue[..k]);
    SumConcat(WorkerBags(p.batches, p.workers), QueueBags(p.batches, queue[..k]), item);
    assert QueueBags(p.batches, queue) == QueueBags(p.batches, queue[..k]) + QueueBags(p.batches, queue[k..]);
    SumConcat(QueueBags(p.batches, queue[..k]), QueueBags(p.batches, queue[k..]), item);
  }

  lemma LaunchedBags(batches: seq<seq<Item>>, workers: seq<Worker>, tasks: seq<nat>)
    ensures WorkerBags(batches, workers + Launch(tasks)) == WorkerBags(batches, workers) + QueueBags(batches, tasks)
  {
    hide BatchBag;
  }

  lemma AppendQueuesBatch(p: Pool, owner: nat, batch: seq<Item>, item: Item)
    requires Lined(p)
    ensures var p' := Append(p, owner, batch);
            && Queued(p', item) == Queued(p, item) + multiset(batch)[item]
            && InFlight(p', item) == InFlight(p, item)
  {
    var p' := Append(p, owner, batch);
    assert WorkerBags(p'.batches, p'.workers) == WorkerBags(p.batches, p.workers);
    assert QueueBags(p'.batches, p'.lanes.queue) == QueueBags(p.batches, p.lanes.queue) + [multiset(batch)];
    SumConcat(QueueBags(p.batches, p.lanes.queue), [multiset(batch)], item);
    assert [multiset(batch)][..0] == [];
  }

  lemma EnqueueTakesBatch(max: nat, p: Pool, owner: nat, batch: seq<Item>, item: Item)
    requires max >= 1 && Sound(max, p)
    ensures var p' := Pools.Enqueue(max, p, owner, batch);
            Queued(p', item) + InFlight(p', item) == Queued(p, item) + InFlight(p, item) + multiset(batch)[item]
  {
    hide Dispatch, Queued, InFlight;
    var q := Append(p, owner, batch);
    AppendQueuesBatch(p, owner, batch, item);
    DispatchStartsPrefix(max, q.lanes);
    LaunchMovesBatches(q, Dispatch(max, q.lanes), Max(0, Min(max - q.lanes.inFlight, |q.lanes.queue|)), item);
  }

  /** Only a worker that is sending has its batch in flight. */
  lemma WorkerMoves(p: Pool, q: Pool, w: nat, item: Item)
    requires w < |p.workers| == |q.workers| && q.workers == p.workers[w := q.workers[w]]
    requires q.batches == p.batches && q.lanes.queue == p.lanes.queue
    ensures Queued(q, item) == Queued(p, item)
    ensures InFlight(q, item) + WorkerBag(p.batches, p.workers[w])[item] ==
            InFlight(p, item) + WorkerBag(p.batches, q.workers[w])[item]
  {
    SumUpdate(WorkerBags(p.batches, p.workers), w, WorkerBag(p.batches, q.workers[w]), item);
    assert WorkerBags(q.batches, q.workers) ==
           WorkerBags(p.batches, p.workers)[w := WorkerBag(p.batches, q.workers[w])];
  }

  lemma ReleaseKeepsBatches(max: nat, p: Pool, w: nat, item: Item)
    requires max >= 1 && Sound(max, p) && WorkerAt(p, w) && p.workers[w].pc.Releasing?
    ensures var p' := Pools.Release(max, p, w);
            Queued(p', item) + InFlight(p', item) == Queued(p, item) + InFlight(p, item)
  {
    hide Dispatch, Queued, InFlight;
    var q := Exit(p, w);
    WorkerMoves(p, q, w, item);
    ReleaseKeepsSafe(max, p, w);
    var freed := p.lanes.(inFlight := p.lanes.inFlight - 1);
    DispatchStartsPrefix(max, freed);
    LaunchMovesBatches(q, Dispatch(max, freed), Max(0, Min(max - freed.inFlight, |freed.queue|)), item);
    assert Pools.Release(max, p, w) == SetLanes(q, Dispatch(max, freed));
  }

  // -------------------------------------------------------------------------------------------
  // Every step keeps custody

  /** What a buffer drops is what it had and does not keep. */
  lemma LogKeepsCustody(c: Config, s: State, entry: Item, now: real, item: Item)
    requires New(s, entry) && InCustody(s, item)
    ensures InCustody(LogStep(c, s, entry, now), item)
  {
    hide Held, Queued, InFlight, BufferPolicy.AfterAdd, Sub;
    if !s.bufferDestroyed {
      var kept := BufferPolicy.AfterAdd(c.buffer, s.buffer, entry, now);
      BufferPolicy.AfterAddIsSub(c.buffer, s.buffer, entry, now);
      SubMultiset(kept, s.buffer + [entry]);
      var all := multiset(s.buffer) + multiset{entry};
      assert multiset(s.buffer + [entry]) == all;
      assert multiset(kept)[item] + (all - multiset(kept))[item] == all[item];
    }
  }

  /** A caller's move changes what callers hold only by its own batch. */
  lemma CallerMoves(callers: seq<Caller>, i: nat, caller: Caller, item: Item)
    requires i < |callers|
    ensures Held(callers[i := caller], item) + CallerBag(callers[i])[item] ==
            Held(callers, item) + CallerBag(caller)[item]
  {
    SumUpdate(CallerBags(callers), i, CallerBag(caller), item);
    assert CallerBags(callers[i := caller]) == CallerBags(callers)[i := CallerBag(caller)];
  }

  lemma BeginKeepsCustody(s: State, kind: Kind, item: Item)
    requires InCustody(s, item)
    ensures InCustody(BeginStep(s, kind), item)
  {
    hide Queued, InFlight;
    var s' := BeginStep(s, kind);
    assert CallerBags(s'.callers)[..|s.callers|] == CallerBags(s.callers);
  }

  lemma EnqueueKeepsCustody(c: Config, s: State, i: nat, item: Item)
    requires c.Valid() && Safe(c, s) && CanAct(s, i) && s.callers[i].pc.Holding? && InCustody(s, item)
    ensures InCustody(EnqueueStep(c, s, i, s.callers[i].pc.batch), item)
  {
    hide Held, Queued, InFlight, Sound, Pools.Enqueue, CallersInformed, LockKnown;
    var s' := EnqueueStep(c, s, i, s.callers[i].pc.batch);
    CallerMoves(s.callers, i, s'.callers[i], item);
    EnqueueTakesBatch(c.maxConcurrent, s.pool, i, s.callers[i].pc.batch, item);
  }

  /** A caller that neither takes the buffer nor enqueues moves no entry. */
  lemma MoveKeepsCustody(s: State, i: nat, pc: CallerPc, item: Item)
    requires i < |s.callers| && !s.callers[i].pc.Holding? && !pc.Holding? && InCustody(s, item)
    ensures InCustody(Goto(s, i, pc), item) && InCustody(Goto(s, i, pc).(destroyed := true), item)
    ensures InCustody(End(s, i, pc), item)
  {
    hide Held, Queued, InFlight;
    CallerMoves(s.callers, i, s.callers[i].(pc := pc), item);
  }

  /** What was in the buffer is now the caller's. */
  lemma TakingKeepsCustody(c: Config, s: State, i: nat, item: Item)
    requires CanAct(s, i) && s.callers[i].pc.Taking? && InCustody(s, item)
    ensures InCustody(ActStep(c, s, i), item)
  {
    hide Held, Queued, InFlight, EnqueueStep, WakeStep, CloseStep, Idle, End;
    CallerMoves(s.callers, i, ActStep(c, s, i).callers[i], item);
  }

  /** What was in the buffer is cleared with it. */
  lemma ClosingKeepsCustody(s: State, i: nat, error: Option<Error>, item: Item)
    requires i < |s.callers| && s.callers[i].pc.Closing? && InCustody(s, item)
    ensures InCustody(CloseStep(s, i, error), item)
  {
    hide Held, Queued, InFlight;
    CallerMoves(s.callers, i, CloseStep(s, i, error).callers[i], item);
  }

  lemma ActKeepsCustody(c: Config, s: State, i: nat, item: Item)
    requires c.Valid() && Safe(c, s) && CanAct(s, i) && InCustody(s, item)
    ensures InCustody(ActStep(c, s, i), item)
  {
    hide InCustody, Safe, EnqueueStep, CloseStep, Goto, End, Idle;
    match s.callers[i].pc
    case Called =>
      MoveKeepsCustody(s, i, Returned, item);
      MoveKeepsCustody(s, i, Marking, item);
      MoveKeepsCustody(s, i, Sizing, item);
    case Marking => MoveKeepsCustody(s, i, Sizing, item);
    case Sizing =>
      MoveKeepsCustody(s, i, Taking, item);
      MoveKeepsCustody(s, i, Idling, item);
    case Holding(_) => EnqueueKeepsCustody(c, s, i, item);
    case Waiting =>
      var error := s.pool.tasks[s.callers[i].task.value].error;
      MoveKeepsCustody(s, i, Idling, item);
      MoveKeepsCustody(s, i, Closing(error), item);
      MoveKeepsCustody(s, i, Raised(if error.Some? then error.value else ""), item);
    case Idling =>
      MoveKeepsCustody(s, i, Closing(None), item);
      MoveKeepsCustody(s, i, Returned, item);
    case Taking => TakingKeepsCustody(c, s, i, item);
    case Closing(error) => ClosingKeepsCustody(s, i, error, item);
    case _ =>
  }

  lemma SendKeepsCustody(c: Config, s: State, w: nat, error: Option<Error>, item: Item)
    requires WorkerAt(s.pool, w) && s.pool.workers[w].pc == Sending && InCustody(s, item)
    ensures InCustody(SendStep(c, s, w, error), item)
  {
    hide Held, Queued, InFlight;
    WorkerMoves(s.pool, SendStep(c, s, w, error).pool, w, item);
  }

  /** The pool changes without an entry being sent. */
  lemma PoolMoves(s: State, pool: Pool, item: Item)
    requires InCustody(s, item)
    requires Queued(pool, item) + InFlight(pool, item) == Queued(s.pool, item) + InFlight(s.pool, item)
    ensures InCustody(s.(pool := pool), item)
  {
    hide Held, Queued, InFlight;
  }

  lemma WorkerStepKeepsCustody(c: Config, s: State, step: Step, item: Item)
    requires c.Valid() && Safe(c, s) && Enabled(c, s, step) && InCustody(s, item)
    requires !step.Log? && !step.Begin? && !step.Act?
    ensures InCustody(Apply(c, s, step), item)
  {
    hide Queued, InFlight, Sound, Pools.Release, CallersInformed, LockKnown, InCustody;
    hide SendStep, ActStep, LogStep, BeginStep;
    match step {
      case EndSend(w, error) => SendKeepsCustody(c, s, w, error, item);
      case EndUpdate(w, error) =>
        WorkerMoves(s.pool, Pools.EndUpdate(s.pool, w, error), w, item);
        PoolMoves(s, Pools.EndUpdate(s.pool, w, error), item);
      case Signal(w) =>
        WorkerMoves(s.pool, Pools.Signal(s.pool, w), w, item);
        PoolMoves(s, Pools.Signal(s.pool, w), item);
      case Release(w) =>
        ReleaseKeepsBatches(c.maxConcurrent, s.pool, w, item);
        PoolMoves(s, Pools.Release(c.maxConcurrent, s.pool, w), item);
    }
  }

  lemma StepKeepsCustody(c: Config, s: State, step: Step, item: Item)
    requires c.Valid() && Safe(c, s) && Enabled(c, s, step) && InCustody(s, item)
    ensures InCustody(Apply(c, s, step), item)
  {
    hide InCustody, Safe, ActStep, LogStep, SendStep, BeginStep;
    match step
    case Log(entry, now) => LogKeepsCustody(c, s, entry, now, item);
    case Begin(kind) => BeginKeepsCustody(s, kind, item);
    case Act(i) => ActKeepsCustody(c, s, i, item);
    case _ => WorkerStepKeepsCustody(c, s, step, item);
  }

  lemma {:induction false} RunKeepsCustody(c: Config, s: State, steps: seq<Step>, item: Item)
    requires c.Valid() && Safe(c, s) && InCustody(s, item) && Legal(c, s, steps)
    ensures InCustody(Run(c, s, steps), item)
    decreases |steps|
  {
    hide Apply, Enabled, Safe, InCustody;
    if steps == [] {
    } else {
      StepKeepsSafe(c, s, steps[0]);
      StepKeepsCustody(c, s, steps[0], item);
      RunKeepsCustody(c, Apply(c, s, steps[0]), steps[1..], item);
    }
  }

  lemma CustodyHolds(c: Config, s: State, item: Item)
    requires c.Valid() && Reachable(c, s)
    ensures InCustody(s, item)
  {
    hide Apply, Enabled;
    var steps: seq<Step> :| Legal(c, INITIAL, steps) && Run(c, INITIAL, steps) == s;
    assert InCustody(INITIAL, item) && Safe(c, INITIAL);
    RunKeepsCustody(c, INITIAL, steps, item);
  }

  // -------------------------------------------------------------------------------------------
  // Main results

  /** Every accepted entry is in exactly one place, once. */
  lemma ExactlyOnePlace(c: Config, s: State, item: Item)
    requires c.Valid() && Reachable(c, s) && item in s.books.accepted
    ensures item !in s.books.ignored
    ensures exists place :: Occurrences(s, place, item) == 1 &&
                            forall other :: other != place ==> Occurrences(s, other, item) == 0
  {
    hide Reachable, Held, Queued, InFlight;
    CustodyHolds(c, s, item);
    assert Everywhere(s, item) == 1;
    if place: Place :| Occurrences(s, place, item) == 1 {
      assert forall other :: other != place ==> Occurrences(s, other, item) == 0;
    }
  }

  /** An entry the buffer did not accept is nowhere. */
  lemma NothingFromNowhere(c: Config, s: State, item: Item, place: Place)
    requires c.Valid() && Reachable(c, s) && item !in s.books.accepted
    ensures Occurrences(s, place, item) == 0
  {
    hide Reachable, Held, Queued, InFlight;
    CustodyHolds(c, s, item);
  }

  /** With an idle pool and no caller holding a batch, no entry is between the buffer and its end. */
  lemma NothingOnItsWay(c: Config, s: State, item: Item)
    requires c.Valid() && Reachable(c, s) && Idle(s.pool)
    requires forall i :: 0 <= i < |s.callers| ==> !s.callers[i].pc.Holding?
    ensures Held(s.callers, item) == 0 && Queued(s.pool, item) == 0 && InFlight(s.pool, item) == 0
  {
    hide Apply, Enabled, Reachable, LiveCount, Sum, BatchBag;
    ReachableIsSafe(c, s);
    LiveCountZero(s.pool.workers);
    assert forall w :: 0 <= w < |s.pool.workers| ==> WorkerBag(s.pool.batches, s.pool.workers[w]) == multiset{};
    SumNothing(CallerBags(s.callers), item);
    SumNothing(QueueBags(s.pool.batches, s.pool.lanes.queue), item);
    SumNothing(WorkerBags(s.pool.batches, s.pool.workers), item);
  }

  /** Once the buffer is destroyed, the queue drained and no caller holds a batch, each accepted entry
      has been sent, has failed, was dropped by a limit, or was cleared with the buffer. */
  lemma NothingLostAtShutdown(c: Config, s: State)
    requires c.Valid() && Reachable(c, s) && s.bufferDestroyed && Idle(s.pool)
    requires forall i :: 0 <= i < |s.callers| ==> !s.callers[i].pc.Holding?
    ensures s.books.accepted == s.books.sent + s.books.failed + s.books.dropped + s.books.cleared
  {
    hide Reachable, Held, Queued, InFlight, Idle;
    forall item
      ensures s.books.accepted[item] == (s.books.sent + s.books.failed + s.books.dropped + s.books.cleared)[item]
    {
      CustodyHolds(c, s, item);
      NothingOnItsWay(c, s, item);
    }
  }
}
