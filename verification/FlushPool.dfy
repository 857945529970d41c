/**
  The batches handed to the scheduler and the workers that send them: everything the queue's lock
  guards, together with the private progress of each worker.
 */
module FlushPools {
  import opened Prelude
  import opened MemoryAccounting
  import Rules = FlushRules
  import opened FlushRules

  type Error = string

  /** What a batch's caller waits for. */
  datatype Task = Task(owner: nat, signalled: bool, error: Option<Error>)

  /** A worker sends, brings the metrics up to date if the send went well, tells the caller, and gives
      its slot back. */
  datatype WorkerPc =
    | Sending
    | Updating
    | Signalling(error: Option<Error>)
    | Releasing(error: Option<Error>)
    | Exited(error: Option<Error>)

  datatype Worker = Worker(task: nat, pc: WorkerPc, sendError: Option<Error>, updateError: Option<Error>)

  /** `batches[t]` is what task `t` carries. */
  datatype Pool = Pool(lanes: Lanes, batches: seq<seq<Item>>, tasks: seq<Task>, workers: seq<Worker>)

  const EMPTY := Pool(Lanes([], 0, []), [], [], [])

  predicate Idle(p: Pool) {
    !(p.lanes.inFlight > 0 || p.lanes.queue != [])
  }

  predicate WorkerAt(p: Pool, w: nat) {
    w < |p.workers| && p.workers[w].task < |p.tasks| == |p.batches|
  }

  function Launch(tasks: seq<nat>): seq<Worker> {
    seq(|tasks|, i requires 0 <= i < |tasks| => Worker(tasks[i], Sending, None, None))
  }

  /** The queue's fields change and a worker is started for each batch that left the queue. */
  function SetLanes(p: Pool, lanes: Lanes): Pool
    requires |p.lanes.started| <= |lanes.started|
  {
    p.(lanes := lanes, workers := p.workers + Launch(lanes.started[|p.lanes.started|..]))
  }

  /** `_enqueue_flush` up to its wait. */
  function Enqueue(max: nat, p: Pool, owner: nat, batch: seq<Item>): Pool {
    DispatchStartsPrefix(max, p.lanes.(queue := p.lanes.queue + [|p.tasks|]));
    SetLanes(p.(batches := p.batches + [batch], tasks := p.tasks + [Task(owner, false, None)]),
             Rules.Enqueue(max, p.lanes, |p.tasks|))
  }

  function SetWorker(p: Pool, w: nat, worker: Worker): Pool
    requires w < |p.workers|
  {
    p.(workers := p.workers[w := worker])
  }

  /** The send ends; a failed one skips the metrics. */
  function EndSend(metricsEnabled: bool, p: Pool, w: nat, error: Option<Error>): Pool
    requires WorkerAt(p, w)
  {
    var pc := if error.None? && metricsEnabled then Updating else Signalling(error);
    SetWorker(p, w, p.workers[w].(pc := pc, sendError := error))
  }

  function EndUpdate(p: Pool, w: nat, error: Option<Error>): Pool
    requires WorkerAt(p, w)
  {
    SetWorker(p, w, p.workers[w].(pc := Signalling(error), updateError := error))
  }

  function Signal(p: Pool, w: nat): Pool
    requires WorkerAt(p, w) && p.workers[w].pc.Signalling?
  {
    var t, error := p.workers[w].task, p.workers[w].pc.error;
    SetWorker(p, w, p.workers[w].(pc := Releasing(error)))
      .(tasks := p.tasks[t := p.tasks[t].(signalled := true, error := error)])
  }

  function Release(max: nat, p: Pool, w: nat): Pool
    requires WorkerAt(p, w) && p.workers[w].pc.Releasing?
  {
    DispatchStartsPrefix(max, p.lanes.(inFlight := Max(0, p.lanes.inFlight - 1)));
    SetLanes(SetWorker(p, w, p.workers[w].(pc := Exited(p.workers[w].pc.error))), Rules.Release(max, p.lanes))
  }

  // -------------------------------------------------------------------------------------------
  // Live workers

  predicate Live(w: Worker) {
    !w.pc.Exited?
  }

  function LiveCount(workers: seq<Worker>): nat {
    if workers == [] then 0
    else LiveCount(workers[..|workers| - 1]) + if Live(workers[|workers| - 1]) then 1 else 0
  }

  lemma {:induction false} LiveCountLaunch(workers: seq<Worker>, tasks: seq<nat>)
    ensures LiveCount(workers + Launch(tasks)) == LiveCount(workers) + |tasks|
  {
    if tasks == [] {
      assert workers + Launch(tasks) == workers;
    } else {
      var before := tasks[..|tasks| - 1];
      LiveCountLaunch(workers, before);
      assert (workers + Launch(tasks))[..|workers| + |before|] == workers + Launch(before);
    }
  }

  lemma {:induction false} LiveCountUpdate(workers: seq<Worker>, i: nat, w: Worker)
    requires i < |workers|
    ensures LiveCount(workers[i := w]) + (if Live(workers[i]) then 1 else 0) ==
            LiveCount(workers) + if Live(w) then 1 else 0
  {
    var before := workers[..|workers| - 1];
    if i == |before| {
      assert workers[i := w][..|before|] == before;
    } else {
      LiveCountUpdate(before, i, w);
      assert workers[i := w][..|before|] == before[i := w];
    }
  }

  lemma {:induction false} LiveCountWitness(workers: seq<Worker>) returns (w: nat)
    requires LiveCount(workers) > 0
    ensures w < |workers| && Live(workers[w])
  {
    if Live(workers[|workers| - 1]) {
      w := |workers| - 1;
    } else {
      w := LiveCountWitness(workers[..|workers| - 1]);
    }
  }

  lemma {:induction false} LiveCountZero(workers: seq<Worker>)
    requires LiveCount(workers) == 0
    ensures forall w :: 0 <= w < |workers| ==> !Live(workers[w])
  {
    if workers == [] {
    } else {
      LiveCountZero(workers[..|workers| - 1]);
    }
  }

  // -------------------------------------------------------------------------------------------
  // The invariant

  /** Batches start in the order they were queued, each with a worker of its own. */
  predicate Lined(p: Pool) {
    && |p.batches| == |p.tasks| == |p.workers| + |p.lanes.queue|
    && |p.lanes.started| == |p.workers|
    && (forall w :: 0 <= w < |p.workers| ==> p.workers[w].task == w && p.lanes.started[w] == w)
    && (forall k :: 0 <= k < |p.lanes.queue| ==> p.lanes.queue[k] == |p.workers| + k)
  }

  /** The slot counter is the number of live workers, and the limit is kept without idling. */
  predicate Scheduled(max: nat, p: Pool) {
    Lined(p) && p.lanes.inFlight == LiveCount(p.workers) && WorkConserving(max, p.lanes)
  }

  /** The outcome a worker has settled on. */
  function Verdict(w: Worker): Option<Error> {
    if w.sendError.Some? then w.sendError else w.updateError
  }

  predicate Settled(task: Task, error: Option<Error>) {
    task.signalled && task.error == error
  }

  /** A task is signalled once its worker has got that far, and with the worker's own outcome. */
  predicate Reports(task: Task, w: Worker) {
    match w.pc
    case Sending => !task.signalled && w.sendError == None == w.updateError
    case Updating => !task.signalled && w.sendError == None == w.updateError
    case Signalling(error) => !task.signalled && error == Verdict(w)
    case Releasing(error) => Settled(task, error) && error == Verdict(w)
    case Exited(error) => Settled(task, error) && error == Verdict(w)
  }

  predicate Reported(p: Pool) {
    && |p.workers| <= |p.tasks|
    && (forall w :: 0 <= w < |p.workers| ==> Reports(p.tasks[w], p.workers[w]))
    && (forall t :: |p.workers| <= t < |p.tasks| ==> !p.tasks[t].signalled)
  }

  predicate Sound(max: nat, p: Pool) {
    Scheduled(max, p) && Reported(p)
  }

  /** The workers a locked section starts carry the tasks next in line. */
  lemma LaunchKeepsSafe(max: nat, p: Pool, lanes: Lanes, k: nat)
    requires Lined(p) && Reported(p) && k <= |p.lanes.queue|
    requires lanes == Lanes(p.lanes.queue[k..], LiveCount(p.workers) + k, p.lanes.started + p.lanes.queue[..k])
    requires WorkConserving(max, lanes)
    ensures Sound(max, SetLanes(p, lanes))
  {
    hide LiveCount;
    var q := SetLanes(p, lanes);
    assert lanes.started[|p.lanes.started|..] == p.lanes.queue[..k];
    LiveCountLaunch(p.workers, p.lanes.queue[..k]);
    assert Lined(q);
    assert Reported(q);
  }

  function Append(p: Pool, owner: nat, batch: seq<Item>): Pool {
    p.(lanes := p.lanes.(queue := p.lanes.queue + [|p.tasks|]),
       batches := p.batches + [batch], tasks := p.tasks + [Task(owner, false, None)])
  }

  lemma AppendKeepsLined(p: Pool, owner: nat, batch: seq<Item>)
    requires Lined(p) && Reported(p)
    ensures Lined(Append(p, owner, batch)) && Reported(Append(p, owner, batch))
  {
  }

  lemma EnqueueKeepsSafe(max: nat, p: Pool, owner: nat, batch: seq<Item>)
    requires max >= 1 && Sound(max, p)
    ensures var p' := Enqueue(max, p, owner, batch);
            && Sound(max, p')
            && p'.tasks == p.tasks + [Task(owner, false, None)]
            && p'.batches == p.batches + [batch]
            && |p.workers| <= |p'.workers| && p'.workers[..|p.workers|] == p.workers
  {
    hide Dispatch, Lined, Reported, LiveCount;
    var q := Append(p, owner, batch);
    AppendKeepsLined(p, owner, batch);
    EnqueueKeepsWorkConserving(max, p.lanes, |p.tasks|);
    DispatchStartsPrefix(max, q.lanes);
    var k := Max(0, Min(max - q.lanes.inFlight, |q.lanes.queue|));
    LaunchKeepsSafe(max, q, Rules.Enqueue(max, p.lanes, |p.tasks|), k);
  }

  /** A worker's own step that keeps it alive. */
  lemma MoveKeepsSafe(max: nat, p: Pool, w: nat, worker: Worker, task: Task)
    requires Sound(max, p) && w < |p.workers|
    requires worker.task == w && Live(worker) && Live(p.workers[w]) && Reports(task, worker)
    ensures Sound(max, SetWorker(p, w, worker).(tasks := p.tasks[w := task]))
  {
    LiveCountUpdate(p.workers, w, worker);
  }

  lemma EndSendKeepsSafe(max: nat, metricsEnabled: bool, p: Pool, w: nat, error: Option<Error>)
    requires Sound(max, p) && WorkerAt(p, w) && p.workers[w].pc == Sending
    ensures Sound(max, EndSend(metricsEnabled, p, w, error))
    ensures EndSend(metricsEnabled, p, w, error).tasks == p.tasks
  {
    assert p.tasks[w := p.tasks[w]] == p.tasks;
    MoveKeepsSafe(max, p, w, EndSend(metricsEnabled, p, w, error).workers[w], p.tasks[w]);
  }

  lemma EndUpdateKeepsSafe(max: nat, p: Pool, w: nat, error: Option<Error>)
    requires Sound(max, p) && WorkerAt(p, w) && p.workers[w].pc == Updating
    ensures Sound(max, EndUpdate(p, w, error))
    ensures EndUpdate(p, w, error).tasks == p.tasks
  {
    assert p.tasks[w := p.tasks[w]] == p.tasks;
    MoveKeepsSafe(max, p, w, EndUpdate(p, w, error).workers[w], p.tasks[w]);
  }

  lemma SignalKeepsSafe(max: nat, p: Pool, w: nat)
    requires Sound(max, p) && WorkerAt(p, w) && p.workers[w].pc.Signalling?
    ensures Sound(max, Signal(p, w))
    ensures w < |p.tasks| && !p.tasks[w].signalled && Signal(p, w).tasks == p.tasks[w := Signal(p, w).tasks[w]]
    ensures Signal(p, w).tasks[w] == p.tasks[w].(signalled := true, error := p.workers[w].pc.error)
  {
    MoveKeepsSafe(max, p, w, Signal(p, w).workers[w], Signal(p, w).tasks[w]);
  }

  /** The worker leaves; its slot is still counted. */
  function Exit(p: Pool, w: nat): Pool
    requires WorkerAt(p, w) && p.workers[w].pc.Releasing?
  {
    SetWorker(p, w, p.workers[w].(pc := Exited(p.workers[w].pc.error)))
  }

  lemma ExitKeepsLined(max: nat, p: Pool, w: nat)
    requires Sound(max, p) && WorkerAt(p, w) && p.workers[w].pc.Releasing?
    ensures Lined(Exit(p, w)) && Reported(Exit(p, w))
    ensures LiveCount(Exit(p, w).workers) == p.lanes.inFlight - 1
  {
    LiveCountUpdate(p.workers, w, Exit(p, w).workers[w]);
  }

  /** A worker that gives its slot back has one to give: the clamp at zero changes nothing. */
  lemma ReleaseKeepsSafe(max: nat, p: Pool, w: nat)
    requires max >= 1 && Sound(max, p) && WorkerAt(p, w) && p.workers[w].pc.Releasing?
    ensures p.lanes.inFlight >= 1
    ensures var p' := Release(max, p, w);
            && Sound(max, p') && p'.tasks == p.tasks && p'.batches == p.batches
            && |p.workers| <= |p'.workers|
            && |p'.lanes.queue| + p'.lanes.inFlight == |p.lanes.queue| + p.lanes.inFlight - 1
  {
    hide Dispatch, Lined, Reported, LiveCount;
    ExitKeepsLined(max, p, w);
    ReleaseKeepsWorkConserving(max, p.lanes);
    var freed := p.lanes.(inFlight := p.lanes.inFlight - 1);
    DispatchStartsPrefix(max, freed);
    LaunchKeepsSafe(max, Exit(p, w), Rules.Release(max, p.lanes), Max(0, Min(max - freed.inFlight, |freed.queue|)));
  }
}
