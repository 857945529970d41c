/**
  What a caller of `flush` may conclude from its outcome. With metrics whose update can raise, it can
  raise although its batch was sent; without, it raises exactly when its own send failed.
 */
module FlushOutcomes {
  import opened Prelude
  import BufferPolicy
  import Pools = FlushPools
  import opened FlushPools
  import opened FlushInterleavings
  import opened FlushProgress
  import opened FlushTimers
  import opened FlushDeadlocks
  import opened FlushCrews

  /** A caller that raised exactly if the send of its own batch had failed. */
  predicate Truthful(s: State, i: nat) {
    i < |s.callers| && s.callers[i].Finished() && s.callers[i].task.Some? ==>
      && s.callers[i].task.value < |s.pool.workers|
      && (s.callers[i].pc.Raised? <==> s.pool.workers[s.callers[i].task.value].sendError.Some?)
  }

  /** Its batch is with a worker that is sending it. */
  predicate BatchIsSending(s: State, i: nat) {
    && i < |s.callers| && s.callers[i].kind == Flush && s.callers[i].pc == Waiting && s.callers[i].task.Some?
    && s.callers[i].task.value < |s.pool.workers|
    && s.pool.workers[s.callers[i].task.value].pc == Sending
  }

  const UPDATE_ERROR: Error := "metrics"

  /** Whoever waits for a batch being sent can be made to raise by metrics that fail after a good send. */
  lemma UpdateErrorRaises(c: Config, s: State, i: nat) returns (s': State)
    requires c.Valid() && c.metricsEnabled && c.updatesCanFail && Reachable(c, s)
    requires s.lockHolder == None && BatchIsSending(s, i)
    ensures Reachable(c, s') && i < |s'.callers| && s'.callers[i].pc == Raised(UPDATE_ERROR)
    ensures var t := s.callers[i].task.value;
            s'.callers[i].task == Some(t) && t < |s'.pool.workers| && s'.pool.workers[t].sendError.None?
    ensures !Truthful(s', i)
  {
    hide Reachable, Safe, Apply, Enabled, Pools.EndSend, Pools.EndUpdate, Pools.Signal;
    var t := s.callers[i].task.value;
    ReachableIsSafe(c, s);
    SendingWorker(c, s, i);
    UpdateFails(c, s, t);
    var s1 := SendStep(c, s, t, None);
    var s2 := s1.(pool := Pools.EndUpdate(s1.pool, t, Some(UPDATE_ERROR)));
    var s3 := s2.(pool := Pools.Signal(s2.pool, t));
    Extend(c, s, Step.EndSend(t, None));
    Extend(c, s1, Step.EndUpdate(t, Some(UPDATE_ERROR)));
    Extend(c, s2, Step.Signal(t));
    s' := End(s3, i, Raised(UPDATE_ERROR));
    ApplyAct(c, s3, i);
    Extend(c, s3, Act(i));
  }

  lemma Extend(c: Config, s: State, step: Step)
    requires Reachable(c, s) && Enabled(c, s, step)
    ensures Reachable(c, Apply(c, s, step))
  {
    hide Apply, Enabled, Reachable;
    RunOne(c, s, step);
    ReachableRun(c, s, [step]);
  }

  lemma SendingWorker(c: Config, s: State, i: nat)
    requires Safe(c, s) && BatchIsSending(s, i)
    ensures WorkerAt(s.pool, s.callers[i].task.value)
    ensures s.pool.workers[s.callers[i].task.value] == Worker(s.callers[i].task.value, Sending, None, None)
  {
    assert Reports(s.pool.tasks[s.callers[i].task.value], s.pool.workers[s.callers[i].task.value]);
  }

  /** What a good send followed by a failing update does to the pool. */
  lemma UpdateFails(c: Config, s: State, t: nat)
    requires c.metricsEnabled && c.updatesCanFail && s.lockHolder == None
    requires WorkerAt(s.pool, t) && s.pool.workers[t] == Worker(t, Sending, None, None)
    ensures Enabled(c, s, Step.EndSend(t, None)) && Apply(c, s, Step.EndSend(t, None)) == SendStep(c, s, t, None)
    ensures var s1 := SendStep(c, s, t, None);
            && WorkerAt(s1.pool, t) && Enabled(c, s1, Step.EndUpdate(t, Some(UPDATE_ERROR)))
            && s1.callers == s.callers && s1.lockHolder == None
            && var s2 := s1.(pool := Pools.EndUpdate(s1.pool, t, Some(UPDATE_ERROR)));
               && Apply(c, s1, Step.EndUpdate(t, Some(UPDATE_ERROR))) == s2
               && WorkerAt(s2.pool, t) && s2.pool.workers[t].pc.Signalling? && Enabled(c, s2, Step.Signal(t))
               && var s3 := s2.(pool := Pools.Signal(s2.pool, t));
                  && Apply(c, s2, Step.Signal(t)) == s3
                  && t < |s3.pool.tasks| && Settled(s3.pool.tasks[t], Some(UPDATE_ERROR))
                  && t < |s3.pool.workers| && s3.pool.workers[t].sendError.None?
  {
  }

  lemma FirstFlush(c: Config) returns (s: State)
    requires c.Valid() && c.buffer.HasRoom()
    ensures Reachable(c, s) && s.lockHolder == None && BatchIsSending(s, 0)
  {
    s := BusyCrew(c, 1);
  }

  ghost predicate EveryOutcomeIsTruthful(c: Config) {
    forall s, i: nat :: Reachable(c, s) ==> Truthful(s, i)
  }

  /** Can an error of the metrics reach a caller whose batch was sent? */
  predicate UpdatesMislead(c: Config) {
    c.metricsEnabled && c.updatesCanFail && c.buffer.HasRoom()
  }

  /** In every reachable state every caller's outcome tells what became of its own send, exactly if
      metrics are off, their update never raises, or the buffer has no room for an entry. */
  lemma EveryOutcomeIsTruthfulIff(c: Config)
    requires c.Valid()
    ensures EveryOutcomeIsTruthful(c) <==> !UpdatesMislead(c)
  {
    if UpdatesMislead(c) {
      var s := FirstFlush(c);
      var s' := UpdateErrorRaises(c, s, 0);
    } else {
      forall s, i: nat | Reachable(c, s)
        ensures Truthful(s, i)
      {
        OutcomeIsTruthful(c, s, i);
      }
    }
  }

  predicate NoUpdateErrors(workers: seq<Worker>) {
    forall w :: 0 <= w < |workers| ==> workers[w].updateError.None?
  }

  lemma StepKeepsNoUpdateErrors(c: Config, s: State, step: Step)
    requires !c.updatesCanFail && NoUpdateErrors(s.pool.workers) && Enabled(c, s, step)
    ensures NoUpdateErrors(Apply(c, s, step).pool.workers)
  {
    hide Pools.Enqueue, Pools.Release, BufferPolicy.AfterAdd, Idle;
    match step
    case Release(w) => ReleaseLeavesWorkers(c.maxConcurrent, s.pool, w);
    case Act(i) =>
      if s.callers[i].pc.Holding? {
        EnqueueLeavesWorkers(c.maxConcurrent, s.pool, i, s.callers[i].pc.batch);
      }
    case _ =>
  }

  lemma {:induction false} RunKeepsNoUpdateErrors(c: Config, s: State, steps: seq<Step>)
    requires !c.updatesCanFail && NoUpdateErrors(s.pool.workers) && Legal(c, s, steps)
    ensures NoUpdateErrors(Run(c, s, steps).pool.workers)
    decreases |steps|
  {
    hide Apply, Enabled, NoUpdateErrors;
    if steps == [] {
    } else {
      StepKeepsNoUpdateErrors(c, s, steps[0]);
      RunKeepsNoUpdateErrors(c, Apply(c, s, steps[0]), steps[1..]);
    }
  }

  lemma ReachableHasNoUpdateErrors(c: Config, s: State)
    requires Reachable(c, s) && (!c.metricsEnabled || !c.updatesCanFail)
    ensures NoUpdateErrors(s.pool.workers)
  {
    hide Apply, Enabled;
    if !c.metricsEnabled {
      ReachableHasNoUpdates(c, s);
    } else {
      var steps: seq<Step> :| Legal(c, INITIAL, steps) && Run(c, INITIAL, steps) == s;
      RunKeepsNoUpdateErrors(c, INITIAL, steps);
    }
  }

  lemma OutcomeIsTruthful(c: Config, s: State, i: nat)
    requires c.Valid() && !UpdatesMislead(c) && Reachable(c, s)
    ensures Truthful(s, i)
  {
    ReachableIsHarmless(c, s);
    if i < |s.callers| && s.callers[i].Finished() {
      OwnOutcome(c, s, i);
      hide Reachable;
      if c.buffer.HasRoom() {
        ReachableHasNoUpdateErrors(c, s);
      }
    }
  }
}
