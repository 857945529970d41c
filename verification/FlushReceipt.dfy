/** The books of sent and failed entries agree with what the workers' sends came to. */
module FlushReceipts {
  import opened Prelude
  import opened MemoryAccounting
  import Pools = FlushPools
  import opened FlushPools
  import opened FlushInterleavings
  import Timers = FlushTimers

  /** What a step does to the workers and their batches: it adds to them, and only the end
      of its send takes a worker out of it. */
  predicate Moves(p: Pool, p': Pool, step: Step) {
    && |p.workers| <= |p'.workers| && |p.batches| <= |p'.batches| && p'.batches[..|p.batches|] == p.batches
    && (forall w :: 0 <= w < |p.workers| ==>
          if step.EndSend? && step.w == w then
            p'.workers[w].pc != Sending && p'.workers[w].sendError == step.error
          else if p.workers[w].pc == Sending then p'.workers[w] == p.workers[w]
          else p'.workers[w].pc != Sending && p'.workers[w].sendError == p.workers[w].sendError)
    && forall w :: |p.workers| <= w < |p'.workers| ==> p'.workers[w].pc == Sending
  }

  lemma EnqueueMoves(max: nat, p: Pool, owner: nat, batch: seq<Item>, step: Step)
    requires max >= 1 && Sound(max, p) && !step.EndSend?
    ensures Moves(p, Enqueue(max, p, owner, batch), step)
  {
    hide Enqueue, Sound;
    EnqueueKeepsSafe(max, p, owner, batch);
    Timers.EnqueueLeavesWorkers(max, p, owner, batch);
  }

  lemma ReleaseMoves(max: nat, p: Pool, w: nat, step: Step)
    requires WorkerAt(p, w) && p.workers[w].pc.Releasing? && !step.EndSend?
    ensures Moves(p, Pools.Release(max, p, w), step)
  {
    hide Pools.Release;
    Timers.ReleaseLeavesWorkers(max, p, w);
    ReleaseLeavesBatches(max, p, w);
  }

  lemma ActMoves(c: Config, s: State, i: nat)
    requires c.Valid() && Safe(c, s) && CanAct(s, i)
    ensures Moves(s.pool, ActStep(c, s, i).pool, Step.Act(i))
  {
    hide CallersInformed, LockKnown, Sound, Enqueue, Idle;
    if s.callers[i].pc.Holding? {
      EnqueueMoves(c.maxConcurrent, s.pool, i, s.callers[i].pc.batch, Step.Act(i));
    }
  }

  lemma StepMoves(c: Config, s: State, step: Step)
    requires c.Valid() && Safe(c, s) && Enabled(c, s, step)
    ensures Moves(s.pool, Apply(c, s, step).pool, step)
  {
    hide Safe, ActStep, LogStep, Pools.Release, CanAct;
    match step {
      case Act(i) => ActMoves(c, s, i);
      case Release(w) => ReleaseMoves(c.maxConcurrent, s.pool, w, step);
      case Log(_, _) => LogLeavesPool(c, s, step.item, step.now);
      case _ =>
    }
  }

  lemma LogLeavesPool(c: Config, s: State, item: Item, now: real)
    ensures LogStep(c, s, item, now).pool == s.pool
  {
  }

  lemma ReleaseLeavesBatches(max: nat, p: Pool, w: nat)
    requires WorkerAt(p, w) && p.workers[w].pc.Releasing?
    ensures Pools.Release(max, p, w).batches == p.batches
  {
    hide Rules.Dispatch;
  }

  // -------------------------------------------------------------------------------------------
  // Receipts

  /** A send with the entry in its batch has ended, with or without an error. */
  predicate Settles(p: Pool, w: nat, well: bool, item: Item) {
    && w < |p.workers| && w < |p.batches| && item in p.batches[w]
    && p.workers[w].pc != Sending && p.workers[w].sendError.None? == well
  }

  ghost predicate Receipted(p: Pool, books: Books, item: Item) {
    && (item in books.sent <==> exists w :: Settles(p, w, true, item))
    && (item in books.failed <==> exists w :: Settles(p, w, false, item))
  }

  predicate Sized(p: Pool, step: Step) {
    && |p.workers| <= |p.batches|
    && (step.EndSend? ==> step.w < |p.workers| && p.workers[step.w].pc == Sending)
  }

  /** Only the end of a send settles anything, and that for its own batch. */
  lemma MovesSettle(p: Pool, p': Pool, step: Step, w: nat, well: bool, item: Item)
    requires Moves(p, p', step) && Sized(p, step)
    ensures Settles(p', w, well, item) <==>
            Settles(p, w, well, item)
            || (step.EndSend? && step.w == w && step.error.None? == well && item in p.batches[w])
  {
    if w < |p.workers| {
      assert p'.batches[..|p.batches|][w] == p'.batches[w];
    }
  }

  lemma MovesReceipt(p: Pool, p': Pool, step: Step, well: bool, item: Item)
    requires Moves(p, p', step) && Sized(p, step)
    ensures (exists w :: Settles(p', w, well, item)) <==>
            (exists w :: Settles(p, w, well, item))
            || (step.EndSend? && step.error.None? == well && item in p.batches[step.w])
  {
    hide Moves, Settles;
    if w :| Settles(p', w, well, item) {
      MovesSettle(p, p', step, w, well, item);
    }
    if w :| Settles(p, w, well, item) {
      MovesSettle(p, p', step, w, well, item);
    }
    if step.EndSend? {
      MovesSettle(p, p', step, step.w, well, item);
    }
  }

  lemma StepBooks(c: Config, s: State, step: Step, item: Item)
    requires Safe(c, s) && Enabled(c, s, step)
    ensures Sized(s.pool, step)
    ensures var s' := Apply(c, s, step);
            && (item in s'.books.sent <==>
                  item in s.books.sent || (step.EndSend? && step.error.None? && item in s.pool.batches[step.w]))
            && (item in s'.books.failed <==>
                  item in s.books.failed || (step.EndSend? && step.error.Some? && item in s.pool.batches[step.w]))
  {
    hide Pools.Enqueue, Pools.EndSend, Pools.EndUpdate, Pools.Signal, Pools.Release;
    hide Idle, LiveCount, CallersInformed, LockKnown;
  }

  lemma StepKeepsReceipted(c: Config, s: State, step: Step, item: Item)
    requires c.Valid() && Safe(c, s) && Enabled(c, s, step) && Receipted(s.pool, s.books, item)
    ensures Receipted(Apply(c, s, step).pool, Apply(c, s, step).books, item)
  {
    hide Apply, Enabled, Safe, Moves, Settles;
    StepMoves(c, s, step);
    StepBooks(c, s, step, item);
    MovesReceipt(s.pool, Apply(c, s, step).pool, step, true, item);
    MovesReceipt(s.pool, Apply(c, s, step).pool, step, false, item);
  }

  lemma {:induction false} RunKeepsReceipted(c: Config, s: State, steps: seq<Step>, item: Item)
    requires c.Valid() && Safe(c, s) && Legal(c, s, steps) && Receipted(s.pool, s.books, item)
    ensures Receipted(Run(c, s, steps).pool, Run(c, s, steps).books, item)
    decreases |steps|
  {
    hide Apply, Enabled, Safe, Receipted;
    if steps == [] {
    } else {
      StepKeepsSafe(c, s, steps[0]);
      StepKeepsReceipted(c, s, steps[0], item);
      RunKeepsReceipted(c, Apply(c, s, steps[0]), steps[1..], item);
    }
  }

  /** An entry has been sent if and only if a batch with it was sent without an error, and has failed if and
      only if such a send ended with one. */
  lemma ReceiptLaw(c: Config, s: State, item: Item)
    requires c.Valid() && Reachable(c, s)
    ensures |s.pool.workers| <= |s.pool.batches|
    ensures item in s.books.sent <==>
            exists w :: 0 <= w < |s.pool.workers| && s.pool.workers[w].pc != Sending
                        && s.pool.workers[w].sendError == None && item in s.pool.batches[w]
    ensures item in s.books.failed <==>
            exists w :: 0 <= w < |s.pool.workers| && s.pool.workers[w].pc != Sending
                        && s.pool.workers[w].sendError.Some? && item in s.pool.batches[w]
  {
    hide Apply, Enabled;
    ReachableIsSafe(c, s);
    var steps: seq<Step> :| Legal(c, INITIAL, steps) && Run(c, INITIAL, steps) == s;
    assert Safe(c, INITIAL) && Receipted(INITIAL.pool, INITIAL.books, item);
    RunKeepsReceipted(c, INITIAL, steps, item);
    if w: nat :| Settles(s.pool, w, true, item) {
      assert s.pool.workers[w].sendError == None;
    }
    if w: nat :| Settles(s.pool, w, false, item) {
      assert s.pool.workers[w].sendError.Some?;
    }
    forall w: nat | w < |s.pool.workers| && s.pool.workers[w].pc != Sending && item in s.pool.batches[w]
      ensures Settles(s.pool, w, s.pool.workers[w].sendError == None, item)
    {
    }
  }

  /** While a timer flush runs, no other call looks into the buffer, takes from it or clears it, no entry
      comes in and no metrics are updated. */
  lemma TimerFlushExcludes(c: Config, s: State, i: nat, step: Step)
    requires c.Valid() && Reachable(c, s) && Enabled(c, s, step)
    requires i < |s.callers| && s.callers[i].kind == TimerFlush && !s.callers[i].Finished()
    ensures !step.Log? && !step.EndUpdate? && step != Begin(TimerFlush)
    ensures step.Act? && step.i != i ==>
              step.i < |s.callers| && s.callers[step.i].kind != TimerFlush
              && !s.callers[step.i].pc.Sizing? && !s.callers[step.i].pc.Taking? && !s.callers[step.i].pc.Closing?
  {
    hide Apply, Reachable, Sound, CallersInformed, Idle;
    ReachableIsSafe(c, s);
  }
}
