/**
  What shutting down delivers: a call past its test of the buffer has taken what was in it, so `destroy`
  clears only what came later, and what it found gets sent or fails.
 */
module FlushShutdowns {
  import opened Prelude
  import opened Subsequences
  import opened MemoryAccounting
  import BufferPolicy
  import Pools = FlushPools
  import opened FlushPools
  import opened FlushInterleavings
  import opened FlushProgress
  import opened FlushCustody

  // -------------------------------------------------------------------------------------------
  // What has left the buffer does not come back

  predicate Gone(s: State, item: Item) {
    item in s.books.accepted && item !in s.buffer
  }

  lemma LogKeepsGone(c: Config, s: State, entry: Item, now: real, item: Item)
    requires New(s, entry) && Gone(s, item)
    ensures Gone(LogStep(c, s, entry, now), item)
  {
    hide BufferPolicy.AfterAdd, Sub;
    if !s.bufferDestroyed {
      var kept := BufferPolicy.AfterAdd(c.buffer, s.buffer, entry, now);
      BufferPolicy.AfterAddIsSub(c.buffer, s.buffer, entry, now);
      SubMultiset(kept, s.buffer + [entry]);
      assert multiset(kept)[item] <= multiset(s.buffer + [entry])[item];
      assert item in kept ==> multiset(kept)[item] >= 1;
    }
  }

  lemma StepKeepsGone(c: Config, s: State, step: Step, item: Item)
    requires Enabled(c, s, step) && Gone(s, item)
    ensures Gone(Apply(c, s, step), item)
  {
    hide BufferPolicy.AfterAdd, Pools.Enqueue, Pools.EndSend, Pools.EndUpdate, Pools.Signal, Pools.Release, Idle;
    if step.Log? {
      LogKeepsGone(c, s, step.item, step.now, item);
    }
  }

  lemma {:induction false} RunKeepsGone(c: Config, s: State, steps: seq<Step>, item: Item)
    requires Legal(c, s, steps) && Gone(s, item)
    ensures Gone(Run(c, s, steps), item)
    decreases |steps|
  {
    hide Apply, Enabled, Gone;
    if steps == [] {
    } else {
      StepKeepsGone(c, s, steps[0], item);
      RunKeepsGone(c, Apply(c, s, steps[0]), steps[1..], item);
    }
  }

  // -------------------------------------------------------------------------------------------
  // A call past its test

  predicate Testing(pc: CallerPc) {
    pc.Sizing? || pc.Taking?
  }

  /** Call `i` has come as far as its test, and when it is past it, `item` has left the buffer. */
  predicate Handled(s: State, i: nat, item: Item) {
    && i < |s.callers| && !s.callers[i].pc.Called? && !s.callers[i].pc.Marking?
    && item in s.books.accepted && (!Testing(s.callers[i].pc) ==> item !in s.buffer)
  }

  lemma OwnStepHandles(c: Config, s: State, i: nat, item: Item)
    requires CanAct(s, i) && Handled(s, i, item)
    ensures Handled(ActStep(c, s, i), i, item)
  {
    hide Pools.Enqueue, Idle;
  }

  lemma StepKeepsHandled(c: Config, s: State, step: Step, i: nat, item: Item)
    requires Enabled(c, s, step) && Handled(s, i, item)
    ensures Handled(Apply(c, s, step), i, item)
  {
    hide ActStep, BufferPolicy.AfterAdd, Pools.EndSend, Pools.EndUpdate, Pools.Signal, Pools.Release;
    if step == Act(i) {
      OwnStepHandles(c, s, i, item);
    } else {
      OthersLeaveCaller(c, s, step, i);
      StepKeepsAccepted(c, s, step, item);
      if item !in s.buffer {
        StepKeepsGone(c, s, step, item);
      }
    }
  }

  lemma StepKeepsAccepted(c: Config, s: State, step: Step, item: Item)
    requires Enabled(c, s, step) && item in s.books.accepted
    ensures item in Apply(c, s, step).books.accepted
  {
    hide BufferPolicy.AfterAdd, Pools.Enqueue, Pools.EndSend, Pools.EndUpdate, Pools.Signal, Pools.Release, Idle;
  }

  lemma {:induction false} RunKeepsHandled(c: Config, s: State, steps: seq<Step>, i: nat, item: Item)
    requires Legal(c, s, steps) && Handled(s, i, item)
    ensures Handled(Run(c, s, steps), i, item)
    decreases |steps|
  {
    hide Apply, Enabled, Handled;
    if steps == [] {
    } else {
      StepKeepsHandled(c, s, steps[0], i, item);
      RunKeepsHandled(c, Apply(c, s, steps[0]), steps[1..], i, item);
    }
  }

  lemma BufferedIsAccepted(c: Config, s: State, item: Item)
    requires c.Valid() && Reachable(c, s) && item in s.buffer
    ensures item in s.books.accepted && Occurrences(s, InBuffer, item) == 1
    ensures forall place :: place != InBuffer ==> Occurrences(s, place, item) == 0
  {
    hide Reachable, Held, Queued, InFlight;
    CustodyHolds(c, s, item);
    assert multiset(s.buffer)[item] >= 1;
  }

  /** A call of `flush` or `destroy` that got past its test of the buffer, whatever the interleaving, has
      left nothing in it of what was there at the test. */
  lemma TestedIsTaken(c: Config, s: State, steps: seq<Step>, i: nat, item: Item)
    requires c.Valid() && Reachable(c, s) && i < |s.callers| && s.callers[i].pc == Sizing && item in s.buffer
    requires Legal(c, s, steps)
    ensures i < |Run(c, s, steps).callers|
    ensures var pc := Run(c, s, steps).callers[i].pc;
            pc.Holding? || pc.Waiting? || pc.Idling? || pc.Closing? || pc.Returned? || pc.Raised? ==>
              item !in Run(c, s, steps).buffer
  {
    hide Reachable, Run, Legal;
    BufferedIsAccepted(c, s, item);
    RunKeepsHandled(c, s, steps, i, item);
  }

  /** So a `destroy` about to clear the buffer clears only entries accepted after its own test. */
  lemma ClosingClearsOnlyLate(c: Config, s: State, steps: seq<Step>, i: nat, item: Item)
    requires c.Valid() && Reachable(c, s) && i < |s.callers| && s.callers[i].pc == Sizing && Legal(c, s, steps)
    requires i < |Run(c, s, steps).callers| && Run(c, s, steps).callers[i].pc.Closing?
    requires item in Run(c, s, steps).buffer
    ensures item !in s.books.accepted
  {
    hide Reachable, Run, Legal;
    if item in s.books.accepted {
      if item in s.buffer {
        TestedIsTaken(c, s, steps, i, item);
      } else {
        RunKeepsGone(c, s, steps, item);
      }
    }
  }

  // -------------------------------------------------------------------------------------------
  // A lone destroy

  /** No entry comes in, and nobody else begins to destroy. */
  predicate LoneStep(step: Step) {
    !step.Log? && step != Begin(Destroy)
  }

  predicate LoneSteps(steps: seq<Step>) {
    forall k :: 0 <= k < |steps| ==> LoneStep(steps[k])
  }

  predicate LoneDestroyer(callers: seq<Caller>, i: nat) {
    && i < |callers| && callers[i].kind == Destroy
    && forall j :: 0 <= j < |callers| && j != i && callers[j].kind == Destroy ==> callers[j].Finished()
  }

  /** Only the one call destroys; past its test the buffer is empty; and so nothing is cleared or dropped. */
  predicate Lone(s: State, i: nat, cleared: multiset<Item>, dropped: multiset<Item>) {
    && LoneDestroyer(s.callers, i) && !s.callers[i].pc.Called? && !s.callers[i].pc.Marking?
    && (!Testing(s.callers[i].pc) ==> s.buffer == [])
    && s.books.cleared == cleared && s.books.dropped == dropped
  }

  lemma OwnStepIsLone(c: Config, s: State, i: nat, cleared: multiset<Item>, dropped: multiset<Item>)
    requires CanAct(s, i) && Lone(s, i, cleared, dropped)
    ensures Lone(ActStep(c, s, i), i, cleared, dropped)
  {
    hide Pools.Enqueue, Idle, CloseStep, WakeStep;
    match s.callers[i].pc {
      case Closing(error) => LoneCloses(s, i, error, cleared, dropped);
      case Waiting => LoneWakes(s, i, cleared, dropped);
      case _ =>
    }
  }

  lemma LoneCloses(s: State, i: nat, error: Option<Error>, cleared: multiset<Item>, dropped: multiset<Item>)
    requires Lone(s, i, cleared, dropped) && s.callers[i].pc.Closing?
    ensures Lone(CloseStep(s, i, error), i, cleared, dropped)
  {
  }

  lemma LoneWakes(s: State, i: nat, cleared: multiset<Item>, dropped: multiset<Item>)
    requires CanAct(s, i) && Lone(s, i, cleared, dropped) && s.callers[i].pc.Waiting?
    ensures Lone(WakeStep(s, i), i, cleared, dropped)
  {
    hide Pools.Enqueue;
  }

  lemma OtherActIsLone(c: Config, s: State, i: nat, j: nat, cleared: multiset<Item>, dropped: multiset<Item>)
    requires CanAct(s, j) && j != i && Lone(s, i, cleared, dropped) && ClosersDestroy(s.callers)
    ensures Lone(ActStep(c, s, j), i, cleared, dropped)
  {
    hide ActStep, CanAct;
    ActorsAreUnfinished(s, j);
    ActLowersCost(c, s, j);
    ActKeepsBooks(c, s, j);
  }

  lemma ActorsAreUnfinished(s: State, j: nat)
    requires CanAct(s, j)
    ensures j < |s.callers| && !s.callers[j].Finished()
  {
  }

  /** A caller that does not close the buffer at most takes what is in it. */
  lemma ActKeepsBooks(c: Config, s: State, j: nat)
    requires CanAct(s, j) && !s.callers[j].pc.Closing?
    ensures ActStep(c, s, j).books == s.books
    ensures ActStep(c, s, j).buffer == s.buffer || ActStep(c, s, j).buffer == []
    ensures ActStep(c, s, j).callers[j].kind == s.callers[j].kind
  {
    hide Pools.Enqueue, Idle, CloseStep;
    ActLowersCost(c, s, j);
  }

  /** Only `destroy` closes the buffer, and only `destroy` marks the service. */
  predicate ClosersDestroy(callers: seq<Caller>) {
    forall j :: 0 <= j < |callers| && (callers[j].pc.Closing? || callers[j].pc.Marking?) ==> callers[j].kind == Destroy
  }

  lemma StepKeepsClosers(c: Config, s: State, step: Step)
    requires Enabled(c, s, step) && ClosersDestroy(s.callers)
    ensures ClosersDestroy(Apply(c, s, step).callers)
  {
    hide ActStep, BufferPolicy.AfterAdd, Pools.EndSend, Pools.EndUpdate, Pools.Signal, Pools.Release, CanAct;
    if step.Act? {
      ActKeepsClosers(c, s, step.i);
    }
  }

  lemma ActKeepsClosers(c: Config, s: State, i: nat)
    requires CanAct(s, i) && ClosersDestroy(s.callers)
    ensures ClosersDestroy(ActStep(c, s, i).callers)
  {
    hide Pools.Enqueue, Idle;
    ActLowersCost(c, s, i);
  }

  lemma LoneStepIsLone(c: Config, s: State, step: Step, i: nat, cleared: multiset<Item>, dropped: multiset<Item>)
    requires Enabled(c, s, step) && LoneStep(step) && Lone(s, i, cleared, dropped) && ClosersDestroy(s.callers)
    ensures Lone(Apply(c, s, step), i, cleared, dropped)
  {
    hide ActStep, Pools.EndSend, Pools.EndUpdate, Pools.Signal, Pools.Release, ClosersDestroy, CanAct;
    match step {
      case Act(j) =>
        if i == j {
          OwnStepIsLone(c, s, i, cleared, dropped);
        } else {
          OtherActIsLone(c, s, i, j, cleared, dropped);
        }
      case _ =>
    }
  }

  lemma {:induction false} RunIsLone(
    c: Config, s: State, steps: seq<Step>, i: nat, cleared: multiset<Item>, dropped: multiset<Item>)
    requires Legal(c, s, steps) && LoneSteps(steps) && Lone(s, i, cleared, dropped) && ClosersDestroy(s.callers)
    ensures Lone(Run(c, s, steps), i, cleared, dropped)
    decreases |steps|
  {
    hide Apply, Enabled, Lone, LoneStep, ClosersDestroy;
    if steps == [] {
    } else {
      assert LoneStep(steps[0]) && LoneSteps(steps[1..]);
      LoneStepIsLone(c, s, steps[0], i, cleared, dropped);
      StepKeepsClosers(c, s, steps[0]);
      RunIsLone(c, Apply(c, s, steps[0]), steps[1..], i, cleared, dropped);
    }
  }

  lemma {:induction false} RunKeepsClosers(c: Config, s: State, steps: seq<Step>)
    requires Legal(c, s, steps) && ClosersDestroy(s.callers)
    ensures ClosersDestroy(Run(c, s, steps).callers)
    decreases |steps|
  {
    hide Apply, Enabled, ClosersDestroy;
    if steps == [] {
    } else {
      StepKeepsClosers(c, s, steps[0]);
      RunKeepsClosers(c, Apply(c, s, steps[0]), steps[1..]);
    }
  }

  lemma ReachableClosers(c: Config, s: State)
    requires Reachable(c, s)
    ensures ClosersDestroy(s.callers)
  {
    hide Apply, Enabled;
    var steps: seq<Step> :| Legal(c, INITIAL, steps) && Run(c, INITIAL, steps) == s;
    RunKeepsClosers(c, INITIAL, steps);
  }

  /** A lone `destroy` clears nothing, whatever flushes run beside it. */
  lemma LoneDestroyClearsNothing(c: Config, s: State, steps: seq<Step>, i: nat)
    requires c.Valid() && Reachable(c, s) && LoneDestroyer(s.callers, i) && s.callers[i].pc == Sizing
    requires Legal(c, s, steps) && LoneSteps(steps)
    ensures Run(c, s, steps).books.cleared == s.books.cleared
    ensures Run(c, s, steps).books.dropped == s.books.dropped
  {
    hide Reachable, Run, Legal, LoneSteps;
    ReachableClosers(c, s);
    RunIsLone(c, s, steps, i, s.books.cleared, s.books.dropped);
  }

  /** Shutting down delivers the buffer: once the call has ended, the pool is idle and no flush holds a batch,
      every entry that was in the buffer at its test has been sent or has failed to be. */
  lemma ShutdownDelivers(c: Config, s: State, steps: seq<Step>, i: nat, item: Item)
    requires c.Valid() && Reachable(c, s) && LoneDestroyer(s.callers, i) && s.callers[i].pc == Sizing
    requires Legal(c, s, steps) && LoneSteps(steps) && item in s.buffer
    requires var s' := Run(c, s, steps);
             && i < |s'.callers| && s'.callers[i].Finished() && Idle(s'.pool)
             && forall j :: 0 <= j < |s'.callers| ==> !s'.callers[j].pc.Holding?
    ensures Run(c, s, steps).books.sent[item] + Run(c, s, steps).books.failed[item] == 1
  {
    hide Reachable, Run, Legal, LoneSteps, Held, Queued, InFlight, Handled;
    var s' := Run(c, s, steps);
    BufferedIsAccepted(c, s, item);
    assert Occurrences(s, Cleared, item) == 0 && Occurrences(s, Dropped, item) == 0;
    RunKeepsHandled(c, s, steps, i, item) by { TestIsHandled(s, i, item); }
    HandledMeansTaken(s', i, item);
    LoneDestroyClearsNothing(c, s, steps, i);
    ReachableConcat(c, s, steps);
    CustodyHolds(c, s', item);
    NothingOnItsWay(c, s', item);
  }

  lemma TestIsHandled(s: State, i: nat, item: Item)
    requires i < |s.callers| && s.callers[i].pc == Sizing && item in s.books.accepted
    ensures Handled(s, i, item)
  {
  }

  lemma HandledMeansTaken(s: State, i: nat, item: Item)
    requires Handled(s, i, item) && s.callers[i].Finished()
    ensures Gone(s, item)
  {
  }

  lemma ReachableConcat(c: Config, s: State, steps: seq<Step>)
    requires Reachable(c, s) && Legal(c, s, steps)
    ensures Reachable(c, Run(c, s, steps))
  {
    hide Apply, Enabled;
    var first: seq<Step> :| Legal(c, INITIAL, first) && Run(c, INITIAL, first) == s;
    RunConcat(c, INITIAL, first, steps);
  }

  // -------------------------------------------------------------------------------------------
  // The marks of shutting down

  /** Past its mark a `destroy` has the service marked, and when it ends it has the buffer destroyed. */
  predicate Marked(s: State, i: nat) {
    && i < |s.callers| && s.callers[i].kind == Destroy && !s.callers[i].pc.Called?
    && (!s.callers[i].pc.Marking? ==> s.destroyed)
    && (s.callers[i].Finished() ==> s.bufferDestroyed)
  }

  lemma StepKeepsFlags(c: Config, s: State, step: Step)
    requires Enabled(c, s, step)
    ensures s.destroyed ==> Apply(c, s, step).destroyed
    ensures s.bufferDestroyed ==> Apply(c, s, step).bufferDestroyed
  {
    hide BufferPolicy.AfterAdd, Pools.Enqueue, Pools.EndSend, Pools.EndUpdate, Pools.Signal, Pools.Release, Idle;
  }

  lemma OwnStepKeepsMarked(c: Config, s: State, i: nat)
    requires CanAct(s, i) && Marked(s, i)
    ensures Marked(ActStep(c, s, i), i)
  {
    hide Pools.Enqueue, Idle;
  }

  lemma StepKeepsMarked(c: Config, s: State, step: Step, i: nat)
    requires Enabled(c, s, step) && Marked(s, i)
    ensures Marked(Apply(c, s, step), i)
  {
    hide ActStep, BufferPolicy.AfterAdd, Pools.EndSend, Pools.EndUpdate, Pools.Signal, Pools.Release;
    if step == Act(i) {
      OwnStepKeepsMarked(c, s, i);
    } else {
      OthersLeaveCaller(c, s, step, i);
      StepKeepsFlags(c, s, step);
    }
  }

  /** A `destroy` that was not too late marks the service before it tests the buffer, and has destroyed the
      buffer when it ends, also if its batch failed. */
  lemma DestroyMarks(c: Config, s: State, steps: seq<Step>, i: nat)
    requires Legal(c, s, steps) && i < |s.callers| && s.callers[i].kind == Destroy && s.callers[i].pc == Marking
    ensures Marked(Run(c, s, steps), i)
  {
    RunKeepsMarked(c, s, steps, i);
  }

  lemma {:induction false} RunKeepsMarked(c: Config, s: State, steps: seq<Step>, i: nat)
    requires Legal(c, s, steps) && Marked(s, i)
    ensures Marked(Run(c, s, steps), i)
    decreases |steps|
  {
    hide Apply, Enabled, Marked;
    if steps == [] {
    } else {
      StepKeepsMarked(c, s, steps[0], i);
      RunKeepsMarked(c, Apply(c, s, steps[0]), steps[1..], i);
    }
  }

  /** A call that comes too late has done nothing but return. */
  predicate TooLate(s: State, i: nat) {
    && s.destroyed && i < |s.callers| && s.callers[i].task.None?
    && (s.callers[i].pc == Called || s.callers[i].pc == Returned)
  }

  lemma {:induction false} LateCallsReturn(c: Config, s: State, steps: seq<Step>, i: nat)
    requires Legal(c, s, steps) && TooLate(s, i)
    ensures TooLate(Run(c, s, steps), i)
    decreases |steps|
  {
    hide Apply, Enabled;
    if steps == [] {
    } else {
      StepKeepsFlags(c, s, steps[0]);
      if steps[0] == Act(i) {
        ActWhenLate(c, s, i);
      } else {
        OthersLeaveCaller(c, s, steps[0], i);
      }
      LateCallsReturn(c, Apply(c, s, steps[0]), steps[1..], i);
    }
  }

  lemma ActWhenLate(c: Config, s: State, i: nat)
    requires Enabled(c, s, Act(i)) && TooLate(s, i)
    ensures var s' := Apply(c, s, Act(i)); TooLate(s', i) && s'.callers[i].pc == Returned && s'.buffer == s.buffer
  {
  }

  /** A destroyed buffer stays empty and accepts nothing more. */
  predicate Closed(s: State, accepted: multiset<Item>) {
    s.bufferDestroyed && s.buffer == [] && s.books.accepted == accepted
  }

  lemma {:induction false} ClosedForGood(c: Config, s: State, steps: seq<Step>)
    requires Legal(c, s, steps) && s.bufferDestroyed && s.buffer == []
    ensures Closed(Run(c, s, steps), s.books.accepted)
    decreases |steps|
  {
    hide Apply, Enabled;
    if steps == [] {
    } else {
      ClosedStaysClosed(c, s, steps[0]);
      ClosedForGood(c, Apply(c, s, steps[0]), steps[1..]);
    }
  }

  lemma ClosedStaysClosed(c: Config, s: State, step: Step)
    requires Enabled(c, s, step) && s.bufferDestroyed && s.buffer == []
    ensures Closed(Apply(c, s, step), s.books.accepted)
  {
    hide BufferPolicy.AfterAdd, Pools.Enqueue, Pools.EndSend, Pools.EndUpdate, Pools.Signal, Pools.Release, Idle;
  }
}
