/** The in-memory dead letter queue: a batch pushes out the oldest letters. */
module MemoryDlqs {
  import opened Prelude
  import opened LogEntries

  datatype Letter = Letter(entry: Entry, reason: string, timestamp: Double, retryCount: int)

  /** The letters a failed batch becomes. */
  function Letters(entries: seq<Entry>, reason: string, timestamp: Double): seq<Letter> {
    seq(|entries|, i requires 0 <= i < |entries| => Letter(entries[i], reason, timestamp, 0))
  }

  /** One letter for each entry, in order, not yet retried. */
  lemma LettersLaw(entries: seq<Entry>, reason: string, timestamp: Double)
    ensures |Letters(entries, reason, timestamp)| == |entries|
    ensures forall i :: 0 <= i < |entries| ==>
              && Letters(entries, reason, timestamp)[i].entry == entries[i]
              && Letters(entries, reason, timestamp)[i].reason == reason
              && Letters(entries, reason, timestamp)[i].timestamp == timestamp
              && Letters(entries, reason, timestamp)[i].retryCount == 0
  {
  }

  /** Room for a letter is made by dropping the oldest. */
  function Push(queue: seq<Letter>, l: Letter, n: nat): seq<Letter>
    requires n >= 1
  {
    if |queue| >= n then queue[1..] + [l] else queue + [l]
  }

  function PushAll(queue: seq<Letter>, letters: seq<Letter>, n: nat): seq<Letter>
    requires n >= 1
  {
    if letters == [] then queue
    else Push(PushAll(queue, letters[..|letters| - 1], n), letters[|letters| - 1], n)
  }

  /** Pushing a batch letter by letter keeps the newest of what was there and what came. */
  lemma {:induction false} PushAllKeepsNewest(queue: seq<Letter>, letters: seq<Letter>, n: nat)
    requires n >= 1 && |queue| <= n
    ensures PushAll(queue, letters, n) == LastN(queue + letters, n)
  {
    if letters == [] {
      assert queue + letters == queue;
    } else {
      var before, last := letters[..|letters| - 1], letters[|letters| - 1];
      PushAllKeepsNewest(queue, before, n);
      assert queue + letters == queue + before + [last];
      PushOne(queue + before, last, n);
    }
  }

  lemma PushOne(xs: seq<Letter>, x: Letter, n: nat)
    requires n >= 1
    ensures Push(LastN(xs, n), x, n) == LastN(xs + [x], n)
  {
  }

  class MemoryDeadLetterQueue {
    const maxSize: nat
    var queue: seq<Letter>
    var droppedEntries: nat

    ghost predicate Valid()
      reads this
    {
      maxSize >= 1 && |queue| <= maxSize
    }

    constructor (maxSize: nat)
      requires maxSize >= 1
      ensures Valid() && this.maxSize == maxSize && queue == [] && droppedEntries == 0
    {
      this.maxSize := maxSize;
      queue, droppedEntries := [], 0;
    }

    method AddBatch(entries: seq<Entry>, reason: string, timestamp: Double) returns (added: nat, dropped: nat)
      requires Valid()
      modifies this
      ensures Valid()
      ensures queue == LastN(old(queue) + Letters(entries, reason, timestamp), maxSize)
      ensures added == |entries| && dropped == old(|queue|) + |entries| - |queue|
      ensures droppedEntries == old(droppedEntries) + dropped
    {
      dropped := 0;
      ghost var letters := Letters(entries, reason, timestamp);
      for i := 0 to |entries|
        invariant |queue| <= maxSize && queue == PushAll(old(queue), letters[..i], maxSize)
        invariant dropped == old(|queue|) + i - |queue|
        invariant droppedEntries == old(droppedEntries) + dropped
      {
        assert letters[..i + 1][..i] == letters[..i];
        if |queue| >= maxSize {
          queue := queue[1..];
          droppedEntries := droppedEntries + 1;
          dropped := dropped + 1;
        }
        queue := queue + [Letter(entries[i], reason, timestamp, 0)];
      }
      assert letters[..|entries|] == letters;
      PushAllKeepsNewest(old(queue), letters, maxSize);
      added := |entries|;
    }
  }
}

/**
  The same queue without its missing lock: workers interleave the length test, the `pop(0)` and the
  `append` of their batches. `slots` are the flush workers.
 */
module MemoryDlqInterleavings {
  import opened Prelude
  import opened LogEntries
  import opened MemoryDlqs

  /** `todo` are the letters a worker has still to add. A pop from an empty list raises an error, which
      ends the batch and which the transport swallows. */
  datatype Slot =
    | Resting
    | Testing(todo: seq<Letter>)
    | Popping(todo: seq<Letter>)
    | Appending(todo: seq<Letter>)
    | Crashed

  datatype State = State(queue: seq<Letter>, slots: seq<Slot>)

  datatype Step =
    | Begin(w: nat, letters: seq<Letter>)
    | Test(w: nat)
    | Pop(w: nat)
    | Append(w: nat)
    | Swallow(w: nat)

  function Next(letters: seq<Letter>): Slot {
    if letters == [] then Resting else Testing(letters)
  }

  predicate Enabled(s: State, step: Step) {
    step.w < |s.slots| &&
    match step
    case Begin(w, _) => s.slots[w].Resting?
    case Test(w) => s.slots[w].Testing? && s.slots[w].todo != []
    case Pop(w) => s.slots[w].Popping? && s.slots[w].todo != []
    case Append(w) => s.slots[w].Appending? && s.slots[w].todo != []
    case Swallow(w) => s.slots[w].Crashed?
  }

  function Set(s: State, w: nat, slot: Slot): State
    requires w < |s.slots|
  {
    s.(slots := s.slots[w := slot])
  }

  function Apply(maxSize: nat, s: State, step: Step): State
    requires Enabled(s, step)
  {
    match step
    case Begin(w, letters) => Set(s, w, Next(letters))
    case Test(w) => Set(s, w, if |s.queue| >= maxSize then Popping(s.slots[w].todo) else Appending(s.slots[w].todo))
    case Pop(w) =>
      if s.queue == [] then Set(s, w, Crashed)
      else Set(s, w, Appending(s.slots[w].todo)).(queue := s.queue[1..])
    case Append(w) => Set(s, w, Next(s.slots[w].todo[1..])).(queue := s.queue + [s.slots[w].todo[0]])
    case Swallow(w) => Set(s, w, Resting)
  }

  predicate Legal(maxSize: nat, s: State, steps: seq<Step>)
    decreases |steps|
  {
    steps == [] || (Enabled(s, steps[0]) && Legal(maxSize, Apply(maxSize, s, steps[0]), steps[1..]))
  }

  function Run(maxSize: nat, s: State, steps: seq<Step>): State
    requires Legal(maxSize, s, steps)
    decreases |steps|
  {
    if steps == [] then s else Run(maxSize, Apply(maxSize, s, steps[0]), steps[1..])
  }

  function Initial(workers: nat): State {
    State([], seq(workers, _ => Resting))
  }

  ghost predicate Reachable(maxSize: nat, workers: nat, s: State) {
    exists steps: seq<Step> :: Legal(maxSize, Initial(workers), steps) && Run(maxSize, Initial(workers), steps) == s
  }

  lemma {:induction false} RunThen(maxSize: nat, s: State, first: seq<Step>, step: Step)
    requires Legal(maxSize, s, first) && Enabled(Run(maxSize, s, first), step)
    ensures Legal(maxSize, s, first + [step])
    ensures Run(maxSize, s, first + [step]) == Apply(maxSize, Run(maxSize, s, first), step)
    decreases |first|
  {
    hide Apply, Enabled;
    if first == [] {
      assert (first + [step])[1..] == [];
    } else {
      RunThen(maxSize, Apply(maxSize, s, first[0]), first[1..], step);
      assert (first + [step])[1..] == first[1..] + [step];
    }
  }

  lemma Extend(maxSize: nat, workers: nat, s: State, step: Step)
    requires Reachable(maxSize, workers, s) && Enabled(s, step)
    ensures Reachable(maxSize, workers, Apply(maxSize, s, step))
  {
    hide Apply, Enabled;
    var steps: seq<Step> :| Legal(maxSize, Initial(workers), steps) && Run(maxSize, Initial(workers), steps) == s;
    RunThen(maxSize, Initial(workers), steps, step);
  }

  // -------------------------------------------------------------------------------------------
  // Counting workers

  /** About to pop, about to append, or anywhere in a batch. */
  datatype Kind = Popper | Appender | Busy

  predicate Is(slot: Slot, kind: Kind) {
    match kind
    case Popper => slot.Popping?
    case Appender => slot.Appending?
    case Busy => !slot.Resting?
  }

  function Count(slots: seq<Slot>, kind: Kind): nat {
    if slots == [] then 0
    else Count(slots[..|slots| - 1], kind) + if Is(slots[|slots| - 1], kind) then 1 else 0
  }

  lemma {:induction false} CountUpdate(slots: seq<Slot>, w: nat, slot: Slot, kind: Kind)
    requires w < |slots|
    ensures Count(slots[w := slot], kind) + (if Is(slots[w], kind) then 1 else 0) ==
            Count(slots, kind) + if Is(slot, kind) then 1 else 0
  {
    var before := slots[..|slots| - 1];
    if w == |before| {
      assert slots[w := slot][..|before|] == before;
    } else {
      CountUpdate(before, w, slot, kind);
      assert slots[w := slot][..|before|] == before[w := slot];
    }
  }

  lemma {:induction false} CountBound(slots: seq<Slot>, kind: Kind)
    ensures Count(slots, kind) <= Count(slots, Busy) <= |slots|
  {
    if slots == [] {
    } else {
      CountBound(slots[..|slots| - 1], kind);
    }
  }

  lemma {:induction false} CountNone(slots: seq<Slot>, kind: Kind)
    requires forall w :: 0 <= w < |slots| ==> slots[w].Resting?
    ensures Count(slots, kind) == 0
  {
    if slots == [] {
    } else {
      CountNone(slots[..|slots| - 1], kind);
    }
  }

  // -------------------------------------------------------------------------------------------
  // Bounds of every interleaving

  /** Letters in the queue and on their way into it, against the workers that may be busy at once; and,
      with a place in the queue for each of those, a letter for every pop to come. */
  predicate Bounded(maxSize: nat, workers: nat, s: State) {
    && |s.queue| + Count(s.slots, Appender) <= maxSize + workers - 1
    && (maxSize >= workers ==>
          |s.queue| >= Count(s.slots, Popper) && forall w :: 0 <= w < |s.slots| ==> !s.slots[w].Crashed?)
  }

  lemma StepKeepsBounded(maxSize: nat, workers: nat, s: State, step: Step)
    requires Bounded(maxSize, workers, s) && Enabled(s, step)
    requires Count(Apply(maxSize, s, step).slots, Busy) <= workers
    ensures Bounded(maxSize, workers, Apply(maxSize, s, step))
    ensures |Apply(maxSize, s, step).slots| == |s.slots|
  {
    hide Count;
    var s' := Apply(maxSize, s, step);
    CountUpdate(s.slots, step.w, s'.slots[step.w], Popper);
    CountUpdate(s.slots, step.w, s'.slots[step.w], Appender);
    CountBound(s'.slots, Popper);
    CountBound(s'.slots, Appender);
  }

  lemma {:induction false} RunKeepsBounded(maxSize: nat, s: State, steps: seq<Step>)
    requires Bounded(maxSize, |s.slots|, s) && Legal(maxSize, s, steps)
    ensures Bounded(maxSize, |s.slots|, Run(maxSize, s, steps)) && |Run(maxSize, s, steps).slots| == |s.slots|
    decreases |steps|
  {
    hide Apply, Enabled, Bounded;
    if steps == [] {
    } else {
      var s1 := Apply(maxSize, s, steps[0]);
      StepKeepsSlots(maxSize, s, steps[0]);
      CountBound(s1.slots, Busy);
      StepKeepsBounded(maxSize, |s.slots|, s, steps[0]);
      RunKeepsBounded(maxSize, s1, steps[1..]);
    }
  }

  lemma StepKeepsSlots(maxSize: nat, s: State, step: Step)
    requires Enabled(s, step)
    ensures |Apply(maxSize, s, step).slots| == |s.slots|
  {
  }

  lemma ReachableIsBounded(maxSize: nat, workers: nat, s: State)
    requires maxSize >= 1 && workers >= 1 && Reachable(maxSize, workers, s)
    ensures Bounded(maxSize, workers, s) && |s.slots| == workers
  {
    hide Apply, Enabled;
    var steps: seq<Step> :| Legal(maxSize, Initial(workers), steps) && Run(maxSize, Initial(workers), steps) == s;
    CountNone(Initial(workers).slots, Popper);
    CountNone(Initial(workers).slots, Appender);
    RunKeepsBounded(maxSize, Initial(workers), steps);
  }

  /** K workers overshoot the size limit by at most K - 1 letters. */
  lemma QueueBound(maxSize: nat, workers: nat, s: State)
    requires maxSize >= 1 && workers >= 1 && Reachable(maxSize, workers, s)
    ensures |s.queue| <= maxSize + workers - 1
  {
    ReachableIsBounded(maxSize, workers, s);
  }

  // -------------------------------------------------------------------------------------------
  // Order

  /** The letters a run appends, in the order it does. */
  function Appended(maxSize: nat, s: State, steps: seq<Step>): seq<Letter>
    requires Legal(maxSize, s, steps)
    decreases |steps|
  {
    if steps == [] then []
    else (match steps[0] case Append(w) => [s.slots[w].todo[0]] case _ => [])
         + Appended(maxSize, Apply(maxSize, s, steps[0]), steps[1..])
  }

  /** Whatever the interleaving, the queue is first in, first out: it holds the newest of what it held and
      what came, in the order they came. */
  lemma {:induction false} QueueIsFifo(maxSize: nat, s: State, steps: seq<Step>) returns (gone: nat)
    requires Legal(maxSize, s, steps)
    ensures gone <= |s.queue + Appended(maxSize, s, steps)|
    ensures Run(maxSize, s, steps).queue == (s.queue + Appended(maxSize, s, steps))[gone..]
    decreases |steps|
  {
    if steps == [] {
      gone := 0;
    } else {
      var s1 := Apply(maxSize, s, steps[0]);
      var later := Appended(maxSize, s1, steps[1..]);
      var k := QueueIsFifo(maxSize, s1, steps[1..]);
      var popped := if steps[0].Pop? && s.queue != [] then 1 else 0;
      gone := k + popped;
      var came := if steps[0].Append? then [s.slots[steps[0].w].todo[0]] else [];
      assert s1.queue == (s.queue + came)[popped..];
      assert s1.queue + later == (s.queue + (came + later))[popped..];
    }
  }

  /** What a worker that nobody interrupts makes of the queue. */
  function Alone(maxSize: nat, queue: seq<Letter>, slot: Slot): seq<Letter>
    requires maxSize >= 1
  {
    match slot
    case Resting => queue
    case Testing(todo) => PushAll(queue, todo, maxSize)
    case Popping(todo) => PushAll(queue, todo, maxSize)
    case Appending(todo) => if todo == [] then queue else PushAll(queue + [todo[0]], todo[1..], maxSize)
    case Crashed => queue
  }

  predicate OnCourse(maxSize: nat, s: State, w: nat) {
    && w < |s.slots| && !s.slots[w].Crashed?
    && (s.slots[w].Popping? ==> |s.queue| >= maxSize)
  }

  lemma {:induction false} PushFirst(queue: seq<Letter>, letters: seq<Letter>, n: nat)
    requires n >= 1 && letters != []
    ensures PushAll(queue, letters, n) == PushAll(Push(queue, letters[0], n), letters[1..], n)
  {
    var before, last := letters[..|letters| - 1], letters[|letters| - 1];
    if before == [] {
      assert PushAll(queue, before, n) == queue && letters[1..] == [];
    } else {
      PushFirst(queue, before, n);
      assert letters[1..][..|letters| - 2] == before[1..];
    }
  }

  lemma StepAlone(maxSize: nat, s: State, step: Step)
    requires maxSize >= 1 && Enabled(s, step) && !step.Begin? && OnCourse(maxSize, s, step.w)
    ensures var s' := Apply(maxSize, s, step);
            && OnCourse(maxSize, s', step.w)
            && Alone(maxSize, s'.queue, s'.slots[step.w]) == Alone(maxSize, s.queue, s.slots[step.w])
  {
    hide PushAll;
    match step {
      case Test(w) => PushFirst(s.queue, s.slots[w].todo, maxSize);
      case Pop(w) => PushFirst(s.queue, s.slots[w].todo, maxSize);
      case Append(w) => NothingToPush(s.queue + [s.slots[w].todo[0]], maxSize);
      case _ =>
    }
  }

  lemma NothingToPush(queue: seq<Letter>, n: nat)
    requires n >= 1
    ensures PushAll(queue, [], n) == queue
  {
  }

  lemma {:induction false} RunAlone(maxSize: nat, s: State, steps: seq<Step>, w: nat)
    requires maxSize >= 1 && Legal(maxSize, s, steps) && OnCourse(maxSize, s, w)
    requires forall k :: 0 <= k < |steps| ==> steps[k].w == w && !steps[k].Begin?
    ensures var s' := Run(maxSize, s, steps);
            OnCourse(maxSize, s', w) && Alone(maxSize, s'.queue, s'.slots[w]) == Alone(maxSize, s.queue, s.slots[w])
    decreases |steps|
  {
    hide Apply, Enabled, OnCourse, Alone;
    if steps == [] {
    } else {
      StepAlone(maxSize, s, steps[0]);
      RunAlone(maxSize, Apply(maxSize, s, steps[0]), steps[1..], w);
    }
  }

  /** A worker that nobody interrupts leaves the queue as the serial `add_batch` does: the newest letters of
      what was there and its own batch. */
  lemma AloneIsSerial(maxSize: nat, s: State, w: nat, letters: seq<Letter>, steps: seq<Step>)
    requires maxSize >= 1 && |s.queue| <= maxSize && w < |s.slots| && s.slots[w].Resting?
    requires Legal(maxSize, s, [Begin(w, letters)] + steps)
    requires forall k :: 0 <= k < |steps| ==> steps[k].w == w && !steps[k].Begin?
    ensures var s' := Run(maxSize, s, [Begin(w, letters)] + steps);
            w < |s'.slots| && (s'.slots[w].Resting? ==> s'.queue == LastN(s.queue + letters, maxSize))
  {
    var s1 := Apply(maxSize, s, Begin(w, letters));
    assert ([Begin(w, letters)] + steps)[1..] == steps;
    assert Run(maxSize, s, [Begin(w, letters)] + steps) == Run(maxSize, s1, steps);
    RunAlone(maxSize, s1, steps, w);
    PushAllKeepsNewest(s.queue, letters, maxSize);
    NothingToPush(s.queue, maxSize);
  }

  // -------------------------------------------------------------------------------------------
  // The bounds are attained

  const LETTER := Letter(LogEntry("", "", "info", "", None, None, None, None, None, None), "", Float(0, 0), 0)

  /** A worker alone adds letters while there is room. */
  lemma {:induction false} Fill(maxSize: nat, workers: nat, s: State, n: nat) returns (s': State)
    requires Reachable(maxSize, workers, s) && |s.slots| == workers >= 1
    requires s.slots[0].Resting? && |s.queue| <= n <= maxSize
    ensures Reachable(maxSize, workers, s') && s'.slots == s.slots && |s'.queue| == n
    decreases n - |s.queue|
  {
    if |s.queue| == n {
      return s;
    }
    hide Reachable;
    var s1 := Apply(maxSize, s, Begin(0, [LETTER]));
    var s2 := Apply(maxSize, s1, Test(0));
    var s3 := Apply(maxSize, s2, Append(0));
    Extend(maxSize, workers, s, Begin(0, [LETTER]));
    Extend(maxSize, workers, s1, Test(0));
    Extend(maxSize, workers, s2, Append(0));
    assert s3.slots == s.slots;
    s' := Fill(maxSize, workers, s3, n);
  }

  /** All workers test the length before any of them acts on it. */
  lemma {:induction false} AllTest(maxSize: nat, workers: nat, s: State, w: nat) returns (s': State)
    requires Reachable(maxSize, workers, s) && |s.slots| == workers && w <= workers
    requires forall i :: w <= i < workers ==> s.slots[i].Resting?
    ensures Reachable(maxSize, workers, s') && s'.queue == s.queue && |s'.slots| == workers
    ensures forall i :: 0 <= i < w ==> s'.slots[i] == s.slots[i]
    ensures forall i :: w <= i < workers ==>
              s'.slots[i] == if |s.queue| >= maxSize then Popping([LETTER]) else Appending([LETTER])
    decreases workers - w
  {
    if w == workers {
      return s;
    }
    hide Reachable;
    var s1 := Apply(maxSize, s, Begin(w, [LETTER]));
    var s2 := Apply(maxSize, s1, Test(w));
    Extend(maxSize, workers, s, Begin(w, [LETTER]));
    Extend(maxSize, workers, s1, Test(w));
    s' := AllTest(maxSize, workers, s2, w + 1);
  }

  lemma {:induction false} AllAppend(maxSize: nat, workers: nat, s: State, w: nat) returns (s': State)
    requires Reachable(maxSize, workers, s) && |s.slots| == workers && w <= workers
    requires forall i :: w <= i < workers ==> s.slots[i] == Appending([LETTER])
    ensures Reachable(maxSize, workers, s') && |s'.queue| == |s.queue| + workers - w
    decreases workers - w
  {
    if w == workers {
      return s;
    }
    hide Reachable;
    var s1 := Apply(maxSize, s, Append(w));
    Extend(maxSize, workers, s, Append(w));
    s' := AllAppend(maxSize, workers, s1, w + 1);
  }

  /** The overshoot of K - 1 does happen. */
  lemma QueueBoundIsAttained(maxSize: nat, workers: nat)
    requires maxSize >= 1 && workers >= 1
    ensures exists s :: Reachable(maxSize, workers, s) && |s.queue| == maxSize + workers - 1
  {
    InitialIsReachable(maxSize, workers);
    hide Reachable;
    var s1 := Fill(maxSize, workers, Initial(workers), maxSize - 1);
    var s2 := AllTest(maxSize, workers, s1, 0);
    var s3 := AllAppend(maxSize, workers, s2, 0);
  }

  lemma InitialIsReachable(maxSize: nat, workers: nat)
    ensures Reachable(maxSize, workers, Initial(workers))
  {
    assert Legal(maxSize, Initial(workers), []);
    assert Run(maxSize, Initial(workers), []) == Initial(workers);
  }

  /** More workers ready to pop than letters: the last one pops from an empty list. */
  lemma {:induction false} PopUntilCrash(maxSize: nat, workers: nat, s: State, w: nat) returns (s': State)
    requires Reachable(maxSize, workers, s) && |s.slots| == workers && w + |s.queue| < workers
    requires forall i :: w <= i < workers ==> s.slots[i] == Popping([LETTER])
    ensures Reachable(maxSize, workers, s') && exists i :: 0 <= i < |s'.slots| && s'.slots[i].Crashed?
    decreases |s.queue|
  {
    hide Reachable;
    s' := Apply(maxSize, s, Pop(w));
    Extend(maxSize, workers, s, Pop(w));
    if s.queue == [] {
      assert s'.slots[w].Crashed?;
    } else {
      s' := PopUntilCrash(maxSize, workers, s', w + 1);
    }
  }

  /** No pop ever meets an empty list exactly when the queue can hold a letter for every worker. */
  lemma PopIsSafeIff(maxSize: nat, workers: nat)
    requires maxSize >= 1 && workers >= 1
    ensures maxSize >= workers <==>
            forall s :: Reachable(maxSize, workers, s) ==> forall w :: 0 <= w < |s.slots| ==> !s.slots[w].Crashed?
  {
    if maxSize >= workers {
      forall s | Reachable(maxSize, workers, s)
        ensures forall w :: 0 <= w < |s.slots| ==> !s.slots[w].Crashed?
      {
        ReachableIsBounded(maxSize, workers, s);
      }
    } else {
      InitialIsReachable(maxSize, workers);
      hide Reachable;
      var s1 := Fill(maxSize, workers, Initial(workers), maxSize);
      var s2 := AllTest(maxSize, workers, s1, 0);
      var s3 := PopUntilCrash(maxSize, workers, s2, 0);
    }
  }
}
