/**
  The running service and its unlocked memory dead letter queue together: a worker whose send fails
  offers its own batch, once, before the send ends.
 */
module ServiceDlqs {
  import opened Prelude
  import opened LogEntries
  import opened MemoryAccounting
  import opened MemoryDlqs
  import opened FlushPools
  import Flush = FlushInterleavings
  import Deadlocks = FlushDeadlocks
  import Crews = FlushCrews
  import opened FlushReceipts
  import Dlq = MemoryDlqInterleavings

  /** `dlq.slots[w]` is what worker `w` is doing to the queue; `offered` are the workers that have begun to
      add their batch to it. */
  datatype State = State(service: Flush.State, dlq: Dlq.State, offered: set<nat>)

  datatype Step =
    | Serve(step: Flush.Step)
    | Offer(w: nat, reason: string, timestamp: Double)
    | Add(add: Dlq.Step)

  const INITIAL := State(Flush.INITIAL, Dlq.State([], []), {})

  function Entries(batch: seq<Item>): seq<Entry> {
    seq(|batch|, i requires 0 <= i < |batch| => batch[i].entry)
  }

  predicate SendingAt(p: Pool, w: nat) {
    WorkerAt(p, w) && p.workers[w].pc == Sending
  }

  predicate RestingAt(d: Dlq.State, w: nat) {
    w < |d.slots| && d.slots[w].Resting?
  }

  /** A send ends in failure if its batch has been offered and dealt with, and well if it was not offered. */
  predicate Enabled(c: Flush.Config, s: State, step: Step) {
    match step
    case Serve(step) =>
      && Flush.Enabled(c, s.service, step)
      && (step.EndSend? ==> RestingAt(s.dlq, step.w) && (step.error.Some? <==> step.w in s.offered))
    case Offer(w, _, _) => SendingAt(s.service.pool, w) && RestingAt(s.dlq, w) && w !in s.offered
    case Add(add) => !add.Begin? && Dlq.Enabled(s.dlq, add) && SendingAt(s.service.pool, add.w)
  }

  /** A started worker comes with a slot of its own. */
  function Grow(slots: seq<Dlq.Slot>, n: nat): seq<Dlq.Slot> {
    if |slots| >= n then slots else slots + seq(n - |slots|, _ => Dlq.Resting)
  }

  /** The letters that a worker's batch becomes. */
  function LettersOf(p: Pool, w: nat, reason: string, timestamp: Double): seq<Letter>
    requires WorkerAt(p, w)
  {
    Letters(Entries(p.batches[p.workers[w].task]), reason, timestamp)
  }

  function Apply(c: Flush.Config, maxSize: nat, s: State, step: Step): State
    requires Enabled(c, s, step)
  {
    match step
    case Serve(step) =>
      var service := Flush.Apply(c, s.service, step);
      s.(service := service, dlq := s.dlq.(slots := Grow(s.dlq.slots, |service.pool.workers|)))
    case Offer(w, reason, timestamp) =>
      s.(dlq := Dlq.Apply(maxSize, s.dlq, Dlq.Begin(w, LettersOf(s.service.pool, w, reason, timestamp))),
         offered := s.offered + {w})
    case Add(add) => s.(dlq := Dlq.Apply(maxSize, s.dlq, add))
  }

  predicate Legal(c: Flush.Config, maxSize: nat, s: State, steps: seq<Step>)
    decreases |steps|
  {
    steps == [] || (Enabled(c, s, steps[0]) && Legal(c, maxSize, Apply(c, maxSize, s, steps[0]), steps[1..]))
  }

  function Run(c: Flush.Config, maxSize: nat, s: State, steps: seq<Step>): State
    requires Legal(c, maxSize, s, steps)
    decreases |steps|
  {
    if steps == [] then s else Run(c, maxSize, Apply(c, maxSize, s, steps[0]), steps[1..])
  }

  ghost predicate Reachable(c: Flush.Config, maxSize: nat, s: State) {
    exists steps: seq<Step> :: Legal(c, maxSize, INITIAL, steps) && Run(c, maxSize, INITIAL, steps) == s
  }

  // -------------------------------------------------------------------------------------------
  // The invariant

  /** Whoever is busy with the queue is sending and has offered its batch; and of the sends that have ended,
      exactly the failed ones have. */
  predicate Coupled(p: Pool, d: Dlq.State, offered: set<nat>) {
    && |d.slots| == |p.workers|
    && (forall w :: 0 <= w < |d.slots| && !d.slots[w].Resting? ==> p.workers[w].pc == Sending && w in offered)
    && (forall w :: w in offered ==> w < |p.workers|)
    && (forall w :: 0 <= w < |p.workers| && p.workers[w].pc != Sending ==>
          (p.workers[w].sendError.Some? <==> w in offered))
  }

  function Todo(slot: Dlq.Slot): seq<Letter> {
    match slot
    case Testing(todo) => todo
    case Popping(todo) => todo
    case Appending(todo) => todo
    case _ => []
  }

  /** The letter is one of a batch offered. */
  ghost predicate Offered(batches: seq<seq<Item>>, offered: set<nat>, l: Letter) {
    exists w :: w in offered && w < |batches| && l.entry in Entries(batches[w])
  }

  /** So are the letters in the queue and those on their way into it. */
  ghost predicate Accounted(batches: seq<seq<Item>>, d: Dlq.State, offered: set<nat>) {
    && (forall l :: l in d.queue ==> Offered(batches, offered, l))
    && (forall w, l :: 0 <= w < |d.slots| && l in Todo(d.slots[w]) ==> Offered(batches, offered, l))
  }

  ghost predicate Safe(c: Flush.Config, maxSize: nat, s: State) {
    && Flush.Safe(c, s.service) && Coupled(s.service.pool, s.dlq, s.offered)
    && Dlq.Bounded(maxSize, c.maxConcurrent, s.dlq)
    && Accounted(s.service.pool.batches, s.dlq, s.offered)
  }

  lemma {:induction false} BusyAreLive(slots: seq<Dlq.Slot>, workers: seq<Worker>)
    requires |slots| == |workers|
    requires forall w :: 0 <= w < |slots| && !slots[w].Resting? ==> Live(workers[w])
    ensures Dlq.Count(slots, Dlq.Busy) <= LiveCount(workers)
  {
    if slots == [] {
    } else {
      BusyAreLive(slots[..|slots| - 1], workers[..|workers| - 1]);
    }
  }

  lemma {:induction false} GrowAddsNone(slots: seq<Dlq.Slot>, n: nat, kind: Dlq.Kind)
    ensures Dlq.Count(Grow(slots, n), kind) == Dlq.Count(slots, kind)
    decreases n
  {
    if n <= |slots| {
    } else {
      GrowAddsNone(slots, n - 1, kind);
      assert Grow(slots, n)[..n - 1] == Grow(slots, n - 1);
    }
  }

  /** The workers that may be busy are the live ones, of which there are only so many. */
  lemma CoupledBound(c: Flush.Config, s: Flush.State, d: Dlq.State, offered: set<nat>)
    requires Flush.Safe(c, s) && Coupled(s.pool, d, offered)
    ensures Dlq.Count(d.slots, Dlq.Busy) <= c.maxConcurrent
  {
    hide Dlq.Count, LiveCount, Flush.CallersInformed, Flush.LockKnown;
    BusyAreLive(d.slots, s.pool.workers);
  }

  lemma MoreOffered(batches: seq<seq<Item>>, d: Dlq.State, offered: set<nat>,
                    batches': seq<seq<Item>>, offered': set<nat>)
    requires Accounted(batches, d, offered) && offered <= offered'
    requires |batches| <= |batches'| && batches'[..|batches|] == batches
    ensures Accounted(batches', d, offered')
  {
    forall l | Offered(batches, offered, l)
      ensures Offered(batches', offered', l)
    {
      var w :| w in offered && w < |batches| && l.entry in Entries(batches[w]);
      assert batches'[w] == batches[w];
    }
  }

  lemma AddKeepsAccounted(batches: seq<seq<Item>>, maxSize: nat, d: Dlq.State, offered: set<nat>, add: Dlq.Step)
    requires Accounted(batches, d, offered) && Dlq.Enabled(d, add) && !add.Begin?
    ensures Accounted(batches, Dlq.Apply(maxSize, d, add), offered)
  {
    hide Offered;
    var d' := Dlq.Apply(maxSize, d, add);
    var todo := Todo(d.slots[add.w]);
    forall l | l in d'.queue
      ensures Offered(batches, offered, l)
    {
      assert l in d.queue || l in todo;
    }
    forall w, l | 0 <= w < |d'.slots| && l in Todo(d'.slots[w])
      ensures Offered(batches, offered, l)
    {
      assert l in Todo(d.slots[w]);
    }
  }

  lemma AddKeepsSafe(c: Flush.Config, maxSize: nat, s: State, add: Dlq.Step)
    requires c.Valid() && Safe(c, maxSize, s) && Enabled(c, s, Add(add))
    ensures Safe(c, maxSize, Apply(c, maxSize, s, Add(add)))
  {
    hide Dlq.Bounded, Dlq.Count, Flush.Safe, Accounted;
    var d' := Dlq.Apply(maxSize, s.dlq, add);
    AddKeepsAccounted(s.service.pool.batches, maxSize, s.dlq, s.offered, add);
    CoupledBound(c, s.service, d', s.offered);
    Dlq.StepKeepsBounded(maxSize, c.maxConcurrent, s.dlq, add);
  }

  lemma OfferKeepsSafe(c: Flush.Config, maxSize: nat, s: State, w: nat, reason: string, timestamp: Double)
    requires c.Valid() && Safe(c, maxSize, s) && Enabled(c, s, Offer(w, reason, timestamp))
    ensures Safe(c, maxSize, Apply(c, maxSize, s, Offer(w, reason, timestamp)))
  {
    hide Dlq.Bounded, Dlq.Count, Entries, Offered;
    var p := s.service.pool;
    var letters := LettersOf(p, w, reason, timestamp);
    var s' := Apply(c, maxSize, s, Offer(w, reason, timestamp));
    assert p.workers[w].task == w;
    CoupledBound(c, s.service, s'.dlq, s'.offered);
    Dlq.StepKeepsBounded(maxSize, c.maxConcurrent, s.dlq, Dlq.Begin(w, letters));
    MoreOffered(p.batches, s.dlq, s.offered, p.batches, s'.offered);
    forall v, l | 0 <= v < |s'.dlq.slots| && l in Todo(s'.dlq.slots[v])
      ensures Offered(p.batches, s'.offered, l)
    {
      if v == w {
        OwnLetterIsOffered(p, w, reason, timestamp, s'.offered, l);
      }
    }
  }

  /** A worker offers its own batch: one letter for each entry, in order, not yet retried; nothing else changes. */
  lemma OfferLaw(c: Flush.Config, maxSize: nat, s: State, w: nat, reason: string, timestamp: Double)
    requires c.Valid() && Safe(c, maxSize, s) && Enabled(c, s, Offer(w, reason, timestamp))
    ensures w < |s.service.pool.batches| && w < |s.dlq.slots|
    ensures var s', batch := Apply(c, maxSize, s, Offer(w, reason, timestamp)), s.service.pool.batches[w];
            && s'.service == s.service && s'.dlq.queue == s.dlq.queue && w < |s'.dlq.slots|
            && s'.dlq.slots == s.dlq.slots[w := s'.dlq.slots[w]]
            && |Todo(s'.dlq.slots[w])| == |batch|
            && forall i :: 0 <= i < |batch| ==>
                 Todo(s'.dlq.slots[w])[i] == Letter(batch[i].entry, reason, timestamp, 0)
  {
    hide Dlq.Bounded, Dlq.Count, Offered, Flush.CallersInformed, Flush.LockKnown, LiveCount;
    assert s.service.pool.workers[w].task == w;
  }

  lemma OwnLetterIsOffered(p: Pool, w: nat, reason: string, timestamp: Double, offered: set<nat>, l: Letter)
    requires WorkerAt(p, w) && p.workers[w].task == w && w in offered && l in LettersOf(p, w, reason, timestamp)
    ensures Offered(p.batches, offered, l)
  {
    var entries := Entries(p.batches[w]);
    var i :| 0 <= i < |entries| && LettersOf(p, w, reason, timestamp)[i] == l;
    assert l.entry == entries[i];
  }

  lemma GrowKeepsTodo(slots: seq<Dlq.Slot>, n: nat)
    ensures |Grow(slots, n)| == Max(|slots|, n) && Grow(slots, n)[..|slots|] == slots
    ensures forall w :: |slots| <= w < |Grow(slots, n)| ==> Grow(slots, n)[w].Resting?
  {
  }

  lemma ServeKeepsSafe(c: Flush.Config, maxSize: nat, s: State, step: Flush.Step)
    requires c.Valid() && Safe(c, maxSize, s) && Enabled(c, s, Serve(step))
    ensures Safe(c, maxSize, Apply(c, maxSize, s, Serve(step)))
  {
    hide Flush.Apply, Flush.Enabled, Flush.Safe, Dlq.Count, Grow, Offered;
    var s' := Apply(c, maxSize, s, Serve(step));
    Flush.StepKeepsSafe(c, s.service, step);
    StepMoves(c, s.service, step);
    var n := |s'.service.pool.workers|;
    GrowKeepsTodo(s.dlq.slots, n);
    GrowAddsNone(s.dlq.slots, n, Dlq.Popper);
    GrowAddsNone(s.dlq.slots, n, Dlq.Appender);
    MoreOffered(s.service.pool.batches, s.dlq, s.offered, s'.service.pool.batches, s.offered);
    forall w | 0 <= w < n
      ensures w < |s.dlq.slots| ==> s'.dlq.slots[w] == s.dlq.slots[w]
    {
      if w < |s.dlq.slots| {
        assert s'.dlq.slots[..|s.dlq.slots|][w] == s'.dlq.slots[w];
      }
    }
  }

  lemma StepKeepsSafe(c: Flush.Config, maxSize: nat, s: State, step: Step)
    requires c.Valid() && Safe(c, maxSize, s) && Enabled(c, s, step)
    ensures Safe(c, maxSize, Apply(c, maxSize, s, step))
  {
    hide Apply, Enabled, Safe;
    match step {
      case Serve(step) => ServeKeepsSafe(c, maxSize, s, step);
      case Offer(w, reason, timestamp) => OfferKeepsSafe(c, maxSize, s, w, reason, timestamp);
      case Add(add) => AddKeepsSafe(c, maxSize, s, add);
    }
  }

  lemma {:induction false} RunKeepsSafe(c: Flush.Config, maxSize: nat, s: State, steps: seq<Step>)
    requires c.Valid() && Safe(c, maxSize, s) && Legal(c, maxSize, s, steps)
    ensures Safe(c, maxSize, Run(c, maxSize, s, steps))
    decreases |steps|
  {
    hide Apply, Enabled, Safe;
    if steps == [] {
    } else {
      StepKeepsSafe(c, maxSize, s, steps[0]);
      RunKeepsSafe(c, maxSize, Apply(c, maxSize, s, steps[0]), steps[1..]);
    }
  }

  lemma ReachableIsSafe(c: Flush.Config, maxSize: nat, s: State)
    requires c.Valid() && maxSize >= 1 && Reachable(c, maxSize, s)
    ensures Safe(c, maxSize, s)
  {
    hide Apply, Enabled;
    var steps: seq<Step> :| Legal(c, maxSize, INITIAL, steps) && Run(c, maxSize, INITIAL, steps) == s;
    RunKeepsSafe(c, maxSize, INITIAL, steps);
  }

  // -------------------------------------------------------------------------------------------
  // What holds in every run

  /** The bound of the running service: never more than `max_concurrent_flushes` - 1 letters too many. */
  lemma ServiceQueueBound(c: Flush.Config, maxSize: nat, s: State)
    requires c.Valid() && maxSize >= 1 && Reachable(c, maxSize, s)
    ensures |s.dlq.queue| <= maxSize + c.maxConcurrent - 1
  {
    ReachableIsSafe(c, maxSize, s);
  }

  /** Every letter in the queue is of a batch whose send has failed, or can only fail. */
  lemma LettersAreOfFailedBatches(c: Flush.Config, maxSize: nat, s: State, l: Letter) returns (w: nat)
    requires c.Valid() && maxSize >= 1 && Reachable(c, maxSize, s) && l in s.dlq.queue
    ensures w < |s.service.pool.workers| && w < |s.service.pool.batches| && s.service.pool.workers[w].task == w
    ensures l.entry in Entries(s.service.pool.batches[w])
    ensures s.service.pool.workers[w].sendError.Some?
            || (s.service.pool.workers[w].pc == Sending && !Enabled(c, s, Serve(Flush.Step.EndSend(w, None))))
  {
    hide Reachable, Entries, Flush.CallersInformed, Flush.LockKnown, Dlq.Bounded;
    ReachableIsSafe(c, maxSize, s);
    assert Offered(s.service.pool.batches, s.offered, l);
    w :| w in s.offered && w < |s.service.pool.batches| && l.entry in Entries(s.service.pool.batches[w]);
  }

  function Offers(steps: seq<Step>, w: nat): nat {
    if steps == [] then 0 else (if steps[0].Offer? && steps[0].w == w then 1 else 0) + Offers(steps[1..], w)
  }

  lemma {:induction false} OffersAreMarked(c: Flush.Config, maxSize: nat, s: State, steps: seq<Step>, w: nat)
    requires Legal(c, maxSize, s, steps)
    ensures Offers(steps, w) + (if w in s.offered then 1 else 0) ==
            if w in Run(c, maxSize, s, steps).offered then 1 else 0
    decreases |steps|
  {
    hide Flush.Apply, Flush.Enabled, Dlq.Apply, Dlq.Enabled;
    if steps == [] {
    } else {
      OffersAreMarked(c, maxSize, Apply(c, maxSize, s, steps[0]), steps[1..], w);
    }
  }

  /** In every run a batch whose send has ended was offered once if the send failed, and never if not. */
  lemma FailedBatchesAreOfferedOnce(c: Flush.Config, maxSize: nat, steps: seq<Step>, w: nat)
    requires c.Valid() && maxSize >= 1 && Legal(c, maxSize, INITIAL, steps)
    requires w < |Run(c, maxSize, INITIAL, steps).service.pool.workers|
    requires Run(c, maxSize, INITIAL, steps).service.pool.workers[w].pc != Sending
    ensures Offers(steps, w) == if Run(c, maxSize, INITIAL, steps).service.pool.workers[w].sendError.Some? then 1 else 0
  {
    hide Apply, Enabled, Flush.Safe, Dlq.Bounded, Accounted;
    OffersAreMarked(c, maxSize, INITIAL, steps, w);
    assert Reachable(c, maxSize, Run(c, maxSize, INITIAL, steps));
    ReachableIsSafe(c, maxSize, Run(c, maxSize, INITIAL, steps));
  }

  // -------------------------------------------------------------------------------------------
  // The stage: failed flushes that left letters, and a full crew sending

  lemma {:induction false} RunThen(c: Flush.Config, maxSize: nat, s: State, first: seq<Step>, step: Step)
    requires Legal(c, maxSize, s, first) && Enabled(c, Run(c, maxSize, s, first), step)
    ensures Legal(c, maxSize, s, first + [step])
    ensures Run(c, maxSize, s, first + [step]) == Apply(c, maxSize, Run(c, maxSize, s, first), step)
    decreases |first|
  {
    hide Apply, Enabled;
    if first == [] {
      assert (first + [step])[1..] == [];
    } else {
      RunThen(c, maxSize, Apply(c, maxSize, s, first[0]), first[1..], step);
      assert (first + [step])[1..] == first[1..] + [step];
    }
  }

  lemma Extend(c: Flush.Config, maxSize: nat, s: State, step: Step)
    requires Reachable(c, maxSize, s) && Enabled(c, s, step)
    ensures Reachable(c, maxSize, Apply(c, maxSize, s, step))
  {
    hide Apply, Enabled;
    var steps: seq<Step> :| Legal(c, maxSize, INITIAL, steps) && Run(c, maxSize, INITIAL, steps) == s;
    RunThen(c, maxSize, INITIAL, steps, step);
  }

  predicate AllResting(s: State) {
    |s.dlq.slots| == |s.service.pool.workers| && forall w :: 0 <= w < |s.dlq.slots| ==> s.dlq.slots[w].Resting?
  }

  /** The service goes on without the queue, as long as no send ends. */
  lemma {:induction false} Glide(c: Flush.Config, maxSize: nat, s: State, steps: seq<Flush.Step>, t: Flush.State)
    returns (s': State)
    requires c.Valid() && Flush.Safe(c, s.service) && Reachable(c, maxSize, s) && AllResting(s)
    requires Crews.Path(c, s.service, steps, t)
    ensures Reachable(c, maxSize, s') && AllResting(s') && s'.service == t && Flush.Safe(c, t)
    ensures s'.offered == s.offered && s'.dlq.queue == s.dlq.queue
    decreases |steps|
  {
    hide Flush.Apply, Flush.Enabled, Flush.Safe, Reachable;
    if steps == [] {
      s' := s;
    } else {
      var s1 := Apply(c, maxSize, s, Serve(steps[0]));
      Extend(c, maxSize, s, Serve(steps[0]));
      Flush.StepKeepsSafe(c, s.service, steps[0]);
      StepMoves(c, s.service, steps[0]);
      s' := Glide(c, maxSize, s1, steps[1..], t);
    }
  }

  /** `f` flushes of one entry each have failed, the next `n - f` are sending, and have offered nothing. */
  ghost predicate Stage(c: Flush.Config, maxSize: nat, s: State, f: nat, n: nat) {
    && Reachable(c, maxSize, s) && Flush.Safe(c, s.service) && Crews.Crew(s.service, f, n) && AllResting(s)
    && forall w :: w in s.offered ==> w < f
  }

  lemma StageSlots(c: Flush.Config, maxSize: nat, s: State, f: nat, n: nat)
    requires Stage(c, maxSize, s, f, n)
    ensures |s.dlq.slots| == n
  {
  }

  const NOW := Float(0, 0)

  /** Each worker of a crew has the same small entry to offer. */
  lemma OneLetter(s: State, f: nat, n: nat, w: nat)
    requires Crews.Crew(s.service, f, n) && f <= w < n
    ensures SendingAt(s.service.pool, w) && LettersOf(s.service.pool, w, "", NOW) == [Dlq.LETTER]
  {
  }

  /** Worker `w` offers its letter and looks at the length of the queue. */
  lemma OffersAndTests(c: Flush.Config, maxSize: nat, s: State, f: nat, n: nat, w: nat) returns (s': State)
    requires Reachable(c, maxSize, s) && Crews.Crew(s.service, f, n) && |s.dlq.slots| == n
    requires f <= w < n && s.dlq.slots[w].Resting? && w !in s.offered
    ensures Reachable(c, maxSize, s')
    ensures var slot := if |s.dlq.queue| >= maxSize then Dlq.Popping([Dlq.LETTER]) else Dlq.Appending([Dlq.LETTER]);
            s' == s.(dlq := s.dlq.(slots := s.dlq.slots[w := slot]), offered := s.offered + {w})
  {
    hide Reachable, Crews.Crew;
    OneLetter(s, f, n, w);
    var s1 := Apply(c, maxSize, s, Offer(w, "", NOW));
    Extend(c, maxSize, s, Offer(w, "", NOW));
    Extend(c, maxSize, s1, Add(Dlq.Test(w)));
    s' := Apply(c, maxSize, s1, Add(Dlq.Test(w)));
  }

  /** Worker `w` adds its letter. */
  lemma Appends(c: Flush.Config, maxSize: nat, s: State, f: nat, n: nat, w: nat) returns (s': State)
    requires Reachable(c, maxSize, s) && Crews.Crew(s.service, f, n) && |s.dlq.slots| == n
    requires f <= w < n && s.dlq.slots[w] == Dlq.Appending([Dlq.LETTER])
    ensures Reachable(c, maxSize, s')
    ensures s' == s.(dlq := Dlq.State(s.dlq.queue + [Dlq.LETTER], s.dlq.slots[w := Dlq.Resting]))
  {
    hide Reachable, Crews.Crew;
    OneLetter(s, f, n, w);
    Extend(c, maxSize, s, Add(Dlq.Append(w)));
    s' := Apply(c, maxSize, s, Add(Dlq.Append(w)));
  }

  /** The one flush under way fails, and its letter is kept. */
  lemma OneFails(c: Flush.Config, maxSize: nat, s: State, f: nat) returns (s': State)
    requires c.Valid() && Stage(c, maxSize, s, f, f + 1) && |s.dlq.queue| < maxSize
    ensures Stage(c, maxSize, s', f + 1, f + 1) && |s'.dlq.queue| == |s.dlq.queue| + 1
  {
    hide Reachable, Flush.Safe, Flush.Enabled, Flush.Apply;
    var s1 := OffersAndTests(c, maxSize, s, f, f + 1, f);
    var s2 := Appends(c, maxSize, s1, f, f + 1, f);
    Crews.SendFails(c, s.service, f, f + 1, "");
    var step := Flush.Step.EndSend(f, Some(""));
    Flush.StepKeepsSafe(c, s2.service, step);
    StepMoves(c, s2.service, step);
    Extend(c, maxSize, s2, Serve(step));
    var s3 := Apply(c, maxSize, s2, Serve(step));
    var steps, t := Crews.CrewShrinks(c, s.service, f, f + 1, "");
    SendLeavesWorkers(c, s2.service, f);
    s' := Glide(c, maxSize, s3, steps, t);
  }

  lemma SendLeavesWorkers(c: Flush.Config, s: Flush.State, w: nat)
    requires WorkerAt(s.pool, w)
    ensures |Flush.SendStep(c, s, w, Some("")).pool.workers| == |s.pool.workers|
  {
  }

  /** Any number of letters up to the limit, and nobody sending. */
  lemma {:induction false} FailuresFill(c: Flush.Config, maxSize: nat, f: nat) returns (s: State)
    requires c.Valid() && c.buffer.HasRoom() && f <= maxSize
    ensures Stage(c, maxSize, s, f, f) && |s.dlq.queue| == f
  {
    hide Reachable, Flush.Safe, Crews.Crew, Crews.Path;
    if f == 0 {
      Crews.NoCrew(c);
      s := INITIAL;
      InitialIsReachable(c, maxSize);
    } else {
      var s1 := FailuresFill(c, maxSize, f - 1);
      var steps, t := Crews.CrewGrows(c, s1.service, f - 1, f - 1);
      var s2 := Glide(c, maxSize, s1, steps, t);
      s := OneFails(c, maxSize, s2, f - 1);
    }
  }

  lemma InitialIsReachable(c: Flush.Config, maxSize: nat)
    ensures Reachable(c, maxSize, INITIAL)
  {
    assert Legal(c, maxSize, INITIAL, []) && Run(c, maxSize, INITIAL, []) == INITIAL;
  }

  /** After failures that left `f` letters, as many workers as allowed are sending. */
  lemma FullCrew(c: Flush.Config, maxSize: nat, f: nat) returns (s: State)
    requires c.Valid() && c.buffer.HasRoom() && f <= maxSize
    ensures Stage(c, maxSize, s, f, f + c.maxConcurrent) && |s.dlq.queue| == f
  {
    hide Reachable, Flush.Safe, Crews.Crew, Crews.Path;
    var s1 := FailuresFill(c, maxSize, f);
    var steps, t := Crews.CrewFills(c, s1.service, f, f, f + c.maxConcurrent);
    s := Glide(c, maxSize, s1, steps, t);
  }

  // -------------------------------------------------------------------------------------------
  // All of them fail at once

  /** From worker `w` on, everybody looks at the length before anybody acts on it. */
  lemma {:induction false} AllTest(c: Flush.Config, maxSize: nat, s: State, f: nat, n: nat, w: nat) returns (s': State)
    requires Reachable(c, maxSize, s) && Crews.Crew(s.service, f, n) && |s.dlq.slots| == n && f <= w <= n
    requires forall v :: w <= v < n ==> s.dlq.slots[v].Resting? && v !in s.offered
    ensures Reachable(c, maxSize, s') && s'.service == s.service && s'.dlq.queue == s.dlq.queue
    ensures |s'.dlq.slots| == n && forall v :: 0 <= v < w ==> s'.dlq.slots[v] == s.dlq.slots[v]
    ensures var slot := if |s.dlq.queue| >= maxSize then Dlq.Popping([Dlq.LETTER]) else Dlq.Appending([Dlq.LETTER]);
            forall v :: w <= v < n ==> s'.dlq.slots[v] == slot
    decreases n - w
  {
    hide Reachable, Crews.Crew;
    if w == n {
      s' := s;
    } else {
      var s1 := OffersAndTests(c, maxSize, s, f, n, w);
      s' := AllTest(c, maxSize, s1, f, n, w + 1);
    }
  }

  lemma {:induction false} AllAppend(c: Flush.Config, maxSize: nat, s: State, f: nat, n: nat, w: nat)
    returns (s': State)
    requires Reachable(c, maxSize, s) && Crews.Crew(s.service, f, n) && |s.dlq.slots| == n && f <= w <= n
    requires forall v :: w <= v < n ==> s.dlq.slots[v] == Dlq.Appending([Dlq.LETTER])
    ensures Reachable(c, maxSize, s') && |s'.dlq.queue| == |s.dlq.queue| + n - w
    decreases n - w
  {
    hide Reachable, Crews.Crew;
    if w == n {
      s' := s;
    } else {
      var s1 := Appends(c, maxSize, s, f, n, w);
      s' := AllAppend(c, maxSize, s1, f, n, w + 1);
    }
  }

  /** More workers ready to pop than letters: the last one pops from an empty queue. */
  lemma {:induction false} PopUntilCrash(c: Flush.Config, maxSize: nat, s: State, f: nat, n: nat, w: nat)
    returns (s': State)
    requires Reachable(c, maxSize, s) && Crews.Crew(s.service, f, n) && |s.dlq.slots| == n
    requires f <= w && w + |s.dlq.queue| < n
    requires forall v :: w <= v < n ==> s.dlq.slots[v] == Dlq.Popping([Dlq.LETTER])
    ensures Reachable(c, maxSize, s') && exists v :: 0 <= v < |s'.dlq.slots| && s'.dlq.slots[v].Crashed?
    decreases |s.dlq.queue|
  {
    hide Reachable, Crews.Crew;
    OneLetter(s, f, n, w);
    Extend(c, maxSize, s, Add(Dlq.Pop(w)));
    s' := Apply(c, maxSize, s, Add(Dlq.Pop(w)));
    if s.dlq.queue == [] {
      assert s'.dlq.slots[w].Crashed?;
    } else {
      s' := PopUntilCrash(c, maxSize, s', f, n, w + 1);
    }
  }

  /** The bound is attained: by one letter less than the limit, and as many flushes as allowed that fail at
      once. */
  lemma ServiceQueueBoundIsAttained(c: Flush.Config, maxSize: nat) returns (s: State)
    requires c.Valid() && c.buffer.HasRoom() && maxSize >= 1
    ensures Reachable(c, maxSize, s) && |s.dlq.queue| == maxSize + c.maxConcurrent - 1
  {
    hide Reachable, Crews.Crew, Flush.Safe;
    var f := maxSize - 1;
    var n := f + c.maxConcurrent;
    var s1 := FullCrew(c, maxSize, f);
    StageSlots(c, maxSize, s1, f, n);
    var s2 := AllTest(c, maxSize, s1, f, n, f);
    s := AllAppend(c, maxSize, s2, f, n, f);
  }

  /** No worker ever pops from an empty queue. */
  ghost predicate PopsAreSafe(c: Flush.Config, maxSize: nat) {
    forall s :: Reachable(c, maxSize, s) ==> forall w :: 0 <= w < |s.dlq.slots| ==> !s.dlq.slots[w].Crashed?
  }

  /** That is so exactly if the queue has a place for each concurrent flush, or the buffer has no room for
      an entry. */
  lemma ServicePopIsSafeIff(c: Flush.Config, maxSize: nat)
    requires c.Valid() && maxSize >= 1
    ensures PopsAreSafe(c, maxSize) <==> maxSize >= c.maxConcurrent || !c.buffer.HasRoom()
  {
    hide Reachable, Crews.Crew, Flush.Safe;
    if maxSize >= c.maxConcurrent || !c.buffer.HasRoom() {
      forall s | Reachable(c, maxSize, s)
        ensures forall w :: 0 <= w < |s.dlq.slots| ==> !s.dlq.slots[w].Crashed?
      {
        ReachableIsSafe(c, maxSize, s);
        if !c.buffer.HasRoom() {
          NoRoomMeansNoWorkers(c, maxSize, s);
        }
      }
    } else {
      var n := maxSize + c.maxConcurrent;
      var s1 := FullCrew(c, maxSize, maxSize);
      StageSlots(c, maxSize, s1, maxSize, n);
      var s2 := AllTest(c, maxSize, s1, maxSize, n, maxSize);
      var s3 := PopUntilCrash(c, maxSize, s2, maxSize, n, maxSize);
    }
  }

  lemma NoRoomMeansNoWorkers(c: Flush.Config, maxSize: nat, s: State)
    requires c.Valid() && !c.buffer.HasRoom() && Reachable(c, maxSize, s)
    ensures s.service.pool.workers == []
  {
    hide Apply, Enabled, Flush.Apply, Flush.Enabled;
    var steps: seq<Step> :| Legal(c, maxSize, INITIAL, steps) && Run(c, maxSize, INITIAL, steps) == s;
    var serve := ServiceOf(c, maxSize, INITIAL, steps);
    assert Flush.Reachable(c, s.service);
    Deadlocks.ReachableIsHarmless(c, s.service);
  }

  /** The service alone, in a run of both. */
  lemma {:induction false} ServiceOf(c: Flush.Config, maxSize: nat, s: State, steps: seq<Step>)
    returns (serve: seq<Flush.Step>)
    requires Legal(c, maxSize, s, steps)
    ensures Flush.Legal(c, s.service, serve)
    ensures Flush.Run(c, s.service, serve) == Run(c, maxSize, s, steps).service
    decreases |steps|
  {
    hide Flush.Apply, Flush.Enabled, Dlq.Apply, Dlq.Enabled;
    if steps == [] {
      serve := [];
    } else {
      serve := ServiceOf(c, maxSize, Apply(c, maxSize, s, steps[0]), steps[1..]);
      if steps[0].Serve? {
        var rest := serve;
        serve := [steps[0].step] + rest;
        assert serve[1..] == rest;
      }
    }
  }
}
