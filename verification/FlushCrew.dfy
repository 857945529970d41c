/**
  Services with as many workers sending at once as they are allowed, after any number of failed
  flushes: the stage for what several senders do to something they share.
 */
module FlushCrews {
  import opened Prelude
  import opened MemoryAccounting
  import BufferPolicy
  import opened FlushRules
  import Pools = FlushPools
  import opened FlushPools
  import opened FlushInterleavings
  import opened FlushProgress
  import opened FlushDeadlocks

  // -------------------------------------------------------------------------------------------
  // Stretches in which no send ends

  /** These steps lead from one state to the other, and none is the end of a send. */
  ghost predicate Path(c: Config, s: State, steps: seq<Step>, s': State) {
    && Legal(c, s, steps) && Run(c, s, steps) == s'
    && forall k :: 0 <= k < |steps| ==> !steps[k].EndSend?
  }

  lemma PathThen(c: Config, s: State, steps: seq<Step>, s1: State, step: Step)
    requires Path(c, s, steps, s1) && Enabled(c, s1, step) && !step.EndSend?
    ensures Path(c, s, steps + [step], Apply(c, s1, step))
  {
    hide Apply, Enabled;
    RunThen(c, s, steps, step);
  }

  lemma PathConcat(c: Config, s: State, first: seq<Step>, s1: State, second: seq<Step>, s2: State)
    requires Path(c, s, first, s1) && Path(c, s1, second, s2)
    ensures Path(c, s, first + second, s2)
  {
    hide Apply, Enabled;
    RunConcat(c, s, first, second);
  }

  lemma PathStays(c: Config, s: State)
    ensures Path(c, s, [], s)
  {
  }

  lemma PathKeepsSafe(c: Config, s: State, steps: seq<Step>, s': State)
    requires c.Valid() && Safe(c, s) && Path(c, s, steps, s')
    ensures Safe(c, s')
  {
    hide Apply, Enabled, Safe;
    RunKeepsSafe(c, s, steps);
  }

  // -------------------------------------------------------------------------------------------
  // Crews

  /** Of `n` calls of `flush`, each with a batch of one entry and a worker of its own, the sends of the
      first `f` have failed and those of the others are under way. */
  ghost predicate Crew(s: State, f: nat, n: nat) {
    && s.buffer == [] && !s.bufferDestroyed && !s.destroyed && s.lockHolder == None
    && f <= n == |s.callers| == |s.pool.workers| == |s.pool.tasks| == |s.pool.batches|
    && s.pool.lanes.queue == [] && s.pool.lanes.inFlight == n - f
    && (forall w :: 0 <= w < f ==> s.pool.workers[w].pc.Exited?)
    && (forall w :: f <= w < n ==> s.pool.workers[w] == Worker(w, Sending, None, None))
    && (forall w :: 0 <= w < n ==> s.pool.batches[w] == [SomeItem(w)])
    && (forall i :: 0 <= i < n ==> s.callers[i] == Caller(Flush, Waiting, Some(i)))
    && s.books.ignored == multiset{} && forall item :: item in s.books.accepted ==> item.ref < n
  }

  /** A call of `flush` that finds the buffer filled takes what is in it. */
  lemma FlushTakes(c: Config, s: State) returns (steps: seq<Step>, s': State)
    requires !s.destroyed && s.lockHolder == None && s.buffer != []
    ensures Path(c, s, steps, s')
    ensures s' == s.(callers := s.callers + [Caller(Flush, Holding(s.buffer), None)], buffer := [])
  {
    hide Path, Pools.Enqueue, BufferPolicy.AfterAdd, CloseStep, WakeStep, EnqueueStep, SendStep, Pools.Release;
    var i := |s.callers|;
    var s1 := BeginStep(s, Flush);
    var s2 := Goto(s1, i, Sizing);
    var s3 := Goto(s2, i, Taking);
    s' := Goto(s3, i, Holding(s.buffer)).(buffer := []);
    PathStays(c, s);
    PathThen(c, s, [], s, Begin(Flush));
    PathThen(c, s, [] + [Begin(Flush)], s1, Act(i));
    PathThen(c, s, [] + [Begin(Flush)] + [Act(i)], s2, Act(i));
    PathThen(c, s, [] + [Begin(Flush)] + [Act(i)] + [Act(i)], s3, Act(i));
    steps := [] + [Begin(Flush)] + [Act(i)] + [Act(i)] + [Act(i)];
    assert s'.callers == s.callers + [Caller(Flush, Holding(s.buffer), None)];
  }

  /** A slot is free, so nothing is queued and the batch gets a worker right away. */
  lemma EnqueueStartsAtOnce(max: nat, p: Pool, owner: nat, batch: seq<Item>)
    requires Sound(max, p) && p.lanes.inFlight < max
    ensures var p' := Pools.Enqueue(max, p, owner, batch);
            && p'.lanes.inFlight == p.lanes.inFlight + 1 && p'.lanes.queue == []
            && p'.tasks == p.tasks + [Task(owner, false, None)] && p'.batches == p.batches + [batch]
            && p'.workers == p.workers + [Worker(|p.tasks|, Sending, None, None)]
  {
    hide Dispatch, LiveCount, Reported;
    var t := |p.tasks|;
    var lanes := p.lanes.(queue := p.lanes.queue + [t]);
    assert p.lanes.queue == [];
    DispatchStartsPrefix(max, lanes);
    assert lanes.queue[..1] == [t] && lanes.queue[1..] == [];
    assert Dispatch(max, lanes).started[|p.lanes.started|..] == [t];
  }

  lemma LogsOne(c: Config, s: State, f: nat, n: nat) returns (steps: seq<Step>, s': State)
    requires c.buffer.HasRoom() && Crew(s, f, n)
    ensures Path(c, s, steps, s') && s'.buffer == [SomeItem(n)]
    ensures s' == s.(buffer := s'.buffer, books := s'.books)
    ensures s'.books.ignored == multiset{} && forall item :: item in s'.books.accepted ==> item.ref < n + 1
  {
    hide Path, Pools.Enqueue;
    SomeItemIsKept(c.buffer, n);
    s' := LogStep(c, s, SomeItem(n), 0.0);
    PathStays(c, s);
    PathThen(c, s, [], s, Log(SomeItem(n), 0.0));
    steps := [] + [Log(SomeItem(n), 0.0)];
  }

  /** While a slot is free, one more call gets its worker sending. */
  lemma CrewGrows(c: Config, s: State, f: nat, n: nat) returns (steps: seq<Step>, s': State)
    requires c.Valid() && c.buffer.HasRoom() && n - f < c.maxConcurrent && Safe(c, s) && Crew(s, f, n)
    ensures Path(c, s, steps, s') && Crew(s', f, n + 1)
  {
    hide Path, Apply, Enabled, Pools.Enqueue, Sound;
    var logs, s1 := LogsOne(c, s, f, n);
    var takes, s2 := FlushTakes(c, s1);
    PathConcat(c, s, logs, s1, takes, s2);
    PathKeepsSafe(c, s, logs + takes, s2);
    EnqueueStartsAtOnce(c.maxConcurrent, s2.pool, n, s1.buffer);
    ApplyAct(c, s2, n);
    PathThen(c, s, logs + takes, s2, Act(n));
    steps := logs + takes + [Act(n)];
    s' := EnqueueStep(c, s2, n, s1.buffer);
  }

  /** The oldest send fails. */
  lemma SendFails(c: Config, s: State, f: nat, n: nat, error: Error)
    requires Crew(s, f, n) && f < n
    ensures Enabled(c, s, Step.EndSend(f, Some(error)))
    ensures Apply(c, s, Step.EndSend(f, Some(error))) == SendStep(c, s, f, Some(error))
  {
    hide BufferPolicy.AfterAdd;
  }

  /** Its worker then ends, and nobody takes its place. */
  lemma CrewShrinks(c: Config, s: State, f: nat, n: nat, error: Error) returns (steps: seq<Step>, s': State)
    requires c.Valid() && Crew(s, f, n) && f < n
    ensures Path(c, SendStep(c, s, f, Some(error)), steps, s') && Crew(s', f + 1, n)
  {
    hide Path, BufferPolicy.AfterAdd, ActStep, Dispatch;
    var s1 := SendStep(c, s, f, Some(error));
    var s2 := s1.(pool := Pools.Signal(s1.pool, f));
    s' := s2.(pool := Pools.Release(c.maxConcurrent, s2.pool, f));
    DispatchStartsPrefix(c.maxConcurrent, s2.pool.lanes.(inFlight := Max(0, s2.pool.lanes.inFlight - 1)));
    PathStays(c, s1);
    PathThen(c, s1, [], s1, Step.Signal(f));
    PathThen(c, s1, [] + [Step.Signal(f)], s2, Step.Release(f));
    steps := [] + [Step.Signal(f)] + [Step.Release(f)];
  }

  /** Up to the limit, any number more of them. */
  lemma {:induction false} CrewFills(c: Config, s: State, f: nat, n: nat, m: nat) returns (steps: seq<Step>, s': State)
    requires c.Valid() && c.buffer.HasRoom() && n <= m && m - f <= c.maxConcurrent && Safe(c, s) && Crew(s, f, n)
    ensures Path(c, s, steps, s') && Crew(s', f, m)
    decreases m - n
  {
    hide Path, Safe, Crew;
    if n == m {
      PathStays(c, s);
      steps, s' := [], s;
    } else {
      var first, s1 := CrewGrows(c, s, f, n);
      PathKeepsSafe(c, s, first, s1);
      var rest, s2 := CrewFills(c, s1, f, n + 1, m);
      PathConcat(c, s, first, s1, rest, s2);
      steps, s' := first + rest, s2;
    }
  }

  lemma NoCrew(c: Config)
    requires c.Valid()
    ensures Crew(INITIAL, 0, 0) && Safe(c, INITIAL) && Reachable(c, INITIAL)
  {
    assert Legal(c, INITIAL, []) && Run(c, INITIAL, []) == INITIAL;
  }

  /** A service with room for an entry gets as many workers sending at once as it is allowed. */
  lemma BusyCrew(c: Config, n: nat) returns (s: State)
    requires c.Valid() && c.buffer.HasRoom() && n <= c.maxConcurrent
    ensures Reachable(c, s) && Crew(s, 0, n)
  {
    hide Safe, Crew, Apply, Enabled;
    NoCrew(c);
    var steps;
    steps, s := CrewFills(c, INITIAL, 0, 0, n);
  }
}
