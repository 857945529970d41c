/** How many queued batches a locked section starts, and which. */
module FlushRules {
  import opened Prelude

  /** The batches waiting in order, the workers said to be running, and the batches just started. */
  datatype Lanes = Lanes(queue: seq<nat>, inFlight: int, started: seq<nat>)

  /** The loop of `_process_flush_queue_locked`. */
  function Dispatch(max: int, l: Lanes): Lanes
    decreases |l.queue|
  {
    if l.inFlight < max && l.queue != [] then
      Dispatch(max, Lanes(l.queue[1..], l.inFlight + 1, l.started + [l.queue[0]]))
    else
      l
  }

  function Enqueue(max: int, l: Lanes, task: nat): Lanes {
    Dispatch(max, l.(queue := l.queue + [task]))
  }

  /** A worker ends: its slot is given back and the queue gets its chance. */
  function Release(max: int, l: Lanes): Lanes {
    Dispatch(max, l.(inFlight := Max(0, l.inFlight - 1)))
  }

  /** Dispatching starts the longest prefix of the queue that the limit has room for. */
  lemma {:induction false} DispatchStartsPrefix(max: int, l: Lanes)
    ensures var k := Max(0, Min(max - l.inFlight, |l.queue|));
            Dispatch(max, l) == Lanes(l.queue[k..], l.inFlight + k, l.started + l.queue[..k])
    decreases |l.queue|
  {
    if l.inFlight < max && l.queue != [] {
      var next := Lanes(l.queue[1..], l.inFlight + 1, l.started + [l.queue[0]]);
      DispatchStartsPrefix(max, next);
      var k := Min(max - l.inFlight, |l.queue|);
      assert next.queue[k - 1..] == l.queue[k..];
      assert [l.queue[0]] + next.queue[..k - 1] == l.queue[..k];
    } else {
      assert l.queue[0..] == l.queue && l.started + l.queue[..0] == l.started;
    }
  }

  /** Within the limit, and never a batch waiting beside an idle slot. */
  predicate WorkConserving(max: int, l: Lanes) {
    0 <= l.inFlight <= max && (l.queue != [] ==> l.inFlight == max)
  }

  lemma EnqueueKeepsWorkConserving(max: int, l: Lanes, task: nat)
    requires WorkConserving(max, l)
    ensures WorkConserving(max, Enqueue(max, l, task))
    ensures var l' := Enqueue(max, l, task);
            && l'.started + l'.queue == l.started + l.queue + [task]
            && l'.inFlight - l.inFlight == |l'.started| - |l.started|
  {
    hide Dispatch;
    DispatchStartsPrefix(max, l.(queue := l.queue + [task]));
  }

  /** With a worker to account for, giving back its slot is exact: the clamp at zero is idle. */
  lemma ReleaseKeepsWorkConserving(max: int, l: Lanes)
    requires WorkConserving(max, l) && l.inFlight >= 1
    ensures WorkConserving(max, Release(max, l))
    ensures var l' := Release(max, l);
            && l'.started + l'.queue == l.started + l.queue
            && l'.inFlight - (l.inFlight - 1) == |l'.started| - |l.started|
            && |l'.queue| + l'.inFlight == |l.queue| + l.inFlight - 1
  {
    hide Dispatch;
    DispatchStartsPrefix(max, l.(inFlight := l.inFlight - 1));
    assert Max(0, l.inFlight - 1) == l.inFlight - 1;
  }
}

/** The queue that the flush callers and the workers share. */
module FlushSchedulers {
  import opened Prelude
  import Rules = FlushRules
  import opened FlushRules

  class FlushScheduler {
    const maxConcurrentFlushes: nat
    var flushQueue: seq<nat>
    var inFlightFlushes: int
    /** Every batch whose worker has been started, in order. */
    ghost var started: seq<nat>

    ghost function Fields(): Lanes
      reads this
    {
      Lanes(flushQueue, inFlightFlushes, started)
    }

    ghost predicate Valid()
      reads this
    {
      maxConcurrentFlushes >= 1 && WorkConserving(maxConcurrentFlushes, Fields())
    }

    constructor (configured: int)
      ensures Valid() && Fields() == Lanes([], 0, [])
      ensures maxConcurrentFlushes == Max(1, configured)
    {
      maxConcurrentFlushes := Max(1, configured);
      flushQueue, inFlightFlushes, started := [], 0, [];
    }

    method ProcessFlushQueueLocked()
      modifies this
      ensures Fields() == Dispatch(maxConcurrentFlushes, old(Fields()))
    {
      while inFlightFlushes < maxConcurrentFlushes && |flushQueue| > 0
        invariant Dispatch(maxConcurrentFlushes, Fields()) == Dispatch(maxConcurrentFlushes, old(Fields()))
        decreases |flushQueue|
      {
        var task := flushQueue[0];
        flushQueue := flushQueue[1..];
        inFlightFlushes := inFlightFlushes + 1;
        started := started + [task];
      }
    }

    /** The locked section of `_enqueue_flush`. */
    method AppendTask(task: nat)
      requires Valid()
      modifies this
      ensures Valid()
      ensures Fields() == Rules.Enqueue(maxConcurrentFlushes, old(Fields()), task)
      ensures started + flushQueue == old(started + flushQueue) + [task]
    {
      EnqueueKeepsWorkConserving(maxConcurrentFlushes, Fields(), task);
      flushQueue := flushQueue + [task];
      ProcessFlushQueueLocked();
    }

    /** The locked section that ends a worker. */
    method ReleaseSlot()
      requires Valid() && inFlightFlushes >= 1
      modifies this
      ensures Valid()
      ensures Fields() == Rules.Release(maxConcurrentFlushes, old(Fields()))
      ensures started + flushQueue == old(started + flushQueue)
      ensures |flushQueue| + inFlightFlushes == old(|flushQueue| + inFlightFlushes) - 1
    {
      ReleaseKeepsWorkConserving(maxConcurrentFlushes, Fields());
      inFlightFlushes := Max(0, inFlightFlushes - 1);
      ProcessFlushQueueLocked();
    }

    /** The condition under which `_wait_for_queue_idle` returns. */
    predicate Idle()
      reads this
    {
      !(inFlightFlushes > 0 || flushQueue != [])
    }
  }
}
