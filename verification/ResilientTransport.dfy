/** Which failures are retried, how often, and how long a send sleeps between attempts. */
module RetryRules {
  import opened Prelude

  /** An exception: its `retryable` flag and `status_code` when it has them, and its text. */
  datatype Failure = Failure(retryable: Option<bool>, statusCode: Option<int>, message: string)

  const MARKERS: seq<string> := ["timeout", "socket", "connect", "network", "429", "502", "503", "504"]

  function Lower(s: string): string {
    seq(|s|, i requires 0 <= i < |s| => if 'A' <= s[i] <= 'Z' then ((s[i] as int) + 32) as char else s[i])
  }

  predicate Contains(s: string, part: string) {
    exists i :: 0 <= i <= |s| && part <= s[i..]
  }

  predicate IsRetryable(e: Failure) {
    if e.retryable.Some? then e.retryable.value
    else if e.statusCode.Some? then e.statusCode.value == 429 || e.statusCode.value >= 500
    else exists m :: m in MARKERS && Contains(Lower(e.message), m)
  }

  /** The word occurs in the text. */
  ghost predicate Holds(text: string, word: string) {
    exists a, b: string :: text == a + word + b
  }

  /** A failure's own word comes first, then its status code, then its text. */
  lemma RetryableIff(flag: bool, code: int, message: string)
    ensures forall other :: IsRetryable(Failure(Some(flag), other, message)) <==> flag
    ensures IsRetryable(Failure(None, Some(code), message)) <==> code == 429 || code >= 500
    ensures IsRetryable(Failure(None, None, message)) <==>
            var text := Lower(message);
            || Holds(text, "timeout") || Holds(text, "socket") || Holds(text, "connect") || Holds(text, "network")
            || Holds(text, "429") || Holds(text, "502") || Holds(text, "503") || Holds(text, "504")
  {
    forall m: string
      ensures Contains(Lower(message), m) <==> Holds(Lower(message), m)
    {
      HoldsIff(Lower(message), m);
    }
    hide Contains, Holds, Lower;
    assert forall m :: m in MARKERS <==>
             m == "timeout" || m == "socket" || m == "connect" || m == "network"
             || m == "429" || m == "502" || m == "503" || m == "504";
  }

  lemma HoldsIff(s: string, part: string)
    ensures Contains(s, part) <==> Holds(s, part)
  {
    if Contains(s, part) {
      var i :| 0 <= i <= |s| && part <= s[i..];
      assert s == s[..i] + part + s[i..][|part|..];
    }
    if a, b: string :| s == a + part + b {
      assert s[|a|..] == part + b;
    }
  }

  /** Text is compared without regard to the case of ASCII letters. */
  lemma LowerLaw(s: string, i: nat)
    requires i < |s|
    ensures |Lower(s)| == |s|
    ensures 'A' <= s[i] <= 'Z' ==> Lower(s)[i] as int - 'a' as int == s[i] as int - 'A' as int
    ensures !('A' <= s[i] <= 'Z') ==> Lower(s)[i] == s[i]
  {
  }

  /** How each attempt of a send would end, if it were made: nothing, or a failure. */
  type Script = nat -> Option<Failure>

  /** The attempt that a retry loop, having reached attempt `i`, ends with. */
  function LastAttempt(script: Script, maxRetries: nat, i: nat): nat
    decreases maxRetries - i
  {
    if i >= maxRetries || script(i).None? || !IsRetryable(script(i).value) then i
    else LastAttempt(script, maxRetries, i + 1)
  }

  predicate Retried(script: Script, i: nat) {
    script(i).Some? && IsRetryable(script(i).value)
  }

  /** At most one attempt more than the retries allowed, each but the last a retryable failure; and the
      last is not followed by another only for a reason. */
  lemma {:induction false} LoopStops(script: Script, maxRetries: nat, i: nat)
    requires i <= maxRetries
    ensures var last := LastAttempt(script, maxRetries, i);
            && i <= last <= maxRetries
            && (forall k :: i <= k < last ==> Retried(script, k))
            && (last == maxRetries || !Retried(script, last))
    decreases maxRetries - i
  {
    if i == maxRetries || !Retried(script, i) {
    } else {
      LoopStops(script, maxRetries, i + 1);
    }
  }

  /** A send gets through exactly when some attempt within the limit would succeed and all before it
      would fail retryably. */
  lemma DeliveredIff(script: Script, maxRetries: nat)
    ensures script(LastAttempt(script, maxRetries, 0)).None? <==>
            exists j :: 0 <= j <= maxRetries && script(j).None? && forall k :: 0 <= k < j ==> Retried(script, k)
  {
    LoopStops(script, maxRetries, 0);
    var last := LastAttempt(script, maxRetries, 0);
    if j :| 0 <= j <= maxRetries && script(j).None? && forall k :: 0 <= k < j ==> Retried(script, k) {
      assert j < last ==> Retried(script, j);
    }
  }

  const MAX_JITTER := 250

  function JitterSum(jitter: nat -> nat, r: nat): nat {
    if r == 0 then 0 else JitterSum(jitter, r - 1) + jitter(r - 1)
  }

  /** To the millisecond, r retries back off by d(2^r - 1) and every jitter. */
  lemma {:induction false} BackoffIsExact(delay: nat, jitter: nat -> nat, r: nat)
    ensures Slept(delay, jitter, r) == delay * (Pow2(r) - 1) + JitterSum(jitter, r)
  {
    if r == 0 {
    } else {
      BackoffIsExact(delay, jitter, r - 1);
      var p: int := Pow2(r - 1);
      assert delay * (2 * p - 1) == delay * (p - 1) + delay * p;
    }
  }

  /** Milliseconds slept before attempt `r`. */
  function Slept(delay: nat, jitter: nat -> nat, r: nat): nat {
    if r == 0 then 0 else Slept(delay, jitter, r - 1) + delay * Pow2(r - 1) + jitter(r - 1)
  }

  /** r retries back off by d(2^r - 1) milliseconds, give or take the jitter. */
  lemma {:induction false} BackoffBounds(delay: nat, jitter: nat -> nat, r: nat)
    requires forall k :: 0 <= k < r ==> jitter(k) <= MAX_JITTER
    ensures delay * (Pow2(r) - 1) <= Slept(delay, jitter, r) <= delay * (Pow2(r) - 1) + 250 * r
  {
    if r == 0 {
    } else {
      BackoffBounds(delay, jitter, r - 1);
      var p: int := Pow2(r - 1);
      assert delay * (2 * p - 1) == delay * (p - 1) + delay * p;
    }
  }
}

/** What sends do to the breaker that guards them. */
module SendRules {
  import opened Prelude
  import opened RetryRules
  import opened BreakerRules

  /** A send that was let in has ended, with an error or without. */
  predicate Recorded(
    c: Config, before: Breaker, after: Breaker, error: Option<Failure>, failedAt: real, armedAt: real)
  {
    if error.Some? then
      && after.failures == before.failures + 1
      && after.lastError == Some(error.value.message) && after.lastFailure == Some(failedAt)
      && if before.phase == Closed && after.failures < c.failureThreshold then
           after.phase == Closed && after.nextAttempt == before.nextAttempt
         else
           after.phase == Open && after.nextAttempt == Some(armedAt + c.resetTimeout as real / 1000.0)
    else if before.phase == Closed then
      after == before.(failures := 0, lastError := None)
    else
      var successes := 1 + if before.phase == HalfOpen then before.successCount else 0;
      if successes >= c.halfOpenRequests then
        after.phase == Closed && after.failures == 0 && after.lastError == None
      else
        after.phase == HalfOpen && after.successCount == successes && after.failures == before.failures
  }

  lemma RefusalChangesNothing(c: Config, b: Breaker, now: real)
    requires c.Valid() && Enter(c, b, now).1.Refused?
    ensures Enter(c, b, now).0 == b
  {
  }

  lemma ExecuteRecords(
    c: Config, b: Breaker, error: Option<Failure>, now: real, failedAt: real, armedAt: real)
    requires c.Valid() && Inv(c, b) && Enter(c, b, now).1.Admitted?
    ensures var outcome := if error.None? then Returned else Raised(error.value.message);
            Recorded(c, b, Execute(c, b, Attempt(now, outcome, failedAt, armedAt)).0, error, failedAt, armedAt)
  {
  }

  ghost predicate RecordedFailure(c: Config, before: Breaker, after: Breaker, armedAt: real) {
    exists failure, failedAt :: Recorded(c, before, after, Some(failure), failedAt, armedAt)
  }

  /** Sends that were let in and failed, one after the other, the k-th recorded at `armed[k]`. */
  ghost predicate Failing(c: Config, bs: seq<Breaker>, armed: seq<real>) {
    && |bs| == |armed| + 1
    && forall k :: 0 <= k < |armed| ==> RecordedFailure(c, bs[k], bs[k + 1], armed[k])
  }

  lemma {:induction false} FailuresCount(c: Config, bs: seq<Breaker>, armed: seq<real>, k: nat)
    requires c.Valid() && Failing(c, bs, armed) && bs[0].phase == Closed && bs[0].failures == 0
    requires k < |bs| && k < c.failureThreshold
    ensures bs[k].phase == Closed && bs[k].failures == k
  {
    if k == 0 {
    } else {
      FailuresCount(c, bs, armed, k - 1);
      assert RecordedFailure(c, bs[k - 1], bs[k - 1 + 1], armed[k - 1]);
      var failure, failedAt :| Recorded(c, bs[k - 1], bs[k], Some(failure), failedAt, armed[k - 1]);
    }
  }

  /** Exactly threshold-many failing sends in a row open a fresh breaker, none fewer, and it refuses the next
      send until its reset timeout has passed. */
  lemma FailingSendsOpen(c: Config, bs: seq<Breaker>, armed: seq<real>, now: real)
    requires c.Valid() && Failing(c, bs, armed) && |armed| == c.failureThreshold
    requires bs[0].phase == Closed && bs[0].failures == 0
    ensures forall k :: 0 <= k < c.failureThreshold ==> bs[k].phase == Closed
    ensures bs[c.failureThreshold].phase == Open
    ensures now < armed[c.failureThreshold - 1] + c.resetTimeout as real / 1000.0 ==>
              Enter(c, bs[c.failureThreshold], now).1 == Refused("Circuit breaker is open")
  {
    forall k | 0 <= k < c.failureThreshold
      ensures bs[k].phase == Closed && bs[k].failures == k
    {
      FailuresCount(c, bs, armed, k);
    }
    var n := c.failureThreshold - 1;
    var failure, failedAt :| Recorded(c, bs[n], bs[n + 1], Some(failure), failedAt, armed[n]);
  }
}

/** The transport that retries, guards itself with the breaker, and falls back to a dead letter queue. */
module ResilientTransports {
  import opened Prelude
  import opened LogEntries
  import Breakers = BreakerRules
  import opened CircuitBreakers
  import opened MemoryDlqs
  import opened JsonLines
  import opened FileDlqRules
  import opened FileDlqs
  import opened RetryRules
  import opened SendRules

  /** Readings of the clock during one send; that for the dead letters as the number they store. */
  datatype Clock = Clock(enteredAt: real, failedAt: real, armedAt: real, deadAt: Double, warnedAt: real)

  class ResilientTransport {
    const maxRetries: nat
    const retryDelay: nat
    const breaker: CircuitBreaker?
    /** The dead letter queue, if there is one: in memory or on file. */
    const dlq: MemoryDeadLetterQueue?
    const fileDlq: FileDeadLetterQueue?
    var totalSends: nat
    var successfulSends: nat
    var failedSends: nat
    var retryAttempts: nat
    var retriedRequests: nat
    var dlqDroppedEntries: nat
    var lastDlqWarning: real
    /** Every batch ever offered to the dead letter queue. */
    ghost var offered: seq<seq<Entry>>

    ghost function Parts(): set<object> {
      (if breaker != null then {breaker} else {}) + DlqParts()
    }

    ghost function DlqParts(): set<object> {
      (if dlq != null then {dlq} else {}) + (if fileDlq != null then {fileDlq} else {})
    }

    ghost predicate Valid()
      reads this, Parts()
    {
      && (breaker != null ==> breaker.Valid())
      && DlqValid()
      && totalSends == successfulSends + failedSends
      && retriedRequests <= retryAttempts
      && |offered| == if dlq != null || fileDlq != null then failedSends else 0
    }

    ghost predicate DlqValid()
      reads DlqParts()
    {
      && (dlq == null || fileDlq == null)
      && (dlq != null ==> dlq.Valid())
      && (fileDlq != null ==> fileDlq.Valid())
    }

    /** The letters that a failed batch is offered as, added to a file's queue. */
    ghost function FullQueue(before: seq<Letter>, entries: seq<Entry>, reason: string, timestamp: Double): seq<Letter>
      requires fileDlq != null
    {
      LastN(before + Letters(entries, reason, timestamp), fileDlq.maxSize)
    }

    constructor (maxRetries: nat, retryDelay: nat, breaker: CircuitBreaker?, dlq: MemoryDeadLetterQueue?,
                 fileDlq: FileDeadLetterQueue?)
      requires (breaker != null ==> breaker.Valid()) && (dlq == null || fileDlq == null)
      requires (dlq != null ==> dlq.Valid()) && (fileDlq != null ==> fileDlq.Valid())
      ensures Valid() && totalSends == 0 && offered == []
      ensures this.maxRetries == maxRetries && this.retryDelay == retryDelay
      ensures this.breaker == breaker && this.dlq == dlq && this.fileDlq == fileDlq
    {
      this.maxRetries, this.retryDelay, this.breaker := maxRetries, retryDelay, breaker;
      this.dlq, this.fileDlq := dlq, fileDlq;
      totalSends, successfulSends, failedSends := 0, 0, 0;
      retryAttempts, retriedRequests, dlqDroppedEntries := 0, 0, 0;
      lastDlqWarning, offered := 0.0, [];
    }

    method RetryOperation(script: Script, jitter: nat -> nat)
      returns (error: Option<Failure>, attempts: nat, slept: nat)
      modifies `retryAttempts, `retriedRequests
      ensures attempts == LastAttempt(script, maxRetries, 0) + 1 <= maxRetries + 1
      ensures error == script(attempts - 1)
      ensures slept == Slept(retryDelay, jitter, attempts - 1)
      ensures retryAttempts == old(retryAttempts) + attempts - 1
      ensures retriedRequests == old(retriedRequests) + if attempts > 1 then 1 else 0
    {
      hide IsRetryable;
      var totalAttempts := maxRetries + 1;
      var requestRetried := false;
      var factor := 1;
      error, attempts, slept := None, 0, 0;
      LoopStops(script, maxRetries, 0);
      for attempt := 0 to totalAttempts
        invariant attempt <= maxRetries ==>
                    LastAttempt(script, maxRetries, 0) == LastAttempt(script, maxRetries, attempt)
        invariant attempt <= LastAttempt(script, maxRetries, 0)
        invariant factor == Pow2(attempt) && slept == Slept(retryDelay, jitter, attempt)
        invariant requestRetried <==> attempt > 0
        invariant retryAttempts == old(retryAttempts) + attempt
        invariant retriedRequests == old(retriedRequests) + if attempt > 0 then 1 else 0
      {
        error := script(attempt);
        if error.None? {
          attempts := attempt + 1;
          return;
        }
        var shouldRetry := attempt < totalAttempts - 1 && IsRetryable(error.value);
        if !shouldRetry {
          attempts := attempt + 1;
          return;
        }
        if !requestRetried {
          requestRetried := true;
          retriedRequests := retriedRequests + 1;
        }
        retryAttempts := retryAttempts + 1;
        var baseDelay := retryDelay * factor;
        slept := slept + baseDelay + jitter(attempt);
        factor := 2 * factor;
      }
      assert false;
    }

    /** The result of the breaker's gate. */
    ghost function Gate(before: Breakers.Breaker, now: real): Breakers.Admission
      requires breaker != null
    {
      Breakers.Enter(breaker.config, before, now).1
    }

    /** `execute` around the retry loop: the breaker sees one outcome, whatever the number of attempts,
        and none when it refuses. */
    method Deliver(script: Script, jitter: nat -> nat, clock: Clock) returns (error: Option<Failure>, attempts: nat)
      requires breaker != null ==> breaker.Valid()
      modifies `retryAttempts, `retriedRequests, if breaker != null then {breaker} else {}
      ensures breaker != null ==> breaker.Valid()
      ensures breaker != null && breaker.config.enabled && Gate(old(breaker.Fields()), clock.enteredAt).Refused? ==>
                && attempts == 0 && retryAttempts == old(retryAttempts) && retriedRequests == old(retriedRequests)
                && error == Some(Failure(None, None, Gate(old(breaker.Fields()), clock.enteredAt).reason))
      ensures breaker == null || !breaker.config.enabled
              || Gate(old(breaker.Fields()), clock.enteredAt).Admitted? ==>
                && attempts == LastAttempt(script, maxRetries, 0) + 1 && error == script(attempts - 1)
                && retryAttempts == old(retryAttempts) + attempts - 1
                && retriedRequests == old(retriedRequests) + if attempts > 1 then 1 else 0
      ensures breaker != null && breaker.config.enabled ==>
                breaker.Fields() == Breakers.Execute(breaker.config, old(breaker.Fields()), Outcome(error, clock)).0
      ensures breaker != null && breaker.config.enabled && Gate(old(breaker.Fields()), clock.enteredAt).Admitted? ==>
                Recorded(breaker.config, old(breaker.Fields()), breaker.Fields(), error, clock.failedAt, clock.armedAt)
      ensures breaker != null && breaker.config.enabled && Gate(old(breaker.Fields()), clock.enteredAt).Refused? ==>
                breaker.Fields() == old(breaker.Fields())
      ensures breaker != null && !breaker.config.enabled ==> breaker.Fields() == old(breaker.Fields())
    {
      hide LastAttempt, Recorded, Breakers.Inv, Breakers.Record, Breakers.Finish, Breakers.Enter;
      var slept;
      if breaker == null || !breaker.config.enabled {
        error, attempts, slept := RetryOperation(script, jitter);
        return;
      }
      var admission := breaker.Enter(clock.enteredAt);
      if admission.Refused? {
        RefusalChangesNothing(breaker.config, old(breaker.Fields()), clock.enteredAt);
        return Some(Failure(None, None, admission.reason)), 0;
      }
      error, attempts, slept := RetryOperation(script, jitter);
      ExecuteRecords(breaker.config, old(breaker.Fields()), error, clock.enteredAt, clock.failedAt, clock.armedAt);
      breaker.Leave(Outcome(error, clock));
    }

    /** The error that `send` raises, if it raises one, and the attempts it made. A send counts once, as
        a success or a failure; a failed one offers its whole batch to the dead letter queue, once. */
    method Send(entries: seq<Entry>, script: Script, jitter: nat -> nat, clock: Clock)
      returns (error: Option<Failure>, attempts: nat)
      requires Valid()
      modifies this, Parts()
      ensures Valid()
      ensures entries == [] ==>
                && error.None? && attempts == 0 && totalSends == old(totalSends) && offered == old(offered)
                && (breaker != null ==> breaker.Fields() == old(breaker.Fields()))
      ensures entries != [] ==>
                && totalSends == old(totalSends) + 1
                && successfulSends == old(successfulSends) + (if error.None? then 1 else 0)
                && failedSends == old(failedSends) + if error.Some? then 1 else 0
      ensures entries != [] && breaker != null && breaker.config.enabled
              && Gate(old(breaker.Fields()), clock.enteredAt).Refused? ==>
                attempts == 0 && error == Some(Failure(None, None, Gate(old(breaker.Fields()), clock.enteredAt).reason))
      ensures entries != [] && (breaker == null || !breaker.config.enabled
                                 || Gate(old(breaker.Fields()), clock.enteredAt).Admitted?) ==>
                attempts == LastAttempt(script, maxRetries, 0) + 1 && error == script(attempts - 1)
      ensures entries != [] && breaker != null && breaker.config.enabled ==>
                breaker.Fields() == Breakers.Execute(breaker.config, old(breaker.Fields()), Outcome(error, clock)).0
      ensures entries != [] && breaker != null && breaker.config.enabled
              && Gate(old(breaker.Fields()), clock.enteredAt).Admitted? ==>
                Recorded(breaker.config, old(breaker.Fields()), breaker.Fields(), error, clock.failedAt, clock.armedAt)
      ensures entries != [] && breaker != null && breaker.config.enabled
              && Gate(old(breaker.Fields()), clock.enteredAt).Refused? ==>
                breaker.Fields() == old(breaker.Fields())
      ensures breaker != null && !breaker.config.enabled ==> breaker.Fields() == old(breaker.Fields())
      ensures entries != [] && (dlq != null || fileDlq != null) ==>
                offered == old(offered) + if error.Some? then [entries] else []
      ensures entries != [] && dlq != null ==>
                dlq.queue == if error.Some?
                             then LastN(old(dlq.queue) + Letters(entries, error.value.message, clock.deadAt),
                                        dlq.maxSize)
                             else old(dlq.queue)
      ensures entries != [] && fileDlq != null ==>
                fileDlq.queue ==
                if error.Some?
                then Kept(fileDlq.codec, fileDlq.MaxBytes(),
                          FullQueue(old(fileDlq.queue), entries, error.value.message, clock.deadAt))
                else old(fileDlq.queue)
    {
      hide LastAttempt, LastN, Letters, Kept, NewestFits, AllWritable, Faithful, FileOf;
      hide Breakers.Inv, Breakers.Record, Breakers.Finish, Breakers.Execute, Breakers.Enter, Recorded;
      if entries == [] {
        return None, 0;
      }
      totalSends := totalSends + 1;
      error, attempts := Deliver(script, jitter, clock);
      if error.None? {
        successfulSends := successfulSends + 1;
      } else {
        failedSends := failedSends + 1;
        var warned := EnqueueDlq(entries, error.value, clock.deadAt, clock.warnedAt);
      }
    }

    static function Outcome(error: Option<Failure>, clock: Clock): Breakers.Attempt {
      Breakers.Attempt(clock.enteredAt,
                       if error.None? then Breakers.Returned else Breakers.Raised(error.value.message),
                       clock.failedAt, clock.armedAt)
    }

    /** An error of the queue itself is swallowed: the sender's error is the one that is raised. The
        letters it dropped are then not counted, and at most one warning goes out in ten seconds. */
    method EnqueueDlq(entries: seq<Entry>, error: Failure, deadAt: Double, now: real) returns (warned: bool)
      requires DlqValid() && entries != []
      modifies `dlqDroppedEntries, `lastDlqWarning, `offered, DlqParts()
      ensures DlqValid()
      ensures dlq != null || fileDlq != null ==> offered == old(offered) + [entries]
      ensures dlq != null ==>
                && dlq.queue == LastN(old(dlq.queue) + Letters(entries, error.message, deadAt), dlq.maxSize)
                && dlqDroppedEntries == old(dlqDroppedEntries) + old(|dlq.queue|) + |entries| - |dlq.queue|
                && !warned && lastDlqWarning == old(lastDlqWarning)
      ensures fileDlq != null ==>
                var full := FullQueue(old(fileDlq.queue), entries, error.message, deadAt);
                var raised := !AllWritable(fileDlq.codec, full)
                              || !NewestFits(fileDlq.codec, fileDlq.MaxBytes(), full);
                && fileDlq.queue == Kept(fileDlq.codec, fileDlq.MaxBytes(), full)
                && dlqDroppedEntries == old(dlqDroppedEntries)
                                        + (if raised then 0 else old(|fileDlq.queue|) + |entries| - |full|)
                && warned == (raised && now - old(lastDlqWarning) > 10.0)
                && lastDlqWarning == if warned then now else old(lastDlqWarning)
      ensures dlq == null && fileDlq == null ==>
                offered == old(offered) && dlqDroppedEntries == old(dlqDroppedEntries)
                && !warned && lastDlqWarning == old(lastDlqWarning)
    {
      hide LastN, Letters, Kept, NewestFits, AllWritable, Faithful;
      warned := false;
      if dlq == null && fileDlq == null {
        return;
      }
      offered := offered + [entries];
      if dlq != null {
        var added, dropped := dlq.AddBatch(entries, error.message, deadAt);
        dlqDroppedEntries := dlqDroppedEntries + dropped;
      } else {
        var result := fileDlq.AddBatch(entries, error.message, deadAt);
        if result.Some? {
          dlqDroppedEntries := dlqDroppedEntries + result.value.1;
        } else if now - lastDlqWarning > 10.0 {
          lastDlqWarning, warned := now, true;
        }
      }
    }
  }
}
