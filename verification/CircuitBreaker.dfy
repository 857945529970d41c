/**
  The decisions of the circuit breaker, each as a function of the fields it reads under its lock,
  and the invariant that ties those fields together.
 */
module BreakerRules {
  import opened Prelude

  datatype Phase = Closed | Open | HalfOpen

  datatype Config = Config(enabled: bool, failureThreshold: int, resetTimeout: int, halfOpenRequests: int) {
    predicate Valid() {
      failureThreshold >= 1 && halfOpenRequests >= 1
    }

    /** The cool-down in seconds; the configuration gives it in milliseconds. */
    function CoolDown(): real {
      resetTimeout as real / 1000.0
    }
  }

  datatype Breaker = Breaker(
    phase: Phase,
    failures: int,
    successCount: int,
    halfOpenInFlight: int,
    lastFailure: Option<real>,
    nextAttempt: Option<real>,
    lastError: Option<string>)

  const FRESH := Breaker(Closed, 0, 0, 0, None, None, None)

  datatype Admission = Admitted(asProbe: bool) | Refused(reason: string)

  const OPEN_ERROR := "Circuit breaker is open"
  const PROBE_LIMIT_ERROR := "Circuit breaker half-open probe limit reached"

  /** A missing time and the time 0.0 are both falsy, so neither ever lets a call through. */
  predicate Due(nextAttempt: Option<real>, now: real) {
    nextAttempt.Some? && nextAttempt.value != 0.0 && now >= nextAttempt.value
  }

  /** The locked section at the head of `execute`. */
  function Enter(c: Config, b: Breaker, now: real): (Breaker, Admission) {
    if b.phase == Open && !Due(b.nextAttempt, now) then
      (b, Refused(OPEN_ERROR))
    else
      var b := if b.phase == Open then b.(phase := HalfOpen, successCount := 0, halfOpenInFlight := 0) else b;
      if b.phase != HalfOpen then
        (b, Admitted(false))
      else if b.halfOpenInFlight >= c.halfOpenRequests then
        (b, Refused(PROBE_LIMIT_ERROR))
      else
        (b.(halfOpenInFlight := b.halfOpenInFlight + 1), Admitted(true))
  }

  function RecordSuccess(c: Config, b: Breaker): Breaker {
    match b.phase
    case HalfOpen =>
      if b.successCount + 1 >= c.halfOpenRequests then
        b.(phase := Closed, failures := 0, successCount := 0, halfOpenInFlight := 0, lastError := None)
      else
        b.(successCount := b.successCount + 1)
    case Closed => b.(failures := 0, lastError := None)
    case Open => b
  }

  /** The clock is read twice: once for the failure itself and once to arm the next attempt. */
  function RecordFailure(c: Config, b: Breaker, error: string, failedAt: real, armedAt: real): Breaker {
    var b := b.(failures := b.failures + 1, lastFailure := Some(failedAt), lastError := Some(error));
    if b.failures >= c.failureThreshold || b.phase == HalfOpen then
      b.(phase := Open, successCount := 0, halfOpenInFlight := 0, nextAttempt := Some(armedAt + c.CoolDown()))
    else
      b
  }

  /** The locked decrement of the `finally` clause. */
  function Decrement(b: Breaker): Breaker {
    b.(halfOpenInFlight := Max(0, b.halfOpenInFlight - 1))
  }

  /** The whole `finally` clause when nothing runs between its check and its decrement. */
  function Finish(b: Breaker): Breaker {
    if b.phase == HalfOpen then Decrement(b) else b
  }

  /** What holds whenever the breaker's lock is free. */
  predicate Inv(c: Config, b: Breaker) {
    && b.failures >= 0
    && (b.phase == Closed <==> b.failures < c.failureThreshold)
    && (b.phase != HalfOpen ==> b.successCount == 0 && b.halfOpenInFlight == 0)
    && (b.phase == Open ==> b.nextAttempt.Some?)
    && (b.phase == HalfOpen ==>
          && 0 <= b.successCount < c.halfOpenRequests
          && 0 <= b.halfOpenInFlight <= c.halfOpenRequests)
  }

  datatype Outcome = Returned | Raised(error: string)

  /** One `execute`: when it enters, how its operation ends, and the clock readings if that is a failure. */
  datatype Attempt = Attempt(now: real, outcome: Outcome, failedAt: real, armedAt: real)

  function Record(c: Config, b: Breaker, a: Attempt): Breaker {
    match a.outcome
    case Returned => RecordSuccess(c, b)
    case Raised(error) => RecordFailure(c, b, error, a.failedAt, a.armedAt)
  }

  /** An `execute` that no other call overlaps, of a breaker that is on. */
  function Execute(c: Config, b: Breaker, a: Attempt): (Breaker, Admission) {
    var (entered, admission) := Enter(c, b, a.now);
    if admission.Refused? then (entered, admission) else (Finish(Record(c, entered, a)), admission)
  }
}

/** The gate and the records, in terms of clock readings and messages. */
module BreakerLaws {
  import opened Prelude
  import opened BreakerRules

  /** After a failure that leaves the breaker open, a call is refused exactly until the reset timeout, in
      milliseconds, has passed since the failure was recorded (and for ever should that be the time 0.0);
      then it is let in as the first probe. */
  lemma RefusedUntilDeadlineIff(c: Config, b: Breaker, error: string, failedAt: real, armedAt: real, now: real)
    requires c.Valid() && Inv(c, b) && RecordFailure(c, b, error, failedAt, armedAt).phase == Open
    ensures var after := RecordFailure(c, b, error, failedAt, armedAt);
            var deadline := armedAt + c.resetTimeout as real / 1000.0;
            && (Enter(c, after, now).1 == Refused("Circuit breaker is open") <==> now < deadline || deadline == 0.0)
            && (now >= deadline && deadline != 0.0 ==>
                  Enter(c, after, now) == (after.(phase := HalfOpen, halfOpenInFlight := 1), Admitted(true)))
  {
  }

  /** A breaker that is not open refuses only probes over the limit. */
  lemma RefusedOverLimitIff(c: Config, b: Breaker, now: real)
    requires c.Valid() && Inv(c, b) && b.phase != Open
    ensures Enter(c, b, now).1.Refused? <==> b.phase == HalfOpen && b.halfOpenInFlight == c.halfOpenRequests
    ensures Enter(c, b, now).1.Refused? ==>
              Enter(c, b, now) == (b, Refused("Circuit breaker half-open probe limit reached"))
  {
  }

  /** The last error and its time are those of the latest failure, until a success of a closed breaker or
      the one that closes it. */
  lemma LastErrorLaw(c: Config, b: Breaker, error: string, failedAt: real, armedAt: real)
    requires c.Valid() && Inv(c, b)
    ensures var after := RecordFailure(c, b, error, failedAt, armedAt);
            after.lastError == Some(error) && after.lastFailure == Some(failedAt)
    ensures var after := RecordSuccess(c, b);
            && after.lastFailure == b.lastFailure && after.nextAttempt == b.nextAttempt
            && after.lastError == if after.phase == Closed then None else b.lastError
  {
  }
}

/** The breaker object. */
module CircuitBreakers {
  import opened Prelude
  import Rules = BreakerRules
  import opened BreakerRules

  class CircuitBreaker {
    const config: Config
    var phase: Phase
    var failures: int
    var successCount: int
    var halfOpenInFlight: int
    var lastFailure: Option<real>
    var nextAttempt: Option<real>
    var lastError: Option<string>

    ghost function Fields(): Breaker
      reads this
    {
      Breaker(phase, failures, successCount, halfOpenInFlight, lastFailure, nextAttempt, lastError)
    }

    ghost predicate Valid()
      reads this
    {
      config.Valid() && Inv(config, Fields())
    }

    constructor (config: Config)
      requires config.Valid()
      ensures Valid() && this.config == config && Fields() == FRESH
    {
      this.config := config;
      phase, failures, successCount, halfOpenInFlight := Closed, 0, 0, 0;
      lastFailure, nextAttempt, lastError := None, None, None;
    }

    method IsOpenLocked(now: real) returns (open: bool)
      requires Valid()
      modifies this
      ensures Valid()
      ensures open <==> old(phase) == Open && !Due(old(nextAttempt), now)
      ensures Fields() == if old(phase) == Open && !open
                          then old(Fields()).(phase := HalfOpen, successCount := 0, halfOpenInFlight := 0)
                          else old(Fields())
    {
      if phase != Open {
        return false;
      }
      if nextAttempt.Some? && nextAttempt.value != 0.0 && now >= nextAttempt.value {
        phase, successCount, halfOpenInFlight := HalfOpen, 0, 0;
        return false;
      }
      return true;
    }

    /** The gate of `execute`: refuses, or admits and counts a probe. */
    method Enter(now: real) returns (admission: Admission)
      requires Valid()
      modifies this
      ensures Valid()
      ensures (Fields(), admission) == Rules.Enter(config, old(Fields()), now)
    {
      var open := IsOpenLocked(now);
      if open {
        return Refused(OPEN_ERROR);
      }
      var countedAsProbe := phase == HalfOpen;
      if countedAsProbe && halfOpenInFlight >= config.halfOpenRequests {
        return Refused(PROBE_LIMIT_ERROR);
      }
      if countedAsProbe {
        halfOpenInFlight := halfOpenInFlight + 1;
      }
      return Admitted(countedAsProbe);
    }

    method RecordSuccess()
      requires Valid()
      modifies this
      ensures Valid()
      ensures Fields() == Rules.RecordSuccess(config, old(Fields()))
    {
      if phase == HalfOpen {
        successCount := successCount + 1;
        if successCount >= config.halfOpenRequests {
          phase, failures, successCount, halfOpenInFlight, lastError := Closed, 0, 0, 0, None;
        }
        return;
      }
      if phase == Closed {
        failures, lastError := 0, None;
      }
    }

    method RecordFailure(error: string, failedAt: real, armedAt: real)
      requires Valid()
      modifies this
      ensures Valid()
      ensures Fields() == Rules.RecordFailure(config, old(Fields()), error, failedAt, armedAt)
      ensures phase == Open ==> nextAttempt == Some(armedAt + config.resetTimeout as real / 1000.0)
    {
      failures := failures + 1;
      lastFailure, lastError := Some(failedAt), Some(error);
      if failures >= config.failureThreshold || phase == HalfOpen {
        phase, successCount, halfOpenInFlight := Open, 0, 0;
        nextAttempt := Some(armedAt + config.CoolDown());
      }
    }

    /** The second half of `execute`, once the operation has ended: record, then the `finally` clause. */
    method Leave(a: Attempt)
      requires Valid()
      modifies this
      ensures Valid()
      ensures Fields() == Finish(Record(config, old(Fields()), a))
    {
      match a.outcome {
        case Returned => RecordSuccess();
        case Raised(error) => RecordFailure(error, a.failedAt, a.armedAt);
      }
      if phase == HalfOpen {
        halfOpenInFlight := Max(0, halfOpenInFlight - 1);
      }
    }

    method Reset()
      requires Valid()
      modifies this
      ensures Valid() && Fields() == FRESH
    {
      phase, failures, successCount, halfOpenInFlight := Closed, 0, 0, 0;
      lastFailure, nextAttempt, lastError := None, None, None;
    }
  }
}

/**
  Calls that never overlap: the breaker is then a three-state automaton that knows nothing of
  in-flight counters.
 */
module BreakerSequential {
  import opened Prelude
  import opened BreakerRules

  datatype Automaton =
    | Counting(failures: nat)
    | Tripped(retryAt: Option<real>)
    | Probing(successes: nat)

  function Trip(c: Config, a: Attempt): Automaton {
    Tripped(Some(a.armedAt + c.CoolDown()))
  }

  /** One probe, `k` having already succeeded. */
  function Probe(c: Config, k: nat, a: Attempt): Automaton {
    if a.outcome.Raised? then Trip(c, a)
    else if k + 1 == c.halfOpenRequests then Counting(0)
    else Probing(k + 1)
  }

  function Step(c: Config, m: Automaton, a: Attempt): Automaton {
    match m
    case Counting(k) =>
      if a.outcome.Returned? then Counting(0)
      else if k + 1 == c.failureThreshold then Trip(c, a)
      else Counting(k + 1)
    case Tripped(retryAt) => if Due(retryAt, a.now) then Probe(c, 0, a) else m
    case Probing(k) => Probe(c, k, a)
  }

  function Steps(c: Config, m: Automaton, attempts: seq<Attempt>): Automaton {
    if attempts == [] then m
    else Step(c, Steps(c, m, attempts[..|attempts| - 1]), attempts[|attempts| - 1])
  }

  function ExecuteAll(c: Config, b: Breaker, attempts: seq<Attempt>): Breaker {
    if attempts == [] then b
    else Execute(c, ExecuteAll(c, b, attempts[..|attempts| - 1]), attempts[|attempts| - 1]).0
  }

  function Abstract(b: Breaker): Automaton
    requires b.failures >= 0 && b.successCount >= 0
  {
    match b.phase
    case Closed => Counting(b.failures)
    case Open => Tripped(b.nextAttempt)
    case HalfOpen => Probing(b.successCount)
  }

  /** Between calls nothing is in flight. */
  predicate Quiet(c: Config, b: Breaker) {
    Inv(c, b) && b.halfOpenInFlight == 0 && b.successCount >= 0
  }

  /** One call is one step of the automaton. */
  lemma CallRefinesStep(c: Config, b: Breaker, a: Attempt)
    requires c.Valid() && Quiet(c, b)
    ensures Quiet(c, Execute(c, b, a).0)
    ensures Abstract(Execute(c, b, a).0) == Step(c, Abstract(b), a)
  {
  }

  lemma {:induction false} SequentialRefinement(c: Config, b: Breaker, attempts: seq<Attempt>)
    requires c.Valid() && Quiet(c, b)
    ensures Quiet(c, ExecuteAll(c, b, attempts))
    ensures Abstract(ExecuteAll(c, b, attempts)) == Steps(c, Abstract(b), attempts)
  {
    hide Execute, Step;
    if attempts == [] {
    } else {
      var before := attempts[..|attempts| - 1];
      SequentialRefinement(c, b, before);
      CallRefinesStep(c, ExecuteAll(c, b, before), attempts[|attempts| - 1]);
    }
  }

  /** A lone call is refused exactly when the breaker is cooling down. */
  lemma RefusedOnlyWhileCooling(c: Config, b: Breaker, a: Attempt)
    requires c.Valid() && Quiet(c, b)
    ensures Execute(c, b, a).1.Refused? <==> Abstract(b).Tripped? && !Due(Abstract(b).retryAt, a.now)
    ensures Execute(c, b, a).1.Refused? ==> Execute(c, b, a).0 == b
  {
  }

  /** How many failures in a row end the history. */
  function TrailingFailures(attempts: seq<Attempt>): nat {
    if attempts == [] || attempts[|attempts| - 1].outcome.Returned? then 0
    else 1 + TrailingFailures(attempts[..|attempts| - 1])
  }

  /** A closed breaker opens on exactly the threshold-th consecutive failure, not before. */
  lemma {:induction false} OpensOnThresholdFailure(c: Config, attempts: seq<Attempt>)
    requires c.Valid()
    requires forall i :: 0 <= i < |attempts| ==> TrailingFailures(attempts[..i]) < c.failureThreshold
    ensures Steps(c, Counting(0), attempts) ==
            if TrailingFailures(attempts) < c.failureThreshold
            then Counting(TrailingFailures(attempts))
            else Trip(c, attempts[|attempts| - 1])
  {
    if attempts == [] {
    } else {
      var before := attempts[..|attempts| - 1];
      forall i | 0 <= i < |before|
        ensures TrailingFailures(before[..i]) < c.failureThreshold
      {
        assert before[..i] == attempts[..i];
      }
      OpensOnThresholdFailure(c, before);
    }
  }

  /** From a cooled-down breaker: N probe successes in a row close it, the first probe failure reopens it. */
  lemma {:induction false} ClosesAfterProbes(c: Config, retryAt: Option<real>, attempts: seq<Attempt>)
    requires c.Valid()
    requires 1 <= |attempts| <= c.halfOpenRequests && Due(retryAt, attempts[0].now)
    requires forall i :: 0 <= i < |attempts| - 1 ==> attempts[i].outcome.Returned?
    ensures var last := attempts[|attempts| - 1];
            Steps(c, Tripped(retryAt), attempts) ==
            if last.outcome.Raised? then Trip(c, last)
            else if |attempts| == c.halfOpenRequests then Counting(0)
            else Probing(|attempts|)
  {
    var before := attempts[..|attempts| - 1];
    if before == [] {
      assert Steps(c, Tripped(retryAt), before) == Tripped(retryAt);
    } else {
      ClosesAfterProbes(c, retryAt, before);
    }
  }
}
