/** The circuit breaker: a timed three-state machine whose admission and completion
    are separate critical sections. Times are integer instants of one clock. */
module Breaker {
  import opened Errors

  datatype State = Closed | Open | HalfOpen

  datatype Config = Config(
    enabled: bool, failureThreshold: int, recoveryTimeout: int,
    successThreshold: int, maxConcurrentRequests: int)

  /** The mutable fields of a breaker, as a value. */
  datatype Counters = Counters(
    state: State, failures: int, successes: int,
    lastFailureTime: int, lastStateChange: int, concurrentRequests: int)

  function Initial(now: int): Counters {
    Counters(Closed, 0, 0, 0, now, 0)
  }

  /** One admission: the new counters and whether the request may proceed. */
  function Allow(c: Config, b: Counters, now: int): (Counters, bool) {
    match b.state
    case Closed => (b, true)
    case Open =>
      if now - b.lastFailureTime >= c.recoveryTimeout then
        (b.(state := HalfOpen, lastStateChange := now, concurrentRequests := 0, successes := 0), true)
      else
        (b, false)
    case HalfOpen =>
      if c.recoveryTimeout > 0 && now - b.lastStateChange >= c.recoveryTimeout then
        (b.(state := Open, lastStateChange := now, lastFailureTime := now,
            concurrentRequests := 0, successes := 0), false)
      else if b.concurrentRequests < c.maxConcurrentRequests then
        (b.(concurrentRequests := b.concurrentRequests + 1), true)
      else
        (b, false)
  }

  /** One completion, already classified as failure or not. */
  function Record(c: Config, b: Counters, failed: bool, now: int): Counters {
    var b := if b.state == HalfOpen && b.concurrentRequests > 0
             then b.(concurrentRequests := b.concurrentRequests - 1) else b;
    if failed then
      var b := b.(failures := b.failures + 1, lastFailureTime := now);
      match b.state
      case Closed =>
        if b.failures >= c.failureThreshold then b.(state := Open, lastStateChange := now) else b
      case HalfOpen => b.(state := Open, lastStateChange := now, failures := 1)
      case Open => b
    else
      match b.state
      case Closed => b.(failures := 0)
      case HalfOpen =>
        if b.successes + 1 >= c.successThreshold then
          b.(state := Closed, lastStateChange := now, failures := 0, successes := 0)
        else
          b.(successes := b.successes + 1)
      case Open => b
  }

  /** How the guarded function ended: it returned an error or nil, or it panicked. */
  datatype Outcome = Returned(err: Option<Error>) | Panicked

  /** The error the deferred handler hands to recordResult. */
  function RecordedError(o: Outcome): Option<Error> {
    match o
    case Returned(err) => err
    case Panicked => Some(PLAIN)
  }

  /** The function returned nil, or an error that is the caller's doing. */
  predicate Harmless(o: Outcome) {
    o.Returned? &&
    match o.err
    case None => true
    case Some(e) =>
      || e.isCanceled || e.isDeadline
      || (e.status.Some? && e.status.value in {Code.OK, Code.Canceled, InvalidArgument, NotFound, AlreadyExists,
            PermissionDenied, Unauthenticated, FailedPrecondition, OutOfRange, Unimplemented})
  }

  /** Whether one call of Execute lets its function run. */
  predicate Runs(c: Config, b: Counters, now: int) {
    c.enabled ==> Allow(c, b, now).1
  }

  /** The counters after one uninterrupted Execute whose function ends at `end` with `o`. */
  function ExecuteSpec(c: Config, b: Counters, start: int, end: int, o: Outcome): Counters {
    if !c.enabled then b
    else
      var (admitted, ok) := Allow(c, b, start);
      if ok then Record(c, admitted, IsFailure(RecordedError(o)), end) else admitted
  }

  class CircuitBreaker {
    var config: Config
    var state: State
    var failures: int
    var successes: int
    var lastFailureTime: int
    var lastStateChange: int
    var concurrentRequests: int

    function Snapshot(): Counters
      reads this
    {
      Counters(state, failures, successes, lastFailureTime, lastStateChange, concurrentRequests)
    }

    constructor (config: Config, now: int)
      ensures this.config == config && Snapshot() == Initial(now)
      ensures state == Closed && failures == successes == concurrentRequests == 0 && lastStateChange == now
    {
      this.config := config;
      state, failures, successes, concurrentRequests := Closed, 0, 0, 0;
      lastFailureTime, lastStateChange := 0, now;
    }

    method AllowRequest(now: int) returns (ok: bool)
      modifies this
      ensures config == old(config)
      ensures (Snapshot(), ok) == Allow(config, old(Snapshot()), now)
      ensures ok <==>
        || old(state) == Closed
        || (old(state) == Open && now - old(lastFailureTime) >= config.recoveryTimeout)
        || (old(state) == HalfOpen && !(config.recoveryTimeout > 0 && now - old(lastStateChange) >= config.recoveryTimeout)
            && old(concurrentRequests) < config.maxConcurrentRequests)
      ensures failures == old(failures)
      ensures old(state) == Closed ==> state == Closed
      ensures old(state) == Open ==> state == if ok then HalfOpen else Open
      ensures old(state) == HalfOpen ==>
        (state == Open <==> config.recoveryTimeout > 0 && now - old(lastStateChange) >= config.recoveryTimeout) && state != Closed
      ensures lastFailureTime == if old(state) == HalfOpen && state == Open then now else old(lastFailureTime)
      ensures state != old(state) ==> lastStateChange == now && concurrentRequests == successes == 0
      ensures state == old(state) ==>
        && lastStateChange == old(lastStateChange) && successes == old(successes)
        && concurrentRequests == old(concurrentRequests) + if state == HalfOpen && ok then 1 else 0
    {
      match state
      case Closed => ok := true;
      case Open =>
        ok := now - lastFailureTime >= config.recoveryTimeout;
        if ok {
          state, lastStateChange := HalfOpen, now;
          concurrentRequests, successes := 0, 0;
        }
      case HalfOpen =>
        if config.recoveryTimeout > 0 && now - lastStateChange >= config.recoveryTimeout {
          state, lastStateChange, lastFailureTime := Open, now, now;
          concurrentRequests, successes := 0, 0;
          return false;
        }
        ok := concurrentRequests < config.maxConcurrentRequests;
        if ok {
          concurrentRequests := concurrentRequests + 1;
        }
    }

    method RecordResult(err: Option<Error>, now: int)
      modifies this
      ensures config == old(config)
      ensures Snapshot() == Record(config, old(Snapshot()), IsFailure(err), now)
      ensures concurrentRequests == old(concurrentRequests) - if old(state) == HalfOpen && old(concurrentRequests) > 0 then 1 else 0
      ensures lastStateChange == if state != old(state) then now else old(lastStateChange)
      ensures lastFailureTime == if IsFailure(err) then now else old(lastFailureTime)
      ensures IsFailure(err) ==>
        && successes == old(successes)
        && failures == (if old(state) == HalfOpen then 1 else old(failures) + 1)
        && state == if old(state) == Closed && failures < config.failureThreshold then Closed else Open
      ensures !IsFailure(err) ==>
        && failures == (if old(state) == Closed || state == Closed then 0 else old(failures))
        && (old(state) == HalfOpen ==> state == if old(successes) + 1 >= config.successThreshold then Closed else HalfOpen)
        && (old(state) != HalfOpen ==> state == old(state) && successes == old(successes))
        && (old(state) == HalfOpen ==> successes == if state == Closed then 0 else old(successes) + 1)
    {
      if state == HalfOpen && concurrentRequests > 0 {
        concurrentRequests := concurrentRequests - 1;
      }
      if IsFailure(err) {
        failures, lastFailureTime := failures + 1, now;
        if state == Closed {
          if failures >= config.failureThreshold {
            state, lastStateChange := Open, now;
          }
        } else if state == HalfOpen {
          state, lastStateChange, failures := Open, now, 1;
        }
      } else if state == Closed {
        failures := 0;
      } else if state == HalfOpen {
        successes := successes + 1;
        if successes >= config.successThreshold {
          state, lastStateChange := Closed, now;
          failures, successes := 0, 0;
        }
      }
    }

    /** The guarded function is its outcome `o` and the time it takes. A rejected call returns
        a plain error at once; a panic is recorded and then raised again. */
    method Execute(o: Outcome, start: int, took: nat) returns (ran: bool, result: Outcome, end: int)
      modifies this
      ensures config == old(config)
      ensures ran == Runs(config, old(Snapshot()), start)
      ensures result == (if ran then o else Returned(Some(Error(false, false, None)))) && end == if ran then start + took else start
      ensures Snapshot() == ExecuteSpec(config, old(Snapshot()), start, end, o)
      ensures !config.enabled ==> ran && Snapshot() == old(Snapshot())
      ensures config.enabled && ran && o.Panicked? ==>
        lastFailureTime == end && (state == Open || (state == Closed && failures == old(failures) + 1))
      ensures config.enabled && ran && old(state) == Closed && o.Panicked? ==>
        (state == Open <==> old(failures) + 1 >= config.failureThreshold)
      ensures config.enabled && old(state) == Closed && Harmless(o) ==> ran && state == Closed && failures == 0
    {
      if !config.enabled {
        return true, o, start + took;
      }
      ran := AllowRequest(start);
      if !ran {
        return false, Returned(Some(PLAIN)), start;
      }
      end := start + took;
      RecordResult(RecordedError(o), end);
      result := o;
    }

    /** Reset keeps only the instant of the last failure, which a Closed breaker never reads. */
    method Reset(now: int)
      modifies this
      ensures config == old(config)
      ensures Snapshot() == Initial(now).(lastFailureTime := old(lastFailureTime))
      ensures state == Closed && failures == successes == concurrentRequests == 0 && lastStateChange == now
    {
      state, failures, successes, concurrentRequests := Closed, 0, 0, 0;
      lastStateChange := now;
    }

    method UpdateConfig(c: Config, now: int)
      modifies this
      ensures config == c
      ensures Snapshot() == if !c.enabled && old(state) != Closed
                            then Initial(now).(lastFailureTime := old(lastFailureTime))
                            else old(Snapshot())
      ensures !c.enabled ==> state == Closed
    {
      config := c;
      if !config.enabled && state != Closed {
        state, failures, successes, concurrentRequests := Closed, 0, 0, 0;
        lastStateChange := now;
      }
    }
  }
}
