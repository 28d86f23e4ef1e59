/** The unary client chain: the retry interceptor wraps the circuit breaker, which wraps
    the wire. Durations are integer nanoseconds. */
module RetryOverBreaker {
  import opened Basics
  import opened Errors
  import opened Breaker
  import BR = BreakerRuns

  const MAX_DELAY := 5 * SECOND

  // ----- The chain -------------------------------------------------------------------

  datatype Interceptor = Tracing | Retrying | Metrics | Breaking | Logging

  /** The retry settings of a service, and those of the whole plugin. */
  datatype Settings = Settings(maxRetries: int, backoff: int)

  /** The enabled interceptors, outermost first. */
  function Chain(tracing: bool, retry: bool, breaker: bool): seq<Interceptor> {
    (if tracing then [Tracing] else []) + Resilience(retry, breaker)
  }

  function Resilience(retry: bool, breaker: bool): seq<Interceptor> {
    (if retry then [Retrying] else []) + Inner(breaker)
  }

  function Inner(breaker: bool): seq<Interceptor> {
    if breaker then [Metrics, Breaking, Logging] else [Metrics, Logging]
  }

  /** Whatever is enabled, each is there once and in the order tracing, retry, metrics, breaker,
      logging. */
  lemma ChainInOrder(tracing: bool, retry: bool, breaker: bool)
    ensures var chain := Chain(tracing, retry, breaker);
      && KeepsOrder(chain, [Tracing, Retrying, Metrics, Breaking, Logging])
      && (Tracing in chain <==> tracing) && (Retrying in chain <==> retry) && (Breaking in chain <==> breaker)
      && Metrics in chain && Logging in chain
  {
    var chain, order := Chain(tracing, retry, breaker), [Tracing, Retrying, Metrics, Breaking, Logging];
    forall i, j | 0 <= i < j < |chain| ensures Precedes(order, chain[i], chain[j]) {
      assert order[Place(chain[i])] == chain[i] && order[Place(chain[j])] == chain[j];
    }
  }

  function Place(x: Interceptor): nat {
    match x
    case Tracing => 0 case Retrying => 1 case Metrics => 2 case Breaking => 3 case Logging => 4
  }

  method BuildClientInterceptorChain(tracing: bool, s: Settings, plugin: Option<Settings>, breaker: bool)
    returns (chain: seq<Interceptor>)
    ensures chain == Chain(tracing, s.maxRetries > 0 || (plugin.Some? && plugin.value.maxRetries > 0), breaker)
    ensures KeepsOrder(chain, [Tracing, Retrying, Metrics, Breaking, Logging])
    ensures Tracing in chain <==> tracing
    ensures Retrying in chain <==> s.maxRetries > 0 || (plugin.Some? && plugin.value.maxRetries > 0)
    ensures Breaking in chain <==> breaker
    ensures Metrics in chain && Logging in chain
  {
    chain := [];
    if tracing {
      chain := chain + [Tracing];
    }
    var maxRetries := s.maxRetries;
    if maxRetries <= 0 && plugin.Some? && plugin.value.maxRetries > 0 {
      maxRetries := plugin.value.maxRetries;
    }
    if maxRetries > 0 {
      chain := chain + [Retrying];
    }
    ghost var outer := chain;
    chain := chain + [Metrics];
    if breaker {
      chain := chain + [Breaking];
    }
    chain := chain + [Logging];
    assert chain == outer + Inner(breaker);
    assert chain == Chain(tracing, maxRetries > 0, breaker);
    ChainInOrder(tracing, maxRetries > 0, breaker);
  }

  /** The first positive of a service's setting, the plugin's and the default. */
  function FirstPositive(service: int, plugin: int, default: nat): nat {
    if service > 0 then service else if plugin > 0 then plugin else default
  }

  function EffectiveRetries(s: Settings, plugin: Option<Settings>): nat {
    FirstPositive(s.maxRetries, if plugin.Some? then plugin.value.maxRetries else 0, 3)
  }

  function EffectiveBackoff(s: Settings, plugin: Option<Settings>): nat {
    FirstPositive(s.backoff, if plugin.Some? then plugin.value.backoff else 0, SECOND)
  }

  /** The budget and base delay the interceptor settles on are always positive. */
  method EffectiveSettings(s: Settings, plugin: Option<Settings>) returns (maxRetries: int, base: int)
    ensures maxRetries == EffectiveRetries(s, plugin) > 0 && base == EffectiveBackoff(s, plugin) > 0
    ensures s.maxRetries > 0 ==> maxRetries == s.maxRetries
    ensures s.backoff > 0 ==> base == s.backoff
    ensures s.maxRetries <= 0 && plugin.Some? && plugin.value.maxRetries > 0 ==> maxRetries == plugin.value.maxRetries
    ensures s.backoff <= 0 && plugin.Some? && plugin.value.backoff > 0 ==> base == plugin.value.backoff
    ensures s.maxRetries <= 0 && (plugin.Some? ==> plugin.value.maxRetries <= 0) ==> maxRetries == 3
    ensures s.backoff <= 0 && (plugin.Some? ==> plugin.value.backoff <= 0) ==> base == 1_000_000_000
  {
    maxRetries, base := s.maxRetries, s.backoff;
    if maxRetries <= 0 && plugin.Some? && plugin.value.maxRetries > 0 {
      maxRetries := plugin.value.maxRetries;
    }
    if maxRetries <= 0 {
      maxRetries := 3;
    }
    if base <= 0 && plugin.Some? {
      base := plugin.value.backoff;
    }
    if base <= 0 {
      base := SECOND;
    }
  }

  // ----- The delay -------------------------------------------------------------------

  /** Conversion of a float duration: towards zero. */
  function Truncate(x: real): int { if x >= 0.0 then x.Floor else -((-x).Floor) }

  function Nominal(attempt: nat, base: int, maxDelay: int): int {
    if base * Pow2(attempt) > maxDelay then maxDelay else base * Pow2(attempt)
  }

  /** `jitter` is the random factor rand.Float64()*2 - 1. */
  function CalculateRetryDelay(attempt: nat, base: int, maxDelay: int, jitter: real): int {
    Jittered(Nominal(attempt, base, maxDelay), base, maxDelay, jitter)
  }

  function Quarter(n: int): real { n as real * 0.25 }

  function Jittered(nominal: int, base: int, maxDelay: int, jitter: real): int {
    Settled(nominal + Truncate(Quarter(nominal) * jitter), base, maxDelay)
  }

  function Settled(jittered: int, base: int, maxDelay: int): int {
    var capped := if jittered > maxDelay then maxDelay else jittered;
    if capped < 0 then base else capped
  }

  /** The base delay doubled `k` times. */
  function Doubled(base: int, k: nat): int { if k == 0 then base else 2 * Doubled(base, k - 1) }

  lemma {:induction false} DoubledIsPower(base: int, k: nat)
    ensures Doubled(base, k) == base * Pow2(k)
    ensures base > 0 ==> Doubled(base, k) > 0
  {
    if k == 0 {
    } else {
      DoubledIsPower(base, k - 1);
      assert base * Pow2(k) == 2 * (base * Pow2(k - 1));
    }
  }

  /** The delay before jitter starts at the base and doubles, up to the cap. */
  lemma NominalDoubles(k: nat, base: int, maxDelay: int)
    requires base > 0 && maxDelay > 0
    ensures Nominal(0, base, maxDelay) == Min(base, maxDelay)
    ensures Nominal(k + 1, base, maxDelay) == Min(2 * Nominal(k, base, maxDelay), maxDelay)
    ensures Nominal(k, base, maxDelay) == Min(Doubled(base, k), maxDelay)
  {
    DoubledIsPower(base, 0);
    DoubledIsPower(base, k);
    DoubledIsPower(base, k + 1);
  }

  /** From the attempt on at which the doubled base reaches it, the delay is the cap. */
  lemma {:induction false} CappedFrom(k: nat, j: nat, base: int, maxDelay: int)
    requires base > 0 && maxDelay > 0 && k <= j
    ensures Nominal(k, base, maxDelay) == maxDelay <==> Doubled(base, k) >= maxDelay
    ensures Nominal(k, base, maxDelay) == maxDelay ==> Nominal(j, base, maxDelay) == maxDelay
    decreases j
  {
    NominalDoubles(k, base, maxDelay);
    if j == k {
    } else {
      CappedFrom(k, j - 1, base, maxDelay);
      NominalDoubles(j - 1, base, maxDelay);
    }
  }

  lemma TruncatedJitter(n: int, jitter: real)
    requires n >= 0 && -1.0 <= jitter <= 1.0
    ensures -n <= 4 * Truncate(Quarter(n) * jitter) <= n
  {
    TruncatedScale(Quarter(n), jitter);
    TimesFour(Truncate(Quarter(n) * jitter), Quarter(n), n);
  }

  lemma TruncatedScale(a: real, j: real)
    requires a >= 0.0 && -1.0 <= j <= 1.0
    ensures -a <= Truncate(a * j) as real <= a
  {
    Scaled(a, j);
    TruncateWithin(a * j, a);
  }

  lemma Scaled(a: real, j: real)
    requires a >= 0.0 && -1.0 <= j <= 1.0
    ensures -a <= a * j <= a
  {
  }

  lemma TruncateWithin(x: real, bound: real)
    requires -bound <= x <= bound
    ensures -bound <= Truncate(x) as real <= bound
  {
  }

  lemma TimesFour(k: int, quarter: real, n: int)
    requires -quarter <= k as real <= quarter && 4.0 * quarter == n as real
    ensures -n <= 4 * k <= n
  {
    assert (4 * k) as real == 4.0 * k as real;
  }

  /** The delay is within a quarter of the capped exponential, never above the cap and never
      negative: with exact durations the fallback to the base delay is dead for a positive base
      and cap. */
  lemma DelayBounds(attempt: nat, base: int, maxDelay: int, jitter: real)
    requires base > 0 && maxDelay > 0 && -1.0 <= jitter <= 1.0
    ensures var n, d := Min(Doubled(base, attempt), maxDelay), CalculateRetryDelay(attempt, base, maxDelay, jitter);
      && 0 < n && 0 <= d <= maxDelay && 3 * n <= 4 * d <= 5 * n
  {
    NominalDoubles(attempt, base, maxDelay);
    DoubledIsPower(base, attempt);
    JitteredBounds(Nominal(attempt, base, maxDelay), base, maxDelay, jitter);
  }

  lemma JitteredBounds(n: int, base: int, maxDelay: int, jitter: real)
    requires 0 < n <= maxDelay && -1.0 <= jitter <= 1.0
    ensures var d := Jittered(n, base, maxDelay, jitter);
      0 <= d <= maxDelay && 3 * n <= 4 * d <= 5 * n
  {
    TruncatedJitter(n, jitter);
  }

  lemma QuarterFloor(n: int)
    requires n >= 0
    ensures Truncate(Quarter(n)) == n / 4 && Truncate(-Quarter(n)) == -(n / 4)
  {
    var q, m := n / 4, n % 4;
    assert Quarter(n) == q as real + m as real * 0.25;
  }

  lemma TruncateMonotone(x: real, y: real)
    requires x <= y
    ensures Truncate(x) <= Truncate(y)
  {
  }

  lemma ScaleMonotone(a: real, x: real, y: real)
    requires a >= 0.0 && x <= y
    ensures a * x <= a * y
  {
  }

  /** The jitter takes the delay from a quarter below, through the nominal delay, to a quarter
      above, as far as the cap allows. */
  lemma JitterRange(attempt: nat, base: int, maxDelay: int, jitter: real, more: real)
    requires base > 0 && maxDelay > 0 && -1.0 <= jitter <= more <= 1.0
    ensures var n := Min(Doubled(base, attempt), maxDelay);
      && CalculateRetryDelay(attempt, base, maxDelay, -1.0) == n - n / 4
      && CalculateRetryDelay(attempt, base, maxDelay, 0.0) == n
      && CalculateRetryDelay(attempt, base, maxDelay, 1.0) == Min(n + n / 4, maxDelay)
    ensures CalculateRetryDelay(attempt, base, maxDelay, jitter) <= CalculateRetryDelay(attempt, base, maxDelay, more)
  {
    var n := Nominal(attempt, base, maxDelay);
    NominalDoubles(attempt, base, maxDelay);
    DoubledIsPower(base, attempt);
    JitterEnds(n, base, maxDelay);
    JitterOffsets(n, jitter, more);
    JitterMonotone(n, base, maxDelay, jitter, more);
  }

  lemma JitterEnds(n: int, base: int, maxDelay: int)
    requires 0 < n <= maxDelay
    ensures Jittered(n, base, maxDelay, -1.0) == n - n / 4 && Jittered(n, base, maxDelay, 0.0) == n
    ensures Jittered(n, base, maxDelay, 1.0) == Min(n + n / 4, maxDelay)
  {
    QuarterFloor(n);
    assert Quarter(n) * -1.0 == -Quarter(n) && Quarter(n) * 0.0 == 0.0 && Quarter(n) * 1.0 == Quarter(n);
  }

  lemma TruncatedScaleMonotone(a: real, x: real, y: real)
    requires a >= 0.0 && x <= y
    ensures Truncate(a * x) <= Truncate(a * y)
  {
    ScaleMonotone(a, x, y);
    TruncateMonotone(a * x, a * y);
  }

  lemma JitterOffsets(n: int, jitter: real, more: real)
    requires n >= 0 && -1.0 <= jitter <= more <= 1.0
    ensures -n <= Truncate(Quarter(n) * jitter) <= Truncate(Quarter(n) * more)
  {
    TruncatedScaleMonotone(Quarter(n), jitter, more);
    TruncatedJitter(n, jitter);
  }

  lemma JitterMonotone(n: int, base: int, maxDelay: int, jitter: real, more: real)
    requires 0 < n <= maxDelay && -n <= Truncate(Quarter(n) * jitter) <= Truncate(Quarter(n) * more)
    ensures Jittered(n, base, maxDelay, jitter) <= Jittered(n, base, maxDelay, more)
  {
    SettledMonotone(n + Truncate(Quarter(n) * jitter), n + Truncate(Quarter(n) * more), base, maxDelay);
  }

  lemma SettledMonotone(x: int, y: int, base: int, maxDelay: int)
    requires 0 <= x <= y && maxDelay > 0
    ensures Settled(x, base, maxDelay) <= Settled(y, base, maxDelay)
  {
  }

  // ----- Retry around the breaker ------------------------------------------------------

  /** What attempt `k` meets: the wire's answer and how long it takes if it gets there, the
      jitter of the wait after it, and whether and how the caller's context ends
      during that wait. */
  datatype World = World(wire: nat -> Option<Error>, took: nat -> nat, jitter: nat -> real, gaveUp: nat -> Option<ContextEnd>)

  datatype Report = Report(wireCalls: nat, result: Option<Error>, breaker: Counters)

  /** The wait after each attempt. */
  function Delays(base: int, w: World): nat -> int {
    (k: nat) => CalculateRetryDelay(k, base, MAX_DELAY, w.jitter(k))
  }

  /** The waits of the interceptor double from the base, give or take a quarter, up to five seconds. */
  lemma DelaysAre(base: int, w: World, k: nat)
    requires base > 0 && -1.0 <= w.jitter(k) <= 1.0
    ensures var n, d := Min(Doubled(base, k), 5_000_000_000), Delays(base, w)(k);
      && 0 <= d <= 5_000_000_000 && 3 * n <= 4 * d <= 5 * n
      && (w.jitter(k) == 0.0 ==> d == n)
  {
    DelayBounds(k, base, MAX_DELAY, w.jitter(k));
    JitterRange(k, base, MAX_DELAY, w.jitter(k), w.jitter(k));
  }

  predicate Final(err: Option<Error>, attempt: nat, maxRetries: nat) {
    err.None? || !ClientRetryable(err.value) || attempt == maxRetries
  }

  /** The call from attempt `attempt` on, by one caller nobody else interferes with. */
  function RetrySpec(c: Config, maxRetries: nat, delays: nat -> int, w: World, attempt: nat, b: Counters, now: int): (r: Report)
    requires attempt <= maxRetries
    decreases maxRetries - attempt
  {
    var ran := Runs(c, b, now);
    var end := if ran then now + w.took(attempt) else now;
    var after := ExecuteSpec(c, b, now, end, Returned(w.wire(attempt)));
    var err := if ran then w.wire(attempt) else Some(PLAIN);
    var n: nat := if ran then 1 else 0;
    if Final(err, attempt, maxRetries) then Report(n, err, after)
    else if w.gaveUp(attempt).Some? then Report(n, Some(ContextError(w.gaveUp(attempt).value)), after)
    else
      Plus(n, RetrySpec(c, maxRetries, delays, w, attempt + 1, after, end + delays(attempt)))
  }

  function Plus(n: nat, r: Report): Report { r.(wireCalls := n + r.wireCalls) }

  /** One attempt through the breaker: whether it reached the wire, its error, its end. */
  method Attempt(cb: CircuitBreaker, w: World, attempt: nat, now: int) returns (ran: bool, err: Option<Error>, end: int)
    modifies cb
    ensures cb.config == old(cb.config) && ran == Runs(cb.config, old(cb.Snapshot()), now)
    ensures err == (if ran then w.wire(attempt) else Some(PLAIN)) && end == if ran then now + w.took(attempt) else now
    ensures cb.Snapshot() == ExecuteSpec(cb.config, old(cb.Snapshot()), now, end, Returned(w.wire(attempt)))
  {
    var o;
    ran, o, end := cb.Execute(Returned(w.wire(attempt)), now, w.took(attempt));
    err := o.err;
  }

  /** What one attempt leaves to do, from what it returned. */
  lemma AfterAttempt(c: Config, maxRetries: nat, delays: nat -> int, w: World, attempt: nat, b: Counters, now: int,
                     ran: bool, err: Option<Error>, end: int, after: Counters, calls: nat)
    requires attempt <= maxRetries && ran == Runs(c, b, now)
    requires err == (if ran then w.wire(attempt) else Some(PLAIN)) && end == if ran then now + w.took(attempt) else now
    requires after == ExecuteSpec(c, b, now, end, Returned(w.wire(attempt)))
    ensures var r, n := Plus(calls, RetrySpec(c, maxRetries, delays, w, attempt, b, now)), calls + if ran then 1 else 0;
      if Final(err, attempt, maxRetries) then r == Report(n, err, after)
      else if w.gaveUp(attempt).Some? then r == Report(n, Some(ContextError(w.gaveUp(attempt).value)), after)
      else r == Plus(n, RetrySpec(c, maxRetries, delays, w, attempt + 1, after, end + delays(attempt)))
  {
  }

  /** The loop of the retry interceptor, with the breaker interceptor inside. */
  method RetryLoop(cb: CircuitBreaker, maxRetries: nat, delays: nat -> int, w: World, start: int)
    returns (wireCalls: nat, result: Option<Error>)
    modifies cb
    ensures cb.config == old(cb.config)
    ensures Report(wireCalls, result, cb.Snapshot())
         == RetrySpec(cb.config, maxRetries, delays, w, 0, old(cb.Snapshot()), start)
  {
    wireCalls := 0;
    var now := start;
    var attempt: nat := 0;
    ghost var whole := RetrySpec(cb.config, maxRetries, delays, w, 0, cb.Snapshot(), start);
    while true
      invariant attempt <= maxRetries && cb.config == old(cb.config)
      invariant whole == Plus(wireCalls, RetrySpec(cb.config, maxRetries, delays, w, attempt, cb.Snapshot(), now))
      decreases maxRetries - attempt
    {
      ghost var b, began, calls := cb.Snapshot(), now, wireCalls;
      var ran;
      ran, result, now := Attempt(cb, w, attempt, now);
      AfterAttempt(cb.config, maxRetries, delays, w, attempt, b, began, ran, result, now, cb.Snapshot(), calls);
      if ran {
        wireCalls := wireCalls + 1;
      }
      if Final(result, attempt, maxRetries) {
        return;
      }
      if w.gaveUp(attempt).Some? {
        return wireCalls, Some(ContextError(w.gaveUp(attempt).value));
      }
      now := now + delays(attempt);
      attempt := attempt + 1;
    }
  }

  /** One call through the retry interceptor, with the settings it is configured from. */
  method RetryUnary(cb: CircuitBreaker, s: Settings, plugin: Option<Settings>, w: World, start: int)
    returns (wireCalls: nat, result: Option<Error>)
    modifies cb
    ensures cb.config == old(cb.config)
    ensures Report(wireCalls, result, cb.Snapshot())
         == RetrySpec(cb.config, EffectiveRetries(s, plugin), Delays(EffectiveBackoff(s, plugin), w), w,
                      0, old(cb.Snapshot()), start)
  {
    var maxRetries, base := EffectiveSettings(s, plugin);
    wireCalls, result := RetryLoop(cb, maxRetries, Delays(base, w), w, start);
  }

  /** The breaker counts a retryable error unless it also carries a context sentinel. */
  lemma RetryableCountsAsFailure(e: Error)
    requires ClientRetryable(e)
    ensures IsFailure(Some(e)) <==> !(e.isCanceled || e.isDeadline)
  {
  }

  /** Every attempt that reaches the wire is retryable and counted; nobody gives up. */
  ghost predicate DownUpstream(w: World) {
    && (forall k: nat :: w.wire(k).Some? && ClientRetryable(w.wire(k).value) && IsFailure(w.wire(k)))
    && (forall k: nat :: w.gaveUp(k).None?)
  }

  /** An Open breaker ends the call: too little time has passed, and the rejection is not
      retryable. */
  lemma OpenEndsTheCall(c: Config, maxRetries: nat, delays: nat -> int, w: World, attempt: nat, b: Counters, now: int)
    requires attempt <= maxRetries && c.enabled
    requires b.state == Open && now - b.lastFailureTime < c.recoveryTimeout
    ensures RetrySpec(c, maxRetries, delays, w, attempt, b, now) == Report(0, Some(PLAIN), b)
  {
  }

  /** A Closed breaker with `f` failures lets a caller through max(1, threshold) - f times:
      with a failing upstream, that or the retry budget ends the call, whichever is less. */
  lemma {:induction false} AttemptsOnTheWire(c: Config, maxRetries: nat, delays: nat -> int, w: World, attempt: nat, b: Counters, now: int)
    requires attempt <= maxRetries && c.enabled && DownUpstream(w)
    requires forall k: nat :: 0 <= delays(k) < c.recoveryTimeout
    requires b.state == Closed && 0 <= b.failures < Max(1, c.failureThreshold)
    ensures var r, room, budget :=
              RetrySpec(c, maxRetries, delays, w, attempt, b, now),
              Max(1, c.failureThreshold) - b.failures, maxRetries - attempt + 1;
      && r.wireCalls == Min(budget, room)
      && r.result == (if room < budget then Some(PLAIN) else w.wire(maxRetries))
      && (r.breaker.state == Open <==> room <= budget)
    decreases maxRetries - attempt
  {
    var end := now + w.took(attempt);
    var after := ExecuteSpec(c, b, now, end, Returned(w.wire(attempt)));
    assert IsFailure(w.wire(attempt));
    if attempt < maxRetries {
      var next := end + delays(attempt);
      if after.state == Closed {
        AttemptsOnTheWire(c, maxRetries, delays, w, attempt + 1, after, next);
      } else {
        OpenEndsTheCall(c, maxRetries, delays, w, attempt + 1, after, next);
      }
    }
  }

  /** The configuration the chain gives a service's breaker. */
  function ClientBreakerConfig(threshold: int): Config {
    Config(true, threshold, 30 * SECOND, 3, 10)
  }

  /** The same for a fresh call through the chain as it is built, whatever the settings: its
      delays stay within the breaker's recovery timeout. */
  lemma ChainAttempts(threshold: int, s: Settings, plugin: Option<Settings>, w: World, b: Counters, now: int)
    requires DownUpstream(w) && forall k: nat :: -1.0 <= w.jitter(k) < 1.0
    requires b.state == Closed && 0 <= b.failures < Max(1, threshold)
    ensures var retries, room := EffectiveRetries(s, plugin), Max(1, threshold) - b.failures;
      var r := RetrySpec(ClientBreakerConfig(threshold), retries, Delays(EffectiveBackoff(s, plugin), w), w, 0, b, now);
      && r.wireCalls == Min(retries + 1, room)
      && r.result == (if room < retries + 1 then Some(PLAIN) else w.wire(retries))
      && (r.breaker.state == Open <==> room <= retries + 1)
  {
    var base := EffectiveBackoff(s, plugin);
    forall k: nat ensures 0 <= Delays(base, w)(k) <= MAX_DELAY {
      DelayBounds(k, base, MAX_DELAY, w.jitter(k));
    }
    AttemptsOnTheWire(ClientBreakerConfig(threshold), EffectiveRetries(s, plugin), Delays(base, w), w, 0, b, now);
  }

  /** In any world the budget is kept, and success is reported only when the last attempt
      that reached the wire succeeded. */
  lemma {:induction false} BudgetKept(c: Config, maxRetries: nat, delays: nat -> int, w: World, attempt: nat, b: Counters, now: int)
    requires attempt <= maxRetries
    ensures var r := RetrySpec(c, maxRetries, delays, w, attempt, b, now);
      && r.wireCalls <= maxRetries - attempt + 1
      && (!c.enabled ==> r.breaker == b)
      && (r.result.None? ==> r.wireCalls > 0 && w.wire(attempt + r.wireCalls - 1).None?)
    decreases maxRetries - attempt
  {
    var ran := Runs(c, b, now);
    var end := if ran then now + w.took(attempt) else now;
    var after := ExecuteSpec(c, b, now, end, Returned(w.wire(attempt)));
    var err := if ran then w.wire(attempt) else Some(PLAIN);
    if !Final(err, attempt, maxRetries) && w.gaveUp(attempt).None? {
      BudgetKept(c, maxRetries, delays, w, attempt + 1, after,
                 end + delays(attempt));
    }
  }

  /** When the breaker does not interfere, the call ends with the first attempt that succeeds, fails
      for good or uses up the budget, or in the wait during which the caller's context ends. */
  lemma {:induction false} RetryEnds(c: Config, maxRetries: nat, delays: nat -> int, w: World, attempt: nat, k: nat, b: Counters, now: int)
    requires !c.enabled && attempt <= k <= maxRetries
    requires forall i | attempt <= i < k ::
      w.wire(i).Some? && ClientRetryable(w.wire(i).value) && w.gaveUp(i).None?
    ensures var r := RetrySpec(c, maxRetries, delays, w, attempt, b, now);
      if w.wire(k).None? || !ClientRetryable(w.wire(k).value) || k == maxRetries then
        r == Report(k - attempt + 1, w.wire(k), b)
      else
        w.gaveUp(k).Some? ==> r == Report(k - attempt + 1, Some(ContextError(w.gaveUp(k).value)), b)
    decreases k - attempt
  {
    if attempt == k {
    } else {
      RetryEnds(c, maxRetries, delays, w, attempt + 1, k, b, now + w.took(attempt) + delays(attempt));
    }
  }

  /** The waits count: if each is as long as the recovery timeout, the breaker stops no attempt
      of a failing call, because it probes at every one. */
  lemma {:induction false} LongWaitsReachTheWire(c: Config, maxRetries: nat, delays: nat -> int, w: World, attempt: nat, b: Counters, now: int)
    requires attempt <= maxRetries && c.enabled && DownUpstream(w)
    requires forall k: nat :: delays(k) >= c.recoveryTimeout
    requires b.state == Closed || (b.state == Open && now - b.lastFailureTime >= c.recoveryTimeout)
    ensures var r := RetrySpec(c, maxRetries, delays, w, attempt, b, now);
      r.wireCalls == maxRetries - attempt + 1 && r.result == w.wire(maxRetries)
    decreases maxRetries - attempt
  {
    var end := now + w.took(attempt);
    assert IsFailure(w.wire(attempt));
    if attempt == maxRetries {
    } else {
      var after := ExecuteSpec(c, b, now, end, Returned(w.wire(attempt)));
      LongWaitsReachTheWire(c, maxRetries, delays, w, attempt + 1, after, end + delays(attempt));
    }
  }

  /** How long the attempts from `k` to `last` take, with the waits in between. */
  function Elapsed(delays: nat -> int, w: World, k: nat, last: nat): int
    decreases last - k
  {
    w.took(k) + if k >= last then 0 else delays(k) + Elapsed(delays, w, k + 1, last)
  }

  /** The wait after an attempt is its own: a failing call that stays below the threshold makes
      its last attempt, and leaves its stamp, when all attempts and the waits between them are over. */
  lemma {:induction false} LastFailureIsStamped(c: Config, maxRetries: nat, delays: nat -> int, w: World, attempt: nat, b: Counters, now: int)
    requires attempt <= maxRetries && c.enabled && DownUpstream(w)
    requires b.state == Closed && b.failures + (maxRetries - attempt + 1) < c.failureThreshold
    ensures var r := RetrySpec(c, maxRetries, delays, w, attempt, b, now);
      && r.breaker.state == Closed && r.breaker.failures == b.failures + (maxRetries - attempt + 1)
      && r.breaker.lastFailureTime == now + Elapsed(delays, w, attempt, maxRetries)
    decreases maxRetries - attempt
  {
    var end := now + w.took(attempt);
    assert IsFailure(w.wire(attempt));
    if attempt == maxRetries {
    } else {
      var after := ExecuteSpec(c, b, now, end, Returned(w.wire(attempt)));
      LastFailureIsStamped(c, maxRetries, delays, w, attempt + 1, after, end + delays(attempt));
    }
  }

  /** What the chain's configuration amounts to: 30 seconds of recovery, 3 successes to close, and
      with 10 counted probes at most 13 of one half-open era in flight. */
  lemma ClientBreakerLimits(threshold: int)
    ensures var c := ClientBreakerConfig(threshold);
      c == Config(true, threshold, 30_000_000_000, 3, 10) && BR.Peak(c) == 13
  {
  }

  // ----- What a chain of interceptors means ------------------------------------------------

  /** What a call through interceptors comes to, and when. */
  datatype Reply = Reply(report: Report, end: int)

  /** What the interceptors are configured with and what they meet. */
  datatype Setup = Setup(c: Config, maxRetries: nat, delays: nat -> int, w: World)

  /** Interceptors call what comes after them, and at the end of the chain is the wire. The
      retry interceptor calls it for one attempt after another, the breaker once if it admits. */
  function Meaning(chain: seq<Interceptor>, k: Setup, attempt: nat, b: Counters, now: int): Reply
    decreases |chain|, 0, 0
  {
    if chain == [] then
      Reply(Report(1, k.w.wire(attempt), b), now + k.w.took(attempt))
    else
      match chain[0]
      case Retrying => Tries(chain[1..], k, 0, b, now)
      case Breaking =>
        if !k.c.enabled then Meaning(chain[1..], k, attempt, b, now)
        else
          var (admitted, ok) := Allow(k.c, b, now);
          if !ok then Reply(Report(0, Some(PLAIN), admitted), now)
          else
            var r := Meaning(chain[1..], k, attempt, admitted, now);
            r.(report := r.report.(breaker := Record(k.c, r.report.breaker, IsFailure(r.report.result), r.end)))
      case _ => Meaning(chain[1..], k, attempt, b, now)
  }

  function Tries(rest: seq<Interceptor>, k: Setup, attempt: nat, b: Counters, now: int): Reply
    decreases |rest|, 1, k.maxRetries - attempt
  {
    var r := Meaning(rest, k, attempt, b, now);
    var err := r.report.result;
    if err.None? || !ClientRetryable(err.value) || attempt >= k.maxRetries then r
    else if k.w.gaveUp(attempt).Some? then
      r.(report := r.report.(result := Some(ContextError(k.w.gaveUp(attempt).value))))
    else
      var later := Tries(rest, k, attempt + 1, r.report.breaker, r.end + k.delays(attempt));
      later.(report := Plus(r.report.wireCalls, later.report))
  }

  /** The breaker's configuration as far as the chain has a breaker. */
  function BreakerOf(k: Setup, breaker: bool): Config {
    if breaker then k.c else k.c.(enabled := false)
  }

  lemma InnerMeaning(breaker: bool, k: Setup, attempt: nat, b: Counters, now: int)
    ensures var ran := Runs(BreakerOf(k, breaker), b, now);
      var end := if ran then now + k.w.took(attempt) else now;
      Meaning(Inner(breaker), k, attempt, b, now)
      == Reply(Report(if ran then 1 else 0, if ran then k.w.wire(attempt) else Some(PLAIN),
                      ExecuteSpec(BreakerOf(k, breaker), b, now, end, Returned(k.w.wire(attempt)))), end)
  {
    var chain := Inner(breaker);
    WireMeaning(k, attempt, b, now);
    if breaker {
      assert chain[1..] == [Breaking, Logging] && chain[1..][1..] == [Logging];
      if k.c.enabled {
        WireMeaning(k, attempt, Allow(k.c, b, now).0, now);
      }
    } else {
      assert chain[1..] == [Logging];
    }
  }

  lemma WireMeaning(k: Setup, attempt: nat, b: Counters, now: int)
    ensures Meaning([Logging], k, attempt, b, now) == Reply(Report(1, k.w.wire(attempt), b), now + k.w.took(attempt))
  {
    assert [Logging][1..] == [];
  }

  lemma {:induction false} TriesMeanRetry(breaker: bool, k: Setup, attempt: nat, b: Counters, now: int)
    requires attempt <= k.maxRetries
    ensures Tries(Inner(breaker), k, attempt, b, now).report
         == RetrySpec(BreakerOf(k, breaker), k.maxRetries, k.delays, k.w, attempt, b, now)
    decreases k.maxRetries - attempt
  {
    InnerMeaning(breaker, k, attempt, b, now);
    var r := Meaning(Inner(breaker), k, attempt, b, now);
    if Final(r.report.result, attempt, k.maxRetries) || k.w.gaveUp(attempt).Some? {
    } else {
      TriesMeanRetry(breaker, k, attempt + 1, r.report.breaker, r.end + k.delays(attempt));
    }
  }

  /** The chain as it is built means the retried call of which all the results above speak: one
      admission for every attempt. Without retry it is a single attempt, without a breaker
      nothing is refused. */
  lemma ChainMeansRetry(tracing: bool, retry: bool, breaker: bool, k: Setup, b: Counters, now: int)
    ensures Meaning(Chain(tracing, retry, breaker), k, 0, b, now).report
         == RetrySpec(BreakerOf(k, breaker), if retry then k.maxRetries else 0, k.delays, k.w, 0, b, now)
  {
    var chain := Chain(tracing, retry, breaker);
    if tracing {
      assert chain[1..] == Resilience(retry, breaker);
    } else {
      assert chain == Resilience(retry, breaker);
    }
    assert Meaning(chain, k, 0, b, now) == Meaning(Resilience(retry, breaker), k, 0, b, now);
    ResilienceMeansRetry(retry, breaker, k, b, now);
  }

  lemma ResilienceMeansRetry(retry: bool, breaker: bool, k: Setup, b: Counters, now: int)
    ensures Meaning(Resilience(retry, breaker), k, 0, b, now).report
         == RetrySpec(BreakerOf(k, breaker), if retry then k.maxRetries else 0, k.delays, k.w, 0, b, now)
  {
    if retry {
      assert Resilience(retry, breaker)[1..] == Inner(breaker);
      TriesMeanRetry(breaker, k, 0, b, now);
    } else {
      assert Resilience(retry, breaker) == Inner(breaker);
      InnerMeaning(breaker, k, 0, b, now);
    }
  }
}
