/** Server options: from the loaded settings to the limiter, semaphore and breaker the
    interceptors use. */
module ServerOptions {
  import opened Basics
  import opened Errors
  import Breaker

  datatype RateLimit = RateLimit(enabled: bool, ratePerSecond: real, burst: int)
  datatype BreakerSettings = BreakerSettings(enabled: bool, failureThreshold: int, recoveryTimeout: int,
                                             successThreshold: int, timeout: int, maxConcurrentRequests: int)
  datatype Options = Options(enableMetrics: bool, enableRequestLogging: bool, rateLimit: RateLimit,
                             maxInflightUnary: int, circuitBreaker: BreakerSettings)

  datatype Limiter = Limiter(rps: real, burst: int)

  /** `inflight` is the capacity of the semaphore, `timeout` the breaker's request timeout. */
  datatype Built = Built(opts: Options, limiter: Option<Limiter>, inflight: Option<int>,
                         breaker: Option<Breaker.Config>, timeout: int)

  predicate KeptOrDefault(setting: int, default: int, result: int) {
    result > 0 && (setting > 0 ==> result == setting) && (setting <= 0 ==> result == default)
  }

  method BuildServerOptionsFromConfig(o: Options) returns (b: Built)
    ensures b.opts == o
    ensures b.limiter.Some? <==> o.rateLimit.enabled && o.rateLimit.ratePerSecond > 0.0
    ensures b.limiter.Some? ==> b.limiter.value.rps == o.rateLimit.ratePerSecond && b.limiter.value.burst > 0
    ensures b.limiter.Some? && o.rateLimit.burst > 0 ==> b.limiter.value.burst == o.rateLimit.burst
    ensures b.limiter.Some? && o.rateLimit.burst <= 0
            ==> b.limiter.value.burst as real - 1.0 <= o.rateLimit.ratePerSecond < b.limiter.value.burst as real
    ensures b.inflight.Some? <==> o.maxInflightUnary > 0
    ensures b.inflight.Some? ==> b.inflight.value == o.maxInflightUnary
    ensures b.breaker.Some? <==> o.circuitBreaker.enabled
    ensures b.breaker.Some? ==>
      && b.breaker.value.enabled
      && KeptOrDefault(o.circuitBreaker.failureThreshold, 5, b.breaker.value.failureThreshold)
      && KeptOrDefault(o.circuitBreaker.recoveryTimeout, 30 * SECOND, b.breaker.value.recoveryTimeout)
      && KeptOrDefault(o.circuitBreaker.successThreshold, 3, b.breaker.value.successThreshold)
      && KeptOrDefault(o.circuitBreaker.timeout, 10 * SECOND, b.timeout)
      && KeptOrDefault(o.circuitBreaker.maxConcurrentRequests, 10, b.breaker.value.maxConcurrentRequests)
  {
    b := Built(o, None, None, None, 0);
    if o.rateLimit.enabled && o.rateLimit.ratePerSecond > 0.0 {
      var burst := o.rateLimit.burst;
      if burst <= 0 {
        burst := o.rateLimit.ratePerSecond.Floor + 1;
      }
      b := b.(limiter := Some(Limiter(o.rateLimit.ratePerSecond, burst)));
    }
    if o.maxInflightUnary > 0 {
      b := b.(inflight := Some(o.maxInflightUnary));
    }
    if o.circuitBreaker.enabled {
      var s := o.circuitBreaker;
      var cfg := Breaker.Config(true, s.failureThreshold, s.recoveryTimeout, s.successThreshold, s.maxConcurrentRequests);
      var timeout := s.timeout;
      if cfg.failureThreshold <= 0 {
        cfg := cfg.(failureThreshold := 5);
      }
      if cfg.recoveryTimeout <= 0 {
        cfg := cfg.(recoveryTimeout := 30 * SECOND);
      }
      if cfg.successThreshold <= 0 {
        cfg := cfg.(successThreshold := 3);
      }
      if timeout <= 0 {
        timeout := 10 * SECOND;
      }
      if cfg.maxConcurrentRequests <= 0 {
        cfg := cfg.(maxConcurrentRequests := 10);
      }
      b := b.(breaker := Some(cfg), timeout := timeout);
    }
  }
}
