/** The programmatic retry handler: a bounded loop with geometric backoff. Durations are
    exact reals, so rounding to nanoseconds plays no part. */
module Retry {
  import opened Errors

  /** What the run meets: the outcome of each call (None is success) and, for each wait,
      whether and how the caller's context ends before the timer does. */
  datatype World = World(outcome: nat -> Option<Error>, gaveUp: nat -> Option<ContextEnd>)

  datatype Policy = Policy(maxRetries: int, base: real, maxBackoff: real, multiplier: real)

  function MinReal(a: real, b: real): real { if a <= b then a else b }

  function Pow(m: real, k: nat): real { if k == 0 then 1.0 else m * Pow(m, k - 1) }

  /** The exponential delay formula: the cap applies to the final value only. */
  function ExponentialBackoff(attempt: nat, base: real, maxDelay: real, multiplier: real): real {
    MinReal(base * Pow(multiplier, attempt), maxDelay)
  }

  function Scale(m: real): real -> real { (x: real) => x * m }

  function Iterate(f: real -> real, x: real, k: nat): real {
    if k == 0 then x else f(Iterate(f, x, k - 1))
  }

  function IterateCapped(f: real -> real, cap: real, x: real, k: nat): real {
    if k == 0 then x else MinReal(f(IterateCapped(f, cap, x, k - 1)), cap)
  }

  /** The value of the loop variable `backoff` when attempt `k` fails: grown `k` times,
      capped after each growth but not before the first. */
  function LoopBackoff(p: Policy, k: nat): real {
    IterateCapped(Scale(p.multiplier), p.maxBackoff, p.base, k)
  }

  /** Attempt `k` fails in a way that is retried, and the wait after it is not cut short. */
  predicate GoesOn(w: World, k: nat) {
    w.outcome(k).Some? && HandlerRetryable(w.outcome(k).value) && w.gaveUp(k).None?
  }

  /** Attempt `k` fails retryably but the context ends during the wait after it. */
  predicate CutShort(p: Policy, w: World, k: nat) {
    w.outcome(k).Some? && HandlerRetryable(w.outcome(k).value) && k < p.maxRetries && w.gaveUp(k).Some?
  }

  datatype Report = Report(calls: nat, waits: seq<real>, result: Option<Error>)

  /** The first attempt the loop does not get past. */
  ghost predicate LastAttempt(p: Policy, w: World, k: nat) {
    && k <= p.maxRetries
    && (forall i: nat | i < k :: GoesOn(w, i))
    && (k == p.maxRetries || !GoesOn(w, k))
  }

  /** `r` is what one call of ExecuteWithRetry does in world `w`. With a negative retry
      budget the loop body never runs: no call is made, yet the result is a success. */
  ghost predicate IsRun(p: Policy, w: World, r: Report) {
    if p.maxRetries < 0 then r == Report(0, [], None)
    else
      && r.calls >= 1 && LastAttempt(p, w, r.calls - 1)
      && |r.waits| == r.calls - (if CutShort(p, w, r.calls - 1) then 0 else 1)
      && r.result == (if CutShort(p, w, r.calls - 1) then Some(ContextError(w.gaveUp(r.calls - 1).value)) else w.outcome(r.calls - 1))
      && forall k | 0 <= k < |r.waits| :: r.waits[k] == LoopBackoff(p, k)
  }

  method ExecuteWithRetry(p: Policy, w: World) returns (r: Report)
    ensures IsRun(p, w, r)
  {
    var backoff, waits := p.base, [];
    var attempt: nat := 0;
    while attempt <= p.maxRetries
      invariant |waits| == attempt && backoff == LoopBackoff(p, attempt)
      invariant attempt == 0 || attempt <= p.maxRetries
      invariant forall i: nat | i < attempt :: GoesOn(w, i)
      invariant forall k | 0 <= k < |waits| :: waits[k] == LoopBackoff(p, k)
      decreases p.maxRetries - attempt
    {
      var err := w.outcome(attempt);
      if err.None? || !HandlerRetryable(err.value) || attempt == p.maxRetries {
        return Report(attempt + 1, waits, err);
      }
      waits := waits + [backoff];
      if w.gaveUp(attempt).Some? {
        return Report(attempt + 1, waits, Some(ContextError(w.gaveUp(attempt).value)));
      }
      backoff := Scale(p.multiplier)(backoff);
      if backoff > p.maxBackoff {
        backoff := p.maxBackoff;
      }
      attempt := attempt + 1;
    }
    return Report(0, [], None);
  }

  ghost predicate Increasing(f: real -> real) {
    forall x, y | x <= y :: f(x) <= f(y)
  }

  ghost predicate Grows(f: real -> real) {
    forall y | 0.0 <= y :: f(y) >= y
  }

  ghost predicate Shrinks(f: real -> real) {
    forall y | 0.0 <= y :: 0.0 <= f(y) <= y
  }

  /** Capping after every step equals capping once at the end, for a growth that does not
      leave the cap downwards and for a shrinking that never meets it. */
  lemma {:induction false} CapCommutes(f: real -> real, cap: real, x: real, k: nat)
    requires Increasing(f) && (Grows(f) || Shrinks(f)) && 0.0 <= x <= cap
    ensures IterateCapped(f, cap, x, k) == MinReal(Iterate(f, x, k), cap)
    ensures Shrinks(f) ==> 0.0 <= Iterate(f, x, k) <= x
  {
    if k == 0 {
    } else {
      CapCommutes(f, cap, x, k - 1);
    }
  }

  lemma {:induction false} IterateIsPower(m: real, x: real, k: nat)
    ensures Iterate(Scale(m), x, k) == x * Pow(m, k)
  {
    if k == 0 {
    } else {
      IterateIsPower(m, x, k - 1);
      Rearrange(x, m, Pow(m, k - 1));
    }
  }

  lemma Rearrange(a: real, b: real, c: real)
    ensures a * (b * c) == a * c * b
  {
  }

  lemma MulMonotone(m: real, a: real, b: real)
    requires m >= 0.0 && a <= b
    ensures a * m <= b * m
  {
  }

  lemma MulStrict(m: real, a: real, b: real)
    requires m > 0.0 && a < b
    ensures a * m < b * m
  {
  }

  lemma ScaleAt(m: real, x: real)
    ensures Scale(m)(x) == x * m
  {
  }

  lemma ScaleOrdered(m: real, x: real, y: real)
    requires m >= 0.0 && x <= y
    ensures Scale(m)(x) <= Scale(m)(y)
  {
    ScaleAt(m, x);
    ScaleAt(m, y);
    MulMonotone(m, x, y);
  }

  lemma ScaleStrictlyOrdered(m: real, x: real, y: real)
    requires m > 0.0 && x < y
    ensures Scale(m)(x) < Scale(m)(y)
  {
    ScaleAt(m, x);
    ScaleAt(m, y);
    MulStrict(m, x, y);
  }

  lemma ScaleSide(m: real, y: real)
    requires m >= 0.0 && y >= 0.0
    ensures m >= 1.0 ==> Scale(m)(y) >= y
    ensures m <= 1.0 ==> 0.0 <= Scale(m)(y) <= y
  {
    ScaleAt(m, y);
    MulMonotone(m, 0.0, y);
    MulMonotone(y, if m >= 1.0 then 1.0 else m, if m >= 1.0 then m else 1.0);
  }

  lemma MulShrinks(m: real, y: real)
    requires 0.0 < m < 1.0 && 0.0 < y
    ensures 0.0 < y * m && y * m < y
  {
    MulStrict(m, 0.0, y);
    MulStrict(y, m, 1.0);
  }

  lemma ScaleBetween(m: real, x: real, low: real, high: real)
    requires low < x * m < high
    ensures low < Scale(m)(x) < high
  {
    ScaleAt(m, x);
  }

  lemma ScaleStrictSide(m: real, y: real)
    requires 0.0 < m < 1.0 && 0.0 < y
    ensures 0.0 < Scale(m)(y) < y
  {
    MulShrinks(m, y);
    ScaleBetween(m, y, 0.0, y);
  }

  lemma ScaleShape(m: real)
    requires m >= 0.0
    ensures Increasing(Scale(m))
    ensures m >= 1.0 ==> Grows(Scale(m))
    ensures m <= 1.0 ==> Shrinks(Scale(m))
  {
    forall x, y | x <= y ensures Scale(m)(x) <= Scale(m)(y) {
      ScaleOrdered(m, x, y);
    }
    forall y | 0.0 <= y
      ensures m >= 1.0 ==> Scale(m)(y) >= y
      ensures m <= 1.0 ==> 0.0 <= Scale(m)(y) <= y
    {
      ScaleSide(m, y);
    }
  }

  /** ExponentialBackoff is the uncapped iteration, capped once. */
  lemma ClosedForm(p: Policy, k: nat)
    ensures ExponentialBackoff(k, p.base, p.maxBackoff, p.multiplier)
         == MinReal(Iterate(Scale(p.multiplier), p.base, k), p.maxBackoff)
  {
    IterateIsPower(p.multiplier, p.base, k);
  }

  /** The loop's running product is the closed form, whatever the multiplier. */
  lemma LoopIsExponential(p: Policy, k: nat)
    requires p.multiplier >= 0.0 && 0.0 <= p.base <= p.maxBackoff
    ensures LoopBackoff(p, k) == ExponentialBackoff(k, p.base, p.maxBackoff, p.multiplier)
  {
    ClosedForm(p, k);
    ScaleShape(p.multiplier);
    CapCommutes(Scale(p.multiplier), p.maxBackoff, p.base, k);
  }

  /** When capping after every growth equals capping at the end, for a first value `x` that
      is not capped itself. */
  predicate CapAgrees(m: real, cap: real, x: real, k: nat) {
    x <= cap || (k > 0 && (m >= 1.0 || k == 1 || x * m <= cap || cap == 0.0))
  }

  lemma {:induction false} StaysAtCap(f: real -> real, cap: real, x: real, k: nat)
    requires Grows(f) && 0.0 <= cap < x && k > 0
    ensures IterateCapped(f, cap, x, k) == cap && Iterate(f, x, k) >= x
  {
    if k == 1 {
    } else {
      StaysAtCap(f, cap, x, k - 1);
    }
  }

  /** From the second value on, capped growth starts from the capped second value. */
  lemma {:induction false} FromSecond(f: real -> real, cap: real, x: real, k: nat)
    requires k > 0
    ensures IterateCapped(f, cap, x, k) == IterateCapped(f, cap, MinReal(f(x), cap), k - 1)
    ensures Iterate(f, x, k) == Iterate(f, f(x), k - 1)
  {
    if k == 1 {
    } else {
      FromSecond(f, cap, x, k - 1);
    }
  }

  ghost predicate Strict(f: real -> real) {
    && (forall x, y | x < y :: f(x) < f(y))
    && (forall y | 0.0 < y :: 0.0 < f(y) < y)
  }

  lemma {:induction false} StrictlyBelow(f: real -> real, x: real, y: real, k: nat)
    requires Strict(f) && 0.0 < x < y
    ensures 0.0 < Iterate(f, x, k) < Iterate(f, y, k)
    ensures k > 0 ==> Iterate(f, x, k) < x
  {
    if k == 0 {
    } else {
      StrictlyBelow(f, x, y, k - 1);
    }
  }

  /** A shrinking that starts above the cap agrees if its first step ends within the cap, or is
      the only one, or leads nowhere. */
  lemma ShrinksFromAbove(f: real -> real, cap: real, x: real, k: nat)
    requires Increasing(f) && Shrinks(f) && 0.0 <= cap < x && k > 0 && (f(x) > cap ==> Strict(f))
    ensures IterateCapped(f, cap, x, k) == MinReal(Iterate(f, x, k), cap) <==> k == 1 || f(x) <= cap || cap == 0.0
  {
    FromSecond(f, cap, x, k);
    CapCommutes(f, cap, MinReal(f(x), cap), k - 1);
    if f(x) > cap > 0.0 {
      StrictlyBelow(f, cap, f(x), k - 1);
    } else if f(x) > cap {
      CapCommutes(f, f(x), f(x), k - 1);
    }
  }

  lemma ScaleIsStrict(m: real)
    requires 0.0 < m < 1.0
    ensures Strict(Scale(m))
  {
    forall x, y | x < y ensures Scale(m)(x) < Scale(m)(y) {
      ScaleStrictlyOrdered(m, x, y);
    }
    forall y | 0.0 < y ensures 0.0 < Scale(m)(y) < y {
      ScaleStrictSide(m, y);
    }
  }

  lemma ScaleFromAbove(m: real, cap: real, x: real, k: nat)
    requires 0.0 <= m < 1.0 && 0.0 <= cap < x && k > 0
    ensures IterateCapped(Scale(m), cap, x, k) == MinReal(Iterate(Scale(m), x, k), cap)
       <==> k == 1 || Scale(m)(x) <= cap || cap == 0.0
  {
    ScaleShape(m);
    if m > 0.0 {
      ScaleIsStrict(m);
    }
    ShrinksFromAbove(Scale(m), cap, x, k);
  }

  lemma ScaleWithinOrGrowing(m: real, cap: real, x: real, k: nat)
    requires m >= 0.0 && 0.0 <= x && 0.0 <= cap && (x <= cap || (m >= 1.0 && k > 0))
    ensures IterateCapped(Scale(m), cap, x, k) == MinReal(Iterate(Scale(m), x, k), cap)
  {
    ScaleShape(m);
    if x <= cap {
      CapCommutes(Scale(m), cap, x, k);
    } else {
      StaysAtCap(Scale(m), cap, x, k);
    }
  }

  /** Exactly when capping after every growth equals capping at the end, for every multiplier. */
  lemma CapCommutesExactlyWhen(m: real, cap: real, x: real, k: nat)
    requires m >= 0.0 && 0.0 <= x && 0.0 <= cap
    ensures IterateCapped(Scale(m), cap, x, k) == MinReal(Iterate(Scale(m), x, k), cap) <==> CapAgrees(m, cap, x, k)
  {
    ScaleAt(m, x);
    if x <= cap || (m >= 1.0 && k > 0) {
      ScaleWithinOrGrowing(m, cap, x, k);
    } else if k > 0 {
      ScaleFromAbove(m, cap, x, k);
    }
  }

  /** Exactly when the wait after attempt `k` agrees with ExponentialBackoff. The first wait is
      never capped; a base above the cap shows there, and later on only if the multiplier
      shrinks it, but not at once to within the cap. */
  lemma LoopAgreesExactlyWhen(p: Policy, k: nat)
    requires p.multiplier >= 0.0 && 0.0 <= p.base && 0.0 <= p.maxBackoff
    ensures LoopBackoff(p, k) == ExponentialBackoff(k, p.base, p.maxBackoff, p.multiplier)
       <==> CapAgrees(p.multiplier, p.maxBackoff, p.base, k)
  {
    ClosedForm(p, k);
    CapCommutesExactlyWhen(p.multiplier, p.maxBackoff, p.base, k);
  }

  function Backoffs(p: Policy, n: nat): seq<real> {
    seq(n, k requires 0 <= k => ExponentialBackoff(k, p.base, p.maxBackoff, p.multiplier))
  }

  /** When every attempt fails retryably and nobody gives up, the handler is called exactly
      maxRetries + 1 times. The waits are exactly the first maxRetries exponential backoffs
      unless there is a wait and the base, waited first, exceeds the cap. */
  lemma RunOfFailures(p: Policy, w: World, r: Report)
    requires p.maxRetries >= 0 && p.multiplier >= 0.0 && 0.0 <= p.base && 0.0 <= p.maxBackoff
    requires forall k: nat :: GoesOn(w, k)
    requires IsRun(p, w, r)
    ensures r.calls == p.maxRetries + 1 && r.result == w.outcome(p.maxRetries)
    ensures |r.waits| == p.maxRetries
    ensures r.waits == Backoffs(p, p.maxRetries) <==> p.maxRetries == 0 || p.base <= p.maxBackoff
  {
    assert GoesOn(w, r.calls - 1);
    if p.base <= p.maxBackoff {
      forall k | 0 <= k < |r.waits|
        ensures r.waits[k] == ExponentialBackoff(k, p.base, p.maxBackoff, p.multiplier)
      {
        LoopIsExponential(p, k);
      }
    } else if p.maxRetries > 0 {
      LoopAgreesExactlyWhen(p, 0);
      assert r.waits[0] != Backoffs(p, p.maxRetries)[0];
    }
  }

  /** How a run ends, in terms of the calls alone: with the first one that succeeds, fails for good
      or uses up the budget, or in the wait during which the caller's context ends. */
  lemma RunEnds(p: Policy, w: World, r: Report, k: nat)
    requires IsRun(p, w, r) && k <= p.maxRetries
    requires forall i: nat | i < k :: w.outcome(i).Some? && HandlerRetryable(w.outcome(i).value) && w.gaveUp(i).None?
    ensures w.outcome(k).None? || !HandlerRetryable(w.outcome(k).value) || k == p.maxRetries ==>
      r.calls == k + 1 && |r.waits| == k && r.result == w.outcome(k)
    ensures w.outcome(k).Some? && HandlerRetryable(w.outcome(k).value) && k < p.maxRetries && w.gaveUp(k).Some? ==>
      r.calls == k + 1 && |r.waits| == k + 1 && r.result == Some(ContextError(w.gaveUp(k).value))
  {
    var last: nat := r.calls - 1;
    assert forall i: nat | i < k :: GoesOn(w, i);
    assert last >= k || GoesOn(w, last);
    assert last <= k || GoesOn(w, k);
  }

  /** The waits of a run: the base first, and from each to the next the growth, then the cap. */
  lemma WaitsGrow(p: Policy, w: World, r: Report, k: nat)
    requires IsRun(p, w, r) && k < |r.waits|
    ensures r.waits[0] == p.base
    ensures k > 0 ==> r.waits[k] == MinReal(r.waits[k - 1] * p.multiplier, p.maxBackoff)
  {
    assert r.waits[0] == LoopBackoff(p, 0);
    if k > 0 {
      ScaleAt(p.multiplier, r.waits[k - 1]);
      assert r.waits[k] == LoopBackoff(p, k);
    }
  }

  /** The world determines the run: IsRun leaves no choice. */
  lemma RunIsDetermined(p: Policy, w: World, r: Report, r': Report)
    requires IsRun(p, w, r) && IsRun(p, w, r')
    ensures r == r'
  {
    if p.maxRetries >= 0 {
      assert r.waits == r'.waits;
    }
  }

  /** Success is reported exactly when an attempt within the budget succeeds after nothing
      but retried failures, or when the budget is negative and nothing was attempted. */
  lemma SuccessMeans(p: Policy, w: World, r: Report)
    requires IsRun(p, w, r)
    ensures r.result.None?
       <==> (p.maxRetries < 0
             || exists k: nat | k <= p.maxRetries :: w.outcome(k).None? && forall i: nat | i < k :: GoesOn(w, i))
  {
    if k: nat :| k <= p.maxRetries && w.outcome(k).None? && forall i: nat | i < k :: GoesOn(w, i) {
      assert LastAttempt(p, w, k);
    }
  }
}
