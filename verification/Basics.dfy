/** Notions that several parts of the model share. */
module Basics {

  /** A second, in the nanoseconds durations are counted in. */
  const SECOND := 1_000_000_000

  function Min(a: int, b: int): int { if a <= b then a else b }

  function Max(a: int, b: int): int { if a >= b then a else b }

  function Pow2(k: nat): nat { if k == 0 then 1 else 2 * Pow2(k - 1) }

  function Elements<T(==)>(s: seq<T>): set<T> { set x | x in s }

  ghost predicate Distinct<T>(s: seq<T>) {
    forall i, j | 0 <= i < j < |s| :: s[i] != s[j]
  }

  /** Any two elements of `r` stand in `s` in the same order. */
  ghost predicate KeepsOrder<T>(r: seq<T>, s: seq<T>) {
    forall i, j | 0 <= i < j < |r| :: Precedes(s, r[i], r[j])
  }

  /** Some occurrence of `x` precedes some occurrence of `y`. */
  ghost predicate Precedes<T>(s: seq<T>, x: T, y: T) {
    exists a, b | 0 <= a < b < |s| :: s[a] == x && s[b] == y
  }

  lemma {:induction false} DistinctSize<T>(s: seq<T>)
    requires Distinct(s)
    ensures |Elements(s)| == |s|
  {
    if s == [] {
    } else {
      var p, x := s[..|s| - 1], s[|s| - 1];
      DistinctSize(p);
      assert Elements(s) == Elements(p) + {x};
      assert x !in p;
    }
  }

  lemma {:induction false} SubsetSize<T>(a: set<T>, b: set<T>)
    requires a <= b
    ensures |a| <= |b|
  {
    if a == {} {
    } else {
      var x :| x in a;
      SubsetSize(a - {x}, b - {x});
    }
  }
}
