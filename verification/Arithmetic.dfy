/** Facts about multiplication, division and finite sets that the other modules rest on. */
module Arithmetic {

  lemma Scale(a: int, b: int, p: int)
    requires a <= b && p >= 0
    ensures a * p <= b * p
  {
  }

  lemma Distribute(p: int, a: int, b: int)
    ensures p * (a + b) == p * a + p * b
  {
  }

  /** Division by a positive number, as a comparison of multiples. */
  lemma Fits(k: int, p: int, e: int)
    requires p > 0
    ensures k * p <= e <==> k <= e / p
  {
    var q := e / p;
    assert q * p <= e < (q + 1) * p;
    if k <= q {
      Scale(k, q, p);
    } else {
      Scale(q + 1, k, p);
    }
  }

  /** The integers from `lo` up to, but not including, `hi`. */
  ghost function Range(lo: int, hi: int): (r: set<int>)
    ensures forall k: int :: k in r <==> lo <= k < hi
    ensures lo <= hi ==> |r| == hi - lo
    decreases hi - lo
  {
    if lo >= hi then {} else Range(lo, hi - 1) + {hi - 1}
  }

  lemma SubsetSize<T>(a: set<T>, b: set<T>)
    requires a <= b
    ensures |a| <= |b|
  {
    assert b == a + (b - a);
  }

  lemma AnElement<T>(s: set<T>) returns (x: T)
    requires s != {}
    ensures x in s
  {
    x :| x in s;
  }
}
