/** Finite sums over rows of the lattice, accumulated from the left in the
    order the source's accumulator loops add them up. */
module Sums {

  function Min(x: int, y: int): int { if x <= y then x else y }

  function Max(x: real, y: real): real { if x >= y then x else y }

  /** s[lo] + ... + s[hi-1] */
  function SumOver(s: seq<real>, lo: nat, hi: nat): real
    requires lo <= hi <= |s|
    decreases hi - lo
  {
    if lo == hi then 0.0 else SumOver(s, lo, hi - 1) + s[hi - 1]
  }

  /** The sum of a whole row. */
  function Sum(s: seq<real>): real
  {
    SumOver(s, 0, |s|)
  }

  /** q[lo]*w[lo] + ... + q[hi-1]*w[hi-1] */
  function Dot(q: seq<real>, w: seq<real>, lo: nat, hi: nat): real
    requires lo <= hi <= |q| && hi <= |w|
    decreases hi - lo
  {
    if lo == hi then 0.0 else Dot(q, w, lo, hi - 1) + q[hi - 1] * w[hi - 1]
  }

  /** The row s after the in-place update `s[i] += d`. */
  function AddAt(s: seq<real>, i: nat, d: real): (r: seq<real>)
    requires i < |s|
    ensures |r| == |s|
  {
    s[i := s[i] + d]
  }

  function Zeros(n: nat): (r: seq<real>)
    ensures |r| == n && forall i :: 0 <= i < n ==> r[i] == 0.0
  {
    seq(n, _ => 0.0)
  }

  /** Every entry of s outside [lo, hi) is zero. */
  predicate ZeroOutside(s: seq<real>, lo: int, hi: int)
  {
    forall i :: 0 <= i < |s| && !(lo <= i < hi) ==> s[i] == 0.0
  }

  predicate NonNegative(s: seq<real>)
  {
    forall i :: 0 <= i < |s| ==> s[i] >= 0.0
  }

  /** An in-place `+=` changes a range sum by exactly the added amount when
      it lands inside the range, and not at all otherwise. */
  lemma {:induction false} SumOverAddAt(s: seq<real>, i: nat, d: real, lo: nat, hi: nat)
    requires i < |s| && lo <= hi <= |s|
    ensures SumOver(AddAt(s, i, d), lo, hi) == SumOver(s, lo, hi) + (if lo <= i < hi then d else 0.0)
    decreases hi - lo
  {
    if lo < hi {
      SumOverAddAt(s, i, d, lo, hi - 1);
    }
  }

  /** Weighted version of SumOverAddAt. */
  lemma {:induction false} DotAddAt(s: seq<real>, w: seq<real>, i: nat, d: real, lo: nat, hi: nat)
    requires i < |s| && lo <= hi <= |s| && hi <= |w| && i < |w|
    ensures Dot(AddAt(s, i, d), w, lo, hi) == Dot(s, w, lo, hi) + (if lo <= i < hi then d * w[i] else 0.0)
    decreases hi - lo
  {
    if lo < hi {
      DotAddAt(s, w, i, d, lo, hi - 1);
    }
  }

  lemma {:induction false} SumOverSplit(s: seq<real>, lo: nat, mid: nat, hi: nat)
    requires lo <= mid <= hi <= |s|
    ensures SumOver(s, lo, hi) == SumOver(s, lo, mid) + SumOver(s, mid, hi)
    decreases hi - mid
  {
    if mid < hi {
      SumOverSplit(s, lo, mid, hi - 1);
    }
  }

  lemma {:induction false} SumOverOfZeros(s: seq<real>, lo: nat, hi: nat)
    requires lo <= hi <= |s|
    requires forall i :: lo <= i < hi ==> s[i] == 0.0
    ensures SumOver(s, lo, hi) == 0.0
    decreases hi - lo
  {
    if lo < hi {
      SumOverOfZeros(s, lo, hi - 1);
    }
  }

  /** A row that vanishes outside [lo, hi) sums to its sum over [lo, hi). */
  lemma SumOfSupported(s: seq<real>, lo: nat, hi: nat)
    requires lo <= hi <= |s| && ZeroOutside(s, lo, hi)
    ensures Sum(s) == SumOver(s, lo, hi)
  {
    SumOverSplit(s, 0, lo, |s|);
    SumOverSplit(s, lo, hi, |s|);
    SumOverOfZeros(s, 0, lo);
    SumOverOfZeros(s, hi, |s|);
  }

  /** Scaling every weight by c scales the weighted sum by c. */
  lemma {:induction false} DotScaled(q: seq<real>, w: seq<real>, v: seq<real>, c: real, lo: nat, hi: nat)
    requires lo <= hi <= |q| && hi <= |w| && hi <= |v|
    requires forall i :: lo <= i < hi ==> v[i] == c * w[i]
    ensures Dot(q, v, lo, hi) == c * Dot(q, w, lo, hi)
    decreases hi - lo
  {
    if lo < hi {
      DotScaled(q, w, v, c, lo, hi - 1);
      assert q[hi - 1] * v[hi - 1] == c * (q[hi - 1] * w[hi - 1]);
    }
  }

  lemma {:induction false} SumOverNonNegative(s: seq<real>, lo: nat, hi: nat)
    requires lo <= hi <= |s| && NonNegative(s)
    ensures SumOver(s, lo, hi) >= 0.0
    decreases hi - lo
  {
    if lo < hi {
      SumOverNonNegative(s, lo, hi - 1);
    }
  }

  lemma {:induction false} DotNonNegative(q: seq<real>, w: seq<real>, lo: nat, hi: nat)
    requires lo <= hi <= |q| && hi <= |w|
    requires forall i :: lo <= i < hi ==> q[i] >= 0.0 && w[i] >= 0.0
    ensures Dot(q, w, lo, hi) >= 0.0
    decreases hi - lo
  {
    if lo < hi {
      DotNonNegative(q, w, lo, hi - 1);
      assert q[hi - 1] * w[hi - 1] >= 0.0;
    }
  }

  /** Non-negative masses with a positive total, weighted by positive
      factors, give a positive total. */
  lemma {:induction false} DotPositive(q: seq<real>, w: seq<real>, lo: nat, hi: nat)
    requires lo <= hi <= |q| && hi <= |w|
    requires forall i :: lo <= i < hi ==> q[i] >= 0.0 && w[i] > 0.0
    requires SumOver(q, lo, hi) > 0.0
    ensures Dot(q, w, lo, hi) > 0.0
    decreases hi - lo
  {
    var k := hi - 1;
    assert q[k] * w[k] >= 0.0;
    if SumOver(q, lo, k) > 0.0 {
      DotPositive(q, w, lo, k);
    } else {
      assert q[k] > 0.0;
      assert q[k] * w[k] > 0.0;
      DotNonNegative(q, w, lo, k);
    }
  }

  lemma {:induction false} DotSplit(q: seq<real>, w: seq<real>, lo: nat, mid: nat, hi: nat)
    requires lo <= mid <= hi <= |q| && hi <= |w|
    ensures Dot(q, w, lo, hi) == Dot(q, w, lo, mid) + Dot(q, w, mid, hi)
    decreases hi - mid
  {
    if mid < hi {
      DotSplit(q, w, lo, mid, hi - 1);
    }
  }

  /** A weighted sum vanishes where either factor vanishes. */
  lemma {:induction false} DotOfZeros(q: seq<real>, w: seq<real>, lo: nat, hi: nat)
    requires lo <= hi <= |q| && hi <= |w|
    requires forall i :: lo <= i < hi ==> q[i] == 0.0 || w[i] == 0.0
    ensures Dot(q, w, lo, hi) == 0.0
    decreases hi - lo
  {
    if lo < hi {
      DotOfZeros(q, w, lo, hi - 1);
    }
  }

  /** Weights that vanish outside [lo, hi) only see that range. */
  lemma DotOfSupported(q: seq<real>, w: seq<real>, lo: nat, hi: nat)
    requires lo <= hi <= |q| && |w| == |q| && ZeroOutside(w, lo, hi)
    ensures Dot(q, w, 0, |q|) == Dot(q, w, lo, hi)
  {
    DotSplit(q, w, 0, lo, |q|);
    DotSplit(q, w, lo, hi, |q|);
    DotOfZeros(q, w, 0, lo);
    DotOfZeros(q, w, hi, |q|);
  }
}
