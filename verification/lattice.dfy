/** Building the Hull-White tree and fitting it to the discount curve.

    Index j in [-jmax, jmax] is stored at offset j + jmax. The rate r[m,j]
    enters only through its one-step discount factor z[m,j] = exp(-r[m,j] dt);
    with r[m,j] = alpha[m] + j dR and alpha[m] = log(sumQZ / df[m+1]) / dt
    this factor is exactly shift[j] * df[m+1] / sumQZ, where
    shift[j] = exp(-j dR dt) is an input and sumQZ = sum_j Q[m,j] shift[j]. */
module Lattice {

  import opened Sums
  import opened Branching
  import opened Propagation

  /** Arrow-Debreu prices at time 0: one at the centre, zero elsewhere. */
  function UnitRow(jmax: nat): (r: seq<real>)
    ensures |r| == 2 * jmax + 1
  {
    seq(2 * jmax + 1, i => if i == jmax then 1.0 else 0.0)
  }

  /** Half-width of the occupied part of step m: min(m, jmax). */
  function Occupied(m: nat, jmax: nat): (n: nat)
    ensures n <= jmax && n <= m
  {
    if m <= jmax then m else jmax
  }

  /** sumQZ: the occupied prices of a step weighted by exp(-j dR dt). */
  function SumQZ(q: seq<real>, shift: seq<real>, jmax: nat, n: nat): real
    requires n <= jmax && |q| == 2 * jmax + 1 && |shift| == |q|
  {
    Dot(q, shift, jmax - n, jmax + n + 1)
  }

  /** The one-step discount factors z of a step are those of the drift
      alpha[m] that the source solves for: z[j] = shift[j] * dfNext / sumQZ
      at every occupied node, and the logarithm is defined (sumQZ > 0). */
  predicate DriftCalibrated(q: seq<real>, z: seq<real>, shift: seq<real>, dfNext: real, jmax: nat, n: nat)
    requires n <= jmax && |q| == 2 * jmax + 1 && |shift| == |q| && |z| == |q|
  {
    && SumQZ(q, shift, jmax, n) > 0.0
    && forall i :: jmax - n <= i <= jmax + n ==> z[i] == dfNext / SumQZ(q, shift, jmax, n) * shift[i]
  }

  predicate Shaped(rows: seq<seq<real>>, zs: seq<seq<real>>, B: Branches, shift: seq<real>, df: seq<real>)
  {
    && B.Wf() && |rows| == |df| && |zs| == |rows| && |shift| == 2 * B.jmax + 1
    && forall m :: 0 <= m < |rows| ==> |rows[m]| == 2 * B.jmax + 1 && |zs[m]| == 2 * B.jmax + 1
  }

  /** The time loop has completed its first k steps: row 0 is the unit row,
      each step m < k has its drift fitted and row m+1 is the propagation of
      row m, and the rows after k are still zero. */
  predicate BuiltUpTo(rows: seq<seq<real>>, zs: seq<seq<real>>, B: Branches, shift: seq<real>, df: seq<real>, k: nat)
  {
    && Shaped(rows, zs, B, shift, df)
    && k < |rows|
    && rows[0] == UnitRow(B.jmax)
    && (forall m :: 0 <= m < k ==>
          DriftCalibrated(rows[m], zs[m], shift, df[m + 1], B.jmax, Occupied(m, B.jmax)))
    && (forall m :: 0 <= m < k ==> rows[m + 1] == Spread(rows[m], zs[m], B, Occupied(m, B.jmax)))
    && (forall m :: k < m < |rows| ==> rows[m] == Zeros(2 * B.jmax + 1))
  }

  /** A fully built tree: every step of the time loop has been done. */
  predicate Calibrated(rows: seq<seq<real>>, zs: seq<seq<real>>, B: Branches, shift: seq<real>, df: seq<real>)
  {
    |rows| >= 1 && BuiltUpTo(rows, zs, B, shift, df, |rows| - 1)
  }

  predicate Positive(s: seq<real>)
  {
    forall i :: 0 <= i < |s| ==> s[i] > 0.0
  }

  /** Occupancy: Q[m, j] is zero whenever |j| > min(m, jmax). */
  lemma {:induction false} RowOccupancy(rows: seq<seq<real>>, zs: seq<seq<real>>, B: Branches, shift: seq<real>, df: seq<real>, k: nat, m: nat)
    requires BuiltUpTo(rows, zs, B, shift, df, k) && m <= k
    ensures ZeroOutside(rows[m], B.jmax - Occupied(m, B.jmax), B.jmax + Occupied(m, B.jmax) + 1)
  {
    if m > 0 {
      RowOccupancy(rows, zs, B, shift, df, k, m - 1);
      SpreadSupport(rows[m - 1], zs[m - 1], B, Occupied(m - 1, B.jmax));
    }
  }

  /** The calibration condition: the discounted prices of step m sum to
      the market discount factor of step m+1. */
  lemma CalibrationCondition(rows: seq<seq<real>>, zs: seq<seq<real>>, B: Branches, shift: seq<real>, df: seq<real>, k: nat, m: nat)
    requires BuiltUpTo(rows, zs, B, shift, df, k) && m < k
    ensures Dot(rows[m], zs[m], B.jmax - Occupied(m, B.jmax), B.jmax + Occupied(m, B.jmax) + 1) == df[m + 1]
  {
    CalibratedRowSum(rows[m], zs[m], shift, df[m + 1], B.jmax, Occupied(m, B.jmax));
  }

  /** A step whose drift is fitted prices the next step's market discount
      factor exactly. */
  lemma CalibratedRowSum(q: seq<real>, z: seq<real>, shift: seq<real>, dfNext: real, jmax: nat, n: nat)
    requires n <= jmax && |q| == 2 * jmax + 1 && |shift| == |q| && |z| == |q|
    requires DriftCalibrated(q, z, shift, dfNext, jmax, n)
    ensures Dot(q, z, jmax - n, jmax + n + 1) == dfNext
  {
    var s := SumQZ(q, shift, jmax, n);
    var c := dfNext / s;
    DotScaled(q, shift, z, c, jmax - n, jmax + n + 1);
    assert c * s == dfNext;
  }

  /** Conservation and calibration together: row m of Arrow-Debreu prices
      sums to 1 at m = 0 and to the market discount factor df[m] after. */
  lemma RowSum(rows: seq<seq<real>>, zs: seq<seq<real>>, B: Branches, shift: seq<real>, df: seq<real>, k: nat, m: nat)
    requires BuiltUpTo(rows, zs, B, shift, df, k) && m <= k && B.SumsToOne()
    ensures Sum(rows[m]) == if m == 0 then 1.0 else df[m]
  {
    if m == 0 {
      var u := UnitRow(B.jmax);
      SumOfSupported(u, B.jmax, B.jmax + 1);
    } else {
      SpreadConservesMass(rows[m - 1], zs[m - 1], B, Occupied(m - 1, B.jmax));
      CalibrationCondition(rows, zs, B, shift, df, k, m - 1);
    }
  }

  /** At every occupied node the one-step discount factor is positive. */
  lemma DiscountFactorsPositive(rows: seq<seq<real>>, zs: seq<seq<real>>, B: Branches, shift: seq<real>, df: seq<real>, k: nat, m: nat)
    requires BuiltUpTo(rows, zs, B, shift, df, k) && m < k
    requires Positive(shift) && Positive(df)
    ensures forall i :: B.jmax - Occupied(m, B.jmax) <= i <= B.jmax + Occupied(m, B.jmax) ==> zs[m][i] > 0.0
  {
    var n := Occupied(m, B.jmax);
    var s := SumQZ(rows[m], shift, B.jmax, n);
    assert df[m + 1] / s > 0.0;
    forall i | B.jmax - n <= i <= B.jmax + n
      ensures zs[m][i] > 0.0
    {
      assert zs[m][i] == df[m + 1] / s * shift[i];
    }
  }

  /** Q stays non-negative when the branch probabilities are non-negative. */
  lemma {:induction false} RowNonNegative(rows: seq<seq<real>>, zs: seq<seq<real>>, B: Branches, shift: seq<real>, df: seq<real>, k: nat, m: nat)
    requires BuiltUpTo(rows, zs, B, shift, df, k) && m <= k
    requires B.NonNegative() && Positive(shift) && Positive(df)
    ensures NonNegative(rows[m])
  {
    if m > 0 {
      RowNonNegative(rows, zs, B, shift, df, k, m - 1);
      DiscountFactorsPositive(rows, zs, B, shift, df, k, m - 1);
      SpreadNonNegative(rows[m - 1], zs[m - 1], B, Occupied(m - 1, B.jmax));
    }
  }

  /** With non-negative probabilities the logarithm on line 68 is always
      defined: sumQZ > 0 at every step the loop reaches. */
  lemma DriftDefined(rows: seq<seq<real>>, zs: seq<seq<real>>, B: Branches, shift: seq<real>, df: seq<real>, k: nat)
    requires BuiltUpTo(rows, zs, B, shift, df, k) && B.SumsToOne()
    requires Positive(shift) && Positive(df)
    ensures B.NonNegative() ==> SumQZ(rows[k], shift, B.jmax, Occupied(k, B.jmax)) > 0.0
  {
    if B.NonNegative() {
      var n := Occupied(k, B.jmax);
      RowSum(rows, zs, B, shift, df, k, k);
      RowOccupancy(rows, zs, B, shift, df, k, k);
      RowNonNegative(rows, zs, B, shift, df, k, k);
      SumOfSupported(rows[k], B.jmax - n, B.jmax + n + 1);
      DotPositive(rows[k], shift, B.jmax - n, B.jmax + n + 1);
    }
  }

  /** Row m of a two-dimensional array, as a sequence. */
  ghost function Row(A: array2<real>, m: nat): (r: seq<real>)
    requires m < A.Length0
    reads A
    ensures |r| == A.Length1
  {
    seq(A.Length1, c requires 0 <= c < A.Length1 reads A => A[m, c])
  }

  /** All rows of a two-dimensional array. */
  ghost function Rows(A: array2<real>): (r: seq<seq<real>>)
    reads A
    ensures |r| == A.Length0
  {
    seq(A.Length0, m requires 0 <= m < A.Length0 reads A => Row(A, m))
  }

  /** An array that differs from the rows `before` only in row m, which now
      holds `row`. */
  lemma RowsAfterRowUpdate(A: array2<real>, m: nat, row: seq<real>, before: seq<seq<real>>)
    requires m < A.Length0 && |row| == A.Length1 && |before| == A.Length0
    requires forall r :: 0 <= r < |before| ==> |before[r]| == A.Length1
    requires forall c :: 0 <= c < A.Length1 ==> A[m, c] == row[c]
    requires forall r, c :: 0 <= r < A.Length0 && r != m && 0 <= c < A.Length1 ==> A[r, c] == before[r][c]
    ensures Rows(A) == before[m := row]
  {
    assert forall r :: 0 <= r < A.Length0 ==> Rows(A)[r] == before[m := row][r];
  }

  /** The branch probabilities for j = -jmax .. jmax (lines 35-49). */
  method ComputeProbabilities(a: real, dt: real, jmax: nat) returns (pu: array<real>, pm: array<real>, pd: array<real>)
    requires jmax >= 1
    ensures fresh(pu) && fresh(pm) && fresh(pd)
    ensures Branches(jmax, pu[..], pm[..], pd[..]).Wf()
    ensures Branches(jmax, pu[..], pm[..], pd[..]).FromFormulas(a, dt)
  {
    pu := new real[2 * jmax + 1];
    pm := new real[2 * jmax + 1];
    pd := new real[2 * jmax + 1];
    var j := -(jmax as int);
    while j <= jmax
      invariant -(jmax as int) <= j <= jmax + 1
      invariant forall i :: 0 <= i < j + jmax ==> NodeFromFormulas(pu[i], pm[i], pd[i], a, dt, i, jmax)
    {
      var ajdt := a * j as real * dt;
      var jN := j + jmax;
      var k := KindOf(j, jmax);
      pu[jN], pm[jN], pd[jN] := Up(k, ajdt), Mid(k, ajdt), Down(k, ajdt);
      assert NodeFromFormulas(pu[jN], pm[jN], pd[jN], a, dt, jN, jmax);
      j := j + 1;
    }
  }

  /** sumQZ of lines 64-67: row m of Q over offsets lo .. hi-1, weighted. */
  method RowDot(Q: array2<real>, m: nat, w: seq<real>, lo: nat, hi: nat) returns (s: real)
    requires m < Q.Length0 && lo <= hi <= Q.Length1 && hi <= |w|
    ensures s == Dot(Row(Q, m), w, lo, hi)
  {
    s := 0.0;
    var i := lo;
    while i < hi
      invariant lo <= i <= hi
      invariant s == Dot(Row(Q, m), w, lo, i)
    {
      s := s + Q[m, i] * w[i];
      i := i + 1;
    }
  }
  /** Row z after fitting the drift of a step: the occupied offsets get
      growth * shift[i], where growth = exp(-alpha dt) = dfNext / sumQZ. */
  function FittedRow(z: seq<real>, shift: seq<real>, growth: real, jmax: nat, n: nat): (r: seq<real>)
    requires |shift| == |z|
    ensures |r| == |z|
  {
    seq(|z|, c requires 0 <= c < |z| => if jmax - n <= c <= jmax + n then growth * shift[c] else z[c])
  }

  /** Fitting the drift with growth dfNext / sumQZ calibrates the step. */
  lemma FittedRowCalibrated(q: seq<real>, z: seq<real>, shift: seq<real>, dfNext: real, jmax: nat, n: nat, sumQZ: real)
    requires n <= jmax && |q| == 2 * jmax + 1 && |shift| == |q| && |z| == |q|
    requires sumQZ == SumQZ(q, shift, jmax, n) && sumQZ > 0.0
    ensures DriftCalibrated(q, FittedRow(z, shift, dfNext / sumQZ, jmax, n), shift, dfNext, jmax, n)
  {
  }

  /** One more step of the time loop keeps the build consistent. */
  lemma ExtendBuild(rows: seq<seq<real>>, zs: seq<seq<real>>, B: Branches, shift: seq<real>, df: seq<real>, m: nat, z: seq<real>)
    requires BuiltUpTo(rows, zs, B, shift, df, m) && m + 1 < |rows|
    requires |z| == 2 * B.jmax + 1
    requires DriftCalibrated(rows[m], z, shift, df[m + 1], B.jmax, Occupied(m, B.jmax))
    ensures BuiltUpTo(rows[m + 1 := Spread(rows[m], z, B, Occupied(m, B.jmax))], zs[m := z], B, shift, df, m + 1)
  {
  }

  /** `A[r, c] += d`, with row r mirrored by a ghost sequence. */
  method AddToCell(A: array2<real>, r: nat, c: nat, d: real, ghost cur: seq<real>) returns (ghost next: seq<real>)
    requires r < A.Length0 && c < A.Length1 && |cur| == A.Length1
    requires forall k :: 0 <= k < A.Length1 ==> A[r, k] == cur[k]
    modifies A
    ensures next == AddAt(cur, c, d)
    ensures forall k :: 0 <= k < A.Length1 ==> A[r, k] == next[k]
    ensures forall s, k :: 0 <= s < A.Length0 && s != r && 0 <= k < A.Length1 ==> A[s, k] == old(A[s, k])
  {
    A[r, c] := A[r, c] + d;
    next := AddAt(cur, c, d);
  }

  /** Lines 70-72 and 77-78: the rates of step m, kept as their one-step
      discount factors exp(-r[m,j] dt) = (dfNext / sumQZ) * shift[j]. */
  method SetDiscountRow(disc: array2<real>, m: nat, shift: seq<real>, dfNext: real, sumQZ: real, jmax: nat, n: nat)
    requires m < disc.Length0 && disc.Length1 == 2 * jmax + 1 && |shift| == disc.Length1 && n <= jmax
    requires sumQZ > 0.0
    modifies disc
    ensures Rows(disc) == old(Rows(disc))[m := FittedRow(old(Row(disc, m)), shift, dfNext / sumQZ, jmax, n)]
  {
    ghost var z0 := Row(disc, m);
    var j := -(n as int);
    while j <= n
      invariant -(n as int) <= j <= n + 1
      invariant forall c :: 0 <= c < disc.Length1 ==>
        disc[m, c] == if jmax - n <= c < j + jmax then dfNext / sumQZ * shift[c] else z0[c]
      invariant forall r, c :: 0 <= r < disc.Length0 && r != m && 0 <= c < disc.Length1 ==> disc[r, c] == old(disc[r, c])
    {
      var jN := j + jmax;
      disc[m, jN] := dfNext / sumQZ * shift[jN];
      j := j + 1;
    }
    forall r | 0 <= r < disc.Length0 && r != m
      ensures Row(disc, r) == old(Row(disc, r))
    {
      assert forall c :: 0 <= c < disc.Length1 ==> Row(disc, r)[c] == old(Row(disc, r))[c];
    }
    assert forall c :: 0 <= c < disc.Length1 ==> Row(disc, m)[c] == FittedRow(z0, shift, dfNext / sumQZ, jmax, n)[c];
    assert forall r :: 0 <= r < disc.Length0 ==> Rows(disc)[r] == old(Rows(disc))[m := FittedRow(z0, shift, dfNext / sumQZ, jmax, n)][r];
  }

  /** Lines 79-91 for one node jN of step m: its price, discounted by the
      node's factor, is split over its three successors in row t = m+1. */
  method PushNode(Q: array2<real>, disc: array2<real>, pu: array<real>, pm: array<real>, pd: array<real>,
                  jmax: nat, m: nat, jN: nat, ghost q: seq<real>, ghost z: seq<real>, ghost cur: seq<real>)
    returns (ghost next: seq<real>)
    requires jmax >= 1 && jN < 2 * jmax + 1 && m + 1 < Q.Length0 && Q.Length1 == 2 * jmax + 1
    requires disc.Length0 == Q.Length0 && disc.Length1 == Q.Length1 && Q != disc
    requires pu.Length == Q.Length1 && pm.Length == Q.Length1 && pd.Length == Q.Length1
    requires |q| == Q.Length1 && |z| == Q.Length1 && |cur| == Q.Length1
    requires Q[m, jN] == q[jN] && disc[m, jN] == z[jN]
    requires forall c :: 0 <= c < Q.Length1 ==> Q[m + 1, c] == cur[c]
    modifies Q
    ensures next == AddNode(cur, q, z, Branches(jmax, pu[..], pm[..], pd[..]), jN)
    ensures forall c :: 0 <= c < Q.Length1 ==> Q[m + 1, c] == next[c]
    ensures forall r, c :: 0 <= r < Q.Length0 && r != m + 1 && 0 <= c < Q.Length1 ==> Q[r, c] == old(Q[r, c])
  {
    var t := m + 1;
    var qj := Q[m, jN];
    var zj := disc[m, jN];
    var j := jN - jmax;
    if j == jmax {
      next := AddToCell(Q, t, jN, Share(qj, pu[jN], zj), cur);
      next := AddToCell(Q, t, jN - 1, Share(qj, pm[jN], zj), next);
      next := AddToCell(Q, t, jN - 2, Share(qj, pd[jN], zj), next);
    } else if j == -(jmax as int) {
      next := AddToCell(Q, t, jN, Share(qj, pd[jN], zj), cur);
      next := AddToCell(Q, t, jN + 1, Share(qj, pm[jN], zj), next);
      next := AddToCell(Q, t, jN + 2, Share(qj, pu[jN], zj), next);
    } else {
      next := AddToCell(Q, t, jN + 1, Share(qj, pu[jN], zj), cur);
      next := AddToCell(Q, t, jN, Share(qj, pm[jN], zj), next);
      next := AddToCell(Q, t, jN - 1, Share(qj, pd[jN], zj), next);
    }
  }

  /** Lines 74-91: push the prices of step m into step m+1 with `+=`. */
  method Propagate(Q: array2<real>, disc: array2<real>, pu: array<real>, pm: array<real>, pd: array<real>,
                   jmax: nat, m: nat, n: nat, ghost q: seq<real>, ghost z: seq<real>)
    requires jmax >= 1 && n <= jmax && m + 1 < Q.Length0 && Q.Length1 == 2 * jmax + 1
    requires disc.Length0 == Q.Length0 && disc.Length1 == Q.Length1 && Q != disc
    requires pu.Length == Q.Length1 && pm.Length == Q.Length1 && pd.Length == Q.Length1
    requires Row(Q, m) == q && Row(disc, m) == z && Row(Q, m + 1) == Zeros(Q.Length1)
    modifies Q
    ensures Rows(Q) == old(Rows(Q))[m + 1 := Spread(q, z, Branches(jmax, pu[..], pm[..], pd[..]), n)]
  {
    ghost var B := Branches(jmax, pu[..], pm[..], pd[..]);
    ghost var cur := Zeros(|q|);
    ghost var before := Rows(Q);
    ghost var t := m + 1;
    assert forall c :: 0 <= c < Q.Length1 ==> Row(Q, t)[c] == 0.0;
    var j := -(n as int);
    while j <= n
      invariant -(n as int) <= j <= n + 1
      invariant cur == Scatter(Zeros(|q|), q, z, B, jmax - n, j + jmax)
      invariant forall c :: 0 <= c < Q.Length1 ==> Q[m + 1, c] == cur[c]
      invariant forall r, c :: 0 <= r < Q.Length0 && r != m + 1 && 0 <= c < Q.Length1 ==> Q[r, c] == old(Q[r, c])
    {
      var jN := j + jmax;
      assert Q[m, jN] == q[jN] by { assert Q[m, jN] == old(Row(Q, m))[jN]; }
      assert disc[m, jN] == z[jN] by { assert disc[m, jN] == Row(disc, m)[jN]; }
      cur := PushNode(Q, disc, pu, pm, pd, jmax, m, jN, q, z, cur);
      j := j + 1;
    }
    assert forall r, c :: 0 <= r < Q.Length0 && r != m + 1 && 0 <= c < Q.Length1 ==> Q[r, c] == before[r][c];
    RowsAfterRowUpdate(Q, m + 1, cur, before);
  }

  /** Lines 54-58: Q and the rate grid, with Q[0, 0] = 1. Rates start at
      zero, so their one-step discount factors start at one. */
  method NewLattice(rows: nat, jmax: nat) returns (Q: array2<real>, disc: array2<real>)
    requires rows >= 1
    ensures fresh(Q) && fresh(disc) && Q != disc
    ensures Q.Length0 == rows && Q.Length1 == 2 * jmax + 1
    ensures disc.Length0 == rows && disc.Length1 == 2 * jmax + 1
    ensures Rows(Q) == [UnitRow(jmax)] + seq(rows - 1, _ => Zeros(2 * jmax + 1))
    ensures Rows(disc) == seq(rows, _ => seq(2 * jmax + 1, _ => 1.0))
  {
    var width := 2 * jmax + 1;
    Q := new real[rows, width]((_, _) => 0.0);
    disc := new real[rows, width]((_, _) => 1.0);
    Q[0, jmax] := 1.0;
    ghost var q0 := [UnitRow(jmax)] + seq(rows - 1, _ => Zeros(width));
    forall r | 0 <= r < rows
      ensures Row(Q, r) == q0[r]
    {
      assert forall c :: 0 <= c < width ==> Row(Q, r)[c] == q0[r][c];
    }
    forall r | 0 <= r < rows
      ensures Row(disc, r) == seq(width, _ => 1.0)
    {
      assert forall c :: 0 <= c < width ==> Row(disc, r)[c] == 1.0;
    }
  }

  /** Lines 70-91 for step m once sumQZ is known to be positive: set the
      rates of step m, then propagate its prices into the zero row m+1.
      The arrays start out holding the rows `rows` and `zs`. */
  method FitAndPropagate(Q: array2<real>, disc: array2<real>, pu: array<real>, pm: array<real>, pd: array<real>,
                         jmax: nat, m: nat, n: nat, shift: seq<real>, dfNext: real, sumQZ: real,
                         ghost rows: seq<seq<real>>, ghost zs: seq<seq<real>>, ghost B: Branches)
    requires B == Branches(jmax, pu[..], pm[..], pd[..]) && B.Wf() && n <= jmax
    requires m + 1 < Q.Length0 && Q.Length1 == 2 * jmax + 1
    requires disc.Length0 == Q.Length0 && disc.Length1 == Q.Length1 && Q != disc
    requires rows == Rows(Q) && zs == Rows(disc) && rows[m + 1] == Zeros(Q.Length1)
    requires |shift| == Q.Length1 && sumQZ > 0.0
    modifies Q, disc
    ensures Rows(disc) == zs[m := FittedRow(zs[m], shift, dfNext / sumQZ, jmax, n)]
    ensures Rows(Q) == rows[m + 1 := Spread(rows[m], FittedRow(zs[m], shift, dfNext / sumQZ, jmax, n), B, n)]
  {
    assert Row(disc, m) == zs[m] && Row(Q, m) == rows[m] && Row(Q, m + 1) == rows[m + 1];
    SetDiscountRow(disc, m, shift, dfNext, sumQZ, jmax, n);
    ghost var z := FittedRow(zs[m], shift, dfNext / sumQZ, jmax, n);
    assert Row(disc, m) == Rows(disc)[m] == z;
    Propagate(Q, disc, pu, pm, pd, jmax, m, n, rows[m], z);
  }

  /** Lines 61-91 for one step m: fit the drift, set the rates, propagate.
      Fails, changing nothing that is checked afterwards, exactly when
      sumQZ <= 0, which non-negative probabilities rule out. */
  method CalibrateStep(Q: array2<real>, disc: array2<real>, pu: array<real>, pm: array<real>, pd: array<real>,
                       jmax: nat, m: nat, shift: seq<real>, df: seq<real>, ghost B: Branches)
    returns (ok: bool)
    requires B == Branches(jmax, pu[..], pm[..], pd[..]) && B.Wf() && B.SumsToOne()
    requires BuiltUpTo(Rows(Q), Rows(disc), B, shift, df, m) && m + 1 < Q.Length0
    requires disc.Length0 == Q.Length0 && disc.Length1 == Q.Length1 && Q.Length1 == 2 * B.jmax + 1 && Q != disc
    requires Positive(shift) && Positive(df)
    modifies Q, disc
    ensures ok ==> BuiltUpTo(Rows(Q), Rows(disc), B, shift, df, m + 1)
    ensures B.NonNegative() ==> ok
  {
    var n := Occupied(m, jmax);
    ghost var rows, zs := Rows(Q), Rows(disc);
    var sumQZ := RowDot(Q, m, shift, jmax - n, jmax + n + 1);
    if sumQZ <= 0.0 {
      DriftDefined(rows, zs, B, shift, df, m);
      return false;
    }
    assert Row(Q, m) == rows[m];
    FittedRowCalibrated(rows[m], zs[m], shift, df[m + 1], jmax, n, sumQZ);
    ExtendBuild(rows, zs, B, shift, df, m, FittedRow(zs[m], shift, df[m + 1] / sumQZ, jmax, n));
    FitAndPropagate(Q, disc, pu, pm, pd, jmax, m, n, shift, df[m + 1], sumQZ, rows, zs, B);
    return true;
  }

  /** The time loop of lines 61-91 over every step of the lattice. */
  method Calibrate(Q: array2<real>, disc: array2<real>, pu: array<real>, pm: array<real>, pd: array<real>,
                   jmax: nat, shift: seq<real>, df: seq<real>, ghost B: Branches)
    returns (ok: bool)
    requires B == Branches(jmax, pu[..], pm[..], pd[..]) && B.Wf() && B.SumsToOne()
    requires BuiltUpTo(Rows(Q), Rows(disc), B, shift, df, 0)
    requires disc.Length0 == Q.Length0 && disc.Length1 == Q.Length1 && Q.Length1 == 2 * jmax + 1 && Q != disc
    requires Positive(shift) && Positive(df)
    modifies Q, disc
    ensures ok ==> Calibrated(Rows(Q), Rows(disc), B, shift, df)
    ensures B.NonNegative() ==> ok
  {
    ok := true;
    var m := 0;
    while m + 1 < Q.Length0
      invariant m < Q.Length0
      invariant BuiltUpTo(Rows(Q), Rows(disc), B, shift, df, m)
      invariant ok
    {
      ok := CalibrateStep(Q, disc, pu, pm, pd, jmax, m, shift, df, B);
      if !ok {
        return;
      }
      m := m + 1;
    }
  }

  /** buildTreeFast (lines 14-93). Fails only where the source would take
      the logarithm of a non-positive sumQZ. */
  method BuildTreeFast(a: real, treeMaturity: real, numTimeSteps: nat, shift: seq<real>, df: seq<real>)
    returns (ok: bool, Q: array2<real>, pu: array<real>, pm: array<real>, pd: array<real>,
             disc: array2<real>, dt: real, jmax: nat)
    requires a > 0.0 && treeMaturity > 0.0
    requires |df| == numTimeSteps + 2 && Positive(df)
    requires |shift| == 2 * Jmax(a, treeMaturity / (numTimeSteps + 1) as real) + 1 && Positive(shift)
    ensures dt == treeMaturity / (numTimeSteps + 1) as real && dt > 0.0 && jmax == Jmax(a, dt)
    ensures fresh(Q) && fresh(disc) && fresh(pu) && fresh(pm) && fresh(pd) && Q != disc
    ensures Q.Length0 == numTimeSteps + 2 && Q.Length1 == 2 * jmax + 1
    ensures disc.Length0 == Q.Length0 && disc.Length1 == Q.Length1
    ensures Branches(jmax, pu[..], pm[..], pd[..]).Wf()
    ensures Branches(jmax, pu[..], pm[..], pd[..]).FromFormulas(a, dt)
    ensures ok ==> Calibrated(Rows(Q), Rows(disc), Branches(jmax, pu[..], pm[..], pd[..]), shift, df)
    ensures Branches(jmax, pu[..], pm[..], pd[..]).NonNegative() ==> ok
  {
    dt := treeMaturity / (numTimeSteps + 1) as real;
    jmax := Jmax(a, dt);
    pu, pm, pd := ComputeProbabilities(a, dt, jmax);
    ghost var B := Branches(jmax, pu[..], pm[..], pd[..]);
    FormulaBranchesSumToOne(B, a, dt);
    Q, disc := NewLattice(numTimeSteps + 2, jmax);
    ok := Calibrate(Q, disc, pu, pm, pd, jmax, shift, df, B);
  }
}
