/** Backward induction on the calibrated tree (bondOption, lines 389-454):
    bond and option values are rolled back from the expiry step to the
    root, with an optional early-exercise comparison at every node. */
module Backward {

  import opened Sums
  import opened Branching
  import opened Propagation
  import opened Lattice

  /** Discounted expectation over the three successors of offset i: the
      same successors the node feeds when Q is propagated, so the bottom
      node reads j, j+1 and j+2. */
  function RollBack(next: seq<real>, z: seq<real>, B: Branches, i: nat): real
    requires B.Wf() && |next| == 2 * B.jmax + 1 && |z| == |next| && i < |next|
  {
    var k := KindOf(i - B.jmax, B.jmax);
    Expect(B.pu[i], B.pm[i], B.pd[i], next[i + UpMove(k)], next[i + MidMove(k)], next[i + DownMove(k)], z[i])
  }

  /** (pu*vu + pm*vm + pd*vd) * z: the discounted expectation of a node. */
  function Expect(pu: real, pm: real, pd: real, vu: real, vm: real, vd: real, z: real): real
  {
    (pu * vu + pm * vm + pd * vd) * z
  }

  /** The branch test of lines 410-427 as written: its second test repeats
      k == jmax, so the bottom node takes the interior branch, and its
      down successor kN-1 = -1 is read, like a numpy index, from the end. */
  function RollBackAsWritten(next: seq<real>, z: seq<real>, B: Branches, i: nat): real
    requires B.Wf() && |next| == 2 * B.jmax + 1 && |z| == |next| && i < |next|
  {
    var j := i - B.jmax;
    var vu := if j == B.jmax then next[i] else next[i + 1];
    var vm := if j == B.jmax then next[i - 1] else next[i];
    var vd := if j == B.jmax then next[i - 2] else if i == 0 then next[|next| - 1] else next[i - 1];
    Expect(B.pu[i], B.pm[i], B.pd[i], vu, vm, vd, z[i])
  }

  /** With a*dt = 0.2 (so jmax = 1) and a unit value at the bottom node
      only, the bottom node as written rolls back pm = 2/75 instead of its
      staying probability pd = 133/150. */
  lemma BottomEdgeAsWrittenDiffers()
    ensures var B := Branches(1, [Up(Bottom, -0.2), Up(Interior, 0.0), Up(Top, 0.2)],
                                 [Mid(Bottom, -0.2), Mid(Interior, 0.0), Mid(Top, 0.2)],
                                 [Down(Bottom, -0.2), Down(Interior, 0.0), Down(Top, 0.2)]);
      && Jmax(1.0, 0.2) == 1
      && B.FromFormulas(1.0, 0.2)
      && RollBack([1.0, 0.0, 0.0], [1.0, 1.0, 1.0], B, 0) == 133.0 / 150.0
      && RollBackAsWritten([1.0, 0.0, 0.0], [1.0, 1.0, 1.0], B, 0) == 2.0 / 75.0
  {
    var B := Branches(1, [Up(Bottom, -0.2), Up(Interior, 0.0), Up(Top, 0.2)],
                         [Mid(Bottom, -0.2), Mid(Interior, 0.0), Mid(Top, 0.2)],
                         [Down(Bottom, -0.2), Down(Interior, 0.0), Down(Top, 0.2)]);
    assert KindOf(0 - 1, 1) == Bottom;
    forall i | 0 <= i < 3
      ensures B.pu[i] == Up(KindOf(i - 1, 1), 1.0 * (i - 1) as real * 0.2)
      ensures B.pm[i] == Mid(KindOf(i - 1, 1), 1.0 * (i - 1) as real * 0.2)
      ensures B.pd[i] == Down(KindOf(i - 1, 1), 1.0 * (i - 1) as real * 0.2)
    {
    }
  }

  /** The exercise value of the option at a node: the clean price above the
      strike, floored at zero (lines 394-395, 451-452). */
  function Exercise(bondValue: real, accrued: real, strike: real): real
  {
    Max(bondValue - accrued - strike, 0.0)
  }

  predicate IsOccupied(i: nat, jmax: nat, n: nat)
  {
    jmax - n <= i <= jmax + n
  }

  /** Everything the backward induction reads: the branch probabilities,
      the one-step discount factors disc[m] = exp(-rt[m] dt), the snapped
      coupon flows and accrued interest per step, face, strike, the expiry
      step and the bond values seeded there. */
  datatype Induction = Induction(B: Branches, disc: seq<seq<real>>, flows: seq<real>, accrued: seq<real>,
                                 face: real, strike: real, e: nat, seed: seq<real>)
  {
    predicate Wf()
    {
      && B.Wf() && e < |disc| && e < |flows| && e < |accrued| && |seed| == 2 * B.jmax + 1
      && forall m :: 0 <= m <= e ==> |disc[m]| == 2 * B.jmax + 1
    }

    /** The cash paid at step m: the snapped flow times face. */
    function FlowAt(m: nat): real
      requires m < |flows|
    {
      flows[m] * face
    }
  }

  /** Bond values of one step from those of the next (lines 402-429). */
  function BondStep(next: seq<real>, z: seq<real>, B: Branches, n: nat, flow: real): (r: seq<real>)
    requires B.Wf() && |next| == 2 * B.jmax + 1 && |z| == |next|
    ensures |r| == |next|
  {
    seq(|next|, i requires 0 <= i < |next| =>
      if IsOccupied(i, B.jmax, n) then RollBack(next, z, B, i) + flow else 0.0)
  }

  /** Option values of one step from those of the next (lines 431-454). */
  function OptionStep(next: seq<real>, bond: seq<real>, z: seq<real>, B: Branches, n: nat,
                      accrued: real, strike: real, american: bool): (r: seq<real>)
    requires B.Wf() && |next| == 2 * B.jmax + 1 && |z| == |next| && |bond| == |next|
    ensures |r| == |next|
  {
    seq(|next|, i requires 0 <= i < |next| =>
      if IsOccupied(i, B.jmax, n) then OptionNode(next, bond[i], z, B, i, accrued, strike, american) else 0.0)
  }

  /** The option value of an occupied node whose bond is worth bondValue:
      the roll-back, and with early exercise the larger of it and the
      exercise value. */
  function OptionNode(next: seq<real>, bondValue: real, z: seq<real>, B: Branches, i: nat,
                      accrued: real, strike: real, american: bool): real
    requires B.Wf() && |next| == 2 * B.jmax + 1 && |z| == |next| && i < |next|
  {
    if american then Max(Exercise(bondValue, accrued, strike), RollBack(next, z, B, i)) else RollBack(next, z, B, i)
  }

  /** Option values at expiry (lines 391-395). */
  function ExpiryOption(S: Induction): (r: seq<real>)
    requires S.Wf()
    ensures |r| == 2 * S.B.jmax + 1
  {
    ExerciseRow(S.seed, S.accrued[S.e], S.strike, S.B.jmax, Occupied(S.e, S.B.jmax))
  }

  /** The exercise values of the occupied nodes of a step whose bond values
      are `bond`; zero elsewhere. */
  function ExerciseRow(bond: seq<real>, accrued: real, strike: real, jmax: nat, n: nat): (r: seq<real>)
    requires |bond| == 2 * jmax + 1
    ensures |r| == |bond|
  {
    seq(|bond|, i requires 0 <= i < |bond| => if IsOccupied(i, jmax, n) then Exercise(bond[i], accrued, strike) else 0.0)
  }

  /** bondValues[m] for m <= e. */
  function BondValues(S: Induction, m: nat): (r: seq<real>)
    requires S.Wf() && m <= S.e
    ensures |r| == 2 * S.B.jmax + 1
    decreases S.e - m
  {
    if m == S.e then S.seed
    else BondStep(BondValues(S, m + 1), S.disc[m], S.B, Occupied(m, S.B.jmax), S.FlowAt(m))
  }

  /** optionValues[m] for m <= e, with or without early exercise. */
  function OptionValues(S: Induction, american: bool, m: nat): (r: seq<real>)
    requires S.Wf() && m <= S.e
    ensures |r| == 2 * S.B.jmax + 1
    decreases S.e - m
  {
    if m == S.e then ExpiryOption(S)
    else OptionStep(OptionValues(S, american, m + 1), BondValues(S, m), S.disc[m], S.B,
                    Occupied(m, S.B.jmax), S.accrued[m], S.strike, american)
  }

  /** The discount factors of the occupied nodes of a step are not negative. */
  predicate OccupiedNonNegative(z: seq<real>, jmax: nat, n: nat)
  {
    forall i :: 0 <= i < |z| && IsOccupied(i, jmax, n) ==> z[i] >= 0.0
  }

  /** Every step the roll-back passes over has non-negative discount
      factors at its occupied nodes. */
  predicate DiscountsNonNegative(S: Induction)
    requires S.Wf()
  {
    forall m :: 0 <= m < S.e ==> OccupiedNonNegative(S.disc[m], S.B.jmax, Occupied(m, S.B.jmax))
  }

  /** The rolled-back value is monotone in the values of the next step. */
  lemma RollBackMonotone(next: seq<real>, lower: seq<real>, z: seq<real>, B: Branches, i: nat)
    requires B.Wf() && |next| == 2 * B.jmax + 1 && |z| == |next| && |lower| == |next| && i < |next|
    requires B.NonNegative() && z[i] >= 0.0
    requires forall c :: 0 <= c < |next| ==> lower[c] <= next[c]
    ensures RollBack(lower, z, B, i) <= RollBack(next, z, B, i)
  {
    var k := KindOf(i - B.jmax, B.jmax);
    var u, m, d := i + UpMove(k), i + MidMove(k), i + DownMove(k);
    MulNonNegative(B.pu[i], next[u] - lower[u]);
    MulNonNegative(B.pm[i], next[m] - lower[m]);
    MulNonNegative(B.pd[i], next[d] - lower[d]);
    var gap := B.pu[i] * (next[u] - lower[u]) + B.pm[i] * (next[m] - lower[m]) + B.pd[i] * (next[d] - lower[d]);
    MulNonNegative(gap, z[i]);
    assert Expect(B.pu[i], B.pm[i], B.pd[i], next[u], next[m], next[d], z[i])
         - Expect(B.pu[i], B.pm[i], B.pd[i], lower[u], lower[m], lower[d], z[i]) == gap * z[i];
  }

  /** One option step keeps values non-negative. */
  lemma OptionStepNonNegative(next: seq<real>, bond: seq<real>, z: seq<real>, B: Branches, n: nat,
                              accrued: real, strike: real, american: bool)
    requires B.Wf() && |next| == 2 * B.jmax + 1 && |z| == |next| && |bond| == |next|
    requires B.NonNegative() && OccupiedNonNegative(z, B.jmax, n) && NonNegative(next)
    ensures NonNegative(OptionStep(next, bond, z, B, n, accrued, strike, american))
  {
    var zero := Zeros(|next|);
    forall i | 0 <= i < |next| && IsOccupied(i, B.jmax, n)
      ensures RollBack(next, z, B, i) >= 0.0
    {
      RollBackMonotone(next, zero, z, B, i);
    }
  }

  /** Option values are never negative (non-negative probabilities and
      discount factors). */
  lemma {:induction false} OptionValuesNonNegative(S: Induction, american: bool, m: nat)
    requires S.Wf() && m <= S.e && S.B.NonNegative() && DiscountsNonNegative(S)
    ensures NonNegative(OptionValues(S, american, m))
    decreases S.e - m
  {
    if m == S.e {
      ExpiryOptionNonNegative(S, american);
    } else {
      OptionValuesNonNegative(S, american, m + 1);
      OptionValuesStepNonNegative(S, american, m);
    }
  }

  lemma OptionValuesStepNonNegative(S: Induction, american: bool, m: nat)
    requires S.Wf() && m < S.e && S.B.NonNegative() && DiscountsNonNegative(S)
    requires NonNegative(OptionValues(S, american, m + 1))
    ensures NonNegative(OptionValues(S, american, m))
  {
    UnfoldOptionValues(S, american, m);
    OptionStepNonNegative(OptionValues(S, american, m + 1), BondValues(S, m), S.disc[m], S.B,
                          Occupied(m, S.B.jmax), S.accrued[m], S.strike, american);
  }

  lemma ExpiryOptionNonNegative(S: Induction, american: bool)
    requires S.Wf()
    ensures NonNegative(OptionValues(S, american, S.e))
  {
  }

  /** With early exercise every occupied node is worth at least both its
      hold value and its exercise value (line 454). */
  lemma AmericanDominatesHoldAndExercise(S: Induction, m: nat, i: nat)
    requires S.Wf() && m < S.e && i < 2 * S.B.jmax + 1 && IsOccupied(i, S.B.jmax, Occupied(m, S.B.jmax))
    ensures OptionValues(S, true, m)[i] >= RollBack(OptionValues(S, true, m + 1), S.disc[m], S.B, i)
    ensures OptionValues(S, true, m)[i] >= Exercise(BondValues(S, m)[i], S.accrued[m], S.strike)
  {
  }

  /** An American step from higher values dominates a European step from
      lower ones. */
  lemma OptionStepDominates(lower: seq<real>, upper: seq<real>, bond: seq<real>, z: seq<real>, B: Branches, n: nat,
                            accrued: real, strike: real)
    requires B.Wf() && |lower| == 2 * B.jmax + 1 && |upper| == |lower| && |z| == |lower| && |bond| == |lower|
    requires B.NonNegative() && OccupiedNonNegative(z, B.jmax, n)
    requires forall c :: 0 <= c < |lower| ==> lower[c] <= upper[c]
    ensures forall i :: 0 <= i < |lower| ==>
              OptionStep(lower, bond, z, B, n, accrued, strike, false)[i] <= OptionStep(upper, bond, z, B, n, accrued, strike, true)[i]
  {
    forall i | 0 <= i < |lower| && IsOccupied(i, B.jmax, n)
      ensures RollBack(lower, z, B, i) <= RollBack(upper, z, B, i)
    {
      RollBackMonotone(upper, lower, z, B, i);
    }
  }

  /** The European and the American option value of node i at step m. */
  function EuropeanAt(S: Induction, m: nat, i: nat): real
    requires S.Wf() && m <= S.e && i < 2 * S.B.jmax + 1
  {
    OptionValues(S, false, m)[i]
  }

  function AmericanAt(S: Induction, m: nat, i: nat): real
    requires S.Wf() && m <= S.e && i < 2 * S.B.jmax + 1
  {
    OptionValues(S, true, m)[i]
  }

  /** At step m every node's American value is at least its European one. */
  predicate AmericanDominates(S: Induction, m: nat)
    requires S.Wf() && m <= S.e
  {
    forall i {:trigger EuropeanAt(S, m, i)} :: 0 <= i < 2 * S.B.jmax + 1 ==> EuropeanAt(S, m, i) <= AmericanAt(S, m, i)
  }

  /** At expiry both are the exercise value. */
  lemma AmericanDominatesAtExpiry(S: Induction)
    requires S.Wf()
    ensures AmericanDominates(S, S.e)
  {
  }

  /** One backward step keeps the American values above the European ones. */
  lemma AmericanStep(S: Induction, m: nat)
    requires S.Wf() && m < S.e && S.B.NonNegative() && DiscountsNonNegative(S) && AmericanDominates(S, m + 1)
    ensures AmericanDominates(S, m)
  {
    var lower, upper := OptionValues(S, false, m + 1), OptionValues(S, true, m + 1);
    forall c | 0 <= c < |lower|
      ensures lower[c] <= upper[c]
    {
      assert EuropeanAt(S, m + 1, c) <= AmericanAt(S, m + 1, c);
    }
    UnfoldOptionValues(S, false, m);
    UnfoldOptionValues(S, true, m);
    assert OccupiedNonNegative(S.disc[m], S.B.jmax, Occupied(m, S.B.jmax));
    OptionStepDominates(lower, upper, BondValues(S, m), S.disc[m], S.B, Occupied(m, S.B.jmax), S.accrued[m], S.strike);
  }

  /** Early exercise never lowers a node's value: induction from expiry. */
  lemma {:induction false} AmericanDominatesFrom(S: Induction, m: nat)
    requires S.Wf() && m <= S.e && S.B.NonNegative() && DiscountsNonNegative(S)
    ensures AmericanDominates(S, m)
    decreases S.e - m
  {
    if m < S.e {
      AmericanDominatesFrom(S, m + 1);
      AmericanStep(S, m);
    } else {
      AmericanDominatesAtExpiry(S);
    }
  }

  /** Early exercise never lowers a node's value. */
  lemma AmericanAtLeastEuropean(S: Induction, m: nat)
    requires S.Wf() && m <= S.e && S.B.NonNegative() && DiscountsNonNegative(S)
    ensures forall i :: 0 <= i < 2 * S.B.jmax + 1 ==> OptionValues(S, false, m)[i] <= OptionValues(S, true, m)[i]
  {
    AmericanDominatesFrom(S, m);
    forall i | 0 <= i < 2 * S.B.jmax + 1
      ensures OptionValues(S, false, m)[i] <= OptionValues(S, true, m)[i]
    {
      assert EuropeanAt(S, m, i) <= AmericanAt(S, m, i);
    }
  }

  /** Three in-place additions change a weighted sum by the added amounts
      times their weights. */
  lemma ThreeAddsPairing(row: seq<real>, v: seq<real>, x1: nat, d1: real, x2: nat, d2: real, x3: nat, d3: real)
    requires |v| == |row| && x1 < |row| && x2 < |row| && x3 < |row|
    ensures Dot(AddAt(AddAt(AddAt(row, x1, d1), x2, d2), x3, d3), v, 0, |v|)
            == Dot(row, v, 0, |v|) + d1 * v[x1] + d2 * v[x2] + d3 * v[x3]
  {
    var r1 := AddAt(row, x1, d1);
    var r2 := AddAt(r1, x2, d2);
    DotAddAt(row, v, x1, d1, 0, |v|);
    DotAddAt(r1, v, x2, d2, 0, |v|);
    DotAddAt(r2, v, x3, d3, 0, |v|);
  }

  /** The three shares of a node, weighted by the values they reach, add
      up to the node's price times its discounted expectation e. */
  lemma ExpectShares(qi: real, pu: real, pm: real, pd: real, vu: real, vm: real, vd: real, zi: real,
                     su: real, sm: real, sd: real, e: real)
    requires su == Share(qi, pu, zi) && sm == Share(qi, pm, zi) && sd == Share(qi, pd, zi)
    requires e == Expect(pu, pm, pd, vu, vm, vd, zi)
    ensures su * vu + sm * vm + sd * vd == qi * e
  {
  }

  /** A node's three contributions, the same for every row it is added
      to, weighted by the values they reach, add up to the node's price
      times its roll-back r of v. */
  lemma NodeContributions(q: seq<real>, z: seq<real>, B: Branches, i: nat, v: seq<real>, r: real)
    returns (x1: nat, s1: real, x2: nat, s2: real, x3: nat, s3: real)
    requires B.Wf() && |q| == 2 * B.jmax + 1 && |z| == |q| && |v| == |q| && i < |q|
    requires r == RollBack(v, z, B, i)
    ensures x1 < |q| && x2 < |q| && x3 < |q|
    ensures forall row {:trigger AddNode(row, q, z, B, i)} :: |row| == |q| ==>
              AddNode(row, q, z, B, i) == AddAt(AddAt(AddAt(row, x1, s1), x2, s2), x3, s3)
    ensures s1 * v[x1] + s2 * v[x2] + s3 * v[x3] == q[i] * r
  {
    var k := KindOf(i - B.jmax, B.jmax);
    var u, m, d := i + UpMove(k), i + MidMove(k), i + DownMove(k);
    var su, sm, sd := Share(q[i], B.pu[i], z[i]), Share(q[i], B.pm[i], z[i]), Share(q[i], B.pd[i], z[i]);
    if k == Bottom {
      x1, s1, x2, s2, x3, s3 := d, sd, m, sm, u, su;
    } else {
      x1, s1, x2, s2, x3, s3 := u, su, m, sm, d, sd;
    }
    ExpectShares(q[i], B.pu[i], B.pm[i], B.pd[i], v[u], v[m], v[d], z[i], su, sm, sd, r);
  }

  /** The European roll-back of a whole step: occupied nodes take the
      discounted expectation of v, the others stay zero. */
  function RollBackRow(v: seq<real>, z: seq<real>, B: Branches, n: nat): (r: seq<real>)
    requires B.Wf() && |v| == 2 * B.jmax + 1 && |z| == |v|
    ensures |r| == |v| && ZeroOutside(r, B.jmax - n, B.jmax + n + 1)
  {
    seq(|v|, i requires 0 <= i < |v| => if IsOccupied(i, B.jmax, n) then RollBack(v, z, B, i) else 0.0)
  }

  /** Pushing node i forward into any row raises that row's price of v by
      q[i] * w[i]. */
  ghost predicate NodePairs(q: seq<real>, z: seq<real>, B: Branches, v: seq<real>, w: seq<real>, i: nat)
    requires B.Wf() && |q| == 2 * B.jmax + 1 && |z| == |q| && |v| == |q| && |w| == |q| && i < |q|
  {
    forall row {:trigger AddNode(row, q, z, B, i)} :: |row| == |q| ==>
      Dot(AddNode(row, q, z, B, i), v, 0, |row|) == Dot(row, v, 0, |row|) + q[i] * w[i]
  }

  /** Forward propagation of one node and backward roll-back are adjoint:
      pushing node i forward into any row raises that row's price of v by
      q[i] times the node's roll-back r of v. */
  lemma RollBackPairs(q: seq<real>, z: seq<real>, B: Branches, v: seq<real>, w: seq<real>, i: nat, r: real)
    requires B.Wf() && |q| == 2 * B.jmax + 1 && |z| == |q| && |v| == |q| && |w| == |q| && i < |q|
    requires r == RollBack(v, z, B, i) && w[i] == r
    ensures NodePairs(q, z, B, v, w, i)
  {
    var x1, s1, x2, s2, x3, s3 := NodeContributions(q, z, B, i, v, r);
    forall row {:trigger AddNode(row, q, z, B, i)} | |row| == |q|
      ensures Dot(AddNode(row, q, z, B, i), v, 0, |row|) == Dot(row, v, 0, |row|) + q[i] * w[i]
    {
      ThreeAddsPairing(row, v, x1, s1, x2, s2, x3, s3);
    }
  }

  /** Every node of [lo, hi) pairs with its entry of w. */
  ghost predicate RangePairs(q: seq<real>, z: seq<real>, B: Branches, v: seq<real>, w: seq<real>, lo: nat, hi: nat)
    requires B.Wf() && |q| == 2 * B.jmax + 1 && |z| == |q| && |v| == |q| && |w| == |q| && hi <= |q|
  {
    forall i :: lo <= i < hi ==> NodePairs(q, z, B, v, w, i)
  }

  /** Every occupied node pairs with its entry of the roll-back row. */
  lemma RowPairs(q: seq<real>, z: seq<real>, B: Branches, n: nat, v: seq<real>)
    requires B.Wf() && |q| == 2 * B.jmax + 1 && |z| == |q| && |v| == |q| && n <= B.jmax
    ensures RangePairs(q, z, B, v, RollBackRow(v, z, B, n), B.jmax - n, B.jmax + n + 1)
  {
    var w := RollBackRow(v, z, B, n);
    forall i | B.jmax - n <= i < B.jmax + n + 1
      ensures NodePairs(q, z, B, v, w, i)
    {
      RollBackPairs(q, z, B, v, w, i, w[i]);
    }
  }

  /** Pushing the nodes lo..hi-1 forward and pricing v afterwards adds the
      nodes' prices times their paired values w. */
  lemma {:induction false} ScatterPairing(row: seq<real>, q: seq<real>, z: seq<real>, B: Branches, lo: nat, hi: nat,
                                          v: seq<real>, w: seq<real>)
    requires B.Wf() && |row| == 2 * B.jmax + 1 && |q| == |row| && |z| == |row| && |v| == |row| && |w| == |row|
    requires lo <= hi <= |row| && RangePairs(q, z, B, v, w, lo, hi)
    ensures Dot(Scatter(row, q, z, B, lo, hi), v, 0, |row|) == Dot(row, v, 0, |row|) + Dot(q, w, lo, hi)
    decreases hi - lo
  {
    if lo < hi {
      ScatterPairing(row, q, z, B, lo, hi - 1, v, w);
      assert NodePairs(q, z, B, v, w, hi - 1);
    }
  }

  /** Pushing the occupied nodes into a zero row and pricing v afterwards
      prices the roll-back row w of v with the current prices. */
  lemma OccupiedPairing(q: seq<real>, z: seq<real>, B: Branches, n: nat, v: seq<real>, w: seq<real>)
    requires B.Wf() && |q| == 2 * B.jmax + 1 && |z| == |q| && |v| == |q| && n <= B.jmax
    requires w == RollBackRow(v, z, B, n)
    ensures Dot(Scatter(Zeros(|q|), q, z, B, B.jmax - n, B.jmax + n + 1), v, 0, |q|) == Dot(q, w, B.jmax - n, B.jmax + n + 1)
  {
    RowPairs(q, z, B, n, v);
    ScatterPairing(Zeros(|q|), q, z, B, B.jmax - n, B.jmax + n + 1, v, w);
    DotOfZeros(Zeros(|q|), v, 0, |q|);
  }

  /** Duality of one step: pricing v one step ahead with the propagated
      prices equals pricing its roll-back row w with the current prices. */
  lemma SpreadPairing(q: seq<real>, z: seq<real>, B: Branches, n: nat, v: seq<real>, w: seq<real>)
    requires B.Wf() && |q| == 2 * B.jmax + 1 && |z| == |q| && |v| == |q| && n <= B.jmax
    requires w == RollBackRow(v, z, B, n)
    ensures Dot(Spread(q, z, B, n), v, 0, |q|) == Dot(q, w, 0, |q|)
  {
    OccupiedPairing(q, z, B, n, v, w);
    DotOfSupported(q, w, B.jmax - n, B.jmax + n + 1);
  }

  /** Without early exercise an option step is the plain roll-back. */
  lemma EuropeanStepIsRollBackRow(next: seq<real>, bond: seq<real>, z: seq<real>, B: Branches, n: nat,
                                  accrued: real, strike: real)
    requires B.Wf() && |next| == 2 * B.jmax + 1 && |z| == |next| && |bond| == |next|
    ensures OptionStep(next, bond, z, B, n, accrued, strike, false) == RollBackRow(next, z, B, n)
  {
  }

  /** One European step: the prices q of step m against the option values
      of step m equal the propagated prices p against those of step m+1. */
  lemma EuropeanValueStep(S: Induction, m: nat, q: seq<real>, p: seq<real>)
    requires S.Wf() && m < S.e && |q| == 2 * S.B.jmax + 1
    requires p == Spread(q, S.disc[m], S.B, Occupied(m, S.B.jmax))
    ensures Dot(q, OptionValues(S, false, m), 0, 2 * S.B.jmax + 1) == Dot(p, OptionValues(S, false, m + 1), 0, 2 * S.B.jmax + 1)
  {
    var next, bond, n := OptionValues(S, false, m + 1), BondValues(S, m), Occupied(m, S.B.jmax);
    UnfoldOptionValues(S, false, m);
    EuropeanStepIsRollBackRow(next, bond, S.disc[m], S.B, n, S.accrued[m], S.strike);
    SpreadPairing(q, S.disc[m], S.B, n, next, OptionValues(S, false, m));
  }

  /** Step m of the European roll-back keeps the Q-weighted value. */
  lemma EuropeanValueKept(rows: seq<seq<real>>, zs: seq<seq<real>>, shift: seq<real>, df: seq<real>,
                          k: nat, S: Induction, m: nat)
    requires BuiltUpTo(rows, zs, S.B, shift, df, k) && S.Wf() && S.e <= k && m < S.e
    requires forall t :: 0 <= t < S.e ==> S.disc[t] == zs[t]
    ensures Dot(rows[m], OptionValues(S, false, m), 0, 2 * S.B.jmax + 1)
            == Dot(rows[m + 1], OptionValues(S, false, m + 1), 0, 2 * S.B.jmax + 1)
  {
    assert S.disc[m] == zs[m];
    EuropeanValueStep(S, m, rows[m], rows[m + 1]);
  }

  /** Rolling back from the expiry step to step m keeps the Q-weighted
      value of the European option. */
  lemma {:induction false} EuropeanValueConserved(rows: seq<seq<real>>, zs: seq<seq<real>>, shift: seq<real>, df: seq<real>,
                                                  k: nat, S: Induction, m: nat)
    requires BuiltUpTo(rows, zs, S.B, shift, df, k) && S.Wf() && S.e <= k && m <= S.e
    requires forall t :: 0 <= t < S.e ==> S.disc[t] == zs[t]
    ensures Dot(rows[m], OptionValues(S, false, m), 0, 2 * S.B.jmax + 1) == Dot(rows[S.e], ExpiryOption(S), 0, 2 * S.B.jmax + 1)
    decreases S.e - m
  {
    if m < S.e {
      EuropeanValueConserved(rows, zs, shift, df, k, S, m + 1);
      EuropeanValueKept(rows, zs, shift, df, k, S, m);
    }
  }

  lemma DotUnitRow(jmax: nat, v: seq<real>)
    requires |v| == 2 * jmax + 1
    ensures Dot(UnitRow(jmax), v, 0, |v|) == v[jmax]
  {
    var u := UnitRow(jmax);
    DotSplit(u, v, 0, jmax, |v|);
    DotSplit(u, v, jmax, jmax + 1, |v|);
    DotOfZeros(u, v, 0, jmax);
    DotOfZeros(u, v, jmax + 1, |v|);
  }

  /** The European option value at the root of the backward induction is
      the Arrow-Debreu weighted payoff at expiry: the price the forward
      pricers compute from row expiryStep of Q. */
  lemma EuropeanRootIsForwardPrice(rows: seq<seq<real>>, zs: seq<seq<real>>, shift: seq<real>, df: seq<real>, k: nat, S: Induction)
    requires BuiltUpTo(rows, zs, S.B, shift, df, k) && S.Wf() && S.e <= k
    requires forall t :: 0 <= t < S.e ==> S.disc[t] == zs[t]
    ensures OptionValues(S, false, 0)[S.B.jmax] == Dot(rows[S.e], ExpiryOption(S), 0, 2 * S.B.jmax + 1)
  {
    EuropeanValueConserved(rows, zs, shift, df, k, S, 0);
    DotUnitRow(S.B.jmax, OptionValues(S, false, 0));
  }

  /** The three successor values of node kN in row m+1 of A, read with the
      same branching as the propagation of Q. */
  method ReadSuccessors(A: array2<real>, m: nat, kN: nat, jmax: nat) returns (vu: real, vm: real, vd: real)
    requires jmax >= 1 && m + 1 < A.Length0 && A.Length1 == 2 * jmax + 1 && kN < A.Length1
    ensures var k := KindOf(kN - jmax, jmax);
      && vu == Row(A, m + 1)[kN + UpMove(k)]
      && vm == Row(A, m + 1)[kN + MidMove(k)]
      && vd == Row(A, m + 1)[kN + DownMove(k)]
  {
    var k := kN - jmax;
    if k == jmax {
      vu, vm, vd := A[m + 1, kN], A[m + 1, kN - 1], A[m + 1, kN - 2];
    } else if k == -(jmax as int) {
      vu, vm, vd := A[m + 1, kN + 2], A[m + 1, kN + 1], A[m + 1, kN];
    } else {
      vu, vm, vd := A[m + 1, kN + 1], A[m + 1, kN], A[m + 1, kN - 1];
    }
  }

  /** The discounted expectation of lines 410-427 (and 431-448) for node
      kN of step m, over row m+1 of A, whose values are `next`; z holds the
      step's discount factors. */
  method RollBackNode(A: array2<real>, disc: array2<real>, pu: array<real>, pm: array<real>, pd: array<real>,
                      jmax: nat, m: nat, kN: nat, ghost B: Branches, ghost next: seq<real>, ghost z: seq<real>)
    returns (v: real)
    requires B == Branches(jmax, pu[..], pm[..], pd[..]) && B.Wf() && kN < 2 * jmax + 1
    requires m + 1 < A.Length0 && A.Length1 == 2 * jmax + 1
    requires m < disc.Length0 && disc.Length1 == 2 * jmax + 1
    requires |next| == 2 * jmax + 1 && |z| == |next|
    requires forall c :: 0 <= c < 2 * jmax + 1 ==> A[m + 1, c] == next[c] && disc[m, c] == z[c]
    ensures v == RollBack(next, z, B, kN)
  {
    var df := disc[m, kN];
    var vu, vm, vd := ReadSuccessors(A, m, kN, jmax);
    v := (pu[kN] * vu + pm[kN] * vm + pd[kN] * vd) * df;
  }

  /** Lines 403-454 for node kN of step m: the bond value rolled back plus
      the step's flow, then the option value rolled back, and with early
      exercise the larger of it and the exercise value. */
  method StepNode(bondValues: array2<real>, optionValues: array2<real>, disc: array2<real>,
                  pu: array<real>, pm: array<real>, pd: array<real>, jmax: nat, m: nat, kN: nat,
                  flow: real, accrued: real, strike: real, american: bool,
                  ghost B: Branches, ghost nextBond: seq<real>, ghost nextOption: seq<real>, ghost z: seq<real>)
    requires B == Branches(jmax, pu[..], pm[..], pd[..]) && B.Wf() && kN < 2 * jmax + 1
    requires m + 1 < bondValues.Length0 && bondValues.Length1 == 2 * jmax + 1
    requires optionValues.Length0 == bondValues.Length0 && optionValues.Length1 == bondValues.Length1
    requires m < disc.Length0 && disc.Length1 == 2 * jmax + 1
    requires bondValues != optionValues && disc != bondValues && disc != optionValues
    requires |nextBond| == 2 * jmax + 1 && |nextOption| == |nextBond| && |z| == |nextBond|
    requires forall c :: 0 <= c < 2 * jmax + 1 ==>
               bondValues[m + 1, c] == nextBond[c] && optionValues[m + 1, c] == nextOption[c] && disc[m, c] == z[c]
    modifies bondValues, optionValues
    ensures bondValues[m, kN] == RollBack(nextBond, z, B, kN) + flow
    ensures optionValues[m, kN] == OptionNode(nextOption, bondValues[m, kN], z, B, kN, accrued, strike, american)
    ensures forall r, c :: 0 <= r < bondValues.Length0 && 0 <= c < bondValues.Length1 && (r, c) != (m, kN) ==>
              bondValues[r, c] == old(bondValues[r, c]) && optionValues[r, c] == old(optionValues[r, c])
  {
    var v := RollBackNode(bondValues, disc, pu, pm, pd, jmax, m, kN, B, nextBond, z);
    bondValues[m, kN] := v;
    bondValues[m, kN] := bondValues[m, kN] + flow;
    v := RollBackNode(optionValues, disc, pu, pm, pd, jmax, m, kN, B, nextOption, z);
    optionValues[m, kN] := v;
    if american {
      var cleanPrice := bondValues[m, kN] - accrued;
      var exercise := Max(cleanPrice - strike, 0.0);
      var hold := optionValues[m, kN];
      optionValues[m, kN] := Max(exercise, hold);
    }
  }

  /** The node loop of lines 399-454 for step m, cell by cell: the occupied
      cells of row m get their entries of the new rows bond and option,
      every other cell keeps its own. */
  method StepNodes(bondValues: array2<real>, optionValues: array2<real>, disc: array2<real>,
                   pu: array<real>, pm: array<real>, pd: array<real>, jmax: nat, m: nat,
                   flow: real, accrued: real, strike: real, american: bool,
                   ghost B: Branches, ghost nextBond: seq<real>, ghost nextOption: seq<real>, ghost z: seq<real>,
                   ghost bond: seq<real>, ghost option: seq<real>)
    requires B == Branches(jmax, pu[..], pm[..], pd[..]) && B.Wf()
    requires m + 1 < bondValues.Length0 && bondValues.Length1 == 2 * jmax + 1
    requires optionValues.Length0 == bondValues.Length0 && optionValues.Length1 == bondValues.Length1
    requires m < disc.Length0 && disc.Length1 == 2 * jmax + 1
    requires bondValues != optionValues && disc != bondValues && disc != optionValues
    requires |nextBond| == 2 * jmax + 1 && |nextOption| == |nextBond| && |z| == |nextBond|
    requires |bond| == |nextBond| && |option| == |nextBond|
    requires forall c :: 0 <= c < 2 * jmax + 1 ==>
               bondValues[m + 1, c] == nextBond[c] && optionValues[m + 1, c] == nextOption[c] && disc[m, c] == z[c]
    requires forall c {:trigger RollBack(nextBond, z, B, c)} :: 0 <= c < 2 * jmax + 1 && IsOccupied(c, jmax, Occupied(m, jmax)) ==>
               bond[c] == RollBack(nextBond, z, B, c) + flow
    requires forall c {:trigger OptionNode(nextOption, bond[c], z, B, c, accrued, strike, american)} ::
               0 <= c < 2 * jmax + 1 && IsOccupied(c, jmax, Occupied(m, jmax)) ==>
               option[c] == OptionNode(nextOption, bond[c], z, B, c, accrued, strike, american)
    modifies bondValues, optionValues
    ensures forall c :: 0 <= c < 2 * jmax + 1 ==>
              bondValues[m, c] == if IsOccupied(c, jmax, Occupied(m, jmax)) then bond[c] else old(bondValues[m, c])
    ensures forall c :: 0 <= c < 2 * jmax + 1 ==>
              optionValues[m, c] == if IsOccupied(c, jmax, Occupied(m, jmax)) then option[c] else old(optionValues[m, c])
    ensures forall r, c :: 0 <= r < bondValues.Length0 && r != m && 0 <= c < 2 * jmax + 1 ==>
              bondValues[r, c] == old(bondValues[r, c]) && optionValues[r, c] == old(optionValues[r, c])
  {
    var nm := Occupied(m, jmax);
    var k := -(nm as int);
    while k <= nm
      invariant -(nm as int) <= k <= nm + 1
      invariant forall c :: 0 <= c < 2 * jmax + 1 ==>
                  bondValues[m, c] == if jmax - nm <= c < k + jmax then bond[c] else old(bondValues[m, c])
      invariant forall c :: 0 <= c < 2 * jmax + 1 ==>
                  optionValues[m, c] == if jmax - nm <= c < k + jmax then option[c] else old(optionValues[m, c])
      invariant forall r, c :: 0 <= r < bondValues.Length0 && r != m && 0 <= c < 2 * jmax + 1 ==>
                  bondValues[r, c] == old(bondValues[r, c]) && optionValues[r, c] == old(optionValues[r, c])
    {
      StepNode(bondValues, optionValues, disc, pu, pm, pd, jmax, m, k + jmax, flow, accrued, strike, american,
               B, nextBond, nextOption, z);
      k := k + 1;
    }
  }

  /** Lines 399-454 for step m: every occupied node of the step, into rows
      that are still zero. */
  method StepRow(bondValues: array2<real>, optionValues: array2<real>, disc: array2<real>,
                 pu: array<real>, pm: array<real>, pd: array<real>, jmax: nat, m: nat,
                 flow: real, accrued: real, strike: real, american: bool)
    requires jmax >= 1
    requires m + 1 < bondValues.Length0 && bondValues.Length1 == 2 * jmax + 1
    requires optionValues.Length0 == bondValues.Length0 && optionValues.Length1 == bondValues.Length1
    requires m < disc.Length0 && disc.Length1 == 2 * jmax + 1
    requires pu.Length == 2 * jmax + 1 && pm.Length == pu.Length && pd.Length == pu.Length
    requires bondValues != optionValues && disc != bondValues && disc != optionValues
    requires Row(bondValues, m) == Zeros(2 * jmax + 1) && Row(optionValues, m) == Zeros(2 * jmax + 1)
    modifies bondValues, optionValues
    ensures var B := Branches(jmax, pu[..], pm[..], pd[..]);
      var bond := BondStep(old(Row(bondValues, m + 1)), Row(disc, m), B, Occupied(m, jmax), flow);
      && Rows(bondValues) == old(Rows(bondValues))[m := bond]
      && Rows(optionValues) == old(Rows(optionValues))[m := OptionStep(old(Row(optionValues, m + 1)), bond, Row(disc, m), B,
                                                                      Occupied(m, jmax), accrued, strike, american)]
  {
    ghost var B := Branches(jmax, pu[..], pm[..], pd[..]);
    ghost var nm := Occupied(m, jmax);
    ghost var nextBond, nextOption, z := Row(bondValues, m + 1), Row(optionValues, m + 1), Row(disc, m);
    ghost var bond := BondStep(nextBond, z, B, nm, flow);
    ghost var option := OptionStep(nextOption, bond, z, B, nm, accrued, strike, american);
    ghost var w := 2 * jmax + 1;
    assert forall c :: 0 <= c < w ==> bondValues[m, c] == Row(bondValues, m)[c] == 0.0;
    assert forall c :: 0 <= c < w ==> optionValues[m, c] == Row(optionValues, m)[c] == 0.0;
    assert forall c :: 0 <= c < w ==>
             bondValues[m + 1, c] == nextBond[c] && optionValues[m + 1, c] == nextOption[c] && disc[m, c] == z[c];
    StepNodes(bondValues, optionValues, disc, pu, pm, pd, jmax, m, flow, accrued, strike, american,
              B, nextBond, nextOption, z, bond, option);
    RowsAfterRowUpdate(bondValues, m, bond, old(Rows(bondValues)));
    RowsAfterRowUpdate(optionValues, m, option, old(Rows(optionValues)));
  }

  /** One step of the backward induction, written out. */
  lemma UnfoldBondValues(S: Induction, m: nat)
    requires S.Wf() && m < S.e
    ensures BondValues(S, m) == BondStep(BondValues(S, m + 1), S.disc[m], S.B, Occupied(m, S.B.jmax), S.FlowAt(m))
  {
  }

  lemma UnfoldOptionValues(S: Induction, american: bool, m: nat)
    requires S.Wf() && m < S.e
    ensures OptionValues(S, american, m) == OptionStep(OptionValues(S, american, m + 1), BondValues(S, m), S.disc[m], S.B,
                                                       Occupied(m, S.B.jmax), S.accrued[m], S.strike, american)
  {
  }

  /** The arrays hold the inputs S of the backward induction. */
  ghost predicate Holds(S: Induction, disc: array2<real>, pu: array<real>, pm: array<real>, pd: array<real>, jmax: nat,
                        treeFlows: array<real>, accrued: array<real>, face: real, strike: real)
    reads disc, pu, pm, pd, treeFlows, accrued
  {
    && S.Wf() && S.B == Branches(jmax, pu[..], pm[..], pd[..])
    && S.face == face && S.strike == strike && disc.Length1 == 2 * jmax + 1
    && S.disc == Rows(disc) && S.flows == treeFlows[..] && S.accrued == accrued[..]
  }

  /** One pass of the time loop, for step m: row m, still zero, receives
      the step's bond and option values; the rows below it stay zero. */
  method RollBackStep(bondValues: array2<real>, optionValues: array2<real>, disc: array2<real>,
                      pu: array<real>, pm: array<real>, pd: array<real>, jmax: nat,
                      treeFlows: array<real>, accrued: array<real>, face: real, strike: real, m: nat,
                      american: bool, ghost S: Induction)
    requires Holds(S, disc, pu, pm, pd, jmax, treeFlows, accrued, face, strike) && m < S.e
    requires S.e < bondValues.Length0 && bondValues.Length1 == 2 * jmax + 1
    requires optionValues.Length0 == bondValues.Length0 && optionValues.Length1 == bondValues.Length1
    requires bondValues != optionValues && disc != bondValues && disc != optionValues
    requires Row(bondValues, m + 1) == BondValues(S, m + 1) && Row(optionValues, m + 1) == OptionValues(S, american, m + 1)
    requires forall r :: 0 <= r <= m ==> Row(bondValues, r) == Zeros(2 * jmax + 1) && Row(optionValues, r) == Zeros(2 * jmax + 1)
    modifies bondValues, optionValues
    ensures Row(bondValues, m) == BondValues(S, m) && Row(optionValues, m) == OptionValues(S, american, m)
    ensures forall r :: 0 <= r < m ==> Row(bondValues, r) == Zeros(2 * jmax + 1) && Row(optionValues, r) == Zeros(2 * jmax + 1)
  {
    var flow := treeFlows[m] * face;
    assert Row(disc, m) == S.disc[m];
    ghost var nextBond, nextOption := Row(bondValues, m + 1), Row(optionValues, m + 1);
    ghost var bond := BondStep(nextBond, S.disc[m], S.B, Occupied(m, jmax), flow);
    assert flow == S.FlowAt(m) by { assert S.flows[m] == treeFlows[m]; }
    assert S.B.jmax == jmax;
    UnfoldBondValues(S, m);
    UnfoldOptionValues(S, american, m);
    assert bond == BondValues(S, m);
    StepRow(bondValues, optionValues, disc, pu, pm, pd, jmax, m, flow, accrued[m], strike, american);
    assert Row(bondValues, m) == Rows(bondValues)[m] == bond;
    assert Row(optionValues, m) == Rows(optionValues)[m];
    assert forall r :: 0 <= r < m ==> Row(bondValues, r) == Rows(bondValues)[r] && Row(optionValues, r) == Rows(optionValues)[r];
  }

  /** The time loop of lines 397-454: from the step before expiry back to
      the root, over rows that are still zero. */
  method RollBackTree(bondValues: array2<real>, optionValues: array2<real>, disc: array2<real>,
                      pu: array<real>, pm: array<real>, pd: array<real>, jmax: nat,
                      treeFlows: array<real>, accrued: array<real>, face: real, strike: real, e: nat,
                      american: bool, ghost S: Induction)
    requires Holds(S, disc, pu, pm, pd, jmax, treeFlows, accrued, face, strike) && S.e == e
    requires S.e < bondValues.Length0 && bondValues.Length1 == 2 * jmax + 1
    requires optionValues.Length0 == bondValues.Length0 && optionValues.Length1 == bondValues.Length1
    requires bondValues != optionValues && disc != bondValues && disc != optionValues
    requires Row(bondValues, S.e) == S.seed && Row(optionValues, S.e) == ExpiryOption(S)
    requires forall r :: 0 <= r < S.e ==> Row(bondValues, r) == Zeros(2 * jmax + 1) && Row(optionValues, r) == Zeros(2 * jmax + 1)
    modifies bondValues, optionValues
    ensures Row(bondValues, 0) == BondValues(S, 0)
    ensures Row(optionValues, 0) == OptionValues(S, american, 0)
  {
    var m := e;
    while m > 0
      invariant 0 <= m <= S.e
      invariant Row(bondValues, m) == BondValues(S, m) && Row(optionValues, m) == OptionValues(S, american, m)
      invariant forall r :: 0 <= r < m ==> Row(bondValues, r) == Zeros(2 * jmax + 1) && Row(optionValues, r) == Zeros(2 * jmax + 1)
    {
      m := m - 1;
      RollBackStep(bondValues, optionValues, disc, pu, pm, pd, jmax, treeFlows, accrued, face, strike, m, american, S);
    }
  }
}
