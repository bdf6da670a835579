/** Seeding the backward induction at the expiry step (bondOption, lines
    371-395): the bond value of every occupied node, from the zero-coupon
    prices of the coupons paid after the expiry step, and the option's
    exercise value there. */
module Expiry {

  import opened Sums
  import opened Lattice
  import opened Backward

  /** cpn*face*zcb[i] summed over the first `count` coupons paid strictly
      after time t. */
  function CouponsAfter(times: seq<real>, zcb: seq<real>, t: real, cpn: real, face: real, count: nat): real
    requires count <= |times| && |zcb| == |times|
  {
    if count == 0 then 0.0
    else CouponsAfter(times, zcb, t, cpn, face, count - 1) + (if times[count - 1] > t then cpn * face * zcb[count - 1] else 0.0)
  }

  /** The zero-coupon price left in `zcb` once the first `count` coupons
      have been scanned: that of the last one paid after t (0.0 before
      any). */
  function LastAfter(times: seq<real>, zcb: seq<real>, t: real, count: nat): real
    requires count <= |times| && |zcb| == |times|
  {
    if count == 0 then 0.0
    else if times[count - 1] > t then zcb[count - 1]
    else LastAfter(times, zcb, t, count - 1)
  }

  predicate PaidAfter(times: seq<real>, t: real)
  {
    exists i :: 0 <= i < |times| && times[i] > t
  }

  /** The bond value of one node at expiry, before the step's own flow:
      the coupons after t and the face priced with the last of their
      zero-coupon prices. */
  function ExpiryBondPrice(times: seq<real>, zcb: seq<real>, t: real, cpn: real, face: real): real
    requires |zcb| == |times|
  {
    CouponsAfter(times, zcb, t, cpn, face, |times|) + face * LastAfter(times, zcb, t, |times|)
  }

  predicate Increasing(times: seq<real>)
  {
    forall i, k :: 0 <= i < k < |times| ==> times[i] < times[k]
  }

  /** When coupon times increase and the last is paid after t, the price
      left in `zcb` is that of the last coupon, so a node's bond value is
      its coupons after t plus the face discounted from maturity. */
  lemma LastAfterIsMaturity(times: seq<real>, zcb: seq<real>, t: real, count: nat)
    requires 1 <= count <= |times| && |zcb| == |times| && times[count - 1] > t
    ensures LastAfter(times, zcb, t, count) == zcb[count - 1]
  {
  }

  /** Some coupon after t exists exactly when the scan finds one; with
      increasing times, exactly when the last coupon is after t. */
  lemma PaidAfterLast(times: seq<real>, t: real)
    requires |times| >= 1 && Increasing(times)
    ensures PaidAfter(times, t) <==> times[|times| - 1] > t
  {
    if PaidAfter(times, t) {
      var i :| 0 <= i < |times| && times[i] > t;
      if i < |times| - 1 {
        assert times[i] < times[|times| - 1];
      }
    }
  }

  /** Non-negative zero-coupon prices, coupon and face give a non-negative
      bond value. */
  lemma {:induction false} CouponsAfterNonNegative(times: seq<real>, zcb: seq<real>, t: real, cpn: real, face: real, count: nat)
    requires count <= |times| && |zcb| == |times| && NonNegative(zcb) && cpn >= 0.0 && face >= 0.0
    ensures CouponsAfter(times, zcb, t, cpn, face, count) >= 0.0
    ensures LastAfter(times, zcb, t, count) >= 0.0
  {
    if count > 0 {
      CouponsAfterNonNegative(times, zcb, t, cpn, face, count - 1);
      var c := cpn * face;
      assert c >= 0.0;
      assert c * zcb[count - 1] >= 0.0;
    }
  }

  /** The inner loop of lines 376-384 for one node. */
  method NodeBondPrice(times: seq<real>, zcb: seq<real>, t: real, cpn: real, face: real) returns (bondPrice: real)
    requires |zcb| == |times|
    ensures bondPrice == ExpiryBondPrice(times, zcb, t, cpn, face)
  {
    bondPrice := 0.0;
    var last := 0.0;
    var i := 0;
    while i < |times|
      invariant 0 <= i <= |times|
      invariant bondPrice == CouponsAfter(times, zcb, t, cpn, face, i)
      invariant last == LastAfter(times, zcb, t, i)
    {
      if times[i] > t {
        last := zcb[i];
        bondPrice := bondPrice + cpn * face * last;
      }
      i := i + 1;
    }
    bondPrice := bondPrice + face * last;
  }

  predicate ZcbShaped(zcbs: seq<seq<real>>, jmax: nat, count: nat)
  {
    |zcbs| == 2 * jmax + 1 && forall k :: 0 <= k < |zcbs| ==> |zcbs[k]| == count
  }

  /** bondValues[expiryStep]: the node bond values plus the step's flow at
      the occupied nodes, zero elsewhere. */
  function Seed(zcbs: seq<seq<real>>, times: seq<real>, t: real, cpn: real, face: real, flow: real, jmax: nat, n: nat)
    : (r: seq<real>)
    requires ZcbShaped(zcbs, jmax, |times|)
    ensures |r| == 2 * jmax + 1
  {
    seq(2 * jmax + 1, i requires 0 <= i < 2 * jmax + 1 =>
      if IsOccupied(i, jmax, n) then ExpiryBondPrice(times, zcbs[i], t, cpn, face) + flow else 0.0)
  }

  /** The bond loop of lines 372-385 over the occupied nodes of step e. */
  method SeedBonds(bondValues: array2<real>, zcbs: seq<seq<real>>, times: seq<real>, t: real, cpn: real, face: real,
                   flow: real, jmax: nat, e: nat)
    requires e < bondValues.Length0 && bondValues.Length1 == 2 * jmax + 1 && ZcbShaped(zcbs, jmax, |times|)
    requires Row(bondValues, e) == Zeros(2 * jmax + 1)
    modifies bondValues
    ensures Rows(bondValues) == old(Rows(bondValues))[e := Seed(zcbs, times, t, cpn, face, flow, jmax, Occupied(e, jmax))]
  {
    ghost var seed := Seed(zcbs, times, t, cpn, face, flow, jmax, Occupied(e, jmax));
    ghost var before := Rows(bondValues);
    assert forall c :: 0 <= c < 2 * jmax + 1 ==> bondValues[e, c] == Row(bondValues, e)[c] == 0.0;
    assert forall r, c :: 0 <= r < bondValues.Length0 && r != e && 0 <= c < 2 * jmax + 1 ==>
             bondValues[r, c] == before[r][c];
    var nm := Occupied(e, jmax);
    var k := -(nm as int);
    while k <= nm
      invariant -(nm as int) <= k <= nm + 1
      invariant forall c :: 0 <= c < 2 * jmax + 1 ==>
                  bondValues[e, c] == if jmax - nm <= c < k + jmax then seed[c] else 0.0
      invariant forall r, c :: 0 <= r < bondValues.Length0 && r != e && 0 <= c < 2 * jmax + 1 ==>
                  bondValues[r, c] == before[r][c]
    {
      var kN := k + jmax;
      var bondPrice := NodeBondPrice(times, zcbs[kN], t, cpn, face);
      bondValues[e, kN] := bondPrice + flow;
      k := k + 1;
    }
    RowsAfterRowUpdate(bondValues, e, seed, before);
  }

  /** The exercise loop of lines 391-395 over the occupied nodes of step e. */
  method SeedOptions(optionValues: array2<real>, bondValues: array2<real>, ghost bond: seq<real>,
                     accrued: real, strike: real, jmax: nat, e: nat)
    requires e < optionValues.Length0 && optionValues.Length1 == 2 * jmax + 1 && |bond| == 2 * jmax + 1
    requires e < bondValues.Length0 && bondValues.Length1 == 2 * jmax + 1 && bondValues != optionValues
    requires Row(bondValues, e) == bond && Row(optionValues, e) == Zeros(2 * jmax + 1)
    modifies optionValues
    ensures Rows(optionValues) == old(Rows(optionValues))[e := ExerciseRow(bond, accrued, strike, jmax, Occupied(e, jmax))]
  {
    ghost var exercise := ExerciseRow(bond, accrued, strike, jmax, Occupied(e, jmax));
    ghost var before := Rows(optionValues);
    assert forall c :: 0 <= c < 2 * jmax + 1 ==> optionValues[e, c] == Row(optionValues, e)[c] == 0.0;
    assert forall c :: 0 <= c < 2 * jmax + 1 ==> bondValues[e, c] == Row(bondValues, e)[c] == bond[c];
    assert forall r, c :: 0 <= r < optionValues.Length0 && r != e && 0 <= c < 2 * jmax + 1 ==>
             optionValues[r, c] == before[r][c];
    var nm := Occupied(e, jmax);
    var k := -(nm as int);
    while k <= nm
      invariant -(nm as int) <= k <= nm + 1
      invariant forall c :: 0 <= c < 2 * jmax + 1 ==>
                  optionValues[e, c] == if jmax - nm <= c < k + jmax then exercise[c] else 0.0
      invariant forall r, c :: 0 <= r < optionValues.Length0 && r != e && 0 <= c < 2 * jmax + 1 ==>
                  optionValues[r, c] == before[r][c]
    {
      var kN := k + jmax;
      var cleanPrice := bondValues[e, kN] - accrued;
      optionValues[e, kN] := Max(cleanPrice - strike, 0.0);
      k := k + 1;
    }
    RowsAfterRowUpdate(optionValues, e, exercise, before);
  }
}
