/** Forward pricing on the calibrated tree (europeanBondOption, lines
    147-202, and europeanOptionOnZeroCouponBond_Tree, lines 239-282): the
    payoff at every node of the expiry step, weighted by its Arrow-Debreu
    price, summed over the nodes. */
module Pricing {

  import opened Sums
  import opened Branching
  import opened Lattice

  function CallPayoff(value: real, strike: real): real
  {
    Max(value - strike, 0.0)
  }

  function PutPayoff(value: real, strike: real): real
  {
    Max(strike - value, 0.0)
  }

  /** q[0]*call payoff of values[0] + ... over the first hi nodes. */
  function CallSum(q: seq<real>, values: seq<real>, strike: real, hi: nat): real
    requires hi <= |q| && hi <= |values|
  {
    if hi == 0 then 0.0 else CallSum(q, values, strike, hi - 1) + q[hi - 1] * CallPayoff(values[hi - 1], strike)
  }

  function PutSum(q: seq<real>, values: seq<real>, strike: real, hi: nat): real
    requires hi <= |q| && hi <= |values|
  {
    if hi == 0 then 0.0 else PutSum(q, values, strike, hi - 1) + q[hi - 1] * PutPayoff(values[hi - 1], strike)
  }

  /** Put-call parity node by node: call minus put is the Arrow-Debreu
      weighted value less the strike times the total Arrow-Debreu mass. */
  lemma {:induction false} PayoffParity(q: seq<real>, values: seq<real>, strike: real, hi: nat)
    requires hi <= |q| && hi <= |values|
    ensures CallSum(q, values, strike, hi) - PutSum(q, values, strike, hi)
            == Dot(q, values, 0, hi) - strike * SumOver(q, 0, hi)
  {
    if hi > 0 {
      PayoffParity(q, values, strike, hi - 1);
      var k := hi - 1;
      assert CallPayoff(values[k], strike) - PutPayoff(values[k], strike) == values[k] - strike;
      assert q[k] * CallPayoff(values[k], strike) - q[k] * PutPayoff(values[k], strike)
             == q[k] * values[k] - strike * q[k];
    }
  }

  /** With non-negative Arrow-Debreu prices both prices are non-negative. */
  lemma {:induction false} PayoffSumsNonNegative(q: seq<real>, values: seq<real>, strike: real, hi: nat)
    requires hi <= |q| && hi <= |values| && NonNegative(q)
    ensures CallSum(q, values, strike, hi) >= 0.0 && PutSum(q, values, strike, hi) >= 0.0
  {
    if hi > 0 {
      PayoffSumsNonNegative(q, values, strike, hi - 1);
      MulNonNegative(q[hi - 1], CallPayoff(values[hi - 1], strike));
      MulNonNegative(q[hi - 1], PutPayoff(values[hi - 1], strike));
    }
  }

  /** On a calibrated tree the Arrow-Debreu prices of step m add up to the
      curve's discount factor to that step, so the tree prices satisfy
      put-call parity against the curve, and neither is negative when the
      branch probabilities, the shifts and the discount factors are not. */
  lemma TreeParity(rows: seq<seq<real>>, zs: seq<seq<real>>, B: Branches, shift: seq<real>, df: seq<real>,
                   k: nat, m: nat, values: seq<real>, strike: real)
    requires BuiltUpTo(rows, zs, B, shift, df, k) && B.SumsToOne() && m <= k && |values| == 2 * B.jmax + 1
    ensures CallSum(rows[m], values, strike, |values|) - PutSum(rows[m], values, strike, |values|)
            == Dot(rows[m], values, 0, |values|) - strike * (if m == 0 then 1.0 else df[m])
    ensures B.NonNegative() && Positive(shift) && Positive(df) ==>
              CallSum(rows[m], values, strike, |values|) >= 0.0 && PutSum(rows[m], values, strike, |values|) >= 0.0
  {
    PayoffParity(rows[m], values, strike, |values|);
    RowSum(rows, zs, B, shift, df, k, m);
    if B.NonNegative() && Positive(shift) && Positive(df) {
      RowNonNegative(rows, zs, B, shift, df, k, m);
      PayoffSumsNonNegative(rows[m], values, strike, |values|);
    }
  }

  /** The node loop of lines 187-200 (and 272-280): accumulate the call
      and put payoffs weighted by the Arrow-Debreu prices of step e. */
  method ExpectedPayoffs(Q: array2<real>, e: nat, values: seq<real>, strike: real) returns (call: real, put: real)
    requires e < Q.Length0 && |values| == Q.Length1
    ensures call == CallSum(Row(Q, e), values, strike, |values|)
    ensures put == PutSum(Row(Q, e), values, strike, |values|)
  {
    call, put := 0.0, 0.0;
    var k := 0;
    while k < Q.Length1
      invariant 0 <= k <= Q.Length1
      invariant call == CallSum(Row(Q, e), values, strike, k)
      invariant put == PutSum(Row(Q, e), values, strike, k)
    {
      var q := Q[e, k];
      var putPayoff := Max(strike - values[k], 0.0);
      var callPayoff := Max(values[k] - strike, 0.0);
      put := put + q * putPayoff;
      call := call + q * callPayoff;
      k := k + 1;
    }
  }

  /** cpn*zcbs[0] + ... + cpn*zcbs[count-1]: the coupons of a bond. */
  function CouponsValue(cpn: real, zcbs: seq<real>, count: nat): real
    requires count <= |zcbs|
  {
    if count == 0 then 0.0 else CouponsValue(cpn, zcbs, count - 1) + cpn * zcbs[count - 1]
  }

  /** The bond's cash flows per unit face: a coupon on every flow date and
      the principal on the last. */
  function CashFlows(cpn: real, count: nat): (r: seq<real>)
    requires count >= 1
    ensures |r| == count
  {
    seq(count, f requires 0 <= f < count => if f == count - 1 then cpn + 1.0 else cpn)
  }

  /** The loop of lines 191-195: the coupons priced with the zero-coupon
      prices of their dates, plus the principal priced with the last one. */
  method BondPresentValue(cpn: real, zcbs: seq<real>) returns (pv: real)
    requires |zcbs| >= 1
    ensures pv == Dot(CashFlows(cpn, |zcbs|), zcbs, 0, |zcbs|)
  {
    pv := 0.0;
    var zcb := 0.0;
    var f := 0;
    while f < |zcbs|
      invariant 0 <= f <= |zcbs|
      invariant pv == CouponsValue(cpn, zcbs, f)
      invariant f > 0 ==> zcb == zcbs[f - 1]
    {
      zcb := zcbs[f];
      pv := pv + cpn * zcb;
      f := f + 1;
    }
    pv := pv + zcb;
    CouponsAndPrincipal(cpn, zcbs, |zcbs|);
  }

  /** Coupons plus the last zero-coupon price is the bond's cash flow
      schedule priced with the zero-coupon prices. */
  lemma {:induction false} CouponsAndPrincipal(cpn: real, zcbs: seq<real>, count: nat)
    requires 1 <= count <= |zcbs|
    ensures CouponsValue(cpn, zcbs, count) + zcbs[count - 1] == Dot(CashFlows(cpn, count), zcbs, 0, count)
  {
    var flows := CashFlows(cpn, count);
    CouponsAreDot(cpn, zcbs, flows, count - 1);
    assert flows[count - 1] * zcbs[count - 1] == cpn * zcbs[count - 1] + zcbs[count - 1];
  }

  lemma {:induction false} CouponsAreDot(cpn: real, zcbs: seq<real>, flows: seq<real>, count: nat)
    requires count <= |zcbs| && count <= |flows|
    requires forall f :: 0 <= f < count ==> flows[f] == cpn
    ensures CouponsValue(cpn, zcbs, count) == Dot(flows, zcbs, 0, count)
  {
    if count > 0 {
      CouponsAreDot(cpn, zcbs, flows, count - 1);
    }
  }
  /** A node's bond value at expiry (lines 190-195): the bond's cash flows
      priced with the node's zero-coupon prices, times face. */
  function BondValueAt(zcbs: seq<real>, cpn: real, face: real): real
    requires |zcbs| >= 1
  {
    Dot(CashFlows(cpn, |zcbs|), zcbs, 0, |zcbs|) * face
  }

  /** The bond value at every node of the expiry step. */
  function BondValuesAt(zcbs: seq<seq<real>>, cpn: real, face: real): (r: seq<real>)
    requires forall k :: 0 <= k < |zcbs| ==> |zcbs[k]| >= 1
    ensures |r| == |zcbs|
  {
    seq(|zcbs|, k requires 0 <= k < |zcbs| => BondValueAt(zcbs[k], cpn, face))
  }

  /** The node loop of lines 186-200: price the bond at each node of the
      expiry step, then accumulate its call and put payoffs weighted by the
      node's Arrow-Debreu price. */
  method BondPayoffs(Q: array2<real>, e: nat, zcbs: seq<seq<real>>, cpn: real, face: real, strike: real)
    returns (call: real, put: real)
    requires e < Q.Length0 && |zcbs| == Q.Length1
    requires forall k :: 0 <= k < |zcbs| ==> |zcbs[k]| >= 1
    ensures call == CallSum(Row(Q, e), BondValuesAt(zcbs, cpn, face), strike, |zcbs|)
    ensures put == PutSum(Row(Q, e), BondValuesAt(zcbs, cpn, face), strike, |zcbs|)
  {
    ghost var values, row := BondValuesAt(zcbs, cpn, face), Row(Q, e);
    call, put := 0.0, 0.0;
    var k := 0;
    while k < Q.Length1
      invariant 0 <= k <= Q.Length1
      invariant call == CallSum(row, values, strike, k)
      invariant put == PutSum(row, values, strike, k)
    {
      call, put := PayoffStep(Q, e, k, zcbs[k], cpn, face, strike, call, put, row, values);
      k := k + 1;
    }
  }

  /** Lines 187-200 for node k. */
  method PayoffStep(Q: array2<real>, e: nat, k: nat, zcbs: seq<real>, cpn: real, face: real, strike: real,
                    call: real, put: real, ghost row: seq<real>, ghost values: seq<real>)
    returns (call': real, put': real)
    requires e < Q.Length0 && k < Q.Length1 && |row| == Q.Length1 && |values| == Q.Length1 && |zcbs| >= 1
    requires row[k] == Q[e, k] && values[k] == BondValueAt(zcbs, cpn, face)
    requires call == CallSum(row, values, strike, k) && put == PutSum(row, values, strike, k)
    ensures call' == CallSum(row, values, strike, k + 1) && put' == PutSum(row, values, strike, k + 1)
  {
    var q := Q[e, k];
    var value := NodeBondValue(zcbs, cpn, face);
    var putPayoff := Max(strike - value, 0.0);
    var callPayoff := Max(value - strike, 0.0);
    put' := put + q * putPayoff;
    call' := call + q * callPayoff;
  }

  /** Lines 190-195 for one node: the bond's present value times face. */
  method NodeBondValue(zcbs: seq<real>, cpn: real, face: real) returns (value: real)
    requires |zcbs| >= 1
    ensures value == BondValueAt(zcbs, cpn, face)
  {
    var pv := BondPresentValue(cpn, zcbs);
    value := pv * face;
  }
}
