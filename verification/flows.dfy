/** Placing a coupon bond's cash flows on the tree (bondOption, lines
    314-361): the expiry step, the coupon flows snapped to the nearest
    tree step and scaled by the curve's ratio df(flow time) / df(tree
    time), and the interest accrued at each tree time up to expiry. */
module Flows {

  import opened Sums

  /** Python's int() on a float: truncation toward zero. */
  function Trunc(x: real): (n: int)
    ensures x >= 0.0 ==> 0 <= n && n as real <= x < n as real + 1.0
    ensures x < 0.0 ==> n <= 0 && n as real - 1.0 < x <= n as real
  {
    if x >= 0.0 then x.Floor else -((-x).Floor)
  }

  /** Python's round(x, 0): nearest integer, ties to the even neighbour. */
  function RoundHalfEven(x: real): (n: int)
    ensures x - 0.5 <= n as real <= x + 0.5
    ensures n as real == x + 0.5 ==> n % 2 == 0
    ensures n as real == x - 0.5 ==> n % 2 == 0
  {
    var f := x.Floor;
    var d := x - f as real;
    if d < 0.5 then f
    else if d > 0.5 then f + 1
    else if f % 2 == 0 then f else f + 1
  }

  /** Rounding half-even never exceeds rounding half-up. */
  lemma RoundHalfEvenBelowHalfUp(x: real)
    ensures RoundHalfEven(x) <= (x + 0.5).Floor
  {
  }

  /** int(texp/dt + 0.50): the step nearest to the expiry time. */
  function ExpiryStep(texp: real, dt: real): (e: int)
    requires dt > 0.0
    ensures texp >= 0.0 ==> 0 <= e && texp / dt - 0.5 < e as real <= texp / dt + 0.5
  {
    Trunc(texp / dt + 0.50)
  }

  /** The tree times come from an even grid: step n sits at n*dt. */
  function TreeTime(n: nat, dt: real): real
  {
    n as real * dt
  }

  /** round(t/dt): the step a flow at time t is moved to. */
  function SnapStep(t: real, dt: real): int
    requires dt > 0.0
  {
    RoundHalfEven(t / dt)
  }

  /** A flow paid at or before expiry is moved to a step between the root
      and the expiry step, so the backward induction passes over it. */
  lemma SnapWithinExpiry(t: real, texp: real, dt: real)
    requires dt > 0.0 && 0.0 <= t <= texp
    ensures 0 <= SnapStep(t, dt) <= ExpiryStep(texp, dt)
  {
    RoundHalfEvenBelowHalfUp(t / dt);
    assert t / dt <= texp / dt by {
      assert texp / dt - t / dt == (texp - t) / dt;
    }
  }

  predicate AllAtLeast(s: seq<real>, lo: real)
  {
    forall i :: 0 <= i < |s| ==> s[i] >= lo
  }

  /** The amount a flow adds to its step: the flow scaled by the ratio of
      the curve's discount factors at the flow time and at the tree time
      it is moved to. */
  function SnappedAmount(flow: real, t: real, dt: real, df: real -> real): real
    requires dt > 0.0 && 0.0 <= t
    requires forall s :: df(s) > 0.0
  {
    flow * 1.0 * df(t) / df(TreeTime(SnapStep(t, dt), dt))
  }

  /** treeFlows after the first `count` coupons have been processed. */
  function SnappedFlows(times: seq<real>, flows: seq<real>, texp: real, dt: real, df: real -> real,
                        rows: nat, count: nat): (r: seq<real>)
    requires |flows| == |times| && count <= |times| && dt > 0.0 && AllAtLeast(times, 0.0)
    requires texp >= 0.0 && ExpiryStep(texp, dt) < rows
    requires forall s :: df(s) > 0.0
    ensures |r| == rows
  {
    if count == 0 then Zeros(rows)
    else
      var prev := SnappedFlows(times, flows, texp, dt, df, rows, count - 1);
      var t := times[count - 1];
      if t <= texp then
        SnapWithinExpiry(t, texp, dt);
        AddAt(prev, SnapStep(t, dt), SnappedAmount(flows[count - 1], t, dt, df))
      else prev
  }

  /** Sum of the scaled flows of the first `count` coupons paid by expiry. */
  function FlowsPaidBy(times: seq<real>, flows: seq<real>, texp: real, dt: real, df: real -> real, count: nat): real
    requires |flows| == |times| && count <= |times| && dt > 0.0 && AllAtLeast(times, 0.0)
    requires forall s :: df(s) > 0.0
  {
    if count == 0 then 0.0
    else FlowsPaidBy(times, flows, texp, dt, df, count - 1)
         + (if times[count - 1] <= texp then SnappedAmount(flows[count - 1], times[count - 1], dt, df) else 0.0)
  }

  /** Snapping moves flows without losing or creating any: the tree flows
      add up to the scaled flows paid by expiry, and they all sit at or
      before the expiry step. */
  lemma {:induction false} SnappedFlowsConserved(times: seq<real>, flows: seq<real>, texp: real, dt: real,
                                                 df: real -> real, rows: nat, count: nat)
    requires |flows| == |times| && count <= |times| && dt > 0.0 && AllAtLeast(times, 0.0)
    requires texp >= 0.0 && ExpiryStep(texp, dt) < rows
    requires forall s :: df(s) > 0.0
    ensures Sum(SnappedFlows(times, flows, texp, dt, df, rows, count)) == FlowsPaidBy(times, flows, texp, dt, df, count)
    ensures ZeroOutside(SnappedFlows(times, flows, texp, dt, df, rows, count), 0, ExpiryStep(texp, dt) + 1)
  {
    if count > 0 {
      SnappedFlowsConserved(times, flows, texp, dt, df, rows, count - 1);
      var prev := SnappedFlows(times, flows, texp, dt, df, rows, count - 1);
      var t := times[count - 1];
      if t <= texp {
        SnapWithinExpiry(t, texp, dt);
        SumOverAddAt(prev, SnapStep(t, dt), SnappedAmount(flows[count - 1], t, dt, df), 0, rows);
      }
    } else {
      SumOverOfZeros(Zeros(rows), 0, rows);
    }
  }

  /** One more coupon: snapped onto its step when paid by expiry. */
  lemma SnappedFlowsStep(times: seq<real>, flows: seq<real>, texp: real, dt: real, df: real -> real, rows: nat, count: nat)
    requires |flows| == |times| && count < |times| && dt > 0.0 && AllAtLeast(times, 0.0)
    requires texp >= 0.0 && ExpiryStep(texp, dt) < rows
    requires forall s :: df(s) > 0.0
    ensures times[count] <= texp ==> SnapStep(times[count], dt) < rows
    ensures SnappedFlows(times, flows, texp, dt, df, rows, count + 1)
            == if times[count] <= texp
               then AddAt(SnappedFlows(times, flows, texp, dt, df, rows, count), SnapStep(times[count], dt),
                          SnappedAmount(flows[count], times[count], dt, df))
               else SnappedFlows(times, flows, texp, dt, df, rows, count)
  {
    if times[count] <= texp {
      SnapWithinExpiry(times[count], texp, dt);
    }
  }

  /** The body of the loop of lines 340-347 for one coupon: a coupon paid by
      expiry adds its scaled amount to the step it is snapped to. */
  method SnapFlow(treeFlows: array<real>, flowTime: real, flow: real, texp: real, dt: real, df: real -> real)
    requires dt > 0.0 && 0.0 <= flowTime
    requires flowTime <= texp ==> SnapStep(flowTime, dt) < treeFlows.Length
    requires forall s :: df(s) > 0.0
    modifies treeFlows
    ensures treeFlows[..] == if flowTime <= texp
                             then AddAt(old(treeFlows[..]), SnapStep(flowTime, dt), SnappedAmount(flow, flowTime, dt, df))
                             else old(treeFlows[..])
  {
    if flowTime <= texp {
      var n := SnapStep(flowTime, dt);
      var dfFlow := df(flowTime);
      var dfTree := df(TreeTime(n, dt));
      var amount := flow * 1.0 * dfFlow / dfTree;
      assert amount == SnappedAmount(flow, flowTime, dt, df);
      treeFlows[n] := treeFlows[n] + amount;
    }
  }

  /** The treeFlows loop of lines 340-347. */
  method SnapFlows(times: seq<real>, flows: seq<real>, texp: real, dt: real, df: real -> real, rows: nat)
    returns (treeFlows: array<real>)
    requires |flows| == |times| && dt > 0.0 && AllAtLeast(times, 0.0)
    requires texp >= 0.0 && ExpiryStep(texp, dt) < rows
    requires forall s :: df(s) > 0.0
    ensures fresh(treeFlows)
    ensures treeFlows[..] == SnappedFlows(times, flows, texp, dt, df, rows, |times|)
  {
    treeFlows := new real[rows](_ => 0.0);
    assert treeFlows[..] == Zeros(rows);
    var i := 0;
    while i < |times|
      invariant 0 <= i <= |times|
      invariant treeFlows[..] == SnappedFlows(times, flows, texp, dt, df, rows, i)
    {
      SnappedFlowsStep(times, flows, texp, dt, df, rows, i);
      SnapFlow(treeFlows, times[i], flows[i], texp, dt, df);
      i := i + 1;
    }
  }

  /** Interest accrued at time t: in the first coupon period (scanning from
      the second coupon) that strictly contains t, the elapsed fraction of
      the period times the coupon, times face; zero when no period does. */
  function AccruedFrom(times: seq<real>, cpn: real, face: real, t: real, next: nat): real
    requires 1 <= next <= |times|
    decreases |times| - next
  {
    if next == |times| then 0.0
    else if t > times[next - 1] && t < times[next] then PeriodAccrual(times[next - 1], times[next], t, cpn, face)
    else AccruedFrom(times, cpn, face, t, next + 1)
  }

  /** The coupon accrued at t in the period (prev, nextTime), times face. */
  function PeriodAccrual(prev: real, nextTime: real, t: real, cpn: real, face: real): real
    requires prev < nextTime
  {
    (t - prev) * cpn * face / (nextTime - prev)
  }

  function Accrued(times: seq<real>, cpn: real, face: real, t: real): real
    requires |times| >= 1
  {
    AccruedFrom(times, cpn, face, t, 1)
  }

  /** The accrued interest lies between zero and one full coupon, short of
      the full coupon when that is positive, and it is non-zero only inside
      a coupon period. */
  lemma {:induction false} AccruedBounds(times: seq<real>, cpn: real, face: real, t: real, next: nat)
    requires 1 <= next <= |times| && cpn * face >= 0.0
    ensures 0.0 <= AccruedFrom(times, cpn, face, t, next) <= cpn * face
    ensures cpn * face > 0.0 ==> AccruedFrom(times, cpn, face, t, next) < cpn * face
    ensures AccruedFrom(times, cpn, face, t, next) != 0.0 ==>
              exists c :: next <= c < |times| && times[c - 1] < t < times[c]
    decreases |times| - next
  {
    if next < |times| {
      if t > times[next - 1] && t < times[next] {
        PeriodAccrualBounds(times[next - 1], times[next], t, cpn, face);
        assert next <= next < |times| && times[next - 1] < t < times[next];
      } else {
        AccruedBounds(times, cpn, face, t, next + 1);
      }
    }
  }

  /** The accrual strictly inside one coupon period (prev, nextTime) is
      between zero and a full coupon, and short of a positive one. */
  lemma PeriodAccrualBounds(prev: real, nextTime: real, t: real, cpn: real, face: real)
    requires prev < t < nextTime && cpn * face >= 0.0
    ensures 0.0 <= PeriodAccrual(prev, nextTime, t, cpn, face) <= cpn * face
    ensures cpn * face > 0.0 ==> PeriodAccrual(prev, nextTime, t, cpn, face) < cpn * face
  {
    var period := nextTime - prev;
    var frac := (t - prev) / period;
    assert period > 0.0 && 0.0 < t - prev < period;
    assert frac * period == t - prev;
    var rest := 1.0 - frac;
    assert rest * period == period - (t - prev);
    PositiveFactor(frac, period);
    PositiveFactor(rest, period);
    assert (t - prev) * cpn * face / period == frac * (cpn * face);
    MulBetween(frac, cpn * face);
    if cpn * face > 0.0 {
      var c := cpn * face;
      assert PeriodAccrual(prev, nextTime, t, cpn, face) == frac * c;
      assert c - frac * c == rest * c;
      MulPositive(rest, c);
    }
  }

  lemma PositiveFactor(x: real, p: real)
    requires p > 0.0 && x * p > 0.0
    ensures x > 0.0
  {
  }

  lemma MulPositive(x: real, y: real)
    requires x > 0.0 && y > 0.0
    ensures x * y > 0.0
  {
  }

  lemma MulBetween(f: real, c: real)
    requires 0.0 <= f <= 1.0 && c >= 0.0
    ensures 0.0 <= f * c <= c
  {
    assert c - f * c == (1.0 - f) * c;
  }

  /** At a coupon time, at the first time or outside the coupon schedule
      nothing is accrued, whatever the coupon. */
  lemma {:induction false} NothingAccruedOffPeriods(times: seq<real>, cpn: real, face: real, t: real, next: nat)
    requires 1 <= next <= |times|
    requires forall c :: next <= c < |times| ==> !(times[c - 1] < t < times[c])
    ensures AccruedFrom(times, cpn, face, t, next) == 0.0
    decreases |times| - next
  {
    if next < |times| {
      NothingAccruedOffPeriods(times, cpn, face, t, next + 1);
    }
  }

  /** The inner loop of lines 353-361 for one tree time: scan the coupon
      periods and stop at the first that contains t. */
  method AccruedAt(times: seq<real>, cpn: real, face: real, t: real) returns (accd: real)
    requires |times| >= 1
    ensures accd == Accrued(times, cpn, face, t)
  {
    accd := 0.0;
    var nextCpn := 1;
    while nextCpn < |times|
      invariant 1 <= nextCpn <= |times|
      invariant Accrued(times, cpn, face, t) == AccruedFrom(times, cpn, face, t, nextCpn)
    {
      var prevTime := times[nextCpn - 1];
      var nextTime := times[nextCpn];
      if t > prevTime && t < nextTime {
        var accdPeriod := t - prevTime;
        var period := nextTime - prevTime;
        accd := accdPeriod * cpn * face / period;
        return;
      }
      nextCpn := nextCpn + 1;
    }
  }

  /** accrued[m] for each step of a tree with `rows` steps: the interest
      accrued at tree time m*dt up to the expiry step e, zero after it. */
  function AccruedRow(times: seq<real>, cpn: real, face: real, dt: real, e: nat, rows: nat): (r: seq<real>)
    requires |times| >= 1
    ensures |r| == rows
  {
    seq(rows, m requires 0 <= m < rows => if m <= e then Accrued(times, cpn, face, TreeTime(m, dt)) else 0.0)
  }

  /** The outer loop of lines 350-361. */
  method Accrue(times: seq<real>, cpn: real, face: real, dt: real, e: nat, rows: nat) returns (accrued: array<real>)
    requires |times| >= 1 && e < rows
    ensures fresh(accrued)
    ensures accrued[..] == AccruedRow(times, cpn, face, dt, e, rows)
  {
    accrued := new real[rows](_ => 0.0);
    var m := 0;
    while m < e + 1
      invariant 0 <= m <= e + 1
      invariant forall c :: 0 <= c < rows ==>
                  accrued[c] == if c < m then Accrued(times, cpn, face, TreeTime(c, dt)) else 0.0
    {
      var treeTime := TreeTime(m, dt);
      accrued[m] := AccruedAt(times, cpn, face, treeTime);
      m := m + 1;
    }
  }
}
