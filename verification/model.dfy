/** The Hull-White rate model object (FinHullWhiteRateModel, lines
    98-506): its parameters, the calibrated tree it keeps once built, and
    the pricers and the read-back that use that tree.

    The discount curve is a positive function of time; exp and sqrt, used
    only to form the per-node factors exp(-j dR dt) with dR = sigma *
    sqrt(3 dt), are parameters of BuildTree. The closed-form zero-coupon
    prices P of lines 124-143 are inputs of the pricers, one per node (and
    per coupon). */
module HullWhite {

  import opened Sums
  import opened Branching
  import opened Lattice
  import opened Pricing
  import opened Flows
  import opened Backward
  import opened Expiry

  datatype Error =
    | NegativeVolatility     // lines 105-106
    | NegativeMeanReversion  // lines 108-109
    | ZeroDivision           // numTimeSteps == 0 (line 489) or a == 0 (line 19)
    | DriftUndefined         // log of sumQZ <= 0 (line 68)
    | ExpiryAfterMaturity    // lines 157-158, 249-250, 298-299
    | NegativeExpiry         // lines 160-161, 252-253, 301-302
    | TreeNotBuilt           // lines 163-164, 255-256; an unset attribute elsewhere
    | TreeTooShort           // lines 166-167, 258-259
    | CouponBeforeValuation  // lines 332-333
    | CouponAfterMaturity    // lines 335-336
    | ExpiryBeyondTree       // treeTimes read past its end (lines 344, 351)
    | NoFlowAfterExpiry      // zcb read before any assignment (lines 195, 384)
    | OffTreeGrid            // lines 472-473
    | StepBeyondTree         // Q read past its rows (line 479)

  datatype Result<T> = Success(value: T) | Failure(error: Error)

  /** The step length of buildTree: the tree runs one step past the
      maturity, over numTimeSteps + 1 steps (lines 489 and 17). */
  function TreeStep(maturity: real, numTimeSteps: nat): (dt: real)
    requires numTimeSteps >= 1
    ensures maturity > 0.0 ==> dt > 0.0
  {
    var treeMaturity := maturity * (numTimeSteps + 1) as real / numTimeSteps as real;
    assert maturity > 0.0 ==> treeMaturity > 0.0;
    treeMaturity / (numTimeSteps + 1) as real
  }

  /** The closed forms give node i of a grid of half-width jmax
      non-negative probabilities. */
  predicate NodeNonNegative(a: real, dt: real, i: nat, jmax: nat)
  {
    var j := i - jmax;
    NonNegativeBranching(KindOf(j, jmax), a * j as real * dt)
  }

  /** Every probability the closed forms give on the grid of half-width
      Jmax(a, dt) is non-negative. */
  predicate GridNonNegative(a: real, dt: real)
    requires a > 0.0 && dt > 0.0
  {
    forall i :: 0 <= i < 2 * Jmax(a, dt) + 1 ==> NodeNonNegative(a, dt, i, Jmax(a, dt))
  }

  lemma NodeFromFormulasNonNegative(up: real, mid: real, down: real, a: real, dt: real, i: nat, jmax: nat)
    requires NodeFromFormulas(up, mid, down, a, dt, i, jmax)
    ensures up >= 0.0 && mid >= 0.0 && down >= 0.0 <==> NodeNonNegative(a, dt, i, jmax)
  {
  }

  /** Probability arrays filled from the closed forms are non-negative
      exactly when the closed forms are on the grid. */
  lemma FormulaBranchesNonNegative(B: Branches, a: real, dt: real)
    requires a > 0.0 && dt > 0.0 && B.Wf() && B.jmax == Jmax(a, dt) && B.FromFormulas(a, dt)
    ensures B.NonNegative() <==> GridNonNegative(a, dt)
  {
    forall i | 0 <= i < |B.pu|
      ensures B.pu[i] >= 0.0 && B.pm[i] >= 0.0 && B.pd[i] >= 0.0 <==> NodeNonNegative(a, dt, i, B.jmax)
    {
      NodeFromFormulasNonNegative(B.pu[i], B.pm[i], B.pd[i], a, dt, i, B.jmax);
    }
  }

  /** numpy's reading of an index into an axis of length len: a negative
      index counts from the end. */
  function NumpyIndex(i: int, len: nat): int
  {
    if i < 0 then i + len else i
  }

  /** The grid test of lines 470-473: tmat/dt more than 1e-6 away from its
      truncation. */
  predicate OffGrid(x: real)
  {
    var d := x - Trunc(x) as real;
    d > 0.000001 || d < -0.000001
  }

  /** The row df_Tree sums, as written (line 475). */
  function DfTreeStep(tmat: real, dt: real): int
    requires dt > 0.0
  {
    Trunc(tmat / dt) + 1
  }

  /** The row of the tree time tmat: int(tmat/dt). */
  function TreeStepOf(tmat: real, dt: real): int
    requires dt > 0.0
  {
    Trunc(tmat / dt)
  }

  /** At a grid time k*dt the grid test passes and the tree time's row is
      k, but df_Tree reads row k+1, one step later. */
  lemma GridTimeRows(k: nat, dt: real)
    requires dt > 0.0
    ensures !OffGrid(TreeTime(k, dt) / dt)
    ensures TreeStepOf(TreeTime(k, dt), dt) == k
    ensures DfTreeStep(TreeTime(k, dt), dt) == k + 1
    ensures TreeTime(k + 1, dt) == TreeTime(k, dt) + dt
  {
    assert TreeTime(k, dt) / dt == k as real;
  }

  /** With dt = 0.5, df_Tree(1.0) sums the row of time 1.5. */
  lemma DfTreeReadsOneStepLate()
    ensures DfTreeStep(1.0, 0.5) == 3 && TreeTime(3, 0.5) == 1.5
    ensures TreeStepOf(1.0, 0.5) == 2 && TreeTime(2, 0.5) == 1.0
  {
    GridTimeRows(2, 0.5);
  }

  /** The discount factors at the tree times: df[0] = 1 and df[i] is the
      curve at i*dt (lines 492-497). */
  function TreeDiscountFactors(curve: real -> real, dt: real, count: nat): (r: seq<real>)
    ensures |r| == count
  {
    seq(count, i requires 0 <= i < count => if i == 0 then 1.0 else curve(TreeTime(i, dt)))
  }

  /** shift[j + jmax] = exp(-j dR dt), the factor of line 67, with the
      rate spacing dR = sigma sqrt(3 dt) of line 18. */
  function Shifts(exp: real -> real, sqrt: real -> real, sigma: real, dt: real, jmax: nat): (r: seq<real>)
    ensures |r| == 2 * jmax + 1
  {
    var dR := sigma * sqrt(3.0 * dt);
    seq(2 * jmax + 1, i requires 0 <= i < 2 * jmax + 1 => exp(-((i - jmax) as real) * dR * dt))
  }

  /** The coupon flows of bondOption: zero at time 0, then cpn per flow
      date (lines 321-327). */
  function CouponFlows(cpn: real, count: nat): (r: seq<real>)
    ensures |r| == count + 1
  {
    [0.0] + seq(count, _ => cpn)
  }

  predicate SomeBelow(s: seq<real>, bound: real)
  {
    exists i :: 0 <= i < |s| && s[i] < bound
  }

  predicate SomeAbove(s: seq<real>, bound: real)
  {
    exists i :: 0 <= i < |s| && s[i] > bound
  }

  /** A calibrated tree on a positive curve has positive discount factors
      at every occupied node the roll-back passes over. */
  lemma TreeDiscountsNonNegative(rows: seq<seq<real>>, zs: seq<seq<real>>, shift: seq<real>, df: seq<real>,
                                 k: nat, S: Induction)
    requires BuiltUpTo(rows, zs, S.B, shift, df, k) && S.Wf() && S.e <= k && S.disc == zs
    requires Positive(shift) && Positive(df)
    ensures DiscountsNonNegative(S)
  {
    forall m | 0 <= m < S.e
      ensures OccupiedNonNegative(S.disc[m], S.B.jmax, Occupied(m, S.B.jmax))
    {
      DiscountFactorsPositive(rows, zs, S.B, shift, df, k, m);
    }
  }

  /** A fresh array of zeros. */
  method NewValues(rows: nat, width: nat) returns (A: array2<real>)
    ensures fresh(A) && A.Length0 == rows && A.Length1 == width
    ensures forall r :: 0 <= r < rows ==> Row(A, r) == Zeros(width)
  {
    A := new real[rows, width]((_, _) => 0.0);
    forall r | 0 <= r < rows
      ensures Row(A, r) == Zeros(width)
    {
      assert forall c :: 0 <= c < width ==> Row(A, r)[c] == 0.0;
    }
  }

  /** The loop of lines 477-480: the total of row m. */
  method RowTotal(Q: array2<real>, m: nat) returns (p: real)
    requires m < Q.Length0
    ensures p == Sum(Row(Q, m))
  {
    ghost var row := Row(Q, m);
    p := 0.0;
    var i := 0;
    while i < Q.Length1
      invariant 0 <= i <= Q.Length1
      invariant p == SumOver(row, 0, i)
    {
      var ad := Q[m, i];
      assert ad == row[i];
      p := p + ad;
      i := i + 1;
    }
  }

  /** The expiry step of an expiry within the tree's horizon is a row of
      the tree. */
  lemma ExpiryStepOnTree(texp: real, dt: real, last: nat)
    requires dt > 0.0 && 0.0 <= texp <= TreeTime(last, dt)
    ensures ExpiryStep(texp, dt) <= last
  {
    assert TreeTime(last, dt) / dt == last as real;
    assert texp / dt <= TreeTime(last, dt) / dt;
  }

  /** What buildTree leaves in the model: a tree of at least three times
      on the grid of step dt, the closed-form probabilities, and the
      Arrow-Debreu prices and discount factors calibrated to the curve. */
  ghost predicate BuiltTree(a: real, dt: real, B: Branches, rows: seq<seq<real>>, zs: seq<seq<real>>,
                            treeTimes: seq<real>, df: seq<real>, shift: seq<real>, curve: real -> real)
  {
    && a > 0.0 && dt > 0.0 && B.jmax == Jmax(a, dt)
    && |rows| >= 3 && |zs| == |rows| && |treeTimes| == |rows| && |df| == |rows|
    && (forall i :: 0 <= i < |treeTimes| ==> treeTimes[i] == TreeTime(i, dt))
    && (forall s :: curve(s) > 0.0)
    && df == TreeDiscountFactors(curve, dt, |rows|)
    && B.Wf() && B.FromFormulas(a, dt)
    && Positive(df) && Positive(shift)
    && Calibrated(rows, zs, B, shift, df)
  }

  /** The Arrow-Debreu weighted call and put payoffs of the node values
      of one step, which satisfy put-call parity against the curve's
      discount factor dfe of that step and are non-negative when the
      probabilities are. */
  predicate PricesAgainstCurve(row: seq<real>, dfe: real, B: Branches, values: seq<real>, strike: real,
                               call: real, put: real)
    requires B.Wf() && |row| == |values|
  {
    && call == CallSum(row, values, strike, |values|)
    && put == PutSum(row, values, strike, |values|)
    && call - put == Dot(row, values, 0, |values|) - strike * dfe
    && (B.NonNegative() ==> call >= 0.0 && put >= 0.0)
  }

  /** Parity and sign of the tree prices of every step of a built tree. */
  lemma BuiltTreePrices(a: real, dt: real, B: Branches, rows: seq<seq<real>>, zs: seq<seq<real>>,
                        treeTimes: seq<real>, df: seq<real>, shift: seq<real>, curve: real -> real,
                        e: nat, values: seq<real>, strike: real)
    requires BuiltTree(a, dt, B, rows, zs, treeTimes, df, shift, curve) && e < |rows| && |values| == 2 * B.jmax + 1
    ensures |rows[e]| == |values|
    ensures PricesAgainstCurve(rows[e], if e == 0 then 1.0 else df[e], B, values, strike,
                               CallSum(rows[e], values, strike, |values|), PutSum(rows[e], values, strike, |values|))
  {
    FormulaBranchesSumToOne(B, a, dt);
    TreeParity(rows, zs, B, shift, df, |rows| - 1, e, values, strike);
  }

  /** The body of buildTree (lines 489-504): the tree times, the curve's
      discount factors at them, the factors exp(-j dR dt), and the tree
      fitted to them. */
  method FitTree(a: real, sigma: real, maturity: real, numTimeSteps: nat, discountCurve: real -> real,
                 exp: real -> real, sqrt: real -> real)
    returns (ok: bool, Q: array2<real>, disc: array2<real>, pu: array<real>, pm: array<real>, pd: array<real>,
             dt: real, jmax: nat, times: seq<real>, discountFactors: seq<real>, shifts: seq<real>)
    requires a > 0.0 && maturity > 0.0 && numTimeSteps >= 1
    requires forall t :: discountCurve(t) > 0.0
    requires forall x :: exp(x) > 0.0
    ensures fresh(Q) && fresh(disc) && fresh(pu) && fresh(pm) && fresh(pd)
    ensures dt == TreeStep(maturity, numTimeSteps) && dt > 0.0 && |times| == numTimeSteps + 2
    ensures jmax == Jmax(a, dt) && discountFactors == TreeDiscountFactors(discountCurve, dt, numTimeSteps + 2)
    ensures shifts == Shifts(exp, sqrt, sigma, dt, jmax)
    ensures Q.Length0 == numTimeSteps + 2 && Q.Length1 == 2 * jmax + 1 && Q != disc
    ensures disc.Length0 == Q.Length0 && disc.Length1 == Q.Length1
    ensures ok ==> BuiltTree(a, dt, Branches(jmax, pu[..], pm[..], pd[..]), Rows(Q), Rows(disc),
                             times, discountFactors, shifts, discountCurve)
    ensures GridNonNegative(a, dt) ==> ok
  {
    var treeMaturity := maturity * (numTimeSteps + 1) as real / numTimeSteps as real;
    var step := treeMaturity / (numTimeSteps + 1) as real;
    assert step == TreeStep(maturity, numTimeSteps);
    times := seq(numTimeSteps + 2, i requires 0 <= i => TreeTime(i, step));
    discountFactors := TreeDiscountFactors(discountCurve, step, numTimeSteps + 2);
    var J := Jmax(a, step);
    shifts := Shifts(exp, sqrt, sigma, step, J);
    ok, Q, pu, pm, pd, disc, dt, jmax := BuildTreeFast(a, treeMaturity, numTimeSteps, shifts, discountFactors);
    FormulaBranchesNonNegative(Branches(jmax, pu[..], pm[..], pd[..]), a, dt);
  }

  /** Every entry of the accrued row lies between zero and one full coupon,
      short of a positive full coupon. */
  lemma AccruedRowBounds(times: seq<real>, cpn: real, face: real, dt: real, e: nat, rows: nat)
    requires |times| >= 1
    ensures cpn * face >= 0.0 ==>
              forall m :: 0 <= m < rows ==> 0.0 <= AccruedRow(times, cpn, face, dt, e, rows)[m] <= cpn * face
    ensures cpn * face > 0.0 ==>
              forall m :: 0 <= m < rows ==> AccruedRow(times, cpn, face, dt, e, rows)[m] < cpn * face
  {
    var r := AccruedRow(times, cpn, face, dt, e, rows);
    if cpn * face >= 0.0 {
      forall m | 0 <= m < rows
        ensures 0.0 <= r[m] <= cpn * face
        ensures cpn * face > 0.0 ==> r[m] < cpn * face
      {
        if m <= e {
          AccruedBounds(times, cpn, face, TreeTime(m, dt), 1);
        }
      }
    }
  }

  /** The backward induction bondOption carries out over a tree with
      probabilities B and one-step discount factors zs, for coupons paid
      at couponTimes and an expiry texp: the flows snapped to the tree,
      the accrued interest up to the expiry step, and the seeded bond
      values there. */
  ghost function InductionOf(B: Branches, zs: seq<seq<real>>, couponTimes: seq<real>, couponFlows: seq<real>,
                             zcbs: seq<seq<real>>, texp: real, dt: real, curve: real -> real,
                             cpn: real, face: real, strike: real): (S: Induction)
    requires B.Wf() && dt > 0.0 && texp >= 0.0 && ExpiryStep(texp, dt) < |zs|
    requires forall m :: 0 <= m < |zs| ==> |zs[m]| == 2 * B.jmax + 1
    requires |couponFlows| == |couponTimes| && |couponTimes| >= 1 && AllAtLeast(couponTimes, 0.0)
    requires forall s :: curve(s) > 0.0
    requires ZcbShaped(zcbs, B.jmax, |couponTimes|)
    ensures S.Wf() && S.B == B && S.disc == zs && S.e == ExpiryStep(texp, dt) && S.face == face && S.strike == strike
    ensures S.flows == SnappedFlows(couponTimes, couponFlows, texp, dt, curve, |zs|, |couponTimes|)
    ensures S.accrued == AccruedRow(couponTimes, cpn, face, dt, S.e, |zs|)
    ensures S.seed == Seed(zcbs, couponTimes, TreeTime(S.e, dt), cpn, face, S.FlowAt(S.e), B.jmax, Occupied(S.e, B.jmax))
    ensures Sum(S.flows) == FlowsPaidBy(couponTimes, couponFlows, texp, dt, curve, |couponTimes|)
    ensures ZeroOutside(S.flows, 0, S.e + 1)
    ensures cpn * face >= 0.0 ==> forall m :: 0 <= m < |S.accrued| ==> 0.0 <= S.accrued[m] <= cpn * face
    ensures cpn * face > 0.0 ==> forall m :: 0 <= m < |S.accrued| ==> S.accrued[m] < cpn * face
  {
    var e := ExpiryStep(texp, dt);
    var flows := SnappedFlows(couponTimes, couponFlows, texp, dt, curve, |zs|, |couponTimes|);
    SnappedFlowsConserved(couponTimes, couponFlows, texp, dt, curve, |zs|, |couponTimes|);
    AccruedRowBounds(couponTimes, cpn, face, dt, e, |zs|);
    var flow := flows[e] * face;
    var S := Induction(B, zs, flows, AccruedRow(couponTimes, cpn, face, dt, e, |zs|), face, strike, e,
                       Seed(zcbs, couponTimes, TreeTime(e, dt), cpn, face, flow, B.jmax, Occupied(e, B.jmax)));
    assert S.FlowAt(S.e) == flow;
    S
  }

  /** The coupon times of bondOption, time 0 first, are non-negative when
      no flow precedes the valuation date. */
  lemma CouponTimesNonNegative(flowTimes: seq<real>)
    requires !SomeBelow(flowTimes, 0.0)
    ensures AllAtLeast([0.0] + flowTimes, 0.0)
  {
    forall i | 0 <= i < |[0.0] + flowTimes|
      ensures ([0.0] + flowTimes)[i] >= 0.0
    {
      if i > 0 {
        assert ([0.0] + flowTimes)[i] == flowTimes[i - 1];
      }
    }
  }

  /** Fresh bond and option value arrays (lines 364-366) with the expiry
      step e seeded (lines 371-395) and the earlier steps still zero. */
  method SeedExpiry(rows: nat, jmax: nat, zcbs: seq<seq<real>>, couponTimes: seq<real>, tExpiry: real,
                    cpn: real, face: real, flow: real, accrued: real, strike: real, e: nat,
                    ghost seed: seq<real>, ghost exercise: seq<real>)
    returns (bondValues: array2<real>, optionValues: array2<real>)
    requires e < rows && ZcbShaped(zcbs, jmax, |couponTimes|)
    requires seed == Seed(zcbs, couponTimes, tExpiry, cpn, face, flow, jmax, Occupied(e, jmax))
    requires exercise == ExerciseRow(seed, accrued, strike, jmax, Occupied(e, jmax))
    ensures fresh(bondValues) && fresh(optionValues) && bondValues != optionValues
    ensures bondValues.Length0 == rows && bondValues.Length1 == 2 * jmax + 1
    ensures optionValues.Length0 == rows && optionValues.Length1 == 2 * jmax + 1
    ensures Row(bondValues, e) == seed && Row(optionValues, e) == exercise
    ensures forall r :: 0 <= r < e ==> Row(bondValues, r) == Zeros(2 * jmax + 1) && Row(optionValues, r) == Zeros(2 * jmax + 1)
  {
    bondValues := NewValues(rows, 2 * jmax + 1);
    optionValues := NewValues(rows, 2 * jmax + 1);
    ghost var zeros := Rows(bondValues);
    SeedBonds(bondValues, zcbs, couponTimes, tExpiry, cpn, face, flow, jmax, e);
    assert Row(bondValues, e) == Rows(bondValues)[e];
    SeedOptions(optionValues, bondValues, seed, accrued, strike, jmax, e);
    assert Row(optionValues, e) == Rows(optionValues)[e];
    forall r | 0 <= r < e
      ensures Row(bondValues, r) == Zeros(2 * jmax + 1) && Row(optionValues, r) == Zeros(2 * jmax + 1)
    {
      assert Row(bondValues, r) == Rows(bondValues)[r] == zeros[r];
      assert Row(optionValues, r) == Rows(optionValues)[r];
    }
  }

  /** The arrays of bondOption (lines 341-458) over a built tree: the
      flows snapped to the tree, the accrued interest, the seeded expiry
      step and the roll-back to the root. S is the induction they carry
      out. */
  method BondOptionTree(disc: array2<real>, pu: array<real>, pm: array<real>, pd: array<real>, jmax: nat,
                        couponTimes: seq<real>, couponFlows: seq<real>, zcbs: seq<seq<real>>,
                        texp: real, tExpiry: real, dt: real, curve: real -> real, cpn: real, face: real, strike: real,
                        american: bool, ghost S: Induction)
    returns (option: real, bond: real)
    requires dt > 0.0 && texp >= 0.0 && ExpiryStep(texp, dt) < disc.Length0 && disc.Length1 == 2 * jmax + 1
    requires |couponFlows| == |couponTimes| && |couponTimes| >= 1 && AllAtLeast(couponTimes, 0.0)
    requires forall s :: curve(s) > 0.0
    requires ZcbShaped(zcbs, jmax, |couponTimes|) && tExpiry == TreeTime(ExpiryStep(texp, dt), dt)
    requires Branches(jmax, pu[..], pm[..], pd[..]).Wf()
    requires S == InductionOf(Branches(jmax, pu[..], pm[..], pd[..]), Rows(disc), couponTimes, couponFlows, zcbs, texp,
                              dt, curve, cpn, face, strike)
    ensures option == OptionValues(S, american, 0)[S.B.jmax] && bond == BondValues(S, 0)[S.B.jmax]
  {
    var rows := disc.Length0;
    var e := ExpiryStep(texp, dt);
    var treeFlows := SnapFlows(couponTimes, couponFlows, texp, dt, curve, rows);
    var accrued := Accrue(couponTimes, cpn, face, dt, e, rows);
    var flow := treeFlows[e] * face;
    var accruedAtExpiry := accrued[e];
    assert treeFlows[e] == S.flows[S.e] && accruedAtExpiry == S.accrued[S.e];
    assert flow == S.FlowAt(S.e);
    var bondValues, optionValues := SeedExpiry(rows, jmax, zcbs, couponTimes, tExpiry, cpn, face, flow,
                                               accruedAtExpiry, strike, e, S.seed, ExpiryOption(S));
    RollBackTree(bondValues, optionValues, disc, pu, pm, pd, jmax, treeFlows, accrued, face, strike, e, american, S);
    assert optionValues[0, jmax] == Row(optionValues, 0)[jmax] && bondValues[0, jmax] == Row(bondValues, 0)[jmax];
    option, bond := optionValues[0, jmax], bondValues[0, jmax];
  }

  class HullWhiteRateModel {

    const a: real
    const sigma: real

    /** Whether buildTree has run; the fields below hold its results. */
    var built: bool
    /** Arrow-Debreu prices, rows = time steps, columns = offsets j + jmax. */
    var Q: array2<real>
    /** One-step discount factors exp(-rt dt) of the short rates rt. */
    var disc: array2<real>
    var pu: array<real>
    var pm: array<real>
    var pd: array<real>
    var dt: real
    var jmax: nat
    var treeTimes: seq<real>
    /** The curve's discount factors at the tree times. */
    var df: seq<real>
    /** exp(-j dR dt) at each offset. */
    var shift: seq<real>
    /** The discount curve the tree was fitted to. */
    var curve: real -> real

    ghost function Probabilities(): Branches
      reads this, pu, pm, pd
    {
      Branches(jmax, pu[..], pm[..], pd[..])
    }

    ghost predicate Valid()
      reads this, Q, disc, pu, pm, pd
    {
      && sigma >= 0.0 && a >= 0.0
      && (built ==>
            && Q.Length1 == 2 * jmax + 1 && disc.Length0 == Q.Length0 && disc.Length1 == Q.Length1 && Q != disc
            && BuiltTree(a, dt, Probabilities(), Rows(Q), Rows(disc), treeTimes, df, shift, curve))
    }

    /** The tree's last time. */
    ghost function Horizon(): real
      reads this
      requires |treeTimes| >= 1
    {
      treeTimes[|treeTimes| - 1]
    }

    /** Lines 100-120 once the parameters have passed their checks. */
    constructor (a: real, sigma: real)
      requires a >= 0.0 && sigma >= 0.0
      ensures this.a == a && this.sigma == sigma && !built && Valid()
    {
      this.a := a;
      this.sigma := sigma;
      built := false;
      Q := new real[0, 0];
      disc := new real[0, 0];
      pu := new real[0];
      pm := new real[0];
      pd := new real[0];
      dt := 0.0;
      jmax := 0;
      treeTimes := [];
      df := [];
      shift := [];
      curve := _ => 1.0;
    }

    /** __init__ (lines 100-120): a negative volatility is refused first,
        then a negative mean reversion speed. */
    static method Create(a: real, sigma: real) returns (r: Result<HullWhiteRateModel>)
      ensures sigma < 0.0 ==> r == Failure(NegativeVolatility)
      ensures sigma >= 0.0 && a < 0.0 ==> r == Failure(NegativeMeanReversion)
      ensures sigma >= 0.0 && a >= 0.0 ==> r.Success?
      ensures r.Success? ==> fresh(r.value) && r.value.a == a && r.value.sigma == sigma
                             && !r.value.built && r.value.Valid()
    {
      if sigma < 0.0 {
        return Failure(NegativeVolatility);
      }
      if a < 0.0 {
        return Failure(NegativeMeanReversion);
      }
      var model := new HullWhiteRateModel(a, sigma);
      return Success(model);
    }

    /** buildTree (lines 486-504) with buildTreeFast (lines 14-93): a tree
        of numTimeSteps + 2 times from 0 to maturity * (n+1)/n, fitted to
        the curve. Fails, leaving the model as it was, when a division by
        zero (no steps, a zero mean reversion, or a zero maturity and so a
        zero step) or the logarithm of a non-positive sumQZ would stop the
        source; the latter cannot happen when the probabilities are
        non-negative. */
    method BuildTree(maturity: real, numTimeSteps: nat, discountCurve: real -> real,
                     exp: real -> real, sqrt: real -> real) returns (r: Result<()>)
      requires Valid() && maturity >= 0.0
      requires forall t :: discountCurve(t) > 0.0
      requires forall x :: exp(x) > 0.0
      modifies this
      ensures Valid()
      ensures numTimeSteps == 0 || a == 0.0 || maturity == 0.0 ==> r == Failure(ZeroDivision)
      ensures r.Failure? ==> unchanged(this)
      ensures numTimeSteps > 0 && a > 0.0 && maturity > 0.0 ==>
                (r.Success? || r == Failure(DriftUndefined))
                && (GridNonNegative(a, TreeStep(maturity, numTimeSteps)) ==> r.Success?)
      ensures r.Success? ==>
                && built && fresh(Q) && fresh(disc) && fresh(pu) && fresh(pm) && fresh(pd)
                && curve == discountCurve && dt == TreeStep(maturity, numTimeSteps)
                && |treeTimes| == numTimeSteps + 2 && jmax == Jmax(a, dt)
                && df == TreeDiscountFactors(discountCurve, dt, numTimeSteps + 2)
                && shift == Shifts(exp, sqrt, sigma, dt, jmax)
    {
      if numTimeSteps == 0 || a == 0.0 || maturity == 0.0 {
        return Failure(ZeroDivision);
      }
      var ok, Q', disc', pu', pm', pd', dt', jmax', times, discountFactors, shifts :=
        FitTree(a, sigma, maturity, numTimeSteps, discountCurve, exp, sqrt);
      if !ok {
        return Failure(DriftUndefined);
      }
      Install(Q', disc', pu', pm', pd', dt', jmax', times, discountFactors, shifts, discountCurve);
      return Success(());
    }

    /** Stores a built tree in the model. */
    method Install(Q': array2<real>, disc': array2<real>, pu': array<real>, pm': array<real>, pd': array<real>,
                   dt': real, jmax': nat, times: seq<real>, discountFactors: seq<real>, shifts: seq<real>,
                   discountCurve: real -> real)
      modifies this
      ensures Q == Q' && disc == disc' && pu == pu' && pm == pm' && pd == pd' && dt == dt' && jmax == jmax'
      ensures treeTimes == times && df == discountFactors && shift == shifts && curve == discountCurve && built
      ensures Rows(Q) == old(Rows(Q')) && Rows(disc) == old(Rows(disc'))
      ensures Probabilities() == old(Branches(jmax', pu'[..], pm'[..], pd'[..]))
    {
      InstallArrays(Q', disc', pu', pm', pd');
      InstallValues(dt', jmax', times, discountFactors, shifts, discountCurve);
    }

    method InstallArrays(Q': array2<real>, disc': array2<real>, pu': array<real>, pm': array<real>, pd': array<real>)
      modifies this
      ensures Q == Q' && disc == disc' && pu == pu' && pm == pm' && pd == pd' && jmax == old(jmax)
      ensures Rows(Q) == old(Rows(Q')) && Rows(disc) == old(Rows(disc'))
      ensures pu[..] == old(pu'[..]) && pm[..] == old(pm'[..]) && pd[..] == old(pd'[..])
    {
      Q, disc, pu, pm, pd := Q', disc', pu', pm', pd';
    }

    method InstallValues(dt': real, jmax': nat, times: seq<real>, discountFactors: seq<real>, shifts: seq<real>,
                         discountCurve: real -> real)
      modifies this
      ensures Q == old(Q) && disc == old(disc) && pu == old(pu) && pm == old(pm) && pd == old(pd)
      ensures dt == dt' && jmax == jmax' && treeTimes == times && df == discountFactors && shift == shifts
      ensures curve == discountCurve && built
      ensures Rows(Q) == old(Rows(Q)) && Rows(disc) == old(Rows(disc))
      ensures pu[..] == old(pu[..]) && pm[..] == old(pm[..]) && pd[..] == old(pd[..])
    {
      InstallGrid(dt', jmax', times);
      InstallCurve(discountFactors, shifts, discountCurve);
    }

    method InstallGrid(dt': real, jmax': nat, times: seq<real>)
      modifies this
      ensures Q == old(Q) && disc == old(disc) && pu == old(pu) && pm == old(pm) && pd == old(pd)
      ensures dt == dt' && jmax == jmax' && treeTimes == times
      ensures df == old(df) && shift == old(shift) && curve == old(curve) && built == old(built)
      ensures Rows(Q) == old(Rows(Q)) && Rows(disc) == old(Rows(disc))
      ensures pu[..] == old(pu[..]) && pm[..] == old(pm[..]) && pd[..] == old(pd[..])
    {
      dt, jmax, treeTimes := dt', jmax', times;
    }

    method InstallCurve(discountFactors: seq<real>, shifts: seq<real>, discountCurve: real -> real)
      modifies this
      ensures Q == old(Q) && disc == old(disc) && pu == old(pu) && pm == old(pm) && pd == old(pd)
      ensures df == discountFactors && shift == shifts && curve == discountCurve && built
      ensures dt == old(dt) && jmax == old(jmax) && treeTimes == old(treeTimes)
      ensures Rows(Q) == old(Rows(Q)) && Rows(disc) == old(Rows(disc))
      ensures pu[..] == old(pu[..]) && pm[..] == old(pm[..]) && pd[..] == old(pd[..])
    {
      df, shift, curve, built := discountFactors, shifts, discountCurve, true;
    }

    /** df_Tree (lines 462-482) as written: 1.0 at time 0, otherwise the
        total of row int(tmat/dt) + 1 of Q, which the calibration makes
        the curve's discount factor one step after tmat. The zero rate the
        source returns beside it is left out. */
    method DfTree(tmat: real) returns (r: Result<real>)
      requires Valid()
      ensures tmat == 0.0 ==> r == Success(1.0)
      ensures tmat != 0.0 && !built ==> r == Failure(TreeNotBuilt)
      ensures tmat != 0.0 && built && OffGrid(tmat / dt) ==> r == Failure(OffTreeGrid)
      ensures tmat != 0.0 && built && !OffGrid(tmat / dt) ==>
                var row := NumpyIndex(DfTreeStep(tmat, dt), Q.Length0);
                if 0 <= row < Q.Length0 then r == Success(Sum(Row(Q, row))) && r.value == df[row]
                else r == Failure(StepBeyondTree)
    {
      if tmat == 0.0 {
        return Success(1.0);
      }
      if !built {
        return Failure(TreeNotBuilt);
      }
      var fn1 := tmat / dt;
      var fn2 := Trunc(tmat / dt) as real;
      if fn1 - fn2 > 0.000001 || fn1 - fn2 < -0.000001 {
        return Failure(OffTreeGrid);
      }
      var timeStep := NumpyIndex(Trunc(tmat / dt) + 1, Q.Length0);
      if !(0 <= timeStep < Q.Length0) {
        return Failure(StepBeyondTree);
      }
      var p := RowTotal(Q, timeStep);
      FormulaBranchesSumToOne(Probabilities(), a, dt);
      RowSum(Rows(Q), Rows(disc), Probabilities(), shift, df, Q.Length0 - 1, timeStep);
      assert Row(Q, timeStep) == Rows(Q)[timeStep];
      return Success(p);
    }

    /** df_Tree as evidently intended: the total of row int(tmat/dt), the
        curve's discount factor at that tree time, which is tmat itself on
        the grid. */
    method TreeDiscountFactor(tmat: real) returns (r: Result<real>)
      requires Valid()
      ensures tmat == 0.0 ==> r == Success(1.0)
      ensures tmat != 0.0 && !built ==> r == Failure(TreeNotBuilt)
      ensures tmat != 0.0 && built && OffGrid(tmat / dt) ==> r == Failure(OffTreeGrid)
      ensures tmat != 0.0 && built && !OffGrid(tmat / dt) ==>
                var row := TreeStepOf(tmat, dt);
                if 0 <= row < Q.Length0 then r == Success(Sum(Row(Q, row)))
                else r == Failure(StepBeyondTree)
      ensures r.Success? && built ==> r.value == (if tmat == 0.0 then 1.0 else df[TreeStepOf(tmat, dt)])
      ensures r.Success? && built && 0 < TreeStepOf(tmat, dt) && tmat == TreeTime(TreeStepOf(tmat, dt), dt) ==>
                r.value == curve(tmat)
    {
      if tmat == 0.0 {
        return Success(1.0);
      }
      if !built {
        return Failure(TreeNotBuilt);
      }
      var fn1 := tmat / dt;
      var fn2 := Trunc(tmat / dt) as real;
      if fn1 - fn2 > 0.000001 || fn1 - fn2 < -0.000001 {
        return Failure(OffTreeGrid);
      }
      var timeStep := Trunc(tmat / dt);
      if !(0 <= timeStep < Q.Length0) {
        return Failure(StepBeyondTree);
      }
      var p := RowTotal(Q, timeStep);
      FormulaBranchesSumToOne(Probabilities(), a, dt);
      RowSum(Rows(Q), Rows(disc), Probabilities(), shift, df, Q.Length0 - 1, timeStep);
      assert Row(Q, timeStep) == Rows(Q)[timeStep];
      return Success(p);
    }

    /** The input checks the tree pricers share (lines 157-167 and
        249-259), in the source's order; Success when all pass. */
    function PricerCheck(texp: real, tmat: real): (r: Result<()>)
      reads this
    {
      if texp > tmat then Failure(ExpiryAfterMaturity)
      else if texp < 0.0 then Failure(NegativeExpiry)
      else if !built || |treeTimes| == 0 then Failure(TreeNotBuilt)
      else if treeTimes[|treeTimes| - 1] < texp then Failure(TreeTooShort)
      else Success(())
    }

    /** The prices a tree pricer returns, from the payoffs of the node
        values at the expiry step e. */
    ghost predicate TreePrices(e: nat, values: seq<real>, strike: real, call: real, put: real)
      reads this, Q, disc, pu, pm, pd
      requires Valid() && built && e < Q.Length0 && |values| == Q.Length1
    {
      PricesAgainstCurve(Row(Q, e), if e == 0 then 1.0 else df[e], Probabilities(), values, strike, call, put)
    }

    lemma TreePricesHold(e: nat, values: seq<real>, strike: real, call: real, put: real)
      requires Valid() && built && e < Q.Length0 && |values| == Q.Length1
      requires call == CallSum(Row(Q, e), values, strike, |values|)
      requires put == PutSum(Row(Q, e), values, strike, |values|)
      ensures TreePrices(e, values, strike, call, put)
    {
      var rows := Rows(Q);
      assert Row(Q, e) == rows[e];
      BuiltTreePrices(a, dt, Probabilities(), rows, Rows(disc), treeTimes, df, shift, curve, e, values, strike);
    }

    /** europeanOptionOnZeroCouponBond_Tree (lines 239-282): call and put
        on a zero-coupon bond from the Arrow-Debreu prices of the expiry
        step; zcbs[k] is the bond's price P at node k of that step. */
    method EuropeanOptionOnZeroCouponBondTree(texp: real, tmat: real, strike: real, face: real, zcbs: seq<real>)
      returns (r: Result<(real, real)>)
      requires Valid() && |zcbs| == Q.Length1
      ensures r.Failure? <==> PricerCheck(texp, tmat).Failure?
      ensures r.Failure? ==> r.error == PricerCheck(texp, tmat).error
      ensures r.Success? ==> built && ExpiryStep(texp, dt) < Q.Length0
                             && TreePrices(ExpiryStep(texp, dt), seq(|zcbs|, k requires 0 <= k < |zcbs| => zcbs[k] * face),
                                           strike, r.value.0, r.value.1)
    {
      var check := PricerCheck(texp, tmat);
      if check.Failure? {
        return Failure(check.error);
      }
      var last := |treeTimes| - 1;
      ExpiryStepOnTree(texp, dt, last);
      var e := ExpiryStep(texp, dt);
      var values := seq(|zcbs|, k requires 0 <= k < |zcbs| => zcbs[k] * face);
      var call, put := ExpectedPayoffs(Q, e, values, strike);
      TreePricesHold(e, values, strike, call, put);
      return Success((call, put));
    }

    /** europeanBondOption (lines 147-202): call and put on a coupon bond;
        zcbs[k][f] is the price P at node k of the expiry step of the f-th
        flow after expiry. Without such a flow the source reads zcb before
        it is assigned. */
    method EuropeanBondOption(texp: real, tmat: real, strike: real, face: real, cpn: real,
                              flowCount: nat, zcbs: seq<seq<real>>)
      returns (r: Result<(real, real)>)
      requires Valid() && |zcbs| == Q.Length1 && forall k :: 0 <= k < |zcbs| ==> |zcbs[k]| == flowCount
      ensures PricerCheck(texp, tmat).Failure? ==> r == Failure(PricerCheck(texp, tmat).error)
      ensures PricerCheck(texp, tmat).Success? && flowCount == 0 ==> r == Failure(NoFlowAfterExpiry)
      ensures r.Success? <==> PricerCheck(texp, tmat).Success? && flowCount > 0
      ensures r.Success? ==> built && ExpiryStep(texp, dt) < Q.Length0
                             && TreePrices(ExpiryStep(texp, dt), BondValuesAt(zcbs, cpn, face), strike, r.value.0, r.value.1)
    {
      var check := PricerCheck(texp, tmat);
      if check.Failure? {
        return Failure(check.error);
      }
      if flowCount == 0 {
        return Failure(NoFlowAfterExpiry);
      }
      var last := |treeTimes| - 1;
      ExpiryStepOnTree(texp, dt, last);
      var e := ExpiryStep(texp, dt);
      var call, put := BondPayoffs(Q, e, zcbs, cpn, face, strike);
      TreePricesHold(e, BondValuesAt(zcbs, cpn, face), strike, call, put);
      return Success((call, put));
    }

    /** The input checks of bondOption (lines 298-302 and 332-336, then
        the reads of lines 344-351 and 384), in the source's order. */
    function BondOptionCheck(texp: real, tmat: real, flowTimes: seq<real>): (r: Result<()>)
      reads this
    {
      if texp > tmat then Failure(ExpiryAfterMaturity)
      else if texp < 0.0 then Failure(NegativeExpiry)
      else if !built || dt <= 0.0 then Failure(TreeNotBuilt)
      else if SomeBelow(flowTimes, 0.0) then Failure(CouponBeforeValuation)
      else if SomeAbove(flowTimes, tmat) then Failure(CouponAfterMaturity)
      else if ExpiryStep(texp, dt) >= |treeTimes| then Failure(ExpiryBeyondTree)
      else if !PaidAfter([0.0] + flowTimes, TreeTime(ExpiryStep(texp, dt), dt)) then Failure(NoFlowAfterExpiry)
      else Success(())
    }

    /** What the backward induction of bondOption reads, from the tree and
        the bond: the snapped flows, the accrued interest and the seeded
        bond values at the expiry step. */
    ghost function BondOptionInputs(texp: real, strike: real, face: real, cpn: real, flowTimes: seq<real>,
                                    zcbs: seq<seq<real>>): (S: Induction)
      reads this, Q, disc, pu, pm, pd
      requires Valid() && built && 0.0 <= texp && !SomeBelow(flowTimes, 0.0) && ExpiryStep(texp, dt) < Q.Length0
      requires ZcbShaped(zcbs, jmax, |flowTimes| + 1)
      ensures S.Wf() && S.B == Probabilities() && S.disc == Rows(disc)
    {
      CouponTimesNonNegative(flowTimes);
      InductionOf(Probabilities(), Rows(disc), [0.0] + flowTimes, CouponFlows(cpn, |flowTimes|), zcbs, texp, dt, curve,
                  cpn, face, strike)
    }

    /** What bondOption returns: the first failing input check in the
        source's order, or the option value and the bond value at the
        root of the backward induction. */
    ghost function BondOptionValue(texp: real, tmat: real, strike: real, face: real, cpn: real, flowTimes: seq<real>,
                                   zcbs: seq<seq<real>>, american: bool): (r: Result<(real, real)>)
      reads this, Q, disc, pu, pm, pd
      requires Valid() && ZcbShaped(zcbs, jmax, |flowTimes| + 1)
      ensures r.Failure? <==> BondOptionCheck(texp, tmat, flowTimes).Failure?
    {
      var check := BondOptionCheck(texp, tmat, flowTimes);
      if check.Failure? then Failure(check.error)
      else
        var S := BondOptionInputs(texp, strike, face, cpn, flowTimes, zcbs);
        Success((OptionValues(S, american, 0)[S.B.jmax], BondValues(S, 0)[S.B.jmax]))
    }

    /** bondOption (lines 286-458) over the calibrated tree. zcbs[k][i] is
        the price P at node k of the expiry step of the i-th coupon time,
        counting the time-0 entry the source prepends. */
    method BondOption(texp: real, tmat: real, strike: real, face: real, cpn: real, flowTimes: seq<real>,
                      zcbs: seq<seq<real>>, american: bool)
      returns (r: Result<(real, real)>)
      requires Valid() && ZcbShaped(zcbs, jmax, |flowTimes| + 1)
      ensures r == old(BondOptionValue(texp, tmat, strike, face, cpn, flowTimes, zcbs, american))
    {
      var check := BondOptionCheck(texp, tmat, flowTimes);
      if check.Failure? {
        return Failure(check.error);
      }
      var e := ExpiryStep(texp, dt);
      var couponTimes := [0.0] + flowTimes;
      var couponFlows := CouponFlows(cpn, |flowTimes|);
      ghost var S := BondOptionInputs(texp, strike, face, cpn, flowTimes, zcbs);
      var option, bond := BondOptionTree(disc, pu, pm, pd, jmax, couponTimes, couponFlows, zcbs, texp, treeTimes[e], dt,
                                         curve, cpn, face, strike, american, S);
      return Success((option, bond));
    }

    /** The European and the American option fail on the same inputs and
        price the same bond, and with non-negative probabilities the
        European value is non-negative and early exercise never lowers it. */
    lemma BondOptionValueProperties(texp: real, tmat: real, strike: real, face: real, cpn: real,
                                    flowTimes: seq<real>, zcbs: seq<seq<real>>)
      requires Valid() && ZcbShaped(zcbs, jmax, |flowTimes| + 1)
      ensures var european := BondOptionValue(texp, tmat, strike, face, cpn, flowTimes, zcbs, false);
              var american := BondOptionValue(texp, tmat, strike, face, cpn, flowTimes, zcbs, true);
              && (european.Success? <==> american.Success?)
              && (european.Success? ==> european.value.1 == american.value.1)
              && (european.Success? && Probabilities().NonNegative() ==>
                    0.0 <= european.value.0 <= american.value.0)
    {
      if BondOptionCheck(texp, tmat, flowTimes).Success? {
        var S := BondOptionInputs(texp, strike, face, cpn, flowTimes, zcbs);
        var eu := OptionValues(S, false, 0)[S.B.jmax];
        var am := OptionValues(S, true, 0)[S.B.jmax];
        assert BondOptionValue(texp, tmat, strike, face, cpn, flowTimes, zcbs, false)
            == Success((eu, BondValues(S, 0)[S.B.jmax]));
        assert BondOptionValue(texp, tmat, strike, face, cpn, flowTimes, zcbs, true)
            == Success((am, BondValues(S, 0)[S.B.jmax]));
        BondOptionProperties(S, false, eu);
        BondOptionProperties(S, true, am);
      }
    }

    /** The root value's relation to the forward price, its sign, and early
        exercise never lowering it. */
    lemma BondOptionProperties(S: Induction, american: bool, value: real)
      requires Valid() && built && S.Wf() && S.B == Probabilities() && S.disc == Rows(disc) && S.e < Q.Length0
      requires value == OptionValues(S, american, 0)[S.B.jmax]
      ensures !american ==> value == Dot(Row(Q, S.e), ExpiryOption(S), 0, 2 * S.B.jmax + 1)
      ensures S.B.NonNegative() ==> value >= 0.0
      ensures S.B.NonNegative() && american ==> value >= OptionValues(S, false, 0)[S.B.jmax]
    {
      var k := Q.Length0 - 1;
      assert Row(Q, S.e) == Rows(Q)[S.e];
      EuropeanRootIsForwardPrice(Rows(Q), Rows(disc), shift, df, k, S);
      if Probabilities().NonNegative() {
        TreeDiscountsNonNegative(Rows(Q), Rows(disc), shift, df, k, S);
        OptionValuesNonNegative(S, american, 0);
        AmericanAtLeastEuropean(S, 0);
      }
    }
  }
}
