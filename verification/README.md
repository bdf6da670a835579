# Hull-White trinomial short-rate tree

A Dafny model of the trinomial tree of the one-factor Hull-White short-rate
model in `financepy/models/FinHullWhiteRateModel.py` (FinancePy). It covers:

- building the tree and fitting it to a discount curve (`buildTreeFast`,
  `buildTree`);
- reading a discount factor back from the tree (`df_Tree`);
- the two forward tree pricers (`europeanBondOption`,
  `europeanOptionOnZeroCouponBond_Tree`);
- the backward induction of `bondOption`, for European and American
  exercise.

The modules follow the stages of the source:

| module | file | what it holds |
|---|---|---|
| `Sums` | sums.dfy | left-to-right sums and dot products over tree rows |
| `Branching` | branching.dfy | `jmax`, the three closed forms for (pu, pm, pd), the edge and interior branching |
| `Propagation` | propagation.dfy | one forward step of the Arrow-Debreu prices Q, as a function on rows |
| `Lattice` | lattice.dfy | the arrays Q and the node discount factors, the calibration loop of `buildTreeFast` |
| `Pricing` | pricing.dfy | the payoff loops of the two forward pricers |
| `Flows` | flows.dfy | the expiry step, coupon flows snapped to tree steps, accrued interest |
| `Expiry` | expiry.dfy | the bond and option values at the expiry step |
| `Backward` | backward.dfy | the backward induction, as functions on rows and as array loops |
| `HullWhite` | model.dfy | the model class `HullWhiteRateModel`, its error cases and its operations |

How the model represents the source:

- **State.** `HullWhiteRateModel` is a class. `buildTree` replaces its tree
  in place.
- **Arrays and loops.** The tree's arrays are Dafny arrays. Every loop of
  the source is a `while` loop proved against a function on sequences. The
  main properties are lemmas about those functions.
- **Errors.** Each `FinError` the source raises, and each Python failure it
  runs into (a division by zero, an unset attribute, an index past the
  end, a variable read before it is set), is a `Failure` of the `Result`
  type.

Short rates do not appear directly:

- The model never stores the rate r[m,j]. The source uses it only through
  the node's one-step discount factor exp(-r[m,j] dt), so the model stores
  that factor.
- With alpha[m] = log(sumQZ / df[m+1]) / dt, the factor equals
  shift[j] * df[m+1] / sumQZ, where shift[j] = exp(-j dR dt).
- `BuildTree` receives the discount curve and `exp` as positive functions,
  and `sqrt` as a function.

The closed-form zero-coupon price `P` is outside the model. The pricers
instead receive its value at each node of the expiry step, one per node
and coupon.

In these places the model does what the code does, where a reader might
expect otherwise:

- The forward pricers sum the payoffs over every node of the expiry step,
  not only the occupied ones. The unoccupied nodes carry a zero
  Arrow-Debreu price.
- The expiry step is int(texp/dt + 0.5), not round(texp/dt). The two
  differ at exact halves: `Flows.RoundHalfEvenBelowHalfUp`.

In two places the model corrects the code. Each is a row under Findings,
with one member for the code as written and one for the correction:

- `df_Tree` reads the row one step after the requested time. The model's
  tree discount factor reads the row at the requested time.
- At the bottom edge the rollback repeats the top-edge test `k == jmax`.
  The model's rollback uses `k == -jmax` instead, so the bottom node reads
  the same children as in the forward induction.

## Model

| member | source | states |
|---|---|---|
| Branching.Jmax | financepy/models/FinHullWhiteRateModel.py:19 | jmax is the least integer with jmax >= 0.1835/(a dt), and is at least 1 |
| Branching.BranchingMatchesMeanReversion | financepy/models/FinHullWhiteRateModel.py:35-49 | for the top, bottom and interior formulas the probabilities sum to one, the mean move is -a j dt and the second moment is 1/3 + (a j dt)^2 |
| Branching.BranchTargetsOnGrid | financepy/models/FinHullWhiteRateModel.py:80-91 | each of the three children of an occupied node of step m lies inside the occupied band of step m+1, which stays inside the grid |
| Branching.NonNegativeBranchingExactly | financepy/models/FinHullWhiteRateModel.py:35-49 | the three probabilities of a node are all non-negative exactly when a quadratic condition on a j dt holds (one per node kind) |
| Branching.SourceScaleAdmitsNegativeMiddle | financepy/models/FinHullWhiteRateModel.py:19-40 | with the scale 0.1835 and a dt = 0.1835, jmax is 1 and the top node's middle probability is negative |
| Branching.HullWhiteScaleKeepsBranchingNonNegative | financepy/models/FinHullWhiteRateModel.py:19-49 | with jmax the ceiling of 0.184/(a dt) and a dt <= 1.6, every node's probabilities are non-negative |
| Branching.FormulaBranchesSumToOne | financepy/models/FinHullWhiteRateModel.py:35-49 | probability arrays filled from the formulas sum to one at every offset |
| Propagation.NodeShares | financepy/models/FinHullWhiteRateModel.py:80-91 | one node's forward step adds Q p z to exactly its three children (j, j-1, j-2 at the top, j, j+1, j+2 at the bottom, j+1, j, j-1 inside), and the three shares add up to Q z |
| Propagation.AddNodeMass | financepy/models/FinHullWhiteRateModel.py:80-91 | one node's forward step raises the next row's total by Q z |
| Propagation.ScatterMass | financepy/models/FinHullWhiteRateModel.py:75-91 | propagating a range of nodes raises the next row's total by the sum of Q z over the range |
| Propagation.SpreadConservesMass | financepy/models/FinHullWhiteRateModel.py:75-91 | the next row's total equals the sum of Q[m,j] z[m,j] over the occupied nodes of step m |
| Propagation.SpreadSupport | financepy/models/FinHullWhiteRateModel.py:63-91 | the next row is zero outside the band of min(m+1, jmax) nodes either side of the centre |
| Propagation.SpreadNonNegative | financepy/models/FinHullWhiteRateModel.py:75-91 | non-negative probabilities, prices and factors give a non-negative next row |
| Lattice.Occupied | financepy/models/FinHullWhiteRateModel.py:63 | the occupied half-width min(m, jmax) is bounded by both m and jmax |
| Lattice.RowOccupancy | financepy/models/FinHullWhiteRateModel.py:58-91 | every built row of Q is zero outside the occupied band of its step |
| Lattice.CalibrationCondition | financepy/models/FinHullWhiteRateModel.py:64-78 | after fitting step m, the sum of Q[m,j] exp(-r[m,j] dt) over the occupied nodes equals the curve's discount factor df[m+1] |
| Lattice.CalibratedRowSum | financepy/models/FinHullWhiteRateModel.py:64-78 | a row whose factors meet the drift condition prices df[m+1] exactly |
| Lattice.RowSum | financepy/models/FinHullWhiteRateModel.py:52-91 | the Arrow-Debreu prices of step m sum to the curve's discount factor df[m] (1 at step 0), so the tree reprices the curve |
| Lattice.DiscountFactorsPositive | financepy/models/FinHullWhiteRateModel.py:64-78 | the fitted node factors exp(-r dt) are positive at every occupied node |
| Lattice.RowNonNegative | financepy/models/FinHullWhiteRateModel.py:75-91 | with non-negative probabilities every row of Arrow-Debreu prices is non-negative |
| Lattice.DriftDefined | financepy/models/FinHullWhiteRateModel.py:64-68 | with non-negative probabilities sumQZ is positive, so the logarithm of line 68 is defined |
| Lattice.ComputeProbabilities | financepy/models/FinHullWhiteRateModel.py:23-49 | the loop fills pu, pm, pd with the top, bottom and interior formulas at every offset |
| Lattice.RowDot | financepy/models/FinHullWhiteRateModel.py:64-67 | the accumulator loop returns the dot product of a row of Q with the given weights |
| Lattice.FittedRowCalibrated | financepy/models/FinHullWhiteRateModel.py:68-78 | the factors shift[j] df[m+1] / sumQZ satisfy the drift condition of step m |
| Lattice.ExtendBuild | financepy/models/FinHullWhiteRateModel.py:61-91 | a fitted step followed by a forward step extends a tree built up to m into one built up to m+1 |
| Lattice.SetDiscountRow | financepy/models/FinHullWhiteRateModel.py:68-78 | the loop writes the fitted factors into row m and changes nothing else |
| Lattice.PushNode | financepy/models/FinHullWhiteRateModel.py:80-91 | one node's three updates of Q[m+1] produce the row function's result and touch no other row |
| Lattice.Propagate | financepy/models/FinHullWhiteRateModel.py:75-91 | the loop over the occupied nodes turns the zero row m+1 into the forward step of row m and leaves the other rows unchanged |
| Lattice.NewLattice | financepy/models/FinHullWhiteRateModel.py:52-58 | Q starts with 1 at the centre of step 0 and zeros elsewhere |
| Lattice.FitAndPropagate | financepy/models/FinHullWhiteRateModel.py:68-91 | fitting and propagating step m change exactly row m of the factors and row m+1 of Q |
| Lattice.CalibrateStep | financepy/models/FinHullWhiteRateModel.py:61-91 | one pass of the big loop extends the built tree by one step, and cannot fail when the probabilities are non-negative |
| Lattice.Calibrate | financepy/models/FinHullWhiteRateModel.py:61-91 | on success every step is fitted to the curve and propagated; with non-negative probabilities it always succeeds |
| Lattice.BuildTreeFast | financepy/models/FinHullWhiteRateModel.py:14-93 | returns dt = T/(n+1), jmax, probabilities from the formulas and, on success, a calibrated tree of n+2 steps; success is certain when the probabilities are non-negative |
| Pricing.PayoffParity | financepy/models/FinHullWhiteRateModel.py:197-200 | the summed call payoffs minus the summed put payoffs equal the summed values minus strike times the summed weights |
| Pricing.PayoffSumsNonNegative | financepy/models/FinHullWhiteRateModel.py:197-200 | with non-negative weights both payoff sums are non-negative |
| Pricing.TreeParity | financepy/models/FinHullWhiteRateModel.py:270-282 | on a built tree, call minus put equals the Arrow-Debreu value of the payoff underlier minus strike times the curve's discount factor to expiry (put-call parity); both are non-negative when the probabilities are |
| Pricing.ExpectedPayoffs | financepy/models/FinHullWhiteRateModel.py:273-282 | the loop returns the call and put sums over all nodes of the expiry step |
| Pricing.BondPresentValue | financepy/models/FinHullWhiteRateModel.py:190-195 | the node value is the coupon on every flow plus the principal at the last flow, each priced by its zero-coupon price |
| Pricing.CouponsAndPrincipal | financepy/models/FinHullWhiteRateModel.py:190-195 | the coupons plus the last zero-coupon price equal the cash flows weighted by the zero-coupon prices |
| Pricing.CouponsAreDot | financepy/models/FinHullWhiteRateModel.py:191-194 | the coupon loop equals the dot product of the flows with the zero-coupon prices |
| Pricing.BondPayoffs | financepy/models/FinHullWhiteRateModel.py:186-200 | the node loop returns the call and put sums on the coupon bond's node values |
| Pricing.PayoffStep | financepy/models/FinHullWhiteRateModel.py:186-200 | one node's pass adds that node's weighted payoffs to both sums |
| Pricing.NodeBondValue | financepy/models/FinHullWhiteRateModel.py:190-195 | the inner loop computes the node's bond value |
| Flows.Trunc | financepy/models/FinHullWhiteRateModel.py:471 | int() truncates toward zero |
| Flows.RoundHalfEven | financepy/models/FinHullWhiteRateModel.py:343 | round() picks a nearest integer, the even one at a tie |
| Flows.RoundHalfEvenBelowHalfUp | financepy/models/FinHullWhiteRateModel.py:343 | round(x) is never above floor(x + 0.5), so snapping with round never lands past the step int(x + 0.5) would pick |
| Flows.ExpiryStep | financepy/models/FinHullWhiteRateModel.py:315 | for texp >= 0 the expiry step is non-negative and within half a step of texp/dt |
| Flows.SnapWithinExpiry | financepy/models/FinHullWhiteRateModel.py:340-344 | a flow paid at or before expiry lands on a step between 0 and the expiry step |
| Flows.SnappedFlowsConserved | financepy/models/FinHullWhiteRateModel.py:338-347 | the snapped flows add up to the curve-adjusted flows paid by expiry, and are zero after the expiry step |
| Flows.SnappedFlowsStep | financepy/models/FinHullWhiteRateModel.py:340-347 | handling one more coupon adds its curve-adjusted flow at its snapped step if it is paid by expiry, and changes nothing otherwise |
| Flows.SnapFlow | financepy/models/FinHullWhiteRateModel.py:341-347 | the body of the coupon loop updates treeFlows as the row function says |
| Flows.SnapFlows | financepy/models/FinHullWhiteRateModel.py:338-347 | the loop leaves treeFlows equal to the snapped flows of all coupons |
| Flows.AccruedBounds | financepy/models/FinHullWhiteRateModel.py:352-361 | the accrued interest lies between 0 and cpn face, strictly below cpn face when that is positive, and is non-zero only strictly inside a coupon period |
| Flows.PeriodAccrualBounds | financepy/models/FinHullWhiteRateModel.py:356-359 | inside a period the linear proration lies between 0 and cpn face, strictly below cpn face when that is positive |
| Flows.NothingAccruedOffPeriods | financepy/models/FinHullWhiteRateModel.py:352-361 | a tree time strictly inside no coupon period accrues nothing |
| Flows.AccruedAt | financepy/models/FinHullWhiteRateModel.py:353-361 | the search loop with its break returns the accrued interest of the first period containing the time |
| Flows.Accrue | financepy/models/FinHullWhiteRateModel.py:349-361 | the loop fills accrued for the steps up to expiry and leaves the rest zero |
| Expiry.LastAfterIsMaturity | financepy/models/FinHullWhiteRateModel.py:377-384 | when the last coupon is paid after expiry, the zero-coupon price the principal uses is the last coupon's |
| Expiry.PaidAfterLast | financepy/models/FinHullWhiteRateModel.py:377-384 | with increasing coupon times, some coupon is paid after t exactly when the last one is |
| Expiry.CouponsAfterNonNegative | financepy/models/FinHullWhiteRateModel.py:376-384 | non-negative prices, coupon and face give non-negative coupon and principal values |
| Expiry.NodeBondPrice | financepy/models/FinHullWhiteRateModel.py:376-384 | the inner loop computes the node's coupons after expiry plus its principal |
| Expiry.SeedBonds | financepy/models/FinHullWhiteRateModel.py:371-385 | the loop writes the bond value plus the step's flow at each occupied node of the expiry step and changes nothing else |
| Expiry.SeedOptions | financepy/models/FinHullWhiteRateModel.py:391-395 | the loop writes max(clean price - strike, 0) at each occupied node of the expiry step and changes nothing else |
| Backward.BottomEdgeAsWrittenDiffers | financepy/models/FinHullWhiteRateModel.py:410-421 | on a one-node-wide tree (a = 1, dt = 0.2) the bottom node's value as written differs from the symmetric bottom-edge branching |
| Backward.RollBackMonotone | financepy/models/FinHullWhiteRateModel.py:423-426 | with non-negative probabilities and factor, a node's rolled-back value is monotone in the next step's values |
| Backward.OptionStepNonNegative | financepy/models/FinHullWhiteRateModel.py:431-454 | one backward step keeps the option values non-negative |
| Backward.OptionValuesNonNegative | financepy/models/FinHullWhiteRateModel.py:389-454 | with non-negative probabilities the option value is non-negative at every node of every step |
| Backward.ExpiryOptionNonNegative | financepy/models/FinHullWhiteRateModel.py:391-395 | the exercise values at expiry are non-negative |
| Backward.AmericanDominatesHoldAndExercise | financepy/models/FinHullWhiteRateModel.py:450-454 | an American value is at least both the hold value and the exercise value |
| Backward.OptionStepDominates | financepy/models/FinHullWhiteRateModel.py:431-454 | an American step from larger values dominates a European step from smaller ones |
| Backward.AmericanStep | financepy/models/FinHullWhiteRateModel.py:398-454 | if the American values dominate the European ones at step m+1, they do at step m |
| Backward.AmericanDominatesFrom | financepy/models/FinHullWhiteRateModel.py:398-454 | the American values dominate the European ones at every step |
| Backward.AmericanAtLeastEuropean | financepy/models/FinHullWhiteRateModel.py:398-454 | early exercise never lowers the option value at any node |
| Backward.EuropeanStepIsRollBackRow | financepy/models/FinHullWhiteRateModel.py:431-448 | without early exercise a backward step is the rollback of the next row |
| Backward.SpreadPairing | financepy/models/FinHullWhiteRateModel.py:423-427 | propagating prices forward and then weighting by values equals weighting the prices by the rolled-back values (duality of the two loops) |
| Backward.EuropeanValueStep | financepy/models/FinHullWhiteRateModel.py:431-448 | the Arrow-Debreu value of the European values at step m equals that at step m+1 |
| Backward.EuropeanValueConserved | financepy/models/FinHullWhiteRateModel.py:398-448 | the Arrow-Debreu value of the European values is the same at every step up to expiry |
| Backward.EuropeanRootIsForwardPrice | financepy/models/FinHullWhiteRateModel.py:389-458 | the European root value equals the expiry payoffs weighted by the Arrow-Debreu prices of the expiry step |
| Backward.ReadSuccessors | financepy/models/FinHullWhiteRateModel.py:410-427 | the three reads take the children given by the node's kind (top, bottom or interior) |
| Backward.RollBackNode | financepy/models/FinHullWhiteRateModel.py:404-427 | one node's discounted expectation of the next step |
| Backward.StepNode | financepy/models/FinHullWhiteRateModel.py:402-454 | one node's bond and option updates, with nothing else changed |
| Backward.StepNodes | financepy/models/FinHullWhiteRateModel.py:402-454 | the node loop of one step writes the occupied nodes of row m and nothing else |
| Backward.StepRow | financepy/models/FinHullWhiteRateModel.py:398-454 | one pass of the outer loop sets row m of both arrays to one backward step from row m+1 |
| Backward.UnfoldBondValues | financepy/models/FinHullWhiteRateModel.py:398-429 | the bond values of step m are the rollback of step m+1 plus the step's flow |
| Backward.UnfoldOptionValues | financepy/models/FinHullWhiteRateModel.py:431-454 | the option values of step m are one option step from step m+1 |
| Backward.RollBackStep | financepy/models/FinHullWhiteRateModel.py:398-454 | after one pass, row m holds the induction's values for step m and the rows below stay zero |
| Backward.RollBackTree | financepy/models/FinHullWhiteRateModel.py:397-454 | the whole backward loop leaves the induction's root rows in both arrays |
| HullWhite.TreeStep | financepy/models/FinHullWhiteRateModel.py:488-489 | the step of a tree over a positive maturity is positive |
| HullWhite.NodeFromFormulasNonNegative | financepy/models/FinHullWhiteRateModel.py:35-49 | one node's formula probabilities are non-negative exactly when its scalar condition holds |
| HullWhite.FormulaBranchesNonNegative | financepy/models/FinHullWhiteRateModel.py:35-49 | the probability arrays are non-negative exactly when every node of the grid meets its condition |
| HullWhite.GridTimeRows | financepy/models/FinHullWhiteRateModel.py:470-475 | for the grid time k dt, the time is on the grid, int(t/dt) is k, and df_Tree reads row k+1, whose time is one step later |
| HullWhite.DfTreeReadsOneStepLate | financepy/models/FinHullWhiteRateModel.py:475 | with dt = 0.5 and tmat = 1.0, df_Tree reads step 3 (time 1.5) instead of step 2 (time 1.0) |
| HullWhite.TreeDiscountsNonNegative | financepy/models/FinHullWhiteRateModel.py:64-78 | the node factors the backward induction uses are non-negative at every occupied node |
| HullWhite.NewValues | financepy/models/FinHullWhiteRateModel.py:365-366 | a fresh all-zero array of the tree's shape |
| HullWhite.RowTotal | financepy/models/FinHullWhiteRateModel.py:477-480 | the loop returns the sum of row m of Q |
| HullWhite.ExpiryStepOnTree | financepy/models/FinHullWhiteRateModel.py:258-268 | an expiry no later than the last tree time gives an expiry step no later than the last row |
| HullWhite.BuiltTreePrices | financepy/models/FinHullWhiteRateModel.py:270-282 | on a built tree, the pricer sums satisfy put-call parity against the curve's discount factor and are non-negative when the probabilities are |
| HullWhite.FitTree | financepy/models/FinHullWhiteRateModel.py:486-501 | the tree has n+2 times from 0 to maturity (n+1)/n and fresh arrays; jmax = ceil(0.1835/(a dt)); the discount factors are the curve at the tree times; shift[j] = exp(-j dR dt) with dR = sigma sqrt(3 dt); on success it is calibrated to the curve; it succeeds whenever the probabilities are non-negative |
| HullWhite.InductionOf | financepy/models/FinHullWhiteRateModel.py:338-395 | the snapped flows sum to the curve-adjusted flows paid by expiry and are zero after the expiry step; every accrued entry lies between 0 and cpn face, strictly below a positive cpn face |
| HullWhite.AccruedRowBounds | financepy/models/FinHullWhiteRateModel.py:349-361 | every entry of the accrued row lies between 0 and cpn face, strictly below a positive cpn face |
| HullWhite.CouponTimesNonNegative | financepy/models/FinHullWhiteRateModel.py:321-333 | with no flow before the valuation date, every coupon time (with the prepended 0) is non-negative |
| HullWhite.SeedExpiry | financepy/models/FinHullWhiteRateModel.py:365-395 | two fresh arrays whose expiry rows hold the bond and exercise values and whose earlier rows are zero |
| HullWhite.BondOptionTree | financepy/models/FinHullWhiteRateModel.py:338-458 | returns the option and bond values at the root of the backward induction |
| HullWhite.HullWhiteRateModel.constructor | financepy/models/FinHullWhiteRateModel.py:100-120 | a valid model with the given parameters and no tree |
| HullWhite.HullWhiteRateModel.Create | financepy/models/FinHullWhiteRateModel.py:100-120 | fails on a negative volatility, then on a negative mean reversion, and otherwise gives a fresh model with no tree |
| HullWhite.HullWhiteRateModel.BuildTree | financepy/models/FinHullWhiteRateModel.py:486-504 | fails with a division by zero when n, a or the maturity is zero; fails only when the drift is undefined, and never when the probabilities are non-negative; on failure the model is unchanged; on success it holds a fresh calibrated tree with jmax = ceil(0.1835/(a dt)), the curve's discount factors at the tree times and shift[j] = exp(-j dR dt), dR = sigma sqrt(3 dt) |
| HullWhite.HullWhiteRateModel.Install | financepy/models/FinHullWhiteRateModel.py:499-504 | the model's fields take the built tree and its contents are kept |
| HullWhite.HullWhiteRateModel.DfTree | financepy/models/FinHullWhiteRateModel.py:462-482 | as written: 1 at time 0, an error off the grid or past the tree, otherwise the sum of Q at row int(t/dt)+1, which equals the curve's discount factor of that row |
| HullWhite.HullWhiteRateModel.TreeDiscountFactor | financepy/models/FinHullWhiteRateModel.py:462-482 | corrected: reads row int(t/dt), so at a grid time the result equals the curve's discount factor at that time |
| HullWhite.HullWhiteRateModel.TreePricesHold | financepy/models/FinHullWhiteRateModel.py:270-282 | the pricer sums on the model's tree satisfy put-call parity against the curve |
| HullWhite.HullWhiteRateModel.EuropeanOptionOnZeroCouponBondTree | financepy/models/FinHullWhiteRateModel.py:239-282 | fails exactly when an input check fails, with that check's error; otherwise the call and put on face times the node prices, in put-call parity against the curve and non-negative when the probabilities are |
| HullWhite.HullWhiteRateModel.EuropeanBondOption | financepy/models/FinHullWhiteRateModel.py:147-202 | the input checks' errors, an error when no flow follows expiry, otherwise call and put on the node bond values with the same parity and sign |
| HullWhite.HullWhiteRateModel.BondOptionInputs | financepy/models/FinHullWhiteRateModel.py:320-395 | the induction read from the model's tree and probabilities |
| HullWhite.HullWhiteRateModel.BondOptionValue | financepy/models/FinHullWhiteRateModel.py:286-458 | fails exactly when one of the source's input checks or reads fails |
| HullWhite.HullWhiteRateModel.BondOption | financepy/models/FinHullWhiteRateModel.py:286-458 | returns the first failing check's error, or the option and bond values at the root of the backward induction |
| HullWhite.HullWhiteRateModel.BondOptionValueProperties | financepy/models/FinHullWhiteRateModel.py:397-458 | European and American exercise fail together and price the same bond; with non-negative probabilities 0 <= European <= American |
| HullWhite.HullWhiteRateModel.BondOptionProperties | financepy/models/FinHullWhiteRateModel.py:389-458 | the European root value is the Arrow-Debreu forward price of the expiry payoffs; option values are non-negative and American >= European when the probabilities are |

## Left out

- `P` (lines 124-143) and `europeanOptionOnZeroCouponBond_Anal` (lines 206-235) are left out. They need exp, log, sqrt and the normal distribution. The pricers take the zero-coupon prices P at the expiry nodes as inputs.
- Dates and day counts are left out: `gDaysInYear`, `calculateFlowDates` and the bond object. Times are given in years, and a bond as its coupon per period and the times of its flows.
- `uinterpolate` is left out: the discount curve is a positive function of time, and `df_flow` / `df_tree` are its values.
- The short rates `rt` and the drifts `alpha` are not stored; the node factors exp(-rt dt) stand in for them.
- The zero rate `-log(p)/tmat` that `df_Tree` returns beside p is left out, because it needs log.
- `HullWhite.HullWhiteRateModel.BuildTree`: a negative maturity is excluded by the precondition. The source would build an ill-formed grid from a negative step.
- `HullWhite.HullWhiteRateModel.BuildTree`: a sumQZ that is zero or negative becomes the error `DriftUndefined`, and the model keeps its previous tree. `buildTreeFast` is compiled with `fastmath` (line 13). There `log` gives -inf at zero and NaN below zero without raising, and `buildTree` stores the resulting rates and installs the tree (lines 499-503). Run without compilation, the same `log` raises ValueError.
- Floating point is left out: all arithmetic is over the reals. The tolerance 1e-6 in `df_Tree` is kept, but the float rounding of t/dt is not. `fastmath` and numba compilation are left out.
- The stashing of `bondValues` and `optionValues` on the object (lines 456-457) is left out, because nothing reads them later.
- `HullWhite.HullWhiteRateModel.BondOption`: the values are stated through the ghost function `BondOptionValue`, evaluated in the state before the call. The properties of that value are separate lemmas.
- `Branching.SourceScaleAdmitsNegativeMiddle`: the negative middle probability (about -5.6e-6) is a consequence of the constant 0.1835 being slightly below 1 - sqrt(2/3). The model keeps 0.1835. `BuildTree` then fails only if the drift is undefined.

## Findings

| source | as written | input that shows it | evidently intended | confidence | as-written member | corrected member |
|---|---|---|---|---|---|---|
| financepy/models/FinHullWhiteRateModel.py:475 | `df_Tree` reads Q at row int(tmat/dt) + 1, the step after tmat | dt = 0.5, tmat = 1.0: reads row 3 (time 1.5), whose sum is the discount factor to 1.5 | read row int(tmat/dt), whose sum is the discount factor to tmat | not executed | HullWhite.DfTreeReadsOneStepLate | HullWhite.HullWhiteRateModel.TreeDiscountFactor |
| financepy/models/FinHullWhiteRateModel.py:416 | the bottom-edge branch of the rollback tests `k == jmax` again, so the bottom node j = -jmax rolls back with the interior pattern and reads child j-1 (numpy index -1, the top node) | a = 1, dt = 0.2 (jmax = 1), next values (1, 0, 0), unit factors: bottom node gives 2/75 instead of 133/150 | test `k == -jmax` and read children j, j+1, j+2 as in the forward step | not executed | Backward.BottomEdgeAsWrittenDiffers | Backward.EuropeanRootIsForwardPrice |
