/** The trinomial branching of the Hull-White tree: the grid width jmax,
    the three closed forms for the branch probabilities (top edge, bottom
    edge, interior) and the index moves each branch makes. A node's
    probabilities depend only on x = a*j*dt. */
module Branching {

  import opened Sums

  datatype NodeKind = Top | Bottom | Interior

  /** The source tests the top edge first, then the bottom edge. */
  function KindOf(j: int, jmax: nat): NodeKind
  {
    if j == jmax then Top else if j == -(jmax as int) then Bottom else Interior
  }

  /** The scale in jmax = ceil(0.1835 / (a*dt)). */
  const JmaxScale: real := 0.1835

  /** Half-width of the grid: the least integer not below 0.1835/(a*dt). */
  function Jmax(a: real, dt: real): (jmax: nat)
    requires a > 0.0 && dt > 0.0
    ensures jmax >= 1
    ensures (jmax - 1) as real < JmaxScale / (a * dt) <= jmax as real
  {
    var x := JmaxScale / (a * dt);
    assert x > 0.0;
    -((-x).Floor)
  }

  /** Probability attached to the source's `pu` array. */
  function Up(k: NodeKind, x: real): real
  {
    match k
    case Top => 7.0 / 6.0 + 0.5 * (x * x - 3.0 * x)
    case Bottom => 1.0 / 6.0 + 0.5 * (x * x + x)
    case Interior => 1.0 / 6.0 + 0.5 * (x * x - x)
  }

  /** Probability attached to the source's `pm` array. */
  function Mid(k: NodeKind, x: real): real
  {
    match k
    case Top => -1.0 / 3.0 - x * x + 2.0 * x
    case Bottom => -1.0 / 3.0 - x * x - 2.0 * x
    case Interior => 2.0 / 3.0 - x * x
  }

  /** Probability attached to the source's `pd` array. */
  function Down(k: NodeKind, x: real): real
  {
    match k
    case Top => 1.0 / 6.0 + 0.5 * (x * x - x)
    case Bottom => 7.0 / 6.0 + 0.5 * (x * x + 3.0 * x)
    case Interior => 1.0 / 6.0 + 0.5 * (x * x + x)
  }

  /** Index move of the branch weighted by `pu`: the top node stays put,
      the bottom node jumps two up, an interior node moves one up. */
  function UpMove(k: NodeKind): int
  {
    match k
    case Top => 0
    case Bottom => 2
    case Interior => 1
  }

  function MidMove(k: NodeKind): int
  {
    match k
    case Top => -1
    case Bottom => 1
    case Interior => 0
  }

  function DownMove(k: NodeKind): int
  {
    match k
    case Top => -2
    case Bottom => 0
    case Interior => -1
  }

  /** The probabilities of a node sum to one, and the branching reproduces
      the first two moments of the discretised mean-reverting process
      dr = (theta - a r) dt + sigma dW in index units: mean move -x and
      mean squared move 1/3 + x^2, where x = a*j*dt. */
  lemma BranchingMatchesMeanReversion(k: NodeKind, x: real)
    ensures Up(k, x) + Mid(k, x) + Down(k, x) == 1.0
    ensures Up(k, x) * UpMove(k) as real + Mid(k, x) * MidMove(k) as real
            + Down(k, x) * DownMove(k) as real == -x
    ensures Up(k, x) * (UpMove(k) * UpMove(k)) as real + Mid(k, x) * (MidMove(k) * MidMove(k)) as real
            + Down(k, x) * (DownMove(k) * DownMove(k)) as real == 1.0 / 3.0 + x * x
  {
  }

  /** The three branches of every node on the grid land on the grid, and a
      node within the occupied half-width n branches within min(n+1, jmax). */
  lemma BranchTargetsOnGrid(j: int, jmax: nat, n: nat)
    requires jmax >= 1 && n <= jmax && -(n as int) <= j <= n
    ensures var k := KindOf(j, jmax);
      && -Min(n + 1, jmax) <= j + UpMove(k) <= Min(n + 1, jmax)
      && -Min(n + 1, jmax) <= j + MidMove(k) <= Min(n + 1, jmax)
      && -Min(n + 1, jmax) <= j + DownMove(k) <= Min(n + 1, jmax)
  {
  }

  predicate NonNegativeBranching(k: NodeKind, x: real)
  {
    Up(k, x) >= 0.0 && Mid(k, x) >= 0.0 && Down(k, x) >= 0.0
  }

  /** Only the middle probability can go negative, and exactly outside
      these bounds on x: the edge nodes need (x -+ 1)^2 <= 2/3, interior
      nodes need x^2 <= 2/3. */
  lemma NonNegativeBranchingExactly(k: NodeKind, x: real)
    ensures NonNegativeBranching(k, x) <==>
      match k
      case Top => 3.0 * x * x - 6.0 * x + 1.0 <= 0.0
      case Bottom => 3.0 * x * x + 6.0 * x + 1.0 <= 0.0
      case Interior => 3.0 * x * x <= 2.0
  {
    var s := if k == Top then -1.0 else if k == Bottom then 1.0 else 0.0;
    // the outer probabilities are half a square plus 1/24, hence positive
    var yu := if k == Top then x - 1.5 else if k == Bottom then x + 0.5 else x - 0.5;
    var yd := if k == Top then x - 0.5 else if k == Bottom then x + 1.5 else x + 0.5;
    assert yu * yu >= 0.0 && yd * yd >= 0.0;
    assert Up(k, x) == 0.5 * (yu * yu) + 1.0 / 24.0;
    assert Down(k, x) == 0.5 * (yd * yd) + 1.0 / 24.0;
    assert Mid(k, x) == if k == Interior then (2.0 - 3.0 * x * x) / 3.0
                        else -(3.0 * x * x + 6.0 * s * x + 1.0) / 3.0;
  }

  lemma MulNonNegative(p: real, q: real)
    requires p >= 0.0 && q >= 0.0
    ensures p * q >= 0.0
  {
  }

  /** y^2 <= c^2 whenever |y| <= c. */
  lemma SquareBound(y: real, c: real)
    requires -c <= y <= c
    ensures y * y <= c * c
  {
    if y >= 0.0 {
      assert y * y <= c * y;
    } else {
      assert y * y <= -c * y;
    }
  }

  /** The scale 0.1835 lies just below 1 - sqrt(2/3) = 0.183503...: with
      a*dt = 0.1835 the ceiling gives jmax = 1, so the top node has
      x = 0.1835 and a (slightly) negative middle probability. */
  lemma SourceScaleAdmitsNegativeMiddle()
    ensures Jmax(0.1835, 1.0) == 1
    ensures Mid(KindOf(1, 1), 0.1835 * 1.0 * 1.0) < 0.0
  {
  }

  /** With the scale 0.184 of Hull and White (jmax the least integer with
      jmax*u >= 0.184, where u = a*dt) and a step with u <= 1.6, every
      probability of the grid is non-negative; x = a*j*dt is j*u. */
  lemma HullWhiteScaleKeepsBranchingNonNegative(u: real, jmax: nat, j: int)
    requires 0.0 < u <= 1.6
    requires jmax >= 1 && (jmax as real - 1.0) * u < 0.184 <= jmax as real * u
    requires -(jmax as int) <= j <= jmax
    ensures NonNegativeBranching(KindOf(j, jmax), j as real * u)
  {
    var x := j as real * u;
    var k := KindOf(j, jmax);
    NonNegativeBranchingExactly(k, x);
    assert jmax as real * u - u < 0.184;
    if k == Top {
      assert 0.184 <= x < 0.184 + u;
      SquareBound(x - 1.0, 0.816);
    } else if k == Bottom {
      assert x == -(jmax as real * u);
      SquareBound(x + 1.0, 0.816);
    } else {
      assert -(jmax as real - 1.0) <= j as real <= jmax as real - 1.0;
      var d1, d2 := jmax as real - 1.0 - j as real, jmax as real - 1.0 + j as real;
      MulNonNegative(d1, u);
      MulNonNegative(d2, u);
      assert d1 * u == (jmax as real - 1.0) * u - x;
      assert d2 * u == (jmax as real - 1.0) * u + x;
      assert -0.184 < x < 0.184;
      SquareBound(x, 0.184);
    }
  }

  /** The three probability arrays of a tree of half-width jmax, indexed by
      the offset i = j + jmax. */
  datatype Branches = Branches(jmax: nat, pu: seq<real>, pm: seq<real>, pd: seq<real>)
  {
    predicate Wf()
    {
      jmax >= 1 && |pu| == 2 * jmax + 1 && |pm| == |pu| && |pd| == |pu|
    }

    predicate SumsToOne()
      requires Wf()
    {
      forall i :: 0 <= i < |pu| ==> pu[i] + pm[i] + pd[i] == 1.0
    }

    predicate NonNegative()
      requires Wf()
    {
      forall i :: 0 <= i < |pu| ==> pu[i] >= 0.0 && pm[i] >= 0.0 && pd[i] >= 0.0
    }

    /** Each offset holds the closed forms evaluated at x = a*j*dt. */
    predicate FromFormulas(a: real, dt: real)
      requires Wf()
    {
      forall i :: 0 <= i < |pu| ==> NodeFromFormulas(pu[i], pm[i], pd[i], a, dt, i, jmax)
    }
  }

  /** The probabilities of offset i = j + jmax are the closed forms at
      x = a*j*dt. */
  predicate NodeFromFormulas(up: real, mid: real, down: real, a: real, dt: real, i: nat, jmax: nat)
  {
    var j := i - jmax;
    up == Up(KindOf(j, jmax), a * j as real * dt)
    && mid == Mid(KindOf(j, jmax), a * j as real * dt)
    && down == Down(KindOf(j, jmax), a * j as real * dt)
  }

  /** Probabilities computed from the closed forms sum to one at every node. */
  lemma FormulaBranchesSumToOne(B: Branches, a: real, dt: real)
    requires B.Wf() && B.FromFormulas(a, dt)
    ensures B.SumsToOne()
  {
    forall i | 0 <= i < |B.pu|
      ensures B.pu[i] + B.pm[i] + B.pd[i] == 1.0
    {
      var j := i - B.jmax;
      BranchingMatchesMeanReversion(KindOf(j, B.jmax), a * j as real * dt);
    }
  }
}
