/** Forward propagation of Arrow-Debreu prices from one time step of the
    tree to the next: every occupied node pushes its price, discounted by
    its one-step factor, into its three children with the branch
    probabilities, using the edge branching at j = +-jmax. */
module Propagation {

  import opened Sums
  import opened Branching

  /** The price a node of price qi with one-step discount factor zi sends
      down a branch of probability p. */
  function Share(qi: real, p: real, zi: real): real
  {
    qi * p * zi
  }

  /** Row `row` after node i of the previous row q has added its three
      contributions q[i]*p*z[i]; offsets are j + jmax. */
  function AddNode(row: seq<real>, q: seq<real>, z: seq<real>, B: Branches, i: nat): (r: seq<real>)
    requires B.Wf() && |row| == 2 * B.jmax + 1 && |q| == |row| && |z| == |row| && i < |row|
    ensures |r| == |row|
  {
    var j := i - B.jmax;
    match KindOf(j, B.jmax)
    case Top =>
      AddAt(AddAt(AddAt(row, i, Share(q[i], B.pu[i], z[i])), i - 1, Share(q[i], B.pm[i], z[i])), i - 2, Share(q[i], B.pd[i], z[i]))
    case Bottom =>
      AddAt(AddAt(AddAt(row, i, Share(q[i], B.pd[i], z[i])), i + 1, Share(q[i], B.pm[i], z[i])), i + 2, Share(q[i], B.pu[i], z[i]))
    case Interior =>
      AddAt(AddAt(AddAt(row, i + 1, Share(q[i], B.pu[i], z[i])), i, Share(q[i], B.pm[i], z[i])), i - 1, Share(q[i], B.pd[i], z[i]))
  }

  /** Row `row` after the nodes at offsets lo .. hi-1 have been processed,
      in increasing order. */
  function Scatter(row: seq<real>, q: seq<real>, z: seq<real>, B: Branches, lo: nat, hi: nat): (r: seq<real>)
    requires B.Wf() && |row| == 2 * B.jmax + 1 && |q| == |row| && |z| == |row| && lo <= hi <= |row|
    ensures |r| == |row|
    decreases hi - lo
  {
    if lo == hi then row else AddNode(Scatter(row, q, z, B, lo, hi - 1), q, z, B, hi - 1)
  }

  /** The next Arrow-Debreu row, from a zero row, when the nodes with
      |j| <= n are occupied. */
  function Spread(q: seq<real>, z: seq<real>, B: Branches, n: nat): (r: seq<real>)
    requires B.Wf() && |q| == 2 * B.jmax + 1 && |z| == |q| && n <= B.jmax
    ensures |r| == |q|
  {
    Scatter(Zeros(|q|), q, z, B, B.jmax - n, B.jmax + n + 1)
  }

  /** A node's three in-place contributions as (offset, amount) pairs in
      the order the source adds them: amount Share(q, p, z) for the branch
      with probability p goes to offset i + its move. */
  lemma NodeShares(row: seq<real>, q: seq<real>, z: seq<real>, B: Branches, i: nat)
    returns (x1: nat, s1: real, x2: nat, s2: real, x3: nat, s3: real)
    requires B.Wf() && |row| == 2 * B.jmax + 1 && |q| == |row| && |z| == |row| && i < |row|
    ensures x1 < |row| && x2 < |row| && x3 < |row|
    ensures AddNode(row, q, z, B, i) == AddAt(AddAt(AddAt(row, x1, s1), x2, s2), x3, s3)
    ensures var k := KindOf(i - B.jmax, B.jmax);
      k == Bottom ==>
        && x1 == i + DownMove(k) && s1 == Share(q[i], B.pd[i], z[i])
        && x2 == i + MidMove(k) && s2 == Share(q[i], B.pm[i], z[i])
        && x3 == i + UpMove(k) && s3 == Share(q[i], B.pu[i], z[i])
    ensures var k := KindOf(i - B.jmax, B.jmax);
      k != Bottom ==>
        && x1 == i + UpMove(k) && s1 == Share(q[i], B.pu[i], z[i])
        && x2 == i + MidMove(k) && s2 == Share(q[i], B.pm[i], z[i])
        && x3 == i + DownMove(k) && s3 == Share(q[i], B.pd[i], z[i])
    ensures B.pu[i] + B.pm[i] + B.pd[i] == 1.0 ==> s1 + s2 + s3 == q[i] * z[i]
  {
    var k := KindOf(i - B.jmax, B.jmax);
    var u, m, d := i + UpMove(k), i + MidMove(k), i + DownMove(k);
    var su, sm, sd := Share(q[i], B.pu[i], z[i]), Share(q[i], B.pm[i], z[i]), Share(q[i], B.pd[i], z[i]);
    assert su + sm + sd == q[i] * z[i] * (B.pu[i] + B.pm[i] + B.pd[i]);
    if k == Bottom {
      x1, s1, x2, s2, x3, s3 := d, sd, m, sm, u, su;
    } else {
      x1, s1, x2, s2, x3, s3 := u, su, m, sm, d, sd;
    }
  }

  /** A node passes on exactly its discounted price when its probabilities
      sum to one. */
  lemma AddNodeMass(row: seq<real>, q: seq<real>, z: seq<real>, B: Branches, i: nat)
    requires B.Wf() && |row| == 2 * B.jmax + 1 && |q| == |row| && |z| == |row| && i < |row|
    requires B.pu[i] + B.pm[i] + B.pd[i] == 1.0
    ensures Sum(AddNode(row, q, z, B, i)) == Sum(row) + q[i] * z[i]
  {
    var x1, s1, x2, s2, x3, s3 := NodeShares(row, q, z, B, i);
    var r1 := AddAt(row, x1, s1);
    var r2 := AddAt(r1, x2, s2);
    SumOverAddAt(row, x1, s1, 0, |row|);
    SumOverAddAt(r1, x2, s2, 0, |row|);
    SumOverAddAt(r2, x3, s3, 0, |row|);
  }

  lemma {:induction false} ScatterMass(row: seq<real>, q: seq<real>, z: seq<real>, B: Branches, lo: nat, hi: nat)
    requires B.Wf() && |row| == 2 * B.jmax + 1 && |q| == |row| && |z| == |row| && lo <= hi <= |row|
    requires B.SumsToOne()
    ensures Sum(Scatter(row, q, z, B, lo, hi)) == Sum(row) + Dot(q, z, lo, hi)
    decreases hi - lo
  {
    if lo < hi {
      ScatterMass(row, q, z, B, lo, hi - 1);
      AddNodeMass(Scatter(row, q, z, B, lo, hi - 1), q, z, B, hi - 1);
    }
  }

  /** Conservation: the next row sums to the discounted prices of the
      occupied nodes, sum_j Q[m,j] * exp(-r[m,j] dt). */
  lemma SpreadConservesMass(q: seq<real>, z: seq<real>, B: Branches, n: nat)
    requires B.Wf() && |q| == 2 * B.jmax + 1 && |z| == |q| && n <= B.jmax
    requires B.SumsToOne()
    ensures Sum(Spread(q, z, B, n)) == Dot(q, z, B.jmax - n, B.jmax + n + 1)
  {
    ScatterMass(Zeros(|q|), q, z, B, B.jmax - n, B.jmax + n + 1);
    SumOverOfZeros(Zeros(|q|), 0, |q|);
  }

  /** A node with |j| <= n only writes to offsets with |j'| <= min(n+1, jmax). */
  lemma AddNodeSupport(row: seq<real>, q: seq<real>, z: seq<real>, B: Branches, i: nat, n: nat)
    requires B.Wf() && |row| == 2 * B.jmax + 1 && |q| == |row| && |z| == |row|
    requires n <= B.jmax && B.jmax - n <= i <= B.jmax + n
    requires ZeroOutside(row, B.jmax - Min(n + 1, B.jmax), B.jmax + Min(n + 1, B.jmax) + 1)
    ensures ZeroOutside(AddNode(row, q, z, B, i), B.jmax - Min(n + 1, B.jmax), B.jmax + Min(n + 1, B.jmax) + 1)
  {
    BranchTargetsOnGrid(i - B.jmax, B.jmax, n);
  }

  lemma {:induction false} ScatterSupport(row: seq<real>, q: seq<real>, z: seq<real>, B: Branches, n: nat, lo: nat, hi: nat)
    requires B.Wf() && |row| == 2 * B.jmax + 1 && |q| == |row| && |z| == |row|
    requires n <= B.jmax && B.jmax - n <= lo <= hi <= B.jmax + n + 1
    requires ZeroOutside(row, B.jmax - Min(n + 1, B.jmax), B.jmax + Min(n + 1, B.jmax) + 1)
    ensures ZeroOutside(Scatter(row, q, z, B, lo, hi), B.jmax - Min(n + 1, B.jmax), B.jmax + Min(n + 1, B.jmax) + 1)
    decreases hi - lo
  {
    if lo < hi {
      ScatterSupport(row, q, z, B, n, lo, hi - 1);
      AddNodeSupport(Scatter(row, q, z, B, lo, hi - 1), q, z, B, hi - 1, n);
    }
  }

  /** Occupancy: if nodes with |j| <= n are occupied at step m, nodes with
      |j| <= min(n+1, jmax) are at step m+1. */
  lemma SpreadSupport(q: seq<real>, z: seq<real>, B: Branches, n: nat)
    requires B.Wf() && |q| == 2 * B.jmax + 1 && |z| == |q| && n <= B.jmax
    ensures ZeroOutside(Spread(q, z, B, n), B.jmax - Min(n + 1, B.jmax), B.jmax + Min(n + 1, B.jmax) + 1)
  {
    ScatterSupport(Zeros(|q|), q, z, B, n, B.jmax - n, B.jmax + n + 1);
  }

  lemma AddNodeNonNegative(row: seq<real>, q: seq<real>, z: seq<real>, B: Branches, i: nat)
    requires B.Wf() && |row| == 2 * B.jmax + 1 && |q| == |row| && |z| == |row| && i < |row|
    requires B.NonNegative() && NonNegative(row) && q[i] >= 0.0 && z[i] >= 0.0
    ensures NonNegative(AddNode(row, q, z, B, i))
  {
    var qz := q[i] * z[i];
    assert qz >= 0.0;
    assert q[i] * B.pu[i] * z[i] == qz * B.pu[i] >= 0.0;
    assert q[i] * B.pm[i] * z[i] == qz * B.pm[i] >= 0.0;
    assert q[i] * B.pd[i] * z[i] == qz * B.pd[i] >= 0.0;
  }

  lemma {:induction false} ScatterNonNegative(row: seq<real>, q: seq<real>, z: seq<real>, B: Branches, lo: nat, hi: nat)
    requires B.Wf() && |row| == 2 * B.jmax + 1 && |q| == |row| && |z| == |row| && lo <= hi <= |row|
    requires B.NonNegative() && NonNegative(row)
    requires forall i :: lo <= i < hi ==> q[i] >= 0.0 && z[i] >= 0.0
    ensures NonNegative(Scatter(row, q, z, B, lo, hi))
    decreases hi - lo
  {
    if lo < hi {
      ScatterNonNegative(row, q, z, B, lo, hi - 1);
      AddNodeNonNegative(Scatter(row, q, z, B, lo, hi - 1), q, z, B, hi - 1);
    }
  }

  /** Non-negative probabilities, prices and discount factors give a
      non-negative next row. */
  lemma SpreadNonNegative(q: seq<real>, z: seq<real>, B: Branches, n: nat)
    requires B.Wf() && |q| == 2 * B.jmax + 1 && |z| == |q| && n <= B.jmax
    requires B.NonNegative()
    requires forall i :: B.jmax - n <= i <= B.jmax + n ==> q[i] >= 0.0 && z[i] >= 0.0
    ensures NonNegative(Spread(q, z, B, n))
  {
    ScatterNonNegative(Zeros(|q|), q, z, B, B.jmax - n, B.jmax + n + 1);
  }
}
