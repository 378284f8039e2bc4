// Which samples have a non-zero standard deviation within their prompt group.
module GroupSpread {
  datatype Rollout = Rollout(prompt: nat, score: real)

  function Sum(xs: seq<real>): real {
    if xs == [] then 0.0 else Sum(xs[..|xs| - 1]) + xs[|xs| - 1]
  }

  function Squares(xs: seq<real>): real {
    if xs == [] then 0.0 else Squares(xs[..|xs| - 1]) + xs[|xs| - 1] * xs[|xs| - 1]
  }

  /** The scores of sample `i`'s prompt group among the first `n` samples; leave-one-out
      drops the sample itself. */
  function Peers(batch: seq<Rollout>, i: nat, loo: bool, n: nat): seq<real>
    requires i < |batch| && n <= |batch|
  {
    if n == 0 then []
    else
      var rest := Peers(batch, i, loo, n - 1);
      if batch[n - 1].prompt == batch[i].prompt && !(loo && n - 1 == i) then rest + [batch[n - 1].score] else rest
  }

  /** The variance of the peers before the square root: mean of squares minus squared mean,
      with the m/(m-1) correction. One peer alone divides zero by zero, which becomes 0. */
  function Variance(xs: seq<real>): real {
    if |xs| < 2 then 0.0
    else
      var m := |xs| as real;
      (Squares(xs) / m - (Sum(xs) / m) * (Sum(xs) / m)) * (m / (m - 1.0))
  }

  predicate NonZeroStd(batch: seq<Rollout>, i: nat, loo: bool)
    requires i < |batch|
  {
    Variance(Peers(batch, i, loo, |batch|)) != 0.0
  }

  // ----- Zero variance means equal scores -----

  predicate AllEqual(xs: seq<real>) {
    forall i, j :: 0 <= i < j < |xs| ==> xs[i] == xs[j]
  }

  /** Squared distances of every element from `x`. */
  function Distances(xs: seq<real>, x: real): real {
    if xs == [] then 0.0 else Distances(xs[..|xs| - 1], x) + (xs[|xs| - 1] - x) * (xs[|xs| - 1] - x)
  }

  /** The expansion, with the length as a real number of its own. */
  lemma {:induction false} DistancesExpandTo(xs: seq<real>, x: real, m: real)
    requires m == |xs| as real
    ensures Distances(xs, x) == Expanded(Squares(xs), Sum(xs), m, x)
  {
    if xs != [] {
      var init := xs[..|xs| - 1];
      DistancesExpandTo(init, x, m - 1.0);
      ExpandStep(Squares(init), Sum(init), m - 1.0, x, xs[|xs| - 1]);
    }
  }

  function Expanded(q: real, t: real, m: real, x: real): real {
    q - 2.0 * (x * t) + m * (x * x)
  }

  lemma DistancesExpand(xs: seq<real>, x: real)
    ensures Distances(xs, x) == Squares(xs) - 2.0 * (x * Sum(xs)) + |xs| as real * (x * x)
  {
    DistancesExpandTo(xs, x, |xs| as real);
  }

  lemma ExpandStep(q: real, t: real, m: real, x: real, y: real)
    ensures Expanded(q, t, m, x) + (y - x) * (y - x) == Expanded(q + y * y, t + y, m + 1.0, x)
  {
    SquareOfDifference(y, x);
    Distribute(x, t, y);
    Distribute(x * x, m, 1.0);
  }

  lemma SquareOfDifference(y: real, x: real)
    ensures (y - x) * (y - x) == y * y - 2.0 * (x * y) + x * x
  {
  }

  lemma Distribute(x: real, s: real, y: real)
    ensures x * (s + y) == x * s + x * y
    ensures (s + y) * x == s * x + y * x
  {
  }

  lemma {:induction false} DistancesZeroIff(xs: seq<real>, x: real)
    ensures Distances(xs, x) >= 0.0
    ensures Distances(xs, x) == 0.0 <==> forall i :: 0 <= i < |xs| ==> xs[i] == x
  {
    if xs != [] {
      var init, y := xs[..|xs| - 1], xs[|xs| - 1];
      DistancesZeroIff(init, x);
      SquareZeroIff(y - x);
      assert forall i :: 0 <= i < |init| ==> init[i] == xs[i];
      if forall i :: 0 <= i < |xs| ==> xs[i] == x {
        assert forall i :: 0 <= i < |init| ==> init[i] == x;
      }
    }
  }

  lemma SquareZeroIff(d: real)
    ensures d * d >= 0.0 && (d * d == 0.0 <==> d == 0.0)
  {
    if d > 0.0 {
      ProductZeroIff(d, d);
    } else if d < 0.0 {
      ProductZeroIff(-d, -d);
      assert (-d) * (-d) == d * d;
    }
  }

  function Spread(xs: seq<real>): real {
    |xs| as real * Squares(xs) - Sum(xs) * Sum(xs)
  }

  lemma SpreadStep(xs: seq<real>)
    requires xs != []
    ensures Spread(xs) == Spread(xs[..|xs| - 1]) + Distances(xs[..|xs| - 1], xs[|xs| - 1])
  {
    var init, y := xs[..|xs| - 1], xs[|xs| - 1];
    DistancesExpand(init, y);
    SpreadAlgebra(|init| as real, Squares(init), Sum(init), y);
  }

  lemma SpreadAlgebra(m: real, q: real, t: real, y: real)
    ensures (m + 1.0) * (q + y * y) - (t + y) * (t + y) == m * q - t * t + (q - 2.0 * (y * t) + m * (y * y))
  {
    Distribute(m + 1.0, q, y * y);
    Distribute(t + y, t, y);
    Distribute(t, t, y);
    Distribute(y, t, y);
  }

  lemma {:induction false} SpreadZeroIff(xs: seq<real>)
    ensures Spread(xs) >= 0.0
    ensures Spread(xs) == 0.0 <==> AllEqual(xs)
  {
    if xs != [] {
      var init, y := xs[..|xs| - 1], xs[|xs| - 1];
      SpreadZeroIff(init);
      DistancesZeroIff(init, y);
      SpreadStep(xs);
      if AllEqual(xs) {
        assert AllEqual(init);
        assert forall i :: 0 <= i < |init| ==> init[i] == y;
      }
      if AllEqual(init) && forall i :: 0 <= i < |init| ==> init[i] == y {
        forall i, j | 0 <= i < j < |xs| ensures xs[i] == xs[j] {
          assert xs[i] == init[i];
          assert j < |init| ==> xs[j] == init[j];
        }
      }
    }
  }

  /** The computed deviation is zero exactly when all the scores it is taken over agree. */
  lemma VarianceZeroIff(xs: seq<real>)
    ensures Variance(xs) == 0.0 <==> AllEqual(xs)
  {
    if |xs| >= 2 {
      var m, q, t := |xs| as real, Squares(xs), Sum(xs);
      var v := q / m - (t / m) * (t / m);
      SpreadZeroIff(xs);
      ScaleUp(m, q, t);
      assert v * (m * m) == Spread(xs);
      ProductZeroIff(v, m * m);
      ProductZeroIff(v, m / (m - 1.0));
    }
  }

  lemma ScaleUp(m: real, q: real, t: real)
    requires m > 0.0
    ensures (q / m - (t / m) * (t / m)) * (m * m) == m * q - t * t
  {
    var a, b := q / m, t / m;
    assert a * m == q && b * m == t;
    assert (a - b * b) * (m * m) == m * (a * m) - (b * m) * (b * m);
  }

  lemma ProductZeroIff(v: real, c: real)
    requires c > 0.0
    ensures v * c == 0.0 <==> v == 0.0
  {
  }

  // ----- Whole groups -----

  predicate SameGroup(batch: seq<Rollout>, i: nat, j: nat)
    requires i < |batch| && j < |batch|
  {
    batch[i].prompt == batch[j].prompt
  }

  /** The samples that `i`'s deviation is taken over. */
  predicate IsPeer(batch: seq<Rollout>, i: nat, loo: bool, j: nat)
    requires i < |batch| && j < |batch|
  {
    SameGroup(batch, i, j) && !(loo && i == j)
  }

  lemma {:induction false} PeersAre(batch: seq<Rollout>, i: nat, loo: bool, n: nat, x: real)
    requires i < |batch| && n <= |batch|
    ensures x in Peers(batch, i, loo, n) <==> exists j :: 0 <= j < n && IsPeer(batch, i, loo, j) && batch[j].score == x
  {
    if n > 0 {
      PeersAre(batch, i, loo, n - 1, x);
      assert IsPeer(batch, i, loo, n - 1) || !IsPeer(batch, i, loo, n - 1);
    }
  }

  /** A sample is kept exactly when two of its peers scored differently. */
  lemma KeptIffPeersDiffer(batch: seq<Rollout>, i: nat, loo: bool)
    requires i < |batch|
    ensures NonZeroStd(batch, i, loo) <==>
            exists j, k :: && 0 <= j < |batch| && 0 <= k < |batch|
                           && IsPeer(batch, i, loo, j) && IsPeer(batch, i, loo, k)
                           && batch[j].score != batch[k].score
  {
    var xs := Peers(batch, i, loo, |batch|);
    VarianceZeroIff(xs);
    if !AllEqual(xs) {
      var a, b :| 0 <= a < b < |xs| && xs[a] != xs[b];
      PeersAre(batch, i, loo, |batch|, xs[a]);
      PeersAre(batch, i, loo, |batch|, xs[b]);
    }
    if j, k :| && 0 <= j < |batch| && 0 <= k < |batch| && IsPeer(batch, i, loo, j) && IsPeer(batch, i, loo, k)
               && batch[j].score != batch[k].score {
      PeersAre(batch, i, loo, |batch|, batch[j].score);
      PeersAre(batch, i, loo, |batch|, batch[k].score);
    }
  }

  /** Without leave-one-out a prompt's samples are kept or dropped together. */
  lemma GroupsStandTogether(batch: seq<Rollout>, i: nat, j: nat)
    requires i < |batch| && j < |batch| && SameGroup(batch, i, j)
    ensures NonZeroStd(batch, i, false) == NonZeroStd(batch, j, false)
  {
    KeptIffPeersDiffer(batch, i, false);
    KeptIffPeersDiffer(batch, j, false);
    forall k | 0 <= k < |batch| ensures IsPeer(batch, i, false, k) == IsPeer(batch, j, false, k) {
    }
  }

  /** `i` is the only sample of its group that scored differently, in a group of three or
      more: the single success, or the single failure. */
  predicate OddOneOut(batch: seq<Rollout>, i: nat, j: nat)
    requires i < |batch| && j < |batch|
  {
    && SameGroup(batch, i, j)
    && batch[i].score != batch[j].score
    && (forall k :: 0 <= k < |batch| && IsPeer(batch, i, true, k) ==> batch[k].score == batch[j].score)
    && exists k :: 0 <= k < |batch| && IsPeer(batch, i, true, k) && k != j
  }

  /** With leave-one-out a group is torn apart in exactly one way: its odd one out is
      dropped while the rest of the group is kept. */
  lemma LeaveOneOutTearsGroupsIff(batch: seq<Rollout>, i: nat, j: nat)
    requires i < |batch| && j < |batch| && SameGroup(batch, i, j)
    ensures !NonZeroStd(batch, i, true) && NonZeroStd(batch, j, true) <==> OddOneOut(batch, i, j)
  {
    KeptIffPeersDiffer(batch, i, true);
    KeptIffPeersDiffer(batch, j, true);
    if !NonZeroStd(batch, i, true) && NonZeroStd(batch, j, true) {
      var a, b :| && 0 <= a < |batch| && 0 <= b < |batch| && IsPeer(batch, j, true, a) && IsPeer(batch, j, true, b)
                  && batch[a].score != batch[b].score;
      assert i != j;
      assert IsPeer(batch, i, true, j);
      var other := if a == i then b else a;
      assert IsPeer(batch, i, true, other);
      assert a != i ==> IsPeer(batch, i, true, a);
      assert b != i ==> IsPeer(batch, i, true, b);
    }
    if OddOneOut(batch, i, j) {
      var k :| 0 <= k < |batch| && IsPeer(batch, i, true, k) && k != j;
      assert IsPeer(batch, j, true, i) && IsPeer(batch, j, true, k);
    }
  }
}
