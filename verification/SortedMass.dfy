// Top-p on a sorted distribution: prefix sums, the first kept position, and optimality.
module SortedMass {
  import opened Masses

  /** `pr` lists the distribution `q` in ascending order, through the permutation `idx`. */
  ghost predicate Ascending(q: seq<real>, idx: seq<nat>, pr: seq<real>) {
    && |pr| == |q| && Permutation(idx, |q|) && |q| > 0
    && (forall j :: 0 <= j < |q| ==> pr[j] == q[idx[j]])
    && (forall j :: 0 <= j < |q| ==> pr[j] >= 0.0)
    && (forall i, j :: 0 <= i < j < |q| ==> pr[i] <= pr[j])
    && Prefix(pr, |q|) == 1.0
  }

  lemma {:induction false} PrefixGrows(w: seq<real>, i: nat, j: nat)
    requires i <= j <= |w| && forall m :: 0 <= m < |w| ==> w[m] >= 0.0
    ensures Prefix(w, i) <= Prefix(w, j)
    decreases j
  {
    if i < j {
      PrefixGrows(w, i, j - 1);
    }
  }

  lemma {:induction false} PrefixZero(w: seq<real>, j: nat)
    requires j <= |w| && forall i :: 0 <= i < j ==> w[i] == 0.0
    ensures Prefix(w, j) == 0.0
  {
    if j > 0 {
      PrefixZero(w, j - 1);
    }
  }

  /** The top-p mask at sorted position `j`; the last position is forced. */
  ghost predicate PassesP(pr: seq<real>, p: real, j: nat)
    requires j < |pr|
  {
    Prefix(pr, j + 1) > 1.0 - p || j == |pr| - 1
  }

  /** The forced last position changes nothing exactly when `p` is positive. */
  lemma ForcedLastIsRedundantIff(q: seq<real>, idx: seq<nat>, pr: seq<real>, p: real)
    requires Ascending(q, idx, pr)
    ensures (forall j: nat :: j < |pr| ==> (PassesP(pr, p, j) <==> Prefix(pr, j + 1) > 1.0 - p)) <==> p > 0.0
  {
    var last: nat := |pr| - 1;
    assert PassesP(pr, p, last);
    assert Prefix(pr, last + 1) == 1.0;
  }

  /** The least position the mask keeps. */
  ghost predicate FirstKept(pr: seq<real>, p: real, j0: nat) {
    j0 < |pr| && PassesP(pr, p, j0) && (j0 > 0 ==> Prefix(pr, j0) <= 1.0 - p)
  }

  lemma {:induction false} FindFirst(pr: seq<real>, p: real, j: nat) returns (j0: nat)
    requires j < |pr| && PassesP(pr, p, j)
    ensures FirstKept(pr, p, j0)
  {
    if j == 0 || Prefix(pr, j) <= 1.0 - p {
      j0 := j;
    } else {
      j0 := FindFirst(pr, p, j - 1);
    }
  }

  lemma KeptIsSuffix(q: seq<real>, idx: seq<nat>, pr: seq<real>, p: real, j0: nat, j: nat)
    requires Ascending(q, idx, pr) && FirstKept(pr, p, j0) && j < |pr|
    ensures PassesP(pr, p, j) <==> j0 <= j
  {
    if j0 <= j {
      PrefixGrows(pr, j0 + 1, j + 1);
    } else {
      PrefixGrows(pr, j + 1, j0);
    }
  }

  /** Only tokens of positive probability are kept. */
  lemma KeptIsPositive(q: seq<real>, idx: seq<nat>, pr: seq<real>, p: real, j: nat)
    requires Ascending(q, idx, pr) && p <= 1.0 && j < |pr| && PassesP(pr, p, j)
    ensures pr[j] > 0.0
  {
    if pr[j] == 0.0 {
      PrefixZero(pr, j + 1);
      assert false;
    }
  }

  lemma ThresholdSplits(q: seq<real>, idx: seq<nat>, pr: seq<real>, j1: nat, v: nat)
    requires Ascending(q, idx, pr) && j1 < |q| && v < |q|
    ensures if v in Image(idx, j1, |q|) then pr[j1] <= q[v] else q[v] <= pr[j1]
  {
    var n := |q|;
    ImageIsAll(idx, n);
    assert v in Range(n);
    ImageIff(idx, 0, n, v);
    ImageIff(idx, j1, n, v);
    var i :| 0 <= i < n && idx[i] == v;
    assert q[v] == pr[i];
  }

  lemma SuffixMass(q: seq<real>, idx: seq<nat>, pr: seq<real>, j1: nat)
    requires Ascending(q, idx, pr) && j1 <= |q|
    ensures Mass(q, Image(idx, j1, |q|)) == 1.0 - Prefix(pr, j1)
    ensures |Image(idx, j1, |q|)| == |q| - j1 && Within(Image(idx, j1, |q|), |q|)
  {
    var n := |q|;
    PrefixIsMass(q, pr, idx, j1);
    PrefixIsMass(q, pr, idx, n);
    ImageSplit(idx, n, j1, n);
    MassSplit(q, Image(idx, 0, j1), Image(idx, j1, n));
    ImageSize(idx, n, j1, n);
  }

  /** No set of at most `n - j1` tokens outweighs the last `n - j1` sorted ones. */
  lemma SuffixIsHeaviest(q: seq<real>, idx: seq<nat>, pr: seq<real>, j1: nat, s: set<nat>)
    requires Ascending(q, idx, pr) && j1 <= |q|
    requires Within(s, |q|) && |s| <= |q| - j1
    ensures Mass(q, s) <= 1.0 - Prefix(pr, j1)
  {
    var n := |q|;
    SuffixMass(q, idx, pr, j1);
    if j1 == n {
      assert s == {};
      MassEmpty(q);
    } else {
      forall v: nat | v < n ensures if v in Image(idx, j1, n) then pr[j1] <= q[v] else q[v] <= pr[j1] {
        ThresholdSplits(q, idx, pr, j1, v);
      }
      HeaviestWins(q, pr[j1], Image(idx, j1, n), s);
    }
  }

  /** The kept suffix has mass at least `p`, and every smaller set has less. */
  lemma KeptIsLeast(q: seq<real>, idx: seq<nat>, pr: seq<real>, p: real, j0: nat, s: set<nat>)
    requires Ascending(q, idx, pr) && 0.0 < p <= 1.0 && FirstKept(pr, p, j0)
    ensures Mass(q, Image(idx, j0, |q|)) >= p
    ensures Within(s, |q|) && |s| < |Image(idx, j0, |q|)| ==> Mass(q, s) < p
  {
    SuffixMass(q, idx, pr, j0);
    if Within(s, |q|) && |s| < |q| - j0 {
      SuffixIsHeaviest(q, idx, pr, j0 + 1, s);
    }
  }
}
