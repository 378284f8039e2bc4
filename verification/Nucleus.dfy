// Top-k / top-p filtering of logits: sort, threshold, cumulative sum, mask, scatter back.
module Nucleus {
  import opened Prelude
  import opened Masses
  import opened SortedMass

  datatype Logit = NegInf | Fin(x: real)

  predicate Below(a: Logit, b: Logit) {
    b.Fin? && (a.NegInf? || a.x < b.x)
  }

  /** What is used of the exponential: it is positive and strictly increasing. */
  ghost predicate IsExp(e: real -> real) {
    (forall x :: e(x) > 0.0) && (forall x, y :: x < y ==> e(x) < e(y))
  }

  function Weight(e: real -> real, l: Logit): real {
    if l.NegInf? then 0.0 else e(l.x)
  }

  predicate NeedTopK(k: Option<int>) {
    k.Some? && k.value > 0
  }

  predicate NeedTopP(p: real) {
    p != 1.0
  }

  ghost predicate SomeFinite(row: seq<Logit>) {
    exists v :: 0 <= v < |row| && row[v].Fin?
  }

  /** `idx` is the index vector of an ascending sort; ties may come in any order. */
  ghost predicate Sorts(idx: seq<nat>, row: seq<Logit>) {
    && Permutation(idx, |row|)
    && forall i, j :: 0 <= i < j < |row| ==> !Below(row[idx[j]], row[idx[i]])
  }

  // ----- What should be kept -----

  ghost function Larger(row: seq<Logit>, l: Logit): (r: set<nat>)
    ensures forall u: nat :: u in r <==> u < |row| && Below(l, row[u])
  {
    set u: nat | u in Range(|row|) && Below(l, row[u])
  }

  /** Fewer than `k` logits are strictly larger. */
  ghost predicate InTopK(row: seq<Logit>, k: Option<int>, l: Logit) {
    k.Some? && k.value > 0 ==> |Larger(row, l)| < k.value
  }

  ghost function TopKWeights(row: seq<Logit>, k: Option<int>, e: real -> real): (r: seq<real>)
    ensures |r| == |row|
  {
    seq(|row|, v requires 0 <= v < |row| => if InTopK(row, k, row[v]) then Weight(e, row[v]) else 0.0)
  }

  ghost function Scale(w: seq<real>, total: real): (r: seq<real>)
    requires total != 0.0
    ensures |r| == |w| && forall i :: 0 <= i < |w| ==> r[i] == w[i] / total
  {
    seq(|w|, i requires 0 <= i < |w| => w[i] / total)
  }

  /** `q` is the distribution over the vocabulary renormalised to the top-k survivors. */
  ghost predicate IsDistribution(q: seq<real>, row: seq<Logit>, k: Option<int>, e: real -> real) {
    var w := TopKWeights(row, k, e);
    var total := Mass(w, Range(|row|));
    total > 0.0 && q == Scale(w, total)
  }

  /** `kept` is a nucleus: it contains only top-k survivors, it is closed upwards, its mass
      is at least `p`, and no set with fewer tokens has mass `p`. */
  ghost predicate IsNucleus(row: seq<Logit>, k: Option<int>, p: real, q: seq<real>, kept: set<nat>) {
    && |q| == |row| && Within(kept, |row|)
    && (forall v :: v in kept ==> InTopK(row, k, row[v]))
    && (forall v, u: nat :: v in kept && u < |row| && Below(row[v], row[u]) ==> u in kept)
    && Mass(q, kept) >= p
    && (forall s: set<nat> :: Within(s, |row|) && |s| < |kept| ==> Mass(q, s) < p)
  }

  /** `filtered` is the row with everything outside a nucleus of it at minus infinity. */
  ghost predicate IsFiltered(row: seq<Logit>, k: Option<int>, p: real, e: real -> real, filtered: seq<Logit>) {
    exists q: seq<real>, kept: set<nat> ::
      IsDistribution(q, row, k, e) && IsNucleus(row, k, p, q, kept) && Keeps(row, kept, filtered)
  }

  ghost predicate Keeps(row: seq<Logit>, kept: set<nat>, filtered: seq<Logit>) {
    && |filtered| == |row|
    && forall v: nat :: v < |row| ==> filtered[v] == if v in kept then row[v] else NegInf
  }

  // ----- The computation on one sorted row -----

  function Gather(row: seq<Logit>, idx: seq<nat>): (s: seq<Logit>)
    requires |idx| == |row| && forall i :: 0 <= i < |idx| ==> idx[i] < |row|
    ensures |s| == |row| && forall j :: 0 <= j < |s| ==> s[j] == row[idx[j]]
  {
    seq(|idx|, j requires 0 <= j < |idx| => row[idx[j]])
  }

  predicate ValidK(k: Option<int>, n: nat) {
    NeedTopK(k) ==> k.value <= n
  }

  predicate PassesK(s: seq<Logit>, k: Option<int>, l: Logit)
    requires ValidK(k, |s|)
  {
    NeedTopK(k) ==> !Below(l, s[|s| - k.value])
  }

  function AfterTopK(s: seq<Logit>, k: Option<int>): (r: seq<Logit>)
    requires ValidK(k, |s|)
    ensures |r| == |s| && forall j :: 0 <= j < |s| ==> r[j] == if PassesK(s, k, s[j]) then s[j] else NegInf
  {
    seq(|s|, j requires 0 <= j < |s| => if PassesK(s, k, s[j]) then s[j] else NegInf)
  }

  ghost function Weights(s: seq<Logit>, e: real -> real): (r: seq<real>)
    ensures |r| == |s| && forall j :: 0 <= j < |s| ==> r[j] == Weight(e, s[j])
  {
    seq(|s|, j requires 0 <= j < |s| => Weight(e, s[j]))
  }

  ghost predicate Proper(s: seq<Logit>, e: real -> real) {
    Prefix(Weights(s, e), |s|) != 0.0
  }

  ghost function Softmax(s: seq<Logit>, e: real -> real): (r: seq<real>)
    requires Proper(s, e)
    ensures |r| == |s|
  {
    Scale(Weights(s, e), Prefix(Weights(s, e), |s|))
  }

  ghost predicate RowReady(row: seq<Logit>, idx: seq<nat>, k: Option<int>, p: real, e: real -> real) {
    IsExp(e) && Sorts(idx, row) && SomeFinite(row) && ValidK(k, |row|) && 0.0 < p <= 1.0
  }

  /** The scattered outputs of one row. */
  ghost predicate RowResult(row: seq<Logit>, idx: seq<nat>, k: Option<int>, p: real, e: real -> real,
                            filtered: seq<Logit>, keep: seq<bool>) {
    && |idx| == |row| && (forall i :: 0 <= i < |idx| ==> idx[i] < |row|) && ValidK(k, |row|)
    && |filtered| == |row| && |keep| == |row|
    && var s := Gather(row, idx);
    && var s1 := AfterTopK(s, k);
    && Proper(s1, e)
    && forall j :: 0 <= j < |row| ==>
         && keep[idx[j]] == (PassesK(s, k, s[j]) && PassesP(Softmax(s1, e), p, j))
         && filtered[idx[j]] == if PassesP(Softmax(s1, e), p, j) then s1[j] else NegInf
  }

  // ----- Top-k: threshold position and counting agree -----

  /** Every index is reached by some sorted position. */
  lemma PositionOf(idx: seq<nat>, n: nat, v: nat) returns (i: nat)
    requires Permutation(idx, n) && v < n
    ensures i < n && idx[i] == v
  {
    ImageIsAll(idx, n);
    assert v in Range(n);
    ImageIff(idx, 0, n, v);
    i :| 0 <= i < n && idx[i] == v;
  }

  lemma ManyLarger(row: seq<Logit>, idx: seq<nat>, at: nat, l: Logit)
    requires Sorts(idx, row) && at < |row| && Below(l, row[idx[at]])
    ensures |Larger(row, l)| >= |row| - at
  {
    var n := |row|;
    ImageSize(idx, n, at, n);
    forall x | x in Image(idx, at, n) ensures x in Larger(row, l) {
      ImageIff(idx, at, n, x);
      var i :| at <= i < n && idx[i] == x;
      assert i == at || !Below(row[idx[i]], row[idx[at]]);
    }
    SubsetBound(Image(idx, at, n), Larger(row, l));
  }

  lemma NotAboveEarlier(row: seq<Logit>, idx: seq<nat>, i: nat, at: nat, l: Logit)
    requires Sorts(idx, row) && i <= at < |row| && !Below(l, row[idx[at]])
    ensures !Below(l, row[idx[i]])
  {
    assert i == at || !Below(row[idx[at]], row[idx[i]]);
  }

  lemma FewLarger(row: seq<Logit>, idx: seq<nat>, at: nat, l: Logit)
    requires Sorts(idx, row) && at < |row| && !Below(l, row[idx[at]])
    ensures |Larger(row, l)| < |row| - at
  {
    var n := |row|;
    ImageSize(idx, n, at + 1, n);
    forall i: nat | i <= at ensures !Below(l, row[idx[i]]) {
      NotAboveEarlier(row, idx, i, at, l);
    }
    forall x | x in Larger(row, l) ensures x in Image(idx, at + 1, n) {
      var i := PositionOf(idx, n, x);
      ImageIff(idx, at + 1, n, x);
    }
    SubsetBound(Larger(row, l), Image(idx, at + 1, n));
  }

  /** The threshold at position `n - k` keeps exactly the logits with fewer than `k`
      strictly larger ones; ties may make that more than `k`. */
  lemma TopKByPosition(row: seq<Logit>, idx: seq<nat>, k: Option<int>, l: Logit)
    requires Sorts(idx, row) && ValidK(k, |row|)
    ensures PassesK(Gather(row, idx), k, l) <==> InTopK(row, k, l)
  {
    if NeedTopK(k) {
      var at: nat := |row| - k.value;
      if Below(l, row[idx[at]]) {
        ManyLarger(row, idx, at, l);
      } else {
        FewLarger(row, idx, at, l);
      }
    }
  }

  lemma SubsetBound(a: set<nat>, b: set<nat>)
    requires a <= b
    ensures |a| <= |b|
  {
    assert |b - a| == |b| - |a|;
  }

  // ----- The softmax of a sorted row -----

  lemma {:induction false} PrefixScale(w: seq<real>, total: real, j: nat)
    requires total != 0.0 && j <= |w|
    ensures Prefix(Scale(w, total), j) == Prefix(w, j) / total
  {
    if j > 0 {
      PrefixScale(w, total, j - 1);
    }
  }

  lemma DivideOrder(a: real, b: real, t: real)
    requires 0.0 <= a <= b && t > 0.0
    ensures 0.0 <= a / t <= b / t
  {
  }

  lemma SortedWeights(row: seq<Logit>, idx: seq<nat>, k: Option<int>, e: real -> real, i: nat, j: nat)
    requires IsExp(e) && Sorts(idx, row) && ValidK(k, |row|) && i <= j < |row|
    ensures
      var w := Weights(AfterTopK(Gather(row, idx), k), e);
      w[j] == TopKWeights(row, k, e)[idx[j]] && 0.0 <= w[i] <= w[j]
  {
    var s := Gather(row, idx);
    TopKByPosition(row, idx, k, s[j]);
    assert i < j ==> !Below(row[idx[j]], row[idx[i]]);
  }

  /** The last sorted position survives top-k and has positive weight. */
  lemma LastIsPositive(row: seq<Logit>, idx: seq<nat>, k: Option<int>, e: real -> real)
    requires IsExp(e) && Sorts(idx, row) && ValidK(k, |row|) && SomeFinite(row)
    ensures Weights(AfterTopK(Gather(row, idx), k), e)[|row| - 1] > 0.0
  {
    var n := |row|;
    var s := Gather(row, idx);
    var v: nat :| v < n && row[v].Fin?;
    var i := PositionOf(idx, n, v);
    assert i == n - 1 || !Below(row[idx[n - 1]], row[idx[i]]);
    if NeedTopK(k) && k.value > 1 {
      assert !Below(row[idx[n - 1]], row[idx[n - k.value]]);
    }
  }

  lemma TotalIsMass(tw: seq<real>, w: seq<real>, idx: seq<nat>)
    requires |w| == |tw| > 0 && Permutation(idx, |tw|)
    requires forall j :: 0 <= j < |w| ==> w[j] == tw[idx[j]] && w[j] >= 0.0
    requires w[|w| - 1] > 0.0
    ensures Prefix(w, |w|) > 0.0 && Mass(tw, Range(|tw|)) == Prefix(w, |w|)
  {
    PrefixGrows(w, 0, |w| - 1);
    PrefixIsMass(tw, w, idx, |w|);
    ImageIsAll(idx, |w|);
  }

  lemma ScaleOrder(w: seq<real>, total: real)
    requires total > 0.0 && forall i, j :: 0 <= i <= j < |w| ==> 0.0 <= w[i] <= w[j]
    ensures forall i, j :: 0 <= i <= j < |w| ==> 0.0 <= Scale(w, total)[i] <= Scale(w, total)[j]
  {
    forall i, j | 0 <= i <= j < |w| ensures 0.0 <= Scale(w, total)[i] <= Scale(w, total)[j] {
      DivideOrder(w[i], w[j], total);
    }
  }

  lemma ScaleSum(w: seq<real>, total: real)
    requires total > 0.0 && total == Prefix(w, |w|)
    ensures Prefix(Scale(w, total), |w|) == 1.0
  {
    PrefixScale(w, total, |w|);
  }

  /** Scaling weights listed in ascending order by their total gives a distribution. */
  lemma ScaledIsAscending(tw: seq<real>, w: seq<real>, idx: seq<nat>, total: real)
    requires |w| == |tw| > 0 && Permutation(idx, |tw|)
    requires forall j :: 0 <= j < |w| ==> w[j] == tw[idx[j]]
    requires forall i, j :: 0 <= i <= j < |w| ==> 0.0 <= w[i] <= w[j]
    requires total > 0.0 && total == Prefix(w, |w|)
    ensures Ascending(Scale(tw, total), idx, Scale(w, total))
  {
    ScaleSum(w, total);
    ScaleOrder(w, total);
  }

  /** Along the sorted positions, the softmax lists the distribution renormalised to the
      top-k survivors in ascending order. */
  lemma SoftmaxIsDistribution(row: seq<Logit>, idx: seq<nat>, k: Option<int>, e: real -> real)
      returns (q: seq<real>)
    requires IsExp(e) && Sorts(idx, row) && ValidK(k, |row|) && SomeFinite(row)
    ensures Proper(AfterTopK(Gather(row, idx), k), e)
    ensures IsDistribution(q, row, k, e)
    ensures Ascending(q, idx, Softmax(AfterTopK(Gather(row, idx), k), e))
  {
    var w := Weights(AfterTopK(Gather(row, idx), k), e);
    var tw := TopKWeights(row, k, e);
    forall i, j | 0 <= i <= j < |row| ensures w[j] == tw[idx[j]] && 0.0 <= w[i] <= w[j] {
      SortedWeights(row, idx, k, e, i, j);
    }
    LastIsPositive(row, idx, k, e);
    TotalIsMass(tw, w, idx);
    ScaledIsAscending(tw, w, idx, Prefix(w, |w|));
    q := Scale(tw, Prefix(w, |w|));
  }

  // ----- The kept set is a nucleus -----

  ghost function KeptSet(keep: seq<bool>): (r: set<nat>)
    ensures forall v: nat :: v in r <==> v < |keep| && keep[v]
  {
    set v: nat | v in Range(|keep|) && keep[v]
  }

  /** Both masks together are the top-p mask alone. */
  lemma MasksAgree(row: seq<Logit>, idx: seq<nat>, k: Option<int>, p: real, e: real -> real, q: seq<real>, j: nat)
    requires RowReady(row, idx, k, p, e) && j < |row|
    requires Proper(AfterTopK(Gather(row, idx), k), e)
    requires Ascending(q, idx, Softmax(AfterTopK(Gather(row, idx), k), e))
    requires PassesP(Softmax(AfterTopK(Gather(row, idx), k), e), p, j)
    ensures PassesK(Gather(row, idx), k, row[idx[j]])
  {
    var s1 := AfterTopK(Gather(row, idx), k);
    KeptIsPositive(q, idx, Softmax(s1, e), p, j);
    assert Softmax(s1, e)[j] == Weights(s1, e)[j] / Prefix(Weights(s1, e), |row|);
    assert s1[j].Fin?;
  }

  lemma KeptSetIsSuffix(row: seq<Logit>, idx: seq<nat>, k: Option<int>, p: real, e: real -> real,
                        filtered: seq<Logit>, keep: seq<bool>, q: seq<real>) returns (j0: nat)
    requires RowReady(row, idx, k, p, e) && RowResult(row, idx, k, p, e, filtered, keep)
    requires Ascending(q, idx, Softmax(AfterTopK(Gather(row, idx), k), e))
    ensures FirstKept(Softmax(AfterTopK(Gather(row, idx), k), e), p, j0)
    ensures KeptSet(keep) == Image(idx, j0, |row|)
  {
    var n := |row|;
    var pr := Softmax(AfterTopK(Gather(row, idx), k), e);
    j0 := FindFirst(pr, p, n - 1);
    forall v: nat | v < n ensures keep[v] <==> v in Image(idx, j0, n) {
      var i := PositionOf(idx, n, v);
      KeptIsSuffix(q, idx, pr, p, j0, i);
      if PassesP(pr, p, i) {
        MasksAgree(row, idx, k, p, e, q, i);
      }
      ImageIff(idx, j0, n, v);
    }
    ImageSize(idx, n, j0, n);
  }

  /** The two outputs agree: a kept logit is passed on, every other one becomes -inf. */
  lemma FilteredFollowsMask(row: seq<Logit>, idx: seq<nat>, k: Option<int>, p: real, e: real -> real,
                            filtered: seq<Logit>, keep: seq<bool>, v: nat)
    requires RowReady(row, idx, k, p, e) && RowResult(row, idx, k, p, e, filtered, keep) && v < |row|
    ensures filtered[v] == if keep[v] then row[v] else NegInf
  {
    var i := PositionOf(idx, |row|, v);
    assert Gather(row, idx)[i] == row[v];
  }

  /** Whatever order the sort leaves ties in, the kept set is a nucleus of the distribution
      renormalised to the top-k survivors. */
  lemma ResultIsNucleus(row: seq<Logit>, idx: seq<nat>, k: Option<int>, p: real, e: real -> real,
                        filtered: seq<Logit>, keep: seq<bool>)
    requires RowReady(row, idx, k, p, e) && RowResult(row, idx, k, p, e, filtered, keep)
    ensures exists q: seq<real> :: IsDistribution(q, row, k, e) && IsNucleus(row, k, p, q, KeptSet(keep))
  {
    var n := |row|;
    var q := SoftmaxIsDistribution(row, idx, k, e);
    var pr := Softmax(AfterTopK(Gather(row, idx), k), e);
    var j0 := KeptSetIsSuffix(row, idx, k, p, e, filtered, keep, q);
    forall v | v in KeptSet(keep) ensures InTopK(row, k, row[v]) {
      var i := PositionOf(idx, n, v);
      KeptIsSuffix(q, idx, pr, p, j0, i);
      ImageIff(idx, j0, n, v);
      TopKByPosition(row, idx, k, row[v]);
    }
    forall v, u: nat | v in KeptSet(keep) && u < n && Below(row[v], row[u]) ensures u in KeptSet(keep) {
      var i := PositionOf(idx, n, u);
      ImageIff(idx, j0, n, v);
      var j :| j0 <= j < n && idx[j] == v;
      ImageIff(idx, j0, n, u);
    }
    forall s: set<nat> | Within(s, n) && |s| < |KeptSet(keep)| ensures Mass(q, s) < p {
      KeptIsLeast(q, idx, pr, p, j0, s);
    }
    KeptIsLeast(q, idx, pr, p, j0, {});
    assert IsNucleus(row, k, p, q, KeptSet(keep));
  }

  /** What a row comes out as is the row filtered to a nucleus. */
  lemma ResultIsFiltered(row: seq<Logit>, idx: seq<nat>, k: Option<int>, p: real, e: real -> real,
                         filtered: seq<Logit>, keep: seq<bool>)
    requires RowReady(row, idx, k, p, e) && RowResult(row, idx, k, p, e, filtered, keep)
    ensures IsFiltered(row, k, p, e, filtered)
  {
    ResultIsNucleus(row, idx, k, p, e, filtered, keep);
    forall v: nat | v < |row| ensures filtered[v] == if v in KeptSet(keep) then row[v] else NegInf {
      FilteredFollowsMask(row, idx, k, p, e, filtered, keep, v);
    }
    assert Keeps(row, KeptSet(keep), filtered);
  }

  /** Every sorted row has a result. */
  lemma ResultExists(row: seq<Logit>, idx: seq<nat>, k: Option<int>, p: real, e: real -> real)
      returns (filtered: seq<Logit>, keep: seq<bool>)
    requires RowReady(row, idx, k, p, e)
    ensures RowResult(row, idx, k, p, e, filtered, keep)
  {
    var q := SoftmaxIsDistribution(row, idx, k, e);
    var s := Gather(row, idx);
    var s1 := AfterTopK(s, k);
    var pr := Softmax(s1, e);
    var n := |row|;
    keep := Scattered(idx, seq(n, j requires 0 <= j < n => PassesK(s, k, s[j]) && PassesP(pr, p, j)), n);
    filtered := Scattered(idx, seq(n, j requires 0 <= j < n => if PassesP(pr, p, j) then s1[j] else NegInf), n);
  }

  /** The first `m` entries of the sequence that has each source value at its index. */
  lemma {:induction false} Scattered<T>(idx: seq<nat>, source: seq<T>, m: nat) returns (out: seq<T>)
    requires Permutation(idx, |source|) && m <= |source|
    ensures |out| == m && forall j :: 0 <= j < |source| && idx[j] < m ==> out[idx[j]] == source[j]
  {
    if m == 0 {
      out := [];
    } else {
      var rest := Scattered(idx, source, m - 1);
      var i := PositionOf(idx, |source|, m - 1);
      out := rest + [source[i]];
    }
  }
}
