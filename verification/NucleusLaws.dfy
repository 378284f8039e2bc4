// Laws of the filter: the sort-free path, idempotence of top-k, composition of the two
// filters, and uniqueness of the result for a given sort.
module NucleusLaws {
  import opened Prelude
  import opened Masses
  import opened SortedMass
  import opened Nucleus

  /** What the k-th value of `torch.topk` is: fewer than `k` logits exceed it and at least
      `k` reach it. */
  ghost predicate IsKthLargest(row: seq<Logit>, k: nat, t: Logit) {
    |Larger(row, t)| < k <= |AtLeast(row, t)|
  }

  ghost function AtLeast(row: seq<Logit>, l: Logit): (r: set<nat>)
    ensures forall u: nat :: u in r <==> u < |row| && !Below(row[u], l)
  {
    set u: nat | u in Range(|row|) && !Below(row[u], l)
  }

  lemma ReachingIsTopK(row: seq<Logit>, k: nat, t: Logit, l: Logit)
    requires IsKthLargest(row, k, t)
    ensures !Below(l, t) <==> InTopK(row, Some(k), l)
  {
    if Below(l, t) {
      SubsetBound(AtLeast(row, t), Larger(row, l));
    } else {
      SubsetBound(Larger(row, l), Larger(row, t));
    }
  }

  /** The sort-free path keeps the same positions as the threshold of the sorting path:
      those with fewer than `k` strictly larger logits. */
  lemma SortFreeTopKAgrees(row: seq<Logit>, idx: seq<nat>, k: nat, t: Logit, v: nat)
    requires Sorts(idx, row) && 1 <= k <= |row| && v < |row|
    requires IsKthLargest(row, k, t)
    ensures !Below(row[v], t) <==> InTopK(row, Some(k), row[v])
    ensures !Below(row[v], t) <==> PassesK(Gather(row, idx), Some(k), row[v])
  {
    TopKByPosition(row, idx, Some(k), row[v]);
    ReachingIsTopK(row, k, t, row[v]);
  }

  ghost function TopKFilter(row: seq<Logit>, k: Option<int>): (r: seq<Logit>)
    ensures |r| == |row|
    ensures forall v :: 0 <= v < |row| ==> r[v] == if InTopK(row, k, row[v]) then row[v] else NegInf
  {
    seq(|row|, v requires 0 <= v < |row| => if InTopK(row, k, row[v]) then row[v] else NegInf)
  }

  /** Top-k removes no logit that is larger than a survivor, and never changes the count of
      larger logits below `k`. */
  lemma LargerAfterTopK(row: seq<Logit>, k: Option<int>, l: Logit)
    requires NeedTopK(k) && l.Fin?
    ensures Larger(TopKFilter(row, k), l) <= Larger(row, l)
    ensures InTopK(row, k, l) ==> Larger(TopKFilter(row, k), l) == Larger(row, l)
  {
    if InTopK(row, k, l) {
      forall u | u in Larger(row, l) ensures u in Larger(TopKFilter(row, k), l) {
        SubsetBound(Larger(row, row[u]), Larger(row, l));
      }
    }
  }

  /** The logits that survive top-k, `k` or more of them, provided the row has `k`. */
  lemma SurvivorsReachK(row: seq<Logit>, idx: seq<nat>, k: nat) returns (t: Logit)
    requires Sorts(idx, row) && 1 <= k <= |row|
    ensures IsKthLargest(row, k, t)
  {
    var n := |row|;
    t := row[idx[n - k]];
    FewLarger(row, idx, n - k, t);
    ManyReach(row, idx, n - k);
  }

  /** Everything sorted at or after a position reaches the logit there. */
  lemma ManyReach(row: seq<Logit>, idx: seq<nat>, at: nat)
    requires Sorts(idx, row) && at < |row|
    ensures |AtLeast(row, row[idx[at]])| >= |row| - at
  {
    var n, t := |row|, row[idx[at]];
    ImageSize(idx, n, at, n);
    forall i | at <= i < n ensures !Below(row[idx[i]], t) {
      assert i == at || !Below(row[idx[i]], row[idx[at]]);
    }
    forall x | x in Image(idx, at, n) ensures x in AtLeast(row, t) {
      ImageIff(idx, at, n, x);
    }
    SubsetBound(Image(idx, at, n), AtLeast(row, t));
  }

  /** Top-k is idempotent. */
  lemma TopKIdempotent(row: seq<Logit>, k: Option<int>)
    ensures TopKFilter(TopKFilter(row, k), k) == TopKFilter(row, k)
  {
    if NeedTopK(k) {
      var once := TopKFilter(row, k);
      forall v | 0 <= v < |row| ensures TopKFilter(once, k)[v] == once[v] {
        if once[v].Fin? {
          LargerAfterTopK(row, k, once[v]);
        }
      }
    }
  }

  /** The mask of a second top-k pass is the mask of the first. */
  lemma TopKMaskIdempotent(row: seq<Logit>, idx: seq<nat>, k: nat, v: nat)
    requires Sorts(idx, row) && 1 <= k <= |row| && v < |row|
    ensures InTopK(TopKFilter(row, Some(k)), Some(k), TopKFilter(row, Some(k))[v]) <==> InTopK(row, Some(k), row[v])
  {
    var once := TopKFilter(row, Some(k));
    var t := SurvivorsReachK(row, idx, k);
    if InTopK(row, Some(k), row[v]) {
      if row[v].Fin? {
        LargerAfterTopK(row, Some(k), row[v]);
      } else {
        SubsetBound(Larger(once, NegInf), Larger(row, NegInf));
      }
    } else {
      forall u | u in AtLeast(row, t) ensures u in Larger(once, once[v]) {
        SubsetBound(Larger(row, row[u]), Larger(row, t));
        if row[u].NegInf? {
          assert t.NegInf?;
          SubsetBound(Larger(row, row[v]), Larger(row, t));
        }
      }
      SubsetBound(AtLeast(row, t), Larger(once, once[v]));
    }
  }

  /** The sorted row after the top-k mask is the top-k filtered row, sorted. */
  lemma TopKThenSort(row: seq<Logit>, idx: seq<nat>, k: Option<int>)
    requires Sorts(idx, row) && ValidK(k, |row|)
    ensures Sorts(idx, TopKFilter(row, k))
    ensures Gather(TopKFilter(row, k), idx) == AfterTopK(Gather(row, idx), k)
  {
    var once := TopKFilter(row, k);
    forall j | 0 <= j < |row| ensures once[idx[j]] == AfterTopK(Gather(row, idx), k)[j] {
      TopKByPosition(row, idx, k, row[idx[j]]);
    }
    forall i, j | 0 <= i < j < |row| ensures !Below(once[idx[j]], once[idx[i]]) {
      assert !Below(row[idx[j]], row[idx[i]]);
      SubsetBound(Larger(row, row[idx[j]]), Larger(row, row[idx[i]]));
    }
  }

  /** Filtering by both is filtering the top-k survivors by top-p alone. */
  lemma CombinedIsTopPOfTopK(row: seq<Logit>, idx: seq<nat>, k: Option<int>, p: real, e: real -> real,
                             filtered: seq<Logit>, keep: seq<bool>)
    requires RowReady(row, idx, k, p, e) && RowResult(row, idx, k, p, e, filtered, keep)
    ensures RowResult(TopKFilter(row, k), idx, None, p, e, filtered, keep)
  {
    var once := TopKFilter(row, k);
    var s := Gather(row, idx);
    var s1 := AfterTopK(s, k);
    TopKThenSort(row, idx, k);
    assert AfterTopK(Gather(once, idx), None) == s1;
    var q := SoftmaxIsDistribution(row, idx, k, e);
    forall j: nat | j < |row| && PassesP(Softmax(s1, e), p, j) ensures PassesK(s, k, s[j]) {
      MasksAgree(row, idx, k, p, e, q, j);
    }
  }

  /** One sort determines the outputs: they cannot depend on how rows are chunked. */
  lemma ResultIsUnique(row: seq<Logit>, idx: seq<nat>, k: Option<int>, p: real, e: real -> real,
                       f1: seq<Logit>, k1: seq<bool>, f2: seq<Logit>, k2: seq<bool>)
    requires Permutation(idx, |row|)
    requires RowResult(row, idx, k, p, e, f1, k1) && RowResult(row, idx, k, p, e, f2, k2)
    ensures f1 == f2 && k1 == k2
  {
    forall v | 0 <= v < |row| ensures f1[v] == f2[v] && k1[v] == k2[v] {
      var i := PositionOf(idx, |row|, v);
    }
  }

  /** At `p` = 1 the sorting path would give what the sort-free shortcut gives; only its mask
      also drops the tokens that were at minus infinity from the start. */
  lemma ShortcutAgreesAtOne(row: seq<Logit>, idx: seq<nat>, k: Option<int>, e: real -> real,
                            filtered: seq<Logit>, keep: seq<bool>)
    requires RowReady(row, idx, k, 1.0, e) && RowResult(row, idx, k, 1.0, e, filtered, keep)
    ensures filtered == TopKFilter(row, k)
    ensures forall v :: 0 <= v < |row| ==> (keep[v] <==> InTopK(row, k, row[v]) && row[v].Fin?)
  {
    var q := SoftmaxIsDistribution(row, idx, k, e);
    forall v: nat | v < |row|
      ensures filtered[v] == TopKFilter(row, k)[v] && (keep[v] <==> InTopK(row, k, row[v]) && row[v].Fin?)
    {
      var j := PositionOf(idx, |row|, v);
      TopKByPosition(row, idx, k, row[v]);
      SurvivorsPassAtOne(row, idx, k, e, q, j);
    }
  }

  lemma SurvivorsPassAtOne(row: seq<Logit>, idx: seq<nat>, k: Option<int>, e: real -> real, q: seq<real>, j: nat)
    requires RowReady(row, idx, k, 1.0, e) && j < |row|
    requires Proper(AfterTopK(Gather(row, idx), k), e)
    requires Ascending(q, idx, Softmax(AfterTopK(Gather(row, idx), k), e))
    ensures PassesP(Softmax(AfterTopK(Gather(row, idx), k), e), 1.0, j) <==> AfterTopK(Gather(row, idx), k)[j].Fin?
  {
    var s1 := AfterTopK(Gather(row, idx), k);
    var w := Weights(s1, e);
    var pr := Softmax(s1, e);
    PrefixGrows(w, 0, |row|);
    ShareIsPositiveIff(w[j], Prefix(w, |row|));
    assert pr[j] > 0.0 <==> s1[j].Fin?;
    if PassesP(pr, 1.0, j) {
      KeptIsPositive(q, idx, pr, 1.0, j);
    }
    if pr[j] > 0.0 {
      PrefixGrows(pr, 0, j);
    }
  }

  lemma ShareIsPositiveIff(w: real, total: real)
    requires w >= 0.0 && total > 0.0
    ensures w / total > 0.0 <==> w > 0.0
  {
    var share := w / total;
    assert share * total == w;
    if w > 0.0 {
      DivideOrder(0.0, w, total);
    }
  }
}
