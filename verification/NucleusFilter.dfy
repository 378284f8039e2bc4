// The filter as it is programmed: per-row loops over a sorted copy, in a loop over chunks
// of rows that fills preallocated outputs.
module NucleusFilter {
  import opened Prelude
  import opened Masses
  import opened SortedMass
  import opened Nucleus
  import opened NucleusLaws

  // ----- One row -----

  /** Compare with the threshold at position `n - k`, then fill the rest with -inf. */
  method MaskTopK(s: array<Logit>, k: Option<int>) returns (mask: array<bool>)
    requires ValidK(k, s.Length)
    modifies s
    ensures fresh(mask) && mask.Length == s.Length
    ensures s[..] == AfterTopK(old(s[..]), k)
    ensures forall j :: 0 <= j < s.Length ==> mask[j] == PassesK(old(s[..]), k, old(s[j]))
  {
    mask := new bool[s.Length](_ => true);
    if NeedTopK(k) {
      var threshold := s[s.Length - k.value];
      var j := 0;
      while j < s.Length
        invariant 0 <= j <= s.Length && s[..] == old(s[..])
        invariant forall i :: 0 <= i < j ==> mask[i] == !Below(s[i], threshold)
      {
        mask[j] := !Below(s[j], threshold);
        j := j + 1;
      }
      FillUnless(s, mask);
    }
  }

  /** `masked_fill_(~mask, -inf)`. */
  method FillUnless(s: array<Logit>, mask: array<bool>)
    requires s.Length == mask.Length
    modifies s
    ensures forall j :: 0 <= j < s.Length ==> s[j] == if mask[j] then old(s[j]) else NegInf
  {
    var j := 0;
    while j < s.Length
      invariant 0 <= j <= s.Length
      invariant forall i :: 0 <= i < j ==> s[i] == if mask[i] then old(s[i]) else NegInf
      invariant forall i :: j <= i < s.Length ==> s[i] == old(s[i])
    {
      if !mask[j] {
        s[j] := NegInf;
      }
      j := j + 1;
    }
  }

  method SumWeights(s: array<Logit>, e: real -> real) returns (total: real)
    ensures total == Prefix(Weights(s[..], e), s.Length)
  {
    total := 0.0;
    var i := 0;
    while i < s.Length
      invariant 0 <= i <= s.Length
      invariant total == Prefix(Weights(s[..], e), i)
    {
      total := total + Weight(e, s[i]);
      i := i + 1;
    }
  }

  method SoftmaxOf(s: array<Logit>, e: real -> real) returns (probs: array<real>)
    requires Proper(s[..], e)
    ensures fresh(probs) && probs[..] == Softmax(s[..], e)
  {
    var total := SumWeights(s, e);
    probs := new real[s.Length];
    var i := 0;
    while i < s.Length
      invariant 0 <= i <= s.Length
      invariant forall j :: 0 <= j < i ==> probs[j] == Weight(e, s[j]) / total
    {
      probs[i] := Weight(e, s[i]) / total;
      i := i + 1;
    }
  }

  method CumulativeSum(a: array<real>) returns (sums: array<real>)
    ensures fresh(sums) && sums.Length == a.Length
    ensures forall j :: 0 <= j < a.Length ==> sums[j] == Prefix(a[..], j + 1)
  {
    sums := new real[a.Length];
    var running := 0.0;
    var i := 0;
    while i < a.Length
      invariant 0 <= i <= a.Length
      invariant running == Prefix(a[..], i)
      invariant forall j :: 0 <= j < i ==> sums[j] == Prefix(a[..], j + 1)
    {
      running := running + a[i];
      sums[i] := running;
      i := i + 1;
    }
  }

  /** Softmax, then cumulative sum. */
  method CumulativeSoftmax(s: array<Logit>, e: real -> real) returns (sums: array<real>)
    requires Proper(s[..], e)
    ensures fresh(sums) && sums.Length == s.Length
    ensures forall j :: 0 <= j < s.Length ==> sums[j] == Prefix(Softmax(s[..], e), j + 1)
  {
    var probs := SoftmaxOf(s, e);
    assert probs.Length == |probs[..]| == s.Length;
    sums := CumulativeSum(probs);
  }

  /** Keep where the cumulative sum exceeds `1 - p`; the last position always. */
  method MaskTopP(s: array<Logit>, p: real, e: real -> real) returns (mask: array<bool>)
    requires s.Length > 0 && Proper(s[..], e)
    modifies s
    ensures fresh(mask) && mask.Length == s.Length
    ensures forall j :: 0 <= j < s.Length ==> mask[j] == PassesP(Softmax(old(s[..]), e), p, j)
    ensures forall j :: 0 <= j < s.Length ==> s[j] == if mask[j] then old(s[j]) else NegInf
  {
    ghost var before := s[..];
    var sums := CumulativeSoftmax(s, e);
    mask := new bool[s.Length];
    var j := 0;
    while j < s.Length
      invariant 0 <= j <= s.Length && s[..] == before
      invariant forall i :: 0 <= i < s.Length ==> sums[i] == Prefix(Softmax(before, e), i + 1)
      invariant forall i :: 0 <= i < j ==> mask[i] == (sums[i] > 1.0 - p)
    {
      mask[j] := sums[j] > 1.0 - p;
      j := j + 1;
    }
    mask[s.Length - 1] := true;
    assert forall i :: 0 <= i < s.Length ==> mask[i] == PassesP(Softmax(before, e), p, i);
    FillUnless(s, mask);
  }

  /** `scatter`: position `j` of the source goes to index `idx[j]`. */
  method Scatter<T>(src: array<T>, idx: seq<nat>) returns (out: seq<T>)
    requires Permutation(idx, src.Length)
    ensures |out| == src.Length && forall j :: 0 <= j < src.Length ==> out[idx[j]] == src[j]
  {
    out := src[..];
    var j := 0;
    while j < src.Length
      invariant 0 <= j <= src.Length && |out| == src.Length
      invariant forall i :: 0 <= i < j ==> out[idx[i]] == src[i]
    {
      out := out[idx[j] := src[j]];
      j := j + 1;
    }
  }

  method And(a: array<bool>, b: array<bool>) returns (both: array<bool>)
    requires a.Length == b.Length
    ensures fresh(both) && both.Length == a.Length
    ensures forall i :: 0 <= i < a.Length ==> both[i] == (a[i] && b[i])
  {
    both := new bool[a.Length];
    var j := 0;
    while j < a.Length
      invariant 0 <= j <= a.Length
      invariant forall i :: 0 <= i < j ==> both[i] == (a[i] && b[i])
    {
      both[j] := a[j] && b[j];
      j := j + 1;
    }
  }

  /** Mask a sorted row by top-k and then by top-p, in place. */
  method MaskSorted(s: array<Logit>, k: Option<int>, p: real, e: real -> real) returns (both: array<bool>)
    requires s.Length > 0 && ValidK(k, s.Length) && Proper(AfterTopK(s[..], k), e)
    modifies s
    ensures fresh(both) && both.Length == s.Length
    ensures
      var s0 := old(s[..]);
      var s1 := AfterTopK(s0, k);
      forall j :: 0 <= j < s.Length ==>
        && both[j] == (PassesK(s0, k, s0[j]) && PassesP(Softmax(s1, e), p, j))
        && s[j] == if PassesP(Softmax(s1, e), p, j) then s1[j] else NegInf
  {
    ghost var s0 := s[..];
    var kMask := MaskTopK(s, k);
    assert s[..] == AfterTopK(s0, k);
    ghost var s1 := s[..];
    var pMask := MaskTopP(s, p, e);
    assert forall j :: 0 <= j < s.Length ==> s[j] == if PassesP(Softmax(s1, e), p, j) then s1[j] else NegInf;
    both := And(kMask, pMask);
  }

  method FilterRow(row: seq<Logit>, idx: seq<nat>, k: Option<int>, p: real, e: real -> real)
      returns (filtered: seq<Logit>, keep: seq<bool>)
    requires RowReady(row, idx, k, p, e)
    ensures RowResult(row, idx, k, p, e, filtered, keep)
  {
    var n := |row|;
    var s := new Logit[n](j requires 0 <= j < n => row[idx[j]]);
    assert s[..] == Gather(row, idx);
    ghost var q := SoftmaxIsDistribution(row, idx, k, e);
    var both := MaskSorted(s, k, p, e);
    filtered := Scatter(s, idx);
    keep := Scatter(both, idx);
  }

  // ----- All rows -----

  ghost function Row<T>(a: array2<T>, r: nat): (s: seq<T>)
    requires r < a.Length0
    reads a
    ensures |s| == a.Length1 && forall v :: 0 <= v < |s| ==> s[v] == a[r, v]
  {
    seq(a.Length1, v requires 0 <= v < a.Length1 reads a => a[r, v])
  }

  ghost predicate RowsReady(logits: array2<Logit>, k: Option<int>, p: real, e: real -> real,
                            sorter: seq<Logit> -> seq<nat>)
    reads logits
  {
    forall r: nat :: r < logits.Length0 ==> RowReady(Row(logits, r), sorter(Row(logits, r)), k, p, e)
  }

  ghost predicate RowDone(logits: array2<Logit>, k: Option<int>, p: real, e: real -> real,
                          sorter: seq<Logit> -> seq<nat>,
                          filtered: array2<Logit>, keep: array2<bool>, r: nat)
    reads logits, filtered, keep
  {
    && r < logits.Length0 && filtered.Length0 == keep.Length0 == logits.Length0
    && RowResult(Row(logits, r), sorter(Row(logits, r)), k, p, e, Row(filtered, r), Row(keep, r))
  }

  method CopyRow<T>(a: array2<T>, r: nat) returns (s: seq<T>)
    requires r < a.Length0
    ensures s == Row(a, r)
  {
    s := [];
    var v := 0;
    while v < a.Length1
      invariant 0 <= v <= a.Length1
      invariant |s| == v && forall i :: 0 <= i < v ==> s[i] == a[r, i]
    {
      s := s + [a[r, v]];
      v := v + 1;
    }
  }

  method StoreRow<T>(a: array2<T>, r: nat, s: seq<T>)
    requires r < a.Length0 && |s| == a.Length1
    modifies a
    ensures Row(a, r) == s
    ensures forall i, v :: 0 <= i < a.Length0 && 0 <= v < a.Length1 && i != r ==> a[i, v] == old(a[i, v])
  {
    var v := 0;
    while v < a.Length1
      invariant 0 <= v <= a.Length1
      invariant forall i :: 0 <= i < v ==> a[r, i] == s[i]
      invariant forall i, u :: 0 <= i < a.Length0 && 0 <= u < a.Length1 && i != r ==> a[i, u] == old(a[i, u])
    {
      a[r, v] := s[v];
      v := v + 1;
    }
  }

  /** One row of the chunk body. */
  method FilterInto(logits: array2<Logit>, k: Option<int>, p: real, e: real -> real, sorter: seq<Logit> -> seq<nat>,
                    filtered: array2<Logit>, keep: array2<bool>, r: nat)
    requires RowsReady(logits, k, p, e, sorter) && r < logits.Length0
    requires filtered != logits
    requires filtered.Length0 == keep.Length0 == logits.Length0 && filtered.Length1 == keep.Length1 == logits.Length1
    requires forall i: nat :: i < r ==> RowDone(logits, k, p, e, sorter, filtered, keep, i)
    modifies filtered, keep
    ensures forall i: nat :: i <= r ==> RowDone(logits, k, p, e, sorter, filtered, keep, i)
  {
    var row := CopyRow(logits, r);
    var f, m := FilterRow(row, sorter(row), k, p, e);
    StoreRow(filtered, r, f);
    StoreRow(keep, r, m);
    forall i: nat | i < r ensures RowDone(logits, k, p, e, sorter, filtered, keep, i) {
      assert old(RowDone(logits, k, p, e, sorter, filtered, keep, i));
      assert Row(filtered, i) == old(Row(filtered, i));
      assert Row(keep, i) == old(Row(keep, i));
      assert Row(logits, i) == old(Row(logits, i));
    }
  }

  /** The chunk loop. Without a chunk size the step is the number of rows; a step of zero
      is the one call the range rejects. */
  method FilterChunks(logits: array2<Logit>, k: Option<int>, p: real, chunk: Option<nat>, e: real -> real,
                      sorter: seq<Logit> -> seq<nat>)
      returns (ok: bool, filtered: array2<Logit>, keep: array2<bool>)
    requires RowsReady(logits, k, p, e, sorter) && (chunk.Some? ==> chunk.value >= 1)
    ensures ok == !(chunk.None? && logits.Length0 == 0)
    ensures fresh(filtered) && fresh(keep)
    ensures filtered.Length0 == keep.Length0 == logits.Length0 && filtered.Length1 == keep.Length1 == logits.Length1
    ensures forall r: nat :: r < logits.Length0 ==> RowDone(logits, k, p, e, sorter, filtered, keep, r)
  {
    var rows := logits.Length0;
    var step := if chunk.Some? then chunk.value else rows;
    filtered := new Logit[rows, logits.Length1]((_, _) => NegInf);
    keep := new bool[rows, logits.Length1]((_, _) => false);
    ok := step != 0;
    if !ok {
      return;
    }
    var start := 0;
    while start < rows
      invariant 0 <= start
      invariant RowsReady(logits, k, p, e, sorter)
      invariant fresh(filtered) && fresh(keep)
      invariant forall r: nat :: r < start && r < rows ==> RowDone(logits, k, p, e, sorter, filtered, keep, r)
    {
      var end := if start + step < rows then start + step else rows;
      var r := start;
      while r < end
        invariant start <= r <= end
        invariant RowsReady(logits, k, p, e, sorter)
        invariant fresh(filtered) && fresh(keep)
        invariant forall i: nat :: i < r ==> RowDone(logits, k, p, e, sorter, filtered, keep, i)
      {
        FilterInto(logits, k, p, e, sorter, filtered, keep, r);
        r := r + 1;
      }
      start := start + step;
    }
  }

  // ----- The sort-free path -----

  method KeepAtLeast(row: seq<Logit>, k: nat, t: Logit) returns (filtered: seq<Logit>, keep: seq<bool>)
    requires IsKthLargest(row, k, t)
    ensures |filtered| == |keep| == |row|
    ensures forall v :: 0 <= v < |row| ==>
              && keep[v] == InTopK(row, Some(k), row[v])
              && filtered[v] == if keep[v] then row[v] else NegInf
  {
    filtered, keep := [], [];
    var v := 0;
    while v < |row|
      invariant 0 <= v <= |row| && |filtered| == |keep| == v
      invariant forall u :: 0 <= u < v ==> keep[u] == !Below(row[u], t)
      invariant forall u :: 0 <= u < v ==> filtered[u] == if keep[u] then row[u] else NegInf
    {
      keep := keep + [!Below(row[v], t)];
      filtered := filtered + [if Below(row[v], t) then NegInf else row[v]];
      v := v + 1;
    }
    forall u | 0 <= u < |row| ensures keep[u] == InTopK(row, Some(k), row[u]) {
      ReachingIsTopK(row, k, t, row[u]);
    }
  }

  method FilterRowTopK(logits: array2<Logit>, r: nat, row: seq<Logit>, k: nat, t: Logit, filtered: array2<Logit>,
                       keep: array2<bool>)
    requires r < logits.Length0 && row == Row(logits, r) && IsKthLargest(row, k, t)
    requires filtered != logits
    requires filtered.Length0 == keep.Length0 == logits.Length0 && filtered.Length1 == keep.Length1 == logits.Length1
    modifies filtered, keep
    ensures forall v: nat :: v < logits.Length1 ==>
              && keep[r, v] == InTopK(row, Some(k), row[v])
              && filtered[r, v] == if keep[r, v] then row[v] else NegInf
    ensures forall i, v :: 0 <= i < logits.Length0 && 0 <= v < logits.Length1 && i != r ==>
              filtered[i, v] == old(filtered[i, v]) && keep[i, v] == old(keep[i, v])
  {
    var f, m := KeepAtLeast(row, k, t);
    StoreRow(filtered, r, f);
    StoreRow(keep, r, m);
    forall v: nat | v < logits.Length1 ensures filtered[r, v] == f[v] && keep[r, v] == m[v] && row[v] == logits[r, v] {
      assert filtered[r, v] == Row(filtered, r)[v] && keep[r, v] == Row(keep, r)[v];
    }
  }

  /** `_apply_top_k_only_fn`; `kth` stands for the last value of `torch.topk`. */
  method FilterTopKOnly(logits: array2<Logit>, k: nat, kth: (seq<Logit>, nat) -> Logit)
      returns (filtered: array2<Logit>, keep: array2<bool>)
    requires k >= 1
    requires forall r: nat :: r < logits.Length0 ==> IsKthLargest(Row(logits, r), k, kth(Row(logits, r), k))
    ensures fresh(filtered) && fresh(keep)
    ensures filtered.Length0 == keep.Length0 == logits.Length0 && filtered.Length1 == keep.Length1 == logits.Length1
    ensures forall r: nat, v: nat :: r < logits.Length0 && v < logits.Length1 ==>
              && keep[r, v] == InTopK(Row(logits, r), Some(k), logits[r, v])
              && filtered[r, v] == if keep[r, v] then logits[r, v] else NegInf
  {
    filtered := new Logit[logits.Length0, logits.Length1]((_, _) => NegInf);
    keep := new bool[logits.Length0, logits.Length1]((_, _) => false);
    var r := 0;
    while r < logits.Length0
      invariant 0 <= r <= logits.Length0 && fresh(filtered) && fresh(keep)
      invariant forall i: nat, v: nat :: i < r && v < logits.Length1 ==>
                  && keep[i, v] == InTopK(Row(logits, i), Some(k), logits[i, v])
                  && filtered[i, v] == if keep[i, v] then logits[i, v] else NegInf
    {
      var row := CopyRow(logits, r);
      FilterRowTopK(logits, r, row, k, kth(row, k), filtered, keep);
      r := r + 1;
    }
  }

  /** Each row of the output is the row filtered to a nucleus. */
  ghost predicate AllFiltered(logits: array2<Logit>, k: Option<int>, p: real, e: real -> real, filtered: array2<Logit>)
    reads logits, filtered
  {
    && filtered.Length0 == logits.Length0 && filtered.Length1 == logits.Length1
    && forall r: nat :: r < logits.Length0 ==> IsFiltered(Row(logits, r), k, p, e, Row(filtered, r))
  }

  /** `_apply_top_k_top_p_fn`: without top-p the sort is avoided, without either nothing is
      done and there is no mask. Whichever way is taken, for every `top_p` each row comes out
      filtered to a nucleus. */
  method ApplyTopKTopP(logits: array2<Logit>, k: Option<int>, p: real, chunk: Option<nat>, e: real -> real,
                       sorter: seq<Logit> -> seq<nat>, kth: (seq<Logit>, nat) -> Logit)
      returns (ok: bool, filtered: array2<Logit>, keep: Option<array2<bool>>)
    requires p != 1.0 ==> RowsReady(logits, k, p, e, sorter) && (chunk.Some? ==> chunk.value >= 1)
    requires p == 1.0 && k.Some? && k.value > 0 ==>
               forall r: nat :: r < logits.Length0 ==>
                 IsKthLargest(Row(logits, r), k.value, kth(Row(logits, r), k.value))
    ensures keep.None? <==> p == 1.0 && (k.None? || k.value <= 0)
    ensures ok == !(p != 1.0 && chunk.None? && logits.Length0 == 0)
    ensures keep.None? ==> filtered == logits
    ensures filtered.Length0 == logits.Length0 && filtered.Length1 == logits.Length1
    ensures keep.Some? ==> keep.value.Length0 == logits.Length0 && keep.value.Length1 == logits.Length1
    ensures p != 1.0 ==>
              forall r: nat :: r < logits.Length0 ==> RowDone(logits, k, p, e, sorter, filtered, keep.value, r)
    ensures p == 1.0 && k.Some? && k.value > 0 ==>
              forall r: nat, v: nat :: r < logits.Length0 && v < logits.Length1 ==>
                && keep.value[r, v] == (|Larger(Row(logits, r), logits[r, v])| < k.value)
                && filtered[r, v] == if keep.value[r, v] then logits[r, v] else NegInf
    ensures RowsReady(logits, k, p, e, sorter) ==> AllFiltered(logits, k, p, e, filtered)
  {
    if !NeedTopP(p) {
      if !NeedTopK(k) {
        ok, filtered, keep := true, logits, None;
      } else {
        var f, m := FilterTopKOnly(logits, k.value, kth);
        ok, filtered, keep := true, f, Some(m);
      }
      if RowsReady(logits, k, p, e, sorter) {
        forall r: nat | r < logits.Length0 ensures IsFiltered(Row(logits, r), k, p, e, Row(filtered, r)) {
          ShortcutIsFiltered(Row(logits, r), sorter(Row(logits, r)), k, e, Row(filtered, r));
        }
      }
    } else {
      var m;
      ok, filtered, m := FilterChunks(logits, k, p, chunk, e, sorter);
      keep := Some(m);
      forall r: nat | r < logits.Length0 ensures IsFiltered(Row(logits, r), k, p, e, Row(filtered, r)) {
        assert RowDone(logits, k, p, e, sorter, filtered, m, r);
        ResultIsFiltered(Row(logits, r), sorter(Row(logits, r)), k, p, e, Row(filtered, r), Row(m, r));
      }
    }
  }

  /** The shortcuts without a sort come out like the sort would at `top_p` 1. */
  lemma ShortcutIsFiltered(row: seq<Logit>, idx: seq<nat>, k: Option<int>, e: real -> real, out: seq<Logit>)
    requires RowReady(row, idx, k, 1.0, e) && |out| == |row|
    requires forall v :: 0 <= v < |row| ==> out[v] == if InTopK(row, k, row[v]) then row[v] else NegInf
    ensures IsFiltered(row, k, 1.0, e, out)
  {
    var filtered, keep := ResultExists(row, idx, k, 1.0, e);
    ShortcutAgreesAtOne(row, idx, k, e, filtered, keep);
    ResultIsFiltered(row, idx, k, 1.0, e, filtered, keep);
    assert out == filtered;
  }
}
