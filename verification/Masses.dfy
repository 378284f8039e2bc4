// Sums of real weights over sets of indices.
module Masses {

  /** The total weight of the indices of `w` that lie in `s`. */
  ghost function Mass(w: seq<real>, s: set<nat>): real {
    if w == [] then 0.0
    else
      var k: nat := |w| - 1;
      Mass(w[..k], s) + (if k in s then w[k] else 0.0)
  }

  /** How many of the first `n` indices lie in `s`. */
  ghost function Count(n: nat, s: set<nat>): nat {
    if n == 0 then 0 else Count(n - 1, s) + (if n - 1 in s then 1 else 0)
  }

  ghost predicate Within(s: set<nat>, n: nat) {
    forall i :: i in s ==> i < n
  }

  ghost function Range(n: nat): (r: set<nat>)
    ensures forall i: nat :: i in r <==> i < n
  {
    if n == 0 then {} else Range(n - 1) + {n - 1}
  }

  lemma {:induction false} CountIsSize(n: nat, s: set<nat>)
    requires Within(s, n)
    ensures Count(n, s) == |s|
  {
    if n == 0 {
      assert s == {};
    } else if n - 1 in s {
      var t := s - {n - 1};
      CountIsSize(n - 1, t);
      CountAgrees(n - 1, s, t);
    } else {
      CountIsSize(n - 1, s);
    }
  }

  lemma {:induction false} CountAgrees(n: nat, s: set<nat>, t: set<nat>)
    requires forall i: nat :: i < n ==> (i in s <==> i in t)
    ensures Count(n, s) == Count(n, t)
  {
    if n > 0 {
      CountAgrees(n - 1, s, t);
    }
  }

  lemma {:induction false} MassAgrees(w: seq<real>, s: set<nat>, t: set<nat>)
    requires forall i: nat :: i < |w| ==> (i in s <==> i in t)
    ensures Mass(w, s) == Mass(w, t)
  {
    if w != [] {
      MassAgrees(w[..|w| - 1], s, t);
    }
  }

  lemma {:induction false} MassAdd(w: seq<real>, s: set<nat>, x: nat)
    requires x < |w| && x !in s
    ensures Mass(w, s + {x}) == Mass(w, s) + w[x]
  {
    var k: nat := |w| - 1;
    if x == k {
      MassAgrees(w[..k], s + {x}, s);
    } else {
      MassAdd(w[..k], s, x);
    }
  }

  lemma {:induction false} MassEmpty(w: seq<real>)
    ensures Mass(w, {}) == 0.0
  {
    if w != [] {
      MassEmpty(w[..|w| - 1]);
    }
  }

  /** The mass of `s` after shifting every weight down by `c`. */
  ghost function Excess(w: seq<real>, c: real, s: set<nat>): real {
    if w == [] then 0.0
    else
      var k: nat := |w| - 1;
      Excess(w[..k], c, s) + (if k in s then w[k] - c else 0.0)
  }

  /** A larger sum after shifting fewer weights down is larger before. */
  lemma Unshift(a: real, b: real, c: real, m: real, n: real)
    requires c >= 0.0 && m <= n && a - c * m <= b - c * n
    ensures a <= b
  {
    assert c * n - c * m == c * (n - m);
  }

  lemma TimesNext(c: real, k: nat)
    ensures c * (k + 1) as real == c * k as real + c
  {
  }

  lemma {:induction false} ExcessIs(w: seq<real>, c: real, s: set<nat>)
    ensures Excess(w, c, s) == Mass(w, s) - c * Count(|w|, s) as real
  {
    if w != [] {
      var k: nat := |w| - 1;
      ExcessIs(w[..k], c, s);
      TimesNext(c, Count(k, s));
    }
  }

  /** The exchange argument: shifted by the threshold `c`, each index of `top` counts
      non-negatively and every other index non-positively. */
  lemma {:induction false} Exchange(w: seq<real>, c: real, top: set<nat>, s: set<nat>)
    requires forall i: nat :: i < |w| ==> (if i in top then c <= w[i] else w[i] <= c)
    ensures Excess(w, c, s) <= Excess(w, c, top)
  {
    if w != [] {
      Exchange(w[..|w| - 1], c, top, s);
    }
  }

  /** No set outweighs the heaviest set that is at least as large. */
  lemma HeaviestWins(w: seq<real>, c: real, top: set<nat>, s: set<nat>)
    requires c >= 0.0 && Within(top, |w|) && Within(s, |w|) && |s| <= |top|
    requires forall i: nat :: i < |w| ==> (if i in top then c <= w[i] else w[i] <= c)
    ensures Mass(w, s) <= Mass(w, top)
  {
    Exchange(w, c, top, s);
    ExcessOfSet(w, c, s);
    ExcessOfSet(w, c, top);
    Unshift(Mass(w, s), Mass(w, top), c, |s| as real, |top| as real);
  }

  lemma ExcessOfSet(w: seq<real>, c: real, s: set<nat>)
    requires Within(s, |w|)
    ensures Excess(w, c, s) == Mass(w, s) - c * |s| as real
  {
    ExcessIs(w, c, s);
    CountIsSize(|w|, s);
  }

  // ----- Sums along a permutation -----

  /** The sum of the first `j` entries. */
  ghost function Prefix(w: seq<real>, j: nat): real
    requires j <= |w|
  {
    if j == 0 then 0.0 else Prefix(w, j - 1) + w[j - 1]
  }

  ghost predicate Permutation(idx: seq<nat>, n: nat) {
    && |idx| == n
    && (forall i :: 0 <= i < n ==> idx[i] < n)
    && (forall i, j :: 0 <= i < j < n ==> idx[i] != idx[j])
  }

  /** The indices at positions `lo` up to `hi`. */
  ghost function Image(idx: seq<nat>, lo: nat, hi: nat): set<nat>
    requires lo <= hi <= |idx|
    decreases hi
  {
    if lo == hi then {} else Image(idx, lo, hi - 1) + {idx[hi - 1]}
  }

  lemma {:induction false} ImageIff(idx: seq<nat>, lo: nat, hi: nat, x: nat)
    requires lo <= hi <= |idx|
    ensures x in Image(idx, lo, hi) <==> exists i :: lo <= i < hi && idx[i] == x
    decreases hi
  {
    if lo < hi {
      ImageIff(idx, lo, hi - 1, x);
    }
  }

  lemma {:induction false} ImageSize(idx: seq<nat>, n: nat, lo: nat, hi: nat)
    requires Permutation(idx, n) && lo <= hi <= n
    ensures |Image(idx, lo, hi)| == hi - lo && Within(Image(idx, lo, hi), n)
    decreases hi
  {
    if lo < hi {
      ImageSize(idx, n, lo, hi - 1);
      ImageIff(idx, lo, hi - 1, idx[hi - 1]);
    }
  }

  lemma {:induction false} ImageSplit(idx: seq<nat>, n: nat, lo: nat, hi: nat)
    requires Permutation(idx, n) && lo <= hi <= n
    ensures Image(idx, 0, hi) == Image(idx, 0, lo) + Image(idx, lo, hi)
    ensures Image(idx, 0, lo) !! Image(idx, lo, hi)
    decreases hi
  {
    if lo < hi {
      ImageSplit(idx, n, lo, hi - 1);
      ImageIff(idx, 0, lo, idx[hi - 1]);
    }
  }

  /** A permutation reaches every index. */
  lemma ImageIsAll(idx: seq<nat>, n: nat)
    requires Permutation(idx, n)
    ensures Image(idx, 0, n) == Range(n)
  {
    ImageSize(idx, n, 0, n);
    RangeSize(n);
    SubsetSize(Image(idx, 0, n), Range(n));
  }

  lemma {:induction false} RangeSize(n: nat)
    ensures |Range(n)| == n
  {
    if n > 0 {
      RangeSize(n - 1);
    }
  }

  lemma SubsetSize(a: set<nat>, b: set<nat>)
    requires a <= b && |a| == |b|
    ensures a == b
  {
    assert |b - a| == |b| - |a|;
    assert b - a == {};
  }

  /** Summing along a permutation is summing over the set it reaches. */
  lemma {:induction false} PrefixIsMass(w: seq<real>, v: seq<real>, idx: seq<nat>, j: nat)
    requires |w| == |v| && Permutation(idx, |w|) && j <= |w|
    requires forall i :: 0 <= i < |w| ==> v[i] == w[idx[i]]
    ensures Prefix(v, j) == Mass(w, Image(idx, 0, j))
  {
    if j == 0 {
      MassEmpty(w);
    } else {
      PrefixIsMass(w, v, idx, j - 1);
      ImageIff(idx, 0, j - 1, idx[j - 1]);
      MassAdd(w, Image(idx, 0, j - 1), idx[j - 1]);
    }
  }

  lemma {:induction false} MassSplit(w: seq<real>, s: set<nat>, t: set<nat>)
    requires s !! t
    ensures Mass(w, s + t) == Mass(w, s) + Mass(w, t)
  {
    if w != [] {
      MassSplit(w[..|w| - 1], s, t);
    }
  }
}
