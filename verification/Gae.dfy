// Generalised advantage estimation with carry-forward masking, in exact arithmetic.
module Gae {

  ghost predicate IsMask(m: seq<real>) {
    forall t :: 0 <= t < |m| ==> m[t] == 0.0 || m[t] == 1.0
  }

  /** The two accumulators of the backward loop. */
  datatype Acc = Acc(nextValue: real, lastGae: real)

  /** One iteration of the loop at a position with reward `r`, value `v` and mask `m`. */
  function Back(acc: Acc, r: real, v: real, m: real, gamma: real, lam: real): Acc {
    var delta := r + gamma * acc.nextValue - v;
    var newGae := delta + gamma * lam * acc.lastGae;
    Acc(v * m + (1.0 - m) * acc.nextValue, newGae * m + (1.0 - m) * acc.lastGae)
  }

  /** The accumulators after the loop has run from the end down to position `t`. */
  function Run(r: seq<real>, v: seq<real>, m: seq<real>, gamma: real, lam: real, t: nat): Acc
    requires |r| == |v| == |m| && t <= |r|
    decreases |r| - t
  {
    if t == |r| then Acc(0.0, 0.0)
    else Back(Run(r, v, m, gamma, lam, t + 1), r[t], v[t], m[t], gamma, lam)
  }

  // ----- The textbook definition -----

  /** The temporal-difference error of an unmasked sequence; the value after the end is 0. */
  function Delta(r: seq<real>, v: seq<real>, gamma: real, t: nat): real
    requires |r| == |v| && t < |r|
  {
    r[t] + gamma * (if t + 1 < |v| then v[t + 1] else 0.0) - v[t]
  }

  function Pow(x: real, n: nat): real {
    if n == 0 then 1.0 else x * Pow(x, n - 1)
  }

  /** The discounted sum of `x[t..]` from position `t`: sum over l of `d^l * x[t + l]`. */
  function Discounted(x: seq<real>, d: real, t: nat, n: nat): real
    requires t + n <= |x|
  {
    if n == 0 then 0.0 else Discounted(x, d, t, n - 1) + Pow(d, n - 1) * x[t + n - 1]
  }

  function Deltas(r: seq<real>, v: seq<real>, gamma: real): (d: seq<real>)
    requires |r| == |v|
    ensures |d| == |r| && forall t :: 0 <= t < |r| ==> d[t] == Delta(r, v, gamma, t)
  {
    seq(|r|, t requires 0 <= t < |r| => Delta(r, v, gamma, t))
  }

  /** The advantage of an unmasked sequence: sum over l of `(gamma lam)^l * delta[t + l]`. */
  function PlainAdvantage(r: seq<real>, v: seq<real>, gamma: real, lam: real, t: nat): real
    requires |r| == |v| && t <= |r|
  {
    Discounted(Deltas(r, v, gamma), gamma * lam, t, |r| - t)
  }

  // ----- Compaction -----

  /** The entries of `x` at the positions the mask selects. */
  function Compact(x: seq<real>, m: seq<real>): seq<real>
    requires |x| == |m|
  {
    if x == [] then []
    else (if m[0] == 1.0 then [x[0]] else []) + Compact(x[1..], m[1..])
  }

  /** How many selected positions precede `t`. */
  function Rank(m: seq<real>, t: nat): nat
    requires t <= |m|
  {
    if t == 0 then 0 else Rank(m, t - 1) + (if m[t - 1] == 1.0 then 1 else 0)
  }

  lemma {:induction false} CompactLength(x: seq<real>, m: seq<real>)
    requires |x| == |m|
    ensures |Compact(x, m)| == Rank(m, |m|)
  {
    if x != [] {
      CompactLength(x[1..], m[1..]);
      RankShift(m, |m|);
    }
  }

  lemma {:induction false} RankShift(m: seq<real>, t: nat)
    requires 1 <= t <= |m|
    ensures Rank(m, t) == (if m[0] == 1.0 then 1 else 0) + Rank(m[1..], t - 1)
  {
    if t > 1 {
      RankShift(m, t - 1);
    }
  }

  /** Compacting a suffix drops the selected entries before it. */
  lemma {:induction false} CompactSuffix(x: seq<real>, m: seq<real>, t: nat)
    requires |x| == |m| && t <= |x|
    ensures Rank(m, t) <= |Compact(x, m)|
    ensures Compact(x[t..], m[t..]) == Compact(x, m)[Rank(m, t)..]
  {
    if t == 0 {
      assert x[0..] == x && m[0..] == m;
    } else {
      CompactSuffix(x[1..], m[1..], t - 1);
      RankShift(m, t);
      assert x[1..][t - 1..] == x[t..] && m[1..][t - 1..] == m[t..];
    }
  }

  // ----- Carry-forward equals plain GAE on the compacted sequence -----

  function Ones(n: nat): (m: seq<real>)
    ensures |m| == n && forall t :: 0 <= t < n ==> m[t] == 1.0
  {
    seq(n, _ => 1.0)
  }

  lemma {:induction false} RunShift(r: seq<real>, v: seq<real>, m: seq<real>, gamma: real, lam: real, s: nat, t: nat)
    requires |r| == |v| == |m| && s <= t <= |r|
    ensures Run(r, v, m, gamma, lam, t) == Run(r[s..], v[s..], m[s..], gamma, lam, t - s)
    decreases |r| - t
  {
    if t < |r| {
      RunShift(r, v, m, gamma, lam, s, t + 1);
    }
  }

  lemma BackMasked(acc: Acc, r: real, v: real, gamma: real, lam: real)
    ensures Back(acc, r, v, 0.0, gamma, lam) == acc
  {
  }

  /** A run unfolds from the front: the tail first, then the head. */
  lemma RunHead(r: seq<real>, v: seq<real>, m: seq<real>, gamma: real, lam: real)
    requires |r| == |v| == |m| > 0
    ensures Run(r, v, m, gamma, lam, 0)
            == Back(Run(r[1..], v[1..], m[1..], gamma, lam, 0), r[0], v[0], m[0], gamma, lam)
  {
    RunShift(r, v, m, gamma, lam, 1, 1);
  }

  /** Skipping the masked positions changes neither accumulator. */
  lemma {:induction false} CarryForwardIsCompaction(r: seq<real>, v: seq<real>, m: seq<real>, gamma: real, lam: real)
    requires |r| == |v| == |m| && IsMask(m)
    ensures |Compact(r, m)| == |Compact(v, m)|
    ensures Run(r, v, m, gamma, lam, 0)
         == Run(Compact(r, m), Compact(v, m), Ones(|Compact(r, m)|), gamma, lam, 0)
  {
    CompactLength(r, m);
    CompactLength(v, m);
    if r != [] {
      CarryForwardIsCompaction(r[1..], v[1..], m[1..], gamma, lam);
      RunHead(r, v, m, gamma, lam);
      if m[0] == 1.0 {
        var cr, cv := Compact(r, m), Compact(v, m);
        RunHead(cr, cv, Ones(|cr|), gamma, lam);
        assert cr[1..] == Compact(r[1..], m[1..]) && cv[1..] == Compact(v[1..], m[1..]);
        assert Ones(|cr|)[1..] == Ones(|cr| - 1);
      } else {
        assert Compact(r, m) == Compact(r[1..], m[1..]) && Compact(v, m) == Compact(v[1..], m[1..]);
        BackMasked(Run(r[1..], v[1..], m[1..], gamma, lam, 0), r[0], v[0], gamma, lam);
      }
    }
  }

  // ----- The recursion equals the closed form -----

  lemma {:induction false} DiscountedStep(x: seq<real>, d: real, t: nat, n: nat)
    requires t + n + 1 <= |x|
    ensures Discounted(x, d, t, n + 1) == x[t] + d * Discounted(x, d, t + 1, n)
  {
    if n == 0 {
      assert Pow(d, 0) == 1.0;
    } else {
      DiscountedStep(x, d, t, n - 1);
      var y := x[t + n];
      var p := Pow(d, n - 1);
      assert Pow(d, n) == d * p;
      Distribute(d, Discounted(x, d, t + 1, n - 1), p, y);
    }
  }

  lemma Distribute(d: real, a: real, p: real, y: real)
    ensures d * (a + p * y) == d * a + (d * p) * y
  {
  }

  lemma {:induction false} RunIsClosedForm(r: seq<real>, v: seq<real>, gamma: real, lam: real, t: nat)
    requires |r| == |v| && t <= |r|
    ensures Run(r, v, Ones(|r|), gamma, lam, t) ==
            Acc(if t < |v| then v[t] else 0.0, PlainAdvantage(r, v, gamma, lam, t))
    decreases |r| - t
  {
    if t < |r| {
      RunIsClosedForm(r, v, gamma, lam, t + 1);
      DiscountedStep(Deltas(r, v, gamma), gamma * lam, t, |r| - t - 1);
    }
  }

  /** Main result: over any 0/1 mask the accumulator the loop appends at position `t` is the
      textbook advantage, on the compacted sequence, of the first selected position at or
      after `t`; it is 0 when there is none. */
  lemma CarriedAdvantage(r: seq<real>, v: seq<real>, m: seq<real>, gamma: real, lam: real, t: nat)
    requires |r| == |v| == |m| && IsMask(m) && t <= |r|
    ensures |Compact(r, m)| == |Compact(v, m)| && Rank(m, t) <= |Compact(r, m)|
    ensures Run(r, v, m, gamma, lam, t).lastGae == PlainAdvantage(Compact(r, m), Compact(v, m), gamma, lam, Rank(m, t))
    ensures Rank(m, t) == |Compact(r, m)| ==> Run(r, v, m, gamma, lam, t).lastGae == 0.0
  {
    var cr, cv, k := Compact(r, m), Compact(v, m), Rank(m, t);
    CompactLength(r, m); CompactLength(v, m);
    CompactSuffix(r, m, t); CompactSuffix(v, m, t);
    RunShift(r, v, m, gamma, lam, t, t);
    CarryForwardIsCompaction(r[t..], v[t..], m[t..], gamma, lam);
    var n := |cr| - k;
    assert Compact(r[t..], m[t..]) == cr[k..] && Compact(v[t..], m[t..]) == cv[k..];
    RunShift(cr, cv, Ones(|cr|), gamma, lam, k, k);
    assert Ones(|cr|)[k..] == Ones(n);
    RunIsClosedForm(cr, cv, gamma, lam, k);
  }

  // ----- lambda = 1: returns telescope -----

  /** With lambda 1 the advantage plus the value is the discounted sum of rewards. */
  lemma {:induction false} ReturnsTelescope(r: seq<real>, v: seq<real>, gamma: real, t: nat)
    requires |r| == |v| && t < |r|
    ensures PlainAdvantage(r, v, gamma, 1.0, t) + v[t] == Discounted(r, gamma, t, |r| - t)
    decreases |r| - t
  {
    var d := Deltas(r, v, gamma);
    assert gamma * 1.0 == gamma;
    DiscountedStep(d, gamma, t, |r| - t - 1);
    DiscountedStep(r, gamma, t, |r| - t - 1);
    if t + 1 < |r| {
      ReturnsTelescope(r, v, gamma, t + 1);
      TelescopeStep(r[t], gamma, v[t + 1], v[t], PlainAdvantage(r, v, gamma, 1.0, t + 1));
    }
  }

  lemma TelescopeStep(r: real, gamma: real, next: real, v: real, a: real)
    ensures r + gamma * next - v + gamma * a + v == r + gamma * (a + next)
  {
  }

  lemma {:induction false} PowOne(n: nat)
    ensures Pow(1.0, n) == 1.0
  {
    if n > 0 {
      PowOne(n - 1);
    }
  }

  /** Rewards that are 0 except for `x` at the end sum to `x` from everywhere. */
  lemma {:induction false} TerminalSum(r: seq<real>, x: real, t: nat, n: nat)
    requires t + n <= |r|
    requires forall i :: 0 <= i < |r| - 1 ==> r[i] == 0.0
    requires |r| > 0 ==> r[|r| - 1] == x
    ensures Discounted(r, 1.0, t, n) == if n > 0 && t + n == |r| then x else 0.0
  {
    if n > 0 {
      TerminalSum(r, x, t, n - 1);
      PowOne(n - 1);
    }
  }

  // ----- Terminal reward placement -----

  /** The last selected position: `seq_len - 1 - argmax(flip(mask))`. */
  ghost predicate IsLastSelected(m: seq<real>, last: nat) {
    last < |m| && m[last] == 1.0 && forall t :: last < t < |m| ==> m[t] != 1.0
  }

  /** Rewards of a row without a KL penalty: `x` at the last selected position. */
  function TerminalRewards(m: seq<real>, last: nat, x: real): (r: seq<real>)
    ensures |r| == |m| && forall t :: 0 <= t < |m| ==> r[t] == if t == last then x else 0.0
  {
    seq(|m|, t => if t == last then x else 0.0)
  }

  lemma {:induction false} CompactAt(x: seq<real>, m: seq<real>, t: nat)
    requires |x| == |m| && t < |x| && m[t] == 1.0
    ensures Rank(m, t) < |Compact(x, m)| && Compact(x, m)[Rank(m, t)] == x[t]
  {
    if t > 0 {
      CompactAt(x[1..], m[1..], t - 1);
      RankShift(m, t);
    }
  }

  lemma {:induction false} CompactOfTerminal(m: seq<real>, last: nat, x: real)
    requires IsMask(m) && IsLastSelected(m, last)
    ensures
      var c := Compact(TerminalRewards(m, last, x), m);
      |c| > 0 && c[|c| - 1] == x && forall i :: 0 <= i < |c| - 1 ==> c[i] == 0.0
    decreases |m|
  {
    var r := TerminalRewards(m, last, x);
    if last == 0 {
      CompactNone(r[1..], m[1..]);
    } else {
      CompactOfTerminal(m[1..], last - 1, x);
      assert r[1..] == TerminalRewards(m[1..], last - 1, x);
    }
  }

  lemma {:induction false} CompactNone(x: seq<real>, m: seq<real>)
    requires |x| == |m| && forall t :: 0 <= t < |m| ==> m[t] != 1.0
    ensures Compact(x, m) == []
  {
    if x != [] {
      CompactNone(x[1..], m[1..]);
    }
  }

  lemma PlainReturn(r: seq<real>, v: seq<real>, x: real, k: nat)
    requires |r| == |v| && k < |r|
    requires r[|r| - 1] == x && forall i :: 0 <= i < |r| - 1 ==> r[i] == 0.0
    ensures PlainAdvantage(r, v, 1.0, 1.0, k) + v[k] == x
  {
    ReturnsTelescope(r, v, 1.0, k);
    TerminalSum(r, x, k, |r| - k);
  }

  /** End to end with discount 1 and value lambda 1: the return of every response token is
      the terminal reward, however many gaps the mask has and whatever the values are. */
  lemma EveryReturnIsTheReward(v: seq<real>, m: seq<real>, last: nat, x: real, t: nat)
    requires |v| == |m| && IsMask(m) && IsLastSelected(m, last) && t < |m| && m[t] == 1.0
    ensures Run(TerminalRewards(m, last, x), v, m, 1.0, 1.0, t).lastGae + v[t] == x
  {
    var r := TerminalRewards(m, last, x);
    CarriedAdvantage(r, v, m, 1.0, 1.0, t);
    CompactAt(r, m, t);
    CompactAt(v, m, t);
    CompactOfTerminal(m, last, x);
    PlainReturn(Compact(r, m), Compact(v, m), x, Rank(m, t));
  }
}
