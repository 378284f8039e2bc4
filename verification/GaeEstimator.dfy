// The advantage estimator as it is programmed: batch loops over rows that share one
// backward pass, in-place reward placement, and the choice of lambda.
module GaeEstimator {
  import opened Prelude
  import opened Gae

  ghost function RowOf(a: array2<real>, i: nat): (s: seq<real>)
    requires i < a.Length0
    reads a
    ensures |s| == a.Length1 && forall t :: 0 <= t < |s| ==> s[t] == a[i, t]
  {
    seq(a.Length1, t requires 0 <= t < a.Length1 reads a => a[i, t])
  }

  predicate SameShape(a: array2<real>, b: array2<real>) {
    a.Length0 == b.Length0 && a.Length1 == b.Length1
  }

  /** The accumulators of row `i` after the pass has reached position `t`. */
  ghost function RowRun(rewards: array2<real>, values: array2<real>, mask: array2<real>, gamma: real, lam: seq<real>,
                        i: nat, t: nat): Acc
    requires SameShape(rewards, values) && SameShape(rewards, mask) && |lam| == rewards.Length0
    requires i < rewards.Length0 && t <= rewards.Length1
    reads rewards, values, mask
  {
    Run(RowOf(rewards, i), RowOf(values, i), RowOf(mask, i), gamma, lam[i], t)
  }

  /** `_compute_gae`: one backward loop over the time axis; the two accumulators hold one
      entry per row, and lambda may differ from row to row. */
  method ComputeGae(rewards: array2<real>, values: array2<real>, mask: array2<real>, gamma: real, lam: seq<real>)
      returns (advantages: array2<real>, returns_: array2<real>)
    requires SameShape(rewards, values) && SameShape(rewards, mask) && |lam| == rewards.Length0
    ensures fresh(advantages) && fresh(returns_) && SameShape(advantages, rewards) && SameShape(returns_, rewards)
    ensures advantages != returns_
    ensures forall i: nat, t: nat :: i < rewards.Length0 && t < rewards.Length1 ==>
              advantages[i, t] == RowRun(rewards, values, mask, gamma, lam, i, t).lastGae
    ensures forall i: nat, t: nat :: i < rewards.Length0 && t < rewards.Length1 ==>
              returns_[i, t] == advantages[i, t] + values[i, t]
  {
    var n, len := rewards.Length0, rewards.Length1;
    advantages := new real[n, len];
    var acc := new Acc[n](_ => Acc(0.0, 0.0));
    var t := len;
    while t > 0
      invariant 0 <= t <= len
      invariant forall i: nat :: i < n ==> acc[i] == RowRun(rewards, values, mask, gamma, lam, i, t)
      invariant forall i: nat, u: nat :: i < n && t <= u < len ==>
                  advantages[i, u] == RowRun(rewards, values, mask, gamma, lam, i, u).lastGae
    {
      t := t - 1;
      BackAll(rewards, values, mask, gamma, lam, acc, t);
      StoreColumn(advantages, acc, t);
    }
    returns_ := new real[n, len];
    AddAll(advantages, values, returns_);
  }

  /** One step of the backward loop, for every row. */
  method BackAll(rewards: array2<real>, values: array2<real>, mask: array2<real>, gamma: real, lam: seq<real>,
                 acc: array<Acc>, t: nat)
    requires SameShape(rewards, values) && SameShape(rewards, mask) && |lam| == rewards.Length0 == acc.Length
    requires t < rewards.Length1
    requires forall i: nat :: i < acc.Length ==> acc[i] == RowRun(rewards, values, mask, gamma, lam, i, t + 1)
    modifies acc
    ensures forall i: nat :: i < acc.Length ==> acc[i] == RowRun(rewards, values, mask, gamma, lam, i, t)
  {
    var i := 0;
    while i < acc.Length
      invariant 0 <= i <= acc.Length
      invariant forall j: nat :: j < i ==> acc[j] == RowRun(rewards, values, mask, gamma, lam, j, t)
      invariant forall j: nat :: i <= j < acc.Length ==> acc[j] == RowRun(rewards, values, mask, gamma, lam, j, t + 1)
    {
      acc[i] := Back(acc[i], rewards[i, t], values[i, t], mask[i, t], gamma, lam[i]);
      i := i + 1;
    }
  }

  method StoreColumn(a: array2<real>, acc: array<Acc>, t: nat)
    requires a.Length0 == acc.Length && t < a.Length1
    modifies a
    ensures forall i: nat :: i < a.Length0 ==> a[i, t] == acc[i].lastGae
    ensures forall i: nat, u: nat :: i < a.Length0 && u < a.Length1 && u != t ==> a[i, u] == old(a[i, u])
  {
    forall i | 0 <= i < a.Length0 {
      a[i, t] := acc[i].lastGae;
    }
  }

  method AddAll(a: array2<real>, b: array2<real>, sum: array2<real>)
    requires SameShape(a, b) && SameShape(a, sum) && sum != a && sum != b
    modifies sum
    ensures forall i, t :: 0 <= i < a.Length0 && 0 <= t < a.Length1 ==> sum[i, t] == a[i, t] + b[i, t]
  {
    forall i, t | 0 <= i < a.Length0 && 0 <= t < a.Length1 {
      sum[i, t] := a[i, t] + b[i, t];
    }
  }

  // ----- Token-level rewards -----

  /** The last selected position of a row, found from the right; -1 when there is none. */
  method LastSelected(mask: array2<real>, i: nat) returns (last: int)
    requires i < mask.Length0
    ensures -1 <= last < mask.Length1
    ensures last >= 0 ==> IsLastSelected(RowOf(mask, i), last)
    ensures last < 0 ==> forall t :: 0 <= t < mask.Length1 ==> mask[i, t] != 1.0
  {
    last := mask.Length1 - 1;
    while last >= 0 && mask[i, last] != 1.0
      invariant -1 <= last < mask.Length1
      invariant forall t :: last < t < mask.Length1 ==> mask[i, t] != 1.0
    {
      last := last - 1;
    }
  }

  /** The penalty subtracted at every position, when there is one. */
  function Penalty(kl: Option<seq<seq<real>>>, coef: real, i: nat, t: nat): real
    requires kl.Some? ==> i < |kl.value| && t < |kl.value[i]|
  {
    if kl.Some? && coef > 0.0 then coef * kl.value[i][t] else 0.0
  }

  ghost predicate KlShape(kl: Option<seq<seq<real>>>, mask: array2<real>) {
    kl.Some? ==> |kl.value| == mask.Length0 && forall i :: 0 <= i < mask.Length0 ==> |kl.value[i]| == mask.Length1
  }

  /** `_build_token_level_rewards`: minus the penalty everywhere, plus the reward of the row
      at its last response token, times the mask. */
  method BuildTokenRewards(rewards: seq<real>, mask: array2<real>, kl: Option<seq<seq<real>>>, coef: real)
      returns (r: array2<real>)
    requires |rewards| == mask.Length0 && KlShape(kl, mask)
    requires forall i: nat :: i < mask.Length0 ==> IsMask(RowOf(mask, i))
    ensures fresh(r) && SameShape(r, mask)
    ensures forall i: nat, t: nat :: i < mask.Length0 && t < mask.Length1 ==>
              r[i, t] == (if IsLastSelected(RowOf(mask, i), t) then rewards[i] else 0.0)
                         - (if kl.Some? && coef > 0.0 && mask[i, t] == 1.0 then coef * kl.value[i][t] else 0.0)
  {
    r := new real[mask.Length0, mask.Length1];
    forall i, t | 0 <= i < mask.Length0 && 0 <= t < mask.Length1 {
      r[i, t] := 0.0 - Penalty(kl, coef, i, t);
    }
    var i := 0;
    while i < mask.Length0
      invariant 0 <= i <= mask.Length0
      invariant forall j: nat, t: nat :: j < mask.Length0 && t < mask.Length1 ==>
                  r[j, t] == (if j < i && IsLastSelected(RowOf(mask, j), t) then rewards[j] else 0.0)
                             - Penalty(kl, coef, j, t)
    {
      var last := LastSelected(mask, i);
      if last >= 0 {
        r[i, last] := r[i, last] + rewards[i];
        assert forall t: nat :: t < mask.Length1 && IsLastSelected(RowOf(mask, i), t) ==> t == last;
      }
      i := i + 1;
    }
    TimesMask(r, mask);
  }

  /** Zero outside the mask. */
  method TimesMask(r: array2<real>, mask: array2<real>)
    requires SameShape(r, mask) && r != mask
    requires forall i: nat :: i < mask.Length0 ==> IsMask(RowOf(mask, i))
    modifies r
    ensures forall i: nat, t: nat :: i < r.Length0 && t < r.Length1 ==>
              r[i, t] == if mask[i, t] == 1.0 then old(r[i, t]) else 0.0
  {
    forall i, t | 0 <= i < r.Length0 && 0 <= t < r.Length1 {
      r[i, t] := r[i, t] * mask[i, t];
    }
    forall i: nat, t: nat | i < mask.Length0 && t < mask.Length1
      ensures mask[i, t] == 0.0 || mask[i, t] == 1.0
    {
      assert RowOf(mask, i)[t] == mask[i, t];
    }
  }

  // ----- Lambda -----

  datatype Lambdas = Lambdas(standard: real, value: Option<real>, policy: Option<real>, alpha: real)

  function Clamp(x: real, lo: real, hi: real): real {
    if x < lo then lo else if x > hi then hi else x
  }

  function AdaptiveLambda(alpha: real, length: real): real {
    LambdaAt(alpha * length)
  }

  /** The lambda for a scaled length. */
  function LambdaAt(l: real): real {
    Clamp(1.0 - 1.0 / (if l < 1.0 then 1.0 else l), 0.0, 1.0)
  }

  /** `_resolve_lambda_policy`: length-adaptive, else the policy lambda, else the standard. */
  function PolicyLambda(c: Lambdas, length: real): real {
    if c.alpha > 0.0 then AdaptiveLambda(c.alpha, length)
    else if c.policy.Some? then c.policy.value
    else c.standard
  }

  function ValueLambda(c: Lambdas): real {
    if c.value.Some? then c.value.value else c.standard
  }

  predicate Decoupled(c: Lambdas) {
    c.value.Some? || c.policy.Some? || c.alpha > 0.0
  }

  lemma TimesOrder(c: real, a: real, b: real)
    requires c >= 0.0 && a <= b
    ensures c * a <= c * b
  {
    assert c * b - c * a == c * (b - a);
  }

  lemma ReciprocalOrder(a: real, b: real)
    requires 1.0 <= a <= b
    ensures 0.0 < 1.0 / b <= 1.0 / a <= 1.0
    ensures 1.0 / a == 1.0 <==> a == 1.0
  {
    var p, q := 1.0 / a, 1.0 / b;
    assert p * a == 1.0 && q * b == 1.0;
    TimesOrder(p, 1.0, a);
    TimesOrder(p, a, b);
    NonNegativeFactor(p - q, b);
  }

  lemma NonNegativeFactor(d: real, b: real)
    requires b > 0.0 && d * b >= 0.0
    ensures d >= 0.0
  {
  }

  lemma LambdaAtRange(x: real, y: real)
    requires 0.0 <= x <= y
    ensures 0.0 <= LambdaAt(x) <= LambdaAt(y) < 1.0
    ensures LambdaAt(x) == 0.0 <==> x <= 1.0
  {
    ReciprocalOrder(if x < 1.0 then 1.0 else x, if y < 1.0 then 1.0 else y);
  }

  lemma LambdaAtValue(x: real)
    requires x >= 1.0
    ensures LambdaAt(x) == 1.0 - 1.0 / x
  {
    ReciprocalOrder(1.0, x);
  }

  /** The length-adaptive lambda lies in [0, 1), grows with the response, and is 0 exactly
      for responses of at most 1 / alpha tokens. */
  lemma AdaptiveLambdaRange(alpha: real, a: real, b: real)
    requires alpha > 0.0 && 0.0 <= a <= b
    ensures 0.0 <= AdaptiveLambda(alpha, a) <= AdaptiveLambda(alpha, b) < 1.0
    ensures AdaptiveLambda(alpha, a) == 0.0 <==> alpha * a <= 1.0
  {
    TimesOrder(alpha, 0.0, a);
    TimesOrder(alpha, a, b);
    LambdaAtRange(alpha * a, alpha * b);
  }

  ghost function MaskSum(m: seq<real>): real {
    if m == [] then 0.0 else MaskSum(m[..|m| - 1]) + m[|m| - 1]
  }

  /** The length of a row is its number of response tokens. */
  lemma {:induction false} MaskSumCounts(m: seq<real>)
    requires IsMask(m)
    ensures MaskSum(m) == |ResponseTokens(m)| as real
  {
    if m == [] {
      assert ResponseTokens(m) == {};
    } else {
      var k: nat := |m| - 1;
      MaskSumCounts(m[..k]);
      assert ResponseTokens(m) == ResponseTokens(m[..k]) + if m[k] == 1.0 then {k} else {};
    }
  }

  ghost function ResponseTokens(m: seq<real>): set<nat> {
    set t: nat | t < |m| && m[t] == 1.0
  }

  method RowLengths(mask: array2<real>) returns (lengths: seq<real>)
    ensures |lengths| == mask.Length0
    ensures forall i: nat :: i < mask.Length0 ==> lengths[i] == MaskSum(RowOf(mask, i))
  {
    lengths := [];
    var i := 0;
    while i < mask.Length0
      invariant 0 <= i <= mask.Length0 && |lengths| == i
      invariant forall j: nat :: j < i ==> lengths[j] == MaskSum(RowOf(mask, j))
    {
      var sum := 0.0;
      var t := 0;
      while t < mask.Length1
        invariant 0 <= t <= mask.Length1
        invariant sum == MaskSum(RowOf(mask, i)[..t])
      {
        assert RowOf(mask, i)[..t + 1][..t] == RowOf(mask, i)[..t];
        sum := sum + mask[i, t];
        t := t + 1;
      }
      assert RowOf(mask, i)[..t] == RowOf(mask, i);
      lengths := lengths + [sum];
      i := i + 1;
    }
  }

  // ----- The whole estimator, without whitening -----

  /** The rewards of row `i` that the backward pass sees. */
  ghost function TokenReward(rewards: seq<real>, mask: array2<real>, kl: Option<seq<seq<real>>>, coef: real,
                             i: nat): (r: seq<real>)
    requires |rewards| == mask.Length0 && KlShape(kl, mask) && i < mask.Length0
    reads mask
    ensures |r| == mask.Length1
  {
    seq(mask.Length1, t requires 0 <= t < mask.Length1 reads mask =>
      (if IsLastSelected(RowOf(mask, i), t) then rewards[i] else 0.0)
      - (if kl.Some? && coef > 0.0 && mask[i, t] == 1.0 then coef * kl.value[i][t] else 0.0))
  }

  /** The backward run of row `i` with `lam`, at position `t`. */
  ghost function GaeAt(rs: seq<seq<real>>, values: array2<real>, mask: array2<real>, gamma: real, lam: real,
                       i: nat, t: nat): real
    requires SameShape(values, mask) && Shaped(rs, mask) && i < mask.Length0 && t < mask.Length1
    reads values, mask
  {
    Run(rs[i], RowOf(values, i), RowOf(mask, i), gamma, lam, t).lastGae
  }

  ghost predicate Shaped(rs: seq<seq<real>>, a: array2<real>) {
    |rs| == a.Length0 && forall i :: 0 <= i < |rs| ==> |rs[i]| == a.Length1
  }

  ghost function RowsOf(a: array2<real>): (rs: seq<seq<real>>)
    reads a
    ensures Shaped(rs, a) && forall i :: 0 <= i < |rs| ==> rs[i] == RowOf(a, i)
  {
    seq(a.Length0, i requires 0 <= i < a.Length0 reads a => RowOf(a, i))
  }

  ghost function TokenRewards(rewards: seq<real>, mask: array2<real>, kl: Option<seq<seq<real>>>, coef: real)
    : (rs: seq<seq<real>>)
    requires |rewards| == mask.Length0 && KlShape(kl, mask)
    reads mask
    ensures Shaped(rs, mask) && forall i :: 0 <= i < |rs| ==> rs[i] == TokenReward(rewards, mask, kl, coef, i)
  {
    seq(mask.Length0, i requires 0 <= i < mask.Length0 reads mask => TokenReward(rewards, mask, kl, coef, i))
  }

  /** The returns: runs with the value lambda where it is set, whatever the policy side says,
      and with the standard lambda otherwise. */
  ghost predicate AreReturns(out: array2<real>, rs: seq<seq<real>>, values: array2<real>, mask: array2<real>,
                             gamma: real, c: Lambdas)
    requires SameShape(out, mask) && SameShape(values, mask) && Shaped(rs, mask)
    reads out, values, mask
  {
    forall i: nat, t: nat :: i < mask.Length0 && t < mask.Length1 ==>
      && (c.value.Some? ==> out[i, t] == GaeAt(rs, values, mask, gamma, c.value.value, i, t) + values[i, t])
      && (c.value.None? ==> out[i, t] == GaeAt(rs, values, mask, gamma, c.standard, i, t) + values[i, t])
  }

  /** The lambda of the advantages of a row with `length` response tokens: adaptive to the
      length before the policy lambda, and that before the standard one. The value lambda has
      no part in it. */
  predicate IsPolicyLambda(c: Lambdas, length: real, lam: real) {
    && (c.alpha > 0.0 && c.alpha * length > 1.0 ==> lam == 1.0 - 1.0 / (c.alpha * length))
    && (c.alpha > 0.0 && c.alpha * length <= 1.0 ==> lam == 0.0)
    && (c.alpha <= 0.0 && c.policy.Some? ==> lam == c.policy.value)
    && (c.alpha <= 0.0 && c.policy.None? ==> lam == c.standard)
  }

  /** An advantage is a run with that lambda. */
  ghost predicate IsAdvantage(x: real, rs: seq<seq<real>>, values: array2<real>, mask: array2<real>,
                              gamma: real, c: Lambdas, length: real, i: nat, t: nat)
    requires SameShape(values, mask) && Shaped(rs, mask) && i < mask.Length0 && t < mask.Length1
    reads values, mask
  {
    exists lam: real :: IsPolicyLambda(c, length, lam) && x == GaeAt(rs, values, mask, gamma, lam, i, t)
  }

  /** Which lambda is resolved. */
  lemma PolicyLambdaIs(c: Lambdas, length: real)
    ensures IsPolicyLambda(c, length, PolicyLambda(c, length))
  {
    if c.alpha > 0.0 {
      LambdaAtCases(c.alpha * length);
    }
  }

  lemma LambdaAtCases(x: real)
    ensures x > 1.0 ==> LambdaAt(x) == 1.0 - 1.0 / x
    ensures x <= 1.0 ==> LambdaAt(x) == 0.0
  {
    if x > 1.0 {
      LambdaAtValue(x);
    }
  }

  /** Once when the two lambdas coincide by configuration, otherwise twice. */
  method TwoPasses(r: array2<real>, values: array2<real>, mask: array2<real>, gamma: real, c: Lambdas)
      returns (advantages: array2<real>, returns_: array2<real>)
    requires SameShape(r, mask) && SameShape(values, mask)
    ensures fresh(advantages) && fresh(returns_) && SameShape(advantages, mask) && SameShape(returns_, mask)
    ensures advantages != returns_
    ensures forall i: nat, t: nat :: i < mask.Length0 && t < mask.Length1 ==>
              IsAdvantage(advantages[i, t], RowsOf(r), values, mask, gamma, c, MaskSum(RowOf(mask, i)), i, t)
    ensures AreReturns(returns_, RowsOf(r), values, mask, gamma, c)
  {
    var n := mask.Length0;
    var lamValue := seq(n, _ => ValueLambda(c));
    var first: array2<real>;
    first, returns_ := ComputeGae(r, values, mask, gamma, lamValue);
    advantages := first;
    if Decoupled(c) {
      var lengths := RowLengths(mask);
      var lamPolicy := seq(n, i requires 0 <= i < n => PolicyLambda(c, lengths[i]));
      var second: array2<real>;
      advantages, second := ComputeGae(r, values, mask, gamma, lamPolicy);
    }
    forall i: nat, t: nat | i < mask.Length0 && t < mask.Length1
      ensures IsAdvantage(advantages[i, t], RowsOf(r), values, mask, gamma, c, MaskSum(RowOf(mask, i)), i, t)
    {
      PolicyLambdaIs(c, MaskSum(RowOf(mask, i)));
    }
  }

  method ComputeAdvantage(rewards: seq<real>, mask: array2<real>, values: array2<real>,
                          kl: Option<seq<seq<real>>>, coef: real, gamma: real, c: Lambdas)
      returns (advantages: array2<real>, returns_: array2<real>)
    requires |rewards| == mask.Length0 && SameShape(values, mask) && KlShape(kl, mask)
    requires forall i: nat :: i < mask.Length0 ==> IsMask(RowOf(mask, i))
    ensures SameShape(advantages, mask) && SameShape(returns_, mask)
    ensures forall i: nat, t: nat :: i < mask.Length0 && t < mask.Length1 ==>
              if mask[i, t] == 1.0
              then IsAdvantage(advantages[i, t], TokenRewards(rewards, mask, kl, coef), values, mask, gamma, c,
                               |ResponseTokens(RowOf(mask, i))| as real, i, t)
              else advantages[i, t] == 0.0
    ensures AreReturns(returns_, TokenRewards(rewards, mask, kl, coef), values, mask, gamma, c)
  {
    var r := BuildTokenRewards(rewards, mask, kl, coef);
    forall i: nat | i < mask.Length0 ensures RowOf(r, i) == TokenReward(rewards, mask, kl, coef, i) {
      forall t: nat | t < mask.Length1 ensures RowOf(r, i)[t] == TokenReward(rewards, mask, kl, coef, i)[t] {
        assert RowOf(r, i)[t] == r[i, t];
      }
    }
    assert RowsOf(r) == TokenRewards(rewards, mask, kl, coef);
    forall i: nat | i < mask.Length0 ensures MaskSum(RowOf(mask, i)) == |ResponseTokens(RowOf(mask, i))| as real {
      MaskSumCounts(RowOf(mask, i));
    }
    advantages, returns_ := TwoPasses(r, values, mask, gamma, c);
    ZeroMasked(advantages, mask);
    forall i: nat, t: nat | i < mask.Length0 && t < mask.Length1 ensures mask[i, t] == 0.0 || mask[i, t] == 1.0 {
      assert RowOf(mask, i)[t] == mask[i, t];
    }
  }

  /** `masked_fill(~mask, 0)`. */
  method ZeroMasked(a: array2<real>, mask: array2<real>)
    requires SameShape(a, mask) && a != mask
    modifies a
    ensures forall i: nat, t: nat :: i < a.Length0 && t < a.Length1 ==>
              a[i, t] == if mask[i, t] != 0.0 then old(a[i, t]) else 0.0
  {
    forall i, t | 0 <= i < a.Length0 && 0 <= t < a.Length1 && mask[i, t] == 0.0 {
      a[i, t] := 0.0;
    }
  }

  /** Without a penalty the rewards of a row with a response are the terminal reward alone. */
  lemma TokenRewardIsTerminal(rewards: seq<real>, mask: array2<real>, coef: real, i: nat, last: nat)
    requires |rewards| == mask.Length0 && i < mask.Length0
    requires IsLastSelected(RowOf(mask, i), last)
    ensures TokenReward(rewards, mask, None, coef, i) == TerminalRewards(RowOf(mask, i), last, rewards[i])
  {
  }

  /** The promise of the estimator end to end: no penalty, discount 1 and a lambda for the
      returns of 1 give every response token of a row the reward of that row as its return,
      whatever the values, the policy lambda and the gaps in the mask. */
  lemma ReturnIsRowReward(rewards: seq<real>, mask: array2<real>, values: array2<real>, coef: real, c: Lambdas,
                          returns_: array2<real>, i: nat, t: nat)
    requires |rewards| == mask.Length0 && SameShape(values, mask) && SameShape(returns_, mask)
    requires AreReturns(returns_, TokenRewards(rewards, mask, None, coef), values, mask, 1.0, c)
    requires i < mask.Length0 && t < mask.Length1 && IsMask(RowOf(mask, i)) && mask[i, t] == 1.0
    requires c.value == Some(1.0) || (c.value == None && c.standard == 1.0)
    ensures returns_[i, t] == rewards[i]
  {
    var m := RowOf(mask, i);
    assert m[t] == mask[i, t] && RowOf(values, i)[t] == values[i, t];
    var last := LastOf(m, t);
    TokenRewardIsTerminal(rewards, mask, coef, i, last);
    EveryReturnIsTheReward(RowOf(values, i), m, last, rewards[i], t);
  }

  lemma {:induction false} LastOf(m: seq<real>, t: nat) returns (last: nat)
    requires t < |m| && m[t] == 1.0
    ensures IsLastSelected(m, last)
    decreases |m| - t
  {
    if u :| t < u < |m| && m[u] == 1.0 {
      last := LastOf(m, u);
    } else {
      last := t;
    }
  }
}
