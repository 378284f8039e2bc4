// Prompt groups and the list operations the asynchronous replay buffer is made of.
module ReplayGroups {

  /** One prompt with all its rollouts. `ordinal` is the stamp the collector put on the
      prompt, `prompt` the position of the prompt in the dataloader stream, `version` the
      weight version that generated the rollouts, `target` the training step they are for. */
  datatype Group = Group(ordinal: nat, prompt: nat, version: nat, target: nat)

  /** The selections the buffer makes, as data so that they can be compared. */
  datatype Rule =
    | AgedOut(step: nat, maxAge: nat)   // older than the age window at `step`
    | Usable(step: nat)                 // generated no later than `step`
    | Due(step: nat)                    // usable and intended for `step`
    | Aims(target: nat)                 // intended for `target`
    | Past(step: nat)                   // intended for a step before `step`
    | Misfit(maxAge: nat)               // outside the age window of its own target
  {
    predicate Holds(g: Group) {
      match this
      case AgedOut(w, a) => g.version + a < w
      case Usable(w) => g.version <= w
      case Due(w) => g.version <= w && g.target == w
      case Aims(t) => g.target == t
      case Past(w) => g.target < w
      case Misfit(a) => g.version + a < g.target || g.target < g.version
    }
  }

  function Matching(gs: seq<Group>, rule: Rule): (r: seq<Group>)
    ensures |r| <= |gs|
  {
    if gs == [] then []
    else
      var x := gs[|gs| - 1];
      Matching(gs[..|gs| - 1], rule) + (if rule.Holds(x) then [x] else [])
  }

  /** `gs` without its first `n` elements that satisfy `rule`; the order is kept. */
  function DropFirst(gs: seq<Group>, rule: Rule, n: nat): seq<Group> {
    if gs == [] then []
    else
      var init, x := gs[..|gs| - 1], gs[|gs| - 1];
      DropFirst(init, rule, n) + (if rule.Holds(x) && |Matching(init, rule)| < n then [] else [x])
  }

  function Without(gs: seq<Group>, rule: Rule): seq<Group> {
    DropFirst(gs, rule, |gs|)
  }

  lemma {:induction false} MatchingIff(gs: seq<Group>, rule: Rule)
    ensures forall g :: g in Matching(gs, rule) <==> g in gs && rule.Holds(g)
  {
    if gs != [] {
      MatchingIff(gs[..|gs| - 1], rule);
      assert gs == gs[..|gs| - 1] + [gs[|gs| - 1]];
    }
  }

  lemma {:induction false} DropFirstWithin(gs: seq<Group>, rule: Rule, n: nat)
    ensures forall g :: g in DropFirst(gs, rule, n) ==> g in gs
  {
    if gs != [] {
      DropFirstWithin(gs[..|gs| - 1], rule, n);
    }
  }

  lemma {:induction false} WithoutIff(gs: seq<Group>, rule: Rule, n: nat)
    requires |gs| <= n
    ensures forall g :: g in DropFirst(gs, rule, n) <==> g in gs && !rule.Holds(g)
  {
    if gs != [] {
      WithoutIff(gs[..|gs| - 1], rule, n);
      assert gs == gs[..|gs| - 1] + [gs[|gs| - 1]];
    }
  }

  /** Positions, in increasing order, of the elements that satisfy `rule`. */
  function Positions(gs: seq<Group>, rule: Rule): (r: seq<nat>)
    ensures |r| == |Matching(gs, rule)|
    ensures Ascending(r, |gs|)
  {
    if gs == [] then []
    else
      var k: nat := |gs| - 1;
      Positions(gs[..k], rule) + (if rule.Holds(gs[k]) then [k] else [])
  }

  predicate Ascending(idx: seq<nat>, bound: nat) {
    && (forall i :: 0 <= i < |idx| ==> idx[i] < bound)
    && (forall i, j :: 0 <= i < j < |idx| ==> idx[i] < idx[j])
  }

  function Pop(gs: seq<Group>, k: nat): seq<Group>
    requires k < |gs|
  {
    gs[..k] + gs[k + 1..]
  }

  /** `gs` after popping the listed positions, the largest one first. */
  function Erase(gs: seq<Group>, idx: seq<nat>): seq<Group>
    requires Ascending(idx, |gs|)
    decreases |idx|
  {
    if idx == [] then gs else Erase(Pop(gs, idx[|idx| - 1]), idx[..|idx| - 1])
  }

  lemma {:induction false} EraseKeepsLast(gs: seq<Group>, x: Group, idx: seq<nat>)
    requires Ascending(idx, |gs|)
    ensures Erase(gs + [x], idx) == Erase(gs, idx) + [x]
    decreases |idx|
  {
    if idx != [] {
      var k := idx[|idx| - 1];
      assert Pop(gs + [x], k) == Pop(gs, k) + [x];
      EraseKeepsLast(Pop(gs, k), x, idx[..|idx| - 1]);
    }
  }

  lemma {:induction false} DropFirstSaturates(gs: seq<Group>, rule: Rule, m: nat, n: nat)
    requires |Matching(gs, rule)| <= m && |Matching(gs, rule)| <= n
    ensures DropFirst(gs, rule, m) == DropFirst(gs, rule, n)
  {
    if gs != [] {
      DropFirstSaturates(gs[..|gs| - 1], rule, m, n);
    }
  }

  lemma AscendingPrefix(idx: seq<nat>, bound: nat, n: nat)
    requires Ascending(idx, bound) && n <= |idx|
    ensures Ascending(idx[..n], bound)
  {
  }

  /** The first `n` positions to pop. */
  function FirstPositions(gs: seq<Group>, rule: Rule, n: nat): (r: seq<nat>)
    requires n <= |Matching(gs, rule)|
    ensures Ascending(r, |gs|)
  {
    AscendingPrefix(Positions(gs, rule), |gs|, n);
    Positions(gs, rule)[..n]
  }

  /** Popping the first `n` matching positions is dropping the first `n` matches. */
  lemma {:induction false} EraseDropsFirst(gs: seq<Group>, rule: Rule, n: nat)
    requires n <= |Matching(gs, rule)|
    ensures Erase(gs, FirstPositions(gs, rule, n)) == DropFirst(gs, rule, n)
  {
    if gs != [] {
      var k := |gs| - 1;
      var init := gs[..k];
      if n <= |Matching(init, rule)| {
        EraseDropsFirst(init, rule, n);
        EraseDropsEarly(gs, rule, n);
      } else {
        EraseDropsFirst(init, rule, |Matching(init, rule)|);
        EraseDropsAll(gs, rule, n);
      }
    }
  }

  lemma EraseDropsEarly(gs: seq<Group>, rule: Rule, n: nat)
    requires gs != [] && n <= |Matching(gs[..|gs| - 1], rule)|
    requires
      var init := gs[..|gs| - 1];
      Erase(init, FirstPositions(init, rule, n)) == DropFirst(init, rule, n)
    ensures n <= |Matching(gs, rule)|
    ensures Erase(gs, FirstPositions(gs, rule, n)) == DropFirst(gs, rule, n)
  {
    var init, x := gs[..|gs| - 1], gs[|gs| - 1];
    assert gs == init + [x];
    SnocRule(init, x, rule, n);
    var p := Positions(init, rule);
    assert Positions(gs, rule)[..n] == p[..n];
    EraseKeepsLast(init, x, FirstPositions(init, rule, n));
  }

  /** `Matching` and `DropFirst` of a list with one more element. */
  lemma SnocRule(gs: seq<Group>, x: Group, rule: Rule, n: nat)
    ensures Matching(gs + [x], rule) == Matching(gs, rule) + if rule.Holds(x) then [x] else []
    ensures DropFirst(gs + [x], rule, n)
            == DropFirst(gs, rule, n) + if rule.Holds(x) && |Matching(gs, rule)| < n then [] else [x]
  {
    assert (gs + [x])[..|gs|] == gs;
  }

  lemma EraseDropsAll(gs: seq<Group>, rule: Rule, n: nat)
    requires gs != []
    requires |Matching(gs[..|gs| - 1], rule)| < n <= |Matching(gs, rule)|
    requires
      var init := gs[..|gs| - 1];
      var m := |Matching(init, rule)|;
      Erase(init, FirstPositions(init, rule, m)) == DropFirst(init, rule, m)
    ensures Erase(gs, FirstPositions(gs, rule, n)) == DropFirst(gs, rule, n)
  {
    var init := gs[..|gs| - 1];
    var q := Positions(init, rule);
    LastPosition(gs, rule, n);
    assert FirstPositions(init, rule, |q|) == q;
    EraseLast(gs, q);
    DropFirstSaturates(init, rule, |q|, n);
  }

  lemma EraseLast(gs: seq<Group>, idx: seq<nat>)
    requires gs != [] && Ascending(idx, |gs| - 1)
    ensures Ascending(idx + [|gs| - 1], |gs|)
    ensures Erase(gs, idx + [|gs| - 1]) == Erase(gs[..|gs| - 1], idx)
  {
    assert (idx + [|gs| - 1])[..|idx|] == idx;
    assert Pop(gs, |gs| - 1) == gs[..|gs| - 1];
  }

  /** When the last element is the n-th match its position is the last one to pop. */
  lemma LastPosition(gs: seq<Group>, rule: Rule, n: nat)
    requires gs != []
    requires |Matching(gs[..|gs| - 1], rule)| < n <= |Matching(gs, rule)|
    ensures FirstPositions(gs, rule, n) == Positions(gs[..|gs| - 1], rule) + [|gs| - 1]
    ensures DropFirst(gs, rule, n) == DropFirst(gs[..|gs| - 1], rule, n)
  {
    assert Positions(gs, rule)[..n] == Positions(gs, rule);
  }

  /** The sub-list selected by a mask. */
  function Pick(gs: seq<Group>, keep: seq<bool>): (r: seq<Group>)
    requires |keep| == |gs|
    ensures forall g :: g in r ==> g in gs
  {
    if gs == [] then []
    else
      var k := |gs| - 1;
      Pick(gs[..k], keep[..k]) + (if keep[k] then [gs[k]] else [])
  }

  /** A sub-list, in the original order. */
  ghost predicate SubList(part: seq<Group>, gs: seq<Group>) {
    exists keep: seq<bool> :: |keep| == |gs| && part == Pick(gs, keep)
  }

  // ----- Counting ordinals -----

  function Ordinals(gs: seq<Group>): (r: seq<nat>)
    ensures |r| == |gs| && forall i :: 0 <= i < |gs| ==> r[i] == gs[i].ordinal
  {
    seq(|gs|, i requires 0 <= i < |gs| => gs[i].ordinal)
  }

  /** How often each ordinal occurs in `gs`. */
  function Bag(gs: seq<Group>): multiset<nat> {
    multiset(Ordinals(gs))
  }

  lemma BagAppend(a: seq<Group>, b: seq<Group>)
    ensures Bag(a + b) == Bag(a) + Bag(b)
  {
    assert Ordinals(a + b) == Ordinals(a) + Ordinals(b);
  }

  lemma BagOne(g: Group)
    ensures Bag([g]) == multiset{g.ordinal}
  {
    assert Ordinals([g]) == [g.ordinal];
  }

  lemma BagMember(gs: seq<Group>, o: nat)
    ensures Bag(gs)[o] > 0 <==> exists g :: g in gs && g.ordinal == o
  {
    if Bag(gs)[o] > 0 {
      assert o in Ordinals(gs);
      var i :| 0 <= i < |gs| && Ordinals(gs)[i] == o;
      assert gs[i] in gs && gs[i].ordinal == o;
    }
    if g :| g in gs && g.ordinal == o {
      var i :| 0 <= i < |gs| && gs[i] == g;
      assert Ordinals(gs)[i] == o;
      assert o in Ordinals(gs);
    }
  }

  /** The first `n` matches and what is left without them make up the whole list. */
  lemma {:induction false} BagSplit(gs: seq<Group>, rule: Rule, n: nat)
    requires n <= |Matching(gs, rule)|
    ensures Bag(Matching(gs, rule)[..n]) + Bag(DropFirst(gs, rule, n)) == Bag(gs)
  {
    if gs == [] {
      assert Ordinals(Matching(gs, rule)[..n]) == [] == Ordinals(gs) == Ordinals(DropFirst(gs, rule, n));
    } else {
      var init, x := gs[..|gs| - 1], gs[|gs| - 1];
      var m := Matching(init, rule);
      assert gs == init + [x];
      BagAppend(init, [x]);
      if n <= |m| {
        BagSplit(init, rule, n);
        assert Matching(gs, rule)[..n] == m[..n];
        assert DropFirst(gs, rule, n) == DropFirst(init, rule, n) + [x];
        BagAppend(DropFirst(init, rule, n), [x]);
      } else {
        BagSplit(init, rule, |m|);
        BagSplitLast(gs, rule, n);
      }
    }
  }

  lemma BagSplitLast(gs: seq<Group>, rule: Rule, n: nat)
    requires gs != []
    requires |Matching(gs[..|gs| - 1], rule)| < n <= |Matching(gs, rule)|
    requires
      var init := gs[..|gs| - 1];
      var m := Matching(init, rule);
      Bag(m[..|m|]) + Bag(DropFirst(init, rule, |m|)) == Bag(init)
    ensures Bag(Matching(gs, rule)[..n]) + Bag(DropFirst(gs, rule, n)) == Bag(gs)
  {
    var init, x := gs[..|gs| - 1], gs[|gs| - 1];
    var m := Matching(init, rule);
    assert gs == init + [x];
    BagAppend(init, [x]);
    assert m[..|m|] == m;
    assert Matching(gs, rule)[..n] == m + [x];
    BagAppend(m, [x]);
    DropFirstSaturates(init, rule, |m|, n);
    assert DropFirst(gs, rule, n) == DropFirst(init, rule, |m|) + [];
    assert DropFirst(gs, rule, n) == DropFirst(init, rule, |m|);
  }

  lemma {:induction false} BagPick(gs: seq<Group>, keep: seq<bool>)
    requires |keep| == |gs|
    ensures Bag(Pick(gs, keep)) <= Bag(gs)
  {
    if gs == [] {
      assert Pick(gs, keep) == gs;
    } else {
      var k := |gs| - 1;
      BagPick(gs[..k], keep[..k]);
      assert gs == gs[..k] + [gs[k]];
      BagAppend(gs[..k], [gs[k]]);
      BagAppend(Pick(gs[..k], keep[..k]), if keep[k] then [gs[k]] else []);
      assert Bag([]) == multiset{};
    }
  }

  // ----- Counting groups per target -----

  function PerTarget(gs: seq<Group>, t: nat): nat {
    |Matching(gs, Aims(t))|
  }

  lemma {:induction false} MatchingAppend(a: seq<Group>, b: seq<Group>, rule: Rule)
    ensures Matching(a + b, rule) == Matching(a, rule) + Matching(b, rule)
  {
    if b == [] {
      assert a + b == a;
    } else {
      var k := |b| - 1;
      MatchingAppend(a, b[..k], rule);
      assert (a + b)[..|a + b| - 1] == a + b[..k];
    }
  }

  lemma {:induction false} PickPerTarget(gs: seq<Group>, keep: seq<bool>, t: nat)
    requires |keep| == |gs|
    ensures PerTarget(Pick(gs, keep), t) <= PerTarget(gs, t)
  {
    if gs != [] {
      var k := |gs| - 1;
      PickPerTarget(gs[..k], keep[..k], t);
      MatchingAppend(Pick(gs[..k], keep[..k]), if keep[k] then [gs[k]] else [], Aims(t));
    }
  }

  lemma {:induction false} DropFirstPerTarget(gs: seq<Group>, rule: Rule, n: nat, t: nat)
    ensures PerTarget(DropFirst(gs, rule, n), t) <= PerTarget(gs, t)
  {
    if gs != [] {
      var k := |gs| - 1;
      DropFirstPerTarget(gs[..k], rule, n, t);
      MatchingAppend(DropFirst(gs[..k], rule, n),
        if rule.Holds(gs[k]) && |Matching(gs[..k], rule)| < n then [] else [gs[k]], Aims(t));
    }
  }

  /** Removing `n` groups that are due at `w` lowers the count of target `w` by `n`. */
  lemma {:induction false} DropDuePerTarget(gs: seq<Group>, w: nat, n: nat)
    requires n <= |Matching(gs, Due(w))|
    ensures PerTarget(DropFirst(gs, Due(w), n), w) == PerTarget(gs, w) - n
  {
    if gs != [] {
      var k := |gs| - 1;
      var init, x := gs[..k], gs[k];
      var m := |Matching(init, Due(w))|;
      if n <= m {
        DropDuePerTarget(init, w, n);
      } else {
        DropDuePerTarget(init, w, m);
        DropFirstSaturates(init, Due(w), m, n);
      }
      MatchingAppend(DropFirst(init, Due(w), n), if Due(w).Holds(x) && m < n then [] else [x], Aims(w));
    }
  }

  predicate NoneHold(gs: seq<Group>, rule: Rule) {
    forall i :: 0 <= i < |gs| ==> !rule.Holds(gs[i])
  }

  lemma NothingHolds(gs: seq<Group>, rule: Rule, n: nat)
    requires forall g :: g in gs ==> !rule.Holds(g)
    ensures Matching(gs, rule) == [] && DropFirst(gs, rule, n) == gs
  {
    assert NoneHold(gs, rule);
    NothingMatches(gs, rule);
    NothingDropped(gs, rule, n);
  }

  lemma {:induction false} NothingMatches(gs: seq<Group>, rule: Rule)
    requires NoneHold(gs, rule)
    ensures Matching(gs, rule) == []
  {
    if gs != [] {
      NothingMatches(gs[..|gs| - 1], rule);
    }
  }

  lemma {:induction false} NothingDropped(gs: seq<Group>, rule: Rule, n: nat)
    requires NoneHold(gs, rule)
    ensures DropFirst(gs, rule, n) == gs
  {
    if gs != [] {
      NothingDropped(gs[..|gs| - 1], rule, n);
      assert gs == gs[..|gs| - 1] + [gs[|gs| - 1]];
    }
  }
}
