// The replay buffer actor: three parallel lists that are always edited together.
module ReplayBuffers {
  import opened Prelude
  import opened ReplayGroups

  /** The payload part of a group: what the buffer stores apart from the two versions. */
  datatype Trajectory = Trajectory(ordinal: nat, prompt: nat)

  function Zip(ts: seq<Trajectory>, vs: seq<nat>, ws: seq<nat>): (r: seq<Group>)
    requires |ts| == |vs| == |ws|
    ensures |r| == |ts|
    ensures forall i :: 0 <= i < |r| ==> r[i] == Group(ts[i].ordinal, ts[i].prompt, vs[i], ws[i])
  {
    seq(|ts|, i requires 0 <= i < |ts| => Group(ts[i].ordinal, ts[i].prompt, vs[i], ws[i]))
  }

  /** What one call of `sample` hands out and what it leaves in the buffer. */
  datatype Sampled = Sampled(taken: Option<seq<Group>>, left: seq<Group>)

  /** `n` groups for training step `w`: groups that fell out of the age window are evicted
      first; then the oldest `n` groups due at `w` leave the buffer, or none do. */
  function SampleOf(gs: seq<Group>, n: nat, w: nat, maxAge: nat): Sampled {
    if gs == [] then Sampled(None, gs)
    else
      var young := Without(gs, AgedOut(w, maxAge));
      var usable, due := Matching(young, Usable(w)), Matching(young, Due(w));
      if usable == [] || |usable| < n || |due| < n then Sampled(None, young)
      else Sampled(Some(due[..n]), DropFirst(young, Due(w), n))
  }

  /** What the age and step filters of a restore let through. */
  function Filtered(saved: seq<Group>, step: nat, maxAge: nat): seq<Group> {
    Without(Without(saved, Misfit(maxAge)), Past(step))
  }

  /** The groups of `gs` whose target has at least `n` groups in `all`. */
  function Complete(gs: seq<Group>, all: seq<Group>, n: nat): seq<Group> {
    if gs == [] then []
    else
      var k := |gs| - 1;
      Complete(gs[..k], all, n) + if PerTarget(all, gs[k].target) >= n then [gs[k]] else []
  }

  /** The position of the group that is trained last: the latest of those with the largest
      target. */
  function Latest(gs: seq<Group>): (k: nat)
    requires gs != []
    ensures k < |gs|
  {
    if |gs| == 1 then 0
    else
      var k := Latest(gs[..|gs| - 1]);
      if gs[k].target <= gs[|gs| - 1].target then |gs| - 1 else k
  }

  /** `gs` cut down to `size` groups, those that are trained first, in order. */
  function Truncated(gs: seq<Group>, size: nat): seq<Group>
    decreases |gs|
  {
    if |gs| <= size then gs else Truncated(Pop(gs, Latest(gs)), size)
  }

  /** What a checkpointed buffer looks like after a restore for training step `step`. */
  function RestoreOf(saved: seq<Group>, step: nat, maxAge: nat, n: nat, dropIncomplete: bool, size: nat): seq<Group> {
    var young := Filtered(saved, step, maxAge);
    Truncated(if dropIncomplete then Complete(young, young, n) else young, size)
  }

  predicate FitsTarget(g: Group, target: nat, maxAge: nat) {
    g.target == target && !Misfit(maxAge).Holds(g)
  }

  function CountForTarget(gs: seq<Group>, target: nat, maxAge: nat): nat {
    if gs == [] then 0
    else
      var k := |gs| - 1;
      CountForTarget(gs[..k], target, maxAge) + (if FitsTarget(gs[k], target, maxAge) then 1 else 0)
  }

  /** The positions of the groups that are meant for `target` and inside its age window. */
  function Fitting(gs: seq<Group>, target: nat, maxAge: nat): set<nat> {
    set i: nat | i < |gs| && gs[i].target == target && gs[i].version <= target <= gs[i].version + maxAge
  }

  lemma {:induction false} FittingCounts(gs: seq<Group>, target: nat, maxAge: nat)
    ensures CountForTarget(gs, target, maxAge) == |Fitting(gs, target, maxAge)|
  {
    if gs == [] {
      assert Fitting(gs, target, maxAge) == {};
    } else {
      var k: nat := |gs| - 1;
      var init := gs[..k];
      FittingCounts(init, target, maxAge);
      assert k !in Fitting(init, target, maxAge);
      assert Fitting(gs, target, maxAge)
             == Fitting(init, target, maxAge) + if FitsTarget(gs[k], target, maxAge) then {k} else {};
    }
  }

  class ReplayBuffer {
    var trajectories: seq<Trajectory>
    var versions: seq<nat>
    var targets: seq<nat>
    var lastTarget: int
    const maxSize: nat

    ghost predicate Valid()
      reads this
    {
      |trajectories| == |versions| == |targets|
    }

    ghost function Groups(): (r: seq<Group>)
      requires Valid()
      reads this
      ensures |r| == |trajectories|
    {
      Zip(trajectories, versions, targets)
    }

    constructor (maxSize: nat)
      ensures Valid() && Groups() == [] && lastTarget == -1 && this.maxSize == maxSize
    {
      trajectories, versions, targets, lastTarget := [], [], [], -1;
      this.maxSize := maxSize;
    }

    method Add(t: Trajectory, version: nat, target: nat) returns (added: bool)
      requires Valid()
      modifies this
      ensures Valid() && lastTarget == old(lastTarget)
      ensures added == (|old(Groups())| < maxSize)
      ensures Groups() == if added then old(Groups()) + [Group(t.ordinal, t.prompt, version, target)]
                          else old(Groups())
    {
      if |trajectories| >= maxSize {
        return false;
      }
      trajectories := trajectories + [t];
      versions := versions + [version];
      targets := targets + [target];
      added := true;
    }

    method SelectIndices(rule: Rule) returns (idx: seq<nat>)
      requires Valid()
      ensures idx == Positions(Groups(), rule)
    {
      idx := [];
      var i := 0;
      while i < |trajectories|
        invariant 0 <= i <= |trajectories|
        invariant idx == Positions(Groups()[..i], rule)
      {
        var g := Group(trajectories[i].ordinal, trajectories[i].prompt, versions[i], targets[i]);
        assert Groups()[..i + 1][..i] == Groups()[..i];
        if rule.Holds(g) {
          idx := idx + [i];
        }
        i := i + 1;
      }
      assert Groups()[..i] == Groups();
    }

    method PopAt(k: nat)
      requires Valid() && k < |trajectories|
      modifies this
      ensures Valid() && lastTarget == old(lastTarget)
      ensures Groups() == Pop(old(Groups()), k)
    {
      versions := versions[..k] + versions[k + 1..];
      targets := targets[..k] + targets[k + 1..];
      trajectories := trajectories[..k] + trajectories[k + 1..];
    }

    method RemoveIndices(idx: seq<nat>)
      requires Valid() && Ascending(idx, |trajectories|)
      modifies this
      ensures Valid() && lastTarget == old(lastTarget)
      ensures Groups() == Erase(old(Groups()), idx)
    {
      var todo := idx;
      while todo != []
        invariant Valid() && lastTarget == old(lastTarget)
        invariant Ascending(todo, |trajectories|)
        invariant Erase(Groups(), todo) == Erase(old(Groups()), idx)
        decreases |todo|
      {
        AscendingPrefix(todo, |trajectories|, |todo| - 1);
        PopAt(todo[|todo| - 1]);
        todo := todo[..|todo| - 1];
      }
    }

    /** Pops every group `rule` selects. */
    method Evict(rule: Rule)
      requires Valid()
      modifies this
      ensures Valid() && lastTarget == old(lastTarget)
      ensures Groups() == Without(old(Groups()), rule)
    {
      var idx := SelectIndices(rule);
      if idx != [] {
        RemoveIndices(idx);
      }
      EvictionSpec(old(Groups()), rule);
    }

    /** The groups at the first `n` selected positions. */
    method Collect(rule: Rule, n: nat, selected: seq<nat>) returns (items: seq<Group>)
      requires Valid() && n <= |Matching(Groups(), rule)| && selected == FirstPositions(Groups(), rule, n)
      ensures items == Matching(Groups(), rule)[..n]
    {
      items := [];
      var i := 0;
      while i < n
        invariant 0 <= i <= n && items == Matching(Groups(), rule)[..i]
      {
        PositionsSelect(Groups(), rule, i);
        var k := selected[i];
        items := items + [Group(trajectories[k].ordinal, trajectories[k].prompt, versions[k], targets[k])];
        i := i + 1;
      }
    }

    /** Hands out the first `n` groups `rule` selects. */
    method Take(rule: Rule, n: nat) returns (items: seq<Group>)
      requires Valid() && n <= |Matching(Groups(), rule)|
      modifies this
      ensures Valid() && lastTarget == old(lastTarget)
      ensures items == Matching(old(Groups()), rule)[..n]
      ensures Groups() == DropFirst(old(Groups()), rule, n)
    {
      var idx := SelectIndices(rule);
      var selected := idx[..n];
      assert selected == FirstPositions(Groups(), rule, n);
      items := Collect(rule, n, selected);
      EraseDropsFirst(Groups(), rule, n);
      RemoveIndices(selected);
    }

    /** `sample`: evict, then hand out `n` groups due at `w` in arrival order, or nothing. */
    method Sample(n: nat, w: nat, maxAge: nat) returns (r: Option<seq<Group>>)
      requires Valid() && n >= 1
      modifies this
      ensures Valid()
      ensures Sampled(r, Groups()) == SampleOf(old(Groups()), n, w, maxAge)
      ensures lastTarget == if r.Some? && old(lastTarget) < w then w else old(lastTarget)
    {
      if trajectories == [] {
        return None;
      }
      Evict(AgedOut(w, maxAge));
      var usable := SelectIndices(Usable(w));
      if usable == [] || |usable| < n {
        return None;
      }
      var due := SelectIndices(Due(w));
      if |due| < n {
        return None;
      }
      var items := Take(Due(w), n);
      if lastTarget < w {
        lastTarget := w;
      }
      r := Some(items);
    }

    method CountTarget(target: nat) returns (count: nat)
      requires Valid()
      ensures count == PerTarget(Groups(), target)
    {
      count := 0;
      var i := 0;
      while i < |targets|
        invariant 0 <= i <= |targets|
        invariant count == PerTarget(Groups()[..i], target)
      {
        assert Groups()[..i + 1][..i] == Groups()[..i];
        if targets[i] == target {
          count := count + 1;
        }
        i := i + 1;
      }
      assert Groups()[..i] == Groups();
    }

    /** Keeps only the groups of targets that have a full step. */
    method DropIncomplete(n: nat)
      requires Valid()
      modifies this
      ensures Valid() && lastTarget == old(lastTarget)
      ensures Groups() == Complete(old(Groups()), old(Groups()), n)
    {
      var ts: seq<Trajectory>, vs: seq<nat>, ws: seq<nat> := [], [], [];
      var i := 0;
      while i < |targets|
        invariant 0 <= i <= |targets| && unchanged(this) && |ts| == |vs| == |ws|
        invariant Zip(ts, vs, ws) == Complete(Groups()[..i], Groups(), n)
      {
        var count := CountTarget(targets[i]);
        assert Groups()[..i + 1][..i] == Groups()[..i];
        if count >= n {
          ZipSnoc(ts, vs, ws, trajectories[i], versions[i], targets[i]);
          ts, vs, ws := ts + [trajectories[i]], vs + [versions[i]], ws + [targets[i]];
        }
        i := i + 1;
      }
      assert Groups()[..i] == Groups();
      trajectories, versions, targets := ts, vs, ws;
    }

    method FindLatest() returns (k: nat)
      requires Valid() && targets != []
      ensures k == Latest(Groups())
    {
      k := 0;
      var i := 1;
      assert Groups()[..1] == [Groups()[0]];
      while i < |targets|
        invariant 1 <= i <= |targets| && k == Latest(Groups()[..i])
      {
        assert Groups()[..i + 1][..i] == Groups()[..i];
        if targets[k] <= targets[i] {
          k := i;
        }
        i := i + 1;
      }
      assert Groups()[..i] == Groups();
    }

    /** Drops the groups that are trained last until `maxSize` are left. */
    method TruncateToMaxSize()
      requires Valid()
      modifies this
      ensures Valid() && lastTarget == old(lastTarget)
      ensures Groups() == Truncated(old(Groups()), maxSize)
    {
      while |trajectories| > maxSize
        invariant Valid() && lastTarget == old(lastTarget)
        invariant Truncated(Groups(), maxSize) == Truncated(old(Groups()), maxSize)
        decreases |trajectories|
      {
        var k := FindLatest();
        PopAt(k);
      }
    }

    /** `load_state_dict` as the asynchronous trainer calls it. */
    method LoadState(saved: seq<Group>, step: nat, maxAge: nat, n: nat, dropIncomplete: bool)
      modifies this
      ensures Valid() && lastTarget == step - 1
      ensures Groups() == RestoreOf(saved, step, maxAge, n, dropIncomplete, maxSize)
    {
      trajectories := seq(|saved|, i requires 0 <= i < |saved| => Trajectory(saved[i].ordinal, saved[i].prompt));
      versions := seq(|saved|, i requires 0 <= i < |saved| => saved[i].version);
      targets := seq(|saved|, i requires 0 <= i < |saved| => saved[i].target);
      assert Groups() == saved;
      Evict(Misfit(maxAge));
      Evict(Past(step));
      if dropIncomplete {
        DropIncomplete(n);
      }
      TruncateToMaxSize();
      lastTarget := step - 1;
    }

    /** `get_trajectories_needed`. */
    method Needed(target: nat, n: nat, maxAge: nat) returns (r: nat)
      requires Valid()
      ensures var fitting := |Fitting(Groups(), target, maxAge)|;
              r == if fitting < n then n - fitting else 0
    {
      var count := 0;
      var i := 0;
      while i < |trajectories|
        invariant 0 <= i <= |trajectories|
        invariant count == CountForTarget(Groups()[..i], target, maxAge)
      {
        assert Groups()[..i + 1][..i] == Groups()[..i];
        if targets[i] == target && target <= versions[i] + maxAge && versions[i] <= target {
          count := count + 1;
        }
        i := i + 1;
      }
      assert Groups()[..i] == Groups();
      FittingCounts(Groups(), target, maxAge);
      r := if count < n then n - count else 0;
    }

    /** `get_held_task_indices`. */
    method HeldOrdinals() returns (r: seq<nat>)
      requires Valid()
      ensures multiset(r) == Bag(Groups())
      ensures Sorted(r)
    {
      r := [];
      var i := 0;
      while i < |trajectories|
        invariant 0 <= i <= |trajectories|
        invariant multiset(r) == Bag(Groups()[..i])
        invariant Sorted(r)
      {
        InsertSorts(r, trajectories[i].ordinal);
        InsertAdds(r, trajectories[i].ordinal);
        assert Groups()[..i + 1] == Groups()[..i] + [Groups()[i]];
        BagAppend(Groups()[..i], [Groups()[i]]);
        BagOne(Groups()[i]);
        r := Insert(r, trajectories[i].ordinal);
        i := i + 1;
      }
      assert Groups()[..i] == Groups();
    }
  }

  lemma ZipSnoc(ts: seq<Trajectory>, vs: seq<nat>, ws: seq<nat>, t: Trajectory, v: nat, w: nat)
    requires |ts| == |vs| == |ws|
    ensures Zip(ts + [t], vs + [v], ws + [w]) == Zip(ts, vs, ws) + [Group(t.ordinal, t.prompt, v, w)]
  {
  }

  function Insert(s: seq<nat>, x: nat): seq<nat> {
    if s == [] || s[|s| - 1] <= x then s + [x] else Insert(s[..|s| - 1], x) + [s[|s| - 1]]
  }

  predicate Sorted(s: seq<nat>) {
    forall i, j :: 0 <= i < j < |s| ==> s[i] <= s[j]
  }

  lemma {:induction false} InsertAdds(s: seq<nat>, x: nat)
    ensures multiset(Insert(s, x)) == multiset(s) + multiset{x}
    ensures forall y :: y in Insert(s, x) ==> y in s || y == x
  {
    if s != [] && x < s[|s| - 1] {
      InsertAdds(s[..|s| - 1], x);
      assert s == s[..|s| - 1] + [s[|s| - 1]];
    }
  }

  lemma SortedSnoc(s: seq<nat>, x: nat)
    requires Sorted(s) && forall y :: y in s ==> y <= x
    ensures Sorted(s + [x])
  {
    forall i, j | 0 <= i < j < |s| + 1 ensures (s + [x])[i] <= (s + [x])[j] {
      assert s[i] in s;
    }
  }

  lemma {:induction false} InsertSorts(s: seq<nat>, x: nat)
    requires Sorted(s)
    ensures Sorted(Insert(s, x))
  {
    if s != [] {
      var init, last := s[..|s| - 1], s[|s| - 1];
      forall y | y in init ensures y <= last {
        var i :| 0 <= i < |init| && init[i] == y;
        assert s[i] <= s[|s| - 1];
      }
      assert s == init + [last];
      if x < last {
        InsertSorts(init, x);
        InsertAdds(init, x);
        SortedSnoc(Insert(init, x), last);
      } else {
        SortedSnoc(s, x);
      }
    }
  }

  lemma EvictionSpec(gs: seq<Group>, rule: Rule)
    ensures Erase(gs, Positions(gs, rule)) == Without(gs, rule)
  {
    var m := |Matching(gs, rule)|;
    EraseDropsFirst(gs, rule, m);
    assert FirstPositions(gs, rule, m) == Positions(gs, rule);
    DropFirstSaturates(gs, rule, m, |gs|);
  }

  lemma {:induction false} PositionsSelect(gs: seq<Group>, rule: Rule, i: nat)
    requires i < |Matching(gs, rule)|
    ensures gs[Positions(gs, rule)[i]] == Matching(gs, rule)[i]
  {
    var k := |gs| - 1;
    var init := gs[..k];
    assert gs == init + [gs[k]];
    SnocRule(init, gs[k], rule, i);
    if i < |Matching(init, rule)| {
      PositionsSelect(init, rule, i);
    }
  }

  /** The filters keep exactly the groups that are inside the age window of a target that has
      not been trained yet. */
  lemma FilteredKeepsExactly(saved: seq<Group>, step: nat, maxAge: nat)
    ensures forall g :: g in Filtered(saved, step, maxAge) <==>
              g in saved && step <= g.target && g.version <= g.target <= g.version + maxAge
  {
    WithoutIff(saved, Misfit(maxAge), |saved|);
    var a := Without(saved, Misfit(maxAge));
    WithoutIff(a, Past(step), |a|);
  }

  lemma {:induction false} CompleteIff(gs: seq<Group>, all: seq<Group>, n: nat)
    ensures forall g :: g in Complete(gs, all, n) <==> g in gs && PerTarget(all, g.target) >= n
  {
    if gs != [] {
      CompleteIff(gs[..|gs| - 1], all, n);
      assert gs == gs[..|gs| - 1] + [gs[|gs| - 1]];
    }
  }

  lemma {:induction false} LatestIs(gs: seq<Group>)
    requires gs != []
    ensures forall i :: 0 <= i < |gs| && i != Latest(gs) ==> Sooner(gs, i, Latest(gs))
    ensures forall g :: g in gs ==> g.target <= gs[Latest(gs)].target
  {
    if |gs| > 1 {
      var init := gs[..|gs| - 1];
      LatestIs(init);
      forall i | 0 <= i < |gs| && i != Latest(gs) ensures Sooner(gs, i, Latest(gs)) {
        assert i < |init| && i != Latest(init) ==> Sooner(init, i, Latest(init));
      }
    }
  }

  /** The order in which groups are trained: by target, then by arrival. */
  predicate Sooner(gs: seq<Group>, i: nat, j: nat)
    requires i < |gs| && j < |gs|
  {
    gs[i].target < gs[j].target || (gs[i].target == gs[j].target && i < j)
  }

  lemma KeptOrPopped(gs: seq<Group>, k: nat, g: Group)
    requires k < |gs|
    ensures g in gs <==> g in Pop(gs, k) || g == gs[k]
  {
    assert gs == gs[..k] + [gs[k]] + gs[k + 1..];
  }

  /** Truncation fills the buffer to its size with groups of the smallest targets. */
  lemma {:induction false} TruncatedKeepsFirst(gs: seq<Group>, size: nat)
    ensures |Truncated(gs, size)| == if |gs| <= size then |gs| else size
    ensures forall g :: g in Truncated(gs, size) ==> g in gs
    ensures forall g, h :: g in Truncated(gs, size) && h in gs && h !in Truncated(gs, size) ==> g.target <= h.target
    decreases |gs|
  {
    if |gs| > size {
      var k := Latest(gs);
      LatestIs(gs);
      TruncatedKeepsFirst(Pop(gs, k), size);
      forall g ensures g in gs <==> g in Pop(gs, k) || g == gs[k] {
        KeptOrPopped(gs, k, g);
      }
    }
  }

  /** A restore keeps a group only if it is inside the age window of a target that has not
      been trained yet; if it loses such a group, the target was incomplete and incomplete
      targets are dropped, or the buffer is full of groups that are trained no later. */
  lemma RestoreKeepsExactly(saved: seq<Group>, step: nat, maxAge: nat, n: nat, dropIncomplete: bool, size: nat)
    ensures
      var kept := RestoreOf(saved, step, maxAge, n, dropIncomplete, size);
      && |kept| <= size
      && (forall g :: g in kept ==>
            && g in saved && step <= g.target && g.version <= g.target <= g.version + maxAge
            && (dropIncomplete ==> PerTarget(Filtered(saved, step, maxAge), g.target) >= n))
      && (forall g :: g in saved && step <= g.target && g.version <= g.target <= g.version + maxAge && g !in kept ==>
            || (dropIncomplete && PerTarget(Filtered(saved, step, maxAge), g.target) < n)
            || (|kept| == size && forall h :: h in kept ==> h.target <= g.target))
  {
    var young := Filtered(saved, step, maxAge);
    FilteredKeepsExactly(saved, step, maxAge);
    CompleteIff(young, young, n);
    TruncatedKeepsFirst(if dropIncomplete then Complete(young, young, n) else young, size);
  }

  lemma {:induction false} DropFirstIsSubList(gs: seq<Group>, rule: Rule, n: nat) returns (keep: seq<bool>)
    ensures |keep| == |gs| && DropFirst(gs, rule, n) == Pick(gs, keep)
  {
    if gs == [] {
      keep := [];
    } else {
      var k := |gs| - 1;
      var rest := DropFirstIsSubList(gs[..k], rule, n);
      keep := rest + [!(rule.Holds(gs[k]) && |Matching(gs[..k], rule)| < n)];
      assert keep[..k] == rest;
    }
  }

  lemma {:induction false} PickTwice(gs: seq<Group>, k1: seq<bool>, k2: seq<bool>) returns (keep: seq<bool>)
    requires |k1| == |gs| && |k2| == |Pick(gs, k1)|
    ensures |keep| == |gs| && Pick(Pick(gs, k1), k2) == Pick(gs, keep)
  {
    if gs == [] {
      keep := [];
    } else {
      var k := |gs| - 1;
      var p := Pick(gs[..k], k1[..k]);
      if k1[k] {
        assert Pick(gs, k1) == p + [gs[k]];
        var rest := PickTwice(gs[..k], k1[..k], k2[..|p|]);
        keep := rest + [k2[|p|]];
        assert keep[..k] == rest;
        assert Pick(gs, k1)[..|p|] == p;
      } else {
        assert Pick(gs, k1) == p;
        var rest := PickTwice(gs[..k], k1[..k], k2);
        keep := rest + [false];
        assert keep[..k] == rest;
      }
    }
  }

  lemma {:induction false} CompleteIsSubList(gs: seq<Group>, all: seq<Group>, n: nat) returns (keep: seq<bool>)
    ensures |keep| == |gs| && Complete(gs, all, n) == Pick(gs, keep)
  {
    if gs == [] {
      keep := [];
    } else {
      var k := |gs| - 1;
      var rest := CompleteIsSubList(gs[..k], all, n);
      keep := rest + [PerTarget(all, gs[k].target) >= n];
      assert keep[..k] == rest;
    }
  }

  lemma {:induction false} WholeIsSubList(gs: seq<Group>) returns (keep: seq<bool>)
    ensures |keep| == |gs| && Pick(gs, keep) == gs && forall i :: 0 <= i < |gs| ==> keep[i]
  {
    if gs == [] {
      keep := [];
    } else {
      var rest := WholeIsSubList(gs[..|gs| - 1]);
      keep := rest + [true];
      assert keep[..|gs| - 1] == rest;
    }
  }

  /** `keep` over a list with position `k` popped, as a choice over the whole list. */
  function Skipping(keep: seq<bool>, k: nat): seq<bool>
    requires k <= |keep|
  {
    keep[..k] + [false] + keep[k..]
  }

  lemma {:induction false} PickSkips(gs: seq<Group>, k: nat, keep: seq<bool>)
    requires k < |gs| && |keep| == |gs| - 1
    ensures Pick(gs, Skipping(keep, k)) == Pick(Pop(gs, k), keep)
  {
    var n := |gs| - 1;
    var all, popped := Skipping(keep, k), Pop(gs, k);
    assert |all| == |gs| && |popped| == n;
    if k == n {
      assert all[..n] == keep && !all[n] && popped == gs[..n];
    } else {
      PickSkips(gs[..n], k, keep[..n - 1]);
      assert all[..n] == Skipping(keep[..n - 1], k) && all[n] == keep[n - 1];
      assert popped[..n - 1] == Pop(gs[..n], k) && popped[n - 1] == gs[n];
    }
  }

  /** What truncation chooses: the kept positions come before the dropped ones in the order
      of training, and the list order is kept. */
  lemma {:induction false} TruncatedByPriority(gs: seq<Group>, size: nat) returns (keep: seq<bool>)
    ensures |keep| == |gs| && Truncated(gs, size) == Pick(gs, keep)
    ensures Prefers(gs, keep)
    decreases |gs|
  {
    if |gs| <= size {
      keep := WholeIsSubList(gs);
    } else {
      var k := Latest(gs);
      var rest := TruncatedByPriority(Pop(gs, k), size);
      keep := Skipping(rest, k);
      PickSkips(gs, k, rest);
      LatestIs(gs);
      SkippingKeepsSooner(gs, k, rest);
    }
  }

  lemma SkippingKeepsSooner(gs: seq<Group>, k: nat, keep: seq<bool>)
    requires k < |gs| && |keep| == |gs| - 1 && Prefers(Pop(gs, k), keep)
    requires forall i :: 0 <= i < |gs| && i != k ==> Sooner(gs, i, k)
    ensures Prefers(gs, Skipping(keep, k))
  {
    var all := Skipping(keep, k);
    forall i, j | 0 <= i < |gs| && 0 <= j < |gs| && all[i] && !all[j] ensures Sooner(gs, i, j) {
      var i', j' := if i < k then i else i - 1, if j < k then j else j - 1;
      assert keep[i'];
      if j != k {
        assert !keep[j'] && Sooner(Pop(gs, k), i', j');
      }
    }
  }

  /** What is kept is trained sooner than what is not. */
  predicate Prefers(gs: seq<Group>, keep: seq<bool>)
    requires |keep| == |gs|
  {
    forall i, j :: 0 <= i < |gs| && 0 <= j < |gs| && keep[i] && !keep[j] ==> Sooner(gs, i, j)
  }

  /** A restore keeps a sub-list of what was saved, in the saved order. */
  lemma RestoreIsSubList(saved: seq<Group>, step: nat, maxAge: nat, n: nat, dropIncomplete: bool, size: nat)
    ensures SubList(RestoreOf(saved, step, maxAge, n, dropIncomplete, size), saved)
  {
    var k1 := DropFirstIsSubList(saved, Misfit(maxAge), |saved|);
    var a := Without(saved, Misfit(maxAge));
    var k2 := DropFirstIsSubList(a, Past(step), |a|);
    var k := PickTwice(saved, k1, k2);
    var young := Filtered(saved, step, maxAge);
    if dropIncomplete {
      var k3 := CompleteIsSubList(young, young, n);
      k := PickTwice(saved, k, k3);
    }
    var k4 := TruncatedByPriority(Pick(saved, k), size);
    k := PickTwice(saved, k, k4);
  }
}
