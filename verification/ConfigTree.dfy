// Configuration trees: Python equality, deep merge, and pruning of inherited values.
module ConfigTree {
  import opened Prelude

  datatype Scalar = Null | Bool(b: bool) | Int(i: int) | Float(x: real) | Str(s: string)

  datatype Node = Leaf(v: Scalar) | List(items: seq<Node>) | Map(entries: map<string, Node>)

  const EMPTY_MAP := Map(map[])
  const EMPTY_LIST := List([])

  predicate Numeric(s: Scalar) {
    s.Bool? || s.Int? || s.Float?
  }

  function Number(s: Scalar): real
    requires Numeric(s)
  {
    match s
    case Bool(b) => if b then 1.0 else 0.0
    case Int(i) => i as real
    case Float(x) => x
  }

  /** Python's `==` on scalars: booleans and numbers compare by value across types. */
  predicate ScalarEq(a: Scalar, b: Scalar) {
    if Numeric(a) && Numeric(b) then Number(a) == Number(b) else a == b
  }

  /** Python's `==` on containers and scalars. */
  predicate PyEq(a: Node, b: Node)
    decreases a
  {
    match a
    case Leaf(v) => b.Leaf? && ScalarEq(v, b.v)
    case List(xs) => b.List? && |xs| == |b.items| && forall i :: 0 <= i < |xs| ==> PyEq(xs[i], b.items[i])
    case Map(m) => b.Map? && m.Keys == b.entries.Keys && forall k :: k in m ==> PyEq(m[k], b.entries[k])
  }

  lemma {:induction false} PyEqReflexive(a: Node)
    ensures PyEq(a, a)
    decreases a
  {
    match a
    case Leaf(v) =>
    case List(xs) =>
      forall i | 0 <= i < |xs| ensures PyEq(xs[i], xs[i]) {
        PyEqReflexive(xs[i]);
      }
    case Map(m) =>
      forall k | k in m ensures PyEq(m[k], m[k]) {
        PyEqReflexive(m[k]);
      }
  }

  /** Python's equality across types: a boolean is the number 1 or 0, an integer equals the
      float of its value; strings and null equal only themselves. */
  lemma EqualAcrossTypes(b: bool, i: int, j: int, x: real, s: string, v: Scalar)
    ensures PyEq(Leaf(Bool(b)), Leaf(Int(i))) <==> i == if b then 1 else 0
    ensures PyEq(Leaf(Bool(b)), Leaf(Float(x))) <==> x == if b then 1.0 else 0.0
    ensures PyEq(Leaf(Int(i)), Leaf(Float(x))) <==> i as real == x
    ensures PyEq(Leaf(Int(i)), Leaf(Int(j))) <==> i == j
    ensures PyEq(Leaf(Str(s)), Leaf(v)) <==> v == Str(s)
    ensures PyEq(Leaf(Null), Leaf(v)) <==> v == Null
  {
  }

  lemma {:induction false} PyEqSymmetric(a: Node, b: Node)
    requires PyEq(a, b)
    ensures PyEq(b, a)
    decreases a
  {
    match a
    case Leaf(v) =>
    case List(xs) =>
      forall i | 0 <= i < |xs| ensures PyEq(b.items[i], xs[i]) {
        PyEqSymmetric(xs[i], b.items[i]);
      }
    case Map(m) =>
      forall k | k in m ensures PyEq(b.entries[k], m[k]) {
        PyEqSymmetric(m[k], b.entries[k]);
      }
  }

  lemma {:induction false} PyEqTransitive(a: Node, b: Node, c: Node)
    requires PyEq(a, b) && PyEq(b, c)
    ensures PyEq(a, c)
    decreases a
  {
    match a
    case Leaf(v) =>
    case List(xs) =>
      forall i | 0 <= i < |xs| ensures PyEq(xs[i], c.items[i]) {
        PyEqTransitive(xs[i], b.items[i], c.items[i]);
      }
    case Map(m) =>
      forall k | k in m ensures PyEq(m[k], c.entries[k]) {
        PyEqTransitive(m[k], b.entries[k], c.entries[k]);
      }
  }

  /** Deep merge: maps merge key by key, everything else is replaced by the right side. */
  function Merge(base: Node, over: Node): Node
    decreases over
  {
    if base.Map? && over.Map? then
      Map(map k | k in base.entries.Keys + over.entries.Keys ::
            if k !in over.entries then base.entries[k]
            else if k !in base.entries then over.entries[k]
            else Merge(base.entries[k], over.entries[k]))
    else over
  }

  predicate IsEmpty(n: Node) {
    n == EMPTY_MAP || n == EMPTY_LIST
  }

  /** `_prune_equal`; the removal sentinel is `None`. */
  function Prune(a: Node, b: Node): Option<Node>
    decreases a, 0
  {
    if a.Map? && b.Map? then
      Some(Map(map k | k in a.entries && Survives(a.entries[k], b.entries, k) :: Pruned(a.entries[k], b.entries, k)))
    else if PyEq(a, b) then None
    else Some(a)
  }

  /** The entry of `key` stays in the output: it is new, or something of it is left. */
  predicate Survives(val: Node, base: map<string, Node>, key: string)
    decreases val, 1
  {
    key in base ==> var p := Prune(val, base[key]); p.Some? && !IsEmpty(p.value)
  }

  function Pruned(val: Node, base: map<string, Node>, key: string): Node
    requires Survives(val, base, key)
    decreases val, 2
  {
    if key in base then Prune(val, base[key]).value else val
  }

  // ----- When pruning keeps the meaning -----

  /** What merging the pruned form over `base` gives, when the entry may have vanished. */
  function Restored(base: Node, pruned: Option<Node>): Node {
    if pruned.None? || IsEmpty(pruned.value) then base else Merge(base, pruned.value)
  }

  /** No value is dropped unless the base carries the very same one: no Python-equal value
      of another type, no empty list over something else, no empty map over a non-map. */
  predicate Faithful(a: Node, b: Node)
    decreases a
  {
    if a.Map? && b.Map? then forall k :: k in a.entries && k in b.entries ==> Faithful(a.entries[k], b.entries[k])
    else PyEq(a, b) || IsEmpty(a) ==> a == b
  }

  /** The base under its own parent, if it has one. */
  function Under(parent: Option<Node>, b: Node): Node {
    if parent.Some? then Merge(parent.value, b) else b
  }

  function At(parent: Option<Node>, k: string): Option<Node> {
    if parent.Some? && parent.value.Map? && k in parent.value.entries then Some(parent.value.entries[k]) else None
  }

  lemma UnderMap(parent: Option<Node>, b: Node)
    requires b.Map?
    ensures Under(parent, b).Map?
    ensures forall k :: k in b.entries ==>
              k in Under(parent, b).entries && Under(parent, b).entries[k] == Under(At(parent, k), b.entries[k])
  {
  }

  /** The exact condition for a value: replacing it by its pruned form changes nothing over
      the base, with or without a parent below the base, if and only if pruning it is
      faithful. */
  lemma {:induction false} PruneKeepsMeaningIff(a: Node, b: Node, parent: Option<Node>)
    ensures Restored(Under(parent, b), Prune(a, b)) == Merge(Under(parent, b), a) <==> Faithful(a, b)
    decreases a
  {
    if a.Map? && b.Map? {
      forall k ensures KeptAt(a, b, parent, k) {
        if k in a.entries && k in b.entries {
          PruneKeepsMeaningIff(a.entries[k], b.entries[k], At(parent, k));
        }
      }
      MapCase(a, b, parent);
    } else {
      PyEqReflexive(a);
    }
  }

  /** The condition below, for the values of one shared key. */
  predicate KeptAt(a: Node, b: Node, parent: Option<Node>, k: string)
    requires a.Map? && b.Map?
  {
    k in a.entries && k in b.entries ==>
      (Restored(Under(At(parent, k), b.entries[k]), Prune(a.entries[k], b.entries[k]))
       == Merge(Under(At(parent, k), b.entries[k]), a.entries[k])
       <==> Faithful(a.entries[k], b.entries[k]))
  }

  predicate FaithfulAt(a: Node, b: Node, k: string)
    requires a.Map? && b.Map?
  {
    k in a.entries && k in b.entries ==> Faithful(a.entries[k], b.entries[k])
  }

  /** One key of the two merged maps: it is in both or in neither, and equal if faithful. */
  predicate EntryAgrees(left: map<string, Node>, right: map<string, Node>, a: Node, b: Node, k: string)
    requires a.Map? && b.Map?
  {
    && (k in left <==> k in right)
    && (k in a.entries ==> k in right)
    && (k in right ==> (left[k] == right[k] <==> FaithfulAt(a, b, k)))
  }

  lemma EntryCase(a: Node, b: Node, parent: Option<Node>, k: string)
    requires a.Map? && b.Map?
    requires KeptAt(a, b, parent, k)
    ensures Under(parent, b).Map?
    ensures EntryAgrees(Merge(Under(parent, b), Prune(a, b).value).entries, Merge(Under(parent, b), a).entries, a, b, k)
  {
    UnderMap(parent, b);
    var x := Under(parent, b);
    var p := Prune(a, b).value;
    MergedEntry(x, p, k);
    MergedEntry(x, a, k);
    PrunedEntry(a, b, k);
    if k in a.entries && k in b.entries {
      assert x.entries[k] == Under(At(parent, k), b.entries[k]);
      var q := Prune(a.entries[k], b.entries[k]);
      assert Survives(a.entries[k], b.entries, k) <==> q.Some? && !IsEmpty(q.value);
    }
  }

  lemma MapCase(a: Node, b: Node, parent: Option<Node>)
    requires a.Map? && b.Map?
    requires forall k :: KeptAt(a, b, parent, k)
    ensures Restored(Under(parent, b), Prune(a, b)) == Merge(Under(parent, b), a) <==> Faithful(a, b)
  {
    UnderMap(parent, b);
    var x := Under(parent, b);
    MergeEmpty(x);
    var left, right := Merge(x, Prune(a, b).value), Merge(x, a);
    forall k ensures EntryAgrees(left.entries, right.entries, a, b, k) {
      EntryCase(a, b, parent, k);
    }
    AgreeingMaps(left.entries, right.entries, a, b);
    assert Restored(x, Prune(a, b)) == left;
  }

  lemma AgreeingMaps(left: map<string, Node>, right: map<string, Node>, a: Node, b: Node)
    requires a.Map? && b.Map? && forall k :: EntryAgrees(left, right, a, b, k)
    ensures left == right <==> Faithful(a, b)
  {
    assert forall k :: k in right ==> EntryAgrees(left, right, a, b, k);
    if Faithful(a, b) {
      forall k | k in right ensures k in left && left[k] == right[k] {
        assert EntryAgrees(left, right, a, b, k) && FaithfulAt(a, b, k);
      }
      assert left.Keys == right.Keys by {
        forall k ensures k in left <==> k in right {
          assert EntryAgrees(left, right, a, b, k);
        }
      }
    }
    if left == right {
      forall k | k in a.entries && k in b.entries ensures Faithful(a.entries[k], b.entries[k]) {
        assert EntryAgrees(left, right, a, b, k);
      }
    }
  }

  lemma MergeEmpty(x: Node)
    requires x.Map?
    ensures Merge(x, EMPTY_MAP) == x
  {
    assert Merge(x, EMPTY_MAP).entries == x.entries;
  }

  lemma PrunedEntry(a: Node, b: Node, k: string)
    requires a.Map? && b.Map?
    ensures var p := Prune(a, b).value.entries;
            && (k in p <==> k in a.entries && Survives(a.entries[k], b.entries, k))
            && (k in p ==> p[k] == Pruned(a.entries[k], b.entries, k))
            && (k in p && k in b.entries ==> Prune(a.entries[k], b.entries[k]) == Some(p[k]) && !IsEmpty(p[k]))
            && (k in p && k !in b.entries ==> p[k] == a.entries[k])
  {
  }

  lemma MergedEntry(b: Node, o: Node, k: string)
    requires b.Map? && o.Map?
    ensures var m := Merge(b, o).entries;
            && (k in m <==> k in b.entries || k in o.entries)
            && (k in m ==> m[k] == if k !in o.entries then b.entries[k]
                                   else if k !in b.entries then o.entries[k]
                                   else Merge(b.entries[k], o.entries[k]))
  {
  }

  // ----- Pruning twice, and what is left after pruning -----

  /** Pruning drops nothing at all. */
  predicate Untouched(a: Node, b: Node)
    decreases a
  {
    if a.Map? && b.Map? then
      forall k :: k in a.entries && k in b.entries ==> !IsEmpty(a.entries[k]) && Untouched(a.entries[k], b.entries[k])
    else !PyEq(a, b)
  }

  lemma {:induction false} UntouchedIff(a: Node, b: Node)
    ensures Untouched(a, b) <==> Prune(a, b) == Some(a)
    decreases a
  {
    if a.Map? && b.Map? {
      forall k | k in a.entries && k in b.entries
        ensures Untouched(a.entries[k], b.entries[k]) <==> Prune(a.entries[k], b.entries[k]) == Some(a.entries[k])
      {
        UntouchedIff(a.entries[k], b.entries[k]);
      }
      var p := Prune(a, b).value.entries;
      if Untouched(a, b) {
        forall k | k in a.entries ensures k in p && p[k] == a.entries[k] {
          PrunedEntry(a, b, k);
        }
        assert p == a.entries;
      }
      if p == a.entries {
        forall k | k in a.entries && k in b.entries
          ensures !IsEmpty(a.entries[k]) && Untouched(a.entries[k], b.entries[k])
        {
          assert k in p && p[k] == Pruned(a.entries[k], b.entries, k);
        }
      }
    }
  }

  /** Idempotence: what pruning leaves is not pruned further. */
  lemma {:induction false} PruneLeavesAFixpoint(a: Node, b: Node)
    requires Prune(a, b).Some?
    ensures Prune(Prune(a, b).value, b) == Prune(a, b)
    decreases a
  {
    if a.Map? && b.Map? {
      var p := Prune(a, b).value;
      forall k | k in p.entries && k in b.entries
        ensures !IsEmpty(p.entries[k]) && Untouched(p.entries[k], b.entries[k])
      {
        assert Survives(a.entries[k], b.entries, k);
        PruneLeavesAFixpoint(a.entries[k], b.entries[k]);
        UntouchedIff(p.entries[k], b.entries[k]);
      }
      UntouchedIff(p, b);
    }
  }

  /** Whatever pruning leaves is visible in the merge. */
  lemma {:induction false} LeftoverIsVisible(a: Node, b: Node)
    requires Prune(a, b).Some? && (a.Map? && b.Map? ==> Prune(a, b).value != EMPTY_MAP)
    ensures Merge(b, Prune(a, b).value) != b
    decreases a
  {
    var p := Prune(a, b).value;
    if a.Map? && b.Map? {
      assert p.entries != map[];
      var k :| k in p.entries;
      if k in b.entries {
        assert Survives(a.entries[k], b.entries, k);
        LeftoverIsVisible(a.entries[k], b.entries[k]);
        assert Merge(b, p).entries[k] == Merge(b.entries[k], p.entries[k]);
      } else {
        assert k in Merge(b, p).entries;
      }
    } else {
      PyEqReflexive(a);
    }
  }

  predicate HasPath(n: Node, path: seq<string>)
    decreases |path|
  {
    && |path| > 0
    && n.Map?
    && path[0] in n.entries
    && (|path| > 1 ==> HasPath(n.entries[path[0]], path[1..]))
  }

  /** The tree without the entry at `path`. */
  function Delete(n: Node, path: seq<string>): Node
    requires HasPath(n, path)
    decreases |path|
  {
    if |path| == 1 then Map(n.entries - {path[0]})
    else Map(n.entries[path[0] := Delete(n.entries[path[0]], path[1..])])
  }

  lemma {:induction false} DeleteChanges(n: Node, path: seq<string>)
    requires HasPath(n, path)
    ensures Delete(n, path) != n
    decreases |path|
  {
    if |path| == 1 {
      assert path[0] in n.entries && path[0] !in Delete(n, path).entries;
    } else {
      DeleteChanges(n.entries[path[0]], path[1..]);
      assert Delete(n, path).entries[path[0]] != n.entries[path[0]];
    }
  }

  /** Irredundance: deleting any entry that pruning kept, at any depth, changes the merge. */
  lemma {:induction false} PrunedIsIrredundant(a: Node, b: Node, path: seq<string>)
    requires a.Map? && b.Map? && HasPath(Prune(a, b).value, path)
    ensures Merge(b, Delete(Prune(a, b).value, path)) != Merge(b, Prune(a, b).value)
    decreases |path|
  {
    var p := Prune(a, b).value;
    var d := Delete(p, path);
    var k := path[0];
    PrunedEntry(a, b, k);
    MergedEntry(b, p, k);
    MergedEntry(b, d, k);
    var before, after := Merge(b, p), Merge(b, d);
    if |path| == 1 {
      assert k !in d.entries;
      if k in b.entries {
        LeftoverIsVisible(a.entries[k], b.entries[k]);
        assert before.entries[k] != after.entries[k];
      } else {
        assert k in before.entries && k !in after.entries;
      }
    } else {
      DeleteChanges(p.entries[k], path[1..]);
      assert d.entries[k] == Delete(p.entries[k], path[1..]);
      if k in b.entries && b.entries[k].Map? {
        PrunedIsIrredundant(a.entries[k], b.entries[k], path[1..]);
      }
      assert before.entries[k] != after.entries[k];
    }
  }
}
