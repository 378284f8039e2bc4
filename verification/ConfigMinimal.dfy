// Which entries of a config file can be deleted without changing what the file expands to,
// and which of them minimizing leaves behind.
module ConfigMinimal {
  import opened Prelude
  import opened ConfigTree
  import opened ConfigFiles

  // ----- Entries that repeat the base -----

  /** Every leaf of `v` is in `x` already. */
  predicate Contains(x: Node, v: Node)
    decreases v
  {
    if v.Map? then
      x.Map? && forall k :: k in v.entries ==> k in x.entries && Contains(x.entries[k], v.entries[k])
    else x == v
  }

  lemma {:induction false} MergeNothingIff(x: Node, v: Node)
    ensures Merge(x, v) == x <==> Contains(x, v)
    decreases v
  {
    if x.Map? && v.Map? {
      forall k | k in v.entries && k in x.entries
        ensures ContainsAt(x, v, k)
      {
        MergeNothingIff(x.entries[k], v.entries[k]);
      }
      ContainsByKey(x, v);
    }
  }

  predicate ContainsAt(x: Node, v: Node, k: string)
    requires x.Map? && v.Map? && k in v.entries && k in x.entries
  {
    Merge(x.entries[k], v.entries[k]) == x.entries[k] <==> Contains(x.entries[k], v.entries[k])
  }

  lemma ContainsByKey(x: Node, v: Node)
    requires x.Map? && v.Map? && forall k :: k in v.entries && k in x.entries ==> ContainsAt(x, v, k)
    ensures Merge(x, v) == x <==> Contains(x, v)
  {
    if Contains(x, v) {
      forall k ensures k in Merge(x, v).entries <==> k in x.entries
        ensures k in x.entries ==> Merge(x, v).entries[k] == x.entries[k]
      {
        MergedEntry(x, v, k);
        assert k in v.entries ==> ContainsAt(x, v, k);
      }
      SameMaps(Merge(x, v).entries, x.entries);
    }
    if Merge(x, v) == x {
      forall k | k in v.entries ensures k in x.entries && Contains(x.entries[k], v.entries[k]) {
        MergedEntry(x, v, k);
        assert ContainsAt(x, v, k);
      }
    }
  }

  lemma SameMaps(a: Entries, b: Entries)
    requires forall k :: (k in a <==> k in b) && (k in b ==> a[k] == b[k])
    ensures a == b
  {
    assert a.Keys == b.Keys;
  }

  /** `v` says something about every leaf of `x`. */
  predicate Overwrites(v: Node, x: Node)
    decreases v
  {
    x.Map? && v.Map? ==>
      forall k :: k in x.entries ==> k in v.entries && Overwrites(v.entries[k], x.entries[k])
  }

  lemma {:induction false} MergeAllIff(x: Node, v: Node)
    ensures Merge(x, v) == v <==> Overwrites(v, x)
    decreases v
  {
    if x.Map? && v.Map? {
      forall k | k in v.entries && k in x.entries
        ensures OverwritesAt(x, v, k)
      {
        MergeAllIff(x.entries[k], v.entries[k]);
      }
      OverwritesByKey(x, v);
    }
  }

  predicate OverwritesAt(x: Node, v: Node, k: string)
    requires x.Map? && v.Map? && k in v.entries && k in x.entries
  {
    Merge(x.entries[k], v.entries[k]) == v.entries[k] <==> Overwrites(v.entries[k], x.entries[k])
  }

  lemma OverwritesByKey(x: Node, v: Node)
    requires x.Map? && v.Map? && forall k :: k in v.entries && k in x.entries ==> OverwritesAt(x, v, k)
    ensures Merge(x, v) == v <==> Overwrites(v, x)
  {
    if Overwrites(v, x) {
      forall k ensures k in Merge(x, v).entries <==> k in v.entries
        ensures k in v.entries ==> Merge(x, v).entries[k] == v.entries[k]
      {
        MergedEntry(x, v, k);
        assert k in x.entries ==> OverwritesAt(x, v, k);
      }
      SameMaps(Merge(x, v).entries, v.entries);
    }
    if Merge(x, v) == v {
      forall k | k in x.entries ensures k in v.entries && Overwrites(v.entries[k], x.entries[k]) {
        MergedEntry(x, v, k);
        assert OverwritesAt(x, v, k);
      }
    }
  }

  /** The entry of `n` at `path` adds nothing to `b`: the base has sections along the path and
      at its end an entry that contains this one. */
  predicate Repeats(b: Node, n: Node, path: seq<string>)
    requires HasPath(n, path)
    decreases |path|
  {
    && b.Map? && path[0] in b.entries
    && if |path| == 1 then Contains(b.entries[path[0]], n.entries[path[0]])
       else Repeats(b.entries[path[0]], n.entries[path[0]], path[1..])
  }

  /** Over a base, an entry at any depth can be deleted exactly when it repeats the base. */
  lemma {:induction false} DeleteUnseenIff(b: Node, n: Node, path: seq<string>)
    requires HasPath(n, path)
    ensures Merge(b, Delete(n, path)) == Merge(b, n) <==> Repeats(b, n, path)
    decreases |path|
  {
    DeleteChanges(n, path);
    if b.Map? {
      var k := path[0];
      OtherEntriesStay(b, n, path);
      MergedEntry(b, n, k);
      MergedEntry(b, Delete(n, path), k);
      if k in b.entries {
        if |path| == 1 {
          MergeNothingIff(b.entries[k], n.entries[k]);
        } else {
          DeleteUnseenIff(b.entries[k], n.entries[k], path[1..]);
        }
      } else if |path| > 1 {
        DeleteChanges(n.entries[k], path[1..]);
      }
    }
  }

  /** Two merges differ at the head of the path, if at all. */
  lemma OtherEntriesStay(b: Node, n: Node, path: seq<string>)
    requires b.Map? && HasPath(n, path)
    ensures var left, right := Merge(b, Delete(n, path)).entries, Merge(b, n).entries;
            left == right <==>
            path[0] in left && path[0] in right && left[path[0]] == right[path[0]]
  {
    var d := Delete(n, path);
    var left, right := Merge(b, d).entries, Merge(b, n).entries;
    forall k | k != path[0] ensures (k in left <==> k in right) && (k in left ==> left[k] == right[k]) {
      MergedEntry(b, d, k);
      MergedEntry(b, n, k);
    }
    MergedEntry(b, n, path[0]);
    if path[0] in left && left[path[0]] == right[path[0]] {
      SameMaps(left, right);
    }
  }

  // ----- Deleting an entry of a file -----

  function WithoutEntry(body: Entries, path: seq<string>): Entries
    requires HasPath(Map(body), path)
  {
    Delete(Map(body), path).entries
  }

  /** Deleting the entry at `path` changes nothing over what the parent expands to. A plain
      entry must repeat the parent. A section that overrides can go if the parent has the same
      section; its marker can go if the rest overwrites whatever the parent has there; part of
      a marker can go if the marker stays on; no other part can. */
  predicate Removable(loaded: Entries, body: Entries, path: seq<string>)
    requires HasPath(Map(body), path)
  {
    var k, v := path[0], body[path[0]];
    if !IsOverride(v) then Repeats(Map(loaded), Map(body), path)
    else if |path| == 1 then k in loaded && loaded[k] == Unmarked(v)
    else PartRemovable(loaded, k, v, path[1..])
  }

  predicate PartRemovable(loaded: Entries, k: string, v: Node, part: seq<string>)
    requires IsOverride(v) && HasPath(v, part)
  {
    && part[0] == MARKER
    && if |part| == 1 then k in loaded ==> Overwrites(Unmarked(v), loaded[k])
       else Truthy(Delete(v.entries[MARKER], part[1..]))
  }

  /** What an entry of a file expands to over the parent's, if there is anything. */
  function Entry(loaded: Entries, body: Entries, k: string): Option<Node> {
    if k !in body then if k in loaded then Some(loaded[k]) else None
    else if k !in loaded || IsOverride(body[k]) then Some(Stripped(body[k]))
    else Some(Merge(loaded[k], body[k]))
  }

  lemma SameEntries(loaded: Entries, left: Entries, right: Entries, key: string)
    requires forall k :: k != key ==> (k in left <==> k in right) && (k in left ==> left[k] == right[k])
    ensures MergeWithOverride(loaded, left) == MergeWithOverride(loaded, right)
            <==> Entry(loaded, left, key) == Entry(loaded, right, key)
  {
    var l, r := MergeWithOverride(loaded, left), MergeWithOverride(loaded, right);
    forall k ensures (k in l <==> Entry(loaded, left, k).Some?) && (k in r <==> Entry(loaded, right, k).Some?)
      ensures k in l ==> l[k] == Entry(loaded, left, k).value
      ensures k in r ==> r[k] == Entry(loaded, right, k).value
      ensures k != key ==> Entry(loaded, left, k) == Entry(loaded, right, k)
    {
      OverriddenEntry(loaded, left, k);
      OverriddenEntry(loaded, right, k);
    }
    if Entry(loaded, left, key) == Entry(loaded, right, key) {
      SameMaps(l, r);
    }
  }

  lemma EntryRemovableIff(loaded: Entries, body: Entries, path: seq<string>)
    requires HasPath(Map(body), path)
    ensures Entry(loaded, WithoutEntry(body, path), path[0]) == Entry(loaded, body, path[0])
            <==> Removable(loaded, body, path)
  {
    if IsOverride(body[path[0]]) {
      if |path| > 1 {
        OverridePartRemovableIff(loaded, body, path);
      }
    } else {
      PlainRemovableIff(loaded, body, path);
    }
  }

  /** A part of a section that does not override, so that it does not without the part. */
  lemma StaysPlain(v: Node, path: seq<string>)
    requires HasPath(v, path) && !IsOverride(v)
    ensures !IsOverride(Delete(v, path))
  {
  }

  lemma PlainRemovableIff(loaded: Entries, body: Entries, path: seq<string>)
    requires HasPath(Map(body), path) && !IsOverride(body[path[0]])
    ensures Entry(loaded, WithoutEntry(body, path), path[0]) == Entry(loaded, body, path[0])
            <==> Repeats(Map(loaded), Map(body), path)
  {
    var k, v := path[0], body[path[0]];
    if |path| == 1 {
      if k in loaded {
        MergeNothingIff(loaded[k], v);
      }
    } else {
      StaysPlain(v, path[1..]);
      DeleteChanges(v, path[1..]);
      if k in loaded {
        DeleteUnseenIff(loaded[k], v, path[1..]);
      }
    }
  }

  lemma OverridePartRemovableIff(loaded: Entries, body: Entries, path: seq<string>)
    requires HasPath(Map(body), path) && |path| > 1 && IsOverride(body[path[0]])
    ensures Entry(loaded, WithoutEntry(body, path), path[0]) == Entry(loaded, body, path[0])
            <==> Removable(loaded, body, path)
  {
    var k, v, rest := path[0], body[path[0]], path[1..];
    var d := Delete(v, rest);
    assert WithoutEntry(body, path)[k] == d;
    if rest[0] != MARKER {
      RestChanges(v, rest);
    } else if |rest| == 1 {
      assert d == Unmarked(v) && !IsOverride(d);
      if k in loaded {
        MergeAllIff(loaded[k], d);
      }
    } else {
      assert d.entries[MARKER] == Delete(v.entries[MARKER], rest[1..]);
      if IsOverride(d) {
        assert Unmarked(d).entries == Unmarked(v).entries;
      } else if k in loaded {
        MergedMarker(loaded[k], d, v);
      } else {
        assert MARKER in d.entries && MARKER !in Unmarked(v).entries;
      }
    }
  }

  /** Deleting anything but the marker shows in an overriding section. */
  lemma RestChanges(v: Node, rest: seq<string>)
    requires IsOverride(v) && HasPath(v, rest) && rest[0] != MARKER
    ensures IsOverride(Delete(v, rest)) && Stripped(Delete(v, rest)) != Stripped(v)
  {
    var d := Delete(v, rest);
    assert rest[0] in Unmarked(v).entries;
    if |rest| == 1 {
      assert rest[0] !in Unmarked(d).entries;
    } else {
      DeleteChanges(v.entries[rest[0]], rest[1..]);
      assert Unmarked(d).entries[rest[0]] != Unmarked(v).entries[rest[0]];
    }
  }

  lemma MergedMarker(x: Node, d: Node, v: Node)
    requires d.Map? && v.Map? && MARKER in d.entries
    ensures Merge(x, d) != Unmarked(v)
  {
    if x.Map? {
      MergedEntry(x, d, MARKER);
    }
    assert MARKER in Merge(x, d).entries && MARKER !in Unmarked(v).entries;
  }

  /** What a parent expands to when it is inherited from. */
  function Inherited(parent: File): Entries {
    MergeWithOverride(map[], Load(parent))
  }

  /** The exact condition, for any file with a parent: an entry at any depth can be deleted
      without changing what the file expands to if and only if it is removable. */
  lemma DeleteKeepsMeaningIff(parent: File, body: Entries, path: seq<string>)
    requires HasPath(Map(body), path)
    ensures Load(File(One(parent), WithoutEntry(body, path))) == Load(File(One(parent), body))
            <==> Removable(Inherited(parent), body, path)
  {
    SameEntries(Inherited(parent), WithoutEntry(body, path), body, path[0]);
    EntryRemovableIff(Inherited(parent), body, path);
  }

  // ----- What minimizing leaves behind -----

  /** For `minimize` with either base: which entries of its output are redundant. */
  lemma MinimizedEntryIsRedundantIff(child: File, explicit: Option<File>, path: seq<string>)
    requires Minimize(child, explicit).Ok? && HasPath(Map(Minimize(child, explicit).value.body), path)
    ensures var m := Minimize(child, explicit).value;
            Load(File(m.defaults, WithoutEntry(m.body, path))) == Load(m)
            <==> Removable(Inherited(ParentAfter(child, explicit)), m.body, path)
  {
    DeleteKeepsMeaningIff(ParentAfter(child, explicit), Minimize(child, explicit).value.body, path);
  }

  /** A base that has parents of its own expands to what is inherited from it. */
  lemma InheritedIsLoaded(base: File)
    requires base.defaults != NoDefaults
    ensures Inherited(base) == Load(base)
  {
    InheritingLoadsClean(base);
    forall k
      ensures k in Inherited(base) <==> k in Load(base)
      ensures k in Load(base) ==> Inherited(base)[k] == Load(base)[k]
    {
      OverriddenEntry(map[], Load(base), k);
    }
  }

  predicate StripsTo(full: Entries, stripped: Entries) {
    forall k :: k in stripped ==> k in full && stripped[k] == Stripped(full[k])
  }

  lemma InheritedStrips(parent: File)
    ensures StripsTo(Load(parent), Inherited(parent))
  {
    forall k | k in Inherited(parent) ensures k in Load(parent) && Inherited(parent)[k] == Stripped(Load(parent)[k]) {
      OverriddenEntry(map[], Load(parent), k);
    }
  }

  /** What repeats the stripped entries repeats the entries. */
  lemma RepeatsUnstripped(full: Entries, stripped: Entries, n: Node, path: seq<string>)
    requires StripsTo(full, stripped) && HasPath(n, path) && Repeats(Map(stripped), n, path)
    ensures Repeats(Map(full), n, path)
  {
    var x, v := full[path[0]], n.entries[path[0]];
    assert stripped[path[0]] == Stripped(x);
    if |path| == 1 {
      assert Contains(Stripped(x), v);
    } else {
      assert Repeats(Stripped(x), v, path[1..]);
    }
  }

  /** Nothing that pruning leaves repeats what it was pruned against. */
  lemma PrunedRepeatsNothing(child: File, path: seq<string>)
    requires Minimize(child, None).Ok? && HasPath(Map(Minimize(child, None).value.body), path)
    ensures !Repeats(Map(Inherited(ParentAfter(child, None))), Map(Minimize(child, None).value.body), path)
  {
    var b, n := Load(ParentAfter(child, None)), Map(Minimize(child, None).value.body);
    PrunedIsIrredundant(Map(child.body), Map(b), path);
    DeleteUnseenIff(Map(b), n, path);
    InheritedStrips(ParentAfter(child, None));
    if Repeats(Map(Inherited(ParentAfter(child, None))), n, path) {
      RepeatsUnstripped(b, Inherited(ParentAfter(child, None)), n, path);
    }
  }

  /** What the output of `minimize` may carry for nothing: the marker of an overriding section
      whose settings overwrite all of what they replace, part of a marker that stays on
      without it, or a section that is nothing but its marker and replaces an empty one. */
  predicate LeftRedundant(loaded: Entries, body: Entries, path: seq<string>)
    requires HasPath(Map(body), path)
  {
    var k, v := path[0], body[path[0]];
    && IsOverride(v)
    && if |path| == 1 then Unmarked(v) == EMPTY_MAP && k in loaded && loaded[k] == EMPTY_MAP
       else PartRemovable(loaded, k, v, path[1..])
  }

  /** Irredundance of `minimize`, as far as it goes: deleting an entry of the output, at any
      depth, changes what the file expands to, with the exception of just these. */
  lemma MinimizedIsIrredundantIff(child: File, path: seq<string>)
    requires Minimize(child, None).Ok? && HasPath(Map(Minimize(child, None).value.body), path)
    ensures var m := Minimize(child, None).value;
            Load(File(m.defaults, WithoutEntry(m.body, path))) == Load(m)
            <==> LeftRedundant(Inherited(ParentAfter(child, None)), m.body, path)
  {
    var body, loaded := Minimize(child, None).value.body, Inherited(ParentAfter(child, None));
    MinimizedEntryIsRedundantIff(child, None, path);
    PrunedRepeatsNothing(child, path);
    var k := path[0];
    if |path| == 1 && IsOverride(body[k]) && k in loaded && loaded[k] == Unmarked(body[k]) {
      forall j | j in loaded[k].entries ensures false {
        EqualEntryRepeats(loaded, body, k, j);
        PrunedRepeatsNothing(child, [k, j]);
      }
      assert loaded[k].entries == map[];
    }
  }

  lemma EqualEntryRepeats(loaded: Entries, body: Entries, k: string, j: string)
    requires k in body && k in loaded && body[k].Map? && loaded[k] == Unmarked(body[k]) && j in loaded[k].entries
    ensures HasPath(Map(body), [k, j]) && Repeats(Map(loaded), Map(body), [k, j])
  {
    assert [k, j][1..] == [j];
    assert HasPath(body[k], [j]);
    var v := body[k].entries[j];
    assert loaded[k].entries[j] == v;
    MergeSelf(v);
    MergeNothingIff(v, v);
    assert Repeats(loaded[k], body[k], [j]);
  }

  lemma {:induction false} MergeSelf(v: Node)
    ensures Merge(v, v) == v
    decreases v
  {
    if v.Map? {
      forall k | k in v.entries ensures Merge(v.entries[k], v.entries[k]) == v.entries[k] {
        MergeSelf(v.entries[k]);
      }
      assert Merge(v, v).entries == v.entries;
    }
  }

  /** A plain entry of the output is never redundant. */
  lemma PlainEntriesAreNeeded(child: File, path: seq<string>)
    requires Minimize(child, None).Ok? && HasPath(Map(Minimize(child, None).value.body), path)
    requires !IsOverride(Minimize(child, None).value.body[path[0]])
    ensures var m := Minimize(child, None).value;
            Load(File(m.defaults, WithoutEntry(m.body, path))) != Load(m)
  {
    MinimizedIsIrredundantIff(child, path);
  }

  /** The marker of a section that the base does not have stays, and is not needed. */
  lemma MarkerOverNothingIsRedundant(key: string, section: Node)
    requires IsOverride(section)
    ensures var child := File(One(File(NoDefaults, map[])), map[key := section]);
            && Minimize(child, None) == Ok(child)
            && HasPath(Map(child.body), [key, MARKER])
            && Load(File(child.defaults, WithoutEntry(child.body, [key, MARKER]))) == Load(child)
  {
    var child := File(One(File(NoDefaults, map[])), map[key := section]);
    var path := [key, MARKER];
    assert path[1..] == [MARKER];
    assert HasPath(section, [MARKER]);
    assert Untouched(Map(child.body), EMPTY_MAP);
    UntouchedIff(Map(child.body), EMPTY_MAP);
    assert key !in Inherited(child.defaults.parent);
    MinimizedIsIrredundantIff(child, path);
  }

  /** With `--base` a setting that the base inherits and does not repeat stays, and is not
      needed. */
  lemma InheritedSettingIsRedundant(key: string, val: Node)
    requires !IsOverride(val)
    ensures var base := File(One(File(NoDefaults, map[key := val])), map[]);
            var m := File(One(base), map[key := val]);
            && Minimize(File(NoDefaults, map[key := val]), Some(base)) == Ok(m)
            && Load(File(m.defaults, WithoutEntry(m.body, [key]))) == Load(m)
  {
    var root := File(NoDefaults, map[key := val]);
    var base := File(One(root), map[]);
    UntouchedIff(Map(root.body), EMPTY_MAP);
    assert Minimize(root, Some(base)) == Ok(File(One(base), map[key := val]));
    OverriddenEntry(map[], Load(root), key);
    OverriddenEntry(Inherited(root), map[], key);
    InheritedIsLoaded(base);
    assert Inherited(base)[key] == val;
    MergeSelf(val);
    MergeNothingIff(val, val);
    MinimizedEntryIsRedundantIff(root, Some(base), [key]);
  }
}
