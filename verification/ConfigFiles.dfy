// Config files: inheritance through `defaults`, `_override_` sections, minimize and its check.
module ConfigFiles {
  import opened Prelude
  import opened ConfigTree

  type Entries = map<string, Node>

  const MARKER := "_override_"

  datatype Defaults = NoDefaults | One(parent: File) | Many(parents: seq<File>)

  datatype File = File(defaults: Defaults, body: Entries)

  /** Python's truth value of a config value. */
  predicate Truthy(n: Node) {
    match n
    case Leaf(Null) => false
    case Leaf(Bool(b)) => b
    case Leaf(Int(i)) => i != 0
    case Leaf(Float(x)) => x != 0.0
    case Leaf(Str(s)) => s != ""
    case List(xs) => xs != []
    case Map(m) => m != map[]
  }

  predicate IsOverride(n: Node) {
    n.Map? && MARKER in n.entries && Truthy(n.entries[MARKER])
  }

  /** A section overrides exactly when it is marked with anything but null, an empty string, an
      empty container, or a value equal to 0. */
  lemma OverridesIff(n: Node)
    ensures IsOverride(n) <==>
            && n.Map? && "_override_" in n.entries
            && var m := n.entries["_override_"];
               m != Leaf(Null) && m != Leaf(Str("")) && !IsEmpty(m) && !PyEq(m, Leaf(Int(0)))
  {
  }

  function Stripped(n: Node): Node {
    if IsOverride(n) then Map(n.entries - {MARKER}) else n
  }

  /** The keys of `over` that replace the base's section outright. */
  function Replaced(over: Entries): set<string> {
    set k | k in over && IsOverride(over[k])
  }

  function StripAll(over: Entries): Entries {
    map k | k in over :: Stripped(over[k])
  }

  function MergeWithOverride(base: Entries, over: Entries): Entries {
    Merge(Map(base - Replaced(over)), Map(StripAll(over))).entries
  }

  lemma OverriddenEntry(base: Entries, over: Entries, k: string)
    ensures var r := MergeWithOverride(base, over);
            && (k in r <==> k in base || k in over)
            && (k in r ==> r[k] == if k !in over then base[k]
                                   else if k !in base || IsOverride(over[k]) then Stripped(over[k])
                                   else Merge(base[k], over[k]))
  {
    MergedEntry(Map(base - Replaced(over)), Map(StripAll(over)), k);
  }

  // ----- Loading -----

  /** Parents are folded from the left, each over what came before. */
  function LoadAll(files: seq<File>): Entries
    decreases files
  {
    if files == [] then map[]
    else MergeWithOverride(LoadAll(files[..|files| - 1]), Load(files[|files| - 1]))
  }

  function Load(f: File): Entries
    decreases f
  {
    match f.defaults
    case NoDefaults => f.body
    case One(p) => MergeWithOverride(MergeWithOverride(map[], Load(p)), f.body)
    case Many(ps) => MergeWithOverride(LoadAll(ps), f.body)
  }

  /** One parent is a list of one. */
  lemma OneParentIsAList(p: File, body: Entries)
    ensures Load(File(One(p), body)) == Load(File(Many([p]), body))
  {
    assert [p][..0] == [];
    assert LoadAll([p]) == MergeWithOverride(LoadAll([p][..0]), Load(p));
  }

  /** What a file says itself goes before what it inherits. */
  lemma ChildGoesFirst(f: File, k: string)
    requires k in f.body && !f.body[k].Map?
    ensures k in Load(f) && Load(f)[k] == f.body[k]
  {
    var base := match f.defaults
                case NoDefaults => map[]
                case One(p) => MergeWithOverride(map[], Load(p))
                case Many(ps) => LoadAll(ps);
    OverriddenEntry(base, f.body, k);
  }

  /** What a later parent says goes before what an earlier one does. */
  lemma LaterParentGoesFirst(earlier: seq<File>, p: File, body: Entries, k: string)
    requires k !in body && k in Load(p) && !Load(p)[k].Map?
    ensures var r := Load(File(Many(earlier + [p]), body)); k in r && r[k] == Load(p)[k]
  {
    assert (earlier + [p])[..|earlier|] == earlier;
    OverriddenEntry(LoadAll(earlier), Load(p), k);
    OverriddenEntry(LoadAll(earlier + [p]), body, k);
  }

  /** What later parents do not mention comes from the earlier ones. */
  lemma {:induction false} EarlierParentShows(earlier: seq<File>, later: seq<File>, k: string)
    requires forall i :: 0 <= i < |later| ==> k !in Load(later[i])
    ensures k in LoadAll(earlier + later) <==> k in LoadAll(earlier)
    ensures k in LoadAll(earlier) ==> LoadAll(earlier + later)[k] == LoadAll(earlier)[k]
    decreases |later|
  {
    if later == [] {
      assert earlier + later == earlier;
    } else {
      var init := later[..|later| - 1];
      EarlierParentShows(earlier, init, k);
      assert (earlier + later)[..|earlier + later| - 1] == earlier + init;
      OverriddenEntry(LoadAll(earlier + init), Load(later[|later| - 1]), k);
    }
  }

  /** A loaded mapping as the loader holds it: sections are popped in place. */
  class ConfigDict {
    var entries: Entries

    constructor (entries: Entries)
      ensures this.entries == entries
    {
      this.entries := entries;
    }

    /** The loop over the keys of `over`: strips its markers and pops what they replace. */
    static method PopReplaced(base: ConfigDict, over: ConfigDict)
      requires base != over
      modifies base, over
      ensures base.entries == old(base.entries) - Replaced(old(over.entries))
      ensures over.entries == StripAll(old(over.entries))
    {
      ghost var base0, over0 := base.entries, over.entries;
      var keys := over.entries.Keys;
      while keys != {}
        invariant keys <= over0.Keys && over.entries.Keys == over0.Keys
        invariant forall k :: k in over0 ==> over.entries[k] == if k in keys then over0[k] else Stripped(over0[k])
        invariant forall k :: k in base.entries <==> k in base0 && (k in over0 && IsOverride(over0[k]) ==> k in keys)
        invariant forall k :: k in base.entries ==> base.entries[k] == base0[k]
        decreases |keys|
      {
        var key :| key in keys;
        var section := over.entries[key];
        if section.Map? && MARKER in section.entries && Truthy(section.entries[MARKER]) {
          over.entries := over.entries[key := Map(section.entries - {MARKER})];
          if key in base.entries {
            base.entries := base.entries - {key};
          }
        }
        keys := keys - {key};
      }
      assert base.entries == base0 - Replaced(over0);
      assert over.entries == StripAll(over0);
    }

    /** `merge_with_override`: both arguments are changed in place before the merge. */
    static method MergeInto(base: ConfigDict, over: ConfigDict) returns (merged: ConfigDict)
      requires base != over
      modifies base, over
      ensures fresh(merged)
      ensures merged.entries == MergeWithOverride(old(base.entries), old(over.entries))
      ensures base.entries == old(base.entries) - Replaced(old(over.entries))
      ensures over.entries == StripAll(old(over.entries))
    {
      PopReplaced(base, over);
      merged := new ConfigDict(Merge(Map(base.entries), Map(over.entries)).entries);
    }
  }

  /** `load_config_with_inheritance`. */
  method LoadConfig(f: File) returns (config: ConfigDict)
    ensures fresh(config) && config.entries == Load(f)
    decreases f
  {
    config := new ConfigDict(f.body);
    if f.defaults != NoDefaults {
      var parents := if f.defaults.One? then [f.defaults.parent] else f.defaults.parents;
      var base := new ConfigDict(map[]);
      var i := 0;
      while i < |parents|
        invariant 0 <= i <= |parents|
        invariant fresh(base) && base != config && base.entries == LoadAll(parents[..i])
        invariant fresh(config) && config.entries == f.body
      {
        var parent := LoadConfig(parents[i]);
        base := ConfigDict.MergeInto(base, parent);
        assert parents[..i + 1][..i] == parents[..i];
        i := i + 1;
      }
      assert parents[..i] == parents;
      assert f.defaults.One? ==> parents[..0] == [];
      config := ConfigDict.MergeInto(base, config);
    }
  }

  // ----- What loading leaves of the markers -----

  predicate Clean(m: Entries) {
    forall k :: k in m ==> !IsOverride(m[k])
  }

  lemma MergeStaysClean(base: Entries, over: Entries)
    requires Clean(base)
    ensures Clean(MergeWithOverride(base, over))
  {
    forall k | k in MergeWithOverride(base, over) ensures !IsOverride(MergeWithOverride(base, over)[k]) {
      OverriddenEntry(base, over, k);
      if k in base && k in over && !IsOverride(over[k]) && base[k].Map? && over[k].Map? {
        MergedEntry(base[k], over[k], MARKER);
      }
    }
  }

  lemma {:induction false} InheritingLoadsClean(f: File)
    requires f.defaults != NoDefaults
    ensures Clean(Load(f))
  {
    match f.defaults
    case One(p) =>
      MergeStaysClean(map[], Load(p));
      MergeStaysClean(MergeWithOverride(map[], Load(p)), f.body);
    case Many(ps) =>
      LoadAllClean(ps);
      MergeStaysClean(LoadAll(ps), f.body);
  }

  lemma {:induction false} LoadAllClean(files: seq<File>)
    ensures Clean(LoadAll(files))
    decreases |files|
  {
    if files != [] {
      LoadAllClean(files[..|files| - 1]);
      MergeStaysClean(LoadAll(files[..|files| - 1]), Load(files[|files| - 1]));
    }
  }

  // ----- Minimize -----

  datatype Refusal = MissingDefaults | ListDefaults

  function InferBase(child: File): Result<File, Refusal> {
    match child.defaults
    case NoDefaults => Err(MissingDefaults)
    case Many(_) => Err(ListDefaults)
    case One(p) => Ok(p)
  }

  function PrunedBody(body: Entries, base: Entries): Entries {
    Prune(Map(body), Map(base)).value.entries
  }

  /** With an explicit base the child is pruned against the base file as written and
      re-parented to it; otherwise against its parent's expansion. */
  function Minimize(child: File, explicit: Option<File>): Result<File, Refusal> {
    if explicit.Some? then
      Ok(File(One(explicit.value), PrunedBody(child.body, explicit.value.body)))
    else
      match InferBase(child)
      case Err(e) => Err(e)
      case Ok(base) => Ok(File(child.defaults, PrunedBody(child.body, Load(base))))
  }

  /** The exit status of `minimize-check`. */
  function MinimizeCheck(child: File, explicit: Option<File>): nat {
    match Minimize(child, explicit)
    case Err(_) => 2
    case Ok(m) => if m == child then 0 else 1
  }

  /** Without `--base` a file is refused exactly when it does not name one parent. */
  lemma RefusedIff(child: File, explicit: Option<File>)
    ensures Minimize(child, explicit) == Err(MissingDefaults) <==> explicit == None && child.defaults == NoDefaults
    ensures Minimize(child, explicit) == Err(ListDefaults) <==> explicit == None && child.defaults.Many?
    ensures Minimize(child, explicit).Ok? <==> explicit.Some? || child.defaults.One?
  {
  }

  /** The exit status: 2 for a refusal, 0 for a file with nothing to prune and the right
      parent, and 1 for any other. */
  lemma CheckStatusIff(child: File, explicit: Option<File>)
    ensures var status := MinimizeCheck(child, explicit);
            && (status == 2 <==> explicit == None && !child.defaults.One?)
            && (status == 0 <==>
                  && child.defaults.One? && (explicit.Some? ==> child.defaults.parent == explicit.value)
                  && Untouched(Map(child.body),
                               Map(if explicit.Some? then explicit.value.body else Load(child.defaults.parent))))
            && status <= 2
  {
    if explicit.Some? {
      UntouchedIff(Map(child.body), Map(explicit.value.body));
    } else if child.defaults.One? {
      UntouchedIff(Map(child.body), Map(Load(child.defaults.parent)));
    }
  }

  /** Minimizing is a fixpoint: its output always passes the check it was made for. */
  lemma MinimizedPassesCheck(child: File, explicit: Option<File>)
    requires Minimize(child, explicit).Ok?
    ensures MinimizeCheck(Minimize(child, explicit).value, explicit) == 0
  {
    var base := if explicit.Some? then explicit.value.body else Load(child.defaults.parent);
    PruneLeavesAFixpoint(Map(child.body), Map(base));
  }

  // ----- Does minimizing keep what the file expands to? -----

  /** What `child` is pruned against, and the file it inherits from afterwards. */
  function Against(child: File, explicit: Option<File>): Entries
    requires Minimize(child, explicit).Ok?
  {
    if explicit.Some? then explicit.value.body else Load(child.defaults.parent)
  }

  function ParentAfter(child: File, explicit: Option<File>): File
    requires Minimize(child, explicit).Ok?
  {
    if explicit.Some? then explicit.value else child.defaults.parent
  }

  predicate Marked(n: Node) {
    n.Map? && MARKER in n.entries
  }

  function Unmarked(n: Node): Node
    requires n.Map?
  {
    Map(n.entries - {MARKER})
  }

  /** An overriding section stays one after pruning. */
  predicate KeepsMarker(val: Node, base: Node)
    requires Marked(val) && base.Map?
  {
    Survives(val.entries[MARKER], base.entries, MARKER)
  }

  /** Per shared key. A section that stays overriding must lose nothing at all. One whose
      marker is pruned, because the base carries an equal one, is merged instead: it must be
      pruned faithfully and leave nothing of the base standing. Any other value must be
      pruned faithfully; a marker of its own that is off survives unless it is an empty
      container facing a marker that is on. */
  predicate KeepsEntry(val: Node, base: Node) {
    if IsOverride(val) then
      base.Map? ==>
        if KeepsMarker(val, base) then Untouched(Unmarked(val), Unmarked(base))
        else Faithful(Unmarked(val), Unmarked(base)) && Merge(Unmarked(base), Unmarked(val)) == Unmarked(val)
    else Faithful(val, Stripped(base)) && (Marked(val) && IsOverride(base) ==> !IsEmpty(val.entries[MARKER]))
  }

  predicate KeepsAll(body: Entries, base: Entries) {
    forall k :: k in body && k in base ==> KeepsEntry(body[k], base[k])
  }

  /** The loaded base: the entry of `base`, stripped, perhaps over an entry of its own parent
      if it does not override it. */
  ghost predicate RestsOn(loaded: Entries, base: Entries) {
    forall k :: k in base ==> k in loaded && exists parent :: Rests(loaded[k], base[k], parent)
  }

  predicate Rests(loaded: Node, base: Node, parent: Option<Node>) {
    loaded == Under(parent, Stripped(base)) && (IsOverride(base) ==> parent == None)
  }

  /** An entry's value after the merge, given what is left of it in the child. */
  function Final(loaded: Node, left: Option<Node>): Node {
    if left.None? || IsEmpty(left.value) then loaded
    else if IsOverride(left.value) then Stripped(left.value)
    else Merge(loaded, left.value)
  }

  lemma PruneIgnoresStrippedMarker(val: Node, base: Node)
    requires !Marked(val)
    ensures Prune(val, base) == Prune(val, Stripped(base))
  {
    if val.Map? && base.Map? {
      var p, q := Prune(val, base).value, Prune(val, Stripped(base)).value;
      forall k ensures (k in p.entries <==> k in q.entries) && (k in p.entries ==> p.entries[k] == q.entries[k]) {
        PrunedEntry(val, base, k);
        PrunedEntry(val, Stripped(base), k);
      }
      assert p.entries == q.entries;
    }
  }

  /** The marker and the rest of a section are pruned independently. */
  lemma PruneSplits(val: Node, base: Node)
    requires Marked(val) && base.Map?
    ensures var q := Prune(val, base).value;
            && (Marked(q) <==> KeepsMarker(val, base))
            && (Marked(q) ==> q.entries[MARKER] == Pruned(val.entries[MARKER], base.entries, MARKER))
            && Unmarked(q) == Prune(Unmarked(val), Unmarked(base)).value
            && (!Marked(q) ==> q == Unmarked(q))
  {
    var q, r := Prune(val, base).value, Prune(Unmarked(val), Unmarked(base)).value;
    PrunedEntry(val, base, MARKER);
    forall k
      ensures k in q.entries && k != MARKER <==> k in r.entries
      ensures k in r.entries ==> q.entries[k] == r.entries[k]
    {
      PrunedEntry(val, base, k);
      PrunedEntry(Unmarked(val), Unmarked(base), k);
    }
    assert Unmarked(q).entries == r.entries;
    if !Marked(q) {
      assert q.entries == Unmarked(q).entries;
    }
  }

  lemma EqualTruth(a: Node, b: Node)
    requires PyEq(a, b)
    ensures Truthy(a) <==> Truthy(b)
  {
  }

  /** What survives of a marker is as true as the marker; if nothing survives of one that is
      on, the base's is on. */
  lemma MarkerTruth(m: Node, base: map<string, Node>, key: string)
    ensures Survives(m, base, key) ==> (Truthy(Pruned(m, base, key)) <==> Truthy(m))
    ensures !Survives(m, base, key) && Truthy(m) ==> key in base && Truthy(base[key])
  {
    if key in base {
      var n := base[key];
      if m.Map? && n.Map? {
        var q := Prune(m, n).value.entries;
        forall k ensures (k in q ==> k in m.entries) && (k in m.entries && k !in q ==> k in n.entries) {
          PrunedEntry(m, n, k);
        }
        if Survives(m, base, key) {
          assert q != map[];
          var k :| k in q;
          assert k in m.entries;
        } else if Truthy(m) {
          var k :| k in m.entries;
          assert k in n.entries;
        }
      } else if PyEq(m, n) {
        EqualTruth(m, n);
      } else {
        assert Prune(m, n) == Some(m);
        assert IsEmpty(m) ==> !Truthy(m);
      }
    }
  }

  /** Restoring a pruned value over a base gives the value itself exactly when it is pruned
      faithfully and overwrites the whole base. */
  lemma RestoresItselfIff(val: Node, base: Node)
    ensures Restored(base, Prune(val, base)) == val <==> Faithful(val, base) && Merge(base, val) == val
  {
    PruneKeepsMeaningIff(val, base, None);
    if Restored(base, Prune(val, base)) == val {
      RestoringIsFaithful(val, base);
    }
  }

  lemma {:induction false} RestoringIsFaithful(val: Node, base: Node)
    requires Restored(base, Prune(val, base)) == val
    ensures Faithful(val, base)
  {
    if val.Map? && base.Map? {
      var p := Prune(val, base).value;
      MergeEmpty(base);
      forall k | k in val.entries && k in base.entries ensures Faithful(val.entries[k], base.entries[k]) {
        PrunedEntry(val, base, k);
        MergedEntry(base, p, k);
        assert Restored(base.entries[k], Prune(val.entries[k], base.entries[k])) == val.entries[k];
        RestoringIsFaithful(val.entries[k], base.entries[k]);
      }
    }
  }

  lemma OverrideKeptIff(val: Node, base: Node, loaded: Node)
    requires IsOverride(val) && (IsOverride(base) ==> loaded == Stripped(base))
    ensures Final(loaded, Prune(val, base)) == Stripped(val) <==> KeepsEntry(val, base)
  {
    if base.Map? {
      var q := Prune(val, base).value;
      PruneSplits(val, base);
      MarkerTruth(val.entries[MARKER], base.entries, MARKER);
      if KeepsMarker(val, base) {
        assert IsOverride(q) && !IsEmpty(q);
        UntouchedIff(Unmarked(val), Unmarked(base));
      } else {
        assert loaded == Unmarked(base);
        MergeEmpty(loaded);
        RestoresItselfIff(Unmarked(val), Unmarked(base));
      }
    }
  }

  lemma PlainEntryKeptIff(val: Node, base: Node, loaded: Node, parent: Option<Node>)
    requires !IsOverride(val) && Rests(loaded, base, parent)
    ensures Final(loaded, Prune(val, base)) == Merge(loaded, val) <==> KeepsEntry(val, base)
  {
    if Marked(val) && IsOverride(base) {
      FalseMarkerKeptIff(val, base);
    } else {
      if !Marked(val) {
        PruneIgnoresStrippedMarker(val, base);
      }
      if Marked(val) && base.Map? {
        PruneSplits(val, base);
        MarkerTruth(val.entries[MARKER], base.entries, MARKER);
      } else if val.Map? && base.Map? {
        PrunedEntry(val, base, MARKER);
      }
      assert Prune(val, base).Some? ==> !IsOverride(Prune(val, base).value);
      PruneKeepsMeaningIff(val, Stripped(base), parent);
    }
  }

  /** A marker that is off, in a section whose base has one that is on. */
  lemma FalseMarkerKeptIff(val: Node, base: Node)
    requires Marked(val) && !IsOverride(val) && IsOverride(base)
    ensures Final(Unmarked(base), Prune(val, base)) == Merge(Unmarked(base), val) <==> KeepsEntry(val, base)
  {
    var m, n, s := val.entries[MARKER], base.entries[MARKER], Unmarked(base);
    var q, r := Prune(val, base).value, Prune(val, s).value;
    if PyEq(m, n) {
      EqualTruth(m, n);
    }
    PruneSplits(val, base);
    PruneSplits(val, s);
    MarkerTruth(m, base.entries, MARKER);
    assert s.entries - {MARKER} == s.entries && Unmarked(s) == s;
    FalseMarkerSurvivesIff(m, n);
    if IsEmpty(m) {
      MergedEntry(s, q, MARKER);
      MergedEntry(s, val, MARKER);
      MergeEmpty(s);
      assert MARKER in Merge(s, val).entries && MARKER !in Final(s, Some(q)).entries;
    } else {
      forall k ensures (k in q.entries <==> k in r.entries) && (k in q.entries ==> q.entries[k] == r.entries[k]) {
        assert k != MARKER ==> (k in q.entries <==> k in Unmarked(q).entries);
        assert k != MARKER ==> (k in r.entries <==> k in Unmarked(r).entries);
        assert k in Unmarked(q).entries ==> Unmarked(q).entries[k] == q.entries[k];
        assert k in Unmarked(r).entries ==> Unmarked(r).entries[k] == r.entries[k];
      }
      assert q.entries == r.entries;
      PruneKeepsMeaningIff(val, s, None);
    }
  }

  lemma FalseMarkerSurvivesIff(m: Node, n: Node)
    requires !Truthy(m) && Truthy(n)
    ensures var p := Prune(m, n); (p.Some? && !IsEmpty(p.value) <==> !IsEmpty(m)) && (p.Some? ==> p.value == m)
  {
    if m.Map? && n.Map? {
      assert Prune(m, n).value.entries == map[];
    } else if PyEq(m, n) {
      EqualTruth(m, n);
    }
  }

  lemma SharedEntryKeptIff(body: Entries, base: Entries, loaded: Entries, k: string)
    requires RestsOn(loaded, base) && k in body && k in base
    ensures k in MergeWithOverride(loaded, PrunedBody(body, base)) && k in MergeWithOverride(loaded, body)
    ensures MergeWithOverride(loaded, PrunedBody(body, base))[k] == MergeWithOverride(loaded, body)[k]
            <==> KeepsEntry(body[k], base[k])
  {
    OverriddenEntry(loaded, PrunedBody(body, base), k);
    OverriddenEntry(loaded, body, k);
    PrunedEntry(Map(body), Map(base), k);
    assert MergeWithOverride(loaded, PrunedBody(body, base))[k] == Final(loaded[k], Prune(body[k], base[k]));
    var parent :| Rests(loaded[k], base[k], parent);
    if IsOverride(body[k]) {
      OverrideKeptIff(body[k], base[k], loaded[k]);
    } else {
      PlainEntryKeptIff(body[k], base[k], loaded[k], parent);
    }
  }

  /** One key of the two results: it is in both or in neither, and equal if it is kept. */
  predicate KeyAgrees(left: Entries, right: Entries, body: Entries, base: Entries, k: string) {
    && (k in left <==> k in right)
    && (k in body ==> k in right)
    && (k in right ==> (left[k] == right[k] <==> (k in body && k in base ==> KeepsEntry(body[k], base[k]))))
  }

  lemma KeyKeptIff(body: Entries, base: Entries, loaded: Entries, k: string)
    requires RestsOn(loaded, base)
    ensures KeyAgrees(MergeWithOverride(loaded, PrunedBody(body, base)), MergeWithOverride(loaded, body), body, base, k)
  {
    if k in body && k in base {
      SharedEntryKeptIff(body, base, loaded, k);
    } else {
      OverriddenEntry(loaded, PrunedBody(body, base), k);
      OverriddenEntry(loaded, body, k);
      PrunedEntry(Map(body), Map(base), k);
    }
  }

  lemma AgreeingResults(left: Entries, right: Entries, body: Entries, base: Entries)
    requires forall k :: KeyAgrees(left, right, body, base, k)
    ensures left == right <==> KeepsAll(body, base)
  {
    if KeepsAll(body, base) {
      forall k ensures (k in left <==> k in right) && (k in right ==> left[k] == right[k]) {
        assert KeyAgrees(left, right, body, base, k);
      }
    }
    if left == right {
      forall k | k in body && k in base ensures KeepsEntry(body[k], base[k]) {
        assert KeyAgrees(left, right, body, base, k);
      }
    }
  }

  lemma BodyKeptIff(body: Entries, base: Entries, loaded: Entries)
    requires RestsOn(loaded, base)
    ensures MergeWithOverride(loaded, PrunedBody(body, base)) == MergeWithOverride(loaded, body)
            <==> KeepsAll(body, base)
  {
    var left, right := MergeWithOverride(loaded, PrunedBody(body, base)), MergeWithOverride(loaded, body);
    forall k ensures KeyAgrees(left, right, body, base, k) {
      KeyKeptIff(body, base, loaded, k);
    }
    AgreeingResults(left, right, body, base);
  }

  lemma LoadedParentRests(child: File, explicit: Option<File>)
    requires Minimize(child, explicit).Ok?
    ensures RestsOn(MergeWithOverride(map[], Load(ParentAfter(child, explicit))), Against(child, explicit))
  {
    var p := ParentAfter(child, explicit);
    var loaded, base := MergeWithOverride(map[], Load(p)), Against(child, explicit);
    forall k | k in base ensures k in loaded && exists parent :: Rests(loaded[k], base[k], parent) {
      OverriddenEntry(map[], Load(p), k);
      if explicit.Some? && p.defaults != NoDefaults {
        InheritingLoadsClean(p);
        var above :=
          if p.defaults.One? then MergeWithOverride(map[], Load(p.defaults.parent)) else LoadAll(p.defaults.parents);
        OverriddenEntry(above, p.body, k);
        if k in above && !IsOverride(p.body[k]) {
          assert Rests(loaded[k], base[k], Some(above[k]));
        } else {
          assert Rests(loaded[k], base[k], None);
        }
      } else {
        assert Rests(loaded[k], base[k], None);
      }
    }
  }

  /** The exact condition: the minimized file expands to what the same settings under the
      same parent expand to, if and only if every shared entry is kept. Both for the parent
      inferred from `defaults` and for an explicit base with parents of its own. */
  lemma MinimizeKeepsMeaningIff(child: File, explicit: Option<File>)
    requires Minimize(child, explicit).Ok?
    ensures Load(Minimize(child, explicit).value) == Load(File(One(ParentAfter(child, explicit)), child.body))
            <==> KeepsAll(child.body, Against(child, explicit))
  {
    LoadedParentRests(child, explicit);
    BodyKeptIff(child.body, Against(child, explicit), MergeWithOverride(map[], Load(ParentAfter(child, explicit))));
  }

  // ----- Concrete losses -----

  /** A child with a single setting over a root file with a single setting. */
  function OneSetting(key: string, val: Node, base: Node): File {
    File(One(File(NoDefaults, map[key := base])), map[key := val])
  }

  /** A plain setting is lost exactly when it differs from the base and is Python-equal to
      it (`true` over `1`), an empty list, or an empty map. */
  lemma PlainSettingLosesIff(key: string, val: Node, base: Node)
    requires !(val.Map? && base.Map?) && !Marked(val)
    ensures Loses(OneSetting(key, val, base)) <==>
            val != base && (PyEq(val, base) || val == List([]) || val == Map(map[]))
  {
    LosesIff(key, val, base);
  }

  /** An overriding section that repeats any value of the base loses it: the section that
      replaces the base no longer carries it. */
  lemma OverridingSectionLoses(key: string, name: string, section: Node, base: Node)
    requires IsOverride(section) && base.Map? && !Marked(base)
    requires name in section.entries && name in base.entries && section.entries[name] == base.entries[name]
    ensures Loses(OneSetting(key, section, base))
  {
    LosesIff(key, section, base);
    PrunedToNothing(base.entries[name]);
    assert name in Unmarked(section).entries && name in Unmarked(base).entries;
    UntouchedIff(section.entries[name], base.entries[name]);
  }

  predicate Loses(child: File) {
    Minimize(child, None).Ok? && Load(Minimize(child, None).value) != Load(child)
  }

  lemma LosesIff(key: string, val: Node, base: Node)
    ensures Loses(OneSetting(key, val, base)) <==> !KeepsEntry(val, base)
  {
    var child := OneSetting(key, val, base);
    assert key in child.body && key in Against(child, None);
    MinimizeKeepsMeaningIff(child, None);
  }

  /** The output of minimizing against an explicit base passes the check that infers that base
      if and only if nothing in it repeats what the base expands to. */
  lemma RebasedOutputPassesInferredCheckIff(child: File, base: File)
    ensures Minimize(child, Some(base)).Ok?
    ensures var m := Minimize(child, Some(base)).value;
            MinimizeCheck(m, None) == 0 <==> Untouched(Map(m.body), Map(Load(base)))
  {
    UntouchedIff(Map(Minimize(child, Some(base)).value.body), Map(Load(base)));
  }

  /** Minimizing against an explicit base compares with that file as written, not with what
      it inherits, so the output can fail the check that infers its base. */
  lemma RebasedOutputMayFailTheInferredCheck(key: string, val: Node)
    ensures var base := File(One(File(NoDefaults, map[key := val])), map[]);
            var child := File(NoDefaults, map[key := val]);
            && !IsOverride(val)
            ==> && Minimize(child, Some(base)).Ok?
                && MinimizeCheck(Minimize(child, Some(base)).value, None) == 1
  {
    var base := File(One(File(NoDefaults, map[key := val])), map[]);
    var child := File(NoDefaults, map[key := val]);
    if !IsOverride(val) {
      var m := Minimize(child, Some(base)).value;
      PrunedEntry(Map(child.body), Map(base.body), key);
      assert m.body == map[key := val];
      OverriddenEntry(map[], map[key := val], key);
      OverriddenEntry(MergeWithOverride(map[], map[key := val]), map[], key);
      assert Load(base.defaults.parent) == map[key := val];
      assert Load(base)[key] == val;
      PyEqReflexive(val);
      PrunedToNothing(val);
      PrunedEntry(Map(m.body), Map(Load(base)), key);
    }
  }

  /** A value pruned against itself leaves nothing. */
  lemma {:induction false} PrunedToNothing(val: Node)
    ensures var p := Prune(val, val); p.None? || IsEmpty(p.value)
  {
    if val.Map? {
      forall k | k in val.entries ensures !Survives(val.entries[k], val.entries, k) {
        PrunedToNothing(val.entries[k]);
      }
      assert Prune(val, val).value.entries == map[];
    } else {
      PyEqReflexive(val);
    }
  }
}
