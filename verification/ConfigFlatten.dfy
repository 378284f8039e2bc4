// Flattening to string paths, and when `compare` can be trusted.
module ConfigFlatten {
  import opened Prelude
  import opened ConfigTree

  datatype Step = Key(key: string) | Index(i: nat)

  /** The scalar that following `steps` from `n` ends at. */
  function LeafAt(n: Node, steps: seq<Step>): Option<Scalar>
    decreases |steps|
  {
    if steps == [] then (if n.Leaf? then Some(n.v) else None)
    else
      match steps[0]
      case Key(k) => if n.Map? && k in n.entries then LeafAt(n.entries[k], steps[1..]) else None
      case Index(i) => if n.List? && i < |n.items| then LeafAt(n.items[i], steps[1..]) else None
  }

  function Decimal(n: nat): string {
    if n < 10 then ["0123456789"[n]] else Decimal(n / 10) + ["0123456789"[n % 10]]
  }

  function Extend(prefix: string, step: Step): string {
    match step
    case Key(k) => if prefix == "" then k else prefix + "." + k
    case Index(i) => prefix + "[" + Decimal(i) + "]"
  }

  /** The flat key of a path. */
  function Render(prefix: string, steps: seq<Step>): string
    decreases |steps|
  {
    if steps == [] then prefix else Render(Extend(prefix, steps[0]), steps[1..])
  }

  /** `out` has exactly the rendered paths of `n`'s leaves as keys; each value belongs to a
      leaf of that name. Where two leaves share a name either may have won. */
  ghost predicate Flattens(n: Node, prefix: string, out: map<string, Scalar>) {
    && (forall steps :: LeafAt(n, steps).Some? ==> Render(prefix, steps) in out)
    && (forall p :: p in out ==> Named(n, prefix, p, out[p]))
  }

  ghost predicate Named(n: Node, prefix: string, path: string, v: Scalar) {
    exists steps :: LeafAt(n, steps) == Some(v) && Render(prefix, steps) == path
  }

  predicate IsChild(n: Node, step: Step, child: Node) {
    match step
    case Key(k) => n.Map? && k in n.entries && n.entries[k] == child
    case Index(i) => n.List? && i < |n.items| && n.items[i] == child
  }

  /** Every leaf below `step` has its flat key in `out`. */
  ghost predicate Covers(n: Node, prefix: string, out: map<string, Scalar>, step: Step) {
    forall rest :: LeafAt(n, [step] + rest).Some? ==> Render(prefix, [step] + rest) in out
  }

  ghost predicate AllNamed(n: Node, prefix: string, out: map<string, Scalar>) {
    forall p :: p in out ==> Named(n, prefix, p, out[p])
  }

  lemma StepInto(n: Node, prefix: string, step: Step, child: Node, rest: seq<Step>)
    requires IsChild(n, step, child)
    ensures LeafAt(n, [step] + rest) == LeafAt(child, rest)
    ensures Render(prefix, [step] + rest) == Render(Extend(prefix, step), rest)
  {
    assert ([step] + rest)[1..] == rest;
  }

  /** Adding a child's flat form covers the child and loses nothing. */
  lemma ChildAdded(n: Node, prefix: string, step: Step, child: Node, out: map<string, Scalar>,
                   more: map<string, Scalar>)
    requires IsChild(n, step, child) && Flattens(child, Extend(prefix, step), more) && AllNamed(n, prefix, out)
    ensures AllNamed(n, prefix, out + more)
    ensures Covers(n, prefix, out + more, step)
    ensures forall s :: Covers(n, prefix, out, s) ==> Covers(n, prefix, out + more, s)
  {
    forall p | p in more ensures Named(n, prefix, p, more[p]) {
      assert Named(child, Extend(prefix, step), p, more[p]);
      var rest :| LeafAt(child, rest) == Some(more[p]) && Render(Extend(prefix, step), rest) == p;
      StepInto(n, prefix, step, child, rest);
    }
    forall rest | LeafAt(n, [step] + rest).Some? ensures Render(prefix, [step] + rest) in out + more {
      StepInto(n, prefix, step, child, rest);
    }
  }

  lemma AllCovered(n: Node, prefix: string, out: map<string, Scalar>)
    requires !n.Leaf? && AllNamed(n, prefix, out)
    requires n.Map? ==> forall k :: k in n.entries ==> Covers(n, prefix, out, Key(k))
    requires n.List? ==> forall i :: 0 <= i < |n.items| ==> Covers(n, prefix, out, Index(i))
    ensures Flattens(n, prefix, out)
  {
    forall steps: seq<Step> | LeafAt(n, steps).Some? ensures Render(prefix, steps) in out {
      FirstStepIsChild(n, steps);
      match steps[0] {
        case Key(k) => CoveredLeaf(n, prefix, out, Key(k), steps);
        case Index(i) => CoveredLeaf(n, prefix, out, Index(i), steps);
      }
    }
  }

  lemma FirstStepIsChild(n: Node, steps: seq<Step>)
    requires !n.Leaf? && LeafAt(n, steps).Some?
    ensures steps != []
    ensures steps[0].Key? ==> n.Map? && steps[0].key in n.entries
    ensures steps[0].Index? ==> n.List? && steps[0].i < |n.items|
  {
  }

  lemma CoveredLeaf(n: Node, prefix: string, out: map<string, Scalar>, step: Step, steps: seq<Step>)
    requires steps != [] && steps[0] == step && LeafAt(n, steps).Some? && Covers(n, prefix, out, step)
    ensures Render(prefix, steps) in out
  {
    assert steps == [step] + steps[1..];
  }

  /** `_flatten`. The keys of a map are visited in an arbitrary order. */
  method Flatten(n: Node, prefix: string) returns (out: map<string, Scalar>)
    ensures Flattens(n, prefix, out)
    decreases n, 1
  {
    match n
    case Leaf(v) =>
      out := map[prefix := v];
      assert LeafAt(n, []) == Some(v) && Render(prefix, []) == prefix;
    case Map(_) =>
      out := FlattenMap(n, prefix);
    case List(_) =>
      out := FlattenList(n, prefix);
  }

  method AddChild(n: Node, prefix: string, step: Step, child: Node, soFar: map<string, Scalar>)
    returns (out: map<string, Scalar>)
    requires IsChild(n, step, child) && AllNamed(n, prefix, soFar)
    ensures AllNamed(n, prefix, out) && Covers(n, prefix, out, step)
    ensures forall s :: Covers(n, prefix, soFar, s) ==> Covers(n, prefix, out, s)
    decreases child, 2
  {
    var more := Flatten(child, Extend(prefix, step));
    ChildAdded(n, prefix, step, child, soFar, more);
    out := soFar + more;
  }

  method FlattenMap(n: Node, prefix: string) returns (out: map<string, Scalar>)
    requires n.Map?
    ensures Flattens(n, prefix, out)
    decreases n, 0
  {
    out := map[];
    var todo := n.entries.Keys;
    while todo != {}
      invariant todo <= n.entries.Keys && AllNamed(n, prefix, out)
      invariant forall k :: k in n.entries && k !in todo ==> Covers(n, prefix, out, Key(k))
      decreases |todo|
    {
      var k :| k in todo;
      out := AddChild(n, prefix, Key(k), n.entries[k], out);
      todo := todo - {k};
    }
    AllCovered(n, prefix, out);
  }

  method FlattenList(n: Node, prefix: string) returns (out: map<string, Scalar>)
    requires n.List?
    ensures Flattens(n, prefix, out)
    decreases n, 0
  {
    out := map[];
    var i := 0;
    while i < |n.items|
      invariant 0 <= i <= |n.items| && AllNamed(n, prefix, out)
      invariant forall j :: 0 <= j < i ==> Covers(n, prefix, out, Index(j))
    {
      out := AddChild(n, prefix, Index(i), n.items[i], out);
      i := i + 1;
    }
    AllCovered(n, prefix, out);
  }

  datatype Difference = Difference(added: set<string>, removed: set<string>, changed: set<string>)

  predicate Identical(d: Difference) {
    d.added == {} && d.removed == {} && d.changed == {}
  }

  function ChangedKeys(lf: map<string, Scalar>, rf: map<string, Scalar>): set<string> {
    set k | k in lf.Keys * rf.Keys && !ScalarEq(lf[k], rf[k])
  }

  function DifferenceOf(lf: map<string, Scalar>, rf: map<string, Scalar>): Difference {
    Difference(rf.Keys - lf.Keys, lf.Keys - rf.Keys, ChangedKeys(lf, rf))
  }

  method FindChanged(lf: map<string, Scalar>, rf: map<string, Scalar>) returns (changed: set<string>)
    ensures changed == ChangedKeys(lf, rf)
  {
    changed := {};
    var todo := lf.Keys * rf.Keys;
    while todo != {}
      invariant todo <= lf.Keys * rf.Keys
      invariant forall k :: k in changed <==> k in lf.Keys * rf.Keys && k !in todo && !ScalarEq(lf[k], rf[k])
      decreases |todo|
    {
      var k :| k in todo;
      if !ScalarEq(lf[k], rf[k]) {
        changed := changed + {k};
      }
      todo := todo - {k};
    }
  }

  /** `n` has a leaf of this name. */
  ghost predicate HasName(n: Node, name: string) {
    exists steps :: LeafAt(n, steps).Some? && Render("", steps) == name
  }

  /** The reported difference at a path: only in the right config, only in the left one, or in
      both with different scalars. */
  predicate ReportsAt(d: Difference, left: Node, right: Node, steps: seq<Step>) {
    var name, l, r := Render("", steps), LeafAt(left, steps), LeafAt(right, steps);
    && (name in d.added <==> l.None? && r.Some?)
    && (name in d.removed <==> l.Some? && r.None?)
    && (name in d.changed <==> l.Some? && r.Some? && !ScalarEq(l.value, r.value))
  }

  /** `compare` on two expanded configs. For any keys it reports as added, and as removed, the
      leaf names that only the right, or only the left, config has; for plain keys it reports
      every path as it is; it says "identical" exactly for equal trees whenever keys are plain
      and no container inside is empty. */
  method Compare(left: Node, right: Node) returns (d: Difference)
    ensures forall name :: name in d.added <==> HasName(right, name) && !HasName(left, name)
    ensures forall name :: name in d.removed <==> HasName(left, name) && !HasName(right, name)
    ensures forall name :: name in d.changed ==> HasName(left, name) && HasName(right, name)
    ensures PlainKeys(left) && PlainKeys(right) ==>
              forall steps :: PlainSteps(steps) ==> ReportsAt(d, left, right, steps)
    ensures PlainKeys(left) && PlainKeys(right) ==> (Identical(d) <==> SameLeaves(left, right))
    ensures FullConfig(left) && FullConfig(right) && PlainKeys(left) && PlainKeys(right)
            ==> (Identical(d) <==> PyEq(left, right))
  {
    var lf := Flatten(left, "");
    var rf := Flatten(right, "");
    var changed := FindChanged(lf, rf);
    d := Difference(rf.Keys - lf.Keys, lf.Keys - rf.Keys, changed);
    assert d == DifferenceOf(lf, rf);
    forall name ensures (name in lf <==> HasName(left, name)) && (name in rf <==> HasName(right, name)) {
      FlatNames(left, lf, name);
      FlatNames(right, rf, name);
    }
    if PlainKeys(left) && PlainKeys(right) {
      forall steps | PlainSteps(steps) ensures ReportsAt(d, left, right, steps) {
        FlatEntry(left, lf, steps);
        FlatEntry(right, rf, steps);
      }
      IdenticalIffSameLeaves(left, right, lf, rf);
      if FullConfig(left) && FullConfig(right) {
        CompareIsExact(left, right, lf, rf);
      }
    }
  }

  // ----- Paths are readable back -----

  predicate PlainKey(k: string) {
    k != "" && '.' !in k && '[' !in k
  }

  predicate PlainKeys(n: Node)
    decreases n
  {
    match n
    case Leaf(_) => true
    case List(xs) => forall i :: 0 <= i < |xs| ==> PlainKeys(xs[i])
    case Map(m) => forall k :: k in m ==> PlainKey(k) && PlainKeys(m[k])
  }

  predicate PlainSteps(steps: seq<Step>) {
    forall i :: 0 <= i < |steps| ==> steps[i].Key? ==> PlainKey(steps[i].key)
  }

  lemma {:induction false} LeafStepsArePlain(n: Node, steps: seq<Step>)
    requires PlainKeys(n) && LeafAt(n, steps).Some?
    ensures PlainSteps(steps)
    decreases |steps|
  {
    if steps != [] {
      var child := if steps[0].Key? then n.entries[steps[0].key] else n.items[steps[0].i];
      LeafStepsArePlain(child, steps[1..]);
      assert forall i :: 0 < i < |steps| ==> steps[i] == steps[1..][i - 1];
    }
  }

  function Suffix(steps: seq<Step>): string {
    if steps == [] then ""
    else
      match steps[0]
      case Key(k) => "." + (k + Suffix(steps[1..]))
      case Index(i) => "[" + (Decimal(i) + ("]" + Suffix(steps[1..])))
  }

  lemma {:induction false} RenderIsSuffix(prefix: string, steps: seq<Step>)
    requires prefix != ""
    ensures Render(prefix, steps) == prefix + Suffix(steps)
    decreases |steps|
  {
    if steps != [] {
      RenderIsSuffix(Extend(prefix, steps[0]), steps[1..]);
    }
  }

  /** The length of the leading part of `s` that has no stop character. */
  function TokenLength(s: string, stops: set<char>): nat {
    if s == "" || s[0] in stops then 0 else 1 + TokenLength(s[1..], stops)
  }

  lemma {:induction false} TokenEnds(a: string, x: string, stops: set<char>)
    requires forall c :: c in a ==> c !in stops
    requires x == "" || x[0] in stops
    ensures TokenLength(a + x, stops) == |a|
  {
    if a == "" {
      assert a + x == x;
    } else {
      assert a[0] in a;
      assert (a + x)[1..] == a[1..] + x;
      TokenEnds(a[1..], x, stops);
    }
  }

  lemma TokenSplits(a: string, x: string, b: string, y: string, stops: set<char>)
    requires a + x == b + y
    requires forall c :: c in a || c in b ==> c !in stops
    requires (x == "" || x[0] in stops) && (y == "" || y[0] in stops)
    ensures a == b && x == y
  {
    TokenEnds(a, x, stops);
    TokenEnds(b, y, stops);
    assert a == (a + x)[..|a|] && b == (b + y)[..|b|];
    assert x == (a + x)[|a|..] && y == (b + y)[|b|..];
  }

  lemma {:induction false} DecimalIsDigits(n: nat)
    ensures Decimal(n) != "" && forall c :: c in Decimal(n) ==> '0' <= c <= '9'
  {
    if n >= 10 {
      DecimalIsDigits(n / 10);
    }
  }

  predicate Digits(s: string) {
    forall i :: 0 <= i < |s| ==> '0' <= s[i] <= '9'
  }

  /** The number that a decimal denotes. */
  function Value(s: string): nat
    requires Digits(s)
  {
    if s == "" then 0 else 10 * Value(s[..|s| - 1]) + (s[|s| - 1] as int - '0' as int)
  }

  lemma DigitValue(n: nat)
    requires n < 10
    ensures '0' <= "0123456789"[n] <= '9' && "0123456789"[n] as int - '0' as int == n
  {
  }

  /** An index is written as its decimal. */
  lemma {:induction false} DecimalDenotes(n: nat)
    ensures Digits(Decimal(n)) && Value(Decimal(n)) == n
  {
    DecimalParts(n);
    DigitValue(n % 10);
    var s := Decimal(n);
    var init := s[..|s| - 1];
    if n < 10 {
      assert init == "";
    } else {
      DecimalDenotes(n / 10);
      assert init == Decimal(n / 10);
    }
    assert s == init + [s[|s| - 1]];
  }

  /** How paths are written: keys after dots, indices in brackets, no dot in front. */
  lemma RenderedForms(a: string, b: string, i: nat)
    requires a != ""
    ensures Render("", [Key(a), Key(b)]) == a + "." + b
    ensures Render("", [Key(a), Index(i)]) == a + "[" + Decimal(i) + "]"
    ensures Render("", [Index(i)]) == "[" + Decimal(i) + "]"
  {
    RenderOne("", Index(i));
    RenderPair(Key(a), Key(b));
    RenderPair(Key(a), Index(i));
  }

  lemma RenderOne(prefix: string, s: Step)
    ensures Render(prefix, [s]) == Extend(prefix, s)
  {
    assert [s][1..] == [];
  }

  lemma RenderPair(s: Step, t: Step)
    ensures Render("", [s, t]) == Extend(Extend("", s), t)
  {
    assert [s, t][1..] == [t];
    RenderOne(Extend("", s), t);
  }

  lemma DigitInjective(a: nat, b: nat)
    requires a < 10 && b < 10 && "0123456789"[a] == "0123456789"[b]
    ensures a == b
  {
  }

  lemma DecimalParts(n: nat)
    ensures Decimal(n) != ""
    ensures Decimal(n)[|Decimal(n)| - 1] == "0123456789"[n % 10]
    ensures if n < 10 then |Decimal(n)| == 1 else |Decimal(n)| > 1 && Decimal(n)[..|Decimal(n)| - 1] == Decimal(n / 10)
  {
    if n >= 10 {
      DecimalIsDigits(n / 10);
    }
  }

  lemma {:induction false} DecimalInjective(m: nat, n: nat)
    requires Decimal(m) == Decimal(n)
    ensures m == n
  {
    DecimalParts(m);
    DecimalParts(n);
    DigitInjective(m % 10, n % 10);
    if m >= 10 {
      DecimalInjective(m / 10, n / 10);
      assert m == 10 * (m / 10) + m % 10 && n == 10 * (n / 10) + n % 10;
    }
  }

  lemma {:induction false} SuffixInjective(s: seq<Step>, t: seq<Step>)
    requires PlainSteps(s) && PlainSteps(t) && Suffix(s) == Suffix(t)
    ensures s == t
    decreases |s|
  {
    if s != [] && t != [] {
      assert Suffix(s)[0] == Suffix(t)[0];
      if s[0].Key? {
        assert Suffix(s)[1..] == s[0].key + Suffix(s[1..]);
        assert Suffix(t)[1..] == t[0].key + Suffix(t[1..]);
        TokenSplits(s[0].key, Suffix(s[1..]), t[0].key, Suffix(t[1..]), {'.', '['});
      } else {
        var x, y := "]" + Suffix(s[1..]), "]" + Suffix(t[1..]);
        assert Suffix(s)[1..] == Decimal(s[0].i) + x;
        assert Suffix(t)[1..] == Decimal(t[0].i) + y;
        DecimalIsDigits(s[0].i);
        DecimalIsDigits(t[0].i);
        TokenSplits(Decimal(s[0].i), x, Decimal(t[0].i), y, {']'});
        DecimalInjective(s[0].i, t[0].i);
        assert x[1..] == Suffix(s[1..]) && y[1..] == Suffix(t[1..]);
      }
      SuffixInjective(s[1..], t[1..]);
      assert s == [s[0]] + s[1..] && t == [t[0]] + t[1..];
    }
  }

  /** At the root a leading key is written without a dot. */
  lemma RootKey(s: seq<Step>)
    requires PlainSteps(s) && s != [] && s[0].Key?
    ensures Render("", s) == s[0].key + Suffix(s[1..])
    ensures Render("", s) != "" && Render("", s)[0] != '['
  {
    RenderIsSuffix(s[0].key, s[1..]);
    assert s[0].key[0] in s[0].key;
  }

  lemma Regroup(a: string, b: string, c: string, d: string)
    ensures (a + b + c) + d == a + (b + (c + d))
  {
  }

  lemma RootIndex(s: seq<Step>)
    requires s != [] && s[0].Index?
    ensures Render("", s) == Suffix(s)
    ensures Render("", s) != "" && Render("", s)[0] == '['
  {
    var token := "[" + Decimal(s[0].i) + "]";
    assert Extend("", s[0]) == token;
    RenderIsSuffix(token, s[1..]);
    Regroup("[", Decimal(s[0].i), "]", Suffix(s[1..]));
  }

  /** Two different paths never get the same flat key. */
  lemma {:induction false} RenderInjective(s: seq<Step>, t: seq<Step>)
    requires PlainSteps(s) && PlainSteps(t) && Render("", s) == Render("", t)
    ensures s == t
  {
    RootForm(s);
    RootForm(t);
    if s != [] && t != [] {
      if s[0].Key? {
        RootKey(s);
        RootKey(t);
        TokenSplits(s[0].key, Suffix(s[1..]), t[0].key, Suffix(t[1..]), {'.', '['});
        SuffixInjective(s[1..], t[1..]);
        assert s == [s[0]] + s[1..] && t == [t[0]] + t[1..];
      } else {
        RootIndex(s);
        RootIndex(t);
        SuffixInjective(s, t);
      }
    }
  }

  lemma RootForm(s: seq<Step>)
    requires PlainSteps(s)
    ensures s == [] <==> Render("", s) == ""
    ensures s != [] ==> (s[0].Index? <==> Render("", s)[0] == '[')
  {
    if s != [] {
      if s[0].Key? {
        RootKey(s);
      } else {
        RootIndex(s);
      }
    }
  }

  // ----- What `compare` reports -----

  predicate SameLeaf(a: Option<Scalar>, b: Option<Scalar>) {
    if a.Some? && b.Some? then ScalarEq(a.value, b.value) else a.None? && b.None?
  }

  ghost predicate SameLeaves(l: Node, r: Node) {
    forall steps :: SameLeaf(LeafAt(l, steps), LeafAt(r, steps))
  }

  lemma FlatEntry(n: Node, out: map<string, Scalar>, steps: seq<Step>)
    requires PlainKeys(n) && Flattens(n, "", out) && PlainSteps(steps)
    ensures Render("", steps) in out <==> LeafAt(n, steps).Some?
    ensures LeafAt(n, steps).Some? ==> out[Render("", steps)] == LeafAt(n, steps).value
  {
    var p := Render("", steps);
    if p in out {
      assert Named(n, "", p, out[p]);
      var s :| LeafAt(n, s) == Some(out[p]) && Render("", s) == p;
      LeafStepsArePlain(n, s);
      RenderInjective(s, steps);
    }
  }

  lemma FlatNames(n: Node, out: map<string, Scalar>, name: string)
    requires Flattens(n, "", out)
    ensures name in out <==> HasName(n, name)
  {
    if name in out {
      assert Named(n, "", name, out[name]);
    }
  }

  /** With plain keys `compare` says "identical" exactly when the two configs have equal
      scalars at equal paths. */
  lemma IdenticalIffSameLeaves(l: Node, r: Node, lf: map<string, Scalar>, rf: map<string, Scalar>)
    requires PlainKeys(l) && PlainKeys(r) && Flattens(l, "", lf) && Flattens(r, "", rf)
    ensures Identical(DifferenceOf(lf, rf)) <==> SameLeaves(l, r)
  {
    var d := DifferenceOf(lf, rf);
    if Identical(d) {
      forall steps ensures SameLeaf(LeafAt(l, steps), LeafAt(r, steps)) {
        if LeafAt(l, steps).Some? || LeafAt(r, steps).Some? {
          LeafStepsArePlain(if LeafAt(l, steps).Some? then l else r, steps);
          FlatEntry(l, lf, steps);
          FlatEntry(r, rf, steps);
          var p := Render("", steps);
          assert p !in d.added && p !in d.removed && p !in d.changed;
        }
      }
    }
    if SameLeaves(l, r) {
      forall p ensures p !in d.added && p !in d.removed && p !in d.changed {
        if p in lf || p in rf {
          var n := if p in lf then l else r;
          var v := if p in lf then lf[p] else rf[p];
          assert Named(n, "", p, v);
          var s :| LeafAt(n, s) == Some(v) && Render("", s) == p;
          LeafStepsArePlain(n, s);
          FlatEntry(l, lf, s);
          FlatEntry(r, rf, s);
        }
      }
    }
  }

  // ----- Leaves determine trees without empty containers -----

  predicate Full(n: Node)
    decreases n
  {
    match n
    case Leaf(_) => true
    case List(xs) => xs != [] && forall i :: 0 <= i < |xs| ==> Full(xs[i])
    case Map(m) => m != map[] && forall k :: k in m ==> Full(m[k])
  }

  /** An expanded config: a mapping, possibly empty, with no empty container inside. */
  predicate FullConfig(n: Node) {
    n.Map? && forall k :: k in n.entries ==> Full(n.entries[k])
  }

  lemma {:induction false} FullHasLeaf(n: Node) returns (steps: seq<Step>)
    requires Full(n)
    ensures LeafAt(n, steps).Some?
  {
    match n
    case Leaf(_) => steps := [];
    case List(xs) =>
      var rest := FullHasLeaf(xs[0]);
      steps := [Index(0)] + rest;
      assert steps[1..] == rest;
    case Map(m) =>
      var k :| k in m;
      var rest := FullHasLeaf(m[k]);
      steps := [Key(k)] + rest;
      assert steps[1..] == rest;
  }

  lemma ChildLeaves(l: Node, r: Node, step: Step, x: Node, y: Node)
    requires SameLeaves(l, r)
    requires forall s :: LeafAt(l, [step] + s) == LeafAt(x, s) && LeafAt(r, [step] + s) == LeafAt(y, s)
    ensures SameLeaves(x, y)
  {
    forall s ensures SameLeaf(LeafAt(x, s), LeafAt(y, s)) {
      assert SameLeaf(LeafAt(l, [step] + s), LeafAt(r, [step] + s));
    }
  }

  lemma KeyStep(n: Node, k: string)
    requires n.Map? && k in n.entries
    ensures forall s :: LeafAt(n, [Key(k)] + s) == LeafAt(n.entries[k], s)
  {
    forall s ensures LeafAt(n, [Key(k)] + s) == LeafAt(n.entries[k], s) {
      assert ([Key(k)] + s)[1..] == s;
    }
  }

  lemma IndexStep(n: Node, i: nat)
    requires n.List? && i < |n.items|
    ensures forall s :: LeafAt(n, [Index(i)] + s) == LeafAt(n.items[i], s)
  {
    forall s ensures LeafAt(n, [Index(i)] + s) == LeafAt(n.items[i], s) {
      assert ([Index(i)] + s)[1..] == s;
    }
  }

  lemma SharedKey(l: Node, r: Node, k: string)
    requires SameLeaves(l, r) && l.Map? && k in l.entries && Full(l.entries[k])
    ensures r.Map? && k in r.entries
  {
    var rest := FullHasLeaf(l.entries[k]);
    KeyStep(l, k);
    assert LeafAt(l, [Key(k)] + rest).Some?;
    assert SameLeaf(LeafAt(l, [Key(k)] + rest), LeafAt(r, [Key(k)] + rest));
  }

  lemma SharedIndex(l: Node, r: Node, i: nat)
    requires SameLeaves(l, r) && l.List? && i < |l.items| && Full(l.items[i])
    ensures r.List? && i < |r.items|
  {
    var rest := FullHasLeaf(l.items[i]);
    IndexStep(l, i);
    assert LeafAt(l, [Index(i)] + rest).Some?;
    assert SameLeaf(LeafAt(l, [Index(i)] + rest), LeafAt(r, [Index(i)] + rest));
  }

  lemma SameLeavesFlip(l: Node, r: Node)
    requires SameLeaves(l, r)
    ensures SameLeaves(r, l)
  {
    forall steps ensures SameLeaf(LeafAt(r, steps), LeafAt(l, steps)) {
      assert SameLeaf(LeafAt(l, steps), LeafAt(r, steps));
    }
  }

  lemma {:induction false} LeavesDetermine(l: Node, r: Node)
    requires SameLeaves(l, r)
    requires (Full(l) && Full(r)) || (FullConfig(l) && FullConfig(r))
    ensures PyEq(l, r)
    decreases l
  {
    SameLeavesFlip(l, r);
    assert SameLeaf(LeafAt(l, []), LeafAt(r, []));
    match l
    case Leaf(_) =>
    case List(xs) =>
      SharedIndex(l, r, 0);
      if |xs| < |r.items| {
        SharedIndex(r, l, |xs|);
      } else if |r.items| < |xs| {
        SharedIndex(l, r, |r.items|);
      }
      forall i | 0 <= i < |xs| ensures PyEq(xs[i], r.items[i]) {
        IndexStep(l, i);
        IndexStep(r, i);
        ChildLeaves(l, r, Index(i), xs[i], r.items[i]);
        LeavesDetermine(xs[i], r.items[i]);
      }
    case Map(m) =>
      forall k | k in m ensures r.Map? && k in r.entries {
        SharedKey(l, r, k);
      }
      assert r.Map?;
      forall k | k in r.entries ensures k in m {
        SharedKey(r, l, k);
      }
      assert m.Keys == r.entries.Keys;
      forall k | k in m ensures PyEq(m[k], r.entries[k]) {
        KeyStep(l, k);
        KeyStep(r, k);
        ChildLeaves(l, r, Key(k), m[k], r.entries[k]);
        LeavesDetermine(m[k], r.entries[k]);
      }
  }

  lemma {:induction false} EqualTreesHaveSameLeaf(l: Node, r: Node, steps: seq<Step>)
    requires PyEq(l, r)
    ensures SameLeaf(LeafAt(l, steps), LeafAt(r, steps))
    decreases |steps|
  {
    if steps != [] {
      match steps[0]
      case Key(k) =>
        if l.Map? && k in l.entries {
          EqualTreesHaveSameLeaf(l.entries[k], r.entries[k], steps[1..]);
        }
      case Index(i) =>
        if l.List? && i < |l.items| {
          EqualTreesHaveSameLeaf(l.items[i], r.items[i], steps[1..]);
        }
    }
  }

  /** `compare` is exact: on configs with plain keys and no empty containers inside, it
      reports "identical" exactly for equal trees. */
  lemma CompareIsExact(l: Node, r: Node, lf: map<string, Scalar>, rf: map<string, Scalar>)
    requires FullConfig(l) && FullConfig(r) && PlainKeys(l) && PlainKeys(r)
    requires Flattens(l, "", lf) && Flattens(r, "", rf)
    ensures Identical(DifferenceOf(lf, rf)) <==> PyEq(l, r)
  {
    IdenticalIffSameLeaves(l, r, lf, rf);
    if PyEq(l, r) {
      forall steps ensures SameLeaf(LeafAt(l, steps), LeafAt(r, steps)) {
        EqualTreesHaveSameLeaf(l, r, steps);
      }
    }
    if SameLeaves(l, r) {
      LeavesDetermine(l, r);
    }
  }

  /** An empty section is invisible: `compare` cannot tell it from no section. */
  lemma EmptySectionIsInvisible(key: string, lf: map<string, Scalar>, rf: map<string, Scalar>)
    requires PlainKey(key)
    requires Flattens(Map(map[key := EMPTY_MAP]), "", lf) && Flattens(EMPTY_MAP, "", rf)
    ensures Identical(DifferenceOf(lf, rf)) && !PyEq(Map(map[key := EMPTY_MAP]), EMPTY_MAP)
  {
    var l := Map(map[key := EMPTY_MAP]);
    IdenticalIffSameLeaves(l, EMPTY_MAP, lf, rf);
    forall steps ensures LeafAt(l, steps).None? {
      if steps != [] && steps[0] == Key(key) {
        assert l.entries[key] == EMPTY_MAP;
      }
    }
    assert key in l.entries;
  }

  /** A dotted key is mistaken for a nested section. */
  lemma DottedKeyCollides(v: Scalar, lf: map<string, Scalar>, rf: map<string, Scalar>)
    requires Flattens(Map(map["a.b" := Leaf(v)]), "", lf)
    requires Flattens(Map(map["a" := Map(map["b" := Leaf(v)])]), "", rf)
    ensures Identical(DifferenceOf(lf, rf))
    ensures !PyEq(Map(map["a.b" := Leaf(v)]), Map(map["a" := Map(map["b" := Leaf(v)])]))
  {
    var l, r := Map(map["a.b" := Leaf(v)]), Map(map["a" := Map(map["b" := Leaf(v)])]);
    NestedLeaf("a.b", Leaf(v), []);
    OnlyLeaf(l, [Key("a.b")], v, lf);
    NestedLeaf("b", Leaf(v), []);
    NestedLeaf("a", Map(map["b" := Leaf(v)]), [Key("b")]);
    OnlyLeaf(r, [Key("a")] + [Key("b")], v, rf);
    RenderTwo();
    assert "a.b" in l.entries && "a.b" !in r.entries;
  }

  lemma RenderTwo()
    ensures Render("", [Key("a")] + [Key("b")]) == "a.b" && Render("", [Key("a.b")]) == "a.b"
  {
    assert ([Key("a")] + [Key("b")])[1..] == [Key("b")];
    assert Render("", [Key("a")] + [Key("b")]) == Render("a", [Key("b")]);
    assert Extend("a", Key("b")) == "a.b" && [Key("b")][1..] == [];
    assert Render("a", [Key("b")]) == Render("a.b", []);
    assert Render("", [Key("a.b")]) == Render("a.b", []);
  }

  /** A map with one entry has that entry's only leaf. */
  lemma NestedLeaf(key: string, child: Node, path: seq<Step>)
    requires LeafAt(child, path).Some? && forall s :: LeafAt(child, s).Some? ==> s == path
    ensures LeafAt(Map(map[key := child]), [Key(key)] + path) == LeafAt(child, path)
    ensures forall s :: LeafAt(Map(map[key := child]), s).Some? ==> s == [Key(key)] + path
  {
    KeyStep(Map(map[key := child]), key);
    forall s: seq<Step> | LeafAt(Map(map[key := child]), s).Some? ensures s == [Key(key)] + path {
      assert s[0] == Key(key) && LeafAt(child, s[1..]).Some?;
      assert s == [s[0]] + s[1..];
    }
  }

  lemma OnlyLeaf(n: Node, path: seq<Step>, v: Scalar, out: map<string, Scalar>)
    requires Flattens(n, "", out)
    requires LeafAt(n, path) == Some(v) && forall s :: LeafAt(n, s).Some? ==> s == path
    ensures out == map[Render("", path) := v]
  {
    forall p | p in out ensures p == Render("", path) && out[p] == v {
      assert Named(n, "", p, out[p]);
    }
  }
}
