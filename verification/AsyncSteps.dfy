// What one step of the asynchronous job does, told from the fields before and after it.
module AsyncSteps {
  import opened Prelude
  import opened ReplayGroups
  import opened ReplayBuffers
  import opened AsyncResume
  import opened AsyncInvariant

  // ----- Dispatch -----

  /** A dispatch sends the first pending prompts, as many as there are or as the target still
      lacks, stamped with the current weights and the target; the rest stays pending. */
  lemma DispatchSendsFirst(c: Settings, l: Live, t: nat)
    requires LiveEnabled(c, l, Dispatch(t))
    ensures
      var l' := DispatchOf(c, l, t);
      var n, m := |l.pending| - |l'.pending|, |l.inflight|;
      && 0 < n <= |l.pending| && l'.pending == l.pending[n..]
      && |l'.inflight| == m + n && l'.inflight[..m] == l.inflight
      && (forall i :: 0 <= i < n ==>
            l'.inflight[m + i] == Group(l.pending[i].ordinal, l.pending[i].prompt, l.step, t))
      && n + |Fitting(l.buffer, t, c.maxAge)| <= c.promptsPerStep
      && (l'.pending == [] || n + |Fitting(l.buffer, t, c.maxAge)| == c.promptsPerStep)
      && l' == l.(pending := l'.pending, inflight := l'.inflight)
  {
    FittingCounts(l.buffer, t, c.maxAge);
  }

  /** In a sound state: after a dispatch nothing is pending or the target has all its groups. */
  lemma DispatchFillsTarget(c: Settings, l: Live, t: nat)
    requires c.Valid() && Sound(c, l) && LiveEnabled(c, l, Dispatch(t))
    ensures
      var l' := DispatchOf(c, l, t);
      && PerTarget(l'.buffer, t) + PerTarget(l'.inflight, t) <= c.promptsPerStep
      && (l'.pending == [] || PerTarget(l'.buffer, t) + PerTarget(l'.inflight, t) == c.promptsPerStep)
  {
    var n := if |l.pending| < NeededFor(c, l, t) then |l.pending| else NeededFor(c, l, t);
    CountIsPerTarget(l.buffer, t, l.step, c.maxAge);
    MatchingAppend(l.inflight, Launch(l.pending[..n], l.step, t), Aims(t));
    LaunchPerTarget(l.pending[..n], l.step, t, t);
  }

  /** A collector may generate for every step inside the age window of its weights, for the
      current step only while it is the job's first. */
  lemma MayTargetIff(c: Settings, l: Live, t: nat)
    ensures MayTarget(c, l, t) <==> l.step <= t <= l.step + c.maxAge && (t == l.step ==> l.step == l.first)
  {
  }

  /** A dispatch is possible for a target that has not been consumed, has no worker and lacks
      groups. */
  lemma DispatchPossibleIff(c: Settings, l: Live, t: nat)
    ensures LiveEnabled(c, l, Dispatch(t)) <==>
            && l.pending != [] && l.step <= t <= l.step + c.maxAge && (t == l.step ==> l.step == l.first)
            && l.lastTarget < t && (forall g :: g in l.inflight ==> g.target != t)
            && |Fitting(l.buffer, t, c.maxAge)| < c.promptsPerStep
  {
    FittingCounts(l.buffer, t, c.maxAge);
    MatchingIff(l.inflight, Aims(t));
    if PerTarget(l.inflight, t) > 0 {
      assert Matching(l.inflight, Aims(t))[0] in l.inflight;
    }
  }

  // ----- The size of the buffer -----

  predicate FitsIn(c: Settings, w: World) {
    && (w.live.Some? ==> |w.live.value.buffer| <= c.bufferSize)
    && (w.saved.Some? ==> |w.saved.value.buffer| <= c.bufferSize)
  }

  /** Over every run the buffer never holds more than its size. */
  lemma {:induction false} BufferNeverOverflows(c: Settings, w: World, evs: seq<Event>)
    requires c.Valid() && FitsIn(c, w) && Feasible(c, w, evs)
    ensures FitsIn(c, After(c, w, evs))
    decreases |evs|
  {
    if evs != [] {
      StepFits(c, w, evs[0]);
      BufferNeverOverflows(c, Step(c, w, evs[0]), evs[1..]);
    }
  }

  lemma StepFits(c: Settings, w: World, ev: Event)
    requires c.Valid() && FitsIn(c, w) && Enabled(c, w, ev)
    ensures FitsIn(c, Step(c, w, ev))
  {
    if ev.Resume? && ev.keep.Some? {
      PickIsShorter(w.saved.value.buffer, ev.keep.value);
    } else if ev.Sample? {
      var l := w.live.value;
      var young := Without(l.buffer, AgedOut(l.step, c.maxAge));
      DropIsShorter(l.buffer, AgedOut(l.step, c.maxAge), |l.buffer|);
      DropIsShorter(young, Due(l.step), c.promptsPerStep);
    }
  }

  lemma {:induction false} PickIsShorter(gs: seq<Group>, keep: seq<bool>)
    requires |keep| == |gs|
    ensures |Pick(gs, keep)| <= |gs|
  {
    if gs != [] {
      PickIsShorter(gs[..|gs| - 1], keep[..|gs| - 1]);
    }
  }

  lemma {:induction false} DropIsShorter(gs: seq<Group>, rule: Rule, n: nat)
    ensures |DropFirst(gs, rule, n)| <= |gs|
  {
    if gs != [] {
      DropIsShorter(gs[..|gs| - 1], rule, n);
    }
  }

  /** A resumed job starts at the saved step with nothing on the way; a restored buffer has
      consumed everything before that step. */
  lemma ResumeIs(c: Settings, ck: Checkpoint, keep: Option<seq<bool>>)
    requires keep.Some? ==> |keep.value| == |ck.buffer|
    ensures
      var r := ResumeOf(c, ck, keep);
      && r.step == r.first == ck.step && r.trained == ck.trained && r.loader == ck.loader
      && r.ring == [] && r.inflight == [] && r.saving == None
      && r.buffer == (if keep.Some? then Pick(ck.buffer, keep.value) else [])
      && r.lastTarget == (if keep.Some? then ck.step - 1 else -1)
      && (ck.mark.Some? ==> r.pending == [] && r.aligned && r.nextOrdinal == ck.mark.value.base
                            && r.filter == Some(ck.mark.value.cut) && r.frontier == ck.mark.value.cut)
  {
  }

  // ----- Sample -----

  /** The groups inside the age window at step `w`, in order. */
  function InWindow(gs: seq<Group>, w: nat, maxAge: nat): seq<Group> {
    if gs == [] then []
    else
      var g := gs[|gs| - 1];
      InWindow(gs[..|gs| - 1], w, maxAge) + if w <= g.version + maxAge then [g] else []
  }

  /** The groups that step `w` may train on, in order. */
  function Trainable(gs: seq<Group>, w: nat, maxAge: nat): seq<Group> {
    if gs == [] then []
    else
      var g := gs[|gs| - 1];
      Trainable(gs[..|gs| - 1], w, maxAge)
      + if g.version <= w <= g.version + maxAge && g.target == w then [g] else []
  }

  /** `sample`, told from the groups: the first `n` that are inside the age window, generated
      by now and meant for this step, or none if there are fewer; what is too old is gone, all
      else stays, in order. */
  lemma SampleSelects(gs: seq<Group>, n: nat, w: nat, maxAge: nat)
    requires n >= 1
    ensures
      var s := SampleOf(gs, n, w, maxAge);
      var trainable := Trainable(gs, w, maxAge);
      && s.taken == (if |trainable| >= n then Some(trainable[..n]) else None)
      && (s.taken.None? ==> s.left == InWindow(gs, w, maxAge))
      && (s.taken.Some? ==> multiset(s.left) + multiset(trainable[..n]) == multiset(InWindow(gs, w, maxAge)))
      && SubList(s.left, gs)
  {
    var aged, due := AgedOut(w, maxAge), Due(w);
    var young := Without(gs, aged);
    WithoutIsWindow(gs, w, maxAge);
    DueIsTrainable(gs, w, maxAge);
    UsableCoversDue(young, w);
    var k1 := DropFirstIsSubList(gs, aged, |gs|);
    var k2 := DropFirstIsSubList(young, due, n);
    var k := PickTwice(gs, k1, k2);
    if n <= |Matching(young, due)| {
      GroupsSplit(young, due, n);
    }
  }

  lemma {:induction false} UsableCoversDue(gs: seq<Group>, w: nat)
    ensures |Matching(gs, Due(w))| <= |Matching(gs, Usable(w))|
  {
    if gs != [] {
      UsableCoversDue(gs[..|gs| - 1], w);
    }
  }

  lemma {:induction false} WithoutIsWindow(gs: seq<Group>, w: nat, maxAge: nat)
    ensures Without(gs, AgedOut(w, maxAge)) == InWindow(gs, w, maxAge)
  {
    if gs != [] {
      var init := gs[..|gs| - 1];
      WithoutIsWindow(init, w, maxAge);
      DropFirstSaturates(init, AgedOut(w, maxAge), |init|, |gs|);
    }
  }

  lemma {:induction false} DueIsTrainable(gs: seq<Group>, w: nat, maxAge: nat)
    ensures Matching(InWindow(gs, w, maxAge), Due(w)) == Trainable(gs, w, maxAge)
  {
    if gs != [] {
      var init, g := gs[..|gs| - 1], gs[|gs| - 1];
      DueIsTrainable(init, w, maxAge);
      var young := InWindow(init, w, maxAge);
      if w <= g.version + maxAge {
        assert (young + [g])[..|young|] == young;
      } else {
        assert InWindow(gs, w, maxAge) == young;
      }
    }
  }

  /** What is handed out and what stays make up the whole. */
  lemma {:induction false} GroupsSplit(gs: seq<Group>, rule: Rule, n: nat)
    requires n <= |Matching(gs, rule)|
    ensures multiset(DropFirst(gs, rule, n)) + multiset(Matching(gs, rule)[..n]) == multiset(gs)
  {
    if gs != [] {
      var init, x := gs[..|gs| - 1], gs[|gs| - 1];
      var m := Matching(init, rule);
      var k := if n <= |m| then n else |m|;
      assert gs == init + [x];
      GroupsSplit(init, rule, k);
      SnocRule(init, x, rule, n);
      AddsOne(DropFirst(init, rule, k), m[..k], init, x);
      OneMoreTaken(m, x, rule, n);
      DropFirstSaturates(init, rule, |m|, if n <= |m| then |m| else n);
    }
  }

  lemma OneMoreTaken(m: seq<Group>, x: Group, rule: Rule, n: nat)
    requires n <= |m| + if rule.Holds(x) then 1 else 0
    ensures n <= |m| ==> (m + if rule.Holds(x) then [x] else [])[..n] == m[..n]
    ensures n > |m| ==> rule.Holds(x) && (m + [x])[..n] == m[..|m|] + [x]
  {
  }

  lemma AddsOne(left: seq<Group>, taken: seq<Group>, all: seq<Group>, x: Group)
    requires multiset(left) + multiset(taken) == multiset(all)
    ensures multiset(left + [x]) + multiset(taken) == multiset(all + [x])
    ensures multiset(left) + multiset(taken + [x]) == multiset(all + [x])
    ensures left + [] == left
  {
  }

  /** The driver's fields after a step that trained: the frontier is above what was trained,
      the record and the last target follow. */
  lemma SampleStepFields(c: Settings, l: Live)
    requires c.Valid()
    ensures
      var s, l' := SampleOf(l.buffer, c.promptsPerStep, l.step, c.maxAge), SampleStep(c, l);
      && l'.buffer == s.left
      && (s.taken.Some? ==>
            && l'.trained == l.trained + s.taken.value && l'.step == l.step + 1
            && l'.recent == l.recent + (set g | g in s.taken.value :: g.ordinal)
            && l'.lastTarget == (if l.lastTarget < l.step then l.step else l.lastTarget)
            && l.frontier <= l'.frontier && (forall g :: g in s.taken.value ==> g.ordinal < l'.frontier)
            && (l'.frontier == l.frontier || exists g :: g in s.taken.value && l'.frontier == g.ordinal + 1))
      && (s.taken.None? ==> l' == l.(buffer := s.left, failed := l'.failed))
  {
    var s := SampleOf(l.buffer, c.promptsPerStep, l.step, c.maxAge);
    if s.taken.Some? {
      RaiseToAbove(l.frontier, s.taken.value);
    }
  }

  // ----- Yield -----

  /** The filter of a resumed collector lets an ordinal through. */
  predicate Wanted(l: Live, o: nat) {
    l.filter == None || (l.filter.value <= o && o !in l.covered)
  }

  /** A pull holds back exactly the rows that are below the cut or covered, keeps the order,
      and switches the filter off once nothing beyond could be held back. */
  lemma YieldHoldsBack(c: Settings, l: Live, n: nat)
    requires c.Valid() && n >= 1
    ensures
      var l' := YieldOf(c, l, n);
      && (forall p :: p in l'.pending <==>
            l.nextOrdinal <= p.ordinal < l.nextOrdinal + n && Wanted(l, p.ordinal)
            && p.prompt == l.loader + (p.ordinal - l.nextOrdinal))
      && Rising(l'.pending)
      && (l'.filter == None <==> forall o :: l.nextOrdinal <= o ==> Wanted(l, o))
      && (l'.filter.Some? ==> l'.filter == l.filter && l'.covered == l.covered)
      && l'.nextOrdinal == l.nextOrdinal + n && l'.loader == l.loader + n
  {
    var stamps := NewStamps(l, n);
    SurvivorsInOrder(l.filter, l.covered, stamps);
    forall p
      ensures p in stamps <==> l.nextOrdinal <= p.ordinal < l.nextOrdinal + n
                               && p.prompt == l.loader + (p.ordinal - l.nextOrdinal)
    {
      if l.nextOrdinal <= p.ordinal < l.nextOrdinal + n && p.prompt == l.loader + (p.ordinal - l.nextOrdinal) {
        assert stamps[p.ordinal - l.nextOrdinal] == p;
      }
    }
    assert PastHorizon(l) || l.filter == None <==> forall o :: l.nextOrdinal <= o ==> Wanted(l, o) by {
      if l.filter.Some? && forall o :: l.nextOrdinal <= o ==> Wanted(l, o) {
        assert Wanted(l, l.nextOrdinal);
        forall o | o in l.covered ensures o < l.nextOrdinal {
          assert !Wanted(l, o);
        }
      }
    }
  }

  predicate Rising(ps: seq<Stamp>) {
    forall i, j :: 0 <= i < j < |ps| ==> ps[i].ordinal < ps[j].ordinal
  }

  lemma {:induction false} SurvivorsInOrder(filter: Option<nat>, covered: set<nat>, ps: seq<Stamp>)
    requires Rising(ps)
    ensures
      var r := Survivors(filter, covered, ps);
      && (forall p :: p in r <==> p in ps && (filter == None || (filter.value <= p.ordinal && p.ordinal !in covered)))
      && Rising(r)
  {
    if ps != [] {
      var init, x := ps[..|ps| - 1], ps[|ps| - 1];
      SurvivorsInOrder(filter, covered, init);
      assert ps == init + [x];
      forall p | p in init ensures p.ordinal < x.ordinal {
      }
      RisingSnoc(Survivors(filter, covered, init), x);
    }
  }

  lemma RisingSnoc(ps: seq<Stamp>, x: Stamp)
    requires Rising(ps) && forall p :: p in ps ==> p.ordinal < x.ordinal
    ensures Rising(ps + [x])
  {
    forall i, j | 0 <= i < j < |ps| + 1 ensures (ps + [x])[i].ordinal < (ps + [x])[j].ordinal {
      assert ps[i] in ps;
    }
  }

  /** `after` is `before` with `s` at its end, without its oldest if that is more than `size`. */
  predicate Remembers(after: seq<Snapshot>, before: seq<Snapshot>, s: Snapshot, size: nat) {
    if |before| < size then after == before + [s] else before != [] && after == before[1..] + [s]
  }

  lemma TrimRemembers(ring: seq<Snapshot>, s: Snapshot, size: nat)
    requires 1 <= size && |ring| <= size
    ensures Remembers(Trim(ring + [s], size), ring, s, size)
  {
  }

  /** The ring of snapshots gains the state before the pull and holds the newest of them. */
  lemma YieldRemembers(c: Settings, l: Live, n: nat)
    requires c.Valid() && |l.ring| <= c.ringSize
    ensures Remembers(YieldOf(c, l, n).ring, l.ring, Snapshot(l.nextOrdinal, l.loader), c.ringSize)
  {
    TrimRemembers(l.ring, Snapshot(l.nextOrdinal, l.loader), c.ringSize);
  }

  // ----- Saves that fall back to the live cursor -----

  /** What a fallback save carries over: a prompt is in the buffer, pending or still to be
      pulled after the resume if and only if it was retained, pending at a save between two
      rounds, or not pulled yet. All else that was outstanding is lost. */
  lemma FallbackCarriesIff(c: Settings, l: Live, held: bool, keep: Option<seq<bool>>, prompt: nat)
    requires !SaveAligned(l) && (keep.Some? ==> |keep.value| == |l.buffer|)
    ensures
      var r := ResumeOf(c, SnapshotWith(l, held).saving.value.(buffer := l.buffer), keep);
      var retained := if keep.Some? then Pick(l.buffer, keep.value) else [];
      && r.trained == l.trained && r.step == l.step && r.inflight == []
      && r.frontier == c.promptsPerStep * l.step && r.recent == {} && r.filter == None && !r.aligned
      && ((exists g :: g in r.buffer && g.prompt == prompt)
          || (exists p :: p in r.pending && p.prompt == prompt) || r.loader <= prompt
          <==> (exists g :: g in retained && g.prompt == prompt)
               || (!held && exists p :: p in l.pending && p.prompt == prompt) || l.loader <= prompt)
  {
  }

  /** The stamps of the resumed job are above those of everything it retained. */
  lemma FallbackStampsAreNew(c: Settings, l: Live, held: bool, keep: Option<seq<bool>>)
    requires !SaveAligned(l) && (keep.Some? ==> |keep.value| == |l.buffer|)
    ensures
      var r := ResumeOf(c, SnapshotWith(l, held).saving.value.(buffer := l.buffer), keep);
      l.nextOrdinal <= r.nextOrdinal && forall g :: g in r.buffer ==> g.ordinal < r.nextOrdinal
  {
    RaiseToAbove(l.nextOrdinal, l.buffer);
  }

  predicate Legacy(w: World) {
    && (w.live.Some? ==> !w.live.value.aligned
                         && (w.live.value.saving.Some? ==> w.live.value.saving.value.mark == None))
    && w.saved.Some? && w.saved.value.mark == None
  }

  /** After a fallback save was resumed from, no save of any later job is aligned again. */
  lemma {:induction false} FallbacksStayFallbacks(c: Settings, w: World, evs: seq<Event>)
    requires c.Valid() && Legacy(w) && Feasible(c, w, evs)
    ensures Legacy(After(c, w, evs))
    decreases |evs|
  {
    if evs != [] {
      FallbacksStayFallbacks(c, Step(c, w, evs[0]), evs[1..]);
    }
  }
}
