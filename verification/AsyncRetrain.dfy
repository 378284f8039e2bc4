// What an incomplete record costs: from every aligned save that no longer records a trained
// prompt above its cut, some continuation trains a prompt twice.
module AsyncRetrain {
  import opened Prelude
  import opened ReplayGroups
  import opened ReplayBuffers
  import opened AsyncResume
  import opened AsyncInvariant
  import opened AsyncOnce

  /** Some continuation, all saves of which are recorded, ends with `o` trained twice. */
  ghost predicate Retrains(c: Settings, w: World, o: nat)
    requires c.Valid()
  {
    exists evs: seq<Event> ::
      && Feasible(c, w, evs) && RecordedSaves(c, w, evs)
      && After(c, w, evs).live.Some? && TimesTrained(After(c, w, evs).live.value.trained, o) == 2
  }

  /** Continuations are found from their end. */
  lemma RetrainsAfter(c: Settings, w: World, ev: Event, o: nat)
    requires c.Valid() && Enabled(c, w, ev) && !ev.TakeSnapshot? && Retrains(c, Step(c, w, ev), o)
    ensures Retrains(c, w, o)
  {
    var w' := Step(c, w, ev);
    var evs: seq<Event> :|
      && Feasible(c, w', evs) && RecordedSaves(c, w', evs)
      && After(c, w', evs).live.Some? && TimesTrained(After(c, w', evs).live.value.trained, o) == 2;
    var all := [ev] + evs;
    assert all[0] == ev && all[1..] == evs;
    assert Feasible(c, w, all) && RecordedSaves(c, w, all) && After(c, w, all) == After(c, w', evs);
  }

  // ----- A resumed job that fills its first step -----

  predicate AllNow(gs: seq<Group>, step: nat) {
    forall g :: g in gs ==> g.version == step && g.target == step
  }

  /** The job is in its first step, has nothing on the way, and buffered only for this step. */
  predicate Filling(c: Settings, l: Live) {
    && l.step == l.first && l.lastTarget < l.step && l.saving.None? && l.loader == l.nextOrdinal
    && l.pending == [] && l.inflight == []
    && AllNow(l.buffer, l.step) && |l.buffer| <= c.promptsPerStep
  }

  /** Every ordinal from `b` on gets through the filter. */
  predicate ClearFrom(l: Live, b: nat) {
    (l.filter.Some? ==> l.filter.value <= b) && forall o :: o in l.covered ==> o < b
  }

  lemma {:induction false} SetBound(s: set<nat>) returns (b: nat)
    ensures forall o :: o in s ==> o < b
    decreases s
  {
    if s == {} {
      b := 0;
    } else {
      var x :| x in s;
      var rest := SetBound(s - {x});
      b := if rest <= x then x + 1 else rest;
      forall o | o in s ensures o < b {
        assert o == x || o in s - {x};
      }
    }
  }

  /** Yielding one prompt moves the collector on by one; the filter stays as it is or goes. */
  lemma YieldsOne(c: Settings, l: Live, o: nat)
    requires c.Valid() && l.pending == []
    ensures var l' := YieldOf(c, l, 1);
            && l' == l.(ring := l'.ring, nextOrdinal := l.nextOrdinal + 1, loader := l.loader + 1,
                        filter := l'.filter, covered := l'.covered, pending := l'.pending)
            && l'.pending == (if Survives(l.filter, l.covered, l.nextOrdinal)
                              then [Stamp(l.nextOrdinal, l.loader)] else [])
            && (l.nextOrdinal < o ==> Ahead(l', o) == Ahead(l, o))
            && forall b: nat :: ClearFrom(l, b) ==> ClearFrom(l', b)
  {
    var p := Stamp(l.nextOrdinal, l.loader);
    assert NewStamps(l, 1) == [p];
    assert [p][..0] == [];
    assert Survivors(l.filter, l.covered, [][..0]) == [];
    assert PastHorizon(l) ==> forall x :: l.nextOrdinal <= x ==> Survives(l.filter, l.covered, x);
  }

  function Next(l: Live): Group {
    Group(l.nextOrdinal, l.loader, l.step, l.step)
  }

  /** The next prompt has been yielded, generated and buffered. */
  function Taken(c: Settings, l: Live): Live {
    YieldOf(c, l, 1).(pending := [], buffer := l.buffer + [Next(l)])
  }

  /** The next prompt has been yielded, sent out, and lost to a tolerated failure. */
  function Skipped(c: Settings, l: Live): Live {
    YieldOf(c, l, 1).(pending := [], failed := l.failed + {l.nextOrdinal})
  }

  function SentOut(c: Settings, l: Live): Live {
    YieldOf(c, l, 1).(pending := [], inflight := [Next(l)])
  }

  lemma {:induction false} CountsAll(gs: seq<Group>, step: nat, maxAge: nat)
    requires AllNow(gs, step)
    ensures CountForTarget(gs, step, maxAge) == |gs|
  {
    if gs != [] {
      CountsAll(gs[..|gs| - 1], step, maxAge);
      assert gs[|gs| - 1] in gs;
    }
  }

  lemma SentOutRetrains(c: Settings, s: Option<Checkpoint>, l: Live, o: nat)
    requires c.Valid() && Filling(c, l) && |l.buffer| < c.promptsPerStep
    requires Survives(l.filter, l.covered, l.nextOrdinal)
    requires Retrains(c, World(Some(SentOut(c, l)), s), o)
    ensures Retrains(c, World(Some(l), s), o)
  {
    YieldsOne(c, l, o);
    var y := YieldOf(c, l, 1);
    CountsAll(l.buffer, l.step, c.maxAge);
    var p := Stamp(l.nextOrdinal, l.loader);
    assert y.pending[..1] == [p] && y.pending[1..] == [];
    assert Launch([p], l.step, l.step) == [Next(l)];
    assert [] + [Next(l)] == [Next(l)];
    assert DispatchOf(c, y, l.step) == SentOut(c, l);
    RetrainsAfter(c, World(Some(y), s), Dispatch(l.step), o);
    RetrainsAfter(c, World(Some(l), s), Yield(1), o);
  }

  lemma TakenRetrains(c: Settings, s: Option<Checkpoint>, l: Live, o: nat)
    requires c.Valid() && Filling(c, l) && |l.buffer| < c.promptsPerStep <= c.bufferSize
    requires Survives(l.filter, l.covered, l.nextOrdinal)
    requires Retrains(c, World(Some(Taken(c, l)), s), o)
    ensures Retrains(c, World(Some(l), s), o)
  {
    var sent := SentOut(c, l);
    YieldsOne(c, l, o);
    assert Pop(sent.inflight, 0) == [];
    assert LiveStep(c, sent, Buffered(0)) == Taken(c, l);
    RetrainsAfter(c, World(Some(sent), s), Buffered(0), o);
    SentOutRetrains(c, s, l, o);
  }

  lemma SkippedRetrains(c: Settings, s: Option<Checkpoint>, l: Live, o: nat)
    requires c.Valid() && Filling(c, l) && |l.buffer| < c.promptsPerStep
    requires Survives(l.filter, l.covered, l.nextOrdinal)
    requires Retrains(c, World(Some(Skipped(c, l)), s), o)
    ensures Retrains(c, World(Some(l), s), o)
  {
    var sent, g := SentOut(c, l), Next(l);
    YieldsOne(c, l, o);
    MatchesAll([g], Aims(l.step));
    DropsAll(g, Aims(l.step));
    assert OrdinalSet([g]) == {l.nextOrdinal};
    assert PerTarget([g], l.step) == |Matching([g], Aims(l.step))|;
    assert LiveStep(c, sent, WorkerFails(l.step)) == Skipped(c, l);
    RetrainsAfter(c, World(Some(sent), s), WorkerFails(l.step), o);
    SentOutRetrains(c, s, l, o);
  }

  lemma DropsAll(g: Group, rule: Rule)
    requires rule.Holds(g)
    ensures Without([g], rule) == []
  {
    var none := [g][..0];
    assert Matching(none, rule) == [] && DropFirst(none, rule, 1) == [];
  }

  lemma {:induction false} MatchesAll(gs: seq<Group>, rule: Rule)
    requires forall g :: g in gs ==> rule.Holds(g)
    ensures Matching(gs, rule) == gs
  {
    if gs != [] {
      MatchesAll(gs[..|gs| - 1], rule);
      assert gs[|gs| - 1] in gs && gs == gs[..|gs| - 1] + [gs[|gs| - 1]];
    }
  }

  lemma {:induction false} TimesTrainedAdds(a: seq<Group>, b: seq<Group>, o: nat)
    ensures TimesTrained(a + b, o) == TimesTrained(a, o) + TimesTrained(b, o)
    decreases |b|
  {
    if b == [] {
      assert a + b == a;
    } else {
      assert (a + b)[..|a + b| - 1] == a + b[..|b| - 1];
      TimesTrainedAdds(a, b[..|b| - 1], o);
    }
  }

  lemma FullStepIsTrained(c: Settings, l: Live)
    requires c.Valid() && AllNow(l.buffer, l.step) && |l.buffer| == c.promptsPerStep
    ensures SampleStep(c, l).trained == l.trained + l.buffer
  {
    SampleTakesAll(l.buffer, l.step, c.maxAge);
  }

  lemma SampleTakesAll(gs: seq<Group>, step: nat, maxAge: nat)
    requires AllNow(gs, step) && gs != []
    ensures SampleOf(gs, |gs|, step, maxAge).taken == Some(gs)
  {
    var young := Without(gs, AgedOut(step, maxAge));
    NothingHolds(gs, AgedOut(step, maxAge), |gs|);
    assert young == gs;
    var usable, due := Matching(gs, Usable(step)), Matching(gs, Due(step));
    MatchesAll(gs, Usable(step));
    MatchesAll(gs, Due(step));
    assert usable == gs && due == gs && due[..|gs|] == gs;
  }

  /** A full step is trained on. */
  lemma FullStepRetrains(c: Settings, s: Option<Checkpoint>, l: Live, o: nat)
    requires c.Valid() && Filling(c, l) && |l.buffer| == c.promptsPerStep
    requires TimesTrained(l.trained, o) == 1 && TimesTrained(l.buffer, o) == 1
    ensures Retrains(c, World(Some(l), s), o)
  {
    var l' := SampleStep(c, l);
    FullStepIsTrained(c, l);
    TimesTrainedAdds(l.trained, l.buffer, o);
    var w' := World(Some(l'), s);
    assert Feasible(c, w', []) && RecordedSaves(c, w', []) && After(c, w', []) == w';
    RetrainsAfter(c, World(Some(l), s), Sample, o);
  }

  /** Once `o` is buffered again the step fills up and is trained on. */
  lemma {:induction false} FillingRetrains(c: Settings, s: Option<Checkpoint>, l: Live, o: nat, b: nat)
    requires c.Valid() && c.promptsPerStep <= c.bufferSize && Filling(c, l) && ClearFrom(l, b)
    requires o < l.nextOrdinal && TimesTrained(l.trained, o) == 1 && TimesTrained(l.buffer, o) == 1
    ensures Retrains(c, World(Some(l), s), o)
    decreases c.promptsPerStep - |l.buffer|, if l.nextOrdinal < b then b - l.nextOrdinal else 0
  {
    if |l.buffer| == c.promptsPerStep {
      FullStepRetrains(c, s, l, o);
    } else {
      YieldsOne(c, l, o);
      if Survives(l.filter, l.covered, l.nextOrdinal) {
        TimesTrainedAdds(l.buffer, [Next(l)], o);
        TimesTrainedOne(Next(l), o);
        FillingRetrains(c, s, Taken(c, l), o, b);
        TakenRetrains(c, s, l, o);
      } else {
        FillingRetrains(c, s, YieldOf(c, l, 1), o, b);
        RetrainsAfter(c, World(Some(l), s), Yield(1), o);
      }
    }
  }

  lemma TimesTrainedOne(g: Group, o: nat)
    ensures TimesTrained([g], o) == if g.prompt == o then 1 else 0
  {
    assert [g][..0] == [];
  }

  /** A trained prompt that is ahead is reached, and trained again. */
  lemma {:induction false} AheadRetrains(c: Settings, s: Option<Checkpoint>, l: Live, o: nat, b: nat)
    requires c.Valid() && c.promptsPerStep <= c.bufferSize && Filling(c, l) && ClearFrom(l, b)
    requires l.buffer == [] && Ahead(l, o) && TimesTrained(l.trained, o) == 1
    ensures Retrains(c, World(Some(l), s), o)
    decreases o - l.nextOrdinal
  {
    YieldsOne(c, l, o);
    if l.nextOrdinal == o {
      TimesTrainedOne(Next(l), o);
      assert [] + [Next(l)] == [Next(l)];
      FillingRetrains(c, s, Taken(c, l), o, b);
      TakenRetrains(c, s, l, o);
    } else if Survives(l.filter, l.covered, l.nextOrdinal) {
      AheadRetrains(c, s, Skipped(c, l), o, b);
      SkippedRetrains(c, s, l, o);
    } else {
      AheadRetrains(c, s, YieldOf(c, l, 1), o, b);
      RetrainsAfter(c, World(Some(l), s), Yield(1), o);
    }
  }

  // ----- From a save to the retraining -----

  lemma ResumedIsFilling(c: Settings, l: Live)
    requires c.Valid() && OnceSound(l) && SaveAligned(l)
    ensures Filling(c, Resumed(c, l, None)) && Resumed(c, l, None).buffer == []
    ensures Resumed(c, l, None).trained == l.trained
  {
    assert Newest(l.ring, CutOf(l)).value in l.ring;
  }

  /** From the snapshot: the save is completed, the job crashes, and its successor skips the
      replay buffer. */
  lemma SnapshotRetrains(c: Settings, l: Live, s: Option<Checkpoint>, o: nat)
    requires c.Valid() && SaveAligned(l)
    requires Retrains(c, World(Some(Resumed(c, l, None)), Some(SnapshotOf(l).saving.value.(buffer := l.buffer))), o)
    ensures Retrains(c, World(Some(SnapshotOf(l)), s), o)
  {
    var ck := SnapshotOf(l).saving.value.(buffer := l.buffer);
    RetrainsAfter(c, World(None, Some(ck)), Resume(None), o);
    RetrainsAfter(c, World(Some(SnapshotOf(l).(saving := None)), Some(ck)), Crash, o);
    RetrainsAfter(c, World(Some(SnapshotOf(l)), s), SaveBuffer, o);
  }

  lemma MissingRetrains(c: Settings, w: World, held: bool, o: nat)
    requires c.Valid() && c.promptsPerStep <= c.bufferSize
    requires w.live.Some? && OnceSound(w.live.value) && LiveEnabled(c, w.live.value, TakeSnapshot(held))
    requires SaveAligned(w.live.value)
    requires Bag(w.live.value.trained)[o] > 0 && CutOf(w.live.value) <= o && o !in w.live.value.recent
    ensures Retrains(c, Step(c, w, TakeSnapshot(held)), o)
  {
    var l := w.live.value;
    var r := Resumed(c, l, None);
    ResumedIsFilling(c, l);
    assert Places(l, o) <= 1;
    TrainedIsAheadIff(c, l, None, o);
    TimesTrainedIsBag(l.trained, o);
    var b := SetBound(r.covered);
    b := if r.filter.Some? && b < r.filter.value then r.filter.value else b;
    AheadRetrains(c, Some(SnapshotOf(l).saving.value.(buffer := l.buffer)), r, o, b);
    SnapshotRetrains(c, l, w.saved, o);
    assert SnapshotWith(l, held) == SnapshotOf(l);
  }

  /** The exact condition in terms of what is trained: an aligned save has a continuation, all
      later saves of which are recorded, that ends with a prompt trained twice, if and only if
      the save itself lacks a trained ordinal at or above its cut. */
  lemma SaveRetrainsIff(c: Settings, w: World, held: bool)
    requires c.Valid() && c.promptsPerStep <= c.bufferSize && OnceWorld(w)
    requires Enabled(c, w, TakeSnapshot(held)) && SaveAligned(w.live.value)
    ensures (exists o: nat :: Retrains(c, Step(c, w, TakeSnapshot(held)), o)) <==> !RecordedSave(w.live.value)
  {
    var w' := Step(c, w, TakeSnapshot(held));
    if RecordedSave(w.live.value) {
      StepOnce(c, w, TakeSnapshot(held));
      forall o: nat ensures !Retrains(c, w', o) {
        OnceNeverRetrains(c, w', o);
      }
    } else {
      MissingIff(w.live.value);
      var o: nat :| Bag(w.live.value.trained)[o] > 0 && CutOf(w.live.value) <= o && o !in w.live.value.recent;
      MissingRetrains(c, w, held, o);
    }
  }

  lemma OnceNeverRetrains(c: Settings, w: World, o: nat)
    requires c.Valid() && OnceWorld(w)
    ensures !Retrains(c, w, o)
  {
    forall evs: seq<Event> | Feasible(c, w, evs) && RecordedSaves(c, w, evs) && After(c, w, evs).live.Some?
      ensures TimesTrained(After(c, w, evs).live.value.trained, o) <= 1
    {
      RunOnce(c, w, evs);
      var l := After(c, w, evs).live.value;
      assert Places(l, o) <= 1;
      TimesTrainedIsBag(l.trained, o);
    }
  }

  /** No save of the run has a continuation with recorded saves that trains a prompt twice. */
  ghost predicate NoSaveRetrains(c: Settings, w: World, evs: seq<Event>)
    requires c.Valid() && Feasible(c, w, evs)
    decreases |evs|
  {
    evs == [] ||
    (&& (evs[0].TakeSnapshot? ==> forall o: nat :: !Retrains(c, Step(c, w, evs[0]), o))
     && NoSaveRetrains(c, Step(c, w, evs[0]), evs[1..]))
  }

  /** Over whole runs with aligned saves: no save leads to a prompt being trained twice if and
      only if every save still records what was trained above its cut. */
  lemma {:induction false} NoSaveRetrainsIff(c: Settings, w: World, evs: seq<Event>)
    requires c.Valid() && c.promptsPerStep <= c.bufferSize && OnceWorld(w)
    requires Feasible(c, w, evs) && AlignedSaves(c, w, evs)
    ensures NoSaveRetrains(c, w, evs) <==> RecordedSaves(c, w, evs)
    decreases |evs|
  {
    if evs != [] {
      if evs[0].TakeSnapshot? {
        SaveRetrainsIff(c, w, evs[0].held);
      }
      if evs[0].TakeSnapshot? ==> RecordedSave(w.live.value) {
        StepOnce(c, w, evs[0]);
        NoSaveRetrainsIff(c, Step(c, w, evs[0]), evs[1..]);
      }
    }
  }
}
