// At-most-once training: when a resumed job can pull a trained prompt again, and why runs
// whose cut never falls below what was pruned do not.
module AsyncOnce {
  import opened Prelude
  import opened ReplayGroups
  import opened ReplayBuffers
  import opened AsyncResume
  import opened AsyncInvariant

  // ----- Conditions on saves -----

  /** The record of trained ordinals still lists every one from the cut upwards. */
  predicate RecordedSave(l: Live) {
    SaveAligned(l) && forall g :: g in l.trained && CutOf(l) <= g.ordinal ==> g.ordinal in l.recent
  }

  /** The cut has not fallen below the bound up to which the record was pruned: the comment
      "the cut never decreases" as a condition on one save. */
  predicate CutKept(l: Live) {
    SaveAligned(l) && l.prunedBelow <= CutOf(l)
  }

  /** Every save of the run finds a snapshot to align with. */
  predicate AlignedSaves(c: Settings, w: World, evs: seq<Event>)
    requires c.Valid() && Feasible(c, w, evs)
    decreases |evs|
  {
    evs == [] ||
    (&& (evs[0].TakeSnapshot? ==> SaveAligned(w.live.value))
     && AlignedSaves(c, Step(c, w, evs[0]), evs[1..]))
  }

  predicate RecordedSaves(c: Settings, w: World, evs: seq<Event>)
    requires c.Valid() && Feasible(c, w, evs)
    decreases |evs|
  {
    evs == [] ||
    (&& (evs[0].TakeSnapshot? ==> RecordedSave(w.live.value))
     && RecordedSaves(c, Step(c, w, evs[0]), evs[1..]))
  }

  predicate CutsKept(c: Settings, w: World, evs: seq<Event>)
    requires c.Valid() && Feasible(c, w, evs)
    decreases |evs|
  {
    evs == [] ||
    (&& (evs[0].TakeSnapshot? ==> CutKept(w.live.value))
     && CutsKept(c, Step(c, w, evs[0]), evs[1..]))
  }

  // ----- The invariant -----

  /** The copies of an ordinal that can still reach the weights, and those that have. */
  function Places(l: Live, o: nat): nat {
    Bag(l.trained)[o] + Free(l)[o] + (if Ahead(l, o) then 1 else 0)
  }

  ghost predicate Apart(l: Live) {
    forall o: nat :: Places(l, o) <= 1
  }

  ghost predicate Listed(l: Live) {
    forall o: nat :: Bag(l.trained)[o] > 0 && l.prunedBelow <= o ==> o in l.recent
  }

  ghost predicate OnceMark(ck: Checkpoint) {
    && ck.mark.Some?
    && var m := ck.mark.value;
    && ck.loader == m.base
    && (forall g :: g in ck.trained ==> g.ordinal == g.prompt)
    && (forall o: nat :: Bag(ck.trained)[o] <= 1)
    && (forall o: nat :: Bag(ck.trained)[o] > 0 && m.cut <= o ==> o in m.trainedAbove)
  }

  ghost predicate OnceSaved(ck: Checkpoint) {
    && OnceMark(ck)
    && (forall o: nat :: Bag(ck.trained)[o] + Bag(ck.buffer)[o] <= 1)
    && (forall g :: g in ck.buffer ==> g.ordinal == g.prompt)
  }

  ghost predicate OnceSound(l: Live) {
    && Apart(l) && Stamped(l) && Listed(l)
    && (l.saving.Some? ==> OnceMark(l.saving.value) && l.saving.value.trained == l.trained)
  }

  ghost predicate OnceWorld(w: World) {
    && (w.live.Some? ==> OnceSound(w.live.value))
    && (w.saved.Some? ==> OnceSaved(w.saved.value))
  }

  // ----- Steps -----

  lemma YieldOnce(c: Settings, l: Live, n: nat)
    requires c.Valid() && OnceSound(l) && l.pending == [] && n >= 1
    ensures OnceSound(YieldOf(c, l, n))
  {
    var l' := YieldOf(c, l, n);
    forall o: nat ensures Places(l', o) <= 1 {
      YieldCopies(c, l, n, o);
      assert Places(l, o) <= 1;
      assert Copies(l', o) == Copies(l, o) && l'.failed == l.failed;
    }
    SurvivorsWithin(l.filter, l.covered, NewStamps(l, n));
    forall p | p in l'.pending ensures p.ordinal == p.prompt {
      assert p in NewStamps(l, n);
    }
  }

  /** A step that moves or drops free ordinals keeps the places apart. */
  lemma MovesOnce(l: Live, l': Live)
    requires Apart(l) && l'.trained == l.trained
    requires forall o: nat :: Free(l')[o] <= Free(l)[o]
    requires l'.nextOrdinal == l.nextOrdinal && l'.filter == l.filter && l'.covered == l.covered
    ensures Apart(l')
  {
    forall o: nat ensures Places(l', o) <= 1 {
      assert Places(l, o) <= 1;
      assert Ahead(l', o) == Ahead(l, o);
    }
  }

  lemma DispatchOnce(c: Settings, l: Live, t: nat)
    requires OnceSound(l)
    ensures OnceSound(DispatchOf(c, l, t))
  {
    DispatchMoves(c, l, t);
    MovesOnce(l, DispatchOf(c, l, t));
  }

  lemma BufferedOnce(l: Live, i: nat)
    requires OnceSound(l) && i < |l.inflight|
    ensures OnceSound(l.(inflight := Pop(l.inflight, i), buffer := l.buffer + [l.inflight[i]]))
  {
    var l' := l.(inflight := Pop(l.inflight, i), buffer := l.buffer + [l.inflight[i]]);
    BufferedMoves(l, i);
    assert Free(l') == Free(l);
    MovesOnce(l, l');
    assert forall h :: h in l'.inflight ==> h in l.inflight;
  }

  lemma FailOnce(c: Settings, l: Live, t: nat)
    requires c.Valid() && OnceSound(l) && LiveEnabled(c, l, WorkerFails(t))
    ensures OnceSound(LiveStep(c, l, WorkerFails(t)))
  {
    var l' := LiveStep(c, l, WorkerFails(t));
    FailMoves(l.inflight, t);
    MovesOnce(l, l');
    DropFirstWithin(l.inflight, Aims(t), |l.inflight|);
  }

  /** Sampling hands out, keeps and evicts groups of the buffer, each once. */
  lemma SampleParts(gs: seq<Group>, n: nat, w: nat, maxAge: nat)
    ensures
      var s := SampleOf(gs, n, w, maxAge);
      var items := if s.taken.Some? then s.taken.value else [];
      && (forall o: nat :: Bag(items)[o] + Bag(s.left)[o] <= Bag(gs)[o])
      && (forall g :: g in items || g in s.left ==> g in gs)
  {
    StampBagEmpty();
    var aged := AgedOut(w, maxAge);
    var young := Without(gs, aged);
    BagSplit(gs, aged, |Matching(gs, aged)|);
    DropFirstSaturates(gs, aged, |Matching(gs, aged)|, |gs|);
    DropFirstWithin(gs, aged, |gs|);
    var due := Matching(young, Due(w));
    if n <= |due| {
      BagSplit(young, Due(w), n);
      DropFirstWithin(young, Due(w), n);
      MatchingIff(young, Due(w));
      assert forall g :: g in due[..n] ==> g in due;
    }
  }

  lemma SampleOnce(c: Settings, l: Live)
    requires c.Valid() && OnceSound(l) && l.saving.None?
    ensures OnceSound(SampleStep(c, l))
  {
    var s := SampleOf(l.buffer, c.promptsPerStep, l.step, c.maxAge);
    var items := if s.taken.Some? then s.taken.value else [];
    var l' := SampleStep(c, l);
    SampleParts(l.buffer, c.promptsPerStep, l.step, c.maxAge);
    assert l'.trained == l.trained + items;
    BagAppend(l.trained, items);
    forall o: nat
      ensures Places(l', o) <= 1
      ensures Bag(l'.trained)[o] > 0 && l.prunedBelow <= o ==> o in l'.recent
    {
      assert Places(l, o) <= 1;
      OrdinalSetIff(items, o);
      assert Ahead(l', o) == Ahead(l, o);
    }
  }

  lemma SnapshotOnce(l: Live)
    requires OnceSound(l) && RecordedSave(l)
    ensures OnceSound(SnapshotOf(l))
  {
    var l' := SnapshotOf(l);
    assert Newest(l.ring, CutOf(l)).value in l.ring;
    forall o: nat
      ensures Places(l', o) <= 1 && Bag(l.trained)[o] <= 1
      ensures Bag(l.trained)[o] > 0 && CutOf(l) <= o ==> o in l'.recent
    {
      assert Places(l, o) <= 1;
      assert Ahead(l', o) == Ahead(l, o);
      BagMember(l.trained, o);
    }
  }

  lemma SavedOnce(l: Live)
    requires OnceSound(l) && l.saving.Some?
    ensures OnceSaved(l.saving.value.(buffer := l.buffer)) && OnceSound(l.(saving := None))
  {
    var l' := l.(saving := None);
    forall o: nat ensures Places(l', o) <= 1 && Bag(l.trained)[o] + Bag(l.buffer)[o] <= 1 {
      assert Places(l, o) <= 1;
      assert Ahead(l', o) == Ahead(l, o);
    }
  }

  lemma ResumeOnce(c: Settings, ck: Checkpoint, keep: Option<seq<bool>>)
    requires c.Valid() && OnceSaved(ck) && (keep.Some? ==> |keep.value| == |ck.buffer|)
    ensures OnceSound(ResumeOf(c, ck, keep))
  {
    var l := ResumeOf(c, ck, keep);
    StampBagEmpty();
    forall o: nat ensures Places(l, o) <= 1 {
      if keep.Some? {
        BagPick(ck.buffer, keep.value);
      }
      OrdinalSetIff(l.buffer, o);
      assert Bag(ck.trained)[o] + Bag(ck.buffer)[o] <= 1;
    }
  }

  lemma StartOnce()
    ensures OnceSound(NewJob())
  {
    StampBagEmpty();
    assert forall o: nat :: Places(NewJob(), o) == 1;
  }

  lemma StepOnce(c: Settings, w: World, ev: Event)
    requires c.Valid() && OnceWorld(w) && Enabled(c, w, ev)
    requires ev.TakeSnapshot? ==> RecordedSave(w.live.value)
    ensures OnceWorld(Step(c, w, ev))
  {
    match ev {
      case Start => StartOnce();
      case Crash =>
      case Resume(keep) => ResumeOnce(c, w.saved.value, keep);
      case Yield(n) => YieldOnce(c, w.live.value, n);
      case Dispatch(t) => DispatchOnce(c, w.live.value, t);
      case Buffered(i) => BufferedOnce(w.live.value, i);
      case WorkerFails(t) => FailOnce(c, w.live.value, t);
      case Sample => SampleOnce(c, w.live.value);
      case TakeSnapshot(_) => SnapshotOnce(w.live.value);
      case SaveBuffer => SavedOnce(w.live.value);
    }
  }

  lemma {:induction false} RunOnce(c: Settings, w: World, evs: seq<Event>)
    requires c.Valid() && OnceWorld(w) && Feasible(c, w, evs) && RecordedSaves(c, w, evs)
    ensures OnceWorld(After(c, w, evs))
    decreases |evs|
  {
    if evs != [] {
      StepOnce(c, w, evs[0]);
      RunOnce(c, Step(c, w, evs[0]), evs[1..]);
    }
  }

  // ----- Whole runs -----

  /** How often a prompt of the stream has contributed to the weights. */
  function TimesTrained(gs: seq<Group>, prompt: nat): nat {
    if gs == [] then 0
    else TimesTrained(gs[..|gs| - 1], prompt) + (if gs[|gs| - 1].prompt == prompt then 1 else 0)
  }

  lemma {:induction false} TimesTrainedIsBag(gs: seq<Group>, prompt: nat)
    requires forall g :: g in gs ==> g.ordinal == g.prompt
    ensures TimesTrained(gs, prompt) == Bag(gs)[prompt]
  {
    if gs == [] {
      assert Ordinals(gs) == [];
    } else {
      var init, x := gs[..|gs| - 1], gs[|gs| - 1];
      assert gs == init + [x];
      BagAppend(init, [x]);
      BagOne(x);
      assert x in gs;
      TimesTrainedIsBag(init, prompt);
    }
  }

  /** At-most-once training: over every run whose saves still record what was trained above
      their cut, whatever the interleaving, the failures, the losses, the crashes and the
      retained buffers, no prompt has contributed twice to the weights. */
  lemma AtMostOnce(c: Settings, evs: seq<Event>, prompt: nat)
    requires c.Valid() && Feasible(c, INITIAL, evs) && RecordedSaves(c, INITIAL, evs)
    ensures
      var w := After(c, INITIAL, evs);
      && (w.live.Some? ==> TimesTrained(w.live.value.trained, prompt) <= 1)
      && (w.saved.Some? ==> TimesTrained(w.saved.value.trained, prompt) <= 1)
  {
    RunOnce(c, INITIAL, evs);
    var w := After(c, INITIAL, evs);
    if w.live.Some? {
      assert Places(w.live.value, prompt) <= 1;
      TimesTrainedIsBag(w.live.value.trained, prompt);
    }
    if w.saved.Some? {
      TimesTrainedIsBag(w.saved.value.trained, prompt);
    }
  }

  /** A cut that has not fallen below the pruning bound leaves the record complete. */
  lemma {:induction false} KeptCutsAreRecorded(c: Settings, w: World, evs: seq<Event>)
    requires c.Valid() && OnceWorld(w) && Feasible(c, w, evs) && CutsKept(c, w, evs)
    ensures RecordedSaves(c, w, evs)
    decreases |evs|
  {
    if evs != [] {
      if evs[0].TakeSnapshot? {
        var l := w.live.value;
        forall g | g in l.trained && CutOf(l) <= g.ordinal ensures g.ordinal in l.recent {
          BagMember(l.trained, g.ordinal);
        }
      }
      StepOnce(c, w, evs[0]);
      KeptCutsAreRecorded(c, Step(c, w, evs[0]), evs[1..]);
    }
  }

  /** The code's own argument, as a theorem: if the cut never falls below what was pruned,
      no prompt is trained twice. */
  lemma KeptCutsTrainOnce(c: Settings, evs: seq<Event>, prompt: nat)
    requires c.Valid() && Feasible(c, INITIAL, evs) && CutsKept(c, INITIAL, evs)
    ensures
      var w := After(c, INITIAL, evs);
      && (w.live.Some? ==> TimesTrained(w.live.value.trained, prompt) <= 1)
      && (w.saved.Some? ==> TimesTrained(w.saved.value.trained, prompt) <= 1)
  {
    KeptCutsAreRecorded(c, INITIAL, evs);
    AtMostOnce(c, evs, prompt);
  }

  // ----- The exact condition -----

  /** The job will yield some prompt that is already in its weights. */
  ghost predicate PullsTrained(l: Live) {
    exists o: nat :: Bag(l.trained)[o] > 0 && Ahead(l, o)
  }

  /** The resume from the save of `l`, with the retained part of its buffer or without. */
  function Resumed(c: Settings, l: Live, keep: Option<seq<bool>>): Live
    requires keep.Some? ==> |keep.value| == |l.buffer|
  {
    ResumeOf(c, SnapshotOf(l).saving.value.(buffer := l.buffer), keep)
  }

  /** A trained ordinal is yielded again exactly when it is at or above the cut and not in
      the record. */
  lemma TrainedIsAheadIff(c: Settings, l: Live, keep: Option<seq<bool>>, o: nat)
    requires SaveAligned(l) && (keep.Some? ==> |keep.value| == |l.buffer|)
    requires Places(l, o) <= 1 && Bag(l.trained)[o] > 0
    ensures Ahead(Resumed(c, l, keep), o) <==> CutOf(l) <= o && o !in l.recent
  {
    var retained := if keep.Some? then Pick(l.buffer, keep.value) else [];
    if keep.Some? {
      BagPick(l.buffer, keep.value);
    }
    StampBagEmpty();
    OrdinalSetIff(retained, o);
    assert Bag(retained)[o] == 0;
  }

  /** An aligned save makes every job resumed from it pull a trained prompt again if and only
      if the record lacks a trained ordinal at or above the cut. */
  lemma PullsTrainedIff(c: Settings, l: Live, keep: Option<seq<bool>>)
    requires Apart(l) && SaveAligned(l) && (keep.Some? ==> |keep.value| == |l.buffer|)
    ensures PullsTrained(Resumed(c, l, keep)) <==> !RecordedSave(l)
    ensures PullsTrained(Resumed(c, l, keep)) <==>
            exists o: nat :: Bag(l.trained)[o] > 0 && CutOf(l) <= o && o !in l.recent
  {
    assert Resumed(c, l, keep).trained == l.trained;
    forall o: nat | Bag(l.trained)[o] > 0
      ensures Ahead(Resumed(c, l, keep), o) <==> CutOf(l) <= o && o !in l.recent
    {
      assert Places(l, o) <= 1;
      TrainedIsAheadIff(c, l, keep, o);
    }
    MissingIff(l);
  }

  lemma MissingIff(l: Live)
    requires SaveAligned(l)
    ensures !RecordedSave(l) <==> exists o: nat :: Bag(l.trained)[o] > 0 && CutOf(l) <= o && o !in l.recent
  {
    forall o: nat ensures Bag(l.trained)[o] > 0 <==> exists g :: g in l.trained && g.ordinal == o {
      BagMember(l.trained, o);
    }
    if g :| g in l.trained && CutOf(l) <= g.ordinal && g.ordinal !in l.recent {
      assert Bag(l.trained)[g.ordinal] > 0;
    }
  }

  /** No resume from any save of the run would pull a trained prompt again. */
  ghost predicate NoSaveExposes(c: Settings, w: World, evs: seq<Event>)
    requires c.Valid() && Feasible(c, w, evs)
    decreases |evs|
  {
    evs == [] ||
    (&& (evs[0].TakeSnapshot? ==>
           forall keep: Option<seq<bool>> :: (keep.Some? ==> |keep.value| == |w.live.value.buffer|) ==>
             !PullsTrained(Resumed(c, w.live.value, keep)))
     && NoSaveExposes(c, Step(c, w, evs[0]), evs[1..]))
  }

  /** Over whole runs with aligned saves: no save leaves a job that pulls a trained prompt
      again if and only if every save still records what was trained above its cut. */
  lemma {:induction false} NoSaveExposesIff(c: Settings, w: World, evs: seq<Event>)
    requires c.Valid() && OnceWorld(w) && Feasible(c, w, evs) && AlignedSaves(c, w, evs)
    ensures NoSaveExposes(c, w, evs) <==> RecordedSaves(c, w, evs)
    decreases |evs|
  {
    if evs != [] {
      var recorded := evs[0].TakeSnapshot? ==> RecordedSave(w.live.value);
      if evs[0].TakeSnapshot? {
        forall keep: Option<seq<bool>> | keep.Some? ==> |keep.value| == |w.live.value.buffer|
          ensures PullsTrained(Resumed(c, w.live.value, keep)) <==> !RecordedSave(w.live.value)
        {
          PullsTrainedIff(c, w.live.value, keep);
        }
        assert PullsTrained(Resumed(c, w.live.value, None)) <==> !RecordedSave(w.live.value);
      }
      if recorded {
        StepOnce(c, w, evs[0]);
        NoSaveExposesIff(c, Step(c, w, evs[0]), evs[1..]);
      }
    }
  }
}
