// What holds over whole runs of the asynchronous job, crashes and resumes included.
module AsyncTheorems {
  import opened Prelude
  import opened ReplayGroups
  import opened ReplayBuffers
  import opened AsyncResume
  import opened AsyncInvariant
  import opened AsyncOnce

  // ----- The cut -----

  lemma {:induction false} LowerToIs(bound: nat, gs: seq<Group>)
    ensures LowerTo(bound, gs) <= bound
    ensures forall g :: g in gs ==> LowerTo(bound, gs) <= g.ordinal
    ensures LowerTo(bound, gs) == bound || exists g :: g in gs && g.ordinal == LowerTo(bound, gs)
  {
    if gs != [] {
      LowerToIs(bound, gs[..|gs| - 1]);
      assert gs == gs[..|gs| - 1] + [gs[|gs| - 1]];
      assert gs[|gs| - 1] in gs;
    }
  }

  /** The cut is the greatest number that is at most the trained frontier and at most every
      ordinal in flight or buffered. */
  lemma CutIsGreatest(l: Live, n: nat)
    ensures n <= CutOf(l) <==>
            n <= l.frontier && forall g :: g in l.inflight || g in l.buffer ==> n <= g.ordinal
  {
    LowerToIs(l.frontier, l.inflight);
    LowerToIs(LowerTo(l.frontier, l.inflight), l.buffer);
  }

  lemma CutBounds(c: Settings, l: Live)
    requires Sound(c, l)
    ensures l.prunedBelow <= CutOf(l)
    ensures forall o: nat :: Bag(l.buffer)[o] > 0 || Bag(l.inflight)[o] > 0 ==> CutOf(l) <= o
  {
    forall g | g in l.inflight || g in l.buffer ensures l.prunedBelow <= g.ordinal {
      BagMember(l.inflight, g.ordinal);
      BagMember(l.buffer, g.ordinal);
      assert Free(l)[g.ordinal] > 0;
    }
    CutIsGreatest(l, l.prunedBelow);
    CutIsGreatest(l, CutOf(l));
    forall o: nat | Bag(l.buffer)[o] > 0 || Bag(l.inflight)[o] > 0 ensures CutOf(l) <= o {
      BagMember(l.inflight, o);
      BagMember(l.buffer, o);
    }
  }

  lemma PendingMember(ps: seq<Stamp>, o: nat)
    ensures StampBag(ps)[o] > 0 <==> exists p :: p in ps && p.ordinal == o
  {
    if StampBag(ps)[o] > 0 {
      assert o in StampOrdinals(ps);
      var i :| 0 <= i < |ps| && StampOrdinals(ps)[i] == o;
      assert ps[i] in ps;
    }
    if p :| p in ps && p.ordinal == o {
      var i :| 0 <= i < |ps| && ps[i] == p;
      assert StampOrdinals(ps)[i] == o;
      assert o in StampOrdinals(ps);
    }
  }

  /** The condition on a save, stated on the conservation law. */
  lemma NothingOwedIff(c: Settings, l: Live)
    requires Sound(c, l)
    ensures NothingOwedBelow(l, CutOf(l)) <==>
            forall o: nat :: Free(l)[o] > 0 || Ahead(l, o) ==> CutOf(l) <= o
  {
    CutBounds(c, l);
    forall o: nat ensures StampBag(l.pending)[o] > 0 <==> exists p :: p in l.pending && p.ordinal == o {
      PendingMember(l.pending, o);
    }
    if NothingOwedBelow(l, CutOf(l)) {
      forall o: nat | Free(l)[o] > 0 || Ahead(l, o) ensures CutOf(l) <= o {
        assert Free(l)[o] == Bag(l.buffer)[o] + Bag(l.inflight)[o] + StampBag(l.pending)[o];
      }
    }
    if forall o: nat :: Free(l)[o] > 0 || Ahead(l, o) ==> CutOf(l) <= o {
      forall p | p in l.pending ensures CutOf(l) <= p.ordinal {
        assert Free(l)[p.ordinal] > 0;
      }
      forall o | l.nextOrdinal <= o < CutOf(l) ensures !Survives(l.filter, l.covered, o) {
        assert !Ahead(l, o);
      }
    }
  }

  // ----- Saving -----

  lemma SnapshotSound(c: Settings, l: Live)
    requires Sound(c, l) && SafeSave(l)
    ensures Sound(c, SnapshotOf(l))
  {
    CutBounds(c, l);
    NothingOwedIff(c, l);
    CutIsGreatest(l, CutOf(l));
    var cut := CutOf(l);
    var l' := SnapshotOf(l);
    forall o: nat ensures Copies(l', o) == 1 && (Free(l')[o] > 0 || Ahead(l', o) ==> cut <= o) {
      assert Copies(l, o) == 1;
      assert Free(l') == Free(l) && Ahead(l', o) == Ahead(l, o);
    }
    var at := Newest(l.ring, cut).value;
    assert at in l.ring;
    forall o: nat
      ensures Bag(l.trained)[o] <= 1
      ensures o < cut ==> (Bag(l.trained)[o] > 0 <==> o !in l.failed)
    {
      assert Copies(l, o) == 1;
    }
  }

  lemma SavedBufferSound(c: Settings, l: Live)
    requires Sound(c, l) && l.saving.Some?
    ensures SavedSound(c, l.saving.value.(buffer := l.buffer))
    ensures Sound(c, l.(saving := None))
  {
    forall o: nat
      ensures Bag(l.buffer)[o] <= 1
      ensures Bag(l.buffer)[o] > 0 ==> l.prunedBelow <= o && Bag(l.trained)[o] == 0
    {
      assert Copies(l, o) == 1;
      assert Free(l)[o] >= Bag(l.buffer)[o];
    }
    var l' := l.(saving := None);
    forall o: nat ensures Copies(l', o) == 1 && (Free(l')[o] > 0 || Ahead(l', o) ==> l.prunedBelow <= o) {
      assert Copies(l, o) == 1;
      assert Ahead(l', o) == Ahead(l, o);
    }
  }

  // ----- Resuming -----

  lemma ResumeCopies(c: Settings, ck: Checkpoint, keep: Option<seq<bool>>, o: nat)
    requires SavedSound(c, ck)
    requires keep.Some? ==> |keep.value| == |ck.buffer|
    ensures Copies(ResumeOf(c, ck, keep), o) == 1
    ensures Free(ResumeOf(c, ck, keep))[o] > 0 || Ahead(ResumeOf(c, ck, keep), o) ==> ck.mark.value.cut <= o
  {
    var l := ResumeOf(c, ck, keep);
    StampBagEmpty();
    if keep.Some? {
      BagPick(ck.buffer, keep.value);
    }
    assert Bag(l.buffer)[o] <= Bag(ck.buffer)[o];
    OrdinalSetIff(l.buffer, o);
    assert Free(l)[o] == Bag(l.buffer)[o];
  }

  lemma ResumeSound(c: Settings, ck: Checkpoint, keep: Option<seq<bool>>)
    requires c.Valid() && SavedSound(c, ck)
    requires keep.Some? ==> |keep.value| == |ck.buffer|
    ensures Sound(c, ResumeOf(c, ck, keep))
  {
    var l := ResumeOf(c, ck, keep);
    forall o: nat ensures Copies(l, o) == 1 && (Free(l)[o] > 0 || Ahead(l, o) ==> l.prunedBelow <= o) {
      ResumeCopies(c, ck, keep, o);
    }
    forall t: nat ensures PerTarget(l.buffer, t) + PerTarget(l.inflight, t) <= c.promptsPerStep {
      assert PerTarget(ck.buffer, t) <= c.promptsPerStep;
      if keep.Some? {
        PickPerTarget(ck.buffer, keep.value, t);
      }
    }
  }

  lemma NewJobSound(c: Settings)
    requires c.Valid()
    ensures Sound(c, NewJob())
  {
    StampBagEmpty();
    forall o: nat ensures Copies(NewJob(), o) == 1 {
    }
  }

  // ----- One step -----

  lemma StepKeepsCut(c: Settings, l: Live, ev: Event)
    requires c.Valid() && Sound(c, l) && LiveEnabled(c, l, ev)
    requires ev.TakeSnapshot? ==> SafeSave(l)
    ensures l.prunedBelow <= LiveStep(c, l, ev).prunedBelow
  {
    CutBounds(c, l);
  }

  lemma LiveStepSound(c: Settings, l: Live, ev: Event)
    requires c.Valid() && Sound(c, l) && LiveEnabled(c, l, ev)
    requires ev.TakeSnapshot? ==> SafeSave(l)
    ensures Sound(c, LiveStep(c, l, ev))
  {
    match ev {
      case Yield(n) => YieldSound(c, l, n);
      case Dispatch(t) => DispatchSound(c, l, t);
      case Buffered(i) => BufferedSound(c, l, i);
      case WorkerFails(t) => FailSound(c, l, t);
      case Sample => SampleSound(c, l);
      case TakeSnapshot(_) => SnapshotSound(c, l);
      case SaveBuffer => SavedBufferSound(c, l);
    }
  }

  lemma StepSound(c: Settings, w: World, ev: Event)
    requires c.Valid() && WorldSound(c, w) && Enabled(c, w, ev)
    requires ev.TakeSnapshot? ==> SafeSave(w.live.value)
    ensures WorldSound(c, Step(c, w, ev))
    ensures w.saved.Some? ==>
              && Step(c, w, ev).saved.Some?
              && w.saved.value.mark.value.cut <= Step(c, w, ev).saved.value.mark.value.cut
  {
    if ev.Start? {
      NewJobSound(c);
    } else if ev.Resume? {
      ResumeSound(c, w.saved.value, ev.keep);
    } else if ev.SaveBuffer? {
      SavedBufferSound(c, w.live.value);
    } else if !ev.Crash? {
      LiveStepSound(c, w.live.value, ev);
      StepKeepsCut(c, w.live.value, ev);
    }
  }

  // ----- Whole runs -----

  lemma {:induction false} RunSound(c: Settings, w: World, evs: seq<Event>)
    requires c.Valid() && WorldSound(c, w) && Feasible(c, w, evs) && SafeSaves(c, w, evs)
    ensures WorldSound(c, After(c, w, evs))
    decreases |evs|
  {
    if evs != [] {
      StepSound(c, w, evs[0]);
      RunSound(c, Step(c, w, evs[0]), evs[1..]);
    }
  }

  /** A save with nothing owed below its cut keeps the cut above what was pruned. */
  lemma {:induction false} SafeSavesKeepTheCut(c: Settings, w: World, evs: seq<Event>)
    requires c.Valid() && WorldSound(c, w) && Feasible(c, w, evs) && SafeSaves(c, w, evs)
    ensures CutsKept(c, w, evs)
    decreases |evs|
  {
    if evs != [] {
      if evs[0].TakeSnapshot? {
        CutBounds(c, w.live.value);
      }
      StepSound(c, w, evs[0]);
      SafeSavesKeepTheCut(c, Step(c, w, evs[0]), evs[1..]);
    }
  }

  /** Exactly-once training: over every run whose saves are safe, a prompt that is neither
      outstanding, nor ahead, nor lost to a tolerated failure has contributed to the weights
      once, and no prompt has contributed more often. */
  lemma ExactlyOnce(c: Settings, evs: seq<Event>, o: nat)
    requires c.Valid() && Feasible(c, INITIAL, evs) && SafeSaves(c, INITIAL, evs)
    requires After(c, INITIAL, evs).live.Some?
    ensures
      var l := After(c, INITIAL, evs).live.value;
      TimesTrained(l.trained, o) == if Free(l)[o] > 0 || Ahead(l, o) || o in l.failed then 0 else 1
  {
    RunSound(c, INITIAL, evs);
    var l := After(c, INITIAL, evs).live.value;
    assert Copies(l, o) == 1;
    TimesTrainedIsBag(l.trained, o);
  }

  /** No prompt is lost: over every run whose saves are safe, every position of the stream
      is in exactly one of six places: trained, buffered, in flight, pending, lost to a
      tolerated failure, or still to be yielded. */
  lemma NothingIsLost(c: Settings, evs: seq<Event>, o: nat)
    requires c.Valid() && Feasible(c, INITIAL, evs) && SafeSaves(c, INITIAL, evs)
    requires After(c, INITIAL, evs).live.Some?
    ensures
      var l := After(c, INITIAL, evs).live.value;
      Bag(l.trained)[o] + Bag(l.buffer)[o] + Bag(l.inflight)[o] + StampBag(l.pending)[o]
      + (if o in l.failed then 1 else 0) + (if Ahead(l, o) then 1 else 0) == 1
  {
    RunSound(c, INITIAL, evs);
    var l := After(c, INITIAL, evs).live.value;
    assert Copies(l, o) == 1;
    assert Free(l)[o] == Bag(l.buffer)[o] + Bag(l.inflight)[o] + StampBag(l.pending)[o];
  }

  /** The saved cut never decreases, across saves, crashes and resumes. */
  lemma {:induction false} CutNeverDecreases(c: Settings, w: World, evs: seq<Event>)
    requires c.Valid() && WorldSound(c, w) && w.saved.Some?
    requires Feasible(c, w, evs) && SafeSaves(c, w, evs)
    ensures
      var w' := After(c, w, evs);
      w'.saved.Some? && w'.saved.value.mark.Some? &&
      w.saved.value.mark.value.cut <= w'.saved.value.mark.value.cut
    decreases |evs|
  {
    if evs != [] {
      StepSound(c, w, evs[0]);
      CutNeverDecreases(c, Step(c, w, evs[0]), evs[1..]);
    }
  }

  /** The three pieces of metadata in a checkpoint decide exactly as the full history
      would: a prompt that is not a tolerated failure is skipped on resume if and only if
      it has been trained or is retained. */
  lemma SkipDecisionIsHistory(c: Settings, evs: seq<Event>, keep: seq<bool>, o: nat)
    requires c.Valid() && Feasible(c, INITIAL, evs) && SafeSaves(c, INITIAL, evs)
    requires
      var w := After(c, INITIAL, evs);
      w.saved.Some? && |keep| == |w.saved.value.buffer| && o !in w.saved.value.failed
    ensures
      var ck := After(c, INITIAL, evs).saved.value;
      ck.mark.Some? &&
      var retained := Pick(ck.buffer, keep);
      (o < ck.mark.value.cut || o in OrdinalSet(retained) + ck.mark.value.trainedAbove) <==>
      (Bag(ck.trained)[o] > 0 || Bag(retained)[o] > 0)
  {
    RunSound(c, INITIAL, evs);
    var ck := After(c, INITIAL, evs).saved.value;
    OrdinalSetIff(Pick(ck.buffer, keep), o);
  }

  /** From `l` to `l'` the job trained on exactly `items`, a full step's worth of groups that
      were meant for this step and are inside the age window. */
  ghost predicate TrainedOn(c: Settings, l: Live, l': Live, items: seq<Group>) {
    && l'.trained == l.trained + items && |items| == c.promptsPerStep && l'.step == l.step + 1
    && forall g :: g in items ==> g.target == l.step && g.version <= l.step <= g.version + c.maxAge
  }

  /** Every training step of such a run consumes exactly `promptsPerStep` groups, all meant
      for this step and inside the age window, and no call of `sample` evicts anything. */
  lemma EveryStepIsFull(c: Settings, evs: seq<Event>)
    requires c.Valid() && Feasible(c, INITIAL, evs) && SafeSaves(c, INITIAL, evs)
    requires
      var w := After(c, INITIAL, evs);
      w.live.Some? && LiveEnabled(c, w.live.value, Sample)
    ensures
      var l := After(c, INITIAL, evs).live.value;
      var l' := SampleStep(c, l);
      l'.failed == l.failed && (l' == l || exists items: seq<Group> :: TrainedOn(c, l, l', items))
  {
    RunSound(c, INITIAL, evs);
    var l := After(c, INITIAL, evs).live.value;
    NothingAgedOut(c, l);
    assert OrdinalSet(Matching(l.buffer, AgedOut(l.step, c.maxAge))) == {};
    if SampleOf(l.buffer, c.promptsPerStep, l.step, c.maxAge).taken.Some? {
      SampleTakesDue(c, l);
    } else {
      assert SampleStep(c, l) == l;
    }
  }

  lemma SampleTakesDue(c: Settings, l: Live)
    requires c.Valid() && Sound(c, l)
    requires SampleOf(l.buffer, c.promptsPerStep, l.step, c.maxAge).taken.Some?
    ensures TrainedOn(c, l, SampleStep(c, l), SampleOf(l.buffer, c.promptsPerStep, l.step, c.maxAge).taken.value)
  {
    NothingAgedOut(c, l);
    var due := Matching(l.buffer, Due(l.step));
    MatchingIff(l.buffer, Due(l.step));
    assert forall g :: g in due[..c.promptsPerStep] ==> g in due;
  }

  // ----- When a save is safe -----

  /** After resuming from `ck`, `o` is in the weights, retained, or will be yielded again. */
  predicate Recovered(c: Settings, ck: Checkpoint, keep: seq<bool>, o: nat)
    requires |keep| == |ck.buffer|
  {
    var l := ResumeOf(c, ck, Some(keep));
    Bag(l.trained)[o] > 0 || Bag(l.buffer)[o] > 0 || Ahead(l, o)
  }

  lemma SafeRecovers(c: Settings, l: Live, keep: seq<bool>, o: nat)
    requires c.Valid() && Sound(c, l) && SafeSave(l) && |keep| == |l.buffer|
    requires o !in l.failed
    ensures Recovered(c, SnapshotOf(l).saving.value.(buffer := l.buffer), keep, o)
  {
    SnapshotSound(c, l);
    SavedBufferSound(c, SnapshotOf(l));
    var ck := SnapshotOf(l).saving.value.(buffer := l.buffer);
    ResumeCopies(c, ck, Some(keep), o);
    StampBagEmpty();
    var r := ResumeOf(c, ck, Some(keep));
    assert Free(r)[o] == Bag(r.buffer)[o];
  }

  lemma OwedIsDropped(c: Settings, l: Live, keep: seq<bool>, o: nat)
    requires c.Valid() && Sound(c, l) && SaveAligned(l) && |keep| == |l.buffer|
    requires (Free(l)[o] > 0 || Ahead(l, o)) && o < CutOf(l)
    ensures o !in l.failed && !Recovered(c, SnapshotOf(l).saving.value.(buffer := l.buffer), keep, o)
  {
    assert Copies(l, o) == 1;
    CutBounds(c, l);
    BagPick(l.buffer, keep);
    assert Bag(l.buffer)[o] == 0;
    assert Bag(Pick(l.buffer, keep))[o] == 0;
  }

  /** The exact condition: an aligned save recovers every prompt that is not a tolerated
      failure, whichever part of the buffer is retained, if and only if nothing the
      collector still owes lies below the cut. */
  lemma SafeIffRecoverable(c: Settings, l: Live, keep: seq<bool>)
    requires c.Valid() && Sound(c, l) && SaveAligned(l) && |keep| == |l.buffer|
    ensures
      var ck := SnapshotOf(l).saving.value.(buffer := l.buffer);
      (forall o: nat :: o in l.failed || Recovered(c, ck, keep, o)) <==> NothingOwedBelow(l, CutOf(l))
  {
    var ck := SnapshotOf(l).saving.value.(buffer := l.buffer);
    NothingOwedIff(c, l);
    if NothingOwedBelow(l, CutOf(l)) {
      forall o: nat | o !in l.failed ensures Recovered(c, ck, keep, o) {
        SafeRecovers(c, l, keep, o);
      }
    } else {
      var o: nat :| (Free(l)[o] > 0 || Ahead(l, o)) && o < CutOf(l);
      OwedIsDropped(c, l, keep, o);
    }
  }
}
