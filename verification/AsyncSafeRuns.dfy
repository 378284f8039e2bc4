// Runs whose saves are safe without looking at what the collector owes: those that never
// carry buffered groups across a restart.
module AsyncSafeRuns {
  import opened Prelude
  import opened ReplayGroups
  import opened ReplayBuffers
  import opened AsyncResume
  import opened AsyncInvariant
  import opened AsyncOnce
  import opened AsyncTheorems

  /** No restart restores the replay buffer, and every save finds a snapshot to align with. */
  predicate PlainRun(c: Settings, w: World, evs: seq<Event>)
    requires c.Valid() && Feasible(c, w, evs)
    decreases |evs|
  {
    evs == [] ||
    (&& (evs[0].Resume? ==> evs[0].keep.None?)
     && (evs[0].TakeSnapshot? ==> SaveAligned(w.live.value))
     && PlainRun(c, Step(c, w, evs[0]), evs[1..]))
  }

  ghost predicate Ascends(ps: seq<Stamp>) {
    forall i, j :: 0 <= i < j < |ps| ==> ps[i].ordinal < ps[j].ordinal
  }

  /** Prompts are sent out in stream order, so what is out or buffered precedes what is
      pending, and the trained frontier precedes everything still owed. */
  ghost predicate InOrder(l: Live) {
    && Ascends(l.pending)
    && (forall p :: p in l.pending ==> l.frontier <= p.ordinal < l.nextOrdinal)
    && (forall g, p :: g in l.buffer && p in l.pending ==> g.ordinal < p.ordinal)
    && (forall g, p :: g in l.inflight && p in l.pending ==> g.ordinal < p.ordinal)
    && (forall g :: g in l.buffer ==> g.ordinal < l.nextOrdinal)
    && (forall g :: g in l.inflight ==> g.ordinal < l.nextOrdinal)
    && (forall o: nat :: Ahead(l, o) ==> l.frontier <= o)
  }

  ghost predicate Orderly(c: Settings, l: Live) {
    Sound(c, l) && InOrder(l)
  }

  ghost predicate WorldOrderly(c: Settings, w: World) {
    WorldSound(c, w) && (w.live.Some? ==> Orderly(c, w.live.value))
  }

  lemma OrderlySavesAreSafe(c: Settings, l: Live)
    requires Orderly(c, l) && SaveAligned(l)
    ensures SafeSave(l)
  {
    CutIsGreatest(l, CutOf(l));
    forall o | l.nextOrdinal <= o < CutOf(l) ensures !Survives(l.filter, l.covered, o) {
      assert Ahead(l, o) ==> l.frontier <= o;
    }
  }

  lemma {:induction false} SurvivorsAscend(filter: Option<nat>, covered: set<nat>, ps: seq<Stamp>)
    requires Ascends(ps)
    ensures Ascends(Survivors(filter, covered, ps))
    ensures forall p :: p in Survivors(filter, covered, ps) ==> p in ps && Survives(filter, covered, p.ordinal)
  {
    if ps != [] {
      var k := |ps| - 1;
      SurvivorsAscend(filter, covered, ps[..k]);
      var head := Survivors(filter, covered, ps[..k]);
      forall i | 0 <= i < |head| ensures head[i].ordinal < ps[k].ordinal {
        assert head[i] in ps[..k];
      }
    }
  }

  lemma YieldInOrder(c: Settings, l: Live, n: nat)
    requires c.Valid() && l.pending == [] && n >= 1 && InOrder(l)
    ensures InOrder(YieldOf(c, l, n))
  {
    var l' := YieldOf(c, l, n);
    var stamps := NewStamps(l, n);
    SurvivorsAscend(l.filter, l.covered, stamps);
    forall p | p in l'.pending ensures l.frontier <= p.ordinal < l'.nextOrdinal && l.nextOrdinal <= p.ordinal {
      assert p in stamps;
      assert Ahead(l, p.ordinal);
    }
    forall o: nat | Ahead(l', o) ensures l.frontier <= o {
      assert Ahead(l, o);
    }
  }

  /** The prompts sent out precede the ones that stay pending. */
  lemma SentPrecede(ps: seq<Stamp>, n: nat, v: nat, t: nat)
    requires Ascends(ps) && n <= |ps|
    ensures Ascends(ps[n..])
    ensures forall g, p :: g in Launch(ps[..n], v, t) && p in ps[n..] ==> g.ordinal < p.ordinal
    ensures forall g :: g in Launch(ps[..n], v, t) ==> exists p :: p in ps && p.ordinal == g.ordinal
  {
    var sent := Launch(ps[..n], v, t);
    forall g, p | g in sent && p in ps[n..] ensures g.ordinal < p.ordinal {
      var i :| 0 <= i < n && sent[i] == g;
      var j :| 0 <= j < |ps[n..]| && ps[n..][j] == p;
      assert ps[i].ordinal < ps[n + j].ordinal;
    }
    forall g | g in sent ensures exists p :: p in ps && p.ordinal == g.ordinal {
      var i :| 0 <= i < n && sent[i] == g;
      assert ps[i] in ps;
    }
  }

  lemma DispatchInOrder(c: Settings, l: Live, t: nat)
    requires InOrder(l)
    ensures InOrder(DispatchOf(c, l, t))
  {
    var n := if |l.pending| < NeededFor(c, l, t) then |l.pending| else NeededFor(c, l, t);
    SentPrecede(l.pending, n, l.step, t);
    var l' := DispatchOf(c, l, t);
    assert forall p :: p in l'.pending ==> p in l.pending;
    assert forall o: nat :: Ahead(l', o) ==> Ahead(l, o);
  }

  lemma SampleInOrder(c: Settings, l: Live)
    requires c.Valid() && Sound(c, l) && InOrder(l)
    ensures InOrder(SampleStep(c, l))
  {
    NothingAgedOut(c, l);
    var s := SampleOf(l.buffer, c.promptsPerStep, l.step, c.maxAge);
    var l' := SampleStep(c, l);
    assert forall o: nat :: Ahead(l', o) == Ahead(l, o);
    match s.taken {
      case None =>
      case Some(items) =>
        MatchingIff(l.buffer, Due(l.step));
        assert forall g :: g in items ==> g in Matching(l.buffer, Due(l.step));
        DropFirstWithin(l.buffer, Due(l.step), c.promptsPerStep);
        RaiseToAbove(l.frontier, items);
        assert forall o: nat :: Ahead(l', o) ==> l.nextOrdinal <= o && l.frontier <= o;
    }
  }

  lemma StepInOrder(c: Settings, l: Live, ev: Event)
    requires c.Valid() && Sound(c, l) && InOrder(l) && LiveEnabled(c, l, ev)
    ensures InOrder(LiveStep(c, l, ev))
  {
    var l' := LiveStep(c, l, ev);
    if ev.Yield? {
      YieldInOrder(c, l, ev.n);
    } else if ev.Dispatch? {
      DispatchInOrder(c, l, ev.target);
    } else if ev.Sample? {
      SampleInOrder(c, l);
    } else {
      assert forall o: nat :: Ahead(l', o) == Ahead(l, o);
      if ev.WorkerFails? {
        DropFirstWithin(l.inflight, Aims(ev.target), |l.inflight|);
      } else if ev.Buffered? {
        assert l.inflight[ev.i] in l.inflight;
        assert forall g :: g in l'.inflight ==> g in l.inflight;
      }
    }
  }

  lemma RestartOrderly(c: Settings, ck: Checkpoint)
    requires c.Valid() && SavedSound(c, ck)
    ensures Orderly(c, ResumeOf(c, ck, None))
  {
    ResumeSound(c, ck, None);
    assert forall o: nat :: Ahead(ResumeOf(c, ck, None), o) ==> ck.mark.value.cut <= o;
  }

  lemma StepOrderly(c: Settings, w: World, ev: Event)
    requires c.Valid() && WorldOrderly(c, w) && Enabled(c, w, ev)
    requires ev.Resume? ==> ev.keep.None?
    requires ev.TakeSnapshot? ==> SafeSave(w.live.value)
    ensures WorldOrderly(c, Step(c, w, ev))
  {
    StepSound(c, w, ev);
    if ev.Resume? {
      RestartOrderly(c, w.saved.value);
    } else if !ev.Start? && !ev.Crash? {
      StepInOrder(c, w.live.value, ev);
    }
  }

  lemma {:induction false} PlainRunSafe(c: Settings, w: World, evs: seq<Event>)
    requires c.Valid() && WorldOrderly(c, w) && Feasible(c, w, evs) && PlainRun(c, w, evs)
    ensures SafeSaves(c, w, evs)
    decreases |evs|
  {
    if evs != [] {
      if evs[0].TakeSnapshot? {
        OrderlySavesAreSafe(c, w.live.value);
      }
      StepOrderly(c, w, evs[0]);
      PlainRunSafe(c, Step(c, w, evs[0]), evs[1..]);
    }
  }

  /** With `load_replay_buffer` off, both promises hold with no condition on the
      collector: no prompt is trained twice, and every prompt is in exactly one place. */
  lemma PlainRunsKeepTheirPromise(c: Settings, evs: seq<Event>, o: nat)
    requires c.Valid() && Feasible(c, INITIAL, evs) && PlainRun(c, INITIAL, evs)
    requires After(c, INITIAL, evs).live.Some?
    ensures
      var l := After(c, INITIAL, evs).live.value;
      && TimesTrained(l.trained, o) <= 1
      && Copies(l, o) == 1
  {
    PlainRunSafe(c, INITIAL, evs);
    RunSound(c, INITIAL, evs);
    var l := After(c, INITIAL, evs).live.value;
    assert Copies(l, o) == 1;
    TimesTrainedIsBag(l.trained, o);
  }

  // ----- When a save finds a snapshot -----

  /** Until it wraps around, the ring still holds the first snapshot of the job. */
  ghost predicate RingAnchored(c: Settings, l: Live) {
    && (l.ring == [] ==> l.nextOrdinal <= l.prunedBelow)
    && (0 < |l.ring| < c.ringSize ==> l.ring[0].base <= l.prunedBelow)
  }

  /** While the ring holds the first snapshot of the job, a save never falls back. */
  lemma AnchoredSavesAlign(c: Settings, l: Live)
    requires Sound(c, l) && RingAnchored(c, l) && 1 <= |l.ring| < c.ringSize
    ensures SaveAligned(l)
  {
    CutBounds(c, l);
    assert l.ring[0] in l.ring;
  }

  lemma StepAnchored(c: Settings, l: Live, ev: Event)
    requires c.Valid() && Sound(c, l) && RingAnchored(c, l) && LiveEnabled(c, l, ev)
    requires ev.TakeSnapshot? ==> SafeSave(l)
    ensures RingAnchored(c, LiveStep(c, l, ev))
  {
    StepKeepsCut(c, l, ev);
  }

  /** Runs that restore no buffer and save only after the first pull of a job and before its
      ring is full. */
  predicate EarlyRun(c: Settings, w: World, evs: seq<Event>)
    requires c.Valid() && Feasible(c, w, evs)
    decreases |evs|
  {
    evs == [] ||
    (&& (evs[0].Resume? ==> evs[0].keep.None?)
     && (evs[0].TakeSnapshot? ==> 1 <= |w.live.value.ring| < c.ringSize)
     && EarlyRun(c, Step(c, w, evs[0]), evs[1..]))
  }

  /** Every save of such a run finds its snapshot. */
  lemma {:induction false} EarlyRunsArePlain(c: Settings, w: World, evs: seq<Event>)
    requires c.Valid() && WorldOrderly(c, w) && (w.live.Some? ==> RingAnchored(c, w.live.value))
    requires Feasible(c, w, evs) && EarlyRun(c, w, evs)
    ensures PlainRun(c, w, evs)
    decreases |evs|
  {
    if evs != [] {
      var ev := evs[0];
      if ev.TakeSnapshot? {
        AnchoredSavesAlign(c, w.live.value);
        OrderlySavesAreSafe(c, w.live.value);
      }
      if !ev.Start? && !ev.Crash? && !ev.Resume? {
        StepAnchored(c, w.live.value, ev);
      }
      StepOrderly(c, w, ev);
      EarlyRunsArePlain(c, Step(c, w, ev), evs[1..]);
    }
  }

  // ----- Saves that fall back to the live cursor -----

  /** After a fallback save the resumed job pulls some prompt that is already in the weights
      if and only if a trained prompt lies at or beyond the live cursor. */
  lemma FallbackRetrainsIff(c: Settings, l: Live, held: bool, keep: Option<seq<bool>>)
    requires c.Valid() && Sound(c, l) && !SaveAligned(l)
    requires keep.Some? ==> |keep.value| == |l.buffer|
    ensures
      var r := ResumeOf(c, SnapshotWith(l, held).saving.value.(buffer := l.buffer), keep);
      (exists n: nat, p :: p in NewStamps(r, n) && TimesTrained(r.trained, p.prompt) > 0) <==>
      (exists g :: g in l.trained && l.loader <= g.prompt)
  {
    var r := ResumeOf(c, SnapshotWith(l, held).saving.value.(buffer := l.buffer), keep);
    assert r.loader == l.loader && r.trained == l.trained;
    if n: nat, p :| p in NewStamps(r, n) && TimesTrained(r.trained, p.prompt) > 0 {
      TimesTrainedIsBag(l.trained, p.prompt);
      BagMember(l.trained, p.prompt);
      var g :| g in l.trained && g.ordinal == p.prompt;
      assert l.loader <= g.prompt;
    }
    if g :| g in l.trained && l.loader <= g.prompt {
      TimesTrainedIsBag(l.trained, g.prompt);
      BagMember(l.trained, g.prompt);
      var n: nat := g.prompt - l.loader + 1;
      var p := NewStamps(r, n)[n - 1];
      assert p in NewStamps(r, n) && p.prompt == g.prompt;
    }
  }
}
