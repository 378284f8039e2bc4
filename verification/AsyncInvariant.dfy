// The conservation law of the asynchronous job and its preservation by every step.
module AsyncInvariant {
  import opened Prelude
  import opened ReplayGroups
  import opened ReplayBuffers
  import opened AsyncResume

  /** The ordinals in the buffer, out with a worker, or pending in the collector. */
  function Free(l: Live): multiset<nat> {
    Bag(l.buffer) + Bag(l.inflight) + StampBag(l.pending)
  }

  /** Where the copies of an ordinal are: in the weights, free, lost to a tolerated failure,
      or still ahead in the stream. */
  function Copies(l: Live, o: nat): nat {
    Bag(l.trained)[o] + Free(l)[o] + (if o in l.failed then 1 else 0) + (if Ahead(l, o) then 1 else 0)
  }

  ghost predicate Conserved(l: Live) {
    forall o: nat :: Copies(l, o) == 1
  }

  /** Stamps are stream positions. */
  ghost predicate Stamped(l: Live) {
    && l.aligned && l.loader == l.nextOrdinal
    && (forall s :: s in l.ring ==> s.base == s.loader && s.base <= l.nextOrdinal)
    && (forall p :: p in l.pending ==> p.ordinal == p.prompt)
    && (forall g :: g in l.trained ==> g.ordinal == g.prompt)
    && (forall g :: g in l.buffer ==> g.ordinal == g.prompt)
    && (forall g :: g in l.inflight ==> g.ordinal == g.prompt)
  }

  /** `recent` is exactly the trained set from the pruning bound upwards. */
  ghost predicate Remembered(l: Live) {
    && (forall o: nat :: Bag(l.trained)[o] > 0 && l.prunedBelow <= o ==> o in l.recent)
    && (forall o :: o in l.recent ==> Bag(l.trained)[o] > 0)
    && l.prunedBelow <= l.frontier
  }

  /** Nothing that can still be trained lies below the pruning bound. */
  ghost predicate Outstanding(l: Live) {
    forall o: nat :: Free(l)[o] > 0 || Ahead(l, o) ==> l.prunedBelow <= o
  }

  ghost predicate InTime(gs: seq<Group>, step: nat, maxAge: nat) {
    forall g :: g in gs ==> g.version <= step <= g.target <= g.version + maxAge
  }

  ghost predicate Scheduled(c: Settings, l: Live) {
    && InTime(l.buffer, l.step, c.maxAge)
    && InTime(l.inflight, l.step, c.maxAge)
    && (forall t: nat :: PerTarget(l.buffer, t) + PerTarget(l.inflight, t) <= c.promptsPerStep)
    && l.first <= l.step
  }

  /** A frontier mark accounts for every ordinal below its cut and for every trained one
      above it. */
  ghost predicate MarkSound(ck: Checkpoint) {
    && ck.mark.Some?
    && var m := ck.mark.value;
    && ck.loader == m.base && m.base <= m.cut
    && (forall g :: g in ck.trained ==> g.ordinal == g.prompt)
    && (forall o: nat :: Bag(ck.trained)[o] <= 1)
    && (forall o: nat :: o < m.cut ==> (Bag(ck.trained)[o] > 0 <==> o !in ck.failed))
    && (forall o: nat :: o in m.trainedAbove <==> m.cut <= o && Bag(ck.trained)[o] > 0)
  }

  ghost predicate SavedSound(c: Settings, ck: Checkpoint) {
    && MarkSound(ck)
    && (forall o: nat :: Bag(ck.buffer)[o] <= 1)
    && (forall o: nat :: Bag(ck.buffer)[o] > 0 ==> ck.mark.value.cut <= o && Bag(ck.trained)[o] == 0)
    && (forall g :: g in ck.buffer ==> g.ordinal == g.prompt)
    && InTime(ck.buffer, ck.step, c.maxAge)
    && (forall t: nat :: PerTarget(ck.buffer, t) <= c.promptsPerStep)
  }

  ghost predicate SavingSound(l: Live) {
    l.saving.Some? ==>
      && MarkSound(l.saving.value)
      && l.saving.value.step == l.step && l.saving.value.trained == l.trained
      && l.saving.value.mark.value.cut == l.prunedBelow
  }

  ghost predicate Sound(c: Settings, l: Live) {
    && Conserved(l) && Stamped(l) && Remembered(l) && Outstanding(l)
    && Scheduled(c, l) && SavingSound(l)
  }

  ghost predicate WorldSound(c: Settings, w: World) {
    && (w.live.Some? ==> Sound(c, w.live.value))
    && (w.saved.Some? ==> SavedSound(c, w.saved.value))
    && (w.live.Some? && w.saved.Some? ==> w.saved.value.mark.value.cut <= w.live.value.prunedBelow)
  }

  // ----- Bags of stamps -----

  lemma StampBagAppend(a: seq<Stamp>, b: seq<Stamp>)
    ensures StampBag(a + b) == StampBag(a) + StampBag(b)
  {
    assert StampOrdinals(a + b) == StampOrdinals(a) + StampOrdinals(b);
  }

  lemma {:induction false} SurvivorBag(filter: Option<nat>, covered: set<nat>, ps: seq<Stamp>, o: nat)
    ensures StampBag(Survivors(filter, covered, ps))[o] == if Survives(filter, covered, o) then StampBag(ps)[o] else 0
  {
    if ps == [] {
      assert StampOrdinals(Survivors(filter, covered, ps)) == [];
      assert StampOrdinals(ps) == [];
    } else {
      var k := |ps| - 1;
      SurvivorBag(filter, covered, ps[..k], o);
      assert ps == ps[..k] + [ps[k]];
      StampBagAppend(ps[..k], [ps[k]]);
      assert StampOrdinals([ps[k]]) == [ps[k].ordinal];
      if Survives(filter, covered, ps[k].ordinal) {
        StampBagAppend(Survivors(filter, covered, ps[..k]), [ps[k]]);
      } else {
        assert Survivors(filter, covered, ps) == Survivors(filter, covered, ps[..k]);
      }
    }
  }

  lemma {:induction false} SurvivorsWithin(filter: Option<nat>, covered: set<nat>, ps: seq<Stamp>)
    ensures forall p :: p in Survivors(filter, covered, ps) ==> p in ps
  {
    if ps != [] {
      SurvivorsWithin(filter, covered, ps[..|ps| - 1]);
    }
  }

  lemma {:induction false} NewStampBag(l: Live, n: nat, o: nat)
    ensures StampBag(NewStamps(l, n))[o] == if l.nextOrdinal <= o < l.nextOrdinal + n then 1 else 0
  {
    if n == 0 {
      assert StampOrdinals(NewStamps(l, n)) == [];
    } else {
      NewStampBag(l, n - 1, o);
      var k: nat := l.nextOrdinal + n - 1;
      assert NewStamps(l, n) == NewStamps(l, n - 1) + [Stamp(k, l.loader + n - 1)];
      StampBagAppend(NewStamps(l, n - 1), [Stamp(k, l.loader + n - 1)]);
      assert StampOrdinals([Stamp(k, l.loader + n - 1)]) == [k];
    }
  }

  lemma StampBagEmpty()
    ensures StampBag([]) == multiset{} && Bag([]) == multiset{}
  {
    assert StampOrdinals([]) == [] && Ordinals([]) == [];
  }

  lemma LaunchBag(ps: seq<Stamp>, v: nat, t: nat)
    ensures Bag(Launch(ps, v, t)) == StampBag(ps)
  {
    assert Ordinals(Launch(ps, v, t)) == StampOrdinals(ps);
  }

  lemma OrdinalSetIff(gs: seq<Group>, o: nat)
    ensures o in OrdinalSet(gs) <==> Bag(gs)[o] > 0
  {
    BagMember(gs, o);
  }

  // ----- Yield -----

  lemma YieldCopies(c: Settings, l: Live, n: nat, o: nat)
    requires c.Valid() && l.pending == [] && n >= 1
    ensures Copies(YieldOf(c, l, n), o) == Copies(l, o)
    ensures Free(YieldOf(c, l, n))[o] > 0 || Ahead(YieldOf(c, l, n), o) ==> Free(l)[o] > 0 || Ahead(l, o)
  {
    YieldPending(c, l, n, o);
    YieldAhead(c, l, n, o);
    StampBagEmpty();
    assert Free(YieldOf(c, l, n))[o] == Free(l)[o] + StampBag(YieldOf(c, l, n).pending)[o];
  }

  lemma YieldPending(c: Settings, l: Live, n: nat, o: nat)
    requires c.Valid()
    ensures StampBag(YieldOf(c, l, n).pending)[o] == if Ahead(l, o) && o < l.nextOrdinal + n then 1 else 0
  {
    NewStampBag(l, n, o);
    if !PastHorizon(l) {
      SurvivorBag(l.filter, l.covered, NewStamps(l, n), o);
    }
  }

  lemma YieldAhead(c: Settings, l: Live, n: nat, o: nat)
    requires c.Valid()
    ensures Ahead(YieldOf(c, l, n), o) <==> Ahead(l, o) && l.nextOrdinal + n <= o
  {
  }

  lemma YieldSound(c: Settings, l: Live, n: nat)
    requires c.Valid() && Sound(c, l) && l.pending == [] && n >= 1
    ensures Sound(c, YieldOf(c, l, n))
  {
    var l' := YieldOf(c, l, n);
    forall o: nat ensures Copies(l', o) == 1 {
      YieldCopies(c, l, n, o);
    }
    forall o: nat | Free(l')[o] > 0 || Ahead(l', o) ensures l.prunedBelow <= o {
      YieldCopies(c, l, n, o);
    }
    SurvivorsWithin(l.filter, l.covered, NewStamps(l, n));
    forall p | p in l'.pending ensures p.ordinal == p.prompt {
      assert p in NewStamps(l, n);
    }
    assert Stamped(l');
  }

  // ----- Dispatch -----

  lemma {:induction false} CountIsPerTarget(gs: seq<Group>, t: nat, step: nat, maxAge: nat)
    requires InTime(gs, step, maxAge)
    ensures CountForTarget(gs, t, maxAge) == PerTarget(gs, t)
  {
    if gs != [] {
      CountIsPerTarget(gs[..|gs| - 1], t, step, maxAge);
      assert gs[|gs| - 1] in gs;
    }
  }

  lemma {:induction false} LaunchPerTarget(ps: seq<Stamp>, v: nat, t: nat, u: nat)
    ensures PerTarget(Launch(ps, v, t), u) == if t == u then |ps| else 0
  {
    if ps != [] {
      var k := |ps| - 1;
      LaunchPerTarget(ps[..k], v, t, u);
      assert Launch(ps, v, t)[..k] == Launch(ps[..k], v, t);
    }
  }

  lemma DispatchMoves(c: Settings, l: Live, t: nat)
    ensures Free(DispatchOf(c, l, t)) == Free(l)
  {
    var n := if |l.pending| < NeededFor(c, l, t) then |l.pending| else NeededFor(c, l, t);
    var sent, kept := l.pending[..n], l.pending[n..];
    assert l.pending == sent + kept;
    StampBagAppend(sent, kept);
    LaunchBag(sent, l.step, t);
    BagAppend(l.inflight, Launch(sent, l.step, t));
  }

  lemma DispatchCounts(c: Settings, l: Live, t: nat, u: nat)
    requires c.Valid() && Sound(c, l) && LiveEnabled(c, l, Dispatch(t))
    ensures PerTarget(l.buffer, u) + PerTarget(DispatchOf(c, l, t).inflight, u) <= c.promptsPerStep
  {
    var n := if |l.pending| < NeededFor(c, l, t) then |l.pending| else NeededFor(c, l, t);
    CountIsPerTarget(l.buffer, t, l.step, c.maxAge);
    MatchingAppend(l.inflight, Launch(l.pending[..n], l.step, t), Aims(u));
    LaunchPerTarget(l.pending[..n], l.step, t, u);
  }

  /** A step that only moves free ordinals around keeps the conservation law. */
  lemma MoveKeeps(l: Live, l': Live)
    requires Conserved(l) && Outstanding(l)
    requires Free(l') == Free(l) && l'.trained == l.trained && l'.failed == l.failed
    requires l'.nextOrdinal == l.nextOrdinal && l'.filter == l.filter && l'.covered == l.covered
    requires l'.prunedBelow == l.prunedBelow
    ensures Conserved(l') && Outstanding(l')
  {
    forall o: nat ensures Copies(l', o) == 1 && (Free(l')[o] > 0 || Ahead(l', o) ==> l.prunedBelow <= o) {
      assert Copies(l, o) == 1;
      assert Ahead(l', o) == Ahead(l, o);
    }
  }

  lemma DispatchSound(c: Settings, l: Live, t: nat)
    requires c.Valid() && Sound(c, l) && LiveEnabled(c, l, Dispatch(t))
    ensures Sound(c, DispatchOf(c, l, t))
  {
    DispatchMoves(c, l, t);
    MoveKeeps(l, DispatchOf(c, l, t));
    forall u: nat ensures PerTarget(l.buffer, u) + PerTarget(DispatchOf(c, l, t).inflight, u) <= c.promptsPerStep {
      DispatchCounts(c, l, t, u);
    }
  }

  // ----- A group reaches the buffer, or its worker fails -----

  lemma BufferedMoves(l: Live, i: nat)
    requires i < |l.inflight|
    ensures Bag(l.buffer + [l.inflight[i]]) + Bag(Pop(l.inflight, i)) == Bag(l.buffer) + Bag(l.inflight)
    ensures forall t: nat :: PerTarget(l.buffer + [l.inflight[i]], t) + PerTarget(Pop(l.inflight, i), t)
                     == PerTarget(l.buffer, t) + PerTarget(l.inflight, t)
  {
    var g := l.inflight[i];
    var a, b := l.inflight[..i], l.inflight[i + 1..];
    assert l.inflight == a + [g] + b;
    BagAppend(a + [g], b); BagAppend(a, [g]); BagAppend(a, b); BagAppend(l.buffer, [g]);
    forall t: nat
      ensures PerTarget(l.buffer + [g], t) + PerTarget(Pop(l.inflight, i), t)
              == PerTarget(l.buffer, t) + PerTarget(l.inflight, t)
    {
      MatchingAppend(a + [g], b, Aims(t)); MatchingAppend(a, [g], Aims(t));
      MatchingAppend(a, b, Aims(t)); MatchingAppend(l.buffer, [g], Aims(t));
    }
  }

  lemma BufferedSound(c: Settings, l: Live, i: nat)
    requires c.Valid() && Sound(c, l) && i < |l.inflight|
    ensures Sound(c, l.(inflight := Pop(l.inflight, i), buffer := l.buffer + [l.inflight[i]]))
  {
    var l' := l.(inflight := Pop(l.inflight, i), buffer := l.buffer + [l.inflight[i]]);
    BufferedMoves(l, i);
    assert Free(l') == Free(l);
    MoveKeeps(l, l');
    assert forall h :: h in l'.inflight ==> h in l.inflight;
    assert Scheduled(c, l') by {
      assert forall t: nat :: PerTarget(l.buffer, t) + PerTarget(l.inflight, t) <= c.promptsPerStep;
    }
  }

  lemma FailMoves(gs: seq<Group>, t: nat)
    ensures Bag(Matching(gs, Aims(t))) + Bag(Without(gs, Aims(t))) == Bag(gs)
  {
    var lost := Matching(gs, Aims(t));
    BagSplit(gs, Aims(t), |lost|);
    assert lost[..|lost|] == lost;
    DropFirstSaturates(gs, Aims(t), |lost|, |gs|);
  }

  /** Losing some free ordinals keeps the conservation law. */
  lemma LossKeeps(l: Live, l': Live, lost: seq<Group>)
    requires Conserved(l) && Outstanding(l)
    requires Free(l') + Bag(lost) == Free(l) && l'.trained == l.trained
    requires l'.failed == l.failed + OrdinalSet(lost)
    requires l'.nextOrdinal == l.nextOrdinal && l'.filter == l.filter && l'.covered == l.covered
    requires l'.prunedBelow == l.prunedBelow
    ensures Conserved(l') && Outstanding(l')
  {
    forall o: nat ensures Copies(l', o) == 1 && (Free(l')[o] > 0 || Ahead(l', o) ==> l.prunedBelow <= o) {
      assert Copies(l, o) == 1;
      OrdinalSetIff(lost, o);
      assert Free(l)[o] == Free(l')[o] + Bag(lost)[o];
      assert Ahead(l', o) == Ahead(l, o);
    }
  }

  lemma FailSound(c: Settings, l: Live, t: nat)
    requires c.Valid() && Sound(c, l) && LiveEnabled(c, l, WorkerFails(t))
    ensures Sound(c, LiveStep(c, l, WorkerFails(t)))
  {
    var l' := LiveStep(c, l, WorkerFails(t));
    FailMoves(l.inflight, t);
    LossKeeps(l, l', Matching(l.inflight, Aims(t)));
    DropFirstWithin(l.inflight, Aims(t), |l.inflight|);
    forall u: nat ensures PerTarget(l'.buffer, u) + PerTarget(l'.inflight, u) <= c.promptsPerStep {
      DropFirstPerTarget(l.inflight, Aims(t), |l.inflight|, u);
    }
  }

  // ----- Sample -----

  lemma {:induction false} RaiseToAbove(bound: nat, gs: seq<Group>)
    ensures bound <= RaiseTo(bound, gs)
    ensures forall g :: g in gs ==> g.ordinal < RaiseTo(bound, gs)
    ensures RaiseTo(bound, gs) == bound || exists g :: g in gs && RaiseTo(bound, gs) == g.ordinal + 1
  {
    if gs != [] {
      RaiseToAbove(bound, gs[..|gs| - 1]);
      assert gs == gs[..|gs| - 1] + [gs[|gs| - 1]];
      assert gs[|gs| - 1] in gs;
    }
  }

  /** Sampling evicts nothing in a sound state. */
  lemma NothingAgedOut(c: Settings, l: Live)
    requires Sound(c, l)
    ensures Matching(l.buffer, AgedOut(l.step, c.maxAge)) == []
    ensures Without(l.buffer, AgedOut(l.step, c.maxAge)) == l.buffer
  {
    NothingHolds(l.buffer, AgedOut(l.step, c.maxAge), |l.buffer|);
  }

  /** Training moves free ordinals into the weights. */
  lemma TrainMoves(l: Live, l': Live, items: seq<Group>)
    requires Conserved(l) && Outstanding(l) && Remembered(l)
    requires Free(l') + Bag(items) == Free(l) && l'.trained == l.trained + items
    requires l'.recent == l.recent + OrdinalSet(items) && l'.frontier == RaiseTo(l.frontier, items)
    requires l'.failed == l.failed
    requires l'.nextOrdinal == l.nextOrdinal && l'.filter == l.filter && l'.covered == l.covered
    requires l'.prunedBelow == l.prunedBelow
    ensures Conserved(l') && Outstanding(l') && Remembered(l')
  {
    BagAppend(l.trained, items);
    RaiseToAbove(l.frontier, items);
    forall o: nat
      ensures Copies(l', o) == 1 && (Free(l')[o] > 0 || Ahead(l', o) ==> l.prunedBelow <= o)
      ensures Bag(l'.trained)[o] > 0 && l.prunedBelow <= o ==> o in l'.recent
      ensures o in l'.recent ==> Bag(l'.trained)[o] > 0
    {
      assert Copies(l, o) == 1;
      OrdinalSetIff(items, o);
      assert Free(l)[o] == Free(l')[o] + Bag(items)[o];
      assert Bag(l'.trained)[o] == Bag(l.trained)[o] + Bag(items)[o];
      assert Ahead(l', o) == Ahead(l, o);
    }
  }

  lemma TrainSound(c: Settings, l: Live, items: seq<Group>, left: seq<Group>)
    requires c.Valid() && Sound(c, l) && l.saving.None?
    requires SampleOf(l.buffer, c.promptsPerStep, l.step, c.maxAge) == Sampled(Some(items), left)
    ensures Sound(c, SampleStep(c, l))
  {
    var rule := Due(l.step);
    var l' := SampleStep(c, l);
    TrainedStep(c, l, items, left);
    BagSplit(l.buffer, rule, c.promptsPerStep);
    assert Free(l') + Bag(items) == Free(l);
    TrainMoves(l, l', items);
    DropFirstWithin(l.buffer, rule, c.promptsPerStep);
    TrainSchedule(c, l);
    assert Stamped(l');
  }

  /** What a training step changes: it hands out due groups of the buffer and evicts none. */
  lemma TrainedStep(c: Settings, l: Live, items: seq<Group>, left: seq<Group>)
    requires c.Valid() && Sound(c, l)
    requires SampleOf(l.buffer, c.promptsPerStep, l.step, c.maxAge) == Sampled(Some(items), left)
    ensures c.promptsPerStep <= |Matching(l.buffer, Due(l.step))|
    ensures items == Matching(l.buffer, Due(l.step))[..c.promptsPerStep]
    ensures left == DropFirst(l.buffer, Due(l.step), c.promptsPerStep)
    ensures forall g :: g in items ==> g in l.buffer
    ensures var l' := SampleStep(c, l);
            l' == l.(buffer := left, trained := l.trained + items, frontier := RaiseTo(l.frontier, items),
                     recent := l.recent + OrdinalSet(items),
                     lastTarget := if l.lastTarget < l.step then l.step else l.lastTarget, step := l.step + 1)
  {
    NothingAgedOut(c, l);
    assert OrdinalSet(Matching(l.buffer, AgedOut(l.step, c.maxAge))) == {};
    FirstDueWithin(l.buffer, l.step, c.promptsPerStep);
  }

  lemma FirstDueWithin(gs: seq<Group>, step: nat, n: nat)
    requires n <= |Matching(gs, Due(step))|
    ensures forall g :: g in Matching(gs, Due(step))[..n] ==> g in gs
  {
    var due := Matching(gs, Due(step));
    MatchingIff(gs, Due(step));
    assert forall g :: g in due[..n] ==> g in due;
  }

  /** After a step has been trained nothing in the job is intended for it any more. */
  lemma TrainSchedule(c: Settings, l: Live)
    requires c.Valid() && Sound(c, l)
    requires c.promptsPerStep <= |Matching(l.buffer, Due(l.step))|
    ensures
      var left := DropFirst(l.buffer, Due(l.step), c.promptsPerStep);
      && InTime(left, l.step + 1, c.maxAge) && InTime(l.inflight, l.step + 1, c.maxAge)
      && forall t: nat :: PerTarget(left, t) + PerTarget(l.inflight, t) <= c.promptsPerStep
  {
    var n, w := c.promptsPerStep, l.step;
    var left := DropFirst(l.buffer, Due(w), n);
    DropFirstWithin(l.buffer, Due(w), n);
    DropDuePerTarget(l.buffer, w, n);
    assert PerTarget(left, w) == 0 && PerTarget(l.inflight, w) == 0;
    MatchingIff(left, Aims(w));
    MatchingIff(l.inflight, Aims(w));
    forall g | g in left ensures w < g.target {
      assert g in l.buffer;
      assert g !in Matching(left, Aims(w));
    }
    forall g | g in l.inflight ensures w < g.target {
      assert g !in Matching(l.inflight, Aims(w));
    }
    forall t: nat ensures PerTarget(left, t) + PerTarget(l.inflight, t) <= n {
      DropFirstPerTarget(l.buffer, Due(w), n, t);
    }
  }

  lemma SampleSound(c: Settings, l: Live)
    requires c.Valid() && Sound(c, l) && l.saving.None?
    ensures Sound(c, SampleStep(c, l))
  {
    NothingAgedOut(c, l);
    var s := SampleOf(l.buffer, c.promptsPerStep, l.step, c.maxAge);
    match s.taken {
      case None =>
        assert s.left == l.buffer;
        assert OrdinalSet(Matching(l.buffer, AgedOut(l.step, c.maxAge))) == {};
        assert SampleStep(c, l) == l;
      case Some(items) =>
        TrainSound(c, l, items, s.left);
    }
  }
}
