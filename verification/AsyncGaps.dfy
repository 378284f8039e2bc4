// Where the asynchronous job falls short of its promise: two concrete runs that train a
// prompt twice, one that loses a prompt.
module AsyncGaps {
  import opened Prelude
  import opened ReplayGroups
  import opened ReplayBuffers
  import opened AsyncResume
  import opened AsyncOnce
  import opened AsyncTheorems

  // ----- Reachability -----

  /** `w'` is reached by some run; `aligned` says whether every save of it was aligned. */
  ghost predicate Reaches(c: Settings, w: World, w': World, aligned: bool)
    requires c.Valid()
  {
    exists evs: seq<Event> ::
      Feasible(c, w, evs) && After(c, w, evs) == w' && AlignedSaves(c, w, evs) == aligned
  }

  lemma {:induction false} RunConcat(c: Settings, w: World, a: seq<Event>, b: seq<Event>)
    requires c.Valid() && Feasible(c, w, a) && Feasible(c, After(c, w, a), b)
    ensures Feasible(c, w, a + b) && After(c, w, a + b) == After(c, After(c, w, a), b)
    ensures AlignedSaves(c, w, a + b) <==> AlignedSaves(c, w, a) && AlignedSaves(c, After(c, w, a), b)
    decreases |a|
  {
    if a == [] {
      assert a + b == b;
    } else {
      RunConcat(c, Step(c, w, a[0]), a[1..], b);
      assert (a + b)[1..] == a[1..] + b;
    }
  }

  lemma ThenReaches(c: Settings, w: World, m: World, ev: Event, a: bool)
    requires c.Valid() && Reaches(c, w, m, a) && Enabled(c, m, ev)
    ensures Reaches(c, w, Step(c, m, ev), a && (ev.TakeSnapshot? ==> SaveAligned(m.live.value)))
  {
    var evs :| Feasible(c, w, evs) && After(c, w, evs) == m && AlignedSaves(c, w, evs) == a;
    var one := [ev];
    assert one[0] == ev && one[1..] == [];
    assert Feasible(c, m, one);
    assert After(c, m, one) == After(c, Step(c, m, ev), one[1..]);
    assert AlignedSaves(c, m, one) == (ev.TakeSnapshot? ==> SaveAligned(m.live.value));
    RunConcat(c, w, evs, one);
  }

  // ----- The moves of a job that handles one prompt at a time -----

  /** A ring of consecutive snapshots, one prompt apart. */
  function Ring(base: nat, n: nat): (r: seq<Snapshot>)
    ensures |r| == n && forall j :: 0 <= j < n ==> r[j] == Snapshot(base + j, base + j)
  {
    seq(n, j requires 0 <= j < n => Snapshot(base + j, base + j))
  }

  lemma {:induction false} NewestOfRing(base: nat, n: nat, cut: nat)
    requires n >= 1 && base <= cut
    ensures Newest(Ring(base, n), cut) ==
            var k := if cut - base < n then cut else base + n - 1; Some(Snapshot(k, k))
  {
    var r := Ring(base, n);
    assert r[..n - 1] == Ring(base, n - 1);
    if n == 1 {
      assert Newest(r[..0], cut) == None;
    } else {
      NewestOfRing(base, n - 1, cut);
    }
  }

  lemma RingGrows(base: nat, n: nat)
    ensures Ring(base, n) + [Snapshot(base + n, base + n)] == Ring(base, n + 1)
  {
  }

  predicate CanYield(c: Settings, l: Live) {
    l.pending == [] && |l.ring| < c.ringSize && Survives(l.filter, l.covered, l.nextOrdinal) && !PastHorizon(l)
  }

  function Yielded(l: Live): Live {
    l.(ring := l.ring + [Snapshot(l.nextOrdinal, l.loader)], nextOrdinal := l.nextOrdinal + 1, loader := l.loader + 1)
  }

  lemma YieldMove(c: Settings, w: World, s: Option<Checkpoint>, l: Live, a: bool)
    requires c.Valid() && Reaches(c, w, World(Some(l), s), a) && CanYield(c, l)
    ensures Reaches(c, w, World(Some(Yielded(l).(pending := [Stamp(l.nextOrdinal, l.loader)])), s), a)
  {
    ThenReaches(c, w, World(Some(l), s), Yield(1), a);
    var p := Stamp(l.nextOrdinal, l.loader);
    assert NewStamps(l, 1) == [p];
    assert [p][..0] == [];
    assert Survivors(l.filter, l.covered, [p]) == [p];
  }

  lemma DispatchMove(c: Settings, w: World, s: Option<Checkpoint>, l: Live, p: Stamp, t: nat, a: bool)
    requires c.Valid() && Reaches(c, w, World(Some(l), s), a)
    requires l.pending == [p] && LiveEnabled(c, l, Dispatch(t))
    ensures Reaches(c, w, World(Some(l.(pending := [],
              inflight := l.inflight + [Group(p.ordinal, p.prompt, l.step, t)])), s), a)
  {
    ThenReaches(c, w, World(Some(l), s), Dispatch(t), a);
    assert l.pending[..1] == [p] && l.pending[1..] == [];
    assert Launch([p], l.step, t) == [Group(p.ordinal, p.prompt, l.step, t)];
  }

  lemma BufferedMove(c: Settings, w: World, s: Option<Checkpoint>, l: Live, rest: seq<Group>, g: Group, a: bool)
    requires c.Valid() && Reaches(c, w, World(Some(l), s), a)
    requires l.inflight == rest + [g] && |l.buffer| < c.bufferSize
    ensures Reaches(c, w, World(Some(l.(inflight := rest, buffer := l.buffer + [g])), s), a)
  {
    ThenReaches(c, w, World(Some(l), s), Buffered(|rest|), a);
    assert Pop(l.inflight, |rest|) == rest;
  }

  function Fresh(l: Live, t: nat): Group {
    Group(l.nextOrdinal, l.loader, l.step, t)
  }

  /** Yield one prompt and send it out for step `t`. */
  lemma LaunchMove(c: Settings, w: World, s: Option<Checkpoint>, l: Live, t: nat, a: bool)
    requires c.Valid() && Reaches(c, w, World(Some(l), s), a) && CanYield(c, l)
    requires MayTarget(c, l, t) && l.lastTarget < t
    requires NoneFor(l.inflight, t) && NoneFor(l.buffer, t)
    ensures Reaches(c, w, World(Some(Yielded(l).(inflight := l.inflight + [Fresh(l, t)])), s), a)
  {
    YieldMove(c, w, s, l, a);
    NoneCounts(l.inflight, t, c.maxAge);
    NoneCounts(l.buffer, t, c.maxAge);
    var p := Stamp(l.nextOrdinal, l.loader);
    DispatchMove(c, w, s, Yielded(l).(pending := [p]), p, t, a);
  }

  /** Yield one prompt, generate it for step `t`, buffer it. */
  lemma GenerateMove(c: Settings, w: World, s: Option<Checkpoint>, l: Live, t: nat, a: bool)
    requires c.Valid() && Reaches(c, w, World(Some(l), s), a) && CanYield(c, l)
    requires MayTarget(c, l, t) && l.lastTarget < t && |l.buffer| < c.bufferSize
    requires NoneFor(l.inflight, t) && NoneFor(l.buffer, t)
    ensures Reaches(c, w, World(Some(Yielded(l).(buffer := l.buffer + [Fresh(l, t)])), s), a)
  {
    LaunchMove(c, w, s, l, t, a);
    BufferedMove(c, w, s, Yielded(l).(inflight := l.inflight + [Fresh(l, t)]), l.inflight, Fresh(l, t), a);
  }

  predicate NoneFor(gs: seq<Group>, t: nat) {
    forall g :: g in gs ==> g.target != t
  }

  lemma {:induction false} NoneCounts(gs: seq<Group>, t: nat, maxAge: nat)
    requires NoneFor(gs, t)
    ensures PerTarget(gs, t) == 0 && CountForTarget(gs, t, maxAge) == 0
  {
    if gs != [] {
      NoneCounts(gs[..|gs| - 1], t, maxAge);
      assert gs[|gs| - 1] in gs;
    }
  }

  lemma {:induction false} DropOnly(pre: seq<Group>, g: Group, post: seq<Group>, rule: Rule)
    requires rule.Holds(g) && (forall h :: h in pre ==> !rule.Holds(h)) && forall h :: h in post ==> !rule.Holds(h)
    ensures Matching(pre + [g] + post, rule) == [g]
    ensures DropFirst(pre + [g] + post, rule, 1) == pre + post
    decreases |post|
  {
    if post == [] {
      NothingHolds(pre, rule, 1);
      SnocRule(pre, g, rule, 1);
      assert pre + [g] + post == pre + [g] && pre + post == pre;
    } else {
      var init, last := post[..|post| - 1], post[|post| - 1];
      DropOnly(pre, g, init, rule);
      SnocRule(pre + [g] + init, last, rule, 1);
      assert pre + [g] + post == (pre + [g] + init) + [last] && pre + post == (pre + init) + [last];
    }
  }

  lemma NoneOfAppend(pre: seq<Group>, post: seq<Group>, t: nat)
    requires NoneFor(pre + post, t)
    ensures NoneFor(pre, t) && NoneFor(post, t)
  {
    assert forall h :: h in pre || h in post ==> h in pre + post;
  }

  lemma SampleOnly(pre: seq<Group>, g: Group, post: seq<Group>, w: nat, maxAge: nat)
    requires g.target == w && NoneFor(pre + post, w)
    requires forall h :: h in pre + [g] + post ==> h.version <= w <= h.version + maxAge
    ensures SampleOf(pre + [g] + post, 1, w, maxAge) == Sampled(Some([g]), pre + post)
    ensures Matching(pre + [g] + post, AgedOut(w, maxAge)) == []
  {
    var all := pre + [g] + post;
    NothingHolds(all, AgedOut(w, maxAge), |all|);
    assert g in all;
    MatchingIff(all, Usable(w));
    assert g in Matching(all, Usable(w));
    NoneOfAppend(pre, post, w);
    DropOnly(pre, g, post, Due(w));
    assert [g][..1] == [g];
  }

  /** Train on the one buffered group that is due. */
  lemma TrainMove(c: Settings, w: World, s: Option<Checkpoint>, l: Live, pre: seq<Group>, g: Group, post: seq<Group>,
                  a: bool)
    requires c.Valid() && Reaches(c, w, World(Some(l), s), a) && l.saving == None
    requires c.promptsPerStep == 1 && l.buffer == pre + [g] + post
    requires g.target == l.step && NoneFor(pre + post, l.step)
    requires forall h :: h in l.buffer ==> h.version <= l.step <= h.version + c.maxAge
    requires l.lastTarget < l.step
    ensures Reaches(c, w, World(Some(l.(buffer := pre + post, trained := l.trained + [g],
              frontier := if l.frontier < g.ordinal + 1 then g.ordinal + 1 else l.frontier,
              recent := l.recent + {g.ordinal}, lastTarget := l.step, step := l.step + 1)), s), a)
  {
    TrainStepIs(c, l, pre, g, post);
    ThenReaches(c, w, World(Some(l), s), Sample, a);
  }

  /** The same move, to a state given in full. */
  lemma TrainTo(c: Settings, w: World, s: Option<Checkpoint>, l: Live, pre: seq<Group>, g: Group, post: seq<Group>,
                l': Live, a: bool)
    requires c.Valid() && Reaches(c, w, World(Some(l), s), a) && l.saving == None
    requires c.promptsPerStep == 1 && l.buffer == pre + [g] + post
    requires g.target == l.step && NoneFor(pre + post, l.step)
    requires forall h :: h in l.buffer ==> h.version <= l.step <= h.version + c.maxAge
    requires l.lastTarget < l.step
    requires l'.buffer == pre + post && l'.trained == l.trained + [g] && l'.recent == l.recent + {g.ordinal}
    requires l'.frontier == (if l.frontier < g.ordinal + 1 then g.ordinal + 1 else l.frontier)
    requires l' == l.(buffer := l'.buffer, trained := l'.trained, frontier := l'.frontier, recent := l'.recent,
                      lastTarget := l.step, step := l.step + 1)
    ensures Reaches(c, w, World(Some(l'), s), a)
  {
    TrainMove(c, w, s, l, pre, g, post, a);
  }

  lemma TrainStepIs(c: Settings, l: Live, pre: seq<Group>, g: Group, post: seq<Group>)
    requires c.Valid() && c.promptsPerStep == 1 && l.buffer == pre + [g] + post
    requires g.target == l.step && NoneFor(pre + post, l.step)
    requires forall h :: h in l.buffer ==> h.version <= l.step <= h.version + c.maxAge
    requires l.lastTarget < l.step
    ensures SampleStep(c, l) == l.(buffer := pre + post, trained := l.trained + [g],
              frontier := if l.frontier < g.ordinal + 1 then g.ordinal + 1 else l.frontier,
              recent := l.recent + {g.ordinal}, lastTarget := l.step, step := l.step + 1)
  {
    SampleOnly(pre, g, post, l.step, c.maxAge);
    assert l.failed + OrdinalSet([]) == l.failed;
    assert OrdinalSet([g]) == {g.ordinal};
    assert [g][..0] == [];
    assert RaiseTo(l.frontier, [g]) == if l.frontier < g.ordinal + 1 then g.ordinal + 1 else l.frontier;
  }

  lemma SaveMove(c: Settings, w: World, s: Option<Checkpoint>, l: Live, a: bool)
    requires c.Valid() && Reaches(c, w, World(Some(l), s), a) && l.saving == None
    ensures Reaches(c, w, World(Some(SnapshotOf(l).(saving := None)),
                                Some(SnapshotOf(l).saving.value.(buffer := l.buffer))),
                    a && SaveAligned(l))
  {
    ThenReaches(c, w, World(Some(l), s), TakeSnapshot(false), a);
    ThenReaches(c, w, World(Some(SnapshotOf(l)), s), SaveBuffer, a && SaveAligned(l));
  }

  lemma RestartMove(c: Settings, w: World, l: Live, ck: Checkpoint, keep: Option<seq<bool>>, a: bool)
    requires c.Valid() && Reaches(c, w, World(Some(l), Some(ck)), a)
    requires keep.Some? ==> |keep.value| == |ck.buffer|
    ensures Reaches(c, w, World(Some(ResumeOf(c, ck, keep)), Some(ck)), a)
  {
    ThenReaches(c, w, World(Some(l), Some(ck)), Crash, a);
    ThenReaches(c, w, World(None, Some(ck)), Resume(keep), a);
  }

  // ----- A run that trains prompt 3 twice and loses prompt 2 -----

  // One prompt per step, two steps of lookahead.
  const TWO_AHEAD := Settings(1, 2, 4, 512)

  const G0 := Group(0, 0, 0, 0)
  const G1 := Group(1, 1, 1, 2)
  const G2 := Group(2, 2, 0, 2)
  const G3 := Group(3, 3, 0, 1)
  const G4 := Group(4, 4, 1, 3)

  // The first job at its only save: prompt 0 is trained, prompt 2 is still being
  // generated, the worker of prompt 1 has failed and prompt 3 took its place.
  const JOB_1 := Live(1, [G0], 1, {0}, None, 0, 5, 5, true, Ring(0, 5), None, {}, [], [G2], [G3, G4], 0, {1}, 0)
  const SAVED_1 := Checkpoint(1, [G0], 1, Some(Mark(1, 1, {})), 5, [], [G3, G4], {1})

  const LOST_1 := Group(1, 1, 0, 1)
  const JOB_1_HALF := Live(0, [], 0, {}, None, 0, 3, 3, true, Ring(0, 3), None, {}, [], [G2], [G0], -1, {1}, 0)

  const JOB_1_START := Live(0, [], 0, {}, None, 0, 1, 1, true, Ring(0, 1), None, {}, [], [], [G0], -1, {}, 0)
  const JOB_1_BUSY := Live(0, [], 0, {}, None, 0, 3, 3, true, Ring(0, 3), None, {}, [], [LOST_1, G2], [G0], -1, {}, 0)

  lemma Job1StartReached()
    ensures Reaches(TWO_AHEAD, INITIAL, World(Some(JOB_1_START), None), true)
  {
    var c, w := TWO_AHEAD, INITIAL;
    assert Feasible(c, w, []) && After(c, w, []) == w;
    ThenReaches(c, w, w, Start, true);
    assert NewJob().ring == Ring(0, 0);
    RingGrows(0, 0);
    GenerateMove(c, w, None, NewJob(), 0, true);
    assert [] + [G0] == [G0];
  }

  lemma Job1BusyReached()
    ensures Reaches(TWO_AHEAD, INITIAL, World(Some(JOB_1_BUSY), None), true)
  {
    Job1StartReached();
    RingGrows(0, 1); RingGrows(0, 2);
    LaunchMove(TWO_AHEAD, INITIAL, None, JOB_1_START, 1, true);
    var l := Yielded(JOB_1_START).(inflight := [LOST_1]);
    assert [] + [LOST_1] == [LOST_1];
    LaunchMove(TWO_AHEAD, INITIAL, None, l, 2, true);
    assert [LOST_1] + [G2] == [LOST_1, G2];
  }

  lemma Job1HalfReached()
    ensures Reaches(TWO_AHEAD, INITIAL, World(Some(JOB_1_HALF), None), true)
  {
    Job1BusyReached();
    FirstWorkerFails(JOB_1_BUSY);
    ThenReaches(TWO_AHEAD, INITIAL, World(Some(JOB_1_BUSY), None), WorkerFails(1), true);
  }

  /** The oldest worker in flight fails, alone in aiming at its step. */
  lemma OldestWorkerFails(c: Settings, l: Live, g: Group, post: seq<Group>)
    requires c.Valid() && l.inflight == [g] + post && NoneFor(post, g.target)
    ensures LiveEnabled(c, l, WorkerFails(g.target))
    ensures LiveStep(c, l, WorkerFails(g.target)) == l.(inflight := post, failed := l.failed + {g.ordinal})
  {
    var rule := Aims(g.target);
    assert [] + [g] + post == l.inflight && [] + post == post;
    DropOnly([], g, post, rule);
    DropFirstSaturates(l.inflight, rule, 1, |l.inflight|);
    OrdinalSetOne(g);
  }

  lemma OrdinalSetOne(g: Group)
    ensures OrdinalSet([g]) == {g.ordinal}
  {
    assert [g][..0] == [];
  }

  lemma FirstWorkerFails(l: Live)
    requires l.inflight == [LOST_1, G2] && l.failed == {}
    ensures LiveEnabled(TWO_AHEAD, l, WorkerFails(1))
    ensures LiveStep(TWO_AHEAD, l, WorkerFails(1)) == l.(inflight := [G2], failed := {1})
  {
    assert [LOST_1] + [G2] == [LOST_1, G2];
    OldestWorkerFails(TWO_AHEAD, l, LOST_1, [G2]);
    assert {} + {1} == {1};
  }

  const JOB_1_FILLED := Live(0, [], 0, {}, None, 0, 4, 4, true, Ring(0, 4), None, {}, [], [G2], [G0, G3], -1, {1}, 0)
  const JOB_1_TRAINED := Live(1, [G0], 1, {0}, None, 0, 4, 4, true, Ring(0, 4), None, {}, [], [G2], [G3], 0, {1}, 0)

  lemma Job1FilledReached()
    ensures Reaches(TWO_AHEAD, INITIAL, World(Some(JOB_1_FILLED), None), true)
  {
    Job1HalfReached();
    RingGrows(0, 3);
    GenerateMove(TWO_AHEAD, INITIAL, None, JOB_1_HALF, 1, true);
    assert [G0] + [G3] == [G0, G3];
  }

  lemma Job1TrainedReached()
    ensures Reaches(TWO_AHEAD, INITIAL, World(Some(JOB_1_TRAINED), None), true)
  {
    Job1FilledReached();
    assert [] + [G0] + [G3] == [G0, G3] && [] + [G3] == [G3];
    assert [] + [G0] == [G0] && {} + {0} == {0};
    TrainTo(TWO_AHEAD, INITIAL, None, JOB_1_FILLED, [], G0, [G3], JOB_1_TRAINED, true);
  }

  lemma Job1Reached()
    ensures Reaches(TWO_AHEAD, INITIAL, World(Some(JOB_1), None), true)
  {
    Job1TrainedReached();
    RingGrows(0, 4);
    GenerateMove(TWO_AHEAD, INITIAL, None, JOB_1_TRAINED, 3, true);
    assert [G3] + [G4] == [G3, G4];
  }

  lemma Job1Saves()
    ensures SafeSave(JOB_1)
    ensures SnapshotOf(JOB_1).saving == Some(SAVED_1.(buffer := []))
  {
    CutIsGreatest(JOB_1, 1);
    CutIsGreatest(JOB_1, 2);
    assert CutOf(JOB_1) == 1 by {
      LowerToIs(1, [G2]); LowerToIs(1, [G3, G4]);
    }
    NewestOfRing(0, 5, 1);
    assert Above({0}, 1) == {};
  }

  // The second job retains both groups, regenerates prompt 1, trains prompts 3 and 1,
  // and holds prompt 2 when it saves: the cut is 4.
  const JOB_2 := Live(3, [G0, G3, G1], 4, {1, 3}, None, 1, 3, 3, true, Ring(1, 2), Some(1), {3, 4},
                     [Stamp(2, 2)], [], [G4], 2, {}, 1)
  const SAVED_2 := Checkpoint(3, [G0, G3, G1], 2, Some(Mark(4, 2, {})), 3, [], [G4], {})

  lemma PickBoth(a: Group, b: Group)
    ensures Pick([a, b], [true, true]) == [a, b]
  {
    assert [a, b][..1] == [a] && [true, true][..1] == [true];
    assert [a][..0] == [] && [true][..0] == [];
    assert Pick([a], [true]) == [] + [a];
  }

  const JOB_2_START := Live(1, [G0], 1, {}, None, 1, 1, 1, true, Ring(1, 0), Some(1), {3, 4}, [], [], [G3, G4],
                            0, {}, 1)

  lemma Job2Starts()
    ensures Reaches(TWO_AHEAD, INITIAL, World(Some(JOB_2_START), Some(SAVED_1)), true)
  {
    Job1Reached();
    Job1Saves();
    SaveMove(TWO_AHEAD, INITIAL, None, JOB_1, true);
    RestartMove(TWO_AHEAD, INITIAL, SnapshotOf(JOB_1).(saving := None), SAVED_1, Some([true, true]), true);
    PickBoth(G3, G4);
    assert OrdinalSet([G3, G4]) + {} == {3, 4};
    assert Ring(1, 0) == [] && Below({1}, 1) == {};
    assert ResumeOf(TWO_AHEAD, SAVED_1, Some([true, true])) == JOB_2_START;
  }

  const JOB_2_FILLED := Live(1, [G0], 1, {}, None, 1, 2, 2, true, Ring(1, 1), Some(1), {3, 4},
                             [], [], [G3, G4, G1], 0, {}, 1)
  const JOB_2_TRAINED := Live(2, [G0, G3], 4, {3}, None, 1, 2, 2, true, Ring(1, 1), Some(1), {3, 4},
                              [], [], [G4, G1], 1, {}, 1)

  lemma Job2FilledReached()
    ensures Reaches(TWO_AHEAD, INITIAL, World(Some(JOB_2_FILLED), Some(SAVED_1)), true)
  {
    Job2Starts();
    RingGrows(1, 0);
    GenerateMove(TWO_AHEAD, INITIAL, Some(SAVED_1), JOB_2_START, 2, true);
    assert [G3, G4] + [G1] == [G3, G4, G1];
  }

  lemma Job2TrainedReached()
    ensures Reaches(TWO_AHEAD, INITIAL, World(Some(JOB_2_TRAINED), Some(SAVED_1)), true)
  {
    Job2FilledReached();
    assert [] + [G3] + [G4, G1] == [G3, G4, G1] && [] + [G4, G1] == [G4, G1];
    assert [G0] + [G3] == [G0, G3] && {} + {3} == {3};
    TrainTo(TWO_AHEAD, INITIAL, Some(SAVED_1), JOB_2_FILLED, [], G3, [G4, G1], JOB_2_TRAINED, true);
  }

  lemma Job2Reached()
    ensures Reaches(TWO_AHEAD, INITIAL, World(Some(JOB_2), Some(SAVED_1)), true)
  {
    Job2TrainedReached();
    RingGrows(1, 0); RingGrows(1, 1);
    YieldMove(TWO_AHEAD, INITIAL, Some(SAVED_1), JOB_2_TRAINED, true);
    var l := Yielded(JOB_2_TRAINED).(pending := [Stamp(2, 2)]);
    assert [G4] + [G1] + [] == [G4, G1] && [G4] + [] == [G4];
    TrainMove(TWO_AHEAD, INITIAL, Some(SAVED_1), l, [G4], G1, [], true);
    assert [G0, G3] + [G1] == [G0, G3, G1] && {3} + {1} == {1, 3};
  }

  lemma Job2Saves()
    ensures SaveAligned(JOB_2) && !NothingOwedBelow(JOB_2, CutOf(JOB_2))
    ensures SnapshotOf(JOB_2) == JOB_2.(recent := {}, prunedBelow := 4, saving := Some(SAVED_2.(buffer := [])))
  {
    assert CutOf(JOB_2) == 4 by {
      LowerToIs(4, []); LowerToIs(4, [G4]);
    }
    NewestOfRing(1, 2, 4);
    assert Above({1, 3}, 4) == {};
    assert Stamp(2, 2) in JOB_2.pending;
  }

  // The third save of the run: prompt 2 is now with a worker and lowers the cut to 2,
  // after prompt 3 has been pruned from the record of trained prompts.
  const SENT_2 := Group(2, 2, 3, 4)
  const JOB_2_LATE := Live(4, [G0, G3, G1, G4], 5, {4}, None, 1, 3, 3, true, Ring(1, 2), Some(1), {3, 4},
                         [], [SENT_2], [], 3, {}, 4)
  const SAVED_3 := Checkpoint(4, [G0, G3, G1, G4], 2, Some(Mark(2, 2, {4})), 3, [], [], {})

  lemma Job2LateReached()
    ensures Reaches(TWO_AHEAD, INITIAL, World(Some(JOB_2_LATE), Some(SAVED_2)), true)
  {
    var c, w, s := TWO_AHEAD, INITIAL, Some(SAVED_2);
    Job2Reached();
    Job2Saves();
    SaveMove(c, w, Some(SAVED_1), JOB_2, true);
    var l := JOB_2.(recent := {}, prunedBelow := 4);
    NoneCounts([], 4, 2); NoneCounts([G4], 4, 2);
    DispatchMove(c, w, s, l, Stamp(2, 2), 4, true);
    l := l.(pending := [], inflight := [SENT_2]);
    assert [] + [SENT_2] == [SENT_2] && [] + [G4] + [] == [G4];
    TrainMove(c, w, s, l, [], G4, [], true);
    assert [G0, G3, G1] + [G4] == [G0, G3, G1, G4] && {} + {4} == {4};
  }

  lemma Job2LateSaves()
    ensures SafeSave(JOB_2_LATE)
    ensures SnapshotOf(JOB_2_LATE) == JOB_2_LATE.(prunedBelow := 2, saving := Some(SAVED_3))
  {
    assert CutOf(JOB_2_LATE) == 2 by {
      LowerToIs(5, [SENT_2]); LowerToIs(2, []);
      assert SENT_2 in [SENT_2];
    }
    NewestOfRing(1, 2, 2);
    assert Above({4}, 2) == {4};
  }

  const AGAIN_2 := Group(2, 2, 4, 4)
  const AGAIN_3 := Group(3, 3, 4, 5)

  lemma Job3Reached()
    ensures
      exists l: Live ::
        Reaches(TWO_AHEAD, INITIAL, World(Some(l), Some(SAVED_3)), true)
        && l.trained == [G0, G3, G1, G4, AGAIN_2, AGAIN_3]
  {
    var c, w, s := TWO_AHEAD, INITIAL, Some(SAVED_3);
    Job2LateReached();
    Job2LateSaves();
    SaveMove(c, w, Some(SAVED_2), JOB_2_LATE, true);
    RestartMove(c, w, JOB_2_LATE.(prunedBelow := 2), SAVED_3, None, true);
    var l := ResumeOf(c, SAVED_3, None);
    assert OrdinalSet([]) + {4} == {4};
    GenerateMove(c, w, s, l, 4, true);
    l := Yielded(l).(buffer := [AGAIN_2]);
    assert [] + [AGAIN_2] == [AGAIN_2];
    GenerateMove(c, w, s, l, 5, true);
    l := Yielded(l).(buffer := [AGAIN_2, AGAIN_3]);
    assert [AGAIN_2] + [AGAIN_3] == [] + [AGAIN_2] + [AGAIN_3] == [AGAIN_2, AGAIN_3] && [] + [AGAIN_3] == [AGAIN_3];
    Job3Trains(l);
  }

  lemma Job3Trains(l: Live)
    requires Reaches(TWO_AHEAD, INITIAL, World(Some(l), Some(SAVED_3)), true)
    requires l.buffer == [AGAIN_2, AGAIN_3] && l.trained == [G0, G3, G1, G4] && l.step == 4
    requires l.saving == None && l.lastTarget == -1
    ensures
      exists l': Live ::
        Reaches(TWO_AHEAD, INITIAL, World(Some(l'), Some(SAVED_3)), true)
        && l'.trained == [G0, G3, G1, G4, AGAIN_2, AGAIN_3]
  {
    var c, w, s := TWO_AHEAD, INITIAL, Some(SAVED_3);
    assert [] + [AGAIN_2] + [AGAIN_3] == l.buffer && [] + [AGAIN_3] == [AGAIN_3];
    TrainMove(c, w, s, l, [], AGAIN_2, [AGAIN_3], true);
    var l1 := l.(buffer := [AGAIN_3], trained := l.trained + [AGAIN_2],
                 frontier := if l.frontier < 3 then 3 else l.frontier,
                 recent := l.recent + {2}, lastTarget := 4, step := 5);
    assert [] + [AGAIN_3] + [] == [AGAIN_3];
    TrainMove(c, w, s, l1, [], AGAIN_3, [], true);
    assert l1.trained + [AGAIN_3] == [G0, G3, G1, G4, AGAIN_2, AGAIN_3];
  }

  lemma CountTwice(gs: seq<Group>, p: nat)
    requires forall g :: g in gs ==> g.ordinal == g.prompt
    requires Ordinals(gs) == [0, 3, 1, 4, 2, 3] && p == 3
    ensures TimesTrained(gs, p) == 2
  {
    TimesTrainedIsBag(gs, p);
  }

  /** At-most-once training is false of the code, aligned saves or not: there is a run, every
      save of which has a snapshot to align with, in which some cut falls below what was
      pruned, after which prompt 3 has contributed twice to the weights. */
  lemma APromptIsTrainedTwice()
    ensures
      exists evs: seq<Event> ::
        && Feasible(TWO_AHEAD, INITIAL, evs) && AlignedSaves(TWO_AHEAD, INITIAL, evs)
        && !CutsKept(TWO_AHEAD, INITIAL, evs)
        && After(TWO_AHEAD, INITIAL, evs).live.Some?
        && TimesTrained(After(TWO_AHEAD, INITIAL, evs).live.value.trained, 3) == 2
  {
    Job3Reached();
    var l: Live :|
      Reaches(TWO_AHEAD, INITIAL, World(Some(l), Some(SAVED_3)), true)
      && l.trained == [G0, G3, G1, G4, AGAIN_2, AGAIN_3];
    var evs :|
      && Feasible(TWO_AHEAD, INITIAL, evs) && After(TWO_AHEAD, INITIAL, evs) == World(Some(l), Some(SAVED_3))
      && AlignedSaves(TWO_AHEAD, INITIAL, evs);
    CountTwice(l.trained, 3);
    if CutsKept(TWO_AHEAD, INITIAL, evs) {
      KeptCutsTrainOnce(TWO_AHEAD, evs, 3);
    }
  }

  /** A prompt can be lost for good although no worker failed on it: after the second save
      of the same run, prompt 2 has not been trained, is not in the saved buffer, and no
      resume from that checkpoint will yield it. */
  lemma APromptIsLost()
    ensures Reaches(TWO_AHEAD, INITIAL, World(Some(JOB_2.(recent := {}, prunedBelow := 4)), Some(SAVED_2)), true)
    ensures 2 !in SAVED_2.failed
    ensures forall keep: seq<bool> :: |keep| == 1 ==> !Recovered(TWO_AHEAD, SAVED_2, keep, 2)
  {
    Job2Reached();
    Job2Saves();
    SaveMove(TWO_AHEAD, INITIAL, Some(SAVED_1), JOB_2, true);
    assert Ordinals(SAVED_2.trained) == [0, 3, 1];
    forall keep: seq<bool> | |keep| == 1 ensures !Recovered(TWO_AHEAD, SAVED_2, keep, 2) {
      BagPick(SAVED_2.buffer, keep);
      assert Ordinals(SAVED_2.buffer) == [4];
      assert Bag(Pick(SAVED_2.buffer, keep))[2] <= Bag(SAVED_2.buffer)[2];
    }
  }

  // ----- A save that falls back to the live cursor -----

  // One prompt per step, one step of lookahead.
  const ONE_AHEAD := Settings(1, 1, 2, 512)

  const H1 := Group(1, 1, 0, 1)
  const H2 := Group(2, 2, 1, 2)

  const JOB_A := Live(1, [G0], 1, {0}, None, 0, 3, 3, true, Ring(0, 3), None, {}, [], [], [H1, H2], 0, {}, 0)
  const SAVED_A := Checkpoint(1, [G0], 1, Some(Mark(1, 1, {})), 3, [], [H1, H2], {})

  const JOB_A_FILLED := Live(0, [], 0, {}, None, 0, 2, 2, true, Ring(0, 2), None, {}, [], [], [G0, H1], -1, {}, 0)
  const JOB_A_TRAINED := Live(1, [G0], 1, {0}, None, 0, 2, 2, true, Ring(0, 2), None, {}, [], [], [H1], 0, {}, 0)

  lemma JobAFilledReached()
    ensures Reaches(ONE_AHEAD, INITIAL, World(Some(JOB_A_FILLED), None), true)
  {
    var c, w := ONE_AHEAD, INITIAL;
    assert Feasible(c, w, []) && After(c, w, []) == w;
    ThenReaches(c, w, w, Start, true);
    var l := NewJob();
    RingGrows(0, 0); RingGrows(0, 1);
    assert l.ring == Ring(0, 0);
    GenerateMove(c, w, None, l, 0, true);
    l := Yielded(l).(buffer := [G0]);
    assert [] + [G0] == [G0];
    GenerateMove(c, w, None, l, 1, true);
    assert [G0] + [H1] == [G0, H1];
  }

  lemma JobATrainedReached()
    ensures Reaches(ONE_AHEAD, INITIAL, World(Some(JOB_A_TRAINED), None), true)
  {
    JobAFilledReached();
    assert [] + [G0] + [H1] == [G0, H1] && [] + [H1] == [H1];
    assert [] + [G0] == [G0] && {} + {0} == {0};
    TrainTo(ONE_AHEAD, INITIAL, None, JOB_A_FILLED, [], G0, [H1], JOB_A_TRAINED, true);
  }

  lemma JobAReached()
    ensures Reaches(ONE_AHEAD, INITIAL, World(Some(JOB_A), None), true)
  {
    JobATrainedReached();
    RingGrows(0, 2);
    GenerateMove(ONE_AHEAD, INITIAL, None, JOB_A_TRAINED, 2, true);
    assert [H1] + [H2] == [H1, H2];
  }

  // The restart retains both groups, so the collector has nothing to pull; the job trains
  // prompt 1 and saves before the first pull. The ring of snapshots is empty.
  const JOB_B := Live(2, [G0, H1], 2, {1}, None, 1, 1, 1, true, [], Some(1), {1, 2}, [], [], [H2], 1, {}, 1)
  const SAVED_B := Checkpoint(2, [G0, H1], 1, None, 1, [], [H2], {})

  const JOB_B_START := Live(1, [G0], 1, {}, None, 1, 1, 1, true, [], Some(1), {1, 2}, [], [], [H1, H2], 0, {}, 1)

  lemma JobASaves()
    ensures SaveAligned(JOB_A)
    ensures SnapshotOf(JOB_A).saving == Some(SAVED_A.(buffer := []))
  {
    assert CutOf(JOB_A) == 1 by {
      LowerToIs(1, []); LowerToIs(1, [H1, H2]);
    }
    NewestOfRing(0, 3, 1);
    assert Above({0}, 1) == {};
  }

  lemma JobBStarts()
    ensures Reaches(ONE_AHEAD, INITIAL, World(Some(JOB_B_START), Some(SAVED_A)), true)
  {
    JobAReached();
    JobASaves();
    SaveMove(ONE_AHEAD, INITIAL, None, JOB_A, true);
    RestartMove(ONE_AHEAD, INITIAL, SnapshotOf(JOB_A).(saving := None), SAVED_A, Some([true, true]), true);
    PickBoth(H1, H2);
    assert OrdinalSet([H1, H2]) + {} == {1, 2} && Below({}, 1) == {};
    assert ResumeOf(ONE_AHEAD, SAVED_A, Some([true, true])) == JOB_B_START;
  }

  lemma JobBReached()
    ensures Reaches(ONE_AHEAD, INITIAL, World(Some(JOB_B), Some(SAVED_A)), true)
  {
    var c, w := ONE_AHEAD, INITIAL;
    JobBStarts();
    var l := JOB_B_START;
    assert [] + [H1] + [H2] == [H1, H2] && [] + [H2] == [H2];
    TrainMove(c, w, Some(SAVED_A), l, [], H1, [H2], true);
    assert [G0] + [H1] == [G0, H1] && {} + {1} == {1};
  }

  const AGAIN_H1 := Group(3, 1, 2, 3)

  lemma JobCReached()
    ensures
      exists l: Live ::
        Reaches(ONE_AHEAD, INITIAL, World(Some(l), Some(SAVED_B)), false) && l.trained == [G0, H1, H2, AGAIN_H1]
  {
    var c, w, s := ONE_AHEAD, INITIAL, Some(SAVED_B);
    JobBReached();
    SaveMove(c, w, Some(SAVED_A), JOB_B, true);
    assert !SaveAligned(JOB_B);
    assert SnapshotOf(JOB_B).saving == Some(SAVED_B.(buffer := []));
    RestartMove(c, w, JOB_B, SAVED_B, Some([true]), false);
    var l := ResumeOf(c, SAVED_B, Some([true]));
    assert [H2][..0] == [] && [true][..0] == [] && [] + [H2] == [H2];
    assert Pick([H2], [true]) == [] + [H2];
    assert l.buffer == [H2] && RaiseTo(1, [H2]) == 3;
    GenerateMove(c, w, s, l, 3, false);
    l := Yielded(l).(buffer := [H2, AGAIN_H1]);
    assert [H2] + [AGAIN_H1] == [] + [H2] + [AGAIN_H1] == [H2, AGAIN_H1] && [] + [AGAIN_H1] == [AGAIN_H1];
    TrainMove(c, w, s, l, [], H2, [AGAIN_H1], false);
    var l1 := l.(buffer := [AGAIN_H1], trained := [G0, H1, H2], frontier := 3,
                 recent := {2}, lastTarget := 2, step := 3);
    assert [G0, H1] + [H2] == [G0, H1, H2] && l.recent + {2} == {2};
    assert [] + [AGAIN_H1] + [] == [AGAIN_H1];
    TrainMove(c, w, s, l1, [], AGAIN_H1, [], false);
    assert l1.trained + [AGAIN_H1] == [G0, H1, H2, AGAIN_H1];
  }

  /** A save with no snapshot to align with can also train a prompt twice: the checkpoint
      carries no filter, and the live cursor of a freshly resumed job lies below what it has
      already trained. */
  lemma AFallbackSaveRetrains()
    ensures
      exists evs: seq<Event> ::
        && Feasible(ONE_AHEAD, INITIAL, evs) && !AlignedSaves(ONE_AHEAD, INITIAL, evs)
        && After(ONE_AHEAD, INITIAL, evs).live.Some?
        && TimesTrained(After(ONE_AHEAD, INITIAL, evs).live.value.trained, 1) == 2
  {
    JobCReached();
    var l: Live :|
      Reaches(ONE_AHEAD, INITIAL, World(Some(l), Some(SAVED_B)), false) && l.trained == [G0, H1, H2, AGAIN_H1];
    var evs :|
      && Feasible(ONE_AHEAD, INITIAL, evs) && After(ONE_AHEAD, INITIAL, evs) == World(Some(l), Some(SAVED_B))
      && !AlignedSaves(ONE_AHEAD, INITIAL, evs);
    OnlyAgain(l.trained);
  }

  lemma OnlyAgain(t: seq<Group>)
    requires t == [G0, H1, H2, AGAIN_H1]
    ensures TimesTrained(t, 1) == 2
  {
    assert t[..3] == [G0, H1, H2];
    TimesTrainedIsBag(t[..3], 1);
    assert Ordinals(t[..3]) == [0, 1, 2];
  }
}
