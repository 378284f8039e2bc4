// Asynchronous GRPO: the driver, the trajectory collector and the replay buffer as one
// state machine whose steps interleave freely, with crashes and resumes.
module AsyncResume {
  import opened Prelude
  import opened ReplayGroups
  import opened ReplayBuffers

  /** `ringSize` is the capacity of the collector's ring of dataloader snapshots. */
  datatype Settings = Settings(promptsPerStep: nat, maxAge: nat, bufferSize: nat, ringSize: nat) {
    predicate Valid() {
      promptsPerStep >= 1 && ringSize >= 1
    }
  }

  /** A prompt as the collector stamps it: the stamp, and its position in the stream. */
  datatype Stamp = Stamp(ordinal: nat, prompt: nat)

  /** A dataloader state captured before a pull, keyed by the first ordinal of that pull. */
  datatype Snapshot = Snapshot(base: nat, loader: nat)

  /** The frontier metadata of a checkpoint: the filter threshold of a resume, the ordinal
      the saved dataloader yields first, and the ordinals trained at or above the cut. */
  datatype Mark = Mark(cut: nat, base: nat, trainedAbove: set<nat>)

  /** A checkpoint. `mark` is absent when the save fell back to the live cursor; only then
      are the pending prompts stored. `trained` stands for the weights: the groups folded
      into them so far. `failed` is history, it is not stored by the program. */
  datatype Checkpoint = Checkpoint(
    step: nat, trained: seq<Group>, loader: nat, mark: Option<Mark>,
    nextOrdinal: nat, pending: seq<Stamp>, buffer: seq<Group>, failed: set<nat>)

  /** A running job. */
  datatype Live = Live(
    // the driver
    step: nat, trained: seq<Group>, frontier: nat, recent: set<nat>, saving: Option<Checkpoint>,
    // the collector
    first: nat, nextOrdinal: nat, loader: nat, aligned: bool, ring: seq<Snapshot>,
    filter: Option<nat>, covered: set<nat>, pending: seq<Stamp>, inflight: seq<Group>,
    // the replay buffer
    buffer: seq<Group>, lastTarget: int,
    // history the program does not keep: tolerated losses, and the bound below which
    // `recent` has been pruned
    failed: set<nat>, prunedBelow: nat)

  datatype World = World(live: Option<Live>, saved: Option<Checkpoint>)

  const INITIAL := World(None, None)

  // ----- The collector -----

  function StampOrdinals(ps: seq<Stamp>): (r: seq<nat>)
    ensures |r| == |ps| && forall i :: 0 <= i < |ps| ==> r[i] == ps[i].ordinal
  {
    seq(|ps|, i requires 0 <= i < |ps| => ps[i].ordinal)
  }

  function StampBag(ps: seq<Stamp>): multiset<nat> {
    multiset(StampOrdinals(ps))
  }

  function NewStamps(l: Live, n: nat): (r: seq<Stamp>)
    ensures |r| == n && forall i :: 0 <= i < n ==> r[i] == Stamp(l.nextOrdinal + i, l.loader + i)
  {
    seq(n, i requires 0 <= i < n => Stamp(l.nextOrdinal + i, l.loader + i))
  }

  /** The row filter of a frontier-aligned resume lets `o` through. */
  predicate Survives(filter: Option<nat>, covered: set<nat>, o: nat) {
    match filter
    case None => true
    case Some(cut) => cut <= o && o !in covered
  }

  function Survivors(filter: Option<nat>, covered: set<nat>, ps: seq<Stamp>): seq<Stamp> {
    if ps == [] then []
    else
      var k := |ps| - 1;
      Survivors(filter, covered, ps[..k]) + (if Survives(filter, covered, ps[k].ordinal) then [ps[k]] else [])
  }

  /** The next pull starts beyond everything the filter could drop. */
  predicate PastHorizon(l: Live) {
    l.filter.Some? && l.filter.value <= l.nextOrdinal && forall o :: o in l.covered ==> o < l.nextOrdinal
  }

  function Trim(ring: seq<Snapshot>, size: nat): seq<Snapshot> {
    if |ring| <= size then ring else ring[|ring| - size..]
  }

  function YieldOf(c: Settings, l: Live, n: nat): Live {
    var stamps := NewStamps(l, n);
    var pulled := l.(ring := Trim(l.ring + [Snapshot(l.nextOrdinal, l.loader)], c.ringSize),
                     nextOrdinal := l.nextOrdinal + n, loader := l.loader + n);
    if PastHorizon(l) then pulled.(filter := None, covered := {}, pending := stamps)
    else pulled.(pending := Survivors(l.filter, l.covered, stamps))
  }

  /** The steps a collector at the current weight version may generate for. */
  predicate MayTarget(c: Settings, l: Live, t: nat) {
    if l.step == l.first then l.first <= t <= l.first + c.maxAge
    else l.step + 1 <= t <= l.step + c.maxAge
  }

  function NeededFor(c: Settings, l: Live, t: nat): nat {
    var have := CountForTarget(l.buffer, t, c.maxAge);
    if have < c.promptsPerStep then c.promptsPerStep - have else 0
  }

  function Launch(ps: seq<Stamp>, version: nat, target: nat): (r: seq<Group>)
    ensures |r| == |ps|
    ensures forall i :: 0 <= i < |r| ==> r[i] == Group(ps[i].ordinal, ps[i].prompt, version, target)
  {
    seq(|ps|, i requires 0 <= i < |ps| => Group(ps[i].ordinal, ps[i].prompt, version, target))
  }

  function DispatchOf(c: Settings, l: Live, t: nat): Live {
    var n := if |l.pending| < NeededFor(c, l, t) then |l.pending| else NeededFor(c, l, t);
    l.(inflight := l.inflight + Launch(l.pending[..n], l.step, t), pending := l.pending[n..])
  }

  // ----- The checkpoint cut -----

  function LowerTo(bound: nat, gs: seq<Group>): nat {
    if gs == [] then bound
    else
      var rest := LowerTo(bound, gs[..|gs| - 1]);
      if gs[|gs| - 1].ordinal < rest then gs[|gs| - 1].ordinal else rest
  }

  /** The cut: the trained frontier, lowered to everything out with a worker or buffered. */
  function CutOf(l: Live): nat {
    LowerTo(LowerTo(l.frontier, l.inflight), l.buffer)
  }

  /** The newest snapshot at or below `cut`. */
  function Newest(ring: seq<Snapshot>, cut: nat): (r: Option<Snapshot>)
    ensures r.Some? ==> r.value in ring && r.value.base <= cut
    ensures r.Some? ==> forall s :: s in ring && s.base <= cut ==> s.base <= r.value.base
    ensures r.None? ==> forall s :: s in ring ==> cut < s.base
  {
    if ring == [] then None
    else
      var rest, s := Newest(ring[..|ring| - 1], cut), ring[|ring| - 1];
      if s.base <= cut && (rest.None? || rest.value.base < s.base) then Some(s) else rest
  }

  predicate SaveAligned(l: Live) {
    l.aligned && Newest(l.ring, CutOf(l)).Some?
  }

  function Above(s: set<nat>, cut: nat): set<nat> {
    set o | o in s && cut <= o
  }

  function Below(s: set<nat>, cut: nat): set<nat> {
    set o | o in s && o < cut
  }

  /** A snapshot. `held` says that the collection loop has taken the pending prompts up and is
      working on them: a fallback save then does not see them. */
  function SnapshotWith(l: Live, held: bool): Live {
    if SaveAligned(l) then
      var cut := CutOf(l);
      var at := Newest(l.ring, cut).value;
      var kept := Above(l.recent, cut);
      l.(recent := kept, prunedBelow := cut,
         saving := Some(Checkpoint(l.step, l.trained, at.loader, Some(Mark(cut, at.base, kept)),
                                   l.nextOrdinal, [], [], l.failed)))
    else
      l.(saving := Some(Checkpoint(l.step, l.trained, l.loader, None,
                                   l.nextOrdinal, if held then [] else l.pending, [], l.failed)))
  }

  /** A snapshot taken between two rounds of the loop; an aligned one is the same in any case. */
  function SnapshotOf(l: Live): Live {
    SnapshotWith(l, false)
  }

  // ----- The driver -----

  function OrdinalSet(gs: seq<Group>): set<nat> {
    set g | g in gs :: g.ordinal
  }

  function RaiseTo(bound: nat, gs: seq<Group>): nat {
    if gs == [] then bound
    else
      var rest := RaiseTo(bound, gs[..|gs| - 1]);
      if rest < gs[|gs| - 1].ordinal + 1 then gs[|gs| - 1].ordinal + 1 else rest
  }

  /** One pass of the main loop up to the weight update: sample, and train if a full step
      came back. Evicted groups are losses. */
  function SampleStep(c: Settings, l: Live): Live
    requires c.Valid()
  {
    var s := SampleOf(l.buffer, c.promptsPerStep, l.step, c.maxAge);
    var l1 := l.(buffer := s.left,
                 failed := l.failed + OrdinalSet(Matching(l.buffer, AgedOut(l.step, c.maxAge))));
    match s.taken
    case None => l1
    case Some(items) =>
      l1.(trained := l.trained + items,
          frontier := RaiseTo(l.frontier, items),
          recent := l.recent + OrdinalSet(items),
          lastTarget := if l.lastTarget < l.step then l.step else l.lastTarget,
          step := l.step + 1)
  }

  function NewJob(): Live {
    Live(0, [], 0, {}, None, 0, 0, 0, true, [], None, {}, [], [], [], -1, {}, 0)
  }

  /** A job restarted from `ck`. `keep` says which buffered groups the restore retains;
      it is absent when the configuration skips the replay buffer. */
  function ResumeOf(c: Settings, ck: Checkpoint, keep: Option<seq<bool>>): Live
    requires keep.Some? ==> |keep.value| == |ck.buffer|
  {
    var retained := if keep.Some? then Pick(ck.buffer, keep.value) else [];
    var last: int := if keep.Some? then ck.step - 1 else -1;
    match ck.mark
    case Some(m) =>
      Live(ck.step, ck.trained, m.cut, m.trainedAbove, None,
           ck.step, m.base, ck.loader, true, [], Some(m.cut), OrdinalSet(retained) + m.trainedAbove, [], [],
           retained, last, Below(ck.failed, m.cut), m.cut)
    case None =>
      Live(ck.step, ck.trained, c.promptsPerStep * ck.step, {}, None,
           ck.step, RaiseTo(ck.nextOrdinal, if keep.Some? then ck.buffer else []), ck.loader, false, [],
           None, {}, ck.pending, [],
           retained, last, ck.failed, c.promptsPerStep * ck.step)
  }

  // ----- Steps and runs -----

  datatype Event =
    | Start
    | Yield(n: nat)
    | Dispatch(target: nat)
    | Buffered(i: nat)
    | WorkerFails(target: nat)
    | Sample
    | TakeSnapshot(held: bool)
    | SaveBuffer
    | Crash
    | Resume(keep: Option<seq<bool>>)

  predicate LiveEnabled(c: Settings, l: Live, ev: Event) {
    match ev
    case Yield(n) => n >= 1 && l.pending == []
    case Dispatch(t) =>
      l.pending != [] && MayTarget(c, l, t) && l.lastTarget < t &&
      PerTarget(l.inflight, t) == 0 && NeededFor(c, l, t) > 0
    case Buffered(i) => i < |l.inflight| && |l.buffer| < c.bufferSize
    case WorkerFails(t) => PerTarget(l.inflight, t) > 0
    case Sample => l.saving.None?
    case TakeSnapshot(_) => l.saving.None?
    case SaveBuffer => l.saving.Some?
    case _ => false
  }

  predicate Enabled(c: Settings, w: World, ev: Event) {
    match ev
    case Start => w.live.None? && w.saved.None?
    case Crash => w.live.Some?
    case Resume(keep) =>
      w.live.None? && w.saved.Some? && (keep.Some? ==> |keep.value| == |w.saved.value.buffer|)
    case _ => w.live.Some? && LiveEnabled(c, w.live.value, ev)
  }

  function LiveStep(c: Settings, l: Live, ev: Event): Live
    requires c.Valid() && LiveEnabled(c, l, ev)
  {
    match ev
    case Yield(n) => YieldOf(c, l, n)
    case Dispatch(t) => DispatchOf(c, l, t)
    case Buffered(i) => l.(inflight := Pop(l.inflight, i), buffer := l.buffer + [l.inflight[i]])
    case WorkerFails(t) =>
      l.(inflight := Without(l.inflight, Aims(t)),
         failed := l.failed + OrdinalSet(Matching(l.inflight, Aims(t))))
    case Sample => SampleStep(c, l)
    case TakeSnapshot(held) => SnapshotWith(l, held)
    case SaveBuffer => l.(saving := None)
  }

  function Step(c: Settings, w: World, ev: Event): World
    requires c.Valid() && Enabled(c, w, ev)
  {
    match ev
    case Start => w.(live := Some(NewJob()))
    case Crash => w.(live := None)
    case Resume(keep) => w.(live := Some(ResumeOf(c, w.saved.value, keep)))
    case SaveBuffer =>
      var l := w.live.value;
      World(Some(LiveStep(c, l, ev)), Some(l.saving.value.(buffer := l.buffer)))
    case _ => w.(live := Some(LiveStep(c, w.live.value, ev)))
  }

  predicate Feasible(c: Settings, w: World, evs: seq<Event>)
    requires c.Valid()
    decreases |evs|
  {
    evs == [] || (Enabled(c, w, evs[0]) && Feasible(c, Step(c, w, evs[0]), evs[1..]))
  }

  function After(c: Settings, w: World, evs: seq<Event>): World
    requires c.Valid() && Feasible(c, w, evs)
    decreases |evs|
  {
    if evs == [] then w else After(c, Step(c, w, evs[0]), evs[1..])
  }

  // ----- What a save must respect -----

  /** `o` is still to be yielded by this job and will not be dropped. */
  predicate Ahead(l: Live, o: nat) {
    l.nextOrdinal <= o && Survives(l.filter, l.covered, o)
  }

  /** Nothing the collector still owes lies below `cut`: neither a pending prompt nor one
      that a resumed collector has not reached again. The code does not check this. */
  predicate NothingOwedBelow(l: Live, cut: nat) {
    && (forall p :: p in l.pending ==> cut <= p.ordinal)
    && (forall o :: l.nextOrdinal <= o < cut ==> !Survives(l.filter, l.covered, o))
  }

  predicate SafeSave(l: Live) {
    SaveAligned(l) && NothingOwedBelow(l, CutOf(l))
  }

  /** Every snapshot of the run is taken in a state where it is safe. */
  predicate SafeSaves(c: Settings, w: World, evs: seq<Event>)
    requires c.Valid() && Feasible(c, w, evs)
    decreases |evs|
  {
    evs == [] ||
    (&& (evs[0].TakeSnapshot? ==> SafeSave(w.live.value))
     && SafeSaves(c, Step(c, w, evs[0]), evs[1..]))
  }
}
