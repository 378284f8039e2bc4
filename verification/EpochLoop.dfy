// The epoch/step loops of distillation and DPO: counters, the data cursor, checkpoints, and
// sessions that are cut short and resumed.
module EpochLoop {
  import opened Prelude

  type positive = n: nat | n > 0 witness 1

  /** `length` is the number of batches of an epoch; DPO saves the step modulo it. */
  datatype Settings = Settings(maxEpochs: nat, maxSteps: nat, length: nat, batchSize: nat, savePeriod: positive,
                               ftSavePeriod: Option<positive>, enabled: bool, moduloStep: bool)

  /** Where the stateful data loader stands: the pass over the data and the batches yielded. */
  datatype Cursor = Cursor(epoch: nat, pos: nat)

  datatype Progress<W> = Progress(epoch: nat, step: nat, total: nat, consumed: nat, cursor: Cursor, weights: W)

  datatype Phase = InEpoch | Finished | TimedOut

  /** A run: the live progress, and what a restart would load. */
  datatype Run<W> = Run(now: Progress<W>, phase: Phase, saved: Progress<W>)

  /** The scheduler's total number of steps. */
  function Target(s: Settings): nat {
    if s.maxSteps <= s.maxEpochs * s.length then s.maxSteps else s.maxEpochs * s.length
  }

  predicate IsLastStep<W>(s: Settings, p: Progress<W>) {
    p.total + 1 >= s.maxSteps || (p.epoch + 1 == s.maxEpochs && p.step + 1 == s.length)
  }

  predicate SavesByStep<W>(s: Settings, p: Progress<W>) {
    || IsLastStep(s, p)
    || (p.total + 1) % s.savePeriod == 0
    || (s.ftSavePeriod.Some? && (p.total + 1) % s.ftSavePeriod.value == 0)
  }

  /** The guard of the loop over epochs. */
  function Enter<W>(s: Settings, p: Progress<W>): Phase {
    if p.total < s.maxSteps && p.epoch < s.maxEpochs then InEpoch else Finished
  }

  function Trained<W>(s: Settings, train: (W, nat, nat) -> W, p: Progress<W>): Progress<W> {
    Progress(p.epoch, p.step + 1, p.total + 1, p.consumed + s.batchSize, Cursor(p.cursor.epoch, p.cursor.pos + 1),
             train(p.weights, p.cursor.epoch, p.cursor.pos))
  }

  /** What the save state records after a step. */
  function Snapshot<W>(s: Settings, p: Progress<W>): Progress<W>
    requires s.length > 0
  {
    p.(step := if s.moduloStep then p.step % s.length else p.step)
  }

  /** One iteration of the loop over batches. */
  function AfterStep<W>(s: Settings, train: (W, nat, nat) -> W, r: Run<W>, timeout: bool): Run<W>
    requires r.now.cursor.pos < s.length
  {
    var p := Trained(s, train, r.now);
    Run(p,
        if timeout then TimedOut else if p.total >= s.maxSteps then Finished else InEpoch,
        if s.enabled && (SavesByStep(s, r.now) || timeout) then Snapshot(s, p) else r.saved)
  }

  function AfterEpoch<W>(s: Settings, r: Run<W>): Run<W> {
    var p := r.now.(epoch := r.now.epoch + 1, step := 0, cursor := Cursor(r.now.cursor.epoch + 1, 0));
    r.(now := p, phase := Enter(s, p))
  }

  /** `Restart` is a crash, or a relaunch after a timeout: all but the checkpoint is lost. */
  datatype Event = Tick(timeout: bool) | Restart

  function Next<W>(s: Settings, train: (W, nat, nat) -> W, r: Run<W>, e: Event): Run<W> {
    match e
    case Restart => Run(r.saved, Enter(s, r.saved), r.saved)
    case Tick(timeout) =>
      if r.phase != InEpoch then r
      else if r.now.cursor.pos < s.length then AfterStep(s, train, r, timeout)
      else AfterEpoch(s, r)
  }

  function After<W>(s: Settings, train: (W, nat, nat) -> W, r: Run<W>, events: seq<Event>): Run<W>
    decreases |events|
  {
    if events == [] then r
    else Next(s, train, After(s, train, r, events[..|events| - 1]), events[|events| - 1])
  }

  /** A first launch: nothing trained, nothing saved but the initial state. */
  function Launch<W>(s: Settings, initial: W): Run<W> {
    var p := Progress(0, 0, 0, 0, Cursor(0, 0), initial);
    Run(p, Enter(s, p), p)
  }

  // ----- The loop itself -----

  class Trainer<W> {
    const settings: Settings
    const train: (W, nat, nat) -> W
    var epoch: nat
    var step: nat
    var total: nat
    var consumed: nat
    var cursor: Cursor
    var weights: W
    var saved: Progress<W>

    function Now(): Progress<W>
      reads this
    {
      Progress(epoch, step, total, consumed, cursor, weights)
    }

    /** A session starts from a checkpoint. */
    constructor (s: Settings, train: (W, nat, nat) -> W, saved: Progress<W>)
      ensures settings == s && this.train == train && Now() == saved && this.saved == saved
    {
      this.settings, this.train, this.saved := s, train, saved;
      epoch, step, total, consumed, cursor, weights :=
        saved.epoch, saved.step, saved.total, saved.consumed, saved.cursor, saved.weights;
    }

    method TakeStep(timeout: bool) returns (phase: Phase)
      requires cursor.pos < settings.length
      modifies this
      ensures Run(Now(), phase, saved) == AfterStep(settings, train, old(Run(Now(), InEpoch, saved)), timeout)
    {
      weights := train(weights, cursor.epoch, cursor.pos);
      cursor := Cursor(cursor.epoch, cursor.pos + 1);
      var savesByStep := SavesByStep(settings, Now());
      consumed := consumed + settings.batchSize;
      if settings.enabled && (savesByStep || timeout) {
        var recorded := if settings.moduloStep then (step + 1) % settings.length else step + 1;
        saved := Progress(epoch, recorded, total + 1, consumed, cursor, weights);
      }
      step := step + 1;
      total := total + 1;
      phase := if timeout then TimedOut else if total >= settings.maxSteps then Finished else InEpoch;
    }

    /** The loop over batches of one epoch, cut off after `budget` of them. */
    method Batches(budget: nat, timeouts: nat -> bool) returns (phase: Phase, ghost events: seq<Event>, left: nat)
      requires total < settings.maxSteps && epoch < settings.maxEpochs
      modifies this
      ensures Run(Now(), phase, saved) == After(settings, train, old(Run(Now(), InEpoch, saved)), events)
      ensures Restart !in events && total + left == old(total) + budget && epoch == old(epoch)
      ensures phase == InEpoch && left > 0 ==> cursor.pos >= settings.length && total < settings.maxSteps
      ensures phase == InEpoch && cursor.pos < settings.length ==> left == 0
    {
      ghost var start := Run(Now(), InEpoch, saved);
      left, phase, events := budget, InEpoch, [];
      while cursor.pos < settings.length
        invariant Run(Now(), phase, saved) == After(settings, train, start, events) && Restart !in events
        invariant phase == InEpoch && epoch == old(epoch) && total < settings.maxSteps
        invariant total + left == old(total) + budget
        decreases settings.length - cursor.pos
      {
        if left == 0 {
          return;
        }
        var timeout := timeouts(total + 1);
        ghost var before := events;
        phase := TakeStep(timeout);
        left := left - 1;
        events := events + [Tick(timeout)];
        assert events[..|events| - 1] == before;
        if phase != InEpoch {
          return;
        }
      }
    }

    method EndEpoch() returns (phase: Phase)
      modifies this
      ensures Run(Now(), phase, saved) == AfterEpoch(settings, old(Run(Now(), InEpoch, saved)))
      ensures epoch == old(epoch) + 1 && total == old(total)
    {
      epoch := epoch + 1;
      step := 0;
      cursor := Cursor(cursor.epoch + 1, 0);
      phase := Enter(settings, Now());
    }

    /** A session of the training function, cut off after `budget` batches; the timeout
        checker is asked after each step. */
    method Session(budget: nat, timeouts: nat -> bool) returns (phase: Phase, ghost events: seq<Event>)
      modifies this
      ensures Run(Now(), phase, saved) == After(settings, train, old(Run(Now(), Enter(settings, Now()), saved)), events)
      ensures Restart !in events
      ensures phase == InEpoch ==> total == old(total) + budget
    {
      ghost var start := Run(Now(), Enter(settings, Now()), saved);
      var left := budget;
      events := [];
      phase := Enter(settings, Now());
      while total < settings.maxSteps && epoch < settings.maxEpochs
        invariant Run(Now(), phase, saved) == After(settings, train, start, events) && Restart !in events
        invariant phase == Enter(settings, Now())
        invariant total + left == old(total) + budget
        decreases settings.maxEpochs - epoch
      {
        ghost var more;
        ghost var before := events;
        phase, more, left := Batches(left, timeouts);
        AfterConcat(settings, train, start, before, more);
        events := before + more;
        if phase != InEpoch || cursor.pos < settings.length {
          return;
        }
        ghost var ended := events;
        phase := EndEpoch();
        events := ended + [Tick(false)];
        assert events[..|events| - 1] == ended;
      }
    }
  }

  lemma {:induction false} AfterConcat<W>(s: Settings, train: (W, nat, nat) -> W, r: Run<W>, a: seq<Event>,
                                          b: seq<Event>)
    ensures After(s, train, r, a + b) == After(s, train, After(s, train, r, a), b)
    decreases |b|
  {
    if b == [] {
      assert a + b == a;
    } else {
      AfterConcat(s, train, r, a, b[..|b| - 1]);
      assert (a + b)[..|a + b| - 1] == a + b[..|b| - 1];
    }
  }
}
