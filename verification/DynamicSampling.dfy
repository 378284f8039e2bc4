// Dynamic sampling inside the synchronous GRPO loop: the cache, the generation-batch budget
// and the flag that says the generator's weights are stale.
module DynamicSampling {
  import opened Prelude
  import opened GroupSpread

  /** `need` is prompts per step times generations per prompt. */
  datatype Settings = Settings(dynamic: bool, leaveOneOut: bool, need: nat, maxGenBatches: int,
                               maxEpochs: nat, maxSteps: nat, loaderLength: nat,
                               valAtStart: bool, valAtEnd: bool, valPeriod: int, valStartAt: int)

  /** A rollout with the version of the weights that generated it. */
  datatype Sample = Sample(rollout: Rollout, version: nat)

  type Batch = seq<Rollout>
  type Cache = Option<seq<Sample>>

  function Stamp(rollouts: seq<Rollout>, version: nat): (r: seq<Sample>) {
    seq(|rollouts|, i requires 0 <= i < |rollouts| => Sample(rollouts[i], version))
  }

  /** The samples with a non-zero deviation among the first `n`, in order. */
  function KeptUpTo(batch: Batch, loo: bool, n: nat): seq<Rollout>
    requires n <= |batch|
  {
    if n == 0 then []
    else KeptUpTo(batch, loo, n - 1) + if NonZeroStd(batch, n - 1, loo) then [batch[n - 1]] else []
  }

  function Kept(batch: Batch, loo: bool): seq<Rollout> {
    KeptUpTo(batch, loo, |batch|)
  }

  function Contents(cache: Cache): seq<Sample> {
    if cache.Some? then cache.value else []
  }

  datatype Outcome = Complete(batch: seq<Sample>) | Incomplete | LimitReached | LimitNotPositive

  datatype Sampled = Sampled(outcome: Outcome, cache: Cache)

  /** Grows the cache by what was kept and decides whether it suffices. A batch with
      nothing kept leaves the cache alone and counts as empty. */
  function Decide(s: Settings, kept: seq<Sample>, genBatches: nat, cache: Cache): Sampled {
    var grown := if kept == [] then cache else Some(Contents(cache) + kept);
    var filtered := if kept == [] then [] else Contents(grown);
    if |filtered| >= s.need then Sampled(Complete(filtered[..s.need]), grown)
    else if s.maxGenBatches <= 0 then Sampled(LimitNotPositive, grown)
    else if genBatches <= s.maxGenBatches then Sampled(Incomplete, grown)
    else Sampled(LimitReached, grown)
  }

  /** `dynamic_sampling`: the outcome and the new cache. */
  function Sampling(s: Settings, batch: Batch, version: nat, genBatches: nat, cache: Cache): Sampled {
    if s.dynamic then Decide(s, Stamp(Kept(batch, s.leaveOneOut), version), genBatches, cache)
    else Sampled(Complete(Stamp(batch, version)), cache)
  }

  datatype Status = Running | Stopped | Exhausted | BadLimit

  datatype TrainStep = TrainStep(version: nat, batch: seq<Sample>)

  /** A generation or validation: the generator's weights and the latest weights then. */
  datatype Use = Use(generator: nat, trainer: nat)

  datatype Loop = Loop(epoch: nat, step: nat, total: nat, stale: bool, trainer: nat, generator: nat,
                       cache: Cache, genBatches: nat, status: Status,
                       trained: seq<TrainStep>, uses: seq<Use>)

  function Refit(l: Loop): Loop {
    if l.stale then l.(generator := l.trainer, stale := false) else l
  }

  function Using(l: Loop): Loop {
    l.(uses := l.uses + [Use(l.generator, l.trainer)])
  }

  predicate IsLastStep(s: Settings, l: Loop) {
    l.total + 1 >= s.maxSteps || (l.epoch + 1 == s.maxEpochs && l.step + 1 == s.loaderLength)
  }

  /** Python's `%` with a positive right operand is Dafny's. */
  predicate ShouldValidate(s: Settings, l: Loop) {
    || (s.valPeriod > 0 && l.total + 1 >= s.valStartAt && (l.total + 1) % s.valPeriod == 0)
    || (s.valAtEnd && IsLastStep(s, l))
  }

  /** Training on a full batch, then a possible validation, then the per-step reset. `stop`
      stands for a timeout or a validation score that ends the run after this step. */
  function TrainOn(s: Settings, l: Loop, batch: seq<Sample>, stop: bool): Loop {
    var t := l.(stale := true, trainer := l.trainer + 1, trained := l.trained + [TrainStep(l.trainer, batch)]);
    var v := if ShouldValidate(s, l) then Using(Refit(t)) else t;
    v.(cache := None, genBatches := 0, step := l.step + 1, total := l.total + 1,
       status := if stop || l.total + 1 >= s.maxSteps then Stopped else Running)
  }

  function Absorb(s: Settings, l: Loop, outcome: Outcome, stop: bool): Loop {
    match outcome
    case Complete(full) => TrainOn(s, l, full, stop)
    case Incomplete => l
    case LimitReached => l.(status := Exhausted)
    case LimitNotPositive => l.(status := BadLimit)
  }

  /** The loop when a generation batch has been counted and its rollouts are in. */
  function Generated(l: Loop): Loop {
    Using(Refit(l)).(genBatches := l.genBatches + 1)
  }

  /** One pass of the loop body over a batch from the data loader. */
  function AfterBatch(s: Settings, l: Loop, batch: Batch, stop: bool): Loop {
    var g := Generated(l);
    var r := Sampling(s, batch, g.generator, g.genBatches, g.cache);
    Absorb(s, g.(cache := r.cache), r.outcome, stop)
  }

  function AfterBatches(s: Settings, l: Loop, batches: seq<Batch>, stop: nat -> bool): Loop
    decreases |batches|
  {
    if batches == [] then l
    else
      var b := AfterBatches(s, l, batches[..|batches| - 1], stop);
      if b.status == Running then AfterBatch(s, b, batches[|batches| - 1], stop(b.total)) else b
  }

  function BeginEpoch(l: Loop): Loop {
    l.(cache := None, genBatches := 0)
  }

  function AfterEpoch(s: Settings, l: Loop, batches: seq<Batch>, stop: nat -> bool): Loop {
    var e := AfterBatches(s, BeginEpoch(l), batches, stop);
    if e.status == Running then e.(epoch := l.epoch + 1, step := 0) else e
  }

  predicate Continues(s: Settings, l: Loop) {
    l.status == Running && l.epoch < s.maxEpochs && l.total < s.maxSteps
  }

  function AfterEpochs(s: Settings, l: Loop, epochs: seq<seq<Batch>>, stop: nat -> bool): Loop
    decreases |epochs|
  {
    if epochs == [] then l
    else
      var e := AfterEpochs(s, l, epochs[..|epochs| - 1], stop);
      if Continues(s, e) then AfterEpoch(s, e, epochs[|epochs| - 1], stop) else e
  }

  /** `synchronizer` is its own staleness, if there is a synchronizer. */
  predicate InitiallyStale(completedSteps: nat, synchronizer: Option<bool>) {
    completedSteps > 0 || synchronizer.None? || synchronizer.value
  }

  function Start(s: Settings, epoch: nat, step: nat, total: nat, synchronizer: Option<bool>, trainer: nat,
                 generator: nat): Loop {
    var l := Loop(epoch, step, total, InitiallyStale(total, synchronizer), trainer, generator,
                  None, 0, Running, [], []);
    if s.valAtStart && step == 0 then Using(Refit(l)) else l
  }

  // ----- The loop itself -----

  /** The filter: the rollouts whose standard deviation is not zero, in order. */
  method SelectKept(batch: Batch, loo: bool) returns (kept: seq<Rollout>)
    ensures kept == Kept(batch, loo)
  {
    kept := [];
    var i := 0;
    while i < |batch|
      invariant 0 <= i <= |batch| && kept == KeptUpTo(batch, loo, i)
    {
      if NonZeroStd(batch, i, loo) {
        kept := kept + [batch[i]];
      }
      i := i + 1;
    }
  }

  class SyncTrainer {
    const settings: Settings
    var epoch: nat
    var step: nat
    var total: nat
    var stale: bool
    var trainer: nat
    var generator: nat
    var cache: Cache
    var genBatches: nat
    var status: Status
    var trained: seq<TrainStep>
    var uses: seq<Use>

    function View(): Loop
      reads this
    {
      Loop(epoch, step, total, stale, trainer, generator, cache, genBatches, status, trained, uses)
    }

    constructor (s: Settings, epoch: nat, step: nat, total: nat, synchronizer: Option<bool>, trainer: nat,
                 generator: nat)
      ensures settings == s && View() == Start(s, epoch, step, total, synchronizer, trainer, generator)
    {
      this.settings := s;
      this.epoch, this.step, this.total := epoch, step, total;
      this.stale := total > 0 || synchronizer.None? || synchronizer.value;
      this.trainer, this.generator := trainer, generator;
      this.cache, this.genBatches, this.status, this.trained, this.uses := None, 0, Running, [], [];
      new;
      if s.valAtStart && step == 0 {
        UseGenerator();
      }
    }

    /** Refits the generator if its weights are stale, then generates or validates. */
    method UseGenerator()
      modifies this
      ensures View() == Using(Refit(old(View())))
    {
      if stale {
        generator := trainer;
        stale := false;
      }
      uses := uses + [Use(generator, trainer)];
    }

    /** `dynamic_sampling` on a freshly generated batch. */
    method Sample(batch: Batch) returns (outcome: Outcome)
      modifies this`cache
      ensures Sampled(outcome, cache) == Sampling(settings, batch, generator, genBatches, old(cache))
    {
      if !settings.dynamic {
        return Complete(Stamp(batch, generator));
      }
      var kept := SelectKept(batch, settings.leaveOneOut);
      var filtered := Stamp(kept, generator);
      if |filtered| > 0 {
        cache := Some(if cache.None? then filtered else cache.value + filtered);
        filtered := cache.value;
        assert cache.value == Contents(old(cache)) + Stamp(kept, generator);
      }
      if |filtered| < settings.need {
        if settings.maxGenBatches <= 0 {
          return LimitNotPositive;
        }
        return if genBatches <= settings.maxGenBatches then Incomplete else LimitReached;
      }
      return Complete(filtered[..settings.need]);
    }

    method TrainFull(full: seq<Sample>, stop: bool)
      modifies this
      ensures View() == TrainOn(settings, old(View()), full, stop)
    {
      var validates := ShouldValidate(settings, View());
      stale := true;
      trained := trained + [TrainStep(trainer, full)];
      trainer := trainer + 1;
      if validates {
        UseGenerator();
      }
      cache := None;
      genBatches := 0;
      step := step + 1;
      total := total + 1;
      status := if stop || total >= settings.maxSteps then Stopped else Running;
    }

    /** The body of the loop over the data loader. */
    method Process(batch: Batch, stop: bool)
      modifies this
      ensures View() == AfterBatch(settings, old(View()), batch, stop)
    {
      UseGenerator();
      genBatches := genBatches + 1;
      ghost var g := View();
      var outcome := Sample(batch);
      assert Sampled(outcome, cache) == Sampling(settings, batch, g.generator, g.genBatches, g.cache);
      assert View() == g.(cache := cache);
      match outcome
      case Incomplete =>
      case LimitReached => status := Exhausted;
      case LimitNotPositive => status := BadLimit;
      case Complete(full) => TrainFull(full, stop);
    }

    /** The loop over the data loader. */
    method RunBatches(batches: seq<Batch>, stop: nat -> bool)
      modifies this
      ensures View() == AfterBatches(settings, old(View()), batches, stop)
    {
      ghost var begun := View();
      var i := 0;
      while i < |batches| && status == Running
        invariant 0 <= i <= |batches|
        invariant View() == AfterBatches(settings, begun, batches[..i], stop)
      {
        OneMoreBatch(settings, begun, batches, i, stop);
        Process(batches[i], stop(total));
        i := i + 1;
      }
      StoppedStays(settings, begun, batches, i, stop);
    }

    method RunEpoch(batches: seq<Batch>, stop: nat -> bool)
      requires status == Running
      modifies this
      ensures View() == AfterEpoch(settings, old(View()), batches, stop)
    {
      cache, genBatches := None, 0;
      EpochUnchanged(settings, View(), batches, stop);
      RunBatches(batches, stop);
      if status == Running {
        epoch := epoch + 1;
        step := 0;
      }
    }

    /** `grpo_train`, over what the data loader yields in each epoch. */
    method Train(epochs: seq<seq<Batch>>, stop: nat -> bool)
      modifies this
      ensures View() == AfterEpochs(settings, old(View()), epochs, stop)
    {
      ghost var start := View();
      var i := 0;
      while i < |epochs| && status == Running && epoch < settings.maxEpochs && total < settings.maxSteps
        invariant 0 <= i <= |epochs|
        invariant View() == AfterEpochs(settings, start, epochs[..i], stop)
      {
        assert epochs[..i + 1][..i] == epochs[..i];
        RunEpoch(epochs[i], stop);
        i := i + 1;
      }
      HaltedStays(settings, start, epochs, i, stop);
      assert epochs[..|epochs|] == epochs;
    }
  }

  lemma OneMoreBatch(s: Settings, l: Loop, batches: seq<Batch>, i: nat, stop: nat -> bool)
    requires i < |batches| && AfterBatches(s, l, batches[..i], stop).status == Running
    ensures var b := AfterBatches(s, l, batches[..i], stop);
            AfterBatches(s, l, batches[..i + 1], stop) == AfterBatch(s, b, batches[i], stop(b.total))
  {
    assert batches[..i + 1][..i] == batches[..i];
  }

  lemma {:induction false} StoppedStays(s: Settings, l: Loop, batches: seq<Batch>, i: nat, stop: nat -> bool)
    requires i <= |batches|
    requires i < |batches| ==> AfterBatches(s, l, batches[..i], stop).status != Running
    ensures AfterBatches(s, l, batches[..i], stop) == AfterBatches(s, l, batches, stop)
    decreases |batches|
  {
    if i < |batches| {
      var init := batches[..|batches| - 1];
      assert init[..i] == batches[..i];
      StoppedStays(s, l, init, i, stop);
    } else {
      assert batches[..i] == batches;
    }
  }

  lemma {:induction false} HaltedStays(s: Settings, l: Loop, epochs: seq<seq<Batch>>, i: nat, stop: nat -> bool)
    requires i <= |epochs|
    requires i < |epochs| ==> !Continues(s, AfterEpochs(s, l, epochs[..i], stop))
    ensures AfterEpochs(s, l, epochs[..i], stop) == AfterEpochs(s, l, epochs, stop)
    decreases |epochs|
  {
    if i < |epochs| {
      var init := epochs[..|epochs| - 1];
      assert init[..i] == epochs[..i];
      HaltedStays(s, l, init, i, stop);
    } else {
      assert epochs[..i] == epochs;
    }
  }

  lemma {:induction false} EpochUnchanged(s: Settings, l: Loop, batches: seq<Batch>, stop: nat -> bool)
    ensures AfterBatches(s, l, batches, stop).epoch == l.epoch
    decreases |batches|
  {
    if batches != [] {
      EpochUnchanged(s, l, batches[..|batches| - 1], stop);
    }
  }
}
