// What the steps of the synchronous loop do, told from the fields before and after them: the
// plain loop without dynamic sampling, the limits, validations, and the start.
module SamplingSteps {
  import opened Arithmetic
  import opened Prelude
  import opened GroupSpread
  import opened DynamicSampling
  import opened SamplingTheorems

  // ----- Without dynamic sampling -----

  /** Without dynamic sampling a generation batch is trained on as a whole, by the weights that
      generated it, and nothing is cached. */
  lemma PlainBatchTrains(s: Settings, l: Loop, batch: Batch, stop: bool)
    requires !s.dynamic && LatestUses(l)
    ensures
      var l' := AfterBatch(s, l, batch, stop);
      && l'.trained == l.trained + [TrainStep(l.trainer, Stamp(batch, l.trainer))]
      && l'.trainer == l.trainer + 1 && l'.total == l.total + 1
      && l'.cache == None && l'.genBatches == 0 && LatestUses(l')
      && (l'.status == Running <==> !stop && l.total + 1 < s.maxSteps)
  {
    UseIsLatest(l);
    var g := Generated(l);
    var full := Stamp(batch, l.trainer);
    var t := g.(stale := true, trainer := g.trainer + 1, trained := g.trained + [TrainStep(g.trainer, full)]);
    assert LatestUses(t);
    UseIsLatest(t);
  }

  /** From `l` to `l'` the loop trained once on each of the first `m` batches, in order. */
  ghost predicate TrainedFirst(l: Loop, l': Loop, batches: seq<Batch>, m: nat) {
    && m <= |batches| && l'.total == l.total + m && l'.trainer == l.trainer + m
    && |l'.trained| == |l.trained| + m && l'.trained[..|l.trained|] == l.trained
    && forall i :: 0 <= i < m ==>
         l'.trained[|l.trained| + i] == TrainStep(l.trainer + i, Stamp(batches[i], l.trainer + i))
  }

  lemma OneMoreTrained(l: Loop, b: Loop, l': Loop, batches: seq<Batch>, batch: Batch, m: nat)
    requires m == |batches| && TrainedFirst(l, b, batches, m)
    requires l'.trained == b.trained + [TrainStep(b.trainer, Stamp(batch, b.trainer))]
    requires l'.total == b.total + 1 && l'.trainer == b.trainer + 1
    ensures TrainedFirst(l, l', batches + [batch], m + 1)
  {
    assert l'.trained[..|l.trained|] == b.trained[..|l.trained|];
  }

  lemma {:induction false} PlainBatchesTrain(s: Settings, l: Loop, batches: seq<Batch>, stop: nat -> bool)
    returns (m: nat)
    requires !s.dynamic && LatestUses(l) && l.cache == None && l.genBatches == 0
    ensures
      var l' := AfterBatches(s, l, batches, stop);
      && TrainedFirst(l, l', batches, m) && LatestUses(l') && l'.cache == None && l'.genBatches == 0
      && (l'.status == Running ==> m == |batches|)
    decreases |batches|
  {
    if batches == [] {
      m := 0;
    } else {
      var init, last := batches[..|batches| - 1], batches[|batches| - 1];
      var b := AfterBatches(s, l, init, stop);
      m := PlainBatchesTrain(s, l, init, stop);
      assert batches == init + [last];
      if b.status == Running {
        PlainBatchTrains(s, b, last, stop(b.total));
        OneMoreTrained(l, b, AfterBatch(s, b, last, stop(b.total)), init, last, m);
        m := m + 1;
      }
    }
  }

  function Flat(epochs: seq<seq<Batch>>): seq<Batch> {
    if epochs == [] then [] else Flat(epochs[..|epochs| - 1]) + epochs[|epochs| - 1]
  }

  lemma TrainedThen(l: Loop, b: Loop, l': Loop, first: seq<Batch>, second: seq<Batch>, m: nat)
    requires TrainedFirst(l, b, first, |first|) && TrainedFirst(b, l', second, m)
    ensures TrainedFirst(l, l', first + second, |first| + m)
  {
    assert l'.trained[..|l.trained|] == l'.trained[..|b.trained|][..|l.trained|];
    forall i | 0 <= i < |first| + m
      ensures l'.trained[|l.trained| + i] == TrainStep(l.trainer + i, Stamp((first + second)[i], l.trainer + i))
    {
      if i < |first| {
        assert l'.trained[..|b.trained|][|l.trained| + i] == b.trained[|l.trained| + i];
      } else {
        assert l'.trained[|b.trained| + (i - |first|)]
               == TrainStep(b.trainer + (i - |first|), Stamp(second[i - |first|], b.trainer + (i - |first|)));
      }
    }
  }

  /** Over whole runs without dynamic sampling: one training step for each generation batch, in
      order, on all of that batch and by the weights that generated it; nothing is skipped until
      the run is over. */
  lemma {:induction false} PlainRunTrainsEveryBatch(s: Settings, l: Loop, epochs: seq<seq<Batch>>, stop: nat -> bool)
    returns (m: nat)
    requires !s.dynamic && LatestUses(l)
    ensures
      var l' := AfterEpochs(s, l, epochs, stop);
      && TrainedFirst(l, l', Flat(epochs), m) && LatestUses(l')
      && (l'.status == Running && l'.epoch < s.maxEpochs && l'.total < s.maxSteps ==> m == |Flat(epochs)|)
    decreases |epochs|
  {
    if epochs == [] {
      m := 0;
    } else {
      var init, last := epochs[..|epochs| - 1], epochs[|epochs| - 1];
      var b := AfterEpochs(s, l, init, stop);
      m := PlainRunTrainsEveryBatch(s, l, init, stop);
      if Continues(s, b) {
        var more := PlainEpochTrains(s, b, last, stop);
        TrainedThen(l, b, AfterEpoch(s, b, last, stop), Flat(init), last, more);
        m := m + more;
      } else {
        TrainedStays(l, b, Flat(init), last, m);
      }
    }
  }

  lemma PlainEpochTrains(s: Settings, l: Loop, batches: seq<Batch>, stop: nat -> bool) returns (m: nat)
    requires !s.dynamic && LatestUses(l)
    ensures
      var l' := AfterEpoch(s, l, batches, stop);
      TrainedFirst(l, l', batches, m) && LatestUses(l') && (l'.status == Running ==> m == |batches|)
  {
    var b := BeginEpoch(l);
    m := PlainBatchesTrain(s, b, batches, stop);
    SameTraining(b, AfterBatches(s, b, batches, stop), l, AfterEpoch(s, l, batches, stop), batches, m);
  }

  predicate SameCounts(a: Loop, b: Loop) {
    a.trained == b.trained && a.trainer == b.trainer && a.total == b.total
  }

  lemma SameTraining(a: Loop, a': Loop, b: Loop, b': Loop, batches: seq<Batch>, m: nat)
    requires TrainedFirst(a, a', batches, m) && SameCounts(a, b) && SameCounts(a', b')
    ensures TrainedFirst(b, b', batches, m)
  {
  }

  lemma TrainedStays(l: Loop, l': Loop, first: seq<Batch>, second: seq<Batch>, m: nat)
    requires TrainedFirst(l, l', first, m)
    ensures TrainedFirst(l, l', first + second, m)
  {
  }

  // ----- Limits -----

  /** Nothing was trained past the limits, and a run that stopped by itself is at the step
      limit. */
  ghost predicate InLimits(s: Settings, from: Loop, l: Loop) {
    && l.total <= s.maxSteps && l.epoch <= s.maxEpochs
    && |l.trained| - |from.trained| == l.total - from.total
    && (l.status == Stopped ==> l.total == s.maxSteps)
  }

  lemma BatchInLimits(s: Settings, from: Loop, l: Loop, batch: Batch)
    requires InLimits(s, from, l) && l.status == Running && l.total < s.maxSteps
    ensures
      var l' := AfterBatch(s, l, batch, false);
      InLimits(s, from, l') && (l'.status == Running ==> l'.total < s.maxSteps) && l'.epoch == l.epoch
  {
    var g := Generated(l);
    var r := Sampling(s, batch, g.generator, g.genBatches, g.cache);
    assert g.trained == l.trained && g.total == l.total;
    if r.outcome.Complete? {
      TrainingStepIs(s, g.(cache := r.cache), r.outcome.batch, false);
    }
  }

  lemma {:induction false} BatchesInLimits(s: Settings, from: Loop, l: Loop, batches: seq<Batch>)
    requires InLimits(s, from, l) && l.status == Running && l.total < s.maxSteps
    ensures
      var l' := AfterBatches(s, l, batches, _ => false);
      InLimits(s, from, l') && (l'.status == Running ==> l'.total < s.maxSteps) && l'.epoch == l.epoch
    decreases |batches|
  {
    if batches != [] {
      var b := AfterBatches(s, l, batches[..|batches| - 1], _ => false);
      BatchesInLimits(s, from, l, batches[..|batches| - 1]);
      if b.status == Running {
        BatchInLimits(s, from, b, batches[|batches| - 1]);
      }
    }
  }

  /** Over every run that is left alone: no step past `maxSteps`, no epoch past `maxEpochs`; it
      stops only at `maxSteps`; and as long as it may go on every epoch so far was counted. */
  lemma {:induction false} RunKeepsLimits(s: Settings, l: Loop, epochs: seq<seq<Batch>>)
    requires l.status == Running && l.total <= s.maxSteps && l.epoch <= s.maxEpochs
    ensures
      var l' := AfterEpochs(s, l, epochs, _ => false);
      && InLimits(s, l, l')
      && (l'.status == Running && l'.epoch < s.maxEpochs && l'.total < s.maxSteps ==>
            l'.epoch == l.epoch + |epochs|)
    decreases |epochs|
  {
    if epochs != [] {
      var init := epochs[..|epochs| - 1];
      RunKeepsLimits(s, l, init);
      var b := AfterEpochs(s, l, init, _ => false);
      if Continues(s, b) {
        BatchesInLimits(s, l, BeginEpoch(b), epochs[|epochs| - 1]);
      }
    }
  }

  // ----- One training step -----

  /** A validation is due after this step: at the period, from the first step that allows it, or
      at the end of the run if that is asked for. */
  ghost predicate ValidationDue(s: Settings, l: Loop) {
    || (s.valPeriod > 0 && l.total + 1 >= s.valStartAt && exists n: int :: l.total + 1 == n * s.valPeriod)
    || (s.valAtEnd && (l.total + 1 >= s.maxSteps || (l.epoch + 1 == s.maxEpochs && l.step + 1 == s.loaderLength)))
  }

  lemma DivisibleIff(n: nat, d: nat)
    requires d > 0
    ensures n % d == 0 <==> exists q: int :: n == q * d
  {
    if n % d == 0 {
      assert n == (n / d) * d;
    }
    if q: int :| n == q * d {
      Quotient(if q >= 0 then q else 0, 0, d);
    }
  }

  /** A training step updates the weights once, on the batch it was given, and stops the run at
      `maxSteps` or on request; the generator is brought up to date and used if and only if a
      validation is due, and is left stale otherwise. */
  lemma TrainingStepIs(s: Settings, l: Loop, batch: seq<Sample>, stop: bool)
    ensures
      var l' := TrainOn(s, l, batch, stop);
      && l'.trained == l.trained + [TrainStep(l.trainer, batch)] && l'.trainer == l.trainer + 1
      && l'.step == l.step + 1 && l'.total == l.total + 1 && l'.epoch == l.epoch
      && l'.cache == None && l'.genBatches == 0
      && (l'.status == Stopped <==> stop || l.total + 1 >= s.maxSteps)
      && (l'.status == Running <==> !stop && l.total + 1 < s.maxSteps)
      && (if ValidationDue(s, l)
          then !l'.stale && l'.generator == l.trainer + 1 && l'.uses == l.uses + [Use(l.trainer + 1, l.trainer + 1)]
          else l'.stale && l'.generator == l.generator && l'.uses == l.uses)
  {
    if s.valPeriod > 0 {
      DivisibleIff(l.total + 1, s.valPeriod);
    }
  }

  /** A generation batch is counted, uses the latest weights if the generator was stale, and
      leaves the generator fresh. */
  lemma GenerationIs(l: Loop)
    ensures
      var g, used := Generated(l), if l.stale then l.trainer else l.generator;
      g == l.(stale := false, generator := used, genBatches := l.genBatches + 1,
              uses := l.uses + [Use(used, l.trainer)])
  {
  }

  /** An epoch starts with an empty cache and a full batch budget; one that is not cut short
      counts, and the next starts at step 0. */
  lemma EpochIs(s: Settings, l: Loop, batches: seq<Batch>, stop: nat -> bool)
    ensures
      var e := AfterBatches(s, l.(cache := None, genBatches := 0), batches, stop);
      var l' := AfterEpoch(s, l, batches, stop);
      && (e.status == Running ==> l' == e.(epoch := l.epoch + 1, step := 0))
      && (e.status != Running ==> l' == e)
  {
  }

  /** A batch leaves the epoch alone and counts a step exactly when it trains. */
  lemma BatchCounts(s: Settings, l: Loop, batch: Batch, stop: bool)
    ensures
      var l' := AfterBatch(s, l, batch, stop);
      && l'.epoch == l.epoch && l'.step - l.step == l'.total - l.total == |l'.trained| - |l.trained|
      && (l'.total == l.total || l'.total == l.total + 1)
  {
    var g := Generated(l);
    var r := Sampling(s, batch, g.generator, g.genBatches, g.cache);
    if r.outcome.Complete? {
      TrainingStepIs(s, g.(cache := r.cache), r.outcome.batch, stop);
    }
  }

  /** A run starts with a stale generator unless nothing has been trained and a synchronizer
      says it is fresh; it validates first if asked to and nothing of the epoch is done. */
  lemma StartIs(s: Settings, epoch: nat, step: nat, total: nat, synchronizer: Option<bool>, trainer: nat,
                generator: nat)
    ensures
      var l := Start(s, epoch, step, total, synchronizer, trainer, generator);
      var isFresh := total == 0 && synchronizer == Some(false);
      && l.epoch == epoch && l.step == step && l.total == total && l.trainer == trainer
      && l.cache == None && l.genBatches == 0 && l.status == Running && l.trained == []
      && (if s.valAtStart && step == 0
          then !l.stale && l.generator == (if isFresh then generator else trainer)
               && l.uses == [Use(if isFresh then generator else trainer, trainer)]
          else l.stale == !isFresh && l.generator == generator && l.uses == [])
  {
  }
}
