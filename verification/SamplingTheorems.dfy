// What holds over every run of the synchronous loop: on-policy training, the cache as a
// window of the epoch, the batch budget, and whole prompt groups.
module SamplingTheorems {
  import opened Arithmetic
  import opened Prelude
  import opened GroupSpread
  import opened DynamicSampling

  // ----- On-policy -----

  predicate AllOf(samples: seq<Sample>, version: nat) {
    forall x :: x in samples ==> x.version == version
  }

  /** Not stale means equal weights; every use of the generator so far was on the latest
      weights, and every training batch was generated by the weights it updated. */
  predicate OnPolicy(l: Loop) {
    && (!l.stale ==> l.generator == l.trainer)
    && (forall u :: u in l.uses ==> u.generator == u.trainer)
    && AllOf(Contents(l.cache), l.trainer)
    && (forall t :: t in l.trained ==> AllOf(t.batch, t.version))
  }

  /** Each training step updated the version its predecessor produced. */
  predicate Numbered(l: Loop) {
    forall i :: 0 <= i < |l.trained| ==> l.trained[i].version == l.trainer - (|l.trained| - i)
  }

  /** A run starts on-policy exactly when it starts stale or with equal weights: the
      synchronizer must not call itself fresh when it is not. */
  lemma StartsOnPolicyIff(s: Settings, epoch: nat, step: nat, total: nat, synchronizer: Option<bool>, trainer: nat,
                          generator: nat)
    ensures OnPolicy(Start(s, epoch, step, total, synchronizer, trainer, generator))
            <==> total > 0 || synchronizer == None || synchronizer == Some(true) || trainer == generator
  {
    var l := Start(s, epoch, step, total, synchronizer, trainer, generator);
    if s.valAtStart && step == 0 {
      assert l.uses[0].trainer == trainer;
      assert l.uses[0] in l.uses;
    }
  }

  lemma StampedAlike(rollouts: seq<Rollout>, version: nat)
    ensures AllOf(Stamp(rollouts, version), version)
  {
  }

  lemma DecideStaysOnPolicy(s: Settings, kept: seq<Sample>, version: nat, genBatches: nat, cache: Cache)
    requires AllOf(Contents(cache), version) && AllOf(kept, version)
    ensures var r := Decide(s, kept, genBatches, cache);
            AllOf(Contents(r.cache), version) && (r.outcome.Complete? ==> AllOf(r.outcome.batch, version))
  {
    assert AllOf(Contents(cache) + kept, version);
  }

  lemma SamplingStaysOnPolicy(s: Settings, batch: Batch, version: nat, genBatches: nat, cache: Cache)
    requires AllOf(Contents(cache), version)
    ensures var r := Sampling(s, batch, version, genBatches, cache);
            AllOf(Contents(r.cache), version) && (r.outcome.Complete? ==> AllOf(r.outcome.batch, version))
  {
    if s.dynamic {
      StampedAlike(Kept(batch, s.leaveOneOut), version);
      DecideStaysOnPolicy(s, Stamp(Kept(batch, s.leaveOneOut), version), version, genBatches, cache);
    } else {
      StampedAlike(batch, version);
    }
  }

  predicate LatestUses(l: Loop) {
    && (!l.stale ==> l.generator == l.trainer)
    && forall u :: u in l.uses ==> u.generator == u.trainer
  }

  lemma UseIsLatest(l: Loop)
    requires LatestUses(l)
    ensures LatestUses(Using(Refit(l))) && Using(Refit(l)).generator == l.trainer
  {
  }

  lemma TrainingStaysOnPolicy(s: Settings, l: Loop, full: seq<Sample>, stop: bool)
    requires OnPolicy(l) && AllOf(full, l.trainer)
    ensures OnPolicy(TrainOn(s, l, full, stop))
    ensures Numbered(l) ==> Numbered(TrainOn(s, l, full, stop))
  {
    var t := l.(stale := true, trainer := l.trainer + 1, trained := l.trained + [TrainStep(l.trainer, full)]);
    assert LatestUses(t);
    UseIsLatest(t);
    forall x | x in t.trained ensures AllOf(x.batch, x.version) {
      assert x in l.trained || x == TrainStep(l.trainer, full);
    }
  }

  lemma AbsorbingStaysOnPolicy(s: Settings, l: Loop, outcome: Outcome, stop: bool)
    requires OnPolicy(l) && (outcome.Complete? ==> AllOf(outcome.batch, l.trainer))
    ensures OnPolicy(Absorb(s, l, outcome, stop))
    ensures Numbered(l) ==> Numbered(Absorb(s, l, outcome, stop))
  {
    if outcome.Complete? {
      TrainingStaysOnPolicy(s, l, outcome.batch, stop);
    }
  }

  lemma BatchStaysOnPolicy(s: Settings, l: Loop, batch: Batch, stop: bool)
    requires OnPolicy(l)
    ensures OnPolicy(AfterBatch(s, l, batch, stop))
    ensures Numbered(l) ==> Numbered(AfterBatch(s, l, batch, stop))
  {
    UseIsLatest(l);
    var g := Generated(l);
    SamplingStaysOnPolicy(s, batch, g.generator, g.genBatches, g.cache);
    var r := Sampling(s, batch, g.generator, g.genBatches, g.cache);
    AbsorbingStaysOnPolicy(s, g.(cache := r.cache), r.outcome, stop);
  }

  lemma {:induction false} BatchesStayOnPolicy(s: Settings, l: Loop, batches: seq<Batch>, stop: nat -> bool)
    requires OnPolicy(l)
    ensures OnPolicy(AfterBatches(s, l, batches, stop))
    ensures Numbered(l) ==> Numbered(AfterBatches(s, l, batches, stop))
    decreases |batches|
  {
    if batches != [] {
      var init := batches[..|batches| - 1];
      BatchesStayOnPolicy(s, l, init, stop);
      var b := AfterBatches(s, l, init, stop);
      BatchStaysOnPolicy(s, b, batches[|batches| - 1], stop(b.total));
    }
  }

  /** Over every run: each generation and validation uses the latest weights, and every
      sample of a training batch, cached or new, was generated by exactly the version that
      the step updates, one version per step. */
  lemma {:induction false} RunStaysOnPolicy(s: Settings, l: Loop, epochs: seq<seq<Batch>>, stop: nat -> bool)
    requires OnPolicy(l) && Numbered(l)
    ensures OnPolicy(AfterEpochs(s, l, epochs, stop)) && Numbered(AfterEpochs(s, l, epochs, stop))
    decreases |epochs|
  {
    if epochs != [] {
      var init := epochs[..|epochs| - 1];
      RunStaysOnPolicy(s, l, init, stop);
      BatchesStayOnPolicy(s, BeginEpoch(AfterEpochs(s, l, init, stop)), epochs[|epochs| - 1], stop);
    }
  }

  // ----- The cache is a window of the epoch -----

  /** The samples kept from several generation batches, in order. */
  function KeptAll(batches: seq<Batch>, loo: bool): seq<Rollout>
    decreases |batches|
  {
    if batches == [] then [] else KeptAll(batches[..|batches| - 1], loo) + Kept(batches[|batches| - 1], loo)
  }

  /** The batches generated since the last training step of the epoch. */
  function Window(l: Loop, batches: seq<Batch>): seq<Batch>
    requires l.genBatches <= |batches|
  {
    batches[|batches| - l.genBatches..]
  }

  predicate CacheIsWindow(s: Settings, l: Loop, batches: seq<Batch>) {
    && l.genBatches <= |batches|
    && Contents(l.cache) == Stamp(KeptAll(Window(l, batches), s.leaveOneOut), l.trainer)
    && (l.genBatches > 0 ==> |Contents(l.cache)| < s.need && l.genBatches <= s.maxGenBatches)
  }

  lemma StampAppends(a: seq<Rollout>, b: seq<Rollout>, v: nat)
    ensures Stamp(a + b, v) == Stamp(a, v) + Stamp(b, v)
  {
  }

  lemma WindowGrows(l: Loop, batches: seq<Batch>, batch: Batch, loo: bool)
    requires l.genBatches <= |batches|
    ensures KeptAll(Window(l, batches) + [batch], loo) == KeptAll(Window(l, batches), loo) + Kept(batch, loo)
    ensures Window(l, batches) + [batch] == (batches + [batch])[|batches| - l.genBatches..]
  {
    assert (Window(l, batches) + [batch])[..l.genBatches] == Window(l, batches);
  }

  /** What one more generation batch does, told from the window alone. */
  ghost predicate StepFromWindow(s: Settings, before: Loop, after: Loop, window: seq<Batch>) {
    var kept := KeptAll(window, s.leaveOneOut);
    if |kept| >= s.need then
      && after.trained == before.trained + [TrainStep(before.trainer, Stamp(kept, before.trainer)[..s.need])]
      && after.cache == None && after.genBatches == 0
      && (after.status == Running || after.status == Stopped)
    else
      && after.trained == before.trained && after.trainer == before.trainer
      && Contents(after.cache) == Stamp(kept, before.trainer) && after.genBatches == |window|
      && (after.status == BadLimit <==> s.maxGenBatches <= 0)
      && (after.status == Exhausted <==> 0 < s.maxGenBatches < |window|)
      && (after.status == Running <==> |window| <= s.maxGenBatches)
  }

  lemma BatchFromWindow(s: Settings, l: Loop, batches: seq<Batch>, batch: Batch, stop: bool)
    requires s.dynamic && OnPolicy(l) && CacheIsWindow(s, l, batches) && l.status == Running
    ensures StepFromWindow(s, l, AfterBatch(s, l, batch, stop), Window(l, batches) + [batch])
  {
    var window := Window(l, batches) + [batch];
    var g := Generated(l);
    var kept := Stamp(Kept(batch, s.leaveOneOut), l.trainer);
    AllKept(s, l, batches, batch);
    var all := Stamp(KeptAll(window, s.leaveOneOut), l.trainer);
    if l.genBatches == 0 {
      assert Window(l, batches) == [];
    }
    DecideFromAll(s, kept, g.genBatches, l.cache, all);
    var r := Decide(s, kept, g.genBatches, l.cache);
    UseIsLatest(l);
    assert AfterBatch(s, l, batch, stop) == Absorb(s, g.(cache := r.cache), r.outcome, stop);
    AbsorbFromWindow(s, l, g.(cache := r.cache), r.outcome, window, stop);
  }

  /** The cache and the new batch together are what the window kept. */
  lemma AllKept(s: Settings, l: Loop, batches: seq<Batch>, batch: Batch)
    requires CacheIsWindow(s, l, batches)
    ensures var all := Stamp(KeptAll(Window(l, batches) + [batch], s.leaveOneOut), l.trainer);
            && all == Contents(l.cache) + Stamp(Kept(batch, s.leaveOneOut), l.trainer)
            && |all| == |KeptAll(Window(l, batches) + [batch], s.leaveOneOut)|
  {
    WindowGrows(l, batches, batch, s.leaveOneOut);
    StampAppends(KeptAll(Window(l, batches), s.leaveOneOut), Kept(batch, s.leaveOneOut), l.trainer);
  }

  lemma AbsorbFromWindow(s: Settings, before: Loop, g: Loop, outcome: Outcome, window: seq<Batch>, stop: bool)
    requires g.trained == before.trained && g.trainer == before.trainer && g.status == Running
             && g.genBatches == |window| > 0
    requires
      var all := Stamp(KeptAll(window, s.leaveOneOut), before.trainer);
      && |all| == |KeptAll(window, s.leaveOneOut)| && Contents(g.cache) == all
      && (|all| >= s.need ==> outcome == Complete(all[..s.need]))
      && (|all| < s.need ==> outcome == if s.maxGenBatches <= 0 then LimitNotPositive
                                         else if |window| <= s.maxGenBatches then Incomplete else LimitReached)
    ensures StepFromWindow(s, before, Absorb(s, g, outcome, stop), window)
  {
  }

  lemma DecideFromAll(s: Settings, kept: seq<Sample>, genBatches: nat, cache: Cache, all: seq<Sample>)
    requires all == Contents(cache) + kept
    requires |Contents(cache)| < s.need || Contents(cache) == []
    ensures var r := Decide(s, kept, genBatches, cache);
            && Contents(r.cache) == all
            && (|all| >= s.need ==> r.outcome == Complete(all[..s.need]))
            && (|all| < s.need ==> r.outcome == if s.maxGenBatches <= 0 then LimitNotPositive
                                               else if genBatches <= s.maxGenBatches then Incomplete else LimitReached)
  {
    if kept == [] {
      assert all == Contents(cache);
    }
  }

  lemma WindowKept(s: Settings, before: Loop, after: Loop, batches: seq<Batch>, batch: Batch)
    requires before.genBatches <= |batches| && after.status == Running
    requires StepFromWindow(s, before, after, Window(before, batches) + [batch])
    ensures CacheIsWindow(s, after, batches + [batch])
  {
    var window := Window(before, batches) + [batch];
    WindowGrows(before, batches, batch, s.leaveOneOut);
    if after.genBatches == 0 {
      StepEmptiesCache(s, before, after, window);
      assert Window(after, batches + [batch]) == [];
    } else {
      OpenWindowKept(s, before, after, batches + [batch], window);
    }
  }

  lemma OpenWindowKept(s: Settings, before: Loop, after: Loop, batches: seq<Batch>, window: seq<Batch>)
    requires after.status == Running && StepFromWindow(s, before, after, window) && after.genBatches > 0
    requires |window| <= |batches| && window == batches[|batches| - |window|..]
    ensures CacheIsWindow(s, after, batches)
  {
    assert Window(after, batches) == window;
  }

  /** At every point of an epoch the cache holds exactly the kept samples generated since
      the last training step, in order, and they are too few to train on. */
  lemma {:induction false} CacheIsAlwaysWindow(s: Settings, l: Loop, batches: seq<Batch>, stop: nat -> bool)
    requires s.dynamic && OnPolicy(l)
    ensures var e := AfterBatches(s, BeginEpoch(l), batches, stop);
            OnPolicy(e) && (e.status == Running ==> CacheIsWindow(s, e, batches))
    decreases |batches|
  {
    var b := BeginEpoch(l);
    BatchesStayOnPolicy(s, b, batches, stop);
    if batches != [] {
      var init, last := batches[..|batches| - 1], batches[|batches| - 1];
      CacheIsAlwaysWindow(s, l, init, stop);
      assert init + [last] == batches;
      var before := AfterBatches(s, b, init, stop);
      if before.status == Running {
        OneMoreWindow(s, before, init, last, stop(before.total));
      }
    } else {
      EmptyEpochIsWindow(s, l);
    }
  }

  lemma EmptyEpochIsWindow(s: Settings, l: Loop)
    ensures CacheIsWindow(s, BeginEpoch(l), [])
  {
    assert Window(BeginEpoch(l), []) == [];
  }

  lemma OneMoreWindow(s: Settings, l: Loop, batches: seq<Batch>, batch: Batch, stop: bool)
    requires s.dynamic && OnPolicy(l) && CacheIsWindow(s, l, batches) && l.status == Running
    ensures var after := AfterBatch(s, l, batch, stop);
            after.status == Running ==> CacheIsWindow(s, after, batches + [batch])
  {
    BatchFromWindow(s, l, batches, batch, stop);
    if AfterBatch(s, l, batch, stop).status == Running {
      WindowKept(s, l, AfterBatch(s, l, batch, stop), batches, batch);
    }
  }

  /** The training batches of an epoch, one generation batch at a time: a step is taken at
      the first batch that brings the window to `need` kept samples, trains on exactly the
      first `need` of them, and the run fails exactly when `maxGenBatches + 1` batches were
      not enough. */
  lemma TrainsOnFirstFullWindow(s: Settings, l: Loop, batches: seq<Batch>, last: Batch, stop: nat -> bool)
    requires s.dynamic && OnPolicy(l)
    requires AfterBatches(s, BeginEpoch(l), batches, stop).status == Running
    ensures var before := AfterBatches(s, BeginEpoch(l), batches, stop);
            var after := AfterBatches(s, BeginEpoch(l), batches + [last], stop);
            && CacheIsWindow(s, before, batches)
            && StepFromWindow(s, before, after, Window(before, batches) + [last])
            && (before.genBatches > 0 ==> |KeptAll(Window(before, batches), s.leaveOneOut)| < s.need)
            && (s.maxGenBatches >= 0 ==> |Window(before, batches) + [last]| <= s.maxGenBatches + 1)
  {
    CacheIsAlwaysWindow(s, l, batches, stop);
    var before := AfterBatches(s, BeginEpoch(l), batches, stop);
    assert (batches + [last])[..|batches|] == batches;
    BatchFromWindow(s, before, batches, last, stop(before.total));
  }

  /** The states of an epoch after 0, 1, 2, ... generation batches. */
  function States(s: Settings, l: Loop, batches: seq<Batch>, stop: nat -> bool): (r: seq<Loop>)
    ensures |r| == |batches| + 1
    ensures forall i :: 0 <= i < |r| ==> r[i] == AfterBatches(s, BeginEpoch(l), batches[..i], stop)
  {
    seq(|batches| + 1, i requires 0 <= i <= |batches| => AfterBatches(s, BeginEpoch(l), batches[..i], stop))
  }

  /** A running state either has no window, and then nothing cached, or its window is one
      batch longer than the running state before it, with nothing trained in between. */
  predicate LinkedAt(states: seq<Loop>, i: nat)
    requires i < |states|
  {
    states[i].status == Running ==>
      if states[i].genBatches == 0 then states[i].cache == None
      else i > 0 && states[i - 1].status == Running && states[i - 1].genBatches + 1 == states[i].genBatches
           && states[i - 1].trained == states[i].trained
  }

  /** Where a running state's window opened nothing was cached, and nothing was trained
      from there to the state. */
  predicate HasOpening(states: seq<Loop>, n: nat)
    requires n < |states|
  {
    states[n].status == Running ==>
      states[n].genBatches <= n &&
      (var o := states[n - states[n].genBatches];
       o.genBatches == 0 && o.cache == None && o.status == Running && o.trained == states[n].trained)
  }

  lemma {:induction false} LinksReachAnOpening(states: seq<Loop>, n: nat)
    requires n < |states| && forall i :: 0 <= i <= n ==> LinkedAt(states, i)
    ensures HasOpening(states, n)
  {
    assert LinkedAt(states, n);
    if states[n].status == Running && states[n].genBatches > 0 {
      LinksReachAnOpening(states, n - 1);
    }
  }

  /** The window opens where the last step of the epoch was taken, or at the epoch's start. */
  lemma WindowOpensAfterAStep(s: Settings, l: Loop, batches: seq<Batch>, stop: nat -> bool)
    requires s.dynamic && OnPolicy(l)
    ensures HasOpening(States(s, l, batches, stop), |batches|)
  {
    forall i: nat | i <= |batches| ensures LinkedAt(States(s, l, batches, stop), i) {
      StatesAreLinked(s, l, batches, stop, i);
    }
    LinksReachAnOpening(States(s, l, batches, stop), |batches|);
  }

  lemma StatesAreLinked(s: Settings, l: Loop, batches: seq<Batch>, stop: nat -> bool, i: nat)
    requires s.dynamic && OnPolicy(l) && i <= |batches|
    ensures LinkedAt(States(s, l, batches, stop), i)
  {
    if i > 0 {
      var init, last := batches[..i - 1], batches[i - 1];
      assert init + [last] == batches[..i];
      assert (init + [last])[..i - 1] == init;
      if States(s, l, batches, stop)[i].status == Running {
        RunningBefore(s, BeginEpoch(l), init, last, stop);
        if States(s, l, batches, stop)[i].genBatches > 0 {
          WindowGoesOn(s, l, init, last, stop);
        } else {
          EmptyWindowHasNoCache(s, l, init, last, stop);
        }
      }
    }
  }

  lemma OpenWindowGrew(s: Settings, before: Loop, after: Loop, window: seq<Batch>)
    requires StepFromWindow(s, before, after, window) && after.genBatches > 0
    ensures after.genBatches == |window| && after.trained == before.trained
  {
  }

  /** A window that is not empty was one shorter a batch ago, with nothing trained since. */
  lemma WindowGoesOn(s: Settings, l: Loop, batches: seq<Batch>, last: Batch, stop: nat -> bool)
    requires s.dynamic && OnPolicy(l) && AfterBatches(s, BeginEpoch(l), batches, stop).status == Running
    requires AfterBatches(s, BeginEpoch(l), batches + [last], stop).genBatches > 0
    ensures var before := AfterBatches(s, BeginEpoch(l), batches, stop);
            var e := AfterBatches(s, BeginEpoch(l), batches + [last], stop);
            before.genBatches + 1 == e.genBatches && before.trained == e.trained
  {
    var before := AfterBatches(s, BeginEpoch(l), batches, stop);
    TrainsOnFirstFullWindow(s, l, batches, last, stop);
    OpenWindowGrew(s, before, AfterBatches(s, BeginEpoch(l), batches + [last], stop), Window(before, batches) + [last]);
  }

  lemma RunningBefore(s: Settings, l: Loop, batches: seq<Batch>, last: Batch, stop: nat -> bool)
    requires AfterBatches(s, l, batches + [last], stop).status == Running
    ensures AfterBatches(s, l, batches, stop).status == Running
  {
    assert (batches + [last])[..|batches|] == batches;
  }

  lemma EmptyWindowHasNoCache(s: Settings, l: Loop, batches: seq<Batch>, last: Batch, stop: nat -> bool)
    requires s.dynamic && OnPolicy(l) && AfterBatches(s, BeginEpoch(l), batches, stop).status == Running
    requires AfterBatches(s, BeginEpoch(l), batches + [last], stop).genBatches == 0
    ensures AfterBatches(s, BeginEpoch(l), batches + [last], stop).cache == None
  {
    var before := AfterBatches(s, BeginEpoch(l), batches, stop);
    TrainsOnFirstFullWindow(s, l, batches, last, stop);
    var after := AfterBatches(s, BeginEpoch(l), batches + [last], stop);
    StepEmptiesCache(s, before, after, Window(before, batches) + [last]);
  }

  lemma StepEmptiesCache(s: Settings, before: Loop, after: Loop, window: seq<Batch>)
    requires StepFromWindow(s, before, after, window) && |window| > 0 && after.genBatches == 0
    ensures after.cache == None
  {
  }

  /** Fewer samples are discarded than the last generation batch contributed. */
  lemma DiscardsLessThanOneBatch(s: Settings, l: Loop, batches: seq<Batch>, last: Batch)
    requires CacheIsWindow(s, l, batches) && s.need > 0
    ensures |KeptAll(Window(l, batches) + [last], s.leaveOneOut)| - s.need < |Kept(last, s.leaveOneOut)|
  {
    WindowGrows(l, batches, last, s.leaveOneOut);
    if l.genBatches == 0 {
      assert Window(l, batches) == [];
    }
  }

  // ----- Whole prompt groups -----

  predicate OnePrompt(group: seq<Rollout>) {
    forall i, j :: 0 <= i < |group| && 0 <= j < |group| ==> group[i].prompt == group[j].prompt
  }

  /** Consecutive groups of `g` rollouts of one prompt each, as repeating a batch gives. */
  predicate WholeGroups(rs: seq<Rollout>, g: nat)
    requires g > 0
  {
    rs == [] || (|rs| >= g && OnePrompt(rs[|rs| - g..]) && WholeGroups(rs[..|rs| - g], g))
  }

  lemma OneMoreGroup(rs: seq<Rollout>, group: seq<Rollout>, g: nat)
    requires g > 0 && WholeGroups(rs, g) && |group| == g && OnePrompt(group)
    ensures WholeGroups(rs + group, g)
  {
    assert (rs + group)[..|rs + group| - g] == rs;
    assert (rs + group)[|rs + group| - g..] == group;
  }

  lemma {:induction false} WholeGroupsAppend(a: seq<Rollout>, b: seq<Rollout>, g: nat)
    requires g > 0 && WholeGroups(a, g) && WholeGroups(b, g)
    ensures WholeGroups(a + b, g)
    decreases |b|
  {
    if b == [] {
      assert a + b == a;
    } else {
      var init, last := b[..|b| - g], b[|b| - g..];
      WholeGroupsAppend(a, init, g);
      OneMoreGroup(a + init, last, g);
      assert a + b == (a + init) + last;
    }
  }

  lemma {:induction false} WholeGroupsPrefix(rs: seq<Rollout>, g: nat, p: nat)
    requires g > 0 && WholeGroups(rs, g) && |rs| >= p * g
    ensures WholeGroups(rs[..p * g], g)
    decreases |rs|
  {
    if |rs| == p * g {
      assert rs[..p * g] == rs;
    } else if rs != [] {
      var q := GroupCount(rs, g);
      Multiples(q, p, g);
      var init := rs[..|rs| - g];
      WholeGroupsPrefix(init, g, p);
      assert init[..p * g] == rs[..p * g];
    }
  }

  lemma {:induction false} GroupCount(rs: seq<Rollout>, g: nat) returns (q: nat)
    requires g > 0 && WholeGroups(rs, g)
    ensures |rs| == q * g
  {
    if rs == [] {
      q := 0;
    } else {
      q := GroupCount(rs[..|rs| - g], g);
      q := q + 1;
    }
  }

  lemma Multiples(q: nat, p: nat, g: nat)
    requires q * g > p * g
    ensures q > p && q * g - g >= p * g
  {
    if q <= p {
      TimesMonotone(q, p, g);
    } else {
      TimesMonotone(p, q - 1, g);
    }
  }

  /** A stretch whose samples all have the same verdict is kept or dropped as one. */
  lemma {:induction false} StretchKept(batch: Batch, loo: bool, lo: nat, hi: nat, verdict: bool)
    requires lo <= hi <= |batch|
    requires forall i :: lo <= i < hi ==> NonZeroStd(batch, i, loo) == verdict
    ensures KeptUpTo(batch, loo, hi) == KeptUpTo(batch, loo, lo) + if verdict then batch[lo..hi] else []
    decreases hi
  {
    if lo < hi {
      StretchKept(batch, loo, lo, hi - 1, verdict);
      assert batch[lo..hi] == batch[lo..hi - 1] + [batch[hi - 1]];
    }
  }

  /** No prompt has one sample kept and another dropped. */
  predicate Untorn(batch: Batch, loo: bool) {
    forall i, j :: 0 <= i < |batch| && 0 <= j < |batch| && SameGroup(batch, i, j) ==>
      NonZeroStd(batch, i, loo) == NonZeroStd(batch, j, loo)
  }

  /** The last group of the first `n` samples. */
  lemma LastGroup(batch: Batch, g: nat, n: nat)
    requires g > 0 && 0 < n <= |batch| && WholeGroups(batch[..n], g)
    ensures n >= g && WholeGroups(batch[..n - g], g) && OnePrompt(batch[n - g..n])
  {
    assert batch[..n][..n - g] == batch[..n - g];
    assert batch[..n][n - g..] == batch[n - g..n];
  }

  lemma SamePromptInStretch(batch: Batch, lo: nat, n: nat, i: nat, j: nat)
    requires lo <= n <= |batch| && OnePrompt(batch[lo..n]) && lo <= i < n && lo <= j < n
    ensures SameGroup(batch, i, j)
  {
    assert batch[lo..n][i - lo] == batch[i] && batch[lo..n][j - lo] == batch[j];
  }

  /** The samples of a stretch are kept or dropped as one. */
  predicate OneVerdict(batch: Batch, loo: bool, lo: nat, n: nat)
    requires lo <= n <= |batch|
  {
    forall i, j :: lo <= i < n && lo <= j < n ==> NonZeroStd(batch, i, loo) == NonZeroStd(batch, j, loo)
  }

  lemma UntornStretch(batch: Batch, loo: bool, lo: nat, n: nat)
    requires lo <= n <= |batch| && OnePrompt(batch[lo..n]) && Untorn(batch, loo)
    ensures OneVerdict(batch, loo, lo, n)
  {
    forall i, j | lo <= i < n && lo <= j < n ensures NonZeroStd(batch, i, loo) == NonZeroStd(batch, j, loo) {
      SamePromptInStretch(batch, lo, n, i, j);
    }
  }

  /** What tears no group keeps whole groups. */
  lemma {:induction false} FilterKeepsWholeGroups(batch: Batch, loo: bool, g: nat, n: nat)
    requires g > 0 && n <= |batch| && WholeGroups(batch[..n], g) && Untorn(batch, loo)
    ensures WholeGroups(KeptUpTo(batch, loo, n), g)
    decreases n
  {
    if n > 0 {
      LastGroup(batch, g, n);
      UntornStretch(batch, loo, n - g, n);
      FilterKeepsWholeGroups(batch, loo, g, n - g);
      GroupFollows(batch, loo, g, n);
    }
  }

  lemma GroupFollows(batch: Batch, loo: bool, g: nat, n: nat)
    requires 0 < g <= n <= |batch| && OnePrompt(batch[n - g..n]) && OneVerdict(batch, loo, n - g, n)
    requires WholeGroups(KeptUpTo(batch, loo, n - g), g)
    ensures WholeGroups(KeptUpTo(batch, loo, n), g)
  {
    var lo := n - g;
    StretchKept(batch, loo, lo, n, NonZeroStd(batch, lo, loo));
    if NonZeroStd(batch, lo, loo) {
      OneMoreGroup(KeptUpTo(batch, loo, lo), batch[lo..n], g);
    } else {
      assert KeptUpTo(batch, loo, n) == KeptUpTo(batch, loo, lo);
    }
  }

  // ----- When filtering keeps whole groups -----

  /** Every prompt of the batch has one group only. */
  predicate OneGroupEach(batch: Batch, g: nat) {
    forall i, j :: 0 <= i < j < |batch| && SameGroup(batch, i, j) ==> j - i < g
  }

  /** What is kept of a stretch. */
  function KeptBetween(batch: Batch, loo: bool, lo: nat, hi: nat): (part: seq<Rollout>)
    requires lo <= hi <= |batch|
    ensures |part| <= hi - lo
    decreases hi
  {
    if lo == hi then []
    else KeptBetween(batch, loo, lo, hi - 1) + if NonZeroStd(batch, hi - 1, loo) then [batch[hi - 1]] else []
  }

  lemma {:induction false} KeptSplits(batch: Batch, loo: bool, lo: nat, hi: nat)
    requires lo <= hi <= |batch|
    ensures KeptUpTo(batch, loo, hi) == KeptUpTo(batch, loo, lo) + KeptBetween(batch, loo, lo, hi)
    decreases hi
  {
    if lo < hi {
      KeptSplits(batch, loo, lo, hi - 1);
    }
  }

  lemma {:induction false} KeptWithin(batch: Batch, loo: bool, lo: nat, hi: nat)
    requires lo <= hi <= |batch|
    ensures forall r :: r in KeptBetween(batch, loo, lo, hi) ==> r in batch[lo..hi]
    decreases hi
  {
    if lo < hi {
      KeptWithin(batch, loo, lo, hi - 1);
      assert batch[lo..hi] == batch[lo..hi - 1] + [batch[hi - 1]];
    }
  }

  /** A stretch that is not kept in part is kept or dropped as one. */
  lemma {:induction false} KeptAsOne(batch: Batch, loo: bool, lo: nat, hi: nat, i: nat)
    requires lo <= i < hi <= |batch|
    ensures |KeptBetween(batch, loo, lo, hi)| == 0 ==> !NonZeroStd(batch, i, loo)
    ensures |KeptBetween(batch, loo, lo, hi)| == hi - lo ==> NonZeroStd(batch, i, loo)
    decreases hi
  {
    if i < hi - 1 {
      KeptAsOne(batch, loo, lo, hi - 1, i);
    }
  }

  /** The samples before `lo` are of other prompts than those from there to `n`. */
  predicate PromptsApart(batch: Batch, lo: nat, n: nat)
    requires lo <= n <= |batch|
  {
    forall i, j :: 0 <= i < lo <= j < n ==> !SameGroup(batch, i, j)
  }

  lemma EarlierPromptsDiffer(batch: Batch, g: nat, n: nat)
    requires 0 < g <= n <= |batch| && OneGroupEach(batch, g) && OnePrompt(batch[n - g..n])
    ensures PromptsApart(batch, n - g, n)
  {
    forall i, j | 0 <= i < n - g <= j < n ensures !SameGroup(batch, i, j) {
      SamePromptInStretch(batch, n - g, n, j, n - 1);
      assert SameGroup(batch, i, j) == SameGroup(batch, i, n - 1);
    }
  }

  /** A kept list that ends in part of a group, and holds other prompts before, is not made of
      whole groups. */
  lemma PartOfAGroupIsNotWhole(before: seq<Rollout>, part: seq<Rollout>, g: nat)
    requires 0 < |part| < g
    requires forall r, q :: r in before && q in part ==> r.prompt != q.prompt
    ensures !WholeGroups(before + part, g)
  {
    var all := before + part;
    if |all| >= g {
      var tail := all[|all| - g..];
      assert tail[g - 1] == part[|part| - 1] && tail[g - 1] in part;
      assert tail[0] == before[|all| - g] && tail[0] in before;
    }
  }

  /** The first `n` samples tear no group. */
  predicate UntornUpTo(batch: Batch, loo: bool, n: nat)
    requires n <= |batch|
  {
    forall i, j :: 0 <= i < n && 0 <= j < n && SameGroup(batch, i, j) ==>
      NonZeroStd(batch, i, loo) == NonZeroStd(batch, j, loo)
  }

  /** Where whole groups are left, the last group was kept or dropped as one. */
  lemma LastGroupStands(batch: Batch, loo: bool, g: nat, n: nat)
    requires 0 < g <= n <= |batch|
    requires PromptsApart(batch, n - g, n)
    requires WholeGroups(KeptUpTo(batch, loo, n), g)
    ensures OneVerdict(batch, loo, n - g, n)
    ensures WholeGroups(KeptUpTo(batch, loo, n - g), g)
  {
    var lo := n - g;
    var before := KeptUpTo(batch, loo, lo);
    var part := KeptBetween(batch, loo, lo, n);
    KeptSplits(batch, loo, 0, lo);
    KeptSplits(batch, loo, lo, n);
    KeptWithin(batch, loo, 0, lo);
    KeptWithin(batch, loo, lo, n);
    assert before == KeptBetween(batch, loo, 0, lo);
    if 0 < |part| < g {
      OtherPrompts(batch, lo, n, before, part);
      PartOfAGroupIsNotWhole(before, part, g);
    } else if |part| == g {
      assert (before + part)[..|before + part| - g] == before;
    } else {
      assert before + part == before;
    }
    forall i | lo <= i < n ensures NonZeroStd(batch, i, loo) <==> |part| == g {
      KeptAsOne(batch, loo, lo, n, i);
    }
  }

  lemma {:induction false} WholeMeansUntorn(batch: Batch, loo: bool, g: nat, n: nat)
    requires g > 0 && n <= |batch| && WholeGroups(batch[..n], g) && OneGroupEach(batch, g)
    requires WholeGroups(KeptUpTo(batch, loo, n), g)
    ensures UntornUpTo(batch, loo, n)
    decreases n
  {
    if n > 0 {
      PeelLastGroup(batch, loo, g, n);
      WholeMeansUntorn(batch, loo, g, n - g);
      UntornJoins(batch, loo, n - g, n);
    }
  }

  lemma PeelLastGroup(batch: Batch, loo: bool, g: nat, n: nat)
    requires g > 0 && 0 < n <= |batch| && WholeGroups(batch[..n], g) && OneGroupEach(batch, g)
    requires WholeGroups(KeptUpTo(batch, loo, n), g)
    ensures n >= g && WholeGroups(batch[..n - g], g) && WholeGroups(KeptUpTo(batch, loo, n - g), g)
    ensures PromptsApart(batch, n - g, n) && OneVerdict(batch, loo, n - g, n)
  {
    LastGroup(batch, g, n);
    EarlierPromptsDiffer(batch, g, n);
    LastGroupStands(batch, loo, g, n);
  }

  lemma UntornJoins(batch: Batch, loo: bool, lo: nat, n: nat)
    requires lo <= n <= |batch| && UntornUpTo(batch, loo, lo)
    requires PromptsApart(batch, lo, n)
    requires OneVerdict(batch, loo, lo, n)
    ensures UntornUpTo(batch, loo, n)
  {
    forall i, j | 0 <= i < n && 0 <= j < n && SameGroup(batch, i, j)
      ensures NonZeroStd(batch, i, loo) == NonZeroStd(batch, j, loo)
    {
      assert SameGroup(batch, j, i);
    }
  }

  lemma OtherPrompts(batch: Batch, lo: nat, n: nat, before: seq<Rollout>, part: seq<Rollout>)
    requires lo <= n <= |batch|
    requires PromptsApart(batch, lo, n)
    requires forall r :: r in before ==> r in batch[0..lo]
    requires forall r :: r in part ==> r in batch[lo..n]
    ensures forall r, q :: r in before && q in part ==> r.prompt != q.prompt
  {
    forall r, q | r in before && q in part ensures r.prompt != q.prompt {
      var i :| 0 <= i < lo && batch[0..lo][i] == r;
      var j :| 0 <= j < n - lo && batch[lo..n][j] == q;
      assert !SameGroup(batch, i, lo + j);
    }
  }

  /** Filtering a batch of whole groups leaves whole groups if and only if it tears none. */
  lemma FilterKeepsGroupsIff(batch: Batch, loo: bool, g: nat)
    requires g > 0 && WholeGroups(batch, g) && OneGroupEach(batch, g)
    ensures WholeGroups(Kept(batch, loo), g) <==> Untorn(batch, loo)
  {
    assert batch[..|batch|] == batch;
    if WholeGroups(Kept(batch, loo), g) {
      WholeMeansUntorn(batch, loo, g, |batch|);
    }
    if Untorn(batch, loo) {
      FilterKeepsWholeGroups(batch, loo, g, |batch|);
    }
  }

  lemma UntornWithoutLeaveOneOut(batch: Batch)
    ensures Untorn(batch, false)
  {
    forall i, j | 0 <= i < |batch| && 0 <= j < |batch| && SameGroup(batch, i, j)
      ensures NonZeroStd(batch, i, false) == NonZeroStd(batch, j, false)
    {
      GroupsStandTogether(batch, i, j);
    }
  }

  /** With leave-one-out a batch is torn exactly by an odd one out. */
  lemma UntornIffNoOddOneOut(batch: Batch)
    ensures Untorn(batch, true) <==>
            forall i, j :: 0 <= i < |batch| && 0 <= j < |batch| ==> !OddOneOut(batch, i, j)
  {
    forall i, j | 0 <= i < |batch| && 0 <= j < |batch| && SameGroup(batch, i, j)
      ensures !NonZeroStd(batch, i, true) && NonZeroStd(batch, j, true) <==> OddOneOut(batch, i, j)
    {
      LeaveOneOutTearsGroupsIff(batch, i, j);
    }
    if !Untorn(batch, true) {
      var i, j :| && 0 <= i < |batch| && 0 <= j < |batch| && SameGroup(batch, i, j)
                  && NonZeroStd(batch, i, true) != NonZeroStd(batch, j, true);
      assert SameGroup(batch, j, i);
      assert OddOneOut(batch, i, j) || OddOneOut(batch, j, i);
    }
  }

  /** The exact condition on the rewards: a batch of whole groups is filtered to whole groups
      with leave-one-out if and only if no sample is the odd one out of its group. */
  lemma LeaveOneOutKeepsGroupsIff(batch: Batch, g: nat)
    requires g > 0 && WholeGroups(batch, g) && OneGroupEach(batch, g)
    ensures WholeGroups(Kept(batch, true), g) <==>
            forall i, j :: 0 <= i < |batch| && 0 <= j < |batch| ==> !OddOneOut(batch, i, j)
  {
    FilterKeepsGroupsIff(batch, true, g);
    UntornIffNoOddOneOut(batch);
  }

  function Rollouts(samples: seq<Sample>): seq<Rollout> {
    seq(|samples|, i requires 0 <= i < |samples| => samples[i].rollout)
  }

  predicate GroupsIntact(s: Settings, g: nat, l: Loop)
    requires g > 0
  {
    && WholeGroups(Rollouts(Contents(l.cache)), g)
    && forall t :: t in l.trained ==> |t.batch| == s.need && WholeGroups(Rollouts(t.batch), g)
  }

  predicate AllWhole(batches: seq<Batch>, loo: bool, g: nat)
    requires g > 0
  {
    forall i :: 0 <= i < |batches| ==> WholeGroups(batches[i], g) && Untorn(batches[i], loo)
  }

  lemma DecideKeepsGroups(s: Settings, g: nat, p: nat, kept: seq<Sample>, genBatches: nat, cache: Cache)
    requires g > 0 && s.need == p * g
    requires WholeGroups(Rollouts(Contents(cache)), g) && WholeGroups(Rollouts(kept), g)
    ensures var r := Decide(s, kept, genBatches, cache);
            && WholeGroups(Rollouts(Contents(r.cache)), g)
            && (r.outcome.Complete? ==> |r.outcome.batch| == s.need && WholeGroups(Rollouts(r.outcome.batch), g))
  {
    JoinedAreWhole(Contents(cache), kept, g);
    var source := if kept == [] then [] else Contents(cache) + kept;
    assert WholeGroups(Rollouts(source), g);
    if |source| >= s.need {
      PrefixIsWhole(source, g, p);
    }
  }

  lemma PrefixIsWhole(source: seq<Sample>, g: nat, p: nat)
    requires g > 0 && WholeGroups(Rollouts(source), g) && |source| >= p * g
    ensures WholeGroups(Rollouts(source[..p * g]), g)
  {
    WholeGroupsPrefix(Rollouts(source), g, p);
    assert Rollouts(source[..p * g]) == Rollouts(source)[..p * g];
  }

  lemma KeptAreWhole(batch: Batch, loo: bool, g: nat, version: nat)
    requires g > 0 && WholeGroups(batch, g) && Untorn(batch, loo)
    ensures WholeGroups(Rollouts(Stamp(Kept(batch, loo), version)), g)
  {
    assert batch[..|batch|] == batch;
    FilterKeepsWholeGroups(batch, loo, g, |batch|);
    assert Rollouts(Stamp(Kept(batch, loo), version)) == Kept(batch, loo);
  }

  lemma JoinedAreWhole(a: seq<Sample>, b: seq<Sample>, g: nat)
    requires g > 0 && WholeGroups(Rollouts(a), g) && WholeGroups(Rollouts(b), g)
    ensures WholeGroups(Rollouts(a + b), g)
  {
    WholeGroupsAppend(Rollouts(a), Rollouts(b), g);
    assert Rollouts(a + b) == Rollouts(a) + Rollouts(b);
  }

  lemma TrainingKeepsGroups(s: Settings, g: nat, l: Loop, full: seq<Sample>, stop: bool)
    requires g > 0 && GroupsIntact(s, g, l) && |full| == s.need && WholeGroups(Rollouts(full), g)
    ensures GroupsIntact(s, g, TrainOn(s, l, full, stop))
  {
    var t := TrainOn(s, l, full, stop);
    forall x | x in t.trained ensures |x.batch| == s.need && WholeGroups(Rollouts(x.batch), g) {
      assert x in l.trained || x == TrainStep(l.trainer, full);
    }
  }

  lemma BatchKeepsGroups(s: Settings, g: nat, p: nat, l: Loop, batch: Batch, stop: bool)
    requires g > 0 && s.dynamic && s.need == p * g
    requires GroupsIntact(s, g, l) && WholeGroups(batch, g) && Untorn(batch, s.leaveOneOut)
    ensures GroupsIntact(s, g, AfterBatch(s, l, batch, stop))
  {
    var b := Generated(l);
    var kept := Stamp(Kept(batch, s.leaveOneOut), b.generator);
    KeptAreWhole(batch, s.leaveOneOut, g, b.generator);
    DecideKeepsGroups(s, g, p, kept, b.genBatches, b.cache);
    var r := Decide(s, kept, b.genBatches, b.cache);
    assert AfterBatch(s, l, batch, stop) == Absorb(s, b.(cache := r.cache), r.outcome, stop);
    AbsorbKeepsGroups(s, g, b.(cache := r.cache), r.outcome, stop);
  }

  lemma AbsorbKeepsGroups(s: Settings, g: nat, l: Loop, outcome: Outcome, stop: bool)
    requires g > 0 && GroupsIntact(s, g, l)
    requires outcome.Complete? ==> |outcome.batch| == s.need && WholeGroups(Rollouts(outcome.batch), g)
    ensures GroupsIntact(s, g, Absorb(s, l, outcome, stop))
  {
    if outcome.Complete? {
      TrainingKeepsGroups(s, g, l, outcome.batch, stop);
    }
  }

  lemma {:induction false} BatchesKeepGroups(s: Settings, g: nat, p: nat, l: Loop, batches: seq<Batch>,
                                             stop: nat -> bool)
    requires g > 0 && s.dynamic && s.need == p * g
    requires GroupsIntact(s, g, l) && AllWhole(batches, s.leaveOneOut, g)
    ensures GroupsIntact(s, g, AfterBatches(s, l, batches, stop))
    decreases |batches|
  {
    if batches != [] {
      var init := batches[..|batches| - 1];
      BatchesKeepGroups(s, g, p, l, init, stop);
      var b := AfterBatches(s, l, init, stop);
      BatchKeepsGroups(s, g, p, b, batches[|batches| - 1], stop(b.total));
    }
  }

  /** Over every run whose generation batches are torn nowhere, with or without leave-one-out:
      every training batch has exactly `need` samples and consists of whole prompt groups. */
  lemma {:induction false} RunKeepsGroups(s: Settings, g: nat, p: nat, l: Loop, epochs: seq<seq<Batch>>,
                                          stop: nat -> bool)
    requires g > 0 && s.dynamic && s.need == p * g
    requires GroupsIntact(s, g, l) && forall i :: 0 <= i < |epochs| ==> AllWhole(epochs[i], s.leaveOneOut, g)
    ensures GroupsIntact(s, g, AfterEpochs(s, l, epochs, stop))
    decreases |epochs|
  {
    if epochs != [] {
      var init := epochs[..|epochs| - 1];
      RunKeepsGroups(s, g, p, l, init, stop);
      var e := AfterEpochs(s, l, init, stop);
      assert GroupsIntact(s, g, BeginEpoch(e));
      BatchesKeepGroups(s, g, p, BeginEpoch(e), epochs[|epochs| - 1], stop);
    }
  }

  /** Without leave-one-out no condition on the rewards is needed. */
  lemma PlainRunKeepsGroups(s: Settings, g: nat, p: nat, l: Loop, epochs: seq<seq<Batch>>, stop: nat -> bool)
    requires g > 0 && s.dynamic && !s.leaveOneOut && s.need == p * g && GroupsIntact(s, g, l)
    requires forall i, j :: 0 <= i < |epochs| && 0 <= j < |epochs[i]| ==> WholeGroups(epochs[i][j], g)
    ensures GroupsIntact(s, g, AfterEpochs(s, l, epochs, stop))
  {
    forall i | 0 <= i < |epochs| ensures AllWhole(epochs[i], false, g) {
      forall j | 0 <= j < |epochs[i]| ensures Untorn(epochs[i][j], false) {
        UntornWithoutLeaveOneOut(epochs[i][j]);
      }
    }
    RunKeepsGroups(s, g, p, l, epochs, stop);
  }

  /** With leave-one-out it fails where a group is torn: two groups with one success each lose exactly their
      successes, and a batch of one group's size mixes the two prompts. */
  lemma LeaveOneOutMixesPrompts(a: nat, b: nat, won: real, lost: real)
    requires a != b && won != lost
    ensures var batch := [Rollout(a, won), Rollout(a, lost), Rollout(a, lost), Rollout(b, won), Rollout(b, lost),
                          Rollout(b, lost)];
            && WholeGroups(batch, 3)
            && Kept(batch, true) == [Rollout(a, lost), Rollout(a, lost), Rollout(b, lost), Rollout(b, lost)]
            && !WholeGroups(Kept(batch, true)[..3], 3)
  {
    var batch := [Rollout(a, won), Rollout(a, lost), Rollout(a, lost), Rollout(b, won), Rollout(b, lost),
                  Rollout(b, lost)];
    assert batch[3..] == [Rollout(b, won), Rollout(b, lost), Rollout(b, lost)];
    assert batch[..3] == [Rollout(a, won), Rollout(a, lost), Rollout(a, lost)];
    assert batch[..3][0..] == batch[..3] && batch[..3][..0] == [];
    OnlyLosersKept(batch, a, b, won, lost);
    var kept := [Rollout(a, lost), Rollout(a, lost), Rollout(b, lost), Rollout(b, lost)];
    assert kept[..3][0..][0].prompt == a && kept[..3][0..][2].prompt == b;
  }

  lemma OnlyLosersKept(batch: Batch, a: nat, b: nat, won: real, lost: real)
    requires a != b && won != lost
    requires batch == [Rollout(a, won), Rollout(a, lost), Rollout(a, lost), Rollout(b, won), Rollout(b, lost),
                       Rollout(b, lost)]
    ensures Kept(batch, true) == [Rollout(a, lost), Rollout(a, lost), Rollout(b, lost), Rollout(b, lost)]
  {
    forall i | 0 <= i < 6 ensures NonZeroStd(batch, i, true) <==> i != 0 && i != 3 {
      KeptIffPeersDiffer(batch, i, true);
      var first := if i < 3 then 0 else 3;
      var other := if i == first + 1 then first + 2 else first + 1;
      assert i != first ==> IsPeer(batch, i, true, first) && IsPeer(batch, i, true, other);
    }
    assert KeptUpTo(batch, true, 1) == [];
    StretchKept(batch, true, 1, 3, true);
    assert KeptUpTo(batch, true, 4) == KeptUpTo(batch, true, 3);
    StretchKept(batch, true, 4, 6, true);
  }
}
