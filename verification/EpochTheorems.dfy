// Sessions that crash, time out and resume end like one that never stopped.
module EpochTheorems {
  import opened Arithmetic
  import opened EpochLoop

  /** The weights after `n` steps over the batches in order, pass after pass. */
  function WeightsAfter<W>(s: Settings, train: (W, nat, nat) -> W, initial: W, n: nat): W
    requires n > 0 ==> s.length > 0
  {
    if n == 0 then initial
    else train(WeightsAfter(s, train, initial, n - 1), (n - 1) / s.length, (n - 1) % s.length)
  }

  /** A progress that an uninterrupted run passes through. The step counter is the cursor's
      position, except that DPO's checkpoint at the end of an epoch says 0. */
  ghost predicate OnTrack<W>(s: Settings, train: (W, nat, nat) -> W, initial: W, p: Progress<W>) {
    && p.epoch == p.cursor.epoch && p.cursor.pos <= s.length
    && p.total == p.epoch * s.length + p.cursor.pos
    && p.consumed == p.total * s.batchSize
    && (p.step == p.cursor.pos || (s.moduloStep && p.cursor.pos == s.length && p.step == 0))
    && (p.total > 0 ==> s.length > 0)
    && p.weights == WeightsAfter(s, train, initial, p.total)
    && WithinLimits(s, p)
  }

  predicate WithinLimits<W>(s: Settings, p: Progress<W>) {
    && p.epoch <= s.maxEpochs && p.total <= s.maxSteps
    && (p.cursor.pos > 0 ==> p.epoch < s.maxEpochs)
    && (p.total == s.maxSteps ==> p.cursor.pos > 0 || p.epoch == 0)
  }

  /** The live progress and the checkpoint are on track, and a run that has reached the
      target has saved it. */
  ghost predicate Sound<W>(s: Settings, train: (W, nat, nat) -> W, initial: W, r: Run<W>) {
    && OnTrack(s, train, initial, r.now) && OnTrack(s, train, initial, r.saved)
    && (r.phase == InEpoch ==> r.now.total < s.maxSteps && r.now.epoch < s.maxEpochs)
    && (r.phase == Finished ==> r.now.total >= s.maxSteps || r.now.epoch >= s.maxEpochs)
    && (s.enabled && r.now.total == Target(s) ==> r.saved.total == Target(s))
  }

  lemma LaunchSound<W>(s: Settings, train: (W, nat, nat) -> W, initial: W)
    ensures Sound(s, train, initial, Launch(s, initial))
  {
  }

  /** The test for the last step holds exactly on the step that reaches the target. */
  lemma IsLastStepIffReachesTarget<W>(s: Settings, train: (W, nat, nat) -> W, initial: W, r: Run<W>)
    requires Sound(s, train, initial, r) && r.phase == InEpoch && r.now.cursor.pos < s.length
    ensures IsLastStep(s, r.now) <==> r.now.total + 1 == Target(s)
    ensures r.now.total < Target(s)
  {
    LastStepArithmetic(r.now.epoch, r.now.cursor.pos, s.length, s.maxEpochs, s.maxSteps);
  }

  lemma LastStepArithmetic(epoch: nat, pos: nat, length: nat, maxEpochs: nat, maxSteps: nat)
    requires pos < length && epoch < maxEpochs && epoch * length + pos < maxSteps
    ensures var total, all := epoch * length + pos, maxEpochs * length;
            var target := if maxSteps <= all then maxSteps else all;
            && (total + 1 >= maxSteps || (epoch + 1 == maxEpochs && pos + 1 == length) <==> total + 1 == target)
            && total < target
  {
    TimesNext(epoch, length);
    if epoch + 1 < maxEpochs {
      TimesMonotone(epoch + 2, maxEpochs, length);
      TimesNext(epoch + 1, length);
    }
  }

  lemma StepOnTrack<W>(s: Settings, train: (W, nat, nat) -> W, initial: W, p: Progress<W>)
    requires OnTrack(s, train, initial, p) && p.cursor.pos < s.length && p.total < s.maxSteps && p.epoch < s.maxEpochs
    ensures OnTrack(s, train, initial, Trained(s, train, p))
    ensures OnTrack(s, train, initial, Snapshot(s, Trained(s, train, p)))
  {
    Quotient(p.epoch, p.cursor.pos, s.length);
    TimesNext(p.total, s.batchSize);
    var q := Trained(s, train, p);
    if q.step < s.length {
      Quotient(0, q.step, s.length);
    } else {
      Quotient(1, 0, s.length);
    }
  }

  lemma StepSound<W>(s: Settings, train: (W, nat, nat) -> W, initial: W, r: Run<W>, timeout: bool)
    requires Sound(s, train, initial, r) && r.phase == InEpoch && r.now.cursor.pos < s.length
    ensures Sound(s, train, initial, AfterStep(s, train, r, timeout))
  {
    StepOnTrack(s, train, initial, r.now);
    IsLastStepIffReachesTarget(s, train, initial, r);
  }

  lemma EpochSound<W>(s: Settings, train: (W, nat, nat) -> W, initial: W, r: Run<W>)
    requires Sound(s, train, initial, r) && r.phase == InEpoch && r.now.cursor.pos == s.length
    ensures Sound(s, train, initial, AfterEpoch(s, r))
  {
    TimesNext(r.now.epoch, s.length);
  }

  lemma {:induction false} RunSound<W>(s: Settings, train: (W, nat, nat) -> W, initial: W, r: Run<W>,
                                       events: seq<Event>)
    requires Sound(s, train, initial, r)
    ensures Sound(s, train, initial, After(s, train, r, events))
    decreases |events|
  {
    if events != [] {
      RunSound(s, train, initial, r, events[..|events| - 1]);
      var b := After(s, train, r, events[..|events| - 1]);
      var e := events[|events| - 1];
      if e.Tick? && b.phase == InEpoch {
        if b.now.cursor.pos < s.length {
          StepSound(s, train, initial, b, e.timeout);
        } else {
          EpochSound(s, train, initial, b);
        }
      }
    }
  }

  // ----- Every finished run is the same run -----

  /** Equal in all but the step counter, which may differ only at the end of an epoch. */
  ghost predicate SameOutcome<W>(s: Settings, p: Progress<W>, q: Progress<W>) {
    && p.(step := 0) == q.(step := 0)
    && (p.step == q.step || (s.moduloStep && p.cursor.pos == s.length))
  }

  lemma FinishedAtTarget<W>(s: Settings, train: (W, nat, nat) -> W, initial: W, r: Run<W>)
    requires Sound(s, train, initial, r) && r.phase == Finished
    ensures r.now.total == Target(s)
    ensures s.enabled ==> r.saved.total == Target(s)
    ensures r.now.weights == r.saved.weights || !s.enabled
  {
    var p := r.now;
    TimesMonotone(p.epoch, s.maxEpochs, s.length);
    if p.epoch < s.maxEpochs {
      TimesMonotone(p.epoch + 1, s.maxEpochs, s.length);
      TimesNext(p.epoch, s.length);
    }
  }

  /** A total determines the place in the epochs, once it is known which side of an epoch
      boundary counts. */
  lemma PlaceIsUnique(e: nat, i: nat, f: nat, j: nat, length: nat)
    requires e * length + i == f * length + j
    requires 0 < i <= length && 0 < j <= length
    ensures e == f && i == j
  {
    Quotient(e, i - 1, length);
    Quotient(f, j - 1, length);
    assert e * length + (i - 1) == f * length + (j - 1);
  }

  /** Any two finished runs from the same start, whatever happened on the way, have the
      same epoch, totals, data cursor and weights. */
  lemma FinishedIsUnique<W>(s: Settings, train: (W, nat, nat) -> W, initial: W, r: Run<W>, q: Run<W>)
    requires Sound(s, train, initial, r) && r.phase == Finished
    requires Sound(s, train, initial, q) && q.phase == Finished
    ensures SameOutcome(s, r.now, q.now)
  {
    FinishedAtTarget(s, train, initial, r);
    FinishedAtTarget(s, train, initial, q);
    if Target(s) == s.maxSteps {
      if s.maxSteps > 0 {
        NonZeroPlace(s, train, initial, r.now);
        NonZeroPlace(s, train, initial, q.now);
        PlaceIsUnique(r.now.epoch, r.now.cursor.pos, q.now.epoch, q.now.cursor.pos, s.length);
      }
    }
  }

  lemma NonZeroPlace<W>(s: Settings, train: (W, nat, nat) -> W, initial: W, p: Progress<W>)
    requires OnTrack(s, train, initial, p) && p.total == s.maxSteps && s.maxSteps > 0
    ensures 0 < p.cursor.pos <= s.length
  {
  }

  /** What is left of a session, in loop iterations. */
  function Remaining<W>(s: Settings, p: Progress<W>): nat
    requires p.epoch <= s.maxEpochs && p.cursor.pos <= s.length
  {
    (s.maxEpochs - p.epoch) * (s.length + 1) + (s.length - p.cursor.pos)
  }

  function Ticks(n: nat): seq<Event> {
    if n == 0 then [] else Ticks(n - 1) + [Tick(false)]
  }

  lemma TickShrinks<W>(s: Settings, train: (W, nat, nat) -> W, initial: W, r: Run<W>)
    requires Sound(s, train, initial, r) && r.phase == InEpoch
    ensures var e := Next(s, train, r, Tick(false));
            && e.phase != TimedOut && e.now.epoch <= s.maxEpochs && e.now.cursor.pos <= s.length
            && Remaining(s, e.now) + 1 <= Remaining(s, r.now)
  {
    if r.now.cursor.pos == s.length {
      TimesNext(s.maxEpochs - r.now.epoch - 1, s.length + 1);
    }
  }

  lemma {:induction false} SessionFinishesAfter<W>(s: Settings, train: (W, nat, nat) -> W, initial: W, r: Run<W>,
                                                   n: nat)
    requires Sound(s, train, initial, r) && r.phase != TimedOut
    ensures var e := After(s, train, r, Ticks(n));
            && Sound(s, train, initial, e) && e.phase != TimedOut
            && (e.phase == Finished || Remaining(s, e.now) + n <= Remaining(s, r.now))
    decreases n
  {
    RunSound(s, train, initial, r, Ticks(n));
    if n > 0 {
      SessionFinishesAfter(s, train, initial, r, n - 1);
      assert Ticks(n)[..|Ticks(n)| - 1] == Ticks(n - 1);
      var b := After(s, train, r, Ticks(n - 1));
      if b.phase == InEpoch {
        TickShrinks(s, train, initial, b);
      }
    }
  }

  /** A session that is left alone ends, and ends at the scheduler's total. */
  lemma UninterruptedSessionEnds<W>(s: Settings, train: (W, nat, nat) -> W, initial: W, r: Run<W>) returns (n: nat)
    requires Sound(s, train, initial, r) && r.phase != TimedOut
    ensures After(s, train, r, Ticks(n)).phase == Finished
    ensures After(s, train, r, Ticks(n)).now.total == Target(s)
  {
    n := Remaining(s, r.now) + 1;
    SessionFinishesAfter(s, train, initial, r, n);
    FinishedAtTarget(s, train, initial, After(s, train, r, Ticks(n)));
  }

  /** Crash/resume equivalence: after any sequence of steps, timeouts, crashes and resumes,
      one more session that is left alone ends with the progress of a single uninterrupted
      run, at `Target` steps and with the final state saved. */
  lemma InterruptionsDoNotMatter<W>(s: Settings, train: (W, nat, nat) -> W, initial: W, events: seq<Event>)
    returns (n: nat, m: nat)
    ensures var resumed := After(s, train, Next(s, train, After(s, train, Launch(s, initial), events), Restart),
                                 Ticks(n));
            var straight := After(s, train, Launch(s, initial), Ticks(m));
            && resumed.phase == Finished && straight.phase == Finished
            && SameOutcome(s, resumed.now, straight.now)
            && resumed.now.total == Target(s)
            && resumed.now.weights == WeightsAfter(s, train, initial, Target(s))
            && (s.enabled ==> resumed.saved.total == Target(s) && resumed.saved.weights == resumed.now.weights)
  {
    var launch := Launch(s, initial);
    LaunchSound(s, train, initial);
    RunSound(s, train, initial, launch, events);
    var again := Next(s, train, After(s, train, launch, events), Restart);
    assert Sound(s, train, initial, again);
    n := UninterruptedSessionEnds(s, train, initial, again);
    m := UninterruptedSessionEnds(s, train, initial, launch);
    RunSound(s, train, initial, again, Ticks(n));
    RunSound(s, train, initial, launch, Ticks(m));
    var resumed, straight := After(s, train, again, Ticks(n)), After(s, train, launch, Ticks(m));
    FinishedIsUnique(s, train, initial, resumed, straight);
    FinishedAtTarget(s, train, initial, resumed);
  }

  /** The one visible difference: launching a finished run again from the state it saved last
      finds everything as it was, and the step counter too unless DPO saved at the end of an
      epoch. */
  lemma RelaunchStepIff<W>(s: Settings, train: (W, nat, nat) -> W, initial: W, r: Run<W>)
    requires Sound(s, train, initial, r) && r.phase == Finished && r.now.total == s.maxSteps && s.length > 0
    requires r.now.step == r.now.cursor.pos && r.saved == Snapshot(s, r.now)
    ensures
      var again := Next(s, train, r, Restart);
      && again.phase == Finished && again.now.(step := r.now.step) == r.now
      && (again.now.step == r.now.step <==> !(s.moduloStep && r.now.cursor.pos == s.length))
  {
    if r.now.step == s.length {
      Quotient(1, 0, s.length);
    } else {
      Quotient(0, r.now.step, s.length);
    }
  }
}
