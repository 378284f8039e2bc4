// When the epoch loops save, and how much a crash or a timeout can cost.
module EpochSaves {
  import opened Arithmetic
  import opened Prelude
  import opened EpochLoop

  /** A step saves when checkpointing is on and it is the last one, or at a multiple of either
      save period, or asked to stop by the timeout. */
  ghost predicate SaveDue<W>(s: Settings, p: Progress<W>, timeout: bool) {
    && s.enabled
    && (|| timeout
        || p.total + 1 >= s.maxSteps || (p.epoch + 1 == s.maxEpochs && p.step + 1 == s.length)
        || (exists n: nat :: p.total + 1 == n * s.savePeriod)
        || (s.ftSavePeriod.Some? && exists n: nat :: p.total + 1 == n * s.ftSavePeriod.value))
  }

  lemma MultipleIff(n: nat, d: positive)
    ensures n % d == 0 <==> exists q: nat :: n == q * d
  {
    if n % d == 0 {
      assert n == (n / d) * d;
    }
    if q: nat :| n == q * d {
      Quotient(q, 0, d);
    }
  }

  /** One iteration trains on the batch at the cursor, advances every counter by one batch,
      ends the session on a timeout or at `maxSteps`, and saves exactly when a save is due:
      the progress after the step, with the step counter as it is or modulo the length. */
  lemma StepIs<W>(s: Settings, train: (W, nat, nat) -> W, r: Run<W>, timeout: bool)
    requires r.now.cursor.pos < s.length
    ensures
      var p, q := r.now, AfterStep(s, train, r, timeout);
      && q.now == Progress(p.epoch, p.step + 1, p.total + 1, p.consumed + s.batchSize,
                           Cursor(p.cursor.epoch, p.cursor.pos + 1),
                           train(p.weights, p.cursor.epoch, p.cursor.pos))
      && (q.phase == TimedOut <==> timeout)
      && (q.phase == Finished <==> !timeout && p.total + 1 >= s.maxSteps)
      && q.saved == if !SaveDue(s, p, timeout) then r.saved
                    else if s.moduloStep then q.now.(step := (p.step + 1) % s.length) else q.now
  {
    MultipleIff(r.now.total + 1, s.savePeriod);
    if s.ftSavePeriod.Some? {
      MultipleIff(r.now.total + 1, s.ftSavePeriod.value);
    }
  }

  /** What a crash would cost, in steps, is within what has passed since the last multiple of
      the period. */
  predicate Within<W>(r: Run<W>, period: positive) {
    r.saved.total <= r.now.total <= r.saved.total + r.now.total % period
  }

  /** A session that timed out has saved everything. */
  ghost predicate TimeoutSaved<W>(r: Run<W>) {
    r.phase == TimedOut ==> r.saved.(step := r.now.step) == r.now
  }

  lemma StepWithin<W>(s: Settings, train: (W, nat, nat) -> W, r: Run<W>, timeout: bool, period: positive)
    requires s.enabled && Within(r, period) && r.now.cursor.pos < s.length
    requires period == s.savePeriod || s.ftSavePeriod == Some(period)
    ensures Within(AfterStep(s, train, r, timeout), period)
  {
    Successor(r.now.total, period);
  }

  /** With checkpointing on, over every run of steps, timeouts, crashes and resumes: a crash
      costs fewer steps than either save period, and a timeout costs none. */
  lemma {:induction false} LossIsBounded<W>(s: Settings, train: (W, nat, nat) -> W, initial: W, events: seq<Event>)
    requires s.enabled
    ensures
      var r := After(s, train, Launch(s, initial), events);
      && r.now.total - r.saved.total < s.savePeriod
      && (s.ftSavePeriod.Some? ==> r.now.total - r.saved.total < s.ftSavePeriod.value)
      && (r.phase == TimedOut ==> r.saved.(step := r.now.step) == r.now)
  {
    RunWithin(s, train, Launch(s, initial), events, s.savePeriod);
    if s.ftSavePeriod.Some? {
      RunWithin(s, train, Launch(s, initial), events, s.ftSavePeriod.value);
    }
  }

  lemma {:induction false} RunWithin<W>(s: Settings, train: (W, nat, nat) -> W, r: Run<W>, events: seq<Event>,
                                        period: positive)
    requires s.enabled && Within(r, period) && TimeoutSaved(r)
    requires period == s.savePeriod || s.ftSavePeriod == Some(period)
    ensures Within(After(s, train, r, events), period) && TimeoutSaved(After(s, train, r, events))
    decreases |events|
  {
    if events != [] {
      var b := After(s, train, r, events[..|events| - 1]);
      RunWithin(s, train, r, events[..|events| - 1], period);
      NextWithin(s, train, b, events[|events| - 1], period);
    }
  }

  lemma NextWithin<W>(s: Settings, train: (W, nat, nat) -> W, r: Run<W>, e: Event, period: positive)
    requires s.enabled && Within(r, period) && TimeoutSaved(r)
    requires period == s.savePeriod || s.ftSavePeriod == Some(period)
    ensures Within(Next(s, train, r, e), period) && TimeoutSaved(Next(s, train, r, e))
  {
    if e.Tick? && r.phase == InEpoch && r.now.cursor.pos < s.length {
      StepWithin(s, train, r, e.timeout, period);
    }
  }
}
