// Data streams: several task loaders drawn in turn with iterator resets, and the cycling
// loader that repeats one.
module TaskStreams {
  import opened Arithmetic
  import opened Prelude

  /** A batch from a loader: the prompts of its message logs. */
  type Batch = seq<int>

  /** What a loader yields in each pass over its data; shuffling may reorder a pass. */
  type Passes = nat -> seq<Batch>

  type Loaders = map<string, Passes>

  /** An iterator: the pass it is in and how many batches of it were taken. */
  datatype Cursor = Cursor(pass: nat, pos: nat)

  type Cursors = map<string, Cursor>

  predicate InPass(passes: Passes, c: Cursor) {
    c.pos <= |passes(c.pass)|
  }

  function AllOf(passes: Passes, n: nat): seq<Batch> {
    if n == 0 then [] else AllOf(passes, n - 1) + passes(n - 1)
  }

  /** Everything the loader's passes yield up to the cursor, end to end. */
  function Taken(passes: Passes, c: Cursor): seq<Batch>
    requires InPass(passes, c)
  {
    AllOf(passes, c.pass) + passes(c.pass)[..c.pos]
  }

  datatype Failure = NoChoice | UnknownTask | EmptyPass | WrongSize

  datatype Draw = Draw(batch: Result<Batch, Failure>, cursor: Cursor)

  /** `next`, with one reset when the pass is exhausted. */
  function DrawFrom(passes: Passes, c: Cursor): Draw {
    if c.pos < |passes(c.pass)| then Draw(Ok(passes(c.pass)[c.pos]), Cursor(c.pass, c.pos + 1))
    else if |passes(c.pass + 1)| > 0 then Draw(Ok(passes(c.pass + 1)[0]), Cursor(c.pass + 1, 1))
    else Draw(Err(EmptyPass), Cursor(c.pass + 1, 0))
  }

  /** A draw extends what was taken by exactly the batch it returns, across a reset too. */
  lemma DrawContinues(passes: Passes, c: Cursor)
    requires InPass(passes, c)
    ensures var d := DrawFrom(passes, c);
            && InPass(passes, d.cursor)
            && (d.batch.Ok? ==> Taken(passes, d.cursor) == Taken(passes, c) + [d.batch.value])
            && (d.batch.Err? <==> c.pos == |passes(c.pass)| && passes(c.pass + 1) == [])
  {
    if c.pos < |passes(c.pass)| {
      assert passes(c.pass)[..c.pos + 1] == passes(c.pass)[..c.pos] + [passes(c.pass)[c.pos]];
    } else {
      assert passes(c.pass)[..c.pos] == passes(c.pass);
    }
  }

  predicate Aligned(loaders: Loaders, cursors: Cursors) {
    cursors.Keys == loaders.Keys && forall t :: t in cursors ==> InPass(loaders[t], cursors[t])
  }

  /** The outcome of drawing from a list of tasks in order. */
  datatype Draws = Draws(batches: seq<Batch>, cursors: Cursors, failure: Option<Failure>)

  function DrawNext(loaders: Loaders, d: Draws, task: string): Draws {
    if task !in loaders || task !in d.cursors then d.(failure := Some(UnknownTask))
    else
      var one := DrawFrom(loaders[task], d.cursors[task]);
      var cursors := d.cursors[task := one.cursor];
      if one.batch.Ok? then Draws(d.batches + [one.batch.value], cursors, None)
      else Draws(d.batches, cursors, Some(one.batch.error))
  }

  function DrawAll(loaders: Loaders, cursors: Cursors, order: seq<string>): Draws
    decreases |order|
  {
    if order == [] then Draws([], cursors, None)
    else
      var d := DrawAll(loaders, cursors, order[..|order| - 1]);
      if d.failure.Some? then d else DrawNext(loaders, d, order[|order| - 1])
  }

  lemma NextStaysAligned(loaders: Loaders, d: Draws, task: string)
    requires Aligned(loaders, d.cursors)
    ensures Aligned(loaders, DrawNext(loaders, d, task).cursors)
  {
    if task in loaders {
      DrawContinues(loaders[task], d.cursors[task]);
    }
  }

  lemma {:induction false} AllStayAligned(loaders: Loaders, cursors: Cursors, order: seq<string>)
    requires Aligned(loaders, cursors)
    ensures Aligned(loaders, DrawAll(loaders, cursors, order).cursors)
    ensures DrawAll(loaders, cursors, order).failure.None? ==> |DrawAll(loaders, cursors, order).batches| == |order|
    decreases |order|
  {
    if order != [] {
      var init := order[..|order| - 1];
      AllStayAligned(loaders, cursors, init);
      NextStaysAligned(loaders, DrawAll(loaders, cursors, init), order[|order| - 1]);
    }
  }

  function Prompts(batches: seq<Batch>): nat {
    if batches == [] then 0 else Prompts(batches[..|batches| - 1]) + |batches[|batches| - 1]|
  }

  /** Round robin over the chosen tasks. */
  function RoundRobin(chosen: seq<string>, n: nat): (r: seq<string>)
    requires n > 0 ==> chosen != []
    ensures |r| == n && forall i :: 0 <= i < n ==> r[i] == chosen[i % |chosen|]
  {
    seq(n, i requires 0 <= i < n => chosen[i % |chosen|])
  }

  /** No loader ever yields a batch without prompts. */
  ghost predicate FullBatches(loaders: Loaders) {
    forall t, p: nat, i :: t in loaders && 0 <= i < |loaders[t](p)| ==> loaders[t](p)[i] != []
  }

  function Front(batches: seq<Batch>): seq<Batch> {
    if batches == [] then [] else batches[..|batches| - 1]
  }

  /** Enough prompts, and not enough without the last batch. */
  predicate JustEnough(batches: seq<Batch>, wanted: nat) {
    Prompts(batches) >= wanted && (batches != [] ==> Prompts(Front(batches)) < wanted)
  }

  /** Whose turn it is after `n` draws. */
  predicate Turn(chosen: seq<string>, n: nat, index: nat) {
    if chosen == [] then n == 0 && index == 0 else index == n % |chosen|
  }

  lemma TurnAdvances(chosen: seq<string>, n: nat, index: nat)
    requires chosen != [] && Turn(chosen, n, index)
    ensures Turn(chosen, n + 1, (index + 1) % |chosen|)
  {
    Successor(n, |chosen|);
    Quotient(1, 0, |chosen|);
    if index + 1 < |chosen| {
      Quotient(0, index + 1, |chosen|);
    }
  }

  lemma DrawOneMore(loaders: Loaders, cursors: Cursors, order: seq<string>, task: string)
    requires DrawAll(loaders, cursors, order).failure.None?
    ensures DrawAll(loaders, cursors, order + [task]) == DrawNext(loaders, DrawAll(loaders, cursors, order), task)
  {
    assert (order + [task])[..|order + [task]| - 1] == order;
  }

  lemma RoundRobinGrows(chosen: seq<string>, n: nat)
    requires chosen != []
    ensures RoundRobin(chosen, n + 1) == RoundRobin(chosen, n) + [chosen[n % |chosen|]]
  {
  }

  /** After `n` turns of the round robin no draw has failed and there are too few prompts. */
  predicate Goes(loaders: Loaders, cursors: Cursors, chosen: seq<string>, wanted: nat, n: nat) {
    chosen != [] &&
    var d := DrawAll(loaders, cursors, RoundRobin(chosen, n));
    d.failure.None? && Prompts(d.batches) < wanted
  }

  /** The loop of the chosen-task function ends. */
  ghost predicate Ends(loaders: Loaders, cursors: Cursors, chosen: seq<string>, wanted: nat) {
    exists n: nat :: !Goes(loaders, cursors, chosen, wanted, n)
  }

  /** The outcome of a round robin that came to `d`; choosing nothing is an index error. */
  function OutcomeOf(d: Draws, chosen: seq<string>, wanted: nat): Result<seq<Batch>, Failure> {
    if chosen == [] && wanted > 0 then Err(NoChoice)
    else if d.failure.Some? then Err(d.failure.value)
    else Ok(d.batches)
  }

  /** The loop tried `n` draws, which is a round robin, and came to `r`: just enough prompts,
      or the error of the last draw. */
  predicate Ended(loaders: Loaders, start: Cursors, cursors: Cursors, chosen: seq<string>, wanted: nat,
                  n: nat, r: Result<seq<Batch>, Failure>) {
    && (n > 0 ==> chosen != [])
    && var d := DrawAll(loaders, start, RoundRobin(chosen, n));
       && cursors == d.cursors && r == OutcomeOf(d, chosen, wanted)
       && (r.Ok? ==> JustEnough(r.value, wanted))
  }

  /** The state of the loop after `n` successful turns. */
  predicate SoFar(loaders: Loaders, start: Cursors, cursors: Cursors, chosen: seq<string>, wanted: nat,
                  n: nat, index: nat, result: seq<Batch>, prompts: nat) {
    && Turn(chosen, n, index) && prompts == Prompts(result)
    && DrawAll(loaders, start, RoundRobin(chosen, n)) == Draws(result, cursors, None)
    && (result != [] ==> Prompts(Front(result)) < wanted)
  }

  lemma TurnTaken(loaders: Loaders, start: Cursors, before: Cursors, after: Cursors, chosen: seq<string>, wanted: nat,
                  n: nat, index: nat, result: seq<Batch>, prompts: nat, batch: Batch)
    requires chosen != [] && prompts < wanted
    requires SoFar(loaders, start, before, chosen, wanted, n, index, result, prompts)
    requires DrawAll(loaders, start, RoundRobin(chosen, n + 1)) == Draws(result + [batch], after, None)
    ensures SoFar(loaders, start, after, chosen, wanted, n + 1, (index + 1) % |chosen|, result + [batch],
                  prompts + |batch|)
  {
    TurnAdvances(chosen, n, index);
    assert Front(result + [batch]) == result;
  }

  lemma NothingDrawn(loaders: Loaders, start: Cursors, chosen: seq<string>, wanted: nat)
    ensures SoFar(loaders, start, start, chosen, wanted, 0, 0, [], 0)
  {
    if chosen != [] { Quotient(0, 0, |chosen|); }
  }

  lemma StillGoes(loaders: Loaders, start: Cursors, cursors: Cursors, chosen: seq<string>, wanted: nat,
                  n: nat, index: nat, result: seq<Batch>, prompts: nat)
    requires SoFar(loaders, start, cursors, chosen, wanted, n, index, result, prompts)
    requires chosen != [] && prompts < wanted
    ensures Goes(loaders, start, chosen, wanted, n)
  {
  }

  lemma EnoughDrawn(loaders: Loaders, start: Cursors, cursors: Cursors, chosen: seq<string>, wanted: nat,
                    n: nat, index: nat, result: seq<Batch>, prompts: nat)
    requires SoFar(loaders, start, cursors, chosen, wanted, n, index, result, prompts) && prompts >= wanted
    ensures Ended(loaders, start, cursors, chosen, wanted, n, Ok(result))
  {
  }

  lemma NothingChosen(loaders: Loaders, start: Cursors, cursors: Cursors, chosen: seq<string>, wanted: nat,
                      n: nat, index: nat, result: seq<Batch>, prompts: nat)
    requires SoFar(loaders, start, cursors, chosen, wanted, n, index, result, prompts)
    requires chosen == [] && prompts < wanted
    ensures Ended(loaders, start, cursors, chosen, wanted, n, Err(NoChoice))
  {
  }

  /** Loaders without empty batches always end it. */
  lemma FullBatchesEnd(loaders: Loaders, cursors: Cursors, chosen: seq<string>, wanted: nat)
    requires FullBatches(loaders)
    ensures Ends(loaders, cursors, chosen, wanted)
  {
    if chosen != [] {
      DrawsAddPrompts(loaders, cursors, RoundRobin(chosen, wanted));
    }
    assert !Goes(loaders, cursors, chosen, wanted, wanted);
  }

  lemma {:induction false} DrawsAddPrompts(loaders: Loaders, cursors: Cursors, order: seq<string>)
    requires FullBatches(loaders)
    ensures var d := DrawAll(loaders, cursors, order); d.failure.Some? || Prompts(d.batches) >= |order|
    decreases |order|
  {
    if order != [] {
      DrawsAddPrompts(loaders, cursors, order[..|order| - 1]);
      var before := DrawAll(loaders, cursors, order[..|order| - 1]);
      if before.failure.None? {
        DrawAddsPrompts(loaders, before, order[|order| - 1]);
      }
    }
  }

  lemma DrawAddsPrompts(loaders: Loaders, d: Draws, task: string)
    requires FullBatches(loaders) && d.failure.None?
    ensures var r := DrawNext(loaders, d, task); r.failure.Some? || Prompts(r.batches) > Prompts(d.batches)
  {
    var r := DrawNext(loaders, d, task);
    if r.failure.None? {
      assert r.batches[..|d.batches|] == d.batches && r.batches[|d.batches|] != [];
    }
  }

  // ----- The wrapper -----

  class MultiLoader {
    const loaders: Loaders
    const expected: nat
    var cursors: Cursors

    ghost predicate Valid()
      reads this
    {
      Aligned(loaders, cursors)
    }

    constructor (loaders: Loaders, expected: nat)
      ensures Valid() && this.loaders == loaders && this.expected == expected
      ensures cursors == map t | t in loaders :: Cursor(0, 0)
    {
      this.loaders, this.expected := loaders, expected;
      cursors := map t | t in loaders :: Cursor(0, 0);
    }

    method DrawTask(task: string, ghost d: Draws) returns (batch: Result<Batch, Failure>)
      requires Valid() && d.cursors == cursors
      modifies this
      ensures Valid() && DrawNext(loaders, d, task)
                         == Draws(d.batches + (if batch.Ok? then [batch.value] else []), cursors,
                                  if batch.Ok? then None else Some(batch.error))
    {
      if task !in loaders {
        return Err(UnknownTask);
      }
      var passes := loaders[task];
      var c := cursors[task];
      DrawContinues(passes, c);
      if c.pos < |passes(c.pass)| {
        batch := Ok(passes(c.pass)[c.pos]);
        cursors := cursors[task := Cursor(c.pass, c.pos + 1)];
      } else {
        // a new iterator replaces the exhausted one
        cursors := cursors[task := Cursor(c.pass + 1, 0)];
        if |passes(c.pass + 1)| == 0 {
          return Err(EmptyPass);
        }
        batch := Ok(passes(c.pass + 1)[0]);
        cursors := cursors[task := Cursor(c.pass + 1, 1)];
      }
    }

    /** `example_custom_dataloader`: one batch from each task. */
    method SampleEach(tasks: seq<string>) returns (r: Result<seq<Batch>, Failure>)
      requires Valid()
      modifies this
      ensures Valid()
      ensures var d := DrawAll(loaders, old(cursors), tasks);
              cursors == d.cursors && r == if d.failure.None? then Ok(d.batches) else Err(d.failure.value)
    {
      var result: seq<Batch> := [];
      var i := 0;
      while i < |tasks|
        invariant 0 <= i <= |tasks| && Valid()
        invariant DrawAll(loaders, old(cursors), tasks[..i]) == Draws(result, cursors, None)
      {
        assert tasks[..i + 1][..i] == tasks[..i];
        var batch := DrawTask(tasks[i], Draws(result, cursors, None));
        if batch.Err? {
          FailureStays(loaders, old(cursors), tasks, i + 1);
          return Err(batch.error);
        }
        result := result + [batch.value];
        i := i + 1;
      }
      assert tasks[..i] == tasks;
      return Ok(result);
    }

    /** One turn of the round robin, from a state the loop can be in. */
    method TakeTurn(chosen: seq<string>, wanted: nat, index: nat,
                    ghost start: Cursors, ghost n: nat, ghost result: seq<Batch>, ghost prompts: nat)
      returns (batch: Result<Batch, Failure>, turn: nat)
      requires Valid() && chosen != [] && prompts < wanted
      requires SoFar(loaders, start, cursors, chosen, wanted, n, index, result, prompts)
      modifies this
      ensures Valid()
      ensures batch.Ok? ==> SoFar(loaders, start, cursors, chosen, wanted, n + 1, turn,
                                  result + [batch.value], prompts + |batch.value|)
      ensures batch.Err? ==> Ended(loaders, start, cursors, chosen, wanted, n + 1, Err(batch.error))
    {
      ghost var before := cursors;
      DrawOneMore(loaders, start, RoundRobin(chosen, n), chosen[index]);
      RoundRobinGrows(chosen, n);
      turn := (index + 1) % |chosen|;
      batch := DrawTask(chosen[index], Draws(result, cursors, None));
      if batch.Ok? {
        TurnTaken(loaders, start, before, cursors, chosen, wanted, n, index, result, prompts, batch.value);
      }
    }

    /** The loop of the chosen-task function; it is over before turn `limit`. */
    method TakeTurns(chosen: seq<string>, wanted: nat, ghost limit: nat)
      returns (r: Result<seq<Batch>, Failure>, ghost n: nat)
      requires Valid()
      requires !Goes(loaders, cursors, chosen, wanted, limit) || chosen == []
      modifies this
      ensures Valid() && Ended(loaders, old(cursors), cursors, chosen, wanted, n, r)
    {
      ghost var start := cursors;
      var result: seq<Batch> := [];
      var taskIndex: nat, prompts: nat := 0, 0;
      n := 0;
      NothingDrawn(loaders, start, chosen, wanted);
      while prompts < wanted
        invariant Valid() && SoFar(loaders, start, cursors, chosen, wanted, n, taskIndex, result, prompts)
        invariant n <= limit
        decreases limit - n
      {
        if |chosen| == 0 {
          NothingChosen(loaders, start, cursors, chosen, wanted, n, taskIndex, result, prompts);
          return Err(NoChoice), n;
        }
        StillGoes(loaders, start, cursors, chosen, wanted, n, taskIndex, result, prompts);
        assert n != limit;
        var batch, turn := TakeTurn(chosen, wanted, taskIndex, start, n, result, prompts);
        if batch.Err? {
          return Err(batch.error), n + 1;
        }
        n, taskIndex := n + 1, turn;
        result, prompts := result + [batch.value], prompts + |batch.value|;
      }
      EnoughDrawn(loaders, start, cursors, chosen, wanted, n, taskIndex, result, prompts);
      return Ok(result), n;
    }

    /** `example_custom_dataloader_with_chosen_task`: round robin over the chosen tasks until
        `wanted` prompts are drawn. `n` is the number of draws tried. Asks only that the loop
        of the program ends at all. */
    method SampleChosen(chosen: seq<string>, wanted: nat) returns (r: Result<seq<Batch>, Failure>, ghost n: nat)
      requires Valid() && Ends(loaders, cursors, chosen, wanted)
      modifies this
      ensures Valid() && Ended(loaders, old(cursors), cursors, chosen, wanted, n, r)
      ensures chosen == [] ==> r == if wanted > 0 then Err(NoChoice) else Ok([])
      ensures chosen != [] && r.Err? ==> Some(r.error) == DrawAll(loaders, old(cursors), RoundRobin(chosen, n)).failure
    {
      ghost var limit: nat := 0;
      if chosen != [] {
        limit :| !Goes(loaders, cursors, chosen, wanted, limit);
      }
      r, n := TakeTurns(chosen, wanted, limit);
    }

    /** `MultipleDataloaderWrapper.__next__` with the chosen-task function: what that function
        drew, if it has the expected number of prompts; its error, if it failed; otherwise
        the size assertion. */
    method Next(chosen: seq<string>, wanted: nat) returns (r: Result<seq<Batch>, Failure>, ghost n: nat)
      requires Valid() && Ends(loaders, cursors, chosen, wanted)
      modifies this
      ensures Valid() && (n > 0 ==> chosen != [])
      ensures var d := DrawAll(loaders, old(cursors), RoundRobin(chosen, n));
              var drawn := OutcomeOf(d, chosen, wanted);
              && cursors == d.cursors && (drawn.Ok? ==> JustEnough(drawn.value, wanted))
              && r == if drawn.Ok? && Prompts(drawn.value) != expected then Err(WrongSize) else drawn
      ensures chosen == [] && wanted > 0 ==> r == Err(NoChoice)
    {
      r, n := SampleChosen(chosen, wanted);
      if r.Ok? {
        var size := CountPrompts(r.value);
        if size != expected {
          r := Err(WrongSize);
        }
      }
    }
  }

  method CountPrompts(batches: seq<Batch>) returns (size: nat)
    ensures size == Prompts(batches)
  {
    size := 0;
    var i := 0;
    while i < |batches|
      invariant 0 <= i <= |batches| && size == Prompts(batches[..i])
    {
      assert batches[..i + 1][..i] == batches[..i];
      size := size + |batches[i]|;
      i := i + 1;
    }
    assert batches[..i] == batches;
  }

  lemma {:induction false} FailureStays(loaders: Loaders, cursors: Cursors, order: seq<string>, i: nat)
    requires i <= |order| && DrawAll(loaders, cursors, order[..i]).failure.Some?
    ensures DrawAll(loaders, cursors, order) == DrawAll(loaders, cursors, order[..i])
    decreases |order|
  {
    if i == |order| {
      assert order[..i] == order;
    } else {
      var init := order[..|order| - 1];
      assert init[..i] == order[..i];
      FailureStays(loaders, cursors, init, i);
    }
  }

  /** Drawing from `task` after `before` fails: it does not exist, or it has nothing left and an
      empty next pass. */
  ghost predicate FailsAt(loaders: Loaders, before: Draws, task: string, d: Draws) {
    && before.failure.None? && d.batches == before.batches
    && (d.failure == Some(UnknownTask) <==> task !in loaders)
    && (d.failure == Some(EmptyPass) <==> task in loaders)
    && (task in loaders ==>
          && task in before.cursors
          && var c := before.cursors[task];
             c.pos == |loaders[task](c.pass)| && loaders[task](c.pass + 1) == [])
  }

  lemma NextFails(loaders: Loaders, before: Draws, task: string)
    requires Aligned(loaders, before.cursors) && before.failure.None?
    requires DrawNext(loaders, before, task).failure.Some?
    ensures FailsAt(loaders, before, task, DrawNext(loaders, before, task))
  {
    if task in loaders {
      DrawContinues(loaders[task], before.cursors[task]);
    }
  }

  /** Drawing from a list of tasks fails at the first task whose draw fails. */
  lemma {:induction false} FailureIs(loaders: Loaders, cursors: Cursors, order: seq<string>) returns (i: nat)
    requires Aligned(loaders, cursors) && DrawAll(loaders, cursors, order).failure.Some?
    ensures i < |order|
    ensures FailsAt(loaders, DrawAll(loaders, cursors, order[..i]), order[i], DrawAll(loaders, cursors, order))
    decreases |order|
  {
    var init := order[..|order| - 1];
    if DrawAll(loaders, cursors, init).failure.Some? {
      i := FailureIs(loaders, cursors, init);
      assert init[..i] == order[..i];
    } else {
      i := |order| - 1;
      AllStayAligned(loaders, cursors, init);
      NextFails(loaders, DrawAll(loaders, cursors, init), order[i]);
    }
  }

  // ----- What each task contributes -----

  /** The batches that came from `task`, in order. */
  function FromTask(order: seq<string>, batches: seq<Batch>, task: string): seq<Batch>
    requires |order| == |batches|
  {
    if order == [] then []
    else
      var n := |order| - 1;
      FromTask(order[..n], batches[..n], task) + if order[n] == task then [batches[n]] else []
  }

  lemma OneDrawContinues(loaders: Loaders, d: Draws, drawn: string, task: string)
    requires Aligned(loaders, d.cursors) && task in loaders && DrawNext(loaders, d, drawn).failure.None?
    ensures var r := DrawNext(loaders, d, drawn);
            && |r.batches| == |d.batches| + 1 && r.batches[..|d.batches|] == d.batches
            && Aligned(loaders, r.cursors)
            && Taken(loaders[task], r.cursors[task])
               == Taken(loaders[task], d.cursors[task]) + if drawn == task then [r.batches[|d.batches|]] else []
  {
    NextStaysAligned(loaders, d, drawn);
    DrawContinues(loaders[drawn], d.cursors[drawn]);
  }

  /** Whatever the order of draws, over however many resets, each task contributes exactly
      the next batches of its own stream, none skipped and none repeated. */
  lemma {:induction false} EachTaskContinuesItsStream(loaders: Loaders, cursors: Cursors, order: seq<string>,
                                                      task: string)
    requires Aligned(loaders, cursors) && task in loaders
    requires DrawAll(loaders, cursors, order).failure.None?
    ensures var d := DrawAll(loaders, cursors, order);
            && Aligned(loaders, d.cursors) && |d.batches| == |order|
            && Taken(loaders[task], d.cursors[task])
               == Taken(loaders[task], cursors[task]) + FromTask(order, d.batches, task)
    decreases |order|
  {
    if order != [] {
      var n := |order| - 1;
      EachTaskContinuesItsStream(loaders, cursors, order[..n], task);
      AllStayAligned(loaders, cursors, order);
      OneDrawContinues(loaders, DrawAll(loaders, cursors, order[..n]), order[n], task);
    }
  }

  /** Two calls draw what one call over both orders would: the statement above spans calls. */
  lemma {:induction false} CallsCompose(loaders: Loaders, cursors: Cursors, first: seq<string>, second: seq<string>)
    requires DrawAll(loaders, cursors, first).failure.None?
    ensures var a := DrawAll(loaders, cursors, first);
            var b := DrawAll(loaders, a.cursors, second);
            DrawAll(loaders, cursors, first + second) == Draws(a.batches + b.batches, b.cursors, b.failure)
    decreases |second|
  {
    if second == [] {
      assert first + second == first;
    } else {
      var init := second[..|second| - 1];
      CallsCompose(loaders, cursors, first, init);
      assert (first + second)[..|first + second| - 1] == first + init;
      var a := DrawAll(loaders, cursors, first);
      var b := DrawAll(loaders, a.cursors, init);
      if b.failure.None? {
        NextAfterPrefix(loaders, a.batches, b, second[|second| - 1]);
      }
    }
  }

  lemma NextAfterPrefix(loaders: Loaders, earlier: seq<Batch>, d: Draws, task: string)
    requires d.failure.None?
    ensures var r := DrawNext(loaders, d, task);
            DrawNext(loaders, Draws(earlier + d.batches, d.cursors, None), task)
            == Draws(earlier + r.batches, r.cursors, r.failure)
  {
    if task in loaders && task in d.cursors && DrawFrom(loaders[task], d.cursors[task]).batch.Ok? {
      var b := DrawFrom(loaders[task], d.cursors[task]).batch.value;
      assert earlier + (d.batches + [b]) == (earlier + d.batches) + [b];
    }
  }

  /** When every pass is the same the stream is the cyclic repetition of the batches. */
  lemma {:induction false} UnshuffledStreamIsCyclic(passes: Passes, c: Cursor, batches: seq<Batch>, i: nat)
    requires InPass(passes, c) && batches != [] && forall p: nat :: passes(p) == batches
    requires i < |Taken(passes, c)|
    ensures Taken(passes, c)[i] == batches[i % |batches|]
  {
    WholePassesAreCyclic(passes, batches, c.pass);
    if i >= |AllOf(passes, c.pass)| {
      Quotient(c.pass, i - |AllOf(passes, c.pass)|, |batches|);
    }
  }

  lemma {:induction false} WholePassesAreCyclic(passes: Passes, batches: seq<Batch>, n: nat)
    requires batches != [] && forall p: nat :: passes(p) == batches
    ensures |AllOf(passes, n)| == n * |batches|
    ensures forall i :: 0 <= i < |AllOf(passes, n)| ==> AllOf(passes, n)[i] == batches[i % |batches|]
  {
    if n > 0 {
      WholePassesAreCyclic(passes, batches, n - 1);
      var all, start := AllOf(passes, n), (n - 1) * |batches|;
      forall i | 0 <= i < |all| ensures all[i] == batches[i % |batches|] {
        if i >= start {
          Quotient(n - 1, i - start, |batches|);
        }
      }
    }
  }

  // ----- Fairness and size -----

  function Count(order: seq<string>, task: string): nat {
    if order == [] then 0 else Count(order[..|order| - 1], task) + if order[|order| - 1] == task then 1 else 0
  }

  predicate Distinct(chosen: seq<string>) {
    forall i, j :: 0 <= i < j < |chosen| ==> chosen[i] != chosen[j]
  }

  /** After `n` draws the k-th chosen task was drawn n/m times, once more if it comes before
      the turn that is next. */
  lemma {:induction false} RoundRobinCount(chosen: seq<string>, n: nat, k: nat)
    requires k < |chosen| && Distinct(chosen)
    ensures Count(RoundRobin(chosen, n), chosen[k]) == n / |chosen| + if k < n % |chosen| then 1 else 0
    decreases n
  {
    if n > 0 {
      RoundRobinCount(chosen, n - 1, k);
      assert RoundRobin(chosen, n)[..n - 1] == RoundRobin(chosen, n - 1);
      Successor(n - 1, |chosen|);
      SameTurnIff(chosen, (n - 1) % |chosen|, k);
    } else {
      Quotient(0, 0, |chosen|);
    }
  }

  lemma SameTurnIff(chosen: seq<string>, i: nat, k: nat)
    requires i < |chosen| && k < |chosen| && Distinct(chosen)
    ensures chosen[i] == chosen[k] <==> i == k
  {
  }

  /** In one call the chosen tasks are drawn equally often, up to one. */
  lemma RoundRobinIsFair(chosen: seq<string>, n: nat, j: nat, k: nat)
    requires j < |chosen| && k < |chosen| && Distinct(chosen)
    ensures Count(RoundRobin(chosen, n), chosen[j]) <= Count(RoundRobin(chosen, n), chosen[k]) + 1
    ensures j <= k ==> Count(RoundRobin(chosen, n), chosen[k]) <= Count(RoundRobin(chosen, n), chosen[j])
  {
    RoundRobinCount(chosen, n, j);
    RoundRobinCount(chosen, n, k);
  }

  lemma {:induction false} UniformPrompts(batches: seq<Batch>, size: nat)
    requires forall i :: 0 <= i < |batches| ==> |batches[i]| == size
    ensures Prompts(batches) == |batches| * size
    decreases |batches|
  {
    if batches != [] {
      UniformPrompts(batches[..|batches| - 1], size);
    }
  }

  /** With batches of one size the wrapper's size check passes exactly when that size
      divides the expected count. */
  lemma SizeCheckPassesIff(batches: seq<Batch>, expected: nat, size: nat)
    requires size > 0 && forall i :: 0 <= i < |batches| ==> |batches[i]| == size
    requires JustEnough(batches, expected)
    ensures Prompts(batches) == expected <==> expected % size == 0
  {
    UniformPrompts(batches, size);
    if batches != [] {
      UniformPrompts(Front(batches), size);
    }
    Ceiling(|batches|, expected, size);
  }

  lemma Ceiling(n: nat, expected: nat, size: nat)
    requires size > 0 && n * size >= expected && (n > 0 ==> (n - 1) * size < expected)
    ensures n * size == expected <==> expected % size == 0
  {
    Quotient(n, 0, size);
    if 0 < n && expected < n * size {
      assert n * size == (n - 1) * size + size;
      Quotient(n - 1, expected - (n - 1) * size, size);
    }
  }

  // ----- The cycling loader -----

  /** `CyclingDataLoader` as its generator: the pass, whether it has produced anything yet,
      and how many passes in a row produced nothing. */
  datatype Cycle = Cycle(cursor: Cursor, produced: bool, empties: nat)

  datatype Yield = Yield(batch: Option<Batch>, cycle: Cycle)

  function Patience(c: Cycle): nat {
    if c.produced then 3 else if c.empties < 2 then 2 - c.empties else 0
  }

  /** `None` is the error after two passes in a row without a batch. */
  function CycleNext(passes: Passes, c: Cycle): Yield
    requires InPass(passes, c.cursor) && c.empties < 2
    decreases Patience(c)
  {
    if c.cursor.pos < |passes(c.cursor.pass)| then
      Yield(Some(passes(c.cursor.pass)[c.cursor.pos]), Cycle(Cursor(c.cursor.pass, c.cursor.pos + 1), true, c.empties))
    else
      var empties := if c.produced then 0 else c.empties + 1;
      if empties >= 2 then Yield(None, c.(empties := empties))
      else CycleNext(passes, Cycle(Cursor(c.cursor.pass + 1, 0), false, empties))
  }

  class CyclingLoader {
    const passes: Passes
    var cursor: Cursor
    var produced: bool
    var empties: nat

    function View(): Cycle
      reads this
    {
      Cycle(cursor, produced, empties)
    }

    ghost predicate Valid()
      reads this
    {
      InPass(passes, cursor) && empties < 2
    }

    /** The wrapped loader may have been resumed inside, or at the end of, a pass. */
    constructor (passes: Passes, resumed: Cursor)
      requires InPass(passes, resumed)
      ensures Valid() && this.passes == passes && View() == Cycle(resumed, false, 0)
    {
      this.passes, cursor, produced, empties := passes, resumed, false, 0;
    }

    method Next() returns (batch: Option<Batch>)
      requires Valid()
      modifies this
      ensures Yield(batch, View()) == CycleNext(passes, old(View()))
      ensures batch.Some? ==> Valid()
    {
      while cursor.pos >= |passes(cursor.pass)|
        invariant Valid() && CycleNext(passes, View()) == CycleNext(passes, old(View()))
        decreases Patience(View())
      {
        if produced {
          empties := 0;
        } else {
          empties := empties + 1;
          if empties >= 2 {
            return None;
          }
        }
        cursor := Cursor(cursor.pass + 1, 0);
        produced := false;
      }
      batch := Some(passes(cursor.pass)[cursor.pos]);
      cursor := Cursor(cursor.pass, cursor.pos + 1);
      produced := true;
    }
  }

  /** The cycling loader yields the same stream, and gives up exactly when nothing is left of
      this pass and the passes it may still try are empty: two after a pass that produced
      something, one fewer for each empty pass already seen. */
  lemma {:induction false} CyclingContinues(passes: Passes, c: Cycle)
    requires InPass(passes, c.cursor) && c.empties < 2
    ensures var y := CycleNext(passes, c);
            && (y.batch.Some? ==> InPass(passes, y.cycle.cursor) && y.cycle.empties < 2 && y.cycle.produced
                                  && Taken(passes, y.cycle.cursor) == Taken(passes, c.cursor) + [y.batch.value])
            && (y.batch.None? <==> c.cursor.pos == |passes(c.cursor.pass)|
                                   && (if c.produced
                                       then passes(c.cursor.pass + 1) == [] && passes(c.cursor.pass + 2) == []
                                       else c.empties == 1 || passes(c.cursor.pass + 1) == []))
    decreases Patience(c)
  {
    var p := c.cursor.pass;
    if c.cursor.pos < |passes(p)| {
      assert passes(p)[..c.cursor.pos + 1] == passes(p)[..c.cursor.pos] + [passes(p)[c.cursor.pos]];
    } else {
      var empties := if c.produced then 0 else c.empties + 1;
      if empties < 2 {
        CyclingContinues(passes, Cycle(Cursor(p + 1, 0), false, empties));
        assert Taken(passes, Cursor(p + 1, 0)) == Taken(passes, c.cursor) by {
          assert passes(p)[..c.cursor.pos] == passes(p) && passes(p + 1)[..0] == [];
        }
      }
    }
  }
}
