// Message-level loss masks, the initial prompt, and advantage overwrites on flattened logs.
module MessageSpans {
  import opened Prelude

  /** A tokenized message as a value. */
  datatype Msg = Msg(assistant: bool, tokens: seq<int>, logprobs: Option<seq<real>>, mask: seq<int>,
                     invalid: bool, malformed: bool)

  type Log = seq<Msg>

  /** The message object of the rollout, which the masking writes into. */
  class Message {
    const assistant: bool
    const tokens: seq<int>
    const invalid: bool
    const malformed: bool
    var logprobs: Option<seq<real>>
    var mask: seq<int>

    constructor (assistant: bool, tokens: seq<int>, logprobs: Option<seq<real>>, invalid: bool, malformed: bool)
      ensures View() == Msg(assistant, tokens, logprobs, [], invalid, malformed)
    {
      this.assistant, this.tokens, this.invalid, this.malformed := assistant, tokens, invalid, malformed;
      this.logprobs, this.mask := logprobs, [];
    }

    function View(): Msg
      reads this
    {
      Msg(assistant, tokens, logprobs, mask, invalid, malformed)
    }

    method AddMask()
      modifies this
      ensures mask == Fill(|tokens|, if assistant && old(logprobs).Some? then 1 else 0)
      ensures logprobs == if old(logprobs).Some? then old(logprobs) else Some(Fill(|tokens|, 0.0))
      ensures View() == Masked(old(View()))
    {
      if assistant && logprobs.Some? {
        mask := Fill(|tokens|, 1);
      } else {
        mask := Fill(|tokens|, 0);
      }
      if logprobs.None? {
        logprobs := Some(Fill(|tokens|, 0.0));
      }
    }
  }

  function Fill<T>(n: nat, x: T): (r: seq<T>)
    ensures |r| == n && forall i :: 0 <= i < n ==> r[i] == x
  {
    seq(n, i => x)
  }

  /** Produced by the rollout: only then does the message carry log probabilities. */
  predicate Generated(m: Msg) {
    m.assistant && m.logprobs.Some?
  }

  function Masked(m: Msg): Msg {
    m.(mask := Fill(|m.tokens|, if Generated(m) then 1 else 0),
       logprobs := if m.logprobs.Some? then m.logprobs else Some(Fill(|m.tokens|, 0.0)))
  }

  function MaskedLog(log: Log): (r: Log)
    ensures |r| == |log| && forall j :: 0 <= j < |log| ==> r[j] == Masked(log[j])
  {
    seq(|log|, j requires 0 <= j < |log| => Masked(log[j]))
  }

  function Views(log: seq<Message>): (r: Log)
    reads log
    ensures |r| == |log| && forall j :: 0 <= j < |log| ==> r[j] == log[j].View()
  {
    seq(|log|, j requires 0 <= j < |log| reads log => log[j].View())
  }

  /** A message after `n` visits of the masking. */
  function Visited(m: Msg, n: nat): Msg {
    if n == 0 then m else Masked(Visited(m, n - 1))
  }

  /** How often a message object occurs in a log. */
  function Times(log: seq<Message>, m: Message): nat {
    if log == [] then 0 else Times(log[..|log| - 1], m) + if log[|log| - 1] == m then 1 else 0
  }

  predicate Unshared(log: seq<Message>) {
    forall a, b :: 0 <= a < b < |log| ==> log[a] != log[b]
  }

  function TimesInBatch(logs: seq<seq<Message>>, m: Message): nat {
    if logs == [] then 0 else TimesInBatch(logs[..|logs| - 1], m) + Times(logs[|logs| - 1], m)
  }

  lemma {:induction false} TimesPositiveIff(log: seq<Message>, m: Message)
    ensures Times(log, m) > 0 <==> m in log
  {
    if log != [] {
      TimesPositiveIff(log[..|log| - 1], m);
      assert log == log[..|log| - 1] + [log[|log| - 1]];
    }
  }

  lemma OneMoreVisit(log: seq<Message>, i: nat, m: Message)
    requires i < |log|
    ensures Times(log[..i + 1], m) == Times(log[..i], m) + if log[i] == m then 1 else 0
  {
    assert log[..i + 1][..i] == log[..i];
  }

  lemma {:induction false} VisitsAdd(m: Msg, a: nat, b: nat)
    ensures Visited(Visited(m, a), b) == Visited(m, a + b)
  {
    if b > 0 {
      VisitsAdd(m, a, b - 1);
    }
  }

  /** `add_grpo_token_loss_masks_and_generation_logprobs` on one log: each message object is
      masked once for every place it holds. */
  method AddMasks(log: seq<Message>)
    modifies log
    ensures forall j :: 0 <= j < |log| ==> log[j].View() == Visited(old(log[j].View()), Times(log, log[j]))
    ensures Unshared(log) ==> Views(log) == MaskedLog(old(Views(log)))
  {
    var i := 0;
    while i < |log|
      invariant 0 <= i <= |log|
      invariant forall j :: 0 <= j < |log| ==> log[j].View() == Visited(old(log[j].View()), Times(log[..i], log[j]))
    {
      label before:
      log[i].AddMask();
      forall j | 0 <= j < |log|
        ensures log[j].View() == Visited(old(log[j].View()), Times(log[..i + 1], log[j]))
      {
        OneMoreVisit(log, i, log[j]);
        assert log[j] != log[i] ==> log[j].View() == old@before(log[j].View());
      }
      i := i + 1;
    }
    assert log[..i] == log;
    if Unshared(log) {
      forall j | 0 <= j < |log| ensures log[j].View() == Masked(old(log[j].View())) {
        CopiesAreMaskedOnce(log, j);
        assert Visited(old(log[j].View()), 1) == Masked(Visited(old(log[j].View()), 0));
      }
    }
  }

  /** The same over the whole batch. */
  method AddMasksToBatch(logs: seq<seq<Message>>)
    modifies set r, j | 0 <= r < |logs| && 0 <= j < |logs[r]| :: logs[r][j]
    ensures forall r, j :: 0 <= r < |logs| && 0 <= j < |logs[r]| ==>
              logs[r][j].View() == Visited(old(logs[r][j].View()), TimesInBatch(logs, logs[r][j]))
  {
    var i := 0;
    while i < |logs|
      invariant 0 <= i <= |logs|
      invariant forall r, j :: 0 <= r < |logs| && 0 <= j < |logs[r]| ==>
                  logs[r][j].View() == Visited(old(logs[r][j].View()), TimesInBatch(logs[..i], logs[r][j]))
    {
      AddMasksToRow(logs, i);
      forall r, j | 0 <= r < |logs| && 0 <= j < |logs[r]|
        ensures logs[r][j].View() == Visited(old(logs[r][j].View()), TimesInBatch(logs[..i + 1], logs[r][j]))
      {
        assert logs[..i + 1][..i] == logs[..i];
        VisitsAdd(old(logs[r][j].View()), TimesInBatch(logs[..i], logs[r][j]), Times(logs[i], logs[r][j]));
      }
      i := i + 1;
    }
    assert logs[..i] == logs;
  }

  method AddMasksToRow(logs: seq<seq<Message>>, i: nat)
    requires i < |logs|
    modifies logs[i]
    ensures forall r, j :: 0 <= r < |logs| && 0 <= j < |logs[r]| ==>
              logs[r][j].View() == Visited(old(logs[r][j].View()), Times(logs[i], logs[r][j]))
  {
    AddMasks(logs[i]);
    forall r, j | 0 <= r < |logs| && 0 <= j < |logs[r]|
      ensures logs[r][j].View() == Visited(old(logs[r][j].View()), Times(logs[i], logs[r][j]))
    {
      var m := logs[r][j];
      TimesPositiveIff(logs[i], m);
      if m in logs[i] {
        var k :| 0 <= k < |logs[i]| && logs[i][k] == m;
      }
    }
  }

  /** In a batch whose rows are deep copies every message holds one place, and is masked
      once. */
  lemma {:induction false} CopiesAreMaskedOnce(log: seq<Message>, j: nat)
    requires Unshared(log) && j < |log|
    ensures Times(log, log[j]) == 1
  {
    var init := log[..|log| - 1];
    if j == |log| - 1 {
      TimesPositiveIff(init, log[j]);
      assert log[j] !in init;
    } else {
      CopiesAreMaskedOnce(init, j);
    }
  }

  /** A shared message comes out right exactly when a second visit changes no mask, and the
      number of visits beyond two does not matter. */
  lemma {:induction false} SharedMessageIff(m: Msg, n: nat)
    requires n >= 2
    ensures Visited(m, n).mask == Masked(m).mask <==> (m.assistant && m.tokens != [] ==> m.logprobs.Some?)
    ensures Visited(m, n) == Visited(m, 2)
  {
    if n > 2 {
      SharedMessageIff(m, n - 1);
    }
    SecondVisitIff(m);
  }

  lemma SecondVisitIff(m: Msg)
    ensures Visited(m, 2) == Masked(Masked(m)) == Masked(Masked(Masked(m)))
    ensures Masked(Masked(m)).mask == Masked(m).mask <==> (m.assistant && m.tokens != [] ==> m.logprobs.Some?)
  {
    assert Visited(m, 1) == Masked(m);
    if m.assistant && m.tokens != [] && !Generated(m) {
      assert Masked(Masked(m)).mask[0] == 1 && Masked(m).mask[0] == 0;
    }
  }

  // ----- Spans in the flattened log -----

  /** The tokens before message `j`. */
  function Offset(log: Log, j: nat): nat
    requires j <= |log|
  {
    if j == 0 then 0 else Offset(log, j - 1) + |log[j - 1].tokens|
  }

  predicate InSpan(log: Log, j: nat, t: nat)
    requires j < |log|
  {
    Offset(log, j) <= t < Offset(log, j + 1)
  }

  function FlatMask(log: Log, j: nat): seq<int>
    requires j <= |log|
  {
    if j == 0 then [] else FlatMask(log, j - 1) + log[j - 1].mask
  }

  function FlatTokens(log: Log, j: nat): seq<int>
    requires j <= |log|
  {
    if j == 0 then [] else FlatTokens(log, j - 1) + log[j - 1].tokens
  }

  lemma {:induction false} OffsetMonotone(log: Log, i: nat, j: nat)
    requires i <= j <= |log|
    ensures Offset(log, i) <= Offset(log, j)
    decreases j
  {
    if i < j {
      OffsetMonotone(log, i, j - 1);
    }
  }

  /** The spans partition the flattened positions: at most one message owns a position. */
  lemma SpansDisjoint(log: Log, i: nat, j: nat, t: nat)
    requires i < |log| && j < |log| && InSpan(log, i, t) && InSpan(log, j, t)
    ensures i == j
  {
    if i < j {
      OffsetMonotone(log, i + 1, j);
    } else if j < i {
      OffsetMonotone(log, j + 1, i);
    }
  }

  lemma {:induction false} SpansCover(log: Log, n: nat, t: nat) returns (j: nat)
    requires n <= |log| && t < Offset(log, n)
    ensures j < n && InSpan(log, j, t)
  {
    if Offset(log, n - 1) <= t {
      j := n - 1;
    } else {
      j := SpansCover(log, n - 1, t);
    }
  }

  predicate Sized(log: Log) {
    forall j :: 0 <= j < |log| ==> |log[j].mask| == |log[j].tokens|
  }

  lemma {:induction false} FlatMaskLength(log: Log, n: nat)
    requires n <= |log| && Sized(log)
    ensures |FlatMask(log, n)| == Offset(log, n)
  {
    if n > 0 {
      FlatMaskLength(log, n - 1);
    }
  }

  lemma {:induction false} FlatMaskAt(log: Log, n: nat, j: nat, t: nat)
    requires j < n <= |log| && Sized(log) && InSpan(log, j, t)
    ensures t < |FlatMask(log, n)| && FlatMask(log, n)[t] == log[j].mask[t - Offset(log, j)]
  {
    FlatMaskLength(log, n - 1);
    FlatMaskLength(log, n);
    if j < n - 1 {
      FlatMaskAt(log, n - 1, j, t);
    }
  }

  lemma {:induction false} MaskedSpans(log: Log, j: nat)
    requires j <= |log|
    ensures Offset(MaskedLog(log), j) == Offset(log, j)
  {
    if j > 0 {
      MaskedSpans(log, j - 1);
    }
  }

  /** On the flattened log the mask is 1 exactly on the tokens of the messages that came in
      as generated assistant messages, and 0 on all others. */
  lemma LossMaskIsExact(log: Log, t: nat, j: nat)
    requires j < |log| && InSpan(log, j, t)
    ensures var flat := FlatMask(MaskedLog(log), |log|);
            && |flat| == Offset(log, |log|)
            && t < |flat|
            && flat[t] == if log[j].assistant && log[j].logprobs.Some? then 1 else 0
  {
    var masked := MaskedLog(log);
    MaskedSpans(log, j);
    MaskedSpans(log, j + 1);
    MaskedSpans(log, |log|);
    FlatMaskLength(masked, |log|);
    FlatMaskAt(masked, |log|, j, t);
  }

  /** Masking a second time gives the same masks exactly when every assistant message with
      tokens was generated: the first pass adds the very marker it reads. */
  lemma MaskingTwiceIff(log: Log)
    ensures (forall j :: 0 <= j < |log| ==> MaskedLog(MaskedLog(log))[j].mask == MaskedLog(log)[j].mask)
            <==> (forall j :: 0 <= j < |log| && log[j].assistant && log[j].tokens != [] ==> log[j].logprobs.Some?)
  {
    forall j | 0 <= j < |log|
      ensures MaskedLog(MaskedLog(log))[j].mask == MaskedLog(log)[j].mask
              <==> (log[j].assistant && log[j].tokens != [] ==> log[j].logprobs.Some?)
    {
      SecondVisitIff(log[j]);
    }
  }

  // ----- The initial prompt -----

  /** The first `k` messages are the shortest prefix that reaches `target` tokens, or all. */
  predicate IsPromptOf(log: Log, target: nat, k: nat) {
    && k <= |log|
    && (k == |log| || Offset(log, k) >= target)
    && forall j: nat :: j < k ==> Offset(log, j) < target
  }

  /** `extract_initial_prompt_messages` on one log: the shortest prefix that reaches the
      prompt's length, or the whole log. */
  method ExtractPrompt(log: Log, target: nat) returns (prompt: Log)
    ensures IsPromptOf(log, target, |prompt|) && prompt == log[..|prompt|]
  {
    prompt := [];
    var length := 0;
    var i := 0;
    while i < |log| && length < target
      invariant 0 <= i <= |log| && prompt == log[..i] && length == Offset(log, i)
      invariant forall j: nat :: j < i ==> Offset(log, j) < target
    {
      prompt := prompt + [log[i]];
      length := length + |log[i].tokens|;
      i := i + 1;
    }
  }

  lemma {:induction false} OffsetOfPrefix(a: Log, b: Log, j: nat)
    requires j <= |a|
    ensures Offset(a + b, j) == Offset(a, j) && FlatTokens(a + b, j) == FlatTokens(a, j)
  {
    if j > 0 {
      OffsetOfPrefix(a, b, j - 1);
    }
  }

  lemma {:induction false} EqualOffsetsEqualTokens(log: Log, i: nat, j: nat)
    requires i <= j <= |log| && Offset(log, i) == Offset(log, j)
    ensures FlatTokens(log, i) == FlatTokens(log, j)
    decreases j
  {
    if i < j {
      OffsetMonotone(log, i, j - 1);
      OffsetMonotone(log, j - 1, j);
      EqualOffsetsEqualTokens(log, i, j - 1);
      assert log[j - 1].tokens == [];
    }
  }

  /** Whatever was generated after it, the extraction returns exactly the prompt's tokens,
      even when the prompt holds assistant messages. It returns exactly the prompt's
      messages unless the prompt ends in messages without tokens. */
  lemma PromptIsRecovered(prompt: Log, generated: Log, k: nat)
    requires IsPromptOf(prompt + generated, Offset(prompt, |prompt|), k)
    ensures FlatTokens(prompt + generated, k) == FlatTokens(prompt, |prompt|)
    ensures k == |prompt| <==> prompt == [] || prompt[|prompt| - 1].tokens != []
  {
    var log, n := prompt + generated, |prompt|;
    forall j: nat | j <= n ensures Offset(log, j) == Offset(prompt, j) && FlatTokens(log, j) == FlatTokens(prompt, j) {
      OffsetOfPrefix(prompt, generated, j);
    }
    assert !(n < k) by {
      assert Offset(log, n) == Offset(prompt, n);
    }
    OffsetMonotone(prompt, k, n);
    EqualOffsetsEqualTokens(prompt, k, n);
    if n > 0 {
      OffsetMonotone(prompt, n - 1, n);
      if k < n {
        OffsetMonotone(prompt, k, n - 1);
      } else {
        assert Offset(log, n - 1) < Offset(prompt, n);
      }
    }
  }

  // ----- Advantage overwrites -----

  datatype Penalties = Penalties(invalid: Option<real>, malformed: Option<real>)

  /** What a message's whole span is overwritten with; an invalid call wins. */
  function Penalty(p: Penalties, m: Msg): Option<real> {
    if Generated(m) && p.invalid.Some? && m.invalid then p.invalid
    else if Generated(m) && p.malformed.Some? && m.malformed then p.malformed
    else None
  }

  /** What a position is overwritten with by the first `n` messages. */
  function PenaltyAt(p: Penalties, log: Log, n: nat, t: nat): Option<real>
    requires n <= |log|
  {
    if n == 0 then None
    else if InSpan(log, n - 1, t) then Penalty(p, log[n - 1])
    else PenaltyAt(p, log, n - 1, t)
  }

  function Overwritten(p: Penalties, log: Log, n: nat, t: nat, original: real): real
    requires n <= |log|
  {
    var o := PenaltyAt(p, log, n, t);
    if o.Some? then o.value else original
  }

  lemma {:induction false} PenaltyOfOwner(p: Penalties, log: Log, n: nat, j: nat, t: nat)
    requires j < n <= |log| && InSpan(log, j, t)
    ensures PenaltyAt(p, log, n, t) == Penalty(p, log[j])
  {
    if InSpan(log, n - 1, t) {
      SpansDisjoint(log, j, n - 1, t);
    } else {
      PenaltyOfOwner(p, log, n - 1, j, t);
    }
  }

  /** The message is flagged, generated, and the penalty for the flag is configured. */
  predicate IsInvalid(p: Penalties, m: Msg) {
    m.assistant && m.logprobs.Some? && p.invalid.Some? && m.invalid
  }

  predicate IsMalformed(p: Penalties, m: Msg) {
    m.assistant && m.logprobs.Some? && p.malformed.Some? && m.malformed
  }

  /** A position takes the penalty of the one message that owns it: that of an invalid call
      before that of malformed thinking, and none if the message has neither flag. */
  lemma PenaltyAtOwner(p: Penalties, log: Log, j: nat, t: nat, original: real)
    requires j < |log| && InSpan(log, j, t)
    ensures Overwritten(p, log, |log|, t, original)
            == if IsInvalid(p, log[j]) then p.invalid.value
               else if IsMalformed(p, log[j]) then p.malformed.value
               else original
  {
    PenaltyOfOwner(p, log, |log|, j, t);
  }

  /** No message owns a position behind the log, and it keeps its advantage. */
  lemma BehindTheLog(p: Penalties, log: Log, n: nat, t: nat, original: real)
    requires n <= |log| && t >= Offset(log, n)
    ensures Overwritten(p, log, n, t, original) == original
  {
    NoPenaltyYet(p, log, n, t);
  }

  /** Whether a copy is needed at all. */
  lemma {:induction false} FlaggedIff(p: Penalties, log: Log, n: nat)
    requires n <= |log|
    ensures Flagged(p, log, n) <==> exists j :: 0 <= j < n && (IsInvalid(p, log[j]) || IsMalformed(p, log[j]))
  {
    if n > 0 {
      FlaggedIff(p, log, n - 1);
    }
  }

  lemma {:induction false} AnyFlaggedIff(p: Penalties, logs: seq<Log>, n: nat)
    requires n <= |logs|
    ensures AnyFlagged(p, logs, n) <==>
            exists i, j :: 0 <= i < n && 0 <= j < |logs[i]| && (IsInvalid(p, logs[i][j]) || IsMalformed(p, logs[i][j]))
  {
    if n > 0 {
      AnyFlaggedIff(p, logs, n - 1);
      FlaggedIff(p, logs[n - 1], |logs[n - 1]|);
    }
  }

  lemma {:induction false} NoPenaltyYet(p: Penalties, log: Log, n: nat, t: nat)
    requires n <= |log| && t >= Offset(log, n)
    ensures PenaltyAt(p, log, n, t) == None
  {
    if n > 0 {
      NoPenaltyYet(p, log, n - 1, t);
    }
  }

  lemma OverwriteStep(p: Penalties, log: Log, n: nat, t: nat, original: real)
    requires n < |log|
    ensures Overwritten(p, log, n + 1, t, original)
            == if InSpan(log, n, t) && Penalty(p, log[n]).Some? then Penalty(p, log[n]).value
              else Overwritten(p, log, n, t, original)
  {
    if InSpan(log, n, t) {
      NoPenaltyYet(p, log, n, t);
    }
  }

  /** The training batch: `advantages` may be replaced by a materialized copy. */
  class TrainData {
    var advantages: array2<real>

    constructor (advantages: array2<real>)
      ensures this.advantages == advantages
    {
      this.advantages := advantages;
    }
  }

  method Clone(a: array2<real>) returns (c: array2<real>)
    ensures fresh(c) && c.Length0 == a.Length0 && c.Length1 == a.Length1
    ensures forall i, t :: 0 <= i < a.Length0 && 0 <= t < a.Length1 ==> c[i, t] == a[i, t]
  {
    c := new real[a.Length0, a.Length1]((i, t) requires 0 <= i < a.Length0 && 0 <= t < a.Length1 reads a => a[i, t]);
  }

  /** `advantages[row, from:to] = value`; a slice past the end is cut short. */
  method WriteSpan(a: array2<real>, row: nat, from: nat, to: nat, value: real)
    requires row < a.Length0
    modifies a
    ensures forall i, t :: 0 <= i < a.Length0 && 0 <= t < a.Length1 ==>
              a[i, t] == if i == row && from <= t < to then value else old(a[i, t])
  {
    var t := from;
    while t < to && t < a.Length1
      invariant from <= t
      invariant forall i, u :: 0 <= i < a.Length0 && 0 <= u < a.Length1 ==>
                  a[i, u] == if i == row && from <= u < to && u < t then value else old(a[i, u])
    {
      a[row, t] := value;
      t := t + 1;
    }
  }

  datatype Counts = Counts(invalid: nat, malformed: nat, assistant: nat)

  function Count(p: Penalties, c: Counts, m: Msg): Counts {
    var invalid := Generated(m) && p.invalid.Some? && m.invalid;
    var malformed := Generated(m) && p.malformed.Some? && m.malformed;
    Counts(c.invalid + if invalid then 1 else 0,
           c.malformed + if malformed && !invalid then 1 else 0,
           c.assistant + if Generated(m) then 1 else 0)
  }

  function CountLog(p: Penalties, c: Counts, log: Log): Counts {
    if log == [] then c else Count(p, CountLog(p, c, log[..|log| - 1]), log[|log| - 1])
  }

  function CountAll(p: Penalties, logs: seq<Log>): Counts {
    if logs == [] then Counts(0, 0, 0) else CountLog(p, CountAll(p, logs[..|logs| - 1]), logs[|logs| - 1])
  }

  /** The messages of a log, end to end over the batch. */
  function AllMessages(logs: seq<Log>): Log {
    if logs == [] then [] else AllMessages(logs[..|logs| - 1]) + logs[|logs| - 1]
  }

  function Invalid(p: Penalties, log: Log): set<nat> {
    set j: nat | j < |log| && IsInvalid(p, log[j])
  }

  function OnlyMalformed(p: Penalties, log: Log): set<nat> {
    set j: nat | j < |log| && IsMalformed(p, log[j]) && !IsInvalid(p, log[j])
  }

  function Assistants(log: Log): set<nat> {
    set j: nat | j < |log| && log[j].assistant && log[j].logprobs.Some?
  }

  /** The counts are those of the messages with each flag; one with both counts as invalid. */
  predicate CountsMatch(p: Penalties, log: Log, c: Counts) {
    c == Counts(|Invalid(p, log)|, |OnlyMalformed(p, log)|, |Assistants(log)|)
  }

  lemma InvalidOneMore(p: Penalties, log: Log, m: Msg)
    ensures |Invalid(p, log + [m])| == |Invalid(p, log)| + if IsInvalid(p, m) then 1 else 0
  {
    var n: nat := |log|;
    assert n !in Invalid(p, log);
    assert Invalid(p, log + [m]) == Invalid(p, log) + if IsInvalid(p, m) then {n} else {};
  }

  lemma MalformedOneMore(p: Penalties, log: Log, m: Msg)
    ensures |OnlyMalformed(p, log + [m])|
            == |OnlyMalformed(p, log)| + if IsMalformed(p, m) && !IsInvalid(p, m) then 1 else 0
  {
    var n: nat := |log|;
    assert n !in OnlyMalformed(p, log);
    assert OnlyMalformed(p, log + [m])
           == OnlyMalformed(p, log) + if IsMalformed(p, m) && !IsInvalid(p, m) then {n} else {};
  }

  lemma AssistantsOneMore(log: Log, m: Msg)
    ensures |Assistants(log + [m])| == |Assistants(log)| + if m.assistant && m.logprobs.Some? then 1 else 0
  {
    var n: nat := |log|;
    assert n !in Assistants(log);
    assert Assistants(log + [m]) == Assistants(log) + if m.assistant && m.logprobs.Some? then {n} else {};
  }

  lemma CountsOneMore(p: Penalties, log: Log, m: Msg, c: Counts)
    requires CountsMatch(p, log, c)
    ensures CountsMatch(p, log + [m], Count(p, c, m))
  {
    InvalidOneMore(p, log, m);
    MalformedOneMore(p, log, m);
    AssistantsOneMore(log, m);
  }

  lemma {:induction false} CountsOfLog(p: Penalties, before: Log, log: Log, c: Counts)
    requires CountsMatch(p, before, c)
    ensures CountsMatch(p, before + log, CountLog(p, c, log))
  {
    if log == [] {
      assert before + log == before;
    } else {
      var init, m := log[..|log| - 1], log[|log| - 1];
      CountsOfLog(p, before, init, c);
      CountsOneMore(p, before + init, m, CountLog(p, c, init));
      assert before + log == before + init + [m];
    }
  }

  /** Over the whole batch. */
  lemma {:induction false} CountsAreExact(p: Penalties, logs: seq<Log>)
    ensures CountsMatch(p, AllMessages(logs), CountAll(p, logs))
  {
    if logs == [] {
      assert Invalid(p, []) == {} && OnlyMalformed(p, []) == {} && Assistants([]) == {};
    } else {
      var init := logs[..|logs| - 1];
      CountsAreExact(p, init);
      CountsOfLog(p, AllMessages(init), logs[|logs| - 1], CountAll(p, init));
    }
  }

  /** The state of the penalty pass: `now` is `before` or a fresh copy of it. */
  ghost predicate Written(p: Penalties, logs: seq<Log>, row: nat, n: nat, before: array2<real>, now: array2<real>)
    requires row < |logs| ==> n <= |logs[row]|
    reads before, now
  {
    && now.Length0 == before.Length0 && now.Length1 == before.Length1 && |logs| <= now.Length0
    && forall i, t :: 0 <= i < now.Length0 && 0 <= t < now.Length1 ==>
         now[i, t] == if i < row && i < |logs| then Overwritten(p, logs[i], |logs[i]|, t, before[i, t])
                      else if i == row && row < |logs| then Overwritten(p, logs[i], n, t, before[i, t])
                      else before[i, t]
  }

  /** One message of the pass. */
  method PenalizeMessage(data: TrainData, ghost before: array2<real>, materialized: bool, logs: seq<Log>, p: Penalties,
                         i: nat, j: nat, offset: nat) returns (copied: bool)
    requires i < |logs| && j < |logs[i]| && offset == Offset(logs[i], j)
    requires Written(p, logs, i, j, before, data.advantages) && (materialized <==> data.advantages != before)
    modifies data, if materialized then {data.advantages} else {}
    ensures Written(p, logs, i, j + 1, before, data.advantages) && (copied <==> data.advantages != before)
    ensures copied <==> materialized || Penalty(p, logs[i][j]).Some?
    ensures data.advantages == old(data.advantages) || fresh(data.advantages)
  {
    var m := logs[i][j];
    var penalty := Penalty(p, m);
    copied := materialized || penalty.Some?;
    if penalty.Some? {
      // the advantages may be an expanded view: copy before writing a span
      if !materialized {
        data.advantages := Clone(data.advantages);
      }
      WriteSpan(data.advantages, i, offset, offset + |m.tokens|, penalty.value);
    }
    forall t: nat, x ensures Overwritten(p, logs[i], j + 1, t, x)
                             == if InSpan(logs[i], j, t) && penalty.Some? then penalty.value
                               else Overwritten(p, logs[i], j, t, x) {
      OverwriteStep(p, logs[i], j, t, x);
    }
  }

  /** One row of the pass, with the running token offset. */
  method PenalizeLog(data: TrainData, ghost before: array2<real>, materialized: bool, logs: seq<Log>, p: Penalties,
                     i: nat, c: Counts) returns (copied: bool, counts: Counts)
    requires i < |logs|
    requires Written(p, logs, i, 0, before, data.advantages) && (materialized <==> data.advantages != before)
    modifies data, if materialized then {data.advantages} else {}
    ensures Written(p, logs, i, |logs[i]|, before, data.advantages) && (copied <==> data.advantages != before)
    ensures copied <==> materialized || Flagged(p, logs[i], |logs[i]|)
    ensures data.advantages == old(data.advantages) || fresh(data.advantages)
    ensures counts == CountLog(p, c, logs[i])
  {
    var offset, j := 0, 0;
    copied, counts := materialized, c;
    while j < |logs[i]|
      invariant 0 <= j <= |logs[i]| && offset == Offset(logs[i], j)
      invariant Written(p, logs, i, j, before, data.advantages) && (copied <==> data.advantages != before)
      invariant copied <==> materialized || Flagged(p, logs[i], j)
      invariant data.advantages == old(data.advantages) || fresh(data.advantages)
      invariant counts == CountLog(p, c, logs[i][..j])
    {
      copied := PenalizeMessage(data, before, copied, logs, p, i, j, offset);
      counts := Count(p, counts, logs[i][j]);
      assert logs[i][..j + 1][..j] == logs[i][..j];
      offset := offset + |logs[i][j].tokens|;
      j := j + 1;
    }
    assert logs[i][..j] == logs[i];
  }

  /** Whether one of the first `n` messages is to be penalized. */
  predicate Flagged(p: Penalties, log: Log, n: nat)
    requires n <= |log|
  {
    n > 0 && (Flagged(p, log, n - 1) || Penalty(p, log[n - 1]).Some?)
  }

  predicate AnyFlagged(p: Penalties, logs: seq<Log>, n: nat)
    requires n <= |logs|
  {
    n > 0 && (AnyFlagged(p, logs, n - 1) || Flagged(p, logs[n - 1], |logs[n - 1]|))
  }

  /** `_apply_message_level_advantage_penalties`: exactly the spans of penalized messages
      change, in a fresh copy; the advantages the batch came with are never written. */
  method ApplyPenalties(data: TrainData, logs: seq<Log>, p: Penalties) returns (counts: Option<Counts>)
    requires |logs| <= data.advantages.Length0
    modifies data
    ensures data.advantages.Length0 == old(data.advantages).Length0
            && data.advantages.Length1 == old(data.advantages).Length1
    ensures forall i, t :: 0 <= i < |logs| && 0 <= t < data.advantages.Length1 ==>
              data.advantages[i, t] == Overwritten(p, logs[i], |logs[i]|, t, old(data.advantages[i, t]))
    ensures forall i, t :: |logs| <= i < data.advantages.Length0 && 0 <= t < data.advantages.Length1 ==>
              data.advantages[i, t] == old(data.advantages[i, t])
    ensures if AnyFlagged(p, logs, |logs|) then fresh(data.advantages) else data.advantages == old(data.advantages)
    ensures counts == if p.invalid.None? && p.malformed.None? then None else Some(CountAll(p, logs))
  {
    ghost var before := data.advantages;
    if p.invalid.None? && p.malformed.None? {
      NothingConfigured(p, logs, |logs|);
      return None;
    }
    var copied, total, i := false, Counts(0, 0, 0), 0;
    while i < |logs|
      invariant 0 <= i <= |logs|
      invariant Written(p, logs, i, 0, before, data.advantages) && (copied <==> data.advantages != before)
      invariant copied <==> AnyFlagged(p, logs, i)
      invariant data.advantages == before || fresh(data.advantages)
      invariant total == CountAll(p, logs[..i])
    {
      copied, total := PenalizeLog(data, before, copied, logs, p, i, total);
      assert logs[..i + 1][..i] == logs[..i];
      i := i + 1;
    }
    assert logs[..i] == logs;
    return Some(total);
  }

  lemma {:induction false} NeverPenalized(p: Penalties, log: Log, n: nat, t: nat)
    requires n <= |log| && p.invalid.None? && p.malformed.None?
    ensures PenaltyAt(p, log, n, t) == None && !Flagged(p, log, n)
  {
    if n > 0 {
      NeverPenalized(p, log, n - 1, t);
    }
  }

  lemma {:induction false} NothingConfigured(p: Penalties, logs: seq<Log>, n: nat)
    requires n <= |logs| && p.invalid.None? && p.malformed.None?
    ensures !AnyFlagged(p, logs, n)
    ensures forall i: nat, t: nat, x :: i < |logs| ==> Overwritten(p, logs[i], |logs[i]|, t, x) == x
  {
    if n > 0 {
      NothingConfigured(p, logs, n - 1);
      NeverPenalized(p, logs[n - 1], |logs[n - 1]|, 0);
    }
    forall i: nat, t: nat, x: real | i < |logs| ensures Overwritten(p, logs[i], |logs[i]|, t, x) == x {
      NeverPenalized(p, logs[i], |logs[i]|, t);
    }
  }

  // ----- Penalties and the loss mask -----

  predicate Carries(p: Penalties, m: Msg) {
    (p.invalid.Some? && m.invalid) || (p.malformed.Some? && m.malformed)
  }

  /** Flags of a penalized kind sit only on generated messages, as far as assistant messages
      with tokens are concerned. */
  predicate FlagsAreGenerated(p: Penalties, log: Log) {
    forall j :: 0 <= j < |log| && log[j].assistant && log[j].tokens != [] && Carries(p, log[j]) ==>
      log[j].logprobs.Some?
  }

  /** Every position the penalties overwrite is one the loss trains on. */
  ghost predicate OverwritesAreTrained(p: Penalties, log: Log) {
    var masked := MaskedLog(log);
    forall t: nat :: t < |FlatMask(masked, |log|)| && PenaltyAt(p, masked, |log|, t).Some? ==>
      FlatMask(masked, |log|)[t] == 1
  }

  lemma OwnerOfMasked(p: Penalties, log: Log, t: nat, j: nat)
    requires j < |log| && InSpan(log, j, t)
    ensures InSpan(MaskedLog(log), j, t)
    ensures PenaltyAt(p, MaskedLog(log), |log|, t).Some? <==> log[j].assistant && Carries(p, log[j])
    ensures t < |FlatMask(MaskedLog(log), |log|)| && (FlatMask(MaskedLog(log), |log|)[t] == 1 <==> Generated(log[j]))
  {
    MaskedSpans(log, j);
    MaskedSpans(log, j + 1);
    PenaltyOfOwner(p, MaskedLog(log), |log|, j, t);
    LossMaskIsExact(log, t, j);
  }

  /** The penalties run on masked logs, where every assistant message carries the marker, so
      they stay within the trained tokens exactly when the flags do. */
  lemma PenaltiesHitTrainedTokensIff(p: Penalties, log: Log)
    ensures OverwritesAreTrained(p, log) <==> FlagsAreGenerated(p, log)
  {
    var masked := MaskedLog(log);
    var flat := FlatMask(masked, |log|);
    FlatMaskLength(masked, |log|);
    MaskedSpans(log, |log|);
    if FlagsAreGenerated(p, log) {
      forall t: nat | t < |flat| && PenaltyAt(p, masked, |log|, t).Some? ensures flat[t] == 1 {
        var j := SpansCover(log, |log|, t);
        OwnerOfMasked(p, log, t, j);
      }
    }
    if OverwritesAreTrained(p, log) {
      forall j | 0 <= j < |log| && log[j].assistant && log[j].tokens != [] && Carries(p, log[j])
        ensures Generated(log[j])
      {
        OwnerOfMasked(p, log, Offset(log, j), j);
      }
    }
  }
}
