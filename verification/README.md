# NeMo RL: a model in Dafny

This project models the parts of NeMo RL whose correctness rests on bookkeeping rather than on
numerics, and proves what they promise over all inputs and all runs:

- **Asynchronous GRPO, checkpoint and resume** (`ReplayGroups`, `ReplayBuffers`, `AsyncResume`,
  `AsyncSteps`, `AsyncInvariant`, `AsyncOnce`, `AsyncRetrain`, `AsyncTheorems`, `AsyncSafeRuns`, `AsyncGaps`,
  `AsyncActors`): the driver, the trajectory collector and the replay buffer as one state machine whose
  steps interleave freely, with crashes at any point. The main invariant is a conservation law on stream
  positions.
- **Top-k/top-p filtering** (`Masses`, `SortedMass`, `Nucleus`, `NucleusLaws`, `NucleusFilter`): array
  loops against a set-level definition of the nucleus.
- **Generalized advantage estimation** (`Gae`, `GaeEstimator`): carry-forward masking against GAE on
  the compacted sequence.
- **Config inheritance, minimize and compare** (`ConfigTree`, `ConfigFiles`, `ConfigMinimal`, `ConfigFlatten`).
- **Dynamic sampling in synchronous GRPO** (`GroupSpread`, `DynamicSampling`, `SamplingSteps`,
  `SamplingTheorems`).
- **Epoch loops with checkpoints** (`EpochLoop`, `EpochSaves`, `EpochTheorems`): distillation and DPO.
- **Token spans and data streams** (`MessageSpans`, `TaskStreams`).

Where the program mutates objects (collector, driver, buffer, config mappings, messages, the training
loops, the data wrappers) the model is a class or an array method proved against a function, and the
theorems are about that function. `dafny verify dfyconfig.toml` checks everything.

## What the proofs found

- *Asynchronous resume.* The comments say that the saved cut never decreases and that pruning is
  therefore safe (`grpo.py:4442-4444`, `5433-5435`). In the code the cut is bounded by the trained
  frontier, the ordinals in flight and the buffered ordinals, but not by prompts that are still pending
  in the collector nor by prompts a resumed collector has not yet re-yielded. After a resume with
  retained groups the frontier can pass both. `AsyncGaps` gives runs in which a prompt is trained twice
  and a prompt is lost. The two failures have different exact conditions. A job resumed from an aligned
  save pulls a trained prompt again if and only if the record of trained ordinals misses one at or above
  the cut (`PullsTrainedIff`, and `NoSaveExposesIff` over runs), and only then some continuation trains a
  prompt twice (`SaveRetrainsIff`, `NoSaveRetrainsIff`); if no cut falls below the last pruning
  bound, which is what the comment claims, nothing is trained twice (`KeptCutsTrainOnce`). An aligned
  save loses no prompt if and only if nothing pending and nothing not yet re-yielded lies below its cut
  (`SafeIffRecoverable`); runs of such saves keep both promises (`ExactlyOnce`, `NothingIsLost`). With
  `load_replay_buffer=false` every aligned save is one (`PlainRunsKeepTheirPromise`).
- *Fallback saves.* A save whose snapshot ring is empty or has wrapped stores the live cursor. Right
  after a resume that means retraining; `FallbackRetrainsIff` says exactly when. Prompts that the
  collection loop has taken up but not yet sent to a worker are in no part of such a save.
- *Dynamic sampling.* With the leave-one-out baseline the deviation is per sample: a sample is dropped
  when all the *other* rewards of its group agree. A group with a single success loses exactly that
  success, and training batches can mix partial groups. Groups stay whole exactly where no sample is the
  odd one out (`LeaveOneOutKeepsGroupsIff`), and always without leave-one-out. The error is raised after
  `max_gen_batches + 1` batches, one more than the message says.
- *Minimize.* Besides empty lists and empty maps, values that are equal only under Python's `==`
  (true and 1) and repeated values inside `_override_` sections are lost. A section that overrides a
  section which itself carries an equal marker loses its own marker and is merged instead. And the
  output is not always minimal: an `_override_` marker is kept where the base has nothing to override,
  or where the section overwrites all of it anyway, and `--base` keeps what the base only inherits
  (`MinimizedIsIrredundantIff`, `MinimizedEntryIsRedundantIff`).
- *Masking.* Masking message logs twice is not the same as once, and the penalties count and may
  overwrite assistant messages of the prompt, since they run after masking.

## Assumptions

Every prompt group carries its ordinal and has all its rows. The stateful data loader resumes after the
batches it has yielded. A weight synchronizer that calls itself fresh holds the trainer's weights; the
synchronous loop is otherwise deterministic given the rollouts. `exp` is any positive, strictly
increasing function, with weight 0 for minus infinity; the sort returns any permutation that orders the
row. OmegaConf's merge recurses on two mappings and otherwise takes the right side. The truncation of a
restored buffer sorts by target and position; the model drops the last in that order until the rest
fits, which is the same choice. The buffer has room for the groups of one step, as its configured size
gives for any age limit of at least one step (`grpo.py:4349-4351`); only `AsyncRetrain` needs this. Two
groups of one generation batch have different prompts where `FilterKeepsGroupsIff` says so.

## Model

| member | source | states |
|---|---|---|
| AsyncTheorems.ExactlyOnce | nemo_rl/algorithms/grpo.py:4804-4820 | Exactly-once training: over every run of yield, dispatch, buffering, tolerated failure, sample and train, save, crash and resume (with any retained part of the buffer, or none) whose saves are safe, a stream position that is not outstanding, not ahead of the collector and not lost to a tolerated failure has contributed once to the weights, and every other one not at all. |
| AsyncTheorems.NothingIsLost | nemo_rl/algorithms/grpo.py:165-195 | Conservation: after every such run each stream position is in exactly one of six places: trained, buffered, in flight, pending, lost to a tolerated failure, still ahead of the collector. |
| AsyncTheorems.CutNeverDecreases | nemo_rl/algorithms/grpo.py:5433-5440 | The saved cut is monotone across saves, crashes and resumes of such runs, which is what makes the pruning of trained ordinals lossless. |
| AsyncTheorems.SafeSavesKeepTheCut | nemo_rl/algorithms/grpo.py:5433-5440 | In such runs no cut falls below the bound up to which the record of trained ordinals was pruned. |
| AsyncTheorems.SkipDecisionIsHistory | nemo_rl/algorithms/grpo.py:4391-4411 | The pruned metadata refines the full history: for every non-failed ordinal, the resume test (below the cut, or retained, or trained above the cut) holds exactly when the ordinal is in the saved weights or in the retained buffer. |
| AsyncTheorems.SafeIffRecoverable | nemo_rl/algorithms/async_utils/trajectory_collector.py:695-746 | The exact condition, both ways: an aligned save recovers every non-failed ordinal, whatever part of the buffer is kept, if and only if nothing pending and nothing not yet re-yielded lies below the cut. |
| AsyncTheorems.EveryStepIsFull | nemo_rl/algorithms/async_utils/replay_buffer.py:217-334 | Each training step of such a run consumes exactly `promptsPerStep` groups, all aimed at this step and inside the age window, and sampling evicts nothing. |
| AsyncTheorems.CutIsGreatest | nemo_rl/algorithms/async_utils/trajectory_collector.py:717-728 | The cut is the greatest number that is at most the trained frontier and at most every ordinal in flight or in the buffer. |
| AsyncTheorems.RunSound | nemo_rl/algorithms/grpo.py:4383-4447 | The conservation invariant, the schedule and the checkpoint invariant hold after every run with safe saves, from any world that satisfies them. |
| AsyncTheorems.StepSound | nemo_rl/algorithms/grpo.py:5403-5447 | One step, of any kind, keeps the invariant and never lowers the saved cut. |
| AsyncTheorems.ResumeSound | nemo_rl/algorithms/grpo.py:4391-4411 | A job resumed from a sound checkpoint, with any retained part of the buffer or none, satisfies the whole invariant again. |
| AsyncTheorems.SnapshotSound | nemo_rl/algorithms/grpo.py:5403-5443 | A safe snapshot keeps the invariant: cutting, rewinding and pruning lose no ordinal. |
| AsyncTheorems.SavedBufferSound | nemo_rl/algorithms/grpo.py:5420-5423 | Saving the buffer after the collector snapshot, as the code orders it, completes a sound checkpoint. |
| AsyncOnce.AtMostOnce | nemo_rl/algorithms/grpo.py:4442-4447 | At-most-once training: over every run whose saves align and still record every trained ordinal at or above their cut, whatever is lost, fails or is retained, no prompt has contributed twice to the live or to the saved weights. |
| AsyncOnce.KeptCutsTrainOnce | nemo_rl/algorithms/grpo.py:4442-4447 | The comment 'the cut never decreases, so pruning is safe' as a theorem: if every save aligns and its cut is not below the bound of the last pruning, no prompt is trained twice in the run, whatever else happens in it. |
| AsyncOnce.KeptCutsAreRecorded | nemo_rl/algorithms/grpo.py:5433-5443 | A cut that is not below the bound of the last pruning leaves the record of trained ordinals complete above the cut, at every save of the run. |
| AsyncOnce.PullsTrainedIff | nemo_rl/algorithms/grpo.py:4391-4411 | The exact condition for one aligned save: the job resumed from it, with any retained part of the buffer or none, will pull a trained prompt again if and only if some trained ordinal is at or above the cut and missing from the record. |
| AsyncOnce.NoSaveExposesIff | nemo_rl/algorithms/grpo.py:5403-5443 | The exact condition over whole runs of aligned saves: no save leaves a job that pulls a trained prompt again, whatever it retains, if and only if every save still records what was trained at or above its cut. |
| AsyncOnce.RunOnce | nemo_rl/algorithms/grpo.py:5403-5447 | The invariant behind it: over every such run an ordinal is at most once in the weights, the buffer, in flight, pending or ahead, and the record lists all trained ordinals above its bound. |
| AsyncRetrain.SaveRetrainsIff | nemo_rl/algorithms/grpo.py:5429-5443 | The exact condition in terms of what is trained: an aligned save has a continuation, whose own saves are recorded, that ends with a prompt trained twice, if and only if the save lacks a trained ordinal at or above its cut. |
| AsyncRetrain.NoSaveRetrainsIff | nemo_rl/algorithms/grpo.py:4442-4447 | The same over whole runs of aligned saves: no save has such a continuation if and only if every save of the run records what was trained at or above its cut. |
| AsyncRetrain.AheadRetrains | nemo_rl/algorithms/async_utils/trajectory_collector.py:581-636 | A resumed job with a trained prompt still ahead can always reach it, fill its step with it and train it again, whatever the filter drops on the way. |
| AsyncInvariant.YieldSound | nemo_rl/algorithms/async_utils/trajectory_collector.py:543-573 | Pulling, stamping and filtering a batch keeps every ordinal in exactly one place. |
| AsyncInvariant.DispatchSound | nemo_rl/algorithms/async_utils/trajectory_collector.py:764-903 | Sending prompts to a worker for any permitted target moves them from pending to in flight and never oversubscribes a target; which and how many it sends is `AsyncSteps.DispatchSendsFirst`. |
| AsyncInvariant.BufferedSound | nemo_rl/algorithms/async_utils/trajectory_collector.py:1438-1560 | A finished group moves from in flight to the buffer, and nothing else changes place. |
| AsyncInvariant.FailSound | nemo_rl/algorithms/async_utils/trajectory_collector.py:1329-1405 | A tolerated worker failure moves exactly the worker's ordinals to the losses. |
| AsyncInvariant.SampleSound | nemo_rl/algorithms/grpo.py:4800-4820 | Sampling and training moves the handed-out ordinals into the weights, raises the frontier above them and records them. |
| AsyncInvariant.NothingAgedOut | nemo_rl/algorithms/async_utils/replay_buffer.py:230-248 | In reachable states no buffered group is outside the age window, so the eviction in `sample` removes nothing. |
| AsyncSteps.DispatchSendsFirst | nemo_rl/algorithms/async_utils/trajectory_collector.py:786-831 | A dispatch sends the first pending prompts in order, as many as there are or as the target still lacks, each with its ordinal, the current weight version and the target; the unused suffix stays pending and nothing else changes. |
| AsyncSteps.DispatchFillsTarget | nemo_rl/algorithms/async_utils/trajectory_collector.py:786-795 | In a sound state, after a dispatch nothing is pending or the target has exactly one step's groups between the buffer and the workers. |
| AsyncSteps.DispatchPossibleIff | nemo_rl/algorithms/async_utils/trajectory_collector.py:289-325 | A dispatch for a target is possible if and only if something is pending, the target is open at this weight version, was not consumed, has no worker and lacks groups. |
| AsyncSteps.MayTargetIff | nemo_rl/algorithms/async_utils/trajectory_collector.py:259-287 | The open targets: every step inside the age window of the current weights, the current step itself only while it is the job's first. |
| AsyncSteps.SampleSelects | nemo_rl/algorithms/async_utils/replay_buffer.py:217-334 | `sample` from the groups alone: the first `n` in arrival order that are inside the age window, generated by now and meant for this step, or none if there are fewer; only what is too old is dropped, all else stays in order. |
| AsyncSteps.SampleStepFields | nemo_rl/algorithms/grpo.py:4804-4820 | The driver's state after a sample: the record grows by the handed-out ordinals, the frontier is the least bound above them and itself, the last consumed target follows the step. |
| AsyncSteps.YieldHoldsBack | nemo_rl/algorithms/async_utils/trajectory_collector.py:581-636 | A pull passes on exactly the rows at or above the cut that are not covered, in stream order, and switches the filter off if and only if nothing beyond could be held back. |
| AsyncSteps.YieldRemembers | nemo_rl/algorithms/async_utils/trajectory_collector.py:543-573 | A pull adds the state before it to the ring, which drops its oldest entry when it is full. |
| AsyncSteps.BufferNeverOverflows | nemo_rl/algorithms/async_utils/replay_buffer.py:90-116 | Over every run the live and the saved buffer hold at most the configured number of groups. |
| AsyncSteps.ResumeIs | nemo_rl/algorithms/grpo.py:4391-4447 | A resumed job starts at the saved step with nothing on the way and an empty ring, filters at the cut, and counts everything before its step as consumed if the buffer was restored. |
| AsyncSteps.FallbackCarriesIff | nemo_rl/algorithms/async_utils/trajectory_collector.py:681-746 | After a fallback save a prompt is still to come if and only if its group was retained, it was pending at a save between two rounds, or it had not been pulled. |
| AsyncSteps.FallbackStampsAreNew | nemo_rl/algorithms/async_utils/replay_buffer.py:405-430 | After a fallback save new stamps start above every retained ordinal. |
| AsyncSteps.FallbacksStayFallbacks | nemo_rl/algorithms/async_utils/trajectory_collector.py:638-680 | Once a job was resumed from a fallback save, no save of any later job carries frontier metadata again. |
| AsyncSafeRuns.PlainRunsKeepTheirPromise | nemo_rl/algorithms/grpo.py:172-181 | With `load_replay_buffer` off, and saves that find a snapshot at or below the cut (the test the save itself makes), both promises hold with no condition on what the collector owes: trained at most once, in exactly one place. |
| AsyncSafeRuns.PlainRunSafe | nemo_rl/algorithms/async_utils/trajectory_collector.py:638-668 | Every aligned save of such a run is safe: nothing owed lies below the cut. |
| AsyncSafeRuns.AnchoredSavesAlign | nemo_rl/algorithms/async_utils/trajectory_collector.py:654-668 | While the ring still holds the job's first snapshot, a save never falls back to the live cursor. |
| AsyncSafeRuns.EarlyRunsArePlain | nemo_rl/algorithms/async_utils/trajectory_collector.py:543-573 | Saves made after the first pull of a job and before its ring is full always align, so such runs need no condition on saves at all. |
| AsyncSafeRuns.FallbackRetrainsIff | nemo_rl/algorithms/async_utils/trajectory_collector.py:669-680 | After a fallback save, with its pending prompts saved or held by the collection loop, the resumed job pulls an already trained prompt again if and only if a trained prompt lies at or beyond the live cursor. |
| AsyncGaps.APromptIsTrainedTwice | nemo_rl/algorithms/grpo.py:4442-4444 | The unconditional claim is false: in a concrete run of three jobs every save finds a snapshot to align with, some cut falls below what was pruned, and prompt 3 is trained twice. |
| AsyncGaps.APromptIsLost | nemo_rl/algorithms/async_utils/trajectory_collector.py:717-728 | In the same run a pending prompt below the cut is lost for good although no worker failed on it: it is neither trained nor saved nor ever yielded again. |
| AsyncGaps.AFallbackSaveRetrains | nemo_rl/algorithms/async_utils/trajectory_collector.py:669-680 | A concrete run in which some save, made right after a resume, does not align and falls back to the live cursor, and the next job retrains a prompt. |
| AsyncActors.Collector.Pull | nemo_rl/algorithms/async_utils/trajectory_collector.py:543-636 | One pull of the collector object (stamp, snapshot, filter, in place) is exactly the state machine's yield. |
| AsyncActors.Collector.StampBatch | nemo_rl/algorithms/async_utils/trajectory_collector.py:543-573 | The stamps are consecutive ordinals from the counter, and the counter and the cursor advance by the batch. |
| AsyncActors.Collector.FilterBatch | nemo_rl/algorithms/async_utils/trajectory_collector.py:581-636 | Rows at or above the cut and not covered survive, in order; past the horizon the filter switches itself off. |
| AsyncActors.Collector.Cut | nemo_rl/algorithms/async_utils/trajectory_collector.py:717-728 | The three-way minimum loop computes the cut. |
| AsyncActors.Collector.NewestSnapshot | nemo_rl/algorithms/async_utils/trajectory_collector.py:654-668 | The ring scan returns the newest snapshot at or below the cut. |
| AsyncActors.Driver.RecordTrained | nemo_rl/algorithms/grpo.py:4804-4820 | The frontier becomes the maximum of itself and every sampled ordinal plus one; the recent set grows by exactly the sampled ordinals. |
| AsyncActors.Driver.Prune | nemo_rl/algorithms/grpo.py:5433-5443 | Pruning keeps exactly the recent ordinals at or above the cut, and those are what is persisted. |
| ReplayBuffers.ReplayBuffer.Sample | nemo_rl/algorithms/async_utils/replay_buffer.py:201-334 | `sample` on the three parallel lists: evicts what is too old, then hands out the first `n` groups due at this step in arrival order, or nothing; advances the last consumed target only when it hands out. |
| ReplayBuffers.ReplayBuffer.Take | nemo_rl/algorithms/async_utils/replay_buffer.py:292-312 | The groups handed out are the first `n` matches and the buffer keeps all others in order. |
| ReplayBuffers.ReplayBuffer.RemoveIndices | nemo_rl/algorithms/async_utils/replay_buffer.py:194-199 | Popping indices from the largest down removes exactly those positions. |
| ReplayBuffers.ReplayBuffer.Add | nemo_rl/algorithms/async_utils/replay_buffer.py:90-116 | Appends unless full; a full buffer is unchanged. |
| ReplayBuffers.ReplayBuffer.LoadState | nemo_rl/algorithms/async_utils/replay_buffer.py:435-682 | A restored buffer holds exactly what the restore rules keep (age window, current step, complete targets if asked for, maximum size), and generation restarts at the current step. |
| ReplayBuffers.ReplayBuffer.DropIncomplete | nemo_rl/algorithms/async_utils/replay_buffer.py:556-600 | Keeps exactly the groups whose target has a full step's worth of groups. |
| ReplayBuffers.ReplayBuffer.TruncateToMaxSize | nemo_rl/algorithms/async_utils/replay_buffer.py:653-682 | Truncates to the maximum size, dropping the groups that are trained last. |
| ReplayBuffers.TruncatedByPriority | nemo_rl/algorithms/async_utils/replay_buffer.py:670-682 | What truncation keeps: every kept position comes before every dropped one in the order by target, then arrival, and the kept ones stay in list order. |
| ReplayBuffers.TruncatedKeepsFirst | nemo_rl/algorithms/async_utils/replay_buffer.py:658-682 | Truncation fills the buffer exactly to its size, with groups of the smallest targets. |
| ReplayBuffers.ReplayBuffer.Needed | nemo_rl/algorithms/async_utils/replay_buffer.py:635-693 | What a target still needs: the step's size less the groups that fit it, never negative. |
| ReplayBuffers.ReplayBuffer.HeldOrdinals | nemo_rl/algorithms/async_utils/replay_buffer.py:341-355 | The held ordinals are those of all buffered groups, with multiplicity, in ascending order. |
| ReplayBuffers.RestoreKeepsExactly | nemo_rl/algorithms/async_utils/replay_buffer.py:500-682 | A restored group is a saved one inside the age window of a target not past; a saved group like that is lost only if incomplete targets are dropped and its target is one, or if the buffer is full of groups trained no later. |
| ReplayBuffers.RestoreIsSubList | nemo_rl/algorithms/async_utils/replay_buffer.py:435-520 | A restore keeps a sub-list of the saved buffer, in order, whatever is dropped or truncated. |
| ReplayGroups.EraseDropsFirst | nemo_rl/algorithms/async_utils/replay_buffer.py:194-199 | Popping the first `n` matching positions from the back equals dropping the first `n` matches from the front. |
| Nucleus.ResultIsNucleus | nemo_rl/algorithms/logits_sampling_utils.py:170-206 | For every permutation the sort may return: the kept set has mass at least `top_p` under the softmax of the top-k survivors, and every set of tokens with fewer elements has mass strictly below `top_p`. |
| SortedMass.KeptIsLeast | nemo_rl/algorithms/logits_sampling_utils.py:188-194 | Greedy optimality over all subsets of the vocabulary: the kept suffix reaches `p`, and no smaller set does. |
| SortedMass.SuffixIsHeaviest | nemo_rl/algorithms/logits_sampling_utils.py:188-191 | Among all sets of at most its size, a suffix of the ascending order has the greatest mass. |
| SortedMass.ForcedLastIsRedundantIff | nemo_rl/algorithms/logits_sampling_utils.py:192-193 | The forced 'at least one' line changes nothing in exact arithmetic if and only if `p` is positive. |
| SortedMass.KeptIsSuffix | nemo_rl/algorithms/logits_sampling_utils.py:189-191 | The kept positions form a suffix of the sorted order. |
| Nucleus.SoftmaxIsDistribution | nemo_rl/algorithms/logits_sampling_utils.py:188-190 | The softmax after top-k is a distribution on the survivors, ascending along the sorted order. |
| Nucleus.TopKByPosition | nemo_rl/algorithms/logits_sampling_utils.py:174-186 | The threshold at sorted position n-k keeps exactly the logits with fewer than `k` strictly larger ones; ties may keep more than `k`. |
| Nucleus.FilteredFollowsMask | nemo_rl/algorithms/logits_sampling_utils.py:196-206 | At every original position the filtered logit is the logit if kept and minus infinity otherwise. |
| Nucleus.ResultIsFiltered | nemo_rl/algorithms/logits_sampling_utils.py:170-206 | Every row comes out with exactly a nucleus kept and minus infinity elsewhere. |
| NucleusLaws.SortFreeTopKAgrees | nemo_rl/algorithms/logits_sampling_utils.py:93-108 | The sort-free threshold and the sorting threshold keep the same positions, those with fewer than `k` strictly larger logits. |
| NucleusLaws.TopKIdempotent | nemo_rl/algorithms/logits_sampling_utils.py:98-108 | Filtering by top-k twice equals filtering once. |
| NucleusLaws.TopKMaskIdempotent | nemo_rl/algorithms/logits_sampling_utils.py:98-101 | The mask of a second top-k pass is the mask of the first. |
| NucleusLaws.CombinedIsTopPOfTopK | nemo_rl/algorithms/logits_sampling_utils.py:174-202 | The combined filter is top-p applied to the top-k filtered row. |
| NucleusLaws.ResultIsUnique | nemo_rl/algorithms/logits_sampling_utils.py:150-212 | For a given sort the row's result is determined, so it cannot depend on the chunk size. |
| NucleusLaws.ShortcutAgreesAtOne | nemo_rl/algorithms/logits_sampling_utils.py:143-148 | At top_p 1 the sorting path would filter exactly as the sort-free shortcut does; only its mask also drops tokens already at minus infinity. |
| NucleusLaws.SurvivorsReachK | nemo_rl/algorithms/logits_sampling_utils.py:98-100 | The sorted threshold is a k-th largest logit: fewer than `k` exceed it and at least `k` reach it. |
| NucleusLaws.TopKThenSort | nemo_rl/algorithms/logits_sampling_utils.py:174-186 | Top-k commutes with the sort: the masked sorted row is the sorted filtered row. |
| NucleusFilter.FilterChunks | nemo_rl/algorithms/logits_sampling_utils.py:150-212 | The chunk loop over preallocated outputs fills every row with the row result, for every chunk size of at least one; `ok` is false exactly for the zero step of the range over no rows. |
| NucleusFilter.ApplyTopKTopP | nemo_rl/algorithms/logits_sampling_utils.py:111-212 | The whole function, by the values of its arguments: `top_p` other than 1 filters every row with the sort; `top_p` 1 with a positive `top_k` keeps what has fewer than `top_k` larger logits; otherwise the input comes back and no mask. For every `top_p` in (0, 1], whichever way is taken, every row comes out filtered to a nucleus. |
| NucleusFilter.FilterRow | nemo_rl/algorithms/logits_sampling_utils.py:170-206 | The body of the loop on one row: sort, mask in place, cumulative softmax, mask, scatter back. |
| NucleusFilter.MaskTopK | nemo_rl/algorithms/logits_sampling_utils.py:174-186 | Masks the sorted row in place below the threshold and returns the mask. |
| NucleusFilter.CumulativeSoftmax | nemo_rl/algorithms/logits_sampling_utils.py:188-190 | The running sums of the softmax. |
| NucleusFilter.MaskTopP | nemo_rl/algorithms/logits_sampling_utils.py:191-194 | Masks the sorted row in place where the running sum does not exceed 1-p, keeping the last position. |
| NucleusFilter.Scatter | nemo_rl/algorithms/logits_sampling_utils.py:196-202 | Puts each sorted value back at its original position. |
| NucleusFilter.FilterTopKOnly | nemo_rl/algorithms/logits_sampling_utils.py:93-108 | The sort-free filter on all rows: kept iff fewer than `k` logits are strictly larger, minus infinity elsewhere. |
| Gae.CarriedAdvantage | nemo_rl/algorithms/advantage_estimator.py:541-566 | Over any 0/1 mask the backward loop's accumulator at a position is the ordinary GAE sum of the compacted valid tokens at that position's rank, and 0 when no valid token follows. |
| Gae.CarryForwardIsCompaction | nemo_rl/algorithms/advantage_estimator.py:550-562 | The masked recursion on the full row equals the unmasked recursion on the compacted row. |
| Gae.RunIsClosedForm | nemo_rl/algorithms/advantage_estimator.py:322-327 | The unmasked backward recursion equals the closed sum of discounted TD errors. |
| Gae.ReturnsTelescope | nemo_rl/algorithms/advantage_estimator.py:550-566 | With lambda 1, advantage plus value telescopes to the discounted sum of rewards, whatever the values are. |
| Gae.EveryReturnIsTheReward | nemo_rl/algorithms/advantage_estimator.py:413-427 | With gamma and lambda 1 and the reward at the last selected position, every selected token's return is exactly that reward, however many gaps the mask has. |
| GaeEstimator.ReturnIsRowReward | nemo_rl/algorithms/advantage_estimator.py:474-514 | End to end without a KL penalty: where the value lambda, or without one the standard lambda, is 1, the return of every response token of a row is the row's reward, whatever the policy lambda and the adaptive setting. |
| GaeEstimator.TokenRewardIsTerminal | nemo_rl/algorithms/advantage_estimator.py:413-427 | Without a KL penalty the token rewards are zero but for the reward at the last response token. |
| GaeEstimator.ComputeGae | nemo_rl/algorithms/advantage_estimator.py:516-566 | The reversed loop over columns with one accumulator pair per row stores each row's backward run, and returns are advantages plus values. |
| GaeEstimator.BuildTokenRewards | nemo_rl/algorithms/advantage_estimator.py:377-427 | The in-place placement: the reward at the last response token, minus the coefficient times the divergence at every response token if there is a penalty, zero elsewhere and in rows without a response. |
| GaeEstimator.LastSelected | nemo_rl/algorithms/advantage_estimator.py:418-419 | Finds the last position whose mask is one, or reports that there is none. |
| GaeEstimator.ComputeAdvantage | nemo_rl/algorithms/advantage_estimator.py:451-514 | The whole computation without whitening, by the configured fields: returns are runs with the value lambda, or the standard one without it; advantages are runs with the adaptive lambda of the row's number of response tokens, before the policy lambda, before the standard one, and zero at masked positions. |
| GaeEstimator.TwoPasses | nemo_rl/algorithms/advantage_estimator.py:484-508 | The decoupled and the single pass give the returns and the advantages with those lambdas. |
| GaeEstimator.PolicyLambdaIs | nemo_rl/algorithms/advantage_estimator.py:429-440 | The policy lambda by cases: one minus the inverse of the scaled length, 0 for short responses, the policy lambda, the standard one. |
| GaeEstimator.MaskSumCounts | nemo_rl/algorithms/advantage_estimator.py:435-435 | The sum of a row's mask is its number of response tokens. |
| GaeEstimator.AdaptiveLambdaRange | nemo_rl/algorithms/advantage_estimator.py:434-437 | The length-adaptive lambda lies in [0, 1), grows with the response length, and is 0 exactly for responses of at most 1/alpha tokens. |
| ConfigFiles.MinimizeKeepsMeaningIff | tools/config_cli.py:350-422 | The exact condition, both ways, for the inferred base and for `--base` over a base with parents of its own: the minimized file expands to what the same settings under the same parent expand to, if and only if every shared key is kept. A section that stays overriding must lose nothing; one whose marker is pruned because the base has an equal one must be pruned faithfully and overwrite all of the base; any other value must be pruned faithfully. |
| ConfigFiles.FalseMarkerKeptIff | tools/config_cli.py:86-100 | A marker that is off, over a section whose marker is on, is kept unless it is an empty container. |
| ConfigFiles.RestoresItselfIff | tools/config_cli.py:234-270 | Merging a pruned value over its base gives the value alone if and only if it is pruned faithfully and overwrites the whole base. |
| ConfigTree.PruneKeepsMeaningIff | tools/config_cli.py:234-270 | For every value, base and optional parent below the base: merging the pruned form gives what merging the value gives if and only if pruning is faithful. |
| ConfigTree.PruneLeavesAFixpoint | tools/config_cli.py:234-270 | Idempotence: what pruning leaves is not pruned further. |
| ConfigTree.PrunedIsIrredundant | tools/config_cli.py:246-258 | Irredundance over the plain deep merge: deleting any entry that pruning kept, leaf or section, at any depth, changes the merge with the base. |
| ConfigTree.LeftoverIsVisible | tools/config_cli.py:246-258 | Whatever pruning leaves changes the merge. |
| ConfigTree.UntouchedIff | tools/config_cli.py:234-270 | Pruning returns its argument exactly when no shared value is Python-equal or empty. |
| ConfigTree.EqualAcrossTypes | tools/config_cli.py:234-245 | Python's equality across types: booleans are the numbers 1 and 0, integers equal floats of their value, strings and null only themselves. |
| ConfigMinimal.MinimizedIsIrredundantIff | tools/config_cli.py:350-422 | Irredundance of the expanded config, with its exact exceptions: deleting an entry of the minimized file, at any depth, changes what the file expands to, but for the marker of an overriding section that overwrites all it replaces, a part of a marker that stays on without it, and a section that is only its marker and replaces an empty section. |
| ConfigMinimal.PlainEntriesAreNeeded | tools/config_cli.py:350-422 | No entry of the minimized file outside overriding sections can be deleted without changing what the file expands to. |
| ConfigMinimal.MinimizedEntryIsRedundantIff | tools/config_cli.py:378-422 | For the inferred base and for `--base`: which entries of the output can be deleted, against what the base expands to. |
| ConfigMinimal.DeleteKeepsMeaningIff | tools/config_cli.py:103-149 | For any file with a parent, minimized or not: deleting the entry at a path keeps what the file expands to if and only if the entry repeats the parent's expansion, or is one of the removable parts of an overriding section. |
| ConfigMinimal.DeleteUnseenIff | tools/config_cli.py:97-100 | Over a base, the entry at a path can be deleted if and only if the base has sections along the path and contains the entry at its end. |
| ConfigMinimal.MarkerOverNothingIsRedundant | tools/config_cli.py:246-258 | The failure: the marker of a section the base does not have is kept by minimize and can be deleted. |
| ConfigMinimal.InheritedSettingIsRedundant | tools/config_cli.py:378-385 | The failure under `--base`: a setting that the base inherits without repeating it is kept and can be deleted. |
| ConfigFiles.MinimizedPassesCheck | tools/config_cli.py:500-591 | The output of minimize passes minimize-check with the same base. |
| ConfigFiles.PlainSettingLosesIff | tools/config_cli.py:253-255 | A plain setting is lost exactly when it differs from the base and is Python-equal to it (true over 1), or is an empty list or an empty map. |
| ConfigFiles.OverridingSectionLoses | tools/config_cli.py:86-100 | An `_override_` section that repeats any value of the base loses it when minimized. |
| ConfigFiles.RebasedOutputPassesInferredCheckIff | tools/config_cli.py:378-385 | `--base` prunes against the base file as written: its output passes the check that infers the same base if and only if nothing in it repeats, or faces as an empty container, what the base expands to. |
| ConfigFiles.RebasedOutputMayFailTheInferredCheck | tools/config_cli.py:378-385 | An instance: a setting that the base inherits and does not repeat survives `--base` and fails the inferred check. |
| ConfigFiles.ConfigDict.MergeInto | tools/config_cli.py:86-100 | `merge_with_override` in place: base sections that are overridden are popped, markers are stripped from the override, and the result is the merge. |
| ConfigFiles.ConfigDict.PopReplaced | tools/config_cli.py:90-97 | The loop that pops: exactly the overridden keys leave the base and exactly the truthy markers leave the override. |
| ConfigFiles.LoadConfig | tools/config_cli.py:103-149 | The recursive loader folds the parents from the left and merges the file over them. |
| ConfigFiles.OverriddenEntry | tools/config_cli.py:86-100 | Every key of a merge with overrides: base only, stripped override, or deep merge. |
| ConfigFiles.InheritingLoadsClean | tools/config_cli.py:125-147 | A file with parents loads with no active `_override_` marker left. |
| ConfigFiles.OverridesIff | tools/config_cli.py:90-92 | A section overrides if and only if it carries the `_override_` key with anything but null, an empty string, an empty container or a value equal to 0. |
| ConfigFiles.OneParentIsAList | tools/config_cli.py:125-140 | One parent loads like a list of one. |
| ConfigFiles.ChildGoesFirst | tools/config_cli.py:140-149 | What a file sets itself goes before anything it inherits. |
| ConfigFiles.LaterParentGoesFirst | tools/config_cli.py:125-140 | What a later parent sets goes before what an earlier one does. |
| ConfigFiles.EarlierParentShows | tools/config_cli.py:125-140 | What later parents do not mention comes from the earlier ones. |
| ConfigFiles.RefusedIff | tools/config_cli.py:323-347 | Without `--base` a file is refused if and only if it names no parent or a list of them, each with its own error. |
| ConfigFiles.CheckStatusIff | tools/config_cli.py:500-591 | The exit status of minimize-check: 2 for a refusal, 0 if and only if nothing would be pruned and the parent is the base, 1 otherwise. |
| ConfigFlatten.CompareIsExact | tools/config_cli.py:451-474 | On configs with plain keys and no empty container inside, compare reports 'identical' exactly for equal trees. |
| ConfigFlatten.IdenticalIffSameLeaves | tools/config_cli.py:451-474 | With plain keys alone, compare reports 'identical' exactly when equal scalars sit at equal paths. |
| ConfigFlatten.RenderInjective | tools/config_cli.py:436-448 | Two different paths with plain keys never get the same flat key. |
| ConfigFlatten.LeavesDetermine | tools/config_cli.py:436-448 | Trees without empty containers are determined by their leaves. |
| ConfigFlatten.Compare | tools/config_cli.py:451-498 | For any two expanded configs: added and removed are the leaf names that only the right, and only the left, config has. With plain keys every path is reported as it is: added, removed, changed exactly where both have leaves that differ. With no empty container inside, nothing is reported exactly for equal trees. |
| ConfigFlatten.Flatten | tools/config_cli.py:436-448 | The recursive loop produces exactly the rendered leaf paths, each with the value of a leaf of that name. |
| ConfigFlatten.RenderedForms | tools/config_cli.py:436-448 | How paths are written: keys joined by dots, indices in brackets, nothing in front. |
| ConfigFlatten.DecimalDenotes | tools/config_cli.py:443-446 | An index is written as the decimal that denotes it. |
| ConfigFlatten.EmptySectionIsInvisible | tools/config_cli.py:436-448 | An empty section and no section compare as identical. |
| ConfigFlatten.DottedKeyCollides | tools/config_cli.py:436-448 | A dotted key and a nested section compare as identical. |
| SamplingTheorems.RunStaysOnPolicy | nemo_rl/algorithms/grpo.py:3006-3050 | Over every run of the synchronous loop, every generation and validation uses the latest weights, and every sample of a training batch, cached or new, was generated by exactly the version that the step updates, one version per step. |
| SamplingTheorems.StartsOnPolicyIff | nemo_rl/algorithms/grpo.py:2554-2559 | A run starts on-policy if and only if the flag starts stale or the two weights are equal, which is the contract of a weight synchronizer. |
| SamplingTheorems.CacheIsAlwaysWindow | nemo_rl/algorithms/grpo.py:1886-1929 | At every point of an epoch the cache is exactly the in-order non-zero-deviation samples generated since the last training step, and too few to train on. |
| SamplingTheorems.TrainsOnFirstFullWindow | nemo_rl/algorithms/grpo.py:1931-1963 | A step is taken at the first generation batch that brings the window to P·G samples, on exactly the first P·G of them; otherwise the run goes on, or fails exactly when max_gen_batches+1 batches were not enough. |
| SamplingTheorems.WindowOpensAfterAStep | nemo_rl/algorithms/grpo.py:3892-3894 | The window opens at the last training step of the epoch or at its start, where the cache is empty. |
| SamplingTheorems.DiscardsLessThanOneBatch | nemo_rl/algorithms/grpo.py:1945-1956 | The surplus dropped at a step is smaller than what the last generation batch contributed. |
| SamplingTheorems.RunKeepsGroups | nemo_rl/algorithms/grpo.py:1886-1963 | Over every run whose generation batches tear no group, with or without the leave-one-out baseline: every training batch has exactly P·G samples and consists of whole prompt groups. |
| SamplingTheorems.PlainRunKeepsGroups | nemo_rl/algorithms/grpo.py:1886-1963 | Without leave-one-out the same holds for every run, whatever the rewards. |
| SamplingTheorems.FilterKeepsGroupsIff | nemo_rl/algorithms/grpo.py:1886-1900 | The exact condition for one batch, both ways: the filter leaves whole groups if and only if no prompt has one sample kept and another dropped. |
| SamplingTheorems.LeaveOneOutKeepsGroupsIff | nemo_rl/algorithms/utils.py:150-182 | The exact condition on the rewards with leave-one-out: the filter leaves whole groups if and only if no sample is the odd one out of a group of three or more. |
| SamplingTheorems.UntornIffNoOddOneOut | nemo_rl/algorithms/utils.py:150-182 | With leave-one-out a batch is torn exactly by a sample that is the odd one out of its group. |
| SamplingTheorems.LeaveOneOutMixesPrompts | nemo_rl/algorithms/utils.py:150-182 | With leave-one-out two groups with one success each lose exactly their successes, and a batch of one group's size mixes the two prompts. |
| SamplingSteps.PlainBatchTrains | nemo_rl/algorithms/grpo.py:1958-1963 | Without dynamic sampling a generation batch is trained on as a whole, by the weights that generated it, and nothing is cached. |
| SamplingSteps.PlainRunTrainsEveryBatch | nemo_rl/algorithms/grpo.py:2933-3516 | Over whole runs without dynamic sampling: one training step for each generation batch, in order, each on all of its batch and by the weights that generated it, with none skipped until the run is over. |
| SamplingSteps.RunKeepsLimits | nemo_rl/algorithms/grpo.py:2933-2945 | A run that is left alone never trains past `max_num_steps` or starts an epoch past `max_num_epochs`, counts one step per training batch, and stops by itself only at the step limit. |
| SamplingSteps.TrainingStepIs | nemo_rl/algorithms/grpo.py:3457-3516 | A training step updates the weights once, on its batch; it validates, on refitted weights, if and only if the period, from its first step on, or the end of the run asks for it, and leaves the generator stale otherwise. |
| SamplingSteps.BatchCounts | nemo_rl/algorithms/grpo.py:2943-3938 | One generation batch counts a step exactly when it trains one batch. |
| SamplingSteps.EpochIs | nemo_rl/algorithms/grpo.py:3892-3938 | An epoch starts with an empty cache; one that is not cut short is counted, and the next starts at step 0. |
| SamplingSteps.StartIs | nemo_rl/algorithms/grpo.py:2554-2559 | A run starts with stale weights in the generator unless nothing was trained and a synchronizer says it is fresh, and validates first only if asked to at step 0. |
| GroupSpread.LeaveOneOutTearsGroupsIff | nemo_rl/algorithms/utils.py:150-182 | With leave-one-out a sample is dropped while another of its group is kept if and only if it is the odd one out of a group of three or more. |
| GroupSpread.GroupsStandTogether | nemo_rl/algorithms/utils.py:150-182 | Without leave-one-out samples of one prompt are kept or dropped together. |
| GroupSpread.KeptIffPeersDiffer | nemo_rl/algorithms/utils.py:162-182 | A sample's deviation is non-zero exactly when two of the rewards it is taken over differ. |
| GroupSpread.VarianceZeroIff | nemo_rl/algorithms/utils.py:162-182 | The mean of squares less the squared mean is zero exactly when all values agree, in exact arithmetic. |
| DynamicSampling.SyncTrainer.Sample | nemo_rl/algorithms/grpo.py:1834-1963 | `dynamic_sampling` with its filter loop and cache update is the decision function the theorems speak about; with dynamic sampling off that is the whole batch (`SamplingSteps.PlainBatchTrains`). |
| DynamicSampling.SyncTrainer.Process | nemo_rl/algorithms/grpo.py:2943-3233 | One pass of the loop body: refit if stale, generate, decide, and either continue, fail or train. |
| DynamicSampling.SyncTrainer.TrainFull | nemo_rl/algorithms/grpo.py:3457-3516 | Training marks the generator stale, validation refits it, and the step resets cache and counter. |
| DynamicSampling.SyncTrainer.Train | nemo_rl/algorithms/grpo.py:2933-3938 | The loops over epochs and batches with their early returns follow the run function from any state. |
| EpochTheorems.InterruptionsDoNotMatter | nemo_rl/algorithms/distillation.py:711-731 | After any sequence of steps, timeouts, crashes and resumes, one more session left alone ends with the epoch, totals, cursor and weights of one uninterrupted run, at min(max_steps, max_epochs·length) steps, with that state saved when checkpointing is on. |
| EpochTheorems.FinishedIsUnique | nemo_rl/algorithms/distillation.py:760-766 | Any two finished runs from the same start agree in everything but, for DPO at the end of an epoch, the step counter. |
| EpochTheorems.UninterruptedSessionEnds | nemo_rl/algorithms/distillation.py:1143-1165 | A session left alone terminates, at the scheduler's total. |
| EpochTheorems.IsLastStepIffReachesTarget | nemo_rl/algorithms/distillation.py:929-932 | The last-step test holds exactly on the step that reaches the total. |
| EpochTheorems.FinishedAtTarget | nemo_rl/algorithms/distillation.py:984-1013 | A finished run is at the total and, with checkpointing on, its final weights are the saved ones. |
| EpochTheorems.RunSound | nemo_rl/algorithms/dpo.py:545-548 | Over every run: the total is epoch·length plus the cursor's position, the weights are the fold over the batches in order, and the step counter is the cursor's position, or 0 where DPO saved at the end of an epoch. |
| EpochTheorems.StepOnTrack | nemo_rl/algorithms/dpo.py:669-673 | A step and its snapshot, with the step saved as it is or modulo the length, stay on that track. |
| EpochTheorems.RelaunchStepIff | nemo_rl/algorithms/dpo.py:669-671 | Launching a finished run again from the state it saved last finds the same progress, and the same step counter if and only if DPO did not save it at the end of an epoch, where it says 0. |
| EpochSaves.LossIsBounded | nemo_rl/algorithms/distillation.py:980-1013 | With checkpointing on, over every run of steps, timeouts, crashes and resumes: a crash costs fewer steps than either save period, and a timeout costs none. |
| EpochSaves.StepIs | nemo_rl/algorithms/distillation.py:929-1013 | One iteration advances every counter by one batch, saves if and only if checkpointing is on and the step is the last one, at a multiple of either period, or timed out, and ends the session on a timeout before the step limit. |
| EpochLoop.Trainer.TakeStep | nemo_rl/algorithms/distillation.py:913-1013 | The body of the batch loop: train, decide whether to save from the counters before the step, save the counters after it, advance, stop on timeout or limit. |
| EpochLoop.Trainer.Session | nemo_rl/algorithms/dpo.py:581-821 | A session of the two nested loops from any state is a run of the transition function, cut off only when its budget of batches is used up. |
| MessageSpans.LossMaskIsExact | nemo_rl/algorithms/grpo.py:2066-2077 | On the flattened log the mask is 1 exactly on tokens of messages that came in as generated assistant messages. |
| MessageSpans.MaskingTwiceIff | nemo_rl/algorithms/grpo.py:2071-2077 | Masking again gives the same masks if and only if every assistant message with tokens was generated, because masking adds the marker it reads. |
| MessageSpans.AddMasks | nemo_rl/algorithms/grpo.py:2066-2077 | The loop over message objects, shared ones included, masks each in place once for every place it holds and touches nothing else; a log without shared messages comes out as the masked log. |
| MessageSpans.AddMasksToBatch | nemo_rl/algorithms/grpo.py:2065-2077 | The same over a batch whose rows may share message objects: each message is masked once for every place it holds in the whole batch. |
| MessageSpans.SharedMessageIff | nemo_rl/algorithms/grpo.py:2071-2077 | A message visited more than once ends with the mask of one visit if and only if it is not an assistant message with tokens that was not generated; from the second visit on nothing changes. |
| MessageSpans.CopiesAreMaskedOnce | nemo_rl/algorithms/grpo.py:2065-2077 | In a log without shared messages every message is visited once. |
| MessageSpans.ExtractPrompt | nemo_rl/algorithms/grpo.py:2029-2042 | The extracted prompt is the shortest prefix of messages that reaches the prompt's length, or the whole log. |
| MessageSpans.PromptIsRecovered | nemo_rl/algorithms/grpo.py:2029-2042 | Whatever was generated afterwards, the extraction returns exactly the prompt's tokens, and exactly its messages unless the prompt ends in messages without tokens. |
| MessageSpans.ApplyPenalties | nemo_rl/algorithms/grpo.py:2163-2227 | Exactly the spans of penalized messages are overwritten, an invalid call winning over malformed thinking, in a fresh copy made only if needed; the advantages that came in are never written; the counts follow. |
| MessageSpans.PenaltyAtOwner | nemo_rl/algorithms/grpo.py:2168-2210 | A position takes the value for its one owning message: that of an invalid call before that of malformed thinking, for generated assistant messages only, and keeps its advantage otherwise. |
| MessageSpans.AnyFlaggedIff | nemo_rl/algorithms/grpo.py:2186-2195 | The advantages are copied if and only if some message of the batch is penalized. |
| MessageSpans.CountsAreExact | nemo_rl/algorithms/grpo.py:2176-2211 | The counts over the batch: generated assistant messages, invalid calls, and malformed thinking that is not also an invalid call. |
| MessageSpans.SpansDisjoint | nemo_rl/algorithms/grpo.py:2166-2210 | The running offset gives disjoint spans. |
| MessageSpans.PenaltiesHitTrainedTokensIff | nemo_rl/algorithms/grpo.py:2171-2186 | Every overwritten position is trained on if and only if no penalized flag sits on an assistant message with tokens that was not generated; the penalties run after masking, where every assistant message carries the marker. |
| TaskStreams.EachTaskContinuesItsStream | examples/custom_dataloader/custom_dataloader.py:86-104 | Over any draws and any number of resets, each data source contributes exactly the next batches of its own stream, none skipped and none repeated. |
| TaskStreams.CallsCompose | nemo_rl/data/dataloader.py:93-107 | Consecutive calls draw what one call over both orders would, so the statement above spans any number of calls. |
| TaskStreams.UnshuffledStreamIsCyclic | examples/custom_dataloader/custom_dataloader.py:47-51 | When every pass is the same the stream is the cyclic repetition of the batches. |
| TaskStreams.DrawContinues | examples/custom_dataloader/custom_dataloader.py:90-95 | One draw, with or without a reset, extends what was taken by its batch, and fails exactly when the next pass is empty. |
| TaskStreams.FailureIs | examples/custom_dataloader/custom_dataloader.py:86-104 | Drawing fails at the first source that does not exist, or that has nothing left and an empty next pass, each with its own error and with what was drawn before it. |
| TaskStreams.RoundRobinIsFair | examples/custom_dataloader/custom_dataloader.py:87-100 | In one call the chosen sources are drawn equally often up to one, earlier ones never less than later ones. |
| TaskStreams.RoundRobinCount | examples/custom_dataloader/custom_dataloader.py:87-100 | The exact number of draws of each source after n draws. |
| TaskStreams.SizeCheckPassesIff | nemo_rl/data/dataloader.py:99-102 | With batches of one size the wrapper's size assertion passes if and only if that size divides the expected count. |
| TaskStreams.MultiLoader.SampleChosen | examples/custom_dataloader/custom_dataloader.py:84-104 | For every call on which the while loop ends: it returns the batches of a round robin that has just enough prompts, or the error of the draw that failed, or the index error of an empty choice. |
| TaskStreams.FullBatchesEnd | examples/custom_dataloader/custom_dataloader.py:87-100 | The loop ends if no loader ever yields a batch without prompts. |
| TaskStreams.MultiLoader.SampleEach | examples/custom_dataloader/custom_dataloader.py:45-55 | One batch from each source in order, or the error of the first source whose next pass is empty. |
| TaskStreams.MultiLoader.Next | nemo_rl/data/dataloader.py:93-107 | The wrapper returns what the chosen-task function drew, passes its errors on, and fails its size assertion if and only if the number of prompts drawn differs from the expected one. |
| TaskStreams.CyclingContinues | nemo_rl/data/dataloader.py:29-44 | The cycling loader yields the same endless stream and gives up exactly when the passes it may still try are empty. |
| TaskStreams.CyclingLoader.Next | nemo_rl/data/dataloader.py:29-44 | The generator's loop, with its counter of empty passes, is that function. |

## Left out

- AsyncTheorems.ExactlyOnce: asks that every save be safe, because without that it is false (`AsyncGaps.APromptIsTrainedTwice`, `AsyncGaps.APromptIsLost`); its at-most-once half has the weaker and exact condition of `AsyncOnce.NoSaveExposesIff`, its no-loss half that of `AsyncTheorems.SafeIffRecoverable`.
- AsyncTheorems.NothingIsLost: asks the same, for the same reason (`AsyncGaps.APromptIsLost`).
- AsyncSafeRuns.PlainRunsKeepTheirPromise: speaks of aligned saves; a save that finds no snapshot at or below its cut falls back to the live cursor, for which `AsyncSafeRuns.FallbackRetrainsIff` is exact.
- AsyncInvariant.DispatchSound: lets the collector pick any target the limits permit, a superset of the choices the program makes.
- ReplayBuffers.ReplayBuffer.LoadState: is the call of the asynchronous trainer, with the step and the age limit given; malformed checkpoint files are left out.
- ConfigTree.PrunedIsIrredundant: is about the plain deep merge; through the loader it is false of overriding sections, and `ConfigMinimal.MinimizedIsIrredundantIff` is exact.
- AsyncRetrain.SaveRetrainsIff: the continuations may contain tolerated worker failures, whose number the model does not limit.
- ConfigFlatten.Flatten: keys are strings and their order is arbitrary, so when two leaves share a flat key either may win.
- TaskStreams.MultiLoader.SampleChosen: asks that the program's loop end at all; with batches that are all empty it does not.
- MessageSpans.AddMasksToBatch: router-replay fields are not modelled.
- GaeEstimator.ComputeAdvantage: leaves out the optional whitening of the advantages, which applies between the two passes and the zeroing of masked positions.
- Crashes inside a save: a checkpoint counts once it is complete, as with the rename at the end of the program's save.
- The startup lookahead barrier, engine sleep and wake, refit transports, Ray actors, environments, loggers and timers.
- The guard that skips a training step when a batch has the wrong number of rows after its ordinals were recorded.
- Resuming legacy checkpoints written without frontier metadata by an older version, beyond a fallback save.
- Sequence-level error masking, reward shaping and scaling, whitening and clipping of advantages, KL estimators: one-line algebra or floating point.
- Floating-point rounding, data types and gradients; logits with no finite value in a row.
- The early-stop decision and timers of the loops: any boolean may stop a run after any step.
- Multiple data loaders in the synchronous loop's last-step test, and step totals under dynamic sampling.
- YAML text, key order, file paths and the rewriting of `defaults` paths, interpolation, and merge errors between lists and mappings.
- The penalty rates printed as metrics: quotients of the counts.
