# Verified models of the speculative-decoding training and serving code

This project models, in Dafny, the parts of the repository where a fast, sharded, resumable or concurrent form has to agree with a
simple one, and proves that it does, or states exactly when it does. Tensors are sequences of integers or reals, networks are
arbitrary functions, so no theorem depends on weights; completion of futures and crashes are arbitrary, so the theorems cover
every order.

| module | component |
|---|---|
| `SpecDecoding` | block speculative decoding with a DFlash draft: buffer, two KV caches, accept, crop, post-process |
| `DFlashTraining`, `DFlashAnchors`, `DFlashSampledBlocks` | attention masks, noise ids, positions, anchor sampling, labels of DFlash training, and their match with decoding |
| `LogSoftmaxLoss` | the blocked forward and in-place backward kernels of the distillation loss |
| `SequenceParallel`, `ShardedCells`, `ShardedLoop` | sharded EAGLE3 samples, their preprocessing, the test-time-training loop on either backend, and whole sharded runs against unsharded ones |
| `ReducedLoss` | metric and loss reduction over the sharded steps |
| `VocabMapping` | the reduced draft vocabulary |
| `TensorParallel`, `MergedQkv`, `VocabParallel` | row and column parallel linear layers, the merged query/key/value layout, the vocabulary-parallel embedding and LM head |
| `Regenerate`, `RegenerateSweep`, `RegenerateResume` | the concurrent request driver with bounded queues, and its resume by line count |
| `HiddenStates` | the hidden-state writer with back-pressure, its paths and index ranges |
| `Checkpoint`, `Accumulation`, `Resume`, `ResumeFlags` | checkpoint names, the last checkpoint, gradient accumulation, training under crashes and resumes, and the flags that survive them |
| `TraceLanes` | the lane allocator for trace spans |
| `Prelude`, `Pieces`, `RealVectors`, `Decimal` | shared notions |

`dafny verify dfyconfig.toml` checks everything.

## What the proofs found

- Greedy decoding is lossless for every draft, but not for every id: the returned text is the target's own text if and only if that
  text contains no mask id and, when the mask id is also a stop id, it fits into what the first round decides
  (`SpecDecoding.SpecGenerate`; `SpecDecoding.MaskAsStopIsLossy` is a run where two drafts give different texts).
- The sequence-parallel loss divides by padded columns too: in every step it equals the unsharded mean if and only if the number of
  ranks divides the length or the loss is zero (`ReducedLoss.ShardedLossExactIff`; `ReducedLoss.PaddedLossShrinks` is length 3 on
  2 ranks). The counts behind the accuracy are exact (`ReducedLoss.ShardedCountsExact`).
- The `merged_qkv` layout cuts a weight into three equal chunks, also where grouped-query attention has fewer key and value rows than
  query rows. Every rank loads, and computes, its own slices of query, key and value if and only if the three have the same number of
  rows or there is one rank, and even one rank cannot split exactly four rows (`MergedQkv.QkvLoadsIff`, `MergedQkv.QkvForwardIff`).
  `MergedQkv.GroupedQueryMisloads` is 8 query, 2 key and 2 value rows on 2 ranks: the load fits and is wrong. `phi3.py` uses this layout
  for any number of key/value heads.
- `regenerate_train_data.py --resume` skips as many lines as were written. That is exact for every input, every completion order and
  every point of interruption if and only if there is one server and one slot (`RegenerateResume.ResumeExactIff`);
  `RegenerateResume.ResumeLosesLine` is a run over three lines that loses line 0 and repeats line 1. For a given input it is exact if
  and only if no server gets two lines, or the only server has a slot for each line, or each server has one slot and the number of
  servers divides the number of lines (`RegenerateResume.ResumeExactAt`).
- A checkpoint of `train_dflash.py` went through every batch up to its step, but gradients that were still being accumulated are lost
  on resume: every batch of the completed groups is in exactly one optimizer step if and only if `--accumulation-steps` divides each
  step at which the training was resumed inside them (`Accumulation.EveryBatchAppliedIff`, `Resume.CheckpointAppliedIff`;
  `Resume.AccumulationLosesBatch` is a run that never uses batch 0). Over all crashes that means: if and only if it divides
  `--save-interval`, or the first save comes after the completed groups of the whole training (`ResumeFlags.NeverLosesIff`).
- The neighbour test of the trace lanes misses overlaps once a zero-length span has been stored inside another span:
  `TraceLanes.ZeroLengthRun` lays out one request with spans (0, 10), (5, 5), (6, 8) in a single lane.
  `TraceLanes.NeighbourTestExactIff` says on which lanes the test is right.
- The dataset filter asks for `2 * block_size` loss tokens; more than `block_size` in one row is enough and `block_size` is not
  (`DFlashAnchors.FilterPreventsError`, `DFlashAnchors.FilterIsTight`).
- `get_last_checkpoint` documents `(None, None, None)` for an empty folder; the code returns `None` with `(0, 0)`, and so does the
  model.

## Model

| member | source | states |
|---|---|---|
| `SpecDecoding.SpecGenerate` | SpecForge/docs/ascend_npu/compare_decoding.py:54-173 | for every draft, target, prompt, budget, block size and stop list the result equals the reference text if and only if the reference has no mask and, if the mask is a stop id, is decided in the first round; with the mask neither in the prompt nor a stop id it is always the reference without masks; every round saw the inference view and accepted the agreed prefix plus one; at most `max_new_tokens` rounds; rounds go on exactly as long as the budget is not spent and no stop id is in the buffer |
| `SpecDecoding.CompareDrafts` | SpecForge/docs/ascend_npu/compare_decoding.py:9-16 | two arbitrary drafts, even with different block sizes, return identical ids when the mask is neither in the prompt nor a stop id |
| `SpecDecoding.MaskAsStopIsLossy` | SpecForge/docs/ascend_npu/compare_decoding.py:154-158 | a concrete target and two drafts whose outputs differ when the mask id is a stop id |
| `SpecDecoding.Decode` | SpecForge/docs/ascend_npu/compare_decoding.py:68-173 | the returned text, each round, and that rounds go on exactly as long as the budget is not spent and no stop id has been decided, in terms of plain greedy decoding |
| `SpecDecoding.DecodeBuffer` | SpecForge/docs/ascend_npu/compare_decoding.py:68-158 | before post-processing the buffer holds greedy text and then masks, and decoding stopped for the budget or a stop id, the latter after the first round that decides one |
| `SpecDecoding.DecodeLoop` | SpecForge/docs/ascend_npu/compare_decoding.py:103-158 | from any loop head the loop ends with the buffer holding greedy text and then masks, with one record per round; no round after the first begins once a stop id is in the buffer |
| `SpecDecoding.StopHit` | SpecForge/docs/ascend_npu/compare_decoding.py:154-158 | decoding is to stop if and only if some cell of the buffer after the prompt, masks included, is a stop id |
| `SpecDecoding.RoundsDetermined` | SpecForge/docs/ascend_npu/compare_decoding.py:103-158 | draft, target, prompt, budget, block size and stop ids determine all acceptance lengths |
| `SpecDecoding.Round` | SpecForge/docs/ascend_npu/compare_decoding.py:105-152 | a round takes a loop head (buffer, target cache = text before `start`, draft cache plus pending features = the same text) to the next, advancing by 1 to `block_size`, by exactly the agreement with greedy decoding plus one |
| `SpecDecoding.DraftBlock` | SpecForge/docs/ascend_npu/compare_decoding.py:106-122 | the draft attends to the features of everything before `start` and to one block of real token and masks at absolute positions; cropping leaves only the features |
| `SpecDecoding.VerifyBlock` | SpecForge/docs/ascend_npu/compare_decoding.py:124-140 | the accepted length is how far greedy decoding would itself have produced the block |
| `SpecDecoding.WriteBlock` | SpecForge/docs/ascend_npu/compare_decoding.py:142-147 | the accepted prefix and the bonus token are written, the rest of the buffer is untouched |
| `SpecDecoding.CumProdIsPrefixLength` | SpecForge/docs/ascend_npu/compare_decoding.py:134-140 | the sum of the cumulative product is the length of the longest matching prefix |
| `SpecDecoding.Prefill` | SpecForge/docs/ascend_npu/compare_decoding.py:86-104 | prefill establishes the loop-head invariant |
| `SpecDecoding.PostProcess` | SpecForge/docs/ascend_npu/compare_decoding.py:160-170 | crop, mask filter and stop cut give the finished form of the greedy text decided |
| `SpecDecoding.FinishExact` | SpecForge/docs/ascend_npu/compare_decoding.py:160-170 | with `m` tokens decided the result is the reference if and only if that has no mask and no more than `m` tokens |
| `DFlashTraining.TrainingMatchesInference` | SpecForge/specforge/core/dflash.py:69-85 | every query of a kept block attends in training to exactly the keys, tokens and positions the draft sees in decoding after the anchor |
| `DFlashSampledBlocks.SampledBlocksMatchInference` | SpecForge/specforge/core/dflash.py:136-224 | the same for every block that sampling keeps, whatever the random values |
| `DFlashTraining.AccuracyIsAcceptance` | SpecForge/specforge/core/dflash.py:278-288 | on text the target would generate, leading correct training rows of a block, from any row on, number exactly the tokens of the draft's proposal that decoding accepts there |
| `DFlashTraining.MasksAgree` | SpecForge/specforge/core/dflash.py:22-93 | the SDPA mask and the flex mask agree on every cell, and the flex mask is empty past the last block |
| `DFlashTraining.VisibleSlots` | SpecForge/specforge/core/dflash.py:62-66 | a query of a kept block sees context before its anchor and its own block, in that order and nothing else; a query of a dropped block sees nothing |
| `DFlashTraining.CreateNoiseIds` | SpecForge/specforge/core/dflash.py:201-224 | the scattered buffer is the real anchor token of each kept block followed by masks |
| `DFlashTraining.NoiseBlock` | SpecForge/specforge/core/dflash.py:207-222 | cell by cell contents of the noise ids |
| `DFlashAnchors.SampledAnchors` | SpecForge/specforge/core/dflash.py:136-172 | for any random values and any sorting permutation, with `m` the greatest number of positions in a row that carry loss and leave room for a block: there are min(num_anchors, m - 1) anchors, of which the row keeps as many as it has such positions; these are such positions in increasing order, and the others are 0 |
| `DFlashAnchors.SamplingFailsIff` | SpecForge/specforge/core/dflash.py:144-149 | sampling raises if and only if no anchor is asked for or no row has two such positions |
| `DFlashAnchors.SampledRow` | SpecForge/specforge/core/dflash.py:151-172 | the row-wise form, dropped slots holding 0 |
| `DFlashAnchors.SampledByRandom` | SpecForge/specforge/core/dflash.py:158-163 | no valid position left out drew a smaller random value than a kept one |
| `DFlashAnchors.FilterPreventsError` | SpecForge/scripts/train_dflash.py:238-242 | a row with more than `block_size` loss tokens makes the sampling error unreachable |
| `DFlashAnchors.FilterIsTight` | SpecForge/specforge/core/dflash.py:144-149 | with exactly `block_size` loss tokens the error can occur |
| `DFlashAnchors.ClampsAreIdle` | SpecForge/specforge/core/dflash.py:278-288 | on sampled anchors none of the later clamps changes an index, so row `k` of a block is labelled with the token at `anchor + k` |
| `DFlashAnchors.WeightMask` | SpecForge/specforge/core/dflash.py:290-304 | a label counts exactly if its block is kept, it is not the anchor itself, it lies in the text, and its own loss mask is set |
| `LogSoftmaxLoss.OnlinePass` | SpecForge/specforge/core/loss.py:72-86 | for every block size the online pass ends with the row's maximum and the sum of `exp(x - max)` |
| `LogSoftmaxLoss.ForwardKernel` | SpecForge/specforge/core/loss.py:64-110 | a program writes its own row's reference loss and statistics, or nothing for a masked row, and touches no other row |
| `LogSoftmaxLoss.KernelRowIsReference` | SpecForge/specforge/core/loss.py:98-108 | the max-shifted sum is the log-softmax cross entropy |
| `LogSoftmaxLoss.Forward` | SpecForge/specforge/core/loss.py:173-201 | the mean over all rows is the one-line reference loss for every 0/1 mask |
| `LogSoftmaxLoss.BackwardKernel` | SpecForge/specforge/core/loss.py:127-170 | the in-place pass leaves the gradient of the original logits in its row, zeros in a masked row, and other rows as they were |
| `LogSoftmaxLoss.Backward` | SpecForge/specforge/core/loss.py:203-228 | every cell of the tensor is the gradient computed from the logits before the call |
| `LogSoftmaxLoss.RowSubgradient` | SpecForge/specforge/core/loss.py:157-170 | the row written by the kernel is a subgradient of the row loss |
| `LogSoftmaxLoss.MeanSubgradient` | SpecForge/specforge/core/loss.py:203-228 | the tensor returned by backward is a subgradient of the mean loss that forward returns |
| `LogSoftmaxLoss.GradientRowIsGradient` | SpecForge/specforge/core/loss.py:157-170 | the rows in the subgradient statements are, cell by cell, what the backward pass writes |
| `LogSoftmaxLoss.GradientSumsToZero` | SpecForge/specforge/core/loss.py:147-170 | each unmasked gradient row sums to zero |
| `SequenceParallel.ShardsReproduceGlobal` | SpecForge/specforge/data/preprocessing.py:561-580 | for every length, rank count and shift `k <= ttt_length`, the ranks' first chunks after `k` left shifts, laid end to end, are the unsharded tensor shifted `k` times and zero-padded |
| `SequenceParallel.TttLoop` | SpecForge/specforge/core/eagle3.py:219-270 | step `k` sees ids and masks shifted `k` times, its part of the target distributions, the position ids and the hidden states the backbone made of all views so far; the loop fails exactly when a USP shard is no longer than `ttt_length` |
| `SequenceParallel.RankStepIs` | SpecForge/specforge/core/eagle3_adapters.py:88-117 | for every rank, also one past the end, what its loop sees in step `k < ttt_length` after slicing, padding and preprocessing: ids, masks, target distributions, hidden states and position ids as pieces of the global tensors |
| `SequenceParallel.GlobalStepIs` | SpecForge/specforge/core/eagle3_adapters.py:54-77 | the same of the unsharded run, all fields as shifts of the global tensors |
| `ShardedCells.GlobalCells` | SpecForge/specforge/data/preprocessing.py:521-539 | cell by cell, from the raw sample: in step `k` column `i` shows the token and target row at `i + k + 1`, the sample's own loss mask at `i + k`, 0 from the last position on, and position id `i` |
| `ShardedCells.RankCells` | SpecForge/specforge/data/preprocessing.py:541-611 | the same for every rank, whose column `i` is column `rank * chunk + i` of the text |
| `ShardedCells.FirstHiddenCells` | SpecForge/specforge/data/preprocessing.py:582-585 | the hidden states of the first step are the sample's own, on a rank those of its columns and zeros |
| `ShardedCells.LoopHidden` | SpecForge/specforge/core/eagle3.py:235-250 | later steps start from what the backbone makes of all views so far, a rank from the first chunk of it |
| `SequenceParallel.ShardedStepsMatch` | SpecForge/specforge/data/preprocessing.py:521-611 | in a step entered with hidden states that match on the text, ids, position mask, loss mask, attention mask, target distributions and hidden states of all ranks together are the unsharded view plus padding without loss |
| `ShardedLoop.ShardedLoopsMatch` | SpecForge/specforge/core/eagle3.py:219-270 | in complete runs of the loop on all ranks and on one device the views of every step match, if matching views so far make the backbones return matching hidden states along these runs |
| `ShardedLoop.TrainSharded` | SpecForge/specforge/core/eagle3.py:219-270 | running the loop on every rank and on one device never fails on a text, and gives such runs |
| `ShardedLoop.AgreeOnRun` | SpecForge/specforge/core/eagle3.py:235-246 | backbones that agree on all matching views agree along every run |
| `ShardedLoop.EchoAgrees` | SpecForge/specforge/core/eagle3.py:235-246 | backbones that agree exist |
| `SequenceParallel.FirstHiddenMatches` | SpecForge/specforge/data/preprocessing.py:582-585 | the hidden states entering the first step match |
| `SequenceParallel.RingPositionsCount` | SpecForge/specforge/data/preprocessing.py:603-611 | the position ids of the ring groups, end to end, count the columns of all ranks from 0 |
| `SequenceParallel.RingGroup` | SpecForge/specforge/data/preprocessing.py:603-611 | all ranks of a Ulysses group share the position ids of the group's columns |
| `SequenceParallel.SliceAndPadIsShard` | SpecForge/specforge/data/preprocessing.py:561-580 | cropping, slicing and zero-padding give, cell by cell, the rank's own columns, the overlap and zeros past the end |
| `SequenceParallel.ZeroRowIsUniform` | SpecForge/specforge/core/eagle3.py:577-583 | the softmax of a zero-padded row is the padding value `1 / n` used elsewhere |
| `ReducedLoss.ShardedCountsExact` | SpecForge/specforge/core/eagle3_adapters.py:119-128 | in every step, for any logits, the correct and the masked columns counted by the ranks and summed are those the unsharded step counts |
| `ReducedLoss.CountIsSize` | SpecForge/specforge/core/eagle3.py:85-93 | for a 0/1 mask these are the numbers of columns in the mask, and of those whose logits and target have the same top token |
| `ReducedLoss.ShardedLossExactIff` | SpecForge/specforge/core/eagle3_adapters.py:130-133 | in every step, for any logits, the average of the ranks' losses on their own columns is the unsharded loss if and only if the number of ranks divides the length or that loss is zero |
| `ReducedLoss.PaddedLossShrinks` | SpecForge/specforge/core/eagle3_adapters.py:130-133 | length 3 on 2 ranks: a sample and logits for which the two losses differ |
| `Pieces.NoPaddingIffDivides` | SpecForge/specforge/data/preprocessing.py:562-566 | there is no padding exactly when the shard count divides the length |
| `VocabMapping.ProcessTokenDict` | SpecForge/specforge/data/preprocessing.py:736-784 | draft id `i` stands for the `i`-th chosen id `i + d2t[i]`, none rarer than an id left out; when all ids are in range `t2d` marks exactly the chosen ids and the tables carry every argmax over |
| `VocabMapping.FillMissing` | SpecForge/specforge/data/preprocessing.py:754-760 | seen ids keep their counts, unseen ids below the draft size fill up to exactly that size with frequency 0 |
| `VocabMapping.MostCommon` | SpecForge/specforge/data/preprocessing.py:764-764 | the chosen ids are distinct and at least as frequent as any other |
| `VocabMapping.TablesAgree` | SpecForge/specforge/data/preprocessing.py:776-782 | the two tables describe the same bijection if and only if every chosen id is in the target vocabulary |
| `VocabMapping.ArgmaxPreserved` | SpecForge/specforge/core/eagle3.py:588-599 | the first argmax of the compressed row maps back to the row's own first argmax if and only if that token is kept |
| `VocabMapping.TablesMapArgmax` | SpecForge/specforge/core/eagle3.py:588-599 | for every row and every strictly monotone map, the first argmax `i` of the compressed row satisfies `i + d2t[i] = argmax` if and only if `t2d` keeps the argmax |
| `TensorParallel.LoadsIffDivides` | SpecForge/specforge/distributed.py:134-139 | every rank finds a shard of the size its parameter expects if and only if the rank count divides the dimension |
| `TensorParallel.ColumnForward` | SpecForge/specforge/layers/linear.py:149-158 | a rank's output is its slice of the unsharded output |
| `TensorParallel.MergedForward` | SpecForge/specforge/layers/linear.py:160-196 | for a merged layer of any number of parts of the same size, such as gate_up, a rank's output is its slice of each part, in order |
| `MergedQkv.QkvLoadsIff` | SpecForge/specforge/layers/linear.py:177-196 | under merged_qkv, for `tp * a` query and `tp * b` key and value rows, every rank of every weight loads its own slices of query, key and value if and only if `a = b`, or there is one rank and not exactly four rows |
| `MergedQkv.QkvForwardIff` | SpecForge/specforge/modeling/target/custom_backend/phi3.py:116-148 | the same of the outputs, split by the head counts of a rank, for every weight, bias and input |
| `MergedQkv.Misplaced` | SpecForge/specforge/layers/linear.py:177-196 | with several ranks and unequal sizes rank 0 always holds a row that is not the one it should be at that place |
| `MergedQkv.GroupedQueryMisloads` | SpecForge/specforge/layers/linear.py:177-196 | 8 query, 2 key and 2 value rows on 2 ranks: rank 0 gets rows 0, 1, 4, 5, 8, 9 in place of 0, 1, 2, 3, 8, 10 |
| `TensorParallel.RowParallelIsLinear` | SpecForge/specforge/layers/linear.py:54-63 | the sum over ranks is the unsharded layer, with the bias counted once |
| `TensorParallel.RowWeightIsShard` | SpecForge/specforge/layers/linear.py:54-57 | the columns a rank multiplies are the chunk its load hook takes of every row |
| `TensorParallel.GateUpBlock` | SpecForge/specforge/modeling/target/custom_backend/phi3.py:66-85 | gate_up column layer, any elementwise activation, row layer, sum over ranks: equal to the unsharded block |
| `TensorParallel.SplitBlock` | SpecForge/specforge/modeling/target/custom_backend/llama.py:57-84 | the same for separate gate and up layers |
| `VocabParallel.ExactlyOneOwner` | SpecForge/specforge/layers/embedding.py:52-61 | every id of the vocabulary is owned by exactly one rank, any other id by none, for every vocabulary size and rank count |
| `VocabParallel.VocabParallelEmbedding.constructor` | SpecForge/specforge/layers/embedding.py:47-77 | the shard bounds of a rank |
| `VocabParallel.VocabParallelEmbedding.ShardStateDict` | SpecForge/specforge/layers/embedding.py:81-89 | the rank holds its rows of the zero-padded table |
| `VocabParallel.VocabParallelEmbedding.ForwardLocal` | SpecForge/specforge/layers/embedding.py:105-126 | owned ids give their row, others zeros |
| `VocabParallel.EmbeddingIsUnsharded` | SpecForge/specforge/layers/embedding.py:105-132 | the ranks' rows sum to the unsharded row |
| `VocabParallel.EmbeddingForward` | SpecForge/specforge/layers/embedding.py:105-132 | loading, masked lookups and in-place sum over all ranks give the unsharded lookup |
| `VocabParallel.LmHeadIsUnsharded` | SpecForge/specforge/layers/lm_head.py:31-101 | gathered and trimmed logits are the unsharded logits, divisible or not |
| `Regenerate.Driver.Run` | SpecForge/scripts/regenerate_train_data.py:329-428 | for every completion order the files hold exactly what the functional run writes: each submitted line once, in the file its status selects; all lines are submitted without `num_samples`, otherwise at least min and at most `num_samples + servers * concurrency`; one slot keeps input order |
| `Regenerate.Driver.Dispatch` | SpecForge/scripts/regenerate_train_data.py:349-403 | round-robin dispatch reaches the state of the functional run; every line submitted is in a queue or in one file, and queues hold at most `concurrency` |
| `Regenerate.Driver.Feed` | SpecForge/scripts/regenerate_train_data.py:360-403 | one line waits for a slot of its server and is submitted there; at most every other request of the queue is written meanwhile |
| `Regenerate.Driver.AwaitQueue` | SpecForge/scripts/regenerate_train_data.py:366-394 | the polling loop ends and leaves, writes and waits exactly what the functional form prescribes |
| `Regenerate.AwaitIsSweep` | SpecForge/scripts/regenerate_train_data.py:366-394 | waiting writes nothing if there is a free slot, else it is one sweep that writes something |
| `Regenerate.AwaitFrees` | SpecForge/scripts/regenerate_train_data.py:366-394 | afterwards a slot is free, and at most every other request of a full queue was written |
| `Regenerate.Driver.Poll` | SpecForge/scripts/regenerate_train_data.py:369-391 | iteration with removal leaves and writes exactly what the list semantics says |
| `Regenerate.Driver.Drain` | SpecForge/scripts/regenerate_train_data.py:405-428 | everything pending is written, server by server |
| `Regenerate.SweepConserves` | SpecForge/scripts/regenerate_train_data.py:369-391 | removing while iterating skips requests but neither loses nor repeats one |
| `RegenerateSweep.SweepIsScan` | SpecForge/scripts/regenerate_train_data.py:369-391 | iterating while removing is a scan of the queue that polls a request, and after writing it passes over the next one; which requests are polled, written and left |
| `RegenerateSweep.RemoveAt` | SpecForge/scripts/regenerate_train_data.py:390-390 | removal takes out one position and leaves the order |
| `RegenerateSweep.ScanPicks` | SpecForge/scripts/regenerate_train_data.py:369-391 | what is left and what is written both keep the order of the queue |
| `RegenerateSweep.AwaitIsScan` | SpecForge/scripts/regenerate_train_data.py:366-394 | waiting at a queue in input order is nothing, or one such scan |
| `RegenerateSweep.AwaitTime` | SpecForge/scripts/regenerate_train_data.py:366-394 | a full queue is swept again and again until the first sweep that writes |
| `RegenerateSweep.RunInOrder` | SpecForge/scripts/regenerate_train_data.py:349-403 | in every state of every run each queue is in input order |
| `RegenerateSweep.SubmittedIff` | SpecForge/scripts/regenerate_train_data.py:349-353 | a line is submitted if and only if fewer than `num_samples` results were written when its turn, and that of every line before it, came |
| `Regenerate.SplitResults` | SpecForge/scripts/regenerate_train_data.py:373-389 | the two files together hold exactly what was written |
| `RegenerateSweep.FilesInOrder` | SpecForge/scripts/regenerate_train_data.py:373-389 | each file holds exactly the results of its status, in the order written |
| `RegenerateResume.ResumeExactIff` | SpecForge/scripts/regenerate_train_data.py:271-287 | over all completion orders of both runs, all inputs and all points of interruption, the interrupted and the resumed run together write every line exactly once if and only if there is one server and one slot |
| `RegenerateResume.ResumeExactAt` | SpecForge/scripts/regenerate_train_data.py:271-287 | the same for one number of lines: if and only if no server gets two lines, or the only server has a slot for each line, or each server has one slot and the last round is full |
| `RegenerateResume.LastRound` | SpecForge/scripts/regenerate_train_data.py:366-428 | with one slot to a server every run writes the same order, which is that of the input if and only if the last round is full |
| `RegenerateResume.ResumeLosesLine` | SpecForge/scripts/regenerate_train_data.py:343-347 | a run of the driver over three lines writes 1, 0, 2; resumed after its first write, line 0 is lost and line 1 repeated |
| `RegenerateResume.ResumesIff` | SpecForge/scripts/regenerate_train_data.py:271-287 | for one pair of runs and one point of interruption, resuming is exact if and only if no line at or past the count had been written |
| `RegenerateResume.OneSlotResumes` | SpecForge/scripts/regenerate_train_data.py:343-347 | with one server and one slot resuming is exact at every point |
| `RegenerateResume.FinalCovers` | SpecForge/scripts/regenerate_train_data.py:329-428 | a run without `num_samples` writes each line from the first one on exactly once |
| `HiddenStates.HiddenStatesGenerator.Generate` | SpecForge/scripts/prepare_hidden_states.py:423-580 | sample `k` is submitted under `start_idx + k` with its own content if and only if it was not on disk; processed plus skipped is the number seen; on exit every save is done; files lie in directories made beforehand; a second run would find all but NaN samples |
| `HiddenStates.HiddenStatesGenerator.SaveAsync` | SpecForge/scripts/prepare_hidden_states.py:311-333 | pending saves never exceed the queue size, and every submitted save is pending or done; a full list is first cleared of what is done, and only if it stays full the oldest save is waited for |
| `HiddenStates.UnfinishedAre` | SpecForge/scripts/prepare_hidden_states.py:323-323 | the saves kept are those not done when they were polled, in their order |
| `HiddenStates.HiddenStatesGenerator.WaitAllSaves` | SpecForge/scripts/prepare_hidden_states.py:335-346 | afterwards every submitted save is done |
| `HiddenStates.HiddenStatesGenerator.CheckExisting` | SpecForge/scripts/prepare_hidden_states.py:375-403 | the check during the run answers as the disk was before it |
| `HiddenStates.HiddenStatesGenerator.PrepareOutputDirs` | SpecForge/scripts/prepare_hidden_states.py:348-373 | exactly the directories of the assigned samples are made |
| `HiddenStates.GroupRange` | SpecForge/scripts/prepare_hidden_states.py:368-373 | the stepped range visits exactly the groups of the assigned samples |
| `HiddenStates.ExpectedIs` | SpecForge/scripts/prepare_hidden_states.py:455-535 | which indices are submitted and with what, both directions |
| `HiddenStates.IndexOfPath` | SpecForge/scripts/prepare_hidden_states.py:405-421 | a path determines its index, under either extension |
| `HiddenStates.PathShows` | SpecForge/scripts/prepare_hidden_states.py:418-421 | a path names the range of `file_group_size` indices from a multiple of it that the index lies in, and the index |
| `HiddenStates.RangesTile` | SpecForge/scripts/prepare_hidden_states.py:669-684 | for every total and rank count each index below the total belongs to exactly one rank and no other index to any |
| `HiddenStates.RanksLineUp` | SpecForge/scripts/prepare_hidden_states.py:674-684 | each range starts where the previous one stops |
| `HiddenStates.SharesEven` | SpecForge/scripts/prepare_hidden_states.py:674-684 | shares differ by at most one, and the earlier ranks have the larger ones |
| `Checkpoint.ParseIff` | SpecForge/specforge/utils.py:92-94 | exactly the names of the pattern's shape are recognised, decimal digits of any script included, with the numbers they show |
| `Checkpoint.ParseName` | SpecForge/scripts/train_dflash.py:276-278 | parsing inverts printing |
| `Checkpoint.LastCheckpoint` | SpecForge/specforge/utils.py:90-118 | none if and only if no directory matches, else one whose epoch and step are numerically greatest, the first listed of several names for them |
| `Resume.LastIsGreatestIff` | SpecForge/specforge/utils.py:90-118 | whatever lies beside the trainer's checkpoints, the epoch and step found are those of its greatest checkpoint if and only if nothing else that looks like a checkpoint is greater |
| `Resume.LastIsGreatest` | SpecForge/specforge/utils.py:96-118 | if nothing else looks like a checkpoint the greatest one is found, and nothing exactly if there is none |
| `Resume.Trainer.Schedule` | SpecForge/scripts/train_dflash.py:461-635 | for every sequence of processes and crash points the folder is the one the functional schedule gives; every checkpoint went through exactly the batches up to its step, once and in order, and took the optimizer steps that accumulation makes of them; with a fixed epoch count the first process to finish went through all of them; if the accumulation count divides save interval and epoch length every batch is in exactly one optimizer step |
| `Resume.Trainer.Run` | SpecForge/scripts/train_dflash.py:461-635 | one process, resumed or not, crashed or not, with any epoch count, keeps that and changes earlier checkpoints only by saving the same step again with the same batches |
| `Resume.CheckpointAppliedIff` | SpecForge/scripts/train_dflash.py:526-546 | every batch of the completed groups is in exactly one optimizer step behind a checkpoint if and only if the accumulation count divides each step its lineage was resumed at inside them |
| `Accumulation.EveryBatchAppliedIff` | SpecForge/scripts/train_dflash.py:526-546 | the same for any set of resumes and any number of batches |
| `Accumulation.StepUses` | SpecForge/scripts/train_dflash.py:526-546 | there is one optimizer step to every `accumulation_steps` batches, and step `i` uses those of its group since the latest resume in it |
| `Accumulation.PlainSteps` | SpecForge/scripts/train_dflash.py:526-546 | without a resume step `i` uses exactly batches `i * a` to `i * a + a` |
| `ResumeFlags.NeverLosesIff` | SpecForge/scripts/train_dflash.py:526-635 | with a fixed epoch count every schedule of crashes and resumes keeps every batch of the completed groups in exactly one optimizer step if and only if the accumulation count divides the save interval or the save interval is not below the completed groups of the whole training |
| `ResumeFlags.FolderRegular` | SpecForge/scripts/train_dflash.py:616-635 | every checkpoint and every resume of every schedule is at a multiple of the save interval or at the end |
| `ResumeFlags.EverySaveMade` | SpecForge/scripts/train_dflash.py:616-619 | a process that lives has saved at every multiple of the interval it passed, and nothing else |
| `Resume.AccumulationLosesBatch` | SpecForge/scripts/train_dflash.py:526-546 | two batches to a step, a crash after the first save: the resumed process goes through every batch but no optimizer step uses batch 0 |
| `Resume.Trainer.Epochs` | SpecForge/scripts/train_dflash.py:483-510 | starting inside an epoch, the loop ends at the last batch of the last epoch, or where the process dies |
| `Resume.Trainer.Epoch` | SpecForge/scripts/train_dflash.py:507-510 | an epoch skips exactly the batches already consumed |
| `Resume.Trainer.Start` | SpecForge/scripts/train_dflash.py:365-400 | a resumed process continues the greatest checkpoint, and the name and the saved state agree on where |
| `Resume.EveryBatchOnce` | SpecForge/scripts/train_dflash.py:496-510 | uninterrupted training contains each batch of each epoch exactly once, in order |
| `Resume.SaveKeepsResumable` | SpecForge/scripts/train_dflash.py:616-635 | no save makes the folder's greatest checkpoint one that a resume would misread |
| `TraceLanes.Layout.Generate` | sglang/scripts/convert_otel_2_perfetto.py:268-308 | the class computes the functional layout; with spans of positive length no two spans drawn in the same lane of a process overlap, for requests in any order, and every span gets the lane of its request's previous span in that process if nothing drawn there before overlaps it, else the lowest lane where nothing does |
| `TraceLanes.LayoutReadable` | sglang/scripts/convert_otel_2_perfetto.py:268-308 | the functional layout has one line for every span, and spans of positive length drawn in the same lane never overlap |
| `TraceLanes.LayoutBest` | sglang/scripts/convert_otel_2_perfetto.py:95-120 | the choice of lanes on spans of positive length, in terms of what was drawn before alone |
| `TraceLanes.Layout.FindLine` | sglang/scripts/convert_otel_2_perfetto.py:95-120 | the request's own lane is kept if it does not conflict or the span has no length; otherwise every lane below the one chosen conflicts and that one does not; a lane that did not exist is opened, with one record |
| `TraceLanes.LineFits` | sglang/scripts/convert_otel_2_perfetto.py:95-120 | the lane chosen exists or has the next number, and has no conflict unless the span has no length |
| `TraceLanes.LayoutKeeps` | sglang/scripts/convert_otel_2_perfetto.py:268-308 | after any number of requests the lanes of a process are numbered exactly 1 to n and hold in order what was drawn in them |
| `TraceLanes.SpanLayoutContainer.BisectLeft` | sglang/scripts/convert_otel_2_perfetto.py:59-59 | the index splits the lane into smaller and not smaller entries |
| `TraceLanes.SpanLayoutContainer.CheckOverlap` | sglang/scripts/convert_otel_2_perfetto.py:58-70 | on disjoint positive spans the neighbour test is "overlaps some stored span" |
| `TraceLanes.SpanLayoutContainer.InsertSpan` | sglang/scripts/convert_otel_2_perfetto.py:72-73 | the lane gains exactly the span, stays in order, and stays disjoint if nothing overlapped |
| `TraceLanes.ConflictIsOverlap` | sglang/scripts/convert_otel_2_perfetto.py:58-70 | the same as a property of lanes |
| `TraceLanes.NeighbourTestExactIff` | sglang/scripts/convert_otel_2_perfetto.py:58-70 | with zero-length spans stored, the test is right for every query if and only if no span reaches past a later one into the gap behind it and every point lies in a span |
| `TraceLanes.ZeroLengthRun` | sglang/scripts/convert_otel_2_perfetto.py:98-99 | a run of the layout on one request with spans (0, 10), (5, 5), (6, 8): all get lane 1, where the first and the last overlap |
| `TraceLanes.ZeroLengthHidesOverlap` | sglang/scripts/convert_otel_2_perfetto.py:58-70 | on the lane that run has built, the neighbour test misses the overlap |

## Modelling decisions

- Attention in the target is causal, so its choice and feature at a slot are functions of the slots up to it. The draft's rows are a
  function of all keys its queries attend to. A KV cache is the sequence of entries appended to it.
- `exp` and `log` are arbitrary functions with `exp(a + b) = exp(a) * exp(b)`, `exp` positive, `log` its inverse and
  additive; the subgradient theorems also use that `exp` lies above its tangents and that `log` is monotone. The initial `-inf` maximum is an option.
- `softmax` inside the argmax statements is any strictly monotone map. Batch rows that do not interact are modelled one at a time.
- A future is done from some arbitrary tick on, and polling advances the clock. `.done()` and `.result()` are the only observations.
- A model is identified with the batches it went through and the optimizer steps it took, each with the batches whose gradients it used.
- Digits are those of Unicode 14, in blocks of ten.
- The logits of padded columns are arbitrary; the logits of the other columns are the same with and without sharding.
- `graph[pid][line]` of the trace script is one map keyed by both, with the number of lanes of a process beside it.
- The list that Python iterates while removing from it is modelled by position, so the element after a removed one is skipped.
- `Pieces.Offset(r, c)` is `r * c` (`Pieces.OffsetIsProduct`), the start of the `r`-th of several runs of length `c`.
- Only rank 0 of a tensor-parallel group writes hidden states; the model is that rank.

## Left out

- Temperature above 0 in decoding: sampling is outside the losslessness claim.
- Floating-point rounding, weights, attention arithmetic, and the Ascend and CUDA kernels.
- `handle_kv_head_replicas`: a plain selection of one chunk, which would add an easy member.
- The QwenVL variant of the training loop.
- Attention over several ranks: that a sharded backbone agrees with the unsharded one is a hypothesis of `ShardedLoop.ShardedLoopsMatch`.
- The `1e-6` clamps in metrics and the loss decay weights of DFlash.
- Optimizer steps skipped for a non-finite gradient norm: every group that completes steps in the model.
- `DistributedSampler` padding: what the loader yields is a parameter. If a rank's loader yields more than its share, the first extra
  index is the next rank's first one.
- Exceptions raised by a save, a request or a malformed input line; HTTP, JSON and the message fold of `call_sglang`.
- Duplicate addresses in `--server-address`: servers are distinct in the model.
- Optimizer state on resume: only the data order is claimed, since the script restores only the scheduler.
- Partly written checkpoints: a save is atomic in the model.
- `Resume.Trainer.Schedule`: assumes that no other directory in the output folder is named like a checkpoint, because what such a
  directory holds is not known; `Resume.LastIsGreatestIff` says when it would be taken.
- Results lost in file buffers when a process is killed: what the driver wrote is in the file.
- `TraceLanes.Layout.Generate`: claims nothing about overlap once a span without positive length was drawn, because such spans skip the test.
- The sorting of requests and spans by start time in the trace script: the claims hold for any order.
- Chat templates, dataset builders, benchmarks, trackers, command lines, learning-rate schedules.
