/** Sequence-parallel EAGLE3 training: overlapping shards (`process_data_usp`), repeated left shifts (the TTT loop of
    `OnlineEagle3Model.forward`) and the per-backend step views, against the unsharded run. */
module SequenceParallel {
  import opened Prelude
  import opened Pieces
  import opened RealVectors
  import L = LogSoftmaxLoss

  // ---------------------------------------------------------------- shifting

  /** `padding(tensor, left=False)`: drop the first column, append a zero column. */
  function ShiftLeft<T>(s: seq<T>, zero: T): (r: seq<T>)
    ensures |r| == |s|
  {
    if s == [] then [] else s[1..] + [zero]
  }

  function ShiftTimes<T>(s: seq<T>, zero: T, k: nat): (r: seq<T>)
    ensures |r| == |s|
  {
    if k == 0 then s else ShiftLeft(ShiftTimes(s, zero, k - 1), zero)
  }

  /** `s` extended with zeros to the right, forever. */
  function At<T>(s: seq<T>, zero: T, i: nat): T {
    if i < |s| then s[i] else zero
  }

  lemma {:induction false} ShiftedAt<T>(s: seq<T>, zero: T, k: nat, i: nat)
    requires i < |s|
    ensures ShiftTimes(s, zero, k)[i] == At(s, zero, i + k)
  {
    if k > 0 {
      var prev := ShiftTimes(s, zero, k - 1);
      if i + 1 < |s| {
        assert ShiftLeft(prev, zero)[i] == prev[i + 1];
        ShiftedAt(s, zero, k - 1, i + 1);
      }
    }
  }

  // ---------------------------------------------------------------- shards

  /** Python slice `s[lo:hi]` for non-negative bounds. */
  function Slice<T>(s: seq<T>, lo: nat, hi: nat): (r: seq<T>)
    ensures |r| == Max(Min(hi, |s|) - lo, 0)
    ensures forall i {:trigger r[i]} :: 0 <= i < |r| ==> lo + i < |s| && r[i] == s[lo + i]
  {
    if lo < Min(hi, |s|) then s[lo..Min(hi, |s|)] else []
  }

  /** `_slice_and_pad`: the columns `start..end` of the first `globalLen`, zero-padded to `localLen` columns. */
  function SliceAndPad<T>(tensor: seq<T>, zero: T, globalLen: nat, start: nat, localLen: nat): (r: seq<T>)
    ensures |r| == localLen
  {
    var end := Min(start + localLen, globalLen);
    var cropped := Slice(tensor, 0, globalLen);
    var sliced := Slice(cropped, start, Min(end, |cropped|));
    if |sliced| < localLen then sliced + Repeat(zero, localLen - |sliced|) else sliced
  }

  /** The shard of rank `rank`: its own `chunk` columns and `overlap` columns of the next ranks, zeros past the end. */
  function Shard<T>(tensor: seq<T>, zero: T, globalLen: nat, chunk: nat, overlap: nat, rank: nat): (r: seq<T>)
    ensures |r| == chunk + overlap
    ensures forall i {:trigger r[i]} :: 0 <= i < |r| ==>
              r[i] == At(Slice(tensor, 0, globalLen), zero, Offset(rank, chunk) + i)
  {
    var data := Slice(tensor, 0, globalLen);
    seq(chunk + overlap, i requires 0 <= i => At(data, zero, Offset(rank, chunk) + i))
  }

  /** Slicing and padding gives the shard. */
  lemma SliceAndPadIsShard<T>(tensor: seq<T>, zero: T, globalLen: nat, chunk: nat, overlap: nat, rank: nat)
    ensures SliceAndPad(tensor, zero, globalLen, Offset(rank, chunk), chunk + overlap)
         == Shard(tensor, zero, globalLen, chunk, overlap, rank)
  {
    SliceAndPadRun(tensor, zero, globalLen, chunk, overlap, rank, Offset(rank, chunk), chunk + overlap);
  }

  lemma SliceAndPadRun<T>(tensor: seq<T>, zero: T, globalLen: nat, chunk: nat, overlap: nat, rank: nat, start: nat,
                          localLen: nat)
    requires start == Offset(rank, chunk) && localLen == chunk + overlap
    ensures SliceAndPad(tensor, zero, globalLen, start, localLen)
         == Shard(tensor, zero, globalLen, chunk, overlap, rank)
  {
    var a, data := SliceAndPad(tensor, zero, globalLen, start, localLen), Slice(tensor, 0, globalLen);
    SliceAndPadCells(tensor, zero, globalLen, start, localLen, a, data);
    ShardIs(a, tensor, zero, globalLen, chunk, overlap, rank, start, data);
  }

  lemma SliceAndPadCells<T>(tensor: seq<T>, zero: T, globalLen: nat, start: nat, localLen: nat, a: seq<T>, data: seq<T>)
    requires a == SliceAndPad(tensor, zero, globalLen, start, localLen) && data == Slice(tensor, 0, globalLen)
    ensures |a| == localLen && forall i {:trigger a[i]} :: 0 <= i < localLen ==> a[i] == At(data, zero, start + i)
  {
    forall i | 0 <= i < localLen ensures a[i] == At(data, zero, start + i) {
      SliceAndPadAt(tensor, zero, globalLen, start, localLen, i);
    }
  }

  lemma ShardIs<T>(a: seq<T>, tensor: seq<T>, zero: T, globalLen: nat, chunk: nat, overlap: nat, rank: nat, start: nat,
                   data: seq<T>)
    requires |a| == chunk + overlap && data == Slice(tensor, 0, globalLen) && start == Offset(rank, chunk)
    requires forall i {:trigger a[i]} :: 0 <= i < |a| ==> a[i] == At(data, zero, start + i)
    ensures a == Shard(tensor, zero, globalLen, chunk, overlap, rank)
  {
  }

  lemma SliceAndPadAt<T>(tensor: seq<T>, zero: T, globalLen: nat, start: nat, localLen: nat, i: nat)
    requires i < localLen
    ensures SliceAndPad(tensor, zero, globalLen, start, localLen)[i] == At(Slice(tensor, 0, globalLen), zero, start + i)
  {
  }

  /** The columns a rank works on after `k` shifts. */
  function RankView<T>(tensor: seq<T>, zero: T, globalLen: nat, chunk: nat, overlap: nat, k: nat,
                       rank: nat): (r: seq<T>)
    ensures |r| == chunk
  {
    ShiftTimes(Shard(tensor, zero, globalLen, chunk, overlap, rank), zero, k)[..chunk]
  }

  lemma RankViewAt<T>(tensor: seq<T>, zero: T, globalLen: nat, chunk: nat, overlap: nat, k: nat, rank: nat, i: nat)
    requires k <= overlap && i < chunk
    ensures RankView(tensor, zero, globalLen, chunk, overlap, k, rank)[i]
         == At(Slice(tensor, 0, globalLen), zero, Offset(rank, chunk) + i + k)
  {
    ShiftedAt(Shard(tensor, zero, globalLen, chunk, overlap, rank), zero, k, i);
  }

  function RankViews<T>(tensor: seq<T>, zero: T, globalLen: nat, chunk: nat, overlap: nat, k: nat,
                        ranks: nat): (r: seq<seq<T>>)
    ensures |r| == ranks
  {
    seq(ranks, rank requires 0 <= rank => RankView(tensor, zero, globalLen, chunk, overlap, k, rank))
  }

  lemma RankViewsAt<T>(tensor: seq<T>, zero: T, globalLen: nat, chunk: nat, overlap: nat, k: nat, ranks: nat, r: nat,
                       i: nat)
    requires k <= overlap && r < ranks && i < chunk
    ensures |RankViews(tensor, zero, globalLen, chunk, overlap, k, ranks)[r]| == chunk
    ensures RankViews(tensor, zero, globalLen, chunk, overlap, k, ranks)[r][i]
         == At(Slice(tensor, 0, globalLen), zero, Offset(r, chunk) + i + k)
  {
    RankViewAt(tensor, zero, globalLen, chunk, overlap, k, r, i);
  }

  /** Pieces that show the shifted tensor from their own offsets show it when laid end to end. */
  lemma PiecesShowShift<T>(data: seq<T>, zero: T, chunk: nat, k: nat, views: seq<seq<T>>)
    requires forall r :: 0 <= r < |views| ==> |views[r]| == chunk
    requires forall r, i {:trigger views[r][i]} :: 0 <= r < |views| && 0 <= i < chunk ==>
               views[r][i] == At(data, zero, Offset(r, chunk) + i + k)
    ensures |Concat(views)| == Offset(|views|, chunk)
    ensures forall i :: 0 <= i < |Concat(views)| ==> Concat(views)[i] == At(data, zero, i + k)
  {
    var f := (i: nat) => At(data, zero, i + k);
    ConcatPieces(views, chunk, f);
  }

  lemma RankViewsConcat<T>(tensor: seq<T>, zero: T, globalLen: nat, chunk: nat, overlap: nat, k: nat, ranks: nat,
                           views: seq<seq<T>>)
    requires k <= overlap && views == RankViews(tensor, zero, globalLen, chunk, overlap, k, ranks)
    ensures |Concat(views)| == Offset(ranks, chunk)
    ensures forall i :: 0 <= i < |Concat(views)| ==> Concat(views)[i] == At(Slice(tensor, 0, globalLen), zero, i + k)
  {
    forall r, i | 0 <= r < |views| && 0 <= i < chunk
      ensures views[r][i] == At(Slice(tensor, 0, globalLen), zero, Offset(r, chunk) + i + k)
    {
      RankViewsAt(tensor, zero, globalLen, chunk, overlap, k, ranks, r, i);
    }
    PiecesShowShift(Slice(tensor, 0, globalLen), zero, chunk, k, views);
  }

  lemma GlobalViewIsShift<T>(tensor: seq<T>, zero: T, globalLen: nat, k: nat, all: seq<T>)
    requires globalLen <= |tensor| && globalLen <= |all|
    requires forall i :: 0 <= i < |all| ==> all[i] == At(Slice(tensor, 0, globalLen), zero, i + k)
    ensures all == ShiftTimes(tensor[..globalLen], zero, k) + Repeat(zero, |all| - globalLen)
  {
    var data := tensor[..globalLen];
    assert Slice(tensor, 0, globalLen) == data;
    var shifted := ShiftTimes(data, zero, k);
    forall i | 0 <= i < |all| ensures all[i] == (shifted + Repeat(zero, |all| - globalLen))[i] {
      if i < globalLen {
        ShiftedAt(data, zero, k, i);
      }
    }
  }

  /** For every length, shard count and shift count within the overlap: the ranks' views laid end to end are the
      unsharded tensor shifted as often, followed by zeros. Ranks starting past the end contribute zeros. */
  lemma ShardsReproduceGlobal<T>(tensor: seq<T>, zero: T, globalLen: nat, overlap: nat, k: nat, size: nat)
    requires size >= 1 && k <= overlap && globalLen <= |tensor|
    ensures globalLen <= size * Chunk(globalLen, size)
    ensures Concat(RankViews(tensor, zero, globalLen, Chunk(globalLen, size), overlap, k, size))
         == ShiftTimes(tensor[..globalLen], zero, k) + Repeat(zero, size * Chunk(globalLen, size) - globalLen)
  {
    var chunk := Chunk(globalLen, size);
    ChunkCovers(globalLen, size);
    OffsetIsProduct(size, chunk);
    var views := RankViews(tensor, zero, globalLen, chunk, overlap, k, size);
    RankViewsConcat(tensor, zero, globalLen, chunk, overlap, k, size, views);
    GlobalViewIsShift(tensor, zero, globalLen, k, Concat(views));
  }

  // ---------------------------------------------------------------- training samples

  /** One sample as the trainer receives it; `R` is a row of the target's last hidden states, `H` a row of the auxiliary
      ones. Only sharded samples carry position ids. */
  datatype Sample<+R, +H> = Sample(inputIds: seq<int>, lossMask: seq<int>, attentionMask: seq<int>, target: seq<R>,
                                   hidden: seq<H>, positionIds: Option<seq<int>>)

  /** The last position predicts nothing. */
  function ZeroLast(mask: seq<int>): (r: seq<int>)
    ensures |r| == |mask|
  {
    if mask == [] then [] else mask[|mask| - 1 := 0]
  }

  /** `torch.arange(lo, lo + n)`. */
  function Arange(lo: nat, n: nat): (r: seq<int>)
    ensures |r| == n && forall i {:trigger r[i]} :: 0 <= i < n ==> r[i] == lo + i
  {
    seq(n, i requires 0 <= i => lo + i)
  }

  /** `process_data`; writing the last loss cell of an empty sample raises `IndexError`. */
  function ProcessData<R, H>(inputIds: seq<int>, lossMask: seq<int>, target: seq<R>, hidden: seq<H>, maxLen: nat)
    : Option<Sample<R, H>>
  {
    var loss := Slice(lossMask, 0, maxLen);
    if loss == [] then None
    else Some(Sample(Slice(inputIds, 0, maxLen), ZeroLast(loss), Repeat(1, |loss|), Slice(target, 0, maxLen),
                     Slice(hidden, 0, maxLen), None))
  }

  /** Where a rank sits: its place in the sequence-parallel group, and in its ring group. */
  datatype Place = Place(rank: nat, size: nat, ringRank: nat, ringSize: nat) {
    /** `max(1, sp_size // sp_ring_size)`. */
    function Ulysses(): nat
      requires ringSize >= 1
    {
      Max(1, size / ringSize)
    }
  }

  /** `process_data_usp`. */
  function ProcessDataUsp<R, H>(inputIds: seq<int>, lossMask: seq<int>, target: seq<R>, zeroRow: R, hidden: seq<H>,
                                zeroHidden: H, maxLen: nat, tttLength: nat, at: Place): Sample<R, H>
    requires at.size >= 1 && at.ringSize >= 1
  {
    var globalLen := Min(maxLen, |inputIds|);
    var chunk := Chunk(globalLen, at.size);
    var start, localLen := Offset(at.rank, chunk), chunk + tttLength;
    var ids := SliceAndPad(inputIds, 0, globalLen, start, localLen);
    var validLen := |Slice(Slice(inputIds, 0, globalLen), start, Min(start + localLen, globalLen))|;
    var ringChunk := Offset(at.Ulysses(), chunk);
    Sample(ids,
           SliceAndPad(ZeroLast(Slice(lossMask, 0, globalLen)), 0, globalLen, start, localLen),
           Repeat(1, validLen) + Repeat(0, |ids| - validLen),
           SliceAndPad(target, zeroRow, globalLen, start, localLen),
           SliceAndPad(hidden, zeroHidden, globalLen, start, localLen),
           Some(Arange(Offset(at.ringRank, ringChunk), ringChunk)))
  }

  /** `TargetHead.preprocess`: ids and target rows are shifted once, the loss mask is not. */
  function Preprocess<R, H>(sample: Sample<R, H>, zeroRow: R): (r: Sample<R, H>)
    ensures |r.target| == |sample.target|
  {
    sample.(inputIds := ShiftLeft(sample.inputIds, 0), target := ShiftLeft(sample.target, zeroRow))
  }

  // ---------------------------------------------------------------- the TTT loop

  /** `p` maps a target row to its draft-vocabulary distribution, `kept` to whether its top token is in the draft
      vocabulary; `uniform` is the distribution used to pad. */
  datatype Head<!R, !P> = Head(p: R -> P, kept: R -> int, uniform: P)

  /** The sequence-parallel backend knows the size of its Ulysses group. */
  datatype Backend = SdpaLike | Usp(ulysses: nat)

  datatype StepView<+P, +H> = StepView(
    inputIds: seq<int>, positionMask: seq<int>, lossMask: seq<int>, attentionMask: seq<int>,
    targetP: seq<P>, hidden: seq<H>, positionIds: seq<int>)

  function TargetPPadded<R, P>(h: Head<R, P>, target: seq<R>, length: nat): (r: seq<P>)
    ensures |r| == |target| + length
    ensures forall i {:trigger r[i]} :: 0 <= i < |r| ==> r[i] == if i < |target| then h.p(target[i]) else h.uniform
  {
    seq(|target|, i requires 0 <= i < |target| => h.p(target[i])) + Repeat(h.uniform, length)
  }

  function PositionMask<R, P>(h: Head<R, P>, target: seq<R>, loss: seq<int>): (r: seq<int>)
    requires |target| == |loss|
    ensures |r| == |loss| && forall i {:trigger r[i]} :: 0 <= i < |r| ==> r[i] == h.kept(target[i]) * loss[i]
  {
    seq(|loss|, i requires 0 <= i < |loss| => h.kept(target[i]) * loss[i])
  }

  /** `_prepare_position_ids` for text: the sharded backend passes them through, else they count from 0 by default. */
  function PreparePositionIds(backend: Backend, positionIds: Option<seq<int>>, seqLength: nat): seq<int> {
    if positionIds.Some? then positionIds.value else if backend.Usp? then [] else Arange(0, seqLength)
  }

  /** What the loop carries from step to step. */
  datatype LoopState<+H> = LoopState(inputIds: seq<int>, positionMask: seq<int>, lossMask: seq<int>, hidden: seq<H>)

  /** `step_view`; `None` is the `ValueError` of the sequence-parallel backend. */
  function Step<P, H>(backend: Backend, idx: nat, length: nat, st: LoopState<H>, attentionMask: seq<int>,
                      positionIds: seq<int>, targetPPadded: seq<P>, seqLength: nat): (r: Option<StepView<P, H>>)
    ensures r.None? <==> backend.Usp? && seqLength <= length
  {
    match backend
    case SdpaLike =>
      Some(StepView(st.inputIds, st.positionMask, st.lossMask, attentionMask,
                    Slice(targetPPadded, idx, idx + seqLength),
                    st.hidden, positionIds))
    case Usp(ulysses) =>
      if seqLength <= length then None
      else
        var chunk := seqLength - length;
        Some(StepView(Slice(st.inputIds, 0, chunk), Slice(st.positionMask, 0, chunk), Slice(st.lossMask, 0, chunk),
                      Slice(attentionMask, 0, chunk), Slice(targetPPadded, idx, idx + chunk),
                      Slice(st.hidden, 0, chunk), Slice(positionIds, 0, Offset(ulysses, chunk))))
  }

  /** The state before step `k`, stated without the loop. */
  function StateAt<R, P, H>(h: Head<R, P>, sample: Sample<R, H>, k: nat, hidden: seq<H>): LoopState<H>
    requires |sample.target| == |sample.lossMask|
  {
    LoopState(ShiftTimes(sample.inputIds, 0, k), ShiftTimes(PositionMask(h, sample.target, sample.lossMask), 0, k),
              ShiftTimes(sample.lossMask, 0, k), hidden)
  }

  /** What step `k` of the loop works on, stated without the loop, given the hidden states that step starts from. */
  function StepOf<R, P, H>(backend: Backend, h: Head<R, P>, length: nat, sample: Sample<R, H>, k: nat, hidden: seq<H>)
    : Option<StepView<P, H>>
    requires |sample.target| == |sample.lossMask|
  {
    Step(backend, k, length, StateAt(h, sample, k, hidden), sample.attentionMask,
         PreparePositionIds(backend, sample.positionIds, |sample.target|), TargetPPadded(h, sample.target, length),
         |sample.target|)
  }

  /** The draft backbone: the hidden states it makes of the views so far. The last one is that of the current step, the
      others are behind the keys and values it has cached. */
  type Backbone<!P, !H> = seq<StepView<P, H>> -> seq<H>

  /** The hidden states a step starts from: the sample's, then the backbone's output of the step before. */
  function HiddenAt<P, H>(start: seq<H>, backbone: Backbone<P, H>, views: seq<StepView<P, H>>): seq<H> {
    if views == [] then start else backbone(views)
  }

  /** The views of the first `k` steps: step `j` is `StepOf` at `j` from the hidden states of the step before. */
  ghost predicate Unrolls<R, P, H>(backend: Backend, h: Head<R, P>, length: nat, sample: Sample<R, H>,
                                   backbone: Backbone<P, H>, views: seq<StepView<P, H>>)
    requires |sample.target| == |sample.lossMask|
  {
    views != [] ==>
      var front, k := views[..|views| - 1], |views| - 1;
      && Unrolls(backend, h, length, sample, backbone, front)
      && StepOf(backend, h, length, sample, k, HiddenAt(sample.hidden, backbone, front)) == Some(views[k])
  }

  lemma UnrollsOn<R, P, H>(backend: Backend, h: Head<R, P>, length: nat, sample: Sample<R, H>, backbone: Backbone<P, H>,
                           views: seq<StepView<P, H>>, view: StepView<P, H>)
    requires |sample.target| == |sample.lossMask| && Unrolls(backend, h, length, sample, backbone, views)
    requires StepOf(backend, h, length, sample, |views|, HiddenAt(sample.hidden, backbone, views)) == Some(view)
    ensures Unrolls(backend, h, length, sample, backbone, views + [view])
    ensures HiddenAt(sample.hidden, backbone, views + [view]) == backbone(views + [view])
  {
    assert (views + [view])[..|views|] == views;
  }

  /** Lines 152-270: each step works on a view, its output feeds the next one, and ids, position mask and loss mask are
      shifted after every step but the last. */
  method TttLoop<R, P, H>(backend: Backend, h: Head<R, P>, length: nat, sample: Sample<R, H>, backbone: Backbone<P, H>)
    returns (views: Option<seq<StepView<P, H>>>)
    requires |sample.target| == |sample.lossMask|
    ensures views.None? <==> backend.Usp? && length >= 1 && |sample.target| <= length
    ensures views.Some? ==> |views.value| == length && Unrolls(backend, h, length, sample, backbone, views.value)
  {
    var targetPPadded := TargetPPadded(h, sample.target, length);
    var positionIds := PreparePositionIds(backend, sample.positionIds, |sample.target|);
    var st := LoopState(sample.inputIds, PositionMask(h, sample.target, sample.lossMask), sample.lossMask,
                        sample.hidden);
    var out: seq<StepView<P, H>> := [];
    for idx := 0 to length
      invariant |out| == idx && (idx > 0 ==> !(backend.Usp? && |sample.target| <= length))
      invariant idx < length ==> st == StateAt(h, sample, idx, HiddenAt(sample.hidden, backbone, out))
      invariant Unrolls(backend, h, length, sample, backbone, out)
    {
      var view := Step(backend, idx, length, st, sample.attentionMask, positionIds, targetPPadded, |sample.target|);
      if view.None? {
        return None;
      }
      UnrollsOn(backend, h, length, sample, backbone, out, view.value);
      out := out + [view.value];
      var hidden := backbone(out);
      if idx != length - 1 {
        st := LoopState(ShiftLeft(st.inputIds, 0), ShiftLeft(st.positionMask, 0), ShiftLeft(st.lossMask, 0), hidden);
      }
    }
    return Some(out);
  }

  // ---------------------------------------------------------------- sharded steps against unsharded steps

  /** Raw data of one sample and the sharding it is trained under. */
  datatype Setup<!R, !P, !H> = Setup(
    inputIds: seq<int>, lossMask: seq<int>, target: seq<R>, zeroRow: R, hidden: seq<H>, zeroHidden: H,
    maxLen: nat, tttLength: nat, size: nat, ringSize: nat, head: Head<R, P>)
  {
    ghost predicate Ok() {
      && |inputIds| == |lossMask| == |target| == |hidden| && size >= 1 && ringSize >= 1
      // a zero target row is padded like a missing one
      && head.p(zeroRow) == head.uniform
    }

    function GlobalLen(): nat { Min(maxLen, |inputIds|) }

    function ChunkSize(): nat
      requires size >= 1
    {
      Chunk(GlobalLen(), size)
    }

    /** The global tensors the steps work on: ids and target rows after the shift of `preprocess`. */
    function Ids(): (r: seq<int>)
      ensures |r| == GlobalLen()
    {
      ShiftLeft(Slice(inputIds, 0, GlobalLen()), 0)
    }

    function Loss(): (r: seq<int>)
      requires |inputIds| == |lossMask|
      ensures |r| == GlobalLen()
    {
      ZeroLast(Slice(lossMask, 0, GlobalLen()))
    }

    function Rows(): (r: seq<R>)
      requires |inputIds| == |target|
      ensures |r| == GlobalLen()
    {
      ShiftLeft(Slice(target, 0, GlobalLen()), zeroRow)
    }

    function Positions(): (r: seq<int>)
      requires |inputIds| == |lossMask| == |target|
      ensures |r| == GlobalLen()
    {
      PositionMask(head, Rows(), Loss())
    }

    function Probs(): (r: seq<P>)
      requires |inputIds| == |target|
      ensures |r| == GlobalLen()
    {
      seq(GlobalLen(), i requires 0 <= i < GlobalLen() => head.p(Rows()[i]))
    }

    function Hidden(): (r: seq<H>)
      requires |inputIds| == |hidden|
      ensures |r| == GlobalLen()
    {
      Slice(hidden, 0, GlobalLen())
    }

    /** `size / ringSize` consecutive ranks form a Ulysses group and share a place in their ring groups. */
    function PlaceOf(rank: nat): Place
      requires ringSize >= 1
    {
      Place(rank, size, rank / Max(1, size / ringSize), ringSize)
    }

    function RankSample(rank: nat): (sample: Sample<R, H>)
      requires size >= 1 && ringSize >= 1
      ensures |sample.target| == |sample.lossMask| == |sample.inputIds| == ChunkSize() + tttLength
    {
      Preprocess(ProcessDataUsp(inputIds, lossMask, target, zeroRow, hidden, zeroHidden, maxLen, tttLength,
                                PlaceOf(rank)),
                 zeroRow)
    }

    /** View of rank `rank` in step `k`, as pieces of the global tensors, given the hidden states it starts from. */
    ghost function RankStep(k: nat, rank: nat, h: seq<H>): StepView<P, H>
      requires Ok()
    {
      var n, c := GlobalLen(), ChunkSize();
      StepView(RankView(Ids(), 0, n, c, tttLength, k, rank), RankView(Positions(), 0, n, c, tttLength, k, rank),
               RankView(Loss(), 0, n, c, tttLength, k, rank), RankView(Repeat(1, n), 0, n, c, tttLength, 0, rank),
               RankView(Probs(), head.uniform, n, c, tttLength, k, rank), Slice(h, 0, c), RingPositions(rank))
    }

    /** View of the unsharded run in step `k`. */
    ghost function GlobalStep(k: nat, h: seq<H>): StepView<P, H>
      requires Ok()
    {
      StepView(ShiftTimes(Ids(), 0, k), ShiftTimes(Positions(), 0, k), ShiftTimes(Loss(), 0, k), Repeat(1, GlobalLen()),
               ShiftTimes(Probs(), head.uniform, k), h, Arange(0, GlobalLen()))
    }

    /** The positions of all columns of the rank's Ulysses group. */
    function RingPositions(rank: nat): seq<int>
      requires size >= 1 && ringSize >= 1
    {
      var at, c := PlaceOf(rank), ChunkSize();
      Arange(Offset(at.ringRank, Offset(at.Ulysses(), c)), Offset(at.Ulysses(), c))
    }
  }

  lemma ShiftLeftIndex<T>(t: seq<T>, zero: T, j: nat)
    requires j + 1 < |t|
    ensures ShiftLeft(t, zero)[j] == t[j + 1]
  {
  }

  lemma ShiftLeftAt<T>(t: seq<T>, zero: T, j: nat)
    ensures At(ShiftLeft(t, zero), zero, j) == At(t, zero, j + 1)
  {
  }

  lemma ShiftBoth<T>(shard: seq<T>, whole: seq<T>, zero: T, j: nat, at: nat)
    requires j + 1 < |shard| && shard[j + 1] == At(whole, zero, at + 1)
    ensures ShiftLeft(shard, zero)[j] == At(ShiftLeft(whole, zero), zero, at)
  {
    ShiftLeftIndex(shard, zero, j);
    ShiftLeftAt(whole, zero, at);
  }

  /** After the shift of `preprocess` and `k` more, a column of a shard is the global column as many places on, as long
      as the overlap reaches that far. */
  lemma PreparedAt<T>(tensor: seq<T>, zero: T, n: nat, c: nat, o: nat, rank: nat, j: nat)
    requires j + 1 < c + o
    ensures ShiftLeft(Shard(tensor, zero, n, c, o, rank), zero)[j]
         == At(ShiftLeft(Slice(tensor, 0, n), zero), zero, Offset(rank, c) + j)
  {
    ShiftBoth(Shard(tensor, zero, n, c, o, rank), Slice(tensor, 0, n), zero, j, Offset(rank, c) + j);
  }

  /** A rank's prepared tensor after `k` shifts, cut to its chunk, is its view of the prepared global tensor. */
  lemma ViewOf<T>(local: seq<T>, whole: seq<T>, zero: T, n: nat, c: nat, o: nat, k: nat, rank: nat)
    requires |local| == c + o && k < o && |whole| == n
    requires forall j {:trigger local[j]} :: 0 <= j && j + 1 < c + o ==>
               local[j] == At(whole, zero, Offset(rank, c) + j)
    ensures ShiftTimes(local, zero, k)[..c] == RankView(whole, zero, n, c, o, k, rank)
  {
    var a, b := ShiftTimes(local, zero, k)[..c], RankView(whole, zero, n, c, o, k, rank);
    assert Slice(whole, 0, n) == whole;
    forall i | 0 <= i < c ensures a[i] == b[i] {
      ShiftedAt(local, zero, k, i);
      RankViewAt(whole, zero, n, c, o, k, rank, i);
    }
  }

  lemma ShardView<T>(tensor: seq<T>, zero: T, n: nat, c: nat, o: nat, k: nat, rank: nat)
    requires n <= |tensor| && k < o
    ensures ShiftTimes(ShiftLeft(Shard(tensor, zero, n, c, o, rank), zero), zero, k)[..c]
         == RankView(ShiftLeft(Slice(tensor, 0, n), zero), zero, n, c, o, k, rank)
  {
    var local, whole := ShiftLeft(Shard(tensor, zero, n, c, o, rank), zero), ShiftLeft(Slice(tensor, 0, n), zero);
    forall j | 0 <= j && j + 1 < c + o ensures local[j] == At(whole, zero, Offset(rank, c) + j) {
      PreparedAt(tensor, zero, n, c, o, rank, j);
    }
    ViewOf(local, whole, zero, n, c, o, k, rank);
  }

  lemma RankIds<R, P, H>(s: Setup<R, P, H>, k: nat, rank: nat)
    requires s.Ok() && k < s.tttLength
    ensures ShiftTimes(s.RankSample(rank).inputIds, 0, k)[..s.ChunkSize()]
         == RankView(s.Ids(), 0, s.GlobalLen(), s.ChunkSize(), s.tttLength, k, rank)
  {
    RankFields(s, rank);
    ShardView(s.inputIds, 0, s.GlobalLen(), s.ChunkSize(), s.tttLength, k, rank);
  }

  lemma RankLoss<R, P, H>(s: Setup<R, P, H>, k: nat, rank: nat)
    requires s.Ok() && k < s.tttLength
    ensures ShiftTimes(s.RankSample(rank).lossMask, 0, k)[..s.ChunkSize()]
         == RankView(s.Loss(), 0, s.GlobalLen(), s.ChunkSize(), s.tttLength, k, rank)
  {
    RankFields(s, rank);
  }

  /** The tensors of a rank's sample, as shards. */
  lemma RankFields<R, P, H>(s: Setup<R, P, H>, rank: nat)
    requires s.Ok()
    ensures var n, c, o, sample := s.GlobalLen(), s.ChunkSize(), s.tttLength, s.RankSample(rank);
            && sample.inputIds == ShiftLeft(Shard(s.inputIds, 0, n, c, o, rank), 0)
            && sample.target == ShiftLeft(Shard(s.target, s.zeroRow, n, c, o, rank), s.zeroRow)
            && sample.lossMask == Shard(s.Loss(), 0, n, c, o, rank)
            && sample.hidden == Shard(s.hidden, s.zeroHidden, n, c, o, rank)
  {
    var n, c, o := s.GlobalLen(), s.ChunkSize(), s.tttLength;
    SliceAndPadIsShard(s.inputIds, 0, n, c, o, rank);
    SliceAndPadIsShard(s.target, s.zeroRow, n, c, o, rank);
    SliceAndPadIsShard(s.Loss(), 0, n, c, o, rank);
    SliceAndPadIsShard(s.hidden, s.zeroHidden, n, c, o, rank);
  }

  /** A shard of a tensor that needs no cropping. */
  lemma WholeShardAt<T>(tensor: seq<T>, zero: T, n: nat, c: nat, o: nat, rank: nat, j: nat)
    requires |tensor| == n && j < c + o
    ensures Shard(tensor, zero, n, c, o, rank)[j] == At(tensor, zero, Offset(rank, c) + j)
  {
    SlicePrefix(tensor, n);
  }

  lemma RankPositions<R, P, H>(s: Setup<R, P, H>, k: nat, rank: nat)
    requires s.Ok() && k < s.tttLength
    ensures ShiftTimes(PositionMask(s.head, s.RankSample(rank).target, s.RankSample(rank).lossMask), 0,
                       k)[..s.ChunkSize()]
         == RankView(s.Positions(), 0, s.GlobalLen(), s.ChunkSize(), s.tttLength, k, rank)
  {
    RankFields(s, rank);
    ShardPositions(s.head, s.target, s.zeroRow, s.Loss(), s.GlobalLen(), s.ChunkSize(), s.tttLength, k, rank);
  }

  /** A rank's position mask, in view, is its piece of the global position mask. */
  lemma ShardPositions<R, P>(h: Head<R, P>, target: seq<R>, zeroRow: R, loss: seq<int>, n: nat, c: nat, o: nat, k: nat,
                             rank: nat)
    requires n == |loss| <= |target| && k < o
    ensures var rows, mask := ShiftLeft(Shard(target, zeroRow, n, c, o, rank), zeroRow), Shard(loss, 0, n, c, o, rank);
            ShiftTimes(PositionMask(h, rows, mask), 0, k)[..c]
            == RankView(PositionMask(h, ShiftLeft(Slice(target, 0, n), zeroRow), loss), 0, n, c, o, k, rank)
  {
    var rows, mask := ShiftLeft(Shard(target, zeroRow, n, c, o, rank), zeroRow), Shard(loss, 0, n, c, o, rank);
    var all := ShiftLeft(Slice(target, 0, n), zeroRow);
    var local, whole := PositionMask(h, rows, mask), PositionMask(h, all, loss);
    forall j | 0 <= j && j + 1 < c + o ensures local[j] == At(whole, 0, Offset(rank, c) + j) {
      PreparedAt(target, zeroRow, n, c, o, rank, j);
      WholeShardAt(loss, 0, n, c, o, rank, j);
      MaskAt(h, all, loss, zeroRow, Offset(rank, c) + j);
    }
    ViewOf(local, whole, 0, n, c, o, k, rank);
  }

  lemma MaskAt<R, P>(h: Head<R, P>, rows: seq<R>, loss: seq<int>, zeroRow: R, j: nat)
    requires |rows| == |loss|
    ensures At(PositionMask(h, rows, loss), 0, j) == h.kept(At(rows, zeroRow, j)) * At(loss, 0, j)
  {
  }

  lemma RankAttention<R, P, H>(s: Setup<R, P, H>, rank: nat)
    requires s.Ok()
    ensures s.RankSample(rank).attentionMask
         == Shard(Repeat(1, s.GlobalLen()), 0, s.GlobalLen(), s.ChunkSize(), s.tttLength, rank)
  {
    OnesShard(s.inputIds, s.GlobalLen(), s.ChunkSize(), s.tttLength, rank, Offset(rank, s.ChunkSize()),
              s.ChunkSize() + s.tttLength);
  }

  /** Ones up to the valid length and zeros beyond are the shard of a row of ones. */
  lemma OnesShard(ids: seq<int>, n: nat, c: nat, o: nat, rank: nat, start: nat, localLen: nat)
    requires n <= |ids| && start == Offset(rank, c) && localLen == c + o
    ensures var validLen := |Slice(Slice(ids, 0, n), start, Min(start + localLen, n))|;
            validLen <= localLen
              && Shard(Repeat(1, n), 0, n, c, o, rank) == Repeat(1, validLen) + Repeat(0, localLen - validLen)
  {
    var ones := Slice(Repeat(1, n), 0, n);
    assert |ones| == n;
    var a := Shard(Repeat(1, n), 0, n, c, o, rank);
    forall i | 0 <= i < localLen ensures a[i] == if start + i < n then 1 else 0 {
      assert a[i] == At(ones, 0, start + i);
    }
  }

  lemma RankTargetP<R, P, H>(s: Setup<R, P, H>, k: nat, rank: nat)
    requires s.Ok() && k < s.tttLength
    ensures Slice(TargetPPadded(s.head, s.RankSample(rank).target, s.tttLength), k, k + s.ChunkSize())
         == RankView(s.Probs(), s.head.uniform, s.GlobalLen(), s.ChunkSize(), s.tttLength, k, rank)
  {
    RankFields(s, rank);
    ShardTargets(s, k, rank,
                 ShiftLeft(Shard(s.target, s.zeroRow, s.GlobalLen(), s.ChunkSize(), s.tttLength, rank), s.zeroRow));
  }

  lemma ShardTargets<R, P, H>(s: Setup<R, P, H>, k: nat, rank: nat, local: seq<R>)
    requires s.Ok() && k < s.tttLength
    requires local == ShiftLeft(Shard(s.target, s.zeroRow, s.GlobalLen(), s.ChunkSize(), s.tttLength, rank), s.zeroRow)
    ensures Slice(TargetPPadded(s.head, local, s.tttLength), k, k + s.ChunkSize())
         == RankView(s.Probs(), s.head.uniform, s.GlobalLen(), s.ChunkSize(), s.tttLength, k, rank)
  {
    var n, c, o := s.GlobalLen(), s.ChunkSize(), s.tttLength;
    forall j | 0 <= j && j + 1 < c + o
      ensures s.head.p(local[j]) == At(s.Probs(), s.head.uniform, Offset(rank, c) + j) {
      PreparedAt(s.target, s.zeroRow, n, c, o, rank, j);
      ProbAt(s, Offset(rank, c) + j);
    }
    TargetView(s.head, local, s.Probs(), n, c, o, k, rank);
  }

  /** The distributions a step reads from its padded target are the rank's view of the global ones. */
  lemma TargetView<R, P>(h: Head<R, P>, local: seq<R>, probs: seq<P>, n: nat, c: nat, o: nat, k: nat, rank: nat)
    requires |local| == c + o && k < o && |probs| == n
    requires forall j {:trigger local[j]} :: 0 <= j && j + 1 < c + o ==>
               h.p(local[j]) == At(probs, h.uniform, Offset(rank, c) + j)
    ensures Slice(TargetPPadded(h, local, o), k, k + c) == RankView(probs, h.uniform, n, c, o, k, rank)
  {
    var padded := TargetPPadded(h, local, o);
    var a, b := Slice(padded, k, k + c), RankView(probs, h.uniform, n, c, o, k, rank);
    assert Slice(probs, 0, n) == probs;
    forall i | 0 <= i < c ensures a[i] == b[i] {
      assert a[i] == padded[k + i] == h.p(local[k + i]);
      RankViewAt(probs, h.uniform, n, c, o, k, rank, i);
    }
  }

  lemma ProbAt<R, P, H>(s: Setup<R, P, H>, j: nat)
    requires s.Ok()
    ensures At(s.Probs(), s.head.uniform, j) == s.head.p(At(s.Rows(), s.zeroRow, j))
  {
  }

  lemma RankRing<R, P, H>(s: Setup<R, P, H>, rank: nat)
    requires s.Ok()
    ensures s.RankSample(rank).positionIds == Some(s.RingPositions(rank))
  {
  }

  /** Every step of every rank's loop works on pieces of the global tensors. */
  lemma RankStepIs<R, P, H>(s: Setup<R, P, H>, k: nat, rank: nat, hidden: seq<H>)
    requires s.Ok() && k < s.tttLength && s.GlobalLen() >= 1
    ensures StepOf(Usp(s.PlaceOf(rank).Ulysses()), s.head, s.tttLength, s.RankSample(rank), k, hidden)
         == Some(s.RankStep(k, rank, hidden))
  {
    ChunkAtLeastOne(s.GlobalLen(), s.size);
    RankIds(s, k, rank);
    RankLoss(s, k, rank);
    RankPositions(s, k, rank);
    RankAttention(s, rank);
    RankTargetP(s, k, rank);
    RankRing(s, rank);
    var sample, c := s.RankSample(rank), s.ChunkSize();
    SlicePrefix(ShiftTimes(sample.inputIds, 0, k), c);
    SlicePrefix(ShiftTimes(sample.lossMask, 0, k), c);
    SlicePrefix(ShiftTimes(PositionMask(s.head, sample.target, sample.lossMask), 0, k), c);
    SlicePrefix(sample.attentionMask, c);
    SlicePrefix(s.RingPositions(rank), |s.RingPositions(rank)|);
  }

  lemma ChunkAtLeastOne(n: nat, size: nat)
    requires n >= 1 && size >= 1
    ensures Chunk(n, size) >= 1
  {
    ChunkCovers(n, size);
    MulMonotone(Chunk(n, size), 0, size);
  }

  lemma SlicePrefix<T>(t: seq<T>, c: nat)
    requires c <= |t|
    ensures Slice(t, 0, c) == t[..c] && (c == |t| ==> Slice(t, 0, c) == t)
  {
  }

  /** The unsharded loop's step, as shifts of the global tensors. */
  lemma GlobalStepIs<R, P, H>(s: Setup<R, P, H>, k: nat, hidden: seq<H>)
    requires s.Ok() && k < s.tttLength && s.GlobalLen() >= 1
    ensures var sample := ProcessData(s.inputIds, s.lossMask, s.target, s.hidden, s.maxLen);
            && sample.Some? && sample.value.hidden == s.Hidden()
            && |sample.value.target| == |sample.value.lossMask|
            && StepOf(SdpaLike, s.head, s.tttLength, Preprocess(sample.value, s.zeroRow), k, hidden)
               == Some(s.GlobalStep(k, hidden))
  {
    var n := s.GlobalLen();
    var raw := ProcessData(s.inputIds, s.lossMask, s.target, s.hidden, s.maxLen).value;
    assert Slice(s.lossMask, 0, s.maxLen) == Slice(s.lossMask, 0, n);
    assert Slice(s.inputIds, 0, s.maxLen) == Slice(s.inputIds, 0, n);
    assert Slice(s.target, 0, s.maxLen) == Slice(s.target, 0, n);
    assert raw.hidden == s.Hidden();
    GlobalTargetP(s, k);
  }

  lemma GlobalTargetP<R, P, H>(s: Setup<R, P, H>, k: nat)
    requires s.Ok() && k < s.tttLength
    ensures var n := s.GlobalLen();
            Slice(TargetPPadded(s.head, s.Rows(), s.tttLength), k, k + n) == ShiftTimes(s.Probs(), s.head.uniform, k)
  {
    var n := s.GlobalLen();
    var padded, shifted := TargetPPadded(s.head, s.Rows(), s.tttLength), ShiftTimes(s.Probs(), s.head.uniform, k);
    var cut := Slice(padded, k, k + n);
    forall i | 0 <= i < n ensures cut[i] == shifted[i] {
      assert cut[i] == padded[k + i];
      ShiftedAt(s.Probs(), s.head.uniform, k, i);
    }
  }

  /** Views laid end to end, field by field; position ids are shared within a Ulysses group and treated apart, and so
      are hidden states, of which only the columns of the text matter. */
  datatype Columns<+P> = Columns(
    inputIds: seq<int>, positionMask: seq<int>, lossMask: seq<int>, attentionMask: seq<int>,
    targetP: seq<P>)

  function JoinViews<P, H>(views: seq<StepView<P, H>>): Columns<P> {
    Columns(Concat(Field(views, (v: StepView<P, H>) => v.inputIds)),
            Concat(Field(views, (v: StepView<P, H>) => v.positionMask)),
            Concat(Field(views, (v: StepView<P, H>) => v.lossMask)),
            Concat(Field(views, (v: StepView<P, H>) => v.attentionMask)),
            Concat(Field(views, (v: StepView<P, H>) => v.targetP)))
  }

  function JoinHidden<P, H>(views: seq<StepView<P, H>>): seq<H> {
    Concat(Field(views, (v: StepView<P, H>) => v.hidden))
  }

  function Field<V, T>(views: seq<V>, f: V -> T): (r: seq<T>)
    ensures |r| == |views| && forall i {:trigger r[i]} :: 0 <= i < |r| ==> r[i] == f(views[i])
  {
    seq(|views|, i requires 0 <= i < |views| => f(views[i]))
  }

  /** `view` followed by `pad` columns that carry no loss. */
  function PadView<P, H>(view: StepView<P, H>, pad: nat, uniform: P): Columns<P> {
    Columns(view.inputIds + Repeat(0, pad), view.positionMask + Repeat(0, pad), view.lossMask + Repeat(0, pad),
            view.attentionMask + Repeat(0, pad), view.targetP + Repeat(uniform, pad))
  }

  ghost predicate Begins<T>(a: seq<T>, b: seq<T>) {
    |a| <= |b| && b[..|a|] == a
  }

  /** A view of `n` columns. */
  ghost predicate HasColumns<P, H>(view: StepView<P, H>, n: nat) {
    && |view.inputIds| == |view.positionMask| == |view.lossMask| == |view.attentionMask| == n
    && |view.targetP| == |view.hidden| == n
  }

  /** The ranks' views of a step, laid end to end, are the unsharded view followed by padding that carries no loss; the
      hidden states agree on the columns of the text. */
  ghost predicate ViewsMatch<P, H>(views: seq<StepView<P, H>>, view: StepView<P, H>, pad: nat, uniform: P) {
    JoinViews(views) == PadView(view, pad, uniform) && Begins(view.hidden, JoinHidden(views))
  }

  /** The first chunk of each rank's hidden states. */
  function Chunks<H>(hiddens: seq<seq<H>>, c: nat): (r: seq<seq<H>>)
    ensures |r| == |hiddens|
  {
    seq(|hiddens|, i requires 0 <= i < |hiddens| => Slice(hiddens[i], 0, c))
  }

  ghost function RankSteps<R, P, H>(s: Setup<R, P, H>, k: nat, hiddens: seq<seq<H>>): (r: seq<StepView<P, H>>)
    requires s.Ok()
    ensures |r| == |hiddens| && forall rank :: 0 <= rank < |r| ==> r[rank] == s.RankStep(k, rank, hiddens[rank])
  {
    seq(|hiddens|, rank requires 0 <= rank < |hiddens| => s.RankStep(k, rank, hiddens[rank]))
  }

  lemma JoinedRankSteps<R, P, H>(s: Setup<R, P, H>, k: nat, hiddens: seq<seq<H>>, ranks: nat)
    requires s.Ok() && ranks == |hiddens|
    ensures var n, c, o := s.GlobalLen(), s.ChunkSize(), s.tttLength;
            JoinViews(RankSteps(s, k, hiddens)) ==
            Columns(Concat(RankViews(s.Ids(), 0, n, c, o, k, ranks)),
                    Concat(RankViews(s.Positions(), 0, n, c, o, k, ranks)),
                    Concat(RankViews(s.Loss(), 0, n, c, o, k, ranks)),
                    Concat(RankViews(Repeat(1, n), 0, n, c, o, 0, ranks)),
                    Concat(RankViews(s.Probs(), s.head.uniform, n, c, o, k, ranks)))
    ensures JoinHidden(RankSteps(s, k, hiddens)) == Concat(Chunks(hiddens, s.ChunkSize()))
  {
    var n, c, o := s.GlobalLen(), s.ChunkSize(), s.tttLength;
    var views := RankSteps(s, k, hiddens);
    assert Field(views, (v: StepView<P, H>) => v.inputIds) == RankViews(s.Ids(), 0, n, c, o, k, ranks);
    assert Field(views, (v: StepView<P, H>) => v.positionMask) == RankViews(s.Positions(), 0, n, c, o, k, ranks);
    assert Field(views, (v: StepView<P, H>) => v.lossMask) == RankViews(s.Loss(), 0, n, c, o, k, ranks);
    assert Field(views, (v: StepView<P, H>) => v.attentionMask) == RankViews(Repeat(1, n), 0, n, c, o, 0, ranks);
    assert Field(views, (v: StepView<P, H>) => v.targetP) == RankViews(s.Probs(), s.head.uniform, n, c, o, k, ranks);
    assert Field(views, (v: StepView<P, H>) => v.hidden) == Chunks(hiddens, c);
  }

  /** The columns the shards have beyond the text. */
  function Pad<R, P, H>(s: Setup<R, P, H>): nat
    requires s.size >= 1
  {
    ChunkCovers(s.GlobalLen(), s.size);
    s.size * s.ChunkSize() - s.GlobalLen()
  }

  /** The hidden states the ranks start a step from show those of the unsharded run in the columns of the text. */
  ghost predicate HiddenMatch<R, P, H>(s: Setup<R, P, H>, hiddens: seq<seq<H>>, hidden: seq<H>)
    requires s.size >= 1
  {
    && |hiddens| == s.size && (forall rank :: 0 <= rank < s.size ==> |hiddens[rank]| >= s.ChunkSize())
    && |hidden| == s.GlobalLen() && Begins(hidden, Concat(Chunks(hiddens, s.ChunkSize())))
  }

  /** In every TTT step the ranks' views of ids, masks, target distributions and hidden states match the unsharded view,
      provided the hidden states the step starts from do. */
  lemma ShardedStepsMatch<R, P, H>(s: Setup<R, P, H>, k: nat, hiddens: seq<seq<H>>, hidden: seq<H>)
    requires s.Ok() && k < s.tttLength && s.GlobalLen() >= 1 && HiddenMatch(s, hiddens, hidden)
    ensures forall rank: nat :: rank < s.size ==>
              StepOf(Usp(s.PlaceOf(rank).Ulysses()), s.head, s.tttLength, s.RankSample(rank), k, hiddens[rank])
              == Some(s.RankStep(k, rank, hiddens[rank]))
    ensures var sample := ProcessData(s.inputIds, s.lossMask, s.target, s.hidden, s.maxLen);
            && sample.Some? && |sample.value.target| == |sample.value.lossMask|
            && var step := StepOf(SdpaLike, s.head, s.tttLength, Preprocess(sample.value, s.zeroRow), k, hidden);
               && step.Some?
               && step == Some(s.GlobalStep(k, hidden))
               && ViewsMatch(RankSteps(s, k, hiddens), step.value, Pad(s), s.head.uniform)
  {
    forall rank: nat | rank < s.size
      ensures StepOf(Usp(s.PlaceOf(rank).Ulysses()), s.head, s.tttLength, s.RankSample(rank), k, hiddens[rank])
              == Some(s.RankStep(k, rank, hiddens[rank]))
    {
      RankStepIs(s, k, rank, hiddens[rank]);
    }
    GlobalStepIs(s, k, hidden);
    JoinedIsPadded(s, k, hiddens, hidden);
  }

  lemma JoinedIsPadded<R, P, H>(s: Setup<R, P, H>, k: nat, hiddens: seq<seq<H>>, hidden: seq<H>)
    requires s.Ok() && k <= s.tttLength && HiddenMatch(s, hiddens, hidden)
    ensures ViewsMatch(RankSteps(s, k, hiddens), s.GlobalStep(k, hidden), Pad(s), s.head.uniform)
  {
    JoinedRankSteps(s, k, hiddens, s.size);
    ShardsReproduceWhole(s.Ids(), 0, s.tttLength, k, s.size);
    ShardsReproduceWhole(s.Positions(), 0, s.tttLength, k, s.size);
    ShardsReproduceWhole(s.Loss(), 0, s.tttLength, k, s.size);
    ShardsReproduceWhole(Repeat(1, s.GlobalLen()), 0, s.tttLength, 0, s.size);
    ShardsReproduceWhole(s.Probs(), s.head.uniform, s.tttLength, k, s.size);
  }

  lemma ShardsReproduceWhole<T>(tensor: seq<T>, zero: T, overlap: nat, k: nat, size: nat)
    requires size >= 1 && k <= overlap
    ensures |tensor| <= size * Chunk(|tensor|, size)
    ensures Concat(RankViews(tensor, zero, |tensor|, Chunk(|tensor|, size), overlap, k, size))
         == ShiftTimes(tensor, zero, k) + Repeat(zero, size * Chunk(|tensor|, size) - |tensor|)
  {
    ShardsReproduceGlobal(tensor, zero, |tensor|, overlap, k, size);
    assert tensor[..|tensor|] == tensor;
  }

  /** The first step starts from matching hidden states. */
  lemma FirstHiddenMatches<R, P, H>(s: Setup<R, P, H>)
    requires s.Ok()
    ensures var hiddens := seq(s.size, rank requires 0 <= rank => s.RankSample(rank).hidden);
            && Concat(Chunks(hiddens, s.ChunkSize())) == s.Hidden() + Repeat(s.zeroHidden, Pad(s))
            && HiddenMatch(s, hiddens, s.Hidden())
  {
    var n, c, o := s.GlobalLen(), s.ChunkSize(), s.tttLength;
    var hiddens := seq(s.size, rank requires 0 <= rank => s.RankSample(rank).hidden);
    var views := RankViews(s.hidden, s.zeroHidden, n, c, o, 0, s.size);
    forall rank | 0 <= rank < s.size ensures |hiddens[rank]| >= c && Chunks(hiddens, c)[rank] == views[rank] {
      FirstChunkIs(s, rank);
    }
    assert Chunks(hiddens, c) == views;
    ShardsReproduceGlobal(s.hidden, s.zeroHidden, n, o, 0, s.size);
    assert s.Hidden() == s.hidden[..n];
  }

  lemma FirstChunkIs<R, P, H>(s: Setup<R, P, H>, rank: nat)
    requires s.Ok()
    ensures |s.RankSample(rank).hidden| >= s.ChunkSize()
    ensures Slice(s.RankSample(rank).hidden, 0, s.ChunkSize())
         == RankView(s.hidden, s.zeroHidden, s.GlobalLen(), s.ChunkSize(), s.tttLength, 0, rank)
  {
    RankFields(s, rank);
    SlicePrefix(s.RankSample(rank).hidden, s.ChunkSize());
  }

  /** If the ring groups divide the ranks, their position ids laid end to end count the columns of all ranks from 0, as
      the unsharded ids do. */
  lemma RingPositionsCount<R, P, H>(s: Setup<R, P, H>, u: nat)
    requires s.Ok() && s.size == u * s.ringSize && u >= 1
    ensures var groups := seq(s.ringSize, g requires 0 <= g => s.RingPositions(Offset(g, u)));
            Concat(groups) == Arange(0, s.size * s.ChunkSize())
  {
    var c := s.ChunkSize();
    var rc := Offset(u, c);
    var groups := seq(s.ringSize, g requires 0 <= g => s.RingPositions(Offset(g, u)));
    forall g | 0 <= g < s.ringSize ensures groups[g] == Arange(Offset(g, rc), rc) {
      RingGroup(s, u, g, Offset(g, u), 0);
    }
    RingTotal(s.ringSize, u, c, rc, s.size);
    CountOn(groups, rc);
  }

  lemma {:induction false} CountOn(groups: seq<seq<int>>, n: nat)
    requires forall g {:trigger groups[g]} :: 0 <= g < |groups| ==> groups[g] == Arange(Offset(g, n), n)
    ensures Concat(groups) == Arange(0, Offset(|groups|, n))
  {
    if groups != [] {
      CountOn(groups[..|groups| - 1], n);
      var a := Offset(|groups| - 1, n);
      assert Arange(0, a) + Arange(a, n) == Arange(0, a + n);
    }
  }

  /** All ranks of Ulysses group `g` share the positions of the group's columns. */
  lemma RingGroup<R, P, H>(s: Setup<R, P, H>, u: nat, g: nat, rank: nat, j: nat)
    requires s.Ok() && s.size == u * s.ringSize && j < u && rank == Offset(g, u) + j
    ensures s.RingPositions(rank) == Arange(Offset(g, Offset(u, s.ChunkSize())), Offset(u, s.ChunkSize()))
  {
    OffsetIsProduct(g, u);
    BlockOf(s.size, u, 0, s.ringSize);
    BlockOf(rank, g, j, u);
    assert s.PlaceOf(rank).Ulysses() == u && s.PlaceOf(rank).ringRank == g;
  }

  lemma RingTotal(ring: nat, u: nat, c: nat, rc: nat, size: nat)
    requires rc == Offset(u, c) && size == u * ring
    ensures Offset(ring, rc) == size * c
  {
    OffsetIsProduct(u, c);
    OffsetIsProduct(ring, rc);
    SwapFactors(ring, u, c);
  }

  lemma SwapFactors(a: nat, b: nat, c: nat)
    ensures a * (b * c) == (b * a) * c
  {
  }

  /** The padding distribution is what the softmax of a zero row gives: `1 / n` everywhere. */
  lemma {:induction false} ZeroRowIsUniform(f: L.Fns, n: nat)
    requires f.Lawful()
    ensures L.SumExp(f, Repeat(0.0, n), 0.0) == n as real
    ensures forall j: nat :: j < n ==> L.Softmax(f, Repeat(0.0, n), j) == 1.0 / (n as real)
  {
    ExpOfZero(f);
    if n > 0 {
      ZeroRowIsUniform(f, n - 1);
      assert Front(Repeat(0.0, n)) == Repeat(0.0, n - 1);
    }
  }

  lemma ExpOfZero(f: L.Fns)
    requires f.Lawful()
    ensures f.exp(0.0) == 1.0
  {
    assert f.Sum(0.0, 0.0);
    var z := 0.0 + 0.0;
    assert z == 0.0;
    assert f.exp(0.0) > 0.0;
    FixedSquare(f.exp(0.0), f.exp(z));
  }

  lemma FixedSquare(e: real, square: real)
    requires e > 0.0 && square == e * e && square == e
    ensures e == 1.0
  {
    assert e * (e - 1.0) == 0.0;
  }
}
