/** Layers sharded over the vocabulary, for sizes that need not divide: `VocabParallelEmbedding` and
    `ParallelLMHead`. */
module VocabParallel {
  import opened Prelude
  import opened Pieces
  import opened RealVectors
  import opened TensorParallel

  // ---------------------------------------------------------------- padding

  /** Both load hooks: append zero rows until the number of ranks divides. */
  function Padded<T>(value: seq<T>, zero: T, tp: nat): seq<T>
    requires tp >= 1
  {
    if |value| % tp != 0 then value + Repeat(zero, tp - |value| % tp) else value
  }

  /** Padding reaches exactly the size the constructor computed with `math.ceil`. */
  lemma PaddedLength<T>(value: seq<T>, zero: T, tp: nat)
    requires tp >= 1
    ensures |Padded(value, zero, tp)| == Offset(tp, Chunk(|value|, tp))
    ensures forall i :: 0 <= i < |value| ==> Padded(value, zero, tp)[i] == value[i]
  {
    var n := |value|;
    OffsetIsProduct(tp, Chunk(n, tp));
    PaddedTotal(n, tp);
  }

  lemma PaddedTotal(n: nat, tp: nat)
    requires tp >= 1
    ensures tp * Chunk(n, tp) == if n % tp != 0 then n + (tp - n % tp) else n
  {
    assert n == (n / tp) * tp + n % tp;
    if n % tp == 0 {
      ChunkOfMultiple(tp, n / tp, n);
    } else {
      BlockOf(n + tp - 1, n / tp + 1, n % tp - 1, tp);
      assert (n / tp + 1) * tp == (n / tp) * tp + tp;
    }
  }

  lemma ChunkPositive(n: nat, tp: nat)
    requires tp >= 1 && n >= 1
    ensures Chunk(n, tp) >= 1
  {
    ChunkCovers(n, tp);
    MulMonotone(Chunk(n, tp), 0, tp);
  }

  // ---------------------------------------------------------------- embedding

  /** Ids owned by a rank. */
  predicate Owned(n: nat, tp: nat, rank: nat, id: int)
    requires tp >= 1
  {
    var per := Chunk(n, tp);
    rank * per <= id < Min(rank * per + per, n)
  }

  /** Every valid id has exactly one owner, and no other id has any. */
  lemma ExactlyOneOwner(n: nat, tp: nat, id: int)
    requires tp >= 1 && n >= 1
    ensures 0 <= id < n ==>
              var owner := id / Chunk(n, tp);
              0 <= owner < tp && forall rank: nat :: Owned(n, tp, rank, id) <==> rank == owner
    ensures !(0 <= id < n) ==> forall rank: nat :: !Owned(n, tp, rank, id)
  {
    if 0 <= id < n {
      OwnerInRange(n, tp, Chunk(n, tp), id);
    }
    forall rank: nat ensures Owned(n, tp, rank, id) <==> 0 <= id < n && rank == id / Chunk(n, tp) {
      ChunkPositive(n, tp);
      OwnerIs(n, Chunk(n, tp), rank, id);
    }
  }

  lemma OwnerInRange(n: nat, tp: nat, per: nat, id: int)
    requires tp >= 1 && per == Chunk(n, tp) && 0 <= id < n
    ensures per >= 1 && 0 <= id / per < tp
  {
    ChunkPositive(n, tp);
    ChunkCovers(n, tp);
    BlockBound(id, tp, per);
  }

  lemma OwnerIs(n: nat, per: nat, rank: nat, id: int)
    requires per >= 1
    ensures rank * per <= id < Min(rank * per + per, n) <==> 0 <= id < n && rank == id / per
  {
    var lo := rank * per;
    assert lo + per == (rank + 1) * per;
    MulMonotone(0, rank, per);
    if 0 <= id {
      BlockBound(id, rank, per);
      BlockBound(id, rank + 1, per);
    }
  }

  class VocabParallelEmbedding {
    const numEmbeddings: nat
    const embeddingDim: nat
    const tpSize: nat
    const tpRank: nat
    const perShard: nat
    const vocabStart: nat
    const vocabEnd: nat
    var weight: Matrix

    ghost predicate Valid()
      reads this
    {
      && numEmbeddings >= 1 && tpRank < tpSize && perShard == Chunk(numEmbeddings, tpSize) >= 1
      && vocabStart == tpRank * perShard && vocabEnd == Min(vocabStart + perShard, numEmbeddings)
      && Shape(weight, perShard, embeddingDim)
    }

    /** The rank's weights are its rows of `full`, zero rows beyond the end. */
    ghost predicate Holds(full: Matrix)
      requires Valid()
      reads this
    {
      |full| == numEmbeddings && forall i :: vocabStart <= i < vocabEnd ==> weight[i - vocabStart] == full[i]
    }

    constructor (numEmbeddings: nat, embeddingDim: nat, tpRank: nat, tpSize: nat)
      requires numEmbeddings >= 1 && tpRank < tpSize
      ensures Valid() && this.numEmbeddings == numEmbeddings && this.embeddingDim == embeddingDim
      ensures this.tpRank == tpRank && this.tpSize == tpSize
    {
      ChunkPositive(numEmbeddings, tpSize);
      MulMonotone(0, tpRank, Chunk(numEmbeddings, tpSize));
      var per := Chunk(numEmbeddings, tpSize);
      this.numEmbeddings, this.embeddingDim, this.tpRank, this.tpSize := numEmbeddings, embeddingDim, tpRank, tpSize;
      perShard := per;
      vocabStart := tpRank * per;
      vocabEnd := Min(tpRank * per + per, numEmbeddings);
      weight := Repeat(Repeat(0.0, embeddingDim), per);
    }

    /** `shard_state_dict`: pad, take this rank's chunk, replace the entry. */
    method ShardStateDict(full: Matrix)
      requires Valid() && Shape(full, numEmbeddings, embeddingDim)
      modifies this
      ensures Valid() && Holds(full)
    {
      var zero := Repeat(0.0, embeddingDim);
      var value := Padded(full, zero, tpSize);
      PaddedLength(full, zero, tpSize);
      OffsetIsProduct(tpRank, perShard);
      ShardExact(value, tpSize, perShard, tpRank, vocabStart);
      assert forall i :: 0 <= i < |value| ==> |value[i]| == embeddingDim;
      weight := ChunkAt(value, tpSize, tpRank).value;
    }

    /** Lines 106-112: ids relative to the shard, ids of other ranks overwritten by 0. */
    method MaskInput(ids: seq<int>) returns (masked: array<int>)
      requires Valid()
      requires tpSize == 1 ==> forall i :: 0 <= i < |ids| ==> 0 <= ids[i] < numEmbeddings
      ensures fresh(masked) && masked.Length == |ids|
      ensures forall i :: 0 <= i < |ids| ==>
                0 <= masked[i] < perShard && (vocabStart <= ids[i] < vocabEnd ==> masked[i] == ids[i] - vocabStart)
      ensures tpSize == 1 ==> vocabStart == 0 && vocabEnd == numEmbeddings
    {
      masked := new int[|ids|](i requires 0 <= i < |ids| => ids[i]);
      if tpSize > 1 {
        for i := 0 to |ids|
          invariant forall j :: 0 <= j < i ==> masked[j] == if vocabStart <= ids[j] < vocabEnd then ids[j] - vocabStart
                      else 0
        {
          masked[i] := ids[i] - vocabStart;
          if !(vocabStart <= ids[i] < vocabEnd) {
            masked[i] := 0;
          }
        }
      } else {
        OneRank(numEmbeddings);
      }
    }

    /** `forward` up to the all-reduce. With one rank an id out of range is an error of the lookup; with several it is
        masked like an id of another rank. */
    method ForwardLocal(ids: seq<int>, ghost full: Matrix) returns (output: array<seq<real>>)
      requires Valid() && Holds(full) && Shape(full, numEmbeddings, embeddingDim)
      requires tpSize == 1 ==> forall i :: 0 <= i < |ids| ==> 0 <= ids[i] < numEmbeddings
      ensures fresh(output) && output.Length == |ids|
      ensures forall i :: 0 <= i < |ids| ==>
                output[i] == LocalRow(full, numEmbeddings, embeddingDim, tpSize, tpRank, ids[i])
    {
      var masked := MaskInput(ids);
      var table, rows := weight, masked[..];
      output := new seq<real>[|ids|](i requires 0 <= i < |rows| && 0 <= rows[i] < |table| => table[rows[i]]);
      if tpSize > 1 {
        for i := 0 to |ids|
          invariant forall j :: i <= j < |ids| ==> output[j] == table[rows[j]]
          invariant forall j :: 0 <= j < i ==>
            output[j] == LocalRow(full, numEmbeddings, embeddingDim, tpSize, tpRank, ids[j])
        {
          if !(vocabStart <= ids[i] < vocabEnd) {
            output[i] := Repeat(0.0, embeddingDim);
          }
        }
      }
    }
  }

  lemma OneRank(n: nat)
    ensures Chunk(n, 1) == n
  {
  }

  /** What one rank contributes for one id: the embedding if it owns the id, zeros otherwise. */
  function LocalRow(full: Matrix, n: nat, dim: nat, tp: nat, rank: nat, id: int): (row: seq<real>)
    requires tp >= 1 && |full| == n
  {
    if Owned(n, tp, rank, id) && 0 <= id then full[id] else Repeat(0.0, dim)
  }

  function LocalRows(full: Matrix, n: nat, dim: nat, tp: nat, id: int, ranks: nat): (rows: seq<seq<real>>)
    requires tp >= 1 && Shape(full, n, dim)
    ensures |rows| == ranks && forall r :: 0 <= r < ranks ==> |rows[r]| == dim
  {
    seq(ranks, rank requires 0 <= rank => LocalRow(full, n, dim, tp, rank, id))
  }

  /** If at most one rank contributes, the sum is its contribution. */
  lemma {:induction false} SumOneHot(rows: seq<seq<real>>, owner: int, v: seq<real>)
    requires forall r :: 0 <= r < |rows| ==> |rows[r]| == |v|
    requires forall r :: 0 <= r < |rows| ==> rows[r] == if r == owner then v else Repeat(0.0, |v|)
    ensures SumRanks(rows, |v|) == if 0 <= owner < |rows| then v else Repeat(0.0, |v|)
  {
    if rows != [] {
      SumOneHot(rows[..|rows| - 1], owner, v);
    }
  }

  /** All-reduced, the ranks' rows are the unsharded embedding; ids outside the vocabulary give zeros. */
  lemma EmbeddingIsUnsharded(full: Matrix, n: nat, dim: nat, tp: nat, id: int)
    requires tp >= 1 && n >= 1 && Shape(full, n, dim)
    ensures SumRanks(LocalRows(full, n, dim, tp, id, tp), dim) == if 0 <= id < n then full[id] else Repeat(0.0, dim)
  {
    ExactlyOneOwner(n, tp, id);
    ChunkPositive(n, tp);
    var rows := LocalRows(full, n, dim, tp, id, tp);
    if 0 <= id < n {
      SumOneHot(rows, id / Chunk(n, tp), full[id]);
    } else {
      SumOneHot(rows, -1, Repeat(0.0, dim));
    }
  }

  /** One step of the in-place all-reduce: another rank's rows are added. */
  method AddInto(output: array<seq<real>>, local: array<seq<real>>, dim: nat)
    requires output != local && output.Length == local.Length
    requires forall i :: 0 <= i < output.Length ==> |output[i]| == |local[i]| == dim
    modifies output
    ensures forall i :: 0 <= i < output.Length ==>
              |old(output[i])| == |local[i]| && output[i] == Plus(old(output[i]), local[i])
  {
    for i := 0 to output.Length
      invariant forall j :: i <= j < output.Length ==> output[j] == old(output[j])
      invariant forall j :: 0 <= j < i ==> |old(output[j])| == |local[j]| && output[j] == Plus(old(output[j]), local[j])
    {
      output[i] := Plus(output[i], local[i]);
    }
  }

  lemma PartialSumStep(full: Matrix, n: nat, dim: nat, tp: nat, id: int, ranks: nat)
    requires tp >= 1 && Shape(full, n, dim)
    ensures |LocalRow(full, n, dim, tp, ranks, id)| == dim
    ensures SumRanks(LocalRows(full, n, dim, tp, id, ranks + 1), dim)
         == Plus(SumRanks(LocalRows(full, n, dim, tp, id, ranks), dim), LocalRow(full, n, dim, tp, ranks, id))
  {
    assert LocalRows(full, n, dim, tp, id, ranks + 1)[..ranks] == LocalRows(full, n, dim, tp, id, ranks);
  }

  /** One rank of the group builds its layer, loads its shard and runs `forward`. */
  method RankForward(full: Matrix, n: nat, dim: nat, tp: nat, rank: nat, ids: seq<int>)
    returns (local: array<seq<real>>)
    requires rank < tp && n >= 1 && Shape(full, n, dim)
    requires tp == 1 ==> forall i :: 0 <= i < |ids| ==> 0 <= ids[i] < n
    ensures fresh(local) && local.Length == |ids|
    ensures forall i :: 0 <= i < |ids| ==> local[i] == LocalRow(full, n, dim, tp, rank, ids[i])
  {
    var layer := new VocabParallelEmbedding(n, dim, rank, tp);
    layer.ShardStateDict(full);
    local := layer.ForwardLocal(ids, full);
  }

  /** `all_reduce` over the ranks, in place. */
  method AllReduced(full: Matrix, n: nat, dim: nat, tp: nat, ids: seq<int>) returns (output: array<seq<real>>)
    requires tp >= 1 && n >= 1 && Shape(full, n, dim)
    requires tp == 1 ==> forall i :: 0 <= i < |ids| ==> 0 <= ids[i] < n
    ensures fresh(output) && output.Length == |ids|
    ensures forall i :: 0 <= i < |ids| ==> output[i] == SumRanks(LocalRows(full, n, dim, tp, ids[i], tp), dim)
  {
    output := new seq<real>[|ids|](i => Repeat(0.0, dim));
    for rank := 0 to tp
      invariant fresh(output)
      invariant forall i :: 0 <= i < |ids| ==> output[i] == SumRanks(LocalRows(full, n, dim, tp, ids[i], rank), dim)
    {
      AddRank(full, n, dim, tp, rank, ids, output);
    }
  }

  method AddRank(full: Matrix, n: nat, dim: nat, tp: nat, rank: nat, ids: seq<int>, output: array<seq<real>>)
    requires rank < tp && n >= 1 && Shape(full, n, dim) && output.Length == |ids|
    requires tp == 1 ==> forall i :: 0 <= i < |ids| ==> 0 <= ids[i] < n
    requires forall i :: 0 <= i < |ids| ==> output[i] == SumRanks(LocalRows(full, n, dim, tp, ids[i], rank), dim)
    modifies output
    ensures forall i :: 0 <= i < |ids| ==> output[i] == SumRanks(LocalRows(full, n, dim, tp, ids[i], rank + 1), dim)
  {
    var local := RankForward(full, n, dim, tp, rank, ids);
    forall i | 0 <= i < |ids|
      ensures |local[i]| == dim
           && Plus(output[i], local[i]) == SumRanks(LocalRows(full, n, dim, tp, ids[i], rank + 1), dim)
    {
      PartialSumStep(full, n, dim, tp, ids[i], rank);
    }
    AddInto(output, local, dim);
  }

  /** The group's `forward`: the unsharded lookup; ids outside the vocabulary give zeros. */
  method EmbeddingForward(full: Matrix, n: nat, dim: nat, tp: nat, ids: seq<int>) returns (output: array<seq<real>>)
    requires tp >= 1 && n >= 1 && Shape(full, n, dim)
    requires tp == 1 ==> forall i :: 0 <= i < |ids| ==> 0 <= ids[i] < n
    ensures fresh(output) && output.Length == |ids|
    ensures forall i :: 0 <= i < |ids| ==> output[i] == if 0 <= ids[i] < n then full[ids[i]] else Repeat(0.0, dim)
  {
    output := AllReduced(full, n, dim, tp, ids);
    forall i | 0 <= i < |ids| ensures output[i] == if 0 <= ids[i] < n then full[ids[i]] else Repeat(0.0, dim) {
      EmbeddingIsUnsharded(full, n, dim, tp, ids[i]);
    }
  }

  // ---------------------------------------------------------------- LM head

  /** Local logits of one rank: padded weight and bias, this rank's chunk, `hidden @ W.T + b`. */
  function LocalLogits(w: Matrix, bias: Option<seq<real>>, hidden: seq<real>, tp: nat, rank: nat): (logits: seq<real>)
    requires tp >= 1 && rank < tp && |w| >= 1 && Shape(w, |w|, |hidden|) && BiasShape(bias, |w|)
    ensures |logits| == Chunk(|w|, tp)
  {
    var zero := Repeat(0.0, |hidden|);
    RowsFit(w, zero, tp, rank);
    var rows := ChunkAt(Padded(w, zero, tp), tp, rank).value;
    if bias.None? then Linear(rows, None, hidden)
    else
      ShardFits(bias.value, 0.0, tp, rank);
      Linear(rows, ChunkAt(Padded(bias.value, 0.0, tp), tp, rank), hidden)
  }

  lemma ShardFits<T>(value: seq<T>, zero: T, tp: nat, rank: nat)
    requires tp >= 1 && rank < tp && |value| >= 1
    ensures var shard := ChunkAt(Padded(value, zero, tp), tp, rank);
            && shard.Some? && |shard.value| == Chunk(|value|, tp)
            && forall i :: 0 <= i < |shard.value| ==> shard.value[i] == zero || shard.value[i] in value
  {
    var per := Chunk(|value|, tp);
    ChunkPositive(|value|, tp);
    PaddedLength(value, zero, tp);
    ShardExact(Padded(value, zero, tp), tp, per, rank, Offset(rank, per));
  }

  lemma RowsFit(w: Matrix, zero: seq<real>, tp: nat, rank: nat)
    requires tp >= 1 && rank < tp && |w| >= 1 && Shape(w, |w|, |zero|)
    ensures var shard := ChunkAt(Padded(w, zero, tp), tp, rank);
            shard.Some? && Shape(shard.value, Chunk(|w|, tp), |zero|)
  {
    ShardFits(w, zero, tp, rank);
  }

  function RankLogits(w: Matrix, bias: Option<seq<real>>, hidden: seq<real>, tp: nat): (r: seq<seq<real>>)
    requires tp >= 1 && |w| >= 1 && Shape(w, |w|, |hidden|) && BiasShape(bias, |w|)
    ensures |r| == tp && forall rank :: 0 <= rank < tp ==> r[rank] == LocalLogits(w, bias, hidden, tp, rank)
  {
    seq(tp, rank requires 0 <= rank < tp => LocalLogits(w, bias, hidden, tp, rank))
  }

  /** `all_gather` and `cat` along the vocabulary. */
  function Gathered(w: Matrix, bias: Option<seq<real>>, hidden: seq<real>, tp: nat): seq<real>
    requires tp >= 1 && |w| >= 1 && Shape(w, |w|, |hidden|) && BiasShape(bias, |w|)
  {
    Concat(RankLogits(w, bias, hidden, tp))
  }

  function PaddedBias(bias: Option<seq<real>>, tp: nat): Option<seq<real>>
    requires tp >= 1
  {
    if bias.Some? then Some(Padded(bias.value, 0.0, tp)) else None
  }

  lemma LocalLogitsAre(w: Matrix, bias: Option<seq<real>>, hidden: seq<real>, tp: nat, per: nat, rank: nat, lo: nat)
    requires tp >= 1 && rank < tp && |w| >= 1 && Shape(w, |w|, |hidden|) && BiasShape(bias, |w|)
    requires per == Chunk(|w|, tp) && lo == Offset(rank, per)
    ensures var all := Padded(w, Repeat(0.0, |hidden|), tp);
            && Shape(all, Offset(tp, per), |hidden|) && BiasShape(PaddedBias(bias, tp), Offset(tp, per))
              && lo + per <= |all|
            && LocalLogits(w, bias, hidden, tp, rank) == Linear(all, PaddedBias(bias, tp), hidden)[lo..lo + per]
  {
    var zero := Repeat(0.0, |hidden|);
    ChunkPositive(|w|, tp);
    PaddedLength(w, zero, tp);
    if bias.Some? {
      PaddedLength(bias.value, 0.0, tp);
    }
    ColumnForward(Padded(w, zero, tp), PaddedBias(bias, tp), hidden, tp, per, rank, lo);
  }

  lemma GatheredIsPadded(w: Matrix, bias: Option<seq<real>>, hidden: seq<real>, tp: nat, per: nat, full: seq<real>)
    requires tp >= 1 && |w| >= 1 && Shape(w, |w|, |hidden|) && BiasShape(bias, |w|) && per == Chunk(|w|, tp)
    requires var all := Padded(w, Repeat(0.0, |hidden|), tp);
             && Shape(all, Offset(tp, per), |hidden|) && BiasShape(PaddedBias(bias, tp), Offset(tp, per))
             && full == Linear(all, PaddedBias(bias, tp), hidden)
    ensures Gathered(w, bias, hidden, tp) == full
  {
    var parts := RankLogits(w, bias, hidden, tp);
    forall r | 0 <= r < |parts| ensures RunAt(parts[r], full, Offset(r, per), per) {
      LocalLogitsAre(w, bias, hidden, tp, per, r, Offset(r, per));
    }
    WholeOfRuns(parts, per, full);
  }

  lemma WholeOfRuns(parts: seq<seq<real>>, per: nat, full: seq<real>)
    requires |full| == Offset(|parts|, per) && forall r {:trigger parts[r]} :: 0 <= r < |parts| ==>
               RunAt(parts[r], full, Offset(r, per), per)
    ensures Concat(parts) == full
  {
    ConcatRuns(parts, per, full);
    assert full[..|full|] == full;
  }

  lemma PaddedLinear(w: Matrix, bias: Option<seq<real>>, hidden: seq<real>, w': Matrix, bias': Option<seq<real>>)
    requires Shape(w, |w|, |hidden|) && BiasShape(bias, |w|) && Shape(w', |w'|, |hidden|) && BiasShape(bias', |w'|)
    requires |w| <= |w'| && forall i :: 0 <= i < |w| ==> w'[i] == w[i]
    requires bias.Some? == bias'.Some? && (bias.Some? ==> forall i :: 0 <= i < |w| ==> bias'.value[i] == bias.value[i])
    ensures Linear(w', bias', hidden)[..|w|] == Linear(w, bias, hidden)
  {
  }

  /** Gathered over all ranks and trimmed to the vocabulary, the logits are the unsharded ones, divisible or not. */
  lemma LmHeadIsUnsharded(w: Matrix, bias: Option<seq<real>>, hidden: seq<real>, tp: nat)
    requires tp >= 1 && |w| >= 1 && Shape(w, |w|, |hidden|) && BiasShape(bias, |w|)
    ensures |w| <= |Gathered(w, bias, hidden, tp)|
    ensures Gathered(w, bias, hidden, tp)[..|w|] == Linear(w, bias, hidden)
  {
    var per, zero := Chunk(|w|, tp), Repeat(0.0, |hidden|);
    LocalLogitsAre(w, bias, hidden, tp, per, 0, 0);
    var all, bias' := Padded(w, zero, tp), PaddedBias(bias, tp);
    GatheredIsPadded(w, bias, hidden, tp, per, Linear(all, bias', hidden));
    PaddedLength(w, zero, tp);
    if bias.Some? {
      PaddedLength(bias.value, 0.0, tp);
    }
    PaddedLinear(w, bias, hidden, all, bias');
  }
}
