/** Tensor-parallel linear layers (`layers/linear.py`, `distributed.shard_tensor`) against the unsharded layers.
    Weights are lists of output rows over the reals. */
module TensorParallel {
  import opened Prelude
  import opened Pieces
  import opened RealVectors

  type Matrix = seq<seq<real>>

  // ---------------------------------------------------------------- chunk and shard

  /** `tensor.chunk(parts)[i]` along the first dimension; `None` is the `IndexError` of a chunk that does not exist. */
  function ChunkAt<T>(s: seq<T>, parts: nat, i: nat): Option<seq<T>>
    requires parts >= 1
  {
    var size := Chunk(|s|, parts);
    if Offset(i, size) < |s| then Some(s[Offset(i, size)..Min(Offset(i, size) + size, |s|)]) else None
  }

  lemma ChunkOfMultiple(parts: nat, c: nat, n: nat)
    requires parts >= 1 && n == parts * c
    ensures Chunk(n, parts) == c
  {
    BlockOf(n + parts - 1, c, parts - 1, parts);
  }

  /** When the sizes divide, every rank gets its own run of rows. */
  lemma ShardExact<T>(s: seq<T>, parts: nat, c: nat, i: nat, lo: nat)
    requires parts >= 1 && c >= 1 && |s| == Offset(parts, c) && i < parts && lo == Offset(i, c)
    ensures lo + c <= |s| && ChunkAt(s, parts, i) == Some(s[lo..lo + c])
  {
    OffsetIsProduct(parts, c);
    ChunkOfMultiple(parts, c, |s|);
    OffsetMonotone(i + 1, parts, c);
  }

  lemma CeilingAboveFloor(n: nat, parts: nat)
    requires parts >= 1 && n % parts != 0
    ensures n / parts < Chunk(n, parts) <= n
  {
    var c := Chunk(n, parts);
    assert n == (n / parts) * parts + n % parts;
    ChunkCovers(n, parts);
    MulMonotone(c, n / parts, parts);
    MulMonotone(n + 1, c, parts);
    MulMonotone(1, parts, n);
  }

  lemma FirstChunk<T>(s: seq<T>, parts: nat)
    requires parts >= 1 && s != []
    ensures ChunkAt(s, parts, 0).Some? && |ChunkAt(s, parts, 0).value| == Min(Chunk(|s|, parts), |s|)
  {
  }

  /** Every rank gets a shard of the `n // parts` rows its constructor allocated. */
  ghost predicate Loads<T>(s: seq<T>, parts: nat)
    requires parts >= 1
  {
    forall i: nat :: i < parts ==> ChunkAt(s, parts, i).Some? && |ChunkAt(s, parts, i).value| == |s| / parts
  }

  /** Loading fits every rank exactly when the number of ranks divides the number of rows. */
  lemma LoadsIffDivides<T>(s: seq<T>, parts: nat)
    requires parts >= 1 && s != []
    ensures Loads(s, parts) <==> |s| % parts == 0
  {
    if |s| % parts == 0 {
      var c := |s| / parts;
      assert |s| == parts * c;
      forall i: nat | i < parts ensures ChunkAt(s, parts, i).Some? && |ChunkAt(s, parts, i).value| == c {
        OffsetIsProduct(parts, c);
        ShardExact(s, parts, c, i, Offset(i, c));
      }
    } else {
      CeilingAboveFloor(|s|, parts);
      FirstChunk(s, parts);
    }
  }

  // ---------------------------------------------------------------- linear layers

  /** `F.linear`: a missing bias adds nothing. */
  function Linear(w: Matrix, bias: Option<seq<real>>, x: seq<real>): (y: seq<real>)
    requires forall o :: 0 <= o < |w| ==> |w[o]| == |x|
    requires bias.Some? ==> |bias.value| == |w|
    ensures |y| == |w|
    ensures forall o {:trigger y[o]} :: 0 <= o < |w| ==> y[o] == Dot(w[o], x) + if bias.Some? then bias.value[o]
              else 0.0
  {
    seq(|w|, o requires 0 <= o < |w| => Dot(w[o], x) + if bias.Some? then bias.value[o] else 0.0)
  }

  ghost predicate Shape(w: Matrix, rows: nat, cols: nat) {
    |w| == rows && forall o :: 0 <= o < rows ==> |w[o]| == cols
  }

  ghost predicate BiasShape(bias: Option<seq<real>>, rows: nat) {
    bias.Some? ==> |bias.value| == rows
  }

  /** Rows `lo..hi` of a bias, if there is one. */
  function BiasRows(bias: Option<seq<real>>, lo: nat, hi: nat): Option<seq<real>>
    requires lo <= hi && (bias.Some? ==> hi <= |bias.value|)
  {
    if bias.Some? then Some(bias.value[lo..hi]) else None
  }

  function BiasAppend(a: Option<seq<real>>, b: Option<seq<real>>): Option<seq<real>> {
    if a.Some? && b.Some? then Some(a.value + b.value) else None
  }

  // ---------------------------------------------------------------- column parallel

  /** `handle_normal_layout` of `ColumnParallelLinear`: weight and bias rows of one rank. */
  function ColumnShard(w: Matrix, bias: Option<seq<real>>, tp: nat, rank: nat): Option<(Matrix, Option<seq<real>>)>
    requires tp >= 1
  {
    var rows := ChunkAt(w, tp, rank);
    if rows.None? then None
    else if bias.None? then Some((rows.value, None))
    else
      var b := ChunkAt(bias.value, tp, rank);
      if b.None? then None else Some((rows.value, b))
  }

  /** What a rank computes after loading its shard; `None` if loading fails or does not fit the input. */
  ghost function ColumnOutput(w: Matrix, bias: Option<seq<real>>, tp: nat, rank: nat, x: seq<real>): Option<seq<real>>
    requires tp >= 1
  {
    var shard := ColumnShard(w, bias, tp, rank);
    if shard.Some? && Shape(shard.value.0, |shard.value.0|, |x|) && BiasShape(shard.value.1, |shard.value.0|)
    then Some(Linear(shard.value.0, shard.value.1, x)) else None
  }

  /** A rank's output is its own run of the unsharded output. */
  lemma ColumnForward(w: Matrix, bias: Option<seq<real>>, x: seq<real>, tp: nat, c: nat, rank: nat, lo: nat)
    requires tp >= 1 && c >= 1 && rank < tp && lo == Offset(rank, c) && Shape(w, Offset(tp, c), |x|)
          && BiasShape(bias, Offset(tp, c))
    ensures lo + c <= |w| && ColumnOutput(w, bias, tp, rank, x) == Some(Linear(w, bias, x)[lo..lo + c])
  {
    ShardExact(w, tp, c, rank, lo);
    if bias.Some? {
      ShardExact(bias.value, tp, c, rank, lo);
    }
    LinearRows(w, bias, x, lo, lo + c);
    assert ColumnShard(w, bias, tp, rank) == Some((w[lo..lo + c], BiasRows(bias, lo, lo + c)));
  }

  /** `handle_gate_up_layout` (2 parts) and `handle_merged_qkv` (3 parts): the first `j` of `parts` equal chunks, each
      sharded, concatenated. */
  function MergedShard<T>(s: seq<T>, parts: nat, tp: nat, rank: nat, j: nat): Option<seq<T>>
    requires parts >= 1 && tp >= 1
  {
    if j == 0 then Some([])
    else
      var before, part := MergedShard(s, parts, tp, rank, j - 1), ChunkAt(s, parts, j - 1);
      if before.None? || part.None? then None
      else
        var piece := ChunkAt(part.value, tp, rank);
        if piece.None? then None else Some(before.value + piece.value)
  }

  /** Runs `lo..lo + c` of the first `j` parts, the parts being `h` long. */
  function Runs<T>(s: seq<T>, h: nat, lo: nat, c: nat, j: nat): (r: seq<T>)
    requires lo + c <= h && Offset(j, h) <= |s|
    ensures |r| == Offset(j, c)
  {
    if j == 0 then [] else Runs(s, h, lo, c, j - 1) + s[Offset(j - 1, h) + lo..Offset(j - 1, h) + lo + c]
  }

  lemma PartShard<T>(s: seq<T>, parts: nat, h: nat, tp: nat, c: nat, rank: nat, lo: nat, j: nat, at: nat)
    requires tp >= 1 && c >= 1 && h == Offset(tp, c) && |s| == Offset(parts, h) && rank < tp && lo == Offset(rank, c)
    requires j < parts && at == Offset(j, h)
    ensures lo + c <= h && at + h <= |s|
    ensures ChunkAt(s, parts, j) == Some(s[at..at + h])
         && ChunkAt(s[at..at + h], tp, rank) == Some(s[at + lo..at + lo + c])
  {
    OffsetMonotone(1, tp, c);
    assert Offset(1, c) == c;
    ShardExact(s, parts, h, j, at);
    ShardExact(s[at..at + h], tp, c, rank, lo);
    SubRun(s, at, h, lo, c);
  }

  lemma SubRun<T>(s: seq<T>, at: nat, h: nat, lo: nat, c: nat)
    requires lo + c <= h && at + h <= |s|
    ensures s[at..at + h][lo..lo + c] == s[at + lo..at + lo + c]
  {
    var a, b := s[at..at + h][lo..lo + c], s[at + lo..at + lo + c];
    forall i | 0 <= i < c ensures a[i] == b[i] {
      assert a[i] == s[at..at + h][lo + i] == s[at + (lo + i)];
      assert b[i] == s[(at + lo) + i];
    }
  }

  lemma {:induction false} MergedShardIsRuns<T>(s: seq<T>, parts: nat, h: nat, tp: nat, c: nat, rank: nat, lo: nat,
                                                j: nat, runs: seq<T>)
    requires tp >= 1 && c >= 1 && h == Offset(tp, c) && |s| == Offset(parts, h) && rank < tp && lo == Offset(rank, c)
          && parts >= 1
    requires lo + c <= h && j <= parts && Offset(j, h) <= |s| && runs == Runs(s, h, lo, c, j)
    ensures MergedShard(s, parts, tp, rank, j) == Some(runs)
  {
    if j > 0 {
      var at, before := Offset(j - 1, h), Runs(s, h, lo, c, j - 1);
      MergedShardIsRuns(s, parts, h, tp, c, rank, lo, j - 1, before);
      PartShard(s, parts, h, tp, c, rank, lo, j - 1, at);
      RunsStep(s, h, lo, c, j, at);
      MergedStep(s, parts, tp, rank, j, before, s[at..at + h], s[at + lo..at + lo + c]);
    }
  }

  lemma MergedStep<T>(s: seq<T>, parts: nat, tp: nat, rank: nat, j: nat, before: seq<T>, part: seq<T>, piece: seq<T>)
    requires parts >= 1 && tp >= 1 && j >= 1 && MergedShard(s, parts, tp, rank, j - 1) == Some(before)
    requires ChunkAt(s, parts, j - 1) == Some(part) && ChunkAt(part, tp, rank) == Some(piece)
    ensures MergedShard(s, parts, tp, rank, j) == Some(before + piece)
  {
  }

  lemma LinearRows(w: Matrix, bias: Option<seq<real>>, x: seq<real>, lo: nat, hi: nat)
    requires Shape(w, |w|, |x|) && BiasShape(bias, |w|) && lo <= hi <= |w|
    ensures Linear(w[lo..hi], BiasRows(bias, lo, hi), x) == Linear(w, bias, x)[lo..hi]
  {
  }

  lemma LinearAppend(w: Matrix, bias: Option<seq<real>>, w': Matrix, bias': Option<seq<real>>, x: seq<real>)
    requires Shape(w, |w|, |x|) && BiasShape(bias, |w|) && Shape(w', |w'|, |x|) && BiasShape(bias', |w'|)
    requires bias.Some? <==> bias'.Some?
    ensures Linear(w + w', BiasAppend(bias, bias'), x) == Linear(w, bias, x) + Linear(w', bias', x)
  {
  }

  lemma {:induction false} RunsOfRows(w: Matrix, h: nat, lo: nat, c: nat, j: nat, cols: nat)
    requires lo + c <= h && Offset(j, h) <= |w| && Shape(w, |w|, cols)
    ensures Shape(Runs(w, h, lo, c, j), Offset(j, c), cols)
  {
    if j > 0 {
      RunsOfRows(w, h, lo, c, j - 1, cols);
    }
  }

  function RunsOfBias(bias: Option<seq<real>>, h: nat, lo: nat, c: nat, j: nat): Option<seq<real>>
    requires lo + c <= h && (bias.Some? ==> Offset(j, h) <= |bias.value|)
  {
    if bias.Some? then Some(Runs(bias.value, h, lo, c, j)) else None
  }

  lemma RunsStep<T>(s: seq<T>, h: nat, lo: nat, c: nat, j: nat, at: nat)
    requires j > 0 && lo + c <= h && at == Offset(j - 1, h) && at + h <= |s|
    ensures Runs(s, h, lo, c, j) == Runs(s, h, lo, c, j - 1) + s[at + lo..at + lo + c]
  {
  }

  lemma RunsOfBiasStep(bias: Option<seq<real>>, h: nat, lo: nat, c: nat, j: nat, at: nat)
    requires j > 0 && lo + c <= h && at == Offset(j - 1, h) && (bias.Some? ==> at + h <= |bias.value|)
    ensures RunsOfBias(bias, h, lo, c, j)
         == BiasAppend(RunsOfBias(bias, h, lo, c, j - 1), BiasRows(bias, at + lo, at + lo + c))
  {
    if bias.Some? {
      RunsStep(bias.value, h, lo, c, j, at);
    }
  }

  /** A layer loaded with runs of rows computes the same runs of the unsharded output. */
  lemma {:induction false} LinearOfRuns(w: Matrix, bias: Option<seq<real>>, x: seq<real>, h: nat, lo: nat, c: nat,
                                        j: nat, rows: Matrix, b: Option<seq<real>>, y: seq<real>, z: seq<real>)
    requires lo + c <= h && Offset(j, h) <= |w| && Shape(w, |w|, |x|) && BiasShape(bias, |w|)
    requires rows == Runs(w, h, lo, c, j) && b == RunsOfBias(bias, h, lo, c, j) && y == Linear(w, bias, x)
    requires z == Runs(y, h, lo, c, j)
    ensures Shape(rows, Offset(j, c), |x|) && Linear(rows, b, x) == z
  {
    RunsOfRows(w, h, lo, c, j, |x|);
    if j > 0 {
      var at, rows', b' := Offset(j - 1, h), Runs(w, h, lo, c, j - 1), RunsOfBias(bias, h, lo, c, j - 1);
      var z' := Runs(y, h, lo, c, j - 1);
      LinearOfRuns(w, bias, x, h, lo, c, j - 1, rows', b', y, z');
      RunsStep(w, h, lo, c, j, at);
      RunsOfBiasStep(bias, h, lo, c, j, at);
      RunsStep(y, h, lo, c, j, at);
      AppendRun(w, bias, x, at + lo, at + lo + c, rows', b', rows, b, y, z', z);
    }
  }

  lemma AppendRun(w: Matrix, bias: Option<seq<real>>, x: seq<real>, lo: nat, hi: nat, rows': Matrix,
                  b': Option<seq<real>>, rows: Matrix, b: Option<seq<real>>, y: seq<real>, z': seq<real>, z: seq<real>)
    requires lo <= hi <= |w| && Shape(w, |w|, |x|) && BiasShape(bias, |w|) && y == Linear(w, bias, x)
    requires Shape(rows', |rows'|, |x|) && BiasShape(b', |rows'|) && (bias.Some? <==> b'.Some?)
    requires rows == rows' + w[lo..hi] && b == BiasAppend(b', BiasRows(bias, lo, hi))
    requires z' == Linear(rows', b', x) && z == z' + y[lo..hi]
    ensures Shape(rows, |rows|, |x|) && BiasShape(b, |rows|) && Linear(rows, b, x) == z
  {
    LinearRows(w, bias, x, lo, hi);
    LinearAppend(rows', b', w[lo..hi], BiasRows(bias, lo, hi), x);
  }

  ghost function MergedOutput(w: Matrix, bias: Option<seq<real>>, parts: nat, tp: nat, rank: nat,
                              x: seq<real>): Option<seq<real>>
    requires parts >= 1 && tp >= 1
  {
    var rows := MergedShard(w, parts, tp, rank, parts);
    var b := if bias.Some? then MergedShard(bias.value, parts, tp, rank, parts) else None;
    if rows.Some? && (bias.Some? ==> b.Some?) && Shape(rows.value, |rows.value|, |x|) && BiasShape(b, |rows.value|)
    then Some(Linear(rows.value, b, x)) else None
  }

  /** One rank of a merged layer whose parts have the same size: its output is the rank's run of every part of the
      unsharded output, in order. Query, key and value of different sizes are treated in `MergedQkv`. */
  lemma MergedForward(w: Matrix, bias: Option<seq<real>>, x: seq<real>, parts: nat, h: nat, tp: nat, c: nat, rank: nat,
                      lo: nat)
    requires parts >= 1 && tp >= 1 && c >= 1 && h == Offset(tp, c) && rank < tp && lo == Offset(rank, c)
    requires Shape(w, Offset(parts, h), |x|) && BiasShape(bias, Offset(parts, h))
    ensures lo + c <= h && MergedOutput(w, bias, parts, tp, rank, x) == Some(Runs(Linear(w, bias, x), h, lo, c, parts))
  {
    OffsetMonotone(rank + 1, tp, c);
    MergedShardIsRuns(w, parts, h, tp, c, rank, lo, parts, Runs(w, h, lo, c, parts));
    if bias.Some? {
      MergedShardIsRuns(bias.value, parts, h, tp, c, rank, lo, parts, Runs(bias.value, h, lo, c, parts));
    }
    LinearOfRuns(w, bias, x, h, lo, c, parts, Runs(w, h, lo, c, parts), RunsOfBias(bias, h, lo, c, parts),
                 Linear(w, bias, x), Runs(Linear(w, bias, x), h, lo, c, parts));
  }

  // ---------------------------------------------------------------- row parallel

  /** `shard_tensor(weight, -1)`: every row keeps the rank's columns `lo..lo + c`. */
  function RowWeight(w: Matrix, c: nat, lo: nat): (r: Matrix)
    requires forall o :: 0 <= o < |w| ==> lo + c <= |w[o]|
    ensures |r| == |w| && forall o :: 0 <= o < |r| ==> |r[o]| == c
  {
    seq(|w|, o requires 0 <= o < |w| => w[o][lo..lo + c])
  }

  lemma RowWeightIsShard(w: Matrix, tp: nat, c: nat, rank: nat, lo: nat, o: nat)
    requires tp >= 1 && c >= 1 && rank < tp && lo == Offset(rank, c) && Shape(w, |w|, Offset(tp, c)) && o < |w|
    ensures lo + c <= Offset(tp, c) && ChunkAt(w[o], tp, rank) == Some(RowWeight(w, c, lo)[o])
  {
    ShardExact(w[o], tp, c, rank, lo);
  }

  /** Only rank 0 keeps the bias. */
  function RowBias(bias: Option<seq<real>>, rank: nat): (r: Option<seq<real>>)
    ensures bias.Some? == r.Some?
    ensures bias.Some? ==> |r.value| == |bias.value|
  {
    if bias.None? || rank == 0 then bias else Some(Repeat(0.0, |bias.value|))
  }

  /** One rank's partial output for its run `h[lo..lo + c]` of the input. */
  function RowForward(w: Matrix, bias: Option<seq<real>>, c: nat, rank: nat, lo: nat, part: seq<real>): (y: seq<real>)
    requires (forall o :: 0 <= o < |w| ==> lo + c <= |w[o]|) && |part| == c && BiasShape(bias, |w|)
    ensures |y| == |w|
  {
    Linear(RowWeight(w, c, lo), RowBias(bias, rank), part)
  }

  lemma RowForwardAt(w: Matrix, bias: Option<seq<real>>, c: nat, rank: nat, lo: nat, part: seq<real>, o: nat)
    requires (forall o :: 0 <= o < |w| ==> lo + c <= |w[o]|) && |part| == c && BiasShape(bias, |w|) && o < |w|
    ensures RowForward(w, bias, c, rank, lo, part)[o]
         == Dot(w[o][lo..lo + c], part) + if bias.Some? && rank == 0 then bias.value[o] else 0.0
  {
  }

  /** `all_reduce(SUM)`. */
  function SumRanks(parts: seq<seq<real>>, n: nat): (r: seq<real>)
    requires forall i :: 0 <= i < |parts| ==> |parts[i]| == n
    ensures |r| == n
  {
    if parts == [] then Repeat(0.0, n) else Plus(SumRanks(parts[..|parts| - 1], n), parts[|parts| - 1])
  }

  /** Partial outputs of the first `ranks` ranks of a row-parallel layer, each fed its own run of `h`. */
  function RowOutputs(w: Matrix, bias: Option<seq<real>>, h: seq<real>, c: nat, ranks: nat): (r: seq<seq<real>>)
    requires Offset(ranks, c) <= |h| && Shape(w, |w|, |h|) && BiasShape(bias, |w|)
    ensures |r| == ranks && forall i :: 0 <= i < ranks ==> |r[i]| == |w|
  {
    if ranks == 0 then []
    else
      var lo := Offset(ranks - 1, c);
      RowOutputs(w, bias, h, c, ranks - 1) + [RowForward(w, bias, c, ranks - 1, lo, h[lo..lo + c])]
  }

  /** Cell `o` of the sum over the first `ranks` ranks: the bias once and the columns those ranks hold. */
  lemma {:induction false} RowPartialSum(w: Matrix, bias: Option<seq<real>>, h: seq<real>, c: nat, ranks: nat, hi: nat,
                                         o: nat, all: seq<seq<real>>)
    requires 1 <= ranks && hi == Offset(ranks, c) <= |h| && Shape(w, |w|, |h|) && BiasShape(bias, |w|) && o < |w|
    requires all == RowOutputs(w, bias, h, c, ranks)
    ensures SumRanks(all, |w|)[o] == Dot(w[o][..hi], h[..hi]) + if bias.Some? then bias.value[o] else 0.0
  {
    var lo, front := Offset(ranks - 1, c), RowOutputs(w, bias, h, c, ranks - 1);
    SumOneMore(w, bias, h, c, ranks, o, lo, hi, front, all);
    DotSplit(w[o], h, lo, hi);
    if ranks == 1 {
      assert SumRanks(front, |w|)[o] == 0.0;
      assert Dot(w[o][..0], h[..0]) == 0.0;
    } else {
      RowPartialSum(w, bias, h, c, ranks - 1, lo, o, front);
    }
  }

  /** One more rank adds its columns, and the first one the bias. */
  lemma SumOneMore(w: Matrix, bias: Option<seq<real>>, h: seq<real>, c: nat, ranks: nat, o: nat, lo: nat, hi: nat,
                   front: seq<seq<real>>, all: seq<seq<real>>)
    requires 1 <= ranks && Shape(w, |w|, |h|) && BiasShape(bias, |w|) && o < |w|
    requires lo == Offset(ranks - 1, c) && hi == lo + c <= |h|
    requires front == RowOutputs(w, bias, h, c, ranks - 1) && all == RowOutputs(w, bias, h, c, ranks)
    ensures SumRanks(all, |w|)[o] == SumRanks(front, |w|)[o] + Dot(w[o][lo..hi], h[lo..hi])
                                   + if bias.Some? && ranks == 1 then bias.value[o] else 0.0
  {
    var last := RowForward(w, bias, c, ranks - 1, lo, h[lo..hi]);
    RowForwardAt(w, bias, c, ranks - 1, lo, h[lo..hi], o);
    SumAppended(front, last, |w|, o, all);
  }

  lemma SumAppended(front: seq<seq<real>>, last: seq<real>, n: nat, o: nat, all: seq<seq<real>>)
    requires (forall i :: 0 <= i < |front| ==> |front[i]| == n) && |last| == n && o < n && all == front + [last]
    ensures (forall i :: 0 <= i < |all| ==> |all[i]| == n) && SumRanks(all, n)[o] == SumRanks(front, n)[o] + last[o]
  {
    assert all[..|front|] == front;
  }

  lemma DotSplit(a: seq<real>, b: seq<real>, lo: nat, hi: nat)
    requires lo <= hi <= |a| == |b|
    ensures Dot(a[..hi], b[..hi]) == Dot(a[..lo], b[..lo]) + Dot(a[lo..hi], b[lo..hi])
  {
    DotAppend(a[..lo], a[lo..hi], b[..lo], b[lo..hi]);
    assert a[..hi] == a[..lo] + a[lo..hi] && b[..hi] == b[..lo] + b[lo..hi];
  }

  /** Summed over all ranks the row-parallel layer is the unsharded layer, bias counted once. */
  lemma RowParallelIsLinear(w: Matrix, bias: Option<seq<real>>, h: seq<real>, tp: nat, c: nat)
    requires tp >= 1 && |h| == Offset(tp, c) && Shape(w, |w|, |h|) && BiasShape(bias, |w|)
    ensures SumRanks(RowOutputs(w, bias, h, c, tp), |w|) == Linear(w, bias, h)
  {
    var all := RowOutputs(w, bias, h, c, tp);
    var y := SumRanks(all, |w|);
    forall o | 0 <= o < |w| ensures y[o] == Linear(w, bias, h)[o] {
      RowPartialSum(w, bias, h, c, tp, |h|, o, all);
      assert w[o][..|h|] == w[o] && h[..|h|] == h;
    }
  }

  lemma {:induction false} RowOutputsAt(w: Matrix, bias: Option<seq<real>>, h: seq<real>, c: nat, ranks: nat, r: nat,
                                        lo: nat)
    requires Offset(ranks, c) <= |h| && Shape(w, |w|, |h|) && BiasShape(bias, |w|) && r < ranks && lo == Offset(r, c)
    ensures lo + c <= |h| && RowOutputs(w, bias, h, c, ranks)[r] == RowForward(w, bias, c, r, lo, h[lo..lo + c])
  {
    if r < ranks - 1 {
      RowOutputsAt(w, bias, h, c, ranks - 1, r, lo);
    }
  }

  // ---------------------------------------------------------------- two layers and an activation

  /** The elementwise activation of gate and up values. */
  function Combine(act: (real, real) -> real, g: seq<real>, u: seq<real>): (r: seq<real>)
    requires |g| == |u|
    ensures |r| == |g| && forall i {:trigger r[i]} :: 0 <= i < |r| ==> r[i] == act(g[i], u[i])
  {
    seq(|g|, i requires 0 <= i < |g| => act(g[i], u[i]))
  }

  /** `part` is the run of `h` that belongs to rank `r`. */
  ghost predicate RunOf(h: seq<real>, c: nat, r: nat, part: seq<real>) {
    Offset(r, c) + c <= |h| && part == h[Offset(r, c)..Offset(r, c) + c]
  }

  /** Rank outputs fed with the rank's own run of some hidden vector sum to the unsharded second layer. */
  lemma RanksSumToLayer(w: Matrix, bias: Option<seq<real>>, h: seq<real>, tp: nat, c: nat, outs: seq<seq<real>>)
    requires tp >= 1 && |h| == Offset(tp, c) && Shape(w, |w|, |h|) && BiasShape(bias, |w|) && |outs| == tp
    requires forall r :: 0 <= r < tp ==> |outs[r]| == |w|
    requires forall r {:trigger outs[r]} :: 0 <= r < tp ==>
               Offset(r, c) + c <= |h|
                 && outs[r] == RowForward(w, bias, c, r, Offset(r, c), h[Offset(r, c)..Offset(r, c) + c])
    ensures SumRanks(outs, |w|) == Linear(w, bias, h)
  {
    var all := RowOutputs(w, bias, h, c, tp);
    forall r | 0 <= r < tp ensures outs[r] == all[r] {
      RowOutputsAt(w, bias, h, c, tp, r, Offset(r, c));
    }
    assert outs == all;
    RowParallelIsLinear(w, bias, h, tp, c);
  }

  /** The same when each rank's input is given by itself. */
  lemma PartsSumToLayer(w: Matrix, bias: Option<seq<real>>, h: seq<real>, tp: nat, c: nat, parts: seq<seq<real>>,
                        outs: seq<seq<real>>)
    requires tp >= 1 && |h| == Offset(tp, c) && Shape(w, |w|, |h|) && BiasShape(bias, |w|) && |outs| == |parts| == tp
    requires forall r {:trigger parts[r]} {:trigger outs[r]} :: 0 <= r < tp ==>
               RunOf(h, c, r, parts[r]) && outs[r] == RowForward(w, bias, c, r, Offset(r, c), parts[r])
    ensures (forall r :: 0 <= r < tp ==> |outs[r]| == |w|) && SumRanks(outs, |w|) == Linear(w, bias, h)
  {
    forall r | 0 <= r < tp
      ensures Offset(r, c) + c <= |h|
           && outs[r] == RowForward(w, bias, c, r, Offset(r, c), h[Offset(r, c)..Offset(r, c) + c])
    {
      assert RunOf(h, c, r, parts[r]);
    }
    RanksSumToLayer(w, bias, h, tp, c, outs);
  }

  lemma TwoRuns<T>(y: seq<T>, h: nat, lo: nat, c: nat)
    requires lo + c <= h && |y| == 2 * h
    ensures Offset(2, h) == 2 * h && Offset(2, c) == 2 * c
    ensures Runs(y, h, lo, c, 2)[..c] == y[..h][lo..lo + c] && Runs(y, h, lo, c, 2)[c..] == y[h..][lo..lo + c]
  {
    assert Offset(1, h) == h && Offset(1, c) == c;
    assert Runs(y, h, lo, c, 1) == y[lo..lo + c];
  }

  /** `part` is what rank `rank` feeds its row-parallel layer: the merged layer loaded from the state dict, its output
      split in two and combined. */
  ghost predicate GateUpPart(w: Matrix, bias: Option<seq<real>>, act: (real, real) -> real, x: seq<real>, tp: nat,
                             c: nat, rank: nat, part: seq<real>)
    requires tp >= 1
  {
    var y := MergedOutput(w, bias, 2, tp, rank, x);
    y.Some? && |y.value| == 2 * c && part == Combine(act, y.value[..c], y.value[c..])
  }

  /** The parts exist, one per rank, and are the runs of the unsharded activation. */
  lemma GateUpPartIs(w: Matrix, bias: Option<seq<real>>, act: (real, real) -> real, x: seq<real>, tp: nat, c: nat,
                     h: nat, rank: nat, lo: nat, hidden: seq<real>, part: seq<real>)
    requires tp >= 1 && c >= 1 && h == Offset(tp, c) && Shape(w, 2 * h, |x|) && BiasShape(bias, 2 * h) && rank < tp
          && lo == Offset(rank, c)
    requires hidden == Combine(act, Linear(w, bias, x)[..h], Linear(w, bias, x)[h..])
    ensures GateUpPart(w, bias, act, x, tp, c, rank, part) <==> RunOf(hidden, c, rank, part)
  {
    var y := Linear(w, bias, x);
    var z := MergedHalves(w, bias, x, tp, c, h, rank, lo, y);
    CombineHalves(act, y, h, lo, c, z, hidden);
  }

  /** The output of the merged layer on one rank is the rank's run of either half. */
  lemma MergedHalves(w: Matrix, bias: Option<seq<real>>, x: seq<real>, tp: nat, c: nat, h: nat, rank: nat, lo: nat,
                     y: seq<real>)
    returns (z: seq<real>)
    requires tp >= 1 && c >= 1 && h == Offset(tp, c) && Shape(w, 2 * h, |x|) && BiasShape(bias, 2 * h) && rank < tp
          && lo == Offset(rank, c)
    requires y == Linear(w, bias, x)
    ensures lo + c <= h && |z| == 2 * c && MergedOutput(w, bias, 2, tp, rank, x) == Some(z)
    ensures z[..c] == y[..h][lo..lo + c] && z[c..] == y[h..][lo..lo + c]
  {
    OffsetMonotone(rank + 1, tp, c);
    TwoRuns(y, h, lo, c);
    MergedForward(w, bias, x, 2, h, tp, c, rank, lo);
    z := Runs(y, h, lo, c, 2);
  }

  lemma CombineHalves(act: (real, real) -> real, y: seq<real>, h: nat, lo: nat, c: nat, z: seq<real>, hidden: seq<real>)
    requires lo + c <= h && |y| == 2 * h && |z| == 2 * c && z[..c] == y[..h][lo..lo + c] && z[c..] == y[h..][lo..lo + c]
    requires hidden == Combine(act, y[..h], y[h..])
    ensures |hidden| == h && Combine(act, z[..c], z[c..]) == hidden[lo..lo + c]
  {
    CombineRuns(act, y[..h], y[h..], lo, c, z[..c], z[c..]);
  }

  lemma CombineRuns(act: (real, real) -> real, g: seq<real>, u: seq<real>, lo: nat, c: nat, g': seq<real>,
                    u': seq<real>)
    requires |g| == |u| && lo + c <= |g| && g' == g[lo..lo + c] && u' == u[lo..lo + c]
    ensures Combine(act, g', u') == Combine(act, g, u)[lo..lo + c]
  {
  }

  lemma GateUpPartsAre(w: Matrix, bias: Option<seq<real>>, act: (real, real) -> real, x: seq<real>, tp: nat, c: nat,
                       h: nat, hidden: seq<real>, parts: seq<seq<real>>)
    requires tp >= 1 && c >= 1 && h == Offset(tp, c) && Shape(w, 2 * h, |x|) && BiasShape(bias, 2 * h) && |parts| == tp
    requires hidden == Combine(act, Linear(w, bias, x)[..h], Linear(w, bias, x)[h..])
    requires forall r :: 0 <= r < tp ==> GateUpPart(w, bias, act, x, tp, c, r, parts[r])
    ensures forall r :: 0 <= r < tp ==> RunOf(hidden, c, r, parts[r])
  {
    forall r | 0 <= r < tp ensures RunOf(hidden, c, r, parts[r]) {
      GateUpPartIs(w, bias, act, x, tp, c, h, r, Offset(r, c), hidden, parts[r]);
    }
  }

  /** Gate/up block: for every rank count dividing the hidden size, the all-reduced rank outputs are the unsharded
      block. */
  lemma GateUpBlock(w: Matrix, bias: Option<seq<real>>, w2: Matrix, bias2: Option<seq<real>>, act: (real, real) -> real,
                    x: seq<real>, tp: nat, c: nat, h: nat, hidden: seq<real>, parts: seq<seq<real>>,
                    outs: seq<seq<real>>)
    requires tp >= 1 && c >= 1 && h == Offset(tp, c) && Shape(w, 2 * h, |x|) && BiasShape(bias, 2 * h)
    requires hidden == Combine(act, Linear(w, bias, x)[..h], Linear(w, bias, x)[h..])
    requires Shape(w2, |w2|, h) && BiasShape(bias2, |w2|) && |outs| == |parts| == tp
    requires forall r :: 0 <= r < tp ==> GateUpPart(w, bias, act, x, tp, c, r, parts[r]) && |parts[r]| == c
    requires forall r {:trigger outs[r]} :: 0 <= r < tp ==>
               Offset(r, c) + c <= h && outs[r] == RowForward(w2, bias2, c, r, Offset(r, c), parts[r])
    ensures (forall r :: 0 <= r < tp ==> |outs[r]| == |w2|) && SumRanks(outs, |w2|) == Linear(w2, bias2, hidden)
  {
    GateUpPartsAre(w, bias, act, x, tp, c, h, hidden, parts);
    PartsSumToLayer(w2, bias2, hidden, tp, c, parts, outs);
  }

  /** `part` is what rank `rank` feeds its row-parallel layer: separate gate and up layers loaded from the state
      dict. */
  ghost predicate SplitPart(wg: Matrix, bg: Option<seq<real>>, wu: Matrix, bu: Option<seq<real>>,
                            act: (real, real) -> real, x: seq<real>, tp: nat, rank: nat, part: seq<real>)
    requires tp >= 1
  {
    var g, u := ColumnOutput(wg, bg, tp, rank, x), ColumnOutput(wu, bu, tp, rank, x);
    g.Some? && u.Some? && |g.value| == |u.value| && part == Combine(act, g.value, u.value)
  }

  lemma SplitPartIs(wg: Matrix, bg: Option<seq<real>>, wu: Matrix, bu: Option<seq<real>>, act: (real, real) -> real,
                    x: seq<real>, tp: nat, c: nat, h: nat, rank: nat, lo: nat, part: seq<real>, hidden: seq<real>)
    requires tp >= 1 && c >= 1 && h == Offset(tp, c) && Shape(wg, h, |x|) && Shape(wu, h, |x|) && BiasShape(bg, h)
          && BiasShape(bu, h)
    requires rank < tp && lo == Offset(rank, c)
    requires hidden == Combine(act, Linear(wg, bg, x), Linear(wu, bu, x))
    ensures SplitPart(wg, bg, wu, bu, act, x, tp, rank, part) <==> RunOf(hidden, c, rank, part)
  {
    ColumnForward(wg, bg, x, tp, c, rank, lo);
    ColumnForward(wu, bu, x, tp, c, rank, lo);
    var g, u := Linear(wg, bg, x), Linear(wu, bu, x);
    CombinedRun(act, g, u, lo, c, rank, g[lo..lo + c], u[lo..lo + c], hidden, part);
  }

  lemma CombinedRun(act: (real, real) -> real, g: seq<real>, u: seq<real>, lo: nat, c: nat, rank: nat, g': seq<real>,
                    u': seq<real>, hidden: seq<real>, part: seq<real>)
    requires |g| == |u| && lo == Offset(rank, c) && lo + c <= |g| && g' == g[lo..lo + c] && u' == u[lo..lo + c]
    requires hidden == Combine(act, g, u)
    ensures part == Combine(act, g', u') <==> RunOf(hidden, c, rank, part)
  {
    CombineRuns(act, g, u, lo, c, g', u');
  }

  lemma SplitPartsAre(wg: Matrix, bg: Option<seq<real>>, wu: Matrix, bu: Option<seq<real>>, act: (real, real) -> real,
                      x: seq<real>, tp: nat, c: nat, h: nat, parts: seq<seq<real>>, hidden: seq<real>)
    requires tp >= 1 && c >= 1 && h == Offset(tp, c) && Shape(wg, h, |x|) && Shape(wu, h, |x|) && BiasShape(bg, h)
          && BiasShape(bu, h)
    requires hidden == Combine(act, Linear(wg, bg, x), Linear(wu, bu, x)) && |parts| == tp
    requires forall r :: 0 <= r < tp ==> SplitPart(wg, bg, wu, bu, act, x, tp, r, parts[r])
    ensures forall r :: 0 <= r < tp ==> RunOf(hidden, c, r, parts[r])
  {
    forall r | 0 <= r < tp ensures RunOf(hidden, c, r, parts[r]) {
      SplitPartIs(wg, bg, wu, bu, act, x, tp, c, h, r, Offset(r, c), parts[r], hidden);
    }
  }

  /** The same block with separate gate and up layers in the normal layout. */
  lemma SplitBlock(wg: Matrix, bg: Option<seq<real>>, wu: Matrix, bu: Option<seq<real>>, w2: Matrix,
                   bias2: Option<seq<real>>, act: (real, real) -> real, x: seq<real>, tp: nat, c: nat, h: nat,
                   parts: seq<seq<real>>, outs: seq<seq<real>>)
    requires tp >= 1 && c >= 1 && h == Offset(tp, c) && Shape(wg, h, |x|) && Shape(wu, h, |x|) && BiasShape(bg, h)
          && BiasShape(bu, h)
    requires Shape(w2, |w2|, h) && BiasShape(bias2, |w2|) && |outs| == |parts| == tp
    requires forall r :: 0 <= r < tp ==> SplitPart(wg, bg, wu, bu, act, x, tp, r, parts[r]) && |parts[r]| == c
    requires forall r {:trigger outs[r]} :: 0 <= r < tp ==>
               Offset(r, c) + c <= h && outs[r] == RowForward(w2, bias2, c, r, Offset(r, c), parts[r])
    ensures (forall r :: 0 <= r < tp ==> |outs[r]| == |w2|)
    ensures SumRanks(outs, |w2|) == Linear(w2, bias2, Combine(act, Linear(wg, bg, x), Linear(wu, bu, x)))
  {
    var hidden := Combine(act, Linear(wg, bg, x), Linear(wu, bu, x));
    SplitPartsAre(wg, bg, wu, bu, act, x, tp, c, h, parts, hidden);
    PartsSumToLayer(w2, bias2, hidden, tp, c, parts, outs);
  }
}
