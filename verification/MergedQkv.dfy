/** The `merged_qkv` layout of `layers/linear.py` as `Phi3Attention` uses it: one weight holds the query rows and then
    the fewer key and value rows of grouped-query attention. */
module MergedQkv {
  import opened Prelude
  import opened Pieces
  import opened RealVectors
  import opened TensorParallel

  /** The rows of a weight with `tp * a` query rows and `tp * b` key and value rows each. */
  function QkvRows(tp: nat, a: nat, b: nat): nat {
    Offset(tp, a) + 2 * Offset(tp, b)
  }

  /** Index `i` of runs of `a`, `b` and `b` elements that start at `x`, `y` and `z`. */
  function Pick(a: nat, b: nat, x: nat, y: nat, z: nat, i: nat): nat {
    if i < a then x + i else if i < a + b then y + (i - a) else z + (i - a - b)
  }

  function Gather<T>(s: seq<T>, a: nat, b: nat, x: nat, y: nat, z: nat): (r: seq<T>)
    requires x + a <= |s| && y + b <= |s| && z + b <= |s|
    ensures |r| == a + 2 * b
    ensures forall i {:trigger r[i]} :: 0 <= i < |r| ==> r[i] == s[Pick(a, b, x, y, z, i)]
  {
    s[x..x + a] + s[y..y + b] + s[z..z + b]
  }

  /** Where the query, key and value rows of a rank with `a` query, `b` key and `b` value rows start. */
  function Starts(tp: nat, a: nat, b: nat, rank: nat): (r: (nat, nat, nat))
    requires rank < tp
    ensures r.0 + a <= Offset(tp, a) <= r.1 && r.1 + b <= Offset(tp, a) + Offset(tp, b) <= r.2
    ensures r.2 + b <= QkvRows(tp, a, b)
  {
    OffsetMonotone(rank + 1, tp, a);
    OffsetMonotone(rank + 1, tp, b);
    var q, k, lo := Offset(tp, a), Offset(tp, b), Offset(rank, b);
    (Offset(rank, a), q + lo, q + k + lo)
  }

  /** What a rank needs for its heads: its slice of the query rows, of the key rows and of the value rows. */
  function OwnSlices<T>(s: seq<T>, tp: nat, a: nat, b: nat, rank: nat): (r: seq<T>)
    requires rank < tp && |s| == QkvRows(tp, a, b)
    ensures |r| == a + 2 * b
  {
    var (x, y, z) := Starts(tp, a, b, rank);
    Gather(s, a, b, x, y, z)
  }

  lemma OwnSlicesAre<T>(s: seq<T>, tp: nat, a: nat, b: nat, rank: nat, x: nat, y: nat, z: nat)
    requires rank < tp && |s| == QkvRows(tp, a, b) && x == Offset(rank, a)
    requires y == Offset(tp, a) + Offset(rank, b) && z == Offset(tp, a) + Offset(tp, b) + Offset(rank, b)
    ensures x + a <= |s| && y + b <= |s| && z + b <= |s| && OwnSlices(s, tp, a, b, rank) == Gather(s, a, b, x, y, z)
  {
    assert Starts(tp, a, b, rank) == (x, y, z);
  }

  /** Every rank loads its own slices. */
  ghost predicate LoadsOwn<T>(s: seq<T>, tp: nat, a: nat, b: nat)
    requires |s| == QkvRows(tp, a, b)
  {
    forall rank: nat :: rank < tp ==> MergedShard(s, 3, tp, rank, 3) == Some(OwnSlices(s, tp, a, b, rank))
  }

  // ---------------------------------------------------------------- where the layout is right

  lemma OffsetThrice(q: nat)
    ensures Offset(0, q) == 0 && Offset(1, q) == q && Offset(2, q) == 2 * q && Offset(3, q) == 3 * q
  {
    assert Offset(0, q) == 0;
    assert Offset(1, q) == q;
    assert Offset(2, q) == 2 * q;
  }

  lemma EqualThirdsLoad<T>(s: seq<T>, tp: nat, a: nat)
    requires tp >= 1 && a >= 1 && |s| == QkvRows(tp, a, a)
    ensures LoadsOwn(s, tp, a, a)
  {
    forall rank: nat | rank < tp ensures MergedShard(s, 3, tp, rank, 3) == Some(OwnSlices(s, tp, a, a, rank)) {
      EqualThirdsLoadAt(s, tp, a, rank, Offset(tp, a), Offset(rank, a), 3, OwnSlices(s, tp, a, a, rank));
    }
  }

  lemma EqualThirdsLoadAt<T>(s: seq<T>, tp: nat, a: nat, rank: nat, q: nat, lo: nat, parts: nat, own: seq<T>)
    requires a >= 1 && |s| == QkvRows(tp, a, a) && rank < tp && q == Offset(tp, a) && lo == Offset(rank, a)
    requires parts == 3 && own == OwnSlices(s, tp, a, a, rank)
    ensures MergedShard(s, parts, tp, rank, parts) == Some(own)
  {
    OwnAreRuns(s, tp, a, rank, q, lo, parts, own);
    MergedShardIsRuns(s, parts, q, tp, a, rank, lo, parts, own);
  }

  lemma OwnAreRuns<T>(s: seq<T>, tp: nat, a: nat, rank: nat, q: nat, lo: nat, parts: nat, own: seq<T>)
    requires |s| == QkvRows(tp, a, a) && rank < tp && q == Offset(tp, a) && lo == Offset(rank, a)
    requires parts == 3 && own == OwnSlices(s, tp, a, a, rank)
    ensures lo + a <= q && |s| == Offset(parts, q) && own == Runs(s, q, lo, a, parts)
  {
    OffsetThrice(q);
    OffsetMonotone(rank + 1, tp, a);
    OwnSlicesAre(s, tp, a, a, rank, lo, q + lo, q + q + lo);
    ThreeRuns(s, q, lo, a, parts, Runs(s, q, lo, a, 1), Runs(s, q, lo, a, 2), own);
  }

  lemma ThreeRuns<T>(s: seq<T>, q: nat, lo: nat, a: nat, parts: nat, one: seq<T>, two: seq<T>, own: seq<T>)
    requires lo + a <= q && |s| == 3 * q && Offset(1, q) == q && Offset(2, q) == 2 * q && Offset(parts, q) == 3 * q
    requires parts == 3 && one == Runs(s, q, lo, a, 1) && two == Runs(s, q, lo, a, 2)
    requires own == Gather(s, a, a, lo, q + lo, q + q + lo)
    ensures own == Runs(s, q, lo, a, parts)
  {
    RunsStep(s, q, lo, a, 1, 0);
    RunsStep(s, q, lo, a, 2, q);
    RunsStep(s, q, lo, a, parts, 2 * q);
    assert one == s[lo..lo + a];
  }

  /** One rank takes every part whole. */
  lemma WholeChunk<T>(s: seq<T>)
    requires s != []
    ensures ChunkAt(s, 1, 0) == Some(s)
  {
    assert Chunk(|s|, 1) == |s| && Offset(0, |s|) == 0;
    assert s[0..|s|] == s;
  }

  /** Three chunks exist unless there are four rows; laid end to end they are the tensor. */
  lemma ThreeChunks<T>(s: seq<T>, m: nat)
    requires |s| >= 3 && m == Chunk(|s|, 3)
    ensures 1 <= m && m < |s| <= 3 * m
    ensures ChunkAt(s, 3, 0) == Some(s[..m])
    ensures |s| == 4 ==> ChunkAt(s, 3, 2) == None
    ensures |s| != 4 ==> 2 * m < |s| && ChunkAt(s, 3, 1) == Some(s[m..2 * m]) && ChunkAt(s, 3, 2) == Some(s[2 * m..])
  {
    OffsetThrice(m);
    assert s[2 * m..|s|] == s[2 * m..] || 2 * m > |s|;
  }

  lemma OneRankLoads<T>(s: seq<T>, parts: nat)
    requires |s| >= 3 && parts == 3
    ensures MergedShard(s, parts, 1, 0, parts) == if |s| == 4 then None else Some(s)
  {
    var m := Chunk(|s|, 3);
    ThreeChunks(s, m);
    if |s| != 4 {
      JoinRuns(s, m, 2 * m);
      assert s == s[..2 * m] + s[2 * m..];
      OneRankJoins(s, s[..m], s[m..2 * m], s[2 * m..], parts);
    }
  }

  lemma OneRankJoins<T>(s: seq<T>, x: seq<T>, y: seq<T>, z: seq<T>, parts: nat)
    requires parts == 3 && ChunkAt(s, parts, 0) == Some(x) && ChunkAt(s, parts, 1) == Some(y)
    requires ChunkAt(s, parts, 2) == Some(z) && x != [] && y != [] && z != []
    ensures MergedShard(s, parts, 1, 0, parts) == Some(x + y + z)
  {
    WholeChunk(x);
    WholeChunk(y);
    WholeChunk(z);
    MergedStep(s, parts, 1, 0, 1, [], x, x);
    assert [] + x == x;
    MergedStep(s, parts, 1, 0, 2, x, y, y);
    MergedStep(s, parts, 1, 0, parts, x + y, z, z);
  }

  lemma OneRankOwnsAll<T>(s: seq<T>, a: nat, b: nat)
    requires |s| == QkvRows(1, a, b)
    ensures |s| == a + 2 * b && OwnSlices(s, 1, a, b, 0) == s
  {
    assert Offset(1, a) == a && Offset(1, b) == b;
    OwnSlicesAre(s, 1, a, b, 0, 0, a, a + b);
  }

  // ---------------------------------------------------------------- where it is not

  /** How the first two pieces of rank 0 begin. */
  lemma FirstPieces<T>(s: seq<T>, tp: nat, r: seq<T>, m: nat, p: nat)
    requires tp >= 1 && |s| >= 3 && MergedShard(s, 3, tp, 0, 3) == Some(r) && m == Chunk(|s|, 3) && p == Chunk(m, tp)
    ensures 1 <= p <= m < |s| && p < |r| && r[p] == s[m] && r[..p] == s[..p]
  {
    ThreeChunks(s, m);
    ChunkWithin(m, tp);
    var first := ChunkAt(s[..m], tp, 0).value;
    assert first == s[..p];
    assert Offset(1, m) == m;
    var part := ChunkAt(s, 3, 1).value;
    var second := ChunkAt(part, tp, 0).value;
    ChunkWithin(|part|, tp);
    assert second[0] == s[m];
    var two := MergedShard(s, 3, tp, 0, 2).value;
    TwoPieces(s, tp, first, second, two);
    assert two == first + second && r[..|two|] == two;
    assert two[p] == second[0] && two[..p] == first;
  }

  lemma TwoPieces<T>(s: seq<T>, tp: nat, first: seq<T>, second: seq<T>, two: seq<T>)
    requires tp >= 1 && ChunkAt(s, 3, 0).Some? && ChunkAt(s, 3, 1).Some?
    requires ChunkAt(ChunkAt(s, 3, 0).value, tp, 0) == Some(first)
    requires ChunkAt(ChunkAt(s, 3, 1).value, tp, 0) == Some(second) && MergedShard(s, 3, tp, 0, 2) == Some(two)
    ensures two == first + second
  {
    MergedStep(s, 3, tp, 0, 1, [], ChunkAt(s, 3, 0).value, first);
    assert [] + first == first;
    MergedStep(s, 3, tp, 0, 2, first, ChunkAt(s, 3, 1).value, second);
  }

  lemma ChunkWithin(n: nat, parts: nat)
    requires n >= 1 && parts >= 1
    ensures 1 <= Chunk(n, parts) <= n
    ensures n >= 2 && parts >= 2 ==> Chunk(n, parts) < n
  {
    var c := Chunk(n, parts);
    ChunkCovers(n, parts);
    if c >= n {
      MulMonotone(n, c, parts);
      MulMonotone(2, parts, n - 1);
    }
    if c == 0 {
      MulMonotone(c, 0, parts);
    }
  }

  /** Sizes that differ by a multiple of the rank count put the first cut inside another part. */
  lemma CutIsElsewhere(tp: nat, a: nat, b: nat, q: nat, k: nat, m: nat)
    requires tp >= 2 && a >= 1 && b >= 1 && a != b && q == Offset(tp, a) && k == Offset(tp, b)
    requires m == Chunk(q + 2 * k, 3)
    ensures q != m && q > a && m >= 2
  {
    OffsetIsProduct(tp, a);
    OffsetIsProduct(tp, b);
    Apart(tp, a, b);
    MulMonotone(2, tp, a);
    MulMonotone(2, tp, b);
    assert 3 * m >= q + 2 * k;
  }

  lemma Apart(tp: nat, a: nat, b: nat)
    requires tp >= 2 && a != b
    ensures tp * a >= tp * b + 2 || tp * b >= tp * a + 2
  {
    if a > b {
      MulMonotone(b + 1, a, tp);
    } else {
      MulMonotone(a + 1, b, tp);
    }
  }

  /** Some row of rank 0 is not the row it should be, whatever the rows hold. */
  lemma Misplaced<T>(s: seq<T>, tp: nat, a: nat, b: nat, r: seq<T>) returns (i: nat, j: nat)
    requires tp >= 2 && a >= 1 && b >= 1 && a != b && |s| == QkvRows(tp, a, b)
    requires MergedShard(s, 3, tp, 0, 3) == Some(r) && |r| == a + 2 * b
    ensures var (x, y, z) := Starts(tp, a, b, 0);
            i < |r| && j < |s| && r[i] == s[j] && Pick(a, b, x, y, z, i) != j
  {
    var q, k := Offset(tp, a), Offset(tp, b);
    assert Starts(tp, a, b, 0) == (0, q, q + k);
    var m := Chunk(|s|, 3);
    var p := Chunk(m, tp);
    CutIsElsewhere(tp, a, b, q, k, m);
    FirstPieces(s, tp, r, m, p);
    ChunkWithin(m, tp);
    if p <= a {
      i, j := p, m;
    } else {
      i, j := a, a;
      assert r[a] == r[..p][a] == s[..p][a];
    }
  }

  // ---------------------------------------------------------------- exactly when

  /** When the layout is right: query, key and value have the same number of rows, or there is one rank and the rows can
      be split in three at all, which four rows cannot. */
  predicate RightLayout(tp: nat, a: nat, b: nat) {
    a == b || (tp == 1 && !(a == 2 && b == 1))
  }

  lemma RightLayoutLoads<T>(s: seq<T>, tp: nat, a: nat, b: nat)
    requires tp >= 1 && a >= 1 && b >= 1 && RightLayout(tp, a, b) && |s| == QkvRows(tp, a, b)
    ensures LoadsOwn(s, tp, a, b)
  {
    if a == b {
      EqualThirdsLoad(s, tp, a);
    } else {
      OneRankOwnsAll(s, a, b);
      OneRankLoads(s, 3);
    }
  }

  /** A weight whose rows tell apart is loaded wrongly, if at all, wherever the layout is not right. */
  lemma WrongLayoutMisloads<T>(s: seq<T>, tp: nat, a: nat, b: nat)
    requires tp >= 1 && a >= 1 && b >= 1 && !RightLayout(tp, a, b) && |s| == QkvRows(tp, a, b) && Distinct(s)
    ensures !LoadsOwn(s, tp, a, b)
  {
    var own := OwnSlices(s, tp, a, b, 0);
    if tp == 1 {
      OneRankOwnsAll(s, a, b);
      OneRankLoads(s, 3);
    } else if MergedShard(s, 3, tp, 0, 3) == Some(own) {
      var i, j := Misplaced(s, tp, a, b, own);
    }
  }

  /** A weight with rows that tell apart. */
  function Numbered(n: nat, cols: nat): (w: Matrix)
    ensures Shape(w, n, cols) && (cols >= 1 ==> Distinct(w))
  {
    var w := seq(n, i requires 0 <= i => Repeat(i as real, cols));
    assert cols >= 1 ==> forall i :: 0 <= i < n ==> w[i][0] == i as real;
    w
  }

  /** Under `merged_qkv` every rank loads its own slices of query, key and value, for every weight of the given sizes,
      if and only if those have the same number of rows, or there is one rank and not exactly four rows. */
  lemma QkvLoadsIff(tp: nat, a: nat, b: nat, cols: nat)
    requires tp >= 1 && a >= 1 && b >= 1 && cols >= 1
    ensures (forall w: Matrix :: Shape(w, QkvRows(tp, a, b), cols) ==> LoadsOwn(w, tp, a, b)) <==> RightLayout(tp, a, b)
  {
    if RightLayout(tp, a, b) {
      forall w: Matrix | Shape(w, QkvRows(tp, a, b), cols) ensures LoadsOwn(w, tp, a, b) {
        RightLayoutLoads(w, tp, a, b);
      }
    } else {
      WrongLayoutMisloads(Numbered(QkvRows(tp, a, b), cols), tp, a, b);
    }
  }

  // ---------------------------------------------------------------- outputs

  /** Every rank's output, which the attention splits by its head counts, is its slice of the unsharded query, key and
      value. */
  ghost predicate ComputesOwn(w: Matrix, bias: Option<seq<real>>, x: seq<real>, tp: nat, a: nat, b: nat)
    requires tp >= 1 && Shape(w, QkvRows(tp, a, b), |x|) && BiasShape(bias, QkvRows(tp, a, b))
  {
    forall rank: nat :: rank < tp ==>
      MergedOutput(w, bias, 3, tp, rank, x) == Some(OwnSlices(Linear(w, bias, x), tp, a, b, rank))
  }

  /** A layer loaded with the rank's own rows computes its own slices of the output. */
  lemma OwnRowsCompute(w: Matrix, bias: Option<seq<real>>, x: seq<real>, tp: nat, a: nat, b: nat, rank: nat)
    requires rank < tp && Shape(w, QkvRows(tp, a, b), |x|) && BiasShape(bias, QkvRows(tp, a, b))
    requires MergedShard(w, 3, tp, rank, 3) == Some(OwnSlices(w, tp, a, b, rank))
    requires bias.Some? ==> MergedShard(bias.value, 3, tp, rank, 3) == Some(OwnSlices(bias.value, tp, a, b, rank))
    ensures MergedOutput(w, bias, 3, tp, rank, x) == Some(OwnSlices(Linear(w, bias, x), tp, a, b, rank))
  {
    var (i, j, k) := Starts(tp, a, b, rank);
    LinearGather(w, bias, x, a, b, i, j, k, Gather(w, a, b, i, j, k), Linear(w, bias, x));
  }

  lemma LinearGather(w: Matrix, bias: Option<seq<real>>, x: seq<real>, a: nat, b: nat, i: nat, j: nat, k: nat,
                     rows: Matrix, y: seq<real>)
    requires i + a <= |w| && j + b <= |w| && k + b <= |w| && Shape(w, |w|, |x|) && BiasShape(bias, |w|)
    requires rows == Gather(w, a, b, i, j, k) && y == Linear(w, bias, x)
    ensures Shape(rows, |rows|, |x|)
    ensures Linear(rows, if bias.Some? then Some(Gather(bias.value, a, b, i, j, k)) else None, x)
         == Gather(y, a, b, i, j, k)
  {
  }

  lemma RightLayoutComputes(w: Matrix, bias: Option<seq<real>>, x: seq<real>, tp: nat, a: nat, b: nat)
    requires tp >= 1 && a >= 1 && b >= 1 && RightLayout(tp, a, b)
    requires Shape(w, QkvRows(tp, a, b), |x|) && BiasShape(bias, QkvRows(tp, a, b))
    ensures ComputesOwn(w, bias, x, tp, a, b)
  {
    RightLayoutLoads(w, tp, a, b);
    if bias.Some? {
      RightLayoutLoads(bias.value, tp, a, b);
    }
    forall rank: nat | rank < tp
      ensures MergedOutput(w, bias, 3, tp, rank, x) == Some(OwnSlices(Linear(w, bias, x), tp, a, b, rank))
    {
      OwnRowsCompute(w, bias, x, tp, a, b, rank);
    }
  }

  lemma NumberedOutput(n: nat)
    ensures Linear(Numbered(n, 1), None, [1.0]) == seq(n, i requires 0 <= i => i as real)
  {
    var w, x := Numbered(n, 1), [1.0];
    forall i | 0 <= i < n ensures Linear(w, None, x)[i] == i as real {
      assert Front(w[i]) == [] && Front(x) == [];
      assert Dot(w[i], x) == Last(w[i]) * Last(x);
    }
  }

  lemma LinearCell(w: Matrix, r: Matrix, x: seq<real>, i: nat, j: nat)
    requires Shape(w, |w|, |x|) && Shape(r, |r|, |x|) && i < |r| && j < |w| && r[i] == w[j]
    ensures Linear(r, None, x)[i] == Linear(w, None, x)[j]
  {
  }

  lemma WrongLayoutMiscomputes(tp: nat, a: nat, b: nat)
    requires tp >= 1 && a >= 1 && b >= 1 && !RightLayout(tp, a, b)
    ensures !ComputesOwn(Numbered(QkvRows(tp, a, b), 1), None, [1.0], tp, a, b)
  {
    var n := QkvRows(tp, a, b);
    var w, x: seq<real> := Numbered(n, 1), [1.0];
    var y := Linear(w, None, x);
    NumberedOutput(n);
    if tp == 1 {
      OneRankOwnsAll(w, a, b);
      OneRankLoads(w, 3);
      assert MergedOutput(w, None, 3, tp, 0, x) == None;
    } else if MergedOutput(w, None, 3, tp, 0, x) == Some(OwnSlices(y, tp, a, b, 0)) {
      var r := MergedShard(w, 3, tp, 0, 3).value;
      var i, j := Misplaced(w, tp, a, b, r);
      LinearCell(w, r, x, i, j);
    }
  }

  /** The same of the outputs, for every weight, bias and input. */
  lemma QkvForwardIff(tp: nat, a: nat, b: nat)
    requires tp >= 1 && a >= 1 && b >= 1
    ensures (forall w: Matrix, bias: Option<seq<real>>, x: seq<real> ::
               Shape(w, QkvRows(tp, a, b), |x|) && BiasShape(bias, QkvRows(tp, a, b)) ==>
                 ComputesOwn(w, bias, x, tp, a, b))
       <==> RightLayout(tp, a, b)
  {
    if RightLayout(tp, a, b) {
      forall w: Matrix, bias: Option<seq<real>>, x: seq<real>
        | Shape(w, QkvRows(tp, a, b), |x|) && BiasShape(bias, QkvRows(tp, a, b))
        ensures ComputesOwn(w, bias, x, tp, a, b)
      {
        RightLayoutComputes(w, bias, x, tp, a, b);
      }
    } else {
      WrongLayoutMiscomputes(tp, a, b);
    }
  }

  /** Eight query rows, two key and two value rows on two ranks: rank 0 loads as many rows as it needs, but two of its
      query rows belong to rank 1, and its value row is a key row of rank 1. */
  lemma GroupedQueryMisloads()
    ensures var rows := [0, 1, 2, 3, 4, 5, 6, 7, 8, 9, 10, 11];
            && |rows| == QkvRows(2, 4, 1)
            && MergedShard(rows, 3, 2, 0, 3) == Some([0, 1, 4, 5, 8, 9])
            && OwnSlices(rows, 2, 4, 1, 0) == [0, 1, 2, 3, 8, 10]
  {
    EightTwoTwo();
    ThreePieces([0, 1, 2, 3, 4, 5, 6, 7, 8, 9, 10, 11], [0, 1, 2, 3], [4, 5, 6, 7], [8, 9, 10, 11]);
    assert [0, 1, 2, 3][..2] + [4, 5, 6, 7][..2] + [8, 9, 10, 11][..2] == [0, 1, 4, 5, 8, 9];
  }

  lemma EightTwoTwo()
    ensures QkvRows(2, 4, 1) == 12
    ensures OwnSlices([0, 1, 2, 3, 4, 5, 6, 7, 8, 9, 10, 11], 2, 4, 1, 0) == [0, 1, 2, 3, 8, 10]
  {
    OffsetThrice(4);
    OffsetThrice(1);
    var rows := [0, 1, 2, 3, 4, 5, 6, 7, 8, 9, 10, 11];
    OwnSlicesAre(rows, 2, 4, 1, 0, 0, 8, 10);
    assert rows[0..4] == [0, 1, 2, 3] && rows[8..9] == [8] && rows[10..11] == [10];
  }

  lemma ThreePieces(rows: seq<int>, x: seq<int>, y: seq<int>, z: seq<int>)
    requires |x| == |y| == |z| == 4 && rows == x + y + z
    ensures MergedShard(rows, 3, 2, 0, 3) == Some(x[..2] + y[..2] + z[..2])
  {
    OffsetThrice(4);
    ShardExact(rows, 3, 4, 0, 0);
    ShardExact(rows, 3, 4, 1, 4);
    ShardExact(rows, 3, 4, 2, 8);
    assert rows[0..4] == x && rows[4..8] == y && rows[8..12] == z;
    FirstHalf(x);
    FirstHalf(y);
    FirstHalf(z);
    MergedStep(rows, 3, 2, 0, 1, [], x, x[..2]);
    assert [] + x[..2] == x[..2];
    MergedStep(rows, 3, 2, 0, 2, x[..2], y, y[..2]);
    MergedStep(rows, 3, 2, 0, 3, x[..2] + y[..2], z, z[..2]);
  }

  lemma FirstHalf(x: seq<int>)
    requires |x| == 4
    ensures ChunkAt(x, 2, 0) == Some(x[..2])
  {
    OffsetThrice(2);
    ShardExact(x, 2, 2, 0, 0);
  }
}
