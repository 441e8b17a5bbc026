/** The metrics and the loss of sequence-parallel training after `reduce_metrics` and `reduce_loss`, against those of
    the unsharded run. */
module ReducedLoss {
  import opened Prelude
  import opened Pieces
  import opened RealVectors
  import opened SequenceParallel
  import L = LogSoftmaxLoss
  import V = VocabMapping

  // ---------------------------------------------------------------- values computed column by column

  /** One value per column, from the column's logits, its target and its mask. */
  function Cells<X, Y, T>(cell: (X, Y, int) -> T, xs: seq<X>, ys: seq<Y>, ms: seq<int>): (r: seq<T>)
    requires |xs| == |ys| == |ms|
    ensures |r| == |xs| && forall i {:trigger r[i]} :: 0 <= i < |r| ==> r[i] == cell(xs[i], ys[i], ms[i])
  {
    seq(|xs|, i requires 0 <= i < |xs| => cell(xs[i], ys[i], ms[i]))
  }

  lemma CellsAppend<X, Y, T>(cell: (X, Y, int) -> T, xs: seq<X>, ys: seq<Y>, ms: seq<int>, xs': seq<X>, ys': seq<Y>,
                             ms': seq<int>)
    requires |xs| == |ys| == |ms| && |xs'| == |ys'| == |ms'|
    ensures Cells(cell, xs + xs', ys + ys', ms + ms') == Cells(cell, xs, ys, ms) + Cells(cell, xs', ys', ms')
  {
  }

  /** The columns of all ranks but those of the padding: `xs` holds the logits of all ranks end to end. */
  ghost function RankCells<X, Y, T>(cell: (X, Y, int) -> T, xs: seq<X>, yss: seq<seq<Y>>, mss: seq<seq<int>>,
                                    c: nat): (r: seq<seq<T>>)
    requires |yss| == |mss| && |xs| == Offset(|yss|, c) && forall r :: 0 <= r < |yss| ==> |yss[r]| == |mss[r]| == c
    ensures |r| == |yss|
    decreases |yss|
  {
    if yss == [] then []
    else
      var m := |yss| - 1;
      var lo := Offset(m, c);
      RankCells(cell, xs[..lo], yss[..m], mss[..m], c) + [Cells(cell, xs[lo..], yss[m], mss[m])]
  }

  lemma {:induction false} RankCellsAt<X, Y, T>(cell: (X, Y, int) -> T, xs: seq<X>, yss: seq<seq<Y>>,
                                                mss: seq<seq<int>>, c: nat, r: nat)
    requires |yss| == |mss| && |xs| == Offset(|yss|, c) && forall r :: 0 <= r < |yss| ==> |yss[r]| == |mss[r]| == c
    requires r < |yss|
    ensures Offset(r, c) + c <= |xs|
    ensures RankCells(cell, xs, yss, mss, c)[r] == Cells(cell, xs[Offset(r, c)..Offset(r, c) + c], yss[r], mss[r])
    decreases |yss|
  {
    var m := |yss| - 1;
    var lo := Offset(m, c);
    if r < m {
      RankCellsAt(cell, xs[..lo], yss[..m], mss[..m], c, r);
      assert xs[..lo][Offset(r, c)..Offset(r, c) + c] == xs[Offset(r, c)..Offset(r, c) + c];
    } else {
      assert xs[lo..] == xs[lo..lo + c];
    }
  }

  /** What the ranks compute on their columns is what is computed on all columns. */
  lemma {:induction false} RankCellsConcat<X, Y, T>(cell: (X, Y, int) -> T, xs: seq<X>, yss: seq<seq<Y>>,
                                                    mss: seq<seq<int>>, c: nat, parts: seq<seq<T>>, ys: seq<Y>,
                                                    ms: seq<int>)
    requires |yss| == |mss| && |xs| == Offset(|yss|, c) && forall r :: 0 <= r < |yss| ==> |yss[r]| == |mss[r]| == c
    requires parts == RankCells(cell, xs, yss, mss, c) && ys == Concat(yss) && ms == Concat(mss)
    ensures |ys| == |ms| == |xs| && Concat(parts) == Cells(cell, xs, ys, ms)
    decreases |yss|
  {
    if yss != [] {
      var m := |yss| - 1;
      var lo := Offset(m, c);
      var before, a, b := RankCells(cell, xs[..lo], yss[..m], mss[..m], c), Concat(yss[..m]), Concat(mss[..m]);
      RankCellsConcat(cell, xs[..lo], yss[..m], mss[..m], c, before, a, b);
      OneMoreRank(cell, xs, lo, a, b, yss[m], mss[m], before, parts);
    }
  }

  lemma OneMoreRank<X, Y, T>(cell: (X, Y, int) -> T, xs: seq<X>, lo: nat, ys: seq<Y>, ms: seq<int>, ys': seq<Y>,
                             ms': seq<int>, before: seq<seq<T>>, parts: seq<seq<T>>)
    requires lo == |ys| == |ms| <= |xs| && |xs| - lo == |ys'| == |ms'|
          && Concat(before) == Cells(cell, xs[..lo], ys, ms)
    requires parts == before + [Cells(cell, xs[lo..], ys', ms')]
    ensures Concat(parts) == Cells(cell, xs, ys + ys', ms + ms')
  {
    CellsAppend(cell, xs[..lo], ys, ms, xs[lo..], ys', ms');
    assert xs == xs[..lo] + xs[lo..];
    assert parts[..|before|] == before;
  }

  /** A cell that is 0 wherever its mask is. */
  ghost predicate Masked<X(!new), Y(!new)>(cell: (X, Y, int) -> real) {
    forall x, y :: cell(x, y, 0) == 0.0
  }

  /** Padding without mask adds only zeros. */
  lemma PaddedCells<X(!new), Y(!new)>(cell: (X, Y, int) -> real, xs: seq<X>, ys: seq<Y>, ms: seq<int>, filler: Y,
                                      pad: nat)
    requires Masked(cell) && |ys| == |ms| && |xs| == |ys| + pad
    ensures |ys| <= |xs|
    ensures Cells(cell, xs, ys + Repeat(filler, pad), ms + Repeat(0, pad)) == Cells(cell, xs[..|ys|], ys, ms)
              + Repeat(0.0, pad)
  {
    var n := |ys|;
    CellsAppend(cell, xs[..n], ys, ms, xs[n..], Repeat(filler, pad), Repeat(0, pad));
    assert xs == xs[..n] + xs[n..];
    assert Cells(cell, xs[n..], Repeat(filler, pad), Repeat(0, pad)) == Repeat(0.0, pad);
  }

  // ---------------------------------------------------------------- sums and means over padded columns

  lemma {:induction false} TotalOfConcat(parts: seq<seq<real>>)
    ensures Total(Concat(parts)) == Total(Totals(parts))
  {
    if parts != [] {
      var front, last := parts[..|parts| - 1], parts[|parts| - 1];
      TotalOfConcat(front);
      TotalAppend(Concat(front), last);
      assert Front(Totals(parts)) == Totals(front);
    }
  }

  /** Each rank's local sum. */
  function Totals(parts: seq<seq<real>>): (r: seq<real>)
    ensures |r| == |parts|
  {
    seq(|parts|, i requires 0 <= i < |parts| => Total(parts[i]))
  }

  lemma {:induction false} TotalOfZeros(n: nat)
    ensures Total(Repeat(0.0, n)) == 0.0
  {
    if n > 0 {
      assert Front(Repeat(0.0, n)) == Repeat(0.0, n - 1);
      TotalOfZeros(n - 1);
    }
  }

  /** Summing the ranks' totals gives the unpadded total. */
  lemma PaddedTotal(parts: seq<seq<real>>, whole: seq<real>, pad: nat)
    requires Concat(parts) == whole + Repeat(0.0, pad)
    ensures Total(Totals(parts)) == Total(whole)
  {
    TotalOfConcat(parts);
    TotalAppend(whole, Repeat(0.0, pad));
    TotalOfZeros(pad);
  }

  /** Each rank's mean over its columns, `c` of them. */
  function Means(parts: seq<seq<real>>, c: real): (r: seq<real>)
    requires c > 0.0
    ensures |r| == |parts|
  {
    seq(|parts|, i requires 0 <= i < |parts| => Total(parts[i]) / c)
  }

  /** `reduce_loss`: the ranks' means over `chunk` columns, summed and divided by the number of ranks. */
  function MeanOfMeans(parts: seq<seq<real>>, chunk: nat): real
    requires chunk >= 1 && |parts| >= 1
  {
    Total(Means(parts, chunk as real)) / (|parts| as real)
  }

  /** The means sum to `g == 1 / c` times the total. */
  lemma MeansOfParts(parts: seq<seq<real>>, c: real, g: real, t: real)
    requires c > 0.0 && g == 1.0 / c && t == Total(Totals(parts))
    ensures Total(Means(parts, c)) == g * t
  {
    var means, totals := Means(parts, c), Totals(parts);
    forall i | 0 <= i < |means| ensures means[i] == Scale(g, totals[i]) {
      Reciprocal(c, totals[i], g);
    }
    TotalScaled(means, totals, g, t);
  }

  function Scale(g: real, x: real): real {
    g * x
  }

  lemma {:induction false} TotalScaled(a: seq<real>, b: seq<real>, g: real, t: real)
    requires |a| == |b| && t == Total(b) && forall i {:trigger a[i]} :: 0 <= i < |a| ==> a[i] == Scale(g, b[i])
    ensures Total(a) == g * t
  {
    if a != [] {
      var t0 := Total(Front(b));
      TotalScaled(Front(a), Front(b), g, t0);
      AddScaled(g, t0, Last(b));
      assert Last(a) == Scale(g, Last(b));
    }
  }

  lemma AddScaled(g: real, a: real, b: real)
    ensures g * a + g * b == g * (a + b)
  {
  }

  /** The reduced loss is the mean over all `n * c` columns, padding included. */
  lemma MeanOfMeansIsPaddedMean(parts: seq<seq<real>>, c: real, n: real, whole: seq<real>, pad: nat, x: real, q: real,
                                t: real, m: real)
    requires c > 0.0 && n > 0.0 && Concat(parts) == whole + Repeat(0.0, pad)
    requires x == Total(Means(parts, c)) && q == x / n && t == Total(whole) && m == n * c
    ensures q * m == t
  {
    var g := 1.0 / c;
    PaddedTotal(parts, whole, pad);
    MeansOfParts(parts, c, g, t);
    CancelSizes(g, c, n, t, x, q, m);
  }

  lemma CancelSizes(g: real, c: real, n: real, t: real, x: real, q: real, nc: real)
    requires c > 0.0 && n > 0.0 && g == 1.0 / c && x == g * t && q == x / n && nc == n * c
    ensures q * nc == t
  {
    assert g * c == 1.0;
    assert q * n == x;
    Associate(q, n, c);
    Associate(t, g, c);
  }

  /** A mean over padded columns is the mean over the columns themselves exactly when nothing was padded or all adds up
      to 0. */
  lemma PaddedMeanIff(parts: seq<seq<real>>, chunk: nat, whole: seq<real>, pad: nat)
    requires chunk >= 1 && |parts| >= 1 && whole != [] && |parts| * chunk == |whole| + pad
    requires Concat(parts) == whole + Repeat(0.0, pad)
    ensures MeanOfMeans(parts, chunk) == Total(whole) / (|whole| as real) <==> pad == 0 || Total(whole) == 0.0
  {
    var c, n, w := chunk as real, |parts| as real, |whole| as real;
    var x, t := Total(Means(parts, c)), Total(whole);
    ProductOfSizes(|parts|, chunk, |whole|, pad, n, c);
    ReducedAgainst(parts, c, n, whole, pad, x, x / n, t, w, w + (pad as real));
  }

  lemma ReducedAgainst(parts: seq<seq<real>>, c: real, n: real, whole: seq<real>, pad: nat, x: real, q: real, t: real,
                       w: real, m: real)
    requires c > 0.0 && n > 0.0 && w > 0.0 && m >= w && Concat(parts) == whole + Repeat(0.0, pad)
    requires x == Total(Means(parts, c)) && q == x / n && t == Total(whole) && m == n * c
    ensures q == t / w <==> m == w || t == 0.0
  {
    MeanOfMeansIsPaddedMean(parts, c, n, whole, pad, x, q, t, m);
    SameMean(q, t, w, m, t / w);
  }

  lemma ProductOfSizes(a: nat, b: nat, n: nat, pad: nat, ra: real, rb: real)
    requires a * b == n + pad && ra == a as real && rb == b as real
    ensures ra * rb == (n as real) + (pad as real)
  {
    assert (a * b) as real == (a as real) * (b as real);
  }

  lemma SameMean(q: real, t: real, n: real, m: real, mean: real)
    requires n > 0.0 && m >= n && q * m == t && mean == t / n
    ensures q == mean <==> m == n || t == 0.0
  {
    assert mean * n == t;
    if q == mean {
      assert q * (m - n) == 0.0;
    }
    if t == 0.0 {
      assert q == 0.0 && mean == 0.0;
    }
  }

  // ---------------------------------------------------------------- the columns of a step

  /** Logits for every column of every rank, of the width of the target distributions. */
  ghost predicate Fits<R(!new), H>(s: Setup<R, seq<real>, H>, logits: seq<seq<real>>, width: nat) {
    && s.Ok() && s.GlobalLen() >= 1 && |logits| == Offset(s.size, s.ChunkSize())
    && (forall i :: 0 <= i < |logits| ==> |logits[i]| == width)
    && (forall row :: |s.head.p(row)| == width)
  }

  /** `views` are what the ranks' loops show in step `k`, `whole` what the unsharded loop shows. */
  ghost predicate Steps<R, H>(s: Setup<R, seq<real>, H>, k: nat, hiddens: seq<seq<H>>, hidden: seq<H>,
                              views: seq<StepView<seq<real>, H>>, whole: StepView<seq<real>, H>)
    requires s.Ok()
  {
    && |views| == |hiddens| == s.size
    && (forall r: nat :: r < s.size ==>
          StepOf(Usp(s.PlaceOf(r).Ulysses()), s.head, s.tttLength, s.RankSample(r), k, hiddens[r]) == Some(views[r]))
    && var sample := ProcessData(s.inputIds, s.lossMask, s.target, s.hidden, s.maxLen);
       && sample.Some? && |sample.value.target| == |sample.value.lossMask|
       && StepOf(SdpaLike, s.head, s.tttLength, Preprocess(sample.value, s.zeroRow), k, hidden) == Some(whole)
  }

  function Targets<H>(views: seq<StepView<seq<real>, H>>): (r: seq<seq<seq<real>>>)
    ensures |r| == |views| && forall i {:trigger r[i]} :: 0 <= i < |r| ==> r[i] == views[i].targetP
  {
    seq(|views|, i requires 0 <= i < |views| => views[i].targetP)
  }

  function PositionMasks<H>(views: seq<StepView<seq<real>, H>>): (r: seq<seq<int>>)
    ensures |r| == |views| && forall i {:trigger r[i]} :: 0 <= i < |r| ==> r[i] == views[i].positionMask
  {
    seq(|views|, i requires 0 <= i < |views| => views[i].positionMask)
  }

  function LossMasks<H>(views: seq<StepView<seq<real>, H>>): (r: seq<seq<int>>)
    ensures |r| == |views| && forall i {:trigger r[i]} :: 0 <= i < |r| ==> r[i] == views[i].lossMask
  {
    seq(|views|, i requires 0 <= i < |views| => views[i].lossMask)
  }

  /** The same steps as pieces and shifts of the global tensors. */
  ghost predicate Pieced<R, H>(s: Setup<R, seq<real>, H>, k: nat, hiddens: seq<seq<H>>, hidden: seq<H>,
                               views: seq<StepView<seq<real>, H>>, whole: StepView<seq<real>, H>)
    requires s.Ok()
  {
    && |views| == |hiddens| == s.size && whole == s.GlobalStep(k, hidden)
    && forall r: nat {:trigger views[r]} :: r < s.size ==> views[r] == s.RankStep(k, r, hiddens[r])
  }

  lemma StepsArePieces<R, H>(s: Setup<R, seq<real>, H>, k: nat, hiddens: seq<seq<H>>, hidden: seq<H>,
                             views: seq<StepView<seq<real>, H>>, whole: StepView<seq<real>, H>)
    requires s.Ok() && s.GlobalLen() >= 1 && k < s.tttLength && Steps(s, k, hiddens, hidden, views, whole)
    ensures Pieced(s, k, hiddens, hidden, views, whole)
  {
    GlobalStepIs(s, k, hidden);
    forall r: nat | r < s.size ensures views[r] == s.RankStep(k, r, hiddens[r]) {
      RankStepIs(s, k, r, hiddens[r]);
    }
  }

  /** The ranks' targets and masks, end to end, are the unsharded ones and padding without mask. */
  lemma StepColumns<R, H>(s: Setup<R, seq<real>, H>, k: nat, hiddens: seq<seq<H>>, hidden: seq<H>,
                          views: seq<StepView<seq<real>, H>>, whole: StepView<seq<real>, H>)
    requires s.Ok() && k < s.tttLength && Pieced(s, k, hiddens, hidden, views, whole)
    ensures Concat(Targets(views)) == whole.targetP + Repeat(s.head.uniform, Pad(s))
    ensures Concat(PositionMasks(views)) == whole.positionMask + Repeat(0, Pad(s))
    ensures Concat(LossMasks(views)) == whole.lossMask + Repeat(0, Pad(s))
  {
    var n, c, o := s.GlobalLen(), s.ChunkSize(), s.tttLength;
    assert Targets(views) == RankViews(s.Probs(), s.head.uniform, n, c, o, k, s.size);
    assert PositionMasks(views) == RankViews(s.Positions(), 0, n, c, o, k, s.size);
    assert LossMasks(views) == RankViews(s.Loss(), 0, n, c, o, k, s.size);
    ShardsReproduceWhole(s.Positions(), 0, o, k, s.size);
    ShardsReproduceWhole(s.Loss(), 0, o, k, s.size);
    ShardsReproduceWhole(s.Probs(), s.head.uniform, o, k, s.size);
  }

  /** Columns of the ranks and of the unsharded run on which losses and counts can be taken. */
  ghost predicate Shaped<H>(logits: seq<seq<real>>, views: seq<StepView<seq<real>, H>>, whole: StepView<seq<real>, H>,
                            n: nat, c: nat, width: nat)
  {
    && |logits| == Offset(|views|, c) && n <= |logits| && (forall i :: 0 <= i < |logits| ==> |logits[i]| == width)
    && (forall r :: 0 <= r < |views| ==> ViewFits(views[r], c, width))
    && ViewFits(whole, n, width)
  }

  ghost predicate ViewFits<H>(view: StepView<seq<real>, H>, c: nat, width: nat) {
    && |view.targetP| == |view.positionMask| == |view.lossMask| == c
    && forall i :: 0 <= i < c ==> |view.targetP[i]| == width
  }

  lemma StepsShaped<R(!new), H>(s: Setup<R, seq<real>, H>, k: nat, hiddens: seq<seq<H>>, hidden: seq<H>,
                                views: seq<StepView<seq<real>, H>>, whole: StepView<seq<real>, H>,
                                logits: seq<seq<real>>, width: nat)
    requires Fits(s, logits, width) && k < s.tttLength && Pieced(s, k, hiddens, hidden, views, whole)
    ensures Shaped(logits, views, whole, s.GlobalLen(), s.ChunkSize(), width)
  {
    forall r: nat | r < s.size ensures ViewFits(views[r], s.ChunkSize(), width) {
      RankStepFits(s, k, r, hiddens[r], width);
    }
    GlobalStepFits(s, k, hidden, width);
    PadIs(s);
  }

  lemma RankStepFits<R(!new), H>(s: Setup<R, seq<real>, H>, k: nat, rank: nat, hidden: seq<H>, width: nat)
    requires s.Ok() && k <= s.tttLength && forall row :: |s.head.p(row)| == width
    ensures ViewFits(s.RankStep(k, rank, hidden), s.ChunkSize(), width)
  {
    ViewWidth(s, k, rank, width);
  }

  lemma GlobalStepFits<R(!new), H>(s: Setup<R, seq<real>, H>, k: nat, hidden: seq<H>, width: nat)
    requires s.Ok() && forall row :: |s.head.p(row)| == width
    ensures ViewFits(s.GlobalStep(k, hidden), s.GlobalLen(), width)
  {
    WholeWidth(s, k, width, s.GlobalStep(k, hidden).targetP);
  }

  lemma ViewWidth<R(!new), H>(s: Setup<R, seq<real>, H>, k: nat, rank: nat, width: nat)
    requires s.Ok() && k <= s.tttLength && forall row :: |s.head.p(row)| == width
    ensures var view := RankView(s.Probs(), s.head.uniform, s.GlobalLen(), s.ChunkSize(), s.tttLength, k, rank);
            forall i :: 0 <= i < |view| ==> |view[i]| == width
  {
    var n, c, o := s.GlobalLen(), s.ChunkSize(), s.tttLength;
    var view := RankView(s.Probs(), s.head.uniform, n, c, o, k, rank);
    forall i | 0 <= i < |view| ensures |view[i]| == width {
      RankViewAt(s.Probs(), s.head.uniform, n, c, o, k, rank, i);
      SlicePrefix(s.Probs(), n);
      ProbAt(s, Offset(rank, c) + i + k);
    }
  }

  lemma WholeWidth<R(!new), H>(s: Setup<R, seq<real>, H>, k: nat, width: nat, row: seq<seq<real>>)
    requires s.Ok() && (forall row :: |s.head.p(row)| == width) && row == ShiftTimes(s.Probs(), s.head.uniform, k)
    ensures forall i :: 0 <= i < |row| ==> |row[i]| == width
  {
    forall i | 0 <= i < |row| ensures |row[i]| == width {
      ShiftedAt(s.Probs(), s.head.uniform, k, i);
      ProbAt(s, i + k);
    }
  }

  // ---------------------------------------------------------------- counts

  /** `(logits.argmax(-1) == target_p.argmax(-1)) * position_mask`, one column. */
  function CorrectCell(x: seq<real>, p: seq<real>, m: int): real {
    if x != [] && p != [] && V.FirstArgmax(x) == V.FirstArgmax(p) then m as real else 0.0
  }

  function MaskCell(x: seq<real>, p: seq<real>, m: int): real {
    m as real
  }

  /** Position `a` holds the first of the largest values. */
  ghost predicate IsTop(row: seq<real>, a: nat) {
    && a < |row| && (forall i :: 0 <= i < |row| ==> row[i] <= row[a])
    && forall i :: 0 <= i < a ==> row[i] < row[a]
  }

  /** Logits and target have the same top token. */
  ghost predicate SameTop(x: seq<real>, p: seq<real>) {
    exists a: nat :: IsTop(x, a) && IsTop(p, a)
  }

  lemma CorrectCellIs(x: seq<real>, p: seq<real>, m: int)
    ensures CorrectCell(x, p, m) == if SameTop(x, p) then m as real else 0.0
  {
    if x != [] && p != [] {
      assert IsTop(x, V.FirstArgmax(x)) && IsTop(p, V.FirstArgmax(p));
    }
  }

  /** The columns of a 0/1 mask that count: all of them, or those with the same top token. */
  ghost function Counted(logits: seq<seq<real>>, targetP: seq<seq<real>>, mask: seq<int>, tops: bool): set<nat>
    requires |logits| == |targetP| == |mask|
  {
    set i: nat | i < |mask| && Counts(logits[i], targetP[i], mask[i], tops)
  }

  ghost predicate Counts(x: seq<real>, p: seq<real>, m: int, tops: bool) {
    m == 1 && (tops ==> SameTop(x, p))
  }

  /** For a 0/1 mask the correct columns are counted, and the masked ones. */
  lemma {:induction false} CountIsSize(logits: seq<seq<real>>, targetP: seq<seq<real>>, mask: seq<int>)
    requires |logits| == |targetP| == |mask| && forall i :: 0 <= i < |mask| ==> 0 <= mask[i] <= 1
    ensures Count(CorrectCell, logits, targetP, mask) == |Counted(logits, targetP, mask, true)| as real
    ensures Count(MaskCell, logits, targetP, mask) == |Counted(logits, targetP, mask, false)| as real
  {
    if mask != [] {
      var n := |mask| - 1;
      CountIsSize(logits[..n], targetP[..n], mask[..n]);
      CorrectCellIs(logits[n], targetP[n], mask[n]);
      CountMore(CorrectCell, logits, targetP, mask, n);
      CountMore(MaskCell, logits, targetP, mask, n);
      CountedMore(logits, targetP, mask, n, true);
      CountedMore(logits, targetP, mask, n, false);
    }
  }

  lemma CountMore(cell: (seq<real>, seq<real>, int) -> real, logits: seq<seq<real>>, targetP: seq<seq<real>>,
                  mask: seq<int>, n: nat)
    requires |logits| == |targetP| == |mask| == n + 1
    ensures Count(cell, logits, targetP, mask)
         == Count(cell, logits[..n], targetP[..n], mask[..n]) + cell(logits[n], targetP[n], mask[n])
  {
    var all := Cells(cell, logits, targetP, mask);
    assert Front(all) == Cells(cell, logits[..n], targetP[..n], mask[..n]);
    assert Last(all) == cell(logits[n], targetP[n], mask[n]);
  }

  lemma CountedMore(logits: seq<seq<real>>, targetP: seq<seq<real>>, mask: seq<int>, n: nat, tops: bool)
    requires |logits| == |targetP| == |mask| == n + 1
    ensures |Counted(logits, targetP, mask, tops)| == |Counted(logits[..n], targetP[..n], mask[..n], tops)|
              + if Counts(logits[n], targetP[n], mask[n], tops) then 1 else 0
  {
    var all, before := Counted(logits, targetP, mask, tops), Counted(logits[..n], targetP[..n], mask[..n], tops);
    var xs, ps, ms := logits[..n], targetP[..n], mask[..n];
    forall i: nat | i < n ensures i in all <==> i in before {
      assert xs[i] == logits[i] && ps[i] == targetP[i] && ms[i] == mask[i];
    }
    OneMoreMember(all, before, n, Counts(logits[n], targetP[n], mask[n], tops));
  }

  lemma OneMoreMember(all: set<nat>, before: set<nat>, n: nat, more: bool)
    requires (forall i :: i in all ==> i <= n) && (forall i :: i in before ==> i < n)
    requires (forall i: nat :: i < n ==> (i in all <==> i in before)) && (n in all <==> more)
    ensures |all| == |before| + if more then 1 else 0
  {
    assert all == before + if more then {n} else {};
  }

  /** What a rank, or the unsharded run, adds up over its columns. */
  ghost function Count(cell: (seq<real>, seq<real>, int) -> real, logits: seq<seq<real>>, targetP: seq<seq<real>>,
                       mask: seq<int>): real
    requires |logits| == |targetP| == |mask|
  {
    Total(Cells(cell, logits, targetP, mask))
  }

  /** `reduce_metrics`: the sum over the ranks, each counting its own columns under the given masks. */
  ghost function SumOfCounts<H>(cell: (seq<real>, seq<real>, int) -> real, logits: seq<seq<real>>,
                                views: seq<StepView<seq<real>, H>>, masks: seq<seq<int>>, c: nat): real
    requires |masks| == |views| && |logits| == Offset(|views|, c)
    requires forall r :: 0 <= r < |views| ==> |views[r].targetP| == |masks[r]| == c
  {
    Total(Totals(RankCells(cell, logits, Targets(views), masks, c)))
  }

  /** A masked count over padded columns is the unpadded count. */
  lemma CountsAgree<H>(cell: (seq<real>, seq<real>, int) -> real, logits: seq<seq<real>>,
                       views: seq<StepView<seq<real>, H>>, masks: seq<seq<int>>, c: nat, targetP: seq<seq<real>>,
                       mask: seq<int>, filler: seq<real>, pad: nat)
    requires |masks| == |views| && |logits| == Offset(|views|, c) && Masked(cell)
    requires forall r :: 0 <= r < |views| ==> |views[r].targetP| == |masks[r]| == c
    requires |targetP| == |mask| && |logits| == |mask| + pad
    requires Concat(Targets(views)) == targetP + Repeat(filler, pad) && Concat(masks) == mask + Repeat(0, pad)
    ensures SumOfCounts(cell, logits, views, masks, c) == Count(cell, logits[..|mask|], targetP, mask)
  {
    var parts := RankCells(cell, logits, Targets(views), masks, c);
    RankCellsConcat(cell, logits, Targets(views), masks, c, parts, Concat(Targets(views)), Concat(masks));
    PaddedCells(cell, logits, targetP, mask, filler, pad);
    PaddedTotal(parts, Cells(cell, logits[..|mask|], targetP, mask), pad);
  }

  /** Correct columns and masked columns, summed over the ranks and counted without sharding. */
  ghost predicate SameCounts<H>(logits: seq<seq<real>>, views: seq<StepView<seq<real>, H>>,
                                whole: StepView<seq<real>, H>, n: nat, c: nat, width: nat)
    requires Shaped(logits, views, whole, n, c, width)
  {
    && SumOfCounts(CorrectCell, logits, views, PositionMasks(views), c)
       == Count(CorrectCell, logits[..n], whole.targetP, whole.positionMask)
    && SumOfCounts(MaskCell, logits, views, LossMasks(views), c)
      == Count(MaskCell, logits[..n], whole.targetP, whole.lossMask)
  }

  /** The summed counts of correct and of masked columns, from which the accuracy is taken, are the unsharded counts. */
  lemma ShardedCountsExact<R(!new), H>(s: Setup<R, seq<real>, H>, k: nat, hiddens: seq<seq<H>>, hidden: seq<H>,
                                       views: seq<StepView<seq<real>, H>>, whole: StepView<seq<real>, H>,
                                       logits: seq<seq<real>>, width: nat)
    requires Fits(s, logits, width) && k < s.tttLength && Steps(s, k, hiddens, hidden, views, whole)
    ensures Shaped(logits, views, whole, s.GlobalLen(), s.ChunkSize(), width)
    ensures SameCounts(logits, views, whole, s.GlobalLen(), s.ChunkSize(), width)
  {
    StepsArePieces(s, k, hiddens, hidden, views, whole);
    StepsShaped(s, k, hiddens, hidden, views, whole, logits, width);
    StepColumns(s, k, hiddens, hidden, views, whole);
    PadIs(s);
    MetricsAgree(logits, views, whole, s.GlobalLen(), s.ChunkSize(), width, s.head.uniform, Pad(s));
  }

  lemma MetricsAgree<H>(logits: seq<seq<real>>, views: seq<StepView<seq<real>, H>>, whole: StepView<seq<real>, H>,
                        n: nat, c: nat, width: nat, filler: seq<real>, pad: nat)
    requires Shaped(logits, views, whole, n, c, width) && |logits| == n + pad
    requires Concat(Targets(views)) == whole.targetP + Repeat(filler, pad)
    requires Concat(PositionMasks(views)) == whole.positionMask + Repeat(0, pad)
    requires Concat(LossMasks(views)) == whole.lossMask + Repeat(0, pad)
    ensures SameCounts(logits, views, whole, n, c, width)
  {
    CountsAgree(CorrectCell, logits, views, PositionMasks(views), c, whole.targetP, whole.positionMask, filler, pad);
    CountsAgree(MaskCell, logits, views, LossMasks(views), c, whole.targetP, whole.lossMask, filler, pad);
  }

  lemma PadIs<R, P, H>(s: Setup<R, P, H>)
    requires s.size >= 1
    ensures Offset(s.size, s.ChunkSize()) == s.GlobalLen() + Pad(s)
    ensures Pad(s) == 0 <==> s.GlobalLen() % s.size == 0
  {
    OffsetIsProduct(s.size, s.ChunkSize());
    NoPaddingIffDivides(s.GlobalLen(), s.size);
  }

  // ---------------------------------------------------------------- loss

  /** The kernel's loss of one column. */
  ghost function LossCell(f: L.Fns, x: seq<real>, p: seq<real>, m: int): real
    requires f.Lawful()
  {
    if m == 0 || |x| != |p| then 0.0 else L.RowLoss(f, x, p)
  }

  /** The columns of the logits that belong to rank `r`. */
  ghost function RankColumns(logits: seq<seq<real>>, r: nat, ranks: nat, c: nat, width: nat): (run: seq<seq<real>>)
    requires r < ranks && |logits| == Offset(ranks, c) && forall i :: 0 <= i < |logits| ==> |logits[i]| == width
    ensures |run| == c && forall i :: 0 <= i < |run| ==> |run[i]| == width
  {
    OffsetMonotone(r + 1, ranks, c);
    logits[Offset(r, c)..Offset(r, c) + c]
  }

  /** What the `LogSoftmaxLoss` of rank `r` returns for the rank's columns of the logits. */
  ghost function RankLoss<H>(f: L.Fns, logits: seq<seq<real>>, view: StepView<seq<real>, H>, r: nat, ranks: nat, c: nat,
                             width: nat): real
    requires f.Lawful() && c >= 1 && r < ranks && |logits| == Offset(ranks, c) && ViewFits(view, c, width)
    requires forall i :: 0 <= i < |logits| ==> |logits[i]| == width
  {
    L.MeanLoss(f, RankColumns(logits, r, ranks, c, width), view.targetP, view.positionMask)
  }

  ghost function RankLosses<H>(f: L.Fns, logits: seq<seq<real>>, views: seq<StepView<seq<real>, H>>, c: nat,
                               width: nat): (r: seq<real>)
    requires f.Lawful() && c >= 1 && |logits| == Offset(|views|, c) && forall i :: 0 <= i < |logits| ==>
               |logits[i]| == width
    requires forall r :: 0 <= r < |views| ==> ViewFits(views[r], c, width)
    ensures |r| == |views| && forall i :: 0 <= i < |r| ==> r[i] == RankLoss(f, logits, views[i], i, |views|, c, width)
  {
    seq(|views|, i requires 0 <= i < |views| => RankLoss(f, logits, views[i], i, |views|, c, width))
  }

  lemma LossesAreCells(f: L.Fns, cell: (seq<real>, seq<real>, int) -> real, logits: seq<seq<real>>,
                       targetP: seq<seq<real>>, mask: seq<int>)
    requires f.Lawful() && |logits| == |targetP| == |mask| && forall i :: 0 <= i < |logits| ==>
               |logits[i]| == |targetP[i]|
    requires forall x, p, m :: cell(x, p, m) == LossCell(f, x, p, m)
    ensures L.RowLosses(f, logits, targetP, mask) == Cells(cell, logits, targetP, mask)
  {
  }

  /** The ranks' losses are the means of their columns. */
  lemma RankLossesAreMeans<H>(f: L.Fns, cell: (seq<real>, seq<real>, int) -> real, logits: seq<seq<real>>,
                              views: seq<StepView<seq<real>, H>>, c: nat, width: nat)
    requires f.Lawful() && c >= 1 && |logits| == Offset(|views|, c) && forall i :: 0 <= i < |logits| ==>
               |logits[i]| == width
    requires forall r :: 0 <= r < |views| ==> ViewFits(views[r], c, width)
    requires forall x, p, m :: cell(x, p, m) == LossCell(f, x, p, m)
    ensures RankLosses(f, logits, views, c, width)
         == Means(RankCells(cell, logits, Targets(views), PositionMasks(views), c), c as real)
  {
    var ts, ms := Targets(views), PositionMasks(views);
    var parts := RankCells(cell, logits, ts, ms, c);
    forall r | 0 <= r < |views| ensures RankLosses(f, logits, views, c, width)[r] == Total(parts[r]) / (c as real) {
      RankCellsAt(cell, logits, ts, ms, c, r);
      RankLossIsMean(f, cell, logits, views[r], r, |views|, c, width, RankColumns(logits, r, |views|, c, width),
                     parts[r]);
    }
  }

  lemma RankLossIsMean<H>(f: L.Fns, cell: (seq<real>, seq<real>, int) -> real, logits: seq<seq<real>>,
                          view: StepView<seq<real>, H>, r: nat, ranks: nat, c: nat, width: nat, run: seq<seq<real>>,
                          part: seq<real>)
    requires f.Lawful() && c >= 1 && r < ranks && |logits| == Offset(ranks, c) && ViewFits(view, c, width)
    requires forall i :: 0 <= i < |logits| ==> |logits[i]| == width
    requires forall x, p, m :: cell(x, p, m) == LossCell(f, x, p, m)
    requires run == RankColumns(logits, r, ranks, c, width) && part == Cells(cell, run, view.targetP, view.positionMask)
    ensures RankLoss(f, logits, view, r, ranks, c, width) == Total(part) / (c as real)
  {
    MeanOfRun(f, cell, run, view.targetP, view.positionMask, part);
  }

  lemma MeanOfRun(f: L.Fns, cell: (seq<real>, seq<real>, int) -> real, run: seq<seq<real>>, targetP: seq<seq<real>>,
                  mask: seq<int>, part: seq<real>)
    requires f.Lawful() && |run| == |targetP| == |mask| > 0 && forall i :: 0 <= i < |run| ==> |run[i]| == |targetP[i]|
    requires forall x, p, m :: cell(x, p, m) == LossCell(f, x, p, m)
    requires part == Cells(cell, run, targetP, mask)
    ensures L.MeanLoss(f, run, targetP, mask) == Total(part) / (|run| as real)
  {
    LossesAreCells(f, cell, run, targetP, mask);
  }

  /** `reduce_loss`: the ranks' losses, summed and divided by the number of ranks. */
  ghost function Reduced<H>(f: L.Fns, logits: seq<seq<real>>, views: seq<StepView<seq<real>, H>>, c: nat,
                            width: nat): real
    requires f.Lawful() && c >= 1 && |logits| == Offset(|views|, c) && forall i :: 0 <= i < |logits| ==>
               |logits[i]| == width
    requires views != [] && forall r :: 0 <= r < |views| ==> ViewFits(views[r], c, width)
  {
    Total(RankLosses(f, logits, views, c, width)) / (|views| as real)
  }

  /** The loss of the run that is not sharded. */
  ghost function Unsharded<H>(f: L.Fns, logits: seq<seq<real>>, view: StepView<seq<real>, H>, n: nat, width: nat): real
    requires f.Lawful() && 1 <= n <= |logits| && ViewFits(view, n, width) && forall i :: 0 <= i < |logits| ==>
               |logits[i]| == width
  {
    L.MeanLoss(f, logits[..n], view.targetP, view.positionMask)
  }

  /** `reduce_loss` after every rank's loss on its own columns: the result is the unsharded loss if and only if the
      number of ranks divides the length, so that nothing was padded, or there is no loss. */
  lemma ShardedLossExactIff<R(!new), H>(f: L.Fns, s: Setup<R, seq<real>, H>, k: nat, hiddens: seq<seq<H>>,
                                        hidden: seq<H>, views: seq<StepView<seq<real>, H>>,
                                        whole: StepView<seq<real>, H>, logits: seq<seq<real>>, width: nat)
    requires f.Lawful() && Fits(s, logits, width) && k < s.tttLength && Steps(s, k, hiddens, hidden, views, whole)
    ensures s.ChunkSize() >= 1 && Shaped(logits, views, whole, s.GlobalLen(), s.ChunkSize(), width)
    ensures Reduced(f, logits, views, s.ChunkSize(), width) == Unsharded(f, logits, whole, s.GlobalLen(), width)
       <==> s.GlobalLen() % s.size == 0 || Unsharded(f, logits, whole, s.GlobalLen(), width) == 0.0
  {
    var n, c := s.GlobalLen(), s.ChunkSize();
    ChunkAtLeastOne(n, s.size);
    StepsArePieces(s, k, hiddens, hidden, views, whole);
    StepsShaped(s, k, hiddens, hidden, views, whole, logits, width);
    StepColumns(s, k, hiddens, hidden, views, whole);
    PadIs(s);
    LossOfColumns(f, logits, views, whole, n, c, width, s.head.uniform, Pad(s));
  }

  lemma LossOfColumns<H>(f: L.Fns, logits: seq<seq<real>>, views: seq<StepView<seq<real>, H>>,
                         whole: StepView<seq<real>, H>, n: nat, c: nat, width: nat, filler: seq<real>, pad: nat)
    requires f.Lawful() && c >= 1 && n >= 1 && views != [] && Shaped(logits, views, whole, n, c, width)
          && |logits| == n + pad
    requires Concat(Targets(views)) == whole.targetP + Repeat(filler, pad)
    requires Concat(PositionMasks(views)) == whole.positionMask + Repeat(0, pad)
    ensures Reduced(f, logits, views, c, width) == Unsharded(f, logits, whole, n, width)
       <==> pad == 0 || Unsharded(f, logits, whole, n, width) == 0.0
  {
    var cell := (x: seq<real>, p: seq<real>, m: int) => LossCell(f, x, p, m);
    var ts, ms := Targets(views), PositionMasks(views);
    var parts, row := RankCells(cell, logits, ts, ms, c), Cells(cell, logits[..n], whole.targetP, whole.positionMask);
    RankCellsConcat(cell, logits, ts, ms, c, parts, Concat(ts), Concat(ms));
    PaddedCells(cell, logits, whole.targetP, whole.positionMask, filler, pad);
    RankLossesAreMeans(f, cell, logits, views, c, width);
    ReducedIsMean(f, logits, views, c, width, parts);
    MeanOfRun(f, cell, logits[..n], whole.targetP, whole.positionMask, row);
    MeansCompared(parts, c, row, pad, Reduced(f, logits, views, c, width), Unsharded(f, logits, whole, n, width));
  }

  lemma ReducedIsMean<H>(f: L.Fns, logits: seq<seq<real>>, views: seq<StepView<seq<real>, H>>, c: nat, width: nat,
                         parts: seq<seq<real>>)
    requires f.Lawful() && c >= 1 && |logits| == Offset(|views|, c) && forall i :: 0 <= i < |logits| ==>
               |logits[i]| == width
    requires views != [] && forall r :: 0 <= r < |views| ==> ViewFits(views[r], c, width)
    requires |parts| == |views| && RankLosses(f, logits, views, c, width) == Means(parts, c as real)
    ensures Reduced(f, logits, views, c, width) == MeanOfMeans(parts, c)
  {
  }

  lemma MeansCompared(parts: seq<seq<real>>, c: nat, row: seq<real>, pad: nat, reduced: real, mean: real)
    requires c >= 1 && parts != [] && row != [] && Offset(|parts|, c) == |row| + pad
          && Concat(parts) == row + Repeat(0.0, pad)
    requires reduced == MeanOfMeans(parts, c) && mean == Total(row) / (|row| as real)
    ensures reduced == mean <==> pad == 0 || mean == 0.0
  {
    OffsetIsProduct(|parts|, c);
    PaddedMeanIff(parts, c, row, pad);
    ZeroMean(Total(row), |row| as real);
  }

  lemma ZeroMean(t: real, n: real)
    requires n > 0.0
    ensures t / n == 0.0 <==> t == 0.0
  {
    assert (t / n) * n == t;
  }

  // ---------------------------------------------------------------- a sample whose loss is scaled down

  /** `log 2` is positive for the real exponential: `exp(1/2) * exp(-1/2) = 1` and `exp(-1/2) >= 1/2`. */
  lemma LogOfTwo(f: L.Fns)
    requires f.Lawful() && f.Convex()
    ensures f.log(2.0) >= 0.5
  {
    ExpOfZero(f);
    assert f.Sum(0.5, -0.5) && f.Tangent(-0.5) && f.Inverse(0.5);
    var a, b := f.exp(0.5), f.exp(-0.5);
    var z := 0.5 + -0.5;
    assert z == 0.0;
    AtMostTwo(a, b);
    assert f.Monotone(a, 2.0);
  }

  lemma AtMostTwo(a: real, b: real)
    requires a > 0.0 && b >= 0.5 && a * b == 1.0
    ensures a <= 2.0
  {
    assert a * (b - 0.5) >= 0.0;
  }

  /** The steps of a setup exist. */
  lemma StepsOf<R, H>(s: Setup<R, seq<real>, H>, k: nat, hiddens: seq<seq<H>>, hidden: seq<H>)
    requires s.Ok() && s.GlobalLen() >= 1 && k < s.tttLength && |hiddens| == s.size
    ensures Steps(s, k, hiddens, hidden, RankSteps(s, k, hiddens), s.GlobalStep(k, hidden))
  {
    GlobalStepIs(s, k, hidden);
    forall r: nat | r < s.size
      ensures StepOf(Usp(s.PlaceOf(r).Ulysses()), s.head, s.tttLength, s.RankSample(r), k, hiddens[r])
              == Some(RankSteps(s, k, hiddens)[r])
    {
      RankStepIs(s, k, r, hiddens[r]);
    }
  }

  /** Three tokens, the last of which predicts nothing, on two ranks; the target puts all weight on the first of two
      tokens. */
  function ThreeTokens(): Setup<int, seq<real>, int> {
    Setup([5, 6, 7], [1, 1, 1], [1, 1, 1], 0, [0, 0, 0], 0, 3, 1, 2, 1,
          Head((row: int) => if row == 0 then [0.5, 0.5] else [1.0, 0.0], (row: int) => 1, [0.5, 0.5]))
  }

  lemma ThreeTokensStep(hidden: seq<int>)
    ensures var s := ThreeTokens();
            && s.Ok() && s.GlobalLen() == 3 && s.ChunkSize() == 2
            && s.GlobalStep(0, hidden).positionMask == [1, 1, 0]
            && s.GlobalStep(0, hidden).targetP == [[1.0, 0.0], [1.0, 0.0], [0.5, 0.5]]
  {
    var s := ThreeTokens();
    assert Slice(s.lossMask, 0, 3) == [1, 1, 1] && Slice(s.target, 0, 3) == [1, 1, 1];
    assert s.Loss() == [1, 1, 0];
    assert s.Rows() == [1, 1, 0];
    assert s.Positions() == [1, 1, 0];
    assert s.Probs() == [[1.0, 0.0], [1.0, 0.0], [0.5, 0.5]];
  }

  /** A row of equal logits against a sure target costs `log 2`. */
  lemma EvenRow(f: L.Fns)
    requires f.Lawful()
    ensures L.RowLoss(f, [0.0, 0.0], [1.0, 0.0]) == f.log(2.0)
  {
    ExpOfZero(f);
    var x, t := [0.0, 0.0], [1.0, 0.0];
    assert Front(x) == [0.0] && Front([0.0]) == [] && Front(t) == [1.0];
    assert L.SumExp(f, [0.0], 0.0) == 1.0;
    assert L.SumExp(f, x, 0.0) == 2.0;
    assert L.WeightedLog(f, [0.0], [1.0], 2.0) == f.log(0.5);
    assert L.WeightedLog(f, x, t, 2.0) == f.log(0.5);
    assert f.Product(2.0, 0.5) && f.Inverse(0.0);
    assert f.log(1.0) == 0.0;
  }

  /** A setup of length 3 on 2 ranks whose first step, with equal logits everywhere, has a positive loss. */
  lemma ThreeTokensLoss(f: L.Fns, logits: seq<seq<real>>, hidden: seq<int>)
    returns (s: Setup<int, seq<real>, int>, whole: StepView<seq<real>, int>)
    requires f.Lawful() && f.Convex() && logits == Repeat([0.0, 0.0], 4)
    ensures s.size == 2 && s.GlobalLen() == 3 && s.tttLength == 1 && Fits(s, logits, 2)
         && whole == s.GlobalStep(0, hidden)
    ensures ViewFits(whole, 3, 2) && Unsharded(f, logits, whole, 3, 2) > 0.0
  {
    s := ThreeTokens();
    ThreeTokensStep(hidden);
    assert Offset(1, 2) == 2 && Offset(2, 2) == 4;
    whole := s.GlobalStep(0, hidden);
    GlobalStepFits(s, 0, hidden, 2);
    assert logits[..3] == Repeat([0.0, 0.0], 3);
    ThreeRowLoss(f, logits[..3], whole.targetP, whole.positionMask);
  }

  /** Length 3 on 2 ranks with a positive loss: the reduced loss is not the unsharded one. */
  lemma PaddedLossShrinks(f: L.Fns, hiddens: seq<seq<int>>, hidden: seq<int>)
    returns (s: Setup<int, seq<real>, int>, views: seq<StepView<seq<real>, int>>, whole: StepView<seq<real>, int>,
             logits: seq<seq<real>>)
    requires f.Lawful() && f.Convex() && |hiddens| == 2
    ensures s.size == 2 && s.GlobalLen() == 3 && 0 < s.tttLength
    ensures Fits(s, logits, 2) && Steps(s, 0, hiddens, hidden, views, whole)
    ensures s.ChunkSize() >= 1 && Shaped(logits, views, whole, 3, s.ChunkSize(), 2)
    ensures Reduced(f, logits, views, s.ChunkSize(), 2) != Unsharded(f, logits, whole, 3, 2)
  {
    logits := Repeat([0.0, 0.0], 4);
    s, whole := ThreeTokensLoss(f, logits, hidden);
    views := RankSteps(s, 0, hiddens);
    StepsOf(s, 0, hiddens, hidden);
    ShardedLossExactIff(f, s, 0, hiddens, hidden, views, whole, logits, 2);
  }

  lemma ThreeRowLoss(f: L.Fns, logits: seq<seq<real>>, targetP: seq<seq<real>>, mask: seq<int>)
    requires f.Lawful() && f.Convex() && logits == Repeat([0.0, 0.0], 3)
    requires targetP == [[1.0, 0.0], [1.0, 0.0], [0.5, 0.5]] && mask == [1, 1, 0]
    ensures L.MeanLoss(f, logits, targetP, mask) > 0.0
  {
    EvenRow(f);
    LogOfTwo(f);
    var l := f.log(2.0);
    var rows := L.RowLosses(f, logits, targetP, mask);
    assert rows == [l, l, 0.0];
    TotalOfThree(l, l, 0.0);
  }

  lemma TotalOfThree(a: real, b: real, c: real)
    ensures Total([a, b, c]) == a + b + c
  {
    assert Front([a, b, c]) == [a, b] && Last([a, b, c]) == c;
    assert Front([a, b]) == [a] && Last([a, b]) == b;
    assert Front([a]) == [] && Last([a]) == a;
    assert Total([]) == 0.0;
    assert Total([a]) == Total([]) + a;
    assert Total([a, b]) == Total([a]) + b;
  }
}
