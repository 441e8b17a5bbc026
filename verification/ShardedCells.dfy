/** What every cell of every step of the test-time-training loop shows, in terms of the raw sample. */
module ShardedCells {
  import opened Prelude
  import opened Pieces
  import opened SequenceParallel

  /** Column `i` of a view in step `k`, when it is column `at` of the text: token and target row are those `k + 1`
      places on, the loss mask is the sample's own `k` places on, and the last position predicts nothing. */
  ghost predicate ShowsCell<R, P, H>(s: Setup<R, P, H>, v: StepView<P, H>, i: nat, at: nat, k: nat)
    requires s.Ok()
  {
    var n, j := s.GlobalLen(), at + k;
    && i < |v.inputIds| && i < |v.lossMask| && i < |v.positionMask| && i < |v.targetP| && i < |v.attentionMask|
    && v.inputIds[i] == (if j + 1 < n then s.inputIds[j + 1] else 0)
    && v.lossMask[i] == (if j + 1 < n then s.lossMask[j] else 0)
    && v.positionMask[i] == (if j + 1 < n then s.head.kept(s.target[j + 1]) * s.lossMask[j] else 0)
    && v.targetP[i] == (if j + 1 < n then s.head.p(s.target[j + 1]) else s.head.uniform)
    && v.attentionMask[i] == if at < n then 1 else 0
  }

  ghost predicate Width<P, H>(v: StepView<P, H>, n: nat) {
    |v.inputIds| == |v.lossMask| == |v.positionMask| == |v.targetP| == |v.attentionMask| == n
  }

  /** The global tensors, cell by cell. */
  lemma TensorCells<R, P, H>(s: Setup<R, P, H>, j: nat)
    requires s.Ok()
    ensures At(s.Ids(), 0, j) == if j + 1 < s.GlobalLen() then s.inputIds[j + 1] else 0
    ensures At(s.Loss(), 0, j) == if j + 1 < s.GlobalLen() then s.lossMask[j] else 0
    ensures At(s.Positions(), 0, j) == if j + 1 < s.GlobalLen() then s.head.kept(s.target[j + 1]) * s.lossMask[j] else 0
    ensures At(s.Probs(), s.head.uniform, j) == if j + 1 < s.GlobalLen() then s.head.p(s.target[j + 1])
              else s.head.uniform
  {
    var n := s.GlobalLen();
    IdCell(s, j);
    LossCell(s, j);
    if j < n {
      RowCell(s, j);
      assert s.Positions()[j] == s.head.kept(s.Rows()[j]) * s.Loss()[j];
      assert s.Probs()[j] == s.head.p(s.Rows()[j]);
    }
  }

  lemma IdCell<R, P, H>(s: Setup<R, P, H>, j: nat)
    requires s.Ok()
    ensures At(s.Ids(), 0, j) == if j + 1 < s.GlobalLen() then s.inputIds[j + 1] else 0
  {
    ShiftLeftAt(Slice(s.inputIds, 0, s.GlobalLen()), 0, j);
  }

  lemma LossCell<R, P, H>(s: Setup<R, P, H>, j: nat)
    requires s.Ok()
    ensures At(s.Loss(), 0, j) == if j + 1 < s.GlobalLen() then s.lossMask[j] else 0
  {
  }

  lemma RowCell<R, P, H>(s: Setup<R, P, H>, j: nat)
    requires s.Ok() && j < s.GlobalLen()
    ensures s.Rows()[j] == if j + 1 < s.GlobalLen() then s.target[j + 1] else s.zeroRow
  {
    ShiftLeftAt(Slice(s.target, 0, s.GlobalLen()), s.zeroRow, j);
  }

  /** Every column of every step of the unsharded loop, its position id and its hidden state. */
  lemma GlobalCells<R, P, H>(s: Setup<R, P, H>, k: nat, hidden: seq<H>, i: nat, sample: Sample<R, H>,
                             view: StepView<P, H>)
    requires s.Ok() && k < s.tttLength && i < s.GlobalLen()
    requires ProcessData(s.inputIds, s.lossMask, s.target, s.hidden, s.maxLen) == Some(sample)
    requires |sample.target| == |sample.lossMask|
    requires StepOf(SdpaLike, s.head, s.tttLength, Preprocess(sample, s.zeroRow), k, hidden) == Some(view)
    ensures ShowsCell(s, view, i, i, k) && Width(view, s.GlobalLen()) && view.hidden == hidden
    ensures |view.positionIds| == s.GlobalLen() && view.positionIds[i] == i
  {
    GlobalStepIs(s, k, hidden);
    GlobalCell(s, k, hidden, i);
  }

  lemma GlobalCell<R, P, H>(s: Setup<R, P, H>, k: nat, hidden: seq<H>, i: nat)
    requires s.Ok() && i < s.GlobalLen()
    ensures ShowsCell(s, s.GlobalStep(k, hidden), i, i, k)
  {
    TensorCells(s, i + k);
    ShiftedAt(s.Ids(), 0, k, i);
    ShiftedAt(s.Loss(), 0, k, i);
    ShiftedAt(s.Positions(), 0, k, i);
    ShiftedAt(s.Probs(), s.head.uniform, k, i);
  }

  /** Every column of every step of a rank's loop: its own columns of the text start at `rank * chunk`. */
  lemma RankCells<R, P, H>(s: Setup<R, P, H>, k: nat, rank: nat, hidden: seq<H>, i: nat, at: nat, view: StepView<P, H>)
    requires s.Ok() && k < s.tttLength && s.GlobalLen() >= 1 && i < s.ChunkSize() && at == rank * s.ChunkSize() + i
    requires StepOf(Usp(s.PlaceOf(rank).Ulysses()), s.head, s.tttLength, s.RankSample(rank), k, hidden) == Some(view)
    ensures ShowsCell(s, view, i, at, k) && Width(view, s.ChunkSize())
    ensures i < |hidden| ==> i < |view.hidden| && view.hidden[i] == hidden[i]
  {
    RankStepIs(s, k, rank, hidden);
    OffsetIsProduct(rank, s.ChunkSize());
    RankCell(s, k, rank, hidden, i, at);
  }

  lemma RankCell<R, P, H>(s: Setup<R, P, H>, k: nat, rank: nat, hidden: seq<H>, i: nat, at: nat)
    requires s.Ok() && k < s.tttLength && i < s.ChunkSize() && at == Offset(rank, s.ChunkSize()) + i
    ensures ShowsCell(s, s.RankStep(k, rank, hidden), i, at, k)
  {
    TensorCells(s, at + k);
    RankFieldsAt(s, k, rank, hidden, i, at, s.RankStep(k, rank, hidden));
  }

  lemma RankFieldsAt<R, P, H>(s: Setup<R, P, H>, k: nat, rank: nat, hidden: seq<H>, i: nat, at: nat,
                              view: StepView<P, H>)
    requires s.Ok() && k < s.tttLength && i < s.ChunkSize() && at == Offset(rank, s.ChunkSize()) + i
    requires view == s.RankStep(k, rank, hidden)
    ensures Width(view, s.ChunkSize())
    ensures view.inputIds[i] == At(s.Ids(), 0, at + k) && view.lossMask[i] == At(s.Loss(), 0, at + k)
    ensures view.positionMask[i] == At(s.Positions(), 0, at + k)
    ensures view.targetP[i] == At(s.Probs(), s.head.uniform, at + k)
    ensures view.attentionMask[i] == if at < s.GlobalLen() then 1 else 0
  {
    var n, c, o := s.GlobalLen(), s.ChunkSize(), s.tttLength;
    WholeViewAt(s.Ids(), 0, n, c, o, k, rank, i);
    WholeViewAt(s.Loss(), 0, n, c, o, k, rank, i);
    WholeViewAt(s.Positions(), 0, n, c, o, k, rank, i);
    WholeViewAt(s.Probs(), s.head.uniform, n, c, o, k, rank, i);
    WholeViewAt(Repeat(1, n), 0, n, c, o, 0, rank, i);
  }

  lemma WholeViewAt<T>(tensor: seq<T>, zero: T, n: nat, c: nat, o: nat, k: nat, rank: nat, i: nat)
    requires |tensor| == n && k <= o && i < c
    ensures RankView(tensor, zero, n, c, o, k, rank)[i] == At(tensor, zero, Offset(rank, c) + i + k)
  {
    RankViewAt(tensor, zero, n, c, o, k, rank, i);
    assert Slice(tensor, 0, n) == tensor;
  }

  /** The hidden states of the first step are the sample's own: all of them unsharded, and on a rank those of its
      columns, with zeros past the text. */
  lemma FirstHiddenCells<R, P, H>(s: Setup<R, P, H>, rank: nat, i: nat, at: nat, sample: Sample<R, H>)
    requires s.Ok() && i < s.ChunkSize() && at == rank * s.ChunkSize() + i
    requires ProcessData(s.inputIds, s.lossMask, s.target, s.hidden, s.maxLen) == Some(sample)
    ensures |sample.hidden| == s.GlobalLen() && forall j :: 0 <= j < |sample.hidden| ==> sample.hidden[j] == s.hidden[j]
    ensures i < |s.RankSample(rank).hidden|
    ensures s.RankSample(rank).hidden[i] == if at < s.GlobalLen() then s.hidden[at] else s.zeroHidden
  {
    RankFields(s, rank);
    OffsetIsProduct(rank, s.ChunkSize());
  }

  /** The hidden states of a step are the sample's in the first step, and from then on what the backbone makes of all
      views so far; a rank uses the first chunk of them. */
  lemma {:induction false} LoopHidden<R, P, H>(backend: Backend, h: Head<R, P>, length: nat, sample: Sample<R, H>,
                                               backbone: Backbone<P, H>, views: seq<StepView<P, H>>, k: nat,
                                               hidden: seq<H>)
    requires |sample.target| == |sample.lossMask| && Unrolls(backend, h, length, sample, backbone, views) && k < |views|
    requires hidden == if k == 0 then sample.hidden else backbone(views[..k])
    ensures backend.SdpaLike? ==> views[k].hidden == hidden
    ensures backend.Usp? ==>
              |sample.target| > length && views[k].hidden == hidden[..Min(|sample.target| - length, |hidden|)]
  {
    if k < |views| - 1 {
      var front := views[..|views| - 1];
      assert front[..k] == views[..k] && front[k] == views[k];
      LoopHidden(backend, h, length, sample, backbone, front, k, hidden);
    }
  }
}
