/** What a DFlash training block attends to (`specforge/core/dflash.py`), and why it is what the draft attends
    to while decoding. One batch row at a time: rows do not interact. */
module DFlashTraining {
  import opened Prelude
  import opened SpecDecoding

  /** `repeat_interleave`: every element `n` times in a row. */
  function RepeatInterleave<T>(s: seq<T>, n: nat): (r: seq<T>)
    ensures |r| == |s| * n
  {
    if s == [] then [] else
      assert |s| * n == n + (|s| - 1) * n;
      Repeat(s[0], n) + RepeatInterleave(s[1..], n)
  }

  lemma {:induction false} RepeatInterleaveAt<T>(s: seq<T>, n: nat, i: nat)
    requires n >= 1 && i < |s| * n
    ensures i / n < |s| && RepeatInterleave(s, n)[i] == s[i / n]
  {
    BlockBound(i, |s|, n);
    if i < n {
      BlockOf(i, 0, i, n);
    } else {
      assert i - n == (i / n - 1) * n + i % n;
      BlockOf(i - n, i / n - 1, i % n, n);
      RepeatInterleaveAt(s[1..], n, i - n);
    }
  }

  // ---------------------------------------------------------------- the two mask constructions

  /** Cell (q, kv) of `create_dflash_sdpa_mask`. */
  predicate SdpaMask(anchors: seq<nat>, keep: seq<bool>, S: nat, blockSize: nat, q: nat, kv: nat)
    requires |anchors| == |keep| && blockSize >= 1 && q < |anchors| * blockSize
  {
    var qBlock := q / blockSize;
    var anchorExpanded := RepeatInterleave(anchors, blockSize);
    var maskContext := kv < S && kv < anchorExpanded[q];
    var isDraft := kv >= S;
    var kvBlock := (kv - S) / blockSize;
    var maskDraft := isDraft && qBlock == kvBlock;
    var validBlock := RepeatInterleave(keep, blockSize)[q];
    (maskContext || maskDraft) && validBlock
  }

  /** `dflash_mask_mod(b, h, q, kv)`, which may be asked about query indices beyond the last block. */
  predicate FlexMask(anchors: seq<nat>, keep: seq<bool>, S: nat, blockSize: nat, q: nat, kv: nat)
    requires |anchors| == |keep| >= 1 && blockSize >= 1
  {
    var N := |anchors|;
    var qBlock := q / blockSize;
    var safeBlock := Min(qBlock, N - 1);
    var anchorPos := anchors[safeBlock];
    var isContext := kv < S;
    var maskContext := isContext && kv < anchorPos;
    var isDraft := kv >= S;
    var kvBlock := (kv - S) / blockSize;
    var maskDraft := isDraft && qBlock == kvBlock;
    var isValidBlock := keep[safeBlock];
    var inBounds := qBlock < N;
    (maskContext || maskDraft) && isValidBlock && inBounds
  }

  /** The two backends mask the same cells; padding queries of the flex backend see nothing. */
  lemma MasksAgree(anchors: seq<nat>, keep: seq<bool>, S: nat, blockSize: nat, q: nat, kv: nat)
    requires |anchors| == |keep| >= 1 && blockSize >= 1
    ensures FlexMask(anchors, keep, S, blockSize, q, kv) <==>
              q < |anchors| * blockSize && SdpaMask(anchors, keep, S, blockSize, q, kv)
  {
    BlockBound(q, |anchors|, blockSize);
    if q < |anchors| * blockSize {
      RepeatInterleaveAt(anchors, blockSize, q);
      RepeatInterleaveAt(keep, blockSize, q);
    }
  }

  // ---------------------------------------------------------------- visible slots

  /** The indices in `lo..hi` that satisfy `p`, in order. */
  ghost function Where(p: nat -> bool, lo: nat, hi: nat): seq<nat>
    decreases hi - lo
  {
    if lo >= hi then [] else (if p(lo) then [lo] else []) + Where(p, lo + 1, hi)
  }

  lemma {:induction false} WhereSplit(p: nat -> bool, lo: nat, mid: nat, hi: nat)
    requires lo <= mid <= hi
    ensures Where(p, lo, hi) == Where(p, lo, mid) + Where(p, mid, hi)
    decreases mid - lo
  {
    if lo < mid {
      WhereSplit(p, lo + 1, mid, hi);
    }
  }

  lemma {:induction false} WhereNone(p: nat -> bool, lo: nat, hi: nat)
    requires forall i: nat :: lo <= i < hi ==> !p(i)
    ensures Where(p, lo, hi) == []
    decreases hi - lo
  {
    if lo < hi {
      WhereNone(p, lo + 1, hi);
    }
  }

  lemma {:induction false} WhereAll(p: nat -> bool, lo: nat, hi: nat)
    requires lo <= hi && forall i: nat :: lo <= i < hi ==> p(i)
    ensures Where(p, lo, hi) == Span(lo, hi)
    decreases hi - lo
  {
    if lo < hi {
      WhereAll(p, lo + 1, hi);
      assert Span(lo, hi) == [lo] + Span(lo + 1, hi);
    }
  }

  /** `lo..hi` as naturals. */
  function Span(lo: nat, hi: nat): (s: seq<nat>)
    requires lo <= hi
    ensures |s| == hi - lo
    ensures forall i :: 0 <= i < |s| ==> s[i] == lo + i
  {
    seq(hi - lo, i requires 0 <= i => lo + i)
  }

  /** Every key slot, context and blocks, that query `q` attends to. */
  ghost function Visible(anchors: seq<nat>, keep: seq<bool>, S: nat, blockSize: nat, q: nat): seq<nat>
    requires |anchors| == |keep| && blockSize >= 1 && q < |anchors| * blockSize
  {
    Where((kv: nat) => SdpaMask(anchors, keep, S, blockSize, q, kv), 0, S + |anchors| * blockSize)
  }

  lemma WhereTwoRuns(p: nat -> bool, a: nat, lo: nat, hi: nat, end: nat)
    requires a <= lo <= hi <= end
    requires forall i: nat :: i < end ==> (p(i) <==> i < a || lo <= i < hi)
    ensures Where(p, 0, end) == Span(0, a) + Span(lo, hi)
  {
    WhereSplit(p, 0, a, end);
    WhereAll(p, 0, a);
    WhereOneRun(p, a, lo, hi, end);
  }

  lemma WhereOneRun(p: nat -> bool, from: nat, lo: nat, hi: nat, end: nat)
    requires from <= lo <= hi <= end
    requires forall i: nat :: from <= i < end ==> (p(i) <==> lo <= i < hi)
    ensures Where(p, from, end) == Span(lo, hi)
  {
    WhereSplit(p, from, lo, end);
    WhereNone(p, from, lo);
    WhereSplit(p, lo, hi, end);
    WhereAll(p, lo, hi);
    WhereNone(p, hi, end);
  }

  lemma OwnBlock(i: nat, b: nat, n: nat)
    requires n >= 1
    ensures i / n == b <==> b * n <= i < b * n + n
  {
    BlockBound(i, b, n);
    BlockBound(i, b + 1, n);
  }

  /** Which cells are open, without block arithmetic on the key side. */
  lemma MaskCell(anchors: seq<nat>, keep: seq<bool>, S: nat, blockSize: nat, q: nat, b: nat, lo: nat, kv: nat)
    requires |anchors| == |keep| && blockSize >= 1 && q < |anchors| * blockSize
    requires b == q / blockSize && b < |anchors| && lo == S + b * blockSize
    ensures SdpaMask(anchors, keep, S, blockSize, q, kv) <==>
              keep[b] && (kv < Min(anchors[b], S) || lo <= kv < lo + blockSize)
  {
    RepeatInterleaveAt(anchors, blockSize, q);
    RepeatInterleaveAt(keep, blockSize, q);
    if kv >= S {
      OwnBlock(kv - S, b, blockSize);
    }
  }

  lemma VisibleRuns(anchors: seq<nat>, keep: seq<bool>, S: nat, blockSize: nat, q: nat, b: nat, lo: nat)
    requires |anchors| == |keep| && blockSize >= 1 && q < |anchors| * blockSize
    requires b == q / blockSize && b < |anchors| && lo == S + b * blockSize
          && lo + blockSize <= S + |anchors| * blockSize
    ensures Visible(anchors, keep, S, blockSize, q)
         == if keep[b] then Span(0, Min(anchors[b], S)) + Span(lo, lo + blockSize) else []
  {
    var p := (kv: nat) => SdpaMask(anchors, keep, S, blockSize, q, kv);
    forall kv: nat ensures p(kv) <==> keep[b] && (kv < Min(anchors[b], S) || lo <= kv < lo + blockSize) {
      MaskCell(anchors, keep, S, blockSize, q, b, lo, kv);
    }
    if keep[b] {
      WhereTwoRuns(p, Min(anchors[b], S), lo, lo + blockSize, S + |anchors| * blockSize);
    } else {
      WhereNone(p, 0, S + |anchors| * blockSize);
    }
  }

  /** A query of a kept block sees the context strictly before its anchor and its own block, nothing else; a query
      of a dropped block sees nothing. */
  lemma VisibleSlots(anchors: seq<nat>, keep: seq<bool>, S: nat, blockSize: nat, q: nat)
    requires |anchors| == |keep| && blockSize >= 1 && q < |anchors| * blockSize
    ensures q / blockSize < |anchors|
    ensures var b := q / blockSize;
            Visible(anchors, keep, S, blockSize, q) ==
            if keep[b] then Span(0, Min(anchors[b], S)) + Span(S + b * blockSize, S + b * blockSize + blockSize) else []
  {
    BlockBound(q, |anchors|, blockSize);
    var b := q / blockSize;
    MulMonotone(b + 1, |anchors|, blockSize);
    VisibleRuns(anchors, keep, S, blockSize, q, b, S + b * blockSize);
  }

  // ---------------------------------------------------------------- training tensors

  /** `_create_position_ids`: absolute positions of every block token. */
  function PositionIds(anchors: seq<nat>, blockSize: nat): (r: seq<nat>)
    requires blockSize >= 1
    ensures |r| == |anchors| * blockSize
  {
    assert forall i :: 0 <= i < |anchors| * blockSize ==> i / blockSize < |anchors| by {
      forall i | 0 <= i < |anchors| * blockSize ensures i / blockSize < |anchors| {
        BlockBound(i, |anchors|, blockSize);
      }
    }
    seq(|anchors| * blockSize, i requires 0 <= i < |anchors| * blockSize && i / blockSize < |anchors| =>
      anchors[i / blockSize] + i % blockSize)
  }

  /** Index clamped into the text, as `clamp(0, seq_len - 1)`. */
  function Clamp(i: nat, S: nat): (r: nat)
    requires S >= 1
    ensures r < S
  {
    if i < S then i else S - 1
  }

  /** `_create_noise_embed` before the embedding: masks, with kept anchors written at the block starts. */
  method CreateNoiseIds(inputIds: seq<Token>, anchors: seq<nat>, keep: seq<bool>, blockSize: nat, mask: Token)
    returns (noise: array<Token>)
    requires |inputIds| >= 1 && |anchors| == |keep| && blockSize >= 1
    ensures fresh(noise) && noise.Length == |anchors| * blockSize
    ensures noise[..] == NoiseIds(inputIds, anchors, keep, blockSize, mask)
  {
    noise := new Token[|anchors| * blockSize](i => mask);
    ghost var ids := NoiseIds(inputIds, anchors, keep, blockSize, mask);
    for b := 0 to |anchors|
      invariant b * blockSize <= noise.Length
      invariant forall i :: 0 <= i < noise.Length ==> noise[i] == if i < b * blockSize then ids[i] else mask
    {
      var token := inputIds[Clamp(anchors[b], |inputIds|)];
      forall i | b * blockSize <= i < (b + 1) * blockSize
        ensures i < |ids| && ids[i] == if i == b * blockSize then Head(inputIds, anchors, keep, mask, b) else mask
      {
        NoiseBlock(inputIds, anchors, keep, blockSize, mask, b, i - b * blockSize);
      }
      NoiseBlock(inputIds, anchors, keep, blockSize, mask, b, 0);
      noise[b * blockSize] := if keep[b] then token else mask;
    }
  }

  /** One token per block slot: the anchor's own token at the head of a kept block, masks elsewhere. */
  function NoiseIds(inputIds: seq<Token>, anchors: seq<nat>, keep: seq<bool>, blockSize: nat,
                    mask: Token): (r: seq<Token>)
    requires |inputIds| >= 1 && |anchors| == |keep| && blockSize >= 1
    ensures |r| == |anchors| * blockSize
  {
    MaskedSpread(RepeatInterleave(Heads(inputIds, anchors, keep, mask), blockSize), blockSize, mask)
  }

  /** The first token of every block. */
  function Heads(inputIds: seq<Token>, anchors: seq<nat>, keep: seq<bool>, mask: Token): (r: seq<Token>)
    requires |inputIds| >= 1 && |anchors| == |keep|
    ensures |r| == |anchors| && forall b {:trigger r[b]} :: 0 <= b < |r| ==>
              r[b] == Head(inputIds, anchors, keep, mask, b)
  {
    seq(|anchors|, b requires 0 <= b < |anchors| => Head(inputIds, anchors, keep, mask, b))
  }

  function MaskedSpread(spread: seq<Token>, n: nat, mask: Token): (r: seq<Token>)
    requires n >= 1
    ensures |r| == |spread|
  {
    seq(|spread|, i requires 0 <= i < |spread| => if i % n == 0 then spread[i] else mask)
  }

  function Head(inputIds: seq<Token>, anchors: seq<nat>, keep: seq<bool>, mask: Token, b: nat): Token
    requires |inputIds| >= 1 && b < |anchors| == |keep|
  {
    if keep[b] then inputIds[Clamp(anchors[b], |inputIds|)] else mask
  }

  lemma NoiseBlock(inputIds: seq<Token>, anchors: seq<nat>, keep: seq<bool>, blockSize: nat, mask: Token, b: nat,
                   r: nat)
    requires |inputIds| >= 1 && |anchors| == |keep| && b < |anchors| && r < blockSize
    ensures b * blockSize + r < (b + 1) * blockSize <= |anchors| * blockSize
    ensures NoiseIds(inputIds, anchors, keep, blockSize, mask)[b * blockSize + r]
         == if r == 0 then Head(inputIds, anchors, keep, mask, b) else mask
  {
    var heads := Heads(inputIds, anchors, keep, mask);
    SpreadAt(heads, blockSize, b, r, b * blockSize + r);
    MaskedSpreadAt(RepeatInterleave(heads, blockSize), blockSize, mask, r, b * blockSize + r);
  }

  /** Cell `r` of block `b` of interleaved heads. */
  lemma SpreadAt<T>(heads: seq<T>, n: nat, b: nat, r: nat, i: nat)
    requires b < |heads| && r < n && i == b * n + r
    ensures i < (b + 1) * n <= |heads| * n
    ensures i % n == r && RepeatInterleave(heads, n)[i] == heads[b]
  {
    MulMonotone(b + 1, |heads|, n);
    assert (b + 1) * n == b * n + n;
    BlockOf(i, b, r, n);
    RepeatInterleaveAt(heads, n, i);
  }

  lemma MaskedSpreadAt(spread: seq<Token>, n: nat, mask: Token, r: nat, i: nat)
    requires n >= 1 && i < |spread| && i % n == r
    ensures MaskedSpread(spread, n, mask)[i] == if r == 0 then spread[i] else mask
  {
  }

  // ---------------------------------------------------------------- training sees what inference sees

  /** The key stored in slot `kv` of the training pass over `text`: a target feature for context slots (the target
      is causal, so a feature depends on the text up to its own position), a block token otherwise. */
  function TrainingKey<F>(t: Target<F>, text: seq<Token>, anchors: seq<nat>, keep: seq<bool>, blockSize: nat,
                          mask: Token, kv: nat): Key<F>
    requires |text| >= 1 && |anchors| == |keep| && blockSize >= 1 && kv < |text| + |anchors| * blockSize
  {
    if kv < |text| then ContextKey(t.feature(Placed(text[..kv + 1])), kv)
    else NoiseKey(NoiseIds(text, anchors, keep, blockSize, mask)[kv - |text|],
                  PositionIds(anchors, blockSize)[kv - |text|])
  }

  /** The keys query `q` attends to in training, in slot order. */
  ghost function TrainingView<F>(t: Target<F>, text: seq<Token>, anchors: seq<nat>, keep: seq<bool>, blockSize: nat,
                                 mask: Token, q: nat): seq<Key<F>>
    requires |text| >= 1 && |anchors| == |keep| && blockSize >= 1 && q < |anchors| * blockSize
  {
    var slots := Visible(anchors, keep, |text|, blockSize, q);
    WhereInRange((kv: nat) => SdpaMask(anchors, keep, |text|, blockSize, q, kv), 0, |text| + |anchors| * blockSize);
    seq(|slots|, i requires 0 <= i < |slots| => TrainingKey(t, text, anchors, keep, blockSize, mask, slots[i]))
  }

  lemma {:induction false} WhereInRange(p: nat -> bool, lo: nat, hi: nat)
    ensures forall i :: 0 <= i < |Where(p, lo, hi)| ==> lo <= Where(p, lo, hi)[i] < hi
    decreases hi - lo
  {
    if lo < hi {
      WhereInRange(p, lo + 1, hi);
    }
  }

  lemma PositionOf(anchors: seq<nat>, blockSize: nat, b: nat, r: nat)
    requires b < |anchors| && r < blockSize
    ensures b * blockSize + r < |anchors| * blockSize
    ensures PositionIds(anchors, blockSize)[b * blockSize + r] == anchors[b] + r
  {
    MulMonotone(b + 1, |anchors|, blockSize);
    BlockOf(b * blockSize + r, b, r, blockSize);
  }

  lemma ViewLength<F>(t: Target<F>, text: seq<Token>, anchors: seq<nat>, keep: seq<bool>, blockSize: nat,
                      mask: Token, q: nat, b: nat)
    requires |text| >= 1 && |anchors| == |keep| && blockSize >= 1 && q < |anchors| * blockSize
    requires b == q / blockSize && b < |anchors| && keep[b] && anchors[b] < |text|
    ensures |TrainingView(t, text, anchors, keep, blockSize, mask, q)| == anchors[b] + blockSize
  {
    VisibleSlots(anchors, keep, |text|, blockSize, q);
  }

  lemma ViewContext<F>(t: Target<F>, text: seq<Token>, anchors: seq<nat>, keep: seq<bool>, blockSize: nat,
                       mask: Token, q: nat, b: nat, i: nat)
    requires |text| >= 1 && |anchors| == |keep| && blockSize >= 1 && q < |anchors| * blockSize
    requires b == q / blockSize && b < |anchors| && keep[b] && i < anchors[b] < |text|
    requires |TrainingView(t, text, anchors, keep, blockSize, mask, q)| == anchors[b] + blockSize
    ensures TrainingView(t, text, anchors, keep, blockSize, mask, q)[i]
         == ContextKey(t.feature(Placed(text[..i + 1])), i)
  {
    VisibleSlots(anchors, keep, |text|, blockSize, q);
    assert Visible(anchors, keep, |text|, blockSize, q)[i] == i;
  }

  lemma ViewNoise<F>(t: Target<F>, text: seq<Token>, anchors: seq<nat>, keep: seq<bool>, blockSize: nat,
                     mask: Token, q: nat, b: nat, r: nat)
    requires |text| >= 1 && |anchors| == |keep| && r < blockSize && q < |anchors| * blockSize
    requires b == q / blockSize && b < |anchors| && keep[b] && anchors[b] < |text|
    requires |TrainingView(t, text, anchors, keep, blockSize, mask, q)| == anchors[b] + blockSize
    ensures TrainingView(t, text, anchors, keep, blockSize, mask, q)[anchors[b] + r]
         == NoiseKey(if r == 0 then text[anchors[b]] else mask, anchors[b] + r)
  {
    VisibleSlots(anchors, keep, |text|, blockSize, q);
    assert Visible(anchors, keep, |text|, blockSize, q)[anchors[b] + r] == |text| + b * blockSize + r;
    NoiseBlock(text, anchors, keep, blockSize, mask, b, r);
    PositionOf(anchors, blockSize, b, r);
  }

  lemma AssembleView<F>(t: Target<F>, text: seq<Token>, a: nat, blockSize: nat, mask: Token, view: seq<Key<F>>)
    requires a < |text| && blockSize >= 1 && |view| == a + blockSize
    requires forall i :: 0 <= i < a ==> view[i] == ContextKey(t.feature(Placed(text[..i + 1])), i)
    requires forall r :: a <= r < a + blockSize ==> view[r] == NoiseKey(if r == a then text[a] else mask, r)
    ensures view == InferenceKeys(t, text[..a + 1], blockSize, mask)
  {
    var toks := text[..a + 1];
    var ctx := ContextKeys(t, toks[..a]);
    forall i | 0 <= i < a ensures view[i] == ctx[i] {
      assert toks[..a][..i + 1] == text[..i + 1];
    }
    var noise: seq<Key<F>> := NoiseKeys([toks[a]] + Repeat(mask, blockSize - 1), a);
    assert view == ctx + noise;
  }

  /** For a kept anchor, every query of its block is trained on exactly the keys (features, tokens and positions) the
      draft attends to in the decoding loop when the text up to the anchor has been decided. */
  lemma TrainingMatchesInference<F>(t: Target<F>, text: seq<Token>, anchors: seq<nat>, keep: seq<bool>, blockSize: nat,
                                    mask: Token, q: nat, b: nat)
    requires |text| >= 1 && |anchors| == |keep| && blockSize >= 1 && q < |anchors| * blockSize
    requires b == q / blockSize && b < |anchors| && keep[b] && anchors[b] < |text|
    ensures TrainingView(t, text, anchors, keep, blockSize, mask, q)
         == InferenceKeys(t, text[..anchors[b] + 1], blockSize, mask)
    ensures PositionIds(anchors, blockSize)[q] == anchors[b] + q % blockSize
  {
    var a := anchors[b];
    var view := TrainingView(t, text, anchors, keep, blockSize, mask, q);
    ViewLength(t, text, anchors, keep, blockSize, mask, q, b);
    forall i | 0 <= i < a ensures view[i] == ContextKey(t.feature(Placed(text[..i + 1])), i) {
      ViewContext(t, text, anchors, keep, blockSize, mask, q, b, i);
    }
    forall r | a <= r < a + blockSize ensures view[r] == NoiseKey(if r == a then text[a] else mask, r) {
      ViewNoise(t, text, anchors, keep, blockSize, mask, q, b, r - a);
    }
    AssembleView(t, text, a, blockSize, mask, view);
  }

  // ---------------------------------------------------------------- training accuracy is acceptance

  /** What the draft predicts at query `q` during training. */
  ghost function TrainingPrediction<F>(draft: Draft<F>, t: Target<F>, text: seq<Token>, anchors: seq<nat>,
                                       keep: seq<bool>, blockSize: nat, mask: Token, q: nat): Token
    requires |text| >= 1 && |anchors| == |keep| && blockSize >= 1 && q < |anchors| * blockSize
  {
    draft(TrainingView(t, text, anchors, keep, blockSize, mask, q), q % blockSize)
  }

  /** Leading rows `1, 2, ...` of block `b` whose prediction equals the training label `text[anchor + k]`. */
  ghost function CorrectRows<F>(draft: Draft<F>, t: Target<F>, text: seq<Token>, anchors: seq<nat>, keep: seq<bool>,
                                blockSize: nat, mask: Token, b: nat, k: nat): (n: nat)
    requires |text| >= 1 && b < |anchors| == |keep| && 1 <= k <= blockSize && anchors[b] + blockSize <= |text|
    decreases blockSize - k
  {
    if k == blockSize then 0
    else
      PositionOf(anchors, blockSize, b, k);
      if TrainingPrediction(draft, t, text, anchors, keep, blockSize, mask, b * blockSize + k) == text[anchors[b] + k]
      then 1 + CorrectRows(draft, t, text, anchors, keep, blockSize, mask, b, k + 1)
      else 0
  }

  /** `text` is what the target itself generates from its first `n` tokens. */
  ghost predicate GreedyText<F>(t: Target<F>, text: seq<Token>, n: nat) {
    n <= |text| && text == Greedy(t, text[..n], |text| - n)
  }

  lemma GreedyTextNext<F>(t: Target<F>, text: seq<Token>, n: nat, i: nat)
    requires GreedyText(t, text, n) && n <= i < |text|
    ensures text[i] == t.next(Placed(text[..i]))
  {
    GreedyPrefix(t, text[..n], i - n, |text| - n);
    GreedyPrefix(t, text[..n], i + 1 - n, |text| - n);
    assert text[..i + 1] == text[..i] + [t.next(Placed(text[..i]))];
  }

  /** On text the target would generate, the number of leading correct training rows of a block is the number of
      tokens the decoding loop accepts when it proposes from that anchor. */
  lemma {:induction false} AccuracyIsAcceptance<F>(
    draft: Draft<F>, t: Target<F>, text: seq<Token>, n: nat, anchors: seq<nat>, keep: seq<bool>,
    blockSize: nat, mask: Token, b: nat, k: nat, proposal: seq<Token>)
    requires |text| >= 1 && b < |anchors| == |keep| && 1 <= k <= blockSize && anchors[b] + blockSize <= |text|
    requires keep[b] && GreedyText(t, text, n) && n <= anchors[b] + 1
    requires proposal == Proposal(draft, t, text[..anchors[b] + 1], blockSize, mask)
    ensures CorrectRows(draft, t, text, anchors, keep, blockSize, mask, b, k)
         == Agreed(t, text[..anchors[b] + k], proposal[k - 1..])
    decreases blockSize - k
  {
    if k < blockSize {
      var a := anchors[b];
      AccuracyIsAcceptance(draft, t, text, n, anchors, keep, blockSize, mask, b, k + 1, proposal);
      RowIsProposal(draft, t, text, anchors, keep, blockSize, mask, b, k);
      GreedyTextNext(t, text, n, a + k);
      AgreedStep(t, text, proposal, a + k, k);
    }
  }

  /** Row `k` is correct if and only if the token the decoding loop proposes there is the label. */
  lemma RowIsProposal<F>(draft: Draft<F>, t: Target<F>, text: seq<Token>, anchors: seq<nat>, keep: seq<bool>,
                         blockSize: nat, mask: Token, b: nat, k: nat)
    requires |text| >= 1 && b < |anchors| == |keep| && 1 <= k < blockSize && anchors[b] + blockSize <= |text| && keep[b]
    ensures CorrectRows(draft, t, text, anchors, keep, blockSize, mask, b, k)
         == if Proposal(draft, t, text[..anchors[b] + 1], blockSize, mask)[k - 1] == text[anchors[b] + k]
            then 1 + CorrectRows(draft, t, text, anchors, keep, blockSize, mask, b, k + 1) else 0
  {
    PositionOf(anchors, blockSize, b, k);
    PredictionIsProposal(draft, t, text, anchors, keep, blockSize, mask, b, k, b * blockSize + k);
  }

  /** Row `k` of a kept block predicts in training what the draft proposes at that place in decoding. */
  lemma PredictionIsProposal<F>(draft: Draft<F>, t: Target<F>, text: seq<Token>, anchors: seq<nat>, keep: seq<bool>,
                                blockSize: nat, mask: Token, b: nat, k: nat, q: nat)
    requires |text| >= 1 && b < |anchors| == |keep| && 1 <= k < blockSize && anchors[b] < |text| && keep[b]
    requires q == b * blockSize + k && q < |anchors| * blockSize
    ensures TrainingPrediction(draft, t, text, anchors, keep, blockSize, mask, q)
         == Proposal(draft, t, text[..anchors[b] + 1], blockSize, mask)[k - 1]
  {
    BlockOf(q, b, k, blockSize);
    TrainingMatchesInference(t, text, anchors, keep, blockSize, mask, q, b);
  }

  lemma AgreedStep<F>(t: Target<F>, text: seq<Token>, proposal: seq<Token>, i: nat, k: nat)
    requires i < |text| && text[i] == t.next(Placed(text[..i])) && 1 <= k <= |proposal|
    ensures Agreed(t, text[..i], proposal[k - 1..])
         == if proposal[k - 1] == text[i] then 1 + Agreed(t, text[..i + 1], proposal[k..]) else 0
  {
    assert text[..i] + [text[i]] == text[..i + 1];
    assert proposal[k - 1..][1..] == proposal[k..];
  }
}
