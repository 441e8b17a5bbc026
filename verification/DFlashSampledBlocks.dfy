/** Anchor sampling and the training view put together. */
module DFlashSampledBlocks {
  import opened Prelude
  import opened SpecDecoding
  import opened DFlashTraining
  import A = DFlashAnchors

  /** If `q` is a query and its block is kept, it sees what the draft sees at inference after the block's anchor. */
  ghost predicate SeesInferenceView<F>(t: Target<F>, text: seq<Token>, mask: Token, anchors: seq<nat>, keep: seq<bool>,
                                       blockSize: nat, q: nat)
    requires |anchors| == |keep| && blockSize >= 1
  {
    q < |anchors| * blockSize ==>
      var b := q / blockSize;
      && b < |anchors|
      && (keep[b] ==>
            && anchors[b] + blockSize <= |text|
            && TrainingView(t, text, anchors, keep, blockSize, mask, q)
              == InferenceKeys(t, text[..anchors[b] + 1], blockSize, mask)
            && PositionIds(anchors, blockSize)[q] == anchors[b] + q % blockSize)
  }

  /** Whatever the random values, every query of every block that sampling keeps sees in training exactly what the draft
      sees at inference after the anchor, at the same position. */
  lemma SampledBlocksMatchInference<F>(t: Target<F>, text: seq<Token>, mask: Token, losses: seq<seq<int>>,
                                       blockSize: nat, numAnchors: int, rnds: seq<seq<real>>, perms: seq<seq<nat>>,
                                       r: nat, q: nat)
    returns (anchors: seq<nat>, keep: seq<bool>)
    requires A.Batch(losses, |text|) && blockSize >= 1 && A.Draw(losses, |text|, blockSize, rnds, perms)
    requires r < |losses| && A.SampleAnchors(losses, |text|, blockSize, numAnchors, rnds, perms).Some?
    ensures A.Row(anchors, keep) == A.SampleAnchors(losses, |text|, blockSize, numAnchors, rnds, perms).value[r]
    ensures |anchors| == |keep| && SeesInferenceView(t, text, mask, anchors, keep, blockSize, q)
  {
    anchors, keep := SampledRowFits(|text|, losses, blockSize, numAnchors, rnds, perms, r);
    KeptBlockMatches(t, text, mask, anchors, keep, blockSize, q);
  }

  /** The anchors of a row are positions with room for a block. */
  lemma SampledRowFits(n: nat, losses: seq<seq<int>>, blockSize: nat, numAnchors: int, rnds: seq<seq<real>>,
                       perms: seq<seq<nat>>, r: nat)
    returns (anchors: seq<nat>, keep: seq<bool>)
    requires A.Batch(losses, n) && blockSize >= 1 && A.Draw(losses, n, blockSize, rnds, perms)
    requires r < |losses| && A.SampleAnchors(losses, n, blockSize, numAnchors, rnds, perms).Some?
    ensures A.Row(anchors, keep) == A.SampleAnchors(losses, n, blockSize, numAnchors, rnds, perms).value[r]
    ensures |anchors| == |keep| && forall i :: 0 <= i < |anchors| ==> anchors[i] + blockSize <= n
  {
    var row := A.SampleAnchors(losses, n, blockSize, numAnchors, rnds, perms).value[r];
    A.BlocksFit(losses, n, blockSize, numAnchors, rnds, perms, r, row);
    anchors, keep := NonNegative(row.anchors), row.keep;
  }

  lemma KeptBlockMatches<F>(t: Target<F>, text: seq<Token>, mask: Token, anchors: seq<nat>, keep: seq<bool>,
                            blockSize: nat, q: nat)
    requires |anchors| == |keep| && blockSize >= 1 && forall i :: 0 <= i < |anchors| ==>
               anchors[i] + blockSize <= |text|
    ensures SeesInferenceView(t, text, mask, anchors, keep, blockSize, q)
  {
    BlockBound(q, |anchors|, blockSize);
    if q < |anchors| * blockSize && keep[q / blockSize] {
      TrainingMatchesInference(t, text, anchors, keep, blockSize, mask, q, q / blockSize);
    }
  }

  function NonNegative(s: seq<int>): (r: seq<nat>)
    requires forall i :: 0 <= i < |s| ==> s[i] >= 0
    ensures r == s
  {
    seq(|s|, i requires 0 <= i < |s| => s[i])
  }
}
