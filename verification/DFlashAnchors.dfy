/** Anchor sampling, labels and weights of DFlash training (`_sample_anchor_positions`, label part of `forward`)
    and the dataset filter that keeps sampling from failing. */
module DFlashAnchors {
  import opened Prelude

  /** One batch row of the sampler's result. */
  datatype Row = Row(anchors: seq<int>, keep: seq<bool>)

  function MaxAnchor(seqLen: nat, blockSize: nat): nat {
    Max(seqLen - blockSize, 0)
  }

  /** `loss_mask[:, : max_anchor + 1] > 0.5` on an integer mask. */
  function ValidRow(loss: seq<int>, blockSize: nat): (valid: seq<bool>)
    requires |loss| >= 1 && blockSize >= 1
    ensures |valid| == MaxAnchor(|loss|, blockSize) + 1
  {
    seq(MaxAnchor(|loss|, blockSize) + 1, i requires 0 <= i <= MaxAnchor(|loss|, blockSize) => loss[i] > 0)
  }

  function ValidSet(valid: seq<bool>): set<nat> {
    set i: nat | i < |valid| && valid[i]
  }

  function ValidCount(valid: seq<bool>): nat {
    |ValidSet(valid)|
  }

  /** `valid_counts.max()`. */
  function MaxCount(rows: seq<seq<bool>>): (m: nat)
    ensures forall i :: 0 <= i < |rows| ==> ValidCount(rows[i]) <= m
    ensures rows != [] ==> exists i :: 0 <= i < |rows| && ValidCount(rows[i]) == m
  {
    if rows == [] then 0
    else
      var rest := MaxCount(rows[1..]);
      assert forall i :: 1 <= i < |rows| ==> rows[i] == rows[1..][i - 1];
      if |rows| > 1 && rest >= ValidCount(rows[0]) then
        var j :| 0 <= j < |rows[1..]| && ValidCount(rows[1..][j]) == rest;
        assert ValidCount(rows[j + 1]) == rest;
        rest
      else ValidCount(rows[0])
  }

  // ---------------------------------------------------------------- random order

  /** The random draw with invalid positions pushed behind every valid one. */
  function MaskedRandoms(valid: seq<bool>, rnd: seq<real>): (r: seq<real>)
    requires |valid| == |rnd|
    ensures |r| == |rnd|
  {
    seq(|rnd|, i requires 0 <= i < |rnd| => if valid[i] then rnd[i] else 2.0)
  }

  ghost predicate Permutation(perm: seq<nat>) {
    && Distinct(perm)
    && (forall i :: 0 <= i < |perm| ==> perm[i] < |perm|)
    && forall v: nat :: v < |perm| ==> v in perm
  }

  /** `perm` is some index order that `sort` may return for `vals`. */
  ghost predicate SortOrder(perm: seq<nat>, vals: seq<real>) {
    && Permutation(perm) && |perm| == |vals|
    && forall i, j :: 0 <= i < j < |perm| ==> vals[perm[i]] <= vals[perm[j]]
  }

  ghost predicate InUnit(rnd: seq<real>) {
    forall i :: 0 <= i < |rnd| ==> 0.0 <= rnd[i] < 1.0
  }

  /** `torch.gather(masked_indices, 1, sorted_idx)`. */
  function Gathered(valid: seq<bool>, seqLen: nat, perm: seq<nat>): (r: seq<int>)
    requires Permutation(perm) && |perm| == |valid|
    ensures |r| == |perm|
  {
    seq(|perm|, i requires 0 <= i < |perm| => if valid[perm[i]] then perm[i] else seqLen + 1)
  }

  /** Lines 151-170 for one row: gather in random order, keep `maxN`, sort, blank what is not kept. */
  function SampleRow(valid: seq<bool>, seqLen: nat, maxN: nat, perm: seq<nat>): (row: Row)
    requires Permutation(perm) && |perm| == |valid| >= maxN
    ensures |row.anchors| == |row.keep| == maxN
  {
    var sorted := Sort(Gathered(valid, seqLen, perm)[..maxN]);
    var keep := seq(maxN, i => i < Min(ValidCount(valid), maxN));
    Row(seq(maxN, i requires 0 <= i < maxN => if keep[i] then sorted[i] else 0), keep)
  }

  /** Valid positions come first in every sort order, and there are `ValidCount` of them. */
  lemma ValidFirst(valid: seq<bool>, rnd: seq<real>, perm: seq<nat>)
    requires |valid| == |rnd| && InUnit(rnd) && SortOrder(perm, MaskedRandoms(valid, rnd))
    ensures ValidCount(valid) <= |perm|
    ensures forall i :: 0 <= i < |perm| ==> (valid[perm[i]] <==> i < ValidCount(valid))
  {
    var vals := MaskedRandoms(valid, rnd);
    var k := 0;
    while k < |perm| && valid[perm[k]]
      invariant 0 <= k <= |perm|
      invariant forall i :: 0 <= i < k ==> valid[perm[i]]
    {
      k := k + 1;
    }
    forall i | k <= i < |perm| ensures !valid[perm[i]] {
      assert vals[perm[k]] <= vals[perm[i]];
    }
    var front := perm[..k];
    DistinctCardinality(front);
    assert Elements(front) == ValidSet(valid) by {
      forall v | v in ValidSet(valid) ensures v in front {
        assert v in perm;
        var i :| 0 <= i < |perm| && perm[i] == v;
        assert front[i] == v;
      }
    }
  }

  lemma SortedAppend(a: seq<int>, b: seq<int>)
    requires Sorted(a) && Sorted(b)
    requires forall i, j :: 0 <= i < |a| && 0 <= j < |b| ==> a[i] <= b[j]
    ensures Sorted(a + b)
  {
  }

  lemma SameAppended(a: seq<int>, b: seq<int>, c: seq<int>)
    requires multiset(a) == multiset(b)
    ensures multiset(a + c) == multiset(b + c)
  {
    assert multiset(a + c) == multiset(a) + multiset(c);
    assert multiset(b + c) == multiset(b) + multiset(c);
  }

  /** Anything ascending with the same elements is the sorted sequence. */
  lemma SortedIs(s: seq<int>, sorted: seq<int>)
    requires Sorted(sorted) && multiset(sorted) == multiset(s)
    ensures Sort(s) == sorted
  {
    SortedUnique(sorted, Sort(s));
  }

  lemma SortedBelow(s: seq<int>, big: int)
    requires forall i :: 0 <= i < |s| ==> s[i] < big
    ensures forall i :: 0 <= i < |s| ==> Sort(s)[i] < big
  {
    SameElements(s, Sort(s));
    forall i | 0 <= i < |s| ensures Sort(s)[i] < big {
      assert Sort(s)[i] in s;
    }
  }

  /** Sorting pushes the constant filler, larger than everything real, to the end. */
  lemma SortWithFiller(front: seq<int>, big: int, n: nat)
    requires forall i :: 0 <= i < |front| ==> front[i] < big
    ensures Sort(front + Repeat(big, n)) == Sort(front) + Repeat(big, n)
  {
    var filler := Repeat(big, n);
    var sorted := Sort(front);
    SortedBelow(front, big);
    SortedAppend(sorted, filler);
    SameAppended(sorted, front, filler);
    SortedIs(front + filler, sorted + filler);
  }

  ghost predicate StrictlyIncreasing(s: seq<int>) {
    forall i, j :: 0 <= i < j < |s| ==> s[i] < s[j]
  }

  /** The kept anchors are the first entries of the random order, sorted. */
  lemma KeptAreSorted(valid: seq<bool>, seqLen: nat, maxN: nat, rnd: seq<real>, perm: seq<nat>, c: nat)
    requires |valid| == |rnd| && InUnit(rnd) && SortOrder(perm, MaskedRandoms(valid, rnd))
    requires maxN <= |valid| <= seqLen + 1 && c == Min(ValidCount(valid), maxN)
    ensures SampleRow(valid, seqLen, maxN, perm).anchors[..c] == Sort(perm[..c])
    ensures forall i :: 0 <= i < c ==> perm[i] in ValidSet(valid)
  {
    ValidFirst(valid, rnd, perm);
    SortedGather(valid, seqLen, maxN, perm, c, perm[..c], Gathered(valid, seqLen, perm)[..maxN]);
    KeptFront(valid, seqLen, maxN, perm, c, Sort(perm[..c]), Repeat(seqLen + 1, maxN - c));
  }

  /** Sorting what was gathered puts the valid positions first, in order, and the filler last. */
  lemma SortedGather(valid: seq<bool>, seqLen: nat, maxN: nat, perm: seq<nat>, c: nat, front: seq<int>,
                     gathered: seq<int>)
    requires Permutation(perm) && |perm| == |valid| >= maxN && c == Min(ValidCount(valid), maxN)
          && |valid| <= seqLen + 1
    requires forall i :: 0 <= i < |perm| ==> (valid[perm[i]] <==> i < ValidCount(valid))
    requires front == perm[..c] && gathered == Gathered(valid, seqLen, perm)[..maxN]
    ensures Sort(gathered) == Sort(front) + Repeat(seqLen + 1, maxN - c)
  {
    GatheredFront(valid, seqLen, perm, maxN, c);
    SortWithFiller(front, seqLen + 1, maxN - c);
  }

  lemma KeptFront(valid: seq<bool>, seqLen: nat, maxN: nat, perm: seq<nat>, c: nat, front: seq<int>, rest: seq<int>)
    requires Permutation(perm) && |perm| == |valid| >= maxN && c == Min(ValidCount(valid), maxN)
    requires |front| == c && Sort(Gathered(valid, seqLen, perm)[..maxN]) == front + rest
    ensures SampleRow(valid, seqLen, maxN, perm).anchors[..c] == front
  {
  }

  lemma GatheredFront(valid: seq<bool>, seqLen: nat, perm: seq<nat>, maxN: nat, c: nat)
    requires Permutation(perm) && |perm| == |valid| >= maxN && c == Min(ValidCount(valid), maxN)
    requires forall i :: 0 <= i < |perm| ==> (valid[perm[i]] <==> i < ValidCount(valid))
    ensures Gathered(valid, seqLen, perm)[..maxN] == perm[..c] + Repeat(seqLen + 1, maxN - c)
  {
  }

  /** For every draw and every sort order: exactly `min(valid_count, max_n)` anchors are kept, and they are distinct
      valid positions in increasing order. */
  lemma SampledRow(valid: seq<bool>, seqLen: nat, maxN: nat, rnd: seq<real>, perm: seq<nat>, c: nat)
    requires |valid| == |rnd| && InUnit(rnd) && SortOrder(perm, MaskedRandoms(valid, rnd))
    requires maxN <= |valid| <= seqLen + 1 && c == Min(ValidCount(valid), maxN)
    ensures var row := SampleRow(valid, seqLen, maxN, perm);
            && (forall i :: 0 <= i < maxN ==> (row.keep[i] <==> i < c))
            && StrictlyIncreasing(row.anchors[..c])
            && (forall i :: 0 <= i < c ==> row.anchors[i] in ValidSet(valid))
            && (forall i :: c <= i < maxN ==> row.anchors[i] == 0)
  {
    KeptAreSorted(valid, seqLen, maxN, rnd, perm, c);
    var row := SampleRow(valid, seqLen, maxN, perm);
    var front: seq<int> := perm[..c];
    var sorted := Sort(front);
    SameElements(front, sorted);
    forall i | 0 <= i < c ensures row.anchors[i] in ValidSet(valid) {
      assert row.anchors[i] == row.anchors[..c][i] == sorted[i];
      assert sorted[i] in front;
    }
  }

  /** The choice is the random one: no valid position left out drew a smaller number than one kept. */
  lemma SampledByRandom(valid: seq<bool>, seqLen: nat, maxN: nat, rnd: seq<real>, perm: seq<nat>, c: nat, i: nat,
                        v: nat)
    requires |valid| == |rnd| && InUnit(rnd) && SortOrder(perm, MaskedRandoms(valid, rnd))
    requires maxN <= |valid| <= seqLen + 1 && c == Min(ValidCount(valid), maxN)
    requires i < c && v in ValidSet(valid) && v !in SampleRow(valid, seqLen, maxN, perm).anchors[..c]
    ensures var a := SampleRow(valid, seqLen, maxN, perm).anchors[i];
            a in ValidSet(valid) && rnd[a] <= rnd[v]
  {
    KeptAreSorted(valid, seqLen, maxN, rnd, perm, c);
    var j := SortedFrom(perm[..c], SampleRow(valid, seqLen, maxN, perm).anchors[..c], i, v);
    FirstDrawSmallest(valid, rnd, perm, c, j, v);
  }

  lemma SortedFrom(front: seq<int>, anchors: seq<int>, i: nat, v: int) returns (j: nat)
    requires anchors == Sort(front) && i < |anchors| && v !in anchors
    ensures j < |front| && front[j] == anchors[i] && v !in front
  {
    SameElements(front, anchors);
    assert anchors[i] in front;
    j :| 0 <= j < |front| && front[j] == anchors[i];
  }

  /** What the random order puts among the first `c` drew no larger number than what it leaves out. */
  lemma FirstDrawSmallest(valid: seq<bool>, rnd: seq<real>, perm: seq<nat>, c: nat, j: nat, v: nat)
    requires |valid| == |rnd| && InUnit(rnd) && SortOrder(perm, MaskedRandoms(valid, rnd))
    requires j < c <= ValidCount(valid) && c <= |perm| && v in ValidSet(valid) && v !in perm[..c]
    ensures perm[j] in ValidSet(valid) && rnd[perm[j]] <= rnd[v]
  {
    ValidFirst(valid, rnd, perm);
    assert v in perm && perm == perm[..c] + perm[c..];
    var k :| 0 <= k < |perm[c..]| && perm[c..][k] == v;
    assert MaskedRandoms(valid, rnd)[perm[j]] <= MaskedRandoms(valid, rnd)[perm[c + k]];
  }

  // ---------------------------------------------------------------- the whole batch

  ghost predicate Batch(losses: seq<seq<int>>, seqLen: nat) {
    seqLen >= 1 && losses != [] && forall r :: 0 <= r < |losses| ==> |losses[r]| == seqLen
  }

  function ValidRows(losses: seq<seq<int>>, seqLen: nat, blockSize: nat): (rows: seq<seq<bool>>)
    requires Batch(losses, seqLen) && blockSize >= 1
    ensures |rows| == |losses|
    ensures forall r :: 0 <= r < |rows| ==> |rows[r]| == MaxAnchor(seqLen, blockSize) + 1
  {
    seq(|losses|, r requires 0 <= r < |losses| => ValidRow(losses[r], blockSize))
  }

  /** `max_n`. */
  function MaxN(losses: seq<seq<int>>, seqLen: nat, blockSize: nat, numAnchors: int): int
    requires Batch(losses, seqLen) && blockSize >= 1
  {
    Min(numAnchors, MaxCount(ValidRows(losses, seqLen, blockSize)) - 1)
  }

  /** Sort orders of some random draw for every row. */
  ghost predicate Draw(losses: seq<seq<int>>, seqLen: nat, blockSize: nat, rnds: seq<seq<real>>, perms: seq<seq<nat>>)
    requires Batch(losses, seqLen) && blockSize >= 1
  {
    && |rnds| == |perms| == |losses|
    && forall r :: 0 <= r < |losses| ==>
         |rnds[r]| == MaxAnchor(seqLen, blockSize) + 1 && InUnit(rnds[r]) &&
         SortOrder(perms[r], MaskedRandoms(ValidRows(losses, seqLen, blockSize)[r], rnds[r]))
  }

  lemma {:induction false} ValidCountBound(valid: seq<bool>)
    ensures ValidCount(valid) <= |valid|
  {
    if valid == [] {
      assert ValidSet(valid) == {};
    } else {
      var front := valid[..|valid| - 1];
      ValidCountBound(front);
      assert ValidSet(valid) == ValidSet(front) + if valid[|valid| - 1] then {|valid| - 1} else {};
    }
  }

  /** `_sample_anchor_positions`; `None` is its `ValueError`. */
  ghost function SampleAnchors(losses: seq<seq<int>>, seqLen: nat, blockSize: nat, numAnchors: int,
                               rnds: seq<seq<real>>, perms: seq<seq<nat>>): (rows: Option<seq<Row>>)
    requires Batch(losses, seqLen) && blockSize >= 1 && Draw(losses, seqLen, blockSize, rnds, perms)
    ensures rows.Some? ==> |rows.value| == |losses|
  {
    var maxN := MaxN(losses, seqLen, blockSize, numAnchors);
    if maxN <= 0 then None
    else
      var valid := ValidRows(losses, seqLen, blockSize);
      MaxCountBound(valid, MaxAnchor(seqLen, blockSize) + 1);
      Some(seq(|losses|, r requires 0 <= r < |losses| => SampleRow(valid[r], seqLen, maxN, perms[r])))
  }

  lemma MaxCountBound(rows: seq<seq<bool>>, width: nat)
    requires forall r :: 0 <= r < |rows| ==> |rows[r]| == width
    ensures rows != [] ==> MaxCount(rows) <= width
  {
    if rows != [] {
      var i :| 0 <= i < |rows| && ValidCount(rows[i]) == MaxCount(rows);
      ValidCountBound(rows[i]);
    }
  }

  /** The positions of a row that carry loss and leave room for a block. */
  function BlockStarts(loss: seq<int>, blockSize: nat): set<nat> {
    set i: nat | i < |loss| && i + blockSize <= |loss| && loss[i] > 0
  }

  /** `m` is the greatest number of such positions in a row. */
  ghost predicate MostStarts(losses: seq<seq<int>>, blockSize: nat, m: nat) {
    && (forall r :: 0 <= r < |losses| ==> |BlockStarts(losses[r], blockSize)| <= m)
    && exists r :: 0 <= r < |losses| && |BlockStarts(losses[r], blockSize)| == m
  }

  lemma ValidAreStarts(loss: seq<int>, blockSize: nat)
    requires 1 <= blockSize <= |loss|
    ensures ValidSet(ValidRow(loss, blockSize)) == BlockStarts(loss, blockSize)
  {
  }

  /** A text shorter than a block has one candidate at most. */
  lemma ShortText(loss: seq<int>, blockSize: nat)
    requires 1 <= |loss| < blockSize
    ensures ValidCount(ValidRow(loss, blockSize)) <= 1 && BlockStarts(loss, blockSize) == {}
  {
    ValidCountBound(ValidRow(loss, blockSize));
  }

  lemma MostIsMaxCount(losses: seq<seq<int>>, seqLen: nat, blockSize: nat, m: nat)
    requires Batch(losses, seqLen) && blockSize >= 1 && MostStarts(losses, blockSize, m)
    ensures blockSize <= seqLen ==> MaxCount(ValidRows(losses, seqLen, blockSize)) == m
    ensures seqLen < blockSize ==> m == 0 && MaxCount(ValidRows(losses, seqLen, blockSize)) <= 1
  {
    var valid := ValidRows(losses, seqLen, blockSize);
    var top := MaxCount(valid);
    var i :| 0 <= i < |valid| && ValidCount(valid[i]) == top;
    var j :| 0 <= j < |losses| && |BlockStarts(losses[j], blockSize)| == m;
    if blockSize <= seqLen {
      ValidAreStarts(losses[i], blockSize);
      ValidAreStarts(losses[j], blockSize);
      assert ValidCount(valid[j]) <= top;
    } else {
      ShortText(losses[i], blockSize);
      ShortText(losses[j], blockSize);
    }
  }

  /** Sampling fails if and only if no anchors are asked for, or no row has two positions to choose from. */
  lemma SamplingFailsIff(losses: seq<seq<int>>, seqLen: nat, blockSize: nat, numAnchors: int, rnds: seq<seq<real>>,
                         perms: seq<seq<nat>>, m: nat)
    requires Batch(losses, seqLen) && blockSize >= 1 && Draw(losses, seqLen, blockSize, rnds, perms)
    requires MostStarts(losses, blockSize, m)
    ensures SampleAnchors(losses, seqLen, blockSize, numAnchors, rnds, perms) == None <==> numAnchors < 1 || m < 2
  {
    MostIsMaxCount(losses, seqLen, blockSize, m);
  }

  /** Everything later code relies on, for any draw: how many anchors there are and how many of them count, that a kept
      anchor carries loss, and that its whole block lies in the text. */
  lemma SampledAnchors(losses: seq<seq<int>>, seqLen: nat, blockSize: nat, numAnchors: int, rnds: seq<seq<real>>,
                       perms: seq<seq<nat>>, r: nat, m: nat, maxN: nat, c: nat, row: Row)
    requires Batch(losses, seqLen) && blockSize >= 1 && Draw(losses, seqLen, blockSize, rnds, perms)
    requires r < |losses| && SampleAnchors(losses, seqLen, blockSize, numAnchors, rnds, perms).Some?
    requires row == SampleAnchors(losses, seqLen, blockSize, numAnchors, rnds, perms).value[r]
    requires MostStarts(losses, blockSize, m) && maxN == Max(0, Min(numAnchors, m - 1))
    requires c == Min(|BlockStarts(losses[r], blockSize)|, maxN)
    ensures seqLen > blockSize && |row.anchors| == |row.keep| == maxN
    ensures forall i :: 0 <= i < maxN ==> (row.keep[i] <==> i < c)
    ensures StrictlyIncreasing(row.anchors[..c])
    ensures forall i :: 0 <= i < c ==> row.anchors[i] in BlockStarts(losses[r], blockSize)
    ensures forall i :: c <= i < maxN ==> row.anchors[i] == 0
  {
    MostIsMaxCount(losses, seqLen, blockSize, m);
    var valid := ValidRows(losses, seqLen, blockSize);
    MaxCountBound(valid, MaxAnchor(seqLen, blockSize) + 1);
    ValidAreStarts(losses[r], blockSize);
    SampledRow(valid[r], seqLen, maxN, rnds[r], perms[r], c);
  }

  /** Every block of a sampled row, kept or not, lies in the text. */
  lemma BlocksFit(losses: seq<seq<int>>, seqLen: nat, blockSize: nat, numAnchors: int, rnds: seq<seq<real>>,
                  perms: seq<seq<nat>>, r: nat, row: Row)
    requires Batch(losses, seqLen) && blockSize >= 1 && Draw(losses, seqLen, blockSize, rnds, perms)
    requires r < |losses| && SampleAnchors(losses, seqLen, blockSize, numAnchors, rnds, perms).Some?
    requires row == SampleAnchors(losses, seqLen, blockSize, numAnchors, rnds, perms).value[r]
    ensures |row.anchors| == |row.keep|
    ensures forall i :: 0 <= i < |row.anchors| ==> 0 <= row.anchors[i] && row.anchors[i] + blockSize <= seqLen
  {
    var m := SomeMost(losses, blockSize);
    var most: int := m;
    var maxN: nat := Max(0, Min(numAnchors, most - 1));
    var c: nat := Min(|BlockStarts(losses[r], blockSize)|, maxN);
    SampledAnchors(losses, seqLen, blockSize, numAnchors, rnds, perms, r, m, maxN, c, row);
  }

  lemma {:induction false} SomeMost(losses: seq<seq<int>>, blockSize: nat) returns (m: nat)
    requires losses != []
    ensures MostStarts(losses, blockSize, m)
  {
    var x := |BlockStarts(losses[0], blockSize)|;
    if |losses| == 1 {
      m := x;
    } else {
      m := SomeMost(losses[1..], blockSize);
      var r :| 0 <= r < |losses[1..]| && |BlockStarts(losses[1..][r], blockSize)| == m;
      assert losses[1..][r] == losses[r + 1];
      assert forall i :: 1 <= i < |losses| ==> losses[i] == losses[1..][i - 1];
      m := Max(m, x);
    }
  }

  // ---------------------------------------------------------------- the dataset filter

  function Total(s: seq<int>): int {
    if s == [] then 0 else s[0] + Total(s[1..])
  }

  lemma {:induction false} TotalSplit(s: seq<int>, i: nat)
    requires i <= |s|
    ensures Total(s) == Total(s[..i]) + Total(s[i..])
  {
    if i > 0 {
      TotalSplit(s[1..], i - 1);
      assert s[1..][..i - 1] == s[..i][1..];
      assert s[1..][i - 1..] == s[i..];
    } else {
      assert s[..0] == [] && s[0..] == s;
    }
  }

  ghost predicate ZeroOne(s: seq<int>) {
    forall i :: 0 <= i < |s| ==> 0 <= s[i] <= 1
  }

  lemma {:induction false} TotalBound(s: seq<int>)
    requires ZeroOne(s)
    ensures Total(s) <= |s|
  {
    if s != [] {
      TotalBound(s[1..]);
    }
  }

  lemma {:induction false} TotalIsCount(s: seq<int>)
    requires ZeroOne(s)
    ensures Total(s) == |set i: nat | i < |s| && s[i] > 0|
  {
    if s != [] {
      var front, x := s[..|s| - 1], s[|s| - 1];
      TotalIsCount(front);
      TotalSplit(s, |s| - 1);
      assert s[|s| - 1..] == [x];
      var was := set i: nat | i < |front| && front[i] > 0;
      assert (set i: nat | i < |s| && s[i] > 0) == if x > 0 then was + {|s| - 1} else was;
    }
  }

  /** One row with more than `blockSize` loss tokens is enough; the filter in `train_dflash.py` asks for twice that
      many in every row. */
  lemma FilterPreventsError(losses: seq<seq<int>>, seqLen: nat, blockSize: nat, numAnchors: int, rnds: seq<seq<real>>,
                            perms: seq<seq<nat>>, r: nat)
    requires Batch(losses, seqLen) && blockSize >= 1 && Draw(losses, seqLen, blockSize, rnds, perms)
    requires numAnchors >= 1 && r < |losses| && ZeroOne(losses[r]) && Total(losses[r]) > blockSize
    ensures SampleAnchors(losses, seqLen, blockSize, numAnchors, rnds, perms).Some?
  {
    var loss := losses[r];
    TotalBound(loss);
    var valid := ValidRows(losses, seqLen, blockSize)[r];
    var head, tail := loss[..|valid|], loss[|valid|..];
    TotalSplit(loss, |valid|);
    TotalBound(tail);
    TotalIsCount(head);
    assert (set i: nat | i < |head| && head[i] > 0) == ValidSet(valid);
    assert ValidCount(valid) <= MaxCount(ValidRows(losses, seqLen, blockSize));
  }

  /** With exactly `blockSize` loss tokens sampling can fail: put them at the end of the text. */
  lemma FilterIsTight(blockSize: nat, numAnchors: int, rnd: seq<real>, perm: seq<nat>)
    requires blockSize >= 1
    requires var losses := [Repeat(0, 1) + Repeat(1, blockSize)];
             Draw(losses, blockSize + 1, blockSize, [rnd], [perm])
    ensures var losses := [Repeat(0, 1) + Repeat(1, blockSize)];
            && Total(losses[0]) == blockSize
            && SampleAnchors(losses, blockSize + 1, blockSize, numAnchors, [rnd], [perm]).None?
  {
    var loss: seq<int> := Repeat(0, 1) + Repeat(1, blockSize);
    TotalSplit(loss, 1);
    assert loss[..1] == [0] && loss[1..] == Repeat(1, blockSize);
    TotalOfOnes(blockSize);
    var valid := ValidRows([loss], blockSize + 1, blockSize);
    assert ValidSet(valid[0]) == {1};
    assert MaxCount(valid) == 1;
  }

  lemma {:induction false} TotalOfOnes(n: nat)
    ensures Total(Repeat(1, n)) == n
  {
    if n > 0 {
      TotalOfOnes(n - 1);
      assert Repeat(1, n)[1..] == Repeat(1, n - 1);
    }
  }

  // ---------------------------------------------------------------- labels and weights

  /** `clamp(max = seq_len - 1)`. */
  function Safe(i: int, seqLen: nat): int {
    Min(i, seqLen - 1)
  }

  /** `target_ids[b, k]`: row `k` of a block predicts the token at `anchor + k`. */
  function Label(inputIds: seq<int>, row: Row, b: nat, k: nat): int
    requires inputIds != [] && b < |row.anchors| && row.anchors[b] >= 0
  {
    inputIds[Safe(row.anchors[b] + k, |inputIds|)]
  }

  /** Lines 291-304: the product of block validity, bounds, `k > 0` and the gathered loss mask. */
  method WeightMask(loss: seq<int>, row: Row, blockSize: nat, b: nat, k: nat) returns (weight: int)
    requires loss != [] && b < |row.anchors| == |row.keep| && k < blockSize && row.anchors[b] >= 0
    ensures weight == if row.keep[b] && k > 0 && row.anchors[b] + k < |loss| then loss[row.anchors[b] + k] else 0
  {
    var labelIndex := row.anchors[b] + k;
    weight := if row.keep[b] then 1 else 0;
    weight := weight * (if labelIndex < |loss| then 1 else 0);
    weight := weight * (if k > 0 then 1 else 0);
    weight := weight * loss[Safe(labelIndex, |loss|)];
  }

  /** On sampled anchors no clamp changes an index, so row `k` of a block is labelled with the token at `anchor + k`. */
  lemma ClampsAreIdle(inputIds: seq<int>, losses: seq<seq<int>>, seqLen: nat, blockSize: nat, numAnchors: int,
                      rnds: seq<seq<real>>, perms: seq<seq<nat>>, r: nat, b: nat, k: nat)
    requires Batch(losses, seqLen) && blockSize >= 1 && Draw(losses, seqLen, blockSize, rnds, perms)
          && |inputIds| == seqLen
    requires r < |losses| && SampleAnchors(losses, seqLen, blockSize, numAnchors, rnds, perms).Some?
    requires b < |SampleAnchors(losses, seqLen, blockSize, numAnchors, rnds, perms).value[r].anchors| && k < blockSize
    ensures var row := SampleAnchors(losses, seqLen, blockSize, numAnchors, rnds, perms).value[r];
            var a := row.anchors[b];
            && 0 <= a && a + blockSize <= seqLen && Safe(a, seqLen) == a && Safe(a + k, seqLen) == a + k
            && Label(inputIds, row, b, k) == inputIds[a + k]
  {
    BlocksFit(losses, seqLen, blockSize, numAnchors, rnds, perms, r,
              SampleAnchors(losses, seqLen, blockSize, numAnchors, rnds, perms).value[r]);
    IdleAt(inputIds, SampleAnchors(losses, seqLen, blockSize, numAnchors, rnds, perms).value[r], blockSize, b, k);
  }

  lemma IdleAt(inputIds: seq<int>, row: Row, blockSize: nat, b: nat, k: nat)
    requires b < |row.anchors| && k < blockSize && 0 <= row.anchors[b] && row.anchors[b] + blockSize <= |inputIds|
    ensures var a := row.anchors[b];
            Safe(a, |inputIds|) == a && Safe(a + k, |inputIds|) == a + k
              && Label(inputIds, row, b, k) == inputIds[a + k]
  {
  }
}
