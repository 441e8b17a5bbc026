/** Block speculative decoding with a DFlash draft: `_spec_generate_npu_safe`.

    The target model is a pair of arbitrary functions of the placed tokens its cache was built
    from (greedy choice and hidden feature), the draft an arbitrary function of the keys it attends
    to. A KV cache is the sequence of entries appended to it. */
module SpecDecoding {
  import opened Prelude

  type Token = int

  /** A token together with the position id it was embedded with. */
  datatype Slot = Slot(tok: Token, pos: nat)

  /** What the draft attends to: a feature of the target or an embedded block token. */
  datatype Key<+F> = ContextKey(feature: F, pos: nat) | NoiseKey(tok: Token, pos: nat)

  /** Temperature 0: `next` is the argmax token after the given slots. Attention in the target is causal,
      so both functions see exactly the slots up to and including the queried one. */
  datatype Target<+F> = Target(next: seq<Slot> -> Token, feature: seq<Slot> -> F)

  /** Row `j` of the draft's output, given every key its queries attend to. */
  type Draft<!F> = (seq<Key<F>>, nat) -> Token

  function Placed(toks: seq<Token>): (s: seq<Slot>)
    ensures |s| == |toks|
    ensures forall i :: 0 <= i < |s| ==> s[i] == Slot(toks[i], i)
  {
    seq(|toks|, i requires 0 <= i < |toks| => Slot(toks[i], i))
  }

  // ---------------------------------------------------------------- reference decoding

  /** Plain greedy decoding: `prompt` and the `n` tokens the target appends to it one at a time. */
  function Greedy<F>(t: Target<F>, prompt: seq<Token>, n: nat): (s: seq<Token>)
    ensures |s| == |prompt| + n
  {
    if n == 0 then prompt
    else
      var s := Greedy(t, prompt, n - 1);
      s + [t.next(Placed(s))]
  }

  lemma {:induction false} GreedyPrefix<F>(t: Target<F>, prompt: seq<Token>, n: nat, m: nat)
    requires n <= m
    ensures Greedy(t, prompt, m)[..|prompt| + n] == Greedy(t, prompt, n)
  {
    if n < m {
      GreedyPrefix(t, prompt, n, m - 1);
      var s := Greedy(t, prompt, m - 1);
      assert Greedy(t, prompt, m)[..|prompt| + n] == s[..|prompt| + n];
    }
  }

  /** `s` up to and including its first stop token. */
  function CutAfterStop(s: seq<Token>, stops: seq<Token>): (r: seq<Token>)
    ensures |r| <= |s|
    ensures r == s[..|r|]
  {
    if s == [] then []
    else if s[0] in stops then [s[0]]
    else [s[0]] + CutAfterStop(s[1..], stops)
  }

  /** What decoding is for: the prompt, then the target's greedy text cut at the budget and the first stop. */
  function Reference<F>(t: Target<F>, prompt: seq<Token>, maxNew: nat, stops: seq<Token>): seq<Token> {
    prompt + CutAfterStop(Greedy(t, prompt, maxNew)[|prompt|..], stops)
  }

  // ---------------------------------------------------------------- the draft's view

  function ContextKeys<F>(t: Target<F>, toks: seq<Token>): (r: seq<Key<F>>)
    ensures |r| == |toks|
  {
    seq(|toks|, i requires 0 <= i < |toks| => ContextKey(t.feature(Placed(toks[..i + 1])), i))
  }

  function NoiseKeys<F>(toks: seq<Token>, from: nat): (r: seq<Key<F>>)
    ensures |r| == |toks|
  {
    seq(|toks|, i requires 0 <= i < |toks| => NoiseKey(toks[i], from + i))
  }

  /** With `toks` decided and the last of them at index `start`: features of everything before `start`,
      then a block holding the last decided token followed by masks, all at their absolute positions. */
  function InferenceKeys<F>(t: Target<F>, toks: seq<Token>, blockSize: nat, mask: Token): seq<Key<F>>
    requires toks != [] && blockSize >= 1
  {
    var start := |toks| - 1;
    ContextKeys(t, toks[..start]) + NoiseKeys([toks[start]] + Repeat(mask, blockSize - 1), start)
  }

  /** The tokens the draft proposes after `toks`. */
  function Proposal<F>(draft: Draft<F>, t: Target<F>, toks: seq<Token>, blockSize: nat, mask: Token): seq<Token>
    requires toks != [] && blockSize >= 1
  {
    seq(blockSize - 1, j requires 0 <= j => draft(InferenceKeys(t, toks, blockSize, mask), j + 1))
  }

  /** How many proposed tokens plain greedy decoding would itself have produced after `toks`. */
  function Agreed<F>(t: Target<F>, toks: seq<Token>, proposal: seq<Token>): (k: nat)
    ensures k <= |proposal|
    decreases |proposal|
  {
    if proposal == [] || proposal[0] != t.next(Placed(toks)) then 0
    else 1 + Agreed(t, toks + [proposal[0]], proposal[1..])
  }

  // ---------------------------------------------------------------- acceptance length

  /** `(a == b).int().cumprod().sum()`, with `p` the product so far. */
  function CumProdSum(bits: seq<int>, p: int): int {
    if bits == [] then 0 else p * bits[0] + CumProdSum(bits[1..], p * bits[0])
  }

  function Matches(a: seq<Token>, b: seq<Token>): (bits: seq<int>)
    requires |a| == |b|
    ensures |bits| == |a|
  {
    seq(|a|, i requires 0 <= i < |a| => if a[i] == b[i] then 1 else 0)
  }

  lemma {:induction false} CumProdZero(bits: seq<int>)
    ensures CumProdSum(bits, 0) == 0
  {
    if bits != [] {
      CumProdZero(bits[1..]);
    }
  }

  /** The tensor expression counts the longest matching prefix. */
  lemma {:induction false} CumProdIsPrefixLength(a: seq<Token>, b: seq<Token>)
    requires |a| == |b|
    ensures 0 <= CumProdSum(Matches(a, b), 1) <= |a|
    ensures var k := CumProdSum(Matches(a, b), 1);
            a[..k] == b[..k] && (k < |a| ==> a[k] != b[k])
  {
    if a != [] {
      var bits := Matches(a, b);
      assert bits[1..] == Matches(a[1..], b[1..]);
      if a[0] == b[0] {
        CumProdIsPrefixLength(a[1..], b[1..]);
        var k := CumProdSum(bits[1..], 1);
        assert CumProdSum(bits, 1) == k + 1;
        assert a[..k + 1] == [a[0]] + a[1..][..k];
        assert b[..k + 1] == [b[0]] + b[1..][..k];
      } else {
        CumProdZero(bits[1..]);
      }
    }
  }

  lemma MatchedPrefix(proposal: seq<Token>, posterior: seq<Token>)
    requires |posterior| == |proposal| + 1
    ensures var k := CumProdSum(Matches(proposal, posterior[..|proposal|]), 1);
            && 0 <= k <= |proposal|
            && (forall j :: 0 <= j < k ==> proposal[j] == posterior[j])
            && (k < |proposal| ==> proposal[k] != posterior[k])
  {
    var b := posterior[..|proposal|];
    CumProdIsPrefixLength(proposal, b);
    var k := CumProdSum(Matches(proposal, b), 1);
    forall j | 0 <= j < k ensures proposal[j] == posterior[j] {
      assert proposal[..k][j] == b[..k][j];
    }
  }

  // ---------------------------------------------------------------- caches and models

  /** A key/value cache: entries are appended by a forward pass and cut back by `crop`. */
  class DynamicCache<T> {
    var entries: seq<T>

    constructor ()
      ensures entries == []
    {
      entries := [];
    }

    function SeqLength(): nat
      reads this
    {
      |entries|
    }

    method Update(more: seq<T>)
      modifies this
      ensures entries == old(entries) + more
    {
      entries := entries + more;
    }

    method Crop(n: nat)
      modifies this
      ensures entries == if n < |old(entries)| then old(entries)[..n] else old(entries)
    {
      if n < |entries| {
        entries := entries[..n];
      }
    }
  }

  function Slots(ids: seq<Token>, positions: seq<nat>): (r: seq<Slot>)
    requires |ids| == |positions|
    ensures |r| == |ids|
  {
    seq(|ids|, i requires 0 <= i < |ids| => Slot(ids[i], positions[i]))
  }

  /** One target forward pass over `ids`: greedy choice and hidden feature after every one of them. */
  method TargetForward<F>(t: Target<F>, ids: seq<Token>, positions: seq<nat>, cache: DynamicCache<Slot>)
    returns (choices: seq<Token>, hidden: seq<F>)
    requires |ids| == |positions|
    modifies cache
    ensures cache.entries == old(cache.entries) + Slots(ids, positions)
    ensures |choices| == |hidden| == |ids|
    ensures forall i :: 0 <= i < |ids| ==>
              choices[i] == t.next(cache.entries[..|old(cache.entries)| + i + 1]) &&
              hidden[i] == t.feature(cache.entries[..|old(cache.entries)| + i + 1])
  {
    var past := cache.SeqLength();
    cache.Update(Slots(ids, positions));
    var all := cache.entries;
    choices := seq(|ids|, i requires 0 <= i < |ids| => t.next(all[..past + i + 1]));
    hidden := seq(|ids|, i requires 0 <= i < |ids| => t.feature(all[..past + i + 1]));
  }

  function PassKeys<F>(targetHidden: seq<F>, noise: seq<Token>, positions: seq<nat>): (r: seq<Key<F>>)
    requires |positions| == |targetHidden| + |noise|
    ensures |r| == |positions|
  {
    seq(|targetHidden|, i requires 0 <= i < |targetHidden| => ContextKey(targetHidden[i], positions[i])) +
    seq(|noise|, i requires 0 <= i < |noise| => NoiseKey(noise[i], positions[|targetHidden| + i]))
  }

  /** One draft forward pass: context keys, then the block's own keys, are appended to the cache and all
      of the cache is attended to. Rotary positions must cover both parts. */
  method DraftForward<F>(draft: Draft<F>, targetHidden: seq<F>, noise: seq<Token>, positions: seq<nat>,
                         cache: DynamicCache<Key<F>>)
    returns (rows: seq<Token>)
    requires |positions| == |targetHidden| + |noise|
    modifies cache
    ensures cache.entries == old(cache.entries) + PassKeys(targetHidden, noise, positions)
    ensures |rows| == |noise|
    ensures forall j :: 0 <= j < |noise| ==> rows[j] == draft(cache.entries, j)
  {
    cache.Update(PassKeys(targetHidden, noise, positions));
    var all := cache.entries;
    rows := seq(|noise|, j requires 0 <= j < |noise| => draft(all, j));
  }

  // ---------------------------------------------------------------- verification of one block

  /** The target's choices after each token of `toks + proposal`, from the last of `toks` on. */
  ghost predicate Posterior<F>(t: Target<F>, toks: seq<Token>, proposal: seq<Token>, posterior: seq<Token>) {
    && |posterior| == |proposal| + 1
    && forall j :: 0 <= j <= |proposal| ==> posterior[j] == t.next(Placed(toks + proposal[..j]))
  }

  /** Tokens that match the posterior, and then one more choice of the target, extend greedy text. */
  lemma {:induction false} AcceptedIsGreedy<F>(
    t: Target<F>, prompt: seq<Token>, m: nat, toks: seq<Token>, proposal: seq<Token>, posterior: seq<Token>, k: nat)
    requires toks == Greedy(t, prompt, m)
    requires Posterior(t, toks, proposal, posterior)
    requires k <= |proposal| && forall j :: 0 <= j < k ==> proposal[j] == posterior[j]
    ensures toks + proposal[..k] + [posterior[k]] == Greedy(t, prompt, m + k + 1)
  {
    assert posterior[k] == t.next(Placed(toks + proposal[..k]));
    if k == 0 {
      assert toks + proposal[..k] == toks;
    } else {
      AcceptedIsGreedy(t, prompt, m, toks, proposal, posterior, k - 1);
      assert toks + proposal[..k - 1] + [posterior[k - 1]] == toks + proposal[..k];
    }
  }

  /** The longest prefix that matches the posterior is the longest one greedy decoding agrees with. */
  lemma {:induction false} AcceptedIsAgreed<F>(
    t: Target<F>, toks: seq<Token>, proposal: seq<Token>, posterior: seq<Token>, k: nat)
    requires Posterior(t, toks, proposal, posterior)
    requires k <= |proposal| && forall j :: 0 <= j < k ==> proposal[j] == posterior[j]
    requires k < |proposal| ==> proposal[k] != posterior[k]
    ensures Agreed(t, toks, proposal) == k
    decreases k
  {
    assert toks + proposal[..0] == toks;
    assert posterior[0] == t.next(Placed(toks));
    if k > 0 {
      assert Posterior(t, toks + [proposal[0]], proposal[1..], posterior[1..]) by {
        forall j | 0 <= j <= |proposal[1..]|
          ensures posterior[1..][j] == t.next(Placed(toks + [proposal[0]] + proposal[1..][..j]))
        {
          assert toks + [proposal[0]] + proposal[1..][..j] == toks + proposal[..j + 1];
        }
      }
      AcceptedIsAgreed(t, toks + [proposal[0]], proposal[1..], posterior[1..], k - 1);
    }
  }

  // ---------------------------------------------------------------- post-processing

  predicate HasStop(s: seq<Token>, stops: seq<Token>) {
    exists i :: 0 <= i < |s| && s[i] in stops
  }

  /** Lines 160-170: drop masks, then cut after the first stop token at or beyond index `n`. */
  function Finish(raw: seq<Token>, n: nat, mask: Token, stops: seq<Token>): seq<Token> {
    var kept := Without(mask, raw);
    if n <= |kept| then kept[..n] + CutAfterStop(kept[n..], stops) else kept
  }

  lemma {:induction false} CutCommutesWithFilter(mask: Token, s: seq<Token>, stops: seq<Token>)
    requires mask !in stops
    ensures CutAfterStop(Without(mask, s), stops) == Without(mask, CutAfterStop(s, stops))
  {
    if s != [] {
      CutCommutesWithFilter(mask, s[1..], stops);
      var rest := CutAfterStop(s[1..], stops);
      if s[0] !in stops {
        assert CutAfterStop(s, stops)[1..] == rest;
      }
    }
  }

  lemma {:induction false} CutIgnoresTail(s: seq<Token>, more: seq<Token>, stops: seq<Token>)
    requires HasStop(s, stops)
    ensures CutAfterStop(s + more, stops) == CutAfterStop(s, stops)
  {
    assert s != [];
    assert (s + more)[1..] == s[1..] + more;
    if s[0] !in stops {
      var i :| 0 <= i < |s| && s[i] in stops;
      assert s[1..][i - 1] in stops;
      CutIgnoresTail(s[1..], more, stops);
    }
  }

  /** `torch.isin(...).nonzero()[0]` and the slice after it. */
  method CutAtFirstStop(s: seq<Token>, n: nat, stops: seq<Token>) returns (r: seq<Token>)
    ensures r == if n <= |s| then s[..n] + CutAfterStop(s[n..], stops) else s
  {
    var i := n;
    while i < |s| && s[i] !in stops
      invariant n <= i && (i <= |s| || i == n)
      invariant forall j :: n <= j < i && j < |s| ==> s[j] !in stops
    {
      i := i + 1;
    }
    if n <= |s| {
      CutAt(s, n, i, stops);
    }
    r := if i < |s| then s[..i + 1] else s;
  }

  /** Cutting after the first stop token at or beyond `n` is cutting after index `i`, if `i` is where that token is. */
  lemma {:induction false} CutAt(s: seq<Token>, n: nat, i: nat, stops: seq<Token>)
    requires n <= i <= |s| && (forall j :: n <= j < i ==> s[j] !in stops) && (i < |s| ==> s[i] in stops)
    ensures s[..n] + CutAfterStop(s[n..], stops) == if i < |s| then s[..i + 1] else s
    decreases i - n
  {
    if n < |s| {
      CutStep(s, n, stops);
    } else {
      assert s[..n] == s && s[n..] == [];
    }
    if n < i {
      CutAt(s, n + 1, i, stops);
    }
  }

  lemma CutStep(s: seq<Token>, i: nat, stops: seq<Token>)
    requires i < |s|
    ensures s[..i] + CutAfterStop(s[i..], stops) == s[..i + 1] + if s[i] in stops then []
              else CutAfterStop(s[i + 1..], stops)
  {
    var rest, c := s[i..], if s[i] in stops then [] else CutAfterStop(s[i + 1..], stops);
    assert rest[0] == s[i] && rest[1..] == s[i + 1..];
    assert CutAfterStop(rest, stops) == [s[i]] + c;
    assert s[..i + 1] == s[..i] + [s[i]];
    Reassociate(s[..i], [s[i]], c);
  }

  lemma Reassociate(a: seq<Token>, b: seq<Token>, c: seq<Token>)
    ensures a + (b + c) == (a + b) + c
  {
  }

  // ---------------------------------------------------------------- the decoding loop

  /** The tokens decided when round `r` begins, given the lengths accepted in earlier rounds. */
  function Decided<F>(t: Target<F>, prompt: seq<Token>, accepted: seq<nat>, r: nat): (toks: seq<Token>)
    requires r <= |accepted|
    ensures |toks| == |prompt| + Sum(accepted[..r]) + 1
  {
    Greedy(t, prompt, Sum(accepted[..r]) + 1)
  }

  /** Round `r`: it began within the budget, the draft was shown exactly the inference view of the decided
      tokens, and it accepted what greedy decoding agrees with plus one bonus token. */
  ghost predicate RoundOk<F>(draft: Draft<F>, t: Target<F>, prompt: seq<Token>, maxNew: nat, blockSize: nat,
                             mask: Token, accepted: seq<nat>, views: seq<seq<Key<F>>>, r: nat)
    requires r < |accepted| == |views| && blockSize >= 1
  {
    && Sum(accepted[..r]) < maxNew
    && var toks := Decided(t, prompt, accepted, r);
       && views[r] == InferenceKeys(t, toks, blockSize, mask)
       && accepted[r] == 1 + Agreed(t, toks, Proposal(draft, t, toks, blockSize, mask))
  }

  /** Features of `toks[from..]`, each computed from everything up to its own token. */
  function Features<F>(t: Target<F>, toks: seq<Token>, from: nat): (r: seq<F>)
    requires from <= |toks|
    ensures |r| == |toks| - from
  {
    seq(|toks| - from, i requires 0 <= i < |toks| - from => t.feature(Placed(toks[..from + i + 1])))
  }

  /** The loop-head invariant, `toks` being the decided text and `start` the index of its last token: the buffer
      holds `toks` and then masks, the target cache holds exactly the text before `start`, and draft cache plus
      pending features cover that text once. */
  ghost predicate LoopHead<F>(t: Target<F>, toks: seq<Token>, mask: Token, buffer: seq<Token>, start: nat,
                              targetCache: seq<Slot>, draftCache: seq<Key<F>>, targetHidden: seq<F>)
  {
    && |toks| == start + 1 <= |buffer|
    && buffer == toks + Repeat(mask, |buffer| - start - 1)
    && targetCache == Placed(toks[..start])
    && |draftCache| + |targetHidden| == start
    && draftCache == ContextKeys(t, toks[..|draftCache|])
    && targetHidden == Features(t, toks[..start], |draftCache|)
  }

  /** The keys of one draft pass at a loop head are the inference view of the decided tokens. */
  lemma PassShowsInferenceKeys<F>(t: Target<F>, toks: seq<Token>, blockSize: nat, mask: Token, c: nat,
                                  positions: seq<nat>)
    requires blockSize >= 1 && c < |toks|
    requires |positions| == |toks| - 1 + blockSize - c
    requires forall i :: 0 <= i < |positions| ==> positions[i] == c + i
    ensures ContextKeys(t, toks[..c]) +
            PassKeys(Features(t, toks[..|toks| - 1], c), [toks[|toks| - 1]] + Repeat(mask, blockSize - 1), positions)
         == InferenceKeys(t, toks, blockSize, mask)
  {
    var start := |toks| - 1;
    var block := [toks[start]] + Repeat(mask, blockSize - 1);
    var ctx := ContextKeys(t, toks[..start]);
    var hidden := Features(t, toks[..start], c);
    var pass := PassKeys(hidden, block, positions);
    var all := ContextKeys(t, toks[..c]) + pass;
    forall i | 0 <= i < start ensures all[i] == ctx[i] {
      assert toks[..start][..i + 1] == toks[..i + 1];
      if i < c {
        assert toks[..c][..i + 1] == toks[..i + 1];
      } else {
        assert pass[i - c] == ContextKey(hidden[i - c], positions[i - c]);
      }
    }
    var noise: seq<Key<F>> := NoiseKeys(block, start);
    forall i | 0 <= i < blockSize ensures all[start + i] == noise[i] {
      assert pass[start - c + i] == NoiseKey(block[i], positions[start - c + i]);
    }
    assert all == ctx + noise;
  }

  /** Verifying block `block` against the target and keeping `k + 1` of it plus a bonus choice. */
  lemma TargetPassIsPosterior<F>(t: Target<F>, before: seq<Token>, block: seq<Token>, cache: seq<Slot>,
                                 positions: seq<nat>, posterior: seq<Token>)
    requires |block| >= 1 && |positions| == |block| == |posterior|
    requires cache == Placed(before) + Slots(block, positions)
    requires forall i :: 0 <= i < |positions| ==> positions[i] == |before| + i
    requires forall i :: 0 <= i < |block| ==> posterior[i] == t.next(cache[..|before| + i + 1])
    ensures cache == Placed(before + block)
    ensures Posterior(t, before + [block[0]], block[1..], posterior)
  {
    assert cache == Placed(before + block);
    forall j | 0 <= j <= |block[1..]|
      ensures posterior[j] == t.next(Placed(before + [block[0]] + block[1..][..j]))
    {
      assert before + [block[0]] + block[1..][..j] == (before + block)[..|before| + j + 1];
      assert cache[..|before| + j + 1] == Placed((before + block)[..|before| + j + 1]);
    }
  }

  /** One round as a whole: from the greedy text `toks` ending at `start`, keeping `k + 1` block tokens and the
      target's choice after them gives the greedy text ending at `start + k + 1`. */
  lemma CommittedIsGreedy<F>(t: Target<F>, prompt: seq<Token>, m: nat, before: seq<Token>, block: seq<Token>,
                             posterior: seq<Token>, k: nat)
    requires |block| == |posterior| > k
    requires before + [block[0]] == Greedy(t, prompt, m)
    requires Posterior(t, before + [block[0]], block[1..], posterior)
    requires forall j :: 0 <= j < k ==> block[1..][j] == posterior[j]
    ensures before + block[..k + 1] + [posterior[k]] == Greedy(t, prompt, m + k + 1)
  {
    AcceptedIsGreedy(t, prompt, m, before + [block[0]], block[1..], posterior, k);
    SplitBlock(before, block, k);
  }

  lemma SplitBlock(before: seq<Token>, block: seq<Token>, k: nat)
    requires k < |block|
    ensures before + block[..k + 1] == before + [block[0]] + block[1..][..k]
  {
    assert block[..k + 1] == [block[0]] + block[1..][..k];
  }

  /** The draft half of a round: proposals from the inference view, draft cache cut back to context only. */
  method DraftBlock<F>(draft: Draft<F>, ghost t: Target<F>, ghost toks: seq<Token>, blockSize: nat, ghost mask: Token,
                       noise: seq<Token>, positionIds: seq<nat>, start: nat, draftCache: DynamicCache<Key<F>>,
                       targetHidden: seq<F>)
    returns (block: seq<Token>, ghost view: seq<Key<F>>)
    requires blockSize >= 1 && |toks| == start + 1
    requires |positionIds| >= start + blockSize && forall i :: 0 <= i < |positionIds| ==> positionIds[i] == i
    requires noise == [toks[start]] + Repeat(mask, blockSize - 1)
    requires |draftCache.entries| <= start && draftCache.entries == ContextKeys(t, toks[..|draftCache.entries|])
    requires targetHidden == Features(t, toks[..start], |draftCache.entries|)
    modifies draftCache
    ensures view == InferenceKeys(t, toks, blockSize, mask)
    ensures block == [toks[start]] + Proposal(draft, t, toks, blockSize, mask)
    ensures draftCache.entries == ContextKeys(t, toks[..start])
  {
    var past := draftCache.SeqLength();
    var positions := positionIds[past..start + blockSize];
    PassShowsInferenceKeys(t, toks, blockSize, mask, past, positions);
    var rows := DraftForward(draft, targetHidden, noise, positions, draftCache);
    view := draftCache.entries;
    draftCache.Crop(start);
    // one row per block position; the row of the already decided first token is dropped
    block := [noise[0]] + rows[1..];
    assert rows[1..] == Proposal(draft, t, toks, blockSize, mask);
  }

  /** The target half of a round: its choices along the block and the length of the matching prefix. */
  method VerifyBlock<F>(t: Target<F>, ghost before: seq<Token>, block: seq<Token>, positions: seq<nat>,
                        cache: DynamicCache<Slot>)
    returns (posterior: seq<Token>, hidden: seq<F>, k: nat)
    requires |block| == |positions| >= 1
    requires cache.entries == Placed(before)
    requires forall i :: 0 <= i < |positions| ==> positions[i] == |before| + i
    modifies cache
    ensures |posterior| == |block| > k
    ensures Posterior(t, before + [block[0]], block[1..], posterior)
    ensures forall j :: 0 <= j < k ==> block[1..][j] == posterior[j]
    ensures k == Agreed(t, before + [block[0]], block[1..])
    ensures cache.entries == Placed(before + block)
    ensures hidden == Features(t, before + block, |before|)
  {
    posterior, hidden := TargetForward(t, block, positions, cache);
    TargetPassIsPosterior(t, before, block, cache.entries, positions, posterior);
    MatchedPrefix(block[1..], posterior);
    k := CumProdSum(Matches(block[1..], posterior[..|block| - 1]), 1);
    AcceptedIsAgreed(t, before + [block[0]], block[1..], posterior, k);
    PassFeatures(t, before, block, cache.entries, hidden);
  }

  lemma PassFeatures<F>(t: Target<F>, before: seq<Token>, block: seq<Token>, slots: seq<Slot>, hidden: seq<F>)
    requires slots == Placed(before + block) && |hidden| == |block|
    requires forall i :: 0 <= i < |hidden| ==> hidden[i] == t.feature(slots[..|before| + i + 1])
    ensures hidden == Features(t, before + block, |before|)
  {
    forall i | 0 <= i < |block| ensures hidden[i] == Features(t, before + block, |before|)[i] {
      assert slots[..|before| + i + 1] == Placed((before + block)[..|before| + i + 1]);
    }
  }

  /** The two slice assignments into the output buffer. */
  method WriteBlock(outputIds: array<Token>, start: nat, block: seq<Token>, bonus: Token, k: nat)
    requires start + k + 1 < outputIds.Length && k < |block|
    modifies outputIds
    ensures outputIds[..] == old(outputIds[..])[..start] + block[..k + 1] + [bonus]
              + old(outputIds[..])[start + k + 2..]
  {
    forall i | start <= i < start + k + 1 { outputIds[i] := block[i - start]; }
    outputIds[start + k + 1] := bonus;
  }

  /** What the target computed along the block up to the last kept token depends on kept tokens only. */
  lemma CroppedPass<F>(t: Target<F>, before: seq<Token>, block: seq<Token>, toks': seq<Token>, start: nat, k: nat)
    requires |before| == start && k < |block| && |toks'| == start + k + 2
    requires toks'[..start + k + 1] == before + block[..k + 1]
    ensures Placed(before + block)[..start + k + 1] == Placed(toks'[..start + k + 1])
    ensures Features(t, before + block, start)[..k + 1] == Features(t, toks'[..start + k + 1], start)
  {
    var all := before + block;
    var kept := before + block[..k + 1];
    var a, b := Features(t, all, start)[..k + 1], Features(t, kept, start);
    forall i | 0 <= i <= k ensures a[i] == b[i] {
      assert all[..start + i + 1] == kept[..start + i + 1];
    }
  }

  /** Everything a round leaves behind satisfies the loop-head invariant again. */
  lemma RoundKeepsLoopHead<F>(t: Target<F>, before: seq<Token>, block: seq<Token>, bonus: Token, k: nat, pad: nat,
                              mask: Token, toks': seq<Token>, buffer: seq<Token>, targetCache: seq<Slot>,
                              draftCache: seq<Key<F>>, hidden: seq<F>)
    requires k < |block| && toks' == before + block[..k + 1] + [bonus]
    requires buffer == toks' + Repeat(mask, pad)
    requires targetCache == Placed(before + block)[..|before| + k + 1]
    requires draftCache == ContextKeys(t, before)
    requires hidden == Features(t, before + block, |before|)[..k + 1]
    ensures LoopHead(t, toks', mask, buffer, |before| + k + 1, targetCache, draftCache, hidden)
  {
    assert toks'[..|before|] == before;
    assert toks'[..|before| + k + 1] == before + block[..k + 1];
    CroppedPass(t, before, block, toks', |before|, k);
  }

  /** Lines 105-152: draft a block, verify it with the target, keep the matching prefix and a bonus token. */
  method Round<F>(draft: Draft<F>, t: Target<F>, ghost prompt: seq<Token>, ghost m: nat, ghost toks: seq<Token>,
                  blockSize: nat, ghost mask: Token, outputIds: array<Token>, positionIds: seq<nat>, start: nat,
                  targetCache: DynamicCache<Slot>, draftCache: DynamicCache<Key<F>>, targetHidden: seq<F>)
    returns (k: nat, hidden': seq<F>, ghost toks': seq<Token>, ghost view: seq<Key<F>>)
    requires blockSize >= 1 && start + blockSize < outputIds.Length && targetCache as object != draftCache as object
    requires |positionIds| == outputIds.Length && forall i :: 0 <= i < |positionIds| ==> positionIds[i] == i
    requires toks == Greedy(t, prompt, m)
    requires LoopHead(t, toks, mask, outputIds[..], start, targetCache.entries, draftCache.entries, targetHidden)
    modifies outputIds, targetCache, draftCache
    ensures k < blockSize
    ensures toks' == Greedy(t, prompt, m + k + 1)
    ensures LoopHead(t, toks', mask, outputIds[..], start + k + 1, targetCache.entries, draftCache.entries, hidden')
    ensures view == InferenceKeys(t, toks, blockSize, mask)
    ensures k == Agreed(t, toks, Proposal(draft, t, toks, blockSize, mask))
  {
    var noise := outputIds[start..start + blockSize];
    NoiseOfBuffer(toks, mask, outputIds[..], start, blockSize);
    var block;
    block, view := DraftBlock(draft, t, toks, blockSize, mask, noise, positionIds, start, draftCache, targetHidden);
    assert block[1..] == Proposal(draft, t, toks, blockSize, mask);
    k, hidden', toks' :=
      Commit(t, prompt, m, toks, block, mask, outputIds, positionIds[start..start + blockSize], start, targetCache,
             draftCache.entries);
  }

  lemma NoiseOfBuffer(toks: seq<Token>, mask: Token, buffer: seq<Token>, start: nat, blockSize: nat)
    requires blockSize >= 1 && |toks| == start + 1 && start + blockSize < |buffer|
    requires buffer == toks + Repeat(mask, |buffer| - start - 1)
    ensures buffer[start..start + blockSize] == [toks[start]] + Repeat(mask, blockSize - 1)
  {
  }

  /** The second half of a round: verify, keep the matching prefix and a bonus token, crop. */
  method Commit<F>(t: Target<F>, ghost prompt: seq<Token>, ghost m: nat, ghost toks: seq<Token>, block: seq<Token>,
                   ghost mask: Token, outputIds: array<Token>, positions: seq<nat>, start: nat,
                   targetCache: DynamicCache<Slot>, ghost draftEntries: seq<Key<F>>)
    returns (k: nat, hidden': seq<F>, ghost toks': seq<Token>)
    requires |toks| == start + 1 && toks == Greedy(t, prompt, m) && start + |block| < outputIds.Length
    requires 1 <= |block| == |positions| && block[0] == toks[start] && forall i :: 0 <= i < |positions| ==>
               positions[i] == start + i
    requires outputIds[..] == toks + Repeat(mask, outputIds.Length - start - 1)
    requires targetCache.entries == Placed(toks[..start]) && draftEntries == ContextKeys(t, toks[..start])
    modifies outputIds, targetCache
    ensures k == Agreed(t, toks, block[1..]) < |block|
    ensures toks' == Greedy(t, prompt, m + k + 1)
    ensures LoopHead(t, toks', mask, outputIds[..], start + k + 1, targetCache.entries, draftEntries, hidden')
  {
    ghost var before, was := toks[..start], outputIds[..];
    assert before + [block[0]] == toks;
    var posterior, hidden;
    posterior, hidden, k := VerifyBlock(t, before, block, positions, targetCache);
    CommittedIsGreedy(t, prompt, m, before, block, posterior, k);
    WriteBlock(outputIds, start, block, posterior[k], k);
    targetCache.Crop(start + k + 1);
    hidden' := hidden[..k + 1];
    toks' := before + block[..k + 1] + [posterior[k]];
    BufferAfter(toks, mask, was, start, block, posterior[k], k);
    RoundKeepsLoopHead(t, before, block, posterior[k], k, |was| - start - k - 2, mask, toks', outputIds[..],
                       targetCache.entries, draftEntries, hidden');
  }

  lemma BufferAfter(toks: seq<Token>, mask: Token, was: seq<Token>, start: nat, block: seq<Token>, bonus: Token, k: nat)
    requires |toks| == start + 1 && start + k + 1 < |was| && k < |block|
          && was == toks + Repeat(mask, |was| - start - 1)
    ensures was[..start] + block[..k + 1] + [bonus] + was[start + k + 2..]
         == toks[..start] + block[..k + 1] + [bonus] + Repeat(mask, |was| - start - k - 2)
  {
    assert was[..start] == toks[..start];
    assert was[start + k + 2..] == Repeat(mask, |was| - start - k - 2);
  }

  /** Cropping the buffer to the budget and dropping masks leaves greedy text only. */
  lemma FilteredBuffer<F>(t: Target<F>, prompt: seq<Token>, maxNew: nat, mask: Token, m: nat, pad: nat)
    requires maxNew <= m + pad
    ensures Without(mask, (Greedy(t, prompt, m) + Repeat(mask, pad))[..|prompt| + maxNew])
         == Without(mask, Greedy(t, prompt, Min(maxNew, m)))
  {
    var toks := Greedy(t, prompt, m);
    var cropped := (toks + Repeat(mask, pad))[..|prompt| + maxNew];
    if maxNew <= m {
      assert cropped == toks[..|prompt| + maxNew];
      GreedyPrefix(t, prompt, maxNew, m);
    } else {
      var tail := Repeat(mask, maxNew - m);
      assert cropped == toks + tail;
      WithoutAppend(mask, toks, tail);
      WithoutAll(mask, tail);
    }
  }

  lemma StopInBuffer(toks: seq<Token>, n: nat, mask: Token, pad: nat, stops: seq<Token>)
    requires n <= |toks|
    ensures HasStop((toks + Repeat(mask, pad))[n..], stops) ==> HasStop(toks[n..] + [mask], stops)
    ensures pad > 0 && HasStop(toks[n..] + [mask], stops) ==> HasStop((toks + Repeat(mask, pad))[n..], stops)
  {
    var tail := (toks + Repeat(mask, pad))[n..];
    if HasStop(tail, stops) {
      var i :| 0 <= i < |tail| && tail[i] in stops;
      assert (toks[n..] + [mask])[Min(i, |toks| - n)] in stops;
    }
    if pad > 0 && HasStop(toks[n..] + [mask], stops) {
      var i :| 0 <= i < |toks[n..] + [mask]| && (toks[n..] + [mask])[i] in stops;
      assert tail[i] in stops;
    }
  }

  /** No round after the first begins once a stop token is in the buffer, its mask tail included. */
  ghost predicate StopsInTime<F>(t: Target<F>, prompt: seq<Token>, mask: Token, stops: seq<Token>, accepted: seq<nat>) {
    forall r {:trigger Decided(t, prompt, accepted, r)} :: 1 <= r < |accepted| ==>
      !StopDecided(t, prompt, mask, stops, accepted, r)
  }

  /** After `r` rounds there is a stop token in the buffer, which ends in masks. */
  ghost predicate StopDecided<F>(t: Target<F>, prompt: seq<Token>, mask: Token, stops: seq<Token>, accepted: seq<nat>,
                                 r: nat)
    requires r <= |accepted|
  {
    HasStop(Decided(t, prompt, accepted, r)[|prompt|..] + [mask], stops)
  }

  lemma OneRoundMore<F>(t: Target<F>, prompt: seq<Token>, mask: Token, stops: seq<Token>, toks: seq<Token>,
                        accepted: seq<nat>, x: nat, accepted': seq<nat>)
    requires StopsInTime(t, prompt, mask, stops, accepted) && accepted' == accepted + [x]
    requires toks == Greedy(t, prompt, Sum(accepted) + 1)
    requires accepted != [] ==> !HasStop(toks[|prompt|..] + [mask], stops)
    ensures StopsInTime(t, prompt, mask, stops, accepted')
  {
    forall r | 1 <= r < |accepted'| ensures !StopDecided(t, prompt, mask, stops, accepted', r) {
      assert accepted'[..r] == accepted[..r];
      if r == |accepted| {
        assert accepted[..r] == accepted;
      } else {
        assert !StopDecided(t, prompt, mask, stops, accepted, r);
        assert Decided(t, prompt, accepted', r) == Decided(t, prompt, accepted, r);
      }
    }
  }

  ghost predicate RoundsOk<F>(draft: Draft<F>, t: Target<F>, prompt: seq<Token>, maxNew: nat, blockSize: nat,
                              mask: Token, accepted: seq<nat>, views: seq<seq<Key<F>>>)
    requires blockSize >= 1
  {
    && |accepted| == |views|
    && (forall r :: 0 <= r < |accepted| ==> 1 <= accepted[r] <= blockSize)
    && forall r :: 0 <= r < |accepted| ==> RoundOk(draft, t, prompt, maxNew, blockSize, mask, accepted, views, r)
  }

  lemma RoundAppends<F>(draft: Draft<F>, t: Target<F>, prompt: seq<Token>, maxNew: nat, blockSize: nat, mask: Token,
                        toks: seq<Token>, accepted: seq<nat>, views: seq<seq<Key<F>>>, k: nat, view: seq<Key<F>>,
                        accepted': seq<nat>, views': seq<seq<Key<F>>>)
    requires 1 <= blockSize && k < blockSize && Sum(accepted) < maxNew
    requires accepted' == accepted + [k + 1] && views' == views + [view]
    requires RoundsOk(draft, t, prompt, maxNew, blockSize, mask, accepted, views)
    requires toks == Greedy(t, prompt, Sum(accepted) + 1)
    requires view == InferenceKeys(t, toks, blockSize, mask)
    requires k == Agreed(t, toks, Proposal(draft, t, toks, blockSize, mask))
    ensures RoundsOk(draft, t, prompt, maxNew, blockSize, mask, accepted', views')
  {
    forall r | 0 <= r < |accepted'|
      ensures RoundOk(draft, t, prompt, maxNew, blockSize, mask, accepted', views', r)
    {
      assert accepted'[..r] == accepted[..r];
      if r == |accepted| {
        assert accepted[..r] == accepted;
      } else {
        assert RoundOk(draft, t, prompt, maxNew, blockSize, mask, accepted, views, r);
      }
    }
  }

  /** Lines 160-170: crop to the budget, drop masks, cut after the first stop token. */
  method PostProcess<F>(ghost t: Target<F>, ghost prompt: seq<Token>, n: nat, maxNew: nat, mask: Token,
                        buffer: seq<Token>, ghost m: nat, ghost toks: seq<Token>, stopIds: Option<seq<Token>>)
    returns (out: seq<Token>)
    requires n == |prompt| && n + m <= |buffer| && n + maxNew <= |buffer|
    requires toks == Greedy(t, prompt, m) && buffer == toks + Repeat(mask, |buffer| - n - m)
    ensures out == Finish(Greedy(t, prompt, Min(maxNew, m)), n, mask, StopList(stopIds))
  {
    FilteredBuffer(t, prompt, maxNew, mask, m, |buffer| - n - m);
    out := Without(mask, buffer[..n + maxNew]);
    if stopIds.Some? && |stopIds.value| > 0 {
      out := CutAtFirstStop(out, n, stopIds.value);
    } else {
      NoStops(out, n, StopList(stopIds));
    }
  }

  lemma NoStops(s: seq<Token>, n: nat, stops: seq<Token>)
    requires stops == []
    ensures n <= |s| ==> s[..n] + CutAfterStop(s[n..], stops) == s
  {
    if n <= |s| {
      NothingToCut(s[n..], stops);
      assert s == s[..n] + s[n..];
    }
  }

  function StopList(stopIds: Option<seq<Token>>): seq<Token> {
    if stopIds.Some? then stopIds.value else []
  }

  /** Lines 86-103: the target reads the prompt; the buffer receives it and the first generated token. */
  method Prefill<F>(t: Target<F>, prompt: seq<Token>, maxLength: nat, blockSize: nat, mask: Token,
                    outputIds: array<Token>, positionIds: seq<nat>, cache: DynamicCache<Slot>)
    returns (hidden: seq<F>)
    requires prompt != [] && blockSize >= 1 && |prompt| <= maxLength && outputIds.Length == maxLength + blockSize
    requires forall i :: 0 <= i < outputIds.Length ==> outputIds[i] == mask
    requires |positionIds| == outputIds.Length && forall i :: 0 <= i < |positionIds| ==> positionIds[i] == i
    requires cache.entries == []
    modifies outputIds, cache
    ensures LoopHead(t, Greedy(t, prompt, 1), mask, outputIds[..], |prompt|, cache.entries, [], hidden)
  {
    var n := |prompt|;
    var choices;
    choices, hidden := TargetForward(t, prompt, positionIds[..n], cache);
    forall i | 0 <= i < n { outputIds[i] := prompt[i]; }
    outputIds[n] := choices[n - 1];
    assert cache.entries == Placed(prompt);
    PrefillFeatures(t, prompt, hidden);
    FirstToken(t, prompt, choices[n - 1]);
    assert outputIds[..] == (prompt + [choices[n - 1]]) + Repeat(mask, maxLength + blockSize - n - 1);
    FirstLoopHead(t, prompt, choices[n - 1], mask, outputIds[..], hidden);
  }

  lemma PrefillFeatures<F>(t: Target<F>, prompt: seq<Token>, hidden: seq<F>)
    requires |hidden| == |prompt| && forall i :: 0 <= i < |prompt| ==> hidden[i] == t.feature(Placed(prompt)[..i + 1])
    ensures hidden == Features(t, prompt, 0)
  {
    forall i | 0 <= i < |prompt| ensures hidden[i] == Features(t, prompt, 0)[i] {
      assert Placed(prompt)[..i + 1] == Placed(prompt[..i + 1]);
    }
  }

  lemma FirstToken<F>(t: Target<F>, prompt: seq<Token>, x: Token)
    requires prompt != [] && x == t.next(Placed(prompt)[..|prompt|])
    ensures Greedy(t, prompt, 1) == prompt + [x]
  {
    assert Placed(prompt)[..|prompt|] == Placed(prompt);
    assert Greedy(t, prompt, 0) == prompt;
  }

  lemma FirstLoopHead<F>(t: Target<F>, prompt: seq<Token>, x: Token, mask: Token, buffer: seq<Token>, hidden: seq<F>)
    requires |buffer| > |prompt| && buffer == (prompt + [x]) + Repeat(mask, |buffer| - |prompt| - 1)
          && hidden == Features(t, prompt, 0)
    ensures LoopHead(t, prompt + [x], mask, buffer, |prompt|, Placed(prompt), [], hidden)
  {
    var toks := prompt + [x];
    assert toks[..|prompt|] == prompt;
    var none: seq<Key<F>> := [];
    assert none == ContextKeys(t, toks[..0]);
  }

  /** The rounds so far and the text they decided. */
  ghost predicate Progress<F>(draft: Draft<F>, t: Target<F>, prompt: seq<Token>, maxNew: nat, blockSize: nat,
                              mask: Token, accepted: seq<nat>, views: seq<seq<Key<F>>>, toks: seq<Token>)
    requires blockSize >= 1
  {
    && |toks| == |prompt| + Sum(accepted) + 1
    && toks == Greedy(t, prompt, Sum(accepted) + 1)
    && |accepted| <= Min(Sum(accepted), maxNew)
    && RoundsOk(draft, t, prompt, maxNew, blockSize, mask, accepted, views)
  }

  lemma RoundProgress<F>(draft: Draft<F>, t: Target<F>, prompt: seq<Token>, maxNew: nat, blockSize: nat, mask: Token,
                         toks: seq<Token>, accepted: seq<nat>, views: seq<seq<Key<F>>>, k: nat, view: seq<Key<F>>,
                         toks': seq<Token>, accepted': seq<nat>, views': seq<seq<Key<F>>>, m: nat)
    requires k < blockSize && |prompt| + m == |toks| <= |prompt| + maxNew
    requires Progress(draft, t, prompt, maxNew, blockSize, mask, accepted, views, toks)
    requires view == InferenceKeys(t, toks, blockSize, mask)
    requires k == Agreed(t, toks, Proposal(draft, t, toks, blockSize, mask))
    requires toks' == Greedy(t, prompt, m + k + 1)
    requires accepted' == accepted + [k + 1] && views' == views + [view]
    ensures Progress(draft, t, prompt, maxNew, blockSize, mask, accepted', views', toks')
  {
    SumOneMore(accepted, k + 1, accepted');
    assert Sum(accepted') == m + k && |accepted'| <= Min(m + k, maxNew);
    RoundAppends(draft, t, prompt, maxNew, blockSize, mask, toks, accepted, views, k, view, accepted', views');
    ProgressIs(draft, t, prompt, maxNew, blockSize, mask, accepted', views', toks', m + k);
  }

  lemma ProgressIs<F>(draft: Draft<F>, t: Target<F>, prompt: seq<Token>, maxNew: nat, blockSize: nat, mask: Token,
                      accepted: seq<nat>, views: seq<seq<Key<F>>>, toks: seq<Token>, sum: nat)
    requires blockSize >= 1 && sum == Sum(accepted) && toks == Greedy(t, prompt, sum + 1)
          && |accepted| <= Min(sum, maxNew)
    requires RoundsOk(draft, t, prompt, maxNew, blockSize, mask, accepted, views)
    ensures Progress(draft, t, prompt, maxNew, blockSize, mask, accepted, views, toks)
  {
  }

  lemma SumOneMore(s: seq<nat>, x: nat, s': seq<nat>)
    requires s' == s + [x]
    ensures Sum(s') == Sum(s) + x
  {
    SumAppend(s, [x]);
  }

  /** Lines 154-158: the whole buffer is searched, its mask tail included. */
  method StopHit(buffer: seq<Token>, n: nat, stopIds: Option<seq<Token>>, ghost toks: seq<Token>, ghost mask: Token)
    returns (hit: bool)
    requires n <= |toks| <= |buffer| && buffer == toks + Repeat(mask, |buffer| - |toks|)
    ensures hit <==> exists i :: n <= i < |buffer| && buffer[i] in StopList(stopIds)
    ensures hit ==> HasStop(toks[n..] + [mask], StopList(stopIds))
    ensures |toks| < |buffer| && HasStop(toks[n..] + [mask], StopList(stopIds)) ==> hit
  {
    StopInBuffer(toks, n, mask, |buffer| - |toks|, StopList(stopIds));
    hit := stopIds.Some? && HasStop(buffer[n..], stopIds.value);
    TailStop(buffer, n, StopList(stopIds));
  }

  lemma TailStop(buffer: seq<Token>, n: nat, stops: seq<Token>)
    requires n <= |buffer|
    ensures HasStop(buffer[n..], stops) <==> exists i :: n <= i < |buffer| && buffer[i] in stops
  {
    if i :| n <= i < |buffer| && buffer[i] in stops {
      assert buffer[n..][i - n] in stops;
    }
  }

  lemma ProgressText<F>(draft: Draft<F>, t: Target<F>, prompt: seq<Token>, maxNew: nat, blockSize: nat, mask: Token,
                        accepted: seq<nat>, views: seq<seq<Key<F>>>, toks: seq<Token>, m: nat)
    requires blockSize >= 1 && Progress(draft, t, prompt, maxNew, blockSize, mask, accepted, views, toks)
          && |prompt| + m == |toks|
    ensures toks == Greedy(t, prompt, m)
  {
  }

  /** A round and its entry in the record. */
  method RecordedRound<F>(draft: Draft<F>, t: Target<F>, ghost prompt: seq<Token>, ghost n: nat, ghost maxNew: nat,
                          ghost toks: seq<Token>, blockSize: nat, ghost mask: Token, outputIds: array<Token>,
                          positionIds: seq<nat>, start: nat, targetCache: DynamicCache<Slot>,
                          draftCache: DynamicCache<Key<F>>, targetHidden: seq<F>, accepted: seq<nat>,
                          ghost views: seq<seq<Key<F>>>)
    returns (k: nat, hidden': seq<F>, accepted': seq<nat>, ghost toks': seq<Token>, ghost views': seq<seq<Key<F>>>)
    requires n == |prompt| && blockSize >= 1 && n <= start < n + maxNew && outputIds.Length == n + maxNew + blockSize
    requires |positionIds| == outputIds.Length && forall i :: 0 <= i < |positionIds| ==> positionIds[i] == i
    requires targetCache as object != draftCache as object
    requires LoopHead(t, toks, mask, outputIds[..], start, targetCache.entries, draftCache.entries, targetHidden)
    requires Progress(draft, t, prompt, maxNew, blockSize, mask, accepted, views, toks)
    modifies outputIds, targetCache, draftCache
    ensures k < blockSize
    ensures LoopHead(t, toks', mask, outputIds[..], start + k + 1, targetCache.entries, draftCache.entries, hidden')
    ensures accepted' == accepted + [k + 1]
         && Progress(draft, t, prompt, maxNew, blockSize, mask, accepted', views', toks')
  {
    ghost var view;
    ghost var m: nat := start + 1 - n;
    ProgressText(draft, t, prompt, maxNew, blockSize, mask, accepted, views, toks, m);
    k, hidden', toks', view := Round(draft, t, prompt, m, toks, blockSize, mask, outputIds, positionIds, start,
                                     targetCache, draftCache, targetHidden);
    var length: nat := k + 1;
    accepted', views' := accepted + [length], views + [view];
    RoundProgress(draft, t, prompt, maxNew, blockSize, mask, toks, accepted, views, k, view, toks', accepted', views',
                  m);
  }

  /** A round that begins before a stop token was decided. */
  method NextRound<F>(draft: Draft<F>, t: Target<F>, ghost prompt: seq<Token>, ghost n: nat, ghost maxNew: nat,
                      ghost toks: seq<Token>, blockSize: nat, ghost mask: Token, ghost stopIds: Option<seq<Token>>,
                      outputIds: array<Token>, positionIds: seq<nat>, start: nat, targetCache: DynamicCache<Slot>,
                      draftCache: DynamicCache<Key<F>>, targetHidden: seq<F>, accepted: seq<nat>,
                      ghost views: seq<seq<Key<F>>>)
    returns (k: nat, hidden': seq<F>, accepted': seq<nat>, ghost toks': seq<Token>, ghost views': seq<seq<Key<F>>>)
    requires n == |prompt| && blockSize >= 1 && n <= start < n + maxNew && outputIds.Length == n + maxNew + blockSize
    requires |positionIds| == outputIds.Length && forall i :: 0 <= i < |positionIds| ==> positionIds[i] == i
    requires targetCache as object != draftCache as object
    requires LoopHead(t, toks, mask, outputIds[..], start, targetCache.entries, draftCache.entries, targetHidden)
    requires Progress(draft, t, prompt, maxNew, blockSize, mask, accepted, views, toks)
    requires StopsInTime(t, prompt, mask, StopList(stopIds), accepted)
    requires accepted != [] ==> !HasStop(toks[n..] + [mask], StopList(stopIds))
    modifies outputIds, targetCache, draftCache
    ensures k < blockSize && accepted' != [] && |toks'| == start + k + 2 <= outputIds.Length
    ensures outputIds[..] == toks' + Repeat(mask, outputIds.Length - |toks'|)
    ensures LoopHead(t, toks', mask, outputIds[..], start + k + 1, targetCache.entries, draftCache.entries, hidden')
    ensures Progress(draft, t, prompt, maxNew, blockSize, mask, accepted', views', toks')
    ensures StopsInTime(t, prompt, mask, StopList(stopIds), accepted')
  {
    k, hidden', accepted', toks', views' :=
      RecordedRound(draft, t, prompt, n, maxNew, toks, blockSize, mask, outputIds, positionIds, start, targetCache,
                    draftCache, targetHidden, accepted, views);
    OneRoundMore(t, prompt, mask, StopList(stopIds), toks, accepted, k + 1, accepted');
  }

  /** Lines 104-157: rounds until the budget is spent or a stop token is in the buffer. */
  method DecodeLoop<F>(draft: Draft<F>, t: Target<F>, ghost prompt: seq<Token>, n: nat, maxNew: nat, blockSize: nat,
                       ghost mask: Token, stopIds: Option<seq<Token>>, outputIds: array<Token>, positionIds: seq<nat>,
                       targetCache: DynamicCache<Slot>, draftCache: DynamicCache<Key<F>>, hidden: seq<F>)
    returns (accepted: seq<nat>, ghost toks: seq<Token>, ghost views: seq<seq<Key<F>>>)
    requires n == |prompt| && blockSize >= 1 && outputIds.Length == n + maxNew + blockSize
    requires |positionIds| == outputIds.Length && forall i :: 0 <= i < |positionIds| ==> positionIds[i] == i
    requires targetCache as object != draftCache as object
    requires LoopHead(t, Greedy(t, prompt, 1), mask, outputIds[..], n, targetCache.entries, draftCache.entries, hidden)
    modifies outputIds, targetCache, draftCache
    ensures Progress(draft, t, prompt, maxNew, blockSize, mask, accepted, views, toks)
    ensures |toks| <= outputIds.Length && outputIds[..] == toks + Repeat(mask, outputIds.Length - |toks|)
    ensures |toks| > n + maxNew || (accepted != [] && HasStop(toks[n..] + [mask], StopList(stopIds)))
    ensures StopsInTime(t, prompt, mask, StopList(stopIds), accepted)
  {
    var start, targetHidden := n, hidden;
    accepted, views := [], [];
    toks := Greedy(t, prompt, 1);
    while start < n + maxNew
      invariant n < start + 1 == |toks| <= outputIds.Length
      invariant LoopHead(t, toks, mask, outputIds[..], start, targetCache.entries, draftCache.entries, targetHidden)
      invariant Progress(draft, t, prompt, maxNew, blockSize, mask, accepted, views, toks)
      invariant StopsInTime(t, prompt, mask, StopList(stopIds), accepted)
      invariant accepted != [] && start < n + maxNew ==> !HasStop(toks[n..] + [mask], StopList(stopIds))
      decreases n + maxNew - start
    {
      var k;
      k, targetHidden, accepted, toks, views :=
        NextRound(draft, t, prompt, n, maxNew, toks, blockSize, mask, stopIds, outputIds, positionIds, start,
                  targetCache, draftCache, targetHidden, accepted, views);
      start := start + k + 1;
      var hit := StopHit(outputIds[..], n, stopIds, toks, mask);
      if hit {
        break;
      }
    }
  }

  // ---------------------------------------------------------------- losslessness

  /** Whatever the rounds accepted, the returned text is the reference without mask tokens. */
  lemma FinishIsReference<F>(t: Target<F>, prompt: seq<Token>, maxNew: nat, mask: Token, stops: seq<Token>, g: nat)
    requires mask !in prompt && mask !in stops
    requires g >= maxNew || HasStop(Greedy(t, prompt, g + 1)[|prompt|..] + [mask], stops)
    ensures Finish(Greedy(t, prompt, Min(maxNew, g + 1)), |prompt|, mask, stops)
         == Without(mask, Reference(t, prompt, maxNew, stops))
  {
    var n := |prompt|;
    var m: nat := Min(maxNew, g + 1);
    var some, all := Greedy(t, prompt, m), Greedy(t, prompt, maxNew);
    GreedyParts(t, prompt, m, maxNew, some, all);
    var part, rest := some[n..], all[n + m..];
    if m < maxNew {
      StopBeforeMask(part, mask, stops);
      CutIgnoresTail(part, rest, stops);
    } else {
      assert part + rest == part;
    }
    FinishOf(prompt, part, mask, stops);
    FilterReference(prompt, CutAfterStop(part, stops), mask);
  }

  /** Greedy text is the prompt, what `m` steps append, and what the remaining steps append. */
  lemma GreedyParts<F>(t: Target<F>, prompt: seq<Token>, m: nat, maxNew: nat, part: seq<Token>, all: seq<Token>)
    requires m <= maxNew && part == Greedy(t, prompt, m) && all == Greedy(t, prompt, maxNew)
    ensures |prompt| <= |part| <= |all| && part == prompt + part[|prompt|..]
    ensures all[|prompt|..] == part[|prompt|..] + all[|prompt| + m..]
  {
    GreedyPrefix(t, prompt, m, maxNew);
    GreedyPrefix(t, prompt, 0, m);
    PartsOf(prompt, part, all);
  }

  lemma PartsOf(prompt: seq<Token>, part: seq<Token>, all: seq<Token>)
    requires |prompt| <= |part| <= |all| && all[..|part|] == part && part[..|prompt|] == prompt
    ensures part == prompt + part[|prompt|..] && all[|prompt|..] == part[|prompt|..] + all[|part|..]
  {
    assert all == part + all[|part|..];
  }

  lemma FilterReference(prompt: seq<Token>, cut: seq<Token>, mask: Token)
    requires mask !in prompt
    ensures Without(mask, prompt + cut) == prompt + Without(mask, cut)
  {
    WithoutAbsent(mask, prompt);
    WithoutAppend(mask, prompt, cut);
  }

  /** Finishing a text without masks in its prompt filters what is left after the cut. */
  lemma FinishOf(prompt: seq<Token>, rest: seq<Token>, mask: Token, stops: seq<Token>)
    requires mask !in prompt && mask !in stops
    ensures Finish(prompt + rest, |prompt|, mask, stops) == prompt + Without(mask, CutAfterStop(rest, stops))
  {
    WithoutAppend(mask, prompt, rest);
    WithoutAbsent(mask, prompt);
    CutCommutesWithFilter(mask, rest, stops);
    var kept := Without(mask, prompt + rest);
    assert kept[..|prompt|] == prompt && kept[|prompt|..] == Without(mask, rest);
  }

  lemma StopBeforeMask(s: seq<Token>, mask: Token, stops: seq<Token>)
    requires mask !in stops && HasStop(s + [mask], stops)
    ensures HasStop(s, stops)
  {
    var i :| 0 <= i < |s + [mask]| && (s + [mask])[i] in stops;
    assert s[i] in stops;
  }

  /** Buffer, prefill and rounds. */
  method DecodeBuffer<F>(draft: Draft<F>, t: Target<F>, prompt: seq<Token>, n: nat, maxNew: nat, blockSize: nat,
                         mask: Token, stopIds: Option<seq<Token>>)
    returns (buffer: seq<Token>, accepted: seq<nat>, ghost toks: seq<Token>, ghost views: seq<seq<Key<F>>>)
    requires prompt != [] && blockSize >= 1 && n == |prompt|
    ensures Progress(draft, t, prompt, maxNew, blockSize, mask, accepted, views, toks)
    ensures |toks| <= |buffer| == n + maxNew + blockSize && buffer == toks + Repeat(mask, |buffer| - |toks|)
    ensures |toks| > n + maxNew || (accepted != [] && HasStop(toks[n..] + [mask], StopList(stopIds)))
    ensures StopsInTime(t, prompt, mask, StopList(stopIds), accepted)
  {
    var outputIds := new Token[n + maxNew + blockSize](i => mask);
    var positionIds: seq<nat> := seq(outputIds.Length, i requires 0 <= i => i);
    var targetCache := new DynamicCache<Slot>();
    var draftCache := new DynamicCache<Key<F>>();
    var hidden := Prefill(t, prompt, n + maxNew, blockSize, mask, outputIds, positionIds, targetCache);
    accepted, toks, views := DecodeLoop(draft, t, prompt, n, maxNew, blockSize, mask, stopIds, outputIds,
                                        positionIds, targetCache, draftCache, hidden);
    buffer := outputIds[..];
  }

  /** The function body: buffer, prefill, rounds, post-processing. */
  method Decode<F>(draft: Draft<F>, t: Target<F>, prompt: seq<Token>, maxNew: nat, blockSize: nat, mask: Token,
                   stopIds: Option<seq<Token>>)
    returns (out: seq<Token>, accepted: seq<nat>, ghost views: seq<seq<Key<F>>>)
    requires prompt != [] && blockSize >= 1
    // what it returns
    ensures out == Finish(Greedy(t, prompt, Min(maxNew, Sum(accepted) + 1)), |prompt|, mask, StopList(stopIds))
    // every round, exactly
    ensures RoundsOk(draft, t, prompt, maxNew, blockSize, mask, accepted, views) && |accepted| <= maxNew
    // when it stops
    ensures EndsWhen(t, prompt, maxNew, mask, StopList(stopIds), accepted)
  {
    var n := |prompt|;
    var buffer;
    ghost var toks;
    buffer, accepted, toks, views := DecodeBuffer(draft, t, prompt, n, maxNew, blockSize, mask, stopIds);
    out := PostProcess(t, prompt, n, maxNew, mask, buffer, |toks| - n, toks, stopIds);
  }

  /** Rounds go on exactly as long as the budget is not spent and no stop token has been decided. */
  ghost predicate EndsWhen<F>(t: Target<F>, prompt: seq<Token>, maxNew: nat, mask: Token, stops: seq<Token>,
                              accepted: seq<nat>)
  {
    && StopsInTime(t, prompt, mask, stops, accepted)
    && (Sum(accepted) >= maxNew
        || (accepted != [] && HasStop(Greedy(t, prompt, Sum(accepted) + 1)[|prompt|..] + [mask], stops)))
  }

  /** What the first round accepts is known before the call. */
  function FirstAgreed<F>(draft: Draft<F>, t: Target<F>, prompt: seq<Token>, blockSize: nat, mask: Token): nat
    requires blockSize >= 1
  {
    var toks := Greedy(t, prompt, 1);
    Agreed(t, toks, Proposal(draft, t, toks, blockSize, mask))
  }

  /** The decoding function as called. The draft is arbitrary; the result is the reference text exactly when that text
      is free of masks and, if the mask id is also a stop id, short enough to be decided in the first round. */
  method SpecGenerate<F>(draft: Draft<F>, t: Target<F>, prompt: seq<Token>, maxNew: nat, blockSize: nat, mask: Token,
                         stopIds: Option<seq<Token>>)
    returns (out: seq<Token>, accepted: seq<nat>, ghost views: seq<seq<Key<F>>>)
    requires prompt != [] && blockSize >= 1
    ensures mask !in prompt && mask !in StopList(stopIds) ==>
              out == Without(mask, Reference(t, prompt, maxNew, StopList(stopIds)))
    ensures out == Reference(t, prompt, maxNew, StopList(stopIds)) <==>
            && mask !in Reference(t, prompt, maxNew, StopList(stopIds))
            && (mask in StopList(stopIds) && maxNew >= 2 ==>
                  |Reference(t, prompt, maxNew, StopList(stopIds))| <= |prompt| + 2
                      + FirstAgreed(draft, t, prompt, blockSize, mask))
    ensures RoundsOk(draft, t, prompt, maxNew, blockSize, mask, accepted, views) && |accepted| <= maxNew
    ensures EndsWhen(t, prompt, maxNew, mask, StopList(stopIds), accepted)
  {
    out, accepted, views := Decode(draft, t, prompt, maxNew, blockSize, mask, stopIds);
    TextReturned(draft, t, prompt, maxNew, blockSize, mask, StopList(stopIds), accepted, views, Sum(accepted), out,
                 Reference(t, prompt, maxNew, StopList(stopIds)));
  }

  /** The text returned after the given rounds, against the reference text. */
  lemma TextReturned<F>(draft: Draft<F>, t: Target<F>, prompt: seq<Token>, maxNew: nat, blockSize: nat, mask: Token,
                        stops: seq<Token>, accepted: seq<nat>, views: seq<seq<Key<F>>>, g: nat, out: seq<Token>,
                        reference: seq<Token>)
    requires blockSize >= 1 && RoundsOk(draft, t, prompt, maxNew, blockSize, mask, accepted, views)
    requires EndsWhen(t, prompt, maxNew, mask, stops, accepted) && g == Sum(accepted)
    requires out == Finish(Greedy(t, prompt, Min(maxNew, g + 1)), |prompt|, mask, stops)
    requires reference == Reference(t, prompt, maxNew, stops)
    ensures mask !in prompt && mask !in stops ==> out == Without(mask, reference)
    ensures out == reference <==>
            && mask !in reference
            && (mask in stops && maxNew >= 2 ==>
                  |reference| <= |prompt| + 2 + FirstAgreed(draft, t, prompt, blockSize, mask))
  {
    if mask in stops {
      FinishExact(t, prompt, maxNew, mask, stops, Min(maxNew, g + 1));
      if maxNew >= 2 {
        OneRoundOnly(draft, t, prompt, maxNew, blockSize, mask, stops, accepted, views);
        FirstRoundOnly(draft, t, prompt, maxNew, blockSize, mask, accepted, views);
      }
    } else {
      FinishDropsMask(t, prompt, maxNew, mask, stops, g);
    }
  }

  /** If the mask is a stop token, it is in the buffer after the first round. */
  lemma OneRoundOnly<F>(draft: Draft<F>, t: Target<F>, prompt: seq<Token>, maxNew: nat, blockSize: nat, mask: Token,
                        stops: seq<Token>, accepted: seq<nat>, views: seq<seq<Key<F>>>)
    requires blockSize >= 1 && RoundsOk(draft, t, prompt, maxNew, blockSize, mask, accepted, views)
    requires mask in stops && maxNew >= 1 && EndsWhen(t, prompt, maxNew, mask, stops, accepted)
    ensures |accepted| == 1
  {
    if |accepted| > 0 {
      MaskStops(Decided(t, prompt, accepted, 1)[|prompt|..], mask, stops);
      RoundBegins(draft, t, prompt, maxNew, blockSize, mask, stops, accepted, views, 1);
    }
  }

  lemma MaskStops(s: seq<Token>, mask: Token, stops: seq<Token>)
    requires mask in stops
    ensures HasStop(s + [mask], stops)
  {
    assert (s + [mask])[|s|] in stops;
  }

  /** When round `r` began, the budget was not spent, and unless it was the first no stop token had been decided. */
  lemma RoundBegins<F>(draft: Draft<F>, t: Target<F>, prompt: seq<Token>, maxNew: nat, blockSize: nat, mask: Token,
                       stops: seq<Token>, accepted: seq<nat>, views: seq<seq<Key<F>>>, r: nat)
    requires blockSize >= 1 && RoundsOk(draft, t, prompt, maxNew, blockSize, mask, accepted, views)
    requires StopsInTime(t, prompt, mask, stops, accepted)
    ensures r < |accepted| ==> Sum(accepted[..r]) < maxNew
    ensures 1 <= r < |accepted| ==> !StopDecided(t, prompt, mask, stops, accepted, r)
  {
    if r < |accepted| {
      assert RoundOk(draft, t, prompt, maxNew, blockSize, mask, accepted, views, r);
      var decided := Decided(t, prompt, accepted, r);
    }
  }

  /** The rounds are determined by draft, target, prompt, budget, block size and stop tokens. */
  lemma RoundsDetermined<F>(draft: Draft<F>, t: Target<F>, prompt: seq<Token>, maxNew: nat, blockSize: nat, mask: Token,
                            stops: seq<Token>, a: seq<nat>, va: seq<seq<Key<F>>>, b: seq<nat>, vb: seq<seq<Key<F>>>)
    requires blockSize >= 1 && RoundsOk(draft, t, prompt, maxNew, blockSize, mask, a, va)
    requires RoundsOk(draft, t, prompt, maxNew, blockSize, mask, b, vb)
    requires EndsWhen(t, prompt, maxNew, mask, stops, a) && EndsWhen(t, prompt, maxNew, mask, stops, b)
    ensures a == b
  {
    var n: nat := Min(|a|, |b|);
    SameRounds(draft, t, prompt, maxNew, blockSize, mask, a, va, b, vb, n);
    assert a[..|a|] == a && b[..|b|] == b;
    RoundBegins(draft, t, prompt, maxNew, blockSize, mask, stops, b, vb, |a|);
    RoundBegins(draft, t, prompt, maxNew, blockSize, mask, stops, a, va, |b|);
  }

  lemma {:induction false} SameRounds<F>(draft: Draft<F>, t: Target<F>, prompt: seq<Token>, maxNew: nat, blockSize: nat,
                                         mask: Token, a: seq<nat>, va: seq<seq<Key<F>>>, b: seq<nat>,
                                         vb: seq<seq<Key<F>>>, r: nat)
    requires blockSize >= 1 && RoundsOk(draft, t, prompt, maxNew, blockSize, mask, a, va)
    requires RoundsOk(draft, t, prompt, maxNew, blockSize, mask, b, vb) && r <= |a| && r <= |b|
    ensures a[..r] == b[..r]
  {
    if r > 0 {
      SameRounds(draft, t, prompt, maxNew, blockSize, mask, a, va, b, vb, r - 1);
      var toks := Decided(t, prompt, a, r - 1);
      RoundLength(draft, t, prompt, maxNew, blockSize, mask, a, va, r - 1, toks);
      RoundLength(draft, t, prompt, maxNew, blockSize, mask, b, vb, r - 1, toks);
      OneMoreSame(a, b, r - 1);
    }
  }

  lemma OneMoreSame(a: seq<nat>, b: seq<nat>, r: nat)
    requires r < |a| && r < |b| && a[..r] == b[..r] && a[r] == b[r]
    ensures a[..r + 1] == b[..r + 1]
  {
    assert a[..r + 1] == a[..r] + [a[r]] && b[..r + 1] == b[..r] + [b[r]];
  }

  lemma RoundLength<F>(draft: Draft<F>, t: Target<F>, prompt: seq<Token>, maxNew: nat, blockSize: nat, mask: Token,
                       accepted: seq<nat>, views: seq<seq<Key<F>>>, r: nat, toks: seq<Token>)
    requires blockSize >= 1 && RoundsOk(draft, t, prompt, maxNew, blockSize, mask, accepted, views) && r < |accepted|
    requires toks == Decided(t, prompt, accepted, r)
    ensures accepted[r] == 1 + Agreed(t, toks, Proposal(draft, t, toks, blockSize, mask))
  {
    assert RoundOk(draft, t, prompt, maxNew, blockSize, mask, accepted, views, r);
  }

  lemma FirstRoundOnly<F>(draft: Draft<F>, t: Target<F>, prompt: seq<Token>, maxNew: nat, blockSize: nat, mask: Token,
                          accepted: seq<nat>, views: seq<seq<Key<F>>>)
    requires blockSize >= 1 && RoundsOk(draft, t, prompt, maxNew, blockSize, mask, accepted, views) && |accepted| == 1
    ensures Sum(accepted) == 1 + FirstAgreed(draft, t, prompt, blockSize, mask)
  {
    assert RoundOk(draft, t, prompt, maxNew, blockSize, mask, accepted, views, 0);
    assert accepted[..0] == [];
    assert accepted == [accepted[0]];
  }

  /** Filtering before cutting loses nothing exactly when the cut falls within the part that was decided. */
  lemma {:induction false} CutExact(part: seq<Token>, rest: seq<Token>, mask: Token, stops: seq<Token>)
    requires mask !in CutAfterStop(part + rest, stops)
    ensures CutAfterStop(Without(mask, part), stops) == CutAfterStop(part + rest, stops) <==>
              |CutAfterStop(part + rest, stops)| <= |part|
  {
    if part == [] {
      assert part + rest == rest;
    } else {
      assert (part + rest)[1..] == part[1..] + rest;
      var cut := CutAfterStop(part + rest, stops);
      assert cut[0] == part[0];
      if part[0] !in stops {
        assert cut[1..] == CutAfterStop(part[1..] + rest, stops);
        CutExact(part[1..], rest, mask, stops);
        assert Without(mask, part)[1..] == Without(mask, part[1..]);
      }
    }
  }

  /** With `m` tokens decided, post-processing returns the reference exactly when that is free of masks and not
      longer. */
  lemma FinishExact<F>(t: Target<F>, prompt: seq<Token>, maxNew: nat, mask: Token, stops: seq<Token>, m: nat)
    requires m <= maxNew
    ensures Finish(Greedy(t, prompt, m), |prompt|, mask, stops) == Reference(t, prompt, maxNew, stops)
       <==> mask !in Reference(t, prompt, maxNew, stops) && |Reference(t, prompt, maxNew, stops)| <= |prompt| + m
  {
    var n := |prompt|;
    var all, part := Greedy(t, prompt, maxNew), Greedy(t, prompt, m);
    var reference := Reference(t, prompt, maxNew, stops);
    if mask in reference {
      FinishHasNoMask(part, n, mask, stops);
    } else {
      GreedyParts(t, prompt, m, maxNew, part, all);
      assert reference[..n] == prompt && reference[n..] == CutAfterStop(all[n..], stops);
      assert mask !in prompt;
      WithoutAppend(mask, prompt, part[n..]);
      WithoutAbsent(mask, prompt);
      assert Finish(part, n, mask, stops) == prompt + CutAfterStop(Without(mask, part[n..]), stops);
      SamePrefix(prompt, CutAfterStop(Without(mask, part[n..]), stops), CutAfterStop(all[n..], stops));
      CutExact(part[n..], all[n + m..], mask, stops);
    }
  }

  lemma SamePrefix(a: seq<Token>, b: seq<Token>, c: seq<Token>)
    ensures a + b == a + c <==> b == c
  {
    assert (a + b)[|a|..] == b && (a + c)[|a|..] == c;
  }

  lemma FinishDropsMask<F>(t: Target<F>, prompt: seq<Token>, maxNew: nat, mask: Token, stops: seq<Token>, g: nat)
    requires g >= maxNew || HasStop(Greedy(t, prompt, g + 1)[|prompt|..] + [mask], stops)
    ensures var out := Finish(Greedy(t, prompt, Min(maxNew, g + 1)), |prompt|, mask, stops);
            var reference := Reference(t, prompt, maxNew, stops);
            && (mask !in prompt && mask !in stops ==> out == Without(mask, reference))
            && (mask !in stops ==> (out == reference <==> mask !in reference))
  {
    var reference := Reference(t, prompt, maxNew, stops);
    if mask !in prompt && mask !in stops {
      FinishIsReference(t, prompt, maxNew, mask, stops, g);
      WithoutAbsent(mask, reference);
    } else if mask in prompt {
      var i :| 0 <= i < |prompt| && prompt[i] == mask;
      assert reference[i] == mask;
      FinishHasNoMask(Greedy(t, prompt, Min(maxNew, g + 1)), |prompt|, mask, stops);
    }
  }

  lemma FinishHasNoMask(raw: seq<Token>, n: nat, mask: Token, stops: seq<Token>)
    ensures mask !in Finish(raw, n, mask, stops)
  {
    var kept := Without(mask, raw);
    if n <= |kept| {
      var cut := CutAfterStop(kept[n..], stops);
      assert Finish(raw, n, mask, stops) == kept[..n + |cut|];
    }
  }

  /** The script's experiment: two drafts, one target, one prompt. The decoded ids are identical. */
  method CompareDrafts<F>(draftA: Draft<F>, draftB: Draft<F>, t: Target<F>, prompt: seq<Token>, maxNew: nat,
                          blockSizeA: nat, blockSizeB: nat, mask: Token, stopIds: Option<seq<Token>>)
    returns (outA: seq<Token>, outB: seq<Token>)
    requires prompt != [] && blockSizeA >= 1 && blockSizeB >= 1
    requires mask !in prompt && mask !in StopList(stopIds)
    ensures outA == outB == Without(mask, Reference(t, prompt, maxNew, StopList(stopIds)))
  {
    var accA, accB;
    ghost var viewsA, viewsB;
    outA, accA, viewsA := SpecGenerate(draftA, t, prompt, maxNew, blockSizeA, mask, stopIds);
    outB, accB, viewsB := SpecGenerate(draftB, t, prompt, maxNew, blockSizeB, mask, stopIds);
  }

  /** A target that always chooses `x`. */
  function Always(x: Token): Target<int> {
    Target(s => x, s => 0)
  }

  /** The mask id must not be a stop id: the mask tail of the buffer then ends decoding after one round, and the
      text does depend on the draft. */
  method MaskAsStopIsLossy() returns (outA: seq<Token>, outB: seq<Token>)
    ensures outA != outB
    ensures outA != Reference(Always(1), [3], 3, [0])
  {
    var accA, accB;
    ghost var viewsA, viewsB;
    var draftA: Draft<int>, draftB: Draft<int> := (keys, j) => 2, (keys, j) => 1;
    outA, accA, viewsA := Decode(draftA, Always(1), [3], 3, 2, 0, Some([0]));
    OneRoundOnly(draftA, Always(1), [3], 3, 2, 0, [0], accA, viewsA);
    LossyRun(2, draftA, accA, viewsA);
    outB, accB, viewsB := Decode(draftB, Always(1), [3], 3, 2, 0, Some([0]));
    OneRoundOnly(draftB, Always(1), [3], 3, 2, 0, [0], accB, viewsB);
    LossyRun(1, draftB, accB, viewsB);
    LossyReference();
  }

  lemma LossyRun(x: Token, draft: Draft<int>, accepted: seq<nat>, views: seq<seq<Key<int>>>)
    requires forall keys, j :: draft(keys, j) == x
    requires RoundsOk(draft, Always(1), [3], 3, 2, 0, accepted, views) && |accepted| == 1
    ensures |Finish(Greedy(Always(1), [3], Min(3, Sum(accepted) + 1)), 1, 0, [0])| == if x == 1 then 4 else 3
  {
    var t, toks := Always(1), Greedy(Always(1), [3], 1);
    assert RoundOk(draft, t, [3], 3, 2, 0, accepted, views, 0);
    assert accepted[..0] == [];
    assert Proposal(draft, t, toks, 2, 0) == [x];
    var g := accepted[0];
    assert accepted == [g];
    assert g == if x == 1 then 2 else 1;
    var raw := [3] + Repeat(1, g + 1);
    AlwaysGreedy(1, [3], g + 1);
    WithoutAbsent(0, raw);
    NothingToCut(raw[1..], [0]);
  }

  lemma LossyReference()
    ensures |Reference(Always(1), [3], 3, [0])| == 4
  {
    AlwaysGreedy(1, [3], 3);
    NothingToCut(Greedy(Always(1), [3], 3)[1..], [0]);
  }

  lemma {:induction false} NothingToCut(s: seq<Token>, stops: seq<Token>)
    requires !HasStop(s, stops)
    ensures CutAfterStop(s, stops) == s
  {
    if s != [] {
      assert s[0] !in stops;
      forall i | 0 <= i < |s[1..]| ensures s[1..][i] !in stops {
        assert s[i + 1] !in stops;
      }
      NothingToCut(s[1..], stops);
    }
  }

  lemma {:induction false} AlwaysGreedy(x: Token, prompt: seq<Token>, n: nat)
    ensures Greedy(Always(x), prompt, n) == prompt + Repeat(x, n)
  {
    if n > 0 {
      AlwaysGreedy(x, prompt, n - 1);
    }
  }
}
