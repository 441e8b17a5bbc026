/** Gradient accumulation in `scripts/train_dflash.py`: an optimizer step every `a` batches, counted from the first
    batch of the whole training, with the gradients of unfinished groups lost whenever a process ends. */
module Accumulation {
  import opened Prelude
  import opened Pieces

  /** `lo, lo + 1, ..., hi - 1`. */
  function Span(lo: nat, hi: nat): (s: seq<nat>)
    requires lo <= hi
    ensures |s| == hi - lo && forall i {:trigger s[i]} :: 0 <= i < |s| ==> s[i] == lo + i
  {
    seq(hi - lo, i requires 0 <= i => lo + i)
  }

  /** The batches whose gradients are held after `t` batches; `rs` are the steps at which the training was resumed. */
  function Pending(a: nat, t: nat, rs: set<nat>): seq<nat>
    requires a >= 1
  {
    if t == 0 || t % a == 0 || t in rs then [] else Pending(a, t - 1, rs) + [t - 1]
  }

  /** The optimizer steps taken in the first `t` batches, each with the batches whose gradients it used. */
  function Applied(a: nat, t: nat, rs: set<nat>): seq<seq<nat>>
    requires a >= 1
  {
    if t == 0 then []
    else if t % a == 0 then Applied(a, t - 1, rs) + [Pending(a, t - 1, rs) + [t - 1]]
    else Applied(a, t - 1, rs)
  }

  /** Only the resumes up to `t` matter. */
  lemma {:induction false} PendingFrame(a: nat, t: nat, rs: set<nat>, rs': set<nat>)
    requires a >= 1 && forall r :: 0 <= r <= t ==> (r in rs <==> r in rs')
    ensures Pending(a, t, rs) == Pending(a, t, rs')
  {
    if t > 0 {
      PendingFrame(a, t - 1, rs, rs');
    }
  }

  /** A resume at `t` changes no optimizer step before it. */
  lemma {:induction false} AppliedFrame(a: nat, t: nat, rs: set<nat>, rs': set<nat>)
    requires a >= 1 && forall r :: 0 <= r < t ==> (r in rs <==> r in rs')
    ensures Applied(a, t, rs) == Applied(a, t, rs')
  {
    if t > 0 {
      AppliedFrame(a, t - 1, rs, rs');
      PendingFrame(a, t - 1, rs, rs');
    }
  }

  /** The multiple of `a` at or below `t`. */
  function Below(a: nat, t: nat): nat
    requires a >= 1
  {
    (t / a) * a
  }

  lemma BelowStep(a: nat, t: nat)
    requires a >= 1 && t >= 1
    ensures t % a == 0 ==> Below(a, t) == t && Below(a, t - 1) == t - a
    ensures t % a != 0 ==> Below(a, t) == Below(a, t - 1) < t
  {
    var q, r := t / a, t % a;
    assert t == q * a + r;
    if r == 0 {
      assert q >= 1;
      assert (q - 1) * a == q * a - a;
      BlockOf(t - 1, q - 1, a - 1, a);
    } else {
      BlockOf(t - 1, q, r - 1, a);
    }
  }

  lemma InBlock(a: nat, t: nat, r: nat)
    requires a >= 1 && Below(a, t) < r <= t
    ensures r % a != 0 || r == 0
  {
    var q := t / a;
    assert t == q * a + t % a;
    BlockOf(r, q, r - q * a, a);
  }

  /** Where the pending gradients begin. */
  function Since(a: nat, t: nat, rs: set<nat>): (s: nat)
    requires a >= 1
    ensures s <= t
  {
    if t == 0 || t % a == 0 || t in rs then t else Since(a, t - 1, rs)
  }

  /** The pending gradients are those since the last step or resume; they are all since the last step if and only if
      there was no resume in between. */
  lemma {:induction false} PendingIs(a: nat, t: nat, rs: set<nat>)
    requires a >= 1
    ensures Pending(a, t, rs) == Span(Since(a, t, rs), t) && Below(a, t) <= Since(a, t, rs)
    ensures Since(a, t, rs) == Below(a, t) <==> forall r :: r in rs && Below(a, t) < r <= t ==> false
  {
    if t > 0 {
      PendingIs(a, t - 1, rs);
      BelowStep(a, t);
      if t % a != 0 && t !in rs {
        var s := Since(a, t - 1, rs);
        assert Span(s, t - 1) + [t - 1] == Span(s, t);
      }
    } else {
      assert Below(a, 0) == 0;
    }
  }

  /** They begin at the latest resume since the last step, or at that step. */
  lemma {:induction false} SinceIsLatest(a: nat, t: nat, rs: set<nat>)
    requires a >= 1
    ensures Below(a, t) <= Since(a, t, rs) <= t && (Since(a, t, rs) == Below(a, t) || Since(a, t, rs) in rs)
    ensures forall r :: r in rs && r <= t ==> r <= Since(a, t, rs)
  {
    if t > 0 {
      SinceIsLatest(a, t - 1, rs);
      BelowStep(a, t);
    } else {
      assert Below(a, 0) == 0;
    }
  }

  /** There is one optimizer step to every `a` batches, and step `i` uses the batches of its group since the latest
      resume inside it. */
  lemma {:induction false} StepUses(a: nat, t: nat, rs: set<nat>, i: nat, hi: nat)
    requires a >= 1 && i < t / a && hi == i * a + a
    ensures |Applied(a, t, rs)| == t / a && hi >= 1 && Applied(a, t, rs)[i] == Span(Since(a, hi - 1, rs), hi)
  {
    StepCount(a, t, rs);
    StepCount(a, t - 1, rs);
    QuotientStep(a, t);
    NewStep(a, t, rs);
    if t % a == 0 && i == t / a - 1 {
      LastGroup(a, t, i);
    } else {
      StepUses(a, t - 1, rs, i, hi);
    }
  }

  lemma LastGroup(a: nat, t: nat, i: nat)
    requires a >= 1 && t % a == 0 && i + 1 == t / a
    ensures i * a + a == t
  {
    assert t == (t / a) * a;
    assert (i + 1) * a == i * a + a;
  }

  lemma NewStep(a: nat, t: nat, rs: set<nat>)
    requires a >= 1 && t >= 1
    ensures Applied(a, t, rs) == Applied(a, t - 1, rs) + if t % a == 0 then [Span(Since(a, t - 1, rs), t)] else []
  {
    if t % a == 0 {
      PendingIs(a, t - 1, rs);
      var s := Since(a, t - 1, rs);
      assert Span(s, t - 1) + [t - 1] == Span(s, t);
    }
  }

  lemma {:induction false} StepCount(a: nat, t: nat, rs: set<nat>)
    requires a >= 1
    ensures |Applied(a, t, rs)| == t / a
  {
    if t > 0 {
      StepCount(a, t - 1, rs);
      QuotientStep(a, t);
    }
  }

  lemma QuotientStep(a: nat, t: nat)
    requires a >= 1 && t >= 1
    ensures t / a == (t - 1) / a + if t % a == 0 then 1 else 0
  {
    var q, r := t / a, t % a;
    assert t == q * a + r;
    if r == 0 {
      assert q >= 1;
      assert (q - 1) * a == q * a - a;
      BlockOf(t - 1, q - 1, a - 1, a);
    } else {
      BlockOf(t - 1, q, r - 1, a);
    }
  }

  /** Without a resume step `i` uses exactly the batches of its own group. */
  lemma PlainSteps(a: nat, t: nat, i: nat)
    requires a >= 1 && i < t / a
    ensures |Applied(a, t, {})| == t / a && Applied(a, t, {})[i] == Span(i * a, i * a + a)
  {
    StepUses(a, t, {}, i, i * a + a);
    SinceIsLatest(a, i * a + a - 1, {});
    BlockOf(i * a + a - 1, i, a - 1, a);
  }

  /** No resume falls inside a group of `a` batches that was completed. */
  ghost predicate Aligned(a: nat, t: nat, rs: set<nat>)
    requires a >= 1
  {
    forall r :: r in rs && r < Below(a, t) ==> r % a == 0
  }

  lemma MultipleBefore(a: nat, t: nat)
    requires a >= 1 && t >= 1 && t % a == 0
    ensures t >= a && (t - a) % a == 0
  {
    var q := t / a;
    assert t == q * a && q >= 1;
    assert (q - 1) * a == q * a - a;
    BlockOf(t - a, q - 1, 0, a);
  }

  lemma AlignedStep(a: nat, t: nat, rs: set<nat>)
    requires a >= 1 && t >= 1 && t % a == 0
    ensures Aligned(a, t, rs) <==> Aligned(a, t - 1, rs) && Since(a, t - 1, rs) == t - a
  {
    BelowStep(a, t);
    PendingIs(a, t - 1, rs);
    MultipleBefore(a, t);
    forall r: nat | t - a < r <= t - 1 ensures r % a != 0 {
      InBlock(a, t - 1, r);
    }
  }

  /** An optimizer step uses the batches since the last step or resume. */
  lemma AppliedStep(a: nat, t: nat, rs: set<nat>)
    requires a >= 1 && t >= 1 && t % a == 0
    ensures Concat(Applied(a, t, rs)) == Concat(Applied(a, t - 1, rs)) + Span(Since(a, t - 1, rs), t)
  {
    var before, s := Applied(a, t - 1, rs), Since(a, t - 1, rs);
    PendingIs(a, t - 1, rs);
    assert Span(s, t - 1) + [t - 1] == Span(s, t);
    assert (before + [Span(s, t)])[..|before|] == before;
  }

  /** Every batch of the completed groups enters exactly one optimizer step, in order, if and only if the accumulation
      count divides each step at which the training was resumed inside them. */
  lemma {:induction false} EveryBatchAppliedIff(a: nat, t: nat, rs: set<nat>)
    requires a >= 1
    ensures |Concat(Applied(a, t, rs))| <= Below(a, t)
    ensures Concat(Applied(a, t, rs)) == Span(0, Below(a, t)) <==> Aligned(a, t, rs)
  {
    if t > 0 {
      EveryBatchAppliedIff(a, t - 1, rs);
      BelowStep(a, t);
      if t % a == 0 {
        AlignedStep(a, t, rs);
        PendingIs(a, t - 1, rs);
        AppliedStep(a, t, rs);
        GroupJoins(Concat(Applied(a, t - 1, rs)), t - a, Since(a, t - 1, rs), t);
      }
    } else {
      assert Below(a, 0) == 0;
    }
  }

  /** Appending the batches `s..t` gives all batches below `t` exactly when nothing was missing before and `s` is the
      next. */
  lemma GroupJoins(before: seq<nat>, b: nat, s: nat, t: nat)
    requires |before| <= b <= s < t
    ensures |before + Span(s, t)| <= t
    ensures before + Span(s, t) == Span(0, t) <==> before == Span(0, b) && s == b
  {
    var all := before + Span(s, t);
    if all == Span(0, t) {
      assert |all| == t;
      assert before == all[..b];
    }
  }

  /** A count that divides both the save interval and the epoch length divides every step a checkpoint can have. */
  lemma Divides(a: nat, n: nat, m: nat)
    requires a >= 1 && n >= 1 && n % a == 0 && m % n == 0
    ensures m % a == 0
  {
    var p, q := n / a, m / n;
    assert n == p * a && m == q * n;
    assert m == (q * p) * a;
    BlockOf(m, q * p, 0, a);
  }

  /** Two batches to a step, a process that dies after its first batch was saved: the first batch is in no step. */
  lemma LostBatch(rs: set<nat>)
    requires rs == {1}
    ensures Applied(2, 4, rs) == [[1], [2, 3]]
  {
    assert Pending(2, 1, rs) + [1] == [1];
    assert Applied(2, 1, rs) == [];
    assert Applied(2, 2, rs) == [] + [[1]] == [[1]];
    assert Pending(2, 3, rs) == [] + [2] == [2];
    assert Pending(2, 3, rs) + [3] == [2, 3];
    assert Applied(2, 4, rs) == [[1]] + [[2, 3]];
  }
}
