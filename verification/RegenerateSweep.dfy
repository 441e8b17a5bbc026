/** Which requests one sweep of `scripts/regenerate_train_data.py` over a waiting queue polls, writes and leaves. */
module RegenerateSweep {
  import opened Prelude
  import opened Pieces
  import opened Regenerate

  /** `list.remove(q[i])` takes out position `i`, if the same value does not stand before it, and leaves the order. */
  lemma {:induction false} RemoveAt(q: seq<nat>, i: nat)
    requires i < |q| && q[i] !in q[..i]
    ensures q[i] in q && RemoveFirst(q, q[i]) == q[..i] + q[i + 1..]
  {
    if i > 0 {
      assert q[0] == q[..i][0];
      assert q[1..][..i - 1] == q[..i][1..];
      RemoveAt(q[1..], i - 1);
      assert [q[0]] + (q[1..][..i - 1] + q[1..][i..]) == q[..i] + q[i + 1..];
    }
  }

  /** A sweep without a list that changes: request `j` of the queue is polled at tick `clock + 1`. If it is done it is
      written and the next request is left without being polled; else it is left. Requests left, and written. */
  function SkipScan(doneAt: nat -> nat, q: seq<nat>, j: nat, clock: nat): (seq<nat>, seq<nat>)
    decreases |q| - j
  {
    if j >= |q| then ([], [])
    else if doneAt(q[j]) <= clock + 1 then
      var (left, written) := SkipScan(doneAt, q, j + 2, clock + 1);
      ((if j + 1 < |q| then [q[j + 1]] else []) + left, [q[j]] + written)
    else
      var (left, written) := SkipScan(doneAt, q, j + 1, clock + 1);
      ([q[j]] + left, written)
  }

  /** Iterating over a list while removing from it is such a scan. */
  lemma SweepIsScan(doneAt: nat -> nat, q: seq<nat>, clock: nat)
    requires Distinct(q)
    ensures Sweep(doneAt, q, 0, clock) == SkipScan(doneAt, q, 0, clock)
  {
    var (left, written) := SkipScan(doneAt, q, 0, clock);
    SweepFrom(doneAt, q, 0, clock, [], q);
    assert [] + left == left;
  }

  /** The list still holds what was kept and everything from position `j` of the original queue on. */
  lemma {:induction false} SweepFrom(doneAt: nat -> nat, q: seq<nat>, j: nat, clock: nat, kept: seq<nat>, now: seq<nat>)
    requires j <= |q| && Distinct(q) && (forall x :: x in kept ==> x in q[..j]) && now == kept + q[j..]
    ensures var (left, written) := SkipScan(doneAt, q, j, clock);
            Sweep(doneAt, now, |kept|, clock) == (kept + left, written)
    decreases |q| - j
  {
    if j == |q| {
      assert now == kept == kept + [];
    } else {
      SweepStep(doneAt, now, |kept|, clock);
      if doneAt(q[j]) > clock + 1 {
        KeepOne(q, j, kept);
        SweepFrom(doneAt, q, j + 1, clock + 1, kept + [q[j]], now);
        var (left, written) := SkipScan(doneAt, q, j + 1, clock + 1);
        assert kept + ([q[j]] + left) == (kept + [q[j]]) + left;
      } else {
        RemoveNow(q, j, kept, now);
        AfterWrite(doneAt, q, j, clock, kept, kept + q[j + 1..]);
      }
    }
  }

  /** The turn after a request was written: the list has moved up, so that the next request is passed over. */
  lemma {:induction false} AfterWrite(doneAt: nat -> nat, q: seq<nat>, j: nat, clock: nat, kept: seq<nat>,
                                      now: seq<nat>)
    requires j < |q| && Distinct(q) && (forall x :: x in kept ==> x in q[..j]) && now == kept + q[j + 1..]
    ensures var (left, written) := SkipScan(doneAt, q, j + 2, clock + 1);
            Sweep(doneAt, now, |kept| + 1, clock + 1) ==
            (kept + ((if j + 1 < |q| then [q[j + 1]] else []) + left), written)
    decreases |q| - j, 0
  {
    if j + 1 < |q| {
      KeepOne(q, j + 1, kept);
      SweepFrom(doneAt, q, j + 2, clock + 1, kept + [q[j + 1]], now);
      var (left, written) := SkipScan(doneAt, q, j + 2, clock + 1);
      assert kept + ([q[j + 1]] + left) == (kept + [q[j + 1]]) + left;
    } else {
      assert now == kept == kept + ([] + []);
    }
  }

  lemma RemoveNow(q: seq<nat>, j: nat, kept: seq<nat>, now: seq<nat>)
    requires j < |q| && Distinct(q) && (forall x :: x in kept ==> x in q[..j]) && now == kept + q[j..]
    ensures now[|kept|] == q[j] && q[j] in now && RemoveFirst(now, q[j]) == kept + q[j + 1..]
  {
    assert now[..|kept|] == kept && now[|kept| + 1..] == q[j + 1..];
    forall x | x in kept ensures x != q[j] {
      assert x in q[..j];
    }
    RemoveAt(now, |kept|);
  }

  lemma KeepOne(q: seq<nat>, j: nat, kept: seq<nat>)
    requires j < |q| && forall x :: x in kept ==> x in q[..j] || (j > 0 && x in q[..j - 1])
    ensures forall x :: x in kept + [q[j]] ==> x in q[..j + 1]
  {
    assert q[..j + 1] == q[..j] + [q[j]];
    assert j > 0 ==> q[..j] == q[..j - 1] + [q[j - 1]];
  }

  // ---------------------------------------------------------------- order

  /** `a` shows the positions `at` of `q`, all from `lo` on and in order. */
  ghost predicate Picks(q: seq<nat>, at: seq<nat>, a: seq<nat>, lo: nat) {
    && |at| == |a| && (forall i :: 0 <= i < |at| ==> lo <= at[i] < |q| && a[i] == q[at[i]])
    && forall i, j :: 0 <= i < j < |at| ==> at[i] < at[j]
  }

  lemma PickFirst(q: seq<nat>, j: nat, at: seq<nat>, a: seq<nat>, lo: nat)
    requires j < |q| && j < lo && Picks(q, at, a, lo)
    ensures Picks(q, [j] + at, [q[j]] + a, j) && Picks(q, at, a, j)
  {
  }

  /** A sweep leaves some requests and writes the others, both in the order of the queue. */
  lemma {:induction false} ScanPicks(doneAt: nat -> nat, q: seq<nat>, j: nat, clock: nat)
    returns (left: seq<nat>, written: seq<nat>)
    ensures Picks(q, left, SkipScan(doneAt, q, j, clock).0, j) && Picks(q, written, SkipScan(doneAt, q, j, clock).1, j)
    decreases |q| - j
  {
    if j >= |q| {
      left, written := [], [];
    } else if doneAt(q[j]) <= clock + 1 {
      var (l, w) := SkipScan(doneAt, q, j + 2, clock + 1);
      left, written := ScanPicks(doneAt, q, j + 2, clock + 1);
      PickFirst(q, j, written, w, j + 2);
      if j + 1 < |q| {
        PickFirst(q, j + 1, left, l, j + 2);
        left := [j + 1] + left;
      } else {
        assert l == [] && [] + l == l;
      }
      written := [j] + written;
    } else {
      var (l, w) := SkipScan(doneAt, q, j + 1, clock + 1);
      left, written := ScanPicks(doneAt, q, j + 1, clock + 1);
      PickFirst(q, j, left, l, j + 1);
      PickFirst(q, j, written, w, j + 1);
      left := [j] + left;
    }
  }

  // ---------------------------------------------------------------- every queue of a run

  /** A server's queue holds its lines in input order. */
  ghost predicate Increasing(q: seq<nat>, next: nat) {
    (forall i, j :: 0 <= i < j < |q| ==> q[i] < q[j]) && forall i :: 0 <= i < |q| ==> q[i] < next
  }

  lemma PicksIncrease(q: seq<nat>, at: seq<nat>, a: seq<nat>, lo: nat, next: nat)
    requires Increasing(q, next) && Picks(q, at, a, lo)
    ensures Increasing(a, next)
  {
  }

  /** Waiting for a slot at a queue in input order: nothing, or one such scan that writes something. */
  lemma AwaitIsScan(doneAt: nat -> nat, concurrency: nat, q: seq<nat>, clock: nat, next: nat) returns (t: nat)
    requires concurrency >= 1 && Increasing(q, next)
    ensures var (rest, written, _) := Await(doneAt, concurrency, q, clock);
            && (if |q| < concurrency then rest == q && written == []
                else (rest, written) == SkipScan(doneAt, q, 0, t) && written != [])
            && Increasing(rest, next) && Increasing(written, next)
  {
    t := AwaitIsSweep(doneAt, concurrency, q, clock);
    SweepIsScan(doneAt, q, t);
    var left, written := ScanPicks(doneAt, q, 0, t);
    PicksIncrease(q, left, SkipScan(doneAt, q, 0, t).0, 0, next);
    PicksIncrease(q, written, SkipScan(doneAt, q, 0, t).1, 0, next);
  }

  ghost predicate QueuesInOrder(st: State) {
    forall s :: 0 <= s < |st.queues| ==> Increasing(st.queues[s], st.next)
  }

  lemma LineInOrder(doneAt: nat -> nat, concurrency: nat, st: State)
    requires concurrency >= 1 && st.server < |st.queues| && QueuesInOrder(st)
    ensures QueuesInOrder(Line(doneAt, concurrency, st))
  {
    var t := AwaitIsScan(doneAt, concurrency, st.queues[st.server], st.clock, st.next);
  }

  /** In every state of every run each queue is in input order, so that every sweep is such a scan. */
  lemma {:induction false} RunInOrder(doneAt: nat -> nat, concurrency: nat, lines: nat, numSamples: Option<nat>,
                                      st: State)
    requires concurrency >= 1 && st.server < |st.queues| && QueuesInOrder(st)
    ensures QueuesInOrder(Dispatched(doneAt, concurrency, lines, numSamples, st))
    decreases lines - st.next
  {
    if !Enough(st, lines, numSamples) {
      LineInOrder(doneAt, concurrency, st);
      RunInOrder(doneAt, concurrency, lines, numSamples, Line(doneAt, concurrency, st));
    }
  }

  // ---------------------------------------------------------------- which lines are submitted

  /** The driver after `n` more lines. */
  function AfterLines(doneAt: nat -> nat, concurrency: nat, st: State, n: nat): (r: State)
    requires concurrency >= 1 && st.server < |st.queues|
    ensures |r.queues| == |st.queues| && r.server < |r.queues| && r.next == st.next + n
    decreases n
  {
    if n == 0 then st else AfterLines(doneAt, concurrency, Line(doneAt, concurrency, st), n - 1)
  }

  /** Fewer than `num_samples` results were written when the turn of each of the next `n + 1` lines came. */
  ghost predicate Wanted(doneAt: nat -> nat, concurrency: nat, numSamples: Option<nat>, st: State, n: nat)
    requires concurrency >= 1 && st.server < |st.queues|
  {
    numSamples.Some? ==>
      forall m: nat :: m <= n ==> |AfterLines(doneAt, concurrency, st, m).log| < numSamples.value
  }

  lemma WantedStep(doneAt: nat -> nat, concurrency: nat, numSamples: Option<nat>, st: State, n: nat, next: State)
    requires concurrency >= 1 && st.server < |st.queues| && next == Line(doneAt, concurrency, st)
    ensures Wanted(doneAt, concurrency, numSamples, st, n) <==>
            && (numSamples.Some? ==> |st.log| < numSamples.value)
            && (n > 0 ==> Wanted(doneAt, concurrency, numSamples, next, n - 1))
  {
    assert AfterLines(doneAt, concurrency, st, 0) == st;
    forall m: nat ensures AfterLines(doneAt, concurrency, st, m + 1) == AfterLines(doneAt, concurrency, next, m) {
    }
    if (numSamples.Some? ==> |st.log| < numSamples.value)
       && (n > 0 ==> Wanted(doneAt, concurrency, numSamples, next, n - 1)) && numSamples.Some? {
      forall m: nat | m <= n ensures |AfterLines(doneAt, concurrency, st, m).log| < numSamples.value {
        if m > 0 {
          assert AfterLines(doneAt, concurrency, st, m) == AfterLines(doneAt, concurrency, next, m - 1);
        }
      }
    }
    if Wanted(doneAt, concurrency, numSamples, st, n) && numSamples.Some? && n > 0 {
      forall m: nat | m <= n - 1 ensures |AfterLines(doneAt, concurrency, next, m).log| < numSamples.value {
        assert AfterLines(doneAt, concurrency, st, m + 1) == AfterLines(doneAt, concurrency, next, m);
      }
    }
  }

  /** A line of the input is submitted if and only if fewer than `num_samples` results were written when the turn of
      every line up to it came; without `num_samples` all are. */
  lemma {:induction false} SubmittedIff(doneAt: nat -> nat, concurrency: nat, lines: nat, numSamples: Option<nat>,
                                        st: State, n: nat)
    requires concurrency >= 1 && st.server < |st.queues| && st.next + n < lines
    ensures st.next + n < Dispatched(doneAt, concurrency, lines, numSamples, st).next <==>
            Wanted(doneAt, concurrency, numSamples, st, n)
    decreases n
  {
    var next := Line(doneAt, concurrency, st);
    WantedStep(doneAt, concurrency, numSamples, st, n, next);
    if !Enough(st, lines, numSamples) {
      if n > 0 {
        SubmittedIff(doneAt, concurrency, lines, numSamples, next, n - 1);
      } else {
        NextGrows(doneAt, concurrency, lines, numSamples, next);
      }
    }
  }

  lemma {:induction false} NextGrows(doneAt: nat -> nat, concurrency: nat, lines: nat, numSamples: Option<nat>,
                                     st: State)
    requires concurrency >= 1 && st.server < |st.queues|
    ensures st.next <= Dispatched(doneAt, concurrency, lines, numSamples, st).next
    decreases lines - st.next
  {
    if !Enough(st, lines, numSamples) {
      NextGrows(doneAt, concurrency, lines, numSamples, Line(doneAt, concurrency, st));
    }
  }

  // ---------------------------------------------------------------- when a sweep writes, and where

  lemma {:induction false} IdleTicks(doneAt: nat -> nat, q: seq<nat>, i: nat, clock: nat)
    requires i <= |q| && Sweep(doneAt, q, i, clock).1 == []
    ensures SweepTicks(doneAt, q, i, clock) == |q| - i
    decreases |q| - i
  {
    if i < |q| {
      IdleTicks(doneAt, q, i + 1, clock + 1);
    }
  }

  /** A full queue is swept again and again, one tick to a request, until a sweep writes something. */
  lemma {:induction false} AwaitTime(doneAt: nat -> nat, concurrency: nat, q: seq<nat>, clock: nat)
    returns (k: nat, t: nat)
    requires concurrency >= 1 && |q| >= concurrency
    ensures t == clock + Offset(k, |q|) && Sweep(doneAt, q, 0, t).1 != []
    ensures forall j :: 0 <= j < k ==> Sweep(doneAt, q, 0, clock + Offset(j, |q|)).1 == []
    ensures var (rest, written, _) := Await(doneAt, concurrency, q, clock);
            (rest, written) == Sweep(doneAt, q, 0, t)
    decreases if doneAt(q[0]) < clock then 0 else doneAt(q[0]) - clock
  {
    if Sweep(doneAt, q, 0, clock).1 != [] {
      k, t := 0, clock;
    } else {
      IdleSweep(doneAt, q, 0, clock);
      IdleTicks(doneAt, q, 0, clock);
      k, t := AwaitTime(doneAt, concurrency, q, clock + |q|);
      k := k + 1;
      forall j | 0 <= j <= k
        ensures clock + Offset(j, |q|) == if j == 0 then clock else (clock + |q|) + Offset(j - 1, |q|) {
      }
    }
  }

  /** Each file holds its results in the order in which they were written. */
  lemma {:induction false} FilesInOrder(isError: nat -> bool, rs: seq<nat>) returns (s: seq<nat>, e: seq<nat>)
    ensures Picks(rs, s, Successes(isError, rs), 0) && Picks(rs, e, Errors(isError, rs), 0)
    ensures forall i: nat :: i < |rs| ==> (i in s <==> !isError(rs[i])) && (i in e <==> isError(rs[i]))
  {
    if rs == [] {
      s, e := [], [];
    } else {
      var n := |rs| - 1;
      var front, last := rs[..n], rs[n];
      s, e := FilesInOrder(isError, front);
      assert rs == front + [last];
      PickLast(front, s, Successes(isError, front), last);
      PickLast(front, e, Errors(isError, front), last);
      if isError(last) {
        assert Successes(isError, rs) == Successes(isError, front);
        e := e + [n];
      } else {
        assert Errors(isError, rs) == Errors(isError, front);
        s := s + [n];
      }
    }
  }

  lemma PickLast(q: seq<nat>, at: seq<nat>, a: seq<nat>, x: nat)
    requires Picks(q, at, a, 0)
    ensures Picks(q + [x], at, a, 0) && Picks(q + [x], at + [|q|], a + [x], 0) && |q| !in at
  {
  }
}
