/** The concurrent request driver of `scripts/regenerate_train_data.py`.

    Requests are the input line numbers. Completion is nondeterministic: request `r` is done from tick `doneAt(r)` on,
    every poll advances the clock, and `doneAt` is arbitrary, so every order of completion is covered. */
module Regenerate {
  import opened Prelude
  import opened Pieces

  // ---------------------------------------------------------------- one sweep over a waiting queue

  /** `list.remove(x)`: drops the first occurrence. */
  function RemoveFirst(q: seq<nat>, x: nat): (r: seq<nat>)
    requires x in q
    ensures |r| == |q| - 1
  {
    if q[0] == x then q[1..] else [q[0]] + RemoveFirst(q[1..], x)
  }

  /** Queue left and requests written by `for f in queue: if f.done(): ...; queue.remove(f)` from position `i` on.
      Removing the current element makes the iteration skip the next one. */
  function Sweep(doneAt: nat -> nat, q: seq<nat>, i: nat, clock: nat): (r: (seq<nat>, seq<nat>))
    decreases |q| - i
  {
    if i >= |q| then (q, [])
    else if doneAt(q[i]) <= clock + 1 then
      var (rest, written) := Sweep(doneAt, RemoveFirst(q, q[i]), i + 1, clock + 1);
      (rest, [q[i]] + written)
    else
      Sweep(doneAt, q, i + 1, clock + 1)
  }

  /** One turn of the iteration. */
  lemma SweepStep(doneAt: nat -> nat, q: seq<nat>, i: nat, clock: nat)
    requires i < |q|
    ensures doneAt(q[i]) > clock + 1 ==> Sweep(doneAt, q, i, clock) == Sweep(doneAt, q, i + 1, clock + 1)
    ensures doneAt(q[i]) <= clock + 1 ==>
              var after := Sweep(doneAt, RemoveFirst(q, q[i]), i + 1, clock + 1);
              Sweep(doneAt, q, i, clock) == (after.0, [q[i]] + after.1)
  {
  }

  lemma {:induction false} RemoveConserves(q: seq<nat>, x: nat)
    requires x in q
    ensures multiset(RemoveFirst(q, x)) + multiset{x} == multiset(q)
  {
    assert q == [q[0]] + q[1..];
    if q[0] != x {
      RemoveConserves(q[1..], x);
    }
  }

  /** A sweep neither loses nor duplicates a request, and because of the skipping it writes at most every other one. */
  lemma {:induction false} SweepConserves(doneAt: nat -> nat, q: seq<nat>, i: nat, clock: nat)
    ensures var (rest, written) := Sweep(doneAt, q, i, clock);
            && multiset(rest) + multiset(written) == multiset(q)
            && |rest| + |written| == |q|
            && (i <= |q| ==> 2 * |written| <= |q| - i + 1)
    decreases |q| - i
  {
    if i < |q| {
      if doneAt(q[i]) <= clock + 1 {
        RemoveConserves(q, q[i]);
        SweepConserves(doneAt, RemoveFirst(q, q[i]), i + 1, clock + 1);
      } else {
        SweepConserves(doneAt, q, i + 1, clock + 1);
      }
    }
  }

  /** Nothing is written only if the head of the queue was not done when it was polled. */
  lemma {:induction false} IdleSweep(doneAt: nat -> nat, q: seq<nat>, i: nat, clock: nat)
    requires Sweep(doneAt, q, i, clock).1 == [] && i < |q|
    ensures doneAt(q[i]) > clock + 1 && Sweep(doneAt, q, i, clock).0 == q
    decreases |q| - i
  {
    if i + 1 < |q| {
      IdleSweep(doneAt, q, i + 1, clock + 1);
    }
  }

  /** Ticks a sweep takes. */
  function SweepTicks(doneAt: nat -> nat, q: seq<nat>, i: nat, clock: nat): nat
    decreases |q| - i
  {
    if i >= |q| then 0
    else if doneAt(q[i]) <= clock + 1 then 1 + SweepTicks(doneAt, RemoveFirst(q, q[i]), i + 1, clock + 1)
    else 1 + SweepTicks(doneAt, q, i + 1, clock + 1)
  }

  /** A sweep at position `i`, having written `log`, will end with this queue, log and clock. */
  ghost predicate Leads(doneAt: nat -> nat, q: seq<nat>, i: nat, clock: nat, log: seq<nat>, q': seq<nat>,
                        log': seq<nat>, clock': nat) {
    && q' == Sweep(doneAt, q, i, clock).0
    && log' == log + Sweep(doneAt, q, i, clock).1
    && clock' == clock + SweepTicks(doneAt, q, i, clock)
  }

  lemma LeadsOn(doneAt: nat -> nat, q: seq<nat>, i: nat, clock: nat, log: seq<nat>, q': seq<nat>, log': seq<nat>,
                clock': nat)
    requires i < |q| && Leads(doneAt, q, i, clock, log, q', log', clock')
    ensures if doneAt(q[i]) <= clock + 1
            then Leads(doneAt, RemoveFirst(q, q[i]), i + 1, clock + 1, log + [q[i]], q', log', clock')
            else Leads(doneAt, q, i + 1, clock + 1, log, q', log', clock')
  {
    if doneAt(q[i]) <= clock + 1 {
      var more := Sweep(doneAt, RemoveFirst(q, q[i]), i + 1, clock + 1).1;
      assert log + ([q[i]] + more) == (log + [q[i]]) + more;
    }
  }

  /** With one slot the sweep keeps the order: what is written comes before what stays. */
  lemma SingleSlotSweep(doneAt: nat -> nat, q: seq<nat>, clock: nat)
    requires |q| <= 1
    ensures var (rest, written) := Sweep(doneAt, q, 0, clock); written + rest == q
  {
    if |q| == 1 {
      assert q == [q[0]];
      assert RemoveFirst(q, q[0]) == [];
    }
  }

  // ---------------------------------------------------------------- bookkeeping

  /** The input lines `lo, lo + 1, ..., hi - 1`. */
  function Lines(lo: nat, hi: nat): (s: seq<nat>)
    requires lo <= hi
    ensures |s| == hi - lo && forall i :: 0 <= i < |s| ==> s[i] == lo + i
  {
    seq(hi - lo, i requires 0 <= i => lo + i)
  }

  lemma {:induction false} ConcatLength(queues: seq<seq<nat>>, bound: nat)
    requires forall s :: 0 <= s < |queues| ==> |queues[s]| <= bound
    ensures |Concat(queues)| <= |queues| * bound
  {
    if queues != [] {
      ConcatLength(queues[..|queues| - 1], bound);
      assert |queues| * bound == (|queues| - 1) * bound + bound;
    }
  }

  lemma {:induction false} EmptyQueues(n: nat)
    ensures Concat(Repeat<seq<nat>>([], n)) == []
  {
    if n > 0 {
      assert Repeat<seq<nat>>([], n)[..n - 1] == Repeat<seq<nat>>([], n - 1);
      EmptyQueues(n - 1);
    }
  }

  /** Adding the same requests to both sides of an exchange. */
  lemma Exchange(a: multiset<nat>, a': multiset<nat>, q: multiset<nat>, q': multiset<nat>, more: multiset<nat>)
    requires a' + q == a + q'
    ensures (a' + more) + q == (a + more) + q'
  {
    forall x: nat ensures ((a' + more) + q)[x] == ((a + more) + q')[x] {
      assert (a' + q)[x] == (a + q')[x];
    }
  }

  /** Requests leave a queue for the log. */
  lemma Transfer(log: multiset<nat>, pending: multiset<nat>, pending': multiset<nat>, q: multiset<nat>,
                 rest: multiset<nat>, written: multiset<nat>)
    requires pending' + q == pending + rest && rest + written == q
    ensures (log + written) + pending' == log + pending
  {
    forall x: nat ensures ((log + written) + pending')[x] == (log + pending)[x] {
      assert (pending' + q)[x] == (pending + rest)[x];
      assert (rest + written)[x] == q[x];
    }
  }

  /** Replacing one queue changes the pending requests by exactly that queue's change. */
  lemma {:induction false} ConcatUpdate(queues: seq<seq<nat>>, s: nat, q: seq<nat>)
    requires s < |queues|
    ensures multiset(Concat(queues[s := q])) + multiset(queues[s]) == multiset(Concat(queues)) + multiset(q)
  {
    var n := |queues| - 1;
    var front, last := queues[..n], queues[n];
    assert Concat(queues) == Concat(front) + last;
    if s < n {
      ConcatUpdate(front, s, q);
      assert queues[s := q][..n] == front[s := q];
      assert Concat(queues[s := q]) == Concat(front[s := q]) + last;
      Exchange(multiset(Concat(front)), multiset(Concat(front[s := q])), multiset(queues[s]), multiset(q),
               multiset(last));
    } else {
      assert queues[s := q][..n] == front;
      assert Concat(queues[s := q]) == Concat(front) + q;
    }
  }

  /** Results that were errors, and the others, in the order written. */
  function Errors(isError: nat -> bool, rs: seq<nat>): seq<nat> {
    if rs == [] then [] else Errors(isError, rs[..|rs| - 1]) + if isError(rs[|rs| - 1]) then [rs[|rs| - 1]] else []
  }

  function Successes(isError: nat -> bool, rs: seq<nat>): seq<nat> {
    if rs == [] then [] else Successes(isError, rs[..|rs| - 1]) + if isError(rs[|rs| - 1]) then [] else [rs[|rs| - 1]]
  }

  lemma {:induction false} Classified(isError: nat -> bool, rs: seq<nat>)
    ensures forall r :: r in Errors(isError, rs) ==> isError(r)
    ensures forall r :: r in Successes(isError, rs) ==> !isError(r)
  {
    if rs != [] {
      Classified(isError, rs[..|rs| - 1]);
    }
  }

  /** The two files together hold what was written. */
  lemma SplitResults(isError: nat -> bool, rs: seq<nat>)
    ensures multiset(Successes(isError, rs)) + multiset(Errors(isError, rs)) == multiset(rs)
  {
    SplitInto(isError, rs, Successes(isError, rs), Errors(isError, rs));
  }

  lemma {:induction false} SplitInto(isError: nat -> bool, rs: seq<nat>, successes: seq<nat>, errors: seq<nat>)
    requires successes == Successes(isError, rs) && errors == Errors(isError, rs)
    ensures multiset(successes) + multiset(errors) == multiset(rs)
  {
    if rs != [] {
      var front, last := rs[..|rs| - 1], rs[|rs| - 1];
      var s, e := Successes(isError, front), Errors(isError, front);
      SplitInto(isError, front, s, e);
      OneMoreResult(isError(last), s, e, front, last, successes, errors, rs);
    }
  }

  lemma OneMoreResult(isError: bool, s: seq<nat>, e: seq<nat>, front: seq<nat>, last: nat, successes: seq<nat>,
                      errors: seq<nat>, rs: seq<nat>)
    requires multiset(s) + multiset(e) == multiset(front) && rs == front + [last]
    requires successes == s + (if isError then [] else [last]) && errors == e + if isError then [last] else []
    ensures multiset(successes) + multiset(errors) == multiset(rs)
  {
    assert s + [] == s && e + [] == e;
  }

  /** Every line submitted is in exactly one place: written, or pending in one queue; with one slot, in input order. */
  ghost predicate Accounted(log: seq<nat>, queues: seq<seq<nat>>, first: nat, next: nat, oneSlot: bool) {
    && first <= next
    && multiset(log) + multiset(Concat(queues)) == multiset(Lines(first, next))
    && (oneSlot ==> log + Concat(queues) == Lines(first, next))
  }

  lemma SweepAccounted(doneAt: nat -> nat, clock: nat, log: seq<nat>, queues: seq<seq<nat>>, s: nat, first: nat,
                       next: nat, oneSlot: bool)
    requires s < |queues| && Accounted(log, queues, first, next, oneSlot)
    requires oneSlot ==> |queues| == 1 && |queues[0]| <= 1
    ensures var (rest, written) := Sweep(doneAt, queues[s], 0, clock);
            Accounted(log + written, queues[s := rest], first, next, oneSlot)
  {
    var (rest, written) := Sweep(doneAt, queues[s], 0, clock);
    SweepConserves(doneAt, queues[s], 0, clock);
    ConcatUpdate(queues, s, rest);
    Transfer(multiset(log), multiset(Concat(queues)), multiset(Concat(queues[s := rest])), multiset(queues[s]),
             multiset(rest), multiset(written));
    if oneSlot {
      SingleSlotSweep(doneAt, queues[0], clock);
      OneQueue(queues);
      OneQueue(queues[s := rest]);
      assert log + written + rest == log + (written + rest);
    }
  }

  lemma Extend(now: seq<nat>, before: seq<nat>, s: seq<nat>, j: nat)
    requires j < |s| && now == before + s[..j]
    ensures now + [s[j]] == before + s[..j + 1]
  {
  }

  lemma ExtendQueue(now: seq<nat>, before: seq<nat>, queues: seq<seq<nat>>, s: nat)
    requires s < |queues| && now == before + Concat(queues[..s])
    ensures now + queues[s] == before + Concat(queues[..s + 1])
  {
    assert queues[..s + 1][..s] == queues[..s];
  }

  lemma OneQueue(queues: seq<seq<nat>>)
    requires |queues| == 1
    ensures Concat(queues) == queues[0]
  {
    assert queues[..0] == [];
  }

  lemma SubmitAccounted(log: seq<nat>, queues: seq<seq<nat>>, s: nat, first: nat, next: nat, oneSlot: bool)
    requires s < |queues| && Accounted(log, queues, first, next, oneSlot)
    requires oneSlot ==> |queues| == 1
    ensures Accounted(log, queues[s := queues[s] + [next]], first, next + 1, oneSlot)
  {
    var queues' := queues[s := queues[s] + [next]];
    assert Lines(first, next + 1) == Lines(first, next) + [next];
    SubmitCounted(log, queues, s, next, Lines(first, next));
    if oneSlot {
      OneQueue(queues);
      OneQueue(queues');
      assert log + (queues[0] + [next]) == (log + queues[0]) + [next];
    }
  }

  lemma SubmitCounted(log: seq<nat>, queues: seq<seq<nat>>, s: nat, next: nat, lines: seq<nat>)
    requires s < |queues| && multiset(log) + multiset(Concat(queues)) == multiset(lines)
    ensures multiset(log) + multiset(Concat(queues[s := queues[s] + [next]])) == multiset(lines + [next])
  {
    var q := queues[s] + [next];
    ConcatUpdate(queues, s, q);
    Transfer(multiset(log), multiset(Concat(queues[s := q])), multiset(Concat(queues)), multiset(q),
             multiset(queues[s]), multiset{next});
  }

  // ---------------------------------------------------------------- what a run writes

  /** `while len(queue) >= concurrency`: the queue left, the requests written and the clock after waiting for a slot. */
  function Await(doneAt: nat -> nat, concurrency: nat, q: seq<nat>, clock: nat): (r: (seq<nat>, seq<nat>, nat))
    requires concurrency >= 1
    decreases if |q| < concurrency || doneAt(q[0]) < clock then 0 else doneAt(q[0]) - clock
  {
    if |q| < concurrency then (q, [], clock)
    else
      var (rest, written) := Sweep(doneAt, q, 0, clock);
      var clock' := clock + SweepTicks(doneAt, q, 0, clock);
      if written != [] then (rest, written, clock')
      else
        IdleSweep(doneAt, q, 0, clock);
        Await(doneAt, concurrency, q, clock')
  }

  /** The driver between two input lines. */
  datatype State = State(queues: seq<seq<nat>>, log: seq<nat>, clock: nat, next: nat, server: nat)

  function Initial(servers: nat, first: nat): State {
    State(Repeat([], servers), [], 0, first, 0)
  }

  /** One input line: wait for a slot at the server whose turn it is, then submit. */
  function Line(doneAt: nat -> nat, concurrency: nat, st: State): State
    requires concurrency >= 1 && st.server < |st.queues|
  {
    var (q, written, clock) := Await(doneAt, concurrency, st.queues[st.server], st.clock);
    State(st.queues[st.server := q + [st.next]], st.log + written, clock, st.next + 1, (st.server + 1) % |st.queues|)
  }

  predicate Enough(st: State, lines: nat, numSamples: Option<nat>) {
    st.next >= lines || (numSamples.Some? && |st.log| >= numSamples.value)
  }

  function Dispatched(doneAt: nat -> nat, concurrency: nat, lines: nat, numSamples: Option<nat>, st: State): State
    requires concurrency >= 1 && st.server < |st.queues|
    decreases lines - st.next
  {
    if Enough(st, lines, numSamples) then st
    else Dispatched(doneAt, concurrency, lines, numSamples, Line(doneAt, concurrency, st))
  }

  /** Every line a run writes to either file, in order: what dispatching wrote, then the queues server by server. */
  function Final(doneAt: nat -> nat, servers: nat, concurrency: nat, first: nat, lines: nat,
                 numSamples: Option<nat>): seq<nat>
    requires servers >= 1 && concurrency >= 1
  {
    var st := Dispatched(doneAt, concurrency, lines, numSamples, Initial(servers, first));
    st.log + Concat(st.queues)
  }

  // ---------------------------------------------------------------- every state of a run accounts for its lines

  ghost predicate Bounded(queues: seq<seq<nat>>, concurrency: nat) {
    forall s :: 0 <= s < |queues| ==> |queues[s]| <= concurrency
  }

  ghost predicate Good(st: State, servers: nat, concurrency: nat, first: nat) {
    && |st.queues| == servers && st.server < servers && Bounded(st.queues, concurrency)
    && Accounted(st.log, st.queues, first, st.next, servers == 1 && concurrency == 1)
  }

  lemma InitialGood(servers: nat, concurrency: nat, first: nat)
    requires servers >= 1
    ensures Good(Initial(servers, first), servers, concurrency, first)
  {
    EmptyQueues(servers);
  }

  /** Waiting does nothing if there is a free slot, and otherwise ends with the first sweep that writes. */
  lemma {:induction false} AwaitIsSweep(doneAt: nat -> nat, concurrency: nat, q: seq<nat>, clock: nat) returns (t: nat)
    requires concurrency >= 1
    ensures var (rest, written, _) := Await(doneAt, concurrency, q, clock);
            if |q| < concurrency then rest == q && written == []
                else (rest, written) == Sweep(doneAt, q, 0, t) && written != []
    decreases if |q| < concurrency || doneAt(q[0]) < clock then 0 else doneAt(q[0]) - clock
  {
    t := clock;
    if |q| >= concurrency && Sweep(doneAt, q, 0, clock).1 == [] {
      IdleSweep(doneAt, q, 0, clock);
      t := AwaitIsSweep(doneAt, concurrency, q, clock + SweepTicks(doneAt, q, 0, clock));
    }
  }

  /** Waiting leaves a free slot, and writes at most every other request of a full queue. */
  lemma AwaitFrees(doneAt: nat -> nat, concurrency: nat, q: seq<nat>, clock: nat)
    requires concurrency >= 1 && |q| <= concurrency
    ensures var (rest, written, _) := Await(doneAt, concurrency, q, clock);
            |rest| < concurrency && 2 * |written| <= concurrency + 1
  {
    var t := AwaitIsSweep(doneAt, concurrency, q, clock);
    SweepConserves(doneAt, q, 0, t);
  }

  lemma AwaitAccounted(doneAt: nat -> nat, concurrency: nat, clock: nat, log: seq<nat>, queues: seq<seq<nat>>, s: nat,
                       first: nat, next: nat, oneSlot: bool)
    requires concurrency >= 1 && s < |queues| && Accounted(log, queues, first, next, oneSlot)
    requires oneSlot ==> |queues| == 1 && |queues[0]| <= 1
    ensures var (rest, written, _) := Await(doneAt, concurrency, queues[s], clock);
            Accounted(log + written, queues[s := rest], first, next, oneSlot)
  {
    var t := AwaitIsSweep(doneAt, concurrency, queues[s], clock);
    if |queues[s]| < concurrency {
      assert queues[s := queues[s]] == queues && log + [] == log;
    } else {
      SweepAccounted(doneAt, t, log, queues, s, first, next, oneSlot);
    }
  }

  lemma LineGood(doneAt: nat -> nat, st: State, servers: nat, concurrency: nat, first: nat)
    requires concurrency >= 1 && Good(st, servers, concurrency, first)
    ensures Good(Line(doneAt, concurrency, st), servers, concurrency, first)
  {
    var s, oneSlot := st.server, servers == 1 && concurrency == 1;
    var (rest, written, clock) := Await(doneAt, concurrency, st.queues[s], st.clock);
    AwaitFrees(doneAt, concurrency, st.queues[s], st.clock);
    AwaitAccounted(doneAt, concurrency, st.clock, st.log, st.queues, s, first, st.next, oneSlot);
    var queues := st.queues[s := rest];
    SubmitAccounted(st.log + written, queues, s, first, st.next, oneSlot);
    assert queues[s := queues[s] + [st.next]] == st.queues[s := rest + [st.next]];
  }

  lemma {:induction false} DispatchedGood(doneAt: nat -> nat, lines: nat, numSamples: Option<nat>, st: State,
                                          servers: nat, concurrency: nat, first: nat)
    requires concurrency >= 1 && Good(st, servers, concurrency, first) && st.next <= lines
    ensures var end := Dispatched(doneAt, concurrency, lines, numSamples, st);
            Good(end, servers, concurrency, first) && end.next <= lines && Enough(end, lines, numSamples)
    decreases lines - st.next
  {
    if !Enough(st, lines, numSamples) {
      LineGood(doneAt, st, servers, concurrency, first);
      DispatchedGood(doneAt, lines, numSamples, Line(doneAt, concurrency, st), servers, concurrency, first);
    }
  }

  /** Whatever is submitted and not written occupies a slot. */
  lemma PendingBound(st: State, servers: nat, concurrency: nat, first: nat)
    requires Good(st, servers, concurrency, first)
    ensures |st.log| <= st.next - first <= |st.log| + servers * concurrency
  {
    ConcatLength(st.queues, concurrency);
    assert |multiset(st.log) + multiset(Concat(st.queues))| == |multiset(Lines(first, st.next))|;
  }

  /** `num_samples` is reached if there is input enough, and overshot by at most the slots. */
  lemma {:induction false} DispatchedBound(doneAt: nat -> nat, lines: nat, ns: nat, st: State, servers: nat,
                                           concurrency: nat, first: nat)
    requires concurrency >= 1 && Good(st, servers, concurrency, first) && st.next <= lines
    requires st.next - first <= ns + servers * concurrency
    ensures var end := Dispatched(doneAt, concurrency, lines, Some(ns), st);
            Min(lines - first, ns) <= end.next - first <= ns + servers * concurrency
    decreases lines - st.next
  {
    PendingBound(st, servers, concurrency, first);
    if !Enough(st, lines, Some(ns)) {
      LineGood(doneAt, st, servers, concurrency, first);
      DispatchedBound(doneAt, lines, ns, Line(doneAt, concurrency, st), servers, concurrency, first);
    }
  }

  // ---------------------------------------------------------------- the driver

  class Driver {
    const servers: nat
    const concurrency: nat
    const doneAt: nat -> nat
    const isError: nat -> bool
    const first: nat
    var clock: nat
    var queues: seq<seq<nat>>
    var output: seq<nat>
    var errors: seq<nat>
    var next: nat
    /** Every line written to either file, in order. */
    ghost var log: seq<nat>

    ghost predicate Files()
      reads this
    {
      output == Successes(isError, log) && errors == Errors(isError, log)
    }

    ghost predicate Valid()
      reads this
    {
      servers >= 1 && concurrency >= 1 && |queues| == servers && Bounded(queues, concurrency) && Files()
    }

    /** The driver is between two lines, in the given state. */
    ghost predicate AtLine(st: State)
      reads this
    {
      queues == st.queues && log == st.log && clock == st.clock && next == st.next
    }

    /** `first` is the number of input lines skipped by `--resume`. */
    constructor (servers: nat, concurrency: nat, doneAt: nat -> nat, isError: nat -> bool, first: nat)
      requires servers >= 1 && concurrency >= 1
      ensures Valid() && AtLine(Initial(servers, first))
      ensures this.servers == servers && this.concurrency == concurrency && this.first == first
      ensures this.doneAt == doneAt && this.isError == isError
    {
      this.servers, this.concurrency, this.doneAt, this.isError, this.first := servers, concurrency, doneAt, isError,
        first;
      clock, queues, output, errors, next, log := 0, Repeat([], servers), [], [], first, [];
    }

    /** `success_samples + error_samples`. */
    method Written() returns (n: nat)
      requires Files()
      ensures n == |log|
    {
      SplitResults(isError, log);
      assert |multiset(output) + multiset(errors)| == |multiset(log)|;
      n := |output| + |errors|;
    }

    method Write(r: nat)
      requires Files()
      modifies this`output, this`errors, this`log
      ensures Files() && log == old(log) + [r]
    {
      if isError(r) {
        errors := errors + [r];
      } else {
        output := output + [r];
      }
      log := log + [r];
      assert log[..|log| - 1] == old(log);
    }

    /** `if req_future.done()`: write the result. */
    method PollOne(r: nat) returns (done: bool)
      requires Files()
      modifies this`clock, this`output, this`errors, this`log
      ensures Files() && clock == old(clock) + 1
      ensures done == (doneAt(r) <= clock)
      ensures log == if done then old(log) + [r] else old(log)
    {
      clock := clock + 1;
      done := doneAt(r) <= clock;
      if done {
        Write(r);
      }
    }

    /** `for req_future in queue: if req_future.done(): write; queue.remove(req_future)`. */
    method Poll(queue: seq<nat>) returns (q: seq<nat>, finished: bool)
      requires Files()
      modifies this`clock, this`output, this`errors, this`log
      ensures Files()
      ensures var (rest, written) := Sweep(doneAt, queue, 0, old(clock));
              q == rest && log == old(log) + written && finished == (written != [])
      ensures clock == old(clock) + SweepTicks(doneAt, queue, 0, old(clock))
    {
      ghost var ticks := clock + SweepTicks(doneAt, queue, 0, clock);
      ghost var (rest, written) := Sweep(doneAt, queue, 0, clock);
      ghost var goal := log + written;
      q, finished := queue, false;
      var i := 0;
      while i < |q|
        invariant Files() && finished == (|log| > old(|log|)) && |log| >= old(|log|)
        invariant Leads(doneAt, q, i, clock, log, rest, goal, ticks)
        decreases |q| - i
      {
        LeadsOn(doneAt, q, i, clock, log, rest, goal, ticks);
        var done := PollOne(q[i]);
        if done {
          q := RemoveFirst(q, q[i]);
          finished := true;
        }
        i := i + 1;
      }
    }

    /** Polls one server's queue until it has a free slot. */
    method AwaitQueue(queue: seq<nat>) returns (q: seq<nat>)
      requires Files() && concurrency >= 1
      modifies this`clock, this`output, this`errors, this`log
      ensures Files()
      ensures var (rest, written, t) := Await(doneAt, concurrency, queue, old(clock));
              q == rest && log == old(log) + written && clock == t
    {
      ghost var goal := Await(doneAt, concurrency, queue, clock);
      q := queue;
      while |q| >= concurrency
        invariant Files() && q == queue && log == old(log)
        invariant Await(doneAt, concurrency, queue, clock) == goal
        decreases if |queue| > 0 then doneAt(queue[0]) - clock else 0
      {
        ghost var t := clock;
        var finished;
        q, finished := Poll(q);
        if finished {
          return;
        }
        IdleSweep(doneAt, queue, 0, t);
      }
      assert log == old(log) + [];
    }

    /** One input line: at most one sweep that writes, then the submission. */
    method Feed(server: nat, ghost st: State)
      requires Valid() && server == st.server < servers && AtLine(st)
      modifies this`clock, this`queues, this`output, this`errors, this`next, this`log
      ensures Valid() && AtLine(Line(doneAt, concurrency, st))
      ensures |log| <= old(|log|) + (concurrency + 1) / 2
    {
      AwaitFrees(doneAt, concurrency, queues[server], clock);
      var q := AwaitQueue(queues[server]);
      queues := queues[server := q + [next]];
      next := next + 1;
    }

    /** Blocks on each request of one queue and writes it. */
    method DrainQueue(q: seq<nat>)
      requires Files()
      modifies this`clock, this`output, this`errors, this`log
      ensures Files() && log == old(log) + q
    {
      for j := 0 to |q|
        invariant Files() && log == old(log) + q[..j]
      {
        clock := Max(clock, doneAt(q[j]));
        Extend(log, old(log), q, j);
        Write(q[j]);
      }
      assert q[..|q|] == q;
    }

    /** Blocks on every request still pending, server by server, and writes it. */
    method Drain()
      requires Files()
      modifies this`clock, this`output, this`errors, this`log
      ensures Files() && log == old(log) + Concat(queues)
    {
      for s := 0 to |queues|
        invariant Files() && log == old(log) + Concat(queues[..s])
      {
        ExtendQueue(log, old(log), queues, s);
        DrainQueue(queues[s]);
      }
      assert queues[..|queues|] == queues;
    }

    /** Lines 349-403: submits lines round-robin until the input or `num_samples` is exhausted. */
    method Dispatch(lines: nat, numSamples: Option<nat>) returns (ghost end: State)
      requires Valid() && AtLine(Initial(servers, first)) && first <= lines
      modifies this`clock, this`queues, this`output, this`errors, this`next, this`log
      ensures Valid() && AtLine(end)
      ensures end == Dispatched(doneAt, concurrency, lines, numSamples, Initial(servers, first))
      ensures Accounted(log, queues, first, next, servers == 1 && concurrency == 1)
    {
      var server := 0;
      end := Initial(servers, first);
      InitialGood(servers, concurrency, first);
      DispatchedGood(doneAt, lines, numSamples, end, servers, concurrency, first);
      ghost var goal := Dispatched(doneAt, concurrency, lines, numSamples, end);
      while next < lines
        invariant Valid() && server == end.server < servers && AtLine(end)
        invariant Dispatched(doneAt, concurrency, lines, numSamples, end) == goal
      {
        var written := Written();
        if numSamples.Some? && written >= numSamples.value {
          break;
        }
        Feed(server, end);
        end := Line(doneAt, concurrency, end);
        server := (server + 1) % servers;
      }
    }

    /** The whole run over the input lines from `first` on. Every line submitted is written exactly once, to the file
        its own status selects; the queues never exceed `concurrency`; and `num_samples` is overshot by at most the
        slots. */
    method Run(lines: nat, numSamples: Option<nat>)
      requires Valid() && AtLine(Initial(servers, first)) && first <= lines
      modifies this`clock, this`queues, this`output, this`errors, this`next, this`log
      ensures Files() && log == Final(doneAt, servers, concurrency, first, lines, numSamples)
      ensures first <= next <= lines
      ensures multiset(output) + multiset(errors) == multiset(Lines(first, next))
      ensures forall r :: r in errors ==> isError(r)
      ensures forall r :: r in output ==> !isError(r)
      ensures servers == 1 && concurrency == 1 ==> log == Lines(first, next)
      ensures numSamples == None ==> next == lines
      ensures numSamples.Some? ==>
                Min(lines - first, numSamples.value) <= next - first <= numSamples.value + servers * concurrency
    {
      ghost var end := Dispatch(lines, numSamples);
      RunBounds(lines, numSamples);
      Drain();
      SplitResults(isError, log);
      Classified(isError, log);
    }

    lemma RunBounds(lines: nat, numSamples: Option<nat>)
      requires servers >= 1 && concurrency >= 1 && first <= lines
      ensures var end := Dispatched(doneAt, concurrency, lines, numSamples, Initial(servers, first));
              && first <= end.next <= lines
              && (numSamples == None ==> end.next == lines)
              && (numSamples.Some? ==>
                  Min(lines - first, numSamples.value) <= end.next - first <= numSamples.value + servers * concurrency)
    {
      var start := Initial(servers, first);
      InitialGood(servers, concurrency, first);
      DispatchedGood(doneAt, lines, numSamples, start, servers, concurrency, first);
      if numSamples.Some? {
        PendingBound(start, servers, concurrency, first);
        DispatchedBound(doneAt, lines, numSamples.value, start, servers, concurrency, first);
      }
    }
  }
}
