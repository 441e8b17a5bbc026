/** Resuming `scripts/regenerate_train_data.py` by the number of lines already written. */
module RegenerateResume {
  import opened Prelude
  import opened Pieces
  import opened Regenerate

  // ---------------------------------------------------------------- resuming after a list of written lines

  /** Skipping as many lines as were written covers every line exactly once if and only if nothing numbered at or past
      that count was written. */
  lemma CountResumesIff(written: seq<nat>, lines: nat)
    requires Distinct(written) && |written| <= lines
    ensures multiset(written) + multiset(Lines(|written|, lines)) == multiset(Lines(0, lines))
       <==> forall r :: r in written ==> r < |written|
  {
    var k := |written|;
    assert Lines(0, lines) == Lines(0, k) + Lines(k, lines);
    if forall r :: r in written ==> r < k {
      DistinctBelow(written);
    }
    if multiset(written) + multiset(Lines(k, lines)) == multiset(Lines(0, lines)) {
      assert multiset(written) == multiset(Lines(0, lines)) - multiset(Lines(k, lines)) == multiset(Lines(0, k));
      SameElements(written, Lines(0, k));
    }
  }

  /** Distinct numbers below their own count are all the numbers below it. */
  lemma DistinctBelow(a: seq<nat>)
    requires Distinct(a) && forall r :: r in a ==> r < |a|
    ensures multiset(a) == multiset(Lines(0, |a|))
  {
    var b := Lines(0, |a|);
    DistinctCardinality(a);
    DistinctCardinality(b);
    assert forall r :: r in a ==> b[r] == r;
    SubsetSize(Elements(a), Elements(b));
    forall x ensures multiset(a)[x] == multiset(b)[x] {
      DistinctMultiplicity(a, x);
      DistinctMultiplicity(b, x);
      assert x in multiset(a) <==> x in Elements(a);
      assert x in multiset(b) <==> x in Elements(b);
    }
  }

  // ---------------------------------------------------------------- complete runs

  /** A run without `num_samples` writes each line from `first` on exactly once, and in input order if there is one
      slot. */
  lemma FinalCovers(doneAt: nat -> nat, servers: nat, concurrency: nat, first: nat, lines: nat)
    requires servers >= 1 && concurrency >= 1 && first <= lines
    ensures multiset(Final(doneAt, servers, concurrency, first, lines, None)) == multiset(Lines(first, lines))
    ensures |Final(doneAt, servers, concurrency, first, lines, None)| == lines - first
    ensures servers == 1 && concurrency == 1 ==>
              Final(doneAt, servers, concurrency, first, lines, None) == Lines(first, lines)
  {
    var start := Initial(servers, first);
    InitialGood(servers, concurrency, first);
    DispatchedGood(doneAt, lines, None, start, servers, concurrency, first);
    var all := Final(doneAt, servers, concurrency, first, lines, None);
    SameElements(Lines(first, lines), all);
  }

  /** A run that dies after `k` writes and a second one that skips `k` lines write every line exactly once between
      them. */
  ghost predicate ResumesExactly(doneAt: nat -> nat, doneAt': nat -> nat, servers: nat, concurrency: nat, lines: nat,
                                 k: nat)
    requires servers >= 1 && concurrency >= 1
  {
    k <= |Final(doneAt, servers, concurrency, 0, lines, None)| ==>
      multiset(Final(doneAt, servers, concurrency, 0, lines, None)[..k]
          + Final(doneAt', servers, concurrency, k, lines, None))
      == multiset(Lines(0, lines))
  }

  lemma ResumesIff(doneAt: nat -> nat, doneAt': nat -> nat, servers: nat, concurrency: nat, lines: nat, k: nat,
                   written: seq<nat>)
    requires servers >= 1 && concurrency >= 1 && k <= lines
    requires |Final(doneAt, servers, concurrency, 0, lines, None)| == lines
    requires written == Final(doneAt, servers, concurrency, 0, lines, None)[..k]
    ensures ResumesExactly(doneAt, doneAt', servers, concurrency, lines, k) <==> forall r :: r in written ==> r < k
  {
    FinalCovers(doneAt, servers, concurrency, 0, lines);
    FinalCovers(doneAt', servers, concurrency, k, lines);
    SameElements(Lines(0, lines), Final(doneAt, servers, concurrency, 0, lines, None));
    CountResumesIff(written, lines);
  }

  /** A run that writes its lines in input order can be resumed at any point. */
  lemma InOrderResumes(doneAt: nat -> nat, doneAt': nat -> nat, servers: nat, concurrency: nat, lines: nat, k: nat)
    requires servers >= 1 && concurrency >= 1
    requires Final(doneAt, servers, concurrency, 0, lines, None) == Lines(0, lines)
    ensures ResumesExactly(doneAt, doneAt', servers, concurrency, lines, k)
  {
    if k <= lines {
      ResumesIff(doneAt, doneAt', servers, concurrency, lines, k, Lines(0, lines)[..k]);
    }
  }

  /** Dying just after writing a line that is not among the first of the input loses another one. */
  lemma LateLineLoses(doneAt: nat -> nat, servers: nat, concurrency: nat, lines: nat, i: nat, all: seq<nat>)
    requires servers >= 1 && concurrency >= 1 && all == Final(doneAt, servers, concurrency, 0, lines, None)
    requires i < |all| && all[i] > i
    ensures !ResumesExactly(doneAt, doneAt, servers, concurrency, lines, i + 1)
  {
    FinalCovers(doneAt, servers, concurrency, 0, lines);
    var written := all[..i + 1];
    assert written[i] in written;
    ResumesIff(doneAt, doneAt, servers, concurrency, lines, i + 1, written);
  }

  /** With one slot the files hold a prefix of the input, so resuming is exact at every point. */
  lemma OneSlotResumes(doneAt: nat -> nat, doneAt': nat -> nat, lines: nat, k: nat)
    ensures ResumesExactly(doneAt, doneAt', 1, 1, lines, k)
  {
    FinalCovers(doneAt, 1, 1, 0, lines);
    InOrderResumes(doneAt, doneAt', 1, 1, lines, k);
  }

  // ---------------------------------------------------------------- while there are free slots

  /** `a` full rounds and `b` more lines have been submitted and nothing has been written: the queues hold the lines
      dealt out in turn. */
  ghost predicate Filling(st: State, servers: nat, a: nat, b: nat) {
    && |st.queues| == servers && b < servers && st.server == b && st.next == Offset(a, servers) + b
    && st.log == [] && st.clock == 0
    && (forall s :: 0 <= s < servers ==> |st.queues[s]| == if s < b then a + 1 else a)
    && Dealt(st.queues, servers)
  }

  ghost predicate Dealt(queues: seq<seq<nat>>, servers: nat) {
    forall s, i {:trigger queues[s][i]} :: 0 <= s < |queues| && 0 <= i < |queues[s]| ==>
      queues[s][i] == Offset(i, servers) + s
  }

  lemma FillOne(doneAt: nat -> nat, servers: nat, concurrency: nat, st: State, a: nat, b: nat)
    requires concurrency >= 1 && Filling(st, servers, a, b) && a < concurrency
    ensures var st' := Line(doneAt, concurrency, st);
            if b + 1 < servers then Filling(st', servers, a, b + 1) else Filling(st', servers, a + 1, 0)
  {
    assert Await(doneAt, concurrency, st.queues[b], st.clock) == (st.queues[b], [], st.clock);
    DealOne(st.queues, servers, a, b, st.next);
    NextServer(b, servers);
  }

  lemma DealOne(queues: seq<seq<nat>>, servers: nat, a: nat, b: nat, next: nat)
    requires Dealt(queues, servers) && b < |queues| == servers && |queues[b]| == a && next == Offset(a, servers) + b
    ensures Dealt(queues[b := queues[b] + [next]], servers)
  {
    var queues' := queues[b := queues[b] + [next]];
    forall s, i | 0 <= s < |queues'| && 0 <= i < |queues'[s]| ensures queues'[s][i] == Offset(i, servers) + s {
      if s != b || i < a {
        assert queues'[s][i] == queues[s][i];
      }
    }
  }

  lemma NextServer(b: nat, servers: nat)
    requires b < servers
    ensures (b + 1) % servers == if b + 1 < servers then b + 1 else 0
  {
  }

  /** While there are free slots nothing is written. */
  lemma {:induction false} FillTo(doneAt: nat -> nat, servers: nat, concurrency: nat, lines: nat, st: State, a: nat,
                                  b: nat, upto: nat)
    returns (full: State, a': nat, b': nat)
    requires concurrency >= 1 && Filling(st, servers, a, b) && st.next <= upto <= lines
    requires upto <= Offset(concurrency, servers)
    ensures Filling(full, servers, a', b') && full.next == upto
    ensures Dispatched(doneAt, concurrency, lines, None, st) == Dispatched(doneAt, concurrency, lines, None, full)
    decreases upto - st.next
  {
    full, a', b' := st, a, b;
    if st.next < upto {
      if a >= concurrency {
        OffsetMonotone(concurrency, a, servers);
      }
      FillOne(doneAt, servers, concurrency, st, a, b);
      var next := Line(doneAt, concurrency, st);
      if b + 1 < servers {
        full, a', b' := FillTo(doneAt, servers, concurrency, lines, next, a, b + 1, upto);
      } else {
        full, a', b' := FillTo(doneAt, servers, concurrency, lines, next, a + 1, 0, upto);
      }
    }
  }

  /** The driver after its first `upto` lines, no more than there are slots. */
  lemma Filled(doneAt: nat -> nat, servers: nat, concurrency: nat, lines: nat, upto: nat)
    returns (full: State, a: nat, b: nat)
    requires servers >= 1 && concurrency >= 1 && upto <= lines && upto <= Offset(concurrency, servers)
    ensures Filling(full, servers, a, b) && full.next == upto
    ensures var end := Dispatched(doneAt, concurrency, lines, None, full);
            Final(doneAt, servers, concurrency, 0, lines, None) == end.log + Concat(end.queues)
  {
    full, a, b := FillTo(doneAt, servers, concurrency, lines, Initial(servers, 0), 0, 0, upto);
  }

  // ---------------------------------------------------------------- no more lines than slots

  lemma {:induction false} ConcatBegins(queues: seq<seq<nat>>)
    requires queues != []
    ensures |queues[0]| <= |Concat(queues)| && Concat(queues)[..|queues[0]|] == queues[0]
  {
    if |queues| > 1 {
      ConcatBegins(queues[..|queues| - 1]);
    } else {
      assert queues[..0] == [];
    }
  }

  /** One line at each of the first `n` servers. */
  lemma {:induction false} ConcatSingles(queues: seq<seq<nat>>, lo: nat, n: nat)
    requires n <= |queues| && forall s {:trigger queues[s]} :: 0 <= s < |queues| ==>
               queues[s] == if s < n then [lo + s] else []
    ensures Concat(queues) == Lines(lo, lo + n)
  {
    if queues != [] {
      var m := |queues| - 1;
      ConcatSingles(queues[..m], lo, if n > m then m else n);
      assert queues[m] == if m < n then [lo + m] else [];
    }
  }

  /** At most one line to a server: the drain writes them in order. */
  lemma FewLines(doneAt: nat -> nat, servers: nat, concurrency: nat, lines: nat)
    requires servers >= 1 && concurrency >= 1 && lines <= servers
    ensures Final(doneAt, servers, concurrency, 0, lines, None) == Lines(0, lines)
  {
    OffsetMonotone(1, concurrency, servers);
    assert Offset(1, servers) == servers;
    assert Offset(2, servers) == 2 * servers;
    var full, a, b := Filled(doneAt, servers, concurrency, lines, lines);
    if a >= 2 {
      OffsetMonotone(2, a, servers);
    }
    forall s | 0 <= s < servers ensures full.queues[s] == if s < lines then [s] else [] {
      SingleAt(full, servers, a, b, lines, s);
    }
    ConcatSingles(full.queues, 0, lines);
  }

  lemma SingleAt(full: State, servers: nat, a: nat, b: nat, lines: nat, s: nat)
    requires Filling(full, servers, a, b) && full.next == lines <= servers && a <= 1 && s < servers
    ensures full.queues[s] == if s < lines then [s] else []
  {
    assert Offset(0, servers) == 0 && Offset(1, servers) == servers;
    if s < lines {
      assert |full.queues[s]| == 1 && full.queues[s][0] == Offset(0, servers) + s;
    }
  }

  /** All lines fit into the slots of one server. */
  lemma OneServer(doneAt: nat -> nat, concurrency: nat, lines: nat)
    requires concurrency >= 1 && lines <= concurrency
    ensures Final(doneAt, 1, concurrency, 0, lines, None) == Lines(0, lines)
  {
    OffsetIsProduct(concurrency, 1);
    var full, a, b := Filled(doneAt, 1, concurrency, lines, lines);
    OffsetIsProduct(a, 1);
    var q := full.queues[0];
    forall i | 0 <= i < lines ensures q[i] == i {
      assert full.queues[0][i] == Offset(i, 1) + 0;
      OffsetIsProduct(i, 1);
    }
    OneQueue(full.queues);
  }

  /** A second line at the first of several servers is drained right after the first one. */
  lemma DrainSkips(doneAt: nat -> nat, servers: nat, concurrency: nat, lines: nat, all: seq<nat>)
    requires servers >= 2 && concurrency >= 1 && servers < lines <= Offset(concurrency, servers)
    requires all == Final(doneAt, servers, concurrency, 0, lines, None)
    ensures |all| >= 2 && all[1] == servers
  {
    var full, a, b := Filled(doneAt, servers, concurrency, lines, lines);
    assert Offset(0, servers) == 0 && Offset(1, servers) == servers;
    var q := full.queues[0];
    assert |q| >= 2;
    assert full.queues[0][1] == Offset(1, servers) + 0;
    ConcatBegins(full.queues);
    assert all[..|q|][1] == q[1];
  }

  // ---------------------------------------------------------------- more lines than slots

  /** Request 0 is slow, all others are done at once. */
  ghost predicate SlowFirst(doneAt: nat -> nat) {
    doneAt(0) == 2 && forall r: nat :: r > 0 ==> doneAt(r) == 0
  }

  /** With request 0 still running and the server's second request done, the second is written first. */
  lemma SlowFirstSweep(doneAt: nat -> nat, q: seq<nat>)
    requires SlowFirst(doneAt) && |q| >= 2 && q[0] == 0 && q[1] > 0
    ensures Sweep(doneAt, q, 0, 0).1 != [] && Sweep(doneAt, q, 0, 0).1[0] == q[1]
  {
    SweepStep(doneAt, q, 0, 0);
    SweepStep(doneAt, q, 1, 1);
  }

  /** What has been written stays in front. */
  lemma {:induction false} LogGrows(doneAt: nat -> nat, concurrency: nat, lines: nat, st: State)
    requires concurrency >= 1 && st.server < |st.queues|
    ensures var end := Dispatched(doneAt, concurrency, lines, None, st);
            |st.log| <= |end.log| && end.log[..|st.log|] == st.log
    decreases lines - st.next
  {
    if st.next < lines {
      LogGrows(doneAt, concurrency, lines, Line(doneAt, concurrency, st));
    }
  }

  /** All slots are taken. */
  lemma AllTaken(full: State, servers: nat, concurrency: nat, a: nat, b: nat)
    requires concurrency >= 1 && Filling(full, servers, a, b) && full.next == Offset(concurrency, servers)
    ensures a == concurrency && b == 0
  {
    if a < concurrency {
      OffsetMonotone(a + 1, concurrency, servers);
    } else if a > concurrency {
      OffsetMonotone(concurrency + 1, a, servers);
    }
  }

  /** Several slots at one server: the first line written is not the first line read. */
  lemma SharedServerWrites(doneAt: nat -> nat, servers: nat, concurrency: nat, lines: nat, all: seq<nat>)
    requires SlowFirst(doneAt) && servers >= 1 && concurrency >= 2 && lines > Offset(concurrency, servers)
    requires all == Final(doneAt, servers, concurrency, 0, lines, None)
    ensures all != [] && all[0] == servers
  {
    var full, a, b := Filled(doneAt, servers, concurrency, lines, Offset(concurrency, servers));
    AllTaken(full, servers, concurrency, a, b);
    FirstSweep(doneAt, full, servers, concurrency);
    LogGrows(doneAt, concurrency, lines, Line(doneAt, concurrency, full));
  }

  lemma FirstSweep(doneAt: nat -> nat, full: State, servers: nat, concurrency: nat)
    requires SlowFirst(doneAt) && servers >= 1 && concurrency >= 2 && Filling(full, servers, concurrency, 0)
    ensures var next := Line(doneAt, concurrency, full); next.log != [] && next.log[0] == servers
  {
    assert Offset(0, servers) == 0 && Offset(1, servers) == servers;
    var q := full.queues[0];
    assert full.queues[0][0] == Offset(0, servers) + 0 && full.queues[0][1] == Offset(1, servers) + 0;
    SlowFirstSweep(doneAt, q);
  }

  // ---------------------------------------------------------------- one slot at each server

  /** The line that server `s` works on when `n` lines have been read. */
  function Held(n: nat, servers: nat, s: nat): (r: nat)
    requires s < servers <= n
    ensures r < n
  {
    var b := n % servers;
    n - b + s - if s < b then 0 else servers
  }

  /** Every server works on its latest line, and all lines before those were written in order. */
  ghost predicate Rolling(st: State, servers: nat, n: nat) {
    && 1 <= servers <= n == st.next && st.server == n % servers && st.log == Lines(0, n - servers)
    && |st.queues| == servers
    && forall s: nat {:trigger st.queues[s]} :: s < servers ==> st.queues[s] == [Held(n, servers, s)]
  }

  /** Waiting for the only slot of a server writes what was in it. */
  lemma AwaitOne(doneAt: nat -> nat, x: nat, clock: nat)
    ensures Await(doneAt, 1, [x], clock).0 == [] && Await(doneAt, 1, [x], clock).1 == [x]
  {
    var t := AwaitIsSweep(doneAt, 1, [x], clock);
    var (rest, written) := Sweep(doneAt, [x], 0, t);
    SweepConserves(doneAt, [x], 0, t);
    SingleParts(rest, written, x);
  }

  lemma SingleParts(rest: seq<nat>, written: seq<nat>, x: nat)
    requires multiset(rest) + multiset(written) == multiset([x]) && written != []
    ensures rest == [] && written == [x]
  {
    assert |multiset(rest) + multiset(written)| == |rest| + |written| == 1;
    assert written[0] in multiset(written);
    assert written[0] in multiset([x]);
  }

  lemma HeldNext(n: nat, servers: nat, s: nat)
    requires s < servers <= n
    ensures Held(n, servers, n % servers) == n - servers
    ensures Held(n + 1, servers, s) == if s == n % servers then n else Held(n, servers, s)
    ensures (n % servers + 1) % servers == (n + 1) % servers
  {
    var q, b := n / servers, n % servers;
    assert n == q * servers + b;
    if b + 1 < servers {
      BlockOf(n + 1, q, b + 1, servers);
    } else {
      assert (q + 1) * servers == q * servers + servers;
      BlockOf(n + 1, q + 1, 0, servers);
    }
    NextServer(b, servers);
  }

  lemma RollOne(doneAt: nat -> nat, servers: nat, st: State, n: nat)
    requires Rolling(st, servers, n)
    ensures Rolling(Line(doneAt, 1, st), servers, n + 1)
  {
    var b, next := n % servers, Line(doneAt, 1, st);
    HeldNext(n, servers, b);
    AwaitOne(doneAt, n - servers, st.clock);
    assert st.queues[b] == [n - servers];
    assert next.queues == st.queues[b := [] + [n]];
    forall s: nat | s < servers ensures next.queues[s] == [Held(n + 1, servers, s)] {
      HeldNext(n, servers, s);
    }
    assert Lines(0, n - servers) + [n - servers] == Lines(0, n + 1 - servers);
  }

  lemma {:induction false} RollTo(doneAt: nat -> nat, servers: nat, st: State, n: nat, lines: nat)
    requires Rolling(st, servers, n) && n <= lines
    ensures Rolling(Dispatched(doneAt, 1, lines, None, st), servers, lines)
    decreases lines - n
  {
    if n < lines {
      RollOne(doneAt, servers, st, n);
      RollTo(doneAt, servers, Line(doneAt, 1, st), n + 1, lines);
    }
  }

  /** With one slot to a server the run is the same whatever the requests take. */
  lemma OneSlotEach(doneAt: nat -> nat, servers: nat, lines: nat) returns (end: State)
    requires 1 <= servers <= lines
    ensures Rolling(end, servers, lines)
    ensures Final(doneAt, servers, 1, 0, lines, None) == Lines(0, lines - servers) + Concat(end.queues)
  {
    assert Offset(1, servers) == servers;
    var full, a, b := Filled(doneAt, servers, 1, lines, servers);
    AllTaken(full, servers, 1, a, b);
    forall s: nat | s < servers ensures full.queues[s] == [Held(servers, servers, s)] {
      BlockOf(servers, 1, 0, servers);
      assert full.queues[s][0] == Offset(0, servers) + s;
    }
    RollTo(doneAt, servers, full, servers, lines);
    end := Dispatched(doneAt, 1, lines, None, full);
  }

  /** The drain continues in order if and only if the last round was full. */
  lemma LastRound(doneAt: nat -> nat, servers: nat, lines: nat, all: seq<nat>)
    requires 1 <= servers <= lines && all == Final(doneAt, servers, 1, 0, lines, None)
    ensures lines % servers == 0 ==> all == Lines(0, lines)
    ensures lines % servers != 0 ==> lines - servers < |all| && all[lines - servers] > lines - servers
  {
    var end := OneSlotEach(doneAt, servers, lines);
    if lines % servers == 0 {
      ConcatSingles(end.queues, lines - servers, servers);
      assert Lines(0, lines - servers) + Lines(lines - servers, lines) == Lines(0, lines);
    } else {
      ConcatBegins(end.queues);
      assert end.queues[0] == [Held(lines, servers, 0)];
      assert Concat(end.queues)[..1][0] == Held(lines, servers, 0);
    }
  }

  // ---------------------------------------------------------------- exactly when

  /** The inputs a driver writes in order whatever the requests take. */
  predicate AlwaysInOrder(servers: nat, concurrency: nat, lines: nat)
    requires servers >= 1
  {
    lines <= servers || (servers == 1 && lines <= concurrency) || (concurrency == 1 && lines % servers == 0)
  }

  lemma WritesInOrder(doneAt: nat -> nat, servers: nat, concurrency: nat, lines: nat)
    requires servers >= 1 && concurrency >= 1 && AlwaysInOrder(servers, concurrency, lines)
    ensures Final(doneAt, servers, concurrency, 0, lines, None) == Lines(0, lines)
  {
    if lines <= servers {
      FewLines(doneAt, servers, concurrency, lines);
    } else if servers == 1 && lines <= concurrency {
      OneServer(doneAt, concurrency, lines);
    } else {
      LastRound(doneAt, servers, lines, Final(doneAt, servers, concurrency, 0, lines, None));
    }
  }

  /** For every other input there is a run that writes some line too early. */
  lemma WritesEarly(servers: nat, concurrency: nat, lines: nat) returns (doneAt: nat -> nat, i: nat)
    requires servers >= 1 && concurrency >= 1 && !AlwaysInOrder(servers, concurrency, lines)
    ensures var all := Final(doneAt, servers, concurrency, 0, lines, None); i < |all| && all[i] > i
  {
    doneAt := (r: nat) => if r == 0 then 2 else 0;
    var all := Final(doneAt, servers, concurrency, 0, lines, None);
    if concurrency == 1 {
      LastRound(doneAt, servers, lines, all);
      i := lines - servers;
    } else if lines > Offset(concurrency, servers) {
      SharedServerWrites(doneAt, servers, concurrency, lines, all);
      i := 0;
    } else {
      OffsetIsProduct(concurrency, servers);
      DrainSkips(doneAt, servers, concurrency, lines, all);
      i := 1;
    }
  }

  /** For a given input, resuming is exact for every completion order of both runs and every point of interruption if
      and only if no server gets two lines, or one server has a slot for each line, or each server has one slot and the
      last round is full. */
  lemma ResumeExactAt(servers: nat, concurrency: nat, lines: nat)
    requires servers >= 1 && concurrency >= 1
    ensures (forall doneAt: nat -> nat, doneAt': nat -> nat, k: nat ::
               ResumesExactly(doneAt, doneAt', servers, concurrency, lines, k))
       <==> AlwaysInOrder(servers, concurrency, lines)
  {
    if AlwaysInOrder(servers, concurrency, lines) {
      forall doneAt: nat -> nat, doneAt': nat -> nat, k: nat
        ensures ResumesExactly(doneAt, doneAt', servers, concurrency, lines, k) {
        WritesInOrder(doneAt, servers, concurrency, lines);
        InOrderResumes(doneAt, doneAt', servers, concurrency, lines, k);
      }
    } else {
      var doneAt, i := WritesEarly(servers, concurrency, lines);
      LateLineLoses(doneAt, servers, concurrency, lines, i, Final(doneAt, servers, concurrency, 0, lines, None));
    }
  }

  /** Resuming is exact for every input, every completion order of both runs and every point of interruption if and only
      if the driver has a single slot. */
  lemma ResumeExactIff(servers: nat, concurrency: nat)
    requires servers >= 1 && concurrency >= 1
    ensures (forall doneAt: nat -> nat, doneAt': nat -> nat, lines: nat, k: nat ::
               ResumesExactly(doneAt, doneAt', servers, concurrency, lines, k))
       <==> servers == 1 && concurrency == 1
  {
    if servers == 1 && concurrency == 1 {
      forall doneAt: nat -> nat, doneAt': nat -> nat, lines: nat, k: nat
        ensures ResumesExactly(doneAt, doneAt', 1, 1, lines, k) {
        OneSlotResumes(doneAt, doneAt', lines, k);
      }
    } else {
      var lines := BadInput(servers, concurrency);
      var doneAt, i := WritesEarly(servers, concurrency, lines);
      LateLineLoses(doneAt, servers, concurrency, lines, i, Final(doneAt, servers, concurrency, 0, lines, None));
    }
  }

  /** One line more than there are slots. */
  lemma BadInput(servers: nat, concurrency: nat) returns (lines: nat)
    requires servers >= 1 && concurrency >= 1 && (servers > 1 || concurrency > 1)
    ensures !AlwaysInOrder(servers, concurrency, lines)
  {
    lines := Offset(concurrency, servers) + 1;
    OffsetIsProduct(concurrency, servers);
    OffsetMonotone(1, concurrency, servers);
    assert Offset(1, servers) == servers;
    if concurrency == 1 {
      BlockOf(lines, 1, 1, servers);
    }
  }

  // ---------------------------------------------------------------- a concrete run

  /** One server, two slots, three lines, line 0 slow: the driver writes line 1, then 0 and 2. Killed after its first
      write and resumed, it never writes line 0 and writes line 1 twice. */
  method ResumeLosesLine() returns (written: seq<nat>)
    ensures written == [1, 0, 2]
    ensures 0 !in written[..1] + Lines(1, 3) && multiset(written[..1] + Lines(1, 3))[1] == 2
  {
    var doneAt: nat -> nat := r => if r == 0 then 2 else 0;
    written := RunAll(doneAt, 1, 2, 3);
    ThreeLines(doneAt);
    assert written[..1] == [1] && Lines(1, 3) == [1, 2];
  }

  /** A run of the driver in which no request fails. */
  method RunAll(doneAt: nat -> nat, servers: nat, concurrency: nat, lines: nat) returns (written: seq<nat>)
    requires servers >= 1 && concurrency >= 1
    ensures written == Final(doneAt, servers, concurrency, 0, lines, None)
  {
    var isError: nat -> bool := r => false;
    var driver := new Driver(servers, concurrency, doneAt, isError, 0);
    driver.Run(lines, None);
    NoErrors(isError, driver.log);
    written := driver.output;
  }

  lemma {:induction false} NoErrors(isError: nat -> bool, rs: seq<nat>)
    requires forall r: nat :: !isError(r)
    ensures Successes(isError, rs) == rs
  {
    if rs != [] {
      NoErrors(isError, rs[..|rs| - 1]);
    }
  }

  lemma ThreeLines(doneAt: nat -> nat)
    requires SlowFirst(doneAt)
    ensures Final(doneAt, 1, 2, 0, 3, None) == [1, 0, 2]
  {
    assert Offset(0, 1) == 0 && Offset(1, 1) == 1 && Offset(2, 1) == 2;
    var full, a, b := Filled(doneAt, 1, 2, 3, 2);
    AllTaken(full, 1, 2, a, b);
    var q := full.queues[0];
    assert full.queues[0][0] == 0 && full.queues[0][1] == 1;
    assert q == [0, 1];
    TwoSlotSweep(doneAt);
    var end := Line(doneAt, 2, full);
    assert end.log == [1];
    assert |end.queues| == 1 && end.queues[0] == [0] + [2];
    OneQueue(end.queues);
  }

  lemma TwoSlotSweep(doneAt: nat -> nat)
    requires SlowFirst(doneAt)
    ensures Sweep(doneAt, [0, 1], 0, 0) == ([0], [1])
  {
    var q := [0, 1];
    assert q[1..] == [1] && RemoveFirst([1], 1) == [];
    assert RemoveFirst(q, 1) == [0];
    SweepStep(doneAt, q, 0, 0);
    SweepStep(doneAt, q, 1, 1);
    var after := Sweep(doneAt, [0], 2, 2);
    assert after.0 == [0] && after.1 == [];
    assert [q[1]] + after.1 == [1];
  }
}
