/** The hidden-state generator of `scripts/prepare_hidden_states.py`: index ranges of the data-parallel ranks, file
    paths, and the writer with its bounded list of pending saves, as its TP rank 0 runs them.

    A save of index `i` is done from tick `doneAt(i)` on; `doneAt` is arbitrary, so every order of completion is
    covered. */
module HiddenStates {
  import opened Prelude
  import opened Pieces
  import D = Decimal

  // ---------------------------------------------------------------- index ranges of the ranks

  /** `samples_per_dp` and `start_idx` of a rank. */
  function Share(total: nat, size: nat, rank: nat): nat
    requires rank < size
  {
    total / size + if rank < total % size then 1 else 0
  }

  function Start(total: nat, size: nat, rank: nat): nat
    requires rank < size
  {
    if rank < total % size then rank * Share(total, size, rank) else rank * Share(total, size, rank) + total % size
  }

  /** The ranges are laid end to end: the first starts at 0, each starts where the previous one stops, the last stops at
      `total`. */
  lemma RanksLineUp(total: nat, size: nat, rank: nat)
    requires rank < size
    ensures rank == 0 ==> Start(total, size, rank) == 0
    ensures rank + 1 < size ==> Start(total, size, rank + 1) == Start(total, size, rank) + Share(total, size, rank)
    ensures rank + 1 == size ==> Start(total, size, rank) + Share(total, size, rank) == total
  {
    var q, r := total / size, total % size;
    assert total == size * q + r;
    assert rank * (q + 1) == rank * q + rank;
    assert (rank + 1) * (q + 1) == rank * q + rank + q + 1;
    assert (rank + 1) * q == rank * q + q;
  }

  /** The shares differ by at most one, and the earlier ranks have the larger ones. */
  lemma SharesEven(total: nat, size: nat, a: nat, b: nat)
    requires a < b < size
    ensures Share(total, size, b) <= Share(total, size, a) <= Share(total, size, b) + 1
  {
  }

  lemma {:induction false} StartMonotone(total: nat, size: nat, a: nat, b: nat)
    requires a < b < size
    ensures Start(total, size, a) + Share(total, size, a) <= Start(total, size, b)
  {
    RanksLineUp(total, size, b - 1);
    if a < b - 1 {
      StartMonotone(total, size, a, b - 1);
    }
  }

  ghost predicate Assigned(total: nat, size: nat, rank: nat, i: nat)
    requires rank < size
  {
    Start(total, size, rank) <= i < Start(total, size, rank) + Share(total, size, rank)
  }

  lemma {:induction false} SomeRank(total: nat, size: nat, upto: nat, i: nat) returns (rank: nat)
    requires upto < size && i < Start(total, size, upto) + Share(total, size, upto)
    ensures rank <= upto && Assigned(total, size, rank, i)
  {
    RanksLineUp(total, size, upto);
    if i >= Start(total, size, upto) {
      rank := upto;
    } else {
      RanksLineUp(total, size, upto - 1);
      rank := SomeRank(total, size, upto - 1, i);
    }
  }

  /** For every total and every number of ranks, an index belongs to some rank exactly when it is below `total`, and
      then to one rank only. */
  lemma RangesTile(total: nat, size: nat, i: nat)
    requires size >= 1
    ensures i < total <==> exists rank: nat :: rank < size && Assigned(total, size, rank, i)
    ensures forall a: nat, b: nat ::
              a < size && b < size && Assigned(total, size, a, i) && Assigned(total, size, b, i) ==> a == b
  {
    RanksLineUp(total, size, size - 1);
    if i < total {
      var rank := SomeRank(total, size, size - 1, i);
    }
    forall rank: nat | rank < size && Assigned(total, size, rank, i) ensures i < total {
      if rank < size - 1 {
        StartMonotone(total, size, rank, size - 1);
      }
    }
    forall a: nat, b: nat | a < b < size ensures !(Assigned(total, size, a, i) && Assigned(total, size, b, i)) {
      StartMonotone(total, size, a, b);
    }
  }

  // ---------------------------------------------------------------- paths

  /** A file below the output directory. */
  datatype Path = Path(dir: string, name: string)

  function Group(i: nat, groupSize: nat): nat
    requires groupSize >= 1
  {
    (i / groupSize) * groupSize
  }

  function DirName(group: nat, groupSize: nat): string {
    "rows_" + D.Print(group) + "-" + D.Print(group + groupSize)
  }

  function DirOf(i: nat, groupSize: nat): string
    requires groupSize >= 1
  {
    DirName(Group(i, groupSize), groupSize)
  }

  function Extension(compress: bool): string {
    if compress then ".ckpt.gz" else ".ckpt"
  }

  function FilePath(i: nat, groupSize: nat, compress: bool): Path
    requires groupSize >= 1
  {
    Path(DirOf(i, groupSize), "data_" + D.Print(i) + Extension(compress))
  }

  /** The index a data file name carries. */
  function IndexOf(name: string): nat
    requires |name| >= 5
  {
    var rest := name[5..];
    D.Value(rest[..D.Leading(rest)])
  }

  /** The path determines the index. */
  lemma IndexOfPath(i: nat, groupSize: nat, compress: bool)
    requires groupSize >= 1
    ensures IndexOf(FilePath(i, groupSize, compress).name) == i
  {
    var name := FilePath(i, groupSize, compress).name;
    assert name[5..] == D.Print(i) + Extension(compress);
    D.LeadingIs(D.Print(i), Extension(compress));
    D.ValuePrint(i);
  }

  /** What a path shows: the range of `groupSize` indices its directory is for, which starts at a multiple, and the
      index, which lies in it. */
  lemma PathShows(i: nat, groupSize: nat, compress: bool) returns (lo: nat)
    requires groupSize >= 1
    ensures lo <= i < lo + groupSize && lo % groupSize == 0
    ensures FilePath(i, groupSize, compress)
         == Path("rows_" + D.Print(lo) + "-" + D.Print(lo + groupSize),
                 "data_" + D.Print(i) + if compress then ".ckpt.gz" else ".ckpt")
  {
    lo := (i / groupSize) * groupSize;
    assert i == lo + i % groupSize;
    BlockOf(lo, i / groupSize, 0, groupSize);
  }

  /** `check_single_file`: a sample counts as present under either extension. */
  predicate Present(disk: set<Path>, i: nat, groupSize: nat)
    requires groupSize >= 1
  {
    FilePath(i, groupSize, false) in disk || FilePath(i, groupSize, true) in disk
  }

  /** Files of other samples do not make a sample present. */
  lemma PresentFrame(disk: set<Path>, more: set<Path>, i: nat, groupSize: nat)
    requires groupSize >= 1 && disk <= more
    requires forall p :: p in more - disk ==> |p.name| >= 5 && IndexOf(p.name) != i
    ensures Present(more, i, groupSize) == Present(disk, i, groupSize)
  {
    IndexOfPath(i, groupSize, false);
    IndexOfPath(i, groupSize, true);
  }

  // ---------------------------------------------------------------- directories

  /** The groups that the samples `lo..hi` belong to. */
  ghost function Groups(lo: nat, hi: nat, groupSize: nat): set<nat>
    requires groupSize >= 1
  {
    set i | lo <= i < hi :: Group(i, groupSize)
  }

  lemma GroupIs(i: nat, q: nat, groupSize: nat)
    requires groupSize >= 1 && Offset(q, groupSize) <= i < Offset(q, groupSize) + groupSize
    ensures Group(i, groupSize) == Offset(q, groupSize)
  {
    OffsetIsProduct(q, groupSize);
    BlockOf(i, q, i - Offset(q, groupSize), groupSize);
  }

  /** A sample lies in its group. */
  lemma GroupBounds(i: nat, groupSize: nat)
    requires groupSize >= 1
    ensures Group(i, groupSize) == Offset(i / groupSize, groupSize)
    ensures Group(i, groupSize) <= i < Group(i, groupSize) + groupSize
  {
    OffsetIsProduct(i / groupSize, groupSize);
    assert i == (i / groupSize) * groupSize + i % groupSize;
  }

  /** Groups lie a whole group apart. */
  lemma GroupsApart(p: nat, q: nat, groupSize: nat)
    ensures Offset(p, groupSize) < Offset(q, groupSize) ==> Offset(p, groupSize) + groupSize <= Offset(q, groupSize)
  {
    if p < q {
      OffsetMonotone(p + 1, q, groupSize);
    } else {
      OffsetMonotone(q, p, groupSize);
    }
  }

  /** The group at `g` serves exactly the samples from `g` to the next group. */
  lemma NextGroup(lo: nat, hi: nat, q: nat, g: nat, groupSize: nat)
    requires groupSize >= 1 && g == Offset(q, groupSize) && g < hi && lo < g + groupSize && lo < hi
    ensures Groups(lo, Min(hi, g + groupSize), groupSize) == Groups(lo, Min(hi, g), groupSize) + {g}
  {
    forall i: nat | g <= i < g + groupSize ensures Group(i, groupSize) == g {
      GroupIs(i, q, groupSize);
    }
    GroupsSplit(lo, Min(hi, g + groupSize), g, Max(lo, g), groupSize);
  }

  lemma GroupsSplit(lo: nat, hi: nat, g: nat, some: nat, groupSize: nat)
    requires groupSize >= 1 && g <= some < hi && lo <= some
    requires forall i: nat :: g <= i < hi ==> Group(i, groupSize) == g
    ensures Groups(lo, hi, groupSize) == Groups(lo, g, groupSize) + {g}
  {
    assert Group(some, groupSize) == g;
    assert g in Groups(lo, hi, groupSize);
  }

  /** `range(start_group, end_group + 1, file_group_size)`: exactly the groups of the samples `start..start + count`. */
  method GroupRange(start: nat, count: nat, groupSize: nat) returns (gs: set<nat>)
    requires groupSize >= 1 && count >= 1
    ensures gs == Groups(start, start + count, groupSize)
  {
    gs := {};
    var hi := start + count;
    var g, endGroup := Group(start, groupSize), Group(hi - 1, groupSize);
    ghost var q: nat, last: nat := start / groupSize, (hi - 1) / groupSize;
    GroupBounds(start, groupSize);
    GroupBounds(hi - 1, groupSize);
    NoneYet(start, g, groupSize);
    while g <= endGroup
      invariant g == Offset(q, groupSize) && start < g + groupSize
      invariant gs == Groups(start, Min(hi, g), groupSize)
      decreases endGroup - g
    {
      NextGroup(start, hi, q, g, groupSize);
      gs := gs + {g};
      g := g + groupSize;
      q := q + 1;
    }
    GroupsApart(last, q, groupSize);
  }

  lemma NoneYet(lo: nat, hi: nat, groupSize: nat)
    requires groupSize >= 1 && hi <= lo
    ensures Groups(lo, hi, groupSize) == {}
  {
  }

  /** The directories that the samples `lo..hi` go to. */
  ghost function Needed(lo: nat, hi: nat, groupSize: nat): set<string>
    requires groupSize >= 1
  {
    set i | lo <= i < hi :: DirOf(i, groupSize)
  }

  lemma DirNeeded(i: nat, lo: nat, hi: nat, groupSize: nat, compress: bool)
    requires groupSize >= 1 && lo <= i < hi
    ensures FilePath(i, groupSize, compress).dir in Needed(lo, hi, groupSize)
  {
  }

  lemma NeededOfGroups(lo: nat, hi: nat, groupSize: nat)
    requires groupSize >= 1
    ensures Needed(lo, hi, groupSize) == set g | g in Groups(lo, hi, groupSize) :: DirName(g, groupSize)
  {
    forall i | lo <= i < hi
      ensures DirOf(i, groupSize) == DirName(Group(i, groupSize), groupSize)
           && Group(i, groupSize) in Groups(lo, hi, groupSize) {
    }
  }

  // ---------------------------------------------------------------- what a rank has to submit

  datatype DataPoint<Sample, Hidden> = DataPoint(sample: Sample, hidden: Hidden)

  type Jobs<Sample, Hidden> = map<nat, DataPoint<Sample, Hidden>>

  /** `found` holds the samples present on a disk. */
  ghost predicate FoundOn(found: iset<nat>, disk: set<Path>, groupSize: nat)
    requires groupSize >= 1
  {
    forall i: nat {:trigger Present(disk, i, groupSize)} :: Present(disk, i, groupSize) <==> i in found
  }

  /** Of the first `n` loader samples, those that are not on disk yet, each under its own index. */
  ghost function Expected<Sample, Hidden>(found: iset<nat>, start: nat, samples: seq<Sample>, n: nat,
                                          hidden: Sample -> Hidden): Jobs<Sample, Hidden>
    requires n <= |samples|
  {
    if n == 0 then map[]
    else if start + n - 1 in found then Expected(found, start, samples, n - 1, hidden)
    else Expected(found, start, samples, n - 1,
                  hidden)[start + n - 1 := DataPoint(samples[n - 1], hidden(samples[n - 1]))]
  }

  /** Index `k` is submitted if and only if it is the index of a loader sample that was not on disk, and then with that
      sample and its hidden states. */
  lemma {:induction false} ExpectedIs<Sample, Hidden>(found: iset<nat>, start: nat, samples: seq<Sample>, n: nat,
                                                      hidden: Sample -> Hidden, k: nat)
    requires n <= |samples|
    ensures k in Expected(found, start, samples, n, hidden) <==> start <= k < start + n && k !in found
    ensures k in Expected(found, start, samples, n, hidden) ==>
              Expected(found, start, samples, n, hidden)[k] == DataPoint(samples[k - start], hidden(samples[k - start]))
  {
    if n > 0 {
      ExpectedIs(found, start, samples, n - 1, hidden, k);
    }
  }

  /** The batch is the run of the loader's samples that starts at `seen`. */
  ghost predicate IsRun<Sample>(batch: seq<Sample>, samples: seq<Sample>, seen: nat) {
    seen + |batch| <= |samples| && forall k {:trigger batch[k]} :: 0 <= k < |batch| ==> batch[k] == samples[seen + k]
  }

  ghost predicate Scanned(present: seq<bool>, first: nat, found: iset<nat>) {
    forall k {:trigger present[k]} :: 0 <= k < |present| ==> present[k] == (first + k in found)
  }

  /** `[i for i, exists in enumerate(present) if not exists]`, of the first `n` entries. */
  function Missing(present: seq<bool>, n: nat): (r: seq<nat>)
    requires n <= |present|
    ensures |r| <= n && forall j :: 0 <= j < |r| ==> r[j] < n
  {
    if n == 0 then [] else Missing(present, n - 1) + if present[n - 1] then [] else [n - 1]
  }

  /** Submitting the given positions of a batch, in order, on top of `jobs`. */
  ghost function Put<Sample, Hidden>(jobs: Jobs<Sample, Hidden>, first: nat, missing: seq<nat>, batch: seq<Sample>,
                                     hidden: Sample -> Hidden): Jobs<Sample, Hidden>
    requires forall j :: 0 <= j < |missing| ==> missing[j] < |batch|
  {
    if missing == [] then jobs
    else
      var p := missing[|missing| - 1];
      Put(jobs, first, missing[..|missing| - 1], batch, hidden)[first + p := DataPoint(batch[p], hidden(batch[p]))]
  }

  lemma PutOne<Sample, Hidden>(jobs: Jobs<Sample, Hidden>, first: nat, missing: seq<nat>, p: nat, batch: seq<Sample>,
                               hidden: Sample -> Hidden)
    requires p < |batch| && forall j :: 0 <= j < |missing| ==> missing[j] < |batch|
    ensures Put(jobs, first, missing + [p], batch, hidden)
         == Put(jobs, first, missing, batch, hidden)[first + p := DataPoint(batch[p], hidden(batch[p]))]
  {
    assert (missing + [p])[..|missing|] == missing;
  }

  /** Submitting those of the first `n` positions of a batch that are not present. */
  ghost function PutAbsent<Sample, Hidden>(jobs: Jobs<Sample, Hidden>, first: nat, present: seq<bool>,
                                           batch: seq<Sample>, hidden: Sample -> Hidden, n: nat): Jobs<Sample, Hidden>
    requires n <= |present| == |batch|
  {
    if n == 0 then jobs
    else
      var before := PutAbsent(jobs, first, present, batch, hidden, n - 1);
      if present[n - 1] then before else before[first + (n - 1) := DataPoint(batch[n - 1], hidden(batch[n - 1]))]
  }

  lemma {:induction false} PutMissing<Sample, Hidden>(jobs: Jobs<Sample, Hidden>, first: nat, present: seq<bool>,
                                                      batch: seq<Sample>, hidden: Sample -> Hidden, n: nat,
                                                      missing: seq<nat>)
    requires n <= |present| == |batch| && missing == Missing(present, n)
    ensures Put(jobs, first, missing, batch, hidden) == PutAbsent(jobs, first, present, batch, hidden, n)
  {
    if n > 0 {
      var before := Missing(present, n - 1);
      PutMissing(jobs, first, present, batch, hidden, n - 1, before);
      PutMissingStep(jobs, first, present, batch, hidden, n - 1, before, missing);
    }
  }

  lemma PutMissingStep<Sample, Hidden>(jobs: Jobs<Sample, Hidden>, first: nat, present: seq<bool>, batch: seq<Sample>,
                                       hidden: Sample -> Hidden, p: nat, before: seq<nat>, missing: seq<nat>)
    requires p < |present| == |batch| && before == Missing(present, p) && missing == Missing(present, p + 1)
    requires Put(jobs, first, before, batch, hidden) == PutAbsent(jobs, first, present, batch, hidden, p)
    ensures Put(jobs, first, missing, batch, hidden) == PutAbsent(jobs, first, present, batch, hidden, p + 1)
  {
    if present[p] {
      assert missing == before;
    } else {
      assert missing == before + [p];
      PutOne(jobs, first, before, p, batch, hidden);
    }
  }

  /** What is submitted after `seen` samples and the first `n` of the next batch. */
  lemma {:induction false} AbsentIsExpected<Sample, Hidden>(jobs: Jobs<Sample, Hidden>, found: iset<nat>, start: nat,
                                                            samples: seq<Sample>, seen: nat, hidden: Sample -> Hidden,
                                                            batch: seq<Sample>, present: seq<bool>, n: nat)
    requires n <= |present| == |batch| && IsRun(batch, samples, seen) && Scanned(present, start + seen, found)
    requires jobs == Expected(found, start, samples, seen, hidden)
    ensures PutAbsent(jobs, start + seen, present, batch, hidden, n)
         == Expected(found, start, samples, seen + n, hidden)
    ensures |Expected(found, start, samples, seen + n, hidden)| == |jobs| + |Missing(present, n)|
  {
    if n > 0 {
      AbsentIsExpected(jobs, found, start, samples, seen, hidden, batch, present, n - 1);
      AbsentStep(jobs, found, start, samples, seen, hidden, batch, present, n - 1);
    }
  }

  lemma AbsentStep<Sample, Hidden>(jobs: Jobs<Sample, Hidden>, found: iset<nat>, start: nat, samples: seq<Sample>,
                                   seen: nat, hidden: Sample -> Hidden, batch: seq<Sample>, present: seq<bool>, p: nat)
    requires p < |present| == |batch| && IsRun(batch, samples, seen) && Scanned(present, start + seen, found)
    requires PutAbsent(jobs, start + seen, present, batch, hidden, p)
          == Expected(found, start, samples, seen + p, hidden)
    ensures PutAbsent(jobs, start + seen, present, batch, hidden, p + 1)
         == Expected(found, start, samples, seen + p + 1, hidden)
    ensures |Expected(found, start, samples, seen + p + 1, hidden)|
         == |Expected(found, start, samples, seen + p, hidden)| + if present[p] then 0 else 1
  {
    assert batch[p] == samples[seen + p] && present[p] == (start + seen + p in found);
    ExpectedStep(found, start, samples, seen + p, hidden);
  }

  lemma ExpectedStep<Sample, Hidden>(found: iset<nat>, start: nat, samples: seq<Sample>, p: nat,
                                     hidden: Sample -> Hidden)
    requires p < |samples|
    ensures var before := Expected(found, start, samples, p, hidden);
            var after := Expected(found, start, samples, p + 1, hidden);
            if start + p in found then after == before
            else after == before[start + p := DataPoint(samples[p], hidden(samples[p]))] && |after| == |before| + 1
  {
    ExpectedIs(found, start, samples, p, hidden, start + p);
  }

  /** The `k`-th sample is submitted under index `start + k`, with its own content, unless it is on disk. */
  ghost predicate AreSubmitted<Sample, Hidden>(jobs: Jobs<Sample, Hidden>, disk: set<Path>, groupSize: nat, start: nat,
                                               samples: seq<Sample>, hidden: Sample -> Hidden)
    requires groupSize >= 1
  {
    && (forall i: nat :: i in jobs <==> IsDue(disk, groupSize, start, |samples|, i))
    && (forall i :: i in jobs ==> jobs[i] == DataPoint(samples[i - start], hidden(samples[i - start])))
  }

  /** Index `i` is that of a loader sample that is not on disk. */
  ghost predicate IsDue(disk: set<Path>, groupSize: nat, start: nat, n: nat, i: nat)
    requires groupSize >= 1
  {
    start <= i < start + n && !Present(disk, i, groupSize)
  }

  /** `ExpectedIs` for all indices at once. */
  lemma ExpectedAll<Sample, Hidden>(found: iset<nat>, disk: set<Path>, groupSize: nat, start: nat, samples: seq<Sample>,
                                    hidden: Sample -> Hidden, jobs: Jobs<Sample, Hidden>)
    requires groupSize >= 1 && FoundOn(found, disk, groupSize)
          && jobs == Expected(found, start, samples, |samples|, hidden)
    ensures AreSubmitted(jobs, disk, groupSize, start, samples, hidden)
  {
    forall i: nat ensures i in jobs <==> IsDue(disk, groupSize, start, |samples|, i) {
      ExpectedAt(found, disk, groupSize, start, samples, hidden, jobs, i);
    }
    ExpectedValues(found, start, samples, hidden, jobs);
  }

  lemma ExpectedValues<Sample, Hidden>(found: iset<nat>, start: nat, samples: seq<Sample>, hidden: Sample -> Hidden,
                                       jobs: Jobs<Sample, Hidden>)
    requires jobs == Expected(found, start, samples, |samples|, hidden)
    ensures forall i :: i in jobs ==>
              start <= i < start + |samples| && jobs[i] == DataPoint(samples[i - start], hidden(samples[i - start]))
  {
    forall i | i in jobs
      ensures start <= i < start + |samples| && jobs[i] == DataPoint(samples[i - start], hidden(samples[i - start]))
    {
      ExpectedIs(found, start, samples, |samples|, hidden, i);
    }
  }

  lemma ExpectedAt<Sample, Hidden>(found: iset<nat>, disk: set<Path>, groupSize: nat, start: nat, samples: seq<Sample>,
                                   hidden: Sample -> Hidden, jobs: Jobs<Sample, Hidden>, i: nat)
    requires groupSize >= 1 && FoundOn(found, disk, groupSize)
          && jobs == Expected(found, start, samples, |samples|, hidden)
    ensures i in jobs <==> IsDue(disk, groupSize, start, |samples|, i)
  {
    ExpectedIs(found, start, samples, |samples|, hidden, i);
  }

  // ---------------------------------------------------------------- the generator

  /** `[f for f in pending if not f.done()]`, each polled one tick after the one before. */
  function Unfinished(doneAt: nat -> nat, pending: seq<nat>, clock: nat): (r: seq<nat>)
    ensures |r| <= |pending|
  {
    if pending == [] then []
    else
      var f := pending[|pending| - 1];
      Unfinished(doneAt, pending[..|pending| - 1], clock) + if doneAt(f) > clock + |pending| then [f] else []
  }

  /** `r` shows the positions `at` of `pending`, in order, and these are the saves not done when they were polled. */
  ghost predicate ShowsUnfinished(doneAt: nat -> nat, pending: seq<nat>, clock: nat, r: seq<nat>, at: seq<nat>) {
    && |at| == |r| && (forall i :: 0 <= i < |at| ==> at[i] < |pending| && r[i] == pending[at[i]])
    && (forall i, j :: 0 <= i < j < |at| ==> at[i] < at[j])
    && forall j: nat {:trigger pending[j]} :: j < |pending| ==> (j in at <==> doneAt(pending[j]) > clock + j + 1)
  }

  /** The saves kept are those not done when they were polled, in their order. */
  lemma {:induction false} UnfinishedAre(doneAt: nat -> nat, pending: seq<nat>, clock: nat) returns (at: seq<nat>)
    ensures ShowsUnfinished(doneAt, pending, clock, Unfinished(doneAt, pending, clock), at)
  {
    if pending == [] {
      at := [];
    } else {
      var n := |pending| - 1;
      var front, r := pending[..n], Unfinished(doneAt, pending[..n], clock);
      at := UnfinishedAre(doneAt, front, clock);
      OneMoreSave(doneAt, front, clock, r, at, pending[n]);
      assert pending == front + [pending[n]];
      if doneAt(pending[n]) > clock + n + 1 {
        at := at + [n];
      }
    }
  }

  lemma OneMoreSave(doneAt: nat -> nat, front: seq<nat>, clock: nat, r: seq<nat>, at: seq<nat>, f: nat)
    requires ShowsUnfinished(doneAt, front, clock, r, at)
    ensures doneAt(f) > clock + |front| + 1 ==> ShowsUnfinished(doneAt, front + [f], clock, r + [f], at + [|front|])
    ensures doneAt(f) <= clock + |front| + 1 ==> ShowsUnfinished(doneAt, front + [f], clock, r + [], at)
  {
    var pending := front + [f];
    forall j: nat | j < |front| ensures pending[j] == front[j] {
    }
    assert |front| !in at;
  }

  lemma {:induction false} UnfinishedMembers(doneAt: nat -> nat, pending: seq<nat>, clock: nat)
    ensures forall x :: x in Unfinished(doneAt, pending, clock) ==> x in pending
    ensures forall x :: x in pending ==> x in Unfinished(doneAt, pending, clock) || doneAt(x) <= clock + |pending|
  {
    if pending != [] {
      UnfinishedMembers(doneAt, pending[..|pending| - 1], clock);
      assert pending == pending[..|pending| - 1] + [pending[|pending| - 1]];
    }
  }

  class HiddenStatesGenerator<Sample, Hidden> {
    const ioQueueSize: nat
    const groupSize: nat
    const compress: bool
    const doneAt: nat -> nat
    const hidden: Sample -> Hidden
    const isNan: Hidden -> bool
    const existing: set<Path>
    var clock: nat
    var pending: seq<nat>
    var dirs: set<string>
    var jobs: Jobs<Sample, Hidden>

    /** Every submitted save is pending or done, and the back-pressure bound holds. */
    ghost predicate Valid()
      reads this
    {
      && ioQueueSize >= 1 && groupSize >= 1
      && |pending| <= ioQueueSize
      && (forall i :: i in pending ==> i in jobs)
      && (forall i :: i in jobs ==> i in pending || doneAt(i) <= clock)
    }

    /** The files there are now: those found at the start and the saves done since, unless they held a NaN. */
    function Disk(): set<Path>
      requires groupSize >= 1
      reads this
    {
      existing + set i | i in jobs && doneAt(i) <= clock && !isNan(jobs[i].hidden) :: FilePath(i, groupSize, compress)
    }

    constructor (ioQueueSize: nat, groupSize: nat, compress: bool, doneAt: nat -> nat, hidden: Sample -> Hidden,
                 isNan: Hidden -> bool, existing: set<Path>, dirs: set<string>)
      requires ioQueueSize >= 1 && groupSize >= 1
      ensures Valid() && pending == [] && jobs == map[] && Disk() == existing && this.dirs == dirs
      ensures this.ioQueueSize == ioQueueSize && this.groupSize == groupSize && this.compress == compress
      ensures this.doneAt == doneAt && this.hidden == hidden && this.isNan == isNan && this.existing == existing
    {
      this.ioQueueSize, this.groupSize, this.compress := ioQueueSize, groupSize, compress;
      this.doneAt, this.hidden, this.isNan, this.existing := doneAt, hidden, isNan, existing;
      clock, pending, this.dirs, jobs := 0, [], dirs, map[];
    }

    /** `[f for f in self.pending_futures if not f.done()]`. */
    method ClearDone()
      requires Valid()
      modifies this`clock, this`pending
      ensures Valid() && pending == Unfinished(doneAt, old(pending), old(clock)) && clock == old(clock) + |old(pending)|
    {
      var kept: seq<nat> := [];
      for j := 0 to |pending|
        invariant clock == old(clock) + j && pending == old(pending)
        invariant kept == Unfinished(doneAt, pending[..j], old(clock))
      {
        clock := clock + 1;
        var f := pending[j];
        assert pending[..j + 1][..j] == pending[..j];
        if doneAt(f) > clock {
          kept := kept + [f];
        }
      }
      assert pending[..|pending|] == pending;
      UnfinishedMembers(doneAt, pending, old(clock));
      pending := kept;
    }

    /** Makes room in a full list by dropping finished saves, else by waiting for the oldest one; then submits. */
    method SaveAsync(i: nat, point: DataPoint<Sample, Hidden>)
      requires Valid()
      modifies this`clock, this`pending, this`jobs
      ensures Valid() && clock >= old(clock)
      ensures jobs == old(jobs)[i := point]
      ensures var cleared, polled := Unfinished(doneAt, old(pending), old(clock)), old(clock) + |old(pending)|;
              if |old(pending)| < ioQueueSize then pending == old(pending) + [i] && clock == old(clock)
              else if |cleared| < ioQueueSize then pending == cleared + [i] && clock == polled
              else pending == cleared[1..] + [i] && clock == Max(polled, doneAt(cleared[0]))
    {
      if |pending| >= ioQueueSize {
        ClearDone();
        if |pending| >= ioQueueSize {
          var oldest := pending[0];
          assert pending == [oldest] + pending[1..];
          clock, pending := Max(clock, doneAt(oldest)), pending[1..];
        }
      }
      jobs := jobs[i := point];
      pending := pending + [i];
    }

    /** After this every submitted save is done. */
    method WaitAllSaves()
      requires Valid()
      modifies this`clock, this`pending
      ensures Valid() && clock >= old(clock) && pending == []
      ensures forall i :: i in jobs ==> doneAt(i) <= clock
    {
      for j := 0 to |pending|
        invariant clock >= old(clock) && pending == old(pending)
        invariant forall i :: i in jobs ==> i in pending[j..] || doneAt(i) <= clock
      {
        assert pending[j..] == [pending[j]] + pending[j + 1..];
        clock := Max(clock, doneAt(pending[j]));
      }
      pending := [];
    }

    /** Creates exactly the directories that the samples `start..start + count` go to. */
    method PrepareOutputDirs(start: nat, count: nat)
      requires groupSize >= 1
      modifies this`dirs
      ensures dirs == old(dirs) + Needed(start, start + count, groupSize)
    {
      if count != 0 {
        var gs := GroupRange(start, count, groupSize);
        NeededOfGroups(start, start + count, groupSize);
        dirs := dirs + set g | g in gs :: DirName(g, groupSize);
      }
    }

    /** Saves of earlier samples do not hide a later one. */
    lemma PresentNow(i: nat)
      requires Valid() && i !in jobs
      ensures Present(Disk(), i, groupSize) == Present(existing, i, groupSize)
    {
      OthersOnly(i);
      PresentFrame(existing, Disk(), i, groupSize);
    }

    /** `_check_existing_files_batch`. */
    method CheckExisting(first: nat, n: nat, ghost found: iset<nat>) returns (present: seq<bool>)
      requires Valid() && FoundOn(found, existing, groupSize)
      requires forall k :: k in jobs ==> k < first
      ensures |present| == n && Scanned(present, first, found)
    {
      var disk := Disk();
      present := seq(n, k requires 0 <= k => Present(disk, first + k, groupSize));
      forall k | 0 <= k < n ensures present[k] == (first + k in found) {
        PresentNow(first + k);
      }
    }

    /** The target model on the filtered batch, and the data points made of its rows. */
    method Extend(batch: seq<Sample>, missing: seq<nat>) returns (points: seq<DataPoint<Sample, Hidden>>)
      requires forall j :: 0 <= j < |missing| ==> missing[j] < |batch|
      ensures |points| == |missing|
      ensures forall j :: 0 <= j < |missing| ==> points[j] == DataPoint(batch[missing[j]], hidden(batch[missing[j]]))
    {
      var filtered := seq(|missing|, j requires 0 <= j < |missing| => batch[missing[j]]);
      var rows := seq(|filtered|, j requires 0 <= j < |filtered| => hidden(filtered[j]));
      points := seq(|missing|, j requires 0 <= j < |missing| => DataPoint(filtered[j], rows[j]));
    }

    /** Submits the data points of a batch one by one. */
    method SaveAll(first: nat, missing: seq<nat>, batch: seq<Sample>)
      requires Valid() && forall j :: 0 <= j < |missing| ==> missing[j] < |batch|
      modifies this`clock, this`pending, this`jobs
      ensures Valid() && jobs == Put(old(jobs), first, missing, batch, hidden)
    {
      var points := Extend(batch, missing);
      for j := 0 to |missing|
        invariant Valid() && jobs == Put(old(jobs), first, missing[..j], batch, hidden)
      {
        PutOne(old(jobs), first, missing[..j], missing[j], batch, hidden);
        assert missing[..j + 1] == missing[..j] + [missing[j]];
        SaveAsync(first + missing[j], points[j]);
      }
      assert missing[..|missing|] == missing;
    }

    /** One batch: samples `seen..seen + |batch|` of the loader. */
    method ProcessBatch(batch: seq<Sample>, start: nat, seen: nat, next: nat, ghost samples: seq<Sample>,
                        ghost found: iset<nat>)
      returns (processed: nat)
      requires Valid() && IsRun(batch, samples, seen) && next == seen + |batch|
      requires FoundOn(found, existing, groupSize) && forall k :: k in jobs ==> k < start + seen
      requires jobs == Expected(found, start, samples, seen, hidden)
      modifies this`clock, this`pending, this`jobs
      ensures Valid()
      ensures jobs == Expected(found, start, samples, next, hidden)
      ensures |jobs| == |old(jobs)| + processed && processed <= |batch|
    {
      var first := start + seen;
      var present := CheckExisting(first, |batch|, found);
      var missing := Missing(present, |batch|);
      PutMissing(jobs, first, present, batch, hidden, |batch|, missing);
      AbsentIsExpected(jobs, found, start, samples, seen, hidden, batch, present, |batch|);
      SaveAll(first, missing, batch);
      processed := |missing|;
    }

    /** The generation loop. */
    method GenerateBatches(loader: seq<seq<Sample>>, start: nat, ghost found: iset<nat>)
      returns (processed: nat, skipped: nat)
      requires Valid() && jobs == map[] && FoundOn(found, existing, groupSize)
      modifies this`clock, this`pending, this`jobs
      ensures Valid()
      ensures jobs == Expected(found, start, Concat(loader), |Concat(loader)|, hidden)
      ensures processed == |jobs| && processed + skipped == |Concat(loader)|
    {
      ghost var samples := Concat(loader);
      var seen := 0;
      processed, skipped := 0, 0;
      for b := 0 to |loader|
        invariant Valid() && seen == |Concat(loader[..b])| && seen <= |samples|
        invariant samples[..seen] == Concat(loader[..b])
        invariant jobs == Expected(found, start, samples, seen, hidden)
        invariant processed == |jobs| && processed + skipped == seen
      {
        ConcatTake(loader, b);
        var next := seen + |loader[b]|;
        forall k | k in jobs ensures k < start + seen {
          ExpectedIs(found, start, samples, seen, hidden, k);
        }
        var n := ProcessBatch(loader[b], start, seen, next, samples, found);
        processed, skipped := processed + n, skipped + (|loader[b]| - n);
        seen := next;
      }
      assert loader[..|loader|] == loader;
    }

    /** The `k`-th sample is submitted under index `start + k`, with its own content, unless it was on disk. */
    ghost predicate Submitted(start: nat, samples: seq<Sample>)
      requires groupSize >= 1
      reads this
    {
      AreSubmitted(jobs, existing, groupSize, start, samples, hidden)
    }

    /** Every file lies in a directory that was made. */
    ghost predicate InDirs()
      requires groupSize >= 1
      reads this
    {
      forall i :: i in jobs ==> FilePath(i, groupSize, compress).dir in dirs
    }

    /** A second run would find every sample but the ones that held a NaN. */
    ghost predicate Findable(start: nat, n: nat)
      requires groupSize >= 1
      reads this
    {
      forall i: nat :: start <= i < start + n ==>
          (Present(Disk(), i, groupSize) <==> i in jobs ==> !isNan(jobs[i].hidden))
    }

    /** The `with` block: directories, the generation loop, then the wait on exit. */
    method Generate(loader: seq<seq<Sample>>, start: nat, count: nat) returns (processed: nat, skipped: nat)
      requires Valid() && pending == [] && jobs == map[]
      modifies this
      ensures Valid() && pending == []
      ensures Submitted(start, Concat(loader))
      ensures processed == |jobs| && processed + skipped == |Concat(loader)|
      // on exit every save is done
      ensures forall i :: i in jobs ==> doneAt(i) <= clock
      // the directories made are those of the assigned samples, and hold every file unless the loader overruns them
      ensures dirs == old(dirs) + Needed(start, start + count, groupSize)
      ensures |Concat(loader)| <= count ==> InDirs()
      ensures Findable(start, |Concat(loader)|)
    {
      PrepareOutputDirs(start, count);
      processed, skipped := Process(loader, start);
      if |Concat(loader)| <= count {
        AllInDirs(start, Concat(loader), start + count);
      }
    }

    /** The generation loop and the wait on exit. */
    method Process(loader: seq<seq<Sample>>, start: nat) returns (processed: nat, skipped: nat)
      requires Valid() && pending == [] && jobs == map[]
      modifies this`clock, this`pending, this`jobs
      ensures Valid() && pending == []
      ensures Submitted(start, Concat(loader)) && Findable(start, |Concat(loader)|)
      ensures processed == |jobs| && processed + skipped == |Concat(loader)|
      ensures forall i :: i in jobs ==> doneAt(i) <= clock
    {
      ghost var found := Found();
      processed, skipped := GenerateBatches(loader, start, found);
      WaitAllSaves();
      SubmittedAll(start, Concat(loader), found);
      FindableAll(start, Concat(loader));
    }

    /** The samples on disk at the start. */
    ghost function Found(): (found: iset<nat>)
      requires groupSize >= 1
      reads this
      ensures FoundOn(found, existing, groupSize)
    {
      iset i: nat | Present(existing, i, groupSize)
    }

    lemma SubmittedAll(start: nat, samples: seq<Sample>, found: iset<nat>)
      requires groupSize >= 1 && FoundOn(found, existing, groupSize)
      requires jobs == Expected(found, start, samples, |samples|, hidden)
      ensures Submitted(start, samples)
    {
      ExpectedAll(found, existing, groupSize, start, samples, hidden, jobs);
    }

    lemma AllInDirs(start: nat, samples: seq<Sample>, hi: nat)
      requires groupSize >= 1 && Submitted(start, samples) && start + |samples| <= hi
      requires Needed(start, hi, groupSize) <= dirs
      ensures InDirs()
    {
      forall i | i in jobs ensures FilePath(i, groupSize, compress).dir in dirs {
        DirNeeded(i, start, hi, groupSize, compress);
      }
    }

    lemma FindableAll(start: nat, samples: seq<Sample>)
      requires Valid() && Submitted(start, samples) && forall k :: k in jobs ==> doneAt(k) <= clock
      ensures Findable(start, |samples|)
    {
      forall i: nat | start <= i < start + |samples|
        ensures Present(Disk(), i, groupSize) <==> i in jobs ==> !isNan(jobs[i].hidden)
      {
        PresentAfter(i);
      }
    }

    /** Once its save is done, a submitted sample is present unless it held a NaN. */
    lemma PresentAfter(i: nat)
      requires Valid() && forall k :: k in jobs ==> doneAt(k) <= clock
      requires i in jobs ==> !Present(existing, i, groupSize)
      ensures Present(Disk(), i, groupSize) <==>
                if i in jobs then !isNan(jobs[i].hidden) else Present(existing, i, groupSize)
    {
      if i !in jobs {
        PresentNow(i);
      } else if !isNan(jobs[i].hidden) {
        assert FilePath(i, groupSize, compress) in Disk();
      } else {
        OthersOnly(i);
        PresentFrame(existing, Disk(), i, groupSize);
      }
    }

    lemma OthersOnly(i: nat)
      requires Valid() && (i in jobs ==> isNan(jobs[i].hidden))
      ensures forall p :: p in Disk() - existing ==> |p.name| >= 5 && IndexOf(p.name) != i
    {
      forall p | p in Disk() - existing ensures |p.name| >= 5 && IndexOf(p.name) != i {
        var k :| k in jobs && !isNan(jobs[k].hidden) && p == FilePath(k, groupSize, compress);
        IndexOfPath(k, groupSize, compress);
      }
    }
  }

  /** The next batch follows the ones already seen. */
  lemma {:induction false} ConcatTake<T>(parts: seq<seq<T>>, b: nat)
    requires b < |parts|
    ensures var seen := |Concat(parts[..b])|;
            && seen + |parts[b]| <= |Concat(parts)|
            && Concat(parts)[seen..seen + |parts[b]|] == parts[b]
            && Concat(parts)[..seen + |parts[b]|] == Concat(parts[..b + 1])
  {
    if b + 1 == |parts| {
      assert parts[..b + 1] == parts;
    } else {
      var front := parts[..|parts| - 1];
      ConcatTake(front, b);
      assert front[..b] == parts[..b] && front[..b + 1] == parts[..b + 1];
      assert Concat(parts) == Concat(front) + parts[|parts| - 1];
    }
  }
}
