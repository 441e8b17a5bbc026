/** The lane allocator of `sglang/scripts/convert_otel_2_perfetto.py`: spans that overlap in time go to different
    lanes. */
module TraceLanes {
  import opened Prelude
  import opened Pieces

  // ---------------------------------------------------------------- spans and lanes

  datatype Span = Span(start: int, end: int)

  /** Tuples compare by start, then by end; `None` is minus infinity. */
  predicate Less(a: Span, start: int, end: Option<int>) {
    a.start < start || (a.start == start && end.Some? && a.end < end.value)
  }

  ghost predicate InOrder(lane: seq<Span>) {
    forall i, j :: 0 <= i < j < |lane| ==> !Less(lane[j], lane[i].start, Some(lane[i].end))
  }

  /** Where `bisect_left` puts a key into an ordered lane. */
  ghost predicate Splits(lane: seq<Span>, start: int, end: Option<int>, idx: nat) {
    && idx <= |lane|
    && (forall i :: 0 <= i < idx ==> Less(lane[i], start, end))
    && (forall i :: idx <= i < |lane| ==> !Less(lane[i], start, end))
  }

  predicate Overlap(a: Span, b: Span) {
    a.start < b.end && b.start < a.end
  }

  /** Some stored span overlaps the given one. */
  predicate OverlapsSome(lane: seq<Span>, s: Span) {
    exists i :: 0 <= i < |lane| && Overlap(lane[i], s)
  }

  /** Spans of positive length, each ending before the next starts. */
  ghost predicate Disjoint(lane: seq<Span>) {
    && (forall i :: 0 <= i < |lane| ==> lane[i].start < lane[i].end)
    && (forall i, j :: 0 <= i < j < |lane| ==> lane[i].end <= lane[j].start)
  }

  /** What looking at the two neighbours of the insertion point finds. */
  predicate NeighbourConflict(lane: seq<Span>, s: Span, idx: nat)
    requires idx <= |lane|
  {
    (idx > 0 && lane[idx - 1].end > s.start) || (idx < |lane| && lane[idx].start < s.end)
  }

  ghost predicate Conflict(lane: seq<Span>, s: Span) {
    exists idx :: Splits(lane, s.start, None, idx) && NeighbourConflict(lane, s, idx)
  }

  lemma SplitUnique(lane: seq<Span>, start: int, end: Option<int>, a: nat, b: nat)
    requires Splits(lane, start, end, a) && Splits(lane, start, end, b)
    ensures a == b
  {
    assert a < |lane| ==> !Less(lane[a], start, end);
    assert b < |lane| ==> !Less(lane[b], start, end);
  }

  lemma {:induction false} SplitExists(lane: seq<Span>, start: int, end: Option<int>) returns (idx: nat)
    requires InOrder(lane)
    ensures Splits(lane, start, end, idx)
  {
    if lane == [] || Less(lane[|lane| - 1], start, end) {
      idx := |lane|;
    } else {
      idx := SplitExists(lane[..|lane| - 1], start, end);
    }
  }

  lemma Before(lane: seq<Span>, i: nat, j: nat)
    requires Disjoint(lane) && i < |lane| && j < |lane|
    ensures i < j ==> lane[i].end <= lane[j].start < lane[j].end
  {
  }

  /** Among disjoint spans of positive length the neighbours decide: they conflict exactly when some stored span
      does. */
  lemma NeighboursDecide(lane: seq<Span>, s: Span, idx: nat)
    requires Disjoint(lane) && s.start <= s.end && Splits(lane, s.start, None, idx)
    ensures NeighbourConflict(lane, s, idx) <==> OverlapsSome(lane, s)
  {
    if OverlapsSome(lane, s) {
      var i :| 0 <= i < |lane| && Overlap(lane[i], s);
      if idx > 0 {
        Before(lane, i, idx - 1);
      }
      if idx < |lane| {
        Before(lane, idx, i);
      }
    }
    if idx > 0 && lane[idx - 1].end > s.start {
      assert Less(lane[idx - 1], s.start, None);
      assert Overlap(lane[idx - 1], s);
    }
    if idx < |lane| && lane[idx].start < s.end {
      assert !Less(lane[idx], s.start, None);
      assert Overlap(lane[idx], s);
    }
  }

  /** Positive length is needed. A zero-length span skips the test and may be stored inside another one; from then on
      the neighbour test misses the outer span. */
  lemma ZeroLengthHidesOverlap()
    ensures var lane := [Span(0, 10), Span(5, 5)];
            && InOrder(lane)
            && OverlapsSome(lane, Span(6, 8))
            && !Conflict(lane, Span(6, 8))
  {
    var lane := [Span(0, 10), Span(5, 5)];
    assert Overlap(lane[0], Span(6, 8));
    assert Splits(lane, 6, None, 2);
    forall idx | Splits(lane, 6, None, idx) ensures idx == 2 {
      SplitUnique(lane, 6, None, idx, 2);
    }
  }

  /** Where a span that reaches past a later one `j` stops being hidden behind it. */
  function Reach(lane: seq<Span>, i: nat, j: nat): int
    requires i < j < |lane|
  {
    if j + 1 < |lane| then Min(lane[i].end, lane[j + 1].start) else lane[i].end
  }

  /** No span reaches past the end of a later one into the gap behind it, and every point span lies in a span with
      length. */
  ghost predicate Exposed(lane: seq<Span>) {
    && (forall i, j :: 0 <= i < j < |lane| ==> Reach(lane, i, j) <= Max(lane[j].end, lane[j].start + 1))
    && (forall j :: 0 <= j < |lane| && lane[j].start == lane[j].end ==>
        OverlapsSome(lane, Span(lane[j].start, lane[j].start + 1)))
  }

  ghost predicate Exact(lane: seq<Span>) {
    forall s: Span :: s.start < s.end ==> (Conflict(lane, s) <==> OverlapsSome(lane, s))
  }

  /** With point spans admitted, the neighbour test is right for every query exactly on the exposed lanes. */
  lemma NeighbourTestExactIff(lane: seq<Span>)
    requires InOrder(lane) && forall i :: 0 <= i < |lane| ==> lane[i].start <= lane[i].end
    ensures Exact(lane) <==> Exposed(lane)
  {
    if Exposed(lane) {
      forall s: Span | s.start < s.end ensures Conflict(lane, s) <==> OverlapsSome(lane, s) {
        ExposedIsExact(lane, s);
      }
    }
    if Exact(lane) {
      ExactHidesNothing(lane);
      ExactSeesPoints(lane);
    }
  }

  lemma ExposedIsExact(lane: seq<Span>, s: Span)
    requires InOrder(lane) && Exposed(lane) && s.start < s.end
    requires forall i :: 0 <= i < |lane| ==> lane[i].start <= lane[i].end
    ensures Conflict(lane, s) <==> OverlapsSome(lane, s)
  {
    var idx := SplitExists(lane, s.start, None);
    forall k: nat | Splits(lane, s.start, None, k) ensures k == idx {
      SplitUnique(lane, s.start, None, k, idx);
    }
    if OverlapsSome(lane, s) {
      var i :| 0 <= i < |lane| && Overlap(lane[i], s);
      if i < idx - 1 {
        assert Less(lane[idx - 1], s.start, None);
        assert Reach(lane, i, idx - 1) <= Max(lane[idx - 1].end, lane[idx - 1].start + 1);
      } else if i > idx {
        assert !Less(lane[i], lane[idx].start, Some(lane[idx].end));
      }
    }
    if idx > 0 && lane[idx - 1].end > s.start {
      assert Less(lane[idx - 1], s.start, None);
      assert Overlap(lane[idx - 1], s);
    }
    if idx < |lane| && lane[idx].start < s.end {
      PointSeen(lane, s, idx);
    }
  }

  lemma PointSeen(lane: seq<Span>, s: Span, idx: nat)
    requires Exposed(lane) && idx < |lane| && s.start <= lane[idx].start < s.end && lane[idx].start <= lane[idx].end
    ensures OverlapsSome(lane, s)
  {
    if lane[idx].end > s.start {
      assert Overlap(lane[idx], s);
    } else {
      var i :| 0 <= i < |lane| && Overlap(lane[i], Span(lane[idx].start, lane[idx].start + 1));
      assert Overlap(lane[i], s);
    }
  }

  lemma ExactHidesNothing(lane: seq<Span>)
    requires InOrder(lane) && Exact(lane)
    ensures forall i, j :: 0 <= i < j < |lane| ==> Reach(lane, i, j) <= Max(lane[j].end, lane[j].start + 1)
  {
    forall i, j | 0 <= i < j < |lane| ensures Reach(lane, i, j) <= Max(lane[j].end, lane[j].start + 1) {
      var q := Max(lane[j].end, lane[j].start + 1);
      if Reach(lane, i, j) > q {
        HiddenOverlap(lane, i, j, Span(q, q + 1));
      }
    }
  }

  /** A query in the gap behind `j` sees only `j`, which ends before it. */
  lemma HiddenOverlap(lane: seq<Span>, i: nat, j: nat, s: Span)
    requires InOrder(lane) && i < j < |lane| && s.end == s.start + 1 && s.start == Max(lane[j].end, lane[j].start + 1)
    requires Reach(lane, i, j) > s.start
    ensures OverlapsSome(lane, s) && !Conflict(lane, s)
  {
    assert !Less(lane[j], lane[i].start, Some(lane[i].end));
    assert Overlap(lane[i], s);
    assert Splits(lane, s.start, None, j + 1) by {
      forall k | 0 <= k < |lane| ensures Less(lane[k], s.start, None) <==> k < j + 1 {
        assert k < j ==> !Less(lane[j], lane[k].start, Some(lane[k].end));
        assert k > j + 1 ==> !Less(lane[k], lane[j + 1].start, Some(lane[j + 1].end));
      }
    }
    forall k: nat | Splits(lane, s.start, None, k) ensures k == j + 1 {
      SplitUnique(lane, s.start, None, k, j + 1);
    }
  }

  lemma ExactSeesPoints(lane: seq<Span>)
    requires InOrder(lane) && Exact(lane)
    ensures forall j :: 0 <= j < |lane| && lane[j].start == lane[j].end ==>
              OverlapsSome(lane, Span(lane[j].start, lane[j].start + 1))
  {
    forall j | 0 <= j < |lane| && lane[j].start == lane[j].end
      ensures OverlapsSome(lane, Span(lane[j].start, lane[j].start + 1)) {
      var s := Span(lane[j].start, lane[j].start + 1);
      var idx := SplitExists(lane, s.start, None);
      assert idx < j ==> !Less(lane[j], lane[idx].start, Some(lane[idx].end));
      assert NeighbourConflict(lane, s, idx);
    }
  }

  function InsertAt(lane: seq<Span>, idx: nat, s: Span): seq<Span>
    requires idx <= |lane|
  {
    lane[..idx] + [s] + lane[idx..]
  }

  lemma InsertKeepsOrder(lane: seq<Span>, idx: nat, s: Span)
    requires InOrder(lane) && Splits(lane, s.start, Some(s.end), idx)
    ensures InOrder(InsertAt(lane, idx, s))
    ensures multiset(InsertAt(lane, idx, s)) == multiset(lane) + multiset{s}
  {
    assert lane == lane[..idx] + lane[idx..];
  }

  /** A span that overlaps nothing fits where `insort_left` puts it. */
  lemma InsertKeepsDisjoint(lane: seq<Span>, idx: nat, s: Span)
    requires Disjoint(lane) && s.start < s.end && !OverlapsSome(lane, s) && Splits(lane, s.start, Some(s.end), idx)
    ensures Disjoint(InsertAt(lane, idx, s))
  {
    forall i | 0 <= i < |lane| ensures if i < idx then lane[i].end <= s.start else s.end <= lane[i].start {
      assert !Overlap(lane[i], s);
    }
  }

  /** `insort_left` on an ordered lane. */
  function Insort(lane: seq<Span>, s: Span): seq<Span> {
    if lane == [] || !Less(lane[0], s.start, Some(s.end)) then [s] + lane else [lane[0]] + Insort(lane[1..], s)
  }

  lemma {:induction false} InsortIsInsertAt(lane: seq<Span>, idx: nat, s: Span)
    requires Splits(lane, s.start, Some(s.end), idx)
    ensures InsertAt(lane, idx, s) == Insort(lane, s)
  {
    if idx > 0 {
      assert Less(lane[0], s.start, Some(s.end));
      assert Splits(lane[1..], s.start, Some(s.end), idx - 1);
      InsortIsInsertAt(lane[1..], idx - 1, s);
    } else if lane != [] {
      assert !Less(lane[0], s.start, Some(s.end));
    }
  }

  class SpanLayoutContainer {
    var intervals: seq<Span>

    constructor ()
      ensures intervals == []
    {
      intervals := [];
    }

    /** `bisect.bisect_left(self.intervals, (start, end))`. */
    method BisectLeft(start: int, end: Option<int>) returns (idx: nat)
      requires InOrder(intervals)
      ensures Splits(intervals, start, end, idx)
    {
      idx := 0;
      var hi := |intervals|;
      while idx < hi
        invariant 0 <= idx <= hi <= |intervals|
        invariant forall i :: 0 <= i < idx ==> Less(intervals[i], start, end)
        invariant forall i :: hi <= i < |intervals| ==> !Less(intervals[i], start, end)
      {
        var mid := (idx + hi) / 2;
        if Less(intervals[mid], start, end) {
          idx := mid + 1;
        } else {
          hi := mid;
        }
      }
    }

    method CheckOverlap(start: int, end: int) returns (conflict: bool)
      requires InOrder(intervals)
      ensures conflict == Conflict(intervals, Span(start, end))
      ensures Disjoint(intervals) && start <= end ==> (conflict <==> OverlapsSome(intervals, Span(start, end)))
    {
      var idx := BisectLeft(start, None);
      ghost var s := Span(start, end);
      forall k: nat | Splits(intervals, start, None, k) ensures k == idx {
        SplitUnique(intervals, start, None, k, idx);
      }
      if Disjoint(intervals) && start <= end {
        NeighboursDecide(intervals, s, idx);
      }
      if idx > 0 {
        if intervals[idx - 1].end > start {
          return true;
        }
      }
      if idx < |intervals| {
        if intervals[idx].start < end {
          return true;
        }
      }
      return false;
    }

    /** `bisect.insort_left(self.intervals, (start, end))`. */
    method InsertSpan(start: int, end: int)
      requires InOrder(intervals)
      modifies this
      ensures InOrder(intervals) && multiset(intervals) == multiset(old(intervals)) + multiset{Span(start, end)}
      ensures intervals == Insort(old(intervals), Span(start, end))
      ensures old(Disjoint(intervals)) && start < end && !OverlapsSome(old(intervals), Span(start, end)) ==>
                Disjoint(intervals)
    {
      var idx := BisectLeft(start, Some(end));
      InsertKeepsOrder(intervals, idx, Span(start, end));
      InsortIsInsertAt(intervals, idx, Span(start, end));
      if Disjoint(intervals) && start < end && !OverlapsSome(intervals, Span(start, end)) {
        InsertKeepsDisjoint(intervals, idx, Span(start, end));
      }
      intervals := InsertAt(intervals, idx, Span(start, end));
    }
  }

  // ---------------------------------------------------------------- the layout as a function of the spans

  /** `graph[pid][line]`. */
  datatype LaneId = LaneId(pid: int, line: int)

  /** The contents of all lanes and the number of lanes of each process, `len(graph[pid])`. */
  datatype Picture = Picture(lanes: map<LaneId, seq<Span>>, lines: map<int, nat>)

  function LinesOf(pic: Picture, pid: int): nat {
    if pid in pic.lines then pic.lines[pid] else 0
  }

  /** The first lane from `l` on without a conflict; `n + 1` if there is none up to `n`. */
  ghost function FirstFree(lanes: map<LaneId, seq<Span>>, pid: int, s: Span, l: nat, n: nat): nat
    decreases n + 1 - l
  {
    if l > n then n + 1
    else if LaneId(pid, l) in lanes && !Conflict(lanes[LaneId(pid, l)], s) then l
    else FirstFree(lanes, pid, s, l + 1, n)
  }

  /** The request's own lane is taken: it fits, or the span has no length. */
  ghost predicate Keeps(pic: Picture, status: map<int, nat>, pid: int, s: Span) {
    && pid in status && LaneId(pid, status[pid]) in pic.lanes
    && (s.start == s.end || !Conflict(pic.lanes[LaneId(pid, status[pid])], s))
  }

  /** `__find_line`: the request's own lane, else the first free one, else a new one. */
  ghost function LineFor(pic: Picture, status: map<int, nat>, pid: int, s: Span): nat {
    if Keeps(pic, status, pid, s) then status[pid] else FirstFree(pic.lanes, pid, s, 1, LinesOf(pic, pid))
  }

  /** The picture with one more span in lane `k`, which may be new. */
  function Drawing(pic: Picture, k: LaneId, s: Span): Picture
    requires k.line >= 0
  {
    Picture(pic.lanes[k := Insort(if k in pic.lanes then pic.lanes[k] else [], s)],
            if k in pic.lanes then pic.lines else pic.lines[k.pid := k.line])
  }

  /** The picture with one more span in the existing lane `k`. */
  function Stored(pic: Picture, k: LaneId, s: Span): Picture
    requires k in pic.lanes
  {
    pic.(lanes := pic.lanes[k := Insort(pic.lanes[k], s)])
  }

  /** Picture, preferred lanes of the request and lines handed out so far. */
  datatype Laid = Laid(pic: Picture, status: map<int, nat>, tids: seq<nat>)

  /** Picture and lines of the requests laid out so far. */
  datatype Chart = Chart(pic: Picture, tids: seq<seq<nat>>)

  /** Picture, preferred lanes and lines after the first `i` spans of a request, which starts without a preferred
      lane. */
  ghost function LayRequest(pic: Picture, spans: seq<(int, Span)>, i: nat): (r: Laid)
    requires i <= |spans|
    ensures |r.tids| == i
  {
    if i == 0 then Laid(pic, map[], [])
    else
      var Laid(p, status, tids) := LayRequest(pic, spans, i - 1);
      var (pid, s) := spans[i - 1];
      var line := LineFor(p, status, pid, s);
      Laid(Drawing(p, LaneId(pid, line), s), status[pid := line], tids + [line])
  }

  /** Picture and lines after the first `r` requests. */
  ghost function LayAll(requests: seq<seq<(int, Span)>>, r: nat): Chart
    requires r <= |requests|
  {
    if r == 0 then Chart(Picture(map[], map[]), [])
    else
      var Chart(pic, tids) := LayAll(requests, r - 1);
      var laid := LayRequest(pic, requests[r - 1], |requests[r - 1]|);
      Chart(laid.pic, tids + [laid.tids])
  }

  // ---------------------------------------------------------------- what every picture keeps

  /** A span as it appears in the output: the lane it is drawn in, whose `line` is its `tid`. */
  datatype Drawn = Drawn(lane: LaneId, span: Span)

  /** No two spans drawn in the same lane of the same process overlap. */
  ghost predicate Readable(log: seq<Drawn>) {
    forall i, j :: 0 <= i < j < |log| && log[i].lane == log[j].lane ==> !Overlap(log[i].span, log[j].span)
  }

  ghost predicate Positive(log: seq<Drawn>) {
    forall i :: 0 <= i < |log| ==> log[i].span.start < log[i].span.end
  }

  /** Lanes of a process are numbered 1 to n and kept in order. */
  ghost predicate Sane(pic: Picture) {
    && (forall k :: k in pic.lanes <==> k.pid in pic.lines && 1 <= k.line <= pic.lines[k.pid])
    && (forall k :: k in pic.lanes ==> InOrder(pic.lanes[k]))
  }

  /** What was drawn is stored in its lane, and nothing overlaps as long as every span had positive length. */
  ghost predicate Faithful(lanes: map<LaneId, seq<Span>>, log: seq<Drawn>) {
    && (forall i :: 0 <= i < |log| ==> log[i].lane in lanes && log[i].span in lanes[log[i].lane])
    && (Positive(log) ==> Readable(log) && forall k :: k in lanes ==> Disjoint(lanes[k]))
  }

  ghost predicate Known(status: map<int, nat>, lanes: map<LaneId, seq<Span>>) {
    forall p :: p in status ==> LaneId(p, status[p]) in lanes
  }

  /** The lanes of a process numbered below `stop` all conflict with the span. */
  ghost predicate AllConflict(lanes: map<LaneId, seq<Span>>, pid: int, s: Span, stop: int) {
    forall l :: 1 <= l < stop ==> LaneId(pid, l) in lanes && Conflict(lanes[LaneId(pid, l)], s)
  }

  lemma {:induction false} FirstFreeIs(lanes: map<LaneId, seq<Span>>, pid: int, s: Span, l: nat, n: nat, line: nat)
    requires 1 <= l <= line <= n + 1 && AllConflict(lanes, pid, s, line)
    requires line <= n ==> LaneId(pid, line) in lanes && !Conflict(lanes[LaneId(pid, line)], s)
    ensures FirstFree(lanes, pid, s, l, n) == line
    decreases n + 1 - l
  {
    if l < line {
      FirstFreeIs(lanes, pid, s, l + 1, n, line);
    }
  }

  lemma {:induction false} FirstFreeFits(lanes: map<LaneId, seq<Span>>, pid: int, s: Span, l: nat, n: nat)
    requires l <= n + 1
    ensures var line := FirstFree(lanes, pid, s, l, n);
            && l <= line <= n + 1
            && (line <= n ==> LaneId(pid, line) in lanes && !Conflict(lanes[LaneId(pid, line)], s))
    decreases n + 1 - l
  {
    if l <= n {
      FirstFreeFits(lanes, pid, s, l + 1, n);
    }
  }

  /** The lane found exists or has the next number, and has no conflict unless the span has no length. */
  lemma LineFits(pic: Picture, status: map<int, nat>, pid: int, s: Span)
    requires Sane(pic)
    ensures var k := LaneId(pid, LineFor(pic, status, pid, s));
            && (k in pic.lanes || k.line == LinesOf(pic, pid) + 1)
            && (k in pic.lanes && s.start != s.end ==> !Conflict(pic.lanes[k], s))
  {
    FirstFreeFits(pic.lanes, pid, s, 1, LinesOf(pic, pid));
  }

  lemma InsortKeeps(lane: seq<Span>, s: Span)
    requires InOrder(lane)
    ensures InOrder(Insort(lane, s)) && multiset(Insort(lane, s)) == multiset(lane) + multiset{s}
    ensures Disjoint(lane) && s.start < s.end && !OverlapsSome(lane, s) ==> Disjoint(Insort(lane, s))
  {
    var idx := SplitExists(lane, s.start, Some(s.end));
    InsortIsInsertAt(lane, idx, s);
    InsertKeepsOrder(lane, idx, s);
    if Disjoint(lane) && s.start < s.end && !OverlapsSome(lane, s) {
      InsertKeepsDisjoint(lane, idx, s);
    }
  }

  lemma DrawingSane(pic: Picture, k: LaneId, s: Span)
    requires Sane(pic) && (k in pic.lanes || k.line == LinesOf(pic, k.pid) + 1)
    ensures k.line >= 1 && Sane(Drawing(pic, k, s))
  {
    InsortKeeps(if k in pic.lanes then pic.lanes[k] else [], s);
  }

  /** Drawing a span that overlaps nothing in its lane. */
  lemma DrawingFaithful(pic: Picture, log: seq<Drawn>, k: LaneId, s: Span)
    requires Sane(pic) && Faithful(pic.lanes, log) && k.line >= 0
    requires k in pic.lanes && Disjoint(pic.lanes[k]) && s.start < s.end ==> !OverlapsSome(pic.lanes[k], s)
    ensures Faithful(Drawing(pic, k, s).lanes, log + [Drawn(k, s)])
  {
    var lane := if k in pic.lanes then pic.lanes[k] else [];
    InsortKeeps(lane, s);
    DrawKeeps(pic.lanes, log, k, s, lane, Insort(lane, s));
  }

  lemma DrawKeeps(lanes: map<LaneId, seq<Span>>, log: seq<Drawn>, k: LaneId, s: Span, lane: seq<Span>, lane': seq<Span>)
    requires Faithful(lanes, log) && lane == if k in lanes then lanes[k] else []
    requires multiset(lane') == multiset(lane) + multiset{s}
    requires Disjoint(lane) && s.start < s.end ==> !OverlapsSome(lane, s) && Disjoint(lane')
    ensures Faithful(lanes[k := lane'], log + [Drawn(k, s)])
  {
    var log', lanes' := log + [Drawn(k, s)], lanes[k := lane'];
    forall t | t in lane || t == s ensures t in lane' {
      assert t in multiset(lane');
    }
    forall i | 0 <= i < |log'| ensures log'[i].lane in lanes' && log'[i].span in lanes'[log'[i].lane] {
      if i < |log| {
        assert log'[i] == log[i];
      }
    }
    if Positive(log') {
      DrawKeepsReadable(lanes, log, k, s, lane);
    }
  }

  lemma DrawKeepsReadable(lanes: map<LaneId, seq<Span>>, log: seq<Drawn>, k: LaneId, s: Span, lane: seq<Span>)
    requires Faithful(lanes, log) && lane == (if k in lanes then lanes[k] else []) && Positive(log + [Drawn(k, s)])
    requires Disjoint(lane) && s.start < s.end ==> !OverlapsSome(lane, s)
    ensures Readable(log + [Drawn(k, s)]) && Positive(log) && s.start < s.end
  {
    var log' := log + [Drawn(k, s)];
    assert log'[|log|].span == s;
    forall i | 0 <= i < |log| ensures log[i].span.start < log[i].span.end {
      assert log'[i] == log[i];
    }
    forall i | 0 <= i < |log| && log[i].lane == k ensures !Overlap(log[i].span, s) {
      var j :| 0 <= j < |lane| && lane[j] == log[i].span;
      assert !Overlap(lane[j], s);
    }
  }

  /** The picture with lane `k` opened if it does not exist. */
  function Opened(pic: Picture, k: LaneId): Picture
    requires k.line >= 0
  {
    if k in pic.lanes then pic else Picture(pic.lanes[k := []], pic.lines[k.pid := k.line])
  }

  /** Opening the lane found and storing the span in it draws the span. */
  lemma LineDraws(pic: Picture, status: map<int, nat>, pid: int, s: Span, k: LaneId)
    requires Sane(pic) && Known(status, pic.lanes) && k == LaneId(pid, LineFor(pic, status, pid, s))
    ensures Sane(Drawing(pic, k, s)) && Known(status[pid := k.line], Drawing(pic, k, s).lanes)
    ensures k in Opened(pic, k).lanes && InOrder(Opened(pic, k).lanes[k])
    ensures Drawing(pic, k, s) == Stored(Opened(pic, k), k, s)
  {
    LineFits(pic, status, pid, s);
    DrawingSane(pic, k, s);
  }

  /** Placing one span keeps everything. */
  lemma PlaceKeeps(pic: Picture, log: seq<Drawn>, status: map<int, nat>, pid: int, s: Span)
    requires Sane(pic) && Faithful(pic.lanes, log) && Known(status, pic.lanes)
    ensures var line := LineFor(pic, status, pid, s);
            var pic' := Drawing(pic, LaneId(pid, line), s);
            Sane(pic') && Faithful(pic'.lanes, log + [Drawn(LaneId(pid, line), s)])
              && Known(status[pid := line], pic'.lanes)
  {
    var k := LaneId(pid, LineFor(pic, status, pid, s));
    LineFits(pic, status, pid, s);
    LineDraws(pic, status, pid, s, k);
    if k in pic.lanes {
      ConflictIsOverlap(pic.lanes[k], s);
    }
    DrawingFaithful(pic, log, k, s);
  }

  /** The neighbour test is the overlap test on every lane the layout can hold. */
  lemma ConflictIsOverlap(lane: seq<Span>, s: Span)
    requires InOrder(lane)
    ensures Disjoint(lane) && s.start <= s.end ==> (Conflict(lane, s) <==> OverlapsSome(lane, s))
  {
    if Disjoint(lane) && s.start <= s.end {
      var idx := SplitExists(lane, s.start, None);
      NeighboursDecide(lane, s, idx);
      forall k: nat | Splits(lane, s.start, None, k) ensures k == idx {
        SplitUnique(lane, s.start, None, k, idx);
      }
    }
  }

  /** The output: each span with the lane it got. */
  ghost function Draw(spans: seq<(int, Span)>, tids: seq<nat>): (log: seq<Drawn>)
    requires |spans| == |tids|
    ensures |log| == |spans|
    ensures forall i :: 0 <= i < |spans| ==> log[i] == Drawn(LaneId(spans[i].0, tids[i]), spans[i].1)
  {
    seq(|spans|, i requires 0 <= i < |spans| => Drawn(LaneId(spans[i].0, tids[i]), spans[i].1))
  }

  lemma DrawOne(log: seq<Drawn>, spans: seq<(int, Span)>, i: nat, tids: seq<nat>, line: nat)
    requires i < |spans| && |tids| == i
    ensures log + Draw(spans[..i], tids) + [Drawn(LaneId(spans[i].0, line), spans[i].1)] == log
              + Draw(spans[..i + 1], tids + [line])
  {
    assert Draw(spans[..i + 1], tids + [line]) == Draw(spans[..i], tids)
             + [Drawn(LaneId(spans[i].0, line), spans[i].1)];
  }

  lemma {:induction false} RequestKeeps(pic: Picture, log: seq<Drawn>, spans: seq<(int, Span)>, i: nat)
    requires Sane(pic) && Faithful(pic.lanes, log) && i <= |spans|
    ensures var Laid(p, status, tids) := LayRequest(pic, spans, i);
            Sane(p) && Known(status, p.lanes) && Faithful(p.lanes, log + Draw(spans[..i], tids))
  {
    if i == 0 {
      assert log + Draw(spans[..0], []) == log;
    } else {
      RequestKeeps(pic, log, spans, i - 1);
      var Laid(p, status, tids) := LayRequest(pic, spans, i - 1);
      var (pid, s) := spans[i - 1];
      PlaceKeeps(p, log + Draw(spans[..i - 1], tids), status, pid, s);
      DrawOne(log, spans, i - 1, tids, LineFor(p, status, pid, s));
    }
  }

  lemma DrawMore(requests: seq<seq<(int, Span)>>, r: nat, tids: seq<seq<nat>>, ts: seq<nat>)
    requires r < |requests| && |ts| == |requests[r]| && |Concat(tids)| == |Concat(requests[..r])|
    ensures Concat(tids + [ts]) == Concat(tids) + ts && Concat(requests[..r + 1]) == Concat(requests[..r]) + requests[r]
    ensures Draw(Concat(requests[..r]), Concat(tids)) + Draw(requests[r], ts)
         == Draw(Concat(requests[..r + 1]), Concat(tids + [ts]))
  {
    assert (tids + [ts])[..|tids|] == tids;
    assert requests[..r + 1][..r] == requests[..r];
  }

  /** One line for every span of the first `r` requests. */
  ghost predicate Numbered(requests: seq<seq<(int, Span)>>, r: nat, tids: seq<seq<nat>>)
    requires r <= |requests|
  {
    && |tids| == r && (forall q :: 0 <= q < r ==> |tids[q]| == |requests[q]|)
    && |Concat(tids)| == |Concat(requests[..r])|
  }

  lemma {:induction false} LayoutNumbers(requests: seq<seq<(int, Span)>>, r: nat, tids: seq<seq<nat>>)
    requires r <= |requests| && tids == LayAll(requests, r).tids
    ensures Numbered(requests, r, tids)
  {
    if r > 0 {
      var chart, spans := LayAll(requests, r - 1), requests[r - 1];
      LayoutNumbers(requests, r - 1, chart.tids);
      NumbersMore(requests, r, chart.tids, LayRequest(chart.pic, spans, |spans|).tids, tids);
    }
  }

  lemma NumbersMore(requests: seq<seq<(int, Span)>>, r: nat, tids: seq<seq<nat>>, ts: seq<nat>, tids': seq<seq<nat>>)
    requires 1 <= r <= |requests| && |ts| == |requests[r - 1]| && Numbered(requests, r - 1, tids)
          && tids' == tids + [ts]
    ensures Numbered(requests, r, tids')
  {
    DrawMore(requests, r - 1, tids, ts);
  }

  /** The output for the first `r` requests. */
  ghost function Log(requests: seq<seq<(int, Span)>>, r: nat): (log: seq<Drawn>)
    requires r <= |requests|
  {
    LayoutNumbers(requests, r, LayAll(requests, r).tids);
    Draw(Concat(requests[..r]), Concat(LayAll(requests, r).tids))
  }

  lemma LogStep(requests: seq<seq<(int, Span)>>, r: nat, chart: Chart, laid: Laid)
    requires r < |requests| && chart == LayAll(requests, r) && laid == LayRequest(chart.pic, requests[r], |requests[r]|)
    ensures Log(requests, r + 1) == Log(requests, r) + Draw(requests[r], laid.tids)
  {
    LayoutNumbers(requests, r, chart.tids);
    DrawMore(requests, r, chart.tids, laid.tids);
  }

  /** The picture after any number of requests is sane and faithful to the output. */
  lemma {:induction false} LayoutKeeps(requests: seq<seq<(int, Span)>>, r: nat, pic: Picture, log: seq<Drawn>)
    requires r <= |requests| && pic == LayAll(requests, r).pic && log == Log(requests, r)
    ensures Sane(pic) && Faithful(pic.lanes, log)
  {
    if r > 0 {
      var chart, before := LayAll(requests, r - 1), Log(requests, r - 1);
      LayoutKeeps(requests, r - 1, chart.pic, before);
      RequestAdds(requests, r - 1, chart, before, pic, log);
    }
  }

  lemma RequestAdds(requests: seq<seq<(int, Span)>>, r: nat, chart: Chart, before: seq<Drawn>, pic: Picture,
                    log: seq<Drawn>)
    requires r < |requests| && chart == LayAll(requests, r) && before == Log(requests, r)
    requires Sane(chart.pic) && Faithful(chart.pic.lanes, before)
    requires pic == LayAll(requests, r + 1).pic && log == Log(requests, r + 1)
    ensures Sane(pic) && Faithful(pic.lanes, log)
  {
    var laid := LayRequest(chart.pic, requests[r], |requests[r]|);
    LogStep(requests, r, chart, laid);
    WholeRequest(chart.pic, before, requests[r], laid, pic, log);
  }

  lemma WholeRequest(pic: Picture, log: seq<Drawn>, spans: seq<(int, Span)>, laid: Laid, pic': Picture,
                     log': seq<Drawn>)
    requires Sane(pic) && Faithful(pic.lanes, log) && laid == LayRequest(pic, spans, |spans|)
    requires pic' == laid.pic && log' == log + Draw(spans, laid.tids)
    ensures Sane(pic') && Faithful(pic'.lanes, log')
  {
    RequestKeeps(pic, log, spans, |spans|);
    assert spans[..|spans|] == spans;
  }

  lemma RequestSane(pic: Picture, spans: seq<(int, Span)>, i: nat)
    requires Sane(pic) && i <= |spans|
    ensures Sane(LayRequest(pic, spans, i).pic)
         && Known(LayRequest(pic, spans, i).status, LayRequest(pic, spans, i).pic.lanes)
  {
    if i > 0 {
      RequestSane(pic, spans, i - 1);
      var laid := LayRequest(pic, spans, i - 1);
      var (pid, s) := spans[i - 1];
      LineDraws(laid.pic, laid.status, pid, s, LaneId(pid, LineFor(laid.pic, laid.status, pid, s)));
    }
  }

  /** One step of the layout of a request. */
  lemma LayStep(start: Picture, spans: seq<(int, Span)>, i: nat, pic: Picture, status: map<int, nat>, tids: seq<nat>,
                line: nat, status': map<int, nat>, tids': seq<nat>)
    requires i < |spans| && LayRequest(start, spans, i) == Laid(pic, status, tids)
          && LineFor(pic, status, spans[i].0, spans[i].1) == line
    requires status' == status[spans[i].0 := line] && tids' == tids + [line]
    ensures LayRequest(start, spans, i + 1) == Laid(Drawing(pic, LaneId(spans[i].0, line), spans[i].1), status', tids')
  {
  }

  // ---------------------------------------------------------------- which lane a span gets

  /** Something drawn in lane `k` overlaps the span. */
  ghost predicate Taken(log: seq<Drawn>, k: LaneId, s: Span) {
    exists i :: 0 <= i < |log| && log[i].lane == k && Overlap(log[i].span, s)
  }

  /** The line of the last of the first `i` spans of a request that is in process `pid`. */
  function PrevLine(spans: seq<(int, Span)>, tids: seq<nat>, i: nat, pid: int): Option<nat>
    requires i <= |spans| && i <= |tids|
  {
    if i == 0 then None else if spans[i - 1].0 == pid then Some(tids[i - 1]) else PrevLine(spans, tids, i - 1, pid)
  }

  /** The line a span gets when `log` has been drawn: that of its request's previous span in the process if nothing
      there overlaps it, else the lowest one where nothing does. */
  ghost predicate BestLine(log: seq<Drawn>, prev: Option<nat>, pid: int, s: Span, line: nat) {
    if prev.Some? && !Taken(log, LaneId(pid, prev.value), s) then line == prev.value
    else
      && line >= 1 && !Taken(log, LaneId(pid, line), s)
      && forall l: nat {:trigger LaneId(pid, l)} :: 1 <= l < line ==> Taken(log, LaneId(pid, l), s)
  }

  /** Everything stored in a lane was drawn there. */
  ghost predicate Backs(lanes: map<LaneId, seq<Span>>, log: seq<Drawn>) {
    forall k, s {:trigger s in lanes[k]} :: k in lanes && s in lanes[k] ==> Drawn(k, s) in log
  }

  lemma DrawingBacks(pic: Picture, log: seq<Drawn>, k: LaneId, s: Span)
    requires Sane(pic) && Backs(pic.lanes, log) && k.line >= 0
    ensures Backs(Drawing(pic, k, s).lanes, log + [Drawn(k, s)])
  {
    var lane, lanes' := if k in pic.lanes then pic.lanes[k] else [], Drawing(pic, k, s).lanes;
    InsortKeeps(lane, s);
    forall m, x | m in lanes' && x in lanes'[m] ensures Drawn(m, x) in log + [Drawn(k, s)] {
      if m == k {
        assert x in multiset(Insort(lane, s));
        assert x == s || x in lane;
      }
    }
  }

  /** What is stored decides as what was drawn does. */
  lemma TakenIs(pic: Picture, log: seq<Drawn>, k: LaneId, s: Span)
    requires Sane(pic) && Faithful(pic.lanes, log) && Backs(pic.lanes, log) && Positive(log) && s.start < s.end
    ensures Taken(log, k, s) <==> k in pic.lanes && Conflict(pic.lanes[k], s)
  {
    if k in pic.lanes {
      ConflictIsOverlap(pic.lanes[k], s);
      TakenIsOverlap(pic.lanes[k], log, k, s);
    }
  }

  lemma TakenIsOverlap(lane: seq<Span>, log: seq<Drawn>, k: LaneId, s: Span)
    requires forall i :: 0 <= i < |log| && log[i].lane == k ==> log[i].span in lane
    requires forall x :: x in lane ==> Drawn(k, x) in log
    ensures Taken(log, k, s) <==> OverlapsSome(lane, s)
  {
    if OverlapsSome(lane, s) {
      var j :| 0 <= j < |lane| && Overlap(lane[j], s);
      var i :| 0 <= i < |log| && log[i] == Drawn(k, lane[j]);
    }
    if Taken(log, k, s) {
      var i :| 0 <= i < |log| && log[i].lane == k && Overlap(log[i].span, s);
      var j :| 0 <= j < |lane| && lane[j] == log[i].span;
    }
  }

  lemma {:induction false} FirstFreeSkips(lanes: map<LaneId, seq<Span>>, pid: int, s: Span, l: nat, n: nat, m: nat)
    requires l <= m < FirstFree(lanes, pid, s, l, n)
    ensures m <= n && (LaneId(pid, m) in lanes ==> Conflict(lanes[LaneId(pid, m)], s))
    decreases n + 1 - l
  {
    if l <= n && l < m {
      FirstFreeSkips(lanes, pid, s, l + 1, n, m);
    }
  }

  /** `__find_line` on a picture that shows what was drawn. */
  lemma LineIsBest(pic: Picture, log: seq<Drawn>, status: map<int, nat>, pid: int, s: Span, prev: Option<nat>)
    requires Sane(pic) && Faithful(pic.lanes, log) && Backs(pic.lanes, log) && Positive(log) && s.start < s.end
    requires Known(status, pic.lanes) && prev == if pid in status then Some(status[pid]) else None
    ensures BestLine(log, prev, pid, s, LineFor(pic, status, pid, s))
  {
    var line, n := LineFor(pic, status, pid, s), LinesOf(pic, pid);
    if prev.Some? {
      TakenIs(pic, log, LaneId(pid, prev.value), s);
    }
    if !Keeps(pic, status, pid, s) {
      FirstFreeFits(pic.lanes, pid, s, 1, n);
      TakenIs(pic, log, LaneId(pid, line), s);
      forall l: nat | 1 <= l < line ensures Taken(log, LaneId(pid, l), s) {
        FirstFreeSkips(pic.lanes, pid, s, 1, n, l);
        TakenIs(pic, log, LaneId(pid, l), s);
      }
    }
  }

  /** The preferred lanes of a request are the lines of its latest spans. */
  lemma {:induction false} StatusIs(pic: Picture, spans: seq<(int, Span)>, i: nat, laid: Laid, pid: int)
    requires i <= |spans| && laid == LayRequest(pic, spans, i)
    ensures PrevLine(spans, laid.tids, i, pid) == if pid in laid.status then Some(laid.status[pid]) else None
  {
    if i > 0 {
      var before := LayRequest(pic, spans, i - 1);
      StatusIs(pic, spans, i - 1, before, pid);
      PrevLinePrefix(spans, before.tids, laid.tids, i - 1, pid);
    }
  }

  lemma {:induction false} PrevLinePrefix(spans: seq<(int, Span)>, a: seq<nat>, b: seq<nat>, i: nat, pid: int)
    requires i <= |spans| && i <= |a| && i <= |b| && a[..i] == b[..i]
    ensures PrevLine(spans, a, i, pid) == PrevLine(spans, b, i, pid)
  {
    if i > 0 {
      assert a[i - 1] == a[..i][i - 1] == b[..i][i - 1] == b[i - 1];
      assert a[..i - 1] == a[..i][..i - 1] && b[..i - 1] == b[..i][..i - 1];
      PrevLinePrefix(spans, a, b, i - 1, pid);
    }
  }

  /** Span `j` of a request gets its best line when `log` and the request's earlier spans have been drawn. */
  ghost predicate SpanBest(log: seq<Drawn>, spans: seq<(int, Span)>, tids: seq<nat>, j: nat)
    requires j < |spans| && j < |tids|
  {
    var (pid, s) := spans[j];
    BestLine(log + Draw(spans[..j], tids[..j]), PrevLine(spans, tids, j, pid), pid, s, tids[j])
  }

  lemma SpanBestPrefix(log: seq<Drawn>, spans: seq<(int, Span)>, a: seq<nat>, b: seq<nat>, j: nat)
    requires j < |spans| && j < |a| && j < |b| && a[..j + 1] == b[..j + 1] && SpanBest(log, spans, a, j)
    ensures SpanBest(log, spans, b, j)
  {
    assert a[j] == a[..j + 1][j] == b[..j + 1][j] == b[j];
    assert a[..j] == a[..j + 1][..j] && b[..j] == b[..j + 1][..j];
    PrevLinePrefix(spans, a, b, j, spans[j].0);
  }

  /** Every span of a request gets its best line. */
  lemma {:induction false} RequestBest(pic: Picture, log: seq<Drawn>, spans: seq<(int, Span)>, i: nat, laid: Laid)
    requires Sane(pic) && Faithful(pic.lanes, log) && Backs(pic.lanes, log) && Positive(log)
    requires AllPositive(spans) && i <= |spans| && laid == LayRequest(pic, spans, i)
    ensures forall j :: 0 <= j < i ==> SpanBest(log, spans, laid.tids, j)
    ensures Backs(laid.pic.lanes, log + Draw(spans[..i], laid.tids)) && Positive(log + Draw(spans[..i], laid.tids))
  {
    if i == 0 {
      assert log + Draw(spans[..0], []) == log;
    } else {
      var before := LayRequest(pic, spans, i - 1);
      RequestBest(pic, log, spans, i - 1, before);
      NextBest(pic, log, spans, i - 1, before, laid);
      StayBest(log, spans, before.tids, laid.tids, i);
    }
  }

  lemma StayBest(log: seq<Drawn>, spans: seq<(int, Span)>, before: seq<nat>, tids: seq<nat>, i: nat)
    requires 1 <= i <= |spans| && |before| == i - 1 && |tids| == i && tids[..i - 1] == before
    requires (forall j :: 0 <= j < i - 1 ==> SpanBest(log, spans, before, j)) && SpanBest(log, spans, tids, i - 1)
    ensures forall j :: 0 <= j < i ==> SpanBest(log, spans, tids, j)
  {
    forall j | 0 <= j < i - 1 ensures SpanBest(log, spans, tids, j) {
      assert tids[..j + 1] == before[..j + 1];
      SpanBestPrefix(log, spans, before, tids, j);
    }
  }

  lemma NextBest(pic: Picture, log: seq<Drawn>, spans: seq<(int, Span)>, i: nat, before: Laid, laid: Laid)
    requires Sane(pic) && Faithful(pic.lanes, log) && AllPositive(spans) && i < |spans|
    requires before == LayRequest(pic, spans, i) && laid == LayRequest(pic, spans, i + 1)
    requires Backs(before.pic.lanes, log + Draw(spans[..i], before.tids))
    requires Positive(log + Draw(spans[..i], before.tids))
    ensures SpanBest(log, spans, laid.tids, i)
    ensures Backs(laid.pic.lanes, log + Draw(spans[..i + 1], laid.tids))
         && Positive(log + Draw(spans[..i + 1], laid.tids))
  {
    var (pid, s) := spans[i];
    var now, line := log + Draw(spans[..i], before.tids), LineFor(before.pic, before.status, pid, s);
    RequestKeeps(pic, log, spans, i);
    StatusIs(pic, spans, i, before, pid);
    LineIsBest(before.pic, now, before.status, pid, s, PrevLine(spans, before.tids, i, pid));
    DrawingBacks(before.pic, now, LaneId(pid, line), s);
    DrawOne(log, spans, i, before.tids, line);
    assert laid.tids == before.tids + [line] && laid.tids[..i] == before.tids;
    PrevLinePrefix(spans, before.tids, laid.tids, i, pid);
  }

  /** Every span of the first `r` requests gets its best line. */
  ghost predicate BestLayout(requests: seq<seq<(int, Span)>>, tids: seq<seq<nat>>, r: nat)
    requires r <= |requests|
  {
    && |tids| == r
    && forall q: nat {:trigger tids[q]} :: q < r ==>
         && |tids[q]| == |requests[q]| && |Concat(requests[..q])| == |Concat(tids[..q])|
         && AllBest(Draw(Concat(requests[..q]), Concat(tids[..q])), requests[q], tids[q])
  }

  ghost predicate AllBest(log: seq<Drawn>, spans: seq<(int, Span)>, tids: seq<nat>)
    requires |spans| == |tids|
  {
    forall j :: 0 <= j < |spans| ==> SpanBest(log, spans, tids, j)
  }

  lemma {:induction false} LayoutBest(requests: seq<seq<(int, Span)>>, r: nat, chart: Chart, log: seq<Drawn>)
    requires r <= |requests| && chart == LayAll(requests, r) && log == Log(requests, r)
    requires forall q :: 0 <= q < |requests| ==> AllPositive(requests[q])
    ensures BestLayout(requests, chart.tids, r) && Backs(chart.pic.lanes, log) && Positive(log)
  {
    if r > 0 {
      var before, drawn := LayAll(requests, r - 1), Log(requests, r - 1);
      LayoutBest(requests, r - 1, before, drawn);
      NextRequestBest(requests, r - 1, before, drawn, chart, log);
    }
  }

  lemma NextRequestBest(requests: seq<seq<(int, Span)>>, r: nat, before: Chart, drawn: seq<Drawn>, chart: Chart,
                        log: seq<Drawn>)
    requires r < |requests| && before == LayAll(requests, r) && drawn == Log(requests, r)
    requires chart == LayAll(requests, r + 1) && log == Log(requests, r + 1) && AllPositive(requests[r])
    requires BestLayout(requests, before.tids, r) && Backs(before.pic.lanes, drawn) && Positive(drawn)
    ensures BestLayout(requests, chart.tids, r + 1) && Backs(chart.pic.lanes, log) && Positive(log)
  {
    var spans := requests[r];
    var laid := LayRequest(before.pic, spans, |spans|);
    LayoutKeeps(requests, r, before.pic, drawn);
    RequestBest(before.pic, drawn, spans, |spans|, laid);
    assert spans[..|spans|] == spans;
    LogStep(requests, r, before, laid);
    LayoutNumbers(requests, r, before.tids);
    BestMore(requests, r, before.tids, laid.tids, chart.tids, drawn);
  }

  lemma BestMore(requests: seq<seq<(int, Span)>>, r: nat, tids: seq<seq<nat>>, ts: seq<nat>, tids': seq<seq<nat>>,
                 drawn: seq<Drawn>)
    requires r < |requests| && BestLayout(requests, tids, r) && tids' == tids + [ts] && |ts| == |requests[r]|
    requires |Concat(requests[..r])| == |Concat(tids)| && drawn == Draw(Concat(requests[..r]), Concat(tids))
    requires AllBest(drawn, requests[r], ts)
    ensures BestLayout(requests, tids', r + 1)
  {
    forall q: nat | q < r + 1
      ensures && |tids'[q]| == |requests[q]| && |Concat(requests[..q])| == |Concat(tids'[..q])|
              && AllBest(Draw(Concat(requests[..q]), Concat(tids'[..q])), requests[q], tids'[q])
    {
      assert tids'[..q] == tids[..q];
      if q < r {
        assert tids'[q] == tids[q];
      } else {
        assert tids[..r] == tids;
      }
    }
  }

  // ---------------------------------------------------------------- the layout

  class Layout {
    var graph: map<LaneId, SpanLayoutContainer>
    /** `len(graph[pid])`, for the processes in `graph`. */
    var lines: map<int, nat>
    /** One `thread_name` record per lane. */
    var slots: seq<LaneId>
    /** The contents of the containers, and the lane each container belongs to. */
    ghost var lanes: map<LaneId, seq<Span>>
    ghost var owner: map<SpanLayoutContainer, LaneId>

    /** Each lane has its own container, which holds its spans. */
    ghost predicate Backed()
      reads this, owner.Keys
    {
      && graph.Keys == lanes.Keys
      && forall k :: k in graph ==> graph[k] in owner && owner[graph[k]] == k && graph[k].intervals == lanes[k]
    }

    ghost function Shown(): Picture
      reads this
    {
      Picture(lanes, lines)
    }

    ghost predicate Valid()
      reads this, owner.Keys
    {
      Backed() && Sane(Shown())
    }

    constructor ()
      ensures Valid() && Shown() == Picture(map[], map[]) && slots == [] && owner == map[]
    {
      graph, lines, slots, lanes, owner := map[], map[], [], map[], map[];
    }

    /** `graph[pid][line] = SpanLayoutContainer()` and its record. */
    method AddContainer(k: LaneId)
      requires Backed() && k !in lanes
      modifies this`graph, this`slots, this`lanes, this`owner
      ensures Backed() && fresh(owner.Keys - old(owner.Keys))
      ensures lanes == old(lanes)[k := []] && slots == old(slots) + [k]
    {
      var container := new SpanLayoutContainer();
      graph := graph[k := container];
      lanes, owner := lanes[k := []], owner[container := k];
      slots := slots + [k];
    }

    /** `graph[pid][line].insert_span(start, end)`. */
    method StoreSpan(k: LaneId, s: Span)
      requires Backed() && k in lanes && InOrder(lanes[k])
      modifies this`lanes, graph[k]
      ensures Backed() && Shown() == Stored(old(Shown()), k, s)
    {
      graph[k].InsertSpan(s.start, s.end);
      lanes := lanes[k := graph[k].intervals];
    }

    method CheckLane(k: LaneId, s: Span) returns (conflict: bool)
      requires Backed() && k in lanes && InOrder(lanes[k])
      ensures conflict == Conflict(lanes[k], s)
    {
      conflict := graph[k].CheckOverlap(s.start, s.end);
    }

    /** `for line in graph[pid]`: the first lane without a conflict, 0 if there is none. */
    method FirstFit(pid: int, s: Span) returns (line: nat)
      requires Valid() && pid in lines
      ensures line <= lines[pid]
      ensures line > 0 ==> !Conflict(lanes[LaneId(pid, line)], s)
      ensures AllConflict(lanes, pid, s, if line > 0 then line else lines[pid] + 1)
    {
      for l := 1 to lines[pid] + 1
        invariant AllConflict(lanes, pid, s, l)
      {
        var conflict := CheckLane(LaneId(pid, l), s);
        if !conflict {
          return l;
        }
      }
      return 0;
    }

    /** `__find_line`. The lane returned has no conflict with the span, unless the span has no length and its request
        already has a lane in this process. If every lane of the process conflicts, the line is the next number. */
    method ChooseLine(status: map<int, nat>, pid: int, s: Span) returns (line: nat)
      requires Valid() && Known(status, lanes)
      ensures line == LineFor(Shown(), status, pid, s)
      ensures LaneId(pid, line) in lanes || line == LinesOf(Shown(), pid) + 1
      ensures if pid in status && (s.start == s.end || !Conflict(lanes[LaneId(pid, status[pid])], s))
              then line == status[pid]
              else
                && AllConflict(lanes, pid, s, line)
                && (LaneId(pid, line) in lanes ==> !Conflict(lanes[LaneId(pid, line)], s))
    {
      if pid in status {
        line := status[pid];
        if s.start == s.end {
          return;
        }
        var conflict := CheckLane(LaneId(pid, line), s);
        if !conflict {
          return;
        }
      }
      var n := if pid in lines then lines[pid] else 0;
      line := 0;
      if pid in lines {
        line := FirstFit(pid, s);
      }
      line := if line > 0 then line else n + 1;
      FirstFreeIs(lanes, pid, s, 1, n, line);
    }

    /** `__find_line` with its effect: a lane is opened, and recorded, only if the line chosen does not exist yet. */
    method FindLine(status: map<int, nat>, pid: int, s: Span) returns (line: nat, status': map<int, nat>)
      requires Valid() && Known(status, lanes)
      modifies this`graph, this`lines, this`slots, this`lanes, this`owner
      ensures Backed() && fresh(owner.Keys - old(owner.Keys))
      ensures line == LineFor(old(Shown()), status, pid, s) && status' == status[pid := line]
      ensures Shown() == Opened(old(Shown()), LaneId(pid, line))
      ensures if pid in status && (s.start == s.end || !Conflict(old(lanes)[LaneId(pid, status[pid])], s))
              then line == status[pid]
              else
                && AllConflict(old(lanes), pid, s, line)
                && (LaneId(pid, line) in old(lanes) ==> !Conflict(old(lanes)[LaneId(pid, line)], s))
      ensures slots == if LaneId(pid, line) in old(lanes) then old(slots) else old(slots) + [LaneId(pid, line)]
    {
      line := ChooseLine(status, pid, s);
      status' := status[pid := line];
      if LaneId(pid, line) !in graph {
        AddContainer(LaneId(pid, line));
        lines := lines[pid := line];
      }
    }

    /** `__find_line`, `insert_span` and `__set_span_tid`. */
    method Place(status: map<int, nat>, pid: int, s: Span) returns (line: nat, status': map<int, nat>)
      requires Valid() && Known(status, lanes)
      modifies this, owner.Keys
      ensures Valid() && fresh(owner.Keys - old(owner.Keys)) && Known(status', lanes)
      ensures line == LineFor(old(Shown()), status, pid, s) && status' == status[pid := line]
      ensures Shown() == Drawing(old(Shown()), LaneId(pid, line), s)
    {
      LineDraws(Shown(), status, pid, s, LaneId(pid, LineFor(Shown(), status, pid, s)));
      line, status' := FindLine(status, pid, s);
      StoreSpan(LaneId(pid, line), s);
    }

    /** The next span of a request. */
    method PlaceNext(spans: seq<(int, Span)>, i: nat, status: map<int, nat>, tids: seq<nat>, ghost start: Picture)
      returns (status': map<int, nat>, tids': seq<nat>)
      requires Backed() && Sane(start) && i < |spans| && LayRequest(start, spans, i) == Laid(Shown(), status, tids)
      modifies this, owner.Keys
      ensures Backed() && fresh(owner.Keys - old(owner.Keys))
      ensures LayRequest(start, spans, i + 1) == Laid(Shown(), status', tids')
    {
      ghost var pic := Shown();
      RequestSane(start, spans, i);
      var line;
      line, status' := Place(status, spans[i].0, spans[i].1);
      tids' := tids + [line];
      LayStep(start, spans, i, pic, status, tids, line, status', tids');
    }

    /** The spans of one request. */
    method PlaceRequest(spans: seq<(int, Span)>) returns (tids: seq<nat>)
      requires Valid()
      modifies this, owner.Keys
      ensures Valid() && fresh(owner.Keys - old(owner.Keys))
      ensures Shown() == LayRequest(old(Shown()), spans, |spans|).pic
           && tids == LayRequest(old(Shown()), spans, |spans|).tids
    {
      ghost var start := Shown();
      var status: map<int, nat> := map[];
      tids := [];
      for i := 0 to |spans|
        invariant Backed() && fresh(owner.Keys - old(owner.Keys))
        invariant LayRequest(start, spans, i) == Laid(Shown(), status, tids)
      {
        status, tids := PlaceNext(spans, i, status, tids, start);
      }
      RequestSane(start, spans, |spans|);
    }

    /** The requests one after the other. */
    method PlaceAll(requests: seq<seq<(int, Span)>>) returns (tids: seq<seq<nat>>)
      requires Valid() && Shown() == Picture(map[], map[])
      modifies this, owner.Keys
      ensures Valid() && LayAll(requests, |requests|) == Chart(Shown(), tids)
    {
      tids := [];
      for r := 0 to |requests|
        invariant Valid() && fresh(owner.Keys - old(owner.Keys))
        invariant LayAll(requests, r) == Chart(Shown(), tids)
      {
        var ts := PlaceRequest(requests[r]);
        tids := tids + [ts];
      }
    }

    /** The whole layout, requests in any order: if every span has positive length, no two spans drawn in the same lane
        of the same process overlap. */
    method Generate(requests: seq<seq<(int, Span)>>) returns (tids: seq<seq<nat>>)
      requires Valid() && Shown() == Picture(map[], map[])
      modifies this, owner.Keys
      ensures Valid() && LayAll(requests, |requests|) == Chart(Shown(), tids)
      ensures |tids| == |requests| && forall r :: 0 <= r < |requests| ==> |tids[r]| == |requests[r]|
      ensures |Concat(tids)| == |Concat(requests)|
      ensures AllPositive(Concat(requests)) ==> Readable(Draw(Concat(requests), Concat(tids)))
      ensures AllPositive(Concat(requests)) ==> BestLayout(requests, tids, |requests|)
    {
      tids := PlaceAll(requests);
      LayoutReadable(requests, tids);
      if AllPositive(Concat(requests)) {
        EachPositive(requests);
        LayoutBest(requests, |requests|, LayAll(requests, |requests|), Log(requests, |requests|));
      }
    }
  }

  ghost predicate AllPositive(spans: seq<(int, Span)>) {
    forall i :: 0 <= i < |spans| ==> spans[i].1.start < spans[i].1.end
  }

  lemma {:induction false} EachPositive(requests: seq<seq<(int, Span)>>)
    requires AllPositive(Concat(requests))
    ensures forall r :: 0 <= r < |requests| ==> AllPositive(requests[r])
  {
    if requests != [] {
      var front, last := requests[..|requests| - 1], requests[|requests| - 1];
      var all := Concat(requests);
      assert all == Concat(front) + last;
      forall i | 0 <= i < |Concat(front)| ensures Concat(front)[i].1.start < Concat(front)[i].1.end {
        assert all[i] == Concat(front)[i];
      }
      forall i | 0 <= i < |last| ensures last[i].1.start < last[i].1.end {
        assert all[|Concat(front)| + i] == last[i];
      }
      EachPositive(front);
    }
  }

  lemma LayoutReadable(requests: seq<seq<(int, Span)>>, tids: seq<seq<nat>>)
    requires tids == LayAll(requests, |requests|).tids
    ensures |tids| == |requests| && forall r :: 0 <= r < |requests| ==> |tids[r]| == |requests[r]|
    ensures |Concat(tids)| == |Concat(requests)|
    ensures AllPositive(Concat(requests)) ==> Readable(Draw(Concat(requests), Concat(tids)))
  {
    LayoutNumbers(requests, |requests|, tids);
    LayoutKeeps(requests, |requests|, LayAll(requests, |requests|).pic, Log(requests, |requests|));
    assert requests[..|requests|] == requests;
  }

  // ---------------------------------------------------------------- a layout that hides a span

  /** One request, one process, spans (0, 10), (5, 5) and (6, 8): all three are drawn in lane 1, where the first and the
      last overlap. */
  method ZeroLengthRun() returns (tids: seq<seq<nat>>)
    ensures tids == [[1, 1, 1]] && !Readable(Draw(HiddenSpans(), [1, 1, 1]))
  {
    var layout := new Layout();
    tids := layout.Generate([HiddenSpans()]);
    HiddenLines();
    ghost var log := Draw(HiddenSpans(), [1, 1, 1]);
    assert log[0].lane == log[2].lane && Overlap(log[0].span, log[2].span);
  }

  function HiddenSpans(): seq<(int, Span)> {
    [(7, Span(0, 10)), (7, Span(5, 5)), (7, Span(6, 8))]
  }

  lemma HiddenLines()
    ensures LayAll([HiddenSpans()], 1).tids == [[1, 1, 1]]
  {
    var spans, empty, k := HiddenSpans(), Picture(map[], map[]), LaneId(7, 1);
    assert LayAll([spans], 0) == Chart(empty, []);
    assert FirstFree(map[], 7, Span(0, 10), 1, 0) == 1;
    var one := Drawing(empty, k, Span(0, 10));
    LayStep(empty, spans, 0, empty, map[], [], 1, map[7 := 1], [1]);
    assert one.lanes[k] == [Span(0, 10)] + [];
    var two := Drawing(one, k, Span(5, 5));
    LayStep(empty, spans, 1, one, map[7 := 1], [1], 1, map[7 := 1], [1, 1]);
    assert Insort([], Span(5, 5)) == [Span(5, 5)];
    assert [Span(0, 10)][1..] == [];
    assert two.lanes[k] == [Span(0, 10)] + [Span(5, 5)] == [Span(0, 10), Span(5, 5)];
    ZeroLengthHidesOverlap();
    assert Keeps(two, map[7 := 1], 7, Span(6, 8));
    LayStep(empty, spans, 2, two, map[7 := 1], [1, 1], 1, map[7 := 1], [1, 1, 1]);
  }
}
