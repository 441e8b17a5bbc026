/** The draft vocabulary of EAGLE3: `process_token_dict_to_mappings` and its use in `_compute_target_p`. */
module VocabMapping {
  import opened Prelude

  // ---------------------------------------------------------------- choosing the tokens

  /** `set(range(n))`. */
  function Upto(n: nat): (s: set<int>)
    ensures forall i :: i in s <==> 0 <= i < n
    ensures |s| == n
  {
    if n == 0 then {} else Upto(n - 1) + {n - 1}
  }

  /** Lines 754-761: unseen ids below `draftSize` enter with frequency 0, in any order, until there are enough. */
  method FillMissing(counts: map<int, nat>, draftSize: nat) returns (filled: map<int, nat>)
    ensures |counts| >= draftSize ==> filled == counts
    ensures |counts| < draftSize ==> |filled| == draftSize
    ensures counts.Keys <= filled.Keys && forall k :: k in counts ==> filled[k] == counts[k]
    ensures forall k :: k in filled && k !in counts ==> 0 <= k < draftSize && filled[k] == 0
  {
    filled := counts;
    if |counts| < draftSize {
      var all := Upto(draftSize);
      var missing := all - counts.Keys;
      while missing != {} && |filled| < draftSize
        invariant Filling(counts, filled, missing, all) && |filled| <= draftSize
        decreases missing
      {
        var token :| token in missing;
        FillOne(counts, filled, missing, all, token);
        filled := filled[token := 0];
        missing := missing - {token};
      }
      if missing == {} {
        SubsetSize(all, filled.Keys);
      }
    }
  }

  /** Seen ids keep their counts, the others come from `all` and count 0, and `missing` are the ids of `all` not yet
      in. */
  ghost predicate Filling(counts: map<int, nat>, filled: map<int, nat>, missing: set<int>, all: set<int>) {
    && counts.Keys <= filled.Keys && (forall k :: k in counts ==> filled[k] == counts[k])
    && (forall k :: k in filled && k !in counts ==> k in all && filled[k] == 0)
    && all <= filled.Keys + missing && missing !! filled.Keys && missing <= all
  }

  lemma FillOne(counts: map<int, nat>, filled: map<int, nat>, missing: set<int>, all: set<int>, token: int)
    requires Filling(counts, filled, missing, all) && token in missing
    ensures Filling(counts, filled[token := 0], missing - {token}, all)
    ensures |filled[token := 0]| == |filled| + 1
  {
    OneKeyMore(filled, token);
  }

  lemma OneKeyMore(m: map<int, nat>, k: int)
    requires k !in m
    ensures m[k := 0].Keys == m.Keys + {k} && |m[k := 0]| == |m| + 1
  {
    assert m[k := 0].Keys == m.Keys + {k};
  }

  ghost predicate IsMostCommon(counts: map<int, nat>, top: seq<int>) {
    && Distinct(top)
    && (forall i :: 0 <= i < |top| ==> top[i] in counts)
    && forall i, k :: 0 <= i < |top| && k in counts && k !in top ==> counts[k] <= counts[top[i]]
  }

  /** Appending a most frequent remaining id keeps the choice right. */
  lemma PickNext(counts: map<int, nat>, top: seq<int>, rest: set<int>, k: int)
    requires IsMostCommon(counts, top) && rest == counts.Keys - Elements(top)
    requires k in rest && forall j :: j in rest ==> counts[j] <= counts[k]
    ensures IsMostCommon(counts, top + [k]) && rest - {k} == counts.Keys - Elements(top + [k])
  {
    var top' := top + [k];
    assert Elements(top') == Elements(top) + {k};
    forall i, j | 0 <= i < |top'| && j in counts && j !in top' ensures counts[j] <= counts[top'[i]] {
      assert j !in Elements(top');
      assert j in rest;
      assert j !in top;
    }
    assert k !in top;
  }

  lemma Pick<T>(s: set<T>) returns (x: T)
    requires s != {}
    ensures x in s
  {
    x :| x in s;
  }

  lemma {:induction false} LargestExists(counts: map<int, nat>, keys: set<int>)
    requires keys != {} && keys <= counts.Keys
    ensures exists k :: k in keys && forall j :: j in keys ==> counts[j] <= counts[k]
  {
    var k := Pick(keys);
    var rest := keys - {k};
    if rest != {} {
      LargestExists(counts, rest);
      var r :| r in rest && forall j :: j in rest ==> counts[j] <= counts[r];
      if counts[k] <= counts[r] {
        assert r in keys && forall j :: j in keys ==> counts[j] <= counts[r];
      } else {
        assert k in keys && forall j :: j in keys ==> counts[j] <= counts[k];
      }
    } else {
      assert forall j :: j in keys ==> j == k || j in rest;
      assert k in keys && forall j :: j in keys ==> counts[j] <= counts[k];
    }
  }

  /** `Counter.most_common(n)`, ties resolved in any way. */
  method MostCommon(counts: map<int, nat>, n: nat) returns (top: seq<int>)
    ensures IsMostCommon(counts, top)
    ensures |top| == Min(n, |counts|)
  {
    top := [];
    var rest := counts.Keys;
    while |top| < n && rest != {}
      invariant IsMostCommon(counts, top)
      invariant rest == counts.Keys - Elements(top)
      invariant |top| <= n && |top| + |rest| == |counts|
      decreases rest
    {
      LargestExists(counts, rest);
      var k :| k in rest && forall j :: j in rest ==> counts[j] <= counts[k];
      PickNext(counts, top, rest, k);
      top := top + [k];
      rest := rest - {k};
    }
  }

  // ---------------------------------------------------------------- the two tables

  /** `[i in used for i in range(n)]`. */
  function T2d(used: seq<int>, n: nat): (t2d: seq<bool>)
    ensures |t2d| == n
  {
    seq(n, i => i in used)
  }

  /** `[used[i] - i for i in range(len(used))]`. */
  function D2t(used: seq<int>): (d2t: seq<int>)
    ensures |d2t| == |used|
  {
    seq(|used|, i requires 0 <= i < |used| => used[i] - i)
  }

  /** Indices of true entries, ascending: what boolean indexing with the table selects. */
  function TrueIndices(t2d: seq<bool>): (r: seq<int>)
    ensures forall i :: 0 <= i < |r| ==> 0 <= r[i] < |t2d| && t2d[r[i]]
    ensures forall i, j :: 0 <= i < j < |r| ==> r[i] < r[j]
    ensures forall k :: 0 <= k < |t2d| && t2d[k] ==> k in r
  {
    if t2d == [] then []
    else
      var n := |t2d| - 1;
      var front := TrueIndices(t2d[..n]);
      if t2d[n] then front + [n] else front
  }

  lemma MultisetOfDistinct<T>(a: seq<T>, b: seq<T>)
    requires Distinct(a) && Distinct(b) && forall x :: x in a <==> x in b
    ensures multiset(a) == multiset(b)
  {
    forall x ensures multiset(a)[x] == multiset(b)[x] {
      DistinctMultiplicity(a, x);
      DistinctMultiplicity(b, x);
      assert x in multiset(a) <==> x in a;
      assert x in multiset(b) <==> x in b;
    }
  }

  /** Draft id `i` stands for the `i`-th kept target id, and every draft id has one, exactly when all chosen ids lie in
      the target vocabulary. */
  lemma TablesAgree(used: seq<int>, n: nat)
    requires Sorted(used) && Distinct(used) && forall i :: 0 <= i < |used| ==> used[i] >= 0
    ensures (forall i :: 0 <= i < |used| ==> used[i] < n) ==>
              TrueIndices(T2d(used, n)) == used
    ensures |TrueIndices(T2d(used, n))| == |used| <==> forall i :: 0 <= i < |used| ==> used[i] < n
  {
    var kept := TrueIndices(T2d(used, n));
    DistinctCardinality(kept);
    DistinctCardinality(used);
    assert Elements(kept) <= Elements(used);
    if forall i :: 0 <= i < |used| ==> used[i] < n {
      forall x ensures x in kept <==> x in used {
        if x in used {
          assert T2d(used, n)[x];
        }
      }
      MultisetOfDistinct(kept, used);
      SortedUnique(kept, used);
    } else {
      var i :| 0 <= i < |used| && used[i] >= n;
      assert used[i] in Elements(used) && used[i] !in Elements(kept);
      SubsetSize(Elements(kept), Elements(used));
    }
  }

  lemma TopOfCounts(counts: map<int, nat>, filled: map<int, nat>, draftSize: nat, top: seq<int>, used: seq<int>)
    requires IsMostCommon(filled, top) && |top| == Min(draftSize, |filled|) && |used| == |top|
    requires forall i :: 0 <= i < |used| ==> used[i] in top
    requires forall i :: 0 <= i < |top| ==> top[i] in used
    requires |counts| >= draftSize ==> filled == counts
    requires |counts| < draftSize ==> |filled| == draftSize
    requires counts.Keys <= filled.Keys && forall k :: k in counts ==> filled[k] == counts[k]
    ensures |used| == draftSize
    ensures forall i, k :: 0 <= i < draftSize && k in counts && k !in used ==>
              used[i] in counts && counts[k] <= counts[used[i]]
  {
    if |counts| < draftSize {
      // every filled id was chosen
      DistinctCardinality(top);
      assert Elements(top) <= filled.Keys;
      SubsetSize(Elements(top), filled.Keys);
      forall k | k in counts ensures k in used {
        assert k in Elements(top);
        var j :| 0 <= j < |top| && top[j] == k;
      }
    } else {
      forall i, k | 0 <= i < |used| && k in counts && k !in used
        ensures used[i] in counts && counts[k] <= counts[used[i]]
      {
        assert used[i] in top;
        var j :| 0 <= j < |top| && top[j] == used[i];
        assert k !in top;
      }
    }
  }

  // ---------------------------------------------------------------- argmax through the tables

  /** First position of the largest value. */
  function FirstArgmax(row: seq<real>): (a: nat)
    requires row != []
    ensures a < |row|
    ensures forall i :: 0 <= i < |row| ==> row[i] <= row[a]
    ensures forall i :: 0 <= i < a ==> row[i] < row[a]
  {
    if |row| == 1 then 0
    else
      var a := FirstArgmax(row[..|row| - 1]);
      if row[a] < row[|row| - 1] then |row| - 1 else a
  }

  /** `row[..., t2d]` followed by an elementwise map. */
  function Compressed(row: seq<real>, t2d: seq<bool>, f: real -> real): (r: seq<real>)
    requires |row| == |t2d|
    ensures |r| == |TrueIndices(t2d)|
  {
    var kept := TrueIndices(t2d);
    seq(|kept|, i requires 0 <= i < |kept| => f(row[kept[i]]))
  }

  ghost predicate StrictlyMonotone(f: real -> real) {
    forall a, b :: a < b ==> f(a) < f(b)
  }

  /** The top draft id of a compressed row stands for the row's own top token exactly when that token is kept, i.e.
      exactly where the position mask is set. */
  lemma ArgmaxPreserved(row: seq<real>, t2d: seq<bool>, f: real -> real)
    requires |row| == |t2d| && TrueIndices(t2d) != [] && StrictlyMonotone(f)
    ensures row != []
    ensures t2d[FirstArgmax(row)] <==>
              TrueIndices(t2d)[FirstArgmax(Compressed(row, t2d, f))] == FirstArgmax(row)
  {
    assert 0 <= TrueIndices(t2d)[0] < |row|;
    if t2d[FirstArgmax(row)] {
      KeptArgmax(row, t2d, f);
    }
  }

  lemma KeptArgmax(row: seq<real>, t2d: seq<bool>, f: real -> real)
    requires |row| == |t2d| > 0 && TrueIndices(t2d) != [] && StrictlyMonotone(f) && t2d[FirstArgmax(row)]
    ensures TrueIndices(t2d)[FirstArgmax(Compressed(row, t2d, f))] == FirstArgmax(row)
  {
    var kept, small := TrueIndices(t2d), Compressed(row, t2d, f);
    var a, i := FirstArgmax(row), FirstArgmax(small);
    assert a in kept;
    var j :| 0 <= j < |kept| && kept[j] == a;
    FirstArgmaxUnique(row, kept, small, f, a, i, j);
  }

  lemma FirstArgmaxUnique(row: seq<real>, kept: seq<int>, small: seq<real>, f: real -> real, a: nat, i: nat, j: nat)
    requires StrictlyMonotone(f) && row != [] && a == FirstArgmax(row)
    requires |small| == |kept| > 0 && i == FirstArgmax(small) && j < |kept| && kept[j] == a
    requires forall l :: 0 <= l < |kept| ==> 0 <= kept[l] < |row| && small[l] == f(row[kept[l]])
    requires forall l, l' :: 0 <= l < l' < |kept| ==> kept[l] < kept[l']
    ensures i == j
  {
    assert row[kept[i]] <= row[a];
    assert small[j] <= small[i];
    assert row[kept[i]] == row[a];
    assert kept[i] >= a;
    assert forall l :: 0 <= l < j ==> kept[l] < a;
    assert forall l :: 0 <= l < i ==> small[l] < small[i];
  }

  /** What the tables are for: for every row of target scores and every strictly monotone map in place of the softmax,
      the first argmax `i` of the compressed row satisfies `i + d2t[i] == argmax` if and only if the argmax is kept. */
  ghost predicate MapsArgmax(d2t: seq<int>, t2d: seq<bool>) {
    forall row: seq<real>, f: real -> real :: |row| == |t2d| && TrueIndices(t2d) != [] && StrictlyMonotone(f) ==>
      ArgmaxMapped(d2t, t2d, row, f)
  }

  ghost predicate ArgmaxMapped(d2t: seq<int>, t2d: seq<bool>, row: seq<real>, f: real -> real)
    requires |row| == |t2d| && TrueIndices(t2d) != []
  {
    var i := FirstArgmax(Compressed(row, t2d, f));
    row != [] && i < |d2t| && (t2d[FirstArgmax(row)] <==> i + d2t[i] == FirstArgmax(row))
  }

  lemma TablesMapArgmax(used: seq<int>, n: nat)
    requires Sorted(used) && Distinct(used) && forall i :: 0 <= i < |used| ==> 0 <= used[i] < n
    ensures MapsArgmax(D2t(used), T2d(used, n))
  {
    var d2t, t2d := D2t(used), T2d(used, n);
    TablesAgree(used, n);
    forall row: seq<real>, f: real -> real | |row| == |t2d| && TrueIndices(t2d) != [] && StrictlyMonotone(f)
      ensures ArgmaxMapped(d2t, t2d, row, f)
    {
      ArgmaxPreserved(row, t2d, f);
    }
  }

  // ---------------------------------------------------------------- the whole function

  /** The whole function. `used` names the chosen ids; frequency decides, and nothing chosen is rarer than anything left
      out. */
  method ProcessTokenDict(counts: map<int, nat>, draftSize: nat, targetSize: nat)
    returns (d2t: seq<int>, t2d: seq<bool>, ghost used: seq<int>)
    requires forall k :: k in counts ==> k >= 0
    ensures |d2t| == |used| == draftSize && |t2d| == targetSize
    ensures Sorted(used) && Distinct(used) && t2d == T2d(used, targetSize)
    ensures forall i :: 0 <= i < draftSize ==> i + d2t[i] == used[i] && (used[i] in counts || 0 <= used[i] < draftSize)
    ensures forall i, k :: 0 <= i < draftSize && k in counts && k !in used ==>
              used[i] in counts && counts[k] <= counts[used[i]]
    ensures draftSize <= targetSize && (forall k :: k in counts ==> k < targetSize) ==>
              TrueIndices(t2d) == used && MapsArgmax(d2t, t2d)
  {
    var filled := FillMissing(counts, draftSize);
    var top := MostCommon(filled, draftSize);
    var sorted := Sort(top);
    SameElements(top, sorted);
    used := sorted;
    d2t := D2t(sorted);
    t2d := T2d(sorted, targetSize);
    forall i | 0 <= i < |used| ensures used[i] >= 0 && used[i] in filled {
      assert used[i] in top;
    }
    forall i | 0 <= i < |top| ensures top[i] in used {
      assert top[i] in top;
    }
    TopOfCounts(counts, filled, draftSize, top, used);
    TablesAgree(used, targetSize);
    if forall i :: 0 <= i < |used| ==> used[i] < targetSize {
      TablesMapArgmax(used, targetSize);
    }
  }
}
