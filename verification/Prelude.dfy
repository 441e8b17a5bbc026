/** Small notions shared by the models: optional values, constant and filtered sequences, sums. */
module Prelude {

  datatype Option<+T> = None | Some(value: T)

  function Min(a: int, b: int): int {
    if a <= b then a else b
  }

  function Max(a: int, b: int): int {
    if a >= b then a else b
  }

  /** `n` copies of `x`. */
  function Repeat<T>(x: T, n: nat): (s: seq<T>)
    ensures |s| == n
    ensures forall i :: 0 <= i < n ==> s[i] == x
  {
    seq(n, i => x)
  }

  function Sum(s: seq<nat>): nat {
    if s == [] then 0 else s[0] + Sum(s[1..])
  }

  lemma {:induction false} SumAppend(a: seq<nat>, b: seq<nat>)
    ensures Sum(a + b) == Sum(a) + Sum(b)
  {
    if a == [] {
      assert a + b == b;
    } else {
      assert (a + b)[1..] == a[1..] + b;
      SumAppend(a[1..], b);
    }
  }

  /** The elements of `s` other than `x`, in order. */
  function Without<T(==)>(x: T, s: seq<T>): (r: seq<T>)
    ensures x !in r
    ensures |r| <= |s|
  {
    if s == [] then []
    else if s[0] == x then Without(x, s[1..])
    else [s[0]] + Without(x, s[1..])
  }

  lemma {:induction false} WithoutAppend<T>(x: T, a: seq<T>, b: seq<T>)
    ensures Without(x, a + b) == Without(x, a) + Without(x, b)
  {
    if a == [] {
      assert a + b == b;
    } else {
      assert (a + b)[1..] == a[1..] + b;
      WithoutAppend(x, a[1..], b);
    }
  }

  /** Filtering changes nothing exactly when there is nothing to filter. */
  lemma {:induction false} WithoutAbsent<T>(x: T, s: seq<T>)
    ensures Without(x, s) == s <==> x !in s
  {
    if s != [] {
      WithoutAbsent(x, s[1..]);
      assert s == [s[0]] + s[1..];
    }
  }

  lemma {:induction false} WithoutAll<T>(x: T, s: seq<T>)
    requires forall i :: 0 <= i < |s| ==> s[i] == x
    ensures Without(x, s) == []
  {
    if s != [] {
      WithoutAll(x, s[1..]);
    }
  }

  // ---------------------------------------------------------------- sets, order, sorting

  ghost predicate Distinct<T>(s: seq<T>) {
    forall i, j :: 0 <= i < j < |s| ==> s[i] != s[j]
  }

  function Elements<T>(s: seq<T>): set<T> {
    set x | x in s
  }

  lemma {:induction false} DistinctCardinality<T>(s: seq<T>)
    requires Distinct(s)
    ensures |Elements(s)| == |s|
  {
    if s != [] {
      var front := s[..|s| - 1];
      DistinctCardinality(front);
      assert s == front + [s[|s| - 1]];
      assert Elements(s) == Elements(front) + {s[|s| - 1]};
    }
  }

  lemma {:induction false} SubsetSize<T>(a: set<T>, b: set<T>)
    requires a <= b
    ensures |a| <= |b|
    ensures |a| == |b| ==> a == b
  {
    if a != {} {
      var x :| x in a;
      SubsetSize(a - {x}, b - {x});
    }
  }

  ghost predicate Sorted(s: seq<int>) {
    forall i, j :: 0 <= i < j < |s| ==> s[i] <= s[j]
  }

  function Insert(x: int, s: seq<int>): (r: seq<int>)
    ensures |r| == |s| + 1
    ensures multiset(r) == multiset(s) + multiset{x}
  {
    if s == [] || x <= s[0] then
      [x] + s
    else
      assert s == [s[0]] + s[1..];
      [s[0]] + Insert(x, s[1..])
  }

  lemma {:induction false} InsertSorted(x: int, s: seq<int>)
    requires Sorted(s)
    ensures Sorted(Insert(x, s))
    ensures forall i :: 0 <= i <= |s| ==> Insert(x, s)[i] == x || Insert(x, s)[i] in s
  {
    if s != [] && x > s[0] {
      InsertSorted(x, s[1..]);
      var rest := Insert(x, s[1..]);
      assert forall i :: 0 <= i < |rest| ==> s[0] <= rest[i];
      assert Insert(x, s) == [s[0]] + rest;
    }
  }

  /** `sort()`: the ascending rearrangement. */
  function Sort(s: seq<int>): (r: seq<int>)
    ensures Sorted(r) && multiset(r) == multiset(s) && |r| == |s|
  {
    if s == [] then []
    else
      assert s == [s[0]] + s[1..];
      InsertSorted(s[0], Sort(s[1..]));
      Insert(s[0], Sort(s[1..]))
  }

  lemma SameLeast(a: seq<int>, b: seq<int>)
    requires a != [] && Sorted(a) && Sorted(b) && multiset(a) == multiset(b)
    ensures b != [] && a[0] == b[0]
  {
    assert a[0] in multiset(a);
    assert a[0] in b;
    assert b[0] in multiset(b);
    assert b[0] in a;
  }

  lemma SameRest(x: int, a: seq<int>, b: seq<int>)
    requires multiset([x] + a) == multiset([x] + b)
    ensures multiset(a) == multiset(b)
  {
    assert multiset(a) == multiset([x] + a) - multiset{x};
    assert multiset(b) == multiset([x] + b) - multiset{x};
  }

  /** There is only one ascending rearrangement. */
  lemma {:induction false} SortedUnique(a: seq<int>, b: seq<int>)
    requires Sorted(a) && Sorted(b) && multiset(a) == multiset(b)
    ensures a == b
  {
    assert |multiset(a)| == |multiset(b)|;
    if a != [] {
      SameLeast(a, b);
      var a', b' := a[1..], b[1..];
      assert a == [a[0]] + a' && b == [a[0]] + b';
      SameRest(a[0], a', b');
      SortedUnique(a', b');
    }
  }

  lemma SameElements<T>(a: seq<T>, b: seq<T>)
    requires multiset(a) == multiset(b)
    ensures |a| == |b|
    ensures forall x :: x in a <==> x in b
    ensures Distinct(a) ==> Distinct(b)
  {
    assert |multiset(a)| == |multiset(b)|;
    forall x ensures x in a <==> x in b {
      assert x in a <==> x in multiset(a);
      assert x in b <==> x in multiset(b);
    }
    if Distinct(a) && !Distinct(b) {
      var i, j :| 0 <= i < j < |b| && b[i] == b[j];
      assert b == b[..i] + [b[i]] + b[i + 1..j] + [b[j]] + b[j + 1..];
      assert multiset(b)[b[i]] >= 2;
      DistinctMultiplicity(a, b[i]);
    }
  }

  lemma {:induction false} DistinctMultiplicity<T>(s: seq<T>, x: T)
    requires Distinct(s)
    ensures multiset(s)[x] <= 1
  {
    if s != [] {
      assert s == [s[0]] + s[1..];
      DistinctMultiplicity(s[1..], x);
      if x == s[0] {
        assert forall i :: 0 <= i < |s[1..]| ==> s[1..][i] != x;
        assert x !in s[1..];
      }
    }
  }

  // ---------------------------------------------------------------- blocks of equal size

  lemma MulMonotone(a: int, b: int, n: nat)
    ensures a <= b ==> a * n <= b * n
  {
  }

  /** Quotient and remainder are determined by a decomposition. */
  lemma BlockOf(i: nat, b: nat, r: nat, n: nat)
    requires n >= 1 && r < n && i == b * n + r
    ensures i / n == b && i % n == r
  {
    assert i == (i / n) * n + i % n;
    MulMonotone(i / n + 1, b, n);
    MulMonotone(b + 1, i / n, n);
  }

  lemma BlockBound(i: nat, blocks: nat, n: nat)
    requires n >= 1
    ensures i / n < blocks <==> i < blocks * n
  {
    assert i == (i / n) * n + i % n;
    MulMonotone(blocks, i / n, n);
    MulMonotone(i / n + 1, blocks, n);
  }
}
