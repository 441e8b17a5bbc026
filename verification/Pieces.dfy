/** Splitting a sequence into equal pieces and laying pieces end to end. */
module Pieces {
  import opened Prelude

  /** `(n + size - 1) // size`. */
  function Chunk(n: nat, size: nat): nat
    requires size >= 1
  {
    (n + size - 1) / size
  }

  lemma ChunkCovers(n: nat, size: nat)
    requires size >= 1
    ensures n <= size * Chunk(n, size) < n + size
  {
    var c := Chunk(n, size);
    assert c * size + (n + size - 1) % size == n + size - 1;
  }

  /** Where piece `r` starts when pieces of `chunk` columns are laid end to end: `r * chunk`, kept out of the way of the
      solver's arithmetic; `OffsetIsProduct` says so. */
  function Offset(r: nat, chunk: nat): nat {
    if r == 0 then 0 else Offset(r - 1, chunk) + chunk
  }

  lemma {:induction false} OffsetIsProduct(r: nat, chunk: nat)
    ensures Offset(r, chunk) == r * chunk
  {
    if r > 0 {
      OffsetIsProduct(r - 1, chunk);
    }
  }

  lemma {:induction false} OffsetMonotone(a: nat, b: nat, chunk: nat)
    requires a <= b
    ensures Offset(a, chunk) <= Offset(b, chunk)
  {
    if a < b {
      OffsetMonotone(a, b - 1, chunk);
    }
  }

  /** Pieces laid end to end, rank 0 first. */
  function Concat<T>(parts: seq<seq<T>>): seq<T> {
    if parts == [] then [] else Concat(parts[..|parts| - 1]) + parts[|parts| - 1]
  }

  /** Equal pieces that each show `f` from their own offset on show `f` when laid end to end. */
  lemma {:induction false} ConcatPieces<T>(parts: seq<seq<T>>, chunk: nat, f: nat -> T)
    requires forall r :: 0 <= r < |parts| ==> |parts[r]| == chunk
    requires forall r, i {:trigger parts[r][i]} :: 0 <= r < |parts| && 0 <= i < chunk ==>
               parts[r][i] == f(Offset(r, chunk) + i)
    ensures |Concat(parts)| == Offset(|parts|, chunk)
    ensures forall i :: 0 <= i < |Concat(parts)| ==> Concat(parts)[i] == f(i)
  {
    if parts != [] {
      var front, last := parts[..|parts| - 1], parts[|parts| - 1];
      ConcatPieces(front, chunk, f);
      assert Concat(parts) == Concat(front) + last;
      forall i | Offset(|parts| - 1, chunk) <= i < Offset(|parts|, chunk) ensures Concat(parts)[i] == f(i) {
        assert last[i - Offset(|parts| - 1, chunk)] == f(i);
      }
    }
  }

  /** Padding is absent exactly when the shard count divides the length. */
  lemma NoPaddingIffDivides(n: nat, size: nat)
    requires size >= 1
    ensures size * Chunk(n, size) == n <==> n % size == 0
  {
    ChunkCovers(n, size);
    var c := Chunk(n, size);
    assert n == (n / size) * size + n % size;
    MulMonotone(n / size + 1, c, size);
    MulMonotone(c, n / size, size);
    if size * c == n {
      BlockOf(n, c, 0, size);
    }
  }

  lemma ConcatLast<T>(parts: seq<seq<T>>, front: seq<seq<T>>, last: seq<T>)
    requires parts != [] && front == parts[..|parts| - 1] && last == parts[|parts| - 1]
    ensures Concat(parts) == Concat(front) + last
  {
  }

  lemma JoinRuns<T>(whole: seq<T>, lo: nat, hi: nat)
    requires lo <= hi <= |whole|
    ensures whole[..lo] + whole[lo..hi] == whole[..hi]
  {
  }

  /** `part` is the run of `len` elements of `whole` that starts at `lo`. */
  ghost predicate RunAt<T>(part: seq<T>, whole: seq<T>, lo: nat, len: nat) {
    lo + len <= |whole| && part == whole[lo..lo + len]
  }

  /** Consecutive runs of a sequence laid end to end give it back. */
  lemma {:induction false} ConcatRuns<T>(parts: seq<seq<T>>, chunk: nat, whole: seq<T>)
    requires Offset(|parts|, chunk) <= |whole|
    requires forall r {:trigger parts[r]} :: 0 <= r < |parts| ==> RunAt(parts[r], whole, Offset(r, chunk), chunk)
    ensures Concat(parts) == whole[..Offset(|parts|, chunk)]
  {
    if parts != [] {
      var m := |parts| - 1;
      var front, last, lo := parts[..m], parts[m], Offset(m, chunk);
      ConcatRuns(front, chunk, whole);
      assert RunAt(last, whole, lo, chunk);
      ConcatLast(parts, front, last);
      JoinRuns(whole, lo, lo + chunk);
    }
  }
}
