/** Sums and products of real vectors. */
module RealVectors {

  function Last<T>(s: seq<T>): T
    requires s != []
  {
    s[|s| - 1]
  }

  function Front<T>(s: seq<T>): seq<T>
    requires s != []
  {
    s[..|s| - 1]
  }

  function Total(s: seq<real>): real {
    if s == [] then 0.0 else Total(Front(s)) + Last(s)
  }

  function Dot(a: seq<real>, b: seq<real>): real
    requires |a| == |b|
  {
    if a == [] then 0.0 else Dot(Front(a), Front(b)) + Last(a) * Last(b)
  }

  /** Componentwise sum. */
  function Plus(a: seq<real>, b: seq<real>): (r: seq<real>)
    requires |a| == |b|
    ensures |r| == |a|
  {
    seq(|a|, i requires 0 <= i < |a| => a[i] + b[i])
  }

  lemma {:induction false} TotalAppend(a: seq<real>, b: seq<real>)
    ensures Total(a + b) == Total(a) + Total(b)
  {
    if b == [] {
      assert a + b == a;
    } else {
      assert Front(a + b) == a + Front(b);
      TotalAppend(a, Front(b));
    }
  }

  lemma Distribute(a: real, b: real, c: real)
    ensures (a + b) * c == a * c + b * c
  {
  }

  lemma Associate(a: real, b: real, c: real)
    ensures (a * b) * c == a * (b * c)
  {
  }

  lemma QuotientOf(q: real, a: real, d: real)
    requires d > 0.0 && q * d == a
    ensures a / d == q
  {
  }

  lemma Reciprocal(n: real, a: real, g: real)
    requires n > 0.0 && g == 1.0 / n
    ensures g > 0.0 && a / n == g * a
  {
    assert g * n == 1.0;
    Associate(a, g, n);
    QuotientOf(g * a, a, n);
  }

  lemma {:induction false} DotAppend(a: seq<real>, b: seq<real>, c: seq<real>, d: seq<real>)
    requires |a| == |c| && |b| == |d|
    ensures Dot(a + b, c + d) == Dot(a, c) + Dot(b, d)
  {
    if b == [] {
      assert a + b == a && c + d == c;
    } else {
      assert Front(a + b) == a + Front(b) && Front(c + d) == c + Front(d);
      DotAppend(a, Front(b), c, Front(d));
    }
  }
}
