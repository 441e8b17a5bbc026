/** The blocked log-softmax loss and its in-place backward pass (`specforge/core/loss.py`) against the one-line
    reference, over the reals. `exp` and `log` are any functions with the laws the kernels rely on. */
module LogSoftmaxLoss {
  import opened Prelude
  import opened RealVectors

  /** The running maximum starts at `-inf`. */
  datatype Bound = NegInf | Fin(value: real)

  datatype Fns = Fns(exp: real -> real, log: real -> real) {
    ghost predicate Sum(x: real, y: real) { exp(x + y) == exp(x) * exp(y) }
    ghost predicate Inverse(x: real) { log(exp(x)) == x }
    ghost predicate Product(a: real, b: real) { a > 0.0 && b > 0.0 ==> log(a * b) == log(a) + log(b) }
    ghost predicate Tangent(x: real) { exp(x) >= 1.0 + x }
    ghost predicate Monotone(a: real, b: real) { 0.0 < a <= b ==> log(a) <= log(b) }

    /** Laws of the exponential and of the logarithm as its inverse. */
    ghost predicate Lawful() {
      && (forall x :: exp(x) > 0.0)
      && (forall x, y :: Sum(x, y))
      && (forall x :: Inverse(x))
      && (forall a, b :: Product(a, b))
    }

    /** Needed only where the gradient is compared with the loss: `exp` lies above its tangent at 0. */
    ghost predicate Convex() {
      && (forall x :: Tangent(x))
      && (forall a, b :: Monotone(a, b))
    }
  }

  // ---------------------------------------------------------------- sums along a row

  /** `sum(exp(x - m))`. */
  function SumExp(f: Fns, x: seq<real>, m: real): real {
    if x == [] then 0.0 else SumExp(f, Front(x), m) + f.exp(Last(x) - m)
  }

  /** `sum(t * ((x - m) - l))`. */
  function Shifted(x: seq<real>, t: seq<real>, m: real, l: real): real
    requires |x| == |t|
  {
    if x == [] then 0.0 else Shifted(Front(x), Front(t), m, l) + Last(t) * ((Last(x) - m) - l)
  }

  lemma {:induction false} SumExpAppend(f: Fns, a: seq<real>, b: seq<real>, m: real)
    ensures SumExp(f, a + b, m) == SumExp(f, a, m) + SumExp(f, b, m)
  {
    if b == [] {
      assert a + b == a;
    } else {
      assert Front(a + b) == a + Front(b);
      SumExpAppend(f, a, Front(b), m);
    }
  }

  /** Changing the reference point rescales the sum; this is the step of the online pass. */
  lemma {:induction false} Rebase(f: Fns, x: seq<real>, m: real, m': real, scale: real)
    requires f.Lawful() && scale == f.exp(m - m')
    ensures SumExp(f, x, m) * scale == SumExp(f, x, m')
  {
    if x != [] {
      Rebase(f, Front(x), m, m', scale);
      assert f.Sum(Last(x) - m, m - m');
      assert (Last(x) - m) + (m - m') == Last(x) - m';
      Distribute(SumExp(f, Front(x), m), f.exp(Last(x) - m), scale);
    }
  }

  lemma {:induction false} SumExpPositive(f: Fns, x: seq<real>, m: real)
    requires f.Lawful()
    ensures SumExp(f, x, m) >= 0.0
    ensures x != [] ==> SumExp(f, x, m) > 0.0
  {
    if x != [] {
      SumExpPositive(f, Front(x), m);
      assert f.exp(Last(x) - m) > 0.0;
    }
  }

  // ---------------------------------------------------------------- the online pass

  ghost predicate IsMax(m: real, x: seq<real>) {
    (exists i :: 0 <= i < |x| && x[i] == m) && forall i :: 0 <= i < |x| ==> x[i] <= m
  }

  /** `tl.max` of a block. */
  function BlockMax(x: seq<real>): (m: real)
    requires x != []
    ensures IsMax(m, x)
  {
    if |x| == 1 then assert x[0] == x[0]; x[0]
    else
      var m := BlockMax(Front(x));
      if m >= Last(x) then m else assert x[|x| - 1] == Last(x); Last(x)
  }

  /** What the pass knows about the columns read so far. */
  ghost predicate Stats(f: Fns, x: seq<real>, m: Bound, d: real) {
    if x == [] then m == NegInf && d == 0.0
    else m.Fin? && IsMax(m.value, x) && d == SumExp(f, x, m.value) && d > 0.0
  }

  /** Lines 81-86: one block folded into the running maximum and normaliser; `exp(-inf - m_new)` is 0. */
  function Fold(f: Fns, m: Bound, d: real, block: seq<real>): (r: (real, real))
    requires block != []
  {
    var blockMax := BlockMax(block);
    var mNew := if m == NegInf || blockMax >= m.value then blockMax else m.value;
    var scale := if m == NegInf then 0.0 else f.exp(m.value - mNew);
    (mNew, d * scale + SumExp(f, block, mNew))
  }

  lemma OnlineStep(f: Fns, x: seq<real>, m: Bound, d: real, block: seq<real>)
    requires f.Lawful() && block != [] && Stats(f, x, m, d)
    ensures var (m', d') := Fold(f, m, d, block);
            Stats(f, x + block, Fin(m'), d')
  {
    OnlineMax(f, x, m, d, block);
    OnlineSum(f, x, m, d, block);
  }

  lemma OnlineMax(f: Fns, x: seq<real>, m: Bound, d: real, block: seq<real>)
    requires block != [] && if x == [] then m == NegInf else m.Fin? && IsMax(m.value, x)
    ensures IsMax(Fold(f, m, d, block).0, x + block)
  {
    MaxAppend(x, block, if m.Fin? then m.value else 0.0, Fold(f, m, d, block).0);
  }

  lemma OnlineSum(f: Fns, x: seq<real>, m: Bound, d: real, block: seq<real>)
    requires f.Lawful() && block != [] && Stats(f, x, m, d)
    ensures var (m', d') := Fold(f, m, d, block); d' == SumExp(f, x + block, m') && d' > 0.0
  {
    var (m', d') := Fold(f, m, d, block);
    SumExpAppend(f, x, block, m');
    SumExpPositive(f, x + block, m');
    FoldSum(f, x, m, d, m', if m.Fin? then f.exp(m.value - m') else 0.0);
  }

  /** The rescaled normaliser is the sum so far at the new reference point. */
  lemma FoldSum(f: Fns, x: seq<real>, m: Bound, d: real, m': real, scale: real)
    requires f.Lawful() && Stats(f, x, m, d) && scale == if m.Fin? then f.exp(m.value - m') else 0.0
    ensures d * scale == SumExp(f, x, m')
  {
    if m.Fin? {
      Rebase(f, x, m.value, m', scale);
    }
  }

  lemma MaxAppend(x: seq<real>, block: seq<real>, m: real, m': real)
    requires block != [] && (x != [] ==> IsMax(m, x))
    requires m' == if x == [] || BlockMax(block) >= m then BlockMax(block) else m
    ensures IsMax(m', x + block)
  {
    var k := BlockMax(block);
    var all := x + block;
    if m' == k {
      var i :| 0 <= i < |block| && block[i] == k;
      assert all[|x| + i] == m';
    } else {
      var i :| 0 <= i < |x| && x[i] == m;
      assert all[i] == m';
    }
    forall i | 0 <= i < |all| ensures all[i] <= m' {
      if i >= |x| {
        assert all[i] == block[i - |x|];
      }
    }
  }

  /** Lines 72-86: running maximum and normaliser, one block at a time. */
  method OnlinePass(f: Fns, x: seq<real>, blockSize: nat) returns (m: Bound, d: real)
    requires f.Lawful() && blockSize >= 1
    ensures Stats(f, x, m, d)
  {
    m, d := NegInf, 0.0;
    var i := 0;
    while i < |x|
      invariant 0 <= i <= |x|
      invariant Stats(f, x[..i], m, d)
    {
      var hi := Min(i + blockSize, |x|);
      var block := x[i..hi];
      var folded := Fold(f, m, d, block);
      assert x[..hi] == x[..i] + block;
      OnlineStep(f, x[..i], m, d, block);
      m, d := Fin(folded.0), folded.1;
      i := hi;
    }
    assert x[..i] == x;
  }

  // ---------------------------------------------------------------- the reference

  /** `exp(x_j) / sum(exp(x))`. */
  function Softmax(f: Fns, x: seq<real>, j: nat): real
    requires j < |x| && SumExp(f, x, 0.0) != 0.0
  {
    f.exp(x[j]) / SumExp(f, x, 0.0)
  }

  /** `sum(t * log(exp(x) / s))`: the target-weighted log-probabilities, `s` being the row's normaliser. */
  function WeightedLog(f: Fns, x: seq<real>, t: seq<real>, s: real): real
    requires |x| == |t| && s != 0.0
  {
    if x == [] then 0.0 else WeightedLog(f, Front(x), Front(t), s) + Last(t) * f.log(f.exp(Last(x)) / s)
  }

  /** Reference value of one unmasked row. */
  ghost function RowLoss(f: Fns, x: seq<real>, t: seq<real>): real
    requires f.Lawful() && |x| == |t|
  {
    if x == [] then 0.0
    else
      SumExpPositive(f, x, 0.0);
      -WeightedLog(f, x, t, SumExp(f, x, 0.0))
  }

  lemma LogProduct(f: Fns, a: real, b: real, c: real)
    requires f.Lawful() && a > 0.0 && b > 0.0 && c == a * b
    ensures f.log(c) == f.log(a) + f.log(b)
  {
    assert f.Product(a, b);
  }

  lemma Quotient(a: real, s: real)
    requires a > 0.0 && s > 0.0
    ensures (a / s) * s == a && a / s > 0.0
  {
  }

  lemma LogQuotient(f: Fns, x: real, s: real)
    requires f.Lawful() && s > 0.0
    ensures f.log(f.exp(x) / s) == x - f.log(s)
  {
    var e := f.exp(x);
    assert e > 0.0;
    Quotient(e, s);
    LogProduct(f, e / s, s, e);
    assert f.Inverse(x);
  }

  lemma {:induction false} WeightedLogIsLinear(f: Fns, x: seq<real>, t: seq<real>, s: real)
    requires f.Lawful() && |x| == |t| && s > 0.0
    ensures WeightedLog(f, x, t, s) == Dot(t, x) - Total(t) * f.log(s)
  {
    if x != [] {
      WeightedLogIsLinear(f, Front(x), Front(t), s);
      LogQuotient(f, Last(x), s);
      LinearStep(Last(t), Last(x), f.log(s), Total(Front(t)));
    }
  }

  lemma LinearStep(t: real, x: real, l: real, total: real)
    ensures t * (x - l) == t * x - t * l
    ensures (total + t) * l == total * l + t * l
  {
  }

  lemma {:induction false} ShiftedIsLinear(x: seq<real>, t: seq<real>, m: real, l: real, c: real)
    requires |x| == |t| && c == m + l
    ensures Shifted(x, t, m, l) == Dot(t, x) - Total(t) * c
  {
    if x != [] {
      ShiftedIsLinear(Front(x), Front(t), m, l, c);
      assert (Last(x) - m) - l == Last(x) - c;
      LinearStep(Last(t), Last(x), c, Total(Front(t)));
    }
  }

  /** Subtracting the maximum first changes nothing. */
  lemma NormaliserShift(f: Fns, x: seq<real>, m: real, e: real)
    requires f.Lawful() && x != [] && e == f.exp(m)
    ensures SumExp(f, x, m) > 0.0 && SumExp(f, x, 0.0) > 0.0 && e > 0.0
    ensures SumExp(f, x, 0.0) == SumExp(f, x, m) * e
    ensures f.log(SumExp(f, x, 0.0)) == m + f.log(SumExp(f, x, m))
  {
    assert m - 0.0 == m;
    Rebase(f, x, m, 0.0, e);
    SumExpPositive(f, x, m);
    SumExpPositive(f, x, 0.0);
    LogProduct(f, SumExp(f, x, m), e, SumExp(f, x, 0.0));
    assert f.Inverse(m);
  }

  /** The kernel's per-row value, computed with the shifted normaliser, is the reference row. */
  lemma KernelRowIsReference(f: Fns, x: seq<real>, t: seq<real>, m: real)
    requires f.Lawful() && |x| == |t| && x != []
    ensures SumExp(f, x, m) > 0.0
    ensures -Shifted(x, t, m, f.log(SumExp(f, x, m))) == RowLoss(f, x, t)
  {
    var s := SumExp(f, x, 0.0);
    NormaliserShift(f, x, m, f.exp(m));
    ShiftedIsLinear(x, t, m, f.log(SumExp(f, x, m)), f.log(s));
    RowLossForm(f, x, t, Total(t), f.log(s));
  }

  lemma {:induction false} ShiftedAppend(x: seq<real>, t: seq<real>, x': seq<real>, t': seq<real>, m: real, l: real)
    requires |x| == |t| && |x'| == |t'|
    ensures Shifted(x + x', t + t', m, l) == Shifted(x, t, m, l) + Shifted(x', t', m, l)
  {
    if x' == [] {
      assert x + x' == x && t + t' == t;
    } else {
      assert Front(x + x') == x + Front(x') && Front(t + t') == t + Front(t');
      ShiftedAppend(x, t, Front(x'), Front(t'), m, l);
    }
  }

  // ---------------------------------------------------------------- forward

  ghost predicate Matrix(rows: seq<seq<real>>, n: nat, cols: nat) {
    |rows| == n && forall r :: 0 <= r < n ==> |rows[r]| == cols
  }

  /** `log_softmax_forward_kernel` for program `pid`; a masked row leaves its zero-initialised cells alone. */
  method ForwardKernel(f: Fns, logits: seq<seq<real>>, target: seq<seq<real>>, positionMask: seq<int>, n: nat,
                       cols: nat, blockSize: nat, pid: nat, loss: array<real>, m: array<Bound>, d: array<real>)
    requires f.Lawful() && blockSize >= 1 && pid < n && |positionMask| == n
    requires Matrix(logits, n, cols) && Matrix(target, n, cols)
    requires loss.Length == m.Length == d.Length == n && loss != d
    modifies loss, m, d
    ensures loss[..]
         == old(loss[..])[pid := if positionMask[pid] == 0 then old(loss[pid])
             else RowLoss(f, logits[pid], target[pid])]
    ensures positionMask[pid] == 0 ==> m[..] == old(m[..]) && d[..] == old(d[..])
    ensures positionMask[pid] != 0 ==>
              m[..] == old(m[..])[pid := m[pid]] && d[..] == old(d[..])[pid := d[pid]]
                && Stats(f, logits[pid], m[pid], d[pid])
  {
    if positionMask[pid] == 0 {
      return;
    }
    var x, t := logits[pid], target[pid];
    var rowMax, rowSum := OnlinePass(f, x, blockSize);
    var total := SecondPass(f, x, t, rowMax, rowSum, blockSize);
    loss[pid] := -total;
    m[pid] := rowMax;
    d[pid] := rowSum;
  }

  /** Lines 88-103: the weighted log-probabilities, accumulated block by block. */
  method SecondPass(f: Fns, x: seq<real>, t: seq<real>, m: Bound, d: real, blockSize: nat) returns (total: real)
    requires f.Lawful() && blockSize >= 1 && |x| == |t| && Stats(f, x, m, d)
    ensures -total == RowLoss(f, x, t)
  {
    total := 0.0;
    var i := 0;
    while i < |x|
      invariant 0 <= i <= |x|
      invariant x == [] ==> total == 0.0
      invariant x != [] ==> total == Shifted(x[..i], t[..i], m.value, f.log(d))
    {
      var hi := Min(i + blockSize, |x|);
      ShiftedAppend(x[..i], t[..i], x[i..hi], t[i..hi], m.value, f.log(d));
      assert x[..hi] == x[..i] + x[i..hi] && t[..hi] == t[..i] + t[i..hi];
      total := total + Shifted(x[i..hi], t[i..hi], m.value, f.log(d));
      i := hi;
    }
    if x != [] {
      assert x[..i] == x && t[..i] == t;
      KernelRowIsReference(f, x, t, m.value);
    }
  }

  /** Row losses where the mask is set, zeros elsewhere. */
  ghost function RowLosses(f: Fns, logits: seq<seq<real>>, target: seq<seq<real>>,
                           positionMask: seq<int>): (r: seq<real>)
    requires f.Lawful() && |logits| == |target| == |positionMask|
    requires forall i :: 0 <= i < |logits| ==> |logits[i]| == |target[i]|
    ensures |r| == |logits|
  {
    seq(|logits|, i requires 0 <= i < |logits| => if positionMask[i] == 0 then 0.0
        else RowLoss(f, logits[i], target[i]))
  }

  /** `_compute_loss`: every row multiplied by its mask value, then averaged. */
  ghost function ReferenceLoss(f: Fns, logits: seq<seq<real>>, target: seq<seq<real>>, positionMask: seq<int>): real
    requires f.Lawful() && |logits| == |target| == |positionMask| > 0
    requires forall i :: 0 <= i < |logits| ==> |logits[i]| == |target[i]|
  {
    Total(seq(|logits|, i requires 0 <= i < |logits| => (positionMask[i] as real) * RowLoss(f, logits[i], target[i])))
      / (|logits| as real)
  }

  /** The value the kernel launch averages to. */
  ghost function MeanLoss(f: Fns, logits: seq<seq<real>>, target: seq<seq<real>>, positionMask: seq<int>): real
    requires f.Lawful() && |logits| == |target| == |positionMask| > 0
    requires forall i :: 0 <= i < |logits| ==> |logits[i]| == |target[i]|
  {
    Total(RowLosses(f, logits, target, positionMask)) / (|logits| as real)
  }

  ghost predicate ZeroOne(mask: seq<int>) {
    forall i :: 0 <= i < |mask| ==> mask[i] == 0 || mask[i] == 1
  }

  lemma ReferenceOnZeroOne(f: Fns, logits: seq<seq<real>>, target: seq<seq<real>>, positionMask: seq<int>)
    requires f.Lawful() && |logits| == |target| == |positionMask| > 0
    requires forall i :: 0 <= i < |logits| ==> |logits[i]| == |target[i]|
    ensures ZeroOne(positionMask) ==>
              MeanLoss(f, logits, target, positionMask) == ReferenceLoss(f, logits, target, positionMask)
  {
    var weighted := seq(|logits|,
                        i requires 0 <= i < |logits| => (positionMask[i] as real) * RowLoss(f, logits[i], target[i]));
    if ZeroOne(positionMask) {
      assert RowLosses(f, logits, target, positionMask) == weighted;
    }
  }

  /** `LogSoftmaxLoss.forward`: one program per row, then the mean. Programs write disjoint cells. */
  method Forward(f: Fns, logits: seq<seq<real>>, target: seq<seq<real>>, positionMask: seq<int>, cols: nat,
                 blockSize: nat)
    returns (mean: real, m: array<Bound>, d: array<real>)
    requires f.Lawful() && blockSize >= 1 && |positionMask| == |logits| > 0
    requires Matrix(logits, |logits|, cols) && Matrix(target, |logits|, cols)
    ensures ZeroOne(positionMask) ==> mean == ReferenceLoss(f, logits, target, positionMask)
    ensures mean == MeanLoss(f, logits, target, positionMask)
    ensures m.Length == d.Length == |logits|
    ensures forall r :: 0 <= r < |logits| && positionMask[r] != 0 ==> Stats(f, logits[r], m[r], d[r])
  {
    var loss;
    loss, m, d := LaunchRows(f, logits, target, positionMask, cols, blockSize);
    mean := Total(loss[..]) / (|logits| as real);
    ReferenceOnZeroOne(f, logits, target, positionMask);
  }

  /** The kernel launch: one program per row. */
  method LaunchRows(f: Fns, logits: seq<seq<real>>, target: seq<seq<real>>, positionMask: seq<int>, cols: nat,
                    blockSize: nat)
    returns (loss: array<real>, m: array<Bound>, d: array<real>)
    requires f.Lawful() && blockSize >= 1 && |positionMask| == |logits| > 0
    requires Matrix(logits, |logits|, cols) && Matrix(target, |logits|, cols)
    ensures loss[..] == RowLosses(f, logits, target, positionMask)
    ensures m.Length == d.Length == |logits|
    ensures forall r :: 0 <= r < |logits| && positionMask[r] != 0 ==> Stats(f, logits[r], m[r], d[r])
  {
    var n := |logits|;
    loss := new real[n](i => 0.0);
    m := new Bound[n](i => Fin(0.0));
    d := new real[n](i => 0.0);
    ghost var rows := RowLosses(f, logits, target, positionMask);
    for pid := 0 to n
      invariant forall r :: 0 <= r < n ==> loss[r] == if r < pid then rows[r] else 0.0
      invariant forall r :: 0 <= r < pid && positionMask[r] != 0 ==> Stats(f, logits[r], m[r], d[r])
    {
      LaunchRow(f, logits, target, positionMask, cols, blockSize, pid, loss, m, d);
      assert rows[pid] == if positionMask[pid] == 0 then 0.0 else RowLoss(f, logits[pid], target[pid]);
    }
    assert loss[..] == rows;
  }

  /** One program, cell by cell. */
  method LaunchRow(f: Fns, logits: seq<seq<real>>, target: seq<seq<real>>, positionMask: seq<int>, cols: nat,
                   blockSize: nat, pid: nat, loss: array<real>, m: array<Bound>, d: array<real>)
    requires f.Lawful() && blockSize >= 1 && |positionMask| == |logits| && pid < |logits|
    requires Matrix(logits, |logits|, cols) && Matrix(target, |logits|, cols)
    requires loss.Length == m.Length == d.Length == |logits| && loss != d
    modifies loss, m, d
    ensures forall r :: 0 <= r < loss.Length && r != pid ==>
              loss[r] == old(loss[r]) && m[r] == old(m[r]) && d[r] == old(d[r])
    ensures loss[pid] == if positionMask[pid] == 0 then old(loss[pid]) else RowLoss(f, logits[pid], target[pid])
    ensures positionMask[pid] != 0 ==> Stats(f, logits[pid], m[pid], d[pid])
  {
    ghost var m0, d0, loss0 := m[..], d[..], loss[..];
    ForwardKernel(f, logits, target, positionMask, |logits|, cols, blockSize, pid, loss, m, d);
    forall r | 0 <= r < loss.Length && r != pid ensures loss[r] == loss0[r] && m[r] == m0[r] && d[r] == d0[r] {
      assert loss[..][r] == loss0[r] && m[..][r] == m0[r] && d[..][r] == d0[r];
    }
    assert loss[..][pid] == loss[pid];
  }

  // ---------------------------------------------------------------- backward

  /** Cell `j` of the gradient of `g * RowLoss`: `g * (softmax(x)_j * sum(t) - t_j)`. */
  ghost function GradCell(f: Fns, x: seq<real>, t: seq<real>, g: real, j: nat): real
    requires f.Lawful() && |x| == |t| && j < |x|
  {
    SumExpPositive(f, x, 0.0);
    g * (Softmax(f, x, j) * Total(t) - t[j])
  }

  function Scaled(t: seq<real>, g: real): real {
    if t == [] then 0.0 else Scaled(Front(t), g) + Last(t) * g
  }

  lemma {:induction false} ScaledAppend(a: seq<real>, b: seq<real>, g: real)
    ensures Scaled(a + b, g) == Scaled(a, g) + Scaled(b, g)
  {
    if b == [] {
      assert a + b == a;
    } else {
      assert Front(a + b) == a + Front(b);
      ScaledAppend(a, Front(b), g);
    }
  }

  lemma {:induction false} ScaledIsProduct(t: seq<real>, g: real)
    ensures Scaled(t, g) == Total(t) * g
  {
    if t != [] {
      ScaledIsProduct(Front(t), g);
      Distribute(Total(Front(t)), Last(t), g);
    }
  }

  lemma RatioCancel(a: real, d: real, e: real, a': real, d': real)
    requires d > 0.0 && e > 0.0 && a' == a * e && d' == d * e
    ensures d' > 0.0 && a' / d' == a / d
  {
    var q := a / d;
    assert q * d == a;
    assert q * d' == a' by {
      Associate(q, d, e);
    }
    QuotientOf(q, a', d');
  }

  /** The probability computed from the saved maximum and normaliser is the softmax of the original row. */
  lemma SavedStatsGiveSoftmax(f: Fns, x: seq<real>, m: real, d: real, j: nat)
    requires f.Lawful() && j < |x| && d == SumExp(f, x, m) && d > 0.0
    ensures SumExp(f, x, 0.0) > 0.0 && f.exp(x[j] - m) / d == Softmax(f, x, j)
  {
    var e := f.exp(m);
    NormaliserShift(f, x, m, e);
    SoftmaxOf(f, x[j], m, e, d, SumExp(f, x, 0.0));
  }

  lemma SoftmaxOf(f: Fns, x: real, m: real, e: real, d: real, z: real)
    requires f.Lawful() && e == f.exp(m) && e > 0.0 && d > 0.0 && z == d * e
    ensures z > 0.0 && f.exp(x - m) / d == f.exp(x) / z
  {
    ExpSplit(f, x, m, e);
    RatioCancel(f.exp(x - m), d, e, f.exp(x), z);
  }

  lemma ExpSplit(f: Fns, x: real, m: real, e: real)
    requires f.Lawful() && e == f.exp(m)
    ensures f.exp(x) == f.exp(x - m) * e
  {
    assert f.Sum(x - m, m);
    assert (x - m) + m == x;
  }

  lemma GradientForm(p: real, total: real, t: real, g: real, s: real)
    requires s == total * g
    ensures -(t * g - p * s) == g * (p * total - t)
  {
    Associate(p, total, g);
    Distribute(p * total, -t, g);
  }

  /** Lines 167-169 for one column. */
  function KernelCell(f: Fns, x: real, t: real, g: real, s: real, m: real, d: real): real
    requires d > 0.0
  {
    var softmaxProb := f.exp(x - m) / d;
    var normalizedGrad := softmaxProb * s;
    -(t * g - normalizedGrad)
  }

  lemma KernelCellIsGradient(f: Fns, x: seq<real>, t: seq<real>, g: real, s: real, m: real, d: real, j: nat)
    requires f.Lawful() && |x| == |t| && j < |x| && d == SumExp(f, x, m) && d > 0.0 && s == Total(t) * g
    ensures KernelCell(f, x[j], t[j], g, s, m, d) == GradCell(f, x, t, g, j)
  {
    SavedStatsGiveSoftmax(f, x, m, d, j);
    GradientForm(f.exp(x[j] - m) / d, Total(t), t[j], g, s);
  }

  /** Lines 147-155: `sum(target * grad_output)`. */
  method TargetGradSum(t: seq<real>, g: real, blockSize: nat) returns (s: real)
    requires blockSize >= 1
    ensures s == Total(t) * g
  {
    s := 0.0;
    var i := 0;
    while i < |t|
      invariant 0 <= i <= |t|
      invariant s == Scaled(t[..i], g)
    {
      var hi := Min(i + blockSize, |t|);
      ScaledAppend(t[..i], t[i..hi], g);
      assert t[..hi] == t[..i] + t[i..hi];
      s := s + Scaled(t[i..hi], g);
      i := hi;
    }
    assert t[..i] == t;
    ScaledIsProduct(t, g);
  }

  /** Row `r` of the buffer. */
  ghost function RowOf(a: array2<real>, r: nat): (s: seq<real>)
    requires r < a.Length0
    reads a
    ensures |s| == a.Length1
    ensures forall j :: 0 <= j < a.Length1 ==> s[j] == a[r, j]
  {
    seq(a.Length1, j requires 0 <= j < a.Length1 reads a => a[r, j])
  }

  /** Lines 133-138: a masked row's gradient is zero. */
  method ClearRow(logits: array2<real>, pid: nat, blockSize: nat)
    requires pid < logits.Length0 && blockSize >= 1
    modifies logits
    ensures forall j :: 0 <= j < logits.Length1 ==> logits[pid, j] == 0.0
    ensures forall r, j :: 0 <= r < logits.Length0 && r != pid && 0 <= j < logits.Length1 ==>
              logits[r, j] == old(logits[r, j])
  {
    var cols := logits.Length1;
    var i := 0;
    while i < cols
      invariant 0 <= i <= cols
      invariant forall j :: 0 <= j < i ==> logits[pid, j] == 0.0
      invariant forall r, j :: 0 <= r < logits.Length0 && r != pid && 0 <= j < cols ==>
                  logits[r, j] == old(logits[r, j])
    {
      var hi := Min(i + blockSize, cols);
      forall j | i <= j < hi { logits[pid, j] := 0.0; }
      i := hi;
    }
  }

  /** Lines 157-170: gradients stored over the logits they are computed from, block by block. */
  method GradientPass(f: Fns, logits: array2<real>, t: seq<real>, pid: nat, g: real, s: real, m: real, d: real,
                      blockSize: nat)
    requires f.Lawful() && blockSize >= 1 && pid < logits.Length0 && |t| == logits.Length1 > 0
    requires Stats(f, RowOf(logits, pid), Fin(m), d) && s == Total(t) * g
    modifies logits
    ensures forall j :: 0 <= j < logits.Length1 ==> logits[pid, j] == GradCell(f, old(RowOf(logits, pid)), t, g, j)
    ensures forall r, j :: 0 <= r < logits.Length0 && r != pid && 0 <= j < logits.Length1 ==>
              logits[r, j] == old(logits[r, j])
  {
    var cols := logits.Length1;
    ghost var x := RowOf(logits, pid);
    var i := 0;
    while i < cols
      invariant 0 <= i <= cols
      invariant forall j :: 0 <= j < i ==> logits[pid, j] == GradCell(f, x, t, g, j)
      invariant forall j :: i <= j < cols ==> logits[pid, j] == x[j]
      invariant forall r, j :: 0 <= r < logits.Length0 && r != pid && 0 <= j < cols ==>
                  logits[r, j] == old(logits[r, j])
    {
      var hi := Min(i + blockSize, cols);
      forall j | i <= j < hi ensures KernelCell(f, x[j], t[j], g, s, m, d) == GradCell(f, x, t, g, j) {
        KernelCellIsGradient(f, x, t, g, s, m, d, j);
      }
      forall j | i <= j < hi { logits[pid, j] := KernelCell(f, logits[pid, j], t[j], g, s, m, d); }
      i := hi;
    }
  }

  /** What the buffer holds after the backward pass: gradients of the mean loss, row by row. */
  ghost function Gradient(f: Fns, logits: seq<seq<real>>, target: seq<seq<real>>, positionMask: seq<int>, g: real,
                          r: nat, j: nat): real
    requires f.Lawful() && |logits| == |target| == |positionMask| && r < |logits| && |logits[r]| == |target[r]|
          && j < |logits[r]|
  {
    if positionMask[r] == 0 then 0.0 else GradCell(f, logits[r], target[r], g, j)
  }

  ghost function RowsOf(a: array2<real>): (rows: seq<seq<real>>)
    reads a
    ensures |rows| == a.Length0
    ensures forall r :: 0 <= r < a.Length0 ==> rows[r] == RowOf(a, r)
  {
    seq(a.Length0, r requires 0 <= r < a.Length0 reads a => RowOf(a, r))
  }

  /** `log_softmax_backward_kernel` for program `pid`. */
  method BackwardKernel(f: Fns, logits: array2<real>, target: seq<seq<real>>, positionMask: seq<int>, gradOutput: real,
                        scalingFactor: real, m: array<Bound>, d: array<real>, blockSize: nat, pid: nat)
    requires f.Lawful() && blockSize >= 1 && pid < logits.Length0
    requires |positionMask| == m.Length == d.Length == logits.Length0 && Matrix(target, logits.Length0, logits.Length1)
    requires positionMask[pid] != 0 ==> Stats(f, RowOf(logits, pid), m[pid], d[pid])
    modifies logits
    ensures forall j :: 0 <= j < logits.Length1 ==>
              logits[pid, j] == if positionMask[pid] == 0 then 0.0
                                else GradCell(f, old(RowOf(logits, pid)), target[pid], gradOutput * scalingFactor, j)
    ensures forall r, j :: 0 <= r < logits.Length0 && r != pid && 0 <= j < logits.Length1 ==>
              logits[r, j] == old(logits[r, j])
  {
    if positionMask[pid] == 0 {
      ClearRow(logits, pid, blockSize);
      return;
    }
    var g := gradOutput * scalingFactor;
    var s := TargetGradSum(target[pid], g, blockSize);
    if logits.Length1 > 0 {
      GradientPass(f, logits, target[pid], pid, g, s, m[pid].value, d[pid], blockSize);
    }
  }

  /** `LogSoftmaxLoss.backward`: afterwards the buffer that held the logits holds their gradient. */
  method Backward(f: Fns, logits: array2<real>, target: seq<seq<real>>, positionMask: seq<int>, gradOutput: real,
                  m: array<Bound>, d: array<real>, blockSize: nat)
    requires f.Lawful() && blockSize >= 1 && logits.Length0 > 0
    requires |positionMask| == m.Length == d.Length == logits.Length0 && Matrix(target, logits.Length0, logits.Length1)
    requires forall r :: 0 <= r < logits.Length0 && positionMask[r] != 0 ==> Stats(f, RowOf(logits, r), m[r], d[r])
    modifies logits
    ensures forall r, j :: 0 <= r < logits.Length0 && 0 <= j < logits.Length1 ==>
              logits[r, j] == Gradient(f, old(RowsOf(logits)), target, positionMask,
                                       gradOutput * (1.0 / (logits.Length0 as real)), r, j)
  {
    var n := logits.Length0;
    var scalingFactor := 1.0 / (n as real);
    ghost var g := gradOutput * scalingFactor;
    ghost var rows := RowsOf(logits);
    for pid := 0 to n
      invariant forall r, j :: 0 <= r < pid && 0 <= j < logits.Length1 ==>
        logits[r, j] == Gradient(f, rows, target, positionMask, g, r, j)
      invariant forall r, j :: pid <= r < n && 0 <= j < logits.Length1 ==> logits[r, j] == rows[r][j]
    {
      assert RowOf(logits, pid) == rows[pid];
      BackwardKernel(f, logits, target, positionMask, gradOutput, scalingFactor, m, d, blockSize, pid);
    }
  }

  // ---------------------------------------------------------------- what the gradient means

  /** `sum_j exp(x_j) * v_j`. */
  function ExpDot(f: Fns, x: seq<real>, v: seq<real>): real
    requires |x| == |v|
  {
    if x == [] then 0.0 else ExpDot(f, Front(x), Front(v)) + f.exp(Last(x)) * Last(v)
  }

  function Minus(y: seq<real>, x: seq<real>): (v: seq<real>)
    requires |y| == |x|
    ensures |v| == |x|
  {
    seq(|x|, i requires 0 <= i < |x| => y[i] - x[i])
  }

  // Products of function values are named before they are compared: each lemma below speaks about plain reals that
  // its caller identifies with function values.

  lemma TermBound(f: Fns, x: real, v: real, c: real, e: real, p: real, q: real)
    requires f.Lawful() && f.Convex() && e == f.exp(c) && p == f.exp(x) && q == f.exp(x + v)
    ensures q >= (p * (1.0 + v - c)) * e
  {
    var a, b := f.exp(v), f.exp(v - c);
    assert f.Sum(x, v);
    assert f.Sum(v - c, c);
    assert (v - c) + c == v;
    assert q == p * a && a == b * e;
    assert f.Tangent(v - c);
    assert p > 0.0 && e > 0.0;
    ScaleInequality(b, 1.0 + v - c, e, p, a);
  }

  lemma ScaleInequality(b: real, low: real, e: real, p: real, a: real)
    requires b >= low && e > 0.0 && p > 0.0 && a == b * e
    ensures p * a >= (p * low) * e
  {
    var gap := (b - low) * e;
    assert gap >= 0.0 && gap == a - low * e;
    assert p * gap >= 0.0 && p * gap == p * a - p * (low * e);
    Associate(p, low, e);
  }

  lemma FrontOfMinus(y: seq<real>, x: seq<real>)
    requires |y| == |x| > 0
    ensures Front(Minus(y, x)) == Minus(Front(y), Front(x))
    ensures Last(Minus(y, x)) == Last(y) - Last(x)
  {
  }

  lemma BoundStep(s0: real, a0: real, s1: real, a1: real, c: real, e: real, p: real, v: real)
    requires s1 == s0 + p && a1 == a0 + p * v
    ensures (s0 + a0 - c * s0) * e + (p * (1.0 + v - c)) * e == (s1 + a1 - c * s1) * e
  {
    Distribute(s0 + a0 - c * s0, p * (1.0 + v - c), e);
    assert p * (1.0 + v - c) == p + p * v - c * p;
    assert c * s1 == c * s0 + c * p;
  }

  lemma ExpDotUnfold(f: Fns, x: seq<real>, v: seq<real>, p: real, w: real)
    requires |x| == |v| > 0 && p == f.exp(Last(x)) && w == Last(v)
    ensures ExpDot(f, x, v) == ExpDot(f, Front(x), Front(v)) + p * w
  {
  }

  /** The normaliser of `y` lies above its tangent at `x`. */
  lemma {:induction false} NormaliserAboveTangent(f: Fns, x: seq<real>, y: seq<real>, c: real, e: real, s: real,
                                                  a: real)
    requires f.Lawful() && f.Convex() && |x| == |y| && e == f.exp(c)
    requires s == SumExp(f, x, 0.0) && a == ExpDot(f, x, Minus(y, x))
    ensures SumExp(f, y, 0.0) >= (s + a - c * s) * e
  {
    if x == [] {
      assert c * 0.0 == 0.0 && 0.0 * e == 0.0;
    } else {
      var s0, a0 := SumExp(f, Front(x), 0.0), ExpDot(f, Front(x), Minus(Front(y), Front(x)));
      NormaliserAboveTangent(f, Front(x), Front(y), c, e, s0, a0);
      FrontOfMinus(y, x);
      var p, v, q := f.exp(Last(x)), Last(y) - Last(x), f.exp(Last(y));
      assert Last(x) + v == Last(y) && Last(y) - 0.0 == Last(y) && Last(x) - 0.0 == Last(x);
      ExpDotUnfold(f, x, Minus(y, x), p, v);
      TermBound(f, Last(x), v, c, e, p, q);
      BoundStep(s0, a0, s, a, c, e, p, v);
      assert SumExp(f, y, 0.0) == SumExp(f, Front(y), 0.0) + q;
    }
  }

  lemma TangentPoint(s: real, a: real, c: real, e: real, low: real, sy: real)
    requires s > 0.0 && c * s == a && low == s * e && sy >= (s + a - c * s) * e
    ensures sy >= low
  {
    assert s + a - c * s == s;
  }

  lemma LogOfScaled(f: Fns, s: real, sy: real, c: real, e: real, low: real)
    requires f.Lawful() && f.Convex() && s > 0.0 && e == f.exp(c) && low == s * e && sy >= low
    ensures f.log(sy) >= f.log(s) + c
  {
    assert e > 0.0;
    LogProduct(f, s, e, low);
    assert f.Inverse(c);
    assert low > 0.0;
    assert f.Monotone(low, sy);
  }

  /** Log-sum-exp is convex: its first-order bound, with `c` the softmax-weighted change of the logits. */
  lemma LogSumExpConvex(f: Fns, x: seq<real>, y: seq<real>, s: real, a: real, c: real)
    requires f.Lawful() && f.Convex() && |x| == |y| > 0
    requires s == SumExp(f, x, 0.0) && s > 0.0 && a == ExpDot(f, x, Minus(y, x)) && c * s == a
    ensures SumExp(f, y, 0.0) > 0.0
    ensures f.log(SumExp(f, y, 0.0)) >= f.log(s) + c
  {
    var e := f.exp(c);
    SumExpPositive(f, y, 0.0);
    NormaliserAboveTangent(f, x, y, c, e, s, a);
    TangentPoint(s, a, c, e, s * e, SumExp(f, y, 0.0));
    LogOfScaled(f, s, SumExp(f, y, 0.0), c, e, s * e);
  }

  // ---------------------------------------------------------------- the gradient as a subgradient

  function GradAt(f: Fns, x: real, t: real, g: real, s: real, total: real): real
    requires s > 0.0
  {
    g * (f.exp(x) / s * total - t)
  }

  /** One gradient row, with the row's normaliser `s` and target sum `total` given. */
  function GradRow(f: Fns, x: seq<real>, t: seq<real>, g: real, s: real, total: real): (r: seq<real>)
    requires |x| == |t| && s > 0.0
    ensures |r| == |x|
  {
    seq(|x|, j requires 0 <= j < |x| => GradAt(f, x[j], t[j], g, s, total))
  }

  /** `q` stands for the probability `exp(x) / s` of the last column, `c0`, `c1` for weighted sums without and with
      it. */
  lemma GradStep(g: real, q: real, total: real, t: real, v: real, c0: real, c1: real, d0: real, d1: real, cell: real)
    requires c1 == c0 + q * v && d1 == d0 + t * v && cell == g * (q * total - t)
    ensures g * (total * c0 - d0) + cell * v == g * (total * c1 - d1)
  {
    var qv := q * v;
    assert (q * total - t) * v == total * qv - t * v by {
      Associate(total, q, v);
      Distribute(q * total, -t, v);
    }
    Associate(g, q * total - t, v);
    assert total * c1 == total * c0 + total * qv;
    Distribute(total * c0 - d0, total * qv - t * v, g);
  }

  /** `sum_j (exp(x_j) / s) * v_j`. */
  function ProbDot(f: Fns, x: seq<real>, v: seq<real>, s: real): real
    requires |x| == |v| && s > 0.0
  {
    if x == [] then 0.0 else ProbDot(f, Front(x), Front(v), s) + (f.exp(Last(x)) / s) * Last(v)
  }

  lemma {:induction false} ProbDotIsQuotient(f: Fns, x: seq<real>, v: seq<real>, s: real, c: real)
    requires |x| == |v| && s > 0.0 && c == ProbDot(f, x, v, s)
    ensures c * s == ExpDot(f, x, v)
  {
    if x == [] {
      assert 0.0 * s == 0.0;
    } else {
      var c0 := ProbDot(f, Front(x), Front(v), s);
      ProbDotIsQuotient(f, Front(x), Front(v), s, c0);
      QuotientStep(c0, f.exp(Last(x)), Last(v), s);
    }
  }

  lemma QuotientStep(c: real, p: real, v: real, s: real)
    requires s > 0.0
    ensures (c + (p / s) * v) * s == c * s + p * v
  {
    var q := p / s;
    assert q * s == p;
    Distribute(c, q * v, s);
    Associate(q, v, s);
    Associate(q, s, v);
  }

  lemma {:induction false} GradRowDot(f: Fns, x: seq<real>, t: seq<real>, v: seq<real>, g: real, s: real, total: real,
                                      c: real, d: real)
    requires |x| == |t| == |v| && s > 0.0 && c == ProbDot(f, x, v, s) && d == Dot(t, v)
    ensures Dot(GradRow(f, x, t, g, s, total), v) == g * (total * c - d)
  {
    if x == [] {
      assert total * 0.0 == 0.0 && g * 0.0 == 0.0;
    } else {
      var row := GradRow(f, x, t, g, s, total);
      var c0, d0 := ProbDot(f, Front(x), Front(v), s), Dot(Front(t), Front(v));
      GradRowDot(f, Front(x), Front(t), Front(v), g, s, total, c0, d0);
      assert Front(row) == GradRow(f, Front(x), Front(t), g, s, total);
      var q, w := f.exp(Last(x)) / s, Last(v);
      GradStep(g, q, total, Last(t), w, c0, c, d0, d, Last(row));
    }
  }

  lemma RowLossForm(f: Fns, x: seq<real>, t: seq<real>, total: real, l: real)
    requires f.Lawful() && |x| == |t| > 0 && total == Total(t) && l == f.log(SumExp(f, x, 0.0))
    ensures RowLoss(f, x, t) == total * l - Dot(t, x)
  {
    var s := SumExp(f, x, 0.0);
    SumExpPositive(f, x, 0.0);
    RowLossIs(f, x, t, s);
    WeightedLogIsLinear(f, x, t, s);
  }

  lemma RowLossIs(f: Fns, x: seq<real>, t: seq<real>, s: real)
    requires f.Lawful() && |x| == |t| > 0 && s == SumExp(f, x, 0.0) && s > 0.0
    ensures RowLoss(f, x, t) == -WeightedLog(f, x, t, s)
  {
  }

  lemma SubgradientForm(g: real, total: real, lx: real, ly: real, c: real, dx: real, dy: real, dv: real, rx: real,
                        ry: real, gd: real)
    requires g >= 0.0 && total >= 0.0 && ly >= lx + c && dv == dy - dx
    requires rx == total * lx - dx && ry == total * ly - dy && gd == g * (total * c - dv)
    ensures g * ry >= g * rx + gd
  {
    var gap := ly - lx - c;
    assert total * gap >= 0.0;
    assert total * gap == total * ly - total * lx - total * c;
    var slack := ry - rx - (total * c - dv);
    assert slack >= 0.0;
    assert g * slack >= 0.0;
    assert g * slack == g * ry - g * rx - g * (total * c - dv);
  }

  lemma {:induction false} DotMinus(t: seq<real>, y: seq<real>, x: seq<real>)
    requires |t| == |y| == |x|
    ensures Dot(t, Minus(y, x)) == Dot(t, y) - Dot(t, x)
  {
    if t != [] {
      DotMinus(Front(t), Front(y), Front(x));
      FrontOfMinus(y, x);
      assert Last(t) * (Last(y) - Last(x)) == Last(t) * Last(y) - Last(t) * Last(x);
    }
  }

  /** The computed row is a subgradient of `g * RowLoss` at the original logits. */
  lemma RowSubgradient(f: Fns, x: seq<real>, y: seq<real>, t: seq<real>, g: real, s: real, rx: real, ry: real)
    requires f.Lawful() && f.Convex() && |x| == |y| == |t| > 0 && Total(t) >= 0.0 && g >= 0.0
    requires s == SumExp(f, x, 0.0) && s > 0.0 && rx == RowLoss(f, x, t) && ry == RowLoss(f, y, t)
    ensures g * ry >= g * rx + Dot(GradRow(f, x, t, g, s, Total(t)), Minus(y, x))
  {
    var v, total := Minus(y, x), Total(t);
    var c, d := ProbDot(f, x, v, s), Dot(t, v);
    ProbDotIsQuotient(f, x, v, s, c);
    LogSumExpConvex(f, x, y, s, ExpDot(f, x, v), c);
    var lx, ly := f.log(s), f.log(SumExp(f, y, 0.0));
    RowLossForm(f, x, t, total, lx);
    RowLossForm(f, y, t, total, ly);
    GradRowDot(f, x, t, v, g, s, total, c, d);
    DotMinus(t, y, x);
    SubgradientForm(g, total, lx, ly, c, Dot(t, x), Dot(t, y), d, rx, ry, Dot(GradRow(f, x, t, g, s, total), v));
  }

  // ---------------------------------------------------------------- the whole tensor

  ghost predicate SameShape(a: seq<seq<real>>, b: seq<seq<real>>) {
    |a| == |b| && forall r :: 0 <= r < |a| ==> |a[r]| == |b[r]| > 0
  }

  /** Row `r` of what `Backward` leaves in the buffer. */
  ghost function GradientRow(f: Fns, x: seq<real>, t: seq<real>, mask: int, g: real): (row: seq<real>)
    requires f.Lawful() && |x| == |t| > 0
    ensures |row| == |x|
  {
    SumExpPositive(f, x, 0.0);
    if mask == 0 then Repeat(0.0, |x|) else GradRow(f, x, t, g, SumExp(f, x, 0.0), Total(t))
  }

  lemma GradientRowIsGradient(f: Fns, logits: seq<seq<real>>, target: seq<seq<real>>, positionMask: seq<int>, g: real,
                              r: nat, j: nat)
    requires f.Lawful() && SameShape(logits, target) && |positionMask| == |logits| && r < |logits| && j < |logits[r]|
    ensures GradientRow(f, logits[r], target[r], positionMask[r], g)[j]
         == Gradient(f, logits, target, positionMask, g, r, j)
  {
    SumExpPositive(f, logits[r], 0.0);
  }

  /** `sum` over all cells of gradient times change of logits. */
  ghost function Change(f: Fns, logits: seq<seq<real>>, logits': seq<seq<real>>, target: seq<seq<real>>,
                        positionMask: seq<int>, g: real): real
    requires f.Lawful() && SameShape(logits, target) && SameShape(logits, logits') && |positionMask| == |logits|
  {
    if logits == [] then 0.0
    else
      Change(f, Front(logits), Front(logits'), Front(target), Front(positionMask), g) +
      Dot(GradientRow(f, Last(logits), Last(target), Last(positionMask), g), Minus(Last(logits'), Last(logits)))
  }

  lemma {:induction false} DotZero(n: nat, v: seq<real>)
    requires |v| == n
    ensures Dot(Repeat(0.0, n), v) == 0.0
  {
    if n > 0 {
      assert Front(Repeat(0.0, n)) == Repeat(0.0, n - 1);
      DotZero(n - 1, Front(v));
    }
  }

  lemma RowBound(f: Fns, x: seq<real>, y: seq<real>, t: seq<real>, mask: int, g: real, rx: real, ry: real)
    requires f.Lawful() && f.Convex() && |x| == |y| == |t| > 0 && Total(t) >= 0.0 && g >= 0.0
    requires rx == (if mask == 0 then 0.0 else RowLoss(f, x, t)) && ry == if mask == 0 then 0.0 else RowLoss(f, y, t)
    ensures g * ry >= g * rx + Dot(GradientRow(f, x, t, mask, g), Minus(y, x))
  {
    SumExpPositive(f, x, 0.0);
    if mask == 0 {
      DotZero(|x|, Minus(y, x));
    } else {
      RowSubgradient(f, x, y, t, g, SumExp(f, x, 0.0), rx, ry);
    }
  }

  lemma {:induction false} TensorBound(f: Fns, logits: seq<seq<real>>, logits': seq<seq<real>>, target: seq<seq<real>>,
                                       positionMask: seq<int>, g: real, a: real, b: real)
    requires f.Lawful() && f.Convex() && g >= 0.0
    requires SameShape(logits, target) && SameShape(logits, logits') && |positionMask| == |logits|
    requires forall r :: 0 <= r < |target| ==> Total(target[r]) >= 0.0
    requires a == Total(RowLosses(f, logits, target, positionMask))
    requires b == Total(RowLosses(f, logits', target, positionMask))
    ensures g * b >= g * a + Change(f, logits, logits', target, positionMask, g)
  {
    if logits == [] {
      assert a == 0.0 && b == 0.0;
    } else {
      var x, x', t, mask := Front(logits), Front(logits'), Front(target), Front(positionMask);
      var a0, b0 := Total(RowLosses(f, x, t, mask)), Total(RowLosses(f, x', t, mask));
      var rx, ry := LastRowLoss(f, logits, target, positionMask), LastRowLoss(f, logits', target, positionMask);
      RowLossesUnfold(f, logits, target, positionMask);
      RowLossesUnfold(f, logits', target, positionMask);
      TensorBound(f, x, x', t, mask, g, a0, b0);
      RowBound(f, Last(logits), Last(logits'), Last(target), Last(positionMask), g, rx, ry);
      AddBounds(g, a0, b0, rx, ry, a, b, Change(f, x, x', t, mask, g),
                Dot(GradientRow(f, Last(logits), Last(target), Last(positionMask), g),
                    Minus(Last(logits'), Last(logits))));
    }
  }

  ghost function LastRowLoss(f: Fns, logits: seq<seq<real>>, target: seq<seq<real>>, positionMask: seq<int>): real
    requires f.Lawful() && |logits| == |target| == |positionMask| > 0 && |Last(logits)| == |Last(target)|
  {
    if Last(positionMask) == 0 then 0.0 else RowLoss(f, Last(logits), Last(target))
  }

  lemma RowLossesUnfold(f: Fns, logits: seq<seq<real>>, target: seq<seq<real>>, positionMask: seq<int>)
    requires f.Lawful() && |logits| == |target| == |positionMask| > 0
    requires forall i :: 0 <= i < |logits| ==> |logits[i]| == |target[i]|
    ensures Total(RowLosses(f, logits, target, positionMask))
         == Total(RowLosses(f, Front(logits), Front(target), Front(positionMask)))
             + LastRowLoss(f, logits, target, positionMask)
  {
    var all := RowLosses(f, logits, target, positionMask);
    assert Front(all) == RowLosses(f, Front(logits), Front(target), Front(positionMask));
  }

  lemma AddBounds(g: real, a0: real, b0: real, rx: real, ry: real, a: real, b: real, c: real, d: real)
    requires g * b0 >= g * a0 + c && g * ry >= g * rx + d && a == a0 + rx && b == b0 + ry
    ensures g * b >= g * a + (c + d)
  {
    assert g * a == g * a0 + g * rx && g * b == g * b0 + g * ry;
  }

  /** The buffer left by `Backward` (upstream gradient 1) against the mean returned by `Forward`: for every other
      logits tensor the loss lies above the linearisation. A differentiable convex function has one such gradient. */
  lemma MeanSubgradient(f: Fns, logits: seq<seq<real>>, logits': seq<seq<real>>, target: seq<seq<real>>,
                        positionMask: seq<int>)
    requires f.Lawful() && f.Convex() && logits != []
    requires SameShape(logits, target) && SameShape(logits, logits') && |positionMask| == |logits|
    requires forall r :: 0 <= r < |target| ==> Total(target[r]) >= 0.0
    ensures MeanLoss(f, logits', target, positionMask)
         >= MeanLoss(f, logits, target, positionMask)
          + Change(f, logits, logits', target, positionMask, 1.0 / (|logits| as real))
  {
    var g := 1.0 / (|logits| as real);
    var a, b := Total(RowLosses(f, logits, target, positionMask)), Total(RowLosses(f, logits', target, positionMask));
    Reciprocal(|logits| as real, a, g);
    Reciprocal(|logits| as real, b, g);
    TensorBound(f, logits, logits', target, positionMask, g, a, b);
  }

  /** An unmasked row's gradient sums to zero. */
  lemma GradientSumsToZero(f: Fns, x: seq<real>, t: seq<real>, g: real)
    requires f.Lawful() && |x| == |t| > 0
    ensures Total(GradientRow(f, x, t, 1, g)) == 0.0
  {
    SumExpPositive(f, x, 0.0);
    var s, ones, total := SumExp(f, x, 0.0), Repeat(1.0, |x|), Total(t);
    var row := GradRow(f, x, t, g, s, total);
    DotOnes(row);
    DotOnes(t);
    var c := ProbDot(f, x, ones, s);
    ProbDotIsQuotient(f, x, ones, s, c);
    ExpDotOnes(f, x);
    UnitQuotient(c, s, ExpDot(f, x, ones));
    GradRowDot(f, x, t, ones, g, s, total, c, total);
  }

  lemma UnitQuotient(c: real, s: real, a: real)
    requires s > 0.0 && c * s == a && a == s
    ensures c == 1.0
  {
    assert (c - 1.0) * s == 0.0;
  }

  lemma {:induction false} DotOnes(s: seq<real>)
    ensures Dot(s, Repeat(1.0, |s|)) == Total(s)
  {
    if s != [] {
      assert Front(Repeat(1.0, |s|)) == Repeat(1.0, |s| - 1);
      DotOnes(Front(s));
    }
  }

  lemma {:induction false} ExpDotOnes(f: Fns, x: seq<real>)
    ensures ExpDot(f, x, Repeat(1.0, |x|)) == SumExp(f, x, 0.0)
  {
    if x != [] {
      assert Front(Repeat(1.0, |x|)) == Repeat(1.0, |x| - 1);
      assert Last(x) - 0.0 == Last(x);
      ExpDotOnes(f, Front(x));
    }
  }
}
