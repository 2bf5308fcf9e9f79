/** The in-place Walsh-Hadamard butterfly over exact reals. */
module Hadamard {
  import opened Arithmetic

  // ----- bits

  function And(a: nat, b: nat): nat {
    if a == 0 || b == 0 then 0 else (if a % 2 == 1 && b % 2 == 1 then 1 else 0) + 2 * And(a / 2, b / 2)
  }

  /** Whether the number of one bits is odd. */
  predicate OddBits(n: nat) {
    n > 0 && (if n % 2 == 1 then !OddBits(n / 2) else OddBits(n / 2))
  }

  predicate PowerOfTwo(n: nat) {
    n == 1 || (n > 1 && n % 2 == 0 && PowerOfTwo(n / 2))
  }

  /** The bit trick that the transform checks its length with. */
  lemma {:induction false} BitTrick(n: nat)
    requires n > 0
    ensures And(n, n - 1) == 0 <==> PowerOfTwo(n)
  {
    if n > 1 {
      if n % 2 == 0 {
        BitTrick(n / 2);
        assert (n - 1) / 2 == n / 2 - 1;
      } else {
        AndSelf(n / 2);
        assert n / 2 == (n - 1) / 2;
      }
    }
  }

  lemma {:induction false} AndSelf(n: nat)
    ensures And(n, n) == n
  {
    if n > 0 {
      AndSelf(n / 2);
    }
  }

  function Sign(i: nat, j: nat): real {
    if OddBits(And(i, j)) then -1.0 else 1.0
  }

  /** The bit `step` only matters when both indices have it. */
  lemma {:induction false} SignHalves(step: nat, i: nat, j: nat)
    requires PowerOfTwo(step) && i < step && j < step
    ensures Sign(step + i, j) == Sign(i, j) == Sign(i, step + j) && Sign(step + i, step + j) == -Sign(i, j)
  {
    if step > 1 {
      SignHalves(step / 2, i / 2, j / 2);
      SignStep(i, j);
      SignStep(step + i, j);
      SignStep(i, step + j);
      SignStep(step + i, step + j);
    }
  }

  lemma SignStep(i: nat, j: nat)
    ensures Sign(i, j) == (if i % 2 == 1 && j % 2 == 1 then -1.0 else 1.0) * Sign(i / 2, j / 2)
  {
    var low, high := if i % 2 == 1 && j % 2 == 1 then 1 else 0, And(i / 2, j / 2);
    if i > 0 && j > 0 {
      assert (low + 2 * high) / 2 == high && (low + 2 * high) % 2 == low;
    }
  }

  // ----- the transform

  /** `x[base + 0] + ...`, the first `n` of them, with the signs of row `i`. */
  function SignSum(x: seq<real>, base: nat, i: nat, n: nat): real
    requires base + n <= |x|
  {
    if n == 0 then 0.0 else SignSum(x, base, i, n - 1) + Sign(i, n - 1) * x[base + n - 1]
  }

  /** What the loop has at index `i` when runs of `step` elements are transformed. */
  function Stage(x: seq<real>, step: nat, i: nat): real
    requires 0 < step && i < |x| && |x| % step == 0
  {
    InsideRun(|x|, step, i);
    SignSum(x, i - i % step, i % step, step)
  }

  lemma InsideRun(n: nat, step: nat, i: nat)
    requires 0 < step && i < n && n % step == 0
    ensures 0 <= i - i % step && i - i % step + step <= n && i % step < step
  {
    var q, k := n / step, i / step;
    assert n == q * step && i - i % step == k * step;
    Monotone(step, q, k);
    Monotone(step, k + 1, q);
    assert (k + 1) * step == k * step + step;
  }

  lemma {:induction false} SumOfTwoRuns(x: seq<real>, base: nat, i: nat, step: nat, n: nat)
    requires PowerOfTwo(step) && i < step && n <= step && base + step + n <= |x|
    ensures SignSum(x, base, i, step + n) == SignSum(x, base, i, step) + SignSum(x, base + step, i, n)
    ensures SignSum(x, base, step + i, step + n) == SignSum(x, base, step + i, step) - SignSum(x, base + step, i, n)
  {
    hide Sign;
    if n > 0 {
      SumOfTwoRuns(x, base, i, step, n - 1);
      SignHalves(step, i, n - 1);
      Negated(Sign(i, n - 1), x[base + step + n - 1]);
    }
  }

  lemma Negated(a: real, b: real)
    ensures (-a) * b == -(a * b)
  {
  }

  lemma {:induction false} SumOfFirstRun(x: seq<real>, base: nat, i: nat, step: nat, n: nat)
    requires PowerOfTwo(step) && i < step && n <= step && base + n <= |x|
    ensures SignSum(x, base, step + i, n) == SignSum(x, base, i, n)
  {
    if n > 0 {
      SumOfFirstRun(x, base, i, step, n - 1);
      SignHalves(step, i, n - 1);
    }
  }

  /** One butterfly turns two neighbouring runs into one of twice the length. */
  lemma Butterfly(x: seq<real>, base: nat, i: nat, step: nat)
    requires PowerOfTwo(step) && i < step && base + 2 * step <= |x|
    ensures SignSum(x, base, i, 2 * step) == SignSum(x, base, i, step) + SignSum(x, base + step, i, step)
    ensures SignSum(x, base, step + i, 2 * step) == SignSum(x, base, i, step) - SignSum(x, base + step, i, step)
  {
    SumOfTwoRuns(x, base, i, step, step);
    SumOfFirstRun(x, base, i, step, step);
  }

  lemma Modulo(d: nat, base: nat, r: nat)
    requires r < d && base % d == 0
    ensures (base + r) % d == r
  {
    var n, q := base + r, base / d;
    var k := n / d;
    assert n == k * d + n % d && base == q * d;
    Monotone(d, k + 1, q);
    Monotone(d, q + 1, k);
    assert (k + 1) * d == k * d + d && (q + 1) * d == q * d + d;
  }

  lemma AlignedTwice(step: nat, base: nat)
    requires 0 < step && base % (2 * step) == 0
    ensures base % step == 0 && (base + step) % step == 0 && (base + 2 * step) % (2 * step) == 0
  {
    var q := base / (2 * step);
    assert base == q * (2 * step) == (2 * q) * step;
    Multiple(2 * q, step);
    assert (2 * q + 1) * step == (2 * q) * step + step;
    Multiple(2 * q + 1, step);
    assert (q + 1) * (2 * step) == q * (2 * step) + 2 * step;
    Multiple(q + 1, 2 * step);
  }

  lemma StageAt(x: seq<real>, step: nat, base: nat, i: nat)
    requires 0 < step && base % step == 0 && i < step && base + step <= |x| && |x| % step == 0
    ensures Stage(x, step, base + i) == SignSum(x, base, i, step)
  {
    hide SignSum;
    Modulo(step, base, i);
    InsideRun(|x|, step, base + i);
  }

  lemma ButterflyAt(x: seq<real>, step: nat, base: nat, i: nat)
    requires PowerOfTwo(step) && i < step && base % (2 * step) == 0 && base + 2 * step <= |x|
    requires |x| % step == 0 && |x| % (2 * step) == 0
    ensures Stage(x, 2 * step, base + i) == Stage(x, step, base + i) + Stage(x, step, base + step + i)
    ensures Stage(x, 2 * step, base + step + i) == Stage(x, step, base + i) - Stage(x, step, base + step + i)
  {
    hide SignSum, Stage;
    AlignedTwice(step, base);
    Butterfly(x, base, i, step);
    StageAt(x, step, base, i);
    StageAt(x, step, base + step, i);
    StageAt(x, 2 * step, base, i);
    StageAt(x, 2 * step, base, step + i);
  }

  /** `y` is the scaled Walsh-Hadamard transform of `x`: entry `i` adds up all of `x`, with
      the signs given by the parity of the common bits of the indices. */
  ghost predicate Transformed(x: seq<real>, scale: real, y: seq<real>) {
    |y| == |x| && forall i :: 0 <= i < |x| ==> y[i] == SignSum(x, 0, i, |x|) * scale
  }

  datatype Outcome = Raised | Done(y: seq<real>)

  /** Runs the butterfly with doubling stride in place and scales the result.  It raises
      exactly when the length is not a positive power of two. */
  method HadamardTransform(x: seq<real>, scale: real) returns (r: Outcome)
    ensures r.Raised? <==> !PowerOfTwo(|x|)
    ensures r.Done? ==> Transformed(x, scale, r.y)
  {
    hide SignSum, And, Transformed, Scale;
    var dim := |x|;
    if dim == 0 {
      return Raised;
    }
    BitTrick(dim);
    if And(dim, dim - 1) != 0 {
      return Raised;
    }
    var y := Butterflies(x);
    r := Done(Scale(y[..], scale));
    ScaleTransforms(x, y[..], scale);
  }

  function Scale(y: seq<real>, scale: real): (z: seq<real>)
    ensures |z| == |y|
  {
    seq(|y|, i requires 0 <= i < |y| => y[i] * scale)
  }

  lemma ScaleTransforms(x: seq<real>, y: seq<real>, scale: real)
    requires |y| == |x| && forall i :: 0 <= i < |x| ==> y[i] == SignSum(x, 0, i, |x|)
    ensures Transformed(x, scale, Scale(y, scale))
  {
    hide SignSum;
  }

  /** The unscaled butterflies with doubling stride. */
  method Butterflies(x: seq<real>) returns (y: array<real>)
    requires |x| > 0 && PowerOfTwo(|x|)
    ensures fresh(y) && y.Length == |x| && forall i :: 0 <= i < |x| ==> y[i] == SignSum(x, 0, i, |x|)
  {
    hide SignSum, PowerOfTwo, Stage;
    var dim := |x|;
    y := new real[dim](i requires 0 <= i < dim => x[i]);
    var step := 1;
    StartStage(x);
    while step < dim
      invariant PowerOfTwo(step) && 0 < step <= dim && dim % step == 0 && y.Length == dim && fresh(y)
      invariant forall i :: 0 <= i < dim ==> y[i] == Stage(x, step, i)
      decreases dim - step
    {
      DoubleDivides(dim, step);
      DoStage(x, y, step);
      step := 2 * step;
    }
    LastStage(x);
  }

  lemma StartStage(x: seq<real>)
    ensures PowerOfTwo(1) && |x| % 1 == 0 && forall i :: 0 <= i < |x| ==> Stage(x, 1, i) == x[i]
  {
    forall i | 0 <= i < |x| ensures Stage(x, 1, i) == x[i] {
      assert i % 1 == 0;
      OneSign(x, i);
    }
  }

  lemma OneSign(x: seq<real>, base: nat)
    requires base < |x|
    ensures SignSum(x, base, 0, 1) == x[base]
  {
    assert SignSum(x, base, 0, 1) == SignSum(x, base, 0, 0) + Sign(0, 0) * x[base];
  }

  lemma LastStage(x: seq<real>)
    requires |x| > 0
    ensures |x| % |x| == 0 && forall i :: 0 <= i < |x| ==> Stage(x, |x|, i) == SignSum(x, 0, i, |x|)
  {
    Multiple(1, |x|);
    forall i | 0 <= i < |x| ensures Stage(x, |x|, i) == SignSum(x, 0, i, |x|) {
      StageAt(x, |x|, 0, i);
    }
  }

  lemma {:induction false} DoubleDivides(dim: nat, step: nat)
    requires PowerOfTwo(dim) && PowerOfTwo(step) && step < dim
    ensures dim % (2 * step) == 0 && 2 * step <= dim && PowerOfTwo(2 * step)
  {
    if step > 1 {
      DoubleDivides(dim / 2, step / 2);
      TwiceMultiple(dim / 2, step);
    }
  }

  lemma TwiceMultiple(n: nat, d: nat)
    requires d > 0 && n % d == 0
    ensures (2 * n) % (2 * d) == 0
  {
    var q := n / d;
    assert n == q * d;
    assert 2 * n == q * (2 * d);
    Multiple(q, 2 * d);
  }

  /** All butterflies of one stride. */
  method DoStage(x: seq<real>, y: array<real>, step: nat)
    requires y.Length == |x| && 0 < step && PowerOfTwo(step) && |x| % (2 * step) == 0 && |x| % step == 0
    requires forall i :: 0 <= i < |x| ==> y[i] == Stage(x, step, i)
    modifies y
    ensures forall i :: 0 <= i < |x| ==> y[i] == Stage(x, 2 * step, i)
  {
    hide Stage, PowerOfTwo;
    var dim, base := |x|, 0;
    while base < dim
      invariant base <= dim && base % (2 * step) == 0
      invariant forall i :: 0 <= i < base ==> y[i] == Stage(x, 2 * step, i)
      invariant forall i :: base <= i < dim ==> y[i] == Stage(x, step, i)
      decreases dim - base
    {
      InsideRun(dim, 2 * step, base);
      DoRun(x, y, step, base);
      AlignedTwice(step, base);
      base := base + 2 * step;
    }
  }

  /** The butterflies of one run. */
  method DoRun(x: seq<real>, y: array<real>, step: nat, base: nat)
    requires y.Length == |x| && 0 < step && PowerOfTwo(step) && |x| % (2 * step) == 0 && |x| % step == 0
    requires base % (2 * step) == 0 && base + 2 * step <= |x|
    requires forall i :: base <= i < base + 2 * step ==> y[i] == Stage(x, step, i)
    modifies y
    ensures forall i :: base <= i < base + 2 * step ==> y[i] == Stage(x, 2 * step, i)
    ensures forall i :: 0 <= i < |x| && !(base <= i < base + 2 * step) ==> y[i] == old(y[i])
  {
    hide Stage, PowerOfTwo;
    for i := 0 to step
      invariant forall j :: base <= j < base + i ==> y[j] == Stage(x, 2 * step, j)
      invariant forall j :: base + i <= j < base + step ==> y[j] == Stage(x, step, j)
      invariant forall j :: base + step <= j < base + step + i ==> y[j] == Stage(x, 2 * step, j)
      invariant forall j :: base + step + i <= j < base + 2 * step ==> y[j] == Stage(x, step, j)
      invariant forall j :: 0 <= j < |x| && !(base <= j < base + 2 * step) ==> y[j] == old(y[j])
    {
      ButterflyAt(x, step, base, i);
      var left, right := y[base + i], y[base + step + i];
      y[base + i] := left + right;
      y[base + step + i] := left - right;
    }
  }

  // ----- applying it twice

  /** The transform as recursion over halves. */
  function Halves(x: seq<real>): (y: seq<real>)
    requires PowerOfTwo(|x|)
    ensures |y| == |x|
    decreases |x|
  {
    if |x| == 1 then x
    else
      var m := |x| / 2;
      var a, b := Halves(x[..m]), Halves(x[m..]);
      Cross(a, b)
  }

  /** A butterfly of two halves. */
  function Cross(a: seq<real>, b: seq<real>): (c: seq<real>)
    requires |a| == |b|
    ensures |c| == 2 * |a|
  {
    Plus(a, b, 1.0) + Plus(a, b, -1.0)
  }

  function Plus(a: seq<real>, b: seq<real>, s: real): (c: seq<real>)
    requires |a| == |b|
    ensures |c| == |a|
  {
    seq(|a|, i requires 0 <= i < |a| => a[i] + s * b[i])
  }

  lemma OneHalf(x: seq<real>)
    requires |x| == 1
    ensures Halves(x) == x
  {
  }

  lemma HalvesOf(u: seq<real>, v: seq<real>)
    requires |u| == |v| && PowerOfTwo(|u|)
    ensures PowerOfTwo(|u + v|)
    ensures Halves(u + v) == Cross(Halves(u), Halves(v))
  {
    var x := u + v;
    assert |x| / 2 == |u| && x[..|u|] == u && x[|u|..] == v;
  }

  lemma {:induction false} SumOfSlice(x: seq<real>, base: nat, i: nat, n: nat, y: seq<real>)
    requires base + n <= |x| && n <= |y| && forall j :: 0 <= j < n ==> y[j] == x[base + j]
    ensures SignSum(x, base, i, n) == SignSum(y, 0, i, n)
  {
    if n > 0 {
      SumOfSlice(x, base, i, n - 1, y);
    }
  }

  lemma {:induction false} HalvesIsSignSum(x: seq<real>, i: nat)
    requires PowerOfTwo(|x|) && i < |x|
    ensures Halves(x)[i] == SignSum(x, 0, i, |x|)
    decreases |x|
  {
    hide SignSum, Halves;
    if |x| == 1 {
      OneHalf(x);
      OneSign(x, 0);
    } else {
      var m := |x| / 2;
      var u, v, k := x[..m], x[m..], if i < m then i else i - m;
      HalvesIsSignSum(u, k);
      HalvesIsSignSum(v, k);
      Butterfly(x, 0, k, m);
      SumOfSlice(x, 0, k, m, u);
      SumOfSlice(x, m, k, m, v);
      assert u + v == x;
      HalvesOf(u, v);
    }
  }

  lemma PlusRules(a: seq<real>, b: seq<real>, c: seq<real>, d: seq<real>, s: real, r: real)
    requires |a| == |b| == |c| == |d|
    ensures Plus(Plus(a, b, s), Plus(c, d, s), r) == Plus(Plus(a, c, r), Plus(b, d, r), s)
    ensures Plus(a + b, c + d, s) == Plus(a, c, s) + Plus(b, d, s)
  {
    forall i | 0 <= i < |a|
      ensures Plus(Plus(a, b, s), Plus(c, d, s), r)[i] == Plus(Plus(a, c, r), Plus(b, d, r), s)[i]
    {
      assert (a[i] + s * b[i]) + r * (c[i] + s * d[i]) == (a[i] + r * c[i]) + s * (b[i] + r * d[i]);
    }
    PlusParts(a, b, c, d, s);
  }

  lemma PlusParts(a: seq<real>, b: seq<real>, c: seq<real>, d: seq<real>, s: real)
    requires |a| == |c| && |b| == |d|
    ensures Plus(a + b, c + d, s) == Plus(a, c, s) + Plus(b, d, s)
  {
    var all, parts := Plus(a + b, c + d, s), Plus(a, c, s) + Plus(b, d, s);
    forall i | 0 <= i < |all| ensures all[i] == parts[i] {
    }
  }

  lemma {:induction false} Linear(a: seq<real>, b: seq<real>, s: real)
    requires |a| == |b| && PowerOfTwo(|a|)
    ensures Halves(Plus(a, b, s)) == Plus(Halves(a), Halves(b), s)
    decreases |a|
  {
    hide Halves, Plus;
    if |a| == 1 {
      OneHalf(a);
      OneHalf(b);
      OneHalf(Plus(a, b, s));
    } else {
      var m := |a| / 2;
      var a0, a1, b0, b1 := a[..m], a[m..], b[..m], b[m..];
      Linear(a0, b0, s);
      Linear(a1, b1, s);
      assert a == a0 + a1 && b == b0 + b1;
      HalvesOf(a0, a1);
      HalvesOf(b0, b1);
      PlusRules(a0, a1, b0, b1, s, s);
      HalvesOf(Plus(a0, b0, s), Plus(a1, b1, s));
      var p, q, u, v := Halves(a0), Halves(a1), Halves(b0), Halves(b1);
      PlusRules(p, u, q, v, s, 1.0);
      PlusRules(p, u, q, v, s, -1.0);
      PlusRules(Plus(p, q, 1.0), Plus(p, q, -1.0), Plus(u, v, 1.0), Plus(u, v, -1.0), s, s);
    }
  }

  function Times(n: real, x: seq<real>): (y: seq<real>)
    ensures |y| == |x|
  {
    seq(|x|, i requires 0 <= i < |x| => n * x[i])
  }

  lemma TimesOne(x: seq<real>)
    ensures Times(1.0, x) == x
  {
    assert forall i :: 0 <= i < |x| ==> Times(1.0, x)[i] == x[i];
  }

  lemma BackAndForth(a: seq<real>, b: seq<real>, u: seq<real>, v: seq<real>, n: real)
    requires |a| == |b| == |u| == |v| && a == Times(n, u) && b == Times(n, v)
    ensures Cross(Plus(a, b, 1.0), Plus(a, b, -1.0)) == Times(2.0 * n, u + v)
  {
    var x, y, w := Plus(a, b, 1.0), Plus(a, b, -1.0), u + v;
    forall i | 0 <= i < |w| ensures Cross(x, y)[i] == Times(2.0 * n, w)[i] {
      var k := if i < |u| then i else i - |u|;
      assert x[k] == n * u[k] + n * v[k] && y[k] == n * u[k] - n * v[k];
      assert Cross(x, y)[i] == if i < |u| then x[k] + y[k] else x[k] - y[k];
      Doubled(n, u[k], v[k]);
    }
  }

  lemma Doubled(n: real, a: real, b: real)
    ensures (n * a + n * b) + (n * a - n * b) == 2.0 * n * a
    ensures (n * a + n * b) - (n * a - n * b) == 2.0 * n * b
  {
  }

  /** Twice the transform is the length times the input. */
  lemma {:induction false} HalvesTwice(x: seq<real>)
    requires PowerOfTwo(|x|)
    ensures Halves(Halves(x)) == Times(|x| as real, x)
    decreases |x|
  {
    hide Halves, Plus, Times;
    if |x| == 1 {
      OneHalf(x);
      TimesOne(x);
    } else {
      var m := |x| / 2;
      var u, v := x[..m], x[m..];
      var a, b := Halves(u), Halves(v);
      assert u + v == x;
      HalvesOf(u, v);
      HalvesTwice(u);
      HalvesTwice(v);
      Linear(a, b, 1.0);
      Linear(a, b, -1.0);
      HalvesOf(Plus(a, b, 1.0), Plus(a, b, -1.0));
      BackAndForth(Halves(a), Halves(b), u, v, m as real);
      assert 2.0 * (m as real) == |x| as real;
    }
  }

  lemma {:induction false} ScaledSum(x: seq<real>, y: seq<real>, s: real, i: nat, n: nat)
    requires n <= |x| == |y| && forall j :: 0 <= j < |x| ==> y[j] == x[j] * s
    ensures SignSum(y, 0, i, n) == SignSum(x, 0, i, n) * s
  {
    hide Sign;
    if n > 0 {
      ScaledSum(x, y, s, i, n - 1);
      ScaledTerm(SignSum(x, 0, i, n - 1), Sign(i, n - 1), x[n - 1], s);
    }
  }

  lemma ScaledTerm(sum: real, sign: real, a: real, s: real)
    ensures sum * s + sign * (a * s) == (sum + sign * a) * s
  {
  }

  /** `scale` is one over the root of the length. */
  ghost predicate OverRoot(scale: real, n: nat) {
    scale * scale * n as real == 1.0
  }

  /** With the program's scale, one over the root of the length, the transform undoes
      itself; without a scale, that is with scale one, it multiplies by the length. */
  lemma Involution(x: seq<real>, y: seq<real>, z: seq<real>, scale: real)
    requires PowerOfTwo(|x|) && Transformed(x, scale, y) && Transformed(y, scale, z)
    ensures scale == 1.0 ==> z == Times(|x| as real, x)
    ensures OverRoot(scale, |x|) ==> z == x
  {
    hide SignSum, Halves, PowerOfTwo, Twice, OverRoot, Times;
    var h := Halves(x);
    forall i | 0 <= i < |x| ensures y[i] == h[i] * scale {
      HalvesIsSignSum(x, i);
    }
    HalvesTwice(x);
    forall i | 0 <= i < |x|
      ensures (scale == 1.0 ==> z[i] == Times(|x| as real, x)[i]) && (OverRoot(scale, |x|) ==> z[i] == x[i])
    {
      ScaledTwice(h, y, z, scale, i);
      HalvesIsSignSum(h, i);
      Regroup(x, i, scale);
    }
    assert scale == 1.0 ==> z == Times(|x| as real, x);
  }

  function Twice(a: real, s: real): real {
    a * s * s
  }

  lemma ScaledTwice(h: seq<real>, y: seq<real>, z: seq<real>, scale: real, i: nat)
    requires Transformed(y, scale, z) && |h| == |y| && (forall j :: 0 <= j < |h| ==> y[j] == h[j] * scale) && i < |h|
    ensures z[i] == Twice(SignSum(h, 0, i, |h|), scale)
  {
    hide SignSum;
    ScaledSum(h, y, scale, i, |h|);
  }

  lemma Regroup(x: seq<real>, i: nat, s: real)
    requires i < |x|
    ensures var a := Times(|x| as real, x)[i];
            (s == 1.0 ==> Twice(a, s) == a) && (OverRoot(s, |x|) ==> Twice(a, s) == x[i])
  {
    var n, a := |x| as real, x[i];
    assert n * a * s * s == s * s * n * a;
  }
}
