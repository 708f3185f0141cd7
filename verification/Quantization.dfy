/** Symmetric int8 quantisation in exact arithmetic: what it computes, that the clamp and the
    32-bit accumulator are never exceeded, and how far a quantised score can be off. */
module Quantization {

  const LIMIT := 127
  const SQUARE := 16129  // LIMIT * LIMIT
  const INT32_MAX := 0x7FFF_FFFF

  function Abs(x: real): real { if x < 0.0 then 0.0 - x else x }

  function MaxAbs(v: seq<real>): (r: real)
    ensures r >= 0.0
  {
    if v == [] then 0.0 else
      var m, a := MaxAbs(v[..|v| - 1]), Abs(v[|v| - 1]);
      if a > m then a else m
  }

  lemma {:induction false} MaxAbsBounds(v: seq<real>, i: nat)
    requires i < |v|
    ensures Abs(v[i]) <= MaxAbs(v)
  {
    if i < |v| - 1 { MaxAbsBounds(v[..|v| - 1], i); }
  }

  lemma {:induction false} MaxAbsAtMost(v: seq<real>, m: real)
    requires m >= 0.0 && forall i :: 0 <= i < |v| ==> Abs(v[i]) <= m
    ensures MaxAbs(v) <= m
  {
    if v != [] { MaxAbsAtMost(v[..|v| - 1], m); }
  }

  /** The largest magnitude is the one bound that is attained. */
  lemma MaxAbsIs(v: seq<real>, m: real)
    requires m >= 0.0 && (forall i :: 0 <= i < |v| ==> 0.0 - m <= v[i] <= m)
    requires exists i :: 0 <= i < |v| && (v[i] == m || v[i] == 0.0 - m)
    ensures MaxAbs(v) == m
  {
    var i :| 0 <= i < |v| && (v[i] == m || v[i] == 0.0 - m);
    MaxAbsBounds(v, i);
    MaxAbsAtMost(v, m);
  }

  /** Round half away from zero. */
  function Lround(x: real): int {
    if x >= 0.0 then (x + 0.5).Floor else 0 - ((0.0 - x) + 0.5).Floor
  }

  function Clamp(t: int): int { if t > LIMIT then LIMIT else if t < -LIMIT then -LIMIT else t }

  function Scale(maxa: real): real { if maxa > 0.0 then maxa / 127.0 else 1.0 }

  /** A vector's codes and its dequantisation scale. */
  datatype Quantized = Quantized(q: seq<int>, scale: real)

  function Code(x: real, s: real): int
    requires s > 0.0
  {
    Lround(x * (1.0 / s))
  }

  function Quantize(v: seq<real>): Quantized {
    var s := Scale(MaxAbs(v));
    Quantized(seq(|v|, i requires 0 <= i < |v| => Code(v[i], s)), s)
  }

  // ----------------------------------------------------------- one component --

  /** `e` is at most `b` in magnitude. */
  predicate Near(e: real, b: real) { 0.0 - b <= e <= b }

  lemma MulMono(a: real, b: real, c: real)
    requires a <= b && c >= 0.0
    ensures a * c <= b * c
  {
  }

  lemma MulAbove(u: real, v: real, bu: real, bv: real)
    requires Near(u, bu) && Near(v, bv)
    ensures u * v <= bu * bv
  {
    if v >= 0.0 {
      MulMono(u, bu, v);
      MulMono(v, bv, bu);
    } else {
      MulMono(0.0 - u, bu, 0.0 - v);
      MulMono(0.0 - v, bv, bu);
    }
  }

  lemma ProductNear(u: real, v: real, bu: real, bv: real)
    requires Near(u, bu) && Near(v, bv)
    ensures Near(u * v, bu * bv)
  {
    MulAbove(u, v, bu, bv);
    MulAbove(0.0 - u, v, bu, bv);
  }

  lemma RoundError(y: real)
    ensures Near(Lround(y) as real - y, 0.5)
    ensures Near(y, 127.0) ==> -LIMIT <= Lround(y) <= LIMIT
  {
  }

  /** Rounding goes to the nearest integer, and from halfway away from zero. */
  lemma RoundsHalfAway(k: nat)
    ensures Lround(k as real + 0.5) == k + 1 && Lround(0.0 - k as real - 0.5) == -(k + 1)
  {
  }

  /** `q` encodes `x`, a component of a vector whose largest magnitude is `m`, at step `s`. */
  ghost predicate Encodes(x: real, q: int, s: real, m: real) {
    -LIMIT <= q <= LIMIT && Near(x, m) && Near(s * q as real - x, m / 254.0) && Near(s * q as real, m)
  }

  lemma Recover(x: real, s: real, inv: real)
    requires s > 0.0 && inv == 1.0 / s
    ensures inv > 0.0 && s * inv == 1.0 && s * (x * inv) == x
  {
    assert s * inv == s / s == 1.0;
    assert s * (x * inv) == x * (s * inv);
  }

  lemma Cancel(a: real, b: real, s: real)
    requires s > 0.0 && s * a == s * b
    ensures a == b
  {
    assert s * (a - b) == 0.0;
  }

  /** Dividing by the step lands in [-127, 127]. */
  lemma InRange(x: real, m: real, s: real, inv: real)
    requires m > 0.0 && s == m / 127.0 && inv == 1.0 / s && Near(x, m)
    ensures s > 0.0 && s * (x * inv) == x && Near(x * inv, 127.0)
  {
    Recover(x, s, inv);
    Recover(m, s, inv);
    Cancel(m * inv, 127.0, s);
    ProductNear(x, inv, m, inv);
  }

  lemma StepError(x: real, y: real, t: real, s: real)
    requires s > 0.0 && s * y == x && Near(t - y, 0.5)
    ensures Near(s * t - x, s * 0.5)
  {
    var e := t - y;
    ProductNear(s, e, s, 0.5);
    var w, h := s * e, s * 0.5;
    assert Near(w, h);
    assert w == s * t - x by { Distribute(s, t, y); }
  }

  lemma Distribute(s: real, t: real, y: real)
    ensures s * (t - y) == s * t - s * y
  {
  }

  lemma EncodeNonzero(x: real, m: real, s: real, y: real)
    requires m > 0.0 && s == m / 127.0 && s * y == x && Near(y, 127.0) && Near(x, m)
    ensures Encodes(x, Lround(y), s, m)
  {
    var t := Lround(y) as real;
    RoundError(y);
    var w, half := s * t, m / 254.0;
    assert s * 0.5 == half && s * 127.0 == m;
    assert Near(w - x, half) by { StepError(x, y, t, s); }
    assert Near(w, m) by { ProductNear(s, t, s, 127.0); }
  }

  /** A component is encoded without clamping, and decoding is off by at most half a step. */
  lemma EncodeOne(x: real, m: real, s: real)
    requires Near(x, m) && s == Scale(m)
    ensures s > 0.0 && Encodes(x, Code(x, s), s, m)
    ensures Clamp(Code(x, s)) == Code(x, s)
  {
    if m == 0.0 {
      assert x == 0.0;
      EncodeZero(s);
    } else {
      var code := EncodeInside(x, m, s, 1.0 / s);
    }
  }

  lemma EncodeInside(x: real, m: real, s: real, inv: real) returns (code: int)
    requires m > 0.0 && Near(x, m) && s == m / 127.0 && inv == 1.0 / s
    ensures s > 0.0 && code == Code(x, s) && Encodes(x, code, s, m)
  {
    InRange(x, m, s, inv);
    var y := x * inv;
    EncodeNonzero(x, m, s, y);
    code := Lround(y);
  }

  lemma EncodeZero(s: real)
    requires s == 1.0
    ensures Code(0.0, s) == 0 && Encodes(0.0, 0, s, 0.0)
  {
  }

  // -------------------------------------------------------------- whole dots --

  function Sum(t: seq<real>): real {
    if t == [] then 0.0 else Sum(t[..|t| - 1]) + t[|t| - 1]
  }

  function Terms(x: seq<real>, y: seq<real>): seq<real>
    requires |x| == |y|
  {
    seq(|x|, i requires 0 <= i < |x| => x[i] * y[i])
  }

  function RealDot(x: seq<real>, y: seq<real>): real
    requires |x| == |y|
  {
    Sum(Terms(x, y))
  }

  function IntDot(a: seq<int>, b: seq<int>, m: nat): int
    requires m <= |a| && m <= |b|
  {
    if m == 0 then 0 else IntDot(a, b, m - 1) + a[m - 1] * b[m - 1]
  }

  ghost predicate Coded(a: seq<int>) {
    forall i :: 0 <= i < |a| ==> -LIMIT <= a[i] <= LIMIT
  }

  lemma ProductBound(x: int, y: int)
    requires -LIMIT <= x <= LIMIT && -LIMIT <= y <= LIMIT
    ensures -SQUARE <= x * y <= SQUARE
  {
    MulBound(x, y);
    MulBound(0 - x, y);
    assert (0 - x) * y == 0 - x * y;
  }

  lemma MulBound(x: int, y: int)
    requires -LIMIT <= x <= LIMIT && -LIMIT <= y <= LIMIT
    ensures x * y <= SQUARE
  {
    if x >= 0 {
      assert x * y <= x * LIMIT;
    } else {
      assert x * y <= x * -LIMIT;
    }
  }

  /** Every partial sum of the int8 dot product fits in 32 bits up to dimension 4096. */
  lemma {:induction false} IntDotFits(a: seq<int>, b: seq<int>, m: nat)
    requires m <= |a| && m <= |b| && Coded(a) && Coded(b)
    ensures -SQUARE * m <= IntDot(a, b, m) <= SQUARE * m
    ensures m <= 4096 ==> -INT32_MAX <= IntDot(a, b, m) <= INT32_MAX
  {
    if m > 0 {
      IntDotFits(a, b, m - 1);
      ProductBound(a[m - 1], b[m - 1]);
    }
  }

  /** The error one dimension contributes: the two codes each contribute half of it. */
  lemma CrossBound(a: real, b: real, x: real, y: real, mx: real, my: real)
    requires Near(a - x, mx / 254.0) && Near(b - y, my / 254.0) && Near(b, my) && Near(x, mx)
    ensures Near(a * b - x * y, mx * my / 127.0)
  {
    HalfProduct(b, a - x, my, mx);
    HalfProduct(x, b - y, mx, my);
    CrossTerms(a, b, x, y);
    Halves(mx, my);
    NearSum(b * (a - x), x * (b - y), my * mx / 254.0, mx * my / 254.0, a * b - x * y, mx * my / 127.0);
  }

  lemma NearSum(u: real, v: real, p: real, q: real, sum: real, bound: real)
    requires Near(u, p) && Near(v, q) && sum == u + v && bound == p + q
    ensures Near(sum, bound)
  {
  }

  lemma Halves(mx: real, my: real)
    ensures mx * my / 127.0 == my * mx / 254.0 + mx * my / 254.0
  {
    assert my * mx == mx * my;
  }

  lemma HalfProduct(u: real, e: real, bu: real, m: real)
    requires Near(u, bu) && Near(e, m / 254.0)
    ensures Near(u * e, bu * m / 254.0)
  {
    ProductNear(u, e, bu, m / 254.0);
    assert bu * (m / 254.0) == bu * m / 254.0;
  }

  lemma CrossTerms(a: real, b: real, x: real, y: real)
    ensures a * b - x * y == b * (a - x) + x * (b - y)
  {
  }

  ghost predicate EncodesAll(x: seq<real>, q: seq<int>, s: real, m: real) {
    |q| == |x| && forall i :: 0 <= i < |x| ==> Encodes(x[i], q[i], s, m)
  }

  lemma QuantizeEncodes(v: seq<real>)
    ensures EncodesAll(v, Quantize(v).q, Quantize(v).scale, MaxAbs(v)) && Coded(Quantize(v).q)
  {
    forall i | 0 <= i < |v| ensures Encodes(v[i], Quantize(v).q[i], Quantize(v).scale, MaxAbs(v)) {
      MaxAbsBounds(v, i);
      EncodeOne(v[i], MaxAbs(v), Quantize(v).scale);
    }
  }

  /** The vector the codes stand for. */
  function Decoded(q: seq<int>, s: real): seq<real> {
    seq(|q|, i requires 0 <= i < |q| => s * q[i] as real)
  }

  function Rescale(sum: int, s: real, t: real): real { sum as real * s * t }

  lemma ZeroScale(s: real, t: real)
    ensures Rescale(0, s, t) == 0.0
  {
  }

  /** Scaling the integer accumulator once is the dot product of the decoded vectors. */
  lemma {:induction false} ScaledOnce(p: seq<int>, s: real, q: seq<int>, t: real, n: nat)
    requires |p| == |q| && n <= |p|
    ensures Rescale(IntDot(p, q, n), s, t) == Sum(Terms(Decoded(p, s), Decoded(q, t))[..n])
  {
    if n == 0 {
      ZeroScale(s, t);
    } else {
      ScaledOnce(p, s, q, t, n - 1);
      var terms := Terms(Decoded(p, s), Decoded(q, t));
      SumStep(terms, n - 1);
      DecodedTerm(p, s, q, t, n - 1);
      ScaleStep(IntDot(p, q, n - 1), p[n - 1], s, q[n - 1], t, Sum(terms[..n - 1]), terms[n - 1]);
    }
  }

  lemma DecodedTerm(p: seq<int>, s: real, q: seq<int>, t: real, i: nat)
    requires |p| == |q| && i < |p|
    ensures Terms(Decoded(p, s), Decoded(q, t))[i] == (s * p[i] as real) * (t * q[i] as real)
  {
  }

  lemma SumStep(t: seq<real>, n: nat)
    requires n < |t|
    ensures Sum(t[..n + 1]) == Sum(t[..n]) + t[n]
  {
    assert t[..n + 1][..n] == t[..n];
  }

  lemma ScaleStep(sum: int, p: int, s: real, q: int, t: real, before: real, term: real)
    requires Rescale(sum, s, t) == before && (s * p as real) * (t * q as real) == term
    ensures Rescale(sum + p * q, s, t) == before + term
  {
    var u, a, b := sum as real, p as real, q as real;
    assert (sum + p * q) as real == u + a * b;
    assert (u + a * b) * s == u * s + a * b * s;
    assert (u * s + a * b * s) * t == u * s * t + a * b * s * t;
    assert a * b * s * t == (s * a) * (t * b);
  }

  /** `n` copies of `unit`. */
  function Times(n: nat, unit: real): real {
    if n == 0 then 0.0 else Times(n - 1, unit) + unit
  }

  lemma {:induction false} TimesIsProduct(n: nat, unit: real)
    ensures Times(n, unit) == n as real * unit
  {
    if n > 0 {
      TimesIsProduct(n - 1, unit);
      var below := (n - 1) as real;
      assert n as real == below + 1.0;
      assert (below + 1.0) * unit == below * unit + unit;
    }
  }

  lemma {:induction false} SumError(t: seq<real>, u: seq<real>, unit: real)
    requires |t| == |u| && forall i :: 0 <= i < |t| ==> Near(t[i] - u[i], unit)
    ensures Near(Sum(t) - Sum(u), Times(|t|, unit))
    decreases |t|
  {
    if t != [] {
      var n := |t| - 1;
      SumError(t[..n], u[..n], unit);
      assert Near(t[n] - u[n], unit);
    }
  }

  /** `got` is within n * mx * my / 127 of `exact`. */
  /** How far an int8 score of `n` components bounded by `mx` and `my` can be off. */
  function Bound(n: nat, mx: real, my: real): real { n as real * (mx * my / 127.0) }

  ghost predicate WithinBound(got: real, exact: real, n: nat, mx: real, my: real) {
    Near(got - exact, Bound(n, mx, my))
  }

  lemma BoundGrows(n: nat, mx: real, my: real, larger: real)
    requires mx >= 0.0 && my <= larger
    ensures Bound(n, mx, my) <= Bound(n, mx, larger)
  {
    MulMono(my, larger, mx);
    MulMono(mx * my / 127.0, mx * larger / 127.0, n as real);
  }

  lemma Widen(got: real, exact: real, n: nat, mx: real, my: real)
    requires Near(got - exact, Times(n, mx * my / 127.0))
    ensures WithinBound(got, exact, n, mx, my)
  {
    TimesIsProduct(n, mx * my / 127.0);
  }

  /** The score rebuilt from codes: one integer accumulator, scaled once per vector. */
  function Score(p: seq<int>, s: real, q: seq<int>, t: real): real
    requires |p| == |q|
  {
    Rescale(IntDot(p, q, |p|), s, t)
  }

  /** Main bound: a quantised score is within |x| max|x| max|y| / 127 of the true product. */
  lemma QuantizedScoreError(x: seq<real>, y: seq<real>)
    requires |x| == |y|
    ensures var a, b := Quantize(x), Quantize(y);
            WithinBound(Score(a.q, a.scale, b.q, b.scale), RealDot(x, y), |x|, MaxAbs(x), MaxAbs(y))
  {
    QuantizeEncodes(x);
    QuantizeEncodes(y);
    EncodedScoreError(x, Quantize(x), MaxAbs(x), y, Quantize(y), MaxAbs(y));
  }

  lemma EncodedScoreError(x: seq<real>, a: Quantized, mx: real, y: seq<real>, b: Quantized, my: real)
    requires |x| == |y| && EncodesAll(x, a.q, a.scale, mx) && EncodesAll(y, b.q, b.scale, my)
    ensures WithinBound(Score(a.q, a.scale, b.q, b.scale), RealDot(x, y), |x|, mx, my)
  {
    CodesError(x, a.q, a.scale, mx, y, b.q, b.scale, my);
    Widen(Score(a.q, a.scale, b.q, b.scale), RealDot(x, y), |x|, mx, my);
  }

  lemma CodesError(x: seq<real>, p: seq<int>, s: real, mx: real, y: seq<real>, q: seq<int>, t: real, my: real)
    requires |x| == |y| && EncodesAll(x, p, s, mx) && EncodesAll(y, q, t, my)
    ensures Near(Score(p, s, q, t) - RealDot(x, y), Times(|x|, mx * my / 127.0))
  {
    ScoreIsDecodedSum(p, s, q, t);
    SumsNear(x, p, s, mx, y, q, t, my);
  }

  lemma ScoreIsDecodedSum(p: seq<int>, s: real, q: seq<int>, t: real)
    requires |p| == |q|
    ensures Score(p, s, q, t) == Sum(Terms(Decoded(p, s), Decoded(q, t)))
  {
    ScaledOnce(p, s, q, t, |p|);
    WholePrefix(Terms(Decoded(p, s), Decoded(q, t)), |p|);
  }

  lemma WholePrefix(t: seq<real>, n: nat)
    requires |t| == n
    ensures t[..n] == t
  {
  }

  lemma SumsNear(x: seq<real>, p: seq<int>, s: real, mx: real, y: seq<real>, q: seq<int>, t: real, my: real)
    requires |x| == |y| && EncodesAll(x, p, s, mx) && EncodesAll(y, q, t, my)
    ensures Near(Sum(Terms(Decoded(p, s), Decoded(q, t))) - RealDot(x, y), Times(|x|, mx * my / 127.0))
  {
    forall i | 0 <= i < |x| ensures Near(Terms(Decoded(p, s), Decoded(q, t))[i] - Terms(x, y)[i], mx * my / 127.0) {
      TermNear(x, p, s, mx, y, q, t, my, i);
    }
    SumError(Terms(Decoded(p, s), Decoded(q, t)), Terms(x, y), mx * my / 127.0);
  }

  lemma TermNear(x: seq<real>, p: seq<int>, s: real, mx: real, y: seq<real>, q: seq<int>, t: real, my: real, i: nat)
    requires |x| == |y| && EncodesAll(x, p, s, mx) && EncodesAll(y, q, t, my) && i < |x|
    ensures Near(Terms(Decoded(p, s), Decoded(q, t))[i] - Terms(x, y)[i], mx * my / 127.0)
  {
    var a, b := s * p[i] as real, t * q[i] as real;
    assert Encodes(x[i], p[i], s, mx) && Encodes(y[i], q[i], t, my);
    CrossBound(a, b, x[i], y[i], mx, my);
    assert Decoded(p, s)[i] == a && Decoded(q, t)[i] == b;
  }

  // ----------------------------------------------------------------- the loops --

  /** Quantise one vector in place of its codes. The clamp is written and never fires. */
  method QuantizeVector(v: seq<real>) returns (r: Quantized)
    ensures r == Quantize(v) && Coded(r.q)
  {
    var maxa := 0.0;
    var i := 0;
    while i < |v|
      invariant 0 <= i <= |v| && maxa == MaxAbs(v[..i])
    {
      assert v[..i + 1][..i] == v[..i];
      if Abs(v[i]) > maxa { maxa := Abs(v[i]); }
      i := i + 1;
    }
    assert v[..|v|] == v;
    forall j | 0 <= j < |v| ensures Near(v[j], maxa) { MaxAbsBounds(v, j); }
    var scale := if maxa > 0.0 then maxa / 127.0 else 1.0;
    var q := EncodeAll(v, maxa, scale);
    QuantizeEncodes(v);
    assert q == Quantize(v).q;
    r := Quantized(q, scale);
  }

  method EncodeAll(v: seq<real>, maxa: real, scale: real) returns (q: seq<int>)
    requires scale == Scale(maxa) && scale > 0.0 && forall i :: 0 <= i < |v| ==> Near(v[i], maxa)
    ensures |q| == |v| && forall i :: 0 <= i < |v| ==> q[i] == Code(v[i], scale)
  {
    var inv := 1.0 / scale;
    q := [];
    var i := 0;
    while i < |v|
      invariant 0 <= i <= |v| && |q| == i && forall j :: 0 <= j < i ==> q[j] == Code(v[j], scale)
    {
      var code := EncodeComponent(v[i], maxa, scale, inv);
      q := q + [code];
      i := i + 1;
    }
  }

  lemma CodeFits(x: real, m: real, s: real)
    requires Near(x, m) && s == Scale(m) && s > 0.0
    ensures Clamp(Code(x, s)) == Code(x, s)
  {
    EncodeOne(x, m, s);
  }

  method EncodeComponent(x: real, ghost maxa: real, ghost scale: real, inv: real) returns (code: int)
    requires scale == Scale(maxa) && scale > 0.0 && inv == 1.0 / scale && Near(x, maxa)
    ensures code == Code(x, scale)
  {
    var t := Lround(x * inv);
    CodeIs(x, scale, inv, t);
    CodeFits(x, maxa, scale);
    assert Clamp(t) == t;
    code := if t > LIMIT then LIMIT else if t < -LIMIT then -LIMIT else t;
  }

  lemma CodeIs(x: real, s: real, inv: real, t: int)
    requires s > 0.0 && inv == 1.0 / s && t == Lround(x * inv)
    ensures t == Code(x, s)
  {
  }

  method DotI8Scalar(a: seq<int>, b: seq<int>, dim: nat) returns (s: int)
    requires dim <= |a| && dim <= |b|
    ensures s == IntDot(a, b, dim)
  {
    s := 0;
    for i := 0 to dim
      invariant s == IntDot(a, b, i)
    {
      s := s + a[i] * b[i];
    }
  }

  function Total(acc: seq<int>): int {
    if acc == [] then 0 else Total(acc[..|acc| - 1]) + acc[|acc| - 1]
  }

  lemma {:induction false} TotalUpdate(acc: seq<int>, l: nat, x: int)
    requires l < |acc|
    ensures Total(acc[l := acc[l] + x]) == Total(acc) + x
  {
    var n := |acc| - 1;
    if l == n {
      assert acc[l := acc[l] + x][..n] == acc[..n];
    } else {
      TotalUpdate(acc[..n], l, x);
      assert acc[l := acc[l] + x][..n] == acc[..n][l := acc[l] + x];
    }
  }

  lemma {:induction false} TotalZero(acc: seq<int>)
    requires forall l :: 0 <= l < |acc| ==> acc[l] == 0
    ensures Total(acc) == 0
  {
    if acc != [] { TotalZero(acc[..|acc| - 1]); }
  }

  /** The lane-unrolled kernels: `lanes` accumulators, each taking `per` adjacent products of
      every chunk, summed at the end, then a scalar tail. AVX2 is 8 lanes of 2, SDOT 4 lanes
      of 4, the widening kernel 4 lanes of 2. No lane ever leaves 32 bits. */
  method DotI8Lanes(a: seq<int>, b: seq<int>, dim: nat, lanes: nat, per: nat) returns (s: int)
    requires dim <= |a| && dim <= |b| && lanes > 0 && per > 0 && Coded(a) && Coded(b)
    ensures s == IntDot(a, b, dim)
    ensures dim <= 4096 ==> -INT32_MAX <= s <= INT32_MAX
  {
    var acc := seq(lanes, _ => 0);
    TotalZero(acc);
    var i, width := 0, lanes * per;
    LanesIs(lanes, per);
    while i + width <= dim
      invariant i <= dim && |acc| == lanes && Total(acc) == IntDot(a, b, i)
      invariant Within(acc, i)
      decreases dim - i
    {
      acc := Chunk(a, b, i, lanes, per, acc);
      i := i + width;
    }
    s := 0;
    for l := 0 to lanes
      invariant s == Total(acc[..l])
    {
      assert acc[..l + 1][..l] == acc[..l];
      s := s + acc[l];
    }
    assert acc[..lanes] == acc;
    while i < dim
      invariant i <= dim && s == IntDot(a, b, i)
    {
      s := s + a[i] * b[i];
      i := i + 1;
    }
    IntDotFits(a, b, dim);
  }

  /** One chunk: the products in order, product number `p` going to lane `p / per`. */
  method Chunk(a: seq<int>, b: seq<int>, i: nat, lanes: nat, per: nat, start: seq<int>) returns (acc: seq<int>)
    requires i + Lanes(lanes, per) <= |a| && i + Lanes(lanes, per) <= |b| && Coded(a) && Coded(b)
    requires |start| == lanes && Total(start) == IntDot(a, b, i) && Within(start, i)
    ensures |acc| == lanes && Total(acc) == IntDot(a, b, i + Lanes(lanes, per)) && Within(acc, i + Lanes(lanes, per))
  {
    acc := start;
    var at := i;
    for l := 0 to lanes
      invariant at == i + Lanes(l, per) <= i + Lanes(lanes, per) && |acc| == lanes
      invariant Total(acc) == IntDot(a, b, at) && Within(acc, at)
    {
      LanesMono(l + 1, lanes, per);
      acc := FillLane(a, b, at, at + per, l, acc);
      at := at + per;
    }
  }

  /** The products of `l` lanes that take `per` each. */
  function Lanes(l: nat, per: nat): nat { if l == 0 then 0 else Lanes(l - 1, per) + per }

  lemma {:induction false} LanesMono(l: nat, lanes: nat, per: nat)
    requires l <= lanes
    ensures Lanes(l, per) <= Lanes(lanes, per)
  {
    if l < lanes { LanesMono(l, lanes - 1, per); }
  }

  lemma {:induction false} LanesIs(l: nat, per: nat)
    ensures Lanes(l, per) == l * per && (l > 0 ==> Lanes(l, per) >= per)
  {
    if l > 0 {
      LanesIs(l - 1, per);
      assert l * per == (l - 1) * per + per;
    }
  }

  /** One lane takes its `end - from` products. */
  method FillLane(a: seq<int>, b: seq<int>, from: nat, end: nat, l: nat, start: seq<int>) returns (acc: seq<int>)
    requires from <= end <= |a| && end <= |b| && Coded(a) && Coded(b) && l < |start|
    requires Total(start) == IntDot(a, b, from) && Within(start, from)
    ensures |acc| == |start| && Total(acc) == IntDot(a, b, end) && Within(acc, end)
  {
    acc := start;
    for at := from to end
      invariant |acc| == |start| && Total(acc) == IntDot(a, b, at) && Within(acc, at)
    {
      acc := Accumulate(a, b, at, l, acc);
    }
  }

  /** No accumulator has left the range that `m` products can span. */
  ghost predicate Within(acc: seq<int>, m: nat) {
    forall k :: 0 <= k < |acc| ==> -SQUARE * m <= acc[k] <= SQUARE * m
  }

  method Accumulate(a: seq<int>, b: seq<int>, at: nat, l: nat, start: seq<int>) returns (acc: seq<int>)
    requires at < |a| && at < |b| && Coded(a) && Coded(b) && l < |start|
    requires Total(start) == IntDot(a, b, at) && Within(start, at)
    ensures |acc| == |start| && Total(acc) == IntDot(a, b, at + 1) && Within(acc, at + 1)
  {
    ProductBound(a[at], b[at]);
    TotalUpdate(start, l, a[at] * b[at]);
    acc := start[l := start[l] + a[at] * b[at]];
  }
}
