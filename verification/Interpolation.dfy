/** Shape-preserving cubic interpolation of unvoiced gaps in CF0::Smooth_f0 (Pitch.cpp). */
module Interpolation {

  // ---------------------------------------------------------------- slopes

  /** A slope that keeps a cubic monotone on an interval of mean slope `del`. */
  predicate SlopeOk(d: real, del: real) {
    if del > 0.0 then 0.0 <= d <= 3.0 * del
    else if del < 0.0 then 3.0 * del <= d <= 0.0
    else d == 0.0
  }

  function Sign(x: real): int { if x > 0.0 then 1 else if x < 0.0 then -1 else 0 }

  /** pchipend.  Which `abs` the source gets depends on the headers in force (an integer one truncates),
      so it is left open. */
  function PchipEnd(h1: nat, h2: nat, del1: real, del2: real, abs: real -> real): (r: real)
    requires h1 > 0 && h2 > 0
    ensures SlopeOk(r, del1)
  {
    var d := ((2 * h1 + h2) as real * del1 - h1 as real * del2) / (h1 + h2) as real;
    if Sign(d) != Sign(del1) then 0.0
    else if Sign(del1) != Sign(del2) && abs(d) > abs(3.0 * del1) then 3.0 * del1
    else 0.0
  }

  /** Interior slope: a weighted harmonic mean, or zero where the mean slopes change sign. */
  function Interior(h0: nat, h1: nat, del0: real, del1: real): real
    requires h0 > 0 && h1 > 0
  {
    if del1 * del0 > 0.0 then
      var w1, w2 := (2 * h1 + h0) as real, (h1 + 2 * h0) as real;
      Nonzero(w1, w2, del0, del1);
      (w1 + w2) / (w1 / del0 + w2 / del1)
    else 0.0
  }

  lemma SameSign(x: real, y: real)
    requires x * y > 0.0
    ensures (x > 0.0 && y > 0.0) || (x < 0.0 && y < 0.0)
  {
  }

  lemma DivPos(w: real, d: real)
    requires w > 0.0 && d != 0.0
    ensures d > 0.0 ==> w / d > 0.0
    ensures d < 0.0 ==> w / d < 0.0
  {
    var q := w / d;
    assert q * d == w;
  }

  lemma Nonzero(w1: real, w2: real, del0: real, del1: real)
    requires w1 > 0.0 && w2 > 0.0 && del1 * del0 > 0.0
    ensures del0 != 0.0 && del1 != 0.0 && w1 / del0 + w2 / del1 != 0.0
  {
    SameSign(del1, del0);
    DivPos(w1, del0);
    DivPos(w2, del1);
  }

  /** A harmonic mean of positive slopes is at most (w1 + w2) / w1 times the first one. */
  lemma HarmonicBound(w1: real, w2: real, a: real, b: real)
    requires w1 > 0.0 && w2 > 0.0 && a > 0.0 && b > 0.0 && w2 <= 2.0 * w1
    ensures w1 / a + w2 / b > 0.0
    ensures 0.0 <= (w1 + w2) / (w1 / a + w2 / b) <= 3.0 * a
  {
    DivPos(w1, a);
    DivPos(w2, b);
    var p, q := w1 / a, w2 / b;
    var s := (w1 + w2) / (p + q);
    DivPos(w1 + w2, p + q);
    assert s * (p + q) == w1 + w2;
    assert p * a == w1;
    assert s * p <= w1 + w2 by { assert s * q >= 0.0; assert s * p + s * q == s * (p + q); }
    assert s * p <= 3.0 * a * p;
    CancelLe(s, 3.0 * a, p);
  }

  lemma CancelLe(x: real, y: real, p: real)
    requires p > 0.0 && x * p <= y * p
    ensures x <= y
  {
    assert (y - x) * p >= 0.0;
  }

  lemma NegDiv(x: real, d: real)
    requires d != 0.0
    ensures x / -d == -(x / d)
  {
    var q := x / d;
    assert q * d == x;
    assert (-q) * (-d) == x;
  }

  lemma InteriorOk(h0: nat, h1: nat, del0: real, del1: real)
    requires h0 > 0 && h1 > 0
    ensures SlopeOk(Interior(h0, h1, del0, del1), del0) && SlopeOk(Interior(h0, h1, del0, del1), del1)
  {
    if del1 * del0 > 0.0 {
      var w1, w2 := (2 * h1 + h0) as real, (h1 + 2 * h0) as real;
      SameSign(del1, del0);
      if del0 > 0.0 {
        HarmonicBound(w1, w2, del0, del1);
        HarmonicBound(w2, w1, del1, del0);
      } else {
        HarmonicBound(w1, w2, -del0, -del1);
        HarmonicBound(w2, w1, -del1, -del0);
        Negated(w1, w2, del0, del1);
      }
    }
  }

  /** The interior slope is the harmonic mean of both mean slopes, each weighted with twice the other side's length and its
      own once, and so lies between them; where they do not have one sign it is zero. */
  lemma InteriorIsMean(h0: nat, h1: nat, del0: real, del1: real)
    requires h0 > 0 && h1 > 0
    ensures del0 * del1 <= 0.0 ==> Interior(h0, h1, del0, del1) == 0.0
    ensures del0 * del1 > 0.0 ==>
      && Interior(h0, h1, del0, del1) * ((h0 as real + 2.0 * h1 as real) / del0 + (2.0 * h0 as real + h1 as real) / del1) ==
         3.0 * (h0 as real + h1 as real)
      && (del0 <= Interior(h0, h1, del0, del1) <= del1 || del1 <= Interior(h0, h1, del0, del1) <= del0)
  {
    if del1 * del0 > 0.0 {
      var w1, w2 := (2 * h1 + h0) as real, (h1 + 2 * h0) as real;
      SameSign(del1, del0);
      Nonzero(w1, w2, del0, del1);
      Quotient(w1, del0);
      Quotient(w2, del1);
      Quotient(w1 + w2, w1 / del0 + w2 / del1);
      DivPos(w1, del0);
      DivPos(w2, del1);
      Between(w1 / del0, w2 / del1, del0, del1, Interior(h0, h1, del0, del1));
    }
  }

  lemma Quotient(x: real, d: real)
    requires d != 0.0
    ensures x / d * d == x
  {
  }

  /** A mean with weights of one sign lies between its two values. */
  lemma Between(p: real, q: real, a: real, b: real, s: real)
    requires (p > 0.0 && q > 0.0) || (p < 0.0 && q < 0.0)
    requires s * (p + q) == p * a + q * b
    ensures a <= s <= b || b <= s <= a
  {
    assert (s - a) * (p + q) == s * (p + q) - (a * p + a * q);
    assert (s - b) * (p + q) == s * (p + q) - (b * p + b * q);
    assert (s - a) * (p + q) == (b - a) * q;
    assert (s - b) * (p + q) == (a - b) * p;
    OneSide(s - a, p + q, b - a, q);
    OneSide(s - b, p + q, a - b, p);
  }

  lemma OneSide(x: real, m: real, y: real, n: real)
    requires x * m == y * n && ((m > 0.0 && n > 0.0) || (m < 0.0 && n < 0.0))
    ensures (x >= 0.0 <==> y >= 0.0) && (x <= 0.0 <==> y <= 0.0)
  {
    SignTimes(x, m);
    SignTimes(y, n);
  }

  lemma SignTimes(x: real, m: real)
    requires m != 0.0
    ensures m > 0.0 ==> (x * m >= 0.0 <==> x >= 0.0) && (x * m <= 0.0 <==> x <= 0.0)
    ensures m < 0.0 ==> (x * m >= 0.0 <==> x <= 0.0) && (x * m <= 0.0 <==> x >= 0.0)
  {
  }

  function Magnitude(x: real): real { if x < 0.0 then -x else x }

  /** With the magnitude for `abs`, the slope at an end is three times the mean slope where the curve turns so sharply that the
      next interval outweighs it, and zero everywhere else. */
  lemma PchipEndIs(h1: nat, h2: nat, del1: real, del2: real, abs: real -> real)
    requires h1 > 0 && h2 > 0 && forall x :: abs(x) == Magnitude(x)
    ensures var sharp := Sign(del1) * Sign(del2) < 0 && h1 as real * Magnitude(del2) > (h1 + 2 * h2) as real * Magnitude(del1);
      PchipEnd(h1, h2, del1, del2, abs) == if sharp then 3.0 * del1 else 0.0
  {
    var n, m := (2 * h1 + h2) as real * del1 - h1 as real * del2, (h1 + h2) as real;
    var d := n / m;
    Quotient(n, m);
    SignTimes(d, m);
    EndSign(h1 as real, h2 as real, del1, del2, d);
  }

  lemma EndSign(h1: real, h2: real, a: real, b: real, d: real)
    requires h1 > 0.0 && h2 > 0.0 && d * (h1 + h2) == (2.0 * h1 + h2) * a - h1 * b
    ensures a > 0.0 && b <= 0.0 ==> d > 0.0 && (d > 3.0 * a <==> h1 * -b > (h1 + 2.0 * h2) * a)
    ensures a < 0.0 && b >= 0.0 ==> d < 0.0 && (d < 3.0 * a <==> h1 * b > (h1 + 2.0 * h2) * -a)
  {
    var m := h1 + h2;
    assert (d - 3.0 * a) * m == h1 * -b - (h1 + 2.0 * h2) * a by { EndExcess(h1, h2, a, b, d); }
    SignTimes(d, m);
    SignTimes(d - 3.0 * a, m);
    SignTimes(a, 2.0 * h1 + h2);
    SignTimes(b, h1);
    assert h1 * b == b * h1;
    assert (2.0 * h1 + h2) * a == a * (2.0 * h1 + h2);
  }

  lemma EndExcess(h1: real, h2: real, a: real, b: real, d: real)
    requires d * (h1 + h2) == (2.0 * h1 + h2) * a - h1 * b
    ensures (d - 3.0 * a) * (h1 + h2) == h1 * -b - (h1 + 2.0 * h2) * a
  {
    assert (d - 3.0 * a) * (h1 + h2) == d * (h1 + h2) - 3.0 * a * h1 - 3.0 * a * h2;
    assert (2.0 * h1 + h2) * a == 2.0 * (a * h1) + a * h2;
    assert (h1 + 2.0 * h2) * a == a * h1 + 2.0 * (a * h2);
    assert 3.0 * a * h1 == 3.0 * (a * h1) && 3.0 * a * h2 == 3.0 * (a * h2);
    assert h1 * -b == -(h1 * b);
  }

  lemma Negated(w1: real, w2: real, a: real, b: real)
    requires w1 > 0.0 && w2 > 0.0 && a < 0.0 && b < 0.0
    ensures w1 / a + w2 / b != 0.0 && w1 / -a + w2 / -b != 0.0
    ensures (w1 + w2) / (w1 / a + w2 / b) == -((w1 + w2) / (w1 / -a + w2 / -b))
  {
    DivPos(w1, a);
    DivPos(w2, b);
    NegDiv(w1, a);
    NegDiv(w2, b);
    NegDiv(w1 + w2, w1 / a + w2 / b);
  }

  // ---------------------------------------------------------------- the cubic

  /** The cubic's rise over a fraction `t` of an interval of mean slope `del`, per unit of length. */
  function Rise(d0: real, d1: real, del: real, t: real): real {
    d0 * (t * (1.0 - t) * (1.0 - t)) + del * (t * t * (3.0 - 2.0 * t)) - d1 * (t * t * (1.0 - t))
  }

  /** With admissible slopes the rise stays between 0 and the whole rise. */
  lemma RiseBounded(d0: real, d1: real, del: real, t: real)
    requires 0.0 <= t <= 1.0 && 0.0 <= del && 0.0 <= d0 <= 3.0 * del && 0.0 <= d1 <= 3.0 * del
    ensures 0.0 <= Rise(d0, d1, del, t) <= del
  {
    var u := 1.0 - t;
    var a, b, c := t * u * u, t * t * u, t * t * (3.0 - 2.0 * t);
    assert Rise(d0, d1, del, t) == d0 * a + del * c - d1 * b;
    Products(t, u);
    Cubes(t);
    Cubes(u);
    CubicIdentities(t, u);
    Bounded(d0, d1, del, a, b, c, t * t * t, u * u * u);
  }

  lemma Bounded(d0: real, d1: real, del: real, a: real, b: real, c: real, t3: real, u3: real)
    requires 0.0 <= del && 0.0 <= d0 <= 3.0 * del && 0.0 <= d1 <= 3.0 * del
    requires a >= 0.0 && b >= 0.0 && t3 >= 0.0 && u3 >= 0.0
    requires c == 3.0 * b + t3 && c == 1.0 - u3 - 3.0 * a
    ensures 0.0 <= d0 * a + del * c - d1 * b <= del
  {
    MulBounds(d0, 3.0 * del, a);
    MulBounds(d1, 3.0 * del, b);
    MulBounds(0.0, t3, del);
    MulBounds(0.0, u3, del);
    assert del * c == del * (3.0 * b + t3) == 3.0 * del * b + del * t3;
    assert del * c == del * (1.0 - u3 - 3.0 * a) == del - del * u3 - 3.0 * del * a;
    assert del * t3 >= 0.0 && del * u3 >= 0.0;
    assert d0 * a >= 0.0 && d1 * b >= 0.0;
  }

  lemma Products(t: real, u: real)
    requires t >= 0.0 && u >= 0.0
    ensures t * u * u >= 0.0 && t * t * u >= 0.0
  {
    assert t * u >= 0.0 && t * t >= 0.0;
  }

  lemma Cubes(t: real)
    requires t >= 0.0
    ensures t * t * t >= 0.0
  {
    assert t * t >= 0.0;
  }

  lemma MulBounds(x: real, y: real, a: real)
    requires x <= y && a >= 0.0
    ensures x * a <= y * a && a * x <= a * y
    ensures x >= 0.0 ==> x * a >= 0.0
  {
  }

  lemma CubicIdentities(t: real, u: real)
    requires u == 1.0 - t
    ensures t * t * (3.0 - 2.0 * t) - 3.0 * (t * t * u) == t * t * t
    ensures 3.0 * (t * u * u) + t * t * (3.0 - 2.0 * t) == 1.0 - u * u * u
  {
  }

  /** The value of the source's cubic at `s` samples into an interval of `h` samples. */
  function Cubic(y0: real, d0: real, d1: real, del: real, h: nat, s: nat): real
    requires h > 0
  {
    var c := (3.0 * del - 2.0 * d0 - d1) / h as real;
    var b := (d0 - 2.0 * del + d1) / (h as real * h as real);
    y0 + s as real * (d0 + s as real * (c + s as real * b))
  }

  /** Horner's form of the source is the Hermite form. */
  lemma CubicIsRise(y0: real, d0: real, d1: real, del: real, h: nat, s: nat)
    requires h > 0
    ensures Cubic(y0, d0, d1, del, h, s) == y0 + h as real * Rise(d0, d1, del, s as real / h as real)
  {
    var hr, sr := h as real, s as real;
    var t := sr / hr;
    assert sr == t * hr;
    var p, q := 3.0 * del - 2.0 * d0 - d1, d0 - 2.0 * del + d1;
    assert sr * (p / hr) == t * p by { assert t * hr * (p / hr) == t * p by { assert hr * (p / hr) == p; } }
    Quotients(q, t, hr);
    assert sr * (sr * (q / (hr * hr))) == t * t * q;
    Regroup(d0, d1, del, t);
    Expand(d0, t, p / hr, q / (hr * hr), sr, hr, p, q);
  }

  lemma Quotients(q: real, t: real, h: real)
    requires h > 0.0
    ensures h * h != 0.0 && t * h * (t * h * (q / (h * h))) == t * t * q
  {
    var z := q / (h * h);
    assert z * (h * h) == q;
    assert t * h * (t * h * z) == t * t * (z * (h * h));
  }

  lemma Regroup(d0: real, d1: real, del: real, t: real)
    ensures Rise(d0, d1, del, t) == d0 * t + (3.0 * del - 2.0 * d0 - d1) * (t * t) + (d0 - 2.0 * del + d1) * (t * t * t)
  {
  }

  lemma Expand(d0: real, t: real, c: real, b: real, s: real, h: real, p: real, q: real)
    requires s == t * h && s * c == t * p && s * (s * b) == t * t * q
    ensures s * (d0 + s * (c + s * b)) == h * (d0 * t + p * (t * t) + q * (t * t * t))
  {
    assert s * (c + s * b) == t * p + t * t * q;
    assert s * (d0 + (t * p + t * t * q)) == t * h * d0 + t * h * (t * p) + t * h * (t * t * q);
  }

  lemma RiseNegated(d0: real, d1: real, del: real, t: real)
    ensures Rise(-d0, -d1, -del, t) == -Rise(d0, d1, del, t)
  {
  }

  predicate Within(v: real, a: real, b: real) {
    (a <= v <= b) || (b <= v <= a)
  }

  /** With admissible slopes at both ends, the interpolated value lies between the two knots. */
  lemma CubicWithin(y0: real, y1: real, d0: real, d1: real, del: real, h: nat, s: nat)
    requires 0 < h && s <= h && del * h as real == y1 - y0
    requires SlopeOk(d0, del) && SlopeOk(d1, del)
    ensures Within(Cubic(y0, d0, d1, del, h, s), y0, y1)
  {
    hide Cubic, Rise;
    var t, hr := s as real / h as real, h as real;
    Fraction(s as real, hr);
    CubicIsRise(y0, d0, d1, del, h, s);
    var r := Rise(d0, d1, del, t);
    if del >= 0.0 {
      RiseBounded(d0, d1, del, t);
      ScaledWithin(y0, y1, r, del, hr);
    } else {
      RiseBounded(-d0, -d1, -del, t);
      RiseNegated(d0, d1, del, t);
      ScaledWithin(y0, y1, r, del, hr);
    }
  }

  lemma Fraction(s: real, h: real)
    requires 0.0 <= s <= h && h > 0.0
    ensures 0.0 <= s / h <= 1.0
  {
  }

  lemma ScaledWithin(y0: real, y1: real, r: real, del: real, h: real)
    requires h > 0.0 && del * h == y1 - y0 && Within(r, 0.0, del)
    ensures Within(y0 + h * r, y0, y1)
  {
    if del >= 0.0 {
      MulBounds(0.0, r, h);
      MulBounds(r, del, h);
    } else {
      MulBounds(r, 0.0, h);
      MulBounds(del, r, h);
    }
  }

  // ---------------------------------------------------------------- the algorithm

  /** The first and last frame become knots if they have no value. */
  function Patched(f: seq<real>): (r: seq<real>)
    ensures |r| == |f|
  {
    if f == [] then f
    else
      var g := if f[0] == 0.0 then f[0 := 50.0] else f;
      if g[|g| - 1] == 0.0 then g[|g| - 1 := 50.0] else g
  }

  /** `x` lists the frames with a positive value, in order. */
  ghost predicate AreKnots(f: seq<real>, x: seq<nat>, n: nat) {
    && n <= |f|
    && (forall i :: 0 <= i < |x| ==> x[i] < n && f[x[i]] > 0.0)
    && (forall i, j :: 0 <= i < j < |x| ==> x[i] < x[j])
    && (forall j :: 0 <= j < n && f[j] > 0.0 ==> j in x)
  }

  method Knots(f: seq<real>) returns (x: seq<nat>)
    ensures AreKnots(f, x, |f|)
  {
    x := [];
    for i := 0 to |f|
      invariant AreKnots(f, x, i)
    {
      if f[i] > 0.0 { x := x + [i]; }
    }
  }

  /** Interval `i` between two knots: its length and mean slope. */
  ghost predicate Interval(f: seq<real>, x: seq<nat>, i: nat, h: nat, del: real) {
    i + 1 < |x| && x[i] < x[i + 1] < |f| && h == x[i + 1] - x[i] && del * h as real == f[x[i + 1]] - f[x[i]]
  }

  lemma MeanSlope(f: seq<real>, x: seq<nat>, i: nat)
    requires i + 1 < |x| && AreKnots(f, x, |f|)
    ensures x[i] < x[i + 1] < |f|
    ensures Interval(f, x, i, x[i + 1] - x[i], (f[x[i + 1]] - f[x[i]]) / (x[i + 1] - x[i]) as real)
  {
    var w := (x[i + 1] - x[i]) as real;
    assert (f[x[i + 1]] - f[x[i]]) / w * w == f[x[i + 1]] - f[x[i]];
  }

  method Differences(f: seq<real>, x: seq<nat>) returns (h: seq<nat>, delta: seq<real>)
    requires |x| >= 1 && AreKnots(f, x, |f|)
    ensures |h| == |delta| == |x| - 1
    ensures forall i :: 0 <= i < |h| ==> h[i] > 0 && Interval(f, x, i, h[i], delta[i])
  {
    hide Interval, AreKnots;
    h, delta := [], [];
    for i := 0 to |x| - 1
      invariant |h| == |delta| == i
      invariant forall j :: 0 <= j < i ==> h[j] > 0 && Interval(f, x, j, h[j], delta[j])
    {
      MeanSlope(f, x, i);
      h := h + [x[i + 1] - x[i]];
      delta := delta + [(f[x[i + 1]] - f[x[i]]) / (x[i + 1] - x[i]) as real];
    }
  }

  /** All slopes are admissible for the intervals on both sides. */
  method Slopes(h: seq<nat>, delta: seq<real>, abs: real -> real) returns (d: seq<real>)
    requires |h| == |delta| && |h| >= 2 && forall i :: 0 <= i < |h| ==> h[i] > 0
    ensures |d| == |h| + 1
    ensures forall i :: 0 <= i < |h| ==> SlopeOk(d[i], delta[i]) && SlopeOk(d[i + 1], delta[i])
    ensures forall i :: 1 <= i < |h| ==> d[i] == Interior(h[i - 1], h[i], delta[i - 1], delta[i])
    ensures var n := |h|; d[0] == PchipEnd(h[0], h[1], delta[0], delta[1], abs) &&
                          d[n] == PchipEnd(h[n - 1], h[n - 2], delta[n - 1], delta[n - 2], abs)
  {
    hide Interior, PchipEnd;
    var n := |h|;
    d := seq(n + 1, _ => 0.0);
    for i := 1 to n
      invariant |d| == n + 1
      invariant forall j :: 1 <= j < i ==> d[j] == Interior(h[j - 1], h[j], delta[j - 1], delta[j])
      invariant forall j :: 1 <= j < i ==> SlopeOk(d[j], delta[j - 1]) && SlopeOk(d[j], delta[j])
    {
      InteriorOk(h[i - 1], h[i], delta[i - 1], delta[i]);
      d := d[i := Interior(h[i - 1], h[i], delta[i - 1], delta[i])];
    }
    hide SlopeOk;
    d := d[0 := PchipEnd(h[0], h[1], delta[0], delta[1], abs)];
    d := d[n := PchipEnd(h[n - 1], h[n - 2], delta[n - 1], delta[n - 2], abs)];
    forall i | 0 <= i < n ensures SlopeOk(d[i], delta[i]) && SlopeOk(d[i + 1], delta[i]) {
      if 0 < i { assert SlopeOk(d[i], delta[i]); }
      if i + 1 < n { assert SlopeOk(d[i + 1], delta[i + 1 - 1]); }
    }
  }

  /** `v` at frame `j` lies between the values of the two knots that enclose `j`. */
  ghost predicate Enclosed(f: seq<real>, x: seq<nat>, j: nat, v: real) {
    exists i :: 0 <= i < |x| - 1 && x[i] <= j <= x[i + 1] < |f| && Within(v, f[x[i]], f[x[i + 1]])
  }

  /** One gap. */
  method FillGap(f: seq<real>, x: seq<nat>, out: seq<real>, i: nat, h: nat, del: real, d0: real, d1: real) returns (r: seq<real>)
    requires AreKnots(f, x, |f|) && i + 1 < |x| && |out| == |f| && h == x[i + 1] - x[i] && h > 0
    requires del * h as real == f[x[i + 1]] - f[x[i]] && SlopeOk(d0, del) && SlopeOk(d1, del)
    ensures |r| == |f| && forall j :: 0 <= j < |f| && !(x[i] < j < x[i + 1]) ==> r[j] == out[j]
    ensures forall j :: x[i] < j < x[i + 1] ==> Within(r[j], f[x[i]], f[x[i + 1]])
    ensures forall j :: x[i] < j < x[i + 1] ==> r[j] == Cubic(f[x[i]], d0, d1, del, h, j - x[i])
  {
    hide Cubic;
    r := out;
    for j := x[i] + 1 to x[i + 1]
      invariant |r| == |f| && forall m :: 0 <= m < |f| && !(x[i] < m < j) ==> r[m] == out[m]
      invariant forall m :: x[i] < m < j ==> Within(r[m], f[x[i]], f[x[i + 1]])
      invariant forall m :: x[i] < m < j ==> r[m] == Cubic(f[x[i]], d0, d1, del, h, m - x[i])
    {
      CubicWithin(f[x[i]], f[x[i + 1]], d0, d1, del, h, j - x[i]);
      r := r[j := Cubic(f[x[i]], d0, d1, del, h, j - x[i])];
    }
  }

  /** Every frame between the first and the last of the knots up to number `n` is enclosed. */
  ghost predicate Filled(f: seq<real>, x: seq<nat>, out: seq<real>, n: nat) {
    && |out| == |f| && n < |x|
    && (forall j :: 0 <= j < |f| && (j < x[0] || f[j] > 0.0 || j > x[n]) ==> out[j] == f[j])
    && (forall j :: x[0] <= j <= x[n] && j < |f| ==> Enclosed(f, x, j, out[j]))
  }

  lemma GapFilled(f: seq<real>, x: seq<nat>, out: seq<real>, r: seq<real>, i: nat)
    requires AreKnots(f, x, |f|) && i + 1 < |x| && Filled(f, x, out, i) && |r| == |f|
    requires i > 0 || out == f
    requires forall j :: 0 <= j < |f| && !(x[i] < j < x[i + 1]) ==> r[j] == out[j]
    requires forall j :: x[i] < j < x[i + 1] ==> Within(r[j], f[x[i]], f[x[i + 1]])
    ensures Filled(f, x, r, i + 1)
  {
    forall j | x[0] <= j <= x[i + 1] && j < |f| ensures Enclosed(f, x, j, r[j]) {
      if j >= x[i] {
        assert x[i + 1] < |f|;
        if j == x[i] || j == x[i + 1] { assert f[j] > 0.0 && out[j] == f[j]; }
        assert 0 <= i < |x| - 1 && x[i] <= j <= x[i + 1] < |f| && Within(r[j], f[x[i]], f[x[i + 1]]);
      }
    }
    forall j | 0 <= j < |f| && (j < x[0] || f[j] > 0.0 || j > x[i + 1]) ensures r[j] == f[j] {
      if x[i] < j < x[i + 1] { NoKnotInside(f, x, i, j); }
    }
  }

  lemma NoKnotInside(f: seq<real>, x: seq<nat>, i: nat, j: nat)
    requires AreKnots(f, x, |f|) && i + 1 < |x| && x[i] < j < x[i + 1] && j < |f|
    ensures f[j] <= 0.0
  {
    forall m | 0 <= m < |x| ensures x[m] != j {
      if m <= i { assert x[m] <= x[i]; } else { assert x[m] >= x[i + 1]; }
    }
  }

  /** Gap `i` carries the cubic with end slopes `d0` and `d1`. */
  ghost predicate GapIs(f: seq<real>, x: seq<nat>, out: seq<real>, i: nat, h: nat, del: real, d0: real, d1: real) {
    && i + 1 < |x| && h > 0 && x[i + 1] < |f| && |out| == |f|
    && forall j :: x[i] < j < x[i + 1] ==> out[j] == Cubic(f[x[i]], d0, d1, del, h, j - x[i])
  }

  /** Filling a later gap does not touch an earlier one. */
  lemma GapStays(f: seq<real>, x: seq<nat>, out: seq<real>, r: seq<real>, i: nat, k: nat, h: nat, del: real, d0: real, d1: real)
    requires AreKnots(f, x, |f|) && k < i && i + 1 < |x| && GapIs(f, x, out, k, h, del, d0, d1) && |r| == |f|
    requires forall j :: 0 <= j < |f| && !(x[i] < j < x[i + 1]) ==> r[j] == out[j]
    ensures GapIs(f, x, r, k, h, del, d0, d1)
  {
    hide Cubic;
    assert x[k + 1] <= x[i];
  }

  method FillAll(f: seq<real>, x: seq<nat>, h: seq<nat>, delta: seq<real>, d: seq<real>) returns (out: seq<real>)
    requires AreKnots(f, x, |f|) && |x| >= 3 && |h| == |delta| == |x| - 1 && |d| == |x|
    requires forall i :: 0 <= i < |h| ==> h[i] > 0 && Interval(f, x, i, h[i], delta[i])
    requires forall i :: 0 <= i < |h| ==> SlopeOk(d[i], delta[i]) && SlopeOk(d[i + 1], delta[i])
    ensures Filled(f, x, out, |x| - 1)
    ensures forall i :: 0 <= i < |h| ==> GapIs(f, x, out, i, h[i], delta[i], d[i], d[i + 1])
  {
    hide Filled, AreKnots, SlopeOk, Cubic, GapIs, Interval;
    out := f;
    FirstFilled(f, x);
    for i := 0 to |x| - 1
      invariant |out| == |f| && Filled(f, x, out, i) && (i == 0 ==> out == f)
      invariant forall k :: 0 <= k < i ==> GapIs(f, x, out, k, h[k], delta[k], d[k], d[k + 1])
    {
      ghost var before := out;
      IntervalFacts(f, x, i, h[i], delta[i]);
      out := FillGap(f, x, out, i, h[i], delta[i], d[i], d[i + 1]);
      GapFilled(f, x, before, out, i);
      GapIsNow(f, x, out, i, h[i], delta[i], d[i], d[i + 1]);
      forall k | 0 <= k < i ensures GapIs(f, x, out, k, h[k], delta[k], d[k], d[k + 1]) {
        GapStays(f, x, before, out, i, k, h[k], delta[k], d[k], d[k + 1]);
      }
    }
  }

  lemma IntervalFacts(f: seq<real>, x: seq<nat>, i: nat, h: nat, del: real)
    requires Interval(f, x, i, h, del)
    ensures i + 1 < |x| && h == x[i + 1] - x[i] && x[i] < x[i + 1] < |f| && del * h as real == f[x[i + 1]] - f[x[i]]
  {
  }

  lemma GapIsNow(f: seq<real>, x: seq<nat>, out: seq<real>, i: nat, h: nat, del: real, d0: real, d1: real)
    requires i + 1 < |x| && h > 0 && x[i] < x[i + 1] < |f| && |out| == |f|
    requires forall j :: x[i] < j < x[i + 1] ==> out[j] == Cubic(f[x[i]], d0, d1, del, h, j - x[i])
    ensures GapIs(f, x, out, i, h, del, d0, d1)
  {
    hide Cubic;
  }

  /** The slopes the source gives to the knots: harmonic means inside, pchipend at the ends. */
  ghost predicate SlopesAre(h: seq<nat>, delta: seq<real>, d: seq<real>, abs: real -> real) {
    var n := |h|;
    && |delta| == n >= 2 && |d| == n + 1 && (forall i :: 0 <= i < n ==> h[i] > 0)
    && (forall i :: 1 <= i < n ==> d[i] == Interior(h[i - 1], h[i], delta[i - 1], delta[i]))
    && d[0] == PchipEnd(h[0], h[1], delta[0], delta[1], abs)
    && d[n] == PchipEnd(h[n - 1], h[n - 2], delta[n - 1], delta[n - 2], abs)
  }

  /** Smooth_f0 up to the logarithm: fewer than three voiced frames are an error; otherwise every frame
      from the first to the last knot gets a value between its two neighbouring knots, knots keep
      their values, and if the ends were not negative every frame is strictly positive. */
  method Interpolate(f0: seq<real>, abs: real -> real)
    returns (ok: bool, out: seq<real>, ghost x: seq<nat>, ghost h: seq<nat>, ghost delta: seq<real>, ghost d: seq<real>)
    requires f0 != []
    ensures AreKnots(Patched(f0), x, |f0|) && ok == (|x| >= 3)
    ensures ok ==> Filled(Patched(f0), x, out, |x| - 1)
    ensures ok ==> |h| == |delta| == |x| - 1 && SlopesAre(h, delta, d, abs)
    ensures ok ==> forall i :: 0 <= i < |h| ==>
      Interval(Patched(f0), x, i, h[i], delta[i]) && GapIs(Patched(f0), x, out, i, h[i], delta[i], d[i], d[i + 1])
    ensures ok && f0[0] >= 0.0 && f0[|f0| - 1] >= 0.0 ==> forall j :: 0 <= j < |out| ==> out[j] > 0.0
  {
    hide Filled, AreKnots, SlopeOk, Patched, Interior, PchipEnd, Interval, GapIs;
    var f := Patched(f0);
    var knots := Knots(f);
    x, out, h, delta, d := knots, f, [], [], [];
    if |knots| < 3 { return false, f, x, h, delta, d; }
    var lengths, means := Differences(f, knots);
    var slopes := Slopes(lengths, means, abs);
    out := FillAll(f, knots, lengths, means, slopes);
    ok, h, delta, d := true, lengths, means, slopes;
    if f0[0] >= 0.0 && f0[|f0| - 1] >= 0.0 {
      PatchedEnds(f0);
      AllPositive(f, x, out);
    }
  }

  lemma PatchedEnds(f: seq<real>)
    requires f != [] && f[0] >= 0.0 && f[|f| - 1] >= 0.0
    ensures Patched(f)[0] > 0.0 && Patched(f)[|f| - 1] > 0.0
  {
  }

  lemma FirstFilled(f: seq<real>, x: seq<nat>)
    requires AreKnots(f, x, |f|) && |x| >= 3
    ensures Filled(f, x, f, 0)
  {
    assert x[0] < x[1];
    assert Within(f[x[0]], f[x[0]], f[x[1]]);
    assert Enclosed(f, x, x[0], f[x[0]]);
  }

  lemma AllPositive(f: seq<real>, x: seq<nat>, out: seq<real>)
    requires f != [] && AreKnots(f, x, |f|) && |x| >= 3 && Filled(f, x, out, |x| - 1)
    requires f[0] > 0.0 && f[|f| - 1] > 0.0
    ensures forall j :: 0 <= j < |out| ==> out[j] > 0.0
  {
    hide AreKnots, Enclosed;
    EndKnots(f, x);
    forall j | 0 <= j < |out| ensures out[j] > 0.0 {
      EnclosedPositive(f, x, j, out[j]);
    }
  }

  lemma EndKnots(f: seq<real>, x: seq<nat>)
    requires f != [] && AreKnots(f, x, |f|) && f[0] > 0.0 && f[|f| - 1] > 0.0
    ensures x != [] && x[0] == 0 && x[|x| - 1] == |f| - 1
  {
    var i :| 0 <= i < |x| && x[i] == 0;
    var j :| 0 <= j < |x| && x[j] == |f| - 1;
  }

  lemma EnclosedPositive(f: seq<real>, x: seq<nat>, j: nat, v: real)
    requires AreKnots(f, x, |f|) && Enclosed(f, x, j, v)
    ensures v > 0.0
  {
    var i :| 0 <= i < |x| - 1 && x[i] <= j <= x[i + 1] < |f| && Within(v, f[x[i]], f[x[i + 1]]);
  }
}
