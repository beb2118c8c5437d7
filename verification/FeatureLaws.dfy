/** What the normaliser of PLP.cpp is for: a row times the deviation plus the mean is the row as computed again,
    and a window normalised in one call without prior has mean zero and, with variance normalisation, variance one. */
module FeatureLaws {
  import opened FeatureStats
  import opened FeatureNorm
  import CrossCorr

  /** The first frame of the window that ends before frame `n`. */
  ghost function WindowStart(n: nat, hist: int): (a: nat)
    requires n > 0 && Serves(hist)
    ensures a < n && n - a >= (if n < hist then n else hist) && (a > 0 ==> n - a < hist + SUM_SPAN)
  {
    NeededIsKept(n, hist);
    SUM_SPAN * Needed(n, hist)
  }

  /** What a row is divided by. */
  ghost function Divisor(v: seq<real>, n: nat, c: Config, prior: Prior): (va: real)
    requires 0 < n <= |v| && Serves(c.hist)
    ensures va > 0.0
  {
    if c.cvn then TrueDeviation(v, n, c, prior) else 1.0
  }

  /** Rows `from` to `to` can be had back from their normalised values. */
  ghost predicate Restores(t: Track, from: nat, to: nat, n: nat, c: Config, prior: Prior) {
    && 0 < n <= |t.raw| && Serves(c.hist) && to <= |t.done| <= |t.raw|
    && forall j :: from <= j < to ==>
         t.done[j] * Divisor(t.raw, n, c, prior) + TrueMean(t.raw, n, c, prior.mean) == t.raw[j]
  }

  /** The window that ends before row `n`, normalised: its mean is zero and its variance one. */
  ghost predicate Standardised(t: Track, n: nat, c: Config, prior: Prior) {
    && 0 < n <= |t.done| <= |t.raw| && Serves(c.hist)
    && RangeSum(t.done, WindowStart(n, c.hist), n) == 0.0
    && (c.cvn && CrossCorr.IsSqrt(c.root) && TrueVariance(t.raw, n, c, prior) >= 0.000001 ==>
          RangeSum(Squares(t.done), WindowStart(n, c.hist), n) == (n - WindowStart(n, c.hist)) as real)
  }

  // ---------------------------------------------------------------- sums over normalised rows

  lemma {:induction false} SumOfNormed(done: seq<real>, raw: seq<real>, a: nat, b: nat, mu: real, va: real)
    requires a <= b <= |done| <= |raw| && forall j :: a <= j < b ==> done[j] * va + mu == raw[j]
    ensures RangeSum(done, a, b) * va == RangeSum(raw, a, b) - mu * (b - a) as real
    decreases b
  {
    if a < b {
      SumOfNormed(done, raw, a, b - 1, mu, va);
      assert (b - a) as real == (b - 1 - a) as real + 1.0;
      OneMore(RangeSum(done, a, b - 1), done[b - 1], va, mu, (b - 1 - a) as real);
    }
  }

  lemma OneMore(s: real, x: real, va: real, mu: real, n: real)
    ensures (s + x) * va == s * va + x * va && mu * (n + 1.0) == mu * n + mu
  {
  }

  lemma {:induction false} SquaresOfNormed(done: seq<real>, raw: seq<real>, a: nat, b: nat, mu: real, va: real)
    requires a <= b <= |done| <= |raw| && forall j :: a <= j < b ==> done[j] * va + mu == raw[j]
    ensures RangeSum(Squares(done), a, b) * (va * va) ==
            Spread(RangeSum(Squares(raw), a, b), RangeSum(raw, a, b), mu, (b - a) as real)
    decreases b
  {
    hide Spread, Squares;
    if a < b {
      SquaresOfNormed(done, raw, a, b - 1, mu, va);
      var s2, s1, x, c := RangeSum(Squares(raw), a, b - 1), RangeSum(raw, a, b - 1), raw[b - 1], (b - 1 - a) as real;
      LastSquare(raw, a, b);
      LastSquare(done, a, b);
      SpreadAdds(s2, s1, x, mu, c, RangeSum(Squares(raw), a, b), RangeSum(raw, a, b), (b - a) as real);
      SquareMore(RangeSum(Squares(done), a, b - 1), done[b - 1], va, x - mu);
    } else {
      NoSpread(mu);
    }
  }

  lemma LastSquare(v: seq<real>, a: nat, b: nat)
    requires a < b <= |v|
    ensures RangeSum(Squares(v), a, b) == RangeSum(Squares(v), a, b - 1) + v[b - 1] * v[b - 1]
  {
    assert Squares(v)[b - 1] == v[b - 1] * v[b - 1];
  }

  lemma NoSpread(mu: real)
    ensures Spread(0.0, 0.0, mu, 0.0) == 0.0
  {
  }

  lemma SquareMore(s: real, x: real, va: real, d: real)
    requires x * va == d
    ensures (s + x * x) * (va * va) == s * (va * va) + d * d
  {
    assert (s + x * x) * (va * va) == s * (va * va) + x * x * (va * va);
    assert x * x * (va * va) == (x * va) * (x * va);
  }

  // ---------------------------------------------------------------- the law

  /** The normalised rows of a window sum up to what the prior pulls the mean away, in deviations. */
  lemma PriorPull(t: Track, n: nat, c: Config, prior: Prior)
    requires Serves(c.hist) && n > 0 && Restores(t, WindowStart(n, c.hist), n, n, c, prior)
    ensures var mu := TrueMean(t.raw, n, c, prior.mean);
      RangeSum(t.done, WindowStart(n, c.hist), n) * Divisor(t.raw, n, c, prior) == (mu - prior.mean) * c.weight as real
  {
    hide Divisor, MeanOf, RangeSum;
    var a, mu, w := WindowStart(n, c.hist), TrueMean(t.raw, n, c, prior.mean), c.weight as real;
    SumOfNormed(t.done, t.raw, a, n, mu, Divisor(t.raw, n, c, prior));
    MeanTimes(RangeSum(t.raw, a, n), n - a, prior.mean, c.weight);
    assert mu * ((n - a) as real + w) == mu * (n - a) as real + mu * w;
    assert (mu - prior.mean) * w == mu * w - prior.mean * w;
  }

  /** Their squares sum up to the spread of the window about the mean, in squared deviations. */
  lemma SquaresLaw(t: Track, n: nat, c: Config, prior: Prior)
    requires Serves(c.hist) && n > 0 && Restores(t, WindowStart(n, c.hist), n, n, c, prior) && c.weight == 0
    ensures var va := Divisor(t.raw, n, c, prior); var a := WindowStart(n, c.hist);
      RangeSum(Squares(t.done), a, n) * (va * va) == TrueVariance(t.raw, n, c, prior) * (n - a) as real
  {
    hide Divisor, MeanOf, RangeSum, Squares, Spread, IsMean;
    var a, mu := WindowStart(n, c.hist), TrueMean(t.raw, n, c, prior.mean);
    var s1, s2 := RangeSum(t.raw, a, n), RangeSum(Squares(t.raw), a, n);
    SquaresOfNormed(t.done, t.raw, a, n, mu, Divisor(t.raw, n, c, prior));
    MeanTimes(s1, n - a, prior.mean, 0);
    MeanTimes(s2, n - a, prior.square, 0);
    var second := MeanOf(s2, n - a, prior.square, 0);
    VarianceTimes(s1, s2, (n - a) as real, 0.0, prior.mean, prior.square, mu, second);
  }

  /** The deviation squared is the variance, unless that is below the floor. */
  lemma DeviationIs(v: seq<real>, n: nat, c: Config, prior: Prior)
    requires 0 < n <= |v| && Serves(c.hist) && CrossCorr.IsSqrt(c.root) && TrueVariance(v, n, c, prior) >= 0.0
    ensures var va := TrueDeviation(v, n, c, prior);
      && (TrueVariance(v, n, c, prior) >= 0.000001 ==> va * va == TrueVariance(v, n, c, prior))
      && (TrueVariance(v, n, c, prior) < 0.000001 ==> va == 0.001)
  {
    hide TrueVariance;
    var x := TrueVariance(v, n, c, prior);
    Thousandth(c.root(x), x);
  }

  lemma Thousandth(s: real, x: real)
    requires s >= 0.0 && s * s == x
    ensures x >= 0.000001 <==> s >= 0.001
  {
    if s < 0.001 {
      assert s * s <= s * 0.001;
    } else {
      assert s * s >= s * 0.001;
    }
  }

  /** A window normalised in one call, without prior weight, is standardised. */
  lemma OneCall(t: Track, n: nat, c: Config, prior: Prior)
    requires Serves(c.hist) && n > 0 && Restores(t, WindowStart(n, c.hist), n, n, c, prior) && c.weight == 0
    ensures Standardised(t, n, c, prior)
  {
    hide Divisor, TrueMean, TrueVariance, TrueDeviation, RangeSum;
    var a, va := WindowStart(n, c.hist), Divisor(t.raw, n, c, prior);
    PriorPull(t, n, c, prior);
    NoneLeft(RangeSum(t.done, a, n), va);
    if c.cvn && CrossCorr.IsSqrt(c.root) && TrueVariance(t.raw, n, c, prior) >= 0.000001 {
      SquaresLaw(t, n, c, prior);
      DeviationIs(t.raw, n, c, prior);
      DivisorIs(t.raw, n, c, prior);
      Cancel(RangeSum(Squares(t.done), a, n), (n - a) as real, va * va, TrueVariance(t.raw, n, c, prior));
    }
  }

  lemma DivisorIs(v: seq<real>, n: nat, c: Config, prior: Prior)
    requires 0 < n <= |v| && Serves(c.hist) && c.cvn
    ensures Divisor(v, n, c, prior) == TrueDeviation(v, n, c, prior)
  {
  }

  lemma NoneLeft(x: real, va: real)
    requires x * va == 0.0 && va > 0.0
    ensures x == 0.0
  {
  }

  lemma Cancel(x: real, y: real, q: real, z: real)
    requires x * q == z * y && q == z && z > 0.0
    ensures x == y
  {
    NoneLeft(x - y, z);
  }
}
