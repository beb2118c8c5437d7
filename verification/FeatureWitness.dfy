/** Why the quiet condition of the feature extractor is the right one: whenever sizes, calls and settings break
    it, a steep ramp of samples makes acceleration rows differ from the slopes of the deltas. */
module FeatureWitness {
  import opened FeatureStats
  import opened FeatureNorm
  import opened FeatureStream
  import CrossCorr

  // ---------------------------------------------------------------- ramps

  ghost predicate Ramp(v: seq<real>, g: real) {
    forall i :: 0 <= i < |v| ==> v[i] == g * i as real
  }

  lemma Rises(g: real, i: nat, j: nat)
    requires i >= j
    ensures g * i as real - g * j as real == g * (i - j) as real
  {
    assert i as real == j as real + (i - j) as real;
    assert g * (j as real + (i - j) as real) == g * j as real + g * (i - j) as real;
  }

  lemma NonNegative(x: real, y: real)
    requires x >= 0.0 && y >= 0.0
    ensures x * y >= 0.0
  {
  }

  /** The share of its steepness that the slope of a ramp reaches at frame `k`. */
  function Share(k: nat): real { if k == 0 then 0.5 else if k == 1 then 0.8 else 1.0 }

  function Rise(k: nat, g: real): real { Share(k) * g }

  /** Two frames before its end and earlier, a ramp has these slopes. */
  lemma RampSlope(b: seq<real>, g: real, k: nat)
    requires Ramp(b, g) && k + 2 < |b|
    ensures Slope(b, k) == Rise(k, g)
  {
    hide Ramp, Slope;
    var s1, s2 := First(k, 1), First(k, 2);
    RampGap(b, g, k + 1, s1);
    RampGap(b, g, k + 2, s2);
    SlopeForm(b, k);
    Weighted(g, (k + 1 - s1) as real, (k + 2 - s2) as real, b[k + 1] - b[s1], b[k + 2] - b[s2], Share(k));
  }

  lemma RampGap(b: seq<real>, g: real, i: nat, j: nat)
    requires Ramp(b, g) && j <= i < |b|
    ensures b[i] - b[j] == g * (i - j) as real
  {
    Rises(g, i, j);
  }

  lemma SlopeForm(b: seq<real>, k: nat)
    requires k + 2 < |b|
    ensures Slope(b, k) == ((b[k + 1] - b[First(k, 1)]) + 2.0 * (b[k + 2] - b[First(k, 2)])) / 10.0
  {
  }

  lemma Weighted(g: real, x: real, y: real, p: real, q: real, share: real)
    requires p == g * x && q == g * y && x + 2.0 * y == 10.0 * share
    ensures (p + 2.0 * q) / 10.0 == share * g
  {
    assert p + 2.0 * q == g * (x + 2.0 * y);
  }

  /** The slopes of a ramp rise, and none is below half its steepness. */
  lemma SharesRise(j: nat, k: nat, g: real)
    requires j <= k && g > 0.0
    ensures g / 2.0 <= Rise(j, g) <= Rise(k, g)
  {
  }

  lemma {:induction false} SumAtLeast(v: seq<real>, a: nat, b: nat, lo: real)
    requires a < b <= |v| && lo > 0.0 && forall i :: a <= i < b ==> v[i] >= lo
    ensures RangeSum(v, a, b) >= lo
  {
    if a < b - 1 { SumAtLeast(v, a, b - 1, lo); } else { assert RangeSum(v, a, a) == 0.0; }
  }

  /** A mean of values above what the prior could pull down is positive. */
  lemma MeanPositive(v: seq<real>, n: nat, c: Config, prior: real, lo: real)
    requires 0 < n <= |v| && Serves(c.hist) && lo > 0.0 && lo + prior * c.weight as real > 0.0
    requires forall i :: 0 <= i < n ==> v[i] >= lo
    ensures TrueMean(v, n, c, prior) > 0.0
  {
    NeededIsKept(n, c.hist);
    var a := SUM_SPAN * Needed(n, c.hist);
    SumAtLeast(v, a, n, lo);
    QuotientPositive(RangeSum(v, a, n) + prior * c.weight as real, (n - a + c.weight) as real);
  }

  lemma QuotientPositive(x: real, y: real)
    requires x > 0.0 && y > 0.0
    ensures x / y > 0.0
  {
  }

  // ---------------------------------------------------------------- normalised deltas are lower

  /** Every normalised row is below the row as computed. */
  ghost predicate Lowered(t: Track) {
    |t.done| <= |t.raw| && forall j :: 0 <= j < |t.done| ==> t.raw[j] > t.done[j]
  }

  /** What a row becomes. */
  ghost function Outcome(v: seq<real>, n: nat, c: Config, prior: Prior, j: nat): real
    requires 0 < n <= |v| && j < |v| && Serves(c.hist)
  {
    Normed(v[j], TrueMean(v, n, c, prior.mean), if c.cvn then TrueDeviation(v, n, c, prior) else 1.0, c.cvn)
  }

  lemma LoweredStays(was: Track, t: Track, n: nat, top: nat, c: Config, prior: Prior)
    requires NormedFrom(was.done, t, n, top, c, prior) && Lowered(was) && was.raw <= t.raw
    requires n > 0 ==> forall j :: 0 <= j < n ==> Outcome(t.raw, n, c, prior, j) < t.raw[j]
    ensures Lowered(t)
  {
    hide TrueMean, TrueDeviation, Normed;
    if n > 0 {
      forall j | |was.done| <= j < |t.done| ensures t.raw[j] > t.done[j] {
        assert t.done[j] == Outcome(t.raw, n, c, prior, j);
      }
    }
  }

  // ---------------------------------------------------------------- with variance normalisation

  /** The spread of a window is at least that of its last value. */
  lemma SpreadLast(v: seq<real>, m: real, a: nat, b: nat)
    requires a < b <= |v|
    ensures Spread(RangeSum(Squares(v), a, b), RangeSum(v, a, b), m, (b - a) as real) >= (v[b - 1] - m) * (v[b - 1] - m)
  {
    hide Spread;
    var s2, s1, x, c := RangeSum(Squares(v), a, b - 1), RangeSum(v, a, b - 1), v[b - 1], (b - 1 - a) as real;
    SpreadNonNeg(v, m, a, b - 1);
    assert Spread(s2, s1, m, c) >= 0.0;
    assert Squares(v)[b - 1] == x * x;
    SpreadAdds(s2, s1, x, m, c, RangeSum(Squares(v), a, b), RangeSum(v, a, b), (b - a) as real);
    assert Spread(RangeSum(Squares(v), a, b), RangeSum(v, a, b), m, (b - a) as real) == Spread(s2, s1, m, c) + (x - m) * (x - m);
  }

  /** The number of frames, the prior's included, that a mean is taken over. */
  ghost function Counted(n: nat, c: Config): real
    requires n > 0 && Serves(c.hist)
  {
    NeededIsKept(n, c.hist);
    (n - SUM_SPAN * Needed(n, c.hist)) as real + c.weight as real
  }

  lemma VarianceCovers(v: seq<real>, n: nat, c: Config, prior: Prior)
    requires 0 < n <= |v| && Serves(c.hist) && prior.square >= prior.mean * prior.mean
    ensures var x := v[n - 1] - TrueMean(v, n, c, prior.mean);
      TrueVariance(v, n, c, prior) * Counted(n, c) >= x * x && 1.0 <= Counted(n, c) <= n as real + c.weight as real
  {
    hide MeanOf, RangeSum, Squares, Spread, IsMean;
    NeededIsKept(n, c.hist);
    var a, w := SUM_SPAN * Needed(n, c.hist), c.weight as real;
    var s1, s2, count := RangeSum(v, a, n), RangeSum(Squares(v), a, n), (n - a) as real;
    var mu, second := MeanOf(s1, n - a, prior.mean, c.weight), MeanOf(s2, n - a, prior.square, c.weight);
    MeanTimes(s1, n - a, prior.mean, c.weight);
    MeanTimes(s2, n - a, prior.square, c.weight);
    SpreadLast(v, mu, a, n);
    PriorSpread(prior.mean, prior.square, mu, w);
    VarianceTimes(s1, s2, count, w, prior.mean, prior.square, mu, second);
  }

  /** A deviation from the mean is at most the count times the standard deviation. */
  lemma Standardised(x: real, variance: real, s: real, t: real)
    requires s >= 0.0 && s * s == variance && variance * t >= x * x && t >= 1.0
    ensures x <= s * t
  {
    if x > s * t {
      Larger(s * t, x);
      SquareOf(s, t);
      Scaled(variance, t);
    }
  }

  lemma Larger(a: real, b: real)
    requires 0.0 <= a < b
    ensures a * a < b * b
  {
    Bigger(a, b, b);
    NonNegative(a, b - a);
    assert a * (b - a) == a * b - a * a;
  }

  lemma SquareOf(s: real, t: real)
    ensures (s * t) * (s * t) == (s * s) * (t * t)
  {
  }

  lemma Scaled(v: real, t: real)
    requires v >= 0.0 && t >= 1.0
    ensures v * (t * t) >= v * t
  {
    NonNegative(t, t - 1.0);
    assert t * (t - 1.0) == t * t - t;
    NonNegative(v, t * t - t);
    assert v * (t * t - t) == v * (t * t) - v * t;
  }

  /** A row no higher than the last one, normalised, is at most the count. */
  lemma NormedAtMost(raw: real, last: real, mu: real, va: real, s: real, t: real)
    requires raw <= last && last - mu <= s * t && 0.0 <= s <= va && va > 0.0 && t >= 1.0
    ensures (raw - mu) / va <= t
  {
    var d := raw - mu;
    assert s * t <= va * t;
    Quotients(d, va, t);
  }

  lemma Quotients(d: real, va: real, t: real)
    requires va > 0.0 && d <= va * t
    ensures d / va <= t
  {
    if d / va > t { Bigger(t, d / va, va); Undone(d, va); }
  }

  lemma Bigger(x: real, y: real, z: real)
    requires x < y && z > 0.0
    ensures x * z < y * z
  {
  }

  lemma Undone(x: real, y: real)
    requires y > 0.0
    ensures x / y * y == x
  {
  }

  // ---------------------------------------------------------------- every row comes out lower

  /** The settings under which the ramp serves: any without variance normalisation; with it, a true square root
      and a prior that has a variance. */
  ghost predicate Sane(c: Config, prior: Prior) {
    c.cvn ==> CrossCorr.IsSqrt(c.root) && prior.square >= prior.mean * prior.mean
  }

  lemma OutcomeLower(v: seq<real>, n: nat, c: Config, prior: Prior, j: nat, lo: real)
    requires 0 < n <= |v| && j < n && Serves(c.hist) && Sane(c, prior)
    requires (forall i :: 0 <= i < n ==> v[i] >= lo) && v[j] <= v[n - 1]
    requires lo > n as real + c.weight as real && lo + prior.mean * c.weight as real > 0.0
    ensures Outcome(v, n, c, prior, j) < v[j]
  {
    hide TrueMean;
    var mu := TrueMean(v, n, c, prior.mean);
    if c.cvn {
      hide TrueVariance, Counted;
      var variance := TrueVariance(v, n, c, prior);
      VarianceHolds(v, n, c, prior);
      VarianceCovers(v, n, c, prior);
      var s := c.root(variance);
      Standardised(v[n - 1] - mu, variance, s, Counted(n, c));
      NormedAtMost(v[j], v[n - 1], mu, Floored(s), s, Counted(n, c));
    } else {
      MeanPositive(v, n, c, prior.mean, lo);
    }
  }

  /** A delta row the next acceleration loop reads is normalised. */
  ghost predicate Touched(at: Indices, h: History) { |h.d.done| > First(at.baseFrame, 6) }

  /** Some acceleration row is not the slope of the deltas, whatever follows. */
  ghost predicate Wrong(h: History) {
    exists k :: 0 <= k < |h.a.raw| && k + 2 < |h.d.raw| && h.a.raw[k] != Slope(h.d.raw, k)
  }

  lemma WrongStays(h: History, r: History)
    requires Wrong(h) && h.d.raw <= r.d.raw && h.a.raw <= r.a.raw
    ensures Wrong(r) && !SlopesOf(r.a.raw, r.d.raw)
  {
    hide Slope;
    var k :| 0 <= k < |h.a.raw| && k + 2 < |h.d.raw| && h.a.raw[k] != Slope(h.d.raw, k);
    SlopeExtends(h.d.raw, r.d.raw, k);
    assert r.a.raw[k] != Slope(r.d.raw, k);
  }

  /** The first row computed after a touched state comes out too high. */
  lemma TouchedErrs(h: History, r: History)
    requires ReadsColumn(h, r) && Lowered(h.d) && h.d.raw <= r.d.raw
    requires |h.d.done| <= |h.a.raw| < |r.a.raw| && |h.d.done| > First(|h.a.raw|, 2)
    ensures r.a.raw[|h.a.raw|] > Slope(r.d.raw, |h.a.raw|)
  {
    hide Slope;
    var k, n := |h.a.raw|, |r.d.raw|;
    var t := Track(r.d.raw, h.d.done);
    AccelerationError(h, r, k);
    assert Moved(t, Clamp(k - 2, n)) > 0.0 && Moved(t, Clamp(k - 1, n)) >= 0.0;
  }

  lemma UnquietDue(n: nat, c: Config)
    requires !Quiet(n, c)
    ensures n > 4 && Due(n - 4, false, c) > First(n, 6)
  {
  }

  /** The run is quiet so far, or has gone wrong, or is about to. */
  ghost predicate Told(at: Indices, h: History) { h.quiet || Wrong(h) || Touched(at, h) }

  /** One call keeps this. */
  lemma CallTells(h: History, r: History, at: Indices, at2: Indices, c: Config, prior: Prior)
    requires Called(h, r, at, at2, c, prior) && Told(at, h) && Lowered(h.d)
    requires r.quiet == (h.quiet && Quiet(at2.baseFrame, c)) && |h.a.raw| == First(at.baseFrame, 4)
    requires |h.d.done| == at.normedIdx <= |h.a.raw|
    ensures Told(at2, r)
  {
    hide ReadsColumn, NormedFrom, Quiet;
    if !Quiet(at2.baseFrame, c) {
      UnquietDue(at2.baseFrame, c);
    } else if !h.quiet {
      if Wrong(h) {
        WrongStays(h, r);
      } else if |r.a.raw| > |h.a.raw| {
        TouchedErrs(h, r);
        assert |h.a.raw| + 2 < |r.d.raw|;
      }
    }
  }

  /** Steeper than frames, prior weight and prior could pull down. */
  ghost predicate Steep(g: real, frames: nat, c: Config, prior: Prior) {
    g > 0.0 && g / 2.0 > frames as real + c.weight as real && g / 2.0 + prior.mean * c.weight as real > 0.0
  }

  /** And the deltas stay high enough for the next one. */
  lemma CallLowers(h: History, r: History, at: Indices, at2: Indices, c: Config, prior: Prior, g: real)
    requires Called(h, r, at, at2, c, prior) && Lowered(h.d) && Sane(c, prior) && Serves(c.hist)
    requires SlopesOf(r.d.raw, r.b.raw) && Ramp(r.b.raw, g) && Steep(g, |r.b.raw|, c, prior)
    ensures Lowered(r.d)
  {
    hide NormedFrom, Slope, Outcome, ReadsColumn, Sane, Rise;
    var n := |r.a.raw|;
    forall i, j | 0 <= i <= j < n ensures g / 2.0 <= r.d.raw[i] <= r.d.raw[j] {
      RampSlope(r.b.raw, g, i);
      RampSlope(r.b.raw, g, j);
      SharesRise(i, j, g);
    }
    forall j | 0 <= j < n ensures Outcome(r.d.raw, n, c, prior, j) < r.d.raw[j] {
      OutcomeLower(r.d.raw, n, c, prior, j, g / 2.0);
    }
    LoweredStays(h.d, r.d, n, at2.normedIdx, c, prior);
  }

  // ---------------------------------------------------------------- the ramp as input

  function FirstSample(s: seq<real>): real { if s == [] then 0.0 else s[0] }

  lemma FeaturesRamp(raw: seq<real>, signal: seq<real>, len: nat, shift: nat, g: real)
    requires len > 0 && shift > 0 && Featured(raw, FirstSample, signal, len, shift) && Ramp(signal, g)
    ensures Ramp(raw, g * shift as real)
  {
    hide FrameCount, Feature;
    var steep := g * shift as real;
    forall i | 0 <= i < |raw| ensures raw[i] == steep * i as real {
      FeatureRamp(signal, i, len, shift, g);
    }
  }

  lemma FeatureRamp(signal: seq<real>, i: nat, len: nat, shift: nat, g: real)
    requires len > 0 && shift > 0 && i < FrameCount(|signal|, len, shift) && Ramp(signal, g)
    ensures Feature(FirstSample, signal, i, len, shift) == g * shift as real * i as real
  {
    hide FrameCount;
    FrameFits(i, |signal|, len, shift);
    FirstOfFrame(signal, i, len, shift);
    Scale(g, i, shift);
  }

  lemma FirstOfFrame(signal: seq<real>, i: nat, len: nat, shift: nat)
    requires len > 0 && i * shift + len <= |signal|
    ensures Feature(FirstSample, signal, i, len, shift) == signal[i * shift]
  {
    var at := i * shift;
    assert signal[at..at + len][0] == signal[at];
  }

  lemma Scale(g: real, i: nat, shift: nat)
    ensures g * (i * shift) as real == g * shift as real * i as real
  {
    assert (i * shift) as real == i as real * shift as real;
  }

  /** `n` samples of the ramp from sample `from` on. */
  function RampPart(from: nat, n: nat, g: real): (r: seq<real>)
    ensures |r| == n
  {
    seq(n, i requires 0 <= i => g * (from + i) as real)
  }

  /** The ramp cut into chunks of the given sizes; a chunk after a refused one starts where that one did. */
  ghost function RampChunks(sizes: seq<nat>, calls: seq<bool>, len: nat, shift: nat, c: Config, g: real): (r: seq<seq<real>>)
    requires shift > 0 && |calls| == |sizes|
    ensures |r| == |sizes|
    ensures forall k :: 0 <= k < |sizes| ==> r[k] == RampPart(CourseOf(sizes[..k], calls[..k], len, shift, c).at.samples, sizes[k], g)
  {
    seq(|sizes|, k requires 0 <= k < |sizes| => RampPart(CourseOf(sizes[..k], calls[..k], len, shift, c).at.samples, sizes[k], g))
  }

  lemma RampJoin(v: seq<real>, n: nat, g: real)
    requires Ramp(v, g)
    ensures Ramp(v + RampPart(|v|, n, g), g)
  {
    var w := v + RampPart(|v|, n, g);
    forall i | 0 <= i < |w| ensures w[i] == g * i as real {
      if i >= |v| { assert w[i] == RampPart(|v|, n, g)[i - |v|]; }
    }
  }

  // ---------------------------------------------------------------- the run

  /** The last call, too, tells. */
  lemma EndTells(h: History, r: History, at: Indices)
    requires ReadsColumn(h, r) && Told(at, h) && !h.quiet && Lowered(h.d) && h.d.raw <= r.d.raw && h.a.raw <= r.a.raw
    requires |h.a.raw| == First(at.baseFrame, 4) && |h.d.done| <= |h.a.raw| && |r.a.raw| == |r.d.raw| >= at.baseFrame
    ensures !SlopesOf(r.a.raw, r.d.raw)
  {
    hide ReadsColumn, Slope;
    if Wrong(h) { WrongStays(h, r); } else { TouchedErrs(h, r); }
  }

  /** What the ramp run keeps. */
  ghost predicate Ramping(at: Indices, h: History, c: Config, shift: nat, g: real, prior: Prior, total: nat) {
    && shift > 0 && Ramp(h.signal, g) && Told(at, h) && Lowered(h.d)
    && Steep(g, total, c, prior) && Sane(c, prior) && Serves(c.hist)
  }

  /** One chunk of the ramp, with or without a call. */
  lemma RampStep(h: History, r: History, at: Indices, at2: Indices, c: Config, len: nat, shift: nat, g: real, prior: Prior, total: nat, called: bool)
    requires Ramping(at, h, c, shift, g, prior, total) && Ramp(r.signal, g) && len > 0 && |r.signal| <= total
    requires Featured(r.b.raw, FirstSample, r.signal, len, shift) && SlopesOf(r.d.raw, r.b.raw)
    requires |h.a.raw| == First(at.baseFrame, 4) && |h.d.done| == at.normedIdx <= |h.a.raw|
    requires !called ==> r.d == h.d && r.a == h.a && r.quiet == h.quiet && at2.baseFrame == at.baseFrame
    requires called ==> Called(h, r, at, at2, c, prior) && r.quiet == (h.quiet && Quiet(at2.baseFrame, c))
    ensures Ramping(at2, r, c, shift, g, prior, total)
  {
    hide Featured, SlopesOf, Called, Quiet, FrameCount, Slope, Sane;
    if called {
      CallTells(h, r, at, at2, c, prior);
      FeaturesRamp(r.b.raw, r.signal, len, shift, g);
      FewFrames(r.b.raw, r.signal, len, shift);
      Steeper(g, shift, |r.b.raw|, total, c, prior);
      CallLowers(h, r, at, at2, c, prior, g * shift as real);
    }
  }

  /** There are no more frames than samples. */
  lemma FewFrames(raw: seq<real>, signal: seq<real>, len: nat, shift: nat)
    requires len > 0 && shift > 0 && Featured(raw, FirstSample, signal, len, shift)
    ensures |raw| <= |signal|
  {
    hide FrameCount, Feature;
    if |raw| > 0 {
      FrameFits(|raw| - 1, |signal|, len, shift);
      Times(1, shift, |raw| - 1);
    }
  }

  lemma Steeper(g: real, shift: nat, frames: nat, total: nat, c: Config, prior: Prior)
    requires Steep(g, total, c, prior) && shift > 0 && frames <= total
    ensures Steep(g * shift as real, frames, c, prior)
  {
    NonNegative(g, shift as real - 1.0);
    assert g * (shift as real - 1.0) == g * shift as real - g;
  }

  function Magnitude(x: real): real { if x < 0.0 then -x else x }

  /** The converse of the quiet law: for the sizes, calls and settings of any run that loses no row and is not
      quiet, a ramp cut the same way ends with acceleration rows that are not the slopes of the deltas. */
  method UnquietIsWrong(c: Config, len: nat, shift: nat, base: Table, delta: Table, acce: Table, sizes: seq<nat>, calls: seq<bool>)
    returns (x: Extractor, ghost chunks: seq<seq<real>>)
    requires Serves(c.hist) && shift > 0 && len > 0 && Sized(base) && Sized(delta) && Sized(acce) && |calls| == |sizes|
    requires c.cvn ==> CrossCorr.IsSqrt(c.root) && delta.prior.square >= delta.prior.mean * delta.prior.mean
    ensures fresh(x) && x.c == c && x.len == len && x.shift == shift && Sizes(chunks) == sizes
    ensures var p := CourseOf(sizes, calls, len, shift, c);
      && x.lost == p.lost
      && (!p.lost ==> x.Valid() && x.h.ended && x.h.signal == Joined(chunks, p.taken))
      && (!p.lost && !p.quiet ==> !SlopesOf(x.h.a.raw, x.h.d.raw))
  {
    hide TableOk, SlopesOf, Featured, Buffered, FrameCount, Quiet, NormedFrom, ReadsColumn, NormedIndices, CourseOf, Joined, Step,
         Settles, Called, Ramping, Ramp, Serves, Refuses, Loses, Added, Length;
    x := new Extractor(c, len, shift, FirstSample, base, delta, acce);
    ghost var prior, total := x.delta.prior, Length(sizes);
    var g := 2.0 * (1.0 + Magnitude(x.delta.prior.mean * c.weight as real) + Length(sizes) as real + c.weight as real);
    chunks := RampChunks(sizes, calls, len, shift, c, g);
    ghost var p := CourseStart(chunks, sizes, calls, len, shift, c);
    RampStart(x.at, x.h, c, shift, g, prior, total);
    LengthNone(sizes);
    for k := 0 to |sizes|
      invariant p == CourseOf(sizes[..k], calls[..k], len, shift, c) && !p.lost
      invariant x.Valid() && !x.h.ended && !x.lost && x.at == p.at && x.h.quiet == p.quiet && x.h.signal == Joined(chunks[..k], p.taken)
      invariant x.delta.prior == prior && Ramping(x.at, x.h, c, shift, g, prior, total) && x.at.samples <= Length(sizes[..k])
    {
      ghost var h, at := x.h, x.at;
      CourseStep(sizes, calls, len, shift, c, k);
      StepIs(p, sizes[k], calls[k], len, shift, c);
      JoinedStep(chunks, p.taken, !Refuses(p.at, sizes[k], shift), k);
      var part := RampPart(x.at.samples, sizes[k], g);
      Feed(x, part, calls[k]);
      p := Step(p, sizes[k], calls[k], len, shift, c);
      if x.lost {
        LostStays(sizes, calls, len, shift, c, k + 1);
        return;
      }
      RampOn(h.signal, x.h.signal, at, sizes[k], len, shift, g, sizes, k, c, prior, h, total);
      NextFrames(at, sizes[k], calls[k], len, shift, c);
      RampStep(h, x.h, at, x.at, c, len, shift, g, prior, total, calls[k]);
    }
    CourseWhole(sizes, calls, len, shift, c);
    assert chunks[..|chunks|] == chunks;
    ghost var h, at := x.h, x.at;
    x.NormDiff2(true);
    if !h.quiet { RampEnd(h, x.h, at, c, shift, g, prior, total); }
  }

  lemma LengthNone(sizes: seq<nat>)
    ensures Length(sizes[..0]) == 0
  {
  }

  /** The ramp goes on, and stays below the total. */
  lemma RampOn(was: seq<real>, signal: seq<real>, at: Indices, n: nat, len: nat, shift: nat, g: real, sizes: seq<nat>, k: nat, c: Config,
               prior: Prior, h: History, total: nat)
    requires shift > 0 && Ramping(at, h, c, shift, g, prior, total) && was == h.signal && |was| == at.samples
    requires signal == was + (if Refuses(at, n, shift) then [] else RampPart(at.samples, n, g))
    requires k < |sizes| && n == sizes[k] && at.samples <= Length(sizes[..k]) && total == Length(sizes)
    ensures Ramp(signal, g) && |signal| <= Length(sizes[..k + 1]) <= total
  {
    hide Ramp, Told, Lowered, Steep, Sane, Refuses, Length;
    LengthStep(sizes, k);
    LengthGrows(sizes, k + 1);
    if !Refuses(at, n, shift) { RampJoin(was, n, g); } else { assert signal == was; }
  }

  /** A call looks at all frames there are. */
  lemma NextFrames(at: Indices, k: nat, call: bool, len: nat, shift: nat, c: Config)
    requires shift > 0
    ensures call ==> NextAt(at, k, call, len, shift, c).baseFrame == Added(at, k, len, shift).nFrame
  {
    hide Added;
  }

  lemma RampStart(at: Indices, h: History, c: Config, shift: nat, g: real, prior: Prior, total: nat)
    requires h == Nothing() && shift > 0 && Sane(c, prior) && Serves(c.hist)
    requires g == 2.0 * (1.0 + Magnitude(prior.mean * c.weight as real) + total as real + c.weight as real)
    ensures Ramping(at, h, c, shift, g, prior, total)
  {
    hide Sane, Serves;
  }

  lemma RampEnd(h: History, r: History, at: Indices, c: Config, shift: nat, g: real, prior: Prior, total: nat)
    requires Ramping(at, h, c, shift, g, prior, total) && !h.quiet && ReadsColumn(h, r) && h.d.raw <= r.d.raw && h.a.raw <= r.a.raw
    requires |h.a.raw| == First(at.baseFrame, 4) && |h.d.done| <= |h.a.raw| && |r.a.raw| == |r.d.raw| >= at.baseFrame
    ensures !SlopesOf(r.a.raw, r.d.raw)
  {
    hide ReadsColumn, SlopesOf, Sane;
    EndTells(h, r, at);
  }
}
