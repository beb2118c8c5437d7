/** Windowed statistics of the feature normaliser (PLP.cpp): one running sum per feature, and a ring of
    copies of it taken every SUM_SPAN frames, from which the sum over a recent window is recovered. */
module FeatureStats {

  const SUM_SPAN: nat := 100   // frames between two checkpoints
  const SUM_SIZE: nat := 120   // checkpoints kept

  /** A running sum and its checkpoint ring. */
  datatype Acc = Acc(sum: real, pot: seq<real>)

  /** The sum of the first `n` values. */
  ghost function Prefix(v: seq<real>, n: nat): real
    requires n <= |v|
  {
    if n == 0 then 0.0 else Prefix(v, n - 1) + v[n - 1]
  }

  /** The sum of v[a..b], nothing when the range is empty. */
  ghost function RangeSum(v: seq<real>, a: nat, b: nat): real
    requires b <= |v|
    decreases b
  {
    if a >= b then 0.0 else RangeSum(v, a, b - 1) + v[b - 1]
  }

  lemma {:induction false} PrefixSplit(v: seq<real>, a: nat, b: nat)
    requires a <= b <= |v|
    ensures Prefix(v, b) - Prefix(v, a) == RangeSum(v, a, b)
  {
    if a < b { PrefixSplit(v, a, b - 1); }
  }

  lemma {:induction false} PrefixExtends(v: seq<real>, w: seq<real>, n: nat)
    requires n <= |v| && v <= w
    ensures Prefix(v, n) == Prefix(w, n)
  {
    if n > 0 { PrefixExtends(v, w, n - 1); }
  }

  // ---------------------------------------------------------------- absorbing frames

  /** Frame `i` with value `x`: a checkpoint first, on every SUM_SPAN-th frame. */
  function Absorb(acc: Acc, i: nat, x: real): (r: Acc)
    requires |acc.pot| == SUM_SIZE
    ensures |r.pot| == SUM_SIZE
  {
    Acc(acc.sum + x,
        if i % SUM_SPAN == 0 then acc.pot[i / SUM_SPAN % SUM_SIZE := acc.sum] else acc.pot)
  }

  /** The accumulator after the first `n` frames, started on whatever an earlier utterance left in the
      ring. */
  function Absorbed(stale: seq<real>, v: seq<real>, n: nat): (r: Acc)
    requires |stale| == SUM_SIZE && n <= |v|
    ensures |r.pot| == SUM_SIZE
  {
    if n == 0 then Acc(0.0, stale) else Absorb(Absorbed(stale, v, n - 1), n - 1, v[n - 1])
  }

  /** Checkpoint `k` has been taken among the first `n` frames and not overwritten. */
  predicate Kept(n: nat, k: nat) { SUM_SPAN * k < n && (n - 1) / SUM_SPAN < k + SUM_SIZE }

  /** The accumulator stands for the first `n` values. */
  ghost predicate AccOk(acc: Acc, v: seq<real>, n: nat) {
    && |acc.pot| == SUM_SIZE && n <= |v|
    && acc.sum == Prefix(v, n)
    && forall k: nat :: Kept(n, k) ==> acc.pot[k % SUM_SIZE] == Prefix(v, SUM_SPAN * k)
  }

  lemma KeptStep(n: nat, k: nat)
    requires Kept(n + 1, k)
    ensures Kept(n, k) || (n % SUM_SPAN == 0 && k == n / SUM_SPAN)
    ensures n % SUM_SPAN == 0 && k != n / SUM_SPAN ==> k % SUM_SIZE != n / SUM_SPAN % SUM_SIZE
  {
  }

  lemma AbsorbKeeps(acc: Acc, v: seq<real>, n: nat)
    requires AccOk(acc, v, n) && n < |v|
    ensures AccOk(Absorb(acc, n, v[n]), v, n + 1)
  {
    var r := Absorb(acc, n, v[n]);
    forall k: nat | Kept(n + 1, k) ensures r.pot[k % SUM_SIZE] == Prefix(v, SUM_SPAN * k) {
      KeptStep(n, k);
    }
  }

  lemma AccOkExtends(acc: Acc, v: seq<real>, w: seq<real>, n: nat)
    requires AccOk(acc, v, n) && v <= w
    ensures AccOk(acc, w, n)
  {
    PrefixExtends(v, w, n);
    forall k: nat | Kept(n, k) ensures acc.pot[k % SUM_SIZE] == Prefix(w, SUM_SPAN * k) {
      PrefixExtends(v, w, SUM_SPAN * k);
    }
  }

  lemma {:induction false} AbsorbedOk(stale: seq<real>, v: seq<real>, n: nat)
    requires |stale| == SUM_SIZE && n <= |v|
    ensures AccOk(Absorbed(stale, v, n), v, n)
  {
    if n > 0 {
      AbsorbedOk(stale, v, n - 1);
      AbsorbKeeps(Absorbed(stale, v, n - 1), v, n - 1);
    }
  }

  // ---------------------------------------------------------------- reading a window

  /** The checkpoint from which a window of `hist` frames is counted. */
  function Needed(n: nat, hist: int): nat {
    (if n - hist < 0 then 0 else n - hist) / SUM_SPAN
  }

  /** The sum over the window, as the source reads it off the ring. */
  function WindowSum(acc: Acc, n: nat, hist: int): real
    requires |acc.pot| == SUM_SIZE
  {
    acc.sum - acc.pot[Needed(n, hist) % SUM_SIZE]
  }

  /** The histories for which no needed checkpoint is missing or overwritten. */
  predicate Serves(hist: int) { 1 <= hist <= SUM_SPAN * (SUM_SIZE - 1) + 1 }

  lemma NeededIsKept(n: nat, hist: int)
    requires n > 0 && Serves(hist)
    ensures Kept(n, Needed(n, hist))
  {
  }

  /** With the ring serving the history, the difference is the true sum over the window. */
  lemma WindowExact(acc: Acc, v: seq<real>, n: nat, hist: int)
    requires AccOk(acc, v, n) && n > 0 && Serves(hist)
    ensures SUM_SPAN * Needed(n, hist) < n
    ensures WindowSum(acc, n, hist) == RangeSum(v, SUM_SPAN * Needed(n, hist), n)
  {
    NeededIsKept(n, hist);
    PrefixSplit(v, SUM_SPAN * Needed(n, hist), n);
  }

  /** Reading the ring gives the true window sum for every column, every count and every leftover. */
  ghost predicate ExactFor(hist: int) {
    forall stale: seq<real>, v: seq<real>, n: nat | |stale| == SUM_SIZE && 0 < n <= |v| ::
      WindowSum(Absorbed(stale, v, n), n, hist) == RangeSum(v, SUM_SPAN * Needed(n, hist), n)
  }

  lemma {:induction false} OnesPrefix(v: seq<real>, n: nat)
    requires n <= |v| && forall i :: 0 <= i < |v| ==> v[i] == 1.0
    ensures Prefix(v, n) == n as real
  {
    if n > 0 { OnesPrefix(v, n - 1); }
  }

  /** A count at which the slot read holds another checkpoint than the needed one. */
  function BadCount(hist: int): (n: nat)
    requires !Serves(hist)
    ensures n > 0
    ensures Needed(n, hist) % SUM_SIZE == 0 && n - 1 >= 0
    ensures !Kept(n, Needed(n, hist))
  {
    if hist >= 1 then hist + SUM_SPAN - 1 else SUM_SPAN * SUM_SIZE * (1 - hist) + hist
  }

  /** The ring is exact if and only if the history is one frame to 11901 frames. */
  lemma ExactIff(hist: int)
    ensures ExactFor(hist) <==> Serves(hist)
  {
    if Serves(hist) {
      forall stale: seq<real>, v: seq<real>, n: nat | |stale| == SUM_SIZE && 0 < n <= |v|
        ensures WindowSum(Absorbed(stale, v, n), n, hist) == RangeSum(v, SUM_SPAN * Needed(n, hist), n) {
        AbsorbedOk(stale, v, n);
        WindowExact(Absorbed(stale, v, n), v, n, hist);
      }
    } else {
      var stale, v, n := StaleRead(hist);
    }
  }

  /** Outside that range a column of ones shows the ring giving a wrong sum. */
  lemma StaleRead(hist: int) returns (stale: seq<real>, v: seq<real>, n: nat)
    requires !Serves(hist)
    ensures |stale| == SUM_SIZE && 0 < n <= |v|
    ensures WindowSum(Absorbed(stale, v, n), n, hist) != RangeSum(v, SUM_SPAN * Needed(n, hist), n)
  {
    hide Absorbed, Prefix, RangeSum, Kept, BadCount;
    n := BadCount(hist);
    stale, v := seq(SUM_SIZE, _ => 0.0), seq(n, _ => 1.0);
    AbsorbedOk(stale, v, n);
    OnesPrefix(v, n);
    var k := LastInSlotZero(n);
    OnesPrefix(v, SUM_SPAN * k);
    OnesRange(v, SUM_SPAN * Needed(n, hist), n);
    if k == Needed(n, hist) { assert false; }
  }

  /** The checkpoint the first slot holds after `n` frames. */
  lemma LastInSlotZero(n: nat) returns (k: nat)
    requires n > 0
    ensures Kept(n, k) && k % SUM_SIZE == 0 && SUM_SPAN * k < n
  {
    k := SUM_SIZE * ((n - 1) / SUM_SPAN / SUM_SIZE);
  }

  lemma OnesRange(v: seq<real>, a: nat, b: nat)
    requires b <= |v| && forall i :: 0 <= i < |v| ==> v[i] == 1.0
    ensures RangeSum(v, a, b) == if a <= b then (b - a) as real else 0.0
  {
    if a <= b {
      PrefixSplit(v, a, b);
      OnesPrefix(v, a);
      OnesPrefix(v, b);
    }
  }

  // ---------------------------------------------------------------- mean and variance

  /** Mean over `count` frames and a prior worth `weight` frames. */
  function MeanOf(sum: real, count: nat, prior: real, weight: nat): real
    requires count + weight > 0
  {
    (sum + prior * weight as real) / (count + weight) as real
  }

  ghost function Squares(v: seq<real>): (r: seq<real>)
    ensures |r| == |v|
  {
    seq(|v|, i requires 0 <= i < |v| => v[i] * v[i])
  }

  /** The spread about `m` of `c` values with sum `s1` and sum of squares `s2`. */
  ghost function Spread(s2: real, s1: real, m: real, c: real): real { s2 - 2.0 * m * s1 + m * m * c }

  /** The sum of (v[i] - m)^2 over a range. */
  lemma {:induction false} SpreadNonNeg(v: seq<real>, m: real, a: nat, b: nat)
    requires a <= b <= |v|
    ensures Spread(RangeSum(Squares(v), a, b), RangeSum(v, a, b), m, (b - a) as real) >= 0.0
  {
    if a < b {
      SpreadNonNeg(v, m, a, b - 1);
      var s2, s1, x := RangeSum(Squares(v), a, b - 1), RangeSum(v, a, b - 1), v[b - 1];
      SpreadStep(s2, s1, x, m, (b - 1 - a) as real);
    }
  }

  lemma SpreadStep(s2: real, s1: real, x: real, m: real, c: real)
    requires s2 - 2.0 * m * s1 + m * m * c >= 0.0
    ensures (s2 + x * x) - 2.0 * m * (s1 + x) + m * m * (c + 1.0) >= 0.0
  {
    var left := (s2 + x * x) - 2.0 * m * (s1 + x) + m * m * (c + 1.0);
    assert 2.0 * m * (s1 + x) == 2.0 * m * s1 + 2.0 * m * x;
    assert m * m * (c + 1.0) == m * m * c + m * m;
    assert (x - m) * (x - m) == x * x - 2.0 * m * x + m * m;
    SquareNonNeg(x - m);
  }

  lemma SquareNonNeg(x: real)
    ensures x * x >= 0.0
  {
  }

  /** A window and a prior whose second moment covers its squared mean give a non-negative variance,
      the radicand of the source's square root. */
  lemma VarianceNonNeg(v: seq<real>, a: nat, b: nat, mean: real, square: real, weight: nat)
    requires a < b <= |v| && square >= mean * mean
    ensures
      var mu := MeanOf(RangeSum(v, a, b), b - a, mean, weight);
      MeanOf(RangeSum(Squares(v), a, b), b - a, square, weight) - mu * mu >= 0.0
  {
    hide MeanOf, RangeSum, Squares, Spread, IsMean;
    var s1, s2, c, w := RangeSum(v, a, b), RangeSum(Squares(v), a, b), (b - a) as real, weight as real;
    var mu, second := MeanOf(s1, b - a, mean, weight), MeanOf(s2, b - a, square, weight);
    MeanTimes(s1, b - a, mean, weight);
    MeanTimes(s2, b - a, square, weight);
    SpreadNonNeg(v, mu, a, b);
    PriorSpread(mean, square, mu, w);
    Combine(s1, s2, c, w, mean, square, mu, second);
  }

  ghost predicate IsMean(mu: real, sum: real, count: real, prior: real, weight: real) {
    mu * (count + weight) == sum + prior * weight
  }

  lemma MeanTimes(sum: real, count: nat, prior: real, weight: nat)
    requires count + weight > 0
    ensures IsMean(MeanOf(sum, count, prior, weight), sum, count as real, prior, weight as real)
  {
    var t := (count + weight) as real;
    assert t == count as real + weight as real && t > 0.0;
    Quotient(sum + prior * weight as real, t);
  }

  lemma Quotient(s: real, t: real)
    requires t > 0.0
    ensures s / t * t == s
  {
  }

  /** The prior's own spread about `mu`. */
  lemma PriorSpread(mean: real, square: real, mu: real, w: real)
    requires square >= mean * mean && w >= 0.0
    ensures Spread(square, mean, mu, 1.0) * w >= 0.0
  {
    SquareNonNeg(mean - mu);
    assert (mean - mu) * (mean - mu) == mean * mean - 2.0 * mu * mean + mu * mu;
    ProductNonNeg(square - 2.0 * mu * mean + mu * mu, w);
  }

  lemma ProductNonNeg(x: real, y: real)
    requires x >= 0.0 && y >= 0.0
    ensures x * y >= 0.0
  {
  }

  lemma Combine(s1: real, s2: real, c: real, w: real, mean: real, square: real, mu: real, second: real)
    requires c > 0.0 && w >= 0.0
    requires IsMean(mu, s1, c, mean, w) && IsMean(second, s2, c, square, w)
    requires Spread(s2, s1, mu, c) >= 0.0
    requires Spread(square, mean, mu, 1.0) * w >= 0.0
    ensures second - mu * mu >= 0.0
  {
    Total(s1, s2, c, w, mean, square, mu);
    Centre(s1 + mean * w, mu, c + w);
    var t := c + w;
    assert second * t - mu * mu * t >= 0.0;
    assert (second - mu * mu) * t == second * t - mu * mu * t;
    if second - mu * mu < 0.0 { NegTimes(second - mu * mu, t); }
  }

  lemma Total(s1: real, s2: real, c: real, w: real, mean: real, square: real, mu: real)
    ensures (s2 - 2.0 * mu * s1 + mu * mu * c) + (square - 2.0 * mu * mean + mu * mu) * w
      == (s2 + square * w) - 2.0 * mu * (s1 + mean * w) + mu * mu * (c + w)
  {
    assert (square - 2.0 * mu * mean + mu * mu) * w == square * w - 2.0 * mu * mean * w + mu * mu * w;
    assert 2.0 * mu * (s1 + mean * w) == 2.0 * mu * s1 + 2.0 * mu * (mean * w);
    assert 2.0 * mu * (mean * w) == 2.0 * mu * mean * w;
    assert mu * mu * (c + w) == mu * mu * c + mu * mu * w;
  }

  lemma Centre(s: real, mu: real, t: real)
    requires mu * t == s
    ensures 2.0 * mu * s == 2.0 * (mu * mu * t)
  {
    assert mu * s == mu * (mu * t);
    assert mu * (mu * t) == mu * mu * t;
  }

  /** One more value adds its squared distance to the spread. */
  lemma SpreadAdds(s2: real, s1: real, x: real, m: real, c: real, t2: real, t1: real, d: real)
    requires t2 == s2 + x * x && t1 == s1 + x && d == c + 1.0
    ensures Spread(t2, t1, m, d) == Spread(s2, s1, m, c) + (x - m) * (x - m)
  {
    assert 2.0 * m * (s1 + x) == 2.0 * m * s1 + 2.0 * m * x;
    assert m * m * (c + 1.0) == m * m * c + m * m;
    assert (x - m) * (x - m) == x * x - 2.0 * m * x + m * m;
  }

  /** Variance times count is the spread of window and prior about the mean. */
  lemma VarianceTimes(s1: real, s2: real, c: real, w: real, mean: real, square: real, mu: real, second: real)
    requires IsMean(mu, s1, c, mean, w) && IsMean(second, s2, c, square, w)
    ensures (second - mu * mu) * (c + w) == Spread(s2, s1, mu, c) + Spread(square, mean, mu, 1.0) * w
  {
    Total(s1, s2, c, w, mean, square, mu);
    Centre(s1 + mean * w, mu, c + w);
    assert (second - mu * mu) * (c + w) == second * (c + w) - mu * mu * (c + w);
  }

  lemma NegTimes(x: real, t: real)
    requires x < 0.0 && t > 0.0
    ensures x * t < 0.0
  {
  }
}
