/** Normalised cross-correlation of CF0::crossf and CF0::crossfi (Pitch.cpp): the energy of the lagged
    window is updated from lag to lag instead of being recomputed. */
module CrossCorr {

  /** Sum of x[a + j] * x[b + j] for j < n. */
  function Dot(x: seq<real>, a: nat, b: nat, n: nat): real
    requires a + n <= |x| && b + n <= |x|
  {
    if n == 0 then 0.0 else Dot(x, a, b, n - 1) + x[a + n - 1] * x[b + n - 1]
  }

  function Energy(x: seq<real>, a: nat, n: nat): real
    requires a + n <= |x|
  {
    Dot(x, a, a, n)
  }

  lemma {:induction false} EnergyNonNeg(x: seq<real>, a: nat, n: nat)
    requires a + n <= |x|
    ensures Energy(x, a, n) >= 0.0
  {
    if n > 0 { EnergyNonNeg(x, a, n - 1); }
  }

  /** Moving the window by one sample. */
  lemma {:induction false} EnergySlide(x: seq<real>, a: nat, n: nat)
    requires a + n < |x|
    ensures Energy(x, a + 1, n) == Energy(x, a, n) - x[a] * x[a] + x[a + n] * x[a + n]
  {
    if n > 0 { EnergySlide(x, a, n - 1); }
  }

  lemma SquareLe(q: real, p: real)
    requires p >= 0.0 && q * q <= p * p
    ensures q <= p
  {
    if q > p { SquareLt(p, q); }
  }

  lemma SquareLt(p: real, q: real)
    requires 0.0 <= p < q
    ensures p * p < q * q
  {
    assert p * (q - p) >= 0.0;
    assert q * (q - p) > 0.0;
  }

  /** One step of Cauchy-Schwarz. */
  lemma SchwarzStep(s: real, a: real, b: real, x: real, y: real)
    requires a >= 0.0 && b >= 0.0 && s * s <= a * b
    ensures (s + x * y) * (s + x * y) <= (a + x * x) * (b + y * y)
  {
    var p, q := a * (y * y) + b * (x * x), 2.0 * (s * (x * y));
    var u, v := a * (y * y), b * (x * x);
    assert u >= 0.0 && v >= 0.0;
    assert p * p - 4.0 * (u * v) == (u - v) * (u - v) >= 0.0;
    var z := (x * y) * (x * y);
    assert u * v == (a * b) * z;
    assert q * q == 4.0 * ((s * s) * z);
    assert (s * s) * z <= (a * b) * z;
    SquareLe(q, p);
    assert (s + x * y) * (s + x * y) == s * s + q + z;
    assert (a + x * x) * (b + y * y) == a * b + p + (x * x) * (y * y);
    assert (x * x) * (y * y) == z;
  }

  lemma {:induction false} CauchySchwarz(x: seq<real>, a: nat, b: nat, n: nat)
    requires a + n <= |x| && b + n <= |x|
    ensures Dot(x, a, b, n) * Dot(x, a, b, n) <= Energy(x, a, n) * Energy(x, b, n)
  {
    if n > 0 {
      CauchySchwarz(x, a, b, n - 1);
      EnergyNonNeg(x, a, n - 1);
      EnergyNonNeg(x, b, n - 1);
      SchwarzStep(Dot(x, a, b, n - 1), Energy(x, a, n - 1), Energy(x, b, n - 1), x[a + n - 1], x[b + n - 1]);
    }
  }

  // ---------------------------------------------------------------- the two functions

  /** What the source's division yields: 0/0 is not a number. */
  datatype Corr = Num(v: real) | NaN

  /** The square root, of which only this is assumed. */
  ghost predicate IsSqrt(sqrt: real -> real) {
    forall x :: x >= 0.0 ==> sqrt(x) >= 0.0 && sqrt(x) * sqrt(x) == x
  }

  function Normalise(sum: real, root: real): Corr {
    if root == 0.0 then NaN else Num(sum / root)
  }

  predicate InRange(c: Corr) { c.Num? && -1.0 <= c.v <= 1.0 }

  lemma NormaliseBounded(sum: real, v: real, sqrt: real -> real)
    requires IsSqrt(sqrt) && v > 0.0 && sum * sum <= v
    ensures sqrt(v) > 0.0 && InRange(Normalise(sum, sqrt(v)))
  {
    var r := sqrt(v);
    assert r * r == v;
    assert r > 0.0;
    SquareLe(sum, r);
    SquareLe(-sum, r);
    Ratio(sum, r);
  }

  lemma Ratio(s: real, r: real)
    requires r > 0.0 && -r <= s <= r
    ensures -1.0 <= s / r <= 1.0
  {
  }

  /** Mean over the reference window. */
  method Mean(data: seq<real>, size: nat) returns (m: real)
    requires 0 < size <= |data|
    ensures m == Total(data, size) / size as real
  {
    var sum := 0.0;
    for j := 0 to size
      invariant sum == Total(data, j)
    {
      sum := sum + data[j];
    }
    m := sum / size as real;
  }

  function Total(x: seq<real>, n: nat): real
    requires n <= |x|
  {
    if n == 0 then 0.0 else Total(x, n - 1) + x[n - 1]
  }

  method Product(x: seq<real>, a: nat, b: nat, n: nat) returns (s: real)
    requires a + n <= |x| && b + n <= |x|
    ensures s == Dot(x, a, b, n)
  {
    s := 0.0;
    for j := 0 to n
      invariant s == Dot(x, a, b, j)
    {
      s := s + x[a + j] * x[b + j];
    }
  }

  method Center(data: seq<real>, m: real, total: nat) returns (x: seq<real>)
    requires total <= |data|
    ensures |x| == total && forall j :: 0 <= j < total ==> x[j] == data[j] - m
  {
    x := [];
    for j := 0 to total
      invariant |x| == j && forall i :: 0 <= i < j ==> x[i] == data[i] - m
    {
      x := x + [data[j] - m];
    }
  }

  /** `loc`, `val` are the place and height of the first highest positive correlation, or -1 and 0. */
  ghost predicate IsPeak(correl: seq<Corr>, start: nat, n: nat, loc: int, val: real) {
    && n <= |correl|
    && (loc == -1 ==> val == 0.0)
    && (loc != -1 ==> start <= loc < start + n && correl[loc - start] == Num(val) && val > 0.0)
    && (forall i :: 0 <= i < n && correl[i].Num? ==> correl[i].v <= val)
    && (forall i :: 0 <= i < n && start + i < loc && correl[i].Num? ==> correl[i].v < val)
  }

  // ---------------------------------------------------------------- the running energy

  function AtLeastOne(e: real): real { if e < 1.0 then 1.0 else e }

  /** The energy that lag number `i` is normalised with.  crossf clamps it to 1 from the second lag on,
      crossfi from the first. */
  function Running(x: seq<real>, start: nat, size: nat, i: nat, clampFirst: bool): real
    requires start + i + size <= |x|
  {
    if i == 0 then (if clampFirst then AtLeastOne(Energy(x, start, size)) else Energy(x, start, size))
    else
      var a := start + i - 1;
      AtLeastOne(Running(x, start, size, i - 1, clampFirst) - x[a] * x[a] + x[a + size] * x[a + size])
  }

  /** Despite the clamp it is never below the true energy of the window ... */
  lemma {:induction false} RunningCovers(x: seq<real>, start: nat, size: nat, i: nat, clampFirst: bool)
    requires start + i + size <= |x|
    ensures Running(x, start, size, i, clampFirst) >= Energy(x, start + i, size)
    ensures i > 0 || clampFirst ==> Running(x, start, size, i, clampFirst) >= 1.0
  {
    if i > 0 {
      RunningCovers(x, start, size, i - 1, clampFirst);
      EnergySlide(x, start + i - 1, size);
    }
  }

  /** No window from `lo` to `hi` is quieter than 1. */
  ghost predicate Loud(x: seq<real>, size: nat, lo: nat, hi: nat) {
    forall a :: lo <= a <= hi && a + size <= |x| ==> Energy(x, a, size) >= 1.0
  }

  /** ... and it is that energy as long as no window is quieter than 1. */
  lemma {:induction false} RunningExact(x: seq<real>, start: nat, size: nat, i: nat, clampFirst: bool)
    requires start + i + size <= |x| && Loud(x, size, start, start + i)
    ensures Running(x, start, size, i, clampFirst) == Energy(x, start + i, size)
  {
    assert Energy(x, start + i, size) >= 1.0;
    if i > 0 {
      RunningExact(x, start, size, i - 1, clampFirst);
      EnergySlide(x, start + i - 1, size);
    }
  }

  /** What the square root is taken of; `bias` is 0 in crossf and 10000 in crossfi. */
  function Radicand(bias: real, engc: real, engr: real): real { bias + engc * engr }

  /** The correlation that lag number `i` gets. */
  function Entry(x: seq<real>, start: nat, size: nat, i: nat, bias: real, clampFirst: bool, sqrt: real -> real): Corr
    requires start + i + size <= |x| && size <= |x|
  {
    Normalise(Dot(x, 0, start + i, size), sqrt(Radicand(bias, Running(x, start, size, i, clampFirst), Energy(x, 0, size))))
  }

  lemma Covered(d: real, e: real, run: real, ref: real)
    requires d * d <= ref * e && 0.0 <= e <= run && ref > 0.0
    ensures d * d <= run * ref && (run > 0.0 ==> run * ref > 0.0) && (run == 0.0 ==> run * ref == 0.0)
  {
    assert (run - e) * ref >= 0.0;
  }

  /** Every correlation lies in [-1, 1], except where the source divides zero by zero: exactly at the
      first lag, without clamp and bias, when the lagged window is silent. */
  lemma EntryInRange(x: seq<real>, start: nat, size: nat, i: nat, bias: real, clampFirst: bool, sqrt: real -> real)
    requires start + i + size <= |x| && size <= |x| && bias >= 0.0 && IsSqrt(sqrt) && Energy(x, 0, size) > 0.0
    ensures var c := Entry(x, start, size, i, bias, clampFirst, sqrt);
      && (c.NaN? <==> bias == 0.0 && !clampFirst && i == 0 && Energy(x, start, size) == 0.0)
      && (!c.NaN? ==> InRange(c))
  {
    hide Dot, Running, Normalise, InRange;
    var d, e, run, ref := Dot(x, 0, start + i, size), Energy(x, start + i, size),
                          Running(x, start, size, i, clampFirst), Energy(x, 0, size);
    CauchySchwarz(x, 0, start + i, size);
    EnergyNonNeg(x, start + i, size);
    RunningCovers(x, start, size, i, clampFirst);
    RunningFirst(x, start, size);
    Covered(d, e, run, ref);
    ValueInRange(d, Radicand(bias, run, ref), sqrt);
  }

  /** While no window is quieter than 1, the square of an entry times the energies of both windows, the bias added, is
      the square of their product, and it has its sign. */
  lemma EntryIsCorrelation(x: seq<real>, start: nat, size: nat, i: nat, bias: real, clampFirst: bool, sqrt: real -> real)
    requires start + i + size <= |x| && size <= |x| && bias >= 0.0 && IsSqrt(sqrt) && Energy(x, 0, size) > 0.0
    requires Loud(x, size, start, start + i)
    ensures var c, d := Entry(x, start, size, i, bias, clampFirst, sqrt), Dot(x, 0, start + i, size);
      && c.Num? && c.v * c.v * (bias + Energy(x, start + i, size) * Energy(x, 0, size)) == d * d
      && (c.v > 0.0 <==> d > 0.0) && (c.v < 0.0 <==> d < 0.0)
  {
    hide Dot, Running, Loud;
    RunningExact(x, start, size, i, clampFirst);
    assert Energy(x, start + i, size) >= 1.0 by { LoudAt(x, size, start, start + i); }
    var e, ref := Energy(x, start + i, size), Energy(x, 0, size);
    assert e * ref > 0.0;
    Rooted(Dot(x, 0, start + i, size), Radicand(bias, e, ref), sqrt(Radicand(bias, e, ref)));
  }

  lemma LoudAt(x: seq<real>, size: nat, lo: nat, a: nat)
    requires Loud(x, size, lo, a) && lo <= a && a + size <= |x|
    ensures Energy(x, a, size) >= 1.0
  {
  }

  lemma Rooted(d: real, v: real, r: real)
    requires v > 0.0 && r >= 0.0 && r * r == v
    ensures r > 0.0 && d / r * (d / r) * v == d * d
    ensures (d / r > 0.0 <==> d > 0.0) && (d / r < 0.0 <==> d < 0.0)
  {
    var q := d / r;
    assert q * r == d;
    assert q * q * (r * r) == (q * r) * (q * r);
  }

  /** The `size` samples from `a` on are those the signal begins with. */
  ghost predicate Repeats(x: seq<real>, a: nat, size: nat) {
    a + size <= |x| && forall j {:trigger x[j]} :: 0 <= j < size ==> x[a + j] == x[j]
  }

  lemma {:induction false} SameWindows(x: seq<real>, a: nat, n: nat)
    requires Repeats(x, a, n)
    ensures Dot(x, 0, a, n) == Energy(x, 0, n) == Energy(x, a, n)
  {
    if n > 0 {
      assert x[a + (n - 1)] == x[n - 1];
      SameWindows(x, a, n - 1);
    }
  }

  /** At the period of a signal the correlation is one. */
  lemma PeriodIsOne(x: seq<real>, start: nat, size: nat, i: nat, sqrt: real -> real)
    requires Repeats(x, start + i, size) && IsSqrt(sqrt) && Energy(x, 0, size) > 0.0 && Loud(x, size, start, start + i)
    ensures Entry(x, start, size, i, 0.0, false, sqrt) == Num(1.0)
  {
    hide Dot, Running, Loud, Entry;
    SameWindows(x, start + i, size);
    EntryIsCorrelation(x, start, size, i, 0.0, false, sqrt);
    UnitSquare(Entry(x, start, size, i, 0.0, false, sqrt).v, Energy(x, 0, size), Energy(x, start + i, size), Dot(x, 0, start + i, size));
  }

  lemma UnitSquare(v: real, e: real, f: real, d: real)
    requires e > 0.0 && v > 0.0 && v * v * (0.0 + f * e) == d * d && f == e == d
    ensures v == 1.0
  {
    assert v * v * (e * e) == (v * e) * (v * e);
    SquareLe(v * e, e);
    SquareLe(e, v * e);
    assert (v - 1.0) * e == 0.0;
  }

  lemma Recentred(data: seq<real>, x: seq<real>, m: real, a: nat, size: nat)
    requires Repeats(data, a, size) && a + size <= |x| <= |data| && forall j :: 0 <= j < |x| ==> x[j] == data[j] - m
    ensures Repeats(x, a, size)
  {
  }

  /** So the highest correlation is one, at the period or at a smaller lag. */
  lemma PeakAtPeriod(correl: seq<Corr>, start: nat, n: nat, loc: int, val: real, i: nat)
    requires IsPeak(correl, start, n, loc, val) && i < n && correl[i] == Num(1.0)
    requires forall j :: 0 <= j < n && correl[j].Num? ==> InRange(correl[j])
    ensures val == 1.0 && start <= loc <= start + i
  {
  }

  /** The division of zero by zero happens: a signal followed by silence. */
  lemma SilentLagIsNaN(sqrt: real -> real)
    requires IsSqrt(sqrt)
    ensures Entry([1.0, -1.0, 0.0, 0.0, 0.0], 2, 2, 0, 0.0, false, sqrt).NaN?
  {
    var x := [1.0, -1.0, 0.0, 0.0, 0.0];
    assert Energy(x, 2, 1) == 0.0 && Energy(x, 2, 2) == 0.0 && Energy(x, 0, 1) == 1.0 && Energy(x, 0, 2) == 2.0;
    EntryInRange(x, 2, 2, 0, 0.0, false, sqrt);
  }

  lemma RunningFirst(x: seq<real>, start: nat, size: nat)
    requires start + size <= |x|
    ensures Running(x, start, size, 0, false) == Energy(x, start, size)
  {
  }

  lemma ValueInRange(d: real, v: real, sqrt: real -> real)
    requires IsSqrt(sqrt) && v >= 0.0 && d * d <= v
    ensures var c := Normalise(d, sqrt(v)); (c.NaN? <==> v == 0.0) && (!c.NaN? ==> InRange(c))
  {
    if v > 0.0 {
      NormaliseBounded(d, v, sqrt);
    } else {
      ZeroSquare(sqrt(v));
    }
  }

  lemma ZeroSquare(r: real)
    requires r >= 0.0 && r * r == 0.0
    ensures r == 0.0
  {
    if r > 0.0 { SquareLt(0.0, r); }
  }

  /** crossf. */
  method CrossF(data: seq<real>, size: nat, start: nat, nlags: nat, sqrt: real -> real)
    returns (engref: real, maxloc: int, maxval: real, correl: seq<Corr>, ghost x: seq<real>)
    requires size > 0 && size + start + nlags <= |data| && IsSqrt(sqrt)
    ensures |x| == size + start + nlags && |correl| == nlags && engref == Energy(x, 0, size)
    ensures forall j :: 0 <= j < |x| ==> x[j] == data[j] - Total(data, size) / size as real
    ensures engref > 0.0 ==> forall i :: 0 <= i < nlags ==> correl[i] == Entry(x, start, size, i, 0.0, false, sqrt)
    ensures engref > 0.0 ==> forall i :: 0 <= i < nlags ==>
      (correl[i].NaN? <==> i == 0 && Energy(x, start, size) == 0.0) && (correl[i].Num? ==> InRange(correl[i]))
    ensures engref > 0.0 ==> IsPeak(correl, start, nlags, maxloc, maxval)
    ensures engref > 0.0 ==> forall p :: start <= p < start + nlags && Repeats(data, p, size) && Loud(x, size, start, p) ==>
      maxval == 1.0 && start <= maxloc <= p
    ensures engref == 0.0 ==> maxloc == 0 && maxval == 0.0 && forall i :: 0 <= i < nlags ==> correl[i] == Num(0.0)
  {
    var m := Mean(data, size);
    var db := Center(data, m, size + start + nlags);
    x := db;
    var engr := Product(db, 0, 0, size);
    engref := engr;
    EnergyNonNeg(db, 0, size);
    if engr > 0.0 {
      hide Entry, IsSqrt, IsPeak;
      maxloc, maxval, correl := Scan(db, size, start, nlags, engr, sqrt);
      forall i | 0 <= i < nlags
        ensures (correl[i].NaN? <==> i == 0 && Energy(x, start, size) == 0.0) && (correl[i].Num? ==> InRange(correl[i]))
      {
        EntryInRange(db, start, size, i, 0.0, false, sqrt);
      }
      hide InRange, Repeats, Loud;
      forall p | start <= p < start + nlags && Repeats(data, p, size) && Loud(x, size, start, p)
        ensures maxval == 1.0 && start <= maxloc <= p
      {
        Recentred(data, db, m, p, size);
        PeriodIsOne(db, start, size, p - start, sqrt);
        PeakAtPeriod(correl, start, nlags, maxloc, maxval, p - start);
      }
    } else {
      maxloc, maxval, correl := 0, 0.0, seq(nlags, _ => Num(0.0));
    }
  }

  lemma PeakNext(correl: seq<Corr>, start: nat, i: nat, loc: int, val: real, t: Corr)
    requires i == |correl| && IsPeak(correl, start, i, loc, val)
    ensures t.Num? && t.v > val ==> IsPeak(correl + [t], start, i + 1, start + i, t.v)
    ensures !(t.Num? && t.v > val) ==> IsPeak(correl + [t], start, i + 1, loc, val)
  {
  }

  method Scan(db: seq<real>, size: nat, start: nat, nlags: nat, engr: real, sqrt: real -> real)
    returns (iloc: int, amax: real, correl: seq<Corr>)
    requires |db| == size + start + nlags && engr == Energy(db, 0, size)
    ensures |correl| == nlags && IsPeak(correl, start, nlags, iloc, amax)
    ensures forall i :: 0 <= i < nlags ==> correl[i] == Entry(db, start, size, i, 0.0, false, sqrt)
  {
    hide IsPeak, Dot, Radicand, Normalise;
    var engc := Product(db, start, start, size);
    correl, amax, iloc := [], 0.0, -1;
    assert IsPeak(correl, start, 0, iloc, amax) by { NoPeak(start); }
    for i := 0 to nlags
      invariant |correl| == i && IsPeak(correl, start, i, iloc, amax)
      invariant engc == Running(db, start, size, i, false)
      invariant forall j :: 0 <= j < i ==> correl[j] == Entry(db, start, size, j, 0.0, false, sqrt)
    {
      var sum := Product(db, 0, start + i, size);
      var t := Normalise(sum, sqrt(Radicand(0.0, engc, engr)));
      assert t == Entry(db, start, size, i, 0.0, false, sqrt);
      PeakNext(correl, start, i, iloc, amax, t);
      correl := correl + [t];
      engc := engc - db[i + start] * db[i + start];
      engc := engc + db[i + start + size] * db[i + start + size];
      if engc < 1.0 { engc := 1.0; }
      if t.Num? && t.v > amax { amax, iloc := t.v, i + start; }
    }
  }

  lemma NoPeak(start: nat)
    ensures IsPeak([], start, 0, -1, 0.0)
  {
  }

  // ---------------------------------------------------------------- patches

  /** First lag of the patch around `loc`. */
  function PatchStart(loc: int, nlags: nat, start0: nat): (r: nat)
    ensures r >= start0
  {
    if loc - nlags / 2 < start0 then start0 else loc - nlags / 2
  }

  /** A patch surrounds its candidate, unless that would take it below the first lag, where it then begins. */
  lemma PatchMembership(loc: int, nlags: nat, start0: nat, e: nat)
    ensures var first := loc - nlags / 2;
      InPatch(loc, nlags, start0, e) <==> if first >= start0 then first <= start0 + e < first + nlags else e < nlags
  {
  }

  /** The lags of a patch of three and more include the candidate's own and both its neighbours. */
  lemma PatchSurrounds(loc: int, nlags: nat, start0: nat, e: nat)
    requires nlags >= 3 && loc - 1 <= start0 + e <= loc + 1
    ensures InPatch(loc, nlags, start0, e)
  {
    hide InPatch;
    PatchMembership(loc, nlags, start0, e);
  }

  /** The lag `start0 + e` lies among `nlags` lags around candidate `loc`, or among the first `nlags` if the candidate
      is too close to them. */
  predicate Around(loc: int, nlags: nat, start0: nat, e: nat) {
    || (start0 <= loc - nlags / 2 <= start0 + e < loc - nlags / 2 + nlags)
    || (loc - nlags / 2 < start0 && e < nlags)
  }

  /** Entry `e` is zero if no candidate is near, and otherwise the correlation at its lag, computed in the patch of one that is. */
  ghost predicate ByCandidate(x: seq<real>, size: nat, start0: nat, nlags: nat, locs: seq<int>, e: nat, c: Corr, sqrt: real -> real) {
    && ((forall q :: 0 <= q < |locs| ==> !Around(locs[q], nlags, start0, e)) ==> c == Num(0.0))
    && ((exists q :: 0 <= q < |locs| && Around(locs[q], nlags, start0, e)) ==>
          exists q :: 0 <= q < |locs| && Around(locs[q], nlags, start0, e) && FromPatch(x, size, start0, nlags, locs[q], e, c, sqrt))
  }

  lemma EntryByCandidate(x: seq<real>, size: nat, start0: nat, nlags: nat, locs: seq<int>, e: nat, c: Corr, sqrt: real -> real)
    requires PatchEntry(x, size, start0, nlags, locs, |locs|, e, c, sqrt)
    ensures ByCandidate(x, size, start0, nlags, locs, e, c, sqrt)
  {
    hide FromPatch, InPatch, Around;
    LastPatchIs(nlags, start0, locs, |locs|, e);
    forall q | 0 <= q < |locs| ensures InPatch(locs[q], nlags, start0, e) <==> Around(locs[q], nlags, start0, e) {
      AroundIsPatch(locs[q], nlags, start0, e);
    }
  }

  lemma AroundIsPatch(loc: int, nlags: nat, start0: nat, e: nat)
    ensures InPatch(loc, nlags, start0, e) <==> Around(loc, nlags, start0, e)
  {
  }

  /** The last of the first `n` patches that holds entry `e`, or -1. */
  function LastPatch(nlags: nat, start0: nat, locs: seq<int>, n: nat, e: nat): int
    requires n <= |locs|
  {
    if n == 0 then -1 else if InPatch(locs[n - 1], nlags, start0, e) then n - 1 else LastPatch(nlags, start0, locs, n - 1, e)
  }

  lemma {:induction false} LastPatchIs(nlags: nat, start0: nat, locs: seq<int>, n: nat, e: nat)
    requires n <= |locs|
    ensures var p := LastPatch(nlags, start0, locs, n, e);
      && -1 <= p < n && (p >= 0 ==> InPatch(locs[p], nlags, start0, e))
      && forall q :: p < q < n ==> !InPatch(locs[q], nlags, start0, e)
  {
    hide InPatch;
    if n > 0 { LastPatchIs(nlags, start0, locs, n - 1, e); }
  }

  /** Entry `e` (lag start0 + e) is what the last of the first `n` patches that holds it computed, zero if
      none does. */
  ghost predicate PatchEntry(x: seq<real>, size: nat, start0: nat, nlags: nat, locs: seq<int>, n: nat, e: nat, c: Corr, sqrt: real -> real)
    requires n <= |locs|
  {
    var p := LastPatch(nlags, start0, locs, n, e);
    if p < 0 || p >= n then c == Num(0.0) else FromPatch(x, size, start0, nlags, locs[p], e, c, sqrt)
  }

  predicate InPatch(loc: int, nlags: nat, start0: nat, e: nat) {
    PatchStart(loc, nlags, start0) <= start0 + e < PatchStart(loc, nlags, start0) + nlags
  }

  ghost predicate FromPatch(x: seq<real>, size: nat, start0: nat, nlags: nat, loc: int, e: nat, c: Corr, sqrt: real -> real) {
    var s := PatchStart(loc, nlags, start0);
    && s <= start0 + e && start0 + e + size <= |x|
    && c == Entry(x, s, size, start0 + e - s, 10000.0, true, sqrt)
  }

  /** One patch of crossfi, written over `correl` from lag `start` on. */
  method Patch(db: seq<real>, size: nat, start0: nat, start: nat, nlags: nat, engr: real, sqrt: real -> real,
               correl: seq<Corr>, iloc: int, amax: real) returns (r: seq<Corr>, jloc: int, bmax: real)
    requires start0 <= start && start + nlags + size <= |db| && engr == Energy(db, 0, size)
    requires start - start0 + nlags <= |correl|
    ensures |r| == |correl|
    ensures forall e :: 0 <= e < |r| && !(start <= start0 + e < start + nlags) ==> r[e] == correl[e]
    ensures forall e :: 0 <= e < |r| && start <= start0 + e < start + nlags ==>
      start0 + e + size <= |db| && r[e] == Entry(db, start, size, start0 + e - start, 10000.0, true, sqrt)
    ensures bmax >= amax && forall e :: 0 <= e < |r| && start <= start0 + e < start + nlags && r[e].Num? ==> r[e].v <= bmax
    ensures bmax == amax ==> jloc == iloc
    ensures bmax > amax ==> start <= jloc < start + nlags && r[jloc - start0] == Num(bmax)
  {
    hide Dot, Entry, Normalise, Running, Radicand;
    r, jloc, bmax := correl, iloc, amax;
    var engc := Product(db, start, start, size);
    RunningStart(db, start, size);
    for i := 0 to nlags
      invariant |r| == |correl| && bmax >= amax && (bmax == amax ==> jloc == iloc)
      invariant i < nlags ==> AtLeastOne(engc) == Running(db, start, size, i, true)
      invariant forall e :: 0 <= e < |r| && !(start <= start0 + e < start + i) ==> r[e] == correl[e]
      invariant forall e :: 0 <= e < |r| && start <= start0 + e < start + i ==>
        start0 + e + size <= |db| && r[e] == Entry(db, start, size, start0 + e - start, 10000.0, true, sqrt)
      invariant forall e :: 0 <= e < |r| && start <= start0 + e < start + i && r[e].Num? ==> r[e].v <= bmax
      invariant bmax > amax ==> start <= jloc < start + i && r[jloc - start0] == Num(bmax)
    {
      var sum := Product(db, 0, start + i, size);
      if engc < 1.0 { engc := 1.0; }
      var t := Normalise(sum, sqrt(Radicand(10000.0, engc, engr)));
      EntryIs(db, start, size, i, engc, sqrt);
      r := r[start - start0 + i := t];
      if t.Num? && t.v > bmax { bmax, jloc := t.v, i + start; }
      engc := engc - db[i + start] * db[i + start];
      engc := engc + db[i + start + size] * db[i + start + size];
      if i + 1 < nlags { RunningNext(db, start, size, i); }
    }
  }

  lemma RunningStart(x: seq<real>, start: nat, size: nat)
    requires start + size <= |x|
    ensures Running(x, start, size, 0, true) == AtLeastOne(Energy(x, start, size))
  {
    hide Dot;
  }

  lemma RunningNext(x: seq<real>, start: nat, size: nat, i: nat)
    requires start + i + 1 + size <= |x|
    ensures Running(x, start, size, i + 1, true) ==
      AtLeastOne(Running(x, start, size, i, true) - x[i + start] * x[i + start] + x[i + start + size] * x[i + start + size])
  {
  }

  lemma EntryIs(x: seq<real>, start: nat, size: nat, i: nat, engc: real, sqrt: real -> real)
    requires start + i + size <= |x| && size <= |x| && engc == Running(x, start, size, i, true)
    ensures Entry(x, start, size, i, 10000.0, true, sqrt) ==
            Normalise(Dot(x, 0, start + i, size), sqrt(Radicand(10000.0, engc, Energy(x, 0, size))))
  {
  }

  /** The best value computed so far stands at lag `loc` of patch `winner`, or nothing was positive. */
  ghost predicate Best(x: seq<real>, size: nat, start0: nat, nlags: nat, locs: seq<int>, n: nat, loc: int, val: real, winner: int,
                       sqrt: real -> real)
  {
    && val >= 0.0 && (val == 0.0 ==> loc == -1)
    && (val > 0.0 ==>
          && start0 <= loc && 0 <= winner < n <= |locs| && InPatch(locs[winner], nlags, start0, loc - start0)
          && FromPatch(x, size, start0, nlags, locs[winner], loc - start0, Num(val), sqrt))
  }

  /** Every patch lies within the output array. */
  ghost predicate Fitting(nlags: nat, start0: nat, locs: seq<int>, nlags0: nat) {
    forall p :: 0 <= p < |locs| ==> nlags <= nlags0 && locs[p] - nlags / 2 + nlags <= start0 + nlags0
  }

  /** The entry at `lag` was computed, in the patch of some candidate. */
  ghost predicate Computed(x: seq<real>, size: nat, start0: nat, nlags: nat, locs: seq<int>, lag: int, correl: seq<Corr>, sqrt: real -> real) {
    && start0 <= lag < start0 + |correl|
    && exists q :: 0 <= q < |locs| && FromPatch(x, size, start0, nlags, locs[q], lag - start0, correl[lag - start0], sqrt)
  }

  /** Where no window from the first lag on is quieter than 1, a computed entry is the correlation at its lag. */
  lemma ComputedIsCorrelation(x: seq<real>, size: nat, start0: nat, nlags: nat, locs: seq<int>, lag: int, correl: seq<Corr>, sqrt: real -> real)
    requires Computed(x, size, start0, nlags, locs, lag, correl, sqrt) && size <= |x| && IsSqrt(sqrt) && Energy(x, 0, size) > 0.0
    requires Loud(x, size, start0, lag)
    ensures lag + size <= |x|
    ensures var c, d := correl[lag - start0], Dot(x, 0, lag, size);
      && c.Num? && c.v * c.v * (10000.0 + Energy(x, lag, size) * Energy(x, 0, size)) == d * d
      && (c.v > 0.0 <==> d > 0.0) && (c.v < 0.0 <==> d < 0.0)
  {
    hide Dot, Entry, Energy;
    var q :| 0 <= q < |locs| && FromPatch(x, size, start0, nlags, locs[q], lag - start0, correl[lag - start0], sqrt);
    var s := PatchStart(locs[q], nlags, start0);
    EntryIsCorrelation(x, s, size, lag - s, 10000.0, true, sqrt);
  }

  /** A candidate's own lag and its neighbours are computed. */
  lemma CandidateComputed(x: seq<real>, size: nat, start0: nat, nlags: nat, locs: seq<int>, p: nat, lag: int, correl: seq<Corr>, sqrt: real -> real)
    requires Fitting(nlags, start0, locs, |correl|) && nlags >= 3 && p < |locs| && start0 <= lag && locs[p] - 1 <= lag <= locs[p] + 1
    requires forall e :: 0 <= e < |correl| ==> PatchEntry(x, size, start0, nlags, locs, |locs|, e, correl[e], sqrt)
    ensures Computed(x, size, start0, nlags, locs, lag, correl, sqrt)
  {
    hide FromPatch, InPatch, LastPatch;
    PatchSurrounds(locs[p], nlags, start0, lag - start0);
    LastPatchIs(nlags, start0, locs, |locs|, lag - start0);
    PatchMembership(locs[p], nlags, start0, lag - start0);
    assert PatchEntry(x, size, start0, nlags, locs, |locs|, lag - start0, correl[lag - start0], sqrt);
  }

  /** crossfi: patches around `locs`, everything else zero. A patch that would leave the output array is an
      overrun, and nothing is claimed of the rest. */
  method CrossFI(data: seq<real>, size: nat, start0: nat, nlags0: nat, nlags: nat, locs: seq<int>, sqrt: real -> real)
    returns (engref: real, maxloc: int, maxval: real, correl: seq<Corr>, overrun: bool, ghost x: seq<real>, ghost winner: int)
    requires size > 0 && size + start0 + nlags0 <= |data| && IsSqrt(sqrt)
    ensures overrun <==> engref > 0.0 && !Fitting(nlags, start0, locs, nlags0)
    ensures |x| == size + start0 + nlags0 && |correl| == nlags0 && engref == Energy(x, 0, size)
    ensures forall j :: 0 <= j < |x| ==> x[j] == data[j] - Total(data, size) / size as real
    ensures engref > 0.0 && !overrun ==>
      forall e :: 0 <= e < nlags0 ==> PatchEntry(x, size, start0, nlags, locs, |locs|, e, correl[e], sqrt)
    ensures engref > 0.0 && !overrun ==>
      forall e :: 0 <= e < nlags0 ==> ByCandidate(x, size, start0, nlags, locs, e, correl[e], sqrt)
    ensures engref > 0.0 && !overrun && nlags >= 3 ==>
      forall p, lag :: 0 <= p < |locs| && start0 <= lag && locs[p] - 1 <= lag <= locs[p] + 1 ==>
        Computed(x, size, start0, nlags, locs, lag, correl, sqrt)
    ensures engref > 0.0 && !overrun ==> forall e :: 0 <= e < nlags0 ==> InRange(correl[e])
    ensures engref > 0.0 && !overrun ==> Best(x, size, start0, nlags, locs, |locs|, maxloc, maxval, winner, sqrt)
    ensures engref > 0.0 && !overrun ==> forall e :: 0 <= e < nlags0 && correl[e].Num? ==> correl[e].v <= maxval
    ensures engref > 0.0 && !overrun && maxval > 0.0 ==>
      && start0 <= maxloc < start0 + nlags0
      && (LastPatch(nlags, start0, locs, |locs|, maxloc - start0) == winner ==> correl[maxloc - start0] == Num(maxval))
    ensures engref == 0.0 ==> maxloc == 0 && maxval == 0.0 && forall e :: 0 <= e < nlags0 ==> correl[e] == Num(0.0)
  {
    hide PatchEntry, ByCandidate, Computed, InRange, Fitting, IsSqrt, Best, LastPatch;
    var m := Mean(data, size);
    var db := Center(data, m, size + start0 + nlags0);
    x := db;
    correl := seq(nlags0, _ => Num(0.0));
    var engr := Product(db, 0, 0, size);
    engref, maxval, maxloc, winner, overrun := engr, 0.0, -1, -1, false;
    EnergyNonNeg(db, 0, size);
    if engr > 0.0 {
      correl, maxloc, maxval, overrun, winner := Patches(db, size, start0, nlags, locs, engr, sqrt, correl);
      if overrun { return; }
      PatchesTell(db, size, start0, nlags, locs, correl, sqrt);
    } else {
      maxloc := 0;
    }
  }

  lemma PatchesTell(x: seq<real>, size: nat, start0: nat, nlags: nat, locs: seq<int>, correl: seq<Corr>, sqrt: real -> real)
    requires size <= |x| && IsSqrt(sqrt) && Energy(x, 0, size) > 0.0 && Fitting(nlags, start0, locs, |correl|)
    requires forall e :: 0 <= e < |correl| ==> PatchEntry(x, size, start0, nlags, locs, |locs|, e, correl[e], sqrt)
    ensures forall e :: 0 <= e < |correl| ==> InRange(correl[e]) && ByCandidate(x, size, start0, nlags, locs, e, correl[e], sqrt)
    ensures nlags >= 3 ==> forall p, lag :: 0 <= p < |locs| && start0 <= lag && locs[p] - 1 <= lag <= locs[p] + 1 ==>
      Computed(x, size, start0, nlags, locs, lag, correl, sqrt)
  {
    hide PatchEntry, ByCandidate, Computed, InRange, Fitting, IsSqrt;
    forall e | 0 <= e < |correl| ensures InRange(correl[e]) && ByCandidate(x, size, start0, nlags, locs, e, correl[e], sqrt) {
      PatchInRange(x, size, start0, nlags, locs, e, correl[e], sqrt);
      EntryByCandidate(x, size, start0, nlags, locs, e, correl[e], sqrt);
    }
    if nlags >= 3 {
      forall p, lag | 0 <= p < |locs| && start0 <= lag && locs[p] - 1 <= lag <= locs[p] + 1
        ensures Computed(x, size, start0, nlags, locs, lag, correl, sqrt)
      {
        CandidateComputed(x, size, start0, nlags, locs, p, lag, correl, sqrt);
      }
    }
  }

  lemma PatchInRange(x: seq<real>, size: nat, start0: nat, nlags: nat, locs: seq<int>, e: nat, c: Corr, sqrt: real -> real)
    requires size <= |x| && IsSqrt(sqrt) && Energy(x, 0, size) > 0.0
    requires PatchEntry(x, size, start0, nlags, locs, |locs|, e, c, sqrt)
    ensures InRange(c)
  {
    hide FromPatch;
    LastPatchIs(nlags, start0, locs, |locs|, e);
    var p := LastPatch(nlags, start0, locs, |locs|, e);
    if p >= 0 { PatchValue(x, size, start0, nlags, locs[p], e, c, sqrt); }
  }

  lemma PatchValue(x: seq<real>, size: nat, start0: nat, nlags: nat, loc: int, e: nat, c: Corr, sqrt: real -> real)
    requires size <= |x| && IsSqrt(sqrt) && Energy(x, 0, size) > 0.0
    requires FromPatch(x, size, start0, nlags, loc, e, c, sqrt)
    ensures InRange(c)
  {
    hide Entry;
    var s := PatchStart(loc, nlags, start0);
    EntryInRange(x, s, size, start0 + e - s, 10000.0, true, sqrt);
  }

  lemma FittingIs(nlags: nat, start0: nat, locs: seq<int>, nlags0: nat)
    ensures Fitting(nlags, start0, locs, nlags0) <==>
            forall p :: 0 <= p < |locs| ==> PatchStart(locs[p], nlags, start0) + nlags <= start0 + nlags0
  {
    if Fitting(nlags, start0, locs, nlags0) {
      forall p | 0 <= p < |locs| ensures PatchStart(locs[p], nlags, start0) + nlags <= start0 + nlags0 {
        assert locs[p] - nlags / 2 + nlags <= start0 + nlags0;
      }
    } else {
      var p :| 0 <= p < |locs| && !(nlags <= nlags0 && locs[p] - nlags / 2 + nlags <= start0 + nlags0);
      assert PatchStart(locs[p], nlags, start0) + nlags > start0 + nlags0;
    }
  }

  method Patches(db: seq<real>, size: nat, start0: nat, nlags: nat, locs: seq<int>, engr: real, sqrt: real -> real, zero: seq<Corr>)
    returns (correl: seq<Corr>, iloc: int, amax: real, overrun: bool, ghost winner: int)
    requires size <= |db| && |zero| + size + start0 == |db| && engr == Energy(db, 0, size) && engr > 0.0 && IsSqrt(sqrt)
    requires forall e :: 0 <= e < |zero| ==> zero[e] == Num(0.0)
    ensures |correl| == |zero| && (overrun <==> !Fitting(nlags, start0, locs, |zero|))
    ensures !overrun ==> Best(db, size, start0, nlags, locs, |locs|, iloc, amax, winner, sqrt)
    ensures !overrun ==> forall e :: 0 <= e < |zero| ==> PatchEntry(db, size, start0, nlags, locs, |locs|, e, correl[e], sqrt)
    ensures !overrun ==> forall e :: 0 <= e < |zero| && correl[e].Num? ==> correl[e].v <= amax
    ensures !overrun && amax > 0.0 ==>
      && start0 <= iloc < start0 + |zero|
      && (LastPatch(nlags, start0, locs, |locs|, iloc - start0) == winner ==> correl[iloc - start0] == Num(amax))
  {
    hide Entry, IsSqrt, PatchEntry, LastPatch, Fitting;
    FittingIs(nlags, start0, locs, |zero|);
    correl, amax, iloc, overrun, winner := zero, 0.0, -1, false, -1;
    forall e | 0 <= e < |zero| ensures PatchEntry(db, size, start0, nlags, locs, 0, e, zero[e], sqrt) {
      NoPatchYet(db, size, start0, nlags, locs, e, sqrt);
    }
    for p := 0 to |locs|
      invariant |correl| == |zero| && !overrun && Best(db, size, start0, nlags, locs, p, iloc, amax, winner, sqrt)
      invariant forall q :: 0 <= q < p ==> PatchStart(locs[q], nlags, start0) + nlags <= start0 + |zero|
      invariant forall e :: 0 <= e < |zero| ==> PatchEntry(db, size, start0, nlags, locs, p, e, correl[e], sqrt)
      invariant forall e :: 0 <= e < |zero| && correl[e].Num? ==> correl[e].v <= amax
    {
      ghost var before, was := correl, amax;
      var start := PatchStart(locs[p], nlags, start0);
      if start + nlags > start0 + |zero| {
        overrun := true;
        return;
      }
      correl, iloc, amax := Patch(db, size, start0, start, nlags, engr, sqrt, correl, iloc, amax);
      if amax > was { winner := p; }
      forall e | 0 <= e < |zero| ensures PatchEntry(db, size, start0, nlags, locs, p + 1, e, correl[e], sqrt) {
        NextEntry(db, size, start0, nlags, locs, p, e, before[e], correl[e], sqrt);
      }
    }
    if amax > 0.0 { BestStands(db, size, start0, nlags, locs, iloc, amax, winner, correl, sqrt); }
  }

  lemma NoPatchYet(x: seq<real>, size: nat, start0: nat, nlags: nat, locs: seq<int>, e: nat, sqrt: real -> real)
    ensures PatchEntry(x, size, start0, nlags, locs, 0, e, Num(0.0), sqrt)
  {
  }

  lemma NextEntry(x: seq<real>, size: nat, start0: nat, nlags: nat, locs: seq<int>, p: nat, e: nat, was: Corr, c: Corr, sqrt: real -> real)
    requires p < |locs| && PatchEntry(x, size, start0, nlags, locs, p, e, was, sqrt)
    requires if InPatch(locs[p], nlags, start0, e) then FromPatch(x, size, start0, nlags, locs[p], e, c, sqrt) else c == was
    ensures PatchEntry(x, size, start0, nlags, locs, p + 1, e, c, sqrt)
  {
    hide FromPatch, InPatch;
    LastPatchIs(nlags, start0, locs, p, e);
  }

  lemma BestStands(x: seq<real>, size: nat, start0: nat, nlags: nat, locs: seq<int>, loc: int, val: real, winner: int, correl: seq<Corr>,
                   sqrt: real -> real)
    requires Best(x, size, start0, nlags, locs, |locs|, loc, val, winner, sqrt) && val > 0.0
    requires forall p :: 0 <= p < |locs| ==> PatchStart(locs[p], nlags, start0) + nlags <= start0 + |correl|
    requires forall e :: 0 <= e < |correl| ==> PatchEntry(x, size, start0, nlags, locs, |locs|, e, correl[e], sqrt)
    ensures start0 <= loc < start0 + |correl|
    ensures LastPatch(nlags, start0, locs, |locs|, loc - start0) == winner ==> correl[loc - start0] == Num(val)
  {
    hide Entry;
    assert PatchEntry(x, size, start0, nlags, locs, |locs|, loc - start0, correl[loc - start0], sqrt);
  }
}
