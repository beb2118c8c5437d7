/** The sound source tracker (r2_soundtracker.cpp): sources are queues of at most seven entries, one per
    tick, and a source that stays silent for seven ticks in a row is forgotten. */
module SoundTracker {

  const MAX_QUEUE_LEN: nat := 7

  datatype Candidate = Candidate(
    serial: int, azimuth: real, elevation: real, confidence: real, ticks: int, silence: bool)

  // ---------------------------------------------------------------- averaging directions

  predicate InTurn(a: real, turn: real) { 0.0 <= a < turn }

  function Abs(x: real): real { if x < 0.0 then -x else x }

  /** The copy of `azimuth`, a turn down, as it is or a turn up, that is nearest to `center`. */
  function RoundAzimuth(azimuth: real, center: real, turn: real): (r: real)
    ensures r == azimuth - turn || r == azimuth || r == azimuth + turn
    ensures Abs(r - center) <= Abs(azimuth - turn - center)
    ensures Abs(r - center) <= Abs(azimuth - center) && Abs(r - center) <= Abs(azimuth + turn - center)
  {
    var a1, a3 := azimuth - turn, azimuth + turn;
    var d1, d2, d3 := Abs(a1 - center), Abs(azimuth - center), Abs(a3 - center);
    if d1 <= d2 && d1 <= d3 then a1 else if d2 <= d1 && d2 <= d3 then azimuth else a3
  }

  /** Within one turn, the nearest copy is at most half a turn away. */
  lemma RoundIsNear(azimuth: real, center: real, turn: real)
    requires InTurn(azimuth, turn) && InTurn(center, turn)
    ensures 2.0 * Abs(RoundAzimuth(azimuth, center, turn) - center) <= turn
  {
  }

  /** The source's single correction by one turn. */
  function Wrapped(a: real, turn: real): real {
    if a < 0.0 then a + turn else if a >= turn then a - turn else a
  }

  /** The mean of `a` and `b` with weights `x` and `y`. */
  function Mean(a: real, b: real, x: real, y: real): real
    requires x + y != 0.0
  {
    a * (x / (x + y)) + b * (y / (x + y))
  }

  /** The `j`-th entry merged into the average, weighted by its confidence and its place. Without any weight the
      source divides by zero; `nan` stands for what it gets. */
  function Merge(sc: Candidate, c: Candidate, j: nat, center: real, turn: real, nan: real): Candidate {
    var w := Place(c, j);
    if sc.confidence + w == 0.0 then sc.(azimuth := nan, elevation := nan, confidence := 0.0) else
      sc.(azimuth := Wrapped(Mean(sc.azimuth, RoundAzimuth(c.azimuth, center, turn), sc.confidence, w), turn),
          elevation := Mean(sc.elevation, c.elevation, sc.confidence, w),
          confidence := sc.confidence + w)
  }

  /** The weight of an entry at place `j`. */
  function Place(c: Candidate, j: nat): real { c.confidence * (j + 1) as real }

  lemma PlacePositive(c: Candidate, j: nat)
    requires c.confidence > 0.0
    ensures Place(c, j) > 0.0
  {
    TimesPositive(c.confidence, (j + 1) as real);
  }

  lemma TimesPositive(x: real, y: real)
    requires x > 0.0 && y > 0.0
    ensures x * y > 0.0
  {
  }

  /** Two weights that add up to one. */
  lemma Shares(x: real, y: real)
    requires x > 0.0 && y > 0.0
    ensures x / (x + y) > 0.0 && y / (x + y) > 0.0 && x / (x + y) + y / (x + y) == 1.0
  {
    var w := x + y;
    assert x / w + y / w == (x + y) / w;
  }

  /** A mean is no farther from one argument than the other is. */
  lemma MeanNear(a: real, r: real, x: real, y: real)
    requires x > 0.0 && y > 0.0
    ensures Abs(Mean(a, r, x, y) - a) <= Abs(r - a)
  {
    Shares(x, y);
    Between(a, r, x / (x + y), y / (x + y));
  }

  lemma Between(a: real, r: real, w1: real, w2: real)
    requires w1 > 0.0 && w2 > 0.0 && w1 + w2 == 1.0
    ensures Abs(a * w1 + r * w2 - a) <= Abs(r - a)
  {
    assert w1 == 1.0 - w2 && 0.0 < w2 < 1.0;
    assert a * w1 == a - a * w2;
    assert a * w1 + r * w2 - a == (r - a) * w2;
    Shrinks(r - a, w2);
  }

  lemma Shrinks(x: real, w: real)
    requires 0.0 < w < 1.0
    ensures Abs(x * w) <= Abs(x)
  {
    hide Abs;
    var p := x * w;
    assert x - p == x * (1.0 - w);
    if x >= 0.0 {
      NonNeg(x, w);
      NonNeg(x, 1.0 - w);
      Smaller(p, x);
    } else {
      NonPos(x, w);
      NonPos(x, 1.0 - w);
      Smaller(p, x);
    }
  }

  lemma Smaller(p: real, x: real)
    requires 0.0 <= p <= x || x <= p <= 0.0
    ensures Abs(p) <= Abs(x)
  {
  }

  lemma NonPos(x: real, y: real)
    requires x <= 0.0 && y >= 0.0
    ensures x * y <= 0.0
  {
  }

  lemma NonNeg(x: real, y: real)
    requires x >= 0.0 && y >= 0.0
    ensures x * y >= 0.0
  {
  }

  /** With positive confidences one correction is enough. */
  lemma MergeInTurn(sc: Candidate, c: Candidate, j: nat, turn: real, nan: real)
    requires sc.confidence > 0.0 && c.confidence > 0.0 && InTurn(sc.azimuth, turn) && InTurn(c.azimuth, turn)
    ensures
      var m := Merge(sc, c, j, sc.azimuth, turn, nan);
      InTurn(m.azimuth, turn) && m.confidence > 0.0 && m.serial == sc.serial
  {
    hide Place, RoundAzimuth, Abs, Mean, Wrapped;
    var y := Place(c, j);
    PlacePositive(c, j);
    var r := RoundAzimuth(c.azimuth, sc.azimuth, turn);
    MeanNear(sc.azimuth, r, sc.confidence, y);
    RoundIsNear(c.azimuth, sc.azimuth, turn);
    WrapIn(sc.azimuth, Mean(sc.azimuth, r, sc.confidence, y), turn);
  }

  lemma WrapIn(a: real, x: real, turn: real)
    requires InTurn(a, turn) && 2.0 * Abs(x - a) <= turn
    ensures InTurn(Wrapped(x, turn), turn)
  {
  }

  /** The elevation is a weighted mean. */
  lemma MergeElevation(sc: Candidate, c: Candidate, j: nat, center: real, turn: real, nan: real)
    requires sc.confidence > 0.0 && c.confidence > 0.0
    ensures
      var m := Merge(sc, c, j, center, turn, nan);
      m.elevation * m.confidence == sc.elevation * sc.confidence + c.elevation * Place(c, j)
  {
    hide Place, RoundAzimuth, Wrapped, Mean;
    var y := Place(c, j);
    PlacePositive(c, j);
    WeightedMean(sc.elevation, c.elevation, sc.confidence, y);
    var m := Merge(sc, c, j, center, turn, nan);
    assert m.elevation == Mean(sc.elevation, c.elevation, sc.confidence, y) && m.confidence == sc.confidence + y;
    assert m.elevation * m.confidence == Mean(sc.elevation, c.elevation, sc.confidence, y) * (sc.confidence + y);
  }

  lemma WeightedMean(a: real, b: real, x: real, y: real)
    requires x > 0.0 && y > 0.0
    ensures Mean(a, b, x, y) * (x + y) == a * x + b * y
  {
    var w := x + y;
    Undo(a, x, w);
    Undo(b, y, w);
    Spread(a * (x / w), b * (y / w), w);
  }

  lemma Spread(p: real, q: real, w: real)
    ensures (p + q) * w == p * w + q * w
  {
  }

  lemma Undo(a: real, x: real, w: real)
    requires w > 0.0
    ensures a * (x / w) * w == a * x
  {
    assert x / w * w == x;
    assert a * (x / w) * w == a * (x / w * w);
  }

  // ---------------------------------------------------------------- the average of a queue

  ghost function VoicedCount(q: seq<Candidate>, n: nat): nat
    requires n <= |q|
  {
    if n == 0 then 0 else VoicedCount(q, n - 1) + if q[n - 1].silence then 0 else 1
  }

  /** The weight of entry `k`: its confidence, times its place unless it is the first voiced one. */
  ghost function WeightAt(q: seq<Candidate>, k: nat): real
    requires k < |q|
  {
    if q[k].silence then 0.0
    else if VoicedCount(q, k) == 0 then q[k].confidence
    else Place(q[k], k)
  }

  ghost function Weight(q: seq<Candidate>, n: nat): real
    requires n <= |q|
  {
    if n == 0 then 0.0 else Weight(q, n - 1) + WeightAt(q, n - 1)
  }

  ghost function Elevations(q: seq<Candidate>, n: nat): real
    requires n <= |q|
  {
    if n == 0 then 0.0 else Elevations(q, n - 1) + q[n - 1].elevation * WeightAt(q, n - 1)
  }

  /** From `a` the shortest way towards `b`, by the share `y` has in `x + y`. */
  ghost function Towards(a: real, b: real, x: real, y: real, turn: real): real {
    Wrapped(Pulled(a, RoundAzimuth(b, a, turn), x, y), turn)
  }

  /** From `a` towards `r` by the share of `y`. */
  ghost function Pulled(a: real, r: real, x: real, y: real): real {
    a + (r - a) * if x + y == 0.0 then 0.0 else y / (x + y)
  }

  /** The averaged azimuth: every voiced entry pulls it its own share of the shortest way. */
  ghost function Azimuth(q: seq<Candidate>, n: nat, turn: real): real
    requires n <= |q|
  {
    if n == 0 then 0.0
    else if q[n - 1].silence then Azimuth(q, n - 1, turn)
    else if VoicedCount(q, n - 1) == 0 then q[n - 1].azimuth
    else Towards(Azimuth(q, n - 1, turn), q[n - 1].azimuth, Weight(q, n - 1), WeightAt(q, n - 1), turn)
  }

  /** Merging an entry moves the azimuth the shortest way. */
  lemma MergeTowards(sc: Candidate, c: Candidate, j: nat, turn: real, nan: real)
    requires sc.confidence > 0.0 && c.confidence > 0.0
    ensures Merge(sc, c, j, sc.azimuth, turn, nan).azimuth ==
      Towards(sc.azimuth, c.azimuth, sc.confidence, Place(c, j), turn)
  {
    hide Place, RoundAzimuth, Wrapped, Mean, Pulled;
    var y := Place(c, j);
    PlacePositive(c, j);
    var r := RoundAzimuth(c.azimuth, sc.azimuth, turn);
    MeanIsShare(sc.azimuth, r, sc.confidence, y);
    assert Merge(sc, c, j, sc.azimuth, turn, nan).azimuth == Wrapped(Mean(sc.azimuth, r, sc.confidence, y), turn);
  }

  lemma MeanIsShare(a: real, r: real, x: real, y: real)
    requires x > 0.0 && y > 0.0
    ensures Mean(a, r, x, y) == Pulled(a, r, x, y)
  {
    Shares(x, y);
    ShareForm(a, r, x / (x + y), y / (x + y));
  }

  lemma ShareForm(a: real, r: real, w1: real, w2: real)
    requires w1 + w2 == 1.0
    ensures a * w1 + r * w2 == a + (r - a) * w2
  {
    assert a * w1 == a - a * w2;
  }

  /** All entries carry `serial`. */
  ghost predicate Entries(q: seq<Candidate>, serial: int) {
    forall k :: 0 <= k < |q| ==> q[k].serial == serial
  }

  /** A direction within the turn and some confidence. */
  predicate SaneEntry(c: Candidate, turn: real) { InTurn(c.azimuth, turn) && c.confidence > 0.0 }

  /** All voiced entries are sane. */
  ghost predicate Sane(q: seq<Candidate>, turn: real) {
    forall k :: 0 <= k < |q| && !q[k].silence ==> SaneEntry(q[k], turn)
  }

  /** `sc` averages the first `n` entries. */
  ghost predicate Averages(sc: Candidate, q: seq<Candidate>, n: nat, serial: int, turn: real)
    requires n <= |q|
  {
    && sc.serial == serial && InTurn(sc.azimuth, turn) && sc.confidence > 0.0
    && sc.azimuth == Azimuth(q, n, turn) && sc.confidence == Weight(q, n)
    && sc.elevation * sc.confidence == Elevations(q, n)
  }

  method Average(q: seq<Candidate>, prev: Candidate, turn: real, nan: real, ghost serial: int) returns (sc: Candidate, voiced: nat)
    requires Entries(q, serial)
    ensures voiced == VoicedCount(q, |q|)
    ensures voiced == 0 ==> sc == prev
    ensures voiced > 0 ==> sc.serial == serial && (Sane(q, turn) ==> Averages(sc, q, |q|, serial, turn))
  {
    hide Merge, Averages;
    voiced, sc := 0, prev;
    var center := 0.0;
    for j := 0 to |q|
      invariant voiced == VoicedCount(q, j)
      invariant voiced == 0 ==> sc == prev
      invariant voiced > 0 ==> sc.serial == serial && center == sc.azimuth && (Sane(q, turn) ==> Averages(sc, q, j, serial, turn))
    {
      var c := q[j];
      if !c.silence {
        if voiced == 0 {
          if Sane(q, turn) { FirstVoiced(q, j, serial, turn); }
          sc := c;
        } else {
          if Sane(q, turn) { AverageStep(sc, q, j, serial, turn, nan); }
          MergeSerial(sc, c, j, center, turn, nan);
          sc := Merge(sc, c, j, center, turn, nan);
        }
        center := sc.azimuth;
        voiced := voiced + 1;
      } else if voiced > 0 {
        if Sane(q, turn) { SkipSilence(sc, q, j, serial, turn); }
      }
    }
  }

  lemma MergeSerial(sc: Candidate, c: Candidate, j: nat, center: real, turn: real, nan: real)
    ensures Merge(sc, c, j, center, turn, nan).serial == sc.serial
  {
  }

  lemma {:induction false} NothingVoiced(q: seq<Candidate>, n: nat)
    requires n <= |q| && VoicedCount(q, n) == 0
    ensures Weight(q, n) == 0.0 && Elevations(q, n) == 0.0
  {
    if n > 0 { NothingVoiced(q, n - 1); }
  }

  lemma FirstVoiced(q: seq<Candidate>, j: nat, serial: int, turn: real)
    requires Entries(q, serial) && Sane(q, turn) && j < |q| && !q[j].silence && VoicedCount(q, j) == 0
    ensures Averages(q[j], q, j + 1, serial, turn)
  {
    NothingVoiced(q, j);
  }

  lemma SkipSilence(sc: Candidate, q: seq<Candidate>, j: nat, serial: int, turn: real)
    requires j < |q| && q[j].silence && Averages(sc, q, j, serial, turn)
    ensures Averages(sc, q, j + 1, serial, turn)
  {
    assert q[j].elevation * WeightAt(q, j) == 0.0;
  }

  lemma AverageStep(sc: Candidate, q: seq<Candidate>, j: nat, serial: int, turn: real, nan: real)
    requires Entries(q, serial) && Sane(q, turn) && j < |q| && !q[j].silence && VoicedCount(q, j) > 0
    requires Averages(sc, q, j, serial, turn)
    ensures sc.confidence > 0.0 && q[j].confidence > 0.0
    ensures Averages(Merge(sc, q[j], j, sc.azimuth, turn, nan), q, j + 1, serial, turn)
  {
    hide Place, RoundAzimuth, Wrapped, Mean, InTurn, Towards;
    MergeInTurn(sc, q[j], j, turn, nan);
    MergeElevation(sc, q[j], j, sc.azimuth, turn, nan);
    MergeTowards(sc, q[j], j, turn, nan);
    var m := Merge(sc, q[j], j, sc.azimuth, turn, nan);
    assert WeightAt(q, j) == Place(q[j], j);
    assert m.confidence == sc.confidence + WeightAt(q, j);
    assert m.azimuth == Towards(Azimuth(q, j, turn), q[j].azimuth, Weight(q, j), WeightAt(q, j), turn);
  }

  // ---------------------------------------------------------------- the life of a queue

  /** Between ticks: the last `k` entries are silent, the one before them is not. During a tick in which
      the source was heard the last entry is voiced. */
  ghost predicate Life(q: seq<Candidate>, heard: bool, k: nat) {
    if heard then 0 < |q| <= MAX_QUEUE_LEN + 1 && !q[|q| - 1].silence
    else
      && k < |q| <= MAX_QUEUE_LEN && !q[|q| - 1 - k].silence
      && forall i :: |q| - k <= i < |q| ==> q[i].silence
  }

  function Silence(serial: int): Candidate { Candidate(serial, 0.0, 0.0, 0.0, 0, true) }

  /** The queue after a tick. */
  function Aged(q: seq<Candidate>, heard: bool): seq<Candidate>
    requires q != []
  {
    var p := if heard then q else q + [Silence(q[|q| - 1].serial)];
    if |p| > MAX_QUEUE_LEN then p[1..] else p
  }

  /** Consecutive silent ticks after this one. */
  function Later(heard: bool, k: nat): nat { if heard then 0 else k + 1 }

  /** A tick leaves nothing voiced exactly when it is the seventh silent one in a row. */
  lemma AgedLife(q: seq<Candidate>, heard: bool, k: nat, serial: int)
    requires Life(q, heard, k) && Entries(q, serial)
    ensures var p := Aged(q, heard); 0 < |p| <= MAX_QUEUE_LEN && Entries(p, serial)
    ensures Later(heard, k) < MAX_QUEUE_LEN ==> Life(Aged(q, heard), false, Later(heard, k))
    ensures VoicedCount(Aged(q, heard), |Aged(q, heard)|) == 0 <==> Later(heard, k) >= MAX_QUEUE_LEN
  {
    hide InTurn;
    var p := Aged(q, heard);
    if Later(heard, k) < MAX_QUEUE_LEN {
      SomeVoiced(p, |p|, |p| - 1 - Later(heard, k));
    } else {
      AllSilent(p, |p|);
    }
  }

  lemma {:induction false} SomeVoiced(q: seq<Candidate>, n: nat, k: nat)
    requires k < n <= |q| && !q[k].silence
    ensures VoicedCount(q, n) > 0
  {
    if k < n - 1 { SomeVoiced(q, n - 1, k); }
  }

  lemma {:induction false} AllSilent(q: seq<Candidate>, n: nat)
    requires n <= |q| && forall i :: 0 <= i < n ==> q[i].silence
    ensures VoicedCount(q, n) == 0
  {
    if n > 0 { AllSilent(q, n - 1); }
  }

  // ---------------------------------------------------------------- sources

  ghost function SerialOf(q: seq<Candidate>): int { if q == [] then 0 else q[0].serial }

  ghost predicate SourceOk(q: seq<Candidate>, heard: bool, sc: Candidate, k: nat) {
    Entries(q, SerialOf(q)) && Life(q, heard, k) && sc.serial == SerialOf(q)
  }

  /** The three vectors are aligned and every source is sound. */
  ghost predicate Aligned(qs: seq<seq<Candidate>>, us: seq<bool>, cs: seq<Candidate>, ks: seq<nat>) {
    && |qs| == |us| == |cs| == |ks|
    && forall i :: 0 <= i < |qs| ==> SourceOk(qs[i], us[i], cs[i], ks[i])
  }

  /** One serial per source, rising along the vector and below the next one to give out. */
  ghost predicate Rising(qs: seq<seq<Candidate>>, serial: int) {
    && (forall i, j :: 0 <= i < j < |qs| ==> SerialOf(qs[i]) < SerialOf(qs[j]))
    && forall i :: 0 <= i < |qs| ==> SerialOf(qs[i]) < serial
  }

  /** The candidate shown for a queue: confidence over the weights of a full queue, voiced ticks. */
  ghost predicate Shown(sc: Candidate, q: seq<Candidate>, turn: real) {
    && InTurn(sc.azimuth, turn) && sc.azimuth == Azimuth(q, |q|, turn) && sc.ticks == VoicedCount(q, |q|)
    && sc.confidence * (|q| * (|q| + 1) / 2) as real == Weight(q, |q|)
    && sc.elevation * Weight(q, |q|) == Elevations(q, |q|)
  }

  lemma NormalisedConfidence(x: real, n: nat)
    requires x > 0.0 && n > 0
    ensures n * (n + 1) / 2 > 0
    ensures
      var m := (n * (n + 1) / 2) as real;
      x / m > 0.0 && x / m * m == x
  {
    Triangle(n);
    var m := (n * (n + 1) / 2) as real;
    Divided(x, m);
  }

  lemma Triangle(n: nat)
    requires n > 0
    ensures n * (n + 1) / 2 > 0
  {
    assert n * (n + 1) >= 2;
  }

  lemma Divided(x: real, m: real)
    requires x > 0.0 && m > 0.0
    ensures x / m > 0.0 && x / m * m == x
  {
  }

  lemma Shows(sc: Candidate, q: seq<Candidate>, serial: int, turn: real)
    requires q != [] && Averages(sc, q, |q|, serial, turn)
    ensures
      var n := |q|;
      && n * (n + 1) / 2 > 0
      && var r := sc.(confidence := sc.confidence / (n * (n + 1) / 2) as real, ticks := VoicedCount(q, n));
      Shown(r, q, turn) && r.confidence > 0.0
  {
    hide InTurn, VoicedCount, Weight, Elevations, Azimuth;
    NormalisedConfidence(sc.confidence, |q|);
  }

  /** Every entry says the same. */
  ghost predicate Steady(q: seq<Candidate>, azimuth: real, elevation: real, confidence: real) {
    forall k :: 0 <= k < |q| ==>
      !q[k].silence && q[k].azimuth == azimuth && q[k].elevation == elevation && q[k].confidence == confidence
  }

  /** A steady source shows just what its entries say: the place weights are normalised away. */
  lemma SteadyIsShown(sc: Candidate, q: seq<Candidate>, turn: real, azimuth: real, elevation: real, confidence: real)
    requires q != [] && Shown(sc, q, turn) && Steady(q, azimuth, elevation, confidence) && confidence > 0.0 && InTurn(azimuth, turn)
    ensures sc.azimuth == azimuth && sc.elevation == elevation && sc.confidence == confidence && sc.ticks == |q|
  {
    hide Weight, Elevations, Azimuth, VoicedCount, Steady, InTurn;
    var n := |q|;
    var m := (n * (n + 1) / 2) as real;
    Triangle(n);
    SteadyWeight(q, n, azimuth, elevation, confidence);
    SteadyAzimuth(q, n, azimuth, elevation, confidence, turn);
    Same(sc.confidence, confidence, m);
    TimesPositive(confidence, m);
    Same(sc.elevation, elevation, confidence * m);
  }

  lemma Same(x: real, y: real, m: real)
    requires m > 0.0 && x * m == y * m
    ensures x == y
  {
  }

  /** The sum of the places 1 to `n`. */
  ghost function Places(n: nat): nat { n * (n + 1) / 2 }

  lemma PlacesStep(n: nat)
    ensures Places(n) == if n == 0 then 0 else Places(n - 1) + n
  {
    if n > 0 { assert n * (n + 1) == (n - 1) * n + 2 * n; }
  }

  lemma {:induction false} SteadyWeight(q: seq<Candidate>, n: nat, azimuth: real, elevation: real, confidence: real)
    requires n <= |q| && Steady(q, azimuth, elevation, confidence)
    ensures VoicedCount(q, n) == n && Weight(q, n) == confidence * Places(n) as real && Elevations(q, n) == elevation * Weight(q, n)
  {
    hide WeightAt, Steady, Places;
    PlacesStep(n);
    if n > 0 {
      SteadyWeight(q, n - 1, azimuth, elevation, confidence);
      SteadyPlace(q, n - 1, azimuth, elevation, confidence);
      OneMore(confidence, Places(n - 1) as real, n as real, elevation, Weight(q, n - 1));
    }
  }

  lemma SteadyPlace(q: seq<Candidate>, k: nat, azimuth: real, elevation: real, confidence: real)
    requires k < |q| && Steady(q, azimuth, elevation, confidence) && VoicedCount(q, k) == k
    ensures !q[k].silence && q[k].elevation == elevation && WeightAt(q, k) == confidence * (k + 1) as real
  {
    hide VoicedCount;
  }

  /** Pulling a direction towards itself does not move it. */
  lemma TowardsSelf(a: real, x: real, y: real, turn: real)
    requires InTurn(a, turn)
    ensures Towards(a, a, x, y, turn) == a
  {
    hide RoundAzimuth;
    assert RoundAzimuth(a, a, turn) == a;
  }

  lemma OneMore(c: real, m: real, n: real, e: real, w: real)
    ensures c * (m + n) == c * m + c * n && e * (w + c * n) == e * w + e * (c * n)
  {
  }

  lemma {:induction false} SteadyAzimuth(q: seq<Candidate>, n: nat, azimuth: real, elevation: real, confidence: real, turn: real)
    requires 0 < n <= |q| && Steady(q, azimuth, elevation, confidence) && InTurn(azimuth, turn)
    ensures Azimuth(q, n, turn) == azimuth
  {
    hide Weight, WeightAt, Towards, InTurn;
    if n > 1 {
      TowardsSelf(azimuth, Weight(q, n - 1), WeightAt(q, n - 1), turn);
      SteadyWeight(q, n - 1, azimuth, elevation, confidence);
      SteadyAzimuth(q, n - 1, azimuth, elevation, confidence, turn);
    }
  }

  /** One source in one tick. */
  method TickOne(q: seq<Candidate>, heard: bool, prev: Candidate, turn: real, nan: real, ghost k: nat)
    returns (p: seq<Candidate>, sc: Candidate, voiced: nat)
    requires SourceOk(q, heard, prev, k)
    ensures q != [] && p == Aged(q, heard)
    ensures voiced == 0 <==> Later(heard, k) >= MAX_QUEUE_LEN
    ensures voiced > 0 ==> SourceOk(p, false, sc, Later(heard, k)) && (Sane(p, turn) ==> Shown(sc, p, turn)) && SerialOf(p) == SerialOf(q)
  {
    hide InTurn, VoicedCount, Weight, Elevations, Azimuth, Shown;
    AgedLife(q, heard, k, SerialOf(q));
    p := if heard then q else q + [Silence(q[|q| - 1].serial)];
    if |p| > MAX_QUEUE_LEN { p := p[1..]; }
    sc, voiced := Average(p, prev, turn, nan, SerialOf(q));
    if voiced > 0 {
      var n := |p|;
      Triangle(n);
      if Sane(p, turn) { Shows(sc, p, SerialOf(q), turn); }
      sc := sc.(confidence := sc.confidence / (n * (n + 1) / 2) as real, ticks := voiced);
    }
  }

  // ---------------------------------------------------------------- who survives a tick

  /** The sources among the first `n` that are not in their seventh silent tick. */
  ghost function Keep(us: seq<bool>, ks: seq<nat>, n: nat): seq<nat>
    requires n <= |us| == |ks|
  {
    if n == 0 then [] else
      Keep(us, ks, n - 1) + if Later(us[n - 1], ks[n - 1]) < MAX_QUEUE_LEN then [n - 1] else []
  }

  lemma {:induction false} KeepExact(us: seq<bool>, ks: seq<nat>, n: nat)
    requires n <= |us| == |ks|
    ensures forall i :: i in Keep(us, ks, n) <==> 0 <= i < n && Later(us[i], ks[i]) < MAX_QUEUE_LEN
    ensures forall a, b :: 0 <= a < b < |Keep(us, ks, n)| ==> Keep(us, ks, n)[a] < Keep(us, ks, n)[b]
  {
    if n > 0 {
      KeepExact(us, ks, n - 1);
      var rest := Keep(us, ks, n - 1);
      assert forall a :: 0 <= a < |rest| ==> rest[a] in rest;
    }
  }

  /** Source `j` after the tick is source `from` before it. */
  ghost predicate Follows(p: seq<Candidate>, sc: Candidate, k: nat, q: seq<Candidate>, heard: bool, k0: nat, turn: real) {
    q != [] && p == Aged(q, heard) && k == Later(heard, k0) && (Sane(p, turn) ==> Shown(sc, p, turn)) && SerialOf(p) == SerialOf(q)
  }

  /** The first `i` sources are what became of the first `n` old ones. */
  ghost predicate Ticked(qs: seq<seq<Candidate>>, us: seq<bool>, cs: seq<Candidate>, ks: seq<nat>, i: nat,
                         qs0: seq<seq<Candidate>>, us0: seq<bool>, ks0: seq<nat>, n: nat, turn: real)
  {
    && i <= |qs| == |us| == |cs| == |ks| && n <= |qs0| == |us0| == |ks0|
    && i == |Keep(us0, ks0, n)|
    && forall j :: 0 <= j < i ==>
      && 0 <= Keep(us0, ks0, n)[j] < n && !us[j] && SourceOk(qs[j], false, cs[j], ks[j])
      && var f := Keep(us0, ks0, n)[j]; Follows(qs[j], cs[j], ks[j], qs0[f], us0[f], ks0[f], turn)
  }

  lemma TickedOrder(qs: seq<seq<Candidate>>, us: seq<bool>, cs: seq<Candidate>, ks: seq<nat>,
                    qs0: seq<seq<Candidate>>, us0: seq<bool>, ks0: seq<nat>, turn: real, serial: int)
    requires Ticked(qs, us, cs, ks, |qs|, qs0, us0, ks0, |qs0|, turn) && Rising(qs0, serial)
    ensures Rising(qs, serial) && Aligned(qs, us, cs, ks)
  {
    hide SourceOk, Shown, SerialOf, Aged;
    KeepExact(us0, ks0, |qs0|);
  }

  // ---------------------------------------------------------------- the closest source

  /** 15 degrees, as a cosine. */
  const MIN_CLUSTER_ANGLE_COS: real := 0.96592582629

  /** `idx` is the first of the closest candidates within the cluster angle, -1 if there is none. */
  ghost predicate Closest(cs: seq<Candidate>, c: Candidate, angle: (Candidate, Candidate) -> real, n: nat, idx: int)
    requires n <= |cs|
  {
    if idx == -1 then forall i :: 0 <= i < n ==> angle(c, cs[i]) < MIN_CLUSTER_ANGLE_COS
    else
      && 0 <= idx < n && angle(c, cs[idx]) >= MIN_CLUSTER_ANGLE_COS
      && (forall i :: 0 <= i < n ==> angle(c, cs[i]) <= angle(c, cs[idx]))
      && forall i :: 0 <= i < idx ==> angle(c, cs[i]) < angle(c, cs[idx])
  }

  method FindClosest(cs: seq<Candidate>, c: Candidate, angle: (Candidate, Candidate) -> real) returns (idx: int)
    ensures Closest(cs, c, angle, |cs|, idx)
  {
    var weight := -1.0;
    idx := -1;
    for i := 0 to |cs|
      invariant Closest(cs, c, angle, i, idx)
      invariant weight == if idx == -1 then -1.0 else angle(c, cs[idx])
    {
      var a := angle(c, cs[i]);
      if a >= MIN_CLUSTER_ANGLE_COS && a > weight {
        weight, idx := a, i;
      }
    }
  }

  /** The queue with a new candidate: a second one in the same tick only if it is more confident. */
  function Noted(q: seq<Candidate>, heard: bool, c: Candidate): seq<Candidate>
    requires q != []
  {
    if !heard then q + [c] else if c.confidence > q[|q| - 1].confidence then q[|q| - 1 := c] else q
  }

  /** All candidates that one tick offers to a source, one after the other. */
  function NotedAll(q: seq<Candidate>, heard: bool, cs: seq<Candidate>): (r: seq<Candidate>)
    requires q != []
    ensures r != []
    decreases |cs|
  {
    if cs == [] then q else NotedAll(Noted(q, heard, cs[0]), true, cs[1..])
  }

  /** A tick adds one entry, the most confident of those offered in it, the earlier of equals; what was there stays. */
  lemma {:induction false} BestOfTick(q: seq<Candidate>, cs: seq<Candidate>)
    requires q != [] && cs != []
    ensures var r := NotedAll(q, false, cs);
      && |r| == |q| + 1 && r[..|q|] == q
      && exists b :: 0 <= b < |cs| && r[|q|] == cs[b] && FirstBest(cs, b)
  {
    MoreOffers(q + [cs[0]], cs, 1, 0);
    assert (q + [cs[0]])[..|q|] == q;
  }

  /** `b` is the first of the most confident. */
  ghost predicate FirstBest(cs: seq<Candidate>, b: nat) {
    && b < |cs| && (forall j :: 0 <= j < |cs| ==> cs[j].confidence <= cs[b].confidence)
    && forall j :: 0 <= j < b ==> cs[j].confidence < cs[b].confidence
  }

  lemma {:induction false} MoreOffers(q: seq<Candidate>, cs: seq<Candidate>, i: nat, b: nat)
    requires q != [] && b < i <= |cs| && q[|q| - 1] == cs[b] && FirstBest(cs[..i], b)
    ensures var r := NotedAll(q, true, cs[i..]);
      && |r| == |q| && r[..|q| - 1] == q[..|q| - 1]
      && exists b :: 0 <= b < |cs| && r[|q| - 1] == cs[b] && FirstBest(cs, b)
    decreases |cs| - i
  {
    if i < |cs| {
      var c := cs[i];
      var b' := if c.confidence > cs[b].confidence then i else b;
      assert cs[i..][0] == c && cs[i..][1..] == cs[i + 1..];
      assert forall j :: 0 <= j < i ==> cs[..i + 1][j] == cs[..i][j];
      MoreOffers(Noted(q, true, c), cs, i + 1, b');
    } else {
      assert cs[..i] == cs;
    }
  }

  lemma NotedBest(q: seq<Candidate>, heard: bool, c: Candidate)
    requires q != []
    ensures var r := Noted(q, heard, c);
      && r != [] && r[|r| - 1].confidence >= c.confidence
      && (heard ==> |r| == |q| && r[..|q| - 1] == q[..|q| - 1] && r[|r| - 1].confidence >= q[|q| - 1].confidence)
      && (heard ==> r[|r| - 1] == c || r[|r| - 1] == q[|q| - 1])
      && (!heard ==> r[..|r| - 1] == q && r[|r| - 1] == c)
  {
  }

  lemma NotedOk(q: seq<Candidate>, heard: bool, sc: Candidate, k: nat, c: Candidate)
    requires SourceOk(q, heard, sc, k) && q != []
    requires !c.silence && c.serial == q[|q| - 1].serial
    ensures SourceOk(Noted(q, heard, c), true, sc, k) && SerialOf(Noted(q, heard, c)) == SerialOf(q)
  {
    hide InTurn;
  }

  class Tracker {
    const turn: real                                 // a full turn in radians
    const angle: (Candidate, Candidate) -> real      // cosine of the angle between two directions
    var queues: seq<seq<Candidate>>
    var updates: seq<bool>
    var candidates: seq<Candidate>
    var serial: int
    ghost var quiet: seq<nat>                        // silent ticks in a row, per source

    ghost predicate Valid()
      reads this
    {
      turn > 0.0 && Aligned(queues, updates, candidates, quiet) && Rising(queues, serial)
    }

    /** The serial counter has no value before Reset in the source; a tracker starts reset here. */
    constructor (turn: real, angle: (Candidate, Candidate) -> real)
      requires turn > 0.0
      ensures Valid() && queues == [] && this.turn == turn && this.angle == angle
    {
      this.turn, this.angle := turn, angle;
      queues, updates, candidates, serial, quiet := [], [], [], 0, [];
    }

    method Reset()
      requires turn > 0.0
      modifies this
      ensures Valid() && queues == [] && serial == 0
    {
      queues, updates, candidates, serial, quiet := [], [], [], 0, [];
    }

    /** A candidate joins the closest source or starts one; its serial comes back in `named`. */
    method AddCandidate(candi: Candidate) returns (named: Candidate, idx: int)
      requires Valid() && !candi.silence
      modifies this
      ensures Valid() && named == candi.(serial := named.serial)
      ensures Closest(old(candidates), candi, angle, |old(candidates)|, idx)
      ensures idx == -1 ==>
        && named.serial == old(serial) && serial == old(serial) + 1
        && queues == old(queues) + [[named]] && updates == old(updates) + [true]
        && candidates == old(candidates) + [named.(confidence := named.confidence / MAX_QUEUE_LEN as real)]
        && quiet == old(quiet) + [0]
      ensures idx != -1 ==>
        && named.serial == SerialOf(old(queues)[idx]) && serial == old(serial) && quiet == old(quiet)
        && old(queues)[idx] != [] && queues == old(queues)[idx := Noted(old(queues)[idx], old(updates)[idx], named)]
        && updates == old(updates)[idx := true] && candidates == old(candidates)
        && queues[idx] != [] && queues[idx][|queues[idx]| - 1].confidence >= candi.confidence
        && (old(updates)[idx] ==> queues[idx][|queues[idx]| - 1].confidence >= old(queues)[idx][|old(queues)[idx]| - 1].confidence)
    {
      hide InTurn, Noted, Closest, Life, Entries;
      idx := FindClosest(candidates, candi, angle);
      ClosestRange(candidates, candi, angle, |candidates|, idx);
      if idx == -1 {
        named := candi.(serial := serial);
        NewSource(named);
        serial := serial + 1;
        queues := queues + [[named]];
        candidates := candidates + [named.(confidence := named.confidence / MAX_QUEUE_LEN as real)];
        updates, quiet := updates + [true], quiet + [0];
      } else {
        var q := queues[idx];
        SourceShape(q, updates[idx], candidates[idx], quiet[idx]);
        named := candi.(serial := q[|q| - 1].serial);
        NotedBest(q, updates[idx], named);
        NotedOk(q, updates[idx], candidates[idx], quiet[idx], named);
        queues := queues[idx := Noted(q, updates[idx], named)];
        updates := updates[idx := true];
      }
    }

    /** Every source ages by one entry; those in their seventh silent tick disappear, the others keep
        their order, their serial and at most seven entries. */
    method Tick(nan: real)
      requires Valid()
      modifies this`queues, this`updates, this`candidates, this`quiet
      ensures Valid()
      ensures Ticked(queues, updates, candidates, quiet, |queues|, old(queues), old(updates), old(quiet), |old(queues)|, turn)
      ensures forall i :: 0 <= i < |queues| ==> !updates[i] && 1 <= |queues[i]| <= MAX_QUEUE_LEN
    {
      hide SourceOk, Follows, Rising, Aged, Ticked, Shown;
      var qs, us, cs := queues, updates, candidates;
      ghost var ks: seq<nat>, n: nat := quiet, 0;
      ghost var qs0, us0, cs0, ks0 := queues, updates, candidates, quiet;
      var i := 0;
      TickedNone(qs0, us0, cs0, ks0, turn);
      while i < |qs|
        invariant |qs| == |us| == |cs| == |ks| && i <= |qs| && n <= |qs0| && n + (|qs| - i) == |qs0|
        invariant Ticked(qs, us, cs, ks, i, qs0, us0, ks0, n, turn)
        invariant qs[i..] == qs0[n..] && us[i..] == us0[n..] && cs[i..] == cs0[n..] && ks[i..] == ks0[n..]
        decreases |qs| - i
      {
        assert qs[i] == qs[i..][0] && us[i] == us[i..][0] && cs[i] == cs[i..][0] && ks[i] == ks[i..][0];
        var p, sc, voiced := TickOne(qs[i], us[i], cs[i], turn, nan, ks[i]);
        if voiced == 0 {
          TickedDrop(qs, us, cs, ks, i, qs0, us0, ks0, n, turn);
          qs, us, cs, ks := qs[..i] + qs[i + 1..], us[..i] + us[i + 1..], cs[..i] + cs[i + 1..], ks[..i] + ks[i + 1..];
        } else {
          TickedKeep(qs, us, cs, ks, i, p, sc, qs0, us0, ks0, n, turn);
          qs, us, cs, ks := qs[i := p], us[i := false], cs[i := sc], ks[i := Later(us[i], ks[i])];
          i := i + 1;
        }
        n := n + 1;
      }
      TickedOrder(qs, us, cs, ks, qs0, us0, ks0, turn, serial);
      TickedShape(qs, us, cs, ks, qs0, us0, ks0, turn);
      queues, updates, candidates, quiet := qs, us, cs, ks;
    }
  }

  lemma TickedNone(qs: seq<seq<Candidate>>, us: seq<bool>, cs: seq<Candidate>, ks: seq<nat>, turn: real)
    requires |qs| == |us| == |cs| == |ks|
    ensures Ticked(qs, us, cs, ks, 0, qs, us, ks, 0, turn)
  {
    hide SourceOk, Follows;
  }

  lemma TickedDrop(qs: seq<seq<Candidate>>, us: seq<bool>, cs: seq<Candidate>, ks: seq<nat>, i: nat,
                   qs0: seq<seq<Candidate>>, us0: seq<bool>, ks0: seq<nat>, n: nat, turn: real)
    requires Ticked(qs, us, cs, ks, i, qs0, us0, ks0, n, turn) && i < |qs| && n < |qs0|
    requires Later(us0[n], ks0[n]) >= MAX_QUEUE_LEN
    ensures Ticked(qs[..i] + qs[i + 1..], us[..i] + us[i + 1..], cs[..i] + cs[i + 1..], ks[..i] + ks[i + 1..], i,
                   qs0, us0, ks0, n + 1, turn)
  {
    hide SourceOk, Follows, Later;
    assert Keep(us0, ks0, n + 1) == Keep(us0, ks0, n);
  }

  lemma TickedKeep(qs: seq<seq<Candidate>>, us: seq<bool>, cs: seq<Candidate>, ks: seq<nat>, i: nat,
                   p: seq<Candidate>, sc: Candidate,
                   qs0: seq<seq<Candidate>>, us0: seq<bool>, ks0: seq<nat>, n: nat, turn: real)
    requires Ticked(qs, us, cs, ks, i, qs0, us0, ks0, n, turn) && i < |qs| && n < |qs0|
    requires Later(us0[n], ks0[n]) < MAX_QUEUE_LEN && qs0[n] != [] && p == Aged(qs0[n], us0[n])
    requires SourceOk(p, false, sc, Later(us0[n], ks0[n])) && (Sane(p, turn) ==> Shown(sc, p, turn)) && SerialOf(p) == SerialOf(qs0[n])
    ensures Ticked(qs[i := p], us[i := false], cs[i := sc], ks[i := Later(us0[n], ks0[n])], i + 1, qs0, us0, ks0, n + 1, turn)
  {
    hide SourceOk, Later, Shown, SerialOf, Aged;
    assert Keep(us0, ks0, n + 1) == Keep(us0, ks0, n) + [n];
  }

  lemma TickedShape(qs: seq<seq<Candidate>>, us: seq<bool>, cs: seq<Candidate>, ks: seq<nat>,
                    qs0: seq<seq<Candidate>>, us0: seq<bool>, ks0: seq<nat>, turn: real)
    requires Ticked(qs, us, cs, ks, |qs|, qs0, us0, ks0, |qs0|, turn)
    ensures |qs| == |us| && forall i :: 0 <= i < |qs| ==> !us[i] && 1 <= |qs[i]| <= MAX_QUEUE_LEN
  {
    hide Follows, Entries, InTurn;
  }

  lemma ClosestRange(cs: seq<Candidate>, c: Candidate, angle: (Candidate, Candidate) -> real, n: nat, idx: int)
    requires n <= |cs| && Closest(cs, c, angle, n, idx)
    ensures idx == -1 || 0 <= idx < n
  {
  }

  lemma SourceShape(q: seq<Candidate>, heard: bool, sc: Candidate, k: nat)
    requires SourceOk(q, heard, sc, k)
    ensures q != [] && q[|q| - 1].serial == SerialOf(q) && (!heard ==> |q| <= MAX_QUEUE_LEN)
  {
  }

  lemma NewSource(c: Candidate)
    requires !c.silence
    ensures SourceOk([c], true, c.(confidence := c.confidence / MAX_QUEUE_LEN as real), 0) && SerialOf([c]) == c.serial
  {
  }
}
