/** The parabolic refinement of a chosen lag in CF0::dp_f0 (Pitch.cpp). */
module Refinement {

  function Magnitude(x: real): real { if x < 0.0 then -x else x }

  /** Twice the second difference of the correlation around the peak. */
  function Bend(prev: real, peak: real, next: real): real { 2.0 * (prev + next - 2.0 * peak) }

  /** How far the source moves the lag: `prev` stands one lag above the peak, `next` one below. */
  function Shifted(prev: real, peak: real, next: real): real {
    var den := Bend(prev, peak, next);
    if Magnitude(den) > 0.000001 then 2.0 - (5.0 * prev + 3.0 * next - 8.0 * peak) / den else 0.0
  }

  /** The period reported for lag `loc` of a frame: zero for the unvoiced candidate, refined where both
      neighbours of the lag were computed. */
  function RefinedLag(correl: seq<real>, first: int, loc: int): real {
    var j := loc - first;
    if loc <= 0 then 0.0
    else if 0 < j && j + 1 < |correl| then loc as real + Shifted(correl[j + 1], correl[j], correl[j - 1])
    else loc as real
  }

  /** The fundamental frequency reported for a frame. */
  datatype Pitch = Unvoiced | Hz(f: real) | Infinite

  function PitchOf(freq: real, correl: seq<real>, first: int, loc: int): Pitch {
    var p := RefinedLag(correl, first, loc);
    if loc <= 0 then Unvoiced else if p == 0.0 then Infinite else Hz(freq / p)
  }

  /** The slope at `x` of the parabola through the three correlations. */
  function ParabolaSlope(prev: real, peak: real, next: real, x: real): real {
    2.0 * ((prev + next) / 2.0 - peak) * x + (prev - next) / 2.0
  }

  lemma ShiftForm(prev: real, peak: real, next: real)
    requires Magnitude(Bend(prev, peak, next)) > 0.000001
    ensures Shifted(prev, peak, next) * Bend(prev, peak, next) == next - prev
  {
    var den := Bend(prev, peak, next);
    var num := 5.0 * prev + 3.0 * next - 8.0 * peak;
    Undone(num, den);
    assert (2.0 - num / den) * den == 2.0 * den - num / den * den;
  }

  lemma Undone(x: real, y: real)
    requires y != 0.0
    ensures x / y * y == x
  {
  }

  /** The refined lag is the vertex of the parabola through the peak and its neighbours. */
  lemma RefinedIsVertex(prev: real, peak: real, next: real)
    requires Magnitude(Bend(prev, peak, next)) > 0.000001
    ensures ParabolaSlope(prev, peak, next, Shifted(prev, peak, next)) == 0.0
  {
    hide Shifted;
    ShiftForm(prev, peak, next);
    var x, a := Shifted(prev, peak, next), (prev + next) / 2.0 - peak;
    assert Bend(prev, peak, next) == 4.0 * a;
    Regroup(x, a);
  }

  lemma Regroup(x: real, a: real)
    ensures 2.0 * a * x == x * (4.0 * a) / 2.0
  {
  }

  /** A peak that is not below its neighbours moves by half a lag at most. */
  lemma RefinedIsNear(prev: real, peak: real, next: real)
    requires peak >= prev && peak >= next
    ensures -0.5 <= Shifted(prev, peak, next) <= 0.5
  {
    var den := Bend(prev, peak, next);
    if Magnitude(den) > 0.000001 {
      ShiftForm(prev, peak, next);
      HalfAtMost(Shifted(prev, peak, next), -den, prev - next);
    }
  }

  lemma HalfAtMost(x: real, d: real, n: real)
    requires d > 0.0 && x * -d == -n && -d <= 2.0 * n <= d
    ensures -0.5 <= x <= 0.5
  {
    assert x * -d == -(x * d);
    if x > 0.5 { Grows(0.5, x, d); }
    if x < -0.5 { Grows(x, -0.5, d); }
  }

  lemma Grows(x: real, y: real, d: real)
    requires x < y && d > 0.0
    ensures x * d < y * d
  {
  }

  lemma SignOf(x: real, d: real, n: real)
    requires d > 0.0 && x * -d == -n
    ensures (x > 0.0 <==> n > 0.0) && (x < 0.0 <==> n < 0.0)
  {
    assert x * -d == -(x * d);
  }

  /** The period moves towards the higher neighbour of its peak: up if the correlation one lag above is higher than
      the one below, down if it is lower, and not at all if they agree or the peak is flat. */
  lemma MovesUphill(correl: seq<real>, first: int, loc: int)
    requires loc > 0
    requires var j := loc - first; 0 < j && j + 1 < |correl| && correl[j] >= correl[j + 1] && correl[j] >= correl[j - 1]
    ensures var j := loc - first;
      var flat := correl[j - 1] + correl[j + 1] - 2.0 * correl[j] >= -0.0000005;
      && (RefinedLag(correl, first, loc) > loc as real <==> !flat && correl[j + 1] > correl[j - 1])
      && (RefinedLag(correl, first, loc) < loc as real <==> !flat && correl[j + 1] < correl[j - 1])
  {
    hide Shifted;
    var j := loc - first;
    UphillShift(correl[j + 1], correl[j], correl[j - 1]);
  }

  lemma UphillShift(prev: real, peak: real, next: real)
    requires peak >= prev && peak >= next
    ensures Shifted(prev, peak, next) > 0.0 <==> Bend(prev, peak, next) < -0.000001 && prev > next
    ensures Shifted(prev, peak, next) < 0.0 <==> Bend(prev, peak, next) < -0.000001 && prev < next
  {
    var den := Bend(prev, peak, next);
    if Magnitude(den) > 0.000001 {
      ShiftForm(prev, peak, next);
      SignOf(Shifted(prev, peak, next), -den, prev - next);
    }
  }

  /** So a voiced frame with a local maximum at its lag has a positive period within half a lag of it. */
  lemma PeriodNear(correl: seq<real>, first: int, loc: int)
    requires loc > 0
    requires var j := loc - first; 0 < j && j + 1 < |correl| ==> correl[j] >= correl[j + 1] && correl[j] >= correl[j - 1]
    ensures loc as real - 0.5 <= RefinedLag(correl, first, loc) <= loc as real + 0.5
    ensures RefinedLag(correl, first, loc) > 0.0
  {
    hide Shifted;
    var j := loc - first;
    if 0 < j && j + 1 < |correl| { RefinedIsNear(correl[j + 1], correl[j], correl[j - 1]); }
  }

  /** And a frequency between those of the two half lags around it. */
  lemma PitchNear(freq: real, correl: seq<real>, first: int, loc: int)
    requires loc > 0 && freq > 0.0
    requires var j := loc - first; 0 < j && j + 1 < |correl| ==> correl[j] >= correl[j + 1] && correl[j] >= correl[j - 1]
    ensures PitchOf(freq, correl, first, loc).Hz?
    ensures freq / (loc as real + 0.5) <= PitchOf(freq, correl, first, loc).f <= freq / (loc as real - 0.5)
  {
    hide RefinedLag;
    PeriodNear(correl, first, loc);
    var p := RefinedLag(correl, first, loc);
    Inverse(freq, p, loc as real + 0.5);
    Inverse(freq, loc as real - 0.5, p);
  }

  lemma Inverse(freq: real, x: real, y: real)
    requires freq > 0.0 && 0.0 < x <= y
    ensures freq / y <= freq / x
  {
    var a, b := freq / x, freq / y;
    Undone(freq, x);
    Undone(freq, y);
    if b > a {
      Grows(a, b, y);
      AtLeastAs(x, y, a);
    }
  }

  lemma AtLeastAs(x: real, y: real, a: real)
    requires 0.0 < x <= y && a * x > 0.0
    ensures a * x <= a * y
  {
  }
}
