/** What the transition costs of CF0::dp_f0 (Pitch.cpp) mean for the pitch that Get_f0 reports: voice is
    entered cheaply while energy rises and left cheaply while it falls, a steady lag costs nothing, and a lag
    that jumps by an octave little. */
module Voicing {
  import opened Viterbi
  import opened Refinement
  import opened PitchRing

  // ---------------------------------------------------------------- laws of the transition cost

  /** The part of a voicing transition that energy has no say in. */
  function Toll(w: Weights, o: Observation): real { w.tcost + w.tfactS * o.sta }

  /** Entering voice costs, beyond the toll, inversely as the energy ratio. */
  lemma OnsetLaw(w: Weights, o: Observation, loc1: int, loc2: int)
    requires o.Valid() && loc1 <= 0 < loc2
    ensures (Trans(w, o, loc1, loc2) - w.tcost - w.tfactS * o.sta) * o.rmsRatio == w.tfactA
  {
    Undone(w.tfactA, o.rmsRatio);
  }

  /** Leaving it costs, beyond the toll, as the energy ratio; so the product of the two does not depend on it. */
  lemma OffsetLaw(w: Weights, o: Observation, loc1: int, loc2: int)
    requires o.Valid() && loc1 > 0 >= loc2
    ensures Trans(w, o, loc1, loc2) - w.tcost - w.tfactS * o.sta == w.tfactA * o.rmsRatio
    ensures (Trans(w, o, loc1, loc2) - Toll(w, o)) * (Trans(w, o, loc2, loc1) - Toll(w, o)) == w.tfactA * w.tfactA
  {
    OnsetLaw(w, o, loc2, loc1);
    Product(Trans(w, o, loc2, loc1) - Toll(w, o), o.rmsRatio, w.tfactA);
  }

  lemma Product(x: real, r: real, a: real)
    requires x * r == a
    ensures a * r * x == a * a
  {
    assert a * r * x == a * (x * r);
  }

  /** As energy rises, entering voice gets strictly cheaper and leaving it strictly dearer. */
  lemma EnergyDecides(w: Weights, o: Observation, r: real, unvoiced: int, lag: int)
    requires o.Valid() && 0.0 < o.rmsRatio < r && w.tfactA > 0.0 && unvoiced <= 0 < lag
    ensures Trans(w, o.(rmsRatio := r), unvoiced, lag) < Trans(w, o, unvoiced, lag)
    ensures Trans(w, o.(rmsRatio := r), lag, unvoiced) > Trans(w, o, lag, unvoiced)
  {
    hide Trans;
    var o' := o.(rmsRatio := r);
    OnsetLaw(w, o, unvoiced, lag);
    OnsetLaw(w, o', unvoiced, lag);
    OffsetLaw(w, o, lag, unvoiced);
    OffsetLaw(w, o', lag, unvoiced);
    Smaller(Trans(w, o, unvoiced, lag) - Toll(w, o), Trans(w, o', unvoiced, lag) - Toll(w, o), o.rmsRatio, r, w.tfactA);
    Grows(o.rmsRatio, r, w.tfactA);
  }

  lemma Smaller(x: real, y: real, r: real, s: real, a: real)
    requires 0.0 < r < s && a > 0.0 && x * r == a && y * s == a
    ensures y < x
  {
    if x <= y {
      if y <= 0.0 {
        NotPositive(y, s);
      } else {
        Grows(r, s, y);
        AtMost(x, y, r);
      }
    }
  }

  lemma NotPositive(y: real, s: real)
    requires y <= 0.0 < s
    ensures y * s <= 0.0
  {
  }

  lemma AtMost(x: real, y: real, r: real)
    requires x <= y && r > 0.0
    ensures x * r <= y * r
  {
  }

  /** Staying unvoiced is free. */
  lemma SilenceIsFree(w: Weights, o: Observation, loc1: int, loc2: int)
    requires o.Valid() && loc1 <= 0 && loc2 <= 0
    ensures Trans(w, o, loc1, loc2) == 0.0
  {
  }

  /** The logarithm of the change from one lag to the next. */
  function Change(w: Weights, loc1: int, loc2: int): real
    requires loc1 > 0
  {
    w.log(loc2 as real / loc1 as real)
  }

  /** A small change of the lag costs its size.  Past half the octave and its penalty, the distance from the
      octave counts instead, whichever way the lag jumped. */
  lemma ChangeLaw(w: Weights, o: Observation, loc1: int, loc2: int)
    requires o.Valid() && loc1 > 0 && loc2 > 0 && w.ln2 >= 0.0
    ensures var c := Abs(Change(w, loc1, loc2));
      Trans(w, o, loc1, loc2) ==
      w.freqwt * if c <= (w.ln2 + w.fdouble) / 2.0 || w.fdouble >= w.ln2 then c else w.fdouble + Abs(c - w.ln2)
  {
    hide Trans;
    Across(w, loc1, loc2);
    BetweenLags(w, o, loc1, loc2);
  }

  lemma Across(w: Weights, loc1: int, loc2: int)
    requires loc1 > 0 && w.ln2 >= 0.0
    ensures var c := Abs(Change(w, loc1, loc2));
      PeriodChange(w, loc1, loc2) ==
      if c <= (w.ln2 + w.fdouble) / 2.0 || w.fdouble >= w.ln2 then c else w.fdouble + Abs(c - w.ln2)
  {
  }

  lemma BetweenLags(w: Weights, o: Observation, loc1: int, loc2: int)
    requires o.Valid() && loc1 > 0 && loc2 > 0
    ensures Trans(w, o, loc1, loc2) == w.freqwt * PeriodChange(w, loc1, loc2)
  {
    hide PeriodChange;
  }

  /** Keeping a lag is free, no change is cheaper than that, and a doubled or halved lag costs the penalty at most. */
  lemma SteadyLag(w: Weights, o: Observation, loc1: int, loc2: int)
    requires o.Valid() && loc1 > 0 && loc2 > 0 && w.log(1.0) == 0.0 && w.fdouble >= 0.0
    ensures Trans(w, o, loc1, loc1) == 0.0
    ensures w.freqwt >= 0.0 ==> Trans(w, o, loc1, loc2) >= 0.0
    ensures w.freqwt >= 0.0 && Abs(Change(w, loc1, loc2)) == w.ln2 ==> Trans(w, o, loc1, loc2) <= w.fdouble * w.freqwt
  {
    hide Trans, PeriodChange;
    BetweenLags(w, o, loc1, loc1);
    BetweenLags(w, o, loc1, loc2);
    Kept(w, loc1, loc2);
    Undone(1.0, loc1 as real);
    var x := PeriodChange(w, loc1, loc2);
    if w.freqwt >= 0.0 {
      Scale(0.0, x, w.freqwt);
      if Abs(Change(w, loc1, loc2)) == w.ln2 { Scale(x, w.fdouble, w.freqwt); }
    }
  }

  lemma Scale(x: real, y: real, f: real)
    requires x <= y && f >= 0.0
    ensures x * f <= y * f
  {
  }

  lemma Kept(w: Weights, loc1: int, loc2: int)
    requires loc1 > 0 && w.log(1.0) == 0.0 && w.fdouble >= 0.0
    ensures PeriodChange(w, loc1, loc1) == 0.0 && PeriodChange(w, loc1, loc2) >= 0.0
    ensures Abs(Change(w, loc1, loc2)) == w.ln2 ==> PeriodChange(w, loc1, loc2) <= w.fdouble
  {
    var l := loc1 as real;
    assert l / l == 1.0;
  }

  // ---------------------------------------------------------------- who wins

  /** Only the unvoiced candidate. */
  predicate Silent(o: Observation) { |o.locs| == 1 && o.locs[0] <= 0 }

  /** Voiced candidates, and the unvoiced one behind them, as a frame is filled. */
  predicate Mixed(o: Observation) {
    && |o.locs| >= 2 && o.locs[|o.locs| - 1] <= 0
    && forall k :: 0 <= k < |o.locs| - 1 ==> o.locs[k] > 0
  }

  /** Candidate `k` beats the unvoiced one by the toll and more: by `tfactA / rmsRatio`. */
  predicate Enters(w: Weights, o: Observation, k: nat)
    requires o.Valid() && k < |o.locs|
  {
    (o.mpvals[|o.locs| - 1] - o.mpvals[k] - w.tcost - w.tfactS * o.sta) * o.rmsRatio >= w.tfactA
  }

  /** Candidate `k` of frame `o` beats the unvoiced one by the toll of the next frame and `tfactA * rmsRatio`. */
  predicate Leaves(w: Weights, o: Observation, next: Observation, k: nat)
    requires o.Valid() && k < |o.locs|
  {
    o.mpvals[|o.locs| - 1] - o.mpvals[k] - w.tcost - w.tfactS * next.sta >= w.tfactA * next.rmsRatio
  }

  /** Behind a frame with one candidate every candidate is reached through it. */
  lemma AfterOne(w: Weights, os: Frames, t: nat, k: nat)
    requires Representable(w, os) && 0 < t < |os| && |os[t - 1].locs| == 1 && k < |os[t].locs|
    ensures Col(w, os, t).dpvals[k] ==
            Col(w, os, t - 1).dpvals[0] + Trans(w, os[t], os[t - 1].locs[0], os[t].locs[k]) + os[t].mpvals[k]
  {
    hide Trans, Representable, Col;
    var u := t - 1;
    forall j | 0 <= j < |os[u].locs| ensures ExactAt(w, os, u, j) { DpOptimal(w, os, u, j); }
    ColumnIsMin(w, os, t, k);
  }

  /** The last frame behind a silent one: the unvoiced candidate goes on for free, a voiced one pays the onset. */
  lemma OnsetCosts(w: Weights, os: Frames, k: nat)
    requires Representable(w, os) && |os| >= 2 && Silent(os[|os| - 2]) && Mixed(os[|os| - 1]) && os[|os| - 1].rmsRatio > 0.0
    requires k < |os[|os| - 1].locs| - 1
    ensures var dp := Col(w, os, |os| - 1).dpvals; dp[k] <= dp[|dp| - 1] <==> Enters(w, os[|os| - 1], k)
  {
    var t := |os| - 1;
    var o, u, n := os[t], os[t - 1].locs[0], |os[t].locs| - 1;
    AfterOne(w, os, t, k);
    AfterOne(w, os, t, n);
    SilenceIsFree(w, o, u, o.locs[n]);
    OnsetLaw(w, o, u, o.locs[k]);
    hide Trans, Col, Representable;
    Compare(Trans(w, o, u, o.locs[k]) - w.tcost - w.tfactS * o.sta,
            o.mpvals[n] - o.mpvals[k] - w.tcost - w.tfactS * o.sta, o.rmsRatio);
  }

  lemma Compare(x: real, y: real, r: real)
    requires r > 0.0
    ensures x <= y <==> x * r <= y * r
  {
    if x <= y { AtMost(x, y, r); } else { Grows(y, x, r); }
  }

  /** Behind a silent frame the last frame is voiced exactly if a voiced candidate pays for the onset. */
  lemma OnsetWins(w: Weights, os: Frames)
    requires Fits(w, os) && |os| >= 2 && Silent(os[|os| - 2]) && Mixed(os[|os| - 1]) && os[|os| - 1].rmsRatio > 0.0
    ensures var o := os[|os| - 1];
      o.locs[BestNow(w, os)] > 0 <==> exists k :: 0 <= k < |o.locs| - 1 && Enters(w, o, k)
  {
    hide Representable, Enters, Cost, Col;
    var t := |os| - 1;
    var dp, o, n := Col(w, os, t).dpvals, os[t], |os[t].locs| - 1;
    forall k | 0 <= k < n ensures dp[k] <= dp[n] <==> Enters(w, o, k) { OnsetCosts(w, os, k); }
    DpOptimal(w, os, t, n);
    CheapestIsMin(dp, |dp|);
  }

  /** Behind a frame with one voiced candidate, whoever wins among the voiced is locally no dearer than a candidate
      that keeps the lag. */
  lemma SteadyWins(w: Weights, os: Frames, j: nat)
    requires Fits(w, os) && |os| >= 2 && |os[|os| - 2].locs| == 1 && os[|os| - 2].locs[0] > 0
    requires j < |os[|os| - 1].locs| && os[|os| - 1].locs[j] == os[|os| - 2].locs[0]
    requires w.log(1.0) == 0.0 && w.fdouble >= 0.0 && w.freqwt >= 0.0
    ensures var o, k := os[|os| - 1], BestNow(w, os); o.locs[k] > 0 ==> o.mpvals[k] <= o.mpvals[j]
  {
    hide Trans, Col, Cost, Representable;
    var t := |os| - 1;
    var dp, o, l, k := Col(w, os, t).dpvals, os[t], os[t - 1].locs[0], BestNow(w, os);
    AfterOne(w, os, t, j);
    AfterOne(w, os, t, k);
    DpOptimal(w, os, t, k);
    DpOptimal(w, os, t, j);
    CheapestIsMin(dp, |dp|);
    if o.locs[k] > 0 { SteadyLag(w, o, l, o.locs[k]); }
  }

  /** Into a silent last frame the path comes from the voice exactly if a voiced candidate pays for the offset. */
  lemma OffsetWins(w: Weights, os: Frames)
    requires Representable(w, os) && |os| == 2 && Mixed(os[0]) && Silent(os[1])
    ensures Col(w, os, 1).prept[0] < |os[0].locs|
    ensures os[0].locs[Col(w, os, 1).prept[0]] > 0 <==> exists k :: 0 <= k < |os[0].locs| - 1 && Leaves(w, os[0], os[1], k)
  {
    var o, n, dp := os[0], |os[0].locs| - 1, os[0].mpvals;
    var u := os[1].locs[0];
    forall j | 0 <= j < |dp| ensures Trans(w, os[1], o.locs[j], u) + dp[j] < FLT_MAX {
      assert IsPath(os, [j]) && IsPath(os, [j] + [0]);
      ExtendPath(w, os, [j], 0);
    }
    hide Representable;
    forall k | 0 <= k < n
      ensures Trans(w, os[1], o.locs[k], u) + dp[k] <= Trans(w, os[1], o.locs[n], u) + dp[n] <==> Leaves(w, o, os[1], k)
    {
      OffsetLaw(w, os[1], o.locs[k], u);
      SilenceIsFree(w, os[1], o.locs[n], u);
    }
    hide Trans, Leaves;
    FirstMin(w, os[1], o.locs, dp, u, |dp|);
  }

  /** The search over the previous candidates keeps the first of the cheapest. */
  lemma {:induction false} FirstMin(w: Weights, o: Observation, prev: seq<int>, dp: seq<real>, loc2: int, n: nat)
    requires o.Valid() && n <= |prev| && n <= |dp|
    requires forall j :: 0 <= j < n ==> Trans(w, o, prev[j], loc2) + dp[j] < FLT_MAX
    ensures var b := BestPrev(w, o, prev, dp, loc2, n);
      && (n > 0 ==> b.loc < n && b.err == Trans(w, o, prev[b.loc], loc2) + dp[b.loc])
      && (n == 0 ==> b.err == FLT_MAX && b.loc == 0)
      && (forall j :: 0 <= j < n ==> b.err <= Trans(w, o, prev[j], loc2) + dp[j])
      && (forall j :: 0 <= j < b.loc ==> b.err < Trans(w, o, prev[j], loc2) + dp[j])
  {
    hide Trans;
    if n > 0 { FirstMin(w, o, prev, dp, loc2, n - 1); }
  }

  /** Get_f0 on two frames, one of them silent: the other is reported voiced exactly if one of its candidates
      pays for the onset or the offset between them. */
  method TwoFrames(w: Weights, a: Observation, b: Observation, cir: nat, hist: nat, outLimit: nat) returns (r: seq<Report>)
    requires a.Valid() && b.Valid() && cir >= 2 && hist >= 2 && Fits(w, [a, b])
    ensures |r| == 2
    ensures Silent(a) && Mixed(b) && b.rmsRatio > 0.0 ==>
      && r[0].pitch.Unvoiced?
      && (!r[1].pitch.Unvoiced? <==> exists k :: 0 <= k < |b.locs| - 1 && Enters(w, b, k))
    ensures Mixed(a) && Silent(b) ==>
      && r[1].pitch.Unvoiced?
      && (!r[0].pitch.Unvoiced? <==> exists k :: 0 <= k < |a.locs| - 1 && Leaves(w, a, b, k))
  {
    hide Fits, Enters, Leaves, Silent, Mixed, Stuck, StuckOnce, IsOffline, ReportsPath, CheapestPath;
    var ok;
    ghost var path, guessed;
    ghost var os: Frames := [a, b];
    OneChunk(w, os, cir, outLimit);
    ok, r, path, guessed := GetF0(w, [[a, b]], cir, hist, outLimit);
    if Silent(a) && Mixed(b) && b.rmsRatio > 0.0 { AtOnset(w, os, path, r); }
    if Mixed(a) && Silent(b) { AtOffset(w, os, path, r); }
  }

  lemma OneChunk(w: Weights, os: Frames, cir: nat, outLimit: nat)
    requires |os| == 2 && cir >= 2
    ensures Flatten([os]) == os && |os| < RingSize(cir, 6) && !StuckOnce(w, [os], outLimit)
  {
    hide Stuck;
    assert [os][..0] == [];
  }

  lemma AtOnset(w: Weights, os: Frames, p: seq<nat>, r: seq<Report>)
    requires Fits(w, os) && |os| == 2 && Silent(os[0]) && Mixed(os[1]) && os[1].rmsRatio > 0.0
    requires IsOffline(w, os, p) && ReportsPath(os, p, r)
    ensures |r| == 2 && r[0].pitch.Unvoiced?
    ensures !r[1].pitch.Unvoiced? <==> exists k :: 0 <= k < |os[1].locs| - 1 && Enters(w, os[1], k)
  {
    hide Fits, Enters, IsOffline, Mixed, Col, BestNow;
    TwoSteps(w, os, p);
    OnsetWins(w, os);
  }

  lemma AtOffset(w: Weights, os: Frames, p: seq<nat>, r: seq<Report>)
    requires Fits(w, os) && |os| == 2 && Mixed(os[0]) && Silent(os[1])
    requires IsOffline(w, os, p) && ReportsPath(os, p, r)
    ensures |r| == 2 && r[1].pitch.Unvoiced?
    ensures !r[0].pitch.Unvoiced? <==> exists k :: 0 <= k < |os[0].locs| - 1 && Leaves(w, os[0], os[1], k)
  {
    hide Representable, Leaves, IsOffline, Mixed, Col, BestNow;
    TwoSteps(w, os, p);
    OffsetWins(w, os);
  }

  lemma TwoSteps(w: Weights, os: Frames, p: seq<nat>)
    requires |os| == 2 && IsOffline(w, os, p)
    ensures Col(w, os, 1).prept[BestNow(w, os)] < |os[0].locs|
    ensures p == [Col(w, os, 1).prept[BestNow(w, os)], BestNow(w, os)]
  {
    hide BestNow, Col;
    PreptInRange(w, os, 1, BestNow(w, os));
  }
}
