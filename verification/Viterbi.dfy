/** The dynamic program of CF0::dp_f0 (Pitch.cpp) on values: transition costs, the column that
    one frame computes from the previous one, back-pointer paths, and the two theorems the
    tracker rests on: the columns are optimal over all candidate paths, and a prefix on which
    all surviving paths agree never changes afterwards. */
module Viterbi {

  /** Weights of the dynamic program; `log` is the logarithm, of which nothing is assumed. */
  datatype Weights = Weights(tcost: real, tfactA: real, tfactS: real, fdouble: real, ln2: real, freqwt: real,
                             log: real -> real)

  /** What one analysis frame contributes: candidate lags (the unvoiced candidate has lag -1),
      their peak values and local costs, the stationarity measures, the correlations from lag
      `first` on, and the sampling rate. */
  datatype Observation = Observation(locs: seq<int>, pvals: seq<real>, mpvals: seq<real>,
                                     sta: real, rmsRatio: real, rms: real, correl: seq<real>, first: int, freq: real)
  {
    predicate Valid() {
      |locs| == |pvals| == |mpvals| && |locs| >= 1 && rmsRatio != 0.0
    }
  }

  type Frames = os: seq<Observation> | forall i :: 0 <= i < |os| ==> os[i].Valid()

  /** Largest finite single-precision number: where the source starts its minimum searches. */
  const FLT_MAX: real := 340282346638528859811704183484516925440.0

  function Abs(x: real): real { if x < 0.0 then -x else x }
  function Min(x: real, y: real): real { if x > y then y else x }

  function PeriodChange(w: Weights, loc1: int, loc2: int): real
    requires loc1 > 0
  {
    var f := w.log(loc2 as real / loc1 as real);
    Min(Min(Abs(f), w.fdouble + Abs(f + w.ln2)), w.fdouble + Abs(f - w.ln2))
  }

  /** Cost of moving from lag `loc1` of the previous frame to lag `loc2` of frame `o`. */
  function Trans(w: Weights, o: Observation, loc1: int, loc2: int): real
    requires o.Valid()
  {
    if loc2 > 0 then
      if loc1 > 0 then PeriodChange(w, loc1, loc2) * w.freqwt
      else w.tcost + w.tfactS * o.sta + w.tfactA / o.rmsRatio
    else if loc1 > 0 then w.tcost + w.tfactS * o.sta + w.tfactA * o.rmsRatio
    else 0.0
  }

  /** Cumulative costs and back pointers of one frame. */
  datatype Column = Column(dpvals: seq<real>, prept: seq<nat>)

  datatype Best = Best(err: real, loc: nat)

  /** The inner search over the first `n` previous candidates, as the loop runs. */
  function BestPrev(w: Weights, o: Observation, prev: seq<int>, dp: seq<real>, loc2: int, n: nat): Best
    requires o.Valid() && n <= |prev| && n <= |dp|
  {
    if n == 0 then Best(FLT_MAX, 0)
    else
      var b := BestPrev(w, o, prev, dp, loc2, n - 1);
      var err := Trans(w, o, prev[n - 1], loc2) + dp[n - 1];
      if err < b.err then Best(err, n - 1) else b
  }

  function FirstColumn(o: Observation): Column
    requires o.Valid()
  {
    Column(o.mpvals, seq(|o.locs|, _ => 0))
  }

  function NextColumn(w: Weights, o: Observation, prev: seq<int>, dp: seq<real>): Column
    requires o.Valid() && |dp| == |prev|
  {
    Column(
      seq(|o.locs|, k requires 0 <= k < |o.locs| => BestPrev(w, o, prev, dp, o.locs[k], |dp|).err + o.mpvals[k]),
      seq(|o.locs|, k requires 0 <= k < |o.locs| => BestPrev(w, o, prev, dp, o.locs[k], |dp|).loc))
  }

  /** The column of frame `t`. */
  function Col(w: Weights, os: Frames, t: nat): (r: Column)
    requires t < |os|
    ensures |r.dpvals| == |r.prept| == |os[t].locs|
  {
    if t == 0 then FirstColumn(os[0])
    else NextColumn(w, os[t], os[t - 1].locs, Col(w, os, t - 1).dpvals)
  }

  lemma {:induction false} BestPrevInRange(w: Weights, o: Observation, prev: seq<int>, dp: seq<real>, loc2: int, n: nat)
    requires o.Valid() && n <= |prev| && n <= |dp|
    ensures n > 0 ==> BestPrev(w, o, prev, dp, loc2, n).loc < n
    ensures n == 0 ==> BestPrev(w, o, prev, dp, loc2, n).loc == 0
  {
    if n > 0 { BestPrevInRange(w, o, prev, dp, loc2, n - 1); }
  }

  lemma PreptInRange(w: Weights, os: Frames, t: nat, k: nat)
    requires 0 < t < |os| && k < |os[t].locs|
    ensures Col(w, os, t).prept[k] < |os[t - 1].locs|
  {
    BestPrevInRange(w, os[t], os[t - 1].locs, Col(w, os, t - 1).dpvals, os[t].locs[k], |os[t - 1].locs|);
  }

  /** The back-pointer path that ends in candidate `k` of frame `t`. */
  function Trace(w: Weights, os: Frames, t: nat, k: nat): (p: seq<nat>)
    requires t < |os| && k < |os[t].locs|
    ensures IsPath(os, p) && |p| == t + 1 && p[t] == k
    decreases t
  {
    if t == 0 then [k]
    else
      PreptInRange(w, os, t, k);
      Trace(w, os, t - 1, Col(w, os, t).prept[k]) + [k]
  }

  // ---------------------------------------------------------------- optimality

  predicate IsPath(os: seq<Observation>, p: seq<nat>) {
    0 < |p| <= |os| && forall i :: 0 <= i < |p| ==> p[i] < |os[i].locs|
  }

  /** Local plus transition costs along a path, without the last local cost. */
  function EntryCost(w: Weights, os: Frames, p: seq<nat>): real
    requires IsPath(os, p)
    decreases |p|, 0
  {
    var n := |p| - 1;
    if n == 0 then 0.0
    else Cost(w, os, p[..n]) + Trans(w, os[n], os[n - 1].locs[p[n - 1]], os[n].locs[p[n]])
  }

  function Cost(w: Weights, os: Frames, p: seq<nat>): real
    requires IsPath(os, p)
    decreases |p|, 1
  {
    EntryCost(w, os, p) + os[|p| - 1].mpvals[p[|p| - 1]]
  }

  /** All cumulative costs stay below the float maximum from which the searches start. */
  ghost predicate Representable(w: Weights, os: Frames) {
    forall p :: IsPath(os, p) ==> EntryCost(w, os, p) < FLT_MAX
  }

  lemma {:induction false} BestPrevIsMin(w: Weights, o: Observation, prev: seq<int>, dp: seq<real>, loc2: int, n: nat)
    requires o.Valid() && n <= |prev| && n <= |dp|
    requires forall j :: 0 <= j < n ==> Trans(w, o, prev[j], loc2) + dp[j] < FLT_MAX
    ensures var b := BestPrev(w, o, prev, dp, loc2, n);
      && (forall j :: 0 <= j < n ==> b.err <= Trans(w, o, prev[j], loc2) + dp[j])
      && b.err <= FLT_MAX
      && (n > 0 ==> b.loc < n && b.err == Trans(w, o, prev[b.loc], loc2) + dp[b.loc])
  {
    if n > 0 { BestPrevIsMin(w, o, prev, dp, loc2, n - 1); }
  }

  /** Extending a path of the previous frames by candidate `k`. */
  lemma ExtendPath(w: Weights, os: Frames, p: seq<nat>, k: nat)
    requires IsPath(os, p) && |p| < |os| && k < |os[|p|].locs|
    ensures IsPath(os, p + [k])
    ensures EntryCost(w, os, p + [k]) ==
            Cost(w, os, p) + Trans(w, os[|p|], os[|p| - 1].locs[p[|p| - 1]], os[|p|].locs[k])
  {
    assert (p + [k])[..|p|] == p;
  }

  /** The dynamic program is optimal: `dpvals[k]` is the cost of the path its back pointers trace,
      and no candidate path ending in `k` is cheaper. */
  lemma {:induction false} DpOptimal(w: Weights, os: Frames, t: nat, k: nat)
    requires Representable(w, os) && t < |os| && k < |os[t].locs|
    ensures Cost(w, os, Trace(w, os, t, k)) == Col(w, os, t).dpvals[k]
    ensures forall p :: IsPath(os, p) && |p| == t + 1 && p[t] == k ==> Col(w, os, t).dpvals[k] <= Cost(w, os, p)
    decreases t
  {
    if t == 0 {
      forall p | IsPath(os, p) && |p| == 1 && p[0] == k ensures p == [k] {}
    } else {
      StepOptimal(w, os, t, k);
    }
  }

  /** Entering candidate `k` through candidate `j` of the previous frame. */
  lemma EnterThrough(w: Weights, os: Frames, t: nat, k: nat, j: nat)
    requires Representable(w, os) && 0 < t < |os| && k < |os[t].locs| && j < |os[t - 1].locs|
    requires Cost(w, os, Trace(w, os, t - 1, j)) == Col(w, os, t - 1).dpvals[j]
    ensures IsPath(os, Trace(w, os, t - 1, j) + [k])
    ensures EntryCost(w, os, Trace(w, os, t - 1, j) + [k]) ==
            Trans(w, os[t], os[t - 1].locs[j], os[t].locs[k]) + Col(w, os, t - 1).dpvals[j]
    ensures Trans(w, os[t], os[t - 1].locs[j], os[t].locs[k]) + Col(w, os, t - 1).dpvals[j] < FLT_MAX
  {
    hide Trans, Trace, Col;
    ExtendPath(w, os, Trace(w, os, t - 1, j), k);
  }

  /** The previous column holds true path costs. */
  ghost predicate Exact(w: Weights, os: Frames, t: nat)
    requires t < |os|
  {
    forall j :: 0 <= j < |os[t].locs| ==> ExactAt(w, os, t, j)
  }

  ghost predicate ExactAt(w: Weights, os: Frames, t: nat, j: nat)
    requires t < |os| && j < |os[t].locs|
  {
    Cost(w, os, Trace(w, os, t, j)) == Col(w, os, t).dpvals[j]
  }

  /** Cost of entering candidate `k` of frame `t` through candidate `j`, and taking it. */
  function Through(w: Weights, os: Frames, t: nat, k: nat, j: nat): real
    requires 0 < t < |os| && k < |os[t].locs| && j < |os[t - 1].locs|
  {
    Trans(w, os[t], os[t - 1].locs[j], os[t].locs[k]) + Col(w, os, t - 1).dpvals[j] + os[t].mpvals[k]
  }

  lemma ColumnIsMin(w: Weights, os: Frames, t: nat, k: nat)
    requires Representable(w, os) && 0 < t < |os| && k < |os[t].locs| && Exact(w, os, t - 1)
    ensures Col(w, os, t).prept[k] < |os[t - 1].locs|
    ensures Col(w, os, t).dpvals[k] == Through(w, os, t, k, Col(w, os, t).prept[k])
    ensures forall j :: 0 <= j < |os[t - 1].locs| ==> Col(w, os, t).dpvals[k] <= Through(w, os, t, k, j)
  {
    var dp, loc2 := Col(w, os, t - 1).dpvals, os[t].locs[k];
    forall j | 0 <= j < |dp| ensures Trans(w, os[t], os[t - 1].locs[j], loc2) + dp[j] < FLT_MAX {
      assert ExactAt(w, os, t - 1, j);
      EnterThrough(w, os, t, k, j);
    }
    hide Representable, Exact;
    BestPrevIsMin(w, os[t], os[t - 1].locs, dp, loc2, |dp|);
  }

  lemma NotCheaper(w: Weights, os: Frames, t: nat, k: nat, p: seq<nat>)
    requires 0 < t < |os| && k < |os[t].locs| && IsPath(os, p) && |p| == t + 1 && p[t] == k
    requires Col(w, os, t - 1).dpvals[p[t - 1]] <= Cost(w, os, p[..t])
    ensures Through(w, os, t, k, p[t - 1]) <= Cost(w, os, p)
  {
    hide Trans;
  }

  lemma TraceStepsBack(w: Weights, os: Frames, t: nat, k: nat)
    requires 0 < t < |os| && k < |os[t].locs| && Col(w, os, t).prept[k] < |os[t - 1].locs|
    ensures Trace(w, os, t, k) == Trace(w, os, t - 1, Col(w, os, t).prept[k]) + [k]
  {
    hide Col;
  }

  lemma TracedCost(w: Weights, os: Frames, t: nat, k: nat)
    requires 0 < t < |os| && k < |os[t].locs| && Exact(w, os, t - 1)
    requires Col(w, os, t).prept[k] < |os[t - 1].locs|
    ensures Cost(w, os, Trace(w, os, t, k)) == Through(w, os, t, k, Col(w, os, t).prept[k])
  {
    hide Trans, Trace, Col;
    var j := Col(w, os, t).prept[k];
    var q := Trace(w, os, t - 1, j);
    assert ExactAt(w, os, t - 1, j);
    TraceStepsBack(w, os, t, k);
    ExtendPath(w, os, q, k);
  }

  lemma {:induction false} StepOptimal(w: Weights, os: Frames, t: nat, k: nat)
    requires Representable(w, os) && 0 < t < |os| && k < |os[t].locs|
    ensures Cost(w, os, Trace(w, os, t, k)) == Col(w, os, t).dpvals[k]
    ensures forall p :: IsPath(os, p) && |p| == t + 1 && p[t] == k ==> Col(w, os, t).dpvals[k] <= Cost(w, os, p)
    decreases t, 1
  {
    var u := t - 1;
    forall j | 0 <= j < |os[u].locs| ensures ExactAt(w, os, u, j) {
      DpOptimal(w, os, u, j);
    }
    hide Col, Cost, Trace, Through, Representable, ExactAt;
    ColumnIsMin(w, os, t, k);
    TracedCost(w, os, t, k);
    forall p | IsPath(os, p) && |p| == t + 1 && p[t] == k ensures Col(w, os, t).dpvals[k] <= Cost(w, os, p) {
      BoundOne(w, os, t, k, p);
    }
  }

  lemma {:induction false} BoundOne(w: Weights, os: Frames, t: nat, k: nat, p: seq<nat>)
    requires Representable(w, os) && 0 < t < |os| && k < |os[t].locs|
    requires IsPath(os, p) && |p| == t + 1 && p[t] == k
    requires forall j :: 0 <= j < |os[t - 1].locs| ==> Col(w, os, t).dpvals[k] <= Through(w, os, t, k, j)
    ensures Col(w, os, t).dpvals[k] <= Cost(w, os, p)
    decreases t, 0
  {
    hide Through, Col, Cost;
    DpOptimal(w, os, t - 1, p[t - 1]);
    assert IsPath(os, p[..t]);
    NotCheaper(w, os, t, k, p);
  }

  /** The search for the cheapest candidate of the newest frame, as the loop runs. */
  function Cheapest(dp: seq<real>, n: nat): Best
    requires n <= |dp|
  {
    if n == 0 then Best(FLT_MAX, 0)
    else
      var b := Cheapest(dp, n - 1);
      if b.err > dp[n - 1] then Best(dp[n - 1], n - 1) else b
  }

  lemma {:induction false} CheapestIsMin(dp: seq<real>, n: nat)
    requires n <= |dp|
    ensures var b := Cheapest(dp, n);
      && (n > 0 ==> b.loc < n) && (n == 0 ==> b.loc == 0) && b.err <= FLT_MAX
      && (forall j :: 0 <= j < n ==> b.err <= dp[j])
      && (forall j :: 0 <= j < b.loc ==> dp[j] > b.err)
      && (b.err < FLT_MAX ==> n > 0 && dp[b.loc] == b.err)
  {
    if n > 0 { CheapestIsMin(dp, n - 1); }
  }

  /** The path traced from the cheapest candidate of the last frame is a globally cheapest path. */
  lemma GlobalOptimum(w: Weights, os: Frames, p: seq<nat>)
    requires Representable(w, os) && IsPath(os, p) && |p| == |os|
    requires forall q :: IsPath(os, q) ==> Cost(w, os, q) < FLT_MAX
    ensures var dp := Col(w, os, |os| - 1).dpvals;
      && Cheapest(dp, |dp|).loc < |dp|
      && Cost(w, os, Trace(w, os, |os| - 1, Cheapest(dp, |dp|).loc)) <= Cost(w, os, p)
  {
    var t := |os| - 1;
    var dp := Col(w, os, t).dpvals;
    CheapestIsMin(dp, |dp|);
    DpOptimal(w, os, t, p[t]);
    DpOptimal(w, os, t, Cheapest(dp, |dp|).loc);
  }

  // ---------------------------------------------------------------- early commit

  /** Columns look only backwards. */
  lemma {:induction false} ColPrefix(w: Weights, os: Frames, os': Frames, t: nat)
    requires t < |os| && os <= os'
    ensures Col(w, os, t) == Col(w, os', t)
    decreases t
  {
    if t > 0 { ColPrefix(w, os, os', t - 1); }
  }

  lemma {:induction false} TracePrefix(w: Weights, os: Frames, os': Frames, t: nat, k: nat)
    requires t < |os| && k < |os[t].locs| && os <= os'
    ensures Trace(w, os, t, k) == Trace(w, os', t, k)
    decreases t
  {
    ColPrefix(w, os, os', t);
    if t > 0 {
      PreptInRange(w, os, t, k);
      TracePrefix(w, os, os', t - 1, Col(w, os, t).prept[k]);
    }
  }

  /** A path cut at frame `s` is the path traced from the candidate it passes there. */
  lemma {:induction false} TraceCut(w: Weights, os: Frames, t: nat, k: nat, s: nat)
    requires t < |os| && k < |os[t].locs| && s <= t
    ensures Trace(w, os, t, k)[..s + 1] == Trace(w, os, s, Trace(w, os, t, k)[s])
    decreases t
  {
    if s < t {
      PreptInRange(w, os, t, k);
      var j := Col(w, os, t).prept[k];
      TraceCut(w, os, t - 1, j, s);
      assert Trace(w, os, t, k)[..s + 1] == Trace(w, os, t - 1, j)[..s + 1];
    } else {
      assert Trace(w, os, t, k)[..t + 1] == Trace(w, os, t, k);
    }
  }

  /** All paths of the candidates of frame `t` pass candidate `b` of frame `s`. */
  ghost predicate Converged(w: Weights, os: Frames, t: nat, s: nat, b: nat)
    requires s <= t < |os|
  {
    forall k :: 0 <= k < |os[t].locs| ==> Trace(w, os, t, k)[s] == b
  }

  /** Early commit is safe: whatever frames follow, every later path starts with the committed one. */
  lemma CommitSafe(w: Weights, os: Frames, os': Frames, t: nat, s: nat, b: nat, t': nat, k': nat)
    requires s <= t < |os| && os <= os' && Converged(w, os, t, s, b)
    requires t <= t' < |os'| && k' < |os'[t'].locs|
    ensures b < |os[s].locs|
    ensures Trace(w, os', t', k')[..s + 1] == Trace(w, os, s, b)
  {
    var p := Trace(w, os', t', k');
    TraceCut(w, os', t', k', t);
    TracePrefix(w, os, os', t, p[t]);
    TraceCut(w, os, t, p[t], s);
    assert p[..t + 1][s] == p[s];
    assert p[..s + 1] == p[..t + 1][..s + 1];
  }

  /** One commit of a run: after frame `t`, everything up to frame `s` was handed out along the
      path into candidate `b`. */
  datatype Commit = Commit(t: nat, s: nat, b: nat)

  ghost predicate CommitsOk(w: Weights, os: Frames, cs: seq<Commit>) {
    && (forall i :: 0 <= i < |cs| ==> cs[i].s <= cs[i].t < |os| && Converged(w, os, cs[i].t, cs[i].s, cs[i].b))
    && (forall i :: 0 < i < |cs| ==> cs[i - 1].t <= cs[i].t && cs[i - 1].s < cs[i].s)
  }

  lemma ConvergedInRange(w: Weights, os: Frames, t: nat, s: nat, b: nat)
    requires s <= t < |os| && Converged(w, os, t, s, b)
    ensures b < |os[s].locs|
  {
    assert Trace(w, os, t, 0)[s] == b;
  }

  /** What the commits hand out, concatenated. */
  ghost function HandedOut(w: Weights, os: Frames, cs: seq<Commit>): seq<nat>
    requires CommitsOk(w, os, cs)
  {
    if cs == [] then []
    else
      var c := cs[|cs| - 1];
      ConvergedInRange(w, os, c.t, c.s, c.b);
      HandedOut(w, os, cs[..|cs| - 1]) +
      Trace(w, os, c.s, c.b)[if |cs| == 1 then 0 else cs[|cs| - 2].s + 1..]
  }

  /** A whole run of converged commits hands out, piece by piece, exactly the beginning of the
      offline path of every candidate of the final frame. */
  lemma {:induction false} RunMatchesOffline(w: Weights, os: Frames, cs: seq<Commit>, k: nat)
    requires os != [] && CommitsOk(w, os, cs) && cs != [] && k < |os[|os| - 1].locs|
    ensures HandedOut(w, os, cs) == Trace(w, os, |os| - 1, k)[..cs[|cs| - 1].s + 1]
    decreases |cs|
  {
    hide Trace, Converged;
    var c := cs[|cs| - 1];
    var p := Trace(w, os, |os| - 1, k);
    ConvergedInRange(w, os, c.t, c.s, c.b);
    CommitSafe(w, os, os, c.t, c.s, c.b, |os| - 1, k);
    if |cs| > 1 {
      var front := cs[..|cs| - 1];
      RunMatchesOffline(w, os, front, k);
      var m := front[|front| - 1].s + 1;
      assert p[..m] + p[..c.s + 1][m..] == p[..c.s + 1];
    } else {
      assert HandedOut(w, os, cs[..0]) == [];
    }
  }
}
