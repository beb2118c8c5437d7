/** The frame ring of CF0 (Pitch.cpp): a growing, circular, doubly linked list of frames through
    which dp_f0 runs its dynamic program, looks for the frame where all surviving paths meet,
    and hands out everything up to it.

    Frames are named by the order of their allocation: `next`, `prev` and `dp` hold the fields of
    all frames, and a frame pointer is an index into them. */
module PitchRing {
  import opened Viterbi
  import opened Refinement

  // ---------------------------------------------------------------- frames

  /** dp_rec, with the frame's energy and correlations. */
  datatype DpRec = DpRec(rms: real, locs: seq<int>, pvals: seq<real>, prept: seq<nat>, dpvals: seq<real>,
                         correl: seq<real>, first: int, freq: real)

  /** What alloc_frame puts into a new frame. */
  const NO_CANDS := DpRec(0.0, [], [], [], [], [], 0, 0.0)

  function MakeRec(o: Observation, c: Column): DpRec {
    DpRec(o.rms, o.locs, o.pvals, c.prept, c.dpvals, o.correl, o.first, o.freq)
  }

  /** What the frame of observation `t` must hold. */
  function RecAt(w: Weights, os: Frames, t: nat): DpRec
    requires t < |os|
  {
    MakeRec(os[t], Col(w, os, t))
  }

  lemma RecAppend(w: Weights, os: Frames, o: Observation)
    requires o.Valid()
    ensures RecAt(w, os + [o], |os|) ==
            MakeRec(o, if os == [] then FirstColumn(o)
                       else NextColumn(w, o, RecAt(w, os, |os| - 1).locs, RecAt(w, os, |os| - 1).dpvals))
  {
    if os != [] { ColPrefix(w, os, os + [o], |os| - 1); }
  }

  lemma RecStays(w: Weights, os: Frames, o: Observation, t: nat)
    requires o.Valid() && t < |os|
    ensures RecAt(w, os + [o], t) == RecAt(w, os, t)
  {
    ColPrefix(w, os, os + [o], t);
  }

  /** What dp_f0 reports for one frame: energy, peak value, and the frequency of a voiced frame. */
  datatype Report = Report(rms: real, acpk: real, pitch: Pitch)

  function ReportOf(o: Observation, k: nat): Report
    requires o.Valid() && k < |o.locs|
  {
    Report(o.rms, o.pvals[k], PitchOf(o.freq, o.correl, o.first, o.locs[k]))
  }

  /** The same, read off a frame. */
  function ReportFrom(r: DpRec, k: nat): Report
    requires k < |r.locs| && k < |r.pvals|
  {
    Report(r.rms, r.pvals[k], PitchOf(r.freq, r.correl, r.first, r.locs[k]))
  }

  // ---------------------------------------------------------------- the cycle

  function Succ(i: nat, n: nat): nat { if i + 1 == n then 0 else i + 1 }
  function Pred(i: nat, n: nat): int { if i == 0 then n - 1 else i - 1 }

  /** `ring` lists all frames, in `next` order, and `prev` goes the other way round. */
  ghost predicate Linked(next: seq<nat>, prev: seq<nat>, ring: seq<nat>) {
    && |next| == |prev| == |ring|
    && (forall i :: 0 <= i < |ring| ==> ring[i] < |ring|)
    && (forall i, j :: 0 <= i < j < |ring| ==> ring[i] != ring[j])
    && (forall i {:trigger next[ring[i]]} :: 0 <= i < |ring| ==> next[ring[i]] == ring[Succ(i, |ring|)])
    && (forall i {:trigger prev[ring[i]]} :: 0 <= i < |ring| ==> prev[ring[i]] == ring[Pred(i, |ring|)])
  }

  /** The same, with the two ends not yet joined. */
  ghost predicate Open(next: seq<nat>, prev: seq<nat>, ring: seq<nat>) {
    && 0 < |next| == |prev| == |ring|
    && (forall i :: 0 <= i < |ring| ==> ring[i] < |ring|)
    && (forall i, j :: 0 <= i < j < |ring| ==> ring[i] != ring[j])
    && (forall i {:trigger next[ring[i]]} :: 0 <= i < |ring| - 1 ==> next[ring[i]] == ring[i + 1])
    && (forall i {:trigger prev[ring[i]]} :: 0 < i < |ring| ==> prev[ring[i]] == ring[i - 1])
  }

  /** Linking a new frame behind the last one. */
  lemma OpenAppend(next: seq<nat>, prev: seq<nat>, ring: seq<nat>, last: nat)
    requires Open(next, prev, ring) && last == ring[|ring| - 1]
    ensures Open(next[last := |ring|] + [0], prev + [last], ring + [|ring|])
  {
    var n, next', prev', ring' := |ring|, next[last := |ring|] + [0], prev + [last], ring + [|ring|];
    forall i | 0 <= i < n ensures next'[ring'[i]] == ring'[i + 1] {
      if i < n - 1 { assert next[ring[i]] == ring[i + 1] && ring[i] != last; }
    }
    forall i | 0 < i < n + 1 ensures prev'[ring'[i]] == ring'[i - 1] {
      if i < n { assert prev[ring[i]] == ring[i - 1]; }
    }
  }

  /** Joining the ends. */
  lemma OpenClose(next: seq<nat>, prev: seq<nat>, ring: seq<nat>, last: nat)
    requires Open(next, prev, ring) && last == ring[|ring| - 1]
    ensures Linked(next[last := ring[0]], prev[ring[0] := last], ring)
  {
  }

  lemma LinkedIsOpen(next: seq<nat>, prev: seq<nat>, ring: seq<nat>)
    requires Linked(next, prev, ring) && ring != []
    ensures Open(next, prev, ring)
  {
  }

  /** Position `i` of the cycle read from position `s` on. */
  function Turned(i: nat, s: nat, n: nat): nat
    requires i < n && s < n
  {
    if i + s < n then i + s else i + s - n
  }

  function Rotated(ring: seq<nat>, s: nat): seq<nat>
    requires s < |ring|
  {
    ring[s..] + ring[..s]
  }

  lemma RotatedAt(ring: seq<nat>, s: nat, i: nat)
    requires s < |ring| && i < |ring|
    ensures |Rotated(ring, s)| == |ring| && Rotated(ring, s)[i] == ring[Turned(i, s, |ring|)]
  {
  }

  lemma RotatedNext(next: seq<nat>, prev: seq<nat>, ring: seq<nat>, s: nat, i: nat)
    requires Linked(next, prev, ring) && s < |ring| && i < |ring|
    ensures var r, n := Rotated(ring, s), |ring|;
      && |r| == n && r[i] < n && next[r[i]] == r[Succ(i, n)] && prev[r[i]] == r[Pred(i, n)]
  {
    hide Rotated;
    var n, t := |ring|, Turned(i, s, |ring|);
    RotatedAt(ring, s, i);
    RotatedAt(ring, s, Succ(i, n));
    RotatedAt(ring, s, Pred(i, n));
    assert next[ring[t]] == ring[Succ(t, n)] && prev[ring[t]] == ring[Pred(t, n)];
  }

  lemma RotatedDistinct(ring: seq<nat>, s: nat, i: nat, j: nat)
    requires s < |ring| && i < j < |ring| && forall a, b :: 0 <= a < b < |ring| ==> ring[a] != ring[b]
    ensures |Rotated(ring, s)| == |ring| && Rotated(ring, s)[i] != Rotated(ring, s)[j]
  {
    hide Rotated;
    RotatedAt(ring, s, i);
    RotatedAt(ring, s, j);
    var a, b := Turned(i, s, |ring|), Turned(j, s, |ring|);
    assert if a < b then ring[a] != ring[b] else ring[b] != ring[a];
  }

  lemma RotateLinked(next: seq<nat>, prev: seq<nat>, ring: seq<nat>, s: nat)
    requires Linked(next, prev, ring) && s < |ring|
    ensures Linked(next, prev, Rotated(ring, s))
  {
    hide Rotated;
    var r, n := Rotated(ring, s), |ring|;
    RotatedAt(ring, s, 0);
    forall i | 0 <= i < n ensures r[i] < n && next[r[i]] == r[Succ(i, n)] && prev[r[i]] == r[Pred(i, n)] {
      RotatedNext(next, prev, ring, s, i);
    }
    forall i, j | 0 <= i < j < n ensures r[i] != r[j] { RotatedDistinct(ring, s, i, j); }
  }

  // ---------------------------------------------------------------- one column

  /** The cost loops of dp_f0 for one frame. */
  method ComputeColumn(w: Weights, o: Observation, first: bool, prev: seq<int>, prevDp: seq<real>)
    returns (dpvals: seq<real>, prept: seq<nat>)
    requires o.Valid() && |prev| == |prevDp|
    ensures Column(dpvals, prept) == if first then FirstColumn(o) else NextColumn(w, o, prev, prevDp)
  {
    dpvals, prept := [], [];
    for k := 0 to |o.locs|
      invariant |dpvals| == |prept| == k
      invariant forall i :: 0 <= i < k ==>
        var b := BestPrev(w, o, prev, prevDp, o.locs[i], |prevDp|);
        dpvals[i] == (if first then o.mpvals[i] else b.err + o.mpvals[i]) && prept[i] == (if first then 0 else b.loc)
    {
      var minloc, errmin := 0, FLT_MAX;
      for j := 0 to |prevDp|
        invariant Best(errmin, minloc) == BestPrev(w, o, prev, prevDp, o.locs[k], j)
      {
        var err := Trans(w, o, prev[j], o.locs[k]) + prevDp[j];
        if err < errmin { errmin, minloc := err, j; }
      }
      if first {
        dpvals, prept := dpvals + [o.mpvals[k]], prept + [0];
      } else {
        dpvals, prept := dpvals + [errmin + o.mpvals[k]], prept + [minloc];
      }
    }
  }

  // ---------------------------------------------------------------- committed prefix

  ghost predicate SettledAt(w: Weights, os: Frames, committed: seq<nat>, t: nat)
    requires t < |os|
  {
    forall k :: 0 <= k < |os[t].locs| ==> committed <= Trace(w, os, t, k)
  }

  /** The candidates handed out so far begin the path of every candidate of the newest frame. */
  ghost predicate Settled(w: Weights, os: Frames, committed: seq<nat>) {
    os == [] || SettledAt(w, os, committed, |os| - 1)
  }

  lemma SettledStays(w: Weights, os: Frames, os': Frames, committed: seq<nat>)
    requires Settled(w, os, committed) && os <= os' && |committed| <= |os|
    ensures Settled(w, os', committed)
  {
    if os != [] {
      var t, t' := |os| - 1, |os'| - 1;
      forall k | 0 <= k < |os'[t'].locs| ensures committed <= Trace(w, os', t', k) {
        var p := Trace(w, os', t', k);
        TraceCut(w, os', t', k, t);
        TracePrefix(w, os, os', t, p[t]);
        assert committed <= p[..t + 1];
      }
    }
  }

  lemma SettledAfterCommit(w: Weights, os: Frames, s: nat, b: nat, committed: seq<nat>)
    requires s < |os| && Converged(w, os, |os| - 1, s, b) && Settled(w, os, committed) && |committed| <= s + 1
    ensures b < |os[s].locs|
    ensures Settled(w, os, Trace(w, os, s, b)) && committed <= Trace(w, os, s, b)
  {
    hide Trace, Col;
    ConvergedInRange(w, os, |os| - 1, s, b);
    var t := |os| - 1;
    forall k | 0 <= k < |os[t].locs| ensures Trace(w, os, s, b) <= Trace(w, os, t, k) {
      TraceCut(w, os, t, k, s);
    }
    assert committed <= Trace(w, os, t, 0);
    TraceCut(w, os, t, 0, s);
  }

  ghost predicate CommitsOn(w: Weights, os: Frames, c: seq<nat>, g: bool) {
    && |c| <= |os|
    && (forall i :: 0 <= i < |c| ==> c[i] < |os[i].locs|)
    && (!g ==> Settled(w, os, c))
  }

  lemma CommitsGrow(w: Weights, os: Frames, c: seq<nat>, g: bool, path: seq<nat>, met: bool)
    requires CommitsOn(w, os, c, g) && |c| <= |path| <= |os| && IsPath(os, path)
    requires met && !g ==> c <= path && Settled(w, os, path)
    ensures CommitsOn(w, os, c + path[|c|..], g || !met)
  {
    hide Settled;
    if met && !g { assert c + path[|c|..] == path; }
  }

  /** Walking a path one frame back is following a back pointer. */
  lemma TraceStep(w: Weights, os: Frames, t: nat, k: nat, s: nat)
    requires t < |os| && k < |os[t].locs| && 0 < s <= t
    ensures Trace(w, os, t, k)[s - 1] == Col(w, os, s).prept[Trace(w, os, t, k)[s]]
  {
    var p := Trace(w, os, t, k);
    TraceCut(w, os, t, k, s);
    PreptInRange(w, os, s, p[s]);
    assert p[..s + 1][s - 1] == p[s - 1];
  }

  /** Where the paths pass the frame before the newest one. */
  lemma StartsBack(w: Weights, v: View)
    requires Good(w, v) && v.active >= 2
    ensures |v.os| >= 2 && v.headF < |v.dp| && Follows(w, v.os, |v.os| - 1, v.dp[v.headF].prept, |v.os| - 2)
  {
    var t := |v.os| - 1;
    forall k | 0 <= k < |v.os[t].locs| ensures v.dp[v.headF].prept[k] == Trace(w, v.os, t, k)[t - 1] {
      TraceStep(w, v.os, t, k, t);
    }
  }

  lemma CommitPath(w: Weights, v: View, s: nat, best: nat, met: bool)
    requires Good(w, v) && s < v.active && |v.committed| + s < |v.os| && best < |v.os[|v.committed| + s].locs|
    requires met ==> Converged(w, v.os, |v.os| - 1, |v.committed| + s, best)
    ensures var path := Trace(w, v.os, |v.committed| + s, best);
      met && !v.guessed ==> v.committed <= path && Settled(w, v.os, path)
  {
    if met && !v.guessed { SettledAfterCommit(w, v.os, |v.committed| + s, best, v.committed); }
  }

  /** `pcands[k]` is where the path of candidate `k` of the newest frame passes frame `s`. */
  ghost predicate Follows(w: Weights, os: Frames, t: nat, pcands: seq<nat>, s: nat)
    requires s <= t < |os|
  {
    |pcands| == |os[t].locs| && forall k :: 0 <= k < |pcands| ==> pcands[k] == Trace(w, os, t, k)[s]
  }

  /** The paths of frame `t` meet at frame `s`. */
  ghost predicate Meets(w: Weights, os: Frames, t: nat, s: nat)
    requires s <= t < |os|
  {
    exists b :: Converged(w, os, t, s, b)
  }

  /** At least `limit` frames are waiting and the paths meet at none of them but the newest: the
      only situation in which a call that is not the last may guess. */
  ghost predicate Stuck(w: Weights, os: Frames, from: nat, limit: nat) {
    from < |os| && from + limit <= |os| && NowhereMeets(w, os, |os| - 1, from)
  }

  ghost predicate NowhereMeets(w: Weights, os: Frames, t: nat, from: nat)
    requires t < |os|
  {
    forall s :: from <= s < t ==> !Meets(w, os, t, s)
  }

  /** The convergence test. */
  method AllEqual(pcands: seq<nat>) returns (r: bool)
    requires pcands != []
    ensures r <==> forall k :: 0 <= k < |pcands| ==> pcands[k] == pcands[0]
  {
    r := true;
    for k := 1 to |pcands|
      invariant r <==> forall j :: 0 <= j < k ==> pcands[j] == pcands[0]
    {
      if pcands[0] != pcands[k] { r := false; }
    }
  }

  method StepBack(w: Weights, ghost os: Frames, ghost t: nat, ghost s: nat, prept: seq<nat>, pcands: seq<nat>)
    returns (r: seq<nat>)
    requires s <= t < |os| && Follows(w, os, t, pcands, s) && prept == Col(w, os, s).prept
    ensures s > 0 ==> Follows(w, os, t, r, s - 1)
  {
    r := [];
    for k := 0 to |pcands|
      invariant |r| == k
      invariant s > 0 ==> forall j :: 0 <= j < k ==> r[j] == Trace(w, os, t, j)[s - 1]
    {
      if s > 0 { TraceStep(w, os, t, k, s); }
      r := r + [prept[pcands[k]]];
    }
  }

  lemma FollowsSize(w: Weights, os: Frames, t: nat, pcands: seq<nat>, s: nat)
    requires s <= t < |os| && Follows(w, os, t, pcands, s)
    ensures pcands != []
  {
  }

  lemma Meet(w: Weights, os: Frames, t: nat, pcands: seq<nat>, s: nat)
    requires s <= t < |os| && Follows(w, os, t, pcands, s) && pcands != []
    requires forall k :: 0 <= k < |pcands| ==> pcands[k] == pcands[0]
    ensures Converged(w, os, t, s, pcands[0])
  {
  }

  lemma NoMeet(w: Weights, os: Frames, t: nat, pcands: seq<nat>, s: nat)
    requires s <= t < |os| && Follows(w, os, t, pcands, s) && pcands != []
    requires exists k :: 0 <= k < |pcands| && pcands[k] != pcands[0]
    ensures !Meets(w, os, t, s)
  {
    var k :| 0 <= k < |pcands| && pcands[k] != pcands[0];
    assert Trace(w, os, t, k)[s] != Trace(w, os, t, 0)[s];
  }

  lemma RecFields(w: Weights, os: Frames, t: nat)
    requires t < |os|
    ensures var r := RecAt(w, os, t); var o := os[t];
      && r.prept == Col(w, os, t).prept && r.dpvals == Col(w, os, t).dpvals
      && r.rms == o.rms && r.locs == o.locs && r.pvals == o.pvals
      && |r.prept| == |r.dpvals| == |r.locs| == |r.pvals|
      && o.Valid()
      && forall k :: 0 <= k < |o.locs| ==> ReportOf(o, k) == ReportFrom(r, k)
  {
  }

  lemma PathInRange(os: seq<Observation>, p: seq<nat>, i: nat)
    requires IsPath(os, p) && i < |p|
    ensures p[i] < |os[i].locs|
  {
  }

  method FindCheapest(dpvals: seq<real>) returns (best: nat)
    ensures best == Cheapest(dpvals, |dpvals|).loc
  {
    var patherrmin := FLT_MAX;
    best := 0;
    for k := 0 to |dpvals|
      invariant Best(patherrmin, best) == Cheapest(dpvals, k)
    {
      if patherrmin > dpvals[k] { patherrmin, best := dpvals[k], k; }
    }
  }

  // ---------------------------------------------------------------- abstract state

  /** The tracker's state: its fields, the cycle from tailF on (`ring`), every frame computed so
      far (`os`), the candidates handed out, oldest first (`committed`), and whether some output
      was not backed by convergence (`guessed`). */
  datatype View = View(next: seq<nat>, prev: seq<nat>, dp: seq<DpRec>, headF: nat, tailF: nat, active: nat,
                             firstTime: bool, ring: seq<nat>, os: Frames, committed: seq<nat>, guessed: bool)

  /** `active` frames lie from tailF to headF, and they are the computed ones not handed out. */
  ghost predicate RingOk(v: View) {
    && |v.ring| >= 2 && v.active < |v.ring| && Linked(v.next, v.prev, v.ring) && |v.dp| == |v.ring|
    && v.tailF == v.ring[0]
    && v.firstTime == (v.os == [])
    && v.headF == v.ring[if v.firstTime then 0 else Pred(v.active, |v.ring|)]
    && v.active + |v.committed| == |v.os|
  }

  /** The active frames, and headF, hold their columns. */
  ghost predicate Holds(w: Weights, v: View)
    requires RingOk(v)
  {
    && (forall i {:trigger v.dp[v.ring[i]]} :: 0 <= i < v.active ==> v.dp[v.ring[i]] == RecAt(w, v.os, |v.committed| + i))
    && (v.os != [] ==> v.dp[v.headF] == RecAt(w, v.os, |v.os| - 1))
  }

  ghost predicate Good(w: Weights, v: View) {
    RingOk(v) && Holds(w, v) && CommitsOn(w, v.os, v.committed, v.guessed)
  }

  /** Between stepping headF on and filling it: frame `active` is the one to fill. */
  ghost predicate Ready(w: Weights, v: View) {
    && |v.ring| >= 2 && v.active + 1 < |v.ring| && Linked(v.next, v.prev, v.ring) && |v.dp| == |v.ring|
    && v.tailF == v.ring[0] && v.headF == v.ring[v.active]
    && v.firstTime == (v.os == []) && v.active + |v.committed| == |v.os|
    && (forall i {:trigger v.dp[v.ring[i]]} :: 0 <= i < v.active ==> v.dp[v.ring[i]] == RecAt(w, v.os, |v.committed| + i))
    && (v.os != [] ==> v.dp[v.prev[v.headF]] == RecAt(w, v.os, |v.os| - 1))
  }

  /** headF steps onto ring position `active`, wherever it was. */
  lemma HeadSteps(w: Weights, v: View)
    requires RingOk(v) && Holds(w, v)
    ensures v.headF < |v.next| == |v.prev| == |v.dp| && v.tailF < |v.prev|
    ensures var h := if v.firstTime then v.headF else v.next[v.headF];
      && h == v.ring[v.active]
      && (v.os != [] ==> v.prev[h] == v.headF)
      && (h == v.prev[v.tailF] <==> v.active == |v.ring| - 1)
      && (v.active < |v.ring| - 1 ==> Ready(w, v.(headF := h)))
  {
    hide RecAt, Linked;
    var n := |v.ring|;
    LinkedAt(v.next, v.prev, v.ring, if v.firstTime then 0 else Pred(v.active, n));
    LinkedAt(v.next, v.prev, v.ring, v.active);
    LinkedAt(v.next, v.prev, v.ring, 0);
    if v.active != n - 1 { LinkedApart(v.next, v.prev, v.ring, v.active, n - 1); }
  }

  lemma LinkedAt(next: seq<nat>, prev: seq<nat>, ring: seq<nat>, i: nat)
    requires Linked(next, prev, ring) && i < |ring|
    ensures |next| == |prev| == |ring| && ring[i] < |ring|
    ensures next[ring[i]] == ring[Succ(i, |ring|)] && prev[ring[i]] == ring[Pred(i, |ring|)]
  {
  }

  lemma LinkedApart(next: seq<nat>, prev: seq<nat>, ring: seq<nat>, i: nat, j: nat)
    requires Linked(next, prev, ring) && i < j < |ring|
    ensures ring[i] != ring[j]
  {
  }

  /** Growing a full ring makes it ready. */
  lemma GrownReady(w: Weights, v: View, v': View)
    requires RingOk(v) && Holds(w, v) && v.active == |v.ring| - 1
    requires v' == v.(next := v'.next, prev := v'.prev, dp := v'.dp, ring := v'.ring, headF := v.ring[v.active])
    requires v.ring <= v'.ring && |v.ring| < |v'.ring| && v.dp <= v'.dp && |v'.dp| == |v'.ring|
    requires Linked(v'.next, v'.prev, v'.ring)
    ensures Ready(w, v')
  {
    hide RecAt;
    assert v.active > 0;
    assert v'.prev[v'.headF] == v'.ring[v.active - 1] == v.ring[v.active - 1];
    forall i | 0 <= i < v.active ensures v'.dp[v'.ring[i]] == RecAt(w, v.os, |v.committed| + i) {
      assert v'.dp[v.ring[i]] == v.dp[v.ring[i]];
    }
  }

  /** The state after filling the frame of observation `o`. */
  ghost function FilledView(w: Weights, v: View, o: Observation): View
    requires Ready(w, v) && o.Valid()
  {
    v.(dp := v.dp[v.headF := RecAt(w, v.os + [o], |v.os|)], firstTime := false, os := v.os + [o], active := v.active + 1)
  }

  lemma ReadyFacts(w: Weights, v: View)
    requires Ready(w, v)
    ensures v.headF < |v.prev| && v.headF < |v.dp| && v.prev[v.headF] < |v.dp| && v.firstTime == (v.os == [])
    ensures v.os != [] ==> v.dp[v.prev[v.headF]] == RecAt(w, v.os, |v.os| - 1)
  {
    hide RecAt;
    assert v.prev[v.ring[v.active]] == v.ring[Pred(v.active, |v.ring|)];
  }

  lemma FilledRing(w: Weights, v: View, o: Observation)
    requires Ready(w, v) && o.Valid()
    ensures RingOk(FilledView(w, v, o))
  {
    assert v.headF < |v.dp|;
    hide RecAt, Linked;
  }

  lemma FilledHolds(w: Weights, v: View, o: Observation)
    requires Ready(w, v) && o.Valid() && RingOk(FilledView(w, v, o))
    ensures Holds(w, FilledView(w, v, o))
  {
    hide RecAt;
    var v' := FilledView(w, v, o);
    forall i | 0 <= i < v'.active ensures v'.dp[v'.ring[i]] == RecAt(w, v'.os, |v.committed| + i) {
      if i < v.active {
        assert v.ring[i] != v.headF;
        assert v.dp[v.ring[i]] == RecAt(w, v.os, |v.committed| + i);
        RecStays(w, v.os, o, |v.committed| + i);
      }
    }
  }

  lemma FilledGood(w: Weights, v: View, o: Observation)
    requires Ready(w, v) && o.Valid() && CommitsOn(w, v.os, v.committed, v.guessed)
    ensures Good(w, FilledView(w, v, o))
  {
    FilledRing(w, v, o);
    FilledHolds(w, v, o);
    hide RecAt, RingOk, Holds, Ready, Settled;
    if !v.guessed { SettledStays(w, v.os, v.os + [o], v.committed); }
  }

  /** What following pointers from ring position `i` yields. */
  lemma Links(w: Weights, v: View, i: nat)
    requires Good(w, v) && i < |v.ring|
    ensures v.headF < |v.dp| && |v.dp| == |v.prev| == |v.next| && v.ring[i] < |v.dp|
    ensures v.ring[i] == v.tailF <==> i == 0
    ensures i > 0 ==> v.prev[v.ring[i]] == v.ring[i - 1]
    ensures v.tailF < |v.dp| && v.prev[v.tailF] == v.ring[|v.ring| - 1]
    ensures v.ring[i] == v.prev[v.tailF] ==> i == |v.ring| - 1
    ensures i + 1 < |v.ring| ==> v.next[v.ring[i]] == v.ring[i + 1]
  {
    hide Holds, CommitsOn;
    assert v.next[v.ring[i]] == v.ring[Succ(i, |v.ring|)];
  }

  /** What an active frame holds. */
  lemma ActiveFrame(w: Weights, v: View, i: nat)
    requires Good(w, v) && i < v.active
    ensures |v.committed| + v.active == |v.os| && v.active < |v.ring| && v.headF == v.ring[v.active - 1]
    ensures v.ring[i] < |v.dp| && v.dp[v.ring[i]] == RecAt(w, v.os, |v.committed| + i)
  {
    hide RecAt;
  }

  lemma Sizes(w: Weights, v: View)
    requires Good(w, v)
    ensures v.active < |v.ring| && v.active + |v.committed| == |v.os| && |v.next| == |v.ring| == |v.dp|
  {
  }

  lemma NewestFrame(w: Weights, v: View)
    requires Good(w, v) && v.os != []
    ensures v.headF < |v.dp| && v.dp[v.headF] == RecAt(w, v.os, |v.os| - 1)
  {
    hide RecAt;
  }

  /** The state after everything up to ring position `s` has left the active part. */
  ghost function Retired(v: View, s: nat, path: seq<nat>, met: bool): View
    requires s + 1 < |v.ring| && s < v.active && |v.committed| <= |path|
  {
    v.(tailF := v.ring[s + 1], active := v.active - (s + 1), ring := Rotated(v.ring, s + 1),
       committed := v.committed + path[|v.committed|..], guessed := v.guessed || !met)
  }

  lemma RetiredRing(v: View, s: nat, path: seq<nat>, met: bool)
    requires RingOk(v) && s < v.active && |v.committed| + s + 1 == |path| <= |v.os|
    ensures RingOk(Retired(v, s, path, met))
  {
    hide Linked, Rotated;
    RotateLinked(v.next, v.prev, v.ring, s + 1);
    RotatedAt(v.ring, s + 1, 0);
    RotatedAt(v.ring, s + 1, |v.ring| - 1);
    if v.active > s + 1 { RotatedAt(v.ring, s + 1, v.active - (s + 1) - 1); }
  }

  lemma RingInArena(v: View)
    requires RingOk(v)
    ensures forall i :: 0 <= i < |v.ring| ==> v.ring[i] < |v.dp|
  {
  }

  lemma RetiredHolds(w: Weights, v: View, s: nat, path: seq<nat>, met: bool)
    requires RingOk(v) && Holds(w, v) && s < v.active && |v.committed| + s + 1 == |path| <= |v.os|
    requires RingOk(Retired(v, s, path, met))
    ensures Holds(w, Retired(v, s, path, met))
  {
    hide RecAt, Linked, Rotated;
    RingInArena(v);
    var v' := Retired(v, s, path, met);
    RingInArena(v');
    forall i | 0 <= i < v'.active ensures v'.dp[v'.ring[i]] == RecAt(w, v'.os, |v'.committed| + i) {
      RotatedAt(v.ring, s + 1, i);
      assert v.dp[v.ring[i + s + 1]] == RecAt(w, v.os, |v.committed| + (i + s + 1));
    }
  }

  lemma RetiredGood(w: Weights, v: View, s: nat, path: seq<nat>, met: bool)
    requires Good(w, v) && s < v.active && |v.committed| + s + 1 == |path| <= |v.os| && IsPath(v.os, path)
    requires met && !v.guessed ==> v.committed <= path && Settled(w, v.os, path)
    ensures Good(w, Retired(v, s, path, met))
  {
    RetiredRing(v, s, path, met);
    RetiredHolds(w, v, s, path, met);
    hide RingOk, Holds, CommitsOn, IsPath, Settled;
    CommitsGrow(w, v.os, v.committed, v.guessed, path, met);
  }

  /** `out` reports, newest first, the choices `p` from frame `from` on. */
  ghost predicate Reported(os: Frames, p: seq<nat>, out: seq<Report>, from: nat) {
    && from + |out| == |p| <= |os|
    && (forall j :: from <= j < |p| ==> p[j] < |os[j].locs|)
    && (forall j :: from <= j < |p| ==> out[|p| - 1 - j] == ReportOf(os[j], p[j]))
  }

  lemma NoneReported(os: Frames, p: seq<nat>)
    requires |p| <= |os|
    ensures Reported(os, p, [], |p|)
  {
  }

  lemma ReportOne(os: Frames, p: seq<nat>, out: seq<Report>, from: nat, r: Report)
    requires Reported(os, p, out, from + 1) && p[from] < |os[from].locs| && r == ReportOf(os[from], p[from])
    ensures Reported(os, p, out + [r], from)
  {
  }

  lemma PathReported(os: Frames, c: seq<nat>, p: seq<nat>, out: seq<Report>)
    requires |c| <= |p| && Reported(os, p, out, |c|)
    ensures Reported(os, c + p[|c|..], out, |c|)
  {
  }

  /** One step of the backtracking loop, at ring position `i`. */
  lemma BackStep(w: Weights, v: View, s: nat, best: nat, i: nat)
    requires Good(w, v) && i <= s < v.active && |v.committed| + s < |v.os| && best < |v.os[|v.committed| + s].locs|
    ensures v.active < |v.ring| && v.ring[i] < |v.dp| == |v.prev| && v.tailF < |v.prev| && v.ring[i] != v.prev[v.tailF]
    ensures var t := |v.committed| + i;
      var k := Trace(w, v.os, |v.committed| + s, best)[t];
      var r := v.dp[v.ring[i]];
      && k < |v.os[t].locs| == |r.locs| == |r.pvals| == |r.prept|
      && ReportFrom(r, k) == ReportOf(v.os[t], k)
      && (i > 0 ==> r.prept[k] == Trace(w, v.os, |v.committed| + s, best)[t - 1])
    ensures i > 0 ==> v.prev[v.ring[i]] == v.ring[i - 1] && v.ring[i - 1] != v.prev[v.tailF]
    ensures i == 0 ==> v.ring[i] == v.tailF
  {
    hide Good, Trace, RecAt, Col;
    var t := |v.committed| + i;
    ActiveFrame(w, v, i);
    Links(w, v, i);
    RecFields(w, v.os, t);
    PathInRange(v.os, Trace(w, v.os, |v.committed| + s, best), t);
    if i > 0 {
      TraceStep(w, v.os, |v.committed| + s, best, t);
      Links(w, v, i - 1);
    }
  }

  /** The cheapest candidate of the newest frame. */
  ghost function BestNow(w: Weights, os: Frames): (b: nat)
    requires os != []
    ensures b < |os[|os| - 1].locs|
  {
    CheapestIsMin(Col(w, os, |os| - 1).dpvals, |os[|os| - 1].locs|);
    Cheapest(Col(w, os, |os| - 1).dpvals, |os[|os| - 1].locs|).loc
  }

  /** The output is the offline path from the cheapest candidate of the last frame. */
  ghost predicate IsOffline(w: Weights, os: Frames, committed: seq<nat>) {
    os != [] && committed == Trace(w, os, |os| - 1, BestNow(w, os))
  }

  /** As long as nothing was guessed, the offline path of any newest candidate continues the output. */
  lemma OfflineContinues(w: Weights, v: View)
    requires Good(w, v) && v.os != []
    ensures v.active + |v.committed| == |v.os| && Reported(v.os, v.committed, [], |v.committed|)
    ensures var p := Trace(w, v.os, |v.os| - 1, BestNow(w, v.os));
      !v.guessed ==> IsOffline(w, v.os, v.committed + p[|v.committed|..]) &&
                     (v.active == 0 ==> IsOffline(w, v.os, v.committed))
  {
    hide RecAt, Linked, BestNow;
    var p := Trace(w, v.os, |v.os| - 1, BestNow(w, v.os));
    if !v.guessed {
      assert v.committed <= p;
      assert v.committed + p[|v.committed|..] == p;
    }
  }

  lemma CheapestIsBest(w: Weights, os: Frames)
    requires os != []
    ensures var dp := Col(w, os, |os| - 1).dpvals; Cheapest(dp, |dp|).loc == BestNow(w, os)
  {
  }

  // ---------------------------------------------------------------- the tracker

  /** The initial cycle: frames 0, 1, ... linked up and joined at the ends. */
  method LinkUp(cir: nat) returns (next: seq<nat>, prev: seq<nat>, ghost ring: seq<nat>)
    requires cir >= 1
    ensures Linked(next, prev, ring) && |ring| == cir && ring[0] == 0
  {
    next, prev, ring := [0], [0], [0];
    var headF := 0;
    assert Open(next, prev, ring);
    hide Open, Linked;
    for i := 1 to cir
      invariant Open(next, prev, ring) && |next| == |prev| == |ring| == i && headF == i - 1 == ring[i - 1] && ring[0] == 0
    {
      OpenAppend(next, prev, ring, headF);
      next, prev := next[headF := i] + [0], prev + [headF];
      headF, ring := i, ring + [i];
    }
    OpenClose(next, prev, ring, headF);
    next, prev := next[headF := 0], prev[0 := headF];
  }

  lemma FreshGood(w: Weights, next: seq<nat>, prev: seq<nat>, dp: seq<DpRec>, ring: seq<nat>)
    requires Linked(next, prev, ring) && |dp| == |ring| >= 2 && ring[0] == 0
    ensures Good(w, View(next, prev, dp, 0, 0, 0, true, ring, [], [], false))
  {
  }

  /** Frames in a ring that has grown `growths` times. */
  function RingSize(cir: nat, growths: nat): nat { cir * (growths + 1) }

  lemma RingGrows(cir: nat, growths: nat)
    ensures RingSize(cir, growths + 1) == RingSize(cir, growths) + cir
    ensures growths <= 6 ==> RingSize(cir, growths) <= RingSize(cir, 6)
  {
    if growths <= 6 { assert cir * (6 - growths) >= 0; }
  }

  class Tracker {
    const w: Weights
    const sizeCirBuffer: nat
    const sizeFrameHist: nat
    const sizeFrameOut: nat

    var next: seq<nat>
    var prev: seq<nat>
    var dp: seq<DpRec>
    var headF: nat
    var tailF: nat
    var numActive: nat
    var growthCount: nat
    var firstTime: bool

    ghost var ring: seq<nat>
    ghost var os: Frames
    ghost var committed: seq<nat>
    ghost var guessed: bool

    /** The state, counting `extra` frames that num_active_frames does not count yet. */
    ghost function Now(extra: nat := 0): View
      reads this
    {
      View(next, prev, dp, headF, tailF, numActive + extra, firstTime, ring, os, committed, guessed)
    }

    ghost predicate Valid()
      reads this
    {
      sizeFrameHist >= 2 && sizeCirBuffer >= 2 && Good(w, Now()) && Grown()
    }

    /** The ring has grown a whole number of times, at most six. */
    ghost predicate Grown()
      reads this
    {
      growthCount <= 6 && |ring| == RingSize(sizeCirBuffer, growthCount)
    }

    /** init_dp_f0: a fresh cycle of `cir` frames. */
    constructor (w: Weights, cir: nat, hist: nat, outLimit: nat)
      requires cir >= 2 && hist >= 2
      ensures Valid() && os == [] && committed == [] && !guessed && numActive == 0
      ensures this.w == w && sizeFrameOut == outLimit && sizeFrameHist == hist && sizeCirBuffer == cir
    {
      this.w := w;
      sizeCirBuffer, sizeFrameHist, sizeFrameOut := cir, hist, outLimit;
      var n, p;
      ghost var cycle;
      n, p, cycle := LinkUp(cir);
      headF, tailF, next, prev, dp := 0, 0, n, p, seq(cir, _ => NO_CANDS);
      numActive, growthCount, firstTime := 0, 0, true;
      ring, os, committed, guessed := cycle, [], [], false;
      FreshGood(w, n, p, seq(cir, _ => NO_CANDS), cycle);
    }

    /** Splices `sizeCirBuffer` new frames between headF and tailF. */
    method Grow()
      requires |ring| >= 2 && Linked(next, prev, ring) && |dp| == |ring| && sizeCirBuffer > 0
      requires tailF == ring[0] && headF == ring[|ring| - 1]
      modifies this`ring, this`growthCount, this`next, this`prev, this`dp
      ensures |ring| == |old(ring)| + sizeCirBuffer && old(ring) <= ring && Linked(next, prev, ring)
      ensures old(dp) <= dp && |dp| == |ring| && growthCount == old(growthCount) + 1
    {
      var n, frm := |next|, headF;
      LinkedIsOpen(next, prev, ring);
      hide Linked;
      for k := 0 to sizeCirBuffer
        invariant Open(next, prev, ring) && |dp| == |ring| == n + k && frm == ring[n + k - 1]
        invariant old(ring) <= ring && old(dp) <= dp && growthCount == old(growthCount)
      {
        OpenAppend(next, prev, ring, frm);
        next, prev, dp := next[frm := n + k] + [0], prev + [frm], dp + [NO_CANDS];
        frm, ring := n + k, ring + [n + k];
      }
      OpenClose(next, prev, ring, frm);
      next, prev := next[frm := tailF], prev[tailF := frm];
      growthCount := growthCount + 1;
    }

    /** Steps headF on, except before the very first frame, and grows the ring if it is full. */
    method MakeRoom(ghost extra: nat) returns (ok: bool)
      requires sizeCirBuffer >= 2 && RingOk(Now(extra)) && Holds(w, Now(extra))
      modifies this`headF, this`ring, this`growthCount, this`next, this`prev, this`dp
      ensures ok ==> Ready(w, Now(extra))
      ensures !ok ==> growthCount > 5 && growthCount == old(growthCount) && ring == old(ring) && numActive + extra + 1 == |ring|
      ensures ok && growthCount == old(growthCount) ==> ring == old(ring)
      ensures ok && growthCount != old(growthCount) ==>
        growthCount == old(growthCount) + 1 <= 6 && |ring| == |old(ring)| + sizeCirBuffer
    {
      hide Holds, Ready, Linked;
      ghost var v := Now(extra);
      HeadSteps(w, v);
      if !firstTime { headF := next[headF]; }
      if headF == prev[tailF] {
        if growthCount > 5 { return false; }
        Grow();
        GrownReady(w, v, Now(extra));
      }
      ok := true;
    }

    /** The record of frame `o`, computed from its predecessor's. */
    method Record(o: Observation, before: DpRec) returns (r: DpRec)
      requires o.Valid() && firstTime == (os == []) && (os != [] ==> before == RecAt(w, os, |os| - 1))
      ensures r == RecAt(w, os + [o], |os|)
    {
      var d, p;
      if firstTime {
        d, p := ComputeColumn(w, o, true, [], []);
      } else {
        d, p := ComputeColumn(w, o, false, before.locs, before.dpvals);
      }
      r := DpRec(o.rms, o.locs, o.pvals, p, d, o.correl, o.first, o.freq);
      RecAppend(w, os, o);
    }

    /** One turn of the main loop of dp_f0. */
    method Push(o: Observation, ghost extra: nat) returns (ok: bool)
      requires o.Valid() && sizeCirBuffer >= 2 && Good(w, Now(extra)) && Grown()
      modifies this`headF, this`ring, this`growthCount, this`next, this`prev, this`dp, this`firstTime, this`os
      ensures ok ==> os == old(os) + [o] && Good(w, Now(extra + 1)) && Grown()
      ensures !ok ==> numActive + extra + 1 == RingSize(sizeCirBuffer, 6)
    {
      hide RecAt, RingOk, Holds, Ready, CommitsOn, RingSize;
      RingGrows(sizeCirBuffer, growthCount);
      ok := MakeRoom(extra);
      if ok {
        ghost var v := Now(extra);
        ReadyFacts(w, v);
        FilledGood(w, v, o);
        var r := Record(o, dp[prev[headF]]);
        dp := dp[headF := r];
        firstTime := false;
        os := os + [o];
        assert Now(extra + 1) == FilledView(w, v, o);
        hide Good;
      }
    }

    /** Traces all paths back from headF until they meet, or gives up at tailF.
        `s` is the ring position of `cmpthF`. */
    method Converge(cheapest: nat) returns (found: bool, cmpthF: nat, best: nat, ghost s: nat, ghost met: bool)
      requires Good(w, Now()) && numActive >= 2
      ensures found ==> s < numActive && s < |ring| && cmpthF == ring[s] && |committed| + s < |os|
      ensures found && met ==> Converged(w, os, |os| - 1, |committed| + s, best)
      ensures found && met ==> NowhereMeets(w, os, |os| - 1, |committed| + s + 1)
      ensures found && !met ==> s == numActive - 1 && best == cheapest && Stuck(w, os, |committed|, sizeFrameOut)
      ensures !found ==> numActive < sizeFrameOut && os != [] && NowhereMeets(w, os, |os| - 1, |committed|)
    {
      hide Good, Trace, Follows, Converged, RecAt, Col, Meets;
      ghost var v, d, i := Now(), |committed|, numActive - 1;
      ActiveFrame(w, v, i);
      ghost var t := |os| - 1;
      StartsBack(w, v);
      var frm, pcands := headF, dp[headF].prept;
      while true
        invariant 1 <= i < numActive && frm == ring[i] && Follows(w, os, t, pcands, d + i - 1)
        invariant forall j :: d + i <= j < t ==> !Meets(w, os, t, j)
        decreases i
      {
        Links(w, v, i);
        frm := prev[frm];
        i := i - 1;
        Links(w, v, i);
        ActiveFrame(w, v, i);
        FollowsSize(w, os, t, pcands, d + i);
        var meet := AllEqual(pcands);
        if meet {
          Meet(w, os, t, pcands, d + i);
          return true, frm, pcands[0], i, true;
        }
        NoMeet(w, os, t, pcands, d + i);
        RecFields(w, os, d + i);
        pcands := StepBack(w, os, t, d + i, dp[frm].prept, pcands);
        if frm == tailF {
          if numActive < sizeFrameOut { return false, headF, cheapest, 0, false; }
          return true, headF, cheapest, numActive - 1, false;
        }
      }
    }

    /** Walks back from `cmpthF` along the path into `best` and reports every frame down to tailF,
        newest first. */
    method Backtrack(cmpthF: nat, best: nat, ghost s: nat) returns (out: seq<Report>)
      requires Good(w, Now()) && s < numActive && |committed| + s < |os| && best < |os[|committed| + s].locs|
      requires s < |ring| && cmpthF == ring[s]
      ensures |out| == s + 1 && Reported(os, Trace(w, os, |committed| + s, best), out, |committed|)
    {
      hide Good, Trace, Reported, IsPath, ReportOf;
      ghost var v, d, i := Now(), |committed|, s + 1;
      ghost var p := Trace(w, os, d + s, best);
      var frm, cand := cmpthF, best;
      out := [];
      NoneReported(os, p);
      BackStep(w, v, s, best, s);
      while frm != prev[tailF]
        invariant 0 <= i <= s + 1 && |out| == s + 1 - i && Reported(os, p, out, d + i)
        invariant tailF < |prev| && (i == 0 ==> frm == prev[tailF])
        invariant i > 0 ==> frm == ring[i - 1] && frm != prev[tailF] && cand == p[d + i - 1]
        decreases i
      {
        i := i - 1;
        BackStep(w, v, s, best, i);
        var r := ReportFrom(dp[frm], cand);
        ReportOne(os, p, out, d + i, r);
        out := out + [r];
        cand := dp[frm].prept[cand];
        frm := prev[frm];
      }
    }

    /** Moves tailF behind `cmpthF`: the ring stays a cycle and the frames still active keep their columns. */
    method Retire(cmpthF: nat, n: nat, ghost s: nat, ghost path: seq<nat>, ghost met: bool)
      requires Good(w, Now()) && s < numActive && s < |ring| && cmpthF == ring[s] && n == s + 1
      requires |committed| + s + 1 == |path| <= |os| && IsPath(os, path)
      requires met && !guessed ==> committed <= path && Settled(w, os, path)
      modifies this`tailF, this`numActive, this`ring, this`committed, this`guessed
      ensures Good(w, Now()) && numActive == old(numActive) - n && |ring| == |old(ring)|
      ensures committed == old(committed) + path[|old(committed)|..] && guessed == (old(guessed) || !met)
    {
      hide Good, Settled, IsPath, Rotated;
      Sizes(w, Now());
      Links(w, Now(), s);
      RetiredGood(w, Now(), s, path, met);
      RotatedAt(ring, s + 1, 0);
      ghost var v := Now();
      tailF := next[cmpthF];
      numActive := numActive - n;
      ring := Rotated(ring, s + 1);
      committed := committed + path[|committed|..];
      guessed := guessed || !met;
      assert Now() == Retired(v, s, path, met);
    }

    /** Hands out the frames up to `cmpthF`. */
    method Commit(cmpthF: nat, best: nat, ghost s: nat, ghost met: bool) returns (out: seq<Report>)
      requires Good(w, Now()) && s < numActive && |committed| + s < |os| && best < |os[|committed| + s].locs|
      requires s < |ring| && cmpthF == ring[s]
      requires met ==> Converged(w, os, |os| - 1, |committed| + s, best)
      modifies this`tailF, this`numActive, this`ring, this`committed, this`guessed
      ensures Good(w, Now()) && numActive + |out| == old(numActive) && |out| == s + 1
      ensures committed == old(committed) + Trace(w, os, |old(committed)| + s, best)[|old(committed)|..]
      ensures guessed == (old(guessed) || !met) && Reported(os, committed, out, |old(committed)|)
      ensures |committed| == |old(committed)| + s + 1 && |ring| == |old(ring)|
    {
      hide Good, Trace, Settled, Converged, Reported, IsPath;
      ghost var v, d := Now(), |committed|;
      ghost var path := Trace(w, os, d + s, best);
      CommitPath(w, v, s, best, met);
      Sizes(w, v);
      out := Backtrack(cmpthF, best, s);
      PathReported(os, committed, path, out);
      Retire(cmpthF, |out|, s, path, met);
    }

    /** All frames of one call. */
    method PushAll(frames: Frames) returns (ok: bool)
      requires Valid()
      modifies this`headF, this`ring, this`growthCount, this`next, this`prev, this`dp, this`firstTime, this`os, this`numActive
      ensures ok ==> Valid() && os == old(os) + frames && numActive == old(numActive) + |frames|
      ensures ok <==> old(numActive) + |frames| < RingSize(sizeCirBuffer, 6)
    {
      hide Good, RingSize;
      for i := 0 to |frames|
        invariant Good(w, Now(i)) && Grown() && os == old(os) + frames[..i] && numActive == old(numActive)
      {
        ok := Push(frames[i], i);
        if !ok { return; }
        assert frames[..i + 1] == frames[..i] + [frames[i]];
      }
      assert frames[..|frames|] == frames;
      ghost var v := Now(|frames|);
      numActive := numActive + |frames|;
      assert Now() == v;
      Sizes(w, v);
      RingGrows(sizeCirBuffer, growthCount);
      ok := true;
    }

    /** The second half of dp_f0. */
    method HandOut(lastTime: bool) returns (out: seq<Report>)
      requires Good(w, Now()) && os != [] && (lastTime || numActive >= 2)
      modifies this`tailF, this`numActive, this`ring, this`committed, this`guessed
      ensures Good(w, Now()) && numActive + |out| == old(numActive)
      ensures old(committed) <= committed && Reported(os, committed, out, |old(committed)|)
      ensures old(guessed) ==> guessed
      ensures guessed && !old(guessed) && !lastTime ==> Stuck(w, os, |old(committed)|, sizeFrameOut)
      ensures lastTime ==> numActive == 0
      ensures lastTime && !old(guessed) ==> IsOffline(w, os, committed)
      ensures |ring| == |old(ring)|
      ensures !lastTime ==> NowhereMeets(w, os, |os| - 1, |committed|) && (out == [] ==> numActive < sizeFrameOut)
    {
      hide Good, Trace, RecAt, Col, Reported, Converged, IsOffline, BestNow, Stuck, Meets;
      ghost var v := Now();
      NewestFrame(w, v);
      RecFields(w, os, |os| - 1);
      var cheapest := FindCheapest(dp[headF].dpvals);
      CheapestIsBest(w, os);
      out := [];
      if lastTime {
        OfflineContinues(w, v);
        if numActive > 0 {
          ActiveFrame(w, v, numActive - 1);
          out := Commit(headF, cheapest, numActive - 1, false);
        }
      } else {
        OfflineContinues(w, v);
        var found, cmpthF, best;
        ghost var s, met;
        found, cmpthF, best, s, met := Converge(cheapest);
        if found {
          if met { ConvergedInRange(w, os, |os| - 1, |committed| + s, best); }
          ActiveFrame(w, v, s);
          out := Commit(cmpthF, best, s, met);
        }
      }
    }

    /** dp_f0: one call.  Frames come out newest first; the ones not handed out stay active. */
    method DpF0(frames: Frames, lastTime: bool) returns (ok: bool, out: seq<Report>)
      requires Valid() && (os == [] ==> frames != [])
      modifies this
      ensures ok ==> Valid() && os == old(os) + frames
      ensures ok ==> numActive + |out| == old(numActive) + |frames|
      ensures ok ==> old(committed) <= committed && Reported(os, committed, out, |old(committed)|)
      ensures ok && old(guessed) ==> guessed
      ensures ok && guessed && !old(guessed) && !lastTime ==> Stuck(w, os, |old(committed)|, sizeFrameOut)
      ensures ok && lastTime ==> numActive == 0
      ensures ok && lastTime && !old(guessed) ==> IsOffline(w, os, committed)
      ensures ok <==> old(numActive) + |frames| < RingSize(sizeCirBuffer, 6)
      ensures ok && !lastTime && old(numActive) + |frames| >= sizeFrameHist ==>
        NowhereMeets(w, os, |os| - 1, |committed|) && (out == [] ==> numActive < sizeFrameOut)
    {
      hide Good, Reported, IsOffline, Stuck, RingSize, Meets;
      out := [];
      ok := PushAll(frames);
      if !ok { return; }
      Sizes(w, Now());
      NoneReported(os, committed);
      if numActive >= sizeFrameHist || lastTime {
        out := HandOut(lastTime);
      }
    }
  }

  // ---------------------------------------------------------------- whole runs

  function Flatten(chunks: seq<Frames>): Frames {
    if chunks == [] then [] else Flatten(chunks[..|chunks| - 1]) + chunks[|chunks| - 1]
  }

  /** `r` reports, oldest first, the choices `p`. */
  ghost predicate ReportsPath(os: Frames, p: seq<nat>, r: seq<Report>) {
    && |r| == |p| <= |os|
    && (forall j :: 0 <= j < |p| ==> p[j] < |os[j].locs|)
    && (forall j :: 0 <= j < |p| ==> r[j] == ReportOf(os[j], p[j]))
  }

  /** A frame's report carries its energy, the peak value of the candidate chosen, and a frequency exactly if
      that candidate is voiced. */
  predicate Tells(r: Report, o: Observation, k: nat) {
    && k < |o.locs| == |o.pvals|
    && r.rms == o.rms && r.acpk == o.pvals[k] && (r.pitch.Unvoiced? <==> o.locs[k] <= 0)
  }

  lemma ReportsTell(os: Frames, p: seq<nat>, r: seq<Report>)
    requires ReportsPath(os, p, r)
    ensures |r| == |p| && forall j :: 0 <= j < |r| ==> Tells(r[j], os[j], p[j])
  {
  }

  /** Get_f0 appends what a call returns in reversed order. */
  method AppendReversed(r: seq<Report>, out: seq<Report>, ghost os: Frames, ghost p: seq<nat>, ghost p': seq<nat>)
    returns (r': seq<Report>)
    requires p <= p' && ReportsPath(os, p, r) && Reported(os, p', out, |p|)
    ensures ReportsPath(os, p', r')
  {
    r' := r;
    var i := |out|;
    while i > 0
      invariant 0 <= i <= |out| && |r'| == |r| + |out| - i
      invariant forall j :: 0 <= j < |r'| ==> r'[j] == ReportOf(os[j], p'[j])
    {
      i := i - 1;
      assert out[i] == ReportOf(os[|p'| - 1 - i], p'[|p'| - 1 - i]);
      r' := r' + [out[i]];
    }
  }

  lemma ReportsExtend(os: Frames, os': Frames, p: seq<nat>, r: seq<Report>)
    requires ReportsPath(os, p, r) && os <= os'
    ensures ReportsPath(os', p, r)
  {
  }

  /** A tracker in the middle of an utterance: `r` reports what it has handed out of the frames `os`. */
  ghost predicate Along(t: Tracker, w: Weights, cir: nat, outLimit: nat, os: Frames, r: seq<Report>)
    reads t
  {
    && t.Valid() && t.w == w && t.sizeCirBuffer == cir && t.sizeFrameOut == outLimit && t.os == os
    && ReportsPath(os, t.committed, r)
  }

  /** One call of dp_f0 and the copy of its output. */
  method Call(t: Tracker, chunk: Frames, last: bool, r: seq<Report>, ghost w: Weights, ghost cir: nat, ghost outLimit: nat, ghost os: Frames)
    returns (ok: bool, r': seq<Report>)
    requires Along(t, w, cir, outLimit, os, r) && (os == [] ==> chunk != [])
    modifies t
    ensures ok ==> Along(t, w, cir, outLimit, os + chunk, r')
    ensures |os| + |chunk| < RingSize(cir, 6) ==> ok
    ensures ok && old(t.guessed) ==> t.guessed
    ensures ok && t.guessed && !old(t.guessed) && !last ==> Stuck(w, os + chunk, |old(t.committed)|, outLimit)
    ensures ok && last ==> t.numActive == 0 && (!old(t.guessed) ==> IsOffline(w, os + chunk, t.committed))
  {
    hide RingSize, ReportsPath, Reported, IsOffline, Good, Stuck, NowhereMeets;
    ghost var committed := t.committed;
    r' := r;
    Sizes(w, t.Now());
    var out;
    ok, out := t.DpF0(chunk, last);
    if ok {
      ReportsExtend(os, t.os, committed, r);
      r' := AppendReversed(r, out, t.os, committed, t.committed);
    }
  }

  /** Get_f0: the calls of one utterance, the last one flagged.  Every frame is reported exactly once,
      in order, as one of its own candidates; and unless a call had to guess (`guessed`), what comes
      out call by call is the single offline back-pointer path from the best final candidate, a
      cheapest path of the whole utterance. */
  method GetF0(w: Weights, chunks: seq<Frames>, cir: nat, hist: nat, outLimit: nat)
    returns (ok: bool, r: seq<Report>, ghost path: seq<nat>, ghost guessed: bool)
    requires cir >= 2 && hist >= 2 && chunks != [] && chunks[0] != []
    ensures ok ==> |r| == |Flatten(chunks)| && ReportsPath(Flatten(chunks), path, r)
    ensures ok ==> |path| == |r| && forall j :: 0 <= j < |r| ==> Tells(r[j], Flatten(chunks)[j], path[j])
    ensures ok && !guessed ==> IsOffline(w, Flatten(chunks), path)
    ensures ok && !guessed && Fits(w, Flatten(chunks)) ==> CheapestPath(w, Flatten(chunks), path)
    ensures ok && guessed ==> StuckOnce(w, chunks, outLimit)
    ensures |Flatten(chunks)| < RingSize(cir, 6) ==> ok
  {
    hide RingSize, ReportsPath, IsOffline, Good, Stuck, Along, Fits, CheapestPath, Flatten, StuckOnce, Tells;
    var t := new Tracker(w, cir, hist, outLimit);
    r, guessed, ok := [], false, true;
    AlongFirst(t, w, cir, outLimit);
    for i := 0 to |chunks|
      invariant ok && Along(t, w, cir, outLimit, Flatten(chunks[..i]), r)
      invariant i > 0 ==> Flatten(chunks[..i]) != []
      invariant guessed ==> StuckOnce(w, chunks, outLimit)
      invariant i < |chunks| ==> guessed == t.guessed
      invariant i == |chunks| ==> t.numActive == 0 && (!guessed ==> IsOffline(w, Flatten(chunks), t.committed))
    {
      ghost var committed := t.committed;
      FlattenStep(chunks, i);
      FlattenGrows(chunks, i + 1);
      ok, r := Call(t, chunks[i], i == |chunks| - 1, r, w, cir, outLimit, Flatten(chunks[..i]));
      if !ok { path := []; return; }
      if i < |chunks| - 1 {
        if t.guessed && !guessed { StuckThere(w, chunks, i + 1, |committed|, outLimit); }
        guessed := t.guessed;
      }
    }
    assert chunks[..|chunks|] == chunks;
    AlongLast(t, w, cir, outLimit, Flatten(chunks), r);
    path := t.committed;
    ReportsTell(Flatten(chunks), path, r);
    if !guessed && Fits(w, Flatten(chunks)) { OfflineIsCheapest(w, Flatten(chunks), path); }
  }

  lemma AlongFirst(t: Tracker, w: Weights, cir: nat, outLimit: nat)
    requires t.Valid() && t.w == w && t.sizeCirBuffer == cir && t.sizeFrameOut == outLimit && t.os == [] && t.committed == []
    ensures Along(t, w, cir, outLimit, Flatten([]), [])
  {
    hide Good;
    NoReports();
  }

  lemma AlongLast(t: Tracker, w: Weights, cir: nat, outLimit: nat, os: Frames, r: seq<Report>)
    requires Along(t, w, cir, outLimit, os, r) && t.numActive == 0
    ensures |r| == |os| && ReportsPath(os, t.committed, r)
  {
    hide Good;
    Sizes(w, t.Now());
    ReportsSize(os, t.committed, r);
  }

  /** No path of the utterance is too expensive for the float maximum. */
  ghost predicate Fits(w: Weights, os: Frames) {
    Representable(w, os) && forall q :: IsPath(os, q) ==> Cost(w, os, q) < FLT_MAX
  }

  /** No path of the whole utterance is cheaper than `p`. */
  ghost predicate CheapestPath(w: Weights, os: Frames, p: seq<nat>) {
    IsPath(os, p) && |p| == |os| && forall q :: IsPath(os, q) && |q| == |os| ==> Cost(w, os, p) <= Cost(w, os, q)
  }

  /** The offline path is a cheapest one. */
  lemma OfflineIsCheapest(w: Weights, os: Frames, p: seq<nat>)
    requires IsOffline(w, os, p) && Fits(w, os)
    ensures CheapestPath(w, os, p)
  {
    hide Cost, Col, BestNow, Representable;
    CheapestIsBest(w, os);
    forall q | IsPath(os, q) && |q| == |os| ensures Cost(w, os, p) <= Cost(w, os, q) {
      GlobalOptimum(w, os, q);
    }
  }

  /** Before some call but the first, `limit` frames waited and the paths met nowhere. */
  ghost predicate StuckOnce(w: Weights, chunks: seq<Frames>, limit: nat) {
    exists i, from :: 0 < i < |chunks| && Stuck(w, Flatten(chunks[..i]), from, limit)
  }

  lemma StuckThere(w: Weights, chunks: seq<Frames>, i: nat, from: nat, limit: nat)
    requires 0 < i < |chunks| && Stuck(w, Flatten(chunks[..i]), from, limit)
    ensures StuckOnce(w, chunks, limit)
  {
    hide Stuck, Flatten;
  }

  lemma FlattenStep(chunks: seq<Frames>, i: nat)
    requires i < |chunks|
    ensures Flatten(chunks[..i + 1]) == Flatten(chunks[..i]) + chunks[i]
    ensures i == 0 ==> Flatten(chunks[..i]) == []
    ensures i + 1 == |chunks| ==> chunks[..i + 1] == chunks
  {
    assert chunks[..i + 1][..i] == chunks[..i];
  }

  lemma {:induction false} FlattenGrows(chunks: seq<Frames>, i: nat)
    requires i <= |chunks|
    ensures |Flatten(chunks[..i])| <= |Flatten(chunks)|
    decreases |chunks|
  {
    if i == |chunks| {
      assert chunks[..i] == chunks;
    } else {
      FlattenGrows(chunks[..|chunks| - 1], i);
      assert chunks[..|chunks| - 1][..i] == chunks[..i];
    }
  }

  lemma NoReports()
    ensures ReportsPath([], [], [])
  {
  }

  lemma ReportsSize(os: Frames, p: seq<nat>, r: seq<Report>)
    requires ReportsPath(os, p, r)
    ensures |r| == |p|
  {
  }
}
