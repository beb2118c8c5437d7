/** The feature extractor as a state machine (PLP.cpp): AddBuf, Norm_Diff2 and Resume in any order. */
module FeatureStream {
  import opened FeatureStats
  import opened FeatureNorm
  import opened FeatureLaws

  // ---------------------------------------------------------------- frames of the sample stream

  /** How many frames of `len` samples, `shift` apart, fit into `samples`. */
  function FrameCount(samples: nat, len: nat, shift: nat): nat
    requires shift > 0
  {
    if samples >= len then (samples - len) / shift + 1 else 0
  }

  lemma FrameFits(i: nat, samples: nat, len: nat, shift: nat)
    requires shift > 0
    ensures i < FrameCount(samples, len, shift) <==> i * shift + len <= samples
  {
    if samples >= len {
      var q, r := (samples - len) / shift, (samples - len) % shift;
      assert samples - len == q * shift + r;
      if i <= q { Times(i, q, shift); } else { Times(q + 1, i, shift); }
    }
  }

  lemma Times(a: nat, b: nat, m: nat)
    requires a <= b
    ensures a * m <= b * m && (a + 1) * m == a * m + m
  {
    assert (b - a) * m >= 0;
  }

  /** The feature of frame `i`, computed by `front` from the frame's own samples. */
  ghost function Feature(front: seq<real> -> real, signal: seq<real>, i: nat, len: nat, shift: nat): real {
    if i * shift + len <= |signal| then front(signal[i * shift..i * shift + len]) else 0.0
  }

  /** `raw` is the feature column of the whole signal. */
  ghost predicate Featured(raw: seq<real>, front: seq<real> -> real, signal: seq<real>, len: nat, shift: nat)
    requires shift > 0
  {
    && |raw| == FrameCount(|signal|, len, shift)
    && forall i :: 0 <= i < |raw| ==> raw[i] == Feature(front, signal, i, len, shift)
  }

  lemma FeatureExtends(front: seq<real> -> real, s: seq<real>, t: seq<real>, i: nat, len: nat, shift: nat)
    requires s <= t && i * shift + len <= |s|
    ensures Feature(front, s, i, len, shift) == Feature(front, t, i, len, shift)
  {
    assert s[i * shift..i * shift + len] == t[i * shift..i * shift + len];
  }

  /** The sample buffer holds the signal from frame `off` on. */
  ghost predicate Buffered(wave: seq<real>, signal: seq<real>, off: nat, shift: nat) {
    off * shift <= |signal| && wave == signal[off * shift..]
  }

  // ---------------------------------------------------------------- one table

  /** What normalising the rows up to `top` makes of a table, the statistics covering `n` rows. */
  ghost function NormedTrack(t: Track, n: nat, top: nat, c: Config, prior: Prior): (r: Track)
    requires 0 < n <= |t.raw| && |t.done| <= top <= n && Serves(c.hist)
    ensures r.raw == t.raw && |r.done| == top && t.done <= r.done
  {
    var va := if c.cvn then TrueDeviation(t.raw, n, c, prior) else 1.0;
    Track(t.raw, t.done + NormedRows(t.raw, |t.done|, top, TrueMean(t.raw, n, c, prior.mean), va, c.cvn))
  }

  /** Gathers the statistics of one table up to row `n` and normalises it up to row `top`. */
  method NormTable(s: Table, off: nat, from: nat, n: nat, normed: nat, top: nat, c: Config, ghost t: Track)
    returns (r: Table, ghost rt: Track)
    requires TableOk(s, off, t, from, c.cvn) && from <= n <= |t.raw| && n > 0 && Serves(c.hist)
    requires normed == |t.done| <= top <= n
    ensures rt == NormedTrack(t, n, top, c, s.prior)
    ensures TableOk(r, off, rt, n, c.cvn) && r.prior == s.prior
  {
    hide AccOk, Live, TrueMean, TrueDeviation, NormedRows;
    var g := Gather(s, off, from, n, c.cvn, t);
    var mu, va := Statistics(g, n, c, t.raw);
    if !c.cvn { va := 1.0; }
    r, rt := Normalise(g, off, normed, top, mu, va, c.cvn, t, n);
  }

  // ---------------------------------------------------------------- indices

  /** ROWS the statistics may cover once `n` frames are there. */
  function Covered(n: nat, end: bool): int { if end then n else n - 4 }

  /** ROWS normalised once the statistics cover `n` rows. */
  function Due(n: int, end: bool, c: Config): int {
    if end || n > c.delayOff then n else n - c.delay
  }

  function Max(a: nat, b: int): nat { if a < b then b else a }

  /** A call on `n` frames leaves every delta row that later acceleration rows read as computed. */
  predicate Quiet(n: nat, c: Config) {
    n <= 4 || (n - 4 <= c.delayOff && (c.delay >= 2 || (c.delay == 1 && n == 5)))
  }

  /** Quiet says exactly that the first row the next acceleration loop reads is not normalised. */
  lemma QuietExact(n: nat, c: Config, normed: nat)
    requires normed <= First(n, 6)
    ensures Max(normed, Due(Covered(n, false), false, c)) <= First(n, 6) <==> Quiet(n, c)
  {
  }

  /** Difference rows `d` are the slopes of column `b`. */
  ghost predicate SlopesOf(d: seq<real>, b: seq<real>) {
    |d| <= |b| && forall k :: 0 <= k < |d| ==> d[k] == Slope(b, k)
  }

  /** New difference rows come from a column whose rows from `from` on are as computed. */
  lemma SlopesGrow(d: seq<real>, b: seq<real>, d2: seq<real>, b2: seq<real>, t: Track)
    requires SlopesOf(d, b) && |d| <= First(|b|, 2) && b <= b2 && d <= d2 && |d2| <= |b2|
    requires t.raw == b2 && |t.done| <= |b2| && |t.done| <= First(|d|, 2)
    requires forall k :: |d| <= k < |d2| ==> d2[k] == Slope(t.Column(), k)
    ensures SlopesOf(d2, b2)
  {
    hide Slope;
    forall k | 0 <= k < |d2| ensures d2[k] == Slope(b2, k) {
      if k < |d| { SlopeExtends(b, b2, k); } else { SlopeNear(t.Column(), b2, k, |t.done|); }
    }
  }

  // ---------------------------------------------------------------- AddBuf, piece by piece

  /** The samples and `k` more do not fit behind frame `off`. */
  predicate Over(samples: nat, k: nat, off: int, shift: nat) {
    samples + k - off * shift > MAX_SPEECH * shift + shift
  }

  /** One feature computed from the sample buffer. */
  method FrameOf(wave: seq<real>, off: nat, i: nat, front: seq<real> -> real, len: nat, shift: nat, ghost signal: seq<real>)
    returns (x: real)
    requires Buffered(wave, signal, off, shift) && off <= i && i * shift + len <= |signal|
    ensures x == Feature(front, signal, i, len, shift)
  {
    Times(off, i, shift);
    var at := i * shift - off * shift;
    assert wave[at..at + len] == signal[i * shift..i * shift + len];
    x := front(wave[at..at + len]);
  }

  /** Computes the frames from `from` to `to`. */
  method FillBase(s: Table, wave: seq<real>, off: nat, from: nat, to: nat, front: seq<real> -> real, len: nat, shift: nat,
                  ghost t: Track, ghost signal: seq<real>, ghost m: nat, ghost cvn: bool)
    returns (r: Table, ghost rt: Track)
    requires TableOk(s, off, t, m, cvn) && off <= |t.raw| == from <= to && to - off <= MAX_SPEECH + 1
    requires shift > 0 && Buffered(wave, signal, off, shift) && to == FrameCount(|signal|, len, shift)
    ensures TableOk(r, off, rt, m, cvn) && rt.done == t.done && t.raw <= rt.raw && |rt.raw| == to
    ensures forall i :: from <= i < to ==> rt.raw[i] == Feature(front, signal, i, len, shift)
  {
    hide AccOk, Feature, Buffered, FrameCount;
    var rows := s.rows;
    ghost var raw := t.raw;
    for i := from to to
      invariant |rows| == ROWS && |raw| == i && t.raw <= raw
      invariant forall j :: from <= j < i ==> raw[j] == Feature(front, signal, j, len, shift) == rows[Slot(j, off)]
      invariant forall k :: 0 <= k < ROWS && !(from <= k - LEFT_CONTEXT + off < i) ==> rows[k] == s.rows[k]
    {
      FrameFits(i, |signal|, len, shift);
      var x := FrameOf(wave, off, i, front, len, shift, signal);
      rows, raw := rows[Slot(i, off) := x], raw + [x];
    }
    r, rt := s.(rows := rows), Track(raw, t.done);
    ExtendLive(s.rows, rows, off, t, rt);
    CountedExtends(s, r, t.raw, raw, m, cvn);
  }

  /** Moves the rows of a table `newOff - off` places down. */
  method ShiftTable(s: Table, off: nat, newOff: nat, ghost t: Track, ghost m: nat, ghost cvn: bool) returns (r: Table)
    requires TableOk(s, off, t, m, cvn) && off <= newOff && Oldest(newOff) <= |t.done| && newOff - off <= ROWS
    ensures TableOk(r, newOff, t, m, cvn) && r.prior == s.prior
  {
    hide AccOk;
    var k := newOff - off;
    r := s.(rows := s.rows[k..] + s.rows[ROWS - k..]);
    forall i | Oldest(newOff) <= i < |t.raw| ensures r.rows[Slot(i, newOff)] == t.Column()[i] {
      assert r.rows[Slot(i, newOff)] == s.rows[Slot(i, off)];
    }
  }

  /** After a shift, or none, the frames there will be fit the tables. */
  lemma FramesFit(samples: nat, len: nat, shift: nat, off: nat, n: nat)
    requires shift > 0 && len > 0 && n == FrameCount(samples, len, shift) && !Over(samples, 0, off, shift)
    ensures n - off <= MAX_SPEECH + 1
  {
    if n > off + MAX_SPEECH + 1 {
      FrameFits(off + MAX_SPEECH + 1, samples, len, shift);
    }
  }

  /** A shift never goes backwards: it would not have made room. */
  lemma ShiftForward(samples: nat, k: nat, off: int, newOff: int, shift: nat)
    requires Over(samples, k, off, shift) && !Over(samples, k, newOff, shift)
    ensures off < newOff
  {
    if newOff <= off { Product(off - newOff, shift, off * shift - newOff * shift); }
  }

  lemma Product(a: int, m: nat, p: int)
    requires a >= 0 && p == a * m
    ensures p >= 0
  {
  }

  lemma ShiftBuffered(wave: seq<real>, signal: seq<real>, off: nat, newOff: nat, shift: nat)
    requires Buffered(wave, signal, off, shift) && off <= newOff && newOff * shift <= |signal|
    ensures off * shift <= newOff * shift && newOff * shift - off * shift <= |wave|
    ensures Buffered(wave[newOff * shift - off * shift..], signal, newOff, shift)
  {
    Times(off, newOff, shift);
  }

  /** A chunk this short is always taken. */
  lemma ShortIsTaken(samples: nat, k: nat, off: nat, n: nat, len: nat, shift: nat)
    requires shift > 0 && n == FrameCount(samples, len, shift)
    requires k + len <= (MAX_SPEECH + 1 - KEPT_ON_SHIFT) * shift
    ensures !Over(samples, k, n - KEPT_ON_SHIFT, shift)
  {
    FrameFits(n, samples, len, shift);
    assert (n - KEPT_ON_SHIFT) * shift == n * shift - KEPT_ON_SHIFT * shift;
    assert (MAX_SPEECH + 1 - KEPT_ON_SHIFT) * shift == MAX_SPEECH * shift + shift - KEPT_ON_SHIFT * shift;
  }

  lemma FeaturedGrows(raw: seq<real>, raw2: seq<real>, front: seq<real> -> real, s: seq<real>, s2: seq<real>, len: nat, shift: nat)
    requires shift > 0 && Featured(raw, front, s, len, shift) && s <= s2 && raw <= raw2
    requires |raw2| == FrameCount(|s2|, len, shift)
    requires forall i :: |raw| <= i < |raw2| ==> raw2[i] == Feature(front, s2, i, len, shift)
    ensures Featured(raw2, front, s2, len, shift)
  {
    hide FrameCount, Feature;
    forall i | 0 <= i < |raw| ensures raw2[i] == Feature(front, s2, i, len, shift) {
      FrameFits(i, |s|, len, shift);
      FeatureExtends(front, s, s2, i, len, shift);
    }
  }

  lemma CountGrows(s: nat, s2: nat, len: nat, shift: nat)
    requires shift > 0 && s <= s2
    ensures FrameCount(s, len, shift) <= FrameCount(s2, len, shift)
  {
    var n := FrameCount(s, len, shift);
    if n > 0 {
      FrameFits(n - 1, s, len, shift);
      FrameFits(n - 1, s2, len, shift);
    }
  }

  /** Every whole frame of the kept part starts inside the signal. */
  lemma KeptStarts(samples: nat, len: nat, shift: nat, n: nat, off: nat)
    requires shift > 0 && n == FrameCount(samples, len, shift) && off <= n - 1
    ensures off * shift <= samples
  {
    FrameFits(off, samples, len, shift);
  }

  // ---------------------------------------------------------------- the extractor

  /** The index fields of the extractor. */
  datatype Indices = Indices(
    samples: nat,     // samples taken so far
    offset: nat,      // first frame of the tables
    nFrame: nat,      // frames computed
    baseFrame: nat,   // frames the difference tables have seen
    meanIdx: nat,     // rows in the sums
    varIdx: nat,      // rows in the sums of squares
    normedIdx: nat,   // rows normalised
    normCnt: nat)

  /** What happened since Resume: every sample taken, the three tables, whether a call normalised a delta
      row still to be read, and whether the utterance has ended. */
  datatype History = History(signal: seq<real>, b: Track, d: Track, a: Track, quiet: bool, ended: bool)

  ghost predicate Tables(base: Table, delta: Table, acce: Table, at: Indices, h: History, cvn: bool) {
    && TableOk(base, at.offset, h.b, at.meanIdx, cvn)
    && TableOk(delta, at.offset, h.d, at.meanIdx, cvn)
    && TableOk(acce, at.offset, h.a, at.meanIdx, cvn)
  }

  ghost predicate Marks(at: Indices, h: History, cvn: bool) {
    && at.normCnt == at.meanIdx && at.varIdx == (if cvn then at.meanIdx else 0)
    && |h.b.done| == |h.d.done| == |h.a.done| == at.normedIdx <= at.meanIdx
    && |h.b.raw| == at.nFrame && at.offset <= at.nFrame <= at.offset + MAX_SPEECH + 1 && Oldest(at.offset) <= at.normedIdx
  }

  ghost predicate Progress(at: Indices, h: History) {
    if h.ended then at.baseFrame == at.nFrame == |h.d.raw| == |h.a.raw| == at.meanIdx == at.normedIdx
    else
      && at.baseFrame <= at.nFrame && |h.d.raw| == First(at.baseFrame, 2)
      && |h.a.raw| == First(at.baseFrame, 4) == at.meanIdx && Oldest(at.offset) <= First(at.baseFrame, 6)
      && (h.quiet ==> at.normedIdx <= First(at.baseFrame, 6))
  }

  ghost predicate Inputs(wave: seq<real>, at: Indices, h: History, front: seq<real> -> real, len: nat, shift: nat) {
    && shift > 0 && len > 0 && at.samples == |h.signal|
    && Buffered(wave, h.signal, at.offset, shift) && Featured(h.b.raw, front, h.signal, len, shift)
  }

  /** Delta rows are the slopes of the features, acceleration rows those of the deltas while quiet. */
  ghost predicate Content(h: History) {
    SlopesOf(h.d.raw, h.b.raw) && (h.quiet ==> SlopesOf(h.a.raw, h.d.raw))
  }

  // ---------------------------------------------------------------- Norm_Diff2, piece by piece

  /** The state between the difference loops and Norm. */
  ghost predicate Caught(at: Indices, h: History, end: bool) {
    && |h.d.raw| == Past(at.nFrame, 2, end) && |h.a.raw| == Past(at.nFrame, 4, end) && at.meanIdx <= |h.a.raw|
  }

  function NormedIndices(at: Indices, end: bool, c: Config): Indices {
    var n := Covered(at.nFrame, end);
    var to := Max(at.meanIdx, n);
    at.(meanIdx := to, normCnt := at.normCnt + (to - at.meanIdx),
        varIdx := if c.cvn then Max(at.varIdx, n) else at.varIdx,
        normedIdx := if at.normCnt + (to - at.meanIdx) > 0 then Max(at.normedIdx, Due(n, end, c)) else at.normedIdx)
  }

  /** Table `t` was normalised on from the rows `done` with the statistics of its own rows as computed. */
  ghost predicate NormedFrom(done: seq<real>, t: Track, n: nat, top: nat, c: Config, prior: Prior) {
    && Serves(c.hist) && CanNorm(Track(t.raw, done), n, top)
    && t == if n == 0 then Track(t.raw, done) else NormedTrack(Track(t.raw, done), n, top, c, prior)
  }

  /** What a call does to the rows it normalises: each can be had back from its normalised value, and without prior
      weight a window that lies among them is standardised. */
  ghost predicate Settles(done: seq<real>, t: Track, n: nat, top: nat, c: Config, prior: Prior) {
    && Serves(c.hist) && |t.done| == top && done <= t.done
    && (n > 0 ==> Restores(t, |done|, top, n, c, prior))
    && (n == 0 ==> t.done == done)
    && (n > 0 && c.weight == 0 && n == top && |done| <= WindowStart(n, c.hist) ==> Standardised(t, n, c, prior))
  }

  lemma NormedSettles(done: seq<real>, t: Track, n: nat, top: nat, c: Config, prior: Prior)
    requires NormedFrom(done, t, n, top, c, prior)
    ensures Settles(done, t, n, top, c, prior)
  {
    if n > 0 {
      NormedRestores(done, t, n, top, c, prior);
      hide NormedFrom, Restores, Standardised;
      if c.weight == 0 && n == top && |done| <= WindowStart(n, c.hist) {
        RestoresLater(t, |done|, WindowStart(n, c.hist), n, c, prior);
        OneCall(t, n, c, prior);
      }
    }
  }

  lemma RestoresLater(t: Track, from: nat, later: nat, n: nat, c: Config, prior: Prior)
    requires Restores(t, from, n, n, c, prior) && from <= later
    ensures Restores(t, later, n, n, c, prior)
  {
    hide Divisor, TrueMean;
  }

  lemma NormedRestores(done: seq<real>, t: Track, n: nat, top: nat, c: Config, prior: Prior)
    requires NormedFrom(done, t, n, top, c, prior) && n > 0
    ensures |t.done| == top && done <= t.done && Restores(t, |done|, top, n, c, prior)
  {
    hide TrueMean, TrueDeviation, Normed, NormedRows;
    var mu, va := TrueMean(t.raw, n, c, prior.mean), Divisor(t.raw, n, c, prior);
    var news := NormedRows(t.raw, |done|, top, mu, va, c.cvn);
    assert t.done == done + news;
    forall j | |done| <= j < top ensures t.done[j] * va + mu == t.raw[j] {
      assert t.done[j] == news[j - |done|];
      NormedUndone(t.raw[j], mu, va, c.cvn);
    }
  }

  ghost predicate CanNorm(t: Track, n: nat, top: nat) { n <= |t.raw| && |t.done| <= top <= n }

  /** ROWS below the end of the tables enter the statistics; those that are due are normalised. */
  method NormAll(base: Table, delta: Table, acce: Table, at: Indices, end: bool, c: Config, ghost h: History)
    returns (ts: (Table, Table, Table), r: Indices, ghost rh: History)
    requires Serves(c.hist) && Tables(base, delta, acce, at, h, c.cvn) && Marks(at, h, c.cvn) && Caught(at, h, end)
    ensures r == NormedIndices(at, end, c)
    ensures rh == h.(b := rh.b, d := rh.d, a := rh.a)
    ensures rh.b.raw == h.b.raw && NormedFrom(h.b.done, rh.b, r.meanIdx, r.normedIdx, c, base.prior)
    ensures rh.d.raw == h.d.raw && NormedFrom(h.d.done, rh.d, r.meanIdx, r.normedIdx, c, delta.prior)
    ensures rh.a.raw == h.a.raw && NormedFrom(h.a.done, rh.a, r.meanIdx, r.normedIdx, c, acce.prior)
    ensures Tables(ts.0, ts.1, ts.2, r, rh, c.cvn) && Marks(r, rh, c.cvn)
    ensures ts.0.prior == base.prior && ts.1.prior == delta.prior && ts.2.prior == acce.prior
  {
    hide TableOk, NormedTrack;
    r := NormedIndices(at, end, c);
    if r.normCnt > 0 {
      var n, top := r.meanIdx, r.normedIdx;
      var x, xt := NormTable(base, at.offset, at.meanIdx, n, at.normedIdx, top, c, h.b);
      var y, yt := NormTable(delta, at.offset, at.meanIdx, n, at.normedIdx, top, c, h.d);
      var z, zt := NormTable(acce, at.offset, at.meanIdx, n, at.normedIdx, top, c, h.a);
      ts, rh := (x, y, z), h.(b := xt, d := yt, a := zt);
    } else {
      ts, rh := (base, delta, acce), h;
    }
  }

  /** New acceleration rows are the slopes of the delta column as it stood: normalised in front, as
      computed behind. */
  ghost predicate ReadsColumn(h: History, r: History) {
    && |h.a.raw| <= |r.a.raw| <= |r.d.raw| && |h.d.done| <= |r.d.raw|
    && forall k :: |h.a.raw| <= k < |r.a.raw| ==> r.a.raw[k] == Slope(Track(r.d.raw, h.d.done).Column(), k)
  }

  /** Both difference loops. */
  method Differences(base: Table, delta: Table, acce: Table, at: Indices, end: bool, c: Config, ghost h: History)
    returns (ts: (Table, Table), ghost r: History)
    requires Tables(base, delta, acce, at, h, c.cvn) && Marks(at, h, c.cvn) && Progress(at, h) && !h.ended
    requires Content(h)
    ensures Tables(base, ts.0, ts.1, at, r, c.cvn) && Caught(at, r, end) && Marks(at, r, c.cvn) && Content(r)
    ensures ts.0.prior == delta.prior && ts.1.prior == acce.prior
    ensures r == h.(d := r.d, a := r.a) && r.d.done == h.d.done && r.a.done == h.a.done
    ensures h.d.raw <= r.d.raw && h.a.raw <= r.a.raw && ReadsColumn(h, r)
  {
    hide TableOk, SlopesOf, Slope;
    var x, xt := Extend(base, delta, at.offset, at.baseFrame, at.nFrame, end, 2, c.cvn, at.meanIdx, h.b, h.d);
    SlopesGrow(h.d.raw, h.b.raw, xt.raw, h.b.raw, h.b);
    var y, yt := Extend(x, acce, at.offset, at.baseFrame, at.nFrame, end, 4, c.cvn, at.meanIdx, xt, h.a);
    if h.quiet { SlopesGrow(h.a.raw, h.d.raw, yt.raw, xt.raw, xt); }
    ts, r := (x, y), h.(d := xt, a := yt);
  }

  /** The flags and the frames seen by the loops do not matter to the tables. */
  lemma Relabelled(base: Table, delta: Table, acce: Table, at: Indices, h: History, at2: Indices, h2: History, cvn: bool)
    requires Tables(base, delta, acce, at, h, cvn) && Marks(at, h, cvn)
    requires h.b == h2.b && h.d == h2.d && h.a == h2.a && at2 == at.(baseFrame := at2.baseFrame)
    ensures Tables(base, delta, acce, at2, h2, cvn) && Marks(at2, h2, cvn)
  {
    hide TableOk;
  }

  lemma SameInputs(wave: seq<real>, at: Indices, h: History, at2: Indices, h2: History,
                   front: seq<real> -> real, len: nat, shift: nat)
    requires Inputs(wave, at, h, front, len, shift)
    requires at2.samples == at.samples && at2.offset == at.offset && h2.signal == h.signal && h2.b.raw == h.b.raw
    ensures Inputs(wave, at2, h2, front, len, shift)
  {
  }

  /** After a call the tables are where the next one expects them. */
  lemma MovedOn(at: Indices, at2: Indices, h: History, mid: History, last: History, end: bool, c: Config)
    requires Marks(at, h, c.cvn) && Progress(at, h) && !h.ended && Caught(at, mid, end) && Content(mid)
    requires mid.quiet == h.quiet && at2 == NormedIndices(at.(baseFrame := at.nFrame), end, c)
    requires last.b.raw == mid.b.raw && last.d.raw == mid.d.raw && last.a.raw == mid.a.raw
    requires last.ended == end && last.quiet == (h.quiet && (end || Quiet(at.nFrame, c)))
    requires ReadsColumn(h, mid)
    ensures ReadsColumn(h, last)
    ensures Progress(at2, last) && Content(last) && at2.samples == at.samples && at2.offset == at.offset && at2.nFrame == at.nFrame
  {
    hide SlopesOf;
    if h.quiet && !end { QuietExact(at.nFrame, c, at.normedIdx); }
  }

  // ---------------------------------------------------------------- shifting and appending

  /** Moving the tables on to frame `newOff` drops a row that Norm_Diff2 is still to read. */
  predicate Drops(at: Indices, newOff: int) {
    newOff - LEFT_CONTEXT > at.normedIdx || newOff - LEFT_CONTEXT > First(at.baseFrame, 6)
  }

  /** The row is in front of the table: its slot is negative. */
  lemma DropsExact(at: Indices, newOff: nat)
    ensures Drops(at, newOff) <==> Slot(at.normedIdx, newOff) < 0 || Slot(First(at.baseFrame, 6), newOff) < 0
  {
  }

  /** And the next call with the end flag uses both rows: its acceleration loop computes row First(baseFrame, 4)
      from row First(baseFrame, 6), and its normalisation starts at row normedIdx. */
  lemma EndUsesBoth(at: Indices, n: nat, c: Config)
    requires at.normedIdx <= First(at.baseFrame, 4) && at.baseFrame <= n && n > 0
    ensures First(at.baseFrame, 4) < Past(n, 4, true) && Clamp(First(at.baseFrame, 4) - 2, n) == First(at.baseFrame, 6)
    ensures at.normedIdx < Due(Covered(n, true), true, c)
  {
  }

  /** The tables and the sample buffer moved on to start at frame `newOff`. */
  method ShiftAll(base: Table, delta: Table, acce: Table, wave: seq<real>, at: Indices, newOff: nat, shift: nat,
                  ghost h: History, ghost cvn: bool, ghost front: seq<real> -> real, ghost len: nat)
    returns (ts: (Table, Table, Table), w: seq<real>, r: Indices)
    requires Tables(base, delta, acce, at, h, cvn) && Marks(at, h, cvn) && Progress(at, h) && !h.ended
    requires Inputs(wave, at, h, front, len, shift)
    requires at.offset < newOff <= at.nFrame && !Drops(at, newOff) && newOff * shift <= at.samples
    ensures r == at.(offset := newOff)
    ensures Tables(ts.0, ts.1, ts.2, r, h, cvn) && Marks(r, h, cvn) && Progress(r, h) && ts.1.prior == delta.prior
    ensures Inputs(w, r, h, front, len, shift)
  {
    hide TableOk, Featured, Buffered;
    var x := ShiftTable(base, at.offset, newOff, h.b, at.meanIdx, cvn);
    var y := ShiftTable(delta, at.offset, newOff, h.d, at.meanIdx, cvn);
    var z := ShiftTable(acce, at.offset, newOff, h.a, at.meanIdx, cvn);
    ShiftBuffered(wave, h.signal, at.offset, newOff, shift);
    ts, w, r := (x, y, z), wave[newOff * shift - at.offset * shift..], at.(offset := newOff);
  }

  /** Appends the chunk and computes the frames it completes. */
  method Append(base: Table, wave: seq<real>, at: Indices, chunk: seq<real>, front: seq<real> -> real, len: nat, shift: nat,
                ghost delta: Table, ghost acce: Table, ghost h: History, ghost cvn: bool)
    returns (x: Table, w: seq<real>, r: Indices, ghost rh: History)
    requires Tables(base, delta, acce, at, h, cvn) && Marks(at, h, cvn) && Progress(at, h) && !h.ended
    requires Inputs(wave, at, h, front, len, shift) && Content(h)
    requires !Over(at.samples, |chunk|, at.offset, shift)
    ensures rh == h.(signal := h.signal + chunk, b := rh.b) && rh.b.done == h.b.done && h.b.raw <= rh.b.raw
    ensures r == at.(samples := at.samples + |chunk|, nFrame := FrameCount(at.samples + |chunk|, len, shift))
    ensures Tables(x, delta, acce, r, rh, cvn) && Marks(r, rh, cvn) && Progress(r, rh)
    ensures Inputs(w, r, rh, front, len, shift) && Content(rh)
  {
    hide TableOk, FrameCount, Feature, SlopesOf, Over;
    w := wave + chunk;
    ghost var signal := h.signal + chunk;
    assert w == signal[at.offset * shift..];
    var n := FrameCount(at.samples + |chunk|, len, shift);
    CountGrows(|h.signal|, |signal|, len, shift);
    TotalOver(at.samples, |chunk|, at.offset, shift);
    FramesFit(|signal|, len, shift, at.offset, n);
    ghost var xt;
    x, xt := FillBase(base, w, at.offset, at.nFrame, n, front, len, shift, h.b, signal, at.meanIdx, cvn);
    FeaturedGrows(h.b.raw, xt.raw, front, h.signal, signal, len, shift);
    SlopesStay(h.d.raw, h.b.raw, xt.raw);
    r, rh := at.(samples := at.samples + |chunk|, nFrame := n), h.(signal := signal, b := xt);
  }

  lemma ShiftStarts(wave: seq<real>, at: Indices, h: History, newOff: nat, front: seq<real> -> real, len: nat, shift: nat, cvn: bool)
    requires Inputs(wave, at, h, front, len, shift) && Marks(at, h, cvn) && newOff < at.nFrame
    ensures newOff * shift <= at.samples
  {
    hide FrameCount, Buffered, Feature;
    KeptStarts(at.samples, len, shift, at.nFrame, newOff);
  }

  lemma TotalOver(samples: nat, k: nat, off: int, shift: nat)
    ensures Over(samples, k, off, shift) == Over(samples + k, 0, off, shift)
  {
  }

  lemma SlopesStay(d: seq<real>, b: seq<real>, b2: seq<real>)
    requires SlopesOf(d, b) && |d| <= First(|b|, 2) && b <= b2
    ensures SlopesOf(d, b2)
  {
    hide Slope;
    forall k | 0 <= k < |d| ensures d[k] == Slope(b2, k) { SlopeExtends(b, b2, k); }
  }

  // ---------------------------------------------------------------- what becomes of the indices

  /** AddBuf refuses `k` samples. */
  predicate Refuses(at: Indices, k: nat, shift: nat) {
    Over(at.samples, k, at.offset, shift) && Over(at.samples, k, at.nFrame - KEPT_ON_SHIFT, shift)
  }

  /** AddBuf takes `k` samples by a shift that drops a row still to be read. */
  predicate Loses(at: Indices, k: nat, shift: nat) {
    && Over(at.samples, k, at.offset, shift) && !Over(at.samples, k, at.nFrame - KEPT_ON_SHIFT, shift)
    && Drops(at, at.nFrame - KEPT_ON_SHIFT)
  }

  /** The indices after AddBuf. */
  function Added(at: Indices, k: nat, len: nat, shift: nat): Indices
    requires shift > 0
  {
    if Refuses(at, k, shift) then at else
      at.(samples := at.samples + k, nFrame := FrameCount(at.samples + k, len, shift),
          offset := if Over(at.samples, k, at.offset, shift) then Max(0, at.nFrame - KEPT_ON_SHIFT) else at.offset)
  }

  class Extractor {
    const c: Config
    const len: nat
    const shift: nat
    const front: seq<real> -> real
    var wave: seq<real>     // samples from frame `at.offset` on
    var at: Indices
    var base: Table
    var delta: Table
    var acce: Table
    var lost: bool          // a row still to be read was dropped; nothing is known until Resume
    ghost var h: History

    ghost predicate Valid()
      reads this
    {
      && Serves(c.hist) && Tables(base, delta, acce, at, h, c.cvn) && Marks(at, h, c.cvn) && Progress(at, h)
      && Inputs(wave, at, h, front, len, shift) && Content(h)
    }

    constructor (c: Config, len: nat, shift: nat, front: seq<real> -> real, base: Table, delta: Table, acce: Table)
      requires Serves(c.hist) && shift > 0 && len > 0
      requires Sized(base) && Sized(delta) && Sized(acce)
      ensures Valid() && this.c == c && this.len == len && this.shift == shift && this.front == front
      ensures c.weight == 0 ==> this.base.prior == this.delta.prior == this.acce.prior == Prior(0.0, 0.0)
      ensures c.weight > 0 ==> this.base.prior == base.prior && this.delta.prior == delta.prior && this.acce.prior == acce.prior
      ensures h == Nothing() && !lost && at == Indices(0, 0, 0, 0, 0, 0, 0, 0)
    {
      this.c, this.len, this.shift, this.front := c, len, shift, front;
      this.base, this.delta, this.acce := base, delta, acce;
      new;
      Resume();
    }

    /** Starts the next utterance. The rings and rows keep what they held. */
    method Resume()
      requires Serves(c.hist) && shift > 0 && len > 0 && Sized(base) && Sized(delta) && Sized(acce)
      modifies this
      ensures Valid() && h == Nothing() && !lost && at == Indices(0, 0, 0, 0, 0, 0, 0, 0)
      ensures c.weight > 0 ==> base.prior == old(base.prior) && delta.prior == old(delta.prior) && acce.prior == old(acce.prior)
      ensures c.weight == 0 ==> base.prior == delta.prior == acce.prior == Prior(0.0, 0.0)
    {
      hide TableOk, Featured, Buffered, SlopesOf;
      EmptyTable(base, c.weight, c.cvn);
      EmptyTable(delta, c.weight, c.cvn);
      EmptyTable(acce, c.weight, c.cvn);
      EmptyInput(front, len, shift);
      wave, at := [], Indices(0, 0, 0, 0, 0, 0, 0, 0);
      base, delta, acce := Cleared(base, c.weight), Cleared(delta, c.weight), Cleared(acce, c.weight);
      h, lost := Nothing(), false;
    }

    /** Takes a chunk of samples, shifting the tables when they are full; refuses it when even that
        does not make room. */
    method AddBuf(chunk: seq<real>) returns (ok: bool)
      requires Valid() && !h.ended && !lost
      modifies this`wave, this`base, this`delta, this`acce, this`at, this`h, this`lost
      ensures ok == !(Over(old(at).samples, |chunk|, old(at).offset, shift) &&
                      Over(old(at).samples, |chunk|, old(at).nFrame - KEPT_ON_SHIFT, shift))
      ensures lost <==> ok && Over(old(at).samples, |chunk|, old(at).offset, shift) &&
                        Drops(old(at), old(at).nFrame - KEPT_ON_SHIFT)
      ensures !lost ==> Valid()
      ensures ok && !lost ==>
        && h == old(h).(signal := old(h).signal + chunk, b := h.b) && h.b.done == old(h).b.done && old(h).b.raw <= h.b.raw
        && at == old(at).(samples := |h.signal|, nFrame := |h.b.raw|, offset := at.offset)
        && at.offset == (if Over(old(at).samples, |chunk|, old(at).offset, shift) then old(at).nFrame - KEPT_ON_SHIFT else old(at).offset)
      ensures !lost ==> at == Added(old(at), |chunk|, len, shift)
      ensures delta.prior == old(delta.prior)
      ensures !ok ==> wave == old(wave) && at == old(at) && h == old(h) && base == old(base) && delta == old(delta) && acce == old(acce)
    {
      hide Tables, Progress, Content, Over, FrameCount, Buffered, Featured, Drops;
      var newOff := at.offset as int;
      var b1, d1, a1, w1, at1 := base, delta, acce, wave, at;
      if Over(at.samples, |chunk|, at.offset, shift) {
        newOff := at.nFrame - KEPT_ON_SHIFT;
        if Over(at.samples, |chunk|, newOff, shift) {
          return false;
        }
        ShiftForward(at.samples, |chunk|, at.offset, newOff, shift);
        assert Max(0, newOff) == newOff;
        if Drops(at, newOff) {
          lost := true;
          return true;
        }
        ShiftStarts(wave, at, h, newOff, front, len, shift, c.cvn);
        var ts, w, r := ShiftAll(base, delta, acce, wave, at, newOff, shift, h, c.cvn, front, len);
        b1, d1, a1, w1, at1 := ts.0, ts.1, ts.2, w, r;
      }
      var x, w, r, rh := Append(b1, w1, at1, chunk, front, len, shift, d1, a1, h, c.cvn);
      wave, base, delta, acce, at := w, x, d1, a1, r;
      h := rh;
      return true;
    }

    /** Norm_Diff2: the difference tables catch up, then the rows that are due are normalised. */
    method NormDiff2(end: bool)
      requires Valid() && !h.ended && !lost
      modifies this`base, this`delta, this`acce, this`at, this`h
      ensures Valid() && h.ended == end
      ensures at == NormedIndices(old(at).(baseFrame := old(at).nFrame), end, c)
      ensures h.signal == old(h).signal && h.b.raw == old(h).b.raw
      ensures h.quiet == (old(h).quiet && (end || Quiet(at.nFrame, c)))
      ensures old(h).d.raw <= h.d.raw && old(h).a.raw <= h.a.raw && ReadsColumn(old(h), h)
      ensures NormedFrom(old(h).b.done, h.b, at.meanIdx, at.normedIdx, c, base.prior) && base.prior == old(base.prior)
      ensures NormedFrom(old(h).d.done, h.d, at.meanIdx, at.normedIdx, c, delta.prior) && delta.prior == old(delta.prior)
      ensures NormedFrom(old(h).a.done, h.a, at.meanIdx, at.normedIdx, c, acce.prior) && acce.prior == old(acce.prior)
      ensures Settles(old(h).b.done, h.b, at.meanIdx, at.normedIdx, c, base.prior)
      ensures Settles(old(h).d.done, h.d, at.meanIdx, at.normedIdx, c, delta.prior)
      ensures Settles(old(h).a.done, h.a, at.meanIdx, at.normedIdx, c, acce.prior)
    {
      hide Tables, Marks, Progress, Inputs, Content, NormedIndices, NormedFrom, Quiet, ReadsColumn, Settles;
      var tables, mid := Differences(base, delta, acce, at, end, c, h);
      var at1 := at.(baseFrame := at.nFrame);
      Relabelled(base, tables.0, tables.1, at, mid, at1, mid, c.cvn);
      var tables2, at2, fin := NormAll(base, tables.0, tables.1, at1, end, c, mid);
      ghost var last := fin.(quiet := h.quiet && (end || Quiet(at.nFrame, c)), ended := end);
      MovedOn(at, at2, h, mid, last, end, c);
      Relabelled(tables2.0, tables2.1, tables2.2, at2, fin, at2, last, c.cvn);
      SameInputs(wave, at, h, at2, last, front, len, shift);
      NormedSettles(h.b.done, last.b, at2.meanIdx, at2.normedIdx, c, base.prior);
      NormedSettles(h.d.done, last.d, at2.meanIdx, at2.normedIdx, c, delta.prior);
      NormedSettles(h.a.done, last.a, at2.meanIdx, at2.normedIdx, c, acce.prior);
      base, delta, acce := tables2.0, tables2.1, tables2.2;
      at, h := at2, last;
    }
  }

  ghost function Nothing(): History { History([], Track([], []), Track([], []), Track([], []), true, false) }

  predicate Sized(t: Table) { |t.rows| == ROWS && |t.mean.pot| == |t.square.pot| == SUM_SIZE }

  lemma EmptyTable(t: Table, weight: nat, cvn: bool)
    requires Sized(t)
    ensures TableOk(Cleared(t, weight), 0, Track([], []), 0, cvn)
  {
  }

  lemma EmptyInput(front: seq<real> -> real, len: nat, shift: nat)
    requires len > 0 && shift > 0
    ensures Featured([], front, [], len, shift) && Buffered([], [], 0, shift) && SlopesOf([], [])
  {
  }

  /** Zero sums; without a prior weight the prior is zero as well. */
  function Cleared(t: Table, weight: nat): (r: Table)
  {
    Table(t.rows, Acc(0.0, t.mean.pot), Acc(0.0, t.square.pot), if weight == 0 then Prior(0.0, 0.0) else t.prior)
  }

  // ---------------------------------------------------------------- whole utterances

  /** The feature column of a signal. */
  ghost function Features(front: seq<real> -> real, signal: seq<real>, len: nat, shift: nat): seq<real>
    requires shift > 0
  {
    seq(FrameCount(|signal|, len, shift), i requires 0 <= i => Feature(front, signal, i, len, shift))
  }

  lemma TableSized(s: Table, off: nat, t: Track, m: nat, cvn: bool)
    requires TableOk(s, off, t, m, cvn)
    ensures Sized(s)
  {
  }

  lemma FeaturedIs(raw: seq<real>, front: seq<real> -> real, signal: seq<real>, len: nat, shift: nat)
    requires shift > 0 && Featured(raw, front, signal, len, shift)
    ensures raw == Features(front, signal, len, shift)
  {
    hide Feature, FrameCount;
  }

  /** What becomes of an utterance, by the sizes of its chunks alone: the indices, whether every call was quiet,
      whether a row still to be read was dropped, and which chunks were taken. */
  datatype Course = Course(at: Indices, quiet: bool, lost: bool, taken: seq<bool>)

  function Step(p: Course, k: nat, call: bool, len: nat, shift: nat, c: Config): Course
    requires shift > 0
  {
    if p.lost then p.(taken := p.taken + [false])
    else if Loses(p.at, k, shift) then p.(lost := true, taken := p.taken + [false])
    else
      var at, taken := Added(p.at, k, len, shift), p.taken + [!Refuses(p.at, k, shift)];
      if !call then Course(at, p.quiet, false, taken)
      else Course(NormedIndices(at.(baseFrame := at.nFrame), false, c), p.quiet && Quiet(at.nFrame, c), false, taken)
  }

  function CourseOf(sizes: seq<nat>, calls: seq<bool>, len: nat, shift: nat, c: Config): (p: Course)
    requires shift > 0 && |calls| == |sizes|
    ensures |p.taken| == |sizes|
  {
    if sizes == [] then Course(Indices(0, 0, 0, 0, 0, 0, 0, 0), true, false, []) else
      var n := |sizes| - 1;
      Step(CourseOf(sizes[..n], calls[..n], len, shift, c), sizes[n], calls[n], len, shift, c)
  }

  lemma CourseStep(sizes: seq<nat>, calls: seq<bool>, len: nat, shift: nat, c: Config, k: nat)
    requires shift > 0 && |calls| == |sizes| && k < |sizes|
    ensures CourseOf(sizes[..k + 1], calls[..k + 1], len, shift, c) ==
      Step(CourseOf(sizes[..k], calls[..k], len, shift, c), sizes[k], calls[k], len, shift, c)
  {
    hide Step;
    assert sizes[..k + 1][..k] == sizes[..k] && calls[..k + 1][..k] == calls[..k];
  }

  lemma CourseWhole(sizes: seq<nat>, calls: seq<bool>, len: nat, shift: nat, c: Config)
    requires shift > 0 && |calls| == |sizes|
    ensures CourseOf(sizes[..|sizes|], calls[..|calls|], len, shift, c) == CourseOf(sizes, calls, len, shift, c)
  {
    assert sizes[..|sizes|] == sizes && calls[..|calls|] == calls;
  }

  /** What is lost stays lost. */
  lemma {:induction false} LostStays(sizes: seq<nat>, calls: seq<bool>, len: nat, shift: nat, c: Config, k: nat)
    requires shift > 0 && k <= |sizes| == |calls| && CourseOf(sizes[..k], calls[..k], len, shift, c).lost
    ensures CourseOf(sizes, calls, len, shift, c).lost
    decreases |sizes| - k
  {
    if k < |sizes| {
      CourseStep(sizes, calls, len, shift, c, k);
      LostStays(sizes, calls, len, shift, c, k + 1);
    } else {
      CourseWhole(sizes, calls, len, shift, c);
    }
  }

  function Sizes(chunks: seq<seq<real>>): (r: seq<nat>)
    ensures |r| == |chunks| && forall k :: 0 <= k < |r| ==> r[k] == |chunks[k]|
  {
    seq(|chunks|, k requires 0 <= k < |chunks| => |chunks[k]|)
  }

  /** The chunks that were taken, joined. */
  ghost function Joined(chunks: seq<seq<real>>, taken: seq<bool>): seq<real>
    requires |taken| == |chunks|
  {
    if chunks == [] then [] else
      var n := |chunks| - 1;
      Joined(chunks[..n], taken[..n]) + if taken[n] then chunks[n] else []
  }

  lemma JoinedStep(chunks: seq<seq<real>>, taken: seq<bool>, t: bool, k: nat)
    requires k < |chunks| && |taken| == k
    ensures Joined(chunks[..k + 1], taken + [t]) == Joined(chunks[..k], taken) + if t then chunks[k] else []
  {
    assert chunks[..k + 1][..k] == chunks[..k] && (taken + [t])[..k] == taken;
  }

  /** One utterance, cut into chunks in any way and with calls after any of them. The sizes alone decide which
      chunks are taken, whether a row still to be read is dropped and whether the run is quiet. Unless a row is
      dropped, the delta rows are the slopes of the features of the samples taken, each computed once, and so are
      the acceleration rows of the deltas if the run is quiet. */
  method Extract(x: Extractor, chunks: seq<seq<real>>, calls: seq<bool>)
    requires x.Valid() && |calls| == |chunks|
    modifies x
    ensures var p := CourseOf(Sizes(chunks), calls, x.len, x.shift, x.c);
      && x.lost == p.lost
      && (!p.lost ==>
            && x.Valid() && x.h.ended && x.h.signal == Joined(chunks, p.taken)
            && x.h.b.raw == Features(x.front, x.h.signal, x.len, x.shift)
            && |x.h.d.raw| == |x.h.b.raw| && SlopesOf(x.h.d.raw, x.h.b.raw)
            && |x.h.b.done| == |x.h.d.done| == |x.h.a.done| == |x.h.a.raw| == |x.h.b.raw|
            && (p.quiet ==> SlopesOf(x.h.a.raw, x.h.d.raw))
            && ((forall k :: 0 <= k < |calls| ==> !calls[k]) && x.c.weight == 0 && |x.h.b.raw| > 0 ==>
                  && Standardised(x.h.b, |x.h.b.raw|, x.c, x.base.prior)
                  && Standardised(x.h.d, |x.h.b.raw|, x.c, x.delta.prior)
                  && Standardised(x.h.a, |x.h.b.raw|, x.c, x.acce.prior)))
  {
    hide TableOk, SlopesOf, Featured, Buffered, FrameCount, Quiet, NormedFrom, ReadsColumn, NormedIndices, Features, CourseOf, Joined, Step,
         Standardised, Restores;
    TableSized(x.base, x.at.offset, x.h.b, x.at.meanIdx, x.c.cvn);
    TableSized(x.delta, x.at.offset, x.h.d, x.at.meanIdx, x.c.cvn);
    TableSized(x.acce, x.at.offset, x.h.a, x.at.meanIdx, x.c.cvn);
    x.Resume();
    ghost var sizes := Sizes(chunks);
    ghost var p := CourseStart(chunks, sizes, calls, x.len, x.shift, x.c);
    for k := 0 to |chunks|
      invariant p == CourseOf(sizes[..k], calls[..k], x.len, x.shift, x.c) && !p.lost
      invariant x.Valid() && !x.h.ended && !x.lost && x.at == p.at && x.h.quiet == p.quiet && x.h.signal == Joined(chunks[..k], p.taken)
      invariant (forall i :: 0 <= i < k ==> !calls[i]) ==> x.h.b.done == x.h.d.done == x.h.a.done == []
    {
      CourseStep(sizes, calls, x.len, x.shift, x.c, k);
      StepIs(p, sizes[k], calls[k], x.len, x.shift, x.c);
      JoinedStep(chunks, p.taken, !Refuses(p.at, sizes[k], x.shift), k);
      Feed(x, chunks[k], calls[k]);
      p := Step(p, sizes[k], calls[k], x.len, x.shift, x.c);
      if x.lost {
        LostStays(sizes, calls, x.len, x.shift, x.c, k + 1);
        return;
      }
    }
    CourseWhole(sizes, calls, x.len, x.shift, x.c);
    assert chunks[..|chunks|] == chunks;
    x.NormDiff2(true);
    FeaturedIs(x.h.b.raw, x.front, x.h.signal, x.len, x.shift);
  }

  lemma CourseStart(chunks: seq<seq<real>>, sizes: seq<nat>, calls: seq<bool>, len: nat, shift: nat, c: Config) returns (p: Course)
    requires shift > 0 && |calls| == |sizes| == |chunks|
    ensures p == CourseOf(sizes[..0], calls[..0], len, shift, c) && p == Course(Indices(0, 0, 0, 0, 0, 0, 0, 0), true, false, [])
    ensures Joined(chunks[..0], []) == []
  {
    p := CourseOf(sizes[..0], calls[..0], len, shift, c);
  }

  /** One step, part by part. */
  lemma StepIs(p: Course, k: nat, call: bool, len: nat, shift: nat, c: Config)
    requires shift > 0 && !p.lost
    ensures var q := Step(p, k, call, len, shift, c);
      && q.lost == Loses(p.at, k, shift)
      && (!q.lost ==> q.taken == p.taken + [!Refuses(p.at, k, shift)] && q.at == NextAt(p.at, k, call, len, shift, c))
      && (!q.lost ==> q.quiet == (p.quiet && (call ==> Quiet(Added(p.at, k, len, shift).nFrame, c))))
  {
    hide Loses, Added, Refuses, NormedIndices, Quiet;
  }

  /** The indices after a chunk and the call that may follow it. */
  function NextAt(at: Indices, k: nat, call: bool, len: nat, shift: nat, c: Config): Indices
    requires shift > 0
  {
    var a := Added(at, k, len, shift);
    if call then NormedIndices(a.(baseFrame := a.nFrame), false, c) else a
  }

  /** One chunk and the call that may follow it. */
  method Feed(x: Extractor, chunk: seq<real>, call: bool)
    requires x.Valid() && !x.h.ended && !x.lost
    modifies x
    ensures x.lost == Loses(old(x.at), |chunk|, x.shift)
    ensures !x.lost ==>
      && x.Valid() && !x.h.ended && x.at == NextAt(old(x.at), |chunk|, call, x.len, x.shift, x.c)
      && x.h.signal == old(x.h).signal + (if Refuses(old(x.at), |chunk|, x.shift) then [] else chunk)
      && x.delta.prior == old(x.delta.prior)
      && x.h.quiet == (old(x.h).quiet && (call ==> Quiet(Added(old(x.at), |chunk|, x.len, x.shift).nFrame, x.c)))
      && (!call ==> x.h == old(x.h).(signal := x.h.signal, b := x.h.b) && x.h.b.done == old(x.h.b.done) && x.at.baseFrame == old(x.at).baseFrame)
      && (call ==> Called(old(x.h), x.h, old(x.at), x.at, x.c, x.delta.prior))
  {
    hide TableOk, SlopesOf, Buffered, FrameCount, Feature, Quiet, NormedFrom, ReadsColumn, NormedIndices, Drops, Over, Settles;
    ghost var at, h := x.at, x.h;
    var ok := x.AddBuf(chunk);
    if !x.lost && call {
      ghost var at1, h1 := x.at, x.h;
      x.NormDiff2(false);
      SameReads(h, h1, x.h, at, at1, x.at, x.c, x.delta.prior);
    }
  }

  /** What one call leaves of the delta and acceleration tables. */
  ghost predicate Called(h: History, r: History, at: Indices, r': Indices, c: Config, prior: Prior) {
    && ReadsColumn(h, r) && h.d.raw <= r.d.raw && h.a.raw <= r.a.raw
    && r'.baseFrame == |r.b.raw| >= at.baseFrame && |r.d.raw| == First(r'.baseFrame, 2) && |r.a.raw| == First(r'.baseFrame, 4)
    && r'.normedIdx == |r.d.done| && r'.normedIdx == (if |r.a.raw| > 0 then Max(at.normedIdx, Due(r'.baseFrame - 4, false, c)) else at.normedIdx)
    && NormedFrom(h.d.done, r.d, |r.a.raw|, r'.normedIdx, c, prior)
  }

  lemma SameReads(h: History, h1: History, r: History, at: Indices, at1: Indices, at2: Indices, c: Config, prior: Prior)
    requires Marks(at, h, c.cvn) && Progress(at, h) && !h.ended && Marks(at2, r, c.cvn) && Progress(at2, r) && !r.ended
    requires at1 == at.(samples := at1.samples, nFrame := at1.nFrame, offset := at1.offset) && at2 == NormedIndices(at1.(baseFrame := at1.nFrame), false, c)
    requires at1.nFrame >= at.nFrame && h.d.raw <= r.d.raw && h.a.raw <= r.a.raw
    requires h1.d == h.d && h1.a == h.a && ReadsColumn(h1, r)
    requires NormedFrom(h.d.done, r.d, at2.meanIdx, at2.normedIdx, c, prior)
    ensures Called(h, r, at, at2, c, prior) && at2.offset == at1.offset
  {
    hide Slope, NormedFrom;
  }

  // ---------------------------------------------------------------- a pace that loses nothing

  function Length(sizes: seq<nat>): nat {
    if sizes == [] then 0 else Length(sizes[..|sizes| - 1]) + sizes[|sizes| - 1]
  }

  lemma LengthStep(sizes: seq<nat>, k: nat)
    requires k < |sizes|
    ensures Length(sizes[..k + 1]) == Length(sizes[..k]) + sizes[k]
  {
    assert sizes[..k + 1][..k] == sizes[..k];
  }

  lemma {:induction false} LengthGrows(sizes: seq<nat>, k: nat)
    requires k <= |sizes|
    ensures Length(sizes[..k]) <= Length(sizes)
    decreases |sizes| - k
  {
    if k < |sizes| {
      LengthStep(sizes, k);
      LengthGrows(sizes, k + 1);
    } else {
      assert sizes[..k] == sizes;
    }
  }

  /** A shift now would drop nothing that is still to be read. */
  predicate Roomy(at: Indices) { !Drops(at, at.nFrame - KEPT_ON_SHIFT) }

  /** The longest delay for which a call leaves the tables roomy. */
  const LONGEST_DELAY: nat := KEPT_ON_SHIFT - 4 + LEFT_CONTEXT

  /** The chunks either fit the tables together, or are short and each is followed by a call. */
  ghost predicate Paced(sizes: seq<nat>, calls: seq<bool>, len: nat, shift: nat, c: Config) {
    || Length(sizes) <= MAX_SPEECH * shift + shift
    || (c.delay <= LONGEST_DELAY && (forall k :: 0 <= k < |calls| ==> calls[k]) &&
        forall k :: 0 <= k < |sizes| ==> sizes[k] + len <= (MAX_SPEECH + 1 - KEPT_ON_SHIFT) * shift)
  }

  /** The course of such an utterance after `k` chunks. */
  ghost predicate OnPace(p: Course, sizes: seq<nat>, k: nat, len: nat, shift: nat)
    requires shift > 0 && k <= |sizes|
  {
    && !p.lost && (forall i :: 0 <= i < |p.taken| ==> p.taken[i])
    && p.at.samples == Length(sizes[..k]) && p.at.nFrame == FrameCount(p.at.samples, len, shift)
    && p.at.normCnt == p.at.meanIdx <= p.at.baseFrame <= p.at.nFrame
    && (if Length(sizes) <= MAX_SPEECH * shift + shift then p.at.offset == 0 else Roomy(p.at))
  }

  /** What the next chunk meets. */
  lemma PacedFits(p: Course, sizes: seq<nat>, calls: seq<bool>, len: nat, shift: nat, c: Config, k: nat)
    requires shift > 0 && k < |sizes| == |calls| && Paced(sizes, calls, len, shift, c) && OnPace(p, sizes, k, len, shift)
    ensures !Refuses(p.at, sizes[k], shift) && !Loses(p.at, sizes[k], shift)
    ensures Length(sizes) <= MAX_SPEECH * shift + shift ==> !Over(p.at.samples, sizes[k], 0, shift)
  {
    hide FrameCount, Length, Drops;
    if Length(sizes) <= MAX_SPEECH * shift + shift {
      LengthStep(sizes, k);
      LengthGrows(sizes, k + 1);
    } else {
      ShortIsTaken(p.at.samples, sizes[k], p.at.offset, p.at.nFrame, len, shift);
    }
  }

  /** The indices keep their order. */
  lemma NextOrdered(at: Indices, k: nat, call: bool, len: nat, shift: nat, c: Config)
    requires shift > 0 && at.normCnt == at.meanIdx <= at.baseFrame <= at.nFrame == FrameCount(at.samples, len, shift)
    requires !Refuses(at, k, shift)
    ensures var r := NextAt(at, k, call, len, shift, c);
      && r.normCnt == r.meanIdx <= r.baseFrame <= r.nFrame == FrameCount(r.samples, len, shift) && r.samples == at.samples + k
      && (call && c.delay <= LONGEST_DELAY ==> Roomy(r))
      && (!Over(at.samples, k, at.offset, shift) ==> r.offset == at.offset)
  {
    hide FrameCount, Over;
    CountGrows(at.samples, at.samples + k, len, shift);
  }

  lemma {:induction false} PacedPrefix(sizes: seq<nat>, calls: seq<bool>, len: nat, shift: nat, c: Config, k: nat)
    requires shift > 0 && len > 0 && k <= |sizes| == |calls| && Paced(sizes, calls, len, shift, c)
    ensures OnPace(CourseOf(sizes[..k], calls[..k], len, shift, c), sizes, k, len, shift)
  {
    if k > 0 {
      hide OnPace, Paced, CourseOf, Step;
      PacedPrefix(sizes, calls, len, shift, c, k - 1);
      CourseStep(sizes, calls, len, shift, c, k - 1);
      PacedStep(CourseOf(sizes[..k - 1], calls[..k - 1], len, shift, c), sizes, calls, len, shift, c, k - 1);
    }
  }

  lemma PacedStep(p: Course, sizes: seq<nat>, calls: seq<bool>, len: nat, shift: nat, c: Config, k: nat)
    requires shift > 0 && k < |sizes| == |calls| && Paced(sizes, calls, len, shift, c) && OnPace(p, sizes, k, len, shift)
    ensures OnPace(Step(p, sizes[k], calls[k], len, shift, c), sizes, k + 1, len, shift)
  {
    hide FrameCount, Length, Step, NextAt, Refuses, Loses, Roomy;
    PacedFits(p, sizes, calls, len, shift, c, k);
    NextOrdered(p.at, sizes[k], calls[k], len, shift, c);
    StepIs(p, sizes[k], calls[k], len, shift, c);
    LengthStep(sizes, k);
  }

  /** An utterance that fits the tables, or comes in short chunks each followed by a call, is taken whole and
      loses nothing. */
  lemma PacedIsTaken(sizes: seq<nat>, calls: seq<bool>, len: nat, shift: nat, c: Config)
    requires shift > 0 && len > 0 && |sizes| == |calls| && Paced(sizes, calls, len, shift, c)
    ensures var p := CourseOf(sizes, calls, len, shift, c); !p.lost && forall i :: 0 <= i < |p.taken| ==> p.taken[i]
  {
    hide CourseOf, Paced;
    PacedPrefix(sizes, calls, len, shift, c, |sizes|);
    CourseWhole(sizes, calls, len, shift, c);
  }

  /** Without calls rows are dropped: 6001 frames of one sample, then one sample more. */
  method RowsAreDropped(c: Config, front: seq<real> -> real, t: Table) returns (x: Extractor)
    requires Serves(c.hist) && Sized(t)
    ensures fresh(x) && x.lost && x.c == c
  {
    hide TableOk, SlopesOf, Buffered, Featured, Serves, Sized;
    x := new Extractor(c, 1, 1, front, t, t, t);
    var ok := x.AddBuf(seq(MAX_SPEECH + 1, _ => 0.0));
    ok := x.AddBuf([0.0]);
  }

  /** By how much row `j` of a column moved when it was normalised. */
  ghost function Moved(t: Track, j: nat): real {
    if j < |t.done| && j < |t.raw| then t.raw[j] - t.done[j] else 0.0
  }

  /** Exactly how far an acceleration row is from the slope of the computed deltas: by what normalising
      the two rows in front of it changed, nothing if they are not normalised. */
  lemma AccelerationError(h: History, r: History, k: nat)
    requires ReadsColumn(h, r) && |h.d.done| <= |h.a.raw| <= k < |r.a.raw|
    ensures
      var t, n := Track(r.d.raw, h.d.done), |r.d.raw|;
      r.a.raw[k] == Slope(r.d.raw, k) + (Moved(t, Clamp(k - 1, n)) + 2.0 * Moved(t, Clamp(k - 2, n))) / 10.0
  {
    var t, n := Track(r.d.raw, h.d.done), |r.d.raw|;
    var col := t.Column();
    var s1, s2, a1, a2 := Clamp(k - 1, n), Clamp(k - 2, n), Clamp(k + 1, n), Clamp(k + 2, n);
    assert col[s1] == r.d.raw[s1] - Moved(t, s1) && col[s2] == r.d.raw[s2] - Moved(t, s2);
    if k == 0 {
      assert |h.d.done| == 0;
    } else {
      assert col[a1] == r.d.raw[a1] && col[a2] == r.d.raw[a2];
    }
  }

  /** The first row normalised on its own, without prior, becomes zero. */
  lemma FirstRowVanishes(t: Track, c: Config, prior: Prior)
    requires NormedFrom([], t, 1, 1, c, prior) && !c.cvn && c.weight == 0
    ensures |t.done| == 1 && t.done[0] == 0.0
  {
    assert RangeSum(t.raw, 0, 1) == t.raw[0];
    assert TrueMean(t.raw, 1, c, prior.mean) == t.raw[0];
  }

  lemma FirstDelta(h: History, front: seq<real> -> real)
    requires Featured(h.b.raw, front, h.signal, 1, 1) && SlopesOf(h.d.raw, h.b.raw)
    requires h.signal == [0.0, 0.0, 10.0, 0.0, 0.0] && forall s: seq<real> :: |s| > 0 ==> front(s) == s[0]
    ensures |h.b.raw| == 5 && (|h.d.raw| > 0 ==> h.d.raw[0] == 2.0)
  {
    assert forall i :: 0 <= i < 5 ==> h.signal[i * 1..i * 1 + 1] == [h.signal[i]];
    assert h.b.raw == h.signal;
  }

  /** With the normalisation delay off, an acceleration row reads a delta row already normalised: five
      frames and the end of the utterance are enough. */
  method AccelerationReadsNormalised() returns (x: Extractor)
    ensures fresh(x) && x.Valid() && x.h.ended && !x.h.quiet
    ensures !SlopesOf(x.h.a.raw, x.h.d.raw)
  {
    hide TableOk, Over, Buffered, Slope, NormedFrom, ReadsColumn, Featured;
    var c := Config(1000, 0, 2000, false, 0, (r: real) => r);
    var ring := seq(SUM_SIZE, _ => 0.0);
    var t := Table(seq(ROWS, _ => 0.0), Acc(0.0, ring), Acc(0.0, ring), Prior(0.0, 0.0));
    x := new Extractor(c, 1, 1, (s: seq<real>) => if s == [] then 0.0 else s[0], t, t, t);
    var ok := TakeFive(x);
    ghost var h := x.h;
    x.NormDiff2(true);
    AccelerationError(h, x.h, 1);
  }

  method TakeFive(x: Extractor) returns (ok: bool)
    requires x.Valid() && x.h == Nothing() && !x.lost && x.len == x.shift == 1 && forall s: seq<real> :: |s| > 0 ==> x.front(s) == s[0]
    requires x.c.delay == 0 && x.c.delayOff >= 2000 && !x.c.cvn && x.c.weight == 0
    modifies x
    ensures x.Valid() && !x.lost && !x.h.ended && !x.h.quiet && x.at.nFrame == 5
    ensures |x.h.d.done| == 1 && |x.h.a.raw| == 1 && |x.h.d.raw| == 3 && x.h.d.raw[0] == 2.0 && x.h.d.done[0] == 0.0
  {
    hide TableOk, Buffered, Slope, NormedFrom, ReadsColumn, Featured, SlopesOf, FrameCount;
    ok := x.AddBuf([0.0, 0.0, 10.0, 0.0, 0.0]);
    x.NormDiff2(false);
    FirstDelta(x.h, x.front);
    FirstRowVanishes(x.h.d, x.c, x.delta.prior);
  }
}
