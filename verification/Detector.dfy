/** The sentence detector of VoiceDetector.cpp over the frame VAD of VAD.cpp, in energy mode without
    pitch gating: samples, probability rows and judgement windows live in buffers of 6000 frames that
    are shifted together, while results are reported in absolute frame numbers. */
module Detector {
  import opened ByteBuffers

  const FRAME_SIZE: nat := 160
  const MAX_FRAMES: nat := 6000
  const CAPACITY: nat := 960000 // MAX_FRAMES * FRAME_SIZE samples
  const KEEP: nat := 100        // frames kept in front when silence is trimmed

  /** Log-probabilities of silence and voice for one frame. */
  datatype Prob = Prob(sil: real, voc: real)

  /** A row of m_probs and m_bprobs. */
  datatype Row = Row(p: Prob, voiced: bool)

  function RowOf(p: Prob): Row { Row(p, p.sil <= p.voc) }

  /** A row carries the probabilities of its frame, and is voiced unless silence is the likelier. */
  predicate Tells(r: Row, p: Prob) { r.p == p && (r.voiced <==> p.sil <= p.voc) }

  // ---------------------------------------------------------------- reference semantics

  /** Voiced frames among [lo, hi). */
  function Voices(h: seq<Row>, lo: nat, hi: nat): nat
    requires hi <= |h|
  {
    if hi <= lo then 0 else Voices(h, lo, hi - 1) + if h[hi - 1].voiced then 1 else 0
  }

  /** Frame `i` begins speech: it is voiced and so are at least `t` of the `w` frames before it. */
  predicate Begins(h: seq<Row>, i: nat, w: nat, t: int) {
    w <= i < |h| && Voices(h, i - w, i) >= t && h[i].voiced
  }

  ghost predicate FirstBegin(h: seq<Row>, i: nat, w: nat, t: int) {
    Begins(h, i, w, t) && NoBegin(h, i, w, t)
  }

  ghost predicate NoBegin(h: seq<Row>, n: nat, w: nat, t: int) {
    forall j :: 0 <= j < n ==> !Begins(h, j, w, t)
  }

  /** Sum of (silence - voice) over [lo, hi). */
  function Excess(h: seq<Row>, lo: nat, hi: nat): real
    requires hi <= |h|
  {
    if hi <= lo then 0.0 else Excess(h, lo, hi - 1) + h[hi - 1].p.sil - h[hi - 1].p.voc
  }

  /** Frame `i` ends speech: it is unvoiced, the `n` frames before it are on balance silent, and at
      least `quota` of them are unvoiced. */
  predicate Ends(h: seq<Row>, i: nat, base: int, n: nat, quota: real) {
    && base + n <= i && n <= i < |h| && !h[i].voiced
    && Excess(h, i - n, i) > 0.0 && (n - Voices(h, i - n, i)) as real >= quota
  }

  ghost predicate NoEnd(h: seq<Row>, m: nat, base: int, n: nat, quota: real) {
    forall j :: 0 <= j < m ==> !Ends(h, j, base, n, quota)
  }

  lemma {:induction false} VoicesSlide(h: seq<Row>, lo: nat, hi: nat)
    requires lo < hi <= |h|
    ensures Voices(h, lo, hi) == Voices(h, lo + 1, hi) + if h[lo].voiced then 1 else 0
    decreases hi
  {
    if lo + 1 < hi { VoicesSlide(h, lo, hi - 1); }
  }

  lemma {:induction false} ExcessSlide(h: seq<Row>, lo: nat, hi: nat)
    requires lo < hi <= |h|
    ensures Excess(h, lo, hi) == Excess(h, lo + 1, hi) + h[lo].p.sil - h[lo].p.voc
    decreases hi
  {
    if lo + 1 < hi { ExcessSlide(h, lo, hi - 1); }
  }

  /** Windows read the same in a buffer that starts `k` frames later. */
  lemma {:induction false} WindowShift(h: seq<Row>, k: nat, lo: nat, hi: nat)
    requires k + hi <= |h|
    ensures Voices(h[k..], lo, hi) == Voices(h, k + lo, k + hi)
    ensures Excess(h[k..], lo, hi) == Excess(h, k + lo, k + hi)
    decreases hi
  {
    if lo < hi { WindowShift(h, k, lo, hi - 1); }
  }

  /** Windows read the same when more frames have arrived. */
  lemma {:induction false} WindowExtend(h: seq<Row>, h': seq<Row>, lo: nat, hi: nat)
    requires h <= h' && hi <= |h|
    ensures Voices(h, lo, hi) == Voices(h', lo, hi) && Excess(h, lo, hi) == Excess(h', lo, hi)
    decreases hi
  {
    if lo < hi { WindowExtend(h, h', lo, hi - 1); }
  }

  lemma BeginsExtend(h: seq<Row>, h': seq<Row>, i: nat, w: nat, t: int)
    requires h <= h' && i < |h|
    ensures Begins(h, i, w, t) == Begins(h', i, w, t)
  {
    if w <= i { WindowExtend(h, h', i - w, i); }
  }

  lemma BeginsShift(h: seq<Row>, k: nat, i: nat, w: nat, t: int)
    requires k <= |h| && w <= i < |h| - k
    ensures Begins(h[k..], i, w, t) == Begins(h, k + i, w, t)
  {
    WindowShift(h, k, i - w, i);
  }

  lemma EndsShift(h: seq<Row>, k: nat, i: nat, base: nat, n: nat, quota: real)
    requires k <= |h| && i < |h| - k
    ensures Ends(h[k..], i, base, n, quota) == Ends(h, k + i, k + base, n, quota)
  {
    if n <= i { WindowShift(h, k, i - n, i); }
  }

  // ---------------------------------------------------------------- the sliding loops

  /** The loop of JudgeVoiceBegin over the rows in the buffer. */
  method JudgeBegin(h: seq<Row>, w: nat, t: int) returns (r: int)
    ensures -1 <= r < |h|
    ensures r == -1 ==> NoBegin(h, |h|, w, t)
    ensures r >= 0 ==> FirstBegin(h, r, w, t)
  {
    if |h| <= w { return -1; }
    var count := 0;
    for i := 0 to |h|
      invariant count == Voices(h, if i >= w then i - w else 0, i)
      invariant NoBegin(h, i, w, t)
    {
      if i >= w {
        if count >= t && h[i].voiced { return i; }
        if w > 0 { VoicesSlide(h, i - w, i); }
        // with an empty window the row just left behind is row i itself
        if h[i - w].voiced { count := count - 1; }
      }
      if h[i].voiced { count := count + 1; }
    }
    return -1;
  }

  /** The loop of JudgeVoiceEnd from row `base` on. */
  method JudgeEnd(h: seq<Row>, base: nat, n: nat, quota: real) returns (r: int)
    ensures -1 <= r < |h|
    ensures r == -1 ==> NoEnd(h, |h|, base, n, quota)
    ensures r >= 0 ==> Ends(h, r, base, n, quota) && NoEnd(h, r, base, n, quota)
  {
    var silProb, vocProb, silFrames := 0.0, 0.0, 0;
    var i := base;
    while i < |h|
      invariant base <= i && (i <= |h| || i == base)
      invariant i <= |h| ==> silFrames == i - Lo(i, base, n) - Voices(h, Lo(i, base, n), i)
      invariant i <= |h| ==> silProb - vocProb == Excess(h, Lo(i, base, n), i)
      invariant NoEnd(h, i, base, n, quota)
    {
      var lo := Lo(i, base, n);
      if i >= base + n {
        if silProb > vocProb && silFrames as real >= quota && !h[i].voiced { return i; }
        if n > 0 {
          VoicesSlide(h, i - n, i);
          ExcessSlide(h, i - n, i);
        }
        silProb, vocProb := silProb - h[i - n].p.sil, vocProb - h[i - n].p.voc;
        if !h[i - n].voiced { silFrames := silFrames - 1; }
      }
      silProb, vocProb := silProb + h[i].p.sil, vocProb + h[i].p.voc;
      if !h[i].voiced { silFrames := silFrames + 1; }
      i := i + 1;
    }
    return -1;
  }

  /** Where the window in front of frame `i` starts. */
  function Lo(i: nat, base: nat, n: nat): nat { if i >= base + n then i - n else base }

  // ---------------------------------------------------------------- buffers under absolute numbering

  /** The buffers of the detector and of its frame VAD, with everything ever accepted (`accepted`)
      and every row ever computed (`hist`) since the last restart. */
  datatype Buffers = Buffers(wave: seq<real>, table: seq<Prob>, vadMax: nat, vadOffset: nat,
                             rows: seq<Row>, cur: nat, offset: nat, accepted: seq<real>, hist: seq<Row>)

  /** Both offsets agree, row i of either table and frame i of the wave buffer belong to frame
      `i + offset` of the input, and everything fits. */
  ghost predicate Coherent(b: Buffers) {
    && |b.table| == |b.rows| == MAX_FRAMES
    && b.vadOffset == b.offset && b.vadMax == |b.hist| == b.offset + b.cur && b.cur <= MAX_FRAMES
    && |b.accepted| == b.offset * FRAME_SIZE + |b.wave| && b.wave == b.accepted[b.offset * FRAME_SIZE..]
    && |b.wave| <= CAPACITY && |b.wave| / FRAME_SIZE == b.cur
    && (forall i :: 0 <= i < b.cur ==> b.table[i] == b.hist[b.offset + i].p)
    && (forall i :: 0 <= i < b.cur ==> b.rows[i] == b.hist[b.offset + i])
    && (forall i :: 0 <= i < |b.hist| ==> Tells(b.hist[i], b.hist[i].p))
  }

  /** memmove of the `cur` rows in use, `n` places down. */
  function Moved<T>(t: seq<T>, n: nat, cur: nat): (r: seq<T>)
    requires n <= cur <= |t|
    ensures |r| == |t| && forall i :: 0 <= i < cur - n ==> r[i] == t[n + i]
  {
    t[n..cur] + t[cur - n..]
  }

  function Trimmed(b: Buffers, n: nat): Buffers
    requires n <= b.cur <= |b.table| && b.cur <= |b.rows| && n * FRAME_SIZE <= |b.wave|
  {
    b.(wave := b.wave[n * FRAME_SIZE..], table := Moved(b.table, n, b.cur), vadOffset := b.vadOffset + n,
       rows := Moved(b.rows, n, b.cur), cur := b.cur - n, offset := b.offset + n)
  }

  lemma TrimCoherent(b: Buffers, n: nat)
    requires Coherent(b) && n <= b.cur
    ensures n * FRAME_SIZE <= |b.wave| && Coherent(Trimmed(b, n))
  {
    var c := Trimmed(b, n);
    assert c.wave == b.accepted[c.offset * FRAME_SIZE..];
    hide Moved;
    forall i | 0 <= i < c.cur ensures c.table[i] == c.hist[c.offset + i].p && c.rows[i] == c.hist[c.offset + i] {
      assert c.table[i] == b.table[n + i] && c.rows[i] == b.rows[n + i];
    }
  }

  /** The rows in use are the tail of the history. */
  lemma RowsInUse(b: Buffers)
    requires Coherent(b)
    ensures b.rows[..b.cur] == b.hist[b.offset..]
  {
  }

  /** Rows computed for the frames `from`, ..., `to - 1`. */
  ghost function NewRows(env: nat -> Prob, from: nat, to: nat): (r: seq<Row>)
    requires from <= to
    ensures |r| == to - from && forall i :: 0 <= i < |r| ==> Tells(r[i], env(from + i))
  {
    assert forall p :: Tells(RowOf(p), p);
    seq(to - from, i requires 0 <= i => RowOf(env(from + i)))
  }

  lemma RowsTell(h: seq<Row>, h': seq<Row>, env: nat -> Prob)
    requires |h| <= |h'| && h' == h + NewRows(env, |h|, |h'|)
    ensures forall i :: |h| <= i < |h'| ==> h'[i].p == env(i) && (h'[i].voiced <==> env(i).sil <= env(i).voc)
  {
    var news := NewRows(env, |h|, |h'|);
    forall i | |h| <= i < |h'| ensures Tells(h'[i], env(i)) { assert h'[i] == news[i - |h|] && Tells(news[i - |h|], env(|h| + (i - |h|))); }
  }

  /** Taking in `data` and computing the rows of the completed frames keeps the buffers coherent. */
  lemma AbsorbCoherent(b: Buffers, c: Buffers, got: seq<real>, env: nat -> Prob)
    requires Coherent(b) && |b.wave| + |got| <= CAPACITY
    requires c == b.(wave := b.wave + got, accepted := b.accepted + got, vadMax := b.offset + c.cur,
                     cur := c.cur, table := c.table, rows := c.rows, hist := c.hist)
    requires c.cur == |c.wave| / FRAME_SIZE && |c.table| == |c.rows| == MAX_FRAMES
    requires c.hist == b.hist + NewRows(env, |b.hist|, b.offset + c.cur)
    requires forall i :: 0 <= i < b.cur ==> c.table[i] == b.table[i] && c.rows[i] == b.rows[i]
    requires forall i :: b.cur <= i < c.cur ==> c.table[i] == env(b.offset + i) && Tells(c.rows[i], c.table[i])
    ensures Coherent(c)
  {
    assert c.wave == c.accepted[c.offset * FRAME_SIZE..];
    forall i | 0 <= i < c.cur ensures c.table[i] == c.hist[c.offset + i].p && c.rows[i] == c.hist[c.offset + i] {
      if i >= b.cur { assert c.hist[c.offset + i] == NewRows(env, |b.hist|, b.offset + c.cur)[c.offset + i - |b.hist|]; }
    }
  }

  lemma AbsorbFacts(b: Buffers)
    requires Coherent(b)
    ensures |b.table| == |b.rows| == MAX_FRAMES && b.vadOffset == b.offset && b.vadMax == |b.hist| == b.offset + b.cur
    ensures |b.wave| <= CAPACITY && |b.wave| / FRAME_SIZE == b.cur <= MAX_FRAMES
  {
  }

  // ---------------------------------------------------------------- verdicts

  datatype Params = Params(pre: nat, minVoc: nat, threshold: int, minSpeech: nat, maxSpeech: nat, minSil: nat, ratio: real)
  {
    /** How many frames of the closing silence must be unvoiced; it follows every change of the silence. */
    function Quota(): real { ratio * minSil as real }
  }

  function Max(a: int, b: int): int { if a < b then b else a }

  /** Where the search for the end starts. */
  function EndBase(pm: Params, start: int, startOffset: int): int {
    Max(start + pm.minSpeech - pm.minSil, startOffset)
  }

  /** The first frame from `i` on that begins speech, or -1. */
  function FirstFrom(h: seq<Row>, i: nat, w: nat, t: int): int
    decreases |h| - i
  {
    if i >= |h| then -1 else if Begins(h, i, w, t) then i else FirstFrom(h, i + 1, w, t)
  }

  /** The start the reference reports: `pre + minVoc` frames before the first frame that begins speech. */
  function RefStart(pm: Params, h: seq<Row>): int {
    var i := FirstFrom(h, 0, pm.minVoc, pm.threshold);
    if i == -1 then -1 else Max(0, i - pm.minVoc - pm.pre)
  }

  lemma {:induction false} FirstFromIs(h: seq<Row>, i: nat, n: nat, w: nat, t: int)
    requires i <= n <= |h| && NoBegin(h, n, w, t) && (n < |h| ==> Begins(h, n, w, t))
    ensures FirstFrom(h, i, w, t) == if n == |h| then -1 else n
    decreases n - i
  {
    if i < n { FirstFromIs(h, i + 1, n, w, t); }
  }

  /** The first frame from `i` on that ends speech, or -1. */
  function FirstEnd(h: seq<Row>, i: nat, base: int, n: nat, quota: real): int
    decreases |h| - i
  {
    if i >= |h| then -1 else if Ends(h, i, base, n, quota) then i else FirstEnd(h, i + 1, base, n, quota)
  }

  lemma {:induction false} FirstEndIs(h: seq<Row>, i: nat, m: nat, base: int, n: nat, quota: real)
    requires i <= m <= |h| && NoEnd(h, m, base, n, quota) && (m < |h| ==> Ends(h, m, base, n, quota))
    ensures FirstEnd(h, i, base, n, quota) == if m == |h| then -1 else m
    decreases m - i
  {
    if i < m { FirstEndIs(h, i + 1, m, base, n, quota); }
  }

  /** The frame that decided the start: the one that begins speech, or the newest one when the start was
      forced after `forcedAt` frames. */
  function RefAt(pm: Params, h: seq<Row>, forcedAt: int): int {
    if forcedAt >= 0 then forcedAt - 1 else FirstFrom(h, 0, pm.minVoc, pm.threshold)
  }

  /** The start of the sentence, forced or found. */
  function RefBegin(pm: Params, h: seq<Row>, forcedAt: int): int {
    if forcedAt >= 0 then Max(0, forcedAt - 1) else RefStart(pm, h)
  }

  /** The stop the reference reports: the first frame of the whole history that ends speech, the end of
      the input if there is none, -1 while neither is known. */
  function RefStop(pm: Params, h: seq<Row>, forcedAt: int, end: bool): int {
    var start := RefBegin(pm, h, forcedAt);
    if start < 0 then -1
    else
      var e := FirstEnd(h, 0, EndBase(pm, start, RefAt(pm, h, forcedAt)), pm.minSil, pm.Quota());
      if e >= 0 then e else if end then |h| else -1
  }

  /** What the detector has decided; `forcedAt` is the number of frames there were when the start was
      forced, -1 if it was not. */
  datatype Verdict = Verdict(start: int, stop: int, startOffset: int, isEnd: bool, forcedAt: int)

  /** Still listening: nothing begins speech so far, and trimming left enough frames in front. */
  ghost predicate Listening(pm: Params, b: Buffers) {
    NoBegin(b.hist, |b.hist|, pm.minVoc, pm.threshold) && (b.offset > 0 ==> b.cur >= pm.minVoc + pm.pre + KEEP)
  }

  /** Speech was found where the reference finds it, or its start was forced. */
  ghost predicate Started(pm: Params, b: Buffers, v: Verdict) {
    && v.start >= 0 && v.startOffset >= -1
    && (v.forcedAt < 0 ==>
          && v.startOffset + b.offset >= 0
          && FirstBegin(b.hist, v.startOffset + b.offset, pm.minVoc, pm.threshold)
          && v.start + b.offset == Max(0, v.startOffset + b.offset - pm.minVoc - pm.pre))
    && (v.forcedAt >= 0 ==> Forced(b, v))
  }

  ghost predicate Forced(b: Buffers, v: Verdict) {
    && v.forcedAt <= |b.hist| && v.startOffset + b.offset == v.forcedAt - 1
    && v.start + b.offset == Max(0, v.forcedAt - 1) && (v.forcedAt == 0 <==> v.startOffset == -1)
  }

  ghost predicate NoEndYet(pm: Params, b: Buffers, v: Verdict, m: nat) {
    NoEnd(b.hist, m, EndBase(pm, v.start, v.startOffset) + b.offset, pm.minSil, pm.Quota())
  }

  /** The stop is the first frame that ends speech, or the end of the input if there is none. */
  ghost predicate Stopped(pm: Params, b: Buffers, v: Verdict) {
    && 0 <= v.stop <= b.cur && NoEndYet(pm, b, v, v.stop + b.offset)
    && (v.stop < b.cur ==>
          Ends(b.hist, v.stop + b.offset, EndBase(pm, v.start, v.startOffset) + b.offset, pm.minSil, pm.Quota()))
  }

  /** A judgement with the parameters now in force. */
  ghost predicate Judged(pm: Params, b: Buffers, v: Verdict) {
    && (v.start >= 0 && v.stop == -1 ==> !v.isEnd && NoEndYet(pm, b, v, |b.hist|))
    && (v.start >= 0 && v.stop >= 0 ==> Stopped(pm, b, v))
  }

  ghost predicate VerdictOk(pm: Params, b: Buffers, v: Verdict) {
    && v.start >= -1 && v.stop >= -1
    && (v.start == -1 ==> v.stop == -1 && v.forcedAt < 0 && Listening(pm, b))
    && (v.start >= 0 ==> Started(pm, b, v))
    && (v.stop >= 0 ==> v.isEnd)
  }

  /** The search for the end reads row -1: the start was forced before any frame had arrived, the closing
      silence is longer than the shortest sentence, and that many frames are there. */
  predicate ReadsRowMinusOne(pm: Params, forcedAt: int, frames: nat) {
    forcedAt == 0 && pm.minSpeech < pm.minSil <= frames
  }

  /** Judging the rows in the buffer finds exactly what the reference finds in the whole history. */
  lemma BeginIsGlobal(pm: Params, b: Buffers, c: Buffers, r: int)
    requires Coherent(b) && Coherent(c) && Listening(pm, b) && b.hist <= c.hist && b.offset == c.offset
    requires -1 <= r < c.cur
    requires r == -1 ==> NoBegin(c.hist[c.offset..], c.cur, pm.minVoc, pm.threshold)
    requires r >= 0 ==> FirstBegin(c.hist[c.offset..], r, pm.minVoc, pm.threshold)
    ensures r == -1 ==> NoBegin(c.hist, |c.hist|, pm.minVoc, pm.threshold)
    ensures r >= 0 ==> FirstBegin(c.hist, c.offset + r, pm.minVoc, pm.threshold)
    ensures r >= 0 ==> Max(0, r - pm.minVoc - pm.pre) + c.offset == Max(0, c.offset + r - pm.minVoc - pm.pre)
  {
    var k, w, t := c.offset, pm.minVoc, pm.threshold;
    var limit := if r == -1 then c.cur else r;
    var local := c.hist[k..];
    forall j | 0 <= j < k + limit ensures !Begins(c.hist, j, w, t) {
      if j < |b.hist| {
        BeginsExtend(b.hist, c.hist, j, w, t);
      } else if j - k >= w {
        assert !Begins(local, j - k, w, t);
        BeginsShift(c.hist, k, j - k, w, t);
      }
    }
    if r >= 0 {
      BeginsShift(c.hist, k, r, w, t);
      BeginsNew(pm, b, c, r);
    }
  }

  /** A frame that begins speech is a new one. */
  lemma BeginsNew(pm: Params, b: Buffers, c: Buffers, r: nat)
    requires Coherent(b) && Coherent(c) && Listening(pm, b) && b.hist <= c.hist && b.offset == c.offset
    requires r < c.cur && Begins(c.hist, c.offset + r, pm.minVoc, pm.threshold)
    ensures r >= b.cur
  {
    if r < b.cur { BeginsExtend(b.hist, c.hist, c.offset + r, pm.minVoc, pm.threshold); }
  }

  /** The same for the end. */
  lemma EndIsGlobal(pm: Params, b: Buffers, v: Verdict, r: int)
    requires Coherent(b) && EndBase(pm, v.start, v.startOffset) >= 0 && -1 <= r < b.cur
    requires var base := EndBase(pm, v.start, v.startOffset);
      && (r == -1 ==> NoEnd(b.hist[b.offset..], b.cur, base, pm.minSil, pm.Quota()))
      && (r >= 0 ==> Ends(b.hist[b.offset..], r, base, pm.minSil, pm.Quota()) && NoEnd(b.hist[b.offset..], r, base, pm.minSil, pm.Quota()))
    ensures r == -1 ==> NoEndYet(pm, b, v, |b.hist|)
    ensures r >= 0 ==> Stopped(pm, b, v.(stop := r))
  {
    var k, base := b.offset, EndBase(pm, v.start, v.startOffset);
    var limit, abs := if r == -1 then b.cur else r, base + k;
    forall j | 0 <= j < k + limit ensures !Ends(b.hist, j, abs, pm.minSil, pm.Quota()) {
      if j >= k { EndsShift(b.hist, k, j - k, base, pm.minSil, pm.Quota()); }
    }
    if r >= 0 { EndsShift(b.hist, k, r, base, pm.minSil, pm.Quota()); }
  }

  /** The early returns of JudgeVoiceEnd skip nothing. */
  lemma EndGuards(pm: Params, b: Buffers, v: Verdict)
    requires Coherent(b) && (b.cur < v.start + pm.minSpeech || b.cur <= v.startOffset + pm.minSil)
    ensures NoEndYet(pm, b, v, |b.hist|)
  {
  }

  /** JudgeVoiceEnd gets past its early returns with a search that starts in front of the buffer exactly
      under that condition. */
  lemma EndBaseNegative(pm: Params, b: Buffers, v: Verdict)
    requires Coherent(b) && Started(pm, b, v)
    ensures EndBase(pm, v.start, v.startOffset) < 0 && b.cur >= v.start + pm.minSpeech && b.cur > v.startOffset + pm.minSil
      <==> ReadsRowMinusOne(pm, v.forcedAt, |b.hist|)
    ensures v.startOffset >= 0 ==> EndBase(pm, v.start, v.startOffset) >= 0
    ensures EndBase(pm, v.start, v.startOffset) >= -1
  {
    hide FirstBegin, Begins, RowOf;
  }

  lemma AtFrameZero(pm: Params, b: Buffers, v: Verdict)
    requires |b.table| == |b.rows| == MAX_FRAMES
    requires b.wave == [] && b.vadMax == b.vadOffset == b.cur == b.offset == 0 && b.accepted == [] && b.hist == []
    requires v.start == v.stop == -1 && v.forcedAt < 0
    ensures Coherent(b) && VerdictOk(pm, b, v)
  {
  }

  lemma StartedExtends(pm: Params, b: Buffers, c: Buffers, v: Verdict)
    requires Started(pm, b, v) && b.hist <= c.hist && b.offset == c.offset
    ensures Started(pm, c, v)
  {
    if v.forcedAt < 0 {
      forall j | 0 <= j <= v.startOffset + b.offset
        ensures Begins(c.hist, j, pm.minVoc, pm.threshold) == Begins(b.hist, j, pm.minVoc, pm.threshold)
      {
        BeginsExtend(b.hist, c.hist, j, pm.minVoc, pm.threshold);
      }
    }
  }

  /** A valid detector reports the start the reference finds in everything it has seen. */
  lemma StartIsReference(pm: Params, b: Buffers, v: Verdict)
    requires Coherent(b) && VerdictOk(pm, b, v)
    ensures RefBegin(pm, b.hist, v.forcedAt) == if v.start >= 0 then v.start + b.offset else -1
    ensures v.start >= 0 ==> RefAt(pm, b.hist, v.forcedAt) == v.startOffset + b.offset
  {
    if v.forcedAt < 0 {
      var n := if v.start >= 0 then v.startOffset + b.offset else |b.hist|;
      FirstFromIs(b.hist, 0, n, pm.minVoc, pm.threshold);
    }
  }

  /** And the stop the reference finds there. */
  lemma StopIsReference(pm: Params, b: Buffers, v: Verdict)
    requires Coherent(b) && VerdictOk(pm, b, v) && Judged(pm, b, v)
    ensures RefStop(pm, b.hist, v.forcedAt, v.isEnd) == if v.stop >= 0 then v.stop + b.offset else -1
  {
    StartIsReference(pm, b, v);
    hide VerdictOk, RefBegin, RefAt, Ends;
    if v.start >= 0 {
      var m := if v.stop >= 0 then v.stop + b.offset else |b.hist|;
      FirstEndIs(b.hist, 0, m, EndBase(pm, v.start, v.startOffset) + b.offset, pm.minSil, pm.Quota());
      EndBaseMoves(pm, v.start, v.startOffset, b.offset);
    }
  }

  lemma EndBaseMoves(pm: Params, start: int, startOffset: int, k: nat)
    ensures EndBase(pm, start, startOffset) + k == EndBase(pm, start + k, startOffset + k)
  {
  }

  /** What a call that does not end the input leaves in front: a sentence that has just started stands at the beginning
      of the buffers, and a detector that still listens holds less than half of them beyond what a start may need. */
  predicate InFront(before: int, start: int, cur: nat, pm: Params) {
    (before == -1 && start >= 0 ==> start == 0) && (start == -1 ==> cur < MAX_FRAMES / 2 + pm.minVoc + pm.pre)
  }

  // ---------------------------------------------------------------- the detector

  class VoiceDetector {
    var pm: Params
    var wave: seq<real>   // contents of m_bbFloatWave
    var table: seq<Prob>  // m_frameProbs2 of the frame VAD
    var vadMax: nat       // m_nCurMaxFrame2
    var vadOffset: nat    // m_nOffsetFrameNum
    var rows: seq<Row>    // m_probs and m_bprobs
    var cur: nat          // m_nCurProbFrameNum
    var offset: nat       // m_nOffsetFrame
    var start: int        // m_nVocStartFrame
    var stop: int         // m_nVocStopFrame
    var startOffset: int  // m_nVocStartOffset
    var isEnd: bool
    ghost var accepted: seq<real>
    ghost var hist: seq<Row>
    ghost var forcedAt: int
    var strayed: bool     // row -1 of the tables was read; nothing is known from then on

    ghost function Now(): Buffers
      reads this
    {
      Buffers(wave, table, vadMax, vadOffset, rows, cur, offset, accepted, hist)
    }

    ghost function Said(): Verdict
      reads this
    {
      Verdict(start, stop, startOffset, isEnd, forcedAt)
    }

    ghost predicate Valid()
      reads this
    {
      |table| == |rows| == MAX_FRAMES && (!strayed ==> Coherent(Now()) && VerdictOk(pm, Now(), Said()))
    }

    constructor (pm: Params)
      ensures Valid() && accepted == [] && hist == [] && !isEnd && !strayed && start == -1 && forcedAt < 0 && this.pm == pm
    {
      this.pm := pm;
      wave, table, vadMax, vadOffset := [], seq(MAX_FRAMES, _ => Prob(0.0, 0.0)), 0, 0;
      rows, cur, offset := seq(MAX_FRAMES, _ => Row(Prob(0.0, 0.0), true)), 0, 0;
      start, stop, startOffset, isEnd := -1, -1, 0, false;
      accepted, hist, forcedAt, strayed := [], [], -1, false;
    }

    /** A new closing silence, at any time: the next judgement goes by it. */
    method SetMinSil(n: nat)
      requires Valid()
      modifies this`pm
      ensures Valid() && pm == old(pm).(minSil := n)
    {
      hide Coherent, NoBegin, FirstBegin;
      pm := pm.(minSil := n);
    }

    /** Restart of the wave buffer and of the frame VAD. */
    method ClearBuffers()
      requires |table| == |rows| == MAX_FRAMES
      modifies this`wave, this`vadMax, this`vadOffset, this`cur, this`offset, this`accepted, this`hist
      ensures |table| == |rows| == MAX_FRAMES && wave == [] && vadMax == vadOffset == cur == offset == 0
      ensures accepted == [] && hist == []
    {
      wave, vadMax, vadOffset, cur, offset := [], 0, 0, 0, 0;
      accepted, hist := [], [];
    }

    /** Restart: back to frame zero. */
    method Restart()
      requires |table| == |rows| == MAX_FRAMES
      modifies this
      ensures Valid() && accepted == [] && hist == [] && !isEnd && !strayed && start == -1 && offset == 0 && pm == old(pm)
    {
      hide Coherent, VerdictOk;
      ClearBuffers();
      start, stop, startOffset, isEnd, forcedAt, strayed := -1, -1, 0, false, -1, false;
      AtFrameZero(pm, Now(), Said());
    }

    /** GetVoiceStartFrame and GetVoiceStopFrame: absolute frame numbers. */
    function VoiceStart(): int reads this { if start >= 0 then start + offset else -1 }
    function VoiceStop(): int reads this { if stop >= 0 then stop + offset else -1 }

    /** GetVoiceFrameNum: the frames from the start to the stop, or so far. */
    function VoiceFrames(): (n: int)
      reads this
      ensures start >= 0 && stop >= 0 ==> n == VoiceStop() - VoiceStart()
      ensures start >= 0 > stop && Coherent(Now()) ==> n == |hist| - VoiceStart()
      ensures start < 0 ==> n == 0
    {
      if start < 0 then 0 else if stop >= 0 then stop - start else cur - start
    }

    /** VAD::GetFrameProb. */
    /** In a coherent detector a frame still held reads as it was computed, and a frame dropped or far ahead reads
        as zero. In between the source compares a relative index with an absolute maximum: the `offset` frame
        numbers from the next one on read rows that are not in use. */
    function FrameProb(frame: int): (p: Prob)
      reads this
      requires |table| == MAX_FRAMES && frame - vadOffset < MAX_FRAMES
      ensures Coherent(Now()) && offset <= frame < |hist| ==> p == hist[frame].p
      ensures Coherent(Now()) && (frame < offset || frame >= |hist| + offset) ==> p == Prob(0.0, 0.0)
      ensures Coherent(Now()) && |hist| <= frame < |hist| + offset ==> frame - offset >= cur && p == table[frame - offset]
    {
      if frame < vadOffset || frame - vadOffset >= vadMax then Prob(0.0, 0.0) else table[frame - vadOffset]
    }

    /** OffsetWaveFrame: forgets the first `n` frames everywhere. */
    method OffsetFrames(n: int)
      requires Coherent(Now())
      modifies this`wave, this`table, this`vadOffset, this`rows, this`cur, this`offset
      ensures Coherent(Now())
      ensures !(0 < n <= old(cur)) ==> Now() == old(Now())
      ensures 0 < n <= old(cur) ==> cur == old(cur) - n && offset == old(offset) + n
    {
      if n <= 0 || n > cur { return; }
      TrimCoherent(Now(), n);
      ghost var b := Now();
      wave := wave[n * FRAME_SIZE..];
      rows := Moved(rows, n, cur);
      table := Moved(table, n, cur);
      cur := cur - n;
      vadOffset := vadOffset + n;
      offset := offset + n;
      assert Now() == Trimmed(b, n);
    }

    /** VAD::DoEnergyVad for `n` new frames, whose probabilities are whatever `env` says. */
    method EnergyVad(n: nat, env: nat -> Prob)
      requires |table| == MAX_FRAMES && vadOffset <= vadMax && vadMax - vadOffset + n <= MAX_FRAMES
      modifies this`table, this`vadMax
      ensures |table| == MAX_FRAMES && vadMax == old(vadMax) + n
      ensures forall i :: 0 <= i < old(vadMax) - vadOffset ==> table[i] == old(table[i])
      ensures forall i :: old(vadMax) - vadOffset <= i < vadMax - vadOffset ==> table[i] == env(vadOffset + i)
    {
      for k := 0 to n
        invariant |table| == MAX_FRAMES && vadMax == old(vadMax) + k
        invariant forall i :: 0 <= i < old(vadMax) - vadOffset ==> table[i] == old(table[i])
        invariant forall i :: old(vadMax) - vadOffset <= i < vadMax - vadOffset ==> table[i] == env(vadOffset + i)
      {
        table := table[vadMax - vadOffset := env(vadMax)];
        vadMax := vadMax + 1;
      }
    }

    /** Copies the new rows from the frame VAD. */
    method CopyRows()
      requires |table| == |rows| == MAX_FRAMES && vadOffset == offset && offset + cur <= vadMax && vadMax - offset <= MAX_FRAMES
      modifies this`rows, this`cur
      ensures |rows| == MAX_FRAMES && cur == vadMax - offset
      ensures forall i :: 0 <= i < old(cur) ==> rows[i] == old(rows[i])
      ensures forall i :: old(cur) <= i < cur ==> Tells(rows[i], table[i])
    {
      var max := vadMax - offset;
      if max > MAX_FRAMES { max := MAX_FRAMES; }
      for i := cur to max
        invariant |rows| == MAX_FRAMES && cur == old(cur)
        invariant forall j :: 0 <= j < cur ==> rows[j] == old(rows[j])
        invariant forall j :: cur <= j < i ==> Tells(rows[j], table[j])
      {
        rows := rows[i := RowOf(FrameProb(i + offset))];
      }
      cur := max;
    }

    /** The first half of InternalInputWave. */
    method Absorb(data: seq<real>, env: nat -> Prob)
      requires Coherent(Now())
      modifies this`wave, this`table, this`vadMax, this`rows, this`cur, this`accepted, this`hist
      ensures Coherent(Now()) && accepted == old(accepted) + Accepted(data, CAPACITY - |old(wave)|)
      ensures |wave| <= |old(wave)| + |data|
      ensures old(hist) <= hist && hist == old(hist) + NewRows(env, |old(hist)|, |hist|)
    {
      hide Coherent;
      ghost var b := Now();
      AbsorbFacts(b);
      var got := Accepted(data, CAPACITY - |wave|);
      var prev := |wave| / FRAME_SIZE;
      wave := wave + got;
      var curr := |wave| / FRAME_SIZE;
      EnergyVad(curr - prev, env);
      CopyRows();
      accepted := accepted + got;
      hist := hist + NewRows(env, |hist|, offset + cur);
      AbsorbCoherent(b, Now(), got, env);
    }

    /** JudgeVoiceBegin. */
    method FindBegin(ghost b: Buffers)
      requires start == -1 && stop == -1 && Coherent(Now()) && Coherent(b) && Listening(pm, b)
      requires b.hist <= hist && b.offset == offset && forcedAt < 0
      modifies this`wave, this`table, this`vadOffset, this`rows, this`cur, this`offset, this`start, this`startOffset
      ensures Coherent(Now())
      ensures start == -1 ==> Now() == old(Now()) && NoBegin(hist, |hist|, pm.minVoc, pm.threshold)
      ensures start != -1 ==> Started(pm, Now(), Said()) && (!isEnd ==> start == 0)
    {
      hide Coherent, Listening, NoBegin, Begins;
      RowsInUse(Now());
      CurFits(Now());
      var i := JudgeBegin(rows[..cur], pm.minVoc, pm.threshold);
      BeginIsGlobal(pm, b, Now(), i);
      if i >= 0 { StartAt(i); }
    }

    /** The frame in row `i` begins speech: the start goes back from it, and what is in front is dropped. */
    method StartAt(i: nat)
      requires Coherent(Now()) && i < cur && forcedAt < 0 && FirstBegin(hist, offset + i, pm.minVoc, pm.threshold)
      requires Max(0, i - pm.minVoc - pm.pre) + offset == Max(0, offset + i - pm.minVoc - pm.pre)
      modifies this`wave, this`table, this`vadOffset, this`rows, this`cur, this`offset, this`start, this`startOffset
      ensures Coherent(Now()) && Started(pm, Now(), Said()) && (!isEnd ==> start == 0)
    {
      hide Coherent, FirstBegin;
      start, startOffset := i - pm.minVoc - pm.pre, i;
      if start < 0 { start := 0; }
      if !isEnd && start > 0 {
        OffsetFrames(start);
        startOffset := startOffset - start;
        start := 0;
      }
    }

    /** Removal of silence in front. */
    method TrimSilence()
      requires Coherent(Now()) && start == -1 && NoBegin(hist, |hist|, pm.minVoc, pm.threshold)
      requires offset > 0 ==> cur >= pm.minVoc + pm.pre + KEEP
      modifies this`wave, this`table, this`vadOffset, this`rows, this`cur, this`offset
      ensures Coherent(Now()) && Listening(pm, Now())
      ensures !isEnd ==> cur < MAX_FRAMES / 2 + pm.minVoc + pm.pre
    {
      hide Coherent, NoBegin;
      var silFrames := cur - pm.minVoc - pm.pre;
      if silFrames < 0 { silFrames := 0; }
      if silFrames >= MAX_FRAMES / 2 && !isEnd { OffsetFrames(silFrames - KEEP); }
    }

    /** JudgeVoiceEnd. */
    method FindEnd()
      requires Coherent(Now()) && Started(pm, Now(), Said()) && stop == -1 && !strayed
      modifies this`stop, this`strayed
      ensures strayed == ReadsRowMinusOne(pm, forcedAt, |hist|)
      ensures strayed ==> stop == -1
      ensures !strayed && stop == -1 ==> NoEndYet(pm, Now(), Said(), |hist|)
      ensures !strayed && stop != -1 ==> 0 <= stop < cur && Stopped(pm, Now(), Said())
    {
      hide Coherent, NoEnd, Ends, Stopped, NoEndYet, Started, ReadsRowMinusOne;
      EndBaseNegative(pm, Now(), Said());
      if cur < start + pm.minSpeech || cur <= startOffset + pm.minSil {
        EndGuards(pm, Now(), Said());
        return;
      }
      var base := start + pm.minSpeech - pm.minSil;
      if base < startOffset { base := startOffset; }
      if base < 0 {
        strayed := true;
        return;
      }
      RowsInUse(Now());
      CurFits(Now());
      var r := JudgeEnd(rows[..cur], base, pm.minSil, pm.Quota());
      EndIsGlobal(pm, Now(), Said(), r);
      stop := r;
    }

    /** Voice begin, after the new rows have arrived. */
    method BeginPart(ghost b: Buffers)
      requires Coherent(b) && VerdictOk(pm, b, Said().(isEnd := false)) && Coherent(Now())
      requires b.hist <= hist && b.offset == offset && b.cur <= cur
      modifies this`wave, this`table, this`vadOffset, this`rows, this`cur, this`offset, this`start, this`startOffset
      ensures Coherent(Now()) && start >= -1
      ensures start == -1 ==> stop == -1 && forcedAt < 0 && Listening(pm, Now())
      ensures start >= 0 ==> Started(pm, Now(), Said()) && stop == -1
      ensures !isEnd ==> InFront(old(start), start, cur, pm)
    {
      hide Coherent, NoBegin, Begins;
      if start == -1 {
        FindBegin(b);
        if start == -1 { TrimSilence(); }
      } else {
        StartedExtends(pm, b, Now(), Said());
      }
    }

    /** Voice end. */
    method EndPart(last: bool)
      requires Coherent(Now()) && isEnd == last && Started(pm, Now(), Said()) && stop == -1 && !strayed
      modifies this`stop, this`isEnd, this`strayed
      ensures strayed == ReadsRowMinusOne(pm, forcedAt, |hist|)
      ensures !strayed ==> VerdictOk(pm, Now(), Said()) && Judged(pm, Now(), Said())
      ensures last ==> isEnd
      ensures isEnd && !strayed ==> last || 0 <= stop < cur
    {
      hide Coherent, NoEndYet, Stopped, FirstBegin, ReadsRowMinusOne;
      FindEnd();
      if strayed { return; }
      if stop >= 0 {
        ghost var v := Said();
        isEnd := true;
        SameStop(pm, Now(), v, Said());
      } else if last {
        stop := cur;
        StopAtEnd(pm, Now(), Said());
      }
    }

    /** Begin, trimming and end, after the new rows have arrived. */
    method Judge(ghost b: Buffers, last: bool)
      requires Coherent(b) && VerdictOk(pm, b, Said().(isEnd := false)) && Coherent(Now()) && isEnd == last && !strayed
      requires b.hist <= hist && b.offset == offset && b.cur <= cur
      modifies this`wave, this`table, this`vadOffset, this`rows, this`cur, this`offset, this`start, this`startOffset, this`stop, this`isEnd,
               this`strayed
      ensures strayed == ReadsRowMinusOne(pm, forcedAt, |hist|)
      ensures |table| == |rows| == MAX_FRAMES
      ensures !strayed ==> Coherent(Now()) && VerdictOk(pm, Now(), Said()) && Judged(pm, Now(), Said())
      ensures last ==> isEnd
      ensures isEnd && !strayed ==> last || 0 <= stop < cur
      ensures !last ==> InFront(old(start), start, cur, pm)
    {
      hide Coherent, VerdictOk, Started, Listening, InFront;
      BeginPart(b);
      CurFits(Now());
      if start >= 0 { EndPart(last); } else { StillListening(pm, Now(), Said()); }
    }

    /** One call that is not refused: new rows, then judgement. */
    method Hear(data: seq<real>, last: bool, env: nat -> Prob)
      requires Coherent(Now()) && VerdictOk(pm, Now(), Said()) && !isEnd && !strayed
      modifies this`wave, this`table, this`vadMax, this`rows, this`cur, this`accepted, this`hist, this`isEnd,
               this`vadOffset, this`offset, this`start, this`startOffset, this`stop, this`strayed
      ensures accepted == old(accepted) + Accepted(data, CAPACITY - |old(wave)|)
      ensures old(hist) <= hist && hist == old(hist) + NewRows(env, |old(hist)|, |hist|)
      ensures |hist| == |accepted| / FRAME_SIZE
      ensures strayed == ReadsRowMinusOne(pm, forcedAt, |hist|)
      ensures |table| == |rows| == MAX_FRAMES
      ensures !strayed ==> Coherent(Now()) && VerdictOk(pm, Now(), Said()) && Judged(pm, Now(), Said())
      ensures last || old(VoiceFrames()) >= pm.maxSpeech ==> isEnd
      ensures isEnd && !strayed ==> last || old(VoiceFrames()) >= pm.maxSpeech || |old(wave)| + |data| >= CAPACITY || 0 <= stop < cur
      ensures !isEnd ==> InFront(old(start), start, cur, pm)
    {
      hide Coherent, VerdictOk, Judged, ReadsRowMinusOne, InFront;
      ghost var b, v := Now(), Said();
      CurFits(b);
      var long := VoiceFrames() >= pm.maxSpeech;
      Absorb(data, env);
      CurFits(Now());
      isEnd := last || |wave| == CAPACITY || long;
      assert Said().(isEnd := false) == v;
      Judge(b, isEnd);
    }

    /** InternalInputWave: whatever the chunking, the buffers stay coherent under absolute numbering, and the
        reported start and stop are the reference's, judged by the parameters in force. */
    method InputWave(data: seq<real>, last: bool, env: nat -> Prob)
      requires Valid()
      modifies this
      ensures Valid() && forcedAt == old(forcedAt) && pm == old(pm)
      ensures old(isEnd) || old(strayed) ==> Now() == old(Now()) && Said() == old(Said()) && strayed == old(strayed)
      ensures !old(isEnd) && !old(strayed) ==>
        && accepted == old(accepted) + Accepted(data, CAPACITY - |old(wave)|) && |hist| == |accepted| / FRAME_SIZE
        && old(hist) <= hist && hist == old(hist) + NewRows(env, |old(hist)|, |hist|)
        && (forall i :: |old(hist)| <= i < |hist| ==> hist[i].p == env(i) && (hist[i].voiced <==> env(i).sil <= env(i).voc))
        && strayed == ReadsRowMinusOne(pm, forcedAt, |hist|)
        && (last || old(VoiceFrames()) >= pm.maxSpeech ==> isEnd)
        && (isEnd && !strayed ==> last || old(VoiceFrames()) >= pm.maxSpeech || |old(wave)| + |data| >= CAPACITY || 0 <= stop < cur)
      ensures !old(isEnd) && !old(strayed) && !isEnd ==> InFront(old(start), start, cur, pm)
      ensures !strayed ==> VoiceStart() == RefBegin(pm, hist, forcedAt)
      ensures !old(isEnd) && !strayed ==> VoiceStop() == RefStop(pm, hist, forcedAt, isEnd)
    {
      hide Coherent, VerdictOk, RefBegin, RefStop, Judged, ReadsRowMinusOne, NewRows, InFront;
      if !isEnd && !strayed {
        ghost var before := hist;
        Hear(data, last, env);
        RowsTell(before, hist, env);
        if !strayed { StopIsReference(pm, Now(), Said()); }
      }
      if !strayed { StartIsReference(pm, Now(), Said()); }
    }

    /** SetStart: the sentence starts with the newest frame, or with the first one to come. */
    method ForceStart() returns (r: int)
      requires Valid() && !strayed
      modifies this
      ensures Valid() && !strayed && accepted == old(accepted) && hist == old(hist) && pm == old(pm) && isEnd == old(isEnd)
      ensures r == if old(start) >= 0 then -1 else 0
      ensures r == -1 ==> Now() == old(Now()) && Said() == old(Said())
      ensures r == 0 ==> forcedAt == |hist| && stop == -1 && (!isEnd ==> start == 0) && VoiceStart() == RefBegin(pm, hist, forcedAt)
    {
      hide Coherent, VerdictOk, RefBegin;
      NotStarted(pm, Now(), Said());
      if start >= 0 { return -1; }
      BeginHere();
      CurFits(Now());
      StartIsReference(pm, Now(), Said());
      return 0;
    }

    /** The newest frame becomes the start, and what is in front of it goes. */
    method BeginHere()
      requires Coherent(Now()) && start == stop == -1 && (offset > 0 ==> cur > 0)
      modifies this`start, this`startOffset, this`forcedAt, this`wave, this`table, this`vadOffset, this`rows, this`cur, this`offset
      ensures Coherent(Now()) && VerdictOk(pm, Now(), Said()) && start >= 0 && forcedAt == |hist| && (!isEnd ==> start == 0)
    {
      hide Coherent, VerdictOk;
      ghost var b := Now();
      CurFits(b);
      start, startOffset := cur - 1, cur - 1;
      if start < 0 { start := 0; }
      if !isEnd && start > 0 {
        OffsetFrames(start);
        startOffset := startOffset - start;
        start := 0;
      }
      forcedAt := |hist|;
      ForcedOk(pm, b, Now(), Said());
    }
  }

  lemma NotStarted(pm: Params, b: Buffers, v: Verdict)
    requires VerdictOk(pm, b, v)
    ensures v.start >= -1 && (v.start == -1 ==> v.stop == -1 && v.forcedAt < 0 && (b.offset > 0 ==> b.cur > 0))
  {
    hide NoBegin, Started;
  }

  /** Forcing the start, with or without trimming, gives a started sentence. */
  lemma ForcedOk(pm: Params, b: Buffers, c: Buffers, v: Verdict)
    requires Coherent(b) && Coherent(c) && c.hist == b.hist && v.stop == -1 && v.forcedAt == |b.hist|
    requires b.offset > 0 ==> b.cur > 0
    requires (v.start == Max(0, b.cur - 1) && v.startOffset == b.cur - 1 && c.offset == b.offset) ||
             (b.cur > 1 && v.start == 0 && v.startOffset == 0 && c.offset == b.offset + b.cur - 1)
    ensures VerdictOk(pm, c, v)
  {
    hide NoBegin, FirstBegin, Tells;
  }

  /** With the defaults of the detector, a start forced before the first frame, a closing silence of 2000 frames
      and 2000 frames in one call make the search for the end read row -1. */
  method RowMinusOneIsRead(env: nat -> Prob) returns (d: VoiceDetector)
    ensures fresh(d) && d.strayed && d.pm == Params(10, 30, 15, 90, 1000, 2000, 0.9)
  {
    hide Coherent, VerdictOk, RefBegin, RefStop, NewRows;
    d := new VoiceDetector(Params(10, 30, 15, 90, 1000, 45, 0.9));
    var _ := d.ForceStart();
    d.SetMinSil(2000);
    CurFits(d.Now());
    var data := seq(2000 * FRAME_SIZE, _ => 0.0);
    d.InputWave(data, false, env);
  }

  // ---------------------------------------------------------------- what is found in plain cases

  lemma {:induction false} VoicesAll(h: seq<Row>, lo: nat, hi: nat)
    requires lo <= hi <= |h| && forall i :: lo <= i < hi ==> h[i].voiced
    ensures Voices(h, lo, hi) == hi - lo
    decreases hi
  {
    if lo < hi { VoicesAll(h, lo, hi - 1); }
  }

  /** Voice from the first frame on starts at the first frame, as soon as one frame more than `minVoc` is there. */
  lemma VoiceFromTheFirst(pm: Params, h: seq<Row>)
    requires (forall i :: 0 <= i < |h| ==> h[i].voiced) && pm.threshold <= pm.minVoc
    ensures RefStart(pm, h) == if |h| > pm.minVoc then 0 else -1
  {
    var w := pm.minVoc;
    if |h| > w { VoicesAll(h, 0, w); }
    FirstFromIs(h, 0, if |h| > w then w else |h|, w, pm.threshold);
  }

  /** Without a voiced frame nothing starts. */
  lemma SilenceNeverStarts(pm: Params, h: seq<Row>)
    requires forall i :: 0 <= i < |h| ==> !h[i].voiced
    ensures RefStart(pm, h) == -1
    ensures forall forcedAt, end :: forcedAt < 0 ==> RefStop(pm, h, forcedAt, end) == -1
  {
    FirstFromIs(h, 0, |h|, pm.minVoc, pm.threshold);
  }

  /** Every frame carries the flag its probabilities call for. */
  ghost predicate Flagged(h: seq<Row>, env: nat -> Prob) {
    forall i :: 0 <= i < |h| ==> (h[i].voiced <==> env(i).sil <= env(i).voc)
  }

  ghost predicate AllVoice(n: nat, env: nat -> Prob) { forall i :: 0 <= i < n ==> env(i).sil <= env(i).voc }
  ghost predicate AllSilence(n: nat, env: nat -> Prob) { forall i :: 0 <= i < n ==> env(i).voc < env(i).sil }

  /** Nothing but silence ever, in chunks that fit into half of the buffers. */
  ghost predicate Hush(pm: Params, chunks: seq<seq<real>>, env: nat -> Prob) {
    && pm.maxSpeech > 0 && (forall n :: AllSilence(n, env))
    && forall k :: 0 <= k < |chunks| ==> Small(|chunks[k]|, pm)
  }

  /** A new detector fed with any chunks, not forced: it reports frame 0 on nothing but voice, never starts on nothing but
      silence, and goes on listening to that for ever. */
  method Listen(pm: Params, chunks: seq<seq<real>>, env: nat -> Prob) returns (d: VoiceDetector)
    ensures fresh(d) && d.Valid() && !d.strayed && d.pm == pm && |d.hist| == |d.accepted| / FRAME_SIZE
    ensures d.VoiceStart() == RefStart(pm, d.hist)
    ensures AllVoice(|d.hist|, env) && pm.threshold <= pm.minVoc && |d.hist| > pm.minVoc ==> d.VoiceStart() == 0
    ensures AllSilence(|d.hist|, env) ==> d.VoiceStart() == -1
    ensures Hush(pm, chunks, env) ==> !d.isEnd
  {
    hide Coherent, VerdictOk, RefStart, Flagged, Hush;
    d := new VoiceDetector(pm);
    CurFits(d.Now());
    NoRows(pm, env);
    for k := 0 to |chunks|
      invariant d.Valid() && !d.strayed && d.pm == pm && d.forcedAt < 0 && |d.hist| == |d.accepted| / FRAME_SIZE
      invariant d.VoiceStart() == RefStart(pm, d.hist) && Flagged(d.hist, env)
      invariant Hush(pm, chunks, env) ==> !d.isEnd && d.start == -1 && d.cur < MAX_FRAMES / 2 + pm.minVoc + pm.pre
    {
      HearMore(d, chunks[k], env, chunks, k);
    }
    PlainCases(pm, d.hist, env);
  }

  lemma PlainCases(pm: Params, h: seq<Row>, env: nat -> Prob)
    requires Flagged(h, env)
    ensures AllVoice(|h|, env) && pm.threshold <= pm.minVoc && |h| > pm.minVoc ==> RefStart(pm, h) == 0
    ensures AllSilence(|h|, env) ==> RefStart(pm, h) == -1 && forall forcedAt, end :: forcedAt < 0 ==> RefStop(pm, h, forcedAt, end) == -1
  {
    hide RefStart, RefStop;
    if AllVoice(|h|, env) && pm.threshold <= pm.minVoc { VoiceFromTheFirst(pm, h); }
    if AllSilence(|h|, env) { SilenceNeverStarts(pm, h); }
  }

  /** One more chunk. */
  method HearMore(d: VoiceDetector, chunk: seq<real>, env: nat -> Prob, ghost chunks: seq<seq<real>>, ghost k: nat)
    requires d.Valid() && !d.strayed && d.forcedAt < 0 && |d.hist| == |d.accepted| / FRAME_SIZE
    requires d.VoiceStart() == RefStart(d.pm, d.hist) && Flagged(d.hist, env) && k < |chunks| && chunk == chunks[k]
    requires Hush(d.pm, chunks, env) ==> !d.isEnd && d.start == -1 && d.cur < MAX_FRAMES / 2 + d.pm.minVoc + d.pm.pre
    modifies d
    ensures d.Valid() && !d.strayed && d.forcedAt < 0 && d.pm == old(d.pm) && |d.hist| == |d.accepted| / FRAME_SIZE
    ensures d.VoiceStart() == RefStart(d.pm, d.hist) && Flagged(d.hist, env)
    ensures Hush(d.pm, chunks, env) ==> !d.isEnd && d.start == -1 && d.cur < MAX_FRAMES / 2 + d.pm.minVoc + d.pm.pre
  {
    hide Coherent, VerdictOk, RefStop, NewRows, RefStart, InFront, Small, AllSilence, AllVoice;
    if Hush(d.pm, chunks, env) { Undisturbed(d.pm, d.Now(), |chunk|); }
    d.InputWave(chunk, false, env);
    if Hush(d.pm, chunks, env) {
      PlainCases(d.pm, d.hist, env);
      NotStarted(d.pm, d.Now(), d.Said());
      StillInFront(-1, d.start, d.cur, d.pm);
    }
  }

  /** A chunk that fits into the other half of the buffers. */
  predicate Small(n: nat, pm: Params) { n + (pm.minVoc + pm.pre) * FRAME_SIZE <= MAX_FRAMES / 2 * FRAME_SIZE }

  lemma Undisturbed(pm: Params, b: Buffers, n: nat)
    requires Coherent(b) && b.cur < MAX_FRAMES / 2 + pm.minVoc + pm.pre && Small(n, pm)
    ensures |b.wave| + n < CAPACITY
  {
    hide Tells;
  }

  lemma StillInFront(before: int, start: int, cur: nat, pm: Params)
    requires InFront(before, start, cur, pm) && start == -1
    ensures cur < MAX_FRAMES / 2 + pm.minVoc + pm.pre
  {
  }

  lemma NoRows(pm: Params, env: nat -> Prob)
    ensures RefStart(pm, []) == -1 && Flagged([], env)
  {
  }

  /** A stop reported before the end of the input: the sentence is long enough, silence has won over voice in front of it,
      and the voiced frames there are no more than the ratio leaves. */
  lemma StopMeans(pm: Params, h: seq<Row>, forcedAt: int, end: bool)
    requires 0 <= RefStop(pm, h, forcedAt, end) < |h|
    ensures var e, n := RefStop(pm, h, forcedAt, end), pm.minSil;
      && n <= e && !h[e].voiced && Excess(h, e - n, e) > 0.0
      && Voices(h, e - n, e) as real <= n as real - pm.ratio * n as real
      && e >= RefBegin(pm, h, forcedAt) + pm.minSpeech && e >= RefAt(pm, h, forcedAt) + n
  {
    var start := RefBegin(pm, h, forcedAt);
    FirstEndEnds(h, 0, EndBase(pm, start, RefAt(pm, h, forcedAt)), pm.minSil, pm.Quota());
  }

  lemma {:induction false} FirstEndEnds(h: seq<Row>, i: nat, base: int, n: nat, quota: real)
    ensures var e := FirstEnd(h, i, base, n, quota); e == -1 || (i <= e < |h| && Ends(h, e, base, n, quota))
    ensures var e := FirstEnd(h, i, base, n, quota); forall j :: i <= j < |h| && Ends(h, j, base, n, quota) ==> 0 <= e <= j
    decreases |h| - i
  {
    if i < |h| { FirstEndEnds(h, i + 1, base, n, quota); }
  }

  lemma {:induction false} SilentStretch(h: seq<Row>, lo: nat, hi: nat)
    requires lo < hi <= |h| && forall i :: lo <= i < hi ==> !h[i].voiced && h[i].p.voc < h[i].p.sil
    ensures Voices(h, lo, hi) == 0 && Excess(h, lo, hi) > 0.0
    decreases hi
  {
    if lo < hi - 1 { SilentStretch(h, lo, hi - 1); }
  }

  /** A stretch of silence ends a sentence that is long enough, wherever it lies. */
  lemma SilenceStops(pm: Params, h: seq<Row>, forcedAt: int, end: bool, e: nat)
    requires RefBegin(pm, h, forcedAt) >= 0 && 0 < pm.minSil <= e < |h| && pm.ratio <= 1.0
    requires e >= RefBegin(pm, h, forcedAt) + pm.minSpeech && e >= RefAt(pm, h, forcedAt) + pm.minSil
    requires forall i :: e - pm.minSil <= i <= e ==> Tells(h[i], h[i].p) && h[i].p.voc < h[i].p.sil
    ensures 0 <= RefStop(pm, h, forcedAt, end) <= e
  {
    hide FirstEnd, Ends, Tells, RefBegin, RefAt;
    var n, base := pm.minSil, EndBase(pm, RefBegin(pm, h, forcedAt), RefAt(pm, h, forcedAt));
    AtMostAll(pm);
    EndsInSilence(h, e, base, n, pm.Quota());
    FirstEndEnds(h, 0, base, n, pm.Quota());
  }

  lemma EndsInSilence(h: seq<Row>, e: nat, base: int, n: nat, quota: real)
    requires 0 < n <= e < |h| && base + n <= e && quota <= n as real
    requires forall i :: e - n <= i <= e ==> Tells(h[i], h[i].p) && h[i].p.voc < h[i].p.sil
    ensures Ends(h, e, base, n, quota)
  {
    hide Excess, Voices;
    SilentStretch(h, e - n, e);
  }

  lemma AtMostAll(pm: Params)
    requires pm.ratio <= 1.0
    ensures pm.Quota() <= pm.minSil as real
  {
  }

  // ---------------------------------------------------------------- fed frame by frame

  /** What a caller does to the detector between two restarts; a wave is at most one frame long. */
  datatype Step = Force | Silence(n: nat) | Wave(data: seq<real>, last: bool) | Anew

  /** The closing silence is not longer than the shortest sentence, or longer than any sentence. */
  predicate Harmless(pm: Params, minSil: nat) {
    minSil <= pm.minSpeech || pm.maxSpeech + 1 < minSil || MAX_FRAMES < minSil
  }

  /** Fed frame by frame, a sentence forced before any frame ends before row -1 could be read. */
  ghost predicate Tame(d: VoiceDetector)
    reads d
  {
    && d.Valid() && !d.strayed && Harmless(d.pm, d.pm.minSil)
    && (d.forcedAt == 0 && !d.isEnd ==> |d.hist| <= d.pm.maxSpeech)
  }

  /** With at most one frame a call, as check_voice_activity feeds it, and no closing silence between the
      shortest and the longest sentence, the detector never strays, however often it is forced, changed or
      restarted. */
  method FrameByFrame(pm: Params, steps: seq<Step>, env: nat -> Prob) returns (d: VoiceDetector)
    requires Harmless(pm, pm.minSil)
    requires forall i :: 0 <= i < |steps| && steps[i].Silence? ==> Harmless(pm, steps[i].n)
    requires forall i :: 0 <= i < |steps| && steps[i].Wave? ==> |steps[i].data| <= FRAME_SIZE
    ensures fresh(d) && Tame(d)
  {
    hide Coherent, VerdictOk, RefBegin, RefStop, NewRows, ReadsRowMinusOne;
    d := new VoiceDetector(pm);
    for i := 0 to |steps|
      invariant Tame(d) && d.pm == pm.(minSil := d.pm.minSil)
    {
      match steps[i] {
        case Force => var _ := d.ForceStart();
        case Silence(n) => d.SetMinSil(n);
        case Wave(data, last) => OneFrame(d, data, last, env);
        case Anew => d.Restart();
      }
    }
  }

  /** And with any other closing silence a forced sentence fed frame by frame does stray. */
  method FrameByFrameStrays(pm: Params, env: nat -> Prob) returns (d: VoiceDetector)
    requires !Harmless(pm, pm.minSil)
    ensures fresh(d) && d.strayed && d.pm == pm
  {
    hide Coherent, VerdictOk, RefBegin, RefStop, NewRows;
    d := new VoiceDetector(pm);
    var _ := d.ForceStart();
    var frame := seq(FRAME_SIZE, _ => 0.0);
    for i := 0 to pm.minSil - 1
      invariant d.Valid() && !d.strayed && !d.isEnd && d.forcedAt == 0 && d.pm == pm
      invariant |d.accepted| == i * FRAME_SIZE && |d.hist| == i
    {
      NextFrame(d, frame, env, i);
    }
    EarlyFrames(d.pm, d.Now(), d.Said());
    CurFits(d.Now());
    d.InputWave(frame, false, env);
  }

  method NextFrame(d: VoiceDetector, frame: seq<real>, env: nat -> Prob, ghost i: nat)
    requires d.Valid() && !d.strayed && !d.isEnd && d.forcedAt == 0 && |d.accepted| == i * FRAME_SIZE && |d.hist| == i
    requires |frame| == FRAME_SIZE && i + 1 < d.pm.minSil <= MAX_FRAMES && i < d.pm.maxSpeech
    modifies d
    ensures d.Valid() && !d.strayed && !d.isEnd && d.forcedAt == 0 && d.pm == old(d.pm)
    ensures |d.accepted| == (i + 1) * FRAME_SIZE && |d.hist| == i + 1
  {
    hide Coherent, VerdictOk, RefBegin, NewRows, RefStop;
    EarlyFrames(d.pm, d.Now(), d.Said());
    CurFits(d.Now());
    d.InputWave(frame, false, env);
    CurFits(d.Now());
    StopTooEarly(d.pm, d.Now(), d.Said());
  }

  lemma StopTooEarly(pm: Params, b: Buffers, v: Verdict)
    requires Coherent(b) && VerdictOk(pm, b, v) && v.forcedAt == 0 && |b.hist| < pm.minSil
    ensures v.start == 0 && b.offset == 0 && b.cur == |b.hist|
    ensures RefStop(pm, b.hist, 0, v.isEnd) == if v.isEnd then |b.hist| else -1
  {
    hide NoBegin, FirstBegin, Tells;
    NoEndSoFar(pm, b.hist, 0, EndBase(pm, 0, -1));
  }

  lemma {:induction false} NoEndSoFar(pm: Params, h: seq<Row>, i: nat, base: int)
    requires |h| < pm.minSil
    ensures FirstEnd(h, i, base, pm.minSil, pm.Quota()) == -1
    decreases |h| - i
  {
    if i < |h| { NoEndSoFar(pm, h, i + 1, base); }
  }

  method OneFrame(d: VoiceDetector, data: seq<real>, last: bool, env: nat -> Prob)
    requires Tame(d) && |data| <= FRAME_SIZE
    modifies d
    ensures Tame(d) && d.pm == old(d.pm)
  {
    hide Coherent, VerdictOk, RefBegin, RefStop, NewRows;
    if d.forcedAt == 0 && !d.isEnd { EarlyFrames(d.pm, d.Now(), d.Said()); }
    CurFits(d.Now());
    ghost var before := d.accepted;
    d.InputWave(data, last, env);
    OneMore(|before|, |d.accepted|);
    assert |d.hist| == |d.accepted| / FRAME_SIZE;
  }

  /** A sentence forced before any frame counts every frame. */
  lemma EarlyFrames(pm: Params, b: Buffers, v: Verdict)
    requires Coherent(b) && VerdictOk(pm, b, v) && v.forcedAt == 0 && !v.isEnd
    ensures v.start == 0 && v.stop == -1 && b.cur == |b.hist| && b.offset == 0
  {
    hide NoBegin, FirstBegin, Tells;
  }

  lemma OneMore(m: nat, n: nat)
    requires m <= n <= m + FRAME_SIZE
    ensures n / FRAME_SIZE <= m / FRAME_SIZE + 1
  {
  }

  lemma StillListening(pm: Params, b: Buffers, v: Verdict)
    requires v.start == v.stop == -1 && v.forcedAt < 0 && Listening(pm, b)
    ensures VerdictOk(pm, b, v) && Judged(pm, b, v)
  {
  }

  lemma SameStop(pm: Params, b: Buffers, v: Verdict, v': Verdict)
    requires Stopped(pm, b, v) && v' == v.(isEnd := v'.isEnd)
    ensures Stopped(pm, b, v')
  {
  }

  lemma StopAtEnd(pm: Params, b: Buffers, v: Verdict)
    requires Coherent(b) && Started(pm, b, v) && NoEndYet(pm, b, v.(stop := -1), |b.hist|) && v.stop == b.cur
    ensures Stopped(pm, b, v)
  {
  }

  lemma CurFits(b: Buffers)
    requires Coherent(b)
    ensures b.cur <= |b.rows| && b.offset + b.cur == |b.hist|
    ensures |b.wave| <= CAPACITY && |b.hist| == |b.accepted| / FRAME_SIZE && |b.wave| <= |b.accepted|
    ensures |b.table| == |b.rows| == MAX_FRAMES && (b.offset == 0 ==> |b.wave| == |b.accepted|)
  {
  }
}
