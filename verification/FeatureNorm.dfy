/** The streaming part of the feature extractor (PLP.cpp): frames are cut from the sample stream, first
    and second differences follow a few frames behind, and finished rows are normalised in place. One
    feature column of each of the three tables is modelled. */
module FeatureNorm {
  import opened FeatureStats

  const LEFT_CONTEXT: nat := 5
  const MAX_SPEECH: nat := 6000
  const ROWS: nat := MAX_SPEECH + 11      // rows of each feature table
  const KEPT_ON_SHIFT: nat := 1000         // frames kept when the tables are shifted

  // ---------------------------------------------------------------- differences

  function Clamp(i: int, n: nat): nat
    requires n > 0
  {
    if i < 0 then 0 else if i > n - 1 then n - 1 else i
  }

  /** The difference at frame `d`: two neighbours on either side, the ends repeated. */
  function Slope(v: seq<real>, d: nat): real
    requires d < |v|
  {
    ((v[Clamp(d + 1, |v|)] - v[Clamp(d - 1, |v|)]) + 2.0 * (v[Clamp(d + 2, |v|)] - v[Clamp(d - 2, |v|)])) / 10.0
  }

  /** Two frames behind the end, later frames do not matter. */
  lemma SlopeExtends(v: seq<real>, w: seq<real>, d: nat)
    requires d + 2 < |v| && v <= w
    ensures Slope(v, d) == Slope(w, d)
  {
  }

  /** Only rows from d - 2 on matter. */
  lemma SlopeNear(v: seq<real>, w: seq<real>, d: nat, from: nat)
    requires d < |v| == |w| && from <= Clamp(d - 2, |v|)
    requires forall j :: from <= j < |v| ==> v[j] == w[j]
    ensures Slope(v, d) == Slope(w, d)
  {
  }

  // ---------------------------------------------------------------- tables

  /** Where frame `i` lives in a table whose first frame is `off`. */
  function Slot(i: int, off: nat): int { i + LEFT_CONTEXT - off }

  /** The oldest frame a table still holds: the context in front of `off` is kept too. */
  function Oldest(off: nat): nat { if off < LEFT_CONTEXT then 0 else off - LEFT_CONTEXT }

  datatype Prior = Prior(mean: real, square: real)

  /** One feature table with its statistics. */
  datatype Table = Table(rows: seq<real>, mean: Acc, square: Acc, prior: Prior)

  /** What a table went through: the rows as computed, and those normalised since. */
  datatype Track = Track(raw: seq<real>, done: seq<real>) {
    ghost predicate Fits(m: nat) { |done| <= m <= |raw| }

    /** The column as it stands: normalised in front, as computed behind. */
    ghost function Column(): (c: seq<real>)
      requires |done| <= |raw|
      ensures |c| == |raw|
    {
      done + raw[|done|..]
    }
  }

  /** The table holds column `v` from its oldest frame on. */
  ghost predicate Live(rows: seq<real>, off: nat, v: seq<real>) {
    && |rows| == ROWS && |v| - off <= ROWS - LEFT_CONTEXT
    && forall i :: Oldest(off) <= i < |v| ==> rows[Slot(i, off)] == v[i]
  }

  /** The statistics cover the first `m` computed rows. */
  ghost predicate Counted(s: Table, raw: seq<real>, m: nat, cvn: bool) {
    AccOk(s.mean, raw, m) && |s.square.pot| == SUM_SIZE && (cvn ==> AccOk(s.square, Squares(raw), m))
  }

  ghost predicate TableOk(s: Table, off: nat, t: Track, m: nat, cvn: bool) {
    t.Fits(m) && Oldest(off) <= |t.done| && Live(s.rows, off, t.Column()) && Counted(s, t.raw, m, cvn)
  }

  /** First frame computed by a difference loop running `lag` frames behind. */
  function First(base: nat, lag: nat): nat { if base < lag then 0 else base - lag }

  /** End of the frames such a loop computes. */
  function Past(n: nat, lag: nat, end: bool): nat { if end then n else First(n, lag) }

  /** One row of a difference table; both ends are clamped to the frames there are. */
  method Difference(src: seq<real>, off: nat, d: nat, n: nat, ghost v: seq<real>) returns (x: real)
    requires Live(src, off, v) && Oldest(off) <= First(d, 2) && d < n
    requires |v| == n || d + 2 < |v| <= n
    ensures x == Slope(v, d)
  {
    var a1 := if d + 1 > n - 1 then n - 1 else d + 1;
    var a2 := if d + 2 > n - 1 then n - 1 else d + 2;
    var s1 := if d - 1 < 0 then 0 else d - 1;
    var s2 := if d - 2 < 0 then 0 else d - 2;
    x := ((src[Slot(a1, off)] - src[Slot(s1, off)]) + 2.0 * (src[Slot(a2, off)] - src[Slot(s2, off)])) / 10.0;
  }

  /** One difference loop: every frame from First to Past gets the slope of the source column. */
  method Differentiate(src: seq<real>, dst: seq<real>, off: nat, base: nat, n: nat, end: bool, lag: nat,
                       ghost v: seq<real>)
    returns (r: seq<real>)
    requires |dst| == ROWS && base <= n && n - off <= ROWS - LEFT_CONTEXT
    requires Oldest(off) <= First(base, lag + 2) && lag >= 2
    requires Live(src, off, v) && |v| == Past(n, lag - 2, end)
    ensures |r| == ROWS
    ensures forall d :: First(base, lag) <= d < Past(n, lag, end) ==> r[Slot(d, off)] == Slope(v, d)
    ensures forall k :: 0 <= k < ROWS && !(First(base, lag) <= k - LEFT_CONTEXT + off < Past(n, lag, end)) ==> r[k] == dst[k]
  {
    hide Live, Slope;
    r := dst;
    var top := if end then n + lag else n;
    for ii := base to top
      invariant |r| == ROWS
      invariant forall d :: First(base, lag) <= d < ii - lag ==> r[Slot(d, off)] == Slope(v, d)
      invariant forall k :: 0 <= k < ROWS && !(First(base, lag) <= k - LEFT_CONTEXT + off < ii - lag) ==> r[k] == dst[k]
    {
      var d := ii - lag;
      if d >= 0 {
        var x := Difference(src, off, d, n, v);
        r := r[Slot(d, off) := x];
      }
    }
  }

  ghost function SlopeRows(v: seq<real>, from: nat, to: nat): (r: seq<real>)
    requires from <= to <= |v|
    ensures |r| == to - from && forall i :: 0 <= i < to - from ==> r[i] == Slope(v, from + i)
  {
    seq(to - from, i requires 0 <= i < to - from => Slope(v, from + i))
  }

  /** A difference table catches up with its source. */
  method Extend(src: Table, dst: Table, off: nat, base: nat, n: nat, end: bool, lag: nat, cvn: bool, ghost m: nat,
                ghost st: Track, ghost dt: Track)
    returns (r: Table, ghost rt: Track)
    requires TableOk(src, off, st, m, cvn) && TableOk(dst, off, dt, m, cvn)
    requires base <= n && n - off <= ROWS - LEFT_CONTEXT && Oldest(off) <= First(base, lag + 2) && lag >= 2
    requires |st.raw| == Past(n, lag - 2, end) && |dt.raw| == First(base, lag)
    ensures TableOk(r, off, rt, m, cvn) && r.prior == dst.prior
    ensures rt.done == dt.done && dt.raw <= rt.raw && |rt.raw| == Past(n, lag, end)
    ensures forall d :: |dt.raw| <= d < |rt.raw| ==> rt.raw[d] == Slope(st.Column(), d)
  {
    hide Counted, Slope, Live, SlopeRows;
    LiveSized(dst.rows, off, dt.Column());
    var rows := Differentiate(src.rows, dst.rows, off, base, n, end, lag, st.Column());
    ghost var news := SlopeRows(st.Column(), |dt.raw|, Past(n, lag, end));
    r := dst.(rows := rows);
    rt := Track(dt.raw + news, dt.done);
    forall d | |dt.raw| <= d < |rt.raw| ensures rt.raw[d] == Slope(st.Column(), d) { assert rt.raw[d] == news[d - |dt.raw|]; }
    ExtendLive(dst.rows, rows, off, dt, rt);
    CountedExtends(dst, r, dt.raw, rt.raw, m, cvn);
  }

  lemma LiveSized(rows: seq<real>, off: nat, v: seq<real>)
    requires Live(rows, off, v)
    ensures |rows| == ROWS && |v| - off <= ROWS - LEFT_CONTEXT
  {
  }

  lemma ExtendLive(old_: seq<real>, rows: seq<real>, off: nat, dt: Track, rt: Track)
    requires |dt.done| <= |dt.raw| <= |rt.raw| && dt.done == rt.done && dt.raw <= rt.raw && Oldest(off) <= |dt.done|
    requires Live(old_, off, dt.Column()) && |rows| == ROWS && |rt.raw| - off <= ROWS - LEFT_CONTEXT
    requires forall d :: |dt.raw| <= d < |rt.raw| ==> rows[Slot(d, off)] == rt.raw[d]
    requires forall k :: 0 <= k < ROWS && !(|dt.raw| <= k - LEFT_CONTEXT + off < |rt.raw|) ==> rows[k] == old_[k]
    ensures Live(rows, off, rt.Column())
  {
    forall i | Oldest(off) <= i < |rt.raw| ensures rows[Slot(i, off)] == rt.Column()[i] {
      if i < |dt.raw| { assert dt.Column()[i] == rt.Column()[i]; }
    }
  }

  lemma CountedExtends(s: Table, r: Table, v: seq<real>, w: seq<real>, m: nat, cvn: bool)
    requires Counted(s, v, m, cvn) && v <= w && r.mean == s.mean && r.square == s.square
    ensures Counted(r, w, m, cvn)
  {
    hide AccOk;
    AccOkExtends(s.mean, v, w, m);
    if cvn {
      forall i | 0 <= i < |v| ensures Squares(v)[i] == Squares(w)[i] {}
      AccOkExtends(s.square, Squares(v), Squares(w), m);
    }
  }

  // ---------------------------------------------------------------- statistics

  /** Adds the rows from `from` to `to`, or their squares, to an accumulator. */
  method AbsorbRows(acc: Acc, rows: seq<real>, off: nat, from: nat, to: nat, squared: bool, ghost v: seq<real>)
    returns (r: Acc)
    requires AccOk(acc, v, from) && from <= to <= |v| && Oldest(off) <= from && |rows| == ROWS && to - off <= ROWS - LEFT_CONTEXT
    requires forall i :: from <= i < to ==>
      v[i] == if squared then rows[Slot(i, off)] * rows[Slot(i, off)] else rows[Slot(i, off)]
    ensures AccOk(r, v, to)
  {
    hide AccOk, Absorb;
    r := acc;
    for i := from to to
      invariant AccOk(r, v, i)
    {
      AbsorbKeeps(r, v, i);
      PotLength(r, v, i);
      var x := rows[Slot(i, off)];
      var y := if squared then x * x else x;
      assert y == v[i];
      r := Absorb(r, i, y);
    }
  }

  lemma PotLength(acc: Acc, v: seq<real>, n: nat)
    requires AccOk(acc, v, n)
    ensures |acc.pot| == SUM_SIZE
  {
  }

  /** The statistics of a table catch up with its rows, none of which is normalised yet. */
  method Gather(s: Table, off: nat, from: nat, to: nat, cvn: bool, ghost t: Track) returns (r: Table)
    requires TableOk(s, off, t, from, cvn) && from <= to <= |t.raw|
    ensures TableOk(r, off, t, to, cvn) && r.rows == s.rows && r.prior == s.prior
  {
    hide AccOk;
    assert forall i :: from <= i < to ==> t.Column()[i] == t.raw[i];
    var mean := AbsorbRows(s.mean, s.rows, off, from, to, false, t.raw);
    var square := s.square;
    if cvn {
      square := AbsorbRows(s.square, s.rows, off, from, to, true, Squares(t.raw));
      PotLength(square, Squares(t.raw), to);
    }
    r := s.(mean := mean, square := square);
  }

  /** Settings of the normaliser. */
  datatype Config = Config(hist: int, delay: nat, delayOff: int, cvn: bool, weight: nat, root: real -> real)

  /** Mean over the window ending before frame `n`, the prior counting for `weight` frames. */
  ghost function TrueMean(v: seq<real>, n: nat, c: Config, prior: real): real
    requires 0 < n <= |v| && Serves(c.hist)
  {
    NeededIsKept(n, c.hist);
    var a := SUM_SPAN * Needed(n, c.hist);
    MeanOf(RangeSum(v, a, n), n - a, prior, c.weight)
  }

  ghost function TrueVariance(v: seq<real>, n: nat, c: Config, prior: Prior): real
    requires 0 < n <= |v| && Serves(c.hist)
  {
    var mu := TrueMean(v, n, c, prior.mean);
    TrueMean(Squares(v), n, c, prior.square) - mu * mu
  }

  function Floored(x: real): real { if x < 0.001 then 0.001 else x }

  ghost function TrueDeviation(v: seq<real>, n: nat, c: Config, prior: Prior): real
    requires 0 < n <= |v| && Serves(c.hist)
  {
    Floored(c.root(TrueVariance(v, n, c, prior)))
  }

  /** The radicand is never negative. */
  lemma VarianceHolds(v: seq<real>, n: nat, c: Config, prior: Prior)
    requires 0 < n <= |v| && Serves(c.hist) && prior.square >= prior.mean * prior.mean
    ensures TrueVariance(v, n, c, prior) >= 0.0
  {
    hide MeanOf, RangeSum, Squares;
    NeededIsKept(n, c.hist);
    VarianceNonNeg(v, SUM_SPAN * Needed(n, c.hist), n, prior.mean, prior.square, c.weight);
  }

  method WindowMean(acc: Acc, n: nat, c: Config, prior: real, ghost v: seq<real>) returns (mu: real)
    requires AccOk(acc, v, n) && n > 0 && Serves(c.hist)
    ensures mu == TrueMean(v, n, c, prior)
  {
    hide AccOk, RangeSum;
    WindowExact(acc, v, n, c.hist);
    PotLength(acc, v, n);
    var pot := Needed(n, c.hist);
    var count := n - pot * SUM_SPAN;
    mu := MeanOf(acc.sum - acc.pot[pot % SUM_SIZE], count, prior, c.weight);
  }

  method Statistics(s: Table, n: nat, c: Config, ghost raw: seq<real>) returns (mu: real, va: real)
    requires Counted(s, raw, n, c.cvn) && 0 < n <= |raw| && Serves(c.hist)
    ensures mu == TrueMean(raw, n, c, s.prior.mean)
    ensures c.cvn ==> va == TrueDeviation(raw, n, c, s.prior)
    ensures va > 0.0
  {
    hide AccOk, TrueMean, Squares;
    mu := WindowMean(s.mean, n, c, s.prior.mean, raw);
    va := 1.0;
    if c.cvn {
      var second := WindowMean(s.square, n, c, s.prior.square, Squares(raw));
      va := Floored(c.root(second - mu * mu));
    }
  }

  function Normed(x: real, mu: real, va: real, cvn: bool): real
    requires va > 0.0
  {
    if cvn then (x - mu) / va else x - mu
  }

  lemma NormedUndone(x: real, mu: real, va: real, cvn: bool)
    requires va > 0.0
    ensures Normed(x, mu, va, cvn) * (if cvn then va else 1.0) + mu == x
  {
    Quotient(x - mu, va);
  }

  /** ROWS from `from` to `to` of the column, normalised. */
  ghost function NormedRows(raw: seq<real>, from: nat, to: nat, mu: real, va: real, cvn: bool): (r: seq<real>)
    requires from <= to <= |raw| && va > 0.0
    ensures |r| == to - from && forall i :: 0 <= i < to - from ==> r[i] == Normed(raw[from + i], mu, va, cvn)
  {
    seq(to - from, i requires 0 <= i < to - from => Normed(raw[from + i], mu, va, cvn))
  }

  /** Normalises rows in place, each once. */
  method Normalise(s: Table, off: nat, from: nat, to: nat, mu: real, va: real, cvn: bool, ghost t: Track, ghost m: nat)
    returns (r: Table, ghost rt: Track)
    requires TableOk(s, off, t, m, cvn) && from == |t.done| && from <= to <= m && va > 0.0
    ensures rt == Track(t.raw, t.done + NormedRows(t.raw, from, to, mu, va, cvn))
    ensures forall j :: from <= j < to ==> rt.done[j] * (if cvn then va else 1.0) + mu == t.raw[j]
    ensures TableOk(r, off, rt, m, cvn) && r.prior == s.prior
  {
    hide Counted, Normed, Live, NormedRows;
    var rows := NormaliseRows(s.rows, off, from, to, mu, va, cvn, t);
    r := s.(rows := rows);
    ghost var news := NormedRows(t.raw, from, to, mu, va, cvn);
    rt := Track(t.raw, t.done + news);
    NormedTail(t, rt.done, from, to, mu, va, cvn);
    NormalisedLive(s.rows, rows, off, from, to, t, rt);
    CountedExtends(s, r, t.raw, t.raw, m, cvn);
  }

  lemma NormedTail(t: Track, done: seq<real>, from: nat, to: nat, mu: real, va: real, cvn: bool)
    requires from == |t.done| <= to <= |t.raw| && va > 0.0 && done == t.done + NormedRows(t.raw, from, to, mu, va, cvn)
    ensures |done| == to && forall j :: from <= j < to ==> done[j] == Normed(t.raw[j], mu, va, cvn)
    ensures forall j :: from <= j < to ==> done[j] * (if cvn then va else 1.0) + mu == t.raw[j]
  {
    hide Normed, NormedRows;
    var news := NormedRows(t.raw, from, to, mu, va, cvn);
    forall j | from <= j < to
      ensures done[j] == Normed(t.raw[j], mu, va, cvn) && done[j] * (if cvn then va else 1.0) + mu == t.raw[j]
    {
      assert done[j] == news[j - from];
      NormedUndone(t.raw[j], mu, va, cvn);
    }
  }

  /** The loop over the rows that are due. */
  method NormaliseRows(before: seq<real>, off: nat, from: nat, to: nat, mu: real, va: real, cvn: bool, ghost t: Track)
    returns (rows: seq<real>)
    requires from == |t.done| <= to <= |t.raw| && Oldest(off) <= from && va > 0.0 && Live(before, off, t.Column())
    ensures |rows| == ROWS && to - off <= ROWS - LEFT_CONTEXT
    ensures forall k :: 0 <= k < ROWS && !(from <= k - LEFT_CONTEXT + off < to) ==> rows[k] == before[k]
    ensures forall j :: from <= j < to ==> rows[Slot(j, off)] == Normed(t.raw[j], mu, va, cvn)
    ensures forall j :: from <= j < to ==> rows[Slot(j, off)] * (if cvn then va else 1.0) + mu == t.raw[j]
  {
    hide Normed;
    rows := before;
    for i := from to to
      invariant |rows| == ROWS
      invariant forall k :: 0 <= k < ROWS && !(from <= k - LEFT_CONTEXT + off < i) ==> rows[k] == before[k]
      invariant forall j :: from <= j < i ==> rows[Slot(j, off)] == Normed(t.raw[j], mu, va, cvn)
    {
      assert before[Slot(i, off)] == t.Column()[i] == t.raw[i];
      rows := rows[Slot(i, off) := Normed(rows[Slot(i, off)], mu, va, cvn)];
    }
    RowsUndone(rows, t.raw, off, from, to, mu, va, cvn);
  }

  lemma RowsUndone(rows: seq<real>, raw: seq<real>, off: nat, from: nat, to: nat, mu: real, va: real, cvn: bool)
    requires |rows| == ROWS && to <= |raw| && to - off <= ROWS - LEFT_CONTEXT && Oldest(off) <= from && va > 0.0
    requires forall j :: from <= j < to ==> rows[Slot(j, off)] == Normed(raw[j], mu, va, cvn)
    ensures forall j :: from <= j < to ==> rows[Slot(j, off)] * (if cvn then va else 1.0) + mu == raw[j]
  {
    hide Normed;
    forall j | from <= j < to ensures rows[Slot(j, off)] * (if cvn then va else 1.0) + mu == raw[j] {
      NormedUndone(raw[j], mu, va, cvn);
    }
  }

  lemma NormalisedLive(before: seq<real>, rows: seq<real>, off: nat, from: nat, to: nat, t: Track, rt: Track)
    requires from == |t.done| <= to == |rt.done| <= |t.raw| && t.raw == rt.raw && t.done <= rt.done && Oldest(off) <= from
    requires Live(before, off, t.Column()) && |rows| == ROWS
    requires forall k :: 0 <= k < ROWS && !(from <= k - LEFT_CONTEXT + off < to) ==> rows[k] == before[k]
    requires forall j :: from <= j < to ==> rows[Slot(j, off)] == rt.done[j]
    ensures Live(rows, off, rt.Column())
  {
    forall i | Oldest(off) <= i < |rt.raw| ensures rows[Slot(i, off)] == rt.Column()[i] {
      if i < from || i >= to { assert t.Column()[i] == rt.Column()[i]; }
    }
  }
}
