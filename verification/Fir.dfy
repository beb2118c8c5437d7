/** The streaming, decimating FIR filter of CF0::do_ffir (Pitch.cpp): one pass over the filter memory
    computes an output and shifts the memory by `skip` samples at the same time. */
module Fir {
  import opened RealSums

  /** The whole signal, zero outside. */
  ghost function X(x: seq<real>, i: int): real { if 0 <= i < |x| then x[i] else 0.0 }

  function AbsInt(i: int): nat { if i < 0 then -i else i }

  /** Tap `j` of the symmetric filter whose right half is `fc`. */
  ghost function TapCoef(fc: seq<real>, j: int): real {
    var d := AbsInt(j - (|fc| - 1));
    if d < |fc| then fc[d] else 0.0
  }

  ghost function Tap(fc: seq<real>, x: seq<real>, p: int): int -> real {
    j => TapCoef(fc, j) * X(x, p + j - (|fc| - 1))
  }

  /** The filter applied to the whole signal at sample `p`. */
  ghost function Filtered(fc: seq<real>, x: seq<real>, p: int): real
    requires fc != []
  {
    Sum(Tap(fc, x, p), 2 * |fc| - 1)
  }

  /** The source moves every output away from zero by one half. */
  function Adjusted(sum: real): real { if sum < 0.0 then sum - 0.5 else sum + 0.5 }

  function Magnitude(x: real): real { if x < 0.0 then -x else x }

  /** Its magnitude grows by one half and its sign stays, zero going up. */
  lemma AdjustedIs(sum: real)
    ensures Magnitude(Adjusted(sum)) == Magnitude(sum) + 0.5 && (Adjusted(sum) < 0.0 <==> sum < 0.0)
  {
  }

  /** The memory holds the `2n - 1` samples around `p`. */
  ghost predicate Around(mem: seq<real>, x: seq<real>, p: int, n: nat) {
    && n > 0 && 2 * n - 1 <= |mem|
    && forall j :: 0 <= j < 2 * n - 1 ==> mem[j] == X(x, p + j - (n - 1))
  }

  /** All taps of the filter, mirrored from its half. */
  method Mirror(fc: seq<real>) returns (co: seq<real>)
    requires fc != []
    ensures |co| == 2 * |fc| - 1 && forall j :: 0 <= j < |co| ==> co[j] == TapCoef(fc, j)
  {
    var n := |fc|;
    co := seq(2 * n - 1, _ => 0.0);
    for i := 0 to n - 1
      invariant |co| == 2 * n - 1
      invariant forall j :: 0 <= j < i ==> co[j] == TapCoef(fc, j)
      invariant forall j :: 2 * (n - 1) - i < j < 2 * n - 1 ==> co[j] == TapCoef(fc, j)
    {
      co := co[i := fc[n - 1 - i]][2 * (n - 1) - i := fc[n - 1 - i]];
    }
    co := co[n - 1 := fc[0]];
  }

  /** `buf` holds the signal from sample `origin` on. */
  ghost predicate Window(buf: seq<real>, x: seq<real>, origin: nat) {
    forall m :: 0 <= m < |buf| ==> buf[m] == X(x, origin + m)
  }

  /** One turn of the main loop: sums the taps while moving the memory `skip` samples on. */
  method Turn(mem: array<real>, co: seq<real>, buf: seq<real>, at: nat, skip: nat,
              ghost fc: seq<real>, ghost x: seq<real>, ghost origin: nat, ghost p: nat)
    returns (sum: real)
    requires fc != [] && |co| == 2 * |fc| - 1 && 0 < skip <= |co| && mem.Length >= |co| && at + skip <= |buf|
    requires forall j :: 0 <= j < |co| ==> co[j] == TapCoef(fc, j)
    requires Around(mem[..], x, p, |fc|) && Window(buf, x, origin) && origin + at == p + |fc|
    modifies mem
    ensures sum == Filtered(fc, x, p)
    ensures Around(mem[..], x, p + skip, |fc|)
  {
    hide X, TapCoef, Tap, Sum;
    sum := Slide(mem, co, skip, fc, x, p);
    sum := TakeIn(mem, co, buf, at, skip, sum, fc, x, origin, p);
  }

  /** The memory while a turn is at tap `j`: moved on in front, as it was behind. */
  ghost predicate Halfway(mem: seq<real>, x: seq<real>, p: int, skip: nat, n: nat, j: nat) {
    && n > 0 && 2 * n - 1 <= |mem|
    && (forall i :: 0 <= i < j && i < 2 * n - 1 ==> mem[i] == X(x, p + skip + i - (n - 1)))
    && forall i :: j <= i < 2 * n - 1 ==> mem[i] == X(x, p + i - (n - 1))
  }

  ghost predicate Taps(co: seq<real>, fc: seq<real>) {
    fc != [] && |co| == 2 * |fc| - 1 && forall j :: 0 <= j < |co| ==> co[j] == TapCoef(fc, j)
  }

  /** The first inner loop: the memory moves `skip` places down. */
  method Slide(mem: array<real>, co: seq<real>, skip: nat, ghost fc: seq<real>, ghost x: seq<real>, ghost p: nat)
    returns (sum: real)
    requires Taps(co, fc) && 0 < skip <= |co| && Halfway(mem[..], x, p, skip, |fc|, 0)
    modifies mem
    ensures sum == Sum(Tap(fc, x, p), |co| - skip) && Halfway(mem[..], x, p, skip, |fc|, |co| - skip)
  {
    hide X, TapCoef, Tap, Sum;
    var k := |co|;
    sum := 0.0;
    SumNothing(Tap(fc, x, p));
    for j := 0 to k - skip
      invariant sum == Sum(Tap(fc, x, p), j) && Halfway(mem[..], x, p, skip, |fc|, j)
    {
      TapIs(co, fc, x, p, j, mem[j]);
      sum := sum + co[j] * mem[j];
      MovedOn(x, p, skip, |fc|, j);
      mem[j] := mem[j + skip];
    }
  }

  /** The second inner loop: new data behind. */
  method TakeIn(mem: array<real>, co: seq<real>, buf: seq<real>, at: nat, skip: nat, part: real,
                ghost fc: seq<real>, ghost x: seq<real>, ghost origin: nat, ghost p: nat)
    returns (sum: real)
    requires Taps(co, fc) && 0 < skip <= |co| && at + skip <= |buf| && Halfway(mem[..], x, p, skip, |fc|, |co| - skip)
    requires Window(buf, x, origin) && origin + at == p + |fc| && part == Sum(Tap(fc, x, p), |co| - skip)
    modifies mem
    ensures sum == Sum(Tap(fc, x, p), |co|) && Halfway(mem[..], x, p, skip, |fc|, |co|)
  {
    hide X, TapCoef, Tap, Sum;
    var k := |co|;
    sum := part;
    for j := k - skip to k
      invariant sum == Sum(Tap(fc, x, p), j) && Halfway(mem[..], x, p, skip, |fc|, j)
    {
      TapIs(co, fc, x, p, j, mem[j]);
      sum := sum + co[j] * mem[j];
      var m := at + (j - (k - skip));
      assert origin + m == p + skip + j - (|fc| - 1);
      mem[j] := buf[m];
    }
  }

  lemma SumNothing(f: int -> real)
    ensures Sum(f, 0) == 0.0
  {
  }

  /** One tap more. */
  lemma TapIs(co: seq<real>, fc: seq<real>, x: seq<real>, p: int, j: nat, m: real)
    requires Taps(co, fc) && j < |co| && m == X(x, p + j - (|fc| - 1))
    ensures Sum(Tap(fc, x, p), j + 1) == Sum(Tap(fc, x, p), j) + co[j] * m
  {
    hide X, TapCoef;
  }

  lemma MovedOn(x: seq<real>, p: int, skip: nat, n: nat, j: nat)
    ensures X(x, p + (j + skip) - (n - 1)) == X(x, p + skip + j - (n - 1))
  {
    assert p + (j + skip) - (n - 1) == p + skip + j - (n - 1);
  }

  /** What the samples at distance `d + 1` on both sides contribute. */
  ghost function Sides(fc: seq<real>, x: seq<real>, p: int): int -> real {
    d => (if 0 <= d < |fc| - 1 then fc[d + 1] else 0.0) * (X(x, p - (d + 1)) + X(x, p + (d + 1)))
  }

  ghost function RightTaps(fc: seq<real>, x: seq<real>, p: int): int -> real { j => Tap(fc, x, p)(|fc| + j) }

  ghost function LeftTaps(fc: seq<real>, x: seq<real>, p: int): int -> real { j => Tap(fc, x, p)(|fc| - 2 - j) }

  /** The filter is symmetric about the sample it is applied to. */
  lemma FilteredIsSymmetric(fc: seq<real>, x: seq<real>, p: int)
    requires fc != []
    ensures Filtered(fc, x, p) == fc[0] * X(x, p) + Sum(Sides(fc, x, p), |fc| - 1)
  {
    hide X, TapCoef, Tap, Sides, Sum;
    var m := |fc| - 1;
    var tap, left, right, sides := Tap(fc, x, p), LeftTaps(fc, x, p), RightTaps(fc, x, p), Sides(fc, x, p);
    SumSplit(tap, right, m + 1, m);
    assert m + 1 + m == 2 * |fc| - 1;
    SumReverse(tap, left, m);
    forall j | 0 <= j < m ensures sides(j) == left(j) + 1.0 * right(j) {
      SidesAt(fc, x, p, j);
    }
    SumLinear(left, right, sides, 1.0, m);
    SumLast(tap, m);
    MiddleTap(fc, x, p);
  }

  lemma MiddleTap(fc: seq<real>, x: seq<real>, p: int)
    requires fc != []
    ensures Tap(fc, x, p)(|fc| - 1) == fc[0] * X(x, p)
  {
    hide X;
    assert p + (|fc| - 1) - (|fc| - 1) == p;
  }

  lemma SidesAt(fc: seq<real>, x: seq<real>, p: int, j: nat)
    requires j < |fc| - 1
    ensures Sides(fc, x, p)(j) == Tap(fc, x, p)(|fc| - 2 - j) + Tap(fc, x, p)(|fc| + j)
  {
    var m := |fc| - 1;
    assert TapCoef(fc, m - 1 - j) == fc[j + 1] && TapCoef(fc, m + 1 + j) == fc[j + 1];
    assert p + (m - 1 - j) - m == p - (j + 1) && p + (m + 1 + j) - m == p + (j + 1);
    hide X;
  }

  // ---------------------------------------------------------------- calls

  /** The saved samples are the `n - 1` ones in front of `origin`. */
  ghost predicate Saved(state: seq<real>, x: seq<real>, origin: nat, n: nat) {
    |state| == n - 1 && forall j :: 0 <= j < |state| ==> state[j] == X(x, origin - (n - 1) + j)
  }

  class Filter {
    const fc: seq<real>    // half of the filter
    const skip: nat
    var co: seq<real>      // the whole filter
    var mem: array<real>   // filter memory
    var state: seq<real>   // samples joining this call to the next

    ghost predicate Valid()
      reads this
    {
      && fc != [] && 2 <= skip <= 2 * |fc| - 1 && mem.Length >= 2 * |fc| - 1
      && |co| == 2 * |fc| - 1 && |state| == |fc| - 1
    }

    ghost predicate Mirrored()
      reads this
      requires Valid()
    {
      forall j :: 0 <= j < |co| ==> co[j] == TapCoef(fc, j)
    }

    constructor (fc: seq<real>, skip: nat)
      requires fc != [] && 2 <= skip <= 2 * |fc| - 1
      ensures Valid() && this.fc == fc && this.skip == skip && fresh(mem)
    {
      this.fc, this.skip := fc, skip;
      co, state := seq(2 * |fc| - 1, _ => 0.0), seq(|fc| - 1, _ => 0.0);
      mem := new real[2 * (|fc| + 1)];
    }

    /** Fills the memory: saved samples (or zeros) in front, new data behind. */
    method Load(buf: seq<real>, first: bool, ghost x: seq<real>, ghost origin: nat)
      requires Valid() && |buf| >= |fc| && Window(buf, x, origin)
      requires first ==> origin == 0
      requires !first ==> Saved(state, x, origin, |fc|)
      modifies mem
      ensures Around(mem[..], x, origin, |fc|)
    {
      var n := |fc|;
      for j := 0 to n
        invariant forall i :: 0 <= i < j ==> mem[n - 1 + i] == buf[i]
      {
        mem[n - 1 + j] := buf[j];
      }
      for j := 0 to n - 1
        invariant forall i :: 0 <= i < n ==> mem[n - 1 + i] == buf[i]
        invariant forall i :: 0 <= i < j ==> mem[i] == X(x, origin + i - (n - 1))
      {
        mem[j] := if first then 0.0 else state[j];
      }
      forall j | 0 <= j < 2 * n - 1 ensures mem[j] == X(x, origin + j - (n - 1)) {
        if j >= n - 1 { assert mem[n - 1 + (j - (n - 1))] == buf[j - (n - 1)]; }
      }
    }

    /** do_ffir: the l-th output of a call is the filter applied to the whole signal at the call's
        first sample plus l * skip, whatever calls came before. */
    method Run(buf: seq<real>, outSamps: nat, idx: nat, first: bool, ghost x: seq<real>, ghost origin: nat)
      returns (out: seq<real>)
      requires Valid() && |fc| + outSamps * skip <= |buf| && |fc| - 1 <= idx <= |buf| && Window(buf, x, origin)
      requires first ==> origin == 0
      requires !first ==> Mirrored() && Saved(state, x, origin, |fc|)
      modifies this`co, this`state, mem
      ensures Valid() && Mirrored() && Saved(state, x, origin + idx, |fc|)
      ensures |out| == outSamps
      ensures forall l :: 0 <= l < outSamps ==> out[l] == Adjusted(Filtered(fc, x, origin + l * skip))
    {
      hide X, Around, TapCoef, Filtered, Adjusted, Window, Saved;
      if first { co := Mirror(fc); }
      Load(buf, first, x, origin);
      out := Turns(buf, outSamps, x, origin);
      SavedTail(buf, x, origin, idx, |fc|);
      state := buf[idx - |fc| + 1..idx];
      SavedLength(state, x, origin + idx, |fc|);
    }

    /** The main loop of a call. */
    method Turns(buf: seq<real>, outSamps: nat, ghost x: seq<real>, ghost origin: nat) returns (out: seq<real>)
      requires Valid() && Mirrored() && Window(buf, x, origin) && Around(mem[..], x, origin, |fc|)
      requires |fc| + outSamps * skip <= |buf|
      modifies mem
      ensures |out| == outSamps
      ensures forall l :: 0 <= l < outSamps ==> out[l] == Adjusted(Filtered(fc, x, origin + l * skip))
    {
      hide X, Around, TapCoef, Filtered, Adjusted, Window;
      out := [];
      var at := |fc|;
      ghost var p := origin;
      for l := 0 to outSamps
        invariant |out| == l && at == |fc| + l * skip && p == origin + l * skip
        invariant Around(mem[..], x, p, |fc|)
        invariant forall i :: 0 <= i < l ==> out[i] == Adjusted(Filtered(fc, x, origin + i * skip))
      {
        Ahead(l, outSamps, skip);
        var sum := Turn(mem, co, buf, at, skip, fc, x, origin, p);
        out := out + [Adjusted(sum)];
        at := at + skip;
        p := p + skip;
      }
    }
  }

  lemma SavedLength(state: seq<real>, x: seq<real>, origin: nat, n: nat)
    requires Saved(state, x, origin, n)
    ensures |state| == n - 1
  {
    hide X;
  }

  lemma Ahead(l: nat, m: nat, skip: nat)
    requires l < m
    ensures (l + 1) * skip == l * skip + skip && l * skip + skip <= m * skip
  {
    Product(m - (l + 1), skip);
    assert (m - (l + 1)) * skip == m * skip - (l * skip + skip);
  }

  lemma Product(a: nat, b: nat)
    ensures a * b >= 0
  {
  }

  lemma SavedTail(buf: seq<real>, x: seq<real>, origin: nat, idx: nat, n: nat)
    requires Window(buf, x, origin) && 0 < n <= idx + 1 && idx <= |buf|
    ensures Saved(buf[idx - n + 1..idx], x, origin + idx, n)
  {
    var s := buf[idx - n + 1..idx];
    forall j | 0 <= j < |s| ensures s[j] == X(x, origin + idx - (n - 1) + j) {
      assert s[j] == buf[idx - n + 1 + j];
      assert origin + (idx - n + 1 + j) == origin + idx - (n - 1) + j;
    }
  }

  /** Consecutive calls on overlapping buffers of one signal. */
  method Downsample(x: seq<real>, fc: seq<real>, skip: nat, calls: nat, len: nat, idx: nat, outSamps: nat)
    returns (outs: seq<seq<real>>)
    requires fc != [] && 2 <= skip <= 2 * |fc| - 1
    requires |fc| + outSamps * skip <= len && |fc| - 1 <= idx <= len && calls * idx + len <= |x|
    ensures |outs| == calls && forall c :: 0 <= c < calls ==> |outs[c]| == outSamps
    ensures forall c, l :: 0 <= c < calls && 0 <= l < outSamps ==>
      outs[c][l] == Adjusted(Filtered(fc, x, c * idx + l * skip))
  {
    hide Filtered, Adjusted;
    var f := new Filter(fc, skip);
    outs := [];
    assert 0 * idx == 0;
    for c := 0 to calls
      invariant f.Valid() && f.fc == fc && f.skip == skip && |outs| == c && fresh(f) && fresh(f.mem)
      invariant c > 0 ==> f.Mirrored() && Saved(f.state, x, c * idx, |fc|)
      invariant forall b :: 0 <= b < c ==> |outs[b]| == outSamps
      invariant forall b, l :: 0 <= b < c && 0 <= l < outSamps ==>
        outs[b][l] == Adjusted(Filtered(fc, x, b * idx + l * skip))
    {
      Ahead(c, calls, idx);
      var buf := x[c * idx..c * idx + len];
      assert Window(buf, x, c * idx);
      var out := f.Run(buf, outSamps, idx, c == 0, x, c * idx);
      outs := outs + [out];
    }
  }
}
