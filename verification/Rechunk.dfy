/** The two re-chunkers of voice_activation.cpp: `beam_forming` and `process` both cut an arbitrarily
    chunked multi-microphone stream into whole frames and carry the remainder to the next call.
    They differ in one address, and only one of them never loses a sample. */
module Rechunk {

  /** memcpy into the middle of a buffer. */
  function Blit(dst: seq<real>, at: nat, src: seq<real>, from: nat, len: nat): (r: seq<real>)
    requires at + len <= |dst| && from + len <= |src|
    ensures |r| == |dst|
  {
    dst[..at] + src[from..from + len] + dst[at + len..]
  }

  /** What one microphone has waiting followed by what arrives. */
  function Stream(row: seq<real>, offset: nat, input: seq<real>): seq<real>
    requires offset <= |row|
  {
    row[..offset] + input
  }

  /** Row `j` of the buffer just before frame `i` is processed. */
  function FrameRow(row: seq<real>, offset: nat, input: seq<real>, frame: nat, i: nat): seq<real>
    requires |row| == frame && offset < frame && (i + 1) * frame <= offset + |input|
  {
    Stream(row, offset, input)[i * frame..(i + 1) * frame]
  }

  /** The copy of frame 0 completes the carry; the copy of a later frame is all input. */
  lemma FirstCopy(row: seq<real>, offset: nat, input: seq<real>, frame: nat)
    requires |row| == frame && offset < frame && frame <= offset + |input|
    ensures Blit(row, offset, input, 0, frame - offset) == FrameRow(row, offset, input, frame, 0)
  {
  }

  lemma LaterCopy(row: seq<real>, offset: nat, input: seq<real>, frame: nat, i: nat, old': seq<real>)
    requires |row| == |old'| == frame && offset < frame && 0 < i && (i + 1) * frame <= offset + |input|
    ensures i * frame >= offset && i * frame - offset + frame <= |input|
    ensures Blit(old', 0, input, i * frame - offset, frame) == FrameRow(row, offset, input, frame, i)
  {
    assert i * frame >= frame && (i + 1) * frame == i * frame + frame;
  }

  /** The first `k` samples of the stream. */
  function Prefix(row: seq<real>, offset: nat, input: seq<real>, k: nat): seq<real>
    requires offset <= |row| && k <= offset + |input|
  {
    Stream(row, offset, input)[..k]
  }

  /** Where the last whole frame ends. */
  function CutAt(total: nat, frame: nat): nat
    requires frame > 0
  {
    (total / frame) * frame
  }

  lemma PrefixZero(row: seq<real>, offset: nat, input: seq<real>)
    requires offset <= |row|
    ensures Prefix(row, offset, input, 0) == []
  {
  }

  lemma FrameAppends(row: seq<real>, offset: nat, input: seq<real>, frame: nat, i: nat)
    requires |row| == frame && offset < frame && (i + 1) * frame <= offset + |input|
    ensures i * frame + frame == (i + 1) * frame
    ensures Prefix(row, offset, input, i * frame) + FrameRow(row, offset, input, frame, i) ==
            Prefix(row, offset, input, (i + 1) * frame)
  {
    assert i * frame + frame == (i + 1) * frame;
  }

  lemma DivMod(total: nat, frame: nat)
    requires frame > 0
    ensures (total / frame) * frame + total % frame == total && total % frame < frame
    ensures total < frame ==> total / frame == 0 && total % frame == total
    ensures total >= frame ==> total / frame >= 1
  {
  }

  lemma FrameFits(total: nat, frame: nat, i: nat)
    requires frame > 0 && i < total / frame
    ensures (i + 1) * frame <= total
  {
    assert (i + 1) * frame <= (total / frame) * frame;
  }

  /** The remainder after all whole frames have been cut off. */
  function Remainder(row: seq<real>, offset: nat, input: seq<real>, frame: nat): seq<real>
    requires |row| == frame && offset < frame
  {
    DivMod(offset + |input|, frame);
    Stream(row, offset, input)[((offset + |input|) / frame) * frame..]
  }

  lemma SaveCompletes(row: seq<real>, offset: nat, input: seq<real>, frame: nat)
    requires |row| == frame && offset < frame && offset + |input| < frame
    ensures Blit(row, offset, input, 0, |input|)[..offset + |input|] == Remainder(row, offset, input, frame)
  {
    DivMod(offset + |input|, frame);
  }

  lemma SaveTail(row: seq<real>, offset: nat, input: seq<real>, frame: nat, last: seq<real>, length: nat)
    requires |row| == |last| == frame && offset < frame <= offset + |input|
    requires length == if offset + |input| > frame then (offset + |input|) % frame else |input|
    ensures length <= |input| && length <= frame && (offset + |input|) % frame <= length
    ensures Blit(last, 0, input, |input| - length, length)[..(offset + |input|) % frame] ==
            Remainder(row, offset, input, frame)
  {
    var total := offset + |input|;
    TailArith(offset, |input|, frame);
    var k := (total / frame) * frame;
    var s := Stream(row, offset, input);
    assert s[k..] == input[k - offset..];
  }

  lemma TailArith(offset: nat, n: nat, frame: nat)
    requires offset < frame <= offset + n
    ensures var total := offset + n;
      && total % frame <= total - frame < n && total % frame < frame
      && (total / frame) * frame == total - total % frame
  {
    var total := offset + n;
    DivMod(total, frame);
    assert (total / frame) * frame >= frame;
  }

  /** What microphone `j` got in the first `n` calls. */
  function Joined(inputs: seq<seq<seq<real>>>, j: nat, n: nat): seq<real>
    requires n <= |inputs| && forall i :: 0 <= i < n ==> j < |inputs[i]|
  {
    if n == 0 then [] else Joined(inputs, j, n - 1) + inputs[n - 1][j]
  }

  class Rechunker {
    const mics: nat
    const frame: nat
    var buff: seq<seq<real>>        // one row of `frame` samples per microphone
    var offset: nat                 // samples carried in each row
    ghost var fed: seq<seq<real>>   // per microphone: samples in the frames processed so far
    ghost var given: seq<seq<real>> // per microphone: all samples received so far

    ghost predicate Shape()
      reads this
    {
      && frame > 0 && offset < frame && |buff| == |fed| == |given| == mics
      && forall j :: 0 <= j < mics ==> |buff[j]| == frame
    }

    /** Nothing is lost, repeated or reordered. */
    ghost predicate Lossless()
      reads this
      requires Shape()
    {
      forall j :: 0 <= j < mics ==> given[j] == fed[j] + buff[j][..offset]
    }

    constructor (mics: nat, frame: nat)
      requires frame > 0
      ensures Shape() && Lossless() && this.mics == mics && this.frame == frame
      ensures forall j :: 0 <= j < mics ==> given[j] == []
    {
      this.mics, this.frame := mics, frame;
      buff := seq(mics, _ => seq(frame, _ => 0.0));
      offset := 0;
      fed, given := seq(mics, _ => []), seq(mics, _ => []);
    }

    ghost predicate InputOk(input: seq<seq<real>>, n: nat) {
      |input| == mics && forall j :: 0 <= j < mics ==> |input[j]| == n
    }

    /** Copies frame `i` into every row: `at` and `back` are the source's `offset` and `offset2`. */
    method CopyFrame(input: seq<seq<real>>, n: nat, i: nat, at: nat, back: nat, ghost rows: seq<seq<real>>)
      requires Shape() && InputOk(input, n) && |rows| == mics
      requires forall j :: 0 <= j < mics ==> |rows[j]| == frame
      requires (i + 1) * frame <= offset + n
      requires i == 0 ==> at == offset && back == 0 && buff == rows
      requires i > 0 ==> at == 0 && back == offset
      modifies this`buff
      ensures Shape()
      ensures forall j :: 0 <= j < mics ==> buff[j] == FrameRow(rows[j], offset, input[j], frame, i)
    {
      hide Blit, FrameRow;
      for j := 0 to mics
        invariant Shape()
        invariant forall m :: 0 <= m < j ==> buff[m] == FrameRow(rows[m], offset, input[m], frame, i)
        invariant forall m :: j <= m < mics ==> buff[m] == old(buff[m])
      {
        if i == 0 {
          FirstCopy(rows[j], offset, input[j], frame);
        } else {
          LaterCopy(rows[j], offset, input[j], frame, i, buff[j]);
        }
        buff := buff[j := Blit(buff[j], at, input[j], i * frame - back, frame - at)];
      }
    }

    /** The beamformer (or processfrm) gets the frame in `buff`. */
    ghost method Deliver()
      requires Shape()
      modifies this`fed
      ensures Shape()
      ensures forall j :: 0 <= j < mics ==> fed[j] == old(fed[j]) + buff[j]
    {
      fed := seq(mics, j requires 0 <= j < mics && |buff| == |fed| == mics reads this => fed[j] + buff[j]);
    }

    /** The frame loop common to both functions. */
    method Cut(input: seq<seq<real>>, n: nat) returns (at: nat)
      requires Shape() && InputOk(input, n)
      modifies this`buff, this`fed
      ensures Shape() && at == (if offset + n < frame then offset else 0)
      ensures offset + n < frame ==> buff == old(buff) && fed == old(fed)
      ensures forall j :: 0 <= j < mics ==>
        CutAt(offset + n, frame) <= offset + n &&
        fed[j] == old(fed[j]) + Prefix(old(buff[j]), offset, input[j], CutAt(offset + n, frame))
    {
      hide FrameRow, Prefix;
      var num, back := (offset + n) / frame, 0;
      at := offset;
      ghost var rows, before := buff, fed;
      DivMod(offset + n, frame);
      forall j | 0 <= j < mics ensures before[j] + Prefix(rows[j], offset, input[j], 0) == before[j] {
        PrefixZero(rows[j], offset, input[j]);
      }
      for i := 0 to num
        invariant Shape() && (i == 0 ==> at == offset && back == 0 && buff == rows && fed == before)
        invariant i > 0 ==> at == 0 && back == offset
        invariant 0 <= i * frame <= offset + n
        invariant forall j :: 0 <= j < mics ==> fed[j] == before[j] + Prefix(rows[j], offset, input[j], i * frame)
      {
        FrameFits(offset + n, frame, i);
        ghost var fed0 := fed;
        CopyFrame(input, n, i, at, back, rows);
        Deliver();
        forall j | 0 <= j < mics ensures fed[j] == before[j] + Prefix(rows[j], offset, input[j], (i + 1) * frame) {
          FrameAppends(rows[j], offset, input[j], frame, i);
        }
        at, back := 0, offset;
      }
      assert CutAt(offset + n, frame) == num * frame;
    }

    /** The copy behind the loop, into every row at `at`. */
    method Save(input: seq<seq<real>>, n: nat, at: nat, length: nat)
      requires Shape() && InputOk(input, n) && length <= n && at + length <= frame
      modifies this`buff
      ensures Shape() && forall j :: 0 <= j < mics ==> buff[j] == Blit(old(buff[j]), at, input[j], n - length, length)
    {
      hide Blit;
      for j := 0 to mics
        invariant Shape()
        invariant forall m :: 0 <= m < j ==> buff[m] == Blit(old(buff[m]), at, input[m], n - length, length)
        invariant forall m :: j <= m < mics ==> buff[m] == old(buff[m])
      {
        buff := buff[j := Blit(buff[j], at, input[j], n - length, length)];
      }
    }

    /** Books `input` as received. */
    ghost method Receive(input: seq<seq<real>>, n: nat)
      requires Shape() && InputOk(input, n)
      modifies this`given
      ensures Shape() && forall j :: 0 <= j < mics ==> given[j] == old(given[j]) + input[j]
    {
      given := seq(mics, j requires 0 <= j < mics && |given| == |input| == mics reads this => given[j] + input[j]);
    }

    /** beam_forming keeps every sample: for any input size, whatever the carry. */
    method BeamForming(input: seq<seq<real>>, n: nat)
      requires Shape() && Lossless() && InputOk(input, n)
      modifies this
      ensures Shape() && Lossless() && offset == (old(offset) + n) % frame
      ensures forall j :: 0 <= j < mics ==> given[j] == old(given[j]) + input[j]
    {
      hide Blit, Stream, Prefix, Remainder;
      ghost var rows, fed0, off := buff, fed, offset;
      DivMod(offset + n, frame);
      var at := Cut(input, n);
      var total := n + offset;
      var length := if total > frame then total % frame else n;
      ghost var last := buff;
      forall j | 0 <= j < mics
        ensures length <= n && at + length <= frame && total % frame <= frame
        ensures Blit(last[j], at, input[j], n - length, length)[..total % frame] == Remainder(rows[j], off, input[j], frame)
      {
        if total < frame { SaveCompletes(rows[j], off, input[j], frame); }
        else { SaveTail(rows[j], off, input[j], frame, last[j], length); }
      }
      assert length <= n && at + length <= frame by {
        if total >= frame { TailFits(off, n, frame, length); }
      }
      Save(input, n, at, length);
      offset := total % frame;
      Receive(input, n);
      forall j | 0 <= j < mics ensures given[j] == fed[j] + buff[j][..offset] {
        Joins(rows[j], off, input[j], frame, fed0[j]);
      }
    }

    /** Any sequence of calls, of any sizes. */
    method BeamFormingAll(inputs: seq<seq<seq<real>>>, sizes: seq<nat>)
      requires Shape() && Lossless() && |inputs| == |sizes|
      requires forall i :: 0 <= i < |inputs| ==> |inputs[i]| == mics && InputOk(inputs[i], sizes[i])
      modifies this
      ensures Shape() && Lossless()
      ensures forall j :: 0 <= j < mics ==> given[j] == old(given[j]) + Joined(inputs, j, |inputs|)
    {
      hide Lossless;
      for i := 0 to |inputs|
        invariant Shape() && Lossless()
        invariant forall j :: 0 <= j < mics ==> given[j] == old(given[j]) + Joined(inputs, j, i)
      {
        BeamForming(inputs[i], sizes[i]);
      }
    }

    /** process keeps every sample unless it meets a non-empty carry with an input that does not
        complete a frame. */
    method Process(input: seq<seq<real>>, n: nat)
      requires Shape() && Lossless() && InputOk(input, n)
      modifies this
      ensures Shape() && offset == (old(offset) + n) % frame
      ensures forall j :: 0 <= j < mics ==> given[j] == old(given[j]) + input[j]
      ensures forall j :: 0 <= j < mics ==>
        buff[j][..offset] == CarryOfProcess(old(buff[j]), old(offset), input[j], frame)
      ensures Keeps(old(offset), n, frame) ==> Lossless()
    {
      hide Blit, Stream, Prefix, Remainder, CarryOfProcess;
      ghost var rows, fed0, off := buff, fed, offset;
      DivMod(offset + n, frame);
      var _ := Cut(input, n);
      var total := n + offset;
      var length := if total > frame then total % frame else n;
      ghost var last := buff;
      if total >= frame { TailFits(off, n, frame, length); }
      forall j | 0 <= j < mics
        ensures Blit(last[j], 0, input[j], n - length, length)[..total % frame] == CarryOfProcess(rows[j], off, input[j], frame)
      {
        ProcessCarry(rows[j], off, input[j], frame, last[j], length);
      }
      Save(input, n, 0, length);
      offset := total % frame;
      Receive(input, n);
      if Keeps(off, n, frame) {
        forall j | 0 <= j < mics ensures given[j] == fed[j] + buff[j][..offset] {
          KeepsRemainder(rows[j], off, input[j], frame);
          Joins(rows[j], off, input[j], frame, fed0[j]);
        }
      }
    }
  }

  lemma TailFits(offset: nat, n: nat, frame: nat, length: nat)
    requires offset < frame <= offset + n
    requires length == if offset + n > frame then (offset + n) % frame else n
    ensures length <= n && length <= frame
  {
    SaveTail(seq(frame, _ => 0.0), offset, seq(n, _ => 0.0), frame, seq(frame, _ => 0.0), length);
  }

  /** Frames cut off, then the remainder: the whole stream. */
  lemma Joins(row: seq<real>, offset: nat, input: seq<real>, frame: nat, fed: seq<real>)
    requires |row| == frame && offset < frame
    ensures CutAt(offset + |input|, frame) <= offset + |input|
    ensures fed + row[..offset] + input ==
            fed + Prefix(row, offset, input, CutAt(offset + |input|, frame)) + Remainder(row, offset, input, frame)
  {
    DivMod(offset + |input|, frame);
    var s := Stream(row, offset, input);
    var k := ((offset + |input|) / frame) * frame;
    assert s == s[..k] + s[k..];
  }

  // ---------------------------------------------------------------- when process loses samples

  /** The carry that process leaves: too short an input is copied over the old carry, not behind it. */
  function CarryOfProcess(row: seq<real>, offset: nat, input: seq<real>, frame: nat): seq<real>
    requires |row| == frame && offset < frame
  {
    if offset + |input| < frame then Blit(row, 0, input, 0, |input|)[..offset + |input|]
    else Remainder(row, offset, input, frame)
  }

  lemma ProcessCarry(row: seq<real>, offset: nat, input: seq<real>, frame: nat, last: seq<real>, length: nat)
    requires |row| == |last| == frame && offset < frame && length <= |input| && length <= frame
    requires length == if offset + |input| > frame then (offset + |input|) % frame else |input|
    requires offset + |input| < frame ==> last == row
    ensures (offset + |input|) % frame <= frame
    ensures Blit(last, 0, input, |input| - length, length)[..(offset + |input|) % frame] == CarryOfProcess(row, offset, input, frame)
  {
    DivMod(offset + |input|, frame);
    if offset + |input| >= frame { SaveTail(row, offset, input, frame, last, length); }
  }

  predicate Keeps(offset: nat, n: nat, frame: nat) { offset == 0 || n == 0 || offset + n >= frame }

  lemma KeepsRemainder(row: seq<real>, offset: nat, input: seq<real>, frame: nat)
    requires |row| == frame && offset < frame && Keeps(offset, |input|, frame)
    ensures CarryOfProcess(row, offset, input, frame) == Remainder(row, offset, input, frame)
  {
    DivMod(offset + |input|, frame);
  }

  /** For given sizes, process carries the right samples for every content if and only if `Keeps`. */
  lemma ProcessLosesExactlyWhen(offset: nat, n: nat, frame: nat)
    requires offset < frame
    ensures Keeps(offset, n, frame) <==>
      forall row: seq<real>, input: seq<real> :: |row| == frame && |input| == n ==>
        CarryOfProcess(row, offset, input, frame) == Remainder(row, offset, input, frame)
  {
    if Keeps(offset, n, frame) {
      forall row: seq<real>, input: seq<real> | |row| == frame && |input| == n
        ensures CarryOfProcess(row, offset, input, frame) == Remainder(row, offset, input, frame)
      {
        KeepsRemainder(row, offset, input, frame);
      }
    } else {
      var row: seq<real>, input: seq<real> := seq(frame, _ => 0.0), seq(n, _ => 1.0);
      DivMod(offset + n, frame);
      assert CarryOfProcess(row, offset, input, frame)[0] == 1.0;
      assert Remainder(row, offset, input, frame)[0] == 0.0;
    }
  }

  // ---------------------------------------------------------------- the detector's input

  /** check_voice_activity after `i` of `frames` frames: what is left is copied to the front, from place
      `i * frames` where `i * frame` was meant. */
  method SaveVad(room: array<real>, total: nat, i: nat, frames: nat, frame: nat) returns (rest: nat)
    requires frame > 0 && frames == total / frame && i <= frames && total <= room.Length
    requires i * frames + (total - i * frame) <= room.Length && i * frame <= total
    modifies room
    ensures rest == total - i * frame && rest <= room.Length
    ensures room[..rest] == VadCarry(old(room[..]), total, i, frames, frame)
  {
    rest := total - i * frame;
    var at := i * frames;
    Forward(i, frames);
    for j := 0 to rest
      invariant forall k :: 0 <= k < j ==> room[k] == old(room[at + k])
      invariant forall k :: j <= k < room.Length ==> room[k] == old(room[k])
    {
      room[j] := room[at + j];
    }
  }

  lemma Forward(i: nat, frames: nat)
    ensures i * frames >= 0
  {
  }

  /** What it carries, and what it should carry. */
  function VadCarry(room: seq<real>, total: nat, i: nat, frames: nat, frame: nat): seq<real>
    requires i * frame <= total && i * frames + (total - i * frame) <= |room|
  {
    room[i * frames..i * frames + (total - i * frame)]
  }

  function VadRest(room: seq<real>, total: nat, i: nat, frame: nat): seq<real>
    requires i * frame <= total <= |room|
  {
    room[i * frame..total]
  }

  /** The carry is right for every content if and only if nothing is left, no frame was used, or there are as
      many frames as a frame has samples. */
  lemma VadCarryExact(total: nat, i: nat, frames: nat, frame: nat, size: nat)
    requires frame > 0 && frames == total / frame && i <= frames && i * frame <= total <= size && i * frames + (total - i * frame) <= size
    ensures total == i * frame || i == 0 || frames == frame <==>
      forall room: seq<real> | |room| == size :: VadCarry(room, total, i, frames, frame) == VadRest(room, total, i, frame)
  {
    var p, q, rest := i * frames, i * frame, total - i * frame;
    SamePlace(i, frames, frame);
    if i > 0 && frames != frame { OtherPlace(i, frames, frame); }
    PlacesMatter(p, q, rest, size);
    forall room: seq<real> | |room| == size
      ensures VadCarry(room, total, i, frames, frame) == room[p..p + rest] && VadRest(room, total, i, frame) == room[q..q + rest]
    {
    }
  }

  /** Copies from two places agree for every content if and only if they are the same place, or empty. */
  lemma PlacesMatter(p: nat, q: nat, rest: nat, size: nat)
    requires p + rest <= size && q + rest <= size
    ensures rest == 0 || p == q <==> forall room: seq<real> | |room| == size :: room[p..p + rest] == room[q..q + rest]
  {
    if rest > 0 && p != q {
      var room := seq(size, j requires 0 <= j => j as real);
      assert room[p..p + rest][0] == p as real && room[q..q + rest][0] == q as real;
    }
  }

  lemma SamePlace(i: nat, frames: nat, frame: nat)
    ensures i == 0 || frames == frame ==> i * frames == i * frame
  {
  }

  lemma OtherPlace(i: nat, frames: nat, frame: nat)
    requires i > 0 && frames != frame
    ensures i * frames != i * frame
  {
    assert i * (frames - frame) == i * frames - i * frame;
    assert i * (frames - frame) != 0;
  }

  /** Fed whole frames, the carry goes wrong exactly when a stop leaves frames over, except for the one count. */
  lemma StopInTheMiddle(i: nat, frames: nat, frame: nat, size: nat)
    requires frame > 0 && 0 < i <= frames && i * frame <= frames * frame <= size && i * frames + (frames * frame - i * frame) <= size
    ensures frames * frame / frame == frames
    ensures i == frames || frames == frame <==>
      forall room: seq<real> | |room| == size ::
        VadCarry(room, frames * frame, i, frames, frame) == VadRest(room, frames * frame, i, frame)
  {
    Whole(frames, frame);
    VadCarryExact(frames * frame, i, frames, frame, size);
    if i != frames { OtherPlace(frame, i, frames); }
  }

  lemma Whole(frames: nat, frame: nat)
    requires frame > 0
    ensures frames * frame / frame == frames
  {
    DivMod(frames * frame, frame);
    var q, r := frames * frame / frame, frames * frame % frame;
    assert (frames - q) * frame == frames * frame - q * frame;
    OnlyZero(frames - q, frame, r);
  }

  lemma OnlyZero(d: int, m: nat, r: nat)
    requires d * m == r < m
    ensures d == 0
  {
    if d != 0 { NotSmall(d, m); }
  }

  lemma NotSmall(d: int, m: nat)
    requires d != 0 && m > 0
    ensures d * m >= m || d * m < 0
  {
    if d > 0 { assert (d - 1) * m >= 0 && d * m == (d - 1) * m + m; }
  }
}
