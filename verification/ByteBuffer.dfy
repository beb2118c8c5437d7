/** The FIFO of ByteBuffer.h: a position in a byte array, filled at the end and shifted in place. */
module ByteBuffers {

  /** The bytes a buffer of `room` free places takes from `data` when it may not grow. */
  function Accepted<T>(data: seq<T>, room: nat): (r: seq<T>)
    ensures r <= data && |r| <= room && (|r| == |data| || |r| == room)
  {
    if |data| <= room then data else data[..room]
  }

  class ByteBuffer<T(0)> {
    var held: bool       // there is a buffer
    var size: nat        // m_nBufSize, which Reset does not change
    var buf: array<T>
    var pos: nat
    var autoInc: bool
    var maxSize: nat

    ghost predicate Valid()
      reads this
    {
      if held then pos <= buf.Length == size && 0 < size <= maxSize else pos == 0 == buf.Length
    }

    ghost function Contents(): seq<T>
      reads this, buf
      requires Valid()
    {
      buf[..pos]
    }

    constructor ()
      ensures Valid() && !held && size == 0
    {
      held, size, pos, autoInc, maxSize := false, 0, 0, false, 0;
      buf := new T[0];
    }

    /** Init: refuses sizes that make no sense, keeps a buffer of the right size, and makes a new one
        otherwise. After Reset the old size still counts as the right one, and no buffer is made. */
    method Init(newSize: int, autoInc: bool, maxSize: int) returns (ok: bool)
      requires Valid()
      modifies this
      ensures Valid() && ok == (0 < newSize <= maxSize)
      ensures !ok ==> held == old(held) && size == old(size) && buf == old(buf) && pos == old(pos)
      ensures ok ==> Contents() == [] && size == newSize && this.autoInc == autoInc && this.maxSize == maxSize
      ensures ok ==> held == (old(held) || old(size) != newSize)
      ensures buf == old(buf) || fresh(buf)
    {
      if newSize <= 0 || maxSize <= 0 || maxSize < newSize { return false; }
      this.autoInc, this.maxSize := autoInc, maxSize;
      pos := 0;
      if size != newSize {
        buf := new T[newSize];
        held, size := true, newSize;
      }
      return true;
    }

    /** Reset: the buffer goes, its size stays. */
    method Reset()
      requires Valid()
      modifies this
      ensures Valid() && !held && size == old(size) && maxSize == old(maxSize) && fresh(buf)
    {
      pos := 0;
      held := false;
      buf := new T[0];
    }

    /** memcpy behind the contents. */
    method Append(data: seq<T>)
      requires Valid() && held && pos + |data| <= buf.Length
      modifies this`pos, buf
      ensures Valid() && Contents() == old(Contents()) + data
    {
      for i := 0 to |data|
        invariant pos == old(pos) && buf[..pos + i] == old(Contents()) + data[..i]
      {
        buf[pos + i] := data[i];
        assert buf[..pos + i + 1] == buf[..pos + i] + [data[i]];
      }
      pos := pos + |data|;
    }

    /** Moves the contents into a larger array. */
    method Grow(newSize: nat)
      requires Valid() && held && pos <= newSize && 0 < newSize <= maxSize
      modifies this`buf, this`size
      ensures Valid() && fresh(buf) && size == newSize && Contents() == old(Contents())
    {
      var b := new T[newSize];
      for i := 0 to pos
        invariant buf == old(buf) && b[..i] == buf[..i] && buf[..] == old(buf[..])
      {
        b[i] := buf[i];
        assert b[..i + 1] == b[..i] + [buf[i]];
      }
      buf, size := b, newSize;
    }

    /** Feed: `left` bytes were not taken.  A growing buffer takes everything or refuses everything,
        a fixed one takes what fits. */
    method Feed(data: seq<T>) returns (ok: bool, left: nat)
      requires Valid()
      modifies this, buf
      ensures Valid() && held == old(held) && autoInc == old(autoInc) && maxSize == old(maxSize)
      ensures buf == old(buf) || fresh(buf)
      ensures ok == (held && (!autoInc || old(pos) + |data| <= old(size) || old(pos) + |data| <= maxSize))
      ensures !ok ==> left == |data| && Contents() == old(Contents())
      ensures ok ==> left <= |data| && Contents() == old(Contents()) + data[..|data| - left]
      ensures ok && autoInc ==> left == 0
      ensures ok && !autoInc ==> buf == old(buf) && Contents() == old(Contents()) + Accepted(data, size - old(pos))
    {
      if !held { return false, |data|; }
      var usable := |data|;
      if pos + |data| > buf.Length {
        if autoInc {
          var newSize := pos + |data|;
          if newSize > maxSize { return false, |data|; }
          if 4 * newSize < 5 * size { newSize := 5 * size / 4; }
          if newSize > maxSize { newSize := maxSize; }
          Grow(newSize);
        } else {
          usable := buf.Length - pos;
        }
      }
      Append(data[..usable]);
      return true, |data| - usable;
    }

    /** Shift: forgets the first `n` bytes, or all of them. */
    method Shift(n: int) returns (ok: bool)
      requires Valid()
      modifies this`pos, buf
      ensures Valid() && ok == (held && n >= 0)
      ensures !ok ==> Contents() == old(Contents())
      ensures ok ==> Contents() == if n >= old(pos) then [] else old(Contents())[n..]
    {
      if !held || n < 0 { return false; }
      if n == 0 { return true; }
      if n >= pos { pos := 0; return true; }
      var m := pos - n;
      for i := 0 to m
        invariant pos == old(pos) && buf[..i] == old(buf[n..n + i])
        invariant buf[n + i..pos] == old(buf[n + i..pos])
      {
        ghost var prev := buf[..];
        assert buf[n + i] == buf[n + i..pos][0] == old(buf[n + i]);
        buf[i] := buf[n + i];
        assert buf[..i + 1] == prev[..i] + [old(buf[n + i])];
        assert buf[n + i + 1..pos] == prev[n + i..pos][1..];
      }
      pos := m;
      return true;
    }

    method Clear()
      requires Valid()
      modifies this`pos
      ensures Valid() && Contents() == []
    {
      pos := 0;
    }
  }

  /** A buffer that was reset and initialised again with its old size reports success, but takes nothing. */
  method ResetThenInit<T(0)>(size: nat, data: seq<T>) returns (ok: bool, fed: bool, b: ByteBuffer<T>)
    requires size > 0
    ensures ok && !fed && b.Valid() && !b.held
  {
    b := new ByteBuffer<T>();
    var _ := b.Init(size, false, size);
    b.Reset();
    ok := b.Init(size, false, size);
    var left;
    fed, left := b.Feed(data);
  }
}
