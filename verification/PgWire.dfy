/** Bytes on the replication connection: the bounds-checked big-endian reader,
    and the encodings it reads back (section 55.9 of the PostgreSQL 16 manual). */
module PgWire {

  type Byte = b: int | 0 <= b < 256

  // ---------------------------------------------------------------------------
  // Numbers

  function Pow256(n: nat): (p: nat)
    ensures p >= 1
  {
    if n == 0 then 1 else 256 * Pow256(n - 1)
  }

  /** The `width` bytes of n, most significant first. */
  function EncodeUint(n: nat, width: nat): (bytes: seq<Byte>)
    ensures |bytes| == width
    decreases width
  {
    if width == 0 then [] else EncodeUint(n / 256, width - 1) + [n % 256]
  }

  function DecodeUint(bytes: seq<Byte>): nat {
    if bytes == [] then 0 else DecodeUint(bytes[..|bytes| - 1]) * 256 + bytes[|bytes| - 1]
  }

  lemma {:induction false} UintRoundTrip(n: nat, width: nat)
    requires n < Pow256(width)
    ensures DecodeUint(EncodeUint(n, width)) == n
    decreases width
  {
    if width == 0 {
    } else {
      UintRoundTrip(n / 256, width - 1);
      assert EncodeUint(n, width)[..width - 1] == EncodeUint(n / 256, width - 1);
    }
  }

  /** The first byte weighs most. */
  lemma {:induction false} MostSignificantFirst(bytes: seq<Byte>)
    requires bytes != []
    ensures DecodeUint(bytes) == bytes[0] * Pow256(|bytes| - 1) + DecodeUint(bytes[1..])
    decreases |bytes|
  {
    var last := |bytes| - 1;
    if last == 0 {
      assert DecodeUint(bytes[..0]) == 0;
    } else {
      var front, rest := bytes[..last], bytes[1..];
      MostSignificantFirst(front);
      assert front[1..] == rest[..|rest| - 1];
      Weigh(bytes[0], Pow256(last - 1));
    }
  }

  lemma Weigh(b: nat, p: nat)
    ensures b * p * 256 == b * (256 * p)
  {
  }

  // ---------------------------------------------------------------------------
  // The cursor

  /** A read that runs past the end fails and stays failed: it yields zero or
      nothing and moves no further. */
  datatype Cursor = Cursor(data: seq<Byte>, pos: nat, failed: bool) {

    predicate Valid() {
      pos <= |data|
    }

    function Remaining(): (n: nat)
      requires Valid()
    {
      |data| - pos
    }

    predicate CanRead(n: nat) {
      !failed && pos + n <= |data|
    }

    function Advance(n: nat): Cursor {
      this.(pos := pos + n)
    }

    function Fail(): Cursor {
      this.(failed := true)
    }

    /** `bytes` come next. */
    predicate At(bytes: seq<Byte>) {
      CanRead(|bytes|) && data[pos..pos + |bytes|] == bytes
    }
  }

  function Bytes(c: Cursor, n: nat): (r: (seq<Byte>, Cursor))
    requires c.Valid()
    ensures r.1.Valid() && r.1.data == c.data && c.pos <= r.1.pos
  {
    if c.CanRead(n) then (c.data[c.pos..c.pos + n], c.Advance(n)) else ([], c.Fail())
  }

  function Uint(c: Cursor, width: nat): (r: (nat, Cursor))
    requires c.Valid()
    ensures r.1.Valid() && r.1.data == c.data && c.pos <= r.1.pos
  {
    var (bytes, after) := Bytes(c, width);
    (DecodeUint(bytes), after)
  }

  /** The first zero byte from `start` on, or the end of the data. */
  function ZeroFrom(data: seq<Byte>, start: nat): (end: nat)
    requires start <= |data|
    ensures start <= end <= |data|
    ensures 0 !in data[start..end]
    ensures end < |data| ==> data[end] == 0
    decreases |data| - start
  {
    if start == |data| || data[start] == 0 then start
    else
      var end := ZeroFrom(data, start + 1);
      assert data[start..end] == [data[start]] + data[start + 1..end];
      end
  }

  /** A string up to its zero byte; it is read even after a failure. */
  function CString(c: Cursor): (r: (seq<Byte>, Cursor))
    requires c.Valid()
    ensures r.1.Valid() && r.1.data == c.data && c.pos <= r.1.pos
  {
    var end := ZeroFrom(c.data, c.pos);
    (c.data[c.pos..end], c.(pos := if end < |c.data| then end + 1 else end))
  }

  /** A read gives the bytes or the number that come next and moves past them; or
      there are not enough, or one failed before: then it gives nothing or zero,
      moves nowhere, and every read after it does the same. */
  lemma ReadOrFail(c: Cursor, n: nat)
    requires c.Valid()
    ensures !c.failed && n <= |c.data| - c.pos ==>
      && Bytes(c, n) == (c.data[c.pos..c.pos + n], Cursor(c.data, c.pos + n, false))
      && Uint(c, n) == (DecodeUint(c.data[c.pos..c.pos + n]), Cursor(c.data, c.pos + n, false))
    ensures c.failed || n > |c.data| - c.pos ==>
      Bytes(c, n) == ([], Cursor(c.data, c.pos, true)) && Uint(c, n) == (0, Cursor(c.data, c.pos, true))
  {
  }

  /** A string ends before the first zero byte, which is passed over, or at the
      end of the data; a failure neither stops it nor is forgotten. */
  lemma StringUpToZero(c: Cursor)
    requires c.Valid()
    ensures var (s, after) := CString(c);
      var end := c.pos + |s|;
      && end <= |c.data| && s == c.data[c.pos..end] && 0 !in s && after.failed == c.failed
      && (if end < |c.data| then c.data[end] == 0 && after.pos == end + 1 else after.pos == end)
  {
  }

  class Reader {
    const data: seq<Byte>
    var pos: nat
    var failed: bool

    ghost predicate Valid()
      reads this
    {
      pos <= |data|
    }

    function View(): Cursor
      reads this
    {
      Cursor(data, pos, failed)
    }

    constructor (data: seq<Byte>, pos: nat)
      requires pos <= |data|
      ensures Valid() && View() == Cursor(data, pos, false)
    {
      this.data, this.pos, this.failed := data, pos, false;
    }

    method CanRead(n: nat) returns (ok: bool)
      requires Valid()
      modifies this
      ensures ok == old(View()).CanRead(n)
      ensures View() == if ok then old(View()) else old(View()).Fail()
    {
      if failed {
        return false;
      }
      if pos + n > |data| {
        failed := true;
        return false;
      }
      return true;
    }

    method ReadBytes(n: nat) returns (bytes: seq<Byte>)
      requires Valid()
      modifies this
      ensures Valid() && (bytes, View()) == Bytes(old(View()), n)
    {
      var ok := CanRead(n);
      if !ok {
        return [];
      }
      bytes := data[pos..pos + n];
      pos := pos + n;
    }

    /** One byte, or a big-endian number of two, four or eight. */
    method ReadUint(width: nat) returns (n: nat)
      requires Valid()
      modifies this
      ensures Valid() && (n, View()) == Uint(old(View()), width)
    {
      var ok := CanRead(width);
      if !ok {
        return 0;
      }
      n := DecodeUint(data[pos..pos + width]);
      pos := pos + width;
    }

    method ReadCString() returns (s: seq<Byte>)
      requires Valid()
      modifies this
      ensures Valid() && (s, View()) == CString(old(View()))
    {
      var start := pos;
      while pos < |data| && data[pos] != 0
        invariant start <= pos <= |data| && failed == old(failed)
        invariant ZeroFrom(data, pos) == ZeroFrom(data, start)
        decreases |data| - pos
      {
        pos := pos + 1;
      }
      s := data[start..pos];
      if pos < |data| {
        pos := pos + 1;
      }
    }

    method PutBack()
      requires Valid() && pos > 0
      modifies this
      ensures Valid() && View() == old(View()).(pos := old(pos) - 1)
    {
      pos := pos - 1;
    }
  }

  // ---------------------------------------------------------------------------
  // Reading back what was encoded

  lemma AtSplit(c: Cursor, first: seq<Byte>, rest: seq<Byte>)
    requires c.At(first + rest)
    ensures c.At(first) && c.Advance(|first|).At(rest)
    ensures c.Advance(|first|).Advance(|rest|) == c.Advance(|first + rest|)
  {
    var whole := c.data[c.pos..c.pos + |first + rest|];
    assert whole[..|first|] == c.data[c.pos..c.pos + |first|];
    assert whole[|first|..] == c.data[c.pos + |first|..c.pos + |first| + |rest|];
    assert whole[..|first|] == first && whole[|first|..] == rest;
  }

  lemma ReadsUint(c: Cursor, n: nat, width: nat)
    requires c.At(EncodeUint(n, width)) && n < Pow256(width)
    ensures c.Valid() && Uint(c, width) == (n, c.Advance(width))
  {
    UintRoundTrip(n, width);
  }

  lemma ReadsByte(c: Cursor, b: Byte)
    requires c.At([b])
    ensures c.Valid() && Uint(c, 1) == (b, c.Advance(1))
  {
    assert DecodeUint([b]) == DecodeUint([b][..0]) * 256 + b;
  }

  lemma {:induction false} ZeroAt(data: seq<Byte>, start: nat, end: nat)
    requires start <= end < |data| && data[end] == 0 && 0 !in data[start..end]
    ensures ZeroFrom(data, start) == end
    decreases end - start
  {
    if start == end {
    } else {
      assert data[start] == data[start..end][0];
      assert data[start + 1..end] == data[start..end][1..];
      ZeroAt(data, start + 1, end);
    }
  }

  lemma ReadsCString(c: Cursor, s: seq<Byte>)
    requires c.At(s + [0]) && 0 !in s
    ensures c.Valid() && CString(c) == (s, c.Advance(|s| + 1))
  {
    AtSplit(c, s, [0]);
    assert c.data[c.pos + |s|] == c.data[c.pos + |s|..c.pos + |s| + 1][0];
    ZeroAt(c.data, c.pos, c.pos + |s|);
  }
}
