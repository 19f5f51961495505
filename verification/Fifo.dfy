/**
 fio's byte FIFO: a ring whose size is a power of two, with 32-bit counters that are never reduced
 modulo the size but wrap around at 2^32.
 */
module Fifo {
  import opened Bits

  type Byte = b: int | 0 <= b < 256

  /** Where a counter points in a ring of size 2^k. */
  function Place(x: nat, k: nat): (r: nat)
    ensures r < Pow2(k)
  {
    AndMask(x, k);
    And(x, Pow2(k) - 1)
  }

  function Min(a: nat, b: nat): nat { if a <= b then a else b }

  /** The bytes a ring holds: `len` of them from place a on, around the end. */
  function Held(ring: seq<Byte>, a: nat, len: nat): (r: seq<Byte>)
    requires a < |ring| && len <= |ring|
    ensures |r| == len
    ensures forall j :: 0 <= j < len ==> r[j] == ring[Around(|ring|, a, j)]
  {
    seq(len, j requires 0 <= j < len => ring[Around(|ring|, a, j)])
  }

  // ---- Copying around the end ----

  function Spliced(ring: seq<Byte>, at: nat, data: seq<Byte>): (r: seq<Byte>)
    requires at + |data| <= |ring|
    ensures |r| == |ring|
  {
    ring[..at] + data + ring[at + |data|..]
  }

  /** The two copies of fifo_put: up to the end of the buffer, then the rest at its start. */
  function Written(ring: seq<Byte>, at: nat, data: seq<Byte>): (r: seq<Byte>)
    requires at < |ring| && |data| <= |ring|
    ensures |r| == |ring|
  {
    var l := Min(|data|, |ring| - at);
    Spliced(Spliced(ring, at, data[..l]), 0, data[l..])
  }

  lemma WrittenInTwo(ring: seq<Byte>, at: nat, data: seq<Byte>, n: nat, l: nat)
    requires at < |ring| && n <= |data| && n <= |ring| && l == Min(n, |ring| - at)
    ensures Written(ring, at, data[..n]) == Spliced(Spliced(ring, at, data[0..0 + l]), 0, data[l..l + (n - l)])
  {
    assert data[..n][..l] == data[0..0 + l] && data[..n][l..] == data[l..l + (n - l)];
  }

  lemma WrittenAt(ring: seq<Byte>, at: nat, data: seq<Byte>, j: nat)
    requires at < |ring| && |data| <= |ring| && j < |ring|
    ensures Written(ring, at, data)[Around(|ring|, at, j)] ==
            if j < |data| then data[j] else ring[Around(|ring|, at, j)]
  {
  }

  /** Writing behind the contents appends to them. */
  lemma WrittenAppends(ring: seq<Byte>, a: nat, len: nat, data: seq<Byte>)
    requires a < |ring| && len + |data| <= |ring| && len < |ring|
    ensures Held(Written(ring, Around(|ring|, a, len), data), a, len + |data|) == Held(ring, a, len) + data
  {
    var size := |ring|;
    var at := Around(size, a, len);
    var ring' := Written(ring, at, data);
    forall j | 0 <= j < len + |data|
      ensures Held(ring', a, len + |data|)[j] == (Held(ring, a, len) + data)[j]
    {
      var i := if j < len then j + size - len else j - len;
      assert Around(size, at, i) == Around(size, a, j);
      WrittenAt(ring, at, data, i);
    }
  }

  /** What fifo_get copies out: up to the end of the buffer, then the rest from its start. */
  lemma TakenIsPrefix(ring: seq<Byte>, a: nat, len: nat, n: nat)
    requires a < |ring| && n <= len <= |ring|
    ensures var l := Min(n, |ring| - a);
            Held(ring, a, len)[..n] == ring[a..a + l] + ring[..n - l]
  {
  }

  /** Moving the start drops what was before it. */
  lemma DropIsSuffix(ring: seq<Byte>, a: nat, len: nat, n: nat)
    requires a < |ring| && n <= len <= |ring| && n < |ring|
    ensures Held(ring, Around(|ring|, a, n), len - n) == Held(ring, a, len)[n..]
  {
  }

  // ---- Counters that wrap ----

  lemma WrapSmall(x: int)
    requires 0 <= x < TWO32
    ensures Wrap32(x) == x
  {
  }

  lemma ModPlus(y: nat, p: nat, c: nat)
    requires p > 0
    ensures (y + c * p) % p == y % p
  {
    assert (y / p + c) * p == (y / p) * p + c * p;
    Remainder(y + c * p, p, y / p + c, y % p);
  }

  /** Wrapping at 2^32 keeps the remainder by a power of two up to 2^31. */
  lemma WrapMod(x: nat, k: nat)
    requires k <= 31 && x < 2 * TWO32
    ensures Wrap32(x) % Pow2(k) == x % Pow2(k)
  {
    if x < TWO32 {
      WrapSmall(x);
    } else {
      Pow2Add(32 - k, k);
      Pow2Words();
      ModPlus(x - TWO32, Pow2(k), Pow2(32 - k));
      WrapSmall(x - TWO32);
      assert Wrap32(x) == Wrap32(x - TWO32);
    }
  }

  lemma AroundMod(x: nat, j: nat, size: nat)
    requires 0 < size && j <= size
    ensures (x + j) % size == if j == size then x % size else Around(size, x % size, j)
  {
    var q, a := x / size, x % size;
    if j == size {
      assert (q + 1) * size == q * size + size;
      Remainder(x + j, size, q + 1, a);
    } else if a + j < size {
      Remainder(x + j, size, q, a + j);
    } else {
      assert (q + 1) * size == q * size + size;
      Remainder(x + j, size, q + 1, a + j - size);
    }
  }

  lemma SizeFits(k: nat)
    requires k <= 31
    ensures 0 < Pow2(k) < TWO32
  {
    Pow2Grows(k, 31);
    Pow2Words();
  }

  lemma Counters(put: nat, got: nat, size: nat)
    requires put < TWO32 && got < TWO32 && size < TWO32 && Wrap32(put - got) <= size
    ensures Wrap32(size - put + got) == size - Wrap32(put - got)
    ensures put == Wrap32(got + Wrap32(put - got))
  {
  }

  lemma StartOfRoom(put: nat, got: nat, len: nat, k: nat)
    requires k <= 31 && put == Wrap32(got + len) && got < TWO32 && len <= Pow2(k)
    ensures Place(put, k) == if len == Pow2(k) then Place(got, k) else Around(Pow2(k), Place(got, k), len)
  {
    AndMask(put, k);
    AndMask(got, k);
    SizeFits(k);
    WrapMod(got + len, k);
    AroundMod(got, len, Pow2(k));
  }

  lemma Advance(got: nat, len: nat, n: nat, size: nat)
    requires got < TWO32 && len + n <= size < TWO32
    ensures Wrap32(Wrap32(Wrap32(got + len) + n) - got) == len + n
  {
  }

  // ---- The ring as a value ----

  datatype Ring = Ring(bytes: seq<Byte>, put: nat, got: nat)

  /** A ring of size 2^k; its counters say how many bytes it holds. */
  predicate Valid(r: Ring, k: nat)
  {
    && k <= 31 && |r.bytes| == Pow2(k)
    && r.put < TWO32 && r.got < TWO32 && Length(r) <= Pow2(k)
  }

  /** fifo_len and fifo_room, over the wrapping counters. */
  function Length(r: Ring): nat { Wrap32(r.put - r.got) }

  function Room(r: Ring): nat { Wrap32(|r.bytes| - r.put + r.got) }

  function Contents(r: Ring, k: nat): (c: seq<Byte>)
    requires Valid(r, k)
    ensures |c| == Length(r)
  {
    Held(r.bytes, Place(r.got, k), Length(r))
  }

  function AfterPut(r: Ring, k: nat, data: seq<Byte>): Ring
    requires |r.bytes| == Pow2(k) && |data| <= |r.bytes|
  {
    Ring(Written(r.bytes, Place(r.put, k), data), Wrap32(r.put + |data|), r.got)
  }

  function AfterGet(r: Ring, n: nat): Ring
  {
    var got := Wrap32(r.got + n);
    if r.put == got then Ring(r.bytes, 0, 0) else Ring(r.bytes, r.put, got)
  }

  lemma RoomLeft(r: Ring, k: nat)
    requires Valid(r, k)
    ensures Room(r) == Pow2(k) - Length(r)
    ensures r.put == Wrap32(r.got + Length(r))
  {
    SizeFits(k);
    Counters(r.put, r.got, Pow2(k));
  }

  /** Putting appends, whether or not the copy goes around the end or the counter wraps. */
  lemma AdvancePut(put: nat, got: nat, n: nat, size: nat)
    requires put < TWO32 && got < TWO32 && Wrap32(put - got) + n <= size < TWO32
    ensures Wrap32(put + n) < TWO32 && Wrap32(Wrap32(put + n) - got) == Wrap32(put - got) + n
  {
    Counters(put, got, size);
    Advance(got, Wrap32(put - got), n, size);
  }

  lemma PutCounts(r: Ring, k: nat, data: seq<Byte>)
    requires Valid(r, k) && |data| <= Pow2(k) - Length(r)
    ensures Valid(AfterPut(r, k, data), k) && Length(AfterPut(r, k, data)) == Length(r) + |data|
  {
    SizeFits(k);
    AdvancePut(r.put, r.got, |data|, Pow2(k));
  }

  lemma PutAppends(r: Ring, k: nat, data: seq<Byte>)
    requires Valid(r, k) && |data| <= Pow2(k) - Length(r)
    ensures Valid(AfterPut(r, k, data), k)
    ensures Contents(AfterPut(r, k, data), k) == Contents(r, k) + data
  {
    PutCounts(r, k, data);
    var len := Length(r);
    SizeFits(k);
    RoomLeft(r, k);
    StartOfRoom(r.put, r.got, len, k);
    if len < Pow2(k) {
      WrittenAppends(r.bytes, Place(r.got, k), len, data);
    } else {
      NothingWritten(r.bytes, Place(r.put, k), data);
    }
  }

  lemma NothingWritten(ring: seq<Byte>, at: nat, data: seq<Byte>)
    requires at < |ring| && data == []
    ensures Written(ring, at, data) == ring
  {
  }

  /** Getting removes from the front, also when that empties the ring and resets the counters. */
  lemma GetRemoves(r: Ring, k: nat, n: nat)
    requires Valid(r, k) && n <= Length(r)
    ensures Valid(AfterGet(r, n), k)
    ensures Contents(AfterGet(r, n), k) == Contents(r, k)[n..]
  {
    var len := Length(r);
    SizeFits(k);
    RoomLeft(r, k);
    Retreat(r.put, r.got, n);
    if n < len {
      StartOfRoom(Wrap32(r.got + n), r.got, n, k);
      DropIsSuffix(r.bytes, Place(r.got, k), len, n);
    }
  }

  lemma Retreat(put: nat, got: nat, n: nat)
    requires put < TWO32 && got < TWO32 && n <= Wrap32(put - got)
    ensures Wrap32(put - Wrap32(got + n)) == Wrap32(put - got) - n
    ensures put == Wrap32(got + n) <==> n == Wrap32(put - got)
  {
  }

  // ---- The ring in place ----

  class RingFifo {
    const buffer: array<Byte>
    ghost const k: nat
    const size: nat
    var put: nat
    var got: nat

    ghost function View(): Ring
      reads this, buffer
    {
      Ring(buffer[..], put, got)
    }

    ghost predicate Ok()
      reads this, buffer
    {
      size == Pow2(k) && Valid(View(), k)
    }

    constructor (k: nat)
      requires k <= 31
      ensures Ok() && this.k == k && Contents(View(), k) == [] && fresh(buffer)
    {
      this.k := k;
      size := Pow2(k);
      buffer := new Byte[Pow2(k)];
      put, got := 0, 0;
    }

    /** fifo_len. */
    method Used() returns (n: nat)
      requires Ok()
      ensures n == |Contents(View(), k)|
    {
      n := Wrap32(put - got);
    }

    /** fifo_room. */
    method Free() returns (n: nat)
      requires Ok()
      ensures n == size - |Contents(View(), k)|
    {
      n := Wrap32(size - put + got);
      RoomLeft(View(), k);
    }

    /** memcpy of n bytes of `data`, from `lo` on, into the buffer. */
    method CopyIn(at: nat, data: seq<Byte>, lo: nat, n: nat)
      requires at + n <= buffer.Length && lo + n <= |data|
      modifies buffer
      ensures buffer[..] == Spliced(old(buffer[..]), at, data[lo..lo + n])
    {
      for i := 0 to n
        invariant buffer[..at] == old(buffer[..at])
        invariant buffer[at + i..] == old(buffer[at + i..])
        invariant buffer[at..at + i] == data[lo..lo + i]
      {
        buffer[at + i] := data[lo + i];
      }
      assert buffer[..] == buffer[..at] + buffer[at..at + n] + buffer[at + n..];
    }

    /** The two copies of fifo_put, at the place the put counter points to. */
    method CopyAt(at: nat, data: seq<Byte>, n: nat)
      requires at < buffer.Length && n <= |data| && n <= buffer.Length
      modifies buffer
      ensures buffer[..] == Written(old(buffer[..]), at, data[..n])
    {
      var l := Min(n, buffer.Length - at);
      WrittenInTwo(buffer[..], at, data, n, l);
      CopyIn(at, data, 0, l);
      CopyIn(0, data, l, n - l);
    }

    method CopyAround(data: seq<Byte>, n: nat)
      requires Ok() && n <= |data| && n <= buffer.Length
      modifies buffer
      ensures buffer[..] == Written(old(buffer[..]), Place(put, k), data[..n])
    {
      var at := And(put, size - 1);
      assert at == Place(put, k);
      CopyAt(at, data, n);
    }

    /** fifo_put: append as many bytes as there is room for. */
    method Put(data: seq<Byte>) returns (n: nat)
      requires Ok() && |data| < TWO32
      modifies this, buffer
      ensures Ok()
      ensures n == Min(|data|, size - |old(Contents(View(), k))|)
      ensures Contents(View(), k) == old(Contents(View(), k)) + data[..n]
    {
      ghost var r := View();
      var room := Free();
      n := Min(|data|, room);
      ghost var taken := data[..n];
      PutAppends(r, k, taken);
      CopyAround(data, n);
      put := Wrap32(put + n);
      assert View() == AfterPut(r, k, taken);
    }

    /** The two copies of fifo_get. */
    method CopyOut(n: nat) returns (data: seq<Byte>)
      requires Ok() && n <= Length(View())
      ensures data == Contents(View(), k)[..n]
    {
      var at := And(got, size - 1);
      assert at == Place(got, k);
      var l := Min(n, size - at);
      data := buffer[at..at + l] + buffer[..n - l];
      TakenIsPrefix(buffer[..], at, Length(View()), n);
    }

    /** fifo_get: remove as many bytes as there are, and copy them out if there is somewhere to. */
    method Get(len: nat, wanted: bool) returns (n: nat, data: seq<Byte>)
      requires Ok()
      modifies this
      ensures Ok()
      ensures n == Min(len, |old(Contents(View(), k))|)
      ensures Contents(View(), k) == old(Contents(View(), k))[n..]
      ensures data == if wanted then old(Contents(View(), k))[..n] else []
    {
      ghost var r := View();
      n := Min(len, Wrap32(put - got));
      GetRemoves(r, k, n);
      data := [];
      if wanted {
        data := CopyOut(n);
      }
      got := Wrap32(got + n);
      if put == got {
        put, got := 0, 0;
      }
      assert View() == AfterGet(r, n);
    }
  }
}
