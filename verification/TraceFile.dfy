/**
 Reading a blktrace file through a FIFO of 8192 bytes, and the records such a file holds.
 */
module TraceFile {
  import opened Options
  import opened Bits
  import opened Fifo

  const FIFO_SIZE: nat := 8192
  const HEADER: nat := 48

  // ---- Bytes ----

  /** The most bytes that one request can deliver from a stream. */
  function Available(stream: seq<Byte>): nat { Min(FIFO_SIZE, |stream|) }

  lemma Moved(before: seq<Byte>, file: seq<Byte>, a: nat, b: nat)
    requires a <= b <= |file|
    ensures before + file[a..b] + file[b..] == before + file[a..]
  {
    assert file[a..b] + file[b..] == file[a..];
  }

  /** A file being read. `stream` is what it has still to deliver: the bytes in the FIFO, then those
      still in the file. */
  class TraceReader {
    const fifo: RingFifo
    const file: seq<Byte>
    var pos: nat
    ghost var stream: seq<Byte>

    ghost predicate Ok()
      reads this, fifo, fifo.buffer
    {
      && fifo.Ok() && fifo.k == 13 && fifo.size == FIFO_SIZE && pos <= |file|
      && stream == Contents(fifo.View(), fifo.k) + file[pos..]
    }

    constructor (file: seq<Byte>)
      ensures Ok() && stream == file && fresh(fifo) && fresh(fifo.buffer)
    {
      fifo := new RingFifo(13);
      this.file := file;
      pos := 0;
      stream := file;
      new;
      assert Pow2(13) == 8192 by {
        Pow2Add(6, 7);
        assert Pow2(6) == 64 && Pow2(7) == 128;
      }
    }

    /** refill_fifo: read as much as the FIFO has room for. */
    method Refill()
      requires Ok()
      modifies this, fifo, fifo.buffer
      ensures Ok() && stream == old(stream)
      ensures |Contents(fifo.View(), fifo.k)| == Available(stream)
    {
      ghost var before := Contents(fifo.View(), fifo.k);
      var total := FIFO_SIZE;
      var room := fifo.Free();
      if total > room {
        total := room;
      }
      var next := pos + Min(total, |file| - pos);
      var data := file[pos..next];
      Moved(before, file, pos, next);
      if |data| > 0 {
        var n := fifo.Put(data);
        assert data[..n] == data;
      } else {
        assert before + data == before;
      }
      pos := next;
    }

    /** trace_fifo_get: the next bytes of the stream, as many as asked for if the FIFO can hold them. */
    method Get(len: nat, wanted: bool) returns (n: nat, data: seq<Byte>)
      requires Ok()
      modifies this, fifo, fifo.buffer
      ensures Ok()
      ensures n == Min(len, Available(old(stream)))
      ensures stream == old(stream)[n..]
      ensures data == if wanted then old(stream)[..n] else []
    {
      var used := fifo.Used();
      if used < len {
        Refill();
      }
      ghost var c := Contents(fifo.View(), fifo.k);
      n, data := fifo.Get(len, wanted);
      FirstOf(c, file[pos..], n);
      stream := stream[n..];
    }
  }

  lemma FirstOf(c: seq<Byte>, rest: seq<Byte>, n: nat)
    requires n <= |c|
    ensures (c + rest)[..n] == c[..n] && (c + rest)[n..] == c[n..] + rest
  {
  }

  // ---- Records ----

  /** A trace record: the fields fio looks at, and the whole header as it was read, with its byte order. */
  datatype Rec = Rec(time: nat, action: nat, pdu: nat, header: seq<Byte>, swap: bool)

  function Little(b: seq<Byte>): nat { if b == [] then 0 else b[0] + 256 * Little(b[1..]) }

  function Backwards(b: seq<Byte>): seq<Byte> { if b == [] then [] else Backwards(b[1..]) + [b[0]] }

  function Field(b: seq<Byte>, lo: nat, hi: nat, swap: bool): nat
    requires lo <= hi <= |b|
  {
    Little(if swap then Backwards(b[lo..hi]) else b[lo..hi])
  }

  function Decode(b: seq<Byte>, swap: bool): Rec
    requires |b| == HEADER
  {
    Rec(Field(b, 8, 16, swap), Field(b, 28, 32, swap), Field(b, 46, 48, swap), b, swap)
  }

  /** A queued read, write or discard. */
  predicate Accepted(action: nat)
  {
    && action % 0x10000 == 1
    && ((action / 0x10000) % 2 == 1 || (action / 0x20000) % 2 == 1 || (action / 0x2000_0000) % 2 == 1)
  }

  /** The next record that counts: found, with the bytes after its header; or none, with the record
      read last; or a file that is cut short or carries more data than the FIFO holds. */
  datatype Read = Got(rec: Rec, rest: seq<Byte>) | End(last: Rec) | Bad

  function NextRecord(stream: seq<Byte>, swap: bool, last: Rec): (r: Read)
    ensures r.Got? ==> |r.rest| < |stream|
    decreases |stream|
  {
    if stream == [] then End(last)
    else if |stream| < HEADER then Bad
    else
      var r := Decode(stream[..HEADER], swap);
      var rest := stream[HEADER..];
      if Accepted(r.action) then Got(r, rest)
      else if r.pdu > Available(rest) then Bad
      else NextRecord(rest[r.pdu..], swap, r)
  }

  /** A record of zeroes. */
  function Blank(): Rec { Rec(0, 0, 0, [], false) }

  /** All records that count, or none if the file is bad. */
  function Records(stream: seq<Byte>, swap: bool): Option<seq<Rec>>
    decreases |stream|
  {
    match NextRecord(stream, swap, Blank())
    case End(_) => Some([])
    case Bad => None
    case Got(r, rest) =>
      if r.pdu > Available(rest) then None
      else
        match Records(rest[r.pdu..], swap)
        case None => None
        case Some(rs) => Some([r] + rs)
  }

  /** What was read before does not matter for the record found. */
  lemma {:induction false} LastUnseen(stream: seq<Byte>, swap: bool, a: Rec, b: Rec)
    ensures NextRecord(stream, swap, a) == NextRecord(stream, swap, b) ||
            (NextRecord(stream, swap, a).End? && NextRecord(stream, swap, b).End?)
    decreases |stream|
  {
    if HEADER <= |stream| {
      var r := Decode(stream[..HEADER], swap);
      var rest := stream[HEADER..];
      if !Accepted(r.action) && r.pdu <= Available(rest) {
        LastUnseen(rest[r.pdu..], swap, r, r);
      }
    }
  }

  /** The records of a stream are the next one and those after its data. */
  lemma RecordsNext(stream: seq<Byte>, swap: bool, last: Rec)
    ensures NextRecord(stream, swap, last).Bad? ==> Records(stream, swap).None?
    ensures NextRecord(stream, swap, last).End? ==> Records(stream, swap) == Some([])
    ensures NextRecord(stream, swap, last).Got? ==>
              var g := NextRecord(stream, swap, last);
              if g.rec.pdu > Available(g.rest) then Records(stream, swap).None?
              else
                var more := Records(g.rest[g.rec.pdu..], swap);
                Records(stream, swap) == if more.None? then None else Some([g.rec] + more.value)
  {
    LastUnseen(stream, swap, last, Blank());
  }

  // ---- Is it a trace, and is it sound ----

  /** is_blktrace: the magic number in the first header, as it is or byte by byte backwards, says that a
      file is a trace and whether its fields are to be swapped. */
  function TraceTest(bytes: seq<Byte>): Option<bool>
  {
    if |bytes| < HEADER then None
    else if Field(bytes, 0, 4, false) / 0x100 == 0x656174 then Some(false)
    else if Field(bytes, 0, 4, true) / 0x100 == 0x656174 then Some(true)
    else None
  }

  /** What is wrong with a trace, if anything: it ends with a record that counts but whose data is missing
      altogether, or it is broken in some other way. */
  datatype Flaw = Sound | Cut | Torn

  /** The flaw of a record whose data cannot all be read. */
  function DataFlaw(rest: seq<Byte>): Flaw { if rest == [] then Cut else Torn }

  function FlawOf(stream: seq<Byte>, swap: bool): Flaw
    decreases |stream|
  {
    match NextRecord(stream, swap, Blank())
    case End(_) => Sound
    case Bad => Torn
    case Got(r, rest) => if r.pdu > Available(rest) then DataFlaw(rest) else FlawOf(rest[r.pdu..], swap)
  }

  lemma {:induction false} SoundIffRecords(stream: seq<Byte>, swap: bool)
    ensures FlawOf(stream, swap).Sound? <==> Records(stream, swap).Some?
    decreases |stream|
  {
    var g := NextRecord(stream, swap, Blank());
    if g.Got? && g.rec.pdu <= Available(g.rest) {
      SoundIffRecords(g.rest[g.rec.pdu..], swap);
    }
  }

  lemma FlawNext(stream: seq<Byte>, swap: bool, last: Rec)
    ensures NextRecord(stream, swap, last).Bad? ==> FlawOf(stream, swap).Torn?
    ensures NextRecord(stream, swap, last).End? ==> FlawOf(stream, swap).Sound?
    ensures NextRecord(stream, swap, last).Got? ==>
              var g := NextRecord(stream, swap, last);
              FlawOf(stream, swap) ==
              if g.rec.pdu > Available(g.rest) then DataFlaw(g.rest) else FlawOf(g.rest[g.rec.pdu..], swap)
  {
    LastUnseen(stream, swap, last, Blank());
  }
}
