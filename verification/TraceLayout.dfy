/**
 The bytes of a trace file, written field by field in either byte order, and what reading them gives.
 */
module TraceLayout {
  import opened Options
  import opened Bits
  import opened Fifo
  import opened TraceFile
  import opened TraceAction

  /** A record as struct blk_io_trace has it, with the data that follows. */
  datatype Raw = Raw(magic: nat, sequence: nat, time: nat, sector: nat, length: nat, action: nat, pid: nat, device: nat,
                     cpu: nat, error: nat, data: seq<Byte>)

  function Power256(n: nat): (r: nat)
    ensures r >= 1
  {
    if n == 0 then 1 else 256 * Power256(n - 1)
  }

  /** The fields that are read fit their widths. */
  predicate Fits(r: Raw)
  {
    r.time < TWO64 && r.action < TWO32 && r.magic < TWO32 && |r.data| < 0x1_0000
  }

  /** No record has more data than the FIFO holds. */
  predicate AllHeld(rs: seq<Raw>) { forall i :: 0 <= i < |rs| ==> |rs[i].data| <= FIFO_SIZE }

  /** A number in w bytes, the last one first, or the first one first. */
  function Bytes(n: nat, w: nat, big: bool): (b: seq<Byte>)
    ensures |b| == w
  {
    if w == 0 then []
    else if big then Bytes(n / 256, w - 1, big) + [n % 256]
    else [n % 256] + Bytes(n / 256, w - 1, big)
  }

  /** The header of a record, in the order of the struct. */
  function Encode(r: Raw, big: bool): (h: seq<Byte>)
    ensures |h| == HEADER
  {
    Bytes(r.magic, 4, big) + Bytes(r.sequence, 4, big) + Bytes(r.time, 8, big) + Bytes(r.sector, 8, big) +
    Bytes(r.length, 4, big) + Bytes(r.action, 4, big) + Bytes(r.pid, 4, big) + Bytes(r.device, 4, big) +
    Bytes(r.cpu, 4, big) + Bytes(r.error, 2, big) + Bytes(|r.data|, 2, big)
  }

  /** The file that holds these records. */
  function FileOf(rs: seq<Raw>, big: bool): seq<Byte>
  {
    if rs == [] then [] else Encode(rs[0], big) + rs[0].data + FileOf(rs[1..], big)
  }

  // ---- Numbers ----

  lemma {:induction false} BackwardsAppend(b: seq<Byte>, x: Byte)
    ensures Backwards(b + [x]) == [x] + Backwards(b)
  {
    if b != [] {
      BackwardsAppend(b[1..], x);
      assert (b + [x])[1..] == b[1..] + [x];
    }
  }

  lemma {:induction false} BackwardsBytes(n: nat, w: nat)
    ensures Backwards(Bytes(n, w, true)) == Bytes(n, w, false)
  {
    if w > 0 {
      BackwardsBytes(n / 256, w - 1);
      BackwardsAppend(Bytes(n / 256, w - 1, true), n % 256);
    }
  }

  lemma {:induction false} LittleBytes(n: nat, w: nat)
    requires n < Power256(w)
    ensures Little(Bytes(n, w, false)) == n
  {
    if w > 0 {
      LittleBytes(n / 256, w - 1);
      assert Bytes(n, w, false)[1..] == Bytes(n / 256, w - 1, false);
    }
  }

  /** A field is read as the number written there. */
  lemma FieldReads(b: seq<Byte>, lo: nat, hi: nat, n: nat, big: bool)
    requires lo <= hi <= |b| && n < Power256(hi - lo) && b[lo..hi] == Bytes(n, hi - lo, big)
    ensures Field(b, lo, hi, big) == n
  {
    BackwardsBytes(n, hi - lo);
    LittleBytes(n, hi - lo);
  }

  lemma Widths()
    ensures Power256(2) == 0x1_0000 && Power256(4) == TWO32 && Power256(8) == TWO64
  {
    assert Power256(3) == 0x100_0000;
    assert Power256(5) == 0x100_0000_0000 && Power256(6) == 0x1_0000_0000_0000 && Power256(7) == 0x100_0000_0000_0000;
  }

  // ---- Headers ----

  /** byteswap_trace, field by field. */
  function Native(b: seq<Byte>, swap: bool): seq<Byte>
    requires |b| == HEADER
  {
    if !swap then b
    else Backwards(b[0..4]) + Backwards(b[4..8]) + Backwards(b[8..16]) + Backwards(b[16..24]) + Backwards(b[24..28]) +
         Backwards(b[28..32]) + Backwards(b[32..36]) + Backwards(b[36..40]) + Backwards(b[40..44]) +
         Backwards(b[44..46]) + Backwards(b[46..48])
  }

  lemma EncodedFields(r: Raw, big: bool)
    ensures Encode(r, big)[0..4] == Bytes(r.magic, 4, big)
    ensures Encode(r, big)[8..16] == Bytes(r.time, 8, big)
    ensures Encode(r, big)[28..32] == Bytes(r.action, 4, big)
    ensures Encode(r, big)[46..48] == Bytes(|r.data|, 2, big)
  {
  }

  /** Swapping a header byte by byte in each field gives the header in the other order. */
  lemma EncodedNative(r: Raw, big: bool)
    ensures Native(Encode(r, big), big) == Encode(r, false)
  {
    if big {
      EncodedFields(r, big);
      OtherFields(r, big);
      BackwardsBytes(r.magic, 4);
      BackwardsBytes(r.sequence, 4);
      BackwardsBytes(r.time, 8);
      BackwardsBytes(r.sector, 8);
      BackwardsBytes(r.length, 4);
      BackwardsBytes(r.action, 4);
      BackwardsBytes(r.pid, 4);
      BackwardsBytes(r.device, 4);
      BackwardsBytes(r.cpu, 4);
      BackwardsBytes(r.error, 2);
      BackwardsBytes(|r.data|, 2);
    }
  }

  lemma OtherFields(r: Raw, big: bool)
    ensures Encode(r, big)[4..8] == Bytes(r.sequence, 4, big)
    ensures Encode(r, big)[16..24] == Bytes(r.sector, 8, big)
    ensures Encode(r, big)[24..28] == Bytes(r.length, 4, big)
    ensures Encode(r, big)[32..36] == Bytes(r.pid, 4, big)
    ensures Encode(r, big)[36..40] == Bytes(r.device, 4, big)
    ensures Encode(r, big)[40..44] == Bytes(r.cpu, 4, big)
    ensures Encode(r, big)[44..46] == Bytes(r.error, 2, big)
  {
  }

  function AsRead(r: Raw, big: bool): Rec { Rec(r.time, r.action, |r.data|, Encode(r, big), big) }

  /** What is written is what is read, in either byte order. */
  lemma EncodedDecodes(r: Raw, big: bool)
    requires Fits(r)
    ensures Decode(Encode(r, big), big) == AsRead(r, big)
    ensures Native(Encode(r, big), big) == Encode(r, false)
  {
    EncodedNative(r, big);
    EncodedFields(r, big);
    Widths();
    var h := Encode(r, big);
    FieldReads(h, 8, 16, r.time, big);
    FieldReads(h, 28, 32, r.action, big);
    FieldReads(h, 46, 48, |r.data|, big);
  }

  lemma Spelled(n: nat)
    requires n < TWO32
    ensures var b := Bytes(n, 4, true);
            b[0] == n / 0x100_0000 && b[1] == n / 0x1_0000 % 256 && b[2] == n / 0x100 % 256 && b[3] == n % 256
  {
    var m := n / 256;
    var l := m / 256;
    assert Bytes(n, 4, true) == Bytes(m, 3, true) + [n % 256];
    assert Bytes(m, 3, true) == Bytes(l, 2, true) + [m % 256];
    assert Bytes(l, 2, true) == Bytes(l / 256, 1, true) + [l % 256];
    assert Bytes(l / 256, 1, true) == [] + [l / 256 % 256];
  }

  /** The magic number and the byte order of a file are those of its first record. */
  lemma EncodedTest(r: Raw, big: bool, rest: seq<Byte>)
    requires Fits(r) && r.magic / 0x100 == 0x656174
    ensures TraceTest(Encode(r, big) + rest) == Some(big)
  {
    var b := Encode(r, big) + rest;
    EncodedFields(r, big);
    Widths();
    assert b[0..4] == Encode(r, big)[0..4];
    FieldReads(b, 0, 4, r.magic, big);
    if big {
      Spelled(r.magic);
      WrongOrder(b[0..4]);
    }
  }

  lemma WrongOrder(b: seq<Byte>)
    requires |b| == 4 && b[1] == 0x61
    ensures Little(b) / 0x100 != 0x656174
  {
    assert Little(b) == b[0] + 256 * Little(b[1..]);
    assert Little(b[1..]) == b[1] + 256 * Little(b[1..][1..]);
  }

  // ---- Files ----

  /** The records that read_trace is to find, in order. */
  function KeptOf(rs: seq<Raw>, big: bool): seq<Rec>
  {
    if rs == [] then []
    else if Selected(rs[0].action) then [AsRead(rs[0], big)] + KeptOf(rs[1..], big)
    else KeptOf(rs[1..], big)
  }

  lemma FirstRecord(r: Raw, big: bool, rest: seq<Byte>, last: Rec)
    requires Fits(r)
    ensures var stream := Encode(r, big) + r.data + rest;
            var rec := AsRead(r, big);
            NextRecord(stream, big, last) ==
            if Selected(r.action) then Got(rec, r.data + rest)
            else if |r.data| > FIFO_SIZE then Bad
            else NextRecord(rest, big, rec)
  {
    var stream := Encode(r, big) + r.data + rest;
    assert stream[..HEADER] == Encode(r, big) && stream[HEADER..] == r.data + rest;
    EncodedDecodes(r, big);
    AcceptedIffSelected(r.action);
    assert (r.data + rest)[|r.data|..] == rest;
  }

  lemma HeldFirst(rs: seq<Raw>)
    requires rs != []
    ensures AllHeld(rs) <==> |rs[0].data| <= FIFO_SIZE && AllHeld(rs[1..])
  {
    if AllHeld(rs[1..]) && |rs[0].data| <= FIFO_SIZE {
      forall i | 0 <= i < |rs| ensures |rs[i].data| <= FIFO_SIZE {
        assert i > 0 ==> rs[1..][i - 1] == rs[i];
      }
    }
  }

  /** A file that holds any records, in either byte order, is read as those of them that are queued reads,
      writes or discards, in order; unless some record has more data than the FIFO holds. */
  lemma {:induction false} FileReads(rs: seq<Raw>, big: bool)
    requires forall i :: 0 <= i < |rs| ==> Fits(rs[i])
    ensures Records(FileOf(rs, big), big) == if AllHeld(rs) then Some(KeptOf(rs, big)) else None
  {
    if rs != [] {
      var r, rest := rs[0], FileOf(rs[1..], big);
      FileReads(rs[1..], big);
      HeldFirst(rs);
      FirstRecord(r, big, rest, Blank());
      assert (r.data + rest)[|r.data|..] == rest;
      RecordsNext(rest, big, AsRead(r, big));
      RecordsNext(FileOf(rs, big), big, Blank());
    }
  }
}
