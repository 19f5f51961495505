/**
 Small traces that show what the merge does with a file without records that count, and with a record
 whose data is cut off.
 */
module TraceExamples {
  import opened Options
  import opened Bits
  import opened Fifo
  import opened TraceFile
  import opened TraceAction
  import opened TraceLayout
  import opened TraceMerge
  import opened TraceOpen
  import opened TraceScalars
  import opened TraceResult

  /** A record's header with the magic number and otherwise zero fields but for a small time, a small
      amount of data and, if queued, the action of a read. */
  function Header(time: Byte, queued: bool, pdu: Byte): (h: seq<Byte>)
    ensures |h| == HEADER
  {
    [0x07, 0x74, 0x61, 0x65] + seq(HEADER - 4, i requires 0 <= i < HEADER - 4 =>
      if i == 4 then time else if queued && (i == 24 || i == 26) then 1 else if i == 42 then pdu else 0)
  }

  lemma {:induction false} LittleZero(b: seq<Byte>)
    requires forall i :: 0 <= i < |b| ==> b[i] == 0
    ensures Little(b) == 0
  {
    if b != [] {
      LittleZero(b[1..]);
    }
  }

  lemma LittleFirst(b: seq<Byte>)
    requires b != [] && forall i :: 0 < i < |b| ==> b[i] == 0
    ensures Little(b) == b[0]
  {
    LittleZero(b[1..]);
  }

  lemma LittleFour(b: seq<Byte>)
    requires |b| == 4
    ensures Little(b) == (b[0] as int) + 0x100 * (b[1] as int) + 0x1_0000 * (b[2] as int) + 0x100_0000 * (b[3] as int)
  {
    assert Little(b) == b[0] + 256 * Little(b[1..]);
    assert Little(b[1..]) == b[1] + 256 * Little(b[1..][1..]);
    assert b[1..][1..] == b[2..] && b[2..][1..] == b[3..] && b[3..][1..] == [];
    assert Little(b[2..]) == b[2] + 256 * Little(b[3..]);
    assert Little(b[3..]) == b[3] + 256 * Little([]);
  }

  lemma HeaderIsTrace(time: Byte, queued: bool, pdu: Byte)
    ensures TraceTest(Header(time, queued, pdu)).Some? && !TraceTest(Header(time, queued, pdu)).value
  {
    var b := Header(time, queued, pdu)[0..4];
    LittleFour(b);
    assert Little(b) / 0x100 == 0x656174;
  }

  lemma HeaderDecodes(time: Byte, queued: bool, pdu: Byte)
    ensures Decode(Header(time, queued, pdu), false) ==
            Rec(time, if queued then 65537 else 0, pdu, Header(time, queued, pdu), false)
  {
    var h := Header(time, queued, pdu);
    LittleFirst(h[8..16]);
    LittleFirst(h[46..48]);
    LittleFour(h[28..32]);
  }

  /** A file that is one header: its record, if it counts, with nothing after it. */
  lemma HeaderReads(time: Byte, queued: bool, pdu: Byte, last: Rec)
    requires !queued ==> pdu == 0
    ensures var r := Rec(time, if queued then 65537 else 0, pdu, Header(time, queued, pdu), false);
            NextRecord(Header(time, queued, pdu), false, last) == if queued then Got(r, []) else End(r)
  {
    var h := Header(time, queued, pdu);
    var r := Rec(time, if queued then 65537 else 0, pdu, h, false);
    HeaderDecodes(time, queued, pdu);
    assert h[..HEADER] == h && h[HEADER..] == [];
    assert NextRecord([], false, r) == End(r);
    assert !queued ==> h[HEADER..][r.pdu..] == [];
  }

  // ---- A gap ----

  const SKIPPED: File := File(Header(7, false, 0))
  const READ: File := File(Header(100, true, 0))

  lemma Kinds()
    ensures IsTrace(SKIPPED) && !Swap(SKIPPED) && Readable(SKIPPED) && !Counts(SKIPPED)
    ensures IsTrace(READ) && !Swap(READ) && Readable(READ) && Counts(READ)
  {
    HeaderIsTrace(7, false, 0);
    HeaderIsTrace(100, true, 0);
    HeaderReads(7, false, 0, Blank());
    HeaderReads(100, true, 0, Blank());
  }

  lemma Timings(r: Rec)
    requires r.time == 100
    ensures Timing(r, 50, 1, 7).time == 53 && Timing(r, 100, 0, 0).time == 100
  {
  }

  /** The read, opened in the slot that the other file gave up. */
  lemma ReadSecond(skipped: Rec)
    ensures var r := OpenFrom([READ], [50, 100], 0, Slot(1, 7, skipped), 0);
            r.Opened? && |r.cs| == 1 && r.cs[0].t.time == 53
  {
    Kinds();
    Timings(Rec(100, 65537, 0, Header(100, true, 0), false));
    HeaderReads(100, true, 0, skipped);
    OpenStep([READ], [50, 100], 0, Slot(1, 7, skipped), 0);
    assert [READ][1..] == [];
  }

  lemma GapOpened()
    ensures var r := OpenAll([SKIPPED, READ], [50, 100]); r.Opened? && |r.cs| == 1 && r.cs[0].t.time == 53
  {
    var skipped := Rec(7, 0, 0, Header(7, false, 0), false);
    Kinds();
    HeaderReads(7, false, 0, Blank());
    OpenStep([SKIPPED, READ], [50, 100], 0, Zeroed(), 0);
    assert SlotLeft(SKIPPED, 50, Zeroed()) == Slot(1, 7, skipped);
    assert [SKIPPED, READ][1..] == [READ];
    ReadSecond(skipped);
  }

  lemma GapMeant()
    ensures var m := Meant([SKIPPED, READ], [50, 100], 0); |m| == 1 && m[0].t.time == 100
  {
    var r := Rec(100, 65537, 0, Header(100, true, 0), false);
    Kinds();
    Timings(r);
    HeaderReads(100, true, 0, Blank());
    assert AfterRead(InSlot(READ, 100, Zeroed())).0.t == Timing(r, 100, 0, 0);
    assert [SKIPPED, READ][1..] == [READ] && [READ][1..] == [];
    assert Meant([], [50, 100], 2) == [];
    assert Meant([READ], [50, 100], 1) == [AfterRead(InSlot(READ, 100, Zeroed())).0] + [];
  }

  /** Two traces, the first with one record that does not count, at time 7, the second with a read at
      time 100; scalars 50 and 100. The read is to be at time 100 in the merged trace; it is at 53,
      scaled by the first file's scalar after the first file's time was added. */
  lemma GapExample()
    ensures Readable(SKIPPED) && Readable(READ) && !NoGap([SKIPPED, READ])
    ensures var got, meant := OpenAll([SKIPPED, READ], [50, 100]), Meant([SKIPPED, READ], [50, 100], 0);
            && got.Opened? && |got.cs| == |meant| == 1
            && got.cs[0].t.time == 53 && meant[0].t.time == 100
  {
    GapOpened();
    GapMeant();
    Kinds();
    assert Counts([SKIPPED, READ][1]) && !Counts([SKIPPED, READ][0]);
  }

  // ---- Zero without a merged trace ----

  /** A read with four bytes of data, none of which are there. */
  const CUT_OFF: File := File(Header(100, true, 4))

  lemma CutOffIsCut()
    ensures Readable(CUT_OFF) && FlawIn(CUT_OFF) == Cut
  {
    HeaderIsTrace(100, true, 4);
    HeaderReads(100, true, 4, Blank());
  }

  /** The merge of the cut-off trace returns zero, as on success, and adopts nothing. */
  method CutOff() returns (adopted: bool, ret: int, out: seq<Rec>)
    ensures !adopted && ret == 0
  {
    CutOffIsCut();
    assert !Good(CUT_OFF) by {
      SoundIffRecords(CUT_OFF.bytes, Swap(CUT_OFF));
    }
    assert !EachGood([CUT_OFF]) by {
      assert !Good([CUT_OFF][0]);
    }
    adopted, ret, out := MergeFiles([CUT_OFF], [100]);
    assert EachReadable([CUT_OFF]);
    assert !SomeFile([CUT_OFF], Torn);
  }

  /** So does the merge of a file that is no trace, such as an empty one. */
  method NoTrace() returns (adopted: bool, ret: int, out: seq<Rec>)
    ensures !adopted && ret == 0
  {
    var empty := File([]);
    assert !IsTrace(empty);
    adopted, ret, out := MergeFiles([empty], [100]);
    assert StopsOpening([empty], 0);
  }

  // ---- Writes, discards and byte order ----

  /** A record with the magic number and no data, at a time that a scalar of 100 leaves alone. */
  predicate Simple(r: Raw) { Fits(r) && r.magic / 0x100 == 0x656174 && r.data == [] && r.time * 100 < TWO64 }

  const QUEUED_WRITE: nat := 0x0002_0001
  const QUEUED_DISCARD: nat := 0x2000_0001
  const ISSUED_READ: nat := 0x0001_0007

  lemma Actions()
    ensures Accepted(QUEUED_WRITE) && Accepted(QUEUED_DISCARD) && !Accepted(ISSUED_READ)
  {
  }

  lemma KeptFirst(r: Raw, more: seq<Raw>, big: bool)
    ensures KeptOf([r] + more, big) == if Accepted(r.action) then [AsRead(r, big)] + KeptOf(more, big) else KeptOf(more, big)
  {
    AcceptedIffSelected(r.action);
    assert ([r] + more)[1..] == more;
  }

  lemma KeptAll(w: Raw, big: bool)
    requires Accepted(w.action)
    ensures KeptOf([w], big) == [AsRead(w, big)]
  {
    KeptFirst(w, [], big);
    assert [w] + [] == [w];
  }

  lemma KeptLast(s: Raw, d: Raw, big: bool)
    requires !Accepted(s.action) && Accepted(d.action)
    ensures KeptOf([s, d], big) == [AsRead(d, big)]
  {
    KeptFirst(s, [d], big);
    KeptAll(d, big);
    assert [s] + [d] == [s, d];
  }

  lemma Unscaled(c: Cursor, r: Rec)
    requires c.iter == 0 && c.scalar == 100 && r.time * 100 < TWO64 && r.pdu == 0
    ensures Cleaned(c, [r]) == [r]
  {
    TimeOf(c, r);
    ExactQuotient(r.time * 100, 100, r.time);
    assert [r][1..] == [];
  }

  /** A file of simple records, one of which counts. */
  lemma SimpleFile(rs: seq<Raw>, big: bool, d: Raw, f: File)
    requires rs != [] && f == File(FileOf(rs, big)) && KeptOf(rs, big) == [AsRead(d, big)] && Simple(d)
    requires forall i :: 0 <= i < |rs| ==> Simple(rs[i])
    ensures Good(f) && Counts(f) && InOrder(f, 100) && Timed(f, 100) == Some([AsRead(d, big)])
  {
    FileReads(rs, big);
    var more := rs[0].data + FileOf(rs[1..], big);
    EncodedTest(rs[0], big, more);
    assert f.bytes == Encode(rs[0], big) + more;
    RecordsNext(f.bytes, Swap(f), Blank());
    Unscaled(InSlot(f, 100, Zeroed()), AsRead(d, big));
  }

  lemma TwoWanted(f: File, g: File, a: seq<Rec>, b: seq<Rec>)
    requires Good(f) && Counts(f) && InOrder(f, 100) && Good(g) && Counts(g) && InOrder(g, 100)
    requires Timed(f, 100) == Some(a) && Timed(g, 100) == Some(b)
    ensures EachGood([f, g]) && NoGap([f, g]) && EachInOrder([f, g], [100, 100])
    ensures Wanted([f, g], [100, 100], 0) == [a, b]
  {
    var files := [f, g];
    assert files[1..] == [g] && [g][1..] == [];
    assert Wanted([], [100, 100], 2) == [];
    assert Wanted([g], [100, 100], 1) == [b] + [];
  }

  /** A file with a queued write, and one in the other byte order with an issued read and a queued discard:
      the write and the discard are in the merged trace, in order of time, and the issued read is not. */
  method WriteAndDiscard(write: Raw, issued: Raw, discard: Raw) returns (adopted: bool, ret: int, out: seq<Rec>)
    requires Simple(write) && Simple(issued) && Simple(discard) && discard.time < write.time
    requires write.action == QUEUED_WRITE && issued.action == ISSUED_READ && discard.action == QUEUED_DISCARD
    ensures adopted && ret == 0 && out == [AsRead(discard, true), AsRead(write, false)]
  {
    Actions();
    KeptAll(write, false);
    KeptLast(issued, discard, true);
    var f, g := File(FileOf([write], false)), File(FileOf([issued, discard], true));
    SimpleFile([write], false, write, f);
    SimpleFile([issued, discard], true, discard, g);
    TwoWanted(f, g, [AsRead(write, false)], [AsRead(discard, true)]);
    adopted, ret, out := MergeFiles([f, g], [100, 100]);
    TwoSorted(out, AsRead(write, false), AsRead(discard, true));
  }

  lemma TwoSorted(out: seq<Rec>, a: Rec, b: Rec)
    requires b.time < a.time && Sorted(out) && forall x :: multiset(out)[x] == Times(x, [[a], [b]])
    ensures out == [b, a]
  {
    forall x ensures multiset(out)[x] == multiset{b, a}[x] {
      assert [[a], [b]][..1] == [[a]] && [[a]][..0] == [];
      assert Times(x, [[a]]) == 0 + multiset([a])[x];
    }
    assert multiset(out) == multiset{b, a};
    assert |out| == |multiset(out)| == 2;
    assert out == [out[0], out[1]];
    assert multiset(out) == multiset{out[0], out[1]};
    assert out[0] in multiset{b, a} && out[1] in multiset{b, a};
  }
}
