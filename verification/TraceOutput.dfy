/**
 The merged file: what is written for each record, and that reading the file gives the records again.
 */
module TraceOutput {
  import opened Options
  import opened Bits
  import opened Fifo
  import opened TraceFile
  import opened TraceMerge
  import opened TraceLayout

  lemma {:induction false} BackwardsSize(b: seq<Byte>)
    ensures |Backwards(b)| == |b|
  {
    if b != [] {
      BackwardsSize(b[1..]);
    }
  }

  lemma NativeSizes(b: seq<Byte>)
    requires |b| == HEADER
    ensures |Native(b, true)| == HEADER && Native(b, true)[28..32] == Backwards(b[28..32])
  {
    BackwardsSize(b[0..4]);
    BackwardsSize(b[4..8]);
    BackwardsSize(b[8..16]);
    BackwardsSize(b[16..24]);
    BackwardsSize(b[24..28]);
    BackwardsSize(b[28..32]);
    BackwardsSize(b[32..36]);
    BackwardsSize(b[36..40]);
    BackwardsSize(b[40..44]);
    BackwardsSize(b[44..46]);
    BackwardsSize(b[46..48]);
  }

  /** A record that was read, with its time and its data length changed since. */
  predicate Recorded(r: Rec)
  {
    && |r.header| == HEADER && Field(r.header, 28, 32, r.swap) == r.action && Accepted(r.action)
    && r.time < TWO64 && r.pdu < 0x1_0000
  }

  /** write_trace: the header in the machine's byte order, with the record's time and data length in it. */
  function WrittenHeader(r: Rec): (h: seq<Byte>)
    requires |r.header| == HEADER
    ensures |h| == HEADER
  {
    var n := Native(r.header, r.swap);
    NativeSizes(r.header);
    n[..8] + Bytes(r.time, 8, false) + n[16..46] + Bytes(r.pdu, 2, false)
  }

  function Rewritten(r: Rec): Rec
    requires |r.header| == HEADER
  {
    r.(header := WrittenHeader(r), swap := false)
  }

  lemma WrittenFields(a: seq<Byte>, b: seq<Byte>, c: seq<Byte>, d: seq<Byte>)
    requires |a| == 8 && |b| == 8 && |c| == 30 && |d| == 2
    ensures var h := a + b + c + d;
            |h| == HEADER && h[8..16] == b && h[28..32] == c[12..16] && h[46..48] == d
  {
  }

  lemma WrittenDecodes(r: Rec)
    requires Recorded(r)
    ensures Decode(WrittenHeader(r), false) == Rewritten(r)
  {
    var h := WrittenHeader(r);
    Widths();
    var n := Native(r.header, r.swap);
    NativeSizes(r.header);
    WrittenFields(n[..8], Bytes(r.time, 8, false), n[16..46], Bytes(r.pdu, 2, false));
    assert n[16..46][12..16] == n[28..32];
    FieldReads(h, 8, 16, r.time, false);
    FieldReads(h, 46, 48, r.pdu, false);
  }

  ghost predicate AllRecorded(out: seq<Rec>) { forall i :: 0 <= i < |out| ==> Recorded(out[i]) && out[i].pdu == 0 }

  /** The bytes written for these records. */
  ghost function MergedFile(out: seq<Rec>): seq<Byte>
    requires AllRecorded(out)
  {
    if out == [] then [] else WrittenHeader(out[0]) + MergedFile(out[1..])
  }

  ghost function Reread(out: seq<Rec>): (rs: seq<Rec>)
    requires AllRecorded(out)
    ensures |rs| == |out| && forall i :: 0 <= i < |rs| ==> rs[i] == Rewritten(out[i])
  {
    if out == [] then [] else [Rewritten(out[0])] + Reread(out[1..])
  }

  /** The merged file is read as exactly the records that were written, in order, with their times. */
  lemma {:induction false} MergedReads(out: seq<Rec>)
    requires AllRecorded(out)
    ensures Records(MergedFile(out), false) == Some(Reread(out))
  {
    if out != [] {
      var h, rest := WrittenHeader(out[0]), MergedFile(out[1..]);
      MergedReads(out[1..]);
      WrittenDecodes(out[0]);
      var stream := h + rest;
      assert stream[..HEADER] == h && stream[HEADER..] == rest && rest[0..] == rest;
      assert NextRecord(stream, false, Blank()) == Got(Rewritten(out[0]), rest);
    }
  }

  // ---- Every record of a merge was read ----

  lemma {:induction false} LittleBound(b: seq<Byte>)
    ensures Little(b) < Power256(|b|)
  {
    if b != [] {
      LittleBound(b[1..]);
    }
  }

  lemma FieldBound(b: seq<Byte>, lo: nat, hi: nat, swap: bool)
    requires lo <= hi <= |b|
    ensures Field(b, lo, hi, swap) < Power256(hi - lo)
  {
    BackwardsSize(b[lo..hi]);
    LittleBound(if swap then Backwards(b[lo..hi]) else b[lo..hi]);
  }

  lemma DecodedRecorded(b: seq<Byte>, swap: bool)
    requires |b| == HEADER && Accepted(Decode(b, swap).action)
    ensures Recorded(Decode(b, swap))
  {
    Widths();
    FieldBound(b, 8, 16, swap);
    FieldBound(b, 46, 48, swap);
  }

  lemma {:induction false} NextRecorded(stream: seq<Byte>, swap: bool, last: Rec)
    ensures NextRecord(stream, swap, last).Got? ==> Recorded(NextRecord(stream, swap, last).rec)
    decreases |stream|
  {
    if HEADER <= |stream| {
      var r := Decode(stream[..HEADER], swap);
      var rest := stream[HEADER..];
      if Accepted(r.action) {
        DecodedRecorded(stream[..HEADER], swap);
      } else if r.pdu <= Available(rest) {
        NextRecorded(rest[r.pdu..], swap, r);
      }
    }
  }

  lemma {:induction false} RecordsRecorded(stream: seq<Byte>, swap: bool)
    ensures Records(stream, swap).Some? ==> forall r :: r in Records(stream, swap).value ==> Recorded(r)
    decreases |stream|
  {
    var g := NextRecord(stream, swap, Blank());
    NextRecorded(stream, swap, Blank());
    if g.Got? && g.rec.pdu <= Available(g.rest) {
      RecordsRecorded(g.rest[g.rec.pdu..], swap);
    }
  }

  predicate AllRead(cs: seq<Cursor>) { forall i :: 0 <= i < |cs| ==> Recorded(cs[i].t) }

  lemma AheadRecorded(c: Cursor)
    requires Recorded(c.t)
    ensures Ahead(c).Some? ==> forall r :: r in Ahead(c).value ==> Recorded(r) && r.pdu == 0
  {
    if Ahead(c).Some? {
      var rs := Tail(c).value;
      RecordsRecorded(c.stream[c.t.pdu..], c.swap);
      forall k | 0 <= k < |rs| ensures Recorded(Cleaned(c, rs)[k]) {
        assert rs[k] in rs;
      }
    }
  }

  lemma {:induction false} TimesIn(x: Rec, ls: seq<seq<Rec>>) returns (i: nat)
    requires Times(x, ls) > 0
    ensures i < |ls| && x in ls[i]
  {
    var last := |ls| - 1;
    if x in multiset(ls[last]) {
      i := last;
    } else {
      i := TimesIn(x, ls[..last]);
    }
  }

  lemma MergedRecorded(cs: seq<Cursor>, out: seq<Rec>)
    requires AllRead(cs) && AllGood(cs) && forall x :: multiset(out)[x] == Times(x, Lists(cs))
    ensures AllRecorded(out)
  {
    forall k | 0 <= k < |out| ensures Recorded(out[k]) && out[k].pdu == 0 {
      assert out[k] in multiset(out);
      var i := TimesIn(out[k], Lists(cs));
      AheadRecorded(cs[i]);
      assert Lists(cs)[i] == Ahead(cs[i]).value;
    }
  }
}
