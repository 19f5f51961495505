/**
 Which file gets which scalar: a trace without a record that counts gives its slot, with the scalar set
 for it beforehand, to the next file.
 */
module TraceScalars {
  import opened Bits
  import opened Fifo
  import opened TraceFile
  import opened TraceMerge
  import opened TraceOpen

  /** A trace that is not broken before its first record that counts. */
  predicate Readable(f: File) { IsTrace(f) && !NextRecord(f.bytes, Swap(f), Blank()).Bad? }

  /** A trace with a record that counts. */
  predicate Counts(f: File) { IsTrace(f) && NextRecord(f.bytes, Swap(f), Blank()).Got? }

  /** The cursors as the options mean them: file k with scalar k, and no other file's traces. */
  function Meant(files: seq<File>, scalars: seq<nat>, i: nat): seq<Cursor>
    requires i + |files| <= |scalars|
    decreases |files|
  {
    if files == [] then []
    else if Counts(files[0]) then
      [AfterRead(InSlot(files[0], scalars[i], Zeroed())).0] + Meant(files[1..], scalars, i + 1)
    else Meant(files[1..], scalars, i + 1)
  }

  /** No file without records comes before a file with some. */
  predicate NoGap(files: seq<File>)
  {
    forall p, q :: 0 <= p < q < |files| && Counts(files[q]) ==> Counts(files[p])
  }

  /** What a trace finds in a slot does not decide whether it opens. */
  lemma ReadSlot(f: File, scalar: nat, slot: Slot)
    requires IsTrace(f)
    ensures AfterRead(InSlot(f, scalar, slot)).1 ==
            if Counts(f) then Found else if Readable(f) then Ended else Failed
    ensures AfterRead(InSlot(f, scalar, slot)).0.scalar == scalar
  {
    LastUnseen(f.bytes, Swap(f), slot.t, Blank());
  }

  /** What a trace without a record that counts leaves in its slot. */
  function SlotLeft(f: File, scalar: nat, slot: Slot): Slot
  {
    var c := AfterRead(InSlot(f, scalar, slot)).0;
    Slot(c.iter + 1, c.length, c.t)
  }

  /** One turn of the open loop, by what kind of file comes next. */
  lemma OpenStep(files: seq<File>, scalars: seq<nat>, i: nat, slot: Slot, ret: int)
    requires files != [] && i + |files| <= |scalars|
    ensures OpenFrom(files, scalars, i, slot, ret) ==
            if !IsTrace(files[0]) then Refused(ret)
            else if Counts(files[0]) then
              Appended([AfterRead(InSlot(files[0], scalars[i], slot)).0], OpenFrom(files[1..], scalars, i + 1, Zeroed(), HEADER))
            else if Readable(files[0]) then
              OpenFrom(files[1..], scalars, i, SlotLeft(files[0], scalars[i], slot), 0)
            else Refused(-1)
    ensures Counts(files[0]) ==> AfterRead(InSlot(files[0], scalars[i], slot)).0.t.time < TWO64
  {
    if IsTrace(files[0]) {
      ReadSlot(files[0], scalars[i], slot);
    }
  }

  // ---- What gaps do to the file after them ----

  lemma LastOf(stream: seq<Byte>, swap: bool, a: Rec, b: Rec)
    requires stream != []
    ensures NextRecord(stream, swap, a) == NextRecord(stream, swap, b)
  {
  }

  /** The time of the last record of a trace without a record that counts. */
  function LastTime(f: File): nat
    requires Readable(f) && !Counts(f)
  {
    NextRecord(f.bytes, Swap(f), Blank()).last.time
  }

  lemma LeavesSlot(f: File, scalar: nat, slot: Slot)
    requires Readable(f) && !Counts(f)
    ensures var left := SlotLeft(f, scalar, slot);
            left.iter == slot.iter + 1 && left.length == if slot.length == 0 then LastTime(f) else slot.length
  {
    LastOf(f.bytes, Swap(f), slot.t, Blank());
  }

  predicate AllGaps(gaps: seq<File>) { forall p :: 0 <= p < |gaps| ==> Readable(gaps[p]) && !Counts(gaps[p]) }

  /** The length that the gaps leave in their slot: the first time that is not zero. */
  function GapLength(gaps: seq<File>, length: nat): nat
    requires AllGaps(gaps)
  {
    if gaps == [] then length else GapLength(gaps[1..], if length == 0 then LastTime(gaps[0]) else length)
  }

  /** Only file f is open, at its first record with this timing. */
  predicate OpensAt(r: Outcome, f: File, scalar: nat, iter: nat, length: nat)
    requires Counts(f)
  {
    && r.Opened? && |r.cs| == 1
    && var c := r.cs[0];
       && c.scalar == scalar && c.iter == iter && c.length == length
       && c.t == Retimed(c, NextRecord(f.bytes, Swap(f), Blank()).rec)
  }

  lemma OpensAlone(f: File, scalars: seq<nat>, i: nat, slot: Slot, ret: int)
    requires Counts(f) && i < |scalars|
    ensures OpensAt(OpenFrom([f], scalars, i, slot, ret), f, scalars[i], slot.iter, slot.length)
  {
    OpenStep([f], scalars, i, slot, ret);
    LastOf(f.bytes, Swap(f), slot.t, Blank());
    assert [f][1..] == [];
  }

  lemma GapFirst(gaps: seq<File>, f: File, scalars: seq<nat>, i: nat, slot: Slot, ret: int)
    requires gaps != [] && AllGaps(gaps) && i + |gaps| + 1 <= |scalars|
    ensures OpenFrom(gaps + [f], scalars, i, slot, ret) ==
            OpenFrom(gaps[1..] + [f], scalars, i, SlotLeft(gaps[0], scalars[i], slot), 0)
  {
    var files := gaps + [f];
    OpenStep(files, scalars, i, slot, ret);
    assert files[0] == gaps[0] && files[1..] == gaps[1..] + [f];
  }

  /** A file after n gaps gets the scalar of the first of them, and its times are late by n times the first
      last time among them that is not zero, before they are scaled. */
  lemma {:induction false} GapsShift(gaps: seq<File>, f: File, scalars: seq<nat>, i: nat, slot: Slot, ret: int)
    requires AllGaps(gaps) && Counts(f) && i + |gaps| + 1 <= |scalars|
    ensures OpensAt(OpenFrom(gaps + [f], scalars, i, slot, ret), f, scalars[i], slot.iter + |gaps|, GapLength(gaps, slot.length))
    decreases |gaps|
  {
    if gaps == [] {
      assert gaps + [f] == [f];
      OpensAlone(f, scalars, i, slot, ret);
    } else {
      GapFirst(gaps, f, scalars, i, slot, ret);
      LeavesSlot(gaps[0], scalars[i], slot);
      GapsShift(gaps[1..], f, scalars, i, SlotLeft(gaps[0], scalars[i], slot), 0);
    }
  }

  // ---- When every file gets its own scalar ----

  lemma {:induction false} NothingOpened(files: seq<File>, scalars: seq<nat>, i: nat, j: nat, slot: Slot, ret: int)
    requires i + |files| <= |scalars| && j + |files| <= |scalars|
    requires forall p :: 0 <= p < |files| ==> Readable(files[p]) && !Counts(files[p])
    ensures OpenFrom(files, scalars, i, slot, ret) == Opened([]) && Meant(files, scalars, j) == []
    decreases |files|
  {
    if files != [] {
      OpenStep(files, scalars, i, slot, ret);
      NothingOpened(files[1..], scalars, i, j + 1, SlotLeft(files[0], scalars[i], slot), 0);
    }
  }

  lemma MeantStep(files: seq<File>, scalars: seq<nat>, i: nat, ret: int)
    requires files != [] && i + |files| <= |scalars| && Counts(files[0])
    requires OpenFrom(files[1..], scalars, i + 1, Zeroed(), HEADER) == Opened(Meant(files[1..], scalars, i + 1))
    ensures OpenFrom(files, scalars, i, Zeroed(), ret) == Opened(Meant(files, scalars, i))
  {
    OpenStep(files, scalars, i, Zeroed(), ret);
  }

  lemma NoGapAfter(files: seq<File>)
    requires files != [] && NoGap(files)
    ensures NoGap(files[1..])
  {
    assert forall p :: 0 <= p < |files[1..]| ==> files[1..][p] == files[p + 1];
  }

  lemma NoneAfter(files: seq<File>)
    requires files != [] && NoGap(files) && !Counts(files[0])
    ensures forall p :: 0 <= p < |files| ==> !Counts(files[p])
  {
  }

  lemma {:induction false} OpensAsMeant(files: seq<File>, scalars: seq<nat>, i: nat, ret: int)
    requires i + |files| <= |scalars| && NoGap(files)
    requires forall p :: 0 <= p < |files| ==> Readable(files[p])
    ensures OpenFrom(files, scalars, i, Zeroed(), ret) == Opened(Meant(files, scalars, i))
    decreases |files|
  {
    if files != [] {
      if Counts(files[0]) {
        NoGapAfter(files);
        OpensAsMeant(files[1..], scalars, i + 1, HEADER);
        MeantStep(files, scalars, i, ret);
      } else {
        NoneAfter(files);
        NothingOpened(files, scalars, i, i, Zeroed(), ret);
      }
    }
  }

  /** Scalars that are all different. */
  function Distinct(n: nat): (r: seq<nat>)
    ensures |r| == n && forall k :: 0 <= k < n ==> r[k] == k + 1
  {
    seq(n, k => k + 1)
  }

  /** The first file with records opens in the slot the loop is at. */
  lemma {:induction false} FirstOpened(files: seq<File>, scalars: seq<nat>, i: nat, slot: Slot, p: nat, ret: int)
    requires i + |files| <= |scalars| && p < |files| && Counts(files[p])
    ensures var r := OpenFrom(files, scalars, i, slot, ret);
            r.Opened? ==> r.cs != [] && r.cs[0].scalar == scalars[i]
    decreases |files|
  {
    OpenStep(files, scalars, i, slot, ret);
    if Counts(files[0]) {
      ReadSlot(files[0], scalars[i], slot);
    } else {
      assert files[1..][p - 1] == files[p];
      FirstOpened(files[1..], scalars, i, SlotLeft(files[0], scalars[i], slot), p - 1, 0);
    }
  }

  /** It is meant to have the scalar of its own place in the list, which is no earlier. */
  lemma {:induction false} FirstMeant(files: seq<File>, n: nat, j: nat, p: nat)
    requires j + |files| <= n && p < |files| && Counts(files[p])
    ensures var m := Meant(files, Distinct(n), j); m != [] && m[0].scalar > j
    decreases |files|
  {
    if Counts(files[0]) {
      ReadSlot(files[0], Distinct(n)[j], Zeroed());
    } else {
      assert files[1..][p - 1] == files[p];
      FirstMeant(files[1..], n, j + 1, p - 1);
    }
  }

  /** The first file gives up its slot: the next file with records gets its scalar. */
  lemma GapAtFirst(files: seq<File>, n: nat, i: nat, q: nat, ret: int)
    requires i + |files| <= n && 0 < q < |files| && !Counts(files[0]) && Counts(files[q])
    ensures OpenFrom(files, Distinct(n), i, Zeroed(), ret) != Opened(Meant(files, Distinct(n), i))
  {
    assert files[1..][q - 1] == files[q];
    OpenStep(files, Distinct(n), i, Zeroed(), ret);
    FirstOpened(files[1..], Distinct(n), i, SlotLeft(files[0], Distinct(n)[i], Zeroed()), q - 1, 0);
    FirstMeant(files[1..], n, i + 1, q - 1);
  }

  /** Cursors that go wrong after the first are wrong with the first. */
  lemma WrongLater(files: seq<File>, scalars: seq<nat>, i: nat, ret: int)
    requires files != [] && i + |files| <= |scalars| && Counts(files[0])
    requires OpenFrom(files[1..], scalars, i + 1, Zeroed(), HEADER) != Opened(Meant(files[1..], scalars, i + 1))
    ensures OpenFrom(files, scalars, i, Zeroed(), ret) != Opened(Meant(files, scalars, i))
  {
    OpenStep(files, scalars, i, Zeroed(), ret);
    var c := AfterRead(InSlot(files[0], scalars[i], Zeroed())).0;
    var m := Meant(files[1..], scalars, i + 1);
    var r := OpenFrom(files[1..], scalars, i + 1, Zeroed(), HEADER);
    assert ([c] + m)[1..] == m;
    if r.Opened? {
      assert ([c] + r.cs)[1..] == r.cs;
    }
  }

  lemma {:induction false} GapMisleads(files: seq<File>, n: nat, i: nat, p: nat, q: nat, ret: int)
    requires i + |files| <= n && p < q < |files| && !Counts(files[p]) && Counts(files[q])
    ensures OpenFrom(files, Distinct(n), i, Zeroed(), ret) != Opened(Meant(files, Distinct(n), i))
    decreases |files|
  {
    if Counts(files[0]) {
      assert files[1..][p - 1] == files[p] && files[1..][q - 1] == files[q];
      GapMisleads(files[1..], n, i + 1, p - 1, q - 1, HEADER);
      WrongLater(files, Distinct(n), i, ret);
    } else {
      GapAtFirst(files, n, i, q, ret);
    }
  }

  /** Every file gets its own scalar, whatever the scalars are, exactly when no file without records
      that count comes before a file with some. */
  lemma OwnScalars(files: seq<File>)
    requires forall p :: 0 <= p < |files| ==> Readable(files[p])
    ensures NoGap(files) <==>
            forall scalars: seq<nat> :: |scalars| == |files| ==>
              OpenAll(files, scalars) == Opened(Meant(files, scalars, 0))
  {
    if NoGap(files) {
      forall scalars: seq<nat> | |scalars| == |files|
        ensures OpenAll(files, scalars) == Opened(Meant(files, scalars, 0))
      {
        OpensAsMeant(files, scalars, 0, 0);
      }
    } else {
      var p, q :| 0 <= p < q < |files| && Counts(files[q]) && !Counts(files[p]);
      GapMisleads(files, |files|, 0, p, q, 0);
      assert |Distinct(|files|)| == |files|;
    }
  }
}
