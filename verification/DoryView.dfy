/**
 Refinement: the storage overlaid with the slots in use is the flat disk, on which the writes
 took effect in the order they were acknowledged; and every read returned what was there.
 Excused are blocks whose write-back was refused after the stop, and blocks whose slot was
 dropped by a full-block FUA write or discard that the storage has not completed yet.
 */
module DoryView {
  import opened DoryDisk
  import opened DorySections
  import opened DoryMachine
  import opened DoryStructure
  import opened DoryStructureSteps
  import opened DoryAccounts
  import opened DoryCache

  /** Slot j holds current data: it is in use and its first copy is done. */
  predicate Holds(s: State, j: nat)
    requires j < |s.d.slots| == |s.aux.notes|
  {
    !s.d.slots[j].state.EMPTY? && !s.aux.notes[j].filling
  }

  /** What a reader of block k is to see: the slot if one holds it, else the storage. */
  function ViewAt(s: State, k: nat): Block
    requires k < |s.disk| && |s.aux.notes| == |s.d.slots|
  {
    if s.d.slots == [] then s.disk[k]
    else
      var j := SlotOf(|s.d.slots|, k);
      if Holds(s, j) && s.d.slots[j].block == k then s.d.slots[j].data else s.disk[k]
  }

  function Flat(s: State): (r: seq<Block>)
    ensures |r| == |s.aux.init|
  {
    Replay(s.d.wide, s.aux.init, s.bios, s.done)
  }

  predicate Excused(s: State, k: nat) { k in s.aux.lost || k in s.aux.dropped }

  predicate ViewOk(s: State)
    requires Static(s)
  {
    forall k :: 0 <= k < |s.disk| && !Excused(s, k) ==> ViewAt(s, k) == Flat(s)[k]
  }

  predicate LegalOk(s: State)
  {
    s.aux.lost == {} ==> Legal(s.d.wide, s.aux.init, s.bios, s.done)
  }

  predicate LostOk(s: State) { s.aux.lost != {} ==> s.d.stop }

  // ---- Steps that no reader can notice ----

  predicate SameView(s: State, s': State)
    requires |s.aux.notes| == |s.d.slots|
  {
    && |s'.aux.notes| == |s'.d.slots| == |s.d.slots|
    && s'.d.wide == s.d.wide && s'.aux.init == s.aux.init && s'.disk == s.disk && s'.bios == s.bios
    && (s.d.stop ==> s'.d.stop)
    && s'.aux.dropped == s.aux.dropped && s.aux.lost <= s'.aux.lost && (s'.aux.lost != s.aux.lost ==> s'.d.stop)
    && (forall j :: 0 <= j < |s.d.slots| ==>
          && Holds(s', j) == Holds(s, j)
          && (Holds(s, j) ==> s'.d.slots[j].block == s.d.slots[j].block && s'.d.slots[j].data == s.d.slots[j].data))
    && (s'.done == s.done || (|s'.done| == |s.done| + 1 && s'.done == s.done + [s'.done[|s.done|]] && !s'.done[|s.done|].served))
  }

  /** Such a step leaves the flat disk and the view as they are. */
  lemma ViewKept(s: State, s': State)
    requires Static(s) && Static(s') && ViewOk(s) && LegalOk(s) && LostOk(s) && SameView(s, s')
    ensures ViewOk(s') && LegalOk(s') && LostOk(s')
    ensures Flat(s') == Flat(s)
  {
    if s'.done != s.done {
      ReplayAppend(s.d.wide, s.aux.init, s.bios, s.done, s'.done[|s.done|]);
    }
    forall k | 0 <= k < |s'.disk| && !Excused(s', k) ensures ViewAt(s', k) == Flat(s')[k] {
      assert ViewAt(s, k) == Flat(s)[k];
    }
  }

  // ---- The steps that take effect ----

  lemma DroppedConflict(s: State, k: nat, b: nat)
    requires Static(s) && DropOk(s) && k in s.aux.dropped
    requires b < |s.bios| && !IsFlush(s.bios[b]) && BlockOf(s.d.wide, s.bios[b]) == k
    ensures Conflict(s.d.wide, s.bios[s.aux.dropped[k]], s.bios[b])
  {
    assert Fits(s.d.wide, |s.disk|, s.bios[b]) && Fits(s.d.wide, |s.disk|, s.bios[s.aux.dropped[k]]);
  }

  /** A read in flight reads a block that is neither lost nor dropped, so it sees the flat disk. */
  lemma ReadSees(s: State, i: nat, b: nat)
    requires Static(s) && ViewOk(s) && CacheOk(s) && Conserved(s) && s.aux.lost == {}
    requires i < |s.th| && Held(b, s.th[i]) > 0 && b < |s.bios| && s.bios[b].op.Read?
    ensures var k := BlockOf(s.d.wide, s.bios[b]); k < |s.disk| && ViewAt(s, k) == Flat(s)[k]
  {
    assert Fits(s.d.wide, |s.disk|, s.bios[b]);
    HeldOnce(s, i, b);
    var k := BlockOf(s.d.wide, s.bios[b]);
    if k in s.aux.dropped {
      OutLive(s, s.aux.dropped[k]);
      DroppedConflict(s, k, b);
      assert false;
    }
  }

  lemma ViewCopy(s: State, i: nat, b: nat, j: nat)
    requires Structure(s) && CacheOk(s) && Conserved(s) && ViewOk(s) && LegalOk(s) && LostOk(s)
    requires CanRun(s, i) && s.th[i].pc == Copy(b, j)
    requires Static(StepCopy(s, i, b, j))
    ensures var s' := StepCopy(s, i, b, j); ViewOk(s') && LegalOk(s') && LostOk(s')
  {
    assert ThreadOk(s, i, s.th[i]);
    if s.bios[b].op.Read? {
      ViewCopyRead(s, i, b, j);
    } else {
      ViewCopyWrite(s, i, b, j);
      ReplayAppend(s.d.wide, s.aux.init, s.bios, s.done, StepCopy(s, i, b, j).done[|s.done|]);
    }
  }

  lemma ViewCopyRead(s: State, i: nat, b: nat, j: nat)
    requires Structure(s) && CacheOk(s) && Conserved(s) && ViewOk(s) && LegalOk(s)
    requires CanRun(s, i) && s.th[i].pc == Copy(b, j) && s.bios[b].op.Read?
    requires Static(StepCopy(s, i, b, j))
    ensures var s' := StepCopy(s, i, b, j); ViewOk(s') && LegalOk(s')
  {
    assert ThreadOk(s, i, s.th[i]) && SlotOk(s, j);
    assert Fits(s.d.wide, |s.disk|, s.bios[b]);
    var at := OffsetOf(s.d.wide, s.bios[b]);
    ReplayAppend(s.d.wide, s.aux.init, s.bios, s.done, Ending(b, true, false, s.d.slots[j].data[at..at + s.bios[b].size]));
    if s.aux.lost == {} {
      ReadSees(s, i, b);
      ReadHit(s, b, j);
    }
    ViewStaysRead(s, i, b, j);
  }

  lemma ViewStaysRead(s: State, i: nat, b: nat, j: nat)
    requires Structure(s) && ViewOk(s) && CanRun(s, i) && s.th[i].pc == Copy(b, j) && s.bios[b].op.Read?
    requires Static(StepCopy(s, i, b, j)) && Flat(StepCopy(s, i, b, j)) == Flat(s)
    ensures ViewOk(StepCopy(s, i, b, j))
  {
    assert ThreadOk(s, i, s.th[i]) && SlotOk(s, j);
    var s' := StepCopy(s, i, b, j);
    forall k | 0 <= k < |s'.disk| && !Excused(s', k) ensures ViewAt(s', k) == Flat(s')[k] {
      assert ViewAt(s, k) == Flat(s)[k];
    }
  }

  /** A read served by a slot returns the bytes of the view. */
  lemma ReadHit(s: State, b: nat, j: nat)
    requires Structure(s) && b < |s.bios| && j < |s.d.slots| && !IsFlush(s.bios[b])
    requires SlotOk(s, j) && !s.d.slots[j].state.EMPTY? && !s.aux.notes[j].filling
    requires s.d.slots[j].block == BlockOf(s.d.wide, s.bios[b])
    requires Fits(s.d.wide, |s.disk|, s.bios[b])
    requires ViewAt(s, BlockOf(s.d.wide, s.bios[b])) == Flat(s)[BlockOf(s.d.wide, s.bios[b])]
    ensures var at := OffsetOf(s.d.wide, s.bios[b]);
            at + s.bios[b].size <= |s.d.slots[j].data| &&
            s.d.slots[j].data[at..at + s.bios[b].size] == Get(s.d.wide, Flat(s), s.bios[b])
  {
    ReplaySized(s.d.wide, s.aux.init, s.bios, s.done);
  }

  /** The block of a write shows the block as it was, with the data of the write in it. */
  lemma CopiedBlock(s: State, i: nat, b: nat, j: nat)
    requires Structure(s) && CanRun(s, i) && s.th[i].pc == Copy(b, j) && s.bios[b].op.Write?
    requires Static(StepCopy(s, i, b, j)) && |Flat(s)| == |s.disk|
    requires var k := BlockOf(s.d.wide, s.bios[b]);
             k < |s.disk| && |Flat(s)[k]| == BlockSize(s.d.wide) && ViewAt(s, k) == Flat(s)[k]
    ensures var k := BlockOf(s.d.wide, s.bios[b]);
            ViewAt(StepCopy(s, i, b, j), k) == Splice(Flat(s)[k], OffsetOf(s.d.wide, s.bios[b]), s.bios[b].data)
  {
    assert ThreadOk(s, i, s.th[i]) && SlotOk(s, j);
    var bio, k := s.bios[b], BlockOf(s.d.wide, s.bios[b]);
    assert ViewAt(StepCopy(s, i, b, j), k) == Splice(s.d.slots[j].data, OffsetOf(s.d.wide, bio), bio.data);
    if s.aux.notes[j].filling {
      FullSplice(s.d.wide, s.d.slots[j].data, bio);
      FullSplice(s.d.wide, Flat(s)[k], bio);
    } else {
      assert ViewAt(s, k) == s.d.slots[j].data;
    }
  }

  lemma FlatCopyWrite(s: State, i: nat, b: nat, j: nat)
    requires Structure(s) && CanRun(s, i) && s.th[i].pc == Copy(b, j) && s.bios[b].op.Write?
    requires Static(StepCopy(s, i, b, j))
    ensures Fits(s.d.wide, |s.disk|, s.bios[b]) && |Flat(s)| == |s.disk| && Sized(s.d.wide, Flat(s))
    ensures Flat(StepCopy(s, i, b, j)) == Put(s.d.wide, Flat(s), s.bios[b])
  {
    assert ThreadOk(s, i, s.th[i]) && SlotOk(s, j);
    var s' := StepCopy(s, i, b, j);
    ReplayAppend(s.d.wide, s.aux.init, s.bios, s.done, s'.done[|s.done|]);
    assert s'.done == s.done + [s'.done[|s.done|]];
    ReplaySized(s.d.wide, s.aux.init, s.bios, s.done);
  }

  lemma ViewCopyWrite(s: State, i: nat, b: nat, j: nat)
    requires Structure(s) && ViewOk(s) && CanRun(s, i) && s.th[i].pc == Copy(b, j) && s.bios[b].op.Write?
    requires Static(StepCopy(s, i, b, j))
    ensures ViewOk(StepCopy(s, i, b, j))
  {
    assert ThreadOk(s, i, s.th[i]) && SlotOk(s, j);
    var s', block := StepCopy(s, i, b, j), BlockOf(s.d.wide, s.bios[b]);
    FlatCopyWrite(s, i, b, j);
    forall k | 0 <= k < |s'.disk| && !Excused(s', k) ensures ViewAt(s', k) == Flat(s')[k] {
      assert ViewAt(s, k) == Flat(s)[k];
      if k == block {
        CopiedBlock(s, i, b, j);
      }
    }
  }

  lemma ViewStorage(s: State, i: nat, b: nat)
    requires Structure(s) && CacheOk(s) && Conserved(s) && ViewOk(s) && LegalOk(s) && LostOk(s)
    requires i < |s.th| && s.th[i].pc == Storage(b) && b < |s.bios| && Clear(s, s.bios[b])
    requires Static(StepStorage(s, i, b))
    ensures var s' := StepStorage(s, i, b); ViewOk(s') && LegalOk(s') && LostOk(s')
  {
    var s', bio := StepStorage(s, i, b), s.bios[b];
    var data := if bio.op.Read? then Get(s.d.wide, s.disk, bio) else [];
    ReplayAppend(s.d.wide, s.aux.init, s.bios, s.done, Ending(b, true, true, data));
    if bio.op.Read? && s.aux.lost == {} {
      ReadSees(s, i, b);
      ReadMiss(s, b);
    }
    forall k | 0 <= k < |s'.disk| && !Excused(s', k) ensures ViewAt(s', k) == Flat(s')[k] {
      StoredAt(s, i, b, k);
    }
  }

  /** A read served by the storage returns the bytes of the view. */
  lemma ReadMiss(s: State, b: nat)
    requires Structure(s) && b < |s.bios| && s.bios[b].op.Read? && Clear(s, s.bios[b])
    requires Fits(s.d.wide, |s.disk|, s.bios[b])
    requires ViewAt(s, BlockOf(s.d.wide, s.bios[b])) == Flat(s)[BlockOf(s.d.wide, s.bios[b])]
    ensures Get(s.d.wide, s.disk, s.bios[b]) == Get(s.d.wide, Flat(s), s.bios[b])
  {
    ReplaySized(s.d.wide, s.aux.init, s.bios, s.done);
  }

  lemma StoredAt(s: State, i: nat, b: nat, k: nat)
    requires Structure(s) && DropOk(s) && ViewOk(s)
    requires i < |s.th| && s.th[i].pc == Storage(b) && b < |s.bios| && Clear(s, s.bios[b])
    requires Static(StepStorage(s, i, b)) && k < |s.disk| && !Excused(StepStorage(s, i, b), k)
    ensures ViewAt(StepStorage(s, i, b), k) == Flat(StepStorage(s, i, b))[k]
  {
    var s', bio := StepStorage(s, i, b), s.bios[b];
    var data := if bio.op.Read? then Get(s.d.wide, s.disk, bio) else [];
    ReplayAppend(s.d.wide, s.aux.init, s.bios, s.done, Ending(b, true, true, data));
    if Mutates(bio) && k == BlockOf(s.d.wide, bio) {
      ViewStored(s, b, k);
      assert ViewAt(s', k) == s'.disk[k];
    } else {
      assert ViewAt(s, k) == Flat(s)[k];
    }
  }

  /** Storage and flat disk agree on the block of a write that both apply, unless it stays excused. */
  lemma ViewStored(s: State, b: nat, k: nat)
    requires Structure(s) && DropOk(s) && ViewOk(s) && b < |s.bios| && Clear(s, s.bios[b])
    requires Mutates(s.bios[b]) && k == BlockOf(s.d.wide, s.bios[b])
    requires k !in s.aux.lost && (k in s.aux.dropped ==> s.aux.dropped[k] == b)
    ensures k < |s.disk| && Put(s.d.wide, s.disk, s.bios[b])[k] == Put(s.d.wide, Flat(s), s.bios[b])[k]
  {
    assert Fits(s.d.wide, |s.disk|, s.bios[b]);
    ReplaySized(s.d.wide, s.aux.init, s.bios, s.done);
    if k in s.aux.dropped {
      FullSplice(s.d.wide, s.disk[k], s.bios[b]);
      FullSplice(s.d.wide, Flat(s)[k], s.bios[b]);
    } else {
      assert ViewAt(s, k) == Flat(s)[k];
    }
  }

  lemma ViewWriting(s: State, i: nat, j: nat)
    requires Structure(s) && ViewOk(s) && LegalOk(s) && LostOk(s)
    requires CanRun(s, i) && s.th[i].pc == Writing(j)
    requires Static(StepWriting(s, i, j))
    ensures var s' := StepWriting(s, i, j); ViewOk(s') && LegalOk(s') && LostOk(s')
  {
    assert ThreadOk(s, i, s.th[i]) && SlotOk(s, j);
    var s' := StepWriting(s, i, j);
    forall k | 0 <= k < |s'.disk| && !Excused(s', k) ensures ViewAt(s', k) == Flat(s')[k] {
      assert ViewAt(s, k) == Flat(s)[k];
    }
  }

  lemma ViewEndLock(s: State, i: nat, j: nat)
    requires Structure(s) && ViewOk(s) && LegalOk(s) && LostOk(s)
    requires i < |s.th| && s.th[i].pc == EndLock(j) && j < |s.d.slots|
    requires Static(StepEndLock(s, i, j))
    ensures var s' := StepEndLock(s, i, j); ViewOk(s') && LegalOk(s') && LostOk(s')
  {
    assert ThreadOk(s, i, s.th[i]) && SlotOk(s, j);
    var s' := StepEndLock(s, i, j);
    forall k | 0 <= k < |s'.disk| && !Excused(s', k) ensures ViewAt(s', k) == Flat(s')[k] {
      assert ViewAt(s, k) == Flat(s)[k];
    }
  }

  lemma ViewLook(s: State, i: nat, b: nat)
    requires Structure(s) && ViewOk(s) && LegalOk(s) && LostOk(s)
    requires i < |s.th| && s.th[i].pc == Look(b) && b < |s.bios| && s.d.slots != []
    requires Static(StepLook(s, i, b))
    ensures var s' := StepLook(s, i, b); ViewOk(s') && LegalOk(s') && LostOk(s')
  {
    var j := SlotOf(|s.d.slots|, BlockOf(s.d.wide, s.bios[b]));
    assert SlotOk(s, j);
    var s', found := StepLook(s, i, b), FoundOf(s.d, s.bios[b]);
    LookShape(s.d, b, s.bios[b], j);
    LookHolds(s, i, b, j);
    if found.Drop? {
      forall k | 0 <= k < |s'.disk| && !Excused(s', k) ensures ViewAt(s', k) == Flat(s')[k] {
        assert ViewAt(s, k) == Flat(s)[k];
      }
    } else {
      ViewKept(s, s');
    }
  }

  lemma LookHolds(s: State, i: nat, b: nat, j: nat)
    requires Structure(s)
    requires i < |s.th| && s.th[i].pc == Look(b) && b < |s.bios| && s.d.slots != []
    requires j == SlotOf(|s.d.slots|, BlockOf(s.d.wide, s.bios[b]))
    ensures var s', found := StepLook(s, i, b), FoundOf(s.d, s.bios[b]);
            && (found.Drop? ==> !Holds(s', j) && s.d.slots[j].block == BlockOf(s.d.wide, s.bios[b]))
            && (!found.Drop? ==> Holds(s', j) == Holds(s, j))
            && (Holds(s, j) && !found.Drop? ==>
                  s'.d.slots[j].block == s.d.slots[j].block && s'.d.slots[j].data == s.d.slots[j].data)
  {
    assert SlotOk(s, j);
  }

  lemma ViewAccept(s: State, bio: Bio)
    requires Static(s) && Conserved(s) && ViewOk(s) && LegalOk(s) && LostOk(s) && CanAccept(s, bio)
    requires Static(Next(s, Accept(bio)))
    ensures var s' := Next(s, Accept(bio)); ViewOk(s') && LegalOk(s') && LostOk(s')
  {
    EndedBound(s);
    ReplayMoreBios(s.d.wide, s.aux.init, s.bios, bio, s.done);
    var s' := Next(s, Accept(bio));
    forall k | 0 <= k < |s'.disk| && !Excused(s', k) ensures ViewAt(s', k) == Flat(s')[k] {
      assert ViewAt(s, k) == Flat(s)[k];
    }
  }
}
