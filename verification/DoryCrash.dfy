/**
 What a stop cannot cost: a slot was filled by an acknowledged full-block write, and a write that
 the storage itself completed (every FUA write is one) stays on the storage until another
 acknowledged write overwrites it.
 */
module DoryCrash {
  import opened DoryDisk
  import opened DorySections
  import opened DoryMachine
  import opened DoryStructure
  import opened DoryStructureSteps
  import opened DoryAccounts
  import opened DoryCache
  import opened DoryView

  /** The p-th ending is a write to this block that the storage itself completed. */
  predicate DirectAt(s: State, p: nat, block: nat)
    requires p < |s.done|
  {
    s.done[p].direct && Changes(s.bios, s.done[p]) && BlockOf(s.d.wide, s.bios[s.done[p].id]) == block
  }

  predicate FilledAt(s: State, p: nat, block: nat)
  {
    && p < |s.done| && Changes(s.bios, s.done[p])
    && Full(s.d.wide, s.bios[s.done[p].id]) && BlockOf(s.d.wide, s.bios[s.done[p].id]) == block
  }

  /** A slot was filled by an acknowledged full-block write, and the storage has completed no
      write to its block since. */
  predicate SinceOk(s: State)
    requires |s.aux.notes| == |s.d.slots|
  {
    forall j :: 0 <= j < |s.d.slots| && Holds(s, j) ==>
      && FilledAt(s, s.aux.notes[j].since, s.d.slots[j].block)
      && forall p :: s.aux.notes[j].since <= p < |s.done| ==> !DirectAt(s, p, s.d.slots[j].block)
  }

  predicate Overwritten(s: State, p: nat)
    requires p < |s.done| && s.done[p].id < |s.bios|
  {
    exists q :: p < q < |s.done| && Changes(s.bios, s.done[q]) &&
                Overlap(s.d.wide, s.bios[s.done[q].id], s.bios[s.done[p].id])
  }

  predicate DurableOk(s: State)
  {
    forall p :: 0 <= p < |s.done| && s.done[p].direct && Changes(s.bios, s.done[p]) && !Overwritten(s, p) ==>
      Get(s.d.wide, s.disk, s.bios[s.done[p].id]) == s.bios[s.done[p].id].data
  }

  /** The cache itself only serves reads and ordinary writes. */
  predicate ViaCacheOk(s: State)
  {
    forall p :: 0 <= p < |s.done| && s.done[p].served && !s.done[p].direct ==>
      s.done[p].id < |s.bios| && (s.bios[s.done[p].id].op.Read? || s.bios[s.done[p].id].op.Write?)
  }

  predicate CrashOk(s: State)
    requires |s.aux.notes| == |s.d.slots|
  {
    SinceOk(s) && DurableOk(s) && ViaCacheOk(s)
  }

  // ---- Endings that are not direct writes ----

  predicate DoneGrows(s: State, s': State)
  {
    s'.done == s.done ||
    (|s'.done| == |s.done| + 1 && s'.done[..|s.done|] == s.done && !(s'.done[|s.done|].direct && Changes(s'.bios, s'.done[|s.done|])))
  }

  lemma DurableKept(s: State, s': State)
    requires DurableOk(s) && s'.d.wide == s.d.wide && s'.bios == s.bios && s'.disk == s.disk && DoneGrows(s, s')
    ensures DurableOk(s')
  {
    forall p | 0 <= p < |s'.done| && s'.done[p].direct && Changes(s'.bios, s'.done[p]) && !Overwritten(s', p)
      ensures Get(s'.d.wide, s'.disk, s'.bios[s'.done[p].id]) == s'.bios[s'.done[p].id].data
    {
      assert p < |s.done| && s'.done[p] == s.done[p];
      assert !Overwritten(s, p);
    }
  }

  /** Slot j holds what it held, as filled by the same ending. */
  lemma SinceKept(s: State, s': State, j: nat)
    requires |s'.aux.notes| == |s'.d.slots| == |s.d.slots| == |s.aux.notes| && j < |s.d.slots|
    requires SinceOk(s) && s'.d.wide == s.d.wide && s'.bios == s.bios
    requires Holds(s, j) && s'.d.slots[j].block == s.d.slots[j].block && s'.aux.notes[j].since == s.aux.notes[j].since
    requires s'.done == s.done || (|s'.done| == |s.done| + 1 && s'.done[..|s.done|] == s.done)
    requires |s.done| < |s'.done| ==> !DirectAt(s', |s.done|, s.d.slots[j].block)
    ensures FilledAt(s', s'.aux.notes[j].since, s'.d.slots[j].block)
    ensures forall p :: s'.aux.notes[j].since <= p < |s'.done| ==> !DirectAt(s', p, s'.d.slots[j].block)
  {
    var w, block := s.aux.notes[j].since, s.d.slots[j].block;
    assert FilledAt(s, w, block) && s'.done[w] == s.done[w];
    forall p | w <= p < |s'.done| ensures !DirectAt(s', p, block) {
      if p < |s.done| {
        assert s'.done[p] == s.done[p] && !DirectAt(s, p, block);
      }
    }
  }

  /** Steps that fill no slot and write nothing to the storage. */
  lemma CrashKept(s: State, s': State)
    requires |s.aux.notes| == |s.d.slots| && CrashOk(s)
    requires |s'.aux.notes| == |s'.d.slots| && NoNewBlock(s, s')
    requires s'.d.wide == s.d.wide && s'.bios == s.bios && s'.disk == s.disk && DoneGrows(s, s')
    requires |s.done| < |s'.done| ==> !s'.done[|s.done|].served
    requires forall j :: 0 <= j < |s.d.slots| ==>
               (Holds(s', j) ==> Holds(s, j)) && s'.aux.notes[j].since == s.aux.notes[j].since
    ensures CrashOk(s')
  {
    DurableKept(s, s');
    forall j | 0 <= j < |s'.d.slots| && Holds(s', j)
      ensures FilledAt(s', s'.aux.notes[j].since, s'.d.slots[j].block)
      ensures forall p :: s'.aux.notes[j].since <= p < |s'.done| ==> !DirectAt(s', p, s'.d.slots[j].block)
    {
      SinceKept(s, s', j);
    }
  }

  // ---- The others ----

  lemma CrashLook(s: State, i: nat, b: nat)
    requires Structure(s) && CrashOk(s)
    requires i < |s.th| && s.th[i].pc == Look(b) && b < |s.bios| && s.d.slots != []
    ensures CrashOk(StepLook(s, i, b))
  {
    var j := SlotOf(|s.d.slots|, BlockOf(s.d.wide, s.bios[b]));
    var s', found := StepLook(s, i, b), FoundOf(s.d, s.bios[b]);
    LookShape(s.d, b, s.bios[b], j);
    LookHolds(s, i, b, j);
    assert SlotOk(s, j);
    if found.Fill? {
      DurableKept(s, s');
      forall m | 0 <= m < |s'.d.slots| && Holds(s', m)
        ensures FilledAt(s', s'.aux.notes[m].since, s'.d.slots[m].block)
        ensures forall p :: s'.aux.notes[m].since <= p < |s'.done| ==> !DirectAt(s', p, s'.d.slots[m].block)
      {
        SinceKept(s, s', m);
      }
    } else {
      LookNoNew(s, i, b, j);
      CrashKept(s, s');
    }
  }

  lemma LookNoNew(s: State, i: nat, b: nat, j: nat)
    requires Structure(s)
    requires i < |s.th| && s.th[i].pc == Look(b) && b < |s.bios| && s.d.slots != []
    requires j == SlotOf(|s.d.slots|, BlockOf(s.d.wide, s.bios[b])) && !FoundOf(s.d, s.bios[b]).Fill?
    ensures NoNewBlock(s, StepLook(s, i, b))
    ensures StepLook(s, i, b).aux.notes[j] == s.aux.notes[j].(owner := StepLook(s, i, b).aux.notes[j].owner)
  {
    LookShape(s.d, b, s.bios[b], j);
  }

  lemma CrashCopy(s: State, i: nat, b: nat, j: nat)
    requires Structure(s) && CrashOk(s) && CanRun(s, i) && s.th[i].pc == Copy(b, j)
    ensures CrashOk(StepCopy(s, i, b, j))
  {
    assert ThreadOk(s, i, s.th[i]);
    var s' := StepCopy(s, i, b, j);
    DurableKept(s, s');
    forall m | 0 <= m < |s'.d.slots| && Holds(s', m)
      ensures FilledAt(s', s'.aux.notes[m].since, s'.d.slots[m].block)
      ensures forall p :: s'.aux.notes[m].since <= p < |s'.done| ==> !DirectAt(s', p, s'.d.slots[m].block)
    {
      if m != j || !s.aux.notes[j].filling {
        SinceKept(s, s', m);
      }
    }
  }

  lemma CrashStorage(s: State, i: nat, b: nat)
    requires Structure(s) && CrashOk(s) && Conserved(s)
    requires i < |s.th| && s.th[i].pc == Storage(b) && b < |s.bios| && Clear(s, s.bios[b])
    ensures CrashOk(StepStorage(s, i, b))
  {
    var s' := StepStorage(s, i, b);
    assert s'.done[..|s.done|] == s.done;
    forall m | 0 <= m < |s'.d.slots| && Holds(s', m)
      ensures FilledAt(s', s'.aux.notes[m].since, s'.d.slots[m].block)
      ensures forall p :: s'.aux.notes[m].since <= p < |s'.done| ==> !DirectAt(s', p, s'.d.slots[m].block)
    {
      assert SlotOk(s, m);
      SinceKept(s, s', m);
    }
    EndedBound(s);
    forall p | 0 <= p < |s'.done| && s'.done[p].direct && Changes(s'.bios, s'.done[p]) && !Overwritten(s', p)
      ensures Get(s'.d.wide, s'.disk, s'.bios[s'.done[p].id]) == s'.bios[s'.done[p].id].data
    {
      DurableStored(s, s', i, b, p);
    }
  }

  /** The storage applies a write: it is there now, and so is what it does not overlap. */
  lemma DurableStored(s: State, s': State, i: nat, b: nat, p: nat)
    requires Structure(s) && DurableOk(s) && i < |s.th| && b < |s.bios| && s' == StepStorage(s, i, b)
    requires p < |s'.done| && s'.done[p].direct && Changes(s'.bios, s'.done[p]) && !Overwritten(s', p)
    ensures Get(s'.d.wide, s'.disk, s'.bios[s'.done[p].id]) == s'.bios[s'.done[p].id].data
  {
    var bio := s.bios[b];
    assert Fits(s.d.wide, |s.disk|, bio);
    if p == |s.done| {
      assert Get(s.d.wide, s'.disk, bio) == bio.data;
    } else {
      assert s'.done[p] == s.done[p];
      var prior := s.bios[s.done[p].id];
      assert Fits(s.d.wide, |s.disk|, prior);
      assert forall q :: 0 <= q < |s.done| ==> s'.done[q] == s.done[q];
      assert !Overwritten(s, p);
      assert Get(s.d.wide, s.disk, prior) == prior.data;
      if Mutates(bio) {
        assert Changes(s'.bios, s'.done[|s.done|]) && s'.done[|s.done|].id == b;
        assert !Overlap(s.d.wide, bio, prior);
        GetApart(s.d.wide, s.disk, bio, prior);
      }
    }
  }

  lemma GetApart(wide: bool, disk: seq<Block>, bio: Bio, prior: Bio)
    requires Sized(wide, disk) && Fits(wide, |disk|, bio) && Fits(wide, |disk|, prior) && Mutates(bio) && Mutates(prior)
    requires !Overlap(wide, bio, prior)
    ensures Get(wide, Put(wide, disk, bio), prior) == Get(wide, disk, prior)
  {
    var k := BlockOf(wide, prior);
    if BlockOf(wide, bio) == k {
      SpliceApart(disk[k], OffsetOf(wide, bio), bio.data, OffsetOf(wide, prior), prior.size);
    }
  }

  lemma CrashWriting(s: State, i: nat, j: nat)
    requires Structure(s) && CrashOk(s) && CanRun(s, i) && s.th[i].pc == Writing(j)
    ensures CrashOk(StepWriting(s, i, j))
  {
    assert ThreadOk(s, i, s.th[i]) && SlotOk(s, j);
    var s' := StepWriting(s, i, j);
    forall m | 0 <= m < |s'.d.slots| && Holds(s', m)
      ensures FilledAt(s', s'.aux.notes[m].since, s'.d.slots[m].block)
      ensures forall p :: s'.aux.notes[m].since <= p < |s'.done| ==> !DirectAt(s', p, s'.d.slots[m].block)
    {
      SinceKept(s, s', m);
    }
    forall p | 0 <= p < |s'.done| && s'.done[p].direct && Changes(s'.bios, s'.done[p]) && !Overwritten(s', p)
      ensures Get(s'.d.wide, s'.disk, s'.bios[s'.done[p].id]) == s'.bios[s'.done[p].id].data
    {
      WritingApart(s, j, p);
      assert !Overwritten(s, p);
    }
  }

  /** A slot being written holds no block with a direct write that nothing has overwritten. */
  lemma WritingApart(s: State, j: nat, p: nat)
    requires Structure(s) && SinceOk(s) && j < |s.d.slots| && Holds(s, j)
    requires p < |s.done| && s.done[p].direct && Changes(s.bios, s.done[p])
    ensures BlockOf(s.d.wide, s.bios[s.done[p].id]) == s.d.slots[j].block ==> Overwritten(s, p)
  {
    var prior, w := s.bios[s.done[p].id], s.aux.notes[j].since;
    if BlockOf(s.d.wide, prior) == s.d.slots[j].block {
      assert DirectAt(s, p, s.d.slots[j].block);
      assert FilledAt(s, w, s.d.slots[j].block) && p < w;
      assert Fits(s.d.wide, |s.disk|, prior) && Fits(s.d.wide, |s.disk|, s.bios[s.done[w].id]);
      assert Overlap(s.d.wide, s.bios[s.done[w].id], prior);
    }
  }

  lemma CrashAccept(s: State, bio: Bio)
    requires |s.aux.notes| == |s.d.slots| && CrashOk(s) && Conserved(s) && CanAccept(s, bio)
    ensures CrashOk(Next(s, Accept(bio)))
  {
    EndedBound(s);
    var s' := Next(s, Accept(bio));
    assert forall p :: 0 <= p < |s.done| ==> s'.bios[s.done[p].id] == s.bios[s.done[p].id];
    forall m | 0 <= m < |s'.d.slots| && Holds(s', m)
      ensures FilledAt(s', s'.aux.notes[m].since, s'.d.slots[m].block)
      ensures forall p :: s'.aux.notes[m].since <= p < |s'.done| ==> !DirectAt(s', p, s'.d.slots[m].block)
    {
      assert Holds(s, m);
      forall p | s'.aux.notes[m].since <= p < |s'.done| ensures !DirectAt(s', p, s'.d.slots[m].block) {
        assert !DirectAt(s, p, s.d.slots[m].block);
      }
    }
    forall p | 0 <= p < |s'.done| && s'.done[p].direct && Changes(s'.bios, s'.done[p]) && !Overwritten(s', p)
      ensures Get(s'.d.wide, s'.disk, s'.bios[s'.done[p].id]) == s'.bios[s'.done[p].id].data
    {
      assert !Overwritten(s, p);
    }
  }
}
