/** Every section keeps the structural invariant, and none runs outside its bounds. */
module DoryStructureSteps {
  import opened DoryDisk
  import opened DorySections
  import opened DoryMachine
  import opened DoryStructure

  /** No slot holds the block of this bio, so neither the cache nor a write-back can get in the
      way of the storage serving it. */
  predicate Clear(s: State, b: Bio)
  {
    IsFlush(b) || s.d.slots == [] ||
    var slot := s.d.slots[SlotOf(|s.d.slots|, BlockOf(s.d.wide, b))];
    slot.state.EMPTY? || slot.block != BlockOf(s.d.wide, b)
  }

  lemma StructureBounds(s: State, i: nat)
    requires Structure(s) && i < |s.th|
    ensures InBounds(s, s.th[i].pc)
  {
    assert ThreadOk(s, i, s.th[i]);
    var m := Owns(s.th[i].pc);
    if m >= 0 {
      assert SlotOk(s, m);
    }
  }

  lemma StructureStart(s: State, i: nat, b: nat)
    requires Structure(s) && CanRun(s, i) && s.th[i].pc == Start(b)
    ensures Structure(StepStart(s, i, b))
  {
    assert ThreadOk(s, i, s.th[i]);
    var s' := StepStart(s, i, b);
    Rebuild(s, s', i, s'.th[i], [], -1);
  }

  lemma StructureEnter(s: State, i: nat, b: nat)
    requires Structure(s) && CanRun(s, i) && s.th[i].pc == Enter(b)
    ensures Structure(StepEnter(s, i, b))
  {
    assert ThreadOk(s, i, s.th[i]);
    var s' := StepEnter(s, i, b);
    Rebuild(s, s', i, s'.th[i], [], -1);
  }

  lemma StructureLook(s: State, i: nat, b: nat)
    requires Structure(s) && CanRun(s, i) && s.th[i].pc == Look(b)
    ensures Structure(StepLook(s, i, b))
  {
    var j := SlotOf(|s.d.slots|, BlockOf(s.d.wide, s.bios[b]));
    var found := FoundOf(s.d, s.bios[b]);
    if found.Park? {
      ParkedOk(s, StepLook(s, i, b), i, b, j);
    } else if found.Fill? || found.Hit? {
      LookCopies(s, i, b, j);
    } else {
      LookOther(s, i, b, j);
    }
  }

  lemma LookCopies(s: State, i: nat, b: nat, j: nat)
    requires Structure(s) && CanRun(s, i) && s.th[i].pc == Look(b)
    requires j == SlotOf(|s.d.slots|, BlockOf(s.d.wide, s.bios[b]))
    requires FoundOf(s.d, s.bios[b]).Fill? || FoundOf(s.d, s.bios[b]).Hit?
    ensures Structure(StepLook(s, i, b))
  {
    assert ThreadOk(s, i, s.th[i]) && SlotOk(s, j) && OwnerOk(s, j);
    var s' := StepLook(s, i, b);
    assert Local(s, s', i, j);
    assert SlotOk(s', j) && OwnerOk(s', j);
    Rebuild(s, s', i, s.th[i].(pc := Copy(b, j)), [], j);
  }

  lemma LookOther(s: State, i: nat, b: nat, j: nat)
    requires Structure(s) && CanRun(s, i) && s.th[i].pc == Look(b)
    requires j == SlotOf(|s.d.slots|, BlockOf(s.d.wide, s.bios[b]))
    requires var found := FoundOf(s.d, s.bios[b]); found.Remap? || found.Drop? || found.Evict?
    ensures Structure(StepLook(s, i, b))
  {
    assert ThreadOk(s, i, s.th[i]) && SlotOk(s, j) && OwnerOk(s, j);
    var s' := StepLook(s, i, b);
    var at := if FoundOf(s.d, s.bios[b]).Remap? then -1 else j;
    assert Local(s, s', i, at);
    assert at >= 0 ==> SlotOk(s', j) && OwnerOk(s', j);
    Rebuild(s, s', i, s'.th[i], [], at);
  }

  /** Joining a wait list changes a slot that another thread owns, but nothing its owner sees. */
  lemma ParkedOk(s: State, s': State, i: nat, b: nat, j: nat)
    requires Structure(s) && CanRun(s, i) && s.th[i].pc == Look(b) && b < |s.bios| && s.d.slots != []
    requires j == SlotOf(|s.d.slots|, BlockOf(s.d.wide, s.bios[b])) && FoundOf(s.d, s.bios[b]).Park?
    requires s' == StepLook(s, i, b)
    ensures Structure(s')
  {
    forall k | 0 <= k < |s'.th| ensures ThreadOk(s', k, s'.th[k]) {
      assert ThreadOk(s, k, s.th[k]);
    }
    forall m | 0 <= m < |s'.d.slots| ensures SlotOk(s', m) && OwnerOk(s', m) {
      assert SlotOk(s, m) && OwnerOk(s, m);
      assert ThreadOk(s, i, s.th[i]);
    }
  }

  lemma StructureCopy(s: State, i: nat, b: nat, j: nat)
    requires Structure(s) && CanRun(s, i) && s.th[i].pc == Copy(b, j)
    ensures Structure(StepCopy(s, i, b, j))
  {
    assert ThreadOk(s, i, s.th[i]);
    assert SlotOk(s, j) && OwnerOk(s, j);
    var s' := StepCopy(s, i, b, j);
    Rebuild(s, s', i, s'.th[i], [], j);
  }

  lemma StructureCopied(s: State, i: nat, j: nat)
    requires Structure(s) && CanRun(s, i) && s.th[i].pc == Copied(j)
    ensures Structure(StepCopied(s, i, j))
  {
    assert ThreadOk(s, i, s.th[i]);
    assert SlotOk(s, j) && OwnerOk(s, j);
    var s' := StepCopied(s, i, j);
    Rebuild(s, s', i, s'.th[i], [], j);
  }

  lemma StructureWalk(s: State, i: nat, j: nat)
    requires Structure(s) && CanRun(s, i) && s.th[i].pc == Walk(j)
    ensures Structure(StepWalk(s, i, j))
  {
    assert ThreadOk(s, i, s.th[i]);
    if j < |s.d.slots| {
      assert SlotOk(s, j) && OwnerOk(s, j);
    }
    var s' := StepWalk(s, i, j);
    Rebuild(s, s', i, s'.th[i], [], if j < |s.d.slots| && s.d.slots[j].state.DIRTY? then j else -1);
  }

  lemma StructureSubmit(s: State, i: nat, j: nat, next: Pc)
    requires Structure(s) && i < |s.th| && j < |s.d.slots|
    requires s.th[i].pc == SubmitWalk(j) || s.th[i].pc == SubmitOnce(j)
    requires next == Walk(j + 1) || next == Dec(Result([]))
    ensures Structure(StepSubmit(s, i, j, next))
  {
    assert ThreadOk(s, i, s.th[i]) && SlotOk(s, j) && OwnerOk(s, j);
    var s', t := StepSubmit(s, i, j, next), s.th[i].(pc := next);
    var fork := Forked(if s.d.stop then EndLock(j) else Writing(j));
    Submitted(s, s', i, j, t, fork);
    Rebuild(s, s', i, t, [fork], j);
  }

  lemma Submitted(s: State, s': State, i: nat, j: nat, t: Thread, fork: Thread)
    requires Structure(s) && i < |s.th| && j < |s.d.slots| && ThreadOk(s, i, s.th[i]) && SlotOk(s, j)
    requires s.th[i].pc == SubmitWalk(j) || s.th[i].pc == SubmitOnce(j)
    requires t.pc == Walk(j + 1) || t.pc == Dec(Result([]))
    requires t == s.th[i].(pc := t.pc)
    requires s' == StepSubmit(s, i, j, t.pc) && fork == Forked(if s.d.stop then EndLock(j) else Writing(j))
    ensures s'.th[|s.th|] == fork
    ensures Local(s, s', i, j) && ThreadOk(s', i, t) && ThreadOk(s', |s.th|, fork)
    ensures SlotOk(s', j) && OwnerOk(s', j)
  {
  }

  lemma StructureDec(s: State, i: nat, k: After)
    requires Structure(s) && CanRun(s, i) && s.th[i].pc == Dec(k)
    ensures Structure(StepDec(s, i, k))
  {
    assert ThreadOk(s, i, s.th[i]);
    var s' := StepDec(s, i, k);
    Rebuild(s, s', i, s'.th[i], [], -1);
  }

  lemma StructureTicket(s: State, i: nat, k: After)
    requires Structure(s) && CanRun(s, i) && s.th[i].pc == Ticket(k)
    ensures Structure(StepTicket(s, i, k))
  {
    assert ThreadOk(s, i, s.th[i]);
    var s' := StepTicket(s, i, k);
    assert Local(s, s', i, -1);
    var pc := if s.d.flushFlag then Hand(k, s.d.waiting, s.d.flushBios) else Hand(k, [], []);
    Rebuild(s, s', i, s.th[i].(pc := pc), [], -1);
  }

  lemma StructureQueued(s: State, i: nat, t: Thread, ready: seq<nat>, flushes: seq<nat>)
    requires Structure(s) && i < |s.th| && Owns(s.th[i].pc) < 0
    requires AllPlain(s.bios, ready) && AllFlush(s.bios, flushes)
    requires ThreadOk(s, i, t) && Owns(t.pc) < 0
    ensures Structure(Queued(s, i, t, ready, flushes))
  {
    var s' := Queued(s, i, t, ready, flushes);
    Rebuild(s, s', i, t, if NeedsWorker(s.d, ready, flushes) then [Forked(Take)] else [], -1);
  }

  lemma StructureHand(s: State, i: nat, k: After, ready: seq<nat>, flushes: seq<nat>)
    requires Structure(s) && CanRun(s, i) && s.th[i].pc == Hand(k, ready, flushes)
    ensures Structure(Queued(s, i, s.th[i].(pc := Then(k)), ready, flushes))
  {
    assert ThreadOk(s, i, s.th[i]);
    StructureQueued(s, i, s.th[i].(pc := Then(k)), ready, flushes);
  }

  lemma StructureThen(s: State, i: nat, k: After)
    requires Structure(s) && CanRun(s, i) && s.th[i].pc == Then(k)
    ensures Structure(StepThen(s, i, k))
  {
    assert ThreadOk(s, i, s.th[i]);
    if k.Release? {
      StructureQueued(s, i, s.th[i].(pc := Done), k.rel, []);
    } else {
      var s' := StepThen(s, i, k);
      Rebuild(s, s', i, s'.th[i], if s.th[i].own || k.out == [] then [] else [Forked(Storage(k.out[0]))], -1);
    }
  }

  lemma StructurePop(s: State, i: nat)
    requires Structure(s) && CanRun(s, i) && s.th[i].pc == Pop
    ensures Structure(StepPop(s, i))
  {
    assert ThreadOk(s, i, s.th[i]);
    var s' := StepPop(s, i);
    Rebuild(s, s', i, s'.th[i], [], -1);
  }

  lemma StructureTake(s: State, i: nat)
    requires Structure(s) && CanRun(s, i) && s.th[i].pc == Take
    ensures Structure(StepTake(s, i))
  {
    assert ThreadOk(s, i, s.th[i]);
    var s' := StepTake(s, i);
    Rebuild(s, s', i, s'.th[i], [], -1);
  }

  lemma StructureFlushes(s: State, i: nat, left: seq<nat>)
    requires Structure(s) && CanRun(s, i) && s.th[i].pc == Flushes(left)
    ensures Structure(StepFlushes(s, i, left))
  {
    assert ThreadOk(s, i, s.th[i]);
    var s' := StepFlushes(s, i, left);
    Rebuild(s, s', i, s'.th[i], if left == [] || FlushRefused(s.d) then [] else [Forked(Storage(left[0]))], -1);
  }

  lemma StructureStorage(s: State, i: nat, b: nat)
    requires Structure(s) && CanRun(s, i) && s.th[i].pc == Storage(b)
    requires Clear(s, s.bios[b])
    ensures Structure(StepStorage(s, i, b))
  {
    assert ThreadOk(s, i, s.th[i]);
    var s' := StepStorage(s, i, b);
    forall m | 0 <= m < |s.d.slots| && s.d.slots[m].state.WRITING? && s.d.slots[m].block < |s.disk|
      ensures s'.disk[s.d.slots[m].block] == s.disk[s.d.slots[m].block]
    {
      assert SlotOk(s, m);
    }
    Rebuild(s, s', i, s'.th[i], [], -1);
  }

  lemma StructureWriting(s: State, i: nat, j: nat)
    requires Structure(s) && CanRun(s, i) && s.th[i].pc == Writing(j)
    ensures Structure(StepWriting(s, i, j))
  {
    assert ThreadOk(s, i, s.th[i]);
    assert SlotOk(s, j) && OwnerOk(s, j);
    var s' := StepWriting(s, i, j);
    forall m | 0 <= m < |s.d.slots| && m != j && s.d.slots[m].state.WRITING? && s.d.slots[m].block < |s.disk|
      ensures s'.disk[s.d.slots[m].block] == s.disk[s.d.slots[m].block]
    {
      assert SlotOk(s, m);
    }
    Rebuild(s, s', i, s'.th[i], [], j);
  }

  lemma StructureEndLock(s: State, i: nat, j: nat)
    requires Structure(s) && CanRun(s, i) && s.th[i].pc == EndLock(j)
    ensures Structure(StepEndLock(s, i, j))
  {
    assert ThreadOk(s, i, s.th[i]);
    assert SlotOk(s, j) && OwnerOk(s, j);
    var s' := StepEndLock(s, i, j);
    Rebuild(s, s', i, s'.th[i], [], j);
  }

  lemma StructureAccept(s: State, bio: Bio)
    requires Structure(s) && CanAccept(s, bio)
    ensures Structure(Next(s, Accept(bio)))
  {
    var s' := Next(s, Accept(bio));
    forall k | 0 <= k < |s'.th| ensures ThreadOk(s', k, s'.th[k]) {
      if k < |s.th| {
        assert ThreadOk(s, k, s.th[k]);
      }
    }
    forall m | 0 <= m < |s'.d.slots| ensures SlotOk(s', m) && OwnerOk(s', m) {
      assert SlotOk(s, m) && OwnerOk(s, m);
    }
  }

  lemma StructureSet(s: State, s': State)
    requires Structure(s)
    requires s' == s.(d := s'.d)
    requires s'.d == s.d.(stop := s'.d.stop, tornMask := s'.d.tornMask, tornModulus := s'.d.tornModulus)
    ensures Structure(s')
  {
    forall k | 0 <= k < |s'.th| ensures ThreadOk(s', k, s'.th[k]) {
      assert ThreadOk(s, k, s.th[k]);
    }
    forall m | 0 <= m < |s'.d.slots| ensures SlotOk(s', m) && OwnerOk(s', m) {
      assert SlotOk(s, m) && OwnerOk(s, m);
    }
  }
}
