/**
 The structural invariant of the Dory machine: where each thread can be, what it owns, and
 what kinds of bios each list holds. Ownership is exclusive: a slot that is COPYING or WRITING
 belongs to exactly one thread, and a slot that is EMPTY or DIRTY to none.
 */
module DoryStructure {
  import opened DoryDisk
  import opened DorySections
  import opened DoryMachine

  predicate AllIn(bios: seq<Bio>, ids: seq<nat>)
  {
    forall p :: 0 <= p < |ids| ==> ids[p] < |bios|
  }

  predicate AllPlain(bios: seq<Bio>, ids: seq<nat>)
  {
    forall p :: 0 <= p < |ids| ==> ids[p] < |bios| && !IsFlush(bios[ids[p]])
  }

  predicate AllFlush(bios: seq<Bio>, ids: seq<nat>)
  {
    forall p :: 0 <= p < |ids| ==> ids[p] < |bios| && IsFlush(bios[ids[p]])
  }

  predicate Static(s: State)
  {
    && |s.aux.notes| == |s.d.slots|
    && Sized(s.d.wide, s.disk) && Sized(s.d.wide, s.aux.init) && |s.aux.init| == |s.disk|
    && (forall b :: 0 <= b < |s.bios| ==> Fits(s.d.wide, |s.disk|, s.bios[b]))
  }

  predicate Owned(slot: Slot) { slot.state.COPYING? || slot.state.WRITING? }

  predicate SlotOk(s: State, j: nat)
    requires j < |s.d.slots| == |s.aux.notes|
  {
    var slot := s.d.slots[j];
    && |slot.data| == BlockSize(s.d.wide)
    && (!slot.state.EMPTY? ==> slot.block < |s.disk| && SlotOf(|s.d.slots|, slot.block) == j)
    && (slot.waiters != [] ==> Owned(slot))
    && AllPlain(s.bios, slot.waiters)
    && (s.aux.notes[j].filling ==> slot.state.COPYING?)
  }

  /** The slot a thread has to itself, -1 for none. */
  function Owns(pc: Pc): int
  {
    match pc
    case Copy(_, j) => j
    case Copied(j) => j
    case SubmitWalk(j) => j
    case SubmitOnce(j) => j
    case Writing(j) => j
    case EndLock(j) => j
    case _ => -1
  }

  predicate OwnerOk(s: State, j: nat)
    requires j < |s.d.slots| == |s.aux.notes|
  {
    Owned(s.d.slots[j]) ==>
      s.aux.notes[j].owner < |s.th| && Owns(s.th[s.aux.notes[j].owner].pc) == j
  }

  predicate AfterOk(bios: seq<Bio>, k: After)
  {
    match k
    case Result(out) => |out| <= 1 && AllIn(bios, out)
    case Release(rel) => AllPlain(bios, rel)
  }

  /** A thread that is not inside a doryMap call or a work item: it holds no lists. */
  predicate Bare(pc: Pc)
  {
    match pc
    case Dec(k) => k.Release?
    case Ticket(k) => k.Release?
    case Hand(k, _, _) => k.Release?
    case Then(k) => k.Release?
    case _ => pc.Take? || pc.Storage? || pc.Writing? || pc.EndLock? || pc.Done?
  }

  predicate HasSlot(s: State, i: nat, j: nat, state: BlockState)
  {
    && j < |s.d.slots| == |s.aux.notes|
    && s.d.slots[j].state == state && s.aux.notes[j].owner == i
  }

  predicate PcOk(s: State, i: nat, t: Thread)
    requires |s.aux.notes| == |s.d.slots|
  {
    match t.pc
    case Start(b) => b < |s.bios| && (t.own || !IsFlush(s.bios[b]))
    case Enter(b) => b < |s.bios| && s.d.slots != [] && (t.own || !IsFlush(s.bios[b]))
    case Look(b) => b < |s.bios| && s.d.slots != [] && !IsFlush(s.bios[b])
    case Copy(b, j) =>
      && b < |s.bios| && HasSlot(s, i, j, COPYING)
      && s.d.slots[j].block == BlockOf(s.d.wide, s.bios[b])
      && (s.bios[b].op.Read? || s.bios[b].op.Write?)
      && (s.aux.notes[j].filling ==> s.bios[b].op.Write? && Full(s.d.wide, s.bios[b]))
    case Copied(j) => HasSlot(s, i, j, COPYING) && !s.aux.notes[j].filling
    case Walk(j) => j <= |s.d.slots|
    case SubmitWalk(j) => HasSlot(s, i, j, WRITING)
    case SubmitOnce(j) => HasSlot(s, i, j, WRITING)
    case Writing(j) => HasSlot(s, i, j, WRITING)
    case EndLock(j) =>
      && HasSlot(s, i, j, WRITING)
      && (s.d.slots[j].block in s.aux.lost ||
          (s.d.slots[j].block < |s.disk| && s.disk[s.d.slots[j].block] == s.d.slots[j].data))
    case Storage(b) => b < |s.bios|
    case Dec(k) => AfterOk(s.bios, k)
    case Ticket(k) => AfterOk(s.bios, k)
    case Hand(k, ready, flushes) => AfterOk(s.bios, k) && AllPlain(s.bios, ready) && AllFlush(s.bios, flushes)
    case Then(k) => AfterOk(s.bios, k)
    case Flushes(left) => AllFlush(s.bios, left) && t.keep == [] && !t.own
    case _ => true
  }

  predicate ThreadOk(s: State, i: nat, t: Thread)
    requires |s.aux.notes| == |s.d.slots|
  {
    && PcOk(s, i, t)
    && AllPlain(s.bios, t.ready)
    && AllIn(s.bios, t.keep) && |t.keep| <= 1
    && (t.own ==> t.keep == [])
    && (t.pc.Pop? ==> !t.own)
    && (Bare(t.pc) ==> t.ready == [] && t.keep == [] && !t.own)
  }

  predicate ListsOk(s: State)
  {
    && AllPlain(s.bios, s.d.waiting) && AllPlain(s.bios, s.d.workBios)
    && AllFlush(s.bios, s.d.flushBios) && AllFlush(s.bios, s.d.workFlush)
  }

  predicate Structure(s: State)
  {
    && Static(s)
    && ListsOk(s)
    && (forall j :: 0 <= j < |s.d.slots| ==> SlotOk(s, j))
    && (forall j :: 0 <= j < |s.d.slots| ==> OwnerOk(s, j))
    && (forall i :: 0 <= i < |s.th| ==> ThreadOk(s, i, s.th[i]))
  }

  // ---- What a step of thread i leaves alone ----

  /** s' differs from s, as far as other threads can see, at most in slot j (-1 for none), and
      that slot was free or belonged to thread i. */
  predicate Local(s: State, s': State, i: nat, j: int)
    requires |s.aux.notes| == |s.d.slots|
  {
    && |s'.aux.notes| == |s'.d.slots| == |s.d.slots|
    && s'.d.wide == s.d.wide && |s'.disk| == |s.disk| && s'.aux.init == s.aux.init
    && s'.bios == s.bios
    && s.aux.lost <= s'.aux.lost
    && (forall m :: 0 <= m < |s.d.slots| && m != j ==>
          && s'.d.slots[m] == s.d.slots[m] && s'.aux.notes[m] == s.aux.notes[m]
          && (s.d.slots[m].state.WRITING? && s.d.slots[m].block < |s.disk| ==>
                s'.disk[s.d.slots[m].block] == s.disk[s.d.slots[m].block]))
    && (0 <= j < |s.d.slots| && Owned(s.d.slots[j]) ==> s.aux.notes[j].owner == i)
  }

  lemma OtherThread(s: State, s': State, i: nat, j: int, k: nat)
    requires Structure(s) && Local(s, s', i, j)
    requires k < |s.th| && k != i
    ensures ThreadOk(s', k, s.th[k])
  {
    assert ThreadOk(s, k, s.th[k]);
    var m := Owns(s.th[k].pc);
    if m >= 0 {
      assert m < |s.d.slots|;
      assert SlotOk(s, m);
    }
  }

  /** To keep the structure, a step only has to answer for its own thread, the thread it forks,
      the lists of the device and the slot it touches. */
  lemma Rebuild(s: State, s': State, i: nat, t: Thread, fork: seq<Thread>, j: int)
    requires Structure(s) && Local(s, s', i, j)
    requires i < |s.th| && |fork| <= 1 && s'.th == Moved(s.th, i, t, fork)
    requires Sized(s'.d.wide, s'.disk)
    requires ThreadOk(s', i, t)
    requires fork != [] ==> ThreadOk(s', |s.th|, fork[0])
    requires ListsOk(s')
    requires 0 <= j < |s.d.slots| ==> SlotOk(s', j) && OwnerOk(s', j)
    requires Owns(s.th[i].pc) < 0 || Owns(s.th[i].pc) == j
    ensures Structure(s')
  {
    forall k | 0 <= k < |s'.th| ensures ThreadOk(s', k, s'.th[k]) {
      if k < |s.th| && k != i {
        OtherThread(s, s', i, j, k);
      }
    }
    forall m | 0 <= m < |s'.d.slots| ensures SlotOk(s', m) && OwnerOk(s', m) {
      assert SlotOk(s, m) && OwnerOk(s, m);
    }
  }
}
