/**
 Two conservation laws of the Dory machine, kept by every section:
 the busy count is exactly the calls and callbacks still counted plus the slots in use, and
 every accepted bio is in exactly one place until it ends, exactly once.
 */
module DoryAccounts {
  import opened DoryDisk
  import opened DorySections
  import opened DoryMachine
  import opened DoryTally
  import opened Sums

  predicate BusyExact(s: State)
  {
    s.d.busy == Active(s.th) + Occupied(s.d.slots)
  }

  /** In how many places bio `id` is: held by threads (undecided, or on its way to the storage),
      waiting for a slot, on a list of the device, or ended. */
  function Places(s: State, id: nat): nat
  {
    Undecided(s.th, id) + Outgoing(s.th, id) + Waiting(s.d.slots, id)
    + Count(s.d.flushBios, id) + Count(s.d.waiting, id)
    + Count(s.d.workBios, id) + Count(s.d.workFlush, id)
    + Endings(s.done, id)
  }

  ghost predicate Conserved(s: State)
  {
    forall id: nat {:trigger Places(s, id)} :: Places(s, id) == if id < |s.bios| then 1 else 0
  }

  // ---- A step changes one thread, perhaps forks one, and perhaps changes one slot ----

  predicate OneSlot(s: State, s': State, j: int)
  {
    if 0 <= j < |s.d.slots| then |s'.d.slots| == |s.d.slots| && s'.d.slots == s.d.slots[j := s'.d.slots[j]]
    else s'.d.slots == s.d.slots
  }

  function FullAt(slots: seq<Slot>, j: int): nat { if 0 <= j < |slots| then Full1(0, slots[j]) else 0 }

  function WaitersAt(slots: seq<Slot>, j: int, id: nat): nat
  {
    if 0 <= j < |slots| then Count(slots[j].waiters, id) else 0
  }

  function ForkBusy(fork: seq<Thread>): nat { if fork == [] then 0 else Busy1(0, fork[0]) }

  function Held(id: nat, t: Thread): nat { In1(id, t) + Out1(id, t) }

  function ForkHeld(id: nat, fork: seq<Thread>): nat { if fork == [] then 0 else Held(id, fork[0]) }

  function Listed(d: Device, id: nat): nat
  {
    Count(d.flushBios, id) + Count(d.waiting, id) + Count(d.workBios, id) + Count(d.workFlush, id)
  }

  lemma BusyKept(s: State, s': State, i: nat, t: Thread, fork: seq<Thread>, j: int)
    requires BusyExact(s)
    requires i < |s.th| && |fork| <= 1 && s'.th == Moved(s.th, i, t, fork) && OneSlot(s, s', j)
    requires s'.d.busy + Busy1(0, s.th[i]) + FullAt(s.d.slots, j) ==
             s.d.busy + Busy1(0, t) + ForkBusy(fork) + FullAt(s'.d.slots, j)
    ensures BusyExact(s')
  {
    ActiveMoved(s.th, i, t, fork);
    if 0 <= j < |s.d.slots| {
      OccupiedAt(s.d.slots, j, s'.d.slots[j]);
    }
  }

  lemma PlacesKept(s: State, s': State, i: nat, t: Thread, fork: seq<Thread>, j: int, id: nat)
    requires i < |s.th| && |fork| <= 1 && s'.th == Moved(s.th, i, t, fork) && OneSlot(s, s', j)
    requires Held(id, t) + ForkHeld(id, fork) + WaitersAt(s'.d.slots, j, id) + Listed(s'.d, id) + Endings(s'.done, id) ==
             Held(id, s.th[i]) + WaitersAt(s.d.slots, j, id) + Listed(s.d, id) + Endings(s.done, id)
    ensures Places(s', id) == Places(s, id)
  {
    HeldMoved(s.th, i, t, fork, id);
    if 0 <= j < |s.d.slots| {
      WaitersMoved(s.d.slots, j, s'.d.slots[j], id);
    }
  }

  // ---- Sections ----

  lemma BusyStart(s: State, i: nat, b: nat)
    requires i < |s.th| && s.th[i].pc == Start(b) && b < |s.bios| && BusyExact(s)
    ensures BusyExact(StepStart(s, i, b))
  {
    BusyKept(s, StepStart(s, i, b), i, s.th[i].(pc := AfterStart(s.d, s.bios[b], b)), [], -1);
  }

  lemma PlacesStart(s: State, i: nat, b: nat, id: nat)
    requires i < |s.th| && s.th[i].pc == Start(b) && b < |s.bios|
    ensures Places(StepStart(s, i, b), id) == Places(s, id)
  {
    var s', t := StepStart(s, i, b), s.th[i].(pc := AfterStart(s.d, s.bios[b], b));
    CountOne(b, id);
    if GateOf(s.d, s.bios[b]).Refuse? {
      EndingsAppend(s.done, Ending(b, false, false, []), id);
    } else {
      assert s'.done == s.done;
    }
    PlacesKept(s, s', i, t, [], -1, id);
  }

  lemma AccountStart(s: State, i: nat, b: nat, id: nat)
    requires i < |s.th| && s.th[i].pc == Start(b) && b < |s.bios| && BusyExact(s)
    ensures var s' := StepStart(s, i, b); BusyExact(s') && Places(s', id) == Places(s, id)
  {
    BusyStart(s, i, b);
    PlacesStart(s, i, b, id);
  }

  lemma AccountEnter(s: State, i: nat, b: nat, id: nat)
    requires i < |s.th| && s.th[i].pc == Enter(b) && b < |s.bios| && BusyExact(s)
    ensures var s' := StepEnter(s, i, b); BusyExact(s') && Places(s', id) == Places(s, id)
  {
    var s', t := StepEnter(s, i, b), s.th[i].(pc := AfterEnter(s.d, s.bios[b], b));
    BusyKept(s, s', i, t, [], -1);
    CountCat(s.d.flushBios, [b], id);
    CountCat(s.d.waiting, [b], id);
    CountOne(b, id);
    PlacesKept(s, s', i, t, [], -1, id);
  }

  lemma BusyLook(s: State, i: nat, b: nat)
    requires i < |s.th| && s.th[i].pc == Look(b) && b < |s.bios| && s.d.slots != [] && |s.aux.notes| == |s.d.slots|
    requires BusyExact(s)
    ensures BusyExact(StepLook(s, i, b))
  {
    var j := SlotOf(|s.d.slots|, BlockOf(s.d.wide, s.bios[b]));
    var s', t := StepLook(s, i, b), s.th[i].(pc := AfterLook(FoundOf(s.d, s.bios[b]), b, j));
    BusyKept(s, s', i, t, [], j);
  }

  /** A look-up only changes the slot of the block, and joins at most its wait list. */
  lemma LookShape(d: Device, b: nat, bio: Bio, j: nat)
    requires d.slots != [] && j == SlotOf(|d.slots|, BlockOf(d.wide, bio))
    ensures var d', found := LookSection(d, b, bio), FoundOf(d, bio);
            && d' == d.(slots := d'.slots, busy := d'.busy)
            && d'.slots == d.slots[j := d'.slots[j]]
            && d'.slots[j].waiters == d.slots[j].waiters + if found.Park? || found.Evict? then [b] else []
  {
    assert d.slots[j].waiters + [] == d.slots[j].waiters;
  }

  lemma PlacesLook(s: State, i: nat, b: nat, id: nat)
    requires i < |s.th| && s.th[i].pc == Look(b) && b < |s.bios| && s.d.slots != [] && |s.aux.notes| == |s.d.slots|
    ensures Places(StepLook(s, i, b), id) == Places(s, id)
  {
    var j := SlotOf(|s.d.slots|, BlockOf(s.d.wide, s.bios[b]));
    LookShape(s.d, b, s.bios[b], j);
    PlacesLooked(s, StepLook(s, i, b), i, b, j, FoundOf(s.d, s.bios[b]), id);
  }

  lemma PlacesLooked(s: State, s': State, i: nat, b: nat, j: nat, found: Found, id: nat)
    requires i < |s.th| && s.th[i].pc == Look(b) && j < |s.d.slots| == |s'.d.slots|
    requires s'.th == Moved(s.th, i, s.th[i].(pc := AfterLook(found, b, j)), []) && s'.done == s.done
    requires s'.d == s.d.(slots := s'.d.slots, busy := s'.d.busy)
    requires s'.d.slots == s.d.slots[j := s'.d.slots[j]]
    requires s'.d.slots[j].waiters == s.d.slots[j].waiters + if found.Park? || found.Evict? then [b] else []
    ensures Places(s', id) == Places(s, id)
  {
    LookHeld(s.th[i], found, b, j, id);
    CountCat(s.d.slots[j].waiters, if found.Park? || found.Evict? then [b] else [], id);
    CountOne(b, id);
    PlacesKept(s, s', i, s.th[i].(pc := AfterLook(found, b, j)), [], j, id);
  }

  /** A bio that looked up its slot joins the wait list or stays with the thread. */
  lemma LookHeld(t: Thread, found: Found, b: nat, j: nat, id: nat)
    requires t.pc == Look(b)
    ensures Held(id, t) == Held(id, t.(pc := AfterLook(found, b, j))) +
                           if found.Park? || found.Evict? then Same(id, b) else 0
  {
    CountOne(b, id);
  }

  lemma AccountLook(s: State, i: nat, b: nat, id: nat)
    requires i < |s.th| && s.th[i].pc == Look(b) && b < |s.bios| && s.d.slots != [] && |s.aux.notes| == |s.d.slots|
    requires BusyExact(s)
    ensures BusyExact(StepLook(s, i, b)) && Places(StepLook(s, i, b), id) == Places(s, id)
  {
    BusyLook(s, i, b);
    PlacesLook(s, i, b, id);
  }

  lemma AccountCopy(s: State, i: nat, b: nat, j: nat, id: nat)
    requires CanRun(s, i) && s.th[i].pc == Copy(b, j) && BusyExact(s)
    ensures var s' := StepCopy(s, i, b, j); BusyExact(s') && Places(s', id) == Places(s, id)
  {
    var s', t := StepCopy(s, i, b, j), s.th[i].(pc := Copied(j));
    BusyKept(s, s', i, t, [], j);
    EndingsAppend(s.done, s'.done[|s.done|], id);
    PlacesKept(s, s', i, t, [], j, id);
  }

  lemma AccountCopied(s: State, i: nat, j: nat, id: nat)
    requires i < |s.th| && j < |s.d.slots| && s.th[i].pc == Copied(j) && !s.d.slots[j].state.EMPTY? && BusyExact(s)
    ensures var s' := StepCopied(s, i, j); BusyExact(s') && Places(s', id) == Places(s, id)
  {
    var s' := StepCopied(s, i, j);
    BusyKept(s, s', i, s'.th[i], [], j);
    CountCat(s.th[i].ready, s.d.slots[j].waiters, id);
    PlacesKept(s, s', i, s'.th[i], [], j, id);
  }

  lemma AccountWalk(s: State, i: nat, j: nat, id: nat)
    requires i < |s.th| && s.th[i].pc == Walk(j) && |s.aux.notes| == |s.d.slots| && BusyExact(s)
    ensures var s' := StepWalk(s, i, j); BusyExact(s') && Places(s', id) == Places(s, id)
  {
    var s' := StepWalk(s, i, j);
    var at := if j < |s.d.slots| && s.d.slots[j].state.DIRTY? then j else -1;
    BusyKept(s, s', i, s'.th[i], [], at);
    PlacesKept(s, s', i, s'.th[i], [], at, id);
  }

  lemma AccountSubmit(s: State, i: nat, j: nat, next: Pc, id: nat)
    requires i < |s.th| && j < |s.d.slots| && |s.aux.notes| == |s.d.slots| && BusyExact(s)
    requires s.th[i].pc == SubmitWalk(j) || s.th[i].pc == SubmitOnce(j)
    requires next == Walk(j + 1) || next == Dec(Result([]))
    ensures var s' := StepSubmit(s, i, j, next); BusyExact(s') && Places(s', id) == Places(s, id)
  {
    var s', t := StepSubmit(s, i, j, next), s.th[i].(pc := next);
    var fork := [Forked(if s.d.stop then EndLock(j) else Writing(j))];
    BusyKept(s, s', i, t, fork, -1);
    PlacesKept(s, s', i, t, fork, -1, id);
  }

  lemma AccountDec(s: State, i: nat, k: After, id: nat)
    requires i < |s.th| && s.th[i].pc == Dec(k) && BusyExact(s)
    ensures var s' := StepDec(s, i, k); BusyExact(s') && Places(s', id) == Places(s, id)
  {
    var s', t := StepDec(s, i, k), s.th[i].(pc := if s.d.busy == 1 then Ticket(k) else Then(k));
    BusyKept(s, s', i, t, [], -1);
    PlacesKept(s, s', i, t, [], -1, id);
  }

  lemma AccountTicket(s: State, i: nat, k: After, id: nat)
    requires i < |s.th| && s.th[i].pc == Ticket(k) && BusyExact(s)
    ensures var s' := StepTicket(s, i, k); BusyExact(s') && Places(s', id) == Places(s, id)
  {
    var s' := StepTicket(s, i, k);
    BusyKept(s, s', i, s'.th[i], [], -1);
    PlacesKept(s, s', i, s'.th[i], [], -1, id);
  }

  /** Queueing moves the ids of both lists from the thread to the work lists. */
  lemma AccountQueued(s: State, i: nat, t: Thread, ready: seq<nat>, flushes: seq<nat>, id: nat)
    requires i < |s.th| && BusyExact(s)
    requires !Counted(s.th[i].pc) && !Counted(t.pc)
    requires Held(id, s.th[i]) == Held(id, t) + Count(ready, id) + Count(flushes, id)
    ensures var s' := Queued(s, i, t, ready, flushes); BusyExact(s') && Places(s', id) == Places(s, id)
  {
    var s' := Queued(s, i, t, ready, flushes);
    var fork := if NeedsWorker(s.d, ready, flushes) then [Forked(Take)] else [];
    BusyKept(s, s', i, t, fork, -1);
    CountCat(s.d.workBios, ready, id);
    CountCat(s.d.workFlush, flushes, id);
    PlacesKept(s, s', i, t, fork, -1, id);
  }

  lemma AccountHand(s: State, i: nat, k: After, ready: seq<nat>, flushes: seq<nat>, id: nat)
    requires i < |s.th| && s.th[i].pc == Hand(k, ready, flushes) && BusyExact(s)
    ensures var s' := Queued(s, i, s.th[i].(pc := Then(k)), ready, flushes);
            BusyExact(s') && Places(s', id) == Places(s, id)
  {
    AccountQueued(s, i, s.th[i].(pc := Then(k)), ready, flushes, id);
  }

  lemma AccountThen(s: State, i: nat, k: After, id: nat)
    requires i < |s.th| && s.th[i].pc == Then(k) && BusyExact(s)
    requires k.Result? ==> |k.out| <= 1
    requires s.th[i].own ==> s.th[i].keep == []
    ensures var s' := StepThen(s, i, k); BusyExact(s') && Places(s', id) == Places(s, id)
  {
    if k.Release? {
      AccountQueued(s, i, s.th[i].(pc := Done), k.rel, [], id);
    } else {
      var s' := StepThen(s, i, k);
      var fork := if s.th[i].own || k.out == [] then [] else [Forked(Storage(k.out[0]))];
      if k.out != [] {
        assert k.out == [k.out[0]];
        CountOne(k.out[0], id);
      }
      BusyKept(s, s', i, s'.th[i], fork, -1);
      PlacesKept(s, s', i, s'.th[i], fork, -1, id);
    }
  }

  lemma AccountPop(s: State, i: nat, id: nat)
    requires i < |s.th| && s.th[i].pc == Pop && |s.th[i].keep| <= 1 && BusyExact(s)
    ensures var s' := StepPop(s, i); BusyExact(s') && Places(s', id) == Places(s, id)
  {
    var s', t := StepPop(s, i), s.th[i];
    BusyKept(s, s', i, s'.th[i], [], -1);
    if t.ready != [] {
      CountFirst(t.ready, id);
    } else if t.keep != [] {
      assert t.keep == [t.keep[0]];
      CountOne(t.keep[0], id);
    }
    PlacesKept(s, s', i, s'.th[i], [], -1, id);
  }

  lemma AccountTake(s: State, i: nat, id: nat)
    requires i < |s.th| && s.th[i].pc == Take && s.th[i].ready == [] && BusyExact(s)
    ensures var s' := StepTake(s, i); BusyExact(s') && Places(s', id) == Places(s, id)
  {
    var s' := StepTake(s, i);
    BusyKept(s, s', i, s'.th[i], [], -1);
    PlacesKept(s, s', i, s'.th[i], [], -1, id);
  }

  lemma AccountFlushes(s: State, i: nat, left: seq<nat>, id: nat)
    requires i < |s.th| && s.th[i].pc == Flushes(left) && BusyExact(s)
    ensures var s' := StepFlushes(s, i, left); BusyExact(s') && Places(s', id) == Places(s, id)
  {
    var s' := StepFlushes(s, i, left);
    if left == [] {
      BusyKept(s, s', i, s'.th[i], [], -1);
      PlacesKept(s, s', i, s'.th[i], [], -1, id);
    } else if FlushRefused(s.d) {
      FlushIsRefused(s, s', i, left, id);
    } else {
      FlushIsSent(s, s', i, left, id);
    }
  }

  lemma FlushIsRefused(s: State, s': State, i: nat, left: seq<nat>, id: nat)
    requires i < |s.th| && s.th[i].pc == Flushes(left) && BusyExact(s) && left != []
    requires s'.th == Moved(s.th, i, s.th[i].(pc := Flushes(left[1..])), []) && s'.d == s.d
    requires s'.done == s.done + [Ending(left[0], false, false, [])]
    ensures BusyExact(s') && Places(s', id) == Places(s, id)
  {
    var t := s.th[i].(pc := Flushes(left[1..]));
    BusyKept(s, s', i, t, [], -1);
    CountFirst(left, id);
    EndingsAppend(s.done, Ending(left[0], false, false, []), id);
    PlacesKept(s, s', i, t, [], -1, id);
  }

  lemma FlushIsSent(s: State, s': State, i: nat, left: seq<nat>, id: nat)
    requires i < |s.th| && s.th[i].pc == Flushes(left) && BusyExact(s) && left != []
    requires s'.th == Moved(s.th, i, s.th[i].(pc := Flushes(left[1..])), [Forked(Storage(left[0]))]) && s'.d == s.d
    requires s'.done == s.done + []
    ensures BusyExact(s') && Places(s', id) == Places(s, id)
  {
    var t := s.th[i].(pc := Flushes(left[1..]));
    BusyKept(s, s', i, t, [Forked(Storage(left[0]))], -1);
    CountFirst(left, id);
    assert s'.done == s.done;
    PlacesKept(s, s', i, t, [Forked(Storage(left[0]))], -1, id);
  }

  lemma AccountStorage(s: State, i: nat, b: nat, id: nat)
    requires i < |s.th| && s.th[i].pc == Storage(b) && b < |s.bios| && BusyExact(s)
    ensures var s' := StepStorage(s, i, b); BusyExact(s') && Places(s', id) == Places(s, id)
  {
    var s', t := StepStorage(s, i, b), s.th[i].(pc := Done);
    BusyKept(s, s', i, t, [], -1);
    EndingsAppend(s.done, s'.done[|s.done|], id);
    PlacesKept(s, s', i, t, [], -1, id);
  }

  lemma AccountWriting(s: State, i: nat, j: nat, id: nat)
    requires i < |s.th| && j < |s.d.slots| && s.d.slots[j].block < |s.disk| && s.th[i].pc == Writing(j) && BusyExact(s)
    ensures var s' := StepWriting(s, i, j); BusyExact(s') && Places(s', id) == Places(s, id)
  {
    var s', t := StepWriting(s, i, j), s.th[i].(pc := EndLock(j));
    BusyKept(s, s', i, t, [], -1);
    PlacesKept(s, s', i, t, [], -1, id);
  }

  /** The slot leaves the count and the callback enters it, until its own decrement. */
  lemma AccountEndLock(s: State, i: nat, j: nat, id: nat)
    requires i < |s.th| && j < |s.d.slots| && s.th[i].pc == EndLock(j) && !s.d.slots[j].state.EMPTY? && BusyExact(s)
    ensures var s' := StepEndLock(s, i, j); BusyExact(s') && Places(s', id) == Places(s, id)
  {
    var s' := StepEndLock(s, i, j);
    BusyKept(s, s', i, s'.th[i], [], j);
    PlacesKept(s, s', i, s'.th[i], [], j, id);
  }

  // ---- Consequences ----

  /** A bio that some thread still holds is accepted, has not ended, and is held nowhere else. */
  lemma HeldOnce(s: State, i: nat, id: nat)
    requires Conserved(s) && i < |s.th| && Held(id, s.th[i]) > 0
    ensures id < |s.bios| && !Ended(s, id)
    ensures In1(id, s.th[i]) > 0 ==> Outgoing(s.th, id) == 0
  {
    assert Places(s, id) == if id < |s.bios| then 1 else 0;
    TotalPart(In1, id, s.th, i);
    TotalPart(Out1, id, s.th, i);
    EndingsIff(s.done, id);
  }

  lemma OutLive(s: State, id: nat)
    requires Conserved(s) && Outgoing(s.th, id) > 0
    ensures id < |s.bios| && !Ended(s, id)
  {
    assert Places(s, id) == if id < |s.bios| then 1 else 0;
    EndingsIff(s.done, id);
  }

  /** Endings are of accepted bios, and there are never more endings than bios. */
  lemma EndedBound(s: State)
    requires Conserved(s)
    ensures |s.done| <= |s.bios|
    ensures forall p :: 0 <= p < |s.done| ==> s.done[p].id < |s.bios|
  {
    var ids := IdsOf(s.done);
    forall id: nat ensures Count(ids, id) <= if id < |s.bios| then 1 else 0 {
      assert Places(s, id) == if id < |s.bios| then 1 else 0;
      EndingIds(s.done, id);
    }
    DistinctBound(ids, |s.bios|);
    forall p | 0 <= p < |s.done| ensures s.done[p].id < |s.bios| {
      assert ids[p] == s.done[p].id;
      CountIff(ids, s.done[p].id);
    }
  }
}
