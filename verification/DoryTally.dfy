/**
 Sums over the threads and the slots of a state: which bios they hold, how often they are
 counted in the busy count, and how much work they still stand for. Every step replaces one
 thread (and perhaps one slot), so each sum changes by what that thread (that slot) held.
 */
module DoryTally {
  import opened DoryDisk
  import opened DorySections
  import opened DoryMachine
  import opened Sums

  // ---- How often a thread holds bio id ----

  function AfterIn(id: nat, k: After): nat { if k.Release? then Count(k.rel, id) else 0 }

  function AfterOut(id: nat, k: After): nat { if k.Result? then Count(k.out, id) else 0 }

  function PcIn(id: nat, pc: Pc): nat
  {
    match pc
    case Start(b) => Same(id, b)
    case Enter(b) => Same(id, b)
    case Look(b) => Same(id, b)
    case Copy(b, _) => Same(id, b)
    case Dec(k) => AfterIn(id, k)
    case Ticket(k) => AfterIn(id, k)
    case Hand(k, ready, flushes) => AfterIn(id, k) + Count(ready, id) + Count(flushes, id)
    case Then(k) => AfterIn(id, k)
    case Flushes(left) => Count(left, id)
    case _ => 0
  }

  function PcOut(id: nat, pc: Pc): nat
  {
    match pc
    case Dec(k) => AfterOut(id, k)
    case Ticket(k) => AfterOut(id, k)
    case Hand(k, _, _) => AfterOut(id, k)
    case Then(k) => AfterOut(id, k)
    case Storage(b) => Same(id, b)
    case _ => 0
  }

  /** As a bio that the thread still has to decide about. */
  function In1(id: nat, t: Thread): nat { Count(t.ready, id) + PcIn(id, t.pc) }

  /** As a bio on its way to the storage: REMAPPED or forwarded, but not completed yet. */
  function Out1(id: nat, t: Thread): nat { Count(t.keep, id) + PcOut(id, t.pc) }

  function Undecided(th: seq<Thread>, id: nat): nat { Total(In1, id, th) }

  function Outgoing(th: seq<Thread>, id: nat): nat { Total(Out1, id, th) }

  // ---- What a thread counts for ----

  predicate Counted(pc: Pc)
  {
    pc.Enter? || pc.Look? || pc.Copy? || pc.Copied? || pc.Walk? || pc.SubmitWalk? || pc.SubmitOnce? || pc.Dec?
  }

  function AfterMoving(k: After): nat { if k.Release? then |k.rel| else 0 }

  function Moving(pc: Pc): nat
  {
    match pc
    case Dec(k) => AfterMoving(k)
    case Ticket(k) => AfterMoving(k)
    case Hand(k, ready, _) => AfterMoving(k) + |ready|
    case Then(k) => AfterMoving(k)
    case _ => 0
  }

  /** An upper bound on the sections left in the current call, n being the number of slots. */
  function Work(n: nat, pc: Pc): nat
  {
    match pc
    case Start(_) => 16 + 4 * n
    case Enter(_) => 15 + 4 * n
    case Look(_) => 14
    case Copy(_, _) => 0
    case Copied(_) => 0
    case Walk(j) => if j <= n then 13 + 4 * (n - j) else 13
    case SubmitWalk(j) => if j < n then 16 + 4 * (n - j - 1) else 16
    case SubmitOnce(_) => 15
    case Dec(_) => 12
    case Ticket(_) => 11
    case Hand(_, _, flushes) => 10 + 2 * |flushes|
    case Then(_) => 5
    case Pop => 2
    case Take => 4
    case Flushes(left) => 3 + 2 * |left|
    case Storage(_) => 1
    case Writing(_) => 2
    case EndLock(_) => 1
    case Done => 0
  }

  function Busy1(n: nat, t: Thread): nat { if Counted(t.pc) then 1 else 0 }

  function Call1(n: nat, t: Thread): nat { if t.own && (t.pc.Start? || t.pc.Enter?) then 1 else 0 }

  function Copied1(n: nat, t: Thread): nat { if t.pc.Copied? then 3 else 0 }

  function Moving1(n: nat, t: Thread): nat { |t.ready| + Moving(t.pc) }

  function Work1(n: nat, t: Thread): nat { Work(n, t.pc) }

  /** Calls and callbacks that the busy count still counts. */
  function Active(th: seq<Thread>): nat { Total(Busy1, 0, th) }

  /** Calls that may still start a flush. */
  function Calls(th: seq<Thread>): nat { Total(Call1, 0, th) }

  /** Copies whose cache block is yet to be released, weighted. */
  function Copies(th: seq<Thread>): nat { Total(Copied1, 0, th) }

  /** Bios that will be processed again. */
  function Movers(th: seq<Thread>): nat { Total(Moving1, 0, th) }

  /** Sections left. */
  function Sections(n: nat, th: seq<Thread>): nat { Total(Work1, n, th) }

  // ---- Slots ----

  function Waiters1(id: nat, slot: Slot): nat { Count(slot.waiters, id) }

  function Full1(n: nat, slot: Slot): nat { if slot.state.EMPTY? then 0 else 1 }

  function Weight1(n: nat, slot: Slot): nat { if slot.state.DIRTY? then 2 else if slot.state.WRITING? then 1 else 0 }

  /** How often bio id waits for a slot. */
  function Waiting(slots: seq<Slot>, id: nat): nat { Total(Waiters1, id, slots) }

  /** The number of slots in use. */
  function Occupied(slots: seq<Slot>): nat { Total(Full1, 0, slots) }

  function Weight(slots: seq<Slot>): nat { Total(Weight1, 0, slots) }

  // ---- How the sums change when one thread moves on and starts at most one other ----

  lemma TotalMovedBy(f: (nat, Thread) -> nat, n: nat, th: seq<Thread>, i: nat, t: Thread, fork: seq<Thread>)
    requires i < |th| && |fork| <= 1
    ensures Total(f, n, Moved(th, i, t, fork)) + f(n, th[i]) ==
            Total(f, n, th) + f(n, t) + (if fork == [] then 0 else f(n, fork[0]))
  {
    TotalAt(f, n, th, i, t);
    TotalCat(f, n, th[i := t], fork);
    if fork != [] {
      assert fork == [fork[0]];
      TotalOne(f, n, fork[0]);
    }
  }

  lemma HeldMoved(th: seq<Thread>, i: nat, t: Thread, fork: seq<Thread>, id: nat)
    requires i < |th| && |fork| <= 1
    ensures Undecided(Moved(th, i, t, fork), id) + In1(id, th[i]) ==
            Undecided(th, id) + In1(id, t) + (if fork == [] then 0 else In1(id, fork[0]))
    ensures Outgoing(Moved(th, i, t, fork), id) + Out1(id, th[i]) ==
            Outgoing(th, id) + Out1(id, t) + (if fork == [] then 0 else Out1(id, fork[0]))
  {
    TotalMovedBy(In1, id, th, i, t, fork);
    TotalMovedBy(Out1, id, th, i, t, fork);
  }

  lemma ActiveMoved(th: seq<Thread>, i: nat, t: Thread, fork: seq<Thread>)
    requires i < |th| && |fork| <= 1
    ensures Active(Moved(th, i, t, fork)) + Busy1(0, th[i]) ==
            Active(th) + Busy1(0, t) + if fork == [] then 0 else Busy1(0, fork[0])
  {
    TotalMovedBy(Busy1, 0, th, i, t, fork);
  }

  lemma WaitersMoved(slots: seq<Slot>, j: nat, slot: Slot, id: nat)
    requires j < |slots|
    ensures Waiting(slots[j := slot], id) + Count(slots[j].waiters, id) == Waiting(slots, id) + Count(slot.waiters, id)
  {
    TotalAt(Waiters1, id, slots, j, slot);
  }

  lemma OccupiedAt(slots: seq<Slot>, j: nat, slot: Slot)
    requires j < |slots|
    ensures Occupied(slots[j := slot]) + Full1(0, slots[j]) == Occupied(slots) + Full1(0, slot)
  {
    TotalAt(Full1, 0, slots, j, slot);
  }

  /** Occupied is zero exactly when every slot is EMPTY. */
  lemma OccupiedZero(slots: seq<Slot>)
    ensures Occupied(slots) == 0 <==> forall j :: 0 <= j < |slots| ==> slots[j].state.EMPTY?
  {
    TotalZero(Full1, 0, slots);
    assert forall j :: 0 <= j < |slots| ==> (Full1(0, slots[j]) == 0 <==> slots[j].state.EMPTY?);
  }

  // ---- Endings ----

  function Id1(id: nat, e: Ending): nat { Same(id, e.id) }

  /** How often bio id has ended. */
  function Endings(done: seq<Ending>, id: nat): nat { Total(Id1, id, done) }

  lemma EndingsAppend(done: seq<Ending>, e: Ending, id: nat)
    ensures Endings(done + [e], id) == Endings(done, id) + Same(id, e.id)
  {
    TotalCat(Id1, id, done, [e]);
    TotalOne(Id1, id, e);
  }

  lemma EndingsIff(done: seq<Ending>, id: nat)
    ensures Endings(done, id) > 0 <==> exists p :: 0 <= p < |done| && done[p].id == id
  {
    TotalZero(Id1, id, done);
    if Endings(done, id) > 0 {
      var p :| 0 <= p < |done| && Id1(id, done[p]) != 0;
      assert done[p].id == id;
    }
    if p :| 0 <= p < |done| && done[p].id == id {
      assert Id1(id, done[p]) == 1;
    }
  }

  function IdsOf(done: seq<Ending>): (r: seq<nat>)
    ensures |r| == |done| && forall p :: 0 <= p < |r| ==> r[p] == done[p].id
  {
    if done == [] then [] else IdsOf(done[..|done| - 1]) + [done[|done| - 1].id]
  }

  lemma {:induction false} EndingIds(done: seq<Ending>, id: nat)
    ensures Endings(done, id) == Count(IdsOf(done), id)
  {
    if done != [] {
      var last := |done| - 1;
      EndingIds(done[..last], id);
      CountCat(IdsOf(done[..last]), [done[last].id], id);
      CountOne(done[last].id, id);
    }
  }
}
