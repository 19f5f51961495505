/**
 No overtaking: bios that wait on a list together are started in the order of the list, and flushes that
 are in progress together are forwarded in the order in which they joined.
 */
module DoryOrder {
  import opened Sums
  import opened DoryDisk
  import opened DorySections
  import opened DoryMachine
  import opened DoryTally
  import opened DoryStructure
  import opened DoryAccounts
  import opened DoryInv

  /** a comes before b in the list. */
  predicate Ahead(l: seq<nat>, a: nat, b: nat)
  {
    exists x, y :: 0 <= x < y < |l| && l[x] == a && l[y] == b
  }

  lemma AheadAdded(l: seq<nat>, m: seq<nat>, a: nat, b: nat)
    ensures Ahead(l, a, b) || Ahead(m, a, b) ==> Ahead(l + m, a, b)
  {
    if x, y :| 0 <= x < y < |l| && l[x] == a && l[y] == b {
      assert (l + m)[x] == a && (l + m)[y] == b;
    }
    if x, y :| 0 <= x < y < |m| && m[x] == a && m[y] == b {
      assert (l + m)[|l| + x] == a && (l + m)[|l| + y] == b;
    }
  }

  lemma AheadRest(l: seq<nat>, a: nat, b: nat)
    requires l != [] && Ahead(l, a, b)
    ensures l[0] == a || Ahead(l[1..], a, b)
  {
    var x, y :| 0 <= x < y < |l| && l[x] == a && l[y] == b;
    if x > 0 {
      assert l[1..][x - 1] == a && l[1..][y - 1] == b;
    }
  }

  // ---- Waiting bios ----

  /** The bios that a callback is to release. */
  function Releasing(pc: Pc): seq<nat>
  {
    match pc
    case Dec(k) => if k.Release? then k.rel else []
    case Ticket(k) => if k.Release? then k.rel else []
    case Hand(k, _, _) => if k.Release? then k.rel else []
    case Then(k) => if k.Release? then k.rel else []
    case _ => []
  }

  function Handed(pc: Pc): seq<nat> { if pc.Hand? then pc.ready else [] }

  predicate InThread(t: Thread, a: nat, b: nat)
  {
    Ahead(t.ready, a, b) || Ahead(Releasing(t.pc), a, b) || Ahead(Handed(t.pc), a, b)
  }

  /** a and b wait on one list, a first: for the flush in progress, for a slot, or for a thread to start them. */
  predicate Before(s: State, a: nat, b: nat)
  {
    || Ahead(s.d.waiting, a, b) || Ahead(s.d.workBios, a, b)
    || (exists j :: 0 <= j < |s.d.slots| && Ahead(s.d.slots[j].waiters, a, b))
    || (exists i :: 0 <= i < |s.th| && InThread(s.th[i], a, b))
  }

  /** Thread i is about to start processing bio a. */
  predicate Starts(s: State, i: nat, a: nat)
  {
    i < |s.th| && s.th[i].pc == Pop && s.th[i].ready != [] && s.th[i].ready[0] == a
  }

  /** Thread i moved to t, possibly with another thread; every list that held a before b is still there, or its
      contents are part of another. */
  lemma StaysBefore(s: State, s': State, i: nat, t: Thread, fork: seq<Thread>, j: int, a: nat, b: nat)
    requires i < |s.th| && s'.th == Moved(s.th, i, t, fork) && OneSlot(s, s', j) && Before(s, a, b)
    requires Ahead(s.d.waiting, a, b) ==> Ahead(s'.d.waiting, a, b) || InThread(t, a, b)
    requires Ahead(s.d.workBios, a, b) ==> Ahead(s'.d.workBios, a, b) || InThread(t, a, b)
    requires 0 <= j < |s.d.slots| && Ahead(s.d.slots[j].waiters, a, b) ==>
               Ahead(s'.d.slots[j].waiters, a, b) || InThread(t, a, b)
    requires InThread(s.th[i], a, b) ==> InThread(t, a, b) || Ahead(s'.d.workBios, a, b)
    ensures Before(s', a, b)
  {
    assert s'.th[i] == t;
    if k :| 0 <= k < |s.th| && InThread(s.th[k], a, b) {
      assert k != i ==> s'.th[k] == s.th[k];
    }
    if m :| 0 <= m < |s.d.slots| && Ahead(s.d.slots[m].waiters, a, b) {
      assert m != j ==> s'.d.slots[m] == s.d.slots[m];
    }
  }

  lemma OrderEnter(s: State, i: nat, n: nat, a: nat, b: nat)
    requires CanRun(s, i) && s.th[i].pc == Enter(n) && Before(s, a, b)
    ensures Before(StepEnter(s, i, n), a, b)
  {
    var s' := StepEnter(s, i, n);
    AheadAdded(s.d.waiting, [n], a, b);
    StaysBefore(s, s', i, s.th[i].(pc := AfterEnter(s.d, s.bios[n], n)), [], -1, a, b);
  }

  lemma OrderLook(s: State, i: nat, n: nat, a: nat, b: nat)
    requires CanRun(s, i) && s.th[i].pc == Look(n) && Before(s, a, b)
    ensures Before(StepLook(s, i, n), a, b)
  {
    var s' := StepLook(s, i, n);
    var j := SlotOf(|s.d.slots|, BlockOf(s.d.wide, s.bios[n]));
    AheadAdded(s.d.slots[j].waiters, [n], a, b);
    StaysBefore(s, s', i, s.th[i].(pc := AfterLook(FoundOf(s.d, s.bios[n]), n, j)), [], j, a, b);
  }

  lemma OrderCopied(s: State, i: nat, j: nat, a: nat, b: nat)
    requires CanRun(s, i) && s.th[i].pc == Copied(j) && Before(s, a, b)
    ensures Before(StepCopied(s, i, j), a, b)
  {
    var s' := StepCopied(s, i, j);
    AheadAdded(s.th[i].ready, s.d.slots[j].waiters, a, b);
    StaysBefore(s, s', i, s'.th[i], [], j, a, b);
  }

  lemma OrderCall(s: State, i: nat, a: nat, b: nat)
    requires CanRun(s, i) && InCall(s.th[i].pc) && Before(s, a, b)
    ensures Before(RunCall(s, i), a, b)
  {
    var pc, s' := s.th[i].pc, RunCall(s, i);
    if pc.Enter? {
      OrderEnter(s, i, pc.b, a, b);
    } else if pc.Look? {
      OrderLook(s, i, pc.b, a, b);
    } else if pc.Copied? {
      OrderCopied(s, i, pc.slot, a, b);
    } else {
      StaysBefore(s, s', i, s'.th[i], [], if pc.Copy? then pc.slot else -1, a, b);
    }
  }

  lemma OrderFlush(s: State, i: nat, a: nat, b: nat)
    requires CanRun(s, i) && InFlush(s.th[i].pc) && Before(s, a, b)
    ensures Before(RunFlush(s, i), a, b)
  {
    var s' := RunFlush(s, i);
    StaysBefore(s, s', i, s'.th[i], s'.th[|s.th|..], if s.th[i].pc.Walk? then s.th[i].pc.next else -1, a, b);
  }

  lemma OrderQueued(s: State, i: nat, t: Thread, ready: seq<nat>, flushes: seq<nat>, a: nat, b: nat)
    requires i < |s.th| && Before(s, a, b) && (InThread(s.th[i], a, b) ==> InThread(t, a, b) || Ahead(ready, a, b))
    ensures Before(Queued(s, i, t, ready, flushes), a, b)
  {
    var s' := Queued(s, i, t, ready, flushes);
    AheadAdded(s.d.workBios, ready, a, b);
    StaysBefore(s, s', i, t, if NeedsWorker(s.d, ready, flushes) then [Forked(Take)] else [], -1, a, b);
  }

  lemma OrderThen(s: State, i: nat, k: After, a: nat, b: nat)
    requires CanRun(s, i) && s.th[i].pc == Then(k) && Before(s, a, b)
    ensures Before(StepThen(s, i, k), a, b)
  {
    if k.Release? {
      OrderQueued(s, i, s.th[i].(pc := Done), k.rel, [], a, b);
    } else {
      var s' := StepThen(s, i, k);
      StaysBefore(s, s', i, s'.th[i], s'.th[|s.th|..], -1, a, b);
    }
  }

  lemma OrderPop(s: State, i: nat, a: nat, b: nat)
    requires CanRun(s, i) && s.th[i].pc == Pop && Before(s, a, b) && !Starts(s, i, a)
    ensures Before(StepPop(s, i), a, b)
  {
    var s' := StepPop(s, i);
    if s.th[i].ready != [] && Ahead(s.th[i].ready, a, b) {
      AheadRest(s.th[i].ready, a, b);
    }
    StaysBefore(s, s', i, s'.th[i], [], -1, a, b);
  }

  lemma OrderTicket(s: State, i: nat, k: After, a: nat, b: nat)
    requires CanRun(s, i) && s.th[i].pc == Ticket(k) && Before(s, a, b)
    ensures Before(StepTicket(s, i, k), a, b)
  {
    var s' := StepTicket(s, i, k);
    StaysBefore(s, s', i, s'.th[i], [], -1, a, b);
  }

  /** A thread on the lists: a work item, or the end of a call or callback. */
  lemma OrderLists(s: State, i: nat, a: nat, b: nat)
    requires CanRun(s, i) && Before(s, a, b) && !Starts(s, i, a)
    requires s.th[i].pc.Hand? || s.th[i].pc.Then? || s.th[i].pc.Pop? || s.th[i].pc.Ticket?
    ensures Before(RunRest(s, i), a, b)
  {
    match s.th[i].pc
    case Hand(k, ready, flushes) => OrderQueued(s, i, s.th[i].(pc := Then(k)), ready, flushes, a, b);
    case Then(k) => OrderThen(s, i, k, a, b);
    case Pop => OrderPop(s, i, a, b);
    case Ticket(k) => OrderTicket(s, i, k, a, b);
  }

  lemma OrderTake(s: State, i: nat, a: nat, b: nat)
    requires CanRun(s, i) && s.th[i].pc == Take && s.th[i].ready == [] && Before(s, a, b)
    ensures Before(StepTake(s, i), a, b)
  {
    var s' := StepTake(s, i);
    StaysBefore(s, s', i, s'.th[i], [], -1, a, b);
  }

  lemma OrderEnds(s: State, i: nat, a: nat, b: nat)
    requires CanRun(s, i) && Before(s, a, b)
    requires s.th[i].pc.Dec? || s.th[i].pc.Flushes? || s.th[i].pc.Storage? || s.th[i].pc.Writing? || s.th[i].pc.EndLock?
    ensures Before(RunRest(s, i), a, b)
  {
    var s', pc := RunRest(s, i), s.th[i].pc;
    StaysBefore(s, s', i, s'.th[i], s'.th[|s.th|..], if pc.EndLock? then pc.slot else -1, a, b);
  }

  lemma OrderRun(s: State, i: nat, a: nat, b: nat)
    requires Inv(s) && CanRun(s, i) && Before(s, a, b) && !Starts(s, i, a)
    ensures Before(RunThread(s, i), a, b)
  {
    var pc := s.th[i].pc;
    if InCall(pc) {
      OrderCall(s, i, a, b);
    } else if InFlush(pc) {
      OrderFlush(s, i, a, b);
    } else if pc.Hand? || pc.Then? || pc.Pop? || pc.Ticket? {
      OrderLists(s, i, a, b);
    } else if pc.Take? {
      assert ThreadOk(s, i, s.th[i]);
      OrderTake(s, i, a, b);
    } else {
      OrderEnds(s, i, a, b);
    }
  }

  lemma OrderOutside(s: State, step: Step, a: nat, b: nat)
    requires Enabled(s, step) && !step.Run? && Before(s, a, b)
    ensures Before(Next(s, step), a, b)
  {
    var s' := Next(s, step);
    if i :| 0 <= i < |s.th| && InThread(s.th[i], a, b) {
      assert s'.th[i] == s.th[i];
    }
  }

  /** In the step from s to s', some thread starts bio a. */
  ghost predicate Started(s: State, s': State, a: nat)
  {
    exists i: nat :: Starts(s, i, a) && CanRun(s, i) && s' == RunThread(s, i)
  }

  /** a stays before b, or a is started. */
  ghost predicate OrderKept(s: State, s': State, a: nat, b: nat)
  {
    Before(s, a, b) ==> Before(s', a, b) || Started(s, s', a)
  }

  lemma OrderStep(s: State, s': State, a: nat, b: nat)
    requires Inv(s) && Follows(s, s')
    ensures OrderKept(s, s', a, b)
  {
    var step :| Enabled(s, step) && s' == Next(s, step);
    if Before(s, a, b) {
      if !step.Run? {
        OrderOutside(s, step, a, b);
      } else if !Starts(s, step.i, a) {
        OrderRun(s, step.i, a, b);
      }
    }
  }

  // ---- Over a run ----

  ghost predicate Ordered(run: seq<State>, a: nat, b: nat)
  {
    forall q :: 0 < q < |run| ==> OrderKept(run[q - 1], run[q], a, b)
  }

  lemma OrderedStep(run: seq<State>, q: nat, a: nat, b: nat)
    requires IsRun(run) && 0 < q < |run|
    ensures OrderKept(run[q - 1], run[q], a, b)
  {
    var s, s' := run[q - 1], run[q];
    InvAlways(run, q - 1);
    assert Follows(s, s');
    OrderStep(s, s', a, b);
  }

  lemma OrderedInRun(run: seq<State>, a: nat, b: nat)
    requires IsRun(run)
    ensures Ordered(run, a, b)
  {
    forall q | 0 < q < |run| ensures OrderKept(run[q - 1], run[q], a, b) {
      OrderedStep(run, q, a, b);
    }
  }

  /** What held and holds no longer stopped holding in some step. */
  lemma {:induction false} Drops(holds: seq<bool>, p: nat, r: nat) returns (z: nat)
    requires p <= r < |holds| && holds[p] && !holds[r]
    ensures p <= z < r && holds[z] && !holds[z + 1]
  {
    if holds[r - 1] {
      z := r - 1;
    } else {
      z := Drops(holds, p, r - 1);
    }
  }

  lemma StillBefore(run: seq<State>, p: nat, r: nat, a: nat, b: nat) returns (z: nat)
    requires Ordered(run, a, b) && p <= r < |run| && Before(run[p], a, b)
    ensures Before(run[r], a, b) || (p <= z < r && Started(run[z], run[z + 1], a))
  {
    z := 0;
    if !Before(run[r], a, b) {
      z := Drops(seq(|run|, q requires 0 <= q < |run| => Before(run[q], a, b)), p, r);
      assert OrderKept(run[z + 1 - 1], run[z + 1], a, b);
    }
  }

  lemma AheadCounts(l: seq<nat>, a: nat, b: nat)
    requires Ahead(l, a, b)
    ensures Count(l, b) >= 1 && (l[0] == b ==> Count(l, b) >= 2)
  {
    var x, y :| 0 <= x < y < |l| && l[x] == a && l[y] == b;
    CountIff(l, b);
    CountFirst(l, b);
    assert l[1..][y - 1] == b;
    CountIff(l[1..], b);
  }

  lemma InThreadHeld(t: Thread, a: nat, b: nat)
    requires InThread(t, a, b)
    ensures In1(b, t) >= 1
    ensures t.pc == Pop && t.ready != [] && t.ready[0] == b ==> In1(b, t) >= 2
  {
    if Ahead(t.ready, a, b) {
      AheadCounts(t.ready, a, b);
    } else if Ahead(Releasing(t.pc), a, b) {
      AheadCounts(Releasing(t.pc), a, b);
    } else {
      AheadCounts(Handed(t.pc), a, b);
    }
  }

  lemma OnlyOnce(s: State, i: nat, a: nat, b: nat)
    requires Inv(s) && Before(s, a, b)
    ensures !Starts(s, i, b)
  {
    if Starts(s, i, b) {
      EndsConflict(s, i, a, b);
    }
  }

  lemma EndsConflict(s: State, i: nat, a: nat, b: nat)
    requires Starts(s, i, b) && Before(s, a, b)
    ensures Places(s, b) >= 2
  {
    var t := s.th[i];
    CountFirst(t.ready, b);
    TotalPart(In1, b, s.th, i);
    if Ahead(s.d.waiting, a, b) {
      AheadCounts(s.d.waiting, a, b);
    } else if Ahead(s.d.workBios, a, b) {
      AheadCounts(s.d.workBios, a, b);
    } else if j :| 0 <= j < |s.d.slots| && Ahead(s.d.slots[j].waiters, a, b) {
      AheadCounts(s.d.slots[j].waiters, a, b);
      TotalPart(Waiters1, b, s.d.slots, j);
    } else {
      var k :| 0 <= k < |s.th| && InThread(s.th[k], a, b);
      InThreadHeld(s.th[k], a, b);
      if k < i {
        TotalTwo(In1, b, s.th, k, i);
      } else if i < k {
        TotalTwo(In1, b, s.th, i, k);
      }
    }
  }

  /** If a waits before b at state p, and a thread is about to start b at state r, then a has been started in
      between. */
  lemma NoOvertaking(run: seq<State>, p: nat, r: nat, i: nat, a: nat, b: nat) returns (z: nat)
    requires IsRun(run) && p <= r < |run| && Before(run[p], a, b) && Starts(run[r], i, b)
    ensures p <= z < r && Started(run[z], run[z + 1], a)
  {
    OrderedInRun(run, a, b);
    z := StillBefore(run, p, r, a, b);
    InvAlways(run, r);
    if Before(run[r], a, b) {
      OnlyOnce(run[r], i, a, b);
    }
  }

  // ---- Flushes in progress ----

  function Completing(pc: Pc): seq<nat> { if pc.Hand? then pc.flushes else if pc.Flushes? then pc.left else [] }

  /** Flushes a and b are in progress or completed together, a first. */
  predicate FlushBefore(s: State, a: nat, b: nat)
  {
    || Ahead(s.d.flushBios, a, b) || Ahead(s.d.workFlush, a, b)
    || (exists i :: 0 <= i < |s.th| && Ahead(Completing(s.th[i].pc), a, b))
  }

  /** Thread i is about to forward or refuse flush a. */
  predicate Forwards(s: State, i: nat, a: nat)
  {
    i < |s.th| && s.th[i].pc.Flushes? && s.th[i].pc.left != [] && s.th[i].pc.left[0] == a
  }

  lemma StaysFlushBefore(s: State, s': State, i: nat, t: Thread, fork: seq<Thread>, a: nat, b: nat)
    requires i < |s.th| && s'.th == Moved(s.th, i, t, fork) && FlushBefore(s, a, b)
    requires Ahead(s.d.flushBios, a, b) ==> Ahead(s'.d.flushBios, a, b) || Ahead(Completing(t.pc), a, b)
    requires Ahead(s.d.workFlush, a, b) ==> Ahead(s'.d.workFlush, a, b) || Ahead(Completing(t.pc), a, b)
    requires Ahead(Completing(s.th[i].pc), a, b) ==> Ahead(Completing(t.pc), a, b) || Ahead(s'.d.workFlush, a, b)
    ensures FlushBefore(s', a, b)
  {
    assert s'.th[i] == t;
    if k :| 0 <= k < |s.th| && Ahead(Completing(s.th[k].pc), a, b) {
      assert k != i ==> s'.th[k] == s.th[k];
    }
  }

  lemma FlushOrderCall(s: State, i: nat, a: nat, b: nat)
    requires CanRun(s, i) && InCall(s.th[i].pc) && FlushBefore(s, a, b)
    ensures FlushBefore(RunCall(s, i), a, b)
  {
    var pc, s' := s.th[i].pc, RunCall(s, i);
    if pc.Enter? {
      AheadAdded(s.d.flushBios, [pc.b], a, b);
    }
    StaysFlushBefore(s, s', i, s'.th[i], [], a, b);
  }

  lemma FlushOrderFlush(s: State, i: nat, a: nat, b: nat)
    requires CanRun(s, i) && InFlush(s.th[i].pc) && FlushBefore(s, a, b)
    ensures FlushBefore(RunFlush(s, i), a, b)
  {
    var s' := RunFlush(s, i);
    StaysFlushBefore(s, s', i, s'.th[i], s'.th[|s.th|..], a, b);
  }

  lemma FlushOrderQueued(s: State, i: nat, t: Thread, ready: seq<nat>, flushes: seq<nat>, a: nat, b: nat)
    requires i < |s.th| && FlushBefore(s, a, b) && (Ahead(Completing(s.th[i].pc), a, b) ==> Ahead(flushes, a, b))
    ensures FlushBefore(Queued(s, i, t, ready, flushes), a, b)
  {
    AheadAdded(s.d.workFlush, flushes, a, b);
    StaysFlushBefore(s, Queued(s, i, t, ready, flushes), i, t,
                     if NeedsWorker(s.d, ready, flushes) then [Forked(Take)] else [], a, b);
  }

  lemma FlushOrderLists(s: State, i: nat, a: nat, b: nat)
    requires CanRun(s, i) && FlushBefore(s, a, b) && !Forwards(s, i, a)
    requires s.th[i].pc.Hand? || s.th[i].pc.Then? || s.th[i].pc.Ticket? || s.th[i].pc.Flushes?
    ensures FlushBefore(RunRest(s, i), a, b)
  {
    var s' := RunRest(s, i);
    match s.th[i].pc
    case Hand(k, ready, flushes) => FlushOrderQueued(s, i, s.th[i].(pc := Then(k)), ready, flushes, a, b);
    case Then(k) =>
      if k.Release? {
        FlushOrderQueued(s, i, s.th[i].(pc := Done), k.rel, [], a, b);
      } else {
        StaysFlushBefore(s, s', i, s'.th[i], s'.th[|s.th|..], a, b);
      }
    case Ticket(k) => StaysFlushBefore(s, s', i, s'.th[i], [], a, b);
    case Flushes(left) =>
      if left != [] && Ahead(left, a, b) {
        AheadRest(left, a, b);
      }
      StaysFlushBefore(s, s', i, s'.th[i], s'.th[|s.th|..], a, b);
  }

  lemma FlushOrderEnds(s: State, i: nat, a: nat, b: nat)
    requires CanRun(s, i) && FlushBefore(s, a, b) && !InCall(s.th[i].pc) && !InFlush(s.th[i].pc)
    requires !(s.th[i].pc.Hand? || s.th[i].pc.Then? || s.th[i].pc.Ticket? || s.th[i].pc.Flushes?)
    ensures FlushBefore(RunRest(s, i), a, b)
  {
    var s' := RunRest(s, i);
    StaysFlushBefore(s, s', i, s'.th[i], [], a, b);
  }

  lemma FlushOrderRun(s: State, i: nat, a: nat, b: nat)
    requires CanRun(s, i) && FlushBefore(s, a, b) && !Forwards(s, i, a)
    ensures FlushBefore(RunThread(s, i), a, b)
  {
    var pc := s.th[i].pc;
    if InCall(pc) {
      FlushOrderCall(s, i, a, b);
    } else if InFlush(pc) {
      FlushOrderFlush(s, i, a, b);
    } else if pc.Hand? || pc.Then? || pc.Ticket? || pc.Flushes? {
      FlushOrderLists(s, i, a, b);
    } else {
      FlushOrderEnds(s, i, a, b);
    }
  }

  /** In the step from s to s', some thread forwards or refuses flush a. */
  ghost predicate Forwarded(s: State, s': State, a: nat)
  {
    exists i: nat :: Forwards(s, i, a) && CanRun(s, i) && s' == RunThread(s, i)
  }

  ghost predicate FlushKept(s: State, s': State, a: nat, b: nat)
  {
    FlushBefore(s, a, b) ==> FlushBefore(s', a, b) || Forwarded(s, s', a)
  }

  lemma FlushOrderOutside(s: State, step: Step, a: nat, b: nat)
    requires Enabled(s, step) && !step.Run? && FlushBefore(s, a, b)
    ensures FlushBefore(Next(s, step), a, b)
  {
    var s' := Next(s, step);
    if i :| 0 <= i < |s.th| && Ahead(Completing(s.th[i].pc), a, b) {
      assert s'.th[i] == s.th[i];
    }
  }

  lemma FlushOrderStep(s: State, s': State, a: nat, b: nat)
    requires Follows(s, s')
    ensures FlushKept(s, s', a, b)
  {
    var step :| Enabled(s, step) && s' == Next(s, step);
    if FlushBefore(s, a, b) {
      if !step.Run? {
        FlushOrderOutside(s, step, a, b);
      } else if !Forwards(s, step.i, a) {
        FlushOrderRun(s, step.i, a, b);
      }
    }
  }

  ghost predicate FlushesOrdered(run: seq<State>, a: nat, b: nat)
  {
    forall q :: 0 < q < |run| ==> FlushKept(run[q - 1], run[q], a, b)
  }

  lemma FlushesOrderedInRun(run: seq<State>, a: nat, b: nat)
    requires IsRun(run)
    ensures FlushesOrdered(run, a, b)
  {
    forall q | 0 < q < |run| ensures FlushKept(run[q - 1], run[q], a, b) {
      var s, s' := run[q - 1], run[q];
      assert Follows(s, s');
      FlushOrderStep(s, s', a, b);
    }
  }

  lemma FlushStillBefore(run: seq<State>, p: nat, r: nat, a: nat, b: nat) returns (z: nat)
    requires FlushesOrdered(run, a, b) && p <= r < |run| && FlushBefore(run[p], a, b)
    ensures FlushBefore(run[r], a, b) || (p <= z < r && Forwarded(run[z], run[z + 1], a))
  {
    z := 0;
    if !FlushBefore(run[r], a, b) {
      z := Drops(seq(|run|, q requires 0 <= q < |run| => FlushBefore(run[q], a, b)), p, r);
      assert FlushKept(run[z + 1 - 1], run[z + 1], a, b);
    }
  }

  lemma CompletingHeld(t: Thread, a: nat, b: nat)
    requires Ahead(Completing(t.pc), a, b)
    ensures In1(b, t) >= 1 && (t.pc.Flushes? && t.pc.left != [] && t.pc.left[0] == b ==> In1(b, t) >= 2)
  {
    AheadCounts(Completing(t.pc), a, b);
  }

  lemma ForwardsHeld(t: Thread, b: nat)
    requires t.pc.Flushes? && t.pc.left != [] && t.pc.left[0] == b
    ensures In1(b, t) >= 1
  {
    CountFirst(t.pc.left, b);
  }

  lemma FlushConflict(s: State, i: nat, a: nat, b: nat)
    requires Forwards(s, i, b) && FlushBefore(s, a, b)
    ensures Places(s, b) >= 2
  {
    ForwardsHeld(s.th[i], b);
    TotalPart(In1, b, s.th, i);
    if Ahead(s.d.flushBios, a, b) {
      AheadCounts(s.d.flushBios, a, b);
    } else if Ahead(s.d.workFlush, a, b) {
      AheadCounts(s.d.workFlush, a, b);
    } else {
      var k :| 0 <= k < |s.th| && Ahead(Completing(s.th[k].pc), a, b);
      CompletingHeld(s.th[k], a, b);
      if k < i {
        TotalTwo(In1, b, s.th, k, i);
      } else if i < k {
        TotalTwo(In1, b, s.th, i, k);
      }
    }
  }

  lemma FlushOnlyOnce(s: State, i: nat, a: nat, b: nat)
    requires Inv(s) && FlushBefore(s, a, b)
    ensures !Forwards(s, i, b)
  {
    if Forwards(s, i, b) {
      FlushConflict(s, i, a, b);
    }
  }

  /** Flushes are forwarded, or refused, in the order in which they joined. */
  lemma FlushesInOrder(run: seq<State>, p: nat, r: nat, i: nat, a: nat, b: nat) returns (z: nat)
    requires IsRun(run) && p <= r < |run| && FlushBefore(run[p], a, b) && Forwards(run[r], i, b)
    ensures p <= z < r && Forwarded(run[z], run[z + 1], a)
  {
    FlushesOrderedInRun(run, a, b);
    z := FlushStillBefore(run, p, r, a, b);
    InvAlways(run, r);
    if FlushBefore(run[r], a, b) {
      FlushOnlyOnce(run[r], i, a, b);
    }
  }
}
