/**
 The flush and work-queue protocol of the Dory machine.
 While a flush is in progress the busy count is positive or some thread has seen it drop to
 zero and will complete the flush, and every DIRTY slot is still ahead of the walk; work lists
 are non-empty exactly while one work item is scheduled.
 */
module DoryProtocol {
  import opened DoryDisk
  import opened DorySections
  import opened DoryMachine
  import opened DoryTally
  import opened DoryAccounts
  import opened Sums

  /** The walk of thread w has not passed slot j. */
  predicate Ahead(th: seq<Thread>, w: nat, j: nat)
  {
    w < |th| &&
    match th[w].pc
    case Walk(next) => next <= j
    case SubmitWalk(at) => at < j
    case _ => false
  }

  predicate FlushOk(s: State)
  {
    && (s.d.flushFlag <==> s.d.flushBios != [])
    && (s.d.waiting != [] ==> s.d.flushFlag)
    && (s.d.flushFlag && s.d.busy == 0 ==> s.aux.ticket < |s.th| && s.th[s.aux.ticket].pc.Ticket?)
    && (s.d.flushFlag ==>
          forall j :: 0 <= j < |s.d.slots| && s.d.slots[j].state.DIRTY? ==> Ahead(s.th, s.aux.walker, j))
  }

  predicate HasWork(d: Device) { d.workBios != [] || d.workFlush != [] }

  predicate WorkOk(s: State)
  {
    && (HasWork(s.d) ==> s.aux.worker < |s.th| && s.th[s.aux.worker].pc == Take)
    && (forall i :: 0 <= i < |s.th| && s.th[i].pc == Take ==> i == s.aux.worker && HasWork(s.d))
  }

  // ---- Steps that stay out of the protocol ----

  lemma FlushKept(s: State, s': State, i: nat, t: Thread, fork: seq<Thread>)
    requires FlushOk(s) && i < |s.th| && s'.th == Moved(s.th, i, t, fork)
    requires s'.aux.walker == s.aux.walker && s'.aux.ticket == s.aux.ticket
    requires s'.d.flushFlag == s.d.flushFlag && s'.d.flushBios == s.d.flushBios && s'.d.waiting == s.d.waiting
    requires s'.d.busy == s.d.busy || s'.d.busy > 0
    requires |s'.d.slots| == |s.d.slots|
    requires forall j :: 0 <= j < |s.d.slots| && s'.d.slots[j].state.DIRTY? ==> s.d.slots[j].state.DIRTY?
    requires !s.th[i].pc.Ticket? && !s.th[i].pc.Walk? && !s.th[i].pc.SubmitWalk?
    ensures FlushOk(s')
  {
    if s'.d.flushFlag {
      forall j | 0 <= j < |s'.d.slots| && s'.d.slots[j].state.DIRTY? ensures Ahead(s'.th, s'.aux.walker, j) {
        assert Ahead(s.th, s.aux.walker, j);
      }
    }
  }

  lemma WorkKept(s: State, s': State, i: nat, t: Thread, fork: seq<Thread>)
    requires WorkOk(s) && i < |s.th| && |fork| <= 1 && s'.th == Moved(s.th, i, t, fork)
    requires s'.aux.worker == s.aux.worker && s'.d.workBios == s.d.workBios && s'.d.workFlush == s.d.workFlush
    requires s.th[i].pc != Take && t.pc != Take && (fork != [] ==> fork[0].pc != Take)
    ensures WorkOk(s')
  {
    forall k | 0 <= k < |s'.th| && s'.th[k].pc == Take ensures k == s'.aux.worker && HasWork(s'.d) {
      assert k < |s.th| && s.th[k].pc == Take;
    }
  }

  /** A call that is still counted keeps the busy count positive, a slot in use adds to it. */
  lemma CountedPositive(s: State, i: nat, j: int)
    requires BusyExact(s) && i < |s.th| && Counted(s.th[i].pc)
    ensures s.d.busy >= 1
    ensures 0 <= j < |s.d.slots| && !s.d.slots[j].state.EMPTY? ==> s.d.busy >= 2
  {
    TotalPart(Busy1, 0, s.th, i);
    if 0 <= j < |s.d.slots| && !s.d.slots[j].state.EMPTY? {
      TotalPart(Full1, 0, s.d.slots, j);
    }
  }

  // ---- Sections ----

  lemma ProtocolStart(s: State, i: nat, b: nat)
    requires FlushOk(s) && WorkOk(s) && BusyExact(s)
    requires i < |s.th| && s.th[i].pc == Start(b) && b < |s.bios|
    ensures var s' := StepStart(s, i, b); FlushOk(s') && WorkOk(s')
  {
    var s', t := StepStart(s, i, b), s.th[i].(pc := AfterStart(s.d, s.bios[b], b));
    FlushKept(s, s', i, t, []);
    WorkKept(s, s', i, t, []);
  }

  lemma ProtocolEnter(s: State, i: nat, b: nat)
    requires FlushOk(s) && WorkOk(s) && BusyExact(s)
    requires i < |s.th| && s.th[i].pc == Enter(b) && b < |s.bios|
    ensures var s' := StepEnter(s, i, b); FlushOk(s') && WorkOk(s')
  {
    var s', t := StepEnter(s, i, b), s.th[i].(pc := AfterEnter(s.d, s.bios[b], b));
    WorkKept(s, s', i, t, []);
    CountedPositive(s, i, -1);
    if s.d.flushFlag {
      forall j | 0 <= j < |s'.d.slots| && s'.d.slots[j].state.DIRTY? ensures Ahead(s'.th, s'.aux.walker, j) {
        assert Ahead(s.th, s.aux.walker, j);
      }
    }
  }

  lemma ProtocolLook(s: State, i: nat, b: nat)
    requires FlushOk(s) && WorkOk(s) && BusyExact(s) && |s.aux.notes| == |s.d.slots|
    requires i < |s.th| && s.th[i].pc == Look(b) && b < |s.bios| && s.d.slots != []
    ensures var s' := StepLook(s, i, b); FlushOk(s') && WorkOk(s')
  {
    var j := SlotOf(|s.d.slots|, BlockOf(s.d.wide, s.bios[b]));
    var s', t := StepLook(s, i, b), s.th[i].(pc := AfterLook(FoundOf(s.d, s.bios[b]), b, j));
    CountedPositive(s, i, j);
    LookShape(s.d, b, s.bios[b], j);
    assert s'.d.slots[j].state.DIRTY? ==> s.d.slots[j].state.DIRTY?;
    assert s'.d.busy > 0;
    FlushKept(s, s', i, t, []);
    WorkKept(s, s', i, t, []);
  }

  lemma ProtocolCopy(s: State, i: nat, b: nat, j: nat)
    requires FlushOk(s) && WorkOk(s) && CanRun(s, i) && s.th[i].pc == Copy(b, j)
    ensures var s' := StepCopy(s, i, b, j); FlushOk(s') && WorkOk(s')
  {
    var s', t := StepCopy(s, i, b, j), s.th[i].(pc := Copied(j));
    FlushKept(s, s', i, t, []);
    WorkKept(s, s', i, t, []);
  }

  /** A block that becomes DIRTY during a flush is written at once, so the walk misses nothing. */
  lemma ProtocolCopied(s: State, i: nat, j: nat)
    requires FlushOk(s) && WorkOk(s) && i < |s.th| && j < |s.d.slots| && s.th[i].pc == Copied(j)
    ensures var s' := StepCopied(s, i, j); FlushOk(s') && WorkOk(s')
  {
    var s' := StepCopied(s, i, j);
    WorkKept(s, s', i, s'.th[i], []);
    if s.d.flushFlag {
      FlushKept(s, s', i, s'.th[i], []);
    }
  }

  lemma ProtocolWalk(s: State, i: nat, j: nat)
    requires FlushOk(s) && WorkOk(s) && |s.aux.notes| == |s.d.slots| && i < |s.th| && s.th[i].pc == Walk(j)
    ensures var s' := StepWalk(s, i, j); FlushOk(s') && WorkOk(s')
  {
    if j >= |s.d.slots| {
      Walked(s, StepWalk(s, i, j), i, s.th[i].(pc := Dec(Result([]))));
    } else if s.d.slots[j].state.DIRTY? {
      Walked(s, StepWalk(s, i, j), i, s.th[i].(pc := SubmitWalk(j)));
    } else {
      Walked(s, StepWalk(s, i, j), i, s.th[i].(pc := Walk(j + 1)));
    }
  }

  /** The walk only passes a slot that is not DIRTY any more. */
  lemma Walked(s: State, s': State, i: nat, t: Thread)
    requires FlushOk(s) && WorkOk(s) && i < |s.th| && s.th[i].pc.Walk? && s'.th == Moved(s.th, i, t, [])
    requires s'.d == s.d.(slots := s'.d.slots) && |s'.d.slots| == |s.d.slots|
    requires s'.aux == s.aux.(notes := s'.aux.notes)
    requires forall m :: 0 <= m < |s.d.slots| && s'.d.slots[m].state.DIRTY? ==> s.d.slots[m].state.DIRTY?
    requires forall m :: 0 <= m < |s.d.slots| && s'.d.slots[m].state.DIRTY? && s.th[i].pc.next <= m ==>
                         (t.pc.Walk? && t.pc.next <= m) || (t.pc.SubmitWalk? && t.pc.slot < m)
    requires t.pc != Take
    ensures FlushOk(s') && WorkOk(s')
  {
    WorkKept(s, s', i, t, []);
    if s'.d.flushFlag {
      forall m | 0 <= m < |s'.d.slots| && s'.d.slots[m].state.DIRTY? ensures Ahead(s'.th, s'.aux.walker, m) {
        assert Ahead(s.th, s.aux.walker, m);
      }
    }
  }

  lemma ProtocolSubmit(s: State, i: nat, j: nat, next: Pc)
    requires FlushOk(s) && WorkOk(s) && i < |s.th| && j < |s.d.slots| && |s.aux.notes| == |s.d.slots|
    requires (s.th[i].pc == SubmitWalk(j) && next == Walk(j + 1)) || (s.th[i].pc == SubmitOnce(j) && next == Dec(Result([])))
    ensures var s' := StepSubmit(s, i, j, next); FlushOk(s') && WorkOk(s')
  {
    var s', t := StepSubmit(s, i, j, next), s.th[i].(pc := next);
    WorkKept(s, s', i, t, [Forked(if s.d.stop then EndLock(j) else Writing(j))]);
    if s'.d.flushFlag {
      forall m | 0 <= m < |s'.d.slots| && s'.d.slots[m].state.DIRTY? ensures Ahead(s'.th, s'.aux.walker, m) {
        assert Ahead(s.th, s.aux.walker, m);
      }
    }
  }

  lemma ProtocolDec(s: State, i: nat, k: After)
    requires FlushOk(s) && WorkOk(s) && BusyExact(s) && i < |s.th| && s.th[i].pc == Dec(k)
    ensures var s' := StepDec(s, i, k); FlushOk(s') && WorkOk(s')
  {
    var s', t := StepDec(s, i, k), s.th[i].(pc := if s.d.busy == 1 then Ticket(k) else Then(k));
    WorkKept(s, s', i, t, []);
    CountedPositive(s, i, -1);
    if s'.d.flushFlag {
      forall m | 0 <= m < |s'.d.slots| && s'.d.slots[m].state.DIRTY? ensures Ahead(s'.th, s'.aux.walker, m) {
        assert Ahead(s.th, s.aux.walker, m);
      }
    }
  }

  lemma ProtocolTicket(s: State, i: nat, k: After)
    requires FlushOk(s) && WorkOk(s) && i < |s.th| && s.th[i].pc == Ticket(k)
    ensures var s' := StepTicket(s, i, k); FlushOk(s') && WorkOk(s')
  {
    var s' := StepTicket(s, i, k);
    WorkKept(s, s', i, s'.th[i], []);
  }

  /** Queueing schedules a work item exactly when the work lists were empty. */
  lemma ProtocolQueued(s: State, i: nat, t: Thread, ready: seq<nat>, flushes: seq<nat>)
    requires FlushOk(s) && WorkOk(s) && i < |s.th|
    requires s.th[i].pc.Hand? || s.th[i].pc.Then?
    requires t.pc != Take
    ensures var s' := Queued(s, i, t, ready, flushes); FlushOk(s') && WorkOk(s')
  {
    var s' := Queued(s, i, t, ready, flushes);
    FlushKept(s, s', i, t, if NeedsWorker(s.d, ready, flushes) then [Forked(Take)] else []);
    forall k | 0 <= k < |s'.th| && s'.th[k].pc == Take ensures k == s'.aux.worker && HasWork(s'.d) {
      assert k < |s.th| ==> s.th[k].pc == Take;
    }
  }

  lemma ProtocolThen(s: State, i: nat, k: After)
    requires FlushOk(s) && WorkOk(s) && i < |s.th| && s.th[i].pc == Then(k)
    ensures var s' := StepThen(s, i, k); FlushOk(s') && WorkOk(s')
  {
    if k.Release? {
      ProtocolQueued(s, i, s.th[i].(pc := Done), k.rel, []);
    } else {
      var s' := StepThen(s, i, k);
      var fork := if s.th[i].own || k.out == [] then [] else [Forked(Storage(k.out[0]))];
      FlushKept(s, s', i, s'.th[i], fork);
      WorkKept(s, s', i, s'.th[i], fork);
    }
  }

  lemma ProtocolPop(s: State, i: nat)
    requires FlushOk(s) && WorkOk(s) && i < |s.th| && s.th[i].pc == Pop
    ensures var s' := StepPop(s, i); FlushOk(s') && WorkOk(s')
  {
    var s' := StepPop(s, i);
    FlushKept(s, s', i, s'.th[i], []);
    WorkKept(s, s', i, s'.th[i], []);
  }

  lemma ProtocolTake(s: State, i: nat)
    requires FlushOk(s) && WorkOk(s) && i < |s.th| && s.th[i].pc == Take
    ensures var s' := StepTake(s, i); FlushOk(s') && WorkOk(s')
  {
    var s' := StepTake(s, i);
    FlushKept(s, s', i, s'.th[i], []);
    forall k | 0 <= k < |s.th| && k != i ensures s'.th[k].pc != Take {
      assert s.th[i].pc == Take;
    }
  }

  lemma ProtocolFlushes(s: State, i: nat, left: seq<nat>)
    requires FlushOk(s) && WorkOk(s) && i < |s.th| && s.th[i].pc == Flushes(left)
    ensures var s' := StepFlushes(s, i, left); FlushOk(s') && WorkOk(s')
  {
    var s' := StepFlushes(s, i, left);
    var fork := if left == [] || FlushRefused(s.d) then [] else [Forked(Storage(left[0]))];
    FlushKept(s, s', i, s'.th[i], fork);
    WorkKept(s, s', i, s'.th[i], fork);
  }

  lemma ProtocolStorage(s: State, i: nat, b: nat)
    requires FlushOk(s) && WorkOk(s) && i < |s.th| && s.th[i].pc == Storage(b) && b < |s.bios|
    ensures var s' := StepStorage(s, i, b); FlushOk(s') && WorkOk(s')
  {
    var s' := StepStorage(s, i, b);
    FlushKept(s, s', i, s'.th[i], []);
    WorkKept(s, s', i, s'.th[i], []);
  }

  lemma ProtocolWriting(s: State, i: nat, j: nat)
    requires FlushOk(s) && WorkOk(s) && i < |s.th| && s.th[i].pc == Writing(j)
    requires j < |s.d.slots| && s.d.slots[j].block < |s.disk|
    ensures var s' := StepWriting(s, i, j); FlushOk(s') && WorkOk(s')
  {
    var s' := StepWriting(s, i, j);
    FlushKept(s, s', i, s'.th[i], []);
    WorkKept(s, s', i, s'.th[i], []);
  }

  lemma ProtocolEndLock(s: State, i: nat, j: nat)
    requires FlushOk(s) && WorkOk(s) && i < |s.th| && s.th[i].pc == EndLock(j) && j < |s.d.slots|
    ensures var s' := StepEndLock(s, i, j); FlushOk(s') && WorkOk(s')
  {
    var s' := StepEndLock(s, i, j);
    FlushKept(s, s', i, s'.th[i], []);
    WorkKept(s, s', i, s'.th[i], []);
  }

  lemma ProtocolAccept(s: State, bio: Bio)
    requires FlushOk(s) && WorkOk(s) && CanAccept(s, bio)
    ensures var s' := Next(s, Accept(bio)); FlushOk(s') && WorkOk(s')
  {
    var s' := Next(s, Accept(bio));
    forall k | 0 <= k < |s'.th| && s'.th[k].pc == Take ensures k == s'.aux.worker && HasWork(s'.d) {
      assert k < |s.th| && s.th[k].pc == Take;
    }
    if s'.d.flushFlag {
      forall j | 0 <= j < |s'.d.slots| && s'.d.slots[j].state.DIRTY? ensures Ahead(s'.th, s'.aux.walker, j) {
        assert Ahead(s.th, s.aux.walker, j);
      }
    }
  }
}
