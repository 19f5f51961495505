/**
 Progress: with no new bios, every section lowers a rank, and a device on which no thread can run
 has ended every bio. So whatever order the threads run in, every bio ends and every flush finishes.
 */
module DoryProgress {
  import opened DoryDisk
  import opened DorySections
  import opened DoryMachine
  import opened DoryTally
  import opened DoryStructure
  import opened DoryStructureSteps
  import opened DoryAccounts
  import opened DoryProtocol
  import opened DoryInv
  import opened Sums

  // ---- The rank ----

  /** Bios in flight. */
  function InFlight(s: State): int { |s.bios| - |s.done| }

  /** Flushes that no flush section has completed yet, counting calls that may still be one. */
  function Unflushed(s: State): nat { Calls(s.th) + |s.d.flushBios| }

  /** What will still release the waiters of some slot. */
  function Releases(s: State): nat { Copies(s.th) + Weight(s.d.slots) }

  /** Bios that will be processed again. */
  function Requeued(s: State): nat { Movers(s.th) + |s.d.workBios| }

  /** Sections left, if nothing is requeued. */
  function ToRun(s: State): nat { Sections(|s.d.slots|, s.th) + 2 * |s.d.workFlush| }

  predicate Lower(s': State, s: State)
  {
    || InFlight(s') < InFlight(s)
    || (InFlight(s') == InFlight(s) &&
        (|| Unflushed(s') < Unflushed(s)
         || (Unflushed(s') == Unflushed(s) &&
             (|| Releases(s') < Releases(s)
              || (Releases(s') == Releases(s) &&
                  (|| Requeued(s') < Requeued(s)
                   || (Requeued(s') == Requeued(s) && ToRun(s') < ToRun(s))))))))
  }

  function Of(f: (nat, Thread) -> nat, n: nat, fork: seq<Thread>): nat { if fork == [] then 0 else f(n, fork[0]) }

  function WeightAt(slots: seq<Slot>, j: int): nat { if 0 <= j < |slots| then Weight1(0, slots[j]) else 0 }

  /** How one thread, its fork and one slot change each part of the rank. */
  predicate LowerHere(s: State, s': State, t0: Thread, t: Thread, fork: seq<Thread>, j: int)
  {
    var n := |s.d.slots|;
    var a := Call1(0, t) + Of(Call1, 0, fork) + |s'.d.flushBios| - Call1(0, t0) - |s.d.flushBios|;
    var b := Copied1(0, t) + Of(Copied1, 0, fork) + WeightAt(s'.d.slots, j) - Copied1(0, t0) - WeightAt(s.d.slots, j);
    var c := Moving1(0, t) + Of(Moving1, 0, fork) + |s'.d.workBios| - Moving1(0, t0) - |s.d.workBios|;
    var e := Work1(n, t) + Of(Work1, n, fork) + 2 * |s'.d.workFlush| - Work1(n, t0) - 2 * |s.d.workFlush|;
    |s'.done| > |s.done| || a < 0 || (a == 0 && (b < 0 || (b == 0 && (c < 0 || (c == 0 && e < 0)))))
  }

  lemma RankDrops(s: State, s': State, i: nat, t: Thread, fork: seq<Thread>, j: int)
    requires i < |s.th| && |fork| <= 1 && s'.th == Moved(s.th, i, t, fork) && OneSlot(s, s', j)
    requires s'.bios == s.bios && |s.done| <= |s'.done|
    requires LowerHere(s, s', s.th[i], t, fork, j)
    ensures Lower(s', s)
  {
    TotalMovedBy(Call1, 0, s.th, i, t, fork);
    TotalMovedBy(Copied1, 0, s.th, i, t, fork);
    TotalMovedBy(Moving1, 0, s.th, i, t, fork);
    TotalMovedBy(Work1, |s.d.slots|, s.th, i, t, fork);
    if 0 <= j < |s.d.slots| {
      TotalAt(Weight1, 0, s.d.slots, j, s'.d.slots[j]);
    }
  }

  // ---- Sections ----

  lemma RankStart(s: State, i: nat, b: nat)
    requires i < |s.th| && s.th[i].pc == Start(b) && b < |s.bios|
    ensures Lower(StepStart(s, i, b), s)
  {
    RankDrops(s, StepStart(s, i, b), i, s.th[i].(pc := AfterStart(s.d, s.bios[b], b)), [], -1);
  }

  lemma RankEnter(s: State, i: nat, b: nat)
    requires i < |s.th| && s.th[i].pc == Enter(b) && b < |s.bios| && s.d.slots != []
    requires s.th[i].own || !IsFlush(s.bios[b])
    ensures Lower(StepEnter(s, i, b), s)
  {
    RankDrops(s, StepEnter(s, i, b), i, s.th[i].(pc := AfterEnter(s.d, s.bios[b], b)), [], -1);
  }

  lemma RankLook(s: State, i: nat, b: nat)
    requires i < |s.th| && s.th[i].pc == Look(b) && b < |s.bios| && s.d.slots != [] && |s.aux.notes| == |s.d.slots|
    ensures Lower(StepLook(s, i, b), s)
  {
    var j := SlotOf(|s.d.slots|, BlockOf(s.d.wide, s.bios[b]));
    LookShape(s.d, b, s.bios[b], j);
    RankDrops(s, StepLook(s, i, b), i, s.th[i].(pc := AfterLook(FoundOf(s.d, s.bios[b]), b, j)), [], j);
  }

  lemma RankCopy(s: State, i: nat, b: nat, j: nat)
    requires CanRun(s, i) && s.th[i].pc == Copy(b, j)
    ensures Lower(StepCopy(s, i, b, j), s)
  {
  }

  lemma RankCopied(s: State, i: nat, j: nat)
    requires i < |s.th| && j < |s.d.slots| && s.th[i].pc == Copied(j) && s.d.slots[j].state.COPYING?
    ensures Lower(StepCopied(s, i, j), s)
  {
    var s' := StepCopied(s, i, j);
    RankDrops(s, s', i, s'.th[i], [], j);
  }

  lemma RankWalk(s: State, i: nat, j: nat)
    requires i < |s.th| && s.th[i].pc == Walk(j) && j <= |s.d.slots| == |s.aux.notes|
    ensures Lower(StepWalk(s, i, j), s)
  {
    RankDrops(s, StepWalk(s, i, j), i, s.th[i].(pc := AfterWalk(s.d, j)), [], if DirtyAt(s.d, j) then j else -1);
  }

  lemma RankSubmit(s: State, i: nat, j: nat)
    requires i < |s.th| && j < |s.d.slots| == |s.aux.notes|
    requires s.th[i].pc == SubmitWalk(j) || s.th[i].pc == SubmitOnce(j)
    ensures Lower(StepSubmit(s, i, j, AfterSubmit(s.th[i].pc)), s)
  {
    RankDrops(s, StepSubmit(s, i, j, AfterSubmit(s.th[i].pc)), i, s.th[i].(pc := AfterSubmit(s.th[i].pc)),
              [Forked(if s.d.stop then EndLock(j) else Writing(j))], -1);
  }

  lemma RankDec(s: State, i: nat, k: After)
    requires i < |s.th| && s.th[i].pc == Dec(k)
    ensures Lower(StepDec(s, i, k), s)
  {
    RankDrops(s, StepDec(s, i, k), i, s.th[i].(pc := if s.d.busy == 1 then Ticket(k) else Then(k)), [], -1);
  }

  lemma RankTicket(s: State, i: nat, k: After)
    requires i < |s.th| && s.th[i].pc == Ticket(k) && (s.d.flushFlag ==> s.d.flushBios != [])
    ensures Lower(StepTicket(s, i, k), s)
  {
    var s' := StepTicket(s, i, k);
    RankDrops(s, s', i, s'.th[i], [], -1);
  }

  lemma RankHand(s: State, i: nat, k: After, ready: seq<nat>, flushes: seq<nat>)
    requires i < |s.th| && s.th[i].pc == Hand(k, ready, flushes)
    ensures Lower(Queued(s, i, s.th[i].(pc := Then(k)), ready, flushes), s)
  {
    RankDrops(s, Queued(s, i, s.th[i].(pc := Then(k)), ready, flushes), i, s.th[i].(pc := Then(k)),
              if NeedsWorker(s.d, ready, flushes) then [Forked(Take)] else [], -1);
  }

  lemma RankThen(s: State, i: nat, k: After)
    requires i < |s.th| && s.th[i].pc == Then(k)
    ensures Lower(StepThen(s, i, k), s)
  {
    if k.Release? {
      RankRelease(s, i, k);
    } else {
      RankResult(s, i, k);
    }
  }

  lemma RankRelease(s: State, i: nat, k: After)
    requires i < |s.th| && s.th[i].pc == Then(k) && k.Release?
    ensures Lower(StepThen(s, i, k), s)
  {
    var s' := StepThen(s, i, k);
    RankDrops(s, s', i, s.th[i].(pc := Done), if NeedsWorker(s.d, k.rel, []) then [Forked(Take)] else [], -1);
  }

  lemma RankResult(s: State, i: nat, k: After)
    requires i < |s.th| && s.th[i].pc == Then(k) && k.Result?
    ensures Lower(StepThen(s, i, k), s)
  {
    var s' := StepThen(s, i, k);
    RankDrops(s, s', i, s'.th[i], if s.th[i].own || k.out == [] then [] else [Forked(Storage(k.out[0]))], -1);
  }

  lemma RankPop(s: State, i: nat)
    requires i < |s.th| && s.th[i].pc == Pop && !s.th[i].own
    ensures Lower(StepPop(s, i), s)
  {
    var s' := StepPop(s, i);
    RankDrops(s, s', i, s'.th[i], [], -1);
  }

  lemma RankTake(s: State, i: nat)
    requires i < |s.th| && s.th[i].pc == Take && s.th[i].ready == []
    ensures Lower(StepTake(s, i), s)
  {
    var s' := StepTake(s, i);
    RankDrops(s, s', i, s'.th[i], [], -1);
  }

  lemma RankFlushes(s: State, i: nat, left: seq<nat>)
    requires i < |s.th| && s.th[i].pc == Flushes(left)
    ensures Lower(StepFlushes(s, i, left), s)
  {
    var s' := StepFlushes(s, i, left);
    RankDrops(s, s', i, s'.th[i], if left == [] || FlushRefused(s.d) then [] else [Forked(Storage(left[0]))], -1);
  }

  lemma RankWriting(s: State, i: nat, j: nat)
    requires i < |s.th| && s.th[i].pc == Writing(j) && j < |s.d.slots| && s.d.slots[j].block < |s.disk|
    ensures Lower(StepWriting(s, i, j), s)
  {
    RankDrops(s, StepWriting(s, i, j), i, s.th[i].(pc := EndLock(j)), [], -1);
  }

  lemma RankEndLock(s: State, i: nat, j: nat)
    requires i < |s.th| && s.th[i].pc == EndLock(j) && j < |s.d.slots| && s.d.slots[j].state.WRITING?
    ensures Lower(StepEndLock(s, i, j), s)
  {
    var s' := StepEndLock(s, i, j);
    RankDrops(s, s', i, s'.th[i], [], j);
  }

  lemma RankCall(s: State, i: nat)
    requires Structure(s) && CanRun(s, i) && InCall(s.th[i].pc)
    ensures Lower(RunCall(s, i), s)
  {
    assert ThreadOk(s, i, s.th[i]);
    match s.th[i].pc
    case Start(b) => RankStart(s, i, b);
    case Enter(b) => RankEnter(s, i, b);
    case Look(b) => RankLook(s, i, b);
    case Copy(b, j) => RankCopy(s, i, b, j);
    case Copied(j) => RankCopied(s, i, j);
  }

  lemma RankFlush(s: State, i: nat)
    requires Structure(s) && CanRun(s, i) && InFlush(s.th[i].pc)
    ensures Lower(RunFlush(s, i), s)
  {
    assert ThreadOk(s, i, s.th[i]);
    match s.th[i].pc
    case Walk(j) => RankWalk(s, i, j);
    case SubmitWalk(j) => RankSubmit(s, i, j);
    case SubmitOnce(j) => RankSubmit(s, i, j);
  }

  lemma RankRest(s: State, i: nat)
    requires Structure(s) && FlushOk(s) && CanRun(s, i) && !InCall(s.th[i].pc) && !InFlush(s.th[i].pc)
    ensures Lower(RunRest(s, i), s)
  {
    assert ThreadOk(s, i, s.th[i]);
    match s.th[i].pc
    case Dec(k) => RankDec(s, i, k);
    case Ticket(k) => RankTicket(s, i, k);
    case Hand(k, ready, flushes) => RankHand(s, i, k, ready, flushes);
    case Then(k) => RankThen(s, i, k);
    case Pop => RankPop(s, i);
    case Take => RankTake(s, i);
    case Flushes(left) => RankFlushes(s, i, left);
    case Storage(b) =>
    case Writing(j) => RankWriting(s, i, j);
    case EndLock(j) => RankEndLock(s, i, j);
  }

  /** Every section of every thread lowers the rank. */
  lemma RunLowers(s: State, i: nat)
    requires Inv(s) && CanRun(s, i)
    ensures Lower(RunThread(s, i), s)
  {
    if InCall(s.th[i].pc) {
      RankCall(s, i);
    } else if InFlush(s.th[i].pc) {
      RankFlush(s, i);
    } else {
      RankRest(s, i);
    }
  }

  // ---- Nothing left to run ----

  predicate AllDone(s: State) { forall i :: 0 <= i < |s.th| ==> s.th[i].pc.Done? }

  lemma DoneHoldNothing(s: State, id: nat)
    requires Structure(s) && AllDone(s)
    ensures Undecided(s.th, id) == 0 && Outgoing(s.th, id) == 0 && Waiting(s.d.slots, id) == 0 && Active(s.th) == 0
  {
    forall i | 0 <= i < |s.th| ensures In1(id, s.th[i]) == 0 && Out1(id, s.th[i]) == 0 && Busy1(0, s.th[i]) == 0 {
      assert ThreadOk(s, i, s.th[i]);
    }
    TotalZero(In1, id, s.th);
    TotalZero(Out1, id, s.th);
    TotalZero(Busy1, 0, s.th);
    forall j | 0 <= j < |s.d.slots| ensures Waiters1(id, s.d.slots[j]) == 0 {
      assert SlotOk(s, j) && OwnerOk(s, j);
    }
    TotalZero(Waiters1, id, s.d.slots);
  }

  /** When every thread is done, no flush is in progress, no slot is busy and every bio has ended. */
  lemma DoneMeansEnded(s: State)
    requires Inv(s) && AllDone(s)
    ensures !s.d.flushFlag && s.d.flushBios == [] && s.d.waiting == [] && !HasWork(s.d)
    ensures forall j :: 0 <= j < |s.d.slots| ==> s.d.slots[j].state.EMPTY? || s.d.slots[j].state.DIRTY?
    ensures forall id :: 0 <= id < |s.bios| ==> Ended(s, id)
  {
    DoneHoldNothing(s, 0);
    forall j | 0 <= j < |s.d.slots| ensures !Owned(s.d.slots[j]) {
      assert OwnerOk(s, j);
    }
    OccupiedZero(s.d.slots);
    forall id | 0 <= id < |s.bios| ensures Ended(s, id) {
      assert Places(s, id) == 1;
      DoneHoldNothing(s, id);
      EndingsIff(s.done, id);
    }
  }

  // ---- Every schedule ----

  /** What happens next, no bios being added: the torn-write settings may change, the device may be
      stopped, and then thread i runs. */
  datatype Choice = Choice(mask: TornMask, modulus: TornModulus, stop: bool, i: nat)

  function Adjusted(s: State, c: Choice): State
  {
    var s1 := Next(s, SetTorn(c.mask, c.modulus));
    if c.stop then Next(s1, SetStop) else s1
  }

  function Last(run: seq<State>): State
    requires run != []
  {
    run[|run| - 1]
  }

  /** A scheduler: from all that happened so far it names a thread that can run, if there is one. */
  ghost predicate Scheduler(pick: seq<State> -> Choice)
  {
    forall run {:trigger pick(run)} :: run != [] && Inv(Last(run)) && !AllDone(Last(run)) ==> CanRun(Last(run), pick(run).i)
  }

  lemma Adjusts(s: State, c: Choice)
    requires Inv(s) && CanRun(s, c.i)
    ensures var s1 := Adjusted(s, c);
            && Inv(s1) && CanRun(s1, c.i) && s1.bios == s.bios && s1.done == s.done && s1.th == s.th
            && s1.d.slots == s.d.slots && s1.d.flushBios == s.d.flushBios
            && s1.d.workBios == s.d.workBios && s1.d.workFlush == s.d.workFlush
  {
    var s1 := Next(s, SetTorn(c.mask, c.modulus));
    InvNext(s, SetTorn(c.mask, c.modulus));
    InvNext(s1, SetStop);
  }

  /** One turn of the scheduler keeps the invariant, adds no bio and lowers the rank. */
  lemma Turn(s: State, c: Choice)
    requires Inv(s) && CanRun(s, c.i)
    ensures CanRun(Adjusted(s, c), c.i)
    ensures var s2 := RunThread(Adjusted(s, c), c.i); Inv(s2) && Lower(s2, s) && s2.bios == s.bios
  {
    Adjusts(s, c);
    var s1 := Adjusted(s, c);
    InvRun(s1, c.i);
    RunLowers(s1, c.i);
    SameBios(s1, c.i);
  }

  /** A run with one choice carried out. */
  function Scheduled(run: seq<State>, c: Choice): (r: seq<State>)
    requires run != [] && CanRun(Adjusted(Last(run), c), c.i)
    ensures run <= r && Last(r) == RunThread(Adjusted(Last(run), c), c.i)
  {
    run + [Next(Last(run), SetTorn(c.mask, c.modulus))] + (if c.stop then [Adjusted(Last(run), c)] else [])
    + [RunThread(Adjusted(Last(run), c), c.i)]
  }

  /** The states a scheduler takes the device through, until no thread can run. */
  ghost function Drained(run: seq<State>, pick: seq<State> -> Choice): seq<State>
    requires run != [] && Inv(Last(run)) && Scheduler(pick)
    decreases InFlight(Last(run)), Unflushed(Last(run)), Releases(Last(run)), Requeued(Last(run)), ToRun(Last(run))
  {
    var s := Last(run);
    EndedBound(s);
    if AllDone(s) then run
    else
      var c := pick(run);
      Turn(s, c);
      var s2 := RunThread(Adjusted(s, c), c.i);
      EndedBound(s2);
      Drained(Scheduled(run, c), pick)
  }

  lemma OneMore(run: seq<State>, step: Step)
    requires IsRun(run) && Enabled(Last(run), step)
    ensures IsRun(run + [Next(Last(run), step)])
  {
    var longer := run + [Next(Last(run), step)];
    assert Follows(Last(run), Next(Last(run), step));
    forall p | 0 < p < |longer| ensures Follows(longer[p - 1], longer[p]) {
      if p < |run| {
        assert Follows(run[p - 1], run[p]);
      }
    }
  }

  lemma TurnInRun(run: seq<State>, c: Choice)
    requires IsRun(run) && CanRun(Adjusted(Last(run), c), c.i)
    ensures IsRun(Scheduled(run, c))
  {
    var s := Last(run);
    var run1 := run + [Next(s, SetTorn(c.mask, c.modulus))];
    OneMore(run, SetTorn(c.mask, c.modulus));
    var run2 := run1 + if c.stop then [Adjusted(s, c)] else [];
    if c.stop {
      OneMore(run1, SetStop);
    } else {
      assert run2 == run1;
    }
    assert Last(run2) == Adjusted(s, c);
    OneMore(run2, Run(c.i));
  }

  /** Every run, continued by any scheduler with any settings and stops in between but no new bios, comes
      to an end with every accepted bio ended. */
  lemma EverySchedule(run: seq<State>, pick: seq<State> -> Choice)
    requires IsRun(run) && Inv(Last(run)) && Scheduler(pick)
    ensures var r := Drained(run, pick);
            && IsRun(r) && run <= r && AllDone(Last(r)) && Last(r).bios == Last(run).bios
            && !Last(r).d.flushFlag && Last(r).d.flushBios == [] && Last(r).d.waiting == []
            && forall id :: 0 <= id < |Last(r).bios| ==> Ended(Last(r), id)
    decreases InFlight(Last(run)), Unflushed(Last(run)), Releases(Last(run)), Requeued(Last(run)), ToRun(Last(run))
  {
    var s := Last(run);
    EndedBound(s);
    if AllDone(s) {
      DoneMeansEnded(s);
    } else {
      var c := pick(run);
      Turn(s, c);
      TurnInRun(run, c);
      var s2 := RunThread(Adjusted(s, c), c.i);
      EndedBound(s2);
      EverySchedule(Scheduled(run, c), pick);
    }
  }

  lemma SameBios(s: State, i: nat)
    requires CanRun(s, i)
    ensures RunThread(s, i).bios == s.bios && RunThread(s, i).d.wide == s.d.wide
  {
  }

  /** There is always a thread to run, unless every thread is done. */
  lemma NoDeadlock(s: State)
    requires Inv(s)
    ensures AllDone(s) || exists i: nat :: CanRun(s, i)
  {
    if i :| 0 <= i < |s.th| && !s.th[i].pc.Done? {
      StructureBounds(s, i);
      assert CanRun(s, i);
    }
  }

  /** Some choice that can be made, if there is one. */
  ghost function AnyChoice(run: seq<State>): Choice
  {
    if run != [] && exists i: nat :: CanRun(Last(run), i) then
      var i: nat :| CanRun(Last(run), i);
      Choice(0xFFFF_FFFF, 8, false, i)
    else Choice(0xFFFF_FFFF, 8, false, 0)
  }

  lemma AnyChoiceSchedules()
    ensures Scheduler(AnyChoice)
  {
    forall run | run != [] && Inv(Last(run)) && !AllDone(Last(run)) ensures CanRun(Last(run), AnyChoice(run).i) {
      NoDeadlock(Last(run));
    }
  }
}
