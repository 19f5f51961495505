/**
 The invariant of the Dory machine: it holds in every state of every run.
 */
module DoryInv {
  import opened DoryDisk
  import opened DoryMachine
  import opened DoryTally
  import opened DoryStructure
  import opened DoryStructureSteps
  import opened DoryAccounts
  import opened DoryProtocol
  import opened DoryCache
  import opened DoryView
  import opened DoryCrash
  import opened Sums

  ghost predicate Inv(s: State)
  {
    && Structure(s)
    && BusyExact(s) && Conserved(s)
    && FlushOk(s) && WorkOk(s)
    && CacheOk(s)
    && ViewOk(s) && LegalOk(s) && LostOk(s)
    && CrashOk(s)
  }

  /** A step that takes no effect on any data. */
  predicate Quiet(s: State, s': State)
    requires |s.aux.notes| == |s.d.slots|
  {
    && SameView(s, s') && NoNewBlock(s, s')
    && forall j :: 0 <= j < |s.d.slots| ==> s'.aux.notes[j].since == s.aux.notes[j].since
  }

  lemma InvQuiet(s: State, s': State)
    requires Inv(s) && Structure(s') && BusyExact(s') && FlushOk(s') && WorkOk(s') && CacheOk(s')
    requires Quiet(s, s')
    requires forall id: nat {:trigger Places(s', id)} :: Places(s', id) == Places(s, id)
    ensures Inv(s')
  {
    ViewKept(s, s');
    CrashKept(s, s');
  }

  lemma QuietStart(s: State, i: nat, b: nat)
    requires |s.aux.notes| == |s.d.slots| && i < |s.th| && b < |s.bios|
    ensures Quiet(s, StepStart(s, i, b))
  {
  }

  lemma QuietEnter(s: State, i: nat, b: nat)
    requires |s.aux.notes| == |s.d.slots| && i < |s.th| && b < |s.bios|
    ensures Quiet(s, StepEnter(s, i, b))
  {
  }

  lemma QuietCopied(s: State, i: nat, j: nat)
    requires |s.aux.notes| == |s.d.slots| && i < |s.th| && j < |s.d.slots| && !s.d.slots[j].state.EMPTY?
    ensures Quiet(s, StepCopied(s, i, j))
  {
  }

  lemma QuietWalk(s: State, i: nat, j: nat)
    requires |s.aux.notes| == |s.d.slots| && i < |s.th|
    ensures Quiet(s, StepWalk(s, i, j))
  {
  }

  lemma QuietSubmit(s: State, i: nat, j: nat, next: Pc)
    requires |s.aux.notes| == |s.d.slots| && i < |s.th| && j < |s.d.slots|
    ensures Quiet(s, StepSubmit(s, i, j, next))
  {
  }

  lemma QuietDec(s: State, i: nat, k: After)
    requires |s.aux.notes| == |s.d.slots| && i < |s.th|
    ensures Quiet(s, StepDec(s, i, k))
  {
  }

  lemma QuietTicket(s: State, i: nat, k: After)
    requires |s.aux.notes| == |s.d.slots| && i < |s.th|
    ensures Quiet(s, StepTicket(s, i, k))
  {
  }

  lemma QuietQueued(s: State, i: nat, t: Thread, ready: seq<nat>, flushes: seq<nat>)
    requires |s.aux.notes| == |s.d.slots| && i < |s.th|
    ensures Quiet(s, Queued(s, i, t, ready, flushes))
  {
  }

  lemma QuietThen(s: State, i: nat, k: After)
    requires |s.aux.notes| == |s.d.slots| && i < |s.th|
    ensures Quiet(s, StepThen(s, i, k))
  {
    if k.Release? {
      QuietQueued(s, i, s.th[i].(pc := Done), k.rel, []);
    }
  }

  lemma QuietPop(s: State, i: nat)
    requires |s.aux.notes| == |s.d.slots| && i < |s.th|
    ensures Quiet(s, StepPop(s, i))
  {
  }

  lemma QuietTake(s: State, i: nat)
    requires |s.aux.notes| == |s.d.slots| && i < |s.th|
    ensures Quiet(s, StepTake(s, i))
  {
  }

  lemma QuietFlushes(s: State, i: nat, left: seq<nat>)
    requires |s.aux.notes| == |s.d.slots| && i < |s.th|
    ensures Quiet(s, StepFlushes(s, i, left))
  {
  }

  // ---- Sections ----

  lemma InvStart(s: State, i: nat, b: nat)
    requires Inv(s) && CanRun(s, i) && s.th[i].pc == Start(b)
    ensures Inv(StepStart(s, i, b))
  {
    var s' := StepStart(s, i, b);
    assert ThreadOk(s, i, s.th[i]);
    QuietStart(s, i, b);
    StructureStart(s, i, b);
    ProtocolStart(s, i, b);
    CacheStart(s, i, b);
    forall id: nat ensures BusyExact(s') && Places(s', id) == Places(s, id) {
      AccountStart(s, i, b, id);
    }
    assert Places(s', 0) == Places(s, 0);
    InvQuiet(s, s');
  }

  lemma InvEnter(s: State, i: nat, b: nat)
    requires Inv(s) && CanRun(s, i) && s.th[i].pc == Enter(b)
    ensures Inv(StepEnter(s, i, b))
  {
    var s' := StepEnter(s, i, b);
    assert ThreadOk(s, i, s.th[i]);
    QuietEnter(s, i, b);
    StructureEnter(s, i, b);
    ProtocolEnter(s, i, b);
    CacheEnter(s, i, b);
    forall id: nat ensures BusyExact(s') && Places(s', id) == Places(s, id) {
      AccountEnter(s, i, b, id);
    }
    assert Places(s', 0) == Places(s, 0);
    InvQuiet(s, s');
  }

  lemma InvLook(s: State, i: nat, b: nat)
    requires Inv(s) && CanRun(s, i) && s.th[i].pc == Look(b)
    ensures Inv(StepLook(s, i, b))
  {
    var s' := StepLook(s, i, b);
    assert ThreadOk(s, i, s.th[i]);
    StructureLook(s, i, b);
    ProtocolLook(s, i, b);
    CacheLook(s, i, b);
    forall id: nat ensures BusyExact(s') && Places(s', id) == Places(s, id) {
      AccountLook(s, i, b, id);
    }
    assert Places(s', 0) == Places(s, 0);
    ViewLook(s, i, b);
    CrashLook(s, i, b);
  }

  lemma InvCopy(s: State, i: nat, b: nat, j: nat)
    requires Inv(s) && CanRun(s, i) && s.th[i].pc == Copy(b, j)
    ensures Inv(StepCopy(s, i, b, j))
  {
    var s' := StepCopy(s, i, b, j);
    assert ThreadOk(s, i, s.th[i]);
    StructureCopy(s, i, b, j);
    ProtocolCopy(s, i, b, j);
    CacheCopy(s, i, b, j);
    forall id: nat ensures BusyExact(s') && Places(s', id) == Places(s, id) {
      AccountCopy(s, i, b, j, id);
    }
    assert Places(s', 0) == Places(s, 0);
    ViewCopy(s, i, b, j);
    CrashCopy(s, i, b, j);
  }

  lemma InvCopied(s: State, i: nat, j: nat)
    requires Inv(s) && CanRun(s, i) && s.th[i].pc == Copied(j)
    ensures Inv(StepCopied(s, i, j))
  {
    var s' := StepCopied(s, i, j);
    assert ThreadOk(s, i, s.th[i]);
    QuietCopied(s, i, j);
    StructureCopied(s, i, j);
    ProtocolCopied(s, i, j);
    CacheCopied(s, i, j);
    forall id: nat ensures BusyExact(s') && Places(s', id) == Places(s, id) {
      AccountCopied(s, i, j, id);
    }
    assert Places(s', 0) == Places(s, 0);
    InvQuiet(s, s');
  }

  lemma InvWalk(s: State, i: nat, j: nat)
    requires Inv(s) && CanRun(s, i) && s.th[i].pc == Walk(j)
    ensures Inv(StepWalk(s, i, j))
  {
    var s' := StepWalk(s, i, j);
    assert ThreadOk(s, i, s.th[i]);
    QuietWalk(s, i, j);
    StructureWalk(s, i, j);
    ProtocolWalk(s, i, j);
    CacheWalk(s, i, j);
    forall id: nat ensures BusyExact(s') && Places(s', id) == Places(s, id) {
      AccountWalk(s, i, j, id);
    }
    assert Places(s', 0) == Places(s, 0);
    InvQuiet(s, s');
  }

  lemma InvSubmit(s: State, i: nat, j: nat, next: Pc)
    requires Inv(s) && CanRun(s, i) && j < |s.d.slots|
    requires (s.th[i].pc == SubmitWalk(j) && next == Walk(j + 1)) || (s.th[i].pc == SubmitOnce(j) && next == Dec(Result([])))
    ensures Inv(StepSubmit(s, i, j, next))
  {
    var s' := StepSubmit(s, i, j, next);
    assert ThreadOk(s, i, s.th[i]);
    QuietSubmit(s, i, j, next);
    StructureSubmit(s, i, j, next);
    ProtocolSubmit(s, i, j, next);
    CacheSubmit(s, i, j, next);
    forall id: nat ensures BusyExact(s') && Places(s', id) == Places(s, id) {
      AccountSubmit(s, i, j, next, id);
    }
    assert Places(s', 0) == Places(s, 0);
    InvQuiet(s, s');
  }

  lemma InvDec(s: State, i: nat, k: After)
    requires Inv(s) && CanRun(s, i) && s.th[i].pc == Dec(k)
    ensures Inv(StepDec(s, i, k))
  {
    var s' := StepDec(s, i, k);
    assert ThreadOk(s, i, s.th[i]);
    QuietDec(s, i, k);
    StructureDec(s, i, k);
    ProtocolDec(s, i, k);
    CacheDec(s, i, k);
    forall id: nat ensures BusyExact(s') && Places(s', id) == Places(s, id) {
      AccountDec(s, i, k, id);
    }
    assert Places(s', 0) == Places(s, 0);
    InvQuiet(s, s');
  }

  lemma InvTicket(s: State, i: nat, k: After)
    requires Inv(s) && CanRun(s, i) && s.th[i].pc == Ticket(k)
    ensures Inv(StepTicket(s, i, k))
  {
    var s' := StepTicket(s, i, k);
    assert ThreadOk(s, i, s.th[i]);
    StructureTicket(s, i, k);
    ProtocolTicket(s, i, k);
    CacheTicket(s, i, k);
    forall id: nat ensures BusyExact(s') && Places(s', id) == Places(s, id) {
      AccountTicket(s, i, k, id);
    }
    assert Places(s', 0) == Places(s, 0);
    QuietTicket(s, i, k);
    InvQuiet(s, s');
  }

  lemma InvHand(s: State, i: nat, k: After, ready: seq<nat>, flushes: seq<nat>)
    requires Inv(s) && CanRun(s, i) && s.th[i].pc == Hand(k, ready, flushes)
    ensures Inv(Queued(s, i, s.th[i].(pc := Then(k)), ready, flushes))
  {
    var s' := Queued(s, i, s.th[i].(pc := Then(k)), ready, flushes);
    assert ThreadOk(s, i, s.th[i]);
    QuietQueued(s, i, s.th[i].(pc := Then(k)), ready, flushes);
    StructureHand(s, i, k, ready, flushes);
    ProtocolQueued(s, i, s.th[i].(pc := Then(k)), ready, flushes);
    CacheHand(s, i, k, ready, flushes);
    forall id: nat ensures BusyExact(s') && Places(s', id) == Places(s, id) {
      AccountHand(s, i, k, ready, flushes, id);
    }
    assert Places(s', 0) == Places(s, 0);
    InvQuiet(s, s');
  }

  lemma InvThen(s: State, i: nat, k: After)
    requires Inv(s) && CanRun(s, i) && s.th[i].pc == Then(k)
    ensures Inv(StepThen(s, i, k))
  {
    var s' := StepThen(s, i, k);
    assert ThreadOk(s, i, s.th[i]);
    QuietThen(s, i, k);
    StructureThen(s, i, k);
    ProtocolThen(s, i, k);
    CacheThen(s, i, k);
    forall id: nat ensures BusyExact(s') && Places(s', id) == Places(s, id) {
      AccountThen(s, i, k, id);
    }
    assert Places(s', 0) == Places(s, 0);
    InvQuiet(s, s');
  }

  lemma InvPop(s: State, i: nat)
    requires Inv(s) && CanRun(s, i) && s.th[i].pc == Pop
    ensures Inv(StepPop(s, i))
  {
    var s' := StepPop(s, i);
    assert ThreadOk(s, i, s.th[i]);
    QuietPop(s, i);
    StructurePop(s, i);
    ProtocolPop(s, i);
    CachePop(s, i);
    forall id: nat ensures BusyExact(s') && Places(s', id) == Places(s, id) {
      AccountPop(s, i, id);
    }
    assert Places(s', 0) == Places(s, 0);
    InvQuiet(s, s');
  }

  lemma InvTake(s: State, i: nat)
    requires Inv(s) && CanRun(s, i) && s.th[i].pc == Take
    ensures Inv(StepTake(s, i))
  {
    var s' := StepTake(s, i);
    assert ThreadOk(s, i, s.th[i]);
    QuietTake(s, i);
    StructureTake(s, i);
    ProtocolTake(s, i);
    CacheTake(s, i);
    forall id: nat ensures BusyExact(s') && Places(s', id) == Places(s, id) {
      AccountTake(s, i, id);
    }
    assert Places(s', 0) == Places(s, 0);
    InvQuiet(s, s');
  }

  lemma InvFlushes(s: State, i: nat, left: seq<nat>)
    requires Inv(s) && CanRun(s, i) && s.th[i].pc == Flushes(left)
    ensures Inv(StepFlushes(s, i, left))
  {
    var s' := StepFlushes(s, i, left);
    assert ThreadOk(s, i, s.th[i]);
    QuietFlushes(s, i, left);
    StructureFlushes(s, i, left);
    ProtocolFlushes(s, i, left);
    CacheFlushes(s, i, left);
    forall id: nat ensures BusyExact(s') && Places(s', id) == Places(s, id) {
      AccountFlushes(s, i, left, id);
    }
    assert Places(s', 0) == Places(s, 0);
    InvQuiet(s, s');
  }

  lemma InvStorage(s: State, i: nat, b: nat)
    requires Inv(s) && CanRun(s, i) && s.th[i].pc == Storage(b)
    ensures Inv(StepStorage(s, i, b))
  {
    var s' := StepStorage(s, i, b);
    assert ThreadOk(s, i, s.th[i]);
    StorageClear(s, i, b);
    StructureStorage(s, i, b);
    ProtocolStorage(s, i, b);
    CacheStorage(s, i, b);
    forall id: nat ensures BusyExact(s') && Places(s', id) == Places(s, id) {
      AccountStorage(s, i, b, id);
    }
    assert Places(s', 0) == Places(s, 0);
    ViewStorage(s, i, b);
    CrashStorage(s, i, b);
  }

  lemma InvWriting(s: State, i: nat, j: nat)
    requires Inv(s) && CanRun(s, i) && s.th[i].pc == Writing(j)
    ensures Inv(StepWriting(s, i, j))
  {
    var s' := StepWriting(s, i, j);
    assert ThreadOk(s, i, s.th[i]);
    StructureWriting(s, i, j);
    ProtocolWriting(s, i, j);
    CacheWriting(s, i, j);
    forall id: nat ensures BusyExact(s') && Places(s', id) == Places(s, id) {
      AccountWriting(s, i, j, id);
    }
    assert Places(s', 0) == Places(s, 0);
    ViewWriting(s, i, j);
    CrashWriting(s, i, j);
  }

  lemma InvEndLock(s: State, i: nat, j: nat)
    requires Inv(s) && CanRun(s, i) && s.th[i].pc == EndLock(j)
    ensures Inv(StepEndLock(s, i, j))
  {
    var s' := StepEndLock(s, i, j);
    assert ThreadOk(s, i, s.th[i]);
    StructureEndLock(s, i, j);
    ProtocolEndLock(s, i, j);
    CacheEndLock(s, i, j);
    forall id: nat ensures BusyExact(s') && Places(s', id) == Places(s, id) {
      AccountEndLock(s, i, j, id);
    }
    assert Places(s', 0) == Places(s, 0);
    ViewEndLock(s, i, j);
    CrashKept(s, s');
  }

  /** No slot holds the block of a bio that the storage serves. */
  lemma StorageClear(s: State, i: nat, b: nat)
    requires Inv(s) && CanRun(s, i) && s.th[i].pc == Storage(b)
    ensures Clear(s, s.bios[b])
  {
    TotalPart(Out1, b, s.th, i);
  }

  lemma InvCall(s: State, i: nat)
    requires Inv(s) && CanRun(s, i) && InCall(s.th[i].pc)
    ensures Inv(RunCall(s, i))
  {
    match s.th[i].pc
    case Start(b) => InvStart(s, i, b);
    case Enter(b) => InvEnter(s, i, b);
    case Look(b) => InvLook(s, i, b);
    case Copy(b, j) => InvCopy(s, i, b, j);
    case Copied(j) => InvCopied(s, i, j);
  }

  lemma InvFlush(s: State, i: nat)
    requires Inv(s) && CanRun(s, i) && InFlush(s.th[i].pc)
    ensures Inv(RunFlush(s, i))
  {
    match s.th[i].pc
    case Walk(j) => InvWalk(s, i, j);
    case SubmitWalk(j) => InvSubmit(s, i, j, AfterSubmit(s.th[i].pc));
    case SubmitOnce(j) => InvSubmit(s, i, j, AfterSubmit(s.th[i].pc));
  }

  lemma InvLists(s: State, i: nat)
    requires Inv(s) && CanRun(s, i)
    requires s.th[i].pc.Then? || s.th[i].pc.Pop? || s.th[i].pc.Take? || s.th[i].pc.Flushes?
    ensures Inv(RunRest(s, i))
  {
    match s.th[i].pc
    case Then(k) =>
      assert RunRest(s, i) == StepThen(s, i, k);
      InvThen(s, i, k);
    case Pop =>
      assert RunRest(s, i) == StepPop(s, i);
      InvPop(s, i);
    case Take =>
      assert RunRest(s, i) == StepTake(s, i);
      InvTake(s, i);
    case Flushes(left) =>
      assert RunRest(s, i) == StepFlushes(s, i, left);
      InvFlushes(s, i, left);
  }

  lemma InvEnds(s: State, i: nat)
    requires Inv(s) && CanRun(s, i) && (s.th[i].pc.Storage? || s.th[i].pc.Writing? || s.th[i].pc.EndLock?)
    ensures Inv(RunRest(s, i))
  {
    match s.th[i].pc
    case Storage(b) =>
      assert RunRest(s, i) == StepStorage(s, i, b);
      InvStorage(s, i, b);
    case Writing(j) =>
      assert RunRest(s, i) == StepWriting(s, i, j);
      InvWriting(s, i, j);
    case EndLock(j) =>
      assert RunRest(s, i) == StepEndLock(s, i, j);
      InvEndLock(s, i, j);
  }

  lemma InvRest(s: State, i: nat)
    requires Inv(s) && CanRun(s, i) && !InCall(s.th[i].pc) && !InFlush(s.th[i].pc)
    ensures Inv(RunRest(s, i))
  {
    match s.th[i].pc
    case Dec(k) => InvDec(s, i, k);
    case Ticket(k) => InvTicket(s, i, k);
    case Hand(k, ready, flushes) => InvHand(s, i, k, ready, flushes);
    case Storage(_) => InvEnds(s, i);
    case Writing(_) => InvEnds(s, i);
    case EndLock(_) => InvEnds(s, i);
    case _ => InvLists(s, i);
  }

  lemma InvRun(s: State, i: nat)
    requires Inv(s) && CanRun(s, i)
    ensures Inv(RunThread(s, i))
  {
    if InCall(s.th[i].pc) {
      InvCall(s, i);
    } else if InFlush(s.th[i].pc) {
      InvFlush(s, i);
    } else {
      InvRest(s, i);
    }
  }

  lemma InvAccept(s: State, bio: Bio)
    requires Inv(s) && CanAccept(s, bio)
    ensures Inv(Next(s, Accept(bio)))
  {
    var s', t := Next(s, Accept(bio)), Thread(Start(|s.bios|), [], [], true);
    StructureAccept(s, bio);
    ProtocolAccept(s, bio);
    CacheAccept(s, bio);
    forall id: nat ensures Places(s', id) == Places(s, id) + Same(id, |s.bios|) {
      TotalCat(In1, id, s.th, [t]);
      TotalOne(In1, id, t);
      TotalCat(Out1, id, s.th, [t]);
      TotalOne(Out1, id, t);
    }
    forall id: nat ensures Places(s', id) == if id < |s'.bios| then 1 else 0 {
      assert Places(s, id) == if id < |s.bios| then 1 else 0;
    }
    TotalCat(Busy1, 0, s.th, [t]);
    TotalOne(Busy1, 0, t);
    ViewAccept(s, bio);
    CrashAccept(s, bio);
  }

  /** Changing the stop flag or the torn-write settings leaves the cache alone. */
  lemma CacheSet(s: State, s': State)
    requires CacheOk(s) && s'.th == s.th && s'.bios == s.bios && s'.done == s.done && s'.aux == s.aux
    requires s'.d.slots == s.d.slots && s'.d.wide == s.d.wide
    ensures CacheOk(s')
  {
    assert forall m :: 0 <= m < |s.bios| ==> (Ended(s', m) <==> Ended(s, m));
    assert forall id: nat :: id < |s.bios| ==> (Clear(s', s.bios[id]) <==> Clear(s, s.bios[id]));
  }

  lemma QuietSet(s: State, step: Step)
    requires Inv(s) && (step.SetStop? || step.SetTorn?)
    ensures var s' := Next(s, step);
            && Quiet(s, s') && BusyExact(s') && FlushOk(s') && WorkOk(s')
            && s'.th == s.th && s'.bios == s.bios && s'.done == s.done && s'.aux == s.aux
            && s'.d == s.d.(stop := s'.d.stop, tornMask := s'.d.tornMask, tornModulus := s'.d.tornModulus)
  {
  }

  lemma InvSet(s: State, step: Step)
    requires Inv(s) && (step.SetStop? || step.SetTorn?)
    ensures Inv(Next(s, step))
  {
    var s' := Next(s, step);
    QuietSet(s, step);
    StructureSet(s, s');
    CacheSet(s, s');
    forall id: nat ensures Places(s', id) == Places(s, id) {
    }
    InvQuiet(s, s');
  }

  lemma InvInitial(s: State)
    requires Initial(s)
    ensures Inv(s)
  {
    OccupiedZero(s.d.slots);
    forall id: nat ensures Places(s, id) == 0 {
      TotalZero(Waiters1, id, s.d.slots);
      assert forall j :: 0 <= j < |s.d.slots| ==> Waiters1(id, s.d.slots[j]) == 0;
    }
  }

  lemma InvNext(s: State, step: Step)
    requires Inv(s) && Enabled(s, step)
    ensures Inv(Next(s, step))
  {
    match step
    case Accept(bio) => InvAccept(s, bio);
    case SetStop => InvSet(s, step);
    case SetTorn(_, _) => InvSet(s, step);
    case Run(i) => InvRun(s, i);
  }

  /** The invariant holds in every state of every run. */
  lemma {:induction false} InvAlways(run: seq<State>, p: nat)
    requires IsRun(run) && p < |run|
    ensures Inv(run[p])
  {
    if p == 0 {
      InvInitial(run[0]);
    } else {
      InvAlways(run, p - 1);
      assert Follows(run[p - 1], run[p]);
      var step :| Enabled(run[p - 1], step) && run[p] == Next(run[p - 1], step);
      InvNext(run[p - 1], step);
    }
  }
}
