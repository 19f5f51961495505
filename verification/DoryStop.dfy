/**
 What can still reach the storage after the stop: only writes that a processBio call had already
 let through, and write-backs that had already been submitted. No call that begins after the stop
 adds to either.
 */
module DoryStop {
  import opened DoryDisk
  import opened DorySections
  import opened DoryMachine
  import opened DoryTally
  import opened DoryStructure
  import opened DoryAccounts
  import opened DoryInv
  import opened DoryDurable
  import DoryProgress
  import opened Sums

  /** How often a thread holds bio id past the stop check of processBio. */
  function Admitted1(id: nat, t: Thread): nat
  {
    Out1(id, t) + if t.pc.Enter? || t.pc.Look? || t.pc.Copy? then Same(id, t.pc.b) else 0
  }

  function Writer1(n: nat, t: Thread): nat { if t.pc.Writing? then 1 else 0 }

  function Admitted(th: seq<Thread>, id: nat): nat { Total(Admitted1, id, th) }

  /** Write-backs that the storage is serving. */
  function Writers(th: seq<Thread>): nat { Total(Writer1, 0, th) }

  /** Thread i moves on without admitting bio id or submitting a write-back. */
  predicate Sealed(s: State, s': State, i: nat, t: Thread, fork: seq<Thread>, id: nat)
    requires i < |s.th|
  {
    && |fork| <= 1 && s'.th == Moved(s.th, i, t, fork) && s'.d.stop
    && (id < |s.bios| && Mutates(s.bios[id]) ==>
          Admitted1(id, t) + (if fork == [] then 0 else Admitted1(id, fork[0])) <= Admitted1(id, s.th[i]))
    && Writer1(0, t) + (if fork == [] then 0 else Writer1(0, fork[0])) <= Writer1(0, s.th[i])
  }

  ghost predicate SealedRun(s: State, s': State, i: nat, id: nat)
    requires i < |s.th|
  {
    exists t, fork :: Sealed(s, s', i, t, fork, id)
  }

  lemma SealStart(s: State, i: nat, b: nat, id: nat)
    requires i < |s.th| && s.th[i].pc == Start(b) && b < |s.bios| && s.d.stop
    ensures SealedRun(s, StepStart(s, i, b), i, id)
  {
    CountOne(b, id);
    assert Sealed(s, StepStart(s, i, b), i, s.th[i].(pc := AfterStart(s.d, s.bios[b], b)), [], id);
  }

  lemma SealLook(s: State, i: nat, b: nat, id: nat)
    requires i < |s.th| && s.th[i].pc == Look(b) && b < |s.bios| && s.d.slots != [] && |s.aux.notes| == |s.d.slots| && s.d.stop
    ensures SealedRun(s, StepLook(s, i, b), i, id)
  {
    var j, found := SlotOf(|s.d.slots|, BlockOf(s.d.wide, s.bios[b])), FoundOf(s.d, s.bios[b]);
    CountOne(b, id);
    LookShape(s.d, b, s.bios[b], j);
    LookAdmits(s.th[i], found, b, j, id);
    assert Sealed(s, StepLook(s, i, b), i, s.th[i].(pc := AfterLook(found, b, j)), [], id);
  }

  lemma LookAdmits(t: Thread, found: Found, b: nat, j: nat, id: nat)
    requires t.pc == Look(b)
    ensures var t' := t.(pc := AfterLook(found, b, j)); Admitted1(id, t') <= Admitted1(id, t) && Writer1(0, t') == 0
  {
    CountOne(b, id);
  }

  lemma SealEnter(s: State, i: nat, b: nat, id: nat)
    requires i < |s.th| && s.th[i].pc == Enter(b) && b < |s.bios| && s.d.stop
    ensures SealedRun(s, StepEnter(s, i, b), i, id)
  {
    assert Sealed(s, StepEnter(s, i, b), i, s.th[i].(pc := AfterEnter(s.d, s.bios[b], b)), [], id);
  }

  lemma SealCopied(s: State, i: nat, j: nat, id: nat)
    requires i < |s.th| && s.th[i].pc == Copied(j) && j < |s.d.slots| && s.d.stop
    ensures SealedRun(s, StepCopied(s, i, j), i, id)
  {
    assert Sealed(s, StepCopied(s, i, j), i, StepCopied(s, i, j).th[i], [], id);
  }

  lemma SealCall(s: State, i: nat, id: nat)
    requires Structure(s) && CanRun(s, i) && InCall(s.th[i].pc) && s.d.stop
    ensures SealedRun(s, RunCall(s, i), i, id)
  {
    match s.th[i].pc
    case Start(b) => SealStart(s, i, b, id);
    case Enter(b) => SealEnter(s, i, b, id);
    case Look(b) => SealLook(s, i, b, id);
    case Copy(b, j) => assert Sealed(s, StepCopy(s, i, b, j), i, s.th[i].(pc := Copied(j)), [], id);
    case Copied(j) => SealCopied(s, i, j, id);
  }

  lemma SealFlush(s: State, i: nat, id: nat)
    requires Structure(s) && CanRun(s, i) && InFlush(s.th[i].pc) && s.d.stop
    ensures SealedRun(s, RunFlush(s, i), i, id)
  {
    match s.th[i].pc
    case Walk(j) => assert Sealed(s, StepWalk(s, i, j), i, s.th[i].(pc := AfterWalk(s.d, j)), [], id);
    case SubmitWalk(j) => SealSubmit(s, i, j, id);
    case SubmitOnce(j) => SealSubmit(s, i, j, id);
  }

  lemma SealSubmit(s: State, i: nat, j: nat, id: nat)
    requires i < |s.th| && j < |s.d.slots| == |s.aux.notes| && s.d.stop
    requires s.th[i].pc == SubmitWalk(j) || s.th[i].pc == SubmitOnce(j)
    ensures SealedRun(s, StepSubmit(s, i, j, AfterSubmit(s.th[i].pc)), i, id)
  {
    assert Sealed(s, StepSubmit(s, i, j, AfterSubmit(s.th[i].pc)), i, s.th[i].(pc := AfterSubmit(s.th[i].pc)),
                  [Forked(EndLock(j))], id);
  }

  lemma SealQueued(s: State, i: nat, t: Thread, ready: seq<nat>, flushes: seq<nat>, id: nat)
    requires i < |s.th| && s.d.stop && !t.pc.Writing? && Admitted1(id, t) == Admitted1(id, s.th[i])
    ensures SealedRun(s, Queued(s, i, t, ready, flushes), i, id)
  {
    assert Sealed(s, Queued(s, i, t, ready, flushes), i, t, if NeedsWorker(s.d, ready, flushes) then [Forked(Take)] else [], id);
  }

  lemma SealThen(s: State, i: nat, k: After, id: nat)
    requires i < |s.th| && s.th[i].pc == Then(k) && AfterOk(s.bios, k) && s.d.stop
    requires s.th[i].own ==> s.th[i].keep == []
    ensures SealedRun(s, StepThen(s, i, k), i, id)
  {
    var s', t := StepThen(s, i, k), s.th[i];
    if k.Release? {
      SealQueued(s, i, t.(pc := Done), k.rel, [], id);
    } else {
      if k.out != [] {
        assert k.out == [k.out[0]];
        CountOne(k.out[0], id);
      }
      assert Sealed(s, s', i, t.(pc := Pop, keep := if t.own then k.out else t.keep, own := false),
                    if t.own || k.out == [] then [] else [Forked(Storage(k.out[0]))], id);
    }
  }

  lemma SealPop(s: State, i: nat, id: nat)
    requires i < |s.th| && s.th[i].pc == Pop && |s.th[i].keep| <= 1 && s.d.stop
    ensures SealedRun(s, StepPop(s, i), i, id)
  {
    if s.th[i].keep != [] {
      assert s.th[i].keep == [s.th[i].keep[0]];
      CountOne(s.th[i].keep[0], id);
    }
    assert Sealed(s, StepPop(s, i), i, StepPop(s, i).th[i], [], id);
  }

  lemma SealFlushes(s: State, i: nat, left: seq<nat>, id: nat)
    requires i < |s.th| && s.th[i].pc == Flushes(left) && AllFlush(s.bios, left) && s.d.stop
    ensures SealedRun(s, StepFlushes(s, i, left), i, id)
  {
    var s' := StepFlushes(s, i, left);
    if left == [] {
      assert Sealed(s, s', i, s.th[i].(pc := Pop), [], id);
    } else {
      assert Sealed(s, s', i, s.th[i].(pc := Flushes(left[1..])), if FlushRefused(s.d) then [] else [Forked(Storage(left[0]))], id);
    }
  }

  lemma SealDec(s: State, i: nat, k: After, id: nat)
    requires i < |s.th| && s.th[i].pc == Dec(k) && s.d.stop
    ensures SealedRun(s, StepDec(s, i, k), i, id)
  {
    assert Sealed(s, StepDec(s, i, k), i, s.th[i].(pc := if s.d.busy == 1 then Ticket(k) else Then(k)), [], id);
  }

  lemma SealTicket(s: State, i: nat, k: After, id: nat)
    requires i < |s.th| && s.th[i].pc == Ticket(k) && s.d.stop
    ensures SealedRun(s, StepTicket(s, i, k), i, id)
  {
    assert Sealed(s, StepTicket(s, i, k), i, StepTicket(s, i, k).th[i], [], id);
  }

  lemma SealStorage(s: State, i: nat, b: nat, id: nat)
    requires i < |s.th| && s.th[i].pc == Storage(b) && b < |s.bios| && s.d.stop
    ensures SealedRun(s, StepStorage(s, i, b), i, id)
  {
    assert Sealed(s, StepStorage(s, i, b), i, s.th[i].(pc := Done), [], id);
  }

  lemma SealEndLock(s: State, i: nat, j: nat, id: nat)
    requires i < |s.th| && s.th[i].pc == EndLock(j) && j < |s.d.slots| && s.d.stop
    ensures SealedRun(s, StepEndLock(s, i, j), i, id)
  {
    assert Sealed(s, StepEndLock(s, i, j), i, StepEndLock(s, i, j).th[i], [], id);
  }

  lemma SealTake(s: State, i: nat, id: nat)
    requires i < |s.th| && s.th[i].pc == Take && s.d.stop
    ensures SealedRun(s, StepTake(s, i), i, id)
  {
    assert Sealed(s, StepTake(s, i), i, StepTake(s, i).th[i], [], id);
  }

  lemma SealWriting(s: State, i: nat, j: nat, id: nat)
    requires i < |s.th| && s.th[i].pc == Writing(j) && j < |s.d.slots| && s.d.slots[j].block < |s.disk| && s.d.stop
    ensures SealedRun(s, StepWriting(s, i, j), i, id)
  {
    assert Sealed(s, StepWriting(s, i, j), i, s.th[i].(pc := EndLock(j)), [], id);
  }

  lemma SealRest(s: State, i: nat, id: nat)
    requires Structure(s) && CanRun(s, i) && !InCall(s.th[i].pc) && !InFlush(s.th[i].pc) && s.d.stop
    ensures SealedRun(s, RunRest(s, i), i, id)
  {
    assert ThreadOk(s, i, s.th[i]);
    match s.th[i].pc
    case Dec(k) => SealDec(s, i, k, id);
    case Ticket(k) => SealTicket(s, i, k, id);
    case Hand(k, ready, flushes) => SealQueued(s, i, s.th[i].(pc := Then(k)), ready, flushes, id);
    case Then(k) => SealThen(s, i, k, id);
    case Pop => SealPop(s, i, id);
    case Take => SealTake(s, i, id);
    case Flushes(left) => SealFlushes(s, i, left, id);
    case Storage(b) => SealStorage(s, i, b, id);
    case Writing(j) => SealWriting(s, i, j, id);
    case EndLock(j) => SealEndLock(s, i, j, id);
  }

  lemma SealRun(s: State, i: nat, id: nat)
    requires Structure(s) && CanRun(s, i) && s.d.stop
    ensures SealedRun(s, RunThread(s, i), i, id)
  {
    if InCall(s.th[i].pc) {
      SealCall(s, i, id);
    } else if InFlush(s.th[i].pc) {
      SealFlush(s, i, id);
    } else {
      SealRest(s, i, id);
    }
  }

  lemma SealsFrom(s: State, s': State, i: nat, id: nat)
    requires i < |s.th| && SealedRun(s, s', i, id)
    ensures s'.d.stop && Writers(s'.th) <= Writers(s.th)
    ensures id < |s.bios| && Mutates(s.bios[id]) ==> Admitted(s'.th, id) <= Admitted(s.th, id)
  {
    var t, fork :| Sealed(s, s', i, t, fork, id);
    TotalMovedBy(Writer1, 0, s.th, i, t, fork);
    TotalMovedBy(Admitted1, id, s.th, i, t, fork);
  }

  // ---- Whole runs after the stop ----

  /** Only accepted bios are admitted. */
  lemma {:induction false} AdmittedHeld(th: seq<Thread>, id: nat)
    ensures Admitted(th, id) <= Undecided(th, id) + Outgoing(th, id)
  {
    if th != [] {
      AdmittedHeld(th[..|th| - 1], id);
    }
  }

  lemma AdmittedAccepted(s: State, id: nat)
    requires Inv(s) && id >= |s.bios|
    ensures Admitted(s.th, id) == 0
  {
    AdmittedHeld(s.th, id);
    assert Places(s, id) == 0;
  }

  lemma SealAccept(s: State, bio: Bio, id: nat)
    requires CanAccept(s, bio)
    ensures Admitted(Next(s, Accept(bio)).th, id) == Admitted(s.th, id)
    ensures Writers(Next(s, Accept(bio)).th) == Writers(s.th)
  {
    var t := Thread(Start(|s.bios|), [], [], true);
    TotalCat(Admitted1, id, s.th, [t]);
    TotalOne(Admitted1, id, t);
    TotalCat(Writer1, 0, s.th, [t]);
    TotalOne(Writer1, 0, t);
  }

  lemma SealStep(s: State, step: Step, id: nat)
    requires Inv(s) && s.d.stop && Enabled(s, step)
    ensures var s' := Next(s, step);
            && s'.d.stop && s.bios <= s'.bios && s'.d.wide == s.d.wide && Writers(s'.th) <= Writers(s.th)
            && (id < |s'.bios| && Mutates(s'.bios[id]) ==> Admitted(s'.th, id) <= Admitted(s.th, id))
  {
    match step
    case Accept(bio) => SealAccept(s, bio, id);
    case SetStop =>
    case SetTorn(_, _) =>
    case Run(i) =>
      SealRun(s, i, id);
      SealsFrom(s, RunThread(s, i), i, id);
      DoryProgress.SameBios(s, i);
  }

  /** Bio id has been served. */
  predicate Served(s: State, id: nat) { exists p :: 0 <= p < |s.done| && s.done[p].id == id && s.done[p].served }

  /** A write to block k is past the stop check. */
  predicate Admits(s: State, k: nat)
  {
    exists id :: 0 <= id < |s.bios| && Mutates(s.bios[id]) && BlockOf(s.d.wide, s.bios[id]) == k && Admitted(s.th, id) > 0
  }

  /** Thread i is writing back a slot that holds block k. */
  predicate WritesBack(s: State, i: nat, k: nat)
  {
    && i < |s.th| && s.th[i].pc.Writing? && s.th[i].pc.slot < |s.d.slots|
    && s.d.slots[s.th[i].pc.slot].block == k
  }

  /** A write-back of block k is under way at the storage. */
  predicate WritingBack(s: State, k: nat) { exists i :: 0 <= i < |s.th| && WritesBack(s, i, k) }

  /** What a step does to block k of the storage, and its serving bio id, goes back to someone let
      through before. */
  predicate Caused(s: State, s': State, k: nat, id: nat)
  {
    && |s'.disk| == |s.disk|
    && (k < |s.disk| && s'.disk[k] != s.disk[k] ==> WritingBack(s, k) || Admits(s, k))
    && (Served(s', id) && !Served(s, id) ==> Admitted(s.th, id) > 0)
  }

  lemma CausedQuiet(s: State, s': State, k: nat, id: nat)
    requires s'.disk == s.disk
    requires s'.done == s.done || (|s'.done| == |s.done| + 1 && s.done <= s'.done && !s'.done[|s.done|].served)
    ensures Caused(s, s', k, id)
  {
    if Served(s', id) {
      var p :| 0 <= p < |s'.done| && s'.done[p].id == id && s'.done[p].served;
      assert s.done[p] == s'.done[p];
    }
  }

  /** A step that ends bio b, which it had admitted. */
  lemma CausedEnding(s: State, s': State, i: nat, b: nat, e: Ending, id: nat)
    requires i < |s.th| && Admitted1(b, s.th[i]) > 0 && s'.done == s.done + [e] && e.id == b
    ensures Served(s', id) && !Served(s, id) ==> Admitted(s.th, id) > 0
    ensures Admitted(s.th, b) > 0
  {
    TotalPart(Admitted1, b, s.th, i);
    if Served(s', id) && id != b {
      var p :| 0 <= p < |s'.done| && s'.done[p].id == id && s'.done[p].served;
      assert s.done[p] == s'.done[p];
    }
  }

  lemma CausedCopy(s: State, i: nat, b: nat, j: nat, k: nat, id: nat)
    requires CanRun(s, i) && s.th[i].pc == Copy(b, j)
    ensures Caused(s, StepCopy(s, i, b, j), k, id)
  {
    var s' := StepCopy(s, i, b, j);
    CausedEnding(s, s', i, b, s'.done[|s.done|], id);
  }

  lemma CausedStorage(s: State, i: nat, b: nat, k: nat, id: nat)
    requires CanRun(s, i) && s.th[i].pc == Storage(b)
    ensures Caused(s, StepStorage(s, i, b), k, id)
  {
    var s' := StepStorage(s, i, b);
    CausedEnding(s, s', i, b, s'.done[|s.done|], id);
  }

  lemma CausedWriting(s: State, i: nat, j: nat, k: nat, id: nat)
    requires CanRun(s, i) && s.th[i].pc == Writing(j)
    ensures Caused(s, StepWriting(s, i, j), k, id)
  {
    assert WritesBack(s, i, s.d.slots[j].block);
    CausedQuiet(s, StepWriting(s, i, j).(disk := s.disk), k, id);
  }

  lemma CausedCall(s: State, i: nat, k: nat, id: nat)
    requires Inv(s) && CanRun(s, i) && InCall(s.th[i].pc)
    ensures Caused(s, RunCall(s, i), k, id)
  {
    var pc := s.th[i].pc;
    if pc.Copy? {
      CausedCopy(s, i, pc.b, pc.slot, k, id);
    } else if pc.Look? {
      CausedQuiet(s, StepLook(s, i, pc.b), k, id);
    } else {
      QuietCall(s, i);
      CausedQuiet(s, RunCall(s, i), k, id);
    }
  }

  lemma CausedRest(s: State, i: nat, k: nat, id: nat)
    requires Inv(s) && CanRun(s, i) && !InCall(s.th[i].pc) && !InFlush(s.th[i].pc)
    ensures Caused(s, RunRest(s, i), k, id)
  {
    var pc := s.th[i].pc;
    if pc.Storage? {
      CausedStorage(s, i, pc.b, k, id);
    } else if pc.Writing? {
      CausedWriting(s, i, pc.slot, k, id);
    } else if pc.EndLock? {
      CausedQuiet(s, StepEndLock(s, i, pc.slot), k, id);
    } else {
      QuietRest(s, i);
      CausedQuiet(s, RunRest(s, i), k, id);
    }
  }

  lemma CausedStep(s: State, step: Step, k: nat, id: nat)
    requires Inv(s) && Enabled(s, step)
    ensures Caused(s, Next(s, step), k, id)
  {
    if !step.Run? {
      CausedQuiet(s, Next(s, step), k, id);
    } else if InCall(s.th[step.i].pc) {
      CausedCall(s, step.i, k, id);
    } else if InFlush(s.th[step.i].pc) {
      QuietFlush(s, step.i);
      CausedQuiet(s, RunFlush(s, step.i), k, id);
    } else {
      CausedRest(s, step.i, k, id);
    }
  }

  /** What has not got past the stop check by the stop never does: no write-back is submitted any more,
      and no more writes are admitted. */
  predicate NoMore(s: State, s': State, id: nat)
  {
    && s'.d.stop && s.bios <= s'.bios && s'.d.wide == s.d.wide && Writers(s'.th) <= Writers(s.th)
    && (id < |s'.bios| && Mutates(s'.bios[id]) ==> Admitted(s'.th, id) <= Admitted(s.th, id))
  }

  lemma NoMoreStep(s: State, s': State, id: nat)
    requires Inv(s) && s.d.stop && Follows(s, s')
    ensures NoMore(s, s', id)
  {
    var step :| Enabled(s, step) && s' == Next(s, step);
    SealStep(s, step, id);
  }

  lemma CausedFollows(s: State, s': State, k: nat, id: nat)
    requires Inv(s) && Follows(s, s')
    ensures Caused(s, s', k, id) && s.bios <= s'.bios
  {
    var step :| Enabled(s, step) && s' == Next(s, step);
    CausedStep(s, step, k, id);
    if step.Run? {
      DoryProgress.SameBios(s, step.i);
    }
  }

  lemma NoMoreOn(a: State, s: State, s': State, id: nat)
    requires NoMore(a, s, id) && NoMore(s, s', id) && (id >= |s.bios| ==> Admitted(s.th, id) == 0)
    ensures NoMore(a, s', id)
  {
  }

  /** A step after the stop: nothing more gets through, and what is not accepted is not admitted. */
  predicate Sealing(s: State, s': State, id: nat)
  {
    NoMore(s, s', id) && (id >= |s.bios| ==> Admitted(s.th, id) == 0)
  }

  lemma SealingStep(run: seq<State>, q: nat, id: nat)
    requires IsRun(run) && 0 < q < |run| && run[q - 1].d.stop
    ensures Sealing(run[q - 1], run[q], id)
  {
    var s, s' := run[q - 1], run[q];
    InvAlways(run, q - 1);
    assert Follows(s, s');
    NoMoreStep(s, s', id);
    if id >= |s.bios| {
      AdmittedAccepted(s, id);
    }
  }

  predicate Seals(run: seq<State>, id: nat)
  {
    forall q :: 0 < q < |run| && run[q - 1].d.stop ==> Sealing(run[q - 1], run[q], id)
  }

  lemma SealsInRun(run: seq<State>, id: nat)
    requires IsRun(run)
    ensures Seals(run, id)
  {
    forall q | 0 < q < |run| && run[q - 1].d.stop ensures Sealing(run[q - 1], run[q], id) {
      SealingStep(run, q, id);
    }
  }

  lemma {:induction false} SealedFor(run: seq<State>, p: nat, q: nat, id: nat)
    requires Seals(run, id) && p <= q < |run| && run[p].d.stop
    ensures NoMore(run[p], run[q], id)
  {
    if p < q {
      SealedFor(run, p, q - 1, id);
      NoMoreOn(run[p], run[q - 1], run[q], id);
    }
  }

  lemma SealedOn(run: seq<State>, p: nat, q: nat, id: nat)
    requires IsRun(run) && p <= q < |run| && run[p].d.stop
    ensures NoMore(run[p], run[q], id)
  {
    SealsInRun(run, id);
    SealedFor(run, p, q, id);
  }

  lemma AdmitsBefore(run: seq<State>, p: nat, q: nat, k: nat)
    requires IsRun(run) && p <= q < |run| && run[p].d.stop && Admits(run[q], k)
    ensures Admits(run[p], k)
  {
    var s := run[q];
    var id :| 0 <= id < |s.bios| && Mutates(s.bios[id]) && BlockOf(s.d.wide, s.bios[id]) == k && Admitted(s.th, id) > 0;
    SealedOn(run, p, q, id);
    InvAlways(run, p);
    if id >= |run[p].bios| {
      AdmittedAccepted(run[p], id);
    }
  }

  // ---- No write-back starts after the stop ----

  /** Other threads are where they were, and the slots in use hold the blocks they held. */
  predicate NoNewWriter(s: State, s': State)
  {
    && (forall i :: 0 <= i < |s'.th| && s'.th[i].pc.Writing? ==> i < |s.th| && s'.th[i] == s.th[i])
    && |s'.d.slots| == |s.d.slots|
    && (forall j :: 0 <= j < |s.d.slots| && s.d.slots[j].state.WRITING? ==> s'.d.slots[j].block == s.d.slots[j].block)
  }

  lemma NoNewLook(s: State, i: nat, b: nat)
    requires CanRun(s, i) && s.th[i].pc == Look(b)
    ensures NoNewWriter(s, StepLook(s, i, b))
  {
    LookShape(s.d, b, s.bios[b], SlotOf(|s.d.slots|, BlockOf(s.d.wide, s.bios[b])));
  }

  lemma NoNewCall(s: State, i: nat)
    requires CanRun(s, i) && InCall(s.th[i].pc)
    ensures NoNewWriter(s, RunCall(s, i))
  {
    if s.th[i].pc.Look? {
      NoNewLook(s, i, s.th[i].pc.b);
    }
  }

  lemma NoNewFlush(s: State, i: nat)
    requires CanRun(s, i) && InFlush(s.th[i].pc) && s.d.stop
    ensures NoNewWriter(s, RunFlush(s, i))
  {
  }

  lemma NoNewMoved(s: State, s': State, i: nat, t: Thread, fork: seq<Thread>)
    requires i < |s.th| && s'.th == Moved(s.th, i, t, fork) && |fork| <= 1 && s'.d.slots == s.d.slots
    requires !t.pc.Writing? && (fork != [] ==> !fork[0].pc.Writing?)
    ensures NoNewWriter(s, s')
  {
  }

  lemma NoNewRest(s: State, i: nat)
    requires CanRun(s, i) && !InCall(s.th[i].pc) && !InFlush(s.th[i].pc)
    ensures NoNewWriter(s, RunRest(s, i))
  {
    var s' := RunRest(s, i);
    if !s.th[i].pc.EndLock? {
      NoNewMoved(s, s', i, s'.th[i], s'.th[|s.th|..]);
    }
  }

  lemma NoNewRun(s: State, i: nat)
    requires CanRun(s, i) && s.d.stop
    ensures NoNewWriter(s, RunThread(s, i))
  {
    if InCall(s.th[i].pc) {
      NoNewCall(s, i);
    } else if InFlush(s.th[i].pc) {
      NoNewFlush(s, i);
    } else {
      NoNewRest(s, i);
    }
  }

  lemma NoNewStep(s: State, s': State)
    requires s.d.stop && Follows(s, s')
    ensures NoNewWriter(s, s')
  {
    var step :| Enabled(s, step) && s' == Next(s, step);
    if step.Run? {
      NoNewRun(s, step.i);
    }
  }

  lemma WriterBefore(s: State, s': State, k: nat)
    requires Structure(s) && NoNewWriter(s, s') && WritingBack(s', k)
    ensures WritingBack(s, k)
  {
    var i :| 0 <= i < |s'.th| && WritesBack(s', i, k);
    assert ThreadOk(s, i, s.th[i]);
    assert WritesBack(s, i, k);
  }

  predicate NoneNew(run: seq<State>, k: nat)
  {
    forall q :: 0 < q < |run| && run[q - 1].d.stop ==> run[q].d.stop && (WritingBack(run[q], k) ==> WritingBack(run[q - 1], k))
  }

  lemma NoneNewAt(s: State, s': State, k: nat)
    requires Structure(s) && NoNewWriter(s, s')
    ensures WritingBack(s', k) ==> WritingBack(s, k)
  {
    if WritingBack(s', k) {
      WriterBefore(s, s', k);
    }
  }

  lemma NoneNewNext(s: State, s': State, k: nat)
    requires Inv(s) && Follows(s, s') && s.d.stop
    ensures WritingBack(s', k) ==> WritingBack(s, k)
  {
    NoNewStep(s, s');
    NoneNewAt(s, s', k);
  }

  lemma NoneNewStep(run: seq<State>, q: nat, k: nat)
    requires IsRun(run) && 0 < q < |run| && run[q - 1].d.stop
    ensures WritingBack(run[q], k) ==> WritingBack(run[q - 1], k)
  {
    var s, s' := run[q - 1], run[q];
    InvAlways(run, q - 1);
    assert Follows(s, s');
    NoneNewNext(s, s', k);
  }

  lemma NoneNewInRun(run: seq<State>, k: nat)
    requires IsRun(run)
    ensures NoneNew(run, k)
  {
    forall q | 0 < q < |run| && run[q - 1].d.stop
      ensures run[q].d.stop && (WritingBack(run[q], k) ==> WritingBack(run[q - 1], k))
    {
      SealingStep(run, q, 0);
      NoneNewStep(run, q, k);
    }
  }

  lemma {:induction false} NoneNewFor(run: seq<State>, p: nat, q: nat, k: nat)
    requires NoneNew(run, k) && p <= q < |run| && run[p].d.stop
    ensures run[q].d.stop && (WritingBack(run[q], k) ==> WritingBack(run[p], k))
  {
    if p < q {
      NoneNewFor(run, p, q - 1, k);
    }
  }

  lemma WritesBefore(run: seq<State>, p: nat, q: nat, k: nat)
    requires IsRun(run) && p <= q < |run| && run[p].d.stop
    ensures WritingBack(run[q], k) ==> WritingBack(run[p], k)
  {
    NoneNewInRun(run, k);
    NoneNewFor(run, p, q, k);
  }

  // ---- The rest of the run ----

  /** Between state a and state s, block k of the storage changed only by what was under way at a, and
      bio id, if it is a write that was not under way, was not served. */
  predicate Barred(a: State, s: State, k: nat, id: nat)
  {
    && |s.disk| == |a.disk|
    && (k < |a.disk| && s.disk[k] != a.disk[k] ==> WritingBack(a, k) || Admits(a, k))
    && (id < |s.bios| && Mutates(s.bios[id]) && Admitted(a.th, id) == 0 && !Served(a, id) ==> !Served(s, id))
  }

  /** What a step from s to s' rests on, a being the state at the stop. */
  predicate Linked(a: State, s: State, s': State, k: nat, id: nat)
  {
    && Caused(s, s', k, id) && NoMore(a, s, id) && s.bios <= s'.bios
    && (Admits(s, k) ==> Admits(a, k)) && (WritingBack(s, k) ==> WritingBack(a, k))
    && (id >= |s.bios| ==> Admitted(s.th, id) == 0 && !Served(s, id))
  }

  lemma BarredOn(a: State, s: State, s': State, k: nat, id: nat)
    requires Barred(a, s, k, id) && Linked(a, s, s', k, id)
    ensures Barred(a, s', k, id)
  {
  }

  predicate AllLinked(run: seq<State>, p: nat, k: nat, id: nat)
    requires p < |run|
  {
    forall r :: p < r < |run| ==> Linked(run[p], run[r - 1], run[r], k, id)
  }

  lemma CausedInRun(run: seq<State>, q: nat, k: nat, id: nat)
    requires IsRun(run) && 0 < q < |run|
    ensures Caused(run[q - 1], run[q], k, id) && run[q - 1].bios <= run[q].bios
  {
    InvAlways(run, q - 1);
    var s, s' := run[q - 1], run[q];
    assert Follows(s, s');
    CausedFollows(s, s', k, id);
  }

  predicate AllCaused(run: seq<State>, k: nat, id: nat)
  {
    forall r :: 0 < r < |run| ==> Caused(run[r - 1], run[r], k, id) && run[r - 1].bios <= run[r].bios
  }

  lemma AllCausedInRun(run: seq<State>, k: nat, id: nat)
    requires IsRun(run)
    ensures AllCaused(run, k, id)
  {
    forall r | 0 < r < |run| ensures Caused(run[r - 1], run[r], k, id) && run[r - 1].bios <= run[r].bios {
      CausedInRun(run, r, k, id);
    }
  }

  /** Whatever is under way at s was so at a. */
  predicate Since(a: State, s: State, k: nat, id: nat)
  {
    && NoMore(a, s, id) && (Admits(s, k) ==> Admits(a, k)) && (WritingBack(s, k) ==> WritingBack(a, k))
    && (id >= |s.bios| ==> Admitted(s.th, id) == 0 && !Served(s, id))
  }

  lemma AdmittedSince(run: seq<State>, p: nat, q: nat, k: nat, id: nat)
    requires IsRun(run) && p <= q < |run| && run[p].d.stop
    ensures Since(run[p], run[q], k, id)
  {
    SealedOn(run, p, q, id);
    if Admits(run[q], k) {
      AdmitsBefore(run, p, q, k);
    }
    WritesBefore(run, p, q, k);
    InvAlways(run, q);
    if id >= |run[q].bios| {
      AdmittedAccepted(run[q], id);
      EndedBound(run[q]);
    }
  }

  predicate AllSince(run: seq<State>, p: nat, k: nat, id: nat)
    requires p < |run|
  {
    forall q :: p <= q < |run| ==> Since(run[p], run[q], k, id)
  }

  lemma AllSinceInRun(run: seq<State>, p: nat, k: nat, id: nat)
    requires IsRun(run) && p < |run| && run[p].d.stop
    ensures AllSince(run, p, k, id)
  {
    forall q | p <= q < |run| ensures Since(run[p], run[q], k, id) {
      AdmittedSince(run, p, q, k, id);
    }
  }

  lemma Linking(run: seq<State>, p: nat, k: nat, id: nat)
    requires p < |run| && AllCaused(run, k, id) && AllSince(run, p, k, id)
    ensures AllLinked(run, p, k, id)
  {
    forall r | p < r < |run| ensures Linked(run[p], run[r - 1], run[r], k, id) {
      assert Since(run[p], run[r - 1], k, id);
    }
  }

  lemma {:induction false} BarredFor(run: seq<State>, p: nat, q: nat, k: nat, id: nat)
    requires p <= q < |run| && AllLinked(run, p, k, id)
    ensures Barred(run[p], run[q], k, id)
  {
    if p < q {
      BarredFor(run, p, q - 1, k, id);
      BarredOn(run[p], run[q - 1], run[q], k, id);
    }
  }

  /** After a stop, over the rest of the run: no write-back is submitted and no write admitted any more;
      block k of the storage changes only if a write to it had been admitted or a write-back of it was
      under way at the stop; and a write that had not been admitted by then is never served. */
  lemma StopSeals(run: seq<State>, p: nat, q: nat, k: nat, id: nat)
    requires IsRun(run) && p <= q < |run| && run[p].d.stop
    ensures NoMore(run[p], run[q], id)
    ensures Barred(run[p], run[q], k, id)
  {
    SealedOn(run, p, q, id);
    AllCausedInRun(run, k, id);
    AllSinceInRun(run, p, k, id);
    Linking(run, p, k, id);
    BarredFor(run, p, q, k, id);
  }
}
