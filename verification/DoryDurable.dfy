/**
 What flushes make durable, at the driver's own grain. From any moment at which every slot is EMPTY,
 in particular from any decrement of the busy count to zero, the writes acknowledged until then stay
 on the storage, also after a stop. A flush is completed by a thread that made such a decrement.
 */
module DoryDurable {
  import opened DoryDisk
  import opened DorySections
  import opened DoryMachine
  import opened DoryStructure
  import opened DoryAccounts
  import opened DoryView
  import opened DoryCrash
  import opened DoryInv
  import opened DoryTheorems

  predicate AllEmpty(s: State) { forall j :: 0 <= j < |s.d.slots| ==> s.d.slots[j].state.EMPTY? }

  /** The slots hold data filled by the mark-th ending or later. */
  predicate FilledFrom(s: State, mark: nat)
    requires |s.aux.notes| == |s.d.slots|
  {
    forall j :: 0 <= j < |s.d.slots| && Holds(s, j) ==> s.aux.notes[j].since >= mark
  }

  /** The block the q-th ending wrote. */
  function BlockAt(s: State, q: nat): nat
    requires q < |s.done| && s.done[q].id < |s.bios|
  {
    BlockOf(s.d.wide, s.bios[s.done[q].id])
  }

  predicate Stored(s: State, q: nat)
    requires q < |s.done| && s.done[q].id < |s.bios|
  {
    Get(s.d.wide, s.disk, s.bios[s.done[q].id]) == s.bios[s.done[q].id].data
  }

  /** An acknowledged write that no later acknowledged write overlaps. */
  predicate Stands(s: State, q: nat)
  {
    q < |s.done| && Changes(s.bios, s.done[q]) && !Overwritten(s, q)
  }

  /** The first `mark` endings are stored, except in blocks already lost and under a full-block bio
      in flight that has dropped the block. */
  predicate StoredFrom(s: State, mark: nat, gone: set<nat>)
  {
    forall q :: 0 <= q < mark && Stands(s, q) ==>
      Stored(s, q) || BlockAt(s, q) in gone || BlockAt(s, q) in s.aux.dropped
  }

  predicate Kept(s: State, mark: nat, gone: set<nat>)
  {
    && mark <= |s.done| && |s.aux.notes| == |s.d.slots|
    && FilledFrom(s, mark) && StoredFrom(s, mark, gone)
  }

  // ---- Steps that leave the storage alone ----

  /** No slot holds older data than before, and no dropped block is forgotten. */
  predicate Untouched(s: State, s': State, mark: nat)
    requires |s.aux.notes| == |s.d.slots|
  {
    && |s'.aux.notes| == |s'.d.slots| == |s.d.slots|
    && s'.d.wide == s.d.wide && s'.disk == s.disk && s.bios <= s'.bios && s.done <= s'.done
    && (forall k :: k in s.aux.dropped ==> k in s'.aux.dropped)
    && (forall j :: 0 <= j < |s.d.slots| && Holds(s', j) ==>
          (Holds(s, j) && s'.aux.notes[j].since == s.aux.notes[j].since) || s'.aux.notes[j].since >= mark)
  }

  lemma OverwrittenStays(s: State, s': State, q: nat)
    requires s'.d.wide == s.d.wide && s.bios <= s'.bios && s.done <= s'.done
    requires q < |s.done| && s.done[q].id < |s.bios|
    ensures Overwritten(s, q) ==> Overwritten(s', q)
  {
    if Overwritten(s, q) {
      var p :| q < p < |s.done| && Changes(s.bios, s.done[p]) &&
               Overlap(s.d.wide, s.bios[s.done[p].id], s.bios[s.done[q].id]);
      assert s'.done[p] == s.done[p] && Changes(s'.bios, s'.done[p]);
    }
  }

  lemma StandsBefore(s: State, s': State, q: nat)
    requires s'.d.wide == s.d.wide && s.bios <= s'.bios && s.done <= s'.done
    requires q < |s.done| && s.done[q].id < |s.bios| && Stands(s', q)
    ensures Stands(s, q)
  {
    OverwrittenStays(s, s', q);
  }

  lemma UntouchedKeeps(s: State, s': State, mark: nat, gone: set<nat>)
    requires Inv(s) && Kept(s, mark, gone) && Untouched(s, s', mark)
    ensures Kept(s', mark, gone)
  {
    EndedBound(s);
    forall q | 0 <= q < mark && Stands(s', q)
      ensures Stored(s', q) || BlockAt(s', q) in gone || BlockAt(s', q) in s'.aux.dropped
    {
      StandsBefore(s, s', q);
      assert s'.bios[s'.done[q].id] == s.bios[s.done[q].id];
    }
  }

  lemma LookUntouched(s: State, i: nat, b: nat, mark: nat)
    requires Inv(s) && CanRun(s, i) && s.th[i].pc == Look(b)
    ensures Untouched(s, StepLook(s, i, b), mark)
  {
    var j := SlotOf(|s.d.slots|, BlockOf(s.d.wide, s.bios[b]));
    LookShape(s.d, b, s.bios[b], j);
    LookHolds(s, i, b, j);
  }

  lemma CopyUntouched(s: State, i: nat, b: nat, j: nat, mark: nat)
    requires Inv(s) && CanRun(s, i) && s.th[i].pc == Copy(b, j) && mark <= |s.done|
    ensures Untouched(s, StepCopy(s, i, b, j), mark)
  {
    assert ThreadOk(s, i, s.th[i]);
  }

  lemma QuietCall(s: State, i: nat)
    requires Inv(s) && CanRun(s, i) && InCall(s.th[i].pc) && !s.th[i].pc.Look? && !s.th[i].pc.Copy?
    ensures Quiet(s, RunCall(s, i))
  {
    assert ThreadOk(s, i, s.th[i]);
    match s.th[i].pc
    case Start(b) => QuietStart(s, i, b);
    case Enter(b) => QuietEnter(s, i, b);
    case Copied(j) => QuietCopied(s, i, j);
  }

  lemma QuietFlush(s: State, i: nat)
    requires Inv(s) && CanRun(s, i) && InFlush(s.th[i].pc)
    ensures Quiet(s, RunFlush(s, i))
  {
    match s.th[i].pc
    case Walk(j) => QuietWalk(s, i, j);
    case SubmitWalk(j) => QuietSubmit(s, i, j, AfterSubmit(s.th[i].pc));
    case SubmitOnce(j) => QuietSubmit(s, i, j, AfterSubmit(s.th[i].pc));
  }

  lemma QuietRest(s: State, i: nat)
    requires Inv(s) && CanRun(s, i) && !InCall(s.th[i].pc) && !InFlush(s.th[i].pc)
    requires !s.th[i].pc.Storage? && !s.th[i].pc.Writing? && !s.th[i].pc.EndLock?
    ensures Quiet(s, RunRest(s, i))
  {
    match s.th[i].pc
    case Dec(k) => QuietDec(s, i, k);
    case Ticket(k) => QuietTicket(s, i, k);
    case Hand(k, ready, flushes) => QuietQueued(s, i, s.th[i].(pc := Then(k)), ready, flushes);
    case Then(k) => QuietThen(s, i, k);
    case Pop => QuietPop(s, i);
    case Take => QuietTake(s, i);
    case Flushes(left) => QuietFlushes(s, i, left);
  }

  // ---- Steps of the storage ----

  /** The storage applies a write: what it does not overlap stays. */
  lemma StorageKeeps(s: State, i: nat, b: nat, mark: nat, gone: set<nat>)
    requires Inv(s) && CanRun(s, i) && s.th[i].pc == Storage(b) && Kept(s, mark, gone)
    ensures Kept(StepStorage(s, i, b), mark, gone)
  {
    var s' := StepStorage(s, i, b);
    EndedBound(s);
    forall q | 0 <= q < mark && Stands(s', q)
      ensures Stored(s', q) || BlockAt(s', q) in gone || BlockAt(s', q) in s'.aux.dropped
    {
      StandsBefore(s, s', q);
      StoredOrOver(s, i, b, q);
    }
  }

  lemma StoredOrOver(s: State, i: nat, b: nat, q: nat)
    requires Inv(s) && CanRun(s, i) && s.th[i].pc == Storage(b)
    requires q < |s.done| && s.done[q].id < |s.bios| && Stands(s, q) && Stands(StepStorage(s, i, b), q)
    ensures Stored(s, q) ==> Stored(StepStorage(s, i, b), q)
    ensures BlockAt(s, q) in s.aux.dropped ==> BlockAt(s, q) in StepStorage(s, i, b).aux.dropped
  {
    var s', bio, prior := StepStorage(s, i, b), s.bios[b], s.bios[s.done[q].id];
    assert Fits(s.d.wide, |s.disk|, bio) && Fits(s.d.wide, |s.disk|, prior);
    if Mutates(bio) {
      var e := s'.done[|s.done|];
      assert Changes(s'.bios, e) && e.id == b;
      assert !Overlap(s.d.wide, bio, prior);
      GetApart(s.d.wide, s.disk, bio, prior);
    }
  }

  /** A write-back writes data filled after the mark, so it overwrites no earlier write that stands. */
  /** A write-back leaves the blocks of the writes before its slot was filled. */
  lemma StaysStored(s: State, i: nat, j: nat, q: nat)
    requires Inv(s) && CanRun(s, i) && s.th[i].pc == Writing(j) && Stands(StepWriting(s, i, j), q)
    requires Holds(s, j) && q < s.aux.notes[j].since
    ensures Stands(s, q) && BlockAt(StepWriting(s, i, j), q) == BlockAt(s, q)
    ensures Stored(s, q) ==> Stored(StepWriting(s, i, j), q)
  {
    assert ThreadOk(s, i, s.th[i]) && SlotOk(s, j);
    assert !Overwritten(s, q) && Stands(s, q);
    FilledOver(s, j, q);
  }

  lemma WritingKeeps(s: State, i: nat, j: nat, mark: nat, gone: set<nat>)
    requires Inv(s) && CanRun(s, i) && s.th[i].pc == Writing(j) && Kept(s, mark, gone)
    ensures Kept(StepWriting(s, i, j), mark, gone)
  {
    var s' := StepWriting(s, i, j);
    assert ThreadOk(s, i, s.th[i]) && SlotOk(s, j);
    forall q | 0 <= q < mark && Stands(s', q)
      ensures Stored(s', q) || BlockAt(s', q) in gone || BlockAt(s', q) in s'.aux.dropped
    {
      StaysStored(s, i, j, q);
    }
  }

  lemma FilledOver(s: State, j: nat, q: nat)
    requires Inv(s) && j < |s.d.slots| && Holds(s, j)
    requires Stands(s, q) && q < s.aux.notes[j].since
    ensures BlockAt(s, q) != s.d.slots[j].block
  {
    var prior, w := s.bios[s.done[q].id], s.aux.notes[j].since;
    assert FilledAt(s, w, s.d.slots[j].block);
    assert Fits(s.d.wide, |s.disk|, prior) && Fits(s.d.wide, |s.disk|, s.bios[s.done[w].id]);
    assert !Overlap(s.d.wide, s.bios[s.done[w].id], prior);
  }

  // ---- Whole runs ----

  lemma KeptCall(s: State, i: nat, mark: nat, gone: set<nat>)
    requires Inv(s) && CanRun(s, i) && InCall(s.th[i].pc) && Kept(s, mark, gone)
    ensures Kept(RunCall(s, i), mark, gone)
  {
    var s' := RunCall(s, i);
    match s.th[i].pc {
      case Look(b) => LookUntouched(s, i, b, mark);
      case Copy(b, j) => CopyUntouched(s, i, b, j, mark);
      case _ => QuietCall(s, i);
    }
    assert Untouched(s, s', mark);
    UntouchedKeeps(s, s', mark, gone);
  }

  lemma KeptEndLock(s: State, i: nat, j: nat, mark: nat, gone: set<nat>)
    requires Inv(s) && CanRun(s, i) && s.th[i].pc == EndLock(j) && Kept(s, mark, gone)
    ensures Kept(StepEndLock(s, i, j), mark, gone)
  {
    UntouchedKeeps(s, StepEndLock(s, i, j), mark, gone);
  }

  lemma KeptRest(s: State, i: nat, mark: nat, gone: set<nat>)
    requires Inv(s) && CanRun(s, i) && !InCall(s.th[i].pc) && !InFlush(s.th[i].pc) && Kept(s, mark, gone)
    ensures Kept(RunRest(s, i), mark, gone)
  {
    var pc := s.th[i].pc;
    if pc.Storage? {
      StorageKeeps(s, i, pc.b, mark, gone);
    } else if pc.Writing? {
      WritingKeeps(s, i, pc.slot, mark, gone);
    } else if pc.EndLock? {
      KeptEndLock(s, i, pc.slot, mark, gone);
    } else {
      QuietRest(s, i);
      UntouchedKeeps(s, RunRest(s, i), mark, gone);
    }
  }

  lemma KeptRun(s: State, i: nat, mark: nat, gone: set<nat>)
    requires Inv(s) && CanRun(s, i) && Kept(s, mark, gone)
    ensures Kept(RunThread(s, i), mark, gone)
  {
    if InCall(s.th[i].pc) {
      KeptCall(s, i, mark, gone);
    } else if InFlush(s.th[i].pc) {
      QuietFlush(s, i);
      UntouchedKeeps(s, RunFlush(s, i), mark, gone);
    } else {
      KeptRest(s, i, mark, gone);
    }
  }

  lemma UntouchedOutside(s: State, step: Step, mark: nat, gone: set<nat>)
    requires Enabled(s, step) && !step.Run? && Kept(s, mark, gone)
    ensures Untouched(s, Next(s, step), mark)
  {
  }

  lemma KeptNext(s: State, s': State, mark: nat, gone: set<nat>)
    requires Inv(s) && Follows(s, s') && Kept(s, mark, gone)
    ensures Kept(s', mark, gone)
  {
    var step :| Enabled(s, step) && s' == Next(s, step);
    if step.Run? {
      KeptRun(s, step.i, mark, gone);
    } else {
      UntouchedOutside(s, step, mark, gone);
      UntouchedKeeps(s, s', mark, gone);
    }
  }

  lemma KeptIfKept(s: State, s': State, mark: nat, gone: set<nat>)
    requires Inv(s) && Follows(s, s')
    ensures Kept(s, mark, gone) ==> Kept(s', mark, gone)
  {
    if Kept(s, mark, gone) {
      KeptNext(s, s', mark, gone);
    }
  }

  lemma KeptStep(run: seq<State>, q: nat, mark: nat, gone: set<nat>)
    requires IsRun(run) && 0 < q < |run|
    ensures Kept(run[q - 1], mark, gone) ==> Kept(run[q], mark, gone)
  {
    var s, s' := run[q - 1], run[q];
    InvAlways(run, q - 1);
    assert Follows(s, s');
    KeptIfKept(s, s', mark, gone);
  }

  predicate Keeps(run: seq<State>, mark: nat, gone: set<nat>)
  {
    forall q :: 0 < q < |run| && Kept(run[q - 1], mark, gone) ==> Kept(run[q], mark, gone)
  }

  lemma KeepsInRun(run: seq<State>, mark: nat, gone: set<nat>)
    requires IsRun(run)
    ensures Keeps(run, mark, gone)
  {
    forall q | 0 < q < |run| && Kept(run[q - 1], mark, gone) ensures Kept(run[q], mark, gone) {
      KeptStep(run, q, mark, gone);
    }
  }

  lemma {:induction false} KeptOn(run: seq<State>, m: nat, p: nat, mark: nat, gone: set<nat>)
    requires Keeps(run, mark, gone) && m <= p < |run| && Kept(run[m], mark, gone)
    ensures Kept(run[p], mark, gone)
  {
    if m < p {
      KeptOn(run, m, p - 1, mark, gone);
    }
  }

  lemma KeptAtFirst(run: seq<State>, m: nat)
    requires IsRun(run) && m < |run| && AllEmpty(run[m])
    ensures Kept(run[m], |run[m].done|, run[m].aux.lost)
  {
    var s := run[m];
    InvAlways(run, m);
    forall q | 0 <= q < |s.done| && Stands(s, q)
      ensures Stored(s, q) || BlockAt(s, q) in s.aux.lost || BlockAt(s, q) in s.aux.dropped
    {
      if !Excused(s, BlockAt(s, q)) {
        StorageHas(s, q);
      }
    }
  }

  /** From a moment when every slot is EMPTY on, for ever. */
  lemma KeptAlways(run: seq<State>, m: nat, p: nat)
    requires IsRun(run) && m <= p < |run| && AllEmpty(run[m])
    ensures Kept(run[p], |run[m].done|, run[m].aux.lost)
  {
    KeptAtFirst(run, m);
    KeepsInRun(run, |run[m].done|, run[m].aux.lost);
    KeptOn(run, m, p, |run[m].done|, run[m].aux.lost);
  }

  // ---- What ends stays ended ----

  lemma DoneStep(s: State, s': State)
    requires Follows(s, s')
    ensures s.done <= s'.done
  {
    var step :| Enabled(s, step) && s' == Next(s, step);
  }

  lemma {:induction false} DoneStays(run: seq<State>, a: nat, b: nat)
    requires IsRun(run) && a <= b < |run|
    ensures run[a].done <= run[b].done
  {
    if a < b {
      DoneStays(run, a, b - 1);
      var s, s' := run[b - 1], run[b];
      assert Follows(s, s');
      DoneStep(s, s');
    }
  }

  // ---- Flushes ----

  /** A full-block bio in flight has dropped block k and is about to overwrite it. */
  predicate AboutToBeOver(s: State, k: nat)
  {
    && k in s.aux.dropped && s.aux.dropped[k] < |s.bios|
    && !Ended(s, s.aux.dropped[k]) && Mutates(s.bios[s.aux.dropped[k]])
    && Full(s.d.wide, s.bios[s.aux.dropped[k]]) && BlockOf(s.d.wide, s.bios[s.aux.dropped[k]]) == k
  }

  lemma DroppedIsAbout(s: State, k: nat)
    requires Inv(s) && k in s.aux.dropped
    ensures AboutToBeOver(s, k)
  {
    OutLive(s, s.aux.dropped[k]);
  }

  /** Bio f joins the flushes in the step to state e. */
  predicate Joins(run: seq<State>, e: nat, f: nat)
  {
    0 < e < |run| && f in run[e].d.flushBios && f !in run[e - 1].d.flushBios
  }

  /** Every write acknowledged by state a that stands at state r is stored there, unless its block was
      lost by state m or a full-block bio in flight is about to overwrite it. */
  predicate DurableAt(run: seq<State>, a: nat, m: nat, r: nat)
    requires a < |run| && m < |run| && r < |run|
  {
    forall q :: 0 <= q < |run[a].done| && Stands(run[r], q) ==>
      Stored(run[r], q) || BlockAt(run[r], q) in run[m].aux.lost || AboutToBeOver(run[r], BlockAt(run[r], q))
  }

  /** What was acknowledged by a moment when every slot was EMPTY stays stored. */
  lemma DurableFrom(run: seq<State>, a: nat, m: nat, r: nat)
    requires IsRun(run) && a <= m <= r < |run| && AllEmpty(run[m])
    ensures DurableAt(run, a, m, r)
  {
    KeptAlways(run, m, r);
    DoneStays(run, a, m);
    InvAlways(run, r);
    forall q | 0 <= q < |run[a].done| && Stands(run[r], q) && BlockAt(run[r], q) in run[r].aux.dropped
      ensures AboutToBeOver(run[r], BlockAt(run[r], q))
    {
      DroppedIsAbout(run[r], BlockAt(run[r], q));
    }
  }
}
