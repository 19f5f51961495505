/**
 What the driver decides about a bio, in every run, said by the kind of the bio, its sector and its size:
 who is refused at the gate, who is deferred, who is served from the cache, and what is written back.
 */
module DoryPolicy {
  import opened DoryDisk
  import opened DorySections
  import opened DoryMachine
  import opened DoryStructure
  import opened DoryInv
  import opened DoryTheorems
  import opened DoryGrain
  import opened DoryServed
  import opened DoryFlush
  import Bits

  // ---- The gate ----

  /** A bio with data direction WRITE. */
  predicate ToStorage(op: Op)
  {
    match op
    case Read => false
    case Write => true
    case Fua => true
    case Discard => true
    case Flush(outbound) => outbound
  }

  /** A call ends its bio refused, and counts a write failure, exactly if the device is stopped and the bio is
      a write, a FUA write, a discard or an empty write with REQ_PREFLUSH. Otherwise it goes on: past a
      device without a cache unchanged, and counted as busy into one with a cache. */
  lemma GateVerdict(run: seq<State>, p: nat, i: nat, b: nat)
    requires IsRun(run) && p < |run| && CanRun(run[p], i) && run[p].th[i].pc == Start(b)
    ensures var s, s', op := run[p], RunThread(run[p], i), run[p].bios[b].op;
            if s.d.stop && ToStorage(op) then
              && s'.done == s.done + [Ending(b, false, false, [])] && s'.d == s.d.(writeFailure := s.d.writeFailure + 1)
              && s'.th[i].pc == Then(Result([]))
            else
              && s'.done == s.done
              && if s.d.slots == [] then s'.d == s.d && s'.th[i].pc == Then(Result([b]))
                 else s'.d == s.d.(busy := s.d.busy + 1) && s'.th[i].pc == Enter(b)
  {
  }

  predicate AtStart(s: State, f: nat) { exists i :: 0 <= i < |s.th| && s.th[i].pc == Start(f) }

  lemma LeavesStart(s: State, s': State, f: nat)
    requires Follows(s, s') && AtStart(s, f) && !AtStart(s', f) && f < |s.bios| && s.d.stop && ToStorage(s.bios[f].op)
    ensures TurnedAway(s, s', f)
  {
    var step :| Enabled(s, step) && s' == Next(s, step);
    var i :| 0 <= i < |s.th| && s.th[i].pc == Start(f);
    if step != Run(i) {
      StaysStart(s, step, i, f);
      assert false;
    }
  }

  lemma StaysStart(s: State, step: Step, i: nat, f: nat)
    requires Enabled(s, step) && step != Run(i) && i < |s.th| && s.th[i].pc == Start(f)
    ensures i < |Next(s, step).th| && Next(s, step).th[i].pc == Start(f)
  {
    if step.Run? {
      OtherStays(s, step.i, i);
    }
  }

  lemma OtherStays(s: State, i: nat, k: nat)
    requires CanRun(s, i) && k < |s.th| && k != i
    ensures k < |RunThread(s, i).th| && RunThread(s, i).th[k] == s.th[k]
  {
    if InCall(s.th[i].pc) {
      OtherCall(s, i, k);
    } else if InFlush(s.th[i].pc) {
      OtherFlush(s, i, k);
    } else {
      OtherRest(s, i, k);
    }
  }

  lemma OtherCall(s: State, i: nat, k: nat)
    requires CanRun(s, i) && InCall(s.th[i].pc) && k < |s.th| && k != i
    ensures k < |RunCall(s, i).th| && RunCall(s, i).th[k] == s.th[k]
  {
  }

  lemma OtherFlush(s: State, i: nat, k: nat)
    requires CanRun(s, i) && InFlush(s.th[i].pc) && k < |s.th| && k != i
    ensures k < |RunFlush(s, i).th| && RunFlush(s, i).th[k] == s.th[k]
  {
  }

  lemma OtherRest(s: State, i: nat, k: nat)
    requires CanRun(s, i) && !InCall(s.th[i].pc) && !InFlush(s.th[i].pc) && k < |s.th| && k != i
    ensures k < |RunRest(s, i).th| && RunRest(s, i).th[k] == s.th[k]
  {
  }

  predicate StopsFor(run: seq<State>)
  {
    forall q :: 0 < q < |run| && run[q - 1].d.stop ==> run[q].d.stop
  }

  lemma StopsForGood(run: seq<State>)
    requires IsRun(run)
    ensures StopsFor(run)
  {
    forall q | 0 < q < |run| && run[q - 1].d.stop ensures run[q].d.stop {
      assert Follows(run[q - 1], run[q]);
      StopStep(run[q - 1], run[q]);
    }
  }

  lemma {:induction false} StopStays(run: seq<State>, a: nat, b: nat)
    requires StopsFor(run) && a <= b < |run| && run[a].d.stop
    ensures run[b].d.stop
  {
    if a < b {
      StopStays(run, a, b - 1);
    }
  }

  lemma StopStep(s: State, s': State)
    requires Follows(s, s') && s.d.stop
    ensures s'.d.stop
  {
    var step :| Enabled(s, step) && s' == Next(s, step);
    if step.Run? {
      StopRun(s, step.i);
    }
  }

  lemma StopRun(s: State, i: nat)
    requires CanRun(s, i)
    ensures RunThread(s, i).d.stop == s.d.stop
  {
    if InCall(s.th[i].pc) {
      LossCall(s, i);
    } else if InFlush(s.th[i].pc) {
      LossFlush(s, i);
    } else {
      LossRest(s, i);
    }
  }

  lemma {:induction false} LeftAt(run: seq<State>, p: nat, r: nat, f: nat) returns (z: nat)
    requires p <= r < |run| && AtStart(run[p], f) && !AtStart(run[r], f)
    ensures p <= z < r && AtStart(run[z], f) && !AtStart(run[z + 1], f)
  {
    if AtStart(run[r - 1], f) {
      z := r - 1;
    } else {
      z := LeftAt(run, p, r - 1, f);
    }
  }

  /** No write, discard or empty write with REQ_PREFLUSH whose call starts after the stop is ever served. */
  lemma NoneAfterStop(run: seq<State>, p: nat, f: nat, r: nat, q: nat)
    requires IsRun(run) && p <= r < |run| && AtStart(run[p], f) && run[p].d.stop
    requires f < |run[p].bios| && ToStorage(run[p].bios[f].op)
    ensures !ServedAt(run[r], q, f)
  {
    if ServedAt(run[r], q, f) {
      InvAlways(run, r);
      EndedIsPast(run[r], f);
      NotAtStart(run[r], f);
      var z := LeftAt(run, p, r, f);
      StopsForGood(run);
      StopStays(run, p, z);
      BiosStay(run, p, z);
      assert Follows(run[z + 1 - 1], run[z + 1]);
      LeavesStart(run[z], run[z + 1], f);
      NotServed(run, z, r, q, f);
    }
  }

  lemma NotAtStart(s: State, f: nat)
    requires Past(s, f)
    ensures !AtStart(s, f)
  {
    if i :| 0 <= i < |s.th| && s.th[i].pc == Start(f) {
      assert Arrives(s.th[i].pc, f);
    }
  }

  // ---- Behind a flush ----

  /** A flush joins the flushes in progress, and walks the cache exactly if it is the first. Any other bio is
      deferred, behind those deferred before it, exactly if a flush is in progress. */
  lemma EntryVerdict(run: seq<State>, p: nat, i: nat, b: nat)
    requires IsRun(run) && p < |run| && CanRun(run[p], i) && run[p].th[i].pc == Enter(b)
    ensures var s, s', op := run[p], RunThread(run[p], i), run[p].bios[b].op;
            if op.Flush? then
              && s'.d == s.d.(flushFlag := true, flushBios := s.d.flushBios + [b])
              && s'.th[i].pc == if s.d.flushFlag then Dec(Result([])) else Walk(0)
            else if s.d.flushFlag then
              s'.d == s.d.(waiting := s.d.waiting + [b]) && s'.th[i].pc == Dec(Result([]))
            else
              s'.d == s.d && s'.th[i].pc == Look(b)
  {
  }

  // ---- The cache ----

  /** The size of a block, and the block of a bio. */
  function Size(wide: bool): nat { if wide then 4096 else 512 }

  function Number(wide: bool, b: Bio): nat { 512 * b.sector / Size(wide) }

  /** The bit of the torn-write mask that belongs to a block. */
  predicate Unmasked(d: Device, k: nat) { d.tornMask / Bits.Pow2(k % d.tornModulus) % 2 == 1 }

  /** What a bio meets in the cache: its block in slot j, the block number modulo the number of slots. */
  predicate Meets(d: Device, b: Bio, j: nat)
    requires j < |d.slots|
  {
    !d.slots[j].state.EMPTY? && d.slots[j].block == Number(d.wide, b)
  }

  /** The bio is served from slot j: a read or write of a DIRTY block, or a write of a whole block that may be
      cached, into an EMPTY slot. */
  predicate Cached(d: Device, b: Bio, j: nat)
    requires j < |d.slots|
  {
    || (Meets(d, b, j) && d.slots[j].state.DIRTY? && (b.op.Read? || b.op.Write?))
    || (d.slots[j].state.EMPTY? && b.op.Write? && b.size == Size(d.wide) && Unmasked(d, Number(d.wide, b)))
  }

  /** The bio waits for the thread that has slot j. */
  predicate Waits(d: Device, b: Bio, j: nat)
    requires j < |d.slots|
  {
    Meets(d, b, j) && (d.slots[j].state.COPYING? || d.slots[j].state.WRITING?)
  }

  /** A FUA write or discard finds its block DIRTY. */
  predicate Ousts(d: Device, b: Bio, j: nat)
    requires j < |d.slots|
  {
    Meets(d, b, j) && d.slots[j].state.DIRTY? && (b.op.Fua? || b.op.Discard?)
  }

  lemma Blocks(wide: bool, b: Bio)
    ensures BlockOf(wide, b) == Number(wide, b) && BlockSize(wide) == Size(wide)
  {
  }

  /** The lookup of a bio that fits, by what it finds. */
  lemma FoundBy(d: Device, b: Bio, j: nat)
    requires d.slots != [] && j == Number(d.wide, b) % |d.slots| && !IsFlush(b) && Fits(d.wide, Number(d.wide, b) + 1, b)
    ensures FoundOf(d, b).Fill? || FoundOf(d, b).Hit? <==> Cached(d, b, j)
    ensures FoundOf(d, b).Fill? <==> Cached(d, b, j) && d.slots[j].state.EMPTY?
    ensures FoundOf(d, b).Park? <==> Waits(d, b, j)
    ensures FoundOf(d, b).Drop? <==> Ousts(d, b, j) && b.size == Size(d.wide)
    ensures FoundOf(d, b).Evict? <==> Ousts(d, b, j) && b.size < Size(d.wide)
  {
    Blocks(d.wide, b);
    Bits.AndBit(d.tornMask, Number(d.wide, b) % d.tornModulus);
  }

  /** Slot j after a lookup, and what the call does next. */
  predicate LookedUp(s: State, s': State, i: nat, b: nat, j: nat)
    requires i < |s.th| && b < |s.bios| && j < |s.d.slots| && |s'.d.slots| == |s.d.slots| && i < |s'.th|
  {
    var d, bio, slot, slot', pc := s.d, s.bios[b], s.d.slots[j], s'.d.slots[j], s'.th[i].pc;
    && (forall m :: 0 <= m < |d.slots| && m != j ==> s'.d.slots[m] == d.slots[m])
    && if Cached(d, bio, j) then
         && pc == Copy(b, j) && slot' == slot.(state := COPYING, block := Number(d.wide, bio))
         && s'.d.busy == d.busy + if slot.state.EMPTY? then 1 else 0
       else if Waits(d, bio, j) then
         pc == Dec(Result([])) && slot' == slot.(waiters := slot.waiters + [b]) && s'.d.busy == d.busy
       else if Ousts(d, bio, j) && bio.size < Size(d.wide) then
         pc == SubmitOnce(j) && slot' == slot.(state := WRITING, waiters := slot.waiters + [b]) && s'.d.busy == d.busy
       else if Ousts(d, bio, j) then
         pc == Dec(Result([b])) && slot' == slot.(state := EMPTY) && s'.d.busy == d.busy - 1
       else
         pc == Dec(Result([b])) && slot' == slot && s'.d.busy == d.busy
  }

  /** What a lookup does, for every bio in every run. A read or write that finds its block DIRTY is copied from
      or to that slot. A write of a whole block that finds its slot EMPTY fills it exactly if the mask has
      the bit of the block. A bio whose block is being copied or written back waits for it, behind those that
      wait already. A FUA write or discard that finds its block DIRTY drops it if it covers it, and otherwise
      has it written back first. Every other bio goes to the storage and leaves the cache alone. */
  lemma LookVerdict(run: seq<State>, p: nat, i: nat, b: nat)
    requires IsRun(run) && p < |run| && CanRun(run[p], i) && run[p].th[i].pc == Look(b)
    ensures var s, s' := run[p], RunThread(run[p], i);
            && |s'.d.slots| == |s.d.slots| && i < |s'.th| && s.d.slots != []
            && LookedUp(s, s', i, b, Number(s.d.wide, s.bios[b]) % |s.d.slots|)
  {
    var s := run[p];
    InvAlways(run, p);
    assert ThreadOk(s, i, s.th[i]);
    assert Fits(s.d.wide, |s.disk|, s.bios[b]);
    Blocks(s.d.wide, s.bios[b]);
    FoundBy(s.d, s.bios[b], Number(s.d.wide, s.bios[b]) % |s.d.slots|);
  }

  // ---- What is written back ----

  /** Thread i has slot j written back when it runs next: it has just filled or changed the slot during a
      flush, or walks the cache for a flush and finds it DIRTY, or looks up a FUA write or discard of part
      of its block. */
  predicate WritesSlot(s: State, i: nat, j: nat)
    requires i < |s.th| && j < |s.d.slots|
  {
    match s.th[i].pc
    case Copied(m) => m == j && s.d.flushFlag
    case Walk(m) => m == j && s.d.slots[j].state.DIRTY?
    case Look(b) =>
      && b < |s.bios| && j == Number(s.d.wide, s.bios[b]) % |s.d.slots|
      && Ousts(s.d, s.bios[b], j) && s.bios[b].size < Size(s.d.wide)
    case _ => false
  }

  predicate Turns(s: State, s': State, j: nat)
    requires j < |s.d.slots|
  {
    |s'.d.slots| == |s.d.slots| && !s.d.slots[j].state.WRITING? && s'.d.slots[j].state.WRITING?
  }

  lemma WritesLook(s: State, i: nat, b: nat, j: nat)
    requires Inv(s) && CanRun(s, i) && s.th[i].pc == Look(b) && j < |s.d.slots|
    ensures Turns(s, StepLook(s, i, b), j) <==> WritesSlot(s, i, j)
  {
    assert ThreadOk(s, i, s.th[i]);
    assert Fits(s.d.wide, |s.disk|, s.bios[b]);
    Blocks(s.d.wide, s.bios[b]);
    FoundBy(s.d, s.bios[b], Number(s.d.wide, s.bios[b]) % |s.d.slots|);
  }

  lemma WritesCopied(s: State, i: nat, m: nat, j: nat)
    requires Inv(s) && CanRun(s, i) && s.th[i].pc == Copied(m) && j < |s.d.slots|
    ensures Turns(s, StepCopied(s, i, m), j) <==> WritesSlot(s, i, j)
  {
    assert ThreadOk(s, i, s.th[i]);
  }

  lemma WritesCall(s: State, i: nat, j: nat)
    requires Inv(s) && CanRun(s, i) && InCall(s.th[i].pc) && j < |s.d.slots|
    ensures Turns(s, RunCall(s, i), j) <==> WritesSlot(s, i, j)
  {
    var pc := s.th[i].pc;
    if pc.Look? {
      WritesLook(s, i, pc.b, j);
    } else if pc.Copied? {
      WritesCopied(s, i, pc.slot, j);
    }
  }

  lemma WritesFlush(s: State, i: nat, j: nat)
    requires CanRun(s, i) && InFlush(s.th[i].pc) && j < |s.d.slots|
    ensures Turns(s, RunFlush(s, i), j) <==> WritesSlot(s, i, j)
  {
  }

  lemma WritesRest(s: State, i: nat, j: nat)
    requires CanRun(s, i) && !InCall(s.th[i].pc) && !InFlush(s.th[i].pc) && j < |s.d.slots|
    ensures !Turns(s, RunRest(s, i), j)
  {
  }

  /** A section has a slot written back exactly in these three cases. */
  lemma WritesRun(run: seq<State>, p: nat, i: nat, j: nat)
    requires IsRun(run) && p < |run| && CanRun(run[p], i) && j < |run[p].d.slots|
    ensures Turns(run[p], RunThread(run[p], i), j) <==> WritesSlot(run[p], i, j)
  {
    var s := run[p];
    InvAlways(run, p);
    if InCall(s.th[i].pc) {
      WritesCall(s, i, j);
    } else if InFlush(s.th[i].pc) {
      WritesFlush(s, i, j);
    } else {
      WritesRest(s, i, j);
    }
  }

  /** In every run, whenever a slot comes to be written back, a thread ran that wrote it for a flush or for a
      FUA write or discard of part of its own block. */
  lemma WrittenFor(run: seq<State>, p: nat, j: nat) returns (i: nat)
    requires IsRun(run) && 0 < p < |run| && j < |run[p - 1].d.slots| && Turns(run[p - 1], run[p], j)
    ensures CanRun(run[p - 1], i) && run[p] == RunThread(run[p - 1], i) && WritesSlot(run[p - 1], i, j)
  {
    var s, s' := run[p - 1], run[p];
    assert Follows(s, s');
    var step :| Enabled(s, step) && s' == Next(s, step);
    i := step.i;
    WritesRun(run, p - 1, i, j);
  }

  // ---- With an atomic decrement, only during a flush ----

  predicate Walking(pc: Pc) { pc.Walk? || pc.SubmitWalk? }

  /** Only a ticket clears the flag, and a walk begins only with the flag set. */
  predicate FlagMove(s: State, s': State, i: nat)
    requires i < |s.th|
  {
    && (s.d.flushFlag && !s'.d.flushFlag ==> s.th[i].pc.Ticket?)
    && (forall k :: 0 <= k < |s'.th| && Walking(s'.th[k].pc) ==> (k < |s.th| && Walking(s.th[k].pc)) || s'.d.flushFlag)
  }

  lemma FlagCall(s: State, i: nat)
    requires CanRun(s, i) && InCall(s.th[i].pc)
    ensures FlagMove(s, RunCall(s, i), i)
  {
  }

  lemma FlagFlush(s: State, i: nat)
    requires CanRun(s, i) && InFlush(s.th[i].pc)
    ensures FlagMove(s, RunFlush(s, i), i)
  {
  }

  lemma FlagLists(s: State, i: nat)
    requires CanRun(s, i) && (s.th[i].pc.Hand? || s.th[i].pc.Then? || s.th[i].pc.Pop? || s.th[i].pc.Take?)
    ensures FlagMove(s, RunRest(s, i), i)
  {
    match s.th[i].pc
    case Hand(k, ready, flushes) =>
    case Then(k) =>
    case Pop =>
    case Take =>
  }

  lemma FlagRest(s: State, i: nat)
    requires CanRun(s, i) && !InCall(s.th[i].pc) && !InFlush(s.th[i].pc)
    ensures FlagMove(s, RunRest(s, i), i)
  {
    match s.th[i].pc
    case Hand(_, _, _) => FlagLists(s, i);
    case Then(_) => FlagLists(s, i);
    case Pop => FlagLists(s, i);
    case Take => FlagLists(s, i);
    case _ =>
  }

  lemma FlagRun(s: State, i: nat)
    requires CanRun(s, i)
    ensures FlagMove(s, RunThread(s, i), i)
  {
    if InCall(s.th[i].pc) {
      FlagCall(s, i);
    } else if InFlush(s.th[i].pc) {
      FlagFlush(s, i);
    } else {
      FlagRest(s, i);
    }
  }

  /** A flush is in progress as long as its walk. */
  predicate WalkFlagged(s: State) { forall k :: 0 <= k < |s.th| && Walking(s.th[k].pc) ==> s.d.flushFlag }

  lemma FlaggedNext(s: State, step: Step)
    requires Enabled(s, step) && WalkFlagged(s)
    requires step.Run? && s.th[step.i].pc.Ticket? ==> Idle(s)
    ensures WalkFlagged(Next(s, step))
  {
    if step.Run? {
      FlagRun(s, step.i);
    }
  }

  lemma {:induction false} WalkHasFlag(run: seq<State>, steps: seq<Step>, p: nat)
    requires IsSteps(run, steps) && Atomic(run, steps) && p < |run|
    ensures WalkFlagged(run[p])
  {
    if p > 0 {
      WalkHasFlag(run, steps, p - 1);
      IdleTicket(run, steps, p - 1);
      assert Enabled(run[p - 1], steps[p - 1]) && run[p - 1 + 1] == Next(run[p - 1], steps[p - 1]);
      FlaggedNext(run[p - 1], steps[p - 1]);
    }
  }

  lemma IdleTicket(run: seq<State>, steps: seq<Step>, p: nat)
    requires IsSteps(run, steps) && Atomic(run, steps) && p < |run|
    ensures (exists k :: 0 <= k < |run[p].th| && run[p].th[k].pc.Ticket?) ==> Idle(run[p])
  {
    if k :| 0 <= k < |run[p].th| && run[p].th[k].pc.Ticket? {
      StepsAreRuns(run, steps);
      NeverEarly(run, steps, p);
      BusyZeroIffIdle(run, p);
    }
  }

  predicate WritesHere(s: State, i: nat, j: nat) { CanRun(s, i) && j < |s.d.slots| && WritesSlot(s, i, j) }

  /** Thread i has slot j written back, during a flush or for its lookup of a FUA write or discard. */
  predicate WritesAskedFor(s: State, i: nat, j: nat)
  {
    WritesHere(s, i, j) && (s.d.flushFlag || s.th[i].pc.Look?)
  }

  predicate AllFlagged(run: seq<State>) { forall q :: 0 <= q < |run| ==> WalkFlagged(run[q]) }

  lemma FlaggedInSteps(run: seq<State>, steps: seq<Step>)
    requires IsSteps(run, steps) && Atomic(run, steps)
    ensures IsRun(run) && AllFlagged(run)
  {
    StepsAreRuns(run, steps);
    forall q | 0 <= q < |run| ensures WalkFlagged(run[q]) {
      WalkHasFlag(run, steps, q);
    }
  }

  lemma AskedFor(run: seq<State>, p: nat, j: nat) returns (i: nat)
    requires IsRun(run) && AllFlagged(run) && 0 < p < |run| && j < |run[p - 1].d.slots| && Turns(run[p - 1], run[p], j)
    ensures WritesAskedFor(run[p - 1], i, j)
  {
    i := WrittenFor(run, p, j);
    FlagOrLook(run[p - 1], i, j);
  }

  /** If no other section runs between the decrement to zero and the flush section, a slot comes to be written
      back only during a flush, or for a FUA write or discard of part of its own block. */
  lemma AtomicWrittenFor(run: seq<State>, steps: seq<Step>, p: nat, j: nat) returns (i: nat)
    requires IsSteps(run, steps) && Atomic(run, steps)
    requires 0 < p < |run| && j < |run[p - 1].d.slots| && Turns(run[p - 1], run[p], j)
    ensures WritesAskedFor(run[p - 1], i, j)
  {
    FlaggedInSteps(run, steps);
    i := AskedFor(run, p, j);
  }

  lemma FlagOrLook(s: State, i: nat, j: nat)
    requires WritesHere(s, i, j) && WalkFlagged(s)
    ensures WritesAskedFor(s, i, j)
  {
  }
}
