/**
 Where the acknowledgement of a flush comes from: a thread that dropped the busy count to zero and
 found the flush among those in progress.
 */
module DoryServed {
  import opened Sums
  import opened DoryDisk
  import opened DorySections
  import opened DoryMachine
  import opened DoryTally
  import opened DoryAccounts
  import opened DoryInv
  import opened DoryTheorems
  import opened DoryGrain
  import opened DoryDurable

  // ---- Before its completion a flush is in its call or in the list ----

  predicate Arrives(pc: Pc, f: nat) { pc == Start(f) || pc == Enter(f) }

  predicate Early(s: State, f: nat)
  {
    f in s.d.flushBios || exists i :: 0 <= i < |s.th| && Arrives(s.th[i].pc, f)
  }

  predicate Past(s: State, f: nat) { f < |s.bios| && !Early(s, f) }

  lemma StaysEarly(s: State, s': State, i: nat, t: Thread, fork: seq<Thread>, f: nat)
    requires i < |s.th| && s'.th == Moved(s.th, i, t, fork) && Early(s, f)
    requires f in s.d.flushBios ==> f in s'.d.flushBios
    requires Arrives(s.th[i].pc, f) ==> Arrives(t.pc, f) || f in s'.d.flushBios
    ensures Early(s', f)
  {
    if f !in s'.d.flushBios {
      var k :| 0 <= k < |s.th| && Arrives(s.th[k].pc, f);
      assert Arrives(s'.th[k].pc, f);
    }
  }

  /** Thread i is about to complete flush f. */
  predicate Released(s: State, i: nat, f: nat) { HasTicket(s, i) && f in s.d.flushBios }

  predicate TurnedAway(s: State, s': State, f: nat) { s'.done == s.done + [Ending(f, false, false, [])] }

  lemma PastStart(s: State, i: nat, b: nat, f: nat)
    requires CanRun(s, i) && s.th[i].pc == Start(b) && Early(s, f) && s.d.slots != []
    ensures var s' := StepStart(s, i, b); Early(s', f) || TurnedAway(s, s', f)
  {
    var s', t := StepStart(s, i, b), s.th[i].(pc := AfterStart(s.d, s.bios[b], b));
    if b != f || !GateOf(s.d, s.bios[b]).Refuse? {
      StaysEarly(s, s', i, t, [], f);
    }
  }

  lemma PastEnter(s: State, i: nat, b: nat, f: nat)
    requires CanRun(s, i) && s.th[i].pc == Enter(b) && Early(s, f) && f < |s.bios| && IsFlush(s.bios[f])
    ensures Early(StepEnter(s, i, b), f)
  {
    StaysEarly(s, StepEnter(s, i, b), i, s.th[i].(pc := AfterEnter(s.d, s.bios[b], b)), [], f);
  }

  lemma PastCall(s: State, i: nat, f: nat)
    requires CanRun(s, i) && InCall(s.th[i].pc) && Early(s, f) && f < |s.bios| && IsFlush(s.bios[f]) && s.d.slots != []
    ensures var s' := RunCall(s, i); Early(s', f) || TurnedAway(s, s', f)
  {
    var pc, s' := s.th[i].pc, RunCall(s, i);
    if pc.Start? {
      PastStart(s, i, pc.b, f);
    } else if pc.Enter? {
      PastEnter(s, i, pc.b, f);
    } else {
      StaysEarly(s, s', i, s'.th[i], [], f);
    }
  }

  lemma PastFlush(s: State, i: nat, f: nat)
    requires CanRun(s, i) && InFlush(s.th[i].pc) && Early(s, f)
    ensures Early(RunFlush(s, i), f)
  {
    var s' := RunFlush(s, i);
    StaysEarly(s, s', i, s'.th[i], s'.th[|s.th|..], f);
  }

  lemma PastRest(s: State, i: nat, f: nat)
    requires CanRun(s, i) && !InCall(s.th[i].pc) && !InFlush(s.th[i].pc) && Early(s, f)
    ensures Early(RunRest(s, i), f) || Released(s, i, f)
  {
    var s' := RunRest(s, i);
    if !Released(s, i, f) {
      StaysEarly(s, s', i, s'.th[i], s'.th[|s.th|..], f);
    }
  }

  lemma PastRun(s: State, i: nat, f: nat)
    requires CanRun(s, i) && Early(s, f) && f < |s.bios| && IsFlush(s.bios[f]) && s.d.slots != []
    ensures var s' := RunThread(s, i); Early(s', f) || TurnedAway(s, s', f) || Released(s, i, f)
  {
    if InCall(s.th[i].pc) {
      PastCall(s, i, f);
    } else if InFlush(s.th[i].pc) {
      PastFlush(s, i, f);
    } else {
      PastRest(s, i, f);
    }
  }

  lemma PastOutside(s: State, step: Step, f: nat)
    requires Enabled(s, step) && !step.Run? && !Past(s, f)
    ensures !Past(Next(s, step), f)
  {
    var s' := Next(s, step);
    if f < |s.bios| && f !in s.d.flushBios {
      var k :| 0 <= k < |s.th| && Arrives(s.th[k].pc, f);
      assert Arrives(s'.th[k].pc, f);
    } else if f == |s.bios| && step.Accept? {
      assert Arrives(s'.th[|s.th|].pc, f);
    }
  }

  lemma BiosStep(s: State, s': State)
    requires Follows(s, s')
    ensures s.bios <= s'.bios
  {
    var step :| Enabled(s, step) && s' == Next(s, step);
  }

  /** The step that takes a flush past the list completes it, refuses it, or the device has no cache. */
  lemma PastStep(s: State, s': State, f: nat) returns (i: nat)
    requires Follows(s, s') && !Past(s, f) && Past(s', f) && IsFlush(s'.bios[f])
    ensures s.d.slots == [] || TurnedAway(s, s', f) || Released(s, i, f)
  {
    var step :| Enabled(s, step) && s' == Next(s, step);
    i := 0;
    if step.Run? {
      i := step.i;
      KeepsBios(s, i);
      if s.d.slots != [] {
        PastRun(s, i, f);
      }
    } else {
      PastOutside(s, step, f);
    }
  }

  lemma KeepsBios(s: State, i: nat)
    requires CanRun(s, i)
    ensures RunThread(s, i).bios == s.bios
  {
  }

  // ---- Over a run ----

  lemma {:induction false} PassesAt(run: seq<State>, r: nat, f: nat) returns (p: nat)
    requires r < |run| && !Past(run[0], f) && Past(run[r], f)
    ensures p < r && !Past(run[p], f) && Past(run[p + 1], f)
  {
    if Past(run[r - 1], f) {
      p := PassesAt(run, r - 1, f);
    } else {
      p := r - 1;
    }
  }

  lemma {:induction false} JoinedAt(run: seq<State>, p: nat, f: nat) returns (e: nat)
    requires p < |run| && f !in run[0].d.flushBios && f in run[p].d.flushBios
    ensures Joins(run, e, f) && e <= p
  {
    if f in run[p - 1].d.flushBios {
      e := JoinedAt(run, p - 1, f);
    } else {
      e := p;
    }
  }

  lemma {:induction false} BiosStay(run: seq<State>, a: nat, b: nat)
    requires IsRun(run) && a <= b < |run|
    ensures run[a].bios <= run[b].bios
  {
    if a < b {
      BiosStay(run, a, b - 1);
      var s, s' := run[b - 1], run[b];
      assert Follows(s, s');
      BiosStep(s, s');
    }
  }

  predicate ServedAt(s: State, q: nat, f: nat) { q < |s.done| && s.done[q].id == f && s.done[q].served }

  lemma EndedIsPast(s: State, f: nat)
    requires Inv(s) && Ended(s, f)
    ensures Past(s, f)
  {
    EndedBound(s);
    assert Places(s, f) == 1;
    EndingsIff(s.done, f);
    CountIff(s.d.flushBios, f);
    if i :| 0 <= i < |s.th| && Arrives(s.th[i].pc, f) {
      assert In1(f, s.th[i]) > 0;
      HeldOnce(s, i, f);
    }
  }

  /** A flush that is turned away is never acknowledged. */
  lemma NotServed(run: seq<State>, p: nat, r: nat, q: nat, f: nat)
    requires IsRun(run) && p < r < |run| && TurnedAway(run[p], run[p + 1], f)
    ensures !ServedAt(run[r], q, f)
  {
    DoneStays(run, p + 1, r);
    var z := |run[p].done|;
    assert run[r].done[z] == run[p + 1].done[z] == Ending(f, false, false, []);
    BioConservation(run, r);
  }

  /** Every acknowledged flush, on a device with a cache, was completed by a thread with a ticket, after it
      had joined the flushes in progress. */
  lemma ServedFlush(run: seq<State>, r: nat, q: nat, f: nat) returns (e: nat, p: nat, i: nat)
    requires IsRun(run) && r < |run| && f < |run[r].bios| && IsFlush(run[r].bios[f]) && ServedAt(run[r], q, f)
    ensures p < r && (run[p].d.slots == [] || (Joins(run, e, f) && e <= p && Released(run[p], i, f)))
  {
    InvAlways(run, r);
    EndedIsPast(run[r], f);
    p := PassesAt(run, r, f);
    BiosStay(run, p + 1, r);
    assert Follows(run[p + 1 - 1], run[p + 1]);
    i := PastStep(run[p], run[p + 1], f);
    if TurnedAway(run[p], run[p + 1], f) {
      NotServed(run, p, r, q, f);
      assert false;
    }
    e := 0;
    if run[p].d.slots != [] {
      e := JoinedAt(run, p, f);
    }
  }
}
