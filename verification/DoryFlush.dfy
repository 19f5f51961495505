/**
 What a completed flush promises, in every run, and when its verdict is right.
 */
module DoryFlush {
  import opened DoryDisk
  import opened DorySections
  import opened DoryMachine
  import opened DoryView
  import opened DoryInv
  import opened DoryTheorems
  import opened DoryGrain
  import opened DoryDurable
  import opened DoryServed

  // ---- Durability ----

  /** Thread i is about to complete flushes. It dropped the busy count to zero in the step to some state
      m, and every write acknowledged by then stays on the storage. */
  lemma TicketDurable(run: seq<State>, e: nat, p: nat, i: nat, r: nat) returns (m: nat)
    requires IsRun(run) && e <= p <= r < |run| && HasTicket(run[p], i)
    ensures TicketFrom(run, m, p, i)
    ensures DurableAt(run, m, m, r)
    ensures e <= m ==> DurableAt(run, e, m, r)
    ensures LossOk(run[m])
  {
    m := TicketHas(run, p, i);
    BusyZeroIffIdle(run, m);
    DurableFrom(run, m, m, r);
    if e <= m {
      DurableFrom(run, e, m, r);
    }
    LossCounted(run, m);
  }

  /** Flush durability at the driver's own grain. At state r, flush f has been acknowledged. On a device
      with a cache it joined the flushes in progress in the step to state e and was completed at state p
      by a thread that had dropped the busy count to zero in the step to state m. Every write
      acknowledged by then is on the storage, also after a stop. That is every write acknowledged before
      the flush if the flush joined by then; `DoryRuns.EarlyFlush` is a run in which it joined later.
      Without a cache, every write acknowledged when the flush was forwarded is on the storage. */
  lemma FlushDurable(run: seq<State>, f: nat, r: nat, q: nat) returns (e: nat, p: nat, i: nat, m: nat)
    requires IsRun(run) && r < |run| && f < |run[r].bios| && IsFlush(run[r].bios[f]) && ServedAt(run[r], q, f)
    ensures p < r && m <= p && DurableAt(run, m, m, r)
    ensures run[m].d.flushFailure == 0 ==> run[m].aux.lost == {}
    ensures run[p].d.slots == [] ==> m == p
    ensures run[p].d.slots != [] ==>
              && Joins(run, e, f) && e <= p && f in run[p].d.flushBios
              && TicketFrom(run, m, p, i)
              && (e <= m ==> DurableAt(run, e, m, r))
  {
    e, p, i := ServedFlush(run, r, q, f);
    if run[p].d.slots == [] {
      m := p;
      DurableFrom(run, m, m, r);
      LossCounted(run, m);
    } else {
      m := TicketDurable(run, e, p, i, r);
    }
  }

  /** When the decrement to zero and the flush section run as one, every acknowledged flush has made
      durable all that was acknowledged before it joined. */
  lemma AtomicFlushDurable(run: seq<State>, steps: seq<Step>, f: nat, r: nat, q: nat) returns (e: nat, p: nat)
    requires IsSteps(run, steps) && Atomic(run, steps)
    requires r < |run| && f < |run[r].bios| && IsFlush(run[r].bios[f]) && ServedAt(run[r], q, f)
    ensures e <= p < r && DurableAt(run, e, p, r)
    ensures run[p].d.flushFailure == 0 ==> run[p].aux.lost == {}
    ensures if run[p].d.slots == [] then e == p else Joins(run, e, f) && f in run[p].d.flushBios
  {
    StepsAreRuns(run, steps);
    var i;
    e, p, i := ServedFlush(run, r, q, f);
    if run[p].d.slots == [] {
      e := p;
    } else {
      NeverEarly(run, steps, p);
      BusyZeroIffIdle(run, p);
    }
    DurableFrom(run, e, p, r);
    LossCounted(run, p);
  }

  // ---- What a stop can cost ----

  /** At any moment, so also at the stop: whatever the storage lacks of the flat disk is in a slot, was
      lost, or is about to be overwritten; and no acknowledged write that the storage lacks was
      acknowledged by a moment when every slot was EMPTY, such as the decrement of a completed flush,
      unless its block had been lost by then or is about to be overwritten. */
  lemma CrashExposure(run: seq<State>, m: nat, p: nat, k: nat)
    requires IsRun(run) && m <= p < |run| && AllEmpty(run[m]) && k < |run[p].disk|
    ensures |Flat(run[p])| == |run[p].disk| && |run[p].aux.notes| == |run[p].d.slots|
    ensures run[p].disk[k] != Flat(run[p])[k] ==>
              || k in run[p].aux.lost || AboutToBeOver(run[p], k) || HeldFrom(run[p], |run[m].done|, k)
    ensures forall q: nat :: Stands(run[p], q) && !Stored(run[p], q) ==>
              || q >= |run[m].done|
              || BlockAt(run[p], q) in run[m].aux.lost || AboutToBeOver(run[p], BlockAt(run[p], q))
  {
    var s := run[p];
    InvAlways(run, p);
    DurableFrom(run, m, m, p);
    KeptAlways(run, m, p);
    if k in s.aux.dropped {
      DroppedIsAbout(s, k);
    } else if s.disk[k] != Flat(s)[k] && k !in s.aux.lost {
      assert ViewAt(s, k) == Flat(s)[k];
    }
  }

  /** A slot holds block k as on the flat disk, filled by the mark-th ending or later. */
  predicate HeldFrom(s: State, mark: nat, k: nat)
    requires |s.aux.notes| == |s.d.slots| && k < |Flat(s)|
  {
    s.d.slots != [] &&
    var j := SlotOf(|s.d.slots|, k);
    && Holds(s, j) && s.d.slots[j].block == k && s.d.slots[j].data == Flat(s)[k]
    && s.aux.notes[j].since >= mark
  }

  // ---- What was lost, and what a flush is told ----

  /** Blocks are lost exactly if the device has counted a flush failure. */
  predicate LossOk(s: State)
  {
    && (s.d.flushFailure == 0 <==> s.aux.lost == {})
    && (s.d.writeFailure > 0 ==> s.d.stop) && (s.d.flushFailure > 0 ==> s.d.stop)
  }

  predicate LossMove(s: State, s': State)
  {
    && s'.d.stop == s.d.stop
    && (s'.d.writeFailure == s.d.writeFailure || s.d.stop)
    && if s'.d.flushFailure == s.d.flushFailure then s'.aux.lost == s.aux.lost
       else s'.d.flushFailure > 0 && s'.aux.lost != {} && s.d.stop
  }

  lemma LossCall(s: State, i: nat)
    requires CanRun(s, i) && InCall(s.th[i].pc)
    ensures LossMove(s, RunCall(s, i))
  {
  }

  lemma LossFlush(s: State, i: nat)
    requires CanRun(s, i) && InFlush(s.th[i].pc)
    ensures LossMove(s, RunFlush(s, i))
  {
    if !s.th[i].pc.Walk? && s.d.stop {
      assert s.d.slots[s.th[i].pc.slot].block in RunFlush(s, i).aux.lost;
    }
  }

  lemma LossRest(s: State, i: nat)
    requires CanRun(s, i) && !InCall(s.th[i].pc) && !InFlush(s.th[i].pc)
    ensures LossMove(s, RunRest(s, i))
  {
  }

  lemma LossStep(s: State, s': State)
    requires LossOk(s) && Follows(s, s')
    ensures LossOk(s')
  {
    var step :| Enabled(s, step) && s' == Next(s, step);
    if step.Run? {
      var i := step.i;
      if InCall(s.th[i].pc) {
        LossCall(s, i);
      } else if InFlush(s.th[i].pc) {
        LossFlush(s, i);
      } else {
        LossRest(s, i);
      }
    }
  }

  lemma {:induction false} LossCounted(run: seq<State>, p: nat)
    requires IsRun(run) && p < |run|
    ensures LossOk(run[p])
  {
    if p > 0 {
      LossCounted(run, p - 1);
      assert Follows(run[p - 1], run[p]);
      LossStep(run[p - 1], run[p]);
    }
  }

  /** The next flush of a work item is refused exactly if a write has been refused. It should be
      refused if something was lost, that is if a flush failure has been counted: the verdict is right
      exactly when both counts are zero or neither is. */
  lemma FlushVerdict(run: seq<State>, p: nat, i: nat, f: nat)
    requires IsRun(run) && p < |run| && i < |run[p].th| && run[p].th[i].pc.Flushes?
    requires run[p].th[i].pc.left != [] && run[p].th[i].pc.left[0] == f
    ensures var s := run[p];
            var refused := StepFlushes(s, i, s.th[i].pc.left).done == s.done + [Ending(f, false, false, [])];
            && (refused <==> s.d.writeFailure > 0)
            && ((refused <==> s.aux.lost != {}) <==> (s.d.writeFailure > 0 <==> s.d.flushFailure > 0))
  {
    LossCounted(run, p);
    assert |run[p].done + [Ending(f, false, false, [])]| != |run[p].done|;
  }
}
