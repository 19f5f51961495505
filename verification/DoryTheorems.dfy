/**
 What the Dory device guarantees in every state of every run.
 */
module DoryTheorems {
  import opened DoryDisk
  import opened DorySections
  import opened DoryMachine
  import opened DoryTally
  import opened DoryStructure
  import opened DoryStructureSteps
  import opened DoryAccounts
  import opened DoryProtocol
  import opened DoryView
  import opened DoryCrash
  import opened DoryInv
  import opened Sums

  // ---- Refinement of a flat disk ----

  /** Until a write-back has been refused, the completions are a history of a flat disk: each read
      returned what the writes acknowledged before it left there. And the storage overlaid with
      the slots is that disk, except under a full-block FUA write or discard in flight. */
  lemma FlatDisk(run: seq<State>, p: nat)
    requires IsRun(run) && p < |run|
    ensures var s := run[p];
            && |s.disk| == |Flat(s)| && |s.aux.notes| == |s.d.slots|
            && (s.aux.lost == {} ==> Legal(s.d.wide, s.aux.init, s.bios, s.done))
            && (forall k :: 0 <= k < |s.disk| && !Excused(s, k) ==> ViewAt(s, k) == Flat(s)[k])
            && (!s.d.stop ==> s.aux.lost == {})
  {
    InvAlways(run, p);
  }

  /** On the flat disk, an acknowledged write stays until an acknowledged write overlaps it. */
  lemma {:induction false} FlatHas(s: State, p: nat, n: nat)
    requires Static(s) && p < n <= |s.done| && Changes(s.bios, s.done[p]) && !Overwritten(s, p)
    ensures Get(s.d.wide, Replay(s.d.wide, s.aux.init, s.bios, s.done[..n]), s.bios[s.done[p].id]) == s.bios[s.done[p].id].data
    decreases n
  {
    var bio := s.bios[s.done[p].id];
    assert Fits(s.d.wide, |s.disk|, bio);
    var before := Replay(s.d.wide, s.aux.init, s.bios, s.done[..n - 1]);
    assert s.done[..n][..n - 1] == s.done[..n - 1];
    ReplaySized(s.d.wide, s.aux.init, s.bios, s.done[..n - 1]);
    if p < n - 1 {
      FlatHas(s, p, n - 1);
      var e := s.done[n - 1];
      if Changes(s.bios, e) {
        assert Fits(s.d.wide, |s.disk|, s.bios[e.id]);
        assert !Overlap(s.d.wide, s.bios[e.id], bio);
        GetApart(s.d.wide, before, s.bios[e.id], bio);
      }
    }
  }

  // ---- Flushes ----

  /** Nothing that the busy count is meant to count: no slot in use, no call or callback working. */
  predicate Idle(s: State)
  {
    && (forall j :: 0 <= j < |s.d.slots| ==> s.d.slots[j].state.EMPTY?)
    && (forall i :: 0 <= i < |s.th| ==> !Counted(s.th[i].pc))
  }

  /** The busy count is exact and never negative, so it is zero exactly when the device is idle:
      a flush section that completes flushes does so on an idle device if and only if it finds the
      busy count at zero. */
  lemma BusyZeroIffIdle(run: seq<State>, p: nat)
    requires IsRun(run) && p < |run|
    ensures run[p].d.busy == Active(run[p].th) + Occupied(run[p].d.slots)
    ensures run[p].d.busy == 0 <==> Idle(run[p])
    ensures (forall j :: 0 <= j < |run[p].d.slots| ==> run[p].d.slots[j].state.EMPTY?) <==>
            run[p].d.busy == Active(run[p].th)
  {
    var s := run[p];
    InvAlways(run, p);
    OccupiedZero(s.d.slots);
    TotalZero(Busy1, 0, s.th);
    assert forall i :: 0 <= i < |s.th| ==> (Busy1(0, s.th[i]) == 0 <==> !Counted(s.th[i].pc));
  }

  /** With every slot EMPTY, the storage itself is the flat disk, but for the excused blocks. */
  lemma StorageIsFlat(s: State, k: nat)
    requires Inv(s) && k < |s.disk| && !Excused(s, k)
    requires forall j :: 0 <= j < |s.d.slots| ==> s.d.slots[j].state.EMPTY?
    ensures s.disk[k] == Flat(s)[k]
  {
    assert ViewAt(s, k) == Flat(s)[k];
  }

  lemma StorageHas(s: State, q: nat)
    requires Inv(s) && q < |s.done| && Changes(s.bios, s.done[q]) && !Overwritten(s, q)
    requires !Excused(s, BlockOf(s.d.wide, s.bios[s.done[q].id]))
    requires forall j :: 0 <= j < |s.d.slots| ==> s.d.slots[j].state.EMPTY?
    ensures Get(s.d.wide, s.disk, s.bios[s.done[q].id]) == s.bios[s.done[q].id].data
  {
    assert Fits(s.d.wide, |s.disk|, s.bios[s.done[q].id]);
    assert s.done[..|s.done|] == s.done;
    FlatHas(s, q, |s.done|);
    StorageIsFlat(s, BlockOf(s.d.wide, s.bios[s.done[q].id]));
  }

  /** Whenever every slot is EMPTY, the storage holds the flat disk, except in a block that was lost
      at a stop or whose slot was dropped by a full-block FUA write or discard still in flight. */
  lemma EmptyMeansStored(run: seq<State>, p: nat)
    requires IsRun(run) && p < |run|
    requires forall j :: 0 <= j < |run[p].d.slots| ==> run[p].d.slots[j].state.EMPTY?
    ensures var s := run[p];
            && |s.disk| == |Flat(s)|
            && (forall k :: 0 <= k < |s.disk| ==> s.disk[k] == Flat(s)[k] || Excused(s, k))
            && (forall k :: k in s.aux.dropped ==>
                  && s.aux.dropped[k] < |s.bios| && !Ended(s, s.aux.dropped[k])
                  && Full(s.d.wide, s.bios[s.aux.dropped[k]])
                  && BlockOf(s.d.wide, s.bios[s.aux.dropped[k]]) == k)
  {
    var s := run[p];
    InvAlways(run, p);
    forall k | 0 <= k < |s.disk| && !Excused(s, k) ensures s.disk[k] == Flat(s)[k] {
      StorageIsFlat(s, k);
    }
    forall k | k in s.aux.dropped ensures !Ended(s, s.aux.dropped[k]) {
      OutLive(s, s.aux.dropped[k]);
    }
  }

  // ---- Bios ----

  /** Every accepted bio is in exactly one place, and no bio ends twice. */
  lemma BioConservation(run: seq<State>, p: nat)
    requires IsRun(run) && p < |run|
    ensures forall id: nat :: Places(run[p], id) == if id < |run[p].bios| then 1 else 0
    ensures forall a, b :: 0 <= a < b < |run[p].done| ==> run[p].done[a].id != run[p].done[b].id
  {
    var s := run[p];
    InvAlways(run, p);
    forall a, b | 0 <= a < b < |s.done| ensures s.done[a].id != s.done[b].id {
      assert Places(s, s.done[a].id) <= 1;
      TotalTwo(Id1, s.done[a].id, s.done, a, b);
    }
  }

  /** No bio is stranded: a slot with waiters has an owner at work on it, queued bios have their one
      work item, and deferred bios have a flush in progress that a call will complete. Once no call is
      working during a flush, every slot in use is being written. */
  lemma NoneStranded(run: seq<State>, p: nat)
    requires IsRun(run) && p < |run|
    ensures var s := run[p];
            && |s.aux.notes| == |s.d.slots|
            && (forall j :: 0 <= j < |s.d.slots| && s.d.slots[j].waiters != [] ==>
                  && (s.d.slots[j].state.COPYING? || s.d.slots[j].state.WRITING?)
                  && s.aux.notes[j].owner < |s.th| && Owns(s.th[s.aux.notes[j].owner].pc) == j)
            && (HasWork(s.d) <==> exists i :: 0 <= i < |s.th| && s.th[i].pc == Take)
            && (forall i, k :: 0 <= i < |s.th| && 0 <= k < |s.th| && s.th[i].pc == Take && s.th[k].pc == Take ==> i == k)
            && (s.d.waiting != [] ==> s.d.flushFlag)
            && (s.d.flushFlag <==> s.d.flushBios != [])
            && (s.d.flushFlag ==> s.d.busy > 0 || exists i :: 0 <= i < |s.th| && s.th[i].pc.Ticket?)
            && (s.d.flushFlag && (forall i :: 0 <= i < |s.th| ==> !Counted(s.th[i].pc)) ==>
                  forall j :: 0 <= j < |s.d.slots| && !s.d.slots[j].state.EMPTY? ==> s.d.slots[j].state.WRITING?)
  {
    var s := run[p];
    InvAlways(run, p);
    forall j | 0 <= j < |s.d.slots| && s.d.slots[j].waiters != []
      ensures Owned(s.d.slots[j]) && s.aux.notes[j].owner < |s.th| && Owns(s.th[s.aux.notes[j].owner].pc) == j
    {
      assert SlotOk(s, j) && OwnerOk(s, j);
    }
    if HasWork(s.d) {
      assert s.th[s.aux.worker].pc == Take;
    }
    if s.d.flushFlag && forall i :: 0 <= i < |s.th| ==> !Counted(s.th[i].pc) {
      forall j | 0 <= j < |s.d.slots| && !s.d.slots[j].state.EMPTY? ensures s.d.slots[j].state.WRITING? {
        var i := WalkOrCopy(s, j);
      }
    }
  }

  /** During a flush, a slot in use is being written, or a call is at work: the walk or a copy. */
  lemma WalkOrCopy(s: State, j: nat) returns (i: nat)
    requires Inv(s) && s.d.flushFlag && j < |s.d.slots| && !s.d.slots[j].state.EMPTY?
    ensures s.d.slots[j].state.WRITING? || (i < |s.th| && Counted(s.th[i].pc))
  {
    i := s.aux.walker;
    if s.d.slots[j].state.DIRTY? {
      assert Ahead(s.th, i, j);
    } else {
      i := s.aux.notes[j].owner;
      assert OwnerOk(s, j);
      assert ThreadOk(s, i, s.th[i]);
    }
  }

  // ---- The cache and the storage ----

  /** A slot in use holds a block of its own residue class, so a block is cached at most once; and
      while a bio is on its way to the storage no slot holds its block, so no later write-back can
      overwrite it with older data. */
  lemma NoStaleWriteBack(run: seq<State>, p: nat)
    requires IsRun(run) && p < |run|
    ensures var s := run[p];
            && (forall j :: 0 <= j < |s.d.slots| && !s.d.slots[j].state.EMPTY? ==>
                  SlotOf(|s.d.slots|, s.d.slots[j].block) == j)
            && (forall j, m :: 0 <= j < m < |s.d.slots| && !s.d.slots[j].state.EMPTY? && !s.d.slots[m].state.EMPTY? ==>
                  s.d.slots[j].block != s.d.slots[m].block)
            && (forall id: nat, j ::
                  (id < |s.bios| && Outgoing(s.th, id) > 0 && !IsFlush(s.bios[id]) &&
                   0 <= j < |s.d.slots| && !s.d.slots[j].state.EMPTY?) ==>
                  s.d.slots[j].block != BlockOf(s.d.wide, s.bios[id]))
  {
    var s := run[p];
    InvAlways(run, p);
    forall j | 0 <= j < |s.d.slots| && !s.d.slots[j].state.EMPTY? ensures SlotOf(|s.d.slots|, s.d.slots[j].block) == j {
      assert SlotOk(s, j);
    }
    forall id: nat, j | id < |s.bios| && Outgoing(s.th, id) > 0 && !IsFlush(s.bios[id]) &&
                        0 <= j < |s.d.slots| && !s.d.slots[j].state.EMPTY?
      ensures s.d.slots[j].block != BlockOf(s.d.wide, s.bios[id])
    {
      assert Clear(s, s.bios[id]);
    }
  }

  /** The bare decrement of the full-block FUA or discard path never reaches zero. */
  lemma DropStaysBusy(run: seq<State>, p: nat, i: nat, b: nat)
    requires IsRun(run) && p < |run| && CanRun(run[p], i) && run[p].th[i].pc == Look(b)
    requires FoundOf(run[p].d, run[p].bios[b]).Drop?
    ensures StepLook(run[p], i, b).d.busy > 0
  {
    InvAlways(run, p);
    CountedPositive(run[p], i, SlotOf(|run[p].d.slots|, BlockOf(run[p].d.wide, run[p].bios[b])));
  }

  // ---- What a stop can cost ----

  /** A FUA write that was acknowledged is on the storage, before and after a stop, until another
      acknowledged write overlaps it. */
  lemma FuaNeverLost(run: seq<State>, p: nat, q: nat)
    requires IsRun(run) && p < |run| && q < |run[p].done|
    requires run[p].done[q].served && run[p].done[q].id < |run[p].bios| && run[p].bios[run[p].done[q].id].op.Fua?
    requires !Overwritten(run[p], q)
    ensures Get(run[p].d.wide, run[p].disk, run[p].bios[run[p].done[q].id]) == run[p].bios[run[p].done[q].id].data
  {
    InvAlways(run, p);
  }
}
