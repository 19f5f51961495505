/**
 The cache never gets in the way of the storage: while a bio is on its way to the storage, no
 slot holds its block. This rests on upper layers never having two conflicting bios in flight.
 */
module DoryCache {
  import opened DoryDisk
  import opened DorySections
  import opened DoryMachine
  import opened DoryTally
  import opened DoryStructure
  import opened DoryStructureSteps
  import opened DoryAccounts
  import opened Sums

  /** No two bios in flight conflict. */
  predicate Apart(s: State)
  {
    forall a, b :: 0 <= a < |s.bios| && 0 <= b < |s.bios| && a != b && !Ended(s, a) && !Ended(s, b) ==>
      !Conflict(s.d.wide, s.bios[a], s.bios[b])
  }

  ghost predicate RemapOk(s: State)
  {
    forall id: nat :: id < |s.bios| && Outgoing(s.th, id) > 0 ==> Clear(s, s.bios[id])
  }

  /** A dropped block is about to be overwritten as a whole by the bio that dropped its slot. */
  predicate DropOk(s: State)
  {
    forall k :: k in s.aux.dropped ==>
      var x := s.aux.dropped[k];
      && x < |s.bios| && Outgoing(s.th, x) > 0
      && BlockOf(s.d.wide, s.bios[x]) == k && Full(s.d.wide, s.bios[x])
      && (s.bios[x].op.Fua? || s.bios[x].op.Discard?)
  }

  ghost predicate CacheOk(s: State) { Apart(s) && RemapOk(s) && DropOk(s) }

  // ---- Steps that put no new block into the cache ----

  predicate NoNewBlock(s: State, s': State)
  {
    && |s'.d.slots| == |s.d.slots|
    && forall j :: 0 <= j < |s.d.slots| && !s'.d.slots[j].state.EMPTY? ==>
         !s.d.slots[j].state.EMPTY? && s'.d.slots[j].block == s.d.slots[j].block
  }

  function ForkOut(id: nat, fork: seq<Thread>): nat { if fork == [] then 0 else Out1(id, fork[0]) }

  /** Thread i gains no outgoing bio but clear ones, and loses none that dropped a slot. */
  ghost predicate OutMove(s: State, s': State, i: nat, t: Thread, fork: seq<Thread>)
    requires i < |s.th|
  {
    && (forall id: nat {:trigger Out1(id, t)} ::
          Out1(id, t) + ForkOut(id, fork) > Out1(id, s.th[i]) && id < |s.bios| ==> Clear(s', s.bios[id]))
    && (forall k {:trigger s'.aux.dropped[k]} :: k in s'.aux.dropped ==>
          Out1(s'.aux.dropped[k], t) + ForkOut(s'.aux.dropped[k], fork) >= Out1(s'.aux.dropped[k], s.th[i]))
  }

  lemma CacheKept(s: State, s': State, i: nat, t: Thread, fork: seq<Thread>)
    requires CacheOk(s) && i < |s.th| && |fork| <= 1 && s'.th == Moved(s.th, i, t, fork)
    requires s'.bios == s.bios && s'.d.wide == s.d.wide && s.done <= s'.done
    requires NoNewBlock(s, s')
    requires forall k :: k in s'.aux.dropped ==> k in s.aux.dropped && s'.aux.dropped[k] == s.aux.dropped[k]
    requires OutMove(s, s', i, t, fork)
    ensures CacheOk(s')
  {
    EndedGrows(s, s');
    forall id: nat | id < |s'.bios| && Outgoing(s'.th, id) > 0 ensures Clear(s', s'.bios[id]) {
      HeldMoved(s.th, i, t, fork, id);
    }
    forall k | k in s'.aux.dropped ensures Outgoing(s'.th, s'.aux.dropped[k]) > 0 {
      HeldMoved(s.th, i, t, fork, s'.aux.dropped[k]);
      assert k in s.aux.dropped;
    }
  }

  lemma EndedGrows(s: State, s': State)
    requires s.done <= s'.done
    ensures forall a :: Ended(s, a) ==> Ended(s', a)
  {
    forall a | Ended(s, a) ensures Ended(s', a) {
      var p :| 0 <= p < |s.done| && s.done[p].id == a;
      assert s'.done[p].id == a;
    }
  }

  /** A thread that moves on with the bios it had: nothing new is outgoing. */
  lemma CacheQuiet(s: State, s': State, i: nat, t: Thread, fork: seq<Thread>)
    requires CacheOk(s) && i < |s.th| && |fork| <= 1 && s'.th == Moved(s.th, i, t, fork)
    requires s'.bios == s.bios && s'.d.wide == s.d.wide && s.done <= s'.done
    requires NoNewBlock(s, s') && s'.aux.dropped == s.aux.dropped
    requires forall id: nat {:trigger Out1(id, t)} :: Out1(id, t) + ForkOut(id, fork) == Out1(id, s.th[i])
    ensures CacheOk(s')
  {
    forall k | k in s'.aux.dropped
      ensures Out1(s'.aux.dropped[k], t) + ForkOut(s'.aux.dropped[k], fork) >= Out1(s'.aux.dropped[k], s.th[i])
    {
    }
    CacheKept(s, s', i, t, fork);
  }

  // ---- Sections ----

  lemma CacheStart(s: State, i: nat, b: nat)
    requires CacheOk(s) && i < |s.th| && s.th[i].pc == Start(b) && b < |s.bios|
    ensures CacheOk(StepStart(s, i, b))
  {
    var s', t := StepStart(s, i, b), s.th[i].(pc := AfterStart(s.d, s.bios[b], b));
    forall id: nat ensures Out1(id, t) >= Out1(id, s.th[i]) {
    }
    if !GateOf(s.d, s.bios[b]).Bypass? {
      forall id: nat ensures Out1(id, t) == Out1(id, s.th[i]) {
      }
    }
    CacheKept(s, s', i, t, []);
  }

  lemma CacheEnter(s: State, i: nat, b: nat)
    requires CacheOk(s) && i < |s.th| && s.th[i].pc == Enter(b) && b < |s.bios|
    ensures CacheOk(StepEnter(s, i, b))
  {
    CacheQuiet(s, StepEnter(s, i, b), i, s.th[i].(pc := AfterEnter(s.d, s.bios[b], b)), []);
  }

  /** The look-up: filling a slot needs that nothing in flight conflicts with a full-block write. */
  lemma CacheLook(s: State, i: nat, b: nat)
    requires CacheOk(s) && Structure(s) && Conserved(s)
    requires i < |s.th| && s.th[i].pc == Look(b) && b < |s.bios| && s.d.slots != []
    ensures CacheOk(StepLook(s, i, b))
  {
    var j := SlotOf(|s.d.slots|, BlockOf(s.d.wide, s.bios[b]));
    var found := FoundOf(s.d, s.bios[b]);
    LookShape(s.d, b, s.bios[b], j);
    if found.Fill? {
      CacheFill(s, i, b, j);
    } else if found.Drop? {
      CacheDrop(s, i, b, j);
    } else {
      CacheLookOther(s, i, b, j);
    }
  }

  lemma CacheLookOther(s: State, i: nat, b: nat, j: nat)
    requires CacheOk(s) && Static(s)
    requires i < |s.th| && s.th[i].pc == Look(b) && b < |s.bios| && s.d.slots != []
    requires j == SlotOf(|s.d.slots|, BlockOf(s.d.wide, s.bios[b]))
    requires !FoundOf(s.d, s.bios[b]).Fill? && !FoundOf(s.d, s.bios[b]).Drop?
    ensures CacheOk(StepLook(s, i, b))
  {
    var s', found := StepLook(s, i, b), FoundOf(s.d, s.bios[b]);
    var t := s.th[i].(pc := AfterLook(found, b, j));
    LookShape(s.d, b, s.bios[b], j);
    assert NoNewBlock(s, s');
    forall id: nat ensures Out1(id, t) == Out1(id, s.th[i]) + if found.Remap? then Same(id, b) else 0 {
      CountOne(b, id);
    }
    CacheKept(s, s', i, t, []);
  }

  lemma CacheFill(s: State, i: nat, b: nat, j: nat)
    requires CacheOk(s) && Structure(s) && Conserved(s)
    requires i < |s.th| && s.th[i].pc == Look(b) && b < |s.bios| && s.d.slots != []
    requires j == SlotOf(|s.d.slots|, BlockOf(s.d.wide, s.bios[b])) && FoundOf(s.d, s.bios[b]).Fill?
    ensures CacheOk(StepLook(s, i, b))
  {
    var s', t := StepLook(s, i, b), s.th[i].(pc := Copy(b, j));
    assert ThreadOk(s, i, s.th[i]);
    HeldOnce(s, i, b);
    forall id: nat ensures Outgoing(s'.th, id) == Outgoing(s.th, id) {
      HeldMoved(s.th, i, t, [], id);
    }
    forall id: nat | id < |s'.bios| && Outgoing(s'.th, id) > 0 ensures Clear(s', s'.bios[id]) {
      OutLive(s, id);
      assert id != b && !Conflict(s.d.wide, s.bios[b], s.bios[id]);
      assert Fits(s.d.wide, |s.disk|, s.bios[b]) && Fits(s.d.wide, |s.disk|, s.bios[id]);
      assert Clear(s, s.bios[id]);
    }
  }

  lemma CacheDrop(s: State, i: nat, b: nat, j: nat)
    requires CacheOk(s) && Structure(s)
    requires i < |s.th| && s.th[i].pc == Look(b) && b < |s.bios| && s.d.slots != []
    requires j == SlotOf(|s.d.slots|, BlockOf(s.d.wide, s.bios[b])) && FoundOf(s.d, s.bios[b]).Drop?
    ensures CacheOk(StepLook(s, i, b))
  {
    var s', t := StepLook(s, i, b), s.th[i].(pc := Dec(Result([b])));
    forall id: nat ensures Outgoing(s'.th, id) == Outgoing(s.th, id) + Same(id, b) {
      HeldMoved(s.th, i, t, [], id);
      CountOne(b, id);
    }
    forall id: nat | id < |s'.bios| && Outgoing(s'.th, id) > 0 ensures Clear(s', s'.bios[id]) {
      assert id != b ==> Clear(s, s.bios[id]);
    }
  }

  lemma CacheCopy(s: State, i: nat, b: nat, j: nat)
    requires CacheOk(s) && CanRun(s, i) && s.th[i].pc == Copy(b, j)
    ensures CacheOk(StepCopy(s, i, b, j))
  {
    CacheQuiet(s, StepCopy(s, i, b, j), i, s.th[i].(pc := Copied(j)), []);
  }

  lemma CacheCopied(s: State, i: nat, j: nat)
    requires CacheOk(s) && i < |s.th| && j < |s.d.slots| && s.th[i].pc == Copied(j) && !s.d.slots[j].state.EMPTY?
    ensures CacheOk(StepCopied(s, i, j))
  {
    var s' := StepCopied(s, i, j);
    CacheQuiet(s, s', i, s'.th[i], []);
  }

  lemma CacheWalk(s: State, i: nat, j: nat)
    requires CacheOk(s) && |s.aux.notes| == |s.d.slots| && i < |s.th| && s.th[i].pc == Walk(j)
    ensures CacheOk(StepWalk(s, i, j))
  {
    var s' := StepWalk(s, i, j);
    CacheQuiet(s, s', i, s'.th[i], []);
  }

  lemma CacheSubmit(s: State, i: nat, j: nat, next: Pc)
    requires CacheOk(s) && i < |s.th| && j < |s.d.slots| && |s.aux.notes| == |s.d.slots|
    requires s.th[i].pc == SubmitWalk(j) || s.th[i].pc == SubmitOnce(j)
    requires next == Walk(j + 1) || next == Dec(Result([]))
    ensures CacheOk(StepSubmit(s, i, j, next))
  {
    CacheQuiet(s, StepSubmit(s, i, j, next), i, s.th[i].(pc := next),
               [Forked(if s.d.stop then EndLock(j) else Writing(j))]);
  }

  lemma CacheDec(s: State, i: nat, k: After)
    requires CacheOk(s) && i < |s.th| && s.th[i].pc == Dec(k)
    ensures CacheOk(StepDec(s, i, k))
  {
    CacheQuiet(s, StepDec(s, i, k), i, s.th[i].(pc := if s.d.busy == 1 then Ticket(k) else Then(k)), []);
  }

  lemma CacheTicket(s: State, i: nat, k: After)
    requires CacheOk(s) && i < |s.th| && s.th[i].pc == Ticket(k)
    ensures CacheOk(StepTicket(s, i, k))
  {
    var s' := StepTicket(s, i, k);
    CacheQuiet(s, s', i, s'.th[i], []);
  }

  lemma CacheQueued(s: State, i: nat, t: Thread, ready: seq<nat>, flushes: seq<nat>)
    requires CacheOk(s) && i < |s.th|
    requires forall id: nat {:trigger Out1(id, t)} :: Out1(id, t) == Out1(id, s.th[i])
    ensures CacheOk(Queued(s, i, t, ready, flushes))
  {
    CacheQuiet(s, Queued(s, i, t, ready, flushes), i, t,
               if NeedsWorker(s.d, ready, flushes) then [Forked(Take)] else []);
  }

  lemma CacheHand(s: State, i: nat, k: After, ready: seq<nat>, flushes: seq<nat>)
    requires CacheOk(s) && i < |s.th| && s.th[i].pc == Hand(k, ready, flushes)
    ensures CacheOk(Queued(s, i, s.th[i].(pc := Then(k)), ready, flushes))
  {
    CacheQueued(s, i, s.th[i].(pc := Then(k)), ready, flushes);
  }

  lemma CacheThen(s: State, i: nat, k: After)
    requires CacheOk(s) && i < |s.th| && s.th[i].pc == Then(k)
    requires k.Result? ==> |k.out| <= 1
    requires s.th[i].own ==> s.th[i].keep == []
    ensures CacheOk(StepThen(s, i, k))
  {
    if k.Release? {
      CacheQueued(s, i, s.th[i].(pc := Done), k.rel, []);
    } else {
      var s' := StepThen(s, i, k);
      var fork := if s.th[i].own || k.out == [] then [] else [Forked(Storage(k.out[0]))];
      forall id: nat ensures Out1(id, s'.th[i]) + ForkOut(id, fork) == Out1(id, s.th[i]) {
        if k.out != [] {
          assert k.out == [k.out[0]];
          CountOne(k.out[0], id);
        }
      }
      CacheQuiet(s, s', i, s'.th[i], fork);
    }
  }

  lemma CachePop(s: State, i: nat)
    requires CacheOk(s) && i < |s.th| && s.th[i].pc == Pop && |s.th[i].keep| <= 1
    ensures CacheOk(StepPop(s, i))
  {
    var s' := StepPop(s, i);
    forall id: nat ensures Out1(id, s'.th[i]) == Out1(id, s.th[i]) {
      if s.th[i].keep != [] {
        assert s.th[i].keep == [s.th[i].keep[0]];
        CountOne(s.th[i].keep[0], id);
      }
    }
    CacheQuiet(s, s', i, s'.th[i], []);
  }

  lemma CacheTake(s: State, i: nat)
    requires CacheOk(s) && i < |s.th| && s.th[i].pc == Take
    ensures CacheOk(StepTake(s, i))
  {
    var s' := StepTake(s, i);
    CacheQuiet(s, s', i, s'.th[i], []);
  }

  lemma CacheFlushes(s: State, i: nat, left: seq<nat>)
    requires CacheOk(s) && i < |s.th| && s.th[i].pc == Flushes(left) && AllFlush(s.bios, left)
    ensures CacheOk(StepFlushes(s, i, left))
  {
    var s' := StepFlushes(s, i, left);
    var fork := if left == [] || FlushRefused(s.d) then [] else [Forked(Storage(left[0]))];
    var t := s.th[i].(pc := if left == [] then Pop else Flushes(left[1..]));
    assert s'.th == Moved(s.th, i, t, fork);
    FlushesOut(s, s', i, t, fork);
    CacheKept(s, s', i, t, fork);
  }

  /** A work item that hands on a flush touches no block. */
  lemma FlushesOut(s: State, s': State, i: nat, t: Thread, fork: seq<Thread>)
    requires i < |s.th| && s.th[i].pc.Flushes? && (t.pc.Pop? || t.pc.Flushes?) && t.keep == s.th[i].keep
    requires s'.aux.dropped == s.aux.dropped && |fork| <= 1
    requires fork != [] ==> fork[0].pc.Storage? && fork[0].pc.b < |s.bios| && IsFlush(s.bios[fork[0].pc.b]) && fork[0].keep == []
    ensures OutMove(s, s', i, t, fork)
  {
    forall id: nat ensures Out1(id, t) == Out1(id, s.th[i]) {
    }
  }

  lemma CacheStorage(s: State, i: nat, b: nat)
    requires CacheOk(s) && Conserved(s) && i < |s.th| && s.th[i].pc == Storage(b) && b < |s.bios|
    ensures CacheOk(StepStorage(s, i, b))
  {
    var s', t := StepStorage(s, i, b), s.th[i].(pc := Done);
    forall id: nat ensures Out1(id, t) + Same(id, b) == Out1(id, s.th[i]) {
    }
    forall k | k in s'.aux.dropped ensures s'.aux.dropped[k] != b {
      assert k in s.aux.dropped;
    }
    CacheKept(s, s', i, t, []);
  }

  lemma CacheWriting(s: State, i: nat, j: nat)
    requires CacheOk(s) && i < |s.th| && s.th[i].pc == Writing(j) && j < |s.d.slots| && s.d.slots[j].block < |s.disk|
    ensures CacheOk(StepWriting(s, i, j))
  {
    CacheQuiet(s, StepWriting(s, i, j), i, s.th[i].(pc := EndLock(j)), []);
  }

  lemma CacheEndLock(s: State, i: nat, j: nat)
    requires CacheOk(s) && i < |s.th| && s.th[i].pc == EndLock(j) && j < |s.d.slots|
    ensures CacheOk(StepEndLock(s, i, j))
  {
    var s' := StepEndLock(s, i, j);
    CacheQuiet(s, s', i, s'.th[i], []);
  }

  lemma CacheAccept(s: State, bio: Bio)
    requires CacheOk(s) && Conserved(s) && CanAccept(s, bio)
    ensures CacheOk(Next(s, Accept(bio)))
  {
    var s', t := Next(s, Accept(bio)), Thread(Start(|s.bios|), [], [], true);
    forall id: nat ensures Outgoing(s'.th, id) == Outgoing(s.th, id) {
      TotalCat(Out1, id, s.th, [t]);
      TotalOne(Out1, id, t);
    }
    forall id: nat | id < |s'.bios| && Outgoing(s'.th, id) > 0 ensures Clear(s', s'.bios[id]) {
      OutLive(s, id);
      assert Clear(s, s.bios[id]);
    }
    assert forall a :: 0 <= a < |s.bios| ==> s'.bios[a] == s.bios[a];
  }
}
