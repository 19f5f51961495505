/**
 Runs of the driver that break what its users expect of a flush, on a device with one slot and two
 blocks. In the first three `x` is written to block 0, acknowledged, and then a flush is accepted and
 acknowledged while the storage still holds the old contents. In the fourth a flush is refused although
 nothing was lost. In the last a flush is never completed.
 */
module DoryRuns {
  import opened DoryDisk
  import opened DorySections
  import opened DoryMachine

  ghost predicate Ends(run: seq<State>, s: State) { IsRun(run) && run[|run| - 1] == s }

  lemma Extend(run: seq<State>, s: State, step: Step, s': State) returns (longer: seq<State>)
    requires Ends(run, s) && Enabled(s, step) && s' == Next(s, step)
    ensures Ends(longer, s') && run <= longer
  {
    longer := run + [s'];
    assert Follows(s, s');
  }

  function Slot0(state: BlockState, data: Block): seq<Slot> { [Slot(state, 0, data, [])] }

  function Device0(state: BlockState, data: Block, busy: int): Device
  {
    Device(false, Slot0(state, data), busy, false, [], [], [], [], false, 0xFFFF_FFFF, 8, 0, 0)
  }

  function Aux0(disk: seq<Block>, owner: nat): Aux
  {
    Aux(disk, [Note(false, owner, 0)], {}, map[], 0, 0, 0)
  }

  /** A new device whose only slot happens to contain x already (its contents do not matter). */
  function State0(disk: seq<Block>, x: Block): State
  {
    State(Device0(EMPTY, x, 0), [], disk, [], [], Aux0(disk, 0))
  }

  function WriteX(x: Block): Bio { Bio(Write, 0, 512, x) }

  function FuaY(y: Block): Bio { Bio(Fua, 0, 512, y) }

  const ReadOne := Bio(Read, 1, 512, [])
  const AFlush := Bio(Flush(true), 0, 0, [])

  lemma StartRun(disk: seq<Block>, x: Block) returns (run: seq<State>)
    requires |disk| == 2 && |disk[0]| == 512 && |disk[1]| == 512 && |x| == 512
    ensures Ends(run, State0(disk, x)) && |run| == 1
  {
    run := [State0(disk, x)];
  }

  // ---- Pieces of runs ----

  function Call(pc: Pc): Thread { Thread(pc, [], [], true) }

  lemma MovedLast(th: seq<Thread>, t: Thread, t': Thread)
    ensures Moved(th + [t], |th|, t', []) == th + [t']
  {
  }

  /** A bio is accepted, and its call gets through the gate. */
  lemma ToEnter(run0: seq<State>, s0: State, bio: Bio) returns (run: seq<State>, s: State)
    requires Ends(run0, s0) && CanAccept(s0, bio) && |s0.aux.notes| == |s0.d.slots|
    requires s0.d.slots != [] && !s0.d.stop
    ensures Ends(run, s) && run0 <= run
    ensures s == s0.(bios := s0.bios + [bio], d := s0.d.(busy := s0.d.busy + 1), th := s0.th + [Call(Enter(|s0.bios|))])
  {
    var b, n := |s0.bios|, |s0.th|;
    var s1 := s0.(bios := s0.bios + [bio], th := s0.th + [Call(Start(b))]);
    run := Extend(run0, s0, Accept(bio), s1);
    MovedLast(s0.th, Call(Start(b)), Call(Enter(b)));
    s := s1.(d := s0.d.(busy := s0.d.busy + 1), th := s0.th + [Call(Enter(b))]);
    assert StepStart(s1, n, b) == s;
    run := Extend(run, s1, Run(n), s);
  }

  /** A bio other than a flush is accepted, no flush being in progress, and reaches its slot. */
  lemma ToLook(run0: seq<State>, s0: State, bio: Bio) returns (run: seq<State>, s: State)
    requires Ends(run0, s0) && CanAccept(s0, bio) && |s0.aux.notes| == |s0.d.slots|
    requires s0.d.slots != [] && !s0.d.stop && !s0.d.flushFlag && !IsFlush(bio)
    ensures Ends(run, s) && run0 <= run
    ensures s == s0.(bios := s0.bios + [bio], d := s0.d.(busy := s0.d.busy + 1), th := s0.th + [Call(Look(|s0.bios|))])
  {
    var b, n := |s0.bios|, |s0.th|;
    var s1;
    run, s1 := ToEnter(run0, s0, bio);
    MovedLast(s0.th, Call(Enter(b)), Call(Look(b)));
    s := s1.(th := s0.th + [Call(Look(b))]);
    assert StepEnter(s1, n, b) == s;
    run := Extend(run, s1, Run(n), s);
  }

  /** The first flush is accepted and starts its walk. */
  lemma ToWalk(run0: seq<State>, s0: State) returns (run: seq<State>, s: State)
    requires Ends(run0, s0) && CanAccept(s0, AFlush) && |s0.aux.notes| == |s0.d.slots|
    requires s0.d.slots != [] && !s0.d.stop && !s0.d.flushFlag && s0.d.flushBios == []
    ensures Ends(run, s) && run0 <= run
    ensures s == s0.(bios := s0.bios + [AFlush],
                     d := s0.d.(busy := s0.d.busy + 1, flushFlag := true, flushBios := [|s0.bios|]),
                     th := s0.th + [Call(Walk(0))], aux := s0.aux.(walker := |s0.th|))
  {
    var b, n := |s0.bios|, |s0.th|;
    var s1;
    run, s1 := ToEnter(run0, s0, AFlush);
    MovedLast(s0.th, Call(Enter(b)), Call(Walk(0)));
    s := s1.(d := s0.d.(busy := s0.d.busy + 1, flushFlag := true, flushBios := [b]), th := s0.th + [Call(Walk(0))],
             aux := s0.aux.(walker := n));
    assert StepEnter(s1, n, b) == s;
    run := Extend(run, s1, Run(n), s);
  }

  /** The last thread fills the one slot with x and acknowledges the write. */
  lemma FillSlot(run0: seq<State>, s0: State, disk: seq<Block>, x: Block, b: nat, n: nat) returns (run: seq<State>, s: State)
    requires Ends(run0, s0) && |x| == 512 && n + 1 == |s0.th| && b < |s0.bios| && s0.bios[b] == WriteX(x)
    requires s0.d == Device0(EMPTY, x, 1) && s0.th == s0.th[..n] + [Call(Look(b))] && s0.aux == Aux0(disk, 0) && s0.done == []
    ensures Ends(run, s) && run0 <= run
    ensures s == s0.(d := Device0(COPYING, x, 2), th := s0.th[..n] + [Call(Copied(0))],
                     done := [Ending(b, true, false, [])], aux := Aux0(disk, n))
  {
    MovedLast(s0.th[..n], Call(Look(b)), Call(Copy(b, 0)));
    var s1 := s0.(d := Device0(COPYING, x, 2), th := s0.th[..n] + [Call(Copy(b, 0))],
                  aux := s0.aux.(notes := [Note(true, n, 0)]));
    assert StepLook(s0, n, b) == s1;
    run := Extend(run0, s0, Run(n), s1);
    MovedLast(s0.th[..n], Call(Copy(b, 0)), Call(Copied(0)));
    s := s1.(th := s0.th[..n] + [Call(Copied(0))], done := [Ending(b, true, false, [])], aux := Aux0(disk, n));
    assert Splice(x, 0, x) == x;
    assert StepCopy(s1, n, b, 0) == s;
    run := Extend(run, s1, Run(n), s);
  }

  /** A completed flush is queued and its work item starts. */
  lemma ToFlushes(run0: seq<State>, s0: State, i: nat, k: After, f: nat) returns (run: seq<State>, s: State)
    requires Ends(run0, s0) && i < |s0.th| && s0.th[i].pc == Hand(k, [], [f]) && |s0.aux.notes| == |s0.d.slots|
    requires s0.d.workBios == [] && s0.d.workFlush == []
    ensures Ends(run, s) && run0 <= run
    ensures s == s0.(th := s0.th[i := s0.th[i].(pc := Then(k))] + [Forked(Flushes([f]))], aux := s0.aux.(worker := |s0.th|))
  {
    var n, th := |s0.th|, s0.th[i := s0.th[i].(pc := Then(k))];
    var s1 := s0.(d := s0.d.(workFlush := [f]), th := th + [Forked(Take)], aux := s0.aux.(worker := n));
    assert Queued(s0, i, s0.th[i].(pc := Then(k)), [], [f]) == s1;
    run := Extend(run0, s0, Run(i), s1);
    MovedLast(th, Forked(Take), Forked(Flushes([f])));
    s := s0.(th := th + [Forked(Flushes([f]))], aux := s0.aux.(worker := n));
    assert StepTake(s1, n) == s;
    run := Extend(run, s1, Run(n), s);
  }

  lemma SendsFlush(s: State, th: seq<Thread>, f: nat)
    requires s.th == th + [Forked(Flushes([f]))] && !FlushRefused(s.d)
    ensures StepFlushes(s, |th|, [f]) == s.(th := th + [Forked(Flushes([]))] + [Forked(Storage(f))])
  {
    MovedLast(th, Forked(Flushes([f])), Forked(Flushes([])));
    assert s.done + [] == s.done && [f][1..] == [];
    assert Moved(s.th, |th|, Forked(Flushes([])), [Forked(Storage(f))]) == th + [Forked(Flushes([]))] + [Forked(Storage(f))];
  }

  /** From the hand-over of one completed flush to its acknowledgement by the storage. */
  lemma ForwardFlush(run0: seq<State>, s0: State, i: nat, k: After, f: nat) returns (run: seq<State>, s: State)
    requires Ends(run0, s0) && i < |s0.th| && s0.th[i].pc == Hand(k, [], [f]) && |s0.aux.notes| == |s0.d.slots|
    requires s0.d.workBios == [] && s0.d.workFlush == [] && !FlushRefused(s0.d)
    requires f < |s0.bios| && IsFlush(s0.bios[f]) && (forall m :: m in s0.aux.dropped ==> s0.aux.dropped[m] != f)
    ensures Ends(run, s) && run0 <= run && s.disk == s0.disk && s.d == s0.d && s.bios == s0.bios
    ensures s.done == s0.done + [Ending(f, true, true, [])] && s.aux == s0.aux.(worker := |s0.th|)
  {
    var s1;
    run, s1 := ToFlushes(run0, s0, i, k, f);
    var n, th := |s0.th|, s0.th[i := s0.th[i].(pc := Then(k))];
    var s2 := s1.(th := th + [Forked(Flushes([]))] + [Forked(Storage(f))]);
    SendsFlush(s1, th, f);
    run := Extend(run, s1, Run(n), s2);
    s := StepStorage(s2, n + 1, f);
    run := Extend(run, s2, Run(n + 1), s);
  }

  // ---- A flush that completes early ----

  /** A read drops the busy count to zero and is suspended before its flush section. */
  lemma SuspendRead(disk: seq<Block>, x: Block) returns (run: seq<State>, s: State)
    requires |disk| == 2 && |disk[0]| == 512 && |disk[1]| == 512 && |x| == 512
    ensures Ends(run, s)
    ensures s == State(Device0(EMPTY, x, 0), [Call(Ticket(Result([0])))], disk, [ReadOne], [], Aux0(disk, 0))
  {
    var s1;
    run := StartRun(disk, x);
    run, s1 := ToLook(run, State0(disk, x), ReadOne);
    var s2 := s1.(th := [Call(Dec(Result([0])))]);
    assert s1.th == [Call(Look(0))] && s1.bios == [ReadOne] && s1.d == Device0(EMPTY, x, 1);
    assert StepLook(s1, 0, 0) == s2;
    run := Extend(run, s1, Run(0), s2);
    s := State(Device0(EMPTY, x, 0), [Call(Ticket(Result([0])))], disk, [ReadOne], [], Aux0(disk, 0));
    assert StepDec(s2, 0, Result([0])) == s;
    run := Extend(run, s2, Run(0), s);
  }

  /** A write is cached and acknowledged meanwhile. */
  lemma WriteBehind(disk: seq<Block>, x: Block) returns (run: seq<State>, s: State)
    requires |disk| == 2 && |disk[0]| == 512 && |disk[1]| == 512 && |x| == 512
    ensures Ends(run, s)
    ensures s == State(Device0(COPYING, x, 2), [Call(Ticket(Result([0]))), Call(Copied(0))],
                       disk, [ReadOne, WriteX(x)], [Ending(1, true, false, [])], Aux0(disk, 1))
  {
    var s0, s1;
    run, s0 := SuspendRead(disk, x);
    run, s1 := ToLook(run, s0, WriteX(x));
    assert s1.th == [Call(Ticket(Result([0]))), Call(Look(1))] && s1.th[..1] == [Call(Ticket(Result([0])))];
    assert s1.bios == [ReadOne, WriteX(x)] && s1.d == Device0(EMPTY, x, 1);
    run, s := FillSlot(run, s1, disk, x, 1, 1);
  }

  /** A flush enters, and the suspended reader completes it with a busy count of three. */
  lemma FlushOvertaken(disk: seq<Block>, x: Block) returns (run: seq<State>, mid: nat, s: State)
    requires |disk| == 2 && |disk[0]| == 512 && |disk[1]| == 512 && |x| == 512
    ensures Ends(run, s) && s.disk == disk && s.d == Device0(COPYING, x, 3)
    ensures s.bios == [ReadOne, WriteX(x), AFlush] && s.done == [Ending(1, true, false, [])]
    ensures s.th == [Call(Hand(Result([0]), [], [2])), Call(Copied(0)), Call(Walk(0))]
    ensures |s.aux.notes| == 1 && s.aux.dropped == map[]
    ensures mid < |run| && |run[mid].bios| == 2 && run[mid].done == [Ending(1, true, false, [])]
    ensures |run[mid].th| == 2 && run[mid].th[0].pc.Ticket?
  {
    var s0, s1;
    run, s0 := WriteBehind(disk, x);
    mid := |run| - 1;
    run, s1 := ToWalk(run, s0);
    assert s1.th == [Call(Ticket(Result([0]))), Call(Copied(0)), Call(Walk(0))];
    s := StepTicket(s1, 0, Result([0]));
    run := Extend(run, s1, Run(0), s);
  }

  /** A flush that enters after the decrement of the thread that completes it: this run acknowledges a
      write while a reader holds a ticket, then accepts and acknowledges a flush, not stopped, and the
      write is not on the storage. */
  lemma EarlyFlush(disk: seq<Block>, x: Block) returns (run: seq<State>, mid: nat)
    requires |disk| == 2 && |disk[0]| == 512 && |disk[1]| == 512 && |x| == 512 && x != disk[0]
    ensures IsRun(run) && mid < |run|
    ensures |run[mid].bios| == 2 && run[mid].done == [Ending(1, true, false, [])]
    ensures |run[mid].th| == 2 && run[mid].th[0].pc.Ticket?
    ensures var s := run[|run| - 1];
            && !s.d.stop
            && s.bios == [ReadOne, WriteX(x), AFlush]
            && s.done == [Ending(1, true, false, []), Ending(2, true, true, [])]
            && Get(false, s.disk, s.bios[1]) != s.bios[1].data
  {
    var s0, s;
    run, mid, s0 := FlushOvertaken(disk, x);
    run, s := ForwardFlush(run, s0, 0, Result([0]), 2);
    assert disk[0][0..512] == disk[0];
  }

  /** The walk of the flush that was completed early goes on, and has the slot written back with no flush in
      progress. */
  lemma WalkAfterFlush(disk: seq<Block>, x: Block) returns (run: seq<State>)
    requires |disk| == 2 && |disk[0]| == 512 && |disk[1]| == 512 && |x| == 512
    ensures IsRun(run) && |run| > 1
    ensures var s, s' := run[|run| - 2], run[|run| - 1];
            && !s.d.flushFlag && s.d.flushBios == [] && s.bios == [ReadOne, WriteX(x), AFlush]
            && s.d.slots == Slot0(DIRTY, x) && s'.d.slots == Slot0(WRITING, x)
  {
    var mid, s0;
    run, mid, s0 := FlushOvertaken(disk, x);
    var s1 := StepCopied(s0, 1, 0);
    run := Extend(run, s0, Run(1), s1);
    var s2 := StepWalk(s1, 2, 0);
    assert s1.th[2].pc == Walk(0);
    var before := run;
    run := run + [s2];
    assert Follows(s1, s2) by {
      assert Enabled(s1, Run(2)) && s2 == Next(s1, Run(2));
    }
    assert run[|run| - 2] == before[|before| - 1] == s1;
  }

  // ---- A flush that completes on time, but a FUA write in flight has dropped the slot ----

  /** The write is cached, its call is over and the slot is DIRTY. */
  lemma WriteCached(disk: seq<Block>, x: Block) returns (run: seq<State>, s: State)
    requires |disk| == 2 && |disk[0]| == 512 && |disk[1]| == 512 && |x| == 512
    ensures Ends(run, s)
    ensures s == State(Device0(DIRTY, x, 1), [Call(Then(Result([])))], disk, [WriteX(x)], [Ending(0, true, false, [])], Aux0(disk, 0))
  {
    var s1, s2;
    run := StartRun(disk, x);
    run, s1 := ToLook(run, State0(disk, x), WriteX(x));
    assert s1.th == [Call(Look(0))] && s1.th[..0] == [] && s1.bios == [WriteX(x)] && s1.d == Device0(EMPTY, x, 1);
    run, s2 := FillSlot(run, s1, disk, x, 0, 0);
    var s3 := s2.(d := Device0(DIRTY, x, 2), th := [Call(Dec(Result([])))]);
    assert s2.th[0].ready + s2.d.slots[0].waiters == [];
    assert StepCopied(s2, 0, 0) == s3;
    run := Extend(run, s2, Run(0), s3);
    s := s3.(d := Device0(DIRTY, x, 1), th := [Call(Then(Result([])))]);
    assert StepDec(s3, 0, Result([])) == s;
    run := Extend(run, s3, Run(0), s);
  }

  /** A full-block FUA write drops the slot; its call decrements the busy count to zero. */
  lemma SlotDropped(disk: seq<Block>, x: Block, y: Block) returns (run: seq<State>, s: State)
    requires |disk| == 2 && |disk[0]| == 512 && |disk[1]| == 512 && |x| == 512 && |y| == 512
    ensures Ends(run, s)
    ensures s == State(Device0(EMPTY, x, 0), [Call(Then(Result([]))), Call(Ticket(Result([1])))], disk,
                       [WriteX(x), FuaY(y)], [Ending(0, true, false, [])], Aux0(disk, 0).(dropped := map[0 := 1], ticket := 1))
  {
    var s0, s1;
    run, s0 := WriteCached(disk, x);
    assert s0.done[0].id == 0;
    run, s1 := ToLook(run, s0, FuaY(y));
    var s2 := s1.(d := Device0(EMPTY, x, 1), th := [Call(Then(Result([]))), Call(Dec(Result([1])))],
                  aux := s1.aux.(dropped := map[0 := 1]));
    assert s1.bios == [WriteX(x), FuaY(y)];
    assert StepLook(s1, 1, 1) == s2;
    run := Extend(run, s1, Run(1), s2);
    s := s2.(d := Device0(EMPTY, x, 0), th := [Call(Then(Result([]))), Call(Ticket(Result([1])))],
             aux := s2.aux.(ticket := 1));
    assert StepDec(s2, 1, Result([1])) == s;
    run := Extend(run, s2, Run(1), s);
  }

  /** The FUA call is past its flush section; a flush walks the empty cache and drops the count to zero. */
  lemma FlushWalks(disk: seq<Block>, x: Block, y: Block) returns (run: seq<State>, s: State, mid: nat)
    requires |disk| == 2 && |disk[0]| == 512 && |disk[1]| == 512 && |x| == 512 && |y| == 512
    ensures Ends(run, s)
    ensures s.d == Device0(EMPTY, x, 0).(flushFlag := true, flushBios := [2])
    ensures s.th == [Call(Then(Result([]))), Call(Hand(Result([1]), [], [])), Call(Ticket(Result([])))]
    ensures s.disk == disk && s.bios == [WriteX(x), FuaY(y), AFlush] && s.done == [Ending(0, true, false, [])]
    ensures |s.aux.notes| == 1 && s.aux.dropped == map[0 := 1]
    ensures mid < |run| && |run[mid].bios| == 2 && run[mid].done == [Ending(0, true, false, [])]
  {
    var s0, s2;
    run, s0 := SlotDropped(disk, x, y);
    mid := |run| - 1;
    var s1 := s0.(th := [Call(Then(Result([]))), Call(Hand(Result([1]), [], []))]);
    assert StepTicket(s0, 1, Result([1])) == s1;
    run := Extend(run, s0, Run(1), s1);
    run, s2 := ToWalk(run, s1);
    run, s := WalkEmpty(run, s2, s1.th);
  }

  /** The walk of the last thread finds the only slot EMPTY and ends by dropping the count to zero. */
  lemma WalkEmpty(run0: seq<State>, s0: State, th: seq<Thread>) returns (run: seq<State>, s: State)
    requires Ends(run0, s0) && s0.th == th + [Call(Walk(0))]
    requires |s0.d.slots| == 1 == |s0.aux.notes| && s0.d.slots[0].state.EMPTY? && s0.d.busy == 1
    ensures Ends(run, s) && run0 <= run
    ensures s == s0.(d := s0.d.(busy := 0), th := th + [Call(Ticket(Result([])))], aux := s0.aux.(ticket := |th|))
  {
    var n := |th|;
    var s1 := s0.(th := th + [Call(Walk(1))]);
    MovedLast(th, Call(Walk(0)), Call(Walk(1)));
    assert StepWalk(s0, n, 0) == s1;
    run := Extend(run0, s0, Run(n), s1);
    var s2 := s1.(th := th + [Call(Dec(Result([])))]);
    MovedLast(th, Call(Walk(1)), Call(Dec(Result([]))));
    assert StepWalk(s1, n, 1) == s2;
    run := Extend(run, s1, Run(n), s2);
    MovedLast(th, Call(Dec(Result([]))), Call(Ticket(Result([]))));
    s := StepDec(s2, n, Result([]));
    run := Extend(run, s2, Run(n), s);
  }

  /** Even with the busy count at zero, the flush is acknowledged while block 0 still holds the
      old contents: the FUA write that dropped the slot has not reached the storage. */
  lemma DroppedWrite(disk: seq<Block>, x: Block, y: Block) returns (run: seq<State>, mid: nat)
    requires |disk| == 2 && |disk[0]| == 512 && |disk[1]| == 512 && |x| == 512 && |y| == 512 && x != disk[0]
    ensures IsRun(run) && mid < |run|
    ensures |run[mid].bios| == 2 && run[mid].done == [Ending(0, true, false, [])]
    ensures var s := run[|run| - 1];
            && !s.d.stop && s.aux.dropped == map[0 := 1]
            && s.bios == [WriteX(x), FuaY(y), AFlush]
            && s.done == [Ending(0, true, false, []), Ending(2, true, true, [])]
            && Get(false, s.disk, s.bios[0]) != s.bios[0].data
  {
    var s0, s;
    run, s0, mid := FlushWalks(disk, x, y);
    var s1 := StepTicket(s0, 2, Result([]));
    run := Extend(run, s0, Run(2), s1);
    run, s := ForwardFlush(run, s1, 2, Result([]), 2);
    assert disk[0][0..512] == disk[0];
  }

  // ---- A flush that succeeds although the stop lost a cached block ----

  lemma StopWhileWalking(disk: seq<Block>, x: Block) returns (run: seq<State>, s: State)
    requires |disk| == 2 && |disk[0]| == 512 && |disk[1]| == 512 && |x| == 512
    ensures Ends(run, s)
    ensures s.d == Device0(DIRTY, x, 2).(flushFlag := true, flushBios := [1], stop := true)
    ensures s.th == [Call(Then(Result([]))), Call(Walk(0))]
    ensures s.disk == disk && s.bios == [WriteX(x), AFlush] && s.done == [Ending(0, true, false, [])]
    ensures |s.aux.notes| == 1 && s.aux.lost == {} && s.aux.dropped == map[]
  {
    var s0, s1;
    run, s0 := WriteCached(disk, x);
    run, s1 := ToWalk(run, s0);
    s := s1.(d := s1.d.(stop := true));
    run := Extend(run, s1, SetStop, s);
  }

  /** The stop comes while the flush walks: the write-back of the DIRTY slot is refused. */
  lemma WriteBackRefused(disk: seq<Block>, x: Block) returns (run: seq<State>, s: State)
    requires |disk| == 2 && |disk[0]| == 512 && |disk[1]| == 512 && |x| == 512
    ensures Ends(run, s)
    ensures s.d == Device0(WRITING, x, 2).(flushFlag := true, flushBios := [1], stop := true, flushFailure := 1)
    ensures s.th == [Call(Then(Result([]))), Call(Walk(1)), Forked(EndLock(0))]
    ensures s.disk == disk && s.bios == [WriteX(x), AFlush] && s.done == [Ending(0, true, false, [])]
    ensures |s.aux.notes| == 1 && s.aux.lost == {0} && s.aux.dropped == map[]
  {
    var s0;
    run, s0 := StopWhileWalking(disk, x);
    var s1 := StepWalk(s0, 1, 0);
    run := Extend(run, s0, Run(1), s1);
    assert s1.th == [Call(Then(Result([]))), Call(SubmitWalk(0))];
    s := StepSubmit(s1, 1, 0, Walk(1));
    run := Extend(run, s1, Run(1), s);
  }

  /** The callback of the refused write-back runs to its end before the walk goes on. */
  lemma CallbackInline(disk: seq<Block>, x: Block) returns (run: seq<State>, s: State)
    requires |disk| == 2 && |disk[0]| == 512 && |disk[1]| == 512 && |x| == 512
    ensures Ends(run, s)
    ensures s.d == Device0(EMPTY, x, 1).(flushFlag := true, flushBios := [1], stop := true, flushFailure := 1)
    ensures s.th == [Call(Then(Result([]))), Call(Walk(1)), Forked(Done)]
    ensures s.disk == disk && s.bios == [WriteX(x), AFlush] && s.done == [Ending(0, true, false, [])]
    ensures |s.aux.notes| == 1 && s.aux.lost == {0} && s.aux.dropped == map[]
  {
    var s0;
    run, s0 := WriteBackRefused(disk, x);
    var s1 := StepEndLock(s0, 2, 0);
    run := Extend(run, s0, Run(2), s1);
    var s2 := StepDec(s1, 2, Release([]));
    run := Extend(run, s1, Run(2), s2);
    assert s2.th == [Call(Then(Result([]))), Call(Walk(1)), Forked(Then(Release([])))];
    s := StepThen(s2, 2, Release([]));
    run := Extend(run, s2, Run(2), s);
  }

  /** The walk ends and drops the busy count to zero. */
  lemma WalkLast(disk: seq<Block>, x: Block) returns (run: seq<State>, s: State)
    requires |disk| == 2 && |disk[0]| == 512 && |disk[1]| == 512 && |x| == 512
    ensures Ends(run, s)
    ensures s.d == Device0(EMPTY, x, 0).(flushFlag := true, flushBios := [1], stop := true, flushFailure := 1)
    ensures s.th == [Call(Then(Result([]))), Call(Ticket(Result([]))), Forked(Done)]
    ensures s.disk == disk && s.bios == [WriteX(x), AFlush] && s.done == [Ending(0, true, false, [])]
    ensures |s.aux.notes| == 1 && s.aux.lost == {0} && s.aux.dropped == map[]
  {
    var s0;
    run, s0 := CallbackInline(disk, x);
    var s1 := s0.(th := [Call(Then(Result([]))), Call(Dec(Result([]))), Forked(Done)]);
    run := Extend(run, s0, Run(1), s1);
    s := StepDec(s1, 1, Result([]));
    run := Extend(run, s1, Run(1), s);
  }

  /** After a stop, the flush is acknowledged as served although its block was lost: the driver
      counted a flush failure, but only refuses flushes after a write failure. */
  lemma StoppedFlush(disk: seq<Block>, x: Block) returns (run: seq<State>)
    requires |disk| == 2 && |disk[0]| == 512 && |disk[1]| == 512 && |x| == 512 && x != disk[0]
    ensures IsRun(run)
    ensures var s := run[|run| - 1];
            && s.d.stop && s.d.flushFailure == 1 && s.d.writeFailure == 0
            && s.bios == [WriteX(x), AFlush]
            && s.done == [Ending(0, true, false, []), Ending(1, true, true, [])]
            && Get(false, s.disk, s.bios[0]) != s.bios[0].data
  {
    var s0, s;
    run, s0 := WalkLast(disk, x);
    var s1 := StepTicket(s0, 1, Result([]));
    run := Extend(run, s0, Run(1), s1);
    run, s := ForwardFlush(run, s1, 1, Result([]), 1);
    assert disk[0][0..512] == disk[0];
  }

  // ---- A flush that is refused although nothing was lost ----

  /** A flush of the empty cache has walked; then the stop comes and a write is refused. */
  lemma WriteRefused(disk: seq<Block>, x: Block) returns (run: seq<State>, s: State)
    requires |disk| == 2 && |disk[0]| == 512 && |disk[1]| == 512 && |x| == 512
    ensures Ends(run, s)
    ensures s.d == Device0(EMPTY, x, 0).(flushFlag := true, flushBios := [0], stop := true, writeFailure := 1)
    ensures s.th == [Call(Ticket(Result([]))), Call(Then(Result([])))]
    ensures s.disk == disk && s.bios == [AFlush, WriteX(x)] && s.done == [Ending(1, false, false, [])]
    ensures |s.aux.notes| == 1 && s.aux.lost == {}
  {
    var s0, s1;
    run := StartRun(disk, x);
    run, s0 := ToWalk(run, State0(disk, x));
    run, s1 := WalkEmpty(run, s0, []);
    var s2 := s1.(d := s1.d.(stop := true));
    run := Extend(run, s1, SetStop, s2);
    var s3 := s2.(bios := [AFlush, WriteX(x)], th := [Call(Ticket(Result([]))), Call(Start(1))]);
    assert s2.bios + [WriteX(x)] == s3.bios && s2.th + [Call(Start(1))] == s3.th;
    run := Extend(run, s2, Accept(WriteX(x)), s3);
    s := StepStart(s3, 1, 1);
    run := Extend(run, s3, Run(1), s);
  }

  /** The flush is refused because a write was, although every acknowledged write is stored: there was
      none, no block was lost, and no flush failure was counted. */
  lemma RefusedFlush(disk: seq<Block>, x: Block) returns (run: seq<State>)
    requires |disk| == 2 && |disk[0]| == 512 && |disk[1]| == 512 && |x| == 512
    ensures IsRun(run)
    ensures var s := run[|run| - 1];
            && s.d.flushFailure == 0 && s.d.writeFailure == 1 && s.aux.lost == {}
            && s.disk == disk && s.bios == [AFlush, WriteX(x)]
            && s.done == [Ending(1, false, false, []), Ending(0, false, false, [])]
  {
    var s0, s2;
    run, s0 := WriteRefused(disk, x);
    var s1 := StepTicket(s0, 0, Result([]));
    run := Extend(run, s0, Run(0), s1);
    run, s2 := ToFlushes(run, s1, 0, Result([]), 0);
    run := Extend(run, s2, Run(2), StepFlushes(s2, 2, [0]));
  }

  // ---- A flush that overlapping arrivals hold up ----

  /** A flush, the first bio, is in progress. All calls but the last have been deferred behind it and are
      over; the last has been counted and is about to be deferred. */
  predicate HeldUp(s: State)
  {
    && !s.d.wide && |s.disk| == 2 && s.d.slots != [] && |s.aux.notes| == |s.d.slots|
    && !s.d.stop && s.d.flushFlag && s.d.flushBios == [0] && s.d.busy == 1 && s.done == []
    && |s.bios| > 1 && s.bios[0] == AFlush && (forall b :: 0 < b < |s.bios| ==> s.bios[b] == ReadOne)
    && |s.th| == |s.bios| && s.th[|s.th| - 1] == Call(Enter(|s.bios| - 1))
    && (forall i :: 0 <= i < |s.th| - 1 ==> s.th[i].pc.Then?)
  }

  /** One more read arrives before the last call has left. */
  lemma HoldUpAgain(run0: seq<State>, s0: State) returns (run: seq<State>, s: State)
    requires Ends(run0, s0) && HeldUp(s0)
    ensures Ends(run, s) && HeldUp(s) && |s.bios| == |s0.bios| + 1
  {
    var s1, s2;
    var b := |s0.bios| - 1;
    ReadFits(s0);
    run, s1 := ToEnter(run0, s0, ReadOne);
    run, s2 := DeferRead(run, s1, b);
    s := LeaveBusy(s2, b);
    run := Extend(run, s2, Run(b), s);
    HeldUpNext(s0, s);
  }

  lemma ReadFits(s: State)
    requires HeldUp(s)
    ensures CanAccept(s, ReadOne)
  {
  }

  lemma HeldUpNext(s: State, s': State)
    requires HeldUp(s) && s'.disk == s.disk && s'.done == s.done && s'.bios == s.bios + [ReadOne]
    requires |s'.aux.notes| == |s'.d.slots| && s'.d == s.d.(waiting := s'.d.waiting)
    requires s'.th == (s.th + [Call(Enter(|s.bios|))])[|s.bios| - 1 := Call(Then(Result([])))]
    ensures HeldUp(s')
  {
  }

  /** A read that arrives during a flush is deferred. */
  lemma DeferRead(run0: seq<State>, s0: State, b: nat) returns (run: seq<State>, s: State)
    requires Ends(run0, s0) && b < |s0.th| && b < |s0.bios| && s0.th[b] == Call(Enter(b)) && s0.bios[b] == ReadOne
    requires s0.d.flushFlag && |s0.aux.notes| == |s0.d.slots|
    ensures Ends(run, s)
    ensures s == s0.(d := s0.d.(waiting := s0.d.waiting + [b]), th := s0.th[b := Call(Dec(Result([])))])
  {
    s := s0.(d := s0.d.(waiting := s0.d.waiting + [b]), th := s0.th[b := Call(Dec(Result([])))]);
    assert Moved(s0.th, b, Call(Dec(Result([]))), []) == s.th;
    assert StepEnter(s0, b, b) == s;
    run := Extend(run0, s0, Run(b), s);
  }

  lemma LeaveBusy(s: State, i: nat) returns (s': State)
    requires i < |s.th| && s.th[i].pc == Dec(Result([])) && s.d.busy == 2
    ensures s' == StepDec(s, i, Result([])) && s'.d == s.d.(busy := 1) && s'.bios == s.bios && s'.done == s.done
    ensures s'.th == s.th[i := s.th[i].(pc := Then(Result([])))] && s'.disk == s.disk && s'.aux.notes == s.aux.notes
  {
    s' := StepDec(s, i, Result([]));
  }

  function Flushing(disk: seq<Block>, x: Block, busy: int, pc: Pc): State
  {
    State(Device0(EMPTY, x, busy).(flushFlag := true, flushBios := [0]), [Call(pc), Call(Enter(1))], disk,
          [AFlush, ReadOne], [], Aux0(disk, 0))
  }

  lemma WalkAndRead(disk: seq<Block>, x: Block) returns (run: seq<State>)
    requires |disk| == 2 && |disk[0]| == 512 && |disk[1]| == 512 && |x| == 512
    ensures Ends(run, Flushing(disk, x, 2, Walk(0)))
  {
    var s1, s2;
    run := StartRun(disk, x);
    run, s1 := ToWalk(run, State0(disk, x));
    run, s2 := ToEnter(run, s1, ReadOne);
    assert s2.th == [Call(Walk(0)), Call(Enter(1))] && s2.bios == [AFlush, ReadOne];
  }

  lemma FirstHoldUp(disk: seq<Block>, x: Block) returns (run: seq<State>, s: State)
    requires |disk| == 2 && |disk[0]| == 512 && |disk[1]| == 512 && |x| == 512
    ensures Ends(run, s) && HeldUp(s) && |s.bios| == 2
  {
    run := WalkAndRead(disk, x);
    var s1, s2, s3 := Flushing(disk, x, 2, Walk(0)), Flushing(disk, x, 2, Walk(1)), Flushing(disk, x, 2, Dec(Result([])));
    assert StepWalk(s1, 0, 0) == s2;
    run := Extend(run, s1, Run(0), s2);
    assert StepWalk(s2, 0, 1) == s3;
    run := Extend(run, s2, Run(0), s3);
    s := LeaveBusy(s3, 0);
    run := Extend(run, s3, Run(0), s);
  }

  /** However many bios have been accepted and deferred since, the flush may still be in progress: the
      busy count need never reach zero while arrivals overlap. */
  lemma {:induction false} FlushHeldUp(disk: seq<Block>, x: Block, n: nat) returns (run: seq<State>)
    requires |disk| == 2 && |disk[0]| == 512 && |disk[1]| == 512 && |x| == 512
    ensures IsRun(run) && HeldUp(run[|run| - 1]) && |run[|run| - 1].bios| == n + 2
  {
    var s;
    if n == 0 {
      run, s := FirstHoldUp(disk, x);
    } else {
      run := FlushHeldUp(disk, x, n - 1);
      run, s := HoldUpAgain(run, run[|run| - 1]);
    }
  }
}
