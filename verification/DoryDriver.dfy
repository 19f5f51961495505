/**
 The Dory driver in its own form: a device whose fields the critical sections update in place,
 each proved against the section of the step machine, the walk over the cache as a loop, and the
 copy between a bio's memory segments and a cache block.
 */
module DoryDriver {
  import opened DoryDisk
  import opened DorySections

  class DoryDevice {
    const wide: bool
    const cacheBlocks: array<Slot>
    var busy: int
    var flushFlag: bool
    var flushBios: seq<nat>
    var waiting: seq<nat>
    var workBios: seq<nat>
    var workFlush: seq<nat>
    var stop: bool
    var tornMask: TornMask
    var tornModulus: TornModulus
    var writeFailure: nat
    var flushFailure: nat

    ghost function Snapshot(): Device
      reads this, cacheBlocks
    {
      Device(wide, cacheBlocks[..], busy, flushFlag, flushBios, waiting, workBios, workFlush,
             stop, tornMask, tornModulus, writeFailure, flushFailure)
    }

    constructor (wide: bool, count: nat, blank: Block)
      requires |blank| == BlockSize(wide)
      ensures fresh(cacheBlocks)
      ensures Snapshot() == Device(wide, seq(count, _ => Slot(EMPTY, 0, blank, [])), 0, false, [], [], [], [],
                                   false, 0xFFFF_FFFF, 8, 0, 0)
    {
      this.wide := wide;
      cacheBlocks := new Slot[count](_ => Slot(EMPTY, 0, blank, []));
      busy, flushFlag := 0, false;
      flushBios, waiting, workBios, workFlush := [], [], [], [];
      stop, tornMask, tornModulus := false, 0xFFFF_FFFF, 8;
      writeFailure, flushFailure := 0, 0;
      new;
      assert cacheBlocks[..] == seq(count, _ => Slot(EMPTY, 0, blank, []));
    }

    /** processBio up to the flush lock. */
    method PassGate(b: Bio) returns (gate: Gate)
      modifies this
      ensures gate == GateOf(old(Snapshot()), b)
      ensures Snapshot() == GateSection(old(Snapshot()), b)
    {
      if Outbound(b) && stop {
        writeFailure := writeFailure + 1;
        return Refuse;
      }
      if cacheBlocks.Length == 0 {
        return Bypass;
      }
      busy := busy + 1;
      gate := Admit;
    }

    /** processBio under the flush lock. */
    method EnterBio(id: nat, b: Bio) returns (entry: Entry)
      modifies this
      ensures entry == EntryOf(old(Snapshot()), b)
      ensures Snapshot() == EnterSection(old(Snapshot()), id, b)
    {
      if IsFlush(b) {
        flushBios := flushBios + [id];
        var firstFlush := !flushFlag;
        flushFlag := true;
        entry := if firstFlush then FirstFlush else LaterFlush;
      } else if flushFlag {
        waiting := waiting + [id];
        entry := Deferred;
      } else {
        entry := Proceed;
      }
    }

    method SetSlot(j: nat, slot: Slot)
      requires j < cacheBlocks.Length
      modifies cacheBlocks
      ensures cacheBlocks[..] == old(cacheBlocks[..])[j := slot]
    {
      cacheBlocks[j] := slot;
    }

    /** processBioLocked on an EMPTY block: do the I/O directly, or fill the block. */
    method ProcessEmpty(id: nat, b: Bio, j: nat) returns (found: Found)
      requires cacheBlocks.Length > 0 && j == SlotOf(cacheBlocks.Length, BlockOf(wide, b))
      requires cacheBlocks[j].state == EMPTY
      modifies this, cacheBlocks
      ensures found == FoundOf(old(Snapshot()), b)
      ensures Snapshot() == LookSection(old(Snapshot()), id, b)
    {
      var blockNumber := BlockOf(wide, b);
      if b.op.Read? || b.op.Fua? || b.op.Discard? || b.size < BlockSize(wide) {
        return Remap;
      }
      if !TornBit(tornMask, tornModulus, blockNumber) {
        return Remap;
      }
      busy := busy + 1;
      SetSlot(j, cacheBlocks[j].(state := COPYING, block := blockNumber));
      found := Fill;
    }

    /** processBioLocked on the block the bio is looking for. */
    method ProcessCached(id: nat, b: Bio, j: nat) returns (found: Found)
      requires cacheBlocks.Length > 0 && j == SlotOf(cacheBlocks.Length, BlockOf(wide, b))
      requires cacheBlocks[j].state != EMPTY && cacheBlocks[j].block == BlockOf(wide, b)
      modifies this, cacheBlocks
      ensures found == FoundOf(old(Snapshot()), b)
      ensures Snapshot() == LookSection(old(Snapshot()), id, b)
    {
      var cb := cacheBlocks[j];
      if cb.state != DIRTY {
        SetSlot(j, cb.(waiters := cb.waiters + [id]));
        found := Park;
      } else if !b.op.Fua? && !b.op.Discard? {
        SetSlot(j, cb.(state := COPYING));
        found := Hit;
      } else if b.size == BlockSize(wide) {
        SetSlot(j, cb.(state := EMPTY));
        busy := busy - 1;
        found := Drop;
      } else {
        SetSlot(j, cb.(state := WRITING, waiters := cb.waiters + [id]));
        found := Evict;
      }
    }

    /** processBioLocked, up to where the cache block lock is dropped. */
    method ProcessBioLocked(id: nat, b: Bio) returns (found: Found, j: nat)
      requires cacheBlocks.Length > 0
      modifies this, cacheBlocks
      ensures found == FoundOf(old(Snapshot()), b)
      ensures j == SlotOf(cacheBlocks.Length, BlockOf(wide, b))
      ensures Snapshot() == LookSection(old(Snapshot()), id, b)
    {
      j := BlockOf(wide, b) % cacheBlocks.Length;
      if cacheBlocks[j].state == EMPTY {
        found := ProcessEmpty(id, b, j);
      } else if cacheBlocks[j].block != BlockOf(wide, b) {
        found := Remap;
      } else {
        found := ProcessCached(id, b, j);
      }
    }

    /** processBioCached after the copy: the block is DIRTY, or WRITING if a flush came by. */
    method FinishCopy(j: nat) returns (released: seq<nat>)
      requires j < cacheBlocks.Length
      modifies cacheBlocks
      ensures released == old(cacheBlocks[j].waiters)
      ensures Snapshot() == CopiedSection(old(Snapshot()), j)
    {
      released := cacheBlocks[j].waiters;
      cacheBlocks[j] := cacheBlocks[j].(state := DIRTY, waiters := []);
      if flushFlag {
        cacheBlocks[j] := cacheBlocks[j].(state := WRITING);
      }
    }

    /** flushTheCache, when nothing runs in between: every DIRTY slot, and no other, is written. */
    method FlushTheCache() returns (submitted: seq<nat>)
      modifies cacheBlocks
      ensures forall j :: 0 <= j < cacheBlocks.Length ==>
                cacheBlocks[j] == if old(cacheBlocks[j]).state.DIRTY? then old(cacheBlocks[j]).(state := WRITING) else old(cacheBlocks[j])
      ensures forall j: nat :: j in submitted <==> j < cacheBlocks.Length && old(cacheBlocks[j]).state.DIRTY?
      ensures forall a, c :: 0 <= a < c < |submitted| ==> submitted[a] < submitted[c]
    {
      submitted := [];
      for i := 0 to cacheBlocks.Length
        invariant forall j :: 0 <= j < i ==>
                    cacheBlocks[j] == if old(cacheBlocks[j]).state.DIRTY? then old(cacheBlocks[j]).(state := WRITING) else old(cacheBlocks[j])
        invariant forall j :: i <= j < cacheBlocks.Length ==> cacheBlocks[j] == old(cacheBlocks[j])
        invariant forall j: nat :: j in submitted <==> j < i && old(cacheBlocks[j]).state.DIRTY?
        invariant forall a :: 0 <= a < |submitted| ==> submitted[a] < i
        invariant forall a, c :: 0 <= a < c < |submitted| ==> submitted[a] < submitted[c]
      {
        if cacheBlocks[i].state == DIRTY {
          cacheBlocks[i] := cacheBlocks[i].(state := WRITING);
          submitted := submitted + [i];
        }
      }
    }

    /** endFlushCacheBlock under the cache block lock. */
    method EndFlushCacheBlock(j: nat) returns (released: seq<nat>)
      requires j < cacheBlocks.Length
      modifies cacheBlocks
      ensures released == old(cacheBlocks[j].waiters)
      ensures Snapshot() == EmptySection(old(Snapshot()), j)
    {
      released := cacheBlocks[j].waiters;
      cacheBlocks[j] := cacheBlocks[j].(state := EMPTY, waiters := []);
    }

    /** The atomic part of decrementBusyCountAndTest. */
    method Decrement() returns (zero: bool)
      modifies this
      ensures zero == (old(busy) == 1)
      ensures Snapshot() == DecSection(old(Snapshot()))
    {
      busy := busy - 1;
      zero := busy == 0;
    }

    /** The flush lock part of decrementBusyCountAndTest. */
    method CompleteFlushes() returns (ready: seq<nat>, completed: seq<nat>)
      modifies this
      ensures ready == (if old(flushFlag) then old(waiting) else [])
      ensures completed == (if old(flushFlag) then old(flushBios) else [])
      ensures Snapshot() == FlushSection(old(Snapshot()))
    {
      ready, completed := [], [];
      if flushFlag {
        flushFlag := false;
        completed, flushBios := flushBios, [];
        ready, waiting := waiting, [];
      }
    }

    /** scheduleDelayedProcessing: queue the bios, and tell whether a work item is to be scheduled. */
    method ScheduleDelayed(ready: seq<nat>, flushes: seq<nat>) returns (schedule: bool)
      modifies this
      ensures schedule == NeedsWorker(old(Snapshot()), ready, flushes)
      ensures Snapshot() == QueueSection(old(Snapshot()), ready, flushes)
    {
      if ready == [] && flushes == [] {
        assert workBios + ready == workBios && workFlush + flushes == workFlush;
        return false;
      }
      schedule := workBios == [] && workFlush == [];
      if ready != [] {
        workBios := workBios + ready;
      }
      if flushes != [] {
        workFlush := workFlush + flushes;
      }
      assert ready == [] ==> old(workBios) + ready == old(workBios);
      assert flushes == [] ==> old(workFlush) + flushes == old(workFlush);
    }

    /** processDelayed under the work lock. */
    method TakeWork() returns (flushes: seq<nat>, ready: seq<nat>)
      modifies this
      ensures flushes == old(workFlush) && ready == old(workBios)
      ensures Snapshot() == TakeSection(old(Snapshot()))
    {
      flushes, workFlush := workFlush, [];
      ready, workBios := workBios, [];
    }
  }

  // ---- The copy of processBioCached ----

  function Flatten(segments: seq<seq<Byte>>): seq<Byte>
  {
    if segments == [] then [] else Flatten(segments[..|segments| - 1]) + segments[|segments| - 1]
  }

  lemma {:induction false} FlattenPrefix(segments: seq<seq<Byte>>, n: nat)
    requires n <= |segments|
    ensures |Flatten(segments[..n])| <= |Flatten(segments)|
    decreases |segments|
  {
    if n < |segments| {
      var last := |segments| - 1;
      FlattenPrefix(segments[..last], n);
      assert segments[..last][..n] == segments[..n];
    } else {
      assert segments[..n] == segments;
    }
  }

  lemma FlattenNext(segments: seq<seq<Byte>>, n: nat)
    requires n < |segments|
    ensures Flatten(segments[..n + 1]) == Flatten(segments[..n]) + segments[n]
  {
    assert segments[..n + 1][..n] == segments[..n];
  }

  lemma SpliceOn(block: Block, at: nat, a: seq<Byte>, b: seq<Byte>)
    requires at + |a| + |b| <= |block|
    ensures Splice(Splice(block, at, a), at + |a|, b) == Splice(block, at, a + b)
  {
  }

  /** A write copies its segments one after another; for every segmentation the block ends up as if
      the data had been copied in one piece. */
  method CopyIn(block: array<Byte>, at: nat, segments: seq<seq<Byte>>)
    requires at + |Flatten(segments)| <= block.Length
    modifies block
    ensures block[..] == Splice(old(block[..]), at, Flatten(segments))
  {
    var data := at;
    ghost var before := block[..];
    assert segments[..0] == [];
    assert Splice(before, at, []) == before;
    for i := 0 to |segments|
      invariant data == at + |Flatten(segments[..i])|
      invariant |Flatten(segments[..i])| <= |Flatten(segments)|
      invariant block[..] == Splice(before, at, Flatten(segments[..i]))
    {
      FlattenNext(segments, i);
      FlattenPrefix(segments, i + 1);
      ghost var done, bv := Flatten(segments[..i]), segments[i];
      MemCopy(block, data, segments[i]);
      SpliceOn(before, at, done, bv);
      data := data + |segments[i]|;
    }
    assert segments[..|segments|] == segments;
  }

  /** memcpy into the block. */
  method MemCopy(block: array<Byte>, at: nat, source: seq<Byte>)
    requires at + |source| <= block.Length
    modifies block
    ensures block[..] == Splice(old(block[..]), at, source)
  {
    for i := 0 to |source|
      invariant forall p :: 0 <= p < block.Length ==>
                  block[p] == if at <= p < at + i then source[p - at] else old(block[p])
    {
      block[at + i] := source[i];
    }
  }

  /** A read fills its segments one after another; together they hold the bytes of the block from
      the bio's offset on, whatever the segmentation. */
  method CopyOut(block: array<Byte>, at: nat, lengths: seq<nat>) returns (segments: seq<seq<Byte>>)
    requires at + Sum(lengths) <= block.Length
    ensures |segments| == |lengths| && forall k :: 0 <= k < |lengths| ==> |segments[k]| == lengths[k]
    ensures Flatten(segments) == block[at..at + Sum(lengths)]
  {
    segments := [];
    var data := at;
    assert lengths[..0] == [];
    for i := 0 to |lengths|
      invariant |segments| == i && forall k :: 0 <= k < i ==> |segments[k]| == lengths[k]
      invariant data == at + Sum(lengths[..i]) && Sum(lengths[..i]) <= Sum(lengths)
      invariant Flatten(segments) == block[at..data]
    {
      SumNext(lengths, i);
      SumPrefix(lengths, i + 1);
      segments := segments + [block[data..data + lengths[i]]];
      assert segments[..i] + [segments[i]] == segments && segments[..|segments| - 1] == segments[..i];
      assert block[at..data] + block[data..data + lengths[i]] == block[at..data + lengths[i]];
      data := data + lengths[i];
    }
    assert lengths[..|lengths|] == lengths;
  }

  function Sum(lengths: seq<nat>): nat
  {
    if lengths == [] then 0 else Sum(lengths[..|lengths| - 1]) + lengths[|lengths| - 1]
  }

  lemma SumNext(lengths: seq<nat>, n: nat)
    requires n < |lengths|
    ensures Sum(lengths[..n + 1]) == Sum(lengths[..n]) + lengths[n]
  {
    assert lengths[..n + 1][..n] == lengths[..n];
  }

  lemma {:induction false} SumPrefix(lengths: seq<nat>, n: nat)
    requires n <= |lengths|
    ensures Sum(lengths[..n]) <= Sum(lengths)
    decreases |lengths|
  {
    if n < |lengths| {
      var last := |lengths| - 1;
      SumPrefix(lengths[..last], n);
      assert lengths[..last][..n] == lengths[..n];
    } else {
      assert lengths[..n] == lengths;
    }
  }
}
