/**
 The shared state of a Dory device and its critical sections: each function below is what
 one stretch of code does between taking and releasing a lock (or one atomic operation).
 */
module DorySections {
  import opened DoryDisk
  import Bits

  datatype BlockState = EMPTY | COPYING | DIRTY | WRITING

  /** `waiters` holds the numbers of the bios waiting for this cache block. */
  datatype Slot = Slot(state: BlockState, block: nat, data: Block, waiters: seq<nat>)

  type TornMask = m: nat | m < 0x1_0000_0000
  type TornModulus = m: nat | 8 <= m <= 32 witness 8

  datatype Device = Device(
    wide: bool,
    slots: seq<Slot>,
    busy: int,
    flushFlag: bool,
    flushBios: seq<nat>,
    waiting: seq<nat>,
    workBios: seq<nat>,
    workFlush: seq<nat>,
    stop: bool,
    tornMask: TornMask,
    tornModulus: TornModulus,
    writeFailure: nat,
    flushFailure: nat)

  /** The direct-mapped slot of a block. */
  function SlotOf(slots: nat, block: nat): (j: nat)
    requires 0 < slots
    ensures j < slots
  {
    block % slots
  }

  /** The torn-write filter: the bit of the mask that belongs to the block. */
  predicate TornBit(mask: TornMask, modulus: TornModulus, block: nat)
  {
    Bits.And(mask, Bits.Pow2(block % modulus)) != 0
  }

  predicate Cacheable(d: Device, block: nat) { TornBit(d.tornMask, d.tornModulus, block) }

  // ---- processBio, up to the flush lock ----

  datatype Gate = Refuse | Bypass | Admit

  function GateOf(d: Device, b: Bio): Gate
  {
    if Outbound(b) && d.stop then Refuse else if d.slots == [] then Bypass else Admit
  }

  function GateSection(d: Device, b: Bio): Device
  {
    match GateOf(d, b)
    case Refuse => d.(writeFailure := d.writeFailure + 1)
    case Bypass => d
    case Admit => d.(busy := d.busy + 1)
  }

  // ---- processBio, under the flush lock ----

  datatype Entry = FirstFlush | LaterFlush | Deferred | Proceed

  function EntryOf(d: Device, b: Bio): Entry
  {
    if IsFlush(b) then (if d.flushFlag then LaterFlush else FirstFlush)
    else if d.flushFlag then Deferred
    else Proceed
  }

  function EnterSection(d: Device, id: nat, b: Bio): Device
  {
    match EntryOf(d, b)
    case FirstFlush => d.(flushBios := d.flushBios + [id], flushFlag := true)
    case LaterFlush => d.(flushBios := d.flushBios + [id], flushFlag := true)
    case Deferred => d.(waiting := d.waiting + [id])
    case Proceed => d
  }

  // ---- processBioLocked, under the cache block lock ----

  datatype Found = Remap | Fill | Hit | Park | Drop | Evict

  function FoundOf(d: Device, b: Bio): Found
    requires d.slots != []
  {
    var block := BlockOf(d.wide, b);
    var slot := d.slots[SlotOf(|d.slots|, block)];
    if slot.state.EMPTY? then
      if b.op.Read? || b.op.Fua? || b.op.Discard? || b.size < BlockSize(d.wide) then Remap
      else if !Cacheable(d, block) then Remap
      else Fill
    else if slot.block != block then Remap
    else if !slot.state.DIRTY? then Park
    else if !b.op.Fua? && !b.op.Discard? then Hit
    else if b.size == BlockSize(d.wide) then Drop
    else Evict
  }

  function LookSection(d: Device, id: nat, b: Bio): (r: Device)
    requires d.slots != []
    ensures |r.slots| == |d.slots|
  {
    var block := BlockOf(d.wide, b);
    var j := SlotOf(|d.slots|, block);
    var slot := d.slots[j];
    match FoundOf(d, b)
    case Remap => d
    case Fill => d.(busy := d.busy + 1, slots := d.slots[j := slot.(state := COPYING, block := block)])
    case Hit => d.(slots := d.slots[j := slot.(state := COPYING)])
    case Park => d.(slots := d.slots[j := slot.(waiters := slot.waiters + [id])])
    case Drop => d.(busy := d.busy - 1, slots := d.slots[j := slot.(state := EMPTY)])
    case Evict => d.(slots := d.slots[j := slot.(state := WRITING, waiters := slot.waiters + [id])])
  }

  // ---- processBioCached: the copy, then the cache block lock again ----

  function CopySection(d: Device, j: nat, b: Bio): (r: Device)
    requires j < |d.slots|
    requires Mutates(b) ==> OffsetOf(d.wide, b) + |b.data| <= |d.slots[j].data|
    ensures |r.slots| == |d.slots|
  {
    if Mutates(b) then
      var slot := d.slots[j];
      d.(slots := d.slots[j := slot.(data := Splice(slot.data, OffsetOf(d.wide, b), b.data))])
    else
      d
  }

  function CopiedSection(d: Device, j: nat): (r: Device)
    requires j < |d.slots|
    ensures |r.slots| == |d.slots|
  {
    d.(slots := d.slots[j := d.slots[j].(state := if d.flushFlag then WRITING else DIRTY, waiters := [])])
  }

  // ---- flushTheCache: one slot of the walk ----

  predicate DirtyAt(d: Device, j: nat) { j < |d.slots| && d.slots[j].state.DIRTY? }

  function WalkSection(d: Device, j: nat): (r: Device)
    ensures |r.slots| == |d.slots|
  {
    if DirtyAt(d, j) then d.(slots := d.slots[j := d.slots[j].(state := WRITING)]) else d
  }

  // ---- flushCacheBlock, after the lock is dropped ----

  function SubmitSection(d: Device): Device
  {
    if d.stop then d.(flushFailure := d.flushFailure + 1) else d
  }

  // ---- endFlushCacheBlock, under the cache block lock ----

  function EmptySection(d: Device, j: nat): (r: Device)
    requires j < |d.slots|
    ensures |r.slots| == |d.slots|
  {
    d.(slots := d.slots[j := d.slots[j].(state := EMPTY, waiters := [])])
  }

  // ---- decrementBusyCountAndTest: the decrement, then the flush lock ----

  function DecSection(d: Device): Device { d.(busy := d.busy - 1) }

  function FlushSection(d: Device): Device
  {
    if d.flushFlag then d.(flushFlag := false, flushBios := [], waiting := []) else d
  }

  // ---- scheduleDelayedProcessing and processDelayed, under the work lock ----

  predicate NeedsWorker(d: Device, ready: seq<nat>, flushes: seq<nat>)
  {
    (ready != [] || flushes != []) && d.workBios == [] && d.workFlush == []
  }

  function QueueSection(d: Device, ready: seq<nat>, flushes: seq<nat>): Device
  {
    d.(workBios := d.workBios + ready, workFlush := d.workFlush + flushes)
  }

  function TakeSection(d: Device): Device { d.(workBios := [], workFlush := []) }

  /** processDelayed refuses a completed flush only after a write has been refused. */
  predicate FlushRefused(d: Device) { d.stop && d.writeFailure > 0 }
}
