/**
 Block requests ("bios"), the disk they address, and the flat disk that the Dory
 device is meant to look like: the acknowledged writes applied one after another.
 */
module DoryDisk {

  type Byte = bv8
  type Block = seq<Byte>

  /** `Flush(true)` is an empty write marked REQ_PREFLUSH, `Flush(false)` is REQ_OP_FLUSH:
      only the first has data direction WRITE. */
  datatype Op = Read | Write | Fua | Discard | Flush(outbound: bool)

  /** `size` is in bytes. For a discard, `data` is what the storage reads back afterwards. */
  datatype Bio = Bio(op: Op, sector: nat, size: nat, data: seq<Byte>)

  predicate IsFlush(b: Bio) { b.op.Flush? }

  predicate Outbound(b: Bio) { if b.op.Flush? then b.op.outbound else !b.op.Read? }

  predicate Mutates(b: Bio) { b.op.Write? || b.op.Fua? || b.op.Discard? }

  function BlockSize(wide: bool): nat { if wide then 4096 else 512 }

  function BlockOf(wide: bool, b: Bio): nat { if wide then b.sector / 8 else b.sector }

  function OffsetOf(wide: bool, b: Bio): nat
  {
    if wide then (b.sector - 8 * (b.sector / 8)) * 512 else 0
  }

  predicate Full(wide: bool, b: Bio) { b.size == BlockSize(wide) }

  /** What the device mapper guarantees of a bio it maps: a flush is empty, anything else
      stays inside one block of the device. */
  predicate Fits(wide: bool, blocks: nat, b: Bio)
  {
    if IsFlush(b) then
      b.size == 0
    else
      && BlockOf(wide, b) < blocks
      && 0 < b.size
      && OffsetOf(wide, b) + b.size <= BlockSize(wide)
      && (Mutates(b) ==> |b.data| == b.size)
  }

  predicate Overlap(wide: bool, a: Bio, b: Bio)
  {
    && !IsFlush(a) && !IsFlush(b)
    && BlockOf(wide, a) == BlockOf(wide, b)
    && OffsetOf(wide, a) < OffsetOf(wide, b) + b.size
    && OffsetOf(wide, b) < OffsetOf(wide, a) + a.size
  }

  predicate Conflict(wide: bool, a: Bio, b: Bio)
  {
    Overlap(wide, a, b) && (Mutates(a) || Mutates(b))
  }

  // ---- Bytes of one block ----

  function Splice(block: Block, at: nat, data: seq<Byte>): (r: Block)
    requires at + |data| <= |block|
    ensures |r| == |block|
  {
    block[..at] + data + block[at + |data|..]
  }

  /** The disk after one write; a bio that does not fit leaves the disk alone. */
  function Put(wide: bool, disk: seq<Block>, b: Bio): (r: seq<Block>)
    ensures |r| == |disk|
  {
    var k, at := BlockOf(wide, b), OffsetOf(wide, b);
    if k < |disk| && at + |b.data| <= |disk[k]| then
      disk[k := Splice(disk[k], at, b.data)]
    else
      disk
  }

  function Get(wide: bool, disk: seq<Block>, b: Bio): seq<Byte>
  {
    var k, at := BlockOf(wide, b), OffsetOf(wide, b);
    if k < |disk| && at + b.size <= |disk[k]| then disk[k][at..at + b.size] else []
  }

  predicate Sized(wide: bool, disk: seq<Block>)
  {
    forall k :: 0 <= k < |disk| ==> |disk[k]| == BlockSize(wide)
  }

  /** Whatever the block held before, a full-block write leaves exactly its own data. */
  lemma FullSplice(wide: bool, block: Block, b: Bio)
    requires |block| == BlockSize(wide) && Full(wide, b) && |b.data| == b.size
    requires OffsetOf(wide, b) + b.size <= BlockSize(wide)
    ensures Splice(block, OffsetOf(wide, b), b.data) == b.data
  {
    assert OffsetOf(wide, b) == 0;
  }

  /** A range that a write does not touch reads the same after it. */
  lemma SpliceApart(block: Block, at: nat, data: seq<Byte>, lo: nat, len: nat)
    requires at + |data| <= |block| && lo + len <= |block|
    requires lo + len <= at || at + |data| <= lo
    ensures Splice(block, at, data)[lo..lo + len] == block[lo..lo + len]
  {
    var r := Splice(block, at, data);
    forall p | lo <= p < lo + len ensures r[p] == block[p] {
    }
  }

  // ---- The flat disk ----

  /** How a bio ended: `served` or refused with the error status; `direct` when the storage
      itself completed it; `data` is what a read returned. */
  datatype Ending = Ending(id: nat, served: bool, direct: bool, data: seq<Byte>)

  predicate Changes(bios: seq<Bio>, e: Ending)
  {
    e.served && e.id < |bios| && Mutates(bios[e.id])
  }

  /** The flat disk: the served writes of `done`, applied in the order they were acknowledged. */
  function Replay(wide: bool, init: seq<Block>, bios: seq<Bio>, done: seq<Ending>): (r: seq<Block>)
    ensures |r| == |init|
  {
    if done == [] then
      init
    else
      var e := done[|done| - 1];
      var before := Replay(wide, init, bios, done[..|done| - 1]);
      if Changes(bios, e) then Put(wide, before, bios[e.id]) else before
  }

  /** `done` is a history a flat disk could have produced: every served read returned what the
      writes acknowledged before it left there. */
  predicate Legal(wide: bool, init: seq<Block>, bios: seq<Bio>, done: seq<Ending>)
  {
    done == [] ||
    var e := done[|done| - 1];
    && Legal(wide, init, bios, done[..|done| - 1])
    && (e.served && e.id < |bios| && bios[e.id].op.Read? ==>
          e.data == Get(wide, Replay(wide, init, bios, done[..|done| - 1]), bios[e.id]))
  }

  lemma {:induction false} ReplaySized(wide: bool, init: seq<Block>, bios: seq<Bio>, done: seq<Ending>)
    requires Sized(wide, init)
    ensures Sized(wide, Replay(wide, init, bios, done))
  {
    if done != [] {
      ReplaySized(wide, init, bios, done[..|done| - 1]);
    }
  }

  lemma ReplayAppend(wide: bool, init: seq<Block>, bios: seq<Bio>, done: seq<Ending>, e: Ending)
    ensures Replay(wide, init, bios, done + [e]) ==
            if Changes(bios, e) then Put(wide, Replay(wide, init, bios, done), bios[e.id])
            else Replay(wide, init, bios, done)
    ensures Legal(wide, init, bios, done + [e]) ==
            (Legal(wide, init, bios, done) &&
             (e.served && e.id < |bios| && bios[e.id].op.Read? ==>
                e.data == Get(wide, Replay(wide, init, bios, done), bios[e.id])))
  {
    assert (done + [e])[..|done + [e]| - 1] == done;
  }

  /** Accepting another bio does not change what the finished ones did. */
  lemma {:induction false} ReplayMoreBios(wide: bool, init: seq<Block>, bios: seq<Bio>, more: Bio, done: seq<Ending>)
    requires forall p :: 0 <= p < |done| ==> done[p].id < |bios|
    ensures Replay(wide, init, bios + [more], done) == Replay(wide, init, bios, done)
    ensures Legal(wide, init, bios + [more], done) == Legal(wide, init, bios, done)
  {
    if done != [] {
      ReplayMoreBios(wide, init, bios, more, done[..|done| - 1]);
      assert done[|done| - 1].id < |bios|;
    }
  }
}
