/**
 The flat disk as one array of bytes, addressed by sectors of 512 bytes alone: no blocks, no slots.
 */
module DoryBytes {
  import opened DoryDisk
  import opened DorySections
  import opened DoryMachine
  import opened DoryStructure
  import opened DoryView
  import opened DoryCrash
  import opened DoryInv
  import opened DoryTheorems
  import opened DoryDurable

  // ---- One disk ----

  function Bytes(disk: seq<Block>): seq<Byte>
  {
    if disk == [] then [] else Bytes(disk[..|disk| - 1]) + disk[|disk| - 1]
  }

  /** Where a bio starts, in bytes. */
  function At(b: Bio): nat { 512 * b.sector }

  predicate Inside(total: nat, b: Bio) { At(b) + b.size <= total }

  lemma {:induction false} BytesSize(wide: bool, disk: seq<Block>)
    requires Sized(wide, disk)
    ensures |Bytes(disk)| == |disk| * (if wide then 4096 else 512)
  {
    if disk != [] {
      BytesSize(wide, disk[..|disk| - 1]);
    }
  }

  /** Block k of the disk starts at byte 4096 k, or 512 k. */
  lemma {:induction false} BytesBlock(wide: bool, disk: seq<Block>, k: nat)
    requires Sized(wide, disk) && k < |disk|
    ensures var n := if wide then 4096 else 512;
            k * n + n <= |Bytes(disk)| && Bytes(disk)[k * n..k * n + n] == disk[k]
  {
    var n, last := if wide then 4096 else 512, |disk| - 1;
    BytesSize(wide, disk[..last]);
    if k < last {
      BytesBlock(wide, disk[..last], k);
      SliceLeft(Bytes(disk[..last]), disk[last], k * n, k * n + n);
    } else {
      SliceRight(Bytes(disk[..last]), disk[last]);
      assert |disk[..last]| == last;
    }
  }

  lemma SliceLeft(a: seq<Byte>, b: seq<Byte>, lo: nat, hi: nat)
    requires lo <= hi <= |a|
    ensures (a + b)[lo..hi] == a[lo..hi]
  {
  }

  lemma SliceRight(a: seq<Byte>, b: seq<Byte>)
    ensures (a + b)[|a|..|a| + |b|] == b
  {
  }

  /** The block and the offset of a bio are the place of its first byte. */
  lemma Place(wide: bool, blocks: nat, b: Bio)
    requires Fits(wide, blocks, b) && !IsFlush(b)
    ensures var n := if wide then 4096 else 512;
            && At(b) == BlockOf(wide, b) * n + OffsetOf(wide, b) && OffsetOf(wide, b) + b.size <= n
            && BlockOf(wide, b) < blocks
  {
  }

  /** A bio fits exactly if its bytes are on the disk and in one block. */
  lemma FitsIffInside(wide: bool, blocks: nat, b: Bio)
    requires !IsFlush(b) && b.size > 0 && (Mutates(b) ==> |b.data| == b.size)
    ensures var n := if wide then 4096 else 512;
            Fits(wide, blocks, b) <==> Inside(blocks * n, b) && At(b) / n == (At(b) + b.size - 1) / n
  {
  }

  /** A read of the disk is the bytes from 512 times its sector on. */
  lemma GetIsBytes(wide: bool, disk: seq<Block>, b: Bio)
    requires Sized(wide, disk) && Fits(wide, |disk|, b) && !IsFlush(b)
    ensures Inside(|Bytes(disk)|, b) && Get(wide, disk, b) == Bytes(disk)[At(b)..At(b) + b.size]
  {
    var n, k, at := if wide then 4096 else 512, BlockOf(wide, b), OffsetOf(wide, b);
    Place(wide, |disk|, b);
    BytesBlock(wide, disk, k);
    SliceOfSlice(Bytes(disk), k * n, n, at, b.size);
  }

  lemma SliceOfSlice(x: seq<Byte>, lo: nat, n: nat, at: nat, size: nat)
    requires lo + n <= |x| && at + size <= n
    ensures x[lo..lo + n][at..at + size] == x[lo + at..lo + at + size]
  {
    var y := x[lo..lo + n];
    var l, r := y[at..at + size], x[lo + at..lo + at + size];
    assert |l| == |r| && forall i :: 0 <= i < size ==> l[i] == y[at + i] == r[i];
  }

  /** A write to the disk changes exactly the bytes from 512 times its sector on. */
  lemma PutIsSplice(wide: bool, disk: seq<Block>, b: Bio)
    requires Sized(wide, disk) && Fits(wide, |disk|, b) && Mutates(b)
    ensures Inside(|Bytes(disk)|, b) && Bytes(Put(wide, disk, b)) == Splice(Bytes(disk), At(b), b.data)
  {
    var k, at := BlockOf(wide, b), OffsetOf(wide, b);
    Place(wide, |disk|, b);
    BytesBlock(wide, disk, k);
    BytesUpdate(wide, disk, k, at, b.data);
  }

  lemma {:induction false} BytesUpdate(wide: bool, disk: seq<Block>, k: nat, at: nat, data: seq<Byte>)
    requires Sized(wide, disk) && k < |disk| && at + |data| <= |disk[k]|
    ensures var n := if wide then 4096 else 512;
            && k * n + at + |data| <= |Bytes(disk)|
            && Bytes(disk[k := Splice(disk[k], at, data)]) == Splice(Bytes(disk), k * n + at, data)
  {
    var n, last := if wide then 4096 else 512, |disk| - 1;
    var disk' := disk[k := Splice(disk[k], at, data)];
    var b := Bytes(disk[..last]);
    BytesSize(wide, disk[..last]);
    if k < last {
      BytesUpdate(wide, disk[..last], k, at, data);
      assert disk'[..last] == disk[..last][k := Splice(disk[k], at, data)];
      SpliceLeft(b, disk[last], k * n + at, data);
    } else {
      assert disk'[..last] == disk[..last];
      SpliceRight(b, disk[last], at, data);
    }
  }

  lemma SpliceLeft(a: seq<Byte>, b: seq<Byte>, at: nat, data: seq<Byte>)
    requires at + |data| <= |a|
    ensures Splice(a + b, at, data) == Splice(a, at, data) + b
  {
  }

  lemma SpliceRight(a: seq<Byte>, b: seq<Byte>, at: nat, data: seq<Byte>)
    requires at + |data| <= |b|
    ensures Splice(a + b, |a| + at, data) == a + Splice(b, at, data)
  {
  }

  /** The bytes of two bios have one in common. */
  predicate Meet(a: Bio, b: Bio) { At(a) < At(b) + b.size && At(b) < At(a) + a.size }

  /** Two bios overlap exactly if their bytes meet. */
  lemma OverlapIffMeet(wide: bool, blocks: nat, a: Bio, b: Bio)
    requires Fits(wide, blocks, a) && Fits(wide, blocks, b) && !IsFlush(a) && !IsFlush(b)
    ensures Overlap(wide, a, b) <==> Meet(a, b)
  {
    Place(wide, blocks, a);
    Place(wide, blocks, b);
  }

  // ---- The flat disk ----

  /** A write, FUA write or discard that was acknowledged. */
  predicate Applied(bios: seq<Bio>, e: Ending)
  {
    e.served && e.id < |bios| && match bios[e.id].op
                                 case Write => true
                                 case Fua => true
                                 case Discard => true
                                 case Read => false
                                 case Flush(_) => false
  }

  /** The acknowledged writes on an array of bytes, one after another. */
  function ReplayBytes(init: seq<Byte>, bios: seq<Bio>, done: seq<Ending>): (r: seq<Byte>)
    ensures |r| == |init|
  {
    if done == [] then init
    else
      var e, before := done[|done| - 1], ReplayBytes(init, bios, done[..|done| - 1]);
      if Applied(bios, e) && At(bios[e.id]) + |bios[e.id].data| <= |before| then
        Splice(before, At(bios[e.id]), bios[e.id].data)
      else before
  }

  /** Every acknowledged read returned the bytes that were there. */
  predicate LegalBytes(init: seq<Byte>, bios: seq<Bio>, done: seq<Ending>)
  {
    forall q :: 0 <= q < |done| && done[q].served && done[q].id < |bios| && bios[done[q].id].op.Read? ==>
      var b, now := bios[done[q].id], ReplayBytes(init, bios, done[..q]);
      Inside(|now|, b) && done[q].data == now[At(b)..At(b) + b.size]
  }

  lemma {:induction false} ReplayIsBytes(wide: bool, init: seq<Block>, bios: seq<Bio>, done: seq<Ending>)
    requires Sized(wide, init) && forall b :: 0 <= b < |bios| ==> Fits(wide, |init|, bios[b])
    ensures Bytes(Replay(wide, init, bios, done)) == ReplayBytes(Bytes(init), bios, done)
  {
    if done != [] {
      var before := done[..|done| - 1];
      ReplayIsBytes(wide, init, bios, before);
      ReplaySized(wide, init, bios, before);
      var e := done[|done| - 1];
      if Changes(bios, e) {
        PutIsSplice(wide, Replay(wide, init, bios, before), bios[e.id]);
      }
    }
  }

  lemma ReadIsBytes(wide: bool, init: seq<Block>, bios: seq<Bio>, done: seq<Ending>, b: Bio)
    requires Sized(wide, init) && (forall m :: 0 <= m < |bios| ==> Fits(wide, |init|, bios[m]))
    requires Fits(wide, |init|, b) && !IsFlush(b)
    ensures var now := ReplayBytes(Bytes(init), bios, done);
            Inside(|now|, b) && Get(wide, Replay(wide, init, bios, done), b) == now[At(b)..At(b) + b.size]
  {
    ReplayIsBytes(wide, init, bios, done);
    ReplaySized(wide, init, bios, done);
    GetIsBytes(wide, Replay(wide, init, bios, done), b);
  }

  lemma {:induction false} LegalIsBytes(wide: bool, init: seq<Block>, bios: seq<Bio>, done: seq<Ending>)
    requires Sized(wide, init) && forall b :: 0 <= b < |bios| ==> Fits(wide, |init|, bios[b])
    requires Legal(wide, init, bios, done)
    ensures LegalBytes(Bytes(init), bios, done)
  {
    if done != [] {
      var before, e := done[..|done| - 1], done[|done| - 1];
      LegalIsBytes(wide, init, bios, before);
      forall q | 0 <= q < |done| && done[q].served && done[q].id < |bios| && bios[done[q].id].op.Read?
        ensures var b, now := bios[done[q].id], ReplayBytes(Bytes(init), bios, done[..q]);
                Inside(|now|, b) && done[q].data == now[At(b)..At(b) + b.size]
      {
        if q < |before| {
          assert done[..q] == before[..q] && before[q] == done[q];
        } else {
          ReadIsBytes(wide, init, bios, before, bios[e.id]);
        }
      }
    }
  }

  // ---- Runs ----

  /** The flat disk of a state, in bytes. */
  function FlatBytes(s: State): seq<Byte> { ReplayBytes(Bytes(s.aux.init), s.bios, s.done) }

  /** The storage overlaid with the slots in use. */
  function Overlay(s: State): (r: seq<Block>)
    requires |s.aux.notes| == |s.d.slots|
    ensures |r| == |s.disk| && forall k :: 0 <= k < |r| ==> r[k] == ViewAt(s, k)
  {
    seq(|s.disk|, k requires 0 <= k < |s.disk| => ViewAt(s, k))
  }

  lemma {:induction false} SameByte(wide: bool, a: seq<Block>, b: seq<Block>, i: nat)
    requires Sized(wide, a) && |a| == |b| && |Bytes(b)| == |Bytes(a)| && i < |Bytes(a)|
    requires var n := if wide then 4096 else 512; i / n < |b| && |b[i / n]| == n && a[i / n] == b[i / n]
    requires Sized(wide, b)
    ensures Bytes(a)[i] == Bytes(b)[i]
  {
    var n := if wide then 4096 else 512;
    BytesSize(wide, a);
    BytesBlock(wide, a, i / n);
    BytesBlock(wide, b, i / n);
    assert Bytes(a)[i] == Bytes(a)[i / n * n..i / n * n + n][i % n];
    assert Bytes(b)[i] == Bytes(b)[i / n * n..i / n * n + n][i % n];
  }

  lemma OverlaySized(s: State)
    requires Inv(s)
    ensures Sized(s.d.wide, Overlay(s)) && Sized(s.d.wide, Flat(s)) && Sized(s.d.wide, s.disk) && |Flat(s)| == |s.disk|
  {
    ReplaySized(s.d.wide, s.aux.init, s.bios, s.done);
    forall k | 0 <= k < |s.disk| ensures |ViewAt(s, k)| == BlockSize(s.d.wide) {
      if s.d.slots != [] {
        assert SlotOk(s, SlotOf(|s.d.slots|, k));
      }
    }
  }

  /** Until a write-back has been refused, the completions are a history of a flat array of bytes, in which a
      bio is at 512 times its sector. And the storage overlaid with the slots in use is that array, byte for
      byte, except in a block that was lost, or under a full-block FUA write or discard in flight. */
  lemma ByteDisk(run: seq<State>, p: nat)
    requires IsRun(run) && p < |run|
    ensures var s := run[p];
            && |s.aux.notes| == |s.d.slots| && |Bytes(Overlay(s))| == |FlatBytes(s)| == |Bytes(s.disk)|
            && (s.aux.lost == {} ==> LegalBytes(Bytes(s.aux.init), s.bios, s.done))
            && (forall i :: 0 <= i < |FlatBytes(s)| ==>
                  Bytes(Overlay(s))[i] == FlatBytes(s)[i] || Excused(s, i / if s.d.wide then 4096 else 512))
  {
    var s := run[p];
    InvAlways(run, p);
    OverlaySized(s);
    ReplayIsBytes(s.d.wide, s.aux.init, s.bios, s.done);
    BytesSize(s.d.wide, s.disk);
    BytesSize(s.d.wide, Overlay(s));
    BytesSize(s.d.wide, Flat(s));
    if s.aux.lost == {} {
      LegalIsBytes(s.d.wide, s.aux.init, s.bios, s.done);
    }
    forall i | 0 <= i < |FlatBytes(s)| && !Excused(s, i / if s.d.wide then 4096 else 512)
      ensures Bytes(Overlay(s))[i] == FlatBytes(s)[i]
    {
      var k := i / if s.d.wide then 4096 else 512;
      assert ViewAt(s, k) == Flat(s)[k];
      SameByte(s.d.wide, Overlay(s), Flat(s), i);
    }
  }

  /** No acknowledged write since has met the bytes of the q-th ending. */
  predicate Unmet(s: State, q: nat)
    requires q < |s.done| && s.done[q].id < |s.bios|
  {
    forall r :: q < r < |s.done| && Applied(s.bios, s.done[r]) ==> !Meet(s.bios[s.done[r].id], s.bios[s.done[q].id])
  }

  lemma OverwrittenIffMet(s: State, q: nat)
    requires Inv(s) && q < |s.done| && Applied(s.bios, s.done[q])
    ensures Overwritten(s, q) <==> !Unmet(s, q)
  {
    var b := s.bios[s.done[q].id];
    forall r | q < r < |s.done| && Applied(s.bios, s.done[r])
      ensures Overlap(s.d.wide, s.bios[s.done[r].id], b) <==> Meet(s.bios[s.done[r].id], b)
    {
      OverlapIffMeet(s.d.wide, |s.disk|, s.bios[s.done[r].id], b);
    }
  }

  lemma FlatHasBytes(s: State, q: nat)
    requires Inv(s) && q < |s.done| && Applied(s.bios, s.done[q]) && !Overwritten(s, q)
    ensures var b := s.bios[s.done[q].id];
            && Inside(|FlatBytes(s)|, b) && FlatBytes(s)[At(b)..At(b) + b.size] == b.data
  {
    var b := s.bios[s.done[q].id];
    assert Fits(s.d.wide, |s.disk|, b);
    assert s.done[..|s.done|] == s.done;
    FlatHas(s, q, |s.done|);
    ReplaySized(s.d.wide, s.aux.init, s.bios, s.done);
    ReplayIsBytes(s.d.wide, s.aux.init, s.bios, s.done);
    GetIsBytes(s.d.wide, Flat(s), b);
  }

  lemma StorageHasBytes(s: State, q: nat)
    requires Inv(s) && q < |s.done| && Applied(s.bios, s.done[q])
    ensures var b := s.bios[s.done[q].id];
            && Inside(|Bytes(s.disk)|, b) && Get(s.d.wide, s.disk, b) == Bytes(s.disk)[At(b)..At(b) + b.size]
  {
    var b := s.bios[s.done[q].id];
    assert Fits(s.d.wide, |s.disk|, b);
    GetIsBytes(s.d.wide, s.disk, b);
  }

  /** The array of bytes holds an acknowledged write until an acknowledged write meets it; so does the storage,
      for a FUA write, before and after a stop. */
  lemma ByteHas(run: seq<State>, p: nat, q: nat)
    requires IsRun(run) && p < |run| && q < |run[p].done| && Applied(run[p].bios, run[p].done[q]) && Unmet(run[p], q)
    ensures var s, b := run[p], run[p].bios[run[p].done[q].id];
            && Inside(|FlatBytes(s)|, b) && FlatBytes(s)[At(b)..At(b) + b.size] == b.data
            && Inside(|Bytes(s.disk)|, b) && (b.op.Fua? ==> Bytes(s.disk)[At(b)..At(b) + b.size] == b.data)
  {
    var s := run[p];
    InvAlways(run, p);
    OverwrittenIffMet(s, q);
    FlatHasBytes(s, q);
    StorageHasBytes(s, q);
    if s.bios[s.done[q].id].op.Fua? {
      FuaNeverLost(run, p, q);
    }
  }

  /** A write is on the storage exactly if the storage has its data at 512 times its sector. */
  lemma StoredIffBytes(run: seq<State>, p: nat, q: nat)
    requires IsRun(run) && p < |run| && q < |run[p].done| && Applied(run[p].bios, run[p].done[q])
    ensures var s, b := run[p], run[p].bios[run[p].done[q].id];
            && Inside(|Bytes(s.disk)|, b) && (Stored(s, q) <==> Bytes(s.disk)[At(b)..At(b) + b.size] == b.data)
            && (Stands(s, q) <==> Unmet(s, q))
  {
    var s := run[p];
    InvAlways(run, p);
    OverwrittenIffMet(s, q);
    StorageHasBytes(s, q);
  }
}
