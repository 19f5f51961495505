/**
 Opening the files to merge. Each file gets the next cursor slot, whose scalar was set beforehand;
 a file without a record that counts gives its slot up to the next file, with what it left there.
 */
module TraceOpen {
  import opened Fifo
  import opened TraceFile
  import opened TraceMerge

  datatype File = File(bytes: seq<Byte>)

  predicate IsTrace(f: File) { TraceTest(f.bytes).Some? }

  /** Whether a trace is in the other byte order. */
  predicate Swap(f: File) { IsTrace(f) && TraceTest(f.bytes).value }

  /** What a slot keeps from the files that gave it up. */
  datatype Slot = Slot(iter: nat, length: nat, t: Rec)

  function Zeroed(): Slot { Slot(0, 0, Blank()) }

  function InSlot(f: File, scalar: nat, slot: Slot): Cursor
  {
    Cursor(f.bytes, slot.t, Swap(f), scalar, slot.iter, slot.length)
  }

  /** How the open loop ends: it stops and leaves `ret`, or the cursors are open. */
  datatype Outcome = Refused(ret: int) | Opened(cs: seq<Cursor>)

  /** The open loop from slot i on; `ret` is what the last read left there. A file that is no trace stops it
      with that value, a file broken before its first record with -1. */
  function OpenFrom(files: seq<File>, scalars: seq<nat>, i: nat, slot: Slot, ret: int): Outcome
    requires i + |files| <= |scalars|
    decreases |files|
  {
    if files == [] then Opened([])
    else if !IsTrace(files[0]) then Refused(ret)
    else
      var (c, status) := AfterRead(InSlot(files[0], scalars[i], slot));
      match status
      case Failed => Refused(ReadRet(Failed))
      case Ended => OpenFrom(files[1..], scalars, i, Slot(c.iter + 1, c.length, c.t), ReadRet(Ended))
      case Found => Appended([c], OpenFrom(files[1..], scalars, i + 1, Zeroed(), ReadRet(Found)))
  }

  function Appended(cs: seq<Cursor>, more: Outcome): Outcome
  {
    match more
    case Refused(ret) => more
    case Opened(ds) => Opened(cs + ds)
  }

  lemma AppendedTwice(cs: seq<Cursor>, c: Cursor, more: Outcome)
    ensures Appended(cs, Appended([c], more)) == Appended(cs + [c], more)
  {
    if more.Opened? {
      assert cs + ([c] + more.cs) == cs + [c] + more.cs;
    }
  }

  lemma OpenOnce(files: seq<File>, scalars: seq<nat>, i: nat, slot: Slot, ret: int)
    requires files != [] && i + |files| <= |scalars| && IsTrace(files[0])
    ensures var (c, status) := AfterRead(InSlot(files[0], scalars[i], slot));
            OpenFrom(files, scalars, i, slot, ret) ==
            match status
            case Failed => Refused(ReadRet(Failed))
            case Ended => OpenFrom(files[1..], scalars, i, Slot(c.iter + 1, c.length, c.t), ReadRet(Ended))
            case Found => Appended([c], OpenFrom(files[1..], scalars, i + 1, Zeroed(), ReadRet(Found)))
  {
  }

  lemma OpenFromNext(cs: seq<Cursor>, files: seq<File>, scalars: seq<nat>, i: nat, slot: Slot, ret: int)
    requires files != [] && i + |files| <= |scalars| && IsTrace(files[0])
    ensures var (c, status) := AfterRead(InSlot(files[0], scalars[i], slot));
            Appended(cs, OpenFrom(files, scalars, i, slot, ret)) ==
            match status
            case Failed => Refused(ReadRet(Failed))
            case Ended => Appended(cs, OpenFrom(files[1..], scalars, i, Slot(c.iter + 1, c.length, c.t), ReadRet(Ended)))
            case Found => Appended(cs + [c], OpenFrom(files[1..], scalars, i + 1, Zeroed(), ReadRet(Found)))
  {
    OpenOnce(files, scalars, i, slot, ret);
    var (c, status) := AfterRead(InSlot(files[0], scalars[i], slot));
    if status.Found? {
      AppendedTwice(cs, c, OpenFrom(files[1..], scalars, i + 1, Zeroed(), ReadRet(Found)));
    }
  }

  /** The open loop over all files; `ret` is zero before it. */
  function OpenAll(files: seq<File>, scalars: seq<nat>): Outcome
    requires |files| <= |scalars|
  {
    OpenFrom(files, scalars, 0, Zeroed(), 0)
  }

  function Fresh(scalar: nat): Cursor { Cursor([], Blank(), false, scalar, 0, 0) }

  /** The open loop has used slots below nr for the files below f; slot nr holds what the last files
      left there, and the slots after it are untouched. */
  predicate Opening(files: seq<File>, scalars: seq<nat>, f: nat, cs: seq<Cursor>, nr: nat, slot: Slot, ret: int)
  {
    && |scalars| == |files| == |cs| && nr <= f <= |files|
    && (forall k :: nr < k < |cs| ==> cs[k] == Fresh(scalars[k]))
    && (nr < |cs| ==> cs[nr] == Cursor(cs[nr].stream, slot.t, cs[nr].swap, scalars[nr], slot.iter, slot.length))
    && OpenAll(files, scalars) == Appended(cs[..nr], OpenFrom(files[f..], scalars, nr, slot, ret))
  }

  function Loaded(c: Cursor, f: File): Cursor { c.(stream := f.bytes, swap := Swap(f)) }

  lemma OpeningEnds(files: seq<File>, scalars: seq<nat>, f: nat, cs: seq<Cursor>, nr: nat, slot: Slot, ret: int)
    requires Opening(files, scalars, f, cs, nr, slot, ret) && f < |files| && IsTrace(files[f])
    ensures AfterRead(Loaded(cs[nr], files[f])).1.Failed? ==> OpenAll(files, scalars) == Refused(-1)
    ensures AfterRead(Loaded(cs[nr], files[f])).1.Ended? ==>
              var c := AfterRead(Loaded(cs[nr], files[f])).0;
              Opening(files, scalars, f + 1, cs[nr := c.(iter := c.iter + 1)], nr, Slot(c.iter + 1, c.length, c.t), 0)
  {
    OpenFromNext(cs[..nr], files[f..], scalars, nr, slot, ret);
    assert files[f..][1..] == files[f + 1..];
    var c := AfterRead(Loaded(cs[nr], files[f])).0;
    assert cs[nr := c.(iter := c.iter + 1)][..nr] == cs[..nr];
  }

  lemma OpeningGoesOn(files: seq<File>, scalars: seq<nat>, f: nat, cs: seq<Cursor>, nr: nat, slot: Slot, ret: int)
    requires Opening(files, scalars, f, cs, nr, slot, ret) && f < |files| && IsTrace(files[f])
    requires AfterRead(Loaded(cs[nr], files[f])).1.Found?
    ensures Opening(files, scalars, f + 1, cs[nr := AfterRead(Loaded(cs[nr], files[f])).0], nr + 1, Zeroed(), HEADER)
  {
    OpenFromNext(cs[..nr], files[f..], scalars, nr, slot, ret);
    assert files[f..][1..] == files[f + 1..];
    var c := AfterRead(Loaded(cs[nr], files[f])).0;
    assert cs[nr := c][..nr + 1] == cs[..nr] + [c];
  }

  lemma OpeningDone(files: seq<File>, scalars: seq<nat>, cs: seq<Cursor>, nr: nat, slot: Slot, ret: int)
    requires Opening(files, scalars, |files|, cs, nr, slot, ret)
    ensures nr <= |cs| && OpenAll(files, scalars) == Opened(cs[..nr])
  {
    assert files[|files|..] == [] && cs[..nr] + [] == cs[..nr];
  }

  lemma OpeningRefused(files: seq<File>, scalars: seq<nat>, f: nat, cs: seq<Cursor>, nr: nat, slot: Slot, ret: int)
    requires Opening(files, scalars, f, cs, nr, slot, ret) && f < |files| && !IsTrace(files[f])
    ensures OpenAll(files, scalars) == Refused(ret)
  {
    assert files[f..][0] == files[f];
  }

  lemma OpeningStarts(files: seq<File>, scalars: seq<nat>, cs: seq<Cursor>)
    requires |scalars| == |files| == |cs| && forall k :: 0 <= k < |cs| ==> cs[k] == Fresh(scalars[k])
    ensures Opening(files, scalars, 0, cs, 0, Zeroed(), 0)
  {
    assert files[0..] == files && cs[..0] == [];
    var r := OpenAll(files, scalars);
    assert r.Opened? ==> [] + r.cs == r.cs;
  }

  function Kept(c: Cursor, status: Status): Cursor { if status.Ended? then c.(iter := c.iter + 1) else c }

  lemma OpeningNext(files: seq<File>, scalars: seq<nat>, f: nat, cs: seq<Cursor>, nr: nat, slot: Slot, ret: int)
    returns (slot': Slot)
    requires Opening(files, scalars, f, cs, nr, slot, ret) && f < |files| && IsTrace(files[f])
    ensures var (c, status) := AfterRead(Loaded(cs[nr], files[f]));
            if status.Failed? then OpenAll(files, scalars) == Refused(-1)
            else Opening(files, scalars, f + 1, cs[nr := Kept(c, status)], if status.Found? then nr + 1 else nr,
                         slot', ReadRet(status))
  {
    var (c, status) := AfterRead(Loaded(cs[nr], files[f]));
    OpeningEnds(files, scalars, f, cs, nr, slot, ret);
    slot' := Slot(c.iter + 1, c.length, c.t);
    if status.Found? {
      OpeningGoesOn(files, scalars, f, cs, nr, slot, ret);
      slot' := Zeroed();
    }
  }

  /** Slot f holds what slot c is to keep: all but its file. */
  predicate SameSlot(f: FileCursor, c: Cursor)
  {
    f.t == c.t && f.scalar == c.scalar && f.iter == c.iter && f.length == c.length
  }

  /** The first nr slots are open cursors; the others have yet to be opened. */
  ghost predicate Slots(bcs: array<FileCursor>, cs: seq<Cursor>, nr: nat, objects: set<object>)
    reads bcs, objects
  {
    && nr <= |cs| == bcs.Length && Ready(bcs, cs[..nr], objects)
    && forall k :: nr <= k < |cs| ==> SameSlot(bcs[k], cs[k])
  }

  /** Open a trace in a slot and read its first record; without one, the slot is given up. */
  method OpenOne(f: FileCursor, file: File, ghost c: Cursor) returns (f': FileCursor, status: Status)
    requires SameSlot(f, c)
    ensures fresh(f'.reader) && fresh(f'.reader.fifo) && fresh(f'.reader.fifo.buffer) && f'.reader.Ok()
    ensures status == AfterRead(Loaded(c, file)).1
    ensures !status.Failed? ==> View(f') == Kept(AfterRead(Loaded(c, file)).0, status)
  {
    var reader := new TraceReader(file.bytes);
    f', status := ReadTrace(f.(reader := reader, swap := Swap(file)));
    if status.Ended? {
      f' := f'.(iter := f'.iter + 1);
    }
  }

  function PartsOf(f: FileCursor): set<object> { {f.reader, f.reader.fifo, f.reader.fifo.buffer} }

  /** A cursor was stored in slot nr; its objects are its own. */
  ghost predicate Stored(bcs: array<FileCursor>, cs: seq<Cursor>, nr: nat, c: Cursor, objects: set<object>)
    reads bcs, objects, if nr < bcs.Length then PartsOf(bcs[nr]) else {}
  {
    && nr < |cs| == bcs.Length && Ready(bcs, cs[..nr], objects)
    && (forall k :: nr < k < |cs| ==> SameSlot(bcs[k], cs[k]))
    && PartsOf(bcs[nr]) !! objects && bcs !in PartsOf(bcs[nr]) && bcs[nr].reader.Ok() && View(bcs[nr]) == c
  }

  method Store(bcs: array<FileCursor>, nr: nat, c: FileCursor, ghost cs: seq<Cursor>, ghost objects: set<object>)
    requires nr < |cs| && Slots(bcs, cs, nr, objects)
    requires PartsOf(c) !! objects && bcs !in PartsOf(c) && c.reader.Ok()
    modifies bcs
    ensures bcs[nr] == c && Stored(bcs, cs, nr, View(c), objects)
  {
    bcs[nr] := c;
    forall k | 0 <= k < nr ensures Backs(bcs[k], cs[..nr][k], objects) {
      assert old(Backs(bcs[k], cs[..nr][k], objects));
    }
  }

  /** The same in place, beside the cursors opened before. */
  method OpenNext(bcs: array<FileCursor>, nr: nat, f: File, ghost cs: seq<Cursor>, ghost objects: set<object>)
    returns (status: Status)
    requires nr < |cs| && Slots(bcs, cs, nr, objects)
    modifies bcs
    ensures status == AfterRead(Loaded(cs[nr], f)).1
    ensures !status.Failed? ==>
              Stored(bcs, cs, nr, Kept(AfterRead(Loaded(cs[nr], f)).0, status), objects) && fresh(PartsOf(bcs[nr]))
  {
    var c;
    c, status := OpenOne(bcs[nr], f, cs[nr]);
    assert Ready(bcs, cs[..nr], objects);
    if !status.Failed? {
      Store(bcs, nr, c, cs, objects);
    }
  }

  lemma KeepSlot(bcs: array<FileCursor>, cs: seq<Cursor>, nr: nat, c: Cursor, objects: set<object>)
    requires Stored(bcs, cs, nr, c, objects)
    ensures Slots(bcs, cs[nr := c], nr, objects)
  {
    assert cs[nr := c][..nr] == cs[..nr];
  }

  lemma UseSlot(bcs: array<FileCursor>, cs: seq<Cursor>, nr: nat, c: Cursor, objects: set<object>)
    requires Stored(bcs, cs, nr, c, objects)
    ensures Slots(bcs, cs[nr := c], nr + 1, objects + PartsOf(bcs[nr]))
  {
    var more := objects + PartsOf(bcs[nr]);
    assert cs[nr := c][..nr + 1] == cs[..nr] + [c];
    assert Backs(bcs[nr], c, more);
    forall k | 0 <= k < nr ensures Backs(bcs[k], cs[k], more) && Apart(bcs[k], bcs[nr]) {
      assert Backs(bcs[k], cs[..nr][k], objects);
    }
  }

  /** One turn of the open loop, for file f; `ret` is what the turn before left there. */
  method OpenAt(bcs: array<FileCursor>, nr: nat, files: seq<File>, scalars: seq<nat>, f: nat, ret: int,
                ghost cs: seq<Cursor>, ghost slot: Slot, ghost objects: set<object>)
    returns (ok: bool, nr': nat, ret': int, ghost cs': seq<Cursor>, ghost slot': Slot, ghost objects': set<object>)
    requires f < |files| && Opening(files, scalars, f, cs, nr, slot, ret) && Slots(bcs, cs, nr, objects)
    modifies bcs
    ensures fresh(objects' - objects)
    ensures !ok ==> OpenAll(files, scalars) == Refused(ret')
    ensures ok ==> Opening(files, scalars, f + 1, cs', nr', slot', ret') && Slots(bcs, cs', nr', objects')
  {
    nr', ret', cs', slot', objects' := nr, ret, cs, slot, objects;
    if TraceTest(files[f].bytes).None? {
      OpeningRefused(files, scalars, f, cs, nr, slot, ret);
      return false, nr', ret', cs', slot', objects';
    }
    var status := OpenNext(bcs, nr, files[f], cs, objects);
    slot' := OpeningNext(files, scalars, f, cs, nr, slot, ret);
    ok, ret' := !status.Failed?, ReadRet(status);
    if ok {
      ghost var c := Kept(AfterRead(Loaded(cs[nr], files[f])).0, status);
      cs' := cs[nr := c];
      if status.Found? {
        UseSlot(bcs, cs, nr, c, objects);
        objects' := objects + PartsOf(bcs[nr]);
        nr' := nr + 1;
      } else {
        KeepSlot(bcs, cs, nr, c, objects);
      }
    }
  }

  /** Slots that have only their scalars. */
  method Allocate(scalars: seq<nat>) returns (bcs: array<FileCursor>)
    ensures fresh(bcs) && bcs.Length == |scalars|
    ensures forall k :: 0 <= k < |scalars| ==> SameSlot(bcs[k], Fresh(scalars[k]))
  {
    var none := new TraceReader([]);
    bcs := new FileCursor[|scalars|](i requires 0 <= i < |scalars| => FileCursor(none, Blank(), false, scalars[i], 0, 0));
  }

  /** The open loop on the array of cursors. */
  method OpenFiles(bcs: array<FileCursor>, files: seq<File>, scalars: seq<nat>, ghost all: seq<Cursor>)
    returns (ok: bool, ret: int, nr: nat, ghost objects: set<object>)
    requires Opening(files, scalars, 0, all, 0, Zeroed(), 0) && Slots(bcs, all, 0, {})
    modifies bcs
    ensures fresh(objects)
    ensures !ok ==> OpenAll(files, scalars) == Refused(ret)
    ensures ok ==> OpenAll(files, scalars).Opened?
    ensures ok ==> nr == |OpenAll(files, scalars).cs| && Ready(bcs, OpenAll(files, scalars).cs, objects)
  {
    ok, ret, nr, objects := true, 0, 0, {};
    ghost var slot, cs := Zeroed(), all;
    for f := 0 to |files|
      invariant ok && fresh(objects)
      invariant Opening(files, scalars, f, cs, nr, slot, ret) && Slots(bcs, cs, nr, objects)
    {
      ok, nr, ret, cs, slot, objects := OpenAt(bcs, nr, files, scalars, f, ret, cs, slot, objects);
      if !ok {
        return;
      }
    }
    SlotsDone(bcs, files, scalars, cs, nr, slot, ret, objects);
  }

  /** The array of cursors, all zeroed but for their scalars, and the open loop on it. */
  method Open(files: seq<File>, scalars: seq<nat>)
    returns (ok: bool, ret: int, bcs: array<FileCursor>, nr: nat, ghost objects: set<object>)
    requires |scalars| == |files|
    ensures fresh(bcs) && fresh(objects)
    ensures !ok ==> OpenAll(files, scalars) == Refused(ret)
    ensures ok ==> OpenAll(files, scalars).Opened?
    ensures ok ==> nr == |OpenAll(files, scalars).cs| && Ready(bcs, OpenAll(files, scalars).cs, objects)
  {
    bcs := Allocate(scalars);
    ghost var cs := seq(|files|, i requires 0 <= i < |files| => Fresh(scalars[i]));
    OpeningStarts(files, scalars, cs);
    NoneOpen(bcs, cs);
    ok, ret, nr, objects := OpenFiles(bcs, files, scalars, cs);
  }

  lemma NoneOpen(bcs: array<FileCursor>, cs: seq<Cursor>)
    requires |cs| == bcs.Length && forall k :: 0 <= k < |cs| ==> SameSlot(bcs[k], cs[k])
    ensures Slots(bcs, cs, 0, {})
  {
  }

  lemma SlotsDone(bcs: array<FileCursor>, files: seq<File>, scalars: seq<nat>, cs: seq<Cursor>, nr: nat, slot: Slot,
                  ret: int, objects: set<object>)
    requires Opening(files, scalars, |files|, cs, nr, slot, ret) && Slots(bcs, cs, nr, objects)
    ensures OpenAll(files, scalars).Opened?
    ensures nr == |OpenAll(files, scalars).cs| && Ready(bcs, OpenAll(files, scalars).cs, objects)
  {
    OpeningDone(files, scalars, cs, nr, slot, ret);
  }
}
