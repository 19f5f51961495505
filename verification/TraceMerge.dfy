/**
 Merging blktrace files by time, with one pass over each file. A cursor stands for one open file:
 its unread bytes, its current record with its time already scaled, and its scaling parameters.
 */
module TraceMerge {
  import opened Sums
  import opened Options
  import opened Bits
  import opened Fifo
  import opened TraceFile

  datatype Cursor = Cursor(stream: seq<Byte>, t: Rec, swap: bool, scalar: nat, iter: nat, length: nat)

  /** The time a record gets in the merged trace, in 64-bit arithmetic. */
  function Timing(r: Rec, scalar: nat, iter: nat, length: nat): (r': Rec)
    ensures r'.time < TWO64
  {
    r.(time := (((r.time + iter * length) % TWO64) * scalar) % TWO64 / 100)
  }

  function Retimed(c: Cursor, r: Rec): (r': Rec)
    ensures r'.time < TWO64
  {
    Timing(r, c.scalar, c.iter, c.length)
  }

  /** A record as it is written: its data is left out. */
  function Clean(r: Rec): Rec { r.(pdu := 0) }

  function Cleaned(c: Cursor, rs: seq<Rec>): (r: seq<Rec>)
    ensures |r| == |rs|
    ensures forall i :: 0 <= i < |rs| ==> r[i] == Clean(Retimed(c, rs[i]))
  {
    if rs == [] then [] else [Clean(Retimed(c, rs[0]))] + Cleaned(c, rs[1..])
  }

  // ---- One cursor ----

  datatype Status = Found | Ended | Failed

  /** A cursor after read_trace. */
  function AfterRead(c: Cursor): (Cursor, Status)
  {
    match NextRecord(c.stream, c.swap, c.t)
    case Got(r, rest) => (c.(stream := rest, t := Retimed(c, r)), Found)
    case End(last) => (c.(stream := [], t := last, length := if c.length == 0 then last.time else c.length), Ended)
    case Bad => (c, Failed)
  }

  /** What read_trace returns. */
  function ReadRet(status: Status): int { if status.Found? then HEADER else if status.Ended? then 0 else -1 }

  /** A cursor as the program has it, with the reader of its file. */
  datatype FileCursor = FileCursor(reader: TraceReader, t: Rec, swap: bool, scalar: nat, iter: nat, length: nat)

  /** What a cursor stands for: its unread bytes are those in the FIFO and those still in the file. */
  ghost function View(f: FileCursor): Cursor
    reads f.reader
  {
    Cursor(f.reader.stream, f.t, f.swap, f.scalar, f.iter, f.length)
  }

  /** read_trace: read records through the FIFO until one counts. */
  method ReadTrace(f: FileCursor) returns (f': FileCursor, status: Status)
    requires f.reader.Ok()
    modifies f.reader, f.reader.fifo, f.reader.fifo.buffer
    ensures f'.reader == f.reader && f.reader.Ok()
    ensures status == AfterRead(old(View(f))).1
    ensures !status.Failed? ==> View(f') == AfterRead(old(View(f))).0
  {
    f' := f;
    ghost var c := View(f);
    while true
      invariant f' == f.(t := f'.t) && f.reader.Ok()
      invariant NextRecord(c.stream, c.swap, c.t) == NextRecord(f.reader.stream, f.swap, f'.t)
      decreases |f.reader.stream|
    {
      ghost var stream := f.reader.stream;
      var ret, header := f.reader.Get(HEADER, true);
      if ret == 0 {
        if f'.length == 0 {
          f' := f'.(length := f'.t.time);
        }
        return f', Ended;
      } else if ret < HEADER {
        return f', Failed;
      }
      var t := Decode(header, f'.swap);
      if Accepted(t.action) {
        return f'.(t := Timing(t, f'.scalar, f'.iter, f'.length)), Found;
      }
      var skipped, _ := f.reader.Get(t.pdu, false);
      if skipped != t.pdu {
        return f', Failed;
      }
      f' := f'.(t := t);
    }
  }

  /** The records of the file after a cursor's current one, as read. */
  function Tail(c: Cursor): Option<seq<Rec>>
  {
    if c.t.pdu > Available(c.stream) then None else Records(c.stream[c.t.pdu..], c.swap)
  }

  /** The records a cursor has yet to write, or none if its file turns out bad. */
  function Ahead(c: Cursor): (r: Option<seq<Rec>>)
    ensures r.Some? ==> r.value != [] && r.value[0] == Clean(c.t)
  {
    match Tail(c)
    case None => None
    case Some(rs) => Some([Clean(c.t)] + Cleaned(c, rs))
  }

  function Discarded(c: Cursor): Cursor
    requires c.t.pdu <= |c.stream|
  {
    c.(stream := c.stream[c.t.pdu..])
  }

  lemma TailNext(c: Cursor)
    requires c.t.pdu <= Available(c.stream)
    ensures AfterRead(Discarded(c)).1.Failed? ==> Tail(c).None?
    ensures AfterRead(Discarded(c)).1.Ended? ==> Tail(c) == Some([])
    ensures AfterRead(Discarded(c)).1.Found? ==>
              var g := NextRecord(c.stream[c.t.pdu..], c.swap, c.t);
              var d := c.(stream := g.rest, t := Retimed(c, g.rec));
              && AfterRead(Discarded(c)).0 == d && |d.stream| < |c.stream|
              && Tail(c) == if Tail(d).None? then None else Some([g.rec] + Tail(d).value)
  {
    RecordsNext(c.stream[c.t.pdu..], c.swap, c.t);
  }

  /** Writing a cursor's record and reading on leaves exactly the rest of what was ahead. */
  lemma ReadOn(c: Cursor)
    requires c.t.pdu <= Available(c.stream)
    ensures AfterRead(Discarded(c)).1.Failed? ==> Ahead(c).None?
    ensures AfterRead(Discarded(c)).1.Ended? ==> Ahead(c) == Some([Clean(c.t)])
    ensures AfterRead(Discarded(c)).1.Found? ==>
              var d := AfterRead(Discarded(c)).0;
              && |d.stream| < |c.stream|
              && (Ahead(c).Some? <==> Ahead(d).Some?)
              && (Ahead(c).Some? ==> Ahead(c).value == [Clean(c.t)] + Ahead(d).value)
  {
    TailNext(c);
    assert [Clean(c.t)] + Cleaned(c, []) == [Clean(c.t)];
    if AfterRead(Discarded(c)).1.Found? && Tail(c).Some? {
      var d := AfterRead(Discarded(c)).0;
      SameTiming(c, d, Tail(d).value);
      assert Tail(c).value[1..] == Tail(d).value;
    }
  }

  lemma {:induction false} SameTiming(c: Cursor, d: Cursor, rs: seq<Rec>)
    requires c.scalar == d.scalar && c.iter == d.iter && c.length == d.length
    ensures Cleaned(c, rs) == Cleaned(d, rs)
  {
    if rs != [] {
      SameTiming(c, d, rs[1..]);
    }
  }

  // ---- Merging lists ----

  predicate Sorted(rs: seq<Rec>) { forall i, j :: 0 <= i < j < |rs| ==> rs[i].time <= rs[j].time }

  predicate AllSorted(ls: seq<seq<Rec>>) { forall i :: 0 <= i < |ls| ==> Sorted(ls[i]) }

  /** How often a record occurs in all the lists together. */
  function Times(x: Rec, ls: seq<seq<Rec>>): nat
  {
    if ls == [] then 0 else Times(x, ls[..|ls| - 1]) + multiset(ls[|ls| - 1])[x]
  }

  lemma {:induction false} TimesAt(x: Rec, ls: seq<seq<Rec>>, i: nat, l: seq<Rec>)
    requires i < |ls|
    ensures Times(x, ls[i := l]) + multiset(ls[i])[x] == Times(x, ls) + multiset(l)[x]
  {
    var last := |ls| - 1;
    if i == last {
      assert ls[i := l][..last] == ls[..last];
    } else {
      TimesAt(x, ls[..last], i, l);
      assert ls[i := l][..last] == ls[..last][i := l];
    }
  }

  /** An entry is overwritten by the last one, which leaves its place. */
  function Dropped<T>(ls: seq<T>, i: nat): (r: seq<T>)
    requires i < |ls|
    ensures |r| == |ls| - 1
  {
    ls[i := ls[|ls| - 1]][..|ls| - 1]
  }

  lemma TimesDropped(x: Rec, ls: seq<seq<Rec>>, i: nat)
    requires i < |ls|
    ensures Times(x, Dropped(ls, i)) + multiset(ls[i])[x] == Times(x, ls)
  {
    TimesAt(x, ls, i, ls[|ls| - 1]);
  }

  /** Part of the lists has been written, nothing lost, nothing twice, in order if they were. */
  ghost predicate Merging(all: seq<seq<Rec>>, ls: seq<seq<Rec>>, out: seq<Rec>)
  {
    && (forall x :: multiset(out)[x] + Times(x, ls) == Times(x, all))
    && (forall i :: 0 <= i < |ls| ==> ls[i] != [])
    && (AllSorted(all) ==>
          && AllSorted(ls) && Sorted(out)
          && (forall p, i :: 0 <= p < |out| && 0 <= i < |ls| ==> out[p].time <= ls[i][0].time))
  }

  function Advanced(ls: seq<seq<Rec>>, i: nat): seq<seq<Rec>>
    requires i < |ls| && ls[i] != []
  {
    if |ls[i]| == 1 then Dropped(ls, i) else ls[i := ls[i][1..]]
  }

  lemma AdvancedTimes(x: Rec, ls: seq<seq<Rec>>, i: nat)
    requires i < |ls| && ls[i] != []
    ensures Times(x, Advanced(ls, i)) + multiset([ls[i][0]])[x] == Times(x, ls)
  {
    if |ls[i]| == 1 {
      assert ls[i] == [ls[i][0]];
      TimesDropped(x, ls, i);
    } else {
      assert ls[i] == [ls[i][0]] + ls[i][1..];
      TimesAt(x, ls, i, ls[i][1..]);
    }
  }

  lemma MergeStep(all: seq<seq<Rec>>, ls: seq<seq<Rec>>, out: seq<Rec>, i: nat)
    requires Merging(all, ls, out) && i < |ls|
    requires forall k :: 0 <= k < |ls| ==> ls[i][0].time <= ls[k][0].time
    ensures Merging(all, Advanced(ls, i), out + [ls[i][0]])
  {
    var ls', out' := Advanced(ls, i), out + [ls[i][0]];
    forall x ensures multiset(out')[x] + Times(x, ls') == Times(x, all) {
      AdvancedTimes(x, ls, i);
      assert multiset(out)[x] + Times(x, ls) == Times(x, all);
    }
    if AllSorted(all) {
      StepSorted(ls, out, i);
    }
  }

  lemma StepSorted(ls: seq<seq<Rec>>, out: seq<Rec>, i: nat)
    requires AllSorted(ls) && Sorted(out) && i < |ls|
    requires forall k :: 0 <= k < |ls| ==> ls[k] != []
    requires forall p, k :: 0 <= p < |out| && 0 <= k < |ls| ==> out[p].time <= ls[k][0].time
    requires forall k :: 0 <= k < |ls| ==> ls[i][0].time <= ls[k][0].time
    ensures AllSorted(Advanced(ls, i)) && Sorted(out + [ls[i][0]])
    ensures forall p, k :: 0 <= p < |out + [ls[i][0]]| && 0 <= k < |Advanced(ls, i)| ==>
              Advanced(ls, i)[k] != [] && (out + [ls[i][0]])[p].time <= Advanced(ls, i)[k][0].time
  {
    var ls' := Advanced(ls, i);
    forall k | 0 <= k < |ls'| ensures Sorted(ls'[k]) && ls'[k] != [] && ls[i][0].time <= ls'[k][0].time {
      assert Sorted(ls[k]) && Sorted(ls[i]) && Sorted(ls[|ls| - 1]);
    }
    forall p, k | 0 <= p < |out| && 0 <= k < |ls'| ensures out[p].time <= ls'[k][0].time {
      assert out[p].time <= ls[i][0].time;
    }
  }

  // ---- Merging files ----

  predicate AllGood(cs: seq<Cursor>) { forall i :: 0 <= i < |cs| ==> Ahead(cs[i]).Some? }

  /** The lists are what the cursors have yet to write. */
  predicate Agree(cs: seq<Cursor>, ls: seq<seq<Rec>>)
  {
    |ls| == |cs| && forall i :: 0 <= i < |cs| ==> Ahead(cs[i]) == Some(ls[i])
  }

  function Lists(cs: seq<Cursor>): (ls: seq<seq<Rec>>)
    requires AllGood(cs)
    ensures Agree(cs, ls)
  {
    seq(|cs|, i requires 0 <= i < |cs| => Ahead(cs[i]).value)
  }

  // ---- Where a merge stops ----

  /** Writing a cursor's record and reading on runs into a bad file. */
  predicate Fails(c: Cursor)
  {
    c.t.pdu > Available(c.stream) || AfterRead(Discarded(c)).1.Failed?
  }

  /** What the turn of a cursor that fails leaves in `ret`: the bytes of data it could discard, or -1. */
  function TurnRet(c: Cursor): int { if c.t.pdu > Available(c.stream) then Available(c.stream) else -1 }

  /** The flaw of what a cursor has ahead. */
  function FlawAhead(c: Cursor): Flaw
  {
    if c.t.pdu > Available(c.stream) then DataFlaw(c.stream) else FlawOf(c.stream[c.t.pdu..], c.swap)
  }

  /** The time of the record at which a cursor will fail, if it does. */
  function FailTime(c: Cursor): nat
    decreases |c.stream|
  {
    if Fails(c) then c.t.time
    else
      var (d, status) := AfterRead(Discarded(c));
      if status.Found? then FailTime(d) else 0
  }

  /** The records ahead come in order of time, as far as they can be read. */
  predicate Rising(c: Cursor)
    decreases |c.stream|
  {
    Fails(c) ||
    var (d, status) := AfterRead(Discarded(c));
    status.Found? ==> c.t.time <= d.t.time && Rising(d)
  }

  /** A turn that fails shows the flaw of its file; one that does not leaves it to later turns. */
  lemma TurnFlaw(c: Cursor)
    ensures Fails(c) ==> !FlawAhead(c).Sound? && (TurnRet(c) == 0 <==> FlawAhead(c).Cut?)
    ensures !Fails(c) ==>
              var (d, status) := AfterRead(Discarded(c));
              && (status.Ended? ==> FlawAhead(c).Sound?)
              && (status.Found? ==> FlawAhead(d) == FlawAhead(c) && FailTime(d) == FailTime(c) && (Rising(c) ==> Rising(d)))
  {
    if c.t.pdu <= Available(c.stream) {
      FlawNext(c.stream[c.t.pdu..], c.swap, c.t);
    }
  }

  lemma SoundIffAhead(c: Cursor)
    ensures FlawAhead(c).Sound? <==> Ahead(c).Some?
  {
    if c.t.pdu <= Available(c.stream) {
      SoundIffRecords(c.stream[c.t.pdu..], c.swap);
    }
  }

  /** A cursor with a flaw ahead fails no earlier than its present record. */
  lemma {:induction false} FailsLater(c: Cursor)
    requires !FlawAhead(c).Sound? && Rising(c)
    ensures c.t.time <= FailTime(c)
    decreases |c.stream|
  {
    TurnFlaw(c);
    if !Fails(c) {
      FailsLater(AfterRead(Discarded(c)).0);
    }
  }

  predicate AllRising(cs: seq<Cursor>) { forall i :: 0 <= i < |cs| ==> Rising(cs[i]) }

  /** How and when a file will stop the merge. */
  datatype Mark = Mark(flaw: Flaw, time: nat)

  function MarkOf(c: Cursor): Mark { Mark(FlawAhead(c), FailTime(c)) }

  function Marks(cs: seq<Cursor>): (ms: seq<Mark>)
    ensures |ms| == |cs| && forall i :: 0 <= i < |cs| ==> ms[i] == MarkOf(cs[i])
  {
    seq(|cs|, i requires 0 <= i < |cs| => MarkOf(cs[i]))
  }

  /** Mark j is mark from[j] of the files; no mark with a flaw has gone. */
  predicate Origin(all: seq<Mark>, ms: seq<Mark>, from: seq<nat>)
  {
    && |from| == |ms|
    && (forall j :: 0 <= j < |ms| ==> from[j] < |all| && ms[j] == all[from[j]])
    && (forall p :: 0 <= p < |all| && !all[p].flaw.Sound? ==> p in from)
  }

  lemma OriginFinish(all: seq<Mark>, ms: seq<Mark>, from: seq<nat>, i: nat)
    requires Origin(all, ms, from) && i < |ms| && ms[i].flaw.Sound?
    ensures Origin(all, Dropped(ms, i), Dropped(from, i))
  {
    forall p | 0 <= p < |all| && !all[p].flaw.Sound? ensures p in Dropped(from, i) {
      var j :| 0 <= j < |from| && from[j] == p;
      DroppedHas(from, i, j);
    }
  }

  lemma DroppedHas(from: seq<nat>, i: nat, j: nat)
    requires i < |from| && j < |from| && i != j
    ensures from[j] in Dropped(from, i)
  {
    assert Dropped(from, i)[if j == |from| - 1 then i else j] == from[j];
  }

  /** The merge stopped, with this `ret`, for the flaw of file p; if the records of every file come in order
      of time, no flaw would have shown earlier. */
  predicate StoppedAt(all: seq<Cursor>, p: nat, ret: int)
  {
    && p < |all| && !FlawAhead(all[p]).Sound? && (ret == 0 <==> FlawAhead(all[p]).Cut?)
    && (AllRising(all) ==> forall q :: 0 <= q < |all| && !FlawAhead(all[q]).Sound? ==> FailTime(all[p]) <= FailTime(all[q]))
  }

  ghost predicate Stopped(all: seq<Cursor>, ret: int) { exists p: nat :: StoppedAt(all, p, ret) }

  /** What is left of the files, as far as their flaws go. */
  predicate Remains(all: seq<Cursor>, cs: seq<Cursor>, from: seq<nat>)
  {
    Origin(Marks(all), Marks(cs), from) && (AllRising(all) ==> AllRising(cs))
  }

  lemma StopsHere(all: seq<Cursor>, cs: seq<Cursor>, from: seq<nat>, i: nat)
    requires Remains(all, cs, from) && i < |cs| && Fails(cs[i])
    requires forall k :: 0 <= k < |cs| ==> cs[i].t.time <= cs[k].t.time
    ensures Stopped(all, TurnRet(cs[i]))
  {
    TurnFlaw(cs[i]);
    assert Marks(cs)[i] == Marks(all)[from[i]];
    if AllRising(all) {
      forall q | 0 <= q < |all| && !FlawAhead(all[q]).Sound? ensures FailTime(all[from[i]]) <= FailTime(all[q]) {
        assert !Marks(all)[q].flaw.Sound?;
        var j :| 0 <= j < |from| && from[j] == q;
        assert Marks(cs)[j] == Marks(all)[q];
        FailsLater(cs[j]);
      }
    }
    assert StoppedAt(all, from[i], TurnRet(cs[i]));
  }

  lemma RisingDropped(cs: seq<Cursor>, i: nat)
    requires AllRising(cs) && i < |cs|
    ensures AllRising(Dropped(cs, i))
  {
    forall j | 0 <= j < |cs| - 1 ensures Rising(Dropped(cs, i)[j]) {
      assert Rising(cs[if j == i then |cs| - 1 else j]);
    }
  }

  // ---- The cursors in the heap ----

  /** The objects behind a cursor are among `files`. */
  ghost predicate Within(f: FileCursor, files: set<object>)
  {
    f.reader in files && f.reader.fifo in files && f.reader.fifo.buffer in files
  }

  /** Two cursors have no object in common. */
  ghost predicate Apart(f: FileCursor, g: FileCursor)
  {
    f.reader != g.reader && f.reader.fifo != g.reader.fifo && f.reader.fifo.buffer != g.reader.fifo.buffer
  }

  /** Cursor f is readable, has its objects among `files` and stands for c. */
  ghost predicate Backs(f: FileCursor, c: Cursor, files: set<object>)
    reads files
  {
    Within(f, files) && f.reader.Ok() && View(f) == c
  }

  /** The first cursors of the array stand for cs, and no two share a file. */
  ghost predicate Ready(bcs: array<FileCursor>, cs: seq<Cursor>, files: set<object>)
    reads bcs, files
  {
    && |cs| <= bcs.Length && bcs !in files
    && (forall i :: 0 <= i < |cs| ==> Backs(bcs[i], cs[i], files))
    && (forall i, j :: 0 <= i < j < |cs| ==> Apart(bcs[i], bcs[j]))
  }

  /** find_earliest_io: the first cursor whose record no other precedes. */
  method FindEarliest(bcs: array<FileCursor>, nr: nat) returns (idx: nat)
    requires 0 < nr <= bcs.Length && forall i :: 0 <= i < nr ==> bcs[i].t.time < TWO64
    ensures idx < nr
    ensures forall i :: 0 <= i < nr ==> bcs[idx].t.time <= bcs[i].t.time
    ensures forall i :: 0 <= i < idx ==> bcs[idx].t.time < bcs[i].t.time
  {
    var time := TWO64 - 1;
    idx := 0;
    for i := 0 to nr
      invariant idx < nr
      invariant forall k :: 0 <= k < i ==> time <= bcs[k].t.time
      invariant bcs[idx].t.time == time || (time == TWO64 - 1 && idx == 0)
      invariant forall k :: 0 <= k < idx ==> time < bcs[k].t.time
    {
      if bcs[i].t.time < time {
        time := bcs[i].t.time;
        idx := i;
      }
    }
  }

  function Unread(n: nat, c: Cursor): nat { |c.stream| + 1 }

  predicate StepFails(cs: seq<Cursor>, i: nat)
    requires i < |cs|
  {
    Fails(cs[i])
  }

  /** The cursors after the record of cursor i has been written. */
  function AfterStep(cs: seq<Cursor>, i: nat): seq<Cursor>
    requires i < |cs| && !StepFails(cs, i)
  {
    var (d, status) := AfterRead(Discarded(cs[i]));
    if status.Found? then cs[i := d] else Dropped(cs, i)
  }

  /** discard_pdu, write_trace and read_trace for cursor f, with the value they leave in `ret`. */
  method WriteAndRead(f: FileCursor) returns (f': FileCursor, status: Status, ret: int)
    requires f.reader.Ok()
    modifies f.reader, f.reader.fifo, f.reader.fifo.buffer
    ensures f'.reader == f.reader && f.reader.Ok()
    ensures status.Failed? <==> Fails(old(View(f)))
    ensures status.Failed? ==> ret == TurnRet(old(View(f)))
    ensures !status.Failed? ==> (View(f'), status) == AfterRead(Discarded(old(View(f))))
  {
    var discarded, _ := f.reader.Get(f.t.pdu, false);
    if discarded != f.t.pdu {
      return f, Failed, discarded;
    }
    f', status := ReadTrace(f);
    ret := ReadRet(status);
  }

  /** Cursor i is read on, and stored back. */
  method StoreBack(bcs: array<FileCursor>, i: nat, f: FileCursor, ghost cs: seq<Cursor>, ghost c: Cursor, ghost files: set<object>)
    requires i < |cs| <= bcs.Length && bcs !in files
    requires forall k :: 0 <= k < |cs| && k != i ==> Backs(bcs[k], cs[k], files)
    requires forall j, k :: 0 <= j < k < |cs| ==> Apart(bcs[j], bcs[k])
    requires Backs(f, c, files) && f.reader == bcs[i].reader
    modifies bcs
    ensures Ready(bcs, cs[i := c], files)
  {
    bcs[i] := f;
  }

  /** The same in place, for cursor i. */
  method Advance(bcs: array<FileCursor>, i: nat, ghost cs: seq<Cursor>, ghost files: set<object>)
    returns (status: Status, ret: int)
    requires i < |cs| && Ready(bcs, cs, files)
    modifies bcs, files
    ensures status.Failed? <==> Fails(cs[i])
    ensures status.Failed? ==> ret == TurnRet(cs[i])
    ensures !status.Failed? ==>
              && status == AfterRead(Discarded(cs[i])).1
              && Ready(bcs, cs[i := AfterRead(Discarded(cs[i])).0], files)
  {
    assert Backs(bcs[i], cs[i], files);
    var f;
    f, status, ret := WriteAndRead(bcs[i]);
    forall k | 0 <= k < |cs| && k != i ensures Backs(bcs[k], cs[k], files) {
      assert old(Backs(bcs[k], cs[k], files));
      assert if k < i then Apart(bcs[k], bcs[i]) else Apart(bcs[i], bcs[k]);
    }
    if !status.Failed? {
      StoreBack(bcs, i, f, cs, AfterRead(Discarded(cs[i])).0, files);
    }
  }

  /** merge_finish_file, on the last pass: the last cursor takes the place of cursor i. */
  method FinishFile(bcs: array<FileCursor>, i: nat, ghost cs: seq<Cursor>, ghost files: set<object>, nr: nat)
    requires i < nr == |cs| && Ready(bcs, cs, files)
    modifies bcs
    ensures Ready(bcs, Dropped(cs, i), files)
  {
    bcs[i] := bcs[nr - 1];
    forall k | 0 <= k < nr - 1 ensures Backs(bcs[k], Dropped(cs, i)[k], files) {
      assert old(Backs(bcs[if k == i then nr - 1 else k], cs[if k == i then nr - 1 else k], files));
    }
  }

  /** One turn for cursor i: its record is written, and it reads on or is overwritten by the last one. */
  method Step(bcs: array<FileCursor>, nr: nat, i: nat, ghost cs: seq<Cursor>, ghost files: set<object>)
    returns (ok: bool, left: nat, ret: int)
    requires i < nr == |cs| && Ready(bcs, cs, files)
    modifies bcs, files
    ensures ok <==> !StepFails(cs, i)
    ensures !ok ==> ret == TurnRet(cs[i])
    ensures ok ==> left == |AfterStep(cs, i)| && Ready(bcs, AfterStep(cs, i), files)
  {
    left := nr;
    var status;
    status, ret := Advance(bcs, i, cs, files);
    ok := !status.Failed?;
    if status.Ended? {
      left := nr - 1;
      DroppedAnyway(cs, i, AfterRead(Discarded(cs[i])).0);
      FinishFile(bcs, i, cs[i := AfterRead(Discarded(cs[i])).0], files, nr);
    }
  }

  lemma DroppedAnyway(cs: seq<Cursor>, i: nat, c: Cursor)
    requires i < |cs|
    ensures Dropped(cs[i := c], i) == Dropped(cs, i)
  {
  }

  /** One turn of the merge loop, for a cursor whose record no other precedes. */
  method Turn(bcs: array<FileCursor>, nr: nat, ghost cs: seq<Cursor>, ghost files: set<object>)
    returns (ok: bool, left: nat, ret: int, t: Rec, ghost i: nat)
    requires 0 < nr == |cs| && Ready(bcs, cs, files) && Timely(cs)
    modifies bcs, files
    ensures i < |cs| && t == cs[i].t && forall k :: 0 <= k < |cs| ==> cs[i].t.time <= cs[k].t.time
    ensures forall k :: 0 <= k < i ==> cs[i].t.time < cs[k].t.time
    ensures ok <==> !StepFails(cs, i)
    ensures !ok ==> ret == TurnRet(cs[i])
    ensures ok ==> left == |AfterStep(cs, i)| && Ready(bcs, AfterStep(cs, i), files)
  {
    assert forall k :: 0 <= k < nr ==> Backs(bcs[k], cs[k], files) && cs[k].t == bcs[k].t;
    var idx := FindEarliest(bcs, nr);
    i, t := idx, bcs[idx].t;
    ok, left, ret := Step(bcs, nr, idx, cs, files);
  }

  /** The merge loop, for one pass over each file. The merged trace is adopted exactly when every file is
      good; it then holds every record that counts as often as it occurs, in order of time if each
      file's records are. Otherwise `ret` tells of the flaw that showed first. */
  method Merge(bcs: array<FileCursor>, count: nat, ghost all: seq<Cursor>, ghost files: set<object>)
    returns (adopted: bool, ret: int, out: seq<Rec>)
    requires count == |all| && Ready(bcs, all, files) && Timely(all)
    modifies bcs, files
    ensures adopted <==> AllGood(all)
    ensures adopted ==> ret == 0 && forall x :: multiset(out)[x] == Times(x, Lists(all))
    ensures adopted && AllSorted(Lists(all)) ==> Sorted(out)
    ensures !adopted ==> Stopped(all, ret)
  {
    ghost var cs := all;
    ghost var ls, from := Begins(all);
    var nr: nat := count;
    out := [];
    while nr > 0
      invariant nr == |cs| && Ready(bcs, cs, files)
      invariant Underway(all, cs, ls, from, out)
      decreases Total(Unread, 0, cs)
    {
      var ok, t;
      ghost var i;
      ok, nr, ret, t, i := Turn(bcs, nr, cs, files);
      if !ok {
        StopsBad(all, cs, ls, from, out, i);
        return false, ret, out;
      }
      ls, from := GoesOn(all, cs, ls, from, out, i);
      cs := AfterStep(cs, i);
      out := out + [Clean(t)];
    }
    Done(all, ls, out);
    return true, 0, out;
  }

  lemma FoundRemains(all: seq<Cursor>, cs: seq<Cursor>, from: seq<nat>, i: nat, d: Cursor)
    requires Remains(all, cs, from) && i < |cs| && MarkOf(d) == MarkOf(cs[i]) && (Rising(cs[i]) ==> Rising(d))
    ensures Remains(all, cs[i := d], from)
  {
    assert Marks(cs[i := d]) == Marks(cs);
  }

  lemma MarksDropped(cs: seq<Cursor>, i: nat)
    requires i < |cs|
    ensures Marks(Dropped(cs, i)) == Dropped(Marks(cs), i)
  {
    forall j | 0 <= j < |cs| - 1 ensures Marks(Dropped(cs, i))[j] == Dropped(Marks(cs), i)[j] {
      assert Dropped(cs, i)[j] == if j == i then cs[|cs| - 1] else cs[j];
    }
  }

  lemma EndedRemains(all: seq<Cursor>, cs: seq<Cursor>, from: seq<nat>, i: nat)
    requires Remains(all, cs, from) && i < |cs| && MarkOf(cs[i]).flaw.Sound?
    ensures Remains(all, Dropped(cs, i), Dropped(from, i))
  {
    MarksDropped(cs, i);
    OriginFinish(Marks(all), Marks(cs), from, i);
    if AllRising(cs) {
      RisingDropped(cs, i);
    }
  }

  lemma StepRemains(all: seq<Cursor>, cs: seq<Cursor>, from: seq<nat>, i: nat) returns (from': seq<nat>)
    requires Remains(all, cs, from) && i < |cs| && !StepFails(cs, i)
    ensures Remains(all, AfterStep(cs, i), from')
  {
    var (d, status) := AfterRead(Discarded(cs[i]));
    TurnFlaw(cs[i]);
    from' := from;
    if status.Found? {
      FoundRemains(all, cs, from, i, d);
    } else {
      from' := Dropped(from, i);
      EndedRemains(all, cs, from, i);
    }
  }

  /** Where the merge is: what is written, what is left of the lists, and what is left of the flaws. */
  ghost predicate Underway(all: seq<Cursor>, cs: seq<Cursor>, ls: seq<seq<Rec>>, from: seq<nat>, out: seq<Rec>)
  {
    Progress(all, cs, ls, out) && Remains(all, cs, from)
  }

  lemma Begins(all: seq<Cursor>) returns (ls: seq<seq<Rec>>, from: seq<nat>)
    requires Timely(all)
    ensures Underway(all, all, ls, from, [])
  {
    ls := if AllGood(all) then Lists(all) else [];
    from := seq(|all|, i requires 0 <= i < |all| => i);
    Starts(all, ls);
    assert forall p :: 0 <= p < |all| ==> from[p] == p;
  }

  lemma GoesOn(all: seq<Cursor>, cs: seq<Cursor>, ls: seq<seq<Rec>>, from: seq<nat>, out: seq<Rec>, i: nat)
    returns (ls': seq<seq<Rec>>, from': seq<nat>)
    requires Underway(all, cs, ls, from, out) && i < |cs| && !StepFails(cs, i)
    requires forall k :: 0 <= k < |cs| ==> cs[i].t.time <= cs[k].t.time
    ensures Underway(all, AfterStep(cs, i), ls', from', out + [Clean(cs[i].t)])
    ensures Total(Unread, 0, AfterStep(cs, i)) < Total(Unread, 0, cs)
  {
    ls' := StepProgress(all, cs, ls, out, i);
    from' := StepRemains(all, cs, from, i);
  }

  lemma StopsBad(all: seq<Cursor>, cs: seq<Cursor>, ls: seq<seq<Rec>>, from: seq<nat>, out: seq<Rec>, i: nat)
    requires Underway(all, cs, ls, from, out) && i < |cs| && StepFails(cs, i)
    requires forall k :: 0 <= k < |cs| ==> cs[i].t.time <= cs[k].t.time
    ensures !AllGood(all) && Stopped(all, TurnRet(cs[i]))
  {
    StepGood(cs, i);
    StopsHere(all, cs, from, i);
  }

  /** How far the merge has come: the lists are what is left of the good files. */
  ghost predicate Progress(all: seq<Cursor>, cs: seq<Cursor>, ls: seq<seq<Rec>>, out: seq<Rec>)
  {
    && Timely(cs)
    && (AllGood(all) <==> AllGood(cs))
    && (AllGood(all) ==> Agree(cs, ls) && Merging(Lists(all), ls, out))
  }

  lemma Done(all: seq<Cursor>, ls: seq<seq<Rec>>, out: seq<Rec>)
    requires Progress(all, [], ls, out)
    ensures AllGood(all)
    ensures forall x :: multiset(out)[x] == Times(x, Lists(all))
    ensures AllSorted(Lists(all)) ==> Sorted(out)
  {
    assert ls == [];
    forall x ensures multiset(out)[x] == Times(x, Lists(all)) {
      assert multiset(out)[x] + Times(x, ls) == Times(x, Lists(all));
    }
  }

  lemma StepProgress(all: seq<Cursor>, cs: seq<Cursor>, ls: seq<seq<Rec>>, out: seq<Rec>, i: nat)
    returns (ls': seq<seq<Rec>>)
    requires Progress(all, cs, ls, out) && i < |cs| && !StepFails(cs, i)
    requires forall k :: 0 <= k < |cs| ==> cs[i].t.time <= cs[k].t.time
    ensures Progress(all, AfterStep(cs, i), ls', out + [Clean(cs[i].t)])
    ensures Total(Unread, 0, AfterStep(cs, i)) < Total(Unread, 0, cs)
  {
    StepGood(cs, i);
    StepReads(cs, i);
    ls' := ls;
    if AllGood(all) {
      StepLists(Lists(all), cs, ls, out, i);
      ls' := Advanced(ls, i);
    }
  }

  predicate Timely(cs: seq<Cursor>) { forall i :: 0 <= i < |cs| ==> cs[i].t.time < TWO64 }

  lemma Starts(cs: seq<Cursor>, ls: seq<seq<Rec>>)
    requires Timely(cs) && (AllGood(cs) ==> ls == Lists(cs))
    ensures Progress(cs, cs, ls, [])
  {
    if AllGood(cs) {
      forall i | 0 <= i < |cs| ensures ls[i] != [] {
        assert Ahead(cs[i]) == Some(ls[i]);
      }
    }
  }

  lemma StepGood(cs: seq<Cursor>, i: nat)
    requires i < |cs|
    ensures StepFails(cs, i) ==> !AllGood(cs)
    ensures !StepFails(cs, i) ==> (AllGood(cs) <==> AllGood(AfterStep(cs, i)))
  {
    if cs[i].t.pdu <= Available(cs[i].stream) {
      ReadOn(cs[i]);
      var (d, status) := AfterRead(Discarded(cs[i]));
      if status.Found? {
        ForwardGood(cs, i, d);
      } else if status.Ended? {
        FinishGood(cs, i);
      }
    } else {
      assert Ahead(cs[i]).None?;
    }
  }

  lemma StepReads(cs: seq<Cursor>, i: nat)
    requires i < |cs| && !StepFails(cs, i) && Timely(cs)
    ensures Timely(AfterStep(cs, i))
    ensures Total(Unread, 0, AfterStep(cs, i)) < Total(Unread, 0, cs)
  {
    var (d, status) := AfterRead(Discarded(cs[i]));
    if status.Found? {
      TailNext(cs[i]);
      TotalAt(Unread, 0, cs, i, d);
    } else {
      DroppedUnread(cs, i);
    }
  }

  lemma DroppedUnread(cs: seq<Cursor>, i: nat)
    requires i < |cs| && Timely(cs)
    ensures Timely(Dropped(cs, i))
    ensures Total(Unread, 0, Dropped(cs, i)) < Total(Unread, 0, cs)
  {
    TotalDropped(Unread, 0, cs, i);
    TimelyDropped(cs, i);
  }

  lemma TimelyDropped(cs: seq<Cursor>, i: nat)
    requires i < |cs| && Timely(cs)
    ensures Timely(Dropped(cs, i))
  {
  }

  lemma TotalDropped<T>(f: (nat, T) -> nat, n: nat, s: seq<T>, i: nat)
    requires i < |s|
    ensures Total(f, n, Dropped(s, i)) + f(n, s[i]) == Total(f, n, s)
  {
    var last := s[|s| - 1];
    var moved := s[i := last];
    TotalAt(f, n, s, i, last);
    assert moved[|s| - 1] == last && moved[..|s| - 1] == Dropped(s, i);
  }

  lemma StepLists(whole: seq<seq<Rec>>, cs: seq<Cursor>, ls: seq<seq<Rec>>, out: seq<Rec>, i: nat)
    requires i < |cs| && !StepFails(cs, i) && Agree(cs, ls) && Merging(whole, ls, out)
    requires forall k :: 0 <= k < |cs| ==> cs[i].t.time <= cs[k].t.time
    ensures ls[i] != [] && Agree(AfterStep(cs, i), Advanced(ls, i))
    ensures Merging(whole, Advanced(ls, i), out + [Clean(cs[i].t)])
  {
    HeadsFirst(cs, ls, i);
    MergeStep(whole, ls, out, i);
    ReadOn(cs[i]);
    var (d, status) := AfterRead(Discarded(cs[i]));
    if status.Found? {
      ForwardLists(cs, ls, i, d);
    } else {
      FinishLists(cs, ls, i);
    }
  }

  lemma HeadsFirst(cs: seq<Cursor>, ls: seq<seq<Rec>>, i: nat)
    requires Agree(cs, ls) && i < |cs| && forall k :: 0 <= k < |cs| ==> cs[i].t.time <= cs[k].t.time
    ensures ls[i] != [] && ls[i][0] == Clean(cs[i].t)
    ensures forall k :: 0 <= k < |ls| ==> ls[k] != [] && ls[i][0].time <= ls[k][0].time
  {
    forall k | 0 <= k < |ls| ensures ls[k] != [] && ls[k][0] == Clean(cs[k].t) {
      assert Ahead(cs[k]) == Some(ls[k]);
    }
  }

  lemma ForwardGood(cs: seq<Cursor>, i: nat, d: Cursor)
    requires i < |cs| && (Ahead(cs[i]).Some? <==> Ahead(d).Some?)
    ensures AllGood(cs) <==> AllGood(cs[i := d])
  {
    if AllGood(cs[i := d]) {
      forall k | 0 <= k < |cs| ensures Ahead(cs[k]).Some? {
        assert Ahead(cs[i := d][k]).Some?;
      }
    }
  }

  lemma FinishGood(cs: seq<Cursor>, i: nat)
    requires i < |cs| && Ahead(cs[i]).Some?
    ensures AllGood(cs) <==> AllGood(Dropped(cs, i))
  {
    var last := |cs| - 1;
    if AllGood(Dropped(cs, i)) {
      forall k | 0 <= k < |cs| ensures Ahead(cs[k]).Some? {
        if k != i && i != last {
          assert Ahead(Dropped(cs, i)[if k == last then i else k]).Some?;
        } else if k != i {
          assert Ahead(Dropped(cs, i)[k]).Some?;
        }
      }
    }
  }

  lemma ForwardLists(cs: seq<Cursor>, ls: seq<seq<Rec>>, i: nat, d: Cursor)
    requires Agree(cs, ls) && i < |cs| && Ahead(d).Some?
    requires Ahead(cs[i]).value == [Clean(cs[i].t)] + Ahead(d).value
    ensures Agree(cs[i := d], Advanced(ls, i))
  {
    assert ls[i][1..] == Ahead(d).value;
  }

  lemma FinishLists(cs: seq<Cursor>, ls: seq<seq<Rec>>, i: nat)
    requires Agree(cs, ls) && i < |cs| && Ahead(cs[i]) == Some([Clean(cs[i].t)])
    ensures Agree(Dropped(cs, i), Advanced(ls, i))
  {
  }
}
