/**
 From the bytes of the files to the merged trace, and to what the merge returns.
 */
module TraceResult {
  import opened Options
  import opened Bits
  import opened TraceFile
  import opened TraceMerge
  import opened TraceOpen
  import opened TraceScalars
  import opened TraceOutput

  // ---- Induction over the open loop ----

  /** What the open loop returns for a file that does not open; `ret` is what was there before. */
  function Unopened(f: File, ret: int): Outcome { Refused(if IsTrace(f) then -1 else ret) }

  /** P holds of no files, of a first file that does not open, and, if it holds of the files after the first,
      also with a first file that gets a cursor or gives its slot up. */
  ghost predicate Inductive(P: (seq<File>, int, Outcome) -> bool)
  {
    && (forall ret :: P([], ret, Opened([])))
    && (forall f: File, rest: seq<File>, ret: int :: !Readable(f) ==> P([f] + rest, ret, Unopened(f, ret)))
    && (forall f: File, rest: seq<File>, ret: int, scalar: nat, slot: Slot, more: Outcome ::
          Counts(f) && P(rest, HEADER, more) ==> P([f] + rest, ret, Appended([AfterRead(InSlot(f, scalar, slot)).0], more)))
    && (forall f: File, rest: seq<File>, ret: int, more: Outcome ::
          Readable(f) && !Counts(f) && P(rest, 0, more) ==> P([f] + rest, ret, more))
  }

  lemma {:induction false} OpensBy(P: (seq<File>, int, Outcome) -> bool, files: seq<File>, scalars: seq<nat>, i: nat,
                                   slot: Slot, ret: int)
    requires Inductive(P) && i + |files| <= |scalars|
    ensures P(files, ret, OpenFrom(files, scalars, i, slot, ret))
    decreases |files|
  {
    if files != [] {
      var f, rest := files[0], files[1..];
      OpenStep(files, scalars, i, slot, ret);
      assert files == [f] + rest;
      if Counts(f) {
        OpensBy(P, rest, scalars, i + 1, Zeroed(), HEADER);
      } else if Readable(f) {
        OpensBy(P, rest, scalars, i, SlotLeft(f, scalars[i], slot), 0);
      } else {
        assert P([f] + rest, ret, Unopened(f, ret));
      }
    }
  }

  // ---- What the files hold ----

  /** A file's records that count, with their times scaled, as they are to be written. */
  function Timed(f: File, scalar: nat): Option<seq<Rec>>
  {
    match Records(f.bytes, Swap(f))
    case None => None
    case Some(rs) => Some(Cleaned(InSlot(f, scalar, Zeroed()), rs))
  }

  /** A file opened in a clean slot has all of its records ahead. */
  lemma FileAhead(f: File, scalar: nat)
    requires Counts(f)
    ensures Ahead(AfterRead(InSlot(f, scalar, Zeroed())).0) == Timed(f, scalar)
  {
    var c := InSlot(f, scalar, Zeroed());
    var d := AfterRead(c).0;
    RecordsNext(f.bytes, Swap(f), Blank());
    var g := NextRecord(f.bytes, Swap(f), Blank());
    if Tail(d).Some? {
      SameTiming(c, d, Tail(d).value);
      assert ([g.rec] + Tail(d).value)[1..] == Tail(d).value;
    }
  }

  /** A trace that can be read to its end. */
  predicate Good(f: File) { IsTrace(f) && Records(f.bytes, Swap(f)).Some? }

  /** The lists to merge: the timed records of each file that has some. */
  function Wanted(files: seq<File>, scalars: seq<nat>, i: nat): seq<seq<Rec>>
    requires i + |files| <= |scalars| && forall p :: 0 <= p < |files| ==> Good(files[p])
    decreases |files|
  {
    if files == [] then []
    else if Counts(files[0]) then assert Good(files[0]); [Timed(files[0], scalars[i]).value] + Wanted(files[1..], scalars, i + 1)
    else Wanted(files[1..], scalars, i + 1)
  }

  lemma AgreeFirst(c: Cursor, l: seq<Rec>, cs: seq<Cursor>, ls: seq<seq<Rec>>)
    requires Agree(cs, ls) && Timely(cs) && Ahead(c) == Some(l) && c.t.time < TWO64
    ensures Agree([c] + cs, [l] + ls) && Timely([c] + cs)
  {
  }

  lemma {:induction false} MeantAgrees(files: seq<File>, scalars: seq<nat>, i: nat)
    requires i + |files| <= |scalars| && forall p :: 0 <= p < |files| ==> Good(files[p])
    ensures Agree(Meant(files, scalars, i), Wanted(files, scalars, i))
    ensures Timely(Meant(files, scalars, i))
    decreases |files|
  {
    if files != [] {
      MeantAgrees(files[1..], scalars, i + 1);
      if Counts(files[0]) {
        assert Good(files[0]);
        FileAhead(files[0], scalars[i]);
        AgreeFirst(AfterRead(InSlot(files[0], scalars[i], Zeroed())).0, Timed(files[0], scalars[i]).value,
                   Meant(files[1..], scalars, i + 1), Wanted(files[1..], scalars, i + 1));
      }
    }
  }

  lemma GoodIsReadable(f: File)
    requires Good(f)
    ensures Readable(f)
  {
    RecordsNext(f.bytes, Swap(f), Blank());
  }

  lemma AgreeOnce(cs: seq<Cursor>, a: seq<seq<Rec>>, b: seq<seq<Rec>>)
    requires Agree(cs, a) && Agree(cs, b)
    ensures a == b
  {
    assert forall i :: 0 <= i < |cs| ==> Some(a[i]) == Ahead(cs[i]) == Some(b[i]);
  }

  /** Scaling keeps a file's records in order, as long as it does not leave 64 bits. */
  lemma ScalingKeepsOrder(f: File, scalar: nat)
    requires Good(f) && Sorted(Records(f.bytes, Swap(f)).value)
    requires forall r :: r in Records(f.bytes, Swap(f)).value ==> r.time < TWO64 && r.time * scalar < TWO64
    ensures Sorted(Timed(f, scalar).value)
  {
    var c := InSlot(f, scalar, Zeroed());
    var rs := Records(f.bytes, Swap(f)).value;
    forall i, j | 0 <= i < j < |rs| ensures Cleaned(c, rs)[i].time <= Cleaned(c, rs)[j].time {
      TimeOf(c, rs[i]);
      TimeOf(c, rs[j]);
      LeqMul(rs[i].time, rs[j].time, scalar);
      QuotientGrows(rs[i].time * scalar, rs[j].time * scalar, 100);
    }
  }

  lemma TimeOf(c: Cursor, r: Rec)
    requires c.iter == 0 && r.time < TWO64 && r.time * c.scalar < TWO64
    ensures Retimed(c, r).time == r.time * c.scalar / 100
  {
    NoTime(c.iter, c.length);
    SmallMod(r.time);
    SmallMod(r.time * c.scalar);
  }

  lemma NoTime(a: nat, b: nat)
    requires a == 0
    ensures a * b == 0
  {
  }

  lemma SmallMod(x: nat)
    requires x < TWO64
    ensures x % TWO64 == x
  {
  }

  /** A file opened in any slot has good records ahead exactly if the file is good. */
  lemma AheadIfGood(f: File, scalar: nat, slot: Slot)
    requires Counts(f)
    ensures Ahead(AfterRead(InSlot(f, scalar, slot)).0).Some? <==> Good(f)
  {
    LastUnseen(f.bytes, Swap(f), slot.t, Blank());
    RecordsNext(f.bytes, Swap(f), Blank());
  }

  lemma AllGoodFirst(c: Cursor, cs: seq<Cursor>)
    ensures AllGood([c] + cs) <==> Ahead(c).Some? && AllGood(cs)
  {
    if AllGood([c] + cs) {
      assert Ahead(([c] + cs)[0]).Some?;
      forall i | 0 <= i < |cs| ensures Ahead(cs[i]).Some? {
        assert ([c] + cs)[i + 1] == cs[i];
      }
    }
  }

  ghost predicate EachGood(files: seq<File>) { forall p :: 0 <= p < |files| ==> Good(files[p]) }

  lemma EachGoodFirst(files: seq<File>)
    requires files != []
    ensures EachGood(files) <==> Good(files[0]) && EachGood(files[1..])
  {
    if EachGood(files[1..]) && Good(files[0]) {
      forall p | 0 <= p < |files| ensures Good(files[p]) {
        if p > 0 {
          assert Good(files[1..][p - 1]);
        }
      }
    }
  }

  predicate OpensWell(r: Outcome) { r.Opened? && AllGood(r.cs) }

  lemma OpensWellFirst(c: Cursor, more: Outcome)
    ensures OpensWell(Appended([c], more)) <==> Ahead(c).Some? && OpensWell(more)
  {
    if more.Opened? {
      AllGoodFirst(c, more.cs);
    }
  }

  lemma CountsAndGood(f: File)
    ensures Good(f) ==> Readable(f)
    ensures Readable(f) && !Counts(f) ==> Good(f)
  {
    RecordsNext(f.bytes, Swap(f), Blank());
  }

  lemma GoodFirst(f: File, scalar: nat, slot: Slot, more: Outcome)
    requires Counts(f)
    ensures OpensWell(Appended([AfterRead(InSlot(f, scalar, slot)).0], more)) <==> Good(f) && OpensWell(more)
  {
    AheadIfGood(f, scalar, slot);
    OpensWellFirst(AfterRead(InSlot(f, scalar, slot)).0, more);
  }

  /** Opening and all that follows succeeds exactly for good files, whatever the slots they land in. */
  lemma OpenedGood(files: seq<File>, scalars: seq<nat>, i: nat, slot: Slot, ret: int)
    requires i + |files| <= |scalars|
    ensures OpensWell(OpenFrom(files, scalars, i, slot, ret)) <==> EachGood(files)
  {
    var P := (fs: seq<File>, _: int, r: Outcome) => OpensWell(r) <==> EachGood(fs);
    forall f: File, rest: seq<File> ensures EachGood([f] + rest) <==> Good(f) && EachGood(rest) {
      EachGoodFirst([f] + rest);
      assert ([f] + rest)[1..] == rest;
    }
    forall f ensures (Good(f) ==> Readable(f)) && (Readable(f) && !Counts(f) ==> Good(f)) {
      CountsAndGood(f);
    }
    forall f, scalar: nat, slot, more | Counts(f)
      ensures OpensWell(Appended([AfterRead(InSlot(f, scalar, slot)).0], more)) <==> Good(f) && OpensWell(more)
    {
      GoodFirst(f, scalar, slot, more);
    }
    OpensBy(P, files, scalars, i, slot, ret);
  }

  /** A file whose records are in order of time, and whose scaled times stay within 64 bits. */
  ghost predicate InOrder(f: File, scalar: nat)
  {
    && Good(f) && Sorted(Records(f.bytes, Swap(f)).value)
    && forall r :: r in Records(f.bytes, Swap(f)).value ==> r.time < TWO64 && r.time * scalar < TWO64
  }

  ghost predicate EachInOrder(files: seq<File>, scalars: seq<nat>)
    requires |files| == |scalars|
  {
    forall p :: 0 <= p < |files| ==> InOrder(files[p], scalars[p])
  }

  lemma InOrderFirst(files: seq<File>, scalars: seq<nat>, i: nat)
    requires files != [] && i + |files| <= |scalars| && EachGood(files) && EachInOrder(files, scalars[i..i + |files|])
    ensures InOrder(files[0], scalars[i])
    ensures EachGood(files[1..]) && EachInOrder(files[1..], scalars[i + 1..i + 1 + |files[1..]|])
  {
    var mine := scalars[i..i + |files|];
    assert InOrder(files[0], mine[0]);
    var rest := scalars[i + 1..i + 1 + |files[1..]|];
    EachGoodFirst(files);
    forall p | 0 <= p < |files[1..]| ensures InOrder(files[1..][p], rest[p]) {
      assert InOrder(files[p + 1], mine[p + 1]);
    }
  }

  lemma SortedFirst(l: seq<Rec>, ls: seq<seq<Rec>>)
    requires Sorted(l) && AllSorted(ls)
    ensures AllSorted([l] + ls)
  {
  }

  lemma {:induction false} WantedSorted(files: seq<File>, scalars: seq<nat>, i: nat)
    requires i + |files| <= |scalars| && EachGood(files) && EachInOrder(files, scalars[i..i + |files|])
    ensures AllSorted(Wanted(files, scalars, i))
    decreases |files|
  {
    if files != [] {
      InOrderFirst(files, scalars, i);
      EachGoodFirst(files);
      WantedSorted(files[1..], scalars, i + 1);
      ScalingKeepsOrder(files[0], scalars[i]);
      SortedFirst(Timed(files[0], scalars[i]).value, Wanted(files[1..], scalars, i + 1));
    }
  }

  predicate OpensTimely(r: Outcome) { r.Opened? ==> Timely(r.cs) }

  lemma TimelyFirst(c: Cursor, more: Outcome)
    requires c.t.time < TWO64 && OpensTimely(more)
    ensures OpensTimely(Appended([c], more))
  {
  }

  lemma OpenedTimely(files: seq<File>, scalars: seq<nat>, i: nat, slot: Slot, ret: int)
    requires i + |files| <= |scalars|
    ensures OpensTimely(OpenFrom(files, scalars, i, slot, ret))
  {
    forall f: File, scalar: nat, slot, more | Counts(f) && OpensTimely(more)
      ensures OpensTimely(Appended([AfterRead(InSlot(f, scalar, slot)).0], more))
    {
      CursorTimely(f, scalar, slot);
      TimelyFirst(AfterRead(InSlot(f, scalar, slot)).0, more);
    }
    OpensBy((_: seq<File>, _: int, r: Outcome) => OpensTimely(r), files, scalars, i, slot, ret);
  }

  lemma CursorTimely(f: File, scalar: nat, slot: Slot)
    requires Counts(f)
    ensures AfterRead(InSlot(f, scalar, slot)).0.t.time < TWO64
  {
    ReadSlot(f, scalar, slot);
  }

  predicate OpensRead(r: Outcome) { r.Opened? ==> AllRead(r.cs) }

  lemma ReadFirst(c: Cursor, more: Outcome)
    requires Recorded(c.t) && OpensRead(more)
    ensures OpensRead(Appended([c], more))
  {
  }

  lemma OpenedRead(files: seq<File>, scalars: seq<nat>, i: nat, slot: Slot, ret: int)
    requires i + |files| <= |scalars|
    ensures OpensRead(OpenFrom(files, scalars, i, slot, ret))
  {
    forall f: File, scalar: nat, slot, more | Counts(f) && OpensRead(more)
      ensures OpensRead(Appended([AfterRead(InSlot(f, scalar, slot)).0], more))
    {
      FirstIsRead(f, scalar, slot);
      ReadFirst(AfterRead(InSlot(f, scalar, slot)).0, more);
    }
    OpensBy((_: seq<File>, _: int, r: Outcome) => OpensRead(r), files, scalars, i, slot, ret);
  }

  lemma FirstIsRead(f: File, scalar: nat, slot: Slot)
    requires Counts(f)
    ensures Recorded(AfterRead(InSlot(f, scalar, slot)).0.t)
  {
    LastUnseen(f.bytes, Swap(f), slot.t, Blank());
    NextRecorded(f.bytes, Swap(f), slot.t);
  }

  lemma OpenedWanted(files: seq<File>, scalars: seq<nat>)
    requires |scalars| == |files| && EachGood(files) && NoGap(files)
    ensures OpenAll(files, scalars).Opened?
    ensures var cs := OpenAll(files, scalars).cs; AllGood(cs) && Lists(cs) == Wanted(files, scalars, 0)
  {
    forall p | 0 <= p < |files| ensures Readable(files[p]) {
      GoodIsReadable(files[p]);
    }
    OpensAsMeant(files, scalars, 0, 0);
    MeantAgrees(files, scalars, 0);
    var cs := Meant(files, scalars, 0);
    assert forall i :: 0 <= i < |cs| ==> Ahead(cs[i]) == Some(Wanted(files, scalars, 0)[i]);
    AgreeOnce(cs, Lists(cs), Wanted(files, scalars, 0));
  }

  // ---- What a merge that is not adopted returns ----

  /** File k is the first that does not open: no trace, or broken before its first record that counts. */
  predicate StopsOpening(files: seq<File>, k: nat)
  {
    k < |files| && !Readable(files[k]) && forall p :: 0 <= p < k ==> Readable(files[p])
  }

  /** It leaves -1 if it is a broken trace. If it is no trace it leaves what the file before it left: 48 after
      a file with a record that counts, and 0 after one without, or if it is the first. */
  function OpenRet(files: seq<File>, k: nat, ret: int): int
    requires k < |files|
  {
    if IsTrace(files[k]) then -1
    else if k == 0 then ret
    else if Counts(files[k - 1]) then HEADER
    else 0
  }

  lemma StopsNext(files: seq<File>, k: nat, ret: int)
    requires StopsOpening(files, k) && k > 0
    ensures Readable(files[0]) && StopsOpening(files[1..], k - 1)
    ensures OpenRet(files[1..], k - 1, if Counts(files[0]) then HEADER else 0) == OpenRet(files, k, ret)
  {
    var rest := files[1..];
    assert rest[k - 1] == files[k];
    assert forall p :: 0 <= p < k - 1 ==> rest[p] == files[p + 1];
  }

  /** What the open loop is to return, if it stops. */
  ghost predicate StopsWith(files: seq<File>, ret: int, r: Outcome)
  {
    forall k: nat :: StopsOpening(files, k) ==> r == Refused(OpenRet(files, k, ret))
  }

  lemma StopsFirst(f: File, rest: seq<File>, ret: int, more: Outcome)
    requires Readable(f) && StopsWith(rest, if Counts(f) then HEADER else 0, more)
    ensures StopsWith([f] + rest, ret, more)
    ensures more.Opened? ==> forall k: nat :: !StopsOpening([f] + rest, k)
  {
    var files := [f] + rest;
    assert files[1..] == rest;
    forall k: nat | StopsOpening(files, k) ensures more == Refused(OpenRet(files, k, ret)) {
      StopsNext(files, k, ret);
    }
  }

  lemma StopsAtFirst(f: File, rest: seq<File>, ret: int)
    requires !Readable(f)
    ensures StopsWith([f] + rest, ret, Unopened(f, ret))
  {
    assert ([f] + rest)[0] == f;
  }

  /** The first file that does not open decides what the open loop returns. */
  lemma OpeningStops(files: seq<File>, scalars: seq<nat>, i: nat, slot: Slot, ret: int, k: nat)
    requires i + |files| <= |scalars| && StopsOpening(files, k)
    ensures OpenFrom(files, scalars, i, slot, ret) == Refused(OpenRet(files, k, ret))
  {
    forall f: File, rest: seq<File>, ret | !Readable(f)
      ensures StopsWith([f] + rest, ret, Unopened(f, ret))
    {
      StopsAtFirst(f, rest, ret);
    }
    forall f: File, rest: seq<File>, ret, scalar: nat, slot, more | Counts(f) && StopsWith(rest, HEADER, more)
      ensures StopsWith([f] + rest, ret, Appended([AfterRead(InSlot(f, scalar, slot)).0], more))
    {
      StopsFirst(f, rest, ret, more);
    }
    forall f: File, rest: seq<File>, ret, more | Readable(f) && !Counts(f) && StopsWith(rest, 0, more)
      ensures StopsWith([f] + rest, ret, more)
    {
      StopsFirst(f, rest, ret, more);
    }
    OpensBy((fs: seq<File>, ret: int, r: Outcome) => StopsWith(fs, ret, r), files, scalars, i, slot, ret);
  }

  /** The flaw of a trace. */
  function FlawIn(f: File): Flaw { FlawOf(f.bytes, Swap(f)) }

  predicate SomeAhead(cs: seq<Cursor>, flaw: Flaw) { exists k :: 0 <= k < |cs| && FlawAhead(cs[k]) == flaw }

  predicate SomeFile(files: seq<File>, flaw: Flaw) { exists p :: 0 <= p < |files| && FlawIn(files[p]) == flaw }

  lemma FlawOpened(f: File, scalar: nat, slot: Slot)
    requires Counts(f)
    ensures FlawAhead(AfterRead(InSlot(f, scalar, slot)).0) == FlawIn(f)
  {
    FlawNext(f.bytes, Swap(f), slot.t);
    LastUnseen(f.bytes, Swap(f), slot.t, Blank());
  }

  lemma SomeAheadFirst(c: Cursor, cs: seq<Cursor>, flaw: Flaw)
    ensures SomeAhead([c] + cs, flaw) <==> FlawAhead(c) == flaw || SomeAhead(cs, flaw)
  {
    if SomeAhead(cs, flaw) {
      var k :| 0 <= k < |cs| && FlawAhead(cs[k]) == flaw;
      assert ([c] + cs)[k + 1] == cs[k];
    }
    if FlawAhead(c) == flaw {
      assert ([c] + cs)[0] == c;
    }
  }

  lemma SomeFileFirst(files: seq<File>, flaw: Flaw)
    requires files != []
    ensures SomeFile(files, flaw) <==> FlawIn(files[0]) == flaw || SomeFile(files[1..], flaw)
  {
    if SomeFile(files[1..], flaw) {
      var p :| 0 <= p < |files[1..]| && FlawIn(files[1..][p]) == flaw;
      assert files[p + 1] == files[1..][p];
    }
    if SomeFile(files, flaw) {
      var p :| 0 <= p < |files| && FlawIn(files[p]) == flaw;
      assert p > 0 ==> files[1..][p - 1] == files[p];
    }
  }

  /** The cursors that open have the flaws of the files. */
  ghost predicate SameFlaws(files: seq<File>, r: Outcome, flaw: Flaw)
  {
    r.Opened? ==> (SomeAhead(r.cs, flaw) <==> SomeFile(files, flaw))
  }

  lemma FlawsFirst(f: File, rest: seq<File>, scalar: nat, slot: Slot, more: Outcome, flaw: Flaw)
    requires Counts(f) && SameFlaws(rest, more, flaw)
    ensures SameFlaws([f] + rest, Appended([AfterRead(InSlot(f, scalar, slot)).0], more), flaw)
  {
    assert ([f] + rest)[1..] == rest;
    SomeFileFirst([f] + rest, flaw);
    FlawOpened(f, scalar, slot);
    if more.Opened? {
      SomeAheadFirst(AfterRead(InSlot(f, scalar, slot)).0, more.cs, flaw);
    }
  }

  lemma FlawsGap(f: File, rest: seq<File>, more: Outcome, flaw: Flaw)
    requires Readable(f) && !Counts(f) && SameFlaws(rest, more, flaw) && !flaw.Sound?
    ensures SameFlaws([f] + rest, more, flaw)
  {
    assert ([f] + rest)[1..] == rest;
    SomeFileFirst([f] + rest, flaw);
    FlawNext(f.bytes, Swap(f), Blank());
  }

  lemma OpenedFlaws(files: seq<File>, scalars: seq<nat>, i: nat, slot: Slot, ret: int, flaw: Flaw)
    requires i + |files| <= |scalars| && !flaw.Sound?
    ensures SameFlaws(files, OpenFrom(files, scalars, i, slot, ret), flaw)
  {
    forall f: File, rest: seq<File>, scalar: nat, slot, more | Counts(f) && SameFlaws(rest, more, flaw)
      ensures SameFlaws([f] + rest, Appended([AfterRead(InSlot(f, scalar, slot)).0], more), flaw)
    {
      FlawsFirst(f, rest, scalar, slot, more, flaw);
    }
    forall f: File, rest: seq<File>, more | Readable(f) && !Counts(f) && SameFlaws(rest, more, flaw)
      ensures SameFlaws([f] + rest, more, flaw)
    {
      FlawsGap(f, rest, more, flaw);
    }
    OpensBy((fs: seq<File>, _: int, r: Outcome) => SameFlaws(fs, r, flaw), files, scalars, i, slot, ret);
  }

  /** A merge that stopped with zero had a file that ends without the data of its last record; one that
      stopped with anything else had a file broken in another way. */
  lemma StoppedFlaws(files: seq<File>, scalars: seq<nat>, ret: int)
    requires |files| <= |scalars| && OpenAll(files, scalars).Opened? && Stopped(OpenAll(files, scalars).cs, ret)
    ensures ret == 0 ==> SomeFile(files, Cut)
    ensures ret != 0 ==> SomeFile(files, Torn)
  {
    var cs := OpenAll(files, scalars).cs;
    var p: nat :| StoppedAt(cs, p, ret);
    assert SomeAhead(cs, FlawAhead(cs[p]));
    OpenedFlaws(files, scalars, 0, Zeroed(), 0, FlawAhead(cs[p]));
  }

  predicate EachReadable(files: seq<File>) { forall p :: 0 <= p < |files| ==> Readable(files[p]) }

  lemma EachReadableFirst(files: seq<File>)
    requires files != []
    ensures EachReadable(files) <==> Readable(files[0]) && EachReadable(files[1..])
  {
    assert forall p :: 0 < p < |files| ==> files[p] == files[1..][p - 1];
  }

  lemma AllReadable(files: seq<File>, scalars: seq<nat>, i: nat, slot: Slot, ret: int)
    requires i + |files| <= |scalars|
    ensures OpenFrom(files, scalars, i, slot, ret).Opened? <==> EachReadable(files)
  {
    forall f: File, rest: seq<File> ensures EachReadable([f] + rest) <==> Readable(f) && EachReadable(rest) {
      EachReadableFirst([f] + rest);
      assert ([f] + rest)[1..] == rest;
    }
    OpensBy((fs: seq<File>, _: int, r: Outcome) => r.Opened? <==> EachReadable(fs), files, scalars, i, slot, ret);
  }

  /** Open the files and merge them. The merged trace is adopted exactly if every file is a trace that can be
      read to its end. If moreover no file without records comes before one with some, it holds exactly the
      files' records, each file's times scaled by its own scalar; and it is in order of time if every file is.
      The merged file is read as the records that went into it. Otherwise nothing is adopted; `ret` may still be
      zero: if the first file that does not open is no trace and comes first or after a file without records,
      or if all open and the merge stops at a record without any of its data. */
  method MergeFiles(files: seq<File>, scalars: seq<nat>) returns (adopted: bool, ret: int, out: seq<Rec>)
    requires |scalars| == |files|
    ensures adopted <==> EachGood(files)
    ensures adopted ==> ret == 0
    ensures adopted && NoGap(files) ==> forall x :: multiset(out)[x] == Times(x, Wanted(files, scalars, 0))
    ensures adopted && NoGap(files) && EachInOrder(files, scalars) ==> Sorted(out)
    ensures adopted ==> AllRecorded(out) && Records(MergedFile(out), false) == Some(Reread(out))
    ensures forall k: nat :: StopsOpening(files, k) ==> !adopted && ret == OpenRet(files, k, 0)
    ensures OpenAll(files, scalars).Opened? <==> EachReadable(files)
    ensures OpenAll(files, scalars).Opened? && !adopted ==>
              && Stopped(OpenAll(files, scalars).cs, ret)
              && (ret == 0 ==> SomeFile(files, Cut)) && (ret != 0 ==> SomeFile(files, Torn))
  {
    out := [];
    var ok, bcs, nr;
    ghost var objects;
    ok, ret, bcs, nr, objects := Open(files, scalars);
    OpenFacts(files, scalars);
    if EachGood(files) && NoGap(files) {
      OpenedWanted(files, scalars);
      if EachInOrder(files, scalars) {
        assert scalars[0..0 + |files|] == scalars;
        WantedSorted(files, scalars, 0);
      }
    }
    adopted := false;
    if ok {
      adopted, ret, out := Merge(bcs, nr, OpenAll(files, scalars).cs, objects);
      if adopted {
        MergedRecorded(OpenAll(files, scalars).cs, out);
        MergedReads(out);
      } else {
        StoppedFlaws(files, scalars, ret);
      }
    }
  }

  lemma OpenFacts(files: seq<File>, scalars: seq<nat>)
    requires |scalars| == |files|
    ensures OpenAll(files, scalars).Opened? ==> Timely(OpenAll(files, scalars).cs) && AllRead(OpenAll(files, scalars).cs)
    ensures OpensWell(OpenAll(files, scalars)) <==> EachGood(files)
    ensures OpenAll(files, scalars).Opened? <==> EachReadable(files)
    ensures forall k: nat :: StopsOpening(files, k) ==> OpenAll(files, scalars) == Refused(OpenRet(files, k, 0))
  {
    OpenedTimely(files, scalars, 0, Zeroed(), 0);
    OpenedRead(files, scalars, 0, Zeroed(), 0);
    OpenedGood(files, scalars, 0, Zeroed(), 0);
    AllReadable(files, scalars, 0, Zeroed(), 0);
    forall k: nat | StopsOpening(files, k) ensures OpenAll(files, scalars) == Refused(OpenRet(files, k, 0)) {
      OpeningStops(files, scalars, 0, Zeroed(), 0, k);
    }
  }
}
