/**
 fio's locks on file names, run by any number of callers. A step is one critical section under
 the table's lock, or one operation on an entry's semaphore. A caller that holds several names at
 once is several callers here.
 */
module FileLock {
  import opened Sums
  import opened FileLockTable

  /** `Asleep` dropped the table's lock for want of a free entry; `Waiting` is about to wait for
      the entry's semaphore, `Trying` to try it once, `Missed` tried and failed; `once` marks a try-lock
      that missed, found itself alone with the entry, and waits after all. */
  datatype Pc =
    | Idle
    | Asleep(hash: nat)
    | Waiting(hash: nat, e: nat, once: bool)
    | Trying(hash: nat, e: nat)
    | Missed(hash: nat, e: nat)
    | Holding(hash: nat, e: nat)

  datatype State = State(t: Table, pcs: seq<Pc>)

  datatype Step =
    | Lock(i: nat, hash: nat, once: bool)
    | Again(i: nat)
    | Down(i: nat)
    | TryDown(i: nat)
    | BackOff(i: nat)
    | Unlock(i: nat)

  predicate HasEntry(pc: Pc) { pc.Waiting? || pc.Trying? || pc.Missed? || pc.Holding? }

  predicate InTable(s: State)
  {
    && Sound(s.t)
    && (forall i :: 0 <= i < |s.pcs| && HasEntry(s.pcs[i]) ==> s.pcs[i].e < |s.t.ffs|)
  }

  /** Waiting for a semaphore is the only step that has to wait for another caller. */
  predicate Enabled(s: State, step: Step)
  {
    && step.i < |s.pcs|
    && InTable(s)
    && match step
       case Lock(i, _, _) => s.pcs[i].Idle?
       case Again(i) => s.pcs[i].Asleep?
       case Down(i) => s.pcs[i].Waiting? && s.t.ffs[s.pcs[i].e].value > 0
       case TryDown(i) => s.pcs[i].Trying?
       case BackOff(i) => s.pcs[i].Missed?
       case Unlock(i) => s.pcs[i].Holding?
  }

  function Valued(t: Table, e: nat, more: int): Table
    requires e < |t.ffs|
  {
    t.(ffs := t.ffs[e := t.ffs[e].(value := t.ffs[e].value + more)])
  }

  function Found(g: Got, t: Table): Table { if g.Got? then g.t else t }

  function Next(s: State, step: Step): State
    requires Enabled(s, step)
  {
    var pc := s.pcs[step.i];
    match step
    case Lock(i, hash, once) =>
      var g := GetSection(s.t, hash);
      State(Found(g, s.t),
            s.pcs[i := if g.Got? then (if once then Trying(hash, g.e) else Waiting(hash, g.e, false))
                       else if once then Idle else Asleep(hash)])
    case Again(i) =>
      var g := AgainSection(s.t, pc.hash);
      State(Found(g, s.t), s.pcs[i := if g.Got? then Waiting(pc.hash, g.e, false) else pc])
    case Down(i) =>
      State(Valued(s.t, pc.e, -1), s.pcs[i := Holding(pc.hash, pc.e)])
    case TryDown(i) =>
      if s.t.ffs[pc.e].value > 0 then
        State(Valued(s.t, pc.e, -1), s.pcs[i := Holding(pc.hash, pc.e)])
      else
        State(s.t, s.pcs[i := Missed(pc.hash, pc.e)])
    case BackOff(i) =>
      if s.t.ffs[pc.e].refs != 1 then
        State(Bumped(s.t, pc.e, -1), s.pcs[i := Idle])
      else
        State(s.t, s.pcs[i := Waiting(pc.hash, pc.e, true)])
    case Unlock(i) =>
      State(UnlockSection(s.t, pc.hash), s.pcs[i := Idle])
  }

  predicate Initial(s: State)
  {
    && s.t.active == []
    && |s.t.spare| == |s.t.ffs|
    && (forall e :: 0 <= e < |s.t.ffs| ==> s.t.spare[e] == e && s.t.ffs[e].value == 1)
    && (forall i :: 0 <= i < |s.pcs| ==> s.pcs[i].Idle?)
  }

  ghost predicate Follows(s: State, s': State)
  {
    exists step :: Enabled(s, step) && s' == Next(s, step)
  }

  ghost predicate IsRun(run: seq<State>)
  {
    && run != [] && Initial(run[0])
    && forall p :: 0 < p < |run| ==> Follows(run[p - 1], run[p])
  }

  // ---- What every step keeps ----

  function Refers(e: nat, pc: Pc): nat { if HasEntry(pc) && pc.e == e then 1 else 0 }

  function Holds(e: nat, pc: Pc): nat { if pc.Holding? && pc.e == e then 1 else 0 }

  predicate EntryOk(s: State, e: nat)
    requires e < |s.t.ffs|
  {
    && Count(s.t.active, e) + Count(s.t.spare, e) == 1
    && s.t.ffs[e].value + Total(Holds, e, s.pcs) == 1
    && s.t.ffs[e].value >= 0
    && (Count(s.t.spare, e) == 1 ==> Total(Refers, e, s.pcs) == 0)
    && (Count(s.t.active, e) == 1 ==> s.t.ffs[e].refs == Total(Refers, e, s.pcs) >= 1)
  }

  predicate Distinct(t: Table)
    requires Sound(t)
  {
    forall p, q :: 0 <= p < q < |t.active| ==> t.ffs[t.active[p]].hash != t.ffs[t.active[q]].hash
  }

  predicate CallerOk(s: State, pc: Pc)
  {
    HasEntry(pc) ==> pc.e < |s.t.ffs| && s.t.ffs[pc.e].hash == pc.hash
  }

  predicate Inv(s: State)
  {
    && Sound(s.t)
    && Distinct(s.t)
    && (forall e :: 0 <= e < |s.t.ffs| ==> EntryOk(s, e))
    && (forall i :: 0 <= i < |s.pcs| ==> CallerOk(s, s.pcs[i]))
  }

  // ---- Small facts ----

  lemma Tallies(s: State, i: nat, pc: Pc, e: nat)
    requires i < |s.pcs|
    ensures Total(Refers, e, s.pcs[i := pc]) + Refers(e, s.pcs[i]) == Total(Refers, e, s.pcs) + Refers(e, pc)
    ensures Total(Holds, e, s.pcs[i := pc]) + Holds(e, s.pcs[i]) == Total(Holds, e, s.pcs) + Holds(e, pc)
    ensures Refers(e, s.pcs[i]) <= Total(Refers, e, s.pcs)
    ensures Holds(e, s.pcs[i]) <= Total(Holds, e, s.pcs)
  {
    TotalAt(Refers, e, s.pcs, i, pc);
    TotalAt(Holds, e, s.pcs, i, pc);
    TotalPart(Refers, e, s.pcs, i);
    TotalPart(Holds, e, s.pcs, i);
  }

  /** A caller's entry is on the list of entries in use, and a lookup of its hash finds it. */
  lemma OwnEntry(s: State, i: nat)
    requires Inv(s) && i < |s.pcs| && HasEntry(s.pcs[i])
    ensures Count(s.t.active, s.pcs[i].e) == 1 && s.pcs[i].e in s.t.active
    ensures var p := Find(s.t, s.pcs[i].hash, 0); p < |s.t.active| && s.t.active[p] == s.pcs[i].e
  {
    var e := s.pcs[i].e;
    assert CallerOk(s, s.pcs[i]) && EntryOk(s, e);
    TotalPart(Refers, e, s.pcs, i);
    CountIff(s.t.active, e);
    var q :| 0 <= q < |s.t.active| && s.t.active[q] == e;
    var p := Find(s.t, s.pcs[i].hash, 0);
    assert p <= q;
  }

  lemma Head(xs: seq<nat>, x: nat, id: nat)
    ensures Count([x] + xs, id) == Same(id, x) + Count(xs, id)
  {
    CountFirst([x] + xs, id);
    assert ([x] + xs)[1..] == xs;
  }

  lemma Dropped(xs: seq<nat>, p: nat, id: nat)
    requires p < |xs|
    ensures Count(xs, id) == Same(id, xs[p]) + Count(Without(xs, p), id)
  {
    assert xs == xs[..p] + [xs[p]] + xs[p + 1..];
    CountCat(xs[..p] + [xs[p]], xs[p + 1..], id);
    CountCat(xs[..p], [xs[p]], id);
    CountOne(xs[p], id);
    CountCat(xs[..p], xs[p + 1..], id);
  }

  // ---- Each kind of step ----

  /** A caller moves, and one entry's semaphore and reference count change by as much as that
      caller's share of them; the lists stay. */
  lemma Shift(s: State, i: nat, e: nat, pc: Pc, f: Entry)
    requires Inv(s) && i < |s.pcs| && e < |s.t.ffs| && Count(s.t.active, e) == 1
    requires f.hash == s.t.ffs[e].hash && CallerOk(s, pc)
    requires HasEntry(s.pcs[i]) ==> s.pcs[i].e == e
    requires HasEntry(pc) ==> pc.e == e
    requires f.refs == s.t.ffs[e].refs + Refers(e, pc) - Refers(e, s.pcs[i])
    requires f.value == s.t.ffs[e].value - Holds(e, pc) + Holds(e, s.pcs[i])
    requires f.refs >= 1 && f.value >= 0
    ensures Inv(State(s.t.(ffs := s.t.ffs[e := f]), s.pcs[i := pc]))
  {
    var s' := State(s.t.(ffs := s.t.ffs[e := f]), s.pcs[i := pc]);
    forall x | 0 <= x < |s.t.ffs| ensures EntryOk(s', x) {
      assert EntryOk(s, x);
      Tallies(s, i, pc, x);
    }
    forall j | 0 <= j < |s'.pcs| ensures CallerOk(s', s'.pcs[j]) {
      assert CallerOk(s, s.pcs[j]);
    }
  }

  /** A caller that refers to no entry moves to a state that refers to none. */
  lemma Aside(s: State, i: nat, pc: Pc)
    requires Inv(s) && i < |s.pcs| && !HasEntry(s.pcs[i]) && !HasEntry(pc)
    ensures Inv(State(s.t, s.pcs[i := pc]))
  {
    var s' := State(s.t, s.pcs[i := pc]);
    forall x | 0 <= x < |s.t.ffs| ensures EntryOk(s', x) {
      assert EntryOk(s, x);
      Tallies(s, i, pc, x);
    }
    forall j | 0 <= j < |s'.pcs| ensures CallerOk(s', s'.pcs[j]) {
      assert CallerOk(s, s.pcs[j]);
    }
  }

  /** A free entry goes on the list for a hash that has none there. */
  lemma TakeKeeps(s: State, i: nat, hash: nat, pc: Pc)
    requires Inv(s) && i < |s.pcs| && !HasEntry(s.pcs[i]) && s.t.spare != []
    requires Find(s.t, hash, 0) == |s.t.active|
    requires HasEntry(pc) && !pc.Holding? && pc.hash == hash && pc.e == s.t.spare[0]
    ensures Inv(State(Taken(s.t, hash), s.pcs[i := pc]))
  {
    var e := s.t.spare[0];
    var s' := State(Taken(s.t, hash), s.pcs[i := pc]);
    assert EntryOk(s, e);
    CountFirst(s.t.spare, e);
    CountIff(s.t.active, e);
    forall x | 0 <= x < |s.t.ffs| ensures EntryOk(s', x) {
      assert EntryOk(s, x);
      Tallies(s, i, pc, x);
      Head(s.t.active, e, x);
      CountFirst(s.t.spare, x);
    }
    forall j | 0 <= j < |s'.pcs| ensures CallerOk(s', s'.pcs[j]) {
      assert CallerOk(s, s.pcs[j]);
      TotalPart(Refers, e, s.pcs, j);
    }
    forall p, q | 0 <= p < q < |s'.t.active|
      ensures s'.t.ffs[s'.t.active[p]].hash != s'.t.ffs[s'.t.active[q]].hash
    {
      assert s'.t.active[q] == s.t.active[q - 1];
    }
  }

  lemma GetKeeps(s: State, i: nat, hash: nat, pc: Pc)
    requires Inv(s) && i < |s.pcs| && !HasEntry(s.pcs[i]) && GetSection(s.t, hash).Got?
    requires HasEntry(pc) && !pc.Holding? && pc.hash == hash && pc.e == GetSection(s.t, hash).e
    ensures Inv(State(GetSection(s.t, hash).t, s.pcs[i := pc]))
  {
    var p := Find(s.t, hash, 0);
    if p < |s.t.active| {
      var e := s.t.active[p];
      assert EntryOk(s, e);
      CountIff(s.t.active, e);
      Shift(s, i, e, pc, s.t.ffs[e].(refs := s.t.ffs[e].refs + 1));
    } else {
      TakeKeeps(s, i, hash, pc);
    }
  }

  /** The last reference goes: the entry moves to the free list with its semaphore up. */
  lemma LastKeeps(s: State, i: nat, p: nat)
    requires Inv(s) && i < |s.pcs| && s.pcs[i].Holding? && p < |s.t.active|
    requires s.t.active[p] == s.pcs[i].e && s.t.ffs[s.pcs[i].e].refs == 1
    ensures var e := s.pcs[i].e; var f := s.t.ffs[e];
            Inv(State(Table(s.t.ffs[e := Entry(f.hash, f.value + 1, 0)], Without(s.t.active, p), [e] + s.t.spare),
                      s.pcs[i := Idle]))
  {
    var e := s.pcs[i].e;
    var f := s.t.ffs[e];
    var s' := State(Table(s.t.ffs[e := Entry(f.hash, f.value + 1, 0)], Without(s.t.active, p), [e] + s.t.spare),
                    s.pcs[i := Idle]);
    OwnEntry(s, i);
    forall x | 0 <= x < |s.t.ffs| ensures EntryOk(s', x) {
      assert EntryOk(s, x);
      Tallies(s, i, Idle, x);
      Head(s.t.spare, e, x);
      Dropped(s.t.active, p, x);
    }
    forall j | 0 <= j < |s'.pcs| ensures CallerOk(s', s'.pcs[j]) {
      assert CallerOk(s, s.pcs[j]);
    }
  }

  /** Other references remain: the entry stays, with one reference less and its semaphore up. */
  lemma SharedKeeps(s: State, i: nat)
    requires Inv(s) && i < |s.pcs| && s.pcs[i].Holding? && s.pcs[i].e < |s.t.ffs| && s.t.ffs[s.pcs[i].e].refs != 1
    ensures var e := s.pcs[i].e; var f := s.t.ffs[e];
            f.refs > 1 && Inv(State(s.t.(ffs := s.t.ffs[e := Entry(f.hash, f.value + 1, f.refs - 1)]), s.pcs[i := Idle]))
  {
    OwnEntry(s, i);
    var e := s.pcs[i].e;
    var f := s.t.ffs[e];
    assert EntryOk(s, e);
    Shift(s, i, e, Idle, Entry(f.hash, f.value + 1, f.refs - 1));
  }

  lemma UnlockKeeps(s: State, i: nat)
    requires Inv(s) && i < |s.pcs| && s.pcs[i].Holding?
    ensures Inv(State(UnlockSection(s.t, s.pcs[i].hash), s.pcs[i := Idle]))
  {
    OwnEntry(s, i);
    if s.t.ffs[s.pcs[i].e].refs == 1 {
      LastKeeps(s, i, Find(s.t, s.pcs[i].hash, 0));
    } else {
      SharedKeeps(s, i);
    }
  }

  lemma DownKeeps(s: State, i: nat)
    requires Inv(s) && i < |s.pcs| && (s.pcs[i].Waiting? || s.pcs[i].Trying?)
    requires s.pcs[i].e < |s.t.ffs|
    ensures var pc := s.pcs[i];
            if s.t.ffs[pc.e].value > 0 then
              Inv(State(Valued(s.t, pc.e, -1), s.pcs[i := Holding(pc.hash, pc.e)]))
            else
              Inv(State(s.t, s.pcs[i := Missed(pc.hash, pc.e)]))
  {
    var pc := s.pcs[i];
    var f := s.t.ffs[pc.e];
    OwnEntry(s, i);
    assert EntryOk(s, pc.e) && CallerOk(s, pc);
    if f.value > 0 {
      Shift(s, i, pc.e, Holding(pc.hash, pc.e), f.(value := f.value - 1));
    } else {
      Shift(s, i, pc.e, Missed(pc.hash, pc.e), f);
      assert s.t.ffs[pc.e := f] == s.t.ffs;
    }
  }

  lemma BackOffKeeps(s: State, i: nat)
    requires Inv(s) && i < |s.pcs| && s.pcs[i].Missed?
    requires s.pcs[i].e < |s.t.ffs|
    ensures var pc := s.pcs[i];
            if s.t.ffs[pc.e].refs != 1 then
              Inv(State(Bumped(s.t, pc.e, -1), s.pcs[i := Idle]))
            else
              Inv(State(s.t, s.pcs[i := Waiting(pc.hash, pc.e, true)]))
  {
    var pc := s.pcs[i];
    var f := s.t.ffs[pc.e];
    OwnEntry(s, i);
    assert EntryOk(s, pc.e) && CallerOk(s, pc);
    if f.refs != 1 {
      Shift(s, i, pc.e, Idle, f.(refs := f.refs - 1));
    } else {
      Shift(s, i, pc.e, Waiting(pc.hash, pc.e, true), f);
      assert s.t.ffs[pc.e := f] == s.t.ffs;
    }
  }

  lemma InvNext(s: State, step: Step)
    requires Inv(s) && Enabled(s, step)
    ensures Inv(Next(s, step))
  {
    match step {
      case Lock(i, hash, once) =>
        var g := GetSection(s.t, hash);
        if g.Got? {
          GetKeeps(s, i, hash, if once then Trying(hash, g.e) else Waiting(hash, g.e, false));
        } else {
          Aside(s, i, if once then Idle else Asleep(hash));
        }
      case Again(i) =>
        var g := AgainSection(s.t, s.pcs[i].hash);
        if g.Got? {
          GetKeeps(s, i, s.pcs[i].hash, Waiting(s.pcs[i].hash, g.e, false));
        } else {
          Aside(s, i, s.pcs[i]);
        }
      case Unlock(i) => UnlockKeeps(s, i);
      case Down(i) => DownKeeps(s, i);
      case TryDown(i) => DownKeeps(s, i);
      case BackOff(i) => BackOffKeeps(s, i);
    }
  }

  lemma {:induction false} CountRange(xs: seq<nat>, e: nat)
    requires forall p :: 0 <= p < |xs| ==> xs[p] == p
    ensures Count(xs, e) == if e < |xs| then 1 else 0
  {
    if xs != [] {
      CountRange(xs[..|xs| - 1], e);
    }
  }

  lemma InvInitial(s: State)
    requires Initial(s)
    ensures Inv(s)
  {
    forall e | 0 <= e < |s.t.ffs| ensures EntryOk(s, e) {
      CountRange(s.t.spare, e);
      TotalZero(Refers, e, s.pcs);
      TotalZero(Holds, e, s.pcs);
    }
  }

  lemma InvFollows(s: State, s': State)
    requires Inv(s) && Follows(s, s')
    ensures Inv(s')
  {
    var step :| Enabled(s, step) && s' == Next(s, step);
    InvNext(s, step);
  }

  lemma {:induction false} InvAlways(run: seq<State>, p: nat)
    requires IsRun(run) && p < |run|
    ensures Inv(run[p])
  {
    if p == 0 {
      InvInitial(run[0]);
    } else {
      InvAlways(run, p - 1);
      InvFollows(run[p - 1], run[p]);
    }
  }

  // ---- What the locks promise ----

  /** Every entry is on exactly one list, once. One in use is referred to by exactly as many callers
      as it counts, at least one; a free one by none, with its semaphore up. No hash is in use twice. */
  lemma TableExact(run: seq<State>, p: nat, e: nat)
    requires IsRun(run) && p < |run| && e < |run[p].t.ffs|
    ensures var s := run[p];
            && Sound(s.t) && Distinct(s.t)
            && Count(s.t.active, e) + Count(s.t.spare, e) == 1
            && (e in s.t.active ==> s.t.ffs[e].refs == Total(Refers, e, s.pcs) >= 1)
            && (e in s.t.spare ==> s.t.ffs[e].value == 1 && Total(Refers, e, s.pcs) == 0)
  {
    var s := run[p];
    InvAlways(run, p);
    assert EntryOk(s, e);
    CountIff(s.t.active, e);
    CountIff(s.t.spare, e);
    TotalZero(Refers, e, s.pcs);
    TotalZero(Holds, e, s.pcs);
  }

  /** No two callers ever hold the same hash, so no two hold the same name. */
  lemma Exclusive(run: seq<State>, p: nat, i: nat, j: nat)
    requires IsRun(run) && p < |run| && i < j < |run[p].pcs|
    requires run[p].pcs[i].Holding? && run[p].pcs[j].Holding?
    ensures run[p].pcs[i].hash != run[p].pcs[j].hash
  {
    var s := run[p];
    InvAlways(run, p);
    OwnEntry(s, i);
    OwnEntry(s, j);
    assert EntryOk(s, s.pcs[i].e);
    TotalTwo(Holds, s.pcs[i].e, s.pcs, i, j);
  }

  /** The lookup in fio_unlock_file finds the very entry the caller holds. */
  lemma UnlockFinds(run: seq<State>, p: nat, i: nat)
    requires IsRun(run) && p < |run| && i < |run[p].pcs| && run[p].pcs[i].Holding?
    ensures Sound(run[p].t)
    ensures var s := run[p];
            var q := Find(s.t, s.pcs[i].hash, 0);
            q < |s.t.active| && s.t.active[q] == s.pcs[i].e
  {
    InvAlways(run, p);
    OwnEntry(run[p], i);
  }

  predicate HeldBy(s: State, hash: nat, j: nat)
  {
    j < |s.pcs| && s.pcs[j].Holding? && s.pcs[j].hash == hash
  }

  /** A semaphore is down exactly while some caller holds its entry's hash. */
  lemma DownMeansHeld(s: State, i: nat)
    requires Inv(s) && i < |s.pcs| && HasEntry(s.pcs[i])
    ensures s.pcs[i].e < |s.t.ffs|
    ensures s.t.ffs[s.pcs[i].e].value == 0 <==> exists j: nat :: HeldBy(s, s.pcs[i].hash, j)
  {
    OwnEntry(s, i);
    var e := s.pcs[i].e;
    assert EntryOk(s, e) && CallerOk(s, s.pcs[i]);
    TotalZero(Holds, e, s.pcs);
    if j: nat :| HeldBy(s, s.pcs[i].hash, j) {
      OwnEntry(s, j);
      assert Holds(e, s.pcs[j]) == 1;
    }
    if s.t.ffs[e].value == 0 {
      var j :| 0 <= j < |s.pcs| && Holds(e, s.pcs[j]) != 0;
      assert CallerOk(s, s.pcs[j]);
      assert HeldBy(s, s.pcs[i].hash, j);
    }
  }

  lemma InvInTable(s: State)
    requires Inv(s)
    ensures InTable(s)
  {
    assert forall j :: 0 <= j < |s.pcs| ==> CallerOk(s, s.pcs[j]);
  }

  /** A caller is kept waiting exactly while another caller holds its hash. */
  lemma WaitsForHolder(run: seq<State>, p: nat, i: nat)
    requires IsRun(run) && p < |run| && i < |run[p].pcs| && run[p].pcs[i].Waiting?
    ensures Enabled(run[p], Down(i)) <==> forall j: nat :: !HeldBy(run[p], run[p].pcs[i].hash, j)
  {
    InvAlways(run, p);
    InvInTable(run[p]);
    DownMeansHeld(run[p], i);
    assert EntryOk(run[p], run[p].pcs[i].e);
  }

  /** A try-lock that missed gives up exactly when some other caller also refers to its entry. */
  lemma GivesUp(run: seq<State>, p: nat, i: nat)
    requires IsRun(run) && p < |run| && i < |run[p].pcs| && run[p].pcs[i].Missed?
    ensures Enabled(run[p], BackOff(i))
    ensures Next(run[p], BackOff(i)).pcs[i].Idle? <==>
            exists j :: 0 <= j < |run[p].pcs| && j != i && Refers(run[p].pcs[i].e, run[p].pcs[j]) == 1
  {
    var s := run[p];
    InvAlways(run, p);
    OwnEntry(s, i);
    var e := s.pcs[i].e;
    assert EntryOk(s, e);
    InvInTable(s);
    Tallies(s, i, Idle, e);
    var others := s.pcs[i := Idle];
    TotalZero(Refers, e, others);
    if s.t.ffs[e].refs != 1 {
      var j :| 0 <= j < |others| && Refers(e, others[j]) != 0;
      assert others[j] == s.pcs[j];
    }
    forall j | 0 <= j < |s.pcs| && j != i && Refers(e, s.pcs[j]) == 1 ensures s.t.ffs[e].refs != 1 {
      assert others[j] == s.pcs[j];
    }
  }

  /** A try-lock takes the semaphore at its first try exactly when no caller holds its hash, and misses
      otherwise. */
  lemma TryTakes(run: seq<State>, p: nat, i: nat)
    requires IsRun(run) && p < |run| && i < |run[p].pcs| && run[p].pcs[i].Trying?
    ensures Enabled(run[p], TryDown(i))
    ensures var pc, pc' := run[p].pcs[i], Next(run[p], TryDown(i)).pcs[i];
            pc' == if exists j: nat :: HeldBy(run[p], pc.hash, j) then Missed(pc.hash, pc.e) else Holding(pc.hash, pc.e)
  {
    var s := run[p];
    InvAlways(run, p);
    InvInTable(s);
    DownMeansHeld(s, i);
    assert EntryOk(s, s.pcs[i].e);
  }

  predicate Named(s: State, hash: nat, j: nat) { j < |s.pcs| && HasEntry(s.pcs[j]) && s.pcs[j].hash == hash }

  predicate Free(s: State, e: nat) { e < |s.t.ffs| && Total(Refers, e, s.pcs) == 0 }

  lemma FreeIffSpare(s: State)
    requires Inv(s)
    ensures s.t.spare != [] <==> exists e: nat :: Free(s, e)
  {
    if s.t.spare != [] {
      var e := s.t.spare[0];
      assert EntryOk(s, e);
      CountIff(s.t.spare, e);
      assert Free(s, e);
    }
    if e: nat :| Free(s, e) {
      assert EntryOk(s, e);
      CountIff(s.t.spare, e);
    }
  }

  lemma NamedIffFound(s: State, hash: nat)
    requires Inv(s)
    ensures Find(s.t, hash, 0) < |s.t.active| <==> exists j: nat :: Named(s, hash, j)
  {
    var p := Find(s.t, hash, 0);
    if p < |s.t.active| {
      var e := s.t.active[p];
      assert EntryOk(s, e);
      CountIff(s.t.active, e);
      TotalZero(Refers, e, s.pcs);
      var j :| 0 <= j < |s.pcs| && Refers(e, s.pcs[j]) != 0;
      assert CallerOk(s, s.pcs[j]);
      assert Named(s, hash, j);
    }
    if j: nat :| Named(s, hash, j) {
      OwnEntry(s, j);
    }
  }

  /** A lookup gets an entry exactly when some caller has the name already or some entry has no caller; one
      that has slept for want of an entry, only in the second case. Without an entry a try-lock fails at
      once, and a lock sleeps. */
  lemma LookupGets(run: seq<State>, p: nat, i: nat, hash: nat, once: bool)
    requires IsRun(run) && p < |run| && i < |run[p].pcs|
    ensures var s := run[p];
            var named, free := exists j: nat :: Named(s, hash, j), exists e: nat :: Free(s, e);
            && (s.pcs[i].Idle? ==>
                  && Enabled(s, Lock(i, hash, once))
                  && var pc := Next(s, Lock(i, hash, once)).pcs[i];
                     if named || free then if once then pc.Trying? && pc.hash == hash else pc.Waiting? && pc.hash == hash
                     else if once then pc.Idle? else pc == Asleep(hash))
            && (s.pcs[i].Asleep? ==>
                  && Enabled(s, Again(i))
                  && var pc := Next(s, Again(i)).pcs[i];
                     if free then pc.Waiting? && pc.hash == s.pcs[i].hash else pc == s.pcs[i])
  {
    InvAlways(run, p);
    InvInTable(run[p]);
    FreeIffSpare(run[p]);
    NamedIffFound(run[p], hash);
  }

  /** With no caller left, no entry is in use: the assertion of fio_filelock_exit holds. */
  lemma QuietMeansEmpty(run: seq<State>, p: nat)
    requires IsRun(run) && p < |run|
    requires forall i :: 0 <= i < |run[p].pcs| ==> !HasEntry(run[p].pcs[i])
    ensures run[p].t.active == []
    ensures |run[p].t.ffs| > 0 ==> run[p].t.spare != []
  {
    var s := run[p];
    InvAlways(run, p);
    if s.t.active != [] {
      var e := s.t.active[0];
      assert EntryOk(s, e);
      CountIff(s.t.active, e);
      TotalZero(Refers, e, s.pcs);
    }
    if |s.t.ffs| > 0 {
      assert EntryOk(s, 0);
      CountIff(s.t.spare, 0);
      CountIff(s.t.active, 0);
    }
  }

  /** A lookup fails only when every entry of the table has a caller. */
  lemma FullMeansBusy(run: seq<State>, p: nat, hash: nat, e: nat)
    requires IsRun(run) && p < |run| && e < |run[p].t.ffs|
    requires Sound(run[p].t) && GetSection(run[p].t, hash).None?
    ensures exists i :: 0 <= i < |run[p].pcs| && Refers(e, run[p].pcs[i]) == 1
  {
    var s := run[p];
    TableExact(run, p, e);
    CountIff(s.t.spare, e);
    CountIff(s.t.active, e);
    TotalZero(Refers, e, s.pcs);
    var i :| 0 <= i < |s.pcs| && Refers(e, s.pcs[i]) != 0;
  }

  predicate Moves(s: State, step: Step)
  {
    Enabled(s, step) && !step.Lock? && Next(s, step) != s
  }

  lemma CallerMoves(s: State, step: Step)
    requires Enabled(s, step) && (step.Unlock? || step.Down? || step.TryDown? || step.BackOff?)
    ensures Moves(s, step)
  {
    var i := step.i;
    assert Next(s, step).pcs[i] != s.pcs[i];
  }

  /** No deadlock: while some caller is under way, some caller can take a step that changes the state. */
  lemma NeverStuck(run: seq<State>, p: nat, i: nat)
    requires IsRun(run) && p < |run| && i < |run[p].pcs| && !run[p].pcs[i].Idle?
    requires |run[p].t.ffs| > 0
    ensures exists step :: Moves(run[p], step)
  {
    var s := run[p];
    InvAlways(run, p);
    InvInTable(s);
    if k: nat :| k < |s.pcs| && HasEntry(s.pcs[k]) {
      EntryMoves(run, p, k);
    } else {
      QuietMeansEmpty(run, p);
      assert Next(s, Again(i)).pcs[i].Waiting?;
      assert Moves(s, Again(i));
    }
  }

  lemma EntryMoves(run: seq<State>, p: nat, k: nat)
    requires IsRun(run) && p < |run| && k < |run[p].pcs| && HasEntry(run[p].pcs[k]) && InTable(run[p])
    ensures exists step :: Moves(run[p], step)
  {
    var s := run[p];
    if s.pcs[k].Waiting? {
      WaitsForHolder(run, p, k);
      if j: nat :| HeldBy(s, s.pcs[k].hash, j) {
        CallerMoves(s, Unlock(j));
      } else {
        CallerMoves(s, Down(k));
      }
    } else {
      CallerMoves(s, if s.pcs[k].Trying? then TryDown(k) else if s.pcs[k].Missed? then BackOff(k) else Unlock(k));
    }
  }

  // ---- When a try-lock waits ----

  predicate TryWaits(s: State, i: nat) { i < |s.pcs| && s.pcs[i].Waiting? && s.pcs[i].once }

  predicate TryMissed(s: State, i: nat) { i < |s.pcs| && s.pcs[i].Missed? }

  /** No caller but i refers to i's entry. */
  predicate Alone(s: State, i: nat)
    requires i < |s.pcs| && HasEntry(s.pcs[i])
  {
    forall j :: 0 <= j < |s.pcs| && j != i ==> Refers(s.pcs[i].e, s.pcs[j]) == 0
  }

  /** A try-lock comes to wait only by finding itself alone. */
  lemma ComesToWait(s: State, s': State, i: nat)
    requires Inv(s) && Follows(s, s') && TryWaits(s', i)
    ensures i < |s.pcs| && (s.pcs[i] == s'.pcs[i] || (TryMissed(s, i) && Alone(s', i)))
  {
    var step :| Enabled(s, step) && s' == Next(s, step);
    if step.BackOff? && step.i == i {
      var e := s.pcs[i].e;
      assert EntryOk(s, e);
      OwnEntry(s, i);
      forall j | 0 <= j < |s'.pcs| && j != i ensures Refers(e, s'.pcs[j]) == 0 {
        if j < i {
          TotalTwo(Refers, e, s.pcs, j, i);
        } else {
          TotalTwo(Refers, e, s.pcs, i, j);
        }
      }
    }
  }

  /** Caller i's try-lock missed at state b, found itself alone in the next step, and waits since. */
  predicate WaitsFrom(run: seq<State>, b: nat, p: nat, i: nat)
  {
    && b < p < |run| && TryMissed(run[b], i) && TryWaits(run[p], i)
    && (forall q :: b < q <= p ==> TryWaits(run[q], i) && run[q].pcs[i] == run[p].pcs[i])
    && Alone(run[b + 1], i)
  }

  predicate Traced(run: seq<State>, i: nat)
  {
    forall q :: 0 <= q < |run| && TryWaits(run[q], i) ==>
      q > 0 && i < |run[q - 1].pcs| &&
      (run[q - 1].pcs[i] == run[q].pcs[i] || (TryMissed(run[q - 1], i) && Alone(run[q], i)))
  }

  lemma TracedInRun(run: seq<State>, i: nat)
    requires IsRun(run)
    ensures Traced(run, i)
  {
    forall q | 0 < q < |run| && TryWaits(run[q], i)
      ensures i < |run[q - 1].pcs|
      ensures run[q - 1].pcs[i] == run[q].pcs[i] || (TryMissed(run[q - 1], i) && Alone(run[q], i))
    {
      InvAlways(run, q - 1);
      assert Follows(run[q - 1], run[q]);
      ComesToWait(run[q - 1], run[q], i);
    }
  }

  lemma {:induction false} TraceBack(run: seq<State>, p: nat, i: nat) returns (b: nat)
    requires Traced(run, i) && p < |run| && TryWaits(run[p], i)
    ensures WaitsFrom(run, b, p, i)
  {
    if run[p - 1].pcs[i] == run[p].pcs[i] {
      b := TraceBack(run, p - 1, i);
    } else {
      b := p - 1;
    }
  }

  /** A try-lock that missed waits only after it has found itself alone with its entry, when it could have
      taken the semaphore. It is kept waiting exactly while a caller holds its name that looked the
      name up only after that moment. */
  lemma TryLockWaits(run: seq<State>, p: nat, i: nat) returns (b: nat)
    requires IsRun(run) && p < |run| && TryWaits(run[p], i)
    ensures WaitsFrom(run, b, p, i) && Enabled(run[b + 1], Down(i))
    ensures !Enabled(run[p], Down(i)) <==>
            exists j: nat :: HeldBy(run[p], run[p].pcs[i].hash, j) && j < |run[b + 1].pcs| && Refers(run[p].pcs[i].e, run[b + 1].pcs[j]) == 0
  {
    TracedInRun(run, i);
    b := TraceBack(run, p, i);
    AloneCanTake(run, b + 1, i);
    WaitsForHolder(run, p, i);
    SameCallers(run, b + 1, p);
    forall j: nat | HeldBy(run[p], run[p].pcs[i].hash, j) ensures Refers(run[p].pcs[i].e, run[b + 1].pcs[j]) == 0 {
      assert run[b + 1].pcs[i] == run[p].pcs[i];
    }
  }

  lemma AloneCanTake(run: seq<State>, q: nat, i: nat)
    requires IsRun(run) && q < |run| && TryWaits(run[q], i) && Alone(run[q], i)
    ensures Enabled(run[q], Down(i))
  {
    InvAlways(run, q);
    WaitsForHolder(run, q, i);
    forall j: nat ensures !HeldBy(run[q], run[q].pcs[i].hash, j) {
      HolderRefers(run[q], i, j);
    }
  }

  lemma HolderRefers(s: State, i: nat, j: nat)
    requires Inv(s) && i < |s.pcs| && HasEntry(s.pcs[i])
    ensures HeldBy(s, s.pcs[i].hash, j) ==> Refers(s.pcs[i].e, s.pcs[j]) == 1
  {
    OwnEntry(s, i);
    if HeldBy(s, s.pcs[i].hash, j) {
      OwnEntry(s, j);
    }
  }

  lemma {:induction false} SameCallers(run: seq<State>, a: nat, b: nat)
    requires IsRun(run) && a <= b < |run|
    ensures |run[a].pcs| == |run[b].pcs|
  {
    if a < b {
      SameCallers(run, a, b - 1);
      assert Follows(run[b - 1], run[b]);
    }
  }

  // ---- When a try-lock fails ----

  ghost predicate HeldByOther(s: State, hash: nat, i: nat) { exists j: nat :: HeldBy(s, hash, j) && j != i }

  /** Caller i's try-lock tried at state a while its name was held by another caller, and has missed since. */
  ghost predicate MissedFrom(run: seq<State>, a: nat, p: nat, i: nat)
  {
    && a < p < |run| && i < |run[a].pcs| && TryMissed(run[p], i)
    && run[a].pcs[i] == Trying(run[p].pcs[i].hash, run[p].pcs[i].e) && HeldByOther(run[a], run[p].pcs[i].hash, i)
    && (forall q :: a < q <= p ==> TryMissed(run[q], i) && run[q].pcs[i] == run[p].pcs[i])
  }

  /** A try-lock that has missed did so before, or has just tried while another caller held its name. */
  ghost predicate MissStep(s: State, s': State, i: nat)
  {
    TryMissed(s', i) ==>
      && i < |s.pcs|
      && (|| s.pcs[i] == s'.pcs[i]
          || (s.pcs[i] == Trying(s'.pcs[i].hash, s'.pcs[i].e) && HeldByOther(s, s'.pcs[i].hash, i)))
  }

  lemma ComesToMiss(s: State, s': State, i: nat)
    requires Inv(s) && Follows(s, s')
    ensures MissStep(s, s', i)
  {
    var step :| Enabled(s, step) && s' == Next(s, step);
    if step == TryDown(i) && TryMissed(s', i) {
      DownMeansHeld(s, i);
      assert EntryOk(s, s.pcs[i].e);
      var j: nat :| HeldBy(s, s.pcs[i].hash, j);
      assert j != i;
    }
  }

  ghost predicate MissTraced(run: seq<State>, i: nat)
  {
    forall q :: 0 < q < |run| ==> MissStep(run[q - 1], run[q], i)
  }

  lemma MissTracedInRun(run: seq<State>, i: nat)
    requires IsRun(run)
    ensures MissTraced(run, i)
  {
    forall q | 0 < q < |run| ensures MissStep(run[q - 1], run[q], i) {
      InvAlways(run, q - 1);
      assert Follows(run[q - 1], run[q]);
      ComesToMiss(run[q - 1], run[q], i);
    }
  }

  lemma {:induction false} TraceMiss(run: seq<State>, p: nat, i: nat) returns (a: nat)
    requires MissTraced(run, i) && p < |run| && TryMissed(run[p], i) && !TryMissed(run[0], i)
    ensures MissedFrom(run, a, p, i)
  {
    assert MissStep(run[p - 1], run[p], i);
    if run[p - 1].pcs[i] == run[p].pcs[i] {
      a := TraceMiss(run, p - 1, i);
    } else {
      a := p - 1;
    }
  }

  /** A caller goes idle without having held a lock: its try-lock failed. */
  predicate TryFails(s: State, step: Step, i: nat)
    requires Enabled(s, step)
  {
    step.i == i && Next(s, step).pcs[i].Idle? && !s.pcs[i].Holding?
  }

  /** A try-lock fails only at its lookup, when no caller has its name and every entry has a caller; or after it
      tried while another caller held its name, when another caller still refers to its entry. */
  lemma FailsFor(run: seq<State>, p: nat, step: Step, i: nat) returns (a: nat)
    requires IsRun(run) && p < |run| && i < |run[p].pcs| && Enabled(run[p], step) && TryFails(run[p], step, i)
    ensures var s := run[p];
            || (&& step.Lock? && step.once
                && (forall j: nat :: !Named(s, step.hash, j)) && (forall e: nat :: !Free(s, e)))
            || (&& step.BackOff? && MissedFrom(run, a, p, i)
                && exists j :: 0 <= j < |s.pcs| && j != i && Refers(s.pcs[i].e, s.pcs[j]) == 1)
  {
    a := 0;
    if step.Lock? {
      LookupGets(run, p, i, step.hash, step.once);
    } else {
      MissTracedInRun(run, i);
      a := TraceMiss(run, p, i);
      GivesUp(run, p, i);
    }
  }

  // ---- A try-lock that waits ----

  function One(hash: nat, value: int, refs: int, a: Pc, b: Pc, c: Pc): State
  {
    State(Table([Entry(hash, value, refs)], [0], []), [a, b, c])
  }

  lemma Goes(run: seq<State>, step: Step, s: State)
    requires IsRun(run) && Enabled(run[|run| - 1], step) && s == Next(run[|run| - 1], step)
    ensures IsRun(run + [s])
  {
    assert Follows(run[|run| - 1], s);
    forall p | 0 < p < |run + [s]| ensures Follows((run + [s])[p - 1], (run + [s])[p]) {
      if p < |run| {
        assert Follows(run[p - 1], run[p]);
      }
    }
  }

  lemma FirstLock(h: nat) returns (run: seq<State>)
    ensures IsRun(run) && run[|run| - 1] == One(h, 1, 1, Waiting(h, 0, false), Idle, Idle)
  {
    run := [State(Table([Entry(0, 1, 0)], [], [0]), [Idle, Idle, Idle])];
    Goes(run, Lock(0, h, false), One(h, 1, 1, Waiting(h, 0, false), Idle, Idle));
    run := run + [One(h, 1, 1, Waiting(h, 0, false), Idle, Idle)];
  }

  /** Caller 0 holds the name; caller 1 looks it up for a try-lock. */
  lemma TryStarts(h: nat) returns (run: seq<State>)
    ensures IsRun(run) && run[|run| - 1] == One(h, 0, 2, Holding(h, 0), Trying(h, 0), Idle)
  {
    run := FirstLock(h);
    Goes(run, Down(0), One(h, 0, 1, Holding(h, 0), Idle, Idle));
    run := run + [One(h, 0, 1, Holding(h, 0), Idle, Idle)];
    Goes(run, Lock(1, h, true), One(h, 0, 2, Holding(h, 0), Trying(h, 0), Idle));
    run := run + [One(h, 0, 2, Holding(h, 0), Trying(h, 0), Idle)];
  }

  /** The try-lock misses, then finds itself alone. */
  lemma TryMisses(h: nat) returns (run: seq<State>)
    ensures |run| > 4 && IsRun(run) && run[|run| - 1] == One(h, 1, 1, Idle, Waiting(h, 0, true), Idle)
    ensures run[|run| - 4] == One(h, 0, 2, Holding(h, 0), Trying(h, 0), Idle)
  {
    run := TryStarts(h);
    Goes(run, TryDown(1), One(h, 0, 2, Holding(h, 0), Missed(h, 0), Idle));
    run := run + [One(h, 0, 2, Holding(h, 0), Missed(h, 0), Idle)];
    Goes(run, Unlock(0), One(h, 1, 1, Idle, Missed(h, 0), Idle));
    run := run + [One(h, 1, 1, Idle, Missed(h, 0), Idle)];
    Goes(run, BackOff(1), One(h, 1, 1, Idle, Waiting(h, 0, true), Idle));
    run := run + [One(h, 1, 1, Idle, Waiting(h, 0, true), Idle)];
  }

  /** A try-lock can be kept waiting: after it finds itself alone with the entry it waits for the
      semaphore without the table's lock, and another caller may take the semaphore first. */
  lemma TryLockCanWait(h: nat) returns (run: seq<State>)
    ensures |run| > 6 && IsRun(run)
    ensures run[|run| - 6] == One(h, 0, 2, Holding(h, 0), Trying(h, 0), Idle)
    ensures run[|run| - 1] == One(h, 0, 2, Idle, Waiting(h, 0, true), Holding(h, 0))
    ensures !Enabled(run[|run| - 1], Down(1))
  {
    run := TryMisses(h);
    Goes(run, Lock(2, h, false), One(h, 1, 2, Idle, Waiting(h, 0, true), Waiting(h, 0, false)));
    run := run + [One(h, 1, 2, Idle, Waiting(h, 0, true), Waiting(h, 0, false))];
    Goes(run, Down(2), One(h, 0, 2, Idle, Waiting(h, 0, true), Holding(h, 0)));
    run := run + [One(h, 0, 2, Idle, Waiting(h, 0, true), Holding(h, 0))];
  }
}
