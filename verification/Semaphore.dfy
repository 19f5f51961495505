/**
 fio's counting semaphore: a value and a count of waiters under a mutex, and a condition variable
 that is signalled only when the value leaves zero. A step is one section under the mutex; a thread
 in the condition wait may also return from it without a signal.
 */
module Semaphore {
  import opened Sums

  // ---- The semaphore itself ----

  datatype Sem = Sem(value: nat, waiters: int)

  class FioSem {
    var value: nat
    var waiters: int

    ghost function View(): Sem
      reads this
    {
      Sem(value, waiters)
    }

    constructor (value: nat)
      ensures View() == Sem(value, 0)
    {
      this.value, waiters := value, 0;
    }

    /** fio_sem_down up to the point where it either has the semaphore or waits; `resumed` when it
        comes from the wait. */
    method Down(resumed: bool) returns (taken: bool)
      modifies this
      ensures taken == (old(value) > 0)
      ensures View() == Downed(old(View()), resumed)
    {
      if resumed {
        waiters := waiters - 1;
      }
      taken := value != 0;
      if taken {
        value := value - 1;
      } else {
        waiters := waiters + 1;
      }
    }

    method DownTryLock() returns (failed: bool)
      modifies this
      ensures failed == (old(value) == 0)
      ensures View() == if failed then old(View()) else Downed(old(View()), false)
    {
      failed := true;
      if value != 0 {
        value := value - 1;
        failed := false;
      }
    }

    method Up() returns (wake: bool)
      modifies this
      ensures wake == Signals(old(View()))
      ensures View() == Upped(old(View()))
    {
      wake := false;
      if value == 0 && waiters != 0 {
        wake := true;
      }
      value := value + 1;
    }
  }

  function Downed(m: Sem, resumed: bool): Sem
  {
    var w := if resumed then m.waiters - 1 else m.waiters;
    if m.value > 0 then Sem(m.value - 1, w) else Sem(0, w + 1)
  }

  function Upped(m: Sem): Sem { m.(value := m.value + 1) }

  predicate Signals(m: Sem) { m.value == 0 && m.waiters != 0 }

  // ---- Any number of threads ----

  /** `Asleep` is in the condition wait, `Runnable` has come out of it and needs the mutex. */
  datatype Pc = Idle | Asleep | Runnable | Holding

  datatype State = State(m: Sem, th: seq<Pc>)

  /** `Up(i, k)` signals thread k, if it signals and anyone is asleep. */
  datatype Step = Down(i: nat) | TryDown(i: nat) | Up(i: nat, k: nat) | Spurious(i: nat)

  predicate Enabled(s: State, step: Step)
  {
    && step.i < |s.th|
    && match step
       case Down(i) => s.th[i].Idle? || s.th[i].Runnable?
       case TryDown(i) => s.th[i].Idle?
       case Up(i, k) => (s.th[i].Idle? || s.th[i].Holding?) && (Asleep in s.th ==> k < |s.th| && s.th[k].Asleep?)
       case Spurious(i) => s.th[i].Asleep?
  }

  function Next(s: State, step: Step): State
    requires Enabled(s, step)
  {
    match step
    case Down(i) =>
      State(Downed(s.m, s.th[i].Runnable?), s.th[i := if s.m.value > 0 then Holding else Asleep])
    case TryDown(i) =>
      if s.m.value > 0 then State(Downed(s.m, false), s.th[i := Holding]) else s
    case Up(i, k) =>
      var th := s.th[i := Idle];
      State(Upped(s.m), if Signals(s.m) && Asleep in s.th then th[k := Runnable] else th)
    case Spurious(i) => s.(th := s.th[i := Runnable])
  }

  /** How a program uses the semaphore: anyhow, raising it only from zero, or only by its holder. */
  datatype Use = Free | FromZero | ByHolder

  predicate Allowed(u: Use, s: State, step: Step)
  {
    && Enabled(s, step)
    && (step.Up? ==>
          match u
          case Free => true
          case FromZero => s.m.value == 0
          case ByHolder => s.th[step.i].Holding?)
  }

  predicate Initial(u: Use, s: State)
  {
    && s.m.waiters == 0
    && (u.ByHolder? ==> s.m.value == 1)
    && (u.FromZero? ==> s.m.value <= 1)
    && forall i :: 0 <= i < |s.th| ==> s.th[i].Idle?
  }

  ghost predicate Follows(u: Use, s: State, s': State)
  {
    exists step :: Allowed(u, s, step) && s' == Next(s, step)
  }

  ghost predicate IsRun(u: Use, run: seq<State>)
  {
    && run != [] && Initial(u, run[0])
    && forall p :: 0 < p < |run| ==> Follows(u, run[p - 1], run[p])
  }

  // ---- What every step keeps ----

  function Waits(n: nat, pc: Pc): nat { if pc.Asleep? || pc.Runnable? then 1 else 0 }

  function Holds(n: nat, pc: Pc): nat { if pc.Holding? then 1 else 0 }

  /** A semaphore that is up does not leave all its waiters asleep. */
  predicate Awake(s: State) { s.m.value > 0 && Asleep in s.th ==> Runnable in s.th }

  predicate Inv(u: Use, s: State)
  {
    && s.m.waiters == Total(Waits, 0, s.th)
    && (u.ByHolder? ==> s.m.value + Total(Holds, 0, s.th) == 1)
    && (u.Free? || (s.m.value <= 1 && Awake(s)))
  }

  lemma Tallies(th: seq<Pc>, i: nat, pc: Pc)
    requires i < |th|
    ensures Total(Waits, 0, th[i := pc]) + Waits(0, th[i]) == Total(Waits, 0, th) + Waits(0, pc)
    ensures Total(Holds, 0, th[i := pc]) + Holds(0, th[i]) == Total(Holds, 0, th) + Holds(0, pc)
    ensures Waits(0, th[i]) <= Total(Waits, 0, th) && Holds(0, th[i]) <= Total(Holds, 0, th)
  {
    TotalAt(Waits, 0, th, i, pc);
    TotalAt(Holds, 0, th, i, pc);
    TotalPart(Waits, 0, th, i);
    TotalPart(Holds, 0, th, i);
  }

  lemma UpKeeps(u: Use, s: State, i: nat, k: nat)
    requires Inv(u, s) && Allowed(u, s, Up(i, k))
    ensures Inv(u, Next(s, Up(i, k)))
  {
    var s' := Next(s, Up(i, k));
    var th := s.th[i := Idle];
    Tallies(s.th, i, Idle);
    if Asleep in s.th {
      assert th[k] == Asleep;
      Tallies(th, k, Runnable);
      TotalPart(Waits, 0, s.th, k);
      if Signals(s.m) {
        assert s'.th[k] == Runnable;
      }
    } else {
      assert Asleep !in s'.th;
    }
  }

  lemma InvNext(u: Use, s: State, step: Step)
    requires Inv(u, s) && Allowed(u, s, step)
    ensures Inv(u, Next(s, step))
  {
    var i := step.i;
    match step {
      case Down(_) => Tallies(s.th, i, if s.m.value > 0 then Holding else Asleep);
      case TryDown(_) => Tallies(s.th, i, Holding);
      case Up(_, k) => UpKeeps(u, s, i, k);
      case Spurious(_) =>
        Tallies(s.th, i, Runnable);
        assert Next(s, step).th[i] == Runnable;
    }
  }

  lemma {:induction false} InvAlways(u: Use, run: seq<State>, p: nat)
    requires IsRun(u, run) && p < |run|
    ensures Inv(u, run[p])
  {
    if p == 0 {
      TotalZero(Waits, 0, run[0].th);
      TotalZero(Holds, 0, run[0].th);
    } else {
      InvAlways(u, run, p - 1);
      assert Follows(u, run[p - 1], run[p]);
      var step :| Allowed(u, run[p - 1], step) && run[p] == Next(run[p - 1], step);
      InvNext(u, run[p - 1], step);
    }
  }

  // ---- What the semaphore promises ----

  /** However it is used, the waiter count is the number of threads in the wait or back from it. */
  lemma WaitersExact(u: Use, run: seq<State>, p: nat)
    requires IsRun(u, run) && p < |run|
    ensures run[p].m.waiters == Total(Waits, 0, run[p].th)
  {
    InvAlways(u, run, p);
  }

  /** Used as a lock, it is down exactly while one thread holds it, and no two threads hold it. */
  lemma MutualExclusion(run: seq<State>, p: nat)
    requires IsRun(ByHolder, run) && p < |run|
    ensures run[p].m.value + Total(Holds, 0, run[p].th) == 1
    ensures forall i, j :: 0 <= i < j < |run[p].th| ==> !(run[p].th[i].Holding? && run[p].th[j].Holding?)
  {
    InvAlways(ByHolder, run, p);
    forall i, j | 0 <= i < j < |run[p].th|
      ensures Holds(0, run[p].th[i]) + Holds(0, run[p].th[j]) <= 1
    {
      TotalTwo(Holds, 0, run[p].th, i, j);
    }
  }

  /** Used as a lock, a down or a try takes it at once exactly if no thread holds it. Otherwise the down goes to
      sleep, and the try leaves everything as it was. */
  lemma TakesIfFree(run: seq<State>, p: nat, i: nat)
    requires IsRun(ByHolder, run) && p < |run| && i < |run[p].th| && !run[p].th[i].Holding? && !run[p].th[i].Asleep?
    ensures var s := run[p];
            var free := forall k :: 0 <= k < |s.th| ==> !s.th[k].Holding?;
            && Enabled(s, Down(i)) && Next(s, Down(i)).th == s.th[i := if free then Holding else Asleep]
            && (s.th[i].Idle? ==>
                  Enabled(s, TryDown(i)) && if free then Next(s, TryDown(i)).th == s.th[i := Holding] else Next(s, TryDown(i)) == s)
  {
    MutualExclusion(run, p);
    TotalZero(Holds, 0, run[p].th);
    assert forall k :: 0 <= k < |run[p].th| ==> (Holds(0, run[p].th[k]) == 0 <==> !run[p].th[k].Holding?);
  }

  /** Only its holder raising it implies raising it only from zero. */
  lemma HolderRaisesFromZero(run: seq<State>)
    requires IsRun(ByHolder, run)
    ensures IsRun(FromZero, run)
  {
    forall p | 0 < p < |run| ensures Follows(FromZero, run[p - 1], run[p]) {
      assert Follows(ByHolder, run[p - 1], run[p]);
      var step :| Allowed(ByHolder, run[p - 1], step) && run[p] == Next(run[p - 1], step);
      InvAlways(ByHolder, run, p - 1);
      if step.Up? {
        TotalPart(Holds, 0, run[p - 1].th, step.i);
      }
      assert Allowed(FromZero, run[p - 1], step);
    }
  }

  /** Raised only from zero, it never strands a sleeper: while it is up and a thread sleeps, a
      signalled thread is runnable, whoever barges in and whoever wakes without a signal. */
  lemma NoLostWakeUp(run: seq<State>, p: nat)
    requires IsRun(FromZero, run) && p < |run| && run[p].m.value > 0 && Asleep in run[p].th
    ensures Runnable in run[p].th
  {
    InvAlways(FromZero, run, p);
  }

  /** However it is used, a sleeper is stranded only after the value has gone above one. */
  lemma {:induction false} StrandedMeansTwo(run: seq<State>, p: nat)
    requires IsRun(Free, run) && p < |run|
    ensures (run[p].m.value <= 1 && Awake(run[p])) || exists q :: 0 <= q <= p && run[q].m.value > 1
  {
    InvAlways(Free, run, p);
    if p > 0 {
      StrandedMeansTwo(run, p - 1);
      InvAlways(Free, run, p - 1);
      if Inv(FromZero, run[p - 1]) {
        assert Follows(Free, run[p - 1], run[p]);
        var step :| Allowed(Free, run[p - 1], step) && run[p] == Next(run[p - 1], step);
        if step.Up? && run[p - 1].m.value > 0 {
          assert run[p].m.value > 1;
        } else {
          InvNext(FromZero, run[p - 1], step);
        }
      }
    }
  }

  /** Exactly one kind of step strands a sleeper: the last runnable waiter takes the semaphore while its
      value is above one. */
  lemma StrandingStep(s: State, step: Step)
    requires Inv(Free, s) && Awake(s) && Enabled(s, step)
    ensures !Awake(Next(s, step)) <==>
            && step.Down? && s.th[step.i].Runnable? && s.m.value > 1 && Asleep in s.th
            && forall j :: 0 <= j < |s.th| && j != step.i ==> !s.th[j].Runnable?
  {
    var s', i := Next(s, step), step.i;
    if Asleep in s.th {
      var k :| 0 <= k < |s.th| && s.th[k] == Asleep;
      TotalPart(Waits, 0, s.th, k);
      if step.Down? && s.th[i].Runnable? {
        assert s'.th[k] == Asleep;
        assert forall j :: 0 <= j < |s.th| && j != i ==> s'.th[j] == s.th[j];
      } else if step.Up? {
        assert Signals(s.m) ==> s'.th[step.k] == Runnable;
        RunnableStays(s, step);
      } else if step.Spurious? {
        assert s'.th[i] == Runnable;
      } else {
        RunnableStays(s, step);
      }
    } else {
      assert s'.m.value > 0 ==> Asleep !in s'.th;
    }
  }

  lemma RunnableStays(s: State, step: Step)
    requires Enabled(s, step) && !(step.Down? && s.th[step.i].Runnable?)
    ensures Runnable in s.th ==> Runnable in Next(s, step).th
  {
    if Runnable in s.th {
      var k :| 0 <= k < |s.th| && s.th[k] == Runnable;
      assert Next(s, step).th[k] == Runnable;
    }
  }

  /** Used as a lock, a sleeper always has a runnable thread or a holder to wait for. */
  lemma SleeperHasHope(run: seq<State>, p: nat)
    requires IsRun(ByHolder, run) && p < |run| && Asleep in run[p].th
    ensures Runnable in run[p].th || Holding in run[p].th
  {
    InvAlways(ByHolder, run, p);
    TotalZero(Holds, 0, run[p].th);
  }

  // ---- Raised from above zero ----

  lemma Goes(run: seq<State>, step: Step, s: State)
    requires IsRun(Free, run) && Enabled(run[|run| - 1], step) && s == Next(run[|run| - 1], step)
    ensures IsRun(Free, run + [s])
  {
    assert Allowed(Free, run[|run| - 1], step);
    assert Follows(Free, run[|run| - 1], s);
    forall p | 0 < p < |run + [s]| ensures Follows(Free, (run + [s])[p - 1], (run + [s])[p]) {
      if p < |run| {
        assert Follows(Free, run[p - 1], run[p]);
      }
    }
  }

  /** Two raises in a row with two threads asleep signal only once: the second sleeper stays asleep
      with the semaphore up and nobody left to signal it. */
  lemma LostWakeUp() returns (run: seq<State>)
    ensures IsRun(Free, run)
    ensures run[|run| - 1] == State(Sem(1, 1), [Holding, Asleep, Idle])
  {
    run := [State(Sem(0, 0), [Idle, Idle, Idle])];
    Goes(run, Down(0), State(Sem(0, 1), [Asleep, Idle, Idle]));
    run := run + [State(Sem(0, 1), [Asleep, Idle, Idle])];
    Goes(run, Down(1), State(Sem(0, 2), [Asleep, Asleep, Idle]));
    run := run + [State(Sem(0, 2), [Asleep, Asleep, Idle])];
    Goes(run, Up(2, 0), State(Sem(1, 2), [Runnable, Asleep, Idle]));
    run := run + [State(Sem(1, 2), [Runnable, Asleep, Idle])];
    Goes(run, Up(2, 1), State(Sem(2, 2), [Runnable, Asleep, Idle]));
    run := run + [State(Sem(2, 2), [Runnable, Asleep, Idle])];
    Goes(run, Down(0), State(Sem(1, 1), [Holding, Asleep, Idle]));
    run := run + [State(Sem(1, 1), [Holding, Asleep, Idle])];
  }
}
