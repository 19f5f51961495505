/**
 The resource limiter of the flush-nop device: threads take one unit at a time, sleep in a queue
 when none is left, and are woken by threads that give units back. A step is one section under the
 spin lock, the look at the queue that follows a release, or the waking of one sleeper.
 */
module Limiter {
  import opened Sums

  // ---- The limiter itself ----

  datatype Counts = Counts(active: int, limit: nat, maximum: int)

  predicate Exhausted(c: Counts) { c.active >= c.limit }

  function Acquired(c: Counts): Counts
  {
    Counts(c.active + 1, c.limit, if c.active + 1 > c.maximum then c.active + 1 else c.maximum)
  }

  function Released(c: Counts, count: nat): Counts { c.(active := c.active - count) }

  class LimiterObject {
    var active: int
    const limit: nat
    var maximum: int
    var queue: seq<nat>

    ghost function View(): Counts
      reads this
    {
      Counts(active, limit, maximum)
    }

    constructor (limit: nat)
      ensures View() == Counts(0, limit, 0) && queue == []
    {
      this.limit := limit;
      active, maximum, queue := 0, 0, [];
    }

    /** One turn of the loop in limiterWaitForOneFree: thread i takes a unit or joins the queue. */
    method TakeOrQueue(i: nat) returns (taken: bool)
      modifies this
      ensures taken == !Exhausted(old(View()))
      ensures View() == if taken then Acquired(old(View())) else old(View())
      ensures queue == if taken then old(queue) else old(queue) + [i]
    {
      if active >= limit {
        queue := queue + [i];
        return false;
      }
      active := active + 1;
      if active > maximum {
        maximum := active;
      }
      return true;
    }

    /** limiterReleaseMany: give units back, then take the threads to wake off the queue. */
    method ReleaseMany(count: nat) returns (woken: seq<nat>)
      modifies this
      ensures View() == Released(old(View()), count)
      ensures old(queue) == woken + queue
      ensures |woken| == if count == 0 || count > |old(queue)| then |old(queue)| else count
    {
      active := active - count;
      woken := [];
      if queue != [] {
        var left: int := count;
        while queue != []
          invariant View() == Released(old(View()), count)
          invariant old(queue) == woken + queue
          invariant left == count - |woken| && (left > 0 || count == 0)
          decreases |queue|
        {
          woken, queue := woken + [queue[0]], queue[1..];
          left := left - 1;
          if left == 0 {
            break;
          }
        }
      }
    }
  }

  // ---- Any number of threads ----

  /** `Releasing(n)` has given n units back but not yet looked at the queue; `Waking(n)` is waking
      sleepers, n more of them, or all of them when n is 0. */
  datatype Pc = Running | Queued | Woken | Releasing(n: nat) | Waking(n: nat)

  datatype Thread = Thread(pc: Pc, held: nat)

  datatype State = State(c: Counts, queue: seq<nat>, th: seq<Thread>)

  datatype Step = Take(i: nat) | Release(i: nat, n: nat) | Look(i: nat) | WakeOne(i: nat)

  predicate Enabled(s: State, step: Step)
  {
    && step.i < |s.th|
    && var t := s.th[step.i];
       match step
       case Take(_) => t.pc.Running? || t.pc.Woken?
       case Release(_, n) => t.pc.Running? && n <= t.held
       case Look(_) => t.pc.Releasing?
       case WakeOne(_) => t.pc.Waking? && (s.queue != [] ==> s.queue[0] < |s.th|)
  }

  function Put(s: State, i: nat, t: Thread): State
    requires i < |s.th|
  {
    s.(th := s.th[i := t])
  }

  function Rest(n: nat): Pc { if n == 1 then Running else Waking(if n == 0 then 0 else n - 1) }

  function Next(s: State, step: Step): State
    requires Enabled(s, step)
  {
    var i := step.i;
    var t := s.th[i];
    match step
    case Take(_) =>
      if Exhausted(s.c) then Put(s.(queue := s.queue + [i]), i, t.(pc := Queued))
      else Put(s.(c := Acquired(s.c)), i, Thread(Running, t.held + 1))
    case Release(_, n) => Put(s.(c := Released(s.c, n)), i, Thread(Releasing(n), t.held - n))
    case Look(_) => Put(s, i, t.(pc := if s.queue == [] then Running else Waking(t.pc.n)))
    case WakeOne(_) =>
      if s.queue == [] then Put(s, i, t.(pc := Running))
      else
        var first := s.queue[0];
        State(s.c, s.queue[1..], s.th[i := t.(pc := Rest(t.pc.n))][first := s.th[first].(pc := Woken)])
  }

  predicate Initial(s: State)
  {
    && s.c.active == 0 && s.c.maximum == 0 && s.queue == []
    && forall i :: 0 <= i < |s.th| ==> s.th[i] == Thread(Running, 0)
  }

  ghost predicate Follows(s: State, s': State)
  {
    exists step :: Enabled(s, step) && s' == Next(s, step)
  }

  ghost predicate IsRun(run: seq<State>)
  {
    && run != [] && Initial(run[0])
    && forall p :: 0 < p < |run| ==> Follows(run[p - 1], run[p])
  }

  // ---- What every step keeps ----

  function Held(n: nat, t: Thread): nat { t.held }

  /** The wake-ups a thread stands for: one if it was woken and has not run yet, and those it is
      still about to deliver. */
  function WakeUps(n: nat, t: Thread): nat
  {
    match t.pc
    case Woken => 1
    case Releasing(k) => k
    case Waking(k) => k
    case _ => 0
  }

  predicate Sleeps(s: State, i: nat)
    requires i < |s.th|
  {
    Count(s.queue, i) == if s.th[i].pc.Queued? then 1 else 0
  }

  predicate Inv(s: State)
  {
    && s.c.active == Total(Held, 0, s.th) <= s.c.limit
    && s.c.active <= s.c.maximum <= s.c.limit
    && (forall p :: 0 <= p < |s.queue| ==> s.queue[p] < |s.th|)
    && (forall i :: 0 <= i < |s.th| ==> Sleeps(s, i))
    && (s.queue != [] ==> Total(WakeUps, 0, s.th) >= s.c.limit - s.c.active)
  }

  lemma Tallies(th: seq<Thread>, i: nat, t: Thread)
    requires i < |th|
    ensures Total(Held, 0, th[i := t]) + th[i].held == Total(Held, 0, th) + t.held
    ensures Total(WakeUps, 0, th[i := t]) + WakeUps(0, th[i]) == Total(WakeUps, 0, th) + WakeUps(0, t)
    ensures th[i].held <= Total(Held, 0, th)
  {
    TotalAt(Held, 0, th, i, t);
    TotalAt(WakeUps, 0, th, i, t);
    TotalPart(Held, 0, th, i);
  }

  lemma QueueNext(s: State, i: nat)
    requires Inv(s) && i < |s.th| && !s.th[i].pc.Queued? && Exhausted(s.c)
    ensures Inv(Put(s.(queue := s.queue + [i]), i, s.th[i].(pc := Queued)))
  {
    var s' := Put(s.(queue := s.queue + [i]), i, s.th[i].(pc := Queued));
    Tallies(s.th, i, s'.th[i]);
    forall k | 0 <= k < |s.th| ensures Sleeps(s', k) {
      assert Sleeps(s, k);
      CountCat(s.queue, [i], k);
      CountOne(i, k);
    }
  }

  lemma PlainNext(s: State, step: Step)
    requires Inv(s) && Enabled(s, step)
    requires step.Take? ==> !Exhausted(s.c)
    requires step.WakeOne? ==> s.queue == []
    ensures Inv(Next(s, step))
  {
    var s' := Next(s, step);
    Tallies(s.th, step.i, s'.th[step.i]);
    forall k | 0 <= k < |s.th| ensures Sleeps(s', k) {
      assert Sleeps(s, k);
    }
  }

  lemma WakeNext(s: State, i: nat)
    requires Inv(s) && Enabled(s, WakeOne(i)) && s.queue != []
    ensures Inv(Next(s, WakeOne(i)))
  {
    var s' := Next(s, WakeOne(i));
    var first := s.queue[0];
    var t := s.th[i].(pc := Rest(s.th[i].pc.n));
    assert Sleeps(s, i) && Sleeps(s, first);
    CountFirst(s.queue, first);
    Tallies(s.th, i, t);
    Tallies(s.th[i := t], first, s'.th[first]);
    forall k | 0 <= k < |s.th| ensures Sleeps(s', k) {
      assert Sleeps(s, k);
      CountFirst(s.queue, k);
    }
  }

  lemma InvNext(s: State, step: Step)
    requires Inv(s) && Enabled(s, step)
    ensures Inv(Next(s, step))
  {
    if step.Take? && Exhausted(s.c) {
      QueueNext(s, step.i);
    } else if step.WakeOne? && s.queue != [] {
      WakeNext(s, step.i);
    } else {
      PlainNext(s, step);
    }
  }

  lemma {:induction false} InvAlways(run: seq<State>, p: nat)
    requires IsRun(run) && p < |run|
    ensures Inv(run[p])
  {
    if p == 0 {
      TotalZero(Held, 0, run[0].th);
    } else {
      InvAlways(run, p - 1);
      assert Follows(run[p - 1], run[p]);
      var step :| Enabled(run[p - 1], step) && run[p] == Next(run[p - 1], step);
      InvNext(run[p - 1], step);
    }
  }

  // ---- What the limiter promises ----

  /** The count of active units is what the threads hold together, and never exceeds the limit. */
  lemma Bounded(run: seq<State>, p: nat)
    requires IsRun(run) && p < |run|
    ensures run[p].c.active == Total(Held, 0, run[p].th)
    ensures 0 <= run[p].c.active <= run[p].c.limit
  {
    InvAlways(run, p);
  }

  /** The recorded maximum is the peak of the active count over the run so far. */
  lemma {:induction false} Peak(run: seq<State>, p: nat)
    requires IsRun(run) && p < |run|
    ensures forall q :: 0 <= q <= p ==> run[q].c.active <= run[p].c.maximum
    ensures exists q :: 0 <= q <= p && run[q].c.active == run[p].c.maximum
  {
    if p > 0 {
      Peak(run, p - 1);
      assert Follows(run[p - 1], run[p]);
      var q :| 0 <= q <= p - 1 && run[q].c.active == run[p - 1].c.maximum;
      if run[p].c.maximum != run[p - 1].c.maximum {
        assert run[p].c.active == run[p].c.maximum;
      } else {
        assert run[q].c.active == run[p].c.maximum;
      }
      InvAlways(run, p);
    }
  }

  /** No free unit is stranded: while a thread sleeps, the woken threads that have not run and the
      wake-ups still to be delivered number at least the free units. */
  lemma NoneStranded(run: seq<State>, p: nat, i: nat)
    requires IsRun(run) && p < |run| && i < |run[p].th| && run[p].th[i].pc.Queued?
    ensures Total(WakeUps, 0, run[p].th) >= run[p].c.limit - run[p].c.active
  {
    InvAlways(run, p);
    assert Sleeps(run[p], i);
    CountIff(run[p].queue, i);
  }

  /** While a thread sleeps, either some thread is woken or owes a wake-up, or every unit is held. */
  lemma SleepsForAReason(run: seq<State>, p: nat, i: nat)
    requires IsRun(run) && p < |run| && i < |run[p].th| && run[p].th[i].pc.Queued?
    ensures || (exists k :: 0 <= k < |run[p].th| && WakeUps(0, run[p].th[k]) > 0)
            || Total(Held, 0, run[p].th) == run[p].c.limit
  {
    NoneStranded(run, p, i);
    Bounded(run, p);
    TotalZero(WakeUps, 0, run[p].th);
  }
}
