/**
 Tickets: a thread that drops the busy count to zero holds one until it takes the flush lock. If no
 other section runs in between, the count is still zero then.
 */
module DoryGrain {
  import opened DoryMachine

  // ---- With an atomic decrement ----

  ghost predicate IsSteps(run: seq<State>, steps: seq<Step>)
  {
    && |run| == |steps| + 1 && Initial(run[0])
    && forall p :: 0 <= p < |steps| ==> Enabled(run[p], steps[p]) && run[p + 1] == Next(run[p], steps[p])
  }

  /** A thread that drops the busy count to zero runs its flush section next. */
  predicate Atomic(run: seq<State>, steps: seq<Step>)
    requires |run| == |steps| + 1
  {
    forall p :: 0 <= p < |steps| - 1 && steps[p].Run? && steps[p].i < |run[p + 1].th| && run[p + 1].th[steps[p].i].pc.Ticket? ==>
      steps[p + 1] == steps[p]
  }

  /** After step p, only the thread that just ran may be about to complete flushes, at zero. */
  predicate OneTicket(run: seq<State>, steps: seq<Step>, p: nat)
    requires |run| == |steps| + 1 && p < |run|
  {
    forall k :: 0 <= k < |run[p].th| && run[p].th[k].pc.Ticket? ==> p > 0 && steps[p - 1] == Run(k) && run[p].d.busy == 0
  }

  /** What a section can do to tickets. */
  predicate TicketMove(s: State, s': State, i: nat)
    requires i < |s.th|
  {
    forall k :: 0 <= k < |s'.th| && s'.th[k].pc.Ticket? ==>
      || (k != i && k < |s.th| && s.th[k].pc.Ticket?)
      || (k == i && s.th[i].pc.Dec? && s'.d.busy == 0)
  }

  lemma TicketCall(s: State, i: nat)
    requires CanRun(s, i) && InCall(s.th[i].pc)
    ensures TicketMove(s, RunCall(s, i), i)
  {
  }

  lemma TicketFlush(s: State, i: nat)
    requires CanRun(s, i) && InFlush(s.th[i].pc)
    ensures TicketMove(s, RunFlush(s, i), i)
  {
  }

  lemma TicketLists(s: State, i: nat)
    requires CanRun(s, i) && (s.th[i].pc.Hand? || s.th[i].pc.Then? || s.th[i].pc.Pop? || s.th[i].pc.Take?)
    ensures TicketMove(s, RunRest(s, i), i)
  {
    match s.th[i].pc
    case Hand(k, ready, flushes) =>
    case Then(k) =>
    case Pop =>
    case Take =>
  }

  lemma TicketEnds(s: State, i: nat)
    requires CanRun(s, i)
    requires s.th[i].pc.Flushes? || s.th[i].pc.Storage? || s.th[i].pc.Writing? || s.th[i].pc.EndLock?
    ensures TicketMove(s, RunRest(s, i), i)
  {
    match s.th[i].pc
    case Flushes(left) =>
    case Storage(b) =>
    case Writing(j) =>
    case EndLock(j) =>
  }

  lemma TicketRest(s: State, i: nat)
    requires CanRun(s, i) && !InCall(s.th[i].pc) && !InFlush(s.th[i].pc)
    ensures TicketMove(s, RunRest(s, i), i)
  {
    match s.th[i].pc
    case Dec(_) =>
    case Ticket(_) =>
    case Hand(_, _, _) => TicketLists(s, i);
    case Then(_) => TicketLists(s, i);
    case Pop => TicketLists(s, i);
    case Take => TicketLists(s, i);
    case _ => TicketEnds(s, i);
  }

  lemma TicketRun(s: State, i: nat)
    requires CanRun(s, i)
    ensures TicketMove(s, RunThread(s, i), i)
  {
    if InCall(s.th[i].pc) {
      TicketCall(s, i);
    } else if InFlush(s.th[i].pc) {
      TicketFlush(s, i);
    } else {
      TicketRest(s, i);
    }
  }

  /** What a step can do to tickets. */
  predicate TicketNext(s: State, s': State, step: Step)
  {
    if step.Run? then
      step.i < |s.th| && TicketMove(s, s', step.i)
    else
      forall k :: 0 <= k < |s'.th| && s'.th[k].pc.Ticket? ==> k < |s.th| && s.th[k].pc.Ticket?
  }

  lemma TicketOnStep(s: State, step: Step)
    requires Enabled(s, step)
    ensures TicketNext(s, Next(s, step), step)
  {
    if step.Run? {
      TicketRun(s, step.i);
    }
  }

  ghost predicate Tickets(run: seq<State>, steps: seq<Step>)
  {
    && |run| == |steps| + 1
    && forall p :: 0 <= p < |steps| ==> TicketNext(run[p], run[p + 1], steps[p])
  }

  lemma TicketsInSteps(run: seq<State>, steps: seq<Step>)
    requires IsSteps(run, steps)
    ensures Tickets(run, steps)
  {
    forall p | 0 <= p < |steps| ensures TicketNext(run[p], run[p + 1], steps[p]) {
      TicketOnStep(run[p], steps[p]);
    }
  }

  lemma {:induction false} OnlyTicket(run: seq<State>, steps: seq<Step>, p: nat)
    requires Tickets(run, steps) && Atomic(run, steps) && p < |run|
    requires forall k :: 0 <= k < |run[0].th| ==> !run[0].th[k].pc.Ticket?
    ensures OneTicket(run, steps, p)
  {
    if p > 0 {
      OnlyTicket(run, steps, p - 1);
      assert TicketNext(run[p - 1], run[p - 1 + 1], steps[p - 1]);
      forall k | 0 <= k < |run[p - 1].th| && run[p - 1].th[k].pc.Ticket? ensures steps[p - 1] == Run(k) {
        assert steps[p - 2] == Run(k);
      }
    }
  }

  /** With an atomic decrement, no flush ever completes while the busy count is not zero. */
  lemma NeverEarly(run: seq<State>, steps: seq<Step>, p: nat)
    requires IsSteps(run, steps) && Atomic(run, steps) && p < |run|
    ensures OneTicket(run, steps, p)
  {
    TicketsInSteps(run, steps);
    OnlyTicket(run, steps, p);
  }

  lemma StepsAreRuns(run: seq<State>, steps: seq<Step>)
    requires IsSteps(run, steps)
    ensures IsRun(run)
  {
    forall p | 0 < p < |run| ensures Follows(run[p - 1], run[p]) {
      assert Enabled(run[p - 1], steps[p - 1]) && run[p - 1 + 1] == Next(run[p - 1], steps[p - 1]);
    }
  }

  // ---- Where a ticket comes from ----

  /** Thread i dropped the busy count to zero in the step to state m and has its ticket since. */
  predicate TicketFrom(run: seq<State>, m: nat, p: nat, i: nat)
  {
    && 0 < m <= p < |run|
    && AtDec(run[m - 1], i)
    && forall q :: m <= q <= p ==> HasTicket(run[q], i)
  }

  lemma TicketStep(s: State, s': State, i: nat)
    requires Follows(s, s') && i < |s'.th| && s'.th[i].pc.Ticket?
    ensures i < |s.th| && (s.th[i].pc.Ticket? || (s.th[i].pc.Dec? && s'.d.busy == 0))
  {
    var step :| Enabled(s, step) && s' == Next(s, step);
    if step.Run? {
      TicketRun(s, step.i);
    }
  }

  predicate HasTicket(s: State, i: nat) { i < |s.th| && s.th[i].pc.Ticket? }

  predicate AtDec(s: State, i: nat) { i < |s.th| && s.th[i].pc.Dec? }

  /** Whoever has a ticket had it before or has just dropped the count to zero. */
  predicate Issued(run: seq<State>, i: nat)
  {
    forall q :: 0 <= q < |run| && HasTicket(run[q], i) ==>
      q > 0 && (HasTicket(run[q - 1], i) || (AtDec(run[q - 1], i) && run[q].d.busy == 0))
  }

  lemma IssuedInRun(run: seq<State>, i: nat)
    requires IsRun(run)
    ensures Issued(run, i)
  {
    forall q | 0 < q < |run| && HasTicket(run[q], i)
      ensures HasTicket(run[q - 1], i) || (AtDec(run[q - 1], i) && run[q].d.busy == 0)
    {
      assert Follows(run[q - 1], run[q]);
      TicketStep(run[q - 1], run[q], i);
    }
  }

  lemma {:induction false} TraceTicket(run: seq<State>, p: nat, i: nat) returns (m: nat)
    requires Issued(run, i) && p < |run| && HasTicket(run[p], i)
    ensures TicketFrom(run, m, p, i) && run[m].d.busy == 0
  {
    m := p;
    if HasTicket(run[p - 1], i) {
      m := TraceTicket(run, p - 1, i);
    }
  }

  /** Every ticket comes from a decrement to zero. */
  lemma TicketHas(run: seq<State>, p: nat, i: nat) returns (m: nat)
    requires IsRun(run) && p < |run| && HasTicket(run[p], i)
    ensures TicketFrom(run, m, p, i) && run[m].d.busy == 0
  {
    IssuedInRun(run, i);
    m := TraceTicket(run, p, i);
  }
}
