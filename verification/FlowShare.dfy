/**
 fio's flow groups: jobs that share one flow counter and issue I/O in proportion to their weights.
 A step is one access to the shared state. The ratios are compared exactly, as products of integers.
 */
module FlowShare {
  import opened Sums

  /** Where a job is in its call: `Joining` has the group but not yet added its weight; `Loaded`
      has read the group's counter; `Passed` found its ratio low enough; `Counted` has added to the
      group's counter but not yet to its own; the last two have taken their count, and then their
      weight, out of the group. */
  datatype Pc = Out | Joining | Ready | Loaded(f: int) | Passed | Counted | Uncounted | Unweighted

  datatype Job = Job(pc: Pc, weight: nat, count: nat)

  /** `live` says that the group exists; it is created by the first job and freed by the last. */
  datatype State = State(live: bool, refs: int, counter: int, total: int, jobs: seq<Job>)

  datatype Step =
    | Join(i: nat)
    | AddWeight(i: nat)
    | Load(i: nat)
    | Decide(i: nat)
    | CountGroup(i: nat)
    | CountOwn(i: nat)
    | Leave(i: nat)
    | SubWeight(i: nat)
    | Drop(i: nat)

  predicate Enabled(s: State, step: Step)
  {
    && step.i < |s.jobs|
    && var j := s.jobs[step.i];
       match step
       case Join(_) => j.pc.Out? && j.weight > 0
       case AddWeight(_) => j.pc.Joining?
       case Load(_) => j.pc.Ready?
       case Decide(_) => j.pc.Loaded?
       case CountGroup(_) => j.pc.Passed?
       case CountOwn(_) => j.pc.Counted?
       case Leave(_) => j.pc.Ready?
       case SubWeight(_) => j.pc.Uncounted?
       case Drop(_) => j.pc.Unweighted?
  }

  /** count / f > weight / total, without the divisions. */
  predicate Exceeded(j: Job, f: int, total: int) { j.count * total > j.weight * f }

  function At(s: State, i: nat, j: Job): State
    requires i < |s.jobs|
  {
    s.(jobs := s.jobs[i := j])
  }

  function Next(s: State, step: Step): State
    requires Enabled(s, step)
  {
    var i := step.i;
    var j := s.jobs[i];
    match step
    case Join(_) =>
      State(true, if s.live then s.refs + 1 else 1, if s.live then s.counter else 1,
            if s.live then s.total else 0, s.jobs[i := Job(Joining, j.weight, 0)])
    case AddWeight(_) => At(s.(total := s.total + j.weight), i, j.(pc := Ready))
    case Load(_) => At(s, i, j.(pc := Loaded(s.counter)))
    case Decide(_) => At(s, i, j.(pc := if Exceeded(j, j.pc.f, s.total) then Ready else Passed))
    case CountGroup(_) => At(s.(counter := s.counter + 1), i, j.(pc := Counted))
    case CountOwn(_) => At(s, i, j.(pc := Ready, count := j.count + 1))
    case Leave(_) => At(s.(counter := s.counter - j.count), i, j.(pc := Uncounted))
    case SubWeight(_) => At(s.(total := s.total - j.weight), i, j.(pc := Unweighted))
    case Drop(_) => At(s.(live := s.refs - 1 != 0, refs := s.refs - 1), i, j.(pc := Out))
  }

  /** All three steps of flow_put together. */
  function Left(s: State, i: nat): State
    requires i < |s.jobs| && s.jobs[i].pc.Ready?
  {
    Next(Next(Next(s, Leave(i)), SubWeight(i)), Drop(i))
  }

  lemma LeftShape(s: State, i: nat)
    requires i < |s.jobs| && s.jobs[i].pc.Ready?
    ensures var j := s.jobs[i];
            Left(s, i) == State(s.refs - 1 != 0, s.refs - 1, s.counter - j.count, s.total - j.weight,
                                s.jobs[i := j.(pc := Out)])
  {
    var j := s.jobs[i];
    assert s.jobs[i := j.(pc := Uncounted)][i := j.(pc := Unweighted)][i := j.(pc := Out)] == s.jobs[i := j.(pc := Out)];
  }

  predicate Initial(s: State)
  {
    !s.live && s.refs == 0 && s.total == 0 && forall i :: 0 <= i < |s.jobs| ==> s.jobs[i].pc.Out?
  }

  ghost predicate Follows(s: State, s': State)
  {
    exists step :: Enabled(s, step) && s' == Next(s, step)
  }

  ghost predicate IsRun(run: seq<State>)
  {
    && run != [] && Initial(run[0])
    && forall p :: 0 < p < |run| ==> Follows(run[p - 1], run[p])
  }

  // ---- The sums behind the group's three numbers ----

  predicate InGroup(j: Job) { j.pc.Ready? || j.pc.Loaded? || j.pc.Passed? || j.pc.Counted? }

  function Member(n: nat, j: Job): nat { if j.pc.Out? then 0 else 1 }

  function Weight(n: nat, j: Job): nat { if InGroup(j) || j.pc.Uncounted? then j.weight else 0 }

  /** A job's count, with the increment it has in progress. */
  function Share(n: nat, j: Job): nat
  {
    if !InGroup(j) then 0 else if j.pc.Counted? then j.count + 1 else j.count
  }

  predicate JobOk(j: Job)
  {
    && (!j.pc.Out? ==> j.weight > 0)
    && (j.pc.Joining? ==> j.count == 0)
    && (j.pc.Loaded? ==> j.pc.f > 0)
  }

  predicate Inv(s: State)
  {
    && s.refs == Total(Member, 0, s.jobs)
    && s.total == Total(Weight, 0, s.jobs)
    && (s.live <==> s.refs > 0)
    && (s.live ==> s.counter == 1 + Total(Share, 0, s.jobs))
    && (forall i :: 0 <= i < |s.jobs| ==> JobOk(s.jobs[i]))
  }

  lemma Tallies(s: State, i: nat, j: Job)
    requires i < |s.jobs|
    ensures Total(Member, 0, s.jobs[i := j]) + Member(0, s.jobs[i]) == Total(Member, 0, s.jobs) + Member(0, j)
    ensures Total(Weight, 0, s.jobs[i := j]) + Weight(0, s.jobs[i]) == Total(Weight, 0, s.jobs) + Weight(0, j)
    ensures Total(Share, 0, s.jobs[i := j]) + Share(0, s.jobs[i]) == Total(Share, 0, s.jobs) + Share(0, j)
    ensures Member(0, s.jobs[i]) <= Total(Member, 0, s.jobs)
  {
    TotalAt(Member, 0, s.jobs, i, j);
    TotalAt(Weight, 0, s.jobs, i, j);
    TotalAt(Share, 0, s.jobs, i, j);
    TotalPart(Member, 0, s.jobs, i);
  }

  /** Without members there is no weight and no share. */
  lemma NoMembers(jobs: seq<Job>)
    requires Total(Member, 0, jobs) == 0
    ensures Total(Weight, 0, jobs) == 0 && Total(Share, 0, jobs) == 0
  {
    TotalZero(Member, 0, jobs);
    forall i | 0 <= i < |jobs| ensures jobs[i].pc.Out? {
      assert Member(0, jobs[i]) == 0;
    }
    TotalZero(Weight, 0, jobs);
    TotalZero(Share, 0, jobs);
  }

  lemma InvNext(s: State, step: Step)
    requires Inv(s) && Enabled(s, step)
    ensures Inv(Next(s, step))
  {
    var s' := Next(s, step);
    var i := step.i;
    Tallies(s, i, s'.jobs[i]);
    assert JobOk(s.jobs[i]);
    if !s.live {
      NoMembers(s.jobs);
    }
  }

  lemma {:induction false} InvAlways(run: seq<State>, p: nat)
    requires IsRun(run) && p < |run|
    ensures Inv(run[p])
  {
    if p == 0 {
      TotalZero(Member, 0, run[0].jobs);
      NoMembers(run[0].jobs);
    } else {
      InvAlways(run, p - 1);
      assert Follows(run[p - 1], run[p]);
      var step :| Enabled(run[p - 1], step) && run[p] == Next(run[p - 1], step);
      InvNext(run[p - 1], step);
    }
  }

  // ---- What the counters promise ----

  /** Conservation: the group's counter is one more than what its jobs have counted and are about
      to count, over all joins and exits. */
  lemma CounterExact(run: seq<State>, p: nat)
    requires IsRun(run) && p < |run| && run[p].live
    ensures run[p].counter == 1 + Total(Share, 0, run[p].jobs)
    ensures run[p].total == Total(Weight, 0, run[p].jobs)
    ensures run[p].refs == Total(Member, 0, run[p].jobs)
  {
    InvAlways(run, p);
  }

  /** The assertion of flow_put: when the last job drops the group, its counter is back to one. */
  lemma LastPut(run: seq<State>, p: nat, i: nat)
    requires IsRun(run) && p < |run| && i < |run[p].jobs|
    requires run[p].jobs[i].pc.Unweighted? && run[p].refs - 1 == 0
    ensures run[p].live && run[p].counter == 1 && run[p].total == 0
  {
    var s := run[p];
    InvAlways(run, p);
    Tallies(s, i, s.jobs[i].(pc := Out));
    NoMembers(s.jobs[i := s.jobs[i].(pc := Out)]);
  }

  /** The last job to leave takes all of the counter but one, and all of the weight. */
  lemma LastLeaves(s: State, i: nat)
    requires Inv(s) && s.refs == 1 && i < |s.jobs| && s.jobs[i].pc.Ready?
    ensures s.counter == 1 + s.jobs[i].count && s.total == s.jobs[i].weight
  {
    Tallies(s, i, s.jobs[i].(pc := Out));
    NoMembers(s.jobs[i := s.jobs[i].(pc := Out)]);
  }

  /** Neither division of the check is ever by zero. */
  lemma Divisors(run: seq<State>, p: nat, i: nat)
    requires IsRun(run) && p < |run| && i < |run[p].jobs| && run[p].jobs[i].pc.Loaded?
    ensures run[p].jobs[i].pc.f > 0 && run[p].total > 0
  {
    var s := run[p];
    InvAlways(run, p);
    assert JobOk(s.jobs[i]);
    TotalPart(Weight, 0, s.jobs, i);
  }

  // ---- Proportional share ----

  /** share <= weight * f / total + slack, without the division. */
  predicate Within(share: int, weight: int, slack: int, f: int, total: int)
  {
    share * total <= weight * f + slack * total
  }

  lemma WithinAdd(a: int, b: int, c: int, a': int, b': int, c': int, f: int, total: int)
    requires Within(a, b, c, f, total) && Within(a', b', c', f, total)
    ensures Within(a + a', b + b', c + c', f, total)
  {
    assert (a + a') * total == a * total + a' * total;
    assert (b + b') * f == b * f + b' * f;
    assert (c + c') * total == c * total + c' * total;
  }

  lemma WithinGrows(share: int, weight: nat, slack: int, f: int, f': int, total: int)
    requires Within(share, weight, slack, f, total) && f <= f'
    ensures Within(share, weight, slack, f', total)
  {
    assert weight * (f' - f) >= 0;
    assert weight * f' == weight * f + weight * (f' - f);
  }

  predicate JobFair(j: Job, f: int, total: int)
  {
    && Within(Share(0, j), Weight(0, j), Member(0, j), f, total)
    && (j.pc.Passed? ==> Within(j.count, j.weight, 0, f, total))
    && (j.pc.Loaded? ==> j.pc.f <= f)
  }

  predicate Fair(s: State)
  {
    forall i :: 0 <= i < |s.jobs| ==> JobFair(s.jobs[i], s.counter, s.total)
  }

  predicate IssueStep(step: Step) { step.Load? || step.Decide? || step.CountGroup? || step.CountOwn? }

  ghost predicate Issues(s: State, s': State)
  {
    exists step :: IssueStep(step) && Enabled(s, step) && s' == Next(s, step)
  }

  /** From state a to state p nobody joins or leaves. */
  ghost predicate FixedFrom(run: seq<State>, a: nat, p: nat)
  {
    a <= p < |run| && forall q :: a < q <= p ==> Issues(run[q - 1], run[q])
  }

  lemma JobFairGrows(j: Job, f: int, f': int, total: int)
    requires JobFair(j, f, total) && f <= f'
    ensures JobFair(j, f', total)
  {
    WithinGrows(Share(0, j), Weight(0, j), Member(0, j), f, f', total);
    if j.pc.Passed? {
      WithinGrows(j.count, j.weight, 0, f, f', total);
    }
  }

  lemma Passing(j: Job, f: int, total: int)
    requires JobFair(j, f, total) && j.pc.Loaded? && !Exceeded(j, j.pc.f, total)
    ensures JobFair(j.(pc := Passed), f, total)
  {
    WithinGrows(j.count, j.weight, 0, j.pc.f, f, total);
  }

  lemma Counting(j: Job, f: int, total: int)
    requires JobFair(j, f, total) && j.pc.Passed?
    ensures JobFair(j.(pc := Counted), f + 1, total)
  {
    WithinAdd(j.count, j.weight, 0, 1, 0, 1, f, total);
    WithinGrows(j.count + 1, j.weight, 1, f, f + 1, total);
  }

  lemma FairNext(s: State, step: Step)
    requires Fair(s) && IssueStep(step) && Enabled(s, step)
    ensures Fair(Next(s, step)) && Next(s, step).total == s.total
  {
    var s' := Next(s, step);
    var i := step.i;
    var j, j' := s.jobs[i], s'.jobs[i];
    assert JobFair(j, s.counter, s.total);
    if step.Decide? && j'.pc.Passed? {
      Passing(j, s.counter, s.total);
    } else if step.CountGroup? {
      Counting(j, s.counter, s.total);
    }
    assert JobFair(j', s'.counter, s.total);
    forall k | 0 <= k < |s'.jobs| && k != i ensures JobFair(s'.jobs[k], s'.counter, s.total) {
      assert JobFair(s.jobs[k], s.counter, s.total);
      JobFairGrows(s.jobs[k], s.counter, s'.counter, s.total);
    }
  }

  lemma {:induction false} FairAlways(run: seq<State>, a: nat, p: nat)
    requires IsRun(run) && FixedFrom(run, a, p)
    requires Fair(run[a])
    ensures Fair(run[p])
  {
    if a < p {
      FairAlways(run, a, p - 1);
      assert Issues(run[p - 1], run[p]);
      var step :| IssueStep(step) && Enabled(run[p - 1], step) && run[p] == Next(run[p - 1], step);
      FairNext(run[p - 1], step);
    }
  }

  lemma {:induction false} SumWithin(jobs: seq<Job>, f: int, total: int)
    requires forall i :: 0 <= i < |jobs| ==> JobFair(jobs[i], f, total)
    ensures Within(Total(Share, 0, jobs), Total(Weight, 0, jobs), Total(Member, 0, jobs), f, total)
  {
    if jobs != [] {
      var last := |jobs| - 1;
      SumWithin(jobs[..last], f, total);
      WithinAdd(Total(Share, 0, jobs[..last]), Total(Weight, 0, jobs[..last]), Total(Member, 0, jobs[..last]),
                Share(0, jobs[last]), Weight(0, jobs[last]), Member(0, jobs[last]), f, total);
    }
  }

  /** The arithmetic of the lower bound: what the others leave over. */
  lemma LeftOver(share: int, others: int, weight: int, rest: int, slack: int, f: int, total: int)
    requires share + others == f - 1 && weight + rest == total
    requires Within(others, rest, slack, f, total)
    ensures weight * f <= (share + slack + 1) * total
  {
    assert others * total == (f - 1 - share) * total == f * total - total - share * total;
    assert rest * f == (total - weight) * f == total * f - weight * f;
    assert (share + slack + 1) * total == share * total + slack * total + total;
  }

  /** Proportional share. While membership is fixed, starting from counts that are fair (all zero,
      for instance), every member's count stays within one above, and as many below as the group has
      members, of its exact share of the group's counter. */
  lemma Proportional(run: seq<State>, a: nat, p: nat, i: nat)
    requires IsRun(run) && FixedFrom(run, a, p)
    requires Fair(run[a])
    requires i < |run[p].jobs| && InGroup(run[p].jobs[i]) && run[p].live
    ensures var s := run[p]; var j := s.jobs[i];
            && Share(0, j) * s.total <= j.weight * s.counter + s.total
            && j.weight * s.counter <= (Share(0, j) + s.refs) * s.total
  {
    var s := run[p];
    InvAlways(run, p);
    FairAlways(run, a, p);
    assert JobFair(s.jobs[i], s.counter, s.total);
    var none := s.jobs[i].(pc := Out);
    var others := s.jobs[i := none];
    Tallies(s, i, none);
    forall k | 0 <= k < |others| ensures JobFair(others[k], s.counter, s.total) {
      assert JobFair(s.jobs[k], s.counter, s.total);
    }
    SumWithin(others, s.counter, s.total);
    LeftOver(Share(0, s.jobs[i]), Total(Share, 0, others), s.jobs[i].weight, Total(Weight, 0, others),
             Total(Member, 0, others), s.counter, s.total);
  }

  lemma FreshJob(j: Job, f: nat, total: nat)
    requires j.pc.Out? || (j.pc.Ready? && j.count == 0)
    ensures JobFair(j, f, total)
  {
    assert Weight(0, j) * f >= 0;
    assert Member(0, j) * total >= 0;
  }

  /** A group in which every job is out, or idle with a count of zero, is fair. */
  lemma FreshIsFair(run: seq<State>, a: nat)
    requires IsRun(run) && a < |run| && run[a].live
    requires forall k :: 0 <= k < |run[a].jobs| ==>
               run[a].jobs[k].pc.Out? || (run[a].jobs[k].pc.Ready? && run[a].jobs[k].count == 0)
    ensures Fair(run[a])
  {
    InvAlways(run, a);
    forall k | 0 <= k < |run[a].jobs| ensures JobFair(run[a].jobs[k], run[a].counter, run[a].total) {
      FreshJob(run[a].jobs[k], run[a].counter, run[a].total);
    }
  }

  // ---- From any counts ----

  /** A job that has read the counter and not yet counted may still count by what it read. */
  function Pending(j: Job): nat { if j.pc.Loaded? || j.pc.Passed? then 1 else 0 }

  /** The job is within its share, or it has not gone beyond `cap`. */
  predicate Tame(j: Job, cap: nat, f: int, total: int)
  {
    || JobFair(j, f, total)
    || (&& Share(0, j) <= cap
        && (j.pc.Loaded? ==> j.pc.f <= f || Share(0, j) < cap)
        && (j.pc.Passed? ==> Within(j.count, j.weight, 0, f, total) || Share(0, j) < cap))
  }

  lemma TameGrows(j: Job, cap: nat, f: int, f': int, total: int)
    requires Tame(j, cap, f, total) && f <= f'
    ensures Tame(j, cap, f', total)
  {
    if JobFair(j, f, total) {
      JobFairGrows(j, f, f', total);
    } else if j.pc.Passed? && Within(j.count, j.weight, 0, f, total) {
      WithinGrows(j.count, j.weight, 0, f, f', total);
    }
  }

  lemma TamePasses(j: Job, cap: nat, f: int, total: int)
    requires Tame(j, cap, f, total) && j.pc.Loaded? && !Exceeded(j, j.pc.f, total)
    ensures Tame(j.(pc := Passed), cap, f, total)
  {
    if JobFair(j, f, total) {
      Passing(j, f, total);
    } else if j.pc.f <= f {
      WithinGrows(j.count, j.weight, 0, j.pc.f, f, total);
    }
  }

  lemma TameCounts(j: Job, cap: nat, f: int, total: int)
    requires Tame(j, cap, f, total) && j.pc.Passed?
    ensures Tame(j.(pc := Counted), cap, f + 1, total)
  {
    if Within(j.count, j.weight, 0, f, total) {
      WithinAdd(j.count, j.weight, 0, 1, 0, 1, f, total);
      WithinGrows(j.count + 1, j.weight, 1, f, f + 1, total);
    }
  }

  lemma TameNext(s: State, step: Step, i: nat, cap: nat)
    requires IssueStep(step) && Enabled(s, step) && i < |s.jobs| && Tame(s.jobs[i], cap, s.counter, s.total)
    ensures var s' := Next(s, step); i < |s'.jobs| && Tame(s'.jobs[i], cap, s'.counter, s'.total)
  {
    var s' := Next(s, step);
    var j, j' := s.jobs[i], s'.jobs[i];
    if step.i != i {
      TameGrows(j, cap, s.counter, s'.counter, s.total);
    } else if step.Decide? && j'.pc.Passed? {
      TamePasses(j, cap, s.counter, s.total);
    } else if step.CountGroup? {
      TameCounts(j, cap, s.counter, s.total);
    }
  }

  lemma {:induction false} TameAlways(run: seq<State>, a: nat, p: nat, i: nat)
    requires FixedFrom(run, a, p) && i < |run[a].jobs|
    ensures i < |run[p].jobs|
    ensures Tame(run[p].jobs[i], Share(0, run[a].jobs[i]) + Pending(run[a].jobs[i]), run[p].counter, run[p].total)
  {
    if a < p {
      TameAlways(run, a, p - 1, i);
      assert Issues(run[p - 1], run[p]);
      var step :| IssueStep(step) && Enabled(run[p - 1], step) && run[p] == Next(run[p - 1], step);
      TameNext(run[p - 1], step, i, Share(0, run[a].jobs[i]) + Pending(run[a].jobs[i]));
    }
  }

  /** While membership is fixed, whatever the counts were at state a: a job has counted no more since,
      but for the check it was in, or it is within one above its exact share. */
  lemma Settles(run: seq<State>, a: nat, p: nat, i: nat)
    requires IsRun(run) && FixedFrom(run, a, p) && i < |run[a].jobs| && i < |run[p].jobs| && InGroup(run[p].jobs[i])
    ensures var s, j := run[p], run[p].jobs[i];
            || Share(0, j) <= Share(0, run[a].jobs[i]) + Pending(run[a].jobs[i])
            || Share(0, j) * s.total <= j.weight * s.counter + s.total
  {
    TameAlways(run, a, p, i);
  }

  // ---- The group never stalls ----

  predicate WouldPass(s: State, i: nat)
    requires i < |s.jobs|
  {
    InGroup(s.jobs[i]) && !Exceeded(s.jobs[i], s.counter, s.total)
  }

  lemma {:induction false} SumExceeds(jobs: seq<Job>, f: int, total: int)
    requires f >= 0 && total >= 0
    requires forall i :: 0 <= i < |jobs| && InGroup(jobs[i]) ==> Exceeded(jobs[i], f, total)
    requires forall i :: 0 <= i < |jobs| ==> !jobs[i].pc.Uncounted?
    ensures Total(Weight, 0, jobs) * f <= Total(Share, 0, jobs) * total
  {
    if jobs != [] {
      var last := |jobs| - 1;
      var j := jobs[last];
      SumExceeds(jobs[..last], f, total);
      assert (j.count + 1) * total == j.count * total + total;
      assert Weight(0, j) * f <= Share(0, j) * total;
      assert (Total(Weight, 0, jobs[..last]) + Weight(0, j)) * f ==
             Total(Weight, 0, jobs[..last]) * f + Weight(0, j) * f;
      assert (Total(Share, 0, jobs[..last]) + Share(0, j)) * total ==
             Total(Share, 0, jobs[..last]) * total + Share(0, j) * total;
    }
  }

  /** In every state where some job has its weight in the group and none is half way out, some job
      of the group would pass the check now. */
  lemma NeverStalls(run: seq<State>, p: nat)
    requires IsRun(run) && p < |run| && run[p].total > 0
    requires forall i :: 0 <= i < |run[p].jobs| ==> !run[p].jobs[i].pc.Uncounted?
    ensures exists i :: 0 <= i < |run[p].jobs| && WouldPass(run[p], i)
  {
    var s := run[p];
    InvAlways(run, p);
    if !s.live {
      NoMembers(s.jobs);
    }
    TooSmall(s.counter, s.total);
    if forall i :: 0 <= i < |s.jobs| ==> !WouldPass(s, i) {
      AllExceed(s);
    }
  }

  lemma AllExceed(s: State)
    requires Inv(s) && s.live && forall i :: 0 <= i < |s.jobs| ==> !s.jobs[i].pc.Uncounted?
    requires forall i :: 0 <= i < |s.jobs| ==> !WouldPass(s, i)
    ensures s.total * s.counter <= (s.counter - 1) * s.total
  {
    forall i | 0 <= i < |s.jobs| && InGroup(s.jobs[i]) ensures Exceeded(s.jobs[i], s.counter, s.total) {
      assert !WouldPass(s, i);
    }
    SumExceeds(s.jobs, s.counter, s.total);
  }

  lemma TooSmall(f: int, total: int)
    requires total > 0
    ensures (f - 1) * total < total * f
  {
    assert (f - 1) * total == f * total - total;
  }

  // ---- A leaver that stalls the group ----

  lemma Goes(run: seq<State>, step: Step, s: State)
    requires IsRun(run) && Enabled(run[|run| - 1], step) && s == Next(run[|run| - 1], step)
    ensures IsRun(run + [s])
  {
    assert Follows(run[|run| - 1], s);
    forall p | 0 < p < |run + [s]| ensures Follows((run + [s])[p - 1], (run + [s])[p]) {
      if p < |run| {
        assert Follows(run[p - 1], run[p]);
      }
    }
  }

  /** Two jobs of weight one. */
  function Pair(refs: int, counter: int, total: int, a: Pc, count: nat, b: Pc): State
  {
    State(true, refs, counter, total, [Job(a, 1, count), Job(b, 1, 0)])
  }

  lemma PairJoins() returns (run: seq<State>)
    ensures IsRun(run) && run[|run| - 1] == Pair(2, 1, 2, Ready, 0, Ready)
  {
    run := [State(false, 0, 1, 0, [Job(Out, 1, 0), Job(Out, 1, 0)])];
    Goes(run, Join(0), Pair(1, 1, 0, Joining, 0, Out));
    run := run + [Pair(1, 1, 0, Joining, 0, Out)];
    Goes(run, AddWeight(0), Pair(1, 1, 1, Ready, 0, Out));
    run := run + [Pair(1, 1, 1, Ready, 0, Out)];
    Goes(run, Join(1), Pair(2, 1, 1, Ready, 0, Joining));
    run := run + [Pair(2, 1, 1, Ready, 0, Joining)];
    Goes(run, AddWeight(1), Pair(2, 1, 2, Ready, 0, Ready));
    run := run + [Pair(2, 1, 2, Ready, 0, Ready)];
  }

  /** The first job issues once; n is its count. */
  lemma FirstIssues(run0: seq<State>, n: nat) returns (run: seq<State>)
    requires IsRun(run0) && run0[|run0| - 1] == Pair(2, n + 1, 2, Ready, n, Ready) && n <= 1
    ensures IsRun(run) && run[|run| - 1] == Pair(2, n + 2, 2, Ready, n + 1, Ready)
  {
    run := run0;
    Goes(run, Load(0), Pair(2, n + 1, 2, Loaded(n + 1), n, Ready));
    run := run + [Pair(2, n + 1, 2, Loaded(n + 1), n, Ready)];
    Goes(run, Decide(0), Pair(2, n + 1, 2, Passed, n, Ready));
    run := run + [Pair(2, n + 1, 2, Passed, n, Ready)];
    Goes(run, CountGroup(0), Pair(2, n + 2, 2, Counted, n, Ready));
    run := run + [Pair(2, n + 2, 2, Counted, n, Ready)];
    Goes(run, CountOwn(0), Pair(2, n + 2, 2, Ready, n + 1, Ready));
    run := run + [Pair(2, n + 2, 2, Ready, n + 1, Ready)];
  }

  /** While a job is half way out, its weight still in the group, the others may all fail the check. */
  lemma LeaverStalls() returns (run: seq<State>)
    ensures IsRun(run) && run[|run| - 1] == Pair(2, 3, 2, Ready, 2, Uncounted)
    ensures !WouldPass(run[|run| - 1], 0) && !WouldPass(run[|run| - 1], 1)
  {
    run := PairJoins();
    run := FirstIssues(run, 0);
    run := FirstIssues(run, 1);
    Goes(run, Leave(1), Pair(2, 3, 2, Ready, 2, Uncounted));
    run := run + [Pair(2, 3, 2, Ready, 2, Uncounted)];
  }
}
