/** The list of flow groups, one per id, as fio edits it under flow_lock. */
module FlowList {
  import FlowShare

  datatype Group = Group(id: nat, refs: int, counter: int, total: int)

  /** Where the list has the id, at or after position k; its length if nowhere. */
  function IndexOf(flows: seq<Group>, id: nat, k: nat): (r: nat)
    requires k <= |flows|
    ensures k <= r <= |flows|
    ensures forall q :: k <= q < r ==> flows[q].id != id
    ensures r < |flows| ==> flows[r].id == id
    decreases |flows| - k
  {
    if k == |flows| || flows[k].id == id then k else IndexOf(flows, id, k + 1)
  }

  predicate OnePerId(flows: seq<Group>)
  {
    forall p, q :: 0 <= p < q < |flows| ==> flows[p].id != flows[q].id
  }

  /** What the list says about one id, as a group of the step machine. */
  function Shown(flows: seq<Group>, id: nat, jobs: seq<FlowShare.Job>): FlowShare.State
  {
    var k := IndexOf(flows, id, 0);
    if k < |flows| then FlowShare.State(true, flows[k].refs, flows[k].counter, flows[k].total, jobs)
    else FlowShare.State(false, 0, 1, 0, jobs)
  }

  lemma Located(flows: seq<Group>, k: nat)
    requires OnePerId(flows) && k < |flows|
    ensures IndexOf(flows, flows[k].id, 0) == k
  {
    var r := IndexOf(flows, flows[k].id, 0);
    assert r <= k;
  }

  function Joined(flows: seq<Group>, id: nat): seq<Group>
  {
    var k := IndexOf(flows, id, 0);
    if k < |flows| then flows[k := flows[k].(refs := flows[k].refs + 1)] else flows + [Group(id, 1, 1, 0)]
  }

  function Dropped(flows: seq<Group>, k: nat, count: nat, weight: nat): seq<Group>
    requires k < |flows|
  {
    var g := flows[k];
    if g.refs == 1 then flows[..k] + flows[k + 1..]
    else flows[k := Group(g.id, g.refs - 1, g.counter - count, g.total - weight)]
  }

  class FlowTable {
    var flows: seq<Group>

    constructor ()
      ensures flows == []
    {
      flows := [];
    }

    /** Join the group with this id, creating it at the end of the list if there is none. */
    method Get(id: nat) returns (k: nat)
      requires OnePerId(flows)
      modifies this
      ensures OnePerId(flows)
      ensures k == IndexOf(old(flows), id, 0) == IndexOf(flows, id, 0) < |flows|
      ensures flows == Joined(old(flows), id)
    {
      k := 0;
      while k < |flows|
        invariant k <= |flows| && flows == old(flows)
        invariant IndexOf(flows, id, 0) == IndexOf(flows, id, k)
      {
        if flows[k].id == id {
          break;
        }
        k := k + 1;
      }
      if k == |flows| {
        flows := flows + [Group(id, 0, 1, 0)];
      }
      flows := flows[k := flows[k].(refs := flows[k].refs + 1)];
      Located(flows, k);
    }

    /** Take a job's count and weight out of group k; the last job deletes the group. */
    method Put(k: nat, count: nat, weight: nat)
      requires OnePerId(flows) && k < |flows|
      modifies this
      ensures OnePerId(flows)
      ensures flows == Dropped(old(flows), k, count, weight)
    {
      flows := flows[k := flows[k].(counter := flows[k].counter - count)];
      flows := flows[k := flows[k].(total := flows[k].total - weight)];
      flows := flows[k := flows[k].(refs := flows[k].refs - 1)];
      if flows[k].refs == 0 {
        flows := flows[..k] + flows[k + 1..];
      }
    }
  }

  /** A group the update leaves alone shows the same; the list may have lost or gained others. */
  lemma ShownElsewhere(flows: seq<Group>, flows': seq<Group>, id: nat, jobs: seq<FlowShare.Job>)
    requires OnePerId(flows) && OnePerId(flows')
    requires forall g: Group :: g.id == id ==> (g in flows <==> g in flows')
    ensures Shown(flows, id, jobs) == Shown(flows', id, jobs)
  {
    var k, k' := IndexOf(flows, id, 0), IndexOf(flows', id, 0);
    if k < |flows| {
      assert flows[k] in flows';
      var q :| 0 <= q < |flows'| && flows'[q] == flows[k];
      Located(flows', q);
    }
    if k' < |flows'| {
      assert flows'[k'] in flows;
      var q :| 0 <= q < |flows| && flows[q] == flows'[k'];
      Located(flows, q);
    }
  }

  /** Get is the join step of its own group and no step of any other. */
  lemma GetShown(flows: seq<Group>, id: nat, other: nat, jobs: seq<FlowShare.Job>, i: nat)
    requires OnePerId(flows) && other != id
    requires FlowShare.Enabled(Shown(flows, id, jobs), FlowShare.Join(i))
    ensures Shown(Joined(flows, id), other, jobs) == Shown(flows, other, jobs)
    ensures Shown(Joined(flows, id), id, jobs[i := FlowShare.Job(FlowShare.Joining, jobs[i].weight, 0)]) ==
            FlowShare.Next(Shown(flows, id, jobs), FlowShare.Join(i))
  {
    var k := IndexOf(flows, id, 0);
    var flows' := Joined(flows, id);
    assert OnePerId(flows');
    Located(flows', k);
    forall g: Group | g.id == other ensures g in flows <==> g in flows' {
      if g in flows {
        var q :| 0 <= q < |flows| && flows[q] == g;
        assert flows'[q] == g;
      }
      if g in flows' {
        var q :| 0 <= q < |flows'| && flows'[q] == g;
        assert q != k;
        assert flows[q] == g;
      }
    }
    ShownElsewhere(flows, flows', other, jobs);
  }

  /** Put takes no step of any group but its own. */
  lemma PutElsewhere(flows: seq<Group>, k: nat, count: nat, weight: nat, other: nat, jobs: seq<FlowShare.Job>)
    requires OnePerId(flows) && k < |flows| && other != flows[k].id
    ensures Shown(Dropped(flows, k, count, weight), other, jobs) == Shown(flows, other, jobs)
  {
    var flows' := Dropped(flows, k, count, weight);
    assert OnePerId(flows');
    forall g: Group | g.id == other ensures g in flows <==> g in flows' {
      if g in flows {
        var q :| 0 <= q < |flows| && flows[q] == g;
        assert g == flows'[if flows[k].refs == 1 && q > k then q - 1 else q];
      }
    }
    ShownElsewhere(flows, flows', other, jobs);
  }

  /** Put is the three steps of leaving its own group; the group being what its jobs make it, the last
      job leaves nothing behind. */
  lemma PutShown(flows: seq<Group>, k: nat, jobs: seq<FlowShare.Job>, i: nat)
    requires OnePerId(flows) && k < |flows| && i < |jobs| && jobs[i].pc.Ready?
    requires FlowShare.Inv(Shown(flows, flows[k].id, jobs))
    ensures Shown(flows, flows[k].id, jobs).jobs == jobs
    ensures Shown(Dropped(flows, k, jobs[i].count, jobs[i].weight), flows[k].id, jobs[i := jobs[i].(pc := FlowShare.Out)]) ==
            FlowShare.Left(Shown(flows, flows[k].id, jobs), i)
  {
    var g := flows[k];
    var flows' := Dropped(flows, k, jobs[i].count, jobs[i].weight);
    Located(flows, k);
    var s := Shown(flows, g.id, jobs);
    assert s == FlowShare.State(true, g.refs, g.counter, g.total, jobs);
    FlowShare.LeftShape(s, i);
    if g.refs == 1 {
      FlowShare.LastLeaves(s, i);
      assert forall q :: 0 <= q < |flows'| ==> flows'[q] == flows[if q < k then q else q + 1];
      assert IndexOf(flows', g.id, 0) == |flows'|;
    } else {
      assert OnePerId(flows');
      Located(flows', k);
    }
  }
}
