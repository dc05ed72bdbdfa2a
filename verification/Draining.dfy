/** A connected cluster can always be drained without loss, and what that brings to a session. */
module Draining {
  import opened Ids
  import opened SessionTable
  import opened Events
  import opened FanOut
  import Q = Quiescence
  import D = Delivery

  ghost predicate AllConnected(c: Cluster) { forall i :: 0 <= i < |c.nodes| ==> c.nodes[i].connected }

  /** Nothing was emitted, failed or lost since, and sessions and connections are as they were. */
  ghost predicate Undisturbed(c: Cluster, later: Cluster) {
    && |later.nodes| == |c.nodes|
    && forall i :: 0 <= i < |c.nodes| ==> SameButMoved(c.nodes[i], later.nodes[i])
  }

  ghost predicate SameButMoved(n: Node, later: Node) {
    && later.hub.sessions == n.hub.sessions && later.connected == n.connected
    && later.direct == n.direct && later.failed == n.failed && later.lost == n.lost
  }

  lemma DispatchKeepsSessions(t: Table<Item>, op: Op<Item>)
    requires t.Valid() && op.Dispatch?
    ensures Apply(t, op).sessions == t.sessions
  {
  }

  lemma MoveIsUndisturbing(c: Cluster, step: Step)
    requires HubsValid(c) && AllConnected(c) && Enabled(c, step) && (step.PublishStep? || step.ReceiveStep?)
    ensures Undisturbed(c, Next(c, step))
  {
    hide Apply;
    if step.ReceiveStep? {
      var n := c.nodes[step.i];
      DispatchKeepsSessions(n.hub, Dispatch(n.inbox[0].routed.to, n.inbox[0]));
    }
  }

  lemma UndisturbedThrough(a: Cluster, b: Cluster, c: Cluster)
    requires Undisturbed(a, b) && Undisturbed(b, c)
    ensures Undisturbed(a, c)
  {
  }

  /** The next message to move, if any is waiting. */
  lemma NextMove(c: Cluster) returns (step: Step)
    requires !Q.Idle(c)
    ensures Enabled(c, step) && (step.PublishStep? || step.ReceiveStep?)
  {
    var i :| 0 <= i < |c.nodes| && !(c.nodes[i].queue == [] && c.nodes[i].inbox == []);
    step := if c.nodes[i].queue != [] then PublishStep(i) else ReceiveStep(i);
  }

  /** From every connected state some run of publish and receive steps empties all queues and inboxes. */
  lemma {:induction false} DrainExists(c: Cluster) returns (cs: seq<Cluster>, steps: seq<Step>)
    requires HubsValid(c) && AllConnected(c)
    ensures IsRun(cs, steps) && cs[0] == c && Q.Idle(cs[|steps|])
    ensures forall k :: 0 <= k < |cs| ==> Undisturbed(c, cs[k])
    decreases Q.Measure(c)
  {
    hide Next, Enabled, Q.Measure;
    if Q.Idle(c) {
      cs, steps := [c], [];
      NoStepsYet(c);
    } else {
      var step := NextMove(c);
      var c' := Next(c, step);
      Q.StepMeasure(c, step);
      MoveIsUndisturbing(c, step);
      var ds, more := DrainExists(c');
      NoStepsYet(c);
      var one, first := Extend([c], [], step);
      assert one == [c, c'];
      RunsJoin(one, first, ds, more);
      cs, steps := one + ds[1..], first + more;
      forall k | 0 <= k < |cs| ensures Undisturbed(c, cs[k]) {
        if k > 0 {
          assert cs[k] == ds[k - 1];
          UndisturbedThrough(c, c', ds[k - 1]);
        }
      }
    }
  }

  lemma StillListens(c: Cluster, later: Cluster, j: NodeId, s: SessionId, to: Target)
    requires Undisturbed(c, later) && D.Listens(c, j, s, to)
    ensures D.Listens(later, j, s, to)
  {
  }

  /** A session has listened since before an event was emitted, nothing of the event was lost, and all
      instances are connected. Then the run goes on to a state at rest in which the session, listening
      still, has the event exactly once, or twice at the instance that emitted it. */
  lemma DrainingDelivers(cs: seq<Cluster>, steps: seq<Step>, j: NodeId, s: SessionId, x: Item)
    returns (cs': seq<Cluster>, steps': seq<Step>)
    requires IsRun(cs, steps) && Inv(cs[0]) && D.AllLogsDispatched(cs[0])
    requires x.origin < |cs[0].nodes| && j < |cs[0].nodes| && x !in cs[0].nodes[x.origin].direct
    requires forall i :: 0 <= i < |cs| ==> D.Listens(cs[i], j, s, x.routed.to)
    requires var c := cs[|steps|];
             && HubsValid(c) && |c.nodes| == |cs[0].nodes| && AllConnected(c)
             && x in c.nodes[x.origin].direct
             && c.nodes[x.origin].failed[x] == 0 && c.nodes[j].lost[x] == 0
    ensures IsRun(cs', steps') && cs <= cs' && steps <= steps' && Q.Idle(cs'[|steps'|])
    ensures forall i :: 0 <= i < |cs'| ==> D.Listens(cs'[i], j, s, x.routed.to)
    ensures D.Copies(cs'[|steps'|], j, s, x) == if j == x.origin then 2 else 1
  {
    hide IsRun, Inv, HubsValid, Next, Enabled, D.AllLogsDispatched, D.Listens, D.Copies;
    assert |cs| == |steps| + 1 by { RunLength(cs, steps); }
    var c := cs[|steps|];
    var ds, more := DrainExists(c);
    assert |ds| == |more| + 1 by { RunLength(ds, more); }
    RunsJoin(cs, steps, ds, more);
    cs', steps' := cs + ds[1..], steps + more;
    forall i | 0 <= i < |cs'| ensures D.Listens(cs'[i], j, s, x.routed.to) {
      if i >= |cs| { StillListens(c, ds[i - |steps|], j, s, x.routed.to); }
    }
    var end := cs'[|steps'|];
    assert end == ds[|more|] && Undisturbed(c, end);
    D.ExactlyOnceExceptAtOrigin(cs', steps', j, s, x);
  }

  lemma RunLength(cs: seq<Cluster>, steps: seq<Step>)
    requires IsRun(cs, steps)
    ensures |cs| == |steps| + 1
  {
  }
}
