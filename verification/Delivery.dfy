/** How many copies of an emission a session receives: the hub and the fan-out together. */
module Delivery {
  import opened Ids
  import opened SessionTable
  import opened Events
  import opened FanOut

  /** Nothing is in a log that its instance has not dispatched. */
  ghost predicate LogsDispatched(n: Node) {
    forall s, x :: s in n.hub.log && x in n.hub.log[s] ==> x in n.direct || x in n.remote
  }

  ghost predicate AllLogsDispatched(c: Cluster) {
    forall i :: 0 <= i < |c.nodes| ==> LogsDispatched(c.nodes[i])
  }

  lemma StepKeepsLogs(c: Cluster, step: Step)
    requires HubsValid(c) && Enabled(c, step) && AllLogsDispatched(c)
    ensures AllLogsDispatched(Next(c, step))
  {
    hide Apply, Fired, LogsDispatched;
    forall i | 0 <= i < |c.nodes|
      ensures LogsDispatched(Next(c, step).nodes[i])
    {
      var n, n' := c.nodes[i], Next(c, step).nodes[i];
      if i == step.i && step.EmitStep? {
        DispatchKeepsLogs(n, n', Item(i, |n.direct|, step.routed));
      } else if i == step.i && step.ReceiveStep? {
        DispatchKeepsLogs(n, n', n.inbox[0]);
      } else if i == step.i && step.SessionStep? {
        SessionStepKeepsLogs(n, n', step.op);
      } else {
        OthersUntouched(c, step, i);
        SameLogs(n, n');
      }
    }
  }

  lemma DispatchKeepsLogs(n: Node, n': Node, x: Item)
    requires n.hub.Valid() && LogsDispatched(n) && n'.hub == Apply(n.hub, Dispatch(x.routed.to, x))
    requires (n'.direct == n.direct + [x] && n'.remote == n.remote)
             || (n'.direct == n.direct && n'.remote == n.remote + [x])
    ensures LogsDispatched(n')
  {
    forall s, y | s in n'.hub.log && y in n'.hub.log[s] ensures y in n'.direct || y in n'.remote {
      assert y in n.hub.log[s] || y == x;
    }
  }

  lemma SessionStepKeepsLogs(n: Node, n': Node, op: Op<Item>)
    requires n.hub.Valid() && LogsDispatched(n) && !op.Dispatch? && n'.hub == Apply(n.hub, op)
    requires n'.direct == n.direct && n'.remote == n.remote
    ensures LogsDispatched(n')
  {
  }

  lemma SameLogs(n: Node, n': Node)
    requires LogsDispatched(n) && n'.hub == n.hub && n'.direct == n.direct && n'.remote == n.remote
    ensures LogsDispatched(n')
  {
  }

  lemma {:induction false} RunKeepsLogs(cs: seq<Cluster>, steps: seq<Step>, k: nat)
    requires IsRun(cs, steps) && AllLogsDispatched(cs[0]) && k <= |steps|
    ensures AllLogsDispatched(cs[k])
  {
    hide Next, Enabled, HubsValid, AllLogsDispatched;
    if k == 0 {
    } else {
      RunKeepsLogs(cs, steps, k - 1);
      StepKeepsLogs(cs[k - 1], steps[k - 1]);
    }
  }

  /** Dispatches of `x` at instance `j`, direct and remote. */
  ghost function Dispatches(c: Cluster, j: NodeId, x: Item): nat {
    if j >= |c.nodes| then 0 else multiset(c.nodes[j].direct)[x] + multiset(c.nodes[j].remote)[x]
  }

  ghost function Copies(c: Cluster, j: NodeId, s: SessionId, x: Item): nat {
    if j < |c.nodes| && s in c.nodes[j].hub.log then multiset(c.nodes[j].hub.log[s])[x] else 0
  }

  /** Session `s` of instance `j` is live and addressed by `to`. */
  ghost predicate Listens(c: Cluster, j: NodeId, s: SessionId, to: Target) {
    && j < |c.nodes|
    && s in c.nodes[j].hub.sessions
    && Matches(c.nodes[j].hub.sessions[s], to)
  }

  /** A listening session gets one copy when its instance dispatches `x`, none otherwise. */
  lemma DispatchDelivers(t: Table<Item>, s: SessionId, y: Item, x: Item)
    requires t.Valid() && s in t.sessions && Matches(t.sessions[s], x.routed.to)
    ensures var t' := Apply(t, Dispatch(y.routed.to, y));
            s in t'.log && multiset(t'.log[s])[x] == multiset(t.log[s])[x] + if y == x then 1 else 0
  {
  }

  /** In one step a listening session gets one copy per dispatch of its instance. */
  lemma StepDelivers(c: Cluster, step: Step, j: NodeId, s: SessionId, x: Item)
    requires HubsValid(c) && Enabled(c, step) && Listens(c, j, s, x.routed.to)
    ensures Copies(Next(c, step), j, s, x) - Copies(c, j, s, x) == Dispatches(Next(c, step), j, x) - Dispatches(c, j, x)
  {
    hide Apply, Matches, Fired;
    assert c.nodes[step.i].hub.Valid();
    var n, n' := c.nodes[step.i], Next(c, step).nodes[step.i];
    if step.i == j && step.EmitStep? {
      DispatchDelivers(n.hub, s, Item(j, |n.direct|, step.routed), x);
    } else if step.i == j && step.ReceiveStep? {
      DispatchDelivers(n.hub, s, n.inbox[0], x);
    } else if step.i == j && step.SessionStep? {
      SessionStepDelivers(n.hub, step.op, s);
    } else {
      OthersUntouched(c, step, j);
    }
  }

  lemma OthersUntouched(c: Cluster, step: Step, j: NodeId)
    requires HubsValid(c) && Enabled(c, step) && j < |c.nodes|
    requires j == step.i ==> !step.EmitStep? && !step.ReceiveStep? && !step.SessionStep?
    ensures var n, n' := c.nodes[j], Next(c, step).nodes[j];
            n'.hub == n.hub && n'.direct == n.direct && n'.remote == n.remote
  {
  }

  lemma SessionStepDelivers(t: Table<Item>, op: Op<Item>, s: SessionId)
    requires t.Valid() && Legal(t, op) && !op.Dispatch? && s in t.sessions
    ensures s in Apply(t, op).log && Apply(t, op).log[s] == t.log[s]
  {
  }

  lemma {:induction false} RunDelivers(cs: seq<Cluster>, steps: seq<Step>, j: NodeId, s: SessionId, x: Item, k: nat)
    requires IsRun(cs, steps) && k <= |steps|
    requires forall i :: 0 <= i < |cs| ==> Listens(cs[i], j, s, x.routed.to)
    ensures Copies(cs[k], j, s, x) - Copies(cs[0], j, s, x) == Dispatches(cs[k], j, x) - Dispatches(cs[0], j, x)
  {
    hide Next, Enabled, HubsValid, Copies, Dispatches;
    if k == 0 {
    } else {
      RunDelivers(cs, steps, j, s, x, k - 1);
      StepDelivers(cs[k - 1], steps[k - 1], j, s, x);
    }
  }

  /** Nothing of an item is anywhere before its origin emits it. */
  lemma NothingBeforeEmission(c: Cluster, j: NodeId, x: Item)
    requires Inv(c) && x.origin < |c.nodes| && j < |c.nodes|
    requires x !in c.nodes[x.origin].direct
    ensures Dispatches(c, j, x) == 0
  {
    var n := c.nodes[j];
    NotBrokered(c.nodes[x.origin], x, c.brokered);
    NotElsewhere(n, j, x, c.brokered);
  }

  lemma NotBrokered(o: Node, x: Item, brokered: seq<Item>)
    requires Sent(o, x.origin, brokered) && x !in o.direct
    ensures multiset(brokered)[x] == 0
  {
    CountOfOrigin(brokered, x);
    assert forall k :: 0 <= k < |o.departed| ==> o.departed[k] == o.direct[k];
    assert multiset(o.departed)[x] == 0;
  }

  lemma NotElsewhere(n: Node, j: NodeId, x: Item, brokered: seq<Item>)
    requires NodeInv(n, j, brokered) && multiset(brokered)[x] == 0
    requires j == x.origin ==> x !in n.direct
    ensures multiset(n.direct)[x] + multiset(n.remote)[x] == 0
  {
    hide OfOrigin;
    assert x !in n.direct;
  }

  lemma NoCopyYet(c: Cluster, j: NodeId, s: SessionId, x: Item)
    requires AllLogsDispatched(c) && j < |c.nodes| && Dispatches(c, j, x) == 0
    ensures Copies(c, j, s, x) == 0
  {
    var n := c.nodes[j];
    assert LogsDispatched(n) && x !in n.direct && x !in n.remote;
  }

  /** A session that listens from before the emission until a loss-free drain has exactly one copy,
      or two on the instance that emitted the event: the direct one and the broker's echo. */
  lemma ExactlyOnceExceptAtOrigin(cs: seq<Cluster>, steps: seq<Step>, j: NodeId, s: SessionId, x: Item)
    requires IsRun(cs, steps) && Inv(cs[0]) && AllLogsDispatched(cs[0])
    requires x.origin < |cs[0].nodes| && j < |cs[0].nodes|
    requires forall i :: 0 <= i < |cs| ==> Listens(cs[i], j, s, x.routed.to)
    requires x !in cs[0].nodes[x.origin].direct
    requires var c := cs[|steps|];
             && |c.nodes| == |cs[0].nodes|
             && x in c.nodes[x.origin].direct
             && c.nodes[x.origin].queue == [] && c.nodes[j].inbox == []
             && c.nodes[x.origin].failed[x] == 0 && c.nodes[j].lost[x] == 0
    ensures Copies(cs[|steps|], j, s, x) == if j == x.origin then 2 else 1
  {
    hide Next, Enabled, Inv, HubsValid;
    var c := cs[|steps|];
    RunKeepsInv(cs, steps, |steps|);
    NothingBeforeEmission(cs[0], j, x);
    RunDelivers(cs, steps, j, s, x, |steps|);
    NoCopyYet(cs[0], j, s, x);
    Conservation(c, x, j);
  }

  // ---- The echo.

  /** The log of a session that a dispatch addresses. */
  lemma DispatchAppends(t: Table<Item>, s: SessionId, x: Item)
    requires t.Valid() && s in t.sessions && Matches(t.sessions[s], x.routed.to)
    ensures var t' := Apply(t, Dispatch(x.routed.to, x));
            t'.sessions == t.sessions && s in t'.log && t'.log[s] == t.log[s] + [x]
  {
  }

  /** A single connected instance at rest, with a session of user 7 that has received nothing. */
  ghost predicate Listening(c: Cluster) {
    && HubsValid(c) && |c.nodes| == 1
    && var n := c.nodes[0];
       && n.connected && n.queue == [] && n.inbox == [] && n.direct == []
       && 1 in n.hub.sessions && n.hub.sessions[1].user == 7 && 1 in n.hub.log && n.hub.log[1] == []
  }

  lemma Opens(c: Cluster)
    requires c == Cluster([STARTED], [])
    ensures HubsValid(c) && Enabled(c, ReconnectStep(0))
    ensures var c1 := Next(c, ReconnectStep(0));
            Enabled(c1, SessionStep(0, Register(1, 7))) && Listening(Next(c1, SessionStep(0, Register(1, 7))))
  {
    hide Apply;
    NewSession(c.nodes[0].hub);
  }

  lemma Echoes(c: Cluster, routed: RoutedEvent)
    requires Listening(c) && routed.to == ToUser(7)
    ensures Enabled(c, EmitStep(0, routed))
    ensures var c1 := Next(c, EmitStep(0, routed));
            && Enabled(c1, PublishStep(0))
            && var c2 := Next(c1, PublishStep(0));
               && Enabled(c2, ReceiveStep(0))
               && Copies(Next(c2, ReceiveStep(0)), 0, 1, Item(0, 0, routed)) == 2
  {
    hide Apply, Fired;
    var x := Item(0, 0, routed);
    DispatchAppends(c.nodes[0].hub, 1, x);
    var c2 := Next(Next(c, EmitStep(0, routed)), PublishStep(0));
    assert c2.nodes[0].inbox == [x] && c2.nodes[0].hub.log[1] == [x];
    DispatchAppends(c2.nodes[0].hub, 1, x);
    assert Next(c2, ReceiveStep(0)).nodes[0].hub.log[1] == [x, x];
  }

  /** A single instance, its one user's session, and one event for that user: the session has the
      event twice, although there is no other instance. */
  lemma EchoAtOrigin()
    ensures exists cs: seq<Cluster>, steps: seq<Step>, s: SessionId, x: Item ::
              IsRun(cs, steps) && Initial(cs[0]) && |cs[0].nodes| == 1 && Copies(cs[|steps|], 0, s, x) == 2
  {
    hide IsRun, Next, Enabled, Listening, Copies;
    var start := Cluster([STARTED], []);
    var routed := RoutedEvent(ToUser(7), Notification(0));
    var cs, steps: seq<Step> := [start], [];
    Opens(start);
    NoStepsYet(start);
    cs, steps := Extend(cs, steps, ReconnectStep(0));
    cs, steps := Extend(cs, steps, SessionStep(0, Register(1, 7)));
    Echoes(cs[|steps|], routed);
    cs, steps := Extend(cs, steps, EmitStep(0, routed));
    cs, steps := Extend(cs, steps, PublishStep(0));
    cs, steps := Extend(cs, steps, ReceiveStep(0));
    assert cs[0] == start;
  }

  lemma NewSession(t: Table<Item>)
    requires t == Table(map[], map[])
    ensures Legal(t, Register(1, 7)) && t.Valid()
    ensures var t' := Apply(t, Register(1, 7));
            1 in t'.sessions && t'.sessions[1].user == 7 && 1 in t'.log && t'.log[1] == []
  {
  }
}
