/** Multi-instance fan-out: several instances, each with a hub, an outgoing queue and an inbox,
    joined by a broker that copies every published event to every connected instance.

    A routed event carries no origin, and an instance subscribes to the very channel it publishes
    on, so it receives its own events back. `Item` tags each emission so that copies can be
    counted; no step looks at the tag. */
module FanOut {
  import opened Ids
  import opened SessionTable
  import opened Events
  import opened Subsequences

  /** One emission: the `serial`-th of instance `origin`. */
  datatype Item = Item(origin: NodeId, serial: nat, routed: RoutedEvent)

  /** `direct` and `remote` list what has been dispatched on emission and on receipt; `departed`
      what has left `queue`, `failed` the part of it whose publication failed; `lost` the copies
      the broker made for this instance that it never dispatched. */
  datatype Node = Node(
    hub: Table<Item>, webhooks: seq<Descriptor>,
    queue: seq<Item>, inbox: seq<Item>, connected: bool,
    direct: seq<Item>, remote: seq<Item>,
    departed: seq<Item>, failed: multiset<Item>, lost: multiset<Item>)

  const STARTED := Node(Table(map[], map[]), [], [], [], false, [], [], [], multiset{}, multiset{})

  // ---- What each step does to one instance.

  /** Dispatch locally, queue for publication, fire webhooks for channel events. */
  ghost function Emit(n: Node, me: NodeId, routed: RoutedEvent): Node
    requires n.hub.Valid()
  {
    var item := Item(me, |n.direct|, routed);
    n.(hub := Apply(n.hub, Dispatch(routed.to, item)),
       direct := n.direct + [item],
       queue := n.queue + [item],
       webhooks := n.webhooks + Fired(routed))
  }

  function Fired(routed: RoutedEvent): seq<Descriptor> {
    if routed.to.ToChannel? && EventDescriptor(routed.event).Some? then [EventDescriptor(routed.event).value] else []
  }

  /** The publisher task takes the head of the queue. */
  function Depart(n: Node, published: bool): Node
    requires n.queue != []
  {
    n.(queue := n.queue[1..],
       departed := n.departed + [n.queue[0]],
       failed := if published then n.failed else n.failed + multiset{n.queue[0]})
  }

  /** The broker's copy for one instance: kept if the instance is subscribed at that moment. */
  function Accept(n: Node, item: Item): Node {
    if n.connected then n.(inbox := n.inbox + [item]) else n.(lost := n.lost + multiset{item})
  }

  /** The subscriber loop takes the head of the inbox and dispatches it, without republishing. */
  ghost function Receive(n: Node): Node
    requires n.hub.Valid() && n.inbox != []
  {
    n.(hub := Apply(n.hub, Dispatch(n.inbox[0].routed.to, n.inbox[0])),
       remote := n.remote + [n.inbox[0]],
       inbox := n.inbox[1..])
  }

  /** A payload that does not parse is skipped. */
  function Skip(n: Node): Node
    requires n.inbox != []
  {
    n.(lost := n.lost + multiset{n.inbox[0]}, inbox := n.inbox[1..])
  }

  function Disconnect(n: Node): Node {
    n.(connected := false, lost := n.lost + multiset(n.inbox), inbox := [])
  }

  // ---- The cluster.

  /** `brokered` is every published item in the one order the broker saw. */
  datatype Cluster = Cluster(nodes: seq<Node>, brokered: seq<Item>)

  datatype Step =
    | EmitStep(i: NodeId, routed: RoutedEvent)
    | PublishStep(i: NodeId)
    | PublishFails(i: NodeId)
    | ReceiveStep(i: NodeId)
    | SkipStep(i: NodeId)
    | DisconnectStep(i: NodeId)
    | ReconnectStep(i: NodeId)
    | SessionStep(i: NodeId, op: Op<Item>)

  ghost predicate Enabled(c: Cluster, step: Step) {
    && step.i < |c.nodes|
    && match step
       case PublishStep(i) => c.nodes[i].queue != []
       case PublishFails(i) => c.nodes[i].queue != []
       case ReceiveStep(i) => c.nodes[i].inbox != []
       case SkipStep(i) => c.nodes[i].inbox != []
       case SessionStep(i, op) => !op.Dispatch? && Legal(c.nodes[i].hub, op)
       case _ => true
  }

  ghost predicate HubsValid(c: Cluster) { forall i :: 0 <= i < |c.nodes| ==> c.nodes[i].hub.Valid() }

  ghost function Next(c: Cluster, step: Step): (c': Cluster)
    requires HubsValid(c) && Enabled(c, step)
    ensures HubsValid(c') && |c'.nodes| == |c.nodes|
  {
    var n := c.nodes[step.i];
    match step
    case EmitStep(i, routed) => c.(nodes := c.nodes[i := Emit(n, i, routed)])
    case PublishStep(i) =>
      var nodes := c.nodes[i := Depart(n, true)];
      Cluster(seq(|nodes|, j requires 0 <= j < |nodes| => Accept(nodes[j], n.queue[0])), c.brokered + [n.queue[0]])
    case PublishFails(i) => c.(nodes := c.nodes[i := Depart(n, false)])
    case ReceiveStep(i) => c.(nodes := c.nodes[i := Receive(n)])
    case SkipStep(i) => c.(nodes := c.nodes[i := Skip(n)])
    case DisconnectStep(i) => c.(nodes := c.nodes[i := Disconnect(n)])
    case ReconnectStep(i) => c.(nodes := c.nodes[i := n.(connected := true)])
    case SessionStep(i, op) => c.(nodes := c.nodes[i := n.(hub := Apply(n.hub, op))])
  }

  /** `cs` are the successive states of a run that takes `steps`. */
  ghost predicate IsRun(cs: seq<Cluster>, steps: seq<Step>) {
    && |cs| == |steps| + 1
    && HubsValid(cs[0])
    && forall k :: 0 <= k < |steps| ==>
         HubsValid(cs[k]) && Enabled(cs[k], steps[k]) && cs[k + 1] == Next(cs[k], steps[k])
  }

  lemma NoStepsYet(c: Cluster)
    requires HubsValid(c)
    ensures IsRun([c], [])
  {
  }

  lemma Extend(cs: seq<Cluster>, steps: seq<Step>, step: Step) returns (cs': seq<Cluster>, steps': seq<Step>)
    requires IsRun(cs, steps) && HubsValid(cs[|steps|]) && Enabled(cs[|steps|], step)
    ensures IsRun(cs', steps') && steps' == steps + [step] && cs <= cs'
    ensures |cs'| == |steps'| + 1 && HubsValid(cs'[|steps'|]) && cs'[|steps'|] == Next(cs[|steps|], step)
  {
    hide Next, Enabled;
    cs', steps' := cs + [Next(cs[|steps|], step)], steps + [step];
  }

  /** A run that goes on from where another ends. */
  lemma RunsJoin(cs: seq<Cluster>, steps: seq<Step>, ds: seq<Cluster>, more: seq<Step>)
    requires IsRun(cs, steps) && IsRun(ds, more) && cs[|steps|] == ds[0]
    ensures IsRun(cs + ds[1..], steps + more) && (cs + ds[1..])[|steps + more|] == ds[|more|]
  {
    hide Next, Enabled, HubsValid;
    var all, taken := cs + ds[1..], steps + more;
    forall k | 0 <= k < |taken|
      ensures HubsValid(all[k]) && Enabled(all[k], taken[k]) && all[k + 1] == Next(all[k], taken[k])
    {
      if k >= |steps| {
        assert all[k] == ds[k - |steps|] && all[k + 1] == ds[k - |steps| + 1] && taken[k] == more[k - |steps|];
      }
    }
  }

  ghost predicate Initial(c: Cluster) {
    c.brokered == [] && forall i :: 0 <= i < |c.nodes| ==> c.nodes[i] == STARTED
  }

  // ---- The invariant.

  ghost function OfOrigin(items: seq<Item>, i: NodeId): seq<Item> {
    if items == [] then []
    else OfOrigin(items[..|items| - 1], i) + if items[|items| - 1].origin == i then [items[|items| - 1]] else []
  }

  /** The sending side of instance `i`. */
  ghost predicate Sent(n: Node, i: NodeId, brokered: seq<Item>) {
    && n.direct == n.departed + n.queue
    && (forall k :: 0 <= k < |n.direct| ==> n.direct[k].origin == i && n.direct[k].serial == k)
    && multiset(n.departed) == multiset(OfOrigin(brokered, i)) + n.failed
    && Subseq(OfOrigin(brokered, i), n.departed)
  }

  /** The receiving side of an instance. */
  ghost predicate Received(n: Node, brokered: seq<Item>) {
    && multiset(brokered) == multiset(n.remote) + multiset(n.inbox) + n.lost
    && Subseq(n.remote + n.inbox, brokered)
  }

  ghost predicate Inv(c: Cluster) {
    && (forall i :: 0 <= i < |c.nodes| ==> NodeInv(c.nodes[i], i, c.brokered))
    && forall x :: x in c.brokered ==> x.origin < |c.nodes|
  }

  lemma OfOriginAppend(items: seq<Item>, x: Item, i: NodeId)
    ensures OfOrigin(items + [x], i) == if x.origin == i then OfOrigin(items, i) + [x] else OfOrigin(items, i)
  {
    assert (items + [x])[..|items|] == items;
  }

  ghost predicate NodeInv(n: Node, i: NodeId, brokered: seq<Item>) {
    Sent(n, i, brokered) && Received(n, brokered)
  }

  lemma EmitKeeps(n: Node, i: NodeId, routed: RoutedEvent, brokered: seq<Item>)
    requires n.hub.Valid() && NodeInv(n, i, brokered)
    ensures NodeInv(Emit(n, i, routed), i, brokered)
  {
    hide Apply, Subseq, OfOrigin, Fired;
    var item := Item(i, |n.direct|, routed);
    assert (n.direct + [item])[..|n.direct|] == n.direct;
    assert n.direct + [item] == n.departed + (n.queue + [item]);
  }

  lemma DepartKeeps(n: Node, i: NodeId, published: bool, brokered: seq<Item>)
    requires n.queue != [] && Sent(n, i, brokered)
    ensures n.queue[0].origin == i
    ensures Sent(Depart(n, published), i, if published then brokered + [n.queue[0]] else brokered)
  {
    hide Subseq, OfOrigin;
    var x, n' := n.queue[0], Depart(n, published);
    assert n.queue == [x] + n.queue[1..];
    assert n.direct[|n.departed|] == x;
    assert n'.departed + n'.queue == n.direct;
    OfOriginAppend(brokered, x, i);
    AppendBoth(OfOrigin(brokered, i), n.departed, x);
    AppendRight(OfOrigin(brokered, i), n.departed, x);
  }

  lemma PublishFailsKeeps(n: Node, i: NodeId, brokered: seq<Item>)
    requires n.queue != [] && NodeInv(n, i, brokered)
    ensures NodeInv(Depart(n, false), i, brokered)
  {
    DepartKeeps(n, i, false, brokered);
  }

  lemma AcceptKeeps(n: Node, x: Item, brokered: seq<Item>)
    requires Received(n, brokered)
    ensures Received(Accept(n, x), brokered + [x])
  {
    hide Subseq;
    AppendBoth(n.remote + n.inbox, brokered, x);
    AppendRight(n.remote + n.inbox, brokered, x);
    assert n.remote + (n.inbox + [x]) == n.remote + n.inbox + [x];
  }

  lemma ReceiveKeeps(n: Node, i: NodeId, brokered: seq<Item>)
    requires n.hub.Valid() && n.inbox != [] && NodeInv(n, i, brokered)
    ensures NodeInv(Receive(n), i, brokered) && NodeInv(Skip(n), i, brokered)
  {
    hide Apply, Received, OfOrigin, Subseq;
    InboxHeadLeaves(n, brokered);
  }

  lemma InboxHeadLeaves(n: Node, brokered: seq<Item>)
    requires n.hub.Valid() && n.inbox != [] && Received(n, brokered)
    ensures Received(Receive(n), brokered) && Received(Skip(n), brokered)
  {
    hide Apply, Subseq;
    var x, rest := n.inbox[0], n.inbox[1..];
    assert n.inbox == [x] + rest;
    HeadLeavesSubseq(n.remote, x, rest, brokered);
    HeadLeavesMultiset(n.remote, x, rest);
  }

  lemma HeadLeavesSubseq(remote: seq<Item>, x: Item, rest: seq<Item>, brokered: seq<Item>)
    requires Subseq(remote + ([x] + rest), brokered)
    ensures Subseq((remote + [x]) + rest, brokered) && Subseq(remote + rest, brokered)
  {
    hide Subseq;
    assert remote + [x] + rest == remote + ([x] + rest);
    DropMiddle(remote, x, rest);
    Transitive(remote + rest, remote + ([x] + rest), brokered);
  }

  lemma HeadLeavesMultiset(remote: seq<Item>, x: Item, rest: seq<Item>)
    ensures multiset([x] + rest) == multiset{x} + multiset(rest)
    ensures multiset(remote + [x]) == multiset(remote) + multiset{x}
  {
  }

  lemma DisconnectKeeps(n: Node, i: NodeId, brokered: seq<Item>)
    requires NodeInv(n, i, brokered)
    ensures NodeInv(Disconnect(n), i, brokered)
  {
    hide Subseq;
    Prefix(n.remote, n.inbox);
    Transitive(n.remote, n.remote + n.inbox, brokered);
    assert n.remote + [] == n.remote;
  }

  lemma SessionsAndConnectionKeep(n: Node, i: NodeId, brokered: seq<Item>, hub: Table<Item>)
    requires NodeInv(n, i, brokered)
    ensures NodeInv(n.(hub := hub), i, brokered) && NodeInv(n.(connected := true), i, brokered)
  {
  }

  lemma PublishKeepsNode(c: Cluster, i: NodeId, j: NodeId)
    requires HubsValid(c) && Enabled(c, PublishStep(i)) && Inv(c) && j < |c.nodes|
    ensures NodeInv(Next(c, PublishStep(i)).nodes[j], j, c.brokered + [c.nodes[i].queue[0]])
    ensures c.nodes[i].queue[0].origin == i
  {
    var x := c.nodes[i].queue[0];
    DepartKeeps(c.nodes[i], i, true, c.brokered);
    OfOriginAppend(c.brokered, x, j);
    AcceptKeeps(c.nodes[j], x, c.brokered);
    hide Subseq, OfOrigin;
    if j == i {
      AcceptKeeps(Depart(c.nodes[i], true), x, c.brokered);
      AcceptKeepsSent(Depart(c.nodes[i], true), i, x, c.brokered + [x]);
    } else {
      AcceptKeepsSent(c.nodes[j], j, x, c.brokered + [x]);
    }
  }

  lemma AcceptKeepsSent(n: Node, i: NodeId, x: Item, brokered: seq<Item>)
    requires Sent(n, i, brokered)
    ensures Sent(Accept(n, x), i, brokered)
  {
  }

  lemma PublishKeeps(c: Cluster, i: NodeId)
    requires HubsValid(c) && Enabled(c, PublishStep(i)) && Inv(c)
    ensures Inv(Next(c, PublishStep(i)))
  {
    hide NodeInv, Apply, Depart, Accept;
    var c' := Next(c, PublishStep(i));
    PublishKeepsNode(c, i, i);
    forall j | 0 <= j < |c.nodes|
      ensures NodeInv(c'.nodes[j], j, c'.brokered)
    {
      PublishKeepsNode(c, i, j);
    }
  }

  lemma StepKeepsInv(c: Cluster, step: Step)
    requires HubsValid(c) && Enabled(c, step) && Inv(c)
    ensures Inv(Next(c, step))
  {
    hide NodeInv, Emit, Depart, Receive, Skip, Disconnect, Apply;
    var n := c.nodes[step.i];
    match step {
      case EmitStep(i, routed) => EmitKeeps(n, i, routed, c.brokered);
      case PublishStep(i) => PublishKeeps(c, i);
      case PublishFails(i) => PublishFailsKeeps(n, i, c.brokered);
      case ReceiveStep(i) => ReceiveKeeps(n, i, c.brokered);
      case SkipStep(i) => ReceiveKeeps(n, i, c.brokered);
      case DisconnectStep(i) => DisconnectKeeps(n, i, c.brokered);
      case ReconnectStep(i) => SessionsAndConnectionKeep(n, i, c.brokered, n.hub);
      case SessionStep(i, op) => SessionsAndConnectionKeep(n, i, c.brokered, Apply(n.hub, op));
    }
  }

  lemma {:induction false} RunKeepsInv(cs: seq<Cluster>, steps: seq<Step>, k: nat)
    requires IsRun(cs, steps) && Inv(cs[0]) && k <= |steps|
    ensures HubsValid(cs[k]) && Inv(cs[k]) && |cs[k].nodes| == |cs[0].nodes|
  {
    hide Inv, Next, Enabled, HubsValid;
    if k == 0 {
    } else {
      RunKeepsInv(cs, steps, k - 1);
      StepKeepsInv(cs[k - 1], steps[k - 1]);
    }
  }

  lemma InitialInv(c: Cluster)
    requires Initial(c)
    ensures HubsValid(c) && Inv(c)
  {
  }

  // ---- Conservation.

  ghost function CopiesAt(c: Cluster, x: Item, j: NodeId): nat
    requires x.origin < |c.nodes| && j < |c.nodes|
  {
    var n := c.nodes[j];
    multiset(n.remote)[x] + multiset(n.inbox)[x] + n.lost[x]
    + multiset(c.nodes[x.origin].queue)[x] + c.nodes[x.origin].failed[x]
  }

  /** For every emission and every instance, its one copy has been dispatched, waits in the
      inbox, waits in the origin's queue, or was lost; and the origin, alone, dispatched the
      emission directly, once. */
  lemma Conservation(c: Cluster, x: Item, j: NodeId)
    requires Inv(c) && x.origin < |c.nodes| && j < |c.nodes|
    requires x in c.nodes[x.origin].direct
    ensures CopiesAt(c, x, j) == 1
    ensures multiset(c.nodes[j].direct)[x] == if j == x.origin then 1 else 0
  {
    var o := c.nodes[x.origin];
    OnceInDirect(o, x, x.origin, c.brokered);
    CountOfOrigin(c.brokered, x);
    assert multiset(o.direct) == multiset(o.departed) + multiset(o.queue);
  }

  lemma OnceInDirect(n: Node, x: Item, i: NodeId, brokered: seq<Item>)
    requires Sent(n, i, brokered) && x in n.direct
    ensures multiset(n.direct)[x] == 1
  {
    CountsOnce(n.direct, x.serial);
  }

  lemma {:induction false} CountOfOrigin(items: seq<Item>, x: Item)
    ensures multiset(OfOrigin(items, x.origin))[x] == multiset(items)[x]
  {
    if items == [] {
    } else {
      CountOfOrigin(items[..|items| - 1], x);
      assert items == items[..|items| - 1] + [items[|items| - 1]];
    }
  }

  // ---- Order.

  lemma {:induction false} OfOriginKeepsSubseq(a: seq<Item>, b: seq<Item>, i: NodeId)
    requires Subseq(a, b)
    ensures Subseq(OfOrigin(a, i), OfOrigin(b, i))
    decreases |b|
  {
    hide OfOrigin;
    OfOriginNothing(i);
    if a == [] {
    } else {
      var a', b', y := a[..|a| - 1], b[..|b| - 1], b[|b| - 1];
      OfOriginAppend(b', y, i);
      assert b == b' + [y];
      if Subseq(a, b') {
        OfOriginKeepsSubseq(a, b', i);
        AppendRight(OfOrigin(a, i), OfOrigin(b', i), y);
      } else {
        OfOriginKeepsSubseq(a', b', i);
        OfOriginAppend(a', y, i);
        assert a == a' + [y];
        AppendBoth(OfOrigin(a', i), OfOrigin(b', i), y);
      }
    }
  }

  lemma OfOriginNothing(i: NodeId)
    ensures OfOrigin([], i) == []
  {
  }

  /** What instance `j` has re-dispatched of `i`'s events, then what waits in its inbox, then what
      waits in `i`'s queue, follows the order in which `i` emitted them. */
  lemma OrderIsKept(c: Cluster, i: NodeId, j: NodeId)
    requires Inv(c) && i < |c.nodes| && j < |c.nodes|
    ensures Subseq(OfOrigin(c.nodes[j].remote + c.nodes[j].inbox, i) + c.nodes[i].queue, c.nodes[i].direct)
  {
    hide Subseq, OfOrigin;
    var from, at := c.nodes[i], c.nodes[j];
    var seen := at.remote + at.inbox;
    OfOriginKeepsSubseq(seen, c.brokered, i);
    Transitive(OfOrigin(seen, i), OfOrigin(c.brokered, i), from.departed);
    AppendSame(OfOrigin(seen, i), from.departed, from.queue);
  }

  /** Without losses on the way from `i` to `j` those three parts are the whole emission order. */
  lemma OrderIsCompleteWithoutLoss(c: Cluster, i: NodeId, j: NodeId)
    requires Inv(c) && i < |c.nodes| && j < |c.nodes|
    requires c.nodes[i].failed == multiset{} && c.nodes[j].lost == multiset{}
    ensures c.nodes[j].remote + c.nodes[j].inbox == c.brokered
    ensures OfOrigin(c.nodes[j].remote + c.nodes[j].inbox, i) + c.nodes[i].queue == c.nodes[i].direct
  {
    hide Subseq, OfOrigin;
    var from, at := c.nodes[i], c.nodes[j];
    SameElementsSameSequence(at.remote + at.inbox, c.brokered);
    SameElementsSameSequence(OfOrigin(c.brokered, i), from.departed);
  }

  lemma SameElementsSameSequence(a: seq<Item>, b: seq<Item>)
    requires Subseq(a, b) && multiset(a) == multiset(b)
    ensures a == b
  {
    assert |multiset(a)| == |a| && |multiset(b)| == |b|;
    NoLonger(a, b);
  }

  lemma RemoteFollowsBroker(c: Cluster, j: NodeId)
    requires Inv(c) && j < |c.nodes|
    ensures Subseq(c.nodes[j].remote, c.brokered)
  {
    hide Subseq;
    Prefix(c.nodes[j].remote, c.nodes[j].inbox);
    Transitive(c.nodes[j].remote, c.nodes[j].remote + c.nodes[j].inbox, c.brokered);
  }

  lemma BrokeredOnce(c: Cluster, x: Item)
    requires Inv(c)
    ensures multiset(c.brokered)[x] <= 1
  {
    if x in c.brokered {
      var o := c.nodes[x.origin];
      CountOfOrigin(c.brokered, x);
      DirectOnce(o, x, x.origin, c.brokered);
    }
  }

  lemma DirectOnce(o: Node, x: Item, i: NodeId, brokered: seq<Item>)
    requires Sent(o, i, brokered)
    ensures multiset(OfOrigin(brokered, i))[x] <= 1
  {
    hide OfOrigin, Subseq;
    assert multiset(OfOrigin(brokered, i))[x] <= multiset(o.departed)[x];
    assert multiset(o.direct) == multiset(o.departed) + multiset(o.queue);
    if x in o.direct { OnceInDirect(o, x, i, brokered); } else { assert multiset(o.direct)[x] == 0; }
  }

  /** Two subsequences of a list that names `x` and `y` once each have them in the same order. */
  lemma CommonOrder(here: seq<Item>, there: seq<Item>, all: seq<Item>, x: Item, y: Item)
    requires Subseq(here, all) && Subseq(there, all)
    requires multiset(all)[x] <= 1 && multiset(all)[y] <= 1
    requires Before(here, x, y) && x in there && y in there
    ensures Before(there, x, y)
  {
    hide Subseq;
    OrderSurvives(here, all, x, y);
    OneOrder(all, x, y);
    OneOrder(all, x, x);
    var p, q :| 0 <= p < |there| && 0 <= q < |there| && there[p] == x && there[q] == y;
    if q < p {
      assert Before(there, y, x);
      OrderSurvives(there, all, y, x);
    }
  }

  /** Any two instances re-dispatch what they both re-dispatch in one common order. */
  lemma OneOrderForAll(c: Cluster, j: NodeId, k: NodeId, x: Item, y: Item)
    requires Inv(c) && j < |c.nodes| && k < |c.nodes|
    requires Before(c.nodes[j].remote, x, y) && x in c.nodes[k].remote && y in c.nodes[k].remote
    ensures Before(c.nodes[k].remote, x, y)
  {
    BrokeredOnce(c, x);
    BrokeredOnce(c, y);
    RemoteFollowsBroker(c, j);
    RemoteFollowsBroker(c, k);
    hide Inv, Subseq, Before;
    CommonOrder(c.nodes[j].remote, c.nodes[k].remote, c.brokered, x, y);
  }

  // ---- Webhooks.

  /** The deliveries that a list of emissions should cause: one per message created, updated or deleted
      in a channel. */
  function Announced(routed: RoutedEvent): seq<Descriptor> {
    if !routed.to.ToChannel? then []
    else
      match routed.event
      case MessageCreated(c, view) => [Descriptor("message.created", c, view)]
      case MessageUpdated(c, view) => [Descriptor("message.updated", c, view)]
      case MessageDeleted(c, id) => [Descriptor("message.deleted", c, id)]
      case _ => []
  }

  function FiredBy(steps: seq<Step>, i: NodeId): seq<Descriptor> {
    if steps == [] then []
    else
      var last := steps[|steps| - 1];
      FiredBy(steps[..|steps| - 1], i) + if last.EmitStep? && last.i == i then Announced(last.routed) else []
  }

  lemma FiredIsAnnounced(routed: RoutedEvent)
    ensures Fired(routed) == Announced(routed)
  {
  }

  lemma StepFires(c: Cluster, step: Step, i: NodeId)
    requires HubsValid(c) && Enabled(c, step) && i < |c.nodes|
    ensures Next(c, step).nodes[i].webhooks
         == c.nodes[i].webhooks + if step.EmitStep? && step.i == i then Announced(step.routed) else []
  {
    hide Apply, Fired, Announced;
    if step.EmitStep? { FiredIsAnnounced(step.routed); }
  }

  /** Over a run, an instance fires one webhook per channel emission that has a public name, in
      order, and none for a receipt or for a user event. */
  lemma {:induction false} WebhooksAreChannelEmissions(cs: seq<Cluster>, steps: seq<Step>, i: NodeId)
    requires IsRun(cs, steps) && Initial(cs[0]) && i < |cs[0].nodes|
    ensures i < |cs[|steps|].nodes| && cs[|steps|].nodes[i].webhooks == FiredBy(steps, i)
  {
    hide Next, Fired, Announced;
    if steps == [] {
    } else {
      var n := |steps| - 1;
      WebhooksAreChannelEmissions(cs[..n + 1], steps[..n], i);
      StepFires(cs[n], steps[n], i);
    }
  }
}
