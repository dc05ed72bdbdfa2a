/** One instance's event bus and Redis bridge (src/services/events.rs, src/services/pubsub.rs), as
    objects whose methods act by effects. Each method is proved to be the step that `FanOut.dfy`
    gives the instance, so what is proved of runs there holds of these methods. */
module EventBus {
  import opened Ids
  import opened Wrappers
  import opened SessionTable
  import opened Events
  import opened FanOut
  import H = Hub

  class EventBus {
    const me: NodeId
    const hub: H.Hub<Item>
    /** Whether the instance has a Redis bridge. */
    const bridged: bool
    /** The unbounded channel to the publisher task, and the stream the subscriber reads. */
    var outgoing: seq<Item>
    var inbox: seq<Item>
    var connected: bool
    var webhooks: seq<Descriptor>
    /** What has been emitted here; its length numbers the next emission. */
    var direct: seq<Item>
    ghost var remote: seq<Item>
    ghost var departed: seq<Item>
    ghost var failed: multiset<Item>
    ghost var lost: multiset<Item>

    constructor (me: NodeId, hub: H.Hub<Item>, bridged: bool)
      requires hub.Valid() && hub.Abs() == Table(map[], map[])
      ensures Abs() == STARTED && this.me == me && this.hub == hub && this.bridged == bridged
    {
      this.me, this.hub, this.bridged := me, hub, bridged;
      outgoing, inbox, connected, webhooks := [], [], false, [];
      direct, remote, departed, failed, lost := [], [], [], multiset{}, multiset{};
    }

    ghost function Abs(): Node
      reads this, hub
    {
      Node(hub.Abs(), webhooks, outgoing, inbox, connected, direct, remote, departed, failed, lost)
    }

    method Publish(item: Item)
      modifies `outgoing
      ensures outgoing == old(outgoing) + [item]
    {
      outgoing := outgoing + [item];
    }

    method SpawnWebhooks(event: ServerEvent)
      modifies `webhooks
      ensures webhooks == old(webhooks) + if EventDescriptor(event).Some? then [EventDescriptor(event).value] else []
    {
      match EventDescriptor(event)
      case None => return;
      case Some(d) => webhooks := webhooks + [d];
    }

    /** With a bridge, an emission is the instance's step in `FanOut`; without one it is the same
        except that nothing is queued. */
    method EmitChannel(channel: ChannelId, event: ServerEvent)
      requires hub.Valid()
      modifies this, hub
      ensures hub.Valid()
      ensures var routed := RoutedEvent(ToChannel(channel), event);
              && (bridged ==> Abs() == Emit(old(Abs()), me, routed))
              && (!bridged ==> Abs() == Emit(old(Abs()), me, routed).(queue := old(outgoing)))
      ensures webhooks == old(webhooks) + if EventDescriptor(event).Some? then [EventDescriptor(event).value] else []
    {
      hide Apply;
      var tagged := Item(me, |direct|, RoutedEvent(ToChannel(channel), event));
      hub.DispatchChannel(channel, tagged);
      direct := direct + [tagged];
      if bridged {
        Publish(tagged);
      }
      SpawnWebhooks(event);
    }

    method EmitUser(user: UserId, event: ServerEvent)
      requires hub.Valid()
      modifies this, hub
      ensures hub.Valid()
      ensures var routed := RoutedEvent(ToUser(user), event);
              && (bridged ==> Abs() == Emit(old(Abs()), me, routed))
              && (!bridged ==> Abs() == Emit(old(Abs()), me, routed).(queue := old(outgoing)))
      ensures webhooks == old(webhooks)
    {
      hide Apply;
      var tagged := Item(me, |direct|, RoutedEvent(ToUser(user), event));
      hub.DispatchUser(user, tagged);
      direct := direct + [tagged];
      if bridged {
        Publish(tagged);
      }
    }

    /** Re-dispatches an event from the bridge; nothing is queued and no webhook fires. */
    method DispatchRemote(item: Item)
      requires hub.Valid()
      modifies hub
      ensures hub.Valid() && hub.Abs() == Apply(old(hub.Abs()), Dispatch(item.routed.to, item))
    {
      match item.routed.to
      case ToChannel(channel) => hub.DispatchChannel(channel, item);
      case ToUser(user) => hub.DispatchUser(user, item);
    }

    /** The publisher task over everything queued. `published` is what it hands to the broker, in
        order; where `sends` says that publication fails, the event is dropped with a warning. */
    method RunPublisher(sends: Item -> bool) returns (published: seq<Item>)
      modifies this
      ensures Abs() == DepartAll(old(Abs()), sends)
      ensures published == Kept(old(outgoing), sends)
    {
      hide DepartAll, Kept;
      published := [];
      ghost var n := Abs();
      while outgoing != []
        invariant DepartAll(Abs(), sends) == DepartAll(n, sends)
        invariant published + Kept(outgoing, sends) == Kept(n.queue, sends)
        decreases |outgoing|
      {
        var item := outgoing[0];
        ghost var before := Abs();
        HeadDeparts(before, n, sends, published);
        outgoing := outgoing[1..];
        departed := departed + [item];
        if sends(item) {
          published := published + [item];
        } else {
          failed := failed + multiset{item};
        }
        assert Abs() == Depart(before, sends(item));
      }
      DepartAllDone(Abs(), sends);
    }

    /** The subscriber loop over everything received. Payloads that `parses` rejects are skipped; one
        that is not `readable` ends the loop and the subscription, and what was still to come is lost. */
    method RunSubscriber(readable: Item -> bool, parses: Item -> bool) returns (ok: bool)
      requires hub.Valid()
      modifies this, hub
      ensures hub.Valid() && Abs() == ReceiveAll(old(Abs()), readable, parses)
      ensures ok <==> AllReadable(old(inbox), readable)
    {
      hide Apply, ReceiveAll, AllReadable;
      ghost var n := Abs();
      while inbox != []
        invariant hub.Valid() && ReceiveAll(Abs(), readable, parses) == ReceiveAll(n, readable, parses)
        invariant AllReadable(inbox, readable) == AllReadable(n.inbox, readable)
        decreases |inbox|
      {
        var item := inbox[0];
        ghost var before := Abs();
        ReceiveAllStep(before, readable, parses);
        ReadableStep(before.inbox, readable);
        if !readable(item) {
          connected, lost, inbox := false, lost + multiset(inbox), [];
          assert Abs() == Disconnect(before);
          return false;
        }
        inbox := inbox[1..];
        if parses(item) {
          DispatchRemote(item);
          remote := remote + [item];
          assert Abs() == Receive(before);
        } else {
          lost := lost + multiset{item};
          assert Abs() == Skip(before);
        }
      }
      ReceiveAllDone(Abs(), readable, parses);
      ok := true;
    }
  }

  // ---- What the two loops amount to, step by step.

  function DepartAll(n: Node, sends: Item -> bool): Node
    decreases |n.queue|
  {
    if n.queue == [] then n else DepartAll(Depart(n, sends(n.queue[0])), sends)
  }

  function Kept(items: seq<Item>, sends: Item -> bool): seq<Item> {
    if items == [] then []
    else (if sends(items[0]) then [items[0]] else []) + Kept(items[1..], sends)
  }

  ghost function ReceiveAll(n: Node, readable: Item -> bool, parses: Item -> bool): Node
    requires n.hub.Valid()
    decreases |n.inbox|
  {
    if n.inbox == [] then n
    else if !readable(n.inbox[0]) then Disconnect(n)
    else ReceiveAll(if parses(n.inbox[0]) then Receive(n) else Skip(n), readable, parses)
  }

  predicate AllReadable(items: seq<Item>, readable: Item -> bool) {
    forall i :: 0 <= i < |items| ==> readable(items[i])
  }

  /** What comes before the first payload that cannot be read. */
  function ReadablePart(items: seq<Item>, readable: Item -> bool): seq<Item> {
    if items == [] || !readable(items[0]) then [] else [items[0]] + ReadablePart(items[1..], readable)
  }

  lemma DepartAllStep(n: Node, sends: Item -> bool)
    requires n.queue != []
    ensures DepartAll(n, sends) == DepartAll(Depart(n, sends(n.queue[0])), sends)
  {
  }

  lemma DepartAllDone(n: Node, sends: Item -> bool)
    requires n.queue == []
    ensures DepartAll(n, sends) == n && Kept([], sends) == []
  {
  }

  lemma ReceiveAllStep(n: Node, readable: Item -> bool, parses: Item -> bool)
    requires n.hub.Valid() && n.inbox != []
    ensures ReceiveAll(n, readable, parses) ==
            if !readable(n.inbox[0]) then Disconnect(n)
            else ReceiveAll(if parses(n.inbox[0]) then Receive(n) else Skip(n), readable, parses)
  {
  }

  lemma ReceiveAllDone(n: Node, readable: Item -> bool, parses: Item -> bool)
    requires n.hub.Valid() && n.inbox == []
    ensures ReceiveAll(n, readable, parses) == n && AllReadable([], readable)
    ensures Kept([], parses) == [] && ReadablePart([], readable) == []
  {
  }

  lemma ReadableStep(items: seq<Item>, readable: Item -> bool)
    requires items != []
    ensures !readable(items[0]) ==> ReadablePart(items, readable) == []
    ensures readable(items[0]) ==> ReadablePart(items, readable) == [items[0]] + ReadablePart(items[1..], readable)
    ensures AllReadable(items, readable) <==> readable(items[0]) && AllReadable(items[1..], readable)
  {
    assert forall i :: 0 < i < |items| ==> items[i] == items[1..][i - 1];
    assert forall i :: 0 <= i < |items[1..]| ==> items[1..][i] == items[i + 1];
  }

  lemma KeptStep(items: seq<Item>, keeps: Item -> bool)
    requires items != []
    ensures Kept(items, keeps) ==
            if keeps(items[0]) then [items[0]] + Kept(items[1..], keeps) else Kept(items[1..], keeps)
  {
  }

  lemma OneMore(a: multiset<Item>, b: multiset<Item>, c: multiset<Item>, d: multiset<Item>, x: Item)
    ensures a + b == c + d ==> multiset{x} + a + b == multiset{x} + c + d
    ensures a + b == c + (d + multiset{x}) ==> a + b == multiset{x} + c + d
  {
    assert c + (d + multiset{x}) == multiset{x} + c + d;
    if a + b == c + d {
      assert multiset{x} + a + b == multiset{x} + (a + b);
      assert multiset{x} + c + d == multiset{x} + (c + d);
    }
  }

  /** The publisher empties the queue in order, and what it does not hand over has failed. */
  lemma {:induction false} PublisherDrains(n: Node, sends: Item -> bool)
    ensures DepartAll(n, sends).queue == [] && DepartAll(n, sends).departed == n.departed + n.queue
    ensures multiset(Kept(n.queue, sends)) + DepartAll(n, sends).failed == multiset(n.queue) + n.failed
    decreases |n.queue|
  {
    hide DepartAll, Kept;
    if n.queue == [] {
      DepartAllDone(n, sends);
      assert n.departed + n.queue == n.departed;
    } else {
      var x, n' := n.queue[0], Depart(n, sends(n.queue[0]));
      DepartAllStep(n, sends);
      KeptStep(n.queue, sends);
      PublisherDrains(n', sends);
      HeadPublished(n, x, Kept(n'.queue, sends), DepartAll(n', sends).failed, sends(x));
      assert n'.departed + n'.queue == n.departed + n.queue;
    }
  }

  lemma {:induction false} KeptJoins(a: seq<Item>, b: seq<Item>, keeps: Item -> bool)
    ensures Kept(a + b, keeps) == Kept(a, keeps) + Kept(b, keeps)
  {
    if a == [] {
      assert a + b == b;
      NothingKept(keeps);
      assert [] + Kept(b, keeps) == Kept(b, keeps);
    } else {
      KeptJoins(a[1..], b, keeps);
      hide Kept;
      assert (a + b)[1..] == a[1..] + b;
      KeptStep(a + b, keeps);
      KeptStep(a, keeps);
      PrependJoins(a[0], Kept(a[1..], keeps), Kept(b, keeps));
    }
  }

  lemma PrependJoins(x: Item, a: seq<Item>, b: seq<Item>)
    ensures [x] + (a + b) == ([x] + a) + b
  {
  }

  /** What passes is kept, as often as it is there, and nothing else. */
  lemma {:induction false} KeptPasses(items: seq<Item>, keeps: Item -> bool, x: Item)
    ensures multiset(Kept(items, keeps))[x] == if keeps(x) then multiset(items)[x] else 0
  {
    if items == [] {
    } else {
      assert items == [items[0]] + items[1..];
      KeptPasses(items[1..], keeps, x);
    }
  }

  /** What the broker refuses fails, and nothing else. */
  lemma PublisherFails(n: Node, sends: Item -> bool, x: Item)
    ensures DepartAll(n, sends).failed[x] == n.failed[x] + if sends(x) then 0 else multiset(n.queue)[x]
  {
    hide DepartAll, Kept;
    PublisherDrains(n, sends);
    KeptPasses(n.queue, sends, x);
    var kept, left := multiset(Kept(n.queue, sends)), DepartAll(n, sends).failed;
    assert (kept + left)[x] == (multiset(n.queue) + n.failed)[x];
  }

  /** The readable part ends at the end or just before an unreadable payload. */
  lemma {:induction false} ReadablePartEnds(items: seq<Item>, readable: Item -> bool)
    ensures var part := ReadablePart(items, readable);
            && part <= items && (forall x :: x in part ==> readable(x))
            && (|part| < |items| ==> !readable(items[|part|]))
  {
    if items == [] || !readable(items[0]) {
    } else {
      ReadablePartEnds(items[1..], readable);
    }
  }

  lemma HeadDeparts(m: Node, n: Node, sends: Item -> bool, published: seq<Item>)
    requires m.queue != [] && DepartAll(m, sends) == DepartAll(n, sends)
    requires published + Kept(m.queue, sends) == Kept(n.queue, sends)
    ensures var x, rest := m.queue[0], Kept(m.queue[1..], sends);
            && DepartAll(Depart(m, sends(x)), sends) == DepartAll(n, sends)
            && (sends(x) ==> (published + [x]) + rest == Kept(n.queue, sends))
            && (!sends(x) ==> published + rest == Kept(n.queue, sends))
  {
    hide DepartAll, Kept;
    DepartAllStep(m, sends);
    KeptStep(m.queue, sends);
  }

  lemma HeadPublished(n: Node, x: Item, kept: seq<Item>, failed: multiset<Item>, published: bool)
    requires n.queue != [] && x == n.queue[0]
    requires multiset(kept) + failed == multiset(n.queue[1..]) + Depart(n, published).failed
    ensures multiset(if published then [x] + kept else kept) + failed == multiset(n.queue) + n.failed
  {
    assert n.queue == [x] + n.queue[1..];
    assert multiset(n.queue) == multiset{x} + multiset(n.queue[1..]);
    assert multiset([x] + kept) == multiset{x} + multiset(kept);
    OneMore(multiset(kept), failed, multiset(n.queue[1..]), n.failed, x);
  }

  /** The subscriber empties its inbox and touches neither the queue nor the webhooks. It has
      re-dispatched, in order, what parses of all that came before the first unreadable payload, and
      stays subscribed if and only if there was none. */
  lemma {:induction false} SubscriberDrains(n: Node, readable: Item -> bool, parses: Item -> bool)
    requires n.hub.Valid()
    ensures var n', read := ReceiveAll(n, readable, parses), ReadablePart(n.inbox, readable);
            && n'.inbox == [] && n'.queue == n.queue && n'.webhooks == n.webhooks && n'.direct == n.direct
            && n'.remote == n.remote + Kept(read, parses)
            && n'.connected == (n.connected && AllReadable(n.inbox, readable))
    decreases |n.inbox|
  {
    hide Apply, ReceiveAll, Kept, ReadablePart, AllReadable;
    NothingKept(parses);
    if n.inbox == [] {
      ReceiveAllDone(n, readable, parses);
      assert n.remote + [] == n.remote;
    } else {
      var n' := if parses(n.inbox[0]) then Receive(n) else Skip(n);
      ReceiveAllStep(n, readable, parses);
      ReadableStep(n.inbox, readable);
      if !readable(n.inbox[0]) {
        assert n.remote + [] == n.remote;
      } else {
        var rest := ReadablePart(n.inbox[1..], readable);
        SubscriberDrains(n', readable, parses);
        KeptStep([n.inbox[0]] + rest, parses);
        assert ([n.inbox[0]] + rest)[1..] == rest;
        assert n'.remote + Kept(rest, parses) == n.remote + Kept([n.inbox[0]] + rest, parses);
      }
    }
  }

  lemma NothingKept(parses: Item -> bool)
    ensures Kept([], parses) == []
  {
  }
}
