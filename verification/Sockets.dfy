/** Sockets: what connecting, disconnecting and a client's frames do (src/ws/handler.rs), on any
    number of instances that share the membership and presence tables.

    An emission here is the event bus's local dispatch together with a note of what was emitted;
    how emissions travel between instances is the subject of `FanOut.dfy`. A hub change and the
    presence write that follows it are one step here; `PresenceWrites.dfy` separates them. */
module Sockets {
  import opened Ids
  import opened T = SessionTable
  import E = Events

  type Frame = E.ServerEvent

  datatype Instance = Instance(hub: Table<Frame>, emitted: seq<E.RoutedEvent>)

  datatype PresenceRow = PresenceRow(online: bool, lastSeen: int)

  /** `members` are the membership rows. */
  datatype Site = Site(instances: seq<Instance>, members: set<(ChannelId, UserId)>, presence: map<UserId, PresenceRow>)

  datatype ClientFrame =
    | Malformed
    | Subscribe(channel: ChannelId)
    | Unsubscribe(channel: ChannelId)
    | Typing(channel: ChannelId)
    | Ping

  datatype Step =
    | Connect(i: NodeId, s: SessionId, user: UserId, now: int)
    | Disconnect(i: NodeId, s: SessionId, now: int)
    | Receive(i: NodeId, s: SessionId, frame: ClientFrame)
    | Join(channel: ChannelId, user: UserId)
    | Leave(channel: ChannelId, user: UserId)

  ghost function EmitAt(n: Instance, to: Target, event: Frame): Instance
    requires n.hub.Valid()
  {
    Instance(Apply(n.hub, Op.Dispatch(to, event)), n.emitted + [E.RoutedEvent(to, event)])
  }

  ghost function Tell(n: Instance, user: UserId, event: Frame): Instance
    requires n.hub.Valid()
  {
    n.(hub := Apply(n.hub, Op.Dispatch(ToUser(user), event)))
  }

  /** Subscribing and typing need membership; only a refused subscription is answered. */
  ghost function Handle(
    n: Instance, members: set<(ChannelId, UserId)>, s: SessionId, user: UserId, frame: ClientFrame): Instance
    requires n.hub.Valid()
  {
    match frame
    case Malformed => Tell(n, user, E.Error("malformed client event"))
    case Subscribe(c) =>
      if (c, user) in members then n.(hub := Apply(n.hub, Op.Subscribe(s, c)))
      else Tell(n, user, E.Error("cannot subscribe: not a member"))
    case Unsubscribe(c) => n.(hub := Apply(n.hub, Op.Unsubscribe(s, c)))
    case Typing(c) => if (c, user) in members then EmitAt(n, ToChannel(c), E.Typing(c, user)) else n
    case Ping => Tell(n, user, E.Pong)
  }

  /** A user who comes online or goes offline at an instance is marked so and announced there. */
  ghost function Mark(n: Instance, user: UserId, online: bool, now: int): Instance
    requires n.hub.Valid()
  {
    EmitAt(n, ToUser(user), E.ServerEvent.Presence(user, online, now))
  }

  ghost function ConnectAt(n: Instance, s: SessionId, user: UserId, now: int): Instance
    requires n.hub.Valid()
  {
    var joined := n.(hub := Apply(n.hub, Op.Register(s, user)));
    if n.hub.Online(user) then joined else Mark(joined, user, true, now)
  }

  ghost function DisconnectAt(n: Instance, s: SessionId, now: int): Instance
    requires n.hub.Valid() && s in n.hub.sessions
  {
    var user := n.hub.sessions[s].user;
    var left := n.(hub := Apply(n.hub, Op.Unregister(s)));
    if left.hub.Online(user) then left else Mark(left, user, false, now)
  }

  ghost predicate HubsValid(site: Site) { forall i :: 0 <= i < |site.instances| ==> site.instances[i].hub.Valid() }

  ghost predicate Live(site: Site, i: NodeId, s: SessionId) {
    i < |site.instances| && s in site.instances[i].hub.sessions
  }

  ghost predicate Enabled(site: Site, step: Step) {
    match step
    case Connect(i, s, _, _) => i < |site.instances| && s !in site.instances[i].hub.log
    case Disconnect(i, s, _) => Live(site, i, s)
    case Receive(i, s, _) => Live(site, i, s)
    case _ => true
  }

  ghost function Next(site: Site, step: Step): (site': Site)
    requires HubsValid(site) && Enabled(site, step)
    ensures HubsValid(site')
  {
    match step
    case Connect(i, s, u, now) =>
      var n := site.instances[i];
      Site(site.instances[i := ConnectAt(n, s, u, now)], site.members,
           if n.hub.Online(u) then site.presence else site.presence[u := PresenceRow(true, now)])
    case Disconnect(i, s, now) =>
      var n := site.instances[i];
      var u := n.hub.sessions[s].user;
      Site(site.instances[i := DisconnectAt(n, s, now)], site.members,
           if LastAt(n, s) then site.presence[u := PresenceRow(false, now)] else site.presence)
    case Receive(i, s, frame) =>
      var n := site.instances[i];
      site.(instances := site.instances[i := Handle(n, site.members, s, n.hub.sessions[s].user, frame)])
    case Join(c, u) => site.(members := site.members + {(c, u)})
    case Leave(c, u) => site.(members := site.members - {(c, u)})
  }

  /** Session `s` is its user's last one at the instance. */
  ghost predicate LastAt(n: Instance, s: SessionId)
    requires n.hub.Valid() && s in n.hub.sessions
  {
    !Apply(n.hub, Op.Unregister(s)).Online(n.hub.sessions[s].user)
  }

  /** `sites` are the successive states of a run that takes `steps`. */
  ghost predicate IsRun(sites: seq<Site>, steps: seq<Step>) {
    && |sites| == |steps| + 1
    && HubsValid(sites[0])
    && forall k :: 0 <= k < |steps| ==>
         HubsValid(sites[k]) && Enabled(sites[k], steps[k]) && sites[k + 1] == Next(sites[k], steps[k])
  }

  ghost predicate Initial(site: Site) {
    && site.members == {} && site.presence == map[]
    && forall i :: 0 <= i < |site.instances| ==> site.instances[i] == Instance(Table(map[], map[]), [])
  }

  // ---- The presence table.

  ghost predicate OnlineAt(site: Site, i: NodeId, u: UserId) {
    i < |site.instances| && site.instances[i].hub.Online(u)
  }

  ghost predicate OnlineSomewhere(site: Site, u: UserId) { exists i :: OnlineAt(site, i, u) }

  /** The user's presence row is marked online. No endpoint answers from the mark: they ask the hub of
      the instance that serves the request. */
  predicate MarkedOnline(presence: map<UserId, PresenceRow>, u: UserId) { u in presence && presence[u].online }

  /** A presence row is marked online exactly while the user has a session anywhere. */
  ghost predicate PresenceRight(site: Site) { forall u: UserId :: RowRight(site, u) }

  ghost predicate RowRight(site: Site, u: UserId) { MarkedOnline(site.presence, u) <==> OnlineSomewhere(site, u) }

  /** A user's last session at one instance ends while they have another elsewhere. */
  ghost predicate LeavesBehind(site: Site, step: Step)
    requires HubsValid(site) && Enabled(site, step)
  {
    && step.Disconnect? && LastAt(site.instances[step.i], step.s)
    && exists j :: j != step.i && OnlineAt(site, j, site.instances[step.i].hub.sessions[step.s].user)
  }

  lemma OnlineAfterRegister(t: Table<Frame>, s: SessionId, user: UserId, u: UserId)
    requires t.Valid() && s !in t.log
    ensures Apply(t, Op.Register(s, user)).Online(u) <==> u == user || t.Online(u)
  {
    OnlineChangesAtEdges(t, Op.Register(s, user), u);
  }

  lemma OnlineAfterUnregister(t: Table<Frame>, s: SessionId, u: UserId)
    requires t.Valid() && s in t.sessions
    ensures u != t.sessions[s].user ==> (Apply(t, Op.Unregister(s)).Online(u) <==> t.Online(u))
    ensures t.Online(t.sessions[s].user)
  {
    OnlineChangesAtEdges(t, Op.Unregister(s), u);
  }

  lemma OnlineAfterFrame(
    n: Instance, members: set<(ChannelId, UserId)>, s: SessionId, user: UserId, frame: ClientFrame, u: UserId)
    requires n.hub.Valid()
    ensures Handle(n, members, s, user, frame).hub.Online(u) <==> n.hub.Online(u)
  {
    match frame
    case Subscribe(c) => OnlineChangesAtEdges(n.hub, Op.Subscribe(s, c), u);
    case Unsubscribe(c) => OnlineChangesAtEdges(n.hub, Op.Unsubscribe(s, c), u);
    case _ =>
  }

  /** Who is online where after a step. */
  lemma StepOnline(site: Site, step: Step, j: NodeId, u: UserId)
    requires HubsValid(site) && Enabled(site, step)
    ensures var site' := Next(site, step);
            && |site'.instances| == |site.instances|
            && (OnlineAt(site', j, u) <==>
                  if step.Connect? && step.i == j && step.user == u then true
                  else if step.Disconnect? && step.i == j && Ends(site, step, u) then false
                  else OnlineAt(site, j, u))
  {
    match step
    case Connect(i, s, user, now) => OnlineAfterRegister(site.instances[i].hub, s, user, u);
    case Disconnect(i, s, now) => OnlineAfterUnregister(site.instances[i].hub, s, u);
    case Receive(i, s, frame) =>
      OnlineAfterFrame(site.instances[i], site.members, s, site.instances[i].hub.sessions[s].user, frame, u);
    case _ =>
  }

  /** The step ends user `u`'s last session at its instance. */
  ghost predicate Ends(site: Site, step: Step, u: UserId)
    requires HubsValid(site) && Enabled(site, step) && step.Disconnect?
  {
    LastAt(site.instances[step.i], step.s) && site.instances[step.i].hub.sessions[step.s].user == u
  }

  lemma StepMarks(site: Site, step: Step, u: UserId)
    requires HubsValid(site) && Enabled(site, step)
    ensures MarkedOnline(Next(site, step).presence, u) <==>
              if step.Connect? && step.user == u && !OnlineAt(site, step.i, u) then true
              else if step.Disconnect? && Ends(site, step, u) then false
              else MarkedOnline(site.presence, u)
  {
    hide Apply;
  }

  /** With each hub change and its write as one step, exactly the steps that leave a session behind
      make a presence row wrong. */
  lemma StepKeepsPresenceIff(site: Site, step: Step)
    requires HubsValid(site) && Enabled(site, step) && PresenceRight(site)
    ensures PresenceRight(Next(site, step)) <==> !LeavesBehind(site, step)
  {
    var site' := Next(site, step);
    hide Next, Apply, LastAt;
    forall u: UserId
      ensures RowRight(site', u) <==> !(LeavesBehind(site, step) && Ends(site, step, u))
    {
      StepPresenceOf(site, step, u);
    }
    if LeavesBehind(site, step) {
      var u := site.instances[step.i].hub.sessions[step.s].user;
      assert Ends(site, step, u);
    }
  }

  lemma StepPresenceOf(site: Site, step: Step, u: UserId)
    requires HubsValid(site) && Enabled(site, step) && PresenceRight(site)
    ensures var site' := Next(site, step);
            RowRight(site', u) <==> !(LeavesBehind(site, step) && Ends(site, step, u))
  {
    var site' := Next(site, step);
    assert RowRight(site, u);
    StepMarks(site, step, u);
    forall j: NodeId
      ensures OnlineAt(site', j, u) <==>
                if step.Connect? && step.i == j && step.user == u then true
                else if step.Disconnect? && step.i == j && Ends(site, step, u) then false
                else OnlineAt(site, j, u)
    {
      StepOnline(site, step, j, u);
    }
    hide Next, Apply, LastAt;
  }

  ghost predicate AlwaysRight(sites: seq<Site>) { forall k :: 0 <= k < |sites| ==> PresenceRight(sites[k]) }

  ghost predicate NobodyLeftBehind(sites: seq<Site>, steps: seq<Step>)
    requires IsRun(sites, steps)
  {
    forall k :: 0 <= k < |steps| ==> !LeavesBehind(sites[k], steps[k])
  }

  /** With each hub change and its write as one step, over a whole run the presence table is right
      throughout if and only if no session was ever left behind. */
  lemma PresenceIsRightIff(sites: seq<Site>, steps: seq<Step>)
    requires IsRun(sites, steps) && Initial(sites[0])
    ensures AlwaysRight(sites) <==> NobodyLeftBehind(sites, steps)
  {
    hide Next, Enabled, HubsValid, PresenceRight, LeavesBehind, Initial;
    InitialIsRight(sites[0]);
    if NobodyLeftBehind(sites, steps) {
      for k := 0 to |steps|
        invariant forall m :: 0 <= m <= k ==> PresenceRight(sites[m])
      {
        StepKeepsPresenceIff(sites[k], steps[k]);
      }
    } else {
      var k :| 0 <= k < |steps| && LeavesBehind(sites[k], steps[k]);
      if PresenceRight(sites[k]) {
        StepKeepsPresenceIff(sites[k], steps[k]);
        assert !PresenceRight(sites[k + 1]);
      }
    }
  }

  lemma InitialIsRight(site: Site)
    requires Initial(site)
    ensures PresenceRight(site) && SubscribersAreMembers(site)
  {
  }

  /** On a single instance none can be. That holds for writes that are one step with their hub change;
      `PresenceWrites.ReloadMarksOffline` shows what becomes of it when they are separate. */
  lemma OneInstanceIsAlwaysRight(sites: seq<Site>, steps: seq<Step>)
    requires IsRun(sites, steps) && Initial(sites[0]) && |sites[0].instances| == 1
    ensures AlwaysRight(sites)
  {
    hide Next, Enabled, HubsValid, PresenceRight, Initial, LeavesBehind;
    for k := 0 to |steps|
      invariant forall m :: 0 <= m <= k ==> |sites[m].instances| == 1
    {
      StepOnline(sites[k], steps[k], 0, 0);
    }
    forall k | 0 <= k < |steps| ensures !LeavesBehind(sites[k], steps[k]) { NobodyElsewhere(sites[k], steps[k]); }
    PresenceIsRightIff(sites, steps);
  }

  lemma NobodyElsewhere(site: Site, step: Step)
    requires HubsValid(site) && Enabled(site, step) && |site.instances| == 1
    ensures !LeavesBehind(site, step)
  {
  }

  lemma Extend(sites: seq<Site>, steps: seq<Step>, step: Step) returns (sites': seq<Site>, steps': seq<Step>)
    requires IsRun(sites, steps) && HubsValid(sites[|steps|]) && Enabled(sites[|steps|], step)
    ensures IsRun(sites', steps') && steps' == steps + [step] && sites <= sites'
    ensures |sites'| == |steps'| + 1 && HubsValid(sites'[|steps'|])
    ensures sites'[|steps'|] == Next(sites[|steps|], step)
  {
    hide Next, Enabled;
    sites', steps' := sites + [Next(sites[|steps|], step)], steps + [step];
  }

  /** A user with a session at each of two instances closes one of them, and their presence row is
      marked offline although they are connected. */
  lemma OfflineWhileOnline()
    ensures exists sites: seq<Site>, steps: seq<Step>, u: UserId ::
              IsRun(sites, steps) && Initial(sites[0])
              && OnlineSomewhere(sites[|steps|], u) && !MarkedOnline(sites[|steps|].presence, u)
  {
    hide Next, ConnectAt, LastAt, IsRun, Enabled;
    var none := Instance(Table(map[], map[]), []);
    var start := Site([none, none], {}, map[]);
    Begin(start);
    var sites, steps := [start], [];
    Connects(start, 0, 1, 7, 0);
    sites, steps := Extend(sites, steps, Connect(0, 1, 7, 0));
    Connects(sites[|steps|], 1, 2, 7, 1);
    sites, steps := Extend(sites, steps, Connect(1, 2, 7, 1));
    var two := sites[|steps|];
    assert two.instances[0].hub.sessions.Keys == {1};
    assert two.instances[0].hub.sessions[1].user == 7 && two.instances[1].hub.sessions[2].user == 7;
    OnlyIsLast(two.instances[0], 1);
    assert OnlineAt(two, 1, 7);
    var closes := Disconnect(0, 1, 2);
    Disconnects(two, 0, 1, 2);
    StepMarks(two, closes, 7);
    StepOnline(two, closes, 1, 7);
    sites, steps := Extend(sites, steps, closes);
    assert sites[0] == start && OnlineSomewhere(sites[|steps|], 7);
  }

  lemma Begin(site: Site)
    requires HubsValid(site)
    ensures IsRun([site], [])
  {
  }

  lemma Connects(site: Site, i: NodeId, s: SessionId, user: UserId, now: int)
    requires HubsValid(site) && i < |site.instances| && s !in site.instances[i].hub.log
    ensures Enabled(site, Connect(i, s, user, now))
    ensures var site' := Next(site, Connect(i, s, user, now));
            && |site'.instances| == |site.instances| && site'.members == site.members
            && (forall j :: 0 <= j < |site.instances| && j != i ==> site'.instances[j] == site.instances[j])
            && site'.instances[i].hub.sessions == site.instances[i].hub.sessions[s := Session(user, {})]
  {
  }

  lemma Disconnects(site: Site, i: NodeId, s: SessionId, now: int)
    requires HubsValid(site) && Live(site, i, s)
    ensures Enabled(site, Disconnect(i, s, now))
  {
  }

  lemma OnlyIsLast(n: Instance, s: SessionId)
    requires n.hub.Valid() && n.hub.sessions.Keys == {s}
    ensures LastAt(n, s)
  {
  }

  // ---- Subscriptions and membership.

  ghost predicate Subscribed(site: Site, i: NodeId, s: SessionId, c: ChannelId, u: UserId) {
    && Live(site, i, s) && site.instances[i].hub.sessions[s].user == u
    && c in site.instances[i].hub.sessions[s].subscriptions
  }

  ghost predicate SubscribersAreMembers(site: Site) {
    forall i: NodeId, s: SessionId, c: ChannelId, u: UserId :: Subscribed(site, i, s, c, u) ==> (c, u) in site.members
  }

  /** An event emitted to channel `c` at instance `i` would be sent to session `s` of user `u`. */
  ghost predicate Reaches(site: Site, i: NodeId, s: SessionId, c: ChannelId, u: UserId, event: Frame)
    requires HubsValid(site)
  {
    && Live(site, i, s) && site.instances[i].hub.sessions[s].user == u
    && var n, n' := site.instances[i], EmitAt(site.instances[i], ToChannel(c), event);
       n'.hub.log[s] == n.hub.log[s] + [event]
  }

  /** Whatever is emitted to a channel reaches members of the channel only. */
  ghost predicate ReachesMembersOnly(site: Site)
    requires HubsValid(site)
  {
    forall i: NodeId, s: SessionId, c: ChannelId, u: UserId, event ::
      Reaches(site, i, s, c, u, event) ==> (c, u) in site.members
  }

  lemma ReachesSubscribed(site: Site, i: NodeId, s: SessionId, c: ChannelId, u: UserId, event: Frame)
    requires HubsValid(site)
    ensures Reaches(site, i, s, c, u, event) <==> Subscribed(site, i, s, c, u)
  {
    if Live(site, i, s) { assert s in site.instances[i].hub.log; }
  }

  lemma ReachesMembersIff(site: Site)
    requires HubsValid(site)
    ensures ReachesMembersOnly(site) <==> SubscribersAreMembers(site)
  {
    hide Reaches, Subscribed;
    forall i: NodeId, s: SessionId, c: ChannelId, u: UserId, event: Frame
      ensures Reaches(site, i, s, c, u, event) <==> Subscribed(site, i, s, c, u)
    {
      ReachesSubscribed(site, i, s, c, u, event);
    }
    if ReachesMembersOnly(site) {
      forall i: NodeId, s: SessionId, c: ChannelId, u: UserId | Subscribed(site, i, s, c, u)
        ensures (c, u) in site.members
      {
        assert Reaches(site, i, s, c, u, E.Pong);
      }
    }
  }

  /** A member leaves a channel while a session of theirs is subscribed to it. */
  ghost predicate LeavesSubscribed(site: Site, step: Step) {
    step.Leave? && exists i: NodeId, s: SessionId :: Subscribed(site, i, s, step.channel, step.user)
  }

  lemma StepSubscribed(site: Site, step: Step, i: NodeId, s: SessionId, c: ChannelId, u: UserId)
    requires HubsValid(site) && Enabled(site, step)
    ensures Subscribed(Next(site, step), i, s, c, u) ==>
              Subscribed(site, i, s, c, u) || (c, u) in site.members
    ensures step.Join? || step.Leave? ==> (Subscribed(Next(site, step), i, s, c, u) <==> Subscribed(site, i, s, c, u))
  {
  }

  /** Exactly leaving while subscribed lets a channel's events reach somebody who is no member:
      membership is checked when a client subscribes, not when an event is delivered. */
  lemma StepKeepsSubscribersIff(site: Site, step: Step)
    requires HubsValid(site) && Enabled(site, step) && SubscribersAreMembers(site)
    ensures SubscribersAreMembers(Next(site, step)) <==> !LeavesSubscribed(site, step)
  {
    var site' := Next(site, step);
    StepMembers(site, step);
    hide Next, Subscribed;
    forall i: NodeId, s: SessionId, c: ChannelId, u: UserId
      ensures Subscribed(site', i, s, c, u) ==> Subscribed(site, i, s, c, u) || (c, u) in site.members
      ensures step.Join? || step.Leave? ==> (Subscribed(site', i, s, c, u) <==> Subscribed(site, i, s, c, u))
    {
      StepSubscribed(site, step, i, s, c, u);
    }
  }

  lemma StepMembers(site: Site, step: Step)
    requires HubsValid(site) && Enabled(site, step)
    ensures var members := Next(site, step).members;
            if step.Leave? then members == site.members - {(step.channel, step.user)} else site.members <= members
  {
  }

  ghost predicate NobodyLeavesSubscribed(sites: seq<Site>, steps: seq<Step>)
    requires IsRun(sites, steps)
  {
    forall k :: 0 <= k < |steps| ==> !LeavesSubscribed(sites[k], steps[k])
  }

  lemma RunsAreValid(sites: seq<Site>, steps: seq<Step>, k: nat)
    requires IsRun(sites, steps) && k <= |steps|
    ensures HubsValid(sites[k])
  {
    if k > 0 { assert sites[k] == Next(sites[k - 1], steps[k - 1]); }
  }

  /** Over a whole run, channel events could only ever reach members if and only if nobody left a
      channel that one of their sessions was subscribed to. */
  lemma OnlyMembersReachedIff(sites: seq<Site>, steps: seq<Step>)
    requires IsRun(sites, steps) && Initial(sites[0])
    ensures forall k :: 0 <= k < |sites| ==> HubsValid(sites[k])
    ensures (forall k :: 0 <= k < |sites| ==> ReachesMembersOnly(sites[k])) <==> NobodyLeavesSubscribed(sites, steps)
  {
    hide Next, Enabled, HubsValid, SubscribersAreMembers, LeavesSubscribed, Initial, ReachesMembersOnly;
    forall k | 0 <= k < |sites|
      ensures HubsValid(sites[k]) && (ReachesMembersOnly(sites[k]) <==> SubscribersAreMembers(sites[k]))
    {
      RunsAreValid(sites, steps, k);
      ReachesMembersIff(sites[k]);
    }
    InitialIsRight(sites[0]);
    if NobodyLeavesSubscribed(sites, steps) {
      for k := 0 to |steps|
        invariant forall m :: 0 <= m <= k ==> SubscribersAreMembers(sites[m])
      {
        StepKeepsSubscribersIff(sites[k], steps[k]);
      }
    } else {
      var k :| 0 <= k < |steps| && LeavesSubscribed(sites[k], steps[k]);
      if SubscribersAreMembers(sites[k]) {
        StepKeepsSubscribersIff(sites[k], steps[k]);
        assert !SubscribersAreMembers(sites[k + 1]);
      }
    }
  }

  lemma Subscribes(site: Site, i: NodeId, s: SessionId, c: ChannelId)
    requires HubsValid(site) && Live(site, i, s) && (c, site.instances[i].hub.sessions[s].user) in site.members
    ensures Enabled(site, Receive(i, s, ClientFrame.Subscribe(c)))
    ensures var site' := Next(site, Receive(i, s, ClientFrame.Subscribe(c)));
            Subscribed(site', i, s, c, site.instances[i].hub.sessions[s].user) && site'.members == site.members
  {
  }

  lemma JoinsAndLeaves(site: Site, c: ChannelId, u: UserId)
    requires HubsValid(site)
    ensures Enabled(site, Step.Join(c, u)) && Enabled(site, Step.Leave(c, u))
    ensures Next(site, Step.Join(c, u)) == site.(members := site.members + {(c, u)})
    ensures Next(site, Step.Leave(c, u)) == site.(members := site.members - {(c, u)})
  {
  }

  /** A member subscribes and then leaves, or is removed; the channel's next event reaches them. */
  lemma ReachesAFormerMember()
    ensures exists sites: seq<Site>, steps: seq<Step> ::
              IsRun(sites, steps) && Initial(sites[0]) && |sites| == |steps| + 1 && HubsValid(sites[|steps|])
              && Reaches(sites[|steps|], 0, 1, 5, 7, E.MessageCreated(5, 0)) && (5, 7) !in sites[|steps|].members
  {
    hide Next, ConnectAt, IsRun, Enabled, Reaches;
    var start := Site([Instance(Table(map[], map[]), [])], {}, map[]);
    Begin(start);
    var sites, steps: seq<Step> := [start], [];
    JoinsAndLeaves(start, 5, 7);
    sites, steps := Extend(sites, steps, Step.Join(5, 7));
    Connects(sites[|steps|], 0, 1, 7, 0);
    sites, steps := Extend(sites, steps, Connect(0, 1, 7, 0));
    Subscribes(sites[|steps|], 0, 1, 5);
    sites, steps := Extend(sites, steps, Receive(0, 1, ClientFrame.Subscribe(5)));
    JoinsAndLeaves(sites[|steps|], 5, 7);
    sites, steps := Extend(sites, steps, Step.Leave(5, 7));
    var end := sites[|steps|];
    assert Subscribed(end, 0, 1, 5, 7);
    ReachesSubscribed(end, 0, 1, 5, 7, E.MessageCreated(5, 0));
    assert sites[0] == start;
  }
}
