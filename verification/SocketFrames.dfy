/** What a client's frames, and its coming and going, do to each session: what it is sent and what it is
    subscribed to. */
module SocketFrames {
  import opened Ids
  import opened T = SessionTable
  import E = Events
  import opened Sockets

  /** What a frame from session `s` of `user` sends to a session. A pong or an error goes to all sessions
      of the user, a typing notice to all that subscribe to the channel, if the user is a member of it. */
  function SentBy(
    members: set<(ChannelId, UserId)>, user: UserId, frame: ClientFrame, other: Session): seq<Frame>
  {
    match frame
    case Malformed => if other.user == user then [E.Error("malformed client event")] else []
    case Subscribe(c) =>
      if other.user == user && (c, user) !in members then [E.Error("cannot subscribe: not a member")] else []
    case Unsubscribe(_) => []
    case Typing(c) => if c in other.subscriptions && (c, user) in members then [E.Typing(c, user)] else []
    case Ping => if other.user == user then [E.Pong] else []
  }

  /** Only subscribing and unsubscribing change subscriptions, of the session they come from, and only a
      member subscribes. */
  lemma FrameAnswers(
    n: Instance, members: set<(ChannelId, UserId)>, s: SessionId, user: UserId, frame: ClientFrame, other: SessionId)
    requires n.hub.Valid() && other in n.hub.sessions
    ensures var n', was := Handle(n, members, s, user, frame), n.hub.sessions[other];
            && other in n'.hub.sessions && other in n'.hub.log && other in n.hub.log
            && n'.hub.log[other] == n.hub.log[other] + SentBy(members, user, frame, was)
            && n'.hub.sessions[other].user == was.user
            && n'.hub.sessions[other].subscriptions ==
               if other != s then was.subscriptions
               else if frame.Subscribe? && (frame.channel, user) in members then was.subscriptions + {frame.channel}
               else if frame.Unsubscribe? then was.subscriptions - {frame.channel}
               else was.subscriptions
  {
  }

  /** Of all frames only a member's typing notice goes to other instances. */
  lemma FrameEmits(
    n: Instance, members: set<(ChannelId, UserId)>, s: SessionId, user: UserId, frame: ClientFrame)
    requires n.hub.Valid()
    ensures var n' := Handle(n, members, s, user, frame);
            && n'.hub.sessions.Keys == n.hub.sessions.Keys
            && n'.emitted == n.emitted
               + if frame.Typing? && (frame.channel, user) in members
                 then [E.RoutedEvent(ToChannel(frame.channel), E.Typing(frame.channel, user))] else []
  {
  }

  /** A user's first session at an instance announces them, and no other does. The new session has
      received nothing but that, and is subscribed to nothing. */
  lemma ConnectAnnounces(n: Instance, s: SessionId, user: UserId, now: int)
    requires n.hub.Valid() && s !in n.hub.log
    ensures var n' := ConnectAt(n, s, user, now);
            var news := if n.hub.Online(user) then [] else [E.ServerEvent.Presence(user, true, now)];
            && n'.hub.sessions == n.hub.sessions[s := Session(user, {})]
            && n'.hub.log.Keys == n.hub.log.Keys + {s} && n'.hub.log[s] == news
            && |n'.emitted| == |n.emitted| + |news|
            && (!n.hub.Online(user) ==> n'.emitted == n.emitted + [E.RoutedEvent(ToUser(user), news[0])])
            && (n.hub.Online(user) ==> n'.emitted == n.emitted)
  {
  }

  /** A user's last session at an instance announces that they are gone, and no other does. */
  lemma DisconnectAnnounces(n: Instance, s: SessionId, now: int)
    requires n.hub.Valid() && s in n.hub.sessions
    ensures var n', user := DisconnectAt(n, s, now), n.hub.sessions[s].user;
            var another := exists r :: r != s && r in n.hub.sessions && n.hub.sessions[r].user == user;
            && n'.hub.sessions == n.hub.sessions - {s}
            && (another ==> n'.emitted == n.emitted)
            && (!another ==>
                  n'.emitted == n.emitted + [E.RoutedEvent(ToUser(user), E.ServerEvent.Presence(user, false, now))])
  {
    var left := Apply(n.hub, Op.Unregister(s));
    var user := n.hub.sessions[s].user;
    if r: SessionId :| r != s && r in n.hub.sessions && n.hub.sessions[r].user == user {
      assert r in left.sessions && left.sessions[r].user == user;
    }
    if left.Online(user) {
      var r :| r in left.sessions && left.sessions[r].user == user;
      assert r != s && r in n.hub.sessions && n.hub.sessions[r].user == user;
    }
  }

  /** A presence row is written when a first session at an instance opens or a last one closes, with the
      time of that, and stands otherwise. */
  lemma PresenceRowAfter(site: Site, step: Step, u: UserId)
    requires HubsValid(site) && Enabled(site, step)
    ensures var before, after := site.presence, Next(site, step).presence;
            if step.Connect? && step.user == u && !OnlineAt(site, step.i, u) then
              u in after && after[u] == PresenceRow(true, step.now)
            else if step.Disconnect? && Ends(site, step, u) then
              u in after && after[u] == PresenceRow(false, step.now)
            else
              (u in after <==> u in before) && (u in before ==> after[u] == before[u])
  {
    hide Apply;
  }
}
