/** One instance's socket handler (src/ws/handler.rs), proved to take the steps of `Sockets.dfy`. */
module SocketHandlers {
  import opened Ids
  import opened T = SessionTable
  import E = Events
  import H = Hub
  import opened Sockets

  class SocketHandlers {
    const hub: H.Hub<Frame>
    /** What has been handed to the event bus here. */
    var emitted: seq<E.RoutedEvent>
    var members: set<(ChannelId, UserId)>
    var presence: map<UserId, PresenceRow>

    ghost function Abs(): Instance
      reads this, hub
    {
      Instance(hub.Abs(), emitted)
    }

    constructor (hub: H.Hub<Frame>, members: set<(ChannelId, UserId)>, presence: map<UserId, PresenceRow>)
      requires hub.Valid()
      ensures this.hub == hub && Abs() == Instance(hub.Abs(), [])
      ensures this.members == members && this.presence == presence
    {
      this.hub, this.members, this.presence, emitted := hub, members, presence, [];
    }

    method EmitUser(user: UserId, event: Frame)
      requires hub.Valid()
      modifies hub, `emitted
      ensures hub.Valid() && Abs() == EmitAt(old(Abs()), ToUser(user), event)
    {
      hide Apply;
      hub.DispatchUser(user, event);
      emitted := emitted + [E.RoutedEvent(ToUser(user), event)];
    }

    method EmitChannel(channel: ChannelId, event: Frame)
      requires hub.Valid()
      modifies hub, `emitted
      ensures hub.Valid() && Abs() == EmitAt(old(Abs()), ToChannel(channel), event)
    {
      hide Apply;
      hub.DispatchChannel(channel, event);
      emitted := emitted + [E.RoutedEvent(ToChannel(channel), event)];
    }

    /** Writes the presence row, then announces the change. */
    method MarkPresence(user: UserId, online: bool, now: int)
      requires hub.Valid()
      modifies hub, `emitted, `presence
      ensures hub.Valid() && Abs() == Mark(old(Abs()), user, online, now)
      ensures presence == old(presence)[user := PresenceRow(online, now)]
    {
      presence := presence[user := PresenceRow(online, now)];
      EmitUser(user, E.ServerEvent.Presence(user, online, now));
    }

    /** The socket opens: register, and mark the user online if this is their first session. */
    method Open(user: UserId, id: SessionId, now: int)
      requires hub.Valid() && id !in hub.outbound
      modifies hub, `emitted, `presence
      ensures hub.Valid() && Abs() == ConnectAt(old(Abs()), id, user, now)
      ensures presence ==
              if old(hub.Abs()).Online(user) then old(presence) else old(presence)[user := PresenceRow(true, now)]
    {
      hide Apply;
      var becameOnline := hub.Register(user, id);
      if becameOnline {
        MarkPresence(user, true, now);
      }
    }

    /** Either side ends: unregister, and mark the user offline if this was their last session. */
    method Close(user: UserId, id: SessionId, now: int)
      requires hub.Valid() && id in hub.sessions && hub.sessions[id].user == user
      modifies hub, `emitted, `presence
      ensures hub.Valid() && Abs() == DisconnectAt(old(Abs()), id, now)
      ensures presence ==
              if LastAt(old(Abs()), id) then old(presence)[user := PresenceRow(false, now)] else old(presence)
    {
      hide Apply;
      var nowOffline := hub.Unregister(id);
      if nowOffline {
        MarkPresence(user, false, now);
      }
    }

    /** Answers from this instance's hub whether the user is online, and from their row, if they have
        one, since when. */
    method GetPresence(user: UserId, now: int) returns (online: bool, lastSeen: int)
      requires hub.Valid()
      ensures online == Abs().hub.Online(user)
      ensures lastSeen == if user in presence then presence[user].lastSeen else now
    {
      online := hub.IsOnline(user);
      lastSeen := if user in presence then presence[user].lastSeen else now;
    }

    method HandleClientFrame(user: UserId, id: SessionId, frame: ClientFrame)
      requires hub.Valid()
      modifies hub, `emitted
      ensures hub.Valid() && Abs() == Handle(old(Abs()), members, id, user, frame)
    {
      hide Apply;
      match frame
      case Malformed =>
        hub.DispatchUser(user, E.Error("malformed client event"));
      case Subscribe(channel) =>
        if (channel, user) in members {
          hub.Subscribe(id, channel);
        } else {
          hub.DispatchUser(user, E.Error("cannot subscribe: not a member"));
        }
      case Unsubscribe(channel) =>
        hub.Unsubscribe(id, channel);
      case Typing(channel) =>
        if (channel, user) in members {
          EmitChannel(channel, E.Typing(channel, user));
        }
      case Ping =>
        hub.DispatchUser(user, E.Pong);
    }
  }
}
