/** The hub of src/ws/hub.rs: a map of sessions and an index from users to their sessions, both
    updated in place. The methods here are the hub's operations with each taken as one atomic
    step; `HubInterleaving.dfy` splits them at the locks. */
module Hub {
  import opened Ids
  import opened T = SessionTable

  class Hub<E> {
    var sessions: map<SessionId, Session>
    var userSessions: map<UserId, set<SessionId>>
    /** What has been sent on each session's outbound channel, kept after the session ends. */
    var outbound: map<SessionId, seq<E>>

    /** The index holds exactly the live sessions, under their users, and no empty sets. */
    ghost predicate IndexExact()
      reads `sessions, `userSessions
    {
      && (forall s :: s in sessions ==> sessions[s].user in userSessions && s in userSessions[sessions[s].user])
      && (forall u, s :: u in userSessions && s in userSessions[u] ==> s in sessions && sessions[s].user == u)
      && (forall u :: u in userSessions ==> userSessions[u] != {})
    }

    ghost predicate Valid()
      reads this
    {
      sessions.Keys <= outbound.Keys && IndexExact()
    }

    ghost function Abs(): Table<E>
      reads this
    {
      Table(sessions, outbound)
    }

    constructor ()
      ensures Valid() && Abs() == Run<E>([])
    {
      sessions, userSessions, outbound := map[], map[], map[];
    }

    /** `id` is the freshly drawn session id. */
    method Register(user: UserId, id: SessionId) returns (first: bool)
      requires Valid() && id !in outbound
      modifies this
      ensures Valid() && Abs() == Apply(old(Abs()), Op.Register(id, user))
      ensures first == !old(Abs().Online(user))
    {
      sessions := sessions[id := Session(user, {})];
      outbound := outbound[id := []];

      var entry := if user in userSessions then userSessions[user] else {};
      first := entry == {};
      if !first {
        var s :| s in entry;
        assert old(sessions[s].user) == user;
      }
      userSessions := userSessions[user := entry + {id}];
    }

    method Unregister(id: SessionId) returns (nowOffline: bool)
      requires Valid()
      modifies this
      ensures Valid() && Abs() == Apply(old(Abs()), Op.Unregister(id))
      ensures nowOffline == (id in old(sessions) && !Abs().Online(old(sessions)[id].user))
    {
      if id !in sessions {
        assert sessions - {id} == sessions;
        return false;
      }
      var user := sessions[id].user;
      sessions := sessions - {id};
      nowOffline := false;
      if user in userSessions {
        userSessions := userSessions[user := userSessions[user] - {id}];
        nowOffline := userSessions[user] == {};
      }
      if nowOffline {
        userSessions := userSessions - {user};
      } else {
        var s :| s in userSessions[user];
        assert sessions[s].user == user;
      }
    }

    method Subscribe(id: SessionId, channel: ChannelId)
      requires Valid()
      modifies this
      ensures Valid() && Abs() == Apply(old(Abs()), Op.Subscribe(id, channel))
    {
      if id in sessions {
        var s := sessions[id];
        sessions := sessions[id := Session(s.user, s.subscriptions + {channel})];
      }
    }

    method Unsubscribe(id: SessionId, channel: ChannelId)
      requires Valid()
      modifies this
      ensures Valid() && Abs() == Apply(old(Abs()), Op.Unsubscribe(id, channel))
    {
      if id in sessions {
        var s := sessions[id];
        sessions := sessions[id := Session(s.user, s.subscriptions - {channel})];
      }
    }

    method IsOnline(user: UserId) returns (online: bool)
      requires Valid()
      ensures online == Abs().Online(user)
    {
      online := user in userSessions && userSessions[user] != {};
      if online {
        var s :| s in userSessions[user];
        assert sessions[s].user == user;
      }
    }

    method OnlineCount() returns (count: nat)
      requires Valid()
      ensures count == |set s | s in sessions :: sessions[s].user|
    {
      count := |userSessions|;
      assert userSessions.Keys == set s | s in sessions :: sessions[s].user by {
        forall u | u in userSessions ensures exists s :: s in sessions && sessions[s].user == u {
          var s :| s in userSessions[u];
          assert sessions[s].user == u;
        }
      }
    }

    /** Sends to every subscribed session, visiting the map in an arbitrary order. */
    method DispatchChannel(channel: ChannelId, event: E)
      requires Valid()
      modifies `outbound
      ensures Valid() && Abs() == Apply(old(Abs()), Op.Dispatch(ToChannel(channel), event))
    {
      hide Deliver, IndexExact;
      var todo := sessions.Keys;
      ghost var hit := {};
      DeliverToNobody(outbound, event);
      while todo != {}
        invariant todo <= sessions.Keys
        invariant forall s :: s in hit <==> s in sessions && s !in todo && channel in sessions[s].subscriptions
        invariant outbound == Deliver(old(outbound), hit, event) && outbound.Keys == old(outbound).Keys
        decreases |todo|
      {
        var id :| id in todo;
        todo := todo - {id};
        if channel in sessions[id].subscriptions {
          DeliverOneMore(old(outbound), hit, id, event);
          hit := hit + {id};
          outbound := outbound[id := outbound[id] + [event]];
        }
      }
      assert hit == Addressed(sessions, ToChannel(channel));
    }

    /** Sends to the sessions that the index lists for `user`. */
    method DispatchUser(user: UserId, event: E)
      requires Valid()
      modifies `outbound
      ensures Valid() && Abs() == Apply(old(Abs()), Op.Dispatch(ToUser(user), event))
    {
      hide Deliver;
      ghost var hit := {};
      DeliverToNobody(outbound, event);
      if user in userSessions {
        var todo := userSessions[user];
        while todo != {}
          invariant todo <= userSessions[user] && hit == userSessions[user] - todo
          invariant outbound == Deliver(old(outbound), hit, event) && outbound.Keys == old(outbound).Keys
          decreases |todo|
        {
          var id :| id in todo;
          todo := todo - {id};
          if id in sessions {
            DeliverOneMore(old(outbound), hit, id, event);
            hit := hit + {id};
            outbound := outbound[id := outbound[id] + [event]];
          }
        }
      }
      assert hit == Addressed(sessions, ToUser(user));
    }
  }
}
