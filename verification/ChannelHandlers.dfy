/** The channel handlers and the channel part of signing up (src/handlers/channels.rs,
    src/handlers/auth.rs), over tables they update in place, each proved to take the step that
    `Membership.dfy` describes. Where a method requires it, `members` has a foreign key into
    `channels`, as the schema declares. */
module ChannelHandlers {
  import opened Ids
  import opened Wrappers
  import opened Membership

  ghost predicate HasStranger(users: set<UserId>, us: seq<UserId>) { exists u :: u in us && u !in users }

  lemma NobodyJoins(w: Workspace, c: ChannelId)
    ensures JoinAll(w, c, []) == w
  {
  }

  lemma JoinAllStep(w: Workspace, c: ChannelId, us: seq<UserId>, i: nat)
    requires i < |us|
    ensures JoinAll(w, c, us[..i + 1]) == Join(JoinAll(w, c, us[..i]), c, us[i], Member)
    ensures us[..i + 1] == us[..i] + [us[i]]
  {
    assert us[..i + 1][..i] == us[..i];
  }

  class ChannelHandlers {
    var users: set<UserId>
    var channels: map<ChannelId, Channel>
    var members: map<(ChannelId, UserId), Role>
    const lower: string -> string

    ghost function Abs(): Workspace
      reads this
    {
      Workspace(users, channels, members)
    }

    constructor (lower: string -> string)
      ensures Abs() == EMPTY && this.lower == lower
    {
      users, channels, members := {}, map[], map[];
      this.lower := lower;
    }

    /** The owner's and the admin's role may administer a channel. */
    method RequireAdmin(c: ChannelId, u: UserId) returns (ok: bool)
      ensures ok == RequireChannelAdmin(Abs(), c, u)
    {
      if (c, u) !in members {
        return false;
      }
      match members[(c, u)]
      case Owner => return true;
      case Admin => return true;
      case Member => return false;
    }

    method InsertMember(c: ChannelId, u: UserId, role: Role) returns (rowsAffected: nat)
      modifies `members
      ensures Abs() == Join(old(Abs()), c, u, role)
      ensures rowsAffected == if (c, u) in old(members) then 0 else 1
    {
      if (c, u) in members {
        return 0;
      }
      members := members[(c, u) := role];
      rowsAffected := 1;
    }

    /** `pick` is the default channel found, if there is one. */
    method EnsureDefaultMembership(user: UserId, role: Role, id: ChannelId) returns (pick: ChannelId)
      modifies `channels, `members
      ensures Abs() == EnsureDefault(lower, old(Abs()), user, role, id, pick)
      ensures Defaults(old(Abs())) != {} ==> pick in Defaults(old(Abs()))
    {
      var existing := set c | c in channels && channels[c].kind == Public && channels[c].name == Some(DEFAULT_CHANNEL);
      assert existing == Defaults(Abs());
      pick := id;
      var joinRole := role;
      if existing != {} {
        pick :| pick in existing;
        joinRole := Member;
      } else if exists c :: c in channels && channels[c].name.Some?
                            && lower(channels[c].name.value) == lower(DEFAULT_CHANNEL) {
        return;
      } else {
        channels := channels[id := Channel(Public, Some(DEFAULT_CHANNEL), Some(DEFAULT_TOPIC), user)];
      }
      var _ := InsertMember(pick, user, joinRole);
    }

    method Signup(user: UserId, taken: bool, id: ChannelId) returns (r: Outcome, pick: ChannelId)
      modifies this
      ensures Abs() == Next(lower, old(Abs()), Op.Signup(user, taken, id, pick))
      ensures r == Verdict(lower, old(Abs()), Op.Signup(user, taken, id, pick))
      ensures !taken && Defaults(old(Abs())) != {} ==> pick in Defaults(old(Abs()))
    {
      if taken {
        return Conflict, id;
      }
      var role := if users == {} then Owner else Member;
      users := users + {user};
      NameTakenIn(lower, old(Abs()), Abs(), DEFAULT_CHANNEL);
      hide EnsureDefault, Defaults;
      pick := EnsureDefaultMembership(user, role, id);
      r := Done;
    }

    /** Inserts the members asked for, up to one who is no user. */
    method InsertMembers(id: ChannelId, actor: UserId, invited: seq<UserId>) returns (ok: bool)
      requires (id, actor) in members && actor in users
      modifies `members
      ensures ok == !HasStranger(users, invited)
      ensures ok ==> Abs() == JoinAll(old(Abs()), id, invited)
    {
      hide Join, JoinAll;
      NobodyJoins(Abs(), id);
      for i := 0 to |invited|
        invariant Abs() == JoinAll(old(Abs()), id, invited[..i]) && (id, actor) in members
        invariant forall u :: u in invited[..i] ==> u in users
      {
        JoinAllStep(old(Abs()), id, invited, i);
        AlreadyJoined(Abs(), id, actor);
        if invited[i] != actor {
          if invited[i] !in users {
            return false;
          }
          JoinEffect(Abs(), id, invited[i], Member);
          var _ := InsertMember(id, invited[i], Member);
        }
      }
      assert invited[..|invited|] == invited;
      ok := true;
    }

    /** A transaction: when a member to be added is no user, nothing is kept. */
    method CreateChannel(actor: UserId, may: bool, name: string, topic: Option<string>, isPrivate: bool,
                         invited: seq<UserId>, id: ChannelId)
      returns (r: Outcome)
      requires id !in channels
      requires forall k :: k in members ==> k.0 in channels
      modifies `channels, `members
      ensures var op := Op.CreateChannel(actor, may, name, topic, isPrivate, invited, id);
              Abs() == Next(lower, old(Abs()), op) && r == Verdict(lower, old(Abs()), op)
    {
      if !may {
        return Forbidden;
      }
      if exists c :: c in channels && channels[c].name.Some? && lower(channels[c].name.value) == lower(name) {
        return Conflict;
      }
      if actor !in users {
        return Failed;
      }
      hide NameTaken, Directs, Defaults, EnsureDefault, RequireChannelAdmin, MembersOf, Join, JoinAll;
      var savedChannels, savedMembers := channels, members;
      channels := channels[id := Channel(if isPrivate then Private else Public, Some(name), topic, actor)];
      JoinEffect(Abs(), id, actor, Owner);
      var _ := InsertMember(id, actor, Owner);
      var ok := InsertMembers(id, actor, invited);
      if !ok {
        channels, members := savedChannels, savedMembers;
        return Failed;
      }
      r := Returned(id);
    }

    method CreateDirect(actor: UserId, other: UserId, id: ChannelId) returns (r: Outcome, pick: ChannelId)
      requires id !in channels
      requires forall k :: k in members ==> k.0 in channels
      modifies `channels, `members
      ensures Abs() == Next(lower, old(Abs()), Op.CreateDirect(actor, other, id, pick))
      ensures r == Verdict(lower, old(Abs()), Op.CreateDirect(actor, other, id, pick))
      ensures other != actor && Directs(old(Abs()), actor, other) != {} ==> pick in Directs(old(Abs()), actor, other)
    {
      pick := id;
      if other == actor {
        return BadRequest, pick;
      }
      var w := Workspace(users, channels, members);
      var existing := set c | c in channels && channels[c].kind == Direct && |MembersOf(w, c)| == 2
                           && (c, actor) in members && (c, other) in members;
      assert existing == Directs(w, actor, other);
      if existing != {} {
        pick :| pick in existing;
        return Returned(pick), pick;
      }
      hide Directs;
      if actor !in users || other !in users {
        return Failed, pick;
      }
      channels := channels[id := Channel(Direct, None, None, actor)];
      members := members[(id, actor) := Member];
      members := members[(id, other) := Member];
      r := Returned(id);
    }

    method AddMember(actor: UserId, c: ChannelId, target: UserId) returns (r: Outcome)
      modifies `members
      ensures Abs() == Next(lower, old(Abs()), Op.AddMember(actor, c, target))
      ensures r == Verdict(lower, old(Abs()), Op.AddMember(actor, c, target))
    {
      var admin := RequireAdmin(c, actor);
      hide RequireChannelAdmin;
      if !admin {
        return Forbidden;
      }
      if (c, target) !in members && target !in users {
        return Failed;
      }
      var _ := InsertMember(c, target, Member);
      r := Done;
    }

    method RemoveMember(actor: UserId, c: ChannelId, target: UserId) returns (r: Outcome)
      modifies `members
      ensures Abs() == Next(lower, old(Abs()), Op.RemoveMember(actor, c, target))
      ensures r == Verdict(lower, old(Abs()), Op.RemoveMember(actor, c, target))
    {
      if target != actor {
        var admin := RequireAdmin(c, actor);
        if !admin {
          return Forbidden;
        }
      }
      members := members - {(c, target)};
      r := Done;
    }

    method UpdateChannel(actor: UserId, c: ChannelId, rename: Option<string>, topic: Option<string>)
      returns (r: Outcome)
      requires forall k :: k in members ==> k.0 in channels
      modifies `channels
      ensures Abs() == Next(lower, old(Abs()), Op.UpdateChannel(actor, c, rename, topic))
      ensures r == Verdict(lower, old(Abs()), Op.UpdateChannel(actor, c, rename, topic))
    {
      var admin := RequireAdmin(c, actor);
      if !admin {
        return Forbidden;
      }
      if rename.Some? && exists d :: d in channels && d != c && channels[d].name.Some?
                                     && lower(channels[d].name.value) == lower(rename.value) {
        return Failed;
      }
      var row := channels[c];
      if rename.Some? {
        row := row.(name := rename);
      }
      if topic.Some? {
        row := row.(topic := topic);
      }
      channels := channels[c := row];
      r := Done;
    }
  }
}
