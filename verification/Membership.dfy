/** Channels and who belongs to them: each handler as one atomic step, and what every run keeps.

    `lower` is the database's LOWER, under which channel names are unique. Where a query may return
    any of several rows, the step carries the row it returned. */
module Membership {
  import opened Ids
  import opened Wrappers

  datatype Kind = Public | Private | Direct | Group

  datatype Role = Owner | Admin | Member

  datatype Channel = Channel(kind: Kind, name: Option<string>, topic: Option<string>, createdBy: UserId)

  datatype Workspace = Workspace(
    users: set<UserId>,
    channels: map<ChannelId, Channel>,
    members: map<(ChannelId, UserId), Role>)

  const EMPTY := Workspace({}, map[], map[])

  const DEFAULT_CHANNEL := "general"
  const DEFAULT_TOPIC := "Workspace-wide channel for everyone"

  /** `Failed` is a constraint violation that the handler passes on as a server error. */
  datatype Outcome = Done | Returned(channel: ChannelId) | BadRequest | Forbidden | Conflict | Failed

  /** `id` is the id of a channel the step may create. `taken` says that the e-mail or username is
      in use, `may` that the caller's role permits creating channels. */
  datatype Op =
    | Signup(user: UserId, taken: bool, id: ChannelId, pick: ChannelId)
    | CreateChannel(actor: UserId, may: bool, name: string, topic: Option<string>, isPrivate: bool,
                    invited: seq<UserId>, id: ChannelId)
    | CreateDirect(actor: UserId, other: UserId, id: ChannelId, pick: ChannelId)
    | AddMember(actor: UserId, channel: ChannelId, target: UserId)
    | RemoveMember(actor: UserId, channel: ChannelId, target: UserId)
    | UpdateChannel(actor: UserId, channel: ChannelId, rename: Option<string>, topic: Option<string>)

  // ---- Queries and guards.

  function MembersOf(w: Workspace, c: ChannelId): (us: set<UserId>)
    ensures forall u :: u in us <==> (c, u) in w.members
  {
    set k | k in w.members && k.0 == c :: k.1
  }

  predicate IsDirect(w: Workspace, c: ChannelId) { c in w.channels && w.channels[c].kind == Direct }

  /** A direct channel with exactly two members, `a` and `b` among them. */
  predicate IsDirectOf(w: Workspace, c: ChannelId, a: UserId, b: UserId) {
    IsDirect(w, c) && |MembersOf(w, c)| == 2 && (c, a) in w.members && (c, b) in w.members
  }

  function Directs(w: Workspace, a: UserId, b: UserId): set<ChannelId> {
    set c | c in w.channels && IsDirectOf(w, c, a, b)
  }

  predicate IsDefault(w: Workspace, c: ChannelId) {
    c in w.channels && w.channels[c].kind == Public && w.channels[c].name == Some(DEFAULT_CHANNEL)
  }

  function Defaults(w: Workspace): set<ChannelId> { set c | c in w.channels && IsDefault(w, c) }

  /** Some other channel has the name, ignoring case. */
  predicate NameTaken(lower: string -> string, w: Workspace, name: string, except: Option<ChannelId>) {
    exists c :: c in w.channels && Some(c) != except && w.channels[c].name.Some?
                && lower(w.channels[c].name.value) == lower(name)
  }

  /** The role of a member, or nothing for everyone else. */
  function RequireMember(w: Workspace, c: ChannelId, u: UserId): Option<Role> {
    if (c, u) in w.members then Some(w.members[(c, u)]) else None
  }

  predicate RequireChannelAdmin(w: Workspace, c: ChannelId, u: UserId) {
    RequireMember(w, c, u) == Some(Owner) || RequireMember(w, c, u) == Some(Admin)
  }

  // ---- The steps.

  function Verdict(lower: string -> string, w: Workspace, op: Op): Outcome {
    match op
    case Signup(_, taken, _, _) => if taken then Conflict else Done
    case CreateChannel(actor, may, name, _, _, invited, id) =>
      if !may then Forbidden
      else if NameTaken(lower, w, name, None) then Conflict
      else if actor !in w.users || exists u :: u in invited && u !in w.users then Failed
      else Returned(id)
    case CreateDirect(actor, other, id, pick) =>
      if other == actor then BadRequest
      else if Directs(w, actor, other) != {} then Returned(pick)
      else if actor !in w.users || other !in w.users then Failed
      else Returned(id)
    case AddMember(actor, c, target) =>
      if !RequireChannelAdmin(w, c, actor) then Forbidden
      else if (c, target) !in w.members && target !in w.users then Failed
      else Done
    case RemoveMember(actor, c, target) =>
      if target != actor && !RequireChannelAdmin(w, c, actor) then Forbidden else Done
    case UpdateChannel(actor, c, rename, _) =>
      if !RequireChannelAdmin(w, c, actor) then Forbidden
      else if rename.Some? && NameTaken(lower, w, rename.value, Some(c)) then Failed
      else Done
  }

  /** An insert that does nothing on conflict. */
  function Join(w: Workspace, c: ChannelId, u: UserId, role: Role): Workspace {
    if (c, u) in w.members then w else w.(members := w.members[(c, u) := role])
  }

  function JoinAll(w: Workspace, c: ChannelId, us: seq<UserId>): Workspace {
    if us == [] then w else Join(JoinAll(w, c, us[..|us| - 1]), c, us[|us| - 1], Member)
  }

  function Insert(w: Workspace, c: ChannelId, ch: Channel): Workspace {
    w.(channels := w.channels[c := ch])
  }

  /** The row of a new channel. */
  function Created(op: Op): Channel
    requires op.CreateChannel?
  {
    Channel(if op.isPrivate then Private else Public, Some(op.name), op.topic, op.actor)
  }

  /** Name and topic change where a new value is given. */
  function Updated(ch: Channel, rename: Option<string>, topic: Option<string>): Channel {
    ch.(name := if rename.Some? then rename else ch.name, topic := if topic.Some? then topic else ch.topic)
  }

  /** Joins a new user to the default channel, which is created if there is none. */
  function EnsureDefault(
    lower: string -> string, w: Workspace, user: UserId, role: Role, id: ChannelId, pick: ChannelId): Workspace
  {
    if Defaults(w) != {} then Join(w, pick, user, Member)
    else if NameTaken(lower, w, DEFAULT_CHANNEL, None) then w
    else Join(Insert(w, id, Channel(Public, Some(DEFAULT_CHANNEL), Some(DEFAULT_TOPIC), user)), id, user, role)
  }

  /** Refused and failed steps change nothing. The first user to sign up is the instance admin, and
      only an admin joins a default channel it creates as its owner. */
  function Next(lower: string -> string, w: Workspace, op: Op): Workspace {
    var v := Verdict(lower, w, op);
    if v != Done && !v.Returned? then w
    else
      match op
      case Signup(user, _, id, pick) =>
        EnsureDefault(lower, w.(users := w.users + {user}), user, if w.users == {} then Owner else Member, id, pick)
      case CreateChannel(actor, _, _, _, _, invited, id) =>
        JoinAll(Join(Insert(w, id, Created(op)), id, actor, Owner), id, invited)
      case CreateDirect(actor, other, id, _) =>
        if Directs(w, actor, other) != {} then w
        else Join(Join(Insert(w, id, Channel(Direct, None, None, actor)), id, actor, Member), id, other, Member)
      case AddMember(_, c, target) => Join(w, c, target, Member)
      case RemoveMember(_, c, target) => w.(members := w.members - {(c, target)})
      case UpdateChannel(_, c, rename, topic) =>
        if c in w.channels then Insert(w, c, Updated(w.channels[c], rename, topic)) else w
  }

  /** New ids are fresh, and a query that finds rows returns one of them. */
  predicate Legal(w: Workspace, op: Op) {
    match op
    case Signup(user, _, id, pick) =>
      user !in w.users && id !in w.channels && (Defaults(w) != {} ==> pick in Defaults(w))
    case CreateChannel(_, _, _, _, _, _, id) => id !in w.channels
    case CreateDirect(actor, other, id, pick) =>
      id !in w.channels && (other != actor && Directs(w, actor, other) != {} ==> pick in Directs(w, actor, other))
    case _ => true
  }

  function Run(lower: string -> string, ops: seq<Op>): Workspace {
    if ops == [] then EMPTY else Next(lower, Run(lower, ops[..|ops| - 1]), ops[|ops| - 1])
  }

  predicate LegalRun(lower: string -> string, ops: seq<Op>) {
    ops == []
    || (LegalRun(lower, ops[..|ops| - 1]) && Legal(Run(lower, ops[..|ops| - 1]), ops[|ops| - 1]))
  }

  // ---- What every step keeps.

  /** Members are users, and belong to channels that exist. */
  ghost predicate Linked(w: Workspace) {
    forall k :: k in w.members ==> k.0 in w.channels && k.1 in w.users
  }

  ghost predicate UniqueNames(lower: string -> string, w: Workspace) {
    forall c, d :: c in w.channels && d in w.channels && SameName(lower, w.channels[c], w.channels[d]) ==> c == d
  }

  predicate SameName(lower: string -> string, a: Channel, b: Channel) {
    a.name.Some? && b.name.Some? && lower(a.name.value) == lower(b.name.value)
  }

  /** Whoever can administer a channel created it, and nobody can administer a direct one. */
  ghost predicate OwnersCreated(w: Workspace) {
    forall k :: k in w.members && k.0 in w.channels && w.members[k] != Member ==>
      w.channels[k.0].createdBy == k.1 && w.channels[k.0].kind != Direct
  }

  ghost predicate DirectsArePairs(w: Workspace) {
    && (forall c :: IsDirect(w, c) ==> |MembersOf(w, c)| <= 2)
    && (forall c, d :: IsDirect(w, c) && IsDirect(w, d) && c != d && |MembersOf(w, c)| == 2 ==>
          MembersOf(w, c) != MembersOf(w, d))
  }

  /** Channels have names unless they are direct; no handler creates a group. */
  ghost predicate Named(w: Workspace) {
    forall c :: c in w.channels ==>
      w.channels[c].kind != Group && (w.channels[c].kind == Direct <==> w.channels[c].name.None?)
  }

  ghost predicate Inv(lower: string -> string, w: Workspace) {
    Linked(w) && UniqueNames(lower, w) && OwnersCreated(w) && DirectsArePairs(w) && Named(w)
  }

  /** Channels are never removed, and only their names and topics change. */
  ghost predicate Extends(w: Workspace, later: Workspace) {
    && w.users <= later.users
    && forall c :: c in w.channels ==>
         && c in later.channels
         && later.channels[c] == w.channels[c].(name := later.channels[c].name, topic := later.channels[c].topic)
  }

  lemma MembersAfterJoin(w: Workspace, c: ChannelId, u: UserId, role: Role)
    ensures MembersOf(Join(w, c, u, role), c) == MembersOf(w, c) + {u}
    ensures forall d :: d != c ==> MembersOf(Join(w, c, u, role), d) == MembersOf(w, d)
  {
  }

  /** Joining a channel that is not direct, as a plain member or as its creator. */
  lemma JoinKeepsInv(lower: string -> string, w: Workspace, c: ChannelId, u: UserId, role: Role)
    requires Inv(lower, w) && c in w.channels && u in w.users && !IsDirect(w, c)
    requires role == Member || w.channels[c].createdBy == u
    ensures Inv(lower, Join(w, c, u, role)) && Extends(w, Join(w, c, u, role))
  {
    hide UniqueNames, Named, MembersOf;
    MembersAfterJoin(w, c, u, role);
    NamesUntouched(lower, w, Join(w, c, u, role));
    var w' := Join(w, c, u, role);
    assert forall d :: IsDirect(w', d) <==> IsDirect(w, d);
  }

  lemma NamesUntouched(lower: string -> string, w: Workspace, w': Workspace)
    requires w'.channels == w.channels
    ensures UniqueNames(lower, w') == UniqueNames(lower, w) && Named(w') == Named(w)
  {
  }

  lemma {:induction false} JoinAllKeepsInv(lower: string -> string, w: Workspace, c: ChannelId, us: seq<UserId>)
    requires Inv(lower, w) && c in w.channels && !IsDirect(w, c) && forall u :: u in us ==> u in w.users
    ensures var w' := JoinAll(w, c, us);
            && Inv(lower, w') && Extends(w, w') && w'.channels == w.channels && w'.users == w.users
            && (forall k :: k in w'.members <==> k in w.members || (k.0 == c && k.1 in us))
            && (forall k :: k in w.members ==> w'.members[k] == w.members[k])
  {
    hide Inv, Join;
    if us == [] {
    } else {
      JoinAllKeepsInv(lower, w, c, us[..|us| - 1]);
      var middle, u := JoinAll(w, c, us[..|us| - 1]), us[|us| - 1];
      JoinKeepsInv(lower, middle, c, u, Member);
      JoinEffect(middle, c, u, Member);
      assert forall v :: v in us <==> v in us[..|us| - 1] || v == u;
    }
  }

  lemma JoinEffect(w: Workspace, c: ChannelId, u: UserId, role: Role)
    ensures var w' := Join(w, c, u, role);
            && w'.channels == w.channels && w'.users == w.users
            && (forall k :: k in w'.members <==> k in w.members || k == (c, u))
            && (forall k :: k in w.members ==> w'.members[k] == w.members[k])
  {
  }

  lemma NoMembers(w: Workspace, c: ChannelId)
    requires Linked(w) && c !in w.channels
    ensures MembersOf(w, c) == {}
  {
  }

  lemma InsertKeepsInv(lower: string -> string, w: Workspace, c: ChannelId, ch: Channel)
    requires Inv(lower, w) && c !in w.channels && ch.kind != Group && (ch.kind == Direct <==> ch.name.None?)
    requires ch.name.Some? ==> !NameTaken(lower, w, ch.name.value, None)
    ensures Inv(lower, Insert(w, c, ch)) && Extends(w, Insert(w, c, ch)) && MembersOf(Insert(w, c, ch), c) == {}
  {
    hide MembersOf, UniqueNames;
    var w' := Insert(w, c, ch);
    NoMembers(w, c);
    InsertKeepsNames(lower, w, c, ch);
    assert forall d :: MembersOf(w', d) == MembersOf(w, d);
    PairsUntouched(w, w', c);
  }

  lemma InsertKeepsNames(lower: string -> string, w: Workspace, c: ChannelId, ch: Channel)
    requires UniqueNames(lower, w) && c !in w.channels
    requires ch.name.Some? ==> !NameTaken(lower, w, ch.name.value, None)
    ensures UniqueNames(lower, Insert(w, c, ch))
  {
  }

  /** Direct pairs stay unique if only channel `c` changes and ends with one member at most, or as
      it was. */
  lemma PairsUntouched(w: Workspace, w': Workspace, c: ChannelId)
    requires DirectsArePairs(w)
    requires forall d :: d != c ==> IsDirect(w', d) == IsDirect(w, d) && MembersOf(w', d) == MembersOf(w, d)
    requires |MembersOf(w', c)| < 2 || (IsDirect(w', c) == IsDirect(w, c) && MembersOf(w', c) == MembersOf(w, c))
    ensures DirectsArePairs(w')
  {
    hide MembersOf, IsDirect;
  }

  lemma LeaveKeepsInv(lower: string -> string, w: Workspace, c: ChannelId, u: UserId)
    requires Inv(lower, w)
    ensures var w' := w.(members := w.members - {(c, u)}); Inv(lower, w') && Extends(w, w')
  {
    hide MembersOf, UniqueNames, Named, DirectsArePairs, OwnersCreated;
    var w' := w.(members := w.members - {(c, u)});
    NamesUntouched(lower, w, w');
    LeaveKeepsOwners(w, w');
    LeaveKeepsPairs(w, c, u);
  }

  lemma LeaveKeepsOwners(w: Workspace, w': Workspace)
    requires OwnersCreated(w) && w'.channels == w.channels
    requires forall k :: k in w'.members ==> k in w.members && w'.members[k] == w.members[k]
    ensures OwnersCreated(w')
  {
  }

  lemma LeaveKeepsPairs(w: Workspace, c: ChannelId, u: UserId)
    requires DirectsArePairs(w)
    ensures DirectsArePairs(w.(members := w.members - {(c, u)}))
  {
    var w' := w.(members := w.members - {(c, u)});
    MembersAfterLeave(w, c, u);
    if IsDirect(w, c) {
      hide MembersOf, DirectsArePairs;
      assert |MembersOf(w, c)| <= 2 by { PairBound(w, c); }
      if u in MembersOf(w, c) { FewerThan(MembersOf(w, c), u); }
      PairsUntouched(w, w', c);
    }
  }

  lemma PairBound(w: Workspace, c: ChannelId)
    requires DirectsArePairs(w) && IsDirect(w, c)
    ensures |MembersOf(w, c)| <= 2
  {
  }

  lemma MembersAfterLeave(w: Workspace, c: ChannelId, u: UserId)
    ensures var w' := w.(members := w.members - {(c, u)});
            && MembersOf(w', c) == MembersOf(w, c) - {u}
            && (u !in MembersOf(w, c) ==> MembersOf(w', c) == MembersOf(w, c))
            && forall d :: d != c ==> MembersOf(w', d) == MembersOf(w, d)
  {
  }

  lemma FewerThan(us: set<UserId>, u: UserId)
    requires u in us
    ensures |us - {u}| == |us| - 1
  {
  }

  lemma UpdateKeepsInv(
    lower: string -> string, w: Workspace, c: ChannelId, rename: Option<string>, topic: Option<string>)
    requires Inv(lower, w) && c in w.channels && w.channels[c].kind != Direct
    requires rename.Some? ==> !NameTaken(lower, w, rename.value, Some(c))
    ensures var w' := Insert(w, c, Updated(w.channels[c], rename, topic)); Inv(lower, w') && Extends(w, w')
  {
    hide MembersOf, UniqueNames;
    var w' := Insert(w, c, Updated(w.channels[c], rename, topic));
    UpdateKeepsNames(lower, w, c, rename, topic);
    assert forall d :: MembersOf(w', d) == MembersOf(w, d);
    assert forall d :: IsDirect(w', d) <==> IsDirect(w, d);
  }

  lemma UpdateKeepsNames(
    lower: string -> string, w: Workspace, c: ChannelId, rename: Option<string>, topic: Option<string>)
    requires UniqueNames(lower, w) && c in w.channels
    requires rename.Some? ==> !NameTaken(lower, w, rename.value, Some(c))
    ensures UniqueNames(lower, Insert(w, c, Updated(w.channels[c], rename, topic)))
  {
    var w' := Insert(w, c, Updated(w.channels[c], rename, topic));
    forall d, e | d in w'.channels && e in w'.channels && SameName(lower, w'.channels[d], w'.channels[e])
      ensures d == e
    {
      if rename.None? { assert SameName(lower, w.channels[d], w.channels[e]); }
    }
  }

  /** Two distinct members are all there are in a set of two. */
  lemma PairIs(us: set<UserId>, a: UserId, b: UserId)
    requires a != b
    ensures (|us| == 2 && a in us && b in us) <==> us == {a, b}
  {
    if |us| == 2 && a in us && b in us {
      FewerThan(us, a);
      FewerThan(us - {a}, b);
      assert us - {a} - {b} == {};
    }
  }

  lemma DirectsAreExact(w: Workspace, a: UserId, b: UserId, c: ChannelId)
    requires a != b
    ensures c in Directs(w, a, b) <==> IsDirect(w, c) && MembersOf(w, c) == {a, b}
    ensures Directs(w, a, b) == Directs(w, b, a)
  {
    PairIs(MembersOf(w, c), a, b);
  }

  /** A direct channel is created only if its pair has none. */
  lemma CreateDirectKeepsInv(lower: string -> string, w: Workspace, a: UserId, b: UserId, c: ChannelId)
    requires Inv(lower, w) && a != b && a in w.users && b in w.users && c !in w.channels
    requires Directs(w, a, b) == {}
    ensures var w' := Join(Join(Insert(w, c, Channel(Direct, None, None, a)), c, a, Member), c, b, Member);
            Inv(lower, w') && Extends(w, w') && IsDirect(w', c) && MembersOf(w', c) == {a, b}
  {
    hide MembersOf, UniqueNames, Named, NameTaken, Directs;
    var w1 := Insert(w, c, Channel(Direct, None, None, a));
    InsertKeepsInv(lower, w, c, Channel(Direct, None, None, a));
    var w2 := Join(w1, c, a, Member);
    var w3 := Join(w2, c, b, Member);
    MembersAfterJoin(w1, c, a, Member);
    MembersAfterJoin(w2, c, b, Member);
    NamesUntouched(lower, w1, w3);
    assert {} + {a} + {b} == {a, b};
    forall d | IsDirect(w3, d) && d != c ensures MembersOf(w3, d) == MembersOf(w, d) && MembersOf(w, d) != {a, b} {
      DirectsAreExact(w, a, b, d);
      assert forall u :: u in MembersOf(w1, d) <==> u in MembersOf(w, d);
    }
    assert forall d :: IsDirect(w1, d) <==> IsDirect(w3, d);
  }

  lemma NameTakenIn(lower: string -> string, w: Workspace, w': Workspace, name: string)
    requires w'.channels == w.channels
    ensures NameTaken(lower, w', name, None) == NameTaken(lower, w, name, None)
    ensures Defaults(w') == Defaults(w)
  {
  }

  lemma NewUserKeepsInv(lower: string -> string, w: Workspace, u: UserId)
    requires Inv(lower, w)
    ensures Inv(lower, w.(users := w.users + {u})) && Extends(w, w.(users := w.users + {u}))
  {
    hide MembersOf, NameTaken;
    var w' := w.(users := w.users + {u});
    assert forall d :: MembersOf(w', d) == MembersOf(w, d);
    assert forall d :: IsDirect(w', d) <==> IsDirect(w, d);
  }

  lemma SignupKeepsInv(lower: string -> string, w: Workspace, op: Op)
    requires Inv(lower, w) && Legal(w, op) && op.Signup?
    ensures Inv(lower, Next(lower, w, op)) && Extends(w, Next(lower, w, op))
  {
    hide Inv, Join, NameTaken, Defaults, Extends;
    if Verdict(lower, w, op) == Done {
      var w1 := w.(users := w.users + {op.user});
      NewUserKeepsInv(lower, w, op.user);
      NameTakenIn(lower, w, w1, DEFAULT_CHANNEL);
      if Defaults(w) != {} {
        PickIsDefault(w, op.pick);
        JoinKeepsInv(lower, w1, op.pick, op.user, Member);
        ExtendsThrough(w, w1, Join(w1, op.pick, op.user, Member));
      } else if !NameTaken(lower, w, DEFAULT_CHANNEL, None) {
        var ch := Channel(Public, Some(DEFAULT_CHANNEL), Some(DEFAULT_TOPIC), op.user);
        var w2, role := Insert(w1, op.id, ch), if w.users == {} then Owner else Member;
        InsertKeepsInv(lower, w1, op.id, ch);
        JoinKeepsInv(lower, w2, op.id, op.user, role);
        ExtendsThrough(w, w1, w2);
        ExtendsThrough(w, w2, Join(w2, op.id, op.user, role));
      }
    } else {
      ExtendsItself(w);
    }
  }

  lemma PickIsDefault(w: Workspace, pick: ChannelId)
    ensures pick in Defaults(w) <==> IsDefault(w, pick)
  {
  }

  lemma ExtendsThrough(a: Workspace, b: Workspace, c: Workspace)
    requires Extends(a, b) && Extends(b, c)
    ensures Extends(a, c)
  {
  }

  lemma ExtendsItself(w: Workspace)
    ensures Extends(w, w)
  {
  }

  lemma CreateChannelKeepsInv(lower: string -> string, w: Workspace, op: Op)
    requires Inv(lower, w) && Legal(w, op) && op.CreateChannel?
    ensures Inv(lower, Next(lower, w, op)) && Extends(w, Next(lower, w, op))
  {
    hide Inv, Join, JoinAll, NameTaken, Extends;
    ExtendsItself(w);
    if Verdict(lower, w, op).Returned? {
      var ch := Created(op);
      var w1 := Insert(w, op.id, ch);
      InsertKeepsInv(lower, w, op.id, ch);
      var w2 := Join(w1, op.id, op.actor, Owner);
      JoinKeepsInv(lower, w1, op.id, op.actor, Owner);
      JoinEffect(w1, op.id, op.actor, Owner);
      JoinAllKeepsInv(lower, w2, op.id, op.invited);
      ExtendsThrough(w, w1, w2);
      ExtendsThrough(w, w2, JoinAll(w2, op.id, op.invited));
    }
  }

  /** An administrator's channel exists and is not direct. */
  lemma AdminsChannel(lower: string -> string, w: Workspace, c: ChannelId, u: UserId)
    requires Inv(lower, w) && RequireChannelAdmin(w, c, u)
    ensures c in w.channels && w.channels[c].createdBy == u && w.channels[c].kind != Direct
  {
  }

  lemma StepKeepsInv(lower: string -> string, w: Workspace, op: Op)
    requires Inv(lower, w) && Legal(w, op)
    ensures Inv(lower, Next(lower, w, op)) && Extends(w, Next(lower, w, op))
  {
    hide Inv, Join, Insert, NameTaken, Extends, Directs, Defaults, RequireChannelAdmin, EnsureDefault, JoinAll;
    ExtendsItself(w);
    match op
    case Signup(_, _, _, _) => SignupKeepsInv(lower, w, op);
    case CreateChannel(_, _, _, _, _, _, _) => CreateChannelKeepsInv(lower, w, op);
    case CreateDirect(actor, other, id, _) =>
      if Verdict(lower, w, op).Returned? && Directs(w, actor, other) == {} {
        CreateDirectKeepsInv(lower, w, actor, other, id);
      }
    case AddMember(actor, c, target) =>
      if Verdict(lower, w, op) == Done {
        AdminsChannel(lower, w, c, actor);
        if (c, target) in w.members { AlreadyJoined(w, c, target); } else { JoinKeepsInv(lower, w, c, target, Member); }
      }
    case RemoveMember(_, c, target) => LeaveKeepsInv(lower, w, c, target);
    case UpdateChannel(actor, c, rename, topic) =>
      if Verdict(lower, w, op) == Done {
        AdminsChannel(lower, w, c, actor);
        UpdateKeepsInv(lower, w, c, rename, topic);
      }
  }

  lemma AlreadyJoined(w: Workspace, c: ChannelId, u: UserId)
    requires (c, u) in w.members
    ensures Join(w, c, u, Member) == w
  {
  }

  /** In every reachable workspace. */
  lemma {:induction false} RunKeepsInv(lower: string -> string, ops: seq<Op>)
    requires LegalRun(lower, ops)
    ensures Inv(lower, Run(lower, ops))
  {
    if ops != [] {
      hide Next, Legal, Inv;
      RunKeepsInv(lower, ops[..|ops| - 1]);
      StepKeepsInv(lower, Run(lower, ops[..|ops| - 1]), ops[|ops| - 1]);
    } else {
      EmptyInv(lower);
    }
  }

  lemma EmptyInv(lower: string -> string)
    ensures Inv(lower, EMPTY)
  {
  }

  /** There is never a second default channel, so the query that looks for it leaves no choice. */
  lemma AtMostOneDefault(lower: string -> string, ops: seq<Op>, c: ChannelId, d: ChannelId)
    requires LegalRun(lower, ops) && c in Defaults(Run(lower, ops)) && d in Defaults(Run(lower, ops))
    ensures c == d
  {
    hide Run, LegalRun;
    RunKeepsInv(lower, ops);
    assert SameName(lower, Run(lower, ops).channels[c], Run(lower, ops).channels[d]);
  }
}
