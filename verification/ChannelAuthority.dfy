/** Who can change a channel's membership, over whole runs. */
module ChannelAuthority {
  import opened Ids
  import opened Wrappers
  import opened Membership

  ghost predicate NoAdmins(w: Workspace, c: ChannelId) { forall u :: !RequireChannelAdmin(w, c, u) }

  /** `u` is a member of `c` after the step but was not before. */
  predicate Joins(w: Workspace, w': Workspace, c: ChannelId, u: UserId) {
    (c, u) in w'.members && (c, u) !in w.members
  }

  /** How anybody comes to join a channel that exists: its creator, still in charge, adds them, or
      they sign up while it is the default channel. */
  predicate JoinsBy(w: Workspace, op: Op, c: ChannelId, u: UserId)
    requires c in w.channels
  {
    || (op.AddMember? && op.channel == c && op.target == u
        && op.actor == w.channels[c].createdBy && RequireChannelAdmin(w, c, op.actor))
    || (op.Signup? && op.user == u && IsDefault(w, c))
  }

  ghost predicate Changes(lower: string -> string, w: Workspace, op: Op, c: ChannelId)
    requires c in w.channels
  {
    var w' := Next(lower, w, op);
    && (forall u :: Joins(w, w', c, u) ==> JoinsBy(w, op, c, u) && w'.members[(c, u)] == Member)
    && (forall u :: (c, u) in w.members && (c, u) in w'.members ==> w'.members[(c, u)] == w.members[(c, u)])
  }

  lemma JoinElsewhere(w: Workspace, d: ChannelId, v: UserId, role: Role, c: ChannelId)
    requires c != d
    ensures forall u :: (c, u) in Join(w, d, v, role).members <==> (c, u) in w.members
    ensures forall u :: (c, u) in w.members ==> Join(w, d, v, role).members[(c, u)] == w.members[(c, u)]
  {
  }

  lemma {:induction false} JoinAllElsewhere(w: Workspace, d: ChannelId, us: seq<UserId>, c: ChannelId)
    requires c != d
    ensures forall u :: (c, u) in JoinAll(w, d, us).members <==> (c, u) in w.members
    ensures forall u :: (c, u) in w.members ==> JoinAll(w, d, us).members[(c, u)] == w.members[(c, u)]
  {
    if us == [] {
    } else {
      hide Join;
      JoinAllElsewhere(w, d, us[..|us| - 1], c);
      JoinElsewhere(JoinAll(w, d, us[..|us| - 1]), d, us[|us| - 1], Member, c);
    }
  }

  /** No step changes a member's role, and joiners are plain members. */
  lemma StepChanges(lower: string -> string, w: Workspace, op: Op, c: ChannelId)
    requires Inv(lower, w) && Legal(w, op) && c in w.channels
    ensures Changes(lower, w, op, c)
  {
    hide Inv, Defaults, Directs, NameTaken, RequireChannelAdmin, IsDefault, MembersOf;
    match op
    case Signup(user, _, id, pick) =>
      PickIsDefault(w, pick);
      NameTakenIn(lower, w, w.(users := w.users + {user}), DEFAULT_CHANNEL);
    case CreateChannel(actor, _, _, _, _, invited, id) =>
      hide Join, JoinAll;
      var w1 := Insert(w, id, Created(op));
      JoinElsewhere(w1, id, actor, Owner, c);
      JoinAllElsewhere(Join(w1, id, actor, Owner), id, invited, c);
    case CreateDirect(_, _, _, _) =>
    case AddMember(actor, d, target) => if RequireChannelAdmin(w, d, actor) { AdminsChannel(lower, w, d, actor); }
    case RemoveMember(_, _, _) =>
    case UpdateChannel(_, _, _, _) =>
  }

  /** A channel can be administered if and only if its creator still holds the role they were given. */
  lemma OnlyTheCreator(lower: string -> string, ops: seq<Op>, c: ChannelId, u: UserId)
    requires LegalRun(lower, ops)
    ensures var w := Run(lower, ops);
            RequireChannelAdmin(w, c, u) ==> c in w.channels && u == w.channels[c].createdBy && !IsDirect(w, c)
    ensures var w := Run(lower, ops);
            c in w.channels && !RequireChannelAdmin(w, c, w.channels[c].createdBy) ==> NoAdmins(w, c)
  {
    hide Run, LegalRun, Inv, RequireChannelAdmin, IsDirect;
    var w := Run(lower, ops);
    RunKeepsInv(lower, ops);
    forall v | RequireChannelAdmin(w, c, v)
      ensures c in w.channels && v == w.channels[c].createdBy && !IsDirect(w, c)
    {
      AdminsChannel(lower, w, c, v);
      NotDirect(w, c);
    }
  }

  lemma NotDirect(w: Workspace, c: ChannelId)
    requires c in w.channels && w.channels[c].kind != Direct
    ensures !IsDirect(w, c)
  {
  }

  /** Everybody who ever joins an existing channel is added by its creator or by signing up. */
  lemma JoiningNeedsTheCreator(lower: string -> string, ops: seq<Op>, op: Op, c: ChannelId, u: UserId)
    requires LegalRun(lower, ops) && Legal(Run(lower, ops), op) && c in Run(lower, ops).channels
    requires Joins(Run(lower, ops), Next(lower, Run(lower, ops), op), c, u)
    ensures JoinsBy(Run(lower, ops), op, c, u)
  {
    hide Run, LegalRun, Next, Legal, Inv, JoinsBy;
    RunKeepsInv(lower, ops);
    StepChanges(lower, Run(lower, ops), op, c);
  }

  lemma StepKeepsOwnerless(lower: string -> string, w: Workspace, op: Op, c: ChannelId)
    requires Inv(lower, w) && Legal(w, op) && c in w.channels && NoAdmins(w, c)
    ensures var w' := Next(lower, w, op);
            && NoAdmins(w', c) && c in w'.channels && w'.channels[c] == w.channels[c]
            && MembersOf(w', c) <= MembersOf(w, c) + if IsDefault(w, c) then w'.users - w.users else {}
  {
    hide Inv, Legal, Next, MembersOf, NoAdmins, Changes;
    StepChanges(lower, w, op, c);
    ChannelKept(lower, w, op, c);
    SignedUp(lower, w, op);
    StaysOwnerless(lower, w, op, c);
    GrowsBySignup(lower, w, op, c);
  }

  lemma StaysOwnerless(lower: string -> string, w: Workspace, op: Op, c: ChannelId)
    requires c in w.channels && NoAdmins(w, c) && Changes(lower, w, op, c)
    ensures NoAdmins(Next(lower, w, op), c)
  {
    hide Next, JoinsBy;
    var w' := Next(lower, w, op);
    forall u: UserId ensures !RequireChannelAdmin(w', c, u) {
      assert !RequireChannelAdmin(w, c, u);
      if (c, u) in w'.members && (c, u) !in w.members { assert Joins(w, w', c, u); }
    }
  }

  lemma GrowsBySignup(lower: string -> string, w: Workspace, op: Op, c: ChannelId)
    requires c in w.channels && NoAdmins(w, c) && Changes(lower, w, op, c) && UserIsNew(lower, w, op)
    ensures var w' := Next(lower, w, op);
            MembersOf(w', c) <= MembersOf(w, c) + if IsDefault(w, c) then w'.users - w.users else {}
  {
    hide Next, IsDefault, RequireChannelAdmin, MembersOf;
    var w' := Next(lower, w, op);
    forall u | u in MembersOf(w', c) && u !in MembersOf(w, c)
      ensures IsDefault(w, c) && u in w'.users && u !in w.users
    {
      assert Joins(w, w', c, u);
      if op.AddMember? { assert !RequireChannelAdmin(w, c, op.actor); }
    }
  }

  /** A user who signs up is new, and members are users. */
  ghost predicate UserIsNew(lower: string -> string, w: Workspace, op: Op) {
    && (op.Signup? ==> op.user !in w.users)
    && forall k :: k in Next(lower, w, op).members ==> k.1 in Next(lower, w, op).users
  }

  lemma SignedUp(lower: string -> string, w: Workspace, op: Op)
    requires Inv(lower, w) && Legal(w, op)
    ensures UserIsNew(lower, w, op)
  {
    StepKeepsInv(lower, w, op);
    hide Next;
  }

  /** Without an administrator a channel's row does not change. */
  lemma ChannelKept(lower: string -> string, w: Workspace, op: Op, c: ChannelId)
    requires Inv(lower, w) && Legal(w, op) && c in w.channels && NoAdmins(w, c)
    ensures c in Next(lower, w, op).channels && Next(lower, w, op).channels[c] == w.channels[c]
  {
    hide Inv, Defaults, Directs, NameTaken, MembersOf, RequireChannelAdmin;
    match op
    case CreateChannel(actor, _, _, _, _, invited, id) =>
      var w1 := Insert(w, id, Created(op));
      JoinAllKeepsChannels(Join(w1, id, actor, Owner), id, invited);
    case _ =>
  }

  lemma {:induction false} JoinAllKeepsChannels(w: Workspace, c: ChannelId, us: seq<UserId>)
    ensures JoinAll(w, c, us).channels == w.channels
  {
    if us == [] {
    } else {
      JoinAllKeepsChannels(w, c, us[..|us| - 1]);
    }
  }

  /** Having no administrator is for good. From then on the channel keeps its name and topic, and
      nobody joins it any more, except users who sign up if it is the default channel. */
  lemma {:induction false} OwnerlessForever(lower: string -> string, ops: seq<Op>, k: nat, c: ChannelId)
    requires LegalRun(lower, ops) && k <= |ops|
    requires c in Run(lower, ops[..k]).channels && NoAdmins(Run(lower, ops[..k]), c)
    ensures var past, now := Run(lower, ops[..k]), Run(lower, ops);
            && NoAdmins(now, c) && c in now.channels && now.channels[c] == past.channels[c] && past.users <= now.users
            && MembersOf(now, c) <= MembersOf(past, c) + if IsDefault(past, c) then now.users - past.users else {}
    decreases |ops|
  {
    hide Next, Legal, Inv, NoAdmins, MembersOf, Extends;
    if k == |ops| {
      assert ops[..k] == ops;
    } else {
      var before, op := ops[..|ops| - 1], ops[|ops| - 1];
      assert before[..k] == ops[..k];
      OwnerlessForever(lower, before, k, c);
      RunKeepsInv(lower, before);
      StepKeepsOwnerless(lower, Run(lower, before), op, c);
      StepKeepsInv(lower, Run(lower, before), op);
      MoreUsers(Run(lower, before), Run(lower, ops));
    }
  }

  lemma MoreUsers(w: Workspace, later: Workspace)
    requires Extends(w, later)
    ensures w.users <= later.users
  {
  }

  /** When the creator leaves, the channel loses its only possible administrator; being added again
      does not bring the role back, for nobody is left to add anyone. */
  lemma OwnerlessOnceCreatorLeaves(lower: string -> string, ops: seq<Op>, k: nat, c: ChannelId)
    requires LegalRun(lower, ops) && k <= |ops| && c in Run(lower, ops[..k]).channels
    requires var w := Run(lower, ops[..k]); (c, w.channels[c].createdBy) !in w.members
    ensures NoAdmins(Run(lower, ops), c)
  {
    hide Run, LegalRun, NoAdmins;
    PrefixIsLegal(lower, ops, k);
    OnlyTheCreator(lower, ops[..k], c, Run(lower, ops[..k]).channels[c].createdBy);
    OwnerlessForever(lower, ops, k, c);
  }

  lemma {:induction false} PrefixIsLegal(lower: string -> string, ops: seq<Op>, k: nat)
    requires LegalRun(lower, ops) && k <= |ops|
    ensures LegalRun(lower, ops[..k])
    decreases |ops|
  {
    if k == |ops| {
      assert ops[..k] == ops;
    } else {
      PrefixIsLegal(lower, ops[..|ops| - 1], k);
      assert ops[..|ops| - 1][..k] == ops[..k];
    }
  }

  /** A default channel that a signup creates has an administrator if and only if nobody had signed
      up before: whoever recreates it later joins it as a plain member. */
  lemma DefaultIsOwnedIffFirst(lower: string -> string, ops: seq<Op>, op: Op)
    requires LegalRun(lower, ops) && op.Signup? && !op.taken && Legal(Run(lower, ops), op)
    requires op.id in Next(lower, Run(lower, ops), op).channels
    ensures var w := Run(lower, ops);
            && IsDefault(Next(lower, w, op), op.id)
            && (!NoAdmins(Next(lower, w, op), op.id) <==> w.users == {})
  {
    hide Run, LegalRun, NameTaken, Defaults;
    var w := Run(lower, ops);
    var w' := Next(lower, w, op);
    RunKeepsInv(lower, ops);
    assert (op.id, op.user) !in w.members;
    assert (op.id, op.user) in w'.members;
    assert RequireChannelAdmin(w', op.id, op.user) <==> w.users == {};
    assert forall u :: u != op.user ==> !RequireChannelAdmin(w', op.id, u);
  }
}
