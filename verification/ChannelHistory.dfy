/** Who may change a channel, read off the steps of the run, and what each accepted change leaves. */
module ChannelHistory {
  import opened Ids
  import opened Wrappers
  import opened Membership
  import A = ChannelAuthority

  // ---- Who administers a channel.

  /** The step makes `u` the administrator of the new channel `c`: they create it, or they are the first
      to sign up and it is the default channel. */
  predicate FoundsNow(lower: string -> string, w: Workspace, op: Op, c: ChannelId, u: UserId) {
    match op
    case Signup(user, taken, id, _) => user == u && id == c && !taken && w.users == {}
    case CreateChannel(actor, _, _, _, _, _, id) => actor == u && id == c && Verdict(lower, w, op) == Returned(c)
    case _ => false
  }

  predicate Founds(lower: string -> string, ops: seq<Op>, i: nat, c: ChannelId, u: UserId)
    requires i < |ops|
  {
    FoundsNow(lower, Run(lower, ops[..i]), ops[i], c, u)
  }

  /** Step `j` founds the channel, and its founder has not removed themselves since. */
  ghost predicate InCharge(lower: string -> string, ops: seq<Op>, j: nat, c: ChannelId, u: UserId) {
    && j < |ops| && Founds(lower, ops, j, c, u)
    && forall m :: j < m < |ops| ==> ops[m] != RemoveMember(u, c, u)
  }

  /** Nobody has signed up, so there is nothing. */
  predicate Settled(w: Workspace) { w.users == {} ==> w.channels == map[] }

  lemma StepKeepsSettled(lower: string -> string, w: Workspace, op: Op)
    requires Settled(w) && Legal(w, op)
    ensures Settled(Next(lower, w, op))
  {
    hide NameTaken, MembersOf, RequireChannelAdmin;
    match op
    case CreateChannel(actor, _, _, _, _, invited, id) =>
      JoinAllKeepsUsers(Join(Insert(w, id, Created(op)), id, actor, Owner), id, invited);
    case _ =>
  }

  lemma {:induction false} JoinAllKeepsUsers(w: Workspace, c: ChannelId, us: seq<UserId>)
    ensures JoinAll(w, c, us).users == w.users && JoinAll(w, c, us).channels == w.channels
  {
    if us == [] {
    } else {
      JoinAllKeepsUsers(w, c, us[..|us| - 1]);
    }
  }

  lemma {:induction false} RunIsSettled(lower: string -> string, ops: seq<Op>)
    requires LegalRun(lower, ops)
    ensures Settled(Run(lower, ops))
  {
    hide Next, Legal, Settled;
    if ops == [] {
      assert Settled(EMPTY) by { NothingSettled(); }
    } else {
      RunIsSettled(lower, ops[..|ops| - 1]);
      StepKeepsSettled(lower, Run(lower, ops[..|ops| - 1]), ops[|ops| - 1]);
    }
  }

  lemma NothingSettled()
    ensures Settled(EMPTY)
  {
  }

  lemma StepAdministers(lower: string -> string, w: Workspace, op: Op, c: ChannelId, u: UserId)
    requires Inv(lower, w) && Legal(w, op) && Settled(w)
    ensures RequireChannelAdmin(Next(lower, w, op), c, u) <==>
              FoundsNow(lower, w, op, c, u) || (RequireChannelAdmin(w, c, u) && op != RemoveMember(u, c, u))
  {
    if c in w.channels {
      OldChannelAdministers(lower, w, op, c, u);
    } else {
      NewChannelAdministers(lower, w, op, c, u);
    }
  }

  lemma OldChannelAdministers(lower: string -> string, w: Workspace, op: Op, c: ChannelId, u: UserId)
    requires Inv(lower, w) && Legal(w, op) && Settled(w) && c in w.channels
    ensures !FoundsNow(lower, w, op, c, u)
    ensures RequireChannelAdmin(Next(lower, w, op), c, u) <==>
              RequireChannelAdmin(w, c, u) && op != RemoveMember(u, c, u)
  {
    A.StepChanges(lower, w, op, c);
    LeavesIff(lower, w, op, c, u);
    hide Next, Inv, Verdict, A.JoinsBy, MembersOf, IsDefault;
    var w' := Next(lower, w, op);
    if (c, u) in w.members {
      if op.RemoveMember? && op.actor != u && RequireChannelAdmin(w, c, u) && RequireChannelAdmin(w, c, op.actor) {
        OneAdministrator(lower, w, c, u, op.actor);
      }
    } else {
      assert A.Joins(w, w', c, u) ==> w'.members[(c, u)] == Member;
    }
  }

  lemma OneAdministrator(lower: string -> string, w: Workspace, c: ChannelId, u: UserId, v: UserId)
    requires Inv(lower, w) && RequireChannelAdmin(w, c, u) && RequireChannelAdmin(w, c, v)
    ensures u == v
  {
    AdminsChannel(lower, w, c, u);
    AdminsChannel(lower, w, c, v);
  }

  lemma NewChannelAdministers(lower: string -> string, w: Workspace, op: Op, c: ChannelId, u: UserId)
    requires Inv(lower, w) && Legal(w, op) && Settled(w) && c !in w.channels
    ensures !RequireChannelAdmin(w, c, u)
    ensures RequireChannelAdmin(Next(lower, w, op), c, u) <==> FoundsNow(lower, w, op, c, u)
  {
    hide NameTaken, MembersOf, UniqueNames, OwnersCreated, DirectsArePairs, Named;
    match op
    case CreateChannel(actor, _, _, _, _, invited, id) =>
      hide JoinAll;
      JoinAllRoles(Join(Insert(w, id, Created(op)), id, actor, Owner), id, invited, c, u);
    case Signup(_, _, _, _) => if w.users == {} { NoName(lower, w.(users := w.users + {op.user})); }
    case _ =>
  }

  lemma NoName(lower: string -> string, w: Workspace)
    requires w.channels == map[]
    ensures Defaults(w) == {} && !NameTaken(lower, w, DEFAULT_CHANNEL, None)
  {
  }

  /** Those added with a channel become plain members; who is in it already keeps their role. */
  lemma {:induction false} JoinAllRoles(w: Workspace, d: ChannelId, us: seq<UserId>, c: ChannelId, u: UserId)
    ensures var w' := JoinAll(w, d, us);
            && ((c, u) in w'.members <==> (c, u) in w.members || (c == d && u in us))
            && ((c, u) in w'.members ==>
                  w'.members[(c, u)] == if (c, u) in w.members then w.members[(c, u)] else Member)
  {
    if us == [] {
    } else {
      JoinAllRoles(w, d, us[..|us| - 1], c, u);
      assert u in us <==> u in us[..|us| - 1] || u == us[|us| - 1];
    }
  }

  lemma InChargeStep(lower: string -> string, ops: seq<Op>, j: nat, c: ChannelId, u: UserId)
    requires ops != []
    ensures var before, last := ops[..|ops| - 1], |ops| - 1;
            InCharge(lower, ops, j, c, u) <==>
              (j == last && Founds(lower, ops, last, c, u))
              || (InCharge(lower, before, j, c, u) && ops[last] != RemoveMember(u, c, u))
  {
    hide FoundsNow, Run;
    var before, last := ops[..|ops| - 1], |ops| - 1;
    forall m | 0 <= m < last ensures Founds(lower, ops, m, c, u) == Founds(lower, before, m, c, u) {
      assert before[..m] == ops[..m];
    }
  }

  lemma NobodyYet(lower: string -> string, c: ChannelId, u: UserId)
    ensures !RequireChannelAdmin(Run(lower, []), c, u) && forall j :: !InCharge(lower, [], j, c, u)
  {
  }

  lemma RunStep(lower: string -> string, ops: seq<Op>)
    requires LegalRun(lower, ops) && ops != []
    ensures Run(lower, ops) == Next(lower, Run(lower, ops[..|ops| - 1]), ops[|ops| - 1])
    ensures LegalRun(lower, ops[..|ops| - 1]) && Legal(Run(lower, ops[..|ops| - 1]), ops[|ops| - 1])
  {
  }

  /** A channel is administered by whoever founded it, until they remove themselves, and by nobody else.
      Nobody can remove its administrator. */
  lemma {:induction false} AdministersIffInCharge(lower: string -> string, ops: seq<Op>, c: ChannelId, u: UserId)
    requires LegalRun(lower, ops)
    ensures RequireChannelAdmin(Run(lower, ops), c, u) <==> exists j :: InCharge(lower, ops, j, c, u)
  {
    hide Next, Legal, Inv, Run, LegalRun, InCharge, FoundsNow, RequireChannelAdmin, Settled;
    if ops == [] {
      NobodyYet(lower, c, u);
    } else {
      var before, last := ops[..|ops| - 1], |ops| - 1;
      RunStep(lower, ops);
      AdministersIffInCharge(lower, before, c, u);
      RunKeepsInv(lower, before);
      RunIsSettled(lower, before);
      StepAdministers(lower, Run(lower, before), ops[last], c, u);
      if RequireChannelAdmin(Run(lower, ops), c, u) {
        if Founds(lower, ops, last, c, u) {
          InChargeStep(lower, ops, last, c, u);
        } else {
          var j :| InCharge(lower, before, j, c, u);
          InChargeStep(lower, ops, j, c, u);
        }
      }
      if exists j :: InCharge(lower, ops, j, c, u) {
        var j :| InCharge(lower, ops, j, c, u);
        InChargeStep(lower, ops, j, c, u);
      }
    }
  }

  // ---- Who removes, adds and changes.

  /** A member is out after a step exactly if the step removes them, by their own hand or by that of an
      owner or administrator among the members. */
  lemma LeavesIff(lower: string -> string, w: Workspace, op: Op, c: ChannelId, u: UserId)
    requires Inv(lower, w) && Legal(w, op) && c in w.channels
    ensures (c, u) in w.members ==>
              ((c, u) !in Next(lower, w, op).members <==>
                 && op.RemoveMember? && op.channel == c && op.target == u
                 && (op.actor == u || ((c, op.actor) in w.members && w.members[(c, op.actor)] != Member)))
  {
    hide Inv, Defaults, Directs, NameTaken, MembersOf;
    match op
    case CreateChannel(actor, _, _, _, _, invited, id) =>
      hide JoinAll;
      JoinAllRoles(Join(Insert(w, id, Created(op)), id, actor, Owner), id, invited, c, u);
    case _ =>
  }

  /** Over runs: whoever stops being a member removed themselves or was removed by the channel's founder,
      still in charge, and whoever is removed so stops being one. All other removals are forbidden. */
  lemma LeavingNeedsTheFounder(lower: string -> string, ops: seq<Op>, op: Op, c: ChannelId, u: UserId)
    requires LegalRun(lower, ops) && Legal(Run(lower, ops), op) && (c, u) in Run(lower, ops).members
    ensures (c, u) !in Next(lower, Run(lower, ops), op).members <==>
              && op.RemoveMember? && op.channel == c && op.target == u
              && (op.actor == u || exists j :: InCharge(lower, ops, j, c, op.actor))
  {
    hide Run, LegalRun, Next, Legal, InCharge, UniqueNames, OwnersCreated, DirectsArePairs, Named;
    RunKeepsInv(lower, ops);
    LeavesIff(lower, Run(lower, ops), op, c, u);
    if op.RemoveMember? { AdministersIffInCharge(lower, ops, c, op.actor); }
  }

  lemma RemovalAcceptedIff(lower: string -> string, ops: seq<Op>, op: Op)
    requires LegalRun(lower, ops) && op.RemoveMember?
    ensures var v := Verdict(lower, Run(lower, ops), op);
            && (v == Done || v == Forbidden)
            && (v == Done <==> op.actor == op.target || exists j :: InCharge(lower, ops, j, op.channel, op.actor))
  {
    hide Run, LegalRun, InCharge, RequireChannelAdmin;
    AdministersIffInCharge(lower, ops, op.channel, op.actor);
  }

  /** Adding a member needs the founder in charge, and the member to be a user; then they are in, as a
      plain member if they were not in before. */
  lemma AdditionAcceptedIff(lower: string -> string, ops: seq<Op>, op: Op)
    requires LegalRun(lower, ops) && op.AddMember?
    ensures var w, c, u := Run(lower, ops), op.channel, op.target;
            var v, w' := Verdict(lower, w, op), Next(lower, w, op);
            && (v == Forbidden <==> !exists j :: InCharge(lower, ops, j, c, op.actor))
            && (v == Done || v == Failed ==> (v == Done <==> u in w.users))
            && (v == Done ==> (c, u) in w'.members && ((c, u) !in w.members ==> w'.members[(c, u)] == Member))
            && (v == Done || v == Failed || v == Forbidden)
  {
    hide Run, LegalRun, InCharge, RequireChannelAdmin, UniqueNames, OwnersCreated, DirectsArePairs, Named;
    RunKeepsInv(lower, ops);
    AdministersIffInCharge(lower, ops, op.channel, op.actor);
  }

  /** Renaming needs the founder in charge and a name no other channel has. Then exactly what was given
      has changed, in this channel only. */
  lemma UpdateAcceptedIff(lower: string -> string, ops: seq<Op>, op: Op)
    requires LegalRun(lower, ops) && op.UpdateChannel?
    ensures var w, c := Run(lower, ops), op.channel;
            var v, w' := Verdict(lower, w, op), Next(lower, w, op);
            && (v == Forbidden <==> !exists j :: InCharge(lower, ops, j, c, op.actor))
            && (v == Done || v == Failed || v == Forbidden)
            && (v == Done || v == Failed ==>
                  (v == Failed <==> op.rename.Some? && IsUsed(lower, w, op.rename.value, Some(c))))
            && w'.members == w.members && w'.users == w.users && w'.channels.Keys == w.channels.Keys
            && (forall d :: d in w.channels && (d != c || v != Done) ==> w'.channels[d] == w.channels[d])
            && (v == Done ==>
                  && c in w.channels
                  && w'.channels[c].kind == w.channels[c].kind && w'.channels[c].createdBy == w.channels[c].createdBy
                  && w'.channels[c].name == (if op.rename.Some? then op.rename else w.channels[c].name)
                  && w'.channels[c].topic == (if op.topic.Some? then op.topic else w.channels[c].topic))
  {
    hide Run, LegalRun, InCharge, RequireChannelAdmin, Inv;
    var w := Run(lower, ops);
    RunKeepsInv(lower, ops);
    AdministersIffInCharge(lower, ops, op.channel, op.actor);
    if RequireChannelAdmin(w, op.channel, op.actor) { AdminsChannel(lower, w, op.channel, op.actor); }
    if op.rename.Some? { NamesOf(lower, w, op.rename.value, Some(op.channel)); }
    hide NameTaken;
  }

  predicate HasName(lower: string -> string, w: Workspace, d: ChannelId, name: string) {
    d in w.channels && w.channels[d].name.Some? && lower(w.channels[d].name.value) == lower(name)
  }

  /** Another channel than `except` has the name, ignoring case. */
  ghost predicate IsUsed(lower: string -> string, w: Workspace, name: string, except: Option<ChannelId>) {
    exists d: ChannelId :: HasName(lower, w, d, name) && Some(d) != except
  }

  lemma NamesOf(lower: string -> string, w: Workspace, name: string, except: Option<ChannelId>)
    ensures NameTaken(lower, w, name, except) <==> IsUsed(lower, w, name, except)
  {
    if NameTaken(lower, w, name, except) {
      var d :| d in w.channels && Some(d) != except && w.channels[d].name.Some?
               && lower(w.channels[d].name.value) == lower(name);
      assert HasName(lower, w, d, name);
    }
  }

  // ---- What is created.

  /** Creating a channel is forbidden exactly without the permission, conflicts exactly if the name is
      taken, and fails exactly if somebody named is no user. What it creates is private exactly if asked
      to be, with the name and topic given, and has its creator as owner and those invited as members. */
  lemma CreationAcceptedIff(lower: string -> string, ops: seq<Op>, op: Op)
    requires LegalRun(lower, ops) && op.CreateChannel? && Legal(Run(lower, ops), op)
    ensures var w := Run(lower, ops);
            var v, w' := Verdict(lower, w, op), Next(lower, w, op);
            var strangers := op.actor !in w.users || exists u :: u in op.invited && u !in w.users;
            && (v == Forbidden <==> !op.may)
            && (v == Conflict <==> op.may && IsUsed(lower, w, op.name, None))
            && (v == Failed <==> op.may && !IsUsed(lower, w, op.name, None) && strangers)
            && (v == Returned(op.id) <==> op.may && !IsUsed(lower, w, op.name, None) && !strangers)
            && (v != Returned(op.id) ==> w' == w)
            && (v == Returned(op.id) ==>
                  && w'.channels.Keys == w.channels.Keys + {op.id}
                  && (w'.channels[op.id].kind == Private <==> op.isPrivate)
                  && (w'.channels[op.id].kind == Public <==> !op.isPrivate)
                  && w'.channels[op.id].name == Some(op.name) && w'.channels[op.id].topic == op.topic)
  {
    hide Run, LegalRun, Join, JoinAll, NameTaken;
    var w := Run(lower, ops);
    NamesOf(lower, w, op.name, None);
    var w1 := Insert(w, op.id, Created(op));
    JoinEffect(w1, op.id, op.actor, Owner);
    JoinAllKeepsUsers(Join(w1, op.id, op.actor, Owner), op.id, op.invited);
  }

  lemma CreatedMembers(lower: string -> string, ops: seq<Op>, op: Op, c: ChannelId, u: UserId)
    requires LegalRun(lower, ops) && op.CreateChannel? && Legal(Run(lower, ops), op)
    requires Verdict(lower, Run(lower, ops), op) == Returned(op.id)
    ensures var w := Run(lower, ops);
            var w' := Next(lower, w, op);
            && ((c, u) in w'.members <==> (c, u) in w.members || (c == op.id && (u == op.actor || u in op.invited)))
            && (c == op.id && (c, u) in w'.members ==> w'.members[(c, u)] == if u == op.actor then Owner else Member)
  {
    hide Run, LegalRun, JoinAll, NameTaken, UniqueNames, OwnersCreated, DirectsArePairs, Named;
    RunKeepsInv(lower, ops);
    var w := Run(lower, ops);
    JoinAllRoles(Join(Insert(w, op.id, Created(op)), op.id, op.actor, Owner), op.id, op.invited, c, u);
  }

  /** A direct channel is for two different users. */
  lemma DirectAcceptedIff(lower: string -> string, ops: seq<Op>, op: Op)
    requires LegalRun(lower, ops) && op.CreateDirect? && Legal(Run(lower, ops), op)
    ensures var w := Run(lower, ops);
            var v, both := Verdict(lower, w, op), op.actor in w.users && op.other in w.users;
            && (v == BadRequest <==> op.actor == op.other)
            && (v == Failed <==> op.actor != op.other && !both)
            && (v.Returned? <==> op.actor != op.other && both)
  {
    hide Run, LegalRun, UniqueNames, OwnersCreated, DirectsArePairs, Named, MembersOf;
    RunKeepsInv(lower, ops);
    var w := Run(lower, ops);
    if op.actor != op.other && Directs(w, op.actor, op.other) != {} {
      assert IsDirectOf(w, op.pick, op.actor, op.other);
    }
  }

  /** Whoever signs up is a user, and a member of the default channel if there is one; there is one unless
      another kind of channel has its name. */
  lemma SignupJoinsDefault(lower: string -> string, ops: seq<Op>, op: Op)
    requires LegalRun(lower, ops) && op.Signup? && Legal(Run(lower, ops), op)
    ensures var w := Run(lower, ops);
            var v, w' := Verdict(lower, w, op), Next(lower, w, op);
            && (v == Conflict <==> op.taken) && (v == Done <==> !op.taken)
            && (v == Done ==> w'.users == w.users + {op.user})
            && (v == Done ==> forall c: ChannelId :: IsDefault(w', c) ==> (c, op.user) in w'.members)
            && (v == Done && Defaults(w') == {} ==> IsUsed(lower, w, DEFAULT_CHANNEL, None))
  {
    hide Run, LegalRun, Legal, Next;
    RunKeepsInv(lower, ops);
    SignupStep(lower, Run(lower, ops), op);
  }

  lemma SignupStep(lower: string -> string, w: Workspace, op: Op)
    requires Inv(lower, w) && op.Signup? && Legal(w, op)
    ensures var v, w' := Verdict(lower, w, op), Next(lower, w, op);
            && (v == Conflict <==> op.taken) && (v == Done <==> !op.taken)
            && (v == Done ==> w'.users == w.users + {op.user})
            && (v == Done ==> forall c: ChannelId :: IsDefault(w', c) ==> (c, op.user) in w'.members)
            && (v == Done && Defaults(w') == {} ==> IsUsed(lower, w, DEFAULT_CHANNEL, None))
  {
    hide NameTaken, Linked, UniqueNames, OwnersCreated, DirectsArePairs, Named, MembersOf;
    NamesOf(lower, w, DEFAULT_CHANNEL, None);
    NameTakenIn(lower, w, w.(users := w.users + {op.user}), DEFAULT_CHANNEL);
    var w' := Next(lower, w, op);
    PickIsDefault(w, op.pick);
    if !op.taken {
      forall c: ChannelId | IsDefault(w', c) ensures (c, op.user) in w'.members {
        if c in w.channels { DefaultIsPick(lower, w, c, op.pick); }
      }
      if Defaults(w) == {} && !NameTaken(lower, w, DEFAULT_CHANNEL, None) { assert op.id in Defaults(w'); }
    }
  }

  lemma DefaultIsPick(lower: string -> string, w: Workspace, c: ChannelId, pick: ChannelId)
    requires Inv(lower, w) && c in w.channels
    ensures IsDefault(w, c) ==> c in Defaults(w)
    ensures IsDefault(w, c) && IsDefault(w, pick) ==> c == pick
  {
    if IsDefault(w, c) && IsDefault(w, pick) { assert SameName(lower, w.channels[c], w.channels[pick]); }
  }
}
