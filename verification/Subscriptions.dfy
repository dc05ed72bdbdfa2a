/** Which sessions an event is sent to, read off the operations of the run. */
module Subscriptions {
  import opened Ids
  import opened SessionTable

  /** Operation `j` opens session `s` for user `u`, and none since has closed it. */
  ghost predicate OpenSince<E>(ops: seq<Op<E>>, j: nat, s: SessionId, u: UserId) {
    && j < |ops| && ops[j].Register? && ops[j].s == s && ops[j].user == u
    && forall m :: j < m < |ops| ==> !(ops[m].Unregister? && ops[m].s == s)
  }

  ghost predicate IsOpen<E>(ops: seq<Op<E>>, s: SessionId, u: UserId) { exists j :: OpenSince(ops, j, s, u) }

  /** Operation `j` subscribes the open session `s` to channel `c`, and none since has unsubscribed it or
      closed it. */
  ghost predicate SubscribedSince<E>(ops: seq<Op<E>>, j: nat, s: SessionId, c: ChannelId) {
    && j < |ops| && ops[j].Subscribe? && ops[j].s == s && ops[j].channel == c
    && (exists u :: IsOpen(ops[..j], s, u))
    && forall m :: j < m < |ops| ==>
         && !(ops[m].Unsubscribe? && ops[m].s == s && ops[m].channel == c)
         && !(ops[m].Unregister? && ops[m].s == s)
  }

  ghost predicate IsSubscribed<E>(ops: seq<Op<E>>, s: SessionId, c: ChannelId) {
    exists j :: SubscribedSince(ops, j, s, c)
  }

  ghost predicate Has<E>(t: Table<E>, s: SessionId, u: UserId) { s in t.sessions && t.sessions[s].user == u }

  ghost predicate Follows<E>(t: Table<E>, s: SessionId, c: ChannelId) {
    s in t.sessions && c in t.sessions[s].subscriptions
  }

  lemma StepHas<E>(t: Table<E>, op: Op<E>, s: SessionId, u: UserId)
    requires t.Valid() && Legal(t, op)
    ensures Has(Apply(t, op), s, u) <==>
              (op.Register? && op.s == s && op.user == u) || (Has(t, s, u) && !(op.Unregister? && op.s == s))
  {
  }

  lemma StepFollows<E>(t: Table<E>, op: Op<E>, s: SessionId, c: ChannelId)
    requires t.Valid() && Legal(t, op)
    ensures Follows(Apply(t, op), s, c) <==>
              || (op.Subscribe? && op.s == s && op.channel == c && s in t.sessions)
              || (Follows(t, s, c) && !(op.Unregister? && op.s == s)
                  && !(op.Unsubscribe? && op.s == s && op.channel == c))
  {
  }

  lemma OpenSinceStep<E>(ops: seq<Op<E>>, j: nat, s: SessionId, u: UserId)
    requires ops != []
    ensures var before, op := ops[..|ops| - 1], ops[|ops| - 1];
            OpenSince(ops, j, s, u) <==>
              (j == |before| && op.Register? && op.s == s && op.user == u)
              || (OpenSince(before, j, s, u) && !(op.Unregister? && op.s == s))
  {
  }

  lemma SubscribedSinceStep<E>(ops: seq<Op<E>>, j: nat, s: SessionId, c: ChannelId)
    requires ops != []
    ensures var before, op := ops[..|ops| - 1], ops[|ops| - 1];
            SubscribedSince(ops, j, s, c) <==>
              (j == |before| && op.Subscribe? && op.s == s && op.channel == c && exists u :: IsOpen(before, s, u))
              || (SubscribedSince(before, j, s, c) && !(op.Unregister? && op.s == s)
                  && !(op.Unsubscribe? && op.s == s && op.channel == c))
  {
    hide IsOpen;
    var before := ops[..|ops| - 1];
    if j <= |before| { assert ops[..j] == before[..j]; }
  }

  lemma RunStep<E>(ops: seq<Op<E>>)
    requires LegalRun(ops) && ops != []
    ensures Run(ops) == Apply(Run(ops[..|ops| - 1]), ops[|ops| - 1])
    ensures LegalRun(ops[..|ops| - 1]) && Legal(Run(ops[..|ops| - 1]), ops[|ops| - 1])
  {
  }

  lemma NothingYet<E>(ops: seq<Op<E>>, s: SessionId, u: UserId, c: ChannelId)
    requires ops == []
    ensures !Has(Run(ops), s, u) && !IsOpen(ops, s, u) && !Follows(Run(ops), s, c) && !IsSubscribed(ops, s, c)
  {
  }

  /** The live sessions of a user are those opened for them and not closed since. */
  lemma {:induction false} LiveIffOpen<E>(ops: seq<Op<E>>, s: SessionId, u: UserId)
    requires LegalRun(ops)
    ensures Has(Run(ops), s, u) <==> IsOpen(ops, s, u)
  {
    hide Apply, Legal, Run, LegalRun, OpenSince, Has;
    if ops == [] {
      NothingYet(ops, s, u, 0);
    } else {
      var before, op := ops[..|ops| - 1], ops[|ops| - 1];
      RunStep(ops);
      LiveIffOpen(before, s, u);
      StepHas(Run(before), op, s, u);
      OpenSinceStep(ops, |before|, s, u);
      if IsOpen(before, s, u) {
        var j :| OpenSince(before, j, s, u);
        OpenSinceStep(ops, j, s, u);
      }
      if IsOpen(ops, s, u) {
        var j :| OpenSince(ops, j, s, u);
        OpenSinceStep(ops, j, s, u);
      }
    }
  }

  lemma LiveIffOpened<E>(ops: seq<Op<E>>, s: SessionId)
    requires LegalRun(ops)
    ensures s in Run(ops).sessions <==> exists u :: IsOpen(ops, s, u)
  {
    hide Run, LegalRun, IsOpen;
    if s in Run(ops).sessions { LiveIffOpen(ops, s, Run(ops).sessions[s].user); }
    if u: UserId :| IsOpen(ops, s, u) { LiveIffOpen(ops, s, u); }
  }

  /** A session is subscribed to what it subscribed to while open and has not unsubscribed from since. */
  lemma {:induction false} FollowsIffSubscribed<E>(ops: seq<Op<E>>, s: SessionId, c: ChannelId)
    requires LegalRun(ops)
    ensures Follows(Run(ops), s, c) <==> IsSubscribed(ops, s, c)
  {
    hide Apply, Legal, Run, LegalRun, SubscribedSince, Follows, IsOpen;
    if ops == [] {
      NothingYet(ops, s, 0, c);
    } else {
      var before, op := ops[..|ops| - 1], ops[|ops| - 1];
      RunStep(ops);
      FollowsIffSubscribed(before, s, c);
      StepFollows(Run(before), op, s, c);
      LiveIffOpened(before, s);
      SubscribedSinceStep(ops, |before|, s, c);
      if IsSubscribed(before, s, c) {
        var j :| SubscribedSince(before, j, s, c);
        SubscribedSinceStep(ops, j, s, c);
      }
      if IsSubscribed(ops, s, c) {
        var j :| SubscribedSince(ops, j, s, c);
        SubscribedSinceStep(ops, j, s, c);
      }
    }
  }

  /** A dispatch to a channel sends one copy to each session subscribed to it, and one to a user to each
      of their open sessions; no other session is sent anything. */
  lemma DispatchReachesIff<E>(ops: seq<Op<E>>, to: Target, e: E, s: SessionId)
    requires LegalRun(ops) && s in Run(ops).log
    ensures s in Apply(Run(ops), Dispatch(to, e)).log
    ensures Apply(Run(ops), Dispatch(to, e)).log[s]
         == Run(ops).log[s] + if (to.ToChannel? && IsSubscribed(ops, s, to.channel))
                                 || (to.ToUser? && IsOpen(ops, s, to.user)) then [e] else []
  {
    hide Run, LegalRun, IsSubscribed, IsOpen;
    match to
    case ToChannel(c) => FollowsIffSubscribed(ops, s, c);
    case ToUser(u) => LiveIffOpen(ops, s, u);
  }
}
