/** Direct channels, over whole runs. */
module DirectChannels {
  import opened Ids
  import opened Membership
  import opened ChannelAuthority

  lemma {:induction false} ChannelsStay(lower: string -> string, ops: seq<Op>, k: nat, c: ChannelId)
    requires LegalRun(lower, ops) && k <= |ops| && c in Run(lower, ops[..k]).channels
    ensures c in Run(lower, ops).channels
    ensures IsDirect(Run(lower, ops[..k]), c) <==> IsDirect(Run(lower, ops), c)
    decreases |ops|
  {
    hide Next, Legal, Inv;
    if k == |ops| {
      assert ops[..k] == ops;
    } else {
      var before := ops[..|ops| - 1];
      assert before[..k] == ops[..k];
      ChannelsStay(lower, before, k, c);
      RunKeepsInv(lower, before);
      StepKeepsInv(lower, Run(lower, before), ops[|ops| - 1]);
    }
  }

  /** Nobody ever joins a direct channel: its members can only become fewer. */
  lemma DirectOnlyShrinks(lower: string -> string, ops: seq<Op>, k: nat, c: ChannelId)
    requires LegalRun(lower, ops) && k <= |ops| && IsDirect(Run(lower, ops[..k]), c)
    ensures IsDirect(Run(lower, ops), c)
    ensures MembersOf(Run(lower, ops), c) <= MembersOf(Run(lower, ops[..k]), c)
  {
    hide Run, LegalRun, MembersOf, NoAdmins;
    PrefixIsLegal(lower, ops, k);
    OnlyTheCreator(lower, ops[..k], c, Run(lower, ops[..k]).channels[c].createdBy);
    OwnerlessForever(lower, ops, k, c);
  }

  /** A pair never has two direct channels. */
  lemma AtMostOneDirect(lower: string -> string, ops: seq<Op>, a: UserId, b: UserId, c: ChannelId, d: ChannelId)
    requires LegalRun(lower, ops) && a != b
    requires c in Directs(Run(lower, ops), a, b) && d in Directs(Run(lower, ops), b, a)
    ensures c == d
  {
    hide Run, LegalRun, Directs, IsDirect;
    RunKeepsInv(lower, ops);
    PairsAreUnique(Run(lower, ops), a, b, c, d);
  }

  lemma PairsAreUnique(w: Workspace, a: UserId, b: UserId, c: ChannelId, d: ChannelId)
    requires DirectsArePairs(w) && a != b && c in Directs(w, a, b) && d in Directs(w, b, a)
    ensures c == d
  {
    DirectsAreExact(w, a, b, c);
    DirectsAreExact(w, b, a, d);
    assert {a, b} == {b, a};
    PairIs(MembersOf(w, c), a, b);
  }

  predicate IsFor(op: Op, a: UserId, b: UserId) {
    op.CreateDirect? && ((op.actor == a && op.other == b) || (op.actor == b && op.other == a))
  }

  /** A request for a direct channel between two users is served with one that they alone are in. */
  lemma RequestIsServed(lower: string -> string, ops: seq<Op>, op: Op, a: UserId, b: UserId)
    requires LegalRun(lower, ops) && Legal(Run(lower, ops), op) && IsFor(op, a, b) && a != b
    requires {a, b} <= Run(lower, ops).users
    ensures var v, w' := Verdict(lower, Run(lower, ops), op), Next(lower, Run(lower, ops), op);
            v.Returned? && IsDirect(w', v.channel) && MembersOf(w', v.channel) == {a, b}
  {
    hide Run, LegalRun, Directs, MembersOf, NameTaken;
    var w := Run(lower, ops);
    RunKeepsInv(lower, ops);
    assert {op.actor, op.other} == {a, b};
    DirectsAreExact(w, op.actor, op.other, op.pick);
    if Directs(w, op.actor, op.other) == {} { CreateDirectKeepsInv(lower, w, op.actor, op.other, op.id); }
  }

  /** Later requests by either of the two are served with the same channel if and only if both are
      still in it. */
  lemma SameChannelWhileBothStay(
    lower: string -> string, ops: seq<Op>, k: nat, c: ChannelId, a: UserId, b: UserId, op: Op)
    requires LegalRun(lower, ops) && k < |ops| && IsFor(ops[k], a, b) && a != b
    requires Verdict(lower, Run(lower, ops[..k]), ops[k]) == Returned(c)
    requires IsFor(op, a, b) && Legal(Run(lower, ops), op)
    ensures Verdict(lower, Run(lower, ops), op) == Returned(c) <==> MembersOf(Run(lower, ops), c) == {a, b}
  {
    hide Run, LegalRun, Directs, MembersOf, NameTaken, IsDirect;
    var w := Run(lower, ops);
    ReturnedIsDirect(lower, ops, k, c, a, b);
    ChannelsStay(lower, ops, k + 1, c);
    RunKeepsInv(lower, ops);
    assert {op.actor, op.other} == {a, b};
    DirectsAreExact(w, op.actor, op.other, c);
    DirectsAreExact(w, op.actor, op.other, op.pick);
    DirectExists(w, c);
    if c in Directs(w, op.actor, op.other) {
      PairsAreUnique(w, op.actor, op.other, op.pick, c);
    }
  }

  lemma DirectExists(w: Workspace, c: ChannelId)
    requires IsDirect(w, c)
    ensures c in w.channels
  {
  }

  lemma ReturnedIsDirect(lower: string -> string, ops: seq<Op>, k: nat, c: ChannelId, a: UserId, b: UserId)
    requires LegalRun(lower, ops) && k < |ops| && IsFor(ops[k], a, b) && a != b
    requires Verdict(lower, Run(lower, ops[..k]), ops[k]) == Returned(c)
    ensures c in Run(lower, ops[..k + 1]).channels && IsDirect(Run(lower, ops[..k + 1]), c)
    ensures MembersOf(Run(lower, ops[..k + 1]), c) == {a, b}
  {
    hide LegalRun, Directs, MembersOf, NameTaken, IsDirect, Next;
    PrefixIsLegal(lower, ops, k + 1);
    PrefixIsLegal(lower, ops, k);
    assert ops[..k + 1][..k] == ops[..k];
    LegalStep(lower, ops[..k + 1]);
    ReturnedStep(lower, ops[..k], ops[k], c, a, b);
    DirectExists(Run(lower, ops[..k + 1]), c);
  }

  lemma LegalStep(lower: string -> string, ops: seq<Op>)
    requires LegalRun(lower, ops) && ops != []
    ensures Legal(Run(lower, ops[..|ops| - 1]), ops[|ops| - 1])
    ensures Run(lower, ops) == Next(lower, Run(lower, ops[..|ops| - 1]), ops[|ops| - 1])
  {
  }

  lemma ReturnedStep(lower: string -> string, ops: seq<Op>, op: Op, c: ChannelId, a: UserId, b: UserId)
    requires LegalRun(lower, ops) && Legal(Run(lower, ops), op) && IsFor(op, a, b) && a != b
    requires Verdict(lower, Run(lower, ops), op) == Returned(c)
    ensures IsDirect(Next(lower, Run(lower, ops), op), c) && MembersOf(Next(lower, Run(lower, ops), op), c) == {a, b}
  {
    hide Run, LegalRun, Directs, MembersOf, NameTaken;
    var w := Run(lower, ops);
    RunKeepsInv(lower, ops);
    assert {op.actor, op.other} == {a, b};
    DirectsAreExact(w, op.actor, op.other, op.pick);
    if Directs(w, op.actor, op.other) == {} { CreateDirectKeepsInv(lower, w, op.actor, op.other, op.id); }
  }

  /** Once one of the two has left, the channel is never returned again. */
  lemma NeverAgainOnceOneLeft(
    lower: string -> string, ops: seq<Op>, j: nat, c: ChannelId, a: UserId, b: UserId, op: Op)
    requires LegalRun(lower, ops) && j <= |ops| && a != b && IsFor(op, a, b) && Legal(Run(lower, ops), op)
    requires IsDirect(Run(lower, ops[..j]), c)
    requires a !in MembersOf(Run(lower, ops[..j]), c) || b !in MembersOf(Run(lower, ops[..j]), c)
    ensures Verdict(lower, Run(lower, ops), op) != Returned(c)
  {
    hide Run, LegalRun, Directs, MembersOf, NameTaken, IsDirect;
    var w := Run(lower, ops);
    DirectOnlyShrinks(lower, ops, j, c);
    DirectsAreExact(w, op.actor, op.other, c);
    DirectExists(w, c);
  }
}
