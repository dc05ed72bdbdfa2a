/** The events that announce changes to messages, and clients that follow them. */
module MessageEvents {
  import opened Ids
  import opened Wrappers
  import opened Store

  /** A message as clients see it. */
  datatype View = View(
    id: MessageId, user: UserId, content: string, parent: Option<MessageId>, replyCount: nat,
    editedAt: Option<Time>, deleted: bool, createdAt: Time)

  datatype Event =
    | Created(channel: ChannelId, view: View)
    | Updated(channel: ChannelId, view: View)
    | Deleted(channel: ChannelId, id: MessageId)
    | ReadBy(channel: ChannelId, user: UserId, at: Time)

  function ViewOf(m: Message): View {
    View(m.id, m.user, m.content, m.parent, m.replyCount, m.editedAt, m.deletedAt.Some?, m.createdAt)
  }

  /** A view shows the whole row, but for the channel, which its event names, and the time of deletion. */
  lemma ViewShowsRow(a: Message, b: Message)
    requires ViewOf(a) == ViewOf(b)
    ensures a == b.(channel := a.channel, deletedAt := a.deletedAt) && (a.deletedAt.Some? <==> b.deletedAt.Some?)
  {
  }

  /** What a handler hands to the event bus: the row it inserted or updated, the id of the row it
      deleted, or the new read cursor. Nothing announces that a parent's reply count went up. */
  function Emitted(st: Store, op: Op): seq<Event> {
    if Verdict(st, op) != Done then []
    else
      match op
      case Send(_, c, _, _, _, _, _) => [Created(c, ViewOf(NewMessage(op, st.clock + 1)))]
      case Edit(id, _, content) =>
        var m := st.messages[Find(st.messages, id).value];
        [Updated(m.channel, ViewOf(m.(content := content, editedAt := Some(st.clock + 1))))]
      case Delete(id, _, _) => [Deleted(st.messages[Find(st.messages, id).value].channel, id)]
      case MarkRead(c, u) => [ReadBy(c, u, st.clock + 1)]
      case _ => []
  }

  /** What has been emitted since the first `k` steps. */
  function EmittedSince(ops: seq<Op>, k: nat): seq<Event> {
    if |ops| <= k then []
    else EmittedSince(ops[..|ops| - 1], k) + Emitted(Run(ops[..|ops| - 1]), ops[|ops| - 1])
  }

  // ---- Following a channel.

  type Known = map<MessageId, View>

  /** What a client that follows channel `c` makes of an event. */
  function Learn(known: Known, e: Event, c: ChannelId): Known {
    if e.channel != c then known
    else
      match e
      case Created(_, view) => known[view.id := view]
      case Updated(_, view) => known[view.id := view]
      case Deleted(_, id) => if id in known then known[id := known[id].(content := "", deleted := true)] else known
      case ReadBy(_, _, _) => known
  }

  function Follow(known: Known, events: seq<Event>, c: ChannelId): Known {
    if events == [] then known else Learn(Follow(known, events[..|events| - 1], c), events[|events| - 1], c)
  }

  function Uncounted(v: View): View { v.(replyCount := 0) }

  ghost predicate Holds(ms: seq<Message>, c: ChannelId, id: MessageId) {
    exists i :: 0 <= i < |ms| && ms[i].id == id && ms[i].channel == c
  }

  /** The client knows the channel's messages, and no others, up to their reply counts. */
  ghost predicate UpToDate(known: Known, ms: seq<Message>, c: ChannelId) {
    && (forall i :: 0 <= i < |ms| && ms[i].channel == c ==>
          ms[i].id in known && Uncounted(known[ms[i].id]) == Uncounted(ViewOf(ms[i])))
    && forall id :: id in known ==> Holds(ms, c, id)
  }

  /** And their reply counts too. */
  ghost predicate Exact(known: Known, ms: seq<Message>, c: ChannelId) {
    && UpToDate(known, ms, c)
    && forall i :: 0 <= i < |ms| && ms[i].channel == c ==> known[ms[i].id] == ViewOf(ms[i])
  }

  /** The replies to a message accepted since the first `k` steps, and since the last step that
      announced the message with its count. */
  function Missed(ops: seq<Op>, k: nat, id: MessageId): nat {
    if |ops| <= k then 0
    else
      var before, op := ops[..|ops| - 1], ops[|ops| - 1];
      var missed := Missed(before, k, id);
      if Verdict(Run(before), op) != Done then missed else MissedNext(op, id, missed)
  }

  function MissedNext(op: Op, id: MessageId, missed: nat): nat {
    match op
    case Send(sent, _, _, _, _, parent, _) =>
      if sent == id then 0 else if parent == Some(id) then missed + 1 else missed
    case Edit(edited, _, _) => if edited == id then 0 else missed
    case _ => missed
  }

  // ---- What a step does to the rows.

  /** A row that was there before the step. */
  function RowAfter(st: Store, op: Op, m: Message): Message {
    if Verdict(st, op) != Done then m
    else
      match op
      case Send(_, _, _, _, _, parent, _) =>
        if parent == Some(m.id) then m.(replyCount := m.replyCount + 1) else m
      case Edit(id, _, content) => if id == m.id then m.(content := content, editedAt := Some(st.clock + 1)) else m
      case Delete(id, _, _) => if id == m.id then m.(content := "", deletedAt := Some(st.clock + 1)) else m
      case _ => m
  }

  predicate Adds(st: Store, op: Op) { op.Send? && Verdict(st, op) == Done }

  lemma RowsAfter(st: Store, op: Op)
    requires Inv(st) && Legal(st, op)
    ensures var ms, ms' := st.messages, Next(st, op).messages;
            && |ms'| == |ms| + (if Adds(st, op) then 1 else 0)
            && (forall i :: 0 <= i < |ms| ==> ms'[i] == RowAfter(st, op, ms[i]))
            && (Adds(st, op) ==> ms'[|ms|] == NewMessage(op, st.clock + 1))
  {
    hide Find, CountsReplies, DeletedAreBlank;
    if Adds(st, op) {
      SentRows(st, op);
    } else if Verdict(st, op) == Done && (op.Edit? || op.Delete?) {
      hide Rows;
      var at := Find(st.messages, op.id).value;
      assert Find(st.messages, op.id).Some?;
      forall i | 0 <= i < |st.messages| ensures st.messages[i].id == op.id <==> i == at {
        UniqueFind(st.messages, st.clock, i);
      }
    }
  }

  lemma SentRows(st: Store, op: Op)
    requires Inv(st) && Legal(st, op) && Adds(st, op)
    ensures var ms, ms' := st.messages, Next(st, op).messages;
            && |ms'| == |ms| + 1 && ms'[|ms|] == NewMessage(op, st.clock + 1)
            && forall i :: 0 <= i < |ms| ==> ms'[i] == RowAfter(st, op, ms[i])
  {
    hide CountsReplies, DeletedAreBlank;
    var ms, m := st.messages, NewMessage(op, st.clock + 1);
    var longer := ms + [m];
    AppendKeepsRows(ms, st.clock, m);
    hide Rows, Find;
    if op.parent.Some? {
      ParentIsFound(ms, op.channel, op.parent, m);
      var p := Find(longer, op.parent.value).value;
      forall i | 0 <= i < |longer| ensures longer[i].id == op.parent.value <==> i == p {
        UniqueFind(longer, st.clock + 1, i);
      }
    }
  }

  lemma ParentIsFound(ms: seq<Message>, c: ChannelId, parent: Option<MessageId>, m: Message)
    requires parent.Some? && HasParent(ms, c, parent) && Find(ms, m.id).None?
    ensures m.id != parent.value && Find(ms + [m], parent.value).Some?
  {
    var i := Find(ms, parent.value).value;
    assert (ms + [m])[i].id == parent.value;
  }

  // ---- Following one step.

  lemma FollowOne(known: Known, events: seq<Event>, c: ChannelId)
    requires |events| <= 1
    ensures Follow(known, events, c) == if events == [] then known else Learn(known, events[0], c)
  {
    if events != [] { assert events[..0] == []; }
  }

  /** Where the operation's row is. */
  lemma Target(st: Store, op: Op)
    requires Inv(st) && (op.Edit? || op.Delete?) && Verdict(st, op) == Done
    ensures var at := Find(st.messages, op.id);
            && at.Some? && at.value < |st.messages| && st.messages[at.value].id == op.id
            && forall i :: 0 <= i < |st.messages| && st.messages[i].id == op.id ==> i == at.value
  {
    hide Find;
    forall i | 0 <= i < |st.messages| && st.messages[i].id == op.id ensures Find(st.messages, op.id) == Some(i) {
      UniqueFind(st.messages, st.clock, i);
    }
  }

  lemma FreshIsUnknown(st: Store, op: Op, known: Known, c: ChannelId)
    requires Legal(st, op) && op.Send? && UpToDate(known, st.messages, c)
    ensures op.id !in known && forall i :: 0 <= i < |st.messages| ==> st.messages[i].id != op.id
  {
  }

  lemma HoldsLater(ms: seq<Message>, later: seq<Message>, c: ChannelId, id: MessageId)
    requires Extends(ms, later) && Holds(ms, c, id)
    ensures Holds(later, c, id)
  {
    var i :| 0 <= i < |ms| && ms[i].id == id && ms[i].channel == c;
    assert SameKey(ms[i], later[i]);
  }

  /** A client comes to know of new messages only. */
  lemma StepLearnsOf(st: Store, op: Op, known: Known, c: ChannelId, id: MessageId)
    requires Inv(st) && UpToDate(known, st.messages, c) && id in Follow(known, Emitted(st, op), c)
    ensures id in known || (Adds(st, op) && op.channel == c && op.id == id)
  {
    FollowOne(known, Emitted(st, op), c);
    if Verdict(st, op) == Done && (op.Edit? || op.Delete?) { Target(st, op); }
    hide Inv, Find, Follow;
  }

  lemma StepKeepsHeld(st: Store, op: Op, known: Known, c: ChannelId)
    requires Inv(st) && Legal(st, op) && UpToDate(known, st.messages, c)
    ensures forall id :: id in Follow(known, Emitted(st, op), c) ==> Holds(Next(st, op).messages, c, id)
  {
    RowsAfter(st, op);
    StepKeepsInv(st, op);
    hide Inv, Next, Follow, Emitted, Extends, RowAfter;
    var ms, ms' := st.messages, Next(st, op).messages;
    forall id | id in Follow(known, Emitted(st, op), c) ensures Holds(ms', c, id) {
      StepLearnsOf(st, op, known, c, id);
      if id in known {
        HoldsLater(ms, ms', c, id);
      } else {
        assert ms'[|ms|].id == id && ms'[|ms|].channel == c;
      }
    }
  }

  predicate Edits(st: Store, op: Op, id: MessageId) { op.Edit? && Verdict(st, op) == Done && op.id == id }

  /** What the client knows of a message after a step: its new view, with its count if it was edited,
      and with the count known before if not. */
  predicate LearnsRow(st: Store, op: Op, m: Message, known: Known, known': Known) {
    && m.id in known && m.id in known'
    && Uncounted(known'[m.id]) == Uncounted(ViewOf(RowAfter(st, op, m)))
    && known'[m.id].replyCount == if Edits(st, op, m.id) then m.replyCount else known[m.id].replyCount
  }

  lemma StepLearnsRow(st: Store, op: Op, known: Known, c: ChannelId, i: nat)
    requires Inv(st) && Legal(st, op) && UpToDate(known, st.messages, c)
    requires i < |st.messages| && st.messages[i].channel == c
    ensures LearnsRow(st, op, st.messages[i], known, Follow(known, Emitted(st, op), c))
  {
    var m := st.messages[i];
    assert m.id in known && Uncounted(known[m.id]) == Uncounted(ViewOf(m));
    FollowOne(known, Emitted(st, op), c);
    hide Follow;
    if Verdict(st, op) == Done {
      if op.Send? {
        FreshIsUnknown(st, op, known, c);
      } else if op.Edit? || op.Delete? {
        Target(st, op);
        hide Inv, Find, UpToDate;
        ChangeIsLearned(st, op, known, c, i);
      }
    }
  }

  lemma ChangeIsLearned(st: Store, op: Op, known: Known, c: ChannelId, i: nat)
    requires (op.Edit? || op.Delete?) && Verdict(st, op) == Done && i < |st.messages| && st.messages[i].channel == c
    requires Find(st.messages, op.id).Some?
    requires st.messages[i].id == op.id <==> i == Find(st.messages, op.id).value
    requires var m := st.messages[i]; m.id in known && Uncounted(known[m.id]) == Uncounted(ViewOf(m))
    ensures Emitted(st, op) != []
    ensures LearnsRow(st, op, st.messages[i], known, Learn(known, Emitted(st, op)[0], c))
  {
    hide Find;
  }

  lemma StepLearnsNew(st: Store, op: Op, known: Known)
    requires Adds(st, op)
    ensures var known' := Follow(known, Emitted(st, op), op.channel);
            op.id in known' && known'[op.id] == ViewOf(NewMessage(op, st.clock + 1))
  {
    FollowOne(known, Emitted(st, op), op.channel);
  }

  lemma StepLearnsRows(st: Store, op: Op, known: Known, c: ChannelId, i: nat)
    requires Inv(st) && Legal(st, op) && UpToDate(known, st.messages, c)
    requires i < |Next(st, op).messages| && Next(st, op).messages[i].channel == c
    ensures var m, known' := Next(st, op).messages[i], Follow(known, Emitted(st, op), c);
            m.id in known' && Uncounted(known'[m.id]) == Uncounted(ViewOf(m))
  {
    RowsAfter(st, op);
    hide Inv, Next, Follow, Emitted, UpToDate, Verdict, RowAfter, Legal, ViewOf, Uncounted, Find;
    if i < |st.messages| {
      KeyStays(st, op, i);
      StepLearnsRow(st, op, known, c, i);
    } else {
      StepLearnsNew(st, op, known);
    }
  }

  lemma KeyStays(st: Store, op: Op, i: nat)
    requires i < |st.messages|
    ensures var m := st.messages[i]; RowAfter(st, op, m).id == m.id && RowAfter(st, op, m).channel == m.channel
  {
  }

  lemma StepKeepsUpToDate(st: Store, op: Op, known: Known, c: ChannelId)
    requires Inv(st) && Legal(st, op) && UpToDate(known, st.messages, c)
    ensures UpToDate(Follow(known, Emitted(st, op), c), Next(st, op).messages, c)
  {
    StepKeepsHeld(st, op, known, c);
    hide Inv, Next, Follow, Emitted, Legal, Holds;
    var ms' := Next(st, op).messages;
    forall i | 0 <= i < |ms'| && ms'[i].channel == c
      ensures var known' := Follow(known, Emitted(st, op), c);
              ms'[i].id in known' && Uncounted(known'[ms'[i].id]) == Uncounted(ViewOf(ms'[i]))
    {
      StepLearnsRows(st, op, known, c, i);
    }
  }

  // ---- Runs.

  lemma {:induction false} FollowJoins(known: Known, a: seq<Event>, b: seq<Event>, c: ChannelId)
    ensures Follow(known, a + b, c) == Follow(Follow(known, a, c), b, c)
  {
    if b == [] {
      assert a + b == a;
    } else {
      assert (a + b)[..|a + b| - 1] == a + b[..|b| - 1];
      FollowJoins(known, a, b[..|b| - 1], c);
    }
  }

  /** The last step of a run, for a client that has followed so far. */
  lemma FollowStep(ops: seq<Op>, k: nat, known: Known, c: ChannelId)
    requires k < |ops|
    ensures var before, op := ops[..|ops| - 1], ops[|ops| - 1];
            && before[..k] == ops[..k] && Run(ops) == Next(Run(before), op)
            && Follow(known, EmittedSince(ops, k), c)
            == Follow(Follow(known, EmittedSince(before, k), c), Emitted(Run(before), op), c)
  {
    hide Run, Next, Follow, Emitted;
    var before, op := ops[..|ops| - 1], ops[|ops| - 1];
    FollowJoins(known, EmittedSince(before, k), Emitted(Run(before), op), c);
    assert Run(ops) == Next(Run(before), op) by { RunStep(ops); }
  }

  lemma RunStep(ops: seq<Op>)
    requires ops != []
    ensures Run(ops) == Next(Run(ops[..|ops| - 1]), ops[|ops| - 1])
  {
  }

  /** A client that knows a channel's messages at any earlier state, and applies the channel's events
      since, knows the channel's messages now, deleted ones included, up to their reply counts. */
  lemma {:induction false} FollowerIsUpToDate(ops: seq<Op>, k: nat, known: Known, c: ChannelId)
    requires LegalRun(ops) && k <= |ops| && UpToDate(known, Run(ops[..k]).messages, c)
    ensures UpToDate(Follow(known, EmittedSince(ops, k), c), Run(ops).messages, c)
    decreases |ops|
  {
    hide Next, Legal, Inv, UpToDate, Emitted;
    if k == |ops| {
      assert ops[..k] == ops;
    } else {
      var before := ops[..|ops| - 1];
      FollowStep(ops, k, known, c);
      FollowerIsUpToDate(before, k, known, c);
      RunKeepsInv(before);
      StepKeepsUpToDate(Run(before), ops[|ops| - 1], Follow(known, EmittedSince(before, k), c), c);
    }
  }

  /** Row `i` of the store, as known to a client that has missed some replies. */
  ghost predicate LagsBy(known: Known, m: Message, missed: nat) {
    m.id in known && known[m.id].replyCount + missed == m.replyCount
  }

  /** Its reply counts lag behind by exactly the replies it has missed. */
  lemma {:induction false} CountsLagByMissed(ops: seq<Op>, k: nat, known: Known, c: ChannelId, i: nat)
    requires LegalRun(ops) && k <= |ops| && Exact(known, Run(ops[..k]).messages, c)
    requires i < |Run(ops).messages| && Run(ops).messages[i].channel == c
    ensures var m := Run(ops).messages[i];
            LagsBy(Follow(known, EmittedSince(ops, k), c), m, Missed(ops, k, m.id))
    decreases |ops|
  {
    hide Next, Legal, Inv, UpToDate, Emitted, Verdict;
    if k == |ops| {
      assert ops[..k] == ops;
      ExactRow(known, Run(ops).messages, c, i);
    } else {
      var before, op := ops[..|ops| - 1], ops[|ops| - 1];
      var st, sofar := Run(before), Follow(known, EmittedSince(before, k), c);
      FollowStep(ops, k, known, c);
      RunKeepsInv(before);
      FollowerIsUpToDate(before, k, known, c);
      RowsAfter(st, op);
      if i < |st.messages| {
        KeyStays(st, op, i);
        CountsLagByMissed(before, k, known, c, i);
        StepLags(st, op, sofar, c, i, Missed(before, k, st.messages[i].id));
      } else {
        StepLearnsNew(st, op, sofar);
      }
    }
  }

  lemma ExactRow(known: Known, ms: seq<Message>, c: ChannelId, i: nat)
    requires Exact(known, ms, c) && i < |ms| && ms[i].channel == c
    ensures LagsBy(known, ms[i], 0)
  {
  }

  lemma StepLags(st: Store, op: Op, known: Known, c: ChannelId, i: nat, missed: nat)
    requires Inv(st) && Legal(st, op) && UpToDate(known, st.messages, c)
    requires i < |st.messages| && st.messages[i].channel == c && LagsBy(known, st.messages[i], missed)
    ensures var m := st.messages[i];
            LagsBy(Follow(known, Emitted(st, op), c), RowAfter(st, op, m),
                   if Verdict(st, op) != Done then missed else MissedNext(op, m.id, missed))
  {
    StepLearnsRow(st, op, known, c, i);
    if Adds(st, op) { FreshIsUnknown(st, op, known, c); }
    hide Inv, UpToDate, Follow, Emitted, Find;
  }

  /** So the client knows everything, counts included, if and only if since it last saw each message no
      reply to it was accepted. */
  lemma FollowerIsExactIff(ops: seq<Op>, k: nat, known: Known, c: ChannelId)
    requires LegalRun(ops) && k <= |ops| && Exact(known, Run(ops[..k]).messages, c)
    ensures Exact(Follow(known, EmittedSince(ops, k), c), Run(ops).messages, c) <==>
              forall i :: 0 <= i < |Run(ops).messages| && Run(ops).messages[i].channel == c ==>
                Missed(ops, k, Run(ops).messages[i].id) == 0
  {
    FollowerIsUpToDate(ops, k, known, c);
    hide Run, LegalRun, EmittedSince, Follow, Missed;
    var ms, known' := Run(ops).messages, Follow(known, EmittedSince(ops, k), c);
    forall i | 0 <= i < |ms| && ms[i].channel == c
      ensures ms[i].id in known' && (known'[ms[i].id] == ViewOf(ms[i]) <==> Missed(ops, k, ms[i].id) == 0)
    {
      CountsLagByMissed(ops, k, known, c, i);
      SameButCount(known'[ms[i].id], ViewOf(ms[i]));
    }
  }

  lemma SameButCount(a: View, b: View)
    requires Uncounted(a) == Uncounted(b)
    ensures a == b <==> a.replyCount == b.replyCount
  {
  }
}
