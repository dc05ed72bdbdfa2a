/** The message store: append-only rows, read cursors and notifications, and what each handler
    does to them as one atomic step.

    Rows are kept in insertion order. Every step draws a later time from a logical clock, and ids
    of new rows are fresh. `MessageHandlers.dfy` proves the handlers against these functions. */
module Store {
  import opened Ids
  import opened Wrappers

  datatype Message = Message(
    id: MessageId, channel: ChannelId, user: UserId, content: string,
    parent: Option<MessageId>, replyCount: nat,
    editedAt: Option<Time>, deletedAt: Option<Time>, createdAt: Time)

  /** A notification whose payload names `channel`. */
  datatype Note = Note(id: NoteId, user: UserId, channel: ChannelId, readAt: Option<Time>)

  /** `cursors` holds the `last_read_at` of every membership row. */
  datatype Store = Store(
    messages: seq<Message>,
    cursors: map<(ChannelId, UserId), Option<Time>>,
    notes: seq<Note>,
    clock: Time)

  const EMPTY := Store([], map[], [], 0)

  datatype Outcome = Done | BadRequest | Forbidden | NotFound

  /** `empty` says that a sent message has neither text nor attachments; `admin` that the caller
      administers the message's channel; `notes` are the notifications that
      joining or a message gives rise to. */
  datatype Op =
    | Join(channel: ChannelId, user: UserId, notes: seq<Note>)
    | Leave(channel: ChannelId, user: UserId)
    | Send(id: MessageId, channel: ChannelId, user: UserId, content: string, empty: bool,
           parent: Option<MessageId>, notes: seq<Note>)
    | Edit(id: MessageId, user: UserId, content: string)
    | Delete(id: MessageId, user: UserId, admin: bool)
    | MarkRead(channel: ChannelId, user: UserId)
    | History(channel: ChannelId, user: UserId)
    | ReadNote(user: UserId, note: NoteId)
    | ReadAllNotes(user: UserId)

  /** The row with a given id. */
  function Find(ms: seq<Message>, id: MessageId): (r: Option<nat>)
    ensures r.Some? ==> r.value < |ms| && ms[r.value].id == id
    ensures r.None? ==> forall i :: 0 <= i < |ms| ==> ms[i].id != id
  {
    if ms == [] then None
    else if ms[|ms| - 1].id == id then Some(|ms| - 1)
    else Find(ms[..|ms| - 1], id)
  }

  predicate HasParent(ms: seq<Message>, channel: ChannelId, parent: Option<MessageId>) {
    parent.Some? ==>
      Find(ms, parent.value).Some? && ms[Find(ms, parent.value).value].channel == channel
  }

  function Bump(ms: seq<Message>, parent: Option<MessageId>): seq<Message> {
    if parent.Some? && Find(ms, parent.value).Some? then
      var p := Find(ms, parent.value).value;
      ms[p := ms[p].(replyCount := ms[p].replyCount + 1)]
    else ms
  }

  function Verdict(st: Store, op: Op): Outcome {
    match op
    case Join(_, _, _) => Done
    case Leave(_, _) => Done
    case ReadNote(_, _) => Done
    case ReadAllNotes(_) => Done
    case Send(_, c, u, _, empty, parent, _) =>
      if (c, u) !in st.cursors then Forbidden
      else if empty || !HasParent(st.messages, c, parent) then BadRequest
      else Done
    case Edit(id, u, _) =>
      var r := Find(st.messages, id);
      if r.None? || st.messages[r.value].deletedAt.Some? then NotFound
      else if st.messages[r.value].user != u then Forbidden
      else Done
    case Delete(id, u, admin) =>
      var r := Find(st.messages, id);
      if r.None? then NotFound
      else if st.messages[r.value].user != u && !admin then Forbidden
      else Done
    case MarkRead(c, u) => if (c, u) in st.cursors then Done else Forbidden
    case History(c, u) => if (c, u) in st.cursors then Done else Forbidden
  }

  function NewMessage(op: Op, now: Time): Message
    requires op.Send?
  {
    Message(op.id, op.channel, op.user, op.content, op.parent, 0, None, None, now)
  }

  /** The notifications that an operation reads: of a channel, a single one, or all of a user's. */
  predicate Reads(op: Op, n: Note) {
    match op
    case MarkRead(c, u) => n.user == u && n.channel == c
    case ReadNote(u, id) => n.user == u && n.id == id
    case ReadAllNotes(u) => n.user == u
    case _ => false
  }

  /** Marks as read what the operation reads and is still unread. */
  function ReadNotes(notes: seq<Note>, op: Op, now: Time): seq<Note> {
    seq(|notes|, i requires 0 <= i < |notes| =>
      if Reads(op, notes[i]) && notes[i].readAt.None? then notes[i].(readAt := Some(now)) else notes[i])
  }

  /** The state after a step: refused steps change nothing but the clock. */
  function Next(st: Store, op: Op): Store {
    var now := st.clock + 1;
    var st := st.(clock := now);
    if Verdict(st, op) != Done then st
    else
      match op
      case Join(c, u, notes) =>
        if (c, u) in st.cursors then st else st.(cursors := st.cursors[(c, u) := None], notes := st.notes + notes)
      case Leave(c, u) => st.(cursors := st.cursors - {(c, u)})
      case Send(_, _, _, _, _, parent, notes) =>
        st.(messages := Bump(st.messages + [NewMessage(op, now)], parent), notes := st.notes + notes)
      case Edit(id, _, content) =>
        var i := Find(st.messages, id).value;
        st.(messages := st.messages[i := st.messages[i].(content := content, editedAt := Some(now))])
      case Delete(id, _, _) =>
        var i := Find(st.messages, id).value;
        st.(messages := st.messages[i := st.messages[i].(content := "", deletedAt := Some(now))])
      case MarkRead(c, u) =>
        st.(cursors := st.cursors[(c, u) := Some(now)], notes := ReadNotes(st.notes, op, now))
      case History(c, u) => st.(cursors := st.cursors[(c, u) := Some(now)])
      case ReadNote(_, _) => st.(notes := ReadNotes(st.notes, op, now))
      case ReadAllNotes(_) => st.(notes := ReadNotes(st.notes, op, now))
  }

  /** Ids of new messages are fresh. */
  predicate Legal(st: Store, op: Op) { op.Send? ==> Find(st.messages, op.id).None? }

  function Run(ops: seq<Op>): Store {
    if ops == [] then EMPTY else Next(Run(ops[..|ops| - 1]), ops[|ops| - 1])
  }

  predicate LegalRun(ops: seq<Op>) {
    ops == [] || (LegalRun(ops[..|ops| - 1]) && Legal(Run(ops[..|ops| - 1]), ops[|ops| - 1]))
  }

  // ---- What every step keeps.

  /** The number of rows that answer message `id`. */
  function Replies(ms: seq<Message>, id: MessageId): nat {
    if ms == [] then 0
    else Replies(ms[..|ms| - 1], id) + if ms[|ms| - 1].parent == Some(id) then 1 else 0
  }

  /** The part of a row that no handler changes. */
  predicate SameKey(a: Message, b: Message) {
    a.id == b.id && a.channel == b.channel && a.user == b.user && a.parent == b.parent && a.createdAt == b.createdAt
  }

  /** `later` has the rows of `ms`, in place, and perhaps more after them. */
  ghost predicate Extends(ms: seq<Message>, later: seq<Message>) {
    |ms| <= |later| && forall i :: 0 <= i < |ms| ==> SameKey(ms[i], later[i])
  }

  /** Ids are unique, times increase, and a parent is an earlier row of the same channel. */
  ghost predicate Rows(ms: seq<Message>, clock: Time) {
    && (forall i, j :: 0 <= i < j < |ms| ==> ms[i].id != ms[j].id && ms[i].createdAt < ms[j].createdAt)
    && (forall i :: 0 <= i < |ms| ==> ms[i].createdAt <= clock)
    && (forall i :: 0 <= i < |ms| && ms[i].parent.Some? ==> HasEarlier(ms, i))
  }

  ghost predicate HasEarlier(ms: seq<Message>, i: nat)
    requires i < |ms| && ms[i].parent.Some?
  {
    exists p :: 0 <= p < i && ms[p].id == ms[i].parent.value && ms[p].channel == ms[i].channel
  }

  ghost predicate CountsReplies(ms: seq<Message>) {
    forall i :: 0 <= i < |ms| ==> ms[i].replyCount == Replies(ms, ms[i].id)
  }

  ghost predicate DeletedAreBlank(ms: seq<Message>) {
    forall i :: 0 <= i < |ms| && ms[i].deletedAt.Some? ==> ms[i].content == ""
  }

  ghost predicate Inv(st: Store) {
    && Rows(st.messages, st.clock) && CountsReplies(st.messages) && DeletedAreBlank(st.messages)
    && forall k :: k in st.cursors && st.cursors[k].Some? ==> st.cursors[k].value <= st.clock
  }

  lemma {:induction false} RepliesOfSameKeys(a: seq<Message>, b: seq<Message>, id: MessageId)
    requires |a| == |b| && Extends(a, b)
    ensures Replies(a, id) == Replies(b, id)
  {
    if a == [] {
    } else {
      RepliesOfSameKeys(a[..|a| - 1], b[..|b| - 1], id);
    }
  }

  lemma {:induction false} NoAnswer(ms: seq<Message>, id: MessageId)
    requires forall i :: 0 <= i < |ms| && ms[i].parent.Some? ==> HasEarlier(ms, i)
    requires forall i :: 0 <= i < |ms| ==> ms[i].id != id
    ensures Replies(ms, id) == 0
  {
    if ms == [] {
    } else {
      var before := ms[..|ms| - 1];
      forall i | 0 <= i < |before| && before[i].parent.Some? ensures HasEarlier(before, i) {
        assert HasEarlier(ms, i);
        var p :| 0 <= p < i && ms[p].id == ms[i].parent.value && ms[p].channel == ms[i].channel;
        assert before[p].id == before[i].parent.value;
      }
      NoAnswer(before, id);
      if ms[|ms| - 1].parent.Some? { assert HasEarlier(ms, |ms| - 1); }
    }
  }

  /** Changing what is not a key keeps the row structure. */
  lemma UpdateKeepsRows(ms: seq<Message>, clock: Time, i: nat, row: Message)
    requires Rows(ms, clock) && i < |ms| && SameKey(ms[i], row)
    ensures Rows(ms[i := row], clock) && Extends(ms, ms[i := row])
  {
    var ms' := ms[i := row];
    forall k | 0 <= k < |ms'| && ms'[k].parent.Some? ensures HasEarlier(ms', k) {
      assert HasEarlier(ms, k);
      var p :| 0 <= p < k && ms[p].id == ms[k].parent.value && ms[p].channel == ms[k].channel;
      assert ms'[p].id == ms[p].id;
    }
  }

  lemma UpdateKeepsCounts(ms: seq<Message>, i: nat, row: Message)
    requires CountsReplies(ms) && i < |ms| && SameKey(ms[i], row) && row.replyCount == ms[i].replyCount
    ensures CountsReplies(ms[i := row])
  {
    forall k | 0 <= k < |ms| ensures Replies(ms[i := row], ms[k].id) == Replies(ms, ms[k].id) {
      RepliesOfSameKeys(ms, ms[i := row], ms[k].id);
    }
  }

  lemma AppendKeepsRows(ms: seq<Message>, clock: Time, m: Message)
    requires Rows(ms, clock) && Find(ms, m.id).None? && m.createdAt == clock + 1
    requires HasParent(ms, m.channel, m.parent)
    ensures Rows(ms + [m], clock + 1)
  {
    var ms' := ms + [m];
    forall k | 0 <= k < |ms'| && ms'[k].parent.Some? ensures HasEarlier(ms', k) {
      if k < |ms| {
        assert HasEarlier(ms, k);
        var p :| 0 <= p < k && ms[p].id == ms[k].parent.value && ms[p].channel == ms[k].channel;
        assert ms'[p] == ms[p];
      } else {
        assert ms'[Find(ms, m.parent.value).value].id == m.parent.value;
      }
    }
  }

  lemma RepliesAppend(ms: seq<Message>, m: Message, id: MessageId)
    ensures Replies(ms + [m], id) == Replies(ms, id) + if m.parent == Some(id) then 1 else 0
  {
    assert (ms + [m])[..|ms|] == ms;
  }

  lemma UniqueFind(ms: seq<Message>, clock: Time, i: nat)
    requires Rows(ms, clock) && i < |ms|
    ensures Find(ms, ms[i].id) == Some(i)
  {
  }

  lemma FreshIsUnanswered(ms: seq<Message>, clock: Time, id: MessageId)
    requires Rows(ms, clock) && Find(ms, id).None?
    ensures Replies(ms, id) == 0
  {
    NoAnswer(ms, id);
  }

  /** Bumping finds the parent's row and changes its count only. */
  lemma BumpKeeps(ms: seq<Message>, clock: Time, parent: Option<MessageId>)
    requires Rows(ms, clock)
    ensures var ms' := Bump(ms, parent);
            && Rows(ms', clock) && |ms'| == |ms| && Extends(ms, ms')
            && forall k :: 0 <= k < |ms| ==>
                 && ms'[k].deletedAt == ms[k].deletedAt && ms'[k].content == ms[k].content
                 && ms'[k].replyCount == ms[k].replyCount + if parent == Some(ms[k].id) then 1 else 0
  {
    hide Rows;
    if parent.Some? && Find(ms, parent.value).Some? {
      var p := Find(ms, parent.value).value;
      UpdateKeepsRows(ms, clock, p, ms[p].(replyCount := ms[p].replyCount + 1));
      forall k | 0 <= k < |ms| && parent == Some(ms[k].id) ensures k == p { UniqueFind(ms, clock, k); }
    }
  }

  lemma SendKeeps(ms: seq<Message>, clock: Time, m: Message)
    requires Rows(ms, clock) && CountsReplies(ms) && DeletedAreBlank(ms)
    requires Find(ms, m.id).None? && m.createdAt == clock + 1 && m.replyCount == 0 && m.deletedAt.None?
    requires HasParent(ms, m.channel, m.parent)
    ensures var ms' := Bump(ms + [m], m.parent);
            && Rows(ms', clock + 1) && CountsReplies(ms') && DeletedAreBlank(ms')
            && |ms'| == |ms| + 1 && Extends(ms, ms') && SameKey(ms'[|ms|], m)
  {
    hide Find, Replies, Rows;
    var longer := ms + [m];
    AppendKeepsRows(ms, clock, m);
    FreshIsUnanswered(ms, clock, m.id);
    BumpKeeps(longer, clock + 1, m.parent);
    var ms' := Bump(longer, m.parent);
    forall k | 0 <= k < |ms'| ensures ms'[k].replyCount == Replies(ms', ms'[k].id) {
      RepliesAppend(ms, m, longer[k].id);
      RepliesOfSameKeys(longer, ms', longer[k].id);
    }
  }

  lemma StepKeepsInv(st: Store, op: Op)
    requires Inv(st) && Legal(st, op)
    ensures Inv(Next(st, op)) && Extends(st.messages, Next(st, op).messages)
  {
    hide Rows, CountsReplies, Replies, Extends, Find;
    var now := st.clock + 1;
    var ms := st.messages;
    LaterClock(ms, st.clock);
    ExtendsItself(ms);
    if Verdict(st, op) == Done {
      match op {
        case Send(_, _, _, _, _, _, _) => SendKeeps(ms, st.clock, NewMessage(op, now));
        case Edit(id, _, content) =>
          var i := Find(ms, id).value;
          var row := ms[i].(content := content, editedAt := Some(now));
          UpdateKeepsRows(ms, now, i, row);
          UpdateKeepsCounts(ms, i, row);
        case Delete(id, _, _) =>
          var i := Find(ms, id).value;
          var row := ms[i].(content := "", deletedAt := Some(now));
          UpdateKeepsRows(ms, now, i, row);
          UpdateKeepsCounts(ms, i, row);
        case _ =>
      }
    }
  }

  lemma LaterClock(ms: seq<Message>, clock: Time)
    requires Rows(ms, clock)
    ensures Rows(ms, clock + 1)
  {
  }

  lemma ExtendsItself(ms: seq<Message>)
    ensures Extends(ms, ms)
  {
  }

  /** In every reachable store: well-formed rows, counted replies, blank deleted messages. */
  lemma {:induction false} RunKeepsInv(ops: seq<Op>)
    requires LegalRun(ops)
    ensures Inv(Run(ops))
  {
    if ops == [] {
    } else {
      hide Next, Legal;
      RunKeepsInv(ops[..|ops| - 1]);
      StepKeepsInv(Run(ops[..|ops| - 1]), ops[|ops| - 1]);
    }
  }

  /** Rows are never removed or re-keyed: any earlier store's rows are a prefix of any later one's. */
  lemma {:induction false} RowsAreAppendOnly(ops: seq<Op>, k: nat)
    requires LegalRun(ops) && k <= |ops|
    ensures LegalRun(ops[..k]) && Extends(Run(ops[..k]).messages, Run(ops).messages)
    decreases |ops|
  {
    hide Next, Legal, Extends;
    if k == |ops| {
      assert ops[..k] == ops;
      ExtendsItself(Run(ops).messages);
    } else {
      var before := ops[..|ops| - 1];
      RowsAreAppendOnly(before, k);
      assert before[..k] == ops[..k];
      RunKeepsInv(before);
      StepKeepsInv(Run(before), ops[|ops| - 1]);
      ExtendsTransitively(Run(ops[..k]).messages, Run(before).messages, Run(ops).messages);
    }
  }

  lemma ExtendsTransitively(a: seq<Message>, b: seq<Message>, c: seq<Message>)
    requires Extends(a, b) && Extends(b, c)
    ensures Extends(a, c)
  {
  }

  /** `m` is deleted and blank, and was last edited when `before` was. */
  predicate StaysDeleted(before: Message, m: Message) {
    m.deletedAt.Some? && m.content == "" && m.editedAt == before.editedAt
  }

  lemma StepKeepsDeleted(st: Store, op: Op, i: nat, before: Message)
    requires Inv(st) && Legal(st, op) && i < |st.messages| && StaysDeleted(before, st.messages[i])
    ensures i < |Next(st, op).messages| && StaysDeleted(before, Next(st, op).messages[i])
  {
    StepKeepsInv(st, op);
  }

  /** A deleted message stays deleted and blank, and is never edited again. */
  lemma {:induction false} DeletedIsFinal(ops: seq<Op>, k: nat, i: nat)
    requires LegalRun(ops) && k <= |ops|
    requires i < |Run(ops[..k]).messages| && Run(ops[..k]).messages[i].deletedAt.Some?
    ensures i < |Run(ops).messages| && StaysDeleted(Run(ops[..k]).messages[i], Run(ops).messages[i])
    decreases |ops|
  {
    hide Next, Legal, Inv;
    if k == |ops| {
      assert ops[..k] == ops;
      RunKeepsInv(ops);
      DeletedIsBlank(Run(ops), i);
    } else {
      var before := ops[..|ops| - 1];
      assert before[..k] == ops[..k];
      DeletedIsFinal(before, k, i);
      RunKeepsInv(before);
      StepKeepsDeleted(Run(before), ops[|ops| - 1], i, Run(ops[..k]).messages[i]);
    }
  }

  lemma DeletedIsBlank(st: Store, i: nat)
    requires Inv(st) && i < |st.messages| && st.messages[i].deletedAt.Some?
    ensures st.messages[i].content == ""
  {
  }
}
