/** Unread accounting: the count that listing channels computes from the rows and the read cursor,
    against a counter that is only ever stepped. */
module Unread {
  import opened Ids
  import opened Wrappers
  import opened Store

  type Member = (ChannelId, UserId)

  /** A row counts as unread for a member: by somebody else, not deleted, after the cursor. */
  predicate IsUnread(m: Message, k: Member, cursor: Option<Time>) {
    m.channel == k.0 && m.deletedAt.None? && m.user != k.1 && (cursor.None? || m.createdAt > cursor.value)
  }

  function Count(ms: seq<Message>, k: Member, cursor: Option<Time>): nat {
    if ms == [] then 0
    else Count(ms[..|ms| - 1], k, cursor) + if IsUnread(ms[|ms| - 1], k, cursor) then 1 else 0
  }

  function UnreadCount(st: Store, k: Member): nat
    requires k in st.cursors
  {
    Count(st.messages, k, st.cursors[k])
  }

  /** The user's notifications for a channel that are not marked read. */
  predicate HasUnreadNotes(st: Store, k: Member) {
    exists i :: 0 <= i < |st.notes| && IsUnreadNote(st.notes[i], k)
  }

  predicate IsUnreadNote(n: Note, k: Member) { n.user == k.1 && n.channel == k.0 && n.readAt.None? }

  // ---- The stepped counter.

  /** Somebody else's message adds one; the first deletion of a message still unread takes one
      away; reading resets; a joiner starts with what others have written. */
  function CounterNext(counter: map<Member, int>, st: Store, op: Op): map<Member, int>
    requires counter.Keys == st.cursors.Keys
  {
    if Verdict(st, op) != Done then counter
    else
      match op
      case Join(c, u, _) =>
        if (c, u) in counter then counter else counter[(c, u) := Count(st.messages, (c, u), None)]
      case Leave(c, u) => counter - {(c, u)}
      case Send(_, c, u, _, _, _, _) =>
        map k | k in counter :: if k.0 == c && k.1 != u then counter[k] + 1 else counter[k]
      case Edit(_, _, _) => counter
      case Delete(id, _, _) =>
        var m := st.messages[Find(st.messages, id).value];
        map k | k in counter :: if IsUnread(m, k, st.cursors[k]) then counter[k] - 1 else counter[k]
      case ReadNote(_, _) => counter
      case ReadAllNotes(_) => counter
      case MarkRead(c, u) => counter[(c, u) := 0]
      case History(c, u) => counter[(c, u) := 0]
  }

  /** The counter is right for every member. */
  ghost predicate Right(counter: map<Member, int>, st: Store) {
    counter.Keys == st.cursors.Keys && forall k :: k in st.cursors ==> counter[k] == UnreadCount(st, k)
  }

  // ---- Counting.

  lemma CountAppend(ms: seq<Message>, m: Message, k: Member, cursor: Option<Time>)
    ensures Count(ms + [m], k, cursor) == Count(ms, k, cursor) + if IsUnread(m, k, cursor) then 1 else 0
  {
    assert (ms + [m])[..|ms|] == ms;
  }

  lemma {:induction false} CountUpdate(ms: seq<Message>, i: nat, row: Message, k: Member, cursor: Option<Time>)
    requires i < |ms|
    ensures Count(ms[i := row], k, cursor)
         == Count(ms, k, cursor) - (if IsUnread(ms[i], k, cursor) then 1 else 0)
          + if IsUnread(row, k, cursor) then 1 else 0
  {
    var last := |ms| - 1;
    if i < last {
      CountUpdate(ms[..last], i, row, k, cursor);
      assert ms[i := row][..last] == ms[..last][i := row];
    } else {
      assert ms[i := row][..last] == ms[..last];
    }
  }

  lemma {:induction false} NothingAfterNow(ms: seq<Message>, k: Member, now: Time)
    requires forall i :: 0 <= i < |ms| ==> ms[i].createdAt <= now
    ensures Count(ms, k, Some(now)) == 0
  {
    if ms == [] {
    } else {
      NothingAfterNow(ms[..|ms| - 1], k, now);
    }
  }

  lemma SendCounts(st: Store, op: Op, k: Member)
    requires Inv(st) && Legal(st, op) && op.Send? && Verdict(st, op) == Done && k in st.cursors
    ensures UnreadCount(Next(st, op), k)
         == UnreadCount(st, k) + if k.0 == op.channel && k.1 != op.user then 1 else 0
  {
    hide CountsReplies, DeletedAreBlank, Count, Find, Bump;
    var ms, m := st.messages, NewMessage(op, st.clock + 1);
    CountAppend(ms, m, k, st.cursors[k]);
    BumpKeepsCount(ms + [m], op.parent, k, st.cursors[k]);
  }

  lemma BumpKeepsCount(ms: seq<Message>, parent: Option<MessageId>, k: Member, cursor: Option<Time>)
    ensures Count(Bump(ms, parent), k, cursor) == Count(ms, k, cursor)
  {
    hide Count;
    if parent.Some? && Find(ms, parent.value).Some? {
      var p := Find(ms, parent.value).value;
      CountUpdate(ms, p, ms[p].(replyCount := ms[p].replyCount + 1), k, cursor);
    }
  }

  /** One, if the step deletes a message that is unread for the member. */
  function Withdrawn(st: Store, op: Op, k: Member): nat
    requires (op.Edit? || op.Delete?) && Verdict(st, op) == Done && k in st.cursors
  {
    if op.Delete? && IsUnread(st.messages[Find(st.messages, op.id).value], k, st.cursors[k]) then 1 else 0
  }

  lemma RowChangeCounts(st: Store, op: Op, k: Member)
    requires Inv(st) && (op.Edit? || op.Delete?) && Verdict(st, op) == Done && k in st.cursors
    ensures UnreadCount(Next(st, op), k) == UnreadCount(st, k) - Withdrawn(st, op, k)
  {
    hide Rows, CountsReplies, Count, Find;
    var i := Find(st.messages, op.id).value;
    CountUpdate(st.messages, i, Next(st, op).messages[i], k, st.cursors[k]);
  }

  lemma ReadingCounts(st: Store, op: Op, k: Member)
    requires Inv(st) && (op.MarkRead? || op.History?) && Verdict(st, op) == Done && k in st.cursors
    ensures UnreadCount(Next(st, op), k) == if k == (op.channel, op.user) then 0 else UnreadCount(st, k)
  {
    hide Count;
    NothingAfterNow(st.messages, (op.channel, op.user), st.clock + 1);
  }

  lemma StepKeepsRight(counter: map<Member, int>, st: Store, op: Op)
    requires Inv(st) && Legal(st, op) && Right(counter, st)
    ensures Right(CounterNext(counter, st, op), Next(st, op))
  {
    hide Inv, Legal, Count, IsUnread, Find;
    var counter', st' := CounterNext(counter, st, op), Next(st, op);
    if Verdict(st, op) == Done && (op.Send? || op.Edit? || op.Delete? || op.MarkRead? || op.History?) {
      forall k | k in st.cursors ensures counter'[k] == UnreadCount(st', k) {
        if op.Send? {
          SendCounts(st, op, k);
        } else if op.Edit? || op.Delete? {
          RowChangeCounts(st, op, k);
        } else {
          ReadingCounts(st, op, k);
        }
      }
    }
  }

  function Counter(ops: seq<Op>): (counter: map<Member, int>)
    ensures counter.Keys == Run(ops).cursors.Keys
  {
    if ops == [] then map[]
    else
      var before := ops[..|ops| - 1];
      CounterKeys(Counter(before), Run(before), ops[|ops| - 1]);
      CounterNext(Counter(before), Run(before), ops[|ops| - 1])
  }

  lemma CounterKeys(counter: map<Member, int>, st: Store, op: Op)
    requires counter.Keys == st.cursors.Keys
    ensures CounterNext(counter, st, op).Keys == Next(st, op).cursors.Keys
  {
    hide Count, IsUnread, Find, Bump;
  }

  /** At every reachable state the count over the rows is the stepped counter, for every member. */
  lemma {:induction false} UnreadIsCounted(ops: seq<Op>)
    requires LegalRun(ops)
    ensures Right(Counter(ops), Run(ops))
  {
    hide Next, CounterNext, Legal, Inv;
    if ops == [] {
    } else {
      var before := ops[..|ops| - 1];
      UnreadIsCounted(before);
      RunKeepsInv(before);
      StepKeepsRight(Counter(before), Run(before), ops[|ops| - 1]);
    }
  }

  predicate AtLeast(cursor: Option<Time>, later: Option<Time>) {
    cursor.Some? ==> later.Some? && cursor.value <= later.value
  }

  lemma StepAdvances(st: Store, op: Op, k: Member)
    requires Inv(st) && k in st.cursors && k in Next(st, op).cursors
    ensures AtLeast(st.cursors[k], Next(st, op).cursors[k])
  {
    hide Find, Bump;
  }

  /** While a membership lasts, its cursor never moves back. */
  lemma {:induction false} CursorsOnlyAdvance(ops: seq<Op>, from: nat, k: Member)
    requires LegalRun(ops) && from <= |ops|
    requires forall n :: from <= n <= |ops| ==> k in Run(ops[..n]).cursors
    ensures k in Run(ops).cursors && AtLeast(Run(ops[..from]).cursors[k], Run(ops).cursors[k])
    decreases |ops|
  {
    hide Next, Legal, Inv;
    assert ops[..|ops|] == ops;
    if from < |ops| {
      var before := ops[..|ops| - 1];
      forall n | from <= n <= |before| ensures k in Run(before[..n]).cursors { assert before[..n] == ops[..n]; }
      assert before[..from] == ops[..from];
      CursorsOnlyAdvance(before, from, k);
      RunKeepsInv(before);
      StepAdvances(Run(before), ops[|ops| - 1], k);
    }
  }

  /** Right after `mark_read` both unread surfaces of the channel are zero for that user. */
  lemma MarkReadClearsBoth(st: Store, c: ChannelId, u: UserId)
    requires Inv(st) && (c, u) in st.cursors
    ensures var st' := Next(st, MarkRead(c, u));
            (c, u) in st'.cursors && UnreadCount(st', (c, u)) == 0 && !HasUnreadNotes(st', (c, u))
  {
    ReadingCounts(st, MarkRead(c, u), (c, u));
  }

  // ---- Which notifications are unread.

  /** Step `i` of the run inserts notification `n`. */
  predicate Delivers(ops: seq<Op>, i: nat, n: Note)
    requires i < |ops|
  {
    Inserted(Run(ops[..i]), ops[i], n)
  }

  predicate Inserted(st: Store, op: Op, n: Note) {
    && (op.Send? || (op.Join? && (op.channel, op.user) !in st.cursors))
    && Verdict(st, op) == Done && n in op.notes
  }

  /** Step `i` of the run reads notification `n`: its channel is marked read by a member, or it is
      read by itself, or with all of its user's. */
  predicate ReadsAt(ops: seq<Op>, i: nat, n: Note)
    requires i < |ops|
  {
    Verdict(Run(ops[..i]), ops[i]) == Done && Reads(ops[i], n)
  }

  /** Step `i` inserts `n` unread, and no later step reads it. */
  ghost predicate LeftUnread(ops: seq<Op>, i: nat, n: Note) {
    && i < |ops| && n.readAt.None? && Delivers(ops, i, n)
    && forall j :: i < j < |ops| ==> !ReadsAt(ops, j, n)
  }

  lemma StepNotes(st: Store, op: Op, n: Note)
    requires n.readAt.None?
    ensures n in Next(st, op).notes <==>
              (n in st.notes && !(Verdict(st, op) == Done && Reads(op, n))) || Inserted(st, op, n)
  {
    hide Find, Bump, HasParent, Reads;
    var notes, now := st.notes, st.clock + 1;
    if Verdict(st, op) == Done && (op.MarkRead? || op.ReadNote? || op.ReadAllNotes?) {
      ReadNotesKeeps(notes, op, now, n);
    } else {
      ReadsNothing(op, n);
    }
  }

  lemma ReadsNothing(op: Op, n: Note)
    ensures Reads(op, n) ==> op.MarkRead? || op.ReadNote? || op.ReadAllNotes?
  {
  }

  lemma ReadNotesKeeps(notes: seq<Note>, op: Op, now: Time, n: Note)
    requires n.readAt.None?
    ensures n in ReadNotes(notes, op, now) <==> n in notes && !Reads(op, n)
  {
    var notes' := ReadNotes(notes, op, now);
    if n in notes && !Reads(op, n) {
      var i :| 0 <= i < |notes| && notes[i] == n;
      assert notes'[i] == n;
    }
  }

  /** Adding a step at the end of a run. */
  lemma LeftUnreadStep(ops: seq<Op>, i: nat, n: Note)
    requires ops != [] && n.readAt.None?
    ensures var before, last := ops[..|ops| - 1], |ops| - 1;
            LeftUnread(ops, i, n) <==>
              (i == last && Delivers(ops, last, n)) || (LeftUnread(before, i, n) && !ReadsAt(ops, last, n))
  {
    hide Inserted, Reads, Run, Verdict;
    var before, last := ops[..|ops| - 1], |ops| - 1;
    forall j | 0 <= j < last
      ensures ReadsAt(ops, j, n) == ReadsAt(before, j, n) && Delivers(ops, j, n) == Delivers(before, j, n)
    {
      assert before[..j] == ops[..j];
    }
  }

  lemma RunStep(ops: seq<Op>)
    requires ops != []
    ensures Run(ops) == Next(Run(ops[..|ops| - 1]), ops[|ops| - 1])
  {
  }

  lemma NothingLeftYet(n: Note)
    ensures n !in Run([]).notes && forall i :: !LeftUnread([], i, n)
  {
  }

  /** The unread notifications of a reachable store are those that some step inserted and no later
      step has read. */
  lemma {:induction false} UnreadNotesAreThoseLeft(ops: seq<Op>, n: Note)
    requires n.readAt.None?
    ensures n in Run(ops).notes <==> exists i :: LeftUnread(ops, i, n)
  {
    hide Next, LeftUnread, Run, Inserted, Reads, Verdict;
    if ops == [] {
      NothingLeftYet(n);
    } else {
      var before, last := ops[..|ops| - 1], |ops| - 1;
      UnreadNotesAreThoseLeft(before, n);
      RunStep(ops);
      StepNotes(Run(before), ops[last], n);
      if n in Run(ops).notes {
        if Delivers(ops, last, n) {
          LeftUnreadStep(ops, last, n);
        } else {
          var i :| LeftUnread(before, i, n);
          LeftUnreadStep(ops, i, n);
        }
      }
      if exists i :: LeftUnread(ops, i, n) {
        var i :| LeftUnread(ops, i, n);
        LeftUnreadStep(ops, i, n);
      }
    }
  }

  /** The run has left a notification of the channel unread for the member. */
  ghost predicate HasNotesLeft(ops: seq<Op>, k: Member) {
    exists i, n :: LeftUnread(ops, i, n) && n.user == k.1 && n.channel == k.0
  }

  lemma HasNotesLeftIff(ops: seq<Op>, k: Member)
    ensures HasUnreadNotes(Run(ops), k) <==> HasNotesLeft(ops, k)
  {
    hide Run, LeftUnread;
    if HasUnreadNotes(Run(ops), k) {
      var i :| 0 <= i < |Run(ops).notes| && IsUnreadNote(Run(ops).notes[i], k);
      UnreadNotesAreThoseLeft(ops, Run(ops).notes[i]);
    }
    if HasNotesLeft(ops, k) {
      var i, n :| LeftUnread(ops, i, n) && n.user == k.1 && n.channel == k.0;
      LeftIsUnread(ops, i, n);
      UnreadNotesAreThoseLeft(ops, n);
      var j :| 0 <= j < |Run(ops).notes| && Run(ops).notes[j] == n;
      assert IsUnreadNote(Run(ops).notes[j], k);
    }
  }

  lemma LeftIsUnread(ops: seq<Op>, i: nat, n: Note)
    requires LeftUnread(ops, i, n)
    ensures n.readAt.None?
  {
  }

  /** One of the two unread surfaces of a channel shows something and the other does not. */
  predicate Disagree(st: Store, k: Member)
    requires k in st.cursors
  {
    (UnreadCount(st, k) == 0) != !HasUnreadNotes(st, k)
  }

  /** In every reachable state the surfaces disagree if and only if the stepped counter stands at zero
      while some step has notified the user in the channel and no later one has read that
      notification, or the counter is not at zero and no such notification is left. */
  lemma DisagreeIff(ops: seq<Op>, k: Member)
    requires LegalRun(ops) && k in Run(ops).cursors
    ensures k in Counter(ops) && (Disagree(Run(ops), k) <==> (Counter(ops)[k] == 0 <==> HasNotesLeft(ops, k)))
  {
    hide Run, LegalRun, HasNotesLeft, Count, HasUnreadNotes;
    UnreadIsCounted(ops);
    HasNotesLeftIff(ops, k);
  }

  /** Loading history clears the channel's count and leaves its notifications alone. So the surfaces
      disagree right after it if and only if a message or an invitation has notified the user in the
      channel, and since then they have neither marked the channel read nor read the notification. */
  lemma HistoryDisagreesIffNotesLeft(ops: seq<Op>, c: ChannelId, u: UserId)
    requires LegalRun(ops) && (c, u) in Run(ops).cursors
    ensures var st' := Next(Run(ops), History(c, u));
            && (c, u) in st'.cursors && UnreadCount(st', (c, u)) == 0
            && (Disagree(st', (c, u)) <==> HasNotesLeft(ops, (c, u)))
  {
    hide Run, LegalRun, HasNotesLeft;
    RunKeepsInv(ops);
    ReadingCounts(Run(ops), History(c, u), (c, u));
    HasNotesLeftIff(ops, (c, u));
  }

  lemma Extend(ops: seq<Op>, op: Op) returns (longer: seq<Op>)
    requires LegalRun(ops) && Legal(Run(ops), op)
    ensures longer == ops + [op] && LegalRun(longer) && Run(longer) == Next(Run(ops), op)
  {
    longer := ops + [op];
    assert longer[..|ops|] == ops;
  }

  lemma NoteDisagrees(st: Store, k: Member, n: Note)
    requires k in st.cursors && UnreadCount(st, k) == 0 && n in st.notes && IsUnreadNote(n, k)
    ensures Disagree(st, k)
  {
  }

  /** User 1 has mentioned user 2 in channel 0, where both are members. */
  lemma AMention() returns (ops: seq<Op>)
    ensures LegalRun(ops) && (0, 2) in Run(ops).cursors && Run(ops).notes == [Note(0, 2, 0, None)]
    ensures Run(ops).messages == [Message(0, 0, 1, "@bob", None, 0, None, None, 3)]
  {
    hide Run, LegalRun, Count, Inv;
    ops := [];
    assert LegalRun([]) && Run([]) == EMPTY by { NoSteps(); }
    ops := Extend(ops, Join(0, 1, []));
    ops := Extend(ops, Join(0, 2, []));
    ops := Extend(ops, Send(0, 0, 1, "@bob", false, None, [Note(0, 2, 0, None)]));
  }

  /** User 2 then loads the channel's history. */
  lemma HistoryLeavesAMention()
    ensures exists ops: seq<Op>, k: Member :: LegalRun(ops) && k in Run(ops).cursors && Disagree(Run(ops), k)
                             && ops != [] && ops[|ops| - 1].History?
  {
    hide Run, LegalRun, Count, Inv, Disagree, IsUnreadNote;
    var ops := AMention();
    RunKeepsInv(ops);
    ReadingCounts(Run(ops), History(0, 2), (0, 2));
    ops := Extend(ops, History(0, 2));
    UnreadNote();
    NoteDisagrees(Run(ops), (0, 2), Note(0, 2, 0, None));
  }

  lemma UnreadNote()
    ensures IsUnreadNote(Note(0, 2, 0, None), (0, 2))
  {
  }

  /** Or user 1 deletes the message before user 2 has read anything. */
  lemma DeletionLeavesAMention()
    ensures exists ops: seq<Op>, k: Member :: LegalRun(ops) && k in Run(ops).cursors && Disagree(Run(ops), k)
                             && ops != [] && ops[|ops| - 1].Delete?
  {
    hide Run, LegalRun, Inv, Disagree, IsUnreadNote;
    var ops := AMention();
    ops := Extend(ops, Delete(0, 1, false));
    DeletedDoNotCount(Run(ops).messages, (0, 2), Run(ops).cursors[(0, 2)]);
    UnreadNote();
    NoteDisagrees(Run(ops), (0, 2), Note(0, 2, 0, None));
  }

  lemma {:induction false} DeletedDoNotCount(ms: seq<Message>, k: Member, cursor: Option<Time>)
    requires forall i :: 0 <= i < |ms| ==> ms[i].deletedAt.Some?
    ensures Count(ms, k, cursor) == 0
  {
    if ms == [] {
    } else {
      DeletedDoNotCount(ms[..|ms| - 1], k, cursor);
    }
  }

  lemma NoSteps()
    ensures LegalRun([]) && Run([]) == EMPTY
  {
  }
}
