/** Who may write, change and read what, read off the steps of the run. */
module MessageHistory {
  import opened Ids
  import opened Wrappers
  import opened Store

  // ---- Members.

  /** Step `j` lets the user join the channel, and they have not left it since. */
  ghost predicate JoinedSince(ops: seq<Op>, j: nat, c: ChannelId, u: UserId) {
    && j < |ops| && ops[j].Join? && ops[j].channel == c && ops[j].user == u
    && forall m :: j < m < |ops| ==> ops[m] != Leave(c, u)
  }

  ghost predicate IsMember(ops: seq<Op>, c: ChannelId, u: UserId) { exists j :: JoinedSince(ops, j, c, u) }

  lemma StepMember(st: Store, op: Op, c: ChannelId, u: UserId)
    ensures (c, u) in Next(st, op).cursors <==>
              (op.Join? && op.channel == c && op.user == u) || ((c, u) in st.cursors && op != Leave(c, u))
  {
    hide Find, Bump, HasParent;
  }

  lemma JoinedSinceStep(ops: seq<Op>, j: nat, c: ChannelId, u: UserId)
    requires ops != []
    ensures var before, last := ops[..|ops| - 1], ops[|ops| - 1];
            JoinedSince(ops, j, c, u) <==>
              (j == |before| && last.Join? && last.channel == c && last.user == u)
              || (JoinedSince(before, j, c, u) && last != Leave(c, u))
  {
  }

  /** Nobody but those who joined, and have not left, has a read cursor. */
  lemma {:induction false} CursorIffMember(ops: seq<Op>, c: ChannelId, u: UserId)
    ensures (c, u) in Run(ops).cursors <==> IsMember(ops, c, u)
  {
    hide Next, JoinedSince;
    if ops == [] {
      NobodyJoinedYet(c, u);
    } else {
      var before, op := ops[..|ops| - 1], ops[|ops| - 1];
      CursorIffMember(before, c, u);
      StepMember(Run(before), op, c, u);
      if IsMember(before, c, u) && op != Leave(c, u) {
        var j :| JoinedSince(before, j, c, u);
        JoinedSinceStep(ops, j, c, u);
      }
      JoinedSinceStep(ops, |before|, c, u);
      if IsMember(ops, c, u) {
        var j :| JoinedSince(ops, j, c, u);
        JoinedSinceStep(ops, j, c, u);
      }
    }
  }

  lemma NobodyJoinedYet(c: ChannelId, u: UserId)
    ensures !IsMember([], c, u)
  {
  }

  // ---- Writing.

  /** The channel has a message with that id. */
  ghost predicate HasMessage(st: Store, c: ChannelId, id: MessageId) {
    exists i :: 0 <= i < |st.messages| && st.messages[i].id == id && st.messages[i].channel == c
  }

  ghost predicate CanAnswer(st: Store, c: ChannelId, parent: Option<MessageId>) {
    parent.Some? ==> HasMessage(st, c, parent.value)
  }

  lemma ParentIff(st: Store, c: ChannelId, parent: Option<MessageId>)
    requires Inv(st)
    ensures HasParent(st.messages, c, parent) <==> CanAnswer(st, c, parent)
  {
    if parent.Some? && HasMessage(st, c, parent.value) {
      var i :| 0 <= i < |st.messages| && st.messages[i].id == parent.value && st.messages[i].channel == c;
      UniqueFind(st.messages, st.clock, i);
    }
  }

  /** A message is accepted if and only if its sender is a member, it carries something, and what it
      answers, if anything, is a message of the channel. Then exactly it is new. */
  lemma SendAcceptedIff(ops: seq<Op>, op: Op)
    requires LegalRun(ops) && op.Send? && Legal(Run(ops), op)
    ensures var st := Run(ops);
            var v, ms, ms' := Verdict(st, op), st.messages, Next(st, op).messages;
            && (v == Forbidden <==> !IsMember(ops, op.channel, op.user))
            && (v == Done <==>
                  IsMember(ops, op.channel, op.user) && !op.empty && CanAnswer(st, op.channel, op.parent))
            && (v == Done || v == Forbidden || v == BadRequest)
            && (v != Done ==> ms' == ms)
            && (v == Done ==>
                  && |ms'| == |ms| + 1
                  && ms'[|ms|] == Message(op.id, op.channel, op.user, op.content, op.parent, 0, None, None,
                                          st.clock + 1))
  {
    hide Run, LegalRun, IsMember, Rows, CountsReplies, DeletedAreBlank;
    RunKeepsInv(ops);
    CursorIffMember(ops, op.channel, op.user);
    ParentIff(Run(ops), op.channel, op.parent);
    if HasParent(Run(ops).messages, op.channel, op.parent) { NewRow(Run(ops), op); }
    hide Bump, HasParent, CanAnswer;
  }

  lemma NewRow(st: Store, op: Op)
    requires Inv(st) && op.Send? && Legal(st, op) && HasParent(st.messages, op.channel, op.parent)
    ensures var ms, m := st.messages, NewMessage(op, st.clock + 1);
            var ms' := Bump(ms + [m], op.parent);
            |ms'| == |ms| + 1 && ms'[|ms|] == m
  {
    AppendKeepsRows(st.messages, st.clock, NewMessage(op, st.clock + 1));
    if op.parent.Some? {
      var longer, i := st.messages + [NewMessage(op, st.clock + 1)], Find(st.messages, op.parent.value).value;
      UniqueFind(longer, st.clock + 1, i);
    }
  }

  // ---- Changing.

  /** The content of a message changes exactly when its author edits it while it is not deleted, or the
      author or an administrator deletes it; nobody else's step changes it. */
  lemma RowChanges(ops: seq<Op>, op: Op, i: nat)
    requires LegalRun(ops) && Legal(Run(ops), op) && i < |Run(ops).messages|
    ensures var st := Run(ops);
            var m, now := st.messages[i], st.clock + 1;
            && i < |Next(st, op).messages|
            && var m' := Next(st, op).messages[i];
               && m'.id == m.id && m'.channel == m.channel && m'.user == m.user
               && (if op.Edit? && op.id == m.id && op.user == m.user && m.deletedAt.None? then
                     m'.content == op.content && m'.editedAt == Some(now) && m'.deletedAt == None
                   else if op.Delete? && op.id == m.id && (op.user == m.user || op.admin) then
                     m'.content == "" && m'.editedAt == m.editedAt && m'.deletedAt == Some(now)
                   else
                     m'.content == m.content && m'.editedAt == m.editedAt && m'.deletedAt == m.deletedAt)
  {
    hide Run, LegalRun, CountsReplies, DeletedAreBlank;
    RunKeepsInv(ops);
    StepChangesRow(Run(ops), op, i);
  }

  lemma StepChangesRow(st: Store, op: Op, i: nat)
    requires Inv(st) && Legal(st, op) && i < |st.messages|
    ensures var m, now := st.messages[i], st.clock + 1;
            && i < |Next(st, op).messages|
            && var m' := Next(st, op).messages[i];
               && m'.id == m.id && m'.channel == m.channel && m'.user == m.user
               && (if op.Edit? && op.id == m.id && op.user == m.user && m.deletedAt.None? then
                     m'.content == op.content && m'.editedAt == Some(now) && m'.deletedAt == None
                   else if op.Delete? && op.id == m.id && (op.user == m.user || op.admin) then
                     m'.content == "" && m'.editedAt == m.editedAt && m'.deletedAt == Some(now)
                   else
                     m'.content == m.content && m'.editedAt == m.editedAt && m'.deletedAt == m.deletedAt)
  {
    UniqueFind(st.messages, st.clock, i);
    hide Rows, CountsReplies, DeletedAreBlank, Find;
  }

  /** What a message's id leads to. */
  lemma FoundIff(st: Store, id: MessageId)
    requires Inv(st)
    ensures Find(st.messages, id).Some? <==> exists i :: 0 <= i < |st.messages| && st.messages[i].id == id
  {
  }

  /** The author's edit of a live message is accepted, somebody else's is forbidden; there is nothing to
      edit if there is no such message or it is deleted. */
  lemma EditAnswer(ops: seq<Op>, op: Op, i: nat)
    requires LegalRun(ops) && op.Edit? && i < |Run(ops).messages| && Run(ops).messages[i].id == op.id
    ensures var m := Run(ops).messages[i];
            Verdict(Run(ops), op)
            == if m.deletedAt.Some? then NotFound else if m.user == op.user then Done else Forbidden
  {
    hide Run, LegalRun, Find;
    RunKeepsInv(ops);
    UniqueFind(Run(ops).messages, Run(ops).clock, i);
  }

  /** The author and administrators may delete, others may not. */
  lemma DeleteAnswer(ops: seq<Op>, op: Op, i: nat)
    requires LegalRun(ops) && op.Delete? && i < |Run(ops).messages| && Run(ops).messages[i].id == op.id
    ensures Verdict(Run(ops), op)
         == if Run(ops).messages[i].user == op.user || op.admin then Done else Forbidden
  {
    hide Run, LegalRun, Find;
    RunKeepsInv(ops);
    UniqueFind(Run(ops).messages, Run(ops).clock, i);
  }

  lemma NothingThere(st: Store, op: Op)
    requires (op.Edit? || op.Delete?) && forall i :: 0 <= i < |st.messages| ==> st.messages[i].id != op.id
    ensures Verdict(st, op) == NotFound && Next(st, op).messages == st.messages
  {
  }

  // ---- Reading.

  /** Reading a channel is for its members. */
  lemma ReadingAcceptedIff(ops: seq<Op>, op: Op)
    requires LegalRun(ops) && (op.MarkRead? || op.History?)
    ensures Verdict(Run(ops), op) == if IsMember(ops, op.channel, op.user) then Done else Forbidden
  {
    hide Run, LegalRun, IsMember;
    CursorIffMember(ops, op.channel, op.user);
  }

  /** A notification is read exactly when its own user, as a member, marks its channel read, or reads it,
      or reads all of theirs; nobody else's step reads it, and read ones keep their time. */
  lemma NoteIsReadIff(ops: seq<Op>, op: Op, i: nat)
    requires LegalRun(ops) && i < |Run(ops).notes|
    ensures var st := Run(ops);
            var n := st.notes[i];
            && i < |Next(st, op).notes|
            && Next(st, op).notes[i]
               == if n.readAt.None?
                     && ((op == MarkRead(n.channel, n.user) && IsMember(ops, n.channel, n.user))
                         || op == ReadNote(n.user, n.id) || op == ReadAllNotes(n.user))
                  then n.(readAt := Some(st.clock + 1)) else n
  {
    hide Run, LegalRun, IsMember, Find, Bump, HasParent;
    CursorIffMember(ops, Run(ops).notes[i].channel, Run(ops).notes[i].user);
  }
}
