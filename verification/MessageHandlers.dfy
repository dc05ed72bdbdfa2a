/** The message and read-cursor handlers (src/handlers/messages.rs, src/handlers/channels.rs) over
    tables that they update in place, each proved to take the step that `Store.dfy` describes. That
    steps keep the store's invariant is proved there. */
module MessageHandlers {
  import opened Ids
  import opened Wrappers
  import opened Store
  import E = MessageEvents
  import H = History
  import P = Pagination
  import T = Threads
  import U = Unread

  predicate IsBlank(content: string, isWhitespace: char -> bool) {
    forall i :: 0 <= i < |content| ==> isWhitespace(content[i])
  }

  function TrimStart(s: string, isWhitespace: char -> bool): string {
    if s != [] && isWhitespace(s[0]) then TrimStart(s[1..], isWhitespace) else s
  }

  function TrimEnd(s: string, isWhitespace: char -> bool): string {
    if s != [] && isWhitespace(s[|s| - 1]) then TrimEnd(s[..|s| - 1], isWhitespace) else s
  }

  /** `str::trim`. */
  function Trim(s: string, isWhitespace: char -> bool): string { TrimEnd(TrimStart(s, isWhitespace), isWhitespace) }

  /** What is trimmed at the start are the first characters, all whitespace, and the next is not. */
  lemma {:induction false} TrimStartIs(s: string, isWhitespace: char -> bool) returns (k: nat)
    ensures k <= |s| && TrimStart(s, isWhitespace) == s[k..] && IsBlank(s[..k], isWhitespace)
    ensures k < |s| ==> !isWhitespace(s[k])
  {
    if s != [] && isWhitespace(s[0]) {
      var k' := TrimStartIs(s[1..], isWhitespace);
      k := k' + 1;
      assert s[1..][k'..] == s[k..];
      forall i | 0 <= i < k ensures isWhitespace(s[..k][i]) {
        if i > 0 { assert s[1..][..k'][i - 1] == s[i]; }
      }
    } else {
      k := 0;
    }
  }

  lemma {:induction false} TrimEndIs(s: string, isWhitespace: char -> bool) returns (k: nat)
    ensures k <= |s| && TrimEnd(s, isWhitespace) == s[..k] && IsBlank(s[k..], isWhitespace)
    ensures k > 0 ==> !isWhitespace(s[k - 1])
  {
    if s != [] && isWhitespace(s[|s| - 1]) {
      k := TrimEndIs(s[..|s| - 1], isWhitespace);
      assert s[..|s| - 1][..k] == s[..k];
      forall i | 0 <= i < |s[k..]| ensures isWhitespace(s[k..][i]) {
        if i < |s| - 1 - k { assert s[..|s| - 1][k..][i] == s[k..][i]; }
      }
    } else {
      k := |s|;
    }
  }

  /** Trimming leaves nothing exactly of a text of whitespace. */
  lemma TrimmedAwayIffBlank(s: string, isWhitespace: char -> bool)
    ensures Trim(s, isWhitespace) == [] <==> IsBlank(s, isWhitespace)
  {
    hide TrimStart, TrimEnd;
    var k := TrimStartIs(s, isWhitespace);
    var m := TrimEndIs(s[k..], isWhitespace);
    if k < |s| {
      assert s[k..][0] == s[k];
    } else {
      assert s[..k] == s;
    }
  }

  /** What sending does, guard by guard. */
  lemma SendOutcome(st: Store, op: Op)
    requires op.Send?
    ensures var v := Verdict(st, op);
            && ((op.channel, op.user) !in st.cursors ==> v == Forbidden)
            && ((op.channel, op.user) in st.cursors ==>
                  v == if op.empty || !HasParent(st.messages, op.channel, op.parent) then BadRequest else Done)
            && (v != Done ==> Next(st, op) == st.(clock := st.clock + 1) && E.Emitted(st, op) == [])
            && (v == Done ==>
                  var m := NewMessage(op, st.clock + 1);
                  && Next(st, op).messages == Bump(st.messages + [m], op.parent)
                  && Next(st, op).notes == st.notes + op.notes
                  && Next(st, op).cursors == st.cursors && Next(st, op).clock == st.clock + 1
                  && E.Emitted(st, op) == [E.Created(op.channel, E.ViewOf(m))])
  {
  }

  class MessageHandlers {
    var messages: seq<Message>
    /** `last_read_at` of each membership row. */
    var cursors: map<(ChannelId, UserId), Option<Time>>
    var notes: seq<Note>
    var clock: Time
    /** What has been handed to the event bus. */
    var emitted: seq<E.Event>
    /** The classification of characters that trimming uses. */
    const isWhitespace: char -> bool

    ghost function Abs(): Store
      reads this
    {
      Store(messages, cursors, notes, clock)
    }

    constructor (isWhitespace: char -> bool)
      ensures Abs() == EMPTY && emitted == [] && this.isWhitespace == isWhitespace
    {
      messages, cursors, notes, clock, emitted := [], map[], [], 0, [];
      this.isWhitespace := isWhitespace;
    }

    /** The time a handler's statements see. */
    method Now() returns (now: Time)
      modifies `clock
      ensures now == clock == old(clock) + 1
    {
      clock := clock + 1;
      now := clock;
    }

    /** Inserts a row and counts it at its parent. */
    method Insert(m: Message)
      modifies `messages
      ensures messages == Bump(old(messages) + [m], m.parent)
    {
      messages := messages + [m];
      if m.parent.Some? {
        var row := Find(messages, m.parent.value);
        if row.Some? {
          var p := messages[row.value];
          messages := messages[row.value := p.(replyCount := p.replyCount + 1)];
        }
      }
    }

    method CarriesNothing(content: string, attachments: seq<nat>) returns (r: bool)
      ensures r <==> IsBlank(content, isWhitespace) && attachments == []
    {
      TrimmedAwayIffBlank(content, isWhitespace);
      r := Trim(content, isWhitespace) == [] && attachments == [];
    }

    /** `sent` are the notifications dispatched for the message. */
    method SendMessage(channel: ChannelId, user: UserId, content: string, attachments: seq<nat>,
                       parent: Option<MessageId>, id: MessageId, sent: seq<Note>)
      returns (r: Outcome)
      modifies this
      ensures var empty := IsBlank(content, isWhitespace) && attachments == [];
              var op := Send(id, channel, user, content, empty, parent, sent);
              && Abs() == Next(old(Abs()), op) && r == Verdict(old(Abs()), op)
              && emitted == old(emitted) + E.Emitted(old(Abs()), op)
    {
      ghost var empty := IsBlank(content, isWhitespace) && attachments == [];
      ghost var op := Send(id, channel, user, content, empty, parent, sent);
      SendOutcome(Abs(), op);
      hide Find, Bump, IsBlank, Next, Verdict, E.Emitted, E.ViewOf;
      var now := Now();
      if (channel, user) !in cursors {
        return Forbidden;
      }
      var carriesNothing := CarriesNothing(content, attachments);
      if carriesNothing {
        return BadRequest;
      }
      if parent.Some? {
        var row := Find(messages, parent.value);
        if row.None? || messages[row.value].channel != channel {
          return BadRequest;
        }
      }
      var message := Message(id, channel, user, content, parent, 0, None, None, now);
      Insert(message);
      emitted := emitted + [E.Created(channel, E.ViewOf(message))];
      notes := notes + sent;
      r := Done;
    }

    method EditMessage(id: MessageId, user: UserId, content: string) returns (r: Outcome)
      modifies this
      ensures Abs() == Next(old(Abs()), Edit(id, user, content))
      ensures r == Verdict(old(Abs()), Edit(id, user, content))
      ensures emitted == old(emitted) + E.Emitted(old(Abs()), Edit(id, user, content))
    {
      hide Find;
      var now := Now();
      var row := Find(messages, id);
      if row.None? || messages[row.value].deletedAt.Some? {
        return NotFound;
      }
      if messages[row.value].user != user {
        return Forbidden;
      }
      var message := messages[row.value].(content := content, editedAt := Some(now));
      messages := messages[row.value := message];
      emitted := emitted + [E.Updated(message.channel, E.ViewOf(message))];
      r := Done;
    }

    /** `admin` is the outcome of the channel-admin guard, which only non-owners need. */
    method DeleteMessage(id: MessageId, user: UserId, admin: bool) returns (r: Outcome)
      modifies this
      ensures Abs() == Next(old(Abs()), Delete(id, user, admin))
      ensures r == Verdict(old(Abs()), Delete(id, user, admin))
      ensures emitted == old(emitted) + E.Emitted(old(Abs()), Delete(id, user, admin))
    {
      hide Find;
      var now := Now();
      var row := Find(messages, id);
      if row.None? {
        return NotFound;
      }
      if messages[row.value].user != user && !admin {
        return Forbidden;
      }
      var channel := messages[row.value].channel;
      messages := messages[row.value := messages[row.value].(content := "", deletedAt := Some(now))];
      emitted := emitted + [E.Deleted(channel, id)];
      r := Done;
    }

    /** Marks the rows that the operation reads, one by one. */
    method UpdateNotes(op: Op, now: Time)
      modifies `notes
      ensures notes == ReadNotes(old(notes), op, now)
    {
      for i := 0 to |notes|
        invariant |notes| == |old(notes)|
        invariant forall k :: 0 <= k < |notes| ==>
                    notes[k] == if k < i then ReadNotes(old(notes), op, now)[k] else old(notes)[k]
      {
        if Reads(op, notes[i]) && notes[i].readAt.None? {
          notes := notes[i := notes[i].(readAt := Some(now))];
        }
      }
    }

    /** Reads one notification of the caller's own. */
    method ReadNote(user: UserId, id: NoteId)
      modifies this
      ensures Abs() == Next(old(Abs()), Op.ReadNote(user, id))
      ensures emitted == old(emitted)
    {
      var now := Now();
      UpdateNotes(Op.ReadNote(user, id), now);
    }

    /** Reads all notifications of the caller. */
    method ReadAllNotes(user: UserId)
      modifies this
      ensures Abs() == Next(old(Abs()), Op.ReadAllNotes(user))
      ensures emitted == old(emitted)
    {
      var now := Now();
      UpdateNotes(Op.ReadAllNotes(user), now);
    }

    method MarkRead(channel: ChannelId, user: UserId) returns (r: Outcome)
      modifies this
      ensures Abs() == Next(old(Abs()), Op.MarkRead(channel, user))
      ensures r == Verdict(old(Abs()), Op.MarkRead(channel, user))
      ensures emitted == old(emitted) + E.Emitted(old(Abs()), Op.MarkRead(channel, user))
    {
      var now := Now();
      if (channel, user) !in cursors {
        return Forbidden;
      }
      cursors := cursors[(channel, user) := Some(now)];
      UpdateNotes(Op.MarkRead(channel, user), now);
      emitted := emitted + [E.ReadBy(channel, user, now)];
      r := Done;
    }

    /** Newest roots first, then the read cursor moves to now. */
    method GetHistory(channel: ChannelId, user: UserId, before: Option<MessageId>, limit: int)
      returns (r: Outcome, page: seq<Message>, next: Option<MessageId>)
      modifies this
      ensures Abs() == Next(old(Abs()), Op.History(channel, user))
      ensures r == Verdict(old(Abs()), Op.History(channel, user))
      ensures r == Done ==> page == H.HistoryPage(old(messages), channel, before, P.ClampedLimit(limit))
      ensures r == Done ==> next == H.NextCursor(page, P.ClampedLimit(limit))
      ensures r != Done ==> page == [] && next == None
      ensures emitted == old(emitted)
    {
      hide Find, H.Scan;
      var now := Now();
      if (channel, user) !in cursors {
        return Forbidden, [], None;
      }
      var clamped := P.ClampedLimit(limit);
      if before.Some? {
        match Find(messages, before.value)
        case None => page := [];
        case Some(i) => page := Query(channel, Some(H.KeyOf(messages[i])), clamped);
      } else {
        page := Query(channel, None, clamped);
      }
      next := if |page| == clamped && page != [] then Some(page[|page| - 1].id) else None;
      cursors := cursors[(channel, user) := Some(now)];
      r := Done;
    }

    /** Reads the rows from the newest down until the limit is reached. */
    method Query(channel: ChannelId, before: Option<P.Key>, limit: nat) returns (page: seq<Message>)
      ensures page == H.Scan(messages, |messages|, channel, before, limit)
    {
      hide H.Scan;
      page := [];
      var n: nat := |messages|;
      ghost var rest := H.Scan(messages, n, channel, before, limit);
      ghost var whole := rest;
      while n > 0 && |page| < limit
        invariant n <= |messages| && |page| <= limit
        invariant rest == H.Scan(messages, n, channel, before, limit - |page|)
        invariant whole == page + rest
      {
        H.ScanStep(messages, n, channel, before, limit - |page|);
        n := n - 1;
        if H.IsRoot(messages[n], channel) && P.IsOlder(H.KeyOf(messages[n]), before) {
          page := page + [messages[n]];
        }
        rest := H.Scan(messages, n, channel, before, limit - |page|);
      }
      H.ScanStep(messages, n, channel, before, limit - |page|);
    }

    /** The replies to a message, for members of its channel. */
    method GetThread(id: MessageId, user: UserId) returns (r: Outcome, replies: seq<nat>)
      ensures r == match Find(messages, id)
                   case None => NotFound
                   case Some(i) => if (messages[i].channel, user) in cursors then Done else Forbidden
      ensures r == Done ==> replies == T.Thread(messages, id)
    {
      replies := [];
      match Find(messages, id)
      case None => return NotFound, [];
      case Some(i) =>
        if (messages[i].channel, user) !in cursors {
          return Forbidden, [];
        }
        for k := 0 to |messages|
          invariant replies == T.Answers(messages, id, k)
        {
          if messages[k].parent == Some(id) {
            replies := replies + [k];
          }
        }
        r := Done;
    }

    /** The unread count that listing channels shows a member. */
    method UnreadCount(channel: ChannelId, user: UserId) returns (count: nat)
      requires (channel, user) in cursors
      ensures count == U.UnreadCount(Abs(), (channel, user))
    {
      var cursor := cursors[(channel, user)];
      count := 0;
      for k := 0 to |messages|
        invariant count == U.Count(messages[..k], (channel, user), cursor)
      {
        assert messages[..k + 1][..k] == messages[..k];
        if U.IsUnread(messages[k], (channel, user), cursor) {
          count := count + 1;
        }
      }
      assert messages[..|messages|] == messages;
    }
  }
}
