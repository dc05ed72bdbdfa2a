/** Who is notified of a new message (src/handlers/messages.rs). */
module Notifications {
  import opened Ids
  import opened Sequences
  import opened Wrappers
  import opened Mentions

  datatype Kind = Mention | DirectMessage | ChannelInvite | ThreadReply

  /** `channel`, `message` and `actor` are the payload. */
  datatype Notice = Notice(user: UserId, kind: Kind, channel: ChannelId, message: MessageId, actor: UserId)

  /** A member of the message's channel, with the lower-cased username. */
  datatype MemberRow = MemberRow(user: UserId, username: string)

  /** `parentAuthor` is found unless the message is no reply or its parent does not exist. */
  datatype Context = Context(isReply: bool, parentAuthor: Option<UserId>, isDirect: bool, members: seq<MemberRow>)

  datatype Message = Message(id: MessageId, channel: ChannelId, sender: UserId, content: string)

  /** A membership's primary key, and the unique index on lower-cased usernames. */
  ghost predicate UniqueRows(rows: seq<MemberRow>) {
    forall i, j :: 0 <= i < j < |rows| ==> rows[i].user != rows[j].user && rows[i].username != rows[j].username
  }

  ghost predicate IsMember(rows: seq<MemberRow>, user: UserId) { exists r :: r in rows && r.user == user }

  ghost predicate IsMentioned(rows: seq<MemberRow>, names: set<string>, user: UserId) {
    exists r :: r in rows && r.user == user && r.username in names
  }

  /** Who should be told, and of what. */
  ghost predicate Deserves(u: Unicode, m: Message, c: Context, user: UserId, kind: Kind) {
    && user != m.sender
    && match kind
       case DirectMessage => !c.isReply && c.isDirect && IsMember(c.members, user)
       case ThreadReply => c.isReply && c.parentAuthor == Some(user)
       case Mention => IsMentioned(c.members, Mentioned(u, m.content), user)
       case ChannelInvite => false
  }

  function Count(ns: seq<Notice>, user: UserId, kind: Kind): nat {
    if ns == [] then 0
    else Count(ns[..|ns| - 1], user, kind) + if ns[|ns| - 1].user == user && ns[|ns| - 1].kind == kind then 1 else 0
  }

  lemma NoCount(user: UserId, kind: Kind)
    ensures Count([], user, kind) == 0
  {
  }

  lemma CountAppend(ns: seq<Notice>, n: Notice, user: UserId, kind: Kind)
    ensures Count(ns + [n], user, kind) == Count(ns, user, kind) + if n.user == user && n.kind == kind then 1 else 0
  {
    assert (ns + [n])[..|ns|] == ns;
  }

  lemma {:induction false} CountJoin(a: seq<Notice>, b: seq<Notice>, user: UserId, kind: Kind)
    ensures Count(a + b, user, kind) == Count(a, user, kind) + Count(b, user, kind)
  {
    if b == [] {
      assert a + b == a;
    } else {
      assert (a + b)[..|a + b| - 1] == a + b[..|b| - 1];
      CountJoin(a, b[..|b| - 1], user, kind);
    }
  }

  /** The notices of one kind for the rows that pass, as each loop sends them. */
  function NoticesFor(rows: seq<MemberRow>, kind: Kind, m: Message, names: Option<set<string>>): seq<Notice> {
    if rows == [] then []
    else
      var before, row := NoticesFor(rows[..|rows| - 1], kind, m, names), rows[|rows| - 1];
      if row.user != m.sender && (names.Some? ==> row.username in names.value)
      then before + [Notice(row.user, kind, m.channel, m.id, m.sender)] else before
  }

  ghost predicate Passes(rows: seq<MemberRow>, m: Message, names: Option<set<string>>, user: UserId) {
    user != m.sender && if names.Some? then IsMentioned(rows, names.value, user) else IsMember(rows, user)
  }

  lemma {:induction false} CountNotices(
    rows: seq<MemberRow>, kind: Kind, m: Message, names: Option<set<string>>, user: UserId, k: Kind)
    requires UniqueRows(rows)
    ensures Count(NoticesFor(rows, kind, m, names), user, k)
         == if k == kind && Passes(rows, m, names, user) then 1 else 0
  {
    if rows == [] {
      NoCount(user, k);
    } else {
      hide UniqueRows, Passes, Count, IsMember, IsMentioned;
      var before, row := rows[..|rows| - 1], rows[|rows| - 1];
      LastIsNew(rows);
      CountNotices(before, kind, m, names, user, k);
      CountAppend(NoticesFor(before, kind, m, names), Notice(row.user, kind, m.channel, m.id, m.sender), user, k);
      PassesStep(before, row, m, names, user);
      assert rows == before + [row];
    }
  }

  lemma LastIsNew(rows: seq<MemberRow>)
    requires UniqueRows(rows) && rows != []
    ensures UniqueRows(rows[..|rows| - 1])
    ensures forall r :: r in rows[..|rows| - 1] ==> r.user != rows[|rows| - 1].user
  {
  }

  lemma PassesStep(before: seq<MemberRow>, row: MemberRow, m: Message, names: Option<set<string>>, user: UserId)
    requires forall r :: r in before ==> r.user != row.user
    ensures row.user != user ==> Passes(before + [row], m, names, user) == Passes(before, m, names, user)
    ensures row.user == user ==> !Passes(before, m, names, user)
    ensures var named := names.Some? ==> row.username in names.value;
            row.user == user ==> Passes(before + [row], m, names, user) == (user != m.sender && named)
  {
    assert forall r :: r in before + [row] <==> r in before || r == row;
    assert row in before + [row];
  }

  /** The author of the message replied to, unless they reply to themselves. */
  function ReplyNotices(c: Context, m: Message): seq<Notice> {
    if c.isReply && c.parentAuthor.Some? && c.parentAuthor.value != m.sender
    then [Notice(c.parentAuthor.value, ThreadReply, m.channel, m.id, m.sender)] else []
  }

  /** Notifies the members of a direct channel other than the sender. */
  method NotifyPartners(rows: seq<MemberRow>, m: Message) returns (sent: seq<Notice>)
    ensures sent == NoticesFor(rows, DirectMessage, m, None)
  {
    sent := [];
    for i := 0 to |rows|
      invariant sent == NoticesFor(rows[..i], DirectMessage, m, None)
    {
      assert rows[..i + 1][..i] == rows[..i];
      if rows[i].user != m.sender {
        sent := sent + [Notice(rows[i].user, DirectMessage, m.channel, m.id, m.sender)];
      }
    }
    assert rows[..|rows|] == rows;
  }

  /** Notifies the members mentioned by name, other than the sender. */
  method NotifyMentioned(rows: seq<MemberRow>, m: Message, mentions: seq<string>) returns (sent: seq<Notice>)
    ensures sent == NoticesFor(rows, Mention, m, Some(Elements(mentions)))
  {
    sent := [];
    for i := 0 to |rows|
      invariant sent == NoticesFor(rows[..i], Mention, m, Some(Elements(mentions)))
    {
      assert rows[..i + 1][..i] == rows[..i];
      if rows[i].username in mentions && rows[i].user != m.sender {
        sent := sent + [Notice(rows[i].user, Mention, m.channel, m.id, m.sender)];
      }
    }
    assert rows[..|rows|] == rows;
  }

  /** Everyone is sent exactly the notices they deserve, each once. */
  method DispatchNotifications(u: Unicode, m: Message, c: Context) returns (sent: seq<Notice>)
    requires UniqueRows(c.members)
    ensures forall user, kind :: Count(sent, user, kind) == if Deserves(u, m, c, user, kind) then 1 else 0
    ensures forall n :: n in sent ==> n.channel == m.channel && n.message == m.id && n.actor == m.sender
  {
    hide Mentioned, Count, UniqueRows, Deserves, StrictlyAscending, NoticesFor;
    sent := [];
    if !c.isReply && c.isDirect {
      sent := NotifyPartners(c.members, m);
    }
    ghost var direct := sent;
    if c.isReply && c.parentAuthor.Some? && c.parentAuthor.value != m.sender {
      sent := sent + [Notice(c.parentAuthor.value, ThreadReply, m.channel, m.id, m.sender)];
    }
    ghost var replied := sent;
    assert replied == direct + ReplyNotices(c, m);
    var mentions := ExtractMentions(u, m.content);
    if mentions != [] {
      var more := NotifyMentioned(c.members, m, mentions);
      sent := sent + more;
    } else {
      assert Mentioned(u, m.content) == {};
      NobodyNamed(c.members, m);
    }
    Tally(u, m, c, direct, replied, sent);
  }

  lemma {:induction false} NobodyNamed(rows: seq<MemberRow>, m: Message)
    ensures NoticesFor(rows, Mention, m, Some({})) == []
  {
    if rows == [] {
    } else {
      NobodyNamed(rows[..|rows| - 1], m);
    }
  }

  lemma {:induction false} PayloadOf(rows: seq<MemberRow>, kind: Kind, m: Message, names: Option<set<string>>)
    ensures forall n :: n in NoticesFor(rows, kind, m, names) ==>
              n.channel == m.channel && n.message == m.id && n.actor == m.sender
  {
    if rows == [] {
    } else {
      PayloadOf(rows[..|rows| - 1], kind, m, names);
    }
  }

  lemma Tally(u: Unicode, m: Message, c: Context, direct: seq<Notice>, replied: seq<Notice>, sent: seq<Notice>)
    requires UniqueRows(c.members)
    requires direct == if !c.isReply && c.isDirect then NoticesFor(c.members, DirectMessage, m, None) else []
    requires replied == direct + ReplyNotices(c, m)
    requires sent == replied + NoticesFor(c.members, Mention, m, Some(Mentioned(u, m.content)))
    ensures forall user, kind :: Count(sent, user, kind) == if Deserves(u, m, c, user, kind) then 1 else 0
    ensures forall n :: n in sent ==> n.channel == m.channel && n.message == m.id && n.actor == m.sender
  {
    hide Mentioned, UniqueRows, NoticesFor, Count, Deserves, Passes;
    var names := Some(Mentioned(u, m.content));
    PayloadOf(c.members, DirectMessage, m, None);
    PayloadOf(c.members, Mention, m, names);
    forall user, kind ensures Count(sent, user, kind) == if Deserves(u, m, c, user, kind) then 1 else 0 {
      CountJoin(replied, NoticesFor(c.members, Mention, m, names), user, kind);
      CountReplied(u, m, c, direct, replied, user, kind);
      CountNotices(c.members, Mention, m, names, user, kind);
      DeservesOneWay(u, m, c, user, kind);
    }
  }

  predicate IsReplyNotice(c: Context, m: Message, user: UserId, kind: Kind) {
    c.isReply && c.parentAuthor == Some(user) && user != m.sender && kind == ThreadReply
  }

  lemma CountReply(c: Context, m: Message, user: UserId, kind: Kind)
    ensures Count(ReplyNotices(c, m), user, kind) == if IsReplyNotice(c, m, user, kind) then 1 else 0
  {
    if ReplyNotices(c, m) != [] {
      assert ReplyNotices(c, m)[..0] == [];
      NoCount(user, kind);
    }
  }

  lemma CountReplied(
    u: Unicode, m: Message, c: Context, direct: seq<Notice>, replied: seq<Notice>, user: UserId, kind: Kind)
    requires UniqueRows(c.members)
    requires direct == if !c.isReply && c.isDirect then NoticesFor(c.members, DirectMessage, m, None) else []
    requires replied == direct + ReplyNotices(c, m)
    ensures Count(replied, user, kind)
         == (if !c.isReply && c.isDirect && kind == DirectMessage && Passes(c.members, m, None, user) then 1 else 0)
          + (if IsReplyNotice(c, m, user, kind) then 1 else 0)
  {
    CountNotices(c.members, DirectMessage, m, None, user, kind);
    CountReply(c, m, user, kind);
    CountJoin(direct, ReplyNotices(c, m), user, kind);
    hide UniqueRows, NoticesFor, Passes, Count, ReplyNotices, IsReplyNotice;
    assert Count([], user, kind) == 0 by { NoCount(user, kind); }
  }

  /** The reasons to be notified exclude one another, kind by kind. */
  lemma DeservesOneWay(u: Unicode, m: Message, c: Context, user: UserId, kind: Kind)
    ensures (if Deserves(u, m, c, user, kind) then 1 else 0)
         == (if !c.isReply && c.isDirect && kind == DirectMessage && Passes(c.members, m, None, user) then 1 else 0)
          + (if IsReplyNotice(c, m, user, kind) then 1 else 0)
          + (if kind == Mention && Passes(c.members, m, Some(Mentioned(u, m.content)), user) then 1 else 0)
  {
    hide Mentioned, IsMember, IsMentioned;
  }

  /** A message notifies nobody of itself who sent it, nobody twice of one kind, and nobody both as
      the partner of a direct message and as the author it replies to. */
  lemma NoticesPerUser(u: Unicode, m: Message, c: Context, sent: seq<Notice>, user: UserId)
    requires forall w, kind :: Count(sent, w, kind) == if Deserves(u, m, c, w, kind) then 1 else 0
    ensures forall kind :: Count(sent, m.sender, kind) == 0
    ensures Count(sent, user, Mention) + Count(sent, user, DirectMessage) + Count(sent, user, ThreadReply) <= 2
  {
    assert Count(sent, user, DirectMessage) + Count(sent, user, ThreadReply) <= 1;
  }

  /** Case by case: in a direct channel a message that answers nothing is announced to each other member;
      an answer to the author of what it answers, if somebody else; and a mention to each other member
      whose name the text mentions. There is no other notice. */
  lemma NoticesByCase(u: Unicode, m: Message, c: Context, sent: seq<Notice>, user: UserId)
    requires forall w, kind :: Count(sent, w, kind) == if Deserves(u, m, c, w, kind) then 1 else 0
    ensures Count(sent, user, DirectMessage) == 1 <==>
              c.isDirect && !c.isReply && user != m.sender
              && exists i :: 0 <= i < |c.members| && c.members[i].user == user
    ensures Count(sent, user, ThreadReply) == 1 <==> c.isReply && user != m.sender && c.parentAuthor == Some(user)
    ensures Count(sent, user, Mention) == 1 <==>
              user != m.sender
              && exists i :: 0 <= i < |c.members| && c.members[i].user == user
                             && c.members[i].username in Mentioned(u, m.content)
    ensures Count(sent, user, ChannelInvite) == 0
  {
    hide Mentioned, Count;
    assert IsMember(c.members, user) <==> exists i :: 0 <= i < |c.members| && c.members[i].user == user;
    assert IsMentioned(c.members, Mentioned(u, m.content), user) <==>
      exists i :: 0 <= i < |c.members| && c.members[i].user == user
                  && c.members[i].username in Mentioned(u, m.content);
  }

  /** Each name reaches at most one user: there are no more mention notices than names. */
  lemma {:induction false} NoMoreNoticesThanNames(rows: seq<MemberRow>, m: Message, names: set<string>)
    requires UniqueRows(rows)
    ensures |NoticesFor(rows, Mention, m, Some(names))| <= |names|
  {
    if rows == [] {
    } else {
      var before, row := rows[..|rows| - 1], rows[|rows| - 1];
      NoMoreNoticesThanNames(before, m, names);
      if row.user != m.sender && row.username in names {
        WithoutTheName(before, m, names, row.username);
        NoMoreNoticesThanNames(before, m, names - {row.username});
      }
    }
  }

  lemma {:induction false} WithoutTheName(rows: seq<MemberRow>, m: Message, names: set<string>, name: string)
    requires forall i :: 0 <= i < |rows| ==> rows[i].username != name
    ensures NoticesFor(rows, Mention, m, Some(names - {name})) == NoticesFor(rows, Mention, m, Some(names))
  {
    if rows == [] {
    } else {
      WithoutTheName(rows[..|rows| - 1], m, names, name);
    }
  }
}
