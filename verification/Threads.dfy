/** Threads: the forest that `parent_id` forms, the denormalised reply counts, and a client's walk
    over a whole channel. Messages are named by their position in the store. */
module Threads {
  import opened Ids
  import opened Wrappers
  import opened Store

  /** The positions below `n` of the rows that answer message `id`, oldest first. */
  function Answers(ms: seq<Message>, id: MessageId, n: nat): (r: seq<nat>)
    requires n <= |ms|
    ensures forall k: nat :: k in r <==> k < n && ms[k].parent == Some(id)
    ensures forall t :: 0 <= t < |r| ==> r[t] < n && ms[r[t]].parent == Some(id)
    ensures forall a, b :: 0 <= a < b < |r| ==> r[a] < r[b]
  {
    if n == 0 then []
    else
      var r := Answers(ms, id, n - 1);
      if ms[n - 1].parent == Some(id) then r + [n - 1] else r
  }

  /** The thread endpoint: every reply to a message, deleted or not, in order of creation. */
  function Thread(ms: seq<Message>, id: MessageId): seq<nat> { Answers(ms, id, |ms|) }

  lemma {:induction false} AnswersAreReplies(ms: seq<Message>, id: MessageId, n: nat)
    requires n <= |ms|
    ensures |Answers(ms, id, n)| == Replies(ms[..n], id)
  {
    if n == 0 {
    } else {
      AnswersAreReplies(ms, id, n - 1);
      assert ms[..n][..n - 1] == ms[..n - 1];
    }
  }

  /** A message's reply count is the length of its thread, in every reachable store. */
  lemma ReplyCountIsThreadLength(ops: seq<Op>, i: nat)
    requires LegalRun(ops) && i < |Run(ops).messages|
    ensures var ms := Run(ops).messages; ms[i].replyCount == |Thread(ms, ms[i].id)|
  {
    hide LegalRun, Run;
    var ms := Run(ops).messages;
    RunKeepsInv(ops);
    AnswersAreReplies(ms, ms[i].id, |ms|);
    assert ms[..|ms|] == ms;
  }

  // ---- Conservation of replies.

  function Size(ms: seq<Message>, c: ChannelId): nat {
    if ms == [] then 0 else Size(ms[..|ms| - 1], c) + if ms[|ms| - 1].channel == c then 1 else 0
  }

  function RootCount(ms: seq<Message>, c: ChannelId): nat {
    if ms == [] then 0
    else
      var last := ms[|ms| - 1];
      RootCount(ms[..|ms| - 1], c) + if last.channel == c && last.parent.None? then 1 else 0
  }

  /** The sum of the reply counts stored in a channel's rows. */
  function ReplySum(ms: seq<Message>, c: ChannelId): nat {
    if ms == [] then 0
    else ReplySum(ms[..|ms| - 1], c) + if ms[|ms| - 1].channel == c then ms[|ms| - 1].replyCount else 0
  }

  /** The same sum with the counts taken from `all` instead of from the rows. */
  function CountedSum(rows: seq<Message>, all: seq<Message>, c: ChannelId): nat {
    if rows == [] then 0
    else
      var last := rows[|rows| - 1];
      CountedSum(rows[..|rows| - 1], all, c) + if last.channel == c then Replies(all, last.id) else 0
  }

  /** How many rows of the channel `parent` names. */
  function Named(rows: seq<Message>, parent: Option<MessageId>, c: ChannelId): nat {
    if rows == [] then 0
    else
      var last := rows[|rows| - 1];
      Named(rows[..|rows| - 1], parent, c) + if last.channel == c && parent == Some(last.id) then 1 else 0
  }

  lemma {:induction false} SumGrowsByNamed(rows: seq<Message>, all: seq<Message>, m: Message, c: ChannelId)
    ensures CountedSum(rows, all + [m], c) == CountedSum(rows, all, c) + Named(rows, m.parent, c)
  {
    hide Replies;
    if rows == [] {
    } else {
      SumGrowsByNamed(rows[..|rows| - 1], all, m, c);
      RepliesAppend(all, m, rows[|rows| - 1].id);
    }
  }

  lemma {:induction false} NamedOnce(rows: seq<Message>, parent: MessageId, channel: ChannelId, c: ChannelId)
    requires forall i, j :: 0 <= i < j < |rows| ==> rows[i].id != rows[j].id
    requires forall i :: 0 <= i < |rows| && rows[i].id == parent ==> rows[i].channel == channel
    ensures Named(rows, Some(parent), c)
         == if channel == c && (exists i :: 0 <= i < |rows| && rows[i].id == parent) then 1 else 0
  {
    if rows == [] {
    } else {
      var before := rows[..|rows| - 1];
      NamedOnce(before, parent, channel, c);
      if exists i :: 0 <= i < |before| && before[i].id == parent {
        var i :| 0 <= i < |before| && before[i].id == parent;
        assert rows[i].id == parent;
      }
    }
  }

  lemma {:induction false} NamedNobody(rows: seq<Message>, c: ChannelId)
    ensures Named(rows, None, c) == 0
  {
    if rows == [] {
    } else {
      NamedNobody(rows[..|rows| - 1], c);
    }
  }

  lemma PrefixOfRows(ms: seq<Message>, clock: Time, n: nat)
    requires Rows(ms, clock) && n <= |ms|
    ensures Rows(ms[..n], clock)
  {
    forall i | 0 <= i < n && ms[..n][i].parent.Some? ensures HasEarlier(ms[..n], i) {
      assert HasEarlier(ms, i);
      var p :| 0 <= p < i && ms[p].id == ms[i].parent.value && ms[p].channel == ms[i].channel;
      assert ms[..n][p] == ms[p];
    }
  }

  /** The last row has no answer. */
  lemma LastRowIsUnanswered(ms: seq<Message>, clock: Time)
    requires Rows(ms, clock) && ms != []
    ensures Replies(ms, ms[|ms| - 1].id) == 0
  {
    var before, m := ms[..|ms| - 1], ms[|ms| - 1];
    PrefixOfRows(ms, clock, |before|);
    NoAnswer(before, m.id);
    RepliesAppend(before, m, m.id);
    assert before + [m] == ms;
  }

  /** It adds one answer to its parent's count, in its own channel. */
  lemma LastRowAnswersItsParent(ms: seq<Message>, clock: Time, c: ChannelId)
    requires Rows(ms, clock) && ms != []
    ensures var m := ms[|ms| - 1];
            Named(ms[..|ms| - 1], m.parent, c) == if m.channel == c && m.parent.Some? then 1 else 0
  {
    hide Named, Replies;
    var before, m := ms[..|ms| - 1], ms[|ms| - 1];
    PrefixOfRows(ms, clock, |before|);
    if m.parent.Some? {
      assert HasEarlier(ms, |before|);
      var p :| 0 <= p < |before| && ms[p].id == m.parent.value && ms[p].channel == m.channel;
      assert before[p].id == m.parent.value;
      NamedOnce(before, m.parent.value, m.channel, c);
    } else {
      NamedNobody(before, c);
    }
  }

  lemma {:induction false} SizeIsRootsPlusReplies(ms: seq<Message>, clock: Time, c: ChannelId)
    requires Rows(ms, clock)
    ensures Size(ms, c) == RootCount(ms, c) + CountedSum(ms, ms, c)
  {
    hide Rows, Replies, Named;
    if ms == [] {
    } else {
      var before, m := ms[..|ms| - 1], ms[|ms| - 1];
      PrefixOfRows(ms, clock, |before|);
      SizeIsRootsPlusReplies(before, clock, c);
      SumGrowsByNamed(before, before, m, c);
      LastRowIsUnanswered(ms, clock);
      LastRowAnswersItsParent(ms, clock, c);
      assert before + [m] == ms;
    }
  }

  lemma {:induction false} StoredSumIsCounted(rows: seq<Message>, all: seq<Message>, c: ChannelId)
    requires forall i :: 0 <= i < |rows| ==> rows[i].replyCount == Replies(all, rows[i].id)
    ensures ReplySum(rows, c) == CountedSum(rows, all, c)
  {
    if rows == [] {
    } else {
      StoredSumIsCounted(rows[..|rows| - 1], all, c);
    }
  }

  /** In every reachable store, a channel's messages are its roots and its counted replies. */
  lemma RepliesAreConserved(ops: seq<Op>, c: ChannelId)
    requires LegalRun(ops)
    ensures var ms := Run(ops).messages; Size(ms, c) == RootCount(ms, c) + ReplySum(ms, c)
  {
    hide LegalRun, Run, Size, RootCount, ReplySum, CountedSum, Replies;
    var st := Run(ops);
    RunKeepsInv(ops);
    SizeIsRootsPlusReplies(st.messages, st.clock, c);
    StoredSumIsCounted(st.messages, st.messages, c);
  }
}
