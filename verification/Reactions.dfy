/** Emoji reactions: the rows, the events that announce their changes, and clients that follow them.

    A reaction step runs against the message store as other handlers have left it. */
module Reactions {
  import opened Ids
  import opened Sequences
  import opened Wrappers
  import opened Store
  import S = Store

  type Emoji = string

  datatype Reaction = Reaction(message: MessageId, user: UserId, emoji: Emoji)

  datatype Event = Added(channel: ChannelId, r: Reaction) | Removed(channel: ChannelId, r: Reaction)

  /** `rows` are in order of creation; `emitted` is what has been handed to the event bus. */
  datatype System = System(store: Store, rows: seq<Reaction>, emitted: seq<Event>)

  datatype Step =
    | Other(op: Op)
    | Add(r: Reaction)
    | Remove(r: Reaction)

  const START := System(EMPTY, [], [])

  /** Only members of its channel may react to a message that exists and is not deleted. */
  function Guard(st: Store, r: Reaction): Outcome {
    var row := Find(st.messages, r.message);
    if row.None? || st.messages[row.value].deletedAt.Some? then NotFound
    else if (st.messages[row.value].channel, r.user) !in st.cursors then Forbidden
    else Done
  }

  function ChannelOf(ms: seq<Message>, id: MessageId): Option<ChannelId> {
    var row := Find(ms, id);
    if row.None? then None else Some(ms[row.value].channel)
  }

  function Without(rows: seq<Reaction>, r: Reaction): (left: seq<Reaction>)
    ensures forall x :: x in left <==> x in rows && x != r
  {
    if rows == [] then []
    else
      var before, last := Without(rows[..|rows| - 1], r), rows[|rows| - 1];
      assert forall x :: x in rows <==> x in rows[..|rows| - 1] || x == last;
      if last == r then before else before + [last]
  }

  /** Rows are inserted unless already present; an event is emitted only if a row was affected. */
  function Take(s: System, step: Step): System {
    match step
    case Other(op) => s.(store := S.Next(s.store, op))
    case Add(r) =>
      if Guard(s.store, r) != Done || r in s.rows then s
      else s.(rows := s.rows + [r], emitted := s.emitted + [Added(ChannelOf(s.store.messages, r.message).value, r)])
    case Remove(r) =>
      if Guard(s.store, r) != Done || r !in s.rows then s
      else s.(rows := Without(s.rows, r),
              emitted := s.emitted + [Removed(ChannelOf(s.store.messages, r.message).value, r)])
  }

  function Reach(steps: seq<Step>): System {
    if steps == [] then START else Take(Reach(steps[..|steps| - 1]), steps[|steps| - 1])
  }

  predicate LegalSteps(steps: seq<Step>) {
    steps == []
    || (var last := steps[|steps| - 1];
        LegalSteps(steps[..|steps| - 1]) && (last.Other? ==> Legal(Reach(steps[..|steps| - 1]).store, last.op)))
  }

  // ---- Invariants.

  ghost predicate NoDuplicates(rows: seq<Reaction>) { forall i, j :: 0 <= i < j < |rows| ==> rows[i] != rows[j] }

  /** Every reaction, and every reaction announced, belongs to a stored message; the event names
      that message's channel. */
  ghost predicate Rooted(s: System) {
    && (forall r :: r in s.rows ==> ChannelOf(s.store.messages, r.message).Some?)
    && forall e :: e in s.emitted ==> ChannelOf(s.store.messages, e.r.message) == Some(e.channel)
  }

  ghost predicate SystemInv(s: System) { Inv(s.store) && NoDuplicates(s.rows) && Rooted(s) }

  lemma {:induction false} WithoutKeepsDistinct(rows: seq<Reaction>, r: Reaction)
    requires NoDuplicates(rows)
    ensures NoDuplicates(Without(rows, r))
  {
    if rows == [] {
    } else {
      var before, n := rows[..|rows| - 1], |rows| - 1;
      WithoutKeepsDistinct(before, r);
      forall i | 0 <= i < |Without(before, r)| ensures Without(before, r)[i] != rows[n] {
        assert Without(before, r)[i] in before;
      }
    }
  }

  /** A message's channel, once it is stored, is the same in every later store. */
  lemma ChannelIsFixed(a: seq<Message>, b: seq<Message>, clock: Time, id: MessageId)
    requires Extends(a, b) && Rows(b, clock) && ChannelOf(a, id).Some?
    ensures ChannelOf(b, id) == ChannelOf(a, id)
  {
    UniqueFind(b, clock, Find(a, id).value);
  }

  lemma ReactionStepKeepsInv(s: System, step: Step)
    requires SystemInv(s) && (step.Other? ==> Legal(s.store, step.op))
    ensures SystemInv(Take(s, step))
    ensures Extends(s.store.messages, Take(s, step).store.messages)
    ensures s.emitted <= Take(s, step).emitted
  {
    hide Inv, Extends, S.Next, Legal, Find;
    match step
    case Other(op) =>
      StepKeepsInv(s.store, op);
      OtherKeepsRooted(s, op);
    case Add(r) => ExtendsItself(s.store.messages);
    case Remove(r) =>
      ExtendsItself(s.store.messages);
      WithoutKeepsDistinct(s.rows, r);
  }

  lemma OtherKeepsRooted(s: System, op: Op)
    requires SystemInv(s) && Legal(s.store, op)
    ensures Rooted(Take(s, Other(op)))
  {
    StepKeepsInv(s.store, op);
    hide Extends, Rows, S.Next, Find, CountsReplies, DeletedAreBlank, ChannelOf;
    var ms, st' := s.store.messages, S.Next(s.store, op);
    forall id | ChannelOf(ms, id).Some? ensures ChannelOf(st'.messages, id) == ChannelOf(ms, id) {
      ChannelIsFixed(ms, st'.messages, st'.clock, id);
    }
  }

  /** In every reachable state a user has reacted to a message with an emoji at most once. */
  lemma {:induction false} RunKeepsSystemInv(steps: seq<Step>)
    requires LegalSteps(steps)
    ensures SystemInv(Reach(steps))
  {
    if steps != [] {
      hide Take, Legal, SystemInv;
      RunKeepsSystemInv(steps[..|steps| - 1]);
      ReactionStepKeepsInv(Reach(steps[..|steps| - 1]), steps[|steps| - 1]);
    } else {
      StartInv();
    }
  }

  lemma StartInv()
    ensures SystemInv(START)
  {
  }

  // ---- Following the events.

  function Apply(known: set<Reaction>, e: Event): set<Reaction> {
    if e.Added? then known + {e.r} else known - {e.r}
  }

  function Replay(known: set<Reaction>, events: seq<Event>): set<Reaction> {
    if events == [] then known else Apply(Replay(known, events[..|events| - 1]), events[|events| - 1])
  }

  /** The events a subscriber of one channel sees. */
  function ForChannel(events: seq<Event>, c: ChannelId): seq<Event> {
    if events == [] then []
    else
      var before, last := ForChannel(events[..|events| - 1], c), events[|events| - 1];
      if last.channel == c then before + [last] else before
  }

  /** The reactions to messages of one channel. */
  ghost function OfChannel(s: System, c: ChannelId): set<Reaction> {
    set r | r in s.rows && ChannelOf(s.store.messages, r.message) == Some(c)
  }

  /** What was emitted since an earlier state. */
  function Since(later: System, earlier: System): seq<Event>
    requires |earlier.emitted| <= |later.emitted|
  {
    later.emitted[|earlier.emitted|..]
  }

  lemma StepIsReplayed(s: System, step: Step, c: ChannelId)
    requires SystemInv(s) && (step.Other? ==> Legal(s.store, step.op))
    ensures var s' := Take(s, step);
            && s.emitted <= s'.emitted
            && OfChannel(s', c) == Replay(OfChannel(s, c), ForChannel(Since(s', s), c))
  {
    hide Inv, Extends, S.Next, Legal, Find, NoDuplicates, Guard, ChannelOf;
    var s' := Take(s, step);
    ReactionStepKeepsInv(s, step);
    OneEvent(OfChannel(s, c), Since(s', s), c);
    match step
    case Other(op) =>
      forall r | r in s.rows ensures ChannelOf(s'.store.messages, r.message) == ChannelOf(s.store.messages, r.message) {
        StepKeepsChannel(s, op, r.message);
      }
    case Add(r) => GuardedHasChannel(s.store, r);
    case Remove(r) => GuardedHasChannel(s.store, r);
  }

  lemma GuardedHasChannel(st: Store, r: Reaction)
    ensures Guard(st, r) == Done ==> ChannelOf(st.messages, r.message).Some?
  {
  }

  lemma StepKeepsChannel(s: System, op: Op, id: MessageId)
    requires SystemInv(s) && Legal(s.store, op) && ChannelOf(s.store.messages, id).Some?
    ensures ChannelOf(S.Next(s.store, op).messages, id) == ChannelOf(s.store.messages, id)
  {
    StepKeepsInv(s.store, op);
    hide Extends, Rows, S.Next, Find, CountsReplies, DeletedAreBlank, ChannelOf, Rooted, NoDuplicates;
    ChannelIsFixed(s.store.messages, S.Next(s.store, op).messages, S.Next(s.store, op).clock, id);
  }

  lemma OneEvent(known: set<Reaction>, events: seq<Event>, c: ChannelId)
    requires |events| <= 1
    ensures events == [] ==> Replay(known, ForChannel(events, c)) == known
    ensures events != [] && events[0].channel == c ==> Replay(known, ForChannel(events, c)) == Apply(known, events[0])
    ensures events != [] && events[0].channel != c ==> Replay(known, ForChannel(events, c)) == known
  {
    if events != [] { assert events[..0] == []; }
  }

  lemma {:induction false} ForChannelJoins(a: seq<Event>, b: seq<Event>, c: ChannelId)
    ensures ForChannel(a + b, c) == ForChannel(a, c) + ForChannel(b, c)
  {
    if b == [] {
      assert a + b == a;
    } else {
      assert (a + b)[..|a + b| - 1] == a + b[..|b| - 1];
      ForChannelJoins(a, b[..|b| - 1], c);
    }
  }

  lemma {:induction false} ReplayJoins(known: set<Reaction>, a: seq<Event>, b: seq<Event>)
    ensures Replay(known, a + b) == Replay(Replay(known, a), b)
  {
    if b == [] {
      assert a + b == a;
    } else {
      assert (a + b)[..|a + b| - 1] == a + b[..|b| - 1];
      ReplayJoins(known, a, b[..|b| - 1]);
    }
  }

  /** A client that knows a channel's reactions at any earlier state, and applies the channel's
      events emitted since, knows exactly the channel's reactions now. */
  lemma {:induction false} FollowerIsCurrent(steps: seq<Step>, k: nat, c: ChannelId)
    requires LegalSteps(steps) && k <= |steps|
    ensures var past, now := Reach(steps[..k]), Reach(steps);
            && past.emitted <= now.emitted
            && OfChannel(now, c) == Replay(OfChannel(past, c), ForChannel(Since(now, past), c))
    decreases |steps|
  {
    hide Take, Legal, SystemInv, OfChannel, Replay, ForChannel;
    if k == |steps| {
      assert steps[..k] == steps;
      NoEvents(OfChannel(Reach(steps), c), c);
    } else {
      var before, step := steps[..|steps| - 1], steps[|steps| - 1];
      var past, middle, now := Reach(steps[..k]), Reach(before), Reach(steps);
      assert before[..k] == steps[..k];
      FollowerIsCurrent(before, k, c);
      RunKeepsSystemInv(before);
      StepIsReplayed(middle, step, c);
      var a, b := Since(middle, past), Since(now, middle);
      assert Since(now, past) == a + b;
      ForChannelJoins(a, b, c);
      ReplayJoins(OfChannel(past, c), ForChannel(a, c), ForChannel(b, c));
    }
  }

  lemma NoEvents(known: set<Reaction>, c: ChannelId)
    ensures Replay(known, ForChannel([], c)) == known
  {
  }

  /** No event repeats what is known already: one adds what is absent or removes what is present. */
  lemma {:induction false} EveryEventIsNews(steps: seq<Step>, i: nat)
    requires LegalSteps(steps) && i < |Reach(steps).emitted|
    ensures var es := Reach(steps).emitted; es[i].Added? <==> es[i].r !in Replay({}, es[..i])
  {
    var before, step := steps[..|steps| - 1], steps[|steps| - 1];
    var s, s' := Reach(before), Reach(steps);
    RunKeepsSystemInv(before);
    ReactionStepKeepsInv(s, step);
    if i < |s.emitted| {
      EveryEventIsNews(before, i);
      assert s.emitted[..i] == s'.emitted[..i];
    } else {
      assert s'.emitted[..i] == s.emitted;
      ReplayFromStart(before);
    }
  }

  lemma {:induction false} ReplayFromStart(steps: seq<Step>)
    requires LegalSteps(steps)
    ensures Replay({}, Reach(steps).emitted) == Elements(Reach(steps).rows)
  {
    if steps == [] {
    } else {
      hide Take, Legal, Elements, Without;
      ReplayFromStart(steps[..|steps| - 1]);
      StepIsNews(Reach(steps[..|steps| - 1]), steps[|steps| - 1]);
    }
  }

  lemma StepIsNews(s: System, step: Step)
    requires Replay({}, s.emitted) == Elements(s.rows)
    ensures Replay({}, Take(s, step).emitted) == Elements(Take(s, step).rows)
  {
    var s' := Take(s, step);
    if |s'.emitted| > |s.emitted| { assert s'.emitted[..|s'.emitted| - 1] == s.emitted; }
  }

  // ---- The handlers.

  /** The reactions table and the handlers that change it. `store` holds the tables that they only
      read, and `emitted` what they have handed to the event bus. */
  class ReactionHandlers {
    var store: Store
    var rows: seq<Reaction>
    var emitted: seq<Event>

    ghost function Abs(): System
      reads this
    {
      System(store, rows, emitted)
    }

    constructor ()
      ensures Abs() == START
    {
      store, rows, emitted := EMPTY, [], [];
    }

    /** The channel of a message that is not deleted. */
    method MessageChannel(id: MessageId) returns (channel: Option<ChannelId>)
      ensures var row := Find(store.messages, id);
              channel ==
              if row.None? || store.messages[row.value].deletedAt.Some? then None else ChannelOf(store.messages, id)
    {
      var row := Find(store.messages, id);
      if row.None? || store.messages[row.value].deletedAt.Some? {
        return None;
      }
      return Some(store.messages[row.value].channel);
    }

    method AddReaction(message: MessageId, user: UserId, emoji: Emoji) returns (r: Outcome)
      modifies `rows, `emitted
      ensures Abs() == Take(old(Abs()), Add(Reaction(message, user, emoji)))
      ensures r == Guard(old(store), Reaction(message, user, emoji))
    {
      var channel := MessageChannel(message);
      if channel.None? {
        return NotFound;
      }
      if (channel.value, user) !in store.cursors {
        return Forbidden;
      }
      var row := Reaction(message, user, emoji);
      var rowsAffected := 0;
      if row !in rows {
        rows := rows + [row];
        rowsAffected := 1;
      }
      if rowsAffected > 0 {
        emitted := emitted + [Added(channel.value, row)];
      }
      r := Done;
    }

    method RemoveReaction(message: MessageId, user: UserId, emoji: Emoji) returns (r: Outcome)
      modifies `rows, `emitted
      ensures Abs() == Take(old(Abs()), Remove(Reaction(message, user, emoji)))
      ensures r == Guard(old(store), Reaction(message, user, emoji))
    {
      var channel := MessageChannel(message);
      if channel.None? {
        return NotFound;
      }
      if (channel.value, user) !in store.cursors {
        return Forbidden;
      }
      var row := Reaction(message, user, emoji);
      var rowsAffected := DeleteRows(row);
      if rowsAffected > 0 {
        emitted := emitted + [Removed(channel.value, row)];
      }
      r := Done;
    }

    /** Deletes the matching rows and counts them. */
    method DeleteRows(row: Reaction) returns (rowsAffected: nat)
      modifies `rows
      ensures rows == if row in old(rows) then Without(old(rows), row) else old(rows)
      ensures rowsAffected > 0 <==> row in old(rows)
    {
      hide Without;
      var left: seq<Reaction> := [];
      rowsAffected := 0;
      NothingToDelete(row);
      for i := 0 to |rows|
        invariant rows == old(rows)
        invariant left == Without(rows[..i], row)
        invariant rowsAffected > 0 <==> row in rows[..i]
        invariant rowsAffected == 0 ==> left == rows[..i]
      {
        DeleteOneMore(rows, i, row);
        if rows[i] == row {
          rowsAffected := rowsAffected + 1;
        } else {
          left := left + [rows[i]];
        }
      }
      assert rows[..|rows|] == rows;
      rows := left;
    }
  }

  lemma NothingToDelete(row: Reaction)
    ensures Without([], row) == []
  {
  }

  lemma DeleteOneMore(rows: seq<Reaction>, i: nat, row: Reaction)
    requires i < |rows|
    ensures rows[..i + 1] == rows[..i] + [rows[i]]
    ensures Without(rows[..i + 1], row) == Without(rows[..i], row) + if rows[i] == row then [] else [rows[i]]
  {
    assert rows[..i + 1][..i] == rows[..i];
  }
}
