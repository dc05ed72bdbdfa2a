/** How a page of messages is enriched with its reactions, grouped by emoji
    (src/handlers/messages.rs). */
module ReactionGroups {
  import opened Ids
  import opened Sequences
  import opened Wrappers
  import opened Store
  import opened Reactions

  datatype Group = Group(emoji: Emoji, count: nat, userIds: seq<UserId>)

  /** Who reacted to a message with an emoji, in order. */
  function UsersOf(rows: seq<Reaction>, m: MessageId, e: Emoji): seq<UserId> {
    if rows == [] then []
    else
      var before, last := UsersOf(rows[..|rows| - 1], m, e), rows[|rows| - 1];
      if last.message == m && last.emoji == e then before + [last.user] else before
  }

  /** The emojis of a message, each once, in order of first use. */
  function Emojis(rows: seq<Reaction>, m: MessageId): (es: seq<Emoji>)
    ensures forall i, j :: 0 <= i < j < |es| ==> es[i] != es[j]
    ensures forall e :: e in es <==> UsersOf(rows, m, e) != []
  {
    if rows == [] then []
    else
      var before, last := Emojis(rows[..|rows| - 1], m), rows[|rows| - 1];
      if last.message == m && last.emoji !in before then before + [last.emoji] else before
  }

  function GroupOf(rows: seq<Reaction>, m: MessageId, e: Emoji): Group {
    Group(e, |UsersOf(rows, m, e)|, UsersOf(rows, m, e))
  }

  function Grouped(rows: seq<Reaction>, m: MessageId): seq<Group> {
    var es := Emojis(rows, m);
    seq(|es|, i requires 0 <= i < |es| => GroupOf(rows, m, es[i]))
  }

  /** The rows of one message, in order. */
  function RowsOf(rows: seq<Reaction>, m: MessageId): seq<Reaction> {
    if rows == [] then []
    else
      var before, last := RowsOf(rows[..|rows| - 1], m), rows[|rows| - 1];
      if last.message == m then before + [last] else before
  }

  /** Undoes the grouping. */
  function Flatten(m: MessageId, gs: seq<Group>): multiset<Reaction> {
    if gs == [] then multiset{}
    else Flatten(m, gs[..|gs| - 1]) + Named(m, gs[|gs| - 1].emoji, gs[|gs| - 1].userIds)
  }

  function Named(m: MessageId, e: Emoji, us: seq<UserId>): multiset<Reaction> {
    if us == [] then multiset{} else Named(m, e, us[..|us| - 1]) + multiset{Reaction(m, us[|us| - 1], e)}
  }

  function Find(gs: seq<Group>, e: Emoji): (r: Option<nat>)
    ensures r.Some? ==> r.value < |gs| && gs[r.value].emoji == e
    ensures r.None? ==> forall i :: 0 <= i < |gs| ==> gs[i].emoji != e
  {
    if gs == [] then None
    else if gs[|gs| - 1].emoji == e then Some(|gs| - 1)
    else Find(gs[..|gs| - 1], e)
  }

  // ---- What grouping gives.

  /** The groups are in order of first use: before its first use an emoji has no group, and the
      groups there were then come first. */
  lemma {:induction false} GroupsKeepTheirOrder(rows: seq<Reaction>, k: nat, m: MessageId)
    requires k <= |rows|
    ensures Emojis(rows[..k], m) <= Emojis(rows, m)
    decreases |rows|
  {
    if k < |rows| {
      GroupsKeepTheirOrder(rows[..|rows| - 1], k, m);
      assert rows[..|rows| - 1][..k] == rows[..k];
    } else {
      assert rows[..k] == rows;
    }
  }

  /** Within a group users are in order of reacting: those there were before come first. */
  lemma {:induction false} UsersKeepTheirOrder(rows: seq<Reaction>, k: nat, m: MessageId, e: Emoji)
    requires k <= |rows|
    ensures UsersOf(rows[..k], m, e) <= UsersOf(rows, m, e)
    decreases |rows|
  {
    if k < |rows| {
      UsersKeepTheirOrder(rows[..|rows| - 1], k, m, e);
      assert rows[..|rows| - 1][..k] == rows[..k];
    } else {
      assert rows[..k] == rows;
    }
  }

  /** What filing one row does to its message's groups. */
  function File(gs: seq<Group>, row: Reaction): seq<Group> {
    match Find(gs, row.emoji)
    case None => gs + [Group(row.emoji, 1, [row.user])]
    case Some(i) => gs[i := Group(gs[i].emoji, gs[i].count + 1, gs[i].userIds + [row.user])]
  }

  lemma UsersStep(rows: seq<Reaction>, row: Reaction, m: MessageId, e: Emoji)
    ensures UsersOf(rows + [row], m, e)
         == UsersOf(rows, m, e) + if row.message == m && row.emoji == e then [row.user] else []
  {
    assert (rows + [row])[..|rows|] == rows;
  }

  lemma EmojisStep(rows: seq<Reaction>, row: Reaction, m: MessageId)
    ensures Emojis(rows + [row], m)
         == Emojis(rows, m) + if row.message == m && row.emoji !in Emojis(rows, m) then [row.emoji] else []
  {
    assert (rows + [row])[..|rows|] == rows;
  }

  lemma SameGroup(rows: seq<Reaction>, row: Reaction, m: MessageId, e: Emoji)
    requires row.message != m || row.emoji != e
    ensures GroupOf(rows + [row], m, e) == GroupOf(rows, m, e)
  {
    UsersStep(rows, row, m, e);
  }

  /** Filing one more row changes one group. */
  lemma FileRow(rows: seq<Reaction>, row: Reaction, m: MessageId)
    ensures Grouped(rows + [row], m) == if row.message == m then File(Grouped(rows, m), row) else Grouped(rows, m)
  {
    hide UsersOf, Emojis, GroupOf, Find;
    var es, gs, e := Emojis(rows, m), Grouped(rows, m), row.emoji;
    EmojisStep(rows, row, m);
    forall i | 0 <= i < |es| && (row.message != m || es[i] != e)
      ensures GroupOf(rows + [row], m, es[i]) == gs[i]
    {
      SameGroup(rows, row, m, es[i]);
    }
    GroupFields(rows, m);
    if row.message == m {
      FileGroup(rows, row, m);
      var gs' := Grouped(rows + [row], m);
      match Find(gs, e)
      case None =>
        assert gs' == gs + [GroupOf(rows + [row], m, e)];
      case Some(i) =>
        assert es[i] == e;
        assert gs' == gs[i := GroupOf(rows + [row], m, e)];
    } else {
      assert Grouped(rows + [row], m) == gs;
    }
  }

  lemma GroupFields(rows: seq<Reaction>, m: MessageId)
    ensures forall i :: 0 <= i < |Emojis(rows, m)| ==> Grouped(rows, m)[i].emoji == Emojis(rows, m)[i]
  {
  }

  lemma FileGroup(rows: seq<Reaction>, row: Reaction, m: MessageId)
    requires row.message == m
    ensures var e, us := row.emoji, UsersOf(rows, m, row.emoji);
            && GroupOf(rows + [row], m, e) == Group(e, |us| + 1, us + [row.user])
            && GroupOf(rows, m, e) == Group(e, |us|, us)
            && (e !in Emojis(rows, m) ==> us == [] && GroupOf(rows + [row], m, e) == Group(e, 1, [row.user]))
  {
    UsersStep(rows, row, m, row.emoji);
    assert [] + [row.user] == [row.user];
  }

  lemma FlattenAppend(m: MessageId, gs: seq<Group>, g: Group)
    ensures Flatten(m, gs + [g]) == Flatten(m, gs) + Named(m, g.emoji, g.userIds)
  {
    assert (gs + [g])[..|gs|] == gs;
  }

  lemma NamedAppend(m: MessageId, e: Emoji, us: seq<UserId>, u: UserId)
    ensures Named(m, e, us + [u]) == Named(m, e, us) + multiset{Reaction(m, u, e)}
  {
    assert (us + [u])[..|us|] == us;
  }

  lemma {:induction false} FlattenUpdate(m: MessageId, gs: seq<Group>, i: nat, u: UserId)
    requires i < |gs|
    ensures Flatten(m, gs[i := Group(gs[i].emoji, gs[i].count + 1, gs[i].userIds + [u])])
         == Flatten(m, gs) + multiset{Reaction(m, u, gs[i].emoji)}
  {
    hide Flatten, Named;
    var g := Group(gs[i].emoji, gs[i].count + 1, gs[i].userIds + [u]);
    var n := |gs| - 1;
    assert gs == gs[..n] + [gs[n]];
    FlattenAppend(m, gs[..n], gs[n]);
    if i == n {
      assert gs[i := g] == gs[..n] + [g];
      FlattenAppend(m, gs[..n], g);
      NamedAppend(m, g.emoji, gs[i].userIds, u);
    } else {
      FlattenUpdate(m, gs[..n], i, u);
      assert gs[i := g] == gs[..n][i := g] + [gs[n]];
      FlattenAppend(m, gs[..n][i := g], gs[n]);
    }
  }

  lemma FlattenFile(m: MessageId, gs: seq<Group>, row: Reaction)
    requires row.message == m
    ensures Flatten(m, File(gs, row)) == Flatten(m, gs) + multiset{row}
  {
    hide Flatten;
    match Find(gs, row.emoji)
    case None =>
      FlattenAppend(m, gs, Group(row.emoji, 1, [row.user]));
      assert Named(m, row.emoji, [row.user][..0]) == multiset{};
    case Some(i) => FlattenUpdate(m, gs, i, row.user);
  }

  lemma RowsStep(rows: seq<Reaction>, row: Reaction, m: MessageId)
    ensures multiset(RowsOf(rows + [row], m))
         == multiset(RowsOf(rows, m)) + if row.message == m then multiset{row} else multiset{}
  {
    assert (rows + [row])[..|rows|] == rows;
  }

  lemma NothingGrouped(m: MessageId)
    ensures Flatten(m, Grouped([], m)) == multiset(RowsOf([], m)) == multiset{}
  {
  }

  /** Grouping loses nothing and invents nothing: flattened, the groups are the message's rows. */
  lemma {:induction false} GroupingConserves(rows: seq<Reaction>, m: MessageId)
    ensures Flatten(m, Grouped(rows, m)) == multiset(RowsOf(rows, m))
  {
    hide Grouped, File, Flatten, RowsOf;
    if rows == [] {
      NothingGrouped(m);
    } else {
      var before, row := rows[..|rows| - 1], rows[|rows| - 1];
      GroupingConserves(before, m);
      FileRow(before, row, m);
      RowsStep(before, row, m);
      assert before + [row] == rows;
      if row.message == m { FlattenFile(m, Grouped(before, m), row); }
    }
  }

  ghost predicate IsDistinct(us: seq<UserId>) { forall i, j :: 0 <= i < j < |us| ==> us[i] != us[j] }

  /** In a reachable state no group names a user twice: its count is a number of users. */
  lemma {:induction false} GroupsCountUsers(rows: seq<Reaction>, m: MessageId, e: Emoji)
    requires NoDuplicates(rows)
    ensures forall u :: u in UsersOf(rows, m, e) <==> Reaction(m, u, e) in rows
    ensures IsDistinct(UsersOf(rows, m, e))
  {
    if rows == [] {
    } else {
      var before, last := rows[..|rows| - 1], rows[|rows| - 1];
      GroupsCountUsers(before, m, e);
      assert last !in before;
      assert forall r :: r in rows <==> r in before || r == last;
    }
  }

  lemma UsersAreCounted(rows: seq<Reaction>, m: MessageId, e: Emoji)
    requires NoDuplicates(rows)
    ensures |Elements(UsersOf(rows, m, e))| == |UsersOf(rows, m, e)|
  {
    hide UsersOf;
    GroupsCountUsers(rows, m, e);
    DistinctCount(UsersOf(rows, m, e));
  }

  /** Each group shows its emoji, the users who reacted with it, and how many they are. */
  lemma GroupsShow(rows: seq<Reaction>, m: MessageId, i: nat)
    requires NoDuplicates(rows) && i < |Grouped(rows, m)|
    ensures var g := Grouped(rows, m)[i];
            && g.emoji == Emojis(rows, m)[i] && g.count == |g.userIds|
            && (forall u :: u in g.userIds <==> Reaction(m, u, g.emoji) in rows)
            && g.count == |Elements(g.userIds)|
  {
    hide UsersOf, Emojis;
    var us := UsersOf(rows, m, Emojis(rows, m)[i]);
    assert Grouped(rows, m)[i] == Group(Emojis(rows, m)[i], |us|, us);
    GroupsCountUsers(rows, m, Emojis(rows, m)[i]);
    UsersAreCounted(rows, m, Emojis(rows, m)[i]);
  }

  lemma {:induction false} DistinctCount(us: seq<UserId>)
    requires IsDistinct(us)
    ensures |Elements(us)| == |us|
  {
    if us == [] {
    } else {
      DistinctCount(us[..|us| - 1]);
      assert Elements(us) == Elements(us[..|us| - 1]) + {us[|us| - 1]};
      assert us[|us| - 1] !in us[..|us| - 1];
    }
  }

  // ---- The loops.

  function Lookup(groups: map<MessageId, seq<Group>>, m: MessageId): seq<Group> {
    if m in groups then groups[m] else []
  }

  /** The rows of any of the given messages, as the query returns them. */
  method SelectReactions(ids: seq<MessageId>, table: seq<Reaction>) returns (rows: seq<Reaction>)
    ensures forall m :: m in ids ==> Grouped(rows, m) == Grouped(table, m)
    ensures forall r :: r in rows ==> r.message in ids
  {
    hide Grouped, File;
    rows := [];
    for i := 0 to |table|
      invariant forall m :: m in ids ==> Grouped(rows, m) == Grouped(table[..i], m)
      invariant forall r :: r in rows ==> r.message in ids
    {
      ghost var kept := rows;
      assert table[..i + 1] == table[..i] + [table[i]];
      if table[i].message in ids {
        rows := rows + [table[i]];
      }
      forall m | m in ids ensures Grouped(rows, m) == Grouped(table[..i + 1], m) {
        FileRow(kept, table[i], m);
        FileRow(table[..i], table[i], m);
      }
    }
    assert table[..|table|] == table;
  }

  /** Files each row under its message and, within it, under its emoji. */
  method GroupReactions(rows: seq<Reaction>) returns (groups: map<MessageId, seq<Group>>)
    ensures forall m :: Lookup(groups, m) == Grouped(rows, m)
  {
    NoRows();
    hide Grouped;
    groups := map[];
    for i := 0 to |rows|
      invariant forall m :: Lookup(groups, m) == Grouped(rows[..i], m)
    {
      var row := rows[i];
      assert rows[..i + 1] == rows[..i] + [row];
      ghost var filed := groups;
      var gs := Lookup(groups, row.message);
      match Find(gs, row.emoji) {
        case Some(at) =>
          var g := gs[at];
          gs := gs[at := g.(count := g.count + 1, userIds := g.userIds + [row.user])];
        case None =>
          gs := gs + [Group(row.emoji, 1, [row.user])];
      }
      groups := groups[row.message := gs];
      forall m ensures Lookup(groups, m) == Grouped(rows[..i + 1], m) {
        FileRow(rows[..i], row, m);
        assert Lookup(filed, m) == Grouped(rows[..i], m);
      }
    }
    assert rows[..|rows|] == rows;
  }

  lemma NoRows()
    ensures forall m :: Grouped([], m) == []
  {
  }

  /** A message's groups, the first time the page lists it. */
  function ViewAt(ids: seq<MessageId>, table: seq<Reaction>, i: nat): seq<Group>
    requires i < |ids|
  {
    if ids[i] in ids[..i] then [] else Grouped(table, ids[i])
  }

  /** A page lists no message twice, so each message is shown with its groups. */
  lemma PageShowsAll(ids: seq<MessageId>, table: seq<Reaction>, i: nat)
    requires i < |ids| && forall j, k :: 0 <= j < k < |ids| ==> ids[j] != ids[k]
    ensures ViewAt(ids, table, i) == Grouped(table, ids[i])
  {
    hide Grouped;
  }

  /** What the map still holds for the message at `k` when those before `i` have been served. */
  function Left(ids: seq<MessageId>, table: seq<Reaction>, i: nat, k: nat): seq<Group>
    requires i <= |ids| && k < |ids|
  {
    if ids[k] in ids[..i] then [] else Grouped(table, ids[k])
  }

  lemma NothingTaken(groups: map<MessageId, seq<Group>>, ids: seq<MessageId>, rows: seq<Reaction>, table: seq<Reaction>)
    requires forall m :: Lookup(groups, m) == Grouped(rows, m)
    requires forall m :: m in ids ==> Grouped(rows, m) == Grouped(table, m)
    ensures forall k :: 0 <= k < |ids| ==> Lookup(groups, ids[k]) == Left(ids, table, 0, k)
  {
    hide Grouped, Lookup;
  }

  lemma TakeOut(groups: map<MessageId, seq<Group>>, ids: seq<MessageId>, table: seq<Reaction>, i: nat)
    requires i < |ids|
    requires forall k :: i <= k < |ids| ==> Lookup(groups, ids[k]) == Left(ids, table, i, k)
    ensures Lookup(groups, ids[i]) == ViewAt(ids, table, i)
    ensures forall k :: i < k < |ids| ==> Lookup(groups - {ids[i]}, ids[k]) == Left(ids, table, i + 1, k)
  {
    hide Grouped;
    assert ids[..i + 1] == ids[..i] + [ids[i]];
  }

  /** The groups for each message of a page, which are taken out of the map as they are used. */
  method Enrich(ids: seq<MessageId>, table: seq<Reaction>) returns (views: seq<seq<Group>>)
    ensures |views| == |ids|
    ensures forall i :: 0 <= i < |ids| ==> views[i] == ViewAt(ids, table, i)
  {
    hide Grouped, Lookup, ViewAt;
    var rows := SelectReactions(ids, table);
    var groups := GroupReactions(rows);
    views := [];
    NothingTaken(groups, ids, rows, table);
    for i := 0 to |ids|
      invariant |views| == i
      invariant forall k :: i <= k < |ids| ==> Lookup(groups, ids[k]) == Left(ids, table, i, k)
      invariant forall k :: 0 <= k < i ==> views[k] == ViewAt(ids, table, k)
    {
      TakeOut(groups, ids, table, i);
      views := views + [Lookup(groups, ids[i])];
      groups := groups - {ids[i]};
    }
  }
}
