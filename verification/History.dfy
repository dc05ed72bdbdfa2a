/** The history endpoint over the message store, and its walks while other handlers run. */
module History {
  import opened Ids
  import opened Sequences
  import opened Wrappers
  import opened Store
  import P = Pagination

  function KeyOf(m: Message): P.Key { P.Key(m.createdAt, m.id) }

  function Keys(page: seq<Message>): (keys: seq<P.Key>)
    ensures |keys| == |page|
  {
    seq(|page|, i requires 0 <= i < |page| => KeyOf(page[i]))
  }

  predicate IsRoot(m: Message, c: ChannelId) { m.channel == c && m.parent.None? }

  /** The keys of a channel's root messages, deleted ones included. */
  ghost function RootKeys(ms: seq<Message>, c: ChannelId): set<P.Key> {
    set i | 0 <= i < |ms| && IsRoot(ms[i], c) :: KeyOf(ms[i])
  }

  /** Newest first among the first `n` rows: at most `limit` roots older than the cursor. */
  function Scan(ms: seq<Message>, n: nat, c: ChannelId, before: Option<P.Key>, limit: nat): (page: seq<Message>)
    requires n <= |ms|
    ensures |page| <= limit
    ensures forall i :: 0 <= i < |page| ==> page[i] in ms[..n]
  {
    if n == 0 || limit == 0 then []
    else if IsRoot(ms[n - 1], c) && P.IsOlder(KeyOf(ms[n - 1]), before) then
      [ms[n - 1]] + Scan(ms, n - 1, c, before, limit - 1)
    else Scan(ms, n - 1, c, before, limit)
  }

  /** A cursor naming no message joins with no row, so it yields an empty page. */
  function HistoryPage(ms: seq<Message>, c: ChannelId, before: Option<MessageId>, limit: nat): seq<Message> {
    if before.None? then Scan(ms, |ms|, c, None, limit)
    else
      match Find(ms, before.value)
      case None => []
      case Some(i) => Scan(ms, |ms|, c, Some(KeyOf(ms[i])), limit)
  }

  /** Only a cursor that names a message, of whatever channel, gives anything. */
  lemma UnknownCursorIsEmpty(ms: seq<Message>, c: ChannelId, before: MessageId, limit: nat)
    requires forall i :: 0 <= i < |ms| ==> ms[i].id != before
    ensures HistoryPage(ms, c, Some(before), limit) == []
  {
  }

  function NextCursor(page: seq<Message>, limit: nat): Option<MessageId> {
    if |page| == limit && page != [] then Some(page[|page| - 1].id) else None
  }

  /** The scan returns the page that the query's ORDER BY and LIMIT describe. */
  lemma {:induction false} ScanIsPage(
    ms: seq<Message>, clock: Time, n: nat, c: ChannelId, before: Option<P.Key>, limit: nat)
    requires Rows(ms, clock) && n <= |ms| && limit >= 1
    ensures P.IsPage(Keys(Scan(ms, n, c, before, limit)), RootKeys(ms[..n], c), before, limit)
  {
    hide Rows, P.IsPage, RootKeys, Scan;
    ScanStep(ms, n, c, before, limit);
    if n == 0 {
      NoRoots(c, before, limit);
      assert ms[..0] == [];
    } else {
      var m := ms[n - 1];
      var k, rows := KeyOf(m), RootKeys(ms[..n - 1], c);
      RootKeysStep(ms, n, c);
      NewestKey(ms, clock, n, c);
      if IsRoot(m, c) && P.IsOlder(k, before) {
        if limit > 1 {
          ScanIsPage(ms, clock, n - 1, c, before, limit - 1);
          var rest := Scan(ms, n - 1, c, before, limit - 1);
          assert Keys([m] + rest) == [k] + Keys(rest);
          AddNewest(Keys(rest), rows, k, before, limit - 1);
        } else {
          assert [m] + [] == [m] && Keys([m]) == [k];
          OnlyNewest(rows, k, before);
        }
      } else {
        ScanIsPage(ms, clock, n - 1, c, before, limit);
        SkipNewest(Keys(Scan(ms, n - 1, c, before, limit)), rows, k, before, limit);
      }
    }
  }

  lemma ScanStep(ms: seq<Message>, n: nat, c: ChannelId, before: Option<P.Key>, limit: nat)
    requires n <= |ms|
    ensures n == 0 || limit == 0 ==> Scan(ms, n, c, before, limit) == []
    ensures n > 0 && limit > 0 && IsRoot(ms[n - 1], c) && P.IsOlder(KeyOf(ms[n - 1]), before) ==>
              Scan(ms, n, c, before, limit) == [ms[n - 1]] + Scan(ms, n - 1, c, before, limit - 1)
    ensures n > 0 && limit > 0 && !(IsRoot(ms[n - 1], c) && P.IsOlder(KeyOf(ms[n - 1]), before)) ==>
              Scan(ms, n, c, before, limit) == Scan(ms, n - 1, c, before, limit)
    ensures n > 0 ==> Scan(ms, n - 1, c, before, 0) == []
  {
  }

  lemma NoRoots(c: ChannelId, before: Option<P.Key>, limit: nat)
    ensures P.IsPage(Keys([]), RootKeys([], c), before, limit)
  {
  }

  ghost predicate AllOlder(rows: set<P.Key>, k: P.Key) { forall r :: r in rows ==> P.Less(r, k) }

  lemma RootKeysStep(ms: seq<Message>, n: nat, c: ChannelId)
    requires 0 < n <= |ms|
    ensures RootKeys(ms[..n], c)
         == RootKeys(ms[..n - 1], c) + if IsRoot(ms[n - 1], c) then {KeyOf(ms[n - 1])} else {}
  {
    var a, b := ms[..n], ms[..n - 1];
    forall k | k in RootKeys(a, c)
      ensures k in RootKeys(b, c) || (IsRoot(ms[n - 1], c) && k == KeyOf(ms[n - 1]))
    {
      var i :| 0 <= i < n && IsRoot(a[i], c) && k == KeyOf(a[i]);
      if i < n - 1 { assert b[i] == a[i]; }
    }
    forall k | k in RootKeys(b, c) ensures k in RootKeys(a, c) {
      var i :| 0 <= i < n - 1 && IsRoot(b[i], c) && k == KeyOf(b[i]);
      assert a[i] == b[i];
    }
    if IsRoot(ms[n - 1], c) { assert a[n - 1] == ms[n - 1]; }
  }

  lemma NewestKey(ms: seq<Message>, clock: Time, n: nat, c: ChannelId)
    requires Rows(ms, clock) && 0 < n <= |ms|
    ensures AllOlder(RootKeys(ms[..n - 1], c), KeyOf(ms[n - 1]))
  {
  }

  lemma AddNewest(p: seq<P.Key>, rows: set<P.Key>, k: P.Key, before: Option<P.Key>, limit: nat)
    requires limit >= 1 && P.IsPage(p, rows, before, limit) && P.IsOlder(k, before) && AllOlder(rows, k)
    ensures P.IsPage([k] + p, rows + {k}, before, limit + 1)
  {
    var q := [k] + p;
    assert q[0] == k && q[1..] == p;
    forall r | r in rows + {k} && P.IsOlder(r, before) && r !in q
      ensures |q| == limit + 1 && P.Beyond(r, q)
    {
      assert r in rows && r !in q[1..];
    }
  }

  lemma OnlyNewest(rows: set<P.Key>, k: P.Key, before: Option<P.Key>)
    requires P.IsOlder(k, before) && AllOlder(rows, k)
    ensures P.IsPage([k], rows + {k}, before, 1)
  {
  }

  lemma SkipNewest(p: seq<P.Key>, rows: set<P.Key>, k: P.Key, before: Option<P.Key>, limit: nat)
    requires P.IsPage(p, rows, before, limit)
    ensures !P.IsOlder(k, before) ==> P.IsPage(p, rows + {k}, before, limit)
    ensures rows + {} == rows
  {
  }

  // ---- Walks in a running system.

  /** A history request served after the first `at` steps of a run. */
  datatype Request = Request(at: nat, limit: int)

  ghost function StoreAt(ops: seq<Op>, at: nat): seq<Message> {
    if at <= |ops| then Run(ops[..at]).messages else []
  }

  /** The page of request `i`, whose cursor is what request `i - 1` returned. */
  ghost function PageAt(ops: seq<Op>, c: ChannelId, reqs: seq<Request>, i: nat): seq<Message>
    requires i < |reqs|
    decreases i, 1
  {
    HistoryPage(StoreAt(ops, reqs[i].at), c, CursorAt(ops, c, reqs, i), P.ClampedLimit(reqs[i].limit))
  }

  ghost function CursorAt(ops: seq<Op>, c: ChannelId, reqs: seq<Request>, i: nat): Option<MessageId>
    requires i <= |reqs|
    decreases i, 0
  {
    if i == 0 then None else NextCursor(PageAt(ops, c, reqs, i - 1), P.ClampedLimit(reqs[i - 1].limit))
  }

  /** The client asks on, later in the run, as long as it is given a cursor. */
  ghost predicate Walks(ops: seq<Op>, c: ChannelId, reqs: seq<Request>) {
    && (forall i :: 0 <= i < |reqs| ==> reqs[i].at <= |ops|)
    && (forall i, j :: 0 <= i < j < |reqs| ==> reqs[i].at <= reqs[j].at)
    && (forall i :: 0 < i < |reqs| ==> CursorAt(ops, c, reqs, i).Some?)
  }

  ghost function VisitAt(ops: seq<Op>, c: ChannelId, reqs: seq<Request>, i: nat): P.Visit
    requires i < |reqs|
  {
    P.Visit(RootKeys(StoreAt(ops, reqs[i].at), c), P.ClampedLimit(reqs[i].limit), Keys(PageAt(ops, c, reqs, i)))
  }

  ghost function Visits(ops: seq<Op>, c: ChannelId, reqs: seq<Request>): seq<P.Visit> {
    seq(|reqs|, i requires 0 <= i < |reqs| => VisitAt(ops, c, reqs, i))
  }

  lemma LaterStoreExtends(ops: seq<Op>, a: nat, b: nat)
    requires LegalRun(ops) && a <= b <= |ops|
    ensures Extends(StoreAt(ops, a), StoreAt(ops, b))
    ensures Rows(StoreAt(ops, b), Run(ops[..b]).clock)
  {
    hide Run, LegalRun, Extends, Rows;
    RowsAreAppendOnly(ops, b);
    RowsAreAppendOnly(ops[..b], a);
    RunKeepsInv(ops[..b]);
    assert ops[..b][..a] == ops[..a];
  }

  lemma RootKeysGrow(a: seq<Message>, b: seq<Message>, c: ChannelId)
    requires Extends(a, b)
    ensures RootKeys(a, c) <= RootKeys(b, c)
  {
    forall k | k in RootKeys(a, c) ensures k in RootKeys(b, c) {
      var i :| 0 <= i < |a| && IsRoot(a[i], c) && k == KeyOf(a[i]);
      assert IsRoot(b[i], c) && KeyOf(b[i]) == k;
    }
  }

  /** A row served earlier is still found later, under the same key. */
  lemma CursorIsFound(a: seq<Message>, b: seq<Message>, clock: Time, m: Message)
    requires Extends(a, b) && Rows(b, clock) && m in a
    ensures var r := Find(b, m.id); r.Some? && KeyOf(b[r.value]) == KeyOf(m)
  {
    var i :| 0 <= i < |a| && a[i] == m;
    UniqueFind(b, clock, i);
  }

  lemma PageComesFromStore(ms: seq<Message>, c: ChannelId, before: Option<MessageId>, limit: nat)
    ensures forall i :: 0 <= i < |HistoryPage(ms, c, before, limit)| ==> HistoryPage(ms, c, before, limit)[i] in ms
    ensures |HistoryPage(ms, c, before, limit)| <= limit
  {
    assert ms[..|ms|] == ms;
  }

  lemma ServesRequest(ops: seq<Op>, c: ChannelId, reqs: seq<Request>, i: nat)
    requires LegalRun(ops) && Walks(ops, c, reqs) && i < |reqs|
    ensures P.Serves(Visits(ops, c, reqs), i)
  {
    hide Run, LegalRun, Scan, Rows, Extends, RootKeys, P.IsPage, Find, P.ClampedLimit;
    var at, limit := reqs[i].at, P.ClampedLimit(reqs[i].limit);
    var ms, clock := StoreAt(ops, at), Run(ops[..at]).clock;
    LaterStoreExtends(ops, at, at);
    assert ms[..|ms|] == ms;
    if i == 0 {
      ScanIsPage(ms, clock, |ms|, c, None, limit);
    } else {
      var before := PageAt(ops, c, reqs, i - 1);
      assert CursorAt(ops, c, reqs, i).Some?;
      LaterStoreExtends(ops, reqs[i - 1].at, at);
      var earlier := StoreAt(ops, reqs[i - 1].at);
      PageComesFromStore(earlier, c, CursorAt(ops, c, reqs, i - 1), P.ClampedLimit(reqs[i - 1].limit));
      var last := before[|before| - 1];
      CursorIsFound(earlier, ms, clock, last);
      ScanIsPage(ms, clock, |ms|, c, Some(KeyOf(last)), limit);
    }
  }

  lemma FollowsRequest(ops: seq<Op>, c: ChannelId, reqs: seq<Request>, i: nat)
    requires LegalRun(ops) && Walks(ops, c, reqs) && 0 < i < |reqs|
    ensures P.Follows(Visits(ops, c, reqs), i)
  {
    hide Run, LegalRun, HistoryPage, Rows, Extends;
    assert CursorAt(ops, c, reqs, i).Some?;
    LaterStoreExtends(ops, reqs[i - 1].at, reqs[i].at);
    RootKeysGrow(StoreAt(ops, reqs[i - 1].at), StoreAt(ops, reqs[i].at), c);
  }

  /** Whatever handlers run between a client's history requests, its pages form a keyset walk. */
  lemma RequestsWalk(ops: seq<Op>, c: ChannelId, reqs: seq<Request>)
    requires LegalRun(ops) && Walks(ops, c, reqs)
    ensures P.IsWalk(Visits(ops, c, reqs))
  {
    hide LegalRun, Walks, VisitAt, P.Serves, P.Follows;
    var vs := Visits(ops, c, reqs);
    forall i | 0 <= i < |vs| ensures P.Serves(vs, i) { ServesRequest(ops, c, reqs, i); }
    forall i | 0 < i < |vs| ensures P.Follows(vs, i) { FollowsRequest(ops, c, reqs, i); }
  }

  /** A root that a later store adds is newer than every root there was. */
  lemma AddedRootsAreNewer(a: seq<Message>, b: seq<Message>, clock: Time, c: ChannelId, k: P.Key, r: P.Key)
    requires Extends(a, b) && Rows(b, clock)
    requires k in RootKeys(b, c) && k !in RootKeys(a, c) && r in RootKeys(a, c)
    ensures P.Less(r, k)
  {
    forall i | 0 <= i < |a| && IsRoot(b[i], c) ensures KeyOf(b[i]) in RootKeys(a, c) {
      assert SameKey(a[i], b[i]) && IsRoot(a[i], c);
    }
    var i :| 0 <= i < |b| && IsRoot(b[i], c) && k == KeyOf(b[i]);
    var j :| 0 <= j < |a| && IsRoot(a[j], c) && r == KeyOf(a[j]);
    assert SameKey(a[j], b[j]);
  }

  lemma VisitsOnlyNewer(ops: seq<Op>, c: ChannelId, reqs: seq<Request>)
    requires LegalRun(ops) && Walks(ops, c, reqs)
    ensures P.OnlyNewer(Visits(ops, c, reqs))
  {
    hide Run, LegalRun, Extends, Rows, RootKeys, PageAt;
    var vs := Visits(ops, c, reqs);
    forall i, k, r | 0 <= i < |vs| && k in vs[i].rows && k !in vs[0].rows && r in vs[0].rows ensures P.Less(r, k) {
      LaterStoreExtends(ops, reqs[0].at, reqs[i].at);
      AddedRootsAreNewer(StoreAt(ops, reqs[0].at), StoreAt(ops, reqs[i].at), Run(ops[..reqs[i].at]).clock, c, k, r);
    }
  }

  /** So, among arbitrary sends, edits, deletions and other requests, no message repeats, later pages
      are older, and a walk that ends has listed exactly the roots that existed when it began. */
  lemma HistoryWalkIsSound(ops: seq<Op>, c: ChannelId, reqs: seq<Request>)
    requires LegalRun(ops) && Walks(ops, c, reqs)
    ensures var vs := Visits(ops, c, reqs);
            && P.Descending(P.Flat(vs))
            && (P.Completed(vs) ==> Elements(P.Flat(vs)) == RootKeys(StoreAt(ops, reqs[0].at), c))
  {
    hide LegalRun, Walks, P.IsWalk, VisitAt, P.Flat, P.Descending, P.OnlyNewer;
    var vs := Visits(ops, c, reqs);
    RequestsWalk(ops, c, reqs);
    P.WalkDescends(vs);
    if P.Completed(vs) {
      VisitsOnlyNewer(ops, c, reqs);
      P.CompletedWalkIsExact(vs);
      FirstVisit(ops, c, reqs);
    }
  }

  lemma FirstVisit(ops: seq<Op>, c: ChannelId, reqs: seq<Request>)
    requires reqs != []
    ensures Visits(ops, c, reqs)[0].rows == RootKeys(StoreAt(ops, reqs[0].at), c)
  {
  }

  // ---- That walks end.

  /** The request times lie within the run and do not go back. */
  ghost predicate Timely(ops: seq<Op>, reqs: seq<Request>) {
    && (forall i :: 0 <= i < |reqs| ==> reqs[i].at <= |ops|)
    && forall i, j :: 0 <= i < j < |reqs| ==> reqs[i].at <= reqs[j].at
  }

  /** A page depends on the requests up to it only. */
  lemma {:induction false} SamePages(ops: seq<Op>, c: ChannelId, a: seq<Request>, b: seq<Request>, i: nat)
    requires i <= |a| && i <= |b| && a[..i] == b[..i]
    ensures CursorAt(ops, c, a, i) == CursorAt(ops, c, b, i)
    ensures i > 0 ==> PageAt(ops, c, a, i - 1) == PageAt(ops, c, b, i - 1)
  {
    hide HistoryPage, NextCursor;
    if i == 0 {
    } else {
      assert a[..i - 1] == a[..i][..i - 1] && b[..i - 1] == b[..i][..i - 1];
      assert a[i - 1] == a[..i][i - 1] && b[i - 1] == b[..i][i - 1];
      SamePages(ops, c, a, b, i - 1);
    }
  }

  /** The client is given a cursor for the next request if and only if the walk is not completed. */
  lemma CursorUnlessCompleted(ops: seq<Op>, c: ChannelId, reqs: seq<Request>)
    requires reqs != []
    ensures CursorAt(ops, c, reqs, |reqs|).Some? <==> !P.Completed(Visits(ops, c, reqs))
  {
    hide StoreAt, Run, Scan;
    var n := |reqs| - 1;
    PageComesFromStore(
      StoreAt(ops, reqs[n].at), c, CursorAt(ops, c, reqs, n), P.ClampedLimit(reqs[n].limit));
  }

  lemma WalkGoesOn(ops: seq<Op>, c: ChannelId, sched: seq<Request>, m: nat)
    requires Timely(ops, sched) && m < |sched| && Walks(ops, c, sched[..m])
    requires m > 0 ==> !P.Completed(Visits(ops, c, sched[..m]))
    ensures Walks(ops, c, sched[..m + 1])
  {
    hide P.Completed, Visits, CursorAt;
    var reqs, longer := sched[..m], sched[..m + 1];
    if m > 0 { CursorUnlessCompleted(ops, c, reqs); }
    forall i | 0 < i < |longer| ensures CursorAt(ops, c, longer, i).Some? {
      assert reqs[..i] == longer[..i];
      SamePages(ops, c, reqs, longer, i);
    }
  }

  lemma FirstRequestWalks(ops: seq<Op>, c: ChannelId, sched: seq<Request>)
    requires Timely(ops, sched) && sched != []
    ensures Walks(ops, c, sched[..1])
  {
  }

  /** The walk that follows a schedule of requests for as long as it is given cursors. */
  lemma Follow(ops: seq<Op>, c: ChannelId, sched: seq<Request>) returns (m: nat)
    requires Timely(ops, sched) && sched != []
    ensures 0 < m <= |sched| && Walks(ops, c, sched[..m])
    ensures m == |sched| || P.Completed(Visits(ops, c, sched[..m]))
  {
    hide Walks, Timely, P.Completed, Visits;
    FirstRequestWalks(ops, c, sched);
    m := 1;
    while m < |sched| && !P.Completed(Visits(ops, c, sched[..m]))
      invariant 0 < m <= |sched| && Walks(ops, c, sched[..m])
    {
      WalkGoesOn(ops, c, sched, m);
      m := m + 1;
    }
  }

  /** Whenever its requests are made, whatever their limits and whatever handlers run in between, a
      client that follows the cursors is through after at most one request per root there was when
      it began, and one. */
  lemma EveryWalkEnds(ops: seq<Op>, c: ChannelId, sched: seq<Request>) returns (m: nat)
    requires LegalRun(ops) && Timely(ops, sched) && sched != []
    requires |sched| > |RootKeys(StoreAt(ops, sched[0].at), c)|
    ensures 0 < m <= |RootKeys(StoreAt(ops, sched[0].at), c)| + 1
    ensures m <= |sched| && Walks(ops, c, sched[..m]) && P.Completed(Visits(ops, c, sched[..m]))
  {
    hide LegalRun, Walks, Timely, P.IsWalk, P.OnlyNewer, VisitAt, RootKeys;
    m := Follow(ops, c, sched);
    RequestsWalk(ops, c, sched[..m]);
    VisitsOnlyNewer(ops, c, sched[..m]);
    P.WalkIsBounded(Visits(ops, c, sched[..m]));
    FirstVisit(ops, c, sched[..m]);
  }

  /** With one limit a walk is completed after exactly n / limit + 1 requests, for the n roots there
      were when it began: neither before nor after, whatever handlers run in between. */
  lemma CompletedIffCounted(ops: seq<Op>, c: ChannelId, reqs: seq<Request>, limit: int)
    requires LegalRun(ops) && Walks(ops, c, reqs) && reqs != []
    requires forall i :: 0 <= i < |reqs| ==> reqs[i].limit == limit
    ensures var n := |RootKeys(StoreAt(ops, reqs[0].at), c)| / P.ClampedLimit(limit) + 1;
            |reqs| <= n && (P.Completed(Visits(ops, c, reqs)) <==> |reqs| == n)
  {
    hide LegalRun, Walks, P.IsWalk, P.OnlyNewer, PageAt, RootKeys;
    RequestsWalk(ops, c, reqs);
    VisitsOnlyNewer(ops, c, reqs);
    P.WalkEnds(Visits(ops, c, reqs), P.ClampedLimit(limit));
    FirstVisit(ops, c, reqs);
  }

  /** So every schedule of that many requests with one limit is a completed walk. */
  lemma SteadyScheduleCompletes(ops: seq<Op>, c: ChannelId, sched: seq<Request>, limit: int)
    requires LegalRun(ops) && Timely(ops, sched) && sched != []
    requires forall i :: 0 <= i < |sched| ==> sched[i].limit == limit
    requires |sched| == |RootKeys(StoreAt(ops, sched[0].at), c)| / P.ClampedLimit(limit) + 1
    ensures Walks(ops, c, sched) && P.Completed(Visits(ops, c, sched))
  {
    hide LegalRun, Walks, Timely, Visits, P.Completed, RootKeys, P.ClampedLimit;
    var m := Follow(ops, c, sched);
    CompletedIffCounted(ops, c, sched[..m], limit);
    assert sched[..m] == sched;
  }

  /** On a store that no writer changes, asking n / limit + 1 times with the cursors given lists
      all n roots, newest first, each once. */
  lemma QuietWalkListsAll(ops: seq<Op>, c: ChannelId, at: nat, limit: int) returns (reqs: seq<Request>)
    requires LegalRun(ops) && at <= |ops|
    ensures |reqs| == |RootKeys(StoreAt(ops, at), c)| / P.ClampedLimit(limit) + 1
    ensures forall i :: 0 <= i < |reqs| ==> reqs[i] == Request(at, limit)
    ensures var vs := Visits(ops, c, reqs);
            && Walks(ops, c, reqs) && P.Completed(vs)
            && P.Descending(P.Flat(vs)) && Elements(P.Flat(vs)) == RootKeys(StoreAt(ops, at), c)
  {
    hide LegalRun, Walks, Visits, P.Completed, P.Flat, P.Descending, RootKeys, P.ClampedLimit;
    reqs := seq(|RootKeys(StoreAt(ops, at), c)| / P.ClampedLimit(limit) + 1, _ => Request(at, limit));
    SteadyScheduleCompletes(ops, c, reqs, limit);
    HistoryWalkIsSound(ops, c, reqs);
  }
}
