/** Keyset pagination, on any set of rows with unique keys. Pages are described as SQL describes
    them, by order and limit; nothing is assumed of clocks or of the order in which rows appear. */
module Pagination {
  import opened Sequences
  import opened Wrappers

  /** A row's place in history: its time, with the id to break ties. */
  datatype Key = Key(time: nat, id: nat)

  predicate Less(a: Key, b: Key) { a.time < b.time || (a.time == b.time && a.id < b.id) }

  /** Limits asked for by clients are brought into 1..200. */
  function ClampedLimit(limit: int): (l: nat)
    ensures 1 <= l <= 200 && (1 <= limit <= 200 ==> l == limit)
    ensures (limit < 1 ==> l == 1) && (limit > 200 ==> l == 200)
  {
    if limit < 1 then 1 else if limit > 200 then 200 else limit
  }

  ghost predicate Descending(p: seq<Key>) { forall i, j :: 0 <= i < j < |p| ==> Less(p[j], p[i]) }

  predicate IsOlder(k: Key, before: Option<Key>) { before.Some? ==> Less(k, before.value) }

  /** `p` is the newest `limit` rows older than the cursor, newest first. */
  ghost predicate IsPage(p: seq<Key>, rows: set<Key>, before: Option<Key>, limit: nat) {
    && Descending(p) && |p| <= limit
    && (forall i :: 0 <= i < |p| ==> p[i] in rows && IsOlder(p[i], before))
    && forall k :: k in rows && IsOlder(k, before) && k !in p ==> |p| == limit && Beyond(k, p)
  }

  ghost predicate Beyond(k: Key, p: seq<Key>) { p != [] && Less(k, p[|p| - 1]) }

  lemma {:induction false} DistinctCount(p: seq<Key>)
    requires Descending(p)
    ensures |Elements(p)| == |p|
  {
    if p == [] {
    } else {
      var before, last := p[..|p| - 1], p[|p| - 1];
      DistinctCount(before);
      assert Elements(p) == Elements(before) + {last};
      assert last !in before;
    }
  }

  /** A set of rows has one descending order. */
  lemma {:induction false} DescendingIsUnique(p: seq<Key>, q: seq<Key>)
    requires Descending(p) && Descending(q) && Elements(p) == Elements(q)
    ensures p == q
  {
    DistinctCount(p);
    DistinctCount(q);
    if p == [] {
    } else {
      var n := |p| - 1;
      assert p[n] in Elements(p) && q[n] in Elements(q);
      assert p[n] == q[n];
      assert Elements(p[..n]) == Elements(p) - {p[n]};
      assert Elements(q[..n]) == Elements(q) - {q[n]};
      DescendingIsUnique(p[..n], q[..n]);
    }
  }

  /** The description of a page leaves no choice. */
  lemma PageIsDetermined(p: seq<Key>, q: seq<Key>, rows: set<Key>, before: Option<Key>, limit: nat)
    requires IsPage(p, rows, before, limit) && IsPage(q, rows, before, limit)
    ensures p == q
  {
    PageContains(p, q, rows, before, limit);
    PageContains(q, p, rows, before, limit);
    assert Elements(p) == Elements(q);
    DescendingIsUnique(p, q);
  }

  lemma PageContains(p: seq<Key>, q: seq<Key>, rows: set<Key>, before: Option<Key>, limit: nat)
    requires IsPage(p, rows, before, limit) && IsPage(q, rows, before, limit)
    ensures Elements(p) <= Elements(q)
  {
    forall i | 0 <= i < |p|
      ensures p[i] in q
    {
      if p[i] !in q {
        forall j | 0 <= j < |q| ensures q[j] in p {
          assert q[j] == q[|q| - 1] || Less(q[|q| - 1], q[j]);
        }
        DistinctCount(p);
        DistinctCount(q);
        assert p[i] in Elements(p) && p[i] !in Elements(q);
        MoreElements(Elements(q), Elements(p), p[i]);
      }
    }
  }

  lemma MoreElements(a: set<Key>, b: set<Key>, k: Key)
    requires a <= b && k in b && k !in a
    ensures |a| < |b|
  {
    assert b == (b - a) + a;
    assert k in b - a;
  }

  // ---- A walk from the newest page, each page asking for what precedes the one before.

  /** One request: the rows that exist when it is served, its limit, and the page it returns. */
  datatype Visit = Visit(rows: set<Key>, limit: nat, page: seq<Key>)

  /** The next cursor is the last row of a full page. */
  ghost function Cursor(vs: seq<Visit>, i: nat): Option<Key>
    requires i <= |vs|
  {
    if i == 0 || vs[i - 1].page == [] then None else Some(vs[i - 1].page[|vs[i - 1].page| - 1])
  }

  ghost predicate Serves(vs: seq<Visit>, i: nat)
    requires i < |vs|
  {
    vs[i].limit >= 1 && IsPage(vs[i].page, vs[i].rows, Cursor(vs, i), vs[i].limit)
  }

  /** A request follows a full page, and rows may have been added in between. */
  ghost predicate Follows(vs: seq<Visit>, i: nat)
    requires 0 < i < |vs|
  {
    |vs[i - 1].page| == vs[i - 1].limit && vs[i - 1].rows <= vs[i].rows
  }

  ghost predicate IsWalk(vs: seq<Visit>) {
    && (forall i :: 0 <= i < |vs| ==> Serves(vs, i))
    && (forall i :: 0 < i < |vs| ==> Follows(vs, i))
  }

  /** The last page was short, so no cursor was returned. */
  ghost predicate Completed(vs: seq<Visit>) {
    vs != [] && |vs[|vs| - 1].page| < vs[|vs| - 1].limit
  }

  function Flat(vs: seq<Visit>): seq<Key> {
    if vs == [] then [] else Flat(vs[..|vs| - 1]) + vs[|vs| - 1].page
  }

  lemma PrefixOfWalk(vs: seq<Visit>)
    requires IsWalk(vs) && vs != []
    ensures IsWalk(vs[..|vs| - 1])
  {
    hide IsPage;
    var us := vs[..|vs| - 1];
    forall i | 0 <= i < |us| ensures Serves(us, i) {
      assert Serves(vs, i) && Cursor(us, i) == Cursor(vs, i);
    }
    forall i | 0 < i < |us| ensures Follows(us, i) {
      assert Follows(vs, i);
    }
  }

  /** With writers at work between requests, the pages together still descend strictly: no message
      is repeated, and what comes later in the walk is older. */
  lemma {:induction false} WalkDescends(vs: seq<Visit>)
    requires IsWalk(vs)
    ensures Descending(Flat(vs))
    ensures vs != [] && vs[|vs| - 1].page != [] ==>
              Flat(vs) != [] && Flat(vs)[|Flat(vs)| - 1] == vs[|vs| - 1].page[|vs[|vs| - 1].page| - 1]
  {
    if vs == [] {
    } else {
      var us, n := vs[..|vs| - 1], |vs| - 1;
      PrefixOfWalk(vs);
      WalkDescends(us);
      FlatStep(vs);
      LastVisit(vs);
      hide Flat, IsWalk, IsPage;
      if us != [] {
        forall i | 0 <= i < |vs[n].page| ensures Beyond(vs[n].page[i], Flat(us)) {
          assert Beyond(vs[n].page[i], vs[n - 1].page);
        }
        Joins(Flat(us), vs[n].page);
      }
    }
  }

  lemma FlatStep(vs: seq<Visit>)
    requires vs != []
    ensures Flat(vs) == Flat(vs[..|vs| - 1]) + vs[|vs| - 1].page
    ensures |vs| == 1 ==> Flat(vs) == vs[0].page
  {
  }

  ghost predicate AllBeyond(q: seq<Key>, p: seq<Key>) { forall i :: 0 <= i < |q| ==> Beyond(q[i], p) }

  /** A later page lies below the last row of the full page before it. */
  lemma LastVisit(vs: seq<Visit>)
    requires IsWalk(vs) && vs != []
    ensures Descending(vs[|vs| - 1].page)
    ensures |vs| > 1 ==> vs[|vs| - 2].page != [] && AllBeyond(vs[|vs| - 1].page, vs[|vs| - 2].page)
  {
    var n := |vs| - 1;
    assert Serves(vs, n);
    if n > 0 { assert Follows(vs, n) && Serves(vs, n - 1); }
  }

  lemma Joins(p: seq<Key>, q: seq<Key>)
    requires Descending(p) && Descending(q)
    requires p != [] && AllBeyond(q, p)
    ensures Descending(p + q)
  {
    var r := p + q;
    forall i, j | 0 <= i < j < |r| ensures Less(r[j], r[i]) {
      if i < |p| <= j { assert Beyond(q[j - |p|], p); }
    }
  }

  /** What existed when the walk began is in the pages so far, or older than all of them. */
  lemma {:induction false} NothingIsSkipped(vs: seq<Visit>, k: Key)
    requires IsWalk(vs) && vs != [] && k in vs[0].rows
    ensures k in vs[|vs| - 1].rows
    ensures k in Flat(vs) || (!Completed(vs) && Beyond(k, vs[|vs| - 1].page))
  {
    var us, n := vs[..|vs| - 1], |vs| - 1;
    FlatStep(vs);
    assert Serves(vs, n);
    if n == 0 {
    } else {
      assert Follows(vs, n) && Serves(vs, n - 1);
      PrefixOfWalk(vs);
      NothingIsSkipped(us, k);
    }
  }

  /** A completed walk contains every row that existed when it began. */
  lemma CompletedWalkIsComplete(vs: seq<Visit>)
    requires IsWalk(vs) && Completed(vs)
    ensures vs[0].rows <= Elements(Flat(vs))
  {
    forall k | k in vs[0].rows ensures k in Flat(vs) {
      NothingIsSkipped(vs, k);
    }
  }

  // ---- How a walk ends.

  /** Rows that the first request did not see are newer than all it saw, as when writers only append. */
  ghost predicate OnlyNewer(vs: seq<Visit>) {
    forall i, k, r :: 0 <= i < |vs| && k in vs[i].rows && k !in vs[0].rows && r in vs[0].rows ==> Less(r, k)
  }

  ghost predicate SameLimit(vs: seq<Visit>, limit: nat) { forall i :: 0 <= i < |vs| ==> vs[i].limit == limit }

  /** Pages never show what was added after the walk began, for it is newer than every cursor. */
  lemma {:induction false} OnlyFirstRows(vs: seq<Visit>)
    requires IsWalk(vs) && OnlyNewer(vs) && vs != []
    ensures Elements(Flat(vs)) <= vs[0].rows && Elements(vs[|vs| - 1].page) <= vs[0].rows
  {
    var us, n := vs[..|vs| - 1], |vs| - 1;
    FlatStep(vs);
    assert Serves(vs, n);
    if n == 0 {
    } else {
      PrefixOfWalk(vs);
      assert OnlyNewer(us);
      OnlyFirstRows(us);
      LastVisit(vs);
      assert Follows(vs, n);
      var cursor := vs[n - 1].page[|vs[n - 1].page| - 1];
      assert cursor in Elements(vs[n - 1].page);
      forall i | 0 <= i < |vs[n].page| ensures vs[n].page[i] in vs[0].rows {
        assert Less(vs[n].page[i], cursor);
      }
    }
  }

  lemma {:induction false} FullPages(vs: seq<Visit>, limit: nat)
    requires IsWalk(vs) && SameLimit(vs, limit) && vs != []
    ensures |Flat(vs)| == (|vs| - 1) * limit + |vs[|vs| - 1].page|
    ensures |vs[|vs| - 1].page| <= limit
  {
    var us, n := vs[..|vs| - 1], |vs| - 1;
    FlatStep(vs);
    assert Serves(vs, n);
    if n == 0 {
    } else {
      PrefixOfWalk(vs);
      FullPages(us, limit);
      assert Follows(vs, n);
      assert (n - 1) * limit + limit == n * limit;
    }
  }

  /** Every page but the last has a row at least. */
  lemma {:induction false} PagesAdvance(vs: seq<Visit>)
    requires IsWalk(vs) && vs != []
    ensures |Flat(vs)| >= |vs| - 1 + |vs[|vs| - 1].page|
  {
    var n := |vs| - 1;
    FlatStep(vs);
    if n == 0 {
    } else {
      PrefixOfWalk(vs);
      PagesAdvance(vs[..n]);
      assert Follows(vs, n) && Serves(vs, n - 1);
    }
  }

  lemma FlatIsBounded(vs: seq<Visit>)
    requires IsWalk(vs) && OnlyNewer(vs) && vs != []
    ensures |Flat(vs)| <= |vs[0].rows|
  {
    hide IsWalk, OnlyNewer, Flat, Descending;
    OnlyFirstRows(vs);
    WalkDescends(vs);
    DistinctCount(Flat(vs));
    FewerElements(Elements(Flat(vs)), vs[0].rows);
  }

  lemma FewerElements(a: set<Key>, b: set<Key>)
    requires a <= b
    ensures |a| <= |b|
  {
    assert b == (b - a) + a;
  }

  /** Whatever limits it asks for, a walk makes no more requests than the rows it began with, and one. */
  lemma WalkIsBounded(vs: seq<Visit>)
    requires IsWalk(vs) && OnlyNewer(vs) && vs != []
    ensures |vs| <= |vs[0].rows| + 1
    ensures |vs| == |vs[0].rows| + 1 ==> Completed(vs)
  {
    FlatIsBounded(vs);
    PagesAdvance(vs);
    assert Serves(vs, |vs| - 1);
  }

  /** With one limit it ends after exactly one request more than the number of full pages that the
      rows it began with fill: not later, and not before. */
  lemma WalkEnds(vs: seq<Visit>, limit: nat)
    requires IsWalk(vs) && OnlyNewer(vs) && SameLimit(vs, limit) && vs != []
    ensures limit >= 1 && |vs| <= |vs[0].rows| / limit + 1
    ensures Completed(vs) <==> |vs| == |vs[0].rows| / limit + 1
  {
    hide IsWalk, Flat, OnlyNewer;
    LimitIsPositive(vs);
    FlatIsBounded(vs);
    FullPages(vs, limit);
    var q, r := |vs| - 1, |vs[|vs| - 1].page|;
    if Completed(vs) {
      CompletedWalkIsExact(vs);
      WalkDescends(vs);
      DistinctCount(Flat(vs));
      DivideExactly(q, limit, r);
    } else {
      assert q * limit + limit == (q + 1) * limit;
      AtMostQuotient(q + 1, limit, |vs[0].rows|);
    }
  }

  /** A completed walk lists exactly the rows it began with, whatever was added meanwhile. */
  lemma CompletedWalkIsExact(vs: seq<Visit>)
    requires IsWalk(vs) && OnlyNewer(vs) && Completed(vs)
    ensures Descending(Flat(vs)) && Elements(Flat(vs)) == vs[0].rows
  {
    WalkDescends(vs);
    CompletedWalkIsComplete(vs);
    OnlyFirstRows(vs);
  }

  lemma AtMostQuotient(q: nat, n: nat, x: nat)
    requires n >= 1 && q * n <= x
    ensures q <= x / n
  {
    var d := x / n;
    assert x < d * n + n && (d + 1) * n == d * n + n;
    if q > d { Scale(d + 1, q, n); }
  }

  lemma LimitIsPositive(vs: seq<Visit>)
    requires IsWalk(vs) && vs != []
    ensures vs[0].limit >= 1
  {
    assert Serves(vs, 0);
  }

  lemma DivideExactly(q: nat, n: nat, r: nat)
    requires r < n
    ensures (q * n + r) / n == q
  {
    var x := q * n + r;
    var q' := x / n;
    assert x == q' * n + x % n;
    if q' < q { assert (q' + 1) * n <= q * n by { Scale(q' + 1, q, n); } }
    if q < q' { assert (q + 1) * n <= q' * n by { Scale(q + 1, q', n); } }
  }

  lemma Scale(a: nat, b: nat, n: nat)
    requires a <= b
    ensures a * n <= b * n
  {
  }
}
