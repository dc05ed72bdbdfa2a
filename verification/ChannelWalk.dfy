/** Listing a channel through the history endpoint and then opening every thread. */
module ChannelWalk {
  import opened Ids
  import opened Sequences
  import opened Store
  import P = Pagination
  import H = History
  import T = Traversal

  /** The positions of the messages that a list of keys names. */
  ghost function Positions(ms: seq<Message>, keys: seq<P.Key>): (list: seq<nat>)
    requires forall i :: 0 <= i < |keys| ==> Find(ms, keys[i].id).Some?
  {
    seq(|keys|, i requires 0 <= i < |keys| => Find(ms, keys[i].id).value)
  }

  /** The roots of `c` among the first `n` rows, each once. */
  ghost predicate ListsFirstRoots(ms: seq<Message>, n: nat, c: ChannelId, list: seq<nat>) {
    && (forall k: nat :: k in list <==> k < n && k < |ms| && H.IsRoot(ms[k], c))
    && forall s, t :: 0 <= s < t < |list| ==> list[s] != list[t]
  }

  /** The pages of a completed walk name each root that was there when it began, wherever the rows
      have since been changed or added to. */
  lemma KeysNameRoots(a: seq<Message>, b: seq<Message>, clock: Time, c: ChannelId, keys: seq<P.Key>)
    requires Extends(a, b) && Rows(b, clock) && P.Descending(keys) && Elements(keys) == H.RootKeys(a, c)
    ensures forall i :: 0 <= i < |keys| ==> Find(b, keys[i].id).Some?
    ensures ListsFirstRoots(b, |a|, c, Positions(b, keys))
  {
    forall i | 0 <= i < |keys|
      ensures var r := Find(b, keys[i].id);
              r.Some? && r.value < |a| && H.IsRoot(b[r.value], c) && H.KeyOf(b[r.value]) == keys[i]
    {
      assert keys[i] in Elements(keys);
      var k :| 0 <= k < |a| && H.IsRoot(a[k], c) && keys[i] == H.KeyOf(a[k]);
      UniqueFind(b, clock, k);
    }
    var list := Positions(b, keys);
    forall k: nat | k < |a| && H.IsRoot(b[k], c) ensures k in list {
      assert H.IsRoot(a[k], c) && H.KeyOf(a[k]) in Elements(keys);
      var i :| 0 <= i < |keys| && keys[i] == H.KeyOf(a[k]);
      UniqueFind(b, clock, k);
      assert list[i] == k;
    }
    forall s, t | 0 <= s < t < |list| ensures list[s] != list[t] {
      assert P.Less(keys[t], keys[s]);
    }
  }

  lemma FirstRootsAreUnrelated(ms: seq<Message>, n: nat, c: ChannelId, list: seq<nat>)
    requires ListsFirstRoots(ms, n, c, list)
    ensures T.Unrelated(ms, list)
  {
    assert forall t :: 0 <= t < |list| ==> list[t] in list;
  }

  /** Message `k` is in a thread, or a thread inside one, of a root of `c` among the first `n` rows. */
  ghost predicate InThreadOf(ms: seq<Message>, n: nat, c: ChannelId, k: nat)
    requires k < |ms|
  {
    exists r: nat :: r < n && r < |ms| && H.IsRoot(ms[r], c) && T.Descends(ms, k, r)
  }

  /** What that is: everything the channel had when the walk began, and later answers to it, but
      nothing of another channel. */
  lemma InThreadOfChannel(ms: seq<Message>, clock: Time, n: nat, c: ChannelId, k: nat)
    requires Rows(ms, clock) && k < |ms|
    ensures InThreadOf(ms, n, c, k) ==> ms[k].channel == c
    ensures k < n && ms[k].channel == c ==> InThreadOf(ms, n, c, k)
  {
    if InThreadOf(ms, n, c, k) {
      var r: nat :| r < n && r < |ms| && H.IsRoot(ms[r], c) && T.Descends(ms, k, r);
      T.DescendantSharesChannel(ms, clock, k, r);
    }
    if k < n && ms[k].channel == c {
      var r := T.SomeRoot(ms, clock, k);
      T.DescendantIsLater(ms, k, r);
    }
  }

  lemma CoveredByRoots(ms: seq<Message>, n: nat, c: ChannelId, list: seq<nat>, k: nat)
    requires ListsFirstRoots(ms, n, c, list) && k < |ms|
    ensures T.Covered(ms, list, k) <==> InThreadOf(ms, n, c, k)
  {
    hide T.Descends;
    if T.Covered(ms, list, k) {
      var t :| 0 <= t < |list| && T.Descends(ms, k, list[t]);
      assert list[t] in list;
    }
    if InThreadOf(ms, n, c, k) {
      var r: nat :| r < n && r < |ms| && H.IsRoot(ms[r], c) && T.Descends(ms, k, r);
      assert r in list;
    }
  }

  /** How often opening, at the end of the run, what a walk has listed visits message `k`. */
  ghost predicate Visited(ms: seq<Message>, keys: seq<P.Key>, k: nat, times: nat) {
    && T.AnswersComeLater(ms)
    && (forall i :: 0 <= i < |keys| ==> Find(ms, keys[i].id).Some?)
    && (forall t :: 0 <= t < |keys| ==> Positions(ms, keys)[t] < |ms|)
    && multiset(T.OpenAll(ms, Positions(ms, keys), 0))[k] == times
  }

  lemma OpeningRootsVisits(ms: seq<Message>, clock: Time, n: nat, c: ChannelId, list: seq<nat>, k: nat)
    requires Rows(ms, clock) && ListsFirstRoots(ms, n, c, list) && k < |ms|
    ensures T.AnswersComeLater(ms) && forall t :: 0 <= t < |list| ==> list[t] < |ms|
    ensures multiset(T.OpenAll(ms, list, 0))[k] == if InThreadOf(ms, n, c, k) then 1 else 0
  {
    hide Rows, T.OpenAll, T.Covered, T.Unrelated, InThreadOf;
    T.RowsAnswerLater(ms, clock);
    FirstRootsAreUnrelated(ms, n, c, list);
    assert forall t :: 0 <= t < |list| ==> list[t] in list;
    T.OpenAllVisitsOnce(ms, clock, list, 0, k);
    CoveredByRoots(ms, n, c, list, k);
  }

  lemma OpeningKeysVisits(a: seq<Message>, b: seq<Message>, clock: Time, c: ChannelId, keys: seq<P.Key>, k: nat)
    requires Extends(a, b) && Rows(b, clock) && P.Descending(keys) && Elements(keys) == H.RootKeys(a, c)
    requires k < |b|
    ensures Visited(b, keys, k, if InThreadOf(b, |a|, c, k) then 1 else 0)
  {
    hide Rows, Extends, P.Descending, H.RootKeys, ListsFirstRoots, InThreadOf, T.OpenAll, Elements;
    KeysNameRoots(a, b, clock, c, keys);
    OpeningRootsVisits(b, clock, |a|, c, Positions(b, keys), k);
  }

  lemma CompletedWalkVisits(ops: seq<Op>, c: ChannelId, reqs: seq<H.Request>, k: nat)
    requires LegalRun(ops) && H.Walks(ops, c, reqs) && P.Completed(H.Visits(ops, c, reqs))
    requires reqs != [] && k < |Run(ops).messages|
    ensures var ms, n := Run(ops).messages, |H.StoreAt(ops, reqs[0].at)|;
            Visited(ms, P.Flat(H.Visits(ops, c, reqs)), k, if InThreadOf(ms, n, c, k) then 1 else 0)
  {
    var st, at := Run(ops), reqs[0].at;
    assert at <= |ops|;
    hide LegalRun, Run, H.Walks, H.Visits, P.Completed, P.Flat, Rows, Extends;
    hide P.Descending, H.RootKeys, InThreadOf, Visited;
    H.HistoryWalkIsSound(ops, c, reqs);
    H.LaterStoreExtends(ops, at, |ops|);
    assert ops[..|ops|] == ops;
    RunKeepsInv(ops);
    OpeningKeysVisits(H.StoreAt(ops, at), st.messages, st.clock, c, P.Flat(H.Visits(ops, c, reqs)), k);
  }

  /** A client lists a channel by its cursors, at whatever times and with whatever limits while
      other handlers run, and then opens each thread, and the threads inside it. It is through
      after at most one request per root there was when it began, and one. By then it has visited,
      exactly once, every message the channel had when it began and every later answer in those
      threads, and no message of another channel. */
  lemma WalkThenThreadsVisitsAll(ops: seq<Op>, c: ChannelId, sched: seq<H.Request>) returns (m: nat)
    requires LegalRun(ops) && H.Timely(ops, sched) && sched != []
    requires |sched| > |H.RootKeys(H.StoreAt(ops, sched[0].at), c)|
    ensures 0 < m <= |H.RootKeys(H.StoreAt(ops, sched[0].at), c)| + 1 && m <= |sched|
    ensures H.Walks(ops, c, sched[..m]) && P.Completed(H.Visits(ops, c, sched[..m]))
    ensures var ms, n := Run(ops).messages, |H.StoreAt(ops, sched[0].at)|;
            forall k :: 0 <= k < |ms| ==>
              && Visited(ms, P.Flat(H.Visits(ops, c, sched[..m])), k, if InThreadOf(ms, n, c, k) then 1 else 0)
              && (k < n ==> (InThreadOf(ms, n, c, k) <==> ms[k].channel == c))
              && (ms[k].channel != c ==> !InThreadOf(ms, n, c, k))
  {
    hide LegalRun, Run, H.Walks, H.Visits, P.Completed, P.Flat, Rows;
    hide H.RootKeys, H.Timely, InThreadOf, Visited, H.StoreAt;
    m := H.EveryWalkEnds(ops, c, sched);
    RunKeepsInv(ops);
    forall k: nat | k < |Run(ops).messages|
      ensures var ms, n := Run(ops).messages, |H.StoreAt(ops, sched[0].at)|;
              && Visited(ms, P.Flat(H.Visits(ops, c, sched[..m])), k, if InThreadOf(ms, n, c, k) then 1 else 0)
              && (k < n ==> (InThreadOf(ms, n, c, k) <==> ms[k].channel == c))
              && (ms[k].channel != c ==> !InThreadOf(ms, n, c, k))
    {
      CompletedWalkVisits(ops, c, sched[..m], k);
      InThreadOfChannel(Run(ops).messages, Run(ops).clock, |H.StoreAt(ops, sched[0].at)|, c, k);
    }
  }
}
