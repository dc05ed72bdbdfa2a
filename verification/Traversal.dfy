/** A client that lists a channel's roots and then opens every thread, and every thread inside it. */
module Traversal {
  import opened Ids
  import opened Wrappers
  import opened Store
  import opened Threads

  /** Answers come after what they answer; reachable stores have this. */
  ghost predicate AnswersComeLater(ms: seq<Message>) {
    forall j, k :: 0 <= j < |ms| && 0 <= k < |ms| && ms[k].parent == Some(ms[j].id) ==> j < k
  }

  /** Opening message `i`: the message, then each of its replies opened in turn. */
  ghost function Open(ms: seq<Message>, i: nat): seq<nat>
    requires AnswersComeLater(ms) && i < |ms|
    decreases |ms| - i, 0, 0
  {
    [i] + OpenAll(ms, Thread(ms, ms[i].id), i + 1)
  }

  /** Opening every message of a list, none of which comes before position `from`. */
  ghost function OpenAll(ms: seq<Message>, list: seq<nat>, from: nat): seq<nat>
    requires AnswersComeLater(ms) && from <= |ms|
    requires forall t :: 0 <= t < |list| ==> from <= list[t] < |ms|
    decreases |ms| - from, 1, |list|
  {
    if list == [] then [] else Open(ms, list[0]) + OpenAll(ms, list[1..], from)
  }

  // ---- Ancestry.

  /** The position of a row's parent. */
  function ParentOf(ms: seq<Message>, k: nat): Option<nat>
    requires k < |ms|
  {
    if ms[k].parent.Some? then Find(ms, ms[k].parent.value) else None
  }

  /** `k` is `i` or an answer to an answer ... to `i`. */
  predicate Descends(ms: seq<Message>, k: nat, i: nat)
    requires k < |ms|
    decreases k
  {
    k == i || (ParentOf(ms, k).Some? && ParentOf(ms, k).value < k && Descends(ms, ParentOf(ms, k).value, i))
  }

  lemma RowsAnswerLater(ms: seq<Message>, clock: Time)
    requires Rows(ms, clock)
    ensures AnswersComeLater(ms)
  {
    forall j, k | 0 <= j < |ms| && 0 <= k < |ms| && ms[k].parent == Some(ms[j].id) ensures j < k {
      assert HasEarlier(ms, k);
    }
  }

  lemma ParentIsEarlier(ms: seq<Message>, clock: Time, k: nat)
    requires Rows(ms, clock) && k < |ms| && ms[k].parent.Some?
    ensures var p := ParentOf(ms, k); p.Some? && p.value < k && ms[p.value].channel == ms[k].channel
  {
    assert HasEarlier(ms, k);
    var p :| 0 <= p < k && ms[p].id == ms[k].parent.value && ms[p].channel == ms[k].channel;
    UniqueFind(ms, clock, p);
  }

  lemma {:induction false} DescendantIsLater(ms: seq<Message>, k: nat, i: nat)
    requires k < |ms| && Descends(ms, k, i)
    ensures i <= k
    decreases k
  {
    if k != i { DescendantIsLater(ms, ParentOf(ms, k).value, i); }
  }

  /** Two ancestors of one message are ancestors of one another. */
  lemma {:induction false} AncestorsAreAChain(ms: seq<Message>, k: nat, a: nat, b: nat)
    requires k < |ms| && Descends(ms, k, a) && Descends(ms, k, b)
    ensures a < |ms| && b < |ms| && (Descends(ms, a, b) || Descends(ms, b, a))
    decreases k
  {
    DescendantIsLater(ms, k, a);
    DescendantIsLater(ms, k, b);
    if k != a && k != b { AncestorsAreAChain(ms, ParentOf(ms, k).value, a, b); }
  }

  /** An answer's descendants descend from what it answers. */
  lemma {:induction false} ThroughAnswer(ms: seq<Message>, clock: Time, k: nat, c: nat, i: nat)
    requires Rows(ms, clock) && k < |ms| && c < |ms| && i < |ms|
    requires ms[c].parent == Some(ms[i].id) && Descends(ms, k, c)
    ensures Descends(ms, k, i)
    decreases k
  {
    if k == c {
      ParentIsEarlier(ms, clock, c);
      UniqueFind(ms, clock, i);
    } else {
      ThroughAnswer(ms, clock, ParentOf(ms, k).value, c, i);
    }
  }

  /** A proper descendant descends from one of the answers. */
  lemma {:induction false} SomeAnswer(ms: seq<Message>, clock: Time, k: nat, i: nat) returns (c: nat)
    requires Rows(ms, clock) && k < |ms| && i < |ms| && k != i && Descends(ms, k, i)
    ensures c < |ms| && ms[c].parent == Some(ms[i].id) && Descends(ms, k, c)
    decreases k
  {
    var p := ParentOf(ms, k).value;
    if p == i {
      c := k;
    } else {
      c := SomeAnswer(ms, clock, p, i);
    }
  }

  /** Every message descends from a root of its own channel. */
  lemma {:induction false} SomeRoot(ms: seq<Message>, clock: Time, k: nat) returns (r: nat)
    requires Rows(ms, clock) && k < |ms|
    ensures r < |ms| && ms[r].parent.None? && ms[r].channel == ms[k].channel && Descends(ms, k, r)
    decreases k
  {
    if ms[k].parent.None? {
      r := k;
    } else {
      ParentIsEarlier(ms, clock, k);
      r := SomeRoot(ms, clock, ParentOf(ms, k).value);
    }
  }

  lemma {:induction false} DescendantSharesChannel(ms: seq<Message>, clock: Time, k: nat, i: nat)
    requires Rows(ms, clock) && k < |ms| && i < |ms| && Descends(ms, k, i)
    ensures ms[k].channel == ms[i].channel
    decreases k
  {
    if k != i {
      ParentIsEarlier(ms, clock, k);
      DescendantSharesChannel(ms, clock, ParentOf(ms, k).value, i);
    }
  }

  // ---- Counting visits.

  /** No member of the list descends from another. */
  ghost predicate Unrelated(ms: seq<Message>, list: seq<nat>) {
    && (forall t :: 0 <= t < |list| ==> list[t] < |ms|)
    && forall s, t :: 0 <= s < |list| && 0 <= t < |list| && s != t ==> !Descends(ms, list[s], list[t])
  }

  ghost predicate Covered(ms: seq<Message>, list: seq<nat>, k: nat)
    requires k < |ms|
  {
    exists t :: 0 <= t < |list| && Descends(ms, k, list[t])
  }

  /** Opening `i` visits its descendants and itself, each once, and nothing else. */
  lemma {:induction false} OpenVisitsOnce(ms: seq<Message>, clock: Time, i: nat, k: nat)
    requires Rows(ms, clock) && AnswersComeLater(ms) && i < |ms| && k < |ms|
    ensures multiset(Open(ms, i))[k] == if Descends(ms, k, i) then 1 else 0
    decreases |ms| - i, 0, 0
  {
    hide Rows, Descends, OpenAll;
    var list := Thread(ms, ms[i].id);
    ThreadIsUnrelated(ms, clock, i);
    OpenAllVisitsOnce(ms, clock, list, i + 1, k);
    CoveredByThread(ms, clock, i, k);
  }

  lemma CoveredByThread(ms: seq<Message>, clock: Time, i: nat, k: nat)
    requires Rows(ms, clock) && AnswersComeLater(ms) && i < |ms| && k < |ms|
    ensures Covered(ms, Thread(ms, ms[i].id), k) <==> k != i && Descends(ms, k, i)
    ensures Descends(ms, i, i)
  {
    hide Rows;
    var list := Thread(ms, ms[i].id);
    if Covered(ms, list, k) {
      var t :| 0 <= t < |list| && Descends(ms, k, list[t]);
      ThroughAnswer(ms, clock, k, list[t], i);
      DescendantIsLater(ms, k, list[t]);
    }
    if k != i && Descends(ms, k, i) {
      var c := SomeAnswer(ms, clock, k, i);
      assert c in list;
    }
  }

  lemma ThreadIsUnrelated(ms: seq<Message>, clock: Time, i: nat)
    requires Rows(ms, clock) && AnswersComeLater(ms) && i < |ms|
    ensures Unrelated(ms, Thread(ms, ms[i].id))
  {
    hide Rows;
    var list := Thread(ms, ms[i].id);
    forall s, t | 0 <= s < |list| && 0 <= t < |list| && s != t
      ensures !Descends(ms, list[s], list[t])
    {
      assert list[s] != list[t];
      UniqueFind(ms, clock, i);
      if Descends(ms, list[s], list[t]) { DescendantIsLater(ms, i, list[t]); }
    }
  }

  lemma {:induction false} OpenAllVisitsOnce(ms: seq<Message>, clock: Time, list: seq<nat>, from: nat, k: nat)
    requires Rows(ms, clock) && AnswersComeLater(ms) && from <= |ms| && k < |ms|
    requires forall t :: 0 <= t < |list| ==> from <= list[t] < |ms|
    requires Unrelated(ms, list)
    ensures multiset(OpenAll(ms, list, from))[k] == if Covered(ms, list, k) then 1 else 0
    decreases |ms| - from, 1, |list|
  {
    hide Rows, Open, Descends;
    if list == [] {
    } else {
      OpenVisitsOnce(ms, clock, list[0], k);
      OpenAllVisitsOnce(ms, clock, list[1..], from, k);
      CoveredByHeadOrTail(ms, list, k);
    }
  }

  lemma CoveredByHeadOrTail(ms: seq<Message>, list: seq<nat>, k: nat)
    requires k < |ms| && list != [] && Unrelated(ms, list)
    ensures Covered(ms, list, k) <==> Descends(ms, k, list[0]) || Covered(ms, list[1..], k)
    ensures !(Descends(ms, k, list[0]) && Covered(ms, list[1..], k))
  {
    hide Descends;
    if Covered(ms, list[1..], k) {
      var t :| 0 <= t < |list[1..]| && Descends(ms, k, list[1..][t]);
      assert Descends(ms, k, list[t + 1]);
      if Descends(ms, k, list[0]) { AncestorsAreAChain(ms, k, list[0], list[t + 1]); }
    }
    if Covered(ms, list, k) && !Descends(ms, k, list[0]) {
      var t :| 0 <= t < |list| && Descends(ms, k, list[t]);
      assert list[1..][t - 1] == list[t];
    }
  }

  /** `list` is the roots of channel `c`, each once. */
  ghost predicate ListsRoots(ms: seq<Message>, c: ChannelId, list: seq<nat>) {
    && (forall k: nat :: k in list <==> k < |ms| && ms[k].channel == c && ms[k].parent.None?)
    && forall s, t :: 0 <= s < t < |list| ==> list[s] != list[t]
  }

  /** In every reachable store, opening a channel's roots, in whatever order they were listed,
      visits every message of that channel exactly once and no message of another. */
  lemma EveryMessageOnce(ops: seq<Op>, c: ChannelId, list: seq<nat>, k: nat)
    requires LegalRun(ops) && k < |Run(ops).messages| && ListsRoots(Run(ops).messages, c, list)
    ensures var ms := Run(ops).messages;
            && AnswersComeLater(ms)
            && (forall t :: 0 <= t < |list| ==> list[t] < |ms|)
            && multiset(OpenAll(ms, list, 0))[k] == if ms[k].channel == c then 1 else 0
  {
    hide LegalRun, Run, OpenAll, Rows;
    var st := Run(ops);
    var ms := st.messages;
    RunKeepsInv(ops);
    RowsAnswerLater(ms, st.clock);
    assert forall t :: 0 <= t < |list| ==> list[t] in list;
    RootsAreUnrelated(ms, c, list);
    OpenAllVisitsOnce(ms, st.clock, list, 0, k);
    if Covered(ms, list, k) {
      var t :| 0 <= t < |list| && Descends(ms, k, list[t]);
      DescendantSharesChannel(ms, st.clock, k, list[t]);
    }
    if ms[k].channel == c {
      var r := SomeRoot(ms, st.clock, k);
      assert r in list;
    }
  }

  lemma RootsAreUnrelated(ms: seq<Message>, c: ChannelId, list: seq<nat>)
    requires ListsRoots(ms, c, list)
    ensures Unrelated(ms, list)
  {
    assert forall t :: 0 <= t < |list| ==> list[t] in list;
  }
}
