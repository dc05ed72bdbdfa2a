/** The presence table when its writes are separate from the hub changes that cause them.

    A socket's handler changes its instance's hub, and only then, through a database connection that it
    awaits, writes the mark it was told to (src/ws/handler.rs:54-60 and 98-101). So the writes of
    different sockets can land in any order. A mark is known by its instance and its place in the
    order in which that instance issued marks to the user. */
module PresenceWrites {
  import opened Ids
  import opened SessionTable

  datatype Mark = Mark(instance: NodeId, place: nat)

  /** A hub operation at an instance, or the landing of a write for the user in question. */
  datatype Act<E> =
    | HubAct(instance: NodeId, op: Op<E>)
    | Write(mark: Mark)

  /** The hub operations of one instance. */
  function OpsAt<E>(acts: seq<Act<E>>, i: NodeId): seq<Op<E>> {
    if acts == [] then []
    else
      var before, act := OpsAt(acts[..|acts| - 1], i), acts[|acts| - 1];
      if act.HubAct? && act.instance == i then before + [act.op] else before
  }

  /** The marks of the user that have been written, in the order in which they landed. */
  function Written<E>(acts: seq<Act<E>>): seq<Mark> {
    if acts == [] then []
    else
      var before, act := Written(acts[..|acts| - 1]), acts[|acts| - 1];
      if act.Write? then before + [act.mark] else before
  }

  /** The marks an instance has issued to the user: online and offline in turn, oldest first. */
  ghost function Issued<E>(acts: seq<Act<E>>, i: NodeId, u: UserId): seq<bool> { Presence(OpsAt(acts, i), u) }

  /** Instances run legally, and each issued mark is written once at most, after it was issued. */
  ghost predicate Feasible<E>(acts: seq<Act<E>>, u: UserId) {
    acts == []
    || (var before, act := acts[..|acts| - 1], acts[|acts| - 1];
        Feasible(before, u) && CanHappen(before, act, u))
  }

  ghost predicate CanHappen<E>(acts: seq<Act<E>>, act: Act<E>, u: UserId) {
    match act
    case HubAct(i, op) => Legal(Run(OpsAt(acts, i)), op)
    case Write(m) => m.place < |Issued(acts, m.instance, u)| && m !in Written(acts)
  }

  /** The mark on the user's presence row: the one written last. */
  ghost predicate RowOnline<E>(acts: seq<Act<E>>, u: UserId) {
    Written(acts) != [] && Value(acts, Written(acts)[|Written(acts)| - 1], u)
  }

  ghost predicate Value<E>(acts: seq<Act<E>>, m: Mark, u: UserId) {
    m.place < |Issued(acts, m.instance, u)| && Issued(acts, m.instance, u)[m.place]
  }

  ghost predicate OnlineSomewhere<E>(acts: seq<Act<E>>, u: UserId) { exists i :: Run(OpsAt(acts, i)).Online(u) }

  /** Some instance has issued the user an odd number of marks. */
  ghost predicate OddSomewhere<E>(acts: seq<Act<E>>, u: UserId) { exists i :: |Issued(acts, i, u)| % 2 == 1 }

  // ---- Each instance by itself.

  lemma {:induction false} OpsAreLegal<E>(acts: seq<Act<E>>, u: UserId, i: NodeId)
    requires Feasible(acts, u)
    ensures LegalRun(OpsAt(acts, i))
  {
    if acts == [] {
    } else {
      var before, act := acts[..|acts| - 1], acts[|acts| - 1];
      OpsAreLegal(before, u, i);
      if act.HubAct? && act.instance == i { AppendIsLegal(OpsAt(before, i), act.op); }
    }
  }

  lemma AppendIsLegal<E>(ops: seq<Op<E>>, op: Op<E>)
    requires LegalRun(ops) && Legal(Run(ops), op)
    ensures LegalRun(ops + [op])
  {
    assert (ops + [op])[..|ops|] == ops;
  }

  lemma IssuedGrows<E>(acts: seq<Act<E>>, i: NodeId, u: UserId)
    requires acts != []
    ensures Issued(acts[..|acts| - 1], i, u) <= Issued(acts, i, u)
  {
    hide Presence, Run;
    var before, act := acts[..|acts| - 1], acts[|acts| - 1];
    if act.HubAct? && act.instance == i { PresenceGrows(OpsAt(before, i), act.op, u); }
  }

  lemma PresenceGrows<E>(ops: seq<Op<E>>, op: Op<E>, u: UserId)
    ensures Presence(ops, u) <= Presence(ops + [op], u)
  {
    assert (ops + [op])[..|ops|] == ops;
  }

  /** A written mark has been issued, and is an online mark exactly at an even place. */
  lemma {:induction false} WrittenIsIssued<E>(acts: seq<Act<E>>, u: UserId, m: Mark)
    requires Feasible(acts, u) && m in Written(acts)
    ensures m.place < |Issued(acts, m.instance, u)|
    ensures Value(acts, m, u) <==> m.place % 2 == 0
  {
    hide Presence, Run, Issued;
    var before, act := acts[..|acts| - 1], acts[|acts| - 1];
    IssuedGrows(acts, m.instance, u);
    if m in Written(before) { WrittenIsIssued(before, u, m); }
    OpsAreLegal(acts, u, m.instance);
    MarksAlternate(acts, m.instance, u);
  }

  lemma MarksAlternate<E>(acts: seq<Act<E>>, i: NodeId, u: UserId)
    requires LegalRun(OpsAt(acts, i))
    ensures forall p :: 0 <= p < |Issued(acts, i, u)| ==> Issued(acts, i, u)[p] == (p % 2 == 0)
    ensures Run(OpsAt(acts, i)).Online(u) <==> |Issued(acts, i, u)| % 2 == 1
  {
    PresenceAlternates(OpsAt(acts, i), u);
  }

  lemma OnlineIffOdd<E>(acts: seq<Act<E>>, u: UserId)
    requires Feasible(acts, u)
    ensures OnlineSomewhere(acts, u) <==> OddSomewhere(acts, u)
  {
    hide Run, Presence, OpsAt, Issued, Feasible;
    forall i: NodeId ensures Run(OpsAt(acts, i)).Online(u) <==> |Issued(acts, i, u)| % 2 == 1 {
      OpsAreLegal(acts, u, i);
      MarksAlternate(acts, i, u);
    }
  }

  // ---- When the row is right.

  /** At any moment of any schedule, with any number of instances, the row is right if and only if it
      is the case both or neither that the mark written last has an even place and that some instance
      has issued an odd number of marks. */
  lemma RowRightIff<E>(acts: seq<Act<E>>, u: UserId)
    requires Feasible(acts, u)
    ensures var ws := Written(acts);
            (RowOnline(acts, u) <==> OnlineSomewhere(acts, u)) <==>
            ((ws != [] && ws[|ws| - 1].place % 2 == 0) <==> OddSomewhere(acts, u))
  {
    hide Feasible, OpsAt, Run, Issued, OddSomewhere, OnlineSomewhere;
    OnlineIffOdd(acts, u);
    var ws := Written(acts);
    if ws != [] { WrittenIsIssued(acts, u, ws[|ws| - 1]); }
  }

  /** All acts are those of instance `i`. */
  ghost predicate AllAt<E>(acts: seq<Act<E>>, i: NodeId) {
    forall k :: 0 <= k < |acts| ==> (if acts[k].HubAct? then acts[k].instance else acts[k].mark.instance) == i
  }

  lemma {:induction false} NothingElsewhere<E>(acts: seq<Act<E>>, i: NodeId, j: NodeId, u: UserId)
    requires AllAt(acts, i) && j != i
    ensures OpsAt(acts, j) == [] && Issued(acts, j, u) == []
  {
    if acts == [] {
    } else {
      NothingElsewhere(acts[..|acts| - 1], i, j, u);
    }
  }

  /** So on one instance, once a mark has been written, the row is right if and only if the parity of
      the place of the mark written last differs from that of the number of marks issued. */
  lemma OneInstanceRightIff<E>(acts: seq<Act<E>>, i: NodeId, u: UserId)
    requires Feasible(acts, u) && AllAt(acts, i) && Written(acts) != []
    ensures var ws := Written(acts);
            (RowOnline(acts, u) <==> OnlineSomewhere(acts, u)) <==>
            ws[|ws| - 1].place % 2 != |Issued(acts, i, u)| % 2
  {
    hide OpsAt, Written, Issued, RowOnline, OnlineSomewhere, Feasible;
    RowRightIff(acts, u);
    forall j: NodeId | j != i ensures |Issued(acts, j, u)| == 0 { NothingElsewhere(acts, i, j, u); }
  }

  /** Writes land in the order in which the marks were issued. */
  ghost predicate InOrder<E>(acts: seq<Act<E>>) {
    forall k :: 0 <= k < |Written(acts)| ==> Written(acts)[k].place == k
  }

  /** Every mark issued to the user has been written. */
  ghost predicate Settled<E>(acts: seq<Act<E>>, i: NodeId, u: UserId) { |Written(acts)| == |Issued(acts, i, u)| }

  /** If the writes for a user land in order, their row is right on one instance whenever all have
      landed. */
  lemma InOrderSettlesRight<E>(acts: seq<Act<E>>, i: NodeId, u: UserId)
    requires Feasible(acts, u) && AllAt(acts, i) && InOrder(acts) && Settled(acts, i, u)
    ensures RowOnline(acts, u) <==> OnlineSomewhere(acts, u)
  {
    hide OpsAt, Written, Issued, RowOnline, OnlineSomewhere, Feasible;
    RowRightIff(acts, u);
    forall j: NodeId | j != i ensures |Issued(acts, j, u)| == 0 { NothingElsewhere(acts, i, j, u); }
  }

  // ---- A page reload.

  lemma Extend<E>(acts: seq<Act<E>>, act: Act<E>, u: UserId) returns (longer: seq<Act<E>>)
    requires Feasible(acts, u) && CanHappen(acts, act, u)
    ensures longer == acts + [act] && longer[..|acts|] == acts && Feasible(longer, u)
    ensures forall i :: OpsAt(longer, i) ==
              if act.HubAct? && act.instance == i then OpsAt(acts, i) + [act.op] else OpsAt(acts, i)
    ensures Written(longer) == if act.Write? then Written(acts) + [act.mark] else Written(acts)
  {
    longer := acts + [act];
    assert longer[..|acts|] == acts;
  }

  /** The table and the marks after one more operation. */
  lemma OneMore(ops: seq<Op<nat>>, op: Op<nat>, u: UserId)
    ensures Run(ops + [op]) == Apply(Run(ops), op)
    ensures Presence(ops + [op], u) == Presence(ops, u) + Edge(Run(ops), op, u)
  {
    assert (ops + [op])[..|ops|] == ops;
  }

  lemma RegisterFirst(t: Table<nat>, s: SessionId, u: UserId)
    requires t.Valid() && t.sessions == map[] && s !in t.log
    ensures Edge(t, Register(s, u), u) == [true]
    ensures var t' := Apply(t, Register(s, u));
            t'.sessions == map[s := Session(u, {})] && t'.log.Keys == t.log.Keys + {s}
  {
  }

  lemma UnregisterLast(t: Table<nat>, s: SessionId, u: UserId)
    requires t.Valid() && t.sessions == map[s := Session(u, {})]
    ensures Edge(t, Unregister(s), u) == [false]
    ensures var t' := Apply(t, Unregister(s)); t'.sessions == map[] && t'.log == t.log
  {
    assert Apply(t, Unregister(s)).sessions == map[];
  }

  /** User 7 closes session 1 and opens session 2: three marks are issued. */
  lemma Reload(a: Op<nat>, b: Op<nat>, c: Op<nat>)
    requires a == Register(1, 7) && b == Unregister(1) && c == Register(2, 7)
    ensures Legal(Run<nat>([]), a) && Legal(Run([a]), b) && Legal(Run([a, b]), c)
    ensures |Presence([a], 7)| == 1 && |Presence([a, b], 7)| == 2 && |Presence([a, b, c], 7)| == 3
  {
    hide Run, Presence, Apply, Edge;
    assert Run<nat>([]) == Table(map[], map[]) && Presence<nat>([], 7) == [] by { Nothing(); }
    OneMore([], a, 7);
    RegisterFirst(Run<nat>([]), 1, 7);
    assert [] + [a] == [a];
    OneMore([a], b, 7);
    UnregisterLast(Run([a]), 1, 7);
    assert [a] + [b] == [a, b];
    OneMore([a, b], c, 7);
    RegisterFirst(Run([a, b]), 2, 7);
    assert [a, b] + [c] == [a, b, c];
  }

  lemma Nothing()
    ensures Run<nat>([]) == Table(map[], map[]) && Presence<nat>([], 7) == []
  {
  }

  lemma HubStep(acts: seq<Act<nat>>, op: Op<nat>, u: UserId) returns (longer: seq<Act<nat>>)
    requires Feasible(acts, u) && AllAt(acts, 0) && Legal(Run(OpsAt(acts, 0)), op)
    ensures Feasible(longer, u) && AllAt(longer, 0)
    ensures OpsAt(longer, 0) == OpsAt(acts, 0) + [op] && Written(longer) == Written(acts)
  {
    hide Feasible, OpsAt, Written, Run, Legal;
    longer := Extend(acts, HubAct(0, op), u);
  }

  lemma WriteStep(acts: seq<Act<nat>>, place: nat, u: UserId) returns (longer: seq<Act<nat>>)
    requires Feasible(acts, u) && AllAt(acts, 0) && place < |Issued(acts, 0, u)| && Mark(0, place) !in Written(acts)
    ensures Feasible(longer, u) && AllAt(longer, 0)
    ensures OpsAt(longer, 0) == OpsAt(acts, 0) && Written(longer) == Written(acts) + [Mark(0, place)]
  {
    hide Feasible, OpsAt, Written, Run;
    longer := Extend(acts, Write(Mark(0, place)), u);
  }

  /** The new session's online mark lands before the old one's offline mark. Each socket writes its
      own marks in order and all have landed, and the connected user's row is marked offline. */
  lemma ReloadMarksOffline()
    ensures exists acts: seq<Act<nat>> ::
              && Feasible(acts, 7) && AllAt(acts, 0) && Settled(acts, 0, 7)
              && OnlineSomewhere(acts, 7) && !RowOnline(acts, 7)
  {
    hide Feasible, OpsAt, Written, Run, Presence, OnlineSomewhere, RowOnline, Legal, AllAt;
    var a: Op<nat>, b: Op<nat>, c: Op<nat> := Register(1, 7), Unregister(1), Register(2, 7);
    Reload(a, b, c);
    var acts: seq<Act<nat>> := [];
    Begin();
    acts := HubStep(acts, a, 7);
    assert OpsAt(acts, 0) == [a];
    acts := WriteStep(acts, 0, 7);
    acts := HubStep(acts, b, 7);
    assert OpsAt(acts, 0) == [a, b];
    acts := HubStep(acts, c, 7);
    assert OpsAt(acts, 0) == [a, b, c];
    acts := WriteStep(acts, 2, 7);
    acts := WriteStep(acts, 1, 7);
    assert Written(acts) == [Mark(0, 0), Mark(0, 2), Mark(0, 1)];
    ReloadIsWrong(acts);
  }

  lemma ReloadIsWrong(acts: seq<Act<nat>>)
    requires Feasible(acts, 7) && Written(acts) == [Mark(0, 0), Mark(0, 2), Mark(0, 1)] && |Issued(acts, 0, 7)| == 3
    ensures OnlineSomewhere(acts, 7) && !RowOnline(acts, 7)
  {
    hide Feasible, OpsAt, Run, Presence, Issued;
    OnlineIffOdd(acts, 7);
    WrittenIsIssued(acts, 7, Mark(0, 1));
    assert OddSomewhere(acts, 7);
  }

  lemma Begin()
    ensures var acts: seq<Act<nat>> := [];
            Feasible(acts, 7) && Written(acts) == [] && OpsAt(acts, 0) == [] && AllAt(acts, 0)
  {
  }
}
