/** The specification of the realtime hub: one table of sessions, without an index.

    Every event sent to a session's outbound queue is kept in its log. Session ids are drawn
    fresh, so a log belongs to one session for good and outlives the session's entry. */
module SessionTable {
  import opened Ids

  datatype Session = Session(user: UserId, subscriptions: set<ChannelId>)

  /** Whom an event is for. */
  datatype Target = ToChannel(channel: ChannelId) | ToUser(user: UserId)

  predicate Matches(session: Session, to: Target) {
    match to
    case ToChannel(c) => c in session.subscriptions
    case ToUser(u) => session.user == u
  }

  datatype Table<E> = Table(sessions: map<SessionId, Session>, log: map<SessionId, seq<E>>) {
    ghost predicate Valid() { sessions.Keys <= log.Keys }

    ghost predicate Online(u: UserId) { exists s :: s in sessions && sessions[s].user == u }
  }

  datatype Op<E> =
    | Register(s: SessionId, user: UserId)
    | Unregister(s: SessionId)
    | Subscribe(s: SessionId, channel: ChannelId)
    | Unsubscribe(s: SessionId, channel: ChannelId)
    | Dispatch(to: Target, event: E)

  /** Only a registration demands anything: an id that was never used. */
  ghost predicate Legal<E>(t: Table<E>, op: Op<E>) {
    op.Register? ==> op.s !in t.log
  }

  /** A dispatch is a full scan: one copy to every live session that matches, none to any other. */
  ghost function Apply<E>(t: Table<E>, op: Op<E>): Table<E>
    requires t.Valid()
    ensures Apply(t, op).Valid()
  {
    match op
    case Register(s, u) => Table(t.sessions[s := Session(u, {})], t.log[s := []])
    case Unregister(s) => t.(sessions := t.sessions - {s})
    case Subscribe(s, c) =>
      if s !in t.sessions then t
      else t.(sessions := t.sessions[s := Session(t.sessions[s].user, t.sessions[s].subscriptions + {c})])
    case Unsubscribe(s, c) =>
      if s !in t.sessions then t
      else t.(sessions := t.sessions[s := Session(t.sessions[s].user, t.sessions[s].subscriptions - {c})])
    case Dispatch(to, e) =>
      t.(log := Deliver(t.log, Addressed(t.sessions, to), e))
  }

  ghost function Addressed(sessions: map<SessionId, Session>, to: Target): set<SessionId> {
    set s | s in sessions && Matches(sessions[s], to)
  }

  /** One more event in the log of every session of `hit`. */
  ghost function Deliver<E>(log: map<SessionId, seq<E>>, hit: set<SessionId>, e: E): map<SessionId, seq<E>> {
    map s | s in log :: if s in hit then log[s] + [e] else log[s]
  }

  lemma DeliverToNobody<E>(log: map<SessionId, seq<E>>, e: E)
    ensures Deliver(log, {}, e) == log
  {
  }

  lemma DeliverOneMore<E>(log: map<SessionId, seq<E>>, hit: set<SessionId>, s: SessionId, e: E)
    requires s in log && s !in hit
    ensures s in Deliver(log, hit, e) && Deliver(log, hit, e)[s] == log[s]
    ensures Deliver(log, hit + {s}, e) == Deliver(log, hit, e)[s := log[s] + [e]]
  {
  }

  ghost function Run<E>(ops: seq<Op<E>>): (t: Table<E>)
    ensures t.Valid()
  {
    if ops == [] then Table(map[], map[]) else Apply(Run(ops[..|ops| - 1]), ops[|ops| - 1])
  }

  ghost predicate LegalRun<E>(ops: seq<Op<E>>) {
    ops == [] || (LegalRun(ops[..|ops| - 1]) && Legal(Run(ops[..|ops| - 1]), ops[|ops| - 1]))
  }

  // ---- What one session sees.

  datatype Life<E> = Unborn | Live(session: Session, log: seq<E>) | Gone(log: seq<E>)

  /** One session's life, read off the global history without any table: its user, the
      subscriptions it holds at each moment, and the dispatches that match them. */
  function View<E>(ops: seq<Op<E>>, s: SessionId): Life<E> {
    if ops == [] then Unborn else Lived(View(ops[..|ops| - 1], s), ops[|ops| - 1], s)
  }

  /** What one operation means for the life of session `s`. */
  function Lived<E>(life: Life<E>, op: Op<E>, s: SessionId): Life<E> {
    match op
    case Register(s', u) => if s' == s then Live(Session(u, {}), []) else life
    case Unregister(s') => if s' == s && life.Live? then Gone(life.log) else life
    case Subscribe(s', c) =>
      if s' == s && life.Live? then
        Live(Session(life.session.user, life.session.subscriptions + {c}), life.log)
      else life
    case Unsubscribe(s', c) =>
      if s' == s && life.Live? then
        Live(Session(life.session.user, life.session.subscriptions - {c}), life.log)
      else life
    case Dispatch(to, e) =>
      if life.Live? && Matches(life.session, to) then Live(life.session, life.log + [e]) else life
  }

  ghost function LifeIn<E>(t: Table<E>, s: SessionId): Life<E>
    requires t.Valid()
  {
    if s in t.sessions then Live(t.sessions[s], t.log[s])
    else if s in t.log then Gone(t.log[s])
    else Unborn
  }

  lemma StepIsLived<E>(t: Table<E>, op: Op<E>, s: SessionId)
    requires t.Valid() && Legal(t, op)
    ensures LifeIn(Apply(t, op), s) == Lived(LifeIn(t, s), op, s)
  {
  }

  /** Over any run, each session's log is the dispatch history filtered by its user and by its
      subscriptions at the moment of each dispatch. */
  lemma {:induction false} LogIsFilteredHistory<E>(ops: seq<Op<E>>, s: SessionId)
    requires LegalRun(ops)
    ensures LifeIn(Run(ops), s) == View(ops, s)
  {
    if ops == [] {
    } else {
      hide Apply, Legal, Lived;
      LogIsFilteredHistory(ops[..|ops| - 1], s);
      StepIsLived(Run(ops[..|ops| - 1]), ops[|ops| - 1], s);
    }
  }

  // ---- Presence: the socket handler announces a user when `register` reports a first session
  // ---- and when `unregister` reports a last one.

  ghost function Edge<E>(t: Table<E>, op: Op<E>, u: UserId): seq<bool>
    requires t.Valid()
  {
    match op
    case Register(_, v) => if v == u && !t.Online(u) then [true] else []
    case Unregister(s) =>
      if s in t.sessions && t.sessions[s].user == u && !Apply(t, op).Online(u) then [false] else []
    case _ => []
  }

  /** The online/offline announcements of `u`, oldest first. */
  ghost function Presence<E>(ops: seq<Op<E>>, u: UserId): seq<bool> {
    if ops == [] then []
    else Presence(ops[..|ops| - 1], u) + Edge(Run(ops[..|ops| - 1]), ops[|ops| - 1], u)
  }

  /** Announcements alternate, starting with online, and the last one tells the current state. */
  lemma {:induction false} PresenceAlternates<E>(ops: seq<Op<E>>, u: UserId)
    requires LegalRun(ops)
    ensures forall i :: 0 <= i < |Presence(ops, u)| ==> Presence(ops, u)[i] == (i % 2 == 0)
    ensures Run(ops).Online(u) <==> |Presence(ops, u)| % 2 == 1
  {
    hide Apply, Edge, Legal;
    if ops == [] {
    } else {
      var before := ops[..|ops| - 1];
      PresenceAlternates(before, u);
      OnlineChangesAtEdges(Run(before), ops[|ops| - 1], u);
    }
  }

  /** A user's state changes exactly when an announcement is made, to the state it announces. */
  lemma OnlineChangesAtEdges<E>(t: Table<E>, op: Op<E>, u: UserId)
    requires t.Valid() && Legal(t, op)
    ensures Apply(t, op).Online(u) == if Edge(t, op, u) == [] then t.Online(u) else Edge(t, op, u)[0]
    ensures Edge(t, op, u) == [] || Edge(t, op, u) == [!t.Online(u)]
  {
    var t' := Apply(t, op);
    if t.Online(u) {
      var s :| s in t.sessions && t.sessions[s].user == u;
      if s in t'.sessions { assert t'.sessions[s].user == u; }
    }
    if t'.Online(u) {
      var s :| s in t'.sessions && t'.sessions[s].user == u;
      if s in t.sessions { assert t.sessions[s].user == u; }
    }
    match op {
      case Register(s, v) => assert s in t'.sessions && t'.sessions[s].user == v;
      case _ =>
    }
  }
}
