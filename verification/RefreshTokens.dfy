/** Sessions: refresh tokens, their rotation and revocation, as atomic steps over runs.

    A token row is keyed by its fingerprint, which is injective on token ids. Verifying a signed
    token is left to its library: a step carries the claims it yields, if any. */
module RefreshTokens {
  import opened Ids
  import opened Wrappers

  datatype Token = Token(user: UserId, revoked: bool, expires: Time)

  datatype Claims = Claims(sub: UserId, id: TokenId)

  /** `active` has an entry for every user. */
  datatype Sessions = Sessions(active: map<UserId, bool>, tokens: map<TokenId, Token>, clock: Time)

  const EMPTY := Sessions(map[], map[], 0)

  datatype Outcome = Done | Issued(id: TokenId) | Unauthorized | Forbidden | BadRequest | NotFound | Conflict

  /** `id` and `expires` are those of the refresh token that the step may issue. */
  datatype Op =
    | Signup(user: UserId, taken: bool, id: TokenId, expires: Time)
    | Login(account: Option<UserId>, passwordOk: bool, id: TokenId, expires: Time)
    | Refresh(claims: Option<Claims>, id: TokenId, expires: Time)
    | Logout(user: UserId)
    | SetActive(admin: UserId, user: UserId, active: bool)

  datatype Step = Step(op: Op, now: Time)

  /** The stored token exists, is not revoked, has not expired, and belongs to the claimed user. */
  predicate Stands(s: Sessions, c: Claims, now: Time) {
    c.id in s.tokens && !s.tokens[c.id].revoked && s.tokens[c.id].expires >= now && s.tokens[c.id].user == c.sub
  }

  predicate IsActive(s: Sessions, u: UserId) { u in s.active && s.active[u] }

  function Verdict(s: Sessions, step: Step): Outcome {
    match step.op
    case Signup(_, taken, id, _) => if taken then Conflict else Issued(id)
    case Login(account, passwordOk, id, _) =>
      if account.None? || account.value !in s.active then Unauthorized
      else if !s.active[account.value] then Forbidden
      else if !passwordOk then Unauthorized
      else Issued(id)
    case Refresh(claims, id, _) =>
      if claims.None? || !Stands(s, claims.value, step.now) || !IsActive(s, claims.value.sub) then Unauthorized
      else Issued(id)
    case Logout(_) => Done
    case SetActive(admin, user, active) =>
      if !active && admin == user then BadRequest else if user !in s.active then NotFound else Done
  }

  function Revoke(s: Sessions, t: TokenId): Sessions
    requires t in s.tokens
  {
    s.(tokens := s.tokens[t := s.tokens[t].(revoked := true)])
  }

  function RevokeAll(s: Sessions, u: UserId): Sessions {
    s.(tokens := map t | t in s.tokens :: if s.tokens[t].user == u then s.tokens[t].(revoked := true) else s.tokens[t])
  }

  function Issue(s: Sessions, u: UserId, id: TokenId, expires: Time): Sessions {
    s.(tokens := s.tokens[id := Token(u, false, expires)])
  }

  /** A token that stands is revoked before its user is looked at. */
  function Next(s: Sessions, step: Step): Sessions {
    var v := Verdict(s, step);
    var s := s.(clock := step.now);
    match step.op
    case Signup(user, _, id, expires) =>
      if v.Issued? then Issue(s.(active := s.active[user := true]), user, id, expires) else s
    case Login(account, _, id, expires) => if v.Issued? then Issue(s, account.value, id, expires) else s
    case Refresh(claims, id, expires) =>
      if claims.None? || !Stands(s, claims.value, step.now) then s
      else
        var rotated := Revoke(s, claims.value.id);
        if v.Issued? then Issue(rotated, claims.value.sub, id, expires) else rotated
    case Logout(user) => RevokeAll(s, user)
    case SetActive(_, user, active) =>
      if v != Done then s
      else
        var s := s.(active := s.active[user := active]);
        if active then s else RevokeAll(s, user)
  }

  /** Ids of new users and tokens are fresh, and time moves on. */
  predicate Legal(s: Sessions, step: Step) {
    && step.now > s.clock
    && (step.op.Signup? ==> step.op.user !in s.active)
    && (step.op.Signup? || step.op.Login? || step.op.Refresh? ==> step.op.id !in s.tokens)
  }

  function Run(steps: seq<Step>): Sessions {
    if steps == [] then EMPTY else Next(Run(steps[..|steps| - 1]), steps[|steps| - 1])
  }

  predicate LegalRun(steps: seq<Step>) {
    steps == []
    || (LegalRun(steps[..|steps| - 1]) && Legal(Run(steps[..|steps| - 1]), steps[|steps| - 1]))
  }

  // ---- What every step keeps.

  /** Tokens belong to users, and those of inactive users are all revoked. */
  ghost predicate Inv(s: Sessions) {
    forall t :: t in s.tokens ==> s.tokens[t].user in s.active && (!s.tokens[t].revoked ==> s.active[s.tokens[t].user])
  }

  /** Rows stay, keep their user and expiry, and are never restored. */
  ghost predicate OnlyRevokes(s: Sessions, later: Sessions) {
    forall t :: t in s.tokens ==>
      && t in later.tokens && later.tokens[t].user == s.tokens[t].user && later.tokens[t].expires == s.tokens[t].expires
      && (s.tokens[t].revoked ==> later.tokens[t].revoked)
  }

  lemma StepKeepsInv(s: Sessions, step: Step)
    requires Inv(s) && Legal(s, step)
    ensures Inv(Next(s, step)) && OnlyRevokes(s, Next(s, step))
  {
    hide Inv, OnlyRevokes, Issue, Revoke, RevokeAll;
    var s1 := s.(clock := step.now);
    ClockIsFree(s, step.now);
    match step.op
    case Signup(user, _, id, expires) =>
      var s2 := s1.(active := s1.active[user := true]);
      NewUserKeepsInv(s1, user);
      IssueKeepsInv(s2, user, id, expires);
      RevokesThrough(s, s2, Issue(s2, user, id, expires));
    case Login(account, _, id, expires) =>
      if Verdict(s, step).Issued? {
        IssueKeepsInv(s1, account.value, id, expires);
        RevokesThrough(s, s1, Issue(s1, account.value, id, expires));
      }
    case Refresh(claims, id, expires) =>
      if claims.Some? && Stands(s, claims.value, step.now) {
        var s2 := Revoke(s1, claims.value.id);
        RevokeKeepsInv(s1, claims.value.id);
        RevokesThrough(s, s1, s2);
        if Verdict(s, step).Issued? {
          IssueKeepsInv(s2, claims.value.sub, id, expires);
          RevokesThrough(s, s2, Issue(s2, claims.value.sub, id, expires));
        }
      }
    case Logout(user) =>
      RevokeAllKeepsInv(s1, user, true);
      RevokesThrough(s, s1, RevokeAll(s1, user));
    case SetActive(_, user, active) =>
      if Verdict(s, step) == Done {
        RevokeAllKeepsInv(s1, user, active);
        RevokesThrough(s, s1, Next(s, step));
      }
  }

  lemma ClockIsFree(s: Sessions, now: Time)
    requires Inv(s)
    ensures Inv(s.(clock := now)) && OnlyRevokes(s, s.(clock := now))
  {
  }

  lemma NewUserKeepsInv(s: Sessions, u: UserId)
    requires Inv(s) && u !in s.active
    ensures Inv(s.(active := s.active[u := true])) && OnlyRevokes(s, s.(active := s.active[u := true]))
  {
  }

  lemma IssueKeepsInv(s: Sessions, u: UserId, id: TokenId, expires: Time)
    requires Inv(s) && IsActive(s, u) && id !in s.tokens
    ensures Inv(Issue(s, u, id, expires)) && OnlyRevokes(s, Issue(s, u, id, expires))
  {
  }

  lemma RevokeKeepsInv(s: Sessions, t: TokenId)
    requires Inv(s) && t in s.tokens
    ensures var s' := Revoke(s, t);
            Inv(s') && OnlyRevokes(s, s') && s'.active == s.active && s'.tokens.Keys == s.tokens.Keys
  {
  }

  /** Revoking all of a user's tokens makes it safe to deactivate them. */
  lemma RevokeAllKeepsInv(s: Sessions, u: UserId, active: bool)
    requires Inv(s)
    ensures Inv(RevokeAll(s, u)) && OnlyRevokes(s, RevokeAll(s, u))
    ensures u in s.active ==>
              var s1 := s.(active := s.active[u := active]);
              var s2 := if active then s1 else RevokeAll(s1, u);
              Inv(s2) && OnlyRevokes(s, s2)
  {
  }

  lemma {:induction false} RunKeepsInv(steps: seq<Step>)
    requires LegalRun(steps)
    ensures Inv(Run(steps))
  {
    if steps != [] {
      hide Next, Legal, Inv;
      RunKeepsInv(steps[..|steps| - 1]);
      StepKeepsInv(Run(steps[..|steps| - 1]), steps[|steps| - 1]);
    } else {
      assert Inv(Run(steps));
    }
  }

  /** Inactive users hold no usable refresh token, so `refresh` is refused for exactly the reasons
      it finds in the token's row: its later check of the user never decides. */
  lemma RowDecidesRefresh(steps: seq<Step>, step: Step)
    requires LegalRun(steps) && step.op.Refresh?
    ensures var s := Run(steps);
            Verdict(s, step).Issued? <==> step.op.claims.Some? && Stands(s, step.op.claims.value, step.now)
    ensures forall u :: u in Run(steps).active && !Run(steps).active[u] ==> Live(Run(steps), u) == {}
  {
    hide Run, LegalRun;
    RunKeepsInv(steps);
  }

  // ---- Tokens are used once.

  lemma {:induction false} RevokedForever(steps: seq<Step>, k: nat)
    requires LegalRun(steps) && k <= |steps|
    ensures OnlyRevokes(Run(steps[..k]), Run(steps))
    decreases |steps|
  {
    hide Next, Legal, OnlyRevokes, Inv;
    if k == |steps| {
      assert steps[..k] == steps;
      RevokesNothing(Run(steps));
    } else {
      var before := steps[..|steps| - 1];
      assert before[..k] == steps[..k];
      RevokedForever(before, k);
      RunKeepsInv(before);
      StepKeepsInv(Run(before), steps[|steps| - 1]);
      RevokesThrough(Run(steps[..k]), Run(before), Run(steps));
    }
  }

  lemma RevokesNothing(s: Sessions)
    ensures OnlyRevokes(s, s)
  {
  }

  lemma RevokesThrough(a: Sessions, b: Sessions, c: Sessions)
    requires OnlyRevokes(a, b) && OnlyRevokes(b, c)
    ensures OnlyRevokes(a, c)
  {
  }

  /** Step `i` of the run exchanges token `t` for a new one. */
  predicate Accepts(steps: seq<Step>, i: nat, t: TokenId)
    requires i < |steps|
  {
    && steps[i].op.Refresh? && steps[i].op.claims.Some? && steps[i].op.claims.value.id == t
    && Verdict(Run(steps[..i]), steps[i]).Issued?
  }

  lemma AcceptedIsRevoked(s: Sessions, step: Step, t: TokenId)
    requires Legal(s, step) && step.op.Refresh? && step.op.claims.Some? && step.op.claims.value.id == t
    requires Verdict(s, step).Issued?
    ensures t in Next(s, step).tokens && Next(s, step).tokens[t].revoked
  {
  }

  lemma {:induction false} PrefixIsLegal(steps: seq<Step>, k: nat)
    requires LegalRun(steps) && k <= |steps|
    ensures LegalRun(steps[..k])
    ensures k > 0 ==> Legal(Run(steps[..k - 1]), steps[k - 1])
    ensures k > 0 ==> Run(steps[..k]) == Next(Run(steps[..k - 1]), steps[k - 1])
    decreases |steps|
  {
    hide Next, Legal;
    if k == |steps| {
      assert steps[..k] == steps;
    } else {
      PrefixIsLegal(steps[..|steps| - 1], k);
      assert steps[..|steps| - 1][..k] == steps[..k];
      if k > 0 { assert steps[..|steps| - 1][..k - 1] == steps[..k - 1]; }
    }
  }

  /** Whatever has been revoked, by rotation, logout or deactivation, is never accepted again. */
  lemma RevokedIsRefused(steps: seq<Step>, k: nat, i: nat, t: TokenId)
    requires LegalRun(steps) && k <= i < |steps|
    requires t in Run(steps[..k]).tokens && Run(steps[..k]).tokens[t].revoked
    ensures !Accepts(steps, i, t)
  {
    hide Run, LegalRun, Next;
    PrefixIsLegal(steps, i);
    RevokedForever(steps[..i], k);
    assert steps[..i][..k] == steps[..k];
  }

  /** No run exchanges a token twice, so a token has at most one successor. */
  lemma AcceptedAtMostOnce(steps: seq<Step>, i: nat, j: nat, t: TokenId)
    requires LegalRun(steps) && i < |steps| && j < |steps| && Accepts(steps, i, t) && Accepts(steps, j, t)
    ensures i == j
  {
    if i < j {
      AcceptedEarlier(steps, i, j, t);
    } else if j < i {
      AcceptedEarlier(steps, j, i, t);
    }
  }

  lemma AcceptedEarlier(steps: seq<Step>, i: nat, j: nat, t: TokenId)
    requires LegalRun(steps) && i < j < |steps| && Accepts(steps, i, t)
    ensures !Accepts(steps, j, t)
  {
    hide Run, LegalRun, Next, Verdict;
    PrefixIsLegal(steps, i + 1);
    AcceptedIsRevoked(Run(steps[..i]), steps[i], t);
    RevokedIsRefused(steps, i + 1, j, t);
  }

  // ---- How many tokens a user holds.

  /** A user's tokens that are not revoked. */
  ghost function Live(s: Sessions, u: UserId): set<TokenId> {
    set t | t in s.tokens && s.tokens[t].user == u && !s.tokens[t].revoked
  }

  /** The user's signups and logins since they last logged out or were deactivated. */
  function Opened(steps: seq<Step>, u: UserId): nat {
    if steps == [] then 0
    else
      var before, step := steps[..|steps| - 1], steps[|steps| - 1];
      var v, n := Verdict(Run(before), step), Opened(before, u);
      match step.op
      case Signup(user, _, _, _) => if v.Issued? && user == u then n + 1 else n
      case Login(account, _, _, _) => if v.Issued? && account.value == u then n + 1 else n
      case Refresh(_, _, _) => n
      case Logout(user) => if user == u then 0 else n
      case SetActive(_, user, active) => if v == Done && user == u && !active then 0 else n
  }

  lemma IssueAdds(s: Sessions, v: UserId, id: TokenId, expires: Time, u: UserId)
    requires id !in s.tokens
    ensures |Live(Issue(s, v, id, expires), u)| == |Live(s, u)| + if v == u then 1 else 0
  {
    LiveAfterIssue(s, v, id, expires, u);
    hide Issue, Live;
    if v == u { OneMore(Live(s, u), id); }
  }

  lemma LiveAfterIssue(s: Sessions, v: UserId, id: TokenId, expires: Time, u: UserId)
    requires id !in s.tokens
    ensures id !in Live(s, u)
    ensures Live(Issue(s, v, id, expires), u) == if v == u then Live(s, u) + {id} else Live(s, u)
  {
    var s' := Issue(s, v, id, expires);
    assert s'.tokens[id] == Token(v, false, expires);
    assert forall t :: t in s.tokens ==> t in s'.tokens && s'.tokens[t] == s.tokens[t];
    assert forall t :: t in s'.tokens ==> t in s.tokens || t == id;
  }

  lemma OneMore(ts: set<TokenId>, t: TokenId)
    requires t !in ts
    ensures |ts + {t}| == |ts| + 1
  {
  }

  lemma RevokeRemoves(s: Sessions, t: TokenId, u: UserId)
    requires t in s.tokens && !s.tokens[t].revoked
    ensures |Live(Revoke(s, t), u)| == |Live(s, u)| - if s.tokens[t].user == u then 1 else 0
  {
    LiveAfterRevoke(s, t, u);
    hide Revoke, Live;
    if s.tokens[t].user == u {
      assert Live(s, u) == (Live(s, u) - {t}) + {t};
      OneMore(Live(s, u) - {t}, t);
    }
  }

  lemma LiveAfterRevoke(s: Sessions, t: TokenId, u: UserId)
    requires t in s.tokens && !s.tokens[t].revoked
    ensures t in Live(s, u) <==> s.tokens[t].user == u
    ensures Live(Revoke(s, t), u) == if s.tokens[t].user == u then Live(s, u) - {t} else Live(s, u)
  {
    var s' := Revoke(s, t);
    assert forall r :: r in s'.tokens <==> r in s.tokens;
    assert forall r :: r in s.tokens && r != t ==> s'.tokens[r] == s.tokens[r];
  }

  lemma RevokeAllClears(s: Sessions, v: UserId, u: UserId)
    ensures Live(RevokeAll(s, v), u) == if v == u then {} else Live(s, u)
  {
  }

  /** Rotation neither adds nor loses a session: the tokens a user holds are as many as the
      sessions opened since they last logged out or were deactivated. */
  lemma {:induction false} OneTokenPerSession(steps: seq<Step>, u: UserId)
    requires LegalRun(steps)
    ensures |Live(Run(steps), u)| == Opened(steps, u)
  {
    if steps == [] {
      assert Live(EMPTY, u) == {};
    } else {
      var before, step := steps[..|steps| - 1], steps[|steps| - 1];
      OneTokenPerSession(before, u);
      RunKeepsInv(before);
      StepCounts(Run(before), step, u);
    }
  }

  /** What a step does to the number of a user's tokens. */
  lemma StepCounts(s: Sessions, step: Step, u: UserId)
    requires Inv(s) && Legal(s, step)
    ensures var v, held, held' := Verdict(s, step), |Live(s, u)|, |Live(Next(s, step), u)|;
            match step.op
            case Signup(user, _, _, _) => held' == if v.Issued? && user == u then held + 1 else held
            case Login(account, _, _, _) => held' == if v.Issued? && account.value == u then held + 1 else held
            case Refresh(_, _, _) => held' == held
            case Logout(user) => held' == if user == u then 0 else held
            case SetActive(_, user, active) => held' == if v == Done && user == u && !active then 0 else held
  {
    hide Live, Issue, Revoke, RevokeAll;
    var s1 := s.(clock := step.now);
    SameTokens(s, s1, u);
    match step.op
    case Signup(user, _, id, expires) =>
      SameTokens(s, s1.(active := s1.active[user := true]), u);
      IssueAdds(s1.(active := s1.active[user := true]), user, id, expires, u);
    case Login(account, _, id, expires) => if account.Some? { IssueAdds(s1, account.value, id, expires, u); }
    case Refresh(claims, id, expires) =>
      if claims.Some? && Stands(s1, claims.value, step.now) {
        RevokeRemoves(s1, claims.value.id, u);
        RevokeKeepsIds(s1, claims.value.id);
        IssueAdds(Revoke(s1, claims.value.id), claims.value.sub, id, expires, u);
      }
    case Logout(user) => RevokeAllClears(s1, user, u);
    case SetActive(_, user, active) =>
      SameTokens(s, s1.(active := s1.active[user := active]), u);
      RevokeAllClears(s1.(active := s1.active[user := active]), user, u);
  }

  lemma SameTokens(s: Sessions, s': Sessions, u: UserId)
    requires s.tokens == s'.tokens
    ensures Live(s', u) == Live(s, u)
  {
  }

  lemma RevokeKeepsIds(s: Sessions, t: TokenId)
    requires t in s.tokens
    ensures Revoke(s, t).tokens.Keys == s.tokens.Keys
  {
  }

  // ---- Sessions as chains of tokens.

  /** A session is known by the step, a signup or a login, that opened it. */
  datatype Session = Session(start: nat, user: UserId)

  /** The session that each token continues. */
  function SessionsOf(steps: seq<Step>): map<TokenId, Session> {
    if steps == [] then map[]
    else
      var before, step := steps[..|steps| - 1], steps[|steps| - 1];
      NextSessions(|before|, Run(before), step, SessionsOf(before))
  }

  function NextSessions(n: nat, s: Sessions, step: Step, of: map<TokenId, Session>): map<TokenId, Session> {
    match Verdict(s, step)
    case Issued(id) =>
      (match step.op
       case Signup(user, _, _, _) => of[id := Session(n, user)]
       case Login(account, _, _, _) => if account.Some? then of[id := Session(n, account.value)] else of
       case Refresh(claims, _, _) =>
         if claims.Some? && claims.value.id in of then of[id := of[claims.value.id]] else of
       case _ => of)
    case _ => of
  }

  /** At any time at most one token of a session can be exchanged, and it is its user's. */
  ghost predicate OneLive(n: nat, s: Sessions, of: map<TokenId, Session>) {
    && of.Keys == s.tokens.Keys
    && (forall t :: t in of ==> of[t].start < n && of[t].user == s.tokens[t].user)
    && forall t, r :: t in of && r in of && BothLive(s, t, r) && of[t].start == of[r].start ==> t == r
  }

  predicate BothLive(s: Sessions, t: TokenId, r: TokenId)
    requires t in s.tokens && r in s.tokens
  {
    !s.tokens[t].revoked && !s.tokens[r].revoked
  }

  /** No token of the session opened at step `o` can be exchanged. */
  ghost predicate IsSpent(s: Sessions, of: map<TokenId, Session>, o: nat)
    requires of.Keys == s.tokens.Keys
  {
    forall t :: t in of && of[t].start == o ==> s.tokens[t].revoked
  }

  /** In every run at most one token of a session is not revoked, and all are one user's. */
  lemma {:induction false} OneUsableTokenPerSession(steps: seq<Step>)
    requires LegalRun(steps)
    ensures OneLive(|steps|, Run(steps), SessionsOf(steps))
  {
    if steps != [] {
      hide Next, Legal, OneLive, NextSessions;
      var before, step := steps[..|steps| - 1], steps[|steps| - 1];
      OneUsableTokenPerSession(before);
      StepKeepsChains(|before|, Run(before), step, SessionsOf(before));
    } else {
      assert OneLive(0, Run(steps), SessionsOf(steps));
    }
  }

  lemma IssueKeepsChains(
    n: nat, s: Sessions, u: UserId, id: TokenId, expires: Time, of: map<TokenId, Session>, o: nat)
    requires OneLive(n, s, of) && id !in s.tokens && o < n && IsSpent(s, of, o)
    ensures OneLive(n, Issue(s, u, id, expires), of[id := Session(o, u)])
  {
    var s', of' := Issue(s, u, id, expires), of[id := Session(o, u)];
    forall t | t in of' ensures of'[t].start < n && of'[t].user == s'.tokens[t].user {
      if t != id { assert of[t].start < n; }
    }
    forall t, r | t in of' && r in of' && BothLive(s', t, r) && of'[t].start == of'[r].start ensures t == r {
      if t != id && r != id { assert BothLive(s, t, r); }
    }
  }

  lemma FewerLive(n: nat, s: Sessions, s': Sessions, of: map<TokenId, Session>)
    requires OneLive(n, s, of) && OnlyRevokes(s, s') && s'.tokens.Keys == s.tokens.Keys
    ensures OneLive(n, s', of)
  {
    forall t, r | t in of && r in of && BothLive(s', t, r) && of[t].start == of[r].start ensures t == r {
      assert BothLive(s, t, r);
    }
  }

  lemma RotateKeepsChains(n: nat, s: Sessions, t: TokenId, of: map<TokenId, Session>)
    requires OneLive(n, s, of) && t in s.tokens && !s.tokens[t].revoked
    ensures OneLive(n, Revoke(s, t), of) && IsSpent(Revoke(s, t), of, of[t].start)
    ensures of[t].start < n && of[t].user == s.tokens[t].user
  {
    RevokeKeepsIds(s, t);
    FewerLive(n, s, Revoke(s, t), of);
    forall r | r in of && of[r].start == of[t].start ensures Revoke(s, t).tokens[r].revoked {
      if !s.tokens[r].revoked { assert BothLive(s, t, r); }
    }
  }

  /** One more step has passed, and the session it may open has no tokens yet. */
  lemma NextStepIsSpent(n: nat, s: Sessions, active: map<UserId, bool>, now: Time, of: map<TokenId, Session>)
    requires OneLive(n, s, of)
    ensures of.Keys == s.tokens.Keys
    ensures var s' := Sessions(active, s.tokens, now); OneLive(n + 1, s', of) && IsSpent(s', of, n)
  {
    var s' := Sessions(active, s.tokens, now);
    forall t, r | t in of && r in of && BothLive(s', t, r) && of[t].start == of[r].start ensures t == r {
      assert BothLive(s, t, r);
    }
  }

  lemma RevokeAllIds(s: Sessions, u: UserId)
    ensures RevokeAll(s, u).tokens.Keys == s.tokens.Keys && OnlyRevokes(s, RevokeAll(s, u))
  {
  }

  lemma StepKeepsChains(n: nat, s: Sessions, step: Step, of: map<TokenId, Session>)
    requires Legal(s, step) && OneLive(n, s, of)
    ensures OneLive(n + 1, Next(s, step), NextSessions(n, s, step, of))
  {
    hide OneLive, OnlyRevokes, Issue, Revoke, RevokeAll, IsSpent;
    var s1 := s.(clock := step.now);
    NextStepIsSpent(n, s, s.active, step.now, of);
    match step.op
    case Signup(user, _, id, expires) =>
      var s2 := s1.(active := s1.active[user := true]);
      NextStepIsSpent(n, s, s2.active, step.now, of);
      IssueKeepsChains(n + 1, s2, user, id, expires, of, n);
    case Login(account, _, id, expires) =>
      if account.Some? { IssueKeepsChains(n + 1, s1, account.value, id, expires, of, n); }
    case Refresh(claims, id, expires) =>
      if claims.Some? && Stands(s, claims.value, step.now) {
        var t := claims.value.id;
        RotateKeepsChains(n + 1, s1, t, of);
        RevokeKeepsIds(s1, t);
        IssueKeepsChains(n + 1, Revoke(s1, t), claims.value.sub, id, expires, of, of[t].start);
      }
    case Logout(user) =>
      RevokeAllIds(s1, user);
      FewerLive(n + 1, s1, RevokeAll(s1, user), of);
    case SetActive(_, user, active) =>
      var s2 := s1.(active := s1.active[user := active]);
      NextStepIsSpent(n, s, s2.active, step.now, of);
      RevokeAllIds(s2, user);
      FewerLive(n + 1, s2, RevokeAll(s2, user), of);
  }

  /** The tokens of the session opened at step `o`, in the order in which they were issued. */
  function ChainOf(steps: seq<Step>, o: nat): seq<TokenId> {
    if steps == [] then []
    else
      var chain, of := ChainOf(steps[..|steps| - 1], o), SessionsOf(steps);
      match Verdict(Run(steps[..|steps| - 1]), steps[|steps| - 1])
      case Issued(id) => if id in of && of[id].start == o then chain + [id] else chain
      case _ => chain
  }

  /** Step `i` of the run accepts `t` and issues `r` in exchange. */
  predicate Succeeds(steps: seq<Step>, i: nat, t: TokenId, r: TokenId) {
    i < |steps| && Accepts(steps, i, t) && steps[i].op.id == r
  }

  /** Step `i` opens a session with token `t`. */
  predicate Opens(steps: seq<Step>, i: nat, t: TokenId) {
    i < |steps| && (steps[i].op.Signup? || steps[i].op.Login?) && Verdict(Run(steps[..i]), steps[i]) == Issued(t)
  }

  /** A token that is revoked because the next one was issued in exchange for it. */
  ghost predicate IsLink(steps: seq<Step>, t: TokenId, r: TokenId) {
    t in Run(steps).tokens && Run(steps).tokens[t].revoked && exists i :: Succeeds(steps, i, t, r)
  }

  /** `chain` is the tokens of session `o`, each once: the first issued on opening it, every other in
      exchange for the one before. */
  ghost predicate IsChain(steps: seq<Step>, o: nat, chain: seq<TokenId>) {
    && (forall t :: t in chain <==> t in SessionsOf(steps) && SessionsOf(steps)[t].start == o)
    && (forall p, q :: 0 <= p < q < |chain| ==> chain[p] != chain[q])
    && (chain != [] ==> Opens(steps, o, chain[0]))
    && forall p :: 0 <= p && p + 1 < |chain| ==> IsLink(steps, chain[p], chain[p + 1])
  }

  lemma LaterSucceeds(steps: seq<Step>, i: nat, t: TokenId, r: TokenId)
    requires steps != [] && Succeeds(steps[..|steps| - 1], i, t, r)
    ensures Succeeds(steps, i, t, r)
  {
    hide Run, Verdict;
    assert steps[..|steps| - 1][..i] == steps[..i];
  }

  lemma OpensStays(steps: seq<Step>, i: nat, t: TokenId)
    requires steps != [] && Opens(steps[..|steps| - 1], i, t)
    ensures Opens(steps, i, t)
  {
    hide Run, Verdict;
    assert steps[..|steps| - 1][..i] == steps[..i];
  }

  lemma LinkStays(steps: seq<Step>, t: TokenId, r: TokenId)
    requires LegalRun(steps) && steps != [] && IsLink(steps[..|steps| - 1], t, r)
    ensures IsLink(steps, t, r)
  {
    hide Run, LegalRun, Succeeds;
    var before := steps[..|steps| - 1];
    RevokedForever(steps, |steps| - 1);
    var i :| Succeeds(before, i, t, r);
    LaterSucceeds(steps, i, t, r);
  }

  /** What the last step does to the sessions: nothing, or it adds its token to one of them. */
  lemma LastIssue(steps: seq<Step>)
    requires LegalRun(steps) && steps != []
    ensures var before, step := steps[..|steps| - 1], steps[|steps| - 1];
            var of, v := SessionsOf(before), Verdict(Run(before), step);
            && (!v.Issued? ==> SessionsOf(steps) == of)
            && (v.Issued? ==>
                  && v.id == step.op.id && v.id !in of && v.id in SessionsOf(steps)
                  && SessionsOf(steps) == of[v.id := SessionsOf(steps)[v.id]]
                  && (step.op.Signup? || step.op.Login? ==> SessionsOf(steps)[v.id].start == |before|)
                  && (step.op.Refresh? ==>
                        && Accepts(steps, |before|, step.op.claims.value.id)
                        && step.op.claims.value.id in of
                        && !Run(before).tokens[step.op.claims.value.id].revoked
                        && SessionsOf(steps)[v.id] == of[step.op.claims.value.id]))
    ensures SessionsOf(steps[..|steps| - 1]).Keys == Run(steps[..|steps| - 1]).tokens.Keys
    ensures var of := SessionsOf(steps[..|steps| - 1]); forall t :: t in of ==> of[t].start < |steps| - 1
  {
    OneUsableTokenPerSession(steps[..|steps| - 1]);
    hide Run;
  }

  /** What was linked stays linked. */
  lemma LinksStay(steps: seq<Step>, o: nat, chain: seq<TokenId>)
    requires LegalRun(steps) && steps != [] && IsChain(steps[..|steps| - 1], o, chain)
    ensures chain != [] ==> Opens(steps, o, chain[0])
    ensures forall p :: 0 <= p && p + 1 < |chain| ==> IsLink(steps, chain[p], chain[p + 1])
  {
    hide LegalRun, IsLink, Opens, SessionsOf;
    forall p | 0 <= p && p + 1 < |chain| ensures IsLink(steps, chain[p], chain[p + 1]) {
      LinkStays(steps, chain[p], chain[p + 1]);
    }
    if chain != [] { OpensStays(steps, o, chain[0]); }
  }

  /** The chain has the session's tokens. */
  lemma ChainHasTokens(steps: seq<Step>, o: nat)
    requires LegalRun(steps) && steps != []
    requires IsChain(steps[..|steps| - 1], o, ChainOf(steps[..|steps| - 1], o))
    ensures var chain := ChainOf(steps, o);
            && (forall t :: t in chain <==> t in SessionsOf(steps) && SessionsOf(steps)[t].start == o)
            && (forall p, q :: 0 <= p < q < |chain| ==> chain[p] != chain[q])
  {
    LastIssue(steps);
    hide Run, LegalRun, SessionsOf, Verdict, IsLink, Opens, Accepts;
    var chain, chain' := ChainOf(steps[..|steps| - 1], o), ChainOf(steps, o);
    if chain' != chain {
      assert chain' == chain + [chain'[|chain|]];
    }
  }

  /** In every run the tokens of a session are linearly ordered, each the successor of the one before,
      and all but the last are used up. */
  lemma {:induction false} TokensSucceedOneAnother(steps: seq<Step>, o: nat)
    requires LegalRun(steps)
    ensures IsChain(steps, o, ChainOf(steps, o))
  {
    hide Run, Verdict, IsLink, Opens;
    if steps == [] {
    } else {
      var before := steps[..|steps| - 1];
      TokensSucceedOneAnother(before, o);
      LinksStay(steps, o, ChainOf(before, o));
      ChainHasTokens(steps, o);
      hide SessionsOf, ChainOf;
      if ChainOf(steps, o) != ChainOf(before, o) { LinkAdded(steps, o); }
    }
  }

  lemma LinkAdded(steps: seq<Step>, o: nat)
    requires LegalRun(steps) && steps != []
    requires var before := steps[..|steps| - 1];
             IsChain(before, o, ChainOf(before, o)) && ChainOf(steps, o) != ChainOf(before, o)
    ensures var chain, id := ChainOf(steps[..|steps| - 1], o), steps[|steps| - 1].op.id;
            && ChainOf(steps, o) == chain + [id]
            && (if chain == [] then Opens(steps, o, id) else IsLink(steps, chain[|chain| - 1], id))
  {
    hide Run, SessionsOf, LegalRun, Legal, Next, Succeeds;
    LastIssue(steps);
    var before, step := steps[..|steps| - 1], steps[|steps| - 1];
    var chain := ChainOf(before, o);
    if step.op.Refresh? {
      var t := step.op.claims.value.id;
      assert t in chain;
      forall p | 0 <= p && p + 1 < |chain| ensures chain[p] != t { assert IsLink(before, chain[p], chain[p + 1]); }
      assert chain[|chain| - 1] == t;
      LastLink(steps, t);
    }
  }

  lemma LastLink(steps: seq<Step>, t: TokenId)
    requires LegalRun(steps) && steps != [] && Accepts(steps, |steps| - 1, t)
    ensures IsLink(steps, t, steps[|steps| - 1].op.id)
  {
    var before, step, n := steps[..|steps| - 1], steps[|steps| - 1], |steps| - 1;
    AcceptedIsRevoked(Run(before), step, t);
    assert Succeeds(steps, n, t, step.op.id);
  }

  // ---- Whose login is forbidden.

  /** A user's standing, read off the steps: signed up, and what the last change to it set. */
  function Standing(steps: seq<Step>, u: UserId): Option<bool> {
    if steps == [] then None
    else
      var before, step := steps[..|steps| - 1], steps[|steps| - 1];
      match step.op
      case Signup(user, taken, _, _) => if user == u && !taken then Some(true) else Standing(before, u)
      case SetActive(admin, user, active) =>
        if user == u && Standing(before, u).Some? && (active || admin != u) then Some(active) else Standing(before, u)
      case _ => Standing(before, u)
  }

  lemma {:induction false} ActiveIsStanding(steps: seq<Step>, u: UserId)
    ensures var active := Run(steps).active;
            Standing(steps, u) == if u in active then Some(active[u]) else None
  {
    if steps == [] {
    } else {
      hide Issue, Revoke, Stands;
      ActiveIsStanding(steps[..|steps| - 1], u);
    }
  }

  /** A login is answered with "forbidden" if and only if the account exists and was deactivated last,
      whether or not the password is right. */
  lemma ForbiddenIffDeactivated(steps: seq<Step>, step: Step)
    requires step.op.Login?
    ensures Verdict(Run(steps), step) == Forbidden <==>
              step.op.account.Some? && Standing(steps, step.op.account.value) == Some(false)
  {
    hide Run;
    if step.op.account.Some? { ActiveIsStanding(steps, step.op.account.value); }
  }

  lemma Extend(steps: seq<Step>, step: Step) returns (longer: seq<Step>)
    requires LegalRun(steps) && Legal(Run(steps), step)
    ensures longer == steps + [step] && LegalRun(longer) && Run(longer) == Next(Run(steps), step)
  {
    longer := steps + [step];
    assert longer[..|steps|] == steps;
  }

  /** User 2 signs up after user 1, who deactivates them; their right password is answered so. */
  lemma DeactivatedLogin()
    ensures exists steps, step :: LegalRun(steps) && Legal(Run(steps), step) && step.op.Login? && step.op.passwordOk
                                  && Verdict(Run(steps), step) == Forbidden
  {
    hide Run, LegalRun;
    var steps: seq<Step> := [];
    assert LegalRun([]) && Run([]) == EMPTY by { NoSteps(); }
    steps := Extend(steps, Step(Signup(1, false, 10, 100), 1));
    steps := Extend(steps, Step(Signup(2, false, 20, 100), 2));
    steps := Extend(steps, Step(SetActive(1, 2, false), 3));
    var step := Step(Login(Some(2), true, 30, 100), 4);
    assert Verdict(Run(steps), step) == Forbidden && Legal(Run(steps), step);
  }

  lemma NoSteps()
    ensures LegalRun([]) && Run([]) == EMPTY
  {
  }
}
