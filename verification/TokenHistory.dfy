/** When a refresh or a login is accepted, read off the steps of the run alone. */
module TokenHistory {
  import opened Ids
  import opened Wrappers
  import opened RefreshTokens

  /** The step issues token `t` to user `u` until `e`. */
  predicate IssuesNow(s: Sessions, step: Step, t: TokenId, u: UserId, e: Time) {
    && Verdict(s, step) == Issued(t)
    && match step.op
       case Signup(user, _, _, expires) => user == u && expires == e
       case Login(account, _, _, expires) => account == Some(u) && expires == e
       case Refresh(claims, _, expires) => claims.Some? && claims.value.sub == u && expires == e
       case _ => false
  }

  /** The step exchanges the token, logs its user out, or deactivates them. */
  predicate EndsNow(s: Sessions, step: Step, t: TokenId, u: UserId) {
    match step.op
    case Refresh(claims, _, _) => claims.Some? && claims.value.id == t && Verdict(s, step).Issued?
    case Logout(user) => user == u
    case SetActive(_, user, active) => user == u && !active && Verdict(s, step) == Done
    case _ => false
  }

  predicate Issues(steps: seq<Step>, i: nat, t: TokenId, u: UserId, e: Time)
    requires i < |steps|
  {
    IssuesNow(Run(steps[..i]), steps[i], t, u, e)
  }

  predicate Ends(steps: seq<Step>, i: nat, t: TokenId, u: UserId)
    requires i < |steps|
  {
    EndsNow(Run(steps[..i]), steps[i], t, u)
  }

  /** Step `j` has issued the token to the user until `e`, and no step since has exchanged it, logged
      the user out or deactivated them. */
  ghost predicate GoodSince(steps: seq<Step>, j: nat, t: TokenId, u: UserId, e: Time) {
    && j < |steps| && Issues(steps, j, t, u, e)
    && forall m :: j < m < |steps| ==> !Ends(steps, m, t, u)
  }

  predicate HasRow(s: Sessions, t: TokenId, u: UserId, e: Time) { t in s.tokens && s.tokens[t] == Token(u, false, e) }

  lemma StepRow(s: Sessions, step: Step, t: TokenId, u: UserId, e: Time)
    requires Inv(s) && Legal(s, step)
    ensures HasRow(Next(s, step), t, u, e) <==>
              IssuesNow(s, step, t, u, e) || (HasRow(s, t, u, e) && !EndsNow(s, step, t, u))
  {
  }

  /** Adding a step at the end of a run. */
  lemma GoodSinceStep(steps: seq<Step>, j: nat, t: TokenId, u: UserId, e: Time)
    requires steps != []
    ensures var before, last := steps[..|steps| - 1], |steps| - 1;
            GoodSince(steps, j, t, u, e) <==>
              (j == last && Issues(steps, last, t, u, e)) || (GoodSince(before, j, t, u, e) && !Ends(steps, last, t, u))
  {
    hide IssuesNow, EndsNow, Run;
    var before, last := steps[..|steps| - 1], |steps| - 1;
    forall m | 0 <= m < last
      ensures Ends(steps, m, t, u) == Ends(before, m, t, u) && Issues(steps, m, t, u, e) == Issues(before, m, t, u, e)
    {
      assert before[..m] == steps[..m];
    }
  }

  lemma NothingIssuedYet(t: TokenId, u: UserId, e: Time)
    ensures !HasRow(Run([]), t, u, e) && forall j :: !GoodSince([], j, t, u, e)
  {
  }

  lemma RunStep(steps: seq<Step>)
    requires LegalRun(steps) && steps != []
    ensures Run(steps) == Next(Run(steps[..|steps| - 1]), steps[|steps| - 1])
    ensures LegalRun(steps[..|steps| - 1]) && Legal(Run(steps[..|steps| - 1]), steps[|steps| - 1])
  {
  }

  /** The unrevoked tokens of a reachable state are those issued and neither exchanged since nor ended
      with their user's sessions. */
  lemma {:induction false} RowIffGood(steps: seq<Step>, t: TokenId, u: UserId, e: Time)
    requires LegalRun(steps)
    ensures HasRow(Run(steps), t, u, e) <==> exists j :: GoodSince(steps, j, t, u, e)
  {
    hide Next, Legal, Inv, Run, LegalRun, GoodSince, IssuesNow, EndsNow, HasRow;
    if steps == [] {
      NothingIssuedYet(t, u, e);
    } else {
      var before, last := steps[..|steps| - 1], |steps| - 1;
      RunStep(steps);
      RowIffGood(before, t, u, e);
      RunKeepsInv(before);
      StepRow(Run(before), steps[last], t, u, e);
      if HasRow(Run(steps), t, u, e) {
        if Issues(steps, last, t, u, e) {
          GoodSinceStep(steps, last, t, u, e);
        } else {
          var j :| GoodSince(before, j, t, u, e);
          GoodSinceStep(steps, j, t, u, e);
        }
      }
      if exists j :: GoodSince(steps, j, t, u, e) {
        var j :| GoodSince(steps, j, t, u, e);
        GoodSinceStep(steps, j, t, u, e);
      }
    }
  }

  /** A refresh is accepted if and only if an earlier step issued the token to the claimed user until a
      time that has not passed, and since then nobody exchanged it and the user was neither logged out
      nor deactivated. Any other refresh is unauthorized. */
  lemma RefreshAcceptedIff(steps: seq<Step>, i: nat)
    requires LegalRun(steps) && i < |steps| && steps[i].op.Refresh?
    ensures var op, now, v := steps[i].op, steps[i].now, Verdict(Run(steps[..i]), steps[i]);
            && (v == Issued(op.id) <==>
                  op.claims.Some?
                  && exists j, e :: GoodSince(steps[..i], j, op.claims.value.id, op.claims.value.sub, e) && now <= e)
            && (v == Issued(op.id) || v == Unauthorized)
  {
    hide Run, LegalRun, GoodSince;
    var op, now, s := steps[i].op, steps[i].now, Run(steps[..i]);
    PrefixIsLegal(steps, i);
    RowDecidesRefresh(steps[..i], steps[i]);
    if op.claims.Some? {
      var c := op.claims.value;
      forall e: Time ensures HasRow(s, c.id, c.sub, e) <==> exists j :: GoodSince(steps[..i], j, c.id, c.sub, e) {
        RowIffGood(steps[..i], c.id, c.sub, e);
      }
      RowsDecide(s, c, now);
      hide HasRow, Stands;
      if e: Time :| HasRow(s, c.id, c.sub, e) && now <= e {
        var j :| GoodSince(steps[..i], j, c.id, c.sub, e);
        assert GoodSince(steps[..i], j, c.id, c.sub, e) && now <= e;
      }
      if j, e :| GoodSince(steps[..i], j, c.id, c.sub, e) && now <= e {
        assert HasRow(s, c.id, c.sub, e);
      }
    }
  }

  lemma RowsDecide(s: Sessions, c: Claims, now: Time)
    ensures Stands(s, c, now) <==> exists e :: HasRow(s, c.id, c.sub, e) && now <= e
  {
    if Stands(s, c, now) { assert HasRow(s, c.id, c.sub, s.tokens[c.id].expires); }
  }

  /** A login opens a session if and only if the account has signed up, was not deactivated last, and the
      password is right; a wrong password or an unknown account is unauthorized. */
  lemma LoginAcceptedIff(steps: seq<Step>, step: Step)
    requires step.op.Login?
    ensures var op, v := step.op, Verdict(Run(steps), step);
            var standing := if op.account.Some? then Standing(steps, op.account.value) else None;
            && (v == Issued(op.id) <==> standing == Some(true) && op.passwordOk)
            && (v == Forbidden <==> standing == Some(false))
            && (v == Unauthorized <==> standing == None || (standing == Some(true) && !op.passwordOk))
  {
    hide Run, Standing;
    if step.op.account.Some? { ActiveIsStanding(steps, step.op.account.value); }
  }

  /** A signup is refused if and only if the address or the name is taken, and opens a session otherwise. */
  lemma SignupAcceptedIff(s: Sessions, step: Step)
    requires step.op.Signup?
    ensures Verdict(s, step) == Conflict <==> step.op.taken
    ensures !step.op.taken ==>
              HasRow(Next(s, step), step.op.id, step.op.user, step.op.expires) && IsActive(Next(s, step), step.op.user)
  {
  }

  /** Nobody deactivates themselves, and only who has signed up is activated or deactivated. */
  lemma SetActiveAnswer(steps: seq<Step>, step: Step)
    requires step.op.SetActive?
    ensures Verdict(Run(steps), step)
         == if !step.op.active && step.op.admin == step.op.user then BadRequest
            else if Standing(steps, step.op.user).None? then NotFound else Done
  {
    hide Run, Standing;
    ActiveIsStanding(steps, step.op.user);
  }
}
