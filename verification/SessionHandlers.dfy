/** The session handlers (src/handlers/auth.rs, src/handlers/users.rs) over tables they update in
    place, each proved to take the step that `RefreshTokens.dfy` describes. */
module SessionHandlers {
  import opened Ids
  import opened Wrappers
  import opened RefreshTokens

  class SessionHandlers {
    var active: map<UserId, bool>
    var tokens: map<TokenId, Token>
    var clock: Time

    ghost function Abs(): Sessions
      reads this
    {
      Sessions(active, tokens, clock)
    }

    constructor ()
      ensures Abs() == EMPTY
    {
      active, tokens, clock := map[], map[], 0;
    }

    /** Inserts the row of a new token. */
    method IssueSession(user: UserId, id: TokenId, expires: Time) returns (r: Outcome)
      modifies `tokens
      ensures Abs() == Issue(old(Abs()), user, id, expires) && r == Issued(id)
    {
      tokens := tokens[id := Token(user, false, expires)];
      r := Issued(id);
    }

    /** Revokes the user's tokens that are not revoked yet, row by row. */
    method RevokeRows(user: UserId)
      modifies `tokens
      ensures Abs() == RevokeAll(old(Abs()), user)
    {
      var rows := set t | t in tokens && tokens[t].user == user && !tokens[t].revoked;
      ghost var all := rows;
      while rows != {}
        invariant rows <= all && tokens.Keys == old(tokens).Keys
        invariant forall t :: t in tokens ==>
                    tokens[t] == if t in all && t !in rows then old(tokens)[t].(revoked := true) else old(tokens)[t]
        decreases rows
      {
        var t :| t in rows;
        tokens := tokens[t := tokens[t].(revoked := true)];
        rows := rows - {t};
      }
      assert tokens == RevokeAll(old(Abs()), user).tokens;
    }

    method Signup(user: UserId, taken: bool, id: TokenId, expires: Time, now: Time) returns (r: Outcome)
      modifies this
      ensures var step := Step(Op.Signup(user, taken, id, expires), now);
              Abs() == Next(old(Abs()), step) && r == Verdict(old(Abs()), step)
    {
      clock := now;
      if taken {
        return Conflict;
      }
      active := active[user := true];
      r := IssueSession(user, id, expires);
    }

    /** `account` is the user with the given e-mail, if there is one. */
    method Login(account: Option<UserId>, passwordOk: bool, id: TokenId, expires: Time, now: Time) returns (r: Outcome)
      modifies this
      ensures var step := Step(Op.Login(account, passwordOk, id, expires), now);
              Abs() == Next(old(Abs()), step) && r == Verdict(old(Abs()), step)
    {
      clock := now;
      if account.None? || account.value !in active {
        return Unauthorized;
      }
      if !active[account.value] {
        return Forbidden;
      }
      if !passwordOk {
        return Unauthorized;
      }
      r := IssueSession(account.value, id, expires);
    }

    method Refresh(claims: Option<Claims>, id: TokenId, expires: Time, now: Time) returns (r: Outcome)
      requires forall t :: t in tokens ==> tokens[t].user in active
      modifies this
      ensures var step := Step(Op.Refresh(claims, id, expires), now);
              Abs() == Next(old(Abs()), step) && r == Verdict(old(Abs()), step)
    {
      clock := now;
      if claims.None? {
        return Unauthorized;
      }
      var c := claims.value;
      if c.id !in tokens {
        return Unauthorized;
      }
      var row := tokens[c.id];
      if row.revoked || row.expires < now || row.user != c.sub {
        return Unauthorized;
      }
      tokens := tokens[c.id := row.(revoked := true)];
      if !active[row.user] {
        return Unauthorized;
      }
      r := IssueSession(row.user, id, expires);
    }

    method Logout(user: UserId, now: Time) returns (r: Outcome)
      modifies this
      ensures var step := Step(Op.Logout(user), now);
              Abs() == Next(old(Abs()), step) && r == Verdict(old(Abs()), step)
    {
      clock := now;
      RevokeRows(user);
      r := Done;
    }

    method SetActive(admin: UserId, user: UserId, value: bool, now: Time) returns (r: Outcome)
      modifies this
      ensures var step := Step(Op.SetActive(admin, user, value), now);
              Abs() == Next(old(Abs()), step) && r == Verdict(old(Abs()), step)
    {
      clock := now;
      if !value && admin == user {
        return BadRequest;
      }
      if user !in active {
        return NotFound;
      }
      active := active[user := value];
      if !value {
        RevokeRows(user);
      }
      r := Done;
    }
  }
}
