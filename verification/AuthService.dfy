/**
 * The session, password and guard services over mutable tables, statement by statement; each
 * method is proved against the request function of AuthSessions.
 */
module AuthService {
  import opened Options
  import opened SessionRows
  import opened AuthSessions
  import R = RateLimits

  class Service {
    var users: map<nat, User>
    var sessions: Table
    var resets: map<nat, ResetToken>
    var nextId: nat
    const limiter: R.RateLimiter

    ghost function Db(): Auth
      reads this
    {
      Auth(users, sessions, resets, nextId)
    }

    ghost predicate Valid()
      reads this
    {
      Inv(Db())
    }

    constructor ()
      ensures Valid() && Db() == EMPTY && fresh(limiter) && limiter.rows == map[]
    {
      users, sessions, resets, nextId := map[], map[], map[], 0;
      limiter := new R.RateLimiter();
    }

    /** Draws the next fresh name: a row id, a family id or an opaque token. */
    method Fresh() returns (id: nat)
      modifies this`nextId
      ensures id == old(nextId) && nextId == old(nextId) + 1
    {
      id := nextId;
      nextId := nextId + 1;
    }

    method IssueSession(userId: nat, tokenVersion: nat, now: int) returns (a: Answer)
      requires Valid() && userId in users
      modifies this
      ensures Valid() && (Db(), a) == Opened(old(Db()), userId, tokenVersion, now)
    {
      OpenedKeepsInv(Db(), userId, tokenVersion, now);
      var token := Fresh();
      sessions := sessions[token := Mint(userId, token, token, now, None)];
      a := Granted(AccessToken(userId, tokenVersion, now + ACCESS_TOKEN_TTL_MS), token);
    }

    /** `address` is what the limiter counts by, `userId` whom the address belongs to, if anybody. */
    method Login(address: string, userId: nat, password: nat, now: int) returns (a: Answer)
      requires Valid()
      modifies this, limiter
      ensures Valid()
      ensures var (rows, o) := R.Consumed(old(limiter.rows), R.LoginEmail, address, now);
              limiter.rows == rows && (Db(), a) == LoggedIn(old(Db()), userId, password, o.allowed, now)
    {
      var budget := limiter.Consume(R.LoginEmail, address, now);
      if !budget.allowed {
        return Refused(TooManyAttempts);
      }
      if userId !in users || !users[userId].passwordHash.Verifies(password) {
        return Refused(InvalidCredentials);
      }
      if users[userId].status == Unverified {
        return Refused(EmailNotVerified);
      }
      if users[userId].status != Active {
        return Refused(AccountDisabled);
      }
      a := IssueSession(userId, users[userId].tokenVersion, now);
    }

    /** The grace branch of `refresh`; `done` says whether it answered. */
    method Recover(row: nat, now: int) returns (done: bool, a: Answer)
      requires row in sessions && sessions[row].WithinGrace(now) && nextId !in sessions
      modifies this
      ensures done == old(Recoverable(Db(), row, now))
      ensures done ==> (Db(), a) == old(Recovered(Db(), row, now))
      ensures !done ==> Db() == old(Db())
    {
      var existing := sessions[row];
      var successor := SoleSuccessor(sessions, row);
      var active := IsActive(users, existing.userId);
      if successor.Some? && sessions[successor.value].Live() && active {
        assert successor.value in Successors(sessions, row);
        var token := Fresh();
        sessions := sessions[row := existing.(graceUsedAt := Some(now))];
        sessions := sessions[token := Mint(existing.userId, existing.familyId, token, now, successor)];
        sessions := sessions[successor.value := sessions[successor.value].Revoke(now, Rotated)];
        return true, Granted(Access(users, existing.userId, now), token);
      }
      return false, Refused(SessionExpired);
    }

    method Refresh(token: nat, now: int) returns (a: Answer)
      requires Valid()
      modifies this
      ensures Valid() && (Db(), a) == Refreshed(old(Db()), token, now)
    {
      RefreshKeepsInv(Db(), token, now);
      a := RefreshTransaction(token, now);
    }

    /** The callback that commits on every branch: a refusal still keeps what it revoked. */
    method RefreshTransaction(token: nat, now: int) returns (a: Answer)
      requires Valid()
      modifies this
      ensures (Db(), a) == Refreshed(old(Db()), token, now)
    {
      var found := Lookup(sessions, token);
      if found.None? {
        return Refused(SessionExpired);
      }
      var row := found.value;
      var existing := sessions[row];
      if !existing.Live() {
        if existing.WithinGrace(now) {
          var done, recovered := Recover(row, now);
          if done {
            return recovered;
          }
        }
        sessions := RevokeAll(sessions, LiveInFamily(sessions, existing.familyId), now, ReuseDetected);
        users := Bump(users, existing.userId);
        return Refused(SessionExpired);
      }
      if existing.expiresAt <= now {
        sessions := sessions[row := existing.Revoke(now, Expired)];
        return Refused(SessionExpired);
      }
      if !IsActive(users, existing.userId) {
        sessions := RevokeAll(sessions, LiveInFamily(sessions, existing.familyId), now, AccountInactive);
        return Refused(SessionExpired);
      }
      var minted := Fresh();
      sessions := sessions[minted := Mint(existing.userId, existing.familyId, minted, now, Some(row))];
      sessions := sessions[row := existing.Revoke(now, Rotated)];
      return Granted(Access(users, existing.userId, now), minted);
    }

    method Logout(token: nat, now: int)
      requires Valid()
      modifies this`sessions
      ensures Valid() && (Db(), Accepted) == LoggedOut(old(Db()), token, now)
    {
      SignOutKeepsInv(Db(), token, now);
      LogoutStatements(token, now);
    }

    method LogoutStatements(token: nat, now: int)
      requires Valid()
      modifies this`sessions
      ensures (Db(), Accepted) == LoggedOut(old(Db()), token, now)
    {
      var found := Lookup(sessions, token);
      if found.Some? {
        sessions := RevokeAll(sessions, LiveInFamily(sessions, sessions[found.value].familyId), now, Reason.Logout);
      }
    }

    /** `subject` is what the limiter counts the user by. */
    method ChangePassword(subject: string, userId: nat, current: nat, replacement: nat, salt: nat, now: int)
      returns (a: Answer)
      requires Valid()
      modifies this, limiter
      ensures Valid()
      ensures var (rows, o) := R.Consumed(old(limiter.rows), R.PasswordChange, subject, now);
              && limiter.rows == rows
              && (Db(), a) == Changed(old(Db()), userId, current, replacement, salt, o.allowed, now)
    {
      var budget := limiter.Consume(R.PasswordChange, subject, now);
      if !budget.allowed {
        return Refused(TooManyAttempts);
      }
      if userId !in users {
        return Refused(Unauthenticated);
      }
      var user := users[userId];
      if !user.passwordHash.Verifies(current) {
        return Refused(PasswordCurrentInvalid);
      }
      if user.passwordHash.Verifies(replacement) {
        return Refused(PasswordUnchanged);
      }
      PasswordWriteKeepsInv(Db(), userId, Argon2id(replacement, salt), now);
      users := Bump(users, userId);
      users := SetHash(users, userId, Argon2id(replacement, salt));
      sessions := RevokeAll(sessions, LiveOfUser(sessions, userId), now, PasswordReset);
      a := IssueSession(userId, user.tokenVersion + 1, now);
    }

    /** One unit of the password change's limiter, then the password, then the row and all that hangs on it. */
    method DeleteAccount(subject: string, userId: nat, password: nat, now: int) returns (a: Answer)
      requires Valid()
      modifies this, limiter
      ensures Valid()
      ensures var (rows, o) := R.Consumed(old(limiter.rows), R.PasswordChange, subject, now);
              limiter.rows == rows && (Db(), a) == Deleted(old(Db()), userId, password, o.allowed)
    {
      var budget := limiter.Consume(R.PasswordChange, subject, now);
      DeleteKeepsInv(Db(), userId, password, budget.allowed);
      a := DeleteStatements(userId, password, budget.allowed);
    }

    method DeleteStatements(userId: nat, password: nat, allowed: bool) returns (a: Answer)
      modifies this
      ensures (Db(), a) == Deleted(old(Db()), userId, password, allowed)
    {
      if !allowed {
        return Refused(TooManyAttempts);
      }
      if userId !in users {
        return Refused(Unauthenticated);
      }
      if !users[userId].passwordHash.Verifies(password) {
        return Refused(PasswordCurrentInvalid);
      }
      users := users - {userId};
      sessions := RowsWithout(sessions, userId);
      resets := map id | id in resets && resets[id].userId != userId :: resets[id];
      return Accepted;
    }

    method RequestReset(address: string, userId: nat, now: int)
      requires Valid()
      modifies this, limiter
      ensures Valid()
      ensures var (rows, o) := R.Consumed(old(limiter.rows), R.PasswordResetEmail, address, now);
              limiter.rows == rows && (Db(), Accepted) == ResetRequested(old(Db()), userId, o.allowed, now)
    {
      var budget := limiter.Consume(R.PasswordResetEmail, address, now);
      ResetRequestKeepsInv(Db(), userId, budget.allowed, now);
      InsertResetToken(userId, budget.allowed, now);
    }

    method InsertResetToken(userId: nat, allowed: bool, now: int)
      modifies this
      ensures (Db(), Accepted) == ResetRequested(old(Db()), userId, allowed, now)
    {
      if allowed && userId in users {
        var token := Fresh();
        resets := resets[token := ResetToken(userId, Sha256(token), now + PASSWORD_RESET_TTL_MS, None)];
      }
    }

    method ConfirmReset(token: nat, password: nat, salt: nat, now: int) returns (a: Answer)
      requires Valid()
      modifies this
      ensures Valid() && (Db(), a) == ResetConfirmed(old(Db()), token, password, salt, now)
    {
      ConfirmKeepsInv(Db(), token, password, salt, now);
      a := ConfirmTransaction(token, password, salt, now);
    }

    method ConfirmTransaction(token: nat, password: nat, salt: nat, now: int) returns (a: Answer)
      requires Valid()
      modifies this
      ensures (Db(), a) == ResetConfirmed(old(Db()), token, password, salt, now)
    {
      var found := ResolveReset(resets, token, now);
      if found.None? {
        return Refused(ResetTokenInvalid);
      }
      var id := found.value;
      var userId := resets[id].userId;
      resets := resets[id := resets[id].(consumedAt := Some(now))];
      resets := map i | i in resets ::
        if resets[i].userId == userId && resets[i].consumedAt.None?
        then resets[i].(consumedAt := Some(now)) else resets[i];
      assert resets == ConsumeAll(old(resets), id, now);
      users := Bump(users, userId);
      users := SetHash(users, userId, Argon2id(password, salt));
      sessions := RevokeAll(sessions, LiveOfUser(sessions, userId), now, PasswordReset);
      return Accepted;
    }

    /** The guard: ordered early exits, then the id of the caller. */
    method CanActivate(presented: Option<AccessToken>, now: int) returns (caller: Option<nat>)
      ensures caller.Some? <==> Admits(Db(), presented, now)
      ensures caller.Some? ==> caller.value == presented.value.sub
    {
      if presented.None? || presented.value.exp <= now {
        return None;
      }
      var payload := presented.value;
      if payload.sub !in users {
        return None;
      }
      if users[payload.sub].status != Active {
        return None;
      }
      if users[payload.sub].tokenVersion != payload.sv {
        return None;
      }
      return Some(payload.sub);
    }
  }
}
