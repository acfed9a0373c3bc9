/** What a password write leaves behind: which password logs in, and that reset tokens are spent for good. */
module AuthPasswords {
  import opened Options
  import opened SessionRows
  import opened AuthSessions

  // ---------------------------------------------------------------- which password logs in

  /** The request stores `replacement` as the password of `u`. */
  predicate SetsPassword(db: Auth, r: Request, u: nat, replacement: nat)
    requires NamedResets(db.resets)
  {
    match r
    case Change(_, _, password, _, _, _) => EndsTokensOf(db, r, u) && password == replacement
    case ConfirmReset(_, password, _, _) => EndsTokensOf(db, r, u) && password == replacement
    case _ => false
  }

  lemma WrittenHash(db: Auth, userId: nat, password: nat, salt: nat, now: int, u: nat)
    requires u in db.users
    ensures var written := PasswordWritten(db, userId, Argon2id(password, salt), now);
            && u in written.users && written.users[u].status == db.users[u].status
            && written.users[u].passwordHash == if u == userId then Argon2id(password, salt) else db.users[u].passwordHash
  {
  }

  /** After a change or a reset the new password logs an active user in, and no other password does. */
  lemma OnlyTheNewPasswordLogsIn(db: Auth, r: Request, u: nat, replacement: nat, attempt: nat, now: int)
    requires Inv(db) && u in db.users && SetsPassword(db, r, u, replacement)
    ensures LoggedIn(Served(db, r), u, attempt, true, now).1.Granted?
            <==> attempt == replacement && db.users[u].status == Active
  {
    match r
    case Change(_, _, password, salt, _, at) => WrittenHash(db, u, password, salt, at, u);
    case ConfirmReset(_, password, salt, at) => WrittenHash(db, u, password, salt, at, u);
  }

  /** And it changes nobody else's password or status. */
  lemma OthersKeepTheirPassword(db: Auth, r: Request, u: nat, replacement: nat, other: nat)
    requires Inv(db) && SetsPassword(db, r, u, replacement) && other in db.users && other != u
    ensures other in Served(db, r).users && Served(db, r).users[other] == db.users[other]
  {
    match r
    case Change(_, _, password, salt, _, at) => WrittenOthers(db, u, password, salt, at, other);
    case ConfirmReset(_, password, salt, at) => WrittenOthers(db, u, password, salt, at, other);
  }

  lemma WrittenOthers(db: Auth, userId: nat, password: nat, salt: nat, now: int, other: nat)
    requires other in db.users && other != userId
    ensures var written := PasswordWritten(db, userId, Argon2id(password, salt), now);
            other in written.users && written.users[other] == db.users[other]
  {
  }

  // ---------------------------------------------------------------- reset tokens are spent for good

  /** The token was issued, and its row is consumed or gone. */
  predicate Spent(db: Auth, token: nat) {
    token < db.nextId && (token in db.resets ==> db.resets[token].consumedAt.Some?)
  }

  lemma ConfirmKeepsSpent(db: Auth, token: nat, password: nat, salt: nat, now: int, other: nat)
    requires Inv(db) && Spent(db, other)
    ensures Spent(ResetConfirmed(db, token, password, salt, now).0, other)
  {
  }

  lemma StepKeepsSpent(db: Auth, r: Request, token: nat)
    requires Inv(db) && Spent(db, token)
    ensures Spent(Served(db, r), token)
  {
    ServeAdvances(db, r, 0);
    match r
    case ConfirmReset(presented, password, salt, now) => ConfirmKeepsSpent(db, presented, password, salt, now, token);
    case Refresh(presented, now) => RefreshMints(db, presented, now);
    case _ =>
  }

  lemma {:induction false} SpentForGood(db: Auth, rs: seq<Request>, token: nat)
    requires Inv(db) && Spent(db, token)
    ensures Spent(After(db, rs), token)
    decreases |rs|
  {
    if rs == [] {
    } else {
      StepKeepsSpent(db, rs[0], token);
      SpentForGood(Served(db, rs[0]), rs[1..], token);
    }
  }

  lemma SpentIsRefused(db: Auth, token: nat, password: nat, salt: nat, now: int)
    requires Inv(db) && Spent(db, token)
    ensures ResetConfirmed(db, token, password, salt, now) == (db, Refused(ResetTokenInvalid))
  {
    forall id
      ensures !ValidReset(db.resets, id, token, now)
    {
      if id in db.resets && db.resets[id].tokenHash == Sha256(token) {
        assert id == token;
      }
    }
  }

  /**
   * A confirmed reset spends the presented token and every token its owner had been sent before:
   * after any further requests each of them is refused and changes nothing.
   */
  lemma ResetSpendsEveryToken(db: Auth, token: nat, password: nat, salt: nat, at: int, rs: seq<Request>, other: nat,
                              again: nat, resalt: nat, now: int)
    requires Inv(db) && ResolveReset(db.resets, token, at).Some?
    requires other in db.resets && db.resets[other].userId == db.resets[ResolveReset(db.resets, token, at).value].userId
    ensures var later := After(Served(db, ConfirmReset(token, password, salt, at)), rs);
            ResetConfirmed(later, other, again, resalt, now) == (later, Refused(ResetTokenInvalid))
  {
    var db' := Served(db, ConfirmReset(token, password, salt, at));
    assert Spent(db', other);
    SpentForGood(db', rs, other);
    SpentIsRefused(After(db', rs), other, again, resalt, now);
  }
}
