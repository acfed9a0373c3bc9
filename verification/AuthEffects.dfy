/**
 * What each request changes, column by column, and what it answers: versions, statuses and passwords,
 * session rows, reset tokens, and how long what was granted is good for.
 */
module AuthEffects {
  import opened Options
  import opened SessionRows
  import opened AuthSessions

  // ---------------------------------------------------------------- the users

  lemma RefreshVersion(db: Auth, token: nat, now: int, u: nat)
    requires Named(db.sessions) && u in db.users
    ensures var db' := Refreshed(db, token, now).0;
            && u in db'.users && db'.users[u].status == db.users[u].status
            && db'.users[u].passwordHash == db.users[u].passwordHash
            && db'.users[u].tokenVersion
               == db.users[u].tokenVersion
                  + if IsReuse(db, token, now) && db.sessions[token].userId == u then 1 else 0
  {
    var row := Lookup(db.sessions, token);
    if row.Some? {
      assert row.value == token;
    }
  }

  /** The users a request leaves: everybody but whom it deletes. */
  lemma WhoIsDeleted(db: Auth, r: Request, u: nat)
    requires Inv(db) && u in db.users
    ensures u !in Served(db, r).users <==> r.Delete? && EndsTokensOf(db, r, u)
  {
    if r.Refresh? {
      RefreshVersion(db, r.token, r.now, u);
    }
  }

  lemma WrittenUsersAre(db: Auth, userId: nat, hash: PasswordHash, now: int)
    ensures PasswordWritten(db, userId, hash, now).users.Keys == db.users.Keys
  {
  }

  /** The requests that add nobody. */
  lemma NobodyIsAdded(db: Auth, r: Request, u: nat)
    requires Named(db.sessions) && NamedResets(db.resets) && !r.Activate? && u !in db.users
    ensures u !in Serve(db, r).0.users
  {
    match r
    case Change(access, _, replacement, salt, _, now) =>
      if Admits(db, access, now) {
        WrittenUsersAre(db, access.value.sub, Argon2id(replacement, salt), now);
      }
    case ConfirmReset(token, password, salt, now) =>
      var id := ResolveReset(db.resets, token, now);
      if id.Some? {
        WrittenUsersAre(db, db.resets[id.value].userId, Argon2id(password, salt), now);
      }
    case _ =>
  }

  /** And the one user it may add. */
  lemma WhoIsAdded(db: Auth, r: Request, u: nat)
    requires Inv(db) && u !in db.users
    ensures u in Served(db, r).users <==> r.Activate? && u == db.nextId
    ensures u in Served(db, r).users ==> Served(db, r).users[u] == User(Active, 0, r.hash)
  {
    if !r.Activate? {
      NobodyIsAdded(db, r, u);
    }
  }

  /** The request stores a password of `u`. */
  predicate StoresPassword(db: Auth, r: Request, u: nat)
    requires NamedResets(db.resets)
  {
    (r.Change? || r.ConfirmReset?) && EndsTokensOf(db, r, u)
  }

  function NewPassword(r: Request): nat
    requires r.Change? || r.ConfirmReset?
  {
    if r.Change? then r.replacement else r.password
  }

  function WithPassword(user: User, r: Request): User
    requires r.Change? || r.ConfirmReset?
  {
    User(user.status, user.tokenVersion + 1, Argon2id(NewPassword(r), r.salt))
  }

  lemma WrittenUser(db: Auth, userId: nat, hash: PasswordHash, now: int, u: nat)
    requires u in db.users
    ensures var users' := PasswordWritten(db, userId, hash, now).users;
            && u in users'
            && users'[u] == if u == userId then User(db.users[u].status, db.users[u].tokenVersion + 1, hash) else db.users[u]
  {
  }

  lemma ChangedUser(db: Auth, r: Request, u: nat)
    requires Inv(db) && r.Change? && u in db.users
    ensures var users' := Serve(db, r).0.users;
            u in users' && users'[u] == if StoresPassword(db, r, u) then WithPassword(db.users[u], r) else db.users[u]
  {
    if Admits(db, r.access, r.now) {
      WrittenUser(db, r.access.value.sub, Argon2id(r.replacement, r.salt), r.now, u);
    }
  }

  lemma ConfirmedUser(db: Auth, r: Request, u: nat)
    requires Inv(db) && r.ConfirmReset? && u in db.users
    ensures var users' := Serve(db, r).0.users;
            u in users' && users'[u] == if StoresPassword(db, r, u) then WithPassword(db.users[u], r) else db.users[u]
  {
    var id := ResolveReset(db.resets, r.token, r.now);
    if id.Some? {
      WrittenUser(db, db.resets[id.value].userId, Argon2id(r.password, r.salt), r.now, u);
    }
  }

  /** The requests that write no password. */
  lemma OtherUser(db: Auth, r: Request, u: nat)
    requires Inv(db) && !r.Change? && !r.ConfirmReset? && u in db.users && u in Serve(db, r).0.users
    ensures var user, user' := db.users[u], Serve(db, r).0.users[u];
            && user'.status == (if r.SetStatus? && r.userId == u then r.status else user.status)
            && user'.passwordHash == user.passwordHash
            && user'.tokenVersion == user.tokenVersion + if r.Refresh? && EndsTokensOf(db, r, u) then 1 else 0
  {
    if r.Refresh? {
      RefreshVersion(db, r.token, r.now, u);
    }
  }

  /**
   * A user that stays has its version raised by one exactly by what must end its access tokens: its own
   * reuse detection, password change or reset. Nothing else moves it.
   */
  lemma VersionRisesIff(db: Auth, r: Request, u: nat)
    requires Inv(db) && u in db.users && u in Served(db, r).users
    ensures Served(db, r).users[u].tokenVersion == db.users[u].tokenVersion + if EndsTokensOf(db, r, u) then 1 else 0
  {
    if r.Change? {
      ChangedUser(db, r, u);
    } else if r.ConfirmReset? {
      ConfirmedUser(db, r, u);
    } else {
      WhoIsDeleted(db, r, u);
      OtherUser(db, r, u);
    }
  }

  /** Only an operator moves a status. */
  lemma StatusIsTheOperators(db: Auth, r: Request, u: nat)
    requires Inv(db) && u in db.users && u in Served(db, r).users
    ensures Served(db, r).users[u].status
            == if r.SetStatus? && r.userId == u then r.status else db.users[u].status
  {
    if r.Change? {
      ChangedUser(db, r, u);
    } else if r.ConfirmReset? {
      ConfirmedUser(db, r, u);
    } else {
      OtherUser(db, r, u);
    }
  }

  /** Only the user's own change or reset moves the password, and to what was asked for. */
  lemma PasswordIsTheOwners(db: Auth, r: Request, u: nat, candidate: nat)
    requires Inv(db) && u in db.users && u in Served(db, r).users
    ensures Served(db, r).users[u].passwordHash.Verifies(candidate)
            <==> if StoresPassword(db, r, u) then candidate == NewPassword(r)
                 else db.users[u].passwordHash.Verifies(candidate)
  {
    if r.Change? {
      ChangedUser(db, r, u);
    } else if r.ConfirmReset? {
      ConfirmedUser(db, r, u);
    } else {
      OtherUser(db, r, u);
    }
  }

  // ---------------------------------------------------------------- the answers

  /** A login is granted exactly to a known, active user with the right password within the limit. */
  lemma LoginGrantedIff(db: Auth, userId: nat, password: nat, allowed: bool, now: int)
    ensures var (db', a) := LoggedIn(db, userId, password, allowed, now);
            var right := userId in db.users && db.users[userId].passwordHash.Verifies(password);
            && (a.Granted? <==> allowed && right && db.users[userId].status == Active)
            && (a == Refused(TooManyAttempts) <==> !allowed)
            && (a == Refused(InvalidCredentials) <==> allowed && !right)
            && (a == Refused(EmailNotVerified) <==> allowed && right && db.users[userId].status == Unverified)
            && (a == Refused(AccountDisabled)
                <==> allowed && right && db.users[userId].status in {Disabled, PendingDeletion})
            && (!a.Granted? ==> db' == db)
  {
  }

  lemma ChangeGrantedIff(db: Auth, userId: nat, current: nat, replacement: nat, salt: nat, allowed: bool, now: int)
    ensures var (db', a) := Changed(db, userId, current, replacement, salt, allowed, now);
            var right := userId in db.users && db.users[userId].passwordHash.Verifies(current);
            && (a.Granted? <==> allowed && right && current != replacement)
            && (a == Refused(TooManyAttempts) <==> !allowed)
            && (a == Refused(Unauthenticated) <==> allowed && userId !in db.users)
            && (a == Refused(PasswordCurrentInvalid) <==> allowed && userId in db.users && !right)
            && (a == Refused(PasswordUnchanged) <==> allowed && right && current == replacement)
            && (!a.Granted? ==> db' == db)
  {
  }

  lemma DeleteAcceptedIff(db: Auth, userId: nat, password: nat, allowed: bool)
    ensures var (db', a) := Deleted(db, userId, password, allowed);
            var right := userId in db.users && db.users[userId].passwordHash.Verifies(password);
            && (a == Accepted <==> allowed && right)
            && (a == Refused(TooManyAttempts) <==> !allowed)
            && (a == Refused(Unauthenticated) <==> allowed && userId !in db.users)
            && (a == Refused(PasswordCurrentInvalid) <==> allowed && userId in db.users && !right)
            && (a != Accepted ==> db' == db)
  {
  }

  /** A reset is accepted exactly for a stored, unconsumed, unexpired token. */
  lemma ResetAcceptedIff(db: Auth, token: nat, password: nat, salt: nat, now: int)
    requires Inv(db)
    ensures var (db', a) := ResetConfirmed(db, token, password, salt, now);
            && (a == Accepted <==> token in db.resets && db.resets[token].consumedAt.None? && db.resets[token].expiresAt > now)
            && (a != Accepted ==> a == Refused(ResetTokenInvalid) && db' == db)
  {
    if token in db.resets && db.resets[token].consumedAt.None? && db.resets[token].expiresAt > now {
      assert ValidReset(db.resets, token, token, now);
    }
  }

  lemma ResolvedIsTheToken(db: Auth, token: nat, now: int)
    requires Inv(db) && ResolveReset(db.resets, token, now).Some?
    ensures ResolveReset(db.resets, token, now) == Some(token)
  {
  }

  /** Behind the guard: whoever is not admitted is refused, and nothing changes. */
  lemma GuardComesFirst(db: Auth, r: Request)
    requires Inv(db) && (r.Change? || r.Delete?) && !Admits(db, r.access, r.now)
    ensures Serve(db, r) == (db, Refused(Unauthenticated))
  {
  }

  /** The row the presented one was replaced by is still live. */
  ghost predicate ReplacementLives(rows: Table, token: nat) {
    exists s :: s in rows && rows[s].rotatedFrom == Some(token) && rows[s].Live()
  }

  /**
   * A live row is answered until it expires, a retired one once more within 15 seconds of its rotation while
   * the row that replaced it lives; either only for an active account.
   */
  lemma RefreshAnsweredIff(db: Auth, token: nat, now: int)
    requires Inv(db) && token in db.sessions
    ensures var row := db.sessions[token];
            Refreshed(db, token, now).1.Granted?
            <==> && IsActive(db.users, row.userId)
                 && if row.Live() then row.expiresAt > now
                    else && row.RevokedAs(Rotated) && now <= row.revocation.value.at + 15_000 && row.graceUsedAt.None?
                         && ReplacementLives(db.sessions, token)
    ensures Refreshed(db, token, now).1.Granted? || Refreshed(db, token, now).1 == Refused(SessionExpired)
  {
    GrantedMeans(db, token, now);
    SuccessorIffRotated(db.sessions, token);
    if db.sessions[token].RevokedAs(Rotated) {
      var s := SoleSuccessor(db.sessions, token).value;
      assert s in Successors(db.sessions, token);
    }
  }

  // ---------------------------------------------------------------- the session rows

  /** Why a refresh retires the live row of the family it presents a token of. */
  function RefreshReason(db: Auth, token: nat, now: int): Reason
    requires Named(db.sessions) && token in db.sessions
  {
    if Refreshed(db, token, now).1.Granted? then Rotated
    else if !db.sessions[token].Live() then ReuseDetected
    else if db.sessions[token].expiresAt <= now then Expired
    else AccountInactive
  }

  predicate SameFamily(rows: Table, a: nat, b: nat) {
    a in rows && b in rows && rows[a].familyId == rows[b].familyId
  }

  lemma LiveRowIsTheOne(db: Auth, token: nat, id: nat)
    requires Inv(db) && SameFamily(db.sessions, id, token) && db.sessions[id].Live()
    ensures LiveInFamily(db.sessions, db.sessions[token].familyId) == {id}
    ensures db.sessions[token].Live() ==> id == token
  {
    forall other | other in LiveInFamily(db.sessions, db.sessions[token].familyId)
      ensures other == id
    {
      AtMostOneLive(db.sessions, other, id);
    }
  }

  /**
   * Whatever a refresh answers, the live row of the family it presents a token of is retired, and the
   * reason says why; no other row changes but for the mark of a recovery on the row presented.
   */
  lemma RefreshRetires(db: Auth, token: nat, now: int, id: nat)
    requires Inv(db) && token in db.sessions && id in db.sessions
    ensures var (db', a) := Refreshed(db, token, now); var row := db.sessions[id];
            && id in db'.sessions
            && db'.sessions[id]
               == if SameFamily(db.sessions, id, token) && row.Live() then row.Revoke(now, RefreshReason(db, token, now))
                  else if id == token && a.Granted? then row.(graceUsedAt := Some(now))
                  else row
  {
    assert Lookup(db.sessions, token) == Some(token);
    if SameFamily(db.sessions, id, token) && db.sessions[id].Live() {
      LiveRowIsTheOne(db, token, id);
      RefreshRetiresLive(db, token, now, id);
    } else {
      RefreshLeaves(db, token, now, id);
    }
  }

  lemma RefreshRetiresLive(db: Auth, token: nat, now: int, id: nat)
    requires Inv(db) && SameFamily(db.sessions, id, token) && db.sessions[id].Live()
    requires LiveInFamily(db.sessions, db.sessions[token].familyId) == {id}
    requires db.sessions[token].Live() ==> id == token
    ensures id in Refreshed(db, token, now).0.sessions
    ensures Refreshed(db, token, now).0.sessions[id] == db.sessions[id].Revoke(now, RefreshReason(db, token, now))
  {
    assert Lookup(db.sessions, token) == Some(token);
    if Recoverable(db, token, now) {
      var s := SoleSuccessor(db.sessions, token).value;
      assert s in Successors(db.sessions, token);
      assert s in LiveInFamily(db.sessions, db.sessions[token].familyId);
    }
  }

  lemma RefreshLeaves(db: Auth, token: nat, now: int, id: nat)
    requires Inv(db) && token in db.sessions && id in db.sessions
    requires !(SameFamily(db.sessions, id, token) && db.sessions[id].Live())
    ensures var (db', a) := Refreshed(db, token, now);
            && id in db'.sessions
            && db'.sessions[id] == if id == token && a.Granted? then db.sessions[id].(graceUsedAt := Some(now))
                                   else db.sessions[id]
  {
    assert Lookup(db.sessions, token) == Some(token);
    if Recoverable(db, token, now) {
      RecoveryLeaves(db, token, now, id);
    } else {
      assert id !in LiveInFamily(db.sessions, db.sessions[token].familyId);
      assert id == token ==> !db.sessions[token].Live();
    }
  }

  lemma RecoveryLeaves(db: Auth, token: nat, now: int, id: nat)
    requires Inv(db) && token in db.sessions && id in db.sessions && Recoverable(db, token, now)
    requires !(SameFamily(db.sessions, id, token) && db.sessions[id].Live())
    ensures var rows' := Recovered(db, token, now).0.sessions;
            && id in rows'
            && rows'[id] == if id == token then db.sessions[id].(graceUsedAt := Some(now)) else db.sessions[id]
  {
    var s := SoleSuccessor(db.sessions, token).value;
    assert s in Successors(db.sessions, token);
    assert SameFamily(db.sessions, s, token) && s != id && id != db.nextId;
  }

  /** What a request may rely on: the digests are in place, and ids from the next one on are free. */
  predicate Ready(db: Auth) {
    Named(db.sessions) && NamedResets(db.resets) && forall id :: id in db.sessions ==> id < db.nextId
  }

  lemma InvIsReady(db: Auth)
    requires Inv(db)
    ensures Ready(db)
  {
  }

  /** What any other request does to a stored session row: nothing, or the reason it is retired for. */
  function Retires(db: Auth, r: Request, id: nat): Option<Reason>
    requires Ready(db) && id in db.sessions
  {
    if r.SignOut? && SameFamily(db.sessions, id, r.token) then Some(Logout)
    else if StoresPassword(db, r, db.sessions[id].userId) then Some(PasswordReset)
    else None
  }

  lemma WrittenRows(db: Auth, userId: nat, hash: PasswordHash, now: int, id: nat)
    requires id in db.sessions
    ensures var rows' := PasswordWritten(db, userId, hash, now).sessions; var row := db.sessions[id];
            && id in rows'
            && rows'[id] == if row.Live() && row.userId == userId then row.Revoke(now, PasswordReset) else row
  {
  }

  lemma ChangeRetires(db: Auth, r: Request, id: nat)
    requires Ready(db) && r.Change? && id in db.sessions
    ensures var rows' := Serve(db, r).0.sessions; var row := db.sessions[id];
            && id in rows'
            && rows'[id] == if row.Live() && StoresPassword(db, r, row.userId) then row.Revoke(r.now, PasswordReset) else row
  {
    if Admits(db, r.access, r.now) {
      WrittenRows(db, r.access.value.sub, Argon2id(r.replacement, r.salt), r.now, id);
    }
  }

  lemma ConfirmRetires(db: Auth, r: Request, id: nat)
    requires Ready(db) && r.ConfirmReset? && id in db.sessions
    ensures var rows' := Serve(db, r).0.sessions; var row := db.sessions[id];
            && id in rows'
            && rows'[id] == if row.Live() && StoresPassword(db, r, row.userId) then row.Revoke(r.now, PasswordReset) else row
  {
    var t := ResolveReset(db.resets, r.token, r.now);
    if t.Some? {
      WrittenRows(db, db.resets[t.value].userId, Argon2id(r.password, r.salt), r.now, id);
    }
  }

  /** The requests that only open sessions or leave them alone. */
  lemma OpeningKeeps(db: Auth, r: Request, id: nat)
    requires Ready(db) && (r.Activate? || r.Login? || r.RequestReset? || r.SetStatus?) && id in db.sessions
    ensures id in Serve(db, r).0.sessions && Serve(db, r).0.sessions[id] == db.sessions[id]
  {
  }

  lemma DeleteTakes(db: Auth, r: Request, id: nat)
    requires Ready(db) && r.Delete? && id in db.sessions
    ensures id !in Serve(db, r).0.sessions <==> EndsTokensOf(db, r, db.sessions[id].userId)
    ensures id in Serve(db, r).0.sessions ==> Serve(db, r).0.sessions[id] == db.sessions[id]
  {
  }

  lemma OneRetires(db: Auth, r: Request, id: nat)
    requires Ready(db) && !r.Refresh? && id in db.sessions
    ensures id !in Serve(db, r).0.sessions <==> r.Delete? && EndsTokensOf(db, r, db.sessions[id].userId)
    ensures id in Serve(db, r).0.sessions ==>
              Serve(db, r).0.sessions[id]
              == if db.sessions[id].Live() && Retires(db, r, id).Some?
                 then db.sessions[id].Revoke(r.now, Retires(db, r, id).value) else db.sessions[id]
  {
    match r
    case SignOut(token, now) => SignOutRetires(db, token, now, id);
    case Change(_, _, _, _, _, _) => ChangeRetires(db, r, id);
    case ConfirmReset(_, _, _, _) => ConfirmRetires(db, r, id);
    case Delete(_, _, _, _) => DeleteTakes(db, r, id);
    case _ => OpeningKeeps(db, r, id);
  }

  /** A logout retires its family, a password write its user's rows, a deletion takes them; nothing else does. */
  lemma OthersRetire(db: Auth, r: Request, id: nat)
    requires Inv(db) && !r.Refresh? && id in db.sessions
    ensures Ready(db)
    ensures id !in Served(db, r).sessions <==> r.Delete? && EndsTokensOf(db, r, db.sessions[id].userId)
    ensures id in Served(db, r).sessions ==>
              Served(db, r).sessions[id]
              == if db.sessions[id].Live() && Retires(db, r, id).Some?
                 then db.sessions[id].Revoke(r.now, Retires(db, r, id).value) else db.sessions[id]
  {
    InvIsReady(db);
    OneRetires(db, r, id);
  }

  lemma SignOutRetires(db: Auth, token: nat, now: int, id: nat)
    requires Ready(db) && id in db.sessions
    ensures var rows' := LoggedOut(db, token, now).0.sessions;
            && id in rows'
            && rows'[id] == if db.sessions[id].Live() && SameFamily(db.sessions, id, token)
                            then db.sessions[id].Revoke(now, Logout) else db.sessions[id]
  {
    var found := Lookup(db.sessions, token);
    if found.Some? {
      assert found.value == token;
    }
  }

  /** The row a granted request inserts, and nothing else is inserted. */
  lemma GrantedRow(db: Auth, r: Request, id: nat)
    requires Inv(db) && id !in db.sessions
    ensures var (db', a) := Serve(db, r);
            && (id in db'.sessions <==> a.Granted? && id == a.refresh)
            && (id in db'.sessions ==>
                  var row := db'.sessions[id];
                  && row.userId == a.access.sub && row.tokenHash == Sha256(id) && row.Live() && row.graceUsedAt.None?
                  && row.issuedAt == r.now && row.expiresAt == r.now + 2_592_000_000
                  && if r.Refresh? then
                       r.token in db.sessions && row.familyId == db.sessions[r.token].familyId
                       && row.rotatedFrom.Some?
                     else
                       row.rotatedFrom.None? && forall other :: other in db.sessions ==>
                                                                 db.sessions[other].familyId != row.familyId)
  {
    match r
    case Refresh(token, now) => RefreshedRow(db, token, now, id);
    case _ =>
  }

  lemma RefreshedRow(db: Auth, token: nat, now: int, id: nat)
    requires Inv(db) && id !in db.sessions
    ensures var (db', a) := Refreshed(db, token, now);
            && (id in db'.sessions <==> a.Granted? && id == a.refresh)
            && (id in db'.sessions ==>
                  var row := db'.sessions[id];
                  && row.userId == a.access.sub && row.tokenHash == Sha256(id) && row.Live() && row.graceUsedAt.None?
                  && row.issuedAt == now && row.expiresAt == now + 2_592_000_000
                  && token in db.sessions && row.familyId == db.sessions[token].familyId && row.rotatedFrom.Some?)
  {
    var found := Lookup(db.sessions, token);
    if found.Some? {
      assert found.value == token;
      if Recoverable(db, token, now) {
        var s := SoleSuccessor(db.sessions, token).value;
        assert s in Successors(db.sessions, token);
      }
    }
  }

  // ---------------------------------------------------------------- the reset tokens

  /** A deletion takes its user's tokens, a confirmed reset consumes its user's open ones, and nothing else touches one. */
  lemma ResetTokensMove(db: Auth, r: Request, id: nat)
    requires Inv(db) && id in db.resets
    ensures var resets' := Served(db, r).resets; var t := db.resets[id];
            && (id !in resets' <==> r.Delete? && EndsTokensOf(db, r, t.userId))
            && (id in resets' ==>
                  resets'[id] == if r.ConfirmReset? && EndsTokensOf(db, r, t.userId) && t.consumedAt.None?
                                 then t.(consumedAt := Some(r.now)) else t)
  {
    match r
    case Refresh(token, now) => RefreshMints(db, token, now);
    case _ =>
  }

  /** And only a request within the limit for a known user inserts one, good for 30 minutes. */
  lemma ResetTokenIsInserted(db: Auth, r: Request, id: nat)
    requires Inv(db) && id !in db.resets
    ensures var resets' := Served(db, r).resets;
            && (id in resets' <==> r.RequestReset? && r.allowed && r.userId in db.users && id == db.nextId)
            && (id in resets' ==> resets'[id] == ResetToken(r.userId, Sha256(id), r.now + 1_800_000, None))
  {
    match r
    case Refresh(token, now) => RefreshMints(db, token, now);
    case _ =>
  }

  /** A token just requested resets the password of whoever it was requested for, for 30 minutes. */
  lemma RequestedTokenWorks(db: Auth, userId: nat, at: int, password: nat, salt: nat, now: int)
    requires Inv(db) && userId in db.users
    ensures var sent := Served(db, RequestReset(userId, true, at)); var confirm := ConfirmReset(db.nextId, password, salt, now);
            && (Serve(sent, confirm).1 == Accepted <==> now < at + 1_800_000)
            && (now < at + 1_800_000 ==> StoresPassword(sent, confirm, userId))
  {
    var sent := Served(db, RequestReset(userId, true, at));
    ResetTokenIsInserted(db, RequestReset(userId, true, at), db.nextId);
    ResetAcceptedIff(sent, db.nextId, password, salt, now);
    if now < at + 1_800_000 {
      assert ValidReset(sent.resets, db.nextId, db.nextId, now);
      ResolvedIsTheToken(sent, db.nextId, now);
    }
  }

  // ---------------------------------------------------------------- how long, and for whom

  lemma GrantExpires(db: Auth, r: Request)
    requires Inv(db) && Serve(db, r).1.Granted?
    ensures !r.SetStatus? && Serve(db, r).1.access.exp == r.now + 900_000
  {
    if r.Refresh? {
      RefreshedRow(db, r.token, r.now, db.nextId);
    }
  }

  /** An access token is good for 900 seconds from its grant: until then right after it, and never again later. */
  lemma GoodForAQuarterOfAnHour(db: Auth, r: Request, rs: seq<Request>, at: int)
    requires Inv(db) && Serve(db, r).1.Granted?
    ensures !r.SetStatus?
    ensures Admits(Served(db, r), Some(Serve(db, r).1.access), at) <==> at < r.now + 900_000
    ensures at >= r.now + 900_000 ==> !Admits(After(Served(db, r), rs), Some(Serve(db, r).1.access), at)
  {
    GrantExpires(db, r);
    GrantedIsCurrent(db, r);
  }

  predicate SetsStatusOf(r: Request, u: nat) {
    r.SetStatus? && r.userId == u
  }

  lemma {:induction false} StatusStays(db: Auth, rs: seq<Request>, u: nat)
    requires Inv(db) && u < db.nextId && forall r :: r in rs ==> !SetsStatusOf(r, u)
    ensures u in After(db, rs).users ==> u in db.users && After(db, rs).users[u].status == db.users[u].status
    decreases |rs|
  {
    if rs == [] {
    } else {
      assert rs[0] in rs && forall r :: r in rs[1..] ==> r in rs;
      var db' := Served(db, rs[0]);
      ServeAdvances(db, rs[0], 0);
      if u in db.users && u in db'.users {
        StatusIsTheOperators(db, rs[0], u);
      } else if u !in db.users {
        WhoIsAdded(db, rs[0], u);
      }
      StatusStays(db', rs[1..], u);
    }
  }

  /** Whom nobody finds active is granted nothing and admitted nowhere. */
  lemma InactiveGetsNothing(db: Auth, u: nat, t: AccessToken, token: nat, password: nat, now: int)
    requires Inv(db) && !IsActive(db.users, u) && t.sub == u
    ensures !Admits(db, Some(t), now)
    ensures token in db.sessions && db.sessions[token].userId == u ==> !Refreshed(db, token, now).1.Granted?
    ensures !LoggedIn(db, u, password, true, now).1.Granted?
  {
    if token in db.sessions {
      GrantedMeans(db, token, now);
    }
  }

  /**
   * A user an operator has set to anything but active is shut out until an operator says otherwise: no
   * access token of it is admitted, no refresh token of it is answered, and no password logs it in.
   */
  lemma InactiveIsShutOut(db: Auth, u: nat, status: AccountStatus, rs: seq<Request>, t: AccessToken, token: nat,
                          password: nat, now: int)
    requires Inv(db) && u in db.users && status != Active && forall r :: r in rs ==> !SetsStatusOf(r, u)
    requires t.sub == u
    ensures var later := After(Served(db, SetStatus(u, status)), rs);
            && !Admits(later, Some(t), now)
            && (token in later.sessions && later.sessions[token].userId == u ==> !Refreshed(later, token, now).1.Granted?)
            && !LoggedIn(later, u, password, true, now).1.Granted?
  {
    var shut := Served(db, SetStatus(u, status));
    StatusStays(shut, rs, u);
    InactiveGetsNothing(After(shut, rs), u, t, token, password, now);
  }
}
