/**
 * Accounts, sessions and reset tokens with serialised requests: what one request answers, and what
 * stays true over every sequence of requests.
 */
module AuthSessions {
  import opened Options
  import opened SessionRows

  const ACCESS_TOKEN_TTL_MS := 900 * 1000
  const PASSWORD_RESET_TTL_MS := 30 * 60_000

  datatype AccountStatus = Unverified | Active | Disabled | PendingDeletion

  /** An Argon2id digest verifies exactly its own password; a corrupt one verifies nothing. */
  datatype PasswordHash = Argon2id(password: nat, salt: nat) | Corrupt
  {
    predicate Verifies(candidate: nat) {
      Argon2id? && password == candidate
    }
  }

  datatype User = User(status: AccountStatus, tokenVersion: nat, passwordHash: PasswordHash)

  datatype ResetToken = ResetToken(userId: nat, tokenHash: Digest, expiresAt: int, consumedAt: Option<int>)

  /** The claims of an access token the service signed. */
  datatype AccessToken = AccessToken(sub: nat, sv: nat, exp: int)

  datatype Error =
    | SessionExpired | TooManyAttempts | Unauthenticated | InvalidCredentials | EmailNotVerified
    | AccountDisabled | PasswordCurrentInvalid | PasswordUnchanged | ResetTokenInvalid

  /** `Granted` carries the access token and the plaintext of the refresh token. */
  datatype Answer = Granted(access: AccessToken, refresh: nat) | Accepted | Refused(error: Error)

  datatype Auth = Auth(users: map<nat, User>, sessions: Table, resets: map<nat, ResetToken>, nextId: nat)

  // ---------------------------------------------------------------- reads

  /** Row number `id` carries the digest of plaintext number `id` (UQ_sessions_token_hash). */
  predicate Named(rows: Table) {
    forall id :: id in rows ==> rows[id].tokenHash == Sha256(id)
  }

  /** `findOne({ tokenHash: sha256(presented) })` on sessions. */
  function Lookup(rows: Table, token: nat): (r: Option<nat>)
    requires Named(rows)
    ensures r.Some? ==> r.value in rows && rows[r.value].tokenHash == Sha256(token)
    ensures r.None? ==> forall id :: id in rows ==> rows[id].tokenHash != Sha256(token)
  {
    if exists id :: id in rows && rows[id].tokenHash == Sha256(token) then
      var id :| id in rows && rows[id].tokenHash == Sha256(token);
      Some(id)
    else None
  }

  predicate IsActive(users: map<nat, User>, id: nat) {
    id in users && users[id].status == Active
  }

  /** `successors.length === 1 ? successors[0] : undefined`. */
  function SoleSuccessor(rows: Table, row: nat): (r: Option<nat>)
    requires row in rows
    ensures r.Some? <==> |Successors(rows, row)| == 1
    ensures r.Some? ==> Successors(rows, row) == {r.value}
  {
    var found := Successors(rows, row);
    if |found| == 1 then
      Singleton(found);
      var s :| s in found && found == {s};
      Some(s)
    else None
  }

  lemma Singleton(s: set<nat>)
    requires |s| == 1
    ensures exists x :: x in s && s == {x}
  {
    var x :| x in s;
    assert |s - {x}| == 0;
    assert s == {x};
  }

  /** The grace recovery applies: a fresh rotation, one successor, still live, account still active. */
  predicate Recoverable(db: Auth, row: nat, now: int)
    requires row in db.sessions
  {
    && db.sessions[row].WithinGrace(now)
    && var s := SoleSuccessor(db.sessions, row);
    && s.Some? && db.sessions[s.value].Live() && IsActive(db.users, db.sessions[row].userId)
  }

  /** The ordinary rotation applies. */
  predicate Rotatable(db: Auth, row: nat, now: int)
    requires row in db.sessions
  {
    && db.sessions[row].Live() && db.sessions[row].expiresAt > now
    && IsActive(db.users, db.sessions[row].userId)
  }

  function Bump(users: map<nat, User>, id: nat): map<nat, User> {
    if id in users then users[id := users[id].(tokenVersion := users[id].tokenVersion + 1)] else users
  }

  function SetHash(users: map<nat, User>, id: nat, hash: PasswordHash): map<nat, User> {
    if id in users then users[id := users[id].(passwordHash := hash)] else users
  }

  function Access(users: map<nat, User>, id: nat, now: int): AccessToken
    requires id in users
  {
    AccessToken(id, users[id].tokenVersion, now + ACCESS_TOKEN_TTL_MS)
  }

  // ---------------------------------------------------------------- requests, as functions of the state

  function Opened(db: Auth, userId: nat, sv: nat, now: int): (Auth, Answer) {
    var row := Mint(userId, db.nextId, db.nextId, now, None);
    (db.(sessions := db.sessions[db.nextId := row], nextId := db.nextId + 1),
     Granted(AccessToken(userId, sv, now + ACCESS_TOKEN_TTL_MS), db.nextId))
  }

  /** Row `n` is minted for the owner and family of `presented`, and row `s` is retired by it. */
  function Replace(rows: Table, s: nat, presented: Session, n: nat, now: int): Table
    requires s in rows
  {
    rows[n := Mint(presented.userId, presented.familyId, n, now, Some(s))]
    [s := rows[s].Revoke(now, Rotated)]
  }

  /** The lost-response recovery: the successor is replaced and the presented row marked. */
  function Recovered(db: Auth, row: nat, now: int): (Auth, Answer)
    requires row in db.sessions && Recoverable(db, row, now)
  {
    var existing, s := db.sessions[row], SoleSuccessor(db.sessions, row).value;
    assert s in Successors(db.sessions, row);
    var marked := db.sessions[row := existing.(graceUsedAt := Some(now))];
    (db.(sessions := Replace(marked, s, existing, db.nextId, now), nextId := db.nextId + 1),
     Granted(Access(db.users, existing.userId, now), db.nextId))
  }

  function Refreshed(db: Auth, token: nat, now: int): (Auth, Answer)
    requires Named(db.sessions)
  {
    match Lookup(db.sessions, token)
    case None => (db, Refused(SessionExpired))
    case Some(row) =>
      var existing := db.sessions[row];
      var family := LiveInFamily(db.sessions, existing.familyId);
      if Recoverable(db, row, now) then Recovered(db, row, now)
      else if !existing.Live() then
        (db.(sessions := RevokeAll(db.sessions, family, now, ReuseDetected),
             users := Bump(db.users, existing.userId)),
         Refused(SessionExpired))
      else if existing.expiresAt <= now then
        (db.(sessions := db.sessions[row := existing.Revoke(now, Expired)]), Refused(SessionExpired))
      else if !IsActive(db.users, existing.userId) then
        (db.(sessions := RevokeAll(db.sessions, family, now, AccountInactive)), Refused(SessionExpired))
      else
        (db.(sessions := Replace(db.sessions, row, existing, db.nextId, now), nextId := db.nextId + 1),
         Granted(Access(db.users, existing.userId, now), db.nextId))
  }

  function LoggedOut(db: Auth, token: nat, now: int): (Auth, Answer)
    requires Named(db.sessions)
  {
    match Lookup(db.sessions, token)
    case None => (db, Accepted)
    case Some(row) =>
      var family := LiveInFamily(db.sessions, db.sessions[row].familyId);
      (db.(sessions := RevokeAll(db.sessions, family, now, Logout)), Accepted)
  }

  function LoggedIn(db: Auth, userId: nat, password: nat, allowed: bool, now: int): (Auth, Answer) {
    if !allowed then (db, Refused(TooManyAttempts))
    else if userId !in db.users || !db.users[userId].passwordHash.Verifies(password) then
      (db, Refused(InvalidCredentials))
    else if db.users[userId].status == Unverified then (db, Refused(EmailNotVerified))
    else if db.users[userId].status != Active then (db, Refused(AccountDisabled))
    else Opened(db, userId, db.users[userId].tokenVersion, now)
  }

  /** Version bump, new hash, and every live row of the user revoked: shared by change and reset. */
  function PasswordWritten(db: Auth, userId: nat, hash: PasswordHash, now: int): Auth {
    db.(users := SetHash(Bump(db.users, userId), userId, hash),
        sessions := RevokeAll(db.sessions, LiveOfUser(db.sessions, userId), now, PasswordReset))
  }

  function Changed(db: Auth, userId: nat, current: nat, replacement: nat, salt: nat, allowed: bool, now: int)
    : (Auth, Answer)
  {
    if !allowed then (db, Refused(TooManyAttempts))
    else if userId !in db.users then (db, Refused(Unauthenticated))
    else if !db.users[userId].passwordHash.Verifies(current) then (db, Refused(PasswordCurrentInvalid))
    else if db.users[userId].passwordHash.Verifies(replacement) then (db, Refused(PasswordUnchanged))
    else
      var written := PasswordWritten(db, userId, Argon2id(replacement, salt), now);
      Opened(written, userId, db.users[userId].tokenVersion + 1, now)
  }

  /** `requestReset` past its limiter, for an address that owns an account. */
  function ResetRequested(db: Auth, userId: nat, allowed: bool, now: int): (Auth, Answer) {
    if !allowed || userId !in db.users then (db, Accepted)
    else
      var t := ResetToken(userId, Sha256(db.nextId), now + PASSWORD_RESET_TTL_MS, None);
      (db.(resets := db.resets[db.nextId := t], nextId := db.nextId + 1), Accepted)
  }

  predicate NamedResets(resets: map<nat, ResetToken>) {
    forall id :: id in resets ==> resets[id].tokenHash == Sha256(id)
  }

  predicate ValidReset(resets: map<nat, ResetToken>, id: nat, token: nat, now: int) {
    && id in resets && resets[id].tokenHash == Sha256(token)
    && resets[id].consumedAt.None? && resets[id].expiresAt > now
  }

  /** `resolveValidToken`: the unconsumed, unexpired row of the presented token. */
  function ResolveReset(resets: map<nat, ResetToken>, token: nat, now: int): (r: Option<nat>)
    requires NamedResets(resets)
    ensures r.Some? ==> ValidReset(resets, r.value, token, now)
    ensures r.None? ==> forall id :: !ValidReset(resets, id, token, now)
  {
    if exists id :: id in resets && ValidReset(resets, id, token, now) then
      var id :| id in resets && ValidReset(resets, id, token, now);
      Some(id)
    else None
  }

  /** The presented token and every other unconsumed token of its owner. */
  function ConsumeAll(resets: map<nat, ResetToken>, presented: nat, now: int): map<nat, ResetToken>
    requires presented in resets
  {
    var userId := resets[presented].userId;
    map id | id in resets ::
      if id == presented || (resets[id].userId == userId && resets[id].consumedAt.None?)
      then resets[id].(consumedAt := Some(now)) else resets[id]
  }

  function ResetConfirmed(db: Auth, token: nat, password: nat, salt: nat, now: int): (Auth, Answer)
    requires NamedResets(db.resets)
  {
    match ResolveReset(db.resets, token, now)
    case None => (db, Refused(ResetTokenInvalid))
    case Some(id) =>
      var written := PasswordWritten(db, db.resets[id].userId, Argon2id(password, salt), now);
      (written.(resets := ConsumeAll(db.resets, id, now)), Accepted)
  }

  function WithUser(db: Auth, user: User): Auth {
    db.(users := db.users[db.nextId := user], nextId := db.nextId + 1)
  }

  /** `verify-email` materialised an account: a new active user, logged in. */
  function Activated(db: Auth, hash: PasswordHash, now: int): (Auth, Answer) {
    Opened(WithUser(db, User(Active, 0, hash)), db.nextId, 0, now)
  }

  function RowsWithout(rows: Table, userId: nat): Table {
    map id | id in rows && rows[id].userId != userId :: rows[id]
  }

  /** `DELETE /account`: the row, and by cascade everything that references it. */
  function Deleted(db: Auth, userId: nat, password: nat, allowed: bool): (Auth, Answer) {
    if !allowed then (db, Refused(TooManyAttempts))
    else if userId !in db.users then (db, Refused(Unauthenticated))
    else if !db.users[userId].passwordHash.Verifies(password) then (db, Refused(PasswordCurrentInvalid))
    else
      (Auth(db.users - {userId},
            RowsWithout(db.sessions, userId),
            map id | id in db.resets && db.resets[id].userId != userId :: db.resets[id],
            db.nextId),
       Accepted)
  }

  /** `canActivate`: `presented` is the token the signature check accepted, if any. */
  predicate Admits(db: Auth, presented: Option<AccessToken>, now: int) {
    && presented.Some? && now < presented.value.exp
    && presented.value.sub in db.users
    && db.users[presented.value.sub].status == Active
    && db.users[presented.value.sub].tokenVersion == presented.value.sv
  }

  // ---------------------------------------------------------------- sequences of requests

  /** `SetStatus` is an operator's doing: no route of the service writes it. */
  datatype Request =
    | Activate(hash: PasswordHash, now: int)
    | Login(userId: nat, password: nat, allowed: bool, now: int)
    | Refresh(token: nat, now: int)
    | SignOut(token: nat, now: int)
    | Change(access: Option<AccessToken>, current: nat, replacement: nat, salt: nat, allowed: bool, now: int)
    | RequestReset(userId: nat, allowed: bool, now: int)
    | ConfirmReset(token: nat, password: nat, salt: nat, now: int)
    | Delete(access: Option<AccessToken>, password: nat, allowed: bool, now: int)
    | SetStatus(userId: nat, status: AccountStatus)

  const EMPTY := Auth(map[], map[], map[], 0)

  ghost predicate Inv(db: Auth) {
    && Chained(db.sessions)
    && RowsOk(db.sessions, db.users.Keys, db.nextId)
    && (forall id :: id in db.users ==> id < db.nextId)
    && ResetsOk(db.resets, db.users.Keys, db.nextId)
  }

  predicate RowsOk(rows: Table, users: set<nat>, nextId: nat) {
    && Named(rows)
    && (forall id :: id in rows ==> id < nextId && rows[id].familyId < nextId && rows[id].userId in users)
  }

  predicate ResetsOk(resets: map<nat, ResetToken>, users: set<nat>, nextId: nat) {
    && NamedResets(resets)
    && (forall id :: id in resets ==> id < nextId && resets[id].userId in users)
  }

  function Serve(db: Auth, r: Request): (Auth, Answer)
    requires Named(db.sessions) && NamedResets(db.resets)
  {
    match r
    case Activate(hash, now) => Activated(db, hash, now)
    case Login(userId, password, allowed, now) => LoggedIn(db, userId, password, allowed, now)
    case Refresh(token, now) => Refreshed(db, token, now)
    case SignOut(token, now) => LoggedOut(db, token, now)
    case Change(access, current, replacement, salt, allowed, now) =>
      if !Admits(db, access, now) then (db, Refused(Unauthenticated))
      else Changed(db, access.value.sub, current, replacement, salt, allowed, now)
    case RequestReset(userId, allowed, now) => ResetRequested(db, userId, allowed, now)
    case ConfirmReset(token, password, salt, now) => ResetConfirmed(db, token, password, salt, now)
    case Delete(access, password, allowed, now) =>
      if !Admits(db, access, now) then (db, Refused(Unauthenticated))
      else Deleted(db, access.value.sub, password, allowed)
    case SetStatus(userId, status) =>
      (if userId in db.users then db.(users := db.users[userId := db.users[userId].(status := status)]) else db,
       Accepted)
  }

  /** Writes to sessions that amount to at most one rotation, minting at most the next id. */
  lemma SessionWritesKeepInv(db: Auth, db': Auth, n: Option<nat>)
    requires Inv(db) && OneRotation(db.sessions, db'.sessions, n)
    requires db'.users.Keys == db.users.Keys && db'.resets == db.resets
    requires match n
             case None => db'.nextId == db.nextId
             case Some(id) => id == db.nextId && db'.nextId == db.nextId + 1 && db'.sessions[id].tokenHash == Sha256(id)
    ensures Inv(db')
  {
    RotationKeepsChains(db.sessions, db'.sessions, n);
    forall id | id in db'.sessions
      ensures && db'.sessions[id].tokenHash == Sha256(id) && id < db'.nextId
              && db'.sessions[id].familyId < db'.nextId && db'.sessions[id].userId in db'.users
    {
      if id in db.sessions {
        assert db.sessions[id].EvolvesTo(db'.sessions[id]);
      }
    }
  }

  lemma RevocationIsOneRotation(rows: Table, ids: set<nat>, at: int, reason: Reason)
    requires reason != Rotated
    requires forall id :: id in ids && id in rows ==> rows[id].Live()
    ensures OneRotation(rows, RevokeAll(rows, ids, at, reason), None)
  {
  }

  lemma OpenedKeepsInv(db: Auth, userId: nat, sv: nat, now: int)
    requires Inv(db) && userId in db.users
    ensures Inv(Opened(db, userId, sv, now).0)
  {
    IssueKeepsChains(db.sessions, db.nextId, Mint(userId, db.nextId, db.nextId, now, None));
  }

  /** The row a granted refresh mints, if it is granted. */
  function MintedBy(db: Auth, token: nat, now: int): Option<nat>
    requires Named(db.sessions)
  {
    var row := Lookup(db.sessions, token);
    if row.Some? && (Recoverable(db, row.value, now) || Rotatable(db, row.value, now)) then Some(db.nextId) else None
  }

  lemma ReplaceIsOneRotation(rows: Table, marked: Table, s: nat, presented: Session, n: nat, now: int)
    requires marked.Keys == rows.Keys && n !in rows && s in rows && rows[s].Live() && marked[s] == rows[s]
    requires presented.familyId == rows[s].familyId && presented.userId == rows[s].userId
    requires forall id :: id in rows ==>
                            rows[id].EvolvesTo(marked[id]) && rows[id].revocation == marked[id].revocation
    ensures OneRotation(rows, Replace(marked, s, presented, n, now), Some(n))
  {
  }

  lemma RecoveryIsOneRotation(db: Auth, row: nat, now: int)
    requires row in db.sessions && Recoverable(db, row, now) && db.nextId !in db.sessions
    ensures OneRotation(db.sessions, Recovered(db, row, now).0.sessions, Some(db.nextId))
  {
    var existing, s := db.sessions[row], SoleSuccessor(db.sessions, row).value;
    assert s in Successors(db.sessions, row);
    ReplaceIsOneRotation(db.sessions, db.sessions[row := existing.(graceUsedAt := Some(now))], s, existing, db.nextId, now);
  }

  lemma ExpiryIsOneRotation(rows: Table, row: nat, now: int)
    requires row in rows && rows[row].Live()
    ensures OneRotation(rows, rows[row := rows[row].Revoke(now, Expired)], None)
  {
  }

  lemma RefreshIsOneRotation(db: Auth, token: nat, now: int)
    requires RowsOk(db.sessions, db.users.Keys, db.nextId)
    ensures OneRotation(db.sessions, Refreshed(db, token, now).0.sessions, MintedBy(db, token, now))
  {
    var found := Lookup(db.sessions, token);
    assert db.nextId !in db.sessions;
    if found.Some? {
      var row := found.value;
      var existing := db.sessions[row];
      var family := LiveInFamily(db.sessions, existing.familyId);
      if Recoverable(db, row, now) {
        RecoveryIsOneRotation(db, row, now);
      } else if Rotatable(db, row, now) {
        ReplaceIsOneRotation(db.sessions, db.sessions, row, existing, db.nextId, now);
      } else if !existing.Live() {
        RevocationIsOneRotation(db.sessions, family, now, ReuseDetected);
      } else if existing.expiresAt <= now {
        ExpiryIsOneRotation(db.sessions, row, now);
      } else {
        RevocationIsOneRotation(db.sessions, family, now, AccountInactive);
      }
    }
  }

  lemma RefreshMints(db: Auth, token: nat, now: int)
    requires RowsOk(db.sessions, db.users.Keys, db.nextId)
    ensures var db', n := Refreshed(db, token, now).0, MintedBy(db, token, now);
            && db'.users.Keys == db.users.Keys && db'.resets == db.resets
            && db'.nextId == (if n.Some? then db.nextId + 1 else db.nextId)
            && (n.Some? ==> && db.nextId in db'.sessions && db'.sessions[db.nextId].Live()
                            && db'.sessions[db.nextId].tokenHash == Sha256(db.nextId))
  {
    var found := Lookup(db.sessions, token);
    assert db.nextId !in db.sessions;
    if found.Some? && Recoverable(db, found.value, now) {
      var s := SoleSuccessor(db.sessions, found.value).value;
      assert s in Successors(db.sessions, found.value);
    }
  }

  lemma RefreshKeepsInv(db: Auth, token: nat, now: int)
    requires Inv(db)
    ensures Inv(Refreshed(db, token, now).0)
  {
    var db' := Refreshed(db, token, now).0;
    var n := MintedBy(db, token, now);
    RefreshIsOneRotation(db, token, now);
    RefreshMints(db, token, now);
    SessionWritesKeepInv(db, db', n);
  }

  /** A family belongs to one user, so the cascade takes whole chains. */
  lemma CascadeTakesChains(rows: Table, userId: nat)
    requires Chained(rows)
    ensures Chained(RowsWithout(rows, userId))
  {
    var rows' := RowsWithout(rows, userId);
    forall id | id in rows'
      ensures HasChain(rows', rows'[id].familyId)
    {
      var family := rows[id].familyId;
      assert HasChain(rows, family);
      var c :| IsChain(rows, family, c);
      assert id in c;
      assert IsChain(rows', family, c);
    }
  }

  lemma DeleteKeepsInv(db: Auth, userId: nat, password: nat, allowed: bool)
    requires Inv(db)
    ensures Inv(Deleted(db, userId, password, allowed).0)
  {
    CascadeTakesChains(db.sessions, userId);
  }

  lemma SignOutKeepsInv(db: Auth, token: nat, now: int)
    requires Inv(db)
    ensures Inv(LoggedOut(db, token, now).0)
  {
    var row := Lookup(db.sessions, token);
    if row.Some? {
      RevocationIsOneRotation(db.sessions, LiveInFamily(db.sessions, db.sessions[row.value].familyId), now, Logout);
      SessionWritesKeepInv(db, LoggedOut(db, token, now).0, None);
    }
  }

  /** Revoking a user's live rows, the session part of a password write. */
  lemma UserRevocationKeepsInv(db: Auth, userId: nat, now: int)
    requires Inv(db)
    ensures Inv(db.(sessions := RevokeAll(db.sessions, LiveOfUser(db.sessions, userId), now, PasswordReset)))
  {
    RevocationIsOneRotation(db.sessions, LiveOfUser(db.sessions, userId), now, PasswordReset);
    SessionWritesKeepInv(db, db.(sessions := RevokeAll(db.sessions, LiveOfUser(db.sessions, userId), now, PasswordReset)),
                         None);
  }

  /** A write to existing users, the user part of a password write. */
  lemma UserWriteKeepsInv(db: Auth, db': Auth)
    requires Inv(db) && db'.users.Keys == db.users.Keys
    requires db'.sessions == db.sessions && db'.resets == db.resets && db'.nextId == db.nextId
    ensures Inv(db')
  {
  }

  lemma PasswordWriteKeepsInv(db: Auth, userId: nat, hash: PasswordHash, now: int)
    requires Inv(db)
    ensures Inv(PasswordWritten(db, userId, hash, now))
  {
    UserRevocationKeepsInv(db, userId, now);
    UserWriteKeepsInv(db.(sessions := RevokeAll(db.sessions, LiveOfUser(db.sessions, userId), now, PasswordReset)),
                      PasswordWritten(db, userId, hash, now));
  }

  lemma ChangeKeepsInv(db: Auth, userId: nat, current: nat, replacement: nat, salt: nat, allowed: bool, now: int)
    requires Inv(db)
    ensures Inv(Changed(db, userId, current, replacement, salt, allowed, now).0)
  {
    if userId in db.users {
      var written := PasswordWritten(db, userId, Argon2id(replacement, salt), now);
      PasswordWriteKeepsInv(db, userId, Argon2id(replacement, salt), now);
      OpenedKeepsInv(written, userId, db.users[userId].tokenVersion + 1, now);
    }
  }

  lemma ConfirmKeepsInv(db: Auth, token: nat, password: nat, salt: nat, now: int)
    requires Inv(db)
    ensures Inv(ResetConfirmed(db, token, password, salt, now).0)
  {
    var id := ResolveReset(db.resets, token, now);
    if id.Some? {
      PasswordWriteKeepsInv(db, db.resets[id.value].userId, Argon2id(password, salt), now);
    }
  }

  lemma NewUserKeepsInv(db: Auth, user: User)
    requires Inv(db)
    ensures Inv(WithUser(db, user))
  {
    var added := WithUser(db, user);
    assert db.users.Keys <= added.users.Keys;
    MoreUsersKeepRows(db.sessions, db.users.Keys, added.users.Keys, db.nextId);
  }

  lemma MoreUsersKeepRows(rows: Table, users: set<nat>, users': set<nat>, nextId: nat)
    requires RowsOk(rows, users, nextId) && users <= users'
    ensures RowsOk(rows, users', nextId + 1)
  {
  }

  lemma ActivateKeepsInv(db: Auth, hash: PasswordHash, now: int)
    requires Inv(db)
    ensures Inv(Activated(db, hash, now).0)
  {
    NewUserKeepsInv(db, User(Active, 0, hash));
    OpenedKeepsInv(WithUser(db, User(Active, 0, hash)), db.nextId, 0, now);
  }

  lemma LoginKeepsInv(db: Auth, userId: nat, password: nat, allowed: bool, now: int)
    requires Inv(db)
    ensures Inv(LoggedIn(db, userId, password, allowed, now).0)
  {
    if LoggedIn(db, userId, password, allowed, now).1.Granted? {
      OpenedKeepsInv(db, userId, db.users[userId].tokenVersion, now);
    } else {
      assert LoggedIn(db, userId, password, allowed, now).0 == db;
    }
  }

  lemma ResetRequestKeepsInv(db: Auth, userId: nat, allowed: bool, now: int)
    requires Inv(db)
    ensures Inv(ResetRequested(db, userId, allowed, now).0)
  {
  }

  lemma ServeKeepsInv(db: Auth, r: Request)
    requires Inv(db)
    ensures Inv(Serve(db, r).0)
  {
    match r
    case Refresh(token, now) => RefreshKeepsInv(db, token, now);
    case Delete(access, password, allowed, now) =>
      if Admits(db, access, now) {
        DeleteKeepsInv(db, access.value.sub, password, allowed);
      }
    case SignOut(token, now) => SignOutKeepsInv(db, token, now);
    case Activate(hash, now) => ActivateKeepsInv(db, hash, now);
    case Login(userId, password, allowed, now) => LoginKeepsInv(db, userId, password, allowed, now);
    case Change(access, current, replacement, salt, allowed, now) =>
      if Admits(db, access, now) {
        ChangeKeepsInv(db, access.value.sub, current, replacement, salt, allowed, now);
      }
    case ConfirmReset(token, password, salt, now) => ConfirmKeepsInv(db, token, password, salt, now);
    case RequestReset(userId, allowed, now) => ResetRequestKeepsInv(db, userId, allowed, now);
    case SetStatus(userId, status) => UserWriteKeepsInv(db, Serve(db, r).0);
  }

  /** The state after one request. */
  function Served(db: Auth, r: Request): Auth
    requires Inv(db)
    ensures Inv(Served(db, r))
  {
    ServeKeepsInv(db, r);
    Serve(db, r).0
  }

  function After(db: Auth, rs: seq<Request>): Auth
    requires Inv(db)
    ensures Inv(After(db, rs))
    decreases |rs|
  {
    if rs == [] then db
    else
      ServeKeepsInv(db, rs[0]);
      After(Serve(db, rs[0]).0, rs[1..])
  }

  // ---------------------------------------------------------------- what a refresh answers

  /**
   * On the chain of its family, a presented token is answered exactly when its row is the last one,
   * live and unexpired, or the last but one, rotated at most 15 s ago with its mark unused and the
   * last one live; and the account is active.
   */
  lemma RefreshGrantedIff(db: Auth, token: nat, now: int, c: seq<nat>, i: nat)
    requires Inv(db) && token in db.sessions
    requires IsChain(db.sessions, db.sessions[token].familyId, c) && i < |c| && c[i] == token
    ensures Refreshed(db, token, now).1.Granted? <==>
            && IsActive(db.users, db.sessions[token].userId)
            && db.sessions[c[|c| - 1]].Live()
            && (|| (i == |c| - 1 && db.sessions[token].expiresAt > now)
                || (i == |c| - 2 && db.sessions[token].WithinGrace(now)))
  {
    var rows := db.sessions;
    GrantedMeans(db, token, now);
    SuccessorIffRotated(rows, token);
    if i < |c| - 1 {
      assert c[i + 1] in Successors(rows, token);
      SoleIs(rows, token, c[i + 1]);
    }
  }

  lemma GrantedMeans(db: Auth, token: nat, now: int)
    requires Inv(db) && token in db.sessions
    ensures Refreshed(db, token, now).1.Granted? <==>
            Rotatable(db, token, now) || (db.sessions[token].WithinGrace(now) && Recoverable(db, token, now))
  {
    assert Lookup(db.sessions, token) == Some(token);
  }

  lemma SoleIs(rows: Table, row: nat, s: nat)
    requires row in rows && |Successors(rows, row)| == 1 && s in Successors(rows, row)
    ensures SoleSuccessor(rows, row) == Some(s)
  {
  }

  predicate IsCurrentPair(db: Auth, a: Answer) {
    && a.Granted? && IsActive(db.users, a.access.sub) && db.users[a.access.sub].tokenVersion == a.access.sv
    && a.refresh == db.nextId - 1 && a.refresh in db.sessions
    && db.sessions[a.refresh].userId == a.access.sub && db.sessions[a.refresh].Live()
    && db.sessions[a.refresh].expiresAt >= a.access.exp
  }

  lemma OpenedIsCurrent(db: Auth, userId: nat, sv: nat, now: int)
    requires IsActive(db.users, userId) && db.users[userId].tokenVersion == sv
    ensures IsCurrentPair(Opened(db, userId, sv, now).0, Opened(db, userId, sv, now).1)
  {
  }

  lemma RefreshedIsCurrent(db: Auth, token: nat, now: int)
    requires Inv(db) && Refreshed(db, token, now).1.Granted?
    ensures IsCurrentPair(Refreshed(db, token, now).0, Refreshed(db, token, now).1)
  {
    RefreshMints(db, token, now);
  }

  lemma ChangedIsCurrent(db: Auth, userId: nat, current: nat, replacement: nat, salt: nat, allowed: bool, now: int)
    requires IsActive(db.users, userId) && Changed(db, userId, current, replacement, salt, allowed, now).1.Granted?
    ensures var (db', a) := Changed(db, userId, current, replacement, salt, allowed, now); IsCurrentPair(db', a)
  {
    var written := PasswordWritten(db, userId, Argon2id(replacement, salt), now);
    OpenedIsCurrent(written, userId, db.users[userId].tokenVersion + 1, now);
  }

  /** Whatever grants a pair grants it to an active user, at that user's version after the request. */
  lemma GrantedIsCurrent(db: Auth, r: Request)
    requires Inv(db) && Serve(db, r).1.Granted?
    ensures IsCurrentPair(Serve(db, r).0, Serve(db, r).1)
  {
    match r
    case Refresh(token, now) => RefreshedIsCurrent(db, token, now);
    case Change(access, current, replacement, salt, allowed, now) =>
      ChangedIsCurrent(db, access.value.sub, current, replacement, salt, allowed, now);
    case Login(userId, _, _, now) => OpenedIsCurrent(db, userId, db.users[userId].tokenVersion, now);
    case Activate(hash, now) =>
      OpenedIsCurrent(WithUser(db, User(Active, 0, hash)), db.nextId, 0, now);
    case _ =>
  }

  lemma CurrentPairWorks(db: Auth, a: Answer, now: int)
    requires Inv(db) && a.Granted? && IsCurrentPair(db, a) && now < a.access.exp
    ensures Admits(db, Some(a.access), now)
    ensures a.refresh in db.sessions && db.sessions[a.refresh].userId == a.access.sub
    ensures Refreshed(db, a.refresh, now).1.Granted?
  {
    var row := db.sessions[a.refresh];
    assert HasChain(db.sessions, row.familyId);
    var c :| IsChain(db.sessions, row.familyId, c);
    assert a.refresh in c;
    var i :| 0 <= i < |c| && c[i] == a.refresh;
    RefreshGrantedIff(db, a.refresh, now, c, i);
  }

  /** A granted pair works: the access token is admitted, and the refresh token can be rotated in turn. */
  lemma GrantedPairWorks(db: Auth, r: Request, now: int)
    requires Inv(db) && Serve(db, r).1.Granted?
    requires now < Serve(db, r).1.access.exp
    ensures var (db', a) := Serve(db, r);
            && Inv(db') && Admits(db', Some(a.access), now)
            && a.refresh in db'.sessions && db'.sessions[a.refresh].userId == a.access.sub
            && Refreshed(db', a.refresh, now).1.Granted?
  {
    ServeKeepsInv(db, r);
    GrantedIsCurrent(db, r);
    CurrentPairWorks(Serve(db, r).0, Serve(db, r).1, now);
  }

  // ---------------------------------------------------------------- a dead family stays dead

  ghost predicate Dead(db: Auth, family: nat) {
    family < db.nextId && LiveInFamily(db.sessions, family) == {}
  }

  /**
   * What any request does to the sessions table, row by row: a surviving row only moves forward,
   * and a row that was not there before opens a new family or replaces a live row of its own.
   */
  predicate Advances(rows: Table, rows': Table, nextId: nat, id: nat) {
    id in rows' ==>
      if id in rows then rows[id].EvolvesTo(rows'[id])
      else id >= nextId && (rows'[id].familyId >= nextId || LiveInFamily(rows, rows'[id].familyId) != {})
  }

  lemma OneRotationAdvances(rows: Table, rows': Table, n: Option<nat>, nextId: nat, id: nat)
    requires OneRotation(rows, rows', n) && (n.Some? ==> n.value == nextId)
    ensures Advances(rows, rows', nextId, id)
  {
    if n.Some? {
      assert rows'[n.value].rotatedFrom.value in LiveInFamily(rows, rows'[n.value].familyId);
    }
  }

  lemma RefreshAdvances(db: Auth, token: nat, now: int, id: nat)
    requires Inv(db)
    ensures Advances(db.sessions, Refreshed(db, token, now).0.sessions, db.nextId, id)
    ensures db.nextId <= Refreshed(db, token, now).0.nextId
  {
    var rows' := Refreshed(db, token, now).0.sessions;
    RefreshIsOneRotation(db, token, now);
    RefreshMints(db, token, now);
    OneRotationAdvances(db.sessions, rows', MintedBy(db, token, now), db.nextId, id);
  }

  lemma SignOutAdvances(db: Auth, token: nat, now: int, id: nat)
    requires Inv(db)
    ensures Advances(db.sessions, LoggedOut(db, token, now).0.sessions, db.nextId, id)
  {
  }

  lemma PasswordWriteAdvances(db: Auth, userId: nat, hash: PasswordHash, sv: nat, now: int, id: nat)
    requires Inv(db)
    ensures var written := PasswordWritten(db, userId, hash, now);
            && Advances(db.sessions, written.sessions, db.nextId, id)
            && Advances(db.sessions, Opened(written, userId, sv, now).0.sessions, db.nextId, id)
  {
  }

  lemma OpenedAdvances(db: Auth, added: Auth, userId: nat, sv: nat, now: int, id: nat)
    requires Inv(db) && added.sessions == db.sessions && added.nextId >= db.nextId
    ensures Advances(db.sessions, Opened(added, userId, sv, now).0.sessions, db.nextId, id)
  {
  }

  lemma ActivatedAdvances(db: Auth, hash: PasswordHash, now: int, id: nat)
    requires Inv(db)
    ensures Advances(db.sessions, Activated(db, hash, now).0.sessions, db.nextId, id)
    ensures db.nextId <= Activated(db, hash, now).0.nextId
  {
    OpenedAdvances(db, WithUser(db, User(Active, 0, hash)), db.nextId, 0, now, id);
  }

  lemma LoggedInAdvances(db: Auth, userId: nat, password: nat, allowed: bool, now: int, id: nat)
    requires Inv(db)
    ensures Advances(db.sessions, LoggedIn(db, userId, password, allowed, now).0.sessions, db.nextId, id)
    ensures db.nextId <= LoggedIn(db, userId, password, allowed, now).0.nextId
  {
    if userId in db.users {
      OpenedAdvances(db, db, userId, db.users[userId].tokenVersion, now, id);
    }
  }

  lemma ChangedAdvances(db: Auth, userId: nat, current: nat, replacement: nat, salt: nat, allowed: bool, now: int, id: nat)
    requires Inv(db)
    ensures Advances(db.sessions, Changed(db, userId, current, replacement, salt, allowed, now).0.sessions, db.nextId, id)
    ensures db.nextId <= Changed(db, userId, current, replacement, salt, allowed, now).0.nextId
  {
    if userId in db.users {
      PasswordWriteAdvances(db, userId, Argon2id(replacement, salt), db.users[userId].tokenVersion + 1, now, id);
    }
  }

  lemma ConfirmedAdvances(db: Auth, token: nat, password: nat, salt: nat, now: int, id: nat)
    requires Inv(db)
    ensures Advances(db.sessions, ResetConfirmed(db, token, password, salt, now).0.sessions, db.nextId, id)
    ensures db.nextId <= ResetConfirmed(db, token, password, salt, now).0.nextId
  {
    var t := ResolveReset(db.resets, token, now);
    if t.Some? {
      PasswordWriteAdvances(db, db.resets[t.value].userId, Argon2id(password, salt), 0, now, id);
    }
  }

  lemma DeletedAdvances(db: Auth, userId: nat, password: nat, allowed: bool, id: nat)
    requires Inv(db)
    ensures Advances(db.sessions, Deleted(db, userId, password, allowed).0.sessions, db.nextId, id)
    ensures db.nextId == Deleted(db, userId, password, allowed).0.nextId
  {
  }

  lemma ChangeRequestAdvances(db: Auth, r: Request, id: nat)
    requires Inv(db) && r.Change?
    ensures Advances(db.sessions, Serve(db, r).0.sessions, db.nextId, id)
    ensures db.nextId <= Serve(db, r).0.nextId
  {
    if Admits(db, r.access, r.now) {
      ChangedAdvances(db, r.access.value.sub, r.current, r.replacement, r.salt, r.allowed, r.now, id);
    }
  }

  lemma DeleteRequestAdvances(db: Auth, r: Request, id: nat)
    requires Inv(db) && r.Delete?
    ensures Advances(db.sessions, Serve(db, r).0.sessions, db.nextId, id)
    ensures db.nextId <= Serve(db, r).0.nextId
  {
    if Admits(db, r.access, r.now) {
      DeletedAdvances(db, r.access.value.sub, r.password, r.allowed, id);
    }
  }

  lemma ServeAdvances(db: Auth, r: Request, id: nat)
    requires Inv(db)
    ensures Advances(db.sessions, Serve(db, r).0.sessions, db.nextId, id)
    ensures db.nextId <= Serve(db, r).0.nextId
  {
    match r
    case Refresh(token, now) => RefreshAdvances(db, token, now, id);
    case SignOut(token, now) => SignOutAdvances(db, token, now, id);
    case Activate(hash, now) => ActivatedAdvances(db, hash, now, id);
    case Login(userId, password, allowed, now) => LoggedInAdvances(db, userId, password, allowed, now, id);
    case ConfirmReset(token, password, salt, now) => ConfirmedAdvances(db, token, password, salt, now, id);
    case Change(_, _, _, _, _, _) => ChangeRequestAdvances(db, r, id);
    case Delete(_, _, _, _) => DeleteRequestAdvances(db, r, id);
    case RequestReset(_, _, _) =>
    case SetStatus(_, _) =>
  }

  lemma StepKeepsDead(db: Auth, r: Request, family: nat)
    requires Inv(db) && Dead(db, family)
    ensures Dead(Serve(db, r).0, family)
  {
    var db' := Serve(db, r).0;
    forall id | id in db'.sessions && db'.sessions[id].familyId == family
      ensures !db'.sessions[id].Live()
    {
      ServeAdvances(db, r, id);
      assert id !in LiveInFamily(db.sessions, family);
    }
    ServeAdvances(db, r, 0);
  }

  lemma {:induction false} FamilyDeathIsPermanent(db: Auth, rs: seq<Request>, family: nat)
    requires Inv(db) && Dead(db, family)
    ensures Dead(After(db, rs), family)
    decreases |rs|
  {
    if rs == [] {
    } else {
      ServeKeepsInv(db, rs[0]);
      StepKeepsDead(db, rs[0], family);
      FamilyDeathIsPermanent(Serve(db, rs[0]).0, rs[1..], family);
    }
  }

  /** A row keeps its family for as long as it exists, and its id is never given to another row. */
  lemma {:induction false} FamilyIsFixed(db: Auth, rs: seq<Request>, id: nat)
    requires Inv(db) && id < db.nextId
    ensures id in After(db, rs).sessions ==>
              id in db.sessions && db.sessions[id].EvolvesTo(After(db, rs).sessions[id])
    decreases |rs|
  {
    if rs == [] {
    } else {
      var db' := Serve(db, rs[0]).0;
      ServeKeepsInv(db, rs[0]);
      ServeAdvances(db, rs[0], id);
      FamilyIsFixed(db', rs[1..], id);
    }
  }

  /** In a dead family there is no row a refresh could answer. */
  lemma DeadFamilyAnswersNothing(db: Auth, token: nat, now: int)
    requires Inv(db) && (token in db.sessions ==> Dead(db, db.sessions[token].familyId))
    ensures Refreshed(db, token, now).1 == Refused(SessionExpired)
  {
    if token in db.sessions {
      var family := db.sessions[token].familyId;
      assert HasChain(db.sessions, family);
      var c :| IsChain(db.sessions, family, c);
      assert token in c;
      var i :| 0 <= i < |c| && c[i] == token;
      assert c[|c| - 1] !in LiveInFamily(db.sessions, family);
      RefreshGrantedIff(db, token, now, c, i);
    }
  }

  /** Every token ever issued in a dead family is refused after any further requests. */
  lemma DeadFamilyIsRefused(db: Auth, rs: seq<Request>, token: nat, now: int)
    requires Inv(db) && token < db.nextId && (token in db.sessions ==> Dead(db, db.sessions[token].familyId))
    ensures Refreshed(After(db, rs), token, now).1 == Refused(SessionExpired)
  {
    var later := After(db, rs);
    FamilyIsFixed(db, rs, token);
    if token in later.sessions {
      FamilyDeathIsPermanent(db, rs, db.sessions[token].familyId);
    }
    DeadFamilyAnswersNothing(later, token, now);
  }

  /** After every live row of its family is revoked, a family is dead. */
  lemma RevokedFamilyIsDead(db: Auth, db': Auth, family: nat, at: int, reason: Reason)
    requires Inv(db) && family < db.nextId && db'.nextId == db.nextId
    requires db'.sessions == RevokeAll(db.sessions, LiveInFamily(db.sessions, family), at, reason)
    ensures Dead(db', family)
    ensures forall id :: id in db'.sessions ==> db'.sessions[id].familyId == db.sessions[id].familyId
  {
    forall id | id in db'.sessions && db'.sessions[id].familyId == family
      ensures !db'.sessions[id].Live()
    {
      assert id in LiveInFamily(db.sessions, family) || !db.sessions[id].Live();
    }
  }

  lemma SignOutRevokesFamily(db: Auth, presented: nat, at: int)
    requires Inv(db) && presented in db.sessions
    ensures var db' := LoggedOut(db, presented, at).0;
            && db'.sessions == RevokeAll(db.sessions, LiveInFamily(db.sessions, db.sessions[presented].familyId), at, Logout)
            && db'.nextId == db.nextId
  {
    assert Lookup(db.sessions, presented) == Some(presented);
  }

  /** A sign-out with any token of a family refuses every token of that family for good. */
  lemma SignOutIsForever(db: Auth, presented: nat, at: int, rs: seq<Request>, token: nat, now: int)
    requires Inv(db) && presented in db.sessions && token in db.sessions
    requires db.sessions[token].familyId == db.sessions[presented].familyId
    ensures Inv(LoggedOut(db, presented, at).0)
    ensures Refreshed(After(LoggedOut(db, presented, at).0, rs), token, now).1 == Refused(SessionExpired)
  {
    var db' := LoggedOut(db, presented, at).0;
    SignOutKeepsInv(db, presented, at);
    SignOutRevokesFamily(db, presented, at);
    RevokedFamilyIsDead(db, db', db.sessions[presented].familyId, at, Logout);
    DeadFamilyIsRefused(db', rs, token, now);
  }

  /** Reuse: the presented row is already revoked, and no recovery applies. */
  predicate IsReuse(db: Auth, token: nat, now: int) {
    token in db.sessions && !db.sessions[token].Live() && !Recoverable(db, token, now)
  }

  lemma ReuseRevokesFamily(db: Auth, token: nat, now: int)
    requires Inv(db) && IsReuse(db, token, now)
    ensures var db', row := Refreshed(db, token, now).0, db.sessions[token];
            && db'.sessions == RevokeAll(db.sessions, LiveInFamily(db.sessions, row.familyId), now, ReuseDetected)
            && db'.nextId == db.nextId
            && db'.users[row.userId].tokenVersion == db.users[row.userId].tokenVersion + 1
  {
    assert Lookup(db.sessions, token) == Some(token);
  }

  /** Reuse refuses every token of the family for good, and moves the owner's version by one. */
  lemma ReuseIsForever(db: Auth, presented: nat, at: int, rs: seq<Request>, token: nat, now: int)
    requires Inv(db) && IsReuse(db, presented, at) && token in db.sessions
    requires db.sessions[token].familyId == db.sessions[presented].familyId
    ensures Inv(Refreshed(db, presented, at).0)
    ensures Refreshed(After(Refreshed(db, presented, at).0, rs), token, now).1 == Refused(SessionExpired)
  {
    var db' := Refreshed(db, presented, at).0;
    RefreshKeepsInv(db, presented, at);
    ReuseRevokesFamily(db, presented, at);
    RevokedFamilyIsDead(db, db', db.sessions[presented].familyId, at, ReuseDetected);
    DeadFamilyIsRefused(db', rs, token, now);
  }

  // ---------------------------------------------------------------- token versions

  /** The user of `t` is gone for good, or has left the version of `t` behind. */
  ghost predicate Outdated(db: Auth, t: AccessToken) {
    t.sub < db.nextId && (t.sub in db.users ==> t.sv < db.users[t.sub].tokenVersion)
  }

  /** No token runs ahead of its user. */
  ghost predicate NotAhead(db: Auth, t: AccessToken) {
    t.sub < db.nextId && (t.sub in db.users ==> t.sv <= db.users[t.sub].tokenVersion)
  }

  /** One user's version only grows, and a user that was not there has a fresh id. */
  predicate VersionMoves(db: Auth, db': Auth, u: nat) {
    u in db'.users ==>
      if u in db.users then db.users[u].tokenVersion <= db'.users[u].tokenVersion else u >= db.nextId
  }

  lemma RefreshMovesVersion(db: Auth, token: nat, now: int, u: nat)
    requires Named(db.sessions)
    ensures VersionMoves(db, Refreshed(db, token, now).0, u)
  {
  }

  lemma PasswordWriteMovesVersion(db: Auth, userId: nat, hash: PasswordHash, now: int, u: nat)
    ensures VersionMoves(db, PasswordWritten(db, userId, hash, now), u)
  {
  }

  lemma ChangeMovesVersion(db: Auth, userId: nat, current: nat, replacement: nat, salt: nat, allowed: bool, now: int, u: nat)
    ensures VersionMoves(db, Changed(db, userId, current, replacement, salt, allowed, now).0, u)
  {
    PasswordWriteMovesVersion(db, userId, Argon2id(replacement, salt), now, u);
  }

  lemma ConfirmMovesVersion(db: Auth, token: nat, password: nat, salt: nat, now: int, u: nat)
    requires NamedResets(db.resets)
    ensures VersionMoves(db, ResetConfirmed(db, token, password, salt, now).0, u)
  {
    var id := ResolveReset(db.resets, token, now);
    if id.Some? {
      PasswordWriteMovesVersion(db, db.resets[id.value].userId, Argon2id(password, salt), now, u);
    }
  }

  lemma VersionsNeverFall(db: Auth, r: Request, u: nat)
    requires Inv(db)
    ensures VersionMoves(db, Serve(db, r).0, u)
  {
    match r
    case Refresh(token, now) => RefreshMovesVersion(db, token, now, u);
    case Change(access, current, replacement, salt, allowed, now) =>
      if Admits(db, access, now) {
        ChangeMovesVersion(db, access.value.sub, current, replacement, salt, allowed, now, u);
      }
    case ConfirmReset(token, password, salt, now) => ConfirmMovesVersion(db, token, password, salt, now, u);
    case _ =>
  }

  lemma {:induction false} OutdatedForGood(db: Auth, rs: seq<Request>, t: AccessToken)
    requires Inv(db)
    ensures Outdated(db, t) ==> Outdated(After(db, rs), t)
    ensures NotAhead(db, t) ==> NotAhead(After(db, rs), t)
    decreases |rs|
  {
    if rs == [] {
    } else {
      ServeKeepsInv(db, rs[0]);
      VersionsNeverFall(db, rs[0], t.sub);
      ServeAdvances(db, rs[0], t.sub);
      OutdatedForGood(Serve(db, rs[0]).0, rs[1..], t);
    }
  }

  /** The requests that must end every access token of `u` minted before them. */
  predicate EndsTokensOf(db: Auth, r: Request, u: nat)
    requires NamedResets(db.resets)
  {
    match r
    case Refresh(token, now) => IsReuse(db, token, now) && db.sessions[token].userId == u
    case Change(access, current, replacement, _, allowed, now) =>
      && Admits(db, access, now) && access.value.sub == u && allowed
      && db.users[u].passwordHash.Verifies(current) && !db.users[u].passwordHash.Verifies(replacement)
    case ConfirmReset(token, _, _, now) =>
      var id := ResolveReset(db.resets, token, now);
      id.Some? && db.resets[id.value].userId == u
    case Delete(access, password, allowed, now) =>
      Admits(db, access, now) && access.value.sub == u && allowed && db.users[u].passwordHash.Verifies(password)
    case _ => false
  }

  lemma EndingOutdates(db: Auth, r: Request, t: AccessToken)
    requires Inv(db) && NotAhead(db, t) && EndsTokensOf(db, r, t.sub)
    ensures Outdated(Serve(db, r).0, t)
  {
  }

  /**
   * Whatever was granted by request `r`, then any requests, then a reuse, a password change, a
   * reset or a deletion of the same user, then any requests: the token is refused from then on.
   */
  lemma EarlierTokensAreRefused(db: Auth, r: Request, between: seq<Request>, ending: Request,
                                later: seq<Request>, now: int)
    requires Inv(db) && Serve(db, r).1.Granted?
    requires EndsTokensOf(After(Served(db, r), between), ending, Serve(db, r).1.access.sub)
    ensures var end := After(Served(After(Served(db, r), between), ending), later);
            !Admits(end, Some(Serve(db, r).1.access), now)
  {
    var t, granted := Serve(db, r).1.access, Served(db, r);
    GrantedIsCurrent(db, r);
    OutdatedForGood(granted, between, t);
    EndingOutdates(After(granted, between), ending, t);
    OutdatedForGood(Served(After(granted, between), ending), later, t);
  }
}
