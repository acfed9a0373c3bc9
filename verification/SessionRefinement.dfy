/**
 * The two session models agree: what a serialised request does to the sessions table is what the
 * lock-level machine does when that transaction runs with nobody else.
 */
module SessionRefinement {
  import opened Options
  import opened SessionRows
  import A = AuthSessions
  import M = SessionInterleaving

  /** Some legal run leads from `w` to `w'`. */
  ghost predicate Reaches(w: M.World, w': M.World) {
    exists run :: M.Legal(w, run) && M.After(w, run) == w'
  }

  lemma ReachesItself(w: M.World)
    ensures Reaches(w, w)
  {
    assert M.Legal(w, []) && M.After(w, []) == w;
  }

  lemma StepThen(w: M.World, a: M.Action, w': M.World)
    requires M.Enabled(w, a) && Reaches(M.Apply(w, a), w')
    ensures Reaches(w, w')
  {
    var rest :| M.Legal(M.Apply(w, a), rest) && M.After(M.Apply(w, a), rest) == w';
    var run := [a] + rest;
    assert run[0] == a && run[1..] == rest;
    assert M.Legal(w, run) && M.After(w, run) == w';
  }

  lemma CommitThen(w: M.World, w': M.World)
    requires M.Enabled(w, M.Commit(0)) && M.CommitStep(w, 0) == w'
    ensures Reaches(w, w')
  {
    ReachesItself(w');
    StepThen(w, M.Commit(0), w');
  }

  /** A lone multi-row UPDATE, row by row, ends as the single statement it is. */
  lemma RevokesAlone(w: M.World, t: M.Tx)
    requires w.txs == map[0 := t] && t.phase.Revoking? && t.insert.None?
    requires t.updates.Keys <= w.rows.Keys && t.updates.Keys !! t.phase.pending
    requires t.phase.pending <= w.rows.Keys && forall id :: id in t.phase.pending ==> w.rows[id].Live()
    ensures Reaches(w, M.World(RevokeAll(w.rows + t.updates, t.phase.pending, t.phase.at, t.phase.reason),
                               map[], w.nextId))
    decreases |t.phase.pending|
  {
    var p := t.phase;
    var end := M.World(RevokeAll(w.rows + t.updates, p.pending, p.at, p.reason), map[], w.nextId);
    if p.pending == {} {
      assert M.CommitStep(w, 0) == end;
      CommitThen(w, end);
    } else {
      var id :| id in p.pending;
      var w1 := M.RevokeRowStep(w, 0, id);
      var t1 := w1.txs[0];
      assert w1.txs == map[0 := t1];
      OneRowLess(w.rows, t.updates, p.pending, id, p.at, p.reason);
      RevokesAlone(w1, t1);
      StepThen(w, M.RevokeRow(0, id), end);
    }
  }

  lemma OneRowLess(rows: Table, updates: Table, ids: set<nat>, id: nat, at: int, reason: Reason)
    requires id in ids && id in rows && id !in updates
    ensures RevokeAll(rows + updates[id := rows[id].Revoke(at, reason)], ids - {id}, at, reason)
            == RevokeAll(rows + updates, ids, at, reason)
  {
  }

  /** The state of a database as the start of a run with no open transaction. */
  function Quiet(db: A.Auth): M.World {
    M.World(db.sessions, map[], db.nextId)
  }

  /** A revoking statement begun on a quiet table. */
  lemma RevokingFrom(w: M.World, ids: set<nat>, at: int, reason: Reason, locks: set<nat>, end: M.World)
    requires w.txs == map[0 := M.Tx(M.Revoking(ids, at, reason), locks, map[], None)]
    requires ids <= w.rows.Keys && forall id :: id in ids ==> w.rows[id].Live()
    requires end == M.World(RevokeAll(w.rows, ids, at, reason), map[], w.nextId)
    ensures Reaches(w, end)
  {
    assert w.rows + map[] == w.rows;
    RevokesAlone(w, w.txs[0]);
  }

  lemma SignOutIsAnInterleaving(db: A.Auth, token: nat, now: int)
    requires A.Inv(db) && token in db.sessions
    ensures Reaches(Quiet(db), Quiet(A.LoggedOut(db, token, now).0))
  {
    var w := Quiet(db);
    var a := M.BeginLogout(0, token, token, now);
    RevokingFrom(M.Apply(w, a), LiveInFamily(db.sessions, db.sessions[token].familyId), now, Logout, {},
                 Quiet(A.LoggedOut(db, token, now).0));
    StepThen(w, a, Quiet(A.LoggedOut(db, token, now).0));
  }

  lemma PasswordWriteIsAnInterleaving(db: A.Auth, userId: nat, hash: A.PasswordHash, now: int)
    ensures Reaches(Quiet(db), Quiet(A.PasswordWritten(db, userId, hash, now)))
  {
    var w := Quiet(db);
    var a := M.BeginPasswordWrite(0, userId, now);
    RevokingFrom(M.Apply(w, a), LiveOfUser(db.sessions, userId), now, PasswordReset, {},
                 Quiet(A.PasswordWritten(db, userId, hash, now)));
    StepThen(w, a, Quiet(A.PasswordWritten(db, userId, hash, now)));
  }

  lemma IssueIsAnInterleaving(db: A.Auth, userId: nat, sv: nat, now: int)
    ensures Reaches(Quiet(db), Quiet(A.Opened(db, userId, sv, now).0))
  {
    var w := Quiet(db);
    ReachesItself(M.Apply(w, M.Issue(userId, now)));
    StepThen(w, M.Issue(userId, now), Quiet(A.Opened(db, userId, sv, now).0));
  }

  /** Transaction 0 alone, holding the row it presented. */
  function Locked(db: A.Auth, token: nat): M.World {
    M.World(db.sessions, map[0 := M.Begin(M.Presented(token), {token})], db.nextId)
  }

  predicate Fits(db: A.Auth, token: nat) {
    A.Named(db.sessions) && token in db.sessions && db.nextId !in db.sessions
  }

  lemma RotateAlone(db: A.Auth, token: nat, now: int)
    requires Fits(db, token) && A.Rotatable(db, token, now)
    ensures Reaches(Locked(db, token), Quiet(A.Refreshed(db, token, now).0))
  {
    var w1 := M.DecideStep(Locked(db, token), 0, now, true);
    var end := Quiet(A.Refreshed(db, token, now).0);
    assert M.CommitStep(w1, 0) == end;
    CommitThen(w1, end);
    StepThen(Locked(db, token), M.Decide(0, now, true), end);
  }

  lemma ExpireAlone(db: A.Auth, token: nat, now: int)
    requires Fits(db, token) && db.sessions[token].Live() && db.sessions[token].expiresAt <= now
    ensures Reaches(Locked(db, token), Quiet(A.Refreshed(db, token, now).0))
  {
    var w1 := M.DecideStep(Locked(db, token), 0, now, true);
    var end := Quiet(A.Refreshed(db, token, now).0);
    assert M.CommitStep(w1, 0) == end;
    CommitThen(w1, end);
    StepThen(Locked(db, token), M.Decide(0, now, true), end);
  }

  /** Reuse outside the grace window, and an unexpired live row of an inactive account. */
  lemma RevokeAlone(db: A.Auth, token: nat, now: int)
    requires Fits(db, token) && !A.Rotatable(db, token, now) && !db.sessions[token].WithinGrace(now)
    requires db.sessions[token].Live() ==> db.sessions[token].expiresAt > now
    ensures Reaches(Locked(db, token), Quiet(A.Refreshed(db, token, now).0))
  {
    var existing := db.sessions[token];
    var w1 := M.DecideStep(Locked(db, token), 0, now, false);
    var end := Quiet(A.Refreshed(db, token, now).0);
    assert A.Lookup(db.sessions, token) == Some(token);
    RevokingFrom(w1, LiveInFamily(db.sessions, existing.familyId), now,
                 if existing.Live() then AccountInactive else ReuseDetected, {token}, end);
    StepThen(Locked(db, token), M.Decide(0, now, false), end);
  }

  /** Inside the grace window the successor is locked and re-read before anything is written. */
  function AtSuccessor(db: A.Auth, token: nat, now: int, s: nat): M.World {
    M.World(db.sessions,
            map[0 := M.Tx(M.LockingSuccessors(token, now, {}, {s}), {token, s}, map[], None)], db.nextId)
  }

  lemma ReachSuccessor(db: A.Auth, token: nat, now: int, s: nat, end: M.World)
    requires Fits(db, token) && db.sessions[token].WithinGrace(now) && Successors(db.sessions, token) == {s}
    requires Reaches(AtSuccessor(db, token, now, s), end)
    ensures Reaches(Locked(db, token), end)
  {
    var w1 := M.DecideStep(Locked(db, token), 0, now, true);
    assert s in Successors(db.sessions, token);
    var t := M.LockSuccessorStep(w1, 0, s).txs[0];
    assert t.phase.pending == {} && t.phase.held == {s} && t.locks == {token, s};
    assert M.LockSuccessorStep(w1, 0, s) == AtSuccessor(db, token, now, s);
    StepThen(w1, M.LockSuccessor(0, s), end);
    StepThen(Locked(db, token), M.Decide(0, now, true), end);
  }

  lemma RecoverAlone(db: A.Auth, token: nat, now: int, s: nat)
    requires Fits(db, token) && A.Recoverable(db, token, now) && A.SoleSuccessor(db.sessions, token) == Some(s)
    ensures Reaches(AtSuccessor(db, token, now, s), Quiet(A.Refreshed(db, token, now).0))
  {
    var w, end := AtSuccessor(db, token, now, s), Quiet(A.Recovered(db, token, now).0);
    assert A.Lookup(db.sessions, token) == Some(token);
    RecoverCommits(db, token, now, s);
    CommitThen(M.RecoverStep(w, 0, true), end);
    StepThen(w, M.Recover(0, true), end);
  }

  lemma RecoverCommits(db: A.Auth, token: nat, now: int, s: nat)
    requires Fits(db, token) && A.Recoverable(db, token, now) && A.SoleSuccessor(db.sessions, token) == Some(s)
    ensures M.Enabled(AtSuccessor(db, token, now, s), M.Recover(0, true))
    ensures var w1 := M.RecoverStep(AtSuccessor(db, token, now, s), 0, true);
            M.Enabled(w1, M.Commit(0)) && M.CommitStep(w1, 0) == Quiet(A.Recovered(db, token, now).0)
  {
    var w := AtSuccessor(db, token, now, s);
    assert s in Successors(db.sessions, token);
    assert s in w.txs[0].phase.held && w.txs[0].phase.held == {s};
  }

  lemma RecoverRefusedAlone(db: A.Auth, token: nat, now: int, s: nat)
    requires Fits(db, token) && db.sessions[token].WithinGrace(now) && !A.Recoverable(db, token, now)
    requires A.SoleSuccessor(db.sessions, token) == Some(s)
    ensures Reaches(AtSuccessor(db, token, now, s), Quiet(A.Refreshed(db, token, now).0))
  {
    var existing := db.sessions[token];
    var active := A.IsActive(db.users, existing.userId);
    var w := AtSuccessor(db, token, now, s);
    var end := Quiet(A.Refreshed(db, token, now).0);
    assert s in Successors(db.sessions, token);
    var w1 := M.RecoverStep(w, 0, active);
    RevokingFrom(w1, LiveInFamily(db.sessions, existing.familyId), now, ReuseDetected, {token, s}, end);
    StepThen(w, M.Recover(0, active), end);
  }

  /** A refresh that meets nobody does exactly what the serialised refresh does. */
  lemma RefreshIsAnInterleaving(db: A.Auth, token: nat, now: int)
    requires A.Inv(db) && token in db.sessions
    ensures Reaches(Quiet(db), Quiet(A.Refreshed(db, token, now).0))
  {
    var end := Quiet(A.Refreshed(db, token, now).0);
    assert Fits(db, token);
    if db.sessions[token].WithinGrace(now) {
      SuccessorIffRotated(db.sessions, token);
      var s := A.SoleSuccessor(db.sessions, token).value;
      if A.Recoverable(db, token, now) {
        RecoverAlone(db, token, now, s);
      } else {
        RecoverRefusedAlone(db, token, now, s);
      }
      ReachSuccessor(db, token, now, s, end);
    } else if A.Rotatable(db, token, now) {
      RotateAlone(db, token, now);
    } else if db.sessions[token].Live() && db.sessions[token].expiresAt <= now {
      ExpireAlone(db, token, now);
    } else {
      RevokeAlone(db, token, now);
    }
    assert M.Apply(Quiet(db), M.Present(0, token, token)) == Locked(db, token);
    StepThen(Quiet(db), M.Present(0, token, token), end);
  }
}
