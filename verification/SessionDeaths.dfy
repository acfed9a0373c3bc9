/**
 * What a committed logout, reuse detection or password write leaves alive when refreshes run
 * beside it: its UPDATE re-checks the rows its snapshot matched and looks for no others.
 */
module SessionDeaths {
  import opened Options
  import opened SessionRows
  import opened SessionInterleaving

  /** Transaction `tx` comes to the statement that revokes every live row of a family, or of a user. */
  predicate Aims(w: World, a: Action, tx: nat) {
    && Enabled(w, a)
    && (|| (a.Decide? && a.tx == tx) || (a.Recover? && a.tx == tx)
        || (a.BeginLogout? && a.tx == tx) || (a.BeginPasswordWrite? && a.tx == tx))
  }

  /** What its WHERE clause asks for. */
  function Where(w: World, a: Action, tx: nat): set<nat>
    requires Aims(w, a, tx)
  {
    match a
    case Decide(_, _, _) => LiveInFamily(w.rows, w.rows[w.txs[tx].phase.row].familyId)
    case Recover(_, _) => LiveInFamily(w.rows, w.rows[w.txs[tx].phase.row].familyId)
    case BeginLogout(_, _, row, _) => LiveInFamily(w.rows, w.rows[row].familyId)
    case BeginPasswordWrite(_, userId, _) => LiveOfUser(w.rows, userId)
  }

  /** The step takes the snapshot of that UPDATE, and `v` is what follows it. */
  predicate Snapshots(w: World, a: Action, tx: nat, v: World) {
    Aims(w, a, tx) && v == Apply(w, a) && v.txs[tx].phase.Revoking?
  }

  lemma SnapshotIs(w: World, a: Action, tx: nat, v: World)
    requires Snapshots(w, a, tx, v) && (tx in w.txs ==> PhaseOk(w, w.txs[tx]))
    ensures v.rows == w.rows && tx in v.txs && v.txs[tx].phase.Revoking?
    ensures v.txs[tx].phase.pending == Where(w, a, tx)
    ensures v.txs[tx].updates == map[] && v.txs[tx].insert.None?
  {
  }

  /** Every matched row is still to be locked, or written by this transaction, or revoked by another. */
  predicate Accounted(w: World, tx: nat, matched: set<nat>) {
    && tx in w.txs && w.txs[tx].phase.Revoking? && w.txs[tx].insert.None?
    && w.txs[tx].phase.pending <= matched && w.txs[tx].updates.Keys <= matched
    && forall id :: id in matched ==> Handled(w, tx, id)
  }

  predicate Handled(w: World, tx: nat, id: nat)
    requires tx in w.txs && w.txs[tx].phase.Revoking?
  {
    id in w.txs[tx].phase.pending || id in w.txs[tx].updates || (id in w.rows && !w.rows[id].Live())
  }

  /** No step of the run ends transaction `tx`. */
  predicate StaysOpen(run: seq<Action>, tx: nat) {
    forall a :: a in run ==> a != Commit(tx) && a != Abort(tx)
  }

  lemma NothingLockedYet(v: World, tx: nat)
    requires tx in v.txs && v.txs[tx].phase.Revoking? && v.txs[tx].updates == map[] && v.txs[tx].insert.None?
    ensures Accounted(v, tx, v.txs[tx].phase.pending)
  {
  }

  lemma SnapshotTaken(w: World, a: Action, tx: nat, v: World)
    requires Inv(w) && Snapshots(w, a, tx, v)
    ensures Inv(v) && v.rows == w.rows && Accounted(v, tx, Where(w, a, tx))
  {
    ApplyKeeps(w, a);
    assert tx in w.txs ==> TxOk(w, w.txs[tx]);
    SnapshotIs(w, a, tx, v);
    NothingLockedYet(v, tx);
  }

  /** While it revokes, a transaction takes no other step than to lock its next row. */
  lemma SlotStays(w: World, a: Action, tx: nat)
    requires Enabled(w, a) && tx in w.txs && w.txs[tx].phase.Revoking?
    requires a != Commit(tx) && a != Abort(tx) && !(a.RevokeRow? && a.tx == tx)
    ensures tx in Apply(w, a).txs && Apply(w, a).txs[tx] == w.txs[tx]
  {
  }

  lemma RevokeRowAccounts(w: World, tx: nat, id: nat, matched: set<nat>)
    requires Enabled(w, RevokeRow(tx, id)) && Accounted(w, tx, matched)
    ensures Accounted(RevokeRowStep(w, tx, id), tx, matched)
  {
    var w' := RevokeRowStep(w, tx, id);
    forall r | r in matched
      ensures Handled(w', tx, r)
    {
      assert Handled(w, tx, r);
    }
  }

  lemma StepAccounts(w: World, a: Action, tx: nat, matched: set<nat>)
    requires Inv(w) && Enabled(w, a) && a != Commit(tx) && a != Abort(tx) && Accounted(w, tx, matched)
    ensures Accounted(Apply(w, a), tx, matched)
  {
    if a.RevokeRow? && a.tx == tx {
      RevokeRowAccounts(w, tx, a.id, matched);
    } else {
      SlotStays(w, a, tx);
      StepEvolves(w, a);
      forall id | id in matched
        ensures Handled(Apply(w, a), tx, id)
      {
        assert Handled(w, tx, id);
      }
    }
  }

  lemma {:induction false} RunAccounts(w: World, run: seq<Action>, tx: nat, matched: set<nat>)
    requires Inv(w) && Legal(w, run) && StaysOpen(run, tx) && Accounted(w, tx, matched)
    ensures Accounted(After(w, run), tx, matched)
    decreases |run|
  {
    if run == [] {
    } else {
      assert run[0] in run && forall a :: a in run[1..] ==> a in run;
      StepAccounts(w, run[0], tx, matched);
      ApplyKeeps(w, run[0]);
      RunAccounts(Apply(w, run[0]), run[1..], tx, matched);
    }
  }

  /**
   * Between the snapshot of a revoking UPDATE and its commit let any other transactions do what they
   * may: of the rows live when it commits, it revokes exactly those the snapshot had matched.
   */
  lemma RevokesWhatItSaw(v: World, run: seq<Action>, tx: nat, matched: set<nat>, id: nat)
    requires Inv(v) && Accounted(v, tx, matched) && Legal(v, run) && StaysOpen(run, tx)
    requires Enabled(After(v, run), Commit(tx))
    requires id in After(v, run).rows && After(v, run).rows[id].Live()
    ensures id in CommitStep(After(v, run), tx).rows
    ensures CommitStep(After(v, run), tx).rows[id].Live() <==> id !in matched
  {
    var w := After(v, run);
    LegalKeeps(v, run);
    RunAccounts(v, run, tx, matched);
    assert id in w.txs[tx].updates ==> Justified(w.rows, w.txs[tx], id);
    assert id in matched ==> Handled(w, tx, id);
    assert TxOk(w, w.txs[tx]);
  }

  /** The family the UPDATE is aimed at, and for a password write every family of the user. */
  predicate AimedAt(w: World, a: Action, tx: nat, family: nat)
    requires Aims(w, a, tx)
  {
    match a
    case Decide(_, _, _) => w.rows[w.txs[tx].phase.row].familyId == family
    case Recover(_, _) => w.rows[w.txs[tx].phase.row].familyId == family
    case BeginLogout(_, _, row, _) => w.rows[row].familyId == family
    case BeginPasswordWrite(_, userId, _) =>
      exists id :: id in w.rows && w.rows[id].familyId == family && w.rows[id].userId == userId
  }

  lemma LiveOfItsUser(rows: Table, family: nat, userId: nat, id: nat)
    requires Chained(rows) && id in rows && rows[id].familyId == family && rows[id].userId == userId
    ensures LiveInFamily(rows, family) <= LiveOfUser(rows, userId)
  {
    forall r | r in LiveInFamily(rows, family)
      ensures r in LiveOfUser(rows, userId)
    {
      OneUserAFamily(rows, id, r);
    }
  }

  lemma AimMatches(w: World, a: Action, tx: nat, family: nat)
    requires Chained(w.rows) && Aims(w, a, tx) && AimedAt(w, a, tx, family)
    ensures LiveInFamily(w.rows, family) <= Where(w, a, tx) <= w.rows.Keys
  {
    if a.BeginPasswordWrite? {
      var id :| id in w.rows && w.rows[id].familyId == family && w.rows[id].userId == a.userId;
      LiveOfItsUser(w.rows, family, a.userId, id);
    }
  }

  /** A row of `family` live at the end of a run was matched at its start, or is newer than the start. */
  lemma LiveThenOrNew(w: World, run: seq<Action>, id: nat)
    requires Inv(w) && Legal(w, run)
    requires id in After(w, run).rows && After(w, run).rows[id].Live() && id in w.rows
    ensures id in LiveInFamily(w.rows, After(w, run).rows[id].familyId)
  {
    RevocationIsFinal(w, run);
  }

  lemma SurvivesIffNew(v: World, run: seq<Action>, tx: nat, matched: set<nat>, family: nat, id: nat)
    requires Inv(v) && Accounted(v, tx, matched) && Legal(v, run) && StaysOpen(run, tx)
    requires LiveInFamily(v.rows, family) <= matched <= v.rows.Keys
    requires Enabled(After(v, run), Commit(tx)) && id in LiveInFamily(After(v, run).rows, family)
    ensures id in CommitStep(After(v, run), tx).rows
    ensures CommitStep(After(v, run), tx).rows[id].Live() <==> id !in v.rows
  {
    RevokesWhatItSaw(v, run, tx, matched, id);
    if id in v.rows {
      LiveThenOrNew(v, run, id);
    }
  }

  lemma SurvivorsAreNew(v: World, run: seq<Action>, tx: nat, matched: set<nat>, family: nat)
    requires Inv(v) && Accounted(v, tx, matched) && Legal(v, run) && StaysOpen(run, tx)
    requires LiveInFamily(v.rows, family) <= matched <= v.rows.Keys
    requires Enabled(After(v, run), Commit(tx))
    ensures LiveInFamily(CommitStep(After(v, run), tx).rows, family)
            == LiveInFamily(After(v, run).rows, family) - v.rows.Keys
  {
    LegalKeeps(v, run);
    RunAccounts(v, run, tx, matched);
    RevokingAddsNothing(After(v, run), tx, family);
    forall id | id in LiveInFamily(After(v, run).rows, family)
      ensures id in LiveInFamily(CommitStep(After(v, run), tx).rows, family) <==> id !in v.rows
    {
      SurvivesIffNew(v, run, tx, matched, family, id);
    }
  }

  /** A revoking UPDATE adds no row and revives none. */
  lemma RevokingAddsNothing(w: World, tx: nat, family: nat)
    requires Inv(w) && Enabled(w, Commit(tx)) && w.txs[tx].phase.Revoking?
    ensures LiveInFamily(CommitStep(w, tx).rows, family) <= LiveInFamily(w.rows, family)
    ensures forall id :: id in LiveInFamily(w.rows, family) ==>
                           id in CommitStep(w, tx).rows && CommitStep(w, tx).rows[id].familyId == family
  {
    assert TxOk(w, w.txs[tx]);
    StepEvolves(w, Commit(tx));
  }

  /**
   * A committed logout, reuse detection or password write leaves a family it was aimed at dead
   * exactly when no row of that family live at the commit is newer than its snapshot: what survives
   * is what a refresh committed in between, and nothing else does.
   */
  lemma DeadIffNothingNew(w: World, a: Action, v: World, run: seq<Action>, w1: World, tx: nat, family: nat)
    requires Inv(w) && Snapshots(w, a, tx, v) && AimedAt(w, a, tx, family)
    requires Legal(v, run) && StaysOpen(run, tx) && w1 == After(v, run) && Enabled(w1, Commit(tx))
    ensures LiveInFamily(CommitStep(w1, tx).rows, family) == LiveInFamily(w1.rows, family) - w.rows.Keys
    ensures LiveInFamily(CommitStep(w1, tx).rows, family) == {} <==> LiveInFamily(w1.rows, family) <= w.rows.Keys
  {
    SnapshotTaken(w, a, tx, v);
    AimMatches(w, a, tx, family);
    SurvivorsAreNew(v, run, tx, Where(w, a, tx), family);
    NoneLeft(LiveInFamily(CommitStep(w1, tx).rows, family), LiveInFamily(w1.rows, family), w.rows.Keys);
  }

  lemma NoneLeft(after: set<nat>, before: set<nat>, stored: set<nat>)
    requires after == before - stored
    ensures after == {} <==> before <= stored
  {
    if before <= stored {
    } else {
      var id :| id in before && id !in stored;
      assert id in after;
    }
  }

  lemma NoCommitRevives(w: World, tx: nat, family: nat)
    requires Enabled(w, Commit(tx)) && TxOk(w, w.txs[tx]) && LiveInFamily(w.rows, family) == {}
    ensures LiveInFamily(CommitStep(w, tx).rows, family) == {}
  {
    var t, rows' := w.txs[tx], CommitStep(w, tx).rows;
    if t.insert.Some? {
      assert t.insert.value.row.rotatedFrom.value in LiveInFamily(w.rows, t.insert.value.row.familyId);
    }
    forall id | id in w.rows && w.rows[id].familyId == family
      ensures !rows'[id].Live()
    {
      assert id in t.updates ==> Justified(w.rows, t, id);
      assert id !in LiveInFamily(w.rows, family);
    }
  }

  lemma NoIssueRevives(w: World, userId: nat, at: int, family: nat)
    requires family < w.nextId && LiveInFamily(w.rows, family) == {}
    ensures LiveInFamily(IssueStep(w, userId, at).rows, family) == {}
  {
    forall id | id in w.rows && w.rows[id].familyId == family
      ensures !w.rows[id].Live()
    {
      assert id !in LiveInFamily(w.rows, family);
    }
  }

  /** And whatever is running: a family once dead is dead for good. */
  lemma {:induction false} DeathIsPermanent(w: World, run: seq<Action>, family: nat)
    requires Inv(w) && Legal(w, run) && family < w.nextId && LiveInFamily(w.rows, family) == {}
    ensures LiveInFamily(After(w, run).rows, family) == {}
    decreases |run|
  {
    if run == [] {
    } else {
      var a, w' := run[0], Apply(w, run[0]);
      ApplyKeeps(w, a);
      match a {
        case Commit(tx) =>
          assert TxOk(w, w.txs[tx]);
          NoCommitRevives(w, tx, family);
        case Issue(userId, at) => NoIssueRevives(w, userId, at, family);
        case _ => RowsStay(w, a);
      }
      DeathIsPermanent(w', run[1..], family);
    }
  }

  lemma RowsStay(w: World, a: Action)
    requires Enabled(w, a) && !a.Commit? && !a.Issue?
    ensures Apply(w, a).rows == w.rows && Apply(w, a).nextId >= w.nextId
  {
  }

  // ---------------------------------------------------------------- runs in which something survives

  lemma Unroll(w: World, a: Action, rest: seq<Action>)
    requires Enabled(w, a) && Legal(Apply(w, a), rest)
    ensures Legal(w, [a] + rest) && After(w, [a] + rest) == After(Apply(w, a), rest)
  {
    assert ([a] + rest)[1..] == rest;
  }

  lemma Three(w: World, a: Action, b: Action, c: Action)
    requires Enabled(w, a) && Enabled(Apply(w, a), b) && Enabled(Apply(Apply(w, a), b), c)
    ensures Legal(w, [a, b, c]) && After(w, [a, b, c]) == Apply(Apply(Apply(w, a), b), c)
  {
    var v := Apply(Apply(w, a), b);
    Unroll(v, c, []);
    Unroll(Apply(w, a), b, [c]);
    Unroll(w, a, [b, c]);
    assert [c] + [] == [c] && [b] + [c] == [b, c] && [a] + [b, c] == [a, b, c];
  }

  /** User 0 signed in once, and transaction 1 is about to rotate row 0. */
  function OneSession(): World {
    World(map[0 := Mint(0, 0, 0, 0, None)], map[1 := Begin(Presented(0), {0})], 1)
  }

  lemma OneSessionIsReached()
    ensures Legal(START, [Issue(0, 0), Present(1, 0, 0)])
    ensures After(START, [Issue(0, 0), Present(1, 0, 0)]) == OneSession()
  {
    var w := Apply(START, Issue(0, 0));
    assert Apply(w, Present(1, 0, 0)) == OneSession();
    Unroll(w, Present(1, 0, 0), []);
    Unroll(START, Issue(0, 0), [Present(1, 0, 0)]);
    assert [Present(1, 0, 0)] + [] == [Present(1, 0, 0)];
    assert [Issue(0, 0)] + [Present(1, 0, 0)] == [Issue(0, 0), Present(1, 0, 0)];
  }

  /** Transaction 2 has taken the snapshot of its UPDATE, and waits for row 0. */
  function Waiting(reason: Reason): World {
    World(OneSession().rows, OneSession().txs[2 := Begin(Revoking({0}, 1, reason), {})], 1)
  }

  /** Row 0 is rotated into row 1, and what the UPDATE had matched is re-checked and left alone. */
  function Overtaken(reason: Reason): World {
    World(map[0 := Mint(0, 0, 0, 0, None).Revoke(1, Rotated), 1 := Mint(0, 0, 1, 1, Some(0))],
          map[2 := Tx(Revoking({}, 1, reason), {0}, map[], None)], 2)
  }

  lemma OvertakenIsReached(reason: Reason)
    ensures var run := [Decide(1, 1, true), Commit(1), RevokeRow(2, 0)];
            Legal(Waiting(reason), run) && After(Waiting(reason), run) == Overtaken(reason)
  {
    var v1 := Apply(Waiting(reason), Decide(1, 1, true));
    assert v1.txs[1].locks == {0} && v1.txs[2].locks == {};
    var v2 := Apply(v1, Commit(1));
    assert v2.rows == Overtaken(reason).rows;
    assert v2.txs == map[2 := Begin(Revoking({0}, 1, reason), {})];
    var v3 := Apply(v2, RevokeRow(2, 0));
    assert v3.txs[2].phase.pending == {} && v3.txs[2].locks == {0};
    assert v3.txs[2] == Overtaken(reason).txs[2];
    assert v3.txs == Overtaken(reason).txs;
    Three(Waiting(reason), Decide(1, 1, true), Commit(1), RevokeRow(2, 0));
  }

  lemma OvertakenCommits(reason: Reason)
    ensures Enabled(Overtaken(reason), Commit(2)) && LiveInFamily(CommitStep(Overtaken(reason), 2).rows, 0) == {1}
  {
    assert CommitStep(Overtaken(reason), 2).rows == Overtaken(reason).rows;
  }

  lemma WaitingIsReached(a: Action)
    requires a == BeginLogout(2, 0, 0, 1) || a == BeginPasswordWrite(2, 0, 1)
    ensures Aims(OneSession(), a, 2) && AimedAt(OneSession(), a, 2, 0)
    ensures Apply(OneSession(), a) == Waiting(if a.BeginLogout? then Logout else PasswordReset)
  {
    var rows := OneSession().rows;
    assert LiveInFamily(rows, 0) == {0} && LiveOfUser(rows, 0) == {0};
  }

  /**
   * A logout, or a password write, whose snapshot is taken while a rotation is open: the UPDATE waits
   * for row 0, finds it rotated, writes nothing, and commits with the family alive in row 1.
   */
  lemma RotationOutlivesTheRevocation(a: Action)
    requires a == BeginLogout(2, 0, 0, 1) || a == BeginPasswordWrite(2, 0, 1)
    ensures Legal(START, [Issue(0, 0), Present(1, 0, 0)])
    ensures After(START, [Issue(0, 0), Present(1, 0, 0)]) == OneSession()
    ensures Enabled(OneSession(), a)
    ensures var v, run := Apply(OneSession(), a), [Decide(1, 1, true), Commit(1), RevokeRow(2, 0)];
            && Snapshots(OneSession(), a, 2, v) && AimedAt(OneSession(), a, 2, 0)
            && Legal(v, run) && StaysOpen(run, 2) && Enabled(After(v, run), Commit(2))
            && LiveInFamily(CommitStep(After(v, run), 2).rows, 0) == {1}
  {
    var reason := if a.BeginLogout? then Logout else PasswordReset;
    OneSessionIsReached();
    WaitingIsReached(a);
    OvertakenIsReached(reason);
    OvertakenCommits(reason);
  }

  lemma {:induction false} AfterBoth(w: World, s: seq<Action>, t: seq<Action>)
    requires Legal(w, s) && Legal(After(w, s), t)
    ensures Legal(w, s + t) && After(w, s + t) == After(After(w, s), t)
    decreases |s|
  {
    if s == [] {
      assert s + t == t;
    } else {
      AfterBoth(Apply(w, s[0]), s[1..], t);
      Unroll(w, s[0], s[1..] + t);
      assert [s[0]] + (s[1..] + t) == s + t;
    }
  }

  /** Token 0 was rotated into token 1; both are presented again, the newer one by transaction 1. */
  function TwoTokens(): World {
    World(map[0 := Mint(0, 0, 0, 0, None).Revoke(1, Rotated), 1 := Mint(0, 0, 1, 1, Some(0))],
          map[1 := Begin(Presented(1), {1}), 2 := Begin(Presented(0), {0})], 2)
  }

  function ToTwoTokens(): seq<Action> {
    [Issue(0, 0), Present(1, 0, 0), Decide(1, 1, true)] + [Commit(1), Present(1, 1, 1), Present(2, 0, 0)]
  }

  lemma TwoTokensAreReached()
    ensures Legal(START, ToTwoTokens()) && After(START, ToTwoTokens()) == TwoTokens()
  {
    assert Apply(Apply(START, Issue(0, 0)), Present(1, 0, 0)) == OneSession();
    var w := Apply(OneSession(), Decide(1, 1, true));
    Three(START, Issue(0, 0), Present(1, 0, 0), Decide(1, 1, true));
    var v := Apply(w, Commit(1));
    assert v == World(TwoTokens().rows, map[], 2);
    var v1 := Apply(v, Present(1, 1, 1));
    assert v1 == World(TwoTokens().rows, map[1 := Begin(Presented(1), {1})], 2);
    assert Apply(v1, Present(2, 0, 0)) == TwoTokens();
    Three(w, Commit(1), Present(1, 1, 1), Present(2, 0, 0));
    AfterBoth(START, [Issue(0, 0), Present(1, 0, 0), Decide(1, 1, true)],
              [Commit(1), Present(1, 1, 1), Present(2, 0, 0)]);
  }

  /** Transaction 2 has detected the reuse of token 0, and waits for row 1. */
  function Detected(): World {
    World(TwoTokens().rows, map[1 := Begin(Presented(1), {1}), 2 := Begin(Revoking({1}, 20_000, ReuseDetected), {0})], 2)
  }

  function Missed(): World {
    World(TwoTokens().rows[1 := Mint(0, 0, 1, 1, Some(0)).Revoke(20_000, Rotated)][2 := Mint(0, 0, 2, 20_000, Some(1))],
          map[2 := Tx(Revoking({}, 20_000, ReuseDetected), {0, 1}, map[], None)], 3)
  }

  lemma DetectedIsReached()
    ensures Aims(TwoTokens(), Decide(2, 20_000, true), 2)
    ensures AimedAt(TwoTokens(), Decide(2, 20_000, true), 2, 0)
    ensures Apply(TwoTokens(), Decide(2, 20_000, true)) == Detected()
  {
    assert LiveInFamily(TwoTokens().rows, 0) == {1};
  }

  lemma MissedIsReached()
    ensures var run := [Decide(1, 20_000, true), Commit(1), RevokeRow(2, 1)];
            Legal(Detected(), run) && After(Detected(), run) == Missed()
  {
    var v1 := Apply(Detected(), Decide(1, 20_000, true));
    assert v1.txs[1].locks == {1} && v1.txs[2].locks == {0};
    var v2 := Apply(v1, Commit(1));
    assert v2.rows == Missed().rows;
    assert v2.txs == map[2 := Begin(Revoking({1}, 20_000, ReuseDetected), {0})];
    var v3 := Apply(v2, RevokeRow(2, 1));
    assert v3.txs[2].phase.pending == {} && v3.txs[2].locks == {0, 1};
    assert v3.txs[2] == Missed().txs[2];
    assert v3.txs == Missed().txs;
    Three(Detected(), Decide(1, 20_000, true), Commit(1), RevokeRow(2, 1));
  }

  lemma MissedCommits()
    ensures Enabled(Missed(), Commit(2)) && LiveInFamily(CommitStep(Missed(), 2).rows, 0) == {2}
  {
    assert CommitStep(Missed(), 2).rows == Missed().rows;
  }

  /** The same with reuse detection: the newer token is rotated past it, and row 2 stays live. */
  lemma RotationOutlivesReuseDetection()
    ensures Legal(START, ToTwoTokens()) && After(START, ToTwoTokens()) == TwoTokens()
    ensures Enabled(TwoTokens(), Decide(2, 20_000, true))
    ensures var a := Decide(2, 20_000, true);
            var v, run := Apply(TwoTokens(), a), [Decide(1, 20_000, true), Commit(1), RevokeRow(2, 1)];
            && Snapshots(TwoTokens(), a, 2, v) && AimedAt(TwoTokens(), a, 2, 0)
            && Legal(v, run) && StaysOpen(run, 2) && Enabled(After(v, run), Commit(2))
            && LiveInFamily(CommitStep(After(v, run), 2).rows, 0) == {2}
  {
    TwoTokensAreReached();
    DetectedIsReached();
    MissedIsReached();
    MissedCommits();
  }
}
