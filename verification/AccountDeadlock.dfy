/** A reuse detection and a password write of one user that wait for each other. */
module AccountDeadlock {
  import opened Options
  import opened SessionRows
  import M = SessionInterleaving
  import opened AccountInterleaving
  import opened AccountLocks
  import opened AccountWaits

  function First(): Session {
    Mint(0, 0, 0, 0, None)
  }

  function Second(): Session {
    Mint(0, 0, 1, 1, Some(0))
  }

  function Known(): set<Access> {
    {Access(0, 0)}
  }

  /** User 0 is signed in by row 0. */
  function SignedIn(): World {
    World(M.World(map[0 := First()], map[], 1), map[0 := 0], map[], Known(), Known())
  }

  function Rows(): Table {
    map[0 := First().Revoke(1, Rotated), 1 := Second()]
  }

  /** Row 0 was rotated into row 1. */
  function Refreshed(): World {
    World(M.World(Rows(), map[], 2), map[0 := 0], map[], Known(), Known())
  }

  /** Token 0 came again 20 s later: transaction 1 holds both rows and has the version left to raise. */
  function Revoker(): M.Tx {
    M.Tx(M.Revoking({}, 20_000, ReuseDetected), {0, 1}, map[1 := Second().Revoke(20_000, ReuseDetected)], None)
  }

  function Detected(): World {
    World(M.World(Rows(), map[1 := Revoker()], 2), map[0 := 0],
          map[1 := Account(0, OneFamily(0), Some(0), None)], Known(), Known())
  }

  /** The password write raised the version first, and has row 1 left to revoke. */
  function Stuck(): World {
    World(M.World(Rows(), map[1 := Revoker(), 2 := M.Begin(M.Revoking({1}, 20_000, PasswordReset), {})], 2),
          map[0 := 0],
          map[1 := Account(0, OneFamily(0), Some(0), None), 2 := Account(0, WholeUser, None, Some(1))],
          Known(), Known())
  }

  lemma SignsIn()
    ensures Legal(START, [SignUp(0), ReadUser(0), Open(Access(0, 0), 0)])
    ensures After(START, [SignUp(0), ReadUser(0), Open(Access(0, 0), 0)]) == SignedIn()
  {
    Three(START, SignUp(0), ReadUser(0), Open(Access(0, 0), 0));
  }

  function Refresh(): seq<Action> {
    [Inner(M.Present(1, 0, 0)), Inner(M.Decide(1, 1, true)), Commit(1)]
  }

  /** Transaction 1 has rotated row 0 and is about to commit. */
  function Refreshing(): World {
    World(M.World(map[0 := First()],
                  map[1 := M.Tx(M.Ready(Some(0)), {0}, map[0 := First().Revoke(1, Rotated)], Some(M.NewRow(1, Second())))],
                  2),
          map[0 := 0], map[1 := Account(0, OneFamily(0), Some(0), None)], Known(), Known())
  }

  lemma Refreshes()
    ensures Legal(SignedIn(), Refresh()) && After(SignedIn(), Refresh()) == Refreshed()
  {
    var w1 := Apply(SignedIn(), Refresh()[0]);
    assert Apply(w1, Refresh()[1]) == Refreshing();
    RefreshCommits();
    Three(SignedIn(), Refresh()[0], Refresh()[1], Refresh()[2]);
  }

  lemma RefreshCommits()
    ensures Enabled(Refreshing(), Commit(1)) && Apply(Refreshing(), Commit(1)) == Refreshed()
  {
    var w := Apply(Refreshing(), Commit(1));
    assert w.sessions.rows == Rows() && w.sessions.txs == map[] && w.accounts == map[];
    assert w.minted == Known() && w.known == Known();
  }

  function Reuse(): seq<Action> {
    [Inner(M.Present(1, 0, 0)), Inner(M.Decide(1, 20_000, true)), Inner(M.RevokeRow(1, 1))]
  }

  /** Transaction 1 has matched row 1, and holds row 0. */
  function Matched(): World {
    World(M.World(Rows(), map[1 := M.Begin(M.Revoking({1}, 20_000, ReuseDetected), {0})], 2), map[0 := 0],
          map[1 := Account(0, OneFamily(0), Some(0), None)], Known(), Known())
  }

  lemma ReuseMatches()
    ensures Enabled(Refreshed(), Reuse()[0]) && Enabled(Apply(Refreshed(), Reuse()[0]), Reuse()[1])
    ensures Apply(Apply(Refreshed(), Reuse()[0]), Reuse()[1]) == Matched()
  {
    var w1 := Apply(Refreshed(), Reuse()[0]);
    assert LiveInFamily(Rows(), 0) == {1};
    assert Apply(w1, Reuse()[1]).sessions.txs == Matched().sessions.txs;
  }

  lemma ReuseRevokes()
    ensures Enabled(Matched(), Reuse()[2]) && Apply(Matched(), Reuse()[2]) == Detected()
  {
    var w := Apply(Matched(), Reuse()[2]);
    assert w.sessions.txs[1].phase.pending == {} && w.sessions.txs[1].locks == {0, 1};
    assert w.sessions.txs == map[1 := Revoker()];
  }

  lemma Reuses()
    ensures Legal(Refreshed(), Reuse()) && After(Refreshed(), Reuse()) == Detected()
  {
    ReuseMatches();
    ReuseRevokes();
    Three(Refreshed(), Reuse()[0], Reuse()[1], Reuse()[2]);
  }

  lemma PasswordWriteBegins()
    ensures Legal(Detected(), [BumpFirst(2, 0, None), WriteSessions(2, 20_000)])
    ensures After(Detected(), [BumpFirst(2, 0, None), WriteSessions(2, 20_000)]) == Stuck()
  {
    var w1 := Apply(Detected(), BumpFirst(2, 0, None));
    assert LiveOfUser(Rows(), 0) == {1};
    var w2 := Apply(w1, WriteSessions(2, 20_000));
    assert w2.sessions.txs == Stuck().sessions.txs;
    Two(Detected(), BumpFirst(2, 0, None), WriteSessions(2, 20_000));
  }

  function ToDeadlock(): seq<Action> {
    [SignUp(0), ReadUser(0), Open(Access(0, 0), 0)]
    + (Refresh() + (Reuse() + [BumpFirst(2, 0, None), WriteSessions(2, 20_000)]))
  }

  lemma StuckIsReached()
    ensures Legal(START, ToDeadlock()) && After(START, ToDeadlock()) == Stuck()
  {
    SignsIn();
    Refreshes();
    Reuses();
    PasswordWriteBegins();
    var last := [BumpFirst(2, 0, None), WriteSessions(2, 20_000)];
    InTurn(Refreshed(), Reuse(), Detected(), last, Stuck());
    InTurn(SignedIn(), Refresh(), Refreshed(), Reuse() + last, Stuck());
    InTurn(START, [SignUp(0), ReadUser(0), Open(Access(0, 0), 0)], SignedIn(), Refresh() + (Reuse() + last), Stuck());
  }

  /** The transaction a step belongs to. */
  function Mover(a: Action): Option<nat> {
    match a
    case Inner(step) => if step.Issue? then None else Some(step.tx)
    case BumpAfterReuse(tx) => Some(tx)
    case BumpFirst(tx, _, _) => Some(tx)
    case WriteSessions(tx, _) => Some(tx)
    case Commit(tx) => Some(tx)
    case Abort(tx) => Some(tx)
    case _ => None
  }

  lemma NoInnerStep(step: M.Action)
    requires MayStep(Stuck(), step) && !step.Issue?
    ensures step.tx != 1 && step.tx != 2
  {
    assert 1 in Stuck().sessions.txs[1].locks;
  }

  lemma NeitherMoves(a: Action)
    requires Enabled(Stuck(), a) && (Mover(a) == Some(1) || Mover(a) == Some(2))
    ensures a.Abort?
  {
    if a.Inner? {
      NoInnerStep(a.step);
    } else {
      assert Stuck().accounts[2].staged.Some?;
    }
  }

  lemma TheyWait()
    ensures WaitsForUser(Stuck(), 1, 2) && WaitsForRow(Stuck(), 2, 1, 1)
  {
  }

  /** The cycle is reached, and neither of the two can do anything but abort. */
  lemma DeadlockIsReached()
    ensures Legal(START, ToDeadlock()) && After(START, ToDeadlock()) == Stuck()
    ensures WaitsForUser(Stuck(), 1, 2) && WaitsForRow(Stuck(), 2, 1, 1)
    ensures forall a :: Enabled(Stuck(), a) && (Mover(a) == Some(1) || Mover(a) == Some(2)) ==> a.Abort?
  {
    StuckIsReached();
    TheyWait();
    forall a | Enabled(Stuck(), a) && (Mover(a) == Some(1) || Mover(a) == Some(2))
      ensures a.Abort?
    {
      NeitherMoves(a);
    }
  }
}
