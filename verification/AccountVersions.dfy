/**
 * Token versions in every interleaving: no access token runs ahead of its user's row, every
 * committed reuse detection or password write leaves all earlier ones behind for good, and whether
 * a fresh pair works depends on the increments committed since its version was read.
 */
module AccountVersions {
  import opened Options
  import opened SessionRows
  import M = SessionInterleaving
  import opened AccountInterleaving

  predicate Behind(versions: map<nat, nat>, a: Access) {
    a.userId in versions && a.sv <= versions[a.userId]
  }

  /** The guard's comparison: the claim equals the committed version. */
  predicate Current(w: World, a: Access) {
    a.userId in w.versions && w.versions[a.userId] == a.sv
  }

  predicate AccountOk(versions: map<nat, nat>, k: Account) {
    && (k.read.Some? ==> Behind(versions, Access(k.userId, k.read.value)))
    && (k.staged.Some? ==> k.userId in versions && k.staged.value == versions[k.userId] + 1)
    && (k.scope.WholeUser? ==> k.staged.Some?)
  }

  /** Two open transactions do not hold the same user's row. */
  predicate OneHolder(a: Account, b: Account) {
    a.userId == b.userId ==> a.staged.None? || b.staged.None?
  }

  predicate Inv(w: World) {
    && (forall a :: a in w.known ==> Behind(w.versions, a))
    && (forall a :: a in w.minted ==> Behind(w.versions, a))
    && (forall tx :: tx in w.accounts ==> AccountOk(w.versions, w.accounts[tx]))
    && (forall t, u :: t in w.accounts && u in w.accounts && t != u ==> OneHolder(w.accounts[t], w.accounts[u]))
  }

  // ---------------------------------------------------------------- every step keeps it

  /** Versions only grow, and the holder of a row is the only one to change it. */
  predicate Grows(before: map<nat, nat>, after: map<nat, nat>) {
    forall u :: u in before ==> u in after && before[u] <= after[u]
  }

  /** Steps that change one slot and no version. */
  lemma PutKeeps(w: World, w': World, tx: nat, k: Account)
    requires Inv(w) && w'.versions == w.versions && w'.accounts == w.accounts[tx := k]
    requires w'.known == w.known && w'.minted == w.minted
    requires AccountOk(w.versions, k)
    requires forall u :: u in w.accounts && u != tx ==> OneHolder(k, w.accounts[u])
    ensures Inv(w')
  {
  }

  lemma BumpKeeps(w: World, tx: nat, k: Account)
    requires Inv(w) && k.userId in w.versions && RowFree(w, tx, k.userId) && k.staged == Staged(w, k.userId)
    requires k.read.Some? ==> Behind(w.versions, Access(k.userId, k.read.value))
    ensures Inv(Put(w, tx, k))
  {
    forall u | u in w.accounts && u != tx
      ensures OneHolder(k, w.accounts[u])
    {
    }
    PutKeeps(w, Put(w, tx, k), tx, k);
  }

  lemma SessionKeeps(w: World, step: M.Action)
    requires Inv(w) && MayStep(w, step)
    ensures Inv(Apply(w, Inner(step)))
  {
    var w' := Apply(w, Inner(step));
    if step.Present? || step.BeginLogout? || step.Decide? || step.Recover? {
      var k := w'.accounts[step.tx];
      assert step.tx in w.accounts ==> AccountOk(w.versions, w.accounts[step.tx]);
      forall u | u in w.accounts && u != step.tx
        ensures OneHolder(k, w.accounts[u])
      {
        assert step.tx in w.accounts ==> OneHolder(w.accounts[step.tx], w.accounts[u]);
      }
      PutKeeps(w, w', step.tx, k);
    }
  }

  lemma CommitKeeps(w: World, tx: nat)
    requires Inv(w) && Enabled(w, Commit(tx))
    ensures Inv(CommitStep(w, tx)) && Grows(w.versions, CommitStep(w, tx).versions)
  {
    var k, w' := w.accounts[tx], CommitStep(w, tx);
    assert AccountOk(w.versions, k);
    forall u | u in w'.accounts
      ensures AccountOk(w'.versions, w'.accounts[u])
    {
      assert AccountOk(w.versions, w.accounts[u]) && OneHolder(w.accounts[u], k);
    }
    forall a | a in w.known || a in w.minted
      ensures Behind(w'.versions, a)
    {
      assert Behind(w.versions, a);
    }
  }

  lemma ApplyKeeps(w: World, a: Action)
    requires Inv(w) && Enabled(w, a)
    ensures Inv(Apply(w, a)) && Grows(w.versions, Apply(w, a).versions)
  {
    match a
    case Inner(step) => SessionKeeps(w, step);
    case BumpAfterReuse(tx) =>
      assert AccountOk(w.versions, w.accounts[tx]);
      BumpKeeps(w, tx, w.accounts[tx].(staged := Staged(w, w.accounts[tx].userId)));
    case BumpFirst(tx, userId, sv) => BumpKeeps(w, tx, Account(userId, WholeUser, sv, Staged(w, userId)));
    case Commit(tx) => CommitKeeps(w, tx);
    case _ =>
  }

  lemma {:induction false} LegalKeeps(w: World, run: seq<Action>)
    requires Inv(w) && Legal(w, run)
    ensures Inv(After(w, run)) && Grows(w.versions, After(w, run).versions)
    decreases |run|
  {
    if run == [] {
    } else {
      ApplyKeeps(w, run[0]);
      LegalKeeps(Apply(w, run[0]), run[1..]);
    }
  }

  // ---------------------------------------------------------------- what holds in every run

  /** In every interleaving no access token was ever minted with a version its user has not reached. */
  lemma NeverAhead(run: seq<Action>, a: Access)
    requires Legal(START, run) && a in After(START, run).minted
    ensures a.userId in After(START, run).versions && a.sv <= After(START, run).versions[a.userId]
  {
    LegalKeeps(START, run);
  }

  /** The step commits a reuse detection or a password write of the user. */
  predicate Ends(w: World, a: Action, userId: nat) {
    a.Commit? && a.tx in w.accounts && w.accounts[a.tx].staged.Some? && w.accounts[a.tx].userId == userId
  }

  /** No reuse detection and no password write commits without it. */
  lemma CommittedEndingsCount(w: World, tx: nat)
    requires Inv(w) && Enabled(w, Commit(tx)) && (IsReuse(w, tx) || w.accounts[tx].scope.WholeUser?)
    ensures Ends(w, Commit(tx), w.accounts[tx].userId)
  {
    assert AccountOk(w.versions, w.accounts[tx]);
  }

  function EndCount(w: World, run: seq<Action>, userId: nat): nat
    requires Legal(w, run)
    decreases |run|
  {
    if run == [] then 0
    else (if Ends(w, run[0], userId) then 1 else 0) + EndCount(Apply(w, run[0]), run[1..], userId)
  }

  lemma StepCounts(w: World, a: Action, userId: nat)
    requires Inv(w) && Enabled(w, a) && userId in w.versions
    ensures userId in Apply(w, a).versions
    ensures Apply(w, a).versions[userId] == w.versions[userId] + if Ends(w, a, userId) then 1 else 0
  {
    if a.Commit? {
      assert AccountOk(w.versions, w.accounts[a.tx]);
    }
  }

  /** A user's version counts the committed reuse detections and password writes, and nothing else. */
  lemma {:induction false} VersionCountsEnds(w: World, run: seq<Action>, userId: nat)
    requires Inv(w) && Legal(w, run) && userId in w.versions
    ensures userId in After(w, run).versions
    ensures After(w, run).versions[userId] == w.versions[userId] + EndCount(w, run, userId)
    decreases |run|
  {
    if run == [] {
    } else {
      StepCounts(w, run[0], userId);
      ApplyKeeps(w, run[0]);
      VersionCountsEnds(Apply(w, run[0]), run[1..], userId);
    }
  }

  /** Read by anybody: minted, held by a request, or noted by an open transaction. */
  predicate IsKnown(w: World, a: Access) {
    a in w.minted || a in w.known || exists tx :: tx in w.accounts && Noted(w.accounts[tx], a)
  }

  predicate Noted(k: Account, a: Access) {
    k.userId == a.userId && k.read == Some(a.sv)
  }

  /**
   * Once a reuse detection or a password write has committed, every version read before it is refused
   * by the guard for good: in tokens already minted, and in those a login or refresh still mints with it.
   */
  lemma EarlierTokensAreRefused(w: World, tx: nat, a: Access, run: seq<Action>)
    requires Inv(w) && Enabled(w, Commit(tx)) && Ends(w, Commit(tx), a.userId) && IsKnown(w, a)
    requires Legal(CommitStep(w, tx), run)
    ensures !Current(After(CommitStep(w, tx), run), a)
  {
    KnownIsBehind(w, a);
    EndingRaises(w, tx, a.userId, run);
  }

  /** A password change that read its version before another ending of the user's tokens was committed. */
  predicate ChangesFrom(w: World, tx: nat, a: Access) {
    tx in w.accounts && w.accounts[tx].scope.WholeUser? && Noted(w.accounts[tx], a) && Enabled(w, Commit(tx))
  }

  /**
   * And so is what a password change mints from such a read, which is one more: its own commit is a
   * second increment. `v` is where it commits, some time after the other.
   */
  lemma EarlierChangesMintRefusedTokens(w: World, tx: nat, a: Access, run: seq<Action>, v: World, change: nat,
                                        later: seq<Action>)
    requires Inv(w) && Enabled(w, Commit(tx)) && Ends(w, Commit(tx), a.userId) && IsKnown(w, a)
    requires Legal(CommitStep(w, tx), run) && v == After(CommitStep(w, tx), run) && ChangesFrom(v, change, a)
    requires Legal(CommitStep(v, change), later)
    ensures Access(a.userId, a.sv + 1) in CommitStep(v, change).known
    ensures !Current(After(CommitStep(v, change), later), Access(a.userId, a.sv + 1))
  {
    KnownIsBehind(w, a);
    EndingRaises(w, tx, a.userId, run);
    ChangeEnds(v, change, a);
    EndingRaises(v, change, a.userId, later);
  }

  lemma ChangeEnds(w: World, change: nat, a: Access)
    requires Inv(w) && ChangesFrom(w, change, a)
    ensures Ends(w, Commit(change), a.userId) && Access(a.userId, a.sv + 1) in CommitStep(w, change).known
  {
    assert AccountOk(w.versions, w.accounts[change]);
  }

  lemma EndingRaises(w: World, tx: nat, userId: nat, run: seq<Action>)
    requires Inv(w) && Enabled(w, Commit(tx)) && Ends(w, Commit(tx), userId) && userId in w.versions
    requires Legal(CommitStep(w, tx), run)
    ensures Inv(After(CommitStep(w, tx), run)) && userId in After(CommitStep(w, tx), run).versions
    ensures After(CommitStep(w, tx), run).versions[userId] >= w.versions[userId] + 1
  {
    StepCounts(w, Commit(tx), userId);
    CommitKeeps(w, tx);
    LegalKeeps(CommitStep(w, tx), run);
  }

  lemma KnownIsBehind(w: World, a: Access)
    requires Inv(w) && IsKnown(w, a)
    ensures Behind(w.versions, a)
  {
    if a !in w.minted && a !in w.known {
      var u :| u in w.accounts && Noted(w.accounts[u], a);
      assert AccountOk(w.versions, w.accounts[u]);
    }
  }

  /**
   * A token minted from a version read at `w`, `plus` steps ahead of it, is admitted later exactly
   * when `plus` increments of its user were committed in between: none for a login or a refresh, and
   * for the pair of a password change no other than its own.
   */
  lemma CurrentIff(w: World, run: seq<Action>, userId: nat, plus: nat)
    requires Inv(w) && Legal(w, run) && userId in w.versions
    ensures Current(After(w, run), Access(userId, w.versions[userId] + plus)) <==> EndCount(w, run, userId) == plus
  {
    VersionCountsEnds(w, run, userId);
  }

  // ---------------------------------------------------------------- two password changes at once

  /** User 0 at version `v` with no session and nothing open; two requests have read version 0. */
  function Calm(v: nat, known: set<Access>): World {
    World(M.START, map[0 := v], map[], known, {})
  }

  /** A password change that read version 0, from its increment to its commit. */
  function ChangeFromZero(tx: nat): seq<Action> {
    [BumpFirst(tx, 0, Some(0)), WriteSessions(tx, 0), Commit(tx)]
  }

  /** The change has incremented the version and revoked what there was, which is nothing. */
  function Changing(v: nat, known: set<Access>, tx: nat): World {
    World(M.World(map[], map[tx := M.Begin(M.Revoking({}, 0, PasswordReset), {})], 0), map[0 := v],
          map[tx := Account(0, WholeUser, Some(0), Some(v + 1))], known, {})
  }

  lemma ChangeBegins(v: nat, known: set<Access>, tx: nat)
    requires Access(0, 0) in known
    ensures Legal(Calm(v, known), [BumpFirst(tx, 0, Some(0)), WriteSessions(tx, 0)])
    ensures After(Calm(v, known), [BumpFirst(tx, 0, Some(0)), WriteSessions(tx, 0)]) == Changing(v, known, tx)
  {
    var w1 := Apply(Calm(v, known), BumpFirst(tx, 0, Some(0)));
    assert LiveOfUser(map[], 0) == {};
    assert Apply(w1, WriteSessions(tx, 0)) == Changing(v, known, tx);
    Two(Calm(v, known), BumpFirst(tx, 0, Some(0)), WriteSessions(tx, 0));
  }

  lemma ChangeCommits(v: nat, known: set<Access>, tx: nat)
    ensures Legal(Changing(v, known, tx), [Commit(tx)])
    ensures After(Changing(v, known, tx), [Commit(tx)]) == Calm(v + 1, known + {Access(0, 1)})
  {
    var w := Apply(Changing(v, known, tx), Commit(tx));
    assert w.sessions.rows == map[] && w.sessions.txs == map[] && w.accounts == map[];
    assert w == Calm(v + 1, known + {Access(0, 1)});
  }

  lemma ChangeRuns(v: nat, known: set<Access>, tx: nat, known': set<Access>)
    requires Access(0, 0) in known && known' == known + {Access(0, 1)}
    ensures Legal(Calm(v, known), ChangeFromZero(tx))
    ensures After(Calm(v, known), ChangeFromZero(tx)) == Calm(v + 1, known')
  {
    ChangeBegins(v, known, tx);
    ChangeCommits(v, known, tx);
    AfterBoth(Calm(v, known), [BumpFirst(tx, 0, Some(0)), WriteSessions(tx, 0)], [Commit(tx)]);
    assert ChangeFromZero(tx) == [BumpFirst(tx, 0, Some(0)), WriteSessions(tx, 0)] + [Commit(tx)];
  }

  lemma VersionZeroIsRead()
    ensures Legal(START, [SignUp(0), ReadUser(0)])
    ensures After(START, [SignUp(0), ReadUser(0)]) == Calm(0, {Access(0, 0)})
  {
    Two(START, SignUp(0), ReadUser(0));
  }

  function BothChanges(): seq<Action> {
    [SignUp(0), ReadUser(0)] + (ChangeFromZero(1) + ChangeFromZero(2))
  }

  lemma OneAfterTheOther(v: nat, known: set<Access>, s: nat, t: nat)
    requires Access(0, 0) in known
    ensures Legal(Calm(v, known), ChangeFromZero(s) + ChangeFromZero(t))
    ensures After(Calm(v, known), ChangeFromZero(s) + ChangeFromZero(t)) == Calm(v + 2, known + {Access(0, 1)})
  {
    var both := known + {Access(0, 1)};
    assert both + {Access(0, 1)} == both;
    ChangeRuns(v, known, s, both);
    ChangeRuns(v + 1, both, t, both);
    InTurn(Calm(v, known), ChangeFromZero(s), Calm(v + 1, both), ChangeFromZero(t), Calm(v + 2, both));
  }

  lemma BothChangesRun(known: set<Access>)
    requires known == {Access(0, 0)}
    ensures Legal(START, BothChanges())
    ensures After(START, BothChanges()) == Calm(2, known + {Access(0, 1)})
  {
    VersionZeroIsRead();
    OneAfterTheOther(0, known, 1, 2);
    InTurn(START, [SignUp(0), ReadUser(0)], Calm(0, known), ChangeFromZero(1) + ChangeFromZero(2),
           Calm(2, known + {Access(0, 1)}));
  }

  /**
   * Two password changes of one user that read the same version both commit, and both go on with that
   * version plus one: the access token either of them mints is refused from the start.
   */
  lemma TwoChangesMintOutdatedPairs()
    ensures Legal(START, BothChanges()) && Enabled(After(START, BothChanges()), Open(Access(0, 1), 0))
    ensures var w := Apply(After(START, BothChanges()), Open(Access(0, 1), 0));
            Access(0, 1) in w.minted && !Current(w, Access(0, 1))
  {
    BothChangesRun({Access(0, 0)});
  }
}
