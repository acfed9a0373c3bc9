/**
 * The session transactions together with the `users` row they share: reuse detection increments
 * `token_version` after it has revoked, a password write increments it before, and both hold the
 * row's lock to their commit; everybody else reads the version without a lock and mints with what
 * was read.
 */
module AccountInterleaving {
  import opened Options
  import opened SessionRows
  import M = SessionInterleaving

  /** What an access token, or a request about to mint one, knows of its user: `sub` and `sv`. */
  datatype Access = Access(userId: nat, sv: nat)

  /** A transaction works inside one family, or on all of its user's. */
  datatype Scope = OneFamily(familyId: nat) | WholeUser

  /**
   * What a transaction knows of its user's row: the version it read, if any, and the incremented
   * version it has staged. Whoever has staged one holds the row's lock.
   */
  datatype Account = Account(userId: nat, scope: Scope, read: Option<nat>, staged: Option<nat>)

  /**
   * The sessions, the committed versions, what each open transaction knows, the versions requests
   * hold outside any transaction, and the access tokens minted so far.
   */
  datatype World = World(
    sessions: M.World,
    versions: map<nat, nat>,
    accounts: map<nat, Account>,
    known: set<Access>,
    minted: set<Access>)

  const START := World(M.START, map[], map[], {}, {})

  /**
   * `Inner` is a step inside `refresh` or `logout`. `ReadUser` is the plain SELECT of a login or
   * a password change, `Open` is `issueSession`, and `sv` of `BumpFirst` is the version a password
   * change has read; a reset reads none.
   */
  datatype Action =
    | SignUp(userId: nat)
    | ReadUser(userId: nat)
    | Open(known: Access, at: int)
    | Inner(step: M.Action)
    | BumpAfterReuse(tx: nat)
    | BumpFirst(tx: nat, userId: nat, sv: Option<nat>)
    | WriteSessions(tx: nat, at: int)
    | Commit(tx: nat)
    | Abort(tx: nat)

  /** Nobody but `tx` has staged a version of the user's row. */
  predicate RowFree(w: World, tx: nat, userId: nat) {
    forall u :: u in w.accounts && u != tx && w.accounts[u].userId == userId ==> w.accounts[u].staged.None?
  }

  predicate IsReuse(w: World, tx: nat) {
    tx in w.sessions.txs && w.sessions.txs[tx].phase.Revoking? && w.sessions.txs[tx].phase.reason == ReuseDetected
  }

  /** The user of the row a refresh presented is there when the refresh finds it active. */
  predicate KnowsUser(w: World, tx: nat, active: bool) {
    tx in w.accounts && (active ==> w.accounts[tx].userId in w.versions)
  }

  predicate MayStep(w: World, a: M.Action) {
    && M.Enabled(w.sessions, a)
    && match a
       case Present(tx, _, _) => tx !in w.accounts
       case BeginLogout(tx, _, _, _) => tx !in w.accounts
       case Decide(tx, _, active) => KnowsUser(w, tx, active)
       case Recover(tx, active) => KnowsUser(w, tx, active)
       case LockSuccessor(_, _) => true
       case RevokeRow(_, _) => true
       case _ => false
  }

  predicate Enabled(w: World, a: Action) {
    match a
    case SignUp(userId) => userId !in w.versions
    case ReadUser(userId) => userId in w.versions
    case Open(known, _) => known in w.known
    case Inner(step) => MayStep(w, step)
    case BumpAfterReuse(tx) =>
      && tx in w.accounts && IsReuse(w, tx) && w.sessions.txs[tx].phase.pending == {}
      && w.accounts[tx].staged.None? && w.accounts[tx].userId in w.versions
      && RowFree(w, tx, w.accounts[tx].userId)
    case BumpFirst(tx, userId, sv) =>
      && tx !in w.accounts && tx !in w.sessions.txs && userId in w.versions && RowFree(w, tx, userId)
      && (sv.Some? ==> Access(userId, sv.value) in w.known)
    case WriteSessions(tx, at) =>
      && tx in w.accounts && w.accounts[tx].scope.WholeUser?
      && M.Enabled(w.sessions, M.BeginPasswordWrite(tx, w.accounts[tx].userId, at))
    case Commit(tx) =>
      && tx in w.accounts && M.Enabled(w.sessions, M.Commit(tx))
      && (IsReuse(w, tx) ==> w.accounts[tx].staged.Some?)
    case Abort(tx) => tx in w.accounts
  }

  // ---------------------------------------------------------------- what a step does

  function Put(w: World, tx: nat, k: Account): World {
    w.(accounts := w.accounts[tx := k])
  }

  function VersionOf(w: World, userId: nat): Option<nat> {
    if userId in w.versions then Some(w.versions[userId]) else None
  }

  /** What a transaction knows of its user after step `a` of its session side. */
  function Knowing(w: World, a: M.Action): map<nat, Account>
    requires MayStep(w, a)
  {
    var rows := w.sessions.rows;
    match a
    case Present(tx, _, row) => w.accounts[tx := Account(rows[row].userId, OneFamily(rows[row].familyId), None, None)]
    case BeginLogout(tx, _, row, _) =>
      w.accounts[tx := Account(rows[row].userId, OneFamily(rows[row].familyId), None, None)]
    case Decide(tx, _, _) => w.accounts[tx := w.accounts[tx].(read := VersionOf(w, w.accounts[tx].userId))]
    case Recover(tx, _) => w.accounts[tx := w.accounts[tx].(read := VersionOf(w, w.accounts[tx].userId))]
    case _ => w.accounts
  }

  /** `token_version = token_version + 1`, on the row as committed when the lock is granted. */
  function Staged(w: World, userId: nat): Option<nat>
    requires userId in w.versions
  {
    Some(w.versions[userId] + 1)
  }

  /** The access token a committed refresh mints, from the version it read. */
  function Answer(w: World, tx: nat): set<Access>
    requires tx in w.accounts && tx in w.sessions.txs
  {
    var k, p := w.accounts[tx], w.sessions.txs[tx].phase;
    if p.Ready? && p.won.Some? && k.read.Some? then {Access(k.userId, k.read.value)} else {}
  }

  /** What a committed password change goes on with: one more than the version it read beforehand. */
  function Handover(k: Account): set<Access> {
    if k.scope.WholeUser? && k.read.Some? then {Access(k.userId, k.read.value + 1)} else {}
  }

  function CommitStep(w: World, tx: nat): World
    requires Enabled(w, Commit(tx))
  {
    var k := w.accounts[tx];
    World(M.CommitStep(w.sessions, tx),
          if k.staged.Some? then w.versions[k.userId := k.staged.value] else w.versions,
          w.accounts - {tx}, w.known + Handover(k), w.minted + Answer(w, tx))
  }

  function Apply(w: World, a: Action): World
    requires Enabled(w, a)
  {
    match a
    case SignUp(userId) => w.(versions := w.versions[userId := 0])
    case ReadUser(userId) => w.(known := w.known + {Access(userId, w.versions[userId])})
    case Open(known, at) =>
      w.(sessions := M.IssueStep(w.sessions, known.userId, at), minted := w.minted + {known})
    case Inner(step) => w.(sessions := M.Apply(w.sessions, step), accounts := Knowing(w, step))
    case BumpAfterReuse(tx) =>
      Put(w, tx, w.accounts[tx].(staged := Staged(w, w.accounts[tx].userId)))
    case BumpFirst(tx, userId, sv) => Put(w, tx, Account(userId, WholeUser, sv, Staged(w, userId)))
    case WriteSessions(tx, at) =>
      w.(sessions := M.Apply(w.sessions, M.BeginPasswordWrite(tx, w.accounts[tx].userId, at)))
    case Commit(tx) => CommitStep(w, tx)
    case Abort(tx) => w.(sessions := w.sessions.(txs := w.sessions.txs - {tx}), accounts := w.accounts - {tx})
  }

  ghost predicate Legal(w: World, run: seq<Action>)
    decreases |run|
  {
    run == [] || (Enabled(w, run[0]) && Legal(Apply(w, run[0]), run[1..]))
  }

  function After(w: World, run: seq<Action>): World
    requires Legal(w, run)
    decreases |run|
  {
    if run == [] then w else After(Apply(w, run[0]), run[1..])
  }

  lemma Unroll(w: World, a: Action, rest: seq<Action>)
    requires Enabled(w, a) && Legal(Apply(w, a), rest)
    ensures Legal(w, [a] + rest) && After(w, [a] + rest) == After(Apply(w, a), rest)
  {
    assert ([a] + rest)[1..] == rest;
  }

  lemma {:induction false} AfterBoth(w: World, s: seq<Action>, t: seq<Action>)
    requires Legal(w, s) && Legal(After(w, s), t)
    ensures Legal(w, s + t) && After(w, s + t) == After(After(w, s), t)
    decreases |s|
  {
    if s == [] {
      assert s + t == t;
    } else {
      AfterBoth(Apply(w, s[0]), s[1..], t);
      Unroll(w, s[0], s[1..] + t);
      assert [s[0]] + (s[1..] + t) == s + t;
    }
  }

  lemma Two(w: World, a: Action, b: Action)
    requires Enabled(w, a) && Enabled(Apply(w, a), b)
    ensures Legal(w, [a, b]) && After(w, [a, b]) == Apply(Apply(w, a), b)
  {
    Unroll(Apply(w, a), b, []);
    Unroll(w, a, [b]);
    assert [b] + [] == [b] && [a] + [b] == [a, b];
  }

  lemma Three(w: World, a: Action, b: Action, c: Action)
    requires Enabled(w, a) && Enabled(Apply(w, a), b) && Enabled(Apply(Apply(w, a), b), c)
    ensures Legal(w, [a, b, c]) && After(w, [a, b, c]) == Apply(Apply(Apply(w, a), b), c)
  {
    Two(Apply(w, a), b, c);
    Unroll(w, a, [b, c]);
    assert [a] + [b, c] == [a, b, c];
  }

  lemma InTurn(w: World, s: seq<Action>, middle: World, t: seq<Action>, end: World)
    requires Legal(w, s) && After(w, s) == middle && Legal(middle, t) && After(middle, t) == end
    ensures Legal(w, s + t) && After(w, s + t) == end
  {
    AfterBoth(w, s, t);
  }

  // ---------------------------------------------------------------- the sessions are those of the smaller machine

  /** What the step is for the sessions alone; nothing at all for most. */
  function Projected(w: World, a: Action): Option<M.Action>
    requires Enabled(w, a)
  {
    match a
    case Open(known, at) => Some(M.Issue(known.userId, at))
    case Inner(step) => Some(step)
    case WriteSessions(tx, at) => Some(M.BeginPasswordWrite(tx, w.accounts[tx].userId, at))
    case Commit(tx) => Some(M.Commit(tx))
    case Abort(tx) => if tx in w.sessions.txs then Some(M.Abort(tx)) else None
    case _ => None
  }

  lemma ProjectedStep(w: World, a: Action)
    requires Enabled(w, a)
    ensures match Projected(w, a)
            case None => Apply(w, a).sessions == w.sessions
            case Some(step) => M.Enabled(w.sessions, step) && Apply(w, a).sessions == M.Apply(w.sessions, step)
  {
    if a.Abort? && a.tx !in w.sessions.txs {
      assert w.sessions.txs - {a.tx} == w.sessions.txs;
    }
  }

  /** Whatever the two tables go through together, the sessions table goes through alone. */
  lemma {:induction false} SessionsRunAlone(w: World, run: seq<Action>) returns (alone: seq<M.Action>)
    requires Legal(w, run)
    ensures M.Legal(w.sessions, alone) && M.After(w.sessions, alone) == After(w, run).sessions
    decreases |run|
  {
    if run == [] {
      alone := [];
    } else {
      ProjectedStep(w, run[0]);
      var rest := SessionsRunAlone(Apply(w, run[0]), run[1..]);
      match Projected(w, run[0])
      case None => alone := rest;
      case Some(step) =>
        alone := [step] + rest;
        assert alone[1..] == rest;
    }
  }
}
