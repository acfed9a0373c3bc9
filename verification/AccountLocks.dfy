/**
 * What the transactions on one account hold and still want: a refresh, a logout and a reuse
 * detection climb one family's chain, a password write takes at most one row of each family, and
 * the row of the user comes last for the former and first for the latter.
 */
module AccountLocks {
  import opened Options
  import opened SessionRows
  import opened Sizes
  import M = SessionInterleaving
  import V = AccountVersions
  import opened AccountInterleaving

  // ---------------------------------------------------------------- ids climb along every chain

  /** A row is newer than the row it was rotated from. */
  predicate Rising(rows: Table) {
    forall id :: id in rows && rows[id].rotatedFrom.Some? ==> rows[id].rotatedFrom.value < id
  }

  predicate StagedRising(t: M.Tx) {
    t.insert.Some? && t.insert.value.row.rotatedFrom.Some? ==> t.insert.value.row.rotatedFrom.value < t.insert.value.id
  }

  lemma {:induction false} ChainClimbs(rows: Table, family: nat, c: seq<nat>, i: nat, j: nat)
    requires Rising(rows) && IsChain(rows, family, c) && i <= j < |c|
    ensures c[i] <= c[j]
    decreases j
  {
    if i == j {
    } else {
      ChainClimbs(rows, family, c, i, j - 1);
    }
  }

  /** The live row of a family is its newest. */
  lemma LiveIsNewest(rows: Table, a: nat, live: nat)
    requires Chained(rows) && Rising(rows) && a in rows && live in rows && rows[live].Live()
    requires rows[a].familyId == rows[live].familyId
    ensures a <= live
  {
    assert HasChain(rows, rows[a].familyId);
    var c :| IsChain(rows, rows[a].familyId, c);
    assert a in c && live in c;
    var i, j :| 0 <= i < |c| && 0 <= j < |c| && c[i] == a && c[j] == live;
    ChainClimbs(rows, rows[a].familyId, c, i, |c| - 1);
  }

  // ---------------------------------------------------------------- what is held, what is wanted

  function Pending(t: M.Tx): set<nat> {
    match t.phase
    case LockingSuccessors(_, _, pending, _) => pending
    case Revoking(pending, _, _) => pending
    case _ => {}
  }

  /** Inside one family: one row at most is wanted, and nothing newer than it is held. */
  predicate ClimbsIn(rows: Table, t: M.Tx, family: nat) {
    && (forall id :: id in t.locks + Pending(t) ==> id in rows && rows[id].familyId == family)
    && (forall h, p :: h in t.locks && p in Pending(t) ==> h <= p)
    && (forall p, q :: p in Pending(t) && q in Pending(t) ==> p == q)
  }

  /** On all of a user's families: no two rows of the same one. */
  predicate OneOfEach(rows: Table, t: M.Tx, userId: nat) {
    && t.phase.Revoking?
    && (forall id :: id in t.locks + Pending(t) ==> id in rows && rows[id].userId == userId)
    && (forall a, b | a in t.locks + Pending(t) && b in t.locks + Pending(t) && rows[a].familyId == rows[b].familyId
          :: a == b)
  }

  /** The family is the user's; all its rows are then. */
  predicate FamilyOf(rows: Table, family: nat, userId: nat) {
    exists id :: id in rows && rows[id].familyId == family && rows[id].userId == userId
  }

  predicate Shaped(rows: Table, t: M.Tx, k: Account) {
    match k.scope
    case OneFamily(family) =>
      && ClimbsIn(rows, t, family) && FamilyOf(rows, family, k.userId)
      && (k.staged.Some? ==> t.phase.Revoking? && Pending(t) == {})
    case WholeUser => OneOfEach(rows, t, k.userId)
  }

  predicate HoldsItsRow(t: M.Tx) {
    t.phase.Presented? ==> t.locks == {t.phase.row}
  }

  predicate SlotOk(rows: Table, t: M.Tx, k: Account) {
    Shaped(rows, t, k) && StagedRising(t) && HoldsItsRow(t)
  }

  predicate TxOk(w: World, tx: nat)
    requires tx in w.sessions.txs
  {
    tx in w.accounts && SlotOk(w.sessions.rows, w.sessions.txs[tx], w.accounts[tx])
  }

  ghost predicate Inv(w: World) {
    && M.Inv(w.sessions) && V.Inv(w) && Rising(w.sessions.rows)
    && forall tx :: tx in w.sessions.txs ==> TxOk(w, tx)
  }

  // ---------------------------------------------------------------- every step keeps it

  /** Rows never change family or user, so whoever takes no step stays in shape. */
  lemma ShapeStays(rows: Table, rows': Table, t: M.Tx, k: Account)
    requires Shaped(rows, t, k)
    requires forall id :: id in rows ==> id in rows' && rows[id].EvolvesTo(rows'[id])
    ensures Shaped(rows', t, k)
  {
  }

  /** A step that changes the slot of one transaction at most, and of the rows no identity. */
  predicate Local(w: World, w': World, tx: nat) {
    && (forall id :: id in w.sessions.rows ==>
                       id in w'.sessions.rows && w.sessions.rows[id].EvolvesTo(w'.sessions.rows[id]))
    && (forall u :: u in w'.sessions.txs && u != tx ==>
                      && u in w.sessions.txs && w'.sessions.txs[u] == w.sessions.txs[u]
                      && (u in w.accounts ==> u in w'.accounts && w'.accounts[u] == w.accounts[u]))
  }

  lemma LocalKeeps(w: World, w': World, tx: nat)
    requires Inv(w) && Local(w, w', tx) && M.Inv(w'.sessions) && V.Inv(w') && Rising(w'.sessions.rows)
    requires tx in w'.sessions.txs ==> TxOk(w', tx)
    ensures Inv(w')
  {
    forall u | u in w'.sessions.txs
      ensures TxOk(w', u)
    {
      if u != tx {
        assert TxOk(w, u);
        ShapeStays(w.sessions.rows, w'.sessions.rows, w.sessions.txs[u], w.accounts[u]);
      }
    }
  }

  /** The rows matched by a statement on one family, seen from what the transaction holds of it. */
  lemma LiveClimbs(rows: Table, t: M.Tx, family: nat)
    requires Chained(rows) && Rising(rows) && Pending(t) == LiveInFamily(rows, family)
    requires forall id :: id in t.locks ==> id in rows && rows[id].familyId == family
    ensures ClimbsIn(rows, t, family)
  {
    forall p, q | p in Pending(t) && q in Pending(t)
      ensures p == q
    {
      AtMostOneLive(rows, p, q);
    }
    forall h, p | h in t.locks && p in Pending(t)
      ensures h <= p
    {
      LiveIsNewest(rows, h, p);
    }
  }

  lemma SuccessorClimbs(rows: Table, t: M.Tx, row: nat)
    requires Chained(rows) && Rising(rows) && row in rows && t.locks == {row} && Pending(t) == Successors(rows, row)
    ensures ClimbsIn(rows, t, rows[row].familyId)
  {
    SuccessorIffRotated(rows, row);
    forall p, q | p in Pending(t) && q in Pending(t)
      ensures p == q
    {
      if p != q {
        assert {p, q} <= Successors(rows, row);
        SubsetSize({p, q}, Successors(rows, row));
      }
    }
  }

  lemma UserShape(rows: Table, t: M.Tx, userId: nat)
    requires Chained(rows) && t.phase.Revoking? && t.locks == {} && Pending(t) == LiveOfUser(rows, userId)
    ensures OneOfEach(rows, t, userId)
  {
    forall a, b | a in Pending(t) && b in Pending(t) && rows[a].familyId == rows[b].familyId
      ensures a == b
    {
      AtMostOneLive(rows, a, b);
    }
  }

  /** Taking the wanted row leaves nothing more to want in a family. */
  lemma TakeShapes(rows: Table, t: M.Tx, t': M.Tx, k: Account, id: nat)
    requires Shaped(rows, t, k) && id in Pending(t)
    requires t'.locks == t.locks + {id} && Pending(t') == Pending(t) - {id} && t'.phase.Revoking? == t.phase.Revoking?
    ensures Shaped(rows, t', k)
  {
    assert t'.locks + Pending(t') == t.locks + Pending(t);
  }

  lemma RowsRise(w: World, a: Action)
    requires Inv(w) && Enabled(w, a)
    ensures Rising(Apply(w, a).sessions.rows)
  {
    if a.Commit? {
      assert TxOk(w, a.tx) && M.TxOk(w.sessions, w.sessions.txs[a.tx]);
      CommitRises(w.sessions, a.tx);
    } else {
      ProjectedStep(w, a);
      if Projected(w, a).Some? {
        OthersRise(w.sessions, Projected(w, a).value);
      }
    }
  }

  /** Nothing but a commit stores a rotated row. */
  lemma OthersRise(w: M.World, step: M.Action)
    requires M.Enabled(w, step) && !step.Commit? && Rising(w.rows)
    ensures Rising(M.Apply(w, step).rows)
  {
  }

  lemma CommitRises(w: M.World, tx: nat)
    requires M.Enabled(w, M.Commit(tx)) && M.TxOk(w, w.txs[tx]) && Rising(w.rows) && StagedRising(w.txs[tx])
    ensures Rising(M.CommitStep(w, tx).rows)
  {
    var t, rows' := w.txs[tx], M.CommitStep(w, tx).rows;
    forall id | id in rows' && rows'[id].rotatedFrom.Some?
      ensures rows'[id].rotatedFrom.value < id
    {
      if id in t.updates {
        assert M.Justified(w.rows, t, id);
      }
    }
  }

  lemma RowsEvolve(w: World, a: Action)
    requires M.Inv(w.sessions) && Enabled(w, a)
    ensures forall id :: id in w.sessions.rows ==>
                           && id in Apply(w, a).sessions.rows
                           && w.sessions.rows[id].EvolvesTo(Apply(w, a).sessions.rows[id])
  {
    ProjectedStep(w, a);
    match Projected(w, a)
    case None =>
    case Some(step) => M.StepEvolves(w.sessions, step);
  }

  lemma BaseKeeps(w: World, a: Action)
    requires Inv(w) && Enabled(w, a)
    ensures M.Inv(Apply(w, a).sessions) && V.Inv(Apply(w, a)) && Rising(Apply(w, a).sessions.rows)
  {
    ProjectedStep(w, a);
    match Projected(w, a) {
      case None =>
      case Some(step) => M.ApplyKeeps(w.sessions, step);
    }
    V.ApplyKeeps(w, a);
    RowsRise(w, a);
  }

  lemma DecideShapes(w: M.World, tx: nat, at: int, active: bool, family: nat)
    requires Chained(w.rows) && Rising(w.rows) && M.Enabled(w, M.Decide(tx, at, active))
    requires ClimbsIn(w.rows, w.txs[tx], family) && HoldsItsRow(w.txs[tx])
    ensures ClimbsIn(w.rows, M.DecideStep(w, tx, at, active).txs[tx], family)
  {
    var t, t' := w.txs[tx], M.DecideStep(w, tx, at, active).txs[tx];
    if t'.phase.Revoking? {
      LiveClimbs(w.rows, t', family);
    } else if t'.phase.LockingSuccessors? {
      SuccessorClimbs(w.rows, t', t.phase.row);
    }
  }

  /** What a step mints gets the next id, and is rotated from a stored row. */
  lemma MintRises(w: M.World, t: M.Tx)
    requires forall id :: id in w.rows ==> M.RowOk(w, id)
    requires t.insert.Some? ==> t.insert.value.id == w.nextId
    requires t.insert.Some? && t.insert.value.row.rotatedFrom.Some? ==> t.insert.value.row.rotatedFrom.value in w.rows
    ensures StagedRising(t)
  {
    if t.insert.Some? && t.insert.value.row.rotatedFrom.Some? {
      assert M.RowOk(w, t.insert.value.row.rotatedFrom.value);
    }
  }

  lemma DecideMints(w: M.World, tx: nat, at: int, active: bool, t': M.Tx)
    requires M.Enabled(w, M.Decide(tx, at, active)) && t' == M.DecideStep(w, tx, at, active).txs[tx]
    requires M.PhaseOk(w, w.txs[tx]) && forall id :: id in w.rows ==> M.RowOk(w, id)
    ensures StagedRising(t') && HoldsItsRow(t')
  {
    MintRises(w, t');
  }

  lemma RecoverShapes(w: M.World, tx: nat, active: bool, family: nat)
    requires Chained(w.rows) && Rising(w.rows) && M.Enabled(w, M.Recover(tx, active))
    requires M.PhaseOk(w, w.txs[tx]) && ClimbsIn(w.rows, w.txs[tx], family)
    ensures ClimbsIn(w.rows, M.RecoverStep(w, tx, active).txs[tx], family)
  {
    var t' := M.RecoverStep(w, tx, active).txs[tx];
    if t'.phase.Revoking? {
      LiveClimbs(w.rows, t', family);
    }
  }

  lemma RecoverMints(w: M.World, tx: nat, active: bool)
    requires M.Inv(w) && M.Enabled(w, M.Recover(tx, active))
    ensures StagedRising(M.RecoverStep(w, tx, active).txs[tx])
  {
    assert M.TxOk(w, w.txs[tx]);
    MintRises(w, M.RecoverStep(w, tx, active).txs[tx]);
  }

  /** Another version may have been read; who works where, and what is staged, is as before. */
  predicate SameWork(k: Account, k': Account) {
    k'.userId == k.userId && k'.scope == k.scope && k'.staged == k.staged
  }

  lemma PresentedInFamily(rows: Table, t: M.Tx, k: Account)
    requires Shaped(rows, t, k) && t.phase.Presented?
    ensures k.scope.OneFamily? && k.staged.None?
    ensures ClimbsIn(rows, t, k.scope.familyId) && FamilyOf(rows, k.scope.familyId, k.userId)
  {
  }

  lemma DecideSlot(w: M.World, tx: nat, at: int, active: bool, k: Account, k': Account)
    requires M.Inv(w) && Rising(w.rows) && M.Enabled(w, M.Decide(tx, at, active))
    requires SlotOk(w.rows, w.txs[tx], k) && SameWork(k, k')
    ensures SlotOk(w.rows, M.DecideStep(w, tx, at, active).txs[tx], k')
  {
    var t' := M.DecideStep(w, tx, at, active).txs[tx];
    assert M.TxOk(w, w.txs[tx]);
    PresentedInFamily(w.rows, w.txs[tx], k);
    DecideShapes(w, tx, at, active, k.scope.familyId);
    DecideMints(w, tx, at, active, t');
    ShapedInFamily(w.rows, t', k, k');
  }

  lemma ShapedInFamily(rows: Table, t: M.Tx, k: Account, k': Account)
    requires k.scope.OneFamily? && SameWork(k, k') && k.staged.None?
    requires ClimbsIn(rows, t, k.scope.familyId) && FamilyOf(rows, k.scope.familyId, k.userId)
    ensures Shaped(rows, t, k')
  {
  }

  lemma RecoverSlot(w: M.World, tx: nat, active: bool, k: Account, k': Account)
    requires M.Inv(w) && Rising(w.rows) && M.Enabled(w, M.Recover(tx, active))
    requires SlotOk(w.rows, w.txs[tx], k) && SameWork(k, k')
    ensures SlotOk(w.rows, M.RecoverStep(w, tx, active).txs[tx], k')
  {
    assert M.TxOk(w, w.txs[tx]);
    RecoverShapes(w, tx, active, k.scope.familyId);
    RecoverMints(w, tx, active);
  }

  lemma LockSuccessorSlot(w: M.World, tx: nat, id: nat, k: Account)
    requires M.Enabled(w, M.LockSuccessor(tx, id)) && SlotOk(w.rows, w.txs[tx], k)
    ensures SlotOk(w.rows, M.LockSuccessorStep(w, tx, id).txs[tx], k)
  {
    TakeShapes(w.rows, w.txs[tx], M.LockSuccessorStep(w, tx, id).txs[tx], k, id);
  }

  lemma RevokeRowSlot(w: M.World, tx: nat, id: nat, k: Account)
    requires M.Enabled(w, M.RevokeRow(tx, id)) && SlotOk(w.rows, w.txs[tx], k)
    ensures SlotOk(w.rows, M.RevokeRowStep(w, tx, id).txs[tx], k)
  {
    TakeShapes(w.rows, w.txs[tx], M.RevokeRowStep(w, tx, id).txs[tx], k, id);
  }

  lemma BeginSlot(rows: Table, row: nat, phase: M.Phase, locks: set<nat>)
    requires Chained(rows) && Rising(rows) && row in rows
    requires || (phase == M.Presented(row) && locks == {row})
             || (phase.Revoking? && phase.pending == LiveInFamily(rows, rows[row].familyId) && locks == {})
    ensures SlotOk(rows, M.Begin(phase, locks), Account(rows[row].userId, OneFamily(rows[row].familyId), None, None))
  {
    if phase.Revoking? {
      LiveClimbs(rows, M.Begin(phase, locks), rows[row].familyId);
    }
  }

  predicate GoesOn(step: M.Action) {
    step.Decide? || step.Recover? || step.LockSuccessor? || step.RevokeRow?
  }

  lemma StillTheSameWork(w: World, step: M.Action)
    requires MayStep(w, step) && GoesOn(step) && step.tx in w.accounts
    ensures step.tx in Knowing(w, step) && SameWork(w.accounts[step.tx], Knowing(w, step)[step.tx])
  {
  }

  /** The slot a step inside `refresh` or `logout` changes, after the step. */
  predicate StepsInto(w: World, step: M.Action, t: M.Tx, k: Account) {
    && MayStep(w, step) && step.tx in M.Apply(w.sessions, step).txs && step.tx in Knowing(w, step)
    && t == M.Apply(w.sessions, step).txs[step.tx] && k == Knowing(w, step)[step.tx]
  }

  lemma BeginsInto(w: World, step: M.Action, t: M.Tx, k: Account)
    requires Chained(w.sessions.rows) && Rising(w.sessions.rows)
    requires StepsInto(w, step, t, k) && !GoesOn(step)
    ensures SlotOk(w.sessions.rows, t, k)
  {
    BeginSlot(w.sessions.rows, step.row, t.phase, t.locks);
  }

  lemma GoesOnInto(w: World, step: M.Action, t: M.Tx, k: Account)
    requires M.Inv(w.sessions) && Rising(w.sessions.rows)
    requires StepsInto(w, step, t, k) && GoesOn(step)
    requires step.tx in w.sessions.txs && TxOk(w, step.tx)
    ensures SlotOk(w.sessions.rows, t, k)
  {
    StillTheSameWork(w, step);
    match step
    case Decide(tx, at, active) => DecideSlot(w.sessions, tx, at, active, w.accounts[tx], k);
    case Recover(tx, active) => RecoverSlot(w.sessions, tx, active, w.accounts[tx], k);
    case LockSuccessor(tx, id) => LockSuccessorSlot(w.sessions, tx, id, k);
    case RevokeRow(tx, id) => RevokeRowSlot(w.sessions, tx, id, k);
  }

  /** A step inside `refresh` or `logout` leaves every other transaction as it was. */
  lemma InnerIsLocal(w: World, step: M.Action, w': World)
    requires MayStep(w, step) && w' == Apply(w, Inner(step))
    requires GoesOn(step) ==> step.tx in w.accounts
    ensures !step.Issue? && step.tx in w'.sessions.txs && step.tx in w'.accounts && w'.sessions.rows == w.sessions.rows
    ensures StepsInto(w, step, w'.sessions.txs[step.tx], w'.accounts[step.tx])
    ensures w'.sessions.txs == w.sessions.txs[step.tx := w'.sessions.txs[step.tx]]
    ensures w'.accounts == w.accounts[step.tx := w'.accounts[step.tx]]
  {
  }

  /** A step of one slot that commits nothing. */
  lemma SlotKeeps(w: World, w': World, tx: nat)
    requires Inv(w) && M.Inv(w'.sessions) && V.Inv(w')
    requires tx in w'.sessions.txs && tx in w'.accounts
    requires w'.sessions.rows == w.sessions.rows
    requires w'.sessions.txs == w.sessions.txs[tx := w'.sessions.txs[tx]]
    requires w'.accounts == w.accounts[tx := w'.accounts[tx]]
    requires SlotOk(w.sessions.rows, w'.sessions.txs[tx], w'.accounts[tx])
    ensures Inv(w')
  {
    SlotIsLocal(w, w', tx);
    LocalKeeps(w, w', tx);
  }

  lemma SlotIsLocal(w: World, w': World, tx: nat)
    requires tx in w'.sessions.txs && tx in w'.accounts
    requires w'.sessions.rows == w.sessions.rows
    requires w'.sessions.txs == w.sessions.txs[tx := w'.sessions.txs[tx]]
    requires w'.accounts == w.accounts[tx := w'.accounts[tx]]
    ensures Local(w, w', tx)
  {
  }

  lemma InnerSlotOk(w: World, step: M.Action, t: M.Tx, k: Account)
    requires Inv(w) && StepsInto(w, step, t, k)
    ensures SlotOk(w.sessions.rows, t, k)
  {
    if GoesOn(step) {
      assert TxOk(w, step.tx);
      GoesOnInto(w, step, t, k);
    } else {
      BeginsInto(w, step, t, k);
    }
  }

  lemma WhoGoesOnIsKnown(w: World, step: M.Action)
    requires Inv(w) && MayStep(w, step) && GoesOn(step)
    ensures step.tx in w.accounts
  {
    assert TxOk(w, step.tx);
  }

  lemma InnerKeeps(w: World, step: M.Action, w': World)
    requires Inv(w) && MayStep(w, step) && w' == Apply(w, Inner(step))
    requires M.Inv(w'.sessions) && V.Inv(w')
    ensures Inv(w')
  {
    if GoesOn(step) {
      WhoGoesOnIsKnown(w, step);
    }
    InnerIsLocal(w, step, w');
    InnerSlotOk(w, step, w'.sessions.txs[step.tx], w'.accounts[step.tx]);
    SlotKeeps(w, w', step.tx);
  }

  lemma WriteSessionsKeeps(w: World, tx: nat, at: int, w': World)
    requires Inv(w) && Enabled(w, WriteSessions(tx, at)) && w' == Apply(w, WriteSessions(tx, at))
    requires M.Inv(w'.sessions) && V.Inv(w')
    ensures Inv(w')
  {
    var t, k := w'.sessions.txs[tx], w'.accounts[tx];
    UserShape(w.sessions.rows, t, k.userId);
    assert SlotOk(w.sessions.rows, t, k);
    assert w.accounts[tx := k] == w.accounts;
    SlotKeeps(w, w', tx);
  }

  lemma ReuseBumpKeeps(w: World, tx: nat, w': World)
    requires Inv(w) && Enabled(w, BumpAfterReuse(tx)) && w' == Apply(w, BumpAfterReuse(tx))
    requires V.Inv(w')
    ensures Inv(w')
  {
    assert TxOk(w, tx);
    SlotKeeps(w, w', tx);
  }

  lemma FirstBumpKeeps(w: World, a: Action, w': World)
    requires Inv(w) && Enabled(w, a) && a.BumpFirst? && w' == Apply(w, a)
    requires V.Inv(w')
    ensures Inv(w')
  {
    LocalKeeps(w, w', a.tx);
  }

  /** Commits and aborts close one slot; the rest touch none. */
  lemma ClosingKeeps(w: World, a: Action, tx: nat, w': World)
    requires Inv(w) && Enabled(w, a) && w' == Apply(w, a)
    requires a == Commit(tx) || a == Abort(tx)
    requires M.Inv(w'.sessions) && V.Inv(w') && Rising(w'.sessions.rows)
    ensures Inv(w')
  {
    RowsEvolve(w, a);
    LocalKeeps(w, w', tx);
  }

  lemma OutsideKeeps(w: World, a: Action, w': World)
    requires Inv(w) && Enabled(w, a) && w' == Apply(w, a) && (a.SignUp? || a.ReadUser? || a.Open?)
    requires M.Inv(w'.sessions) && V.Inv(w') && Rising(w'.sessions.rows)
    ensures Inv(w')
  {
    RowsEvolve(w, a);
    assert w'.sessions.txs == w.sessions.txs && w'.accounts == w.accounts;
    forall tx | tx in w'.sessions.txs
      ensures TxOk(w', tx)
    {
      assert TxOk(w, tx);
      ShapeStays(w.sessions.rows, w'.sessions.rows, w.sessions.txs[tx], w.accounts[tx]);
    }
  }

  lemma ApplyKeeps(w: World, a: Action)
    requires Inv(w) && Enabled(w, a)
    ensures Inv(Apply(w, a))
  {
    var w' := Apply(w, a);
    BaseKeeps(w, a);
    match a
    case Inner(step) => InnerKeeps(w, step, w');
    case WriteSessions(tx, at) => WriteSessionsKeeps(w, tx, at, w');
    case Commit(tx) => ClosingKeeps(w, a, tx, w');
    case Abort(tx) => ClosingKeeps(w, a, tx, w');
    case BumpAfterReuse(tx) => ReuseBumpKeeps(w, tx, w');
    case BumpFirst(_, _, _) => FirstBumpKeeps(w, a, w');
    case _ => OutsideKeeps(w, a, w');
  }

  lemma {:induction false} LegalKeeps(w: World, run: seq<Action>)
    requires Inv(w) && Legal(w, run)
    ensures Inv(After(w, run))
    decreases |run|
  {
    if run == [] {
    } else {
      ApplyKeeps(w, run[0]);
      LegalKeeps(Apply(w, run[0]), run[1..]);
    }
  }

  lemma StartIsGood()
    ensures Inv(START)
  {
  }
}
