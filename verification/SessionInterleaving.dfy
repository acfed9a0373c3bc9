/**
 * Any number of refresh, logout and password transactions running at once, as Postgres READ
 * COMMITTED schedules them: a transaction is several steps, a row lock is held from the step that
 * takes it to the commit, a row is re-read after a lock wait, and a multi-row UPDATE locks and
 * re-checks one row at a time of the set its snapshot matched.
 */
module SessionInterleaving {
  import opened Options
  import opened SessionRows

  /** Where a transaction stands. `Ready(Some(p))` is a refresh about to answer token `p` with a new pair. */
  datatype Phase =
    | Presented(row: nat)
    | LockingSuccessors(row: nat, at: int, pending: set<nat>, held: set<nat>)
    | Revoking(pending: set<nat>, at: int, reason: Reason)
    | Ready(won: Option<nat>)

  datatype NewRow = NewRow(id: nat, row: Session)

  /** One open transaction: its locks, and the writes nobody else sees before its commit. */
  datatype Tx = Tx(phase: Phase, locks: set<nat>, updates: Table, insert: Option<NewRow>)

  /** Committed rows, open transactions, and the supply of row ids, family ids and tokens. */
  datatype World = World(rows: Table, txs: map<nat, Tx>, nextId: nat)

  const START := World(map[], map[], 0)

  /** `active` is what the transaction read about the account; `at` is its clock reading. */
  datatype Action =
    | Issue(userId: nat, at: int)
    | Present(tx: nat, token: nat, row: nat)
    | Decide(tx: nat, at: int, active: bool)
    | LockSuccessor(tx: nat, id: nat)
    | Recover(tx: nat, active: bool)
    | BeginLogout(tx: nat, token: nat, row: nat, at: int)
    | BeginPasswordWrite(tx: nat, userId: nat, at: int)
    | RevokeRow(tx: nat, id: nat)
    | Commit(tx: nat)
    | Abort(tx: nat)

  // ---------------------------------------------------------------- what may happen next

  /** No other transaction holds the lock on `id`. */
  predicate Free(w: World, tx: nat, id: nat) {
    forall u :: u in w.txs && u != tx ==> id !in w.txs[u].locks
  }

  predicate Enabled(w: World, a: Action) {
    match a
    case Issue(_, _) => true
    case Present(tx, token, row) =>
      tx !in w.txs && row in w.rows && w.rows[row].tokenHash == Sha256(token) && Free(w, tx, row)
    case Decide(tx, _, _) =>
      tx in w.txs && w.txs[tx].phase.Presented? && w.txs[tx].phase.row in w.rows
    case LockSuccessor(tx, id) =>
      tx in w.txs && w.txs[tx].phase.LockingSuccessors? && id in w.txs[tx].phase.pending && Free(w, tx, id)
    case Recover(tx, _) =>
      && tx in w.txs && w.txs[tx].phase.LockingSuccessors? && w.txs[tx].phase.pending == {}
      && w.txs[tx].phase.row in w.rows && w.txs[tx].phase.held <= w.rows.Keys
    case BeginLogout(tx, token, row, _) =>
      tx !in w.txs && row in w.rows && w.rows[row].tokenHash == Sha256(token)
    case BeginPasswordWrite(tx, _, _) => tx !in w.txs
    case RevokeRow(tx, id) =>
      && tx in w.txs && w.txs[tx].phase.Revoking? && id in w.txs[tx].phase.pending
      && id in w.rows && Free(w, tx, id)
    case Commit(tx) =>
      && tx in w.txs
      && (w.txs[tx].phase.Ready? || (w.txs[tx].phase.Revoking? && w.txs[tx].phase.pending == {}))
    case Abort(tx) => tx in w.txs
  }

  // ---------------------------------------------------------------- and what it does

  function Put(w: World, tx: nat, t: Tx): World {
    w.(txs := w.txs[tx := t])
  }

  function Begin(phase: Phase, locks: set<nat>): Tx {
    Tx(phase, locks, map[], None)
  }

  /** `issueSession`: one autocommitted INSERT of the first row of a family. */
  function IssueStep(w: World, userId: nat, at: int): World {
    World(w.rows[w.nextId := Mint(userId, w.nextId, w.nextId, at, None)], w.txs, w.nextId + 1)
  }

  /** The body of `refresh` from the locked row to its writes, or to the next lock it needs. */
  function DecideStep(w: World, tx: nat, at: int, active: bool): World
    requires Enabled(w, Decide(tx, at, active))
  {
    var t := w.txs[tx];
    var row := t.phase.row;
    var existing := w.rows[row];
    if !existing.Live() then
      if existing.WithinGrace(at) then
        Put(w, tx, t.(phase := LockingSuccessors(row, at, Successors(w.rows, row), {})))
      else
        Put(w, tx, t.(phase := Revoking(LiveInFamily(w.rows, existing.familyId), at, ReuseDetected)))
    else if existing.expiresAt <= at then
      Put(w, tx, t.(phase := Ready(None), updates := map[row := existing.Revoke(at, Expired)]))
    else if !active then
      Put(w, tx, t.(phase := Revoking(LiveInFamily(w.rows, existing.familyId), at, AccountInactive)))
    else
      var minted := Mint(existing.userId, existing.familyId, w.nextId, at, Some(row));
      Put(w, tx, t.(phase := Ready(Some(row)),
                    updates := map[row := existing.Revoke(at, Rotated)],
                    insert := Some(NewRow(w.nextId, minted)))).(nextId := w.nextId + 1)
  }

  function LockSuccessorStep(w: World, tx: nat, id: nat): World
    requires Enabled(w, LockSuccessor(tx, id))
  {
    var t := w.txs[tx];
    Put(w, tx, t.(phase := t.phase.(pending := t.phase.pending - {id}, held := t.phase.held + {id}),
                  locks := t.locks + {id}))
  }

  /** The grace recovery once every successor row is locked and re-read; otherwise reuse. */
  function RecoverStep(w: World, tx: nat, active: bool): World
    requires Enabled(w, Recover(tx, active))
  {
    var t := w.txs[tx];
    var row, at := t.phase.row, t.phase.at;
    var existing := w.rows[row];
    if exists s :: s in t.phase.held && t.phase.held == {s} && w.rows[s].Live() && active then
      var s :| s in t.phase.held && t.phase.held == {s} && w.rows[s].Live() && active;
      var minted := Mint(existing.userId, existing.familyId, w.nextId, at, Some(s));
      Put(w, tx, t.(phase := Ready(Some(row)),
                    updates := map[row := existing.(graceUsedAt := Some(at)),
                                   s := w.rows[s].Revoke(at, Rotated)],
                    insert := Some(NewRow(w.nextId, minted)))).(nextId := w.nextId + 1)
    else
      Put(w, tx, t.(phase := Revoking(LiveInFamily(w.rows, existing.familyId), at, ReuseDetected)))
  }

  /** One row of a multi-row UPDATE: locked, re-checked against `revokedAt IS NULL`, then written. */
  function RevokeRowStep(w: World, tx: nat, id: nat): World
    requires Enabled(w, RevokeRow(tx, id))
  {
    var t := w.txs[tx];
    var p := t.phase;
    Put(w, tx, t.(phase := p.(pending := p.pending - {id}),
                  locks := t.locks + {id},
                  updates := if w.rows[id].Live()
                  then t.updates[id := w.rows[id].Revoke(p.at, p.reason)] else t.updates))
  }

  function CommitStep(w: World, tx: nat): World
    requires Enabled(w, Commit(tx))
  {
    var t := w.txs[tx];
    var written := w.rows + t.updates;
    World(if t.insert.Some? then written[t.insert.value.id := t.insert.value.row] else written,
          w.txs - {tx}, w.nextId)
  }

  function Apply(w: World, a: Action): World
    requires Enabled(w, a)
  {
    match a
    case Issue(userId, at) => IssueStep(w, userId, at)
    case Present(tx, _, row) => Put(w, tx, Begin(Presented(row), {row}))
    case Decide(tx, at, active) => DecideStep(w, tx, at, active)
    case LockSuccessor(tx, id) => LockSuccessorStep(w, tx, id)
    case Recover(tx, active) => RecoverStep(w, tx, active)
    case BeginLogout(tx, _, row, at) =>
      Put(w, tx, Begin(Revoking(LiveInFamily(w.rows, w.rows[row].familyId), at, Logout), {}))
    case BeginPasswordWrite(tx, userId, at) =>
      Put(w, tx, Begin(Revoking(LiveOfUser(w.rows, userId), at, PasswordReset), {}))
    case RevokeRow(tx, id) => RevokeRowStep(w, tx, id)
    case Commit(tx) => CommitStep(w, tx)
    case Abort(tx) => w.(txs := w.txs - {tx})
  }

  ghost predicate Legal(w: World, run: seq<Action>)
    decreases |run|
  {
    run == [] || (Enabled(w, run[0]) && Legal(Apply(w, run[0]), run[1..]))
  }

  function After(w: World, run: seq<Action>): World
    requires Legal(w, run)
    decreases |run|
  {
    if run == [] then w else After(Apply(w, run[0]), run[1..])
  }

  // ---------------------------------------------------------------- the invariant

  /** A staged write revokes a live row, or spends the grace mark of a rotated one; the row is locked. */
  predicate Justified(rows: Table, t: Tx, id: nat)
    requires id in t.updates
  {
    var next := t.updates[id];
    && id in t.locks && id in rows
    && (|| (&& rows[id].Live() && next.revocation.Some?
            && next == rows[id].Revoke(next.revocation.value.at, next.revocation.value.reason)
            && (next.RevokedAs(Rotated) ==> t.insert.Some? && t.insert.value.row.rotatedFrom == Some(id)))
        || (&& rows[id].RevokedAs(Rotated) && rows[id].graceUsedAt.None? && next.graceUsedAt.Some?
            && next == rows[id].(graceUsedAt := next.graceUsedAt)))
  }

  /** A staged row replaces a live row of the same family that this transaction holds and retires. */
  predicate InsertOk(w: World, t: Tx, n: NewRow) {
    && n.id < w.nextId && n.id !in w.rows
    && n.row.Live() && n.row.graceUsedAt.None? && n.row.tokenHash == Sha256(n.id)
    && n.row.rotatedFrom.Some?
    && var p := n.row.rotatedFrom.value;
    && p in t.updates && p in w.rows && w.rows[p].Live() && t.updates[p].RevokedAs(Rotated)
    && n.row.familyId == w.rows[p].familyId && n.row.userId == w.rows[p].userId
  }

  /** What a refresh that answers token `p` with a new pair does to the row of `p`. */
  predicate Wins(rows: Table, t: Tx, p: nat) {
    && p in t.updates && p in rows && t.insert.Some?
    && (|| (rows[p].Live() && t.updates[p].RevokedAs(Rotated) && t.insert.value.row.rotatedFrom == Some(p))
        || RecoversWithinGrace(rows, t, p))
  }

  /** A recovery: unused mark, at most 15 s after the rotation, and the direct successor still live. */
  predicate RecoversWithinGrace(rows: Table, t: Tx, p: nat)
    requires p in t.updates && p in rows && t.insert.Some?
  {
    && rows[p].RevokedAs(Rotated) && rows[p].graceUsedAt.None?
    && t.updates[p].graceUsedAt.Some?
    && t.updates[p].graceUsedAt.value <= rows[p].revocation.value.at + REFRESH_ROTATION_GRACE_WINDOW_MS
    && t.insert.value.row.rotatedFrom.Some?
    && var s := t.insert.value.row.rotatedFrom.value;
    && s in rows && rows[s].Live() && rows[s].rotatedFrom == Some(p)
  }

  predicate PhaseOk(w: World, t: Tx) {
    match t.phase
    case Presented(row) => row in t.locks && t.updates == map[] && t.insert.None?
    case LockingSuccessors(row, at, pending, held) =>
      && row in t.locks && row in w.rows && w.rows[row].WithinGrace(at)
      && t.updates == map[] && t.insert.None? && held <= t.locks
      && (forall s :: s in pending + held ==>
                        && s in w.rows && w.rows[s].rotatedFrom == Some(row)
                        && w.rows[s].familyId == w.rows[row].familyId
                        && w.rows[s].userId == w.rows[row].userId)
    case Revoking(pending, _, reason) => pending <= w.rows.Keys && reason != Rotated && t.insert.None?
    case Ready(won) => won.Some? ==> Wins(w.rows, t, won.value)
  }

  predicate TxOk(w: World, t: Tx) {
    && t.locks <= w.rows.Keys
    && (forall id :: id in t.updates ==> Justified(w.rows, t, id))
    && (t.insert.Some? ==> InsertOk(w, t, t.insert.value))
    && PhaseOk(w, t)
  }

  predicate Apart(a: Tx, b: Tx) {
    && a.locks !! b.locks
    && (a.insert.Some? && b.insert.Some? ==> a.insert.value.id != b.insert.value.id)
  }

  predicate RowOk(w: World, id: nat)
    requires id in w.rows
  {
    id < w.nextId && w.rows[id].familyId < w.nextId && w.rows[id].tokenHash == Sha256(id)
  }

  ghost predicate Inv(w: World) {
    && Chained(w.rows)
    && (forall id :: id in w.rows ==> RowOk(w, id))
    && (forall tx :: tx in w.txs ==> TxOk(w, w.txs[tx]))
    && (forall a, b :: a in w.txs && b in w.txs && a != b ==> Apart(w.txs[a], w.txs[b]))
  }

  // ---------------------------------------------------------------- every step keeps it

  /** A step of transaction `tx` that commits nothing, takes no lock and mints at most the next id. */
  predicate OnlyStages(w: World, w': World, tx: nat) {
    && tx in w.txs && tx in w'.txs
    && w'.rows == w.rows && w'.txs == w.txs[tx := w'.txs[tx]]
    && w.nextId <= w'.nextId && w'.txs[tx].locks == w.txs[tx].locks
    && (w'.txs[tx].insert.Some? ==> w'.txs[tx].insert.value.id == w.nextId)
  }

  lemma StagingKeeps(w: World, w': World, tx: nat)
    requires Inv(w) && OnlyStages(w, w', tx) && TxOk(w', w'.txs[tx])
    ensures Inv(w')
  {
    FreshId(w);
    forall u | u in w.txs && u != tx
      ensures Apart(w'.txs[tx], w.txs[u])
    {
      assert Apart(w.txs[tx], w.txs[u]);
    }
    PutKeeps(w, w', tx, w'.txs[tx]);
  }

  /** Steps that only change the transaction of one slot. */
  lemma PutKeeps(w: World, w': World, tx: nat, t: Tx)
    requires Inv(w) && w'.rows == w.rows && w'.nextId >= w.nextId && w'.txs == w.txs[tx := t]
    requires TxOk(w', t)
    requires forall u :: u in w.txs && u != tx ==> Apart(t, w.txs[u])
    ensures Inv(w')
  {
    forall u | u in w'.txs
      ensures TxOk(w', w'.txs[u])
    {
      if u != tx {
        TxFrame(w, w', w.txs[u]);
      }
    }
    forall id | id in w'.rows
      ensures RowOk(w', id)
    {
      assert RowOk(w, id);
    }
  }

  /** Another transaction's commit leaves this one's justification alone. */
  lemma TxFrame(w: World, w': World, t: Tx)
    requires TxOk(w, t) && w.nextId <= w'.nextId && w.rows.Keys <= w'.rows.Keys
    requires forall id :: id in t.locks && id in w.rows ==> w'.rows[id] == w.rows[id]
    requires forall id :: id in w.rows ==> w.rows[id].EvolvesTo(w'.rows[id])
    requires t.insert.Some? ==> t.insert.value.id !in w'.rows
    ensures TxOk(w', t)
  {
    forall id | id in t.updates
      ensures Justified(w'.rows, t, id)
    {
      assert Justified(w.rows, t, id);
    }
    if t.insert.Some? {
      assert Justified(w.rows, t, t.insert.value.row.rotatedFrom.value);
    }
    if t.phase.Ready? && t.phase.won.Some? {
      assert Justified(w.rows, t, t.phase.won.value);
      WinsFrame(w, w', t, t.phase.won.value);
    }
  }

  lemma WinsFrame(w: World, w': World, t: Tx, p: nat)
    requires TxOk(w, t) && Wins(w.rows, t, p) && w.rows.Keys <= w'.rows.Keys
    requires forall id :: id in t.locks && id in w.rows ==> w'.rows[id] == w.rows[id]
    ensures Wins(w'.rows, t, p)
  {
    var s := t.insert.value.row.rotatedFrom.value;
    assert Justified(w.rows, t, p) && Justified(w.rows, t, s);
  }

  lemma DecideTxOk(w: World, tx: nat, at: int, active: bool)
    requires Enabled(w, Decide(tx, at, active)) && TxOk(w, w.txs[tx])
    requires w.nextId !in w.rows
    ensures OnlyStages(w, DecideStep(w, tx, at, active), tx)
    ensures TxOk(DecideStep(w, tx, at, active), DecideStep(w, tx, at, active).txs[tx])
  {
    var w' := DecideStep(w, tx, at, active);
    var t' := w'.txs[tx];
    forall id | id in t'.updates
      ensures Justified(w'.rows, t', id)
    {
    }
  }

  lemma DecideKeeps(w: World, tx: nat, at: int, active: bool)
    requires Inv(w) && Enabled(w, Decide(tx, at, active))
    ensures Inv(DecideStep(w, tx, at, active))
  {
    FreshId(w);
    var w' := DecideStep(w, tx, at, active);
    DecideTxOk(w, tx, at, active);
    StagingKeeps(w, w', tx);
  }

  lemma RecoverTxOk(w: World, tx: nat, active: bool)
    requires Enabled(w, Recover(tx, active)) && TxOk(w, w.txs[tx])
    requires w.nextId !in w.rows
    ensures OnlyStages(w, RecoverStep(w, tx, active), tx)
    ensures TxOk(RecoverStep(w, tx, active), RecoverStep(w, tx, active).txs[tx])
  {
    var w' := RecoverStep(w, tx, active);
    var t' := w'.txs[tx];
    forall id | id in t'.updates
      ensures Justified(w'.rows, t', id)
    {
    }
  }

  lemma RecoverKeeps(w: World, tx: nat, active: bool)
    requires Inv(w) && Enabled(w, Recover(tx, active))
    ensures Inv(RecoverStep(w, tx, active))
  {
    FreshId(w);
    var w' := RecoverStep(w, tx, active);
    RecoverTxOk(w, tx, active);
    StagingKeeps(w, w', tx);
  }

  lemma FreshId(w: World)
    requires Inv(w)
    ensures w.nextId !in w.rows
    ensures forall u :: u in w.txs && w.txs[u].insert.Some? ==> w.txs[u].insert.value.id < w.nextId
  {
    assert forall id :: id in w.rows ==> RowOk(w, id) && id < w.nextId;
    forall u | u in w.txs && w.txs[u].insert.Some?
      ensures w.txs[u].insert.value.id < w.nextId
    {
      assert TxOk(w, w.txs[u]);
    }
  }

  /** A step of transaction `tx` that does no more than take the free lock on `id` and stage writes. */
  predicate TakesLock(w: World, w': World, tx: nat, id: nat) {
    && tx in w.txs && tx in w'.txs && Free(w, tx, id)
    && w'.rows == w.rows && w'.txs == w.txs[tx := w'.txs[tx]] && w'.nextId == w.nextId
    && w'.txs[tx].locks == w.txs[tx].locks + {id} && w'.txs[tx].insert == w.txs[tx].insert
  }

  lemma LockingKeeps(w: World, w': World, tx: nat, id: nat)
    requires Inv(w) && TakesLock(w, w', tx, id) && TxOk(w', w'.txs[tx])
    ensures Inv(w')
  {
    forall u | u in w.txs && u != tx
      ensures Apart(w'.txs[tx], w.txs[u])
    {
      assert Apart(w.txs[tx], w.txs[u]);
    }
    PutKeeps(w, w', tx, w'.txs[tx]);
  }

  lemma RevokeRowTxOk(w: World, tx: nat, id: nat)
    requires Enabled(w, RevokeRow(tx, id)) && TxOk(w, w.txs[tx])
    ensures TakesLock(w, RevokeRowStep(w, tx, id), tx, id)
    ensures TxOk(RevokeRowStep(w, tx, id), RevokeRowStep(w, tx, id).txs[tx])
  {
    var w' := RevokeRowStep(w, tx, id);
    var t, t' := w.txs[tx], w'.txs[tx];
    forall r | r in t'.updates
      ensures Justified(w'.rows, t', r)
    {
      if r in t.updates {
        assert Justified(w.rows, t, r);
      }
    }
  }

  lemma RevokeRowKeeps(w: World, tx: nat, id: nat)
    requires Inv(w) && Enabled(w, RevokeRow(tx, id))
    ensures Inv(RevokeRowStep(w, tx, id))
  {
    var w' := RevokeRowStep(w, tx, id);
    RevokeRowTxOk(w, tx, id);
    LockingKeeps(w, w', tx, id);
  }

  lemma LockSuccessorTxOk(w: World, tx: nat, id: nat)
    requires Enabled(w, LockSuccessor(tx, id)) && TxOk(w, w.txs[tx])
    ensures TakesLock(w, LockSuccessorStep(w, tx, id), tx, id)
    ensures TxOk(LockSuccessorStep(w, tx, id), LockSuccessorStep(w, tx, id).txs[tx])
  {
  }

  lemma LockSuccessorKeeps(w: World, tx: nat, id: nat)
    requires Inv(w) && Enabled(w, LockSuccessor(tx, id))
    ensures Inv(LockSuccessorStep(w, tx, id))
  {
    var w' := LockSuccessorStep(w, tx, id);
    LockSuccessorTxOk(w, tx, id);
    LockingKeeps(w, w', tx, id);
  }

  lemma AbortKeeps(w: World, tx: nat)
    requires Inv(w) && Enabled(w, Abort(tx))
    ensures Inv(w.(txs := w.txs - {tx}))
  {
    var w' := w.(txs := w.txs - {tx});
    assert forall id :: id in w.rows ==> RowOk(w, id) && RowOk(w', id);
    forall u | u in w'.txs
      ensures TxOk(w', w'.txs[u])
    {
      TxFrame(w, w', w.txs[u]);
    }
  }

  /** A commit publishes at most one rotation, and never rewrites what is already final. */
  lemma CommitIsOneRotation(w: World, tx: nat)
    requires Enabled(w, Commit(tx)) && TxOk(w, w.txs[tx])
    ensures var n := w.txs[tx].insert;
            OneRotation(w.rows, CommitStep(w, tx).rows, if n.Some? then Some(n.value.id) else None)
  {
    assert forall id :: id in w.txs[tx].updates ==> Justified(w.rows, w.txs[tx], id);
  }

  lemma CommitKeepsRows(w: World, tx: nat)
    requires Enabled(w, Commit(tx)) && TxOk(w, w.txs[tx])
    requires forall id :: id in w.rows ==> RowOk(w, id)
    ensures forall id :: id in CommitStep(w, tx).rows ==> RowOk(CommitStep(w, tx), id)
  {
    var w' := CommitStep(w, tx);
    var t := w.txs[tx];
    forall id | id in w'.rows
      ensures RowOk(w', id)
    {
      if id in w.rows {
        assert RowOk(w, id) && (id in t.updates ==> Justified(w.rows, t, id));
      } else {
        assert RowOk(w, t.insert.value.row.rotatedFrom.value);
      }
    }
  }

  lemma CommitKeepsOthers(w: World, tx: nat, u: nat)
    requires Enabled(w, Commit(tx)) && TxOk(w, w.txs[tx]) && u in w.txs && u != tx && TxOk(w, w.txs[u])
    requires Apart(w.txs[tx], w.txs[u])
    ensures TxOk(CommitStep(w, tx), w.txs[u])
  {
    CommitIsOneRotation(w, tx);
    assert forall id :: id in w.txs[tx].updates ==> Justified(w.rows, w.txs[tx], id);
    TxFrame(w, CommitStep(w, tx), w.txs[u]);
  }

  lemma CommitKeeps(w: World, tx: nat)
    requires Inv(w) && Enabled(w, Commit(tx))
    ensures Inv(CommitStep(w, tx))
  {
    var n := w.txs[tx].insert;
    CommitIsOneRotation(w, tx);
    RotationKeepsChains(w.rows, CommitStep(w, tx).rows, if n.Some? then Some(n.value.id) else None);
    CommitKeepsRows(w, tx);
    forall u | u in w.txs && u != tx
      ensures TxOk(CommitStep(w, tx), w.txs[u])
    {
      CommitKeepsOthers(w, tx, u);
    }
  }

  lemma IssueKeepsRows(w: World, userId: nat, at: int)
    requires Chained(w.rows)
    requires forall id :: id in w.rows ==> RowOk(w, id)
    ensures Chained(IssueStep(w, userId, at).rows)
    ensures forall id :: id in IssueStep(w, userId, at).rows ==> RowOk(IssueStep(w, userId, at), id)
  {
    var w' := IssueStep(w, userId, at);
    assert forall id :: id in w.rows ==> RowOk(w, id) && id < w.nextId;
    IssueKeepsChains(w.rows, w.nextId, w'.rows[w.nextId]);
  }

  lemma IssueKeeps(w: World, userId: nat, at: int)
    requires Inv(w)
    ensures Inv(IssueStep(w, userId, at))
  {
    FreshId(w);
    IssueKeepsRows(w, userId, at);
    forall u | u in w.txs
      ensures TxOk(IssueStep(w, userId, at), w.txs[u])
    {
      IssueKeepsTx(w, userId, at, u);
    }
  }

  lemma IssueKeepsTx(w: World, userId: nat, at: int, u: nat)
    requires u in w.txs && TxOk(w, w.txs[u]) && w.nextId !in w.rows
    requires w.txs[u].insert.Some? ==> w.txs[u].insert.value.id < w.nextId
    ensures TxOk(IssueStep(w, userId, at), w.txs[u])
  {
    TxFrame(w, IssueStep(w, userId, at), w.txs[u]);
  }

  /** A transaction that holds no more than rows nobody else holds, and has written nothing. */
  lemma BeginKeeps(w: World, tx: nat, phase: Phase, locks: set<nat>)
    requires Inv(w) && tx !in w.txs && TxOk(w, Begin(phase, locks))
    requires forall id :: id in locks ==> Free(w, tx, id)
    ensures Inv(Put(w, tx, Begin(phase, locks)))
  {
    PutKeeps(w, Put(w, tx, Begin(phase, locks)), tx, Begin(phase, locks));
  }

  lemma BeginsKeep(w: World, a: Action)
    requires Inv(w) && Enabled(w, a) && (a.Present? || a.BeginLogout? || a.BeginPasswordWrite?)
    ensures Inv(Apply(w, a))
  {
    match a
    case Present(tx, _, row) => BeginKeeps(w, tx, Presented(row), {row});
    case BeginLogout(tx, _, row, at) =>
      BeginKeeps(w, tx, Revoking(LiveInFamily(w.rows, w.rows[row].familyId), at, Logout), {});
    case BeginPasswordWrite(tx, userId, at) =>
      BeginKeeps(w, tx, Revoking(LiveOfUser(w.rows, userId), at, PasswordReset), {});
  }

  lemma ApplyKeeps(w: World, a: Action)
    requires Inv(w) && Enabled(w, a)
    ensures Inv(Apply(w, a))
  {
    match a
    case Issue(userId, at) => IssueKeeps(w, userId, at);
    case Decide(tx, at, active) => DecideKeeps(w, tx, at, active);
    case LockSuccessor(tx, id) => LockSuccessorKeeps(w, tx, id);
    case Recover(tx, active) => RecoverKeeps(w, tx, active);
    case RevokeRow(tx, id) => RevokeRowKeeps(w, tx, id);
    case Commit(tx) => CommitKeeps(w, tx);
    case Abort(tx) => AbortKeeps(w, tx);
    case _ => BeginsKeep(w, a);
  }

  lemma {:induction false} LegalKeeps(w: World, run: seq<Action>)
    requires Inv(w) && Legal(w, run)
    ensures Inv(After(w, run))
    decreases |run|
  {
    if run == [] {
    } else {
      ApplyKeeps(w, run[0]);
      LegalKeeps(Apply(w, run[0]), run[1..]);
    }
  }

  // ---------------------------------------------------------------- what holds in every run

  lemma StartIsGood()
    ensures Inv(START)
  {
  }

  /**
   * In every interleaving each family is one linear chain; so two live rows of one family are the
   * same row, and a row was rotated by exactly one other row or by none.
   */
  lemma EveryFamilyIsOneChain(run: seq<Action>)
    requires Legal(START, run)
    ensures var rows := After(START, run).rows;
            && (forall id :: id in rows ==> HasChain(rows, rows[id].familyId))
            && (forall a, b | a in rows && b in rows && rows[a].familyId == rows[b].familyId
                              && rows[a].Live() && rows[b].Live() :: a == b)
            && (forall p :: p in rows ==>
                              |Successors(rows, p)| == if rows[p].RevokedAs(Rotated) then 1 else 0)
  {
    StartIsGood();
    LegalKeeps(START, run);
    var rows := After(START, run).rows;
    forall a, b | a in rows && b in rows && rows[a].familyId == rows[b].familyId
                  && rows[a].Live() && rows[b].Live()
      ensures a == b
    {
      AtMostOneLive(rows, a, b);
    }
    forall p | p in rows
      ensures |Successors(rows, p)| == if rows[p].RevokedAs(Rotated) then 1 else 0
    {
      SuccessorIffRotated(rows, p);
    }
  }

  /** Nothing but a commit touches a stored row. */
  lemma OnlyCommitsWrite(w: World, a: Action)
    requires Enabled(w, a) && !a.Commit? && w.nextId !in w.rows
    ensures w.rows.Keys <= Apply(w, a).rows.Keys
    ensures forall id :: id in w.rows ==> Apply(w, a).rows[id] == w.rows[id]
  {
  }

  lemma StepEvolves(w: World, a: Action)
    requires Inv(w) && Enabled(w, a)
    ensures forall id :: id in w.rows ==> id in Apply(w, a).rows && w.rows[id].EvolvesTo(Apply(w, a).rows[id])
  {
    if a.Commit? {
      CommitIsOneRotation(w, a.tx);
    } else {
      FreshId(w);
      OnlyCommitsWrite(w, a);
    }
  }

  /** No later step, of any transaction, ever revives a revoked row or moves a grace mark. */
  lemma {:induction false} RevocationIsFinal(w: World, run: seq<Action>)
    requires Inv(w) && Legal(w, run)
    ensures forall id :: id in w.rows ==> id in After(w, run).rows && w.rows[id].EvolvesTo(After(w, run).rows[id])
    decreases |run|
  {
    if run == [] {
    } else {
      StepEvolves(w, run[0]);
      ApplyKeeps(w, run[0]);
      RevocationIsFinal(Apply(w, run[0]), run[1..]);
    }
  }

  /** The step in which a refresh that presented token `p` commits a new pair. */
  predicate IsWin(w: World, a: Action, p: nat) {
    a.Commit? && a.tx in w.txs && w.txs[a.tx].phase == Ready(Some(p))
  }

  function WinCount(w: World, run: seq<Action>, p: nat): nat
    requires Legal(w, run)
    decreases |run|
  {
    if run == [] then 0
    else (if IsWin(w, run[0], p) then 1 else 0) + WinCount(Apply(w, run[0]), run[1..], p)
  }

  /** What the stored row of token `p` says it has been used for: its rotation, and its recovery. */
  function Uses(rows: Table, p: nat): nat {
    if p !in rows then 0
    else (if rows[p].RevokedAs(Rotated) then 1 else 0) + (if rows[p].graceUsedAt.Some? then 1 else 0)
  }

  lemma UsesGrow(rows: Table, rows': Table, p: nat)
    requires p in rows ==> p in rows' && rows[p].EvolvesTo(rows'[p])
    ensures Uses(rows', p) >= Uses(rows, p)
  {
  }

  lemma WinUses(w: World, tx: nat, p: nat)
    requires Enabled(w, Commit(tx)) && TxOk(w, w.txs[tx]) && w.txs[tx].phase == Ready(Some(p))
    ensures Uses(CommitStep(w, tx).rows, p) == Uses(w.rows, p) + 1
  {
    var t := w.txs[tx];
    assert Wins(w.rows, t, p) && Justified(w.rows, t, p);
    assert CommitStep(w, tx).rows[p] == t.updates[p];
  }

  lemma WinIsRecorded(w: World, a: Action, p: nat)
    requires Inv(w) && Enabled(w, a)
    ensures Uses(Apply(w, a).rows, p) >= Uses(w.rows, p) + if IsWin(w, a, p) then 1 else 0
  {
    if IsWin(w, a, p) {
      assert TxOk(w, w.txs[a.tx]);
      WinUses(w, a.tx, p);
    } else {
      StepEvolves(w, a);
      UsesGrow(w.rows, Apply(w, a).rows, p);
    }
  }

  /** Any one token is answered with a new pair at most twice: one rotation and one recovery. */
  lemma {:induction false} TokenWinsAtMostTwice(w: World, run: seq<Action>, p: nat)
    requires Inv(w) && Legal(w, run)
    ensures Uses(w.rows, p) + WinCount(w, run, p) <= Uses(After(w, run).rows, p) <= 2
    decreases |run|
  {
    if run == [] {
    } else {
      WinIsRecorded(w, run[0], p);
      ApplyKeeps(w, run[0]);
      TokenWinsAtMostTwice(Apply(w, run[0]), run[1..], p);
    }
  }

  /** From the empty table on, no token is answered with a new pair a third time. */
  lemma TokenWinsAtMostTwiceFromStart(run: seq<Action>, p: nat)
    requires Legal(START, run)
    ensures WinCount(START, run, p) <= 2
  {
    StartIsGood();
    TokenWinsAtMostTwice(START, run, p);
  }

  /** The recovery of token `p`: what it finds, what it marks, and the live successor it replaces. */
  predicate Recovery(before: Table, after: Table, p: nat, s: nat)
    requires p in before && p in after && s in before
  {
    && before[p].RevokedAs(Rotated) && before[p].graceUsedAt.None? && after[p].graceUsedAt.Some?
    && after[p].graceUsedAt.value <= before[p].revocation.value.at + REFRESH_ROTATION_GRACE_WINDOW_MS
    && before[s].rotatedFrom == Some(p)
  }

  /** Token `p` answered: live row `s` retired, live row `n` rotated from it, and why that was allowed. */
  predicate Answers(before: Table, after: Table, p: nat, s: nat, n: nat) {
    && p in before && p in after && s in before && s in after
    && before[s].Live() && after[s].RevokedAs(Rotated)
    && n !in before && n in after && after[n].Live() && after[n].rotatedFrom == Some(s)
    && (s == p || Recovery(before, after, p, s))
  }

  lemma WinAnswers(w: World, tx: nat, p: nat)
    requires Enabled(w, Commit(tx)) && TxOk(w, w.txs[tx]) && w.txs[tx].phase == Ready(Some(p))
    ensures w.txs[tx].insert.Some? && w.txs[tx].insert.value.row.rotatedFrom.Some?
    ensures var n := w.txs[tx].insert.value;
            Answers(w.rows, CommitStep(w, tx).rows, p, n.row.rotatedFrom.value, n.id)
  {
    var t := w.txs[tx];
    var n := t.insert.value;
    assert Justified(w.rows, t, p) && Justified(w.rows, t, n.row.rotatedFrom.value);
  }

  /**
   * Whatever ran before, a commit that answers token `p` retires one live row `s` and adds one live
   * row rotated from it; `s` is the row of `p` itself, or the commit is a recovery: the row of `p`
   * was rotated into `s`, its mark was unused, and at most 15 s have passed.
   */
  lemma WinIsRotationOrRecovery(run: seq<Action>, tx: nat, p: nat)
    requires Legal(START, run) && tx in After(START, run).txs
    requires After(START, run).txs[tx].phase == Ready(Some(p))
    ensures var w := After(START, run);
            exists s, n :: Answers(w.rows, CommitStep(w, tx).rows, p, s, n)
  {
    var w := After(START, run);
    StartIsGood();
    LegalKeeps(START, run);
    assert TxOk(w, w.txs[tx]);
    WinAnswers(w, tx, p);
  }
}
