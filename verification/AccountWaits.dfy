/**
 * Who waits for whom on one account over session rows and the users row: waits for session rows
 * alone never close a cycle, and a cycle over both needs a reuse detection that waits for the row of
 * its user, held by a password write. Reset tokens are locked too; `ResetWaits` has their waits.
 */
module AccountWaits {
  import opened Options
  import opened SessionRows
  import M = SessionInterleaving
  import V = AccountVersions
  import opened AccountInterleaving
  import opened AccountLocks

  /** Transaction `t` has yet to lock the session row that `u` holds. */
  predicate WaitsForRow(w: World, t: nat, u: nat, id: nat) {
    && t in w.sessions.txs && u in w.sessions.txs && t != u
    && id in Pending(w.sessions.txs[t]) && id in w.sessions.txs[u].locks
  }

  /** The reuse detection `t` has revoked its family and waits for the user's row, which `u` has locked. */
  predicate WaitsForUser(w: World, t: nat, u: nat) {
    && t in w.accounts && u in w.accounts && t != u
    && IsReuse(w, t) && w.sessions.txs[t].phase.pending == {} && w.accounts[t].staged.None?
    && w.accounts[u].userId == w.accounts[t].userId && w.accounts[u].staged.Some?
  }

  ghost predicate RowWait(w: World, t: nat, u: nat) {
    exists id :: WaitsForRow(w, t, u, id)
  }

  ghost predicate WaitsFor(w: World, t: nat, u: nat) {
    RowWait(w, t, u) || WaitsForUser(w, t, u)
  }

  predicate IsPasswordWrite(w: World, tx: nat) {
    tx in w.accounts && w.accounts[tx].scope.WholeUser?
  }

  // ---------------------------------------------------------------- waits for session rows

  ghost predicate RowPath(w: World, path: seq<nat>) {
    forall i :: 0 <= i < |path| - 1 ==> RowWait(w, path[i], path[i + 1])
  }

  /** Nobody on the path but its ends is a password write. */
  predicate OneFamilyInside(w: World, path: seq<nat>) {
    forall i :: 0 < i < |path| - 1 ==> !IsPasswordWrite(w, path[i])
  }

  /** Who holds one row of a family and waits for another is waiting for a newer one. */
  lemma ClimbsOn(w: World, t: nat, u: nat, v: nat, x: nat, y: nat)
    requires Inv(w) && WaitsForRow(w, t, u, x) && WaitsForRow(w, u, v, y) && !IsPasswordWrite(w, u)
    ensures x in w.sessions.rows && y in w.sessions.rows
    ensures x < y && w.sessions.rows[x].familyId == w.sessions.rows[y].familyId
  {
    assert TxOk(w, u) && M.Apart(w.sessions.txs[u], w.sessions.txs[v]);
  }

  /** That, of any three in a row. */
  ghost predicate AllClimb(w: World) {
    && (forall t, u, x :: WaitsForRow(w, t, u, x) ==> x in w.sessions.rows)
    && (forall t, u, v, x, y ::
          WaitsForRow(w, t, u, x) && WaitsForRow(w, u, v, y) && !IsPasswordWrite(w, u)
          && x in w.sessions.rows && y in w.sessions.rows ==>
            x < y && w.sessions.rows[x].familyId == w.sessions.rows[y].familyId)
  }

  lemma WantedIsThere(w: World, t: nat, u: nat, x: nat)
    requires Inv(w) && WaitsForRow(w, t, u, x)
    ensures x in w.sessions.rows
  {
    assert TxOk(w, t);
  }

  lemma TheyAllClimb(w: World)
    requires Inv(w)
    ensures AllClimb(w)
  {
    forall t, u, x | WaitsForRow(w, t, u, x)
      ensures x in w.sessions.rows
    {
      WantedIsThere(w, t, u, x);
    }
    forall t, u, v, x, y | WaitsForRow(w, t, u, x) && WaitsForRow(w, u, v, y) && !IsPasswordWrite(w, u)
                           && x in w.sessions.rows && y in w.sessions.rows
      ensures x < y && w.sessions.rows[x].familyId == w.sessions.rows[y].familyId
    {
      ClimbsOn(w, t, u, v, x, y);
    }
  }

  lemma TailOf(w: World, path: seq<nat>)
    requires |path| >= 3 && RowPath(w, path) && OneFamilyInside(w, path)
    ensures RowPath(w, path[1..]) && OneFamilyInside(w, path[1..])
    ensures RowWait(w, path[0], path[1]) && !IsPasswordWrite(w, path[1])
  {
    var rest := path[1..];
    assert RowWait(w, path[0], path[0 + 1]);
    assert forall i :: 0 <= i < |rest| ==> rest[i] == path[i + 1];
    forall i | 0 <= i < |rest| - 1
      ensures RowWait(w, rest[i], rest[i + 1])
    {
      assert RowWait(w, path[i + 1], path[i + 1 + 1]);
    }
  }

  /**
   * Along a path of waits inside one family the rows waited for get newer: from `x`, which the first
   * wants and the second holds, to `y`, which the last but one wants and the last holds.
   */
  lemma {:induction false} PathClimbs(w: World, path: seq<nat>) returns (x: nat, y: nat)
    requires AllClimb(w) && |path| >= 2 && RowPath(w, path) && OneFamilyInside(w, path)
    ensures WaitsForRow(w, path[0], path[1], x) && WaitsForRow(w, path[|path| - 2], path[|path| - 1], y)
    ensures x in w.sessions.rows && y in w.sessions.rows
    ensures x <= y && w.sessions.rows[x].familyId == w.sessions.rows[y].familyId
    decreases |path|
  {
    if |path| == 2 {
      assert RowWait(w, path[0], path[0 + 1]);
      x :| WaitsForRow(w, path[0], path[1], x);
      y := x;
    } else {
      TailOf(w, path);
      var z;
      z, y := PathClimbs(w, path[1..]);
      x :| WaitsForRow(w, path[0], path[1], x);
    }
  }

  /** Two password writes that have begun are two users'. */
  lemma TwoUsers(w: World, p: nat, q: nat)
    requires Inv(w) && IsPasswordWrite(w, p) && IsPasswordWrite(w, q) && p != q
    ensures w.accounts[p].userId != w.accounts[q].userId
  {
    assert V.AccountOk(w.versions, w.accounts[p]) && V.AccountOk(w.versions, w.accounts[q]);
    assert V.OneHolder(w.accounts[p], w.accounts[q]);
  }

  /** The rows a password write wants and holds are its user's, and one family's at most once. */
  lemma OwnRows(w: World, p: nat, id: nat)
    requires Inv(w) && IsPasswordWrite(w, p) && p in w.sessions.txs
    requires id in w.sessions.txs[p].locks + Pending(w.sessions.txs[p])
    ensures id in w.sessions.rows && w.sessions.rows[id].userId == w.accounts[p].userId
  {
    assert TxOk(w, p);
  }

  lemma OneRowAFamily(w: World, p: nat, x: nat, y: nat)
    requires Inv(w) && IsPasswordWrite(w, p) && p in w.sessions.txs
    requires x in Pending(w.sessions.txs[p]) && y in w.sessions.txs[p].locks
    requires x in w.sessions.rows && y in w.sessions.rows
    requires w.sessions.rows[x].familyId == w.sessions.rows[y].familyId
    ensures x == y
  {
    assert TxOk(w, p);
  }

  lemma NotMine(w: World, t: nat, u: nat, id: nat)
    requires Inv(w) && WaitsForRow(w, t, u, id)
    ensures id !in w.sessions.txs[t].locks
  {
    assert M.Apart(w.sessions.txs[t], w.sessions.txs[u]);
  }

  /** Waits for session rows never lead from a password write to a password write, itself included. */
  lemma NoPasswordToPassword(w: World, path: seq<nat>)
    requires Inv(w) && |path| >= 2 && RowPath(w, path) && OneFamilyInside(w, path)
    ensures !IsPasswordWrite(w, path[0]) || !IsPasswordWrite(w, path[|path| - 1])
  {
    var p, q := path[0], path[|path| - 1];
    if IsPasswordWrite(w, p) && IsPasswordWrite(w, q) {
      TheyAllClimb(w);
      var x, y := PathClimbs(w, path);
      if p == q {
        NotMine(w, p, path[1], x);
        OneRowAFamily(w, p, x, y);
      } else {
        OwnRows(w, p, x);
        OwnRows(w, q, y);
        OneUserAFamily(w.sessions.rows, x, y);
        TwoUsers(w, p, q);
      }
    }
  }

  lemma HeldIsOlder(w: World, t: nat, u: nat, h: nat, p: nat)
    requires Inv(w) && WaitsForRow(w, t, u, p) && !IsPasswordWrite(w, t) && h in w.sessions.txs[t].locks
    ensures h < p
  {
    NotMine(w, t, u, p);
    assert TxOk(w, t);
  }

  /** Nor do they come back to where they started without meeting one. */
  lemma NoRoundInOneFamily(w: World, path: seq<nat>)
    requires Inv(w) && |path| >= 2 && RowPath(w, path) && OneFamilyInside(w, path)
    requires !IsPasswordWrite(w, path[0])
    ensures path[0] != path[|path| - 1]
  {
    TheyAllClimb(w);
    var x, y := PathClimbs(w, path);
    if path[0] == path[|path| - 1] {
      HeldIsOlder(w, path[0], path[1], y, x);
    }
  }

  /** The first password write after the start of a path, if it ends with one. */
  lemma {:induction false} FirstPasswordWrite(w: World, path: seq<nat>, from: nat) returns (j: nat)
    requires from < |path| && IsPasswordWrite(w, path[|path| - 1])
    ensures from <= j < |path| && IsPasswordWrite(w, path[j])
    ensures forall i :: from <= i < j ==> !IsPasswordWrite(w, path[i])
    decreases |path| - from
  {
    if IsPasswordWrite(w, path[from]) {
      j := from;
    } else {
      j := FirstPasswordWrite(w, path, from + 1);
    }
  }

  lemma NoRoundFromPassword(w: World, path: seq<nat>)
    requires Inv(w) && |path| >= 2 && RowPath(w, path) && IsPasswordWrite(w, path[0])
    ensures path[0] != path[|path| - 1]
  {
    if path[0] == path[|path| - 1] {
      var j := FirstPasswordWrite(w, path, 1);
      var head := path[..j + 1];
      forall i | 0 <= i < |head| - 1
        ensures RowWait(w, head[i], head[i + 1])
      {
        assert RowWait(w, path[i], path[i + 1]);
      }
      NoPasswordToPassword(w, head);
    }
  }

  /** Waits for session rows alone never come back to where they started. */
  lemma NoRoundOfRows(w: World, path: seq<nat>)
    requires Inv(w) && |path| >= 2 && RowPath(w, path)
    ensures path[0] != path[|path| - 1]
  {
    if k :| 0 <= k < |path| - 1 && IsPasswordWrite(w, path[k]) {
      if path[0] == path[|path| - 1] {
        Turned(w, path, k);
        NoRoundFromPassword(w, path[k..] + path[1..k + 1]);
      }
    } else {
      NoRoundInOneFamily(w, path);
    }
  }

  /** A closed path may be walked from any of its stations. */
  lemma Turned(w: World, path: seq<nat>, k: nat)
    requires |path| >= 2 && k < |path| - 1 && RowPath(w, path) && path[0] == path[|path| - 1]
    ensures var turned := path[k..] + path[1..k + 1];
            RowPath(w, turned) && |turned| == |path| && turned[0] == turned[|turned| - 1] == path[k]
  {
    var n, turned := |path| - 1, path[k..] + path[1..k + 1];
    assert forall i :: 0 <= i < |turned| ==> turned[i] == if i <= n - k then path[i + k] else path[i - (n - k)];
    forall i | 0 <= i < |turned| - 1
      ensures RowWait(w, turned[i], turned[i + 1])
    {
      var j := if i < n - k then i + k else i - (n - k);
      assert RowWait(w, path[j], path[j + 1]);
    }
  }

  // ---------------------------------------------------------------- and for the row of the user

  ghost predicate WaitPath(w: World, path: seq<nat>) {
    forall i :: 0 <= i < |path| - 1 ==> WaitsFor(w, path[i], path[i + 1])
  }

  /** Whoever holds a user's row and still waits is a password write that waits for a session row. */
  lemma HolderThatWaits(w: World, t: nat, u: nat, v: nat)
    requires Inv(w) && WaitsForUser(w, t, u) && WaitsFor(w, u, v)
    ensures IsPasswordWrite(w, u) && RowWait(w, u, v)
  {
    if RowWait(w, u, v) {
      assert TxOk(w, u);
    }
  }

  /** The next station of a closed path. */
  lemma NextWait(w: World, path: seq<nat>, i: nat) returns (v: nat)
    requires |path| >= 2 && WaitPath(w, path) && path[0] == path[|path| - 1] && i < |path| - 1
    ensures WaitsFor(w, path[i + 1], v)
  {
    var j := if i + 1 < |path| - 1 then i + 1 else 0;
    assert WaitsFor(w, path[j], path[j + 1]);
    v := path[j + 1];
  }

  lemma RoundMeetsUserWait(w: World, path: seq<nat>) returns (i: nat)
    requires Inv(w) && |path| >= 2 && WaitPath(w, path) && path[0] == path[|path| - 1]
    ensures i < |path| - 1 && WaitsForUser(w, path[i], path[i + 1])
  {
    if forall k :: 0 <= k < |path| - 1 ==> !WaitsForUser(w, path[k], path[k + 1]) {
      forall k | 0 <= k < |path| - 1
        ensures RowWait(w, path[k], path[k + 1])
      {
        assert WaitsFor(w, path[k], path[k + 1]);
      }
      NoRoundOfRows(w, path);
    }
    i :| 0 <= i < |path| - 1 && WaitsForUser(w, path[i], path[i + 1]);
  }

  /**
   * In every interleaving, a cycle of waits passes through a reuse detection that has locked its
   * family and waits for the row of its user, held by a password write that waits for a session row.
   */
  lemma CycleNeedsTheUsersRow(run: seq<Action>, path: seq<nat>) returns (i: nat, v: nat)
    requires Legal(START, run) && |path| >= 2 && WaitPath(After(START, run), path)
    requires path[0] == path[|path| - 1]
    ensures i < |path| - 1 && WaitsForUser(After(START, run), path[i], path[i + 1])
    ensures IsPasswordWrite(After(START, run), path[i + 1]) && RowWait(After(START, run), path[i + 1], v)
  {
    var w := After(START, run);
    StartIsGood();
    LegalKeeps(START, run);
    i := RoundMeetsUserWait(w, path);
    v := NextWait(w, path, i);
    HolderThatWaits(w, path[i], path[i + 1], v);
  }

  predicate NoPasswordWrites(run: seq<Action>) {
    forall a :: a in run ==> !a.BumpFirst?
  }

  predicate OnlyFamilies(w: World) {
    forall tx :: tx in w.accounts ==> !IsPasswordWrite(w, tx)
  }

  lemma {:induction false} StaysInFamilies(w: World, run: seq<Action>)
    requires Legal(w, run) && NoPasswordWrites(run) && OnlyFamilies(w)
    ensures OnlyFamilies(After(w, run))
    decreases |run|
  {
    if run == [] {
    } else {
      assert run[0] in run && forall a :: a in run[1..] ==> a in run;
      StepStaysInFamilies(w, run[0]);
      StaysInFamilies(Apply(w, run[0]), run[1..]);
    }
  }

  lemma StepStaysInFamilies(w: World, a: Action)
    requires Enabled(w, a) && !a.BumpFirst? && OnlyFamilies(w)
    ensures OnlyFamilies(Apply(w, a))
  {
  }

  /** Refreshes, reuse detections, logouts and logins alone never wait for each other in a circle. */
  lemma NoDeadlockWithoutPasswordWrites(run: seq<Action>, path: seq<nat>)
    requires Legal(START, run) && NoPasswordWrites(run)
    requires |path| >= 2 && WaitPath(After(START, run), path)
    ensures path[0] != path[|path| - 1]
  {
    if path[0] == path[|path| - 1] {
      StaysInFamilies(START, run);
      var i, v := CycleNeedsTheUsersRow(run, path);
    }
  }
}
