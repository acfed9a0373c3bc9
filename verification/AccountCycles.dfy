/**
 * Exactly when a cycle of waits exists among the transactions on session rows and the row of their
 * user: when some reuse detection waits for a password write that, through session rows, waits for it.
 */
module AccountCycles {
  import opened Options
  import opened SessionRows
  import M = SessionInterleaving
  import V = AccountVersions
  import opened AccountInterleaving
  import opened AccountLocks
  import opened AccountWaits

  ghost predicate Closed(path: seq<nat>) {
    |path| >= 2 && path[0] == path[|path| - 1]
  }

  ghost predicate HasCycle(w: World) {
    exists path :: WaitPath(w, path) && Closed(path)
  }

  /** `p` waits for a session row, and so on until somebody waits for a session row of `r`. */
  ghost predicate LeadsByRows(w: World, p: nat, r: nat) {
    exists path :: RowPathFrom(w, path, p, r)
  }

  ghost predicate RowPathFrom(w: World, path: seq<nat>, p: nat, r: nat) {
    |path| >= 2 && path[0] == p && path[|path| - 1] == r && RowPath(w, path)
  }

  /** A reuse detection and a password write that hold each other up. */
  ghost predicate HoldEachOther(w: World, r: nat, p: nat) {
    WaitsForUser(w, r, p) && IsPasswordWrite(w, p) && LeadsByRows(w, p, r)
  }

  // ---------------------------------------------------------------- the pair makes a cycle

  lemma PairIsACycle(w: World, r: nat, p: nat)
    requires HoldEachOther(w, r, p)
    ensures HasCycle(w)
  {
    var path :| RowPathFrom(w, path, p, r);
    var round := path + [p];
    forall i | 0 <= i < |round| - 1
      ensures WaitsFor(w, round[i], round[i + 1])
    {
      if i < |path| - 1 {
        assert RowWait(w, path[i], path[i + 1]);
      } else {
        assert WaitsForUser(w, round[i], round[i + 1]);
      }
    }
    assert WaitPath(w, round) && Closed(round);
  }

  // ---------------------------------------------------------------- and every cycle has such a pair

  /** A closed path from the station after `i` on, round to station `i`. */
  lemma WalkedRound(w: World, path: seq<nat>, i: nat) returns (walk: seq<nat>)
    requires WaitPath(w, path) && Closed(path) && i < |path| - 1
    ensures |walk| == |path| - 1 && WaitPath(w, walk) && walk[0] == path[i + 1] && walk[|walk| - 1] == path[i]
  {
    walk := path[i + 1..] + path[1..i + 1];
    var n := |path| - 1;
    assert forall j :: 0 <= j < |walk| ==> walk[j] == if j < n - i then path[i + 1 + j] else path[j - (n - i) + 1];
    forall j | 0 <= j < |walk| - 1
      ensures WaitsFor(w, walk[j], walk[j + 1])
    {
      var k := if j < n - i - 1 then i + 1 + j else j - (n - i - 1);
      assert WaitsFor(w, path[k], path[k + 1]);
    }
  }

  /** From the start of a path to the first who waits for a user's row, or to its end. */
  lemma {:induction false} UpToAUserWait(w: World, walk: seq<nat>, k: nat) returns (j: nat)
    requires WaitPath(w, walk) && k < |walk|
    requires forall i :: 0 <= i < k ==> RowWait(w, walk[i], walk[i + 1])
    ensures k <= j < |walk| && forall i :: 0 <= i < j ==> RowWait(w, walk[i], walk[i + 1])
    ensures j < |walk| - 1 ==> WaitsForUser(w, walk[j], walk[j + 1])
    decreases |walk| - k
  {
    if k == |walk| - 1 {
      j := k;
    } else {
      assert WaitsFor(w, walk[k], walk[k + 1]);
      if RowWait(w, walk[k], walk[k + 1]) {
        j := UpToAUserWait(w, walk, k + 1);
      } else {
        j := k;
      }
    }
  }

  /** By session rows a password write leads to transactions of its own user only. */
  lemma LeadsToItsUser(w: World, path: seq<nat>)
    requires Inv(w) && |path| >= 2 && RowPath(w, path) && IsPasswordWrite(w, path[0])
    requires path[|path| - 1] in w.accounts && !IsPasswordWrite(w, path[|path| - 1])
    ensures w.accounts[path[|path| - 1]].userId == w.accounts[path[0]].userId
  {
    var p, r := path[0], path[|path| - 1];
    NoPasswordInside(w, path);
    TheyAllClimb(w);
    var x, y := PathClimbs(w, path);
    OwnRows(w, p, x);
    OneUserAFamily(w.sessions.rows, x, y);
    FamilyIsItsUsers(w, r, y);
  }

  lemma FamilyIsItsUsers(w: World, r: nat, y: nat)
    requires Inv(w) && r in w.sessions.txs && r in w.accounts && !IsPasswordWrite(w, r)
    requires y in w.sessions.txs[r].locks
    ensures y in w.sessions.rows && w.sessions.rows[y].userId == w.accounts[r].userId
  {
    assert TxOk(w, r);
    var family := w.accounts[r].scope.familyId;
    assert FamilyOf(w.sessions.rows, family, w.accounts[r].userId);
    var id :| id in w.sessions.rows && w.sessions.rows[id].familyId == family
              && w.sessions.rows[id].userId == w.accounts[r].userId;
    OneUserAFamily(w.sessions.rows, id, y);
  }

  lemma NoPasswordInside(w: World, path: seq<nat>)
    requires Inv(w) && |path| >= 2 && RowPath(w, path) && IsPasswordWrite(w, path[0])
    ensures OneFamilyInside(w, path)
  {
    if k :| 0 < k < |path| - 1 && IsPasswordWrite(w, path[k]) {
      var head := path[..k + 1];
      RowPathPrefix(w, path, k + 1);
      var j := FirstPasswordWrite(w, head, 1);
      RowPathPrefix(w, path, j + 1);
      NoPasswordToPassword(w, path[..j + 1]);
    }
  }

  lemma RowPathPrefix(w: World, path: seq<nat>, n: nat)
    requires RowPath(w, path) && n <= |path|
    ensures RowPath(w, path[..n])
  {
    forall i | 0 <= i < n - 1
      ensures RowWait(w, path[..n][i], path[..n][i + 1])
    {
      assert RowWait(w, path[i], path[i + 1]);
    }
  }

  /** Only one transaction holds a user's row. */
  lemma OneHolderOf(w: World, p: nat, q: nat)
    requires Inv(w) && p in w.accounts && q in w.accounts && w.accounts[p].userId == w.accounts[q].userId
    requires w.accounts[p].staged.Some? && p != q
    ensures w.accounts[q].staged.None?
  {
    assert V.OneHolder(w.accounts[p], w.accounts[q]);
  }

  lemma CycleHasAPair(w: World, path: seq<nat>) returns (r: nat, p: nat)
    requires Inv(w) && WaitPath(w, path) && Closed(path)
    ensures HoldEachOther(w, r, p)
  {
    var i := RoundMeetsUserWait(w, path);
    var v := NextWait(w, path, i);
    HolderThatWaits(w, path[i], path[i + 1], v);
    p := path[i + 1];
    var walk := WalkedRound(w, path, i);
    r := PairOnTheWalk(w, walk);
  }

  /** A walk from a password write to a reuse detection that waits for it. */
  lemma PairOnTheWalk(w: World, walk: seq<nat>) returns (r: nat)
    requires Inv(w) && |walk| >= 1 && WaitPath(w, walk)
    requires IsPasswordWrite(w, walk[0]) && WaitsForUser(w, walk[|walk| - 1], walk[0])
    ensures HoldEachOther(w, r, walk[0])
  {
    FirstIsARow(w, walk);
    var j := UpToAUserWait(w, walk, 1);
    r := walk[j];
    HeadLeads(w, walk, j);
    if j < |walk| - 1 {
      SamePasswordWrite(w, walk[..j + 1], walk[j + 1]);
    }
  }

  lemma FirstIsARow(w: World, walk: seq<nat>)
    requires Inv(w) && |walk| >= 1 && WaitPath(w, walk) && WaitsForUser(w, walk[|walk| - 1], walk[0])
    ensures |walk| > 1 && RowWait(w, walk[0], walk[1])
  {
    assert WaitsFor(w, walk[0], walk[0 + 1]);
    HolderThatWaits(w, walk[|walk| - 1], walk[0], walk[1]);
  }

  lemma HeadLeads(w: World, walk: seq<nat>, j: nat)
    requires 1 <= j < |walk| && forall i :: 0 <= i < j ==> RowWait(w, walk[i], walk[i + 1])
    ensures RowPathFrom(w, walk[..j + 1], walk[0], walk[j]) && LeadsByRows(w, walk[0], walk[j])
  {
    var head := walk[..j + 1];
    forall i | 0 <= i < |head| - 1
      ensures RowWait(w, head[i], head[i + 1])
    {
      assert RowWait(w, walk[i], walk[i + 1]);
    }
    assert RowPathFrom(w, head, walk[0], walk[j]);
  }

  /** Whoever a password write leads to, and who waits for a user's row, waits for that password write. */
  lemma SamePasswordWrite(w: World, head: seq<nat>, q: nat)
    requires Inv(w) && |head| >= 2 && RowPath(w, head) && IsPasswordWrite(w, head[0])
    requires WaitsForUser(w, head[|head| - 1], q)
    ensures q == head[0]
  {
    ReuseIsNoPasswordWrite(w, head[|head| - 1]);
    LeadsToItsUser(w, head);
    assert V.AccountOk(w.versions, w.accounts[head[0]]);
    if q != head[0] {
      OneHolderOf(w, head[0], q);
    }
  }

  lemma ReuseIsNoPasswordWrite(w: World, r: nat)
    requires Inv(w) && r in w.accounts && w.accounts[r].staged.None?
    ensures !IsPasswordWrite(w, r)
  {
    assert V.AccountOk(w.versions, w.accounts[r]);
  }

  /**
   * A cycle of waits exists exactly when some reuse detection waits for its user's row and the password
   * write that holds it leads back to the reuse detection by waits for session rows.
   */
  lemma CycleIff(run: seq<Action>)
    requires Legal(START, run)
    ensures HasCycle(After(START, run)) <==> exists r, p :: HoldEachOther(After(START, run), r, p)
  {
    var w := After(START, run);
    StartIsGood();
    LegalKeeps(START, run);
    if HasCycle(w) {
      var path :| WaitPath(w, path) && Closed(path);
      var r, p := CycleHasAPair(w, path);
    }
    if r, p :| HoldEachOther(w, r, p) {
      PairIsACycle(w, r, p);
    }
  }
}
