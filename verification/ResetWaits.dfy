/**
 * Who waits for whom with the token rows of resets counted in: a cycle of waits is either that of a
 * reuse detection and a password write, or a round of resets of one user that want each other's token
 * rows.
 */
module ResetWaits {
  import opened Options
  import M = SessionInterleaving
  import A = AccountInterleaving
  import L = AccountLocks
  import W = AccountWaits
  import C = AccountCycles
  import opened ResetInterleaving

  /** The reset `t` has yet to lock a token row that the reset `u` has locked. */
  predicate WaitsForToken(w: World, t: nat, u: nat, token: nat) {
    && t in w.resets && u in w.resets && t != u && w.resets[t].stage.Sweeping?
    && token in w.resets[t].stage.pending && token in w.resets[u].held
  }

  ghost predicate TokenWait(w: World, t: nat, u: nat) {
    exists token :: WaitsForToken(w, t, u, token)
  }

  /** The reset `t` has its token rows and waits for the user's row, which `u` has locked. */
  predicate WaitsForUser(w: World, t: nat, u: nat) {
    && t in w.resets && t !in w.base.accounts && w.resets[t].stage == Sweeping({}) && t != u
    && u in w.base.accounts && w.base.accounts[u].userId == w.resets[t].userId && w.base.accounts[u].staged.Some?
  }

  ghost predicate WaitsFor(w: World, t: nat, u: nat) {
    TokenWait(w, t, u) || WaitsForUser(w, t, u) || W.WaitsFor(w.base, t, u)
  }

  ghost predicate WaitPath(w: World, path: seq<nat>) {
    forall i :: 0 <= i < |path| - 1 ==> WaitsFor(w, path[i], path[i + 1])
  }

  ghost predicate Closed(path: seq<nat>) {
    |path| >= 2 && path[0] == path[|path| - 1]
  }

  ghost predicate Good(w: World) {
    Inv(w) && L.Inv(w.base)
  }

  // ---------------------------------------------------------------- before the user's row and after it

  /** A reset that wants a token row has not come to the user's row, and wants only its own user's tokens. */
  lemma WantsOwnUsers(w: World, t: nat, u: nat)
    requires Inv(w) && TokenWait(w, t, u)
    ensures t in w.resets && u in w.resets && t !in w.base.accounts && w.resets[t].userId == w.resets[u].userId
  {
    var token :| WaitsForToken(w, t, u, token);
    assert ResetOk(w, t) && ResetOk(w, u);
  }

  lemma BaseWaitsAreLate(w: World, t: nat, u: nat)
    requires L.Inv(w.base) && W.WaitsFor(w.base, t, u)
    ensures t in w.base.accounts && u in w.base.accounts
  {
    if W.RowWait(w.base, t, u) {
      assert L.TxOk(w.base, t) && L.TxOk(w.base, u);
    }
  }

  /** Whoever has come to the user's row, or has no tokens to lock, waits only for others of that kind. */
  lemma LateWaitsForLate(w: World, t: nat, u: nat)
    requires Good(w) && WaitsFor(w, t, u) && t in w.base.accounts
    ensures u in w.base.accounts && W.WaitsFor(w.base, t, u)
  {
    if TokenWait(w, t, u) {
      WantsOwnUsers(w, t, u);
    }
    BaseWaitsAreLate(w, t, u);
  }

  lemma LateStep(w: World, path: seq<nat>, i: nat)
    requires Good(w) && WaitPath(w, path) && i < |path| - 1 && path[i] in w.base.accounts
    ensures path[i + 1] in w.base.accounts && W.WaitsFor(w.base, path[i], path[i + 1])
  {
    assert WaitsFor(w, path[i], path[i + 1]);
    LateWaitsForLate(w, path[i], path[i + 1]);
  }

  predicate LateIsFollowedByLate(w: World, path: seq<nat>) {
    forall i :: 0 <= i < |path| - 1 && path[i] in w.base.accounts ==> path[i + 1] in w.base.accounts
  }

  lemma AlongThePath(w: World, path: seq<nat>)
    requires Good(w) && WaitPath(w, path)
    ensures LateIsFollowedByLate(w, path)
  {
    forall i | 0 <= i < |path| - 1 && path[i] in w.base.accounts
      ensures path[i + 1] in w.base.accounts
    {
      LateStep(w, path, i);
    }
  }

  lemma {:induction false} StaysLate(w: World, path: seq<nat>, i: nat, j: nat)
    requires LateIsFollowedByLate(w, path) && i <= j < |path| && path[i] in w.base.accounts
    ensures path[j] in w.base.accounts
    decreases j
  {
    if i == j {
    } else {
      StaysLate(w, path, i, j - 1);
      assert path[j - 1 + 1] in w.base.accounts;
    }
  }

  ghost predicate TokenPath(w: World, path: seq<nat>) {
    forall i :: 0 <= i < |path| - 1 ==> TokenWait(w, path[i], path[i + 1])
  }

  /** A closed path is one of waits for tokens throughout, or of waits without tokens throughout. */
  lemma OneKindThroughout(w: World, path: seq<nat>)
    requires Good(w) && WaitPath(w, path) && Closed(path)
    ensures TokenPath(w, path) || W.WaitPath(w.base, path)
  {
    AlongThePath(w, path);
    if k :| 0 <= k < |path| && path[k] in w.base.accounts {
      StaysLate(w, path, k, |path| - 1);
      forall i | 0 <= i < |path| - 1
        ensures W.WaitsFor(w.base, path[i], path[i + 1])
      {
        StaysLate(w, path, 0, i);
        LateStep(w, path, i);
      }
    } else {
      forall i | 0 <= i < |path| - 1
        ensures TokenWait(w, path[i], path[i + 1])
      {
        assert WaitsFor(w, path[i], path[i + 1]);
        if W.WaitsFor(w.base, path[i], path[i + 1]) {
          BaseWaitsAreLate(w, path[i], path[i + 1]);
        }
      }
    }
  }

  /** Resets of one user, each short of the user's row, each with a token of its own. */
  predicate OneUsersResets(w: World, path: seq<nat>) {
    && (forall i :: 0 <= i < |path| ==> path[i] in w.resets && path[i] !in w.base.accounts)
    && (forall i, j :: 0 <= i < j < |path| ==> w.resets[path[i]].userId == w.resets[path[j]].userId)
    && (forall i, j :: 0 <= i < j < |path| && path[i] != path[j] ==> w.resets[path[i]].own != w.resets[path[j]].own)
  }

  lemma {:induction false} SameUserAlong(w: World, path: seq<nat>, i: nat, j: nat)
    requires Inv(w) && TokenPath(w, path) && i < j < |path|
    ensures path[i] in w.resets && path[j] in w.resets && w.resets[path[i]].userId == w.resets[path[j]].userId
    decreases j
  {
    assert TokenWait(w, path[j - 1], path[j - 1 + 1]);
    WantsOwnUsers(w, path[j - 1], path[j]);
    if i == j - 1 {
    } else {
      SameUserAlong(w, path, i, j - 1);
    }
  }

  lemma OwnTokensDiffer(w: World, t: nat, u: nat)
    requires Inv(w) && t in w.resets && u in w.resets && t != u
    ensures w.resets[t].own != w.resets[u].own
  {
    assert ResetOk(w, t) && ResetOk(w, u) && Apart(w.resets[t], w.resets[u]);
  }

  lemma ClosedTokenPath(w: World, path: seq<nat>)
    requires Inv(w) && TokenPath(w, path) && Closed(path)
    ensures OneUsersResets(w, path)
  {
    forall i | 0 <= i < |path|
      ensures path[i] in w.resets && path[i] !in w.base.accounts
    {
      var k := if i == |path| - 1 then 0 else i;
      assert TokenWait(w, path[k], path[k + 1]);
      WantsOwnUsers(w, path[k], path[k + 1]);
    }
    forall i, j | 0 <= i < j < |path|
      ensures w.resets[path[i]].userId == w.resets[path[j]].userId
      ensures path[i] != path[j] ==> w.resets[path[i]].own != w.resets[path[j]].own
    {
      SameUserAlong(w, path, i, j);
      if path[i] != path[j] {
        OwnTokensDiffer(w, path[i], path[j]);
      }
    }
  }

  // ---------------------------------------------------------------- the two kinds of cycle

  /** A reuse detection waits on the path for its user's row, which the next on the path, a password write, holds. */
  ghost predicate ThroughTheUsersRow(w: World, path: seq<nat>) {
    exists i :: 0 <= i < |path| - 1 && W.WaitsForUser(w.base, path[i], path[i + 1])
                && W.IsPasswordWrite(w.base, path[i + 1])
  }

  lemma ReachedIsGood(run: seq<Action>)
    requires Legal(START, run)
    ensures Good(After(START, run))
  {
    LegalKeeps(START, run);
    var alone := BaseRunsAlone(START, run);
    L.StartIsGood();
    L.LegalKeeps(A.START, alone);
  }

  /**
   * In every interleaving, a cycle of waits either passes through a reuse detection that waits for its
   * user's row, held by a password write, or is a round of resets of one user, with tokens of their own,
   * each of which wants a token row the next has locked.
   */
  lemma CycleIsOneOfTwo(run: seq<Action>, path: seq<nat>)
    requires Legal(START, run) && WaitPath(After(START, run), path) && Closed(path)
    ensures ThroughTheUsersRow(After(START, run), path)
            || (TokenPath(After(START, run), path) && OneUsersResets(After(START, run), path))
  {
    var w := After(START, run);
    ReachedIsGood(run);
    OneKindThroughout(w, path);
    if TokenPath(w, path) {
      ClosedTokenPath(w, path);
    } else {
      var alone := BaseRunsAlone(START, run);
      var i, v := W.CycleNeedsTheUsersRow(alone, path);
    }
  }

  // ---------------------------------------------------------------- exactly when there is a cycle

  ghost predicate HasCycle(w: World) {
    exists path :: WaitPath(w, path) && Closed(path)
  }

  /** Some resets want each other's token rows all the way round. */
  ghost predicate HasTokenRound(w: World) {
    exists path :: TokenPath(w, path) && Closed(path)
  }

  ghost predicate HasPair(w: World) {
    exists r, p :: C.HoldEachOther(w.base, r, p)
  }

  lemma CycleGivesEither(w: World)
    requires Good(w) && HasCycle(w)
    ensures HasTokenRound(w) || HasPair(w)
  {
    var path :| WaitPath(w, path) && Closed(path);
    OneKindThroughout(w, path);
    if !TokenPath(w, path) {
      var r, p := C.CycleHasAPair(w.base, path);
    }
  }

  lemma PairGivesCycle(w: World)
    requires HasPair(w)
    ensures HasCycle(w)
  {
    var r, p :| C.HoldEachOther(w.base, r, p);
    C.PairIsACycle(w.base, r, p);
    var path :| W.WaitPath(w.base, path) && C.Closed(path);
    forall i | 0 <= i < |path| - 1
      ensures WaitsFor(w, path[i], path[i + 1])
    {
      assert W.WaitsFor(w.base, path[i], path[i + 1]);
    }
    assert WaitPath(w, path) && Closed(path);
  }

  lemma RoundGivesCycle(w: World)
    requires HasTokenRound(w)
    ensures HasCycle(w)
  {
    var path :| TokenPath(w, path) && Closed(path);
    forall i | 0 <= i < |path| - 1
      ensures WaitsFor(w, path[i], path[i + 1])
    {
      assert TokenWait(w, path[i], path[i + 1]);
    }
    assert WaitPath(w, path) && Closed(path);
  }

  /**
   * A cycle of waits exists exactly when some resets want each other's token rows all the way round, or
   * some reuse detection waits for a password write that through session rows waits for it.
   */
  lemma CycleIff(run: seq<Action>)
    requires Legal(START, run)
    ensures HasCycle(After(START, run)) <==> HasTokenRound(After(START, run)) || HasPair(After(START, run))
  {
    var w := After(START, run);
    ReachedIsGood(run);
    if HasCycle(w) {
      CycleGivesEither(w);
    } else if HasTokenRound(w) {
      RoundGivesCycle(w);
    } else if HasPair(w) {
      PairGivesCycle(w);
    }
  }
}
