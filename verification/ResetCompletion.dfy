/**
 * Exactly when two resets of one user that have begun can both be carried out, whatever else is open:
 * when not both of the tokens they presented are still open.
 */
module ResetCompletion {
  import opened Options
  import opened SessionRows
  import M = SessionInterleaving
  import A = AccountInterleaving
  import L = AccountLocks
  import opened ResetInterleaving
  import opened ResetDeadlock
  import W = ResetWaits

  /** Nobody has come to a session row or to the row of a user. */
  predicate Quiet(w: World) {
    w.base.accounts == map[] && w.base.sessions.txs == map[]
  }

  predicate GivesUp(a: Action) {
    a.Rollback? || (a.Base? && a.step.Abort?)
  }

  predicate NobodyGivesUp(run: seq<Action>) {
    forall a :: a in run ==> !GivesUp(a)
  }

  predicate BothKept(run: seq<Action>, t: nat, u: nat) {
    forall a :: a in run ==> KeepsBoth(a, t, u)
  }

  lemma KeptInTurn(s: seq<Action>, r: seq<Action>, t: nat, u: nat)
    requires BothKept(s, t, u) && BothKept(r, t, u)
    ensures BothKept(s + r, t, u)
  {
  }

  // ---------------------------------------------------------------- locking the other tokens

  /** What a reset that sweeps wants is there, and held by nobody else. */
  predicate AllFree(w: World, t: nat) {
    && t in w.resets && w.resets[t].stage.Sweeping?
    && forall id :: id in w.resets[t].stage.pending ==> id in w.tokens && TokenFree(w, t, id)
  }

  lemma {:induction false} SweepsAll(w: World, t: nat) returns (run: seq<Action>)
    requires AllFree(w, t)
    ensures Legal(w, run) && NobodyGivesUp(run)
    ensures t in After(w, run).resets && After(w, run) == Put(w, t, After(w, run).resets[t])
    ensures var r := After(w, run).resets[t];
            r.stage == Sweeping({}) && r.userId == w.resets[t].userId && r.own == w.resets[t].own
    decreases |w.resets[t].stage.pending|
  {
    if w.resets[t].stage.pending == {} {
      run := [];
      assert Put(w, t, w.resets[t]) == w;
    } else {
      var id :| id in w.resets[t].stage.pending;
      var w1 := LockOtherStep(w, t, id);
      var rest := SweepsAll(w1, t);
      Unroll(w, LockOther(t, id), rest);
      run := [LockOther(t, id)] + rest;
    }
  }

  // ---------------------------------------------------------------- revoking the session rows

  /** The only transaction on session rows, with these rows to revoke. */
  predicate AloneRevoking(w: World, t: nat) {
    && w.base.sessions.txs.Keys == {t} && w.base.sessions.txs[t].phase.Revoking?
    && w.base.sessions.txs[t].phase.pending <= w.base.sessions.rows.Keys
    && w.base.sessions.txs[t].phase.reason == PasswordReset
  }

  function Revoking(t: nat, id: nat): Action {
    Base(A.Inner(M.RevokeRow(t, id)))
  }

  lemma RevokesOne(w: World, t: nat, id: nat)
    requires AloneRevoking(w, t) && id in w.base.sessions.txs[t].phase.pending
    ensures Enabled(w, Revoking(t, id)) && AloneRevoking(Apply(w, Revoking(t, id)), t)
    ensures var v := Apply(w, Revoking(t, id));
            && v.base.sessions.txs[t].phase.pending == w.base.sessions.txs[t].phase.pending - {id}
            && v.tokens == w.tokens && v.resets == w.resets && v.valid == w.valid
            && v.base.accounts == w.base.accounts && v.base.versions == w.base.versions
  {
  }

  lemma {:induction false} RevokesAll(w: World, t: nat) returns (run: seq<Action>)
    requires AloneRevoking(w, t)
    ensures Legal(w, run) && NobodyGivesUp(run)
    ensures AloneRevoking(After(w, run), t) && After(w, run).base.sessions.txs[t].phase.pending == {}
    ensures After(w, run).tokens == w.tokens && After(w, run).resets == w.resets && After(w, run).valid == w.valid
    ensures After(w, run).base.accounts == w.base.accounts && After(w, run).base.versions == w.base.versions
    decreases |w.base.sessions.txs[t].phase.pending|
  {
    if w.base.sessions.txs[t].phase.pending == {} {
      run := [];
    } else {
      var id :| id in w.base.sessions.txs[t].phase.pending;
      RevokesOne(w, t, id);
      var rest := RevokesAll(Apply(w, Revoking(t, id)), t);
      Unroll(w, Revoking(t, id), rest);
      run := [Revoking(t, id)] + rest;
    }
  }

  // ---------------------------------------------------------------- one reset, with nobody in its way

  /** A reset that has its token, while the others hold no token it will want. */
  predicate CanSweep(w: World, t: nat) {
    && t in w.resets && w.resets[t].stage.Begun?
    && forall id :: id in OthersOf(w.tokens, w.resets[t].userId, w.resets[t].own) ==> TokenFree(w, t, id)
  }

  lemma ToTheRow(w: World, t: nat) returns (run: seq<Action>)
    requires CanSweep(w, t)
    ensures Legal(w, run) && NobodyGivesUp(run)
    ensures t in After(w, run).resets && After(w, run) == Put(w, t, After(w, run).resets[t])
    ensures After(w, run).resets[t].stage == Sweeping({}) && After(w, run).resets[t].userId == w.resets[t].userId
  {
    var w1 := Apply(w, SweepOthers(t));
    var rest := SweepsAll(w1, t);
    Unroll(w, SweepOthers(t), rest);
    run := [SweepOthers(t)] + rest;
  }

  predicate AtTheRow(w: World, t: nat) {
    && Quiet(w) && t in w.resets && w.resets[t].stage == Sweeping({}) && w.resets[t].userId in w.base.versions
  }

  /** The reset has its user's row, and takes the snapshot of the session rows. */
  lemma ToTheSessions(w: World, t: nat)
    requires AtTheRow(w, t)
    ensures var bump, write := Base(A.BumpFirst(t, w.resets[t].userId, None)), Base(A.WriteSessions(t, 0));
            && Enabled(w, bump) && Enabled(Apply(w, bump), write)
            && var v := Apply(Apply(w, bump), write);
            && AloneRevoking(v, t) && v.tokens == w.tokens && v.resets == w.resets && v.valid == w.valid
            && v.base.accounts.Keys == {t} && v.base.accounts[t].userId in v.base.versions
            && v.base.versions == w.base.versions
  {
  }

  /** What a committed reset leaves: its tokens closed, nobody at the user's row, one more version. */
  predicate CarriedOut(w: World, w': World, t: nat) {
    && Quiet(w') && w'.resets == w.resets - {t} && w'.valid == w.valid && w'.base.versions.Keys == w.base.versions.Keys
    && w'.tokens.Keys == w.tokens.Keys
    && forall id :: id in w.tokens ==>
                      && w'.tokens[id].userId == w.tokens[id].userId
                      && (w'.tokens[id].isOpen ==> w.tokens[id].isOpen)
  }

  lemma Commits(w: World, t: nat)
    requires AloneRevoking(w, t) && w.base.sessions.txs[t].phase.pending == {}
    requires w.base.accounts.Keys == {t} && w.base.accounts[t].userId in w.base.versions && t in w.resets
    ensures Enabled(w, Base(A.Commit(t))) && CarriedOut(w, Apply(w, Base(A.Commit(t))), t)
  {
    var w' := Apply(w, Base(A.Commit(t)));
    assert w'.base.accounts.Keys == {} && w'.base.sessions.txs.Keys == {};
    assert w'.base.accounts == map[] && w'.base.sessions.txs == map[];
  }

  lemma FromTheRow(w: World, t: nat) returns (run: seq<Action>)
    requires AtTheRow(w, t)
    ensures Legal(w, run) && NobodyGivesUp(run) && Base(A.Commit(t)) in run && CarriedOut(w, After(w, run), t)
  {
    var bump, write := Base(A.BumpFirst(t, w.resets[t].userId, None)), Base(A.WriteSessions(t, 0));
    ToTheSessions(w, t);
    var v := Apply(Apply(w, bump), write);
    var rest := FromTheSessions(v, t);
    Unroll(Apply(w, bump), write, rest);
    Unroll(w, bump, [write] + rest);
    run := [bump] + ([write] + rest);
  }

  lemma FromTheSessions(w: World, t: nat) returns (run: seq<Action>)
    requires AloneRevoking(w, t) && t in w.resets
    requires w.base.accounts.Keys == {t} && w.base.accounts[t].userId in w.base.versions
    ensures Legal(w, run) && NobodyGivesUp(run) && Base(A.Commit(t)) in run && CarriedOut(w, After(w, run), t)
  {
    var revoking := RevokesAll(w, t);
    var end, commit := After(w, revoking), [Base(A.Commit(t))] + [];
    Commits(end, t);
    Unroll(end, Base(A.Commit(t)), []);
    AfterBoth(w, revoking, commit);
    run := revoking + commit;
  }

  lemma Carries(w: World, t: nat) returns (run: seq<Action>)
    requires Quiet(w) && CanSweep(w, t) && w.resets[t].userId in w.base.versions
    ensures Legal(w, run) && NobodyGivesUp(run) && Base(A.Commit(t)) in run && CarriedOut(w, After(w, run), t)
  {
    var first := ToTheRow(w, t);
    var v := After(w, first);
    var second := FromTheRow(v, t);
    AfterBoth(w, first, second);
    run := first + second;
    assert v.resets - {t} == w.resets - {t};
  }

  // ---------------------------------------------------------------- both, one after the other

  /** Two resets that have begun, and nobody else. */
  predicate OnlyTwo(w: World, t: nat, u: nat) {
    && t != u && Quiet(w) && w.resets.Keys == {t, u} && w.resets[t].stage.Begun? && w.resets[u].stage.Begun?
    && w.resets[t].held == {w.resets[t].own} && w.resets[u].held == {w.resets[u].own}
    && w.resets[t].userId in w.base.versions && w.resets[u].userId in w.base.versions
  }

  lemma ClosedIsNotWanted(w: World, t: nat, u: nat)
    requires OnlyTwo(w, t, u) && !OwnIsOpen(w, u)
    ensures CanSweep(w, t)
  {
  }

  lemma FirstThenOther(w: World, t: nat, u: nat) returns (run: seq<Action>)
    requires OnlyTwo(w, t, u) && !OwnIsOpen(w, u)
    ensures Legal(w, run) && NobodyGivesUp(run) && Base(A.Commit(t)) in run && Base(A.Commit(u)) in run
  {
    ClosedIsNotWanted(w, t, u);
    var first := Carries(w, t);
    var v := After(w, first);
    assert v.resets.Keys == {u} && v.resets[u] == w.resets[u];
    var second := Carries(v, u);
    AfterBoth(w, first, second);
    run := first + second;
  }

  // ---------------------------------------------------------------- the others out of the way

  function Only(resets: map<nat, Reset>, t: nat, u: nat): map<nat, Reset> {
    map x | x in resets && (x == t || x == u) :: resets[x]
  }

  lemma OnlyWithout(resets: map<nat, Reset>, t: nat, u: nat, x: nat)
    requires x != t && x != u
    ensures Only(resets - {x}, t, u) == Only(resets, t, u)
  {
  }

  ghost predicate BothEarly(w: World, t: nat, u: nat) {
    W.Good(w) && t in w.resets && u in w.resets && t !in w.base.accounts && u !in w.base.accounts
  }

  /** One of the others is out of the way. */
  ghost predicate OneLess(w: World, v: World, t: nat, u: nat) {
    && BothEarly(v, t, u) && v.tokens == w.tokens && v.base.versions == w.base.versions
    && Only(v.resets, t, u) == Only(w.resets, t, u)
  }

  lemma AbortOne(w: World, t: nat, u: nat, x: nat)
    requires BothEarly(w, t, u) && x in w.base.accounts
    ensures Enabled(w, Base(A.Abort(x))) && OneLess(w, Apply(w, Base(A.Abort(x))), t, u)
    ensures Apply(w, Base(A.Abort(x))).base.accounts.Keys == w.base.accounts.Keys - {x}
  {
    StaysGood(w, Base(A.Abort(x)));
    AbortLeaves(w, x);
    OnlyWithout(w.resets, t, u, x);
  }

  lemma AbortLeaves(w: World, x: nat)
    requires x in w.base.accounts
    ensures Enabled(w, Base(A.Abort(x)))
    ensures var v := Apply(w, Base(A.Abort(x)));
            && v.tokens == w.tokens && v.resets == w.resets - {x} && v.base.versions == w.base.versions
            && v.base.accounts == w.base.accounts - {x}
  {
  }

  lemma RollBackOne(w: World, t: nat, u: nat, x: nat)
    requires BothEarly(w, t, u) && w.base.accounts == map[] && x in w.resets && x != t && x != u
    ensures Enabled(w, Rollback(x)) && OneLess(w, Apply(w, Rollback(x)), t, u)
    ensures Apply(w, Rollback(x)).base.accounts == map[]
    ensures Apply(w, Rollback(x)).resets.Keys == w.resets.Keys - {x}
  {
    StaysGood(w, Rollback(x));
    OnlyWithout(w.resets, t, u, x);
  }

  /** What is left once everybody else has been rolled back. */
  predicate OthersAreGone(w: World, v: World, t: nat, u: nat) {
    Quiet(v) && v.tokens == w.tokens && v.base.versions == w.base.versions && v.resets == Only(w.resets, t, u)
  }

  lemma OneMoreGone(w: World, a: Action, rest: seq<Action>, t: nat, u: nat)
    requires Enabled(w, a) && KeepsBoth(a, t, u) && OneLess(w, Apply(w, a), t, u)
    requires Legal(Apply(w, a), rest) && BothKept(rest, t, u)
    requires OthersAreGone(Apply(w, a), After(Apply(w, a), rest), t, u)
    ensures Legal(w, [a] + rest) && BothKept([a] + rest, t, u) && OthersAreGone(w, After(w, [a] + rest), t, u)
  {
    Unroll(w, a, rest);
  }

  lemma NobodyElse(w: World, t: nat, u: nat)
    requires BothEarly(w, t, u) && w.base.accounts == map[] && forall x :: x in w.resets ==> x == t || x == u
    ensures OthersAreGone(w, w, t, u)
  {
    NobodyOnSessions(w);
    assert Only(w.resets, t, u) == w.resets;
  }

  lemma {:induction false} EarlyGone(w: World, t: nat, u: nat) returns (run: seq<Action>)
    requires BothEarly(w, t, u) && w.base.accounts == map[]
    ensures Legal(w, run) && BothKept(run, t, u) && OthersAreGone(w, After(w, run), t, u)
    decreases |w.resets.Keys|
  {
    if x :| x in w.resets && x != t && x != u {
      RollBackOne(w, t, u, x);
      var rest := EarlyGone(Apply(w, Rollback(x)), t, u);
      OneMoreGone(w, Rollback(x), rest, t, u);
      run := [Rollback(x)] + rest;
    } else {
      NobodyElse(w, t, u);
      run := [];
    }
  }

  lemma {:induction false} OthersGone(w: World, t: nat, u: nat) returns (run: seq<Action>)
    requires BothEarly(w, t, u)
    ensures Legal(w, run) && BothKept(run, t, u) && OthersAreGone(w, After(w, run), t, u)
    decreases |w.base.accounts.Keys|
  {
    if x :| x in w.base.accounts {
      AbortOne(w, t, u, x);
      var rest := OthersGone(Apply(w, Base(A.Abort(x))), t, u);
      OneMoreGone(w, Base(A.Abort(x)), rest, t, u);
      run := [Base(A.Abort(x))] + rest;
    } else {
      assert w.base.accounts == map[];
      run := EarlyGone(w, t, u);
    }
  }

  lemma StaysGood(w: World, a: Action)
    requires W.Good(w) && Enabled(w, a)
    ensures W.Good(Apply(w, a))
  {
    ApplyKeeps(w, a);
    if a.Base? {
      L.ApplyKeeps(w.base, a.step);
    }
  }

  lemma SlotsAreKnown(w: A.World)
    requires L.Inv(w)
    ensures w.sessions.txs.Keys <= w.accounts.Keys
  {
    forall tx | tx in w.sessions.txs
      ensures tx in w.accounts
    {
      assert L.TxOk(w, tx);
    }
  }

  lemma NobodyOnSessions(w: World)
    requires W.Good(w) && w.base.accounts == map[]
    ensures w.base.sessions.txs == map[]
  {
    SlotsAreKnown(w.base);
    assert w.base.sessions.txs.Keys == {};
  }

  // ---------------------------------------------------------------- exactly when

  /** Some continuation carries out both, and rolls back neither. */
  ghost predicate BothGetThrough(w: World, t: nat, u: nat) {
    exists run :: CarriesBoth(w, run, t, u)
  }

  ghost predicate CarriesBoth(w: World, run: seq<Action>, t: nat, u: nat) {
    Legal(w, run) && BothKept(run, t, u) && Base(A.Commit(t)) in run && Base(A.Commit(u)) in run
  }

  lemma {:induction false} SplitAt(w: World, run: seq<Action>, i: nat)
    requires Legal(w, run) && i < |run|
    ensures Legal(w, run[..i]) && Enabled(After(w, run[..i]), run[i])
    decreases i
  {
    if i == 0 {
    } else {
      SplitAt(Apply(w, run[0]), run[1..], i - 1);
      assert run[1..][..i - 1] == run[..i][1..];
    }
  }

  lemma LockedIsTheEnd(w: World, run: seq<Action>, t: nat, u: nat)
    requires Inv(w) && Locked(w, t, u) && Legal(w, run) && BothKept(run, t, u)
    ensures Base(A.Commit(t)) !in run
  {
    forall i | 0 <= i < |run|
      ensures run[i] != Base(A.Commit(t))
    {
      SplitAt(w, run, i);
      assert forall a :: a in run[..i] ==> a in run;
      NeitherGetsThrough(w, run[..i], t, u);
    }
  }

  lemma CarriedOutBoth(w: World, t: nat, u: nat)
    requires W.Good(w) && t != u && t in w.resets && u in w.resets
    requires w.resets[t].stage.Begun? && w.resets[u].stage.Begun? && !OwnIsOpen(w, u)
    ensures BothGetThrough(w, t, u)
  {
    assert ResetOk(w, t) && ResetOk(w, u);
    var clearing := OthersGone(w, t, u);
    var v := After(w, clearing);
    assert v.resets.Keys == {t, u};
    var both := FirstThenOther(v, t, u);
    AfterBoth(w, clearing, both);
    KeptInTurn(clearing, both, t, u);
    assert CarriesBoth(w, clearing + both, t, u);
  }

  lemma EitherOrder(w: World, t: nat, u: nat)
    ensures BothGetThrough(w, u, t) ==> BothGetThrough(w, t, u)
  {
    if BothGetThrough(w, u, t) {
      var run :| CarriesBoth(w, run, u, t);
      assert CarriesBoth(w, run, t, u);
    }
  }

  /**
   * Two resets of one user have each locked the token they presented. Whatever else is open, both can
   * still be carried out exactly when not both of these tokens are open; if both are, every
   * continuation has to roll one of the two back.
   */
  lemma BothGetThroughIff(w: World, t: nat, u: nat)
    requires W.Good(w) && t != u && t in w.resets && u in w.resets && w.resets[t].userId == w.resets[u].userId
    requires w.resets[t].stage.Begun? && w.resets[u].stage.Begun?
    ensures BothGetThrough(w, t, u) <==> !(OwnIsOpen(w, t) && OwnIsOpen(w, u))
  {
    assert ResetOk(w, t) && ResetOk(w, u);
    if OwnIsOpen(w, t) && OwnIsOpen(w, u) {
      if BothGetThrough(w, t, u) {
        var run :| CarriesBoth(w, run, t, u);
        LockedIsTheEnd(w, run, t, u);
      }
    } else if !OwnIsOpen(w, u) {
      CarriedOutBoth(w, t, u);
    } else {
      CarriedOutBoth(w, u, t);
      EitherOrder(w, t, u);
    }
  }
}
