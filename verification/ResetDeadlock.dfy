/**
 * Two resets of one user that each present a token of their own: a run in which they wait for each
 * other, and exactly when two that have begun can both be carried out.
 */
module ResetDeadlock {
  import opened Options
  import opened SessionRows
  import M = SessionInterleaving
  import A = AccountInterleaving
  import opened ResetInterleaving
  import W = ResetWaits

  /** A reset of the same user that wants, or will want once it takes its snapshot, the token `u` presented. */
  predicate WillWant(w: World, t: nat, u: nat) {
    && t in w.resets && u in w.resets && t !in w.base.accounts
    && w.resets[t].userId == w.resets[u].userId
    && (w.resets[t].stage.Sweeping? ==> w.resets[u].own in w.resets[t].stage.pending)
  }

  predicate OwnIsOpen(w: World, t: nat)
    requires t in w.resets
  {
    w.resets[t].own in w.tokens && w.tokens[w.resets[t].own].isOpen
  }

  /** Each holds the open token the other has to lock. */
  predicate Locked(w: World, t: nat, u: nat) {
    t != u && WillWant(w, t, u) && WillWant(w, u, t) && OwnIsOpen(w, t) && OwnIsOpen(w, u)
  }

  /** Neither of the two is rolled back. */
  predicate KeepsBoth(a: Action, t: nat, u: nat) {
    a != Rollback(t) && a != Rollback(u) && a != Base(A.Abort(t)) && a != Base(A.Abort(u))
  }

  lemma HeldByOne(w: World, t: nat, u: nat)
    requires Inv(w) && t in w.resets && u in w.resets && t != u
    ensures w.resets[u].own in w.resets[u].held && w.resets[u].own !in w.resets[t].held
    ensures w.resets[t].own != w.resets[u].own
  {
    assert ResetOk(w, t) && ResetOk(w, u) && Apart(w.resets[t], w.resets[u]);
  }

  /** The slot and the own token of a reset outlive every step that is not its own. */
  lemma OwnStaysOpen(w: World, a: Action, t: nat)
    requires Inv(w) && Enabled(w, a) && t in w.resets && t !in w.base.accounts && OwnIsOpen(w, t)
    requires a != Rollback(t)
    ensures t in Apply(w, a).resets && Apply(w, a).resets[t].own == w.resets[t].own
    ensures Apply(w, a).resets[t].userId == w.resets[t].userId && OwnIsOpen(Apply(w, a), t)
  {
    assert ResetOk(w, t);
    if a.Base? && a.step.Commit? && a.step.tx in w.resets {
      HeldByOne(w, a.step.tx, t);
    }
  }

  predicate StillWanted(w: World, t: nat, own: nat) {
    && t !in w.base.accounts && t in w.resets
    && (w.resets[t].stage.Sweeping? ==> own in w.resets[t].stage.pending)
  }

  lemma SweepWants(w: World, t: nat, u: nat)
    requires Inv(w) && Enabled(w, SweepOthers(t)) && Locked(w, t, u)
    ensures StillWanted(Apply(w, SweepOthers(t)), t, w.resets[u].own)
  {
    HeldByOne(w, t, u);
    assert ResetOk(w, u);
  }

  /** The row the other has locked is never the one granted next. */
  lemma LockingWants(w: World, t: nat, token: nat, u: nat)
    requires Inv(w) && Enabled(w, LockOther(t, token)) && Locked(w, t, u)
    ensures StillWanted(LockOtherStep(w, t, token), t, w.resets[u].own)
  {
    HeldByOne(w, t, u);
  }

  lemma BaseWants(w: World, a: A.Action, t: nat, u: nat)
    requires Inv(w) && MayStep(w, a) && Locked(w, t, u)
    ensures StillWanted(BaseStep(w, a), t, w.resets[u].own)
  {
    assert ResetOk(w, t);
    assert SlotOf(a) != Some(t);
    OthersLeft(w.base, a, t);
  }

  lemma StillWants(w: World, a: Action, t: nat, u: nat)
    requires Inv(w) && Enabled(w, a) && Locked(w, t, u) && KeepsBoth(a, t, u)
    ensures StillWanted(Apply(w, a), t, w.resets[u].own)
  {
    match a
    case SweepOthers(tx) => if tx == t { SweepWants(w, t, u); }
    case LockOther(tx, token) => if tx == t { LockingWants(w, t, token, u); }
    case Base(step) => BaseWants(w, step, t, u);
    case _ =>
  }

  lemma LockedStays(w: World, a: Action, t: nat, u: nat)
    requires Inv(w) && Enabled(w, a) && Locked(w, t, u) && KeepsBoth(a, t, u)
    ensures Locked(Apply(w, a), t, u)
  {
    OwnStaysOpen(w, a, t);
    OwnStaysOpen(w, a, u);
    StillWants(w, a, t, u);
    StillWants(w, a, u, t);
  }

  /**
   * Once two resets of one user hold open tokens of their own, each wanting the other's, neither ever
   * comes to the row of their user unless one of them is rolled back: not in any interleaving.
   */
  lemma {:induction false} NeitherGetsThrough(w: World, run: seq<Action>, t: nat, u: nat)
    requires Inv(w) && Legal(w, run) && Locked(w, t, u)
    requires forall a :: a in run ==> KeepsBoth(a, t, u)
    ensures Locked(After(w, run), t, u)
    ensures t !in After(w, run).base.accounts && u !in After(w, run).base.accounts
    decreases |run|
  {
    if run == [] {
    } else {
      assert run[0] in run && forall a :: a in run[1..] ==> a in run;
      LockedStays(w, run[0], t, u);
      ApplyKeeps(w, run[0]);
      NeitherGetsThrough(Apply(w, run[0]), run[1..], t, u);
    }
  }

  // ---------------------------------------------------------------- a run in which two wait for each other

  function Users(): A.World {
    A.World(M.START, map[0 := 0], map[], {}, {})
  }

  /** User 0 has asked for two tokens. */
  function TwoTokens(): Tokens {
    map[0 := Token(0, 10, true), 1 := Token(0, 10, true)]
  }

  function Asked(): World {
    World(Users(), TwoTokens(), map[], multiset{}, 2)
  }

  /** Both were read as valid, and the reset of the first has locked it. */
  function FirstBegun(): World {
    World(Users(), TwoTokens(), map[1 := Reset(0, 0, Begun, {0})], multiset{1}, 2)
  }

  /** Each reset has its own token and has the other's still to lock. */
  function Facing(): World {
    World(Users(), TwoTokens(), map[1 := Reset(0, 0, Sweeping({1}), {0}), 2 := Reset(0, 1, Sweeping({0}), {1})],
          multiset{}, 2)
  }

  function Asking(): seq<Action> {
    [Base(A.SignUp(0)), RequestReset(0, 10), RequestReset(0, 10)]
  }

  function Beginning(): seq<Action> {
    [ReadToken(0, 0), ReadToken(1, 0), LockOwn(1, 0)]
  }

  function Sweeps(): seq<Action> {
    [LockOwn(2, 1), SweepOthers(1), SweepOthers(2)]
  }

  lemma AskedIsReached()
    ensures Legal(START, Asking()) && After(START, Asking()) == Asked()
  {
    Three(START, Base(A.SignUp(0)), RequestReset(0, 10), RequestReset(0, 10));
  }

  lemma FirstBegunIsReached()
    ensures Legal(Asked(), Beginning()) && After(Asked(), Beginning()) == FirstBegun()
  {
    Three(Asked(), ReadToken(0, 0), ReadToken(1, 0), LockOwn(1, 0));
  }

  lemma FacingIsReached()
    ensures Legal(FirstBegun(), Sweeps()) && After(FirstBegun(), Sweeps()) == Facing()
  {
    assert OthersOf(TwoTokens(), 0, 0) == {1} && OthersOf(TwoTokens(), 0, 1) == {0};
    Three(FirstBegun(), LockOwn(2, 1), SweepOthers(1), SweepOthers(2));
  }

  /**
   * From the empty tables on: two resets of one user with a token each wait for each other, with no
   * session, no reuse detection and nobody at the row of the user; and neither is ever carried out
   * unless the other is rolled back.
   */
  lemma TwoResetsDeadlock()
    ensures var run := Asking() + (Beginning() + Sweeps());
            && Legal(START, run) && After(START, run) == Facing()
            && W.TokenWait(Facing(), 1, 2) && W.TokenWait(Facing(), 2, 1) && Locked(Facing(), 1, 2)
            && W.TokenPath(Facing(), [1, 2, 1]) && W.Closed([1, 2, 1])
            && Facing().base.accounts == map[] && Facing().base.sessions == M.START
  {
    AskedIsReached();
    FirstBegunIsReached();
    FacingIsReached();
    InTurn(Asked(), Beginning(), FirstBegun(), Sweeps(), Facing());
    InTurn(START, Asking(), Asked(), Beginning() + Sweeps(), Facing());
    assert W.WaitsForToken(Facing(), 1, 2, 1) && W.WaitsForToken(Facing(), 2, 1, 0);
  }
}
