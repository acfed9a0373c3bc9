/**
 * How often one reset token can be accepted: as often as it was read as valid before it was consumed,
 * because that read stands outside the transaction; and that can be any number of times.
 */
module ResetAcceptance {
  import opened Options
  import A = AccountInterleaving
  import M = SessionInterleaving
  import opened ResetInterleaving
  import opened ResetCompletion

  // ---------------------------------------------------------------- a consumed token is never read again

  predicate IsConsumed(w: World, token: nat) {
    token in w.tokens && !w.tokens[token].isOpen
  }

  lemma StepKeepsConsumed(w: World, a: Action, token: nat)
    requires Inv(w) && Enabled(w, a) && IsConsumed(w, token)
    ensures IsConsumed(Apply(w, a), token) && !(a.ReadToken? && a.token == token)
  {
    assert TokenOk(w, token);
  }

  /** Once a token is consumed, by whichever reset of its user, no later request finds it valid. */
  lemma {:induction false} ConsumedIsNeverReadAgain(w: World, run: seq<Action>, token: nat)
    requires Inv(w) && Legal(w, run) && IsConsumed(w, token)
    ensures IsConsumed(After(w, run), token)
    ensures forall a :: a in run ==> !(a.ReadToken? && a.token == token)
    decreases |run|
  {
    if run == [] {
    } else {
      StepKeepsConsumed(w, run[0], token);
      ApplyKeeps(w, run[0]);
      ConsumedIsNeverReadAgain(Apply(w, run[0]), run[1..], token);
      assert forall a :: a in run ==> a == run[0] || a in run[1..];
    }
  }

  /** A committed reset has consumed the token it presented, and every other it had locked. */
  lemma CommitConsumes(w: World, tx: nat, token: nat)
    requires Inv(w) && Enabled(w, Base(A.Commit(tx))) && tx in w.resets && token in w.resets[tx].held
    ensures IsConsumed(Apply(w, Base(A.Commit(tx))), token)
  {
    assert ResetOk(w, tx);
  }

  // ---------------------------------------------------------------- reads and acceptances

  predicate Accepts(w: World, a: Action, token: nat) {
    a.Base? && a.step.Commit? && a.step.tx in w.resets && w.resets[a.step.tx].own == token
  }

  function AcceptCount(w: World, run: seq<Action>, token: nat): nat
    requires Legal(w, run)
    decreases |run|
  {
    if run == [] then 0
    else (if Accepts(w, run[0], token) then 1 else 0) + AcceptCount(Apply(w, run[0]), run[1..], token)
  }

  function ReadCount(run: seq<Action>, token: nat): nat {
    if run == [] then 0
    else (if run[0].ReadToken? && run[0].token == token then 1 else 0) + ReadCount(run[1..], token)
  }

  /** An open reset has presented the token. */
  predicate PresentedIn(resets: map<nat, Reset>, token: nat) {
    exists tx :: tx in resets && resets[tx].own == token
  }

  predicate IsPresented(w: World, token: nat) {
    PresentedIn(w.resets, token)
  }

  /** The reads of the token that have not come to anything yet. */
  function Outstanding(w: World, token: nat): nat {
    w.valid[token] + if IsPresented(w, token) then 1 else 0
  }

  lemma PresentedOnce(w: World, t: nat, u: nat)
    requires Inv(w) && t in w.resets && u in w.resets && t != u
    ensures w.resets[t].own != w.resets[u].own
  {
    assert ResetOk(w, t) && ResetOk(w, u) && Apart(w.resets[t], w.resets[u]);
  }

  lemma ClosedSlot(w: World, tx: nat, token: nat)
    requires Inv(w) && tx in w.resets
    ensures PresentedIn(w.resets - {tx}, token) <==> PresentedIn(w.resets, token) && w.resets[tx].own != token
  {
    if w.resets[tx].own == token {
      forall u | u in w.resets && u != tx
        ensures w.resets[u].own != token
      {
        PresentedOnce(w, tx, u);
      }
    } else if PresentedIn(w.resets, token) {
      var u :| u in w.resets && w.resets[u].own == token;
      assert u in w.resets - {tx};
    }
  }

  lemma NewSlot(resets: map<nat, Reset>, tx: nat, r: Reset, token: nat)
    requires tx in resets ==> resets[tx].own == r.own
    ensures PresentedIn(resets[tx := r], token) <==> PresentedIn(resets, token) || r.own == token
  {
    assert tx in resets[tx := r];
    if u :| u in resets && resets[u].own == token {
      assert u in resets[tx := r] && resets[tx := r][u].own == token;
    }
  }

  lemma NotYetPresented(w: World, tx: nat, token: nat)
    requires Inv(w) && Enabled(w, LockOwn(tx, token))
    ensures !IsPresented(w, token)
  {
    forall u | u in w.resets
      ensures w.resets[u].own != token
    {
      assert ResetOk(w, u);
    }
  }

  function OneIf(b: bool): nat {
    if b then 1 else 0
  }

  predicate Reads(a: Action, token: nat) {
    a.ReadToken? && a.token == token
  }

  lemma LockOwnBalances(w: World, tx: nat, own: nat, token: nat)
    requires Inv(w) && Enabled(w, LockOwn(tx, own))
    ensures Outstanding(Apply(w, LockOwn(tx, own)), token) == Outstanding(w, token)
  {
    NotYetPresented(w, tx, own);
    NewSlot(w.resets, tx, Reset(w.tokens[own].userId, own, Begun, {own}), token);
  }

  lemma BaseBalances(w: World, a: A.Action, token: nat)
    requires Inv(w) && MayStep(w, a)
    ensures Outstanding(BaseStep(w, a), token) + OneIf(Accepts(w, Base(a), token)) <= Outstanding(w, token)
    ensures !a.Abort? ==>
              Outstanding(BaseStep(w, a), token) + OneIf(Accepts(w, Base(a), token)) == Outstanding(w, token)
  {
    if (a.Commit? || a.Abort?) && a.tx in w.resets {
      ClosedSlot(w, a.tx, token);
    } else if a.Abort? {
      assert w.resets - {a.tx} == w.resets;
    }
  }

  lemma StepBalances(w: World, a: Action, token: nat)
    requires Inv(w) && Enabled(w, a)
    ensures Outstanding(Apply(w, a), token) + OneIf(Accepts(w, a, token)) <= Outstanding(w, token) + OneIf(Reads(a, token))
    ensures !GivesUp(a) ==>
              Outstanding(Apply(w, a), token) + OneIf(Accepts(w, a, token)) == Outstanding(w, token) + OneIf(Reads(a, token))
  {
    match a
    case LockOwn(tx, own) => LockOwnBalances(w, tx, own, token);
    case SweepOthers(tx) => NewSlot(w.resets, tx, Apply(w, a).resets[tx], token);
    case LockOther(tx, _) => NewSlot(w.resets, tx, Apply(w, a).resets[tx], token);
    case Rollback(tx) => ClosedSlot(w, tx, token);
    case Base(step) => BaseBalances(w, step, token);
    case _ =>
  }

  /** Every acceptance uses up a read, and without rollbacks every read is either used or outstanding. */
  lemma {:induction false} RunBalances(w: World, run: seq<Action>, token: nat)
    requires Inv(w) && Legal(w, run)
    ensures Outstanding(After(w, run), token) + AcceptCount(w, run, token) <= Outstanding(w, token) + ReadCount(run, token)
    ensures NobodyGivesUp(run) ==>
              Outstanding(After(w, run), token) + AcceptCount(w, run, token)
              == Outstanding(w, token) + ReadCount(run, token)
    decreases |run|
  {
    if run == [] {
    } else {
      StepBalances(w, run[0], token);
      ApplyKeeps(w, run[0]);
      RunBalances(Apply(w, run[0]), run[1..], token);
      assert NobodyGivesUp(run) ==> NobodyGivesUp(run[1..]) && !GivesUp(run[0]);
    }
  }

  /** From the empty tables on, a token is accepted at most as often as it was read as valid. */
  lemma AcceptedAtMostRead(run: seq<Action>, token: nat)
    requires Legal(START, run)
    ensures AcceptCount(START, run, token) <= ReadCount(run, token)
  {
    RunBalances(START, run, token);
  }

  // ---------------------------------------------------------------- any number of times

  lemma {:induction false} ReadsMany(w: World, token: nat, n: nat) returns (run: seq<Action>)
    requires token in w.tokens && w.tokens[token].isOpen && w.tokens[token].expiresAt > 0
    ensures Legal(w, run) && NobodyGivesUp(run)
    ensures var v := After(w, run);
            v.base == w.base && v.tokens == w.tokens && v.resets == w.resets && v.valid[token] == w.valid[token] + n
    decreases n
  {
    if n == 0 {
      run := [];
    } else {
      var a := ReadToken(token, 0);
      var rest := ReadsMany(Apply(w, a), token, n - 1);
      Unroll(w, a, rest);
      run := [a] + rest;
    }
  }

  /** Every read of the token is carried out, one reset after the other. */
  lemma {:induction false} CarriesAll(w: World, token: nat, n: nat) returns (run: seq<Action>)
    requires Inv(w) && Quiet(w) && w.resets == map[] && token in w.tokens && w.valid[token] == n
    ensures Legal(w, run) && NobodyGivesUp(run) && Outstanding(After(w, run), token) == 0
    decreases n
  {
    if n == 0 {
      run := [];
    } else {
      var a := LockOwn(0, token);
      assert TokenOk(w, token);
      var v := Apply(w, a);
      ApplyKeeps(w, a);
      var one := Carries(v, 0);
      LegalKeeps(v, one);
      assert v.resets - {0} == map[];
      var rest := CarriesAll(After(v, one), token, n - 1);
      AfterBoth(v, one, rest);
      Unroll(w, a, one + rest);
      run := [a] + (one + rest);
    }
  }

  lemma {:induction false} AcceptCountInTurn(w: World, s: seq<Action>, t: seq<Action>, token: nat)
    requires Legal(w, s) && Legal(After(w, s), t)
    ensures Legal(w, s + t)
    ensures AcceptCount(w, s + t, token) == AcceptCount(w, s, token) + AcceptCount(After(w, s), t, token)
    decreases |s|
  {
    AfterBoth(w, s, t);
    if s == [] {
      assert s + t == t;
    } else {
      AcceptCountInTurn(Apply(w, s[0]), s[1..], t, token);
      assert (s + t)[1..] == s[1..] + t;
    }
  }

  /** One user, one open token. */
  function OneToken(): World {
    World(A.World(M.START, map[0 := 0], map[], {}, {}), map[0 := Token(0, 10, true)], map[], multiset{}, 1)
  }

  lemma OneTokenIsReached() returns (run: seq<Action>)
    ensures Legal(START, run) && After(START, run) == OneToken()
  {
    var a, b := Base(A.SignUp(0)), RequestReset(0, 10);
    Unroll(Apply(START, a), b, []);
    Unroll(START, a, [b] + []);
    run := [a] + ([b] + []);
  }

  /** And no number is too large: confirmations that read it in time are all accepted, one after the other. */
  lemma AcceptedAnyNumberOfTimes(n: nat) returns (run: seq<Action>)
    ensures Legal(START, run) && AcceptCount(START, run, 0) >= n
  {
    var asked := OneTokenIsReached();
    LegalKeeps(START, asked);
    var reading := ReadsMany(OneToken(), 0, n);
    LegalKeeps(OneToken(), reading);
    var w := After(OneToken(), reading);
    var carried := CarriesAll(w, 0, n);
    RunBalances(w, carried, 0);
    AcceptCountInTurn(OneToken(), reading, carried, 0);
    AfterBoth(OneToken(), reading, carried);
    AcceptCountInTurn(START, asked, reading + carried, 0);
    run := asked + (reading + carried);
  }

  // ---------------------------------------------------------------- the tokens swept along

  /** What a reset has locked besides the token it presented is still open. */
  predicate SweepsOpenOnes(w: World) {
    forall tx, id :: tx in w.resets && id in w.resets[tx].held && id != w.resets[tx].own ==>
                       id in w.tokens && w.tokens[id].isOpen
  }

  lemma CommitLeavesOpen(w: World, a: A.Action)
    requires Inv(w) && MayStep(w, a) && SweepsOpenOnes(w)
    ensures SweepsOpenOnes(BaseStep(w, a))
  {
    var w' := BaseStep(w, a);
    forall tx, id | tx in w'.resets && id in w'.resets[tx].held && id != w'.resets[tx].own
      ensures id in w'.tokens && w'.tokens[id].isOpen
    {
      assert tx in w.resets && w'.resets[tx] == w.resets[tx];
      if a.Commit? && a.tx in w.resets {
        assert Apart(w.resets[tx], w.resets[a.tx]);
      }
    }
  }

  lemma StepSweepsOpen(w: World, a: Action)
    requires Inv(w) && Enabled(w, a) && SweepsOpenOnes(w)
    ensures SweepsOpenOnes(Apply(w, a))
  {
    match a
    case Base(step) => CommitLeavesOpen(w, step);
    case RequestReset(_, _) =>
      assert w.nextToken in w.tokens ==> TokenOk(w, w.nextToken);
    case _ =>
  }

  lemma {:induction false} RunSweepsOpen(w: World, run: seq<Action>)
    requires Inv(w) && Legal(w, run) && SweepsOpenOnes(w)
    ensures SweepsOpenOnes(After(w, run))
    decreases |run|
  {
    if run == [] {
    } else {
      StepSweepsOpen(w, run[0]);
      ApplyKeeps(w, run[0]);
      RunSweepsOpen(Apply(w, run[0]), run[1..]);
    }
  }

  /** In every interleaving a token that a reset sweeps along was open to its commit: nobody consumed it twice. */
  lemma SweptWasOpen(run: seq<Action>, tx: nat, id: nat)
    requires Legal(START, run) && Enabled(After(START, run), Base(A.Commit(tx))) && tx in After(START, run).resets
    requires id in After(START, run).resets[tx].held && id != After(START, run).resets[tx].own
    ensures id in After(START, run).tokens && After(START, run).tokens[id].isOpen
    ensures IsConsumed(Apply(After(START, run), Base(A.Commit(tx))), id)
  {
    RunSweepsOpen(START, run);
    LegalKeeps(START, run);
    CommitConsumes(After(START, run), tx, id);
  }
}
