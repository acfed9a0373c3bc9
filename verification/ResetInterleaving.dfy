/**
 * Password resets with the rows of `password_reset_tokens` they lock: the validity read stands outside
 * the transaction, which consumes the presented token, then every other open token of the user row by
 * row, and goes on as a password write.
 */
module ResetInterleaving {
  import opened Options
  import M = SessionInterleaving
  import A = AccountInterleaving

  /** A row of `password_reset_tokens`; it is open while `consumed_at` is null. */
  datatype Token = Token(userId: nat, expiresAt: int, isOpen: bool)

  type Tokens = map<nat, Token>

  /** `Sweeping(pending)` has taken the snapshot of the second UPDATE, and has `pending` still to lock. */
  datatype Stage = Begun | Sweeping(pending: set<nat>)

  /** An open reset transaction: the token it presented, and the token rows it has locked and consumed. */
  datatype Reset = Reset(userId: nat, own: nat, stage: Stage, held: set<nat>)

  /** The machine without token rows, the committed tokens, the open resets, and the validity reads not yet used. */
  datatype World = World(
    base: A.World,
    tokens: Tokens,
    resets: map<nat, Reset>,
    valid: multiset<nat>,
    nextToken: nat)

  const START := World(A.START, map[], map[], multiset{}, 0)

  /** `ReadToken` is the validity read, `LockOwn` the first UPDATE, `SweepOthers` the snapshot of the second. */
  datatype Action =
    | RequestReset(userId: nat, expiresAt: int)
    | ReadToken(token: nat, now: int)
    | LockOwn(tx: nat, token: nat)
    | SweepOthers(tx: nat)
    | LockOther(tx: nat, token: nat)
    | Rollback(tx: nat)
    | Base(step: A.Action)

  /** No other reset holds the lock on the token's row. */
  predicate TokenFree(w: World, tx: nat, token: nat) {
    forall u :: u in w.resets && u != tx ==> token !in w.resets[u].held
  }

  /** A reset comes to the row of its user when all the tokens are done; nobody else uses its slot. */
  predicate MayStep(w: World, a: A.Action) {
    && A.Enabled(w.base, a)
    && match a
       case BumpFirst(tx, userId, sv) =>
         if sv.Some? then tx !in w.resets
         else tx in w.resets && w.resets[tx].stage == Sweeping({}) && w.resets[tx].userId == userId
       case Inner(step) => (step.Present? || step.BeginLogout?) ==> step.tx !in w.resets
       case _ => true
  }

  predicate Enabled(w: World, a: Action) {
    match a
    case RequestReset(userId, _) => userId in w.base.versions
    case ReadToken(token, now) => token in w.tokens && w.tokens[token].isOpen && w.tokens[token].expiresAt > now
    case LockOwn(tx, token) =>
      && tx !in w.resets && tx !in w.base.accounts && tx !in w.base.sessions.txs
      && token in w.valid && token in w.tokens && TokenFree(w, tx, token)
    case SweepOthers(tx) => tx in w.resets && w.resets[tx].stage.Begun?
    case LockOther(tx, token) =>
      && tx in w.resets && w.resets[tx].stage.Sweeping? && token in w.resets[tx].stage.pending
      && token in w.tokens && TokenFree(w, tx, token)
    case Rollback(tx) => tx in w.resets && tx !in w.base.accounts
    case Base(step) => MayStep(w, step)
  }

  // ---------------------------------------------------------------- what a step does

  function Put(w: World, tx: nat, r: Reset): World {
    w.(resets := w.resets[tx := r])
  }

  /** `userId = … AND consumed_at IS NULL`, after the first UPDATE has consumed the presented token. */
  function OthersOf(tokens: Tokens, userId: nat, own: nat): set<nat> {
    set id | id in tokens && tokens[id].userId == userId && tokens[id].isOpen && id != own
  }

  /** The row is re-read once its lock is granted, and skipped if somebody has consumed it meanwhile. */
  function LockOtherStep(w: World, tx: nat, token: nat): World
    requires Enabled(w, LockOther(tx, token))
  {
    var r := w.resets[tx];
    Put(w, tx, r.(stage := Sweeping(r.stage.pending - {token}),
                  held := if w.tokens[token].isOpen then r.held + {token} else r.held))
  }

  function Consumed(tokens: Tokens, ids: set<nat>): Tokens {
    map id | id in tokens :: if id in ids then tokens[id].(isOpen := false) else tokens[id]
  }

  function BaseStep(w: World, a: A.Action): World
    requires MayStep(w, a)
  {
    var w' := w.(base := A.Apply(w.base, a));
    match a
    case Commit(tx) =>
      if tx in w.resets then w'.(tokens := Consumed(w.tokens, w.resets[tx].held), resets := w.resets - {tx}) else w'
    case Abort(tx) => w'.(resets := w.resets - {tx})
    case _ => w'
  }

  function Apply(w: World, a: Action): World
    requires Enabled(w, a)
  {
    match a
    case RequestReset(userId, expiresAt) =>
      w.(tokens := w.tokens[w.nextToken := Token(userId, expiresAt, true)], nextToken := w.nextToken + 1)
    case ReadToken(token, _) => w.(valid := w.valid + multiset{token})
    case LockOwn(tx, token) =>
      Put(w, tx, Reset(w.tokens[token].userId, token, Begun, {token})).(valid := w.valid - multiset{token})
    case SweepOthers(tx) =>
      Put(w, tx, w.resets[tx].(stage := Sweeping(OthersOf(w.tokens, w.resets[tx].userId, w.resets[tx].own))))
    case LockOther(tx, token) => LockOtherStep(w, tx, token)
    case Rollback(tx) => w.(resets := w.resets - {tx})
    case Base(step) => BaseStep(w, step)
  }

  ghost predicate Legal(w: World, run: seq<Action>)
    decreases |run|
  {
    run == [] || (Enabled(w, run[0]) && Legal(Apply(w, run[0]), run[1..]))
  }

  function After(w: World, run: seq<Action>): World
    requires Legal(w, run)
    decreases |run|
  {
    if run == [] then w else After(Apply(w, run[0]), run[1..])
  }

  lemma Unroll(w: World, a: Action, rest: seq<Action>)
    requires Enabled(w, a) && Legal(Apply(w, a), rest)
    ensures Legal(w, [a] + rest) && After(w, [a] + rest) == After(Apply(w, a), rest)
  {
    assert ([a] + rest)[1..] == rest;
  }

  lemma {:induction false} AfterBoth(w: World, s: seq<Action>, t: seq<Action>)
    requires Legal(w, s) && Legal(After(w, s), t)
    ensures Legal(w, s + t) && After(w, s + t) == After(After(w, s), t)
    decreases |s|
  {
    if s == [] {
      assert s + t == t;
    } else {
      AfterBoth(Apply(w, s[0]), s[1..], t);
      Unroll(w, s[0], s[1..] + t);
      assert [s[0]] + (s[1..] + t) == s + t;
    }
  }

  lemma Three(w: World, a: Action, b: Action, c: Action)
    requires Enabled(w, a) && Enabled(Apply(w, a), b) && Enabled(Apply(Apply(w, a), b), c)
    ensures Legal(w, [a, b, c]) && After(w, [a, b, c]) == Apply(Apply(Apply(w, a), b), c)
  {
    var v := Apply(Apply(w, a), b);
    Unroll(v, c, []);
    Unroll(Apply(w, a), b, [c]);
    Unroll(w, a, [b, c]);
    assert [c] + [] == [c] && [b] + [c] == [b, c] && [a] + [b, c] == [a, b, c];
  }

  lemma InTurn(w: World, s: seq<Action>, middle: World, t: seq<Action>, end: World)
    requires Legal(w, s) && After(w, s) == middle && Legal(middle, t) && After(middle, t) == end
    ensures Legal(w, s + t) && After(w, s + t) == end
  {
    AfterBoth(w, s, t);
  }

  // ---------------------------------------------------------------- the rest is the smaller machine

  /** Whatever the token rows go through beside it, the rest goes through alone. */
  lemma {:induction false} BaseRunsAlone(w: World, run: seq<Action>) returns (alone: seq<A.Action>)
    requires Legal(w, run)
    ensures A.Legal(w.base, alone) && A.After(w.base, alone) == After(w, run).base
    decreases |run|
  {
    if run == [] {
      alone := [];
    } else {
      var rest := BaseRunsAlone(Apply(w, run[0]), run[1..]);
      match run[0]
      case Base(step) =>
        A.Unroll(w.base, step, rest);
        alone := [step] + rest;
      case _ => alone := rest;
    }
  }

  // ---------------------------------------------------------------- the invariant

  predicate ResetOk(w: World, tx: nat)
    requires tx in w.resets
  {
    var r := w.resets[tx];
    && r.own in r.held && r.userId in w.base.versions && (r.stage.Begun? ==> r.held == {r.own})
    && (forall id :: id in r.held ==> id in w.tokens && w.tokens[id].userId == r.userId)
    && (r.stage.Sweeping? ==>
          forall id :: id in r.stage.pending ==> id in w.tokens && w.tokens[id].userId == r.userId)
    && (tx in w.base.accounts ==>
          && r.stage == Sweeping({})
          && w.base.accounts[tx].scope.WholeUser? && w.base.accounts[tx].userId == r.userId)
    && (tx !in w.base.accounts ==> tx !in w.base.sessions.txs)
  }

  predicate Apart(a: Reset, b: Reset) {
    a.held !! b.held
  }

  predicate TokenOk(w: World, id: nat)
    requires id in w.tokens
  {
    id < w.nextToken && w.tokens[id].userId in w.base.versions
  }

  predicate Inv(w: World) {
    && (forall id :: id in w.tokens ==> TokenOk(w, id))
    && (forall id :: id in w.valid ==> id in w.tokens)
    && (forall tx :: tx in w.resets ==> ResetOk(w, tx))
    && (forall t, u :: t in w.resets && u in w.resets && t != u ==> Apart(w.resets[t], w.resets[u]))
  }

  /** Steps that change one reset's slot and no token. */
  lemma PutKeeps(w: World, tx: nat, r: Reset)
    requires Inv(w) && tx in w.resets && r.userId == w.resets[tx].userId
    requires ResetOk(Put(w, tx, r), tx)
    requires forall u :: u in w.resets && u != tx ==> Apart(r, w.resets[u])
    ensures Inv(Put(w, tx, r))
  {
    var w' := Put(w, tx, r);
    forall u | u in w'.resets
      ensures ResetOk(w', u)
    {
      if u != tx {
        assert ResetOk(w, u);
      }
    }
    assert forall id :: id in w.tokens ==> TokenOk(w, id) && TokenOk(w', id);
  }

  lemma LockOwnKeeps(w: World, tx: nat, token: nat)
    requires Inv(w) && Enabled(w, LockOwn(tx, token))
    ensures Inv(Apply(w, LockOwn(tx, token)))
  {
    var w' := Apply(w, LockOwn(tx, token));
    assert TokenOk(w, token);
    forall u | u in w'.resets
      ensures ResetOk(w', u)
    {
      if u != tx {
        assert ResetOk(w, u);
      }
    }
    assert forall id :: id in w.tokens ==> TokenOk(w, id) && TokenOk(w', id);
  }

  lemma SweepKeeps(w: World, tx: nat)
    requires Inv(w) && Enabled(w, SweepOthers(tx))
    ensures Inv(Apply(w, SweepOthers(tx)))
  {
    assert ResetOk(w, tx);
    var r := Apply(w, SweepOthers(tx)).resets[tx];
    forall u | u in w.resets && u != tx
      ensures Apart(r, w.resets[u])
    {
      assert Apart(w.resets[tx], w.resets[u]);
    }
    PutKeeps(w, tx, r);
  }

  lemma LockOtherKeeps(w: World, tx: nat, token: nat)
    requires Inv(w) && Enabled(w, LockOther(tx, token))
    ensures Inv(LockOtherStep(w, tx, token))
  {
    assert ResetOk(w, tx);
    var r := LockOtherStep(w, tx, token).resets[tx];
    forall u | u in w.resets && u != tx
      ensures Apart(r, w.resets[u])
    {
      assert Apart(w.resets[tx], w.resets[u]);
    }
    PutKeeps(w, tx, r);
  }

  /** The slot a step of the smaller machine is about. */
  function SlotOf(a: A.Action): Option<nat> {
    match a
    case Inner(step) => if step.Issue? then None else Some(step.tx)
    case BumpAfterReuse(tx) => Some(tx)
    case BumpFirst(tx, _, _) => Some(tx)
    case WriteSessions(tx, _) => Some(tx)
    case Commit(tx) => Some(tx)
    case Abort(tx) => Some(tx)
    case _ => None
  }

  /** What a step leaves as it was: other slots, and the users there are. */
  predicate Leaves(w: A.World, w': A.World, u: nat) {
    && (u in w.accounts <==> u in w'.accounts) && (u in w.accounts ==> w'.accounts[u] == w.accounts[u])
    && (u in w.sessions.txs <==> u in w'.sessions.txs) && w.versions.Keys <= w'.versions.Keys
  }

  lemma OthersLeft(w: A.World, a: A.Action, u: nat)
    requires A.Enabled(w, a) && SlotOf(a) != Some(u)
    ensures Leaves(w, A.Apply(w, a), u)
  {
  }

  lemma OtherResetStays(w: World, a: A.Action, w': World, u: nat)
    requires MayStep(w, a) && w' == BaseStep(w, a) && u in w.resets && u in w'.resets && ResetOk(w, u)
    requires SlotOf(a) != Some(u)
    ensures ResetOk(w', u)
  {
    OthersLeft(w.base, a, u);
  }

  lemma OwnResetStays(w: World, a: A.Action, w': World, tx: nat)
    requires MayStep(w, a) && w' == BaseStep(w, a) && tx in w.resets && tx in w'.resets && ResetOk(w, tx)
    requires SlotOf(a) == Some(tx)
    ensures ResetOk(w', tx)
  {
  }

  lemma BaseKeeps(w: World, a: A.Action, w': World)
    requires Inv(w) && MayStep(w, a) && w' == BaseStep(w, a)
    ensures Inv(w')
  {
    forall u | u in w'.resets
      ensures ResetOk(w', u)
    {
      assert ResetOk(w, u);
      if SlotOf(a) == Some(u) {
        OwnResetStays(w, a, w', u);
      } else {
        OtherResetStays(w, a, w', u);
      }
    }
    forall id | id in w'.tokens
      ensures TokenOk(w', id)
    {
      assert TokenOk(w, id);
      UsersStay(w.base, a, w.tokens[id].userId);
    }
  }

  lemma UsersStay(w: A.World, a: A.Action, userId: nat)
    requires A.Enabled(w, a) && userId in w.versions
    ensures userId in A.Apply(w, a).versions
  {
  }

  lemma OutsideKeeps(w: World, a: Action)
    requires Inv(w) && Enabled(w, a) && (a.RequestReset? || a.ReadToken? || a.Rollback?)
    ensures Inv(Apply(w, a))
  {
    var w' := Apply(w, a);
    forall u | u in w'.resets
      ensures ResetOk(w', u)
    {
      assert ResetOk(w, u);
    }
    assert forall id :: id in w.tokens ==> TokenOk(w, id) && TokenOk(w', id);
  }

  lemma ApplyKeeps(w: World, a: Action)
    requires Inv(w) && Enabled(w, a)
    ensures Inv(Apply(w, a))
  {
    match a
    case LockOwn(tx, token) => LockOwnKeeps(w, tx, token);
    case SweepOthers(tx) => SweepKeeps(w, tx);
    case LockOther(tx, token) => LockOtherKeeps(w, tx, token);
    case Base(step) => BaseKeeps(w, step, BaseStep(w, step));
    case _ => OutsideKeeps(w, a);
  }

  lemma {:induction false} LegalKeeps(w: World, run: seq<Action>)
    requires Inv(w) && Legal(w, run)
    ensures Inv(After(w, run))
    decreases |run|
  {
    if run == [] {
    } else {
      ApplyKeeps(w, run[0]);
      LegalKeeps(Apply(w, run[0]), run[1..]);
    }
  }
}
