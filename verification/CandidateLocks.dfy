/**
 * Row locks of the two write paths over `pending_registrations`, `verify` and `insertCandidate`, with any
 * number of transactions open at once: nobody ever waits in a circle.
 */
module CandidateLocks {
  /** The order both locking SELECTs use: `created_at ASC, id ASC`. */
  datatype Key = Key(createdAt: int, id: nat)

  predicate Less(a: Key, b: Key) {
    a.createdAt < b.createdAt || (a.createdAt == b.createdAt && a.id < b.id)
  }

  /** Both paths take their group first; `verify` may then create the account, and either may write. */
  datatype Phase =
    | Acquiring(wanted: seq<Key>)
    | CreatingAccount
    | Writing(targets: set<Key>)

  /** `removed` and `added` are this transaction's own writes, invisible to others until it commits. */
  datatype Tx = Tx(verifies: bool, email: nat, phase: Phase, held: set<Key>, ownsAddress: bool,
                   removed: set<Key>, added: set<Key>)

  /** Committed candidate rows with their address, addresses that own an account, open transactions. */
  datatype World = World(rows: map<Key, nat>, accounts: set<nat>, txs: map<nat, Tx>)

  datatype Action =
    | Begin(tx: nat, verifies: bool, email: nat, group: seq<Key>)
    | Take(tx: nat)
    | Charge(tx: nat, live: set<Key>)
    | Materialise(tx: nat)
    | CreateAccount(tx: nat)
    | Insert(tx: nat, expired: set<Key>, row: Key)
    | Write(tx: nat, row: Key)
    | Commit(tx: nat)
    | Abort(tx: nat)

  predicate Free(w: World, tx: nat, row: Key) {
    forall u :: u in w.txs && u != tx ==> row !in w.txs[u].held
  }

  predicate Sorted(s: seq<Key>) {
    forall i, j :: 0 <= i < j < |s| ==> Less(s[i], s[j])
  }

  /** The address's rows, all of them, in lock order. */
  predicate IsGroup(w: World, email: nat, s: seq<Key>) {
    && Sorted(s)
    && (forall k :: k in s ==> k in w.rows && w.rows[k] == email)
    && (forall k :: k in w.rows && w.rows[k] == email ==> k in s)
  }

  /** No row, lock or pending lock anywhere carries this key: candidate ids are fresh. */
  predicate Unused(w: World, row: Key) {
    && row !in w.rows
    && forall u :: u in w.txs ==> row !in w.txs[u].held && (w.txs[u].phase.Acquiring? ==> row !in w.txs[u].phase.wanted)
  }

  /** The group is locked and nothing is decided yet. */
  predicate Holds(w: World, tx: nat) {
    tx in w.txs && w.txs[tx].phase == Acquiring([])
  }

  predicate Enabled(w: World, a: Action) {
    match a
    case Begin(tx, _, email, group) => tx !in w.txs && IsGroup(w, email, group)
    case Take(tx) =>
      tx in w.txs && w.txs[tx].phase.Acquiring? && w.txs[tx].phase.wanted != [] && Free(w, tx, w.txs[tx].phase.wanted[0])
    case Charge(tx, live) => Holds(w, tx) && w.txs[tx].verifies && live <= w.txs[tx].held
    case Materialise(tx) => Holds(w, tx) && w.txs[tx].verifies
    case CreateAccount(tx) =>
      && tx in w.txs && w.txs[tx].phase.CreatingAccount?
      && forall u :: u in w.txs && u != tx && w.txs[u].email == w.txs[tx].email ==> !w.txs[u].ownsAddress
    case Insert(tx, expired, row) =>
      Holds(w, tx) && !w.txs[tx].verifies && expired <= w.txs[tx].held && Unused(w, row)
    case Write(tx, row) =>
      tx in w.txs && w.txs[tx].phase.Writing? && row in w.txs[tx].phase.targets && Free(w, tx, row)
    case Commit(tx) =>
      tx in w.txs && (w.txs[tx].phase == Acquiring([]) || w.txs[tx].phase == Writing({}))
    case Abort(tx) => tx in w.txs
  }

  function Put(w: World, tx: nat, t: Tx): World {
    w.(txs := w.txs[tx := t])
  }

  /** A locked row that a concurrent commit has removed meanwhile is skipped, as EvalPlanQual does. */
  function TakeStep(w: World, tx: nat): World
    requires Enabled(w, Take(tx))
  {
    var t := w.txs[tx];
    var k := t.phase.wanted[0];
    Put(w, tx, t.(phase := Acquiring(t.phase.wanted[1..]), held := if k in w.rows then t.held + {k} else t.held))
  }

  /** The account row, or the unique violation that ends the transaction; then the group is deleted. */
  function CreateAccountStep(w: World, tx: nat): World
    requires Enabled(w, CreateAccount(tx))
  {
    var t := w.txs[tx];
    if t.email in w.accounts then w.(txs := w.txs - {tx})
    else Put(w, tx, t.(phase := Writing(t.held), ownsAddress := true, removed := t.held))
  }

  function CommitStep(w: World, tx: nat): World
    requires Enabled(w, Commit(tx))
  {
    var t := w.txs[tx];
    World((w.rows - t.removed) + map k | k in t.added :: t.email,
          if t.ownsAddress then w.accounts + {t.email} else w.accounts,
          w.txs - {tx})
  }

  function Apply(w: World, a: Action): World
    requires Enabled(w, a)
  {
    match a
    case Begin(tx, verifies, email, group) => Put(w, tx, Tx(verifies, email, Acquiring(group), {}, false, {}, {}))
    case Take(tx) => TakeStep(w, tx)
    case Charge(tx, live) => Put(w, tx, w.txs[tx].(phase := Writing(live)))
    case Materialise(tx) => Put(w, tx, w.txs[tx].(phase := CreatingAccount))
    case CreateAccount(tx) => CreateAccountStep(w, tx)
    case Insert(tx, expired, row) =>
      Put(w, tx, w.txs[tx].(phase := Writing(expired), removed := expired, added := {row},
                            held := w.txs[tx].held + {row}))
    case Write(tx, row) =>
      Put(w, tx, w.txs[tx].(phase := Writing(w.txs[tx].phase.targets - {row}), held := w.txs[tx].held + {row}))
    case Commit(tx) => CommitStep(w, tx)
    case Abort(tx) => w.(txs := w.txs - {tx})
  }

  ghost predicate Legal(w: World, run: seq<Action>)
    decreases |run|
  {
    run == [] || (Enabled(w, run[0]) && Legal(Apply(w, run[0]), run[1..]))
  }

  function After(w: World, run: seq<Action>): World
    requires Legal(w, run)
    decreases |run|
  {
    if run == [] then w else After(Apply(w, run[0]), run[1..])
  }

  // ---------------------------------------------------------------- who waits for whom

  /** `t`'s next step needs a lock `u` holds: the next row of its group, a row it writes, or the address. */
  predicate WaitsFor(w: World, t: nat, u: nat) {
    && t in w.txs && u in w.txs && t != u
    && match w.txs[t].phase
       case Acquiring(wanted) => wanted != [] && wanted[0] in w.txs[u].held
       case Writing(targets) => exists k :: k in targets && k in w.txs[u].held
       case CreatingAccount => w.txs[u].ownsAddress && w.txs[u].email == w.txs[t].email
  }

  /** Everything held comes before everything still wanted; writes touch held rows only. */
  predicate Ordered(t: Tx) {
    match t.phase
    case Acquiring(wanted) =>
      !t.ownsAddress && Sorted(wanted) && forall h, k :: h in t.held && k in wanted ==> Less(h, k)
    case Writing(targets) => targets <= t.held
    case CreatingAccount => !t.ownsAddress
  }

  predicate Inv(w: World) {
    && (forall t :: t in w.txs ==> Ordered(w.txs[t]))
    && (forall t, u :: t in w.txs && u in w.txs && t != u ==> w.txs[t].held !! w.txs[u].held)
  }

  lemma ApplyKeeps(w: World, a: Action)
    requires Inv(w) && Enabled(w, a)
    ensures Inv(Apply(w, a))
  {
  }

  lemma {:induction false} LegalKeeps(w: World, run: seq<Action>)
    requires Inv(w) && Legal(w, run)
    ensures Inv(After(w, run))
    decreases |run|
  {
    if run == [] {
    } else {
      ApplyKeeps(w, run[0]);
      LegalKeeps(Apply(w, run[0]), run[1..]);
    }
  }

  /**
   * The owner of an address waits for nobody, so along three waits in a row the first two
   * transactions are still taking their groups, and the second wants a later row than the first.
   */
  lemma WaitingClimbs(w: World, t: nat, u: nat, v: nat, x: nat)
    requires Inv(w) && WaitsFor(w, t, u) && WaitsFor(w, u, v) && WaitsFor(w, v, x)
    ensures w.txs[t].phase.Acquiring? && w.txs[t].phase.wanted != []
    ensures w.txs[u].phase.Acquiring? && w.txs[u].phase.wanted != []
    ensures Less(w.txs[t].phase.wanted[0], w.txs[u].phase.wanted[0])
  {
    assert Ordered(w.txs[t]) && Ordered(w.txs[u]) && Ordered(w.txs[v]);
  }

  /** A path of waits: each transaction waits for the next. */
  predicate WaitPath(w: World, path: seq<nat>) {
    forall i :: 0 <= i < |path| - 1 ==> WaitsFor(w, path[i], path[i + 1])
  }

  lemma {:induction false} PathClimbs(w: World, path: seq<nat>)
    requires Inv(w) && |path| >= 4 && WaitPath(w, path)
    ensures var t, u := path[0], path[|path| - 3];
            && t in w.txs && w.txs[t].phase.Acquiring? && w.txs[t].phase.wanted != []
            && u in w.txs && w.txs[u].phase.Acquiring? && w.txs[u].phase.wanted != []
            && Less(w.txs[t].phase.wanted[0], w.txs[u].phase.wanted[0])
    decreases |path|
  {
    assert WaitsFor(w, path[0], path[1]) && WaitsFor(w, path[1], path[2]) && WaitsFor(w, path[2], path[3]);
    WaitingClimbs(w, path[0], path[1], path[2], path[3]);
    if |path| == 4 {
    } else {
      var rest := path[1..];
      forall i | 0 <= i < |rest| - 1
        ensures WaitsFor(w, rest[i], rest[i + 1])
      {
        assert WaitsFor(w, path[i + 1], path[i + 1 + 1]);
      }
      PathClimbs(w, rest);
    }
  }

  /** In every reachable state no path of waits comes back to where it started. */
  lemma NoDeadlock(w: World, run: seq<Action>, path: seq<nat>)
    requires w.txs == map[] && Legal(w, run)
    requires |path| >= 2 && WaitPath(After(w, run), path)
    ensures path[0] != path[|path| - 1]
  {
    LegalKeeps(w, run);
    var s := After(w, run);
    assert WaitsFor(s, path[0], path[1]);
    if path[0] == path[|path| - 1] && |path| > 2 {
      assert WaitsFor(s, path[1], path[1 + 1]);
      var round := path + [path[1], path[2]];
      forall i | 0 <= i < |round| - 1
        ensures WaitsFor(s, round[i], round[i + 1])
      {
        if i < |path| - 1 {
          assert WaitsFor(s, path[i], path[i + 1]);
        }
      }
      PathClimbs(s, round);
    }
  }

  predicate Waiting(w: World, t: nat) {
    exists u :: u in w.txs && WaitsFor(w, t, u)
  }

  function Wanted(w: World, t: nat): Key
    requires t in w.txs && w.txs[t].phase.Acquiring? && w.txs[t].phase.wanted != []
  {
    w.txs[t].phase.wanted[0]
  }

  predicate AllWant(w: World, ts: set<nat>) {
    forall u :: u in ts ==> u in w.txs && w.txs[u].phase.Acquiring? && w.txs[u].phase.wanted != []
  }

  lemma NotLessOnward(a: Key, b: Key, c: Key)
    ensures !Less(a, b) && !Less(b, c) ==> !Less(a, c)
  {
  }

  /** Of finitely many transactions that all want a row, one wants a row none of the others exceeds. */
  lemma {:induction false} Latest(w: World, ts: set<nat>) returns (t: nat)
    requires ts != {} && AllWant(w, ts)
    ensures t in ts && forall u :: u in ts ==> !Less(Wanted(w, t), Wanted(w, u))
    decreases |ts|
  {
    var one :| one in ts;
    t := one;
    var rest := ts - {one};
    if rest == {} {
      forall u | u in ts
        ensures u == one
      {
        assert u !in rest;
      }
    } else {
      var other := Latest(w, rest);
      if Less(Wanted(w, one), Wanted(w, other)) {
        t := other;
      }
      forall u | u in ts
        ensures !Less(Wanted(w, t), Wanted(w, u))
      {
        if u != one {
          assert u in rest;
          NotLessOnward(Wanted(w, one), Wanted(w, other), Wanted(w, u));
        }
      }
    }
  }

  /** If everybody waits, then so does whoever each one waits for, and for a later row. */
  lemma EverybodyClimbs(w: World, t: nat) returns (u: nat)
    requires Inv(w) && t in w.txs && forall v {:trigger Waiting(w, v)} :: v in w.txs ==> Waiting(w, v)
    ensures w.txs[t].phase.Acquiring? && w.txs[t].phase.wanted != []
    ensures u in w.txs && w.txs[u].phase.Acquiring? && w.txs[u].phase.wanted != []
    ensures Less(w.txs[t].phase.wanted[0], w.txs[u].phase.wanted[0])
  {
    assert Waiting(w, t);
    u :| u in w.txs && WaitsFor(w, t, u);
    assert Waiting(w, u);
    var v :| v in w.txs && WaitsFor(w, u, v);
    assert Waiting(w, v);
    var x :| x in w.txs && WaitsFor(w, v, x);
    WaitingClimbs(w, t, u, v, x);
  }

  /** While any transaction is open, some open transaction is not waiting for anybody. */
  lemma SomebodyCanMove(w: World, run: seq<Action>)
    requires w.txs == map[] && Legal(w, run) && After(w, run).txs != map[]
    ensures exists t :: t in After(w, run).txs && !Waiting(After(w, run), t)
  {
    LegalKeeps(w, run);
    SomebodyFree(After(w, run));
  }

  lemma SomebodyFree(w: World)
    requires Inv(w) && w.txs != map[]
    ensures exists t :: t in w.txs && !Waiting(w, t)
  {
    if forall t {:trigger Waiting(w, t)} :: t in w.txs ==> Waiting(w, t) {
      forall t | t in w.txs
        ensures w.txs[t].phase.Acquiring? && w.txs[t].phase.wanted != []
      {
        var u := EverybodyClimbs(w, t);
      }
      var last := Latest(w, w.txs.Keys);
      var u := EverybodyClimbs(w, last);
      assert false;
    }
  }
}
