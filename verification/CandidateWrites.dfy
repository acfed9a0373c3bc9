/**
 * What the two write paths over `pending_registrations` leave behind when any number of them run at once:
 * an address is given an account once, its whole group goes with it, and nobody touches another's rows.
 */
module CandidateWrites {
  import opened CandidateLocks

  // ---------------------------------------------------------------- what a transaction may have staged

  /** What it holds and wants is of its own address; what it inserts is not stored yet. */
  predicate OwnRows(w: World, t: Tx) {
    && (forall k :: k in t.held && k in w.rows ==> w.rows[k] == t.email)
    && (t.phase.Acquiring? ==> forall k :: k in t.phase.wanted && k in w.rows ==> w.rows[k] == t.email)
    && t.added <= t.held && t.removed <= t.held && t.added !! w.rows.Keys
  }

  /** Only a verify owns an address; it deletes all it has locked, and otherwise a verify deletes nothing. */
  predicate Staged(w: World, t: Tx) {
    && (t.ownsAddress ==> t.verifies && t.phase.Writing? && t.removed == t.held && t.email !in w.accounts)
    && (t.verifies ==> t.added == {})
    && (t.verifies && !t.ownsAddress ==> t.removed == {})
    && (t.phase.Acquiring? || t.phase.CreatingAccount? ==> t.added == {} && t.removed == {})
    && (t.phase.CreatingAccount? ==> t.verifies)
  }

  /** Two owners own two addresses, and nobody wants what another is about to insert. */
  predicate Apart(a: Tx, b: Tx) {
    && (a.ownsAddress && b.ownsAddress ==> a.email != b.email)
    && (b.phase.Acquiring? ==> forall k :: k in a.added ==> k !in b.phase.wanted)
  }

  predicate Good(w: World) {
    && Inv(w)
    && (forall t :: t in w.txs ==> OwnRows(w, w.txs[t]) && Staged(w, w.txs[t]))
    && (forall t, u :: t in w.txs && u in w.txs && t != u ==> Apart(w.txs[t], w.txs[u]))
  }

  // ---------------------------------------------------------------- every step keeps it

  lemma PutKeeps(w: World, tx: nat, t: Tx)
    requires Good(w) && Inv(Put(w, tx, t)) && OwnRows(w, t) && Staged(w, t)
    requires forall u :: u in w.txs && u != tx ==> Apart(t, w.txs[u]) && Apart(w.txs[u], t)
    ensures Good(Put(w, tx, t))
  {
    var w' := Put(w, tx, t);
    forall u | u in w'.txs
      ensures OwnRows(w', w'.txs[u]) && Staged(w', w'.txs[u])
    {
      if u != tx {
        assert OwnRows(w, w.txs[u]) && Staged(w, w.txs[u]);
      }
    }
  }

  lemma LeaveKeeps(w: World, tx: nat)
    requires Good(w) && tx in w.txs
    ensures Good(w.(txs := w.txs - {tx}))
  {
    var w' := w.(txs := w.txs - {tx});
    forall u | u in w'.txs
      ensures OwnRows(w', w'.txs[u]) && Staged(w', w'.txs[u])
    {
      assert OwnRows(w, w.txs[u]) && Staged(w, w.txs[u]);
    }
  }

  lemma CommitLeaves(w: World, tx: nat, u: nat)
    requires Good(w) && Enabled(w, Commit(tx)) && u in w.txs && u != tx
    ensures OwnRows(CommitStep(w, tx), w.txs[u]) && Staged(CommitStep(w, tx), w.txs[u])
  {
    assert OwnRows(w, w.txs[u]) && Staged(w, w.txs[u]);
    assert Apart(w.txs[tx], w.txs[u]);
    assert OwnRows(w, w.txs[tx]) && w.txs[tx].held !! w.txs[u].held;
  }

  lemma CommitKeeps(w: World, tx: nat)
    requires Good(w) && Enabled(w, Commit(tx))
    ensures Good(CommitStep(w, tx))
  {
    ApplyKeeps(w, Commit(tx));
    var w' := CommitStep(w, tx);
    forall u | u in w'.txs
      ensures OwnRows(w', w'.txs[u]) && Staged(w', w'.txs[u])
    {
      CommitLeaves(w, tx, u);
    }
  }

  lemma BeginKeeps(w: World, a: Action)
    requires Good(w) && Enabled(w, a) && a.Begin?
    ensures Good(Apply(w, a))
  {
    ApplyKeeps(w, a);
    var t := Tx(a.verifies, a.email, Acquiring(a.group), {}, false, {}, {});
    forall u | u in w.txs && u != a.tx
      ensures Apart(t, w.txs[u]) && Apart(w.txs[u], t)
    {
      assert OwnRows(w, w.txs[u]);
    }
    PutKeeps(w, a.tx, t);
  }

  lemma TakeKeeps(w: World, tx: nat)
    requires Good(w) && Enabled(w, Take(tx))
    ensures Good(TakeStep(w, tx))
  {
    ApplyKeeps(w, Take(tx));
    var t := TakeStep(w, tx).txs[tx];
    assert OwnRows(w, w.txs[tx]) && Staged(w, w.txs[tx]);
    forall u | u in w.txs && u != tx
      ensures Apart(t, w.txs[u]) && Apart(w.txs[u], t)
    {
      assert Apart(w.txs[u], w.txs[tx]);
    }
    PutKeeps(w, tx, t);
  }

  lemma InsertKeeps(w: World, a: Action)
    requires Good(w) && Enabled(w, a) && a.Insert?
    ensures Good(Apply(w, a))
  {
    ApplyKeeps(w, a);
    var t := Apply(w, a).txs[a.tx];
    assert OwnRows(w, w.txs[a.tx]) && Staged(w, w.txs[a.tx]);
    PutKeeps(w, a.tx, t);
  }

  lemma CreateAccountKeeps(w: World, tx: nat)
    requires Good(w) && Enabled(w, CreateAccount(tx))
    ensures Good(CreateAccountStep(w, tx))
  {
    ApplyKeeps(w, CreateAccount(tx));
    var t := w.txs[tx];
    assert OwnRows(w, t) && Staged(w, t);
    if t.email in w.accounts {
      LeaveKeeps(w, tx);
    } else {
      PutKeeps(w, tx, t.(phase := Writing(t.held), ownsAddress := true, removed := t.held));
    }
  }

  lemma WriteKeeps(w: World, a: Action)
    requires Good(w) && Enabled(w, a) && (a.Write? || a.Charge? || a.Materialise?)
    ensures Good(Apply(w, a))
  {
    ApplyKeeps(w, a);
    var t := Apply(w, a).txs[a.tx];
    assert OwnRows(w, w.txs[a.tx]) && Staged(w, w.txs[a.tx]) && Ordered(w.txs[a.tx]);
    assert t.held == w.txs[a.tx].held;
    PutKeeps(w, a.tx, t);
  }

  lemma StepKeeps(w: World, a: Action)
    requires Good(w) && Enabled(w, a)
    ensures Good(Apply(w, a))
  {
    match a
    case Begin(_, _, _, _) => BeginKeeps(w, a);
    case Take(tx) => TakeKeeps(w, tx);
    case CreateAccount(tx) => CreateAccountKeeps(w, tx);
    case Insert(_, _, _) => InsertKeeps(w, a);
    case Commit(tx) => CommitKeeps(w, tx);
    case Abort(tx) => LeaveKeeps(w, tx);
    case _ => WriteKeeps(w, a);
  }

  lemma {:induction false} RunKeeps(w: World, run: seq<Action>)
    requires Good(w) && Legal(w, run)
    ensures Good(After(w, run))
    decreases |run|
  {
    if run == [] {
    } else {
      StepKeeps(w, run[0]);
      RunKeeps(Apply(w, run[0]), run[1..]);
    }
  }

  // ---------------------------------------------------------------- what a commit writes

  /**
   * A commit touches rows of its own address only. A verify that owns the address deletes everything it has
   * locked and is the first to give the address an account; any other verify deletes and inserts nothing;
   * an insert opens no account.
   */
  lemma CommitWrites(w: World, tx: nat, k: Key)
    requires Good(w) && Enabled(w, Commit(tx))
    ensures var w', t := CommitStep(w, tx), w.txs[tx];
            && (k in w'.rows <==> (k in w.rows && k !in t.removed) || k in t.added)
            && (k in w'.rows ==> w'.rows[k] == if k in w.rows then w.rows[k] else t.email)
            && (k in w.rows && w.rows[k] != t.email ==> k in w'.rows)
            && w'.accounts == w.accounts + (if t.ownsAddress then {t.email} else {})
            && (t.ownsAddress ==> t.verifies && t.email !in w.accounts && (k in t.held ==> k !in w'.rows))
            && (t.verifies && !t.ownsAddress ==> w'.rows == w.rows)
            && (t.added != {} ==> !t.verifies)
  {
    assert OwnRows(w, w.txs[tx]) && Staged(w, w.txs[tx]);
    var t := w.txs[tx];
    if t.verifies && !t.ownsAddress {
      assert (map j | j in t.added :: t.email) == map[];
      assert w.rows - {} == w.rows;
    }
  }

  // ---------------------------------------------------------------- one account an address

  predicate Opens(w: World, a: Action, email: nat) {
    a.Commit? && a.tx in w.txs && w.txs[a.tx].ownsAddress && w.txs[a.tx].email == email
  }

  function OpenCount(w: World, run: seq<Action>, email: nat): nat
    requires Legal(w, run)
    decreases |run|
  {
    if run == [] then 0
    else (if Opens(w, run[0], email) then 1 else 0) + OpenCount(Apply(w, run[0]), run[1..], email)
  }

  lemma StepOpens(w: World, a: Action, email: nat)
    requires Good(w) && Enabled(w, a)
    ensures email in Apply(w, a).accounts <==> email in w.accounts || Opens(w, a, email)
    ensures Opens(w, a, email) ==> email !in w.accounts
  {
    if a.Commit? {
      assert Staged(w, w.txs[a.tx]);
    }
  }

  /**
   * In every interleaving an address is given an account at most once, and exactly then it owns one: however
   * many right codes are presented at once.
   */
  lemma {:induction false} OpenedOnce(w: World, run: seq<Action>, email: nat)
    requires Good(w) && Legal(w, run)
    ensures email in After(w, run).accounts <==> email in w.accounts || OpenCount(w, run, email) == 1
    ensures OpenCount(w, run, email) <= if email in w.accounts then 0 else 1
    decreases |run|
  {
    if run == [] {
    } else {
      StepKeeps(w, run[0]);
      StepOpens(w, run[0], email);
      OpenedOnce(Apply(w, run[0]), run[1..], email);
    }
  }

  lemma OpenedOnceFromQuiet(w: World, run: seq<Action>, email: nat)
    requires w.txs == map[] && Legal(w, run)
    ensures OpenCount(w, run, email) <= 1
    ensures email in After(w, run).accounts <==> email in w.accounts || OpenCount(w, run, email) == 1
  {
    OpenedOnce(w, run, email);
  }

  // ---------------------------------------------------------------- the whole group goes

  ghost predicate StaysOpen(w: World, run: seq<Action>, tx: nat)
    requires Legal(w, run)
    decreases |run|
  {
    tx in w.txs && (run == [] || StaysOpen(Apply(w, run[0]), run[1..], tx))
  }

  /** What is left of the group it began with is held or still to be taken, and nobody is about to insert any of it. */
  predicate Covers(w: World, tx: nat, group: set<Key>) {
    && tx in w.txs
    && (forall k :: k in group && k in w.rows ==>
          k in w.txs[tx].held || (w.txs[tx].phase.Acquiring? && k in w.txs[tx].phase.wanted))
    && (forall u :: u in w.txs ==> w.txs[u].added !! group)
  }

  lemma StepCovers(w: World, a: Action, tx: nat, group: set<Key>)
    requires Good(w) && Enabled(w, a) && Covers(w, tx, group) && tx in Apply(w, a).txs
    requires a.Insert? ==> a.row !in group
    ensures Covers(Apply(w, a), tx, group)
  {
    assert OwnRows(w, w.txs[tx]) && Ordered(w.txs[tx]);
  }

  lemma {:induction false} RunCovers(w: World, run: seq<Action>, tx: nat, group: set<Key>)
    requires Good(w) && Legal(w, run) && StaysOpen(w, run, tx) && Covers(w, tx, group)
    requires forall a :: a in run && a.Insert? ==> a.row !in group
    ensures Covers(After(w, run), tx, group)
    decreases |run|
  {
    if run == [] {
    } else {
      assert run[0] in run && forall a :: a in run[1..] ==> a in run;
      StepKeeps(w, run[0]);
      assert tx in Apply(w, run[0]).txs;
      StepCovers(w, run[0], tx, group);
      RunCovers(Apply(w, run[0]), run[1..], tx, group);
    }
  }

  /**
   * A verify that opens an account takes every candidate its address had when it began, whatever ran in
   * between; ids are fresh, so none of them comes back. What is left was inserted meanwhile.
   */
  lemma WholeGroupGoes(w: World, begin: Action, run: seq<Action>, k: Key)
    requires Good(w) && begin.Begin? && Enabled(w, begin) && k in begin.group
    requires Legal(Apply(w, begin), run) && StaysOpen(Apply(w, begin), run, begin.tx)
    requires forall a :: a in run && a.Insert? ==> a.row !in begin.group
    requires Enabled(After(Apply(w, begin), run), Commit(begin.tx))
    requires After(Apply(w, begin), run).txs[begin.tx].ownsAddress
    ensures k !in CommitStep(After(Apply(w, begin), run), begin.tx).rows
  {
    var group, w1 := (set x | x in begin.group), Apply(w, begin);
    StepKeeps(w, begin);
    forall u | u in w1.txs
      ensures w1.txs[u].added !! group
    {
      if u in w.txs {
        assert OwnRows(w, w.txs[u]);
      }
    }
    RunCovers(w1, run, begin.tx, group);
    RunKeeps(w1, run);
    CommitWrites(After(w1, run), begin.tx, k);
  }

  // ---------------------------------------------------------------- the order both paths use

  lemma {:induction false} PutInOrder(s: seq<Key>, k: Key) returns (r: seq<Key>)
    requires Sorted(s) && k !in s
    ensures Sorted(r) && forall x :: x in r <==> x in s || x == k
  {
    if s == [] || Less(k, s[0]) {
      r := [k] + s;
    } else {
      var rest := PutInOrder(s[1..], k);
      assert forall x :: x in s[1..] ==> Less(s[0], x);
      r := [s[0]] + rest;
      assert forall x :: x in s <==> x == s[0] || x in s[1..];
    }
  }

  lemma {:induction false} InOrder(keys: set<Key>) returns (s: seq<Key>)
    ensures Sorted(s) && forall k :: k in s <==> k in keys
    decreases |keys|
  {
    if keys == {} {
      s := [];
    } else {
      var k :| k in keys;
      var rest := InOrder(keys - {k});
      s := PutInOrder(rest, k);
    }
  }

  /** Creation time and id put every group in one order, so either path can always begin. */
  lemma EveryGroupHasAnOrder(w: World, email: nat) returns (group: seq<Key>)
    ensures IsGroup(w, email, group)
  {
    group := InOrder(set k | k in w.rows && w.rows[k] == email);
  }

  lemma OrderIsOne(w: World, email: nat, s: seq<Key>, t: seq<Key>)
    requires IsGroup(w, email, s) && IsGroup(w, email, t)
    ensures s == t
  {
    SameOrder(s, t);
  }

  lemma {:induction false} SameOrder(s: seq<Key>, t: seq<Key>)
    requires Sorted(s) && Sorted(t) && forall k :: k in s <==> k in t
    ensures s == t
  {
    assert (s != [] ==> s[0] in t) && (t != [] ==> t[0] in s);
    if s == [] || t == [] {
    } else {
      assert s[0] == t[0];
      forall k
        ensures k in s[1..] <==> k in t[1..]
      {
        RestIs(s, k);
        RestIs(t, k);
      }
      SameOrder(s[1..], t[1..]);
    }
  }

  lemma RestIs(s: seq<Key>, k: Key)
    requires s != [] && Sorted(s)
    ensures k in s[1..] <==> k in s && k != s[0]
  {
    assert s == [s[0]] + s[1..];
  }
}
