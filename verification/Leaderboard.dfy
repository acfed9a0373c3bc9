/**
 * Submitted game rounds and the leaderboard over them: the idempotent submit, the two-stage ranking
 * under every choice the database may make between equal rows, and its pages.
 */
module Leaderboard {
  import opened Options
  import opened Sizes

  datatype Body = Body(clientRoundId: string, mode: string, score: nat, found: nat, firstTry: nat, total: nat,
                       poolTotal: nat, totalWrongs: nat, endedEarly: bool, completionTime: Option<nat>)

  /** A row of `game_rounds`. */
  datatype Round = Round(user: string, body: Body, createdAt: int)
  {
    function Key(): Standing {
      Standing(body.score, body.totalWrongs, body.firstTry, createdAt)
    }
  }

  /** The four ranking columns. */
  datatype Standing = Standing(score: nat, totalWrongs: nat, firstTry: nat, createdAt: int)

  /** `score DESC, total_wrongs ASC, first_try DESC, created_at ASC`, strictly before. */
  predicate Better(a: Standing, b: Standing) {
    a.score > b.score
    || (a.score == b.score
        && (a.totalWrongs < b.totalWrongs
            || (a.totalWrongs == b.totalWrongs
                && (a.firstTry > b.firstTry
                    || (a.firstTry == b.firstTry && a.createdAt < b.createdAt)))))
  }

  // ---------------------------------------------------------------- submitting

  predicate ValidSummary(b: Body) {
    b.firstTry <= b.found <= b.total <= b.poolTotal && (!b.endedEarly ==> b.total == b.poolTotal)
  }

  /** The row of this user and client round id, if there is one. */
  function Recorded(rounds: seq<Round>, user: string, id: string): (r: Option<Round>)
    ensures r.Some? ==> r.value in rounds && r.value.user == user && r.value.body.clientRoundId == id
    ensures r.None? ==> forall x :: x in rounds ==> !(x.user == user && x.body.clientRoundId == id)
  {
    if rounds == [] then None
    else
      var last := rounds[|rounds| - 1];
      if last.user == user && last.body.clientRoundId == id then Some(last)
      else Recorded(rounds[..|rounds| - 1], user, id)
  }

  datatype Submission = Submission(user: string, body: Body, now: int)

  function Submitted(rounds: seq<Round>, s: Submission): (seq<Round>, Option<Round>) {
    if !ValidSummary(s.body) then (rounds, None)
    else
      match Recorded(rounds, s.user, s.body.clientRoundId)
      case Some(first) => (rounds, Some(first))
      case None => (rounds + [Round(s.user, s.body, s.now)], Some(Round(s.user, s.body, s.now)))
  }

  function After(run: seq<Submission>): seq<Round> {
    if run == [] then [] else Submitted(After(run[..|run| - 1]), run[|run| - 1]).0
  }

  /** The first accepted submission of this user and client round id. */
  function FirstOf(run: seq<Submission>, user: string, id: string): Option<Round> {
    if run == [] then None
    else
      var before, last := FirstOf(run[..|run| - 1], user, id), run[|run| - 1];
      if before.None? && last.user == user && last.body.clientRoundId == id && ValidSummary(last.body)
      then Some(Round(user, last.body, last.now)) else before
  }

  predicate UniqueRounds(rounds: seq<Round>) {
    forall i, j :: 0 <= i < j < |rounds| ==>
      rounds[i].user != rounds[j].user || rounds[i].body.clientRoundId != rounds[j].body.clientRoundId
  }

  lemma RecordedGrows(rounds: seq<Round>, r: Round, user: string, id: string)
    ensures Recorded(rounds + [r], user, id)
            == if r.user == user && r.body.clientRoundId == id then Some(r) else Recorded(rounds, user, id)
  {
    assert (rounds + [r])[..|rounds|] == rounds;
  }

  lemma SubmittedRecord(rounds: seq<Round>, s: Submission, user: string, id: string)
    ensures var before := Recorded(rounds, user, id);
            Recorded(Submitted(rounds, s).0, user, id)
            == if before.None? && s.user == user && s.body.clientRoundId == id && ValidSummary(s.body)
               then Some(Round(user, s.body, s.now)) else before
  {
    RecordedGrows(rounds, Round(s.user, s.body, s.now), user, id);
  }

  lemma SubmittedKeepsRows(rounds: seq<Round>, s: Submission)
    requires UniqueRounds(rounds) && forall r :: r in rounds ==> ValidSummary(r.body)
    ensures UniqueRounds(Submitted(rounds, s).0) && forall r :: r in Submitted(rounds, s).0 ==> ValidSummary(r.body)
  {
  }

  /** Over any run of submissions a user and client round id has at most one row, and every row is well formed. */
  lemma {:induction false} RowsAreUnique(run: seq<Submission>)
    ensures UniqueRounds(After(run)) && forall r :: r in After(run) ==> ValidSummary(r.body)
  {
    if run == [] {
    } else {
      RowsAreUnique(run[..|run| - 1]);
      SubmittedKeepsRows(After(run[..|run| - 1]), run[|run| - 1]);
    }
  }

  /** And that row is the first accepted submission, word for word. */
  lemma {:induction false} FirstSubmissionStands(run: seq<Submission>, user: string, id: string)
    ensures Recorded(After(run), user, id) == FirstOf(run, user, id)
  {
    if run == [] {
    } else {
      var before, last := run[..|run| - 1], run[|run| - 1];
      FirstSubmissionStands(before, user, id);
      SubmittedRecord(After(before), last, user, id);
    }
  }

  /** A repeated submission changes nothing and answers as the first one did, whatever its numbers. */
  lemma {:induction false} RepeatIsReplayed(rounds: seq<Round>, s: Submission, again: Submission)
    requires ValidSummary(s.body) && ValidSummary(again.body)
    requires again.user == s.user && again.body.clientRoundId == s.body.clientRoundId
    ensures var (after, answer) := Submitted(rounds, s); Submitted(after, again) == (after, answer)
  {
    RecordedGrows(rounds, Round(s.user, s.body, s.now), s.user, s.body.clientRoundId);
  }

  class GameRounds {
    var rounds: seq<Round>

    constructor ()
      ensures rounds == []
    {
      rounds := [];
    }

    /** The answer is absent when the summary is refused. */
    method Submit(user: string, body: Body, now: int) returns (answer: Option<Round>)
      modifies this
      ensures (rounds, answer) == Submitted(old(rounds), Submission(user, body, now))
    {
      if body.found > body.total {
        return None;
      }
      if body.firstTry > body.found {
        return None;
      }
      if body.total > body.poolTotal {
        return None;
      }
      if !body.endedEarly && body.total != body.poolTotal {
        return None;
      }
      var first := Recorded(rounds, user, body.clientRoundId);
      if first.Some? {
        return first;
      }
      var row := Round(user, body, now);
      rounds := rounds + [row];
      return Some(row);
    }
  }

  // ---------------------------------------------------------------- ranking

  predicate Counts(r: Round, mode: string) {
    r.body.mode == mode && !r.body.endedEarly
  }

  predicate BestOfItsUser(rounds: seq<Round>, mode: string, b: Round) {
    && b in rounds && Counts(b, mode)
    && forall r :: r in rounds && Counts(r, mode) && r.user == b.user ==> !Better(r.Key(), b.Key())
  }

  function Users(rounds: seq<Round>, mode: string): set<string> {
    set r | r in rounds && Counts(r, mode) :: r.user
  }

  predicate Ordered(table: seq<Round>) {
    forall i, j :: 0 <= i < j < |table| ==> !Better(table[j].Key(), table[i].Key())
  }

  predicate OneEach(table: seq<Round>) {
    forall i, j :: 0 <= i < j < |table| ==> table[i].user != table[j].user
  }

  predicate Lists(table: seq<Round>, user: string) {
    exists i :: 0 <= i < |table| && table[i].user == user
  }

  predicate ListsAll(rounds: seq<Round>, mode: string, table: seq<Round>) {
    forall u {:trigger Lists(table, u)} :: u in Users(rounds, mode) ==> Lists(table, u)
  }

  /**
   * What the two stages may return: one best round a user, in an order no key contradicts. Between
   * rows equal in all four columns either stage may choose as it likes, in every query anew.
   */
  predicate IsTable(rounds: seq<Round>, mode: string, table: seq<Round>) {
    && (forall b :: b in table ==> BestOfItsUser(rounds, mode, b))
    && OneEach(table) && ListsAll(rounds, mode, table) && Ordered(table)
  }

  /** The best key of one user, as a maximum over that user's rounds. */
  function BestKey(rounds: seq<Round>, mode: string, user: string): (k: Option<Standing>)
    ensures k.None? <==> user !in Users(rounds, mode)
    ensures k.Some? ==> exists r :: r in rounds && Counts(r, mode) && r.user == user && r.Key() == k.value
    ensures k.Some? ==> forall r :: r in rounds && Counts(r, mode) && r.user == user ==> !Better(r.Key(), k.value)
  {
    if rounds == [] then None
    else
      var rest, last := BestKey(rounds[..|rounds| - 1], mode, user), rounds[|rounds| - 1];
      assert forall r :: r in rounds <==> r in rounds[..|rounds| - 1] || r == last;
      assert last in rounds;
      if last.user != user || !Counts(last, mode) then rest
      else if rest.None? || Better(last.Key(), rest.value) then Some(last.Key())
      else rest
  }

  /** No two users' best rounds agree in all four columns. */
  predicate NoTies(rounds: seq<Round>, mode: string) {
    forall u, v :: u in Users(rounds, mode) && v in Users(rounds, mode) && u != v ==>
      BestKey(rounds, mode, u) != BestKey(rounds, mode, v)
  }

  predicate Beats(rounds: seq<Round>, mode: string, u: string, v: string) {
    var a, b := BestKey(rounds, mode, u), BestKey(rounds, mode, v);
    a.Some? && b.Some? && Better(a.value, b.value)
  }

  /** The users whose best round is strictly better. */
  function Beaters(rounds: seq<Round>, mode: string, v: string): set<string> {
    set u | u in Users(rounds, mode) && Beats(rounds, mode, u, v)
  }

  lemma TableKey(rounds: seq<Round>, mode: string, table: seq<Round>, i: nat)
    requires IsTable(rounds, mode, table) && i < |table|
    ensures table[i].user in Users(rounds, mode)
    ensures BestKey(rounds, mode, table[i].user) == Some(table[i].Key())
  {
    assert BestOfItsUser(rounds, mode, table[i]);
    BestHasTheBestKey(rounds, mode, table[i]);
  }

  lemma PlaceOf(rounds: seq<Round>, mode: string, t: seq<Round>, u: string) returns (j: nat)
    requires IsTable(rounds, mode, t) && u in Users(rounds, mode)
    ensures j < |t| && t[j].user == u && BestKey(rounds, mode, u) == Some(t[j].Key())
  {
    assert Lists(t, u);
    j :| 0 <= j < |t| && t[j].user == u;
    TableKey(rounds, mode, t, j);
  }

  lemma BestHasTheBestKey(rounds: seq<Round>, mode: string, b: Round)
    requires BestOfItsUser(rounds, mode, b)
    ensures b.user in Users(rounds, mode) && BestKey(rounds, mode, b.user) == Some(b.Key())
  {
    var k := BestKey(rounds, mode, b.user);
    var r :| r in rounds && Counts(r, mode) && r.user == b.user && r.Key() == k.value;
    NeitherBetter(b.Key(), r.Key());
  }

  lemma NeitherBetter(a: Standing, b: Standing)
    requires !Better(a, b) && !Better(b, a)
    ensures a == b
  {
  }

  lemma AtLeastAsGood(a: Standing, b: Standing, c: Standing)
    requires !Better(b, a) && Better(b, c)
    ensures Better(a, c)
  {
  }

  function UsersUpTo(table: seq<Round>, n: nat): set<string>
    requires n <= |table|
  {
    if n == 0 then {} else UsersUpTo(table, n - 1) + {table[n - 1].user}
  }

  lemma {:induction false} UsersUpToHas(table: seq<Round>, n: nat, u: string)
    requires n <= |table|
    ensures u in UsersUpTo(table, n) <==> exists k :: 0 <= k < n && table[k].user == u
  {
    if n == 0 {
    } else {
      UsersUpToHas(table, n - 1, u);
    }
  }

  lemma {:induction false} UsersUpToCount(table: seq<Round>, n: nat)
    requires n <= |table| && OneEach(table)
    ensures |UsersUpTo(table, n)| == n
  {
    if n == 0 {
    } else {
      UsersUpToCount(table, n - 1);
      UsersUpToHas(table, n - 1, table[n - 1].user);
    }
  }

  /** Without ties, the users that beat entry `i` are those listed before it. */
  lemma BeatsByPlace(rounds: seq<Round>, mode: string, table: seq<Round>, i: nat, v: string)
    requires IsTable(rounds, mode, table) && NoTies(rounds, mode) && i < |table| && v in Users(rounds, mode)
    ensures Beats(rounds, mode, v, table[i].user) <==> exists k :: 0 <= k < i && table[k].user == v
  {
    TableKey(rounds, mode, table, i);
    var k := PlaceOf(rounds, mode, table, v);
  }

  /** Without ties, a user's rank is one more than the number of users with a strictly better best round. */
  lemma RankIsOneMoreThanTheBeaters(rounds: seq<Round>, mode: string, table: seq<Round>, i: nat)
    requires IsTable(rounds, mode, table) && NoTies(rounds, mode) && i < |table|
    ensures i + 1 == 1 + |Beaters(rounds, mode, table[i].user)|
  {
    var u := table[i].user;
    TableKey(rounds, mode, table, i);
    forall v
      ensures v in Beaters(rounds, mode, u) <==> v in UsersUpTo(table, i)
    {
      UsersUpToHas(table, i, v);
      if v in Users(rounds, mode) {
        BeatsByPlace(rounds, mode, table, i, v);
      } else if v in UsersUpTo(table, i) {
        var k :| 0 <= k < i && table[k].user == v;
        TableKey(rounds, mode, table, k);
      }
    }
    assert Beaters(rounds, mode, u) == UsersUpTo(table, i);
    UsersUpToCount(table, i);
  }

  // ---------------------------------------------------------------- one table, built

  /** Puts a row after every row it does not beat. */
  function Placed(table: seq<Round>, r: Round): (t: seq<Round>)
    ensures |t| == |table| + 1 && forall x :: x in t <==> x in table || x == r
  {
    if table == [] then [r]
    else
      var init, last := table[..|table| - 1], table[|table| - 1];
      assert forall x :: x in table <==> x in init || x == last;
      if Better(r.Key(), last.Key()) then Placed(init, r) + [last] else table + [r]
  }

  lemma {:induction false} PlacedInOrder(table: seq<Round>, r: Round)
    requires Ordered(table)
    ensures Ordered(Placed(table, r))
  {
    if table == [] {
    } else {
      var init, last := table[..|table| - 1], table[|table| - 1];
      if Better(r.Key(), last.Key()) {
        PlacedInOrder(init, r);
        var p := Placed(init, r);
        forall i | 0 <= i < |p|
          ensures !Better(last.Key(), p[i].Key())
        {
          assert p[i] in p;
        }
      } else {
        forall i | 0 <= i < |table|
          ensures !Better(r.Key(), table[i].Key())
        {
        }
      }
    }
  }

  lemma {:induction false} PlacedOnce(table: seq<Round>, r: Round)
    requires OneEach(table) && forall x :: x in table ==> x.user != r.user
    ensures OneEach(Placed(table, r))
  {
    if table == [] {
    } else {
      var init, last := table[..|table| - 1], table[|table| - 1];
      PlacedOnce(init, r);
      var p := Placed(init, r);
      forall i | 0 <= i < |p|
        ensures p[i].user != last.user
      {
        assert p[i] in p;
      }
    }
  }

  function IndexOf(table: seq<Round>, user: string): (i: Option<nat>)
    ensures i.Some? ==> i.value < |table| && table[i.value].user == user
    ensures i.None? ==> forall x :: x in table ==> x.user != user
  {
    if table == [] then None
    else if table[|table| - 1].user == user then Some(|table| - 1)
    else IndexOf(table[..|table| - 1], user)
  }

  lemma Skipping(rounds: seq<Round>, mode: string, r: Round, table: seq<Round>)
    requires IsTable(rounds, mode, table)
    requires !Counts(r, mode) || exists b :: b in table && b.user == r.user && !Better(r.Key(), b.Key())
    ensures IsTable(rounds + [r], mode, table)
  {
    assert Users(rounds + [r], mode) == Users(rounds, mode);
    forall b | b in table
      ensures BestOfItsUser(rounds + [r], mode, b)
    {
      assert BestOfItsUser(rounds, mode, b);
    }
  }

  lemma Adding(rounds: seq<Round>, mode: string, r: Round, others: seq<Round>)
    requires Counts(r, mode) && Ordered(others) && OneEach(others)
    requires forall b :: b in others ==> BestOfItsUser(rounds, mode, b) && b.user != r.user
    requires forall u :: u in Users(rounds, mode) && u != r.user ==> Lists(others, u)
    requires forall x :: x in rounds && Counts(x, mode) && x.user == r.user ==> !Better(x.Key(), r.Key())
    ensures IsTable(rounds + [r], mode, Placed(others, r))
  {
    var t := Placed(others, r);
    PlacedInOrder(others, r);
    PlacedOnce(others, r);
    forall b | b in t
      ensures BestOfItsUser(rounds + [r], mode, b)
    {
      if b != r {
        assert BestOfItsUser(rounds, mode, b);
      }
    }
    forall u | u in Users(rounds + [r], mode)
      ensures Lists(t, u)
    {
      if u == r.user {
        assert r in t;
      } else {
        assert u in Users(rounds, mode) && Lists(others, u);
        var i :| 0 <= i < |others| && others[i].user == u;
        assert others[i] in t;
      }
    }
  }

  function TableOf(rounds: seq<Round>, mode: string): (t: seq<Round>)
    ensures IsTable(rounds, mode, t)
  {
    if rounds == [] then []
    else
      var init, r := rounds[..|rounds| - 1], rounds[|rounds| - 1];
      var t := TableOf(init, mode);
      assert init + [r] == rounds;
      if !Counts(r, mode) then (Skipping(init, mode, r, t); t)
      else
        match IndexOf(t, r.user)
        case None => (NewUser(init, mode, r, t); Placed(t, r))
        case Some(i) =>
          if Better(r.Key(), t[i].Key()) then (Improving(init, mode, r, t, i); Placed(t[..i] + t[i + 1..], r))
          else (assert t[i] in t; Skipping(init, mode, r, t); t)
  }

  lemma NewUser(rounds: seq<Round>, mode: string, r: Round, table: seq<Round>)
    requires IsTable(rounds, mode, table) && Counts(r, mode) && forall x :: x in table ==> x.user != r.user
    ensures IsTable(rounds + [r], mode, Placed(table, r))
  {
    forall x | x in rounds && Counts(x, mode)
      ensures x.user != r.user
    {
      assert x.user in Users(rounds, mode) && Lists(table, x.user);
    }
    forall u | u in Users(rounds, mode)
      ensures Lists(table, u)
    {
    }
    Adding(rounds, mode, r, table);
  }

  lemma Improving(rounds: seq<Round>, mode: string, r: Round, table: seq<Round>, i: nat)
    requires IsTable(rounds, mode, table) && Counts(r, mode)
    requires i < |table| && table[i].user == r.user && Better(r.Key(), table[i].Key())
    ensures Ordered(table[..i] + table[i + 1..])
    ensures IsTable(rounds + [r], mode, Placed(table[..i] + table[i + 1..], r))
  {
    var others := table[..i] + table[i + 1..];
    WithoutOne(table, i);
    forall b | b in others
      ensures BestOfItsUser(rounds, mode, b) && b.user != r.user
    {
    }
    forall u | u in Users(rounds, mode) && u != r.user
      ensures Lists(others, u)
    {
      StillListed(table, i, u);
    }
    assert BestOfItsUser(rounds, mode, table[i]);
    Adding(rounds, mode, r, others);
  }

  lemma WithoutOne(table: seq<Round>, i: nat)
    requires i < |table| && Ordered(table) && OneEach(table)
    ensures var others := table[..i] + table[i + 1..];
            && Ordered(others) && OneEach(others)
            && forall b :: b in others ==> b in table && b.user != table[i].user
  {
    var others := table[..i] + table[i + 1..];
    assert forall k :: 0 <= k < |others| ==> others[k] == table[if k < i then k else k + 1];
  }

  lemma StillListed(table: seq<Round>, i: nat, u: string)
    requires i < |table| && Lists(table, u) && u != table[i].user
    ensures Lists(table[..i] + table[i + 1..], u)
  {
    var k :| 0 <= k < |table| && table[k].user == u;
    assert (table[..i] + table[i + 1..])[if k < i then k else k - 1] == table[k];
  }

  // ---------------------------------------------------------------- when the table is determined

  /** Every table lists the same users in the same order. */
  ghost predicate UserOrderIsDetermined(rounds: seq<Round>, mode: string) {
    forall s, t :: IsTable(rounds, mode, s) && IsTable(rounds, mode, t) ==> UsersOf(s) == UsersOf(t)
  }

  function UsersOf(table: seq<Round>): seq<string> {
    seq(|table|, i requires 0 <= i < |table| => table[i].user)
  }

  lemma TableCount(rounds: seq<Round>, mode: string, table: seq<Round>)
    requires IsTable(rounds, mode, table)
    ensures |table| == |Users(rounds, mode)|
  {
    forall u
      ensures u in UsersUpTo(table, |table|) <==> u in Users(rounds, mode)
    {
      UsersUpToHas(table, |table|, u);
      if u in UsersUpTo(table, |table|) {
        var i :| 0 <= i < |table| && table[i].user == u;
        TableKey(rounds, mode, table, i);
      } else {
        assert !Lists(table, u);
      }
    }
    assert UsersUpTo(table, |table|) == Users(rounds, mode);
    UsersUpToCount(table, |table|);
  }

  lemma SameTable(rounds: seq<Round>, mode: string, s: seq<Round>, t: seq<Round>)
    requires NoTies(rounds, mode) && IsTable(rounds, mode, s) && IsTable(rounds, mode, t)
    ensures UsersOf(s) == UsersOf(t)
  {
    TableCount(rounds, mode, s);
    TableCount(rounds, mode, t);
    forall i | 0 <= i < |s|
      ensures s[i].user == t[i].user
    {
      TableKey(rounds, mode, s, i);
      var j := PlaceOf(rounds, mode, t, s[i].user);
      RankIsOneMoreThanTheBeaters(rounds, mode, s, i);
      RankIsOneMoreThanTheBeaters(rounds, mode, t, j);
    }
  }

  lemma SwapKeepsUsers(t: seq<Round>, i: nat, j: nat)
    requires i < |t| && j < |t| && OneEach(t)
    ensures OneEach(t[i := t[j]][j := t[i]])
    ensures forall u :: Lists(t, u) ==> Lists(t[i := t[j]][j := t[i]], u)
  {
    var s := t[i := t[j]][j := t[i]];
    forall u | Lists(t, u)
      ensures Lists(s, u)
    {
      var k :| 0 <= k < |t| && t[k].user == u;
      assert s[if k == i then j else if k == j then i else k] == t[k];
    }
  }

  lemma SwapTied(rounds: seq<Round>, mode: string, t: seq<Round>, i: nat, j: nat)
    requires IsTable(rounds, mode, t) && i < |t| && j < |t| && t[i].Key() == t[j].Key()
    ensures IsTable(rounds, mode, t[i := t[j]][j := t[i]])
  {
    var s := t[i := t[j]][j := t[i]];
    SwapKeepsUsers(t, i, j);
    SameKeysSameOrder(t, s);
    forall b | b in s
      ensures b in t
    {
    }
    forall u | u in Users(rounds, mode)
      ensures Lists(s, u)
    {
      assert Lists(t, u);
    }
  }

  lemma SameKeysSameOrder(t: seq<Round>, s: seq<Round>)
    requires Ordered(t) && |s| == |t| && forall k :: 0 <= k < |t| ==> s[k].Key() == t[k].Key()
    ensures Ordered(s)
  {
  }

  lemma OtherOrder(t: seq<Round>, s: seq<Round>, i: nat)
    requires i < |t| == |s| && t[i].user != s[i].user
    ensures UsersOf(t) != UsersOf(s)
  {
    assert UsersOf(t)[i] == t[i].user && UsersOf(s)[i] == s[i].user;
  }

  lemma TiesLeaveItOpen(rounds: seq<Round>, mode: string, u: string, v: string)
    requires u in Users(rounds, mode) && v in Users(rounds, mode) && u != v
    requires BestKey(rounds, mode, u) == BestKey(rounds, mode, v)
    ensures !UserOrderIsDetermined(rounds, mode)
  {
    var t := TableOf(rounds, mode);
    assert Lists(t, u) && Lists(t, v);
    var i :| 0 <= i < |t| && t[i].user == u;
    var j :| 0 <= j < |t| && t[j].user == v;
    TableKey(rounds, mode, t, i);
    TableKey(rounds, mode, t, j);
    SwappedIsAnother(rounds, mode, t, i, j);
  }

  lemma SwappedIsAnother(rounds: seq<Round>, mode: string, t: seq<Round>, i: nat, j: nat)
    requires IsTable(rounds, mode, t) && i < |t| && j < |t| && t[i].Key() == t[j].Key() && t[i].user != t[j].user
    ensures !UserOrderIsDetermined(rounds, mode)
  {
    SwapTied(rounds, mode, t, i, j);
    OtherOrder(t, t[i := t[j]][j := t[i]], i);
  }

  /**
   * The four columns order the users fully exactly when no two users' best rounds agree in all of
   * them. There is no further tie-break: when two do, the database may list them either way.
   */
  lemma UserOrderDeterminedIffNoTies(rounds: seq<Round>, mode: string)
    ensures UserOrderIsDetermined(rounds, mode) <==> NoTies(rounds, mode)
  {
    if NoTies(rounds, mode) {
      forall s, t | IsTable(rounds, mode, s) && IsTable(rounds, mode, t)
        ensures UsersOf(s) == UsersOf(t)
      {
        SameTable(rounds, mode, s, t);
      }
    } else {
      var u, v :| u in Users(rounds, mode) && v in Users(rounds, mode) && u != v
                  && BestKey(rounds, mode, u) == BestKey(rounds, mode, v);
      TiesLeaveItOpen(rounds, mode, u, v);
    }
  }

  /** Two users with one round each, alike in all four columns, may be listed in either order. */
  lemma AlikeRoundsAreNotOrdered(body: Body, at: int)
    requires !body.endedEarly
    ensures !UserOrderIsDetermined([Round("a", body, at), Round("b", body, at)], body.mode)
  {
    var a, b := Round("a", body, at), Round("b", body, at);
    assert a in [a, b] && b in [a, b];
    TiesLeaveItOpen([a, b], body.mode, "a", "b");
  }

  /** Distinct creation times are enough. */
  lemma {:induction false} DistinctTimesHaveNoTies(rounds: seq<Round>, mode: string)
    requires forall r, s :: r in rounds && s in rounds && r.createdAt == s.createdAt ==> r == s
    ensures NoTies(rounds, mode)
  {
    forall u, v | u in Users(rounds, mode) && v in Users(rounds, mode) && u != v
      ensures BestKey(rounds, mode, u) != BestKey(rounds, mode, v)
    {
      var r :| r in rounds && r.user == u && r.Key() == BestKey(rounds, mode, u).value;
      var s :| s in rounds && s.user == v && s.Key() == BestKey(rounds, mode, v).value;
    }
  }

  // ---------------------------------------------------------------- one more round

  lemma BestKeyGrows(rounds: seq<Round>, r: Round, mode: string, user: string)
    ensures var before, after := BestKey(rounds, mode, user), BestKey(rounds + [r], mode, user);
            && (user != r.user ==> after == before)
            && (before.Some? ==> after.Some? && (after == before || Better(after.value, before.value)))
  {
    assert (rounds + [r])[..|rounds|] == rounds;
  }

  lemma UsersGrow(rounds: seq<Round>, r: Round, mode: string, u: string)
    ensures u in Users(rounds, mode) ==> u in Users(rounds + [r], mode)
    ensures u != r.user && u in Users(rounds + [r], mode) ==> u in Users(rounds, mode)
  {
  }

  lemma BeatersGrow(rounds: seq<Round>, r: Round, mode: string, u: string, v: string)
    requires v in Users(rounds, mode)
    ensures v != r.user && u in Beaters(rounds, mode, v) ==> u in Beaters(rounds + [r], mode, v)
    ensures u in Beaters(rounds + [r], mode, v) ==> u in Beaters(rounds, mode, v) || (u == r.user && u != v)
  {
    UsersGrow(rounds, r, mode, u);
    BestKeyGrows(rounds, r, mode, u);
    BestKeyGrows(rounds, r, mode, v);
  }

  /** One more round of a user: that user's rank never worsens, and every other user moves down at most one place. */
  lemma OneMoreRound(rounds: seq<Round>, r: Round, mode: string, v: string)
    requires v in Users(rounds, mode)
    ensures v == r.user ==> |Beaters(rounds + [r], mode, v)| <= |Beaters(rounds, mode, v)|
    ensures v != r.user ==>
              |Beaters(rounds, mode, v)| <= |Beaters(rounds + [r], mode, v)| <= |Beaters(rounds, mode, v)| + 1
  {
    var before, after := Beaters(rounds, mode, v), Beaters(rounds + [r], mode, v);
    forall u
      ensures v != r.user && u in before ==> u in after
      ensures u in after ==> u in before || (u == r.user && u != v)
    {
      BeatersGrow(rounds, r, mode, u, v);
    }
    if v == r.user {
      SubsetSize(after, before);
    } else {
      SubsetSize(before, after);
      SubsetSize(after, before + {r.user});
    }
  }

  // ---------------------------------------------------------------- pages

  /** `LIMIT size OFFSET from`. */
  function Slice<T>(all: seq<T>, from: nat, size: nat): seq<T> {
    if from >= |all| then [] else all[from..if from + size <= |all| then from + size else |all|]
  }

  function Offset(page: nat, size: nat): nat
    requires page > 0
  {
    (page - 1) * size
  }

  function Page<T>(all: seq<T>, page: nat, size: nat): seq<T>
    requires page > 0
  {
    Slice(all, Offset(page, size), size)
  }

  function HasMore(total: nat, page: nat, size: nat): bool {
    page * size < total
  }

  /** The first `count` pages, one after the other. */
  function FirstPages<T>(all: seq<T>, size: nat, count: nat): seq<T> {
    if count == 0 then [] else FirstPages(all, size, count - 1) + Page(all, count, size)
  }

  lemma SliceGoesOn<T>(all: seq<T>, from: nat, size: nat)
    ensures all[..if from <= |all| then from else |all|] + Slice(all, from, size)
            == all[..if from + size <= |all| then from + size else |all|]
  {
  }

  lemma {:induction false} PagesAreAPrefix<T>(all: seq<T>, size: nat, count: nat)
    ensures FirstPages(all, size, count) == all[..if count * size <= |all| then count * size else |all|]
  {
    if count == 0 {
    } else {
      PagesAreAPrefix(all, size, count - 1);
      SliceGoesOn(all, Offset(count, size), size);
      assert count * size == Offset(count, size) + size;
    }
  }

  lemma PageIsNotEmpty<T>(all: seq<T>, page: nat, size: nat)
    requires page > 0 && size > 0
    ensures Page(all, page, size) != [] <==> HasMore(|all|, page - 1, size)
  {
  }

  lemma LaterPagesNeedMore(total: nat, page: nat, later: nat, size: nat)
    requires page <= later && HasMore(total, later, size)
    ensures HasMore(total, page, size)
  {
    assert later * size == page * size + (later - page) * size;
  }

  /** `hasMore` holds exactly when some later page is not empty, and then the next one is not. */
  lemma HasMoreIffALaterPage<T>(all: seq<T>, page: nat, size: nat)
    requires page > 0 && size > 0
    ensures HasMore(|all|, page, size) <==> exists q: nat :: q > page && Page(all, q, size) != []
    ensures HasMore(|all|, page, size) <==> Page(all, page + 1, size) != []
  {
    PageIsNotEmpty(all, page + 1, size);
    forall q: nat | q > page && Page(all, q, size) != []
      ensures HasMore(|all|, page, size)
    {
      PageIsNotEmpty(all, q, size);
      LaterPagesNeedMore(|all|, page, q - 1, size);
    }
  }

  // ---------------------------------------------------------------- the response

  datatype Entry = Entry(rank: nat, round: Round, isCurrentUser: bool)

  datatype Response = Response(items: seq<Entry>, total: nat, hasMore: bool, currentUserRank: Option<nat>)

  function PageEntry(rows: seq<Round>, page: nat, size: nat, user: string, k: nat): Entry
    requires page > 0 && k < |rows|
  {
    Entry(Offset(page, size) + k + 1, rows[k], rows[k].user == user)
  }

  /** Three queries, each with a table of its own. */
  function GetLeaderboard(counted: seq<Round>, paged: seq<Round>, ranked: seq<Round>, user: string, page: nat, size: nat)
    : Response
    requires page > 0
  {
    var rows := Page(paged, page, size);
    var items := seq(|rows|, i requires 0 <= i < |rows| => PageEntry(rows, page, size, user, i));
    var rank := match IndexOf(ranked, user) case None => None case Some(i) => Some(i + 1);
    Response(items, |counted|, HasMore(|counted|, page, size), rank)
  }

  /** One entry for each of these rows, in their order. */
  predicate ShowsPage(r: Response, rows: seq<Round>) {
    |r.items| == |rows| && forall k :: 0 <= k < |rows| ==> r.items[k].round == rows[k]
  }

  /**
   * Without ties, and whatever tables the three queries saw: the total is the number of users with a
   * counting round; the items are the page; every entry's rank is one more than the number of users who
   * beat it; the caller's own rank is that same number, and absent exactly for a user with no counting round.
   */
  lemma ResponseMeans(rounds: seq<Round>, mode: string, counted: seq<Round>, paged: seq<Round>, ranked: seq<Round>,
                      user: string, page: nat, size: nat)
    requires IsTable(rounds, mode, counted) && IsTable(rounds, mode, paged) && IsTable(rounds, mode, ranked)
    requires NoTies(rounds, mode) && page > 0
    ensures var r := GetLeaderboard(counted, paged, ranked, user, page, size);
            && r.total == |Users(rounds, mode)|
            && ShowsPage(r, Page(paged, page, size))
            && (forall k :: 0 <= k < |r.items| ==> EntryIsRight(rounds, mode, r.items[k], user))
            && r.currentUserRank == (if user in Users(rounds, mode) then Some(1 + |Beaters(rounds, mode, user)|) else None)
  {
    TableCount(rounds, mode, counted);
    var items := GetLeaderboard(counted, paged, ranked, user, page, size).items;
    forall k | 0 <= k < |items|
      ensures EntryIsRight(rounds, mode, items[k], user)
    {
      EntryRank(rounds, mode, paged, user, page, size, k);
    }
    CallerRank(rounds, mode, ranked, user);
  }

  predicate EntryIsRight(rounds: seq<Round>, mode: string, e: Entry, user: string) {
    && BestOfItsUser(rounds, mode, e.round)
    && e.rank == 1 + |Beaters(rounds, mode, e.round.user)|
    && e.isCurrentUser == (e.round.user == user)
  }

  lemma EntryRank(rounds: seq<Round>, mode: string, paged: seq<Round>, user: string, page: nat, size: nat, k: nat)
    requires IsTable(rounds, mode, paged) && NoTies(rounds, mode) && page > 0 && k < |Page(paged, page, size)|
    ensures EntryIsRight(rounds, mode, PageEntry(Page(paged, page, size), page, size, user, k), user)
  {
    var i := Offset(page, size) + k;
    assert Page(paged, page, size)[k] == paged[i];
    RankIsOneMoreThanTheBeaters(rounds, mode, paged, i);
  }

  lemma CallerRank(rounds: seq<Round>, mode: string, ranked: seq<Round>, user: string)
    requires IsTable(rounds, mode, ranked) && NoTies(rounds, mode)
    ensures match IndexOf(ranked, user)
            case None => user !in Users(rounds, mode)
            case Some(i) => user in Users(rounds, mode) && i + 1 == 1 + |Beaters(rounds, mode, user)|
  {
    var at := IndexOf(ranked, user);
    if at.Some? {
      RankIsOneMoreThanTheBeaters(rounds, mode, ranked, at.value);
      TableKey(rounds, mode, ranked, at.value);
    } else {
      assert !Lists(ranked, user);
    }
  }

  /** Pages read one by one, page `q` from the table that request saw. */
  function ReadPages(tables: seq<seq<Round>>, size: nat): seq<Round> {
    if tables == [] then []
    else ReadPages(tables[..|tables| - 1], size) + Page(tables[|tables| - 1], |tables|, size)
  }

  /**
   * Without ties, reading the pages in turn lists every user once and in rank order, even though
   * every request ranks anew.
   */
  lemma {:induction false} PagesListEveryUserOnce(rounds: seq<Round>, mode: string, tables: seq<seq<Round>>, size: nat)
    requires NoTies(rounds, mode) && forall t :: t in tables ==> IsTable(rounds, mode, t)
    ensures var all := UsersOf(TableOf(rounds, mode));
            UsersOf(ReadPages(tables, size))
            == all[..if |tables| * size <= |all| then |tables| * size else |all|]
  {
    var all := UsersOf(TableOf(rounds, mode));
    UsersOfReadPages(rounds, mode, tables, size);
    PagesAreAPrefix(all, size, |tables|);
  }

  lemma UsersOfPart(t: seq<Round>, from: nat, size: nat)
    ensures UsersOf(Slice(t, from, size)) == Slice(UsersOf(t), from, size)
  {
    if from < |t| {
      UsersOfSlice(t, from, if from + size <= |t| then from + size else |t|);
    }
  }

  lemma UsersOfPage(t: seq<Round>, page: nat, size: nat)
    requires page > 0
    ensures UsersOf(Page(t, page, size)) == Page(UsersOf(t), page, size)
  {
    UsersOfPart(t, Offset(page, size), size);
  }

  lemma UsersOfSlice(t: seq<Round>, from: nat, to: nat)
    requires from <= to <= |t|
    ensures UsersOf(t[from..to]) == UsersOf(t)[from..to]
  {
  }

  lemma UsersOfBoth(s: seq<Round>, t: seq<Round>)
    ensures UsersOf(s + t) == UsersOf(s) + UsersOf(t)
  {
  }

  lemma {:induction false} UsersOfReadPages(rounds: seq<Round>, mode: string, tables: seq<seq<Round>>, size: nat)
    requires NoTies(rounds, mode) && forall t :: t in tables ==> IsTable(rounds, mode, t)
    ensures UsersOf(ReadPages(tables, size)) == FirstPages(UsersOf(TableOf(rounds, mode)), size, |tables|)
  {
    if tables == [] {
    } else {
      var t, n := tables[|tables| - 1], |tables|;
      UsersOfReadPages(rounds, mode, tables[..n - 1], size);
      SameTable(rounds, mode, t, TableOf(rounds, mode));
      UsersOfPage(t, n, size);
      UsersOfBoth(ReadPages(tables[..n - 1], size), Page(t, n, size));
    }
  }
}
