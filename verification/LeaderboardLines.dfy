/**
 * When the whole table is determined, column by column: the order of the users, and of each user the
 * round that is shown.
 */
module LeaderboardLines {
  import opened Options
  import opened Leaderboard

  /** The columns of the ranked query. */
  datatype Line = Line(user: string, key: Standing, found: nat, completionTime: Option<nat>)

  function LineOf(r: Round): Line {
    Line(r.user, r.Key(), r.body.found, r.body.completionTime)
  }

  function LinesOf(table: seq<Round>): seq<Line> {
    seq(|table|, i requires 0 <= i < |table| => LineOf(table[i]))
  }

  /** Identical data gives an identical table. */
  ghost predicate TableIsDetermined(rounds: seq<Round>, mode: string) {
    forall s, t :: IsTable(rounds, mode, s) && IsTable(rounds, mode, t) ==> LinesOf(s) == LinesOf(t)
  }

  /** Best rounds that the four columns do not tell apart do not differ in any other column either. */
  ghost predicate AlikeBestsAreOneLine(rounds: seq<Round>, mode: string) {
    forall a, b ::
      BestOfItsUser(rounds, mode, a) && BestOfItsUser(rounds, mode, b) && a.Key() == b.Key() ==> LineOf(a) == LineOf(b)
  }

  lemma OtherLine(s: seq<Round>, t: seq<Round>, i: nat)
    requires i < |s| == |t| && LineOf(s[i]) != LineOf(t[i])
    ensures LinesOf(s) != LinesOf(t)
  {
    assert LinesOf(s)[i] == LineOf(s[i]) && LinesOf(t)[i] == LineOf(t[i]);
  }

  /** In place of a user's row, any round that is as good and is that user's. */
  lemma ReplaceTied(rounds: seq<Round>, mode: string, t: seq<Round>, i: nat, a: Round)
    requires IsTable(rounds, mode, t) && i < |t|
    requires BestOfItsUser(rounds, mode, a) && a.user == t[i].user && a.Key() == t[i].Key()
    ensures IsTable(rounds, mode, t[i := a])
  {
    var s := t[i := a];
    SameKeysSameOrder(t, s);
    forall u | Lists(t, u)
      ensures Lists(s, u)
    {
      var k :| 0 <= k < |t| && t[k].user == u;
      assert s[k].user == u;
    }
  }

  lemma BestAtItsPlace(rounds: seq<Round>, mode: string, t: seq<Round>, a: Round) returns (i: nat)
    requires IsTable(rounds, mode, t) && BestOfItsUser(rounds, mode, a)
    ensures i < |t| && t[i].user == a.user && t[i].Key() == a.Key()
  {
    BestHasTheBestKey(rounds, mode, a);
    i := PlaceOf(rounds, mode, t, a.user);
  }

  lemma OneUsersChoice(rounds: seq<Round>, mode: string, a: Round, b: Round)
    requires BestOfItsUser(rounds, mode, a) && BestOfItsUser(rounds, mode, b)
    requires a.user == b.user && LineOf(a) != LineOf(b)
    ensures !TableIsDetermined(rounds, mode)
  {
    var t := TableOf(rounds, mode);
    var i := BestAtItsPlace(rounds, mode, t, a);
    var j := BestAtItsPlace(rounds, mode, t, b);
    assert i == j;
    ReplaceTied(rounds, mode, t, i, a);
    ReplaceTied(rounds, mode, t, i, b);
    OtherLine(t[i := a], t[i := b], i);
  }

  lemma TwoUsersOrder(rounds: seq<Round>, mode: string, a: Round, b: Round)
    requires BestOfItsUser(rounds, mode, a) && BestOfItsUser(rounds, mode, b)
    requires a.user != b.user && a.Key() == b.Key()
    ensures !TableIsDetermined(rounds, mode)
  {
    var t := TableOf(rounds, mode);
    var i := BestAtItsPlace(rounds, mode, t, a);
    var j := BestAtItsPlace(rounds, mode, t, b);
    SwapTied(rounds, mode, t, i, j);
    OtherLine(t, t[i := t[j]][j := t[i]], i);
  }

  lemma OneLineMeansNoTies(rounds: seq<Round>, mode: string)
    requires AlikeBestsAreOneLine(rounds, mode)
    ensures NoTies(rounds, mode)
  {
    var t := TableOf(rounds, mode);
    forall u, v | u in Users(rounds, mode) && v in Users(rounds, mode) && u != v
      ensures BestKey(rounds, mode, u) != BestKey(rounds, mode, v)
    {
      var i := PlaceOf(rounds, mode, t, u);
      var j := PlaceOf(rounds, mode, t, v);
      assert BestOfItsUser(rounds, mode, t[i]) && BestOfItsUser(rounds, mode, t[j]);
      assert LineOf(t[i]) != LineOf(t[j]);
    }
  }

  lemma SameLines(rounds: seq<Round>, mode: string, s: seq<Round>, t: seq<Round>)
    requires AlikeBestsAreOneLine(rounds, mode) && IsTable(rounds, mode, s) && IsTable(rounds, mode, t)
    ensures LinesOf(s) == LinesOf(t)
  {
    OneLineMeansNoTies(rounds, mode);
    SameTable(rounds, mode, s, t);
    assert |UsersOf(s)| == |s| && |UsersOf(t)| == |t|;
    forall i | 0 <= i < |s|
      ensures LineOf(s[i]) == LineOf(t[i])
    {
      assert UsersOf(s)[i] == UsersOf(t)[i];
      TableKey(rounds, mode, s, i);
      TableKey(rounds, mode, t, i);
      assert BestOfItsUser(rounds, mode, s[i]) && BestOfItsUser(rounds, mode, t[i]);
    }
  }

  /**
   * Identical data gives an identical table exactly when best rounds alike in the four ranking columns
   * are alike in every other column. So two things leave it open: two users tied, and one user with two
   * best rounds that differ in what is shown.
   */
  lemma TableDeterminedIff(rounds: seq<Round>, mode: string)
    ensures TableIsDetermined(rounds, mode) <==> AlikeBestsAreOneLine(rounds, mode)
  {
    if AlikeBestsAreOneLine(rounds, mode) {
      forall s, t | IsTable(rounds, mode, s) && IsTable(rounds, mode, t)
        ensures LinesOf(s) == LinesOf(t)
      {
        SameLines(rounds, mode, s, t);
      }
    } else {
      var a, b :| BestOfItsUser(rounds, mode, a) && BestOfItsUser(rounds, mode, b) && a.Key() == b.Key()
                  && LineOf(a) != LineOf(b);
      if a.user == b.user {
        OneUsersChoice(rounds, mode, a, b);
      } else {
        TwoUsersOrder(rounds, mode, a, b);
      }
    }
  }

  // ---------------------------------------------------------------- one user, nobody to tie with

  lemma BothAreRecorded(a: Submission, b: Submission)
    requires ValidSummary(a.body) && ValidSummary(b.body) && a.body.clientRoundId != b.body.clientRoundId
    ensures After([a, b]) == [Round(a.user, a.body, a.now), Round(b.user, b.body, b.now)]
  {
    assert [a, b][..1] == [a] && [a][..0] == [];
    assert After([a]) == [Round(a.user, a.body, a.now)];
  }

  lemma OneUserHasNoTies(rounds: seq<Round>, mode: string, user: string)
    requires forall r :: r in rounds ==> r.user == user
    ensures NoTies(rounds, mode)
  {
    assert Users(rounds, mode) <= {user};
  }

  lemma BothAreBest(x: Round, y: Round)
    requires Counts(x, x.body.mode) && Counts(y, x.body.mode) && x.user == y.user && x.Key() == y.Key()
    ensures BestOfItsUser([x, y], x.body.mode, x) && BestOfItsUser([x, y], x.body.mode, y)
  {
    assert x in [x, y] && y in [x, y];
  }

  /**
   * One user submits two rounds alike in the four columns and different in another: nobody ties, the
   * order of the users is determined, and the table is not.
   */
  lemma OneUserTwoLines(a: Submission, b: Submission)
    requires ValidSummary(a.body) && ValidSummary(b.body) && !a.body.endedEarly && !b.body.endedEarly
    requires a.user == b.user && a.body.mode == b.body.mode && a.body.clientRoundId != b.body.clientRoundId
    requires Round(a.user, a.body, a.now).Key() == Round(b.user, b.body, b.now).Key()
    requires a.body.found != b.body.found || a.body.completionTime != b.body.completionTime
    ensures var rounds := After([a, b]);
            && NoTies(rounds, a.body.mode) && UserOrderIsDetermined(rounds, a.body.mode)
            && !TableIsDetermined(rounds, a.body.mode)
  {
    var x, y := Round(a.user, a.body, a.now), Round(b.user, b.body, b.now);
    BothAreRecorded(a, b);
    OneUserHasNoTies([x, y], a.body.mode, a.user);
    UserOrderDeterminedIffNoTies([x, y], a.body.mode);
    BothAreBest(x, y);
    OneUsersChoice([x, y], a.body.mode, x, y);
  }

  lemma OneUserTwoLinesIsPossible() returns (a: Submission, b: Submission)
    ensures ValidSummary(a.body) && ValidSummary(b.body) && !a.body.endedEarly && !b.body.endedEarly
    ensures a.user == b.user && a.body.mode == b.body.mode && a.body.clientRoundId != b.body.clientRoundId
    ensures Round(a.user, a.body, a.now).Key() == Round(b.user, b.body, b.now).Key()
    ensures a.body.found != b.body.found
  {
    var body := Body("1", "provinces", 10, 3, 2, 5, 5, 1, false, None);
    a := Submission("u", body, 0);
    b := Submission("u", body.(clientRoundId := "2", found := 4), 0);
  }
}
