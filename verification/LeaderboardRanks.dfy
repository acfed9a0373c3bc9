/**
 * Ranks when users may tie: which places a user can be listed at, over all the tables the database may
 * return.
 */
module LeaderboardRanks {
  import opened Options
  import opened Leaderboard
  import opened Sizes

  /** The users whose best round is not strictly worse than that of `v`, `v` included. */
  function NotBeaten(rounds: seq<Round>, mode: string, v: string): set<string> {
    set u | u in Users(rounds, mode) && !Beats(rounds, mode, v, u)
  }

  predicate InRange(rounds: seq<Round>, mode: string, v: string, rank: nat) {
    1 + |Beaters(rounds, mode, v)| <= rank <= |NotBeaten(rounds, mode, v)|
  }

  /** Who beats whom is read off the table. */
  lemma BeatsByKey(rounds: seq<Round>, mode: string, t: seq<Round>, i: nat, k: nat)
    requires IsTable(rounds, mode, t) && i < |t| && k < |t|
    ensures t[i].user in Users(rounds, mode) && t[k].user in Users(rounds, mode)
    ensures Beats(rounds, mode, t[k].user, t[i].user) <==> Better(t[k].Key(), t[i].Key())
  {
    TableKey(rounds, mode, t, i);
    TableKey(rounds, mode, t, k);
  }

  lemma PlaceUpTo(t: seq<Round>, n: nat, u: string) returns (k: nat)
    requires n <= |t| && u in UsersUpTo(t, n)
    ensures k < n && t[k].user == u
  {
    UsersUpToHas(t, n, u);
    k :| 0 <= k < n && t[k].user == u;
  }

  lemma InOrder(t: seq<Round>, i: nat, k: nat)
    requires Ordered(t) && i <= k < |t|
    ensures !Better(t[k].Key(), t[i].Key())
  {
  }

  lemma BeatersComeFirst(rounds: seq<Round>, mode: string, t: seq<Round>, i: nat, u: string)
    requires IsTable(rounds, mode, t) && i < |t| && u in Beaters(rounds, mode, t[i].user)
    ensures u in UsersUpTo(t, i)
  {
    var k := PlaceOf(rounds, mode, t, u);
    BeatsByKey(rounds, mode, t, i, k);
    if i <= k {
      InOrder(t, i, k);
    }
    UsersUpToHas(t, i, u);
  }

  lemma ListedIsNotBeaten(rounds: seq<Round>, mode: string, t: seq<Round>, i: nat, u: string)
    requires IsTable(rounds, mode, t) && i < |t| && u in UsersUpTo(t, i + 1)
    ensures u in NotBeaten(rounds, mode, t[i].user)
  {
    var k := PlaceUpTo(t, i + 1, u);
    BeatsByKey(rounds, mode, t, k, i);
    InOrder(t, k, i);
  }

  lemma SizeUpTo(t: seq<Round>, n: nat, s: set<string>)
    requires OneEach(t) && n <= |t|
    ensures (forall u :: u in UsersUpTo(t, n) ==> u in s) ==> n <= |s|
    ensures (forall u :: u in s ==> u in UsersUpTo(t, n)) ==> |s| <= n
  {
    UsersUpToCount(t, n);
    if forall u :: u in UsersUpTo(t, n) ==> u in s {
      SubsetSize(UsersUpTo(t, n), s);
    }
    if forall u :: u in s ==> u in UsersUpTo(t, n) {
      SubsetSize(s, UsersUpTo(t, n));
    }
  }

  lemma BeatersAreFewer(rounds: seq<Round>, mode: string, t: seq<Round>, i: nat, beaters: set<string>)
    requires IsTable(rounds, mode, t) && i < |t| && beaters == Beaters(rounds, mode, t[i].user)
    ensures |beaters| <= i
  {
    forall u | u in beaters
      ensures u in UsersUpTo(t, i)
    {
      BeatersComeFirst(rounds, mode, t, i, u);
    }
    SizeUpTo(t, i, beaters);
  }

  lemma NotBeatenAreMore(rounds: seq<Round>, mode: string, t: seq<Round>, i: nat, notBeaten: set<string>)
    requires IsTable(rounds, mode, t) && i < |t| && notBeaten == NotBeaten(rounds, mode, t[i].user)
    ensures i + 1 <= |notBeaten|
  {
    forall u | u in UsersUpTo(t, i + 1)
      ensures u in notBeaten
    {
      ListedIsNotBeaten(rounds, mode, t, i, u);
    }
    SizeUpTo(t, i + 1, notBeaten);
  }

  /** In any table a rank is more than the number of beaters and at most the number of users not beaten. */
  lemma RankInRange(rounds: seq<Round>, mode: string, t: seq<Round>, i: nat)
    requires IsTable(rounds, mode, t) && i < |t|
    ensures InRange(rounds, mode, t[i].user, i + 1)
  {
    BeatersAreFewer(rounds, mode, t, i, Beaters(rounds, mode, t[i].user));
    NotBeatenAreMore(rounds, mode, t, i, NotBeaten(rounds, mode, t[i].user));
  }

  lemma ListedBeats(rounds: seq<Round>, mode: string, t: seq<Round>, i: nat, j: nat, u: string)
    requires IsTable(rounds, mode, t) && i < |t| && j < |t| && Better(t[j].Key(), t[i].Key())
    requires u in UsersUpTo(t, j + 1)
    ensures u in Beaters(rounds, mode, t[i].user)
  {
    var k := PlaceUpTo(t, j + 1, u);
    InOrder(t, k, j);
    AtLeastAsGood(t[k].Key(), t[j].Key(), t[i].Key());
    BeatsByKey(rounds, mode, t, i, k);
  }

  /** Down to a place with a better key than place `i` there are only beaters. */
  lemma BetterPlaceIsABeater(rounds: seq<Round>, mode: string, t: seq<Round>, i: nat, j: nat)
    requires IsTable(rounds, mode, t) && i < |t| && j < |t| && Better(t[j].Key(), t[i].Key())
    ensures j + 1 <= |Beaters(rounds, mode, t[i].user)|
  {
    var beaters := Beaters(rounds, mode, t[i].user);
    forall u | u in UsersUpTo(t, j + 1)
      ensures u in beaters
    {
      ListedBeats(rounds, mode, t, i, j, u);
    }
    SizeUpTo(t, j + 1, beaters);
  }

  lemma NotBeatenIsListed(rounds: seq<Round>, mode: string, t: seq<Round>, i: nat, j: nat, u: string)
    requires IsTable(rounds, mode, t) && i < |t| && j < |t| && Better(t[i].Key(), t[j].Key())
    requires u in NotBeaten(rounds, mode, t[i].user)
    ensures u in UsersUpTo(t, j)
  {
    var k := PlaceOf(rounds, mode, t, u);
    BeatsByKey(rounds, mode, t, k, i);
    if j <= k {
      InOrder(t, j, k);
      WorseStill(t[i].Key(), t[j].Key(), t[k].Key());
    }
    UsersUpToHas(t, j, u);
  }

  /** From a place with a worse key than place `i` on there is nobody who is not beaten. */
  lemma WorsePlaceIsBeaten(rounds: seq<Round>, mode: string, t: seq<Round>, i: nat, j: nat)
    requires IsTable(rounds, mode, t) && i < |t| && j < |t| && Better(t[i].Key(), t[j].Key())
    ensures |NotBeaten(rounds, mode, t[i].user)| <= j
  {
    var notBeaten := NotBeaten(rounds, mode, t[i].user);
    forall u | u in notBeaten
      ensures u in UsersUpTo(t, j)
    {
      NotBeatenIsListed(rounds, mode, t, i, j, u);
    }
    SizeUpTo(t, j, notBeaten);
  }

  lemma WorseStill(a: Standing, b: Standing, c: Standing)
    ensures Better(a, b) && !Better(c, b) ==> Better(a, c)
  {
  }

  predicate RanksIn(rounds: seq<Round>, mode: string, t: seq<Round>, v: string, rank: nat) {
    IsTable(rounds, mode, t) && 0 < rank <= |t| && t[rank - 1].user == v
  }

  /** Each rank of that range is the user's in some table. */
  lemma RankIsTaken(rounds: seq<Round>, mode: string, v: string, rank: nat) returns (t: seq<Round>)
    requires v in Users(rounds, mode) && InRange(rounds, mode, v, rank)
    ensures RanksIn(rounds, mode, t, v, rank)
  {
    var s, j := TableOf(rounds, mode), rank - 1;
    var i := PlaceOf(rounds, mode, s, v);
    TableCount(rounds, mode, s);
    SubsetSize(NotBeaten(rounds, mode, v), Users(rounds, mode));
    if Better(s[j].Key(), s[i].Key()) {
      BetterPlaceIsABeater(rounds, mode, s, i, j);
    }
    if Better(s[i].Key(), s[j].Key()) {
      WorsePlaceIsBeaten(rounds, mode, s, i, j);
    }
    NeitherBetter(s[i].Key(), s[j].Key());
    SwapTied(rounds, mode, s, i, j);
    t := s[i := s[j]][j := s[i]];
  }

  ghost predicate CanRank(rounds: seq<Round>, mode: string, v: string, rank: nat) {
    exists t :: RanksIn(rounds, mode, t, v, rank)
  }

  lemma ThereInRange(rounds: seq<Round>, mode: string, t: seq<Round>, v: string, rank: nat)
    requires RanksIn(rounds, mode, t, v, rank)
    ensures InRange(rounds, mode, v, rank)
  {
    RankInRange(rounds, mode, t, rank - 1);
  }

  /**
   * Over all the tables the database may return, a user's ranks are exactly those from one more than the
   * users who beat it to the number of users it does not beat.
   */
  lemma RanksAreTheRange(rounds: seq<Round>, mode: string, v: string, rank: nat)
    requires v in Users(rounds, mode)
    ensures CanRank(rounds, mode, v, rank)
            <==> 1 + |Beaters(rounds, mode, v)| <= rank <= |NotBeaten(rounds, mode, v)|
  {
    if CanRank(rounds, mode, v, rank) {
      var t :| RanksIn(rounds, mode, t, v, rank);
      ThereInRange(rounds, mode, t, v, rank);
    } else if InRange(rounds, mode, v, rank) {
      var t := RankIsTaken(rounds, mode, v, rank);
    }
  }

  predicate EntryIsInRange(rounds: seq<Round>, mode: string, e: Entry, user: string) {
    && BestOfItsUser(rounds, mode, e.round)
    && InRange(rounds, mode, e.round.user, e.rank)
    && e.isCurrentUser == (e.round.user == user)
  }

  lemma EntryInRange(rounds: seq<Round>, mode: string, paged: seq<Round>, user: string, page: nat, size: nat, k: nat)
    requires IsTable(rounds, mode, paged) && page > 0 && k < |Page(paged, page, size)|
    ensures EntryIsInRange(rounds, mode, PageEntry(Page(paged, page, size), page, size, user, k), user)
  {
    var i := Offset(page, size) + k;
    assert Page(paged, page, size)[k] == paged[i];
    assert BestOfItsUser(rounds, mode, paged[i]);
    RankInRange(rounds, mode, paged, i);
  }

  lemma CallerInRange(rounds: seq<Round>, mode: string, ranked: seq<Round>, user: string)
    requires IsTable(rounds, mode, ranked)
    ensures match IndexOf(ranked, user)
            case None => user !in Users(rounds, mode)
            case Some(i) => user in Users(rounds, mode) && InRange(rounds, mode, user, i + 1)
  {
    var at := IndexOf(ranked, user);
    if at.Some? {
      RankInRange(rounds, mode, ranked, at.value);
      TableKey(rounds, mode, ranked, at.value);
    } else {
      assert !Lists(ranked, user);
    }
  }

  /**
   * What the response says with ties or without, whatever tables the three queries saw: the total is the
   * number of users with a counting round, and every rank, the caller's included, is in its user's range.
   */
  lemma ResponseIsInRange(rounds: seq<Round>, mode: string, counted: seq<Round>, paged: seq<Round>, ranked: seq<Round>,
                          user: string, page: nat, size: nat)
    requires IsTable(rounds, mode, counted) && IsTable(rounds, mode, paged) && IsTable(rounds, mode, ranked) && page > 0
    ensures var r := GetLeaderboard(counted, paged, ranked, user, page, size);
            && r.total == |Users(rounds, mode)|
            && ShowsPage(r, Page(paged, page, size))
            && (forall k :: 0 <= k < |r.items| ==> EntryIsInRange(rounds, mode, r.items[k], user))
            && (r.currentUserRank.Some? <==> user in Users(rounds, mode))
            && (r.currentUserRank.Some? ==> InRange(rounds, mode, user, r.currentUserRank.value))
  {
    TableCount(rounds, mode, counted);
    var items := GetLeaderboard(counted, paged, ranked, user, page, size).items;
    forall k | 0 <= k < |items|
      ensures EntryIsInRange(rounds, mode, items[k], user)
    {
      EntryInRange(rounds, mode, paged, user, page, size, k);
    }
    CallerInRange(rounds, mode, ranked, user);
  }
}
