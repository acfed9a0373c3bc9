/**
 * Which rows a leaderboard response shows and what it says of the pages after it, and which rounds the
 * leaderboard is about.
 */
module LeaderboardResponse {
  import opened Options
  import opened Leaderboard

  /** How many of `n` rows are shown from `from` on. */
  function Shown(n: nat, from: nat, size: nat): nat {
    if n <= from then 0 else if n - from <= size then n - from else size
  }

  lemma SliceRows<T>(all: seq<T>, from: nat, size: nat)
    ensures |Slice(all, from, size)| == Shown(|all|, from, size)
    ensures forall k :: 0 <= k < |Slice(all, from, size)| ==> from + k < |all| && Slice(all, from, size)[k] == all[from + k]
  {
  }

  /** Entry `k` shows row `from + k`, under the rank of its place. */
  predicate ShowsFrom(items: seq<Entry>, paged: seq<Round>, from: nat, user: string) {
    forall k :: 0 <= k < |items| ==>
      from + k < |paged| && items[k] == Entry(from + k + 1, paged[from + k], paged[from + k].user == user)
  }

  lemma EntriesShow(paged: seq<Round>, page: nat, size: nat, user: string, from: nat, items: seq<Entry>)
    requires page > 0 && from == Offset(page, size) && |items| == |Page(paged, page, size)|
    requires forall k :: 0 <= k < |items| ==> items[k] == PageEntry(Page(paged, page, size), page, size, user, k)
    ensures |items| == Shown(|paged|, from, size) && ShowsFrom(items, paged, from, user)
  {
    SliceRows(paged, from, size);
    forall k | 0 <= k < |items|
      ensures items[k] == Entry(from + k + 1, paged[from + k], paged[from + k].user == user)
    {
    }
  }

  /**
   * A response shows every row of its page and no other, each at its place: as many as are left, up to the
   * page size. It says there is more exactly when the page after it shows something.
   */
  lemma ResponseShowsThePage(rounds: seq<Round>, mode: string, counted: seq<Round>, paged: seq<Round>,
                             ranked: seq<Round>, user: string, page: nat, size: nat)
    requires IsTable(rounds, mode, counted) && IsTable(rounds, mode, paged) && page > 0 && size > 0
    ensures var r, from := GetLeaderboard(counted, paged, ranked, user, page, size), Offset(page, size);
            && r.total == |Users(rounds, mode)| == |paged|
            && |r.items| == Shown(|Users(rounds, mode)|, from, size) && ShowsFrom(r.items, paged, from, user)
            && (r.hasMore <==> GetLeaderboard(counted, paged, ranked, user, page + 1, size).items != [])
  {
    TableCount(rounds, mode, counted);
    TableCount(rounds, mode, paged);
    EntriesShow(paged, page, size, user, Offset(page, size), GetLeaderboard(counted, paged, ranked, user, page, size).items);
    HasMoreIffALaterPage(paged, page, size);
  }

  /** The caller is marked on its own row and on no other, and its own rank is its place in the table ranked. */
  lemma CallerIsMarked(counted: seq<Round>, paged: seq<Round>, ranked: seq<Round>, user: string, page: nat, size: nat, k: nat)
    requires page > 0 && k < |GetLeaderboard(counted, paged, ranked, user, page, size).items|
    ensures var e := GetLeaderboard(counted, paged, ranked, user, page, size).items[k];
            e.isCurrentUser <==> e.round.user == user
    ensures var rank := GetLeaderboard(counted, paged, ranked, user, page, size).currentUserRank;
            && (rank.None? <==> forall r :: r in ranked ==> r.user != user)
            && (rank.Some? ==> 1 <= rank.value <= |ranked| && ranked[rank.value - 1].user == user)
  {
  }

  // ---------------------------------------------------------------- which rounds count

  /** What the leaderboard of a mode is about: the finished rounds of that mode. */
  lemma SameBests(rounds: seq<Round>, other: Round, mode: string, b: Round)
    requires other.body.endedEarly || other.body.mode != mode
    ensures BestOfItsUser(rounds + [other], mode, b) <==> BestOfItsUser(rounds, mode, b)
  {
    assert forall r :: r in rounds + [other] <==> r in rounds || r == other;
  }

  /** An abandoned round, or one of another mode, changes no table. */
  lemma OtherRoundsDoNotCount(rounds: seq<Round>, other: Round, mode: string, table: seq<Round>)
    requires other.body.endedEarly || other.body.mode != mode
    ensures IsTable(rounds + [other], mode, table) <==> IsTable(rounds, mode, table)
  {
    assert forall r :: r in rounds + [other] <==> r in rounds || r == other;
    assert Users(rounds + [other], mode) == Users(rounds, mode);
    forall b | b in table
      ensures BestOfItsUser(rounds + [other], mode, b) <==> BestOfItsUser(rounds, mode, b)
    {
      SameBests(rounds, other, mode, b);
    }
  }

  /** A finished round of the mode puts its user on the table, at least as well as that round. */
  lemma FinishedRoundCounts(rounds: seq<Round>, r: Round, mode: string, table: seq<Round>)
    requires r in rounds && r.body.mode == mode && !r.body.endedEarly && IsTable(rounds, mode, table)
    ensures exists i :: 0 <= i < |table| && table[i].user == r.user && !Better(r.Key(), table[i].Key())
  {
    var i := PlaceOf(rounds, mode, table, r.user);
    assert BestOfItsUser(rounds, mode, table[i]);
  }

  /** At least as good, column by column: score, then fewer wrongs, then more first tries, then the earlier. */
  predicate NoWorse(a: Round, b: Round) {
    && a.body.score >= b.body.score
    && (a.body.score == b.body.score ==> a.body.totalWrongs <= b.body.totalWrongs)
    && (a.body.score == b.body.score && a.body.totalWrongs == b.body.totalWrongs ==> a.body.firstTry >= b.body.firstTry)
    && (a.body.score == b.body.score && a.body.totalWrongs == b.body.totalWrongs && a.body.firstTry == b.body.firstTry ==>
          a.createdAt <= b.createdAt)
  }

  /** Whoever stands higher is no worse, and each user stands there with a round none of its own betters. */
  lemma TableIsRanked(rounds: seq<Round>, mode: string, table: seq<Round>, i: nat, k: nat, r: Round)
    requires IsTable(rounds, mode, table) && i <= k < |table|
    requires r in rounds && r.user == table[i].user && r.body.mode == mode && !r.body.endedEarly
    ensures NoWorse(table[i], table[k]) && NoWorse(table[i], r)
  {
    assert BestOfItsUser(rounds, mode, table[i]);
    assert !Better(table[k].Key(), table[i].Key()) && !Better(r.Key(), table[i].Key());
  }

  // ---------------------------------------------------------------- what a submission answers

  /** A submission is refused exactly for numbers that cannot be; else it answers with a row of its key, new or first. */
  lemma SubmitAnswers(run: seq<Submission>, s: Submission)
    ensures var (after, answer) := Submitted(After(run), s);
            var b := s.body;
            && (answer.None? <==> || b.firstTry > b.found || b.found > b.total || b.total > b.poolTotal
                                  || (!b.endedEarly && b.total < b.poolTotal))
            && (answer.None? ==> after == After(run))
            && (answer.Some? ==>
                  && answer.value in after
                  && answer == FirstOf(run + [s], s.user, b.clientRoundId)
                  && after == if FirstOf(run, s.user, b.clientRoundId).Some? then After(run) else After(run) + [answer.value])
  {
    FirstSubmissionStands(run, s.user, s.body.clientRoundId);
    assert (run + [s])[..|run|] == run;
  }
}
