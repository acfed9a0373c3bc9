/**
 * Pages read one request at a time when users may tie: every request ranks anew and may order a tied
 * block as it likes, so what the reader sees depends on where the pages break.
 */
module LeaderboardPages {
  import opened Division
  import opened Options
  import opened Leaderboard
  import opened Sizes

  // ---------------------------------------------------------------- what every table shares

  lemma BetterStandsBefore(t: seq<Round>, j: nat, i: nat)
    requires Ordered(t) && j < |t| && i < |t| && Better(t[j].Key(), t[i].Key())
    ensures j < i
  {
  }

  /** What one table lists up to a key better than `t[i]`'s, `t` lists before place `i`. */
  lemma ListedEarlier(rounds: seq<Round>, mode: string, s: seq<Round>, t: seq<Round>, i: nat, k: nat)
    requires IsTable(rounds, mode, s) && IsTable(rounds, mode, t) && k <= i < |s| && i < |t|
    requires Better(s[i].Key(), t[i].Key())
    ensures s[k].user in UsersUpTo(t, i)
  {
    TableKey(rounds, mode, s, k);
    var j := PlaceOf(rounds, mode, t, s[k].user);
    AtLeastAsGood(s[k].Key(), s[i].Key(), t[i].Key());
    BetterStandsBefore(t, j, i);
    UsersUpToHas(t, i, s[k].user);
  }

  /** With ties or without, place `i` never has a strictly better key in one table than in another. */
  lemma NoBetterPlace(rounds: seq<Round>, mode: string, s: seq<Round>, t: seq<Round>, i: nat)
    requires IsTable(rounds, mode, s) && IsTable(rounds, mode, t) && i < |s| && i < |t|
    ensures !Better(s[i].Key(), t[i].Key())
  {
    if Better(s[i].Key(), t[i].Key()) {
      forall u | u in UsersUpTo(s, i + 1)
        ensures u in UsersUpTo(t, i)
      {
        UsersUpToHas(s, i + 1, u);
        var k :| 0 <= k < i + 1 && s[k].user == u;
        ListedEarlier(rounds, mode, s, t, i, k);
      }
      UsersUpToCount(s, i + 1);
      UsersUpToCount(t, i);
      SubsetSize(UsersUpTo(s, i + 1), UsersUpTo(t, i));
      assert false;
    }
  }

  /** Every table has the same key at every place; only the users of a tied block may change places. */
  lemma SameKeys(rounds: seq<Round>, mode: string, s: seq<Round>, t: seq<Round>)
    requires IsTable(rounds, mode, s) && IsTable(rounds, mode, t)
    ensures |s| == |t| && forall i :: 0 <= i < |s| ==> s[i].Key() == t[i].Key()
  {
    TableCount(rounds, mode, s);
    TableCount(rounds, mode, t);
    forall i | 0 <= i < |s|
      ensures s[i].Key() == t[i].Key()
    {
      NoBetterPlace(rounds, mode, s, t, i);
      NoBetterPlace(rounds, mode, t, s, i);
      NeitherBetter(s[i].Key(), t[i].Key());
    }
  }

  // ---------------------------------------------------------------- the pages, entry by entry

  /** One past the last entry of the first `n` pages. */
  function Reach(total: nat, n: nat, size: nat): (r: nat)
    ensures r <= total
  {
    if n == 0 then 0
    else
      var before := Reach(total, n - 1, size);
      if before + size <= total then before + size else total
  }

  lemma {:induction false} ReachIs(total: nat, n: nat, size: nat)
    ensures Reach(total, n, size) == if n * size <= total then n * size else total
  {
    if n == 0 {
    } else {
      ReachIs(total, n - 1, size);
      assert n * size == (n - 1) * size + size;
    }
  }

  lemma OnePage(t: seq<Round>, n: nat, size: nat)
    requires size > 0
    ensures Page(t, n + 1, size) == t[Reach(|t|, n, size)..Reach(|t|, n + 1, size)]
  {
    ReachIs(|t|, n, size);
    ReachIs(|t|, n + 1, size);
    assert (n + 1) * size == n * size + size;
  }

  ghost predicate AllOfLength(tables: seq<seq<Round>>, total: nat) {
    forall t :: t in tables ==> |t| == total
  }

  lemma Appended(init: seq<Round>, t: seq<Round>, lo: nat, hi: nat)
    requires |init| == lo <= hi <= |t|
    ensures |init + t[lo..hi]| == hi
    ensures forall x :: 0 <= x < lo ==> (init + t[lo..hi])[x] == init[x]
    ensures forall x :: lo <= x < hi ==> (init + t[lo..hi])[x] == t[x]
  {
  }

  lemma AllButLast(tables: seq<seq<Round>>, total: nat)
    requires AllOfLength(tables, total) && tables != []
    ensures AllOfLength(tables[..|tables| - 1], total) && |tables[|tables| - 1]| == total
  {
    assert tables[|tables| - 1] in tables && forall t :: t in tables[..|tables| - 1] ==> t in tables;
  }

  lemma LastPage(tables: seq<seq<Round>>, size: nat, total: nat, n: nat)
    requires size > 0 && |tables| == n + 1 && |tables[n]| == total
    ensures Reach(total, n, size) <= Reach(total, n + 1, size)
    ensures ReadPages(tables, size)
            == ReadPages(tables[..n], size) + tables[n][Reach(total, n, size)..Reach(total, n + 1, size)]
  {
    OnePage(tables[n], n, size);
  }

  lemma {:induction false} PagesLength(tables: seq<seq<Round>>, size: nat, total: nat)
    requires size > 0 && AllOfLength(tables, total)
    ensures |ReadPages(tables, size)| == Reach(total, |tables|, size)
  {
    if tables == [] {
    } else {
      var n := |tables| - 1;
      AllButLast(tables, total);
      LastPage(tables, size, total, n);
      PagesLength(tables[..n], size, total);
      Appended(ReadPages(tables[..n], size), tables[n], Reach(total, n, size), Reach(total, n + 1, size));
    }
  }

  lemma WholeLength(tables: seq<seq<Round>>, size: nat, total: nat)
    requires size > 0 && AllOfLength(tables, total) && total <= |tables| * size
    ensures |ReadPages(tables, size)| == total
  {
    PagesLength(tables, size, total);
    ReachIs(total, |tables|, size);
  }

  lemma {:induction false} ReachGrows(total: nat, m: nat, n: nat, size: nat)
    requires m <= n
    ensures Reach(total, m, size) <= Reach(total, n, size)
    decreases n
  {
    if m == n {
    } else {
      ReachGrows(total, m, n - 1, size);
    }
  }

  /** Page `k + 1` comes from the table that its request saw. */
  lemma {:induction false} EntryOfPage(tables: seq<seq<Round>>, size: nat, total: nat, k: nat, x: nat)
    requires size > 0 && AllOfLength(tables, total) && k < |tables|
    requires Reach(total, k, size) <= x < Reach(total, k + 1, size)
    ensures |tables[k]| == total && x < |ReadPages(tables, size)| && ReadPages(tables, size)[x] == tables[k][x]
  {
    var n := |tables| - 1;
    AllButLast(tables, total);
    LastPage(tables, size, total, n);
    PagesLength(tables[..n], size, total);
    Appended(ReadPages(tables[..n], size), tables[n], Reach(total, n, size), Reach(total, n + 1, size));
    if k == n {
    } else {
      ReachGrows(total, k + 1, n, size);
      EntryOfPage(tables[..n], size, total, k, x);
    }
  }

  lemma EntryOfPages(tables: seq<seq<Round>>, size: nat, total: nat, x: nat)
    requires size > 0 && x < total <= |tables| * size && AllOfLength(tables, total)
    ensures x < |ReadPages(tables, size)|
    ensures 0 <= x / size < |tables| && |tables[x / size]| == total
    ensures ReadPages(tables, size)[x] == tables[x / size][x]
  {
    PageNumber(x, |tables|, size);
    ReachIs(total, x / size, size);
    ReachIs(total, x / size + 1, size);
    EntryOfPage(tables, size, total, x / size, x);
  }

  lemma PageNumber(x: nat, pages: nat, size: nat)
    requires size > 0 && x < pages * size
    ensures 0 <= x / size < pages && x / size * size <= x < (x / size + 1) * size
  {
    Product(pages - x / size, size);
    assert (pages - x / size) * size == pages * size - x + x % size;
    assert (x / size + 1) * size == x - x % size + size;
  }

  // ---------------------------------------------------------------- exactly when

  /** A page ends before place `x`, and the two users there are alike in all four columns. */
  predicate Straddles(table: seq<Round>, size: nat, x: nat)
    requires size > 0
  {
    0 < x < |table| && x % size == 0 && table[x - 1].Key() == table[x].Key()
  }

  /** No two users alike in all four columns stand on either side of a page break. */
  predicate NoBlockStraddles(table: seq<Round>, size: nat)
    requires size > 0
  {
    forall x: nat :: x < |table| ==> !Straddles(table, size, x)
  }

  ghost predicate ListsEachOnce(rounds: seq<Round>, mode: string, list: seq<Round>) {
    OneEach(list) && ListsAll(rounds, mode, list)
  }

  ghost predicate AreTables(rounds: seq<Round>, mode: string, tables: seq<seq<Round>>) {
    forall t :: t in tables ==> IsTable(rounds, mode, t)
  }

  /** Whatever table each request saw, the pages in turn list every user of the mode once. */
  ghost predicate AlwaysListsEachOnce(rounds: seq<Round>, mode: string, size: nat, pages: nat) {
    forall tables: seq<seq<Round>> ::
      |tables| == pages && AreTables(rounds, mode, tables)
      ==> ListsEachOnce(rounds, mode, ReadPages(tables, size))
  }

  lemma EqualBetween(table: seq<Round>, x: nat, y: nat, b: nat)
    requires Ordered(table) && x < b <= y < |table| && table[x].Key() == table[y].Key()
    ensures table[b - 1].Key() == table[b].Key()
  {
    Between(table[x].Key(), table[b - 1].Key(), table[y].Key());
    Between(table[x].Key(), table[b].Key(), table[y].Key());
    assert x < b - 1 ==> !Better(table[b - 1].Key(), table[x].Key());
    assert b - 1 < y ==> !Better(table[y].Key(), table[b - 1].Key());
    assert !Better(table[b].Key(), table[x].Key());
    assert b < y ==> !Better(table[y].Key(), table[b].Key());
  }

  lemma Between(a: Standing, b: Standing, c: Standing)
    ensures a == c && !Better(b, a) && !Better(c, b) ==> b == a
  {
    if a == c && !Better(b, a) && !Better(c, b) {
      NeitherBetter(b, a);
    }
  }

  lemma SameLengths(rounds: seq<Round>, mode: string, tables: seq<seq<Round>>)
    requires AreTables(rounds, mode, tables)
    ensures AllOfLength(tables, |TableOf(rounds, mode)|)
  {
    forall t | t in tables
      ensures |t| == |TableOf(rounds, mode)|
    {
      SameKeys(rounds, mode, t, TableOf(rounds, mode));
    }
  }

  /** On either side of a page break that splits no tied block there are different users. */
  lemma ApartByKey(rounds: seq<Round>, mode: string, p: seq<Round>, q: seq<Round>, x: nat, y: nat, b: nat)
    requires IsTable(rounds, mode, p) && IsTable(rounds, mode, q)
    requires x < b <= y < |TableOf(rounds, mode)|
    requires TableOf(rounds, mode)[b - 1].Key() != TableOf(rounds, mode)[b].Key()
    ensures |p| == |q| == |TableOf(rounds, mode)| && p[x].user != q[y].user
  {
    var t := TableOf(rounds, mode);
    SameKeys(rounds, mode, p, t);
    SameKeys(rounds, mode, q, t);
    TableKey(rounds, mode, p, x);
    TableKey(rounds, mode, q, y);
    if t[x].Key() == t[y].Key() {
      EqualBetween(t, x, y, b);
    }
  }

  lemma ApartInOneTable(rounds: seq<Round>, mode: string, p: seq<Round>, x: nat, y: nat)
    requires IsTable(rounds, mode, p) && x < y < |p|
    ensures p[x].user != p[y].user
  {
  }

  /** Entries of the pages of tables `i` and `j`, with the page break `b` between them if they differ. */
  lemma UsersApart(rounds: seq<Round>, mode: string, tables: seq<seq<Round>>, x: nat, y: nat, i: nat, j: nat, b: nat)
    requires AreTables(rounds, mode, tables) && AllOfLength(tables, |TableOf(rounds, mode)|)
    requires x < y < |TableOf(rounds, mode)| && i <= j < |tables|
    requires i < j ==>
               x < b <= y && TableOf(rounds, mode)[b - 1].Key() != TableOf(rounds, mode)[b].Key()
    ensures |tables[i]| == |tables[j]| == |TableOf(rounds, mode)| && tables[i][x].user != tables[j][y].user
  {
    assert tables[i] in tables && tables[j] in tables;
    if i < j {
      ApartByKey(rounds, mode, tables[i], tables[j], x, y, b);
    } else {
      ApartInOneTable(rounds, mode, tables[i], x, y);
    }
  }

  lemma BreakBetween(t: seq<Round>, size: nat, x: nat, y: nat) returns (b: nat)
    requires size > 0 && NoBlockStraddles(t, size) && x < y < |t|
    ensures x / size <= y / size
    ensures x / size < y / size ==> x < b <= y && t[b - 1].Key() != t[b].Key()
  {
    PagesInOrder(x, y, size);
    b := y / size * size;
    assert x / size < y / size ==> !Straddles(t, size, b);
  }

  lemma PageEntriesApart(rounds: seq<Round>, mode: string, size: nat, tables: seq<seq<Round>>, x: nat, y: nat)
    requires size > 0 && |TableOf(rounds, mode)| <= |tables| * size
    requires NoBlockStraddles(TableOf(rounds, mode), size)
    requires AreTables(rounds, mode, tables) && x < y < |TableOf(rounds, mode)|
    ensures |ReadPages(tables, size)| == |TableOf(rounds, mode)|
    ensures ReadPages(tables, size)[x].user != ReadPages(tables, size)[y].user
  {
    SameLengths(rounds, mode, tables);
    EntryIsAUser(rounds, mode, size, tables, x);
    EntryIsAUser(rounds, mode, size, tables, y);
    var b := BreakBetween(TableOf(rounds, mode), size, x, y);
    UsersApart(rounds, mode, tables, x, y, x / size, y / size, b);
  }

  lemma EntryIsAUser(rounds: seq<Round>, mode: string, size: nat, tables: seq<seq<Round>>, x: nat)
    requires size > 0 && |TableOf(rounds, mode)| <= |tables| * size
    requires AreTables(rounds, mode, tables) && x < |TableOf(rounds, mode)|
    ensures 0 <= x / size < |tables| && |tables[x / size]| == |TableOf(rounds, mode)|
    ensures |ReadPages(tables, size)| == |TableOf(rounds, mode)|
    ensures ReadPages(tables, size)[x] == tables[x / size][x]
    ensures ReadPages(tables, size)[x].user in Users(rounds, mode)
  {
    SameLengths(rounds, mode, tables);
    WholeLength(tables, size, |TableOf(rounds, mode)|);
    EntryOfPages(tables, size, |TableOf(rounds, mode)|, x);
    assert tables[x / size] in tables;
    TableKey(rounds, mode, tables[x / size], x);
  }

  lemma EveryPageOnce(rounds: seq<Round>, mode: string, size: nat, tables: seq<seq<Round>>)
    requires size > 0 && |TableOf(rounds, mode)| <= |tables| * size
    requires NoBlockStraddles(TableOf(rounds, mode), size)
    requires AreTables(rounds, mode, tables)
    ensures ListsEachOnce(rounds, mode, ReadPages(tables, size))
  {
    var list := ReadPages(tables, size);
    SameLengths(rounds, mode, tables);
    WholeLength(tables, size, |TableOf(rounds, mode)|);
    forall x, y | 0 <= x < y < |list|
      ensures list[x].user != list[y].user
    {
      PageEntriesApart(rounds, mode, size, tables, x, y);
    }
    forall x | 0 <= x < |list|
      ensures list[x].user in Users(rounds, mode)
    {
      EntryIsAUser(rounds, mode, size, tables, x);
    }
    EveryUserIsListed(rounds, mode, list);
  }

  lemma PagesInOrder(x: nat, y: nat, size: nat)
    requires size > 0 && x < y
    ensures x / size <= y / size
    ensures x / size < y / size ==> x < y / size * size <= y && y / size * size % size == 0
  {
    var p, q := x / size, y / size;
    assert p * size <= x < p * size + size && q * size <= y < q * size + size;
    OrderOfQuotients(p, q, x, y, size);
    Multiple(q, size);
  }

  lemma OrderOfQuotients(p: nat, q: nat, x: nat, y: nat, size: nat)
    requires size > 0 && x < y && p * size <= x < p * size + size && q * size <= y < q * size + size
    ensures p <= q && (p < q ==> x < q * size)
  {
    Product(q - p, size);
    assert (q - p) * size == q * size - p * size;
  }

  lemma Multiple(q: nat, size: nat)
    requires size > 0
    ensures q * size % size == 0
  {
    Quotient(q * size, q, size);
  }

  /** As many entries as a table, no user twice: nobody is missing. */
  lemma EveryUserIsListed(rounds: seq<Round>, mode: string, list: seq<Round>)
    requires OneEach(list) && |list| == |TableOf(rounds, mode)|
    requires forall x :: 0 <= x < |list| ==> list[x].user in Users(rounds, mode)
    ensures ListsAll(rounds, mode, list)
  {
    var listed := UsersUpTo(list, |list|);
    forall u | u in listed
      ensures u in Users(rounds, mode)
    {
      UsersUpToHas(list, |list|, u);
    }
    UsersUpToCount(list, |list|);
    TableCount(rounds, mode, TableOf(rounds, mode));
    SubsetSize(listed, Users(rounds, mode));
    forall u | u in Users(rounds, mode)
      ensures Lists(list, u)
    {
      UsersUpToHas(list, |list|, u);
    }
  }

  /** The tables of one reading: the request for page `k + 1` sees `other`, every other one sees `t`. */
  function OneDiffers(pages: nat, k: nat, t: seq<Round>, other: seq<Round>): (tables: seq<seq<Round>>)
    ensures |tables| == pages && forall q :: 0 <= q < pages ==> tables[q] == if q == k then other else t
  {
    seq(pages, q => if q == k then other else t)
  }

  lemma OneDiffersAreTables(rounds: seq<Round>, mode: string, pages: nat, k: nat, t: seq<Round>, other: seq<Round>)
    requires IsTable(rounds, mode, t) && IsTable(rounds, mode, other)
    ensures AreTables(rounds, mode, OneDiffers(pages, k, t, other))
  {
    var tables := OneDiffers(pages, k, t, other);
    forall s | s in tables
      ensures IsTable(rounds, mode, s)
    {
      assert s == t || s == other;
    }
  }

  /** A tied block on a page break: the later page's request may show again the user the earlier page ended with. */
  lemma SwapOnBreak(rounds: seq<Round>, mode: string, size: nat, pages: nat, t: seq<Round>, b: nat)
    requires size > 0 && |t| <= pages * size && IsTable(rounds, mode, t) && Straddles(t, size, b)
    ensures !AlwaysListsEachOnce(rounds, mode, size, pages)
  {
    var other := t[b - 1 := t[b]][b := t[b - 1]];
    var tables := OneDiffers(pages, b / size, t, other);
    SwapTied(rounds, mode, t, b - 1, b);
    OneDiffersAreTables(rounds, mode, pages, b / size, t, other);
    ShownTwice(tables, size, t, b, b / size);
    NotAlways(rounds, mode, size, tables);
  }

  lemma NotAlways(rounds: seq<Round>, mode: string, size: nat, tables: seq<seq<Round>>)
    requires AreTables(rounds, mode, tables) && !OneEach(ReadPages(tables, size))
    ensures !AlwaysListsEachOnce(rounds, mode, size, |tables|)
  {
    assert !ListsEachOnce(rounds, mode, ReadPages(tables, size));
  }

  lemma ShownTwice(tables: seq<seq<Round>>, size: nat, t: seq<Round>, b: nat, k: nat)
    requires size > 0 && |t| <= |tables| * size && 0 < b < |t| && b % size == 0 && k == b / size
    requires tables == OneDiffers(|tables|, k, t, t[b - 1 := t[b]][b := t[b - 1]])
    ensures !OneEach(ReadPages(tables, size))
  {
    var list := ReadPages(tables, size);
    WholeLength(tables, size, |t|);
    EntryOfPages(tables, size, |t|, b - 1);
    EntryOfPages(tables, size, |t|, b);
    PageBreak(b, size);
    assert list[b - 1].user == list[b].user;
  }

  lemma PageBreak(b: nat, size: nat)
    requires size > 0 && b > 0 && b % size == 0
    ensures (b - 1) / size == b / size - 1
  {
    assert b == b / size * size;
    assert (b / size - 1) * size == b - size;
    Quotient(b - 1, b / size - 1, size);
  }

  lemma AlwaysOnce(rounds: seq<Round>, mode: string, size: nat, pages: nat)
    requires size > 0 && |TableOf(rounds, mode)| <= pages * size && NoBlockStraddles(TableOf(rounds, mode), size)
    ensures AlwaysListsEachOnce(rounds, mode, size, pages)
  {
    forall tables: seq<seq<Round>> | |tables| == pages && AreTables(rounds, mode, tables)
      ensures ListsEachOnce(rounds, mode, ReadPages(tables, size))
    {
      EveryPageOnce(rounds, mode, size, tables);
    }
  }

  lemma NotOnce(rounds: seq<Round>, mode: string, size: nat, pages: nat, t: seq<Round>)
    requires size > 0 && |t| <= pages * size && IsTable(rounds, mode, t) && !NoBlockStraddles(t, size)
    ensures !AlwaysListsEachOnce(rounds, mode, size, pages)
  {
    var b: nat :| b < |t| && Straddles(t, size, b);
    SwapOnBreak(rounds, mode, size, pages, t, b);
  }

  /**
   * Reading the pages in turn, each from a ranking of its own, lists every user once whatever the
   * rankings, exactly when no block of tied users lies across a page break.
   */
  lemma EachOnceIffNoBlockStraddles(rounds: seq<Round>, mode: string, size: nat, pages: nat)
    requires size > 0 && |TableOf(rounds, mode)| <= pages * size
    ensures AlwaysListsEachOnce(rounds, mode, size, pages) <==> NoBlockStraddles(TableOf(rounds, mode), size)
  {
    if NoBlockStraddles(TableOf(rounds, mode), size) {
      AlwaysOnce(rounds, mode, size, pages);
    } else {
      NotOnce(rounds, mode, size, pages, TableOf(rounds, mode));
    }
  }
}
