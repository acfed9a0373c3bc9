/** When replaying a window changes nothing, whatever the database refuses in either tour. */
module EarthquakeReplay {
  import opened Options
  import opened EarthquakeIngest

  /** What the first `n` rows of a tour leave about one id: the last row not refused has these columns. */
  predicate LastWord(events: Events, rows: seq<Incoming>, refused: seq<bool>, n: nat, row: Incoming)
    requires n <= |rows| == |refused|
  {
    if n == 0 then Holds(events, row)
    else if !refused[n - 1] && rows[n - 1].id == row.id then rows[n - 1] == row
    else LastWord(events, rows, refused, n - 1, row)
  }

  lemma UpsertedHolds(events: Events, row: Incoming, now: int, other: Incoming)
    ensures Holds(Upserted(events, row, now).0, other) <==> if row.id == other.id then row == other else Holds(events, other)
  {
  }

  lemma {:induction false} TourLeavesTheLastWord(events: Events, rows: seq<Incoming>, refused: seq<bool>, now: int, n: nat,
                                                 row: Incoming)
    requires n <= |rows| == |refused|
    ensures Holds(StoredEvents(events, rows, refused, now, n), row) <==> LastWord(events, rows, refused, n, row)
  {
    if n == 0 {
    } else {
      TourLeavesTheLastWord(events, rows, refused, now, n - 1, row);
      OneMoreRow(events, rows, refused, now, n - 1);
      UpsertedHolds(StoredEvents(events, rows, refused, now, n - 1), rows[n - 1], now, row);
    }
  }

  /**
   * Replaying a window writes nothing exactly when each row the replay gets through was the last word
   * about its id the first time, or the table held it before and the first tour got no word of that id
   * through. Then the table is untouched.
   */
  lemma ReplayIsNoOp(events: Events, rows: seq<Incoming>, first: seq<bool>, second: seq<bool>, now: int, again: int)
    requires |rows| == |first| == |second|
    ensures var after := StoredEvents(events, rows, first, now, |rows|);
            var c := StoredCounts(after, rows, second, again, |rows|);
            && (c.inserted + c.updated == 0
                <==> forall i :: 0 <= i < |rows| && !second[i] ==> LastWord(events, rows, first, |rows|, rows[i]))
            && (c.inserted + c.updated == 0 ==> StoredEvents(after, rows, second, again, |rows|) == after)
  {
    var after := StoredEvents(events, rows, first, now, |rows|);
    WritesNothingIff(after, rows, second, again, |rows|);
    forall i | 0 <= i < |rows|
      ensures Holds(after, rows[i]) <==> LastWord(events, rows, first, |rows|, rows[i])
    {
      TourLeavesTheLastWord(events, rows, first, now, |rows|, rows[i]);
    }
  }

  // ---------------------------------------------------------------- nothing refused

  ghost predicate SameIdSameReport(rows: seq<Incoming>) {
    forall i, j :: 0 <= i < |rows| && 0 <= j < |rows| && rows[i].id == rows[j].id ==> rows[i] == rows[j]
  }

  lemma {:induction false} OnlyOneLastWord(events: Events, rows: seq<Incoming>, refused: seq<bool>, n: nat, a: Incoming,
                                           b: Incoming)
    requires n <= |rows| == |refused| && a.id == b.id
    requires LastWord(events, rows, refused, n, a) && LastWord(events, rows, refused, n, b)
    ensures a == b
  {
    if n == 0 {
    } else if !refused[n - 1] && rows[n - 1].id == a.id {
    } else {
      OnlyOneLastWord(events, rows, refused, n - 1, a, b);
    }
  }

  lemma {:induction false} EveryRowIsLast(events: Events, rows: seq<Incoming>, n: nat, i: nat)
    requires i < n <= |rows| && SameIdSameReport(rows)
    ensures LastWord(events, rows, NoneRefused(|rows|), n, rows[i])
  {
    if rows[n - 1].id == rows[i].id {
      assert rows[n - 1] == rows[i];
    } else {
      EveryRowIsLast(events, rows, n - 1, i);
    }
  }

  /**
   * With nothing refused a replay is a no-op exactly when the window does not report one id in two
   * ways. The parser does not deduplicate, so a window that does is rewritten by every replay.
   */
  lemma WholeReplayIsNoOp(events: Events, rows: seq<Incoming>, now: int, again: int)
    ensures var none := NoneRefused(|rows|);
            var c := StoredCounts(StoredEvents(events, rows, none, now, |rows|), rows, none, again, |rows|);
            c.inserted + c.updated == 0 <==> SameIdSameReport(rows)
  {
    var none := NoneRefused(|rows|);
    ReplayIsNoOp(events, rows, none, none, now, again);
    if SameIdSameReport(rows) {
      forall i | 0 <= i < |rows|
        ensures LastWord(events, rows, none, |rows|, rows[i])
      {
        EveryRowIsLast(events, rows, |rows|, i);
      }
    }
    if forall i :: 0 <= i < |rows| ==> LastWord(events, rows, none, |rows|, rows[i]) {
      forall i, j | 0 <= i < |rows| && 0 <= j < |rows| && rows[i].id == rows[j].id
        ensures rows[i] == rows[j]
      {
        OnlyOneLastWord(events, rows, none, |rows|, rows[i], rows[j]);
      }
      assert SameIdSameReport(rows);
    }
  }

  /** A window with one id in two ways: its replay rewrites the row twice and counts two more revisions. */
  lemma ReplayCanRewrite(report: Report, now: int, again: int)
    ensures var other := report.(solution := report.solution.(magnitude := report.solution.magnitude + 1.0));
            var rows := [Incoming("a", report), Incoming("a", other)];
            var after := StoredEvents(map[], rows, NoneRefused(2), now, 2);
            var replayed := StoredEvents(after, rows, NoneRefused(2), again, 2);
            && "a" in after && after["a"].revisionCount == 1
            && "a" in replayed && replayed["a"].revisionCount == 3
            && StoredCounts(after, rows, NoneRefused(2), again, 2).updated == 2
  {
    var other := report.(solution := report.solution.(magnitude := report.solution.magnitude + 1.0));
    var rows := [Incoming("a", report), Incoming("a", other)];
    var none := NoneRefused(2);
    var first := Event(report, 0, now, now, now);
    assert StoredEvents(map[], rows, none, now, 1) == map["a" := first];
    var after := StoredEvents(map[], rows, none, now, 2);
    assert after["a"] == Merged(first, other, now);
    assert StoredEvents(after, rows, none, again, 0) == after && "a" in after;
    var half := StoredEvents(after, rows, none, again, 1);
    assert half == Upserted(after, rows[0], again).0;
    assert half["a"] == Merged(after["a"], report, again);
    assert Upserted(after, rows[0], again).1.Updated? && Upserted(half, rows[1], again).1.Updated?;
    assert StoredCounts(after, rows, none, again, 1).updated == 1;
  }
}
