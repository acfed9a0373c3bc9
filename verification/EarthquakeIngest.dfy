/**
 * One ingest tour: every accepted row is upserted on its own, the counters are diagnosed, and one
 * ledger row says what happened. The revision history of an event is a fold over its upserts.
 */
module EarthquakeIngest {
  import opened Options
  import L = EarthquakeLedger

  /** The six columns whose change is a revision of the earthquake. */
  datatype Solution = Solution(occurredAt: int, latitude: real, longitude: real, depthKm: real, magnitude: real,
                               magnitudeType: string)

  /** All the compared columns of one provider row. */
  datatype Report = Report(
    solution: Solution, magnitudeTypeRaw: string, country: Option<string>, province: Option<string>,
    district: Option<string>, locationRaw: string, placeName: string, bindingKind: string,
    bindingPlateCode: Option<string>, bindingDistanceKm: Option<real>, inScope: bool, isRevised: bool,
    providerUpdatedAt: Option<int>)

  /** One row on its way in, under its provider event id. */
  datatype Incoming = Incoming(id: string, report: Report)

  /** A row of `earthquake_events`. */
  datatype Event = Event(report: Report, revisionCount: nat, firstSeenAt: int, createdAt: int, updatedAt: int)

  type Events = map<string, Event>

  datatype UpsertResult = Inserted(revisionCount: nat) | Updated(revisionCount: nat) | Unchanged

  /** The conflict branch: nothing is written when no compared column differs. */
  function Merged(e: Event, report: Report, now: int): Event {
    if e.report == report then e
    else
      var count := e.revisionCount + if e.report.solution != report.solution then 1 else 0;
      e.(report := report, revisionCount := count, updatedAt := now)
  }

  function Upserted(events: Events, row: Incoming, now: int): (Events, UpsertResult) {
    if row.id !in events then
      (events[row.id := Event(row.report, 0, now, now, now)], Inserted(0))
    else
      var e := events[row.id];
      if e.report == row.report then (events, Unchanged)
      else
        var e' := Merged(e, row.report, now);
        (events[row.id := e'], Updated(e'.revisionCount))
  }

  // ---------------------------------------------------------------- the revision fold

  /** One committed upsert, by whichever tour. */
  datatype Write = Write(row: Incoming, now: int)

  function Written(events: Events, writes: seq<Write>): Events {
    if writes == [] then events
    else
      var last := writes[|writes| - 1];
      Upserted(Written(events, writes[..|writes| - 1]), last.row, last.now).0
  }

  function AfterWrites(writes: seq<Write>): Events {
    Written(map[], writes)
  }

  lemma OneMoreWrite(events: Events, writes: seq<Write>, w: Write)
    ensures Written(events, writes + [w]) == Upserted(Written(events, writes), w.row, w.now).0
  {
    assert (writes + [w])[..|writes|] == writes;
  }

  lemma {:induction false} WrittenInTwoParts(events: Events, first: seq<Write>, second: seq<Write>)
    ensures Written(events, first + second) == Written(Written(events, first), second)
  {
    if second == [] {
      assert first + second == first;
    } else {
      var init, last := second[..|second| - 1], second[|second| - 1];
      WrittenInTwoParts(events, first, init);
      OneMoreWrite(events, first + init, last);
      assert first + init + [last] == first + second;
    }
  }

  /** The stored row already has these columns. */
  predicate Holds(events: Events, row: Incoming) {
    row.id in events && events[row.id].report == row.report
  }

  /** The upserts of one event, in order. */
  function WritesOf(writes: seq<Write>, id: string): (r: seq<Write>)
    ensures forall w :: w in r ==> w.row.id == id
  {
    if writes == [] then []
    else
      var rest, last := WritesOf(writes[..|writes| - 1], id), writes[|writes| - 1];
      if last.row.id == id then rest + [last] else rest
  }

  predicate Revises(own: seq<Write>, k: int) {
    0 < k < |own| && own[k].row.report.solution != own[k - 1].row.report.solution
  }

  predicate Changes(own: seq<Write>, k: int) {
    0 <= k < |own| && (k == 0 || own[k].row.report != own[k - 1].row.report)
  }

  /** The upserts whose six-column projection differs from the one before. */
  function RevisionSteps(own: seq<Write>): set<int> {
    set k | 0 < k < |own| && Revises(own, k)
  }

  /** The last upsert that was the first or differed from the one before in any compared column. */
  ghost predicate IsLastChange(own: seq<Write>, k: int) {
    Changes(own, k) && forall j :: k < j < |own| ==> !Changes(own, j)
  }

  ghost predicate TellsHistory(e: Event, own: seq<Write>) {
    && own != []
    && e.report == own[|own| - 1].row.report
    && e.revisionCount == |RevisionSteps(own)|
    && e.firstSeenAt == own[0].now && e.createdAt == own[0].now
    && exists k :: IsLastChange(own, k) && e.updatedAt == own[k].now
  }

  lemma RevisesEarlier(own: seq<Write>, w: Write, k: int)
    requires k < |own|
    ensures Revises(own + [w], k) == Revises(own, k)
  {
  }

  lemma RevisionStepsGrow(own: seq<Write>, w: Write)
    requires own != []
    ensures |RevisionSteps(own + [w])| == |RevisionSteps(own)|
            + if w.row.report.solution != own[|own| - 1].row.report.solution then 1 else 0
  {
    var longer, n := own + [w], |own|;
    assert Revises(longer, n) <==> w.row.report.solution != own[n - 1].row.report.solution;
    forall k
      ensures k in RevisionSteps(longer) <==> k in RevisionSteps(own) || (k == n && Revises(longer, n))
    {
      if k < n {
        RevisesEarlier(own, w, k);
      }
    }
    assert RevisionSteps(longer) == RevisionSteps(own) + if Revises(longer, n) then {n} else {};
  }

  lemma LastChangeGrows(own: seq<Write>, w: Write, k: int)
    requires own != [] && IsLastChange(own, k)
    ensures IsLastChange(own + [w], if w.row.report == own[|own| - 1].row.report then k else |own|)
  {
    forall j | 0 <= j < |own|
      ensures Changes(own + [w], j) == Changes(own, j)
    {
    }
  }

  lemma HistoryGrows(e: Event, own: seq<Write>, w: Write)
    requires TellsHistory(e, own)
    ensures TellsHistory(Merged(e, w.row.report, w.now), own + [w])
  {
    RevisionStepsGrow(own, w);
    var k :| IsLastChange(own, k) && e.updatedAt == own[k].now;
    LastChangeGrows(own, w, k);
  }

  lemma HistoryStarts(w: Write)
    ensures TellsHistory(Event(w.row.report, 0, w.now, w.now, w.now), [w])
  {
    assert RevisionSteps([w]) == {};
    assert IsLastChange([w], 0);
  }

  /**
   * Over any sequence of upserts of any events, interleaved in any way: an event is stored exactly
   * when it was upserted; it holds the last upsert's columns; its revision count is the number of
   * its upserts that changed one of the six; and its update time is that of its last real change.
   */
  lemma {:induction false} RevisionFold(writes: seq<Write>, id: string)
    ensures id in AfterWrites(writes) <==> WritesOf(writes, id) != []
    ensures id in AfterWrites(writes) ==> TellsHistory(AfterWrites(writes)[id], WritesOf(writes, id))
  {
    if writes == [] {
    } else {
      var before, w := writes[..|writes| - 1], writes[|writes| - 1];
      RevisionFold(before, id);
      if w.row.id == id {
        if id in AfterWrites(before) {
          HistoryGrows(AfterWrites(before)[id], WritesOf(before, id), w);
        } else {
          assert WritesOf(writes, id) == [w];
          HistoryStarts(w);
        }
      }
    }
  }

  // ---------------------------------------------------------------- one tour

  /** What the provider's answer parsed to; every fetched row is accepted or rejected. */
  datatype Payload = Payload(accepted: seq<Incoming>, rejections: seq<string>)
  {
    function Fetched(): nat {
      |accepted| + |rejections|
    }
  }

  datatype Counts = Counts(inserted: nat, updated: nat, confirmed: nat, writeFailed: nat, outOfScope: nat,
                           plateUnresolved: nat)

  function Tally(c: Counts, row: Incoming): Counts {
    var c1 := if !row.report.inScope then c.(outOfScope := c.outOfScope + 1) else c;
    if row.report.province.Some? && row.report.bindingPlateCode.None?
    then c1.(plateUnresolved := c1.plateUnresolved + 1) else c1
  }

  function NoneRefused(n: nat): (r: seq<bool>)
    ensures |r| == n && forall i :: 0 <= i < n ==> !r[i]
  {
    seq(n, _ => false)
  }

  /** The table after the first `n` rows of the tour; `refused[i]` says the database refused row `i`. */
  function StoredEvents(events: Events, rows: seq<Incoming>, refused: seq<bool>, now: int, n: nat): Events
    requires n <= |rows| == |refused|
  {
    if n == 0 then events
    else
      var before := StoredEvents(events, rows, refused, now, n - 1);
      if refused[n - 1] then before else Upserted(before, rows[n - 1], now).0
  }

  /** One row's part in the counters, given the table it met. */
  function Counted(c: Counts, before: Events, row: Incoming, refused: bool, now: int): Counts {
    var c1 := Tally(c, row);
    if refused then c1.(writeFailed := c1.writeFailed + 1)
    else
      match Upserted(before, row, now).1
      case Inserted(_) => c1.(inserted := c1.inserted + 1)
      case Updated(_) => c1.(updated := c1.updated + 1)
      case Unchanged => c1.(confirmed := c1.confirmed + 1)
  }

  function StoredCounts(events: Events, rows: seq<Incoming>, refused: seq<bool>, now: int, n: nat): Counts
    requires n <= |rows| == |refused|
  {
    if n == 0 then Counts(0, 0, 0, 0, 0, 0)
    else
      Counted(StoredCounts(events, rows, refused, now, n - 1), StoredEvents(events, rows, refused, now, n - 1),
              rows[n - 1], refused[n - 1], now)
  }

  datatype Diagnosis = Diagnosis(outcome: L.Outcome, errorReason: Option<string>)

  const REFUSED := "the database refused every row this tour tried to write"
  const NOT_ACCEPTED := "the provider returned rows and the parser accepted none"

  function DiagnoseTour(p: Payload, c: Counts): Diagnosis {
    if c.inserted == 0 && c.updated == 0 && c.confirmed == 0 && c.writeFailed > 0 then
      Diagnosis(L.SchemaError, Some(REFUSED))
    else if p.Fetched() > 0 && |p.accepted| == 0 then
      Diagnosis(L.Ok, Some(NOT_ACCEPTED))
    else
      Diagnosis(L.Ok, None)
  }

  /** Some row was inserted, updated or confirmed unchanged. */
  ghost predicate Reached(refused: seq<bool>, n: nat)
    requires n <= |refused|
  {
    exists i :: 0 <= i < n && !refused[i]
  }

  lemma CountedOnce(c: Counts, before: Events, row: Incoming, refused: bool, now: int)
    ensures var c1 := Counted(c, before, row, refused, now);
            && c1.inserted + c1.updated + c1.confirmed + c1.writeFailed
               == c.inserted + c.updated + c.confirmed + c.writeFailed + 1
            && c1.inserted + c1.updated + c1.confirmed
               == c.inserted + c.updated + c.confirmed + if refused then 0 else 1
  {
  }

  /** Every accepted row is counted exactly once, and the store was reached exactly when some row was not refused. */
  lemma {:induction false} TourConserves(events: Events, rows: seq<Incoming>, refused: seq<bool>, now: int, n: nat)
    requires n <= |rows| == |refused|
    ensures var c := StoredCounts(events, rows, refused, now, n);
            && c.inserted + c.updated + c.confirmed + c.writeFailed == n
            && (c.inserted + c.updated + c.confirmed > 0 <==> Reached(refused, n))
  {
    if n == 0 {
    } else {
      TourConserves(events, rows, refused, now, n - 1);
      CountedOnce(StoredCounts(events, rows, refused, now, n - 1), StoredEvents(events, rows, refused, now, n - 1),
                  rows[n - 1], refused[n - 1], now);
      assert Reached(refused, n) <==> Reached(refused, n - 1) || !refused[n - 1];
    }
  }

  function CountRows(f: Incoming -> bool, rows: seq<Incoming>, n: nat): nat
    requires n <= |rows|
  {
    if n == 0 then 0 else CountRows(f, rows, n - 1) + if f(rows[n - 1]) then 1 else 0
  }

  function OutOfScope(): Incoming -> bool {
    (row: Incoming) => !row.report.inScope
  }

  function PlateUnresolved(): Incoming -> bool {
    (row: Incoming) => row.report.province.Some? && row.report.bindingPlateCode.None?
  }

  lemma TallyMeans(c: Counts, before: Events, row: Incoming, refused: bool, now: int)
    ensures var d := Counted(c, before, row, refused, now);
            && d.outOfScope == c.outOfScope + (if OutOfScope()(row) then 1 else 0)
            && d.plateUnresolved == c.plateUnresolved + if PlateUnresolved()(row) then 1 else 0
  {
  }

  lemma InsertMeans(c: Counts, before: Events, row: Incoming, refused: bool, now: int)
    ensures var after := if refused then before else Upserted(before, row, now).0;
            |after.Keys| == |before.Keys| + Counted(c, before, row, refused, now).inserted - c.inserted
  {
    assert Upserted(before, row, now).0.Keys == before.Keys + {row.id};
  }

  /** The table grows by exactly the inserted rows. */
  lemma {:induction false} InsertedIsGrowth(events: Events, rows: seq<Incoming>, refused: seq<bool>, now: int, n: nat)
    requires n <= |rows| == |refused|
    ensures |StoredEvents(events, rows, refused, now, n).Keys|
            == |events.Keys| + StoredCounts(events, rows, refused, now, n).inserted
  {
    if n == 0 {
    } else {
      InsertedIsGrowth(events, rows, refused, now, n - 1);
      InsertMeans(StoredCounts(events, rows, refused, now, n - 1), StoredEvents(events, rows, refused, now, n - 1),
                  rows[n - 1], refused[n - 1], now);
    }
  }

  /** Out-of-scope and unresolved rows are counted whether stored or refused. */
  lemma {:induction false} RowPropertiesAreCounted(events: Events, rows: seq<Incoming>, refused: seq<bool>, now: int, n: nat)
    requires n <= |rows| == |refused|
    ensures var c := StoredCounts(events, rows, refused, now, n);
            c.outOfScope == CountRows(OutOfScope(), rows, n) && c.plateUnresolved == CountRows(PlateUnresolved(), rows, n)
  {
    if n == 0 {
    } else {
      RowPropertiesAreCounted(events, rows, refused, now, n - 1);
      TallyMeans(StoredCounts(events, rows, refused, now, n - 1), StoredEvents(events, rows, refused, now, n - 1),
                 rows[n - 1], refused[n - 1], now);
    }
  }

  /**
   * What the ledger row means: a clean `ok` exactly when some row reached the store or the provider
   * returned nothing at all; `schema_error` exactly when there was something to write and all of it
   * was refused; and `ok` with a reason exactly when rows came and none was accepted.
   */
  lemma DiagnosisMeans(events: Events, p: Payload, refused: seq<bool>, now: int)
    requires |refused| == |p.accepted|
    ensures var d := DiagnoseTour(p, StoredCounts(events, p.accepted, refused, now, |refused|));
            && (d == Diagnosis(L.Ok, None) <==> Reached(refused, |refused|) || p.Fetched() == 0)
            && (d.outcome == L.SchemaError <==> refused != [] && forall i :: 0 <= i < |refused| ==> refused[i])
            && (d.outcome == L.Ok && d.errorReason.Some? <==> p.accepted == [] && p.rejections != [])
  {
    TourConserves(events, p.accepted, refused, now, |refused|);
  }

  /** A tour is nothing but the upserts of its rows that were not refused. */
  function Landed(rows: seq<Incoming>, refused: seq<bool>, now: int, n: nat): seq<Write>
    requires n <= |rows| == |refused|
  {
    if n == 0 then []
    else if refused[n - 1] then Landed(rows, refused, now, n - 1)
    else Landed(rows, refused, now, n - 1) + [Write(rows[n - 1], now)]
  }

  lemma OneMoreRow(events: Events, rows: seq<Incoming>, refused: seq<bool>, now: int, n: nat)
    requires n < |rows| == |refused|
    ensures StoredEvents(events, rows, refused, now, n + 1)
            == if refused[n] then StoredEvents(events, rows, refused, now, n)
               else Upserted(StoredEvents(events, rows, refused, now, n), rows[n], now).0
  {
  }

  lemma {:induction false} TourIsItsWrites(events: Events, rows: seq<Incoming>, refused: seq<bool>, now: int, n: nat)
    requires n <= |rows| == |refused|
    ensures StoredEvents(events, rows, refused, now, n) == Written(events, Landed(rows, refused, now, n))
  {
    if n == 0 {
    } else {
      TourIsItsWrites(events, rows, refused, now, n - 1);
      OneMoreRow(events, rows, refused, now, n - 1);
      if !refused[n - 1] {
        OneMoreWrite(events, Landed(rows, refused, now, n - 1), Write(rows[n - 1], now));
      }
    }
  }

  /** One row adds to `confirmed` exactly when the table it meets holds it, and otherwise to the writes. */
  lemma ConfirmedMeans(c: Counts, before: Events, row: Incoming, refused: bool, now: int)
    ensures var d := Counted(c, before, row, refused, now);
            && d.confirmed == c.confirmed + (if !refused && Holds(before, row) then 1 else 0)
            && d.writeFailed == c.writeFailed + (if refused then 1 else 0)
            && d.inserted + d.updated == c.inserted + c.updated + if !refused && !Holds(before, row) then 1 else 0
    ensures Holds(before, row) ==> Upserted(before, row, now).0 == before
  {
  }

  /** Every row the database would take is stored as it is already. */
  ghost predicate AllHeld(events: Events, rows: seq<Incoming>, refused: seq<bool>, n: nat)
    requires n <= |rows| == |refused|
  {
    forall i :: 0 <= i < n && !refused[i] ==> Holds(events, rows[i])
  }

  /**
   * A tour writes nothing exactly when every row that was not refused is already held by the table
   * the tour meets; and then the table is untouched.
   */
  lemma {:induction false} WritesNothingIff(events: Events, rows: seq<Incoming>, refused: seq<bool>, now: int, n: nat)
    requires n <= |rows| == |refused|
    ensures var c := StoredCounts(events, rows, refused, now, n);
            c.inserted + c.updated == 0 <==> AllHeld(events, rows, refused, n)
    ensures AllHeld(events, rows, refused, n) ==> StoredEvents(events, rows, refused, now, n) == events
  {
    if n == 0 {
    } else {
      WritesNothingIff(events, rows, refused, now, n - 1);
      ConfirmedMeans(StoredCounts(events, rows, refused, now, n - 1), StoredEvents(events, rows, refused, now, n - 1),
                     rows[n - 1], refused[n - 1], now);
      assert AllHeld(events, rows, refused, n)
             <==> AllHeld(events, rows, refused, n - 1) && (refused[n - 1] || Holds(events, rows[n - 1]));
    }
  }

  /**
   * What a clean `ok` does not say: the tour stored something exactly when some row was neither
   * refused nor already held by the table it met.
   */
  lemma CleanTourStoredSomethingIff(events: Events, p: Payload, refused: seq<bool>, now: int)
    requires |refused| == |p.accepted|
    requires DiagnoseTour(p, StoredCounts(events, p.accepted, refused, now, |refused|)) == Diagnosis(L.Ok, None)
    ensures var c := StoredCounts(events, p.accepted, refused, now, |refused|);
            c.inserted + c.updated > 0
            <==> exists i :: 0 <= i < |refused| && !refused[i] && !Holds(events, p.accepted[i])
  {
    WritesNothingIff(events, p.accepted, refused, now, |refused|);
  }

  /** The provider returned nothing: a clean `ok` that stored nothing. */
  lemma EmptyAnswerIsClean(events: Events, now: int)
    ensures var p, c := Payload([], []), StoredCounts(events, [], [], now, 0);
            && p.Fetched() == 0 && DiagnoseTour(p, c) == Diagnosis(L.Ok, None)
            && c.inserted + c.updated == 0 && StoredEvents(events, [], [], now, 0) == events
  {
  }

  /** The provider returned one row the store already holds: a clean `ok` that stored nothing. */
  lemma HeldRowIsClean(events: Events, row: Incoming, now: int)
    requires Holds(events, row)
    ensures var p, c := Payload([row], []), StoredCounts(events, [row], [false], now, 1);
            && p.Fetched() == 1 && DiagnoseTour(p, c) == Diagnosis(L.Ok, None)
            && c.inserted + c.updated == 0 && StoredEvents(events, [row], [false], now, 1) == events
  {
    WritesNothingIff(events, [row], [false], now, 1);
    TourConserves(events, [row], [false], now, 1);
  }
}
