/**
 * The freshness anchor against the promise that it names the newest tour that succeeded and stored
 * something: when the two agree, and four runs in which they do not.
 */
module EarthquakeAnchor {
  import opened Options
  import L = EarthquakeLedger
  import I = EarthquakeIngest
  import opened EarthquakeTours

  lemma {:induction false} LegalPrefix(tours: seq<Tour>, i: nat, retentionDays: int)
    requires Legal(tours, retentionDays) && i <= |tours|
    ensures Legal(tours[..i], retentionDays)
  {
    if i == |tours| {
      assert tours[..i] == tours;
    } else {
      LegalPrefix(tours[..|tours| - 1], i, retentionDays);
      assert tours[..|tours| - 1][..i] == tours[..i];
    }
  }

  /** The events that tour `i` meets. */
  ghost function Met(tours: seq<Tour>, i: nat, retentionDays: int): I.Events
    requires Legal(tours, retentionDays) && i <= |tours|
  {
    LegalPrefix(tours, i, retentionDays);
    After(tours[..i], retentionDays).events
  }

  /** Tour `i` got some row through that the table it met did not hold already. */
  ghost predicate BringsNews(tours: seq<Tour>, i: nat, retentionDays: int)
    requires Legal(tours, retentionDays) && AllWellFormed(tours) && i < |tours|
  {
    exists w :: w in WritesOf(tours[i]) && !I.Holds(Met(tours, i, retentionDays), w.row)
  }

  // ---------------------------------------------------------------- storing something

  lemma {:induction false} LandedWrites(rows: seq<I.Incoming>, refused: seq<bool>, now: int, n: nat, w: I.Write)
    requires n <= |rows| == |refused|
    ensures w in I.Landed(rows, refused, now, n)
            <==> exists i :: 0 <= i < n && !refused[i] && w == I.Write(rows[i], now)
  {
    if n == 0 {
    } else {
      LandedWrites(rows, refused, now, n - 1, w);
    }
  }

  ghost predicate HeldBy(events: I.Events, writes: seq<I.Write>) {
    forall w :: w in writes ==> I.Holds(events, w.row)
  }

  lemma RowsHeld(events: I.Events, rows: seq<I.Incoming>, refused: seq<bool>, now: int)
    requires |rows| == |refused|
    ensures HeldBy(events, I.Landed(rows, refused, now, |rows|)) <==> I.AllHeld(events, rows, refused, |rows|)
  {
    forall w: I.Write
      ensures w in I.Landed(rows, refused, now, |rows|)
              <==> exists i :: 0 <= i < |rows| && !refused[i] && w == I.Write(rows[i], now)
    {
      LandedWrites(rows, refused, now, |rows|, w);
    }
    if HeldBy(events, I.Landed(rows, refused, now, |rows|)) {
      forall i | 0 <= i < |rows| && !refused[i]
        ensures I.Holds(events, rows[i])
      {
        assert I.Write(rows[i], now) in I.Landed(rows, refused, now, |rows|);
      }
    }
  }

  lemma {:induction false} LoadWritesNothingIff(events: I.Events, chunks: seq<Chunk>)
    ensures var c := LoadCounts(events, chunks); c.inserted + c.updated == 0 <==> HeldBy(events, ChunkWrites(chunks))
    ensures HeldBy(events, ChunkWrites(chunks)) ==> Loaded(events, chunks) == events
  {
    if chunks == [] {
    } else {
      var init, c := chunks[..|chunks| - 1], chunks[|chunks| - 1];
      var none, before := I.NoneRefused(|c.stored|), Loaded(events, init);
      LoadWritesNothingIff(events, init);
      I.WritesNothingIff(before, c.stored, none, c.writtenAt, |c.stored|);
      RowsHeld(before, c.stored, none, c.writtenAt);
      assert HeldBy(events, ChunkWrites(chunks))
             <==> HeldBy(events, ChunkWrites(init)) && HeldBy(events, I.Landed(c.stored, none, c.writtenAt, |c.stored|));
    }
  }

  /** A tour or load writes nothing exactly when the table it meets holds every row it gets through. */
  lemma WritesNothingIffHeld(events: I.Events, t: Tour)
    requires WellFormed(t)
    ensures var c := CountsBy(events, t); c.inserted + c.updated == 0 <==> HeldBy(events, WritesOf(t))
  {
    if Stores(t) {
      I.WritesNothingIff(events, t.fetch.payload.accepted, t.refused, t.writtenAt, |t.refused|);
      RowsHeld(events, t.fetch.payload.accepted, t.refused, t.writtenAt);
    } else if t.Load? {
      LoadWritesNothingIff(events, t.chunks);
    }
  }

  // ---------------------------------------------------------------- the promise

  /** The tour succeeded, which is what the outcome word says, and inserted or updated something. */
  ghost predicate StoredSomething(tours: seq<Tour>, i: nat, retentionDays: int)
    requires Legal(tours, retentionDays) && AllWellFormed(tours) && i < |tours|
  {
    var met, t := Met(tours, i, retentionDays), tours[i];
    DiagnosisOf(met, t).outcome.Ok? && CountsBy(met, t).inserted + CountsBy(met, t).updated > 0
  }

  /** Its ledger row is missing, or says that the load is contact and not coverage. */
  predicate IsLost(t: Tour) {
    t.recordFailed || (t.Load? && t.finishedAt - t.windowEnd > t.staleMaxSeconds * 1000)
  }

  /** The newest tour that succeeded and stored something. */
  ghost predicate IsPromised(tours: seq<Tour>, at: Option<int>, retentionDays: int)
    requires Legal(tours, retentionDays) && AllWellFormed(tours)
  {
    match at
    case None => forall i: nat :: i < |tours| ==> !StoredSomething(tours, i, retentionDays)
    case Some(time) =>
      && (exists i: nat :: i < |tours| && StoredSomething(tours, i, retentionDays) && tours[i].finishedAt == time)
      && forall i: nat :: i < |tours| && StoredSomething(tours, i, retentionDays) ==> tours[i].finishedAt <= time
  }

  /** What it takes: a row got through that was not held, and if it is a load, no failure stopped it. */
  lemma StoredSomethingIff(tours: seq<Tour>, i: nat, retentionDays: int)
    requires Legal(tours, retentionDays) && AllWellFormed(tours) && i < |tours|
    ensures StoredSomething(tours, i, retentionDays)
            <==> BringsNews(tours, i, retentionDays) && (tours[i].Load? ==> tours[i].failure.None?)
  {
    WritesNothingIffHeld(Met(tours, i, retentionDays), tours[i]);
  }

  /** And then its row is clean on the ledger unless it is lost. */
  lemma StoredIsLandedUnlessLost(tours: seq<Tour>, i: nat, retentionDays: int)
    requires Legal(tours, retentionDays) && AllWellFormed(tours) && i < |tours|
    requires StoredSomething(tours, i, retentionDays)
    ensures Landed(tours[i]) <==> !IsLost(tours[i])
  {
    var t, met := tours[i], Met(tours, i, retentionDays);
    if !t.recordFailed {
      CleanRunIsLanded(met, t);
      StoredIsCleanUnlessStale(met, t);
    }
  }

  lemma StoredIsCleanUnlessStale(events: I.Events, t: Tour)
    requires WellFormed(t) && DiagnosisOf(events, t).outcome.Ok?
    requires CountsBy(events, t).inserted + CountsBy(events, t).updated > 0
    ensures DiagnosisOf(events, t).errorReason.None?
            <==> !(t.Load? && t.finishedAt - t.windowEnd > t.staleMaxSeconds * 1000)
  {
    if Stores(t) {
      I.DiagnosisMeans(events, t.fetch.payload, t.refused, t.writtenAt);
      I.TourConserves(events, t.fetch.payload.accepted, t.refused, t.writtenAt, |t.refused|);
    }
  }

  /** No storing tour that finished after the anchor lost its row. */
  ghost predicate NoneLostAfter(tours: seq<Tour>, at: Option<int>, retentionDays: int)
    requires Legal(tours, retentionDays) && AllWellFormed(tours)
  {
    forall i: nat :: i < |tours| && StoredSomething(tours, i, retentionDays) && IsLost(tours[i]) ==>
                       at.Some? && tours[i].finishedAt <= at.value
  }

  /**
   * The anchor is the newest tour that succeeded and stored something exactly when no storing tour that
   * finished later lost its ledger row, and some storing tour finished at the anchor, if there is one.
   */
  lemma AnchorIsPromisedIff(tours: seq<Tour>, retentionDays: int)
    requires Legal(tours, retentionDays)
    ensures AllWellFormed(tours)
    ensures var at := L.NewestCleanFinish(After(tours, retentionDays).runs);
            IsPromised(tours, at, retentionDays)
            <==> && NoneLostAfter(tours, at, retentionDays)
                 && (at.Some? ==> exists i: nat :: i < |tours| && StoredSomething(tours, i, retentionDays)
                                                   && tours[i].finishedAt == at.value)
  {
    AnchorIsTheNewestLandedTour(tours, retentionDays);
    forall i: nat | i < |tours| && StoredSomething(tours, i, retentionDays)
      ensures Landed(tours[i]) <==> !IsLost(tours[i])
    {
      StoredIsLandedUnlessLost(tours, i, retentionDays);
    }
  }

  // ---------------------------------------------------------------- four runs in which it is not

  function Clean(runId: nat, at: int, accepted: seq<I.Incoming>): Tour {
    Tour(runId, at, at, at, Answered(I.Payload(accepted, [])), false, I.NoneRefused(|accepted|), false, None, at)
  }

  lemma OneTour(t: Tour, retentionDays: int)
    requires WellFormed(t) && t.Tour? && t.pruneAnchor.None?
    ensures Legal([t], retentionDays) && After([t], retentionDays) == Toured(State(map[], []), t, retentionDays)
  {
    var none: seq<Tour> := [];
    assert Legal(none, retentionDays) && After(none, retentionDays) == State(map[], []);
    assert Fits(After(none, retentionDays), t);
    assert [t][..|[t]| - 1] == none;
  }

  lemma TwoTours(a: Tour, b: Tour, retentionDays: int)
    requires WellFormed(a) && a.Tour? && a.pruneAnchor.None?
    requires WellFormed(b) && b.Tour? && b.pruneAnchor.None? && a.runId != b.runId
    ensures Legal([a, b], retentionDays)
  {
    OneTour(a, retentionDays);
    assert [a, b][..1] == [a];
  }

  /** The provider answers with no rows: the anchor is that tour, and no tour ever stored anything. */
  lemma EmptyTourIsTheAnchor(at: int, retentionDays: int)
    ensures var tours := [Clean(0, at, [])];
            && Legal(tours, retentionDays) && AllWellFormed(tours)
            && L.NewestCleanFinish(After(tours, retentionDays).runs) == Some(at)
            && IsPromised(tours, None, retentionDays)
  {
    var t := Clean(0, at, []);
    OneTour(t, retentionDays);
    AnchorIsTheNewestLandedTour([t], retentionDays);
    assert Landed([t][0]);
    WritesNothingIffHeld(Met([t], 0, retentionDays), t);
  }

  /** The provider repeats a row: the anchor is the second tour, and only the first stored anything. */
  lemma RepeatedRowIsTheAnchor(row: I.Incoming, at: int, later: int, retentionDays: int)
    requires at < later
    ensures var tours := [Clean(0, at, [row]), Clean(1, later, [row])];
            && Legal(tours, retentionDays) && AllWellFormed(tours)
            && L.NewestCleanFinish(After(tours, retentionDays).runs) == Some(later)
            && IsPromised(tours, Some(at), retentionDays)
  {
    var a, b := Clean(0, at, [row]), Clean(1, later, [row]);
    var tours := [a, b];
    TwoTours(a, b, retentionDays);
    AnchorIsTheNewestLandedTour(tours, retentionDays);
    assert !a.refused[0] && !b.refused[0] && Landed(tours[0]) && Landed(tours[1]);
    SecondTimeIsHeld(row, a, b, retentionDays);
  }

  lemma SecondTimeIsHeld(row: I.Incoming, a: Tour, b: Tour, retentionDays: int)
    requires a == Clean(a.runId, a.finishedAt, [row]) && b == Clean(b.runId, b.finishedAt, [row])
    requires Legal([a, b], retentionDays) && AllWellFormed([a, b]) && Legal([a], retentionDays)
    ensures var first := RunOf(Met([a, b], 0, retentionDays), a); first.inserted + first.updated > 0
    ensures var second := RunOf(Met([a, b], 1, retentionDays), b); second.inserted + second.updated == 0
  {
    OneTour(a, retentionDays);
    assert [a, b][..1] == [a] && [a, b][..0] == [];
    I.WritesNothingIff(map[], [row], a.refused, a.writtenAt, 1);
    I.OneMoreRow(map[], [row], a.refused, a.writtenAt, 0);
    I.WritesNothingIff(Met([a, b], 1, retentionDays), [row], b.refused, b.writtenAt, 1);
    assert !a.refused[0];
  }

  /** A tour that is clean, and whose ledger write fails. */
  function Unrecorded(runId: nat, at: int, accepted: seq<I.Incoming>): Tour {
    Tour(runId, at, at, at, Answered(I.Payload(accepted, [])), false, I.NoneRefused(|accepted|), true, None, at)
  }

  lemma FirstRowIsNews(row: I.Incoming, refused: seq<bool>, now: int)
    requires refused == [false]
    ensures var c := I.StoredCounts(map[], [row], refused, now, 1); c.inserted + c.updated > 0
  {
    I.WritesNothingIff(map[], [row], refused, now, 1);
    assert !refused[0] && !I.Holds(map[], row);
  }

  /** The ledger write of a later tour that inserts its row fails: the anchor stays with the earlier one. */
  lemma UnrecordedTourIsNotTheAnchor(row: I.Incoming, at: int, later: int, retentionDays: int)
    requires at < later
    ensures var tours := [Clean(0, at, []), Unrecorded(1, later, [row])];
            && Legal(tours, retentionDays) && AllWellFormed(tours)
            && L.NewestCleanFinish(After(tours, retentionDays).runs) == Some(at)
            && IsPromised(tours, Some(later), retentionDays)
  {
    var a, b := Clean(0, at, []), Unrecorded(1, later, [row]);
    var tours := [a, b];
    TwoTours(a, b, retentionDays);
    AnchorIsTheNewestLandedTour(tours, retentionDays);
    assert Landed(tours[0]) && !Landed(tours[1]);
    FirstRowIsNews(row, b.refused, later);
    NothingWasStored(tours, retentionDays);
  }

  lemma NothingWasStored(tours: seq<Tour>, retentionDays: int)
    requires |tours| == 2 && Legal(tours, retentionDays) && AllWellFormed(tours)
    requires tours[0] == Clean(0, tours[0].finishedAt, [])
    requires Stores(tours[1]) && tours[0].finishedAt < tours[1].finishedAt
    requires DiagnosisOf(map[], tours[1]).outcome.Ok?
    requires CountsBy(map[], tours[1]).inserted + CountsBy(map[], tours[1]).updated > 0
    ensures IsPromised(tours, Some(tours[1].finishedAt), retentionDays)
  {
    OneTour(tours[0], retentionDays);
    assert tours[..1] == [tours[0]];
    assert Met(tours, 1, retentionDays) == map[];
    assert StoredSomething(tours, 1, retentionDays);
  }

  /** One row loaded over a window that ended `lag` before the load did. */
  function LateLoad(row: I.Incoming, at: int, windowEnd: int, staleMaxSeconds: int): Tour {
    Load(0, at, at, false, [Chunk(1, [row], at)], windowEnd, None, staleMaxSeconds)
  }

  lemma OneLoad(t: Tour, retentionDays: int)
    requires WellFormed(t) && t.Load?
    ensures Legal([t], retentionDays) && After([t], retentionDays) == Toured(State(map[], []), t, retentionDays)
  {
    var none: seq<Tour> := [];
    assert Legal(none, retentionDays) && After(none, retentionDays) == State(map[], []);
    assert Fits(After(none, retentionDays), t);
    assert [t][..|[t]| - 1] == none;
  }

  lemma OneChunk(c: Chunk)
    ensures LoadCounts(map[], [c])
            == Plus(I.Counts(0, 0, 0, 0, 0, 0),
                    I.StoredCounts(map[], c.stored, I.NoneRefused(|c.stored|), c.writtenAt, |c.stored|))
    ensures FetchedBy([c]) == c.fetched
  {
    var none: seq<Chunk> := [];
    assert [c][..0] == none;
    assert LoadCounts(map[], none) == I.Counts(0, 0, 0, 0, 0, 0) && Loaded(map[], none) == map[];
  }

  lemma LateLoadStores(t: Tour, row: I.Incoming, at: int, windowEnd: int, staleMaxSeconds: int)
    requires t == LateLoad(row, at, windowEnd, staleMaxSeconds)
    ensures WellFormed(t) && DiagnosisOf(map[], t).outcome.Ok?
    ensures CountsBy(map[], t).inserted + CountsBy(map[], t).updated > 0
  {
    OneChunk(Chunk(1, [row], at));
    FirstRowIsNews(row, I.NoneRefused(1), at);
  }

  lemma OnlyTourMeetsNothing(t: Tour, retentionDays: int)
    requires Legal([t], retentionDays)
    ensures Met([t], 0, retentionDays) == map[]
  {
    assert [t][..0] == [];
  }

  /** A load that stored a row over a window long past: there is no anchor, though it succeeded. */
  lemma LateLoadIsNotTheAnchor(row: I.Incoming, at: int, windowEnd: int, staleMaxSeconds: int, retentionDays: int)
    requires at - windowEnd > staleMaxSeconds * 1000
    ensures var tours := [LateLoad(row, at, windowEnd, staleMaxSeconds)];
            && Legal(tours, retentionDays) && AllWellFormed(tours)
            && L.NewestCleanFinish(After(tours, retentionDays).runs) == None
            && IsPromised(tours, Some(at), retentionDays)
  {
    var t := LateLoad(row, at, windowEnd, staleMaxSeconds);
    LateLoadStores(t, row, at, windowEnd, staleMaxSeconds);
    OneLoad(t, retentionDays);
    OnlyTourMeetsNothing(t, retentionDays);
    StoredAlone(t, retentionDays);
    AnchorIsTheNewestLandedTour([t], retentionDays);
    assert !Landed(t);
  }

  lemma StoredAlone(t: Tour, retentionDays: int)
    requires WellFormed(t) && Legal([t], retentionDays) && Met([t], 0, retentionDays) == map[]
    requires DiagnosisOf(map[], t).outcome.Ok? && CountsBy(map[], t).inserted + CountsBy(map[], t).updated > 0
    ensures AllWellFormed([t]) && IsPromised([t], Some(t.finishedAt), retentionDays)
  {
    assert StoredSomething([t], 0, retentionDays);
  }
}
