/**
 * Whole tours and hand-run loads over the event store and the run ledger together: what the
 * freshness anchor means after any number of them.
 */
module EarthquakeTours {
  import opened Options
  import L = EarthquakeLedger
  import I = EarthquakeIngest

  datatype Fetch = Answered(payload: I.Payload) | Unanswered(outcome: L.Outcome, reason: string)

  /** One window of a load: the rows it upserted before the next window, or before it stopped. */
  datatype Chunk = Chunk(fetched: nat, stored: seq<I.Incoming>, writtenAt: int)

  /**
   * One scheduled tour, or one hand-run load. `refused[i]` says the database refused row `i`;
   * `lookupFailed`, `recordFailed` and an absent `pruneAnchor` say that the province read, the ledger
   * write and the retention delete threw; a present `pruneAnchor` is the row the exemption's subquery
   * returned. A load stops at its first failure, a refused row included, and `failure` is its message.
   */
  datatype Tour =
    | Tour(runId: nat, startedAt: int, writtenAt: int, finishedAt: int, fetch: Fetch, lookupFailed: bool,
           refused: seq<bool>, recordFailed: bool, pruneAnchor: Option<Option<nat>>, pruneAt: int)
    | Load(runId: nat, startedAt: int, finishedAt: int, recordFailed: bool, chunks: seq<Chunk>, windowEnd: int,
           failure: Option<string>, staleMaxSeconds: int)

  datatype State = State(events: I.Events, runs: seq<L.Run>)

  const LOOKUP_FAILED := "the provider answered, but our province lookup failed"
  const NOTHING_LOADED := "the provider returned rows and not one reached the store"
  const STALE_COVERAGE := "the load records contact with the provider, not current coverage"

  predicate WellFormed(t: Tour) {
    match t
    case Tour(_, _, _, _, Answered(p), _, _, _, _, _) => |t.refused| == |p.accepted|
    case Tour(_, _, _, _, Unanswered(outcome, _), _, _, _, _, _) => outcome != L.Ok
    case Load(_, _, _, _, chunks, _, _, _) => forall c :: c in chunks ==> |c.stored| <= c.fetched
  }

  /** The tour got as far as its rows. */
  predicate Stores(t: Tour) {
    t.Tour? && t.fetch.Answered? && !t.lookupFailed
  }

  // ---------------------------------------------------------------- a load

  function FetchedBy(chunks: seq<Chunk>): nat {
    if chunks == [] then 0 else FetchedBy(chunks[..|chunks| - 1]) + chunks[|chunks| - 1].fetched
  }

  function ChunkWrites(chunks: seq<Chunk>): seq<I.Write> {
    if chunks == [] then []
    else
      var c := chunks[|chunks| - 1];
      ChunkWrites(chunks[..|chunks| - 1]) + I.Landed(c.stored, I.NoneRefused(|c.stored|), c.writtenAt, |c.stored|)
  }

  function Loaded(events: I.Events, chunks: seq<Chunk>): I.Events {
    if chunks == [] then events
    else
      var c := chunks[|chunks| - 1];
      I.StoredEvents(Loaded(events, chunks[..|chunks| - 1]), c.stored, I.NoneRefused(|c.stored|), c.writtenAt, |c.stored|)
  }

  function Plus(a: I.Counts, b: I.Counts): I.Counts {
    I.Counts(a.inserted + b.inserted, a.updated + b.updated, a.confirmed + b.confirmed, a.writeFailed + b.writeFailed,
             a.outOfScope + b.outOfScope, a.plateUnresolved + b.plateUnresolved)
  }

  function LoadCounts(events: I.Events, chunks: seq<Chunk>): I.Counts {
    if chunks == [] then I.Counts(0, 0, 0, 0, 0, 0)
    else
      var c, init := chunks[|chunks| - 1], chunks[..|chunks| - 1];
      Plus(LoadCounts(events, init),
           I.StoredCounts(Loaded(events, init), c.stored, I.NoneRefused(|c.stored|), c.writtenAt, |c.stored|))
  }

  /** `buildBackfillRunInput`: both degradations are reported, and a load that stopped is transient. */
  function DiagnoseLoad(t: Tour, c: I.Counts): I.Diagnosis
    requires t.Load?
  {
    var nothing := FetchedBy(t.chunks) > 0 && c.inserted == 0 && c.updated == 0 && c.confirmed == 0;
    var stale := t.finishedAt - t.windowEnd > t.staleMaxSeconds * 1000;
    if t.failure.Some? then I.Diagnosis(L.Transient, t.failure)
    else if nothing && stale then I.Diagnosis(L.Ok, Some(NOTHING_LOADED + "; " + STALE_COVERAGE))
    else if nothing then I.Diagnosis(L.Ok, Some(NOTHING_LOADED))
    else if stale then I.Diagnosis(L.Ok, Some(STALE_COVERAGE))
    else I.Diagnosis(L.Ok, None)
  }

  lemma {:induction false} LoadReaches(events: I.Events, chunks: seq<Chunk>)
    ensures var c := LoadCounts(events, chunks);
            c.inserted + c.updated + c.confirmed > 0 <==> exists k :: 0 <= k < |chunks| && chunks[k].stored != []
  {
    if chunks == [] {
    } else {
      var n := |chunks| - 1;
      var c := chunks[n];
      LoadReaches(events, chunks[..n]);
      I.TourConserves(Loaded(events, chunks[..n]), c.stored, I.NoneRefused(|c.stored|), c.writtenAt, |c.stored|);
      assert I.Reached(I.NoneRefused(|c.stored|), |c.stored|) <==> c.stored != [] by {
        if c.stored != [] {
          assert !I.NoneRefused(|c.stored|)[0];
        }
      }
    }
  }

  // ---------------------------------------------------------------- one tour of either kind

  function EventsBy(events: I.Events, t: Tour): I.Events
    requires WellFormed(t)
  {
    if Stores(t) then I.StoredEvents(events, t.fetch.payload.accepted, t.refused, t.writtenAt, |t.refused|)
    else if t.Load? then Loaded(events, t.chunks)
    else events
  }

  function CountsBy(events: I.Events, t: Tour): I.Counts
    requires WellFormed(t)
  {
    if Stores(t) then I.StoredCounts(events, t.fetch.payload.accepted, t.refused, t.writtenAt, |t.refused|)
    else if t.Load? then LoadCounts(events, t.chunks)
    else I.Counts(0, 0, 0, 0, 0, 0)
  }

  function FetchedIn(t: Tour): nat {
    if t.Load? then FetchedBy(t.chunks) else if t.fetch.Answered? then t.fetch.payload.Fetched() else 0
  }

  function DiagnosisOf(events: I.Events, t: Tour): I.Diagnosis
    requires WellFormed(t)
  {
    if t.Load? then DiagnoseLoad(t, CountsBy(events, t))
    else if t.fetch.Unanswered? then I.Diagnosis(t.fetch.outcome, Some(t.fetch.reason))
    else if t.lookupFailed then I.Diagnosis(L.Transient, Some(LOOKUP_FAILED))
    else I.DiagnoseTour(t.fetch.payload, CountsBy(events, t))
  }

  /** The ledger row a tour writes. */
  function RunOf(events: I.Events, t: Tour): L.Run
    requires WellFormed(t)
  {
    var c, d := CountsBy(events, t), DiagnosisOf(events, t);
    L.Run(t.runId, t.startedAt, Some(t.finishedAt), d.outcome, d.errorReason, FetchedIn(t), c.inserted, c.updated,
          c.outOfScope)
  }

  function Recorded(s: State, t: Tour): seq<L.Run>
    requires WellFormed(t)
  {
    if t.recordFailed then s.runs else L.Applied(s.runs, L.Record(RunOf(s.events, t)))
  }

  function Toured(s: State, t: Tour, retentionDays: int): State
    requires WellFormed(t)
  {
    State(EventsBy(s.events, t),
          if t.Tour? && t.pruneAnchor.Some?
          then L.Applied(Recorded(s, t), L.Prune(retentionDays, t.pruneAt, t.pruneAnchor.value)) else Recorded(s, t))
  }

  /** What the database guarantees a tour: a run id not in use, and an answer of the subquery's form. */
  ghost predicate Fits(s: State, t: Tour)
    requires WellFormed(t)
  {
    && (forall r :: r in s.runs ==> r.id != t.runId)
    && (t.Tour? && t.pruneAnchor.Some? ==> L.IsAnchor(Recorded(s, t), t.pruneAnchor.value))
  }

  ghost predicate Legal(tours: seq<Tour>, retentionDays: int)
    decreases |tours|, 0
  {
    tours == []
    || (var before, t := tours[..|tours| - 1], tours[|tours| - 1];
        Legal(before, retentionDays) && WellFormed(t) && Fits(After(before, retentionDays), t))
  }

  /** The two tables after these tours, from an empty store. */
  ghost function After(tours: seq<Tour>, retentionDays: int): State
    requires Legal(tours, retentionDays)
    decreases |tours|, 1
  {
    if tours == [] then State(map[], [])
    else Toured(After(tours[..|tours| - 1], retentionDays), tours[|tours| - 1], retentionDays)
  }

  /** A tour that prunes always has an answer to prune by: retention never blocks one. */
  lemma SomePruneFits(s: State, t: Tour)
    requires WellFormed(t) && t.Tour? && forall r :: r in s.runs ==> r.id != t.runId
    ensures exists anchor :: Fits(s, t.(pruneAnchor := Some(anchor)))
  {
    L.AnchorExists(Recorded(s, t));
    var anchor :| L.IsAnchor(Recorded(s, t), anchor);
    assert Recorded(s, t.(pruneAnchor := Some(anchor))) == Recorded(s, t);
    assert Fits(s, t.(pruneAnchor := Some(anchor)));
  }

  /**
   * The tour's row is on record and clean: it reached the store or there was nothing to reach it with,
   * and a load besides ran to its end and covers up to within the freshness budget.
   */
  ghost predicate Landed(t: Tour)
    requires WellFormed(t)
  {
    && !t.recordFailed
    && if t.Load? then
         && t.failure.None? && t.finishedAt - t.windowEnd <= t.staleMaxSeconds * 1000
         && (FetchedIn(t) == 0 || exists k :: 0 <= k < |t.chunks| && t.chunks[k].stored != [])
       else
         Stores(t) && (FetchedIn(t) == 0 || exists i :: 0 <= i < |t.refused| && !t.refused[i])
  }

  lemma CleanRunIsLanded(events: I.Events, t: Tour)
    requires WellFormed(t) && !t.recordFailed
    ensures L.Clean(RunOf(events, t)) <==> Landed(t)
  {
    if Stores(t) {
      I.DiagnosisMeans(events, t.fetch.payload, t.refused, t.writtenAt);
    } else if t.Load? {
      LoadReaches(events, t.chunks);
    }
  }

  ghost predicate AllWellFormed(tours: seq<Tour>) {
    forall i :: 0 <= i < |tours| ==> WellFormed(tours[i])
  }

  ghost predicate IsNewestLanded(tours: seq<Tour>, at: Option<int>)
    requires AllWellFormed(tours)
  {
    match at
    case None => forall i :: 0 <= i < |tours| ==> !Landed(tours[i])
    case Some(time) =>
      && (exists i :: 0 <= i < |tours| && Landed(tours[i]) && tours[i].finishedAt == time)
      && forall i :: 0 <= i < |tours| && Landed(tours[i]) ==> tours[i].finishedAt <= time
  }

  lemma NewestLandedGrows(tours: seq<Tour>, t: Tour, at: Option<int>)
    requires AllWellFormed(tours) && WellFormed(t) && IsNewestLanded(tours, at)
    ensures AllWellFormed(tours + [t])
    ensures IsNewestLanded(tours + [t],
                           if Landed(t) && (at.None? || t.finishedAt >= at.value) then Some(t.finishedAt) else at)
  {
    var longer := tours + [t];
    assert longer[|tours|] == t;
    if at.Some? {
      var i :| 0 <= i < |tours| && Landed(tours[i]) && tours[i].finishedAt == at.value;
      assert longer[i] == tours[i];
    }
  }

  lemma TouredNewest(s: State, t: Tour, retentionDays: int)
    requires WellFormed(t) && Fits(s, t)
    ensures var at := L.NewestCleanFinish(s.runs);
            L.NewestCleanFinish(Toured(s, t, retentionDays).runs)
            == if Landed(t) && (at.None? || t.finishedAt >= at.value) then Some(t.finishedAt) else at
  {
    if !t.recordFailed {
      CleanRunIsLanded(s.events, t);
      L.NewestAfterAppend(s.runs, RunOf(s.events, t));
    }
    if t.Tour? && t.pruneAnchor.Some? {
      L.PruneIsInvisible(Recorded(s, t), L.Cutoff(retentionDays, t.pruneAt), t.pruneAnchor.value);
    }
  }

  /**
   * After any tours and loads, failing or not, pruned or not: the anchor the freshness is published
   * from is the latest finish among those that landed, and is null only when none ever did.
   */
  lemma {:induction false} AnchorIsTheNewestLandedTour(tours: seq<Tour>, retentionDays: int)
    requires Legal(tours, retentionDays)
    ensures AllWellFormed(tours) && IsNewestLanded(tours, L.NewestCleanFinish(After(tours, retentionDays).runs))
  {
    if tours == [] {
    } else {
      var before, t := tours[..|tours| - 1], tours[|tours| - 1];
      AnchorIsTheNewestLandedTour(before, retentionDays);
      TouredNewest(After(before, retentionDays), t, retentionDays);
      NewestLandedGrows(before, t, L.NewestCleanFinish(After(before, retentionDays).runs));
      assert before + [t] == tours;
    }
  }

  // ---------------------------------------------------------------- the events are a fold

  /** The upserts one tour got through, in order. */
  function WritesOf(t: Tour): seq<I.Write>
    requires WellFormed(t)
  {
    if Stores(t) then I.Landed(t.fetch.payload.accepted, t.refused, t.writtenAt, |t.refused|)
    else if t.Load? then ChunkWrites(t.chunks)
    else []
  }

  lemma {:induction false} LoadIsItsWrites(events: I.Events, chunks: seq<Chunk>)
    ensures Loaded(events, chunks) == I.Written(events, ChunkWrites(chunks))
  {
    if chunks == [] {
    } else {
      var n := |chunks| - 1;
      var c := chunks[n];
      LoadIsItsWrites(events, chunks[..n]);
      I.TourIsItsWrites(Loaded(events, chunks[..n]), c.stored, I.NoneRefused(|c.stored|), c.writtenAt, |c.stored|);
      I.WrittenInTwoParts(events, ChunkWrites(chunks[..n]),
                          I.Landed(c.stored, I.NoneRefused(|c.stored|), c.writtenAt, |c.stored|));
    }
  }

  lemma TourIsItsWrites(events: I.Events, t: Tour)
    requires WellFormed(t)
    ensures EventsBy(events, t) == I.Written(events, WritesOf(t))
  {
    if Stores(t) {
      I.TourIsItsWrites(events, t.fetch.payload.accepted, t.refused, t.writtenAt, |t.refused|);
    } else if t.Load? {
      LoadIsItsWrites(events, t.chunks);
    }
  }

  /** Every upsert of every tour, in order. */
  ghost function AllWrites(tours: seq<Tour>, retentionDays: int): seq<I.Write>
    requires Legal(tours, retentionDays)
  {
    if tours == [] then []
    else AllWrites(tours[..|tours| - 1], retentionDays) + WritesOf(tours[|tours| - 1])
  }

  /** The stored events are the fold of exactly the rows the tours and loads got through. */
  lemma {:induction false} EventsAreTheFold(tours: seq<Tour>, retentionDays: int)
    requires Legal(tours, retentionDays)
    ensures After(tours, retentionDays).events == I.AfterWrites(AllWrites(tours, retentionDays))
  {
    if tours == [] {
    } else {
      var before, t := tours[..|tours| - 1], tours[|tours| - 1];
      EventsAreTheFold(before, retentionDays);
      TourIsItsWrites(After(before, retentionDays).events, t);
      I.WrittenInTwoParts(map[], AllWrites(before, retentionDays), WritesOf(t));
    }
  }
}
