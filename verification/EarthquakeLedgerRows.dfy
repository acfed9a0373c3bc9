/**
 * What one tour or load leaves on the ledger: every column of its row, from the tables before and after
 * and from what the provider sent, and which rows retention takes.
 */
module EarthquakeLedgerRows {
  import opened Options
  import L = EarthquakeLedger
  import I = EarthquakeIngest
  import opened EarthquakeTours

  // ---------------------------------------------------------------- writes that change something

  /** How many of the writes the table they met did not hold already. */
  function ChangeCount(events: I.Events, writes: seq<I.Write>): nat {
    if writes == [] then 0
    else
      var init, last := writes[..|writes| - 1], writes[|writes| - 1];
      ChangeCount(events, init) + if I.Holds(I.Written(events, init), last.row) then 0 else 1
  }

  lemma OneMoreChange(events: I.Events, writes: seq<I.Write>, w: I.Write)
    ensures ChangeCount(events, writes + [w])
            == ChangeCount(events, writes) + if I.Holds(I.Written(events, writes), w.row) then 0 else 1
  {
    assert (writes + [w])[..|writes|] == writes;
  }

  lemma {:induction false} ChangesInTwoParts(events: I.Events, first: seq<I.Write>, second: seq<I.Write>)
    ensures ChangeCount(events, first + second)
            == ChangeCount(events, first) + ChangeCount(I.Written(events, first), second)
  {
    if second == [] {
      assert first + second == first;
    } else {
      var init, last := second[..|second| - 1], second[|second| - 1];
      ChangesInTwoParts(events, first, init);
      I.WrittenInTwoParts(events, first, init);
      OneMoreChange(events, first + init, last);
      assert first + init + [last] == first + second;
    }
  }

  /** The rows of one tour: growth is what was inserted, and the other changes are what was updated. */
  lemma {:induction false} StoredCountsMean(events: I.Events, rows: seq<I.Incoming>, refused: seq<bool>, now: int, n: nat)
    requires n <= |rows| == |refused|
    ensures var c := I.StoredCounts(events, rows, refused, now, n);
            c.inserted + c.updated == ChangeCount(events, I.Landed(rows, refused, now, n))
  {
    if n == 0 {
    } else {
      var before := I.Landed(rows, refused, now, n - 1);
      StoredCountsMean(events, rows, refused, now, n - 1);
      I.TourIsItsWrites(events, rows, refused, now, n - 1);
      I.ConfirmedMeans(I.StoredCounts(events, rows, refused, now, n - 1), I.Written(events, before), rows[n - 1],
                       refused[n - 1], now);
      if !refused[n - 1] {
        OneMoreChange(events, before, I.Write(rows[n - 1], now));
      }
    }
  }

  /** Rows outside the scope, over the windows of a load. */
  function OutOfScopeIn(chunks: seq<Chunk>): nat {
    if chunks == [] then 0
    else
      var c := chunks[|chunks| - 1];
      OutOfScopeIn(chunks[..|chunks| - 1]) + I.CountRows(I.OutOfScope(), c.stored, |c.stored|)
  }

  lemma {:induction false} LoadCountsMean(events: I.Events, chunks: seq<Chunk>)
    ensures var c := LoadCounts(events, chunks);
            && |Loaded(events, chunks).Keys| == |events.Keys| + c.inserted
            && c.inserted + c.updated == ChangeCount(events, ChunkWrites(chunks))
            && c.outOfScope == OutOfScopeIn(chunks)
  {
    if chunks == [] {
    } else {
      var init, c := chunks[..|chunks| - 1], chunks[|chunks| - 1];
      var none, before := I.NoneRefused(|c.stored|), Loaded(events, init);
      LoadCountsMean(events, init);
      LoadIsItsWrites(events, init);
      I.InsertedIsGrowth(before, c.stored, none, c.writtenAt, |c.stored|);
      I.RowPropertiesAreCounted(before, c.stored, none, c.writtenAt, |c.stored|);
      StoredCountsMean(before, c.stored, none, c.writtenAt, |c.stored|);
      ChangesInTwoParts(events, ChunkWrites(init), I.Landed(c.stored, none, c.writtenAt, |c.stored|));
    }
  }

  // ---------------------------------------------------------------- the row

  function FetchedFrom(t: Tour): nat {
    match t
    case Tour(_, _, _, _, Answered(p), _, _, _, _, _) => |p.accepted| + |p.rejections|
    case Tour(_, _, _, _, Unanswered(_, _), _, _, _, _, _) => 0
    case Load(_, _, _, _, chunks, _, _, _) => FetchedBy(chunks)
  }

  function OutOfScopeOf(t: Tour): nat {
    if t.Load? then OutOfScopeIn(t.chunks)
    else if Stores(t) then I.CountRows(I.OutOfScope(), t.fetch.payload.accepted, |t.fetch.payload.accepted|)
    else 0
  }

  /**
   * The columns of the ledger row: fetched is what the provider sent, accepted or not; inserted is the growth
   * of the table; inserted and updated together are the rows that met a table without them; and skipped is
   * every accepted row out of scope, stored or refused.
   */
  lemma LedgerRowMeans(events: I.Events, t: Tour)
    requires WellFormed(t)
    ensures var run := RunOf(events, t);
            && run.id == t.runId && run.startedAt == t.startedAt && run.finishedAt == Some(t.finishedAt)
            && run.fetched == FetchedFrom(t)
            && |EventsBy(events, t).Keys| == |events.Keys| + run.inserted
            && run.inserted + run.updated == ChangeCount(events, WritesOf(t))
            && run.skippedOutOfScope == OutOfScopeOf(t)
  {
    if Stores(t) {
      var rows, n := t.fetch.payload.accepted, |t.refused|;
      I.InsertedIsGrowth(events, rows, t.refused, t.writtenAt, n);
      I.RowPropertiesAreCounted(events, rows, t.refused, t.writtenAt, n);
      StoredCountsMean(events, rows, t.refused, t.writtenAt, n);
    } else if t.Load? {
      LoadCountsMean(events, t.chunks);
    }
  }

  /** And what it says went wrong, if anything did: the provider, our own lookup, or a load that stopped. */
  lemma LedgerRowBlames(events: I.Events, t: Tour)
    requires WellFormed(t) && !Stores(t)
    ensures var run := RunOf(events, t);
            match t
            case Tour(_, _, _, _, Unanswered(outcome, reason), _, _, _, _, _) =>
              run.outcome == outcome && run.errorReason == Some(reason) && run.inserted + run.updated == 0
            case Tour(_, _, _, _, Answered(_), _, _, _, _, _) =>
              run.outcome == L.Transient && run.errorReason.Some? && run.inserted + run.updated == 0
            case Load(_, _, _, _, _, _, failure, _) =>
              && (run.outcome == L.Transient <==> failure.Some?) && (failure.Some? ==> run.errorReason == failure)
              && (failure.None? ==> run.outcome == L.Ok)
              && (run.errorReason.None? <==>
                    && failure.None? && t.finishedAt - t.windowEnd <= t.staleMaxSeconds * 1000
                    && (FetchedBy(t.chunks) > 0 ==> exists k :: 0 <= k < |t.chunks| && t.chunks[k].stored != []))
  {
    if t.Load? {
      LoadReaches(events, t.chunks);
    }
  }

  /** Whatever is not `ok` says why. */
  lemma FailureHasAReason(events: I.Events, t: Tour)
    requires WellFormed(t) && RunOf(events, t).outcome != L.Ok
    ensures RunOf(events, t).errorReason.Some?
  {
  }

  /** What an upsert answers: new, the same, or changed, with the revision count now stored. */
  lemma UpsertAnswers(events: I.Events, row: I.Incoming, now: int)
    ensures var (events', r) := I.Upserted(events, row, now);
            && (r.Inserted? <==> row.id !in events) && (r.Unchanged? <==> I.Holds(events, row))
            && row.id in events' && events'[row.id].report == row.report
            && (!r.Unchanged? ==> r.revisionCount == events'[row.id].revisionCount)
            && (r.Unchanged? ==> events' == events)
            && forall id :: id != row.id ==> (id in events' <==> id in events) && (id in events ==> events'[id] == events[id])
  {
  }

  // ---------------------------------------------------------------- the ledger after it

  /** Retention, if it ran, takes a row that started before its days and is not the one spared. */
  predicate Retained(t: Tour, retentionDays: int, r: L.Run) {
    t.Tour? && t.pruneAnchor.Some? ==> r.startedAt >= t.pruneAt - retentionDays * 86_400_000 || t.pruneAnchor.value == Some(r.id)
  }

  /** After a tour the ledger holds what it held and the tour's own row, as far as they are retained. */
  lemma LedgerAfter(s: State, t: Tour, retentionDays: int, r: L.Run)
    requires WellFormed(t) && Fits(s, t)
    ensures r in Toured(s, t, retentionDays).runs
            <==> (r in s.runs || (!t.recordFailed && r == RunOf(s.events, t))) && Retained(t, retentionDays, r)
  {
    if t.Tour? && t.pruneAnchor.Some? {
      L.PrunedHas(Recorded(s, t), L.Cutoff(retentionDays, t.pruneAt), t.pruneAnchor.value, r);
    }
  }

  /** A failed tour touches no event. */
  lemma FailedTourStoresNothing(s: State, t: Tour, retentionDays: int)
    requires WellFormed(t) && t.Tour? && !Stores(t)
    ensures Toured(s, t, retentionDays).events == s.events
  {
  }
}
