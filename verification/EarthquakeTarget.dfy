/** The ingest target and the load as methods over the two tables, statement by statement. */
module EarthquakeTarget {
  import opened Options
  import L = EarthquakeLedger
  import I = EarthquakeIngest
  import opened EarthquakeTours

  class IngestTarget {
    var events: I.Events
    const ledger: L.RunLedger
    const retentionDays: int

    ghost predicate Valid()
      reads this, ledger
    {
      ledger.Valid()
    }

    ghost function Tables(): State
      reads this, ledger
    {
      State(events, ledger.rows)
    }

    constructor (retentionDays: int)
      ensures Valid() && fresh(ledger) && this.retentionDays == retentionDays && Tables() == State(map[], [])
    {
      this.retentionDays := retentionDays;
      events := map[];
      ledger := new L.RunLedger();
    }

    method UpsertEvent(row: I.Incoming, now: int) returns (result: I.UpsertResult)
      modifies this`events
      ensures (events, result) == I.Upserted(old(events), row, now)
    {
      if row.id !in events {
        events := events[row.id := I.Event(row.report, 0, now, now, now)];
        return I.Inserted(0);
      }
      var stored := events[row.id];
      if stored.report == row.report {
        return I.Unchanged;
      }
      var revised := stored.report.solution != row.report.solution;
      var count := if revised then stored.revisionCount + 1 else stored.revisionCount;
      events := events[row.id := stored.(report := row.report, revisionCount := count, updatedAt := now)];
      return I.Updated(count);
    }

    /** The row loop: a refused row costs itself and nothing else. */
    method StoreRows(rows: seq<I.Incoming>, refused: seq<bool>, now: int) returns (counts: I.Counts)
      requires |rows| == |refused|
      modifies this`events
      ensures events == I.StoredEvents(old(events), rows, refused, now, |rows|)
      ensures counts == I.StoredCounts(old(events), rows, refused, now, |rows|)
    {
      var inserted, updated, confirmed, outOfScope, writeFailed, plateUnresolved := 0, 0, 0, 0, 0, 0;
      for i := 0 to |rows|
        invariant events == I.StoredEvents(old(events), rows, refused, now, i)
        invariant I.Counts(inserted, updated, confirmed, writeFailed, outOfScope, plateUnresolved)
                  == I.StoredCounts(old(events), rows, refused, now, i)
      {
        var row := rows[i];
        if !row.report.inScope {
          outOfScope := outOfScope + 1;
        }
        if row.report.province.Some? && row.report.bindingPlateCode.None? {
          plateUnresolved := plateUnresolved + 1;
        }
        if refused[i] {
          writeFailed := writeFailed + 1;
        } else {
          var result := UpsertEvent(row, now);
          match result
          case Inserted(_) => inserted := inserted + 1;
          case Updated(_) => updated := updated + 1;
          case Unchanged => confirmed := confirmed + 1;
        }
      }
      counts := I.Counts(inserted, updated, confirmed, writeFailed, outOfScope, plateUnresolved);
    }

    method RunTour(t: Tour)
      requires Valid() && t.Tour? && WellFormed(t) && Fits(Tables(), t)
      modifies this`events, ledger
      ensures Valid() && Tables() == Toured(old(Tables()), t, retentionDays)
    {
      var run := L.Run(t.runId, t.startedAt, Some(t.finishedAt), L.Ok, None, 0, 0, 0, 0);
      match t.fetch {
        case Unanswered(outcome, reason) =>
          run := run.(outcome := outcome, errorReason := Some(reason));
        case Answered(payload) =>
          run := run.(fetched := payload.Fetched());
          if t.lookupFailed {
            run := run.(outcome := L.Transient, errorReason := Some(LOOKUP_FAILED));
          } else {
            var c := StoreRows(payload.accepted, t.refused, t.writtenAt);
            var d := I.DiagnoseTour(payload, c);
            run := run.(outcome := d.outcome, errorReason := d.errorReason, inserted := c.inserted,
                        updated := c.updated, skippedOutOfScope := c.outOfScope);
          }
      }
      assert run == RunOf(old(events), t);
      if !t.recordFailed {
        ledger.RecordRun(run);
      }
      if t.pruneAnchor.Some? {
        var deleted := ledger.PruneRuns(retentionDays, t.pruneAt, t.pruneAnchor.value);
      }
    }

    /** The window loop of a load, up to the window it stopped in. */
    method LoadChunks(chunks: seq<Chunk>) returns (fetched: nat, tally: I.Counts)
      modifies this`events
      ensures events == Loaded(old(events), chunks)
      ensures fetched == FetchedBy(chunks) && tally == LoadCounts(old(events), chunks)
    {
      fetched, tally := 0, I.Counts(0, 0, 0, 0, 0, 0);
      for k := 0 to |chunks|
        invariant events == Loaded(old(events), chunks[..k])
        invariant fetched == FetchedBy(chunks[..k]) && tally == LoadCounts(old(events), chunks[..k])
      {
        assert chunks[..k + 1][..k] == chunks[..k];
        var c := chunks[k];
        fetched := fetched + c.fetched;
        var stored := StoreRows(c.stored, I.NoneRefused(|c.stored|), c.writtenAt);
        tally := Plus(tally, stored);
      }
      assert chunks[..|chunks|] == chunks;
    }

    method RunLoad(t: Tour)
      requires Valid() && t.Load? && WellFormed(t) && Fits(Tables(), t)
      modifies this`events, ledger
      ensures Valid() && Tables() == Toured(old(Tables()), t, retentionDays)
    {
      var fetched, tally := LoadChunks(t.chunks);
      var d := DiagnoseLoad(t, tally);
      var run := L.Run(t.runId, t.startedAt, Some(t.finishedAt), d.outcome, d.errorReason, fetched, tally.inserted,
                       tally.updated, tally.outOfScope);
      if !t.recordFailed {
        ledger.RecordRun(run);
      }
    }
  }
}
