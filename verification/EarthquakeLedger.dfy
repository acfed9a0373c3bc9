/**
 * The ingest run ledger: one row a tour, retention that spares the newest clean row, and the
 * freshness the read side publishes from it.
 */
module EarthquakeLedger {
  import opened Options

  const DAY_MS := 86_400_000

  datatype Outcome = Ok | NoData | Transient | RateLimited | ClientError | SchemaError | BudgetExhausted

  /** A row of `earthquake_ingest_runs`; `finishedAt` and `errorReason` are the nullable columns. */
  datatype Run = Run(id: nat, startedAt: int, finishedAt: Option<int>, outcome: Outcome, errorReason: Option<string>,
                     fetched: nat, inserted: nat, updated: nat, skippedOutOfScope: nat)

  /** The predicate the read query and the retention exemption share. */
  predicate Clean(r: Run) {
    r.outcome.Ok? && r.errorReason.None? && r.finishedAt.Some?
  }

  /** The read query: the greatest finish time over the clean rows. */
  function NewestCleanFinish(rows: seq<Run>): Option<int> {
    if rows == [] then None
    else
      var rest, last := NewestCleanFinish(rows[..|rows| - 1]), rows[|rows| - 1];
      if !Clean(last) then rest
      else if rest.None? || last.finishedAt.value >= rest.value then last.finishedAt
      else rest
  }

  ghost predicate IsNewest(rows: seq<Run>, t: Option<int>) {
    match t
    case None => forall r :: r in rows ==> !Clean(r)
    case Some(at) =>
      && (exists r :: r in rows && Clean(r) && r.finishedAt.value == at)
      && forall r :: r in rows && Clean(r) ==> r.finishedAt.value <= at
  }

  /** The query's answer in closed form, and the only answer of that form. */
  lemma NewestIs(rows: seq<Run>, t: Option<int>)
    ensures IsNewest(rows, t) <==> t == NewestCleanFinish(rows)
  {
    NewestIsOne(rows);
  }

  lemma {:induction false} NewestIsOne(rows: seq<Run>)
    ensures IsNewest(rows, NewestCleanFinish(rows))
  {
    if rows == [] {
    } else {
      var rest, last := rows[..|rows| - 1], rows[|rows| - 1];
      NewestIsOne(rest);
      assert forall r :: r in rows <==> r in rest || r == last;
    }
  }

  /** What the exemption's subquery may return: among equal finish times the database picks any. */
  ghost predicate IsAnchor(rows: seq<Run>, anchor: Option<nat>) {
    match anchor
    case None => NewestCleanFinish(rows).None?
    case Some(id) => exists r :: r in rows && r.id == id && Clean(r) && r.finishedAt == NewestCleanFinish(rows)
  }

  /** The subquery always has an answer, and any two answers finished at the same moment. */
  lemma AnchorExists(rows: seq<Run>)
    ensures exists anchor :: IsAnchor(rows, anchor)
  {
    NewestIsOne(rows);
    if NewestCleanFinish(rows).None? {
      assert IsAnchor(rows, None);
    } else {
      var r :| r in rows && Clean(r) && r.finishedAt == NewestCleanFinish(rows);
      assert IsAnchor(rows, Some(r.id));
    }
  }

  function Pruned(rows: seq<Run>, cutoff: int, anchor: Option<nat>): seq<Run> {
    if rows == [] then []
    else
      var rest, last := Pruned(rows[..|rows| - 1], cutoff, anchor), rows[|rows| - 1];
      if last.startedAt < cutoff && anchor != Some(last.id) then rest else rest + [last]
  }

  function Cutoff(retentionDays: int, now: int): int {
    now - retentionDays * DAY_MS
  }

  predicate UniqueIds(rows: seq<Run>) {
    forall i, j :: 0 <= i < j < |rows| ==> rows[i].id != rows[j].id
  }

  /** Retention deletes exactly the old rows other than the anchor, and keeps ids unique. */
  lemma {:induction false} PrunedHas(rows: seq<Run>, cutoff: int, anchor: Option<nat>, r: Run)
    ensures r in Pruned(rows, cutoff, anchor)
            <==> r in rows && (r.startedAt >= cutoff || anchor == Some(r.id))
  {
    if rows == [] {
    } else {
      PrunedHas(rows[..|rows| - 1], cutoff, anchor, r);
      assert r in rows <==> r in rows[..|rows| - 1] || r == rows[|rows| - 1];
    }
  }

  lemma {:induction false} PrunedIsUnique(rows: seq<Run>, cutoff: int, anchor: Option<nat>)
    requires UniqueIds(rows)
    ensures UniqueIds(Pruned(rows, cutoff, anchor)) && |Pruned(rows, cutoff, anchor)| <= |rows|
  {
    if rows == [] {
    } else {
      var init := rows[..|rows| - 1];
      PrunedIsUnique(init, cutoff, anchor);
      forall r | r in Pruned(init, cutoff, anchor)
        ensures r.id != rows[|rows| - 1].id
      {
        PrunedHas(init, cutoff, anchor, r);
      }
    }
  }

  /** After a prune at most one row is older than the cutoff. */
  lemma AtMostOneOldRow(rows: seq<Run>, cutoff: int, anchor: Option<nat>, i: nat, j: nat)
    requires UniqueIds(rows) && i < |Pruned(rows, cutoff, anchor)| && j < |Pruned(rows, cutoff, anchor)|
    requires Pruned(rows, cutoff, anchor)[i].startedAt < cutoff && Pruned(rows, cutoff, anchor)[j].startedAt < cutoff
    ensures i == j
  {
    var kept := Pruned(rows, cutoff, anchor);
    PrunedIsUnique(rows, cutoff, anchor);
    PrunedHas(rows, cutoff, anchor, kept[i]);
    PrunedHas(rows, cutoff, anchor, kept[j]);
  }

  /** Whichever of the equally new rows is spared, the read query cannot tell a prune happened. */
  lemma PruneIsInvisible(rows: seq<Run>, cutoff: int, anchor: Option<nat>)
    requires IsAnchor(rows, anchor)
    ensures NewestCleanFinish(Pruned(rows, cutoff, anchor)) == NewestCleanFinish(rows)
  {
    var kept, newest := Pruned(rows, cutoff, anchor), NewestCleanFinish(rows);
    NewestIs(rows, newest);
    forall r | r in kept
      ensures r in rows
    {
      PrunedHas(rows, cutoff, anchor, r);
    }
    if newest.Some? {
      var a :| a in rows && Some(a.id) == anchor && Clean(a) && a.finishedAt == newest;
      PrunedHas(rows, cutoff, anchor, a);
    }
    NewestIs(kept, newest);
  }

  // ---------------------------------------------------------------- the ledger over a run

  datatype Step = Record(run: Run) | Prune(retentionDays: int, now: int, anchor: Option<nat>)

  ghost predicate Fits(rows: seq<Run>, step: Step) {
    match step
    case Record(run) => forall r :: r in rows ==> r.id != run.id
    case Prune(_, _, anchor) => IsAnchor(rows, anchor)
  }

  function Applied(rows: seq<Run>, step: Step): seq<Run> {
    match step
    case Record(run) => rows + [run]
    case Prune(days, now, anchor) => Pruned(rows, Cutoff(days, now), anchor)
  }

  function After(rows: seq<Run>, steps: seq<Step>): seq<Run> {
    if steps == [] then rows
    else Applied(After(rows, steps[..|steps| - 1]), steps[|steps| - 1])
  }

  ghost predicate Legal(rows: seq<Run>, steps: seq<Step>) {
    steps == []
    || (var before := steps[..|steps| - 1];
        Legal(rows, before) && Fits(After(rows, before), steps[|steps| - 1]))
  }

  /** Everything ever recorded. */
  function History(rows: seq<Run>, steps: seq<Step>): seq<Run> {
    if steps == [] then rows
    else
      var before := History(rows, steps[..|steps| - 1]);
      match steps[|steps| - 1]
      case Record(run) => before + [run]
      case Prune(_, _, _) => before
  }

  /** Over any sequence of recordings and prunes, the pruned ledger gives the full history's anchor. */
  lemma {:induction false} PrunedLedgerAgrees(rows: seq<Run>, steps: seq<Step>)
    requires Legal(rows, steps)
    ensures NewestCleanFinish(After(rows, steps)) == NewestCleanFinish(History(rows, steps))
  {
    if steps == [] {
    } else {
      var before, last := steps[..|steps| - 1], steps[|steps| - 1];
      PrunedLedgerAgrees(rows, before);
      match last
      case Record(run) =>
        NewestAfterAppend(After(rows, before), run);
        NewestAfterAppend(History(rows, before), run);
      case Prune(days, now, anchor) =>
        PruneIsInvisible(After(rows, before), Cutoff(days, now), anchor);
    }
  }

  lemma NewestAfterAppend(rows: seq<Run>, run: Run)
    ensures NewestCleanFinish(rows + [run])
            == if !Clean(run) then NewestCleanFinish(rows)
               else if NewestCleanFinish(rows).None? || run.finishedAt.value >= NewestCleanFinish(rows).value
               then run.finishedAt else NewestCleanFinish(rows)
  {
    assert (rows + [run])[..|rows|] == rows;
  }

  /** A row that is young enough at every prune is still there, exactly as recorded. */
  lemma {:induction false} YoungRowsStay(rows: seq<Run>, steps: seq<Step>, r: Run)
    requires r in History(rows, steps)
    requires forall i :: 0 <= i < |steps| && steps[i].Prune? ==> r.startedAt >= Cutoff(steps[i].retentionDays, steps[i].now)
    ensures r in After(rows, steps)
  {
    if steps == [] {
    } else {
      var before, last := steps[..|steps| - 1], steps[|steps| - 1];
      if r in History(rows, before) {
        YoungRowsStay(rows, before, r);
        if last.Prune? {
          PrunedHas(After(rows, before), Cutoff(last.retentionDays, last.now), last.anchor, r);
        }
      }
    }
  }

  // ---------------------------------------------------------------- what the reader is told

  datatype DataStatus = Fresh | Stale | Unavailable

  function ResolveFreshness(runFinishedAt: Option<int>, holdsServableRow: bool, now: int, staleMaxSeconds: int)
    : (Option<int>, DataStatus)
  {
    match runFinishedAt
    case None => (None, if holdsServableRow then Stale else Unavailable)
    case Some(at) => (Some(at), if now - at <= staleMaxSeconds * 1000 then Fresh else Stale)
  }

  /**
   * The published status, as a statement about every tour ever recorded: fresh exactly when one of
   * them was clean and finished within the budget, unavailable exactly when none was ever clean and
   * the store holds nothing; and a date is published exactly when one was clean. Retention, however
   * often and with whatever window, changes none of it.
   */
  lemma FreshnessIsOfTheFullHistory(rows: seq<Run>, steps: seq<Step>, holds: bool, now: int, staleMax: int)
    requires Legal(rows, steps)
    ensures var (at, status) := ResolveFreshness(NewestCleanFinish(After(rows, steps)), holds, now, staleMax);
            var all := History(rows, steps);
            && IsNewest(all, at)
            && (status == Fresh <==> exists r :: r in all && Clean(r) && now - r.finishedAt.value <= staleMax * 1000)
            && (status == Unavailable <==> !holds && forall r :: r in all ==> !Clean(r))
  {
    PrunedLedgerAgrees(rows, steps);
    NewestIsOne(History(rows, steps));
  }

  /** The table itself. */
  class RunLedger {
    var rows: seq<Run>

    ghost predicate Valid()
      reads this
    {
      UniqueIds(rows)
    }

    constructor ()
      ensures Valid() && rows == []
    {
      rows := [];
    }

    method RecordRun(run: Run)
      requires Valid() && forall r :: r in rows ==> r.id != run.id
      modifies this
      ensures Valid() && rows == Applied(old(rows), Record(run))
    {
      rows := rows + [run];
    }

    /** `anchor` is the row the exemption's subquery returned. */
    method PruneRuns(retentionDays: int, now: int, anchor: Option<nat>) returns (deleted: nat)
      requires Valid() && IsAnchor(rows, anchor)
      modifies this
      ensures Valid() && rows == Applied(old(rows), Prune(retentionDays, now, anchor))
      ensures deleted == |old(rows)| - |rows|
      ensures NewestCleanFinish(rows) == old(NewestCleanFinish(rows))
    {
      var cutoff := Cutoff(retentionDays, now);
      PrunedIsUnique(rows, cutoff, anchor);
      PruneIsInvisible(rows, cutoff, anchor);
      var kept := Pruned(rows, cutoff, anchor);
      deleted := |rows| - |kept|;
      rows := kept;
    }
  }
}
