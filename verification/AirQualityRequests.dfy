/**
 * From the store to the answer of a request: what a refresh puts into the cache, what a request takes out
 * of it, and that the one published is the one stored.
 */
module AirQualityRequests {
  import opened Options
  import opened AirQualityValues
  import opened Collecting
  import opened AirQualityRead
  import C = AirQualityCompile
  import E = AirQualityEaqi
  import R = AirQualityReader
  import Steps = AirQualitySteps

  // ---------------------------------------------------------------- what a refresh says

  /** A refresh writes the compiled run and announces its instant nearest to now; and each failure has its one cause. */
  lemma RefreshMeans(answer: R.StoreAnswer, now: int, maxAgeSeconds: int)
    ensures var r := R.Refresh(answer, now, maxAgeSeconds);
            var tooOld := answer.Rows? && !R.WithinMaxAge(answer.run.runUtc, now, maxAgeSeconds);
            && (r == R.Failed(R.Transient) <==> !answer.Rows? || tooOld)
            && (r == R.Failed(R.SchemaError) <==>
                  answer.Rows? && !tooOld && forall row :: row in answer.rows ==> C.DescribeUnreadableRow(row, answer.run).Some?)
            && (r.Failed? ==> r.kind in {R.Transient, R.SchemaError})
            && (r.Value? ==>
                  && C.CompileOf(answer.run, answer.rows).Compiled? && r.run == C.CompileOf(answer.run, answer.rows).run
                  && exists k: nat :: Steps.IsNearest(r.run.timesUtc, now, k) && r.validAt == r.run.timesUtc[k])
  {
    if answer.Rows? && R.WithinMaxAge(answer.run.runUtc, now, maxAgeSeconds) {
      R.RefreshFailsOnlyWithoutReadableRows(answer.run, answer.rows, now, maxAgeSeconds);
      var compiled := C.CompileOf(answer.run, answer.rows);
      if compiled.Compiled? {
        Steps.CompiledAxisIsHourly(answer.run, answer.rows);
        Steps.ScanFindsTheNearest(compiled.run.timesUtc, now);
      }
    }
  }

  /** The ceiling: a run is published as long as it is no older than that, and one of the future counts as new. */
  lemma WithinAgeIff(runUtc: int, now: int, maxAgeSeconds: nat)
    ensures R.WithinMaxAge(runUtc, now, maxAgeSeconds) <==> now <= runUtc + maxAgeSeconds * 1000
  {
  }

  /** What the gate withholds, and under which kind; the times of the entry are kept. */
  lemma GateMeans(read: R.Read, now: int, maxAgeSeconds: int)
    requires read.value.Some?
    ensures var out := R.Gated(read, now, maxAgeSeconds);
            && out.fetchedAt == read.fetchedAt && out.staleSince == read.staleSince
            && (out.value.None? ==>
                  out.kind == if R.UsableRun(read.value.value) then R.Transient else R.SchemaError)
  {
    R.ExitGuardIsExact(read.value.value);
  }

  // ---------------------------------------------------------------- what the compile reports

  /** The skip list names exactly the unreadable rows, each with why it was refused. */
  lemma SkippedAreTheUnreadable(run: C.Run, rows: seq<C.Row>, s: C.Skipped)
    ensures s in C.CompileOf(run, rows).skipped
            <==> exists row :: row in rows && C.DescribeUnreadableRow(row, run) == Some(s.reason) && s.plateCode == row.plateCode
  {
    CollectedFrom(C.Skips(run), rows, s);
    forall row | row in rows
      ensures C.Skips(run)(row) == Some(s)
              <==> C.DescribeUnreadableRow(row, run) == Some(s.reason) && s.plateCode == row.plateCode
    {
    }
  }

  /** What a refusal says is so. */
  predicate IsTrue(row: C.Row, run: C.Run, refusal: C.Refusal) {
    match refusal
    case NoPlateCode => !IsNonEmptyString(row.plateCode)
    case NotFinite(name) =>
      || (name == "gridLatitude" && !IsFiniteNumber(row.gridLatitude))
      || (name == "gridLongitude" && !IsFiniteNumber(row.gridLongitude))
      || (name == "distanceKm" && !IsFiniteNumber(row.distanceKm))
    case BadIngestedAt => !row.ingestedAt.ValidDate?
    case BlockNotAnObject(block) => !IsObject(BlockOf(row, block))
    case NotAnArray(block, p) => !Member(BlockOf(row, block), Name(p)).Arr?
    case Ragged(block, p) =>
      exists q: Pollutant :: && Member(BlockOf(row, block), Name(p)).Arr? && Member(BlockOf(row, block), Name(q)).Arr?
                             && |Member(BlockOf(row, block), Name(p)).items| != |Member(BlockOf(row, block), Name(q)).items|
    case NoSteps => C.HoldsArrays(row.concentrations, 0)
    case ContradictsSpan => !C.HoldsArrays(row.concentrations, run.forecastHours + 1)
    case SupportNotAnObject(block) => !IsObject(SupportOf(row, block))
    case NotAVerdict(block, p) => ReadVerdict(Member(SupportOf(row, block), Name(p))).None?
    case AnalysisMissing => row.analysisConcentrations == Null && run.analysisHours != 0
    case StraySupport => row.analysisConcentrations == Null && row.analysisSupport != Null
    case ContradictsAnalysisHours => !C.HoldsArrays(row.analysisConcentrations, run.analysisHours)
  }

  function BlockOf(row: C.Row, block: C.Block): Json {
    if block.Forecast? then row.concentrations else row.analysisConcentrations
  }

  function SupportOf(row: C.Row, block: C.Block): Json {
    if block.Forecast? then row.support else row.analysisSupport
  }

  lemma {:induction false} MeasuredRefusal(row: C.Row, run: C.Run, block: C.Block, k: nat, length: Option<nat>)
    requires k <= |ALL| && (k == |ALL| ==> length.Some?) && (k > 0 ==> length.Some?)
    requires length.Some? ==> exists q: Pollutant :: Member(BlockOf(row, block), Name(q)).Arr?
                                                    && |Member(BlockOf(row, block), Name(q)).items| == length.value
    ensures var m := C.MeasureFrom(BlockOf(row, block), block, k, length);
            m.Refused? ==> IsTrue(row, run, m.refusal)
    decreases |ALL| - k
  {
    if k < |ALL| {
      var m := Member(BlockOf(row, block), Name(ALL[k]));
      if m.Arr? && (length.None? || length.value == |m.items|) {
        MeasuredRefusal(row, run, block, k + 1, Some(|m.items|));
      }
    }
  }

  lemma {:induction false} SupportRefusal(row: C.Row, run: C.Run, block: C.Block, k: nat)
    requires k <= |ALL|
    ensures var refusal := C.CheckSupportFrom(SupportOf(row, block), block, k);
            refusal.Some? ==> IsTrue(row, run, refusal.value)
    decreases |ALL| - k
  {
    if k < |ALL| {
      SupportRefusal(row, run, block, k + 1);
    }
  }

  lemma OtherLength(block: Json, which: C.Block, steps: int)
    requires C.MeasureBlock(block, which).Length? && C.MeasureBlock(block, which).steps != steps
    ensures !C.HoldsArrays(block, steps)
  {
    var measured := C.MeasureBlock(block, which).steps;
    C.MeasureMeans(block, which, measured);
    assert Member(block, Name(Pm25)).Arr? && |Member(block, Name(Pm25)).items| == measured;
  }

  lemma AnalysisRefusal(row: C.Row, run: C.Run)
    ensures var refusal := C.DescribeUnreadableAnalysis(row, run);
            refusal.Some? ==> IsTrue(row, run, refusal.value)
  {
    MeasuredRefusal(row, run, C.Analysis, 0, None);
    SupportRefusal(row, run, C.Analysis, 0);
    var m := C.MeasureBlock(row.analysisConcentrations, C.Analysis);
    if m.Length? && m.steps != run.analysisHours {
      OtherLength(row.analysisConcentrations, C.Analysis, run.analysisHours);
    }
  }

  /** A row is never refused for something that is not so. */
  lemma RefusalsAreTrue(row: C.Row, run: C.Run)
    ensures var refusal := C.DescribeUnreadableRow(row, run);
            refusal.Some? ==> IsTrue(row, run, refusal.value)
  {
    MeasuredRefusal(row, run, C.Forecast, 0, None);
    SupportRefusal(row, run, C.Forecast, 0);
    AnalysisRefusal(row, run);
    var m := C.MeasureBlock(row.concentrations, C.Forecast);
    if m.Length? {
      C.MeasureMeans(row.concentrations, C.Forecast, m.steps);
      if m.steps != run.forecastHours + 1 {
        OtherLength(row.concentrations, C.Forecast, run.forecastHours + 1);
      }
    }
  }

  /** One stored value: its row's pollutant and its place on the axis. */
  datatype StoredValue = StoredValue(pollutant: Pollutant, index: int)

  /** The value was there and could not be used. */
  predicate IsBadIn(items: seq<Json>, i: int) {
    0 <= i < |items| && WasSubstituted(items[i])
  }

  /** Those of one pollutant. */
  function BadValues(items: seq<Json>, p: Pollutant): set<StoredValue> {
    set i | 0 <= i < |items| && IsBadIn(items, i) :: StoredValue(p, i)
  }

  lemma BadValuesHas(items: seq<Json>, p: Pollutant, v: StoredValue)
    ensures v in BadValues(items, p) <==> v.pollutant == p && IsBadIn(items, v.index)
  {
    if v.pollutant == p && IsBadIn(items, v.index) {
      assert v == StoredValue(p, v.index);
    }
  }

  lemma OneMoreValue(items: seq<Json>, p: Pollutant)
    requires items != []
    ensures var n := |items| - 1;
            |BadValues(items, p)| == |BadValues(items[..n], p)| + if WasSubstituted(items[n]) then 1 else 0
  {
    var n := |items| - 1;
    var before, after, last := BadValues(items[..n], p), BadValues(items, p), StoredValue(p, n);
    forall v
      ensures v in after <==> v in before || (WasSubstituted(items[n]) && v == last)
    {
      BadValuesHas(items, p, v);
      BadValuesHas(items[..n], p, v);
    }
    BadValuesHas(items[..n], p, last);
    assert after == if WasSubstituted(items[n]) then before + {last} else before;
  }

  lemma {:induction false} SubstitutionsAreTheBadValues(items: seq<Json>, p: Pollutant)
    ensures Substitutions(items) == |BadValues(items, p)|
  {
    if items == [] {
    } else {
      SubstitutionsAreTheBadValues(items[..|items| - 1], p);
      OneMoreValue(items, p);
    }
  }

  /** The bad values of a row, among the first `k` pollutants. */
  function BadOfRowTo(row: C.Row, k: nat): set<StoredValue>
    requires k <= |ALL|
  {
    if k == 0 then {} else BadOfRowTo(row, k - 1) + BadValues(C.Stored(row, ALL[k - 1]), ALL[k - 1])
  }

  lemma {:induction false} BadOfRowHas(row: C.Row, k: nat, v: StoredValue)
    requires k <= |ALL|
    ensures v in BadOfRowTo(row, k) <==> Place(v.pollutant) < k && IsBadIn(C.Stored(row, v.pollutant), v.index)
  {
    if k == 0 {
    } else {
      BadOfRowHas(row, k - 1, v);
      BadValuesHas(C.Stored(row, ALL[k - 1]), ALL[k - 1], v);
      assert Place(v.pollutant) == k - 1 <==> v.pollutant == ALL[k - 1];
    }
  }

  lemma OneMorePollutant(row: C.Row, k: nat)
    requires k < |ALL|
    ensures |BadOfRowTo(row, k + 1)| == |BadOfRowTo(row, k)| + |BadValues(C.Stored(row, ALL[k]), ALL[k])|
  {
    var before, more := BadOfRowTo(row, k), BadValues(C.Stored(row, ALL[k]), ALL[k]);
    forall v | v in before
      ensures v !in more
    {
      BadOfRowHas(row, k, v);
      BadValuesHas(C.Stored(row, ALL[k]), ALL[k], v);
      assert Place(ALL[k]) == k;
    }
    assert BadOfRowTo(row, k + 1) == before + more;
  }

  lemma {:induction false} LostTo(row: C.Row, k: nat)
    requires k <= |ALL|
    ensures Sum(C.LostIn(row), ALL[..k]) == |BadOfRowTo(row, k)|
  {
    if k == 0 {
    } else {
      LostTo(row, k - 1);
      SumStep(C.LostIn(row), ALL, k - 1);
      SubstitutionsAreTheBadValues(C.Stored(row, ALL[k - 1]), ALL[k - 1]);
      OneMorePollutant(row, k - 1);
    }
  }

  /** What a row adds: its values that were there and could not be used, if it is readable. */
  function BadOfRow(run: C.Run): C.Row -> nat {
    row => if C.DescribeUnreadableRow(row, run).None? then |BadOfRowTo(row, |ALL|)| else 0
  }

  /** The count of normalised values is that of the bad values of the readable rows, each once. */
  lemma {:induction false} NormalisedAreTheBadValues(run: C.Run, rows: seq<C.Row>)
    ensures Sum(C.Loses(run), rows) == Sum(BadOfRow(run), rows)
    ensures C.CompileOf(run, rows).Compiled? ==> C.CompileOf(run, rows).normalised == Sum(BadOfRow(run), rows)
  {
    if rows == [] {
    } else {
      NormalisedAreTheBadValues(run, rows[..|rows| - 1]);
      LostTo(rows[|rows| - 1], |ALL|);
      assert ALL[..|ALL|] == ALL;
    }
  }

  function AsCompiled(): C.Row -> C.Province {
    row => C.CompiledRow(row)
  }

  lemma {:induction false} CompiledInOrder(run: C.Run, rows: seq<C.Row>)
    ensures Collect(C.Compiles(run), rows) == MapAll(AsCompiled(), Collect(C.Reads(run), rows))
  {
    if rows == [] {
    } else {
      var init, last := rows[..|rows| - 1], rows[|rows| - 1];
      CompiledInOrder(run, init);
      if C.DescribeUnreadableRow(last, run).None? {
        MapOne(AsCompiled(), Collect(C.Reads(run), init), last);
      }
    }
  }

  /** A compiled run has its stored identity, hourly steps, and one province for each readable row, in their order. */
  lemma CompiledRunSays(run: C.Run, rows: seq<C.Row>)
    requires C.CompileOf(run, rows).Compiled?
    ensures var c, readable := C.CompileOf(run, rows).run, Collect(C.Reads(run), rows);
            && c.datasetId == run.datasetId && c.stepHours == 1 && |c.provinces| == |readable|
            && forall i :: 0 <= i < |readable| ==> c.provinces[i] == C.CompiledRow(readable[i])
  {
    CompiledInOrder(run, rows);
  }

  // ---------------------------------------------------------------- what a request resolves

  /** The run a request publishes from is the cached one: its axis instant for instant, its identity and its provenance. */
  lemma ResolvedIsTheCached(read: R.Read, now: int)
    requires read.value.Some? && R.UsableRun(read.value.value)
    ensures var r, value := ResolveRun(read, now), read.value.value;
            var items := Member(value, "timesUtc").items;
            && |r.run.times| == |items| && (forall i :: 0 <= i < |items| ==> items[i] == Stamp(r.run.times[i]))
            && r.run.runUtc == Member(value, "runUtc") && r.run.datasetId == Member(value, "datasetId")
            && r.from.freshness == read.freshness && r.from.fetchedAt == read.fetchedAt && r.from.staleSince == read.staleSince
            && Steps.IsNearest(r.run.times, now, r.step)
  {
  }

  /** Of several provinces with one plate code the last is the one published. */
  lemma {:induction false} LastOfAPlateStands(provinces: seq<Json>, k: nat)
    requires k < |provinces|
    requires forall j :: k < j < |provinces| ==> Member(provinces[j], "plateCode") != Member(provinces[k], "plateCode")
    ensures var plate := Member(provinces[k], "plateCode");
            plate in ByPlateCode(provinces) && ByPlateCode(provinces)[plate] == provinces[k]
  {
    if k < |provinces| - 1 {
      LastOfAPlateStands(provinces[..|provinces| - 1], k);
    }
  }

  lemma CompiledAxisComesBack(run: C.CompiledRun)
    ensures Member(R.RunJson(run), "timesUtc") == R.TimesJson(run.timesUtc)
    ensures Member(R.RunJson(run), "provinces") == R.ProvincesJson(run.provinces)
    ensures Member(R.RunJson(run), "runUtc") == Stamp(run.runUtc) && Member(R.RunJson(run), "datasetId") == Text(run.datasetId)
    ensures Member(R.RunJson(run), "horizonEndUtc") == Stamp(run.horizonEndUtc)
    ensures Member(R.RunJson(run), "stepHours") == Num(Finite(run.stepHours as real))
    ensures Member(R.RunJson(run), "analysisEndUtc")
            == if run.analysisEndUtc.None? then Null else Stamp(run.analysisEndUtc.value)
  {
  }

  /** From a cached compile: its own facts, and the step the compile would select. */
  lemma ResolvedIsTheCompiled(run: C.CompiledRun, read: R.Read, now: int)
    requires read.value == Some(R.RunJson(run)) && R.UsableRun(R.RunJson(run))
    ensures var r := ResolveRun(read, now);
            && r.run == FactsOf(run) == RunFacts(run.timesUtc, Stamp(run.runUtc), Text(run.datasetId))
            && Steps.SelectStep(run.timesUtc, now) == Some(r.step)
  {
    CompiledAxisComesBack(run);
    FactsAreTheRuns(run);
    assert TimesOf(R.RunJson(run)) == run.timesUtc;
  }

  // ---------------------------------------------------------------- what an index publishes

  /**
   * The row of one pollutant: unsupported exactly when the province says so, otherwise with the normalised
   * cell of its step as its value, and without one when the cell cannot be used; with the band of that value.
   */
  lemma RowMeans(run: RunFacts, province: Json, step: nat, from: Provenance, p: Pollutant)
    ensures var index := IndexOf(run, province, step, from);
            && |index.pollutants| == |ALL|
            && var row, cell := index.pollutants[Place(p)], Normalise(ValueAt(province, p, step));
            && row.pollutant == p
            && row.value == (if IsNotSupported(province, p) then None else cell)
            && (row.status == Unsupported <==> IsNotSupported(province, p))
            && (row.status == NoValue <==> !IsNotSupported(province, p) && cell.None?)
            && (row.status == Available <==> !IsNotSupported(province, p) && cell.Some?)
            && (row.status == Available ==>
                  && row.subIndexBand == Some(E.BandOf(p, cell.value))
                  && row.subIndexCategory == Some(E.CATEGORIES[E.BandOf(p, cell.value) - 1]))
  {
    RowAt(province, step, p);
    E.SubIndexMeans(InputAt(province, step), p);
  }

  /** A value is tallied exactly where a row has to be published without one although something was cached. */
  lemma TalliedIff(run: RunFacts, province: Json, step: nat, from: Provenance, p: Pollutant)
    ensures |IndexOf(run, province, step, from).pollutants| == |ALL|
    ensures IsBad(province, p, step)
            <==> && IndexOf(run, province, step, from).pollutants[Place(p)].status == NoValue
                 && ValueAt(province, p, step) !in {Undefined, Null}
  {
    RowMeans(run, province, step, from, p);
  }

  /** What the index says beside its rows: of its instant, its place, its run and its cache entry. */
  lemma IndexSays(run: RunFacts, province: Json, step: nat, from: Provenance)
    requires step < |run.times|
    ensures var index := IndexOf(run, province, step, from);
            && (index.status == Available ==> index.freshness == from.freshness)
            && index.fetchedAt == from.fetchedAt && index.staleSince == from.staleSince
            && index.validAt == Some(run.times[step]) && index.modelRunAt == run.runUtc && index.datasetId == run.datasetId
            && (index.band.Some? ==> 1 <= index.band.value <= 6 && index.category == Some(E.CATEGORIES[index.band.value - 1]))
            && (index.band.Some? ==> index.dominant.Some? && E.IsDominant(InputAt(province, step), index.band.value, index.dominant.value))
            && index.status in {Available, NoValue}
  {
    E.IndexMeans(InputAt(province, step));
  }

  // ---------------------------------------------------------------- from a stored row to its index

  /** A cell of a readable row, as it is stored: the analysis before the seam, the forecast from it on. */
  function StoredCell(row: C.Row, p: Pollutant, step: nat): Json {
    if step < |C.Stored(row, p)| then C.Stored(row, p)[step] else Undefined
  }

  lemma CachedCell(row: C.Row, run: C.Run, p: Pollutant, step: nat)
    requires C.DescribeUnreadableRow(row, run).None? && step < |C.Stored(row, p)|
    ensures var cached := R.ProvinceJson(C.CompiledRow(row));
            && Normalise(ValueAt(cached, p, step)) == Normalise(C.Stored(row, p)[step])
            && (IsNotSupported(cached, p) <==> C.MergedVerdict(row, p) == NotSupported)
  {
    var province := C.CompiledRow(row);
    var values := province.concentrations.At(p);
    C.ForEachAt(C.SeriesOf(row), p);
    C.ForEachAt(C.VerdictsOf(row), p);
    assert values == NormaliseAll(C.Stored(row, p));
    CompiledMembers(province, p);
    assert C.Half(Member(R.ProvinceJson(province), "concentrations"), p) == R.SeriesJson(values).items;
    CompiledValueComesBack(values[step]);
  }

  lemma CompiledFieldsAreTheRows(row: C.Row)
    ensures var cached := R.ProvinceJson(C.CompiledRow(row));
            && Member(cached, "plateCode") == row.plateCode && Member(cached, "gridLatitude") == row.gridLatitude
            && Member(cached, "gridLongitude") == row.gridLongitude && Member(cached, "distanceKm") == row.distanceKm
            && Member(cached, "ingestedAtUtc") == R.DateJson(row.ingestedAt)
  {
    R.PlainMembers(C.CompiledRow(row));
  }

  /** What the index of a stored row carries of it, at a step of the run's axis. */
  predicate Carries(index: Index, row: C.Row, run: C.Run, step: nat) {
    && index.gridLatitude == row.gridLatitude && index.gridLongitude == row.gridLongitude
    && index.distanceKm == row.distanceKm && index.ingestedAt == R.DateJson(row.ingestedAt)
    && index.modelRunAt == Stamp(run.runUtc) && index.datasetId == Text(run.datasetId)
    && |index.pollutants| == |ALL|
    && forall p: Pollutant :: RowCarries(index.pollutants[Place(p)], row, p, step)
  }

  predicate RowCarries(r: PollutantRow, row: C.Row, p: Pollutant, step: nat) {
    && r.pollutant == p
    && r.value == if C.MergedVerdict(row, p) == NotSupported then None else Normalise(StoredCell(row, p, step))
  }

  lemma IndexCarriesItsRow(run: C.Run, rows: seq<C.Row>, row: C.Row, step: nat, from: Provenance)
    requires C.CompileOf(run, rows).Compiled? && C.DescribeUnreadableRow(row, run).None?
    requires step < |C.CompileOf(run, rows).run.timesUtc|
    ensures Carries(IndexOf(FactsOf(C.CompileOf(run, rows).run), R.ProvinceJson(C.CompiledRow(row)), step, from), row, run, step)
  {
    var c, cached := C.CompileOf(run, rows).run, R.ProvinceJson(C.CompiledRow(row));
    var index := IndexOf(FactsOf(c), cached, step, from);
    C.CompileIsHourly(run, rows);
    FactsAreTheRuns(c);
    CompiledFieldsAreTheRows(row);
    forall p: Pollutant
      ensures |index.pollutants| == |ALL| && RowCarries(index.pollutants[Place(p)], row, p, step)
    {
      RowMeans(FactsOf(c), cached, step, from, p);
      C.CompiledPollutant(row, run, p);
      CachedCell(row, run, p, step);
    }
    RowMeans(FactsOf(c), cached, step, from, Pm25);
  }

  lemma ProvinceOfThePlate(run: C.Run, rows: seq<C.Row>, plate: Json) returns (row: C.Row)
    requires C.CompileOf(run, rows).Compiled?
    requires plate in ByPlateCode(R.ProvincesJson(C.CompileOf(run, rows).run.provinces).items)
    ensures row in rows && C.DescribeUnreadableRow(row, run).None? && row.plateCode == plate
    ensures ByPlateCode(R.ProvincesJson(C.CompileOf(run, rows).run.provinces).items)[plate] == R.ProvinceJson(C.CompiledRow(row))
  {
    var provinces := C.CompileOf(run, rows).run.provinces;
    var items := R.ProvincesJson(provinces).items;
    ByPlateCodeHas(items, plate);
    var i :| 0 <= i < |items| && items[i] == ByPlateCode(items)[plate];
    assert items[i] == R.ProvinceJson(provinces[i]) && provinces[i] in provinces;
    C.CompiledProvince(run, rows, provinces[i], Pm25);
    row :| row in rows && C.DescribeUnreadableRow(row, run).None? && provinces[i] == C.CompiledRow(row);
    CompiledFieldsAreTheRows(row);
  }

  lemma ReadableIsOnThePlates(run: C.Run, rows: seq<C.Row>, row: C.Row)
    requires C.CompileOf(run, rows).Compiled? && row in rows && C.DescribeUnreadableRow(row, run).None?
    ensures row.plateCode in ByPlateCode(R.ProvincesJson(C.CompileOf(run, rows).run.provinces).items)
  {
    var provinces := C.CompileOf(run, rows).run.provinces;
    var items := R.ProvincesJson(provinces).items;
    assert C.Compiles(run)(row) == Some(C.CompiledRow(row));
    CollectedFrom(C.Compiles(run), rows, C.CompiledRow(row));
    var i :| 0 <= i < |provinces| && provinces[i] == C.CompiledRow(row);
    CompiledFieldsAreTheRows(row);
    assert items[i] == R.ProvinceJson(provinces[i]);
    ByPlateCodeHas(items, row.plateCode);
  }

  /** What a gated compile resolves to. */
  predicate ResolvesTo(r: Resolved, c: C.CompiledRun, now: int) {
    && r.Publishing? && r.run == FactsOf(c) && Steps.IsNearest(c.timesUtc, now, r.step)
    && r.byPlateCode == ByPlateCode(R.ProvincesJson(c.provinces).items)
  }

  lemma GatedCompileResolves(run: C.Run, rows: seq<C.Row>, read: R.Read, now: int)
    requires C.CompileOf(run, rows).Compiled? && read.value == Some(R.RunJson(C.CompileOf(run, rows).run))
    ensures R.UsableRun(read.value.value) && ResolvesTo(ResolveRun(read, now), C.CompileOf(run, rows).run, now)
  {
    var c := C.CompileOf(run, rows).run;
    R.CompiledRunsPassTheExitGuard(run, rows);
    R.ExitGuardIsExact(R.RunJson(c));
    ResolvedIsTheCompiled(c, read, now);
    ResolvedIsTheCached(read, now);
    CompiledAxisComesBack(c);
  }

  /** The index is that of a readable stored row of the plate, at a nearest instant. */
  ghost predicate IsOfTheStore(index: Index, run: C.Run, rows: seq<C.Row>, now: int, plate: Json)
    requires C.CompileOf(run, rows).Compiled?
  {
    exists row, k: nat ::
      && row in rows && C.DescribeUnreadableRow(row, run).None? && row.plateCode == plate
      && Steps.IsNearest(C.CompileOf(run, rows).run.timesUtc, now, k)
      && index.validAt == Some(C.CompileOf(run, rows).run.timesUtc[k]) && Carries(index, row, run, k)
  }

  lemma ItemIsOfTheStore(run: C.Run, rows: seq<C.Row>, r: Resolved, now: int, plate: Json)
    requires C.CompileOf(run, rows).Compiled? && ResolvesTo(r, C.CompileOf(run, rows).run, now)
    requires ItemOf(plate, r).Some?
    ensures exists row :: row in rows && C.DescribeUnreadableRow(row, run).None? && row.plateCode == plate
    ensures IsOfTheStore(ItemOf(plate, r).value, run, rows, now, plate)
  {
    var row := ProvinceOfThePlate(run, rows, plate);
    IndexCarriesItsRow(run, rows, row, r.step, r.from);
    FactsAreTheRuns(C.CompileOf(run, rows).run);
    IndexSays(r.run, r.byPlateCode[plate], r.step, r.from);
  }

  /**
   * From the store to the hub: while the run is within its age, a plate code has an index exactly when a
   * readable row of it was stored, and the index carries such a row, at the compiled instant nearest to now.
   */
  lemma HubShowsTheStore(run: C.Run, rows: seq<C.Row>, written: int, maxAge: int, read: R.Read, gate: int, now: int,
                         plate: Json)
    requires R.Refresh(R.Rows(run, rows), written, maxAge).Value?
    requires read.value == Some(R.RunJson(R.Refresh(R.Rows(run, rows), written, maxAge).run))
    requires R.WithinMaxAge(run.runUtc, gate, maxAge)
    ensures C.CompileOf(run, rows).Compiled?
    ensures R.Gated(read, gate, maxAge) == read && R.UsableRun(read.value.value)
    ensures var item := ItemOf(plate, ResolveRun(read, now));
            && (item.Some? <==> exists row :: row in rows && C.DescribeUnreadableRow(row, run).None? && row.plateCode == plate)
            && (item.Some? ==> IsOfTheStore(item.value, run, rows, now, plate))
  {
    R.WriterAndReaderAgree(run, rows, written, gate, maxAge, read);
    GatedCompileResolves(run, rows, read, now);
    var r := ResolveRun(read, now);
    if ItemOf(plate, r).Some? {
      ItemIsOfTheStore(run, rows, r, now, plate);
    }
    forall row | row in rows && C.DescribeUnreadableRow(row, run).None? && row.plateCode == plate
      ensures ItemOf(plate, r).Some?
    {
      ReadableIsOnThePlates(run, rows, row);
    }
  }
}
