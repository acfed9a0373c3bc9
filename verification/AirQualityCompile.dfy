/**
 * The compile of one stored air-quality run: the row guard, the merge of the two products on one
 * hourly axis, and what the compile promises about any rows in any order.
 */
module AirQualityCompile {
  import opened Options
  import opened AirQualityValues
  import opened Collecting

  const MS_PER_HOUR := 3_600_000

  datatype Run = Run(runUtc: int, forecastHours: int, analysisHours: int, datasetId: string)

  datatype StoredDate = ValidDate(ms: int) | InvalidDate | NotADate

  datatype Row = Row(plateCode: Json, gridLatitude: Json, gridLongitude: Json, distanceKm: Json, concentrations: Json,
                     support: Json, analysisConcentrations: Json, analysisSupport: Json, ingestedAt: StoredDate)

  datatype Block = Forecast | Analysis

  datatype Refusal =
    | NoPlateCode | NotFinite(name: string) | BadIngestedAt | BlockNotAnObject(block: Block)
    | NotAnArray(block: Block, pollutant: Pollutant) | Ragged(block: Block, pollutant: Pollutant) | NoSteps
    | ContradictsSpan | SupportNotAnObject(block: Block) | NotAVerdict(block: Block, pollutant: Pollutant)
    | AnalysisMissing | StraySupport | ContradictsAnalysisHours

  // ---------------------------------------------------------------- the row guard

  datatype Measured = Length(steps: nat) | Refused(refusal: Refusal)

  function MeasureFrom(block: Json, which: Block, k: nat, length: Option<nat>): Measured
    requires k <= |ALL| && (k == |ALL| ==> length.Some?)
    decreases |ALL| - k
  {
    if k == |ALL| then Length(length.value)
    else
      match Member(block, Name(ALL[k]))
      case Arr(items) =>
        if length.None? || length.value == |items| then MeasureFrom(block, which, k + 1, Some(|items|))
        else Refused(Ragged(which, ALL[k]))
      case _ => Refused(NotAnArray(which, ALL[k]))
  }

  function MeasureBlock(block: Json, which: Block): Measured {
    if !IsObject(block) then Refused(BlockNotAnObject(which)) else MeasureFrom(block, which, 0, None)
  }

  function CheckSupportFrom(support: Json, which: Block, k: nat): Option<Refusal>
    requires k <= |ALL|
    decreases |ALL| - k
  {
    if k == |ALL| then None
    else if ReadVerdict(Member(support, Name(ALL[k]))).None? then Some(NotAVerdict(which, ALL[k]))
    else CheckSupportFrom(support, which, k + 1)
  }

  function CheckSupport(support: Json, which: Block): Option<Refusal> {
    if !IsObject(support) then Some(SupportNotAnObject(which)) else CheckSupportFrom(support, which, 0)
  }

  function DescribeUnreadableRow(row: Row, run: Run): Option<Refusal> {
    if !IsNonEmptyString(row.plateCode) then Some(NoPlateCode)
    else if !IsFiniteNumber(row.gridLatitude) then Some(NotFinite("gridLatitude"))
    else if !IsFiniteNumber(row.gridLongitude) then Some(NotFinite("gridLongitude"))
    else if !IsFiniteNumber(row.distanceKm) then Some(NotFinite("distanceKm"))
    else if !row.ingestedAt.ValidDate? then Some(BadIngestedAt)
    else
      match MeasureBlock(row.concentrations, Forecast)
      case Refused(refusal) => Some(refusal)
      case Length(forecast) =>
        if forecast < 1 then Some(NoSteps)
        else if forecast != run.forecastHours + 1 then Some(ContradictsSpan)
        else
          var refusal := CheckSupport(row.support, Forecast);
          if refusal.Some? then refusal else DescribeUnreadableAnalysis(row, run)
  }

  function DescribeUnreadableAnalysis(row: Row, run: Run): Option<Refusal> {
    if row.analysisConcentrations == Null then
      if run.analysisHours != 0 then Some(AnalysisMissing)
      else if row.analysisSupport != Null then Some(StraySupport)
      else None
    else
      match MeasureBlock(row.analysisConcentrations, Analysis)
      case Refused(refusal) => Some(refusal)
      case Length(analysis) =>
        if analysis != run.analysisHours then Some(ContradictsAnalysisHours)
        else CheckSupport(row.analysisSupport, Analysis)
  }

  /** Five arrays, each of this length. */
  predicate HoldsArrays(block: Json, steps: int) {
    forall p: Pollutant :: Member(block, Name(p)).Arr? && |Member(block, Name(p)).items| == steps
  }

  predicate HoldsVerdicts(support: Json) {
    forall p: Pollutant :: ReadVerdict(Member(support, Name(p))).Some?
  }

  /** The shape the ingest writes. */
  predicate HoldsWrittenShape(row: Row, run: Run) {
    && IsNonEmptyString(row.plateCode) && IsFiniteNumber(row.gridLatitude) && IsFiniteNumber(row.gridLongitude)
    && IsFiniteNumber(row.distanceKm) && row.ingestedAt.ValidDate?
    && run.forecastHours >= 0 && HoldsArrays(row.concentrations, run.forecastHours + 1) && HoldsVerdicts(row.support)
    && (if row.analysisConcentrations == Null then run.analysisHours == 0 && row.analysisSupport == Null
        else HoldsArrays(row.analysisConcentrations, run.analysisHours) && HoldsVerdicts(row.analysisSupport))
  }

  lemma {:induction false} MeasureFromMeans(block: Json, which: Block, k: nat, length: Option<nat>, steps: nat)
    requires k <= |ALL| && (k == |ALL| ==> length.Some?)
    ensures MeasureFrom(block, which, k, length) == Length(steps)
            <==> (length.None? || length.value == steps)
                 && forall i :: k <= i < |ALL| ==>
                      Member(block, Name(ALL[i])).Arr? && |Member(block, Name(ALL[i])).items| == steps
    decreases |ALL| - k
  {
    if k == |ALL| {
    } else {
      var m := Member(block, Name(ALL[k]));
      if m.Arr? && (length.None? || length.value == |m.items|) {
        MeasureFromMeans(block, which, k + 1, Some(|m.items|), steps);
      }
    }
  }

  lemma MeasureMeans(block: Json, which: Block, steps: nat)
    ensures MeasureBlock(block, which) == Length(steps) <==> HoldsArrays(block, steps)
  {
    MeasureFromMeans(block, which, 0, None, steps);
    if MeasureBlock(block, which) == Length(steps) {
      forall p: Pollutant
        ensures Member(block, Name(p)).Arr? && |Member(block, Name(p)).items| == steps
      {
        assert ALL[Place(p)] == p;
      }
    }
    if !IsObject(block) {
      assert !Member(block, Name(Pm25)).Arr?;
    }
  }

  lemma {:induction false} CheckSupportFromMeans(support: Json, which: Block, k: nat)
    requires k <= |ALL|
    ensures CheckSupportFrom(support, which, k).None?
            <==> forall i :: k <= i < |ALL| ==> ReadVerdict(Member(support, Name(ALL[i]))).Some?
    decreases |ALL| - k
  {
    if k == |ALL| {
    } else {
      CheckSupportFromMeans(support, which, k + 1);
    }
  }

  lemma CheckSupportMeans(support: Json, which: Block)
    ensures CheckSupport(support, which).None? <==> HoldsVerdicts(support)
  {
    CheckSupportFromMeans(support, which, 0);
    if CheckSupport(support, which).None? {
      forall p: Pollutant
        ensures ReadVerdict(Member(support, Name(p))).Some?
      {
        assert ALL[Place(p)] == p;
      }
    }
    if !IsObject(support) {
      assert ReadVerdict(Member(support, Name(Pm25))).None?;
    }
  }

  /** The guard refuses exactly the rows that do not hold the written shape. */
  lemma GuardIsExact(row: Row, run: Run)
    ensures DescribeUnreadableRow(row, run).None? <==> HoldsWrittenShape(row, run)
  {
    var forecast, analysis := MeasureBlock(row.concentrations, Forecast), MeasureBlock(row.analysisConcentrations, Analysis);
    if run.forecastHours >= 0 {
      MeasureMeans(row.concentrations, Forecast, run.forecastHours + 1);
    }
    CheckSupportMeans(row.support, Forecast);
    if run.analysisHours >= 0 {
      MeasureMeans(row.analysisConcentrations, Analysis, run.analysisHours);
    }
    CheckSupportMeans(row.analysisSupport, Analysis);
    if HoldsArrays(row.analysisConcentrations, run.analysisHours) {
      assert |Member(row.analysisConcentrations, Name(Pm25)).items| == run.analysisHours;
    }
  }

  // ---------------------------------------------------------------- one province

  datatype Province = Province(plateCode: Json, gridLatitude: Json, gridLongitude: Json, distanceKm: Json,
                               ingestedAt: StoredDate, concentrations: Each<seq<Option<real>>>, support: Each<Verdict>)

  function Half(block: Json, p: Pollutant): seq<Json> {
    match Member(block, Name(p))
    case Arr(items) => items
    case _ => []
  }

  /** Analysis first, forecast second. */
  function Stored(row: Row, p: Pollutant): seq<Json> {
    Half(row.analysisConcentrations, p) + Half(row.concentrations, p)
  }

  function MergeSupport(forecast: Option<Verdict>, analysis: Option<Verdict>): Verdict {
    if forecast == Some(Supported) then Supported
    else if analysis == Some(Supported) then Supported else NotSupported
  }

  function MergedVerdict(row: Row, p: Pollutant): Verdict {
    MergeSupport(ReadVerdict(Member(row.support, Name(p))), ReadVerdict(Member(row.analysisSupport, Name(p))))
  }

  function SeriesOf(row: Row): Pollutant -> seq<Option<real>> {
    p => NormaliseAll(Stored(row, p))
  }

  function VerdictsOf(row: Row): Pollutant -> Verdict {
    p => MergedVerdict(row, p)
  }

  function LostIn(row: Row): Pollutant -> nat {
    p => Substitutions(Stored(row, p))
  }

  function CompiledRow(row: Row): Province {
    Province(row.plateCode, row.gridLatitude, row.gridLongitude, row.distanceKm, row.ingestedAt,
             ForEach(SeriesOf(row)), ForEach(VerdictsOf(row)))
  }

  method MergeHalves(stored: seq<Json>) returns (merged: seq<Option<real>>, substituted: nat)
    ensures merged == NormaliseAll(stored) && substituted == Substitutions(stored)
  {
    merged, substituted := [], 0;
    for i := 0 to |stored|
      invariant merged == NormaliseAll(stored[..i]) && substituted == Substitutions(stored[..i])
    {
      assert stored[..i + 1][..i] == stored[..i];
      var normalised := Normalise(stored[i]);
      if WasSubstituted(stored[i]) {
        substituted := substituted + 1;
      }
      merged := merged + [normalised];
    }
    assert stored[..|stored|] == stored;
  }

  /** What the pollutant loop has after the first `k`. */
  ghost predicate FilledFrom(row: Row, k: nat, concentrations: Each<seq<Option<real>>>, support: Each<Verdict>, lost: nat)
    requires k <= |ALL|
  {
    && FilledTo(concentrations, SeriesOf(row), k) && FilledTo(support, VerdictsOf(row), k)
    && lost == Sum(LostIn(row), ALL[..k])
  }

  lemma FilledOneMore(row: Row, k: nat, concentrations: Each<seq<Option<real>>>, support: Each<Verdict>, lost: nat)
    requires k < |ALL| && FilledFrom(row, k, concentrations, support, lost)
    ensures FilledFrom(row, k + 1, concentrations.With(ALL[k], SeriesOf(row)(ALL[k])),
                       support.With(ALL[k], VerdictsOf(row)(ALL[k])), lost + LostIn(row)(ALL[k]))
  {
    FillOneMore(concentrations, SeriesOf(row), k);
    FillOneMore(support, VerdictsOf(row), k);
    SumStep(LostIn(row), ALL, k);
  }

  lemma AllFilledFrom(row: Row, concentrations: Each<seq<Option<real>>>, support: Each<Verdict>, lost: nat)
    requires FilledFrom(row, |ALL|, concentrations, support, lost)
    ensures concentrations == ForEach(SeriesOf(row)) && support == ForEach(VerdictsOf(row))
    ensures lost == Sum(LostIn(row), ALL)
  {
    AllFilled(concentrations, SeriesOf(row));
    AllFilled(support, VerdictsOf(row));
    assert ALL[..|ALL|] == ALL;
  }

  method CompileProvince(row: Row) returns (province: Province, substituted: nat)
    ensures province == CompiledRow(row) && substituted == Sum(LostIn(row), ALL)
  {
    var concentrations: Each<seq<Option<real>>> := Each([], [], [], [], []);
    var support := Each(NotSupported, NotSupported, NotSupported, NotSupported, NotSupported);
    substituted := 0;
    for k := 0 to |ALL|
      invariant FilledFrom(row, k, concentrations, support, substituted)
    {
      var p := ALL[k];
      FilledOneMore(row, k, concentrations, support, substituted);
      var merged, count := MergeHalves(Stored(row, p));
      substituted := substituted + count;
      concentrations := concentrations.With(p, merged);
      support := support.With(p, MergedVerdict(row, p));
    }
    AllFilledFrom(row, concentrations, support, substituted);
    province := Province(row.plateCode, row.gridLatitude, row.gridLongitude, row.distanceKm, row.ingestedAt,
                         concentrations, support);
  }

  // ---------------------------------------------------------------- the whole run

  datatype CompiledRun = CompiledRun(runUtc: int, datasetId: string, analysisEndUtc: Option<int>, stepHours: int,
                                     timesUtc: seq<int>, horizonEndUtc: int, provinces: seq<Province>)

  datatype Skipped = Skipped(plateCode: Json, reason: Refusal)

  datatype Outcome =
    | Compiled(run: CompiledRun, skipped: seq<Skipped>, normalised: nat)
    | SchemaError(noRows: bool, skipped: seq<Skipped>)

  /** The three things a row may yield, and what it adds to the count of substituted values. */
  function Reads(run: Run): Row -> Option<Row> {
    row => if DescribeUnreadableRow(row, run).None? then Some(row) else None
  }

  function Compiles(run: Run): Row -> Option<Province> {
    row => if DescribeUnreadableRow(row, run).None? then Some(CompiledRow(row)) else None
  }

  function Skips(run: Run): Row -> Option<Skipped> {
    row => match DescribeUnreadableRow(row, run) case None => None case Some(reason) => Some(Skipped(row.plateCode, reason))
  }

  function Loses(run: Run): Row -> nat {
    row => if DescribeUnreadableRow(row, run).None? then Sum(LostIn(row), ALL) else 0
  }

  /** The hourly axis: `analysisSteps` hours up to the run base time, `forecastSteps` from it on. */
  function Axis(runUtc: int, analysisSteps: nat, forecastSteps: nat): (times: seq<int>)
    ensures |times| == analysisSteps + forecastSteps
  {
    seq(analysisSteps + forecastSteps, i => runUtc - analysisSteps * MS_PER_HOUR + i * MS_PER_HOUR)
  }

  /** The steps of the two products, measured on a row's own arrays. */
  function AnalysisSteps(row: Row): nat {
    if row.analysisConcentrations == Null then 0 else |Half(row.analysisConcentrations, Pm25)|
  }

  function ForecastSteps(row: Row): nat {
    |Half(row.concentrations, Pm25)|
  }

  function Assembled(run: Run, analysis: nat, forecast: nat, provinces: seq<Province>): CompiledRun {
    var times := Axis(run.runUtc, analysis, forecast);
    CompiledRun(run.runUtc, run.datasetId, if analysis > 0 then Some(run.runUtc) else None, 1, times,
                if times == [] then run.runUtc else times[|times| - 1], provinces)
  }

  /** What the compile returns. */
  function CompileOf(run: Run, rows: seq<Row>): Outcome {
    var readable, skipped := Collect(Reads(run), rows), Collect(Skips(run), rows);
    if readable == [] then SchemaError(rows == [], skipped)
    else
      Compiled(Assembled(run, AnalysisSteps(readable[0]), ForecastSteps(readable[0]), Collect(Compiles(run), rows)),
               skipped, Sum(Loses(run), rows))
  }

  lemma OneRowRead(run: Run, rows: seq<Row>, row: Row, refusal: Option<Refusal>)
    requires refusal == DescribeUnreadableRow(row, run)
    ensures Collect(Reads(run), rows + [row])
            == if refusal.None? then Collect(Reads(run), rows) + [row] else Collect(Reads(run), rows)
    ensures Collect(Skips(run), rows + [row])
            == if refusal.None? then Collect(Skips(run), rows)
               else Collect(Skips(run), rows) + [Skipped(row.plateCode, refusal.value)]
  {
    CollectOne(Reads(run), rows, row);
    CollectOne(Skips(run), rows, row);
  }

  method ReadRows(run: Run, rows: seq<Row>) returns (readable: seq<Row>, skipped: seq<Skipped>)
    ensures readable == Collect(Reads(run), rows) && skipped == Collect(Skips(run), rows)
  {
    readable, skipped := [], [];
    for i := 0 to |rows|
      invariant readable == Collect(Reads(run), rows[..i]) && skipped == Collect(Skips(run), rows[..i])
    {
      var refusal := DescribeUnreadableRow(rows[i], run);
      OneRowRead(run, rows[..i], rows[i], refusal);
      assert rows[..i + 1] == rows[..i] + [rows[i]];
      if refusal.None? {
        readable := readable + [rows[i]];
      } else {
        skipped := skipped + [Skipped(rows[i].plateCode, refusal.value)];
      }
    }
    assert rows[..|rows|] == rows;
  }

  lemma ReadableYields(run: Run, row: Row)
    requires Reads(run)(row) == Some(row)
    ensures Compiles(run)(row) == Some(CompiledRow(row)) && Loses(run)(row) == Sum(LostIn(row), ALL)
  {
  }

  ghost predicate AllRead(run: Run, rows: seq<Row>) {
    forall i :: 0 <= i < |rows| ==> Reads(run)(rows[i]) == Some(rows[i])
  }

  /** What the loop has after `i` readable rows. */
  predicate CompiledTo(run: Run, readable: seq<Row>, i: nat, provinces: seq<Province>, normalised: nat)
    requires i <= |readable|
  {
    provinces == Collect(Compiles(run), readable[..i]) && normalised == Sum(Loses(run), readable[..i])
  }

  lemma CompiledOneMore(run: Run, readable: seq<Row>, i: nat, provinces: seq<Province>, normalised: nat)
    requires i < |readable| && CompiledTo(run, readable, i, provinces, normalised)
    requires Compiles(run)(readable[i]) == Some(CompiledRow(readable[i]))
    requires Loses(run)(readable[i]) == Sum(LostIn(readable[i]), ALL)
    ensures CompiledTo(run, readable, i + 1, provinces + [CompiledRow(readable[i])],
                       normalised + Sum(LostIn(readable[i]), ALL))
  {
    CollectStep(Compiles(run), readable, i, CompiledRow(readable[i]));
    SumStep(Loses(run), readable, i);
  }

  method CompileRows(run: Run, readable: seq<Row>) returns (provinces: seq<Province>, normalised: nat)
    requires AllRead(run, readable)
    ensures CompiledTo(run, readable, |readable|, provinces, normalised)
  {
    normalised, provinces := 0, [];
    for i := 0 to |readable|
      invariant CompiledTo(run, readable, i, provinces, normalised)
    {
      ReadableYields(run, readable[i]);
      CompiledOneMore(run, readable, i, provinces, normalised);
      var province, count := CompileProvince(readable[i]);
      normalised := normalised + count;
      provinces := provinces + [province];
    }
  }

  method CompileRun(run: Run, rows: seq<Row>) returns (outcome: Outcome)
    ensures outcome == CompileOf(run, rows)
  {
    var readable, skipped := ReadRows(run, rows);
    if readable == [] {
      return SchemaError(rows == [], skipped);
    }
    EveryReadableIsRead(run, rows);
    var provinces, normalised := CompileRows(run, readable);
    assert readable[..|readable|] == readable;
    CollectFiltered(Compiles(run), Reads(run), rows);
    SumFiltered(Loses(run), Reads(run), rows);
    var analysis, forecast := AnalysisSteps(readable[0]), ForecastSteps(readable[0]);
    outcome := Compiled(Assembled(run, analysis, forecast, provinces), skipped, normalised);
  }

  lemma EveryReadableIsRead(run: Run, rows: seq<Row>)
    ensures AllRead(run, Collect(Reads(run), rows))
  {
    var readable := Collect(Reads(run), rows);
    forall i | 0 <= i < |readable|
      ensures Reads(run)(readable[i]) == Some(readable[i])
    {
      IsRead(run, rows, readable[i]);
    }
  }

  // ---------------------------------------------------------------- what a compile promises

  lemma IsRead(run: Run, rows: seq<Row>, row: Row)
    requires row in Collect(Reads(run), rows)
    ensures row in rows && DescribeUnreadableRow(row, run).None?
  {
    CollectedFrom(Reads(run), rows, row);
  }

  /**
   * One compiled pollutant of a readable row: as long as the axis, the analysis value before the seam
   * and the forecast value from it on, and structurally unsupported exactly when every product the
   * row has says so.
   */
  lemma CompiledPollutant(row: Row, run: Run, p: Pollutant)
    requires DescribeUnreadableRow(row, run).None?
    ensures var analysis, forecast := Half(row.analysisConcentrations, p), Half(row.concentrations, p);
            && |analysis| == run.analysisHours && |forecast| == run.forecastHours + 1
            && CompiledRow(row).concentrations.At(p) == NormaliseAll(analysis) + NormaliseAll(forecast)
    ensures CompiledRow(row).support.At(p) == NotSupported
            <==> Member(row.support, Name(p)) == Text("not_supported")
                 && (row.analysisConcentrations == Null || Member(row.analysisSupport, Name(p)) == Text("not_supported"))
  {
    GuardIsExact(row, run);
    HalvesAre(row, run, p);
    VerdictMeans(row, run, p);
    CompiledAt(row, p);
  }

  lemma ForEachAt<T>(f: Pollutant -> T, p: Pollutant)
    ensures ForEach(f).At(p) == f(p)
  {
  }

  lemma CompiledAt(row: Row, p: Pollutant)
    ensures CompiledRow(row).concentrations.At(p)
            == NormaliseAll(Half(row.analysisConcentrations, p)) + NormaliseAll(Half(row.concentrations, p))
    ensures CompiledRow(row).support.At(p) == MergedVerdict(row, p)
  {
    ForEachAt(SeriesOf(row), p);
    ForEachAt(VerdictsOf(row), p);
    NormaliseBoth(Half(row.analysisConcentrations, p), Half(row.concentrations, p));
  }

  lemma NormaliseBoth(a: seq<Json>, b: seq<Json>)
    ensures NormaliseAll(a + b) == NormaliseAll(a) + NormaliseAll(b)
  {
  }

  lemma HalvesAre(row: Row, run: Run, p: Pollutant)
    requires HoldsWrittenShape(row, run)
    ensures |Half(row.analysisConcentrations, p)| == run.analysisHours
    ensures |Half(row.concentrations, p)| == run.forecastHours + 1
  {
    assert HoldsArrays(row.concentrations, run.forecastHours + 1);
    assert Member(row.concentrations, Name(p)).Arr?;
    if row.analysisConcentrations != Null {
      assert Member(row.analysisConcentrations, Name(p)).Arr?;
    }
  }

  lemma VerdictMeans(row: Row, run: Run, p: Pollutant)
    requires HoldsWrittenShape(row, run)
    ensures MergedVerdict(row, p) == NotSupported
            <==> Member(row.support, Name(p)) == Text("not_supported")
                 && (row.analysisConcentrations == Null || Member(row.analysisSupport, Name(p)) == Text("not_supported"))
  {
    assert ReadVerdict(Member(row.support, Name(p))).Some?;
    if row.analysisConcentrations != Null {
      assert ReadVerdict(Member(row.analysisSupport, Name(p))).Some?;
    }
  }

  lemma ReadableRowsAgree(row: Row, run: Run)
    requires DescribeUnreadableRow(row, run).None?
    ensures AnalysisSteps(row) == run.analysisHours && ForecastSteps(row) == run.forecastHours + 1
  {
    CompiledPollutant(row, run, Pm25);
  }

  /** An `ok` compile in terms of the run's own columns. */
  lemma CompileMeasuresTheColumns(run: Run, rows: seq<Row>)
    requires CompileOf(run, rows).Compiled?
    ensures run.analysisHours >= 0 && run.forecastHours >= 0
    ensures CompileOf(run, rows).run
            == Assembled(run, run.analysisHours, run.forecastHours + 1, Collect(Compiles(run), rows))
  {
    var first := Collect(Reads(run), rows)[0];
    IsRead(run, rows, first);
    ReadableRowsAgree(first, run);
    GuardIsExact(first, run);
  }

  /** The whole contract of an `ok` compile. */
  lemma CompileIsHourly(run: Run, rows: seq<Row>)
    requires CompileOf(run, rows).Compiled?
    ensures var c := CompileOf(run, rows).run;
            && run.analysisHours >= 0 && run.forecastHours >= 0
            && |c.timesUtc| == run.analysisHours + run.forecastHours + 1
            && (forall i :: 0 <= i < |c.timesUtc| ==> c.timesUtc[i] == c.timesUtc[0] + i * MS_PER_HOUR)
            && c.timesUtc[run.analysisHours] == c.runUtc == run.runUtc
            && c.horizonEndUtc == run.runUtc + run.forecastHours * MS_PER_HOUR
            && c.analysisEndUtc == if run.analysisHours > 0 then Some(run.runUtc) else None
  {
    CompileMeasuresTheColumns(run, rows);
  }

  /** Every compiled province is that of one readable row, with arrays as long as the axis. */
  lemma CompiledProvince(run: Run, rows: seq<Row>, province: Province, p: Pollutant)
    requires CompileOf(run, rows).Compiled? && province in CompileOf(run, rows).run.provinces
    ensures exists row :: row in rows && DescribeUnreadableRow(row, run).None? && province == CompiledRow(row)
    ensures |province.concentrations.At(p)| == |CompileOf(run, rows).run.timesUtc|
  {
    CompileMeasuresTheColumns(run, rows);
    CollectedFrom(Compiles(run), rows, province);
    var row :| row in rows && Compiles(run)(row) == Some(province);
    CompiledPollutant(row, run, p);
  }

  lemma RowsAreAccountedFor(run: Run, rows: seq<Row>)
    ensures |Collect(Skips(run), rows)| + |Collect(Compiles(run), rows)| == |rows|
    ensures |Collect(Reads(run), rows)| == |Collect(Compiles(run), rows)|
  {
    CollectsShareOut(Skips(run), Compiles(run), rows);
    CollectsShareOut(Skips(run), Reads(run), rows);
  }

  /** Every row is compiled or reported, and the compile fails exactly when no row is readable. */
  lemma CompileAccountsForEveryRow(run: Run, rows: seq<Row>)
    ensures match CompileOf(run, rows)
            case Compiled(c, skipped, _) => |skipped| + |c.provinces| == |rows| && |c.provinces| > 0
            case SchemaError(noRows, skipped) => |skipped| == |rows| && (noRows <==> rows == [])
    ensures CompileOf(run, rows).SchemaError? <==> forall row :: row in rows ==> DescribeUnreadableRow(row, run).Some?
  {
    RowsAreAccountedFor(run, rows);
    var readable := Collect(Reads(run), rows);
    if readable != [] {
      IsRead(run, rows, readable[0]);
    }
    forall row | row in rows && DescribeUnreadableRow(row, run).None?
      ensures row in readable
    {
      CollectedFrom(Reads(run), rows, row);
      assert Reads(run)(row) == Some(row);
    }
  }

  /** Unreadable rows cost themselves and nothing else. */
  lemma UnreadableRowsOnlyCostThemselves(run: Run, rows: seq<Row>)
    requires CompileOf(run, rows).Compiled?
    ensures var readable := Collect(Reads(run), rows);
            CompileOf(run, readable) == Compiled(CompileOf(run, rows).run, [], CompileOf(run, rows).normalised)
  {
    var readable := Collect(Reads(run), rows);
    CollectFiltered(Compiles(run), Reads(run), rows);
    CollectFiltered(Reads(run), Reads(run), rows);
    SumFiltered(Loses(run), Reads(run), rows);
    RowsAreAccountedFor(run, readable);
  }

  /**
   * The order of the rows decides nothing but the order of the provinces and of the skip reports:
   * the axis, the seam, the horizon and the counts are the same for every order.
   */
  lemma RowOrderDoesNotMatter(a: seq<Row>, b: seq<Row>, run: Run)
    requires multiset(a) == multiset(b) && CompileOf(run, a).Compiled?
    ensures CompileOf(run, b).Compiled?
    ensures var x, y := CompileOf(run, a), CompileOf(run, b);
            && x.run.(provinces := []) == y.run.(provinces := [])
            && multiset(x.run.provinces) == multiset(y.run.provinces)
            && multiset(x.skipped) == multiset(y.skipped)
            && x.normalised == y.normalised
  {
    CollectAnyOrder(Compiles(run), a, b);
    CollectAnyOrder(Skips(run), a, b);
    SumAnyOrder(Loses(run), a, b);
    RowsAreAccountedFor(run, a);
    RowsAreAccountedFor(run, b);
    assert |multiset(Collect(Compiles(run), a))| == |multiset(Collect(Compiles(run), b))|;
    CompileMeasuresTheColumns(run, a);
    CompileMeasuresTheColumns(run, b);
  }
}
