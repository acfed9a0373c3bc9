/**
 * The two public reads: every value is normalised again on its way out of the cache, and what that
 * second pass had to null is counted once a request.
 */
module AirQualityRead {
  import opened Options
  import opened AirQualityValues
  import opened Collecting
  import C = AirQualityCompile
  import E = AirQualityEaqi
  import R = AirQualityReader
  import Steps = AirQualitySteps

  // ---------------------------------------------------------------- one step of one cached province

  /** An index past the end reads as undefined. */
  function ValueAt(province: Json, p: Pollutant, step: nat): Json {
    match Member(Member(province, "concentrations"), Name(p))
    case Arr(items) => if step < |items| then items[step] else Undefined
    case _ => Undefined
  }

  predicate IsNotSupported(province: Json, p: Pollutant) {
    Member(Member(province, "support"), Name(p)) == Text("not_supported")
  }

  function InputOf(province: Json, step: nat): Pollutant -> Option<real> {
    p => if IsNotSupported(province, p) then None else Normalise(ValueAt(province, p, step))
  }

  /** A supported pollutant whose value is there and cannot be used. */
  predicate IsBad(province: Json, p: Pollutant, step: nat) {
    !IsNotSupported(province, p) && WasSubstituted(ValueAt(province, p, step))
  }

  function BadAt(province: Json, step: nat): Pollutant -> nat {
    p => if IsBad(province, p, step) then 1 else 0
  }

  lemma InputIsPresentOrMissing(province: Json, step: nat)
    ensures E.IsPresentOrMissing(ForEach(InputOf(province, step)))
  {
    forall p: Pollutant
      ensures ForEach(InputOf(province, step)).At(p) == InputOf(province, step)(p)
    {
      C.ForEachAt(InputOf(province, step), p);
    }
  }

  /** Whatever the cache holds, the index is only ever asked about missing or non-negative values. */
  function InputAt(province: Json, step: nat): (v: E.Values)
    ensures forall p: Pollutant :: v.At(p) == InputOf(province, step)(p)
    ensures forall p: Pollutant :: v.At(p).Some? ==> v.At(p).value >= 0.0
  {
    InputIsPresentOrMissing(province, step);
    ForEach(InputOf(province, step))
  }

  function Bads(province: Json, step: nat): nat {
    Sum(BadAt(province, step), ALL)
  }

  function IndexAt(province: Json, step: nat): E.Eaqi {
    E.EaqiOf(InputAt(province, step))
  }

  // ---------------------------------------------------------------- the builders

  /** The mutable accumulator one request hands through the builders. */
  class Tally {
    var count: nat

    constructor ()
      ensures count == 0
    {
      count := 0;
    }
  }

  method EaqiInputAt(province: Json, step: nat, tally: Tally?) returns (values: Each<Option<real>>)
    modifies tally
    ensures values == InputAt(province, step)
    ensures tally != null ==> tally.count == old(tally.count) + Bads(province, step)
  {
    values := Each(None, None, None, None, None);
    for k := 0 to |ALL|
      invariant FilledTo(values, InputOf(province, step), k)
      invariant tally != null ==> tally.count == old(tally.count) + Sum(BadAt(province, step), ALL[..k])
    {
      var p := ALL[k];
      assert ALL[..k + 1] == ALL[..k] + [p];
      SumOne(BadAt(province, step), ALL[..k], p);
      FillOneMore(values, InputOf(province, step), k);
      if IsNotSupported(province, p) {
        values := values.With(p, None);
      } else {
        var raw := ValueAt(province, p, step);
        var normalised := Normalise(raw);
        if tally != null && WasSubstituted(raw) {
          tally.count := tally.count + 1;
        }
        values := values.With(p, normalised);
      }
    }
    AllFilled(values, InputOf(province, step));
    assert ALL[..|ALL|] == ALL;
  }

  datatype Status = Available | NoValue | Unsupported | Unavailable

  /** What is published of one pollutant; the unit and the averaging period are constants. */
  datatype PollutantRow = PollutantRow(
    pollutant: Pollutant,
    value: Option<real>,
    subIndexBand: Option<int>,
    subIndexCategory: Option<E.Category>,
    status: Status)

  /** What the cache says of the entry. */
  datatype Provenance = Provenance(freshness: Option<R.Freshness>, fetchedAt: Option<int>, staleSince: Option<int>)

  /** What every index of a run has in common, read off the cached payload as it stands there. */
  datatype RunFacts = RunFacts(times: seq<int>, runUtc: Json, datasetId: Json)

  /** The published index of one province at one step; constants of the format are left out. */
  datatype Index = Index(
    band: Option<int>,
    category: Option<E.Category>,
    dominant: Option<Pollutant>,
    status: Status,
    freshness: Option<R.Freshness>,
    pollutants: seq<PollutantRow>,
    missing: seq<Pollutant>,
    validAt: Option<int>,
    modelRunAt: Json,
    ingestedAt: Json,
    fetchedAt: Option<int>,
    staleSince: Option<int>,
    datasetId: Json,
    gridLatitude: Json,
    gridLongitude: Json,
    distanceKm: Json)

  function PollutantStatus(province: Json, p: Pollutant, value: Option<real>): Status {
    if IsNotSupported(province, p) then Unsupported else if value.None? then NoValue else Available
  }

  function RowFor(province: Json, values: Each<Option<real>>, sub: Each<Option<E.SubIndex>>): Pollutant -> PollutantRow {
    p => match sub.At(p)
         case None => PollutantRow(p, values.At(p), None, None, PollutantStatus(province, p, values.At(p)))
         case Some(s) =>
           PollutantRow(p, values.At(p), Some(s.band), Some(s.category), PollutantStatus(province, p, values.At(p)))
  }

  function RowsOf(province: Json, values: Each<Option<real>>, sub: Each<Option<E.SubIndex>>): seq<PollutantRow> {
    MapAll(RowFor(province, values, sub), ALL)
  }

  function IndexOf(run: RunFacts, province: Json, step: nat, from: Provenance): Index {
    var eaqi := IndexAt(province, step);
    var status := if eaqi.band.None? then NoValue else Available;
    Index(eaqi.band, eaqi.category, eaqi.dominant, status, if status == Available then from.freshness else None,
          RowsOf(province, InputAt(province, step), eaqi.subIndexes), eaqi.missing,
          if step < |run.times| then Some(run.times[step]) else None, run.runUtc, Member(province, "ingestedAtUtc"),
          from.fetchedAt, from.staleSince, run.datasetId, Member(province, "gridLatitude"),
          Member(province, "gridLongitude"), Member(province, "distanceKm"))
  }

  method BuildIndex(run: RunFacts, province: Json, step: nat, from: Provenance, tally: Tally?) returns (index: Index)
    modifies tally
    ensures index == IndexOf(run, province, step, from)
    ensures tally != null ==> tally.count == old(tally.count) + Bads(province, step)
  {
    var values := EaqiInputAt(province, step, tally);
    var eaqi := E.ComputeEaqi(values);
    var pollutants := RowsOf(province, values, eaqi.subIndexes);
    var status := if eaqi.band.None? then NoValue else Available;
    index := Index(eaqi.band, eaqi.category, eaqi.dominant, status, if status == Available then from.freshness else None,
                   pollutants, eaqi.missing, if step < |run.times| then Some(run.times[step]) else None, run.runUtc,
                   Member(province, "ingestedAtUtc"), from.fetchedAt, from.staleSince, run.datasetId,
                   Member(province, "gridLatitude"), Member(province, "gridLongitude"), Member(province, "distanceKm"));
  }

  /** The row of one pollutant, by its place in the list. */
  lemma RowAt(province: Json, step: nat, p: Pollutant)
    ensures var sub := IndexAt(province, step).subIndexes;
            && |RowsOf(province, InputAt(province, step), sub)| == |ALL|
            && RowsOf(province, InputAt(province, step), sub)[Place(p)] == RowFor(province, InputAt(province, step), sub)(p)
  {
  }

  /**
   * What the index says of a pollutant and what it says overall agree: a pollutant is listed as missing
   * exactly when its row has neither value nor sub-index and is not `Available`; no row is worse than
   * the band; and there is a band, and a freshness only then, exactly when some row is `Available`.
   */
  lemma IndexAgreesWithItsRows(run: RunFacts, province: Json, step: nat, from: Provenance, p: Pollutant)
    ensures var index := IndexOf(run, province, step, from);
            && |index.pollutants| == |ALL|
            && var row := index.pollutants[Place(p)];
            && row.pollutant == p
            && (p in index.missing <==> row.status != Available)
            && (row.value.None? <==> row.status != Available)
            && (row.subIndexBand.None? <==> row.status != Available)
            && (row.subIndexCategory.None? <==> row.status != Available)
            && (row.status == Available ==> index.status == Available && row.subIndexBand.value <= index.band.value)
            && (index.status == Available <==> index.band.Some?)
            && (index.status != Available ==> index.freshness.None? && row.status != Available)
  {
    RowAt(province, step, p);
    E.SubIndexMeans(InputAt(province, step), p);
    E.IndexMeans(InputAt(province, step));
  }

  function BadsIn(province: Json): nat -> nat {
    (step: nat) => Bads(province, step)
  }

  /** The bad values of the first `n` steps. */
  function BadsTo(province: Json, n: nat): nat {
    TotalTo(BadsIn(province), n)
  }

  function IndexIn(province: Json): nat -> E.Eaqi {
    (step: nat) => IndexAt(province, step)
  }

  function IndexesTo(province: Json, n: nat): seq<E.Eaqi> {
    Build(IndexIn(province), n)
  }

  function PublishedValues(province: Json): Pollutant -> seq<Option<real>> {
    p => NormaliseAll(C.Half(Member(province, "concentrations"), p))
  }

  datatype Series = Series(times: seq<int>, indexes: seq<E.Eaqi>, concentrations: Each<seq<Option<real>>>)

  method BuildSeries(times: seq<int>, province: Json, tally: Tally?) returns (series: Series)
    modifies tally
    ensures series == Series(times, IndexesTo(province, |times|), ForEach(PublishedValues(province)))
    ensures tally != null ==> tally.count == old(tally.count) + BadsTo(province, |times|)
  {
    var indexes: seq<E.Eaqi> := [];
    for step := 0 to |times|
      invariant indexes == IndexesTo(province, step)
      invariant tally != null ==> tally.count == old(tally.count) + BadsTo(province, step)
    {
      BuildOne(IndexIn(province), step);
      var values := EaqiInputAt(province, step, tally);
      var eaqi := E.ComputeEaqi(values);
      indexes := indexes + [eaqi];
    }
    series := Series(times, indexes, ForEach(PublishedValues(province)));
  }

  /**
   * The detail request: the index takes no tally because the series counts its step too. The index
   * published is the series' own at that step, and every bad value is counted once.
   */
  method GetProvince(run: RunFacts, province: Json, step: nat, from: Provenance)
    returns (current: Index, series: Series, counted: nat)
    requires step < |run.times|
    ensures current == IndexOf(run, province, step, from)
    ensures series == Series(run.times, IndexesTo(province, |run.times|), ForEach(PublishedValues(province)))
    ensures current.band == series.indexes[step].band && current.category == series.indexes[step].category
    ensures current.dominant == series.indexes[step].dominant && current.validAt == Some(series.times[step])
    ensures counted == |BadCells(province, |run.times|)|
  {
    var tally := new Tally();
    current := BuildIndex(run, province, step, from, null);
    series := BuildSeries(run.times, province, tally);
    counted := tally.count;
    EveryBadCellOnce(province, |run.times|);
  }

  // ---------------------------------------------------------------- one request

  /** What a request publishes from: nothing, or a run, the step nearest to now and its provinces by plate code. */
  datatype Resolved =
    | Nothing
    | Publishing(run: RunFacts, step: nat, byPlateCode: map<Json, Json>, from: Provenance)

  function TimesOf(value: Json): (times: seq<int>)
    requires R.UsableRun(value)
    ensures times != [] && R.TimesJson(times) == Member(value, "timesUtc")
  {
    var items := Member(value, "timesUtc").items;
    seq(|items|, i requires 0 <= i < |items| => items[i].ms)
  }

  /** Of two provinces with one plate code the later one is kept. */
  function ByPlateCode(provinces: seq<Json>): map<Json, Json> {
    if provinces == [] then map[]
    else
      var last := provinces[|provinces| - 1];
      ByPlateCode(provinces[..|provinces| - 1])[Member(last, "plateCode") := last]
  }

  /** The read as it left the gate; a value that did is safe to take apart. */
  function ResolveRun(read: R.Read, now: int): (r: Resolved)
    requires read.value.Some? ==> R.UsableRun(read.value.value)
    ensures r.Nothing? <==> read.value.None?
    ensures r.Publishing? ==> r.step < |r.run.times| && Steps.IsNearest(r.run.times, now, r.step)
    ensures r.Publishing? ==> R.TimesJson(r.run.times) == Member(read.value.value, "timesUtc")
  {
    match read.value
    case None => Nothing
    case Some(value) =>
      var times := TimesOf(value);
      Steps.ScanFindsTheNearest(times, now);
      Publishing(RunFacts(times, Member(value, "runUtc"), Member(value, "datasetId")),
                 Steps.SelectStep(times, now).value, ByPlateCode(Member(value, "provinces").items),
                 Provenance(read.freshness, read.fetchedAt, read.staleSince))
  }

  lemma {:induction false} ByPlateCodeHas(provinces: seq<Json>, plate: Json)
    ensures plate in ByPlateCode(provinces) <==> exists p :: p in provinces && Member(p, "plateCode") == plate
    ensures plate in ByPlateCode(provinces) ==>
              ByPlateCode(provinces)[plate] in provinces && Member(ByPlateCode(provinces)[plate], "plateCode") == plate
  {
    if provinces == [] {
    } else {
      var init, last := provinces[..|provinces| - 1], provinces[|provinces| - 1];
      ByPlateCodeHas(init, plate);
      assert forall p :: p in provinces <==> p in init || p == last;
    }
  }

  function ItemOf(plate: Json, resolved: Resolved): Option<Index> {
    if resolved.Publishing? && plate in resolved.byPlateCode
    then Some(IndexOf(resolved.run, resolved.byPlateCode[plate], resolved.step, resolved.from)) else None
  }

  function Shows(resolved: Resolved): Json -> Option<Index> {
    plate => ItemOf(plate, resolved)
  }

  function Loses(resolved: Resolved): Json -> nat {
    plate =>
      if resolved.Publishing? && plate in resolved.byPlateCode then Bads(resolved.byPlateCode[plate], resolved.step) else 0
  }

  method ShowProvince(plate: Json, resolved: Resolved, tally: Tally) returns (item: Option<Index>)
    modifies tally
    ensures item == Shows(resolved)(plate) && tally.count == old(tally.count) + Loses(resolved)(plate)
  {
    if resolved.Publishing? && plate in resolved.byPlateCode {
      var index := BuildIndex(resolved.run, resolved.byPlateCode[plate], resolved.step, resolved.from, tally);
      return Some(index);
    }
    return None;
  }

  /** The hub: every province of the table, absent when the run does not cover it; one tally for the request. */
  method ListProvinces(plates: seq<Json>, resolved: Resolved) returns (items: seq<Option<Index>>, counted: nat)
    ensures items == MapAll(Shows(resolved), plates) && counted == Sum(Loses(resolved), plates)
  {
    var tally := new Tally();
    items := [];
    for i := 0 to |plates|
      invariant items == MapAll(Shows(resolved), plates[..i]) && tally.count == Sum(Loses(resolved), plates[..i])
    {
      MapOne(Shows(resolved), plates[..i], plates[i]);
      SumOne(Loses(resolved), plates[..i], plates[i]);
      assert plates[..i + 1] == plates[..i] + [plates[i]];
      var item := ShowProvince(plates[i], resolved, tally);
      items := items + [item];
    }
    assert plates[..|plates|] == plates;
    counted := tally.count;
  }

  /** Every province a gated run carries is on the hub with arrays as long as the axis, and no other is. */
  lemma HubShowsTheRun(read: R.Read, gate: int, maxAge: int, now: int, plate: Json)
    ensures var out := R.Gated(read, gate, maxAge);
            && (out.value.Some? ==> R.UsableRun(out.value.value))
            && (out.value.Some? ==>
                  var resolved := ResolveRun(out, now);
                  var provinces := Member(out.value.value, "provinces").items;
                  && (ItemOf(plate, resolved).Some? <==> exists p :: p in provinces && Member(p, "plateCode") == plate)
                  && (plate in resolved.byPlateCode ==>
                        R.UsableProvince(resolved.byPlateCode[plate], |resolved.run.times|)))
  {
    R.OnlyPublishableValuesLeave(read, gate, maxAge);
    var out := R.Gated(read, gate, maxAge);
    if out.value.Some? {
      ByPlateCodeHas(Member(out.value.value, "provinces").items, plate);
    }
  }

  // ---------------------------------------------------------------- what the tally counts

  datatype Cell = Cell(step: nat, pollutant: Pollutant)

  /** The bad cells of one step, among the first `k` pollutants. */
  function BadStepTo(province: Json, step: nat, k: nat): set<Cell>
    requires k <= |ALL|
  {
    if k == 0 then {}
    else BadStepTo(province, step, k - 1) + if IsBad(province, ALL[k - 1], step) then {Cell(step, ALL[k - 1])} else {}
  }

  function BadStep(province: Json, step: nat): set<Cell> {
    BadStepTo(province, step, |ALL|)
  }

  function CellsIn(province: Json): nat -> set<Cell> {
    (step: nat) => BadStep(province, step)
  }

  /** The bad cells of the first `n` steps. */
  function BadCells(province: Json, n: nat): set<Cell> {
    UnionTo(CellsIn(province), n)
  }

  lemma {:induction false} BadStepHas(province: Json, step: nat, k: nat, c: Cell)
    requires k <= |ALL|
    ensures c in BadStepTo(province, step, k)
            <==> c.step == step && Place(c.pollutant) < k && IsBad(province, c.pollutant, step)
  {
    if k == 0 {
    } else {
      BadStepHas(province, step, k - 1, c);
      assert Place(c.pollutant) == k - 1 <==> c.pollutant == ALL[k - 1];
    }
  }

  lemma BadStepIs(province: Json, step: nat, c: Cell)
    ensures c in CellsIn(province)(step) <==> c.step == step && IsBad(province, c.pollutant, step)
  {
    BadStepHas(province, step, |ALL|, c);
  }

  /** The set is the bad values, by step and pollutant, and nothing else. */
  lemma BadCellsAre(province: Json, n: nat, c: Cell)
    ensures c in BadCells(province, n) <==> c.step < n && IsBad(province, c.pollutant, c.step)
  {
    UnionHas(CellsIn(province), n, c);
    forall i: nat
      ensures c in CellsIn(province)(i) <==> c.step == i && IsBad(province, c.pollutant, i)
    {
      BadStepIs(province, i, c);
    }
  }

  lemma OneMoreCell(province: Json, step: nat, k: nat)
    requires k < |ALL|
    ensures |BadStepTo(province, step, k + 1)| == |BadStepTo(province, step, k)| + BadAt(province, step)(ALL[k])
  {
    BadStepHas(province, step, k, Cell(step, ALL[k]));
    assert Place(ALL[k]) == k;
  }

  lemma {:induction false} StepCount(province: Json, step: nat, k: nat)
    requires k <= |ALL|
    ensures Sum(BadAt(province, step), ALL[..k]) == |BadStepTo(province, step, k)|
  {
    if k == 0 {
    } else {
      StepCount(province, step, k - 1);
      SumStep(BadAt(province, step), ALL, k - 1);
      OneMoreCell(province, step, k - 1);
    }
  }

  lemma WholeStepCount(province: Json, step: nat)
    ensures BadsIn(province)(step) == |CellsIn(province)(step)|
  {
    StepCount(province, step, |ALL|);
    assert ALL[..|ALL|] == ALL;
  }

  lemma StepsShareNothing(province: Json, i: nat, j: nat)
    requires i < j
    ensures CellsIn(province)(i) !! CellsIn(province)(j)
  {
    forall c | c in CellsIn(province)(i)
      ensures c !in CellsIn(province)(j)
    {
      BadStepIs(province, i, c);
      BadStepIs(province, j, c);
    }
  }

  /** The series pass counts every bad supported (step, pollutant) value, and each exactly once. */
  lemma EveryBadCellOnce(province: Json, n: nat)
    ensures BadsTo(province, n) == |BadCells(province, n)|
  {
    forall i: nat
      ensures BadsIn(province)(i) == |CellsIn(province)(i)|
    {
      WholeStepCount(province, i);
    }
    forall i: nat, j: nat | i < j
      ensures CellsIn(province)(i) !! CellsIn(province)(j)
    {
      StepsShareNothing(province, i, j);
    }
    CountedOnce(BadsIn(province), CellsIn(province), n);
  }

  // ---------------------------------------------------------------- a payload of today's compile

  /** A compiled value comes back from the cache as it went in, and is never counted. */
  lemma CompiledValueComesBack(value: Option<real>)
    requires value.Some? ==> value.value >= 0.0
    ensures Normalise(R.ValueJson(value)) == value && !WasSubstituted(R.ValueJson(value))
  {
  }

  lemma CompiledMembers(province: C.Province, p: Pollutant)
    ensures C.Half(Member(R.ProvinceJson(province), "concentrations"), p)
            == R.SeriesJson(province.concentrations.At(p)).items
    ensures IsNotSupported(R.ProvinceJson(province), p) <==> province.support.At(p) == NotSupported
  {
    R.PlainMembers(province);
    R.EachMember(province.concentrations, R.SeriesJson, p);
    R.EachMember(province.support, R.VerdictJson, p);
  }

  lemma CompiledSeriesComesBack(values: seq<Option<real>>)
    requires forall i :: 0 <= i < |values| && values[i].Some? ==> values[i].value >= 0.0
    ensures NormaliseAll(R.SeriesJson(values).items) == values
    ensures forall i :: 0 <= i < |values| ==> !WasSubstituted(R.SeriesJson(values).items[i])
  {
    forall i | 0 <= i < |values|
      ensures Normalise(R.SeriesJson(values).items[i]) == values[i] && !WasSubstituted(R.SeriesJson(values).items[i])
    {
      CompiledValueComesBack(values[i]);
    }
  }

  /** Every value of a compiled row has been normalised already. */
  lemma CompiledValuesAreClean(row: C.Row, run: C.Run, p: Pollutant, i: nat)
    requires C.DescribeUnreadableRow(row, run).None? && i < |C.CompiledRow(row).concentrations.At(p)|
    ensures C.CompiledRow(row).concentrations.At(p)[i].Some? ==> C.CompiledRow(row).concentrations.At(p)[i].value >= 0.0
  {
    C.CompiledPollutant(row, run, p);
  }

  /**
   * A payload of today's compile: the published series is the merged one value for value, no step adds
   * to the tally, and the index is asked about exactly the compiled values.
   */
  lemma TodaysPayloadIsPublishedAsCompiled(row: C.Row, run: C.Run, p: Pollutant)
    requires C.DescribeUnreadableRow(row, run).None?
    ensures var province, cached := C.CompiledRow(row), R.ProvinceJson(C.CompiledRow(row));
            && PublishedValues(cached)(p) == province.concentrations.At(p)
            && (forall step: nat :: !IsBad(cached, p, step))
            && (forall step: nat :: step < |province.concentrations.At(p)| && province.support.At(p) == Supported ==>
                  InputOf(cached, step)(p) == province.concentrations.At(p)[step])
  {
    var province := C.CompiledRow(row);
    var cached, values := R.ProvinceJson(province), province.concentrations.At(p);
    forall i | 0 <= i < |values|
      ensures values[i].Some? ==> values[i].value >= 0.0
    {
      CompiledValuesAreClean(row, run, p, i);
    }
    CompiledMembers(province, p);
    CompiledSeriesComesBack(values);
    forall step: nat
      ensures ValueAt(cached, p, step) == if step < |values| then R.SeriesJson(values).items[step] else Undefined
    {
      assert Member(Member(cached, "concentrations"), Name(p)).Arr? || values == [];
    }
  }

  function FactsOf(run: C.CompiledRun): RunFacts {
    RunFacts(run.timesUtc, Member(R.RunJson(run), "runUtc"), Member(R.RunJson(run), "datasetId"))
  }

  lemma FactsAreTheRuns(run: C.CompiledRun)
    ensures FactsOf(run) == RunFacts(run.timesUtc, Stamp(run.runUtc), Text(run.datasetId))
  {
  }

  /** And the index says of its run and of its place in the grid what went into the cache. */
  lemma TodaysIndexCarriesItsRow(run: C.CompiledRun, province: C.Province, step: nat, from: Provenance)
    requires step < |run.timesUtc|
    ensures var index := IndexOf(FactsOf(run), R.ProvinceJson(province), step, from);
            && index.modelRunAt == Stamp(run.runUtc) && index.datasetId == Text(run.datasetId)
            && index.validAt == Some(run.timesUtc[step]) && index.ingestedAt == R.DateJson(province.ingestedAt)
            && index.gridLatitude == province.gridLatitude && index.gridLongitude == province.gridLongitude
            && index.distanceKm == province.distanceKm
  {
    FactsAreTheRuns(run);
    R.PlainMembers(province);
  }

  lemma NothingToCount(province: Json, n: nat)
    requires forall p: Pollutant, step: nat :: !IsBad(province, p, step)
    ensures BadsTo(province, n) == 0
  {
    EveryBadCellOnce(province, n);
    forall c
      ensures c !in BadCells(province, n)
    {
      BadCellsAre(province, n, c);
    }
    assert BadCells(province, n) == {};
  }

  /** So the tally of a detail request over such a payload is zero. */
  lemma TodaysPayloadAddsNothing(row: C.Row, run: C.Run, n: nat)
    requires C.DescribeUnreadableRow(row, run).None?
    ensures BadsTo(R.ProvinceJson(C.CompiledRow(row)), n) == 0
  {
    forall p: Pollutant, step: nat
      ensures !IsBad(R.ProvinceJson(C.CompiledRow(row)), p, step)
    {
      TodaysPayloadIsPublishedAsCompiled(row, run, p);
    }
    NothingToCount(R.ProvinceJson(C.CompiledRow(row)), n);
  }
}
