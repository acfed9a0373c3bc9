/**
 * The two sides of the shared cache: the compile that fills it from the store, and the gate every
 * read passes through on the way out.
 */
module AirQualityReader {
  import opened Options
  import opened AirQualityValues
  import C = AirQualityCompile
  import Steps = AirQualitySteps

  // ---------------------------------------------------------------- what the cache holds

  function NumberOf(value: real): Json {
    Num(Finite(value))
  }

  function ValueJson(value: Option<real>): Json {
    match value case None => Null case Some(v) => NumberOf(v)
  }

  function VerdictJson(v: Verdict): Json {
    match v case Supported => Text("ok") case NotSupported => Text("not_supported")
  }

  function DateJson(d: C.StoredDate): Json {
    match d case ValidDate(ms) => Stamp(ms) case _ => Null
  }

  function EachJson<T>(e: Each<T>, f: T -> Json): Json {
    Obj(map[Name(Pm25) := f(e.pm25), Name(Pm10) := f(e.pm10), Name(No2) := f(e.no2), Name(O3) := f(e.o3),
            Name(So2) := f(e.so2)])
  }

  function SeriesJson(values: seq<Option<real>>): Json {
    Arr(seq(|values|, i requires 0 <= i < |values| => ValueJson(values[i])))
  }

  function SeriesBlock(p: C.Province): Json {
    EachJson(p.concentrations, SeriesJson)
  }

  function SupportBlock(p: C.Province): Json {
    EachJson(p.support, VerdictJson)
  }

  function ProvinceJson(p: C.Province): Json {
    Obj(map["plateCode" := p.plateCode, "ingestedAtUtc" := DateJson(p.ingestedAt), "gridLatitude" := p.gridLatitude,
            "gridLongitude" := p.gridLongitude, "distanceKm" := p.distanceKm,
            "concentrations" := SeriesBlock(p),
            "support" := SupportBlock(p)])
  }

  function TimesJson(times: seq<int>): Json {
    Arr(seq(|times|, i requires 0 <= i < |times| => Stamp(times[i])))
  }

  function ProvincesJson(provinces: seq<C.Province>): Json {
    Arr(seq(|provinces|, i requires 0 <= i < |provinces| => ProvinceJson(provinces[i])))
  }

  /** A compiled run as it is written to the cache. */
  function RunJson(run: C.CompiledRun): Json {
    Obj(map["runUtc" := Stamp(run.runUtc), "datasetId" := Text(run.datasetId),
            "analysisEndUtc" := (match run.analysisEndUtc case None => Null case Some(ms) => Stamp(ms)),
            "stepHours" := NumberOf(run.stepHours as real), "timesUtc" := TimesJson(run.timesUtc),
            "horizonEndUtc" := Stamp(run.horizonEndUtc), "provinces" := ProvincesJson(run.provinces)])
  }

  // ---------------------------------------------------------------- the exit guard

  datatype Unusable =
    | RunMember(name: string)
    | NotAProvince(index: nat) | ProvinceMember(index: nat, name: string)
    | NotASeries(index: nat, pollutant: Pollutant) | WrongLength(index: nat, pollutant: Pollutant)
    | NotASupport(index: nat, pollutant: Pollutant)

  predicate IsInstantArray(j: Json) {
    j.Arr? && forall i :: 0 <= i < |j.items| ==> j.items[i].Stamp?
  }

  function DescribePollutants(concentrations: Json, support: Json, index: nat, stepCount: nat, k: nat): Option<Unusable>
    requires k <= |ALL|
    decreases |ALL| - k
  {
    if k == |ALL| then None
    else
      match Member(concentrations, Name(ALL[k]))
      case Arr(items) =>
        if |items| != stepCount then Some(WrongLength(index, ALL[k]))
        else if ReadVerdict(Member(support, Name(ALL[k]))).None? then Some(NotASupport(index, ALL[k]))
        else DescribePollutants(concentrations, support, index, stepCount, k + 1)
      case _ => Some(NotASeries(index, ALL[k]))
  }

  function DescribeUnusableProvince(value: Json, index: nat, stepCount: nat): Option<Unusable> {
    if !IsObject(value) then Some(NotAProvince(index))
    else if !IsNonEmptyString(Member(value, "plateCode")) then Some(ProvinceMember(index, "plateCode"))
    else if !Member(value, "ingestedAtUtc").Stamp? then Some(ProvinceMember(index, "ingestedAtUtc"))
    else if !IsFiniteNumber(Member(value, "gridLatitude")) then Some(ProvinceMember(index, "gridLatitude"))
    else if !IsFiniteNumber(Member(value, "gridLongitude")) then Some(ProvinceMember(index, "gridLongitude"))
    else if !IsFiniteNumber(Member(value, "distanceKm")) then Some(ProvinceMember(index, "distanceKm"))
    else if !IsObject(Member(value, "concentrations")) then Some(ProvinceMember(index, "concentrations"))
    else if !IsObject(Member(value, "support")) then Some(ProvinceMember(index, "support"))
    else DescribePollutants(Member(value, "concentrations"), Member(value, "support"), index, stepCount, 0)
  }

  function DescribeProvinces(provinces: seq<Json>, stepCount: nat, index: nat): Option<Unusable>
    requires index <= |provinces|
    decreases |provinces| - index
  {
    if index == |provinces| then None
    else
      var reason := DescribeUnusableProvince(provinces[index], index, stepCount);
      if reason.Some? then reason else DescribeProvinces(provinces, stepCount, index + 1)
  }

  function DescribeUnusableRun(value: Json): Option<Unusable> {
    if !Member(value, "runUtc").Stamp? then Some(RunMember("runUtc"))
    else if !IsString(Member(value, "datasetId")) then Some(RunMember("datasetId"))
    else if !IsFiniteNumber(Member(value, "stepHours")) then Some(RunMember("stepHours"))
    else if !Member(value, "horizonEndUtc").Stamp? then Some(RunMember("horizonEndUtc"))
    else if Member(value, "analysisEndUtc") != Null && !Member(value, "analysisEndUtc").Stamp? then
      Some(RunMember("analysisEndUtc"))
    else
      var times, provinces := Member(value, "timesUtc"), Member(value, "provinces");
      if !IsInstantArray(times) || |times.items| == 0 then Some(RunMember("timesUtc"))
      else if !provinces.Arr? then Some(RunMember("provinces"))
      else DescribeProvinces(provinces.items, |times.items|, 0)
  }

  /** Everything a reader of one province dereferences. */
  predicate UsableProvince(value: Json, stepCount: nat) {
    && IsNonEmptyString(Member(value, "plateCode")) && Member(value, "ingestedAtUtc").Stamp?
    && IsFiniteNumber(Member(value, "gridLatitude")) && IsFiniteNumber(Member(value, "gridLongitude"))
    && IsFiniteNumber(Member(value, "distanceKm"))
    && C.HoldsArrays(Member(value, "concentrations"), stepCount) && C.HoldsVerdicts(Member(value, "support"))
  }

  predicate UsableRun(value: Json) {
    && Member(value, "runUtc").Stamp? && IsString(Member(value, "datasetId")) && IsFiniteNumber(Member(value, "stepHours"))
    && Member(value, "horizonEndUtc").Stamp?
    && (Member(value, "analysisEndUtc") == Null || Member(value, "analysisEndUtc").Stamp?)
    && IsInstantArray(Member(value, "timesUtc")) && Member(value, "timesUtc").items != []
    && Member(value, "provinces").Arr?
    && forall p :: p in Member(value, "provinces").items ==> UsableProvince(p, |Member(value, "timesUtc").items|)
  }

  predicate PollutantIsUsable(concentrations: Json, support: Json, stepCount: nat, p: Pollutant) {
    && Member(concentrations, Name(p)).Arr? && |Member(concentrations, Name(p)).items| == stepCount
    && ReadVerdict(Member(support, Name(p))).Some?
  }

  lemma {:induction false} PollutantsMean(concentrations: Json, support: Json, index: nat, stepCount: nat, k: nat)
    requires k <= |ALL|
    ensures DescribePollutants(concentrations, support, index, stepCount, k).None?
            <==> forall i :: k <= i < |ALL| ==> PollutantIsUsable(concentrations, support, stepCount, ALL[i])
    decreases |ALL| - k
  {
    if k == |ALL| {
    } else {
      PollutantsMean(concentrations, support, index, stepCount, k + 1);
    }
  }

  lemma {:induction false} ProvinceGuardIsExact(value: Json, index: nat, stepCount: nat)
    ensures DescribeUnusableProvince(value, index, stepCount).None? <==> UsableProvince(value, stepCount)
  {
    var concentrations, support := Member(value, "concentrations"), Member(value, "support");
    PollutantsMean(concentrations, support, index, stepCount, 0);
    if forall i :: 0 <= i < |ALL| ==> PollutantIsUsable(concentrations, support, stepCount, ALL[i]) {
      forall p: Pollutant
        ensures PollutantIsUsable(concentrations, support, stepCount, p)
      {
        assert ALL[Place(p)] == p;
      }
    }
    if C.HoldsArrays(concentrations, stepCount) && C.HoldsVerdicts(support) {
      assert Member(concentrations, Name(Pm25)).Arr? && ReadVerdict(Member(support, Name(Pm25))).Some?;
      assert forall i :: 0 <= i < |ALL| ==> PollutantIsUsable(concentrations, support, stepCount, ALL[i]);
    }
  }

  lemma {:induction false} ProvincesMean(provinces: seq<Json>, stepCount: nat, index: nat)
    requires index <= |provinces|
    ensures DescribeProvinces(provinces, stepCount, index).None?
            <==> forall i :: index <= i < |provinces| ==> UsableProvince(provinces[i], stepCount)
    decreases |provinces| - index
  {
    if index == |provinces| {
    } else {
      ProvinceGuardIsExact(provinces[index], index, stepCount);
      ProvincesMean(provinces, stepCount, index + 1);
    }
  }

  /** The exit guard passes exactly the payloads in which everything a reader dereferences is there. */
  lemma ExitGuardIsExact(value: Json)
    ensures DescribeUnusableRun(value).None? <==> UsableRun(value)
  {
    var times, provinces := Member(value, "timesUtc"), Member(value, "provinces");
    if IsInstantArray(times) && provinces.Arr? {
      ProvincesMean(provinces.items, |times.items|, 0);
    }
  }

  // ---------------------------------------------------------------- the two guards agree

  lemma EachMember<T>(e: Each<T>, f: T -> Json, p: Pollutant)
    ensures Member(EachJson(e, f), Name(p)) == f(e.At(p))
  {
  }

  lemma BlocksAreUsable(province: C.Province, stepCount: nat)
    requires forall p: Pollutant :: |province.concentrations.At(p)| == stepCount
    ensures C.HoldsArrays(SeriesBlock(province), stepCount) && C.HoldsVerdicts(SupportBlock(province))
  {
    forall p: Pollutant
      ensures Member(SeriesBlock(province), Name(p)) == SeriesJson(province.concentrations.At(p))
      ensures Member(SupportBlock(province), Name(p)) == VerdictJson(province.support.At(p))
    {
      EachMember(province.concentrations, SeriesJson, p);
      EachMember(province.support, VerdictJson, p);
    }
  }

  lemma CompiledProvinceIsUsable(province: C.Province, row: C.Row, run: C.Run, stepCount: nat)
    requires C.DescribeUnreadableRow(row, run).None? && province == C.CompiledRow(row)
    requires forall p: Pollutant :: |province.concentrations.At(p)| == stepCount
    ensures UsableProvince(ProvinceJson(province), stepCount)
  {
    C.GuardIsExact(row, run);
    BlocksAreUsable(province, stepCount);
    PlainMembers(province);
  }

  lemma PlainMembers(province: C.Province)
    ensures var value := ProvinceJson(province);
            && Member(value, "plateCode") == province.plateCode
            && Member(value, "ingestedAtUtc") == DateJson(province.ingestedAt)
            && Member(value, "gridLatitude") == province.gridLatitude
            && Member(value, "gridLongitude") == province.gridLongitude
            && Member(value, "distanceKm") == province.distanceKm
            && Member(value, "concentrations") == SeriesBlock(province)
            && Member(value, "support") == SupportBlock(province)
  {
  }

  lemma OneOfTheRunIsUsable(run: C.Run, rows: seq<C.Row>, province: C.Province)
    requires C.CompileOf(run, rows).Compiled? && province in C.CompileOf(run, rows).run.provinces
    ensures UsableProvince(ProvinceJson(province), |C.CompileOf(run, rows).run.timesUtc|)
  {
    var stepCount := |C.CompileOf(run, rows).run.timesUtc|;
    forall p: Pollutant
      ensures |province.concentrations.At(p)| == stepCount
    {
      C.CompiledProvince(run, rows, province, p);
    }
    C.CompiledProvince(run, rows, province, Pm25);
    var row :| row in rows && C.DescribeUnreadableRow(row, run).None? && province == C.CompiledRow(row);
    CompiledProvinceIsUsable(province, row, run, stepCount);
  }

  lemma RunIsUsable(c: C.CompiledRun)
    requires c.timesUtc != []
    requires forall i :: 0 <= i < |c.provinces| ==> UsableProvince(ProvinceJson(c.provinces[i]), |c.timesUtc|)
    ensures UsableRun(RunJson(c))
  {
    var value := RunJson(c);
    assert Member(value, "provinces") == ProvincesJson(c.provinces);
    assert Member(value, "timesUtc") == TimesJson(c.timesUtc);
  }

  /** Whatever the compile writes, the exit guard of the same release publishes. */
  lemma CompiledRunsPassTheExitGuard(run: C.Run, rows: seq<C.Row>)
    requires C.CompileOf(run, rows).Compiled?
    ensures DescribeUnusableRun(RunJson(C.CompileOf(run, rows).run)).None?
  {
    var c := C.CompileOf(run, rows).run;
    C.CompileIsHourly(run, rows);
    forall i | 0 <= i < |c.provinces|
      ensures UsableProvince(ProvinceJson(c.provinces[i]), |c.timesUtc|)
    {
      OneOfTheRunIsUsable(run, rows, c.provinces[i]);
    }
    RunIsUsable(c);
    ExitGuardIsExact(RunJson(c));
  }

  // ---------------------------------------------------------------- the run-age ceiling and the exit gate

  predicate WithinMaxAge(runUtc: int, now: int, maxAgeSeconds: int) {
    (if now >= runUtc then now - runUtc else 0) <= maxAgeSeconds * 1000
  }

  datatype Kind = Ok | NoData | Transient | SchemaError

  datatype Freshness = Fresh | Stale

  /** What the shared cache hands back; an absent value is the source's null. */
  datatype Read = Read(kind: Kind, value: Option<Json>, freshness: Option<Freshness>, cacheAgeSeconds: Option<int>,
                       validAt: Option<int>, fetchedAt: Option<int>, staleSince: Option<int>)

  function WithoutValue(read: Read, kind: Kind): Read {
    Read(kind, None, None, None, None, read.fetchedAt, read.staleSince)
  }

  function Gated(read: Read, now: int, maxAgeSeconds: int): Read {
    if read.value.None? then read
    else if DescribeUnusableRun(read.value.value).Some? then WithoutValue(read, SchemaError)
    else if WithinMaxAge(Member(read.value.value, "runUtc").ms, now, maxAgeSeconds) then read
    else WithoutValue(read, Transient)
  }

  ghost predicate Publishable(value: Json, now: int, maxAgeSeconds: int) {
    UsableRun(value) && WithinMaxAge(Member(value, "runUtc").ms, now, maxAgeSeconds)
  }

  /**
   * Whatever the cache holds, a value leaves the gate exactly when it is well shaped and young enough,
   * and then the read is untouched; otherwise nothing that described the value leaves either.
   */
  lemma OnlyPublishableValuesLeave(read: Read, now: int, maxAgeSeconds: int)
    ensures var out := Gated(read, now, maxAgeSeconds);
            && (out.value.Some? <==> read.value.Some? && Publishable(read.value.value, now, maxAgeSeconds))
            && (out.value.Some? ==> out == read)
            && (read.value.Some? && out.value.None? ==>
                  out.kind != Ok && out.freshness.None? && out.cacheAgeSeconds.None? && out.validAt.None?)
  {
    if read.value.Some? {
      ExitGuardIsExact(read.value.value);
    }
  }

  // ---------------------------------------------------------------- filling the cache

  /** What the two store reads gave. */
  datatype StoreAnswer = StoreFailed | NoRun | Rows(run: C.Run, rows: seq<C.Row>)

  datatype Refreshed = Value(run: C.CompiledRun, validAt: int) | Failed(kind: Kind)

  function Refresh(answer: StoreAnswer, now: int, maxAgeSeconds: int): Refreshed {
    match answer
    case StoreFailed => Failed(Transient)
    case NoRun => Failed(Transient)
    case Rows(run, rows) =>
      if !WithinMaxAge(run.runUtc, now, maxAgeSeconds) then Failed(Transient)
      else
        match C.CompileOf(run, rows)
        case SchemaError(_, _) => Failed(SchemaError)
        case Compiled(compiled, _, _) =>
          match Steps.SelectStep(compiled.timesUtc, now)
          case None => Failed(SchemaError)
          case Some(step) => Value(compiled, compiled.timesUtc[step])
  }

  lemma WrittenIsGatedByAge(c: C.CompiledRun, now: int, maxAgeSeconds: int, read: Read)
    requires DescribeUnusableRun(RunJson(c)).None? && read.value == Some(RunJson(c))
    ensures Gated(read, now, maxAgeSeconds)
            == if WithinMaxAge(c.runUtc, now, maxAgeSeconds) then read else WithoutValue(read, Transient)
  {
    assert Member(RunJson(c), "runUtc") == Stamp(c.runUtc);
  }

  /**
   * The two sides agree: whatever the refresh writes, every later read publishes it unchanged until
   * the run is over age and from then on never, and the shape is never what stops it. A refresh fails
   * with `schema_error` only when no row is readable: the step it announces always exists.
   */
  lemma WriterAndReaderAgree(run: C.Run, rows: seq<C.Row>, now: int, later: int, maxAgeSeconds: int, read: Read)
    requires Refresh(Rows(run, rows), now, maxAgeSeconds).Value?
    requires read.value == Some(RunJson(Refresh(Rows(run, rows), now, maxAgeSeconds).run))
    ensures Gated(read, later, maxAgeSeconds)
            == if WithinMaxAge(run.runUtc, later, maxAgeSeconds) then read else WithoutValue(read, Transient)
  {
    CompiledRunsPassTheExitGuard(run, rows);
    C.CompileIsHourly(run, rows);
    WrittenIsGatedByAge(C.CompileOf(run, rows).run, later, maxAgeSeconds, read);
  }

  lemma RefreshFailsOnlyWithoutReadableRows(run: C.Run, rows: seq<C.Row>, now: int, maxAgeSeconds: int)
    requires WithinMaxAge(run.runUtc, now, maxAgeSeconds)
    ensures Refresh(Rows(run, rows), now, maxAgeSeconds).Failed?
            <==> forall row :: row in rows ==> C.DescribeUnreadableRow(row, run).Some?
  {
    C.CompileAccountsForEveryRow(run, rows);
    if C.CompileOf(run, rows).Compiled? {
      Steps.CompiledAxisIsHourly(run, rows);
    }
  }

  // ---------------------------------------------------------------- the reader and its counters

  class SeriesReader {
    const maxAgeSeconds: int
    var storeReadFailed: nat
    var runAgeCeiling: nat
    var corruptRowSkipped: nat
    var runUnreadable: nat
    var concentrationNormalised: nat
    var cachedRunUnusable: nat

    constructor (maxAgeSeconds: int)
      ensures this.maxAgeSeconds == maxAgeSeconds
    {
      this.maxAgeSeconds := maxAgeSeconds;
      storeReadFailed, runAgeCeiling, corruptRowSkipped, runUnreadable, concentrationNormalised, cachedRunUnusable :=
        0, 0, 0, 0, 0, 0;
    }

    /** `emitted` says the throttled log line went out; the counter follows it. */
    method SuppressStaleRun(read: Read, now: int, emitted: bool) returns (out: Read)
      modifies this`cachedRunUnusable
      ensures out == Gated(read, now, maxAgeSeconds)
      ensures cachedRunUnusable
              == old(cachedRunUnusable) + if emitted && out.kind == SchemaError && out != read then 1 else 0
    {
      if read.value == None {
        return read;
      }
      var unusable := DescribeUnusableRun(read.value.value);
      if unusable.Some? {
        if emitted {
          cachedRunUnusable := cachedRunUnusable + 1;
        }
        return WithoutValue(read, SchemaError);
      }
      if WithinMaxAge(Member(read.value.value, "runUtc").ms, now, maxAgeSeconds) {
        return read;
      }
      return WithoutValue(read, Transient);
    }

    method CompileFromStore(answer: StoreAnswer, now: int) returns (refreshed: Refreshed)
      modifies this
      ensures refreshed == Refresh(answer, now, maxAgeSeconds)
      ensures cachedRunUnusable == old(cachedRunUnusable)
      ensures storeReadFailed == old(storeReadFailed) + if answer.StoreFailed? then 1 else 0
      ensures var compiles := answer.Rows? && WithinMaxAge(answer.run.runUtc, now, maxAgeSeconds);
              && runAgeCeiling == old(runAgeCeiling) + (if answer.Rows? && !compiles then 1 else 0)
              && runUnreadable == old(runUnreadable) + (if compiles && refreshed.Failed? then 1 else 0)
              && corruptRowSkipped
                 == old(corruptRowSkipped) + (if compiles then |C.CompileOf(answer.run, answer.rows).skipped| else 0)
              && concentrationNormalised
                 == old(concentrationNormalised)
                    + (if compiles && refreshed.Value? then C.CompileOf(answer.run, answer.rows).normalised else 0)
    {
      if answer.StoreFailed? {
        storeReadFailed := storeReadFailed + 1;
        return Failed(Transient);
      }
      if answer.NoRun? {
        return Failed(Transient);
      }
      if !WithinMaxAge(answer.run.runUtc, now, maxAgeSeconds) {
        runAgeCeiling := runAgeCeiling + 1;
        return Failed(Transient);
      }
      var outcome := C.CompileRun(answer.run, answer.rows);
      corruptRowSkipped := corruptRowSkipped + |outcome.skipped|;
      if outcome.SchemaError? {
        runUnreadable := runUnreadable + 1;
        return Failed(SchemaError);
      }
      concentrationNormalised := concentrationNormalised + outcome.normalised;
      var step := Steps.SelectStepIndex(outcome.run.timesUtc, now);
      Steps.CompiledAxisIsHourly(answer.run, answer.rows);
      return Value(outcome.run, outcome.run.timesUtc[step.value]);
    }
  }
}
