/** Untyped stored values, as the schemaless columns and the shared cache hand them back. */
module AirQualityValues {
  import opened Options

  datatype Number = Finite(value: real) | NotANumber | Infinite(positive: bool)

  /** `Stamp(ms)` is a string the date parser reads as that instant, `Text` one it does not read. */
  datatype Json =
    | Undefined | Null | Bool(flag: bool) | Num(number: Number) | Text(text: string) | Stamp(ms: int)
    | Arr(items: seq<Json>) | Obj(members: map<string, Json>)

  predicate IsObject(j: Json) {
    j.Obj? || j.Arr?
  }

  function Member(j: Json, name: string): Json {
    if j.Obj? && name in j.members then j.members[name] else Undefined
  }

  predicate IsFiniteNumber(j: Json) {
    j.Num? && j.number.Finite?
  }

  predicate IsString(j: Json) {
    j.Text? || j.Stamp?
  }

  predicate IsNonEmptyString(j: Json) {
    j.Stamp? || (j.Text? && j.text != "")
  }

  datatype Pollutant = Pm25 | Pm10 | No2 | O3 | So2

  const ALL: seq<Pollutant> := [Pm25, Pm10, No2, O3, So2]

  function Name(p: Pollutant): string {
    match p
    case Pm25 => "pm2_5"
    case Pm10 => "pm10"
    case No2 => "no2"
    case O3 => "o3"
    case So2 => "so2"
  }

  /** One value a pollutant. */
  datatype Each<T> = Each(pm25: T, pm10: T, no2: T, o3: T, so2: T)
  {
    function At(p: Pollutant): T {
      match p
      case Pm25 => pm25
      case Pm10 => pm10
      case No2 => no2
      case O3 => o3
      case So2 => so2
    }

    function With(p: Pollutant, value: T): Each<T> {
      match p
      case Pm25 => this.(pm25 := value)
      case Pm10 => this.(pm10 := value)
      case No2 => this.(no2 := value)
      case O3 => this.(o3 := value)
      case So2 => this.(so2 := value)
    }
  }

  function ForEach<T>(f: Pollutant -> T): Each<T> {
    Each(f(Pm25), f(Pm10), f(No2), f(O3), f(So2))
  }

  /** The first `n` pollutants take their value from `f`, the others keep theirs. */
  ghost predicate FilledTo<T>(e: Each<T>, f: Pollutant -> T, n: nat)
    requires n <= |ALL|
  {
    forall k :: 0 <= k < n ==> e.At(ALL[k]) == f(ALL[k])
  }

  lemma AllFilled<T>(e: Each<T>, f: Pollutant -> T)
    requires FilledTo(e, f, |ALL|)
    ensures e == ForEach(f)
  {
    assert e.At(ALL[0]) == f(Pm25) && e.At(ALL[1]) == f(Pm10) && e.At(ALL[2]) == f(No2);
    assert e.At(ALL[3]) == f(O3) && e.At(ALL[4]) == f(So2);
  }

  lemma FillOneMore<T>(e: Each<T>, f: Pollutant -> T, k: nat)
    requires k < |ALL| && FilledTo(e, f, k)
    ensures FilledTo(e.With(ALL[k], f(ALL[k])), f, k + 1)
  {
  }

  /** A fact about all five listed pollutants is a fact about every pollutant. */
  function Place(p: Pollutant): (k: nat)
    ensures k < |ALL| && ALL[k] == p
  {
    match p case Pm25 => 0 case Pm10 => 1 case No2 => 2 case O3 => 3 case So2 => 4
  }

  /** Absent, non-numeric, non-finite and negative all become the missing value. */
  function Normalise(j: Json): (r: Option<real>)
    ensures r.Some? ==> r.value >= 0.0
  {
    if IsFiniteNumber(j) && j.number.value >= 0.0 then Some(j.number.value) else None
  }

  /** A value was there, and normalising still lost it. */
  predicate WasSubstituted(j: Json) {
    Normalise(j).None? && j != Null && j != Undefined
  }

  function Substitutions(items: seq<Json>): nat {
    if items == [] then 0
    else Substitutions(items[..|items| - 1]) + if WasSubstituted(items[|items| - 1]) then 1 else 0
  }

  function NormaliseAll(items: seq<Json>): seq<Option<real>> {
    seq(|items|, i requires 0 <= i < |items| => Normalise(items[i]))
  }

  datatype Verdict = Supported | NotSupported

  function ReadVerdict(j: Json): Option<Verdict> {
    if j == Text("ok") then Some(Supported)
    else if j == Text("not_supported") then Some(NotSupported)
    else None
  }
}
