/** The EAQI-2024 index of one step, from five present-or-missing concentrations. */
module AirQualityEaqi {
  import opened Options
  import opened AirQualityValues

  /** The five upper bounds; the sixth band is open. */
  function Bounds(p: Pollutant): (b: seq<real>)
    ensures |b| == 5 && 0.0 < b[0] < b[1] < b[2] < b[3] < b[4]
  {
    match p
    case Pm25 => [5.0, 15.0, 50.0, 90.0, 140.0]
    case Pm10 => [15.0, 45.0, 120.0, 195.0, 270.0]
    case No2 => [10.0, 25.0, 60.0, 100.0, 150.0]
    case O3 => [60.0, 100.0, 120.0, 160.0, 180.0]
    case So2 => [20.0, 40.0, 125.0, 190.0, 275.0]
  }

  /** A band, lower bound exclusive and upper inclusive. The source throws on a negative value. */
  method SubIndexBand(p: Pollutant, value: real) returns (band: int)
    requires value >= 0.0
    ensures band == BandOf(p, value)
  {
    var bounds := Bounds(p);
    for index := 0 to |bounds|
      invariant forall i :: 0 <= i < index ==> value > bounds[i]
    {
      if value <= bounds[index] {
        return index + 1;
      }
    }
    return 6;
  }

  function BandOf(p: Pollutant, value: real): (band: int)
    requires value >= 0.0
    ensures 1 <= band <= 6
    ensures band > 1 ==> Bounds(p)[band - 2] < value
    ensures band < 6 ==> value <= Bounds(p)[band - 1]
  {
    var b := Bounds(p);
    if value <= b[0] then 1 else if value <= b[1] then 2 else if value <= b[2] then 3
    else if value <= b[3] then 4 else if value <= b[4] then 5 else 6
  }

  /** A missing value is `None`; a present one is never negative. */
  type Values = v: Each<Option<real>> | IsPresentOrMissing(v) witness Each(None, None, None, None, None)

  predicate IsPresentOrMissing(v: Each<Option<real>>) {
    forall p: Pollutant :: v.At(p).Some? ==> v.At(p).value >= 0.0
  }

  function SubBand(v: Values, p: Pollutant): Option<int> {
    match v.At(p) case None => None case Some(value) => Some(BandOf(p, value))
  }

  datatype Category = Good | Fair | Moderate | Poor | VeryPoor | ExtremelyPoor

  const CATEGORIES: seq<Category> := [Good, Fair, Moderate, Poor, VeryPoor, ExtremelyPoor]

  function CategoryForBand(band: int): Category
    requires 1 <= band <= 6
  {
    CATEGORIES[band - 1]
  }

  datatype SubIndex = SubIndex(band: int, category: Category)

  function SubIndexes(v: Values): Pollutant -> Option<SubIndex> {
    p => match v.At(p)
         case None => None
         case Some(value) => Some(SubIndex(BandOf(p, value), CategoryForBand(BandOf(p, value))))
  }

  datatype Eaqi = Eaqi(band: Option<int>, category: Option<Category>, dominant: Option<Pollutant>,
                       missing: seq<Pollutant>, subIndexes: Each<Option<SubIndex>>)

  /** The missing ones among the first `n` pollutants, in the order of the list. */
  function MissingTo(v: Values, n: nat): seq<Pollutant>
    requires n <= |ALL|
  {
    if n == 0 then []
    else MissingTo(v, n - 1) + if v.At(ALL[n - 1]).None? then [ALL[n - 1]] else []
  }

  function WorstTo(v: Values, n: nat): Option<int>
    requires n <= |ALL|
  {
    if n == 0 then None
    else
      var rest, sub := WorstTo(v, n - 1), SubBand(v, ALL[n - 1]);
      if sub.Some? && (rest.None? || sub.value > rest.value) then sub else rest
  }

  function FirstWith(v: Values, band: int, k: nat): Option<Pollutant>
    requires k <= |ALL|
    decreases |ALL| - k
  {
    if k == |ALL| then None
    else if SubBand(v, ALL[k]) == Some(band) then Some(ALL[k])
    else FirstWith(v, band, k + 1)
  }

  function EaqiOf(v: Values): Eaqi {
    var missing, sub := MissingTo(v, |ALL|), ForEach(SubIndexes(v));
    match WorstTo(v, |ALL|)
    case None => Eaqi(None, None, None, missing, sub)
    case Some(worst) =>
      WorstIsABand(v, |ALL|);
      Eaqi(Some(worst), Some(CategoryForBand(worst)), FirstWith(v, worst, 0), missing, sub)
  }

  lemma {:induction false} WorstIsABand(v: Values, n: nat)
    requires n <= |ALL|
    ensures WorstTo(v, n).Some? ==> 1 <= WorstTo(v, n).value <= 6
  {
    if n == 0 {
    } else {
      WorstIsABand(v, n - 1);
    }
  }

  method SubIndexesOf(v: Values) returns (sub: Each<Option<SubIndex>>, missing: seq<Pollutant>)
    ensures sub == ForEach(SubIndexes(v)) && missing == MissingTo(v, |ALL|)
  {
    sub, missing := Each(None, None, None, None, None), [];
    for k := 0 to |ALL|
      invariant FilledTo(sub, SubIndexes(v), k) && missing == MissingTo(v, k)
    {
      var p := ALL[k];
      FillOneMore(sub, SubIndexes(v), k);
      match v.At(p) {
        case None =>
          sub := sub.With(p, None);
          missing := missing + [p];
        case Some(value) =>
          var band := SubIndexBand(p, value);
          sub := sub.With(p, Some(SubIndex(band, CategoryForBand(band))));
      }
    }
    AllFilled(sub, SubIndexes(v));
  }

  lemma SubIndexAt(v: Values, p: Pollutant)
    ensures ForEach(SubIndexes(v)).At(p).Some? <==> SubBand(v, p).Some?
    ensures SubBand(v, p).Some? ==>
              ForEach(SubIndexes(v)).At(p) == Some(SubIndex(SubBand(v, p).value, CategoryForBand(SubBand(v, p).value)))
  {
  }

  method ComputeEaqi(v: Values) returns (r: Eaqi)
    ensures r == EaqiOf(v)
  {
    var sub, missing := SubIndexesOf(v);
    var worst: Option<int> := None;
    for k := 0 to |ALL|
      invariant worst == WorstTo(v, k)
    {
      SubIndexAt(v, ALL[k]);
      if sub.At(ALL[k]).Some? && (worst.None? || sub.At(ALL[k]).value.band > worst.value) {
        worst := Some(sub.At(ALL[k]).value.band);
      }
    }
    if worst.None? {
      return Eaqi(None, None, None, missing, sub);
    }
    WorstIsABand(v, |ALL|);
    for k := 0 to |ALL|
      invariant FirstWith(v, worst.value, 0) == FirstWith(v, worst.value, k)
    {
      SubIndexAt(v, ALL[k]);
      if sub.At(ALL[k]).Some? && sub.At(ALL[k]).value.band == worst.value {
        return Eaqi(worst, Some(CategoryForBand(worst.value)), Some(ALL[k]), missing, sub);
      }
    }
    return Eaqi(worst, Some(CategoryForBand(worst.value)), None, missing, sub);
  }

  lemma {:induction false} WorstIsWorst(v: Values, n: nat)
    requires n <= |ALL|
    ensures WorstTo(v, n).None? <==> forall i :: 0 <= i < n ==> SubBand(v, ALL[i]).None?
    ensures WorstTo(v, n).Some? ==> exists i :: 0 <= i < n && SubBand(v, ALL[i]) == WorstTo(v, n)
    ensures forall i :: 0 <= i < n && SubBand(v, ALL[i]).Some? ==> SubBand(v, ALL[i]).value <= WorstTo(v, n).value
  {
    if n == 0 {
    } else {
      WorstIsWorst(v, n - 1);
    }
  }

  lemma {:induction false} FirstIsFirst(v: Values, band: int, k: nat)
    requires k <= |ALL|
    ensures match FirstWith(v, band, k)
            case None => forall i :: k <= i < |ALL| ==> SubBand(v, ALL[i]) != Some(band)
            case Some(p) => k <= Place(p) && SubBand(v, p) == Some(band)
                            && forall i :: k <= i < Place(p) ==> SubBand(v, ALL[i]) != Some(band)
    decreases |ALL| - k
  {
    if k == |ALL| {
    } else {
      FirstIsFirst(v, band, k + 1);
    }
  }

  lemma NoneListedNonePresent(v: Values)
    ensures WorstTo(v, |ALL|).None? <==> forall p: Pollutant :: v.At(p).None?
  {
    WorstIsWorst(v, |ALL|);
    if WorstTo(v, |ALL|).None? {
      forall p: Pollutant
        ensures v.At(p).None?
      {
        assert SubBand(v, ALL[Place(p)]).None?;
      }
    } else {
      var i :| 0 <= i < |ALL| && SubBand(v, ALL[i]) == WorstTo(v, |ALL|);
      assert v.At(ALL[i]).Some?;
    }
  }

  predicate IsDominant(v: Values, band: int, p: Pollutant) {
    SubBand(v, p) == Some(band) && forall q: Pollutant :: Place(q) < Place(p) ==> SubBand(v, q) != Some(band)
  }

  lemma DominantIsFirst(v: Values, band: int)
    requires exists i :: 0 <= i < |ALL| && SubBand(v, ALL[i]) == Some(band)
    ensures FirstWith(v, band, 0).Some? && IsDominant(v, band, FirstWith(v, band, 0).value)
  {
    FirstIsFirst(v, band, 0);
    var p := FirstWith(v, band, 0).value;
    forall q: Pollutant | Place(q) < Place(p)
      ensures SubBand(v, q) != Some(band)
    {
      assert SubBand(v, ALL[Place(q)]) != Some(band);
    }
  }

  /** The missing pollutants are listed, each once, in the order of the list. */
  lemma {:induction false} MissingMeans(v: Values, n: nat)
    requires n <= |ALL|
    ensures forall p: Pollutant :: p in MissingTo(v, n) <==> Place(p) < n && v.At(p).None?
    ensures forall i, j :: 0 <= i < j < |MissingTo(v, n)| ==> Place(MissingTo(v, n)[i]) < Place(MissingTo(v, n)[j])
  {
    if n == 0 {
    } else {
      MissingMeans(v, n - 1);
      assert Place(ALL[n - 1]) == n - 1;
      assert forall p: Pollutant :: Place(p) == n - 1 ==> p == ALL[n - 1];
      assert forall p: Pollutant :: p in MissingTo(v, n - 1) ==> Place(p) < n - 1;
    }
  }

  /** What one pollutant's sub-index says, and that it is listed as missing exactly when it has none. */
  lemma SubIndexMeans(v: Values, p: Pollutant)
    ensures var e := EaqiOf(v);
            && (p in e.missing <==> v.At(p).None?)
            && (e.subIndexes.At(p).None? <==> v.At(p).None?)
            && (v.At(p).Some? ==>
                  && e.subIndexes.At(p).value.band == BandOf(p, v.At(p).value)
                  && e.subIndexes.At(p).value.category == CATEGORIES[BandOf(p, v.At(p).value) - 1])
  {
    MissingMeans(v, |ALL|);
    SubIndexAt(v, p);
  }

  lemma NoneIsWorse(v: Values, p: Pollutant)
    requires v.At(p).Some?
    ensures WorstTo(v, |ALL|).Some? && BandOf(p, v.At(p).value) <= WorstTo(v, |ALL|).value
  {
    WorstIsWorst(v, |ALL|);
    assert SubBand(v, ALL[Place(p)]).Some?;
  }

  lemma WorstHasADominant(v: Values, worst: Option<int>)
    requires worst == WorstTo(v, |ALL|)
    ensures worst.Some? ==> 1 <= worst.value <= 6
    ensures worst.Some? ==> FirstWith(v, worst.value, 0).Some?
    ensures worst.Some? ==> IsDominant(v, worst.value, FirstWith(v, worst.value, 0).value)
  {
    WorstIsWorst(v, |ALL|);
    WorstIsABand(v, |ALL|);
    if worst.Some? {
      DominantIsFirst(v, worst.value);
    }
  }

  /**
   * The index is the worst band of the pollutants present, absent exactly when all five are missing;
   * the dominant pollutant has that band, and none before it in the tie-break order does.
   */
  lemma IndexMeans(v: Values)
    ensures var e := EaqiOf(v);
            && (e.band.None? <==> forall p: Pollutant :: v.At(p).None?)
            && (e.band.None? <==> e.dominant.None?) && (e.band.None? <==> e.category.None?)
            && (e.band.Some? ==> 1 <= e.band.value <= 6 && e.category == Some(CATEGORIES[e.band.value - 1]))
            && (e.band.Some? ==> IsDominant(v, e.band.value, e.dominant.value))
    ensures forall p: Pollutant :: v.At(p).Some? ==> BandOf(p, v.At(p).value) <= EaqiOf(v).band.value
  {
    NoneListedNonePresent(v);
    WorstHasADominant(v, WorstTo(v, |ALL|));
    forall p: Pollutant | v.At(p).Some?
      ensures BandOf(p, v.At(p).value) <= EaqiOf(v).band.value
    {
      NoneIsWorse(v, p);
    }
  }
}
