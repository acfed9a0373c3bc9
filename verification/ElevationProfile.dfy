/**
 * One elevation profile: the sampling loop over the tiles that were resolved, the cache that holds
 * complete profiles only, and when the worker pool makes a profile complete.
 */
module ElevationProfile {
  import opened Options
  import K = ProfileKeys
  import W = TileWorkers

  const SAMPLES := 200

  datatype Tile = Tile(x: int, y: int)

  /** One sample point: its distance along the line, its tile, and the pixel it falls on there. */
  datatype Sample<P> = Sample(distance: int, tile: Tile, pixel: P)

  datatype Payload = Payload(from: K.Point, to: K.Point, length: int, resolved: nat, distances: seq<int>,
                             elevations: seq<Option<int>>, min: Option<int>, max: Option<int>)

  function Needed<P>(samples: seq<Sample<P>>): set<Tile> {
    set i | 0 <= i < |samples| :: samples[i].tile
  }

  /** The published metres of one sample, absent when its tile was not resolved. */
  function Elevation<P, G>(s: Sample<P>, grids: map<Tile, G>, metres: (G, P) -> int): Option<int> {
    if s.tile in grids then Some(metres(grids[s.tile], s.pixel)) else None
  }

  function Resolved<P, G>(samples: seq<Sample<P>>, grids: map<Tile, G>): set<int> {
    set i | 0 <= i < |samples| && samples[i].tile in grids
  }

  predicate IsMin(values: seq<Option<int>>, m: Option<int>) {
    && (m.None? <==> forall i :: 0 <= i < |values| ==> values[i].None?)
    && (m.Some? ==> m in values && forall i :: 0 <= i < |values| && values[i].Some? ==> m.value <= values[i].value)
  }

  predicate IsMax(values: seq<Option<int>>, m: Option<int>) {
    && (m.None? <==> forall i :: 0 <= i < |values| ==> values[i].None?)
    && (m.Some? ==> m in values && forall i :: 0 <= i < |values| && values[i].Some? ==> values[i].value <= m.value)
  }

  /** What a computed profile says about its samples. */
  predicate IsProfileOf<P, G>(p: Payload, from: K.Point, to: K.Point, samples: seq<Sample<P>>, grids: map<Tile, G>,
                              metres: (G, P) -> int) {
    && p.from == from && p.to == to
    && p.length == (if samples == [] then 0 else samples[|samples| - 1].distance)
    && p.resolved == |Resolved(samples, grids)|
    && (if Resolved(samples, grids) == {} then p.distances == [] && p.elevations == [] && p.min.None? && p.max.None?
        else
          && |p.distances| == |p.elevations| == |samples|
          && (forall i :: 0 <= i < |samples| ==>
                p.distances[i] == samples[i].distance && p.elevations[i] == Elevation(samples[i], grids, metres))
          && p.min.Some? && p.max.Some? && IsMin(p.elevations, p.min) && IsMax(p.elevations, p.max))
  }

  lemma OneMoreSample<P, G>(samples: seq<Sample<P>>, i: nat, grids: map<Tile, G>)
    requires i < |samples|
    ensures Resolved(samples[..i + 1], grids)
            == Resolved(samples[..i], grids) + if samples[i].tile in grids then {i as int} else {}
    ensures |Resolved(samples[..i + 1], grids)|
            == |Resolved(samples[..i], grids)| + if samples[i].tile in grids then 1 else 0
  {
    assert Resolved(samples[..i + 1], grids)
           == Resolved(samples[..i], grids) + if samples[i].tile in grids then {i as int} else {};
  }

  function Least(min: Option<int>, value: int): Option<int> {
    if min.None? || value < min.value then Some(value) else min
  }

  function Greatest(max: Option<int>, value: int): Option<int> {
    if max.None? || value > max.value then Some(value) else max
  }

  lemma ExtremesGrow(values: seq<Option<int>>, min: Option<int>, max: Option<int>, value: int)
    requires IsMin(values, min) && IsMax(values, max)
    ensures IsMin(values + [Some(value)], Least(min, value)) && IsMax(values + [Some(value)], Greatest(max, value))
    ensures IsMin(values + [None], min) && IsMax(values + [None], max)
  {
    var present, missing := values + [Some(value)], values + [None];
    assert present[|values|] == Some(value);
    assert forall i :: 0 <= i < |values| ==> missing[i] == values[i] && present[i] == values[i];
  }

  /** What the loop has published of the first `i` samples. */
  predicate SeriesSoFar<P, G>(distances: seq<int>, elevations: seq<Option<int>>, resolved: nat, samples: seq<Sample<P>>,
                              i: nat, grids: map<Tile, G>, metres: (G, P) -> int)
    requires i <= |samples|
  {
    && |distances| == |elevations| == i
    && (forall j :: 0 <= j < i ==> distances[j] == samples[j].distance)
    && (forall j :: 0 <= j < i ==> elevations[j] == Elevation(samples[j], grids, metres))
    && resolved == |Resolved(samples[..i], grids)|
  }

  predicate ExtremesSoFar(elevations: seq<Option<int>>, resolved: nat, min: Option<int>, max: Option<int>) {
    && (resolved == 0 <==> min.None?) && (min.None? <==> max.None?)
    && IsMin(elevations, min) && IsMax(elevations, max)
  }

  lemma SampleKeepsSeries<P, G>(distances: seq<int>, elevations: seq<Option<int>>, resolved: nat, samples: seq<Sample<P>>,
                                i: nat, grids: map<Tile, G>, metres: (G, P) -> int)
    requires i < |samples| && SeriesSoFar(distances, elevations, resolved, samples, i, grids, metres)
    ensures var e := Elevation(samples[i], grids, metres);
            SeriesSoFar(distances + [samples[i].distance], elevations + [e], if e.Some? then resolved + 1 else resolved,
                        samples, i + 1, grids, metres)
  {
    OneMoreSample(samples, i, grids);
  }

  lemma SampleKeepsExtremes(elevations: seq<Option<int>>, resolved: nat, min: Option<int>, max: Option<int>, value: int)
    requires ExtremesSoFar(elevations, resolved, min, max)
    ensures ExtremesSoFar(elevations + [Some(value)], resolved + 1, Least(min, value), Greatest(max, value))
    ensures ExtremesSoFar(elevations + [None], resolved, min, max)
  {
    ExtremesGrow(elevations, min, max, value);
  }

  lemma SampledIsProfile<P, G>(distances: seq<int>, elevations: seq<Option<int>>, resolved: nat, min: Option<int>,
                               max: Option<int>, from: K.Point, to: K.Point, samples: seq<Sample<P>>,
                               grids: map<Tile, G>, metres: (G, P) -> int)
    requires SeriesSoFar(distances, elevations, resolved, samples, |samples|, grids, metres)
    requires ExtremesSoFar(elevations, resolved, min, max)
    ensures var length := if samples == [] then 0 else samples[|samples| - 1].distance;
            IsProfileOf(Payload(from, to, length, resolved, if resolved == 0 then [] else distances,
                                if resolved == 0 then [] else elevations, min, max),
                        from, to, samples, grids, metres)
  {
    assert samples[..|samples|] == samples;
  }

  method SampleLine<P, G>(from: K.Point, to: K.Point, samples: seq<Sample<P>>, grids: map<Tile, G>,
                          metres: (G, P) -> int)
    returns (payload: Payload)
    ensures IsProfileOf(payload, from, to, samples, grids, metres)
  {
    var distances: seq<int>, elevations: seq<Option<int>> := [], [];
    var min: Option<int>, max: Option<int> := None, None;
    var resolved := 0;
    for i := 0 to |samples|
      invariant SeriesSoFar(distances, elevations, resolved, samples, i, grids, metres)
      invariant ExtremesSoFar(elevations, resolved, min, max)
    {
      var s := samples[i];
      SampleKeepsSeries(distances, elevations, resolved, samples, i, grids, metres);
      SampleKeepsExtremes(elevations, resolved, min, max, if s.tile in grids then metres(grids[s.tile], s.pixel) else 0);
      distances := distances + [s.distance];
      if s.tile !in grids {
        elevations := elevations + [None];
      } else {
        var value := metres(grids[s.tile], s.pixel);
        elevations := elevations + [Some(value)];
        resolved := resolved + 1;
        min := if min.None? || value < min.value then Some(value) else min;
        max := if max.None? || value > max.value then Some(value) else max;
      }
    }
    SampledIsProfile(distances, elevations, resolved, min, max, from, to, samples, grids, metres);
    var length := if samples == [] then 0 else samples[|samples| - 1].distance;
    payload := Payload(from, to, length, resolved, if resolved == 0 then [] else distances,
                       if resolved == 0 then [] else elevations, min, max);
  }

  // ---------------------------------------------------------------- completeness and the tile ceiling

  lemma {:induction false} CountTo(s: set<int>, n: nat)
    requires forall i :: i in s ==> 0 <= i < n
    ensures |s| <= n && (|s| == n <==> forall i :: 0 <= i < n ==> i in s)
  {
    if n == 0 {
      assert forall i :: i !in s;
      assert s == {};
    } else {
      CountTo(s - {n - 1}, n - 1);
      if n - 1 in s {
        assert s == s - {n - 1} + {n - 1};
      } else {
        assert s == s - {n - 1};
      }
    }
  }

  /** A profile is complete exactly when every tile its line needs was resolved. */
  lemma CompleteIffEveryTileResolved<P, G>(samples: seq<Sample<P>>, grids: map<Tile, G>)
    ensures |Resolved(samples, grids)| == |samples| <==> Needed(samples) <= grids.Keys
  {
    CountTo(Resolved(samples, grids), |samples|);
    forall i | 0 <= i < |samples|
      ensures samples[i].tile in Needed(samples)
      ensures i in Resolved(samples, grids) <==> samples[i].tile in grids
    {
    }
  }

  lemma {:induction false} TilesAreAtMostSamples<P>(samples: seq<Sample<P>>)
    ensures |Needed(samples)| <= |samples|
  {
    if samples == [] {
    } else {
      var init, last := samples[..|samples| - 1], samples[|samples| - 1];
      TilesAreAtMostSamples(init);
      assert Needed(samples) == Needed(init) + {last.tile};
    }
  }

  predicate AnsweredOk<G>(p: W.Plan<Tile, G>, s: W.Pool<Tile, G>, j: nat)
    requires j < |p.keys| == |p.answers|
  {
    j < |s.started| && p.answers[j].Ok?
  }

  /**
   * Whatever the interleaving of the workers, the profile is complete exactly when every tile that
   * was missing from the tile cache was fetched and answered with a grid.
   */
  lemma CompleteIffEveryFetchAnswered<P, G>(samples: seq<Sample<P>>, p: W.Plan<Tile, G>, run: seq<W.Action>)
    requires p.Valid() && W.Legal(p, W.Begin(p), run) && W.Finished(W.After(p, W.Begin(p), run))
    requires forall t :: t in Needed(samples) <==> t in p.cached || t in p.keys
    ensures |Resolved(samples, W.After(p, W.Begin(p), run).resolved)| == |samples|
            <==> forall j: nat :: j < |p.keys| ==> AnsweredOk(p, W.After(p, W.Begin(p), run), j)
  {
    var s := W.After(p, W.Begin(p), run);
    CompleteIffEveryTileResolved(samples, s.resolved);
    forall j: nat | j < |p.keys|
      ensures p.keys[j] in s.resolved.Keys <==> AnsweredOk(p, s, j)
    {
      if j < |s.started| {
        W.AllLanded(s, j);
      }
      KeyIsResolved(p, s, j);
    }
    forall t | t in p.cached
      ensures t in s.resolved
    {
    }
    ResolvedWhenKeysAre(Needed(samples), p.cached.Keys, p.keys, s.resolved.Keys);
  }

  lemma ResolvedWhenKeysAre<T>(needed: set<T>, cached: set<T>, keys: seq<T>, resolved: set<T>)
    requires cached <= resolved && forall t :: t in needed <==> t in cached || t in keys
    ensures needed <= resolved <==> forall j: nat :: j < |keys| ==> keys[j] in resolved
  {
    if needed <= resolved {
      forall j: nat | j < |keys|
        ensures keys[j] in resolved
      {
        assert keys[j] in needed;
      }
    }
  }

  lemma KeyIsResolved<G>(p: W.Plan<Tile, G>, s: W.Pool<Tile, G>, j: nat)
    requires p.Valid() && W.InvResults(p, s) && j < |p.keys|
    ensures p.keys[j] in s.resolved <==> j in s.landed && p.answers[j].Ok?
  {
    assert p.keys[j] in W.OkKeys(p, s.landed) <==> j in s.landed && p.answers[j].Ok?;
  }

  // ---------------------------------------------------------------- the service and its cache

  datatype Response = EndpointsCoincide | TooManyTiles | Profile(payload: Payload, cacheable: bool)

  /** Every sample is there, the length is the last distance and the extremes are those of the elevations. */
  predicate IsComplete(p: Payload) {
    && p.resolved == |p.distances| == |p.elevations| == SAMPLES
    && p.length == p.distances[SAMPLES - 1]
    && (forall i :: 0 <= i < SAMPLES ==> p.elevations[i].Some?)
    && p.min.Some? && p.max.Some? && IsMin(p.elevations, p.min) && IsMax(p.elevations, p.max)
  }

  predicate BelongsUnder(p: Payload, key: string) {
    IsComplete(p) && key == K.CacheKey(p.from, p.to)
  }

  /** A profile whose count is full is complete in every field. */
  lemma FullCountIsComplete<P, G>(p: Payload, samples: seq<Sample<P>>, grids: map<Tile, G>, metres: (G, P) -> int)
    requires IsProfileOf(p, p.from, p.to, samples, grids, metres) && |samples| == SAMPLES
    ensures IsComplete(p) <==> p.resolved == SAMPLES
  {
    var found := Resolved(samples, grids);
    CountTo(found, SAMPLES);
    if p.resolved == SAMPLES {
      assert found != {};
      forall i | 0 <= i < SAMPLES
        ensures p.elevations[i].Some?
      {
        assert i in found;
      }
    }
  }

  class ProfileService {
    const maxTiles: nat
    var cache: map<string, Payload>

    /** The cache only ever holds complete profiles, each under the key of its own endpoints. */
    predicate Valid()
      reads this
    {
      forall key :: key in cache ==> BelongsUnder(cache[key], key)
    }

    constructor (maxTiles: nat)
      ensures Valid() && this.maxTiles == maxTiles && cache == map[]
    {
      this.maxTiles := maxTiles;
      cache := map[];
    }

    /**
     * One request. `usable` says the peeked entry is still within its lifetime; `samples` is the
     * planned line and `grids` what the tile pool resolved for it; `landed` is what another instance
     * of this service wrote under the key meanwhile, and `stores` says the write went through.
     */
    method GetProfile<P, G>(fromLat: real, fromLon: real, toLat: real, toLon: real, usable: bool, samples: seq<Sample<P>>,
                            grids: map<Tile, G>, metres: (G, P) -> int, landed: Option<Payload>, stores: bool)
      returns (r: Response)
      requires Valid() && |samples| == SAMPLES
      requires landed.Some? ==> BelongsUnder(landed.value, K.CacheKey(K.Point(K.Quantise(fromLat), K.Quantise(fromLon)),
                                                                      K.Point(K.Quantise(toLat), K.Quantise(toLon))))
      modifies this
      ensures Valid()
      ensures var from := K.Point(K.Quantise(fromLat), K.Quantise(fromLon));
              var to := K.Point(K.Quantise(toLat), K.Quantise(toLon));
              var key := K.CacheKey(from, to);
              && (r == EndpointsCoincide <==> from == to)
              && (r.Profile? ==> r.payload.from == from && r.payload.to == to)
              && (r.Profile? ==> (r.cacheable <==> IsComplete(r.payload)))
              && (r.Profile? && usable && key in old(cache) ==> r.payload == old(cache)[key] && cache == old(cache))
              && (r.Profile? && !(usable && key in old(cache)) ==>
                    || IsProfileOf(r.payload, from, to, samples, grids, metres)
                    || (stores && Some(r.payload) == landed && Needed(samples) <= grids.Keys))
              && (r.Profile? && Needed(samples) <= grids.Keys ==> r.cacheable)
              && var hit := usable && key in old(cache);
              && (r == TooManyTiles <==> from != to && !hit && |Needed(samples)| > maxTiles)
              && (r.Profile? && !hit && r.cacheable && stores && landed.Some? ==> r.payload == landed.value)
              && cache == if r.Profile? && !hit && r.cacheable && stores then old(cache)[key := r.payload] else old(cache)
      ensures SAMPLES <= maxTiles ==> r != TooManyTiles
    {
      var from := K.Point(K.Quantise(fromLat), K.Quantise(fromLon));
      var to := K.Point(K.Quantise(toLat), K.Quantise(toLon));
      if from == to {
        return EndpointsCoincide;
      }
      var key := K.CacheKey(from, to);
      if usable && key in cache {
        K.KeysAreTheEndpoints(from, to, cache[key].from, cache[key].to);
        return Profile(cache[key], true);
      }
      TilesAreAtMostSamples(samples);
      if |Needed(samples)| > maxTiles {
        return TooManyTiles;
      }
      var computed := SampleLine(from, to, samples, grids, metres);
      CompleteIffEveryTileResolved(samples, grids);
      FullCountIsComplete(computed, samples, grids, metres);
      if computed.resolved != SAMPLES {
        return Profile(computed, false);
      }
      var payload := Store(from, to, computed, landed, stores);
      return Profile(payload, true);
    }

    /** The write path: whoever landed first is the one kept, and either is of the same line. */
    method Store(from: K.Point, to: K.Point, computed: Payload, landed: Option<Payload>, stores: bool)
      returns (payload: Payload)
      requires Valid() && IsComplete(computed) && computed.from == from && computed.to == to
      requires landed.Some? ==> BelongsUnder(landed.value, K.CacheKey(from, to))
      modifies this
      ensures Valid() && IsComplete(payload) && payload.from == from && payload.to == to
      ensures payload == if stores && landed.Some? then landed.value else computed
      ensures cache == if stores then old(cache)[K.CacheKey(from, to) := payload] else old(cache)
    {
      payload := computed;
      if stores {
        if landed.Some? {
          payload := landed.value;
          K.KeysAreTheEndpoints(from, to, payload.from, payload.to);
        }
        cache := cache[K.CacheKey(from, to) := payload];
      }
    }
  }
}
