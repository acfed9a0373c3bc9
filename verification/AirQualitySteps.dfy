/** Which step of the axis is published: the scan, and its closed form on an hourly axis. */
module AirQualitySteps {
  import opened Options
  import C = AirQualityCompile

  const HOUR := C.MS_PER_HOUR

  function Distance(a: int, b: int): nat {
    if a >= b then a - b else b - a
  }

  function SelectStep(times: seq<int>, now: int): (step: Option<nat>)
    ensures step.None? <==> times == []
    ensures step.Some? ==> step.value < |times|
  {
    if times == [] then None
    else
      var last := |times| - 1;
      match SelectStep(times[..last], now)
      case None => Some(last)
      case Some(best) => if Distance(times[last], now) < Distance(times[best], now) then Some(last) else Some(best)
  }

  method SelectStepIndex(times: seq<int>, now: int) returns (step: Option<nat>)
    ensures step == SelectStep(times, now)
  {
    if |times| == 0 {
      return None;
    }
    var best, bestDistance := 0, None;
    for index := 0 to |times|
      invariant index == 0 ==> best == 0 && bestDistance == None
      invariant index > 0 ==> SelectStep(times[..index], now) == Some(best) && best < index
                              && bestDistance == Some(Distance(times[best], now))
    {
      assert times[..index + 1][..index] == times[..index];
      var distance := Distance(times[index], now);
      if bestDistance.None? || distance < bestDistance.value {
        best, bestDistance := index, Some(distance);
      }
    }
    assert times[..|times|] == times;
    return Some(best);
  }

  /** The earliest of the steps at least distance. */
  predicate IsNearest(times: seq<int>, now: int, k: nat) {
    && k < |times|
    && (forall i :: 0 <= i < |times| ==> Distance(times[k], now) <= Distance(times[i], now))
    && (forall i :: 0 <= i < k ==> Distance(times[k], now) < Distance(times[i], now))
  }

  lemma {:induction false} ScanFindsTheNearest(times: seq<int>, now: int)
    ensures match SelectStep(times, now)
            case None => times == []
            case Some(k) => IsNearest(times, now, k)
  {
    if times == [] {
    } else {
      var init := times[..|times| - 1];
      ScanFindsTheNearest(init, now);
      assert forall i :: 0 <= i < |init| ==> init[i] == times[i];
    }
  }

  lemma NearestIsOne(times: seq<int>, now: int, j: nat, k: nat)
    requires IsNearest(times, now, j) && IsNearest(times, now, k)
    ensures j == k
  {
    assert Distance(times[j], now) <= Distance(times[k], now) <= Distance(times[j], now);
  }

  predicate IsHourly(times: seq<int>) {
    forall i :: 0 <= i < |times| ==> times[i] == times[0] + i * HOUR
  }

  function Clamp(k: int, n: int): (r: int)
    requires n > 0
    ensures 0 <= r < n
  {
    if k < 0 then 0 else if k >= n then n - 1 else k
  }

  /** Half an hour rounds down: between two steps the earlier one wins a tie. */
  function ClosedForm(start: int, n: int, now: int): (k: int)
    requires n > 0
    ensures 0 <= k < n
  {
    Clamp((2 * (now - start) + HOUR - 1) / (2 * HOUR), n)
  }

  lemma ClosedFormIsNearest(times: seq<int>, now: int)
    requires IsHourly(times) && times != []
    ensures IsNearest(times, now, ClosedForm(times[0], |times|, now))
  {
    var q := (2 * (now - times[0]) + HOUR - 1) / (2 * HOUR);
    assert 2 * HOUR * q <= 2 * (now - times[0]) + HOUR - 1 < 2 * HOUR * (q + 1);
    var k := Clamp(q, |times|);
    forall i | 0 <= i < |times|
      ensures Distance(times[k], now) <= Distance(times[i], now)
      ensures i < k ==> Distance(times[k], now) < Distance(times[i], now)
    {
      CloserOnTheRightSide(times[0], now, q, k, i);
    }
  }

  lemma CloserOnTheRightSide(start: int, now: int, q: int, k: int, i: int)
    requires 2 * HOUR * q <= 2 * (now - start) + HOUR - 1 < 2 * HOUR * (q + 1)
    requires (i <= k <= q) || (q <= k <= i)
    ensures Distance(start + k * HOUR, now) <= Distance(start + i * HOUR, now)
    ensures i < k ==> Distance(start + k * HOUR, now) < Distance(start + i * HOUR, now)
  {
  }

  /** On an hourly axis the scan is a division, clamped to the axis. */
  lemma {:induction false} ScanIsTheClosedForm(times: seq<int>, now: int)
    requires IsHourly(times) && times != []
    ensures SelectStep(times, now) == Some(ClosedForm(times[0], |times|, now))
  {
    ScanFindsTheNearest(times, now);
    ClosedFormIsNearest(times, now);
    NearestIsOne(times, now, SelectStep(times, now).value, ClosedForm(times[0], |times|, now));
  }

  /** The selected step never goes back as time passes. */
  lemma {:induction false} SelectionNeverGoesBack(times: seq<int>, now: int, later: int)
    requires IsHourly(times) && times != [] && now <= later
    ensures SelectStep(times, now).value <= SelectStep(times, later).value
  {
    ScanIsTheClosedForm(times, now);
    ScanIsTheClosedForm(times, later);
    var a, b := 2 * (now - times[0]) + HOUR - 1, 2 * (later - times[0]) + HOUR - 1;
    assert a / (2 * HOUR) <= b / (2 * HOUR);
  }

  /**
   * The published instant is within half an hour of `now` exactly when `now` is within half an hour
   * of the axis.
   */
  lemma {:induction false} WithinHalfAnHour(times: seq<int>, now: int)
    requires IsHourly(times) && times != []
    ensures 2 * Distance(times[SelectStep(times, now).value], now) <= HOUR
            <==> times[0] - HOUR / 2 <= now <= times[|times| - 1] + HOUR / 2
  {
    ScanIsTheClosedForm(times, now);
  }

  /** And every compiled run has such an axis. */
  lemma CompiledAxisIsHourly(run: C.Run, rows: seq<C.Row>)
    requires C.CompileOf(run, rows).Compiled?
    ensures IsHourly(C.CompileOf(run, rows).run.timesUtc) && C.CompileOf(run, rows).run.timesUtc != []
  {
    C.CompileIsHourly(run, rows);
  }
}
