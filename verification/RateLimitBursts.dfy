/**
 * How much of a fixed-window limit an interval as long as a window can hold: the double burst is
 * reached, and only an interval that is itself a window is held to the limit.
 */
module RateLimitBursts {
  import opened Division
  import opened RateLimits

  /** `n` consumes of one subject at one instant. */
  function Burst(scope: Scope, subject: string, at: int, n: nat): seq<Call> {
    if n == 0 then [] else [Consume(scope, subject, at)] + Burst(scope, subject, at, n - 1)
  }

  lemma {:induction false} RunsOneAfterTheOther(h: History, first: seq<Call>, second: seq<Call>)
    requires Legal(h, first) && Legal(After(h, first), second)
    ensures Legal(h, first + second) && After(h, first + second) == After(After(h, first), second)
    decreases |first|
  {
    if first == [] {
      assert [] + second == second;
    } else {
      RunsOneAfterTheOther(Next(h, first[0]), first[1..], second);
      assert (first + second)[1..] == first[1..] + second;
    }
  }

  lemma NetBetweenAppend(grants: seq<Grant>, g: Grant, scope: Scope, subject: string, from: int, to: int)
    ensures NetBetween(grants + [g], scope, subject, from, to)
            == NetBetween(grants, scope, subject, from, to)
               + if g.granted && !g.refunded && g.scope == scope && g.subject == subject && from <= g.at < to then 1 else 0
  {
    assert (grants + [g])[..|grants|] == grants;
  }

  lemma OneIsGranted(h: History, scope: Scope, subject: string, at: int)
    requires h.now <= at && CountOf(h.rows, Bucket(scope, subject, WindowStart(scope, at))) < RuleOf(scope).limit
    ensures var h1, b := Next(h, Consume(scope, subject, at)), Bucket(scope, subject, WindowStart(scope, at));
            && h1.now == at && h1.grants == h.grants + [Grant(scope, subject, at, true, false)]
            && CountOf(h1.rows, b) == CountOf(h.rows, b) + 1
            && forall x :: x in h1.rows ==> x in h.rows || x == b
  {
  }

  /** A burst within what the window has left is granted in full, and leaves later windows unopened. */
  lemma {:induction false} BurstIsGranted(h: History, scope: Scope, subject: string, at: int, n: nat, from: int, to: int)
    requires h.now <= at && from <= at < to
    requires CountOf(h.rows, Bucket(scope, subject, WindowStart(scope, at))) + n <= RuleOf(scope).limit
    ensures Legal(h, Burst(scope, subject, at, n))
    ensures var h' := After(h, Burst(scope, subject, at, n));
            && h'.now <= at
            && NetBetween(h'.grants, scope, subject, from, to) == NetBetween(h.grants, scope, subject, from, to) + n
            && forall b :: b in h'.rows ==> b in h.rows || b == Bucket(scope, subject, WindowStart(scope, at))
    decreases n
  {
    if n == 0 {
    } else {
      var h1 := Next(h, Consume(scope, subject, at));
      OneIsGranted(h, scope, subject, at);
      NetBetweenAppend(h.grants, Grant(scope, subject, at, true, false), scope, subject, from, to);
      BurstIsGranted(h1, scope, subject, at, n - 1, from, to);
      assert Burst(scope, subject, at, n)[1..] == Burst(scope, subject, at, n - 1);
    }
  }

  /** The whole limit at `from`, and the whole limit again as soon as the next window opens. */
  function DoubleBurst(scope: Scope, subject: string, from: int): seq<Call> {
    var n := RuleOf(scope).limit;
    Burst(scope, subject, from, n) + Burst(scope, subject, WindowStart(scope, from) + RuleOf(scope).windowMs, n)
  }

  lemma NextFloor(from: int, w: int)
    requires w > 0
    ensures var next := Floor(from, w) + w;
            from < next <= from + w && Floor(next, w) == next && (next == from + w <==> from % w == 0)
  {
    var q := from / w;
    FloorFacts(from, w);
    assert q * w + w == (q + 1) * w;
    Quotient((q + 1) * w, q + 1, w);
  }

  lemma NextWindowStarts(scope: Scope, from: int)
    ensures var next := WindowStart(scope, from) + RuleOf(scope).windowMs;
            && from < next <= from + RuleOf(scope).windowMs && WindowStart(scope, next) == next
            && (next == from + RuleOf(scope).windowMs <==> from % RuleOf(scope).windowMs == 0)
  {
    NextFloor(from, RuleOf(scope).windowMs);
  }

  lemma DoubleBurstIsGranted(scope: Scope, subject: string, from: int, to: int)
    requires 0 <= from && WindowStart(scope, from) + RuleOf(scope).windowMs < to
    ensures Legal(START, DoubleBurst(scope, subject, from))
    ensures NetBetween(After(START, DoubleBurst(scope, subject, from)).grants, scope, subject, from, to)
            == 2 * RuleOf(scope).limit
  {
    var n, next := RuleOf(scope).limit, WindowStart(scope, from) + RuleOf(scope).windowMs;
    NextWindowStarts(scope, from);
    var first, second := Burst(scope, subject, from, n), Burst(scope, subject, next, n);
    BurstIsGranted(START, scope, subject, from, n, from, to);
    var h := After(START, first);
    assert Bucket(scope, subject, next) !in h.rows;
    BurstIsGranted(h, scope, subject, next, n, from, to);
    RunsOneAfterTheOther(START, first, second);
  }

  /** The bound of twice the limit is reached: for every scope, every subject and every beginning. */
  lemma TwiceTheLimitIsReached(scope: Scope, subject: string, from: int)
    requires 0 <= from
    ensures exists calls :: Legal(START, calls)
                            && NetWithin(After(START, calls).grants, scope, subject, from) == 2 * RuleOf(scope).limit
  {
    NextWindowStarts(scope, from);
    DoubleBurstIsGranted(scope, subject, from, from + RuleOf(scope).windowMs + 1);
  }

  /** The interval that begins at `from` and is one window long never holds more than the limit. */
  ghost predicate HoldsTheLimit(scope: Scope, subject: string, from: int) {
    forall calls :: Legal(START, calls) ==>
      NetBetween(After(START, calls).grants, scope, subject, from, from + RuleOf(scope).windowMs) <= RuleOf(scope).limit
  }

  lemma {:induction false} AlignedIsOneWindow(grants: seq<Grant>, scope: Scope, subject: string, from: int)
    requires from % RuleOf(scope).windowMs == 0
    ensures NetBetween(grants, scope, subject, from, from + RuleOf(scope).windowMs)
            <= NetCount(grants, Bucket(scope, subject, from))
  {
    if grants == [] {
    } else {
      var g, w := grants[|grants| - 1], RuleOf(scope).windowMs;
      AlignedIsOneWindow(grants[..|grants| - 1], scope, subject, from);
      if from <= g.at < from + w {
        Quotient(g.at, from / w, w);
      }
    }
  }

  /**
   * The limit holds over a rolling interval exactly when the interval is a window of the clock. Any
   * other interval of that length can hold more, so the limit is a fixed-window one.
   */
  lemma RollingOnlyWhenAligned(scope: Scope, subject: string, from: int)
    requires 0 <= from
    ensures HoldsTheLimit(scope, subject, from) <==> from % RuleOf(scope).windowMs == 0
  {
    var to := from + RuleOf(scope).windowMs;
    if from % RuleOf(scope).windowMs == 0 {
      forall calls | Legal(START, calls)
        ensures NetBetween(After(START, calls).grants, scope, subject, from, to) <= RuleOf(scope).limit
      {
        AlignedIsOneWindow(After(START, calls).grants, scope, subject, from);
        OutstandingWithinLimit(calls, Bucket(scope, subject, from));
      }
    } else {
      NextWindowStarts(scope, from);
      DoubleBurstIsGranted(scope, subject, from, to);
      assert Legal(START, DoubleBurst(scope, subject, from));
    }
  }
}
