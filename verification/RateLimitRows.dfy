/**
 * Which rows the counters hold: one a subject at most, and none that the clean-ups should have taken.
 */
module RateLimitRows {
  import Division
  import opened RateLimits

  /** What one consume answers and leaves: the count of its window is one more, and no other current row changes. */
  lemma ConsumeMeans(rows: Counters, scope: Scope, subject: string, now: int, b: Bucket)
    ensures var (rows', o) := Consumed(rows, scope, subject, now);
            var own := Bucket(scope, subject, WindowStart(scope, now));
            && (o.allowed <==> CountOf(rows, own) < RuleOf(scope).limit)
            && (o.allowed <==> o.retryAfterSeconds == 0)
            && CountOf(rows', own) == CountOf(rows, own) + 1
            && (b != own && (b.scope != scope || b.subject != subject || b.windowStart > own.windowStart) ==>
                  CountOf(rows', b) == CountOf(rows, b))
  {
    if !Consumed(rows, scope, subject, now).1.allowed {
      RetryAfterIsLeast(rows, scope, subject, now);
    }
  }

  /** A row is of a window that had begun. */
  predicate RowOk(h: History, b: Bucket) {
    b.windowStart == WindowStart(b.scope, b.windowStart) && b.windowStart <= WindowStart(b.scope, h.now)
  }

  predicate RowsOk(h: History) {
    && (forall b :: b in h.rows ==> RowOk(h, b))
    && (forall a, b :: a in h.rows && b in h.rows && a.scope == b.scope && a.subject == b.subject ==> a == b)
  }

  lemma WindowOfItsStart(scope: Scope, now: int)
    ensures WindowStart(scope, WindowStart(scope, now)) == WindowStart(scope, now)
  {
    var w := RuleOf(scope).windowMs;
    Division.Quotient(WindowStart(scope, now), now / w, w);
  }

  lemma RowStaysOk(h: History, h': History, b: Bucket)
    requires RowOk(h, b) && h.now <= h'.now
    ensures RowOk(h', b)
  {
    WindowsAdvance(b.scope, h.now, h'.now);
  }

  lemma ConsumeKeepsRows(h: History, scope: Scope, subject: string, now: int)
    requires RowsOk(h) && h.now <= now
    ensures RowsOk(Next(h, Consume(scope, subject, now)))
  {
    var h' := Next(h, Consume(scope, subject, now));
    var own := Bucket(scope, subject, WindowStart(scope, now));
    WindowOfItsStart(scope, now);
    forall b | b in h'.rows
      ensures RowOk(h', b)
      ensures b.scope == scope && b.subject == subject ==> b == own
    {
      if b != own {
        RowStaysOk(h, h', b);
      }
    }
  }

  lemma NextKeepsRows(h: History, c: Call)
    requires RowsOk(h) && Allowed(h, c)
    ensures RowsOk(Next(h, c))
  {
    match c
    case Consume(scope, subject, now) => ConsumeKeepsRows(h, scope, subject, now);
    case Refund(_) =>
      forall b | b in Next(h, c).rows
        ensures RowOk(Next(h, c), b)
      {
        assert b in h.rows;
      }
    case Sweep(now) =>
      forall b | b in Next(h, c).rows
        ensures RowOk(Next(h, c), b)
      {
        RowStaysOk(h, Next(h, c), b);
      }
  }

  lemma {:induction false} LegalKeepsRows(h: History, calls: seq<Call>)
    requires RowsOk(h) && Legal(h, calls)
    ensures RowsOk(After(h, calls))
    decreases |calls|
  {
    if calls == [] {
    } else {
      NextKeepsRows(h, calls[0]);
      LegalKeepsRows(Next(h, calls[0]), calls[1..]);
    }
  }

  /** Over any calls a subject has at most one row for each of its limits: the clean-up is as bounded as it says. */
  lemma OneRowASubject(calls: seq<Call>, a: Bucket, b: Bucket)
    requires Legal(START, calls) && a in After(START, calls).rows && b in After(START, calls).rows
    requires a.scope == b.scope && a.subject == b.subject
    ensures a == b
  {
    LegalKeepsRows(START, calls);
  }

  /** And a sweep takes exactly the rows whose window is over, so it never gives anybody a unit back. */
  lemma SweepTakesEndedWindows(calls: seq<Call>, now: int, b: Bucket)
    requires Legal(START, calls) && Allowed(After(START, calls), Sweep(now))
    ensures var h := After(START, calls);
            b in Next(h, Sweep(now)).rows <==> b in h.rows && b.windowStart == WindowStart(b.scope, now)
    ensures var h := After(START, calls); b in Next(h, Sweep(now)).rows ==> Next(h, Sweep(now)).rows[b] == h.rows[b]
  {
    var h := After(START, calls);
    LegalKeepsRows(START, calls);
    if b in h.rows {
      WindowsAdvance(b.scope, h.now, now);
      EndedWindow(b.scope, b.windowStart, now);
      FloorFacts(now, RuleOf(b.scope).windowMs);
      StartedAndNotOver(b.scope, b.windowStart, now);
    }
  }

  lemma StartedAndNotOver(scope: Scope, start: int, now: int)
    requires start == WindowStart(scope, start) && start <= now
    ensures start > now - RuleOf(scope).windowMs ==> WindowStart(scope, now) == start
  {
    SameOrLater(start, now, RuleOf(scope).windowMs);
  }

  /** Two instants are counted together exactly when they lie in the same stretch of this length. */
  predicate SharesWindow(scope: Scope, a: int, b: int, length: int)
    requires length > 0
  {
    WindowStart(scope, a) == WindowStart(scope, b) <==> a / length == b / length
  }

  /** The windows: a minute between resends, a quarter of an hour, an hour, or a day of the clock. */
  lemma WindowsAre(a: int, b: int)
    ensures SharesWindow(VerifyResendCooldown, a, b, 60_000)
    ensures SharesWindow(LoginEmail, a, b, 900_000) && SharesWindow(PasswordChange, a, b, 900_000)
    ensures SharesWindow(PasswordResetEmail, a, b, 3_600_000) && SharesWindow(GameRoundSubmit, a, b, 3_600_000)
    ensures SharesWindow(RegisterEmail, a, b, 86_400_000) && SharesWindow(VerifyResendDaily, a, b, 86_400_000)
  {
    OneFloor(a, b, 60_000);
    OneFloor(a, b, 900_000);
    OneFloor(a, b, 3_600_000);
    OneFloor(a, b, 86_400_000);
  }

  lemma OneFloor(a: int, b: int, length: int)
    requires length > 0
    ensures Floor(a, length) == Floor(b, length) <==> a / length == b / length
  {
    var p, q := a / length, b / length;
    if p * length == q * length {
      SameProduct(p, q, length);
    }
  }

  lemma SameProduct(p: int, q: int, length: int)
    requires length > 0 && p * length == q * length
    ensures p == q
  {
    Division.Quotient(p * length, p, length);
    Division.Quotient(q * length, q, length);
  }

  /** A player's submissions: at most 300 in an hour of the clock, and at most 600 in any hour. */
  lemma GameRoundsAreLimited(calls: seq<Call>, subject: string, hour: int, from: int)
    requires Legal(START, calls)
    ensures NetCount(After(START, calls).grants, Bucket(GameRoundSubmit, subject, hour)) <= 300
    ensures NetBetween(After(START, calls).grants, GameRoundSubmit, subject, from, from + 3_600_001) <= 600
  {
    OutstandingWithinLimit(calls, Bucket(GameRoundSubmit, subject, hour));
    BurstIsTwiceTheLimit(calls, GameRoundSubmit, subject, from);
  }
}
