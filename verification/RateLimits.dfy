/**
 * The fixed-window counters: consume, refund and the retention sweep, and the accounting they keep
 * over every sequence of calls.
 */
module RateLimits {
  import opened Division

  const ONE_MINUTE_MS := 60_000
  const ONE_HOUR_MS := 60 * ONE_MINUTE_MS
  const ONE_DAY_MS := 24 * ONE_HOUR_MS

  datatype Scope =
    | RegisterEmail | VerifyResendCooldown | VerifyResendDaily | LoginEmail | PasswordResetEmail
    | PasswordChange | GameRoundSubmit

  datatype Rule = Rule(limit: nat, windowMs: int)

  function RuleOf(scope: Scope): (r: Rule)
    ensures r.windowMs > 0 && r.limit > 0
  {
    match scope
    case RegisterEmail => Rule(3, ONE_DAY_MS)
    case VerifyResendCooldown => Rule(1, ONE_MINUTE_MS)
    case VerifyResendDaily => Rule(5, ONE_DAY_MS)
    case LoginEmail => Rule(10, 15 * ONE_MINUTE_MS)
    case PasswordResetEmail => Rule(3, ONE_HOUR_MS)
    case PasswordChange => Rule(5, 15 * ONE_MINUTE_MS)
    case GameRoundSubmit => Rule(300, ONE_HOUR_MS)
  }

  /** The primary key of a counter row; `subject` stands for the HMAC of the address or user. */
  datatype Bucket = Bucket(scope: Scope, subject: string, windowStart: int)

  type Counters = map<Bucket, nat>

  datatype Outcome = Outcome(allowed: bool, retryAfterSeconds: int, windowStart: int)

  function Floor(now: int, windowMs: int): int
    requires windowMs > 0
  {
    now / windowMs * windowMs
  }

  function WindowStart(scope: Scope, now: int): int {
    Floor(now, RuleOf(scope).windowMs)
  }

  function Ceil1000(ms: int): int {
    (ms + 999) / 1000
  }

  function Max(a: int, b: int): (m: int)
    ensures m >= a && m >= b && (m == a || m == b)
  {
    if a >= b then a else b
  }

  function Min(a: int, b: int): int {
    if a <= b then a else b
  }

  // ---------------------------------------------------------------- one call

  /** `DELETE … WHERE scope, subject AND window_start < $3`. */
  function WithoutStale(rows: Counters, scope: Scope, subject: string, windowStart: int): Counters {
    map b | b in rows && !(b.scope == scope && b.subject == subject && b.windowStart < windowStart) :: rows[b]
  }

  function CountOf(rows: Counters, b: Bucket): nat {
    if b in rows then rows[b] else 0
  }

  function Consumed(rows: Counters, scope: Scope, subject: string, now: int): (Counters, Outcome) {
    var rule := RuleOf(scope);
    var start := WindowStart(scope, now);
    var b := Bucket(scope, subject, start);
    var count := CountOf(rows, b) + 1;
    var allowed := count <= rule.limit;
    (WithoutStale(rows, scope, subject, start)[b := count],
     Outcome(allowed, if allowed then 0 else Max(0, Ceil1000(start + rule.windowMs - now)), start))
  }

  /** `GREATEST(count - 1, 0)`. */
  function Decrement(count: nat): nat {
    if count == 0 then 0 else count - 1
  }

  /** `UPDATE … SET attempt_count = GREATEST(attempt_count - 1, 0)`: no row, no write. */
  function Refunded(rows: Counters, b: Bucket): Counters {
    if b in rows then rows[b := Decrement(rows[b])] else rows
  }

  /** The retention tour: windows that ended, scope by scope. */
  function Swept(rows: Counters, now: int): Counters {
    map b | b in rows && b.windowStart > now - RuleOf(b.scope).windowMs :: rows[b]
  }

  class RateLimiter {
    var rows: Counters

    constructor ()
      ensures rows == map[]
    {
      rows := map[];
    }

    method Consume(scope: Scope, subject: string, now: int) returns (o: Outcome)
      modifies this
      ensures (rows, o) == Consumed(old(rows), scope, subject, now)
    {
      var rule := RuleOf(scope);
      var start := WindowStart(scope, now);
      rows := WithoutStale(rows, scope, subject, start);
      var b := Bucket(scope, subject, start);
      if b in rows {
        rows := rows[b := rows[b] + 1];
      } else {
        rows := rows[b := 1];
      }
      var allowed := rows[b] <= rule.limit;
      var retry := 0;
      if !allowed {
        retry := Max(0, Ceil1000(start + rule.windowMs - now));
      }
      o := Outcome(allowed, retry, start);
    }

    method Refund(scope: Scope, subject: string, windowStart: int)
      modifies this
      ensures rows == Refunded(old(rows), Bucket(scope, subject, windowStart))
    {
      var b := Bucket(scope, subject, windowStart);
      if b in rows {
        rows := rows[b := Decrement(rows[b])];
      }
    }
  }

  lemma FloorFacts(now: int, windowMs: int)
    requires windowMs > 0
    ensures Floor(now, windowMs) <= now < Floor(now, windowMs) + windowMs
  {
  }

  /** A refused caller is told the least whole number of seconds, at least one, that reaches a later window. */
  lemma RetryAfterIsLeast(rows: Counters, scope: Scope, subject: string, now: int)
    requires !Consumed(rows, scope, subject, now).1.allowed
    ensures var r := Consumed(rows, scope, subject, now).1.retryAfterSeconds;
            && r >= 1
            && WindowStart(scope, now + 1000 * r) > WindowStart(scope, now)
            && forall s :: 0 <= s < r ==> WindowStart(scope, now + 1000 * s) == WindowStart(scope, now)
  {
    var w := RuleOf(scope).windowMs;
    var start := WindowStart(scope, now);
    var r := Consumed(rows, scope, subject, now).1.retryAfterSeconds;
    FloorFacts(now, w);
    assert now + 1000 * r >= start + w > now + 1000 * (r - 1);
    SameOrLater(now, now + 1000 * r, w);
    forall s | 0 <= s < r
      ensures WindowStart(scope, now + 1000 * s) == start
    {
      SameOrLater(now, now + 1000 * s, w);
    }
  }

  /** A later instant is in the same window exactly when it is before the window's end. */
  lemma SameOrLater(now: int, later: int, windowMs: int)
    requires windowMs > 0 && now <= later
    ensures later < Floor(now, windowMs) + windowMs ==> Floor(later, windowMs) == Floor(now, windowMs)
    ensures later >= Floor(now, windowMs) + windowMs ==> Floor(later, windowMs) >= Floor(now, windowMs) + windowMs
  {
    var q := now / windowMs;
    if later < (q + 1) * windowMs {
      Quotient(later, q, windowMs);
    } else {
      QuotientAtLeast(later, q + 1, windowMs);
    }
  }

  // ---------------------------------------------------------------- sequences of calls

  /** One consume and what became of it. */
  datatype Grant = Grant(scope: Scope, subject: string, at: int, granted: bool, refunded: bool)
  {
    function BucketOf(): Bucket {
      Bucket(scope, subject, WindowStart(scope, at))
    }

    predicate Net(b: Bucket) {
      granted && !refunded && BucketOf() == b
    }
  }

  /** The counters, every consume so far, and a clock that never goes back. */
  datatype History = History(rows: Counters, grants: seq<Grant>, now: int)

  datatype Call =
    | Consume(scope: Scope, subject: string, now: int)
    | Refund(grant: nat)
    | Sweep(now: int)

  /** A call site refunds only a unit it was granted, once, in the window its consume reported. */
  predicate Allowed(h: History, c: Call) {
    match c
    case Consume(_, _, now) => h.now <= now
    case Refund(i) => i < |h.grants| && h.grants[i].granted && !h.grants[i].refunded
    case Sweep(now) => h.now <= now
  }

  function Next(h: History, c: Call): History
    requires Allowed(h, c)
  {
    match c
    case Consume(scope, subject, now) =>
      var (rows, o) := Consumed(h.rows, scope, subject, now);
      History(rows, h.grants + [Grant(scope, subject, now, o.allowed, false)], now)
    case Refund(i) =>
      History(Refunded(h.rows, h.grants[i].BucketOf()), h.grants[i := h.grants[i].(refunded := true)], h.now)
    case Sweep(now) => History(Swept(h.rows, now), h.grants, now)
  }

  ghost predicate Legal(h: History, calls: seq<Call>)
    decreases |calls|
  {
    calls == [] || (Allowed(h, calls[0]) && Legal(Next(h, calls[0]), calls[1..]))
  }

  function After(h: History, calls: seq<Call>): History
    requires Legal(h, calls)
    decreases |calls|
  {
    if calls == [] then h else After(Next(h, calls[0]), calls[1..])
  }

  /** How many units of a window are granted and not given back. */
  function NetCount(grants: seq<Grant>, b: Bucket): nat {
    if grants == [] then 0
    else NetCount(grants[..|grants| - 1], b) + if grants[|grants| - 1].Net(b) then 1 else 0
  }

  /** The counter bounds what is outstanding; a missing row means nothing is, or the window is over. */
  predicate BucketOk(h: History, b: Bucket) {
    && NetCount(h.grants, b) <= RuleOf(b.scope).limit
    && (b in h.rows ==> NetCount(h.grants, b) <= h.rows[b])
    && (b !in h.rows && b.windowStart >= WindowStart(b.scope, h.now) ==> NetCount(h.grants, b) == 0)
  }

  lemma NetCountAppend(grants: seq<Grant>, g: Grant, b: Bucket)
    ensures NetCount(grants + [g], b) == NetCount(grants, b) + if g.Net(b) then 1 else 0
  {
    assert (grants + [g])[..|grants|] == grants;
  }

  lemma {:induction false} NetCountRefund(grants: seq<Grant>, i: nat, b: Bucket)
    requires i < |grants| && grants[i].granted && !grants[i].refunded
    ensures NetCount(grants[i := grants[i].(refunded := true)], b)
            == NetCount(grants, b) - if grants[i].BucketOf() == b then 1 else 0
  {
    var after := grants[i := grants[i].(refunded := true)];
    var n := |grants| - 1;
    if i == n {
      assert after[..n] == grants[..n];
    } else {
      assert after[..n] == grants[..n][i := grants[i].(refunded := true)];
      NetCountRefund(grants[..n], i, b);
    }
  }

  lemma NextKeeps(h: History, c: Call, b: Bucket)
    requires Allowed(h, c) && BucketOk(h, b)
    ensures BucketOk(Next(h, c), b)
  {
    match c
    case Consume(scope, subject, now) =>
      var g := Grant(scope, subject, now, Consumed(h.rows, scope, subject, now).1.allowed, false);
      NetCountAppend(h.grants, g, b);
      WindowsAdvance(b.scope, h.now, now);
    case Refund(i) => NetCountRefund(h.grants, i, b);
    case Sweep(now) =>
      WindowsAdvance(b.scope, h.now, now);
      EndedWindow(b.scope, b.windowStart, now);
  }

  lemma WindowsAdvance(scope: Scope, now: int, later: int)
    requires now <= later
    ensures WindowStart(scope, now) <= WindowStart(scope, later)
  {
    SameOrLater(now, later, RuleOf(scope).windowMs);
  }

  lemma EndedWindow(scope: Scope, start: int, now: int)
    ensures start <= now - RuleOf(scope).windowMs ==> start < WindowStart(scope, now)
  {
    FloorFacts(now, RuleOf(scope).windowMs);
  }

  lemma {:induction false} LegalKeeps(h: History, calls: seq<Call>, b: Bucket)
    requires Legal(h, calls) && BucketOk(h, b)
    ensures BucketOk(After(h, calls), b)
    decreases |calls|
  {
    if calls == [] {
    } else {
      NextKeeps(h, calls[0], b);
      LegalKeeps(Next(h, calls[0]), calls[1..], b);
    }
  }

  const START := History(map[], [], 0)

  /** In every window, what is granted and not given back stays within the limit and within the counter. */
  lemma OutstandingWithinLimit(calls: seq<Call>, b: Bucket)
    requires Legal(START, calls)
    ensures var h := After(START, calls);
            && NetCount(h.grants, b) <= RuleOf(b.scope).limit
            && (b in h.rows ==> NetCount(h.grants, b) <= Min(h.rows[b], RuleOf(b.scope).limit))
  {
    LegalKeeps(START, calls, b);
  }

  /** A legal refund takes exactly one unit off the row it names, if the row is still there: the floor never binds. */
  lemma RefundUndoesOneGrant(calls: seq<Call>, i: nat)
    requires Legal(START, calls) && Allowed(After(START, calls), Refund(i))
    ensures var h := After(START, calls); var b := h.grants[i].BucketOf();
            b in h.rows ==> h.rows[b] >= 1 && Next(h, Refund(i)).rows == h.rows[b := h.rows[b] - 1]
    ensures var h := After(START, calls); var b := h.grants[i].BucketOf();
            NetCount(Next(h, Refund(i)).grants, b) == NetCount(h.grants, b) - 1
  {
    var h := After(START, calls);
    var b := h.grants[i].BucketOf();
    LegalKeeps(START, calls, b);
    NetCountRefund(h.grants, i, b);
  }

  /** How many units of one subject were granted from `from` on and before `to`, and not given back. */
  function NetBetween(grants: seq<Grant>, scope: Scope, subject: string, from: int, to: int): nat {
    if grants == [] then 0
    else
      var g := grants[|grants| - 1];
      NetBetween(grants[..|grants| - 1], scope, subject, from, to)
      + if g.granted && !g.refunded && g.scope == scope && g.subject == subject && from <= g.at < to then 1 else 0
  }

  /** The same in the closed interval `[from, from + windowMs]`. */
  function NetWithin(grants: seq<Grant>, scope: Scope, subject: string, from: int): nat {
    NetBetween(grants, scope, subject, from, from + RuleOf(scope).windowMs + 1)
  }

  /** An interval as long as a window meets two windows at most. */
  lemma {:induction false} TwoWindows(grants: seq<Grant>, scope: Scope, subject: string, from: int)
    ensures var w := WindowStart(scope, from);
            NetWithin(grants, scope, subject, from)
            <= NetCount(grants, Bucket(scope, subject, w))
               + NetCount(grants, Bucket(scope, subject, w + RuleOf(scope).windowMs))
  {
    if grants == [] {
    } else {
      var n := |grants| - 1;
      TwoWindows(grants[..n], scope, subject, from);
      var g := grants[n];
      if from <= g.at <= from + RuleOf(scope).windowMs {
        NextWindow(scope, from, g.at);
      }
    }
  }

  lemma NextWindow(scope: Scope, from: int, at: int)
    requires from <= at <= from + RuleOf(scope).windowMs
    ensures WindowStart(scope, at) == WindowStart(scope, from)
            || WindowStart(scope, at) == WindowStart(scope, from) + RuleOf(scope).windowMs
  {
    var w := RuleOf(scope).windowMs;
    var q := from / w;
    FloorFacts(from, w);
    if at >= (q + 1) * w {
      Quotient(at, q + 1, w);
    } else {
      Quotient(at, q, w);
    }
  }

  /** The accepted burst: any interval of one window length holds at most twice the limit. */
  lemma BurstIsTwiceTheLimit(calls: seq<Call>, scope: Scope, subject: string, from: int)
    requires Legal(START, calls)
    ensures NetWithin(After(START, calls).grants, scope, subject, from) <= 2 * RuleOf(scope).limit
  {
    var w := WindowStart(scope, from);
    TwoWindows(After(START, calls).grants, scope, subject, from);
    OutstandingWithinLimit(calls, Bucket(scope, subject, w));
    OutstandingWithinLimit(calls, Bucket(scope, subject, w + RuleOf(scope).windowMs));
  }
}
