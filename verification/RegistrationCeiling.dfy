/**
 * Why the ceiling of eight is a derived number: the two daily limiters, which share one window, let
 * at most eight candidates of one address be created in it.
 */
module RegistrationCeiling {
  import Division
  import opened Options
  import opened Candidates
  import opened Registration
  import R = RateLimits

  /** START of the daily window both limiters share. */
  function Day(now: int): int {
    R.Floor(now, R.ONE_DAY_MS)
  }

  function SourceOf(r: Request): Source
    requires r.Register? || r.Resend?
  {
    if r.Register? then Fresh(r.draft) else Again(r.email)
  }

  /** The limiters let the request through to `insertCandidate`. */
  predicate ReachesInsert(d: Desk, r: Request) {
    match r
    case Register(draft, now, _, _) =>
      R.Consumed(d.counters, R.RegisterEmail, draft.email, now).1.allowed && !Owns(d.accounts, draft.email)
    case Resend(email, now, _, _, _) =>
      var (counters, cooldown) := R.Consumed(d.counters, R.VerifyResendCooldown, email, now);
      cooldown.allowed && R.Consumed(counters, R.VerifyResendDaily, email, now).1.allowed
    case _ => false
  }

  predicate Creates(d: Desk, r: Request) {
    ReachesInsert(d, r) && Inserted(d.pending, SourceOf(r), r.now, r.id, r.code).1.Issued?
  }

  /** The request creates a candidate of `email` in the day that starts at `day`, through `scope`. */
  predicate CreatesVia(d: Desk, r: Request, scope: R.Scope, email: string, day: int) {
    && Creates(d, r) && SourceOf(r).Email() == email && Day(r.now) == day
    && scope == if r.Register? then R.RegisterEmail else R.VerifyResendDaily
  }

  function CreatedVia(d: Desk, rs: seq<Request>, scope: R.Scope, email: string, day: int): nat
    requires Legal(d, rs)
    decreases |rs|
  {
    if rs == [] then 0
    else
      (if CreatesVia(d, rs[0], scope, email, day) then 1 else 0)
      + CreatedVia(Serve(d, rs[0]), rs[1..], scope, email, day)
  }

  /** How many candidates of `email` the run creates in the day that starts at `day`. */
  function CreatedInDay(d: Desk, rs: seq<Request>, email: string, day: int): nat
    requires Legal(d, rs)
  {
    CreatedVia(d, rs, R.RegisterEmail, email, day) + CreatedVia(d, rs, R.VerifyResendDaily, email, day)
  }

  // ---------------------------------------------------------------- creations against the counters

  predicate Daily(scope: R.Scope) {
    scope == R.RegisterEmail || scope == R.VerifyResendDaily
  }

  /** `n` creations are covered by the counter of their bucket; a missing row of a current window covers none. */
  predicate Covered(rows: R.Counters, now: int, b: R.Bucket, n: nat) {
    && n <= R.RuleOf(b.scope).limit
    && (b in rows ==> n <= rows[b])
    && (b !in rows && b.windowStart >= R.WindowStart(b.scope, now) ==> n == 0)
  }

  /** A consume keeps what is covered, and a granted one covers one creation more in its own window. */
  lemma ConsumeCovers(rows: R.Counters, before: int, scope: R.Scope, email: string, now: int, b: R.Bucket, n: nat)
    requires Covered(rows, before, b, n) && before <= now
    ensures var (rows', o) := R.Consumed(rows, scope, email, now);
            && Covered(rows', now, b, n)
            && (o.allowed && b == R.Bucket(scope, email, o.windowStart) ==> Covered(rows', now, b, n + 1))
  {
    R.WindowsAdvance(b.scope, before, now);
  }

  /** Consume and refund in one request leave the bucket's cover as it was. */
  lemma RefundCovers(rows: R.Counters, before: int, scope: R.Scope, email: string, now: int, b: R.Bucket, n: nat)
    requires Covered(rows, before, b, n) && before <= now
    ensures var (rows', o) := R.Consumed(rows, scope, email, now);
            Covered(R.Refunded(rows', R.Bucket(scope, email, o.windowStart)), now, b, n)
  {
    R.WindowsAdvance(b.scope, before, now);
  }

  lemma RegisterCovers(d: Desk, r: Request, b: R.Bucket, n: nat)
    requires Allowed(d, r) && r.Register? && Daily(b.scope) && Covered(d.counters, d.now, b, n)
    ensures Covered(Serve(d, r).counters, r.now, b,
                    n + if CreatesVia(d, r, b.scope, b.subject, b.windowStart) then 1 else 0)
  {
    ConsumeCovers(d.counters, d.now, R.RegisterEmail, r.draft.email, r.now, b, n);
  }

  lemma ResendCovers(d: Desk, r: Request, b: R.Bucket, n: nat)
    requires Allowed(d, r) && r.Resend? && Daily(b.scope) && Covered(d.counters, d.now, b, n)
    ensures Covered(Serve(d, r).counters, r.now, b,
                    n + if CreatesVia(d, r, b.scope, b.subject, b.windowStart) then 1 else 0)
  {
    var (counters, cooldown) := R.Consumed(d.counters, R.VerifyResendCooldown, r.email, r.now);
    ConsumeCovers(d.counters, d.now, R.VerifyResendCooldown, r.email, r.now, b, n);
    ConsumeCovers(counters, r.now, R.VerifyResendDaily, r.email, r.now, b, n);
    RefundCovers(counters, r.now, R.VerifyResendDaily, r.email, r.now, b, n);
  }

  lemma ServeCovers(d: Desk, r: Request, b: R.Bucket, n: nat)
    requires Allowed(d, r) && Daily(b.scope) && Covered(d.counters, d.now, b, n)
    ensures Covered(Serve(d, r).counters, r.now, b,
                    n + if CreatesVia(d, r, b.scope, b.subject, b.windowStart) then 1 else 0)
  {
    match r
    case Register(_, _, _, _) => RegisterCovers(d, r, b, n);
    case Resend(_, _, _, _, _) => ResendCovers(d, r, b, n);
    case _ =>
      R.WindowsAdvance(b.scope, d.now, r.now);
      R.EndedWindow(b.scope, b.windowStart, r.now);
  }

  lemma {:induction false} RunCovers(d: Desk, rs: seq<Request>, b: R.Bucket, n: nat)
    requires Legal(d, rs) && Daily(b.scope) && Covered(d.counters, d.now, b, n)
    ensures Covered(After(d, rs).counters, After(d, rs).now, b,
                    n + CreatedVia(d, rs, b.scope, b.subject, b.windowStart))
    decreases |rs|
  {
    if rs == [] {
    } else {
      ServeCovers(d, rs[0], b, n);
      RunCovers(Serve(d, rs[0]), rs[1..], b,
                n + if CreatesVia(d, rs[0], b.scope, b.subject, b.windowStart) then 1 else 0);
    }
  }

  // ---------------------------------------------------------------- stored rows against creations

  function RowsOfDay(pending: Table, email: string, day: int): nat {
    |Where(pending, CreatedIn(email, day, day + R.ONE_DAY_MS))|
  }

  predicate CreatesOf(d: Desk, r: Request, email: string, day: int) {
    Creates(d, r) && SourceOf(r).Email() == email && Day(r.now) == day
  }

  lemma InsertedRowsOfDay(pending: Table, source: Source, now: int, id: nat, code: string, email: string, day: int)
    requires Day(day) == day
    ensures RowsOfDay(Inserted(pending, source, now, id, code).0, email, day)
            <= RowsOfDay(pending, email, day)
               + if Inserted(pending, source, now, id, code).1.Issued? && source.Email() == email && Day(now) == day
                 then 1 else 0
  {
    var p := CreatedIn(email, day, day + R.ONE_DAY_MS);
    var kept := Where(pending, NotExpired(source.Email(), now));
    WhereShrinks(pending, p, NotExpired(source.Email(), now));
    var (pending', outcome) := Inserted(pending, source, now, id, code);
    if outcome.Issued? {
      var live := Where(pending, Unexpired(source.Email(), now));
      if source.Again? {
        WhereIn(pending, Unexpired(source.Email(), now), live[|live| - 1]);
      }
      var draft := if source.Again? then CloneOf(live[|live| - 1]) else source.draft;
      var row := Candidate(id, draft, Pending(id, code), now + EMAIL_VERIFICATION_TTL_MS, 0, now);
      WhereInserted(kept, row, p);
      if day <= now {
        R.SameOrLater(day, now, R.ONE_DAY_MS);
      }
    }
  }

  lemma VerifyRowsOfDay(d: Desk, r: Request, email: string, day: int)
    requires r.Verify?
    ensures RowsOfDay(Serve(d, r).pending, email, day) <= RowsOfDay(d.pending, email, day)
  {
    var p := CreatedIn(email, day, day + R.ONE_DAY_MS);
    WhereCharged(d.pending, r.email, r.now, p);
    WhereShrinks(d.pending, p, NotOfAddress(r.email));
  }

  lemma ServeRowsOfDay(d: Desk, r: Request, email: string, day: int)
    requires Day(day) == day
    ensures RowsOfDay(Serve(d, r).pending, email, day)
            <= RowsOfDay(d.pending, email, day) + if CreatesOf(d, r, email, day) then 1 else 0
  {
    var p := CreatedIn(email, day, day + R.ONE_DAY_MS);
    match r
    case Register(draft, now, id, code) => InsertedRowsOfDay(d.pending, Fresh(draft), now, id, code, email, day);
    case Resend(address, now, id, code, _) => InsertedRowsOfDay(d.pending, Again(address), now, id, code, email, day);
    case Verify(_, _, _, _) => VerifyRowsOfDay(d, r, email, day);
    case Retire(now) => WhereShrinks(d.pending, p, ExpiresFrom(now - EXPIRED_AUTH_RECORD_GRACE_MS));
    case Close(_, _) =>
  }

  lemma {:induction false} RunRowsOfDay(d: Desk, rs: seq<Request>, email: string, day: int)
    requires Legal(d, rs) && Day(day) == day
    ensures RowsOfDay(After(d, rs).pending, email, day)
            <= RowsOfDay(d.pending, email, day) + CreatedInDay(d, rs, email, day)
    decreases |rs|
  {
    if rs == [] {
    } else {
      ServeRowsOfDay(d, rs[0], email, day);
      RunRowsOfDay(Serve(d, rs[0]), rs[1..], email, day);
    }
  }

  // ---------------------------------------------------------------- the derivation

  /**
   * When a request the limiters granted reaches the ceiling, at most seven candidates of its
   * address were created in its day; so the ceiling can refuse it only because some candidate that
   * is still live was created before that day began.
   */
  lemma CeilingNeedsAnOlderDay(rs: seq<Request>, r: Request)
    requires Legal(START, rs) && Allowed(After(START, rs), r) && ReachesInsert(After(START, rs), r)
    ensures var email, day := SourceOf(r).Email(), Day(r.now);
            && CreatedInDay(START, rs, email, day) <= 7
            && (Inserted(After(START, rs).pending, SourceOf(r), r.now, r.id, r.code).1 == Ceiling ==>
                  exists c :: c in After(START, rs).pending && Unexpired(email, r.now)(c) && c.createdAt < day)
  {
    var d := After(START, rs);
    var email, day := SourceOf(r).Email(), Day(r.now);
    CreatedAtMostSeven(rs, r);
    LegalKeepsInv(START, rs);
    if Inserted(d.pending, SourceOf(r), r.now, r.id, r.code).1 == Ceiling {
      DayOfItsStart(r.now);
      RunRowsOfDay(START, rs, email, day);
      CeilingMeansEight(d.pending, SourceOf(r), r.now, r.id, r.code);
      SomeLiveRowIsOlder(d, email, day, r.now);
    }
  }

  lemma DayOfItsStart(now: int)
    ensures Day(Day(now)) == Day(now) && now < Day(now) + R.ONE_DAY_MS
  {
    R.FloorFacts(now, R.ONE_DAY_MS);
    Division.Quotient(Day(now), now / R.ONE_DAY_MS, R.ONE_DAY_MS);
  }

  lemma CeilingMeansEight(pending: Table, source: Source, now: int, id: nat, code: string)
    requires Inserted(pending, source, now, id, code).1 == Ceiling
    ensures |Where(pending, Unexpired(source.Email(), now))| >= 8
  {
  }

  /** Eight live rows of which at most seven are of this day. */
  lemma SomeLiveRowIsOlder(d: Desk, email: string, day: int, now: int)
    requires Inv(d) && d.now <= now < day + R.ONE_DAY_MS
    requires |Where(d.pending, Unexpired(email, now))| >= 8 && RowsOfDay(d.pending, email, day) <= 7
    ensures exists c :: c in d.pending && Unexpired(email, now)(c) && c.createdAt < day
  {
    if forall c :: c in d.pending && Unexpired(email, now)(c) ==> c.createdAt >= day {
      forall c | c in d.pending && Unexpired(email, now)(c)
        ensures CreatedIn(email, day, day + R.ONE_DAY_MS)(c)
      {
        assert RowOk(d, c);
      }
      WhereKeeps(d.pending, Unexpired(email, now), CreatedIn(email, day, day + R.ONE_DAY_MS));
      assert false;
    }
  }

  lemma CreatedAtMostSeven(rs: seq<Request>, r: Request)
    requires Legal(START, rs) && Allowed(After(START, rs), r) && ReachesInsert(After(START, rs), r)
    ensures CreatedInDay(START, rs, SourceOf(r).Email(), Day(r.now)) <= 7
  {
    var email, day := SourceOf(r).Email(), Day(r.now);
    var viaRegister := R.Bucket(R.RegisterEmail, email, day);
    var viaResend := R.Bucket(R.VerifyResendDaily, email, day);
    RunCovers(START, rs, viaRegister, 0);
    RunCovers(START, rs, viaResend, 0);
    R.WindowsAdvance(R.RegisterEmail, After(START, rs).now, r.now);
  }
}
