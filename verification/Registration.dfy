/**
 * Registering, resending and verifying, with serialised transactions: one request as a function of
 * the stored state, and what holds over every sequence of requests.
 */
module Registration {
  import opened Options
  import opened Candidates
  import R = RateLimits

  const PENDING_REGISTRATION_MAX_ACTIVE: nat :=
    R.RuleOf(R.RegisterEmail).limit + R.RuleOf(R.VerifyResendDaily).limit

  const EXPIRED_AUTH_RECORD_GRACE_MS := 24 * 60 * 60_000

  /** The `users` row `verify` inserts: status ACTIVE, no locale, the rest from the candidate. */
  datatype Account = Account(
    id: nat, firstName: string, lastName: string, phone: string, email: string, passwordHash: string,
    accountRole: string, educationLevel: Option<string>, gradeLevel: Option<string>, studyStream: Option<string>,
    universityName: Option<string>, departmentName: Option<string>, schoolName: Option<string>,
    teacherSubject: Option<string>, institutionType: Option<string>, referralSource: Option<string>,
    districtId: string, emailVerifiedAt: int, marketingConsentAt: Option<int>)

  /** `used` is the supply of ids: an id once drawn is never drawn again. */
  datatype Desk = Desk(pending: Table, accounts: set<Account>, counters: R.Counters, used: set<nat>, now: int)

  const START := Desk([], {}, map[], {}, 0)

  /** A fresh registration, or a resend that carries nothing but the address. */
  datatype Source = Fresh(draft: Draft) | Again(address: string)
  {
    function Email(): string {
      if Fresh? then draft.email else address
    }
  }

  datatype CandidateOutcome = Issued(code: string, locale: string) | Ceiling | AmbiguousSource | NoLiveCandidate

  predicate Owns(accounts: set<Account>, email: string) {
    exists a :: a in accounts && a.email == email
  }

  /** The clone of a resend, column by column. */
  function CloneOf(c: Candidate): Draft {
    Draft(c.draft.email, c.draft.passwordHash, c.draft.firstName, c.draft.lastName, c.draft.phone,
          c.draft.accountRole, c.draft.educationLevel, c.draft.gradeLevel, c.draft.studyStream,
          c.draft.universityName, c.draft.departmentName, c.draft.schoolName, c.draft.teacherSubject,
          c.draft.institutionType, c.draft.referralSource, c.draft.districtId, c.draft.locale,
          c.draft.marketingConsentAt)
  }

  /** The account a matched candidate materialises as, column by column. */
  function AccountOf(c: Candidate, id: nat, now: int): Account {
    Account(id, c.draft.firstName, c.draft.lastName, c.draft.phone, c.draft.email, c.draft.passwordHash,
            c.draft.accountRole, c.draft.educationLevel, c.draft.gradeLevel, c.draft.studyStream,
            c.draft.universityName, c.draft.departmentName, c.draft.schoolName, c.draft.teacherSubject,
            c.draft.institutionType, c.draft.referralSource, c.draft.districtId, now, c.draft.marketingConsentAt)
  }

  // ---------------------------------------------------------------- the two transactions

  function Ambiguous(pending: Table, source: Source): bool {
    source.Again? && |Identities(pending, source.Email())| > 1
  }

  /** `insertCandidate`. */
  function Inserted(pending: Table, source: Source, now: int, id: nat, code: string): (Table, CandidateOutcome) {
    var email := source.Email();
    var live := Where(pending, Unexpired(email, now));
    if Ambiguous(pending, source) then (pending, AmbiguousSource)
    else
      var kept := Where(pending, NotExpired(email, now));
      if |live| >= PENDING_REGISTRATION_MAX_ACTIVE then (kept, Ceiling)
      else if source.Again? && live == [] then (kept, NoLiveCandidate)
      else
        var draft := if source.Again? then CloneOf(live[|live| - 1]) else source.draft;
        var row := Candidate(id, draft, Pending(id, code), now + EMAIL_VERIFICATION_TTL_MS, 0, now);
        (InsertSorted(kept, row), Issued(code, draft.locale))
  }

  /** `verify`: the new table, the new accounts, and the id of the account it opened. */
  function Verified(pending: Table, accounts: set<Account>, email: string, code: string, now: int, id: nat)
    : (Table, set<Account>, Option<nat>)
  {
    var matched := Where(pending, Matching(email, code, now));
    if Where(pending, Guessable(email, now)) == [] then (pending, accounts, None)
    else if matched == [] then (ChargeAll(pending, email, now), accounts, None)
    else if Owns(accounts, email) then (pending, accounts, None)
    else (Where(pending, NotOfAddress(email)), accounts + {AccountOf(matched[0], id, now)}, Some(id))
  }

  // ---------------------------------------------------------------- requests

  /**
   * `Retire` is the retention tour; `Close` deletes an account, which frees its address. `refunds` says
   * that a refund, if the resend writes one, goes through; one that throws is swallowed.
   */
  datatype Request =
    | Register(draft: Draft, now: int, id: nat, code: string)
    | Resend(email: string, now: int, id: nat, code: string, refunds: bool)
    | Verify(email: string, code: string, now: int, id: nat)
    | Retire(now: int)
    | Close(email: string, now: int)

  /** The clock does not go back, and ids are drawn fresh. */
  predicate Allowed(d: Desk, r: Request) {
    && d.now <= r.now
    && (r.Register? || r.Resend? || r.Verify? ==> r.id !in d.used)
  }

  function Registered(d: Desk, draft: Draft, now: int, id: nat, code: string): Desk {
    var (counters, limit) := R.Consumed(d.counters, R.RegisterEmail, draft.email, now);
    if !limit.allowed || Owns(d.accounts, draft.email) then d.(counters := counters, now := now)
    else
      Desk(Inserted(d.pending, Fresh(draft), now, id, code).0, d.accounts, counters, d.used + {id}, now)
  }

  function Resent(d: Desk, email: string, now: int, id: nat, code: string, refunds: bool): Desk {
    var (afterCooldown, cooldown) := R.Consumed(d.counters, R.VerifyResendCooldown, email, now);
    if !cooldown.allowed then d.(counters := afterCooldown, now := now)
    else
      var (afterDaily, daily) := R.Consumed(afterCooldown, R.VerifyResendDaily, email, now);
      if !daily.allowed then d.(counters := afterDaily, now := now)
      else
        var (pending, outcome) := Inserted(d.pending, Again(email), now, id, code);
        var counters :=
          if outcome == AmbiguousSource && refunds
          then R.Refunded(afterDaily, R.Bucket(R.VerifyResendDaily, email, daily.windowStart)) else afterDaily;
        Desk(pending, d.accounts, counters, d.used + {id}, now)
  }

  function Serve(d: Desk, r: Request): Desk {
    match r
    case Register(draft, now, id, code) => Registered(d, draft, now, id, code)
    case Resend(email, now, id, code, refunds) => Resent(d, email, now, id, code, refunds)
    case Verify(email, code, now, id) =>
      var (pending, accounts, _) := Verified(d.pending, d.accounts, email, code, now, id);
      Desk(pending, accounts, d.counters, d.used + {id}, now)
    case Retire(now) =>
      d.(pending := Where(d.pending, ExpiresFrom(now - EXPIRED_AUTH_RECORD_GRACE_MS)),
         counters := R.Swept(d.counters, now), now := now)
    case Close(email, now) => d.(accounts := (set a | a in d.accounts && a.email != email), now := now)
  }

  ghost predicate Legal(d: Desk, rs: seq<Request>)
    decreases |rs|
  {
    rs == [] || (Allowed(d, rs[0]) && Legal(Serve(d, rs[0]), rs[1..]))
  }

  function After(d: Desk, rs: seq<Request>): Desk
    requires Legal(d, rs)
    decreases |rs|
  {
    if rs == [] then d else After(Serve(d, rs[0]), rs[1..])
  }

  // ---------------------------------------------------------------- what every stored row satisfies

  predicate RowOk(d: Desk, c: Candidate) {
    && c.id in d.used && c.codeHash.id == c.id && c.createdAt <= d.now
    && c.attemptCount <= EMAIL_VERIFICATION_MAX_ATTEMPTS
    && c.expiresAt == c.createdAt + EMAIL_VERIFICATION_TTL_MS
  }

  predicate Inv(d: Desk) {
    && Sorted(d.pending) && DistinctIds(d.pending)
    && (forall c :: c in d.pending ==> RowOk(d, c))
  }

  lemma InsertedKeepsInv(d: Desk, source: Source, now: int, id: nat, code: string)
    requires Inv(d) && d.now <= now && id !in d.used
    ensures var d' := d.(pending := Inserted(d.pending, source, now, id, code).0, used := d.used + {id}, now := now);
            Inv(d')
  {
    var email := source.Email();
    var kept := Where(d.pending, NotExpired(email, now));
    WhereSorted(d.pending, NotExpired(email, now));
    WhereDistinct(d.pending, NotExpired(email, now));
    forall c
      ensures c in kept ==> RowOk(d, c) && c.id != id
    {
      WhereIn(d.pending, NotExpired(email, now), c);
    }
    var (pending', outcome) := Inserted(d.pending, source, now, id, code);
    if outcome.Issued? {
      var row :| pending' == InsertSorted(kept, row) && row.id == id && row.codeHash.id == id
                 && row.createdAt == now && row.attemptCount == 0 && row.expiresAt == now + EMAIL_VERIFICATION_TTL_MS;
      InsertedSorted(kept, row);
      InsertedDistinct(kept, row);
      forall c
        ensures c in pending' ==> c == row || c in kept
      {
        InsertedIn(kept, row, c);
      }
    }
  }

  lemma VerifiedKeepsInv(d: Desk, email: string, code: string, now: int, id: nat)
    requires Inv(d) && d.now <= now
    ensures Inv(Serve(d, Verify(email, code, now, id)))
  {
    var charged := ChargeAll(d.pending, email, now);
    WhereSorted(d.pending, NotOfAddress(email));
    WhereDistinct(d.pending, NotOfAddress(email));
    forall c
      ensures c in Where(d.pending, NotOfAddress(email)) ==> RowOk(d, c)
    {
      WhereIn(d.pending, NotOfAddress(email), c);
    }
    forall i | 0 <= i < |charged|
      ensures charged[i] == d.pending[i].(attemptCount := charged[i].attemptCount)
      ensures charged[i].attemptCount <= EMAIL_VERIFICATION_MAX_ATTEMPTS
    {
      assert RowOk(d, d.pending[i]);
    }
    forall c | c in charged
      ensures RowOk(d, c)
    {
      var i :| 0 <= i < |charged| && charged[i] == c;
      assert RowOk(d, d.pending[i]);
    }
  }

  lemma ServeKeepsInv(d: Desk, r: Request)
    requires Inv(d) && Allowed(d, r)
    ensures Inv(Serve(d, r))
  {
    match r
    case Register(draft, now, id, code) => InsertedKeepsInv(d, Fresh(draft), now, id, code);
    case Resend(email, now, id, code, _) => InsertedKeepsInv(d, Again(email), now, id, code);
    case Verify(email, code, now, id) => VerifiedKeepsInv(d, email, code, now, id);
    case Retire(now) =>
      var p := ExpiresFrom(now - EXPIRED_AUTH_RECORD_GRACE_MS);
      WhereSorted(d.pending, p);
      WhereDistinct(d.pending, p);
      forall c
        ensures c in Where(d.pending, p) ==> RowOk(d, c)
      {
        WhereIn(d.pending, p, c);
      }
    case Close(_, _) =>
  }

  lemma {:induction false} LegalKeepsInv(d: Desk, rs: seq<Request>)
    requires Inv(d) && Legal(d, rs)
    ensures Inv(After(d, rs))
    decreases |rs|
  {
    if rs == [] {
    } else {
      ServeKeepsInv(d, rs[0]);
      LegalKeepsInv(Serve(d, rs[0]), rs[1..]);
    }
  }
}
