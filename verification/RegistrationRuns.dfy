/**
 * What holds over every sequence of registrations, resends, verifications, retention tours and
 * account deletions.
 */
module RegistrationRuns {
  import opened Options
  import opened Candidates
  import opened Registration
  import R = RateLimits

  // ---------------------------------------------------------------- who may touch a stored row

  /** The same candidate, apart from a counter that only grows. */
  predicate Same(c: Candidate, later: Candidate) {
    later == c.(attemptCount := later.attemptCount) && c.attemptCount <= later.attemptCount
  }

  /** The request presented a valid code and opened an account for its address. */
  predicate Opens(d: Desk, r: Request) {
    r.Verify? && Verified(d.pending, d.accounts, r.email, r.code, r.now, r.id).2.Some?
  }

  lemma InsertedSurvives(pending: Table, source: Source, now: int, id: nat, code: string, c: Candidate)
    requires c in pending && c.expiresAt > now
    ensures c in Inserted(pending, source, now, id, code).0
  {
    var email := source.Email();
    var kept := Where(pending, NotExpired(email, now));
    WhereIn(pending, NotExpired(email, now), c);
    var (pending', outcome) := Inserted(pending, source, now, id, code);
    if outcome.Issued? {
      var row :| pending' == InsertSorted(kept, row);
      InsertedIn(kept, row, c);
    }
  }

  lemma ChargedIn(pending: Table, email: string, now: int, c: Candidate)
    requires c in pending
    ensures Charge(c, email, now) in ChargeAll(pending, email, now)
  {
    var i :| 0 <= i < |pending| && pending[i] == c;
    assert ChargeAll(pending, email, now)[i] == Charge(c, email, now);
  }

  /** Without a valid code nobody removes an unexpired candidate or alters more than its counter. */
  lemma LiveRowsSurvive(d: Desk, r: Request, c: Candidate)
    requires Inv(d) && Allowed(d, r) && c in d.pending && c.expiresAt > r.now
    requires !(Opens(d, r) && r.email == c.draft.email)
    ensures exists later :: later in Serve(d, r).pending && Same(c, later)
  {
    var pending' := Serve(d, r).pending;
    match r
    case Register(draft, now, id, code) =>
      InsertedSurvives(d.pending, Fresh(draft), now, id, code, c);
      assert c in pending' && Same(c, c);
    case Resend(email, now, id, code, _) =>
      InsertedSurvives(d.pending, Again(email), now, id, code, c);
      assert c in pending' && Same(c, c);
    case Verify(email, code, now, id) =>
      ChargedIn(d.pending, email, now, c);
      WhereIn(d.pending, NotOfAddress(email), c);
      assert RowOk(d, c);
      assert Same(c, c) && Same(c, Charge(c, email, now));
    case Retire(now) =>
      WhereIn(d.pending, ExpiresFrom(now - EXPIRED_AUTH_RECORD_GRACE_MS), c);
      assert Same(c, c);
    case Close(_, _) =>
      assert Same(c, c);
  }

  /** A row that was not stored before: a submitted draft, or the clone of an unexpired row of its address. */
  predicate IsNew(d: Desk, r: Request, c: Candidate) {
    && (r.Register? || r.Resend?)
    && c.id == r.id && c.attemptCount == 0 && c.createdAt == r.now
    && c.codeHash == Pending(r.id, r.code) && c.expiresAt == r.now + EMAIL_VERIFICATION_TTL_MS
    && if r.Register? then c.draft == r.draft
       else exists source :: source in d.pending && source.draft.email == r.email && source.expiresAt > r.now
                             && c.draft == source.draft
  }

  lemma InsertedOrigin(d: Desk, source: Source, now: int, id: nat, code: string, c: Candidate)
    requires c in Inserted(d.pending, source, now, id, code).0
    ensures c in d.pending
            || IsNew(d, if source.Fresh? then Register(source.draft, now, id, code)
                        else Resend(source.address, now, id, code, true), c)
  {
    var email := source.Email();
    var kept := Where(d.pending, NotExpired(email, now));
    var live := Where(d.pending, Unexpired(email, now));
    WhereIn(d.pending, NotExpired(email, now), c);
    var (pending', outcome) := Inserted(d.pending, source, now, id, code);
    if outcome.Issued? {
      var draft := if source.Again? then CloneOf(live[|live| - 1]) else source.draft;
      var row := Candidate(id, draft, Pending(id, code), now + EMAIL_VERIFICATION_TTL_MS, 0, now);
      InsertedIn(kept, row, c);
      if source.Again? {
        WhereIn(d.pending, Unexpired(email, now), live[|live| - 1]);
      }
    }
  }

  /** Every stored row is an old row with a counter that grew, or a new row of this very request. */
  lemma RowsAreNeverRewritten(d: Desk, r: Request, c: Candidate)
    requires Inv(d) && Allowed(d, r) && c in Serve(d, r).pending
    ensures (exists before :: before in d.pending && Same(before, c)) || IsNew(d, r, c)
  {
    match r
    case Register(draft, now, id, code) =>
      if c !in d.pending {
        InsertedOrigin(d, Fresh(draft), now, id, code, c);
      } else {
        assert Same(c, c);
      }
    case Resend(email, now, id, code, _) =>
      if c !in d.pending {
        InsertedOrigin(d, Again(email), now, id, code, c);
      } else {
        assert Same(c, c);
      }
    case Verify(_, _, _, _) => GuessRewritesNothing(d, r, c);
    case Retire(now) =>
      WhereIn(d.pending, ExpiresFrom(now - EXPIRED_AUTH_RECORD_GRACE_MS), c);
      assert Same(c, c);
    case Close(_, _) =>
      assert Same(c, c);
  }

  lemma GuessRewritesNothing(d: Desk, r: Request, c: Candidate)
    requires Inv(d) && r.Verify? && c in Serve(d, r).pending
    ensures exists before :: before in d.pending && Same(before, c)
  {
    WhereIn(d.pending, NotOfAddress(r.email), c);
    if c in d.pending {
      assert Same(c, c);
    } else {
      ChargedIsSame(d, r.email, r.now, c);
    }
  }

  lemma ChargedIsSame(d: Desk, email: string, now: int, c: Candidate)
    requires Inv(d) && c in ChargeAll(d.pending, email, now)
    ensures exists before :: before in d.pending && Same(before, c)
  {
    var charged := ChargeAll(d.pending, email, now);
    var i :| 0 <= i < |charged| && charged[i] == c;
    assert RowOk(d, d.pending[i]);
    assert Same(d.pending[i], c);
  }

  // ---------------------------------------------------------------- where accounts come from

  /** The account carries exactly the credential and profile fields of the draft. */
  predicate CarriesDraft(a: Account, f: Draft) {
    && a.email == f.email && a.passwordHash == f.passwordHash
    && a.firstName == f.firstName && a.lastName == f.lastName && a.phone == f.phone
    && a.accountRole == f.accountRole && a.educationLevel == f.educationLevel && a.gradeLevel == f.gradeLevel
    && a.studyStream == f.studyStream && a.universityName == f.universityName
    && a.departmentName == f.departmentName && a.schoolName == f.schoolName
    && a.teacherSubject == f.teacherSubject && a.institutionType == f.institutionType
    && a.referralSource == f.referralSource && a.districtId == f.districtId
    && a.marketingConsentAt == f.marketingConsentAt
  }

  function DraftsOf(rs: seq<Request>): set<Draft> {
    set r | r in rs && r.Register? :: r.draft
  }

  predicate From(d: Desk, drafts: set<Draft>) {
    && (forall c :: c in d.pending ==> c.draft in drafts)
    && (forall a :: a in d.accounts ==> exists f :: f in drafts && CarriesDraft(a, f))
  }

  lemma ServeKeepsOrigin(d: Desk, r: Request, drafts: set<Draft>)
    requires Inv(d) && Allowed(d, r) && From(d, drafts)
    ensures From(Serve(d, r), if r.Register? then drafts + {r.draft} else drafts)
  {
    forall c | c in Serve(d, r).pending
      ensures c.draft in (if r.Register? then drafts + {r.draft} else drafts)
    {
      RowsAreNeverRewritten(d, r, c);
    }
    if Opens(d, r) {
      var matched := Where(d.pending, Matching(r.email, r.code, r.now));
      WhereIn(d.pending, Matching(r.email, r.code, r.now), matched[0]);
      assert CarriesDraft(AccountOf(matched[0], r.id, r.now), matched[0].draft);
    }
  }

  lemma {:induction false} OriginOverRuns(d: Desk, rs: seq<Request>, drafts: set<Draft>)
    requires Inv(d) && Legal(d, rs) && From(d, drafts)
    ensures From(After(d, rs), drafts + DraftsOf(rs))
    decreases |rs|
  {
    if rs != [] {
      var drafts' := if rs[0].Register? then drafts + {rs[0].draft} else drafts;
      ServeKeepsInv(d, rs[0]);
      ServeKeepsOrigin(d, rs[0], drafts);
      OriginOverRuns(Serve(d, rs[0]), rs[1..], drafts');
      assert rs == [rs[0]] + rs[1..];
      assert drafts' + DraftsOf(rs[1..]) == drafts + DraftsOf(rs);
    } else {
      assert drafts + DraftsOf(rs) == drafts;
    }
  }

  /**
   * However many resends came between, an account that exists carries, field by field, the draft of
   * one registration of the run for its own address.
   */
  lemma AccountsCarryOneRegistration(rs: seq<Request>, a: Account)
    requires Legal(START, rs) && a in After(START, rs).accounts
    ensures exists i :: 0 <= i < |rs| && rs[i].Register? && CarriesDraft(a, rs[i].draft)
  {
    OriginOverRuns(START, rs, {});
    var f :| f in DraftsOf(rs) && CarriesDraft(a, f);
    var r :| r in rs && r.Register? && r.draft == f;
    var i :| 0 <= i < |rs| && rs[i] == r;
  }

  predicate OneAccountEach(d: Desk) {
    forall a, b :: a in d.accounts && b in d.accounts && a.email == b.email ==> a == b
  }

  lemma ServeKeepsOneAccount(d: Desk, r: Request)
    requires Inv(d) && Allowed(d, r) && OneAccountEach(d)
    ensures OneAccountEach(Serve(d, r))
  {
    if Opens(d, r) {
      var matched := Where(d.pending, Matching(r.email, r.code, r.now));
      WhereIn(d.pending, Matching(r.email, r.code, r.now), matched[0]);
    }
  }

  /** An address never owns two accounts at once. */
  lemma {:induction false} OneAccountPerAddress(d: Desk, rs: seq<Request>)
    requires Inv(d) && OneAccountEach(d) && Legal(d, rs)
    ensures OneAccountEach(After(d, rs))
    decreases |rs|
  {
    if rs == [] {
    } else {
      ServeKeepsInv(d, rs[0]);
      ServeKeepsOneAccount(d, rs[0]);
      OneAccountPerAddress(Serve(d, rs[0]), rs[1..]);
    }
  }

  // ---------------------------------------------------------------- at most eight codes in the air

  function LiveCount(d: Desk, email: string, at: int): nat {
    |Where(d.pending, Unexpired(email, at))|
  }

  lemma InsertedWithinCeiling(pending: Table, source: Source, now: int, id: nat, code: string, email: string)
    requires |Where(pending, Unexpired(email, now))| <= PENDING_REGISTRATION_MAX_ACTIVE
    ensures |Where(Inserted(pending, source, now, id, code).0, Unexpired(email, now))|
            <= PENDING_REGISTRATION_MAX_ACTIVE
  {
    var sweep := NotExpired(source.Email(), now);
    var kept := Where(pending, sweep);
    WhereKeeps(pending, Unexpired(email, now), sweep);
    var (pending', outcome) := Inserted(pending, source, now, id, code);
    if outcome.Issued? {
      var live := Where(pending, Unexpired(source.Email(), now));
      var draft := if source.Again? then CloneOf(live[|live| - 1]) else source.draft;
      var row := Candidate(id, draft, Pending(id, code), now + EMAIL_VERIFICATION_TTL_MS, 0, now);
      WhereInserted(kept, row, Unexpired(email, now));
      if source.Again? {
        WhereIn(pending, Unexpired(source.Email(), now), live[|live| - 1]);
      }
    }
  }

  lemma ServeWithinCeiling(d: Desk, r: Request, email: string)
    requires Allowed(d, r) && LiveCount(d, email, d.now) <= PENDING_REGISTRATION_MAX_ACTIVE
    ensures LiveCount(Serve(d, r), email, r.now) <= PENDING_REGISTRATION_MAX_ACTIVE
  {
    WhereKeeps(d.pending, Unexpired(email, r.now), Unexpired(email, d.now));
    match r
    case Register(draft, now, id, code) => InsertedWithinCeiling(d.pending, Fresh(draft), now, id, code, email);
    case Resend(address, now, id, code, _) => InsertedWithinCeiling(d.pending, Again(address), now, id, code, email);
    case Verify(_, _, _, _) => VerifyAddsNoneLive(d, r, email);
    case Retire(now) =>
      WhereShrinks(d.pending, Unexpired(email, now), ExpiresFrom(now - EXPIRED_AUTH_RECORD_GRACE_MS));
    case Close(_, _) =>
  }

  lemma VerifyAddsNoneLive(d: Desk, r: Request, email: string)
    requires r.Verify?
    ensures |Where(Serve(d, r).pending, Unexpired(email, r.now))| <= |Where(d.pending, Unexpired(email, r.now))|
  {
    WhereCharged(d.pending, r.email, r.now, Unexpired(email, r.now));
    WhereShrinks(d.pending, Unexpired(email, r.now), NotOfAddress(r.email));
  }

  /** At every instant from the last request on, an address holds at most eight unexpired candidates. */
  lemma {:induction false} AtMostEightLive(d: Desk, rs: seq<Request>, email: string, at: int)
    requires Legal(d, rs) && LiveCount(d, email, d.now) <= PENDING_REGISTRATION_MAX_ACTIVE
    requires at >= After(d, rs).now
    ensures LiveCount(After(d, rs), email, at) <= PENDING_REGISTRATION_MAX_ACTIVE == 8
    decreases |rs|
  {
    if rs == [] {
      WhereKeeps(d.pending, Unexpired(email, at), Unexpired(email, d.now));
    } else {
      ServeWithinCeiling(d, rs[0], email);
      AtMostEightLive(Serve(d, rs[0]), rs[1..], email, at);
    }
  }

  // ---------------------------------------------------------------- ambiguity is not resolved by resending

  function Group(d: Desk, email: string): Table {
    Where(d.pending, OfAddress(email))
  }

  function DailyCount(d: Desk, email: string, now: int): nat {
    R.CountOf(d.counters, R.Bucket(R.VerifyResendDaily, email, R.WindowStart(R.VerifyResendDaily, now)))
  }

  /** An insert for one address leaves the groups of all others. */
  lemma InsertedLeavesOthers(pending: Table, address: string, now: int, id: nat, code: string, email: string)
    requires address != email
    ensures Where(Inserted(pending, Again(address), now, id, code).0, OfAddress(email)) == Where(pending, OfAddress(email))
  {
    var kept := Where(pending, NotExpired(address, now));
    var live := Where(pending, Unexpired(address, now));
    WhereKeeps(pending, OfAddress(email), NotExpired(address, now));
    var (pending', outcome) := Inserted(pending, Again(address), now, id, code);
    if outcome.Issued? {
      var newest := live[|live| - 1];
      WhereIn(pending, Unexpired(address, now), newest);
      var row := Candidate(id, CloneOf(newest), Pending(id, code), now + EMAIL_VERIFICATION_TTL_MS, 0, now);
      WhereInsertedOther(kept, row, OfAddress(email));
    }
  }

  lemma ResendLeavesAmbiguousGroup(d: Desk, r: Request, email: string)
    requires Allowed(d, r) && r.Resend? && |Identities(d.pending, email)| > 1
    ensures Group(Serve(d, r), email) == Group(d, email)
  {
    if r.email != email {
      InsertedLeavesOthers(d.pending, r.email, r.now, r.id, r.code, email);
    }
  }

  /** Any number of resends, for any addresses, leave an ambiguous group exactly as it is. */
  lemma {:induction false} AmbiguousStaysAmbiguous(d: Desk, rs: seq<Request>, email: string)
    requires Legal(d, rs) && (forall r :: r in rs ==> r.Resend?) && |Identities(d.pending, email)| > 1
    ensures Group(After(d, rs), email) == Group(d, email)
    ensures |Identities(After(d, rs).pending, email)| > 1
    decreases |rs|
  {
    if rs == [] {
    } else {
      assert rs[0] in rs;
      ResendLeavesAmbiguousGroup(d, rs[0], email);
      IdentitiesOfGroup(d.pending, Serve(d, rs[0]).pending, email);
      AmbiguousStaysAmbiguous(Serve(d, rs[0]), rs[1..], email);
    }
  }

  /**
   * A resend to an ambiguous address gives its daily unit back: the table is untouched, and the count
   * of the current window moves only when the cooldown let the call through and either the limit was
   * already spent, so that the call was refused before the group was looked at, or the refund threw.
   */
  lemma AmbiguousResendCostsNothing(d: Desk, email: string, now: int, id: nat, code: string, refunds: bool)
    requires |Identities(d.pending, email)| > 1
    ensures var d' := Resent(d, email, now, id, code, refunds);
            && d'.pending == d.pending
            && (DailyCount(d', email, now) == DailyCount(d, email, now) <==>
                !R.Consumed(d.counters, R.VerifyResendCooldown, email, now).1.allowed
                || (refunds && DailyCount(d, email, now) < R.RuleOf(R.VerifyResendDaily).limit))
  {
  }

  /** With the limit of the day spent, one more resend the cooldown lets through counts on and gives nothing back. */
  lemma SpentDayIsNotGivenBack(d: Desk, email: string, now: int, id: nat, code: string, refunds: bool)
    requires |Identities(d.pending, email)| > 1
    requires R.Consumed(d.counters, R.VerifyResendCooldown, email, now).1.allowed
    requires DailyCount(d, email, now) >= R.RuleOf(R.VerifyResendDaily).limit
    ensures DailyCount(Resent(d, email, now, id, code, refunds), email, now) == DailyCount(d, email, now) + 1
  {
  }

  // ---------------------------------------------------------------- five misses retire a code

  /** The request is a guess that matched nothing, tested against the stored candidate `id`. */
  predicate Misses(d: Desk, r: Request, id: nat) {
    && r.Verify? && Where(d.pending, Matching(r.email, r.code, r.now)) == []
    && exists c :: c in d.pending && c.id == id && Guessable(r.email, r.now)(c)
  }

  function MissCount(d: Desk, rs: seq<Request>, id: nat): nat
    requires Legal(d, rs)
    decreases |rs|
  {
    if rs == [] then 0
    else (if Misses(d, rs[0], id) then 1 else 0) + MissCount(Serve(d, rs[0]), rs[1..], id)
  }

  lemma SameId(s: Table, a: Candidate, b: Candidate)
    requires DistinctIds(s) && a in s && b in s && a.id == b.id
    ensures a == b
  {
  }

  /** The verify case: charged with the whole group, or left alone with the whole group. */
  lemma GuessIsCharged(d: Desk, r: Request, c: Candidate, later: Candidate)
    requires Inv(d) && Allowed(d, r) && r.Verify? && c in d.pending && later in Serve(d, r).pending && later.id == c.id
    ensures later == if Misses(d, r, c.id) then c.(attemptCount := c.attemptCount + 1) else c
  {
    assert RowOk(d, c);
    MissesOf(d, r, c);
    if Guessable(r.email, r.now)(c) {
      GuessableFirst(d.pending, r.email, r.now, c);
    }
    if later in d.pending {
      SameId(d.pending, later, c);
    }
    WhereIn(d.pending, NotOfAddress(r.email), later);
    if later in ChargeAll(d.pending, r.email, r.now) {
      ChargedOrigin(d, r.email, r.now, c, later);
    }
  }

  lemma ChargedOrigin(d: Desk, email: string, now: int, c: Candidate, later: Candidate)
    requires Inv(d) && c in d.pending && later in ChargeAll(d.pending, email, now) && later.id == c.id
    ensures later == Charge(c, email, now)
  {
    var charged := ChargeAll(d.pending, email, now);
    var i :| 0 <= i < |charged| && charged[i] == later;
    SameId(d.pending, d.pending[i], c);
  }

  /** One request: a surviving row counts its miss exactly, and the clamp at five never cuts one off. */
  lemma MissIsCharged(d: Desk, r: Request, c: Candidate, later: Candidate)
    requires Inv(d) && Allowed(d, r) && c in d.pending && later in Serve(d, r).pending && later.id == c.id
    ensures Same(c, later)
    ensures later.attemptCount == c.attemptCount + if Misses(d, r, c.id) then 1 else 0
  {
    assert RowOk(d, c);
    if r.Verify? {
      GuessIsCharged(d, r, c, later);
    } else if later in d.pending {
      SameId(d.pending, later, c);
    } else {
      UnwrittenRow(d, r, later);
    }
  }

  lemma MissesOf(d: Desk, r: Request, c: Candidate)
    requires Inv(d) && c in d.pending && r.Verify?
    ensures Misses(d, r, c.id) <==>
            Guessable(r.email, r.now)(c) && Where(d.pending, Matching(r.email, r.code, r.now)) == []
  {
    forall x | x in d.pending && x.id == c.id
      ensures x == c
    {
      SameId(d.pending, x, c);
    }
  }

  lemma GuessableFirst(s: Table, email: string, now: int, c: Candidate)
    requires c in s && Guessable(email, now)(c)
    ensures Where(s, Guessable(email, now)) != []
  {
    WhereIn(s, Guessable(email, now), c);
  }

  /** Outside `verify` a stored row is an old row unchanged, or a new one under a fresh id. */
  lemma UnwrittenRow(d: Desk, r: Request, later: Candidate)
    requires Inv(d) && Allowed(d, r) && !r.Verify? && later in Serve(d, r).pending && later !in d.pending
    ensures later.id !in d.used
  {
    match r
    case Register(draft, now, id, code) => InsertedOrigin(d, Fresh(draft), now, id, code, later);
    case Resend(email, now, id, code, _) => InsertedOrigin(d, Again(email), now, id, code, later);
    case Retire(now) => WhereIn(d.pending, ExpiresFrom(now - EXPIRED_AUTH_RECORD_GRACE_MS), later);
    case Close(_, _) =>
  }

  predicate Present(d: Desk, id: nat) {
    exists c :: c in d.pending && c.id == id
  }

  lemma GoneForGood(d: Desk, r: Request, id: nat)
    requires Inv(d) && Allowed(d, r) && id in d.used && !Present(d, id)
    ensures id in Serve(d, r).used && !Present(Serve(d, r), id)
  {
    if Present(Serve(d, r), id) {
      var c :| c in Serve(d, r).pending && c.id == id;
      RowsAreNeverRewritten(d, r, c);
    }
  }

  lemma {:induction false} NoMissesOnceGone(d: Desk, rs: seq<Request>, id: nat)
    requires Inv(d) && Legal(d, rs) && id in d.used && !Present(d, id)
    ensures MissCount(d, rs, id) == 0 && !Present(After(d, rs), id)
    decreases |rs|
  {
    if rs == [] {
    } else {
      ServeKeepsInv(d, rs[0]);
      GoneForGood(d, rs[0], id);
      NoMissesOnceGone(Serve(d, rs[0]), rs[1..], id);
    }
  }

  /**
   * Over any run a candidate is charged once per guess that was tested against it and matched
   * nothing, five times at most; while it is stored its counter says exactly how often.
   */
  lemma {:induction false} MissesAreCounted(d: Desk, rs: seq<Request>, c: Candidate)
    requires Inv(d) && Legal(d, rs) && c in d.pending
    ensures c.attemptCount + MissCount(d, rs, c.id) <= EMAIL_VERIFICATION_MAX_ATTEMPTS
    ensures forall later :: later in After(d, rs).pending && later.id == c.id ==>
                              later.attemptCount == c.attemptCount + MissCount(d, rs, c.id)
    decreases |rs|
  {
    assert RowOk(d, c);
    if rs == [] {
      forall later | later in d.pending && later.id == c.id
        ensures later == c
      {
        SameId(d.pending, later, c);
      }
    } else {
      var d' := Serve(d, rs[0]);
      ServeKeepsInv(d, rs[0]);
      if Present(d', c.id) {
        var c' :| c' in d'.pending && c'.id == c.id;
        MissIsCharged(d, rs[0], c, c');
        MissesAreCounted(d', rs[1..], c');
      } else {
        if rs[0].Verify? {
          MissesOf(d, rs[0], c);
        }
        assert c.id in d'.used;
        NoMissesOnceGone(d', rs[1..], c.id);
      }
    }
  }

  /** A candidate that missed five times is never matched again, so no account is opened from it. */
  lemma FiveMissesRetire(d: Desk, rs: seq<Request>, c: Candidate, r: Request)
    requires Inv(d) && Legal(d, rs) && c in d.pending
    requires c.attemptCount + MissCount(d, rs, c.id) >= EMAIL_VERIFICATION_MAX_ATTEMPTS
    requires r.Verify?
    ensures forall m :: m in Where(After(d, rs).pending, Matching(r.email, r.code, r.now)) ==> m.id != c.id
  {
    MissesAreCounted(d, rs, c);
    forall m | m in Where(After(d, rs).pending, Matching(r.email, r.code, r.now))
      ensures m.id != c.id
    {
      WhereIn(After(d, rs).pending, Matching(r.email, r.code, r.now), m);
      assert Guessable(r.email, r.now)(m);
    }
  }
}
