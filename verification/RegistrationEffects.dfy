/**
 * What each registration request does: when a code opens an account and which, when a candidate is
 * inserted and what it carries, what becomes of every stored row, and what a request costs.
 */
module RegistrationEffects {
  import opened Options
  import opened Candidates
  import opened Registration
  import opened RegistrationRuns
  import R = RateLimits
  import Ceilings = RegistrationCeiling

  // ---------------------------------------------------------------- a guess

  /** A stored candidate the guess is tested against: of the address, unexpired, with fewer than five misses. */
  predicate Tested(c: Candidate, r: Request)
    requires r.Verify?
  {
    c.draft.email == r.email && c.expiresAt > r.now && c.attemptCount < 5
  }

  /** And its code is the one presented. */
  predicate Right(c: Candidate, r: Request)
    requires r.Verify?
  {
    Tested(c, r) && c.codeHash == Pending(c.id, r.code)
  }

  predicate SomeRight(d: Desk, r: Request)
    requires r.Verify?
  {
    exists c :: c in d.pending && Right(c, r)
  }

  /** The first right candidate in the order they were created. */
  predicate IsFirstRight(d: Desk, r: Request, c: Candidate)
    requires r.Verify?
  {
    && c in d.pending && Right(c, r)
    && forall x :: x in d.pending && Right(x, r) ==> x == c || Before(c, x)
  }

  lemma MatchedMeans(d: Desk, r: Request)
    requires Inv(d) && r.Verify?
    ensures var matched := Where(d.pending, Matching(r.email, r.code, r.now));
            && (matched != [] <==> SomeRight(d, r))
            && (matched != [] ==> IsFirstRight(d, r, matched[0]))
            && (matched != [] ==> Where(d.pending, Guessable(r.email, r.now)) != [])
  {
    var p := Matching(r.email, r.code, r.now);
    var matched := Where(d.pending, p);
    forall x
      ensures x in matched <==> x in d.pending && Right(x, r)
    {
      WhereIn(d.pending, p, x);
      assert Guessable(r.email, r.now)(x) <==> Tested(x, r);
    }
    if matched != [] {
      assert matched[0] in matched;
      WhereIn(d.pending, Guessable(r.email, r.now), matched[0]);
      WhereSorted(d.pending, p);
    }
  }

  /** The account is the candidate's, in every field, active from this request on. */
  predicate IsAccountOf(a: Account, c: Candidate, r: Request)
    requires r.Verify?
  {
    CarriesDraft(a, c.draft) && a.id == r.id && a.emailVerifiedAt == r.now
  }

  /** The request opens an account: the code is right for some candidate it is tested against, and the address is free. */
  predicate Succeeds(d: Desk, r: Request) {
    r.Verify? && SomeRight(d, r) && !Owns(d.accounts, r.email)
  }

  /**
   * A guess opens an account exactly when it is right for a candidate it is tested against and nobody owns
   * the address; then it is the account of the first such candidate, and otherwise no account changes.
   */
  lemma VerifyOpensIff(d: Desk, r: Request)
    requires Inv(d) && Allowed(d, r) && r.Verify?
    ensures Verified(d.pending, d.accounts, r.email, r.code, r.now, r.id).2 == if Succeeds(d, r) then Some(r.id) else None
    ensures Succeeds(d, r) ==>
              exists a, c :: && IsFirstRight(d, r, c) && IsAccountOf(a, c, r) && a !in d.accounts
                             && Serve(d, r).accounts == d.accounts + {a}
    ensures !Succeeds(d, r) ==> Serve(d, r).accounts == d.accounts
  {
    MatchedMeans(d, r);
    if Succeeds(d, r) {
      var c := Where(d.pending, Matching(r.email, r.code, r.now))[0];
      var a := AccountOf(c, r.id, r.now);
      assert IsFirstRight(d, r, c) && IsAccountOf(a, c, r) && a.email == r.email;
    }
  }

  /** The other requests open none; closing takes the accounts of its address and no other. */
  lemma OthersOpenNone(d: Desk, r: Request, a: Account)
    requires Allowed(d, r) && !r.Verify?
    ensures a in Serve(d, r).accounts <==> a in d.accounts && !(r.Close? && a.email == r.email)
  {
  }

  // ---------------------------------------------------------------- an insert

  predicate IsLive(d: Desk, email: string, now: int, c: Candidate) {
    c in d.pending && c.draft.email == email && c.expiresAt > now
  }

  /** The live candidate of the address that was created last. */
  ghost predicate IsNewestLive(d: Desk, email: string, now: int, c: Candidate) {
    IsLive(d, email, now, c) && forall x :: IsLive(d, email, now, x) ==> x == c || Before(x, c)
  }

  lemma LiveIs(d: Desk, email: string, now: int)
    requires Inv(d)
    ensures var live := Where(d.pending, Unexpired(email, now));
            && (forall c :: c in live <==> IsLive(d, email, now, c))
            && (live != [] ==> IsNewestLive(d, email, now, live[|live| - 1]))
  {
    var live := Where(d.pending, Unexpired(email, now));
    forall c
      ensures c in live <==> IsLive(d, email, now, c)
    {
      WhereIn(d.pending, Unexpired(email, now), c);
    }
    WhereSorted(d.pending, Unexpired(email, now));
  }

  /** The limiters and the address let the request through, and the group has room for one more. */
  predicate Issues(d: Desk, r: Request)
    requires r.Register? || r.Resend?
  {
    var email := Ceilings.SourceOf(r).Email();
    && Ceilings.ReachesInsert(d, r) && LiveCount(d, email, r.now) < 8
    && (r.Resend? ==> |Identities(d.pending, email)| <= 1 && LiveCount(d, email, r.now) > 0)
  }

  /** The row a request inserts: its own draft, or the newest live candidate's, with a code of its own for ten minutes. */
  ghost predicate IsIssued(d: Desk, r: Request, c: Candidate)
    requires r.Register? || r.Resend?
  {
    && c.id == r.id && c.codeHash == Pending(r.id, r.code) && c.attemptCount == 0
    && c.createdAt == r.now && c.expiresAt == r.now + 600_000
    && if r.Register? then c.draft == r.draft
       else exists newest :: IsNewestLive(d, r.email, r.now, newest) && c.draft == newest.draft
  }

  /** The mail carries the code of the row, in the row's own language. */
  predicate MailFits(outcome: CandidateOutcome, c: Candidate) {
    outcome.Issued? && c.codeHash == Pending(c.id, outcome.code) && outcome.locale == c.draft.locale
  }

  /** What an insert answers, and that it inserts exactly when it issues a code. */
  lemma InsertedIff(d: Desk, source: Source, now: int, id: nat, code: string)
    requires Inv(d) && id !in d.used
    ensures var (pending, outcome) := Inserted(d.pending, source, now, id, code);
            var n := LiveCount(d, source.Email(), now);
            && (outcome == AmbiguousSource <==> source.Again? && |Identities(d.pending, source.Email())| > 1)
            && (outcome == Ceiling <==> outcome != AmbiguousSource && n >= 8)
            && (outcome == NoLiveCandidate <==> outcome != AmbiguousSource && source.Again? && n == 0)
            && (outcome.Issued? <==> exists c :: c in pending && c.id == id)
            && (outcome.Issued? ==> exists c :: c in pending && c.id == id && MailFits(outcome, c))
  {
    var kept := Where(d.pending, NotExpired(source.Email(), now));
    forall c
      ensures c in kept ==> c in d.pending && c.id != id
      ensures c in d.pending ==> c.id != id
    {
      WhereIn(d.pending, NotExpired(source.Email(), now), c);
      assert c in d.pending ==> RowOk(d, c);
    }
    var (pending, outcome) := Inserted(d.pending, source, now, id, code);
    if outcome.Issued? {
      var row :| pending == InsertSorted(kept, row) && row.id == id && MailFits(outcome, row);
      InsertedIn(kept, row, row);
    }
  }

  /** A candidate is inserted exactly when the request is let through and there is room, and this is the one. */
  lemma IssuesIff(d: Desk, r: Request)
    requires Inv(d) && Allowed(d, r) && (r.Register? || r.Resend?)
    ensures Issues(d, r) <==> Present(Serve(d, r), r.id)
    ensures forall c :: c in Serve(d, r).pending && c.id == r.id ==> IsIssued(d, r, c)
  {
    var source := Ceilings.SourceOf(r);
    InsertedIff(d, source, r.now, r.id, r.code);
    NotThereBefore(d, r.id);
    forall c | c in Serve(d, r).pending && c.id == r.id
      ensures IsIssued(d, r, c)
    {
      IssuedIs(d, r, c);
    }
  }

  lemma NotThereBefore(d: Desk, id: nat)
    requires Inv(d) && id !in d.used
    ensures !Present(d, id)
  {
    forall c | c in d.pending
      ensures c.id != id
    {
      assert RowOk(d, c);
    }
  }

  lemma IssuedIs(d: Desk, r: Request, c: Candidate)
    requires Inv(d) && Allowed(d, r) && (r.Register? || r.Resend?)
    requires c in Serve(d, r).pending && c.id == r.id && !Present(d, r.id)
    ensures IsIssued(d, r, c)
  {
    assert c !in d.pending;
    if r.Register? {
      InsertedOrigin(d, Fresh(r.draft), r.now, r.id, r.code, c);
    } else {
      InsertedOrigin(d, Again(r.email), r.now, r.id, r.code, c);
      CloneIsOfTheNewest(d, r, c);
    }
  }

  lemma CloneIsOfTheNewest(d: Desk, r: Request, c: Candidate)
    requires Inv(d) && r.Resend? && c !in d.pending && c in Inserted(d.pending, Again(r.email), r.now, r.id, r.code).0
    ensures exists newest :: IsNewestLive(d, r.email, r.now, newest) && c.draft == newest.draft
  {
    var (pending, outcome) := Inserted(d.pending, Again(r.email), r.now, r.id, r.code);
    var live := Where(d.pending, Unexpired(r.email, r.now));
    var kept := Where(d.pending, NotExpired(r.email, r.now));
    WhereIn(d.pending, NotExpired(r.email, r.now), c);
    LiveIs(d, r.email, r.now);
    assert outcome.Issued?;
    var newest := live[|live| - 1];
    InsertedIn(kept, Candidate(r.id, CloneOf(newest), Pending(r.id, r.code), r.now + EMAIL_VERIFICATION_TTL_MS, 0, r.now), c);
    assert CloneOf(newest) == newest.draft;
  }

  // ---------------------------------------------------------------- every stored row

  /** The insert sweeps the expired rows of its address, unless it refuses an ambiguous group. */
  predicate Sweeps(d: Desk, r: Request) {
    && (r.Register? || r.Resend?) && Ceilings.ReachesInsert(d, r)
    && (r.Resend? ==> |Identities(d.pending, r.email)| <= 1)
  }

  /** What becomes of a stored candidate. */
  function Later(d: Desk, r: Request, c: Candidate): Option<Candidate> {
    if Sweeps(d, r) && c.draft.email == Ceilings.SourceOf(r).Email() && c.expiresAt <= r.now then None
    else if Succeeds(d, r) && c.draft.email == r.email then None
    else if r.Verify? && !SomeRight(d, r) && Tested(c, r) then Some(c.(attemptCount := c.attemptCount + 1))
    else if r.Retire? && c.expiresAt < r.now - 86_400_000 then None
    else Some(c)
  }

  lemma InsertedLeaves(pending: Table, source: Source, now: int, id: nat, code: string, c: Candidate)
    requires c in pending && c.id != id
    ensures c in Inserted(pending, source, now, id, code).0
            <==> Ambiguous(pending, source) || !(c.draft.email == source.Email() && c.expiresAt <= now)
  {
    var kept := Where(pending, NotExpired(source.Email(), now));
    WhereIn(pending, NotExpired(source.Email(), now), c);
    var (pending', outcome) := Inserted(pending, source, now, id, code);
    if outcome.Issued? {
      var row :| pending' == InsertSorted(kept, row) && row.id == id;
      InsertedIn(kept, row, c);
    }
  }

  lemma InsertLeaves(d: Desk, r: Request, c: Candidate)
    requires Inv(d) && Allowed(d, r) && (r.Register? || r.Resend?) && c in d.pending
    ensures c in Serve(d, r).pending <==> Later(d, r, c) == Some(c)
  {
    assert RowOk(d, c);
    InsertedLeaves(d.pending, Ceilings.SourceOf(r), r.now, r.id, r.code, c);
    if r.Register? {
      RegisterTable(d, r);
    } else {
      ResendTable(d, r);
    }
  }

  lemma RegisterTable(d: Desk, r: Request)
    requires r.Register?
    ensures Serve(d, r).pending
            == if Ceilings.ReachesInsert(d, r) then Inserted(d.pending, Fresh(r.draft), r.now, r.id, r.code).0 else d.pending
  {
  }

  lemma ResendTable(d: Desk, r: Request)
    requires r.Resend?
    ensures Serve(d, r).pending
            == if Ceilings.ReachesInsert(d, r) then Inserted(d.pending, Again(r.email), r.now, r.id, r.code).0 else d.pending
  {
  }

  lemma VerifyLeaves(d: Desk, r: Request, c: Candidate)
    requires Inv(d) && Allowed(d, r) && r.Verify? && c in d.pending
    ensures Later(d, r, c).Some? ==> Later(d, r, c).value in Serve(d, r).pending
    ensures Later(d, r, c).None? ==> forall x :: x in Serve(d, r).pending ==> x.draft.email != r.email
  {
    MatchedMeans(d, r);
    WhereIn(d.pending, NotOfAddress(r.email), c);
    ChargedIn(d.pending, r.email, r.now, c);
    if Tested(c, r) {
      WhereIn(d.pending, Guessable(r.email, r.now), c);
    }
    if Succeeds(d, r) {
      forall x | x in Serve(d, r).pending
        ensures x.draft.email != r.email
      {
        WhereIn(d.pending, NotOfAddress(r.email), x);
      }
    }
  }

  /**
   * What every request does to every stored candidate: an insert sweeps the expired ones of its address, a
   * right guess takes its address's all, a wrong one charges those it was tested against, retention takes
   * what has been expired for a day; and otherwise a row stays as it is.
   */
  lemma RowsAfter(d: Desk, r: Request, c: Candidate)
    requires Inv(d) && Allowed(d, r) && c in d.pending
    ensures Later(d, r, c).Some? <==> Present(Serve(d, r), c.id)
    ensures Later(d, r, c).Some? ==> Later(d, r, c).value in Serve(d, r).pending
  {
    if r.Register? || r.Resend? {
      InsertLeaves(d, r, c);
    } else if r.Verify? {
      VerifyLeaves(d, r, c);
    } else if r.Retire? {
      WhereIn(d.pending, ExpiresFrom(r.now - EXPIRED_AUTH_RECORD_GRACE_MS), c);
    }
    if Later(d, r, c).None? && Present(Serve(d, r), c.id) {
      var x :| x in Serve(d, r).pending && x.id == c.id;
      StrangerIsNotThere(d, r, c, x);
    }
  }

  /** Nothing else may carry the id of a row that is gone. */
  lemma StrangerIsNotThere(d: Desk, r: Request, c: Candidate, x: Candidate)
    requires Inv(d) && Allowed(d, r) && c in d.pending && x in Serve(d, r).pending && x.id == c.id
    ensures Later(d, r, c).Some?
  {
    assert RowOk(d, c);
    MissIsCharged(d, r, c, x);
    if Later(d, r, c).None? {
      if r.Verify? {
        VerifyLeaves(d, r, c);
      } else if r.Retire? {
        WhereIn(d.pending, ExpiresFrom(r.now - EXPIRED_AUTH_RECORD_GRACE_MS), x);
      } else {
        InsertLeaves(d, r, c);
      }
    }
  }

  // ---------------------------------------------------------------- the code that was sent

  /** No request of the run opens an account of the address. */
  ghost predicate NoneOpens(d: Desk, rs: seq<Request>, email: string)
    requires Legal(d, rs)
    decreases |rs|
  {
    rs == [] || (!(Succeeds(d, rs[0]) && rs[0].email == email) && NoneOpens(Serve(d, rs[0]), rs[1..], email))
  }

  lemma {:induction false} ClockGoesOn(d: Desk, rs: seq<Request>)
    requires Legal(d, rs)
    ensures d.now <= After(d, rs).now
    decreases |rs|
  {
    if rs == [] {
    } else {
      ClockGoesOn(Serve(d, rs[0]), rs[1..]);
    }
  }

  lemma UnexpiredStays(d: Desk, r: Request, c: Candidate)
    requires Inv(d) && Allowed(d, r) && c in d.pending && c.expiresAt > r.now
    requires !(Succeeds(d, r) && r.email == c.draft.email)
    ensures Later(d, r, c).Some? && Later(d, r, c).value.draft == c.draft
    ensures Later(d, r, c).value.id == c.id && Later(d, r, c).value.codeHash == c.codeHash
    ensures Later(d, r, c).value.expiresAt == c.expiresAt
  {
  }

  lemma {:induction false} CandidateStays(d: Desk, rs: seq<Request>, c: Candidate) returns (later: Candidate)
    requires Inv(d) && Legal(d, rs) && c in d.pending && c.expiresAt > After(d, rs).now
    requires NoneOpens(d, rs, c.draft.email)
    ensures later in After(d, rs).pending && later.id == c.id && later.draft == c.draft
    ensures later.codeHash == c.codeHash && later.expiresAt == c.expiresAt
    decreases |rs|
  {
    if rs == [] {
      later := c;
    } else {
      var d' := Serve(d, rs[0]);
      ClockGoesOn(d', rs[1..]);
      UnexpiredStays(d, rs[0], c);
      RowsAfter(d, rs[0], c);
      ServeKeepsInv(d, rs[0]);
      later := CandidateStays(d', rs[1..], Later(d, rs[0], c).value);
    }
  }

  /**
   * The code that was sent works: after a registration or a resend that issued one, and any requests that
   * open no account of the address, presenting it within ten minutes and fewer than five misses leaves the
   * address with an account.
   */
  lemma SentCodeWorks(d: Desk, r: Request, rs: seq<Request>, v: Request)
    requires Inv(d) && Allowed(d, r) && (r.Register? || r.Resend?) && Issues(d, r)
    requires Legal(Serve(d, r), rs) && NoneOpens(Serve(d, r), rs, Ceilings.SourceOf(r).Email())
    requires MissCount(Serve(d, r), rs, r.id) < 5
    requires v.Verify? && v.email == Ceilings.SourceOf(r).Email() && v.code == r.code
    requires Allowed(After(Serve(d, r), rs), v) && v.now < r.now + 600_000
    ensures Owns(Serve(After(Serve(d, r), rs), v).accounts, v.email)
  {
    var d' := Serve(d, r);
    ServeKeepsInv(d, r);
    IssuesIff(d, r);
    var c :| c in d'.pending && c.id == r.id;
    assert IsIssued(d, r, c);
    LegalKeepsInv(d', rs);
    var later := CandidateStays(d', rs, c);
    MissesAreCounted(d', rs, c);
    var end := After(d', rs);
    assert Right(later, v);
    VerifyOpensIff(end, v);
    if Succeeds(end, v) {
      var a :| a in Serve(end, v).accounts && a.email == v.email;
    }
  }

  // ---------------------------------------------------------------- what a request costs

  function CooldownCount(d: Desk, email: string, now: int): nat {
    R.CountOf(d.counters, R.Bucket(R.VerifyResendCooldown, email, R.WindowStart(R.VerifyResendCooldown, now)))
  }

  function RegisterCount(d: Desk, email: string, now: int): nat {
    R.CountOf(d.counters, R.Bucket(R.RegisterEmail, email, R.WindowStart(R.RegisterEmail, now)))
  }

  /**
   * What a resend costs, whatever becomes of it: always one call of the cooldown; one unit of the day
   * exactly when the cooldown let it through, unless the day had room, the group was ambiguous and the
   * refund went through. A full group or one without a live candidate keeps its unit.
   */
  lemma ResendCosts(d: Desk, r: Request)
    requires Allowed(d, r) && r.Resend?
    ensures CooldownCount(Serve(d, r), r.email, r.now) == CooldownCount(d, r.email, r.now) + 1
    ensures var daily := DailyCount(d, r.email, r.now);
            DailyCount(Serve(d, r), r.email, r.now)
            == if CooldownCount(d, r.email, r.now) >= 1 then daily
               else if daily < 5 && |Identities(d.pending, r.email)| > 1 && r.refunds then daily
               else daily + 1
    ensures RegisterCount(Serve(d, r), r.email, r.now) == RegisterCount(d, r.email, r.now)
  {
  }

  /** A registration costs one unit of its own, refused or not, and none of a resend's. */
  lemma RegisterCosts(d: Desk, r: Request)
    requires Allowed(d, r) && r.Register?
    ensures RegisterCount(Serve(d, r), r.draft.email, r.now) == RegisterCount(d, r.draft.email, r.now) + 1
    ensures DailyCount(Serve(d, r), r.draft.email, r.now) == DailyCount(d, r.draft.email, r.now)
    ensures CooldownCount(Serve(d, r), r.draft.email, r.now) == CooldownCount(d, r.draft.email, r.now)
    ensures Ceilings.ReachesInsert(d, r) <==>
            RegisterCount(d, r.draft.email, r.now) < 3 && !Owns(d.accounts, r.draft.email)
  {
  }

  /** And it reaches the insert exactly within both limits. */
  lemma ResendReachesIff(d: Desk, r: Request)
    requires Allowed(d, r) && r.Resend?
    ensures Ceilings.ReachesInsert(d, r) <==>
            CooldownCount(d, r.email, r.now) < 1 && DailyCount(d, r.email, r.now) < 5
  {
  }

  /** Retention takes the counters whose window is over and no other; closing and guessing touch none. */
  lemma RetireSweepsEndedWindows(d: Desk, r: Request, b: R.Bucket)
    requires Allowed(d, r) && (r.Retire? || r.Close? || r.Verify?)
    ensures b in Serve(d, r).counters
            <==> b in d.counters && (r.Retire? ==> r.now < b.windowStart + R.RuleOf(b.scope).windowMs)
    ensures b in Serve(d, r).counters ==> Serve(d, r).counters[b] == d.counters[b]
  {
  }
}
