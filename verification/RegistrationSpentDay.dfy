/**
 * A run from the empty state to an ambiguous address whose daily limit is spent: there a further
 * resend costs a unit that is not given back.
 */
module RegistrationSpentDay {
  import Division
  import opened Options
  import opened Candidates
  import opened Registration
  import Runs = RegistrationRuns
  import R = RateLimits
  import opened Sizes

  const MINUTE := 60_000

  /** One party registers, resends five times a minute apart, and another party registers the same address. */
  function FiveResends(draft: Draft, n: nat): seq<Request> {
    if n == 0 then [Register(draft, 0, 0, "")]
    else FiveResends(draft, n - 1) + [Resend(draft.email, n * MINUTE, n, "", true)]
  }

  function SpentDay(mine: Draft, theirs: Draft): seq<Request> {
    FiveResends(mine, 5) + [Register(theirs, 6 * MINUTE, 6, "")]
  }

  // ---------------------------------------------------------------- small facts

  lemma {:induction false} LegalOneMore(d: Desk, rs: seq<Request>, r: Request)
    requires Legal(d, rs) && Allowed(After(d, rs), r)
    ensures Legal(d, rs + [r]) && After(d, rs + [r]) == Serve(After(d, rs), r)
    decreases |rs|
  {
    if rs == [] {
      assert [] + [r] == [r];
      assert Legal(Serve(d, r), [r][1..]);
    } else {
      LegalOneMore(Serve(d, rs[0]), rs[1..], r);
      assert (rs + [r])[1..] == rs[1..] + [r];
    }
  }

  lemma {:induction false} WhereAll(s: Table, p: Candidate -> bool)
    requires forall c :: c in s ==> p(c)
    ensures Where(s, p) == s
  {
    if s == [] {
    } else {
      assert s[0] in s;
      WhereAll(s[1..], p);
    }
  }

  lemma {:induction false} InsertedLength(s: Table, c: Candidate)
    ensures |InsertSorted(s, c)| == |s| + 1
  {
    if s == [] || Before(c, s[0]) {
    } else {
      InsertedLength(s[1..], c);
    }
  }

  lemma FirstDay(now: int)
    requires 0 <= now < R.ONE_DAY_MS
    ensures R.WindowStart(R.RegisterEmail, now) == 0 && R.WindowStart(R.VerifyResendDaily, now) == 0
  {
  }

  lemma WholeMinute(k: nat)
    ensures R.WindowStart(R.VerifyResendCooldown, k * MINUTE) == k * MINUTE
  {
    Division.Quotient(k * MINUTE, k, MINUTE);
  }

  // ---------------------------------------------------------------- the first six requests

  /** `k` rows of one draft, `k - 1` units of the day spent, and no cooldown window opened since minute `k - 1`. */
  predicate Stage(d: Desk, draft: Draft, k: nat) {
    && 1 <= k <= 6 && d.now == (k - 1) * MINUTE && |d.pending| == k && d.accounts == {}
    && (forall c :: c in d.pending ==> c.draft == draft && c.expiresAt > 8 * MINUTE)
    && (forall id :: id in d.used ==> id < k)
    && Counted(d.counters, draft.email, k)
  }

  predicate Counted(rows: R.Counters, email: string, k: nat) {
    && R.CountOf(rows, R.Bucket(R.RegisterEmail, email, 0)) == 1
    && R.CountOf(rows, R.Bucket(R.VerifyResendDaily, email, 0)) == k - 1
    && (forall b :: b in rows && b.scope == R.VerifyResendCooldown && b.subject == email ==> b.windowStart < k * MINUTE)
  }

  lemma RegisterStage(draft: Draft)
    ensures Legal(START, FiveResends(draft, 0)) && Stage(After(START, FiveResends(draft, 0)), draft, 1)
  {
    FirstDay(0);
    var r := Register(draft, 0, 0, "");
    assert Legal(Serve(START, r), [r][1..]);
    assert Inserted([], Fresh(draft), 0, 0, "").0 == [Candidate(0, draft, Pending(0, ""), EMAIL_VERIFICATION_TTL_MS, 0, 0)];
  }

  lemma ResendIsCounted(rows: R.Counters, email: string, k: nat)
    requires 1 <= k <= 5 && Counted(rows, email, k)
    ensures var (afterCooldown, cooldown) := R.Consumed(rows, R.VerifyResendCooldown, email, k * MINUTE);
            var (afterDaily, daily) := R.Consumed(afterCooldown, R.VerifyResendDaily, email, k * MINUTE);
            cooldown.allowed && daily.allowed && Counted(afterDaily, email, k + 1)
  {
    WholeMinute(k);
    FirstDay(k * MINUTE);
    var (afterCooldown, _) := R.Consumed(rows, R.VerifyResendCooldown, email, k * MINUTE);
    assert R.CountOf(afterCooldown, R.Bucket(R.VerifyResendDaily, email, 0)) == k - 1;
  }

  /** The clone joins the rows of the one draft. */
  lemma OneMoreRow(pending: Table, source: Source, draft: Draft, now: int, id: nat, k: nat)
    requires |pending| == k <= 6 && 0 <= now <= 7 * MINUTE
    requires forall c :: c in pending ==> c.draft == draft && c.expiresAt > 8 * MINUTE
    requires source.Email() == draft.email && (source.Again? ==> k > 0)
    ensures var (after, outcome) := Inserted(pending, source, now, id, "");
            var row := Candidate(id, if source.Again? then draft else source.draft, Pending(id, ""),
                                 now + EMAIL_VERIFICATION_TTL_MS, 0, now);
            outcome.Issued? && |after| == k + 1 && forall c :: c in after <==> c in pending || c == row
  {
    WhereAll(pending, Unexpired(draft.email, now));
    WhereAll(pending, NotExpired(draft.email, now));
    assert Identities(pending, draft.email) <= {draft.passwordHash};
    SubsetSize(Identities(pending, draft.email), {draft.passwordHash});
    var row := Candidate(id, if source.Again? then draft else source.draft, Pending(id, ""),
                         now + EMAIL_VERIFICATION_TTL_MS, 0, now);
    if source.Again? {
      assert pending[k - 1] in pending;
      assert CloneOf(pending[k - 1]) == draft;
    }
    InsertedLength(pending, row);
    forall c
      ensures c in InsertSorted(pending, row) <==> c in pending || c == row
    {
      InsertedIn(pending, row, c);
    }
  }

  lemma ResendStage(d: Desk, draft: Draft, k: nat)
    requires k <= 5 && Stage(d, draft, k)
    ensures Allowed(d, Resend(draft.email, k * MINUTE, k, "", true))
    ensures Stage(Serve(d, Resend(draft.email, k * MINUTE, k, "", true)), draft, k + 1)
  {
    ResendIsCounted(d.counters, draft.email, k);
    OneMoreRow(d.pending, Again(draft.email), draft, k * MINUTE, k, k);
  }

  lemma {:induction false} FiveResendsReach(draft: Draft, n: nat)
    requires n <= 5
    ensures Legal(START, FiveResends(draft, n)) && Stage(After(START, FiveResends(draft, n)), draft, n + 1)
  {
    if n == 0 {
      RegisterStage(draft);
    } else {
      FiveResendsReach(draft, n - 1);
      var d := After(START, FiveResends(draft, n - 1));
      ResendStage(d, draft, n);
      LegalOneMore(START, FiveResends(draft, n - 1), Resend(draft.email, n * MINUTE, n, "", true));
    }
  }

  // ---------------------------------------------------------------- the other party, and one resend more

  lemma OtherPartyRegisters(d: Desk, mine: Draft, theirs: Draft)
    requires Stage(d, mine, 6) && theirs.email == mine.email && theirs.passwordHash != mine.passwordHash
    ensures var r := Register(theirs, 6 * MINUTE, 6, "");
            && Allowed(d, r) && |Identities(Serve(d, r).pending, mine.email)| > 1
            && Runs.DailyCount(Serve(d, r), mine.email, 7 * MINUTE) == 5
            && R.Consumed(Serve(d, r).counters, R.VerifyResendCooldown, mine.email, 7 * MINUTE).1.allowed
            && forall id :: id in Serve(d, r).used ==> id < 7
  {
    FirstDay(6 * MINUTE);
    FirstDay(7 * MINUTE);
    WholeMinute(7);
    OneMoreRow(d.pending, Fresh(theirs), mine, 6 * MINUTE, 6, 6);
    var d' := Serve(d, Register(theirs, 6 * MINUTE, 6, ""));
    var row := Candidate(6, theirs, Pending(6, ""), 6 * MINUTE + EMAIL_VERIFICATION_TTL_MS, 0, 6 * MINUTE);
    assert row in d'.pending && d.pending[0] in d'.pending;
    assert {mine.passwordHash, theirs.passwordHash} <= Identities(d'.pending, mine.email);
    TwoOrMore(Identities(d'.pending, mine.email), mine.passwordHash, theirs.passwordHash);
  }

  lemma TwoOrMore<T>(s: set<T>, x: T, y: T)
    requires x in s && y in s && x != y
    ensures |s| > 1
  {
    assert |s - {x}| == |s| - 1 && y in s - {x};
  }

  /**
   * After these seven requests the address is ambiguous and its day is spent, so the eighth, a resend
   * that meets no error at all, takes the count from five to six.
   */
  lemma SpentDayIsReached(mine: Draft, theirs: Draft)
    requires theirs.email == mine.email && theirs.passwordHash != mine.passwordHash
    ensures var rs, last := SpentDay(mine, theirs), Resend(mine.email, 7 * MINUTE, 7, "", true);
            && Legal(START, rs) && Legal(START, rs + [last])
            && |Identities(After(START, rs).pending, mine.email)| > 1
            && Runs.DailyCount(After(START, rs), mine.email, 7 * MINUTE) == 5
            && Runs.DailyCount(After(START, rs + [last]), mine.email, 7 * MINUTE) == 6
  {
    FiveResendsReach(mine, 5);
    var d := After(START, FiveResends(mine, 5));
    OtherPartyRegisters(d, mine, theirs);
    LegalOneMore(START, FiveResends(mine, 5), Register(theirs, 6 * MINUTE, 6, ""));
    var rs, last := SpentDay(mine, theirs), Resend(mine.email, 7 * MINUTE, 7, "", true);
    Runs.SpentDayIsNotGivenBack(After(START, rs), mine.email, 7 * MINUTE, 7, "", true);
    LegalOneMore(START, rs, last);
  }
}
