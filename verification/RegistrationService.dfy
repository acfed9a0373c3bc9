/**
 * Registration and e-mail verification over mutable tables, statement by statement; each method is
 * proved against the request function of Registration.
 */
module RegistrationService {
  import opened Options
  import opened Candidates
  import opened Registration
  import R = RateLimits

  class Service {
    var pending: Table
    var accounts: set<Account>
    const limiter: R.RateLimiter
    ghost var used: set<nat>
    ghost var clock: int

    ghost function View(): Desk
      reads this, limiter
    {
      Desk(pending, accounts, limiter.rows, used, clock)
    }

    ghost predicate Valid()
      reads this, limiter
    {
      Inv(View())
    }

    constructor ()
      ensures Valid() && View() == START && fresh(limiter)
    {
      pending, accounts, used, clock := [], {}, {}, 0;
      limiter := new R.RateLimiter();
    }

    /** One transaction: lock the group, refuse an ambiguous resend, sweep, check the ceiling, insert. */
    method InsertCandidate(source: Source, now: int, id: nat, code: string) returns (outcome: CandidateOutcome)
      modifies this`pending
      ensures (pending, outcome) == Inserted(old(pending), source, now, id, code)
    {
      var email := source.Email();
      var live := Where(pending, Unexpired(email, now));
      if source.Again? {
        var identities := Identities(pending, email);
        if |identities| > 1 {
          return AmbiguousSource;
        }
      }
      pending := Where(pending, NotExpired(email, now));
      if |live| >= PENDING_REGISTRATION_MAX_ACTIVE {
        return Ceiling;
      }
      var draft;
      if source.Again? {
        if live == [] {
          return NoLiveCandidate;
        }
        draft := CloneOf(live[|live| - 1]);
      } else {
        draft := source.draft;
      }
      pending := InsertSorted(pending, Candidate(id, draft, Pending(id, code), now + EMAIL_VERIFICATION_TTL_MS, 0, now));
      return Issued(code, draft.locale);
    }

    method Register(draft: Draft, now: int, id: nat, code: string)
      requires Valid() && Allowed(View(), Request.Register(draft, now, id, code))
      modifies this, limiter
      ensures Valid() && View() == Serve(old(View()), Request.Register(draft, now, id, code))
    {
      ServeKeepsInv(View(), Request.Register(draft, now, id, code));
      clock := now;
      var limit := limiter.Consume(R.RegisterEmail, draft.email, now);
      if !limit.allowed {
        return;
      }
      if Owns(accounts, draft.email) {
        return;
      }
      var _ := InsertCandidate(Fresh(draft), now, id, code);
      used := used + {id};
    }

    method ResendVerification(email: string, now: int, id: nat, code: string, refunds: bool)
      requires Valid() && Allowed(View(), Resend(email, now, id, code, refunds))
      modifies this, limiter
      ensures Valid() && View() == Serve(old(View()), Resend(email, now, id, code, refunds))
    {
      ServeKeepsInv(View(), Resend(email, now, id, code, refunds));
      clock := now;
      var cooldown := limiter.Consume(R.VerifyResendCooldown, email, now);
      if !cooldown.allowed {
        return;
      }
      var daily := limiter.Consume(R.VerifyResendDaily, email, now);
      if !daily.allowed {
        return;
      }
      var outcome := InsertCandidate(Again(email), now, id, code);
      used := used + {id};
      if outcome == AmbiguousSource && refunds {
        limiter.Refund(R.VerifyResendDaily, email, daily.windowStart);
      }
    }

    /** The wrong-guess branch: one UPDATE by id for every candidate the guess was tested against. */
    method ChargeGuess(email: string, now: int)
      requires DistinctIds(pending)
      modifies this`pending
      ensures pending == ChargeAll(old(pending), email, now)
    {
      ghost var before := pending;
      var live := Where(pending, Guessable(email, now));
      var k := 0;
      while k < |live|
        invariant ChargedUpTo(before, pending, live, k, email, now)
      {
        ChargeNext(before, pending, live, k, email, now);
        var attempts := Min(live[k].attemptCount + 1, EMAIL_VERIFICATION_MAX_ATTEMPTS);
        pending := SetAttempts(pending, live[k].id, attempts);
        k := k + 1;
      }
      ChargedAllLive(before, pending, live, email, now);
    }

    /** The transaction of `verify`: the id of the account it opened, if the code was right. */
    method Verify(email: string, code: string, now: int, id: nat) returns (account: Option<nat>)
      requires Valid() && Allowed(View(), Request.Verify(email, code, now, id))
      modifies this
      ensures Valid() && View() == Serve(old(View()), Request.Verify(email, code, now, id))
      ensures account == Verified(old(pending), old(accounts), email, code, now, id).2
    {
      ServeKeepsInv(View(), Request.Verify(email, code, now, id));
      clock := now;
      used := used + {id};
      account := VerifyTransaction(email, code, now, id);
    }

    method VerifyTransaction(email: string, code: string, now: int, id: nat) returns (account: Option<nat>)
      requires DistinctIds(pending)
      modifies this`pending, this`accounts
      ensures (pending, accounts, account) == Verified(old(pending), old(accounts), email, code, now, id)
    {
      var live := Where(pending, Guessable(email, now));
      if live == [] {
        return None;
      }
      var matched := FirstMatch(pending, email, code, now);
      if matched.None? {
        ChargeGuess(email, now);
        return None;
      }
      if Owns(accounts, email) {
        return None;
      }
      accounts := accounts + {AccountOf(matched.value, id, now)};
      pending := Where(pending, NotOfAddress(email));
      return Some(id);
    }
  }

  function SetAttempts(s: Table, id: nat, attempts: nat): (r: Table)
    ensures |r| == |s|
    ensures forall i :: 0 <= i < |s| ==> r[i] == if s[i].id == id then s[i].(attemptCount := attempts) else s[i]
  {
    seq(|s|, i requires 0 <= i < |s| => if s[i].id == id then s[i].(attemptCount := attempts) else s[i])
  }

  /** The first `k` guessable rows are charged, the others are as they were. */
  predicate ChargedUpTo(before: Table, now: Table, live: Table, k: nat, email: string, at: int) {
    && k <= |live| && |now| == |before|
    && forall i :: 0 <= i < |before| ==> now[i] == if before[i] in live[..k] then Charge(before[i], email, at) else before[i]
  }

  lemma ChargeNext(before: Table, now: Table, live: Table, k: nat, email: string, at: int)
    requires DistinctIds(before) && live == Where(before, Guessable(email, at)) && k < |live|
    requires ChargedUpTo(before, now, live, k, email, at)
    ensures ChargedUpTo(before, SetAttempts(now, live[k].id, Min(live[k].attemptCount + 1, EMAIL_VERIFICATION_MAX_ATTEMPTS)),
                        live, k + 1, email, at)
  {
    WhereIn(before, Guessable(email, at), live[k]);
    WhereDistinct(before, Guessable(email, at));
    assert live[..k + 1] == live[..k] + [live[k]];
    var next := SetAttempts(now, live[k].id, Min(live[k].attemptCount + 1, EMAIL_VERIFICATION_MAX_ATTEMPTS));
    forall i | 0 <= i < |before|
      ensures next[i] == if before[i] in live[..k + 1] then Charge(before[i], email, at) else before[i]
    {
      assert now[i].id == before[i].id;
      var m :| 0 <= m < |before| && before[m] == live[k];
      if i != m {
        assert before[i].id != before[m].id;
      }
    }
  }

  lemma ChargedAllLive(before: Table, now: Table, live: Table, email: string, at: int)
    requires live == Where(before, Guessable(email, at)) && ChargedUpTo(before, now, live, |live|, email, at)
    ensures now == ChargeAll(before, email, at)
  {
    assert live[..|live|] == live;
    forall i | 0 <= i < |before|
      ensures now[i] == Charge(before[i], email, at)
    {
      WhereIn(before, Guessable(email, at), before[i]);
    }
  }

  /** `live.find(…)`: the first guessable row, in lock order, whose digest the code gives. */
  method FirstMatch(pending: Table, email: string, code: string, now: int) returns (m: Option<Candidate>)
    ensures m.None? <==> Where(pending, Matching(email, code, now)) == []
    ensures m.Some? ==> m.value == Where(pending, Matching(email, code, now))[0]
    ensures m.Some? ==> exists i :: && 0 <= i < |pending| && pending[i] == m.value && Matching(email, code, now)(m.value)
                                    && forall j :: 0 <= j < i ==> !Matching(email, code, now)(pending[j])
  {
    var live := Where(pending, Guessable(email, now));
    WhereKeeps(pending, Matching(email, code, now), Guessable(email, now));
    var k := 0;
    while k < |live|
      invariant 0 <= k <= |live|
      invariant forall j :: 0 <= j < k ==> !Matching(email, code, now)(live[j])
    {
      if live[k].codeHash == Pending(live[k].id, code) {
        WhereIn(pending, Guessable(email, now), live[k]);
        FirstWhere(live, Matching(email, code, now), k);
        WhereFirst(pending, Matching(email, code, now));
        return Some(live[k]);
      }
      k := k + 1;
    }
    if Where(live, Matching(email, code, now)) != [] {
      WhereFirst(live, Matching(email, code, now));
    }
    return None;
  }
}
