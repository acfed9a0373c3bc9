/**
 * The `pending_registrations` table: candidate rows in `(created_at, id)` order, the selections the
 * services make from them, and what the writes do to those selections.
 */
module Candidates {
  import opened Options

  const EMAIL_VERIFICATION_TTL_MS := 10 * 60_000
  const EMAIL_VERIFICATION_MAX_ATTEMPTS := 5

  /** Everything a candidate carries except the code mechanics. */
  datatype Draft = Draft(
    email: string, passwordHash: string,
    firstName: string, lastName: string, phone: string, accountRole: string,
    educationLevel: Option<string>, gradeLevel: Option<string>, studyStream: Option<string>,
    universityName: Option<string>, departmentName: Option<string>, schoolName: Option<string>,
    teacherSubject: Option<string>, institutionType: Option<string>, referralSource: Option<string>,
    districtId: string, locale: string, marketingConsentAt: Option<int>)

  /** HMAC over `pending:<id>:<code>`, as an injective constructor. Codes may repeat; ids do not. */
  datatype CodeHash = Pending(id: nat, code: string)

  datatype Candidate = Candidate(
    id: nat, draft: Draft, codeHash: CodeHash, expiresAt: int, attemptCount: nat, createdAt: int)

  type Table = seq<Candidate>

  /** `ORDER BY created_at ASC, id ASC`. */
  predicate Before(a: Candidate, b: Candidate) {
    a.createdAt < b.createdAt || (a.createdAt == b.createdAt && a.id < b.id)
  }

  predicate Sorted(s: Table) {
    forall i, j :: 0 <= i < j < |s| ==> Before(s[i], s[j])
  }

  function Where(s: Table, p: Candidate -> bool): Table {
    if s == [] then []
    else (if p(s[0]) then [s[0]] else []) + Where(s[1..], p)
  }

  function InsertSorted(s: Table, c: Candidate): Table {
    if s == [] || Before(c, s[0]) then [c] + s else [s[0]] + InsertSorted(s[1..], c)
  }

  // ---------------------------------------------------------------- the selections

  function OfAddress(email: string): Candidate -> bool {
    (c: Candidate) => c.draft.email == email
  }

  function NotOfAddress(email: string): Candidate -> bool {
    (c: Candidate) => c.draft.email != email
  }

  function Unexpired(email: string, now: int): Candidate -> bool {
    (c: Candidate) => c.draft.email == email && c.expiresAt > now
  }

  /** What the expired sweep of one address leaves in the table. */
  function NotExpired(email: string, now: int): Candidate -> bool {
    (c: Candidate) => !(c.draft.email == email && c.expiresAt <= now)
  }

  function Guessable(email: string, now: int): Candidate -> bool {
    (c: Candidate) =>
      c.draft.email == email && c.expiresAt > now && c.attemptCount < EMAIL_VERIFICATION_MAX_ATTEMPTS
  }

  function Matching(email: string, code: string, now: int): Candidate -> bool {
    (c: Candidate) => Guessable(email, now)(c) && c.codeHash == Pending(c.id, code)
  }

  function CreatedIn(email: string, from: int, to: int): Candidate -> bool {
    (c: Candidate) => c.draft.email == email && from <= c.createdAt < to
  }

  /** What retention leaves in the table. */
  function ExpiresFrom(limit: int): Candidate -> bool {
    (c: Candidate) => c.expiresAt >= limit
  }

  /** `passwordHash` is the credential-lineage key of an address's whole group, expired rows included. */
  function Identities(s: Table, email: string): set<string> {
    set c | c in s && c.draft.email == email :: c.draft.passwordHash
  }

  function Min(a: nat, b: nat): nat {
    if a <= b then a else b
  }

  /** The wrong-guess charge to every candidate the guess was tested against. */
  function Charge(c: Candidate, email: string, now: int): Candidate {
    if Guessable(email, now)(c) then
      c.(attemptCount := Min(c.attemptCount + 1, EMAIL_VERIFICATION_MAX_ATTEMPTS))
    else c
  }

  function ChargeAll(s: Table, email: string, now: int): (r: Table)
    ensures |r| == |s| && forall i :: 0 <= i < |s| ==> r[i] == Charge(s[i], email, now)
  {
    seq(|s|, i requires 0 <= i < |s| => Charge(s[i], email, now))
  }

  // ---------------------------------------------------------------- what the writes do to them

  lemma {:induction false} WhereIn(s: Table, p: Candidate -> bool, c: Candidate)
    ensures c in Where(s, p) <==> c in s && p(c)
  {
    if s == [] {
    } else {
      WhereIn(s[1..], p, c);
      assert s == [s[0]] + s[1..];
    }
  }

  lemma {:induction false} WhereKeeps(s: Table, p: Candidate -> bool, q: Candidate -> bool)
    requires forall c :: c in s && p(c) ==> q(c)
    ensures Where(Where(s, q), p) == Where(s, p)
    ensures |Where(s, p)| <= |Where(s, q)|
  {
    if s == [] {
    } else {
      WhereKeeps(s[1..], p, q);
      assert s[0] in s;
      if q(s[0]) {
        assert Where(s, q) == [s[0]] + Where(s[1..], q);
        assert Where(s, q)[1..] == Where(s[1..], q);
      } else {
        assert Where(s, q) == Where(s[1..], q);
      }
    }
  }

  lemma {:induction false} WhereShrinks(s: Table, p: Candidate -> bool, q: Candidate -> bool)
    ensures |Where(Where(s, q), p)| <= |Where(s, p)|
  {
    if s == [] {
    } else {
      WhereShrinks(s[1..], p, q);
      if q(s[0]) {
        assert Where(s, q)[1..] == Where(s[1..], q);
      } else {
        assert Where(s, q) == Where(s[1..], q);
      }
    }
  }

  lemma {:induction false} WhereInserted(s: Table, c: Candidate, p: Candidate -> bool)
    ensures |Where(InsertSorted(s, c), p)| == |Where(s, p)| + if p(c) then 1 else 0
  {
    var r := InsertSorted(s, c);
    if s == [] || Before(c, s[0]) {
      assert r[1..] == s;
    } else {
      WhereInserted(s[1..], c, p);
      assert r[1..] == InsertSorted(s[1..], c);
    }
  }

  lemma {:induction false} InsertedIn(s: Table, c: Candidate, x: Candidate)
    ensures x in InsertSorted(s, c) <==> x == c || x in s
  {
    if s == [] || Before(c, s[0]) {
    } else {
      InsertedIn(s[1..], c, x);
      assert s == [s[0]] + s[1..];
    }
  }

  /** Charging moves no row into or out of a selection that does not look at the counter. */
  lemma {:induction false} WhereCharged(s: Table, email: string, now: int, p: Candidate -> bool)
    requires forall c, n: nat :: p(c) == p(c.(attemptCount := n))
    ensures |Where(ChargeAll(s, email, now), p)| == |Where(s, p)|
  {
    if s == [] {
    } else {
      WhereCharged(s[1..], email, now, p);
      assert ChargeAll(s, email, now)[1..] == ChargeAll(s[1..], email, now);
      assert p(s[0]) == p(s[0].(attemptCount := Charge(s[0], email, now).attemptCount));
    }
  }

  lemma {:induction false} WhereSorted(s: Table, p: Candidate -> bool)
    requires Sorted(s)
    ensures Sorted(Where(s, p))
  {
    if s == [] {
    } else {
      WhereSorted(s[1..], p);
      forall x | x in Where(s[1..], p)
        ensures Before(s[0], x)
      {
        WhereIn(s[1..], p, x);
      }
    }
  }

  lemma {:induction false} InsertedSorted(s: Table, c: Candidate)
    requires Sorted(s) && forall x :: x in s ==> x.id != c.id
    ensures Sorted(InsertSorted(s, c))
  {
    if s == [] || Before(c, s[0]) {
    } else {
      InsertedSorted(s[1..], c);
      var r := InsertSorted(s[1..], c);
      assert s[0] in s;
      forall i | 0 <= i < |r|
        ensures Before(s[0], r[i])
      {
        InsertedIn(s[1..], c, r[i]);
      }
    }
  }

  predicate DistinctIds(s: Table) {
    forall i, j :: 0 <= i < j < |s| ==> s[i].id != s[j].id
  }

  lemma {:induction false} WhereDistinct(s: Table, p: Candidate -> bool)
    requires DistinctIds(s)
    ensures DistinctIds(Where(s, p))
  {
    if s == [] {
    } else {
      WhereDistinct(s[1..], p);
      forall x | x in Where(s[1..], p)
        ensures x.id != s[0].id
      {
        WhereIn(s[1..], p, x);
      }
    }
  }

  lemma {:induction false} InsertedDistinct(s: Table, c: Candidate)
    requires DistinctIds(s) && forall x :: x in s ==> x.id != c.id
    ensures DistinctIds(InsertSorted(s, c))
  {
    if s == [] || Before(c, s[0]) {
    } else {
      InsertedDistinct(s[1..], c);
      var r := InsertSorted(s[1..], c);
      forall i | 0 <= i < |r|
        ensures r[i].id != s[0].id
      {
        InsertedIn(s[1..], c, r[i]);
      }
    }
  }

  /** Inserting a row a selection does not want leaves the selection as it was. */
  lemma {:induction false} WhereInsertedOther(s: Table, c: Candidate, p: Candidate -> bool)
    requires !p(c)
    ensures Where(InsertSorted(s, c), p) == Where(s, p)
  {
    var r := InsertSorted(s, c);
    if s == [] || Before(c, s[0]) {
      assert r[1..] == s;
    } else {
      WhereInsertedOther(s[1..], c, p);
      assert r[1..] == InsertSorted(s[1..], c);
    }
  }

  lemma IdentitiesOfGroup(s: Table, s': Table, email: string)
    requires Where(s, OfAddress(email)) == Where(s', OfAddress(email))
    ensures Identities(s, email) == Identities(s', email)
  {
    forall c
      ensures c in s && c.draft.email == email <==> c in s' && c.draft.email == email
    {
      WhereIn(s, OfAddress(email), c);
      WhereIn(s', OfAddress(email), c);
    }
  }

  /** The first row a selection wants is the head of the selection. */
  lemma {:induction false} FirstWhere(s: Table, p: Candidate -> bool, k: nat)
    requires k < |s| && p(s[k]) && forall j :: 0 <= j < k ==> !p(s[j])
    ensures Where(s, p) != [] && Where(s, p)[0] == s[k]
  {
    if k == 0 {
    } else {
      FirstWhere(s[1..], p, k - 1);
    }
  }

  /** And the head of a selection is the first row of the table it wants. */
  lemma {:induction false} WhereFirst(s: Table, p: Candidate -> bool)
    requires Where(s, p) != []
    ensures exists i :: 0 <= i < |s| && s[i] == Where(s, p)[0] && p(s[i]) && forall j :: 0 <= j < i ==> !p(s[j])
  {
    if p(s[0]) {
    } else {
      WhereFirst(s[1..], p);
      var i :| 0 <= i < |s[1..]| && s[1..][i] == Where(s, p)[0] && p(s[1..][i])
               && forall j :: 0 <= j < i ==> !p(s[1..][j]);
      assert s[i + 1] == Where(s, p)[0];
      forall j | 0 <= j < i + 1
        ensures !p(s[j])
      {
        assert j > 0 ==> s[j] == s[1..][j - 1];
      }
    }
  }
}
