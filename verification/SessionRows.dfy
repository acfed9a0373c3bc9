/**
 * The `sessions` table: one row per minted refresh token, and what it means for a token family to
 * be one linear rotation chain.
 */
module SessionRows {
  import opened Options

  const REFRESH_TOKEN_TTL_MS := 30 * 24 * 60 * 60 * 1000
  const REFRESH_ROTATION_GRACE_WINDOW_MS := 15_000

  /** SHA-256 as an injective constructor; opaque tokens are drawn from a supply of names. */
  datatype Digest = Sha256(plain: nat)

  datatype Reason = Rotated | Logout | ReuseDetected | PasswordReset | Expired | AccountInactive

  /** `revoked_at` and `revoked_reason`, which CHK_sessions_revocation makes null together. */
  datatype Revocation = Revocation(at: int, reason: Reason)

  datatype Session = Session(
    userId: nat,
    familyId: nat,
    tokenHash: Digest,
    issuedAt: int,
    expiresAt: int,
    revocation: Option<Revocation>,
    rotatedFrom: Option<nat>,
    graceUsedAt: Option<int>)
  {
    predicate Live() {
      revocation.None?
    }

    predicate RevokedAs(reason: Reason) {
      revocation.Some? && revocation.value.reason == reason
    }

    /** `rotatedWithinGrace` of `refresh`. */
    predicate WithinGrace(now: int) {
      && RevokedAs(Rotated)
      && graceUsedAt.None?
      && revocation.value.at + REFRESH_ROTATION_GRACE_WINDOW_MS >= now
    }

    function Revoke(at: int, reason: Reason): Session {
      this.(revocation := Some(Revocation(at, reason)))
    }

    /** The columns no statement of the services ever updates. */
    predicate SameIdentity(other: Session) {
      && userId == other.userId
      && familyId == other.familyId
      && tokenHash == other.tokenHash
      && issuedAt == other.issuedAt
      && expiresAt == other.expiresAt
      && rotatedFrom == other.rotatedFrom
    }

    /** What later versions of a row may look like: revocation and the grace mark are final. */
    predicate EvolvesTo(later: Session) {
      && SameIdentity(later)
      && (revocation.Some? ==> later.revocation == revocation)
      && (graceUsedAt.Some? ==> later.graceUsedAt == graceUsedAt)
    }
  }

  type Table = map<nat, Session>

  /** A freshly minted row: row number `token` carries the digest of plaintext number `token`. */
  function Mint(userId: nat, familyId: nat, token: nat, at: int, from: Option<nat>): Session {
    Session(userId, familyId, Sha256(token), at, at + REFRESH_TOKEN_TTL_MS, None, from, None)
  }

  function LiveInFamily(rows: Table, family: nat): set<nat> {
    set id | id in rows && rows[id].familyId == family && rows[id].Live()
  }

  function LiveOfUser(rows: Table, user: nat): set<nat> {
    set id | id in rows && rows[id].userId == user && rows[id].Live()
  }

  /** The `successors` query of the grace recovery. */
  function Successors(rows: Table, of: nat): set<nat>
    requires of in rows
  {
    set id | id in rows && rows[id].rotatedFrom == Some(of)
             && rows[id].familyId == rows[of].familyId && rows[id].userId == rows[of].userId
  }

  /** `UPDATE sessions SET revoked … WHERE id IN ids`, for ids selected by `revokedAt IS NULL`. */
  function RevokeAll(rows: Table, ids: set<nat>, at: int, reason: Reason): (r: Table)
    ensures r.Keys == rows.Keys
  {
    map id | id in rows :: if id in ids then rows[id].Revoke(at, reason) else rows[id]
  }

  /**
   * `c` lists exactly the rows of `family`, oldest first: each row but the first was rotated from
   * the one before it, every row but the last was retired as Rotated, and the last was not.
   */
  ghost predicate IsChain(rows: Table, family: nat, c: seq<nat>) {
    && |c| > 0
    && (forall i :: 0 <= i < |c| ==> c[i] in rows && rows[c[i]].familyId == family)
    && (forall id :: id in rows && rows[id].familyId == family ==> id in c)
    && (forall i, j :: 0 <= i < j < |c| ==> c[i] != c[j])
    && (forall i :: 0 <= i < |c| ==> rows[c[i]].userId == rows[c[0]].userId)
    && rows[c[0]].rotatedFrom.None?
    && (forall i :: 0 < i < |c| ==> rows[c[i]].rotatedFrom == Some(c[i - 1]))
    && (forall i :: 0 <= i < |c| ==> (rows[c[i]].RevokedAs(Rotated) <==> i < |c| - 1))
  }

  ghost predicate Chained(rows: Table) {
    forall id :: id in rows ==> HasChain(rows, rows[id].familyId)
  }

  ghost predicate HasChain(rows: Table, family: nat) {
    exists c :: IsChain(rows, family, c)
  }

  /** A family has at most one live row: the last of its chain. */
  lemma AtMostOneLive(rows: Table, a: nat, b: nat)
    requires Chained(rows) && a in rows && b in rows
    requires rows[a].familyId == rows[b].familyId && rows[a].Live() && rows[b].Live()
    ensures a == b
  {
    var c :| IsChain(rows, rows[a].familyId, c);
    assert a in c && b in c;
  }

  /** All rows of a family are one user's. */
  lemma OneUserAFamily(rows: Table, a: nat, b: nat)
    requires Chained(rows) && a in rows && b in rows && rows[a].familyId == rows[b].familyId
    ensures rows[a].userId == rows[b].userId
  {
    assert HasChain(rows, rows[a].familyId);
    var c :| IsChain(rows, rows[a].familyId, c);
    assert a in c && b in c;
  }

  /** Whatever was rotated from the i-th row of a chain is the next row of that chain. */
  lemma SuccessorIsNext(rows: Table, family: nat, c: seq<nat>, i: nat, s: nat)
    requires Chained(rows) && IsChain(rows, family, c) && i < |c|
    requires s in rows && rows[s].rotatedFrom == Some(c[i])
    ensures i + 1 < |c| && s == c[i + 1]
  {
    assert HasChain(rows, rows[s].familyId);
    var d :| IsChain(rows, rows[s].familyId, d);
    assert s in d;
    var k :| 0 <= k < |d| && d[k] == s;
    assert d[k - 1] == c[i];
    assert s in c;
    var j :| 0 <= j < |c| && c[j] == s;
    assert c[j - 1] == c[i];
  }

  /** A row was retired as Rotated exactly when a row was rotated from it, and by one row only. */
  lemma SuccessorIffRotated(rows: Table, p: nat)
    requires Chained(rows) && p in rows
    ensures rows[p].RevokedAs(Rotated) <==> |Successors(rows, p)| == 1
    ensures !rows[p].RevokedAs(Rotated) <==> Successors(rows, p) == {}
    ensures forall s :: s in rows && rows[s].rotatedFrom == Some(p) ==> s in Successors(rows, p)
  {
    assert HasChain(rows, rows[p].familyId);
    var c :| IsChain(rows, rows[p].familyId, c);
    assert p in c;
    var i :| 0 <= i < |c| && c[i] == p;
    forall s | s in rows && rows[s].rotatedFrom == Some(p)
      ensures i + 1 < |c| && s == c[i + 1] && s in Successors(rows, p)
    {
      SuccessorIsNext(rows, rows[p].familyId, c, i, s);
    }
    if i + 1 < |c| {
      assert Successors(rows, p) == {c[i + 1]};
    } else {
      assert Successors(rows, p) == {};
    }
  }

  /**
   * Any number of row versions, and at most one new row `n`: it was rotated from a live row of its
   * own family, and that row is the only one newly retired as Rotated.
   */
  predicate OneRotation(rows: Table, rows': Table, n: Option<nat>) {
    && (forall id :: id in rows ==> id in rows' && rows[id].EvolvesTo(rows'[id]))
    && (forall id :: id in rows' && id !in rows ==> n == Some(id))
    && (forall id :: id in rows && rows'[id].RevokedAs(Rotated) && !rows[id].RevokedAs(Rotated)
                     ==> n.Some? && n.value in rows' && rows'[n.value].rotatedFrom == Some(id))
    && (n.Some? ==>
          && n.value in rows' && n.value !in rows
          && !rows'[n.value].RevokedAs(Rotated) && rows'[n.value].rotatedFrom.Some?
          && var p := rows'[n.value].rotatedFrom.value;
          && p in rows && rows[p].Live() && rows'[p].RevokedAs(Rotated)
          && rows'[n.value].familyId == rows[p].familyId && rows'[n.value].userId == rows[p].userId)
  }

  lemma OtherChainsStay(rows: Table, rows': Table, n: Option<nat>, family: nat, c: seq<nat>)
    requires OneRotation(rows, rows', n) && IsChain(rows, family, c)
    requires !(n.Some? && rows'[n.value].familyId == family)
    ensures IsChain(rows', family, c)
  {
    assert forall i :: 0 <= i < |c| ==> rows[c[i]].EvolvesTo(rows'[c[i]]);
    forall i | 0 <= i < |c|
      ensures rows'[c[i]].RevokedAs(Rotated) <==> i < |c| - 1
    {
      var id := c[i];
      assert id in rows && rows[id].familyId == family;
    }
  }

  /** The new row is appended to the chain of its family; every other chain is as it was. */
  lemma {:induction false} RotationExtendsChain(rows: Table, rows': Table, n: Option<nat>, family: nat, c: seq<nat>)
    requires OneRotation(rows, rows', n) && IsChain(rows, family, c)
    ensures IsChain(rows', family, if n.Some? && rows'[n.value].familyId == family then c + [n.value] else c)
  {
    if n.Some? && rows'[n.value].familyId == family {
      assert forall i :: 0 <= i < |c| ==> rows[c[i]].EvolvesTo(rows'[c[i]]);
      var p := rows'[n.value].rotatedFrom.value;
      assert p in c && p == c[|c| - 1];
      var d := c + [n.value];
      forall i | 0 <= i < |d|
        ensures rows'[d[i]].RevokedAs(Rotated) <==> i < |d| - 1
      {
      }
      forall id | id in rows' && rows'[id].familyId == family
        ensures id in d
      {
        if id in rows {
          assert rows[id].EvolvesTo(rows'[id]);
          assert id in c;
        }
      }
    } else {
      OtherChainsStay(rows, rows', n, family, c);
    }
  }

  lemma RotationKeepsChains(rows: Table, rows': Table, n: Option<nat>)
    requires OneRotation(rows, rows', n) && Chained(rows)
    ensures Chained(rows')
  {
    forall id | id in rows'
      ensures HasChain(rows', rows'[id].familyId)
    {
      var before := if id in rows then id else rows'[n.value].rotatedFrom.value;
      assert HasChain(rows, rows[before].familyId);
      var c :| IsChain(rows, rows[before].familyId, c);
      RotationExtendsChain(rows, rows', n, rows[before].familyId, c);
      assert rows[before].EvolvesTo(rows'[before]);
    }
  }

  /** A row of a family no row had yet is a chain of one. */
  lemma IssueKeepsChains(rows: Table, n: nat, row: Session)
    requires Chained(rows) && n !in rows && row.rotatedFrom.None? && row.Live()
    requires forall id :: id in rows ==> rows[id].familyId != row.familyId
    ensures Chained(rows[n := row])
  {
    var rows' := rows[n := row];
    forall id | id in rows'
      ensures HasChain(rows', rows'[id].familyId)
    {
      if id == n {
        assert IsChain(rows', row.familyId, [n]);
      } else {
        assert HasChain(rows, rows[id].familyId);
        var c :| IsChain(rows, rows[id].familyId, c);
        assert IsChain(rows', rows[id].familyId, c);
      }
    }
  }
}
