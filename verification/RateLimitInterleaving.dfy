/**
 * The same counters when calls overlap: a call reads its clock, deletes its subject's older windows and
 * counts itself in three steps, and other calls run in between.
 */
module RateLimitInterleaving {
  import opened RateLimits

  /** A call that has read its clock; `purged` says that its DELETE is done. */
  datatype Pending = Pending(bucket: Bucket, purged: bool)

  /** The rows, the calls under way, and what happened so far: grants, refunds, and insertions of a row. */
  datatype World = World(
    rows: Counters,
    calls: map<nat, Pending>,
    granted: multiset<Bucket>,
    refunded: multiset<Bucket>,
    inserted: multiset<Bucket>)

  const EMPTY := World(map[], map[], multiset{}, multiset{}, multiset{})

  datatype Action =
    | ReadClock(call: nat, scope: Scope, subject: string, at: int)
    | Purge(call: nat)
    | Count(call: nat)
    | GiveBack(bucket: Bucket)

  predicate Enabled(w: World, a: Action) {
    match a
    case ReadClock(call, _, _, _) => call !in w.calls
    case Purge(call) => call in w.calls && !w.calls[call].purged
    case Count(call) => call in w.calls && w.calls[call].purged
    case GiveBack(b) => w.refunded[b] < w.granted[b]
  }

  function One(b: Bucket, holds: bool): multiset<Bucket> {
    if holds then multiset{b} else multiset{}
  }

  /** `INSERT … ON CONFLICT DO UPDATE`, whatever became of the row since the clock was read. */
  function CountStep(w: World, call: nat): World
    requires Enabled(w, Count(call))
  {
    var b := w.calls[call].bucket;
    var count := CountOf(w.rows, b) + 1;
    World(w.rows[b := count], w.calls - {call}, w.granted + One(b, count <= RuleOf(b.scope).limit), w.refunded,
          w.inserted + One(b, b !in w.rows))
  }

  function Apply(w: World, a: Action): World
    requires Enabled(w, a)
  {
    match a
    case ReadClock(call, scope, subject, at) =>
      w.(calls := w.calls[call := Pending(Bucket(scope, subject, WindowStart(scope, at)), false)])
    case Purge(call) =>
      var b := w.calls[call].bucket;
      w.(rows := WithoutStale(w.rows, b.scope, b.subject, b.windowStart),
         calls := w.calls[call := Pending(b, true)])
    case Count(call) => CountStep(w, call)
    case GiveBack(b) => w.(rows := Refunded(w.rows, b), refunded := w.refunded + multiset{b})
  }

  ghost predicate Legal(w: World, run: seq<Action>)
    decreases |run|
  {
    run == [] || (Enabled(w, run[0]) && Legal(Apply(w, run[0]), run[1..]))
  }

  function After(w: World, run: seq<Action>): World
    requires Legal(w, run)
    decreases |run|
  {
    if run == [] then w else After(Apply(w, run[0]), run[1..])
  }

  // ---------------------------------------------------------------- what an insertion allows

  function Net(w: World, b: Bucket): int {
    w.granted[b] as int - w.refunded[b] as int
  }

  function Times(limit: nat, n: nat): nat {
    if n == 0 then 0 else Times(limit, n - 1) + limit
  }

  /** Each row that was inserted for the window allows the limit, and the row there is now what it counts. */
  predicate Accounted(w: World, b: Bucket) {
    var limit := RuleOf(b.scope).limit;
    if b in w.rows then
      w.inserted[b] > 0 && Net(w, b) <= Times(limit, w.inserted[b] - 1) + Min(w.rows[b], limit)
    else
      Net(w, b) <= Times(limit, w.inserted[b])
  }

  lemma StepAccounts(w: World, a: Action, b: Bucket)
    requires Enabled(w, a) && Accounted(w, b)
    ensures Accounted(Apply(w, a), b)
  {
    if a.Count? && w.calls[a.call].bucket == b {
      CountAccounts(w, a.call, b);
    }
  }

  lemma CountAccounts(w: World, call: nat, b: Bucket)
    requires Enabled(w, Count(call)) && w.calls[call].bucket == b && Accounted(w, b)
    ensures Accounted(CountStep(w, call), b)
  {
  }

  lemma {:induction false} RunAccounts(w: World, run: seq<Action>, b: Bucket)
    requires Legal(w, run) && Accounted(w, b)
    ensures Accounted(After(w, run), b)
    decreases |run|
  {
    if run == [] {
    } else {
      StepAccounts(w, run[0], b);
      RunAccounts(Apply(w, run[0]), run[1..], b);
    }
  }

  lemma TimesIs(limit: nat, n: nat)
    ensures Times(limit, n) == limit * n
  {
    if n == 0 {
    } else {
      TimesIs(limit, n - 1);
    }
  }

  /**
   * In every interleaving the net grants of a window are at most the limit for each time its row was
   * inserted: so at most the limit, unless a call of a later window deleted the row while a call that
   * had read its clock in this one was still to count itself.
   */
  lemma LimitAnInsertion(run: seq<Action>, b: Bucket)
    requires Legal(EMPTY, run)
    ensures Net(After(EMPTY, run), b) <= RuleOf(b.scope).limit * After(EMPTY, run).inserted[b]
    ensures After(EMPTY, run).inserted[b] <= 1 ==> Net(After(EMPTY, run), b) <= RuleOf(b.scope).limit
  {
    RunAccounts(EMPTY, run, b);
    var w, limit := After(EMPTY, run), RuleOf(b.scope).limit;
    TimesIs(limit, w.inserted[b]);
    if b in w.rows {
      TimesIs(limit, w.inserted[b] - 1);
    }
  }

  // ---------------------------------------------------------------- when a row is inserted again

  /** The step deletes the window's row. */
  predicate Removes(w: World, a: Action, b: Bucket)
    requires Enabled(w, a)
  {
    b in w.rows && b !in Apply(w, a).rows
  }

  function Removals(w: World, run: seq<Action>, b: Bucket): nat
    requires Legal(w, run)
    decreases |run|
  {
    if run == [] then 0
    else (if Removes(w, run[0], b) then 1 else 0) + Removals(Apply(w, run[0]), run[1..], b)
  }

  /** Only the DELETE of a call in a later window of the same subject removes it. */
  lemma OnlyLaterWindowsRemove(w: World, a: Action, b: Bucket)
    requires Enabled(w, a) && Removes(w, a, b)
    ensures a.Purge?
    ensures var p := w.calls[a.call].bucket;
            p.scope == b.scope && p.subject == b.subject && p.windowStart > b.windowStart
  {
  }

  /** A row is inserted once more than it was removed, if it is there, and as often if it is not. */
  lemma {:induction false} InsertedAfterRemovals(w: World, run: seq<Action>, b: Bucket)
    requires Legal(w, run)
    ensures After(w, run).inserted[b] + (if b in w.rows then 1 else 0)
            == w.inserted[b] + Removals(w, run, b) + (if b in After(w, run).rows then 1 else 0)
    decreases |run|
  {
    if run == [] {
    } else {
      InsertedAfterRemovals(Apply(w, run[0]), run[1..], b);
    }
  }

  // ---------------------------------------------------------------- a run over the limit

  lemma Unroll(w: World, a: Action, rest: seq<Action>)
    requires Enabled(w, a) && Legal(Apply(w, a), rest)
    ensures Legal(w, [a] + rest) && After(w, [a] + rest) == After(Apply(w, a), rest)
  {
    assert ([a] + rest)[1..] == rest;
  }

  /** `n` calls in the window have been granted, and nothing is under way. */
  predicate Filled(w: World, b: Bucket, n: nat) {
    && w.calls == map[] && CountOf(w.rows, b) == n && w.granted[b] == n && w.refunded[b] == 0
  }

  /** One call from its clock reading to its count. */
  lemma OneCall(w: World, scope: Scope, subject: string, n: nat, b: Bucket)
    requires b == Bucket(scope, subject, WindowStart(scope, 0)) && Filled(w, b, n) && n < RuleOf(scope).limit
    ensures Enabled(w, ReadClock(0, scope, subject, 0))
    ensures Enabled(Apply(w, ReadClock(0, scope, subject, 0)), Purge(0))
    ensures var v := Apply(Apply(w, ReadClock(0, scope, subject, 0)), Purge(0));
            Enabled(v, Count(0)) && Filled(CountStep(v, 0), b, n + 1)
  {
    var v := Apply(Apply(w, ReadClock(0, scope, subject, 0)), Purge(0));
    assert CountStep(v, 0).calls == map[];
  }

  lemma {:induction false} Fills(w: World, scope: Scope, subject: string, n: nat, b: Bucket) returns (run: seq<Action>)
    requires b == Bucket(scope, subject, WindowStart(scope, 0)) && Filled(w, b, n) && n <= RuleOf(scope).limit
    ensures Legal(w, run) && Filled(After(w, run), b, RuleOf(scope).limit)
    decreases RuleOf(scope).limit - n
  {
    if n == RuleOf(scope).limit {
      run := [];
    } else {
      OneCall(w, scope, subject, n, b);
      var w1 := Apply(w, ReadClock(0, scope, subject, 0));
      var w2 := Apply(w1, Purge(0));
      var rest := Fills(CountStep(w2, 0), scope, subject, n + 1, b);
      Unroll(w2, Count(0), rest);
      Unroll(w1, Purge(0), [Count(0)] + rest);
      Unroll(w, ReadClock(0, scope, subject, 0), [Purge(0)] + ([Count(0)] + rest));
      run := [ReadClock(0, scope, subject, 0)] + ([Purge(0)] + ([Count(0)] + rest));
    }
  }

  lemma {:induction false} AfterBoth(w: World, s: seq<Action>, t: seq<Action>)
    requires Legal(w, s) && Legal(After(w, s), t)
    ensures Legal(w, s + t) && After(w, s + t) == After(After(w, s), t)
    decreases |s|
  {
    if s == [] {
      assert s + t == t;
    } else {
      AfterBoth(Apply(w, s[0]), s[1..], t);
      Unroll(w, s[0], s[1..] + t);
      assert [s[0]] + (s[1..] + t) == s + t;
    }
  }

  /**
   * A full window: call 0 reads its clock in it, call 1 reads its clock in the next one and deletes the
   * row, and call 0 counts itself as the first.
   */
  function Late(scope: Scope, subject: string): seq<Action> {
    [ReadClock(0, scope, subject, 0), Purge(0), ReadClock(1, scope, subject, RuleOf(scope).windowMs), Purge(1), Count(0)]
  }

  lemma LateCallIsGranted(w: World, scope: Scope, subject: string, b: Bucket)
    requires b == Bucket(scope, subject, WindowStart(scope, 0)) && Filled(w, b, RuleOf(scope).limit)
    ensures Legal(w, Late(scope, subject))
    ensures Net(After(w, Late(scope, subject)), b) == RuleOf(scope).limit + 1
  {
    var run, width := Late(scope, subject), RuleOf(scope).windowMs;
    var w1 := Apply(w, run[0]);
    var w2 := Apply(w1, run[1]);
    var w3 := Apply(w2, run[2]);
    FloorFacts(width, width);
    var w4 := Apply(w3, run[3]);
    assert b !in w4.rows;
    Unroll(w4, run[4], []);
    Unroll(w3, run[3], [run[4]] + []);
    Unroll(w2, run[2], [run[3]] + ([run[4]] + []));
    Unroll(w1, run[1], [run[2]] + ([run[3]] + ([run[4]] + [])));
    Unroll(w, run[0], [run[1]] + ([run[2]] + ([run[3]] + ([run[4]] + []))));
    assert [run[0]] + ([run[1]] + ([run[2]] + ([run[3]] + ([run[4]] + [])))) == run;
  }

  /** So for every scope and subject some run grants one more than the limit in one window. */
  lemma OneOverTheLimit(scope: Scope, subject: string) returns (run: seq<Action>)
    ensures Legal(EMPTY, run)
    ensures Net(After(EMPTY, run), Bucket(scope, subject, WindowStart(scope, 0))) == RuleOf(scope).limit + 1
  {
    var b := Bucket(scope, subject, WindowStart(scope, 0));
    var filling := Fills(EMPTY, scope, subject, 0, b);
    LateCallIsGranted(After(EMPTY, filling), scope, subject, b);
    AfterBoth(EMPTY, filling, Late(scope, subject));
    run := filling + Late(scope, subject);
  }
}
