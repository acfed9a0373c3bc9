/**
 * The tile worker pool of one profile request: cooperative workers over one cursor and one deadline,
 * under every interleaving of their steps.
 */
module TileWorkers {
  datatype Answer<G> = Ok(grid: G) | NoData | Failed

  datatype Worker = Idle | Fetching(job: nat) | Stopped

  /** `keys` are the missing tiles, one key each; `answers[j]` is what fetching tile `j` would give. */
  datatype Plan<K, G> = Plan(keys: seq<K>, answers: seq<Answer<G>>, cached: map<K, G>, concurrency: nat)
  {
    ghost predicate Valid() {
      && |keys| == |answers| > 0 && concurrency > 0
      && (forall i, j :: 0 <= i < j < |keys| ==> keys[i] != keys[j])
      && (forall i :: 0 <= i < |keys| ==> keys[i] !in cached)
    }

    function WorkerCount(): nat {
      if concurrency <= |keys| then concurrency else |keys|
    }
  }

  /** `landed` are the jobs whose fetch came back; the counters and the map are the request's own. */
  datatype Pool<K, G> = Pool(cursor: nat, expired: bool, workers: seq<Worker>, started: seq<nat>, landed: set<nat>,
                             attempted: nat, noData: nat, resolved: map<K, G>)

  datatype Action = Wake(worker: nat) | Land(worker: nat) | Expire

  function Begin<K, G>(p: Plan<K, G>): (s: Pool<K, G>)
    requires p.Valid()
    ensures Inv(p, s)
  {
    NothingLandedYet(p);
    Pool(0, false, seq(p.WorkerCount(), _ => Idle), [], {}, 0, 0, p.cached)
  }

  predicate Enabled<K, G>(s: Pool<K, G>, a: Action) {
    match a
    case Wake(i) => i < |s.workers| && s.workers[i].Idle?
    case Land(i) => i < |s.workers| && s.workers[i].Fetching?
    case Expire => !s.expired
  }

  /** From the top of the loop to the fetch or the return: the index is taken before either check. */
  function WakeStep<K, G>(p: Plan<K, G>, s: Pool<K, G>, i: nat): Pool<K, G>
    requires Enabled(s, Wake(i))
  {
    var index := s.cursor;
    var s1 := s.(cursor := s.cursor + 1);
    if index >= |p.keys| || s.expired then s1.(workers := s.workers[i := Stopped])
    else s1.(workers := s.workers[i := Fetching(index)], started := s.started + [index])
  }

  /** The fetch of worker `i` comes back. */
  function LandStep<K, G>(p: Plan<K, G>, s: Pool<K, G>, i: nat): Pool<K, G>
    requires Enabled(s, Land(i)) && s.workers[i].job < |p.keys| == |p.answers|
  {
    var j := s.workers[i].job;
    var s1 := s.(workers := s.workers[i := Idle], landed := s.landed + {j}, attempted := s.attempted + 1);
    match p.answers[j]
    case Ok(grid) => s1.(resolved := s.resolved[p.keys[j] := grid])
    case NoData => s1.(noData := s.noData + 1)
    case Failed => s1
  }

  predicate JobsExist<K, G>(p: Plan<K, G>, s: Pool<K, G>) {
    forall i :: 0 <= i < |s.workers| && s.workers[i].Fetching? ==> s.workers[i].job < |p.keys| == |p.answers|
  }

  function Apply<K, G>(p: Plan<K, G>, s: Pool<K, G>, a: Action): Pool<K, G>
    requires JobsExist(p, s) && Enabled(s, a)
  {
    match a
    case Wake(i) => WakeStep(p, s, i)
    case Land(i) => LandStep(p, s, i)
    case Expire => s.(expired := true)
  }

  // ---------------------------------------------------------------- the sequential form

  /** What one worker alone has after the first `k` jobs. */
  function Sequential<K, G>(p: Plan<K, G>, k: nat): (map<K, G>, nat, nat)
    requires k <= |p.keys| == |p.answers|
  {
    if k == 0 then (p.cached, 0, 0)
    else
      var (resolved, attempted, noData) := Sequential(p, k - 1);
      match p.answers[k - 1]
      case Ok(grid) => (resolved[p.keys[k - 1] := grid], attempted + 1, noData)
      case NoData => (resolved, attempted + 1, noData + 1)
      case Failed => (resolved, attempted + 1, noData)
  }

  /** The worker loop itself, run alone with a deadline that passes before job `limit`. */
  method RunAlone<K(==), G>(p: Plan<K, G>, limit: nat) returns (resolved: map<K, G>, attempted: nat, noData: nat)
    requires p.Valid()
    ensures (resolved, attempted, noData) == Sequential(p, if limit <= |p.keys| then limit else |p.keys|)
  {
    resolved, attempted, noData := p.cached, 0, 0;
    var cursor := 0;
    while true
      invariant cursor <= |p.keys| && cursor <= limit
      invariant (resolved, attempted, noData) == Sequential(p, cursor)
      decreases |p.keys| - cursor
    {
      var index := cursor;
      if index == |p.keys| || index == limit {
        return;
      }
      cursor := cursor + 1;
      attempted := attempted + 1;
      match p.answers[index]
      case Ok(grid) => resolved := resolved[p.keys[index] := grid];
      case NoData => noData := noData + 1;
      case Failed =>
    }
  }

  // ---------------------------------------------------------------- what the counters mean

  /** The answer to the tile with key `k`. */
  ghost function AnswerTo<K, G>(p: Plan<K, G>, k: K): Answer<G>
    requires p.Valid() && k in p.keys
  {
    var j :| 0 <= j < |p.keys| && p.keys[j] == k;
    p.answers[j]
  }

  /** The keys of the jobs of `done` that were answered with a grid. */
  ghost function OkKeys<K, G>(p: Plan<K, G>, done: set<nat>): set<K>
    requires p.Valid() && forall j :: j in done ==> j < |p.keys|
  {
    set j | j in done && p.answers[j].Ok? :: p.keys[j]
  }

  lemma OkKeyAnswer<K, G>(p: Plan<K, G>, done: set<nat>, k: K)
    requires p.Valid() && (forall j :: j in done ==> j < |p.keys|) && k in OkKeys(p, done)
    ensures k in p.keys && AnswerTo(p, k).Ok?
  {
  }

  /** The resolved map once exactly the jobs of `done` have landed, in whatever order. */
  ghost function ResolvedBy<K, G>(p: Plan<K, G>, done: set<nat>): map<K, G>
    requires p.Valid() && forall j :: j in done ==> j < |p.keys|
  {
    map k | k in p.cached.Keys + OkKeys(p, done) ::
      if k in p.cached then p.cached[k] else (OkKeyAnswer(p, done, k); AnswerTo(p, k).grid)
  }

  ghost function NoDataIn<K, G>(p: Plan<K, G>, done: set<nat>): set<nat>
    requires p.Valid() && forall j :: j in done ==> j < |p.keys|
  {
    set j | j in done && p.answers[j].NoData?
  }

  /** A job is under way with one worker, and with no other. */
  predicate InFlight<K, G>(s: Pool<K, G>, i: nat, j: nat) {
    i < |s.workers| && s.workers[i] == Fetching(j)
  }

  lemma NothingLandedYet<K, G>(p: Plan<K, G>)
    requires p.Valid()
    ensures ResolvedBy(p, {}) == p.cached && NoDataIn(p, {}) == {}
  {
    assert OkKeys(p, {}) == {};
  }

  ghost predicate Inv<K, G>(p: Plan<K, G>, s: Pool<K, G>) {
    && p.Valid() && |s.workers| == p.WorkerCount()
    && InvStarts(p, s) && InvFlights(s) && InvResults(p, s)
  }

  /** Jobs start in the order of the cursor, each once, and until the deadline none is skipped. */
  predicate InvStarts<K, G>(p: Plan<K, G>, s: Pool<K, G>) {
    && |s.started| <= |p.keys| && |s.started| <= s.cursor
    && (!s.expired ==> |s.started| == if s.cursor <= |p.keys| then s.cursor else |p.keys|)
    && (forall j :: 0 <= j < |s.started| ==> s.started[j] == j)
    && (!s.expired ==> forall i :: 0 <= i < |s.workers| && s.workers[i].Stopped? ==> s.cursor > |p.keys|)
  }

  /** A started job is with exactly one worker until it lands, and then with none. */
  ghost predicate InvFlights<K, G>(s: Pool<K, G>) {
    && (forall j :: j in s.landed ==> j < |s.started|)
    && (forall i: nat, j: nat :: InFlight(s, i, j) ==> j < |s.started| && j !in s.landed)
    && (forall i: nat, k: nat, j: nat :: InFlight(s, i, j) && InFlight(s, k, j) ==> i == k)
    && (forall j: nat :: j < |s.started| && j !in s.landed ==> Under(s, j))
  }

  ghost predicate Under<K, G>(s: Pool<K, G>, j: nat) {
    exists i: nat :: InFlight(s, i, j)
  }

  ghost predicate InvResults<K, G>(p: Plan<K, G>, s: Pool<K, G>)
    requires p.Valid()
  {
    && (forall j :: j in s.landed ==> j < |p.keys|)
    && s.attempted == |s.landed| && s.noData == |NoDataIn(p, s.landed)|
    && s.resolved == ResolvedBy(p, s.landed)
  }

  lemma WakeKeeps<K, G>(p: Plan<K, G>, s: Pool<K, G>, i: nat)
    requires Inv(p, s) && Enabled(s, Wake(i))
    ensures Inv(p, WakeStep(p, s, i))
  {
    var s' := WakeStep(p, s, i);
    forall j: nat | j < |s'.started| && j !in s'.landed
      ensures Under(s', j)
    {
      if j < |s.started| {
        assert Under(s, j);
        var k: nat :| InFlight(s, k, j);
        assert InFlight(s', k, j);
      } else {
        assert InFlight(s', i, j);
      }
    }
    forall k: nat, j: nat | InFlight(s', k, j)
      ensures j < |s'.started| && j !in s'.landed && (k != i ==> InFlight(s, k, j))
    {
      if k != i {
        assert InFlight(s, k, j);
      }
    }
  }

  lemma LandKeepsFlights<K, G>(p: Plan<K, G>, s: Pool<K, G>, i: nat)
    requires InvFlights(s) && Enabled(s, Land(i)) && s.workers[i].job < |p.keys| == |p.answers|
    ensures InvFlights(LandStep(p, s, i))
  {
    var s' := LandStep(p, s, i);
    var landed := s.workers[i].job;
    assert InFlight(s, i, landed);
    forall k: nat, j: nat | InFlight(s', k, j)
      ensures InFlight(s, k, j) && j != landed
    {
      assert InFlight(s, k, j);
    }
    forall j: nat | j < |s'.started| && j !in s'.landed
      ensures Under(s', j)
    {
      assert Under(s, j);
      var k: nat :| InFlight(s, k, j);
      assert InFlight(s', k, j);
    }
  }

  lemma LandKeepsResults<K, G>(p: Plan<K, G>, s: Pool<K, G>, i: nat)
    requires p.Valid() && InvResults(p, s) && Enabled(s, Land(i)) && s.workers[i].job < |p.keys|
    requires s.workers[i].job !in s.landed
    ensures InvResults(p, LandStep(p, s, i))
  {
    var j := s.workers[i].job;
    var s' := LandStep(p, s, i);
    NoDataGrows(p, s.landed, j);
    ResolvedGrows(p, s.landed, j);
  }

  lemma ResolvedGrows<K, G>(p: Plan<K, G>, done: set<nat>, j: nat)
    requires p.Valid() && j < |p.keys| && forall k :: k in done ==> k < |p.keys|
    ensures ResolvedBy(p, done + {j})
            == if p.answers[j].Ok? then ResolvedBy(p, done)[p.keys[j] := p.answers[j].grid] else ResolvedBy(p, done)
  {
    assert AnswerTo(p, p.keys[j]) == p.answers[j];
    if p.answers[j].Ok? {
      assert OkKeys(p, done + {j}) == OkKeys(p, done) + {p.keys[j]};
    } else {
      assert OkKeys(p, done + {j}) == OkKeys(p, done);
    }
  }

  lemma FetchedJobIsOut<K, G>(s: Pool<K, G>, i: nat)
    requires InvFlights(s) && i < |s.workers| && s.workers[i].Fetching?
    ensures s.workers[i].job < |s.started| && s.workers[i].job !in s.landed
  {
    assert InFlight(s, i, s.workers[i].job);
  }

  lemma JobsAreKnown<K, G>(p: Plan<K, G>, s: Pool<K, G>)
    requires Inv(p, s)
    ensures JobsExist(p, s)
  {
    forall i | 0 <= i < |s.workers| && s.workers[i].Fetching?
      ensures s.workers[i].job < |p.keys|
    {
      FetchedJobIsOut(s, i);
    }
  }

  lemma LandKeepsStarts<K, G>(p: Plan<K, G>, s: Pool<K, G>, i: nat)
    requires InvStarts(p, s) && Enabled(s, Land(i)) && s.workers[i].job < |p.keys| == |p.answers|
    ensures InvStarts(p, LandStep(p, s, i)) && |LandStep(p, s, i).workers| == |s.workers|
  {
  }

  lemma LandKeeps<K, G>(p: Plan<K, G>, s: Pool<K, G>, i: nat)
    requires Inv(p, s) && Enabled(s, Land(i)) && s.workers[i].job < |p.keys| == |p.answers|
    ensures Inv(p, LandStep(p, s, i))
  {
    FetchedJobIsOut(s, i);
    LandKeepsStarts(p, s, i);
    LandKeepsFlights(p, s, i);
    LandKeepsResults(p, s, i);
  }

  lemma ExpireKeepsFlights<K, G>(s: Pool<K, G>)
    requires InvFlights(s)
    ensures InvFlights(s.(expired := true))
  {
    var s' := s.(expired := true);
    forall i: nat, j: nat | InFlight(s', i, j)
      ensures InFlight(s, i, j)
    {
    }
    forall j: nat | j < |s.started| && j !in s.landed
      ensures Under(s', j)
    {
      assert Under(s, j);
      var i: nat :| InFlight(s, i, j);
      assert InFlight(s', i, j);
    }
  }

  lemma ApplyKeeps<K, G>(p: Plan<K, G>, s: Pool<K, G>, a: Action)
    requires Inv(p, s) && Enabled(s, a)
    ensures JobsExist(p, s) && Inv(p, Apply(p, s, a))
  {
    JobsAreKnown(p, s);
    match a
    case Wake(i) => WakeKeeps(p, s, i);
    case Land(i) => LandKeeps(p, s, i);
    case Expire => ExpireKeepsFlights(s);
  }

  // ---------------------------------------------------------------- every interleaving

  ghost predicate Legal<K, G>(p: Plan<K, G>, s: Pool<K, G>, run: seq<Action>)
    requires Inv(p, s)
    decreases |run|
  {
    run == []
    || (Enabled(s, run[0]) && (ApplyKeeps(p, s, run[0]); Legal(p, Apply(p, s, run[0]), run[1..])))
  }

  ghost function After<K, G>(p: Plan<K, G>, s: Pool<K, G>, run: seq<Action>): (r: Pool<K, G>)
    requires Inv(p, s) && Legal(p, s, run)
    ensures Inv(p, r)
    decreases |run|
  {
    if run == [] then s
    else
      ApplyKeeps(p, s, run[0]);
      After(p, Apply(p, s, run[0]), run[1..])
  }

  predicate Finished<K, G>(s: Pool<K, G>) {
    forall i :: 0 <= i < |s.workers| ==> s.workers[i].Stopped?
  }

  ghost function InFlightJobs<K, G>(s: Pool<K, G>): set<nat> {
    set i: nat | i < |s.workers| && s.workers[i].Fetching? :: i
  }

  lemma {:induction false} IndicesBelow(s: set<nat>, n: nat)
    requires forall i :: i in s ==> i < n
    ensures |s| <= n
    decreases n
  {
    if n == 0 {
    } else {
      IndicesBelow(s - {n - 1}, n - 1);
      assert |s| <= |s - {n - 1}| + 1;
    }
  }

  /**
   * At every moment of every interleaving: the jobs started are exactly the first so many of the
   * list, each started once; no more are under way than the smaller of the concurrency limit and
   * the number of missing tiles; and until the deadline no tile is passed over.
   */
  lemma StartsAreAPrefix<K, G>(p: Plan<K, G>, run: seq<Action>)
    requires p.Valid() && Legal(p, Begin(p), run)
    ensures var s := After(p, Begin(p), run);
            && |s.started| <= |p.keys|
            && (forall j :: 0 <= j < |s.started| ==> s.started[j] == j)
            && |InFlightJobs(s)| <= p.concurrency && |InFlightJobs(s)| <= |p.keys|
            && (!s.expired ==> |s.started| == if s.cursor <= |p.keys| then s.cursor else |p.keys|)
  {
    IndicesBelow(InFlightJobs(After(p, Begin(p), run)), p.WorkerCount());
  }

  /** Bounds the steps still possible: a job to start, a fetch to land, a worker to stop, a deadline to pass. */
  function Remaining<K, G>(p: Plan<K, G>, s: Pool<K, G>): nat
    requires |s.started| <= |p.keys|
  {
    2 * (|p.keys| - |s.started|) + Busy(s.workers) + if s.expired then 0 else 1
  }

  function Busy(workers: seq<Worker>): nat {
    if workers == [] then 0
    else Busy(workers[..|workers| - 1]) + match workers[|workers| - 1]
         case Idle => 1 case Fetching(_) => 2 case Stopped => 0
  }

  function Weight(w: Worker): nat {
    match w case Idle => 1 case Fetching(_) => 2 case Stopped => 0
  }

  lemma {:induction false} BusyUpdate(workers: seq<Worker>, i: nat, w: Worker)
    requires i < |workers|
    ensures Busy(workers[i := w]) == Busy(workers) - Weight(workers[i]) + Weight(w)
  {
    var n := |workers| - 1;
    if i == n {
      assert workers[i := w][..n] == workers[..n];
    } else {
      assert workers[i := w][..n] == workers[..n][i := w];
      BusyUpdate(workers[..n], i, w);
    }
  }

  lemma WakeRunsDown<K, G>(p: Plan<K, G>, s: Pool<K, G>, i: nat)
    requires InvStarts(p, s) && Enabled(s, Wake(i)) && |WakeStep(p, s, i).started| <= |p.keys|
    ensures Remaining(p, WakeStep(p, s, i)) < Remaining(p, s)
  {
    BusyUpdate(s.workers, i, WakeStep(p, s, i).workers[i]);
  }

  lemma LandRunsDown<K, G>(p: Plan<K, G>, s: Pool<K, G>, i: nat)
    requires InvStarts(p, s) && Enabled(s, Land(i)) && s.workers[i].job < |p.keys| == |p.answers|
    ensures Remaining(p, LandStep(p, s, i)) < Remaining(p, s)
  {
    BusyUpdate(s.workers, i, Idle);
  }

  lemma StepsRunDown<K, G>(p: Plan<K, G>, s: Pool<K, G>, a: Action)
    requires Inv(p, s) && Enabled(s, a) && JobsExist(p, s) && |Apply(p, s, a).started| <= |p.keys|
    ensures Remaining(p, Apply(p, s, a)) < Remaining(p, s)
  {
    match a
    case Wake(i) => WakeRunsDown(p, s, i);
    case Land(i) => LandRunsDown(p, s, i);
    case Expire =>
  }

  /** Every interleaving ends: no run is longer than twice the tiles, plus the workers, plus the deadline. */
  lemma {:induction false} RunsAreBounded<K, G>(p: Plan<K, G>, s: Pool<K, G>, run: seq<Action>)
    requires Inv(p, s) && Legal(p, s, run)
    ensures |run| <= Remaining(p, s)
    decreases |run|
  {
    if run == [] {
    } else {
      ApplyKeeps(p, s, run[0]);
      StepsRunDown(p, s, run[0]);
      RunsAreBounded(p, Apply(p, s, run[0]), run[1..]);
    }
  }

  /** And it ends only when every worker has stopped. */
  lemma NotStuck<K, G>(p: Plan<K, G>, s: Pool<K, G>)
    requires !Finished(s)
    ensures exists a :: Enabled(s, a) && !a.Expire?
  {
    var i :| 0 <= i < |s.workers| && !s.workers[i].Stopped?;
    assert Enabled(s, Wake(i)) || Enabled(s, Land(i));
  }

  function FirstJobs(k: nat): (r: set<nat>)
    ensures |r| == k && forall j: nat :: j in r <==> j < k
  {
    if k == 0 then {} else FirstJobs(k - 1) + {k - 1}
  }

  lemma OneMoreJob<K, G>(p: Plan<K, G>, k: nat, before: map<K, G>, noData: nat, after: map<K, G>)
    requires k < |p.keys| == |p.answers| && Sequential(p, k) == (before, k, noData)
    requires after == if p.answers[k].Ok? then before[p.keys[k] := p.answers[k].grid] else before
    ensures Sequential(p, k + 1) == (after, k + 1, noData + if p.answers[k].NoData? then 1 else 0)
  {
  }

  ghost predicate SequentialHas<K, G>(p: Plan<K, G>, k: nat, done: set<nat>)
    requires p.Valid() && k <= |p.keys| && forall j :: j in done ==> j < |p.keys|
  {
    Sequential(p, k) == (ResolvedBy(p, done), k, |NoDataIn(p, done)|)
  }

  lemma JobGrows<K, G>(p: Plan<K, G>, k: nat, done: set<nat>)
    requires p.Valid() && k < |p.keys| && k !in done && forall j :: j in done ==> j < |p.keys|
    requires SequentialHas(p, k, done)
    ensures SequentialHas(p, k + 1, done + {k})
  {
    ResolvedGrows(p, done, k);
    NoDataGrows(p, done, k);
    OneMoreJob(p, k, ResolvedBy(p, done), |NoDataIn(p, done)|, ResolvedBy(p, done + {k}));
  }

  /** The sequential worker's results in closed form. */
  lemma {:induction false} SequentialIs<K, G>(p: Plan<K, G>, k: nat)
    requires p.Valid() && k <= |p.keys|
    ensures SequentialHas(p, k, FirstJobs(k))
  {
    if k == 0 {
      NothingLandedYet(p);
    } else {
      SequentialIs(p, k - 1);
      JobGrows(p, k - 1, FirstJobs(k - 1));
    }
  }

  lemma NoDataGrows<K, G>(p: Plan<K, G>, done: set<nat>, j: nat)
    requires p.Valid() && j < |p.keys| && j !in done && forall k :: k in done ==> k < |p.keys|
    ensures |NoDataIn(p, done + {j})| == |NoDataIn(p, done)| + if p.answers[j].NoData? then 1 else 0
  {
    if p.answers[j].NoData? {
      assert NoDataIn(p, done + {j}) == NoDataIn(p, done) + {j};
    } else {
      assert NoDataIn(p, done + {j}) == NoDataIn(p, done);
    }
  }

  /**
   * Whatever the interleaving, once every worker has stopped the request has exactly what one
   * sequential worker has after the same number of jobs; and that is all of them if the deadline
   * never passed.
   */
  lemma EveryInterleavingIsSequential<K, G>(p: Plan<K, G>, run: seq<Action>)
    requires p.Valid() && Legal(p, Begin(p), run) && Finished(After(p, Begin(p), run))
    ensures var s := After(p, Begin(p), run);
            && |s.started| <= |p.keys|
            && (s.resolved, s.attempted, s.noData) == Sequential(p, |s.started|)
            && (!s.expired ==> |s.started| == |p.keys|)
  {
    var s := After(p, Begin(p), run);
    var k := |s.started|;
    forall j: nat | j < k
      ensures j in s.landed
    {
      AllLanded(s, j);
    }
    assert s.landed == FirstJobs(k);
    SequentialIs(p, k);
    assert s.workers[0].Stopped?;
  }

  lemma AllLanded<K, G>(s: Pool<K, G>, j: nat)
    requires InvFlights(s) && Finished(s) && j < |s.started|
    ensures j in s.landed
  {
    assert forall i: nat :: !InFlight(s, i, j);
    assert !Under(s, j);
  }
}
