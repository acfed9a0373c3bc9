/**
 * The account requests together with the counters that limit them: whatever else is served in between,
 * no window sees more granted logins, password changes and deletions, or reset tokens, than its limit.
 */
module AuthLimits {
  import opened Options
  import opened AuthSessions
  import E = AuthEffects
  import R = RateLimits

  /** The accounts, and the counters with every unit taken from them so far. */
  datatype World = World(db: Auth, limits: R.History)

  const START := World(EMPTY, R.START)

  /** `address` and `subject` are what a limiter counts by; `Other` is a request without a limiter. */
  datatype Call =
    | LogIn(address: string, userId: nat, password: nat, now: int)
    | ChangePassword(subject: string, access: Option<AccessToken>, current: nat, replacement: nat, salt: nat, now: int)
    | DeleteAccount(subject: string, access: Option<AccessToken>, password: nat, now: int)
    | AskReset(address: string, userId: nat, now: int)
    | Other(request: Request)

  /** What the call is counted under; the guard comes before the limiter. */
  function Charge(w: World, c: Call): Option<R.Call> {
    match c
    case LogIn(address, _, _, now) => Some(R.Consume(R.LoginEmail, address, now))
    case ChangePassword(subject, access, _, _, _, now) =>
      if Admits(w.db, access, now) then Some(R.Consume(R.PasswordChange, subject, now)) else None
    case DeleteAccount(subject, access, _, now) =>
      if Admits(w.db, access, now) then Some(R.Consume(R.PasswordChange, subject, now)) else None
    case AskReset(address, _, now) => Some(R.Consume(R.PasswordResetEmail, address, now))
    case Other(_) => None
  }

  ghost predicate Allowed(w: World, c: Call) {
    && Inv(w.db)
    && (Charge(w, c).Some? ==> R.Allowed(w.limits, Charge(w, c).value))
    && (c.Other? ==> !c.request.Login? && !c.request.Change? && !c.request.Delete? && !c.request.RequestReset?)
  }

  /** The limiter lets the call through. */
  predicate LetThrough(w: World, c: Call) {
    match Charge(w, c)
    case None => true
    case Some(charge) => charge.Consume? && R.Consumed(w.limits.rows, charge.scope, charge.subject, charge.now).1.allowed
  }

  function RequestOf(w: World, c: Call): Request {
    match c
    case LogIn(_, userId, password, now) => Login(userId, password, LetThrough(w, c), now)
    case ChangePassword(_, access, current, replacement, salt, now) =>
      Change(access, current, replacement, salt, LetThrough(w, c), now)
    case DeleteAccount(_, access, password, now) => Delete(access, password, LetThrough(w, c), now)
    case AskReset(_, userId, now) => RequestReset(userId, LetThrough(w, c), now)
    case Other(request) => request
  }

  ghost function Next(w: World, c: Call): World
    requires Allowed(w, c)
  {
    World(Served(w.db, RequestOf(w, c)),
          match Charge(w, c) case None => w.limits case Some(charge) => R.Next(w.limits, charge))
  }

  ghost predicate Legal(w: World, calls: seq<Call>)
    decreases |calls|
  {
    calls == [] || (Allowed(w, calls[0]) && Legal(Next(w, calls[0]), calls[1..]))
  }

  ghost function After(w: World, calls: seq<Call>): World
    requires Legal(w, calls)
    decreases |calls|
  {
    if calls == [] then w else After(Next(w, calls[0]), calls[1..])
  }

  /** The call did what it asks for: a session, a new password, a deletion, a reset token. */
  ghost predicate Succeeds(w: World, c: Call)
    requires Allowed(w, c)
  {
    var a := Serve(w.db, RequestOf(w, c)).1;
    match c
    case LogIn(_, _, _, _) => a.Granted?
    case ChangePassword(_, _, _, _, _, _) => a.Granted?
    case DeleteAccount(_, _, _, _) => a == Accepted
    case AskReset(_, _, _) => Served(w.db, RequestOf(w, c)).resets != w.db.resets
    case Other(_) => false
  }

  /** The window the call is counted in. */
  predicate CountsIn(w: World, c: Call, b: R.Bucket) {
    match Charge(w, c)
    case None => false
    case Some(charge) => charge.Consume? && b == R.Bucket(charge.scope, charge.subject, R.WindowStart(charge.scope, charge.now))
  }

  ghost function SuccessCount(w: World, calls: seq<Call>, b: R.Bucket): nat
    requires Legal(w, calls)
    decreases |calls|
  {
    if calls == [] then 0
    else
      (if Succeeds(w, calls[0]) && CountsIn(w, calls[0], b) then 1 else 0) + SuccessCount(Next(w, calls[0]), calls[1..], b)
  }

  /** What succeeds was let through. */
  lemma SuccessIsLetThrough(w: World, c: Call)
    requires Allowed(w, c) && Succeeds(w, c)
    ensures Charge(w, c).Some? && LetThrough(w, c)
  {
    match c
    case LogIn(_, userId, password, now) => E.LoginGrantedIff(w.db, userId, password, LetThrough(w, c), now);
    case ChangePassword(_, access, current, replacement, salt, now) =>
      if Admits(w.db, access, now) {
        E.ChangeGrantedIff(w.db, access.value.sub, current, replacement, salt, LetThrough(w, c), now);
      }
    case DeleteAccount(_, access, password, now) =>
      if Admits(w.db, access, now) {
        E.DeleteAcceptedIff(w.db, access.value.sub, password, LetThrough(w, c));
      }
    case AskReset(_, userId, now) =>
  }

  lemma NextCounts(w: World, c: Call, b: R.Bucket)
    requires Allowed(w, c)
    ensures R.NetCount(Next(w, c).limits.grants, b)
            >= R.NetCount(w.limits.grants, b) + if Succeeds(w, c) && CountsIn(w, c, b) then 1 else 0
  {
    if Succeeds(w, c) {
      SuccessIsLetThrough(w, c);
    }
    match Charge(w, c)
    case None =>
    case Some(charge) =>
      var o := R.Consumed(w.limits.rows, charge.scope, charge.subject, charge.now).1;
      R.NetCountAppend(w.limits.grants, R.Grant(charge.scope, charge.subject, charge.now, o.allowed, false), b);
  }

  lemma {:induction false} RunCounts(w: World, calls: seq<Call>, b: R.Bucket)
    requires Legal(w, calls) && R.BucketOk(w.limits, b)
    ensures R.NetCount(w.limits.grants, b) + SuccessCount(w, calls, b) <= R.RuleOf(b.scope).limit
    decreases |calls|
  {
    if calls == [] {
    } else {
      var c := calls[0];
      NextCounts(w, c, b);
      if Charge(w, c).Some? {
        R.NextKeeps(w.limits, Charge(w, c).value, b);
      }
      RunCounts(Next(w, c), calls[1..], b);
    }
  }

  /**
   * Over any run: at most ten logins of one address are granted in a quarter of an hour of the clock,
   * at most five password changes and deletions of one subject together, and at most three reset tokens
   * are made for one address in an hour.
   */
  lemma LimitsHold(calls: seq<Call>, b: R.Bucket)
    requires Legal(START, calls)
    ensures b.scope == R.LoginEmail ==> SuccessCount(START, calls, b) <= 10
    ensures b.scope == R.PasswordChange ==> SuccessCount(START, calls, b) <= 5
    ensures b.scope == R.PasswordResetEmail ==> SuccessCount(START, calls, b) <= 3
  {
    RunCounts(START, calls, b);
  }
}
