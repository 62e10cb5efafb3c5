/**
 * Login throttling and account locking (src/modules/auth/auth-login-security.service.ts, called from
 * src/modules/auth/auth.service.ts). Attempts are sequential; time passes between and inside them.
 */
module Login {
  import opened Common
  import opened Redis

  datatype Config = Config(limit: int, windowSeconds: int, lockAfter: int, lockSeconds: int)

  predicate Sane(cfg: Config) {
    cfg.limit > 0 && cfg.windowSeconds > 0 && cfg.lockAfter > 0 && cfg.lockSeconds > 0
  }

  datatype Guard = Ok | Locked(retryAfter: int) | RateLimited(retryAfter: int)

  function IpKey(ip: string): string { "rate:login:ip:" + ip }
  function UserKey(username: string): string { "rate:login:user:" + username }
  function LockKey(username: string): string { "auth:login:lock:" + username }
  function StrikesKey(username: string): string { "auth:login:strikes:" + username }

  /** The four families of keys never meet, and within a family different names give different keys. */
  lemma KeysAreApart(ip: string, a: string, b: string)
    ensures IpKey(ip) != UserKey(a) && IpKey(ip) != LockKey(a) && IpKey(ip) != StrikesKey(a)
    ensures UserKey(a) != LockKey(b) && UserKey(a) != StrikesKey(b) && LockKey(a) != StrikesKey(b)
    ensures UserKey(a) == UserKey(b) ==> a == b
    ensures LockKey(a) == LockKey(b) ==> a == b
  {
    assert IpKey(ip)[0] == 'r' && IpKey(ip)[11] == 'i' && UserKey(a)[0] == 'r' && UserKey(a)[11] == 'u';
    assert LockKey(a)[0] == 'a' && LockKey(a)[11] == 'l' && StrikesKey(a)[0] == 'a' && StrikesKey(b)[11] == 's';
    assert LockKey(b)[0] == 'a' && StrikesKey(b)[0] == 'a';
    assert UserKey(a)[16..] == a && UserKey(b)[16..] == b;
    assert LockKey(a)[16..] == a && LockKey(b)[16..] == b;
  }

  function Check(s: Store, cfg: Config, ip: string, username: string): (Guard, Store) {
    if Ttl(s, LockKey(username)) > 0 then (Locked(Ttl(s, LockKey(username))), s)
    else
      var s1 := IncrWindow(s, IpKey(ip), cfg.windowSeconds);
      if Counter(s1, IpKey(ip)) > cfg.limit then (RateLimited(Ttl(s1, IpKey(ip))), s1)
      else
        var s2 := IncrWindow(s1, UserKey(username), cfg.windowSeconds);
        if Counter(s2, UserKey(username)) > cfg.limit then (RateLimited(Ttl(s2, UserKey(username))), s2) else (Ok, s2)
  }

  /** A failure is counted again on both limiters, then as a strike, and enough strikes lock the account. */
  function RecordFailure(s: Store, cfg: Config, ip: string, username: string): (bool, Store) {
    var s1 := IncrWindow(s, IpKey(ip), cfg.windowSeconds);
    var s2 := IncrWindow(s1, UserKey(username), cfg.windowSeconds);
    var s3 := IncrWindow(s2, StrikesKey(username), cfg.windowSeconds);
    Struck(s3, cfg, username)
  }

  /** The last step of recording a failure: enough strikes lock the account. */
  function Struck(s: Store, cfg: Config, username: string): (bool, Store) {
    if Counter(s, StrikesKey(username)) >= cfg.lockAfter
    then (true, Redis.Put(s, LockKey(username), Text("1"), cfg.lockSeconds)) else (false, s)
  }

  function Clear(s: Store, username: string): Store {
    Remove(Remove(s, StrikesKey(username)), LockKey(username))
  }

  /** One login: it arrives after `wait` seconds and, if admitted, the password check takes `think` seconds. */
  datatype Attempt = Attempt(ip: string, username: string, wait: nat, think: nat, correct: bool)

  /** What became of it. `window` is the expiry of the user counter that counted it. */
  datatype Report = Report(at: int, username: string, guard: Guard, correct: bool, window: Option<int>)

  function Expiry(s: Store, key: string): Option<int> {
    if key in s.data then s.data[key].expiresAt else None
  }

  function AfterAttempt(s: Store, cfg: Config, a: Attempt): Store {
    var (guard, s1) := Check(Tick(s, a.wait), cfg, a.ip, a.username);
    if guard != Ok then s1
    else if a.correct then Clear(Tick(s1, a.think), a.username)
    else RecordFailure(Tick(s1, a.think), cfg, a.ip, a.username).1
  }

  function ReportOf(s: Store, cfg: Config, a: Attempt): Report {
    var (guard, s1) := Check(Tick(s, a.wait), cfg, a.ip, a.username);
    Report(s.now + a.wait, a.username, guard, a.correct, Expiry(s1, UserKey(a.username)))
  }

  function Reports(s: Store, cfg: Config, attempts: seq<Attempt>): seq<Report>
    decreases |attempts|
  {
    if attempts == [] then []
    else [ReportOf(s, cfg, attempts[0])] + Reports(AfterAttempt(s, cfg, attempts[0]), cfg, attempts[1..])
  }

  // ------------------------------------------------------------- frame lemmas

  predicate SameAt(s: Store, s': Store, key: string) {
    (key in s'.data <==> key in s.data) && (key in s.data ==> s'.data[key] == s.data[key])
  }

  lemma IncrFrame(s: Store, key: string, ttl: int, other: string)
    requires key != other
    ensures var s' := IncrWindow(s, key, ttl);
      s'.now == s.now && SameAt(s, s', other)
  {
  }

  /** Checking touches only the two limiters; recording only those, the strikes and the lock of this user. */
  lemma CheckFrame(s: Store, cfg: Config, ip: string, username: string, other: string)
    requires other != IpKey(ip) && other != UserKey(username)
    ensures var s' := Check(s, cfg, ip, username).1;
      s'.now == s.now && SameAt(s, s', other)
  {
    IncrFrame(s, IpKey(ip), cfg.windowSeconds, other);
    IncrFrame(IncrWindow(s, IpKey(ip), cfg.windowSeconds), UserKey(username), cfg.windowSeconds, other);
  }

  lemma RecordFrame(s: Store, cfg: Config, ip: string, username: string, other: string)
    requires other != IpKey(ip) && other != UserKey(username)
      && other != StrikesKey(username) && other != LockKey(username)
    ensures var s' := RecordFailure(s, cfg, ip, username).1;
      s'.now == s.now && SameAt(s, s', other)
  {
    var s1 := IncrWindow(s, IpKey(ip), cfg.windowSeconds);
    var s2 := IncrWindow(s1, UserKey(username), cfg.windowSeconds);
    IncrFrame(s, IpKey(ip), cfg.windowSeconds, other);
    IncrFrame(s1, UserKey(username), cfg.windowSeconds, other);
    IncrFrame(s2, StrikesKey(username), cfg.windowSeconds, other);
  }

  // ------------------------------------------------------------------ the lock

  /** The account is locked until `until`, or that time has passed. */
  ghost predicate LockedUntil(s: Store, username: string, until: int) {
    s.now >= until || (LockKey(username) in s.data && s.data[LockKey(username)].expiresAt == Some(until))
  }

  lemma AttemptKeepsLock(s: Store, cfg: Config, a: Attempt, username: string, until: int)
    requires LockedUntil(s, username, until)
    ensures LockedUntil(AfterAttempt(s, cfg, a), username, until)
    ensures a.username == username && s.now + a.wait < until ==> ReportOf(s, cfg, a).guard.Locked?
    ensures s.now <= AfterAttempt(s, cfg, a).now
  {
    var s0 := Tick(s, a.wait);
    KeysAreApart(a.ip, a.username, username);
    KeysAreApart(a.ip, username, a.username);
    CheckFrame(s0, cfg, a.ip, a.username, LockKey(username));
    var s1 := Tick(Check(s0, cfg, a.ip, a.username).1, a.think);
    if a.username != username {
      RecordFrame(s1, cfg, a.ip, a.username, LockKey(username));
    } else {
      TimeOfRecord(s1, cfg, a.ip, username);
    }
  }

  lemma TimeOfRecord(s: Store, cfg: Config, ip: string, username: string)
    ensures RecordFailure(s, cfg, ip, username).1.now == s.now
  {
  }

  /** Once locked, no attempt for the account is admitted before the lock expires, whatever else happens. */
  lemma {:induction false} LockHolds(s: Store, cfg: Config, attempts: seq<Attempt>, username: string, until: int)
    requires LockedUntil(s, username, until)
    ensures |Reports(s, cfg, attempts)| == |attempts|
    ensures forall r :: r in Reports(s, cfg, attempts) && r.username == username && r.at < until ==> r.guard.Locked?
    decreases |attempts|
  {
    if attempts != [] {
      AttemptKeepsLock(s, cfg, attempts[0], username, until);
      LockHolds(AfterAttempt(s, cfg, attempts[0]), cfg, attempts[1..], username, until);
    }
  }

  /** A failed attempt that brings the strikes to the threshold locks the account for the full lock time. */
  lemma StrikesLock(s: Store, cfg: Config, ip: string, username: string)
    requires Sane(cfg)
    ensures var (locked, s') := RecordFailure(s, cfg, ip, username);
      && (locked <==>
        Counter(IncrWindow(s, StrikesKey(username), cfg.windowSeconds), StrikesKey(username)) >= cfg.lockAfter)
      && (locked ==> LockedUntil(s', username, s.now + cfg.lockSeconds))
      && (!locked ==> SameAt(s, s', LockKey(username)))
  {
    KeysAreApart(ip, username, username);
    var s1 := IncrWindow(s, IpKey(ip), cfg.windowSeconds);
    IncrFrame(s, IpKey(ip), cfg.windowSeconds, StrikesKey(username));
    IncrFrame(s1, UserKey(username), cfg.windowSeconds, StrikesKey(username));
    LimitersLeaveLock(s, cfg, ip, username);
  }

  lemma LimitersLeaveLock(s: Store, cfg: Config, ip: string, username: string)
    ensures var s1 := IncrWindow(s, IpKey(ip), cfg.windowSeconds);
      var s2 := IncrWindow(s1, UserKey(username), cfg.windowSeconds);
      SameAt(s, IncrWindow(s2, StrikesKey(username), cfg.windowSeconds), LockKey(username))
  {
    KeysAreApart(ip, username, username);
    var s1 := IncrWindow(s, IpKey(ip), cfg.windowSeconds);
    var s2 := IncrWindow(s1, UserKey(username), cfg.windowSeconds);
    IncrFrame(s, IpKey(ip), cfg.windowSeconds, LockKey(username));
    IncrFrame(s1, UserKey(username), cfg.windowSeconds, LockKey(username));
    IncrFrame(s2, StrikesKey(username), cfg.windowSeconds, LockKey(username));
  }

  /** The store when an attempt's password check is over. */
  function Decided(s: Store, cfg: Config, a: Attempt): Store {
    Tick(Check(Tick(s, a.wait), cfg, a.ip, a.username).1, a.think)
  }

  /**
   * Over whole runs: a failing attempt whose strike reaches the threshold blocks every later attempt for the
   * account, from any address, until the full lock time is over.
   */
  lemma ThresholdBlocks(s: Store, cfg: Config, a: Attempt, later: seq<Attempt>)
    requires Sane(cfg) && ReportOf(s, cfg, a).guard == Ok && !a.correct
    requires Counter(IncrWindow(Decided(s, cfg, a), StrikesKey(a.username), cfg.windowSeconds), StrikesKey(a.username))
          >= cfg.lockAfter
    ensures forall r :: r in Reports(AfterAttempt(s, cfg, a), cfg, later) ==>
      r.username == a.username && r.at < Decided(s, cfg, a).now + cfg.lockSeconds ==> r.guard.Locked?
  {
    var decided := Decided(s, cfg, a);
    StrikesLock(decided, cfg, a.ip, a.username);
    LockHolds(AfterAttempt(s, cfg, a), cfg, later, a.username, decided.now + cfg.lockSeconds);
  }

  /** The waiting time a limited caller is told is how long its counter still lives. */
  lemma LimitedRetryIsExact(s: Store, cfg: Config, ip: string, username: string)
    requires Sane(cfg) && CounterOk(s, cfg, username) && Check(s, cfg, ip, username).0.RateLimited?
    requires Counter(IncrWindow(s, IpKey(ip), cfg.windowSeconds), IpKey(ip)) <= cfg.limit
    ensures var (guard, s') := Check(s, cfg, ip, username);
      && guard.retryAfter > 0
      && forall wait: nat :: Live(Tick(s', wait), UserKey(username)) <==> wait < guard.retryAfter
  {
    KeysAreApart(ip, username, username);
    IncrFrame(s, IpKey(ip), cfg.windowSeconds, UserKey(username));
    CountOnce(IncrWindow(s, IpKey(ip), cfg.windowSeconds), cfg, username);
  }

  // -------------------------------------------------- failing attempts per window

  /** Failing attempts of the user that reached the password check in one window of the user counter. */
  function Failing(reports: seq<Report>, username: string, window: int): nat {
    if reports == [] then 0
    else
      var last := reports[|reports| - 1];
      Failing(reports[..|reports| - 1], username, window)
      + if last.username == username && last.guard == Ok && !last.correct && last.window == Some(window) then 1 else 0
  }

  /** The user's counter, when there is one, is a proper window counter. */
  predicate CounterOk(s: Store, cfg: Config, username: string) {
    var key := UserKey(username);
    key in s.data ==>
      s.data[key].value.Number? && s.data[key].value.n >= 1
      && s.data[key].expiresAt.Some? && s.data[key].expiresAt.value <= s.now + cfg.windowSeconds
  }

  /** Each failing attempt has counted twice in its window. */
  ghost predicate CountedTwice(s: Store, cfg: Config, reports: seq<Report>, username: string) {
    var key := UserKey(username);
    && CounterOk(s, cfg, username)
    && (forall e :: 2 * Failing(reports, username, e) <= cfg.limit + 1)
    && (forall e :: Failing(reports, username, e) > 0 ==> key in s.data && e <= s.data[key].expiresAt.value)
    && (key in s.data ==> 2 * Failing(reports, username, s.data[key].expiresAt.value) <= s.data[key].value.n)
  }

  /** One increment of the user counter: the next count of the live window, or a new and later one. */
  lemma CountOnce(s: Store, cfg: Config, username: string)
    requires Sane(cfg) && CounterOk(s, cfg, username)
    ensures var (key, s') := (UserKey(username), IncrWindow(s, UserKey(username), cfg.windowSeconds));
      && CounterOk(s', cfg, username) && key in s'.data && s'.now == s.now && s.now < s'.data[key].expiresAt.value
      && Counter(s', key) == s'.data[key].value.n
      && (if key in s.data && s.now < s.data[key].expiresAt.value
          then s'.data[key] == Entry(Number(s.data[key].value.n + 1), s.data[key].expiresAt)
          else && s'.data[key].value == Number(1)
               && (key in s.data ==> s.data[key].expiresAt.value < s'.data[key].expiresAt.value))
  {
  }

  lemma FailingSnoc(reports: seq<Report>, r: Report, username: string, window: int)
    ensures Failing(reports + [r], username, window) == Failing(reports, username, window)
      + if r.username == username && r.guard == Ok && !r.correct && r.window == Some(window) then 1 else 0
  {
    assert (reports + [r])[..|reports|] == reports;
  }

  /** The user counter around a check: untouched, or counted once. */
  lemma CheckCounts(s: Store, cfg: Config, ip: string, username: string, user: string)
    ensures var (key, s', counted) :=
        (UserKey(user), Check(s, cfg, ip, username).1, IncrWindow(s, UserKey(user), cfg.windowSeconds));
      && s'.now == s.now
      && (SameAt(s, s', key) || (username == user && key in counted.data && SameAt(counted, s', key)))
      && (Check(s, cfg, ip, username).0 == Ok && username == user ==>
            key in counted.data && SameAt(counted, s', key) && Counter(counted, key) <= cfg.limit)
  {
    KeysAreApart(ip, user, username);
    if username != user {
      KeysAreApart(ip, username, user);
      CheckFrame(s, cfg, ip, username, UserKey(user));
    } else {
      OwnCheckCounts(s, cfg, ip, user);
    }
  }

  lemma OwnCheckCounts(s: Store, cfg: Config, ip: string, user: string)
    ensures var (key, s', counted) :=
        (UserKey(user), Check(s, cfg, ip, user).1, IncrWindow(s, UserKey(user), cfg.windowSeconds));
      && s'.now == s.now && key in counted.data
      && (SameAt(s, s', key) || SameAt(counted, s', key))
      && (Check(s, cfg, ip, user).0 == Ok ==> SameAt(counted, s', key) && Counter(counted, key) <= cfg.limit)
  {
    KeysAreApart(ip, user, user);
    IncrFrame(s, IpKey(ip), cfg.windowSeconds, UserKey(user));
  }

  lemma RecordCounts(s: Store, cfg: Config, ip: string, username: string, user: string)
    ensures var (key, s', counted) :=
        (UserKey(user), RecordFailure(s, cfg, ip, username).1, IncrWindow(s, UserKey(user), cfg.windowSeconds));
      && s'.now == s.now
      && (username != user ==> SameAt(s, s', key))
      && (username == user ==> key in counted.data && SameAt(counted, s', key))
  {
    KeysAreApart(ip, user, username);
    if username != user {
      KeysAreApart(ip, username, user);
      RecordFrame(s, cfg, ip, username, UserKey(user));
    } else {
      var s1 := IncrWindow(s, IpKey(ip), cfg.windowSeconds);
      var s2 := IncrWindow(s1, UserKey(user), cfg.windowSeconds);
      IncrFrame(s, IpKey(ip), cfg.windowSeconds, UserKey(user));
      IncrFrame(s2, StrikesKey(user), cfg.windowSeconds, UserKey(user));
    }
  }

  /** An attempt that is not a failing one of this user adds nothing and only raises the counter. */
  lemma OtherAttemptCounts(s: Store, cfg: Config, reports: seq<Report>, a: Attempt, user: string)
    requires Sane(cfg) && CountedTwice(s, cfg, reports, user)
    requires a.username != user || ReportOf(s, cfg, a).guard != Ok || a.correct
    ensures CountedTwice(AfterAttempt(s, cfg, a), cfg, reports + [ReportOf(s, cfg, a)], user)
  {
    var s0 := Tick(s, a.wait);
    var (guard, s1) := Check(s0, cfg, a.ip, a.username);
    var s2 := Tick(s1, a.think);
    forall e ensures Failing(reports + [ReportOf(s, cfg, a)], user, e) == Failing(reports, user, e) {
      FailingSnoc(reports, ReportOf(s, cfg, a), user, e);
    }
    CountOnce(s0, cfg, user);
    CheckCounts(s0, cfg, a.ip, a.username, user);
    RecordCounts(s2, cfg, a.ip, a.username, user);
    KeysAreApart(a.ip, user, a.username);
  }

  /** A failing attempt adds one to its window, whose counter it raised by two or left behind for good. */
  lemma FailingAttemptCounts(s: Store, cfg: Config, reports: seq<Report>, a: Attempt, user: string)
    requires Sane(cfg) && CountedTwice(s, cfg, reports, user)
    requires a.username == user && ReportOf(s, cfg, a).guard == Ok && !a.correct
    ensures CountedTwice(AfterAttempt(s, cfg, a), cfg, reports + [ReportOf(s, cfg, a)], user)
  {
    var s0 := Tick(s, a.wait);
    var (guard, s1) := Check(s0, cfg, a.ip, a.username);
    var s2 := Tick(s1, a.think);
    var r := ReportOf(s, cfg, a);
    forall e
      ensures Failing(reports + [r], user, e) == Failing(reports, user, e) + if r.window == Some(e) then 1 else 0
    {
      FailingSnoc(reports, r, user, e);
    }
    CheckCounts(s0, cfg, a.ip, user, user);
    CountOnce(s0, cfg, user);
    CountOnce(s2, cfg, user);
    RecordCounts(s2, cfg, a.ip, user, user);
  }

  lemma AttemptCounts(s: Store, cfg: Config, reports: seq<Report>, a: Attempt, user: string)
    requires Sane(cfg) && CountedTwice(s, cfg, reports, user)
    ensures CountedTwice(AfterAttempt(s, cfg, a), cfg, reports + [ReportOf(s, cfg, a)], user)
  {
    if a.username == user && ReportOf(s, cfg, a).guard == Ok && !a.correct {
      FailingAttemptCounts(s, cfg, reports, a, user);
    } else {
      OtherAttemptCounts(s, cfg, reports, a, user);
    }
  }

  lemma ReportsStep(s: Store, cfg: Config, done: seq<Report>, attempts: seq<Attempt>)
    requires attempts != []
    ensures done + Reports(s, cfg, attempts)
         == (done + [ReportOf(s, cfg, attempts[0])]) + Reports(AfterAttempt(s, cfg, attempts[0]), cfg, attempts[1..])
  {
    assert Reports(s, cfg, attempts)
        == [ReportOf(s, cfg, attempts[0])] + Reports(AfterAttempt(s, cfg, attempts[0]), cfg, attempts[1..]);
  }

  lemma {:induction false} AllCountedTwice(
    s: Store, cfg: Config, done: seq<Report>, attempts: seq<Attempt>, user: string, window: int)
    requires Sane(cfg) && CountedTwice(s, cfg, done, user)
    ensures 2 * Failing(done + Reports(s, cfg, attempts), user, window) <= cfg.limit + 1
    decreases |attempts|
  {
    if attempts == [] {
      assert Reports(s, cfg, attempts) == [] && done + [] == done;
    } else {
      AttemptCounts(s, cfg, done, attempts[0], user);
      AllCountedTwice(
        AfterAttempt(s, cfg, attempts[0]), cfg, done + [ReportOf(s, cfg, attempts[0])], attempts[1..], user, window);
      ReportsStep(s, cfg, done, attempts);
    }
  }

  /**
   * In one window of a user's counter at most ceil(limit / 2) failing attempts reach the password check,
   * from whatever addresses they come and however they are spaced.
   */
  lemma FailuresPerWindow(now: int, cfg: Config, attempts: seq<Attempt>, user: string, window: int)
    requires Sane(cfg)
    ensures Failing(Reports(Store(now, map[]), cfg, attempts), user, window) <= (cfg.limit + 1) / 2
  {
    AllCountedTwice(Store(now, map[]), cfg, [], attempts, user, window);
    assert [] + Reports(Store(now, map[]), cfg, attempts) == Reports(Store(now, map[]), cfg, attempts);
  }

  predicate Counters(s: Store, ip: string, username: string) {
    IsCounter(s, IpKey(ip)) && IsCounter(s, UserKey(username)) && IsCounter(s, StrikesKey(username))
  }

  lemma CountersStay(s: Store, cfg: Config, ip: string, username: string)
    requires Counters(s, ip, username)
    ensures var s1 := IncrWindow(s, IpKey(ip), cfg.windowSeconds);
      var s2 := IncrWindow(s1, UserKey(username), cfg.windowSeconds);
      Counters(s1, ip, username) && Counters(s2, ip, username)
      && Counters(RecordFailure(s, cfg, ip, username).1, ip, username)
  {
    KeysAreApart(ip, username, username);
    var s1 := IncrWindow(s, IpKey(ip), cfg.windowSeconds);
    var s2 := IncrWindow(s1, UserKey(username), cfg.windowSeconds);
    OneIncrStays(s, IpKey(ip), cfg, ip, username);
    OneIncrStays(s1, UserKey(username), cfg, ip, username);
    OneIncrStays(s2, StrikesKey(username), cfg, ip, username);
  }

  lemma OneIncrStays(s: Store, key: string, cfg: Config, ip: string, username: string)
    requires Counters(s, ip, username)
    ensures Counters(IncrWindow(s, key, cfg.windowSeconds), ip, username)
  {
  }

  /** What the steps of recording a failure need of each other. */
  lemma RecordFacts(s: Store, cfg: Config, ip: string, username: string)
    requires Sane(cfg) && Counters(s, ip, username)
    ensures var s1 := IncrWindow(s, IpKey(ip), cfg.windowSeconds);
      var s2 := IncrWindow(s1, UserKey(username), cfg.windowSeconds);
      var (locked, s') := RecordFailure(s, cfg, ip, username);
      && IsCounter(s1, UserKey(username)) && IsCounter(s2, StrikesKey(username))
      && Counters(s', ip, username) && s'.now == s.now
      && (locked ==> LockedUntil(s', username, s.now + cfg.lockSeconds))
  {
    CountersStay(s, cfg, ip, username);
    StrikesLock(s, cfg, ip, username);
    TimeOfRecord(s, cfg, ip, username);
  }

  // ---------------------------------------------------- every check, exactly

  /** How many calls the counter under this key will have seen after one more. */
  function NextCount(s: Store, key: string): int {
    Counter(s, key) + 1
  }

  /** One more call in the window: a running window keeps its end, a new one ends a window length from now. */
  predicate CountsOnce(s: Store, s': Store, key: string, windowSeconds: int) {
    && Counter(s', key) == NextCount(s, key) && key in s'.data
    && (Gone(s.data, key, s.now) ==> s'.data[key].expiresAt == Some(s.now + windowSeconds))
    && (!Gone(s.data, key, s.now) && Counter(s, key) >= 1 ==> s'.data[key].expiresAt == s.data[key].expiresAt)
  }

  /**
   * A check is refused exactly while the lock lives, or when this call is one too many for the address or for
   * the user; the address is counted unless the account is locked, the user unless the address was refused.
   */
  ghost predicate CheckEffect(s: Store, cfg: Config, ip: string, username: string, guard: Guard, s': Store) {
    var (ipKey, userKey) := ("rate:login:ip:" + ip, "rate:login:user:" + username);
    var lockTtl := Ttl(s, "auth:login:lock:" + username);
    var ipOk, userOk := NextCount(s, ipKey) <= cfg.limit, NextCount(s, userKey) <= cfg.limit;
    && s'.now == s.now
    && (lockTtl > 0 ==> guard == Locked(lockTtl) && s' == s)
    && (lockTtl <= 0 ==>
          && CountsOnce(s, s', ipKey, cfg.windowSeconds)
          && (if ipOk then CountsOnce(s, s', userKey, cfg.windowSeconds) else SameAt(s, s', userKey))
          && guard == if !ipOk then RateLimited(Ttl(s', ipKey))
                      else if !userOk then RateLimited(Ttl(s', userKey)) else Ok)
    && forall key :: key != ipKey && key != userKey ==> SameAt(s, s', key)
  }

  /** One counter call: this key counts once more, every other one is left alone. */
  ghost predicate OneCall(s: Store, s': Store, key: string, windowSeconds: int) {
    && CountsOnce(s, s', key, windowSeconds) && s'.now == s.now && IsCounter(s', key)
    && forall other :: other != key ==> SameAt(s, s', other)
  }

  lemma IncrCounts(s: Store, key: string, ttl: int)
    requires IsCounter(s, key) && ttl > 0
    ensures OneCall(s, IncrWindow(s, key, ttl), key, ttl)
  {
  }

  lemma SameCounter(s: Store, s': Store, key: string)
    requires SameAt(s, s', key) && s'.now == s.now
    ensures Counter(s', key) == Counter(s, key) && Ttl(s', key) == Ttl(s, key)
    ensures IsCounter(s, key) <==> IsCounter(s', key)
  {
  }

  lemma CheckDoes(s: Store, cfg: Config, ip: string, username: string)
    requires Sane(cfg) && Counters(s, ip, username)
    ensures CheckEffect(s, cfg, ip, username, Check(s, cfg, ip, username).0, Check(s, cfg, ip, username).1)
  {
    KeysAreApart(ip, username, username);
    assert IpKey(ip) == "rate:login:ip:" + ip && UserKey(username) == "rate:login:user:" + username;
    assert LockKey(username) == "auth:login:lock:" + username;
    var s1 := IncrWindow(s, IpKey(ip), cfg.windowSeconds);
    var s2 := IncrWindow(s1, UserKey(username), cfg.windowSeconds);
    IncrCounts(s, IpKey(ip), cfg.windowSeconds);
    SameCounter(s, s1, UserKey(username));
    IncrCounts(s1, UserKey(username), cfg.windowSeconds);
    SameCounter(s1, s2, IpKey(ip));
  }

  /**
   * A failure counts once more on both limiters and as one strike; it locks the account for the lock time
   * exactly if the strikes reach the threshold, and touches no other key.
   */
  ghost predicate RecordEffect(s: Store, cfg: Config, ip: string, username: string, locked: bool, s': Store) {
    var (ipKey, userKey) := ("rate:login:ip:" + ip, "rate:login:user:" + username);
    var (strikesKey, lockKey) := ("auth:login:strikes:" + username, "auth:login:lock:" + username);
    && s'.now == s.now
    && CountsOnce(s, s', ipKey, cfg.windowSeconds) && CountsOnce(s, s', userKey, cfg.windowSeconds)
    && CountsOnce(s, s', strikesKey, cfg.windowSeconds)
    && (locked <==> NextCount(s, strikesKey) >= cfg.lockAfter)
    && (if locked then lockKey in s'.data && s'.data[lockKey] == Entry(Text("1"), Some(s.now + cfg.lockSeconds))
        else SameAt(s, s', lockKey))
    && forall key :: key !in {ipKey, userKey, strikesKey, lockKey} ==> SameAt(s, s', key)
  }

  lemma RecordDoes(s: Store, cfg: Config, ip: string, username: string)
    requires Sane(cfg) && Counters(s, ip, username)
    ensures RecordEffect(s, cfg, ip, username,
              RecordFailure(s, cfg, ip, username).0, RecordFailure(s, cfg, ip, username).1)
  {
    var s1 := IncrWindow(s, IpKey(ip), cfg.windowSeconds);
    var s2 := IncrWindow(s1, UserKey(username), cfg.windowSeconds);
    var s3 := IncrWindow(s2, StrikesKey(username), cfg.windowSeconds);
    ThreeCounts(s, cfg, ip, username);
    StruckAfter(s, s3, cfg, ip, username);
    assert RecordFailure(s, cfg, ip, username) == Struck(s3, cfg, username);
  }

  /** A failure's three counts, seen from before the first. */
  ghost predicate Counted(s: Store, s': Store, cfg: Config, ip: string, username: string) {
    && s'.now == s.now
    && CountsOnce(s, s', IpKey(ip), cfg.windowSeconds) && CountsOnce(s, s', UserKey(username), cfg.windowSeconds)
    && CountsOnce(s, s', StrikesKey(username), cfg.windowSeconds)
    && forall key :: key !in {IpKey(ip), UserKey(username), StrikesKey(username)} ==> SameAt(s, s', key)
  }

  lemma StruckAfter(s: Store, s3: Store, cfg: Config, ip: string, username: string)
    requires Sane(cfg) && Counted(s, s3, cfg, ip, username)
    ensures RecordEffect(s, cfg, ip, username, Struck(s3, cfg, username).0, Struck(s3, cfg, username).1)
  {
    KeysAreApart(ip, username, username);
    StrikeOut(s3, cfg, username);
    forall key | key !in {IpKey(ip), UserKey(username), StrikesKey(username), LockKey(username)}
      ensures SameAt(s, Struck(s3, cfg, username).1, key)
    {
      assert SameAt(s, s3, key) && SameAt(s3, Struck(s3, cfg, username).1, key);
    }
    assert SameAt(s, s3, LockKey(username));
  }

  lemma StrikeOut(s: Store, cfg: Config, username: string)
    requires Sane(cfg)
    ensures var (locked, s') := Struck(s, cfg, username);
      && s'.now == s.now && (locked <==> Counter(s, StrikesKey(username)) >= cfg.lockAfter)
      && (locked ==> LockKey(username) in s'.data
                     && s'.data[LockKey(username)] == Entry(Text("1"), Some(s.now + cfg.lockSeconds)))
      && (!locked ==> s' == s)
      && forall key :: key != LockKey(username) ==> SameAt(s, s', key) && Counter(s', key) == Counter(s, key)
  {
  }

  /** A count is the same seen across a step that leaves its key alone. */
  lemma CarryCount(s: Store, s1: Store, s2: Store, key: string, windowSeconds: int)
    requires s1.now == s.now && s2.now == s.now
    requires (SameAt(s, s1, key) && CountsOnce(s1, s2, key, windowSeconds))
      || (CountsOnce(s, s1, key, windowSeconds) && SameAt(s1, s2, key))
    ensures CountsOnce(s, s2, key, windowSeconds)
  {
  }

  /** Three counter calls on different keys, each seen from before the first. */
  lemma ThreeInTurn(
      s: Store, s1: Store, s2: Store, s3: Store, a: string, b: string, c: string, windowSeconds: int)
    requires a != b && a != c && b != c
    requires OneCall(s, s1, a, windowSeconds) && OneCall(s1, s2, b, windowSeconds) && OneCall(s2, s3, c, windowSeconds)
    ensures s3.now == s.now && CountsOnce(s, s3, a, windowSeconds) && CountsOnce(s, s3, b, windowSeconds)
    ensures CountsOnce(s, s3, c, windowSeconds)
    ensures forall key :: key !in {a, b, c} ==> SameAt(s, s3, key)
  {
    CarryCount(s, s1, s2, a, windowSeconds);
    CarryCount(s, s2, s3, a, windowSeconds);
    CarryCount(s, s1, s2, b, windowSeconds);
    CarryCount(s, s2, s3, b, windowSeconds);
    assert SameAt(s, s1, c) && SameAt(s1, s2, c);
    CarryCount(s, s2, s3, c, windowSeconds);
    forall key | key !in {a, b, c} ensures SameAt(s, s3, key) {
      assert SameAt(s, s1, key) && SameAt(s1, s2, key) && SameAt(s2, s3, key);
    }
  }

  lemma ThreeCounts(s: Store, cfg: Config, ip: string, username: string)
    requires Sane(cfg) && Counters(s, ip, username)
    ensures var s1 := IncrWindow(s, IpKey(ip), cfg.windowSeconds);
      var s2 := IncrWindow(s1, UserKey(username), cfg.windowSeconds);
      Counted(s, IncrWindow(s2, StrikesKey(username), cfg.windowSeconds), cfg, ip, username)
  {
    KeysAreApart(ip, username, username);
    var s1 := IncrWindow(s, IpKey(ip), cfg.windowSeconds);
    var s2 := IncrWindow(s1, UserKey(username), cfg.windowSeconds);
    var s3 := IncrWindow(s2, StrikesKey(username), cfg.windowSeconds);
    IncrCounts(s, IpKey(ip), cfg.windowSeconds);
    SameCounter(s, s1, UserKey(username));
    IncrCounts(s1, UserKey(username), cfg.windowSeconds);
    SameCounter(s, s1, StrikesKey(username));
    SameCounter(s1, s2, StrikesKey(username));
    IncrCounts(s2, StrikesKey(username), cfg.windowSeconds);
    ThreeInTurn(s, s1, s2, s3, IpKey(ip), UserKey(username), StrikesKey(username), cfg.windowSeconds);
  }

  /** What a whole login leaves: a refusal only its check, a success no strikes, a failure one more strike. */
  lemma AttemptDoes(s: Store, cfg: Config, a: Attempt)
    requires Sane(cfg) && Counters(Tick(s, a.wait), a.ip, a.username)
    ensures var (guard, s1) := Check(Tick(s, a.wait), cfg, a.ip, a.username);
      var s2 := AfterAttempt(s, cfg, a);
      && (guard != Ok ==> s2 == s1)
      && (guard == Ok && a.correct ==>
            && s2.now == s1.now + a.think
            && s2.data == s1.data - {"auth:login:strikes:" + a.username, "auth:login:lock:" + a.username})
      && (guard == Ok && !a.correct ==>
            exists locked :: RecordEffect(Tick(s1, a.think), cfg, a.ip, a.username, locked, s2))
  {
    var s0 := Tick(s, a.wait);
    var (guard, s1) := Check(s0, cfg, a.ip, a.username);
    if guard == Ok && !a.correct {
      var s2 := Tick(s1, a.think);
      CheckKeepsCounters(s0, cfg, a.ip, a.username, a.think);
      RecordDoes(s2, cfg, a.ip, a.username);
      var locked := RecordFailure(s2, cfg, a.ip, a.username).0;
      assert RecordEffect(s2, cfg, a.ip, a.username, locked, AfterAttempt(s, cfg, a));
    }
  }

  lemma CheckKeepsCounters(s: Store, cfg: Config, ip: string, username: string, think: nat)
    requires Sane(cfg) && Counters(s, ip, username)
    ensures Counters(Tick(Check(s, cfg, ip, username).1, think), ip, username)
  {
    var s1 := IncrWindow(s, IpKey(ip), cfg.windowSeconds);
    OneIncrStays(s, IpKey(ip), cfg, ip, username);
    OneIncrStays(s1, UserKey(username), cfg, ip, username);
  }

  // -------------------------------------------------------------- the service

  class AuthLoginSecurity {
    const redis: RedisService
    const cfg: Config

    constructor (redis: RedisService, cfg: Config)
      requires Sane(cfg)
      ensures this.redis == redis && this.cfg == cfg
    {
      this.redis, this.cfg := redis, cfg;
    }

    ghost predicate Valid(ip: string, username: string)
      reads redis
    {
      Sane(cfg) && Counters(redis.State(), ip, username)
    }

    method CheckCanAttemptLogin(ip: string, username: string) returns (guard: Guard)
      requires Valid(ip, username)
      modifies redis
      ensures (guard, redis.State()) == Check(old(redis.State()), cfg, ip, username)
      ensures CheckEffect(old(redis.State()), cfg, ip, username, guard, redis.State())
      ensures Valid(ip, username)
    {
      KeysAreApart(ip, username, username);
      CheckDoes(redis.State(), cfg, ip, username);
      var lockTtl := Ttl(redis.State(), LockKey(username));
      if lockTtl > 0 {
        return Locked(lockTtl);
      }
      var ipAllowed, _, ipTtl := redis.RateLimit(IpKey(ip), cfg.limit, cfg.windowSeconds);
      if !ipAllowed {
        return RateLimited(ipTtl);
      }
      var userAllowed, _, userTtl := redis.RateLimit(UserKey(username), cfg.limit, cfg.windowSeconds);
      if !userAllowed {
        return RateLimited(userTtl);
      }
      return Ok;
    }

    method RecordLoginFailure(ip: string, username: string) returns (locked: bool, lockSeconds: int)
      requires Valid(ip, username)
      modifies redis
      ensures (locked, redis.State()) == RecordFailure(old(redis.State()), cfg, ip, username)
      ensures RecordEffect(old(redis.State()), cfg, ip, username, locked, redis.State())
      ensures lockSeconds == cfg.lockSeconds
      ensures locked ==> LockedUntil(redis.State(), username, redis.now + cfg.lockSeconds)
      ensures Valid(ip, username)
    {
      RecordFacts(redis.State(), cfg, ip, username);
      RecordDoes(redis.State(), cfg, ip, username);
      var _, _, _ := redis.RateLimit(IpKey(ip), cfg.limit, cfg.windowSeconds);
      var _, _, _ := redis.RateLimit(UserKey(username), cfg.limit, cfg.windowSeconds);
      var strikes := redis.Incr(StrikesKey(username), cfg.windowSeconds);
      lockSeconds := cfg.lockSeconds;
      locked := strikes >= cfg.lockAfter;
      if locked {
        redis.Set(LockKey(username), Text("1"), lockSeconds);
      }
    }

    method ClearLoginFailures(username: string)
      modifies redis
      ensures redis.State() == Clear(old(redis.State()), username)
      ensures redis.data == old(redis.data) - {"auth:login:strikes:" + username, "auth:login:lock:" + username}
      ensures !Live(redis.State(), LockKey(username)) && Counter(redis.State(), StrikesKey(username)) == 0
    {
      redis.Del(StrikesKey(username));
      redis.Del(LockKey(username));
    }
  }
}
