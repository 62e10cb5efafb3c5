/**
 * Token issue, acceptance and revocation (src/modules/auth/auth.service.ts,
 * src/modules/auth/jwt/jwt.strategy.ts, src/common/config/env.ts). A token is accepted only if it was
 * issued (its signature verifies) and is unexpired; signing itself is not modelled.
 */
module Tokens {
  import opened Common
  import Runs
  import opened JsText
  import opened Redis

  // ---------------------------------------------------------------- lifetimes

  const WEEK: int := 7 * 24 * 3600

  function Lower(c: char): char {
    if 'A' <= c <= 'Z' then c - 'A' + 'a' else c
  }

  predicate IsUnit(c: char) {
    var u := Lower(c);
    u == 's' || u == 'm' || u == 'h' || u == 'd'
  }

  function Factor(c: char): int {
    var u := Lower(c);
    if u == 's' then 1 else if u == 'm' then 60 else if u == 'h' then 3600 else 86400
  }

  /** digits, optional white space, one of s, m, h, d: amount and unit. */
  function Span(value: string): Option<(nat, char)> {
    if |value| < 2 || !IsUnit(value[|value| - 1]) then None
    else
      var digits := TrimRight(value[..|value| - 1]);
      if digits != "" && AllDigits(digits) then Some((DigitsValue(digits), value[|value| - 1])) else None
  }

  /**
   * Number(value). A string of digits reads as itself and one ending in a unit letter is not a number;
   * `otherwise` is what it gives for any further spelling (None: not finite).
   */
  function NumberOf(value: string, otherwise: Option<real>): Option<real> {
    var trimmed := Trim(value);
    if AllDigits(trimmed) then Some(DigitsValue(trimmed) as real) else if Span(trimmed).Some? then None else otherwise
  }

  /**
   * Seconds until a new token expires. Strings that are not numbers are read by the signing library:
   * digits directly followed by a unit as amount times unit, any other spelling as `library` says.
   */
  function JwtExpiresIn(value: string, number: Option<real>, library: int): int {
    match NumberOf(value, number)
    case Some(n) => if Trim(value) != "" then n.Floor else library
    case None => if Documented(value) then Span(value).value.0 * Factor(Span(value).value.1) else library
  }

  /** Seconds a revoked token stays on the blacklist. */
  function JwtExpiresInSeconds(value: string, number: Option<real>): int {
    var trimmed := Trim(value);
    var n := NumberOf(value, number);
    if n.Some? && n.value > 0.0 then n.value.Floor
    else match Span(trimmed)
      case None => WEEK
      case Some((amount, unit)) => amount * Factor(unit)
  }

  /** The documented forms: a positive integer, or digits followed by s, m, h or d. */
  predicate Documented(value: string) {
    || (value != "" && AllDigits(value) && DigitsValue(value) > 0)
    || (|value| >= 2 && AllDigits(value[..|value| - 1]) && IsUnit(value[|value| - 1]))
  }

  /** For the documented forms the two readings agree, so a blacklist entry lasts as long as any token. */
  lemma LifetimesAgree(value: string, number: Option<real>, library: int)
    requires Documented(value)
    ensures JwtExpiresInSeconds(value, number) == JwtExpiresIn(value, number, library)
  {
    TrimKeeps(value);
    if AllDigits(value) {
      assert !IsUnit(value[|value| - 1]);
    } else {
      var digits := value[..|value| - 1];
      assert !IsSpace(digits[|digits| - 1]);
      assert TrimRight(digits) == digits;
    }
  }

  /** How many seconds the documented forms mean. */
  ghost predicate Means(value: string, seconds: int) {
    || (value != "" && AllDigits(value) && DigitsValue(value) > 0 && seconds == DigitsValue(value))
    || (|value| >= 2 && AllDigits(value[..|value| - 1])
        && UnitSeconds(value[|value| - 1]) > 0
        && seconds == DigitsValue(value[..|value| - 1]) * UnitSeconds(value[|value| - 1]))
  }

  /** A second, a minute, an hour, a day; nothing else is a unit. */
  function UnitSeconds(unit: char): int {
    match unit
    case 's' => 1
    case 'S' => 1
    case 'm' => 60
    case 'M' => 60
    case 'h' => 3600
    case 'H' => 3600
    case 'd' => 86400
    case 'D' => 86400
    case _ => 0
  }

  lemma FactorIsUnitSeconds(c: char)
    ensures IsUnit(c) <==> UnitSeconds(c) > 0
    ensures IsUnit(c) ==> Factor(c) == UnitSeconds(c)
  {
  }

  /** Both readings of a documented lifetime give what it means. */
  lemma LifetimeMeans(value: string, number: Option<real>, library: int, seconds: int)
    requires Means(value, seconds)
    ensures Documented(value)
    ensures JwtExpiresIn(value, number, library) == seconds && JwtExpiresInSeconds(value, number) == seconds
  {
    TrimKeeps(value);
    FactorIsUnitSeconds(value[|value| - 1]);
    if AllDigits(value) {
      assert !IsUnit(value[|value| - 1]);
    } else {
      var digits := value[..|value| - 1];
      assert !IsSpace(digits[|digits| - 1]);
      assert TrimRight(digits) == digits;
    }
  }

  /** Other spellings may disagree: "2w" is blacklisted for a week only, whatever its real lifetime. */
  lemma TwoWeeksIsAWeek()
    ensures !Documented("2w") && JwtExpiresInSeconds("2w", None) == 604800
  {
    TrimKeeps("2w");
    assert !AllDigits("2w") by {
      assert !IsDigit("2w"[1]);
    }
    assert !IsUnit('w');
  }

  // -------------------------------------------------------------------- runs

  datatype Token = Token(sub: Id, jti: string, tv: int, exp: int)

  /** `lifetime` and `blacklist` are the two configured durations in seconds. */
  datatype World = World(lifetime: int, blacklist: int, redis: Store, versions: map<Id, int>, issued: set<Token>)

  datatype Action =
    | Register(userId: Id)
    | Issue(sub: Id, jti: string, tv: int)    // tv was read from the user row, possibly some time ago
    | ChangePassword(userId: Id)
    | Logout(jti: string)
    | Wait(seconds: nat)

  function BlacklistKey(jti: string): string {
    "auth:blacklist:" + jti
  }

  lemma BlacklistKeyInjective(a: string, b: string)
    requires BlacklistKey(a) == BlacklistKey(b)
    ensures a == b
  {
    assert BlacklistKey(a)[15..] == a && BlacklistKey(b)[15..] == b;
  }

  ghost predicate Enabled(w: World, a: Action) {
    match a
    case Register(userId) => userId !in w.versions
    case Issue(sub, jti, tv) => sub in w.versions && tv <= w.versions[sub] && forall t :: t in w.issued ==> t.jti != jti
    case ChangePassword(userId) => userId in w.versions
    case Logout(_) => true
    case Wait(_) => true
  }

  ghost function Do(w: World, a: Action): World {
    if !Enabled(w, a) then w
    else match a
      case Register(userId) => w.(versions := w.versions[userId := 0])
      case Issue(sub, jti, tv) => w.(issued := w.issued + {Token(sub, jti, tv, w.redis.now + w.lifetime)})
      case ChangePassword(userId) => w.(versions := w.versions[userId := w.versions[userId] + 1])
      case Logout(jti) => w.(redis := Redis.Put(w.redis, BlacklistKey(jti), Number(1), w.blacklist))
      case Wait(seconds) => w.(redis := Tick(w.redis, seconds))
  }

  ghost function Run(w: World, actions: seq<Action>): World {
    Runs.Iterate(Do, w, actions)
  }

  /** The strategy's checks, after the library has verified signature and expiry. */
  predicate Validate(redis: Store, versions: map<Id, int>, t: Token) {
    && t.sub != "" && t.jti != ""
    && !Live(redis, BlacklistKey(t.jti))
    && t.sub in versions && versions[t.sub] == t.tv
  }

  predicate Accepts(w: World, t: Token) {
    t in w.issued && w.redis.now < t.exp && Validate(w.redis, w.versions, t)
  }

  ghost predicate NoneOutlives(w: World) {
    forall t :: t in w.issued ==> t.exp <= w.redis.now + w.lifetime
  }

  ghost predicate Fresh(w: World) {
    w.redis.data == map[] && w.versions == map[] && w.issued == {}
  }

  lemma StepFacts(w: World, a: Action)
    requires NoneOutlives(w)
    ensures var w' := Do(w, a);
      && NoneOutlives(w') && w'.lifetime == w.lifetime && w'.blacklist == w.blacklist
      && w.redis.now <= w'.redis.now && w.issued <= w'.issued
      && (forall u :: u in w.versions ==> u in w'.versions && w.versions[u] <= w'.versions[u])
  {
  }

  lemma {:induction false} RunFacts(w: World, actions: seq<Action>)
    requires NoneOutlives(w)
    ensures var w' := Run(w, actions);
      && NoneOutlives(w') && w'.lifetime == w.lifetime && w'.blacklist == w.blacklist
      && w.redis.now <= w'.redis.now && w.issued <= w'.issued
      && (forall u :: u in w.versions ==> u in w'.versions && w.versions[u] <= w'.versions[u])
    decreases |actions|
  {
    if actions != [] {
      StepFacts(w, actions[0]);
      RunFacts(Do(w, actions[0]), actions[1..]);
    }
  }

  // ------------------------------------------------------------------- logout

  /** Expired, or blacklisted at least until it expires. */
  ghost predicate Dead(w: World, t: Token) {
    || w.redis.now >= t.exp
    || (var key := BlacklistKey(t.jti);
        key in w.redis.data && (w.redis.data[key].expiresAt.None? || w.redis.data[key].expiresAt.value >= t.exp))
  }

  /** Blacklist entries last as long as tokens do; a duration that is not positive is stored without expiry. */
  predicate LongEnough(w: World) {
    w.blacklist >= w.lifetime || w.blacklist <= 0
  }

  lemma StepKeepsDead(w: World, a: Action, t: Token)
    requires NoneOutlives(w) && t in w.issued && Dead(w, t)
    requires LongEnough(w)
    ensures Dead(Do(w, a), t)
  {
    if a.Logout? && BlacklistKey(a.jti) == BlacklistKey(t.jti) {
      BlacklistKeyInjective(a.jti, t.jti);
    }
  }

  lemma {:induction false} RunKeepsDead(w: World, actions: seq<Action>, t: Token)
    requires NoneOutlives(w) && t in w.issued && Dead(w, t)
    requires LongEnough(w)
    ensures Dead(Run(w, actions), t)
    decreases |actions|
  {
    if actions != [] {
      StepKeepsDead(w, actions[0], t);
      StepFacts(w, actions[0]);
      RunKeepsDead(Do(w, actions[0]), actions[1..], t);
    }
  }

  /**
   * After a logout at any time, no token issued before it under that jti is accepted ever again, if the
   * blacklist duration is long enough.
   */
  lemma LogoutIsFinal(w: World, before: seq<Action>, jti: string, later: seq<Action>, t: Token)
    requires Fresh(w) && LongEnough(w)
    requires t in Run(w, before).issued && t.jti == jti
    ensures !Accepts(Run(Do(Run(w, before), Logout(jti)), later), t)
  {
    RunFacts(w, before);
    var w1 := Run(w, before);
    var w2 := Do(w1, Logout(jti));
    StepFacts(w1, Logout(jti));
    assert Dead(w2, t);
    RunKeepsDead(w2, later, t);
  }

  /** With the documented settings that is so. */
  lemma DocumentedLogoutIsFinal(
      w: World, value: string, number: Option<real>, library: int,
      before: seq<Action>, jti: string, later: seq<Action>, t: Token)
    requires Documented(value) && Fresh(w)
    requires w.lifetime == JwtExpiresIn(value, number, library) && w.blacklist == JwtExpiresInSeconds(value, number)
    requires t in Run(w, before).issued && t.jti == jti
    ensures !Accepts(Run(Do(Run(w, before), Logout(jti)), later), t)
  {
    LifetimesAgree(value, number, library);
    LogoutIsFinal(w, before, jti, later, t);
  }

  /** The condition is exact: with a shorter blacklist a token logged out at once comes back to life. */
  lemma ShortBlacklistReadmits(w: World, user: Id, jti: string)
    requires Fresh(w) && !LongEnough(w) && user != "" && jti != ""
    ensures var w1 := Run(w, [Register(user), Issue(user, jti, 0)]);
      var t := Token(user, jti, 0, w.redis.now + w.lifetime);
      t in w1.issued && Accepts(Run(Do(w1, Logout(jti)), [Wait(w.blacklist)]), t)
  {
    RegisterAndIssue(w, user, jti);
    var w1 := Run(w, [Register(user), Issue(user, jti, 0)]);
    var w2 := Do(w1, Logout(jti));
    var w3 := Do(w2, Wait(w.blacklist));
    Runs.One(Do, w2, Wait(w.blacklist));
    assert !Live(w3.redis, BlacklistKey(jti));
  }

  lemma RegisterAndIssue(w: World, user: Id, jti: string)
    requires Fresh(w)
    ensures Run(w, [Register(user), Issue(user, jti, 0)])
         == w.(versions := map[user := 0], issued := {Token(user, jti, 0, w.redis.now + w.lifetime)})
  {
    var r := Do(w, Register(user));
    assert r == w.(versions := map[user := 0]);
    Runs.Two(Do, w, Register(user), Issue(user, jti, 0));
  }

  // ------------------------------------------------------------- acceptance

  predicate NoLogout(actions: seq<Action>, jti: string) {
    forall i :: 0 <= i < |actions| && actions[i].Logout? ==> actions[i].jti != jti
  }

  predicate NoPasswordChange(actions: seq<Action>, userId: Id) {
    forall i :: 0 <= i < |actions| && actions[i].ChangePassword? ==> actions[i].userId != userId
  }

  /** The token is issued, and nobody has logged it out. */
  ghost predicate NotRevoked(w: World, t: Token) {
    t in w.issued && BlacklistKey(t.jti) !in w.redis.data
  }

  lemma {:induction false} NotRevokedStays(w: World, actions: seq<Action>, t: Token)
    requires NotRevoked(w, t) && NoLogout(actions, t.jti)
    ensures NotRevoked(Run(w, actions), t)
    decreases |actions|
  {
    if actions != [] {
      if actions[0].Logout? && BlacklistKey(actions[0].jti) == BlacklistKey(t.jti) {
        BlacklistKeyInjective(actions[0].jti, t.jti);
      }
      assert forall i :: 0 <= i < |actions[1..]| ==> actions[1..][i] == actions[i + 1];
      NotRevokedStays(Do(w, actions[0]), actions[1..], t);
    }
  }

  /** Only the user's own password changes move the version, and each of them moves it up. */
  lemma {:induction false} VersionStandsIff(w: World, actions: seq<Action>, user: Id)
    requires user in w.versions
    ensures user in Run(w, actions).versions && w.versions[user] <= Run(w, actions).versions[user]
    ensures Run(w, actions).versions[user] == w.versions[user] <==> NoPasswordChange(actions, user)
    decreases |actions|
  {
    if actions != [] {
      assert forall i :: 0 < i < |actions| ==> actions[i] == actions[1..][i - 1];
      assert forall i :: 0 <= i < |actions[1..]| ==> actions[1..][i] == actions[i + 1];
      VersionStandsIff(Do(w, actions[0]), actions[1..], user);
    }
  }

  /**
   * A new token carries the configured lifetime. In every run in which nobody logs it out it is accepted exactly
   * before it expires and while the user's password has not been changed; one without a subject or an
   * identifier never is.
   */
  lemma NewTokenIsAccepted(w: World, sub: Id, jti: string, later: seq<Action>)
    requires sub in w.versions && "auth:blacklist:" + jti !in w.redis.data
    requires forall t :: t in w.issued ==> t.jti != jti
    requires NoLogout(later, jti)
    ensures var w1 := Do(w, Issue(sub, jti, w.versions[sub]));
      var t := Token(sub, jti, w.versions[sub], w.redis.now + w.lifetime);
      && w1.issued == w.issued + {t}
      && (Accepts(Run(w1, later), t) <==>
            && sub != "" && jti != "" && Run(w1, later).redis.now < w.redis.now + w.lifetime
            && NoPasswordChange(later, sub))
  {
    var w1 := Do(w, Issue(sub, jti, w.versions[sub]));
    NotRevokedStays(w1, later, Token(sub, jti, w.versions[sub], w.redis.now + w.lifetime));
    VersionStandsIff(w1, later, sub);
  }

  // ----------------------------------------------------------- password change

  /** A password change revokes every token of the user issued before it, and any signed later from an older read. */
  lemma PasswordChangeIsFinal(w: World, before: seq<Action>, user: Id, later: seq<Action>, t: Token)
    requires Fresh(w) && user in Run(w, before).versions
    requires t.sub == user && t.tv <= Run(w, before).versions[user]
    ensures !Accepts(Run(Do(Run(w, before), ChangePassword(user)), later), t)
  {
    RunFacts(w, before);
    var w1 := Run(w, before);
    StepFacts(w1, ChangePassword(user));
    RunFacts(Do(w1, ChangePassword(user)), later);
  }

  /** Tokens issued so far never carry a version above the user's, so the change above covers them all. */
  ghost predicate VersionsBound(w: World) {
    forall t :: t in w.issued ==> t.sub in w.versions && t.tv <= w.versions[t.sub]
  }

  lemma {:induction false} IssuedVersionsAreBound(w: World, actions: seq<Action>)
    requires NoneOutlives(w) && VersionsBound(w)
    ensures VersionsBound(Run(w, actions))
    decreases |actions|
  {
    if actions != [] {
      StepFacts(w, actions[0]);
      IssuedVersionsAreBound(Do(w, actions[0]), actions[1..]);
    }
  }

  // -------------------------------------------------------------- the service

  class AuthService {
    const redis: RedisService
    const blacklistSeconds: int
    const lifetimeSeconds: int
    var versions: map<Id, int>

    constructor (redis: RedisService, lifetimeSeconds: int, blacklistSeconds: int)
      ensures this.redis == redis && this.lifetimeSeconds == lifetimeSeconds
      ensures this.blacklistSeconds == blacklistSeconds
      ensures versions == map[]
    {
      this.redis, versions := redis, map[];
      this.lifetimeSeconds, this.blacklistSeconds := lifetimeSeconds, blacklistSeconds;
    }

    /** `matches` is the outcome of comparing the current password. */
    method ChangePassword(userId: Id, matches: bool, jti: string) returns (token: Option<Token>)
      modifies this`versions
      ensures token.Some? <==> userId in old(versions) && matches
      ensures token.None? ==> versions == old(versions)
      ensures token.Some? ==>
        && versions == old(versions)[userId := old(versions)[userId] + 1]
        && token.value == Token(userId, jti, versions[userId], redis.now + lifetimeSeconds)
      ensures forall t: Token :: t.sub == userId && token.Some? && t.tv != old(versions)[userId] + 1 ==>
        !Validate(redis.State(), versions, t)
    {
      if userId !in versions || !matches {
        return None;
      }
      versions := versions[userId := versions[userId] + 1];
      return Some(BuildAuthResponse(userId, versions[userId], jti));
    }

    method Logout(jti: string)
      modifies redis
      ensures redis.State() == Redis.Put(old(redis.State()), BlacklistKey(jti), Number(1), blacklistSeconds)
      ensures redis.data == old(redis.data)["auth:blacklist:" + jti :=
        Entry(Number(1), if blacklistSeconds > 0 then Some(redis.now + blacklistSeconds) else None)]
      ensures forall t: Token :: t.jti == jti ==> !Validate(redis.State(), versions, t)
    {
      redis.Set(BlacklistKey(jti), Number(1), blacklistSeconds);
    }

    /** `jti` is a random UUID. */
    function BuildAuthResponse(userId: Id, tokenVersion: int, jti: string): Token
      reads redis
    {
      Token(userId, jti, tokenVersion, redis.now + lifetimeSeconds)
    }
  }
}
