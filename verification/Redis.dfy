/**
 * A small timed key-value store: the Redis commands the services use, over an ideal integer clock in
 * seconds (src/infrastructure/redis/redis.service.ts).
 */
module Redis {
  import opened Common

  /** Stored values, before serialisation. */
  datatype Value =
    | Text(text: string)
    | Number(n: int)
    | Processing(startedAt: int)
    | Completed(statusCode: int, body: string)

  datatype Entry = Entry(value: Value, expiresAt: Option<int>)
  datatype Store = Store(now: int, data: map<string, Entry>)

  predicate Live(s: Store, key: string) {
    key in s.data && (s.data[key].expiresAt.None? || s.now < s.data[key].expiresAt.value)
  }

  function Get(s: Store, key: string): Option<Value> {
    if Live(s, key) then Some(s.data[key].value) else None
  }

  function Put(s: Store, key: string, value: Value, ttl: int): Store {
    s.(data := s.data[key := Entry(value, if ttl > 0 then Some(s.now + ttl) else None)])
  }

  /** SET ... NX: nothing happens when the key is live. */
  function PutNx(s: Store, key: string, value: Value, ttl: int): Store {
    if Live(s, key) then s else Put(s, key, value, ttl)
  }

  function Remove(s: Store, key: string): Store {
    s.(data := s.data - {key})
  }

  function Tick(s: Store, seconds: nat): Store {
    s.(now := s.now + seconds)
  }

  /** Remaining seconds; -1 without expiry, -2 without key. */
  function Ttl(s: Store, key: string): int {
    if !Live(s, key) then -2
    else if s.data[key].expiresAt.None? then -1 else s.data[key].expiresAt.value - s.now
  }

  /** INCR keeps the expiry of a live counter and starts a dead one at 1 without expiry. */
  function Bump(s: Store, key: string): Store {
    if Live(s, key) then
      if s.data[key].value.Number?
      then s.(data := s.data[key := s.data[key].(value := Number(s.data[key].value.n + 1))]) else s
    else s.(data := s.data[key := Entry(Number(1), None)])
  }

  function SetExpiry(s: Store, key: string, ttl: int): Store {
    if Live(s, key) then s.(data := s.data[key := s.data[key].(expiresAt := Some(s.now + ttl))]) else s
  }

  function Counter(s: Store, key: string): int {
    if Live(s, key) && s.data[key].value.Number? then s.data[key].value.n else 0
  }

  /** The counter call: increment, and start the window on the first increment. */
  function IncrWindow(s: Store, key: string, ttl: int): Store {
    var bumped := Bump(s, key);
    if Counter(bumped, key) == 1 && ttl > 0 then SetExpiry(bumped, key, ttl) else bumped
  }

  /** The renew and release scripts act only while the stored token is the caller's. */
  function RenewIf(s: Store, key: string, token: string, ttl: int): Store {
    if Get(s, key) == Some(Text(token)) then SetExpiry(s, key, ttl) else s
  }

  function ReleaseIf(s: Store, key: string, token: string): Store {
    if Get(s, key) == Some(Text(token)) then Remove(s, key) else s
  }

  /** The value is a counter or absent, so INCR does not fail. */
  predicate IsCounter(s: Store, key: string) {
    Live(s, key) ==> s.data[key].value.Number?
  }

  /** No entry, or one whose time has come. */
  predicate Gone(data: map<string, Entry>, key: string, now: int) {
    key !in data || (data[key].expiresAt.Some? && data[key].expiresAt.value <= now)
  }

  function ExpiryAfter(now: int, ttl: int): Option<int> {
    if ttl > 0 then Some(now + ttl) else None
  }

  /** The caller's lock stands. */
  predicate IsLockedBy(data: map<string, Entry>, key: string, now: int, token: string) {
    !Gone(data, key, now) && data[key].value == Text(token)
  }

  class RedisService {
    var now: int
    var data: map<string, Entry>

    constructor (now: int)
      ensures State() == Store(now, map[])
    {
      this.now, data := now, map[];
    }

    function State(): Store
      reads this
    {
      Store(now, data)
    }

    method Sleep(seconds: nat)
      modifies this`now
      ensures State() == Tick(old(State()), seconds)
      ensures now == old(now) + seconds
    {
      now := now + seconds;
    }

    /** What other clients and the clock leave the store as before this client's next command. */
    method Meanwhile(state: Store)
      modifies this
      ensures State() == state
    {
      now, data := state.now, state.data;
    }

    /** GET. */
    method Read(key: string) returns (value: Option<Value>)
      ensures value == Get(State(), key)
      ensures value == if Gone(data, key, now) then None else Some(data[key].value)
    {
      value := if Live(State(), key) then Some(data[key].value) else None;
    }

    method Set(key: string, value: Value, ttlSeconds: int)
      modifies this`data
      ensures State() == Put(old(State()), key, value, ttlSeconds)
      ensures data == old(data)[key := Entry(value, ExpiryAfter(now, ttlSeconds))]
      ensures Get(State(), key) == Some(value)
    {
      if ttlSeconds > 0 {
        data := data[key := Entry(value, Some(now + ttlSeconds))];
      } else {
        data := data[key := Entry(value, None)];
      }
    }

    method SetNx(key: string, value: Value, ttlSeconds: int) returns (ok: bool)
      modifies this`data
      ensures State() == PutNx(old(State()), key, value, ttlSeconds)
      ensures ok <==> Get(old(State()), key) == None
      ensures ok <==> Gone(old(data), key, now)
      ensures data == if ok then old(data)[key := Entry(value, ExpiryAfter(now, ttlSeconds))] else old(data)
    {
      ok := !Live(State(), key);
      if ok {
        Set(key, value, ttlSeconds);
      }
    }

    method Del(key: string)
      modifies this`data
      ensures State() == Remove(old(State()), key)
      ensures data == old(data) - {key}
    {
      data := data - {key};
    }

    /** INCR then, for the call that read 1, EXPIRE. */
    method Incr(key: string, ttlSeconds: int) returns (value: int)
      requires IsCounter(State(), key)
      modifies this`data
      ensures State() == IncrWindow(old(State()), key, ttlSeconds)
      ensures value == Counter(old(State()), key) + 1 == Counter(State(), key)
      ensures Gone(old(data), key, now) ==>
        value == 1 && data == old(data)[key := Entry(Number(1), ExpiryAfter(now, ttlSeconds))]
      ensures !Gone(old(data), key, now) && old(data)[key].value.n >= 1 ==>
        && value == old(data)[key].value.n + 1
        && data == old(data)[key := Entry(Number(value), old(data)[key].expiresAt)]
      ensures IsCounter(State(), key)
    {
      if Live(State(), key) {
        value := data[key].value.n + 1;
        data := data[key := data[key].(value := Number(value))];
      } else {
        value := 1;
        data := data[key := Entry(Number(1), None)];
      }
      if value == 1 && ttlSeconds > 0 {
        data := data[key := data[key].(expiresAt := Some(now + ttlSeconds))];
      }
    }

    method AcquireLock(key: string, ttlSeconds: int, token: string) returns (locked: Option<string>)
      modifies this`data
      ensures State() == PutNx(old(State()), key, Text(token), ttlSeconds)
      ensures locked == if Get(old(State()), key) == None then Some(token) else None
      ensures locked == if Gone(old(data), key, now) then Some(token) else None
      ensures data == if locked.Some?
        then old(data)[key := Entry(Text(token), ExpiryAfter(now, ttlSeconds))] else old(data)
    {
      var ok := SetNx(key, Text(token), ttlSeconds);
      locked := if ok then Some(token) else None;
    }

    method RenewLock(key: string, token: string, ttlSeconds: int) returns (ok: bool)
      modifies this`data
      ensures State() == RenewIf(old(State()), key, token, ttlSeconds)
      ensures ok <==> IsLockedBy(old(data), key, now, token)
      ensures data == if ok then old(data)[key := Entry(Text(token), Some(now + ttlSeconds))] else old(data)
      ensures ok <==> Get(old(State()), key) == Some(Text(token))
    {
      ok := Live(State(), key) && data[key].value == Text(token);
      if ok {
        data := data[key := data[key].(expiresAt := Some(now + ttlSeconds))];
      }
    }

    method ReleaseLock(key: string, token: string) returns (ok: bool)
      modifies this`data
      ensures State() == ReleaseIf(old(State()), key, token)
      ensures ok <==> IsLockedBy(old(data), key, now, token)
      ensures data == if ok then old(data) - {key} else old(data)
      ensures ok <==> Get(old(State()), key) == Some(Text(token))
    {
      ok := Live(State(), key) && data[key].value == Text(token);
      if ok {
        data := data - {key};
      }
    }

    /** Every call counts, refused ones too. */
    method RateLimit(key: string, limit: int, windowSeconds: int) returns (allowed: bool, current: int, ttl: int)
      requires IsCounter(State(), key)
      modifies this`data
      ensures State() == IncrWindow(old(State()), key, windowSeconds)
      ensures current == Counter(old(State()), key) + 1
      ensures allowed <==> current <= limit
      ensures ttl == Ttl(State(), key)
      ensures key in data && !Gone(data, key, now)
      ensures ttl == if data[key].expiresAt == None then -1 else data[key].expiresAt.value - now
      ensures Gone(old(data), key, now) && windowSeconds > 0 ==> ttl == windowSeconds
      ensures IsCounter(State(), key)
    {
      current := Incr(key, windowSeconds);
      ttl := Ttl(State(), key);
      allowed := current <= limit;
    }
  }
}
