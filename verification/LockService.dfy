/** runWithBusinessLocks as one call runs it when nobody interferes. */
module LockService {
  import opened Common
  import opened Redis
  import opened StringOrder
  import opened Locks

  ghost predicate DistinctResources(held: seq<Held>) {
    forall i, j :: 0 <= i < j < |held| ==> held[i].resource != held[j].resource
  }

  predicate Lists(held: seq<Held>, key: string) {
    exists i :: 0 <= i < |held| && held[i].resource == key
  }

  ghost predicate SameAt(data: map<string, Entry>, data': map<string, Entry>, key: string) {
    (key in data <==> key in data') && (key in data ==> data'[key] == data[key])
  }

  /** Only the listed locks differ, and each of them stands under its token for the full lease. */
  ghost predicate Taken(before: Store, after: Store, held: seq<Held>, ttlSeconds: int) {
    && after.now == before.now
    && (forall i :: 0 <= i < |held| ==>
          && held[i].resource in after.data
          && after.data[held[i].resource] == Entry(Text(held[i].token), ExpiryAfter(before.now, ttlSeconds)))
    && forall key :: !Lists(held, key) ==> SameAt(before.data, after.data, key)
  }

  /** Of the listed locks those still under their token are gone; all other entries are as before. */
  ghost predicate Released(before: Store, after: Store, held: seq<Held>) {
    && after.now == before.now
    && (forall i :: 0 <= i < |held| ==>
          if IsLockedBy(before.data, held[i].resource, before.now, held[i].token)
          then held[i].resource !in after.data else SameAt(before.data, after.data, held[i].resource))
    && forall key :: !Lists(held, key) ==> SameAt(before.data, after.data, key)
  }

  /** Releases in reverse order; a lock whose entry is no longer the caller's is left alone. */
  method ReleaseHeldBusinessLocks(redis: RedisService, held: seq<Held>)
    requires DistinctResources(held)
    modifies redis`data
    ensures Released(old(redis.State()), redis.State(), held)
  {
    for n := |held| downto 0
      invariant forall key :: !Lists(held[n..], key) ==> SameAt(old(redis.data), redis.data, key)
      invariant forall i :: n <= i < |held| ==>
        if IsLockedBy(old(redis.data), held[i].resource, redis.now, held[i].token)
        then held[i].resource !in redis.data else SameAt(old(redis.data), redis.data, held[i].resource)
    {
      assert !Lists(held[n + 1..], held[n].resource);
      assert forall key :: Lists(held[n + 1..], key) ==> Lists(held[n..], key) by {
        assert held[n + 1..] == held[n..][1..];
      }
      assert Lists(held[n..], held[n].resource) by {
        assert held[n..][0] == held[n];
      }
      var _ := redis.ReleaseLock(held[n].resource, held[n].token);
    }
    assert held[0..] == held;
  }

  /** Acquires in the given order and stops at the first resource that is locked. */
  method AcquireInOrder(redis: RedisService, sorted: seq<string>, ttlSeconds: int, tokens: seq<string>)
    returns (held: seq<Held>)
    requires |tokens| >= |sorted|
    requires forall i, j :: 0 <= i < j < |sorted| ==> sorted[i] != sorted[j]
    modifies redis`data
    ensures |held| <= |sorted| && DistinctResources(held)
    ensures forall i :: 0 <= i < |held| ==> held[i] == Held(sorted[i], tokens[i])
    ensures forall i :: 0 <= i < |held| ==> Gone(old(redis.data), held[i].resource, redis.now)
    ensures Taken(old(redis.State()), redis.State(), held, ttlSeconds)
    ensures |held| < |sorted| ==> !Gone(old(redis.data), sorted[|held|], redis.now)
  {
    held := [];
    for n := 0 to |sorted|
      invariant |held| == n
      invariant forall i :: 0 <= i < n ==> held[i] == Held(sorted[i], tokens[i])
      invariant forall i :: 0 <= i < n ==> Gone(old(redis.data), held[i].resource, redis.now)
      invariant Taken(old(redis.State()), redis.State(), held, ttlSeconds)
    {
      assert !Lists(held, sorted[n]);
      var token := redis.AcquireLock(sorted[n], ttlSeconds, tokens[n]);
      if token.None? {
        return;
      }
      ghost var before := held;
      held := held + [Held(sorted[n], token.value)];
      assert held[n].resource == sorted[n];
      forall key | !Lists(held, key) ensures !Lists(before, key) && key != sorted[n] {
        assert forall i :: 0 <= i < |before| ==> held[i] == before[i];
      }
    }
  }

  /** One lock on each of the resources, in the order in which they are acquired. */
  ghost predicate LocksOn(held: seq<Held>, resources: seq<string>, tokens: seq<string>) {
    && (forall i :: 0 <= i < |held| ==> i < |tokens| && held[i].token == tokens[i])
    && (forall i, j :: 0 <= i < j < |held| ==> Less(held[i].resource, held[j].resource))
    && forall key :: key in resources <==> Lists(held, key)
  }

  /**
   * `tokens` are the random tokens drawn for the acquisitions. `work` is everything between acquisition and
   * release: given the store in which the operation starts, how it ends and the store then, with whatever other
   * clients, renewals and the clock did meanwhile. The call is refused exactly when one of its resources is
   * locked, and then leaves every lock and every other key as before. Otherwise the operation runs with all
   * its locks held, and after it those still the caller's are given back and no other key is touched.
   */
  method RunWithBusinessLocks(
      redis: RedisService, resources: seq<string>, ttlSeconds: int, tokens: seq<string>,
      work: Store -> (Outcome, Store))
    returns (outcome: Outcome)
    requires |tokens| >= |resources| && forall s :: work(s).0 != Busy
    modifies redis
    ensures outcome == Busy <==> exists key :: key in resources && !Gone(old(redis.data), key, old(redis.now))
    ensures outcome == Busy ==> redis.now == old(redis.now) && forall key ::
      if key in resources && Gone(old(redis.data), key, redis.now) then Gone(redis.data, key, redis.now)
      else SameAt(old(redis.data), redis.data, key)
    ensures outcome != Busy ==> exists held, start ::
      && LocksOn(held, resources, tokens) && Taken(old(redis.State()), start, held, ttlSeconds)
      && outcome == work(start).0 && Released(work(start).1, redis.State(), held)
  {
    var sorted := SortUnique(resources);
    SortedIsNoLonger(sorted, resources);
    SortedIsDistinct(sorted);
    var held := AcquireInOrder(redis, sorted, ttlSeconds, tokens);
    ghost var start := redis.State();
    if |held| < |sorted| {
      assert sorted[|held|] in sorted;
      ReleaseHeldBusinessLocks(redis, held);
      TakenThenReleased(old(redis.State()), start, redis.State(), held, ttlSeconds);
      assert forall key :: Lists(held, key) ==> key in sorted;
      return Busy;
    }
    assert forall key :: key in sorted <==> Lists(held, key) by {
      forall key | key in sorted ensures Lists(held, key) {
        var i :| 0 <= i < |sorted| && sorted[i] == key;
        assert held[i].resource == key;
      }
    }
    var (ended, after) := work(redis.State());
    redis.Meanwhile(after);
    ReleaseHeldBusinessLocks(redis, held);
    return ended;
  }

  /** Taking free locks and giving them back at once leaves them free and everything else alone. */
  lemma TakenThenReleased(before: Store, start: Store, after: Store, held: seq<Held>, ttlSeconds: int)
    requires Taken(before, start, held, ttlSeconds) && Released(start, after, held)
    requires forall i :: 0 <= i < |held| ==> Gone(before.data, held[i].resource, before.now)
    ensures forall key :: if Lists(held, key) then Gone(before.data, key, before.now) && key !in after.data
                          else SameAt(before.data, after.data, key)
  {
    forall key | Lists(held, key) ensures Gone(before.data, key, before.now) && key !in after.data {
      var i :| 0 <= i < |held| && held[i].resource == key;
    }
  }

  lemma SortedIsDistinct(sorted: seq<string>)
    requires StrictlySorted(sorted)
    ensures forall i, j :: 0 <= i < j < |sorted| ==> sorted[i] != sorted[j]
  {
    forall i, j | 0 <= i < j < |sorted| ensures sorted[i] != sorted[j] {
      LessIrreflexive(sorted[i]);
    }
  }

  /** A duplicate-free list over given names is no longer than the list of names. */
  lemma {:induction false} SortedIsNoLonger(sorted: seq<string>, names: seq<string>)
    requires StrictlySorted(sorted) && forall x :: x in sorted ==> x in names
    ensures |sorted| <= |names|
    decreases |sorted|
  {
    if sorted != [] {
      SortedIsDistinct(sorted);
      assert sorted[0] in names;
      var k :| 0 <= k < |names| && names[k] == sorted[0];
      var rest := names[..k] + names[k + 1..];
      forall x | x in sorted[1..] ensures x in rest {
        var i :| 0 <= i < |sorted[1..]| && sorted[1..][i] == x;
        assert x == sorted[i + 1] && x != sorted[0] && x in names;
        var j :| 0 <= j < |names| && names[j] == x;
        assert j != k;
        assert if j < k then rest[j] == x else rest[j - 1] == x;
      }
      SortedIsNoLonger(sorted[1..], rest);
    }
  }
}
