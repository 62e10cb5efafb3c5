/**
 * Redis business locks: ordered acquisition of several locks, token-checked renewal and release
 * (src/infrastructure/redis/redis-business.service.ts, src/infrastructure/redis/redis.service.ts).
 * Resources are named by their full lock keys.
 */
module Locks {
  import opened Common
  import Runs
  import opened Redis
  import opened StringOrder

  datatype Held = Held(resource: string, token: string)

  datatype Outcome = Success | Error | TimedOut | Busy

  /** One call of runWithBusinessLocks, between two Redis commands. */
  datatype Client =
    | Acquiring(todo: seq<string>, held: seq<Held>)
    | Running(held: seq<Held>)
    | Releasing(held: seq<Held>, outcome: Outcome)
    | Finished(outcome: Outcome)

  /**
   * `owner` records which call drew each token (tokens are never drawn twice) and `leases` until when
   * its last successful acquire or renew extended it.
   */
  datatype World = World(redis: Store, clients: map<Id, Client>, owner: map<string, Id>, leases: map<string, int>)

  datatype Action =
    | Start(client: Id, sorted: seq<string>)
    | Acquire(client: Id, token: string, ttl: int)
    | Enter(client: Id)
    | Finish(client: Id, outcome: Outcome)
    | Release(client: Id)
    | Renew(resource: string, token: string, ttl: int)   // may arrive at any time, however late
    | Wait(seconds: nat)

  function HeldBy(client: Client): seq<Held> {
    if client.Finished? then [] else client.held
  }

  predicate Enabled(w: World, a: Action) {
    match a
    case Start(c, _) => c !in w.clients
    case Acquire(c, token, ttl) =>
      c in w.clients && w.clients[c].Acquiring? && w.clients[c].todo != [] && token !in w.owner && ttl > 0
    case Enter(c) => c in w.clients && w.clients[c].Acquiring? && w.clients[c].todo == []
    case Finish(c, outcome) => c in w.clients && w.clients[c].Running? && outcome != Busy
    case Release(c) => c in w.clients && w.clients[c].Releasing?
    case Renew(_, _, ttl) => ttl > 0
    case Wait(_) => true
  }

  function DoAcquire(w: World, c: Id, token: string, ttl: int): World
    requires Enabled(w, Acquire(c, token, ttl))
  {
    var client, key := w.clients[c], w.clients[c].todo[0];
    if Get(w.redis, key) == None then
      World(PutNx(w.redis, key, Text(token), ttl),
            w.clients[c := Acquiring(client.todo[1..], client.held + [Held(key, token)])],
            w.owner[token := c], w.leases[token := w.redis.now + ttl])
    else
      World(w.redis, w.clients[c := Releasing(client.held, Busy)], w.owner[token := c], w.leases)
  }

  /** Locks are released in the reverse order of their acquisition. */
  function DoRelease(w: World, c: Id): World
    requires Enabled(w, Release(c))
  {
    var client := w.clients[c];
    if client.held == [] then w.(clients := w.clients[c := Finished(client.outcome)])
    else
      var last := client.held[|client.held| - 1];
      w.(redis := ReleaseIf(w.redis, last.resource, last.token),
         clients := w.clients[c := Releasing(client.held[..|client.held| - 1], client.outcome)])
  }

  function DoRenew(w: World, key: string, token: string, ttl: int): World {
    if Get(w.redis, key) == Some(Text(token)) then
      w.(redis := RenewIf(w.redis, key, token, ttl), leases := w.leases[token := w.redis.now + ttl])
    else w
  }

  ghost function Do(w: World, a: Action): World {
    if !Enabled(w, a) then w
    else match a
      case Start(c, sorted) =>
        if StrictlySorted(sorted) then w.(clients := w.clients[c := Acquiring(sorted, [])]) else w
      case Acquire(c, token, ttl) => DoAcquire(w, c, token, ttl)
      case Enter(c) => w.(clients := w.clients[c := Running(w.clients[c].held)])
      case Finish(c, outcome) => w.(clients := w.clients[c := Releasing(w.clients[c].held, outcome)])
      case Release(c) => DoRelease(w, c)
      case Renew(key, token, ttl) => DoRenew(w, key, token, ttl)
      case Wait(seconds) => w.(redis := Tick(w.redis, seconds))
  }

  ghost function Run(w: World, actions: seq<Action>): World {
    Runs.Iterate(Do, w, actions)
  }

  /** What each command of a call does to the call, to the store and to the leases, when it is its turn. */
  lemma StepDoes(w: World, a: Action)
    requires Enabled(w, a) && !a.Wait? && !a.Renew? && (a.Start? ==> StrictlySorted(a.sorted))
    ensures var w' := Do(w, a);
      && a.client in w'.clients && w'.redis.now == w.redis.now
      && (forall c :: c != a.client && c in w.clients ==> c in w'.clients && w'.clients[c] == w.clients[c])
      && (a.Start? ==> w'.clients[a.client] == Acquiring(a.sorted, []) && w'.redis == w.redis)
      && (a.Acquire? ==>
            var (todo, held, key) := (w.clients[a.client].todo, w.clients[a.client].held, w.clients[a.client].todo[0]);
            if Gone(w.redis.data, key, w.redis.now) then
              && w'.clients[a.client] == Acquiring(todo[1..], held + [Held(key, a.token)])
              && w'.redis.data == w.redis.data[key := Entry(Text(a.token), Some(w.redis.now + a.ttl))]
              && w'.leases == w.leases[a.token := w.redis.now + a.ttl]
            else w'.clients[a.client] == Releasing(held, Busy) && w'.redis == w.redis && w'.leases == w.leases)
      && (a.Enter? ==> w'.clients[a.client] == Running(w.clients[a.client].held) && w'.redis == w.redis)
      && (a.Finish? ==> w'.clients[a.client] == Releasing(w.clients[a.client].held, a.outcome) && w'.redis == w.redis)
      && (a.Release? ==>
            var (held, outcome) := (w.clients[a.client].held, w.clients[a.client].outcome);
            if held == [] then w'.clients[a.client] == Finished(outcome) && w'.redis == w.redis
            else
              var last := held[|held| - 1];
              && w'.clients[a.client] == Releasing(held[..|held| - 1], outcome)
              && w'.redis.data == if IsLockedBy(w.redis.data, last.resource, w.redis.now, last.token)
                                  then w.redis.data - {last.resource} else w.redis.data)
  {
  }

  /** A renewal extends the lock exactly while it is the caller's; waiting only moves the clock. */
  lemma RenewAndWaitDo(w: World, a: Action)
    requires Enabled(w, a) && (a.Wait? || a.Renew?)
    ensures var w' := Do(w, a);
      && w'.clients == w.clients
      && (a.Wait? ==> w'.redis.now == w.redis.now + a.seconds && w'.redis.data == w.redis.data && w'.leases == w.leases)
      && (a.Renew? ==>
            && w'.redis.now == w.redis.now
            && if IsLockedBy(w.redis.data, a.resource, w.redis.now, a.token) then
                 && w'.redis.data == w.redis.data[a.resource := Entry(Text(a.token), Some(w.redis.now + a.ttl))]
                 && w'.leases == w.leases[a.token := w.redis.now + a.ttl]
               else w' == w)
  {
  }

  // ---------------------------------------------------------------- invariant

  function Resources(held: seq<Held>): seq<string> {
    seq(|held|, i requires 0 <= i < |held| => held[i].resource)
  }

  /** A stored lock carries a drawn token and expires with its lease. */
  predicate EntryOk(w: World, e: Entry) {
    && e.value.Text? && e.value.text in w.owner && e.value.text in w.leases
    && e.expiresAt == Some(w.leases[e.value.text])
  }

  ghost predicate StoreOk(w: World) {
    && (forall key :: key in w.redis.data ==> EntryOk(w, w.redis.data[key]))
    && (forall k1, k2 :: k1 in w.redis.data && k2 in w.redis.data ==>
          w.redis.data[k1].value == w.redis.data[k2].value ==> k1 == k2)
  }

  /** The lock is on its owner's list. */
  predicate OnOwnersList(w: World, key: string, token: string) {
    token in w.owner && w.owner[token] in w.clients && Held(key, token) in HeldBy(w.clients[w.owner[token]])
  }

  /** Nothing live outlives the call that took it. */
  ghost predicate LiveIsHeld(w: World) {
    forall key :: Live(w.redis, key) && w.redis.data[key].value.Text? ==>
      OnOwnersList(w, key, w.redis.data[key].value.text)
  }

  /** A held lock whose lease has not run out is stored under its own token. */
  predicate HoldingOk(w: World, c: Id, h: Held) {
    && h.token in w.owner && w.owner[h.token] == c && h.token in w.leases
    && (w.redis.now < w.leases[h.token] ==>
          h.resource in w.redis.data && w.redis.data[h.resource].value == Text(h.token))
  }

  ghost predicate ClientShape(client: Client) {
    var held := HeldBy(client);
    && (forall i, j :: 0 <= i < j < |held| ==> held[i].token != held[j].token)
    && (client.Acquiring? ==> StrictlySorted(Resources(held) + client.todo))
  }

  ghost predicate ClientOk(w: World, c: Id)
    requires c in w.clients
  {
    && ClientShape(w.clients[c])
    && forall i :: 0 <= i < |HeldBy(w.clients[c])| ==> HoldingOk(w, c, HeldBy(w.clients[c])[i])
  }

  ghost predicate Inv(w: World) {
    && StoreOk(w) && LiveIsHeld(w)
    && (forall c :: c in w.clients ==> ClientOk(w, c))
    && (forall token :: token in w.leases ==> token in w.owner)
  }

  ghost predicate Empty(w: World) {
    w.redis.data == map[] && w.clients == map[] && w.owner == map[] && w.leases == map[]
  }

  // ------------------------------------------------------------- preservation

  /** A holding stays sound while its owner, its lease and the entry under its token stay. */
  lemma HoldingFrame(w: World, w': World, c: Id, h: Held)
    requires HoldingOk(w, c, h) && w.redis.now <= w'.redis.now
    requires h.token in w'.owner && w'.owner[h.token] == w.owner[h.token]
    requires h.token in w'.leases && w'.leases[h.token] == w.leases[h.token]
    requires w.redis.now < w.leases[h.token] ==>
      h.resource in w'.redis.data && w'.redis.data[h.resource].value == w.redis.data[h.resource].value
    ensures HoldingOk(w', c, h)
  {
  }

  lemma AcquireFreeKeepsStore(w: World, c: Id, token: string, ttl: int)
    requires Inv(w) && Enabled(w, Acquire(c, token, ttl)) && Get(w.redis, w.clients[c].todo[0]) == None
    ensures StoreOk(DoAcquire(w, c, token, ttl)) && LiveIsHeld(DoAcquire(w, c, token, ttl))
  {
    var w' := DoAcquire(w, c, token, ttl);
    var key, held' := w.clients[c].todo[0], w'.clients[c].held;
    forall k | k in w'.redis.data ensures EntryOk(w', w'.redis.data[k]) {
      assert k != key ==> EntryOk(w, w.redis.data[k]);
    }
    forall k | Live(w'.redis, k) && w'.redis.data[k].value.Text?
      ensures OnOwnersList(w', k, w'.redis.data[k].value.text)
    {
      if k == key {
        assert held'[|held'| - 1] == Held(key, token);
      } else {
        assert Live(w.redis, k) && EntryOk(w, w.redis.data[k]);
        assert OnOwnersList(w, k, w.redis.data[k].value.text);
      }
    }
  }

  lemma AcquireFreeKeepsClients(w: World, c: Id, token: string, ttl: int, d: Id)
    requires Inv(w) && Enabled(w, Acquire(c, token, ttl)) && Get(w.redis, w.clients[c].todo[0]) == None
    requires d in w.clients
    ensures ClientOk(DoAcquire(w, c, token, ttl), d)
  {
    var w' := DoAcquire(w, c, token, ttl);
    var held, held' := HeldBy(w.clients[d]), HeldBy(w'.clients[d]);
    assert ClientOk(w, d);
    forall i | 0 <= i < |held| ensures HoldingOk(w', d, held[i]) {
      assert HoldingOk(w, d, held[i]);
      HoldingFrame(w, w', d, held[i]);
    }
    assert forall i :: 0 <= i < |held| ==> held'[i] == held[i] && held[i].token != token;
    if d == c {
      assert Resources(held') + w'.clients[c].todo == Resources(held) + w.clients[c].todo;
    }
  }

  lemma AcquireFreeKeepsInv(w: World, c: Id, token: string, ttl: int)
    requires Inv(w) && Enabled(w, Acquire(c, token, ttl)) && Get(w.redis, w.clients[c].todo[0]) == None
    ensures Inv(DoAcquire(w, c, token, ttl))
  {
    var w' := DoAcquire(w, c, token, ttl);
    AcquireFreeKeepsStore(w, c, token, ttl);
    forall d | d in w'.clients ensures ClientOk(w', d) {
      AcquireFreeKeepsClients(w, c, token, ttl, d);
    }
  }

  /** A step that leaves the store and the leases alone and keeps every list keeps the invariant. */
  lemma BookkeepingKeepsInv(w: World, w': World)
    requires Inv(w) && w'.redis == w.redis && w'.leases == w.leases
    requires forall t :: t in w.owner ==> t in w'.owner && w'.owner[t] == w.owner[t]
    requires forall d :: d in w.clients ==> d in w'.clients && HeldBy(w'.clients[d]) == HeldBy(w.clients[d])
    requires forall d :: d in w'.clients ==>
      ClientShape(w'.clients[d]) && (d !in w.clients ==> HeldBy(w'.clients[d]) == [])
    ensures Inv(w')
  {
    forall k | k in w'.redis.data ensures EntryOk(w', w'.redis.data[k]) {
      assert EntryOk(w, w.redis.data[k]);
    }
    forall k | Live(w'.redis, k) && w'.redis.data[k].value.Text?
      ensures OnOwnersList(w', k, w'.redis.data[k].value.text)
    {
      assert OnOwnersList(w, k, w.redis.data[k].value.text);
    }
    forall d | d in w'.clients ensures ClientOk(w', d) {
      if d in w.clients {
        assert ClientOk(w, d);
      }
    }
  }

  lemma ReleaseKeepsInv(w: World, c: Id)
    requires Inv(w) && Enabled(w, Release(c)) && w.clients[c].held != []
    ensures Inv(DoRelease(w, c))
  {
    var w' := DoRelease(w, c);
    var held := w.clients[c].held;
    var last := held[|held| - 1];
    assert ClientOk(w, c) && HoldingOk(w, c, last);
    forall k | Live(w'.redis, k) && w'.redis.data[k].value.Text?
      ensures OnOwnersList(w', k, w'.redis.data[k].value.text)
    {
      ReleaseKeepsLive(w, c, k);
    }
    forall d | d in w'.clients ensures ClientOk(w', d) {
      ReleaseKeepsClients(w, c, d);
    }
    assert StoreOk(w') by {
      forall k | k in w'.redis.data ensures EntryOk(w', w'.redis.data[k]) {
        assert EntryOk(w, w.redis.data[k]);
      }
    }
  }

  lemma ReleaseKeepsLive(w: World, c: Id, k: string)
    requires Inv(w) && Enabled(w, Release(c)) && w.clients[c].held != []
    requires Live(DoRelease(w, c).redis, k)
    ensures var w' := DoRelease(w, c);
      w'.redis.data[k].value.Text? && OnOwnersList(w', k, w'.redis.data[k].value.text)
  {
    var w' := DoRelease(w, c);
    var held := w.clients[c].held;
    var t := w.redis.data[k].value;
    assert Live(w.redis, k) && EntryOk(w, w.redis.data[k]);
    assert OnOwnersList(w, k, t.text);
    if w.owner[t.text] == c {
      var i :| 0 <= i < |held| && held[i] == Held(k, t.text);
      assert HeldBy(w'.clients[c])[i] == held[i];
    }
  }

  lemma ReleaseKeepsClients(w: World, c: Id, d: Id)
    requires Inv(w) && Enabled(w, Release(c)) && w.clients[c].held != [] && d in w.clients
    ensures ClientOk(DoRelease(w, c), d)
  {
    var w' := DoRelease(w, c);
    var last := w.clients[c].held[|w.clients[c].held| - 1];
    var held' := HeldBy(w'.clients[d]);
    assert ClientOk(w, d) && ClientOk(w, c) && HoldingOk(w, c, last);
    forall i | 0 <= i < |held'| ensures HoldingOk(w', d, held'[i]) {
      assert held'[i] == HeldBy(w.clients[d])[i];
      assert HoldingOk(w, d, held'[i]) && held'[i].token != last.token;
      HoldingFrame(w, w', d, held'[i]);
    }
  }

  lemma RenewKeepsInv(w: World, key: string, token: string, ttl: int)
    requires Inv(w) && ttl > 0 && Get(w.redis, key) == Some(Text(token))
    ensures Inv(DoRenew(w, key, token, ttl))
  {
    var w' := DoRenew(w, key, token, ttl);
    assert Live(w.redis, key) && EntryOk(w, w.redis.data[key]);
    assert OnOwnersList(w, key, token);
    forall k | k in w'.redis.data ensures EntryOk(w', w'.redis.data[k]) {
      assert EntryOk(w, w.redis.data[k]);
    }
    forall k | Live(w'.redis, k) && w'.redis.data[k].value.Text?
      ensures OnOwnersList(w', k, w'.redis.data[k].value.text)
    {
      assert Live(w.redis, k);
      assert OnOwnersList(w, k, w.redis.data[k].value.text);
    }
    forall d | d in w'.clients ensures ClientOk(w', d) {
      RenewKeepsClients(w, key, token, ttl, d);
    }
  }

  lemma RenewKeepsClients(w: World, key: string, token: string, ttl: int, d: Id)
    requires Inv(w) && ttl > 0 && Get(w.redis, key) == Some(Text(token)) && d in w.clients
    requires OnOwnersList(w, key, token)
    ensures ClientOk(DoRenew(w, key, token, ttl), d)
  {
    var w' := DoRenew(w, key, token, ttl);
    var held := HeldBy(w.clients[d]);
    assert ClientOk(w, d);
    forall i | 0 <= i < |held| ensures HoldingOk(w', d, held[i]) {
      assert HoldingOk(w, d, held[i]);
      if held[i].token != token {
        HoldingFrame(w, w', d, held[i]);
      } else {
        var j :| 0 <= j < |held| && held[j] == Held(key, token);
        assert i == j;
      }
    }
  }

  lemma WaitKeepsInv(w: World, seconds: nat)
    requires Inv(w)
    ensures Inv(w.(redis := Tick(w.redis, seconds)))
  {
    var w' := w.(redis := Tick(w.redis, seconds));
    forall k | k in w'.redis.data ensures EntryOk(w', w'.redis.data[k]) {
      assert EntryOk(w, w.redis.data[k]);
    }
    forall k | Live(w'.redis, k) && w'.redis.data[k].value.Text?
      ensures OnOwnersList(w', k, w'.redis.data[k].value.text)
    {
      assert Live(w.redis, k);
      assert OnOwnersList(w, k, w.redis.data[k].value.text);
    }
    forall d | d in w'.clients ensures ClientOk(w', d) {
      assert ClientOk(w, d);
    }
  }

  lemma StepKeepsInv(w: World, a: Action)
    requires Inv(w)
    ensures Inv(Do(w, a))
  {
    if Enabled(w, a) {
      if a.Wait? {
        WaitKeepsInv(w, a.seconds);
      } else if a.Renew? {
        if Get(w.redis, a.resource) == Some(Text(a.token)) {
          RenewKeepsInv(w, a.resource, a.token, a.ttl);
        }
      } else if a.Acquire? && Get(w.redis, w.clients[a.client].todo[0]) == None {
        AcquireFreeKeepsInv(w, a.client, a.token, a.ttl);
      } else if a.Release? && w.clients[a.client].held != [] {
        ReleaseKeepsInv(w, a.client);
      } else {
        MovesAreBookkeeping(w, a);
        BookkeepingKeepsInv(w, Do(w, a));
      }
    }
  }

  lemma MovesAreBookkeeping(w: World, a: Action)
    requires Inv(w) && Enabled(w, a) && !a.Wait? && !a.Renew?
    requires a.Acquire? ==> Get(w.redis, w.clients[a.client].todo[0]) != None
    requires a.Release? ==> w.clients[a.client].held == []
    ensures var w' := Do(w, a);
      && w'.redis == w.redis && w'.leases == w.leases
      && (forall t :: t in w.owner ==> t in w'.owner && w'.owner[t] == w.owner[t])
      && (forall d :: d in w.clients ==> d in w'.clients && HeldBy(w'.clients[d]) == HeldBy(w.clients[d]))
      && (forall d :: d in w'.clients ==>
            ClientShape(w'.clients[d]) && (d !in w.clients ==> HeldBy(w'.clients[d]) == []))
  {
    var w' := Do(w, a);
    forall d | d in w'.clients
      ensures ClientShape(w'.clients[d])
      ensures HeldBy(w'.clients[d]) == if d in w.clients then HeldBy(w.clients[d]) else []
    {
      MovesKeepShape(w, a, d);
    }
  }

  lemma MovesKeepShape(w: World, a: Action, d: Id)
    requires Enabled(w, a) && !a.Wait? && !a.Renew? && d in Do(w, a).clients
    requires d in w.clients ==> ClientShape(w.clients[d])
    requires a.Acquire? ==> Get(w.redis, w.clients[a.client].todo[0]) != None
    requires a.Release? ==> w.clients[a.client].held == []
    ensures var client := Do(w, a).clients[d];
      ClientShape(client) && HeldBy(client) == if d in w.clients then HeldBy(w.clients[d]) else []
  {
    if d !in w.clients {
      assert HeldBy(Do(w, a).clients[d]) == [];
      assert Resources([]) + a.sorted == a.sorted;
    } else {
      assert HeldBy(Do(w, a).clients[d]) == HeldBy(w.clients[d]);
    }
  }

  lemma RunKeepsInv(w: World, actions: seq<Action>)
    requires Inv(w)
    ensures Inv(Run(w, actions))
  {
    forall v: World, a: Action | Inv(v) ensures Inv(Do(v, a)) {
      StepKeepsInv(v, a);
    }
    Runs.Keeps(Do, Inv, w, actions);
  }

  // ----------------------------------------------------------------- theorems

  /** The call believes, from the replies it got, that its lock on the resource has not run out. */
  ghost predicate Holds(w: World, c: Id, resource: string, token: string) {
    c in w.clients && Held(resource, token) in HeldBy(w.clients[c])
      && token in w.leases && w.redis.now < w.leases[token]
  }

  /** At any time at most one call holds a resource within its lease. */
  lemma MutualExclusion(w: World, actions: seq<Action>, c: Id, d: Id, resource: string, t: string, u: string)
    requires Empty(w)
    requires Holds(Run(w, actions), c, resource, t) && Holds(Run(w, actions), d, resource, u)
    ensures c == d && t == u
  {
    RunKeepsInv(w, actions);
    var w' := Run(w, actions);
    assert ClientOk(w', c) && ClientOk(w', d);
  }

  /** A call that has returned, for whatever reason, has left no live lock behind. */
  lemma ReturnLeavesNothing(w: World, actions: seq<Action>, c: Id, key: string)
    requires Empty(w)
    requires var w' := Run(w, actions); c in w'.clients && w'.clients[c].Finished? && Live(w'.redis, key)
    ensures var w' := Run(w, actions);
      w'.redis.data[key].value.Text? && w'.redis.data[key].value.text in w'.owner
      && w'.owner[w'.redis.data[key].value.text] != c
  {
    RunKeepsInv(w, actions);
  }

  /** A renewal that arrives after its call returned changes nothing, so it cannot bring the lock back. */
  lemma LateRenewIsHarmless(w: World, actions: seq<Action>, key: string, token: string, ttl: int)
    requires Empty(w)
    requires var w' := Run(w, actions);
      token in w'.owner && w'.owner[token] in w'.clients && w'.clients[w'.owner[token]].Finished?
    ensures Do(Run(w, actions), Renew(key, token, ttl)) == Run(w, actions)
  {
    RunKeepsInv(w, actions);
  }

  /** A release or renewal of one call never touches a live lock of another. */
  lemma StaleHolderIsHarmless(w: World, actions: seq<Action>, a: Action, key: string)
    requires Empty(w) && (a.Release? || a.Renew?)
    requires var w' := Run(w, actions); Live(w'.redis, key)
    ensures var (before, after) := (Run(w, actions), Do(Run(w, actions), a));
      && before.redis.data[key].value.Text? && before.redis.data[key].value.text in before.owner
      && var holder := before.owner[before.redis.data[key].value.text];
      var others :=
        || (a.Release? && a.client != holder)
        || (a.Renew? && a.token in before.owner && before.owner[a.token] != holder);
      (others ==>
        key in after.redis.data && after.redis.data[key] == before.redis.data[key])
  {
    RunKeepsInv(w, actions);
    var w' := Run(w, actions);
    if a.Release? && a.client in w'.clients {
      assert ClientOk(w', a.client);
    }
  }

  /** Nobody's next lock is one it holds already. */
  lemma NeverBlockedByItself(w: World, actions: seq<Action>, c: Id)
    requires Empty(w)
    requires var w' := Run(w, actions);
      c in w'.clients && w'.clients[c].Acquiring? && w'.clients[c].todo != [] && Live(w'.redis, w'.clients[c].todo[0])
    ensures var w' := Run(w, actions);
      var key := w'.clients[c].todo[0];
      w'.redis.data[key].value.Text? && w'.redis.data[key].value.text in w'.owner
      && w'.owner[w'.redis.data[key].value.text] != c
  {
    RunKeepsInv(w, actions);
    var w' := Run(w, actions);
    var client := w'.clients[c];
    var key := client.todo[0];
    assert ClientOk(w', c);
    forall i | 0 <= i < |client.held| ensures client.held[i].resource != key {
      var names := Resources(client.held) + client.todo;
      assert names[i] == client.held[i].resource && names[|client.held|] == key;
      LessIrreflexive(key);
    }
  }

  /** Everything that holds a live lock is a call still collecting its list. */
  ghost predicate AllAcquiring(w: World) {
    forall key :: Live(w.redis, key) && w.redis.data[key].value.Text? && w.redis.data[key].value.text in w.owner ==>
      var c := w.owner[w.redis.data[key].value.text];
      c in w.clients && w.clients[c].Acquiring? && w.clients[c].todo != []
  }

  /** Sorted acquisition cannot deadlock: while only collecting calls hold locks, one of them can take its next. */
  lemma SomeNextAcquireSucceeds(w: World, actions: seq<Action>, c: Id)
    requires Empty(w) && AllAcquiring(Run(w, actions))
    requires var w' := Run(w, actions); c in w'.clients && w'.clients[c].Acquiring? && w'.clients[c].todo != []
    ensures var w' := Run(w, actions);
      exists d :: d in w'.clients && w'.clients[d].Acquiring? && w'.clients[d].todo != []
        && Get(w'.redis, w'.clients[d].todo[0]) == None
  {
    RunKeepsInv(w, actions);
    var w' := Run(w, actions);
    var live := set key | key in w'.redis.data && Live(w'.redis, key);
    if live == {} {
      assert w'.clients[c].todo[0] !in live;
      assert Get(w'.redis, w'.clients[c].todo[0]) == None;
    } else {
      var top := Greatest(live);
      NextIsFree(w', top);
    }
  }

  /** The holder of the greatest live lock goes on to a greater name, which is not live. */
  lemma NextIsFree(w: World, top: string)
    requires Inv(w) && AllAcquiring(w) && Live(w.redis, top)
    requires forall key :: Live(w.redis, key) && key != top ==> Less(key, top)
    ensures exists d ::
      && d in w.clients && w.clients[d].Acquiring? && w.clients[d].todo != []
      && Get(w.redis, w.clients[d].todo[0]) == None
  {
    var token := w.redis.data[top].value.text;
    var d := w.owner[token];
    var client := w.clients[d];
    assert ClientOk(w, d);
    var i :| 0 <= i < |client.held| && client.held[i] == Held(top, token);
    HeldIsBelowNext(client, i);
    var next := client.todo[0];
    if Live(w.redis, next) {
      LessIrreflexive(top);
      if next != top {
        LessTransitive(top, next, top);
      }
    }
    assert Get(w.redis, next) == None;
  }

  lemma HeldIsBelowNext(client: Client, i: nat)
    requires client.Acquiring? && client.todo != [] && i < |client.held|
    requires StrictlySorted(Resources(client.held) + client.todo)
    ensures Less(client.held[i].resource, client.todo[0])
  {
    var names := Resources(client.held) + client.todo;
    assert names[i] == client.held[i].resource && names[|client.held|] == client.todo[0];
  }
}
