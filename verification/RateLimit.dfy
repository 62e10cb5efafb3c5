/**
 * The fixed-window rate limiter over time (src/infrastructure/redis/redis.service.ts). The counter call
 * is two commands, INCR and a later EXPIRE; the EXPIRE may come at any time after, or never.
 */
module RateLimit {
  import opened Common
  import Redis

  datatype Event =
    | Call(at: int)      // INCR of one caller
    | Expire(at: int)    // the EXPIRE sent by the caller that read 1

  /** The limiter's counter: when its window opened, how many calls it counted, when it expires if that is set. */
  datatype Window = Window(index: nat, start: int, count: nat, expiresAt: Option<int>)

  datatype State = State(window: Option<Window>, windows: nat)

  /** What one call was told, and in which window it fell. */
  datatype Decision = Decision(at: int, window: nat, admitted: bool)

  predicate Open(s: State, t: int) {
    s.window.Some? && (s.window.value.expiresAt.None? || t < s.window.value.expiresAt.value)
  }

  function AfterCall(s: State, t: int): State {
    if Open(s, t) then s.(window := Some(s.window.value.(count := s.window.value.count + 1)))
    else State(Some(Window(s.windows, t, 1, None)), s.windows + 1)
  }

  function AfterExpire(s: State, t: int, windowSeconds: nat): State {
    if s.window.Some? && s.window.value.expiresAt.None?
    then s.(window := Some(s.window.value.(expiresAt := Some(t + windowSeconds)))) else s
  }

  function After(s: State, e: Event, windowSeconds: nat): State {
    match e
    case Call(t) => AfterCall(s, t)
    case Expire(t) => AfterExpire(s, t, windowSeconds)
  }

  /** The store's entry under the limiter's key is this window. */
  ghost predicate Shows(store: Redis.Store, key: string, s: State) {
    match s.window
    case None => key !in store.data
    case Some(w) => key in store.data && store.data[key] == Redis.Entry(Redis.Number(w.count), w.expiresAt)
  }

  /** The model's steps are the store's INCR and EXPIRE, and admission is the comparison with the value INCR returns. */
  lemma StepsAreCommands(store: Redis.Store, key: string, s: State, limit: nat, windowSeconds: nat)
    requires Shows(store, key, s)
    ensures Shows(Redis.Bump(store, key), key, AfterCall(s, store.now))
    ensures Decide(s, store.now, limit).admitted <==> Redis.Counter(Redis.Bump(store, key), key) <= limit
    ensures s.window.Some? && s.window.value.expiresAt.None? ==>
      Shows(Redis.SetExpiry(store, key, windowSeconds), key, AfterExpire(s, store.now, windowSeconds))
  {
  }

  function Decide(s: State, t: int, limit: nat): Decision {
    var w := AfterCall(s, t).window.value;
    Decision(t, w.index, w.count <= limit)
  }

  const START: State := State(None, 0)

  /** Events are given latest last. */
  function StateAfter(events: seq<Event>, windowSeconds: nat): State {
    if events == [] then START
    else After(StateAfter(events[..|events| - 1], windowSeconds), events[|events| - 1], windowSeconds)
  }

  function Decisions(events: seq<Event>, limit: nat, windowSeconds: nat): seq<Decision> {
    if events == [] then []
    else
      var (init, last) := (events[..|events| - 1], events[|events| - 1]);
      Decisions(init, limit, windowSeconds)
      + if last.Call? then [Decide(StateAfter(init, windowSeconds), last.at, limit)] else []
  }

  predicate InOrder(events: seq<Event>) {
    forall i, j :: 0 <= i < j < |events| ==> events[i].at <= events[j].at
  }

  /** Admitted calls in the interval of `length` seconds from `from`. */
  function AdmittedDuring(decisions: seq<Decision>, from: int, length: nat): nat {
    if decisions == [] then 0
    else
      var last := decisions[|decisions| - 1];
      AdmittedDuring(decisions[..|decisions| - 1], from, length)
      + if last.admitted && from <= last.at < from + length then 1 else 0
  }

  function AdmittedIn(decisions: seq<Decision>, window: nat): nat {
    if decisions == [] then 0
    else
      var last := decisions[|decisions| - 1];
      AdmittedIn(decisions[..|decisions| - 1], window) + if last.admitted && last.window == window then 1 else 0
  }

  function Min(a: int, b: int): int {
    if a < b then a else b
  }

  lemma DuringSnoc(ds: seq<Decision>, d: Decision, from: int, length: nat)
    ensures AdmittedDuring(ds + [d], from, length)
         == AdmittedDuring(ds, from, length) + if d.admitted && from <= d.at < from + length then 1 else 0
  {
    assert (ds + [d])[..|ds|] == ds;
  }

  lemma InSnoc(ds: seq<Decision>, d: Decision, window: nat)
    ensures AdmittedIn(ds + [d], window) == AdmittedIn(ds, window) + if d.admitted && d.window == window then 1 else 0
  {
    assert (ds + [d])[..|ds|] == ds;
  }

  // --------------------------------------------------------- each window alone

  /** Window indices are handed out in order, and the current window has admitted its first `limit` calls. */
  ghost predicate WindowInv(s: State, ds: seq<Decision>, limit: nat) {
    && (s.window.Some? ==>
          s.window.value.index + 1 == s.windows
            && AdmittedIn(ds, s.window.value.index) == Min(s.window.value.count, limit))
    && (forall k :: AdmittedIn(ds, k) <= limit)
    && (forall k :: k >= s.windows ==> AdmittedIn(ds, k) == 0)
  }

  lemma {:induction false} WindowInvHolds(events: seq<Event>, limit: nat, windowSeconds: nat)
    ensures WindowInv(StateAfter(events, windowSeconds), Decisions(events, limit, windowSeconds), limit)
  {
    if events != [] {
      var init, last := events[..|events| - 1], events[|events| - 1];
      WindowInvHolds(init, limit, windowSeconds);
      var s, ds := StateAfter(init, windowSeconds), Decisions(init, limit, windowSeconds);
      if last.Call? {
        var d := Decide(s, last.at, limit);
        forall k: nat
          ensures AdmittedIn(ds + [d], k) == AdmittedIn(ds, k) + if d.admitted && d.window == k then 1 else 0
        {
          InSnoc(ds, d, k);
        }
      } else {
        assert ds + [] == ds;
      }
    }
  }

  /** No window admits more than `limit` calls, however many were made. */
  lemma EachWindowAdmitsAtMostLimit(events: seq<Event>, limit: nat, windowSeconds: nat, window: nat)
    ensures AdmittedIn(Decisions(events, limit, windowSeconds), window) <= limit
  {
    WindowInvHolds(events, limit, windowSeconds);
  }

  // ----------------------------------------------------------- sliding interval

  /**
   * How many calls the interval has admitted, by where the current window opened: before the interval
   * only its later calls can count; inside it the previous window may add all but its first call; after
   * it nothing is added any more.
   */
  ghost predicate SlidingInv(s: State, admitted: nat, now: int, limit: nat, windowSeconds: nat, from: int) {
    && (now < from ==> admitted == 0)
    && (s.window.None? ==> admitted == 0)
    && (s.window.Some? ==>
          var w := s.window.value;
          && w.count >= 1 && w.start <= now
          && (w.expiresAt.Some? ==> w.expiresAt.value >= w.start + windowSeconds)
          && (if w.start < from then admitted <= Min(w.count, limit) - 1
              else if w.start < from + windowSeconds then admitted <= limit - 1 + Min(w.count, limit)
              else admitted <= 2 * limit - 1))
  }

  lemma SlidingStep(s: State, admitted: nat, now: int, e: Event, limit: nat, windowSeconds: nat, from: int)
    requires limit >= 1 && windowSeconds >= 1 && now <= e.at
    requires SlidingInv(s, admitted, now, limit, windowSeconds, from)
    ensures e.Call? ==> var d := Decide(s, e.at, limit);
      SlidingInv(After(s, e, windowSeconds),
        admitted + (if d.admitted && from <= d.at < from + windowSeconds then 1 else 0),
        e.at, limit, windowSeconds, from)
    ensures e.Expire? ==>
      SlidingInv(After(s, e, windowSeconds), admitted, e.at, limit, windowSeconds, from)
  {
  }

  lemma {:induction false} SlidingInvHolds(events: seq<Event>, limit: nat, windowSeconds: nat, from: int)
    requires limit >= 1 && windowSeconds >= 1 && InOrder(events) && events != []
    ensures SlidingInv(StateAfter(events, windowSeconds),
              AdmittedDuring(Decisions(events, limit, windowSeconds), from, windowSeconds),
              events[|events| - 1].at, limit, windowSeconds, from)
  {
    var init, last := events[..|events| - 1], events[|events| - 1];
    var s, ds := StateAfter(init, windowSeconds), Decisions(init, limit, windowSeconds);
    var before := if init == [] then last.at else init[|init| - 1].at;
    if init != [] {
      SlidingInvHolds(init, limit, windowSeconds, from);
    }
    SlidingStep(s, AdmittedDuring(ds, from, windowSeconds), before, last, limit, windowSeconds, from);
    if last.Call? {
      DuringSnoc(ds, Decide(s, last.at, limit), from, windowSeconds);
    } else {
      assert ds + [] == ds;
    }
  }

  /**
   * Any sliding interval as long as the window admits at most 2 * limit - 1 calls, for every timed
   * sequence of calls and however late each EXPIRE arrives.
   */
  lemma SlidingIntervalBound(events: seq<Event>, limit: nat, windowSeconds: nat, from: int)
    requires limit >= 1 && windowSeconds >= 1 && InOrder(events)
    ensures AdmittedDuring(Decisions(events, limit, windowSeconds), from, windowSeconds) <= 2 * limit - 1
  {
    if events != [] {
      SlidingInvHolds(events, limit, windowSeconds, from);
    }
  }

  // ------------------------------------------------------------------ tightness

  function Burst(t: int, n: nat): seq<Event> {
    if n == 0 then [] else Burst(t, n - 1) + [Call(t)]
  }

  /** A full use of one window late, and of the next one as soon as it opens. */
  function LateThenEarly(limit: nat, windowSeconds: nat): seq<Event>
    requires limit >= 1
  {
    [Call(0), Expire(0)] + Burst(windowSeconds - 1, limit - 1) + Burst(windowSeconds, limit)
  }

  lemma Snoc(events: seq<Event>, e: Event, limit: nat, windowSeconds: nat)
    ensures StateAfter(events + [e], windowSeconds) == After(StateAfter(events, windowSeconds), e, windowSeconds)
    ensures Decisions(events + [e], limit, windowSeconds) == Decisions(events, limit, windowSeconds)
      + if e.Call? then [Decide(StateAfter(events, windowSeconds), e.at, limit)] else []
  {
    assert (events + [e])[..|events|] == events;
  }

  /** After these events the window has this count and expiry, and the interval has admitted this many calls. */
  ghost predicate Reaches(events: seq<Event>, limit: nat, windowSeconds: nat, from: int, w: Window, admitted: nat) {
    && StateAfter(events, windowSeconds) == State(Some(w), w.index + 1)
    && AdmittedDuring(Decisions(events, limit, windowSeconds), from, windowSeconds) == admitted
  }

  /** What one more call adds to a state that has been reached. */
  lemma CallReaches(events: seq<Event>, t: int, limit: nat, windowSeconds: nat, from: int, w: Window, admitted: nat)
    requires Reaches(events, limit, windowSeconds, from, w, admitted)
    ensures var s := State(Some(w), w.index + 1);
      var d := Decide(s, t, limit);
      && StateAfter(events + [Call(t)], windowSeconds) == AfterCall(s, t)
      && AdmittedDuring(Decisions(events + [Call(t)], limit, windowSeconds), from, windowSeconds)
         == admitted + if d.admitted && from <= d.at < from + windowSeconds then 1 else 0
  {
    Snoc(events, Call(t), limit, windowSeconds);
    var d := Decide(StateAfter(events, windowSeconds), t, limit);
    DuringSnoc(Decisions(events, limit, windowSeconds), d, from, windowSeconds);
  }

  lemma OneMoreCall(events: seq<Event>, t: int, limit: nat, windowSeconds: nat, from: int, w: Window, admitted: nat)
    requires Reaches(events, limit, windowSeconds, from, w, admitted)
    requires (w.expiresAt.Some? ==> t < w.expiresAt.value) && w.count < limit && from <= t < from + windowSeconds
    ensures Reaches(events + [Call(t)], limit, windowSeconds, from, w.(count := w.count + 1), admitted + 1)
  {
    CallReaches(events, t, limit, windowSeconds, from, w, admitted);
  }

  lemma FirstOfNextWindow(
    events: seq<Event>, t: int, limit: nat, windowSeconds: nat, from: int, w: Window, admitted: nat)
    requires Reaches(events, limit, windowSeconds, from, w, admitted)
    requires w.expiresAt.Some? && w.expiresAt.value <= t && 1 <= limit && from <= t < from + windowSeconds
    ensures Reaches(events + [Call(t)], limit, windowSeconds, from, Window(w.index + 1, t, 1, None), admitted + 1)
  {
    CallReaches(events, t, limit, windowSeconds, from, w, admitted);
  }

  /** What one more call always keeps, a burst keeps. */
  lemma {:induction false} BurstKeeps(p: (seq<Event>, nat) -> bool, events: seq<Event>, t: int, n: nat)
    requires p(events, 0) && forall e: seq<Event>, k: nat :: k < n && p(e, k) ==> p(e + [Call(t)], k + 1)
    ensures p(events + Burst(t, n), n)
  {
    if n == 0 {
      assert events + Burst(t, 0) == events;
    } else {
      BurstKeeps(p, events, t, n - 1);
      var shorter := events + Burst(t, n - 1);
      assert p(shorter + [Call(t)], n);
      assert shorter + [Call(t)] == events + Burst(t, n);
    }
  }

  /** Calls at one time into an open window with room are all admitted. */
  lemma BurstAdmitted(
      events: seq<Event>, t: int, n: nat, limit: nat, windowSeconds: nat, from: int, w: Window, admitted: nat)
    requires Reaches(events, limit, windowSeconds, from, w, admitted)
    requires (w.expiresAt.Some? ==> t < w.expiresAt.value) && w.count + n <= limit && from <= t < from + windowSeconds
    ensures Reaches(events + Burst(t, n), limit, windowSeconds, from, w.(count := w.count + n), admitted + n)
  {
    var p := (e: seq<Event>, k: nat) => Grown(e, k, limit, windowSeconds, from, w, admitted);
    forall e: seq<Event>, k: nat | k < n && Grown(e, k, limit, windowSeconds, from, w, admitted)
      ensures Grown(e + [Call(t)], k + 1, limit, windowSeconds, from, w, admitted)
    {
      OneMoreCall(e, t, limit, windowSeconds, from, w.(count := w.count + k), admitted + k);
    }
    BurstKeeps(p, events, t, n);
  }

  /** The window and the interval have grown by k calls. */
  ghost predicate Grown(
      events: seq<Event>, k: nat, limit: nat, windowSeconds: nat, from: int, w: Window, admitted: nat)
  {
    Reaches(events, limit, windowSeconds, from, w.(count := w.count + k), admitted + k)
  }

  lemma FirstCallAndExpiry(limit: nat, windowSeconds: nat)
    requires limit >= 1 && windowSeconds >= 2
    ensures Reaches([Call(0), Expire(0)], limit, windowSeconds, windowSeconds - 1,
      Window(0, 0, 1, Some(windowSeconds)), 0)
  {
    assert [] + [Call(0)] == [Call(0)] && [Call(0)] + [Expire(0)] == [Call(0), Expire(0)];
    Snoc([], Call(0), limit, windowSeconds);
    Snoc([Call(0)], Expire(0), limit, windowSeconds);
    assert Decisions([Call(0), Expire(0)], limit, windowSeconds) == [] + [Decide(START, 0, limit)];
    DuringSnoc([], Decide(START, 0, limit), windowSeconds - 1, windowSeconds);
  }

  /** The bound is attained for every limit and every window of two seconds or more. */
  lemma SlidingBoundIsTight(limit: nat, windowSeconds: nat)
    requires limit >= 1 && windowSeconds >= 2
    ensures var decisions := Decisions(LateThenEarly(limit, windowSeconds), limit, windowSeconds);
      AdmittedDuring(decisions, windowSeconds - 1, windowSeconds) == 2 * limit - 1
  {
    var from := windowSeconds - 1;
    LateUse(limit, windowSeconds);
    var late := [Call(0), Expire(0)] + Burst(from, limit - 1);
    var used, next := Window(0, 0, limit, Some(windowSeconds)), Window(1, windowSeconds, 1, None);
    FirstOfNextWindow(late, windowSeconds, limit, windowSeconds, from, used, limit - 1);
    var early := late + [Call(windowSeconds)];
    BurstAdmitted(early, windowSeconds, limit - 1, limit, windowSeconds, from, next, limit);
    InTwoBursts(limit, windowSeconds);
  }

  /** The first window, opened at 0, is used up in its last second. */
  lemma LateUse(limit: nat, windowSeconds: nat)
    requires limit >= 1 && windowSeconds >= 2
    ensures Reaches([Call(0), Expire(0)] + Burst(windowSeconds - 1, limit - 1), limit, windowSeconds, windowSeconds - 1,
                    Window(0, 0, limit, Some(windowSeconds)), limit - 1)
  {
    FirstCallAndExpiry(limit, windowSeconds);
    BurstAdmitted([Call(0), Expire(0)], windowSeconds - 1, limit - 1, limit, windowSeconds, windowSeconds - 1,
                  Window(0, 0, 1, Some(windowSeconds)), 0);
  }

  lemma InTwoBursts(limit: nat, windowSeconds: nat)
    requires limit >= 1 && windowSeconds >= 2
    ensures LateThenEarly(limit, windowSeconds)
         == ([Call(0), Expire(0)] + Burst(windowSeconds - 1, limit - 1))
           + [Call(windowSeconds)] + Burst(windowSeconds, limit - 1)
  {
    BurstFront(windowSeconds, limit - 1);
  }

  lemma {:induction false} BurstFront(t: int, n: nat)
    ensures Burst(t, n + 1) == [Call(t)] + Burst(t, n)
  {
    if n > 0 {
      BurstFront(t, n - 1);
    }
  }
}
