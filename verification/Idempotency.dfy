/**
 * HTTP request idempotency: SET NX a processing marker, then replay the stored first success
 * (src/infrastructure/redis/redis-business.service.ts, src/common/idempotency/idempotency.interceptor.ts).
 * Requests interleave command by command; keys are full store keys.
 */
module Idempotency {
  import opened Common
  import Runs
  import opened Redis

  datatype Options = Options(processingTtl: int, resultTtl: int, waitSeconds: int)

  /** A request begins at most twice. */
  type Attempt = n: int | n == 1 || n == 2 witness 1

  datatype Phase =
    | Beginning(attempt: Attempt)                   // about to SET NX
    | Looking(attempt: Attempt)                     // SET NX refused, about to GET
    | Retrying(attempt: Attempt)                    // GET found nothing, about to SET NX again
    | Polling(deadline: int)                        // told "in progress" once, polling for a result
    | Handling(until: int)                          // the handler runs; its marker lapses at `until`
    | Fresh(statusCode: int, body: string)          // this request ran the handler and stored its success
    | Failed                                        // this request ran the handler without success
    | Replayed(statusCode: int, body: string)       // answered with a stored success
    | Refused                                       // told "in progress" twice

  datatype Request = Request(key: string, options: Options, phase: Phase)

  /** `completions` records every stored success. */
  datatype World = World(redis: Store, requests: map<Id, Request>, completions: set<(string, int, string)>)

  datatype Action =
    | Arrive(id: Id, key: string, options: Options)
    | Begin(id: Id)
    | Look(id: Id)
    | Retry(id: Id)
    | Poll(id: Id)
    | StopPolling(id: Id)
    | Complete(id: Id, statusCode: int, body: string)
    | Fail(id: Id)
    | Wait(seconds: nat)

  predicate Enabled(w: World, a: Action) {
    match a
    case Arrive(id, _, options) => id !in w.requests && options.processingTtl > 0 && options.resultTtl > 0
    case Begin(id) => id in w.requests && w.requests[id].phase.Beginning?
    case Look(id) => id in w.requests && w.requests[id].phase.Looking?
    case Retry(id) => id in w.requests && w.requests[id].phase.Retrying?
    case Poll(id) => id in w.requests && w.requests[id].phase.Polling?
    case StopPolling(id) =>
      id in w.requests && w.requests[id].phase.Polling? && w.redis.now >= w.requests[id].phase.deadline
    case Complete(id, _, _) => id in w.requests && w.requests[id].phase.Handling?
    case Fail(id) => id in w.requests && w.requests[id].phase.Handling?
    case Wait(_) => true
  }

  function Go(w: World, id: Id, phase: Phase): World
    requires id in w.requests
  {
    w.(requests := w.requests[id := w.requests[id].(phase := phase)])
  }

  /** SET NX of the marker: run the handler, or go on as told. */
  function Claim(w: World, id: Id, otherwise: Phase): World
    requires id in w.requests
  {
    var r := w.requests[id];
    if Live(w.redis, r.key) then Go(w, id, otherwise)
    else Go(w.(redis := PutNx(w.redis, r.key, Processing(w.redis.now), r.options.processingTtl)), id,
            Handling(w.redis.now + r.options.processingTtl))
  }

  /** "In progress": poll after the first attempt, give up after the second. */
  function InProgress(w: World, id: Id, attempt: Attempt): Phase
    requires id in w.requests
  {
    if attempt == 1 then Polling(w.redis.now + w.requests[id].options.waitSeconds) else Refused
  }

  function DoLook(w: World, id: Id): World
    requires Enabled(w, Look(id))
  {
    var attempt := w.requests[id].phase.attempt;
    match Get(w.redis, w.requests[id].key)
    case None => Go(w, id, Retrying(attempt))
    case Some(Completed(code, body)) => Go(w, id, Replayed(code, body))
    case _ => Go(w, id, InProgress(w, id, attempt))
  }

  function DoPoll(w: World, id: Id): World
    requires Enabled(w, Poll(id))
  {
    match Get(w.redis, w.requests[id].key)
    case None => Go(w, id, Beginning(2))
    case Some(Completed(code, body)) => Go(w, id, Replayed(code, body))
    case _ => w
  }

  /** A 2xx answer is stored for the result TTL; anything else deletes the marker. */
  function DoComplete(w: World, id: Id, code: int, body: string): World
    requires Enabled(w, Complete(id, code, body))
  {
    var r := w.requests[id];
    if 200 <= code < 300 then
      Go(World(Put(w.redis, r.key, Completed(code, body), r.options.resultTtl), w.requests,
               w.completions + {(r.key, code, body)}), id, Fresh(code, body))
    else Go(w.(redis := Remove(w.redis, r.key)), id, Failed)
  }

  function Do(w: World, a: Action): World {
    if !Enabled(w, a) then w
    else match a
      case Arrive(id, key, options) => w.(requests := w.requests[id := Request(key, options, Beginning(1))])
      case Begin(id) => Claim(w, id, Looking(w.requests[id].phase.attempt))
      case Look(id) => DoLook(w, id)
      case Retry(id) => Claim(w, id, InProgress(w, id, w.requests[id].phase.attempt))
      case Poll(id) => DoPoll(w, id)
      case StopPolling(id) => Go(w, id, Beginning(2))
      case Complete(id, code, body) => DoComplete(w, id, code, body)
      case Fail(id) => Go(w.(redis := Remove(w.redis, w.requests[id].key)), id, Failed)
      case Wait(seconds) => w.(redis := Tick(w.redis, seconds))
  }

  function Run(w: World, actions: seq<Action>): World {
    Runs.Iterate(Do, w, actions)
  }

  // ------------------------------------------------------- one handler at a time

  ghost predicate Empty(w: World) {
    w.redis.data == map[] && w.requests == map[] && w.completions == {}
  }

  /** No handler has outlived its processing marker. */
  ghost predicate Timely(w: World) {
    forall id :: id in w.requests && w.requests[id].phase.Handling? ==> w.redis.now < w.requests[id].phase.until
  }

  ghost predicate TimelyRun(w: World, actions: seq<Action>)
    decreases |actions|
  {
    Timely(w) && (actions != [] ==> TimelyRun(Do(w, actions[0]), actions[1..]))
  }

  predicate InFlight(w: World, id: Id) {
    id in w.requests && w.requests[id].phase.Handling?
  }

  ghost predicate OneHandlerPerKey(w: World) {
    forall a, b :: InFlight(w, a) && InFlight(w, b) && a != b ==> w.requests[a].key != w.requests[b].key
  }

  /** A running handler's marker is the stored entry. */
  ghost predicate MarkersStored(w: World) {
    forall id :: id in w.requests && w.requests[id].phase.Handling? ==>
      && w.requests[id].key in w.redis.data
      && w.redis.data[w.requests[id].key].value.Processing?
      && w.redis.data[w.requests[id].key].expiresAt == Some(w.requests[id].phase.until)
  }

  /** Stored successes and the answers given are recorded completions. */
  ghost predicate AnswersRecorded(w: World) {
    && (forall key :: key in w.redis.data && w.redis.data[key].value.Completed? ==>
          (key, w.redis.data[key].value.statusCode, w.redis.data[key].value.body) in w.completions)
    && (forall id :: id in w.requests && (w.requests[id].phase.Replayed? || w.requests[id].phase.Fresh?) ==>
          (w.requests[id].key, w.requests[id].phase.statusCode, w.requests[id].phase.body) in w.completions)
  }

  ghost predicate Inv(w: World) {
    OneHandlerPerKey(w) && MarkersStored(w) && AnswersRecorded(w)
    && forall id :: id in w.requests ==>
      w.requests[id].options.processingTtl > 0 && w.requests[id].options.resultTtl > 0
  }

  lemma ClaimKeepsInv(w: World, id: Id, otherwise: Phase)
    requires Inv(w) && Timely(w) && id in w.requests && !w.requests[id].phase.Handling?
    requires !otherwise.Handling? && !otherwise.Replayed? && !otherwise.Fresh?
    ensures Inv(Claim(w, id, otherwise))
  {
    ClaimKeepsMarkers(w, id, otherwise);
    ClaimKeepsAnswers(w, id, otherwise);
  }

  /** The marker of a timely handler is live, so a new one is written only where no handler runs. */
  lemma ClaimKeepsMarkers(w: World, id: Id, otherwise: Phase)
    requires OneHandlerPerKey(w) && MarkersStored(w) && Timely(w) && id in w.requests
    requires w.requests[id].options.processingTtl > 0
    requires !w.requests[id].phase.Handling? && !otherwise.Handling?
    ensures OneHandlerPerKey(Claim(w, id, otherwise)) && MarkersStored(Claim(w, id, otherwise))
  {
    forall a | a in w.requests && w.requests[a].phase.Handling? ensures Live(w.redis, w.requests[a].key) {
      assert w.redis.now < w.requests[a].phase.until;
    }
  }

  lemma ClaimKeepsAnswers(w: World, id: Id, otherwise: Phase)
    requires AnswersRecorded(w) && id in w.requests && !otherwise.Replayed? && !otherwise.Fresh?
    ensures AnswersRecorded(Claim(w, id, otherwise))
  {
  }

  lemma EndKeepsInv(w: World, a: Action)
    requires Inv(w) && Enabled(w, a) && (a.Complete? || a.Fail?)
    ensures Inv(Do(w, a))
  {
    EndKeepsMarkers(w, a);
    EndKeepsAnswers(w, a);
  }

  /** The handler that ends was the only one of its key, so the entry it overwrites is nobody else's. */
  lemma EndKeepsMarkers(w: World, a: Action)
    requires OneHandlerPerKey(w) && MarkersStored(w) && Enabled(w, a) && (a.Complete? || a.Fail?)
    ensures OneHandlerPerKey(Do(w, a)) && MarkersStored(Do(w, a))
  {
    var w' := Do(w, a);
    forall id | id in w'.requests && w'.requests[id].phase.Handling?
      ensures id in w.requests && w'.requests[id] == w.requests[id] && w'.requests[id].key != w.requests[a.id].key
    {
      assert InFlight(w, a.id);
      assert InFlight(w, id);
    }
  }

  lemma EndKeepsAnswers(w: World, a: Action)
    requires AnswersRecorded(w) && Enabled(w, a) && (a.Complete? || a.Fail?)
    ensures AnswersRecorded(Do(w, a))
  {
  }

  predicate Reads(a: Action) {
    a.Arrive? || a.Look? || a.Poll? || a.StopPolling? || a.Wait?
  }

  /** Commands that only read change no entry and start no handler. */
  lemma ReadEffect(w: World, a: Action, id: Id)
    requires Inv(w) && Enabled(w, a) && Reads(a) && id in Do(w, a).requests
    ensures var r := Do(w, a).requests[id];
      && (r.phase.Handling? ==> id in w.requests && w.requests[id] == r)
      && (r.phase.Replayed? || r.phase.Fresh? ==> (r.key, r.phase.statusCode, r.phase.body) in w.completions)
      && r.options.processingTtl > 0 && r.options.resultTtl > 0
  {
  }

  lemma ReadKeepsInv(w: World, a: Action)
    requires Inv(w) && Enabled(w, a) && Reads(a)
    ensures Inv(Do(w, a))
  {
    var w' := Do(w, a);
    assert w'.redis.data == w.redis.data && w'.completions == w.completions;
    forall id | id in w'.requests
      ensures InFlight(w', id) ==> InFlight(w, id) && w'.requests[id] == w.requests[id]
      ensures w'.requests[id].phase.Replayed? || w'.requests[id].phase.Fresh? ==>
        (w'.requests[id].key, w'.requests[id].phase.statusCode, w'.requests[id].phase.body) in w.completions
      ensures w'.requests[id].options.processingTtl > 0 && w'.requests[id].options.resultTtl > 0
    {
      ReadEffect(w, a, id);
    }
  }

  lemma StepKeepsInv(w: World, a: Action)
    requires Inv(w) && Timely(w)
    ensures Inv(Do(w, a))
  {
    if Enabled(w, a) {
      match a
      case Begin(id) => ClaimKeepsInv(w, id, Looking(w.requests[id].phase.attempt));
      case Retry(id) => ClaimKeepsInv(w, id, InProgress(w, id, w.requests[id].phase.attempt));
      case Complete(_, _, _) => EndKeepsInv(w, a);
      case Fail(_) => EndKeepsInv(w, a);
      case _ => ReadKeepsInv(w, a);
    }
  }

  lemma {:induction false} RunKeepsInv(w: World, actions: seq<Action>)
    requires Inv(w) && TimelyRun(w, actions)
    ensures Inv(Run(w, actions)) && Timely(Run(w, actions))
    decreases |actions|
  {
    if actions != [] {
      StepKeepsInv(w, actions[0]);
      RunKeepsInv(Do(w, actions[0]), actions[1..]);
    }
  }

  /**
   * While handlers end before their markers lapse, at most one handler per key is in flight, and every
   * replayed answer is one that some handler of that key stored.
   */
  lemma AtMostOneHandler(w: World, actions: seq<Action>)
    requires Empty(w) && TimelyRun(w, actions)
    ensures OneHandlerPerKey(Run(w, actions)) && AnswersRecorded(Run(w, actions))
  {
    RunKeepsInv(w, actions);
  }

  /** The hypothesis is needed: once a handler outlives its marker, the next request starts a second one. */
  lemma LateHandlerIsJoined(w: World, late: Id, next: Id, options: Options)
    requires Inv(w) && late in w.requests && w.requests[late].phase.Handling?
      && w.redis.now >= w.requests[late].phase.until
    requires next !in w.requests && options.processingTtl > 0 && options.resultTtl > 0
    ensures !OneHandlerPerKey(Run(w, [Arrive(next, w.requests[late].key, options), Begin(next)]))
  {
    var key := w.requests[late].key;
    var w1 := Do(w, Arrive(next, key, options));
    var w2 := Do(w1, Begin(next));
    Runs.Two(Do, w, Arrive(next, key, options), Begin(next));
    assert InFlight(w2, late) && InFlight(w2, next);
  }

  // ---------------------------------------------------------- the result window

  /** A stored success that no running handler can disturb. */
  ghost predicate Stored(w: World, key: string, code: int, body: string, expiry: int) {
    && key in w.redis.data && w.redis.data[key] == Entry(Completed(code, body), Some(expiry))
    && forall id :: id in w.requests && w.requests[id].key == key ==> !w.requests[id].phase.Handling?
  }

  /** The ways a request can go while a success is stored: to its replay, unless its last SET NX is still to come. */
  predicate MayBecome(p: Phase, q: Phase, code: int, body: string) {
    || p == q
    || match p {
         case Beginning(attempt) => q == Looking(attempt) || q == Replayed(code, body)
         case Looking(_) => q == Replayed(code, body)
         case Polling(_) => q == Beginning(2) || q == Looking(2) || q == Replayed(code, body)
         case Retrying(attempt) =>
           if attempt == 2 then q == Refused
           else q.Polling? || q == Beginning(2) || q == Looking(2) || q == Replayed(code, body)
         case _ => false
       }
  }

  /** The phase a request is in, or will be in when it arrives. */
  function PhaseOf(w: World, id: Id): Phase {
    if id in w.requests then w.requests[id].phase else Beginning(1)
  }

  lemma StoredStep(w: World, a: Action, key: string, code: int, body: string, expiry: int)
    requires Stored(w, key, code, body, expiry) && w.redis.now < expiry
    ensures Stored(Do(w, a), key, code, body, expiry)
    ensures forall id :: id in w.requests ==>
      id in Do(w, a).requests && Do(w, a).requests[id].key == w.requests[id].key
    ensures forall id :: id in Do(w, a).requests && Do(w, a).requests[id].key == key ==>
      MayBecome(PhaseOf(w, id), PhaseOf(Do(w, a), id), code, body)
  {
    forall id | id in Do(w, a).requests
      ensures id in w.requests ==> Do(w, a).requests[id].key == w.requests[id].key
      ensures Do(w, a).requests[id].key == key ==>
        MayBecome(PhaseOf(w, id), PhaseOf(Do(w, a), id), code, body) && !Do(w, a).requests[id].phase.Handling?
    {
      OneRequestMoves(w, a, id);
      if id in w.requests && w.requests[id].key == key {
        StoredForRequest(w, a, id, code, body, expiry);
      }
    }
    StoredEntryStays(w, a, key, code, body, expiry);
  }

  /** A step changes at most the phase of the request it is about, or adds one that is about to begin. */
  lemma OneRequestMoves(w: World, a: Action, id: Id)
    requires id in Do(w, a).requests
    ensures id in w.requests ==> Do(w, a).requests[id].key == w.requests[id].key
    ensures id !in w.requests ==> Do(w, a).requests[id].phase == Beginning(1)
  {
  }

  lemma StoredForRequest(w: World, a: Action, id: Id, code: int, body: string, expiry: int)
    requires id in w.requests && !w.requests[id].phase.Handling? && id in Do(w, a).requests
    requires var key := w.requests[id].key;
      key in w.redis.data && w.redis.data[key] == Entry(Completed(code, body), Some(expiry)) && w.redis.now < expiry
    ensures MayBecome(w.requests[id].phase, Do(w, a).requests[id].phase, code, body)
    ensures !Do(w, a).requests[id].phase.Handling?
  {
    assert Live(w.redis, w.requests[id].key);
  }

  lemma StoredEntryStays(w: World, a: Action, key: string, code: int, body: string, expiry: int)
    requires Stored(w, key, code, body, expiry) && w.redis.now < expiry
    ensures key in Do(w, a).redis.data && Do(w, a).redis.data[key] == Entry(Completed(code, body), Some(expiry))
    ensures forall id :: id in w.requests ==> id in Do(w, a).requests
  {
    assert Live(w.redis, key);
  }

  lemma {:induction false} TimeMovesForward(w: World, actions: seq<Action>)
    ensures w.redis.now <= Run(w, actions).redis.now
    decreases |actions|
  {
    if actions != [] {
      TimeMovesForward(Do(w, actions[0]), actions[1..]);
    }
  }

  /** A stored success survives every run until it lapses, and every request of its key keeps to those ways. */
  lemma {:induction false} StoredRun(w: World, actions: seq<Action>, key: string, code: int, body: string, expiry: int)
    requires Stored(w, key, code, body, expiry) && Run(w, actions).redis.now < expiry
    ensures Stored(Run(w, actions), key, code, body, expiry)
    ensures forall id :: id in w.requests ==>
      id in Run(w, actions).requests && Run(w, actions).requests[id].key == w.requests[id].key
    ensures forall id :: id in Run(w, actions).requests && Run(w, actions).requests[id].key == key ==>
      MayBecome(PhaseOf(w, id), PhaseOf(Run(w, actions), id), code, body)
    decreases |actions|
  {
    TimeMovesForward(w, actions);
    if actions != [] {
      var w1, w2 := Do(w, actions[0]), Run(w, actions);
      TimeMovesForward(w1, actions[1..]);
      StoredStep(w, actions[0], key, code, body, expiry);
      StoredRun(w1, actions[1..], key, code, body, expiry);
      forall id | id in w2.requests && w2.requests[id].key == key
        ensures MayBecome(PhaseOf(w, id), PhaseOf(w2, id), code, body)
      {
        assert MayBecome(PhaseOf(w1, id), PhaseOf(w2, id), code, body);
        assert id in w1.requests ==> MayBecome(PhaseOf(w, id), PhaseOf(w1, id), code, body);
      }
    }
  }

  /**
   * A request that arrived since `before` is about to ask or has its answer, the stored one. Any other has
   * not moved, or has run no handler and got no other success; it was refused only from its last SET NX.
   */
  predicate OnlyStoredAnswer(before: World, after: World, id: Id, code: int, body: string)
    requires id in after.requests
  {
    var phase := after.requests[id].phase;
    if id !in before.requests then
      phase == Beginning(1) || phase == Looking(1) || phase == Replayed(code, body)
    else
      || phase == before.requests[id].phase
      || (&& !phase.Handling? && !phase.Fresh? && !phase.Failed?
          && (phase.Replayed? ==> phase == Replayed(code, body))
          && (phase == Refused ==> before.requests[id].phase == Retrying(2)))
  }

  lemma WaysAreAnswers(before: World, after: World, id: Id, code: int, body: string)
    requires id in after.requests && MayBecome(PhaseOf(before, id), PhaseOf(after, id), code, body)
    ensures OnlyStoredAnswer(before, after, id, code, body)
  {
  }

  /**
   * After a 2xx completion, until the result lapses, in every run: the success stays stored and no handler
   * of the key starts. A request that arrives later is about to ask, or has the stored status and body as
   * its answer. One already there can be refused only if its last SET NX was still to come.
   */
  lemma CompletionIsReplayed(w: World, before: seq<Action>, id: Id, code: int, body: string, later: seq<Action>)
    requires Empty(w) && TimelyRun(w, before)
    requires var w1 := Run(w, before); Enabled(w1, Complete(id, code, body)) && 200 <= code < 300
    requires var w1 := Run(w, before);
      Run(Do(w1, Complete(id, code, body)), later).redis.now < w1.redis.now + w1.requests[id].options.resultTtl
    ensures var w1 := Run(w, before);
      var w2 := Do(w1, Complete(id, code, body));
      var w3 := Run(w2, later);
      && Get(w3.redis, w1.requests[id].key) == Some(Completed(code, body))
      && forall r :: r in w3.requests && w3.requests[r].key == w1.requests[id].key ==>
           OnlyStoredAnswer(w2, w3, r, code, body)
  {
    RunKeepsInv(w, before);
    var w1 := Run(w, before);
    var w2 := Do(w1, Complete(id, code, body));
    var w3 := Run(w2, later);
    var key := w1.requests[id].key;
    StoredRun(w2, later, key, code, body, w1.redis.now + w1.requests[id].options.resultTtl);
    forall r | r in w3.requests && w3.requests[r].key == key ensures OnlyStoredAnswer(w2, w3, r, code, body) {
      assert MayBecome(PhaseOf(w2, r), PhaseOf(w3, r), code, body);
      WaysAreAnswers(w2, w3, r, code, body);
    }
  }

  /** Once more than its SET NX and GET have been sent, a request that arrived in the window has its answer. */
  lemma OwnCommandsAnswer(w: World, id: Id, key: string, code: int, body: string, expiry: int)
    requires Stored(w, key, code, body, expiry) && w.redis.now < expiry
    requires id in w.requests && w.requests[id].key == key
    requires MayBecome(Beginning(1), w.requests[id].phase, code, body)
    ensures var phase := PhaseOf(Do(w, Begin(id)), id); phase == Looking(1) || phase == Replayed(code, body)
    ensures w.requests[id].phase != Beginning(1) ==> PhaseOf(Do(w, Look(id)), id) == Replayed(code, body)
  {
    assert Live(w.redis, key);
  }

  /**
   * Every duplicate is answered with the stored success: a request that arrives after the completion and
   * sends its SET NX and then its GET before the result lapses, whatever is interleaved.
   */
  lemma DuplicateIsAnswered(
      w: World, id: Id, key: string, code: int, body: string, expiry: int,
      a: seq<Action>, b: seq<Action>, c: seq<Action>)
    requires Stored(w, key, code, body, expiry) && id !in w.requests
    requires id in Run(w, a).requests && Run(w, a).requests[id].key == key
    requires Run(w, a + ([Begin(id)] + (b + ([Look(id)] + c)))).redis.now < expiry
    ensures var w' := Run(w, a + ([Begin(id)] + (b + ([Look(id)] + c))));
      id in w'.requests && w'.requests[id].phase == Replayed(code, body)
  {
    var w1 := Run(w, a);
    var w2 := Do(w1, Begin(id));
    var w3 := Run(w2, b);
    var w4 := Do(w3, Look(id));
    var w5 := Run(w4, c);
    Runs.Append(Do, w, a, [Begin(id)] + (b + ([Look(id)] + c)));
    Runs.Cons(Do, w1, Begin(id), b + ([Look(id)] + c));
    Runs.Append(Do, w2, b, [Look(id)] + c);
    Runs.Cons(Do, w3, Look(id), c);
    TimeMovesForward(w1, [Begin(id)] + (b + ([Look(id)] + c)));
    TimeMovesForward(w3, [Look(id)] + c);
    TimeMovesForward(w2, b);
    StoredRun(w, a, key, code, body, expiry);
    assert PhaseOf(w, id) == Beginning(1);
    OwnCommandsAnswer(w1, id, key, code, body, expiry);
    StoredStep(w1, Begin(id), key, code, body, expiry);
    StoredRun(w2, b, key, code, body, expiry);
    OwnCommandsAnswer(w3, id, key, code, body, expiry);
    StoredStep(w3, Look(id), key, code, body, expiry);
    StoredRun(w4, c, key, code, body, expiry);
    assert PhaseOf(w5, id) == Replayed(code, body);
  }

  // ---------------------------------------------- refused although a success is stored

  /** A request at its last SET NX is refused when another request has stored its success by then. */
  lemma LastRetryIsRefused(w: World, id: Id, key: string, code: int, body: string, expiry: int)
    requires Stored(w, key, code, body, expiry) && w.redis.now < expiry
    requires id in w.requests && w.requests[id].key == key && w.requests[id].phase == Retrying(2)
    ensures PhaseOf(Do(w, Retry(id)), id) == Refused
  {
    assert Live(w.redis, key);
  }

  /** While a handler runs, a duplicate waits its full time, begins again, and meets the handler's failure. */
  function MeetsFailure(first: Id, second: Id, key: string, options: Options): seq<Action> {
    [Arrive(second, key, options), Begin(second), Look(second)]
    + ([Wait(if options.waitSeconds < 0 then 0 else options.waitSeconds), StopPolling(second), Begin(second)]
       + [Fail(first), Look(second)])
  }

  lemma WaitsItsTurn(w: World, second: Id, key: string, options: Options)
    requires second !in w.requests && options.processingTtl > 0 && options.resultTtl > 0
    requires key in w.redis.data && Live(w.redis, key) && w.redis.data[key].value.Processing?
    ensures var w' := Run(w, [Arrive(second, key, options), Begin(second), Look(second)]);
      w' == w.(requests := w.requests[second := Request(key, options, Polling(w.redis.now + options.waitSeconds))])
  {
    Runs.Three(Do, w, Arrive(second, key, options), Begin(second), Look(second));
  }

  lemma BeginsAgain(w: World, second: Id, seconds: nat)
    requires second in w.requests && w.requests[second].phase.Polling?
    requires w.requests[second].phase.deadline <= w.redis.now + seconds
    requires Live(Tick(w.redis, seconds), w.requests[second].key)
    ensures var w' := Run(w, [Wait(seconds), StopPolling(second), Begin(second)]);
      w' == World(Tick(w.redis, seconds),
                  w.requests[second := w.requests[second].(phase := Looking(2))], w.completions)
  {
    Runs.Three(Do, w, Wait(seconds), StopPolling(second), Begin(second));
  }

  lemma FindsNothing(w: World, first: Id, second: Id)
    requires first in w.requests && w.requests[first].phase.Handling?
    requires second in w.requests && w.requests[second].phase == Looking(2)
    requires w.requests[first].key == w.requests[second].key
    ensures var w' := Run(w, [Fail(first), Look(second)]);
      second in w'.requests && w'.requests[second] == w.requests[second].(phase := Retrying(2))
      && !Live(w'.redis, w.requests[second].key) && w'.requests.Keys == w.requests.Keys
  {
    Runs.Two(Do, w, Fail(first), Look(second));
  }

  /** From any state with a handler in time, such a duplicate comes to its last SET NX with no entry stored. */
  lemma ReachesLastRetry(w: World, first: Id, second: Id, options: Options)
    requires Inv(w) && InFlight(w, first) && second !in w.requests
    requires options.processingTtl > 0 && options.resultTtl > 0
    requires w.redis.now + (if options.waitSeconds < 0 then 0 else options.waitSeconds) < w.requests[first].phase.until
    ensures var key := w.requests[first].key;
      var w' := Run(w, MeetsFailure(first, second, key, options));
      && second in w'.requests && w'.requests[second] == Request(key, options, Retrying(2))
      && !Live(w'.redis, key) && w'.requests.Keys == w.requests.Keys + {second}
  {
    var key := w.requests[first].key;
    var seconds := if options.waitSeconds < 0 then 0 else options.waitSeconds;
    var opening := [Arrive(second, key, options), Begin(second), Look(second)];
    var middle := [Wait(seconds), StopPolling(second), Begin(second)];
    Runs.Append(Do, w, opening, middle + [Fail(first), Look(second)]);
    WaitsItsTurn(w, second, key, options);
    var w1 := Run(w, opening);
    Runs.Append(Do, w1, middle, [Fail(first), Look(second)]);
    BeginsAgain(w1, second, seconds);
    FindsNothing(Run(w1, middle), first, second);
  }

  /** There a third request can take the key, succeed, and leave the second one refused. */
  lemma ThirdSucceeds(w: World, second: Id, third: Id, options: Options, code: int, body: string)
    requires second in w.requests && w.requests[second].phase == Retrying(2) && !Live(w.redis, w.requests[second].key)
    requires third !in w.requests && options.processingTtl > 0 && options.resultTtl > 0 && 200 <= code < 300
    ensures var key := w.requests[second].key;
      var w' := Run(w, [Arrive(third, key, options), Begin(third), Complete(third, code, body), Retry(second)]);
      Get(w'.redis, key) == Some(Completed(code, body)) && PhaseOf(w', second) == Refused
  {
    var key := w.requests[second].key;
    Runs.Four(Do, w, Arrive(third, key, options), Begin(third), Complete(third, code, body), Retry(second));
  }

  ghost predicate LastsUntil(w: World, actions: seq<Action>, limit: int) {
    && (forall id :: id in w.requests ==> w.redis.now + w.requests[id].options.processingTtl >= limit)
    && (forall i :: 0 <= i < |actions| && actions[i].Arrive? ==>
          w.redis.now + actions[i].options.processingTtl >= limit)
    && (forall id :: InFlight(w, id) ==> w.requests[id].phase.until >= limit)
  }

  lemma LastsForRequest(w: World, a: Action, id: Id, limit: int)
    requires id in Do(w, a).requests
    requires id in w.requests ==>
      && w.redis.now + w.requests[id].options.processingTtl >= limit
      && (w.requests[id].phase.Handling? ==> w.requests[id].phase.until >= limit)
    requires a.Arrive? ==> w.redis.now + a.options.processingTtl >= limit
    ensures var r := Do(w, a).requests[id];
      w.redis.now + r.options.processingTtl >= limit && (r.phase.Handling? ==> r.phase.until >= limit)
  {
  }

  lemma LastsOneStep(w: World, actions: seq<Action>, limit: int)
    requires LastsUntil(w, actions, limit) && actions != [] && w.redis.now <= Do(w, actions[0]).redis.now
    ensures LastsUntil(Do(w, actions[0]), actions[1..], limit)
  {
    var w' := Do(w, actions[0]);
    assert forall i :: 0 <= i < |actions[1..]| ==> actions[1..][i] == actions[i + 1];
    forall id | id in w'.requests
      ensures w'.redis.now + w'.requests[id].options.processingTtl >= limit
      ensures w'.requests[id].phase.Handling? ==> w'.requests[id].phase.until >= limit
    {
      assert id in w.requests && w.requests[id].phase.Handling? ==> InFlight(w, id);
      LastsForRequest(w, actions[0], id, limit);
    }
  }

  /** A run that ends before any processing marker can lapse is timely. */
  lemma {:induction false} QuickRunsAreTimely(w: World, actions: seq<Action>, limit: int)
    requires LastsUntil(w, actions, limit) && Run(w, actions).redis.now < limit
    ensures TimelyRun(w, actions)
    decreases |actions|
  {
    TimeMovesForward(w, actions);
    if actions != [] {
      TimeMovesForward(w, [actions[0]]);
      Runs.One(Do, w, actions[0]);
      LastsOneStep(w, actions, limit);
      QuickRunsAreTimely(Do(w, actions[0]), actions[1..], limit);
    }
  }

  /** Three requests with one key: the first fails, the third succeeds, the second is told to try again. */
  function LosesLastRetry(key: string, options: Options, code: int, body: string): seq<Action> {
    [Arrive("first", key, options), Begin("first")]
    + (MeetsFailure("first", "second", key, options)
       + [Arrive("third", key, options), Begin("third"), Complete("third", code, body), Retry("second")])
  }

  /** The clause about the last SET NX is needed, however long the markers and results live. */
  lemma RefusedDespiteSuccess(w: World, key: string, options: Options, code: int, body: string)
    requires Empty(w) && 0 <= options.waitSeconds < options.processingTtl && options.resultTtl > 0 && 200 <= code < 300
    ensures var w' := Run(w, LosesLastRetry(key, options, code, body));
      && TimelyRun(w, LosesLastRetry(key, options, code, body))
      && Get(w'.redis, key) == Some(Completed(code, body)) && PhaseOf(w', "second") == Refused
  {
    LosesLastRetryIsTimely(w, key, options, code, body);
    var opening := [Arrive("first", key, options), Begin("first")];
    var middle := MeetsFailure("first", "second", key, options);
    var closing := [Arrive("third", key, options), Begin("third"), Complete("third", code, body), Retry("second")];
    Runs.Append(Do, w, opening, middle + closing);
    FirstHandles(w, "first", key, options);
    var w1 := Run(w, opening);
    Runs.Append(Do, w1, middle, closing);
    ReachesLastRetry(w1, "first", "second", options);
    ThirdSucceeds(Run(w1, middle), "second", "third", options, code, body);
  }

  lemma FirstHandles(w: World, id: Id, key: string, options: Options)
    requires Empty(w) && options.processingTtl > 0 && options.resultTtl > 0
    ensures var w' := Run(w, [Arrive(id, key, options), Begin(id)]);
      && w'.redis.now == w.redis.now && w'.requests.Keys == {id} && Inv(w')
      && w'.requests[id] == Request(key, options, Handling(w.redis.now + options.processingTtl))
  {
    var w1 := Do(w, Arrive(id, key, options));
    var w2 := Do(w1, Begin(id));
    Runs.Two(Do, w, Arrive(id, key, options), Begin(id));
  }

  lemma LosesLastRetryIsTimely(w: World, key: string, options: Options, code: int, body: string)
    requires Empty(w) && 0 <= options.waitSeconds < options.processingTtl && options.resultTtl > 0
    ensures TimelyRun(w, LosesLastRetry(key, options, code, body))
  {
    var run := LosesLastRetry(key, options, code, body);
    OnlyWaitsTakeTime(w, run, options.waitSeconds, 5);
    QuickRunsAreTimely(w, run, w.redis.now + options.processingTtl);
  }

  /** A run with one wait takes just as long. */
  lemma {:induction false} OnlyWaitsTakeTime(w: World, actions: seq<Action>, seconds: nat, at: int)
    requires forall i :: 0 <= i < |actions| ==> (actions[i].Wait? <==> i == at)
    requires 0 <= at < |actions| ==> actions[at] == Wait(seconds)
    ensures Run(w, actions).redis.now == w.redis.now + if 0 <= at < |actions| then seconds else 0
    decreases |actions|
  {
    if actions != [] {
      assert forall i :: 0 <= i < |actions[1..]| ==> actions[1..][i] == actions[i + 1];
      OnlyWaitsTakeTime(Do(w, actions[0]), actions[1..], seconds, at - 1);
    }
  }

  // ------------------------------------------------------------------ every step

  /** The store after a request's SET NX of its marker. */
  predicate MarkerPut(w: World, w': World, id: Id)
    requires id in w.requests
  {
    var r := w.requests[id];
    w'.redis == Put(w.redis, r.key, Processing(w.redis.now), r.options.processingTtl)
  }

  /** What each command of a request does to its phase and to the store, when it is that command's turn. */
  lemma RequestStepDoes(w: World, a: Action)
    requires !a.Arrive? && !a.Wait? && Enabled(w, a)
    ensures var (r, w') := (w.requests[a.id], Do(w, a));
      var (phase, seen) := (PhaseOf(w', a.id), Get(w.redis, r.key));
      var waits := w.redis.now + r.options.waitSeconds;
      && w'.requests.Keys == w.requests.Keys
      && (forall id :: id in w.requests && id != a.id ==> w'.requests[id] == w.requests[id])
      && w'.requests[a.id].key == r.key && w'.requests[a.id].options == r.options
      && (a.Begin? || a.Retry? ==>
            if seen == None then phase == Handling(w.redis.now + r.options.processingTtl) && MarkerPut(w, w', a.id)
            else w'.redis == w.redis
                 && phase == if a.Begin? then Looking(r.phase.attempt)
                             else if r.phase.attempt == 1 then Polling(waits) else Refused)
      && (a.Look? ==>
            && w'.redis == w.redis
            && (seen == None ==> phase == Retrying(r.phase.attempt))
            && (forall code, body :: seen == Some(Completed(code, body)) ==> phase == Replayed(code, body))
            && (seen.Some? && !seen.value.Completed? ==>
                  phase == if r.phase.attempt == 1 then Polling(waits) else Refused))
      && (a.Poll? ==>
            && w'.redis == w.redis
            && (seen == None ==> phase == Beginning(2))
            && (forall code, body :: seen == Some(Completed(code, body)) ==> phase == Replayed(code, body))
            && (seen.Some? && !seen.value.Completed? ==> phase == r.phase))
      && (a.StopPolling? ==> w'.redis == w.redis && phase == Beginning(2))
      && (a.Complete? && 200 <= a.statusCode < 300 ==>
            && phase == Fresh(a.statusCode, a.body)
            && w'.redis == Put(w.redis, r.key, Completed(a.statusCode, a.body), r.options.resultTtl))
      && (a.Fail? || (a.Complete? && !(200 <= a.statusCode < 300)) ==>
            phase == Failed && w'.redis == Remove(w.redis, r.key))
  {
  }

  // ------------------------------------------------------------ the client's code

  datatype BeginResult = Proceed | Replay(statusCode: int, body: string) | StillRunning

  /**
   * `atGet` and `atRetry` are the stores that the second and third command meet, after whatever other
   * clients and the clock did in between.
   */
  method BeginRequestIdempotency(
      redis: RedisService, key: string, processingTtl: int, startedAt: int, atGet: Store, atRetry: Store)
    returns (r: BeginResult)
    requires processingTtl > 0
    modifies redis
    ensures r == Proceed <==> !Live(old(redis.State()), key) || (!Live(atGet, key) && !Live(atRetry, key))
    ensures r == Proceed ==> redis.State() == Put(
      if !Live(old(redis.State()), key) then old(redis.State()) else atRetry, key, Processing(startedAt), processingTtl)
    ensures r.Replay? <==>
      Live(old(redis.State()), key) && Get(atGet, key).Some? && Get(atGet, key).value.Completed?
    ensures r.Replay? ==> Get(atGet, key) == Some(Completed(r.statusCode, r.body))
    ensures r != Proceed ==> redis.State() == if Live(atGet, key) then atGet else atRetry
  {
    var processing := Processing(startedAt);
    var created := redis.SetNx(key, processing, processingTtl);
    if created {
      return Proceed;
    }
    redis.Meanwhile(atGet);
    var existing := redis.Read(key);
    if existing.None? {
      redis.Meanwhile(atRetry);
      var retry := redis.SetNx(key, processing, processingTtl);
      return if retry then Proceed else StillRunning;
    }
    if existing.value.Completed? {
      return Replay(existing.value.statusCode, existing.value.body);
    }
    return StillRunning;
  }

  /** Poll i finds no entry or a stored success, which ends the polling. */
  predicate Settles(stores: nat -> Store, key: string, i: nat) {
    var seen := Get(stores(i), key);
    seen.None? || seen.value.Completed?
  }

  /**
   * `stores(i)` is the store that poll i meets and `clock(i)` the time, in milliseconds, at which the loop
   * decides on it. Polling ends at the first poll that settles, or when the clock has reached the deadline.
   */
  method WaitForRequestIdempotencyCompletion(
      key: string, start: int, maxWaitMs: int, pollIntervalMs: int, stores: nat -> Store, clock: nat -> int)
    returns (r: Option<(int, string)>, polls: nat)
    requires pollIntervalMs > 0 && forall i: nat :: clock(i + 1) >= clock(i) + pollIntervalMs
    ensures forall i: nat :: i < polls ==> clock(i) < start + maxWaitMs
    ensures forall i: nat :: i + 1 < polls ==> !Settles(stores, key, i)
    ensures (polls > 0 && Settles(stores, key, polls - 1)) || clock(polls) >= start + maxWaitMs
    ensures r.Some? <==> polls > 0 && Get(stores(polls - 1), key).Some? && Settles(stores, key, polls - 1)
    ensures r.Some? ==> Get(stores(polls - 1), key) == Some(Completed(r.value.0, r.value.1))
  {
    polls := 0;
    var deadline := start + maxWaitMs;
    while clock(polls) < deadline
      invariant forall i: nat :: i < polls ==> clock(i) < deadline && !Settles(stores, key, i)
      decreases deadline - clock(polls)
    {
      var existing := Get(stores(polls), key);
      polls := polls + 1;
      if existing.Some? && existing.value.Completed? {
        return Some((existing.value.statusCode, existing.value.body)), polls;
      }
      if existing.None? {
        return None, polls;
      }
    }
    return None, polls;
  }

  datatype Prepared = RunHandler | Answer(statusCode: int, body: string) | StillProcessing

  /** The stores one preparation meets: at the GET and the retry of its two attempts, at its polls, and in between. */
  datatype Meets = Meets(get1: Store, retry1: Store, polls: nat -> Store, begin2: Store, get2: Store, retry2: Store)

  /** No success is stored under the key. */
  predicate NoAnswer(s: Store, key: string) {
    Get(s, key).Some? ==> !Get(s, key).value.Completed?
  }

  /** A success is stored and live. */
  predicate Answers(s: Store, key: string, code: int, body: string) {
    Get(s, key) == Some(Completed(code, body))
  }

  /** The first attempt is told to wait: the key was live, and its GET or its second SET NX met an entry. */
  predicate MustWait(first: Store, meets: Meets, key: string) {
    && Live(first, key) && NoAnswer(meets.get1, key) && (Live(meets.get1, key) || Live(meets.retry1, key))
  }

  /**
   * The interceptor's preparation: begin, poll if told to wait, begin again. Each result has its exact
   * condition on the stores the commands meet. The handler runs exactly when some SET NX met the key free, and
   * the marker is put into that very store, so a stored success is never written over. A success met by a GET
   * of either attempt, or by the poll that ends the polling, is the answer.
   */
  method Prepare(
      redis: RedisService, key: string, processingTtl: int, startedAt: int,
      meets: Meets, start: int, maxWaitMs: int, pollIntervalMs: int, clock: nat -> int)
    returns (r: Prepared, polls: nat)
    requires processingTtl > 0 && pollIntervalMs > 0
    requires forall i: nat :: clock(i + 1) >= clock(i) + pollIntervalMs
    modifies redis
    // the first attempt
    ensures !Live(old(redis.State()), key) ==>
      r == RunHandler && polls == 0
      && redis.State() == Put(old(redis.State()), key, Processing(startedAt), processingTtl)
    ensures forall code, body :: Live(old(redis.State()), key) && Answers(meets.get1, key, code, body) ==>
      r == Answer(code, body) && polls == 0 && redis.State() == meets.get1
    ensures Live(old(redis.State()), key) && !Live(meets.get1, key) && !Live(meets.retry1, key) ==>
      r == RunHandler && polls == 0
      && redis.State() == Put(meets.retry1, key, Processing(startedAt), processingTtl)
    // the polls
    ensures !MustWait(old(redis.State()), meets, key) ==> polls == 0
    ensures forall i: nat :: i < polls ==> clock(i) < start + maxWaitMs
    ensures forall i: nat :: i + 1 < polls ==> !Settles(meets.polls, key, i)
    ensures MustWait(old(redis.State()), meets, key) ==>
      (polls > 0 && Settles(meets.polls, key, polls - 1)) || clock(polls) >= start + maxWaitMs
    ensures polls > 0 && !NoAnswer(meets.polls(polls - 1), key) ==>
      && r.Answer? && Answers(meets.polls(polls - 1), key, r.statusCode, r.body)
      && redis.State() == if Live(meets.get1, key) then meets.get1 else meets.retry1
    // the second attempt
    ensures MustWait(old(redis.State()), meets, key) && (polls > 0 ==> NoAnswer(meets.polls(polls - 1), key)) ==>
        && (!Live(meets.begin2, key) ==>
              r == RunHandler && redis.State() == Put(meets.begin2, key, Processing(startedAt), processingTtl))
        && (forall code, body :: Live(meets.begin2, key) && Answers(meets.get2, key, code, body) ==>
              r == Answer(code, body) && redis.State() == meets.get2)
        && (Live(meets.begin2, key) && !Live(meets.get2, key) && !Live(meets.retry2, key) ==>
              r == RunHandler && redis.State() == Put(meets.retry2, key, Processing(startedAt), processingTtl))
        && (Live(meets.begin2, key) && NoAnswer(meets.get2, key)
            && (Live(meets.get2, key) || Live(meets.retry2, key)) ==>
              r == StillProcessing && redis.State() == if Live(meets.get2, key) then meets.get2 else meets.retry2)
    // in sum
    ensures r == RunHandler ==> exists base ::
      && base in {old(redis.State()), meets.retry1, meets.begin2, meets.retry2} && !Live(base, key)
      && redis.State() == Put(base, key, Processing(startedAt), processingTtl)
    ensures r == StillProcessing ==>
      && Live(meets.begin2, key) && (Live(meets.get2, key) || Live(meets.retry2, key))
      && NoAnswer(meets.get1, key) && NoAnswer(meets.get2, key)
      && forall i: nat :: i < polls ==> NoAnswer(meets.polls(i), key)
    ensures r != RunHandler ==> redis.State() in {meets.get1, meets.get2, meets.retry2, meets.retry1}
    ensures r.Answer? ==>
      || Answers(meets.get1, key, r.statusCode, r.body)
      || (polls > 0 && Answers(meets.polls(polls - 1), key, r.statusCode, r.body))
      || Answers(meets.get2, key, r.statusCode, r.body)
  {
    polls := 0;
    var begin := BeginRequestIdempotency(redis, key, processingTtl, startedAt, meets.get1, meets.retry1);
    if begin == StillRunning {
      var result;
      result, polls :=
        WaitForRequestIdempotencyCompletion(key, start, maxWaitMs, pollIntervalMs, meets.polls, clock);
      if result.Some? {
        return Answer(result.value.0, result.value.1), polls;
      }
      forall i: nat | i < polls ensures NoAnswer(meets.polls(i), key) {
        assert Settles(meets.polls, key, i) ==> i + 1 == polls;
      }
      assert polls > 0 ==> NoAnswer(meets.polls(polls - 1), key);
      redis.Meanwhile(meets.begin2);
      begin := BeginRequestIdempotency(redis, key, processingTtl, startedAt, meets.get2, meets.retry2);
    }
    match begin
    case Proceed => return RunHandler, polls;
    case Replay(code, body) => return Answer(code, body), polls;
    case StillRunning => return StillProcessing, polls;
  }
}
