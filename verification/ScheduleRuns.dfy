/**
 * Every interleaving of schedule requests. An update is two steps, the early read and the later
 * transaction; each transaction commits as a whole or leaves no trace. Creations and updates are
 * Serializable. A cancellation is not: it is one step here because its DELETE holds the locks of the
 * index on scheduleId, gaps included, to the end of its transaction, so no other transaction can
 * delete or insert lock rows of that schedule before its UPDATE has committed.
 */
module ScheduleRuns {
  import opened Common
  import Runs
  import opened Slots
  import opened Schedules
  import opened ScheduleEffects

  datatype Action =
    | AddClass(classId: Id)
    | Create(id: Id, request: CreateRequest)
    | Read(client: Id, id: Id)
    | Update(client: Id, id: Id, change: UpdateRequest)
    | Cancel(id: Id)
    | DeleteClass(classId: Id)

  /** `pending` holds, per request in progress, the schedule and the row it read. */
  datatype World = World(db: Db, pending: map<Id, (Id, Schedule)>)

  const EMPTY: World := World(Db({}, map[], map[]), map[])

  /** Identifiers are fresh UUIDs, so a creation whose identifier is taken does not occur. */
  function Do(w: World, a: Action): World {
    match a
    case AddClass(classId) => w.(db := w.db.(classes := w.db.classes + {classId}))
    case Create(id, dto) => if id in w.db.schedules then w else w.(db := CreateTx(w.db, id, dto).0)
    case Read(client, id) =>
      if id in w.db.schedules then w.(pending := w.pending[client := (id, w.db.schedules[id])]) else w
    case Update(client, id, dto) =>
      if CanCommit(w, a) then World(UpdateTx(w.db, id, dto, w.pending[client].1).0, w.pending - {client}) else w
    case Cancel(id) => w.(db := CancelTx(w.db, id).0)
    case DeleteClass(classId) => w.(db := DeleteClassTx(w.db, classId).0)
  }

  predicate CanCommit(w: World, a: Action) {
    a.Update? && a.client in w.pending && w.pending[a.client].0 == a.id
  }

  function Run(w: World, actions: seq<Action>): World {
    Runs.Iterate(Do, w, actions)
  }

  /** Each step is the request it stands for: a read keeps what is stored, a commit uses what was read. */
  lemma StepDoes(w: World, a: Action)
    ensures a.AddClass? ==> Do(w, a).db == w.db.(classes := w.db.classes + {a.classId})
    ensures a.Create? && a.id !in w.db.schedules ==>
      exists outcome :: CreateEffect(w.db, a.id, a.request, Do(w, a).db, outcome)
    ensures a.Read? && a.id in w.db.schedules ==>
      Do(w, a) == w.(pending := w.pending[a.client := (a.id, w.db.schedules[a.id])])
    ensures a.Update? && a.client in w.pending && w.pending[a.client].0 == a.id ==>
      && (exists outcome :: UpdateEffect(w.db, a.id, a.change, w.pending[a.client].1, Do(w, a).db, outcome))
      && Do(w, a).pending == w.pending - {a.client}
    ensures a.Cancel? ==> exists outcome :: CancelEffect(w.db, a.id, Do(w, a).db, outcome)
    ensures a.DeleteClass? ==> exists outcome :: DeleteClassEffect(w.db, a.classId, Do(w, a).db, outcome)
  {
    match a
    case AddClass(_) =>
    case Create(id, dto) =>
      if id !in w.db.schedules {
        CreateDoes(w.db, id, dto);
        assert CreateEffect(w.db, id, dto, Do(w, a).db, CreateTx(w.db, id, dto).1);
      }
    case Read(_, _) =>
    case Update(client, id, dto) =>
      if CanCommit(w, a) {
        var current := w.pending[client].1;
        UpdateDoes(w.db, id, dto, current);
        assert UpdateEffect(w.db, id, dto, current, Do(w, a).db, UpdateTx(w.db, id, dto, current).1);
      }
    case Cancel(id) =>
      CancelDoes(w.db, id);
      assert CancelEffect(w.db, id, Do(w, a).db, CancelTx(w.db, id).1);
    case DeleteClass(classId) =>
      DeleteClassDoes(w.db, classId);
      assert DeleteClassEffect(w.db, classId, Do(w, a).db, DeleteClassTx(w.db, classId).1);
  }

  /** This step commits an update whose read had gone out of date. */
  predicate Stale(w: World, a: Action) {
    && CanCommit(w, a)
    && UpdateTx(w.db, a.id, a.change, w.pending[a.client].1).1 == Done
    && !ReadStillCurrent(w.db, a.id, a.change, w.pending[a.client].1)
  }

  /** This step creates a schedule that is cancelled from the start. */
  predicate CreatesCancelled(w: World, a: Action) {
    && a.Create? && a.id !in w.db.schedules
    && CreateTx(w.db, a.id, a.request).1 == Done && a.request.status == Some(Cancelled)
  }

  ghost predicate NoStaleCommit(w: World, actions: seq<Action>) {
    Runs.Never(Do, Stale, w, actions)
  }

  ghost predicate AgreementThroughout(w: World, actions: seq<Action>) {
    Runs.Throughout(Do, (v: World) => Agreement(v.db), w, actions)
  }

  /** One step keeps agreement if and only if it is not the commit of a stale update. */
  lemma StepKeepsAgreementIff(w: World, a: Action)
    requires Agreement(w.db)
    ensures Agreement(Do(w, a).db) <==> !Stale(w, a)
  {
    match a
    case AddClass(classId) =>
      forall id | id in w.db.schedules ensures Agrees(Do(w, a).db, id) {
        assert Agrees(w.db, id);
      }
    case Create(id, dto) =>
      if id !in w.db.schedules {
        CreateKeepsAgreement(w.db, id, dto);
      }
    case Read(client, id) =>
    case Update(client, id, dto) =>
      if CanCommit(w, a) && UpdateTx(w.db, id, dto, w.pending[client].1).1 == Done {
        UpdateKeepsAgreementIff(w.db, id, dto, w.pending[client].1);
      }
    case Cancel(id) => CancelKeepsAgreement(w.db, id);
    case DeleteClass(classId) => DeleteClassKeepsAgreement(w.db, classId);
  }

  /** Whatever is stale, every lock row still belongs to a stored schedule. */
  lemma {:induction false} OwnersAlwaysExist(w: World, actions: seq<Action>)
    requires OwnersExist(w.db)
    ensures OwnersExist(Run(w, actions).db)
    decreases |actions|
  {
    if actions != [] {
      OwnersAlwaysExist(Do(w, actions[0]), actions[1..]);
    }
  }

  /** Deleting and cascading never leaves a row without its schedule. */
  lemma StepKeepsOwners(w: World, a: Action)
    requires OwnersExist(w.db)
    ensures OwnersExist(Do(w, a).db)
  {
  }

  /**
   * Over whole runs from the empty database: schedules and lock rows agree in every state if and only
   * if no update committed on a read that had gone out of date.
   */
  lemma AgreementThroughoutIff(actions: seq<Action>)
    ensures AgreementThroughout(EMPTY, actions) <==> NoStaleCommit(EMPTY, actions)
  {
    forall w: World, a: Action | Agreement(w.db) ensures Agreement(Do(w, a).db) <==> !Stale(w, a) {
      StepKeepsAgreementIff(w, a);
    }
    forall w: World, a: Action | OwnersExist(w.db) ensures OwnersExist(Do(w, a).db) {
      StepKeepsOwners(w, a);
    }
    Runs.ThroughoutIffNever(
      Do, (v: World) => OwnersExist(v.db), (v: World) => Agreement(v.db), Stale, EMPTY, actions);
  }

  /** One step leaves every cancelled schedule without slots if and only if it does not create one as cancelled. */
  lemma StepKeepsCancelledIff(w: World, a: Action)
    requires OwnersExist(w.db) && CancelledHoldNothing(w.db)
    ensures CancelledHoldNothing(Do(w, a).db) <==> !CreatesCancelled(w, a)
  {
    match a
    case AddClass(classId) =>
    case Create(id, dto) =>
      if id !in w.db.schedules {
        CreateKeepsCancelledIff(w.db, id, dto);
      }
    case Read(client, id) =>
    case Update(client, id, dto) =>
      if CanCommit(w, a) {
        UpdateKeepsCancelled(w.db, id, dto, w.pending[client].1);
      }
    case Cancel(id) => CancelKeepsCancelled(w.db, id);
    case DeleteClass(classId) => DeleteClassKeepsCancelled(w.db, classId);
  }

  /** Over whole runs: no cancelled schedule ever holds a slot if and only if none was created as cancelled. */
  lemma CancelledHoldNothingIff(actions: seq<Action>)
    ensures Runs.Throughout(Do, (v: World) => CancelledHoldNothing(v.db), EMPTY, actions)
       <==> Runs.Never(Do, CreatesCancelled, EMPTY, actions)
  {
    forall w: World, a: Action | OwnersExist(w.db) && CancelledHoldNothing(w.db)
      ensures CancelledHoldNothing(Do(w, a).db) <==> !CreatesCancelled(w, a)
    {
      StepKeepsCancelledIff(w, a);
    }
    forall w: World, a: Action | OwnersExist(w.db) ensures OwnersExist(Do(w, a).db) {
      StepKeepsOwners(w, a);
    }
    Runs.ThroughoutIffNever(
      Do, (v: World) => OwnersExist(v.db), (v: World) => CancelledHoldNothing(v.db), CreatesCancelled, EMPTY, actions);
  }

  /**
   * Over whole runs: in every state the live schedules own exactly their rows and the cancelled ones none, if
   * and only if no update committed on a stale read and no schedule was created as cancelled.
   */
  lemma ExactThroughoutIff(actions: seq<Action>)
    ensures Runs.Throughout(Do, (v: World) => Exact(v.db), EMPTY, actions)
       <==> NoStaleCommit(EMPTY, actions) && Runs.Never(Do, CreatesCancelled, EMPTY, actions)
  {
    AgreementThroughoutIff(actions);
    CancelledHoldNothingIff(actions);
    forall i | 0 <= i <= |actions|
      ensures Exact(Run(EMPTY, actions[..i]).db)
         <==> Agreement(Run(EMPTY, actions[..i]).db) && CancelledHoldNothing(Run(EMPTY, actions[..i]).db)
    {
      ExactIff(Run(EMPTY, actions[..i]).db);
    }
  }

  /** No run without a stale commit ever double-books a coach or a venue, with or without Redis locks. */
  lemma NoStaleCommitNoDoubleBooking(actions: seq<Action>)
    requires NoStaleCommit(EMPTY, actions)
    ensures NoDoubleBooking(Run(EMPTY, actions).db)
  {
    AgreementThroughoutIff(actions);
    assert actions[..|actions|] == actions;
    AgreementExcludesDoubleBooking(Run(EMPTY, actions).db);
  }

  const FIRST: CreateRequest := CreateRequest("class", "venue1", "coach", 0, SLOT_MS, None, None)
  const SECOND: CreateRequest := CreateRequest("class", "venue2", "coach", SLOT_MS, 2 * SLOT_MS, None, None)
  const MOVE: UpdateRequest := KEEP.(startsAt := Some(SLOT_MS), endsAt := Some(2 * SLOT_MS))

  /**
   * The failing run: a request reads the schedule, another moves it to a later time, the first then
   * commits a change of nothing. The moved schedule is left with the lock rows of its old time, and a
   * second schedule of the same coach is accepted on top of it.
   */
  function LostMove(): seq<Action> {
    [AddClass("class"), Create("a", FIRST), Read("slow", "a"), Read("quick", "a"),
     Update("quick", "a", MOVE), Update("slow", "a", KEEP), Create("b", SECOND)]
  }

  function RowsAt(startsAt: int, id: Id): LockTable {
    var keys := KeysFor("coach", "venue1", startsAt, startsAt + SLOT_MS);
    map key | key in keys :: id
  }

  function ScheduleAt(venueId: Id, startsAt: int): Schedule {
    Schedule("class", venueId, "coach", startsAt, startsAt + SLOT_MS, 15, Scheduled)
  }

  /** Replacing the only rows of the table: release them, then insert those of another time. */
  lemma Rebook(from: int, to: int)
    ensures var keys := KeysFor("coach", "venue1", to, to + SLOT_MS);
      && Insert(Release(RowsAt(from, "a"), "a"), "a", keys) == Some(RowsAt(to, "a"))
      && Insert(map[], "a", keys) == Some(RowsAt(to, "a"))
  {
    assert Release(RowsAt(from, "a"), "a") == map[];
    var empty: LockTable := map[];
    assert empty + RowsAt(to, "a") == RowsAt(to, "a");
  }

  lemma LostMoveBegins()
    ensures var w := Run(EMPTY, LostMove()[..4]);
            && w.db == Db({"class"}, map["a" := ScheduleAt("venue1", 0)], RowsAt(0, "a"))
            && w.pending == map["slow" := ("a", ScheduleAt("venue1", 0)), "quick" := ("a", ScheduleAt("venue1", 0))]
  {
    var run := LostMove();
    assert run[..0] == [];
    Rebook(0, 0);
    Runs.Next(Do, EMPTY, run, 0);
    Runs.Next(Do, EMPTY, run, 1);
    Runs.Next(Do, EMPTY, run, 2);
    Runs.Next(Do, EMPTY, run, 3);
  }

  function OneSchedule(at: int, rowsAt: int): Db {
    Db({"class"}, map["a" := ScheduleAt("venue1", at)], RowsAt(rowsAt, "a"))
  }

  lemma MoveCommits()
    ensures UpdateTx(OneSchedule(0, 0), "a", MOVE, ScheduleAt("venue1", 0)) == (OneSchedule(SLOT_MS, SLOT_MS), Done)
  {
    Rebook(0, SLOT_MS);
    assert Merge(ScheduleAt("venue1", 0), MOVE) == ScheduleAt("venue1", SLOT_MS);
    var moved := ScheduleAt("venue1", SLOT_MS);
    assert map["a" := ScheduleAt("venue1", 0)]["a" := moved] == map["a" := moved];
  }

  lemma StaleKeepCommits()
    ensures UpdateTx(OneSchedule(SLOT_MS, SLOT_MS), "a", KEEP, ScheduleAt("venue1", 0))
         == (OneSchedule(SLOT_MS, 0), Done)
  {
    Rebook(SLOT_MS, 0);
    assert Merge(ScheduleAt("venue1", 0), KEEP) == ScheduleAt("venue1", 0);
    var moved := ScheduleAt("venue1", SLOT_MS);
    assert map["a" := moved]["a" := moved] == map["a" := moved];
  }

  lemma SecondBookingAccepted()
    ensures CreateTx(OneSchedule(SLOT_MS, 0), "b", SECOND).1 == Done
    ensures CreateTx(OneSchedule(SLOT_MS, 0), "b", SECOND).0.schedules
         == map["a" := ScheduleAt("venue1", SLOT_MS), "b" := ScheduleAt("venue2", SLOT_MS)]
  {
    forall key | key in RowsAt(0, "a") ensures key !in KeysOf(ScheduleAt("venue2", SLOT_MS)) {
      assert IsSlotOf(key.slot, 0, SLOT_MS);
    }
  }

  lemma DoUpdate(w: World, client: Id, dto: UpdateRequest)
    requires client in w.pending && w.pending[client].0 == "a"
    ensures Do(w, Update(client, "a", dto))
         == World(UpdateTx(w.db, "a", dto, w.pending[client].1).0, w.pending - {client})
  {
  }

  lemma QuickMoveCommits()
    ensures Run(EMPTY, LostMove()[..5])
         == World(OneSchedule(SLOT_MS, SLOT_MS), map["slow" := ("a", ScheduleAt("venue1", 0))])
  {
    LostMoveBegins(); MoveCommits();
    Runs.Next(Do, EMPTY, LostMove(), 4);
    DoUpdate(Run(EMPTY, LostMove()[..4]), "quick", MOVE);
  }

  lemma LostMoveLosesRows()
    ensures Run(EMPTY, LostMove()[..6]).db == OneSchedule(SLOT_MS, 0)
  {
    QuickMoveCommits(); StaleKeepCommits();
    Runs.Next(Do, EMPTY, LostMove(), 5);
    DoUpdate(Run(EMPTY, LostMove()[..5]), "slow", KEEP);
  }

  lemma StaleCommitDoubleBooks()
    ensures !NoDoubleBooking(Run(EMPTY, LostMove()).db)
  {
    LostMoveLosesRows(); SecondBookingAccepted();
    assert LostMove()[..7] == LostMove();
    Runs.Next(Do, EMPTY, LostMove(), 6);
    var db := CreateTx(OneSchedule(SLOT_MS, 0), "b", SECOND).0;
    assert Run(EMPTY, LostMove()).db == db;
    assert db.schedules["a"] == ScheduleAt("venue1", SLOT_MS) && db.schedules["b"] == ScheduleAt("venue2", SLOT_MS);
    assert During(SLOT_MS, SLOT_MS, 2 * SLOT_MS);
  }
}
