/**
 * Course schedules and the unique index on (resource type, resource, slot) that guards them
 * (src/modules/courses/schedule-resource-lock.ts, src/modules/courses/courses.service.ts).
 */
module Schedules {
  import opened Common
  import opened Slots

  datatype Status = Scheduled | Cancelled | Completed
  datatype ResourceType = COACH | VENUE

  datatype Schedule = Schedule(
    classId: Id, venueId: Id, coachId: Id,
    startsAt: int, endsAt: int, lateGraceMinutes: int, status: Status)

  datatype CreateRequest = CreateRequest(
    classId: Id, venueId: Id, coachId: Id,
    startsAt: int, endsAt: int, lateGraceMinutes: Option<int>, status: Option<Status>)

  datatype UpdateRequest = UpdateRequest(
    classId: Option<Id>, venueId: Option<Id>, coachId: Option<Id>,
    startsAt: Option<int>, endsAt: Option<int>, lateGraceMinutes: Option<int>, status: Option<Status>)

  /** A key of the unique index; the table maps each key to the schedule that owns the row. */
  datatype LockKey = LockKey(resourceType: ResourceType, resourceId: Id, slot: int)
  type LockTable = map<LockKey, Id>

  datatype Db = Db(classes: set<Id>, schedules: map<Id, Schedule>, locks: LockTable)

  datatype Outcome = Done | BadTimeRange | NotFound | ResourceConflict

  /** One inserted row: its index key and its owner. */
  datatype LockRow = LockRow(key: LockKey, scheduleId: Id)

  // ---------------------------------------------------------------- lock rows

  predicate Charges(key: LockKey, coachId: Id, venueId: Id, startsAt: int, endsAt: int) {
    && IsSlotOf(key.slot, startsAt, endsAt)
    && key.resourceId == match key.resourceType case COACH => coachId case VENUE => venueId
  }

  /** The index keys a booking must own. */
  function KeysFor(coachId: Id, venueId: Id, startsAt: int, endsAt: int): (keys: set<LockKey>)
    ensures forall key :: key in keys <==> Charges(key, coachId, venueId, startsAt, endsAt)
  {
    var slots := SlotsOf(startsAt, endsAt);
    (set k | k in slots :: LockKey(COACH, coachId, k)) + (set k | k in slots :: LockKey(VENUE, venueId, k))
  }

  function KeysOf(s: Schedule): set<LockKey> {
    KeysFor(s.coachId, s.venueId, s.startsAt, s.endsAt)
  }

  /** Two schedules compete when they use the same coach or the same venue. */
  predicate ShareResource(a: Schedule, b: Schedule) {
    a.coachId == b.coachId || a.venueId == b.venueId
  }

  /** Bookings are compatible with one index entry per key exactly when they share no slot of a shared resource. */
  lemma KeysDisjointIff(a: Schedule, b: Schedule)
    ensures KeysOf(a) !! KeysOf(b)
       <==> !(ShareResource(a, b) && ShareSlot(a.startsAt, a.endsAt, b.startsAt, b.endsAt))
  {
    if ShareResource(a, b) && ShareSlot(a.startsAt, a.endsAt, b.startsAt, b.endsAt) {
      var k :| IsSlotOf(k, a.startsAt, a.endsAt) && IsSlotOf(k, b.startsAt, b.endsAt);
      var key := if a.coachId == b.coachId then LockKey(COACH, a.coachId, k) else LockKey(VENUE, a.venueId, k);
      assert key in KeysOf(a) && key in KeysOf(b);
    }
    if key :| key in KeysOf(a) && key in KeysOf(b) {
      assert IsSlotOf(key.slot, a.startsAt, a.endsAt) && IsSlotOf(key.slot, b.startsAt, b.endsAt);
    }
  }

  /** Equal key sets: same coach, same venue, same times up to slot boundaries. */
  lemma SameKeysIff(a: Schedule, b: Schedule)
    requires a.startsAt < a.endsAt
    ensures KeysOf(a) == KeysOf(b)
       <==> (&& a.coachId == b.coachId && a.venueId == b.venueId
             && SlotStart(a.startsAt) == SlotStart(b.startsAt) && SlotEnd(a.endsAt) == SlotEnd(b.endsAt))
  {
    SameSlotsIff(a.startsAt, a.endsAt, b.startsAt, b.endsAt);
    if KeysOf(a) == KeysOf(b) {
      assert IsSlotOf(SlotStart(a.startsAt), a.startsAt, a.endsAt);
      assert LockKey(COACH, a.coachId, SlotStart(a.startsAt)) in KeysOf(b);
      assert LockKey(VENUE, a.venueId, SlotStart(a.startsAt)) in KeysOf(b);
      forall k ensures IsSlotOf(k, a.startsAt, a.endsAt) <==> IsSlotOf(k, b.startsAt, b.endsAt) {
        assert LockKey(COACH, a.coachId, k) in KeysOf(a) <==> LockKey(COACH, a.coachId, k) in KeysOf(b);
      }
    }
  }

  function Owned(locks: LockTable, id: Id): set<LockKey> {
    set key | key in locks && locks[key] == id
  }

  function Release(locks: LockTable, id: Id): LockTable {
    map key | key in locks && locks[key] != id :: locks[key]
  }

  /** Inserting rows fails as a whole when one of their keys is taken. */
  function Insert(locks: LockTable, id: Id, keys: set<LockKey>): Option<LockTable> {
    if keys !! locks.Keys then Some(locks + map key | key in keys :: id) else None
  }

  // ------------------------------------------------------------- transactions

  function CreateTx(db: Db, id: Id, dto: CreateRequest): (Db, Outcome) {
    if !(dto.startsAt < dto.endsAt) then (db, BadTimeRange)
    else if dto.classId !in db.classes then (db, NotFound)
    else
      var s := Schedule(dto.classId, dto.venueId, dto.coachId, dto.startsAt, dto.endsAt,
                        OrElse(dto.lateGraceMinutes, 15), OrElse(dto.status, Scheduled));
      match Insert(db.locks, id, KeysOf(s))
      case None => (db, ResourceConflict)
      case Some(locks) => (db.(schedules := db.schedules[id := s], locks := locks), Done)
  }

  /** The row the UPDATE statement leaves: supplied fields overwrite, the others keep their stored value. */
  function Merge(row: Schedule, dto: UpdateRequest): Schedule {
    Schedule(OrElse(dto.classId, row.classId), OrElse(dto.venueId, row.venueId), OrElse(dto.coachId, row.coachId),
             OrElse(dto.startsAt, row.startsAt), OrElse(dto.endsAt, row.endsAt),
             OrElse(dto.lateGraceMinutes, row.lateGraceMinutes), OrElse(dto.status, row.status))
  }

  /**
   * The transaction of an update. `current` is the row read before the transaction began: times are
   * validated against it and the new lock rows are computed from it, not from the stored row.
   */
  function UpdateTx(db: Db, id: Id, dto: UpdateRequest, current: Schedule): (Db, Outcome) {
    var believed := Merge(current, dto);
    if !(believed.startsAt < believed.endsAt) then (db, BadTimeRange)
    else if id !in db.schedules || OrElse(dto.classId, db.schedules[id].classId) !in db.classes then (db, NotFound)
    else
      var row := Merge(db.schedules[id], dto);
      var released := Release(db.locks, id);
      if row.status == Cancelled then
        (db.(schedules := db.schedules[id := row], locks := released), Done)
      else
        match Insert(released, id, KeysOf(believed))
        case None => (db, ResourceConflict)
        case Some(locks) => (db.(schedules := db.schedules[id := row], locks := locks), Done)
  }

  function CancelTx(db: Db, id: Id): (Db, Outcome) {
    if id !in db.schedules then (db, NotFound)
    else
      (db.(schedules := db.schedules[id := db.schedules[id].(status := Cancelled)],
           locks := Release(db.locks, id)), Done)
  }

  /** Deleting a class cascades to its schedules, and from each schedule to its lock rows. */
  function DeleteClassTx(db: Db, classId: Id): (Db, Outcome) {
    if classId !in db.classes then (db, NotFound)
    else
      var kept := map id | id in db.schedules && db.schedules[id].classId != classId :: db.schedules[id];
      (Db(db.classes - {classId}, kept, map key | key in db.locks && db.locks[key] in kept :: db.locks[key]), Done)
  }

  // ---------------------------------------------------------------- agreement

  /**
   * A schedule agrees with the index when it owns exactly the rows computed from its own coach, venue
   * and times. A cancelled schedule may also own none.
   */
  predicate Agrees(db: Db, id: Id)
    requires id in db.schedules
  {
    var s := db.schedules[id];
    Owned(db.locks, id) == KeysOf(s) || (s.status == Cancelled && Owned(db.locks, id) == {})
  }

  ghost predicate Agreement(db: Db) {
    OwnersExist(db) && forall id :: id in db.schedules ==> Agrees(db, id)
  }

  /** Every lock row belongs to a stored schedule (the foreign key). */
  ghost predicate OwnersExist(db: Db) {
    forall key :: key in db.locks ==> db.locks[key] in db.schedules
  }

  /** No cancelled schedule holds a slot. */
  ghost predicate CancelledHoldNothing(db: Db) {
    forall id :: id in db.schedules && db.schedules[id].status == Cancelled ==> Owned(db.locks, id) == {}
  }

  /** Each schedule owns what it should: its own rows while it is live, none once it is cancelled. */
  ghost predicate Exact(db: Db) {
    && OwnersExist(db)
    && forall id :: id in db.schedules ==>
         Owned(db.locks, id) == if db.schedules[id].status == Cancelled then {} else KeysOf(db.schedules[id])
  }

  /** No two live bookings of one coach or one venue overlap in time. */
  ghost predicate NoDoubleBooking(db: Db) {
    forall a, b :: a in db.schedules && b in db.schedules && a != b
      && db.schedules[a].status != Cancelled && db.schedules[b].status != Cancelled
      && ShareResource(db.schedules[a], db.schedules[b])
      ==> !Overlap(db.schedules[a].startsAt, db.schedules[a].endsAt, db.schedules[b].startsAt, db.schedules[b].endsAt)
  }

  /** The unique index turns agreement into the absence of double bookings. */
  lemma AgreementExcludesDoubleBooking(db: Db)
    requires Agreement(db)
    ensures NoDoubleBooking(db)
  {
    forall a, b | a in db.schedules && b in db.schedules && a != b
      && db.schedules[a].status != Cancelled && db.schedules[b].status != Cancelled
      && ShareResource(db.schedules[a], db.schedules[b])
      ensures var (sa, sb) := (db.schedules[a], db.schedules[b]);
        !Overlap(sa.startsAt, sa.endsAt, sb.startsAt, sb.endsAt)
    {
      var sa, sb := db.schedules[a], db.schedules[b];
      assert Agrees(db, a) && Agrees(db, b);
      assert KeysOf(sa) !! KeysOf(sb);
      KeysDisjointIff(sa, sb);
      if Overlap(sa.startsAt, sa.endsAt, sb.startsAt, sb.endsAt) {
        OverlapSharesSlot(sa.startsAt, sa.endsAt, sb.startsAt, sb.endsAt);
      }
    }
  }

  lemma ExactIff(db: Db)
    ensures Exact(db) <==> Agreement(db) && CancelledHoldNothing(db)
  {
    if Exact(db) {
      forall id | id in db.schedules ensures Agrees(db, id) {
        assert Owned(db.locks, id) == if db.schedules[id].status == Cancelled then {} else KeysOf(db.schedules[id]);
      }
    }
    if Agreement(db) && CancelledHoldNothing(db) {
      forall id | id in db.schedules
        ensures Owned(db.locks, id) == if db.schedules[id].status == Cancelled then {} else KeysOf(db.schedules[id])
      {
        assert Agrees(db, id);
      }
    }
  }

  lemma ReleaseOwned(locks: LockTable, id: Id)
    ensures Owned(Release(locks, id), id) == {}
    ensures forall other :: other != id ==> Owned(Release(locks, id), other) == Owned(locks, other)
  {
  }

  lemma InsertOwned(locks: LockTable, id: Id, keys: set<LockKey>)
    requires Insert(locks, id, keys).Some?
    ensures Owned(Insert(locks, id, keys).value, id) == Owned(locks, id) + keys
    ensures forall other :: other != id ==> Owned(Insert(locks, id, keys).value, other) == Owned(locks, other)
  {
  }

  lemma CreateKeepsAgreement(db: Db, id: Id, dto: CreateRequest)
    requires Agreement(db) && id !in db.schedules
    ensures Agreement(CreateTx(db, id, dto).0)
  {
    var (db', outcome) := CreateTx(db, id, dto);
    if outcome == Done {
      InsertOwned(db.locks, id, KeysOf(db'.schedules[id]));
      assert Owned(db.locks, id) == {};
      forall other | other in db'.schedules ensures Agrees(db', other) {
        assert other != id ==> Agrees(db, other);
      }
    }
  }

  lemma CancelKeepsAgreement(db: Db, id: Id)
    requires Agreement(db)
    ensures Agreement(CancelTx(db, id).0)
  {
    var (db', outcome) := CancelTx(db, id);
    if outcome == Done {
      ReleaseOwned(db.locks, id);
      forall other | other in db'.schedules ensures Agrees(db', other) {
        assert Agrees(db, other);
      }
    }
  }

  lemma DeleteClassKeepsAgreement(db: Db, classId: Id)
    requires Agreement(db)
    ensures Agreement(DeleteClassTx(db, classId).0)
  {
    var (db', outcome) := DeleteClassTx(db, classId);
    if outcome == Done {
      forall id | id in db'.schedules ensures Agrees(db', id) {
        assert Agrees(db, id);
        assert Owned(db'.locks, id) == Owned(db.locks, id);
      }
    }
  }

  /**
   * What the early read must still have right when the transaction commits: the coach and venue, and
   * the times up to slot boundaries, in the fields the request does not supply. A schedule that ends
   * up cancelled gets no rows, so then nothing is asked.
   */
  predicate ReadStillCurrent(db: Db, id: Id, dto: UpdateRequest, current: Schedule)
    requires id in db.schedules
  {
    var stored := db.schedules[id];
    || OrElse(dto.status, stored.status) == Cancelled
    || (&& (dto.coachId.Some? || current.coachId == stored.coachId)
        && (dto.venueId.Some? || current.venueId == stored.venueId)
        && (dto.startsAt.Some? || SlotStart(current.startsAt) == SlotStart(stored.startsAt))
        && (dto.endsAt.Some? || SlotEnd(current.endsAt) == SlotEnd(stored.endsAt)))
  }

  /** The exact condition: a committed update keeps agreement if and only if its read is still current. */
  lemma UpdateKeepsAgreementIff(db: Db, id: Id, dto: UpdateRequest, current: Schedule)
    requires Agreement(db)
    requires UpdateTx(db, id, dto, current).1 == Done
    ensures Agreement(UpdateTx(db, id, dto, current).0) <==> ReadStillCurrent(db, id, dto, current)
  {
    var db' := UpdateTx(db, id, dto, current).0;
    var row, believed := db'.schedules[id], Merge(current, dto);
    var released := Release(db.locks, id);
    ReleaseOwned(db.locks, id);
    SameKeysIff(believed, row);
    if row.status != Cancelled {
      InsertOwned(released, id, KeysOf(believed));
      assert Owned(db'.locks, id) == KeysOf(believed);
    }
    if ReadStillCurrent(db, id, dto, current) {
      forall other | other in db'.schedules ensures Agrees(db', other) {
        assert Agrees(db, other);
      }
    } else {
      assert !Agrees(db', id);
    }
  }

  /**
   * A conflict is reported exactly when a live row of another schedule holds a needed key; a schedule
   * never conflicts with its own old rows.
   */
  lemma UpdateConflictIff(db: Db, id: Id, dto: UpdateRequest, current: Schedule)
    requires id in db.schedules && db.classes >= {Merge(db.schedules[id], dto).classId}
    requires Merge(current, dto).startsAt < Merge(current, dto).endsAt
    requires OrElse(dto.status, db.schedules[id].status) != Cancelled
    ensures UpdateTx(db, id, dto, current).1 == ResourceConflict
       <==> exists key :: key in KeysOf(Merge(current, dto)) && key in db.locks && db.locks[key] != id
  {
    var keys, released := KeysOf(Merge(current, dto)), Release(db.locks, id);
    if key :| key in keys && key in db.locks && db.locks[key] != id {
      assert key in released;
    }
    if !(keys !! released.Keys) {
      var key :| key in keys && key in released;
      assert key in db.locks && db.locks[key] != id;
    }
  }

  // ------------------------------------------------- operations in sequence

  const KEEP: UpdateRequest := UpdateRequest(None, None, None, None, None, None, None)

  /** The update request with the fields of a creation request. */
  function Again(dto: CreateRequest): UpdateRequest {
    UpdateRequest(Some(dto.classId), Some(dto.venueId), Some(dto.coachId), Some(dto.startsAt), Some(dto.endsAt),
                  dto.lateGraceMinutes, dto.status)
  }

  /** Releasing a schedule's rows and inserting them again restores the table. */
  lemma ReleaseThenInsert(locks: LockTable, id: Id)
    ensures Insert(Release(locks, id), id, Owned(locks, id)) == Some(locks)
  {
    assert Release(locks, id) + (map key | key in Owned(locks, id) :: id) == locks;
  }

  /** A live schedule updated with what it already is stays as it is, its lock rows included. */
  lemma UpdateToSame(db: Db, id: Id, dto: UpdateRequest)
    requires Agreement(db) && id in db.schedules && Merge(db.schedules[id], dto) == db.schedules[id]
    requires db.schedules[id].startsAt < db.schedules[id].endsAt && db.schedules[id].classId in db.classes
    requires db.schedules[id].status != Cancelled
    ensures UpdateTx(db, id, dto, db.schedules[id]) == (db, Done)
  {
    assert Agrees(db, id);
    ReleaseThenInsert(db.locks, id);
    assert db.schedules[id := db.schedules[id]] == db.schedules;
  }

  /** What a creation stored is what was asked for: asking for it again by an update changes nothing. */
  lemma CreateThenUpdateIsCreate(db: Db, id: Id, dto: CreateRequest)
    requires Agreement(db) && id !in db.schedules && CreateTx(db, id, dto).1 == Done
    requires dto.status != Some(Cancelled)
    ensures var db' := CreateTx(db, id, dto).0;
      && db'.schedules[id].status != Cancelled
      && UpdateTx(db', id, Again(dto), db'.schedules[id]) == (db', Done)
  {
    CreateKeepsAgreement(db, id, dto);
    UpdateToSame(CreateTx(db, id, dto).0, id, Again(dto));
  }

  /** Cancelling and then restoring the status gives back the database, as long as nobody took the slots. */
  lemma ReinstateUndoesCancel(db: Db, id: Id)
    requires Agreement(db) && id in db.schedules && db.schedules[id].status != Cancelled
    requires db.schedules[id].startsAt < db.schedules[id].endsAt && db.schedules[id].classId in db.classes
    ensures var cancelled := CancelTx(db, id).0;
      UpdateTx(cancelled, id, KEEP.(status := Some(db.schedules[id].status)), cancelled.schedules[id]) == (db, Done)
  {
    var cancelled := CancelTx(db, id).0;
    assert Agrees(db, id);
    ReleaseThenInsert(db.locks, id);
    assert Release(cancelled.locks, id) == cancelled.locks;
    assert cancelled.schedules[id := db.schedules[id]] == db.schedules;
  }

  // ------------------------------------------- what cancelled schedules hold

  /** The one way a cancelled schedule comes to hold slots: it is created as cancelled. */
  lemma CreateKeepsCancelledIff(db: Db, id: Id, dto: CreateRequest)
    requires OwnersExist(db) && CancelledHoldNothing(db) && id !in db.schedules
    ensures CancelledHoldNothing(CreateTx(db, id, dto).0)
       <==> !(CreateTx(db, id, dto).1 == Done && dto.status == Some(Cancelled))
  {
    var (db', outcome) := CreateTx(db, id, dto);
    if outcome == Done {
      var s := db'.schedules[id];
      InsertOwned(db.locks, id, KeysOf(s));
      assert Owned(db.locks, id) == {};
      FirstAndLast(s.startsAt, s.endsAt);
      assert LockKey(COACH, s.coachId, SlotStart(s.startsAt)) in Owned(db'.locks, id);
    }
  }

  /** An update, however stale its read, leaves no cancelled schedule with a slot. */
  lemma UpdateKeepsCancelled(db: Db, id: Id, dto: UpdateRequest, current: Schedule)
    requires CancelledHoldNothing(db)
    ensures CancelledHoldNothing(UpdateTx(db, id, dto, current).0)
  {
    var (db', outcome) := UpdateTx(db, id, dto, current);
    if outcome == Done {
      var released := Release(db.locks, id);
      ReleaseOwned(db.locks, id);
      if db'.schedules[id].status != Cancelled {
        InsertOwned(released, id, KeysOf(Merge(current, dto)));
      }
    }
  }

  lemma CancelKeepsCancelled(db: Db, id: Id)
    requires CancelledHoldNothing(db)
    ensures CancelledHoldNothing(CancelTx(db, id).0)
  {
    ReleaseOwned(db.locks, id);
  }

  lemma DeleteClassKeepsCancelled(db: Db, classId: Id)
    requires CancelledHoldNothing(db)
    ensures CancelledHoldNothing(DeleteClassTx(db, classId).0)
  {
    var db' := DeleteClassTx(db, classId).0;
    forall id | id in db'.schedules && db'.schedules[id].status == Cancelled ensures Owned(db'.locks, id) == {} {
      assert Owned(db'.locks, id) <= Owned(db.locks, id);
    }
  }

  /**
   * A schedule created as already cancelled still takes its lock rows, so it blocks a live booking of
   * the same coach although it is not shown to anyone.
   */
  lemma CancelledCreationStillBlocks()
    ensures var ghostly := CreateRequest("class", "venue1", "coach", 0, SLOT_MS, None, Some(Cancelled));
            var live := CreateRequest("class", "venue2", "coach", 0, SLOT_MS, None, None);
            var db := CreateTx(Db({"class"}, map[], map[]), "a", ghostly);
            && db.1 == Done
            && db.0.schedules["a"].status == Cancelled
            && CreateTx(db.0, "b", live).1 == ResourceConflict
  {
    var ghostly := CreateRequest("class", "venue1", "coach", 0, SLOT_MS, None, Some(Cancelled));
    var db := CreateTx(Db({"class"}, map[], map[]), "a", ghostly).0;
    assert LockKey(COACH, "coach", 0) in KeysFor("coach", "venue1", 0, SLOT_MS);
    assert LockKey(COACH, "coach", 0) in KeysFor("coach", "venue2", 0, SLOT_MS);
    assert LockKey(COACH, "coach", 0) in db.locks;
  }
}
