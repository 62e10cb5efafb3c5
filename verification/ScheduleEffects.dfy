/**
 * What each schedule request does to the database, row by row, for every database and every request. The
 * predicates speak of the tables alone; the lemmas show that the transactions do exactly this.
 */
module ScheduleEffects {
  import opened Common
  import opened Slots
  import opened Schedules

  /** The index key belongs to a booking of this coach and venue from `startsAt` to `endsAt`. */
  predicate Books(key: LockKey, coachId: Id, venueId: Id, startsAt: int, endsAt: int) {
    && IsSlotOf(key.slot, startsAt, endsAt)
    && ((key.resourceType == COACH && key.resourceId == coachId)
        || (key.resourceType == VENUE && key.resourceId == venueId))
  }

  predicate Holds(db: Db, key: LockKey, id: Id) {
    key in db.locks && db.locks[key] == id
  }

  /** Classes, every other schedule and every row it holds are as before. */
  ghost predicate OthersAsBefore(db: Db, db': Db, id: Id) {
    && db'.classes == db.classes
    && (forall other :: other != id ==> (other in db'.schedules <==> other in db.schedules))
    && (forall other :: other != id && other in db.schedules && other in db'.schedules ==>
          db'.schedules[other] == db.schedules[other])
    && (forall key, other :: other != id ==> (Holds(db', key, other) <==> Holds(db, key, other)))
  }

  // ------------------------------------------------------------------ creation

  ghost predicate SlotTaken(db: Db, coachId: Id, venueId: Id, startsAt: int, endsAt: int, id: Id) {
    exists key :: key in db.locks && db.locks[key] != id && Books(key, coachId, venueId, startsAt, endsAt)
  }

  ghost predicate CreateEffect(db: Db, id: Id, dto: CreateRequest, db': Db, outcome: Outcome) {
    var valid, known := dto.startsAt < dto.endsAt, dto.classId in db.classes;
    var taken := exists key :: key in db.locks && Books(key, dto.coachId, dto.venueId, dto.startsAt, dto.endsAt);
    && (outcome == BadTimeRange <==> !valid)
    && (outcome == NotFound <==> valid && !known)
    && (outcome == ResourceConflict <==> valid && known && taken)
    && (outcome == Done <==> valid && known && !taken)
    && (outcome != Done ==> db' == db)
    && (outcome == Done ==>
          && OthersAsBefore(db, db', id)
          && (forall key :: Holds(db', key, id) <==>
                Holds(db, key, id) || Books(key, dto.coachId, dto.venueId, dto.startsAt, dto.endsAt))
          && id in db'.schedules
          && var s := db'.schedules[id];
             && s.classId == dto.classId && s.coachId == dto.coachId && s.venueId == dto.venueId
             && s.startsAt == dto.startsAt && s.endsAt == dto.endsAt
             && s.lateGraceMinutes == (if dto.lateGraceMinutes == None then 15 else dto.lateGraceMinutes.value)
             && s.status == (if dto.status == None then Scheduled else dto.status.value))
  }

  lemma BooksIsCharges(key: LockKey, coachId: Id, venueId: Id, startsAt: int, endsAt: int)
    ensures Books(key, coachId, venueId, startsAt, endsAt) <==> key in KeysFor(coachId, venueId, startsAt, endsAt)
  {
  }

  /** What inserting the rows of a booking does, whoever holds what. */
  lemma InsertBooks(locks: LockTable, id: Id, coachId: Id, venueId: Id, startsAt: int, endsAt: int)
    ensures var r := Insert(locks, id, KeysFor(coachId, venueId, startsAt, endsAt));
      && (r == None <==> exists key :: key in locks && Books(key, coachId, venueId, startsAt, endsAt))
      && (r.Some? ==> forall key ::
            && (key in r.value <==> key in locks || Books(key, coachId, venueId, startsAt, endsAt))
            && (key in r.value ==>
                  r.value[key] == if Books(key, coachId, venueId, startsAt, endsAt) then id else locks[key]))
  {
    var keys := KeysFor(coachId, venueId, startsAt, endsAt);
    forall key ensures Books(key, coachId, venueId, startsAt, endsAt) <==> key in keys {
      BooksIsCharges(key, coachId, venueId, startsAt, endsAt);
    }
    if !(keys !! locks.Keys) {
      var key :| key in keys && key in locks;
      assert Books(key, coachId, venueId, startsAt, endsAt);
    }
  }

  /** Every creation has the outcome, and the effect, that its request and the database call for. */
  lemma CreateDoes(db: Db, id: Id, dto: CreateRequest)
    requires id !in db.schedules
    ensures CreateEffect(db, id, dto, CreateTx(db, id, dto).0, CreateTx(db, id, dto).1)
  {
    InsertBooks(db.locks, id, dto.coachId, dto.venueId, dto.startsAt, dto.endsAt);
  }

  // -------------------------------------------------------------------- update

  ghost predicate UpdateEffect(db: Db, id: Id, dto: UpdateRequest, current: Schedule, db': Db, outcome: Outcome) {
    var coachId := if dto.coachId == None then current.coachId else dto.coachId.value;
    var venueId := if dto.venueId == None then current.venueId else dto.venueId.value;
    var startsAt := if dto.startsAt == None then current.startsAt else dto.startsAt.value;
    var endsAt := if dto.endsAt == None then current.endsAt else dto.endsAt.value;
    var valid := startsAt < endsAt;
    var known := id in db.schedules
      && (if dto.classId == None then db.schedules[id].classId else dto.classId.value) in db.classes;
    var cancels := id in db.schedules
      && (if dto.status == None then db.schedules[id].status else dto.status.value) == Cancelled;
    var taken := SlotTaken(db, coachId, venueId, startsAt, endsAt, id);
    && (outcome == BadTimeRange <==> !valid)
    && (outcome == NotFound <==> valid && !known)
    && (outcome == ResourceConflict <==> valid && known && !cancels && taken)
    && (outcome == Done <==> valid && known && (cancels || !taken))
    && (outcome != Done ==> db' == db)
    && (outcome == Done ==>
          && OthersAsBefore(db, db', id) && id in db.schedules && id in db'.schedules
          && Overwritten(db.schedules[id], dto, db'.schedules[id])
          && (forall key :: Holds(db', key, id) <==> !cancels && Books(key, coachId, venueId, startsAt, endsAt)))
  }

  /** Field by field: what the request supplies, otherwise what was stored. */
  predicate Overwritten(row: Schedule, dto: UpdateRequest, row': Schedule) {
    && row'.classId == (if dto.classId == None then row.classId else dto.classId.value)
    && row'.venueId == (if dto.venueId == None then row.venueId else dto.venueId.value)
    && row'.coachId == (if dto.coachId == None then row.coachId else dto.coachId.value)
    && row'.startsAt == (if dto.startsAt == None then row.startsAt else dto.startsAt.value)
    && row'.endsAt == (if dto.endsAt == None then row.endsAt else dto.endsAt.value)
    && row'.lateGraceMinutes
       == (if dto.lateGraceMinutes == None then row.lateGraceMinutes else dto.lateGraceMinutes.value)
    && row'.status == (if dto.status == None then row.status else dto.status.value)
  }

  lemma MergeOverwrites(row: Schedule, dto: UpdateRequest)
    ensures Overwritten(row, dto, Merge(row, dto))
  {
  }

  /** Every update has the outcome, and the effect, that its request, its early read and the database call for. */
  lemma UpdateDoes(db: Db, id: Id, dto: UpdateRequest, current: Schedule)
    ensures UpdateEffect(db, id, dto, current, UpdateTx(db, id, dto, current).0, UpdateTx(db, id, dto, current).1)
  {
    var believed := Merge(current, dto);
    MergeOverwrites(current, dto);
    InsertBooks(Release(db.locks, id), id, believed.coachId, believed.venueId, believed.startsAt, believed.endsAt);
    if id in db.schedules {
      MergeOverwrites(db.schedules[id], dto);
    }
    if SlotTaken(db, believed.coachId, believed.venueId, believed.startsAt, believed.endsAt, id) {
      var key :| key in db.locks && db.locks[key] != id
        && Books(key, believed.coachId, believed.venueId, believed.startsAt, believed.endsAt);
      assert key in Release(db.locks, id);
    }
    forall key | key in Release(db.locks, id)
      ensures key in db.locks && db.locks[key] != id
    {
    }
  }

  // -------------------------------------------------- cancellation, class deletion

  ghost predicate CancelEffect(db: Db, id: Id, db': Db, outcome: Outcome) {
    && (outcome == NotFound <==> id !in db.schedules)
    && (outcome == Done <==> id in db.schedules)
    && (outcome == NotFound ==> db' == db)
    && (outcome == Done ==>
          && OthersAsBefore(db, db', id) && id in db'.schedules
          && (forall key :: !Holds(db', key, id))
          && var (s, s') := (db.schedules[id], db'.schedules[id]);
             && s'.status == Cancelled
             && s'.classId == s.classId && s'.venueId == s.venueId && s'.coachId == s.coachId
             && s'.startsAt == s.startsAt && s'.endsAt == s.endsAt && s'.lateGraceMinutes == s.lateGraceMinutes)
  }

  /** Every cancellation of a stored schedule marks it, frees its slots, and leaves everything else alone. */
  lemma CancelDoes(db: Db, id: Id)
    ensures CancelEffect(db, id, CancelTx(db, id).0, CancelTx(db, id).1)
  {
  }

  /** A creation refused because of this schedule alone succeeds once it is cancelled. */
  lemma CancelFreesSlots(db: Db, id: Id, newcomer: Id, dto: CreateRequest)
    requires newcomer !in db.schedules && id in db.schedules && CreateTx(db, newcomer, dto).1 == ResourceConflict
    requires forall key :: key in db.locks && Books(key, dto.coachId, dto.venueId, dto.startsAt, dto.endsAt) ==>
      db.locks[key] == id
    ensures CreateTx(CancelTx(db, id).0, newcomer, dto).1 == Done
  {
    CreateDoes(db, newcomer, dto);
    CancelDoes(db, id);
    CreateDoes(CancelTx(db, id).0, newcomer, dto);
    var db' := CancelTx(db, id).0;
    forall key | key in db'.locks ensures !Books(key, dto.coachId, dto.venueId, dto.startsAt, dto.endsAt) {
      assert Holds(db', key, db'.locks[key]);
      assert db'.locks[key] != id ==> Holds(db, key, db'.locks[key]);
    }
  }

  /** The class goes, with it its schedules, and with each of these its lock rows; nothing else does. */
  ghost predicate DeleteClassEffect(db: Db, classId: Id, db': Db, outcome: Outcome) {
    && (outcome == NotFound <==> classId !in db.classes)
    && (outcome == Done <==> classId in db.classes)
    && (outcome == NotFound ==> db' == db)
    && (outcome == Done ==>
          && (forall c :: c in db'.classes <==> c in db.classes && c != classId)
          && (forall id :: id in db'.schedules <==> id in db.schedules && db.schedules[id].classId != classId)
          && (forall id :: id in db'.schedules && id in db.schedules ==> db'.schedules[id] == db.schedules[id])
          && (forall key, id :: Holds(db', key, id) <==> Holds(db, key, id) && id in db'.schedules))
  }

  lemma DeleteClassDoes(db: Db, classId: Id)
    ensures DeleteClassEffect(db, classId, DeleteClassTx(db, classId).0, DeleteClassTx(db, classId).1)
  {
  }
}
