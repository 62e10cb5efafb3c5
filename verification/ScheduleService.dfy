/**
 * The schedule operations in the form the service runs them: tables updated in place, rows built by
 * loops, and a rollback when an insert meets the unique index.
 */
module ScheduleService {
  import opened Common
  import opened Slots
  import opened Schedules
  import opened ScheduleEffects

  datatype InsertResult = Inserted | Conflict | EmptyRange

  ghost predicate DistinctKeys(rows: seq<LockRow>) {
    forall i, j :: 0 <= i < j < |rows| ==> rows[i].key != rows[j].key
  }

  ghost predicate RowsOf(rows: seq<LockRow>, id: Id, keys: set<LockKey>) {
    && (forall row :: row in rows ==> row.scheduleId == id && row.key in keys)
    && (forall key :: key in keys ==> LockRow(key, id) in rows)
  }

  /** The rows pushed for the slot keys, in order: the coach's, then the venue's. */
  ghost predicate Pushed(rows: seq<LockRow>, slotKeys: seq<int>, id: Id, coachId: Id, venueId: Id) {
    && |rows| == 2 * |slotKeys|
    && forall j :: 0 <= j < |slotKeys| ==>
         && rows[2 * j] == LockRow(LockKey(COACH, coachId, slotKeys[j]), id)
         && rows[2 * j + 1] == LockRow(LockKey(VENUE, venueId, slotKeys[j]), id)
  }

  lemma PushedAt(rows: seq<LockRow>, slotKeys: seq<int>, id: Id, coachId: Id, venueId: Id, i: nat)
    requires Pushed(rows, slotKeys, id, coachId, venueId) && i < |rows|
    ensures rows[i] == if i % 2 == 0 then LockRow(LockKey(COACH, coachId, slotKeys[i / 2]), id)
                       else LockRow(LockKey(VENUE, venueId, slotKeys[i / 2]), id)
  {
    var j := i / 2;
    assert i == 2 * j || i == 2 * j + 1;
  }

  lemma PushedRowsAreDistinct(rows: seq<LockRow>, slotKeys: seq<int>, id: Id, coachId: Id, venueId: Id)
    requires Pushed(rows, slotKeys, id, coachId, venueId) && StrictlyIncreasing(slotKeys)
    ensures DistinctKeys(rows)
  {
    forall i, j | 0 <= i < j < |rows| ensures rows[i].key != rows[j].key {
      PushedAt(rows, slotKeys, id, coachId, venueId, i);
      PushedAt(rows, slotKeys, id, coachId, venueId, j);
      assert i / 2 < j / 2 || (i % 2 == 0 && j % 2 == 1);
    }
  }

  lemma PushedRowsAreAllKeys(
    rows: seq<LockRow>, slotKeys: seq<int>, id: Id, coachId: Id, venueId: Id, keys: set<LockKey>)
    requires Pushed(rows, slotKeys, id, coachId, venueId)
    requires forall key :: key in keys <==>
      key.slot in slotKeys && key.resourceId == match key.resourceType case COACH => coachId case VENUE => venueId
    ensures RowsOf(rows, id, keys)
  {
    forall i | 0 <= i < |rows| ensures rows[i].scheduleId == id && rows[i].key in keys {
      PushedAt(rows, slotKeys, id, coachId, venueId, i);
    }
    forall key | key in keys ensures LockRow(key, id) in rows {
      var j :| 0 <= j < |slotKeys| && slotKeys[j] == key.slot;
      assert rows[2 * j] in rows && rows[2 * j + 1] in rows;
    }
  }

  /** One coach row and one venue row per slot, in slot order, no index key twice. */
  method BuildScheduleResourceLockRows(scheduleId: Id, coachId: Id, venueId: Id, startsAt: int, endsAt: int)
    returns (rows: seq<LockRow>)
    ensures RowsOf(rows, scheduleId, KeysFor(coachId, venueId, startsAt, endsAt))
    ensures forall row :: row in rows <==>
      row.scheduleId == scheduleId && Books(row.key, coachId, venueId, startsAt, endsAt)
    ensures DistinctKeys(rows)
    ensures rows == [] <==> endsAt <= SlotStart(startsAt)
  {
    var slotKeys := BuildTimeSlotKeys(startsAt, endsAt);
    rows := [];
    for i := 0 to |slotKeys|
      invariant Pushed(rows, slotKeys[..i], scheduleId, coachId, venueId)
    {
      rows := rows + [LockRow(LockKey(COACH, coachId, slotKeys[i]), scheduleId)];
      rows := rows + [LockRow(LockKey(VENUE, venueId, slotKeys[i]), scheduleId)];
    }
    assert slotKeys[..|slotKeys|] == slotKeys;
    PushedRowsAreDistinct(rows, slotKeys, scheduleId, coachId, venueId);
    PushedRowsAreAllKeys(rows, slotKeys, scheduleId, coachId, venueId, KeysFor(coachId, venueId, startsAt, endsAt));
    forall row: LockRow
      ensures row in rows <==> row.scheduleId == scheduleId && Books(row.key, coachId, venueId, startsAt, endsAt)
    {
      BooksIsCharges(row.key, coachId, venueId, startsAt, endsAt);
      assert row == LockRow(row.key, row.scheduleId);
    }
  }

  lemma UpdateAgreement(db: Db, id: Id, dto: UpdateRequest, current: Schedule)
    ensures var (db', outcome) := UpdateTx(db, id, dto, current);
      if outcome != Done then db' == db
      else id in db.schedules && (Agreement(db) ==> (Agreement(db') <==> ReadStillCurrent(db, id, dto, current)))
  {
    if UpdateTx(db, id, dto, current).1 == Done && Agreement(db) {
      UpdateKeepsAgreementIff(db, id, dto, current);
    }
  }

  /** The index keys of the first rows, one row at a time. */
  function KeysUpTo(rows: seq<LockRow>, n: nat): (keys: set<LockKey>)
    requires n <= |rows|
    ensures forall key :: key in keys <==> exists i :: 0 <= i < n && rows[i].key == key
  {
    set i | 0 <= i < n :: rows[i].key
  }

  lemma InsertedExactly(before: LockTable, after: LockTable, rows: seq<LockRow>, id: Id, keys: set<LockKey>)
    requires RowsOf(rows, id, keys) && forall row :: row in rows ==> row.key !in before
    requires after.Keys == before.Keys + KeysUpTo(rows, |rows|)
    requires forall key :: key in before ==> after[key] == before[key]
    requires forall row :: row in rows ==> row.key in after && after[row.key] == row.scheduleId
    ensures Insert(before, id, keys) == Some(after)
  {
    forall key | key in keys ensures key !in before && key in after && after[key] == id {
      assert LockRow(key, id) in rows;
    }
    assert KeysUpTo(rows, |rows|) <= keys;
    assert after == before + map key | key in keys :: id;
  }

  lemma ConflictMeansTaken(before: LockTable, rows: seq<LockRow>, id: Id, keys: set<LockKey>)
    requires RowsOf(rows, id, keys) && exists row :: row in rows && row.key in before
    ensures Insert(before, id, keys) == None
  {
    var row :| row in rows && row.key in before;
    assert row.key in keys;
  }

  class ScheduleDatabase {
    var classes: set<Id>
    var schedules: map<Id, Schedule>
    var locks: LockTable

    constructor ()
      ensures State() == Db({}, map[], map[]) && Agreement(State())
    {
      classes, schedules, locks := {}, map[], map[];
    }

    ghost function State(): Db
      reads this
    {
      Db(classes, schedules, locks)
    }

    /** INSERT of several rows: all of them, or none and a unique violation. */
    method CreateMany(rows: seq<LockRow>) returns (ok: bool)
      requires DistinctKeys(rows)
      modifies this`locks
      ensures ok <==> forall row :: row in rows ==> row.key !in old(locks)
      ensures !ok ==> locks == old(locks)
      ensures ok ==> locks.Keys == old(locks).Keys + KeysUpTo(rows, |rows|)
      ensures ok ==> forall key :: key in old(locks) ==> locks[key] == old(locks)[key]
      ensures ok ==> forall row :: row in rows ==> row.key in locks && locks[row.key] == row.scheduleId
    {
      var saved := locks;
      for i := 0 to |rows|
        invariant forall j :: 0 <= j < i ==> rows[j].key !in saved
        invariant locks.Keys == saved.Keys + KeysUpTo(rows, i)
        invariant forall key :: key in saved ==> key in locks && locks[key] == saved[key]
        invariant forall j :: 0 <= j < i ==> rows[j].key in locks && locks[rows[j].key] == rows[j].scheduleId
      {
        if rows[i].key in locks {
          assert rows[i] in rows;
          locks := saved;
          return false;
        }
        locks := locks[rows[i].key := rows[i].scheduleId];
      }
      return true;
    }

    method InsertScheduleResourceLocks(scheduleId: Id, coachId: Id, venueId: Id, startsAt: int, endsAt: int)
      returns (r: InsertResult)
      modifies this`locks
      ensures r == EmptyRange <==> endsAt <= SlotStart(startsAt)
      ensures r == Inserted ==>
        Insert(old(locks), scheduleId, KeysFor(coachId, venueId, startsAt, endsAt)) == Some(locks)
      ensures r == Conflict ==> Insert(old(locks), scheduleId, KeysFor(coachId, venueId, startsAt, endsAt)) == None
      ensures r != Inserted ==> locks == old(locks)
      ensures r == Conflict ==> exists key :: key in old(locks) && Books(key, coachId, venueId, startsAt, endsAt)
      ensures r == Inserted ==> forall key ::
        && (key in locks <==> key in old(locks) || Books(key, coachId, venueId, startsAt, endsAt))
        && (key in locks && Books(key, coachId, venueId, startsAt, endsAt) ==>
              key !in old(locks) && locks[key] == scheduleId)
    {
      InsertBooks(locks, scheduleId, coachId, venueId, startsAt, endsAt);
      ghost var keys := KeysFor(coachId, venueId, startsAt, endsAt);
      var rows := BuildScheduleResourceLockRows(scheduleId, coachId, venueId, startsAt, endsAt);
      if |rows| == 0 {
        return EmptyRange;
      }
      var ok := CreateMany(rows);
      if !ok {
        ConflictMeansTaken(old(locks), rows, scheduleId, keys);
        return Conflict;
      }
      InsertedExactly(old(locks), locks, rows, scheduleId, keys);
      return Inserted;
    }

    method ReleaseScheduleResourceLocks(scheduleId: Id)
      modifies this`locks
      ensures locks == Release(old(locks), scheduleId)
      ensures forall key :: key in locks <==> key in old(locks) && old(locks)[key] != scheduleId
      ensures forall key :: key in locks ==> locks[key] == old(locks)[key]
    {
      locks := map key | key in locks && locks[key] != scheduleId :: locks[key];
    }

    method GetSchedule(id: Id) returns (r: Option<Schedule>)
      ensures r == if id in schedules then Some(schedules[id]) else None
    {
      r := if id in schedules then Some(schedules[id]) else None;
    }

    /** `id` is the UUID the database generates for the new row. */
    method CreateSchedule(id: Id, dto: CreateRequest) returns (outcome: Outcome)
      requires id !in schedules
      modifies this
      ensures (State(), outcome) == CreateTx(old(State()), id, dto)
      ensures CreateEffect(old(State()), id, dto, State(), outcome)
      ensures old(Agreement(State())) ==> Agreement(State())
    {
      CreateDoes(State(), id, dto);
      if Agreement(State()) {
        CreateKeepsAgreement(State(), id, dto);
      }
      if !(dto.startsAt < dto.endsAt) {
        return BadTimeRange;
      }
      if dto.classId !in classes {
        return NotFound;
      }
      var saved := schedules;
      schedules := schedules[id := Schedule(dto.classId, dto.venueId, dto.coachId, dto.startsAt, dto.endsAt,
                                            OrElse(dto.lateGraceMinutes, 15), OrElse(dto.status, Scheduled))];
      var inserted := InsertScheduleResourceLocks(id, dto.coachId, dto.venueId, dto.startsAt, dto.endsAt);
      if inserted != Inserted {
        schedules := saved;
        return if inserted == Conflict then ResourceConflict else BadTimeRange;
      }
      return Done;
    }

    /** The transaction of an update; `believed` holds the coach, venue and times computed before it began. */
    method UpdateTransaction(id: Id, dto: UpdateRequest, believed: Schedule) returns (outcome: Outcome)
      requires believed.startsAt < believed.endsAt
      modifies this
      ensures forall current :: Merge(current, dto) == believed ==>
        (State(), outcome) == UpdateTx(old(State()), id, dto, current)
    {
      var savedLocks, savedSchedules := locks, schedules;
      ReleaseScheduleResourceLocks(id);
      if id !in schedules || OrElse(dto.classId, schedules[id].classId) !in classes {
        locks := savedLocks;
        return NotFound;
      }
      var schedule := Merge(schedules[id], dto);
      schedules := schedules[id := schedule];
      if schedule.status != Cancelled {
        var inserted :=
          InsertScheduleResourceLocks(id, believed.coachId, believed.venueId, believed.startsAt, believed.endsAt);
        if inserted != Inserted {
          locks, schedules := savedLocks, savedSchedules;
          return if inserted == Conflict then ResourceConflict else BadTimeRange;
        }
      }
      return Done;
    }

    /**
     * The part of an update that follows the early read. Other requests may have committed since
     * `current` was read; agreement survives exactly when the read is still current.
     */
    method CommitUpdate(id: Id, dto: UpdateRequest, current: Schedule) returns (outcome: Outcome)
      modifies this
      ensures (State(), outcome) == UpdateTx(old(State()), id, dto, current)
      ensures UpdateEffect(old(State()), id, dto, current, State(), outcome)
      ensures outcome != Done ==> State() == old(State())
      ensures old(Agreement(State())) && outcome == Done ==>
        (Agreement(State()) <==> ReadStillCurrent(old(State()), id, dto, current))
    {
      UpdateAgreement(State(), id, dto, current);
      UpdateDoes(State(), id, dto, current);
      var believed := Merge(current, dto);
      if !(believed.startsAt < believed.endsAt) {
        return BadTimeRange;
      }
      outcome := UpdateTransaction(id, dto, believed);
    }

    /** Without anything committing between the read and the transaction, an update always keeps agreement. */
    method UpdateSchedule(id: Id, dto: UpdateRequest) returns (outcome: Outcome)
      modifies this
      ensures outcome != Done ==> State() == old(State())
      ensures (State(), outcome) == if id in old(schedules)
        then UpdateTx(old(State()), id, dto, old(schedules)[id]) else (old(State()), NotFound)
      ensures if id in old(schedules) then UpdateEffect(old(State()), id, dto, old(schedules)[id], State(), outcome)
              else State() == old(State()) && outcome == NotFound
      ensures old(Agreement(State())) ==> Agreement(State()) && NoDoubleBooking(State())
    {
      ghost var agreed := Agreement(State());
      if agreed {
        AgreementExcludesDoubleBooking(State());
      }
      var current := GetSchedule(id);
      if current.None? {
        return NotFound;
      }
      outcome := CommitUpdate(id, dto, current.value);
      if agreed {
        AgreementExcludesDoubleBooking(State());
      }
    }

    method DeleteSchedule(id: Id) returns (outcome: Outcome)
      modifies this
      ensures (State(), outcome) == CancelTx(old(State()), id)
      ensures CancelEffect(old(State()), id, State(), outcome)
      ensures old(Agreement(State())) ==> Agreement(State())
    {
      CancelDoes(State(), id);
      if Agreement(State()) {
        CancelKeepsAgreement(State(), id);
      }
      var found := GetSchedule(id);
      if found.None? {
        return NotFound;
      }
      ReleaseScheduleResourceLocks(id);
      schedules := schedules[id := schedules[id].(status := Cancelled)];
      return Done;
    }

    method DeleteClass(classId: Id) returns (outcome: Outcome)
      modifies this
      ensures (State(), outcome) == DeleteClassTx(old(State()), classId)
      ensures DeleteClassEffect(old(State()), classId, State(), outcome)
      ensures old(Agreement(State())) ==> Agreement(State())
    {
      DeleteClassDoes(State(), classId);
      if Agreement(State()) {
        DeleteClassKeepsAgreement(State(), classId);
      }
      if classId !in classes {
        return NotFound;
      }
      classes := classes - {classId};
      schedules := map id | id in schedules && schedules[id].classId != classId :: schedules[id];
      locks := map key | key in locks && locks[key] in schedules :: locks[key];
      return Done;
    }
  }
}
