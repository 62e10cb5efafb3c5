/**
 * Check-in: which requests are recorded, with which status, and which of them are charged
 * (src/modules/attendance/attendance.service.ts). The facts other tables supply are parameters.
 */
module Attendance {
  import opened Common
  import opened Ledger
  import opened LedgerService
  import Runs

  datatype CheckInMethod = QR | MANUAL | GPS
  datatype Status = Present | Late | Absent | OnLeave

  datatype Lesson = Lesson(
    cancelled: bool, startsAt: int, endsAt: int, lateGraceMinutes: int, lessonDeduct: int, hasGeofence: bool)

  /** What the queries before the transaction found. */
  datatype Facts = Facts(
    lesson: Option<Lesson>, enrolled: bool, approvedLeave: bool,
    qrPresented: bool, qrValid: bool, located: bool, inRange: bool, now: int)

  datatype Verdict =
    | NotFound | Forbidden | BadRequest
    | Record(status: Status, checkInAt: Option<int>, charge: int)

  function ProofIsMissing(f: Facts, how: CheckInMethod): bool
    requires f.lesson.Some?
  {
    match how
    case QR => !f.qrPresented || !f.qrValid
    case GPS => !f.lesson.value.hasGeofence || !f.located || !f.inRange
    case MANUAL => false
  }

  function Judge(f: Facts, how: CheckInMethod): Verdict {
    match f.lesson
    case None => NotFound
    case Some(lesson) =>
      if lesson.cancelled then BadRequest
      else if !f.enrolled then Forbidden
      else if f.approvedLeave then Record(OnLeave, Some(f.now), 0)
      else if f.now > lesson.endsAt then Record(Absent, None, 0)
      else if ProofIsMissing(f, how) then BadRequest
      else Record(if f.now > lesson.startsAt + lesson.lateGraceMinutes * 60 * 1000 then Late else Present,
                  Some(f.now), lesson.lessonDeduct)
  }

  /** The proof the method asks for: a valid code that was presented, or a position inside the venue's fence. */
  predicate ProofGiven(f: Facts, how: CheckInMethod) {
    && (how == QR ==> f.qrPresented && f.qrValid)
    && (how == GPS ==> f.lesson.Some? && f.lesson.value.hasGeofence && f.located && f.inRange)
  }

  /** The lesson takes place and the student belongs to it. */
  predicate Expected(f: Facts) {
    f.lesson.Some? && !f.lesson.value.cancelled && f.enrolled
  }

  /** The student is there in time, with proof. */
  predicate Arrives(f: Facts, how: CheckInMethod) {
    Expected(f) && !f.approvedLeave && f.now <= f.lesson.value.endsAt && ProofGiven(f, how)
  }

  /** Every verdict has its exact condition, and says who is late and what is due. */
  lemma JudgeDoes(f: Facts, how: CheckInMethod)
    ensures var verdict := Judge(f, how);
      && (verdict == NotFound <==> f.lesson == None)
      && (verdict == Forbidden <==> f.lesson.Some? && !f.lesson.value.cancelled && !f.enrolled)
      && (verdict == BadRequest <==>
            || (f.lesson.Some? && f.lesson.value.cancelled)
            || (Expected(f) && !f.approvedLeave && f.now <= f.lesson.value.endsAt && !ProofGiven(f, how)))
      && (Expected(f) && f.approvedLeave ==> verdict == Record(OnLeave, Some(f.now), 0))
      && (Expected(f) && !f.approvedLeave && f.lesson.value.endsAt < f.now ==> verdict == Record(Absent, None, 0))
      && (Arrives(f, how) ==>
            var late := f.lesson.value.startsAt + f.lesson.value.lateGraceMinutes * 60000 < f.now;
            verdict == Record(if late then Late else Present, Some(f.now), f.lesson.value.lessonDeduct))
  {
  }

  datatype Entry = Entry(status: Status, how: CheckInMethod, checkInAt: Option<int>)
  type Attendances = map<(Id, Id), Entry>

  datatype Outcome = Rejected(verdict: Verdict) | Recorded(charged: bool) | RolledBack

  /** One call of check-in, with what its queries return. */
  datatype Call = Call(
    studentId: Id, scheduleId: Id, facts: Facts, how: CheckInMethod, earlier: seq<Row>, listing: seq<Listed>)

  datatype Books = Books(attendances: Attendances, tables: Tables)

  /** The transaction: the attendance row is written over, then the charge, if one is due, is deducted. */
  function CheckInTx(books: Books, call: Call): Books {
    match Judge(call.facts, call.how)
    case Record(status, checkInAt, charge) =>
      var noted := books.attendances[(call.studentId, call.scheduleId) := Entry(status, call.how, checkInAt)];
      if charge <= 0 then books.(attendances := noted)
      else
        var (outcome, tables) :=
          Deduct(books.tables, call.studentId, call.scheduleId, charge, call.earlier, call.listing);
        if outcome == Failed then books else Books(noted, tables)
    case _ => books
  }

  class AttendanceService {
    const store: MembershipStore
    var attendances: Attendances

    constructor (store: MembershipStore)
      ensures this.store == store && attendances == map[]
    {
      this.store, attendances := store, map[];
    }

    /**
     * The attendance row and the deduction stand or fall together. `earlier` and `listing` are what the
     * deduction's queries return; they may be out of date.
     */
    method CheckIn(studentId: Id, scheduleId: Id, f: Facts, how: CheckInMethod, earlier: seq<Row>, listing: seq<Listed>)
      returns (outcome: Outcome)
      modifies this`attendances, store
      ensures Books(attendances, store.State())
           == CheckInTx(old(Books(attendances, store.State())), Call(studentId, scheduleId, f, how, earlier, listing))
      ensures outcome == Rejected(NotFound) <==> f.lesson == None
      ensures outcome == Rejected(Forbidden) <==> f.lesson.Some? && !f.lesson.value.cancelled && !f.enrolled
      ensures outcome == Rejected(BadRequest) <==>
        || (f.lesson.Some? && f.lesson.value.cancelled)
        || (Expected(f) && !f.approvedLeave && f.now <= f.lesson.value.endsAt && !ProofGiven(f, how))
      ensures Expected(f) && f.approvedLeave ==>
        && outcome == Recorded(false) && store.State() == old(store.State())
        && attendances == old(attendances)[(studentId, scheduleId) := Entry(OnLeave, how, Some(f.now))]
      ensures Expected(f) && !f.approvedLeave && f.lesson.value.endsAt < f.now ==>
        && outcome == Recorded(false) && store.State() == old(store.State())
        && attendances == old(attendances)[(studentId, scheduleId) := Entry(Absent, how, None)]
      ensures Arrives(f, how) ==>
        var late := f.lesson.value.startsAt + f.lesson.value.lateGraceMinutes * 60000 < f.now;
        outcome == RolledBack || attendances
          == old(attendances)[(studentId, scheduleId) := Entry(if late then Late else Present, how, Some(f.now))]
      ensures Arrives(f, how) && f.lesson.value.lessonDeduct <= 0 ==>
        outcome == Recorded(false) && store.State() == old(store.State())
      ensures Arrives(f, how) && f.lesson.value.lessonDeduct > 0 ==> exists deducted ::
        && DeductEffect(old(store.State()), studentId, scheduleId, f.lesson.value.lessonDeduct, earlier, listing,
                        deducted, store.State())
        && outcome == if deducted == Failed then RolledBack else Recorded(deducted == Deducted)
      ensures !outcome.Recorded? ==> attendances == old(attendances) && store.State() == old(store.State())
      ensures outcome.Rejected? <==> !Judge(f, how).Record?
      ensures outcome.Recorded? ==> Judge(f, how).Record?
      ensures outcome.Recorded? ==>
        attendances == old(attendances)[(studentId, scheduleId) :=
          Entry(Judge(f, how).status, how, Judge(f, how).checkInAt)]
      ensures outcome.Recorded? ==> store.State() == if Judge(f, how).charge > 0
        then Deduct(old(store.State()), studentId, scheduleId, Judge(f, how).charge, earlier, listing).1
        else old(store.State())
      ensures store.State() != old(store.State()) ==>
        outcome == Recorded(true) && Judge(f, how).charge > 0 && HasMatch(store.rows, studentId, scheduleId)
      ensures outcome == Recorded(true) ==> store.State() != old(store.State())
    {
      var verdict := Judge(f, how);
      JudgeDoes(f, how);
      if !verdict.Record? {
        return Rejected(verdict);
      }
      OnlyDeductedChanges(store.State(), studentId, scheduleId, verdict.charge, earlier, listing);
      var saved := attendances;
      attendances := attendances[(studentId, scheduleId) := Entry(verdict.status, how, verdict.checkInAt)];
      if verdict.charge > 0 {
        var deducted := store.DeductLessonsForCheckIn(studentId, scheduleId, verdict.charge, earlier, listing);
        if deducted == Failed {
          attendances := saved;
          return RolledBack;
        }
        return Recorded(deducted == Deducted);
      }
      return Recorded(false);
    }
  }

  // ------------------------------------------------- charge and status

  ghost predicate Charged(rows: seq<Row>, studentId: Id, scheduleId: Id) {
    exists i :: 0 <= i < |rows| && IsDebit(rows[i], studentId, scheduleId)
  }

  predicate ShowsUp(attendances: Attendances, studentId: Id, scheduleId: Id) {
    (studentId, scheduleId) in attendances && attendances[(studentId, scheduleId)].status in {Present, Late}
  }

  /** Whoever was charged for a lesson is recorded as having been there. */
  ghost predicate ChargedShowUp(books: Books) {
    forall s, c :: Charged(books.tables.rows, s, c) ==> ShowsUp(books.attendances, s, c)
  }

  /** The call writes "absent" or "on leave" over the record of someone who was charged. */
  ghost predicate Erases(books: Books, call: Call) {
    && Judge(call.facts, call.how).Record? && Judge(call.facts, call.how).status !in {Present, Late}
    && Charged(books.tables.rows, call.studentId, call.scheduleId)
  }

  lemma ChargedAfter(books: Books, call: Call, s: Id, c: Id)
    ensures Charged(CheckInTx(books, call).tables.rows, s, c)
       <==> || Charged(books.tables.rows, s, c)
            || (CheckInTx(books, call).tables != books.tables && s == call.studentId && c == call.scheduleId)
  {
    var rows, rows' := books.tables.rows, CheckInTx(books, call).tables.rows;
    if CheckInTx(books, call).tables != books.tables {
      assert rows' == rows + [rows'[|rows|]];
      assert IsDebit(rows'[|rows|], s, c) <==> s == call.studentId && c == call.scheduleId;
      if i :| 0 <= i < |rows| && IsDebit(rows[i], s, c) {
        assert IsDebit(rows'[i], s, c);
      }
    }
  }

  /** Exactly which call breaks the agreement of charge and status. */
  lemma CheckInKeepsChargedIff(books: Books, call: Call)
    requires ChargedShowUp(books)
    ensures ChargedShowUp(CheckInTx(books, call)) <==> !Erases(books, call)
  {
    var books' := CheckInTx(books, call);
    forall s, c | Charged(books'.tables.rows, s, c) && !Erases(books, call) ensures ShowsUp(books'.attendances, s, c) {
      ChargedAfter(books, call, s, c);
    }
    if Erases(books, call) {
      ChargedAfter(books, call, call.studentId, call.scheduleId);
      assert !ShowsUp(books'.attendances, call.studentId, call.scheduleId);
    }
  }

  /** Over whole runs: whoever is charged is always recorded as present or late iff no call erases such a record. */
  lemma ChargedShowUpThroughoutIff(books: Books, calls: seq<Call>)
    requires ChargedShowUp(books)
    ensures Runs.Throughout(CheckInTx, (b: Books) => ChargedShowUp(b), books, calls)
       <==> Runs.Never(CheckInTx, (b: Books, call: Call) => Erases(b, call), books, calls)
  {
    forall b: Books, call: Call | ChargedShowUp(b) ensures ChargedShowUp(CheckInTx(b, call)) <==> !Erases(b, call) {
      CheckInKeepsChargedIff(b, call);
    }
    Runs.ThroughoutIffNever(CheckInTx, (b: Books) => true, (b: Books) => ChargedShowUp(b),
                            (b: Books, call: Call) => Erases(b, call), books, calls);
  }

  /** Such a call exists for everyone: a second check-in after the lesson records absence and refunds nothing. */
  lemma LateReturnErases(books: Books, call: Call)
    requires Charged(books.tables.rows, call.studentId, call.scheduleId)
    requires call.facts.lesson.Some? && !call.facts.lesson.value.cancelled && call.facts.enrolled
    requires !call.facts.approvedLeave && call.facts.lesson.value.endsAt < call.facts.now
    ensures var books' := CheckInTx(books, call);
      && Erases(books, call) && books'.tables == books.tables
      && books'.attendances[(call.studentId, call.scheduleId)] == Entry(Absent, call.how, None)
  {
  }

  /**
   * Checking in again is free: once a deduction has been made, no later one for the same student and
   * schedule changes anything, whatever it would cost, whatever cards it finds, however stale its reads.
   */
  lemma SecondCheckInIsFree(
      db: Tables, studentId: Id, scheduleId: Id, amount: int, earlier: seq<Row>, listing: seq<Listed>,
      amount2: int, earlier2: seq<Row>, listing2: seq<Listed>)
    requires Deduct(db, studentId, scheduleId, amount, earlier, listing).0 == Deducted
    ensures var db' := Deduct(db, studentId, scheduleId, amount, earlier, listing).1;
      var again := Deduct(db', studentId, scheduleId, amount2, earlier2, listing2);
      && again.1 == db'
      && (again.0 == AlreadyDeducted || again.0 == Insufficient)
  {
    var db' := Deduct(db, studentId, scheduleId, amount, earlier, listing).1;
    OnlyDeductedChanges(db, studentId, scheduleId, amount, earlier, listing);
    var last := db'.rows[|db'.rows| - 1];
    forall card: Listed ensures Refused(db'.rows, CheckInRow(card, studentId, scheduleId, amount2)) {
      assert Clash(last, CheckInRow(card, studentId, scheduleId, amount2));
    }
  }
}
