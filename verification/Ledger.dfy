/**
 * Membership cards and the lesson ledger: the conditional balance updates, the two unique indexes of
 * the ledger, the check-in deduction and the manual adjustment
 * (src/common/prisma/membership-lessons.ts, src/modules/attendance/attendance-lesson-deduct.ts,
 * src/modules/memberships/memberships-lesson-adjust.ts, src/modules/memberships/memberships.service.ts).
 */
module Ledger {
  import opened Common
  import opened BusinessKeys

  datatype CardStatus = Active | Expired | Frozen

  datatype Card = Card(
    studentId: Id, remaining: int, version: int, status: CardStatus, validFrom: int, validTo: int)

  datatype Row = Row(
    membershipId: Id, studentId: Id, delta: int, reason: string, key: string, scheduleId: Option<Id>,
    beforeRemaining: int, afterRemaining: int)

  type Cards = map<Id, Card>

  const CHECKIN_REASON: string := "CLASS_CHECK_IN"

  /** A card as the card query returned it; its balance may be out of date when it is used. */
  datatype Listed = Listed(id: Id, remaining: int)

  datatype DeductOutcome = Deducted | AlreadyDeducted | Insufficient | Failed
  datatype DeltaResult = Applied | TooFewLessons | VersionConflict
  datatype AdjustOutcome = Adjusted | ZeroDelta | CardNotFound | NotEnough | Stale | RowRefused

  // -------------------------------------------------------------- single calls

  /** UPDATE ... WHERE remaining >= amount [AND version = v]: the row it leaves, or nothing updated. */
  function Decrement(card: Card, amount: int, version: Option<int>): Option<Card> {
    if amount <= 0 || card.remaining < amount then None
    else match version
      case None => Some(card.(remaining := card.remaining - amount))
      case Some(v) =>
        if v == card.version then Some(card.(remaining := card.remaining - amount, version := v + 1)) else None
  }

  /** The versioned update of a manual adjustment. */
  function ApplyDelta(card: Card, expectedVersion: int, delta: int): Option<Card> {
    if delta > 0 then
      if card.version == expectedVersion
      then Some(card.(remaining := card.remaining + delta, version := card.version + 1)) else None
    else Decrement(card, -delta, Some(expectedVersion))
  }

  /** Two rows that the unique indexes on businessKey and (membershipId, scheduleId) do not let coexist. */
  predicate Clash(a: Row, b: Row) {
    || a.key == b.key
    || (a.membershipId == b.membershipId && a.scheduleId.Some? && a.scheduleId == b.scheduleId)
  }

  predicate Refused(rows: seq<Row>, row: Row) {
    exists i :: 0 <= i < |rows| && Clash(rows[i], row)
  }

  ghost predicate UniqueRows(rows: seq<Row>) {
    forall i, j :: 0 <= i < j < |rows| ==> !Clash(rows[i], rows[j])
  }

  /** The query that looks for an earlier check-in of this student at this schedule. */
  predicate Matches(row: Row, studentId: Id, scheduleId: Id) {
    || row.key == CheckInKey(studentId, scheduleId)
    || (row.scheduleId == Some(scheduleId) && row.reason == CHECKIN_REASON && row.studentId == studentId)
  }

  predicate HasMatch(rows: seq<Row>, studentId: Id, scheduleId: Id) {
    exists i :: 0 <= i < |rows| && Matches(rows[i], studentId, scheduleId)
  }

  /** Every row comes from a check-in or from an adjustment, and its key says which. */
  ghost predicate FromCheckIn(r: Row) {
    r.scheduleId.Some? && r.key == CheckInKey(r.studentId, r.scheduleId.value)
      && r.reason == CHECKIN_REASON && r.delta < 0
  }

  ghost predicate FromAdjustment(r: Row) {
    exists uuid :: r.key == AdjustKey(r.membershipId, uuid)
  }

  /** The debit of this student at this schedule. */
  ghost predicate IsDebit(r: Row, studentId: Id, scheduleId: Id) {
    FromCheckIn(r) && r.studentId == studentId && r.scheduleId == Some(scheduleId)
  }

  function CheckInRow(card: Listed, studentId: Id, scheduleId: Id, amount: int): Row {
    Row(card.id, studentId, -amount, CHECKIN_REASON, CheckInKey(studentId, scheduleId), Some(scheduleId),
        card.remaining, card.remaining - amount)
  }

  function AdjustRow(id: Id, read: Card, delta: int, reason: string, scheduleId: Option<Id>, uuid: string): Row {
    Row(id, read.studentId, delta, reason, AdjustKey(id, uuid), scheduleId, read.remaining, read.remaining + delta)
  }

  // ------------------------------------------------------- check-in deduction

  predicate Sufficient(cards: Cards, id: Id, amount: int) {
    id in cards && cards[id].remaining >= amount
  }

  /** Position i of the listing is the first card whose balance now suffices. */
  predicate FirstSufficientAt(cards: Cards, listing: seq<Listed>, amount: int, i: int) {
    && 0 <= i < |listing| && Sufficient(cards, listing[i].id, amount)
    && forall j :: 0 <= j < i ==> !Sufficient(cards, listing[j].id, amount)
  }

  /** The card the loop over the listing debits, if it debits one. */
  function Chosen(cards: Cards, listing: seq<Listed>, amount: int): (r: Option<Listed>)
    ensures r.Some? ==> Sufficient(cards, r.value.id, amount)
  {
    if listing == [] then None
    else if Sufficient(cards, listing[0].id, amount) then Some(listing[0])
    else Chosen(cards, listing[1..], amount)
  }

  lemma {:induction false} ChosenIsFirst(cards: Cards, listing: seq<Listed>, amount: int)
    ensures Chosen(cards, listing, amount).None?
      <==> forall i :: 0 <= i < |listing| ==> !Sufficient(cards, listing[i].id, amount)
    ensures Chosen(cards, listing, amount).Some? ==>
      exists i :: FirstSufficientAt(cards, listing, amount, i) && listing[i] == Chosen(cards, listing, amount).value
    decreases |listing|
  {
    if listing != [] {
      if Sufficient(cards, listing[0].id, amount) {
        assert FirstSufficientAt(cards, listing, amount, 0);
      } else {
        var rest := listing[1..];
        ChosenIsFirst(cards, rest, amount);
        assert forall j :: 0 <= j < |rest| ==> rest[j] == listing[j + 1];
        assert forall j :: 0 < j < |listing| ==> listing[j] == rest[j - 1];
        if Chosen(cards, rest, amount).Some? {
          var i :| FirstSufficientAt(cards, rest, amount, i) && rest[i] == Chosen(cards, rest, amount).value;
          assert FirstSufficientAt(cards, listing, amount, i + 1);
        }
      }
    }
  }

  datatype Tables = Tables(cards: Cards, rows: seq<Row>)

  /**
   * What one deduction does to the tables. `earlier` are the ledger rows its first query saw and
   * `listing` the cards its second query returned; either may be out of date.
   */
  function Deduct(db: Tables, studentId: Id, scheduleId: Id, amount: int, earlier: seq<Row>, listing: seq<Listed>)
    : (DeductOutcome, Tables)
  {
    if amount <= 0 then (Insufficient, db)
    else if HasMatch(earlier, studentId, scheduleId) then (AlreadyDeducted, db)
    else match Chosen(db.cards, listing, amount)
      case None => (Insufficient, db)
      case Some(card) =>
        var row := CheckInRow(card, studentId, scheduleId, amount);
        if !Refused(db.rows, row) then
          (Deducted, Tables(db.cards[card.id := Decrement(db.cards[card.id], amount, None).value], db.rows + [row]))
        else if HasMatch(db.rows, studentId, scheduleId) then (AlreadyDeducted, db)
        else (Failed, db)
  }

  predicate Usable(card: Card, studentId: Id, now: int) {
    card.studentId == studentId && card.status == Active && card.validFrom <= now <= card.validTo
  }

  /** An up-to-date answer of the card query: every usable card, earliest expiry first. */
  ghost predicate IsListing(cards: Cards, listing: seq<Listed>, studentId: Id, now: int) {
    && (forall l :: l in listing ==>
      l.id in cards && Usable(cards[l.id], studentId, now) && l.remaining == cards[l.id].remaining)
    && (forall id :: id in cards && Usable(cards[id], studentId, now) ==> Listed(id, cards[id].remaining) in listing)
    && (forall i, j :: 0 <= i < j < |listing| && listing[i].id in cards && listing[j].id in cards ==>
          cards[listing[i].id].validTo <= cards[listing[j].id].validTo)
  }

  predicate Payable(cards: Cards, studentId: Id, amount: int, now: int) {
    exists id :: id in cards && Usable(cards[id], studentId, now) && cards[id].remaining >= amount
  }

  /** A row already stands where the check-in row of this card and schedule would go. */
  predicate ScheduleTaken(rows: seq<Row>, cardId: Id, scheduleId: Id) {
    exists i :: 0 <= i < |rows| && rows[i].membershipId == cardId && rows[i].scheduleId == Some(scheduleId)
  }

  lemma PayableIffChosen(cards: Cards, studentId: Id, amount: int, listing: seq<Listed>, now: int)
    requires IsListing(cards, listing, studentId, now)
    ensures Payable(cards, studentId, amount, now) <==> Chosen(cards, listing, amount).Some?
  {
    ChosenIsFirst(cards, listing, amount);
    if Payable(cards, studentId, amount, now) {
      var id :| id in cards && Usable(cards[id], studentId, now) && cards[id].remaining >= amount;
      var i :| 0 <= i < |listing| && listing[i] == Listed(id, cards[id].remaining);
      assert Sufficient(cards, listing[i].id, amount);
    }
    if Chosen(cards, listing, amount).Some? {
      var i :| FirstSufficientAt(cards, listing, amount, i) && listing[i] == Chosen(cards, listing, amount).value;
      assert listing[i] in listing;
    }
  }

  /** Without a matching row, the indexes refuse the check-in row exactly when card and schedule are taken. */
  lemma RefusedIffTaken(rows: seq<Row>, card: Listed, studentId: Id, scheduleId: Id, amount: int)
    requires !HasMatch(rows, studentId, scheduleId)
    ensures Refused(rows, CheckInRow(card, studentId, scheduleId, amount)) <==> ScheduleTaken(rows, card.id, scheduleId)
  {
    forall i | 0 <= i < |rows|
      ensures Clash(rows[i], CheckInRow(card, studentId, scheduleId, amount))
         <==> rows[i].membershipId == card.id && rows[i].scheduleId == Some(scheduleId)
    {
      assert !Matches(rows[i], studentId, scheduleId);
    }
  }

  /**
   * On up-to-date reads each outcome has its exact condition. A student with no matching row and a card that
   * can pay is charged unless the card that would pay already carries a row for this schedule; then the
   * check-in fails, whatever other cards could pay.
   */
  lemma DeductionHappensIff(db: Tables, studentId: Id, scheduleId: Id, amount: int, listing: seq<Listed>, now: int)
    requires amount > 0 && IsListing(db.cards, listing, studentId, now)
    ensures var outcome := Deduct(db, studentId, scheduleId, amount, db.rows, listing).0;
      var (matched, payable) := (HasMatch(db.rows, studentId, scheduleId), Payable(db.cards, studentId, amount, now));
      var card := Chosen(db.cards, listing, amount);
      && (payable <==> card.Some?)
      && (outcome == AlreadyDeducted <==> matched)
      && (outcome == Insufficient <==> !matched && !payable)
      && (outcome == Failed <==> !matched && payable && ScheduleTaken(db.rows, card.value.id, scheduleId))
      && (outcome == Deducted <==> !matched && payable && !ScheduleTaken(db.rows, card.value.id, scheduleId))
  {
    PayableIffChosen(db.cards, studentId, amount, listing, now);
    var card := Chosen(db.cards, listing, amount);
    if card.Some? && !HasMatch(db.rows, studentId, scheduleId) {
      RefusedIffTaken(db.rows, card.value, studentId, scheduleId, amount);
    }
  }

  /** The chosen card is usable, can pay, and no card that can pay expires strictly earlier. */
  lemma ChosenExpiresFirst(cards: Cards, studentId: Id, amount: int, listing: seq<Listed>, now: int)
    requires IsListing(cards, listing, studentId, now)
    requires Chosen(cards, listing, amount).Some?
    ensures var id := Chosen(cards, listing, amount).value.id;
      && Sufficient(cards, id, amount) && Usable(cards[id], studentId, now)
      && Chosen(cards, listing, amount).value.remaining == cards[id].remaining
      && forall other :: Sufficient(cards, other, amount) && Usable(cards[other], studentId, now)
           ==> cards[id].validTo <= cards[other].validTo
  {
    var card := Chosen(cards, listing, amount).value;
    ChosenIsFirst(cards, listing, amount);
    var i :| FirstSufficientAt(cards, listing, amount, i) && listing[i] == card;
    assert card in listing;
    forall other | Sufficient(cards, other, amount) && Usable(cards[other], studentId, now)
      ensures cards[card.id].validTo <= cards[other].validTo
    {
      var j :| 0 <= j < |listing| && listing[j] == Listed(other, cards[other].remaining);
      assert Sufficient(cards, listing[j].id, amount);
    }
  }

  /** Field by field: the ledger row of a check-in paid by this card. */
  predicate RecordsCharge(r: Row, cardId: Id, before: int, studentId: Id, scheduleId: Id, amount: int) {
    && r.membershipId == cardId && r.studentId == studentId && r.delta == -amount
    && r.reason == "CLASS_CHECK_IN" && r.key == "checkin:" + studentId + ":" + scheduleId
    && r.scheduleId == Some(scheduleId) && r.beforeRemaining == before && r.afterRemaining == before - amount
  }

  /** One card is debited, field by field, and no other is touched. */
  predicate OnlyDebits(cards: Cards, cardId: Id, amount: int, cards': Cards) {
    && cards'.Keys == cards.Keys && cardId in cards
    && (forall other :: other in cards && other != cardId ==> cards'[other] == cards[other])
    && var (card, card') := (cards[cardId], cards'[cardId]);
       && card.remaining >= amount && card'.remaining == card.remaining - amount
       && card'.version == card.version && card'.studentId == card.studentId && card'.status == card.status
       && card'.validFrom == card.validFrom && card'.validTo == card.validTo
  }

  /** One row is appended, and it records the charge. */
  predicate AppendsCharge(
    rows: seq<Row>, cardId: Id, before: int, studentId: Id, scheduleId: Id, amount: int, rows': seq<Row>)
  {
    && |rows'| == |rows| + 1 && rows'[..|rows|] == rows
    && RecordsCharge(rows'[|rows|], cardId, before, studentId, scheduleId, amount)
  }

  lemma ChargeOf(
    db: Tables, studentId: Id, scheduleId: Id, amount: int,
    earlier: seq<Row>, listing: seq<Listed>, card: Listed)
    requires Deduct(db, studentId, scheduleId, amount, earlier, listing).0 == Deducted
    requires Chosen(db.cards, listing, amount) == Some(card)
    ensures var db' := Deduct(db, studentId, scheduleId, amount, earlier, listing).1;
      && OnlyDebits(db.cards, card.id, amount, db'.cards)
      && AppendsCharge(db.rows, card.id, card.remaining, studentId, scheduleId, amount, db'.rows)
  {
  }

  /**
   * On up-to-date reads a successful deduction charges a card of the student that is active and in date, and
   * of those that can pay none expires earlier. It takes the full amount, leaves every other card alone, and
   * appends one row with the exact balances before and after.
   */
  lemma DeductionCharges(db: Tables, studentId: Id, scheduleId: Id, amount: int, listing: seq<Listed>, now: int, id: Id)
    requires IsListing(db.cards, listing, studentId, now)
    requires Deduct(db, studentId, scheduleId, amount, db.rows, listing).0 == Deducted
    requires Chosen(db.cards, listing, amount).Some? && Chosen(db.cards, listing, amount).value.id == id
    ensures var db' := Deduct(db, studentId, scheduleId, amount, db.rows, listing).1;
      && OnlyDebits(db.cards, id, amount, db'.cards)
      && AppendsCharge(db.rows, id, db.cards[id].remaining, studentId, scheduleId, amount, db'.rows)
      && db'.rows[|db.rows|].afterRemaining == db'.cards[id].remaining
      && db.cards[id].studentId == studentId && db.cards[id].status == Active
      && db.cards[id].validFrom <= now <= db.cards[id].validTo
  {
    ChosenExpiresFirst(db.cards, studentId, amount, listing, now);
    var card := Chosen(db.cards, listing, amount).value;
    ChargeOf(db, studentId, scheduleId, amount, db.rows, listing, card);
  }

  /** A row with the key, or a check-in row of this student at this schedule. */
  ghost predicate Recorded(rows: seq<Row>, studentId: Id, scheduleId: Id) {
    exists i :: 0 <= i < |rows| &&
      (|| rows[i].key == "checkin:" + studentId + ":" + scheduleId
       || (rows[i].scheduleId == Some(scheduleId) && rows[i].reason == "CLASS_CHECK_IN"
           && rows[i].studentId == studentId))
  }

  /** The loop stops here: the first listed card whose stored balance suffices. */
  ghost predicate StopsAt(cards: Cards, listing: seq<Listed>, amount: int, i: int) {
    && 0 <= i < |listing| && listing[i].id in cards && cards[listing[i].id].remaining >= amount
    && forall j :: 0 <= j < i && listing[j].id in cards ==> cards[listing[j].id].remaining < amount
  }

  /** A stored row already has the key, or already joins this card and this schedule. */
  ghost predicate IndexRefuses(rows: seq<Row>, key: string, cardId: Id, scheduleId: Option<Id>) {
    exists i :: 0 <= i < |rows| &&
      (rows[i].key == key
       || (rows[i].membershipId == cardId && rows[i].scheduleId.Some? && rows[i].scheduleId == scheduleId))
  }

  lemma IndexRefusesIff(rows: seq<Row>, row: Row)
    ensures Refused(rows, row) <==> IndexRefuses(rows, row.key, row.membershipId, row.scheduleId)
  {
    if IndexRefuses(rows, row.key, row.membershipId, row.scheduleId) {
      var i :| 0 <= i < |rows| &&
        (rows[i].key == row.key
         || (rows[i].membershipId == row.membershipId && rows[i].scheduleId.Some?
             && rows[i].scheduleId == row.scheduleId));
      assert Clash(rows[i], row);
    }
    if Refused(rows, row) {
      var i :| 0 <= i < |rows| && Clash(rows[i], row);
      assert rows[i].key == row.key || rows[i].membershipId == row.membershipId;
    }
  }

  lemma RecordedIff(rows: seq<Row>, studentId: Id, scheduleId: Id)
    ensures HasMatch(rows, studentId, scheduleId) <==> Recorded(rows, studentId, scheduleId)
  {
    if i :| 0 <= i < |rows| && Matches(rows[i], studentId, scheduleId) {
      assert rows[i].key == "checkin:" + studentId + ":" + scheduleId || rows[i].reason == "CLASS_CHECK_IN";
    }
    forall i | 0 <= i < |rows| && !Matches(rows[i], studentId, scheduleId)
      ensures rows[i].key != "checkin:" + studentId + ":" + scheduleId
      ensures !(rows[i].scheduleId == Some(scheduleId) && rows[i].reason == "CLASS_CHECK_IN"
                && rows[i].studentId == studentId)
    {
    }
  }

  /** What a deduction does and answers, given the rows and the cards its queries returned. */
  ghost predicate DeductEffect(
    db: Tables, studentId: Id, scheduleId: Id, amount: int, earlier: seq<Row>, listing: seq<Listed>,
    outcome: DeductOutcome, db': Tables)
  {
    var key := "checkin:" + studentId + ":" + scheduleId;
    if amount <= 0 then outcome == Insufficient && db' == db
    else if Recorded(earlier, studentId, scheduleId) then outcome == AlreadyDeducted && db' == db
    else
      && ((forall i :: !StopsAt(db.cards, listing, amount, i)) ==> outcome == Insufficient && db' == db)
      && forall i :: StopsAt(db.cards, listing, amount, i) ==>
           if IndexRefuses(db.rows, key, listing[i].id, Some(scheduleId))
           then outcome == (if Recorded(db.rows, studentId, scheduleId) then AlreadyDeducted else Failed) && db' == db
           else
             && outcome == Deducted && OnlyDebits(db.cards, listing[i].id, amount, db'.cards)
             && AppendsCharge(db.rows, listing[i].id, listing[i].remaining, studentId, scheduleId, amount, db'.rows)
  }

  lemma ChosenIffStops(cards: Cards, listing: seq<Listed>, amount: int)
    ensures Chosen(cards, listing, amount) == None <==> forall i :: !StopsAt(cards, listing, amount, i)
    ensures forall i :: StopsAt(cards, listing, amount, i) ==> Chosen(cards, listing, amount) == Some(listing[i])
  {
    ChosenIsFirst(cards, listing, amount);
    forall i ensures StopsAt(cards, listing, amount, i) <==> FirstSufficientAt(cards, listing, amount, i) {
    }
    forall i | StopsAt(cards, listing, amount, i) ensures Chosen(cards, listing, amount) == Some(listing[i]) {
      assert Sufficient(cards, listing[i].id, amount);
      var k :| FirstSufficientAt(cards, listing, amount, k) && listing[k] == Chosen(cards, listing, amount).value;
      assert k == i;
    }
  }

  /** Every deduction, whatever its queries returned, answers and does exactly this. */
  lemma DeductDoes(db: Tables, studentId: Id, scheduleId: Id, amount: int, earlier: seq<Row>, listing: seq<Listed>)
    ensures var (outcome, db') := Deduct(db, studentId, scheduleId, amount, earlier, listing);
      DeductEffect(db, studentId, scheduleId, amount, earlier, listing, outcome, db')
  {
    RecordedIff(earlier, studentId, scheduleId);
    RecordedIff(db.rows, studentId, scheduleId);
    ChosenIffStops(db.cards, listing, amount);
    forall i | StopsAt(db.cards, listing, amount, i)
      ensures var row := CheckInRow(listing[i], studentId, scheduleId, amount);
        && (Refused(db.rows, row)
            <==> IndexRefuses(db.rows, "checkin:" + studentId + ":" + scheduleId, listing[i].id, Some(scheduleId)))
    {
      IndexRefusesIff(db.rows, CheckInRow(listing[i], studentId, scheduleId, amount));
    }
    if Deduct(db, studentId, scheduleId, amount, earlier, listing).0 == Deducted {
      ChargeOf(db, studentId, scheduleId, amount, earlier, listing, Chosen(db.cards, listing, amount).value);
    }
  }

  /** Whatever was read, and whatever is not a success: both tables are as before. */
  lemma OnlyDeductedChanges(
    db: Tables, studentId: Id, scheduleId: Id, amount: int, earlier: seq<Row>, listing: seq<Listed>)
    ensures var r := Deduct(db, studentId, scheduleId, amount, earlier, listing);
      && (r.0 == Deducted <==> r.1 != db)
      && (UniqueRows(db.rows) ==> UniqueRows(r.1.rows))
      && (r.0 == Deducted ==> HasMatch(r.1.rows, studentId, scheduleId))
  {
    var r := Deduct(db, studentId, scheduleId, amount, earlier, listing);
    if r.0 == Deducted {
      assert |r.1.rows| == |db.rows| + 1;
      assert Matches(r.1.rows[|db.rows|], studentId, scheduleId);
    }
  }

  // -------------------------------------------------------- manual adjustment

  /** How the second read tells a short balance from a changed version. */
  predicate SeemsShort(again: Option<Card>, expectedVersion: int, delta: int) {
    delta <= 0 && again.Some? && again.value.version == expectedVersion && again.value.remaining < -delta
  }

  /**
   * What one adjustment transaction does. `read` is the card row its first query returned, and `again` the
   * one its second query returns when the update changed nothing.
   */
  function Adjust(
    db: Tables, id: Id, delta: int, reason: string, scheduleId: Option<Id>, uuid: string,
    read: Option<Card>, again: Option<Card>)
    : (AdjustOutcome, Tables)
  {
    if delta == 0 then (ZeroDelta, db)
    else if read.None? then (CardNotFound, db)
    else match (if id in db.cards then ApplyDelta(db.cards[id], read.value.version, delta) else None)
      case None => (if SeemsShort(again, read.value.version, delta) then NotEnough else Stale, db)
      case Some(card) =>
        var row := AdjustRow(id, read.value, delta, reason, scheduleId, uuid);
        if Refused(db.rows, row) then (RowRefused, db) else (Adjusted, Tables(db.cards[id := card], db.rows + [row]))
  }

  /**
   * The optimistic lock: an adjustment is applied exactly if the version is the one it read and the balance
   * suffices; then the balance moves by delta and the version by one. A second read of the current row names
   * the cause of a refusal exactly. A second read of the transaction's own snapshot sees its first read again:
   * it reports a short balance exactly if the balance read first was short, and a conflict otherwise.
   */
  lemma AdjustmentAppliedIff(
    db: Tables, id: Id, delta: int, reason: string, scheduleId: Option<Id>, uuid: string,
    read: Card, again: Option<Card>)
    requires delta != 0 && id in db.cards && db.cards[id].remaining >= 0 && read.remaining >= 0
    requires !Refused(db.rows, AdjustRow(id, read, delta, reason, scheduleId, uuid))
    ensures var (outcome, db') := Adjust(db, id, delta, reason, scheduleId, uuid, Some(read), again);
      var (card, applied) := (db.cards[id], outcome == Adjusted);
      && (applied <==> card.version == read.version && card.remaining + delta >= 0)
      && (applied ==>
            db'.cards == db.cards[id := card.(remaining := card.remaining + delta, version := read.version + 1)])
      && (!applied ==> db' == db && (outcome == NotEnough || outcome == Stale))
      && (again == Some(card) ==>
            && (outcome == NotEnough <==> card.version == read.version && card.remaining + delta < 0)
            && (outcome == Stale <==> card.version != read.version))
      && (again == Some(read) ==> (outcome == NotEnough <==> !applied && read.remaining + delta < 0))
  {
    if delta < 0 && db.cards[id].version == read.version {
      assert Decrement(db.cards[id], -delta, Some(read.version)).Some? <==> db.cards[id].remaining >= -delta;
    }
  }

  /** What an adjustment does and answers, given the card its first query and its second one returned. */
  ghost predicate AdjustEffect(
    db: Tables, id: Id, delta: int, reason: string, scheduleId: Option<Id>, uuid: string,
    read: Option<Card>, again: Option<Card>, outcome: AdjustOutcome, db': Tables)
  {
    var key := "adjust:" + id + ":" + uuid;
    var applies := read.Some? && id in db.cards && db.cards[id].version == read.value.version
      && (delta > 0 || db.cards[id].remaining + delta >= 0);
    && (outcome == ZeroDelta <==> delta == 0)
    && (outcome == CardNotFound <==> delta != 0 && read == None)
    && (outcome == RowRefused <==> delta != 0 && applies && IndexRefuses(db.rows, key, id, scheduleId))
    && (outcome == Adjusted <==> delta != 0 && applies && !IndexRefuses(db.rows, key, id, scheduleId))
    && (outcome == NotEnough <==>
          && delta < 0 && read.Some? && !applies && again.Some?
          && again.value.version == read.value.version && again.value.remaining + delta < 0)
    && (outcome != Adjusted ==> db' == db)
    && (outcome == Adjusted ==>
          && db'.cards.Keys == db.cards.Keys
          && (forall other :: other in db.cards && other != id ==> db'.cards[other] == db.cards[other])
          && (var (card, card') := (db.cards[id], db'.cards[id]);
              && card'.remaining == card.remaining + delta && card'.version == card.version + 1
              && card'.studentId == card.studentId && card'.status == card.status
              && card'.validFrom == card.validFrom && card'.validTo == card.validTo)
          && |db'.rows| == |db.rows| + 1 && db'.rows[..|db.rows|] == db.rows
          && var r := db'.rows[|db.rows|];
             && r.membershipId == id && r.studentId == read.value.studentId && r.delta == delta && r.reason == reason
             && r.key == key && r.scheduleId == scheduleId
             && r.beforeRemaining == read.value.remaining && r.afterRemaining == read.value.remaining + delta)
  }

  /** Every adjustment, whatever its queries returned, answers and does exactly this. */
  lemma AdjustDoes(
    db: Tables, id: Id, delta: int, reason: string, scheduleId: Option<Id>, uuid: string,
    read: Option<Card>, again: Option<Card>)
    ensures var (outcome, db') := Adjust(db, id, delta, reason, scheduleId, uuid, read, again);
      AdjustEffect(db, id, delta, reason, scheduleId, uuid, read, again, outcome, db')
  {
    if read.Some? {
      IndexRefusesIff(db.rows, AdjustRow(id, read.value, delta, reason, scheduleId, uuid));
    }
  }

  // ------------------------------------------- adjustments against check-ins

  const TEN: Card := Card("student", 10, 0, Active, 0, 100)
  const GIFT: Row := Row("a", "student", 1, "gift", AdjustKey("a", "uuid"), Some("schedule"), 10, 11)

  function TwoCards(a: Card): Cards {
    map["a" := a, "b" := TEN.(validTo := 200)]
  }

  lemma GiftIsNoMatch()
    ensures !HasMatch([GIFT], "student", "schedule")
  {
    KeyKindsDisjoint("student", "schedule", "a", "uuid");
    assert GIFT.reason[0] != CHECKIN_REASON[0];
  }

  lemma GiftIsGiven()
    ensures Adjust(Tables(TwoCards(TEN), []), "a", 1, "gift", Some("schedule"), "uuid", Some(TEN), None)
         == (Adjusted, Tables(TwoCards(TEN.(remaining := 11, version := 1)), [GIFT]))
  {
    assert TwoCards(TEN)["a" := TEN.(remaining := 11, version := 1)] == TwoCards(TEN.(remaining := 11, version := 1));
    assert [] + [GIFT] == [GIFT];
  }

  /**
   * The failure is real: an adjustment of the first card, made for this schedule, makes the check-in fail
   * although the second card could pay and nothing was charged for the schedule.
   */
  lemma AdjustedCardBlocksCheckIn()
    ensures var (outcome, db) :=
        Adjust(Tables(TwoCards(TEN), []), "a", 1, "gift", Some("schedule"), "uuid", Some(TEN), None);
      var listing := [Listed("a", 11), Listed("b", 10)];
      && outcome == Adjusted && IsListing(db.cards, listing, "student", 50)
      && Deduct(db, "student", "schedule", 2, db.rows, listing) == (Failed, db)
      && Deduct(db, "student", "schedule", 2, db.rows, listing[1..]).0 == Deducted
  {
    GiftIsGiven(); GiftIsNoMatch();
    var db := Tables(TwoCards(TEN.(remaining := 11, version := 1)), [GIFT]);
    var listing := [Listed("a", 11), Listed("b", 10)];
    assert db.rows[0] == GIFT && ScheduleTaken(db.rows, "a", "schedule");
    RefusedIffTaken(db.rows, listing[0], "student", "schedule", 2);
    RefusedIffTaken(db.rows, listing[1], "student", "schedule", 2);
    assert listing[1..] == [listing[1]];
  }

  /**
   * A reason is free text: an adjustment for a schedule whose reason is the check-in reason makes every later
   * check-in of the card's owner at that schedule answer "already deducted", and none is charged.
   */
  lemma AdjustmentPosesAsCheckIn(
      db: Tables, id: Id, delta: int, scheduleId: Id, uuid: string, read: Card, amount: int, listing: seq<Listed>)
    requires amount > 0
    requires Adjust(db, id, delta, CHECKIN_REASON, Some(scheduleId), uuid, Some(read), None).0 == Adjusted
    ensures var db' := Adjust(db, id, delta, CHECKIN_REASON, Some(scheduleId), uuid, Some(read), None).1;
      Deduct(db', read.studentId, scheduleId, amount, db'.rows, listing) == (AlreadyDeducted, db')
  {
    var db' := Adjust(db, id, delta, CHECKIN_REASON, Some(scheduleId), uuid, Some(read), None).1;
    assert Matches(db'.rows[|db'.rows| - 1], read.studentId, scheduleId);
  }

  /** Such an adjustment exists: a gift of one lesson makes the lesson of ten free. */
  lemma GiftMakesLessonFree()
    ensures var gift :=
      Adjust(Tables(map["a" := TEN], []), "a", 1, CHECKIN_REASON, Some("schedule"), "uuid", Some(TEN), None);
      && gift.0 == Adjusted && gift.1.cards["a"].remaining == 11
      && Deduct(gift.1, "student", "schedule", 10, gift.1.rows, [Listed("a", 11)]) == (AlreadyDeducted, gift.1)
  {
    AdjustmentPosesAsCheckIn(Tables(map["a" := TEN], []), "a", 1, "schedule", "uuid", TEN, 10, [Listed("a", 11)]);
  }

  // ------------------------------------------------------------ shared keys

  /** After a debit, a check-in whose key reads the same is answered "already deducted", whoever's it is. */
  lemma SharedKeyIsFree(
    db: Tables, s1: Id, c1: Id, amount1: int, earlier: seq<Row>, listing1: seq<Listed>,
    s2: Id, c2: Id, amount2: int, listing2: seq<Listed>)
    requires CheckInKey(s1, c1) == CheckInKey(s2, c2) && amount2 > 0
    requires Deduct(db, s1, c1, amount1, earlier, listing1).0 == Deducted
    ensures var db' := Deduct(db, s1, c1, amount1, earlier, listing1).1;
      Deduct(db', s2, c2, amount2, db'.rows, listing2) == (AlreadyDeducted, db')
  {
    var db' := Deduct(db, s1, c1, amount1, earlier, listing1).1;
    assert Matches(db'.rows[|db'.rows| - 1], s2, c2);
  }
}
