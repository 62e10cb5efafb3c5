/**
 * The lesson ledger in the form the services run it: guarded updates in place, a loop over cards, and
 * a compensating increment when the ledger refuses the row.
 */
module LedgerService {
  import opened Common
  import opened Ledger

  /** The increment undoes the decrement exactly. */
  lemma CompensationRestores(cards: Cards, id: Id, amount: int)
    requires id in cards && Decrement(cards[id], amount, None).Some?
    ensures var after := cards[id := Decrement(cards[id], amount, None).value];
      after[id := after[id].(remaining := after[id].remaining + amount)] == cards
  {
  }

  class MembershipStore {
    var cards: Cards
    var rows: seq<Row>

    constructor (cards: Cards)
      ensures this.cards == cards && rows == []
    {
      this.cards, rows := cards, [];
    }

    ghost function State(): Tables
      reads this
    {
      Tables(cards, rows)
    }

    /** `version` carries the optimistic lock of a manual adjustment; check-in passes none. */
    method TryDecrementMembershipLessons(id: Id, amount: int, version: Option<int>) returns (ok: bool)
      modifies this`cards
      ensures ok <==> id in old(cards) && Decrement(old(cards)[id], amount, version).Some?
      ensures cards == if ok then old(cards)[id := Decrement(old(cards)[id], amount, version).value] else old(cards)
      ensures ok <==> amount > 0 && id in old(cards) && old(cards)[id].remaining >= amount
                      && (version == None || version == Some(old(cards)[id].version))
      ensures ok && version == None ==> OnlyDebits(old(cards), id, amount, cards)
      ensures ok && version.Some? ==>
        var card := old(cards)[id];
        cards == old(cards)[id := card.(remaining := card.remaining - amount, version := version.value + 1)]
    {
      if amount <= 0 {
        return false;
      }
      if id in cards && cards[id].remaining >= amount && (version == None || version == Some(cards[id].version)) {
        var card := cards[id].(remaining := cards[id].remaining - amount);
        cards := cards[id := if version == None then card else card.(version := card.version + 1)];
        return true;
      }
      return false;
    }

    method IncrementMembershipLessons(id: Id, amount: int)
      modifies this`cards
      ensures cards == if amount > 0 && id in old(cards)
        then old(cards)[id := old(cards)[id].(remaining := old(cards)[id].remaining + amount)] else old(cards)
    {
      if amount <= 0 {
        return;
      }
      if id in cards {
        cards := cards[id := cards[id].(remaining := cards[id].remaining + amount)];
      }
    }

    /** INSERT under the two unique indexes. */
    method CreateLessonTransaction(row: Row) returns (ok: bool)
      modifies this`rows
      ensures ok <==> !Refused(old(rows), row)
      ensures ok <==> !IndexRefuses(old(rows), row.key, row.membershipId, row.scheduleId)
      ensures rows == if ok then old(rows) + [row] else old(rows)
      ensures UniqueRows(old(rows)) ==> UniqueRows(rows)
    {
      IndexRefusesIff(rows, row);
      ok := !Refused(rows, row);
      if ok {
        rows := rows + [row];
      }
    }

    /**
     * The deduction of a check-in. `earlier` and `listing` are what the two opening queries returned;
     * nothing is assumed about how current they are.
     */
    method DeductLessonsForCheckIn(
      studentId: Id, scheduleId: Id, deductAmount: int, earlier: seq<Row>, listing: seq<Listed>)
      returns (outcome: DeductOutcome)
      modifies this
      ensures (outcome, State()) == Deduct(old(State()), studentId, scheduleId, deductAmount, earlier, listing)
      ensures DeductEffect(old(State()), studentId, scheduleId, deductAmount, earlier, listing, outcome, State())
      ensures outcome == Deducted || State() == old(State())
    {
      DeductDoes(State(), studentId, scheduleId, deductAmount, earlier, listing);
      if deductAmount <= 0 {
        return Insufficient;
      }
      if HasMatch(earlier, studentId, scheduleId) {
        return AlreadyDeducted;
      }
      ghost var all := Chosen(cards, listing, deductAmount);
      for i := 0 to |listing|
        invariant State() == old(State())
        invariant Chosen(cards, listing[i..], deductAmount) == all
      {
        var card := listing[i];
        assert listing[i..][0] == card && listing[i..][1..] == listing[i + 1..];
        var decremented := TryDecrementMembershipLessons(card.id, deductAmount, None);
        if decremented {
          var created := CreateLessonTransaction(CheckInRow(card, studentId, scheduleId, deductAmount));
          if created {
            return Deducted;
          }
          IncrementMembershipLessons(card.id, deductAmount);
          CompensationRestores(old(cards), card.id, deductAmount);
          if HasMatch(rows, studentId, scheduleId) {
            return AlreadyDeducted;
          }
          return Failed;
        }
      }
      return Insufficient;
    }

    /** The versioned update and, when it changes nothing, the second read (`again`) that is to tell why. */
    method ApplyMembershipLessonDelta(id: Id, expectedVersion: int, delta: int, again: Option<Card>)
      returns (r: DeltaResult)
      modifies this`cards
      ensures r == Applied <==> id in old(cards) && ApplyDelta(old(cards)[id], expectedVersion, delta).Some?
      ensures r == Applied ==> cards == old(cards)[id := ApplyDelta(old(cards)[id], expectedVersion, delta).value]
      ensures r != Applied ==> cards == old(cards)
      ensures r == TooFewLessons <==> r != Applied && SeemsShort(again, expectedVersion, delta)
    {
      if delta > 0 {
        if id in cards && cards[id].version == expectedVersion {
          cards := cards[id := cards[id].(remaining := cards[id].remaining + delta, version := cards[id].version + 1)];
          return Applied;
        }
        return VersionConflict;
      }
      var amount := -delta;
      var decremented := TryDecrementMembershipLessons(id, amount, Some(expectedVersion));
      if decremented {
        return Applied;
      }
      if again.None? || again.value.version != expectedVersion {
        return VersionConflict;
      }
      if again.value.remaining < amount {
        return TooFewLessons;
      }
      return VersionConflict;
    }

    /**
     * One adjustment transaction. `read` is the card row its first query returned, `again` what the read after
     * a failed update returns; every refusal rolls the transaction back.
     */
    method AdjustLessons(
        id: Id, delta: int, reason: string, scheduleId: Option<Id>, uuid: string,
        read: Option<Card>, again: Option<Card>)
      returns (outcome: AdjustOutcome)
      modifies this
      ensures (outcome, State()) == Adjust(old(State()), id, delta, reason, scheduleId, uuid, read, again)
      ensures AdjustEffect(old(State()), id, delta, reason, scheduleId, uuid, read, again, outcome, State())
      ensures outcome == Adjusted || State() == old(State())
    {
      AdjustDoes(State(), id, delta, reason, scheduleId, uuid, read, again);
      if delta == 0 {
        return ZeroDelta;
      }
      if read.None? {
        return CardNotFound;
      }
      var savedCards := cards;
      var applied := ApplyMembershipLessonDelta(id, read.value.version, delta, again);
      if applied != Applied {
        return if applied == TooFewLessons then NotEnough else Stale;
      }
      var created := CreateLessonTransaction(AdjustRow(id, read.value, delta, reason, scheduleId, uuid));
      if !created {
        cards := savedCards;
        return RowRefused;
      }
      return Adjusted;
    }
  }
}
