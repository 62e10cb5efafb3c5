/**
 * The two views of a check-in agree: a transaction that meets no other runs its single calls to
 * exactly the tables the deduction function computes.
 */
module LedgerRefinement {
  import opened Common
  import Runs
  import opened Ledger
  import opened LedgerRuns

  function Tries(t: Id, n: nat): seq<Action>
    decreases n
  {
    if n == 0 then [] else [TryNextCard(t)] + Tries(t, n - 1)
  }

  function Opening(t: Id, kind: Kind, listing: seq<Listed>): seq<Action> {
    [Begin(t, kind), FindEarlierRow(t), FindCards(t, listing)]
  }

  function Ending(t: Id): seq<Action> {
    [InsertRow(t), Compensate(t), FindWinner(t)]
  }

  /** All calls of one check-in before its commit; a call whose turn never comes does nothing. */
  function Calls(t: Id, kind: Kind, listing: seq<Listed>): seq<Action> {
    Opening(t, kind, listing) + Tries(t, |listing| + 1) + Ending(t)
  }

  /** What the function returns, seen from the transaction it leaves: none is left when it throws. */
  function Answer(w: World, t: Id): DeductOutcome {
    if t !in w.open then Failed
    else match w.open[t].pc
      case Logged(_) => Deducted
      case NothingToDo(outcome) => outcome
      case _ => Failed
  }

  /** The answer and, after the commit, the tables are what the deduction function computes. */
  ghost predicate Ends(before: World, last: World, t: Id, kind: Kind, listing: seq<Listed>)
    requires kind.CheckIn?
  {
    var w' := Do(last, Commit(t));
    && w'.open == map[]
    && (Answer(last, t), Tables(w'.cards, w'.rows))
       == Deduct(Tables(before.cards, before.rows), kind.studentId, kind.scheduleId, kind.amount, before.rows, listing)
  }

  lemma {:induction false} TriesIdle(w: World, t: Id, n: nat)
    requires t in w.open && !w.open[t].pc.Trying?
    ensures Run(w, Tries(t, n)) == w
    decreases n
  {
    if n > 0 {
      TriesIdle(w, t, n - 1);
    }
  }

  function AfterTries(w: World, t: Id, tx: Tx, listing: seq<Listed>): World
    requires tx.kind.CheckIn? && tx.kind.amount > 0
  {
    match Chosen(w.cards, listing, tx.kind.amount)
    case None => Put(w, t, tx.(pc := NothingToDo(Insufficient)))
    case Some(card) =>
      Put(w, t, tx.(pc := Debited(card),
                    draft := Some((card.id, Decrement(w.cards[card.id], tx.kind.amount, None).value))))
  }

  lemma SoloTry(w: World, t: Id, tx: Tx, listing: seq<Listed>)
    requires tx.kind.CheckIn? && tx.kind.amount > 0
    requires w.open == map[t := tx] && tx.pc == Trying(listing)
    ensures Do(w, TryNextCard(t)) ==
      if listing != [] && !Sufficient(w.cards, listing[0].id, tx.kind.amount)
      then Put(w, t, tx.(pc := Trying(listing[1..]))) else AfterTries(w, t, tx, listing)
  {
    assert listing != [] ==> !Locked(w, t, listing[0].id);
  }

  /** Trying the cards in turn stops at the first one that can pay. */
  lemma {:induction false} TriesStopAtChosen(w: World, t: Id, tx: Tx, listing: seq<Listed>, n: nat)
    requires tx.kind.CheckIn? && tx.kind.amount > 0 && n > |listing|
    requires w.open == map[t := tx] && tx.pc == Trying(listing)
    ensures Run(w, Tries(t, n)) == AfterTries(w, t, tx, listing)
    decreases |listing|
  {
    var w' := Do(w, TryNextCard(t));
    assert Run(w, Tries(t, n)) == Run(w', Tries(t, n - 1));
    SoloTry(w, t, tx, listing);
    if listing != [] && !Sufficient(w.cards, listing[0].id, tx.kind.amount) {
      var next := tx.(pc := Trying(listing[1..]));
      TriesStopAtChosen(w', t, next, listing[1..], n - 1);
      SameAfterTries(w, w', t, tx, next, listing);
    } else {
      TriesIdle(w', t, n - 1);
    }
  }

  lemma SameAfterTries(w: World, w': World, t: Id, tx: Tx, next: Tx, listing: seq<Listed>)
    requires tx.kind.CheckIn? && tx.kind.amount > 0 && next == tx.(pc := next.pc) && w' == Put(w, t, next)
    requires listing != [] && !Sufficient(w.cards, listing[0].id, tx.kind.amount)
    ensures AfterTries(w', t, next, listing[1..]) == AfterTries(w, t, tx, listing)
  {
    assert forall tx' :: Put(w', t, tx') == Put(w, t, tx');
  }

  lemma OpeningCalls(w: World, t: Id, kind: Kind, listing: seq<Listed>)
    requires w.open == map[] && kind.CheckIn?
    ensures var w' := Run(w, Opening(t, kind, listing));
      w' == Put(w, t, Tx(kind, if kind.amount <= 0 then NothingToDo(Insufficient)
                               else if HasMatch(w.rows, kind.studentId, kind.scheduleId)
                               then NothingToDo(AlreadyDeducted)
                               else Trying(listing), None, None))
  {
    Runs.Three(Do, w, Begin(t, kind), FindEarlierRow(t), FindCards(t, listing));
  }

  lemma RunEnding(w: World, t: Id)
    ensures Run(w, Ending(t)) == Do(Do(Do(w, InsertRow(t)), Compensate(t)), FindWinner(t))
  {
    Runs.Three(Do, w, InsertRow(t), Compensate(t), FindWinner(t));
  }

  /** An answered check-in commits without a trace. */
  lemma EndingAnswered(w: World, t: Id, tx: Tx)
    requires w.open == map[t := tx] && tx.pc.NothingToDo? && tx.kind.CheckIn? && tx.row.None? && tx.draft.None?
    ensures Run(w, Ending(t)) == w && Answer(w, t) == tx.pc.outcome
    ensures var w' := Do(w, Commit(t));
      w'.cards == w.cards && w'.rows == w.rows && w'.open == map[]
  {
    RunEnding(w, t);
  }

  predicate PaidBy(w: World, t: Id, tx: Tx, card: Listed) {
    && tx.kind.CheckIn? && tx.kind.amount > 0 && tx.pc == Debited(card) && tx.row.None?
    && w.open == map[t := tx] && Sufficient(w.cards, card.id, tx.kind.amount)
    && tx.draft == Some((card.id, Decrement(w.cards[card.id], tx.kind.amount, None).value))
  }

  lemma EndingLogged(w: World, t: Id, tx: Tx, card: Listed)
    requires PaidBy(w, t, tx, card)
    requires !Refused(w.rows, CheckInRow(card, tx.kind.studentId, tx.kind.scheduleId, tx.kind.amount))
    ensures var last := Run(w, Ending(t));
      var w' := Do(last, Commit(t));
      && Answer(last, t) == Deducted
      && w'.open == map[] && w'.cards == w.cards[card.id := tx.draft.value.1]
      && w'.rows == w.rows + [CheckInRow(card, tx.kind.studentId, tx.kind.scheduleId, tx.kind.amount)]
  {
    RunEnding(w, t);
    var row := CheckInRow(card, tx.kind.studentId, tx.kind.scheduleId, tx.kind.amount);
    assert !RowPending(w, t, row);
    var logged := Put(w, t, tx.(pc := Logged(None), row := Some(row)));
    assert Do(w, InsertRow(t)) == logged;
    assert Do(logged, Compensate(t)) == logged && Do(logged, FindWinner(t)) == logged;
  }

  lemma RefusedRowIsUndone(w: World, t: Id, tx: Tx, card: Listed)
    requires PaidBy(w, t, tx, card)
    requires Refused(w.rows, CheckInRow(card, tx.kind.studentId, tx.kind.scheduleId, tx.kind.amount))
    ensures Do(Do(w, InsertRow(t)), Compensate(t))
         == Put(w, t, tx.(pc := Compensated, draft := Some((card.id, w.cards[card.id]))))
  {
    assert !RowPending(w, t, CheckInRow(card, tx.kind.studentId, tx.kind.scheduleId, tx.kind.amount));
    assert Do(w, InsertRow(t)) == Put(w, t, tx.(pc := RowClashed(card)));
  }

  lemma EndingUndone(w: World, t: Id, tx: Tx, card: Listed)
    requires PaidBy(w, t, tx, card)
    requires Refused(w.rows, CheckInRow(card, tx.kind.studentId, tx.kind.scheduleId, tx.kind.amount))
    ensures var last := Run(w, Ending(t));
      var w' := Do(last, Commit(t));
      && Answer(last, t)
         == (if HasMatch(w.rows, tx.kind.studentId, tx.kind.scheduleId) then AlreadyDeducted else Failed)
      && w'.open == map[] && w'.cards == w.cards && w'.rows == w.rows
  {
    RunEnding(w, t);
    RefusedRowIsUndone(w, t, tx, card);
    assert w.cards[card.id := w.cards[card.id]] == w.cards;
  }

  /** Once the cards have been tried, the remaining calls end as the deduction does. */
  lemma EndingIsDeduct(w: World, t: Id, tx: Tx, listing: seq<Listed>)
    requires w.open == map[t := tx] && tx.pc == Trying(listing) && tx.row.None? && tx.draft.None?
    requires tx.kind.CheckIn? && tx.kind.amount > 0 && !HasMatch(w.rows, tx.kind.studentId, tx.kind.scheduleId)
    ensures Ends(w, Run(AfterTries(w, t, tx, listing), Ending(t)), t, tx.kind, listing)
  {
    var w2 := AfterTries(w, t, tx, listing);
    var tx2 := w2.open[t];
    match Chosen(w.cards, listing, tx.kind.amount)
    case None => EndingAnswered(w2, t, tx2);
    case Some(card) =>
      assert PaidBy(w2, t, tx2, card);
      if Refused(w.rows, CheckInRow(card, tx.kind.studentId, tx.kind.scheduleId, tx.kind.amount)) {
        EndingUndone(w2, t, tx2, card);
      } else {
        EndingLogged(w2, t, tx2, card);
      }
  }

  lemma CallsInParts(w: World, t: Id, kind: Kind, listing: seq<Listed>)
    ensures Run(w, Calls(t, kind, listing))
         == Run(Run(Run(w, Opening(t, kind, listing)), Tries(t, |listing| + 1)), Ending(t))
  {
    Runs.Append(Do, w, Opening(t, kind, listing) + Tries(t, |listing| + 1), Ending(t));
    Runs.Append(Do, w, Opening(t, kind, listing), Tries(t, |listing| + 1));
  }

  /**
   * A check-in that meets no other transaction gives the answer, and after its commit leaves the tables, that
   * the deduction function computes.
   */
  lemma SoloCheckInIsDeduct(w: World, t: Id, kind: Kind, listing: seq<Listed>)
    requires w.open == map[] && kind.CheckIn?
    ensures Ends(w, Run(w, Calls(t, kind, listing)), t, kind, listing)
  {
    CallsInParts(w, t, kind, listing);
    OpeningCalls(w, t, kind, listing);
    var w1 := Run(w, Opening(t, kind, listing));
    var tx := w1.open[t];
    assert w1.open == map[t := tx];
    if tx.pc.Trying? {
      TriesStopAtChosen(w1, t, tx, listing, |listing| + 1);
      EndingIsDeduct(w1, t, tx, listing);
    } else {
      TriesIdle(w1, t, |listing| + 1);
      EndingAnswered(w1, t, tx);
    }
  }

  // ------------------------------------------------------------ adjustments

  /** All calls of one adjustment before its commit. */
  function AdjustmentCalls(t: Id, kind: Kind): seq<Action> {
    [Begin(t, kind), ReadCard(t), ChangeBalance(t), InsertRow(t)]
  }

  function Found(cards: Cards, id: Id): Option<Card> {
    if id in cards then Some(cards[id]) else None
  }

  /** What the adjustment function computes from a current read. */
  function Expected(w: World, kind: Kind): (AdjustOutcome, Tables)
    requires kind.Adjustment?
  {
    var read := Found(w.cards, kind.cardId);
    Adjust(Tables(w.cards, w.rows), kind.cardId, kind.delta, kind.reason, kind.forSchedule, kind.uuid, read, read)
  }

  lemma SoloAdjustmentReads(w: World, t: Id, kind: Kind)
    requires w.open == map[] && kind.Adjustment?
    ensures var w2 := Do(Do(w, Begin(t, kind)), ReadCard(t));
      if kind.cardId in w.cards && kind.delta != 0
      then w2 == Put(w, t, Tx(kind, CardRead(w.cards[kind.cardId]), None, None)) else w2 == w
  {
    var started := Put(w, t, Tx(kind, Started, None, None));
    assert Drop(started, t) == w;
  }

  lemma SoloAdjustmentWrites(w: World, t: Id, kind: Kind)
    requires w.open == map[] && kind.Adjustment? && kind.cardId in w.cards && kind.delta != 0
    ensures var read := w.cards[kind.cardId];
      var last := Do(Do(Put(w, t, Tx(kind, CardRead(read), None, None)), ChangeBalance(t)), InsertRow(t));
      if Expected(w, kind).0 != Adjusted then last == w
      else
        var row := AdjustRow(kind.cardId, read, kind.delta, kind.reason, kind.forSchedule, kind.uuid);
        var changed := ApplyDelta(read, read.version, kind.delta).value;
        && last == Put(w, t, Tx(kind, Logged(Some(read)), Some((kind.cardId, changed)), Some(row)))
        && Expected(w, kind).1 == Tables(w.cards[kind.cardId := changed], w.rows + [row])
  {
    var read := w.cards[kind.cardId];
    var w2 := Put(w, t, Tx(kind, CardRead(read), None, None));
    assert !Locked(w2, t, kind.cardId);
    assert Drop(w2, t) == w;
    if ApplyDelta(read, read.version, kind.delta).Some? {
      var changed := ApplyDelta(read, read.version, kind.delta).value;
      var w3 := Put(w, t, Tx(kind, Changed(read), Some((kind.cardId, changed)), None));
      assert Do(w2, ChangeBalance(t)) == w3;
      assert !RowPending(w3, t, RowToInsert(w3.open[t]));
      assert Drop(w3, t) == w;
    }
  }

  /**
   * An adjustment that meets no other transaction reaches its commit exactly if the adjustment function applies
   * it, and leaves the tables that function computes; a commit adds the version it read to the history.
   */
  lemma SoloAdjustmentIsAdjust(w: World, t: Id, kind: Kind)
    requires w.open == map[] && kind.Adjustment?
    ensures var last := Run(w, AdjustmentCalls(t, kind));
      var w' := Do(last, Commit(t));
      var (outcome, db) := Expected(w, kind);
      && (t in last.open <==> outcome == Adjusted)
      && w'.open == map[] && Tables(w'.cards, w'.rows) == db
      && w'.history
         == if outcome == Adjusted then w.history + [(kind.cardId, w.cards[kind.cardId].version)] else w.history
  {
    Runs.Four(Do, w, Begin(t, kind), ReadCard(t), ChangeBalance(t), InsertRow(t));
    SoloAdjustmentReads(w, t, kind);
    if kind.cardId in w.cards && kind.delta != 0 {
      SoloAdjustmentWrites(w, t, kind);
    }
  }
}
