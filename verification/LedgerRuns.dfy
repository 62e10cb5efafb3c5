/**
 * Check-ins and manual adjustments interleaved call by call, with no Redis lock.
 *
 * The database is modelled as InnoDB runs these transactions: an UPDATE takes the row's lock until the
 * transaction ends, so another transaction's UPDATE of that card waits (the step does nothing yet); an
 * INSERT waits for an open transaction that holds a clashing index entry; queries see committed data;
 * a refused INSERT does not end its transaction; rolling back drops everything the transaction did.
 */
module LedgerRuns {
  import opened Common
  import Runs
  import opened BusinessKeys
  import opened Ledger

  datatype Kind =
    | CheckIn(studentId: Id, scheduleId: Id, amount: int)
    | Adjustment(cardId: Id, delta: int, reason: string, forSchedule: Option<Id>, uuid: string)

  /** Where a transaction stands between its calls. */
  datatype Pc =
    | Started
    | NoEarlierRow                          // check-in: the first query found nothing
    | Trying(listing: seq<Listed>)          // check-in: cards still to try
    | Debited(card: Listed)                 // check-in: decremented, ledger row not inserted yet
    | RowClashed(card: Listed)              // check-in: the unique index refused the row
    | Compensated                           // check-in: the decrement is undone
    | CardRead(read: Card)                  // adjustment: read the card
    | Changed(read: Card)                   // adjustment: balance moved, ledger row not inserted yet
    | Logged(seen: Option<Card>)            // the ledger row is inserted
    | NothingToDo(outcome: DeductOutcome)   // check-in answered without a debit

  /** `draft` is the uncommitted value of the one card the transaction has locked. */
  datatype Tx = Tx(kind: Kind, pc: Pc, draft: Option<(Id, Card)>, row: Option<Row>)

  /**
   * `cards` and `rows` are committed. `opening` and `history` only record: each card's first balance,
   * and (card, version read) for every committed adjustment in commit order.
   */
  datatype World = World(
    cards: Cards, rows: seq<Row>, open: map<Id, Tx>, opening: map<Id, int>, history: seq<(Id, int)>)

  const EMPTY: World := World(map[], [], map[], map[], [])

  datatype Action =
    | CreateCard(id: Id, card: Card)
    | Begin(tx: Id, kind: Kind)
    | FindEarlierRow(tx: Id)
    | FindCards(tx: Id, listing: seq<Listed>)
    | TryNextCard(tx: Id)
    | InsertRow(tx: Id)
    | Compensate(tx: Id)
    | FindWinner(tx: Id)
    | ReadCard(tx: Id)
    | ChangeBalance(tx: Id)
    | Commit(tx: Id)
    | Rollback(tx: Id)

  // -------------------------------------------------------------------- steps

  /** Another open transaction has changed this card. */
  predicate Locked(w: World, t: Id, id: Id) {
    exists u :: u in w.open && u != t && w.open[u].draft.Some? && w.open[u].draft.value.0 == id
  }

  /** Another open transaction has inserted a clashing row. */
  predicate RowPending(w: World, t: Id, row: Row) {
    exists u :: u in w.open && u != t && w.open[u].row.Some? && Clash(w.open[u].row.value, row)
  }

  function Put(w: World, t: Id, tx: Tx): World {
    w.(open := w.open[t := tx])
  }

  function Drop(w: World, t: Id): World {
    w.(open := w.open - {t})
  }

  function DoTryNextCard(w: World, t: Id, tx: Tx): World
    requires tx.kind.CheckIn? && tx.pc.Trying?
  {
    if tx.pc.listing == [] then Put(w, t, tx.(pc := NothingToDo(Insufficient)))
    else
      var card := tx.pc.listing[0];
      if Locked(w, t, card.id) then w
      else if card.id in w.cards && Decrement(w.cards[card.id], tx.kind.amount, None).Some? then
        Put(w, t, tx.(pc := Debited(card),
                      draft := Some((card.id, Decrement(w.cards[card.id], tx.kind.amount, None).value))))
      else Put(w, t, tx.(pc := Trying(tx.pc.listing[1..])))
  }

  function RowToInsert(tx: Tx): Row
    requires (tx.kind.CheckIn? && tx.pc.Debited?) || (tx.kind.Adjustment? && tx.pc.Changed?)
  {
    match tx.kind
    case CheckIn(studentId, scheduleId, amount) => CheckInRow(tx.pc.card, studentId, scheduleId, amount)
    case Adjustment(id, delta, reason, scheduleId, uuid) => AdjustRow(id, tx.pc.read, delta, reason, scheduleId, uuid)
  }

  function DoInsertRow(w: World, t: Id, tx: Tx): World
    requires (tx.kind.CheckIn? && tx.pc.Debited?) || (tx.kind.Adjustment? && tx.pc.Changed?)
  {
    var row := RowToInsert(tx);
    if RowPending(w, t, row) then w
    else if !Refused(w.rows, row) then
      Put(w, t, tx.(pc := Logged(if tx.pc.Changed? then Some(tx.pc.read) else None), row := Some(row)))
    else if tx.kind.CheckIn? then Put(w, t, tx.(pc := RowClashed(tx.pc.card)))
    else Drop(w, t)
  }

  /** Calls that change no locked card but the transaction's own, and insert nothing. */
  predicate Quiet(a: Action) {
    a.FindEarlierRow? || a.FindCards? || a.Compensate? || a.FindWinner? || a.ReadCard?
  }

  predicate Enabled(tx: Tx, a: Action) {
    match a
    case FindEarlierRow(_) => tx.kind.CheckIn? && tx.pc.Started?
    case FindCards(_, _) => tx.kind.CheckIn? && tx.pc.NoEarlierRow?
    case Compensate(_) => tx.kind.CheckIn? && tx.pc.RowClashed? && tx.draft.Some?
    case FindWinner(_) => tx.kind.CheckIn? && tx.pc.Compensated?
    case ReadCard(_) => tx.kind.Adjustment? && tx.pc.Started?
    case TryNextCard(_) => tx.kind.CheckIn? && tx.pc.Trying?
    case InsertRow(_) => (tx.kind.CheckIn? && tx.pc.Debited?) || (tx.kind.Adjustment? && tx.pc.Changed?)
    case ChangeBalance(_) => tx.kind.Adjustment? && tx.pc.CardRead?
    case Commit(_) => tx.pc.Logged? || tx.pc.NothingToDo?
    case Rollback(_) => true
    case _ => false
  }

  /** A quiet call's effect on its own transaction; none means the transaction rolls back. */
  function Move(w: World, tx: Tx, a: Action): Option<Tx>
    requires Quiet(a) && Enabled(tx, a)
  {
    match a
    case FindEarlierRow(_) =>
      if tx.kind.amount <= 0 then Some(tx.(pc := NothingToDo(Insufficient)))
      else if HasMatch(w.rows, tx.kind.studentId, tx.kind.scheduleId) then Some(tx.(pc := NothingToDo(AlreadyDeducted)))
      else Some(tx.(pc := NoEarlierRow))
    case FindCards(_, listing) => Some(tx.(pc := Trying(listing)))
    case Compensate(_) =>
      var (id, card) := tx.draft.value;
      Some(tx.(pc := Compensated, draft := Some((id, card.(remaining := card.remaining + tx.kind.amount)))))
    case FindWinner(_) =>
      if HasMatch(w.rows, tx.kind.studentId, tx.kind.scheduleId)
      then Some(tx.(pc := NothingToDo(AlreadyDeducted))) else None
    case ReadCard(_) =>
      if tx.kind.cardId in w.cards && tx.kind.delta != 0
      then Some(tx.(pc := CardRead(w.cards[tx.kind.cardId]))) else None
  }

  function DoChangeBalance(w: World, t: Id, tx: Tx): World
    requires tx.kind.Adjustment? && tx.pc.CardRead?
  {
    var id := tx.kind.cardId;
    if Locked(w, t, id) then w
    else if id in w.cards && ApplyDelta(w.cards[id], tx.pc.read.version, tx.kind.delta).Some? then
      Put(w, t, tx.(pc := Changed(tx.pc.read),
                    draft := Some((id, ApplyDelta(w.cards[id], tx.pc.read.version, tx.kind.delta).value))))
    else Drop(w, t)
  }

  function DoCommit(w: World, t: Id, tx: Tx): World {
    World(if tx.draft.Some? then w.cards[tx.draft.value.0 := tx.draft.value.1] else w.cards,
          if tx.row.Some? then w.rows + [tx.row.value] else w.rows,
          w.open - {t}, w.opening,
          if tx.kind.Adjustment? && tx.pc.Logged? && tx.pc.seen.Some?
          then w.history + [(tx.kind.cardId, tx.pc.seen.value.version)] else w.history)
  }

  /** New cards start at version 0 with a non-negative balance; a step that is not enabled changes nothing. */
  function Do(w: World, a: Action): World {
    if a.CreateCard? then
      if a.id in w.cards || a.card.remaining < 0 || a.card.version != 0 then w
      else w.(cards := w.cards[a.id := a.card], opening := w.opening[a.id := a.card.remaining])
    else if a.Begin? then
      if a.tx in w.open then w else Put(w, a.tx, Tx(a.kind, Started, None, None))
    else if a.tx !in w.open || !Enabled(w.open[a.tx], a) then w
    else
      var (t, tx) := (a.tx, w.open[a.tx]);
      match a
      case TryNextCard(_) => DoTryNextCard(w, t, tx)
      case InsertRow(_) => DoInsertRow(w, t, tx)
      case ChangeBalance(_) => DoChangeBalance(w, t, tx)
      case Commit(_) => DoCommit(w, t, tx)
      case Rollback(_) => Drop(w, t)
      case _ => var moved := Move(w, tx, a); if moved.Some? then Put(w, t, moved.value) else Drop(w, t)
  }

  function Run(w: World, actions: seq<Action>): World {
    Runs.Iterate(Do, w, actions)
  }

  /** Another open transaction has an uncommitted balance of this card. */
  ghost predicate CardInUse(w: World, t: Id, id: Id) {
    exists u :: u in w.open && u != t && w.open[u].draft.Some? && w.open[u].draft.value.0 == id
  }

  /** Another open transaction has inserted a row with this key, or one that joins this card and this schedule. */
  ghost predicate RowInUse(w: World, t: Id, key: string, cardId: Id, scheduleId: Option<Id>) {
    exists u :: u in w.open && u != t && w.open[u].row.Some?
      && var r := w.open[u].row.value;
         r.key == key || (r.membershipId == cardId && r.scheduleId.Some? && r.scheduleId == scheduleId)
  }

  /**
   * A call whose turn it is waits, and does nothing yet, exactly if the card it would change or the index entry
   * it would add is another open transaction's.
   */
  lemma WaitsIff(w: World, a: Action)
    requires !a.CreateCard? && !a.Begin? && a.tx in w.open && Enabled(w.open[a.tx], a)
    ensures var (t, tx) := (a.tx, w.open[a.tx]);
      Do(w, a) == w <==>
        || (a.TryNextCard? && tx.pc.listing != [] && CardInUse(w, t, tx.pc.listing[0].id))
        || (a.ChangeBalance? && CardInUse(w, t, tx.kind.cardId))
        || (a.InsertRow? && tx.kind.CheckIn?
            && RowInUse(w, t, "checkin:" + tx.kind.studentId + ":" + tx.kind.scheduleId,
                        tx.pc.card.id, Some(tx.kind.scheduleId)))
        || (a.InsertRow? && tx.kind.Adjustment?
            && RowInUse(w, t, "adjust:" + tx.kind.cardId + ":" + tx.kind.uuid, tx.kind.cardId, tx.kind.forSchedule))
  {
    var (t, tx) := (a.tx, w.open[a.tx]);
    if a.InsertRow? {
      PendingIff(w, t, RowToInsert(tx));
      assert tx.kind.CheckIn? ==>
        RowToInsert(tx).key == "checkin:" + tx.kind.studentId + ":" + tx.kind.scheduleId;
    }
    assert Drop(w, t).open != w.open;
    forall tx' | tx' != tx ensures Put(w, t, tx').open != w.open {
      assert Put(w, t, tx').open[t] == tx';
    }
  }

  lemma PendingIff(w: World, t: Id, row: Row)
    ensures RowPending(w, t, row) <==> RowInUse(w, t, row.key, row.membershipId, row.scheduleId)
  {
    if u :| u in w.open && u != t && w.open[u].row.Some? && Clash(w.open[u].row.value, row) {
      assert w.open[u].row.value.key == row.key || w.open[u].row.value.membershipId == row.membershipId;
    }
    forall u | u in w.open && u != t && w.open[u].row.Some? && !Clash(w.open[u].row.value, row)
      ensures var r := w.open[u].row.value;
        && r.key != row.key
        && !(r.membershipId == row.membershipId && r.scheduleId.Some? && r.scheduleId == row.scheduleId)
    {
    }
  }

  /**
   * No call touches another transaction. Only a commit changes what is stored, and it stores the one balance and
   * the one row its transaction prepared; a rollback leaves no trace of it.
   */
  lemma StepIsIsolated(w: World, a: Action)
    requires !a.CreateCard? && !a.Begin? && a.tx in w.open && Enabled(w.open[a.tx], a)
    ensures var (t, tx, w') := (a.tx, w.open[a.tx], Do(w, a));
      && w'.opening == w.opening
      && (forall u :: u != t ==> (u in w'.open <==> u in w.open))
      && (forall u :: u != t && u in w.open && u in w'.open ==> w'.open[u] == w.open[u])
      && (!a.Commit? ==> w'.cards == w.cards && w'.rows == w.rows && w'.history == w.history)
      && (a.Commit? || a.Rollback? ==> t !in w'.open)
      && (a.Commit? ==>
            && (forall id, card :: (id in w'.cards && w'.cards[id] == card) <==>
                  tx.draft == Some((id, card))
                  || (id in w.cards && w.cards[id] == card && (tx.draft == None || tx.draft.value.0 != id)))
            && |w'.rows| == |w.rows| + (if tx.row.Some? then 1 else 0) && w.rows <= w'.rows
            && (tx.row.Some? ==> w'.rows[|w.rows|] == tx.row.value))
  {
  }

  // ---------------------------------------------------------------- invariant

  /** The sum of the ledger deltas of one card. */
  function Sum(rows: seq<Row>, id: Id): int {
    if rows == [] then 0
    else Sum(rows[..|rows| - 1], id) + (if rows[|rows| - 1].membershipId == id then rows[|rows| - 1].delta else 0)
  }

  /** A balance change the transaction has made and not logged yet. */
  function Unlogged(tx: Tx): int {
    match tx.pc
    case Debited(_) => if tx.kind.CheckIn? then -tx.kind.amount else 0
    case RowClashed(_) => if tx.kind.CheckIn? then -tx.kind.amount else 0
    case Changed(_) => if tx.kind.Adjustment? then tx.kind.delta else 0
    case _ => 0
  }

  predicate HoldsDraft(tx: Tx) {
    tx.pc.Debited? || tx.pc.RowClashed? || tx.pc.Changed? || tx.pc.Logged?
  }

  /** What each program point says about the card the transaction has locked and the row it has inserted. */
  ghost predicate TxOk(cards: Cards, tx: Tx) {
    && (HoldsDraft(tx) ==> tx.draft.Some?)
    && (tx.row.Some? <==> tx.pc.Logged?)
    && (tx.draft.Some? ==>
          var (id, card) := tx.draft.value;
          && id in cards && card.remaining >= 0
          && card.remaining == cards[id].remaining + Unlogged(tx) + (if tx.row.Some? then tx.row.value.delta else 0)
          && card.version == cards[id].version + (if tx.kind.Adjustment? then 1 else 0)
          && (tx.row.Some? ==> tx.row.value.membershipId == id))
    && (tx.row.Some? ==> if tx.kind.CheckIn? then FromCheckIn(tx.row.value) else FromAdjustment(tx.row.value))
    && (tx.row.Some? ==> AddsUp(tx.row.value))
    && match tx.pc {
         case Debited(l) => tx.kind.CheckIn? && tx.kind.amount > 0 && tx.draft.value.0 == l.id
         case RowClashed(l) => tx.kind.CheckIn? && tx.kind.amount > 0 && tx.draft.value.0 == l.id
         case Trying(_) => tx.kind.CheckIn? && tx.kind.amount > 0 && tx.draft.None?
         case NoEarlierRow => tx.kind.CheckIn? && tx.kind.amount > 0 && tx.draft.None?
         case Changed(read) => tx.kind.Adjustment? && tx.draft.value.0 == tx.kind.cardId
           && tx.kind.cardId in cards && cards[tx.kind.cardId].version == read.version
         case Logged(seen) =>
           && (tx.kind.CheckIn? <==> seen.None?)
           && (seen.Some? ==>
                 && tx.kind.cardId in cards && tx.draft.value.0 == tx.kind.cardId
                 && cards[tx.kind.cardId].version == seen.value.version
                 && tx.row.value.beforeRemaining == seen.value.remaining
                 && tx.row.value.afterRemaining == seen.value.remaining + tx.row.value.delta)
         case Started => tx.draft.None?
         case CardRead(_) => tx.draft.None?
         case Compensated => tx.kind.CheckIn?
         case NothingToDo(_) => tx.kind.CheckIn?
       }
  }

  /** Row locks: no card is changed by two open transactions. */
  ghost predicate ExclusiveDrafts(w: World) {
    forall t, u :: t in w.open && u in w.open && t != u && w.open[t].draft.Some? && w.open[u].draft.Some?
      ==> w.open[t].draft.value.0 != w.open[u].draft.value.0
  }

  /** The unique indexes cover inserted rows whether committed or not. */
  ghost predicate ExclusiveRows(w: World) {
    && UniqueRows(w.rows)
    && (forall t :: t in w.open && w.open[t].row.Some? ==> !Refused(w.rows, w.open[t].row.value))
    && (forall t, u :: t in w.open && u in w.open && t != u && w.open[t].row.Some? && w.open[u].row.Some?
          ==> !Clash(w.open[t].row.value, w.open[u].row.value))
  }

  /** Committed balances are the opening balance plus the ledger, and never negative. */
  ghost predicate Conserved(w: World) {
    && w.cards.Keys == w.opening.Keys
    && (forall i :: 0 <= i < |w.rows| ==> w.rows[i].membershipId in w.cards)
    && forall id :: id in w.cards ==> 0 <= w.cards[id].remaining == w.opening[id] + Sum(w.rows, id)
  }

  function Count(history: seq<(Id, int)>, id: Id): nat {
    if history == [] then 0
    else Count(history[..|history| - 1], id) + (if history[|history| - 1].0 == id then 1 else 0)
  }

  /** The n-th committed adjustment of a card is the one that read version n. */
  ghost predicate VersionsCount(w: World) {
    && (forall i :: 0 <= i < |w.history| ==>
          w.history[i].0 in w.cards && w.history[i].1 == Count(w.history[..i], w.history[i].0))
    && forall id :: id in w.cards ==> w.cards[id].version == Count(w.history, id)
  }

  ghost predicate Provenance(rows: seq<Row>) {
    forall i :: 0 <= i < |rows| ==> (FromCheckIn(rows[i]) || FromAdjustment(rows[i])) && AddsUp(rows[i])
  }

  predicate AddsUp(r: Row) {
    r.afterRemaining == r.beforeRemaining + r.delta
  }

  ghost predicate Inv(w: World) {
    && Conserved(w) && VersionsCount(w) && Provenance(w.rows)
    && (forall t :: t in w.open ==> TxOk(w.cards, w.open[t]))
    && ExclusiveDrafts(w) && ExclusiveRows(w)
  }

  // ------------------------------------------------------------- preservation

  lemma SumSnoc(rows: seq<Row>, row: Row, id: Id)
    ensures Sum(rows + [row], id) == Sum(rows, id) + (if row.membershipId == id then row.delta else 0)
  {
    assert (rows + [row])[..|rows|] == rows;
  }

  lemma {:induction false} SumConcat(a: seq<Row>, b: seq<Row>, id: Id)
    ensures Sum(a + b, id) == Sum(a, id) + Sum(b, id)
    decreases |b|
  {
    if b == [] {
      assert a + b == a;
    } else {
      var init, last := b[..|b| - 1], b[|b| - 1];
      assert a + b == (a + init) + [last];
      SumConcat(a, init, id);
      SumSnoc(a + init, last, id);
    }
  }

  lemma {:induction false} SumOfOthers(rows: seq<Row>, id: Id)
    requires forall i :: 0 <= i < |rows| ==> rows[i].membershipId != id
    ensures Sum(rows, id) == 0
  {
    if rows != [] {
      SumOfOthers(rows[..|rows| - 1], id);
    }
  }

  lemma CountSnoc(history: seq<(Id, int)>, entry: (Id, int), id: Id)
    ensures Count(history + [entry], id) == Count(history, id) + (if entry.0 == id then 1 else 0)
  {
    assert (history + [entry])[..|history|] == history;
  }

  lemma {:induction false} CountOfOthers(history: seq<(Id, int)>, id: Id)
    requires forall i :: 0 <= i < |history| ==> history[i].0 != id
    ensures Count(history, id) == 0
  {
    if history != [] {
      CountOfOthers(history[..|history| - 1], id);
    }
  }

  /** What a program point claims survives any change to cards the transaction has not locked. */
  lemma TxOkFrame(cards: Cards, cards': Cards, tx: Tx)
    requires TxOk(cards, tx)
    requires tx.draft.Some? ==>
      tx.draft.value.0 in cards' && cards'[tx.draft.value.0] == cards[tx.draft.value.0]
    ensures TxOk(cards', tx)
  {
  }

  lemma CreateCardKeepsBalances(w: World, id: Id, card: Card)
    requires Conserved(w) && VersionsCount(w)
    ensures Conserved(Do(w, CreateCard(id, card))) && VersionsCount(Do(w, CreateCard(id, card)))
  {
    if id !in w.cards {
      SumOfOthers(w.rows, id);
      CountOfOthers(w.history, id);
    }
  }

  lemma CreateCardKeepsInv(w: World, id: Id, card: Card)
    requires Inv(w)
    ensures Inv(Do(w, CreateCard(id, card)))
  {
    var w' := Do(w, CreateCard(id, card));
    CreateCardKeepsBalances(w, id, card);
    forall t | t in w'.open ensures TxOk(w'.cards, w'.open[t]) {
      TxOkFrame(w.cards, w'.cards, w.open[t]);
    }
    assert ExclusiveDrafts(w') && ExclusiveRows(w');
  }

  lemma DropKeepsInv(w: World, t: Id)
    requires Inv(w)
    ensures Inv(Drop(w, t))
  {
  }

  /** A transaction may move to any state that is sound, locks no card and inserts no row held by another. */
  lemma PutKeepsInv(w: World, t: Id, tx: Tx)
    requires Inv(w) && TxOk(w.cards, tx)
    requires tx.draft.Some? ==> !Locked(w, t, tx.draft.value.0)
    requires tx.row.Some? ==> !RowPending(w, t, tx.row.value) && !Refused(w.rows, tx.row.value)
    ensures Inv(Put(w, t, tx))
  {
    var w' := Put(w, t, tx);
    forall u | u in w'.open ensures TxOk(w'.cards, w'.open[u]) {
      assert u != t ==> TxOk(w.cards, w.open[u]);
    }
    PutKeepsExclusion(w, t, tx);
  }

  lemma PutKeepsExclusion(w: World, t: Id, tx: Tx)
    requires ExclusiveDrafts(w) && ExclusiveRows(w)
    requires tx.draft.Some? ==> !Locked(w, t, tx.draft.value.0)
    requires tx.row.Some? ==> !RowPending(w, t, tx.row.value) && !Refused(w.rows, tx.row.value)
    ensures ExclusiveDrafts(Put(w, t, tx)) && ExclusiveRows(Put(w, t, tx))
  {
  }

  /** An open transaction's own lock and row are held by nobody else. */
  lemma OwnHoldings(w: World, t: Id)
    requires Inv(w) && t in w.open
    ensures w.open[t].draft.Some? ==> !Locked(w, t, w.open[t].draft.value.0)
    ensures w.open[t].row.Some? ==> !RowPending(w, t, w.open[t].row.value)
  {
  }

  predicate CanCommit(w: World, t: Id) {
    t in w.open && (w.open[t].pc.Logged? || w.open[t].pc.NothingToDo?)
  }

  lemma CommitKeepsBalances(w: World, t: Id)
    requires Inv(w) && CanCommit(w, t)
    ensures Conserved(DoCommit(w, t, w.open[t]))
  {
    var tx := w.open[t];
    var w' := DoCommit(w, t, tx);
    assert TxOk(w.cards, tx);
    forall id | id in w'.cards ensures 0 <= w'.cards[id].remaining == w'.opening[id] + Sum(w'.rows, id) {
      if tx.row.Some? {
        SumSnoc(w.rows, tx.row.value, id);
      }
    }
  }

  lemma CommitKeepsVersions(w: World, t: Id)
    requires Inv(w) && CanCommit(w, t)
    ensures VersionsCount(DoCommit(w, t, w.open[t]))
  {
    var tx := w.open[t];
    var w' := DoCommit(w, t, tx);
    assert TxOk(w.cards, tx);
    forall id | id in w'.cards ensures w'.cards[id].version == Count(w'.history, id) {
      if tx.pc.Logged? && tx.kind.Adjustment? {
        CountSnoc(w.history, (tx.kind.cardId, tx.pc.seen.value.version), id);
      }
    }
    forall i | 0 <= i < |w'.history|
      ensures w'.history[i].0 in w'.cards && w'.history[i].1 == Count(w'.history[..i], w'.history[i].0)
    {
      assert w'.history[..i] == w.history[..i];
      assert w.history[..|w.history|] == w.history;
    }
  }

  lemma CommitKeepsRows(w: World, t: Id)
    requires ExclusiveRows(w) && t in w.open
    ensures ExclusiveRows(DoCommit(w, t, w.open[t]))
  {
    var tx := w.open[t];
    var w' := DoCommit(w, t, tx);
    if tx.row.Some? {
      forall u | u in w'.open && w'.open[u].row.Some? ensures !Refused(w'.rows, w'.open[u].row.value) {
        assert !Clash(tx.row.value, w.open[u].row.value);
        assert !Refused(w.rows, w.open[u].row.value);
      }
    }
  }

  lemma CommitKeepsOthers(w: World, t: Id)
    requires ExclusiveDrafts(w) && t in w.open && forall u :: u in w.open ==> TxOk(w.cards, w.open[u])
    ensures var w' := DoCommit(w, t, w.open[t]);
      forall u :: u in w'.open ==> TxOk(w'.cards, w'.open[u])
  {
    var w' := DoCommit(w, t, w.open[t]);
    forall u | u in w'.open ensures TxOk(w'.cards, w'.open[u]) {
      TxOkFrame(w.cards, w'.cards, w.open[u]);
    }
  }

  lemma CommitKeepsInv(w: World, t: Id)
    requires Inv(w) && CanCommit(w, t)
    ensures Inv(DoCommit(w, t, w.open[t]))
  {
    var tx := w.open[t];
    var w' := DoCommit(w, t, tx);
    CommitKeepsBalances(w, t);
    CommitKeepsVersions(w, t);
    CommitKeepsRows(w, t);
    CommitKeepsOthers(w, t);
    assert TxOk(w.cards, tx);
    assert ExclusiveDrafts(w');
  }

  lemma TryNextCardKeepsInv(w: World, t: Id)
    requires Inv(w) && t in w.open && w.open[t].kind.CheckIn? && w.open[t].pc.Trying?
    ensures Inv(DoTryNextCard(w, t, w.open[t]))
  {
    var tx := w.open[t];
    assert TxOk(w.cards, tx);
    var w' := DoTryNextCard(w, t, tx);
    if w' != w {
      assert TxOk(w.cards, w'.open[t]);
      PutKeepsInv(w, t, w'.open[t]);
    }
  }

  lemma InsertRowKeepsInv(w: World, t: Id)
    requires Inv(w) && t in w.open
    requires (w.open[t].kind.CheckIn? && w.open[t].pc.Debited?) || (w.open[t].kind.Adjustment? && w.open[t].pc.Changed?)
    ensures Inv(DoInsertRow(w, t, w.open[t]))
  {
    var tx := w.open[t];
    var row := RowToInsert(tx);
    assert TxOk(w.cards, tx);
    InsertedRowIsOk(w.cards, tx);
    OwnHoldings(w, t);
    var w' := DoInsertRow(w, t, tx);
    if RowPending(w, t, row) {
    } else if t in w'.open {
      PutKeepsInv(w, t, w'.open[t]);
    } else {
      DropKeepsInv(w, t);
    }
  }

  /** An inserted row says where it came from, and matches the balance change it logs. */
  lemma InsertedRowIsOk(cards: Cards, tx: Tx)
    requires TxOk(cards, tx)
    requires (tx.kind.CheckIn? && tx.pc.Debited?) || (tx.kind.Adjustment? && tx.pc.Changed?)
    ensures if tx.kind.CheckIn? then FromCheckIn(RowToInsert(tx)) else FromAdjustment(RowToInsert(tx))
    ensures TxOk(cards, tx.(pc := Logged(if tx.pc.Changed? then Some(tx.pc.read) else None),
      row := Some(RowToInsert(tx))))
    ensures tx.kind.CheckIn? ==> TxOk(cards, tx.(pc := RowClashed(tx.pc.card)))
  {
    var row := RowToInsert(tx);
    assert tx.kind.Adjustment? ==> row.key == AdjustKey(row.membershipId, tx.kind.uuid);
  }

  lemma ChangeBalanceKeepsInv(w: World, t: Id)
    requires Inv(w) && t in w.open && w.open[t].kind.Adjustment? && w.open[t].pc.CardRead?
    ensures Inv(DoChangeBalance(w, t, w.open[t]))
  {
    var tx := w.open[t];
    assert TxOk(w.cards, tx);
    var w' := DoChangeBalance(w, t, tx);
    if Locked(w, t, tx.kind.cardId) {
    } else if t in w'.open {
      assert TxOk(w.cards, w'.open[t]);
      PutKeepsInv(w, t, w'.open[t]);
    } else {
      DropKeepsInv(w, t);
    }
  }

  /** A step that only moves the program point, or undoes the debit, keeps the transaction's holdings. */
  lemma MoveKeepsInv(w: World, t: Id, tx: Tx)
    requires Inv(w) && TxOk(w.cards, tx)
    requires tx.row.None?
    requires tx.draft.Some? ==> t in w.open && w.open[t].draft.Some? && w.open[t].draft.value.0 == tx.draft.value.0
    ensures Inv(Put(w, t, tx))
  {
    if t in w.open {
      OwnHoldings(w, t);
    }
    PutKeepsInv(w, t, tx);
  }

  lemma MoveIsOk(w: World, tx: Tx, a: Action)
    requires TxOk(w.cards, tx) && Quiet(a) && Enabled(tx, a) && Move(w, tx, a).Some?
    ensures var tx' := Move(w, tx, a).value;
      && TxOk(w.cards, tx') && tx'.row.None?
      && (tx'.draft.Some? ==> tx.draft.Some? && tx.draft.value.0 == tx'.draft.value.0)
  {
  }

  lemma QuietStepKeepsInv(w: World, a: Action)
    requires Inv(w) && Quiet(a) && a.tx in w.open && Enabled(w.open[a.tx], a)
    ensures Inv(Do(w, a))
  {
    var tx := w.open[a.tx];
    assert TxOk(w.cards, tx);
    if Move(w, tx, a).Some? {
      MoveIsOk(w, tx, a);
      MoveKeepsInv(w, a.tx, Move(w, tx, a).value);
    } else {
      DropKeepsInv(w, a.tx);
    }
  }

  /** Every call of every transaction keeps the invariant. */
  lemma StepKeepsInv(w: World, a: Action)
    requires Inv(w)
    ensures Inv(Do(w, a))
  {
    if a.CreateCard? {
      CreateCardKeepsInv(w, a.id, a.card);
    } else if a.Begin? {
      if a.tx !in w.open {
        MoveKeepsInv(w, a.tx, Tx(a.kind, Started, None, None));
      }
    } else if a.tx in w.open && Enabled(w.open[a.tx], a) {
      match a
      case TryNextCard(t) => TryNextCardKeepsInv(w, t);
      case InsertRow(t) => InsertRowKeepsInv(w, t);
      case ChangeBalance(t) => ChangeBalanceKeepsInv(w, t);
      case Commit(t) => CommitKeepsInv(w, t);
      case Rollback(t) => DropKeepsInv(w, t);
      case _ => QuietStepKeepsInv(w, a);
    }
  }

  lemma RunKeepsInv(w: World, actions: seq<Action>)
    requires Inv(w)
    ensures Inv(Run(w, actions))
  {
    forall v: World, a: Action | Inv(v) ensures Inv(Do(v, a)) {
      StepKeepsInv(v, a);
    }
    Runs.Keeps(Do, Inv, w, actions);
  }
}
