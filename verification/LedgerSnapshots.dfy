/** When the before and after balances that adjustments write into the ledger are right. */
module LedgerSnapshots {
  import opened Common
  import Runs
  import opened BusinessKeys
  import opened Ledger
  import opened LedgerRuns
  import opened LedgerTheorems

  /** No check-in has a change to this card in progress. */
  ghost predicate NoCheckInOn(w: World, id: Id) {
    forall t :: t in w.open && w.open[t].kind.CheckIn? && w.open[t].draft.Some? ==> w.open[t].draft.value.0 != id
  }

  /** The card's ledger rows chain: each starts from the balance the rows before it leave. */
  ghost predicate Chain(rows: seq<Row>, id: Id, opening: int) {
    forall i :: 0 <= i < |rows| && rows[i].membershipId == id ==>
      && rows[i].beforeRemaining == opening + Sum(rows[..i], id)
      && rows[i].afterRemaining == rows[i].beforeRemaining + rows[i].delta
  }

  function ReadOf(tx: Tx): Option<Card> {
    match tx.pc
    case CardRead(read) => Some(read)
    case Changed(read) => Some(read)
    case Logged(seen) => seen
    case _ => None
  }

  /** A read of the current version is a read of the current balance. */
  ghost predicate ReadsCurrent(w: World, id: Id, tx: Tx) {
    tx.kind.Adjustment? && tx.kind.cardId == id && ReadOf(tx).Some? ==>
      && id in w.cards
      && ReadOf(tx).value.version <= w.cards[id].version
      && (ReadOf(tx).value.version == w.cards[id].version ==> ReadOf(tx).value.remaining == w.cards[id].remaining)
      && (tx.row.Some? ==> tx.row.value.beforeRemaining == ReadOf(tx).value.remaining
                           && tx.row.value.afterRemaining == tx.row.value.beforeRemaining + tx.row.value.delta)
  }

  ghost predicate Chained(w: World, id: Id) {
    && (id in w.opening ==> Chain(w.rows, id, w.opening[id]))
    && forall t :: t in w.open ==> ReadsCurrent(w, id, w.open[t])
  }

  lemma CommitKeepsChain(w: World, t: Id, id: Id)
    requires Inv(w) && Chained(w, id) && NoCheckInOn(w, id) && CanCommit(w, t)
    ensures Chained(DoCommit(w, t, w.open[t]), id)
  {
    var tx := w.open[t];
    var w' := DoCommit(w, t, tx);
    assert TxOk(w.cards, tx) && ReadsCurrent(w, id, tx);
    if id in w.cards {
      assert w.rows[..|w.rows|] == w.rows;
      forall i | 0 <= i < |w'.rows| && w'.rows[i].membershipId == id
        ensures w'.rows[i].beforeRemaining == w.opening[id] + Sum(w'.rows[..i], id)
        ensures w'.rows[i].afterRemaining == w'.rows[i].beforeRemaining + w'.rows[i].delta
      {
        assert w'.rows[..i] == w.rows[..i];
      }
    }
    forall u | u in w'.open ensures ReadsCurrent(w', id, w'.open[u]) {
      assert ReadsCurrent(w, id, w.open[u]);
    }
  }

  lemma PutKeepsChain(w: World, t: Id, tx: Tx, id: Id)
    requires Chained(w, id) && ReadsCurrent(w, id, tx)
    ensures Chained(Put(w, t, tx), id)
  {
    var w' := Put(w, t, tx);
    forall u | u in w'.open ensures ReadsCurrent(w', id, w'.open[u]) {
      assert u != t ==> ReadsCurrent(w, id, w.open[u]);
      assert ReadsCurrent(w', id, tx);
    }
  }

  /** Outside commits and new cards a step drops its transaction or moves it to a state that reads soundly. */
  lemma StepReadsCurrent(w: World, a: Action, id: Id)
    requires Inv(w) && Chained(w, id)
    requires !a.CreateCard? && !a.Commit?
    ensures var w' := Do(w, a);
      || w' == w || w' == Drop(w, a.tx)
      || (a.tx in w'.open && w' == Put(w, a.tx, w'.open[a.tx]) && ReadsCurrent(w, id, w'.open[a.tx]))
  {
    if a.tx in w.open {
      assert TxOk(w.cards, w.open[a.tx]) && ReadsCurrent(w, id, w.open[a.tx]);
      if Quiet(a) {
        QuietReadsCurrent(w, a, id);
      } else if a.InsertRow? {
        InsertReadsCurrent(w, a, id);
      }
    }
  }

  lemma InsertReadsCurrent(w: World, a: Action, id: Id)
    requires a.InsertRow? && a.tx in w.open && TxOk(w.cards, w.open[a.tx]) && ReadsCurrent(w, id, w.open[a.tx])
    ensures var w' := Do(w, a);
      || w' == w || w' == Drop(w, a.tx)
      || (a.tx in w'.open && w' == Put(w, a.tx, w'.open[a.tx]) && ReadsCurrent(w, id, w'.open[a.tx]))
  {
  }

  lemma QuietReadsCurrent(w: World, a: Action, id: Id)
    requires Quiet(a) && a.tx in w.open && TxOk(w.cards, w.open[a.tx]) && ReadsCurrent(w, id, w.open[a.tx])
    ensures var w' := Do(w, a);
      || w' == w || w' == Drop(w, a.tx)
      || (a.tx in w'.open && w' == Put(w, a.tx, w'.open[a.tx]) && ReadsCurrent(w, id, w'.open[a.tx]))
  {
  }

  lemma NewCardKeepsChain(w: World, a: Action, id: Id)
    requires Inv(w) && Chained(w, id) && a.CreateCard?
    ensures Chained(Do(w, a), id)
  {
    var w' := Do(w, a);
    if w' != w {
      forall t | t in w'.open ensures ReadsCurrent(w', id, w'.open[t]) {
        assert ReadsCurrent(w, id, w.open[t]);
      }
    }
  }

  lemma StepKeepsChain(w: World, a: Action, id: Id)
    requires Inv(w) && Chained(w, id) && NoCheckInOn(w, id)
    ensures Chained(Do(w, a), id)
  {
    if a.CreateCard? {
      NewCardKeepsChain(w, a, id);
    } else if a.Commit? {
      if CanCommit(w, a.tx) {
        CommitKeepsChain(w, a.tx, id);
      }
    } else {
      OpenStepKeepsChain(w, a, id);
    }
  }

  lemma DropKeepsChain(w: World, t: Id, id: Id)
    requires Chained(w, id)
    ensures Chained(Drop(w, t), id)
  {
    forall u | u in Drop(w, t).open ensures ReadsCurrent(Drop(w, t), id, w.open[u]) {
      assert ReadsCurrent(w, id, w.open[u]);
    }
  }

  lemma OpenStepKeepsChain(w: World, a: Action, id: Id)
    requires Inv(w) && Chained(w, id) && !a.CreateCard? && !a.Commit?
    ensures Chained(Do(w, a), id)
  {
    var w' := Do(w, a);
    StepReadsCurrent(w, a, id);
    if w' == w {
    } else if w' == Drop(w, a.tx) {
      DropKeepsChain(w, a.tx, id);
    } else {
      PutKeepsChain(w, a.tx, w'.open[a.tx], id);
    }
  }

  lemma {:induction false} RunKeepsChain(actions: seq<Action>, id: Id)
    requires forall n :: 0 <= n <= |actions| ==> NoCheckInOn(Run(EMPTY, actions[..n]), id)
    ensures Chained(Run(EMPTY, actions), id)
    decreases |actions|
  {
    if actions != [] {
      var init, last := actions[..|actions| - 1], actions[|actions| - 1];
      assert forall n :: 0 <= n <= |init| ==> init[..n] == actions[..n];
      RunKeepsChain(init, id);
      RunKeepsInv(EMPTY, init);
      assert actions == init + [last] && actions[..|init|] == init;
      Runs.Snoc(Do, EMPTY, init, last);
      StepKeepsChain(Run(EMPTY, init), last, id);
    }
  }

  /**
   * While no check-in touches a card, the before and after balances in its ledger rows are exact: each
   * row starts where the previous one ended, and the last one ends at the card's balance.
   */
  lemma SnapshotsAreExact(actions: seq<Action>, id: Id, i: nat)
    requires forall n :: 0 <= n <= |actions| ==> NoCheckInOn(Run(EMPTY, actions[..n]), id)
    requires var w := Run(EMPTY, actions);
      && i < |w.rows| && w.rows[i].membershipId == id
      && forall j :: i < j < |w.rows| ==> w.rows[j].membershipId != id
    ensures var w := Run(EMPTY, actions);
      && id in w.cards && id in w.opening && Chain(w.rows, id, w.opening[id])
      && w.rows[i].afterRemaining == w.cards[id].remaining
  {
    var w := Run(EMPTY, actions);
    RunKeepsInv(EMPTY, actions);
    RunKeepsChain(actions, id);
    SumOfTail(w.rows, id, i + 1);
    assert w.rows[..i + 1] == w.rows[..i] + [w.rows[i]];
    SumSnoc(w.rows[..i], w.rows[i], id);
  }

  lemma {:induction false} SumOfTail(rows: seq<Row>, id: Id, from: nat)
    requires from <= |rows| && forall j :: from <= j < |rows| ==> rows[j].membershipId != id
    ensures Sum(rows, id) == Sum(rows[..from], id)
  {
    if from < |rows| {
      var init := rows[..|rows| - 1];
      assert init[..from] == rows[..from];
      SumOfTail(init, id, from);
    } else {
      assert rows[..from] == rows;
    }
  }

  // ---------------------------------------------------- the exact condition

  /** Nothing was committed to this card's ledger since `w0`. */
  ghost predicate NoRowsSince(w0: World, w: World, id: Id) {
    forall i :: |w0.rows| <= i < |w.rows| ==> w.rows[i].membershipId != id
  }

  /** While the version stands still, only check-ins have been committed to the card. */
  ghost predicate Follows(w0: World, w: World, id: Id) {
    && id in w0.cards && id in w.cards && id in w0.opening && id in w.opening && w.opening[id] == w0.opening[id]
    && |w0.rows| <= |w.rows| && w.rows[..|w0.rows|] == w0.rows
    && w0.cards[id].version <= w.cards[id].version
    && (w0.cards[id].version == w.cards[id].version ==>
          forall i :: |w0.rows| <= i < |w.rows| && w.rows[i].membershipId == id ==> w.rows[i].delta < 0)
  }

  lemma CommitFollows(w0: World, w: World, t: Id, id: Id)
    requires Inv(w) && Follows(w0, w, id) && CanCommit(w, t)
    ensures Follows(w0, DoCommit(w, t, w.open[t]), id)
  {
    assert TxOk(w.cards, w.open[t]);
    assert DoCommit(w, t, w.open[t]).rows[..|w.rows|] == w.rows;
  }

  lemma StepFollows(w0: World, w: World, a: Action, id: Id)
    requires Inv(w) && Follows(w0, w, id)
    ensures Follows(w0, Do(w, a), id)
  {
    if a.Commit? {
      if CanCommit(w, a.tx) {
        CommitFollows(w0, w, a.tx, id);
      }
    } else {
      OnlyCommitsWrite(w, a);
    }
  }

  /** Until a transaction commits, nobody else sees anything of it. */
  lemma OnlyCommitsWrite(w: World, a: Action)
    requires !a.Commit?
    ensures Do(w, a).rows == w.rows
    ensures forall id :: id in w.cards ==> id in Do(w, a).cards && Do(w, a).cards[id] == w.cards[id]
    ensures forall id :: id in w.cards && id in w.opening ==>
      id in Do(w, a).opening && Do(w, a).opening[id] == w.opening[id]
  {
  }

  lemma {:induction false} RunFollows(w0: World, w: World, actions: seq<Action>, id: Id)
    requires Inv(w) && Follows(w0, w, id)
    ensures Follows(w0, Run(w, actions), id)
    decreases |actions|
  {
    if actions != [] {
      StepKeepsInv(w, actions[0]);
      StepFollows(w0, w, actions[0], id);
      RunFollows(w0, Do(w, actions[0]), actions[1..], id);
    }
  }

  /** Debits add up to less than nothing, unless there are none. */
  lemma {:induction false} SumOfDebits(rows: seq<Row>, id: Id)
    requires forall i :: 0 <= i < |rows| && rows[i].membershipId == id ==> rows[i].delta < 0
    ensures Sum(rows, id) <= 0
    ensures Sum(rows, id) == 0 <==> forall i :: 0 <= i < |rows| ==> rows[i].membershipId != id
  {
    if rows != [] {
      var init, last := rows[..|rows| - 1], rows[|rows| - 1];
      SumOfDebits(init, id);
      assert forall i :: 0 <= i < |init| ==> init[i] == rows[i];
      assert rows == init + [last];
    }
  }

  lemma SumSince(rows: seq<Row>, n: nat, id: Id)
    requires n <= |rows| && forall i :: n <= i < |rows| && rows[i].membershipId == id ==> rows[i].delta < 0
    ensures Sum(rows, id) == Sum(rows[..n], id) <==> forall i :: n <= i < |rows| ==> rows[i].membershipId != id
  {
    var since := rows[n..];
    assert rows == rows[..n] + since;
    SumConcat(rows[..n], since, id);
    assert forall i :: 0 <= i < |since| ==> since[i] == rows[n + i];
    SumOfDebits(since, id);
    assert forall i :: n <= i < |rows| ==> rows[i] == since[i - n];
  }

  /** Between two states with one version of a card, its balance is the same exactly when its ledger is. */
  lemma BalanceStandsIff(w0: World, w: World, id: Id)
    requires Conserved(w0) && Conserved(w) && Follows(w0, w, id)
    requires w0.cards[id].version == w.cards[id].version
    ensures w0.cards[id].remaining == w.cards[id].remaining <==> NoRowsSince(w0, w, id)
  {
    SumSince(w.rows, |w0.rows|, id);
  }

  lemma CheckedVersion(w: World, t: Id)
    requires t in w.open && w.open[t].kind.Adjustment? && w.open[t].pc.CardRead?
    requires t in Do(w, ChangeBalance(t)).open && Do(w, ChangeBalance(t)).open[t].pc.Changed?
    ensures w.open[t].kind.cardId in w.cards && w.cards[w.open[t].kind.cardId].version == w.open[t].pc.read.version
  {
  }

  /**
   * The version check, exactly: an adjustment read its card in some state of a run and later passes the check.
   * The balance it read is then the stored one if and only if no ledger row of the card was committed since.
   */
  lemma CheckedReadIsRightIff(before: seq<Action>, since: seq<Action>, t: Id, id: Id)
    requires var w0 := Run(EMPTY, before);
      var w := Run(w0, since);
      && id in w0.cards && t in w.open && w.open[t].kind.Adjustment? && w.open[t].kind.cardId == id
      && w.open[t].pc == CardRead(w0.cards[id])
      && t in Do(w, ChangeBalance(t)).open && Do(w, ChangeBalance(t)).open[t].pc.Changed?
    ensures var w0 := Run(EMPTY, before);
      var w := Run(w0, since);
      && id in w.cards && (w0.cards[id].remaining == w.cards[id].remaining <==> NoRowsSince(w0, w, id))
  {
    var w0 := Run(EMPTY, before);
    RunKeepsInv(EMPTY, before);
    RunKeepsInv(w0, since);
    RunFollows(w0, w0, since, id);
    CheckedVersion(Run(w0, since), t);
    BalanceStandsIff(w0, Run(w0, since), id);
  }

  /** What the commit of a logged adjustment adds, relative to the card its transaction read. */
  lemma LoggedCommits(w: World, t: Id, read: Card)
    requires Inv(w) && t in w.open && w.open[t].kind.Adjustment? && w.open[t].pc == Logged(Some(read))
    ensures var (id, w') := (w.open[t].kind.cardId, Do(w, Commit(t)));
      && id in w.cards && w.cards[id].version == read.version && id in w'.cards
      && |w'.rows| == |w.rows| + 1 && w'.rows[|w.rows|].membershipId == id
      && w'.rows[|w.rows|].beforeRemaining == read.remaining
      && w'.rows[|w.rows|].afterRemaining - w'.cards[id].remaining == read.remaining - w.cards[id].remaining
  {
    assert TxOk(w.cards, w.open[t]);
  }

  /**
   * The ledger row, exactly: the row an adjustment commits starts at the balance that stood before the commit,
   * and ends at the one that stands after it, each if and only if no row of the card was committed since the read.
   */
  lemma SnapshotIsRightIff(before: seq<Action>, since: seq<Action>, t: Id, id: Id)
    requires var w0 := Run(EMPTY, before);
      var w := Run(w0, since);
      && id in w0.cards && t in w.open && w.open[t].kind.Adjustment? && w.open[t].kind.cardId == id
      && w.open[t].pc == Logged(Some(w0.cards[id]))
    ensures var w0 := Run(EMPTY, before);
      var w := Run(w0, since);
      var w' := Do(w, Commit(t));
      && |w'.rows| == |w.rows| + 1 && w'.rows[|w.rows|].membershipId == id && id in w.cards && id in w'.cards
      && (w'.rows[|w.rows|].beforeRemaining == w.cards[id].remaining <==> NoRowsSince(w0, w, id))
      && (w'.rows[|w.rows|].afterRemaining == w'.cards[id].remaining <==> NoRowsSince(w0, w, id))
  {
    var w0 := Run(EMPTY, before);
    var w := Run(w0, since);
    RunKeepsInv(EMPTY, before);
    RunKeepsInv(w0, since);
    RunFollows(w0, w0, since, id);
    LoggedCommits(w, t, w0.cards[id]);
    BalanceStandsIff(w0, w, id);
  }

  /** What the commit of a logged check-in adds. */
  lemma LoggedCheckInCommits(w: World, t: Id)
    requires Inv(w) && t in w.open && w.open[t].kind.CheckIn? && w.open[t].pc.Logged?
    ensures var w' := Do(w, Commit(t));
      && |w'.rows| == |w.rows| + 1
      && var r := w'.rows[|w.rows|];
         && r.membershipId in w.cards && r.membershipId in w'.cards
         && r.beforeRemaining - w.cards[r.membershipId].remaining
            == r.afterRemaining - w'.cards[r.membershipId].remaining
  {
    assert TxOk(w.cards, w.open[t]);
  }

  /** A check-in's row is off by as much before the commit as after it: right at one end exactly if at the other. */
  lemma CheckInSnapshotIff(actions: seq<Action>, t: Id)
    requires var w := Run(EMPTY, actions);
      t in w.open && w.open[t].kind.CheckIn? && w.open[t].pc.Logged?
    ensures var w := Run(EMPTY, actions);
      var w' := Do(w, Commit(t));
      && |w'.rows| == |w.rows| + 1
      && var r := w'.rows[|w.rows|];
         && r.membershipId in w.cards && r.membershipId in w'.cards
         && (r.beforeRemaining == w.cards[r.membershipId].remaining
             <==> r.afterRemaining == w'.cards[r.membershipId].remaining)
  {
    RunKeepsInv(EMPTY, actions);
    LoggedCheckInCommits(Run(EMPTY, actions), t);
  }

  // ------------------------------------------------------------- a wrong snapshot

  const PLAIN: Card := Card("student", 10, 0, Active, 0, 100)
  const BONUS: Kind := Adjustment("card", 1, "bonus", None, "uuid")
  const VISIT: Kind := CheckIn("student", "schedule", 2)

  /** A check-in runs to its end between the read and the update of an adjustment. */
  function Overtaken(): seq<Action> {
    READS + (LISTS + (PAYS + CREDITS))
  }

  const READS: seq<Action> := [CreateCard("card", PLAIN), Begin("adj", BONUS), ReadCard("adj")]
  const LISTS: seq<Action> := [Begin("visit", VISIT), FindEarlierRow("visit"), FindCards("visit", LISTING)]
  const PAYS: seq<Action> := [TryNextCard("visit"), InsertRow("visit"), Commit("visit")]
  const CREDITS: seq<Action> := [ChangeBalance("adj"), InsertRow("adj"), Commit("adj")]

  const LISTING: seq<Listed> := [Listed("card", 10)]
  const VISIT_ROW: Row := CheckInRow(Listed("card", 10), "student", "schedule", 2)

  const WAITING: Tx := Tx(BONUS, CardRead(PLAIN), None, None)
  const PAID: Option<(Id, Card)> := Some(("card", PLAIN.(remaining := 8)))
  const CREDITED: Option<(Id, Card)> := Some(("card", PLAIN.(remaining := 9, version := 1)))
  const BONUS_ROW: Row := AdjustRow("card", PLAIN, 1, "bonus", None, "uuid")

  function Between(remaining: int, rows: seq<Row>, open: map<Id, Tx>): World {
    World(map["card" := PLAIN.(remaining := remaining)], rows, open, map["card" := 10], [])
  }

  function Visiting(pc: Pc, draft: Option<(Id, Card)>, row: Option<Row>): World {
    Between(10, [], map["adj" := WAITING, "visit" := Tx(VISIT, pc, draft, row)])
  }

  function Adjusting(pc: Pc, draft: Option<(Id, Card)>, row: Option<Row>): World {
    Between(8, [VISIT_ROW], map["adj" := Tx(BONUS, pc, draft, row)])
  }

  lemma AdjustmentReads()
    ensures Run(EMPTY, READS) == Between(10, [], map["adj" := WAITING])
  {
    Runs.Three(Do, EMPTY, CreateCard("card", PLAIN), Begin("adj", BONUS), ReadCard("adj"));
  }

  lemma VisitBegins()
    ensures Do(Between(10, [], map["adj" := WAITING]), Begin("visit", VISIT)) == Visiting(Started, None, None)
  {
  }

  lemma VisitLooks()
    ensures Do(Visiting(Started, None, None), FindEarlierRow("visit")) == Visiting(NoEarlierRow, None, None)
  {
  }

  lemma VisitLists()
    ensures Do(Visiting(NoEarlierRow, None, None), FindCards("visit", LISTING)) == Visiting(Trying(LISTING), None, None)
  {
  }

  lemma VisitOpens()
    ensures Run(Between(10, [], map["adj" := WAITING]), LISTS) == Visiting(Trying(LISTING), None, None)
  {
    VisitBegins(); VisitLooks(); VisitLists();
    Runs.Three(Do, Between(10, [], map["adj" := WAITING]),
               Begin("visit", VISIT), FindEarlierRow("visit"), FindCards("visit", LISTING));
  }

  lemma VisitDebits()
    ensures Do(Visiting(Trying(LISTING), None, None), TryNextCard("visit"))
         == Visiting(Debited(Listed("card", 10)), PAID, None)
  {
    assert !Locked(Visiting(Trying(LISTING), None, None), "visit", "card");
  }

  lemma VisitLogs()
    ensures Do(Visiting(Debited(Listed("card", 10)), PAID, None), InsertRow("visit"))
         == Visiting(Logged(None), PAID, Some(VISIT_ROW))
  {
    assert !RowPending(Visiting(Debited(Listed("card", 10)), PAID, None), "visit", VISIT_ROW);
  }

  lemma VisitCommits()
    ensures Do(Visiting(Logged(None), PAID, Some(VISIT_ROW)), Commit("visit")) == Adjusting(CardRead(PLAIN), None, None)
  {
  }

  lemma VisitPays()
    ensures Run(Visiting(Trying(LISTING), None, None), PAYS) == Adjusting(CardRead(PLAIN), None, None)
  {
    VisitDebits(); VisitLogs(); VisitCommits();
    Runs.Three(Do, Visiting(Trying(LISTING), None, None), TryNextCard("visit"), InsertRow("visit"), Commit("visit"));
  }

  lemma BonusChanges()
    ensures Do(Adjusting(CardRead(PLAIN), None, None), ChangeBalance("adj"))
         == Adjusting(Changed(PLAIN), CREDITED, None)
  {
    assert !Locked(Adjusting(CardRead(PLAIN), None, None), "adj", "card");
  }

  lemma BonusLogs()
    ensures Do(Adjusting(Changed(PLAIN), CREDITED, None), InsertRow("adj"))
         == Adjusting(Logged(Some(PLAIN)), CREDITED, Some(BONUS_ROW))
  {
    assert !RowPending(Adjusting(Changed(PLAIN), CREDITED, None), "adj", BONUS_ROW);
    KeyKindsDisjoint("student", "schedule", "card", "uuid");
  }

  lemma BonusCommits()
    ensures var w := Do(Adjusting(Logged(Some(PLAIN)), CREDITED, Some(BONUS_ROW)), Commit("adj"));
      w.rows == [VISIT_ROW, BONUS_ROW] && w.cards == map["card" := PLAIN.(remaining := 9, version := 1)]
  {
  }

  lemma BonusPays()
    ensures var w := Run(Adjusting(CardRead(PLAIN), None, None), CREDITS);
      w.rows == [VISIT_ROW, BONUS_ROW] && w.cards == map["card" := PLAIN.(remaining := 9, version := 1)]
  {
    BonusChanges(); BonusLogs(); BonusCommits();
    Runs.Three(Do, Adjusting(CardRead(PLAIN), None, None), ChangeBalance("adj"), InsertRow("adj"), Commit("adj"));
  }

  /**
   * The proviso of SnapshotsAreExact is needed. A check-in does not move the version, so an adjustment
   * that read the card before it still commits, and its row claims 11 lessons where 9 are left.
   */
  lemma OvertakenSnapshotIsWrong()
    ensures var w := Run(EMPTY, Overtaken());
      && |w.rows| == 2 && w.rows[1].afterRemaining == 11
      && "card" in w.cards && w.cards["card"].remaining == 9 && w.cards["card"].version == 1
  {
    Runs.Append(Do, EMPTY, READS, LISTS + (PAYS + CREDITS));
    AdjustmentReads();
    var w1 := Between(10, [], map["adj" := WAITING]);
    Runs.Append(Do, w1, LISTS, PAYS + CREDITS);
    VisitOpens();
    Runs.Append(Do, Visiting(Trying(LISTING), None, None), PAYS, CREDITS);
    VisitPays();
    BonusPays();
  }
}
