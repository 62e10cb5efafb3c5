/** What the lesson ledger guarantees in every interleaving of check-ins and adjustments. */
module LedgerTheorems {
  import opened Common
  import opened BusinessKeys
  import opened Ledger
  import opened LedgerRuns

  // ------------------------------------------------------------- conservation

  /**
   * Conservation, seen by an observer of uncommitted data: the balance in the row of a changed card,
   * less the change its transaction has not logged yet, is the opening balance plus the deltas of the
   * ledger, the transaction's own uncommitted row included.
   */
  ghost predicate ConservedWithin(w: World, t: Id)
    requires t in w.open && w.open[t].draft.Some?
  {
    var tx := w.open[t];
    var (id, card) := tx.draft.value;
    && id in w.opening && card.remaining >= 0
    && card.remaining - Unlogged(tx) ==
      w.opening[id] + Sum(if tx.row.Some? then w.rows + [tx.row.value] else w.rows, id)
  }

  /** No lesson is lost or created, and no balance goes negative, in any interleaving of commits and rollbacks. */
  lemma ConservationInEveryRun(actions: seq<Action>)
    ensures var w := Run(EMPTY, actions);
      && Conserved(w)
      && forall t :: t in w.open && w.open[t].draft.Some? ==> ConservedWithin(w, t)
  {
    RunKeepsInv(EMPTY, actions);
    var w := Run(EMPTY, actions);
    forall t | t in w.open && w.open[t].draft.Some? ensures ConservedWithin(w, t) {
      assert TxOk(w.cards, w.open[t]);
      if w.open[t].row.Some? {
        SumSnoc(w.rows, w.open[t].row.value, w.open[t].draft.value.0);
      }
    }
  }

  // ---------------------------------------------------- one debit per check-in

  /** Among any other traffic, a student is charged for a schedule by at most one ledger row. */
  lemma OneDebitPerCheckIn(actions: seq<Action>, i: nat, j: nat)
    requires var rows := Run(EMPTY, actions).rows;
      && i < |rows| && j < |rows| && FromCheckIn(rows[i]) && FromCheckIn(rows[j])
      && rows[i].studentId == rows[j].studentId && rows[i].scheduleId == rows[j].scheduleId
    ensures i == j
  {
    RunKeepsInv(EMPTY, actions);
    var rows := Run(EMPTY, actions).rows;
    assert rows[i].key == rows[j].key;
    assert Clash(rows[i], rows[j]) && Clash(rows[j], rows[i]);
  }

  /** Row i is the one debit, and what the check-ins took from any card is what that row says. */
  ghost predicate OnlyDebit(w: World, i: int, studentId: Id, scheduleId: Id) {
    && 0 <= i < |w.rows| && IsDebit(w.rows[i], studentId, scheduleId) && w.rows[i].delta < 0
    && (forall j :: 0 <= j < |w.rows| && j != i ==> !IsDebit(w.rows[j], studentId, scheduleId))
    && w.rows[i].membershipId in w.cards && w.cards.Keys == w.opening.Keys
    && forall id :: id in w.cards ==>
         w.cards[id].remaining == w.opening[id] + Sum(w.rows[..i] + w.rows[i + 1..], id)
           + (if id == w.rows[i].membershipId then w.rows[i].delta else 0)
  }

  lemma SumOfThree(head: seq<Row>, row: Row, tail: seq<Row>, id: Id)
    ensures Sum((head + [row]) + tail, id) == Sum(head + tail, id) + (if row.membershipId == id then row.delta else 0)
  {
    SumConcat(head, tail, id);
    SumConcat(head + [row], tail, id);
    SumSnoc(head, row, id);
  }

  lemma SplitAround(rows: seq<Row>, i: nat)
    requires i < |rows|
    ensures rows == (rows[..i] + [rows[i]]) + rows[i + 1..]
  {
  }

  lemma SumWithout(rows: seq<Row>, i: nat, id: Id)
    requires i < |rows|
    ensures Sum(rows, id)
         == Sum(rows[..i] + rows[i + 1..], id) + (if rows[i].membershipId == id then rows[i].delta else 0)
  {
    SplitAround(rows, i);
    SumOfThree(rows[..i], rows[i], rows[i + 1..], id);
  }

  /**
   * In any traffic at all, the net debit of a student's check-ins at one schedule, over all cards, is
   * nothing or exactly one row's amount on one card.
   */
  lemma NetDebitIsOneRow(actions: seq<Action>, studentId: Id, scheduleId: Id)
    ensures var w := Run(EMPTY, actions);
      || (forall i :: 0 <= i < |w.rows| ==> !IsDebit(w.rows[i], studentId, scheduleId))
      || (exists i :: OnlyDebit(w, i, studentId, scheduleId))
  {
    var w := Run(EMPTY, actions);
    RunKeepsInv(EMPTY, actions);
    if i :| 0 <= i < |w.rows| && IsDebit(w.rows[i], studentId, scheduleId) {
      forall j | 0 <= j < |w.rows| && j != i ensures !IsDebit(w.rows[j], studentId, scheduleId) {
        if IsDebit(w.rows[j], studentId, scheduleId) {
          OneDebitPerCheckIn(actions, i, j);
        }
      }
      forall id | id in w.cards
        ensures w.cards[id].remaining == w.opening[id] + Sum(w.rows[..i] + w.rows[i + 1..], id)
                  + (if id == w.rows[i].membershipId then w.rows[i].delta else 0)
      {
        SumWithout(w.rows, i, id);
      }
      assert OnlyDebit(w, i, studentId, scheduleId);
    }
  }

  /** Every transaction of the run is a check-in of this student at this schedule. */
  predicate OnlyCheckIns(actions: seq<Action>, studentId: Id, scheduleId: Id) {
    forall i :: 0 <= i < |actions| && actions[i].Begin? ==>
      actions[i].kind.CheckIn? && actions[i].kind.studentId == studentId && actions[i].kind.scheduleId == scheduleId
  }

  ghost predicate TxFor(tx: Tx, studentId: Id, scheduleId: Id) {
    && tx.kind.CheckIn? && tx.kind.studentId == studentId && tx.kind.scheduleId == scheduleId
    && (tx.row.Some? ==> tx.row.value.key == CheckInKey(studentId, scheduleId) && tx.row.value.delta < 0)
  }

  ghost predicate AllFor(w: World, studentId: Id, scheduleId: Id) {
    && (forall i :: 0 <= i < |w.rows| ==> w.rows[i].key == CheckInKey(studentId, scheduleId) && w.rows[i].delta < 0)
    && (forall t :: t in w.open ==> TxFor(w.open[t], studentId, scheduleId))
  }

  /** How a step of an open transaction can leave its own state. */
  lemma StepForTx(w: World, a: Action, studentId: Id, scheduleId: Id)
    requires Inv(w) && AllFor(w, studentId, scheduleId)
    requires !a.CreateCard? && !a.Begin? && !a.Commit?
    ensures var w' := Do(w, a);
      || w' == w || w' == Drop(w, a.tx)
      || (a.tx in w'.open && w' == Put(w, a.tx, w'.open[a.tx]) && TxFor(w'.open[a.tx], studentId, scheduleId))
  {
    if a.tx in w.open {
      assert TxFor(w.open[a.tx], studentId, scheduleId);
      if Quiet(a) {
        QuietForTx(w, a, studentId, scheduleId);
      }
    }
  }

  lemma QuietForTx(w: World, a: Action, studentId: Id, scheduleId: Id)
    requires Quiet(a) && a.tx in w.open && TxFor(w.open[a.tx], studentId, scheduleId)
    ensures var w' := Do(w, a);
      || w' == w || w' == Drop(w, a.tx)
      || (a.tx in w'.open && w' == Put(w, a.tx, w'.open[a.tx]) && TxFor(w'.open[a.tx], studentId, scheduleId))
  {
  }

  lemma StepKeepsAllFor(w: World, a: Action, studentId: Id, scheduleId: Id)
    requires Inv(w) && AllFor(w, studentId, scheduleId)
    requires a.Begin? ==> a.kind.CheckIn? && a.kind.studentId == studentId && a.kind.scheduleId == scheduleId
    ensures AllFor(Do(w, a), studentId, scheduleId)
  {
    if a.Commit? {
      assert a.tx in w.open ==> TxFor(w.open[a.tx], studentId, scheduleId);
    } else if !a.CreateCard? && !a.Begin? {
      StepForTx(w, a, studentId, scheduleId);
    }
  }

  lemma {:induction false} RunKeepsAllFor(w: World, actions: seq<Action>, studentId: Id, scheduleId: Id)
    requires Inv(w) && AllFor(w, studentId, scheduleId) && OnlyCheckIns(actions, studentId, scheduleId)
    ensures AllFor(Run(w, actions), studentId, scheduleId)
    decreases |actions|
  {
    if actions != [] {
      StepKeepsAllFor(w, actions[0], studentId, scheduleId);
      StepKeepsInv(w, actions[0]);
      assert forall i :: 0 <= i < |actions[1..]| ==> actions[1..][i] == actions[i + 1];
      RunKeepsAllFor(Do(w, actions[0]), actions[1..], studentId, scheduleId);
    }
  }

  /**
   * Any number of concurrent check-ins of one student at one schedule, for any amounts and whatever
   * cards their queries returned, charge nothing at all or charge one card once.
   */
  lemma ConcurrentCheckInsChargeOnce(actions: seq<Action>, studentId: Id, scheduleId: Id)
    requires OnlyCheckIns(actions, studentId, scheduleId)
    ensures var w := Run(EMPTY, actions);
      w.cards.Keys == w.opening.Keys &&
      (|| (w.rows == [] && forall id :: id in w.cards ==> w.cards[id].remaining == w.opening[id])
       || (|w.rows| == 1 && w.rows[0].delta < 0 && w.rows[0].membershipId in w.cards
          && forall id :: id in w.cards ==>
               w.cards[id].remaining == w.opening[id] + (if id == w.rows[0].membershipId then w.rows[0].delta else 0)))
  {
    var w := Run(EMPTY, actions);
    RunKeepsInv(EMPTY, actions);
    RunKeepsAllFor(EMPTY, actions, studentId, scheduleId);
    if w.rows != [] {
      assert Clash(w.rows[0], w.rows[|w.rows| - 1]);
      forall id | id in w.cards
        ensures Sum(w.rows, id) == if id == w.rows[0].membershipId then w.rows[0].delta else 0
      {
        assert w.rows[..0] == [];
      }
    }
  }

  /** When ids carry no colon, an answer of "already deducted" is about this student and this schedule. */
  lemma AlreadyDeductedIsTruthful(actions: seq<Action>, studentId: Id, scheduleId: Id)
    requires var rows := Run(EMPTY, actions).rows;
      HasMatch(rows, studentId, scheduleId) && ColonFree(studentId)
      && forall i :: 0 <= i < |rows| ==> ColonFree(rows[i].studentId)
    ensures var rows := Run(EMPTY, actions).rows;
      exists i :: 0 <= i < |rows| && rows[i].studentId == studentId && rows[i].scheduleId == Some(scheduleId)
  {
    var rows := Run(EMPTY, actions).rows;
    RunKeepsInv(EMPTY, actions);
    var i :| 0 <= i < |rows| && Matches(rows[i], studentId, scheduleId);
    if FromCheckIn(rows[i]) {
      CheckInKeyInjective(rows[i].studentId, rows[i].scheduleId.value, studentId, scheduleId);
    } else {
      var uuid :| rows[i].key == AdjustKey(rows[i].membershipId, uuid);
      KeyKindsDisjoint(studentId, scheduleId, rows[i].membershipId, uuid);
    }
    assert rows[i].studentId == studentId && rows[i].scheduleId == Some(scheduleId);
  }

  /** An adjustment of this student's card for this schedule, under the check-in reason. */
  ghost predicate PosesAsDebit(r: Row, studentId: Id, scheduleId: Id) {
    FromAdjustment(r) && r.studentId == studentId && r.scheduleId == Some(scheduleId) && r.reason == CHECKIN_REASON
  }

  /** The debit of another student or schedule whose key reads the same. */
  ghost predicate SharesKey(r: Row, studentId: Id, scheduleId: Id) {
    FromCheckIn(r) && !IsDebit(r, studentId, scheduleId) && r.key == CheckInKey(studentId, scheduleId)
  }

  /** The two ways, and the only two, in which a row can match the query without being the debit asked for. */
  lemma WrongMatchIff(r: Row, studentId: Id, scheduleId: Id)
    requires FromCheckIn(r) || FromAdjustment(r)
    ensures Matches(r, studentId, scheduleId) && !IsDebit(r, studentId, scheduleId)
       <==> PosesAsDebit(r, studentId, scheduleId) || SharesKey(r, studentId, scheduleId)
  {
    if FromAdjustment(r) {
      var uuid :| r.key == AdjustKey(r.membershipId, uuid);
      KeyKindsDisjoint(studentId, scheduleId, r.membershipId, uuid);
      if r.scheduleId.Some? {
        KeyKindsDisjoint(r.studentId, r.scheduleId.value, r.membershipId, uuid);
      }
    }
  }

  /**
   * In any run, "already deducted" means this student's debit at this schedule exactly when no adjustment poses
   * as one and no other debit shares the key.
   */
  lemma MatchIsDebitIff(actions: seq<Action>, studentId: Id, scheduleId: Id)
    ensures var rows := Run(EMPTY, actions).rows;
      (forall i :: 0 <= i < |rows| && Matches(rows[i], studentId, scheduleId) ==>
         IsDebit(rows[i], studentId, scheduleId))
      <==> (forall i :: 0 <= i < |rows| ==>
              !PosesAsDebit(rows[i], studentId, scheduleId) && !SharesKey(rows[i], studentId, scheduleId))
  {
    var rows := Run(EMPTY, actions).rows;
    RunKeepsInv(EMPTY, actions);
    forall i | 0 <= i < |rows|
      ensures Matches(rows[i], studentId, scheduleId) && !IsDebit(rows[i], studentId, scheduleId)
         <==> PosesAsDebit(rows[i], studentId, scheduleId) || SharesKey(rows[i], studentId, scheduleId)
    {
      assert FromCheckIn(rows[i]) || FromAdjustment(rows[i]);
      WrongMatchIff(rows[i], studentId, scheduleId);
    }
  }

  /** With student ids that hold no colon, as UUIDs, no key is shared, and the posing adjustments are all there is. */
  lemma ColonFreeMatchIsDebitIff(actions: seq<Action>, studentId: Id, scheduleId: Id)
    requires var rows := Run(EMPTY, actions).rows;
      ColonFree(studentId) && forall i :: 0 <= i < |rows| ==> ColonFree(rows[i].studentId)
    ensures var rows := Run(EMPTY, actions).rows;
      (forall i :: 0 <= i < |rows| && Matches(rows[i], studentId, scheduleId) ==>
         IsDebit(rows[i], studentId, scheduleId))
      <==> (forall i :: 0 <= i < |rows| ==> !PosesAsDebit(rows[i], studentId, scheduleId))
  {
    var rows := Run(EMPTY, actions).rows;
    MatchIsDebitIff(actions, studentId, scheduleId);
    forall i | 0 <= i < |rows| ensures !SharesKey(rows[i], studentId, scheduleId) {
      if rows[i].scheduleId.Some? {
        CheckInKeyInjective(rows[i].studentId, rows[i].scheduleId.value, studentId, scheduleId);
      }
    }
  }

  // --------------------------------------------------------- where rows come from

  /** Some card query of the run returned this balance for this card. */
  ghost predicate Heard(actions: seq<Action>, l: Listed) {
    exists i :: 0 <= i < |actions| && actions[i].FindCards? && l in actions[i].listing
  }

  /** A check-in's cards, and the balance its row starts at, come from a card query. */
  ghost predicate TxHeard(actions: seq<Action>, tx: Tx) {
    && (tx.pc.Trying? ==> forall l :: l in tx.pc.listing ==> Heard(actions, l))
    && (tx.pc.Debited? ==> Heard(actions, tx.pc.card))
    && (tx.row.Some? && FromCheckIn(tx.row.value) ==>
          Heard(actions, Listed(tx.row.value.membershipId, tx.row.value.beforeRemaining)))
  }

  ghost predicate AllHeard(actions: seq<Action>, w: World) {
    && (forall t :: t in w.open ==> TxHeard(actions, w.open[t]))
    && forall i :: 0 <= i < |w.rows| && FromCheckIn(w.rows[i]) ==>
         Heard(actions, Listed(w.rows[i].membershipId, w.rows[i].beforeRemaining))
  }

  lemma HeardStays(actions: seq<Action>, a: Action, l: Listed)
    requires Heard(actions, l)
    ensures Heard(actions + [a], l)
  {
    var i :| 0 <= i < |actions| && actions[i].FindCards? && l in actions[i].listing;
    assert (actions + [a])[i] == actions[i];
  }

  lemma AllHeardStays(actions: seq<Action>, a: Action, w: World)
    requires AllHeard(actions, w)
    ensures AllHeard(actions + [a], w)
  {
    forall l | Heard(actions, l) ensures Heard(actions + [a], l) {
      HeardStays(actions, a, l);
    }
    forall t | t in w.open ensures TxHeard(actions + [a], w.open[t]) {
      assert TxHeard(actions, w.open[t]);
    }
  }

  lemma CommitIsHeard(actions: seq<Action>, w: World, t: Id)
    requires AllHeard(actions, w) && t in w.open
    ensures AllHeard(actions, DoCommit(w, t, w.open[t]))
  {
    assert TxHeard(actions, w.open[t]);
  }

  /** A call that is no commit leaves its transaction, if it leaves it open, with what it had heard or hears now. */
  lemma OpenStepIsHeard(actions: seq<Action>, w: World, a: Action)
    requires !a.CreateCard? && !a.Commit? && AllHeard(actions, w)
    requires a.FindCards? ==> forall l :: l in a.listing ==> Heard(actions, l)
    ensures var w' := Do(w, a);
      || w' == w || w' == Drop(w, a.tx)
      || (a.tx in w'.open && w' == Put(w, a.tx, w'.open[a.tx]) && TxHeard(actions, w'.open[a.tx]))
  {
    if a.tx in w.open {
      assert TxHeard(actions, w.open[a.tx]);
      if a.InsertRow? {
        InsertIsHeard(actions, w, a);
      }
    }
  }

  lemma InsertIsHeard(actions: seq<Action>, w: World, a: Action)
    requires a.InsertRow? && a.tx in w.open && TxHeard(actions, w.open[a.tx])
    ensures var w' := Do(w, a);
      || w' == w || w' == Drop(w, a.tx)
      || (a.tx in w'.open && w' == Put(w, a.tx, w'.open[a.tx]) && TxHeard(actions, w'.open[a.tx]))
  {
    var tx := w.open[a.tx];
    if Enabled(tx, a) && tx.kind.Adjustment? {
      var row := RowToInsert(tx);
      if row.scheduleId.Some? {
        KeyKindsDisjoint(row.studentId, row.scheduleId.value, tx.kind.cardId, tx.kind.uuid);
      }
      assert !FromCheckIn(row);
    }
  }

  lemma StepIsHeard(actions: seq<Action>, w: World, a: Action)
    requires AllHeard(actions, w)
    requires a.FindCards? ==> forall l :: l in a.listing ==> Heard(actions, l)
    ensures AllHeard(actions, Do(w, a))
  {
    if a.Commit? {
      if CanCommit(w, a.tx) {
        CommitIsHeard(actions, w, a.tx);
      }
    } else if !a.CreateCard? {
      OpenStepIsHeard(actions, w, a);
    }
  }

  lemma {:induction false} RunIsHeard(actions: seq<Action>)
    ensures AllHeard(actions, Run(EMPTY, actions))
    decreases |actions|
  {
    if actions != [] {
      var init, last := actions[..|actions| - 1], actions[|actions| - 1];
      assert actions == init + [last] && actions[|init|] == last;
      RunIsHeard(init);
      AllHeardStays(init, last, Run(EMPTY, init));
      Runs.Snoc(Do, EMPTY, init, last);
      StepIsHeard(actions, Run(EMPTY, init), last);
    }
  }

  /**
   * In every run each row ends where it starts plus its delta, and each check-in's row starts at a balance that
   * a card query of the run gave for its card.
   */
  lemma RowsAddUp(actions: seq<Action>, i: nat)
    requires i < |Run(EMPTY, actions).rows|
    ensures var r := Run(EMPTY, actions).rows[i];
      && r.afterRemaining == r.beforeRemaining + r.delta
      && (FromCheckIn(r) ==> Heard(actions, Listed(r.membershipId, r.beforeRemaining)))
  {
    RunKeepsInv(EMPTY, actions);
    RunIsHeard(actions);
    assert AddsUp(Run(EMPTY, actions).rows[i]);
  }

  // --------------------------------------------------------- optimistic locking

  lemma {:induction false} CountGrows(history: seq<(Id, int)>, i: nat, j: nat, id: Id)
    requires i <= j <= |history|
    ensures Count(history[..i], id) <= Count(history[..j], id)
    decreases j
  {
    if i < j {
      CountGrows(history, i, j - 1, id);
      assert history[..j] == history[..j - 1] + [history[j - 1]];
      CountSnoc(history[..j - 1], history[j - 1], id);
    }
  }

  lemma CountBetween(history: seq<(Id, int)>, i: nat, j: nat)
    requires i < j < |history|
    ensures Count(history[..i], history[i].0) < Count(history[..j], history[i].0)
  {
    assert history[..i + 1] == history[..i] + [history[i]];
    CountSnoc(history[..i], history[i], history[i].0);
    CountGrows(history, i + 1, j, history[i].0);
  }

  /**
   * Of the adjustments that read one version of a card at most one commits, and the version is the
   * number of committed adjustments. Check-ins may run in between.
   */
  lemma OneAdjustmentPerVersion(actions: seq<Action>)
    ensures var w := Run(EMPTY, actions);
      && (forall i, j :: 0 <= i < j < |w.history| && w.history[i].0 == w.history[j].0 ==>
        w.history[i].1 < w.history[j].1)
      && (forall id :: id in w.cards ==> w.cards[id].version == Count(w.history, id))
  {
    var w := Run(EMPTY, actions);
    RunKeepsInv(EMPTY, actions);
    forall i, j | 0 <= i < j < |w.history| && w.history[i].0 == w.history[j].0
      ensures w.history[i].1 < w.history[j].1
    {
      CountBetween(w.history, i, j);
    }
  }
}
