/**
 * Order creation and payment callbacks interleaved call by call. A conditional update and an insert are
 * single atomic statements; everything a handler decides rests on a read made in an earlier step.
 */
module OrderRuns {
  import opened Common
  import Runs
  import opened Orders
  import opened BillingService

  datatype Client =
    | Handling(cb: Callback, read: Option<Order>)        // the first read of a callback is done
    | Creating(key: string, request: OrderRequest)       // no order with this key was found
    | LostRace(key: string)                              // the insert met a unique index

  /** What a successful creation returned. */
  datatype Receipt = Receipt(key: string, orderNo: string, order: Order)

  datatype World = World(orders: OrderTable, clients: map<Id, Client>, receipts: seq<Receipt>)

  const EMPTY: World := World(map[], map[], [])

  datatype Action =
    | ReadOrder(client: Id, cb: Callback)
    | UpdateOrder(client: Id, reread: Reread)
    | LookupKey(client: Id, key: string, request: OrderRequest, found: Option<string>)
    | InsertOrder(client: Id, id: Id, orderNo: string)
    | LookupWinner(client: Id, found: Option<string>)

  /** The answer a query by idempotency key may give. */
  predicate FoundBy(orders: OrderTable, key: string, found: Option<string>) {
    match found
    case None => !KeyTaken(orders, key)
    case Some(no) => no in orders && orders[no].idempotencyKey == Some(key)
  }

  /** Request validation: a trade number has at least four characters. */
  predicate ValidCallback(cb: Callback) {
    |cb.tradeNo| >= 4
  }

  /** A repeated query returns a state of the order between the first read and now; both ends are possible. */
  predicate Plausible(read: Option<Order>, reread: Reread, current: Option<Order>, cb: Callback) {
    && (reread.again.None? ==> read.None?)
    && (reread.again.Some? ==> current.Some? && Later(reread.again.value, current.value))
    && (reread.again.Some? && read.Some? ==> Later(read.value, reread.again.value))
    && (reread.byTradeIsThis ==> reread.again.Some? && HoldsPair(reread.again.value, cb.provider, cb.tradeNo))
  }

  predicate Enabled(w: World, a: Action) {
    match a
    case ReadOrder(c, cb) => c !in w.clients && ValidCallback(cb)
    case UpdateOrder(c, reread) =>
      && c in w.clients && w.clients[c].Handling?
      && Plausible(w.clients[c].read, reread, Lookup(w.orders, w.clients[c].cb.orderNo), w.clients[c].cb)
    case LookupKey(c, key, _, found) => c !in w.clients && FoundBy(w.orders, key, found)
    case InsertOrder(c, _, _) => c in w.clients && w.clients[c].Creating?
    case LookupWinner(c, found) =>
      c in w.clients && w.clients[c].LostRace? && FoundBy(w.orders, w.clients[c].key, found)
  }

  function Return(w: World, c: Id, key: string, orderNo: string): World
    requires orderNo in w.orders
  {
    w.(clients := w.clients - {c}, receipts := w.receipts + [Receipt(key, orderNo, w.orders[orderNo])])
  }

  function Do(w: World, a: Action): World {
    if !Enabled(w, a) then w
    else match a
      case ReadOrder(c, cb) => w.(clients := w.clients[c := Handling(cb, Lookup(w.orders, cb.orderNo))])
      case UpdateOrder(c, reread) =>
        World(Mark(w.orders, w.clients[c].cb, w.clients[c].read, reread).1, w.clients - {c}, w.receipts)
      case LookupKey(c, key, request, found) =>
        if found.Some? then Return(w, c, key, found.value) else w.(clients := w.clients[c := Creating(key, request)])
      case InsertOrder(c, id, orderNo) =>
        var client := w.clients[c];
        if orderNo in w.orders || KeyTaken(w.orders, client.key)
        then w.(clients := w.clients[c := LostRace(client.key)])
        else Return(w.(orders := w.orders[orderNo := NewOrder(id, client.request, client.key)]), c, client.key, orderNo)
      case LookupWinner(c, found) =>
        if found.Some? then Return(w, c, w.clients[c].key, found.value) else w.(clients := w.clients - {c})
  }

  function Run(w: World, actions: seq<Action>): World {
    Runs.Iterate(Do, w, actions)
  }

  // ---------------------------------------------------------------- invariant

  /** Payment fields are empty before payment and complete after it. */
  predicate WellPaid(o: Order) {
    && (o.status == Pending ==> o.provider == None && o.tradeNo == None && o.paidAt == None)
    && (o.status == Paid || o.status == Refunded ==>
          o.provider.Some? && o.tradeNo.Some? && |o.tradeNo.value| >= 4 && o.paidAt.Some?)
    && (o.status != Refunded ==> o.refundedAt == None)
    && o.status != Cancelled
  }

  /** A pending handler's read is an earlier state of the order it is about. */
  ghost predicate ReadIsPast(orders: OrderTable, client: Client) {
    client.Handling? ==>
      && ValidCallback(client.cb)
      && (client.read.Some? ==> client.cb.orderNo in orders && Later(client.read.value, orders[client.cb.orderNo])
                                && WellPaid(client.read.value))
  }

  /** A receipt shows an earlier state of the one order with its key. */
  ghost predicate ReceiptIsPast(orders: OrderTable, r: Receipt) {
    r.orderNo in orders && orders[r.orderNo].idempotencyKey == Some(r.key) && Later(r.order, orders[r.orderNo])
  }

  ghost predicate Inv(w: World) {
    && GoodTable(w.orders)
    && (forall c :: c in w.clients ==> ReadIsPast(w.orders, w.clients[c]))
    && (forall i :: 0 <= i < |w.receipts| ==> ReceiptIsPast(w.orders, w.receipts[i]))
  }

  /** Every step leaves each order as it was or moves it forward. */
  lemma StepMovesForward(w: World, a: Action)
    ensures TableLater(w.orders, Do(w, a).orders)
  {
    if a.UpdateOrder? && Enabled(w, a) {
      CallbackMovesForward(w.orders, w.clients[a.client].cb, w.clients[a.client].read, a.reread);
    }
  }

  lemma PastStaysPast(orders: OrderTable, orders': OrderTable, client: Client)
    requires ReadIsPast(orders, client) && TableLater(orders, orders')
    ensures ReadIsPast(orders', client)
  {
    if client.Handling? && client.read.Some? {
      LaterTransitive(client.read.value, orders[client.cb.orderNo], orders'[client.cb.orderNo]);
    }
  }

  lemma ReceiptStaysPast(orders: OrderTable, orders': OrderTable, r: Receipt)
    requires ReceiptIsPast(orders, r) && TableLater(orders, orders')
    ensures ReceiptIsPast(orders', r)
  {
    LaterTransitive(r.order, orders[r.orderNo], orders'[r.orderNo]);
  }

  ghost predicate GoodTable(orders: OrderTable) {
    UniquePairs(orders) && UniqueKeys(orders) && forall no :: no in orders ==> WellPaid(orders[no])
  }

  lemma UpdateKeepsTable(orders: OrderTable, client: Client, reread: Reread)
    requires GoodTable(orders) && client.Handling? && ReadIsPast(orders, client)
    ensures GoodTable(Mark(orders, client.cb, client.read, reread).1)
  {
    var orders' := Mark(orders, client.cb, client.read, reread).1;
    CallbackKeepsUniquePairs(orders, client.cb, client.read, reread);
    CallbackMovesForward(orders, client.cb, client.read, reread);
    assert orders'.Keys == orders.Keys;
    forall no | no in orders' ensures WellPaid(orders'[no]) && orders'[no].idempotencyKey == orders[no].idempotencyKey {
      UpdateKeepsWellPaid(orders, client.cb, client.read, reread, no);
    }
  }

  lemma UpdateKeepsWellPaid(orders: OrderTable, cb: Callback, read: Option<Order>, reread: Reread, no: string)
    requires ValidCallback(cb) && no in orders && WellPaid(orders[no])
    ensures no in Mark(orders, cb, read, reread).1 && WellPaid(Mark(orders, cb, read, reread).1[no])
    ensures Mark(orders, cb, read, reread).1[no].idempotencyKey == orders[no].idempotencyKey
  {
  }

  lemma InsertKeepsTable(orders: OrderTable, orderNo: string, o: Order)
    requires GoodTable(orders) && orderNo !in orders && WellPaid(o) && o.status == Pending
    requires o.idempotencyKey.Some? && !KeyTaken(orders, o.idempotencyKey.value)
    ensures GoodTable(orders[orderNo := o])
  {
    var orders' := orders[orderNo := o];
    forall a, b | a in orders' && b in orders' && a != b && orders'[a].idempotencyKey.Some?
      ensures orders'[b].idempotencyKey != orders'[a].idempotencyKey
    {
      assert a != orderNo ==> orders'[a] == orders[a];
      assert b != orderNo ==> orders'[b] == orders[b];
    }
  }

  lemma StepKeepsTable(w: World, a: Action)
    requires Inv(w)
    ensures GoodTable(Do(w, a).orders)
  {
    if Enabled(w, a) && a.UpdateOrder? {
      UpdateKeepsTable(w.orders, w.clients[a.client], a.reread);
    } else if Enabled(w, a) && a.InsertOrder? {
      var client := w.clients[a.client];
      if a.orderNo !in w.orders && !KeyTaken(w.orders, client.key) {
        InsertKeepsTable(w.orders, a.orderNo, NewOrder(a.id, client.request, client.key));
      }
    }
  }

  lemma StepKeepsReads(w: World, a: Action)
    requires Inv(w) && TableLater(w.orders, Do(w, a).orders)
    ensures var w' := Do(w, a);
      forall c :: c in w'.clients ==> ReadIsPast(w'.orders, w'.clients[c])
  {
    var w' := Do(w, a);
    forall c | c in w'.clients ensures ReadIsPast(w'.orders, w'.clients[c]) {
      if c in w.clients && w'.clients[c] == w.clients[c] {
        PastStaysPast(w.orders, w'.orders, w.clients[c]);
      }
    }
  }

  lemma StepKeepsInv(w: World, a: Action)
    requires Inv(w)
    ensures Inv(Do(w, a))
  {
    var w' := Do(w, a);
    StepMovesForward(w, a);
    StepKeepsTable(w, a);
    StepKeepsReads(w, a);
    forall i | 0 <= i < |w'.receipts| ensures ReceiptIsPast(w'.orders, w'.receipts[i]) {
      if i < |w.receipts| {
        assert w'.receipts[i] == w.receipts[i];
        ReceiptStaysPast(w.orders, w'.orders, w.receipts[i]);
      }
    }
  }

  lemma RunKeepsInv(w: World, actions: seq<Action>)
    requires Inv(w)
    ensures Inv(Run(w, actions))
  {
    forall v: World, a: Action | Inv(v) ensures Inv(Do(v, a)) {
      StepKeepsInv(v, a);
    }
    Runs.Keeps(Do, Inv, w, actions);
  }

  // ----------------------------------------------------------------- theorems

  /**
   * Over any stretch of any run an order only moves PENDING, PAID, REFUNDED in that order; its provider,
   * trade number and payment time are set by the step that pays it and never change again.
   */
  lemma {:induction false} RunMovesForward(w: World, actions: seq<Action>)
    ensures TableLater(w.orders, Run(w, actions).orders)
    decreases |actions|
  {
    if actions != [] {
      var w1 := Do(w, actions[0]);
      var w2 := Run(w1, actions[1..]);
      StepMovesForward(w, actions[0]);
      RunMovesForward(w1, actions[1..]);
      forall no | no in w.orders ensures no in w2.orders && Later(w.orders[no], w2.orders[no]) {
        LaterTransitive(w.orders[no], w1.orders[no], w2.orders[no]);
      }
    }
  }

  /** In every state no two orders hold one (provider, trade number) or one idempotency key. */
  lemma PairsAndKeysStayUnique(actions: seq<Action>)
    ensures GoodTable(Run(EMPTY, actions).orders)
  {
    RunKeepsInv(EMPTY, actions);
  }

  /** What an effective callback did to its order, given that its read is an earlier state of the order. */
  lemma EffectMatches(orders: OrderTable, cb: Callback, read: Option<Order>, reread: Reread, no: string)
    requires GoodTable(orders) && ReadIsPast(orders, Handling(cb, read))
    requires no in orders && Mark(orders, cb, read, reread).1.Keys == orders.Keys
      && Mark(orders, cb, read, reread).1[no] != orders[no]
    ensures no == cb.orderNo
    ensures var (o, o') := (orders[no], Mark(orders, cb, read, reread).1[no]);
      && HoldsPair(o', cb.provider, cb.tradeNo)
      && (if cb.event == PaidEvent then o.status == Pending && o' == PaidRow(o, cb)
          else o.status == Paid && HoldsPair(o, cb.provider, cb.tradeNo) && o' == RefundedRow(o, cb))
  {
    if cb.event == PaidEvent {
      assert UpdatePaid(orders, cb).Changed?;
    } else {
      assert UpdateRefunded(orders, cb).Changed?;
      assert Later(read.value, orders[cb.orderNo]) && WellPaid(read.value);
    }
  }

  lemma OnlyUpdatesChange(w: World, a: Action, no: string)
    requires no in w.orders && no in Do(w, a).orders && Do(w, a).orders[no] != w.orders[no]
    ensures Enabled(w, a) && a.UpdateOrder?
    ensures Do(w, a).orders == Mark(w.orders, w.clients[a.client].cb, w.clients[a.client].read, a.reread).1
  {
  }

  /**
   * A refund that takes effect carries exactly the pair the order was paid with, although the handler
   * compared it with a read that other callbacks may have overtaken; so does a payment.
   */
  lemma EffectiveCallbacksMatch(actions: seq<Action>, a: Action, no: string)
    requires var w := Run(EMPTY, actions);
      no in w.orders && Do(w, a).orders[no] != w.orders[no]
    ensures var w := Run(EMPTY, actions);
      && Enabled(w, a) && a.UpdateOrder? && no == w.clients[a.client].cb.orderNo
      && var cb := w.clients[a.client].cb;
         var (o, o') := (w.orders[no], Do(w, a).orders[no]);
      && HoldsPair(o', cb.provider, cb.tradeNo)
      && (if cb.event == PaidEvent then o.status == Pending && o' == PaidRow(o, cb)
          else o.status == Paid && HoldsPair(o, cb.provider, cb.tradeNo) && o' == RefundedRow(o, cb))
  {
    var w := Run(EMPTY, actions);
    RunKeepsInv(EMPTY, actions);
    OnlyUpdatesChange(w, a, no);
    var client := w.clients[a.client];
    assert ReadIsPast(w.orders, client);
    CallbackMovesForward(w.orders, client.cb, client.read, a.reread);
    EffectMatches(w.orders, client.cb, client.read, a.reread, no);
  }

  /**
   * All successful creations with one idempotency key return the same order: the one that exists now,
   * with the id, title and amount it was first written with. What a later request asked for is ignored.
   */
  lemma OneOrderPerKey(actions: seq<Action>, i: nat, j: nat)
    requires var receipts := Run(EMPTY, actions).receipts;
      i < |receipts| && j < |receipts| && receipts[i].key == receipts[j].key
    ensures var w := Run(EMPTY, actions);
      var (a, b) := (w.receipts[i], w.receipts[j]);
      && a.orderNo == b.orderNo && a.orderNo in w.orders
      && a.order.id == b.order.id == w.orders[a.orderNo].id
      && a.order.title == b.order.title == w.orders[a.orderNo].title
      && a.order.amountCents == b.order.amountCents == w.orders[a.orderNo].amountCents
      && w.orders[a.orderNo].idempotencyKey == Some(a.key)
  {
    var w := Run(EMPTY, actions);
    RunKeepsInv(EMPTY, actions);
    assert ReceiptIsPast(w.orders, w.receipts[i]) && ReceiptIsPast(w.orders, w.receipts[j]);
  }

  /**
   * A creation that meets no other request: with a free key and number it stores one pending order with what was
   * asked for and returns it, and with a taken key it returns the order that has it.
   */
  lemma SoloCreation(
    w: World, c: Id, key: string, request: OrderRequest, id: Id, orderNo: string, found: Option<string>)
    requires c !in w.clients && FoundBy(w.orders, key, found)
    ensures var w1 := Do(w, LookupKey(c, key, request, found));
      var w2 := Do(w1, InsertOrder(c, id, orderNo));
      if found.Some? then w1 == w.(receipts := w.receipts + [Receipt(key, found.value, w.orders[found.value])])
      else if orderNo in w.orders then w2.orders == w.orders && w2.receipts == w.receipts
      else
        && w2.orders.Keys == w.orders.Keys + {orderNo}
        && (forall no :: no in w.orders ==> w2.orders[no] == w.orders[no])
        && w2.clients == w.clients && w2.receipts == w.receipts + [Receipt(key, orderNo, w2.orders[orderNo])]
        && var o := w2.orders[orderNo];
           && o.id == id && o.studentId == request.studentId && o.title == request.title
           && o.amountCents == request.amountCents && o.status == Pending && o.idempotencyKey == Some(key)
           && o.provider == None && o.tradeNo == None && o.paidAt == None && o.refundedAt == None
  {
    var w1 := Do(w, LookupKey(c, key, request, found));
    assert w1.clients - {c} == w.clients;
    assert found.None? ==> !KeyTaken(w1.orders, key);
  }

  /** A creation that loses the race for its key stores nothing and returns the order that won. */
  lemma LostCreation(w: World, c: Id, id: Id, orderNo: string, winner: string)
    requires c in w.clients && w.clients[c].Creating? && winner in w.orders
    requires w.orders[winner].idempotencyKey == Some(w.clients[c].key)
    ensures var w' := Do(Do(w, InsertOrder(c, id, orderNo)), LookupWinner(c, Some(winner)));
      w' == World(w.orders, w.clients - {c}, w.receipts + [Receipt(w.clients[c].key, winner, w.orders[winner])])
  {
    assert KeyTaken(w.orders, w.clients[c].key);
    assert w.clients[c := LostRace(w.clients[c].key)] - {c} == w.clients - {c};
  }

  /** A callback that meets no other request is handled as if alone. */
  lemma SoloCallback(w: World, c: Id, cb: Callback)
    requires Inv(w) && c !in w.clients && ValidCallback(cb)
    ensures var w1 := Do(w, ReadOrder(c, cb));
      var w2 := Do(w1, UpdateOrder(c, RereadOf(Lookup(w.orders, cb.orderNo), cb)));
      w2.orders == Handle(w.orders, cb).1 && w2.clients == w.clients && w2.receipts == w.receipts
  {
    var w1 := Do(w, ReadOrder(c, cb));
    StepKeepsInv(w, ReadOrder(c, cb));
    BothRereadsPlausible(w1.orders, w1.clients[c]);
    assert w1.clients - {c} == w.clients;
  }

  /** Both isolation levels fit: a query sees the transaction's snapshot or the current table. */
  lemma BothRereadsPlausible(orders: OrderTable, client: Client)
    requires client.Handling? && ReadIsPast(orders, client)
    ensures var current := Lookup(orders, client.cb.orderNo);
      && Plausible(client.read, RereadOf(current, client.cb), current, client.cb)
      && Plausible(client.read, RereadOf(client.read, client.cb), current, client.cb)
  {
  }

  lemma AcceptedPaymentIsSettled(orders: OrderTable, client: Client, reread: Reread)
    requires client.Handling? && ReadIsPast(orders, client) && client.cb.event == PaidEvent
    requires client.cb.orderNo in orders ==> WellPaid(orders[client.cb.orderNo])
    requires Plausible(client.read, reread, Lookup(orders, client.cb.orderNo), client.cb)
    requires UniquePairs(orders) && MarkPaid(orders, client.cb, client.read, reread).0.Accepted?
    ensures var (cb, (reply, orders')) := (client.cb, MarkPaid(orders, client.cb, client.read, reread));
      && cb.orderNo in orders' && HoldsPair(orders'[cb.orderNo], cb.provider, cb.tradeNo)
      && Settled(orders', KeyOf(cb)) && Later(reply.order, orders'[cb.orderNo])
  {
  }

  lemma AcceptedRefundIsSettled(orders: OrderTable, client: Client, reread: Reread)
    requires client.Handling? && ReadIsPast(orders, client) && client.cb.event == RefundedEvent
    requires client.cb.orderNo in orders ==> WellPaid(orders[client.cb.orderNo])
    requires Plausible(client.read, reread, Lookup(orders, client.cb.orderNo), client.cb)
    requires UniquePairs(orders) && MarkRefunded(orders, client.cb, client.read, reread).0.Accepted?
    ensures var (cb, (reply, orders')) := (client.cb, MarkRefunded(orders, client.cb, client.read, reread));
      && cb.orderNo in orders' && HoldsPair(orders'[cb.orderNo], cb.provider, cb.tradeNo)
      && Settled(orders', KeyOf(cb)) && Later(reply.order, orders'[cb.orderNo])
  {
  }

  lemma AcceptedIsSettled(orders: OrderTable, client: Client, reread: Reread)
    requires GoodTable(orders) && client.Handling? && ReadIsPast(orders, client)
    requires Plausible(client.read, reread, Lookup(orders, client.cb.orderNo), client.cb)
    requires Mark(orders, client.cb, client.read, reread).0.Accepted?
    ensures var (cb, (reply, orders')) := (client.cb, Mark(orders, client.cb, client.read, reread));
      && cb.orderNo in orders' && HoldsPair(orders'[cb.orderNo], cb.provider, cb.tradeNo)
      && Settled(orders', KeyOf(cb)) && Later(reply.order, orders'[cb.orderNo])
  {
    assert client.cb.orderNo in orders ==> WellPaid(orders[client.cb.orderNo]);
    match client.cb.event
    case PaidEvent => AcceptedPaymentIsSettled(orders, client, reread);
    case RefundedEvent => AcceptedRefundIsSettled(orders, client, reread);
  }

  /**
   * In any run, a callback that is answered with an acceptance is in effect and the order carries its pair,
   * then and in every later state, although the answer rests on reads others may have overtaken. The order
   * in the answer is a state the stored one has passed through.
   */
  lemma AcceptedStaysInEffect(actions: seq<Action>, a: Action, later: seq<Action>)
    requires var w := Run(EMPTY, actions);
      && a.UpdateOrder? && Enabled(w, a)
      && Mark(w.orders, w.clients[a.client].cb, w.clients[a.client].read, a.reread).0.Accepted?
    ensures var w := Run(EMPTY, actions);
      var cb := w.clients[a.client].cb;
      var reply := Mark(w.orders, cb, w.clients[a.client].read, a.reread).0;
      var orders' := Run(Do(w, a), later).orders;
      && Settled(orders', KeyOf(cb)) && HoldsPair(orders'[cb.orderNo], cb.provider, cb.tradeNo)
      && Later(reply.order, orders'[cb.orderNo])
  {
    var w := Run(EMPTY, actions);
    var client := w.clients[a.client];
    RunKeepsInv(EMPTY, actions);
    assert ReadIsPast(w.orders, client);
    AcceptedIsSettled(w.orders, client, a.reread);
    var reply := Mark(w.orders, client.cb, client.read, a.reread).0;
    var w1, w2 := Do(w, a), Run(Do(w, a), later);
    RunMovesForward(w1, later);
    SettledStays(w1.orders, w2.orders, KeyOf(client.cb));
    LaterTransitive(reply.order, w1.orders[client.cb.orderNo], w2.orders[client.cb.orderNo]);
  }
}
