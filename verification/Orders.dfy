/**
 * Orders and payment callbacks (src/modules/billing/billing.service.ts). The table is keyed by the
 * unique order number; (provider, trade number) and the idempotency key are unique as well.
 */
module Orders {
  import opened Common

  datatype OrderStatus = Pending | Paid | Refunded | Cancelled
  datatype Provider = MOCK | WECHAT | ALIPAY
  datatype Event = PaidEvent | RefundedEvent

  datatype Order = Order(
    id: Id, studentId: Option<Id>, title: string, amountCents: int, currency: string, status: OrderStatus,
    provider: Option<Provider>, tradeNo: Option<string>, idempotencyKey: Option<string>,
    paidAt: Option<int>, refundedAt: Option<int>)

  type OrderTable = map<string, Order>

  /** A verified callback. `at` is the event time it carries, or the time of arrival. */
  datatype Callback = Callback(orderNo: string, provider: Provider, tradeNo: string, event: Event, at: int)

  datatype Reply = Accepted(order: Order) | NotFound | Conflict | BadRequest

  predicate HoldsPair(o: Order, provider: Provider, tradeNo: string) {
    o.provider == Some(provider) && o.tradeNo == Some(tradeNo)
  }

  /** The unique index on (provider, trade number); rows with a null in either column are exempt. */
  ghost predicate UniquePairs(orders: OrderTable) {
    forall a, b :: a in orders && b in orders && a != b && orders[a].provider.Some? && orders[a].tradeNo.Some?
      ==> !HoldsPair(orders[b], orders[a].provider.value, orders[a].tradeNo.value)
  }

  predicate PairTaken(orders: OrderTable, orderNo: string, provider: Provider, tradeNo: string) {
    exists other :: other in orders && other != orderNo && HoldsPair(orders[other], provider, tradeNo)
  }

  predicate IsSamePaidCallback(o: Order, cb: Callback) {
    o.status == Paid && HoldsPair(o, cb.provider, cb.tradeNo)
  }

  predicate IsSameRefundCallback(o: Order, cb: Callback) {
    o.status == Refunded && HoldsPair(o, cb.provider, cb.tradeNo)
  }

  /** The refund check: an order paid without a recorded trade number accepts any. */
  predicate RefundMatches(o: Order, cb: Callback) {
    o.provider == Some(cb.provider) && (o.tradeNo == None || o.tradeNo == Some("") || o.tradeNo == Some(cb.tradeNo))
  }

  function Lookup(orders: OrderTable, orderNo: string): Option<Order> {
    if orderNo in orders then Some(orders[orderNo]) else None
  }

  /** What a handler decides from its first read: an answer, or an attempt at the conditional update. */
  function PaidPlan(read: Option<Order>, cb: Callback): Option<Reply> {
    match read
    case None => Some(NotFound)
    case Some(o) =>
      if IsSamePaidCallback(o, cb) then Some(Accepted(o))
      else if o.status == Paid then Some(Conflict)
      else if o.status == Refunded || o.status == Cancelled then Some(BadRequest)
      else None
  }

  function RefundPlan(read: Option<Order>, cb: Callback): Option<Reply> {
    match read
    case None => Some(NotFound)
    case Some(o) =>
      if o.status == Refunded then (if IsSameRefundCallback(o, cb) then Some(Accepted(o)) else Some(Conflict))
      else if o.status != Paid then Some(BadRequest)
      else if !RefundMatches(o, cb) then Some(Conflict)
      else None
  }

  function PaidRow(o: Order, cb: Callback): Order {
    o.(status := Paid, provider := Some(cb.provider), tradeNo := Some(cb.tradeNo), paidAt := Some(cb.at))
  }

  function RefundedRow(o: Order, cb: Callback): Order {
    o.(status := Refunded, refundedAt := Some(cb.at))
  }

  /** UPDATE ... WHERE orderNo AND status = PENDING: changed, not matched, or refused by the unique index. */
  datatype Updated = Changed(orders: OrderTable) | NoMatch | UniqueViolation

  function UpdatePaid(orders: OrderTable, cb: Callback): Updated {
    if cb.orderNo !in orders || orders[cb.orderNo].status != Pending then NoMatch
    else if PairTaken(orders, cb.orderNo, cb.provider, cb.tradeNo) then UniqueViolation
    else Changed(orders[cb.orderNo := PaidRow(orders[cb.orderNo], cb)])
  }

  function UpdateRefunded(orders: OrderTable, cb: Callback): Updated {
    if cb.orderNo !in orders || orders[cb.orderNo].status != Paid then NoMatch
    else Changed(orders[cb.orderNo := RefundedRow(orders[cb.orderNo], cb)])
  }

  /**
   * What the queries after a lost race return: whether the order found by trade is this one, and the order
   * found by its number. In a transaction at the default isolation level both see the transaction's snapshot.
   */
  datatype Reread = Reread(byTradeIsThis: bool, again: Option<Order>)

  function RereadOf(seen: Option<Order>, cb: Callback): Reread {
    Reread(seen.Some? && HoldsPair(seen.value, cb.provider, cb.tradeNo), seen)
  }

  function ResolvePaidCallbackAfterUniqueConflict(reread: Reread): Reply {
    if reread.byTradeIsThis && reread.again.Some? then Accepted(reread.again.value) else Conflict
  }

  function ResolvePaidCallbackAfterRace(reread: Reread, cb: Callback): Reply {
    if reread.again.Some? && IsSamePaidCallback(reread.again.value, cb)
    then Accepted(reread.again.value) else Conflict
  }

  function ResolveRefundAfterRace(reread: Reread, cb: Callback): Reply {
    if reread.again.Some? && IsSameRefundCallback(reread.again.value, cb)
    then Accepted(reread.again.value) else Conflict
  }

  /** A whole paid callback. `read` is what its first query returned; it and `reread` may be out of date. */
  function MarkPaid(orders: OrderTable, cb: Callback, read: Option<Order>, reread: Reread): (Reply, OrderTable) {
    match PaidPlan(read, cb)
    case Some(reply) => (reply, orders)
    case None =>
      match UpdatePaid(orders, cb)
      case Changed(orders') => (Accepted(PaidRow(orders[cb.orderNo], cb)), orders')
      case UniqueViolation => (ResolvePaidCallbackAfterUniqueConflict(reread), orders)
      case NoMatch => (ResolvePaidCallbackAfterRace(reread, cb), orders)
  }

  function MarkRefunded(orders: OrderTable, cb: Callback, read: Option<Order>, reread: Reread): (Reply, OrderTable) {
    match RefundPlan(read, cb)
    case Some(reply) => (reply, orders)
    case None =>
      match UpdateRefunded(orders, cb)
      case Changed(orders') => (Accepted(RefundedRow(orders[cb.orderNo], cb)), orders')
      case _ => (ResolveRefundAfterRace(reread, cb), orders)
  }

  /** Either callback, with whatever its queries return. */
  function Mark(orders: OrderTable, cb: Callback, read: Option<Order>, reread: Reread): (Reply, OrderTable) {
    match cb.event
    case PaidEvent => MarkPaid(orders, cb, read, reread)
    case RefundedEvent => MarkRefunded(orders, cb, read, reread)
  }

  /** A callback handled without interference: its read is current. */
  function Handle(orders: OrderTable, cb: Callback): (Reply, OrderTable) {
    Mark(orders, cb, Lookup(orders, cb.orderNo), RereadOf(Lookup(orders, cb.orderNo), cb))
  }

  // ---------------------------------------------------------- order life cycle

  /** `o'` is what `o` may have become: payment fields are frozen once it has left PENDING. */
  predicate Later(o: Order, o': Order) {
    && o'.id == o.id && o'.studentId == o.studentId && o'.title == o.title && o'.amountCents == o.amountCents
    && o'.currency == o.currency && o'.idempotencyKey == o.idempotencyKey
    && (o.status != Pending ==> o'.provider == o.provider && o'.tradeNo == o.tradeNo && o'.paidAt == o.paidAt)
    && (o.status != Paid && o.status != Pending ==> o' == o)
    && (o.status == Paid ==> o' == o || o'.status == Refunded)
    && (o.status == Pending ==> o' == o || o'.status == Paid || o'.status == Refunded)
  }

  lemma LaterTransitive(a: Order, b: Order, c: Order)
    requires Later(a, b) && Later(b, c)
    ensures Later(a, c)
  {
  }

  ghost predicate TableLater(orders: OrderTable, orders': OrderTable) {
    forall no :: no in orders ==> no in orders' && Later(orders[no], orders'[no])
  }

  /** Whatever was read, a callback only moves its own order, and only forward. */
  lemma CallbackMovesForward(orders: OrderTable, cb: Callback, read: Option<Order>, reread: Reread)
    ensures var orders' := Mark(orders, cb, read, reread).1;
      && TableLater(orders, orders') && orders'.Keys == orders.Keys
      && forall no :: no in orders && no != cb.orderNo ==> orders'[no] == orders[no]
  {
  }

  lemma CallbackKeepsUniquePairs(orders: OrderTable, cb: Callback, read: Option<Order>, reread: Reread)
    requires UniquePairs(orders)
    ensures UniquePairs(Mark(orders, cb, read, reread).1)
  {
    var paid := Mark(orders, cb, read, reread).1;
    if paid != orders {
      forall a, b | a in paid && b in paid && a != b && paid[a].provider.Some? && paid[a].tradeNo.Some?
        ensures !HoldsPair(paid[b], paid[a].provider.value, paid[a].tradeNo.value)
      {
        assert a != cb.orderNo ==> paid[a] == orders[a];
        assert b != cb.orderNo ==> paid[b] == orders[b];
      }
    }
  }

  /**
   * The branch that answers a unique violation with the order itself is never taken: the index refused
   * the pair because another order holds it, and then this one cannot.
   */
  lemma ViolationMeansOtherOrder(orders: OrderTable, cb: Callback)
    requires UniquePairs(orders) && UpdatePaid(orders, cb) == UniqueViolation
    ensures !HoldsPair(orders[cb.orderNo], cb.provider, cb.tradeNo)
  {
    var other :| other in orders && other != cb.orderNo && HoldsPair(orders[other], cb.provider, cb.tradeNo);
    assert !HoldsPair(orders[cb.orderNo], orders[other].provider.value, orders[other].tradeNo.value);
  }

  /**
   * After a lost race, exactly: queries that see the current table accept a callback whose event is already in
   * effect for this trade, and only such a one; queries that see the transaction's snapshot accept none.
   */
  lemma LostRaceIff(orders: OrderTable, cb: Callback, read: Order)
    requires UniquePairs(orders) && (cb.event == PaidEvent ==> !HoldsPair(read, cb.provider, cb.tradeNo))
    requires if cb.event == PaidEvent then PaidPlan(Some(read), cb).None? && !UpdatePaid(orders, cb).Changed?
             else RefundPlan(Some(read), cb).None? && !UpdateRefunded(orders, cb).Changed?
    ensures var current := Mark(orders, cb, Some(read), RereadOf(Lookup(orders, cb.orderNo), cb)).0;
      current.Accepted? <==>
        && Settled(orders, KeyOf(cb)) && HoldsPair(orders[cb.orderNo], cb.provider, cb.tradeNo)
        && (cb.event == PaidEvent ==> orders[cb.orderNo].status == Paid)
    ensures Mark(orders, cb, Some(read), RereadOf(Some(read), cb)) == (Conflict, orders)
  {
    if cb.event == PaidEvent && UpdatePaid(orders, cb) == UniqueViolation {
      ViolationMeansOtherOrder(orders, cb);
    }
  }

  // ----------------------------------------------------- every reply, exactly

  /** Another order holds the callback's provider and trade number. */
  ghost predicate TradeIsElsewhere(orders: OrderTable, cb: Callback) {
    exists other :: other in orders && other != cb.orderNo
      && orders[other].provider == Some(cb.provider) && orders[other].tradeNo == Some(cb.tradeNo)
  }

  predicate HasTrade(o: Order, cb: Callback) {
    o.provider == Some(cb.provider) && o.tradeNo == Some(cb.tradeNo)
  }

  /** Only this order changes, and of it only what a payment sets. */
  predicate PaysOrder(orders: OrderTable, cb: Callback, orders': OrderTable) {
    && orders'.Keys == orders.Keys && cb.orderNo in orders
    && (forall no :: no in orders && no != cb.orderNo ==> orders'[no] == orders[no])
    && var (o, o') := (orders[cb.orderNo], orders'[cb.orderNo]);
       && o'.status == Paid && HasTrade(o', cb) && o'.paidAt == Some(cb.at) && o'.refundedAt == o.refundedAt
       && SameSale(o, o')
  }

  /** Only this order changes, and of it only what a refund sets. */
  predicate RefundsOrder(orders: OrderTable, cb: Callback, orders': OrderTable) {
    && orders'.Keys == orders.Keys && cb.orderNo in orders
    && (forall no :: no in orders && no != cb.orderNo ==> orders'[no] == orders[no])
    && var (o, o') := (orders[cb.orderNo], orders'[cb.orderNo]);
       && o'.status == Refunded && o'.refundedAt == Some(cb.at)
       && o'.provider == o.provider && o'.tradeNo == o.tradeNo && o'.paidAt == o.paidAt
       && SameSale(o, o')
  }

  predicate SameSale(o: Order, o': Order) {
    && o'.id == o.id && o'.studentId == o.studentId && o'.title == o.title && o'.amountCents == o.amountCents
    && o'.currency == o.currency && o'.idempotencyKey == o.idempotencyKey
  }

  /** Reply and effect of a paid callback, given what its queries returned. */
  ghost predicate PaidEffect(
    orders: OrderTable, cb: Callback, read: Option<Order>, reread: Reread, reply: Reply, orders': OrderTable)
  {
    if read == None then reply == NotFound && orders' == orders
    else match read.value.status
      case Paid =>
        orders' == orders && reply == if HasTrade(read.value, cb) then Accepted(read.value) else Conflict
      case Refunded => orders' == orders && reply == BadRequest
      case Cancelled => orders' == orders && reply == BadRequest
      case Pending =>
        if cb.orderNo in orders && orders[cb.orderNo].status == Pending then
          if TradeIsElsewhere(orders, cb) then
            orders' == orders
            && reply == if reread.byTradeIsThis && reread.again.Some? then Accepted(reread.again.value) else Conflict
          else PaysOrder(orders, cb, orders') && reply == Accepted(orders'[cb.orderNo])
        else
          orders' == orders
          && reply == if reread.again.Some? && reread.again.value.status == Paid && HasTrade(reread.again.value, cb)
                      then Accepted(reread.again.value) else Conflict
  }

  /** The trade the refund names is the one recorded; an order paid without a recorded trade number takes any. */
  predicate MayRefund(o: Order, cb: Callback) {
    o.provider == Some(cb.provider) && o.tradeNo in {None, Some(""), Some(cb.tradeNo)}
  }

  ghost predicate RefundEffect(
    orders: OrderTable, cb: Callback, read: Option<Order>, reread: Reread, reply: Reply, orders': OrderTable)
  {
    if read == None then reply == NotFound && orders' == orders
    else match read.value.status
      case Refunded =>
        orders' == orders && reply == if HasTrade(read.value, cb) then Accepted(read.value) else Conflict
      case Pending => orders' == orders && reply == BadRequest
      case Cancelled => orders' == orders && reply == BadRequest
      case Paid =>
        if !MayRefund(read.value, cb) then orders' == orders && reply == Conflict
        else if cb.orderNo in orders && orders[cb.orderNo].status == Paid then
          RefundsOrder(orders, cb, orders') && reply == Accepted(orders'[cb.orderNo])
        else
          orders' == orders
          && reply == if reread.again.Some? && reread.again.value.status == Refunded && HasTrade(reread.again.value, cb)
                      then Accepted(reread.again.value) else Conflict
  }

  /** Every paid callback, whatever its queries returned, is answered so and does this. */
  lemma MarkPaidDoes(orders: OrderTable, cb: Callback, read: Option<Order>, reread: Reread)
    ensures var (reply, orders') := MarkPaid(orders, cb, read, reread);
      PaidEffect(orders, cb, read, reread, reply, orders')
  {
    TradeElsewhereIff(orders, cb);
  }

  lemma TradeElsewhereIff(orders: OrderTable, cb: Callback)
    ensures TradeIsElsewhere(orders, cb) <==> PairTaken(orders, cb.orderNo, cb.provider, cb.tradeNo)
  {
    if other :| other in orders && other != cb.orderNo && HoldsPair(orders[other], cb.provider, cb.tradeNo) {
      assert orders[other].provider == Some(cb.provider) && orders[other].tradeNo == Some(cb.tradeNo);
    }
    forall other | other in orders && other != cb.orderNo && !HoldsPair(orders[other], cb.provider, cb.tradeNo)
      ensures !(orders[other].provider == Some(cb.provider) && orders[other].tradeNo == Some(cb.tradeNo))
    {
    }
  }

  lemma MarkRefundedDoes(orders: OrderTable, cb: Callback, read: Option<Order>, reread: Reread)
    ensures var (reply, orders') := MarkRefunded(orders, cb, read, reread);
      RefundEffect(orders, cb, read, reread, reply, orders')
  {
  }

  /**
   * A paid callback handled alone: it is accepted exactly if its order is pending and no other order has the
   * trade, or is paid by this trade already; the other replies have their exact conditions too.
   */
  ghost predicate PaidReply(orders: OrderTable, cb: Callback, reply: Reply, orders': OrderTable) {
    var known := cb.orderNo in orders;
    var pending := known && orders[cb.orderNo].status == Pending;
    var paid := known && orders[cb.orderNo].status == Paid;
    && (reply == NotFound <==> !known)
    && (reply.Accepted? <==>
          (pending && !TradeIsElsewhere(orders, cb)) || (paid && HasTrade(orders[cb.orderNo], cb)))
    && (reply == Conflict <==>
          (pending && TradeIsElsewhere(orders, cb)) || (paid && !HasTrade(orders[cb.orderNo], cb)))
    && (reply == BadRequest <==> known && orders[cb.orderNo].status in {Refunded, Cancelled})
    && (if pending && !TradeIsElsewhere(orders, cb) then PaysOrder(orders, cb, orders') else orders' == orders)
    && (reply.Accepted? ==> cb.orderNo in orders' && reply.order == orders'[cb.orderNo])
  }

  /** A refund handled alone: accepted exactly if its order is paid and matches, or is refunded of this trade. */
  ghost predicate RefundReply(orders: OrderTable, cb: Callback, reply: Reply, orders': OrderTable) {
    var known := cb.orderNo in orders;
    var paid := known && orders[cb.orderNo].status == Paid;
    var refunded := known && orders[cb.orderNo].status == Refunded;
    && (reply == NotFound <==> !known)
    && (reply.Accepted? <==>
          (paid && MayRefund(orders[cb.orderNo], cb)) || (refunded && HasTrade(orders[cb.orderNo], cb)))
    && (reply == Conflict <==>
          (paid && !MayRefund(orders[cb.orderNo], cb)) || (refunded && !HasTrade(orders[cb.orderNo], cb)))
    && (reply == BadRequest <==> known && orders[cb.orderNo].status in {Pending, Cancelled})
    && (if paid && MayRefund(orders[cb.orderNo], cb) then RefundsOrder(orders, cb, orders') else orders' == orders)
    && (reply.Accepted? ==> cb.orderNo in orders' && reply.order == orders'[cb.orderNo])
  }

  lemma HandleDoes(orders: OrderTable, cb: Callback)
    requires UniquePairs(orders)
    ensures var (reply, orders') := Handle(orders, cb);
      if cb.event == PaidEvent then PaidReply(orders, cb, reply, orders') else RefundReply(orders, cb, reply, orders')
  {
    var read := Lookup(orders, cb.orderNo);
    MarkPaidDoes(orders, cb, read, RereadOf(read, cb));
    MarkRefundedDoes(orders, cb, read, RereadOf(read, cb));
    TradeElsewhereIff(orders, cb);
    if UpdatePaid(orders, cb) == UniqueViolation {
      ViolationMeansOtherOrder(orders, cb);
    }
  }

  // --------------------------------------------------- at least once, exactly once

  /** Callbacks that report the same event of the same trade. */
  datatype EventKey = EventKey(orderNo: string, provider: Provider, tradeNo: string, event: Event)

  function KeyOf(cb: Callback): EventKey {
    EventKey(cb.orderNo, cb.provider, cb.tradeNo, cb.event)
  }

  function HandleAll(orders: OrderTable, cbs: seq<Callback>): OrderTable
    decreases |cbs|
  {
    if cbs == [] then orders else HandleAll(Handle(orders, cbs[0]).1, cbs[1..])
  }

  /** The callbacks left when every repetition of an earlier accepted one is deleted. */
  function WithoutRepeats(orders: OrderTable, cbs: seq<Callback>, accepted: set<EventKey>): seq<Callback>
    decreases |cbs|
  {
    if cbs == [] then []
    else
      var (reply, orders') := Handle(orders, cbs[0]);
      if KeyOf(cbs[0]) in accepted then WithoutRepeats(orders, cbs[1..], accepted)
      else
        var accepted' := if reply.Accepted? then accepted + {KeyOf(cbs[0])} else accepted;
        [cbs[0]] + WithoutRepeats(orders', cbs[1..], accepted')
  }

  /** The event has taken effect. */
  predicate Settled(orders: OrderTable, key: EventKey) {
    && key.orderNo in orders
    && match key.event
       case PaidEvent => orders[key.orderNo].status == Paid || orders[key.orderNo].status == Refunded
       case RefundedEvent => orders[key.orderNo].status == Refunded
  }

  lemma SettledStays(orders: OrderTable, orders': OrderTable, key: EventKey)
    requires Settled(orders, key) && TableLater(orders, orders')
    ensures Settled(orders', key)
  {
    assert Later(orders[key.orderNo], orders'[key.orderNo]);
  }

  /** A settled event cannot be applied twice, an accepted one is settled, and a refused one changes nothing. */
  lemma HandleSettles(orders: OrderTable, cb: Callback)
    requires UniquePairs(orders)
    ensures Settled(orders, KeyOf(cb)) ==> Handle(orders, cb).1 == orders
    ensures Handle(orders, cb).0.Accepted? ==> Settled(Handle(orders, cb).1, KeyOf(cb))
    ensures !Handle(orders, cb).0.Accepted? ==> Handle(orders, cb).1 == orders
    ensures TableLater(orders, Handle(orders, cb).1) && UniquePairs(Handle(orders, cb).1)
  {
    CallbackKeepsUniquePairs(orders, cb, Lookup(orders, cb.orderNo), RereadOf(Lookup(orders, cb.orderNo), cb));
    if UpdatePaid(orders, cb) == UniqueViolation {
      ViolationMeansOtherOrder(orders, cb);
    }
  }

  /**
   * An accepted reply is the stored order, and a payment's order carries the callback's trade. What the
   * callback changed is the order's status and the time of the event.
   */
  lemma AcceptedReplyIsStored(orders: OrderTable, cb: Callback)
    requires UniquePairs(orders) && Handle(orders, cb).0.Accepted?
    ensures var (reply, orders') := Handle(orders, cb);
      && cb.orderNo in orders && cb.orderNo in orders' && reply.order == orders'[cb.orderNo]
      && reply.order.provider == Some(cb.provider)
      && (cb.event == PaidEvent ==> reply.order.status == Paid && reply.order.tradeNo == Some(cb.tradeNo))
      && (cb.event == RefundedEvent ==> reply.order.status == Refunded)
      && (orders' != orders && cb.event == PaidEvent ==>
            orders[cb.orderNo].status == Pending && reply.order.paidAt == Some(cb.at)
            && reply.order.refundedAt == orders[cb.orderNo].refundedAt)
      && (orders' != orders && cb.event == RefundedEvent ==>
            orders[cb.orderNo].status == Paid && reply.order.refundedAt == Some(cb.at)
            && reply.order.paidAt == orders[cb.orderNo].paidAt)
  {
    if UpdatePaid(orders, cb) == UniqueViolation {
      ViolationMeansOtherOrder(orders, cb);
    }
  }

  lemma {:induction false} RepeatsChangeNothing(orders: OrderTable, cbs: seq<Callback>, accepted: set<EventKey>)
    requires UniquePairs(orders)
    requires forall key :: key in accepted ==> Settled(orders, key)
    ensures HandleAll(orders, WithoutRepeats(orders, cbs, accepted)) == HandleAll(orders, cbs)
    decreases |cbs|
  {
    if cbs != [] {
      var cb := cbs[0];
      var (reply, orders') := Handle(orders, cb);
      HandleSettles(orders, cb);
      forall key | key in accepted ensures Settled(orders', key) {
        SettledStays(orders, orders', key);
      }
      if KeyOf(cb) in accepted {
        RepeatsChangeNothing(orders, cbs[1..], accepted);
      } else {
        var accepted' := if reply.Accepted? then accepted + {KeyOf(cb)} else accepted;
        RepeatsChangeNothing(orders', cbs[1..], accepted');
        var rest := WithoutRepeats(orders', cbs[1..], accepted');
        assert ([cb] + rest)[1..] == rest;
      }
    }
  }

  /**
   * Delivering callbacks at least once is as good as exactly once: from any table the unique index
   * admits, deleting every repetition of an accepted callback leaves the same final table.
   */
  lemma AtLeastOnceIsExactlyOnce(orders: OrderTable, cbs: seq<Callback>)
    requires UniquePairs(orders)
    ensures HandleAll(orders, WithoutRepeats(orders, cbs, {})) == HandleAll(orders, cbs)
  {
    RepeatsChangeNothing(orders, cbs, {});
  }
}
