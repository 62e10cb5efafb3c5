/** The billing handlers over an order table updated in place. */
module BillingService {
  import opened Common
  import opened Orders

  datatype OrderRequest = OrderRequest(studentId: Option<Id>, title: string, amountCents: int, currency: Option<string>)

  const DEFAULT_CURRENCY: string := "CNY"

  function NewOrder(id: Id, request: OrderRequest, idempotencyKey: string): Order {
    Order(id, request.studentId, request.title, request.amountCents, OrElse(request.currency, DEFAULT_CURRENCY),
          Pending, None, None, Some(idempotencyKey), None, None)
  }

  ghost predicate UniqueKeys(orders: OrderTable) {
    forall a, b :: a in orders && b in orders && a != b && orders[a].idempotencyKey.Some?
      ==> orders[b].idempotencyKey != orders[a].idempotencyKey
  }

  predicate KeyTaken(orders: OrderTable, key: string) {
    exists no :: no in orders && orders[no].idempotencyKey == Some(key)
  }

  class OrderStore {
    var orders: OrderTable

    constructor ()
      ensures orders == map[] && UniquePairs(orders) && UniqueKeys(orders)
    {
      orders := map[];
    }

    method FindByKey(key: string) returns (found: Option<string>)
      ensures found.Some? ==> found.value in orders && orders[found.value].idempotencyKey == Some(key)
      ensures found.None? <==> !KeyTaken(orders, key)
    {
      if no :| no in orders && orders[no].idempotencyKey == Some(key) {
        return Some(no);
      }
      return None;
    }

    /** `id` and `orderNo` are generated; `early` is what the lookup before the insert returned. */
    method CreateOrder(request: OrderRequest, key: string, id: Id, orderNo: string, early: Option<string>)
      returns (r: Option<string>)
      requires UniqueKeys(orders) && UniquePairs(orders)
      requires early.Some? ==> early.value in orders && orders[early.value].idempotencyKey == Some(key)
      modifies this
      ensures UniqueKeys(orders) && UniquePairs(orders)
      ensures r.Some? ==> r.value in orders && orders[r.value].idempotencyKey == Some(key)
      ensures KeyTaken(old(orders), key) || orderNo in old(orders) ==> orders == old(orders)
      ensures !KeyTaken(old(orders), key) && orderNo !in old(orders) ==>
                r == Some(orderNo) && orders == old(orders)[orderNo := NewOrder(id, request, key)]
      ensures !KeyTaken(old(orders), key) && orderNo !in old(orders) ==>
                var o := orders[orderNo];
                && o.id == id && o.studentId == request.studentId && o.title == request.title
                && o.amountCents == request.amountCents
                && (request.currency == None ==> o.currency == "CNY")
                && (request.currency.Some? ==> o.currency == request.currency.value)
                && o.status == Pending && o.idempotencyKey == Some(key)
                && o.provider == None && o.tradeNo == None && o.paidAt == None && o.refundedAt == None
      ensures r.None? <==> !KeyTaken(old(orders), key) && orderNo in old(orders)
    {
      if early.Some? {
        return early;
      }
      if orderNo !in orders && !KeyTaken(orders, key) {
        orders := orders[orderNo := NewOrder(id, request, key)];
        return Some(orderNo);
      }
      r := FindByKey(key);
    }

    method MarkOrderPaid(cb: Callback, read: Option<Order>, reread: Reread) returns (reply: Reply)
      requires UniquePairs(orders)
      modifies this
      ensures (reply, orders) == MarkPaid(old(orders), cb, read, reread)
      ensures PaidEffect(old(orders), cb, read, reread, reply, orders)
      ensures UniquePairs(orders) && TableLater(old(orders), orders)
    {
      MarkPaidDoes(orders, cb, read, reread);
      CallbackKeepsUniquePairs(orders, cb.(event := PaidEvent), read, reread);
      CallbackMovesForward(orders, cb.(event := PaidEvent), read, reread);
      if read.None? {
        return NotFound;
      }
      if IsSamePaidCallback(read.value, cb) {
        return Accepted(read.value);
      }
      if read.value.status == Paid {
        return Conflict;
      }
      if read.value.status == Refunded || read.value.status == Cancelled {
        return BadRequest;
      }
      if cb.orderNo in orders && orders[cb.orderNo].status == Pending {
        if PairTaken(orders, cb.orderNo, cb.provider, cb.tradeNo) {
          return ResolvePaidCallbackAfterUniqueConflict(reread);
        }
        orders := orders[cb.orderNo := PaidRow(orders[cb.orderNo], cb)];
        return Accepted(orders[cb.orderNo]);
      }
      return ResolvePaidCallbackAfterRace(reread, cb);
    }

    method MarkOrderRefunded(cb: Callback, read: Option<Order>, reread: Reread) returns (reply: Reply)
      requires UniquePairs(orders)
      modifies this
      ensures (reply, orders) == MarkRefunded(old(orders), cb, read, reread)
      ensures RefundEffect(old(orders), cb, read, reread, reply, orders)
      ensures UniquePairs(orders) && TableLater(old(orders), orders)
    {
      MarkRefundedDoes(orders, cb, read, reread);
      CallbackKeepsUniquePairs(orders, cb.(event := RefundedEvent), read, reread);
      CallbackMovesForward(orders, cb.(event := RefundedEvent), read, reread);
      if read.None? {
        return NotFound;
      }
      if read.value.status == Refunded {
        return if IsSameRefundCallback(read.value, cb) then Accepted(read.value) else Conflict;
      }
      if read.value.status != Paid {
        return BadRequest;
      }
      if !RefundMatches(read.value, cb) {
        return Conflict;
      }
      if cb.orderNo in orders && orders[cb.orderNo].status == Paid {
        orders := orders[cb.orderNo := RefundedRow(orders[cb.orderNo], cb)];
        return Accepted(orders[cb.orderNo]);
      }
      return ResolveRefundAfterRace(reread, cb);
    }

    /** A verified callback handled alone; a refusal leaves the table alone and a repetition is harmless. */
    method HandlePaymentCallback(cb: Callback) returns (reply: Reply)
      requires UniquePairs(orders)
      modifies this
      ensures (reply, orders) == Handle(old(orders), cb)
      ensures if cb.event == PaidEvent then PaidReply(old(orders), cb, reply, orders)
              else RefundReply(old(orders), cb, reply, orders)
      ensures UniquePairs(orders) && TableLater(old(orders), orders)
      ensures reply.Accepted? ==> Settled(orders, KeyOf(cb))
      ensures !reply.Accepted? || Settled(old(orders), KeyOf(cb)) ==> orders == old(orders)
    {
      HandleSettles(orders, cb);
      HandleDoes(orders, cb);
      var read := Lookup(orders, cb.orderNo);
      match cb.event
      case PaidEvent => reply := MarkOrderPaid(cb, read, RereadOf(read, cb));
      case RefundedEvent => reply := MarkOrderRefunded(cb, read, RereadOf(read, cb));
    }
  }
}
