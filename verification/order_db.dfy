/** The order tables and the operations that write them: the two model
    `save` overrides, order creation with its total, the status update with
    its first-time timestamps, and cancellation. */
module OrderDb {
  import opened Common
  import opened OrderModels
  import opened OrderQueries

  predicate DistinctIds(orders: seq<Order>) {
    forall i, j :: 0 <= i < j < |orders| ==> orders[i].id != orders[j].id
  }

  predicate HasOrder(orders: seq<Order>, id: OrderId) {
    exists i :: 0 <= i < |orders| && orders[i].id == id
  }

  /** The row position of the order with primary key `id`. */
  function IndexOfId(orders: seq<Order>, id: OrderId): (r: Option<nat>)
    ensures r.Some? ==> r.value < |orders| && orders[r.value].id == id
    ensures r.None? <==> !HasOrder(orders, id)
  {
    FirstIndex(orders, (o: Order) => o.id == id)
  }

  /** In a table with distinct keys, the row with a given key is the only one. */
  lemma IndexOfIdUnique(orders: seq<Order>, i: nat)
    requires DistinctIds(orders) && i < |orders|
    ensures IndexOfId(orders, orders[i].id) == Some(i)
  {
  }

  /** The database: the order, item and log tables. */
  class Db {
    var orders: seq<Order>
    var items: seq<OrderItem>
    var logs: seq<OrderLog>

    /** Primary keys are distinct, every stored order has its number, every
        stored item is priced, and items and logs point at stored orders. */
    ghost predicate Valid()
      reads this
    {
      && DistinctIds(orders)
      && (forall i :: 0 <= i < |orders| ==> orders[i].orderNumber != [])
      && (forall i :: 0 <= i < |items| ==> Priced(items[i]) && HasOrder(orders, items[i].orderId))
      && (forall i :: 0 <= i < |logs| ==> HasOrder(orders, logs[i].orderId))
    }

    /** Every stored order satisfies final = total + shipping - discount. */
    ghost predicate AllBalanced()
      reads this
    {
      forall i :: 0 <= i < |orders| ==> Balanced(orders[i])
    }

    constructor ()
      ensures Valid() && AllBalanced()
      ensures orders == [] && items == [] && logs == []
    {
      orders, items, logs := [], [], [];
    }

    /** `Order.save`: an order without a number gets one from the millisecond
        clock, `updated_at` is stamped, and the row is inserted or, when its
        key is already stored, replaced. */
    method Save(o: Order, nowMillis: nat, now: Timestamp) returns (saved: Order)
      requires Valid()
      modifies this
      ensures Valid()
      ensures old(AllBalanced()) && Balanced(o) ==> AllBalanced()
      ensures items == old(items) && logs == old(logs)
      ensures match IndexOfId(old(orders), o.id)
        case Some(i) =>
          && saved == o.(orderNumber := AssignedNumber(o.orderNumber, nowMillis), updatedAt := now)
          && orders == old(orders)[i := saved]
        case None =>
          && saved == o.(orderNumber := AssignedNumber(o.orderNumber, nowMillis), createdAt := now, updatedAt := now)
          && orders == old(orders) + [saved]
    {
      var number := AssignedNumber(o.orderNumber, nowMillis);
      match IndexOfId(orders, o.id)
      case Some(i) =>
        saved := o.(orderNumber := number, updatedAt := now);
        orders := orders[i := saved];
        forall k | 0 <= k < |items| ensures HasOrder(orders, items[k].orderId) {
          var j :| 0 <= j < |old(orders)| && old(orders)[j].id == items[k].orderId;
          assert orders[j].id == items[k].orderId;
        }
        forall k | 0 <= k < |logs| ensures HasOrder(orders, logs[k].orderId) {
          var j :| 0 <= j < |old(orders)| && old(orders)[j].id == logs[k].orderId;
          assert orders[j].id == logs[k].orderId;
        }
      case None =>
        saved := o.(orderNumber := number, createdAt := now, updatedAt := now);
        orders := orders + [saved];
        forall k | 0 <= k < |items| ensures HasOrder(orders, items[k].orderId) {
          var j :| 0 <= j < |old(orders)| && old(orders)[j].id == items[k].orderId;
          assert orders[j].id == items[k].orderId;
        }
        forall k | 0 <= k < |logs| ensures HasOrder(orders, logs[k].orderId) {
          var j :| 0 <= j < |old(orders)| && old(orders)[j].id == logs[k].orderId;
          assert orders[j].id == logs[k].orderId;
        }
    }

    /** `OrderItem.save`: the line total is recomputed from quantity and unit
        price, whatever total the instance carried, and the row is stored. */
    method SaveItem(item: OrderItem) returns (saved: OrderItem)
      requires Valid()
      requires HasOrder(orders, item.orderId)
      modifies this
      ensures Valid()
      ensures Priced(saved)
      ensures saved == item.(totalPrice := item.quantity * item.unitPrice)
      ensures items == old(items) + [saved]
      ensures orders == old(orders) && logs == old(logs)
    {
      saved := item.(totalPrice := item.quantity * item.unitPrice);
      items := items + [saved];
    }

    /** Appends one entry to the activity log of a stored order. */
    method AddLog(entry: OrderLog)
      requires Valid()
      requires HasOrder(orders, entry.orderId)
      modifies this
      ensures Valid()
      ensures logs == old(logs) + [entry]
      ensures orders == old(orders) && items == old(items)
    {
      logs := logs + [entry];
    }

    /** The loop of order creation: one item row per input item, in input
        order, each priced by its own save, with the running total of the
        saved line totals. */
    method SaveItems(id: OrderId, input: seq<ItemInput>) returns (total: Cents)
      requires Valid()
      requires HasOrder(orders, id)
      modifies this
      ensures Valid()
      ensures total == SumLineTotals(input)
      ensures items == old(items) + SavedItems(id, input)
      ensures orders == old(orders) && logs == old(logs)
    {
      total := 0;
      for i := 0 to |input|
        invariant Valid()
        invariant orders == old(orders) && logs == old(logs)
        invariant items == old(items) + SavedItems(id, input[..i])
        invariant total == SumLineTotals(input[..i])
      {
        var x := input[i];
        // The total column is read-only for clients; save computes it.
        var saved := SaveItem(OrderItem(id, x.productName, x.productSku, x.productImage, x.quantity, x.unitPrice, 0));
        total := total + saved.totalPrice;
        assert input[..i + 1][..i] == input[..i];
      }
      assert input[..|input|] == input;
    }

    /** Order creation: the order row, then one item row per input item in
        input order, then the totals, then exactly one CREATE log entry by
        the caller. An empty item list gives a zero total. */
    method CreateOrder(caller: UserId, rcv: Receiver, input: seq<ItemInput>, newId: OrderId,
                       now: Timestamp, nowMillis: nat) returns (o: Order)
      requires Valid()
      requires !HasOrder(orders, newId)
      modifies this
      ensures Valid()
      ensures old(AllBalanced()) ==> AllBalanced()
      ensures o.id == newId && o.owner == caller && o.status == Pending
      ensures o.orderNumber == OrderNumber(nowMillis)
      ensures o.totalAmount == SumLineTotals(input)
      ensures o.totalAmount == SumItemTotals(SavedItems(newId, input))
      ensures o.shippingFee == 0 && o.discountAmount == 0
      ensures o.finalAmount == o.totalAmount + o.shippingFee - o.discountAmount
      ensures o.paidAt.None? && o.shippedAt.None? && o.deliveredAt.None?
      ensures o == NewOrder(newId, caller, rcv, now).(orderNumber := OrderNumber(nowMillis),
                                                      totalAmount := SumLineTotals(input),
                                                      finalAmount := SumLineTotals(input))
      ensures orders == old(orders) + [o]
      ensures items == old(items) + SavedItems(newId, input)
      ensures logs == old(logs) + [OrderLog(newId, Create, Some(caller), now)]
      ensures ActionTag(logs[|logs| - 1].activity) == "CREATE"
    {
      var created := Save(NewOrder(newId, caller, rcv, now), nowMillis, now);
      assert orders[|orders| - 1].id == newId;
      var total := SaveItems(newId, input);
      SavedItemsTotal(newId, input);
      IndexOfIdUnique(orders, |orders| - 1);
      o := Save(created.(totalAmount := total, finalAmount := total + created.shippingFee - created.discountAmount),
                nowMillis, now);
      assert orders[|orders| - 1].id == newId;
      AddLog(OrderLog(newId, Create, Some(caller), now));
    }

    /** `update_status`: the order is looked up among those the caller may
        see; the requested status must be one of the choices; any status may
        follow any other; the first move into paid, shipped or delivered
        stamps its time; exactly one STATUS_CHANGE entry is logged. */
    method UpdateStatus(caller: UserId, f: Filters, id: OrderId, status: Option<string>, notes: Option<string>,
                        now: Timestamp, nowMillis: nat) returns (r: Result<Order, OrderError>)
      requires Valid()
      modifies this
      ensures Valid()
      ensures old(AllBalanced()) ==> AllBalanced()
      ensures items == old(items)
      ensures r.Failure? ==> orders == old(orders) && logs == old(logs)
      ensures var loc := LocateOrder(old(orders), caller, f, id);
        && (r.Success? <==> loc.Success? && status.Some? && ParseStatus(status.value).Some?)
        && (loc.Failure? ==> r == Failure(loc.error))
        && (loc.Success? && status.None? ==> r == Failure(ServerError))
        && (loc.Success? && status.Some? && ParseStatus(status.value).None? ==> r == Failure(InvalidStatus))
      ensures r.Success? ==>
        var i := LocateOrder(old(orders), caller, f, id).value;
        var before := old(orders)[i];
        var s := ParseStatus(status.value).value;
        && r.value.owner == caller
        && r.value == StatusUpdated(before, s, now).(updatedAt := now)
        && orders == old(orders)[i := r.value]
        && logs == old(logs) + [OrderLog(id, StatusChange(before.status, s, notes.GetOr("")), Some(caller), now)]
        && ActionTag(logs[|logs| - 1].activity) == "STATUS_CHANGE"
    {
      var loc := LocateOrder(orders, caller, f, id);
      if loc.Failure? {
        return Failure(loc.error);
      }
      if status.None? {
        // Partial validation lets a request without a status through; reading it then raises.
        return Failure(ServerError);
      }
      var parsed := ParseStatus(status.value);
      if parsed.None? {
        return Failure(InvalidStatus);
      }
      var i, s := loc.value, parsed.value;
      var before := orders[i];
      IndexOfIdUnique(orders, i);
      var saved := Save(StatusUpdated(before, s, now), nowMillis, now);
      assert orders[i].id == id;
      AddLog(OrderLog(id, StatusChange(before.status, s, notes.GetOr("")), Some(caller), now));
      r := Success(saved);
    }

    /** `cancel`: allowed only from pending or paid; otherwise nothing
        changes. A cancel sets the status to cancelled and logs exactly one
        CANCEL entry by the caller. */
    method Cancel(caller: UserId, f: Filters, id: OrderId, now: Timestamp, nowMillis: nat)
      returns (r: Result<Order, OrderError>)
      requires Valid()
      modifies this
      ensures Valid()
      ensures old(AllBalanced()) ==> AllBalanced()
      ensures items == old(items)
      ensures r.Failure? ==> orders == old(orders) && logs == old(logs)
      ensures var loc := LocateOrder(old(orders), caller, f, id);
        && (r.Success? <==> loc.Success? && Cancellable(old(orders)[loc.value].status))
        && (loc.Failure? ==> r == Failure(loc.error))
        && (loc.Success? && !Cancellable(old(orders)[loc.value].status) ==> r == Failure(NotCancellable))
      ensures r.Success? ==>
        var i := LocateOrder(old(orders), caller, f, id).value;
        && r.value.owner == caller
        && r.value == old(orders)[i].(status := Cancelled, updatedAt := now)
        && orders == old(orders)[i := r.value]
        && logs == old(logs) + [OrderLog(id, Activity.Cancel, Some(caller), now)]
        && ActionTag(logs[|logs| - 1].activity) == "CANCEL"
    {
      var loc := LocateOrder(orders, caller, f, id);
      if loc.Failure? {
        return Failure(loc.error);
      }
      var i := loc.value;
      var before := orders[i];
      if !Cancellable(before.status) {
        return Failure(NotCancellable);
      }
      IndexOfIdUnique(orders, i);
      var saved := Save(before.(status := Cancelled), nowMillis, now);
      assert orders[i].id == id;
      AddLog(OrderLog(id, Activity.Cancel, Some(caller), now));
      r := Success(saved);
    }
  }
}
