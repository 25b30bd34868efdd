/** `OrderRepositoryAdapter`, the JPA implementation of the order repository
    port, over an `orders` table and an `order_items` table. It stores the
    status by name, but rebuilds an order by constructing it anew and replaying
    `cancel` or `confirm` on it, so only CREATED, CONFIRMED and CANCELLED
    survive a reload. */
module OrderPersistence {
  import opened Wrappers
  import opened JavaLang
  import opened OrderItems
  import opened OrderEvents
  import opened Orders

  datatype OrderRow = OrderRow(orderId: Uuid, status: string, createdAt: Instant)
  datatype OrderItemRow = OrderItemRow(orderId: Uuid, sku: string, quantity: int, unitPrice: BigDecimal)

  /** The rows `save` inserts for an order's items, in item order. */
  function ItemRows(orderId: Uuid, items: seq<OrderItem>): (r: seq<OrderItemRow>)
    ensures |r| == |items|
    ensures forall i :: 0 <= i < |items| ==>
      r[i] == OrderItemRow(orderId, items[i].sku, items[i].quantity, items[i].unitPrice)
  {
    if items == [] then []
    else [OrderItemRow(orderId, items[0].sku, items[0].quantity, items[0].unitPrice)] + ItemRows(orderId, items[1..])
  }

  /** `findByOrderId`: the item rows of one order, in table order. */
  function RowsOf(table: seq<OrderItemRow>, orderId: Uuid): (r: seq<OrderItemRow>)
    ensures forall i :: 0 <= i < |r| ==> r[i].orderId == orderId
  {
    if table == [] then []
    else if table[0].orderId == orderId then [table[0]] + RowsOf(table[1..], orderId)
    else RowsOf(table[1..], orderId)
  }

  /** The table after `deleteAll(findByOrderId(orderId))`. */
  function Without(table: seq<OrderItemRow>, orderId: Uuid): (r: seq<OrderItemRow>)
    ensures forall i :: 0 <= i < |r| ==> r[i].orderId != orderId
  {
    if table == [] then []
    else if table[0].orderId == orderId then Without(table[1..], orderId)
    else [table[0]] + Without(table[1..], orderId)
  }

  lemma {:induction false} RowsOfAppend(a: seq<OrderItemRow>, b: seq<OrderItemRow>, orderId: Uuid)
    ensures RowsOf(a + b, orderId) == RowsOf(a, orderId) + RowsOf(b, orderId)
    decreases |a|
  {
    if a == [] {
      assert a + b == b;
    } else {
      assert (a + b)[0] == a[0] && (a + b)[1..] == a[1..] + b;
      RowsOfAppend(a[1..], b, orderId);
    }
  }

  lemma {:induction false} RowsOfOthers(table: seq<OrderItemRow>, orderId: Uuid, other: Uuid)
    requires forall i :: 0 <= i < |table| ==> table[i].orderId == orderId
    ensures RowsOf(table, other) == if other == orderId then table else []
    decreases |table|
  {
    if table != [] {
      RowsOfOthers(table[1..], orderId, other);
    }
  }

  lemma {:induction false} RowsOfWithout(table: seq<OrderItemRow>, orderId: Uuid, other: Uuid)
    ensures RowsOf(Without(table, orderId), other) == if other == orderId then [] else RowsOf(table, other)
    decreases |table|
  {
    if table != [] {
      RowsOfWithout(table[1..], orderId, other);
    }
  }

  /** After `save` the item rows of the saved order are exactly its current
      items, and every other order keeps its rows. */
  lemma SavedItemRows(table: seq<OrderItemRow>, orderId: Uuid, items: seq<OrderItem>, other: Uuid)
    ensures RowsOf(Without(table, orderId) + ItemRows(orderId, items), other)
      == if other == orderId then ItemRows(orderId, items) else RowsOf(table, other)
  {
    RowsOfAppend(Without(table, orderId), ItemRows(orderId, items), other);
    RowsOfWithout(table, orderId, other);
    RowsOfOthers(ItemRows(orderId, items), orderId, other);
  }

  /** The `OrderItem`s rebuilt from item rows: each row through the
      constructor, stopping at the first it rejects. */
  function DomainItems(rows: seq<OrderItemRow>): (r: Result<seq<OrderItem>, Error>)
    ensures r.Success? ==> |r.value| == |rows|
  {
    if rows == [] then Success([])
    else
      var item := NewOrderItem(Some(rows[0].sku), rows[0].quantity, Some(rows[0].unitPrice));
      if item.Failure? then Failure(item.error)
      else
        var rest := DomainItems(rows[1..]);
        if rest.Failure? then rest else Success([item.value] + rest.value)
  }

  /** Items the constructor accepted come back unchanged. */
  lemma {:induction false} DomainItemsRoundTrip(orderId: Uuid, items: seq<OrderItem>)
    requires forall i :: 0 <= i < |items| ==> ValidItem(items[i])
    ensures DomainItems(ItemRows(orderId, items)) == Success(items)
    decreases |items|
  {
    if items != [] {
      var rows := ItemRows(orderId, items);
      var first := items[0];
      assert rows[0] == OrderItemRow(orderId, first.sku, first.quantity, first.unitPrice);
      assert NewOrderItem(Some(first.sku), first.quantity, Some(first.unitPrice)) == Success(first);
      assert rows[1..] == ItemRows(orderId, items[1..]);
      DomainItemsRoundTrip(orderId, items[1..]);
      assert items == [first] + items[1..];
    }
  }

  /** The state a reloaded order ends in: new, then `cancel` replayed for a
      stored CANCELLED and `confirm` for a stored CONFIRMED. */
  function ReloadState(orderId: Uuid, stored: OrderStatus): OrderState {
    var start := OrderState(Created, []);
    if stored == Cancelled then CancelOn(orderId, start, UnstatedReason).value
    else if stored == Confirmed then ConfirmOn(start).value
    else start
  }

  /** Only CREATED, CONFIRMED and CANCELLED survive a reload; PENDING and
      COMPLETED come back as CREATED, and a cancelled order comes back with
      the event of the replayed cancellation queued. */
  lemma ReloadStateSpec(orderId: Uuid, stored: OrderStatus)
    ensures ReloadState(orderId, stored).status ==
      if stored in {Cancelled, Confirmed} then stored else Created
    ensures ReloadState(orderId, stored).events ==
      if stored == Cancelled then [OrderCancelled(orderId, UnstatedReason)] else []
  {
  }

  /** What `findById` builds from a stored order row and its item rows. */
  datatype Reloaded = Reloaded(items: seq<OrderItem>, state: OrderState)

  function Reload(orderId: Uuid, status: string, rows: seq<OrderItemRow>): (r: Result<Reloaded, Error>)
    ensures r.Success? ==> |r.value.items| > 0 && StatusOf(status).Some?
  {
    var items := DomainItems(rows);
    if items.Failure? then Failure(items.error)
    else if |items.value| == 0 then Failure(Error(InvalidOrderState, "Order must contain at least one item"))
    else
      var stored := StatusOf(status);
      if stored.None? then
        Failure(Error(IllegalArgument, "No enum constant com.jaypal.oms.order.domain.model.OrderStatus." + status))
      else Success(Reloaded(items.value, ReloadState(orderId, stored.value)))
  }

  /** Saving an order and reading it back gives its id and items and the
      status its reload replays to. */
  lemma SaveReloadRoundTrip(orderId: Uuid, items: seq<OrderItem>, status: OrderStatus)
    requires |items| > 0 && forall i :: 0 <= i < |items| ==> ValidItem(items[i])
    ensures Reload(orderId, StatusName(status), ItemRows(orderId, items))
      == Success(Reloaded(items, ReloadState(orderId, status)))
  {
    DomainItemsRoundTrip(orderId, items);
    StatusNameRoundTrip(status);
  }

  /** A PENDING order read back through the adapter can be confirmed, although
      the stored order itself could not be. */
  lemma ReloadedPendingConfirms(orderId: Uuid, events: seq<DomainEvent>)
    ensures ConfirmOn(OrderState(Pending, events)).Failure?
    ensures ConfirmOn(ReloadState(orderId, Pending)).Success?
  {
  }

  /** Whatever status was stored, no order comes back PENDING through the
      adapter. */
  lemma ReloadNeverPending(orderId: Uuid, status: string, rows: seq<OrderItemRow>)
    ensures Reload(orderId, status, rows).Success? ==> Reload(orderId, status, rows).value.state.status != Pending
  {
    if Reload(orderId, status, rows).Success? {
      ReloadStateSpec(orderId, StatusOf(status).value);
    }
  }

  class OrderRepositoryAdapter {
    var orderRows: map<Uuid, OrderRow>
    var itemRows: seq<OrderItemRow>

    constructor (orderRows: map<Uuid, OrderRow>, itemRows: seq<OrderItemRow>)
      ensures this.orderRows == orderRows && this.itemRows == itemRows
    {
      this.orderRows := orderRows;
      this.itemRows := itemRows;
    }

    /** `save`: the order row is replaced, with the status by name, and the
        order's item rows are deleted and inserted again from its items. */
    method Save(order: Order)
      modifies this
      ensures orderRows == old(orderRows)[order.orderId := OrderRow(order.orderId, StatusName(order.status), order.createdAt)]
      ensures itemRows == Without(old(itemRows), order.orderId) + ItemRows(order.orderId, order.items)
    {
      orderRows := orderRows[order.orderId := OrderRow(order.orderId, StatusName(order.status), order.createdAt)];
      itemRows := Without(itemRows, order.orderId) + ItemRows(order.orderId, order.items);
    }

    /** `findById`: empty when there is no order row; otherwise the rebuilt
        order, or the exception rebuilding it throws. `now` is the clock
        reading the new `Order` takes. */
    method FindById(orderId: Uuid, now: Instant) returns (r: Result<Option<Order>, Error>)
      ensures orderId !in orderRows ==> r == Success(None)
      ensures orderId in orderRows ==>
        var reload := Reload(orderId, orderRows[orderId].status, RowsOf(itemRows, orderId));
        (reload.Failure? ==> r == Failure(reload.error))
        && (reload.Success? ==>
              r.Success? && r.value.Some? && fresh(r.value.value)
              && r.value.value.orderId == orderId && r.value.value.createdAt == now
              && r.value.value.items == reload.value.items && r.value.value.State() == reload.value.state)
    {
      if orderId !in orderRows {
        return Success(None);
      }
      var row := orderRows[orderId];
      var reload := Reload(orderId, row.status, RowsOf(itemRows, orderId));
      if reload.Failure? {
        return Failure(reload.error);
      }
      var order := new Order(orderId, reload.value.items, now);
      var stored := StatusOf(row.status).value;
      if stored == Cancelled {
        var _ := order.Cancel(UnstatedReason);
      }
      if stored == Confirmed {
        var _ := order.Confirm();
      }
      r := Success(Some(order));
    }
  }
}
