/** The order repository port (`OrderRepositoryPort`) as the use cases and the
    saga see it: a map from order id to what was last saved for it. What it
    hands back is a new `Order` with the saved id, items, clock reading and
    status and an empty event queue; queued events are not persisted. */
module OrderStores {
  import opened Wrappers
  import opened JavaLang
  import opened OrderItems
  import opened OrderEvents
  import opened Orders

  datatype OrderRecord = OrderRecord(items: seq<OrderItem>, status: OrderStatus, createdAt: Instant)

  /** What `save` keeps of an order. */
  function RecordOf(order: Order): OrderRecord
    reads order
  {
    OrderRecord(order.items, order.status, order.createdAt)
  }

  class OrderStore {
    var orders: map<Uuid, OrderRecord>
    /** Every `save`, in order. */
    ghost var saved: seq<(Uuid, OrderRecord)>

    /** Every stored order has an item, as every `Order` does. */
    ghost predicate Valid()
      reads this
    {
      forall id :: id in orders ==> |orders[id].items| > 0
    }

    constructor (orders: map<Uuid, OrderRecord>)
      requires forall id :: id in orders ==> |orders[id].items| > 0
      ensures Valid() && this.orders == orders && saved == []
    {
      this.orders := orders;
      saved := [];
    }

    method Save(order: Order)
      requires Valid() && |order.items| > 0
      modifies this
      ensures Valid()
      ensures orders == old(orders)[order.orderId := RecordOf(order)]
      ensures saved == old(saved) + [(order.orderId, RecordOf(order))]
    {
      orders := orders[order.orderId := RecordOf(order)];
      saved := saved + [(order.orderId, RecordOf(order))];
    }

    method FindById(orderId: Uuid) returns (r: Option<Order>)
      requires Valid()
      ensures r.Some? <==> orderId in orders
      ensures r.Some? ==>
        fresh(r.value) && r.value.orderId == orderId
        && RecordOf(r.value) == orders[orderId] && r.value.domainEvents == []
    {
      if orderId !in orders {
        return None;
      }
      var record := orders[orderId];
      var order := new Order(orderId, record.items, record.createdAt);
      order.status := record.status;
      r := Some(order);
    }
  }

  /** A saved order is found again as a new object, equal to the one saved
      and holding the same record. */
  method SaveThenFind(store: OrderStore, order: Order) returns (found: Order)
    requires store.Valid() && |order.items| > 0
    modifies store
    ensures found != order && found.Equals(order) && RecordOf(found) == RecordOf(order)
  {
    store.Save(order);
    var r := store.FindById(order.orderId);
    found := r.value;
  }
}
