/** The order module's use cases: placing an order and cancelling one. */
module OrderUseCases {
  import opened Wrappers
  import opened JavaLang
  import opened KeyOrder
  import opened OrderItems
  import opened OrderEvents
  import opened Orders
  import opened OrderStores
  import opened PlaceOrderCommands

  /** `resolvePrice`: the catalog's price for the SKU. */
  function ResolvePrice(catalog: map<string, BigDecimal>, sku: string): (r: Result<BigDecimal, Error>)
    ensures r.Success? <==> sku in catalog
    ensures r.Success? ==> r.value == catalog[sku]
    ensures r.Failure? ==> r.error == Error(IllegalArgument, "Product not found: " + sku)
  {
    if sku in catalog then Success(catalog[sku]) else Failure(Error(IllegalArgument, "Product not found: " + sku))
  }

  /** `toOrderItems` over the entries in the order `order`: per entry the
      price is resolved, then the item is built; the first exception stops it. */
  function ToOrderItems(order: seq<string>, quantities: map<string, int>, catalog: map<string, BigDecimal>)
    : (r: Result<seq<OrderItem>, Error>)
    requires Listed(order, quantities)
    ensures r.Success? ==> (
      && |r.value| == |order|
      && forall i :: 0 <= i < |order| ==>
           order[i] in catalog && r.value[i] == OrderItem(order[i], quantities[order[i]], catalog[order[i]])
           && ValidItem(r.value[i]))
  {
    if order == [] then Success([])
    else
      var sku := order[0];
      var price := ResolvePrice(catalog, sku);
      if price.Failure? then Failure(price.error)
      else
        var item := NewOrderItem(Some(sku), quantities[sku], Some(price.value));
        if item.Failure? then Failure(item.error)
        else
          var rest := ToOrderItems(order[1..], quantities, catalog);
          if rest.Failure? then rest
          else
            assert forall i :: 1 <= i < |order| ==> order[i] == order[1..][i - 1];
            Success([item.value] + rest.value)
  }

  /** One item per entry, built from the catalog price, exactly when every
      SKU has a price and every entry makes a valid item. */
  lemma {:induction false} ToOrderItemsSucceeds(order: seq<string>, quantities: map<string, int>, catalog: map<string, BigDecimal>)
    requires Listed(order, quantities)
    ensures ToOrderItems(order, quantities, catalog).Success? <==>
      forall i :: 0 <= i < |order| ==>
        order[i] in catalog && ValidItem(OrderItem(order[i], quantities[order[i]], catalog[order[i]]))
    decreases |order|
  {
    if order != [] {
      var tail := order[1..];
      ToOrderItemsSucceeds(tail, quantities, catalog);
      if forall i :: 0 <= i < |order| ==>
          order[i] in catalog && ValidItem(OrderItem(order[i], quantities[order[i]], catalog[order[i]])) {
        assert forall i :: 0 <= i < |tail| ==> tail[i] == order[i + 1];
      }
    }
  }

  /** The exception of the first entry that fails, every earlier one being
      priced and valid: an unknown SKU is an `IllegalArgumentException`
      naming it, and a priced entry that makes no item fails with the
      constructor's own error. */
  lemma {:induction false} ToOrderItemsError(order: seq<string>, quantities: map<string, int>, catalog: map<string, BigDecimal>, i: nat)
    requires Listed(order, quantities) && i < |order|
    requires forall j :: 0 <= j < i ==>
      order[j] in catalog && ValidItem(OrderItem(order[j], quantities[order[j]], catalog[order[j]]))
    requires !(order[i] in catalog && ValidItem(OrderItem(order[i], quantities[order[i]], catalog[order[i]])))
    ensures order[i] !in catalog ==>
      ToOrderItems(order, quantities, catalog) == Failure(Error(IllegalArgument, "Product not found: " + order[i]))
    ensures order[i] in catalog ==>
      ToOrderItems(order, quantities, catalog)
      == Failure(NewOrderItem(Some(order[i]), quantities[order[i]], Some(catalog[order[i]])).error)
    decreases i
  {
    if i > 0 {
      var tail := order[1..];
      assert forall j :: 0 <= j < |tail| ==> tail[j] == order[j + 1];
      ToOrderItemsError(tail, quantities, catalog, i - 1);
      assert NewOrderItem(Some(order[0]), quantities[order[0]], Some(catalog[order[0]])).Success?;
    }
  }

  class PlaceOrderUseCase {
    const orderRepository: OrderStore
    /** The catalog port: the price of each SKU it knows. */
    const catalog: map<string, BigDecimal>
    const eventPublisher: EventPublisher

    constructor (orderRepository: OrderStore, catalog: map<string, BigDecimal>, eventPublisher: EventPublisher)
      ensures this.orderRepository == orderRepository && this.catalog == catalog && this.eventPublisher == eventPublisher
    {
      this.orderRepository := orderRepository;
      this.catalog := catalog;
      this.eventPublisher := eventPublisher;
    }

    /** `placeOrder`. `orderId` is the random id it draws, `createdAt` the
        clock reading and `order` the order the command's map yields its
        entries in. The order is saved CREATED, marked PENDING and saved
        again, then one `OrderPlacedEvent` is published; an exception while
        building the items stops it before any of that. */
    method PlaceOrder(command: PlaceOrderCommand, order: seq<string>, orderId: Uuid, createdAt: Instant)
      returns (r: Result<Uuid, Error>)
      requires orderRepository.Valid() && Enumerates(order, command.skuQuantities.Keys)
      requires Listed(order, command.skuQuantities)
      modifies orderRepository, eventPublisher
      ensures orderRepository.Valid()
      ensures var items := ToOrderItems(order, command.skuQuantities, catalog);
        items.Success? && |items.value| > 0 ==> (
          && r == Success(orderId)
          && orderRepository.orders == old(orderRepository.orders)[orderId := OrderRecord(items.value, Pending, createdAt)]
          && orderRepository.saved == old(orderRepository.saved)
               + [(orderId, OrderRecord(items.value, Created, createdAt)), (orderId, OrderRecord(items.value, Pending, createdAt))]
          && eventPublisher.published == old(eventPublisher.published) + [OrderPlaced(orderId, command.skuQuantities)])
      ensures var items := ToOrderItems(order, command.skuQuantities, catalog);
        items.Failure? ==> r == Failure(items.error)
      ensures var items := ToOrderItems(order, command.skuQuantities, catalog);
        items.Success? && |items.value| == 0 ==> r == Failure(Error(InvalidOrderState, "Order must contain at least one item"))
      ensures r.Failure? ==> (
        && orderRepository.orders == old(orderRepository.orders)
        && orderRepository.saved == old(orderRepository.saved)
        && eventPublisher.published == old(eventPublisher.published))
    {
      var items := ToOrderItems(order, command.skuQuantities, catalog);
      if items.Failure? {
        return Failure(items.error);
      }
      r := Register(items.value, command.skuQuantities, orderId, createdAt);
    }

    /** The part of `placeOrder` after the items are built: create the order,
        save it CREATED, mark it PENDING, save it again, publish. */
    method Register(items: seq<OrderItem>, skuQuantities: map<string, int>, orderId: Uuid, createdAt: Instant)
      returns (r: Result<Uuid, Error>)
      requires orderRepository.Valid()
      modifies orderRepository, eventPublisher
      ensures orderRepository.Valid()
      ensures |items| > 0 ==> (
        && r == Success(orderId)
        && orderRepository.orders == old(orderRepository.orders)[orderId := OrderRecord(items, Pending, createdAt)]
        && orderRepository.saved == old(orderRepository.saved)
             + [(orderId, OrderRecord(items, Created, createdAt)), (orderId, OrderRecord(items, Pending, createdAt))]
        && eventPublisher.published == old(eventPublisher.published) + [OrderPlaced(orderId, skuQuantities)])
      ensures |items| == 0 ==> (
        && r == Failure(Error(InvalidOrderState, "Order must contain at least one item"))
        && orderRepository.orders == old(orderRepository.orders)
        && orderRepository.saved == old(orderRepository.saved)
        && eventPublisher.published == old(eventPublisher.published))
    {
      var created := Order.Create(Some(orderId), Some(items), createdAt);
      if created.Failure? {
        return Failure(created.error);
      }
      var placed := created.value;
      ghost var createdRecord := OrderRecord(items, Created, createdAt);
      ghost var pendingRecord := OrderRecord(items, Pending, createdAt);
      orderRepository.Save(placed);
      assert RecordOf(placed) == createdRecord;
      var _ := placed.MarkPending();
      assert RecordOf(placed) == pendingRecord;
      orderRepository.Save(placed);
      eventPublisher.PublishEvent(OrderPlaced(orderId, skuQuantities));
      r := Success(orderId);
    }
  }

  /** `Collectors.toMap(OrderItem::getSku, OrderItem::getQuantity)` continuing
      from `acc`: a SKU seen twice throws. */
  function ToMapFrom(items: seq<OrderItem>, acc: map<string, int>): (r: Result<map<string, int>, Error>)
    decreases |items|
  {
    if items == [] then Success(acc)
    else
      var sku := items[0].sku;
      if sku in acc then
        Failure(Error(IllegalState, "Duplicate key " + sku + " (attempted merging values "
                                    + IntToString(acc[sku]) + " and " + IntToString(items[0].quantity) + ")"))
      else ToMapFrom(items[1..], acc[sku := items[0].quantity])
  }

  function ItemsToMap(items: seq<OrderItem>): Result<map<string, int>, Error> {
    ToMapFrom(items, map[])
  }

  /** No two items share a SKU. */
  predicate DistinctSkus(items: seq<OrderItem>) {
    forall i, j :: 0 <= i < j < |items| ==> items[i].sku != items[j].sku
  }

  /** The map is built exactly when the SKUs are distinct and new to `acc`. */
  lemma {:induction false} ToMapFromSucceeds(items: seq<OrderItem>, acc: map<string, int>)
    ensures ToMapFrom(items, acc).Success? <==>
      DistinctSkus(items) && forall i :: 0 <= i < |items| ==> items[i].sku !in acc
    decreases |items|
  {
    if items != [] {
      var tail := items[1..];
      ToMapFromSucceeds(tail, acc[items[0].sku := items[0].quantity]);
      assert forall i :: 0 <= i < |tail| ==> tail[i] == items[i + 1];
    }
  }

  /** A built map holds `acc` and each item's quantity under its SKU, and
      nothing else. */
  lemma {:induction false} ToMapFromContents(items: seq<OrderItem>, acc: map<string, int>)
    requires ToMapFrom(items, acc).Success?
    ensures var m := ToMapFrom(items, acc).value;
      && (forall k :: k in m <==> k in acc || exists i :: 0 <= i < |items| && items[i].sku == k)
      && (forall k :: k in acc ==> m[k] == acc[k])
      && (forall i :: 0 <= i < |items| ==> m[items[i].sku] == items[i].quantity)
    decreases |items|
  {
    if items != [] {
      var tail := items[1..];
      ToMapFromContents(tail, acc[items[0].sku := items[0].quantity]);
      assert forall i :: 0 <= i < |tail| ==> tail[i] == items[i + 1];
      var m := ToMapFrom(items, acc).value;
      forall k ensures k in m <==> k in acc || exists i :: 0 <= i < |items| && items[i].sku == k {
        if exists i :: 0 <= i < |tail| && tail[i].sku == k {
          var i :| 0 <= i < |tail| && tail[i].sku == k;
          assert items[i + 1].sku == k;
        }
        if exists i :: 0 <= i < |items| && items[i].sku == k {
          var i :| 0 <= i < |items| && items[i].sku == k;
          if i > 0 {
            assert tail[i - 1].sku == k;
          }
        }
      }
    }
  }

  /** The inventory port as the cancellation calls it: `releaseStock` with the
      order id and a SKU-to-quantity map. Its wiring to the inventory module is
      not part of this model, so each call's outcome is given. */
  class InventoryPort {
    var releases: seq<(Uuid, map<string, int>)>

    constructor ()
      ensures releases == []
    {
      releases := [];
    }

    method ReleaseStock(orderId: Uuid, skuQuantities: map<string, int>, result: Outcome<Error>) returns (outcome: Outcome<Error>)
      modifies this
      ensures releases == old(releases) + [(orderId, skuQuantities)] && outcome == result
    {
      releases := releases + [(orderId, skuQuantities)];
      outcome := result;
    }
  }

  class CancelOrderUseCase {
    const orderRepository: OrderStore
    const inventoryPort: InventoryPort

    constructor (orderRepository: OrderStore, inventoryPort: InventoryPort)
      ensures this.orderRepository == orderRepository && this.inventoryPort == inventoryPort
    {
      this.orderRepository := orderRepository;
      this.inventoryPort := inventoryPort;
    }

    /** `cancelOrder`: load, cancel, release the items' quantities, save.
        An exception at any step leaves the stored order as it was;
        `releaseResult` is how the release call ends. */
    method CancelOrder(orderId: Uuid, releaseResult: Outcome<Error>) returns (outcome: Outcome<Error>)
      requires orderRepository.Valid()
      modifies orderRepository, inventoryPort
      ensures orderRepository.Valid()
      ensures orderId !in old(orderRepository.orders) ==>
        outcome == Fail(Error(IllegalArgument, "Order not found: " + orderId))
        && orderRepository.orders == old(orderRepository.orders)
        && inventoryPort.releases == old(inventoryPort.releases)
        && orderRepository.saved == old(orderRepository.saved)
      ensures orderId in old(orderRepository.orders) ==>
        var record := old(orderRepository.orders)[orderId];
        var cancel := CancelOn(orderId, OrderState(record.status, []), UnstatedReason);
        var released := ItemsToMap(record.items);
        if cancel.Failure? then
          outcome == Fail(cancel.error)
          && orderRepository.orders == old(orderRepository.orders)
          && inventoryPort.releases == old(inventoryPort.releases)
          && orderRepository.saved == old(orderRepository.saved)
        else if released.Failure? then
          outcome == Fail(released.error)
          && orderRepository.orders == old(orderRepository.orders)
          && inventoryPort.releases == old(inventoryPort.releases)
          && orderRepository.saved == old(orderRepository.saved)
        else
          inventoryPort.releases == old(inventoryPort.releases) + [(orderId, released.value)]
          && outcome == releaseResult
          && orderRepository.orders ==
             (if releaseResult.Fail? then old(orderRepository.orders)
              else old(orderRepository.orders)[orderId := record.(status := Cancelled)])
          && orderRepository.saved ==
             (if releaseResult.Fail? then old(orderRepository.saved)
              else old(orderRepository.saved) + [(orderId, record.(status := Cancelled))])
    {
      var found := orderRepository.FindById(orderId);
      if found.None? {
        return Fail(Error(IllegalArgument, "Order not found: " + orderId));
      }
      var order := found.value;
      outcome := order.Cancel(UnstatedReason);
      if outcome.Fail? {
        return;
      }
      var released := ItemsToMap(order.items);
      if released.Failure? {
        return Fail(released.error);
      }
      outcome := inventoryPort.ReleaseStock(orderId, released.value, releaseResult);
      if outcome.Fail? {
        return;
      }
      orderRepository.Save(order);
    }
  }
}
