/** The order saga: the handlers that react to order and stock events by
    reserving or releasing stock and moving the stored order along. Every
    handler swallows the exceptions of its own steps. */
module OrderSaga {
  import opened Wrappers
  import opened JavaLang
  import opened KeyOrder
  import opened OrderEvents
  import opened Orders
  import opened OrderStores
  import opened OrderUseCases
  import opened StockBatch
  import opened StockUseCases
  import OrderPersistence

  type StoredOrders = map<Uuid, OrderRecord>

  /** The reason `handleOrderPlaced` gives when `reserve` throws: an
      `IllegalArgumentException` reads as a missing SKU, anything else as a
      failed reservation. */
  function FailureReason(e: Error): (r: string)
    ensures e.kind == IllegalArgument ==> r == "SKU not found: " + e.message
    ensures e.kind != IllegalArgument ==> r == "Stock reservation failed: " + e.message
  {
    if e.kind == IllegalArgument then "SKU not found: " + e.message
    else "Stock reservation failed: " + e.message
  }

  /** The stored orders after `handleStockReserved`: the order is loaded,
      confirmed and saved; when it is missing or `confirm` throws, nothing is
      saved. */
  function ReservedOn(orders: StoredOrders, orderId: Uuid): (r: StoredOrders)
    ensures r.Keys == orders.Keys
    ensures forall id :: id in orders && id != orderId ==> r[id] == orders[id]
  {
    if orderId in orders && ConfirmOn(OrderState(orders[orderId].status, [])).Success? then
      orders[orderId := orders[orderId].(status := ConfirmOn(OrderState(orders[orderId].status, [])).value.status)]
    else orders
  }

  /** The stored orders after `handleStockReservationFailed` with `reason`:
      the order is loaded, `cancelIfNotAlreadyCancelled` is called and it is
      saved; a missing order saves nothing. */
  function ReservationFailedOn(orders: StoredOrders, orderId: Uuid, reason: string): (r: StoredOrders)
    ensures r.Keys == orders.Keys
    ensures forall id :: id in orders && id != orderId ==> r[id] == orders[id]
  {
    if orderId !in orders then orders
    else
      var record := orders[orderId];
      var st := CancelIfNotCancelledOn(orderId, OrderState(record.status, []), "Stock reservation failed: " + reason);
      orders[orderId := record.(status := st.status)]
  }

  /** The stored orders after `handleOrderTimeout`: a PENDING order is
      cancelled and saved; any other order, or none, is left alone. */
  function TimeoutOn(orders: StoredOrders, orderId: Uuid): (r: StoredOrders)
    ensures r.Keys == orders.Keys
    ensures forall id :: id in orders && id != orderId ==> r[id] == orders[id]
  {
    if orderId in orders && orders[orderId].status == Pending then
      var record := orders[orderId];
      var st := CancelIfNotCancelledOn(orderId, OrderState(record.status, []), "Order timeout - saga failure recovery");
      orders[orderId := record.(status := st.status)]
    else orders
  }

  /** Confirmation happens from CREATED only: a PENDING order, which is what
      `placeOrder` stores, is left PENDING by `handleStockReserved`. */
  lemma ReservedConfirmsCreatedOnly(orders: StoredOrders, orderId: Uuid)
    requires orderId in orders
    ensures orders[orderId].status == Created ==>
      ReservedOn(orders, orderId) == orders[orderId := orders[orderId].(status := Confirmed)]
    ensures orders[orderId].status != Created ==> ReservedOn(orders, orderId) == orders
  {
  }

  /** A failed reservation cancels the order unless it is already COMPLETED,
      and delivering the failure again, with any reason, changes nothing. */
  lemma ReservationFailedSettles(orders: StoredOrders, orderId: Uuid, reason: string, again: string)
    requires orderId in orders
    ensures var once := ReservationFailedOn(orders, orderId, reason);
      && (orders[orderId].status == Completed ==> once == orders)
      && (orders[orderId].status != Completed ==>
            once == orders[orderId := orders[orderId].(status := Cancelled)])
      && ReservationFailedOn(once, orderId, again) == once
  {
  }

  /** A timed-out PENDING order ends CANCELLED, every other status is kept,
      and a second timeout changes nothing. */
  lemma TimeoutSettles(orders: StoredOrders, orderId: Uuid)
    requires orderId in orders
    ensures orders[orderId].status == Pending ==>
      TimeoutOn(orders, orderId) == orders[orderId := orders[orderId].(status := Cancelled)]
    ensures orders[orderId].status != Pending ==> TimeoutOn(orders, orderId) == orders
    ensures TimeoutOn(TimeoutOn(orders, orderId), orderId) == TimeoutOn(orders, orderId)
  {
  }

  /** Over the JPA adapter, the timeout handler never acts: an order read
      back through the adapter is never PENDING, so timing it out neither
      releases its stock nor cancels it. */
  lemma TimeoutIdleThroughAdapter(orders: StoredOrders, orderId: Uuid, status: string,
                                  rows: seq<OrderPersistence.OrderItemRow>)
    requires orderId in orders && OrderPersistence.Reload(orderId, status, rows).Success?
    requires orders[orderId].status == OrderPersistence.Reload(orderId, status, rows).value.state.status
    ensures TimeoutOn(orders, orderId) == orders
  {
    OrderPersistence.ReloadNeverPending(orderId, status, rows);
    TimeoutSettles(orders, orderId);
  }

  /** The saga as written, from an order `placeOrder` has just stored: the
      stock-reserved handler cannot confirm it, and only the timeout handler
      or a failed reservation moves it, to CANCELLED. */
  lemma PlacedOrderNeverConfirmed(orders: StoredOrders, orderId: Uuid, reason: string)
    requires orderId in orders && orders[orderId].status == Pending
    ensures ReservedOn(orders, orderId)[orderId].status == Pending
    ensures ReservationFailedOn(orders, orderId, reason)[orderId].status == Cancelled
    ensures TimeoutOn(orders, orderId)[orderId].status == Cancelled
    ensures TimeoutOn(ReservedOn(orders, orderId), orderId)[orderId].status == Cancelled
  {
    ReservedConfirmsCreatedOnly(orders, orderId);
    ReservationFailedSettles(orders, orderId, reason, reason);
    TimeoutSettles(orders, orderId);
  }

  class OrderSagaOrchestrator {
    const reserveStockUseCase: ReserveStockUseCase
    const releaseStockUseCase: ReleaseStockUseCase
    const orderRepository: OrderStore

    constructor (reserveStockUseCase: ReserveStockUseCase, releaseStockUseCase: ReleaseStockUseCase, orderRepository: OrderStore)
      ensures this.reserveStockUseCase == reserveStockUseCase
      ensures this.releaseStockUseCase == releaseStockUseCase
      ensures this.orderRepository == orderRepository
    {
      this.reserveStockUseCase := reserveStockUseCase;
      this.releaseStockUseCase := releaseStockUseCase;
      this.orderRepository := orderRepository;
    }

    /** `handleOrderPlaced`: reserve the event's quantities; when `reserve`
        throws, run the reservation-failed handler with the derived reason.
        On success the order is neither loaded nor saved. */
    method HandleOrderPlaced(event: DomainEvent, interleaving: seq<Rows>)
      requires event.OrderPlaced?
      requires orderRepository.Valid() && reserveStockUseCase.repository.Valid() && KeyedInterleaving(interleaving)
      modifies reserveStockUseCase.repository, orderRepository
      ensures orderRepository.Valid() && reserveStockUseCase.repository.Valid()
      ensures var run := SortedRetry(old(reserveStockUseCase.repository.rows), event.skuQuantities, ReserveOp, interleaving);
        && reserveStockUseCase.repository.rows == run.rows
        && (run.outcome.Pass? ==>
              orderRepository.orders == old(orderRepository.orders)
              && orderRepository.saved == old(orderRepository.saved))
        && (run.outcome.Fail? ==>
              var after := ReservationFailedOn(old(orderRepository.orders), event.orderId, FailureReason(run.outcome.error));
              orderRepository.orders == after
              && orderRepository.saved ==
                 if event.orderId in old(orderRepository.orders) then old(orderRepository.saved) + [(event.orderId, after[event.orderId])]
                 else old(orderRepository.saved))
    {
      var outcome, _, _ := reserveStockUseCase.Reserve(event.orderId, event.skuQuantities, interleaving);
      if outcome.Fail? {
        HandleStockReservationFailed(StockReservationFailed(event.orderId, FailureReason(outcome.error)));
      }
    }

    /** `handleStockReserved`. */
    method HandleStockReserved(event: DomainEvent)
      requires event.StockReserved? && orderRepository.Valid()
      modifies orderRepository
      ensures orderRepository.Valid()
      ensures orderRepository.orders == ReservedOn(old(orderRepository.orders), event.orderId)
      ensures orderRepository.saved ==
        if event.orderId in old(orderRepository.orders) && old(orderRepository.orders)[event.orderId].status == Created
        then old(orderRepository.saved) + [(event.orderId, orderRepository.orders[event.orderId])]
        else old(orderRepository.saved)
    {
      var found := orderRepository.FindById(event.orderId);
      if found.None? {
        return;
      }
      var order := found.value;
      var outcome := order.Confirm();
      if outcome.Fail? {
        return;
      }
      orderRepository.Save(order);
    }

    /** `handleStockReservationFailed`; `cancelIfNotAlreadyCancelled` never
        throws, so only a missing order skips the save. */
    method HandleStockReservationFailed(event: DomainEvent)
      requires event.StockReservationFailed? && orderRepository.Valid()
      modifies orderRepository
      ensures orderRepository.Valid()
      ensures orderRepository.orders == ReservationFailedOn(old(orderRepository.orders), event.orderId, event.reason)
      ensures orderRepository.saved ==
        if event.orderId in old(orderRepository.orders)
        then old(orderRepository.saved) + [(event.orderId, orderRepository.orders[event.orderId])]
        else old(orderRepository.saved)
    {
      var found := orderRepository.FindById(event.orderId);
      if found.None? {
        return;
      }
      var order := found.value;
      order.CancelIfNotAlreadyCancelled("Stock reservation failed: " + event.reason);
      orderRepository.Save(order);
    }

    /** `handleOrderTimeout`: for a PENDING order, release its items'
        quantities (any failure ignored), cancel it and save it; otherwise do
        nothing. `interleaving` holds what other transactions commit during
        each release attempt. */
    method HandleOrderTimeout(orderId: Uuid, interleaving: seq<Rows>)
      requires orderRepository.Valid() && releaseStockUseCase.repository.Valid() && KeyedInterleaving(interleaving)
      modifies releaseStockUseCase.repository, orderRepository
      ensures orderRepository.Valid() && releaseStockUseCase.repository.Valid()
      ensures orderRepository.orders == TimeoutOn(old(orderRepository.orders), orderId)
      ensures !(orderId in old(orderRepository.orders) && old(orderRepository.orders)[orderId].status == Pending) ==>
        orderRepository.saved == old(orderRepository.saved)
        && releaseStockUseCase.repository.rows == old(releaseStockUseCase.repository.rows)
      ensures orderId in old(orderRepository.orders) && old(orderRepository.orders)[orderId].status == Pending ==>
        var released := ItemsToMap(old(orderRepository.orders)[orderId].items);
        releaseStockUseCase.repository.rows ==
          (if released.Failure? then old(releaseStockUseCase.repository.rows)
           else SortedRetry(old(releaseStockUseCase.repository.rows), released.value, ReleaseOp, interleaving).rows)
        && orderRepository.saved == old(orderRepository.saved) + [(orderId, orderRepository.orders[orderId])]
    {
      var found := orderRepository.FindById(orderId);
      if found.None? {
        return;
      }
      var order := found.value;
      if order.status != Pending {
        return;
      }
      var released := ItemsToMap(order.items);
      if released.Success? {
        var _, _, _ := releaseStockUseCase.Release(orderId, released.value, interleaving);
      }
      order.CancelIfNotAlreadyCancelled("Order timeout - saga failure recovery");
      orderRepository.Save(order);
    }
  }
}
