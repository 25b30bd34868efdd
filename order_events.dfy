/** The domain events of the order saga, without their timestamps, and the
    publisher they are handed to. */
module OrderEvents {
  import opened JavaLang

  datatype DomainEvent =
    | OrderPlaced(orderId: Uuid, skuQuantities: map<string, int>)
    | StockReserved(orderId: Uuid, reservedQuantities: map<string, int>)
    | StockReservationFailed(orderId: Uuid, reason: string)
    | OrderCancelled(orderId: Uuid, reason: string)

  /** The application event publisher: what was published, in order. */
  class EventPublisher {
    var published: seq<DomainEvent>

    constructor ()
      ensures published == []
    {
      published := [];
    }

    method PublishEvent(event: DomainEvent)
      modifies this
      ensures published == old(published) + [event]
    {
      published := published + [event];
    }
  }
}
