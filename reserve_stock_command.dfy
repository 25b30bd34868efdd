/** `ReserveStockCommand` of the inventory module's inbound port: an order id
    and a SKU-to-quantity map, checked once at construction. The command holds
    its own copy of the map, so later changes to the caller's map do not
    reach it; values here cannot change, which gives that for free. */
module ReserveStockCommands {
  import opened Wrappers
  import opened JavaLang
  import opened CommandEntries

  datatype ReserveStockCommand = ReserveStockCommand(orderId: Uuid, skuQuantities: map<string, int>)

  /** The constructor. `None` stands for `null`, for the map as for its keys
      and values; `order` is the order the map
      yields its entries in. */
  function NewReserveStockCommand(orderId: Option<Uuid>, skuQuantities: Option<Entries>, order: seq<Option<string>>)
    : (r: Result<ReserveStockCommand, Error>)
    requires skuQuantities.Some? ==> Visits(order, skuQuantities.value)
    ensures r.Success? <==>
      orderId.Some? && skuQuantities.Some? && |skuQuantities.value| > 0
      && forall k :: k in skuQuantities.value ==> ValidEntry(k, skuQuantities.value[k])
    ensures r.Success? ==> r.value.orderId == orderId.value && r.value.skuQuantities == Present(skuQuantities.value)
    ensures orderId.None? ==> r == Failure(Error(IllegalArgument, "OrderId must be provided"))
    ensures orderId.Some? && (skuQuantities.None? || |skuQuantities.value| == 0) ==>
      r == Failure(Error(IllegalArgument, "Stock reservation must contain items"))
    ensures orderId.Some? && skuQuantities.Some? && |skuQuantities.value| > 0 && r.Failure? ==>
      r.error in {BlankSku(), NonPositiveQuantity()}
    ensures r.Failure? ==> r.error.kind == IllegalArgument
  {
    if orderId.None? then Failure(Error(IllegalArgument, "OrderId must be provided"))
    else if skuQuantities.None? || |skuQuantities.value| == 0 then
      Failure(Error(IllegalArgument, "Stock reservation must contain items"))
    else
      var quantities := skuQuantities.value;
      EntriesAccepted(order, quantities);
      var e := FirstEntryError(order, quantities);
      if e.Some? then Failure(e.value) else Success(ReserveStockCommand(orderId.value, Present(quantities)))
  }

  /** `equals`: by order id and map, which is equality of the values. */
  function Equals(a: ReserveStockCommand, b: ReserveStockCommand): (r: bool)
    ensures r <==> a == b
  {
    a.orderId == b.orderId && a.skuQuantities == b.skuQuantities
  }
}
