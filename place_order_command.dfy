/** `PlaceOrderCommand` of the order module's inbound port: a SKU-to-quantity
    map checked once at construction and held as the command's own copy. */
module PlaceOrderCommands {
  import opened Wrappers
  import opened JavaLang
  import opened CommandEntries

  datatype PlaceOrderCommand = PlaceOrderCommand(skuQuantities: map<string, int>)

  /** The constructor. `None` stands for `null`, for the map as for its keys
      and values; `order` is the order the map
      yields its entries in. */
  function NewPlaceOrderCommand(skuQuantities: Option<Entries>, order: seq<Option<string>>)
    : (r: Result<PlaceOrderCommand, Error>)
    requires skuQuantities.Some? ==> Visits(order, skuQuantities.value)
    ensures r.Success? <==>
      skuQuantities.Some? && |skuQuantities.value| > 0
      && forall k :: k in skuQuantities.value ==> ValidEntry(k, skuQuantities.value[k])
    ensures r.Success? ==> r.value.skuQuantities == Present(skuQuantities.value)
    ensures skuQuantities.None? || |skuQuantities.value| == 0 ==>
      r == Failure(Error(IllegalArgument, "Order must contain at least one item"))
    ensures skuQuantities.Some? && |skuQuantities.value| > 0 && r.Failure? ==>
      r.error in {BlankSku(), NonPositiveQuantity()}
    ensures r.Failure? ==> r.error.kind == IllegalArgument
  {
    if skuQuantities.None? || |skuQuantities.value| == 0 then
      Failure(Error(IllegalArgument, "Order must contain at least one item"))
    else
      var quantities := skuQuantities.value;
      EntriesAccepted(order, quantities);
      var e := FirstEntryError(order, quantities);
      if e.Some? then Failure(e.value) else Success(PlaceOrderCommand(Present(quantities)))
  }

  /** `equals`: by map, which is equality of the values. */
  function Equals(a: PlaceOrderCommand, b: PlaceOrderCommand): (r: bool)
    ensures r <==> a == b
  {
    a.skuQuantities == b.skuQuantities
  }
}
