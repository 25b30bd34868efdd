/** `OrderItem`: one line of an order, immutable once built. */
module OrderItems {
  import opened Wrappers
  import opened JavaLang

  datatype OrderItem = OrderItem(sku: string, quantity: int, unitPrice: BigDecimal)

  /** What the constructor accepts. */
  predicate ValidItem(item: OrderItem) {
    !IsBlank(item.sku) && item.quantity > 0 && Signum(item.unitPrice) > 0
  }

  /** The constructor: the SKU, then the quantity, then the price is checked.
      `None` stands for a `null` SKU or price. */
  function NewOrderItem(sku: Option<string>, quantity: int, unitPrice: Option<BigDecimal>): (r: Result<OrderItem, Error>)
    ensures r.Success? <==> sku.Some? && unitPrice.Some? && ValidItem(OrderItem(sku.value, quantity, unitPrice.value))
    ensures r.Success? ==> r.value == OrderItem(sku.value, quantity, unitPrice.value)
    ensures sku.None? || IsBlank(sku.value) ==> r == Failure(Error(InvalidOrderItem, "SKU must be provided"))
    ensures sku.Some? && !IsBlank(sku.value) && quantity <= 0 ==>
      r == Failure(Error(InvalidOrderItem, "Quantity must be greater than zero"))
    ensures sku.Some? && !IsBlank(sku.value) && quantity > 0 && (unitPrice.None? || Signum(unitPrice.value) <= 0) ==>
      r == Failure(Error(InvalidOrderItem, "Unit price must be greater than zero"))
  {
    if sku.None? || IsBlank(sku.value) then Failure(Error(InvalidOrderItem, "SKU must be provided"))
    else if quantity <= 0 then Failure(Error(InvalidOrderItem, "Quantity must be greater than zero"))
    else if unitPrice.None? || Signum(unitPrice.value) <= 0 then
      Failure(Error(InvalidOrderItem, "Unit price must be greater than zero"))
    else Success(OrderItem(sku.value, quantity, unitPrice.value))
  }

  /** `totalPrice`: the unit price times the quantity, at the unit price's
      scale; positive for every item the constructor accepts. */
  function TotalPrice(item: OrderItem): (r: BigDecimal)
    ensures r.scale == item.unitPrice.scale
    ensures Magnitude(r) == Magnitude(item.unitPrice) * item.quantity as real
    ensures ValidItem(item) ==> Signum(r) > 0 && Magnitude(r) > 0.0
  {
    MultiplyWhole(item.unitPrice, item.quantity);
    var r := Multiply(item.unitPrice, ValueOf(item.quantity));
    assert ValidItem(item) ==> r.unscaled == item.unitPrice.unscaled * item.quantity > 0;
    SignumMagnitude(r);
    r
  }

  /** `equals`: by SKU, quantity and price, with `BigDecimal.equals` on the
      price, which is equality of the values. */
  function Equals(a: OrderItem, b: OrderItem): (r: bool)
    ensures r <==> a == b
  {
    a.quantity == b.quantity && a.sku == b.sku && a.unitPrice == b.unitPrice
  }

  /** The same price written at two scales makes two different items. */
  lemma ScaleIsCompared(sku: string, quantity: int)
    ensures var a := OrderItem(sku, quantity, BigDecimal(10, 1));
      var b := OrderItem(sku, quantity, BigDecimal(100, 2));
      Magnitude(a.unitPrice) == Magnitude(b.unitPrice) && !Equals(a, b)
  {
    assert Pow10(1) == 10 && Pow10(2) == 100;
  }
}
