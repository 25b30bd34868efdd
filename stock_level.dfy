/** `StockLevel`: a non-negative stock quantity; its operations return new values. */
module StockLevels {
  import opened Wrappers
  import opened JavaLang

  /** Equality of stock levels is by quantity alone, which is datatype equality. */
  datatype StockLevel = StockLevel(quantity: nat)

  /** The constructor: it rejects a negative quantity. */
  function NewStockLevel(quantity: int): (r: Result<StockLevel, Error>)
    ensures r.Success? <==> quantity >= 0
    ensures r.Success? ==> r.value.quantity == quantity
    ensures r.Failure? ==> r.error == Error(InvalidStockLevel, "Stock quantity cannot be negative")
  {
    if quantity < 0 then Failure(Error(InvalidStockLevel, "Stock quantity cannot be negative"))
    else Success(StockLevel(quantity))
  }

  /** `decreaseBy`: the amount must be positive and at most the quantity. */
  function DecreaseBy(level: StockLevel, amount: int): (r: Result<StockLevel, Error>)
    ensures r.Success? <==> 0 < amount <= level.quantity
    ensures r.Success? ==> r.value.quantity == level.quantity - amount
    ensures amount <= 0 ==> r == Failure(Error(InvalidStockLevel, "Decrease amount must be positive"))
    ensures 0 < amount && level.quantity < amount ==> r == Failure(Error(InvalidStockLevel, "Insufficient stock"))
  {
    if amount <= 0 then Failure(Error(InvalidStockLevel, "Decrease amount must be positive"))
    else if level.quantity < amount then Failure(Error(InvalidStockLevel, "Insufficient stock"))
    else NewStockLevel(level.quantity - amount)
  }

  /** `increaseBy`: the amount must be positive. */
  function IncreaseBy(level: StockLevel, amount: int): (r: Result<StockLevel, Error>)
    ensures r.Success? <==> amount > 0
    ensures r.Success? ==> r.value.quantity == level.quantity + amount
    ensures r.Failure? ==> r.error == Error(InvalidStockLevel, "Increase amount must be positive")
  {
    if amount <= 0 then Failure(Error(InvalidStockLevel, "Increase amount must be positive"))
    else NewStockLevel(level.quantity + amount)
  }

  /** Increasing and then decreasing by the same positive amount gives back an
      equal level. */
  lemma IncreaseThenDecrease(level: StockLevel, amount: int)
    requires amount > 0
    ensures IncreaseBy(level, amount).Success?
    ensures DecreaseBy(IncreaseBy(level, amount).value, amount) == Success(level)
  {
  }
}
