/** The stock ledger of one SKU: `InventoryItem` with its available and reserved
    stock. `ItemState` is the value of an item; `ReserveOn` and `ReleaseOn` say
    what `reserve` and `release` do to it, and the class methods are proved to
    follow them. */
module Inventory {
  import opened Wrappers
  import opened JavaLang
  import opened StockLevels

  datatype ItemState = ItemState(sku: string, available: StockLevel, reserved: StockLevel)

  /** Stock on hand for the SKU, reserved or not. */
  function Total(st: ItemState): nat {
    st.available.quantity + st.reserved.quantity
  }

  /** `reserve(quantity)`: the availability check, then `decreaseBy` on the
      available level, then `increaseBy` on the reserved level. */
  function ReserveOn(st: ItemState, quantity: int): (r: Result<ItemState, Error>)
    ensures r.Success? <==> 0 < quantity <= st.available.quantity
    ensures r.Success? ==> (r.value.sku == st.sku
      && r.value.available.quantity == st.available.quantity - quantity
      && r.value.reserved.quantity == st.reserved.quantity + quantity)
    ensures r.Success? ==> Total(r.value) == Total(st)
    ensures quantity > st.available.quantity ==>
      r == Failure(Error(InsufficientStock, "Insufficient stock for SKU: " + st.sku))
    ensures quantity <= 0 ==>
      r == Failure(Error(InvalidStockLevel, "Decrease amount must be positive"))
  {
    if st.available.quantity < quantity then
      Failure(Error(InsufficientStock, "Insufficient stock for SKU: " + st.sku))
    else
      var decreased := DecreaseBy(st.available, quantity);
      if decreased.Failure? then Failure(decreased.error)
      else Success(st.(available := decreased.value,
                       reserved := IncreaseBy(st.reserved, quantity).value))
  }

  /** `release(quantity)`: the reservation check, then `decreaseBy` on the
      reserved level, then `increaseBy` on the available level. */
  function ReleaseOn(st: ItemState, quantity: int): (r: Result<ItemState, Error>)
    ensures r.Success? <==> 0 < quantity <= st.reserved.quantity
    ensures r.Success? ==> (r.value.sku == st.sku
      && r.value.reserved.quantity == st.reserved.quantity - quantity
      && r.value.available.quantity == st.available.quantity + quantity)
    ensures r.Success? ==> Total(r.value) == Total(st)
    ensures quantity > st.reserved.quantity ==>
      r == Failure(Error(IllegalState, "Cannot release more stock than reserved for SKU: " + st.sku))
    ensures quantity <= 0 ==>
      r == Failure(Error(InvalidStockLevel, "Decrease amount must be positive"))
  {
    if st.reserved.quantity < quantity then
      Failure(Error(IllegalState, "Cannot release more stock than reserved for SKU: " + st.sku))
    else
      var decreased := DecreaseBy(st.reserved, quantity);
      if decreased.Failure? then Failure(decreased.error)
      else Success(st.(reserved := decreased.value,
                       available := IncreaseBy(st.available, quantity).value))
  }

  /** Releasing what was just reserved restores the original counts. */
  lemma ReserveThenRelease(st: ItemState, quantity: int)
    requires ReserveOn(st, quantity).Success?
    ensures ReleaseOn(ReserveOn(st, quantity).value, quantity) == Success(st)
  {
  }

  class InventoryItem {
    const sku: string
    var available: StockLevel
    var reserved: StockLevel

    function State(): ItemState
      reads this
    {
      ItemState(sku, available, reserved)
    }

    /** A new item has nothing reserved. */
    constructor (sku: string, available: StockLevel)
      requires !IsBlank(sku)
      ensures State() == ItemState(sku, available, StockLevel(0))
    {
      this.sku := sku;
      this.available := available;
      this.reserved := StockLevel(0);
    }

    /** `new InventoryItem(sku, availableStock)` with its argument checks; `None`
        stands for `null`. */
    static method Create(sku: Option<string>, available: Option<StockLevel>)
      returns (r: Result<InventoryItem, Error>)
      ensures r.Success? <==> sku.Some? && !IsBlank(sku.value) && available.Some?
      ensures r.Success? ==> (fresh(r.value)
        && r.value.State() == ItemState(sku.value, available.value, StockLevel(0)))
      ensures (sku.None? || IsBlank(sku.value)) ==>
        r == Failure(Error(IllegalArgument, "SKU must be provided"))
      ensures sku.Some? && !IsBlank(sku.value) && available.None? ==>
        r == Failure(Error(IllegalArgument, "Available stock must be provided"))
    {
      if sku.None? || IsBlank(sku.value) {
        return Failure(Error(IllegalArgument, "SKU must be provided"));
      }
      if available.None? {
        return Failure(Error(IllegalArgument, "Available stock must be provided"));
      }
      var item := new InventoryItem(sku.value, available.value);
      return Success(item);
    }

    /** The setter used only when rebuilding an item from storage. */
    method SetReservedStock(level: StockLevel)
      modifies this`reserved
      ensures State() == old(State()).(reserved := level)
    {
      reserved := level;
    }

    method Reserve(quantity: int) returns (r: Outcome<Error>)
      modifies this
      ensures ReserveOn(old(State()), quantity).Success? ==>
        r == Pass && State() == ReserveOn(old(State()), quantity).value
      ensures ReserveOn(old(State()), quantity).Failure? ==>
        r == Fail(ReserveOn(old(State()), quantity).error) && State() == old(State())
    {
      if available.quantity < quantity {
        return Fail(Error(InsufficientStock, "Insufficient stock for SKU: " + sku));
      }
      var decreased := DecreaseBy(available, quantity);
      if decreased.Failure? {
        return Fail(decreased.error);
      }
      available := decreased.value;
      var increased := IncreaseBy(reserved, quantity);
      reserved := increased.value;
      r := Pass;
    }

    method Release(quantity: int) returns (r: Outcome<Error>)
      modifies this
      ensures ReleaseOn(old(State()), quantity).Success? ==>
        r == Pass && State() == ReleaseOn(old(State()), quantity).value
      ensures ReleaseOn(old(State()), quantity).Failure? ==>
        r == Fail(ReleaseOn(old(State()), quantity).error) && State() == old(State())
    {
      if reserved.quantity < quantity {
        return Fail(Error(IllegalState, "Cannot release more stock than reserved for SKU: " + sku));
      }
      var decreased := DecreaseBy(reserved, quantity);
      if decreased.Failure? {
        return Fail(decreased.error);
      }
      reserved := decreased.value;
      var increased := IncreaseBy(available, quantity);
      available := increased.value;
      r := Pass;
    }

    /** `equals`: two items are equal exactly when their SKUs are, whatever
        their stock. */
    function Equals(that: InventoryItem): (r: bool)
      ensures r <==> sku == that.sku
    {
      sku == that.sku
    }
  }

  /** Reserving and releasing stock change an item's counts, never its
      identity: afterwards it is still equal to an untouched item of the same
      SKU, and holds the same total. */
  method StockMovesKeepIdentity(sku: string, available: StockLevel, reserve: int, release: int)
    returns (moved: InventoryItem, untouched: InventoryItem)
    requires !IsBlank(sku)
    ensures moved != untouched && moved.Equals(untouched)
    ensures Total(moved.State()) == Total(untouched.State()) == available.quantity
  {
    moved := new InventoryItem(sku, available);
    untouched := new InventoryItem(sku, available);
    var reserved := moved.Reserve(reserve);
    var released := moved.Release(release);
  }
}
