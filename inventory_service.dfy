/** `InventoryServiceImpl`, the implementation of the inventory module's public
    API: it reserves stock directly on the table's rows, without the domain
    model, in one transaction over the request's SKUs in ascending order. */
module InventoryService {
  import opened Wrappers
  import opened JavaLang
  import opened KeyOrder
  import opened InventoryPersistence
  import opened StockBatch

  function SkuNotFound(sku: string): Error {
    Error(Runtime, "SKU not found: " + sku)
  }

  function InsufficientStockFor(sku: string): Error {
    Error(Runtime, "Insufficient stock for SKU: " + sku)
  }

  /** The row after `requested` units move from available to reserved. */
  function Reserved(row: InventoryRow, requested: int): InventoryRow {
    row.(available := row.available - requested, reserved := row.reserved + requested)
  }

  /** The check made on one SKU: it exists and has at least the requested
      quantity available. The quantity itself is never checked. */
  predicate Reservable(rows: Rows, sku: string, requested: int) {
    sku in rows && rows[sku].available >= requested
  }

  /** The loop of `reserveStock` over `keys`: the table it leaves behind when
      every SKU passes, or the exception of the first SKU that does not. */
  function ReserveAll(rows: Rows, keys: seq<string>, quantities: map<string, int>): (r: Result<Rows, Error>)
    requires Listed(keys, quantities)
    ensures r.Success? ==> r.value.Keys == rows.Keys
    decreases |keys|
  {
    if keys == [] then Success(rows)
    else
      var sku := keys[0];
      if sku !in rows then Failure(SkuNotFound(sku))
      else if rows[sku].available < quantities[sku] then Failure(InsufficientStockFor(sku))
      else ReserveAll(rows[sku := Reserved(rows[sku], quantities[sku])], keys[1..], quantities)
  }

  /** The loop completes exactly when every SKU passes the check against the
      table as it was before the call. */
  lemma {:induction false} ReserveAllIff(rows: Rows, keys: seq<string>, quantities: map<string, int>)
    requires Distinct(keys) && Listed(keys, quantities)
    ensures ReserveAll(rows, keys, quantities).Success? <==>
      forall i :: 0 <= i < |keys| ==> Reservable(rows, keys[i], quantities[keys[i]])
    decreases |keys|
  {
    if keys != [] && Reservable(rows, keys[0], quantities[keys[0]]) {
      var sku := keys[0];
      var next := rows[sku := Reserved(rows[sku], quantities[sku])];
      var tail := keys[1..];
      assert Distinct(tail);
      ReserveAllIff(next, tail, quantities);
      forall i | 0 <= i < |tail|
        ensures Reservable(next, tail[i], quantities[tail[i]]) <==> Reservable(rows, tail[i], quantities[tail[i]])
      {
        assert tail[i] == keys[i + 1] != sku;
      }
      if forall i :: 0 <= i < |tail| ==> Reservable(rows, tail[i], quantities[tail[i]]) {
        forall i | 0 <= i < |keys| ensures Reservable(rows, keys[i], quantities[keys[i]]) {
          if i > 0 {
            assert keys[i] == tail[i - 1];
          }
        }
      }
    }
  }

  /** A completed loop moves exactly each listed SKU's requested quantity from
      available to reserved, keeps each SKU's total, and changes no other row. */
  lemma {:induction false} ReserveAllEffect(rows: Rows, keys: seq<string>, quantities: map<string, int>)
    requires Distinct(keys) && Listed(keys, quantities)
    requires ReserveAll(rows, keys, quantities).Success?
    ensures var t := ReserveAll(rows, keys, quantities).value;
      t.Keys == rows.Keys
      && (forall k :: k in rows && k !in keys ==> t[k] == rows[k])
      && (forall k :: k in rows && k in keys ==>
            t[k] == Reserved(rows[k], quantities[k])
            && t[k].available + t[k].reserved == rows[k].available + rows[k].reserved)
    decreases |keys|
  {
    if keys != [] {
      var sku := keys[0];
      var next := rows[sku := Reserved(rows[sku], quantities[sku])];
      var tail := keys[1..];
      assert Distinct(tail);
      ReserveAllEffect(next, tail, quantities);
      assert sku !in tail;
      forall k | k in rows && k in keys && k != sku ensures k in tail {
        var i :| 0 <= i < |keys| && keys[i] == k;
        assert tail[i - 1] == k;
      }
    }
  }

  /** A failed loop reports the first SKU, in the order visited, that fails
      the check, and the reason it fails. */
  lemma {:induction false} ReserveAllError(rows: Rows, keys: seq<string>, quantities: map<string, int>)
    requires Distinct(keys) && Listed(keys, quantities)
    requires ReserveAll(rows, keys, quantities).Failure?
    ensures exists i :: (0 <= i < |keys|
      && (forall j :: 0 <= j < i ==> Reservable(rows, keys[j], quantities[keys[j]]))
      && !Reservable(rows, keys[i], quantities[keys[i]])
      && ReserveAll(rows, keys, quantities).error
         == (if keys[i] in rows then InsufficientStockFor(keys[i]) else SkuNotFound(keys[i])))
    decreases |keys|
  {
    var sku := keys[0];
    if Reservable(rows, sku, quantities[sku]) {
      var next := rows[sku := Reserved(rows[sku], quantities[sku])];
      var tail := keys[1..];
      assert Distinct(tail);
      ReserveAllError(next, tail, quantities);
      var i :| 0 <= i < |tail|
        && (forall j :: 0 <= j < i ==> Reservable(next, tail[j], quantities[tail[j]]))
        && !Reservable(next, tail[i], quantities[tail[i]])
        && ReserveAll(next, tail, quantities).error
           == (if tail[i] in next then InsufficientStockFor(tail[i]) else SkuNotFound(tail[i]));
      assert tail[i] != sku;
      forall j | 0 <= j < i + 1 ensures Reservable(rows, keys[j], quantities[keys[j]]) {
        if j > 0 {
          assert keys[j] == tail[j - 1] != sku;
          assert Reservable(next, tail[j - 1], quantities[tail[j - 1]]);
        }
      }
      assert keys[i + 1] == tail[i];
    }
  }

  /** The quantity is only compared with what is available: a negative one is
      accepted and moves stock from reserved back to available. */
  lemma NegativeQuantityAccepted(rows: Rows, sku: string, requested: int)
    requires sku in rows && requested < 0 <= rows[sku].available
    ensures var r := ReserveAll(rows, [sku], map[sku := requested]);
      r.Success? && r.value[sku].available > rows[sku].available && r.value[sku].reserved < rows[sku].reserved
  {
    var q := map[sku := requested];
    assert [sku][0] == sku && [sku][1..] == [];
    assert ReserveAll(rows, [sku], q) == ReserveAll(rows[sku := Reserved(rows[sku], requested)], [], q);
  }

  /** The table differs from `snapshot` only at existing SKUs in `written`. */
  ghost predicate OnlyWritten(current: Rows, snapshot: Rows, written: set<string>) {
    current.Keys == snapshot.Keys && written <= snapshot.Keys
    && forall k :: k in current && k !in written ==> current[k] == snapshot[k]
  }

  lemma WriteKeeps(current: Rows, snapshot: Rows, written: set<string>, row: InventoryRow)
    requires OnlyWritten(current, snapshot, written) && row.sku in snapshot
    ensures OnlyWritten(current[row.sku := row], snapshot, written + {row.sku})
  {
  }

  /** Undoing the SKUs a transaction wrote, when it changed nothing else,
      gives back the table it began with. */
  lemma RestoreUnwritten(current: Rows, snapshot: Rows, written: set<string>)
    requires OnlyWritten(current, snapshot, written)
    ensures Restore(current, snapshot, written) == snapshot
  {
    var r := Restore(current, snapshot, written);
    assert r.Keys == snapshot.Keys;
  }

  /** One turn of the loop of `reserveStock`: load the row, check it and save
      it with the quantity moved. */
  method ReserveOne(store: InventoryStore, sku: string, requested: int, ghost start: Rows) returns (outcome: Outcome<Error>)
    requires store.Valid() && OnlyWritten(store.rows, start, store.written)
    modifies store`rows, store`versions, store`written
    ensures store.Valid() && OnlyWritten(store.rows, start, store.written)
    ensures outcome == Pass <==> Reservable(old(store.rows), sku, requested)
    ensures outcome == Pass ==> store.rows == old(store.rows)[sku := Reserved(old(store.rows)[sku], requested)]
    ensures outcome.Fail? ==>
      store.rows == old(store.rows) && store.written == old(store.written)
      && outcome.error == if sku in old(store.rows) then InsufficientStockFor(sku) else SkuNotFound(sku)
  {
    var found := store.FindRow(sku);
    if found.None? {
      return Fail(SkuNotFound(sku));
    }
    var item := found.value;
    if item.available < requested {
      return Fail(InsufficientStockFor(sku));
    }
    WriteKeeps(store.rows, start, store.written, Reserved(item, requested));
    store.SaveRow(Reserved(item, requested));
    outcome := Pass;
  }

  /** The loop of `reserveStock` inside its transaction, which began on the
      table `start`: it ends as `ReserveAll` and writes only SKUs of the table. */
  method ReserveSweep(store: InventoryStore, keys: seq<string>, quantities: map<string, int>, ghost start: Rows)
    returns (outcome: Outcome<Error>)
    requires store.Valid() && Listed(keys, quantities)
    requires store.rows == start && OnlyWritten(store.rows, start, store.written)
    modifies store`rows, store`versions, store`written
    ensures store.Valid() && OnlyWritten(store.rows, start, store.written)
    ensures outcome == Pass <==> ReserveAll(start, keys, quantities).Success?
    ensures outcome == Pass ==> store.rows == ReserveAll(start, keys, quantities).value
    ensures outcome.Fail? ==> outcome.error == ReserveAll(start, keys, quantities).error
  {
    ghost var goal := ReserveAll(start, keys, quantities);
    var i := 0;
    while i < |keys|
      invariant 0 <= i <= |keys| && store.Valid()
      invariant OnlyWritten(store.rows, start, store.written)
      invariant ReserveAll(store.rows, keys[i..], quantities) == goal
    {
      var sku := keys[i];
      assert keys[i..][0] == sku && keys[i..][1..] == keys[i + 1..];
      outcome := ReserveOne(store, sku, quantities[sku], start);
      if outcome.Fail? {
        assert goal == Failure(outcome.error);
        return;
      }
      i := i + 1;
    }
    assert keys[i..] == [];
    outcome := Pass;
  }

  class InventoryServiceImpl {
    const repository: InventoryStore

    constructor (repository: InventoryStore)
      ensures this.repository == repository
    {
      this.repository := repository;
    }

    /** `reserveStock`: on success every SKU of the request has moved its
        quantity from available to reserved; on an exception the transaction
        rolls back and the table is as it was. `order` is the order the SKUs
        were visited in. */
    method ReserveStock(orderId: Uuid, skuQuantities: map<string, int>) returns (outcome: Outcome<Error>, ghost order: seq<string>)
      requires repository.Valid()
      modifies repository
      ensures repository.Valid() && repository.written == {}
      ensures order == SortedOf(skuQuantities.Keys) && Listed(order, skuQuantities)
        && (outcome == Pass <==> ReserveAll(old(repository.rows), order, skuQuantities).Success?)
        && (outcome == Pass ==> repository.rows == ReserveAll(old(repository.rows), order, skuQuantities).value)
        && (outcome.Fail? ==> outcome.error == ReserveAll(old(repository.rows), order, skuQuantities).error
                              && repository.rows == old(repository.rows))
    {
      ghost var start := repository.rows;
      repository.Begin();
      var sorted, yielded := SortedKeys(skuQuantities.Keys);
      SortedOrder(skuQuantities);
      order := sorted;
      outcome := ReserveSweep(repository, sorted, skuQuantities, start);
      if outcome.Fail? {
        RestoreUnwritten(repository.rows, start, repository.written);
        repository.Rollback();
      } else {
        repository.Commit();
      }
    }

    /** `releaseStock`: only logs, so nothing changes. */
    method ReleaseStock(orderId: Uuid) returns (outcome: Outcome<Error>)
      requires repository.Valid()
      ensures repository.Valid() && outcome == Pass
    {
      outcome := Pass;
    }
  }
}
