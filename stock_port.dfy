/** The `ReleaseStockUseCase` of `application/port/in`: the same loop as the
    transactional use cases, but over the request in whatever order its map
    yields the entries, in no transaction and with no retry, so a failure
    leaves the SKUs released before it as saved. */
module InventoryPortIn {
  import opened Wrappers
  import opened JavaLang
  import opened KeyOrder
  import opened InventoryPersistence
  import opened StockBatch

  class ReleaseStockUseCase {
    const inventoryRepository: InventoryStore

    constructor (inventoryRepository: InventoryStore)
      ensures this.inventoryRepository == inventoryRepository
    {
      this.inventoryRepository := inventoryRepository;
    }

    /** `release`: `order` is the order the entries were visited in, and
        `other` what other transactions commit while it runs. */
    method Release(skuQuantities: map<string, int>, other: Rows) returns (outcome: Outcome<Error>, ghost order: seq<string>)
      requires inventoryRepository.Valid() && Keyed(other)
      modifies inventoryRepository
      ensures inventoryRepository.Valid()
      ensures Enumerates(order, skuQuantities.Keys) && Listed(order, skuQuantities)
        && inventoryRepository.rows == Sweep(old(inventoryRepository.rows), order, skuQuantities, ReleaseOp, other).rows
        && outcome == Sweep(old(inventoryRepository.rows), order, skuQuantities, ReleaseOp, other).outcome
    {
      var entries := Enumerate(skuQuantities.Keys);
      assert Listed(entries, skuQuantities) by {
        forall i | 0 <= i < |entries| ensures entries[i] in skuQuantities {
          assert entries[i] in Elems(entries);
        }
      }
      order := entries;
      outcome := SweepStore(inventoryRepository, entries, skuQuantities, ReleaseOp, other);
    }
  }
}
