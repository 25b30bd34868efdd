# Order management: stock and order consistency, in Dafny

A model of the order/stock consistency core of the OrderManagementSystem
service (Java, Spring). Its three parts are:

- **Stock ledger.** A `StockLevel` is a non-negative quantity. An `InventoryItem` is one SKU with an available and a reserved level; `reserve` and `release` move a quantity between them. A table of inventory rows stands in for the database. It keeps a version per row for optimistic locking and a snapshot for transaction rollback.
- **Multi-SKU reservation and release.** Three loops work over a SKU→quantity map:
  - the transactional, retried `ReserveStockUseCase.reserve` and `ReleaseStockUseCase.release`, which visit the SKUs in ascending key order;
  - the untransacted `release` of the inbound port, which visits them in the map's own order;
  - the entity-level `InventoryServiceImpl.reserveStock`.
  
  Each SKU is loaded, changed and saved in turn. Other transactions' commits are an explicit input (an *interleaving*), so the model can say when an optimistic-lock failure happens and what the bounded retry (3 attempts) then does.
- **Orders.** `OrderItem`, the `Order` aggregate with its guarded status machine and its queue of domain events, and the two command validators. Then the use cases that place and cancel an order, the JPA mapping of orders, and the saga orchestrator's four handlers.

Two small pure helpers are included as well: the `ROLE_` normalisation of the JWT roles claim, and the page/size clamping of the catalog listing.

## Layout

| file | module | models |
|---|---|---|
| wrappers.dfy | Wrappers | `Option`, `Result`, `Outcome`; exceptions as `Error(kind, message)` |
| java_lang.dfy | JavaLang | `String.isBlank`, `startsWith`, `Integer.toString`, and `BigDecimal` as an unscaled value plus a scale |
| key_order.dfy | KeyOrder | `String.compareTo` and `Stream.sorted` on keys; a map's iteration order |
| stock_level.dfy | StockLevels | `StockLevel` |
| inventory_item.dfy | Inventory | `InventoryItem` |
| inventory_persistence.dfy | InventoryPersistence | `InventoryRepositoryAdapter`, the versioned inventory table and its transactions |
| stock_batch.dfy | StockBatch | the load/operate/save loop, one attempt, and the retry |
| stock_use_cases.dfy | StockUseCases | `usecase.ReserveStockUseCase`, `usecase.ReleaseStockUseCase` |
| stock_port.dfy | InventoryPortIn | `port.in.ReleaseStockUseCase` |
| inventory_service.dfy | InventoryService | `InventoryServiceImpl` |
| command_entries.dfy, reserve_stock_command.dfy, place_order_command.dfy | CommandEntries, ReserveStockCommands, PlaceOrderCommands | the two command validators |
| order_item.dfy, order_events.dfy, order.dfy | OrderItems, OrderEvents, Orders | `OrderItem`, the events, `OrderStatus`, `Order` |
| order_store.dfy | OrderStores | `OrderRepositoryPort` as a map from order id to stored record |
| order_persistence.dfy | OrderPersistence | `OrderRepositoryAdapter` |
| order_use_cases.dfy | OrderUseCases | `PlaceOrderUseCase`, `CancelOrderUseCase`, the outbound `InventoryPort` |
| saga.dfy | OrderSaga | `OrderSagaOrchestrator` |
| jwt_converter.dfy | JwtConverters | the roles-claim conversion in `JwtConverter` |
| catalog_paging.dfy | CatalogPaging | page/size clamping in `CatalogController.listProducts` |

Where the code mutates an object, the model is a class whose methods are
proved against specification functions on values (`ReserveOn`, `Sweep`,
`Attempt`, `Retry`, `CancelOn`, `ReservedOn`, ...). The lemmas are about
those functions.

Three places where the tests or the surrounding design expect something
else, and the model follows the code:
- `Order.confirm` accepts only CREATED, so a PENDING order cannot be confirmed (`Orders.ConfirmOn`).
- `reserve(0)` fails with `StockLevel`'s domain exception, not with `IllegalStateException` (`Inventory.ReserveOn`).
- `placeOrder` stores orders PENDING, and nothing in the code publishes `StockReservedEvent`. So with a repository that keeps the status, `handleStockReserved` never confirms a placed order (`OrderSaga.PlacedOrderNeverConfirmed`). Only the JPA adapter's reload, which turns PENDING into CREATED, would let confirm through (`OrderPersistence.ReloadedPendingConfirms`). The same reload means that no order comes back PENDING (`OrderPersistence.ReloadNeverPending`), so over the adapter `handleOrderTimeout` never releases stock or cancels (`OrderSaga.TimeoutIdleThroughAdapter`).

## Model

| member | source | states |
|---|---|---|
| StockLevels.NewStockLevel | src/main/java/com/jaypal/oms/inventory/domain/model/StockLevel.java:14-19 | A level exists exactly for a non-negative quantity and keeps it; a negative one fails with "Stock quantity cannot be negative". |
| StockLevels.DecreaseBy | src/main/java/com/jaypal/oms/inventory/domain/model/StockLevel.java:25-33 | Succeeds exactly when 0 < amount <= quantity and then subtracts it; the two error messages for a non-positive amount and for insufficient stock, checked in that order. |
| StockLevels.IncreaseBy | src/main/java/com/jaypal/oms/inventory/domain/model/StockLevel.java:35-40 | Succeeds exactly for a positive amount and then adds it; otherwise "Increase amount must be positive". |
| StockLevels.IncreaseThenDecrease | src/main/java/com/jaypal/oms/inventory/domain/model/StockLevel.java:25-40 | Increasing and then decreasing by the same positive amount gives back the original level. |
| Inventory.ReserveOn | src/main/java/com/jaypal/oms/inventory/domain/model/InventoryItem.java:54-63 | Reserve succeeds exactly when 0 < quantity <= available, moves the quantity from available to reserved, keeps the total, and gives InsufficientStock or the StockLevel error otherwise. |
| Inventory.ReleaseOn | src/main/java/com/jaypal/oms/inventory/domain/model/InventoryItem.java:68-77 | Release succeeds exactly when 0 < quantity <= reserved, moves the quantity back to available, keeps the total, and gives IllegalState or the StockLevel error otherwise. |
| Inventory.ReserveThenRelease | src/main/java/com/jaypal/oms/inventory/domain/model/InventoryItem.java:54-77 | Releasing what was just reserved restores the item's counts. |
| Inventory.InventoryItem.constructor | src/main/java/com/jaypal/oms/inventory/domain/model/InventoryItem.java:16-27 | A new item has the given SKU and available stock and nothing reserved. |
| Inventory.InventoryItem.Create | src/main/java/com/jaypal/oms/inventory/domain/model/InventoryItem.java:16-27 | Construction succeeds exactly for a present non-blank SKU and a present stock level; the two IllegalArgument messages otherwise. |
| Inventory.InventoryItem.Equals | src/main/java/com/jaypal/oms/inventory/domain/model/InventoryItem.java:79-85 | Items are equal exactly when their SKUs are, whatever their stock. |
| Inventory.StockMovesKeepIdentity | src/main/java/com/jaypal/oms/inventory/domain/model/InventoryItem.java:54-85 | After a reserve and a release, whatever their outcome, an item is still equal to an untouched item of its SKU, and the two hold the same total. |
| Inventory.InventoryItem.SetReservedStock | src/main/java/com/jaypal/oms/inventory/domain/model/InventoryItem.java:47-49 | Only the reserved level changes. |
| Inventory.InventoryItem.Reserve | src/main/java/com/jaypal/oms/inventory/domain/model/InventoryItem.java:54-63 | The item's new state is ReserveOn of its old state, or unchanged when that throws. |
| Inventory.InventoryItem.Release | src/main/java/com/jaypal/oms/inventory/domain/model/InventoryItem.java:68-77 | The item's new state is ReleaseOn of its old state, or unchanged when that throws. |
| InventoryPersistence.Reconstruct | src/main/java/com/jaypal/oms/inventory/infrastructure/persistence/InventoryRepositoryAdapter.java:46-58 | A row rebuilds exactly when both counts are non-negative and the SKU is not blank, with the error of the first check that fails. |
| InventoryPersistence.ItemRoundTrip | src/main/java/com/jaypal/oms/inventory/infrastructure/persistence/InventoryRepositoryAdapter.java:46-66 | toDomain(toEntity(item)) gives back the item's SKU and both counts. |
| InventoryPersistence.RowRoundTrip | src/main/java/com/jaypal/oms/inventory/infrastructure/persistence/InventoryRepositoryAdapter.java:46-66 | A row that rebuilds is written back unchanged. |
| InventoryPersistence.ToDomain | src/main/java/com/jaypal/oms/inventory/infrastructure/persistence/InventoryRepositoryAdapter.java:46-58 | Builds a fresh item whose state is Reconstruct of the row, or fails with its error. |
| InventoryPersistence.Restore | src/main/java/com/jaypal/oms/inventory/application/usecase/ReserveStockUseCase.java:46 | After a rollback the SKUs the transaction wrote hold their rows from its start, and every other SKU holds its current row. |
| InventoryPersistence.InventoryStore.FindBySku | src/main/java/com/jaypal/oms/inventory/infrastructure/persistence/InventoryRepositoryAdapter.java:23-27 | Empty for a missing SKU; otherwise the reconstructed item (or its error) and the version read. |
| InventoryPersistence.InventoryStore.Save | src/main/java/com/jaypal/oms/inventory/infrastructure/persistence/InventoryRepositoryAdapter.java:29-33 | A stale version fails with an optimistic-lock error and changes nothing; otherwise toEntity(item) is written, its version moves and the SKU is marked written. |
| InventoryPersistence.InventoryStore.SaveAsWritten | src/main/java/com/jaypal/oms/inventory/infrastructure/persistence/InventoryRepositoryAdapter.java:29-66 | The save as the adapter performs it, with the entity's version left at 0: it fails with an optimistic-lock error exactly when the stored row's version is not 0, changing nothing; otherwise as Save. |
| InventoryPersistence.SecondSaveRefused | src/main/java/com/jaypal/oms/inventory/infrastructure/persistence/InventoryRepositoryAdapter.java:29-66 | Loading, reserving and saving a fresh row passes once; doing it again on the same row fails with an optimistic-lock error, with no other transaction involved. |
| InventoryPersistence.InventoryStore.FindRow | src/main/java/com/jaypal/oms/inventory/application/InventoryServiceImpl.java:35-36 | The row of the SKU exactly when it exists. |
| InventoryPersistence.InventoryStore.SaveRow | src/main/java/com/jaypal/oms/inventory/application/InventoryServiceImpl.java:42-44 | The row is stored under its SKU and the SKU is marked written. |
| InventoryPersistence.InventoryStore.Begin | src/main/java/com/jaypal/oms/inventory/application/usecase/ReserveStockUseCase.java:46 | A transaction starts from a snapshot of the table with nothing written. |
| InventoryPersistence.InventoryStore.Rollback | src/main/java/com/jaypal/oms/inventory/application/usecase/ReserveStockUseCase.java:46 | An exception undoes exactly the writes of the transaction (Restore). |
| InventoryPersistence.InventoryStore.Commit | src/main/java/com/jaypal/oms/inventory/application/usecase/ReserveStockUseCase.java:46 | A normal return keeps the table as written. |
| InventoryPersistence.InventoryStore.ConcurrentCommit | src/main/java/com/jaypal/oms/inventory/application/usecase/ReserveStockUseCase.java:47-51 | Another transaction's commit replaces a row and moves its version, which is what makes a later save stale. |
| KeyOrder.SortedOfSpec | src/main/java/com/jaypal/oms/inventory/application/usecase/ReserveStockUseCase.java:57-58 | The ascending listing of a key set is strictly sorted and holds exactly the set's keys. |
| KeyOrder.SortSpec | src/main/java/com/jaypal/oms/inventory/application/usecase/ReserveStockUseCase.java:57-58 | Stream.sorted, as an insertion sort, returns a strictly ascending permutation of a list of distinct keys. |
| KeyOrder.SortedUnique | src/main/java/com/jaypal/oms/inventory/application/usecase/ReserveStockUseCase.java:57-58 | A key set has only one strictly ascending listing. |
| KeyOrder.SortCanonical | src/main/java/com/jaypal/oms/inventory/application/usecase/ReserveStockUseCase.java:57-58 | Sorting any iteration order of a key set gives the same listing, so the sorted loops do not depend on hash order. |
| KeyOrder.Enumerate | src/main/java/com/jaypal/oms/inventory/application/port/in/ReleaseStockUseCase.java:25 | Some order that lists each key of the map exactly once. |
| KeyOrder.SortedKeys | src/main/java/com/jaypal/oms/inventory/application/usecase/ReserveStockUseCase.java:57-58 | The sort of the order the map yielded its keys in, which is always the ascending listing. |
| StockBatch.Apply | src/main/java/com/jaypal/oms/inventory/application/usecase/ReserveStockUseCase.java:75 | reserve or release on the loaded item; neither ever raises an optimistic-lock failure. |
| StockBatch.Step | src/main/java/com/jaypal/oms/inventory/application/usecase/ReserveStockUseCase.java:66-78 | One iteration (load, operate, save) passes exactly when the SKU exists, rebuilds, accepts the quantity and no other transaction committed it; each failure carries its own error, and only a passing step changes the table. |
| StockBatch.Finish | src/main/java/com/jaypal/oms/inventory/application/usecase/ReserveStockUseCase.java:75-78 | Operate and save pass exactly when the operation succeeds and the row was not committed by another transaction. |
| StockBatch.SortedOrder | src/main/java/com/jaypal/oms/inventory/application/usecase/ReserveStockUseCase.java:57-58 | The sorted SKUs of a request list each of its SKUs exactly once. |
| StockBatch.Sweep | src/main/java/com/jaypal/oms/inventory/application/usecase/ReserveStockUseCase.java:57-82 | The loop completes exactly when it saved all its SKUs; a failed loop had loaded exactly one SKU more than it saved. |
| StockBatch.SweepPassesIff | src/main/java/com/jaypal/oms/inventory/application/usecase/ReserveStockUseCase.java:57-82 | The loop completes exactly when every SKU on its own would succeed. |
| StockBatch.SweepPassEffect | src/main/java/com/jaypal/oms/inventory/application/usecase/ReserveStockUseCase.java:57-82 | A completed loop updates every listed SKU from its original row and leaves every other row alone. |
| StockBatch.SweepStops | src/main/java/com/jaypal/oms/inventory/application/usecase/ReserveStockUseCase.java:57-82 | A failed loop stops at one SKU: the ones before it were saved, the failing one is as its step left it, the later ones are untouched. |
| StockBatch.UpdatedRow | src/main/java/com/jaypal/oms/inventory/application/usecase/ReserveStockUseCase.java:75-78 | The saved row reads back as the operated item, keeps the SKU and the total, and moves the quantity between available and reserved in the direction of the operation. |
| StockBatch.AttemptAllOrNothing | src/main/java/com/jaypal/oms/inventory/application/usecase/ReserveStockUseCase.java:46-82 | A failed transactional attempt leaves the table as the failing SKU's step alone would: every earlier save is rolled back. |
| StockBatch.AttemptFailureFrame | src/main/java/com/jaypal/oms/inventory/application/usecase/ReserveStockUseCase.java:46-82 | A failed attempt changes no SKU that no other transaction commits, and with no other transaction it changes nothing. |
| StockBatch.LockFailureNeedsInterference | src/main/java/com/jaypal/oms/inventory/application/usecase/ReserveStockUseCase.java:47-51 | An optimistic-lock failure can only come from a SKU another transaction committed. |
| StockBatch.Retry | src/main/java/com/jaypal/oms/inventory/application/usecase/ReserveStockUseCase.java:46-51 | At most 3 attempts in all; an optimistic-lock failure is final only at the third; an attempt that does not fail on the lock is the last one. |
| StockBatch.RetryWithoutInterference | src/main/java/com/jaypal/oms/inventory/application/usecase/ReserveStockUseCase.java:46-51 | Without other transactions a call makes exactly one attempt, and a failure leaves the table unchanged. |
| StockBatch.RetryEffect | src/main/java/com/jaypal/oms/inventory/application/usecase/ReserveStockUseCase.java:46-82 | For every SKU no other transaction touches, the whole retried call either updated it from its original row (on success) or left it as it was. |
| StockBatch.StepStore | src/main/java/com/jaypal/oms/inventory/application/usecase/ReserveStockUseCase.java:66-78 | One iteration on the store changes the table and outcome exactly as Step. |
| StockBatch.FinishStore | src/main/java/com/jaypal/oms/inventory/application/usecase/ReserveStockUseCase.java:75-78 | Operate and save on the store change the table and outcome exactly as Finish. |
| StockBatch.SweepStore | src/main/java/com/jaypal/oms/inventory/application/usecase/ReserveStockUseCase.java:57-82 | The loop on the store leaves the table and outcome of Sweep and marks exactly the saved SKUs written. |
| StockUseCases.AttemptStore | src/main/java/com/jaypal/oms/inventory/application/usecase/ReserveStockUseCase.java:46-82 | One transactional attempt on the store: Begin, loop, then Commit or Rollback; the table and outcome are those of Attempt. |
| StockUseCases.RetryStore | src/main/java/com/jaypal/oms/inventory/application/usecase/ReserveStockUseCase.java:46-82 | The retried call visits the SKUs in ascending order and leaves the table, outcome and attempt count of Retry. |
| StockUseCases.UncontendedRun | src/main/java/com/jaypal/oms/inventory/application/usecase/ReserveStockUseCase.java:46-51 | Without other transactions the retried call is one attempt: the loop's outcome, its table on success and the old table on failure. |
| StockUseCases.UncontendedPasses | src/main/java/com/jaypal/oms/inventory/application/usecase/ReserveStockUseCase.java:57-82 | Without contention the loop over any order listing the request's SKUs completes exactly when every SKU exists, rebuilds and accepts its quantity. |
| StockUseCases.UncontendedUpdates | src/main/java/com/jaypal/oms/inventory/application/usecase/ReserveStockUseCase.java:57-82 | A completed uncontended loop updates every requested SKU from its row and leaves every other row alone. |
| StockUseCases.Uncontended | src/main/java/com/jaypal/oms/inventory/application/usecase/ReserveStockUseCase.java:46-82 | Without contention: one attempt; success exactly when every SKU accepts its quantity; a failure changes nothing; a success updates exactly the requested SKUs. |
| StockUseCases.ReserveStockUseCase.Reserve | src/main/java/com/jaypal/oms/inventory/application/usecase/ReserveStockUseCase.java:52-85 | reserve is RetryStore with the reserve operation over the sorted SKUs. |
| StockUseCases.ReleaseStockUseCase.Release | src/main/java/com/jaypal/oms/inventory/application/usecase/ReleaseStockUseCase.java:51-84 | release is RetryStore with the release operation over the sorted SKUs. |
| InventoryPortIn.ReleaseStockUseCase.Release | src/main/java/com/jaypal/oms/inventory/application/port/in/ReleaseStockUseCase.java:23-39 | The untransacted release loop in the map's own iteration order: the table and outcome of Sweep, with nothing rolled back. |
| InventoryService.ReserveAll | src/main/java/com/jaypal/oms/inventory/application/InventoryServiceImpl.java:29-45 | The reserveStock loop over rows: a completed loop keeps the table's SKUs. |
| InventoryService.ReserveAllIff | src/main/java/com/jaypal/oms/inventory/application/InventoryServiceImpl.java:29-45 | The loop completes exactly when every listed SKU exists and has at least the requested quantity available. |
| InventoryService.ReserveAllEffect | src/main/java/com/jaypal/oms/inventory/application/InventoryServiceImpl.java:42-44 | A completed loop moves each listed SKU's quantity from available to reserved, keeps the total, and leaves other SKUs alone. |
| InventoryService.ReserveAllError | src/main/java/com/jaypal/oms/inventory/application/InventoryServiceImpl.java:35-40 | A failed loop reports the first failing SKU in visiting order, with "SKU not found: " or "Insufficient stock for SKU: ". |
| InventoryService.NegativeQuantityAccepted | src/main/java/com/jaypal/oms/inventory/application/InventoryServiceImpl.java:38-43 | A negative quantity passes the check and moves stock from reserved to available. |
| InventoryService.ReserveOne | src/main/java/com/jaypal/oms/inventory/application/InventoryServiceImpl.java:32-44 | One SKU: passes exactly when it exists with at least the requested quantity available, then moves that quantity to reserved; otherwise nothing changes and the error names the SKU. |
| InventoryService.ReserveSweep | src/main/java/com/jaypal/oms/inventory/application/InventoryServiceImpl.java:29-45 | The loop on the store leaves the table of ReserveAll, or stops with its error. |
| InventoryService.InventoryServiceImpl.ReserveStock | src/main/java/com/jaypal/oms/inventory/application/InventoryServiceImpl.java:23-48 | The transactional reserveStock: the sorted loop's table on success, the table unchanged on failure, with the loop's error. |
| InventoryService.InventoryServiceImpl.ReleaseStock | src/main/java/com/jaypal/oms/inventory/application/InventoryServiceImpl.java:50-55 | releaseStock succeeds and changes nothing. |
| CommandEntries.EntryError | src/main/java/com/jaypal/oms/inventory/application/port/in/ReserveStockCommand.java:24-31 | An entry has no error exactly when its SKU is present and not blank and its quantity is present and positive; the SKU is checked first, and a null SKU or a null quantity fails as a blank SKU or a non-positive quantity would. |
| CommandEntries.FirstEntryErrorSpec | src/main/java/com/jaypal/oms/inventory/application/port/in/ReserveStockCommand.java:24-31 | The entry loop passes exactly when every entry is valid, and otherwise reports the first invalid entry's error. |
| CommandEntries.EntriesAccepted | src/main/java/com/jaypal/oms/order/application/port/in/PlaceOrderCommand.java:20-27 | Whether a map is accepted does not depend on its iteration order, and a rejection is one of the two entry errors. |
| CommandEntries.NullEntryRejected | src/main/java/com/jaypal/oms/inventory/application/port/in/ReserveStockCommand.java:24-31 | A map with a null key or a null value is rejected, whatever order its entries are visited in. |
| CommandEntries.Present | src/main/java/com/jaypal/oms/inventory/application/port/in/ReserveStockCommand.java:24-35 | The map an accepted command keeps has exactly the caller's keys and values, with no null among them. |
| ReserveStockCommands.NewReserveStockCommand | src/main/java/com/jaypal/oms/inventory/application/port/in/ReserveStockCommand.java:16-35 | A command is built exactly for a present id and a non-empty map of valid entries (no null key or value), holding both unchanged; otherwise an IllegalArgument error, naming the missing id or the empty map when that is the cause, and one of the two entry errors otherwise. |
| ReserveStockCommands.Equals | src/main/java/com/jaypal/oms/inventory/application/port/in/ReserveStockCommand.java:45-52 | Two commands are equal exactly when their ids and maps are. |
| PlaceOrderCommands.NewPlaceOrderCommand | src/main/java/com/jaypal/oms/order/application/port/in/PlaceOrderCommand.java:15-30 | A command is built exactly for a non-empty map of valid entries (no null key or value), holding it unchanged; otherwise an IllegalArgument error, "Order must contain at least one item" for a missing or empty map, and one of the two entry errors otherwise. |
| PlaceOrderCommands.Equals | src/main/java/com/jaypal/oms/order/application/port/in/PlaceOrderCommand.java:36-42 | Two commands are equal exactly when their maps are. |
| OrderItems.NewOrderItem | src/main/java/com/jaypal/oms/order/domain/model/OrderItem.java:18-32 | An item is built exactly for a present, non-blank SKU, a positive quantity and a present, positive price; the three InvalidOrderItem messages in check order otherwise, a null SKU failing as a blank one. |
| OrderItems.TotalPrice | src/main/java/com/jaypal/oms/order/domain/model/OrderItem.java:46-48 | The total has the unit price's scale and value unit price times quantity, and is positive for every valid item. |
| OrderItems.Equals | src/main/java/com/jaypal/oms/order/domain/model/OrderItem.java:56-64 | Items are equal exactly when SKU, quantity and price (value and scale) are. |
| OrderItems.ScaleIsCompared | src/main/java/com/jaypal/oms/order/domain/model/OrderItem.java:56-64 | Prices 1.0 and 1.00 make different items: BigDecimal equality compares the scale. |
| Orders.StatusOf | src/main/java/com/jaypal/oms/order/domain/model/OrderStatus.java:12-40 | A name valueOf accepts is the name of the status it returns. |
| Orders.StatusNameRoundTrip | src/main/java/com/jaypal/oms/order/infrastructure/persistence/OrderRepositoryAdapter.java:28 | Every status is read back from its name. |
| Orders.MarkPendingOn | src/main/java/com/jaypal/oms/order/domain/model/Order.java:96-102 | markPending succeeds exactly from CREATED, giving PENDING with the queue unchanged; otherwise its error. |
| Orders.ConfirmOn | src/main/java/com/jaypal/oms/order/domain/model/Order.java:83-89 | confirm succeeds exactly from CREATED, giving CONFIRMED; otherwise the error naming the current status. |
| Orders.CancelOn | src/main/java/com/jaypal/oms/order/domain/model/Order.java:110-122 | cancel succeeds exactly from a status other than CANCELLED and COMPLETED, giving CANCELLED with one OrderCancelled event queued; the two error messages otherwise. |
| Orders.CancelIfNotCancelledOn | src/main/java/com/jaypal/oms/order/domain/model/Order.java:128-133 | A no-op from CANCELLED or COMPLETED; otherwise exactly cancel. |
| Orders.CancelIfNotCancelledIdempotent | src/main/java/com/jaypal/oms/order/domain/model/Order.java:128-133 | A second call changes nothing and at most one event is ever added. |
| Orders.FireAllReachable | src/main/java/com/jaypal/oms/order/domain/model/Order.java:83-133 | Every sequence of calls from a reachable state stays reachable. |
| Orders.CompletedUnreachable | src/main/java/com/jaypal/oms/order/domain/model/Order.java:32-133 | From a new order no sequence of calls reaches COMPLETED, at most one event is queued, and a queued event means CANCELLED. |
| Orders.CancelledAbsorbing | src/main/java/com/jaypal/oms/order/domain/model/Order.java:110-133 | No sequence of calls leaves CANCELLED. |
| Orders.Order.constructor | src/main/java/com/jaypal/oms/order/domain/model/Order.java:32-44 | A new order holds its id, items and creation time, is CREATED and has no events. |
| Orders.Order.Create | src/main/java/com/jaypal/oms/order/domain/model/Order.java:32-44 | Construction fails on a missing id, then on missing or empty items; otherwise a fresh CREATED order. |
| Orders.Order.GetDomainEvents | src/main/java/com/jaypal/oms/order/domain/model/Order.java:66-68 | A copy of the queue. |
| Orders.Order.ClearDomainEvents | src/main/java/com/jaypal/oms/order/domain/model/Order.java:74-76 | The queue becomes empty and the status stays. |
| Orders.Order.MarkPending | src/main/java/com/jaypal/oms/order/domain/model/Order.java:96-102 | The order's new state and outcome are those of MarkPendingOn. |
| Orders.Order.Confirm | src/main/java/com/jaypal/oms/order/domain/model/Order.java:83-89 | The order's new state and outcome are those of ConfirmOn. |
| Orders.Order.Cancel | src/main/java/com/jaypal/oms/order/domain/model/Order.java:110-122 | The order's new state and outcome are those of CancelOn. |
| Orders.Order.CancelIfNotAlreadyCancelled | src/main/java/com/jaypal/oms/order/domain/model/Order.java:128-133 | The order's new state is CancelIfNotCancelledOn of the old one. |
| Orders.Order.Equals | src/main/java/com/jaypal/oms/order/domain/model/Order.java:135-143 | Orders are equal exactly when their ids are. |
| OrderStores.SaveThenFind | src/main/java/com/jaypal/oms/order/domain/model/Order.java:135-143 | A saved order is found again as a different object, equal to the saved one and with the same items, status and time. |
| OrderEvents.EventPublisher.PublishEvent | src/main/java/com/jaypal/oms/order/application/usecase/PlaceOrderUseCase.java:73-74 | The event is appended to what was published. |
| OrderStores.OrderStore.Save | src/main/java/com/jaypal/oms/order/application/port/out/OrderRepositoryPort.java:13 | The order's items, status and creation time are stored under its id, and the save is recorded. |
| OrderStores.OrderStore.FindById | src/main/java/com/jaypal/oms/order/application/port/out/OrderRepositoryPort.java:15 | Present exactly when an order is stored under the id; a fresh order with the stored items, status and time and no events. |
| OrderPersistence.ItemRows | src/main/java/com/jaypal/oms/order/infrastructure/persistence/OrderRepositoryAdapter.java:38-46 | One row per item, in item order, with the order id, SKU, quantity and price. |
| OrderPersistence.RowsOf | src/main/java/com/jaypal/oms/order/infrastructure/persistence/OrderRepositoryAdapter.java:35 | Only rows of the given order. |
| OrderPersistence.Without | src/main/java/com/jaypal/oms/order/infrastructure/persistence/OrderRepositoryAdapter.java:34-36 | No row of the given order is left. |
| OrderPersistence.SavedItemRows | src/main/java/com/jaypal/oms/order/infrastructure/persistence/OrderRepositoryAdapter.java:34-48 | After save the order's item rows are exactly its current items, and every other order's rows are unchanged. |
| OrderPersistence.DomainItems | src/main/java/com/jaypal/oms/order/infrastructure/persistence/OrderRepositoryAdapter.java:58-65 | One item per row when every row passes the OrderItem constructor. |
| OrderPersistence.DomainItemsRoundTrip | src/main/java/com/jaypal/oms/order/infrastructure/persistence/OrderRepositoryAdapter.java:38-65 | Valid items written as rows are read back unchanged. |
| OrderPersistence.ReloadStateSpec | src/main/java/com/jaypal/oms/order/infrastructure/persistence/OrderRepositoryAdapter.java:67-75 | Only CREATED, CONFIRMED and CANCELLED survive a reload; PENDING and COMPLETED come back CREATED; a reloaded CANCELLED order has the replayed cancel event queued. |
| OrderPersistence.Reload | src/main/java/com/jaypal/oms/order/infrastructure/persistence/OrderRepositoryAdapter.java:55-77 | A reload succeeds only with at least one item and a valid status name. |
| OrderPersistence.SaveReloadRoundTrip | src/main/java/com/jaypal/oms/order/infrastructure/persistence/OrderRepositoryAdapter.java:24-79 | Saving and reloading gives back the id and items, with the status as ReloadStateSpec says. |
| OrderPersistence.ReloadedPendingConfirms | src/main/java/com/jaypal/oms/order/infrastructure/persistence/OrderRepositoryAdapter.java:67-75 | A PENDING order read back through the adapter can be confirmed, although confirm rejects the PENDING order in memory. |
| OrderPersistence.ReloadNeverPending | src/main/java/com/jaypal/oms/order/infrastructure/persistence/OrderRepositoryAdapter.java:67-75 | Whatever status was stored, an order read back through the adapter is never PENDING. |
| OrderPersistence.OrderRepositoryAdapter.Save | src/main/java/com/jaypal/oms/order/infrastructure/persistence/OrderRepositoryAdapter.java:24-49 | The order row is replaced with the status by name, and the order's item rows are replaced by its current items. |
| OrderPersistence.OrderRepositoryAdapter.FindById | src/main/java/com/jaypal/oms/order/infrastructure/persistence/OrderRepositoryAdapter.java:52-79 | Empty without an order row; otherwise the order Reload builds, or the exception a row or the status name raises. |
| OrderUseCases.ResolvePrice | src/main/java/com/jaypal/oms/order/application/usecase/PlaceOrderUseCase.java:95-101 | The catalog price exactly when the SKU is known; otherwise "Product not found: "+sku. |
| OrderUseCases.ToOrderItems | src/main/java/com/jaypal/oms/order/application/usecase/PlaceOrderUseCase.java:83-90 | On success, one valid item per entry in visiting order, with the entry's SKU and quantity and the catalog price. |
| OrderUseCases.ToOrderItemsSucceeds | src/main/java/com/jaypal/oms/order/application/usecase/PlaceOrderUseCase.java:83-90 | Items are built exactly when every SKU has a price and every entry makes a valid item. |
| OrderUseCases.ToOrderItemsError | src/main/java/com/jaypal/oms/order/application/usecase/PlaceOrderUseCase.java:83-101 | The first entry that fails, all earlier ones priced and valid, decides the exception: an unpriced SKU gives IllegalArgument "Product not found: " + the SKU, a priced one the OrderItem constructor's error for that entry. |
| OrderUseCases.PlaceOrderUseCase.PlaceOrder | src/main/java/com/jaypal/oms/order/application/usecase/PlaceOrderUseCase.java:54-78 | On success the order is saved CREATED then PENDING, is stored PENDING, and one OrderPlaced event with the command's map is published; on any failure nothing is saved or published. |
| OrderUseCases.PlaceOrderUseCase.Register | src/main/java/com/jaypal/oms/order/application/usecase/PlaceOrderUseCase.java:61-77 | The steps after the items are built: the two saves and the publication, or the empty-items error with nothing changed. |
| OrderUseCases.ToMapFromSucceeds | src/main/java/com/jaypal/oms/order/application/usecase/CancelOrderUseCase.java:30-34 | Collectors.toMap succeeds exactly when the items' SKUs are distinct. |
| OrderUseCases.ToMapFromContents | src/main/java/com/jaypal/oms/order/application/usecase/CancelOrderUseCase.java:30-34 | The built map holds exactly the items' SKUs, each with its item's quantity. |
| OrderUseCases.InventoryPort.ReleaseStock | src/main/java/com/jaypal/oms/order/application/port/out/InventoryPort.java:13 | The call is recorded with the order id and map, and ends as given. |
| OrderUseCases.CancelOrderUseCase.CancelOrder | src/main/java/com/jaypal/oms/order/application/usecase/CancelOrderUseCase.java:20-38 | A missing order, a rejected cancel or duplicate SKUs each end with their error and change nothing; otherwise the release is requested with the items' map, and the order is saved once, CANCELLED, exactly when the release succeeds; nothing is saved otherwise. |
| OrderSaga.FailureReason | src/main/java/com/jaypal/oms/order/infrastructure/saga/OrderSagaOrchestrator.java:86-98 | An IllegalArgumentException becomes "SKU not found: "+message, anything else "Stock reservation failed: "+message. |
| OrderSaga.ReservedOn | src/main/java/com/jaypal/oms/order/infrastructure/saga/OrderSagaOrchestrator.java:115-133 | handleStockReserved touches at most the event's order. |
| OrderSaga.ReservationFailedOn | src/main/java/com/jaypal/oms/order/infrastructure/saga/OrderSagaOrchestrator.java:154-173 | handleStockReservationFailed touches at most the event's order. |
| OrderSaga.TimeoutOn | src/main/java/com/jaypal/oms/order/infrastructure/saga/OrderSagaOrchestrator.java:189-219 | handleOrderTimeout touches at most the given order. |
| OrderSaga.ReservedConfirmsCreatedOnly | src/main/java/com/jaypal/oms/order/infrastructure/saga/OrderSagaOrchestrator.java:115-133 | A stored CREATED order becomes CONFIRMED; any other status, PENDING included, is left as it was. |
| OrderSaga.ReservationFailedSettles | src/main/java/com/jaypal/oms/order/infrastructure/saga/OrderSagaOrchestrator.java:154-166 | A failed reservation cancels the order unless it is COMPLETED, and a repeated delivery changes nothing. |
| OrderSaga.TimeoutSettles | src/main/java/com/jaypal/oms/order/infrastructure/saga/OrderSagaOrchestrator.java:193-212 | A PENDING order ends CANCELLED, any other status is kept, and a second timeout changes nothing. |
| OrderSaga.PlacedOrderNeverConfirmed | src/main/java/com/jaypal/oms/order/infrastructure/saga/OrderSagaOrchestrator.java:110-220 | A PENDING order, as placeOrder stores it, stays PENDING under handleStockReserved, and only a failure or a timeout moves it, to CANCELLED. |
| OrderSaga.OrderSagaOrchestrator.HandleOrderPlaced | src/main/java/com/jaypal/oms/order/infrastructure/saga/OrderSagaOrchestrator.java:70-100 | The inventory is left as the retried sorted reserve leaves it; on success the order is neither loaded nor saved; on failure the failed-reservation handler runs with the derived reason, saving the order once when it exists and nothing otherwise. |
| OrderSaga.OrderSagaOrchestrator.HandleStockReserved | src/main/java/com/jaypal/oms/order/infrastructure/saga/OrderSagaOrchestrator.java:110-134 | The stored orders become ReservedOn of the old ones; every exception is swallowed; the order is saved once, CONFIRMED, exactly when it exists and is CREATED, and nothing is saved otherwise. |
| OrderSaga.OrderSagaOrchestrator.HandleStockReservationFailed | src/main/java/com/jaypal/oms/order/infrastructure/saga/OrderSagaOrchestrator.java:147-174 | The stored orders become ReservationFailedOn of the old ones; an existing order is saved once, CANCELLED, and a missing order saves nothing. |
| OrderSaga.OrderSagaOrchestrator.HandleOrderTimeout | src/main/java/com/jaypal/oms/order/infrastructure/saga/OrderSagaOrchestrator.java:186-220 | A non-PENDING or missing order: no release and no save. A PENDING one: its item quantities are released, every error (duplicate SKUs included) being ignored, then it is saved once, CANCELLED. |
| OrderSaga.TimeoutIdleThroughAdapter | src/main/java/com/jaypal/oms/order/infrastructure/saga/OrderSagaOrchestrator.java:186-220 | When the stored order is what the JPA adapter reads back, the timeout handler leaves the orders unchanged. |
| JwtConverters.Normalize | src/main/java/com/jaypal/oms/bootstrap/config/JwtConverter.java:43-48 | The result starts with ROLE_; a role that has it is unchanged, any other gets it in front. |
| JwtConverters.NormalizeIdempotent | src/main/java/com/jaypal/oms/bootstrap/config/JwtConverter.java:43-48 | Normalizing twice is normalizing once. |
| JwtConverters.NormalizeAll | src/main/java/com/jaypal/oms/bootstrap/config/JwtConverter.java:42-45 | One normalized role per role, position by position. |
| JwtConverters.NormalizeAllAppend | src/main/java/com/jaypal/oms/bootstrap/config/JwtConverter.java:42-45 | Normalizing a list with one more role appends that role's normalized name. |
| JwtConverters.RoleAuthorities | src/main/java/com/jaypal/oms/bootstrap/config/JwtConverter.java:37-50 | A list claim gives one prefixed authority per element in order, a string claim exactly one, anything else none. |
| JwtConverters.AuthoritiesShape | src/main/java/com/jaypal/oms/bootstrap/config/JwtConverter.java:31-50 | The defaults come first and unchanged; every later authority has the prefix and is already normalized. |
| JwtConverters.AddRoles | src/main/java/com/jaypal/oms/bootstrap/config/JwtConverter.java:42-45 | The loop appends each element's normalized name, in order. |
| JwtConverters.Convert | src/main/java/com/jaypal/oms/bootstrap/config/JwtConverter.java:30-53 | convert returns exactly the defaults (when not null) followed by the claim's authorities. |
| CatalogPaging.ClampPage | src/main/java/com/jaypal/oms/catalog/api/CatalogController.java:68 | The page is max(page, 0): never negative, and unchanged when not negative. |
| CatalogPaging.ClampSize | src/main/java/com/jaypal/oms/catalog/api/CatalogController.java:69 | The size lies in 1..100: unchanged inside, 1 below, 100 above. |
| CatalogPaging.ClampIdempotent | src/main/java/com/jaypal/oms/catalog/api/CatalogController.java:68-69 | Clamping a clamped page and size changes nothing. |

## Left out

- Logging, metrics and health indicators: they do not affect state.
- Retry backoff (delay, multiplier, jitter): wall-clock sleeping and randomness. Only the bound of 3 attempts and the rule that only optimistic-lock failures are retried are modelled.
- Spring transaction propagation and event dispatch. The saga handlers' `@Transactional` is not modelled, and neither is `reserve` joining the handler's transaction (a rolled-back inner call marks the outer one rollback-only). Each handler is a sequence of repository calls. Event listeners are not invoked by publishing; `EventPublisher` only records the events.
- The JPA `@Version` mechanics and flush timing: version numbers are counters in the model.
- InventoryPersistence.InventoryStore.Save: compares with the version the row was loaded at, whereas `toEntity` builds an entity whose `@Version` field is never set and stays 0, so the adapter's own save is `InventoryPersistence.InventoryStore.SaveAsWritten`, which fails on any row saved before (`InventoryPersistence.SecondSaveRefused`). The reserve and release batch (`StockBatch`, `StockUseCases`) is modelled with the loaded-version rule a versioned entity would give, so `StockBatch.LockFailureNeedsInterference`, `StockBatch.RetryWithoutInterference`, `StockUseCases.Uncontended`, `StockUseCases.UncontendedRun`, `StockUseCases.UncontendedPasses`, `StockUseCases.UncontendedUpdates` and the `StockUseCases` and saga contracts built on them hold for that rule, not for the adapter as written.
- OrderSaga.OrderSagaOrchestrator.HandleOrderTimeout: the saga runs over a store that keeps the status. With the JPA adapter that is wired, no order reloads as PENDING and the handler never releases or cancels (`OrderSaga.TimeoutIdleThroughAdapter`); its PENDING branch is reachable only with such a store.
- `InventoryServiceImpl.reserveStock` under concurrency: its entities carry no version in the model, and no interleaving is given to it.
- Domain events queued on an order loaded from a repository are dropped; none of the modelled code reads the queue (`getDomainEvents`) to publish them.
- Java `int` overflow: quantities are unbounded integers, so `StockLevel.increaseBy` and `available + reserved` never wrap.
- Strings are sequences of code points, not UTF-16 units; `isBlank` uses the characters `Character.isWhitespace` accepts, listed in `JavaLang.IsWhitespace`.
- `Instant.now()` and `UUID.randomUUID()` are inputs (`createdAt`, `orderId`, `now`).
- `null` is modelled (as `Option`) where the code checks it and where a check of the code would throw on it: the command ids and maps, the keys and values of the commands' maps, the `OrderItem` SKU and price, the JWT default authorities. Elsewhere values are present, so a `NullPointerException` from a null argument anywhere else is not modelled.
- `hashCode`: equality is modelled, hashing is not.
- The immutable copies `Map.copyOf` makes in the command constructors: maps are values in the model, so later changes to the caller's map cannot be expressed.
- REST controllers, security configuration, caching, the catalog service and the Spring Data interfaces. The catalog port is a map from SKU to price.
- `OrderModuleConfig` and `InventoryAdapter` do not compile as written, so the outbound `InventoryPort.releaseStock` has no implementation to follow. `OrderUseCases.InventoryPort.ReleaseStock` records each call, and its outcome is an input.
- `cancel()` with no argument, called by `CancelOrderUseCase` and by `OrderRepositoryAdapter.findById`, does not exist on `Order`. The model calls `cancel(String)` with the empty reason `Orders.UnstatedReason`.
- The order of item rows in the JPA table: the table is a sequence, and reading the rows of one order keeps their insertion order.
- `JwtConverter`'s default `JwtGrantedAuthoritiesConverter` is an input (the default authorities, or `None` for null). List elements of the roles claim are taken as the strings `toString` gives.
- `StockLevel.equals` is the equality of the `StockLevel` datatype (by quantity); it has no member of its own.
- The rest of `CatalogController.listProducts` (the query and the response) is HTTP and persistence plumbing.
