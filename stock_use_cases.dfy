/** The `reserve` and `release` use cases of the inventory module
    (`application/usecase`): every SKU of the request in ascending order, one
    transaction per attempt, and up to three attempts when a save hits a
    stale version. */
module StockUseCases {
  import opened Wrappers
  import opened JavaLang
  import opened KeyOrder
  import opened InventoryPersistence
  import opened StockBatch

  /** Other transactions commit rows under their own SKU. */
  predicate KeyedInterleaving(interleaving: seq<Rows>) {
    forall n :: 0 <= n < |interleaving| ==> Keyed(interleaving[n])
  }

  /** One attempt in its own transaction: begin, run the loop, commit when it
      completes and roll back when it throws. */
  method AttemptStore(store: InventoryStore, keys: seq<string>, quantities: map<string, int>, op: StockOp, other: Rows)
    returns (outcome: Outcome<Error>)
    requires store.Valid() && Keyed(other) && Listed(keys, quantities)
    modifies store
    ensures store.Valid() && store.written == {}
    ensures store.rows == Attempt(old(store.rows), keys, quantities, op, other).rows
    ensures outcome == Attempt(old(store.rows), keys, quantities, op, other).outcome
  {
    ghost var start := store.rows;
    ghost var s := Sweep(start, keys, quantities, op, other);
    store.Begin();
    assert store.before == start && store.written == {};
    outcome := SweepStore(store, keys, quantities, op, other);
    assert store.rows == s.rows && outcome == s.outcome;
    if outcome == Pass {
      store.Commit();
    } else {
      assert store.written == Elems(keys[..s.saved]);
      store.Rollback();
      assert store.rows == Restore(s.rows, start, Elems(keys[..s.saved]));
    }
  }

  /** The call as the retry advisor runs it around the transactional method:
      the SKUs in ascending order, then attempts while the last one failed on
      the version check and fewer than `MaxAttempts` were made. `order` is the
      order the SKUs were visited in and `attempts` the number of attempts. */
  method RetryStore(store: InventoryStore, quantities: map<string, int>, op: StockOp, interleaving: seq<Rows>)
    returns (outcome: Outcome<Error>, ghost order: seq<string>, ghost attempts: nat)
    requires store.Valid() && KeyedInterleaving(interleaving)
    modifies store
    ensures store.Valid()
    ensures order == SortedOf(quantities.Keys) && Distinct(order) && Listed(order, quantities)
      && store.rows == Retry(old(store.rows), order, quantities, op, interleaving, 0).rows
      && outcome == Retry(old(store.rows), order, quantities, op, interleaving, 0).outcome
      && attempts == Retry(old(store.rows), order, quantities, op, interleaving, 0).attempts
  {
    var sorted, yielded := SortedKeys(quantities.Keys);
    SortedOfSpec(quantities.Keys);
    SortedIsDistinct(sorted);
    assert Listed(sorted, quantities) by {
      forall i | 0 <= i < |sorted| ensures sorted[i] in quantities {
        assert sorted[i] in Elems(sorted);
      }
    }
    order := sorted;
    ghost var goal := Retry(store.rows, sorted, quantities, op, interleaving, 0);
    var attempt := 0;
    while true
      invariant attempt < MaxAttempts && store.Valid()
      invariant goal == Retry(store.rows, sorted, quantities, op, interleaving, attempt)
      decreases MaxAttempts - attempt
    {
      var other := if attempt < |interleaving| then interleaving[attempt] else map[];
      assert other == Interference(interleaving, attempt);
      outcome := AttemptStore(store, sorted, quantities, op, other);
      attempt := attempt + 1;
      if !(LockFailed(outcome) && attempt < MaxAttempts) {
        attempts := attempt;
        return;
      }
    }
  }

  /** Without other transactions a call is one attempt that ends as its loop. */
  lemma UncontendedRun(rows: Rows, quantities: map<string, int>, op: StockOp)
    requires Distinct(SortedOf(quantities.Keys)) && Listed(SortedOf(quantities.Keys), quantities)
    ensures var order := SortedOf(quantities.Keys);
      var r := Retry(rows, order, quantities, op, [], 0);
      var s := Sweep(rows, order, quantities, op, map[]);
      r.attempts == 1 && r.outcome == s.outcome
      && (r.outcome.Fail? ==> r.rows == rows) && (r.outcome == Pass ==> r.rows == s.rows)
  {
    var order := SortedOf(quantities.Keys);
    RetryWithoutInterference(rows, order, quantities, op, [], 0);
    var s := Sweep(rows, order, quantities, op, map[]);
    assert Interference([], 0) == map[];
    if LockFailed(s.outcome) {
      LockFailureNeedsInterference(rows, order, quantities, op, map[]);
    }
  }

  /** Without other transactions the loop over the sorted request completes
      exactly when every SKU of the request accepts its quantity. */
  lemma UncontendedPasses(rows: Rows, order: seq<string>, quantities: map<string, int>, op: StockOp)
    requires Distinct(order) && Listed(order, quantities)
    requires forall k :: k in order <==> k in quantities
    ensures Sweep(rows, order, quantities, op, map[]).outcome == Pass <==>
      forall k :: k in quantities ==> Applicable(rows, k, quantities[k], op)
  {
    SweepPassesIff(rows, order, quantities, op, map[]);
    if forall i :: 0 <= i < |order| ==> Succeeds(rows, order[i], quantities[order[i]], op, map[]) {
      forall k | k in quantities ensures Applicable(rows, k, quantities[k], op) {
        var i :| 0 <= i < |order| && order[i] == k;
        assert Succeeds(rows, order[i], quantities[order[i]], op, map[]);
      }
    }
  }

  /** ... and when it completes it has updated the SKUs of the request and
      nothing else. */
  lemma UncontendedUpdates(rows: Rows, order: seq<string>, quantities: map<string, int>, op: StockOp)
    requires Distinct(order) && Listed(order, quantities)
    requires forall k :: k in order <==> k in quantities
    requires Sweep(rows, order, quantities, op, map[]).outcome == Pass
    ensures var s := Sweep(rows, order, quantities, op, map[]);
      s.rows.Keys == rows.Keys
      && (forall k :: k in rows && k !in quantities ==> s.rows[k] == rows[k])
      && (forall k :: k in quantities ==>
            Applicable(rows, k, quantities[k], op) && s.rows[k] == Updated(rows, k, quantities[k], op))
  {
    SweepPassEffect(rows, order, quantities, op, map[]);
    forall k | k in quantities
      ensures Applicable(rows, k, quantities[k], op)
        && Sweep(rows, order, quantities, op, map[]).rows[k] == Updated(rows, k, quantities[k], op)
    {
      var i :| 0 <= i < |order| && order[i] == k;
      assert Succeeds(rows, order[i], quantities[order[i]], op, map[]);
    }
  }

  /** Without other transactions a call makes one attempt, and it succeeds
      exactly when every SKU of the request exists, is consistent and accepts
      its quantity. A failure leaves the table as it was; a success updates
      every SKU of the request from its row before the call and nothing else. */
  lemma Uncontended(rows: Rows, quantities: map<string, int>, op: StockOp)
    ensures Distinct(SortedOf(quantities.Keys)) && Listed(SortedOf(quantities.Keys), quantities)
    ensures var r := Retry(rows, SortedOf(quantities.Keys), quantities, op, [], 0);
      r.attempts == 1
      && (r.outcome == Pass <==> forall k :: k in quantities ==> Applicable(rows, k, quantities[k], op))
      && (r.outcome.Fail? ==> r.rows == rows)
      && (r.outcome == Pass ==>
            r.rows.Keys == rows.Keys
            && (forall k :: k in rows && k !in quantities ==> r.rows[k] == rows[k])
            && (forall k :: k in quantities ==> r.rows[k] == Updated(rows, k, quantities[k], op)))
  {
    SortedOrder(quantities);
    UncontendedRun(rows, quantities, op);
    var order := SortedOf(quantities.Keys);
    UncontendedPasses(rows, order, quantities, op);
    if Retry(rows, order, quantities, op, [], 0).outcome == Pass {
      UncontendedUpdates(rows, order, quantities, op);
    }
  }

  /** A retried `reserve` or `release` of `quantities` on `rows`, its SKUs
      taken in ascending order. */
  ghost function SortedRetry(rows: Rows, quantities: map<string, int>, op: StockOp, interleaving: seq<Rows>): Run {
    SortedOrder(quantities);
    Retry(rows, SortedOf(quantities.Keys), quantities, op, interleaving, 0)
  }

  /** `ReserveStockUseCase` of `application/usecase`. */
  class ReserveStockUseCase {
    const repository: InventoryStore

    constructor (repository: InventoryStore)
      ensures this.repository == repository
    {
      this.repository := repository;
    }

    /** `reserve`; `interleaving` holds what other transactions commit during
        each attempt. */
    method Reserve(orderId: Uuid, skuQuantities: map<string, int>, interleaving: seq<Rows>)
      returns (outcome: Outcome<Error>, ghost order: seq<string>, ghost attempts: nat)
      requires repository.Valid() && KeyedInterleaving(interleaving)
      modifies repository
      ensures repository.Valid()
      ensures order == SortedOf(skuQuantities.Keys) && Distinct(order) && Listed(order, skuQuantities)
        && repository.rows == Retry(old(repository.rows), order, skuQuantities, ReserveOp, interleaving, 0).rows
        && outcome == Retry(old(repository.rows), order, skuQuantities, ReserveOp, interleaving, 0).outcome
        && attempts == Retry(old(repository.rows), order, skuQuantities, ReserveOp, interleaving, 0).attempts
    {
      outcome, order, attempts := RetryStore(repository, skuQuantities, ReserveOp, interleaving);
    }
  }

  /** `ReleaseStockUseCase` of `application/usecase`. */
  class ReleaseStockUseCase {
    const repository: InventoryStore

    constructor (repository: InventoryStore)
      ensures this.repository == repository
    {
      this.repository := repository;
    }

    /** `release`; `interleaving` holds what other transactions commit during
        each attempt. */
    method Release(orderId: Uuid, skuQuantities: map<string, int>, interleaving: seq<Rows>)
      returns (outcome: Outcome<Error>, ghost order: seq<string>, ghost attempts: nat)
      requires repository.Valid() && KeyedInterleaving(interleaving)
      modifies repository
      ensures repository.Valid()
      ensures order == SortedOf(skuQuantities.Keys) && Distinct(order) && Listed(order, skuQuantities)
        && repository.rows == Retry(old(repository.rows), order, skuQuantities, ReleaseOp, interleaving, 0).rows
        && outcome == Retry(old(repository.rows), order, skuQuantities, ReleaseOp, interleaving, 0).outcome
        && attempts == Retry(old(repository.rows), order, skuQuantities, ReleaseOp, interleaving, 0).attempts
    {
      outcome, order, attempts := RetryStore(repository, skuQuantities, ReleaseOp, interleaving);
    }
  }
}
