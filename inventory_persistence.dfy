/** Persistence of the stock ledger: the `inventory` table row, the mapping
    between rows and items (`InventoryRepositoryAdapter.toEntity`/`toDomain`)
    and a map-backed store that detects stale writes by version, as the JPA
    `@Version` column does. */
module InventoryPersistence {
  import opened Wrappers
  import opened JavaLang
  import opened StockLevels
  import opened Inventory

  /** A row of the `inventory` table. The version column is kept by the store,
      not by the row: the entity `toEntity` builds carries no version. */
  datatype InventoryRow = InventoryRow(sku: string, available: int, reserved: int)

  /** `toEntity`: a plain field copy. */
  function ToEntity(st: ItemState): InventoryRow {
    InventoryRow(st.sku, st.available.quantity, st.reserved.quantity)
  }

  /** What `toDomain` builds from a row: `new StockLevel(available)`, then
      `new InventoryItem(sku, ...)`, then `setReservedStock(new StockLevel(reserved))`.
      The counts are taken from the row as they are; nothing is replayed. */
  function Reconstruct(row: InventoryRow): (r: Result<ItemState, Error>)
    ensures r.Success? <==> row.available >= 0 && !IsBlank(row.sku) && row.reserved >= 0
    ensures r.Success? ==>
      r.value == ItemState(row.sku, StockLevel(row.available), StockLevel(row.reserved))
    ensures row.available < 0 ==>
      r == Failure(Error(InvalidStockLevel, "Stock quantity cannot be negative"))
    ensures row.available >= 0 && IsBlank(row.sku) ==>
      r == Failure(Error(IllegalArgument, "SKU must be provided"))
    ensures row.available >= 0 && !IsBlank(row.sku) && row.reserved < 0 ==>
      r == Failure(Error(InvalidStockLevel, "Stock quantity cannot be negative"))
  {
    var available :- NewStockLevel(row.available);
    if IsBlank(row.sku) then Failure(Error(IllegalArgument, "SKU must be provided"))
    else
      var reserved :- NewStockLevel(row.reserved);
      Success(ItemState(row.sku, available, reserved))
  }

  /** Storing an item and reading it back gives the same SKU and counts. */
  lemma ItemRoundTrip(st: ItemState)
    requires !IsBlank(st.sku)
    ensures Reconstruct(ToEntity(st)) == Success(st)
  {
  }

  /** A row that reconstructs is written back unchanged. */
  lemma RowRoundTrip(row: InventoryRow)
    requires Reconstruct(row).Success?
    ensures ToEntity(Reconstruct(row).value) == row
  {
  }

  /** `toDomain`, building the item object. */
  method ToDomain(row: InventoryRow) returns (r: Result<InventoryItem, Error>)
    ensures r.Success? <==> Reconstruct(row).Success?
    ensures r.Success? ==> fresh(r.value) && r.value.State() == Reconstruct(row).value
    ensures r.Failure? ==> r.error == Reconstruct(row).error
  {
    var available := NewStockLevel(row.available);
    if available.Failure? {
      return Failure(available.error);
    }
    var created := InventoryItem.Create(Some(row.sku), Some(available.value));
    if created.Failure? {
      return Failure(created.error);
    }
    var reserved := NewStockLevel(row.reserved);
    if reserved.Failure? {
      return Failure(reserved.error);
    }
    var item := created.value;
    item.SetReservedStock(reserved.value);
    return Success(item);
  }

  /** The version of the entity `toEntity` builds: the constructor it calls
      never sets the `@Version` field, which keeps its default, whatever
      version the row was loaded at. */
  const EntityVersion: nat := 0

  /** The error a stale write raises; its text is the persistence provider's. */
  function LockFailure(sku: string): Error {
    Error(OptimisticLockingFailure, "Row was updated or deleted by another transaction: " + sku)
  }

  /** Every row is stored under its own SKU. */
  predicate Keyed(rows: map<string, InventoryRow>) {
    forall k :: k in rows ==> rows[k].sku == k
  }

  /** The table after a rollback: the SKUs the transaction wrote get back the
      value they had when it began (or disappear if they had none); every other
      SKU keeps its current value. */
  function Restore<V>(current: map<string, V>, snapshot: map<string, V>, written: set<string>): (r: map<string, V>)
    ensures forall k :: k !in written ==> (k in r <==> k in current) && (k in current ==> r[k] == current[k])
    ensures forall k :: k in written ==> (k in r <==> k in snapshot) && (k in snapshot ==> r[k] == snapshot[k])
  {
    map k | k in (current.Keys - written) + (snapshot.Keys * written) ::
      if k in written then snapshot[k] else current[k]
  }

  /** The `inventory` table behind `InventoryRepositoryAdapter`, with the
      version of every row and the bookkeeping of the current transaction:
      the table as it began and the SKUs it has written. */
  class InventoryStore {
    var rows: map<string, InventoryRow>
    var versions: map<string, nat>
    var before: map<string, InventoryRow>
    var beforeVersions: map<string, nat>
    var written: set<string>

    ghost predicate Valid()
      reads this
    {
      rows.Keys == versions.Keys && Keyed(rows)
      && before.Keys == beforeVersions.Keys && Keyed(before)
    }

    constructor (rows: map<string, InventoryRow>)
      requires Keyed(rows)
      ensures Valid() && this.rows == rows && written == {}
      ensures versions == map k | k in rows :: 0
    {
      this.rows := rows;
      this.versions := map k | k in rows :: 0;
      this.before := rows;
      this.beforeVersions := map k | k in rows :: 0;
      this.written := {};
    }

    /** `findBySku`: empty when there is no row, otherwise the reconstructed
        item, together with the version read (kept by the persistence context
        for the later save). */
    method FindBySku(sku: string) returns (r: Result<Option<InventoryItem>, Error>, version: nat)
      requires Valid()
      ensures Valid()
      ensures sku !in rows ==> r == Success(None)
      ensures sku in rows ==> version == versions[sku]
      ensures sku in rows && Reconstruct(rows[sku]).Success? ==>
        r.Success? && r.value.Some? && fresh(r.value.value)
        && r.value.value.State() == Reconstruct(rows[sku]).value
      ensures sku in rows && Reconstruct(rows[sku]).Failure? ==>
        r == Failure(Reconstruct(rows[sku]).error)
    {
      if sku !in rows {
        return Success(None), 0;
      }
      version := versions[sku];
      var item := ToDomain(rows[sku]);
      if item.Failure? {
        return Failure(item.error), version;
      }
      r := Success(Some(item.value));
    }

    /** `save`: writes `toEntity(item)` unless the row's version moved since it
        was read, in which case the write is refused. */
    method Save(item: InventoryItem, readVersion: nat) returns (r: Outcome<Error>)
      requires Valid()
      modifies this`rows, this`versions, this`written
      ensures Valid()
      ensures item.sku in old(versions) && old(versions)[item.sku] != readVersion ==>
        r == Fail(LockFailure(item.sku))
        && rows == old(rows) && versions == old(versions) && written == old(written)
      ensures !(item.sku in old(versions) && old(versions)[item.sku] != readVersion) ==>
        r == Pass
        && rows == old(rows)[item.sku := ToEntity(item.State())]
        && versions == old(versions)[item.sku := if item.sku in old(versions) then old(versions)[item.sku] + 1 else 0]
        && written == old(written) + {item.sku}
    {
      if item.sku in versions && versions[item.sku] != readVersion {
        return Fail(LockFailure(item.sku));
      }
      rows := rows[item.sku := ToEntity(item.State())];
      versions := versions[item.sku := if item.sku in versions then versions[item.sku] + 1 else 0];
      written := written + {item.sku};
      r := Pass;
    }

    /** `save` as the adapter performs it: the entity `toEntity` hands over
        carries `EntityVersion`, not the version read, so the write is refused
        whenever the row's version is no longer that one. */
    method SaveAsWritten(item: InventoryItem) returns (r: Outcome<Error>)
      requires Valid()
      modifies this`rows, this`versions, this`written
      ensures Valid()
      ensures r.Fail? <==> item.sku in old(versions) && old(versions)[item.sku] != EntityVersion
      ensures r.Fail? ==> r == Fail(LockFailure(item.sku)) && rows == old(rows) && versions == old(versions)
      ensures r.Fail? ==> written == old(written)
      ensures r == Pass ==>
        rows == old(rows)[item.sku := ToEntity(item.State())]
        && versions == old(versions)[item.sku := if item.sku in old(versions) then old(versions)[item.sku] + 1 else 0]
        && written == old(written) + {item.sku}
    {
      r := Save(item, EntityVersion);
    }

    /** `findBySku` of the Spring Data repository: the row itself, no domain
        object. */
    method FindRow(sku: string) returns (r: Option<InventoryRow>)
      requires Valid()
      ensures Valid()
      ensures sku in rows <==> r.Some?
      ensures sku in rows ==> r.value == rows[sku]
    {
      r := if sku in rows then Some(rows[sku]) else None;
    }

    /** `save` of a row loaded in the same transaction: the managed row is
        written as it is. */
    method SaveRow(row: InventoryRow)
      requires Valid()
      modifies this`rows, this`versions, this`written
      ensures Valid()
      ensures rows == old(rows)[row.sku := row] && written == old(written) + {row.sku}
    {
      rows := rows[row.sku := row];
      versions := versions[row.sku := if row.sku in versions then versions[row.sku] + 1 else 0];
      written := written + {row.sku};
    }

    /** Start of a `@Transactional` method. */
    method Begin()
      requires Valid()
      modifies this`before, this`beforeVersions, this`written
      ensures Valid() && before == rows && written == {}
    {
      before := rows;
      beforeVersions := versions;
      written := {};
    }

    /** A transaction that ends with an exception: what it wrote is undone. */
    method Rollback()
      requires Valid()
      modifies this`rows, this`versions, this`written
      ensures Valid() && written == {}
      ensures rows == Restore(old(rows), before, old(written))
    {
      rows := Restore(rows, before, written);
      versions := Restore(versions, beforeVersions, written);
      written := {};
    }

    /** A transaction that returns normally: what it wrote stays. */
    method Commit()
      requires Valid()
      modifies this`written
      ensures Valid() && written == {}
    {
      written := {};
    }

    /** Another transaction commits `row`, moving its version. */
    method ConcurrentCommit(row: InventoryRow)
      requires Valid()
      modifies this`rows, this`versions
      ensures Valid()
      ensures rows == old(rows)[row.sku := row]
      ensures versions == old(versions)[row.sku := if row.sku in old(versions) then old(versions)[row.sku] + 1 else 0]
    {
      rows := rows[row.sku := row];
      versions := versions[row.sku := if row.sku in versions then versions[row.sku] + 1 else 0];
    }
  }

  /** Two reservations of one SKU, one after the other, with no other
      transaction anywhere, each saved as the adapter saves: the first write
      goes through and moves the row's version, and the second is refused as
      stale. */
  method SecondSaveRefused(sku: string, available: int) returns (first: Outcome<Error>, second: Outcome<Error>)
    requires !IsBlank(sku) && available >= 2
    ensures first == Pass && second == Fail(LockFailure(sku))
  {
    var store := new InventoryStore(map[sku := InventoryRow(sku, available, 0)]);
    assert store.versions[sku] == EntityVersion;
    var loaded, _ := store.FindBySku(sku);
    var item := loaded.value.value;
    var reserved := item.Reserve(1);
    assert item.sku == sku;
    first := store.SaveAsWritten(item);
    ItemRoundTrip(item.State());
    assert store.versions[sku] == 1 && store.rows[sku] == ToEntity(item.State());
    var again, _ := store.FindBySku(sku);
    var item' := again.value.value;
    reserved := item'.Reserve(1);
    second := store.SaveAsWritten(item');
  }
}
