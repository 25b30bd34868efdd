/** The check both command constructors run over the entries of their
    SKU-to-quantity map, in the order the map yields them: the first entry
    with a null or blank SKU, or failing that a null or non-positive
    quantity, stops construction. */
module CommandEntries {
  import opened Wrappers
  import opened JavaLang

  /** A `Map<String, Integer>` as a caller hands it over: `None` stands for a
      `null` key (a `HashMap` holds at most one) or a `null` value. */
  type Entries = map<Option<string>, Option<int>>

  function BlankSku(): Error {
    Error(IllegalArgument, "SKU must be provided")
  }

  function NonPositiveQuantity(): Error {
    Error(IllegalArgument, "Quantity must be greater than zero")
  }

  /** One entry passes the check. */
  predicate ValidEntry(sku: Option<string>, quantity: Option<int>) {
    sku.Some? && !IsBlank(sku.value) && quantity.Some? && quantity.value > 0
  }

  /** The check on one entry: the SKU is looked at before the quantity, and
      `null` fails each check as a blank SKU or a zero quantity would. */
  function EntryError(sku: Option<string>, quantity: Option<int>): (r: Option<Error>)
    ensures r.None? <==> ValidEntry(sku, quantity)
    ensures sku.None? ==> r == Some(BlankSku())
    ensures sku.Some? && !IsBlank(sku.value) && quantity.None? ==> r == Some(NonPositiveQuantity())
  {
    if sku.None? || IsBlank(sku.value) then Some(BlankSku())
    else if quantity.None? || quantity.value <= 0 then Some(NonPositiveQuantity())
    else None
  }

  /** `order` lists only keys of the map. */
  predicate Covers(order: seq<Option<string>>, entries: Entries) {
    forall i :: 0 <= i < |order| ==> order[i] in entries
  }

  /** `order` lists every key of the map once: one possible iteration order. */
  predicate Visits(order: seq<Option<string>>, entries: Entries) {
    (forall i, j :: 0 <= i < j < |order| ==> order[i] != order[j])
    && (forall k :: k in entries ==> k in order) && Covers(order, entries)
  }

  /** The `forEach` over the entries in the order `order`: the exception of
      the first failing entry, if any. */
  function FirstEntryError(order: seq<Option<string>>, entries: Entries): Option<Error>
    requires Covers(order, entries)
  {
    if order == [] then None
    else
      var e := EntryError(order[0], entries[order[0]]);
      if e.Some? then e else FirstEntryError(order[1..], entries)
  }

  /** The loop passes exactly when every entry it visits is valid, and
      otherwise reports the first invalid one. */
  lemma {:induction false} FirstEntryErrorSpec(order: seq<Option<string>>, entries: Entries)
    requires Covers(order, entries)
    ensures FirstEntryError(order, entries).None? <==>
      forall i :: 0 <= i < |order| ==> ValidEntry(order[i], entries[order[i]])
    ensures FirstEntryError(order, entries).Some? ==>
      exists i :: (0 <= i < |order|
        && (forall j :: 0 <= j < i ==> ValidEntry(order[j], entries[order[j]]))
        && FirstEntryError(order, entries) == EntryError(order[i], entries[order[i]]))
  {
    if order != [] && ValidEntry(order[0], entries[order[0]]) {
      var tail := order[1..];
      FirstEntryErrorSpec(tail, entries);
      if forall i :: 0 <= i < |tail| ==> ValidEntry(tail[i], entries[tail[i]]) {
        forall i | 0 <= i < |order| ensures ValidEntry(order[i], entries[order[i]]) {
          if i > 0 {
            assert order[i] == tail[i - 1];
          }
        }
      } else {
        var i :| 0 <= i < |tail|
          && (forall j :: 0 <= j < i ==> ValidEntry(tail[j], entries[tail[j]]))
          && FirstEntryError(tail, entries) == EntryError(tail[i], entries[tail[i]]);
        assert order[i + 1] == tail[i];
        forall j | 0 <= j < i + 1 ensures ValidEntry(order[j], entries[order[j]]) {
          if j > 0 {
            assert order[j] == tail[j - 1];
          }
        }
        assert !ValidEntry(tail[i], entries[tail[i]]);
      }
    }
  }

  /** Whether a map is accepted does not depend on the order its entries are
      visited in: it is accepted exactly when every entry is valid. The
      exception of a rejected map is one of the two messages. */
  lemma EntriesAccepted(order: seq<Option<string>>, entries: Entries)
    requires Visits(order, entries)
    ensures Covers(order, entries)
    ensures FirstEntryError(order, entries).None? <==>
      forall k :: k in entries ==> ValidEntry(k, entries[k])
    ensures FirstEntryError(order, entries).Some? ==>
      FirstEntryError(order, entries).value in {BlankSku(), NonPositiveQuantity()}
  {
    FirstEntryErrorSpec(order, entries);
    if forall i :: 0 <= i < |order| ==> ValidEntry(order[i], entries[order[i]]) {
      forall k | k in entries ensures ValidEntry(k, entries[k]) {
        var i :| 0 <= i < |order| && order[i] == k;
      }
    }
  }

  /** A map holding a `null` key or a `null` value is rejected, whatever
      order its entries come in. */
  lemma NullEntryRejected(order: seq<Option<string>>, entries: Entries, k: Option<string>)
    requires Visits(order, entries)
    requires k in entries && (k.None? || entries[k].None?)
    ensures Covers(order, entries) && FirstEntryError(order, entries).Some?
  {
    EntriesAccepted(order, entries);
    assert !ValidEntry(k, entries[k]);
  }

  /** The map an accepted command holds: the same entries, none of them
      `null`. */
  function Present(entries: Entries): (r: map<string, int>)
    requires forall k :: k in entries ==> ValidEntry(k, entries[k])
    ensures forall s :: s in r <==> Some(s) in entries
    ensures forall s :: s in r ==> entries[Some(s)] == Some(r[s])
  {
    var r := map k | k in entries && k.Some? :: k.value := if entries[k].Some? then entries[k].value else 0;
    assert forall s :: s in r ==> entries[Some(s)] == Some(r[s]) by {
      forall s | s in r ensures entries[Some(s)] == Some(r[s]) {
        var k :| k in entries && k.Some? && k.value == s;
        assert k == Some(s) && ValidEntry(k, entries[k]);
        assert r[s] == entries[k].value;
      }
    }
    r
  }
}
