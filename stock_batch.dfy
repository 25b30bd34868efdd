/** The multi-SKU loop shared by the reservation and release use cases: for
    each SKU in turn, load the item, reserve or release on it, save it, and stop
    at the first exception. `Sweep` is what that loop does to the table;
    `Attempt` adds the enclosing transaction and `Retry` the bounded retry on
    optimistic-lock failure. Another transaction's commits are an input:
    `other` holds the rows that other transactions commit on a SKU between this
    loop's load and save of it. */
module StockBatch {
  import opened Wrappers
  import opened JavaLang
  import opened StockLevels
  import opened Inventory
  import opened InventoryPersistence
  import opened KeyOrder

  type Rows = map<string, InventoryRow>

  datatype StockOp = ReserveOp | ReleaseOp

  function Apply(op: StockOp, st: ItemState, quantity: int): (r: Result<ItemState, Error>)
    ensures r.Failure? ==> r.error.kind != OptimisticLockingFailure
  {
    match op
    case ReserveOp => ReserveOn(st, quantity)
    case ReleaseOp => ReleaseOn(st, quantity)
  }

  /** The `orElseThrow` of a SKU with no row. */
  function NotFound(sku: string): Error {
    Error(IllegalArgument, "Inventory not found for SKU: " + sku)
  }

  /** What a run of the loop did: the table after it, how many of its SKUs it
      loaded and saved (always the first ones, in order), and how it ended. */
  datatype BatchResult = BatchResult(rows: Rows, loaded: nat, saved: nat, outcome: Outcome<Error>)

  /** The SKU can be loaded and the operation is accepted on it. */
  predicate Applicable(rows: Rows, sku: string, quantity: int, op: StockOp) {
    sku in rows && Reconstruct(rows[sku]).Success?
    && Apply(op, Reconstruct(rows[sku]).value, quantity).Success?
  }

  /** ... and nobody else commits it in between: its save goes through. */
  predicate Succeeds(rows: Rows, sku: string, quantity: int, op: StockOp, other: Rows) {
    Applicable(rows, sku, quantity, op) && sku !in other
  }

  /** The row the loop saves for a SKU. */
  function Updated(rows: Rows, sku: string, quantity: int, op: StockOp): InventoryRow
    requires Applicable(rows, sku, quantity, op)
  {
    ToEntity(Apply(op, Reconstruct(rows[sku]).value, quantity).value)
  }

  /** One iteration: load, reserve or release, save. */
  function Step(rows: Rows, sku: string, quantity: int, op: StockOp, other: Rows): (r: BatchResult)
    ensures r.loaded == 1
    ensures r.outcome == Pass <==> Succeeds(rows, sku, quantity, op, other)
    ensures r.outcome == Pass ==>
      r.saved == 1 && r.rows == rows[sku := Updated(rows, sku, quantity, op)]
    ensures r.outcome.Fail? ==>
      r.saved == 0 && (r.rows == rows || (sku in other && r.rows == rows[sku := other[sku]]))
    ensures sku !in rows ==> r.outcome == Fail(NotFound(sku))
    ensures sku in rows && Reconstruct(rows[sku]).Failure? ==>
      r.outcome == Fail(Reconstruct(rows[sku]).error)
    ensures (sku in rows && Reconstruct(rows[sku]).Success?
      && Apply(op, Reconstruct(rows[sku]).value, quantity).Failure?) ==>
      r.outcome == Fail(Apply(op, Reconstruct(rows[sku]).value, quantity).error)
    ensures (sku in rows && Reconstruct(rows[sku]).Success?
      && Apply(op, Reconstruct(rows[sku]).value, quantity).Success? && sku in other) ==>
      r.outcome == Fail(LockFailure(sku))
  {
    if sku !in rows then BatchResult(rows, 1, 0, Fail(NotFound(sku)))
    else
      var item := Reconstruct(rows[sku]);
      if item.Failure? then BatchResult(rows, 1, 0, Fail(item.error))
      else Finish(rows, sku, item.value, quantity, op, other)
  }

  /** The rest of an iteration once the item `loaded` is in memory: reserve or
      release on it, then save it unless another transaction committed the
      row meanwhile. */
  function Finish(rows: Rows, sku: string, loaded: ItemState, quantity: int, op: StockOp, other: Rows): (r: BatchResult)
    ensures r.loaded == 1
    ensures r.outcome == Pass <==> Apply(op, loaded, quantity).Success? && sku !in other
    ensures r.outcome == Pass ==>
      r.saved == 1 && r.rows == rows[sku := ToEntity(Apply(op, loaded, quantity).value)]
    ensures r.outcome.Fail? ==>
      r.saved == 0 && (r.rows == rows || (sku in other && r.rows == rows[sku := other[sku]]))
  {
    var current := if sku in other then rows[sku := other[sku]] else rows;
    var applied := Apply(op, loaded, quantity);
    if applied.Failure? then BatchResult(current, 1, 0, Fail(applied.error))
    else if sku in other then BatchResult(current, 1, 0, Fail(LockFailure(sku)))
    else BatchResult(rows[sku := ToEntity(applied.value)], 1, 1, Pass)
  }

  /** The SKUs of a request in ascending order: each once, and all of them. */
  lemma SortedOrder(quantities: map<string, int>)
    ensures Distinct(SortedOf(quantities.Keys)) && Listed(SortedOf(quantities.Keys), quantities)
    ensures forall k :: k in SortedOf(quantities.Keys) <==> k in quantities
  {
    var order := SortedOf(quantities.Keys);
    SortedOfSpec(quantities.Keys);
    SortedIsDistinct(order);
    forall k ensures k in order <==> k in quantities {
      assert k in order <==> k in Elems(order);
    }
  }

  /** The loop over `keys`, stopping at the first failure. Nothing it saved
      before the failure is undone. */
  function Sweep(rows: Rows, keys: seq<string>, quantities: map<string, int>, op: StockOp, other: Rows): (r: BatchResult)
    requires Listed(keys, quantities)
    ensures r.saved <= r.loaded <= |keys|
    ensures r.outcome == Pass <==> r.saved == |keys|
    ensures r.outcome == Pass ==> r.loaded == |keys|
    ensures r.outcome.Fail? ==> r.loaded == r.saved + 1
    decreases |keys|
  {
    if keys == [] then BatchResult(rows, 0, 0, Pass)
    else
      var first := Step(rows, keys[0], quantities[keys[0]], op, other);
      if first.outcome.Fail? then first
      else
        var rest := Sweep(first.rows, keys[1..], quantities, op, other);
        BatchResult(rest.rows, 1 + rest.loaded, 1 + rest.saved, rest.outcome)
  }

  /** Two tables hold the same row for `k`, or both none. */
  predicate SameAt(a: Rows, b: Rows, k: string) {
    (k in a <==> k in b) && (k in a ==> a[k] == b[k])
  }

  /** A step on a SKU depends only on that SKU's row. */
  lemma StepLocal(a: Rows, b: Rows, k: string, q: int, op: StockOp, other: Rows)
    requires SameAt(a, b, k)
    ensures Applicable(a, k, q, op) <==> Applicable(b, k, q, op)
    ensures Succeeds(a, k, q, op, other) <==> Succeeds(b, k, q, op, other)
    ensures Applicable(a, k, q, op) ==> Updated(a, k, q, op) == Updated(b, k, q, op)
    ensures Step(a, k, q, op, other).outcome == Step(b, k, q, op, other).outcome
    ensures SameAt(Step(a, k, q, op, other).rows, Step(b, k, q, op, other).rows, k)
  {
  }

  /** A step on one SKU leaves every other SKU's row alone. */
  lemma StepElsewhere(rows: Rows, sku: string, quantity: int, op: StockOp, other: Rows, k: string, q: int)
    requires k != sku
    ensures SameAt(Step(rows, sku, quantity, op, other).rows, rows, k)
    ensures Succeeds(Step(rows, sku, quantity, op, other).rows, k, q, op, other) <==> Succeeds(rows, k, q, op, other)
  {
    StepLocal(Step(rows, sku, quantity, op, other).rows, rows, k, q, op, other);
  }

  /** The loop completes exactly when every SKU on its own would succeed. */
  lemma {:induction false} SweepPassesIff(rows: Rows, keys: seq<string>, quantities: map<string, int>, op: StockOp, other: Rows)
    requires Distinct(keys) && Listed(keys, quantities)
    ensures Sweep(rows, keys, quantities, op, other).outcome == Pass <==>
      forall i :: 0 <= i < |keys| ==> Succeeds(rows, keys[i], quantities[keys[i]], op, other)
    decreases |keys|
  {
    if keys != [] {
      var sku := keys[0];
      var first := Step(rows, sku, quantities[sku], op, other);
      if first.outcome == Pass {
        var tail := keys[1..];
        assert Distinct(tail);
        SweepPassesIff(first.rows, tail, quantities, op, other);
        forall i | 0 <= i < |tail|
          ensures Succeeds(first.rows, tail[i], quantities[tail[i]], op, other)
              <==> Succeeds(rows, tail[i], quantities[tail[i]], op, other)
        {
          assert tail[i] == keys[i + 1];
          StepElsewhere(rows, sku, quantities[sku], op, other, tail[i], quantities[tail[i]]);
        }
        if Sweep(rows, keys, quantities, op, other).outcome == Pass {
          forall i | 0 <= i < |keys|
            ensures Succeeds(rows, keys[i], quantities[keys[i]], op, other)
          {
            if i > 0 {
              assert keys[i] == tail[i - 1];
            }
          }
        } else {
          var j :| 0 <= j < |tail| && !Succeeds(first.rows, tail[j], quantities[tail[j]], op, other);
          assert tail[j] == keys[j + 1];
        }
      }
    }
  }

  /** A completed loop leaves the rows of unlisted SKUs as they were. */
  lemma {:induction false} SweepPassFrame(rows: Rows, keys: seq<string>, quantities: map<string, int>, op: StockOp, other: Rows)
    requires Listed(keys, quantities)
    requires Sweep(rows, keys, quantities, op, other).outcome == Pass
    ensures Sweep(rows, keys, quantities, op, other).rows.Keys == rows.Keys
    ensures forall k :: k !in keys ==> SameAt(Sweep(rows, keys, quantities, op, other).rows, rows, k)
    decreases |keys|
  {
    if keys != [] {
      var sku := keys[0];
      var first := Step(rows, sku, quantities[sku], op, other);
      var tail := keys[1..];
      SweepPassFrame(first.rows, tail, quantities, op, other);
      forall k | k !in keys
        ensures SameAt(Sweep(rows, keys, quantities, op, other).rows, rows, k)
      {
        assert k != sku && k !in tail;
        StepElsewhere(rows, sku, quantities[sku], op, other, k, 0);
      }
    }
  }

  /** After a completed loop, the SKU at position `i` went through and holds
      its updated row. */
  lemma {:induction false} SweepPassAt(rows: Rows, keys: seq<string>, quantities: map<string, int>, op: StockOp, other: Rows,
                                       i: nat)
    requires Distinct(keys) && Listed(keys, quantities) && i < |keys|
    requires Sweep(rows, keys, quantities, op, other).outcome == Pass
    ensures Succeeds(rows, keys[i], quantities[keys[i]], op, other)
    ensures keys[i] in Sweep(rows, keys, quantities, op, other).rows
    ensures Sweep(rows, keys, quantities, op, other).rows[keys[i]] == Updated(rows, keys[i], quantities[keys[i]], op)
    decreases i
  {
    var sku := keys[0];
    var first := Step(rows, sku, quantities[sku], op, other);
    var tail := keys[1..];
    assert Distinct(tail);
    if i > 0 {
      assert keys[i] == tail[i - 1];
      SweepPassAt(first.rows, tail, quantities, op, other, i - 1);
      StepElsewhere(rows, sku, quantities[sku], op, other, keys[i], quantities[keys[i]]);
      StepLocal(first.rows, rows, keys[i], quantities[keys[i]], op, other);
    } else {
      SweepPassFrame(first.rows, tail, quantities, op, other);
      assert sku !in tail;
    }
  }

  /** A completed loop leaves every listed SKU with its updated row and every
      other row as it was. */
  lemma SweepPassEffect(rows: Rows, keys: seq<string>, quantities: map<string, int>, op: StockOp, other: Rows)
    requires Distinct(keys) && Listed(keys, quantities)
    requires Sweep(rows, keys, quantities, op, other).outcome == Pass
    ensures var r := Sweep(rows, keys, quantities, op, other);
      r.rows.Keys == rows.Keys
      && (forall k :: k in rows && k !in keys ==> r.rows[k] == rows[k])
      && (forall i :: 0 <= i < |keys| ==>
            Succeeds(rows, keys[i], quantities[keys[i]], op, other)
            && r.rows[keys[i]] == Updated(rows, keys[i], quantities[keys[i]], op))
  {
    SweepPassFrame(rows, keys, quantities, op, other);
    forall i | 0 <= i < |keys|
      ensures Succeeds(rows, keys[i], quantities[keys[i]], op, other)
      ensures keys[i] in Sweep(rows, keys, quantities, op, other).rows
      ensures Sweep(rows, keys, quantities, op, other).rows[keys[i]] == Updated(rows, keys[i], quantities[keys[i]], op)
    {
      SweepPassAt(rows, keys, quantities, op, other, i);
    }
  }

  /** Every SKU before position `i` went through and holds its saved row in
      `r`. */
  ghost predicate SavedBefore(rows: Rows, keys: seq<string>, quantities: map<string, int>, op: StockOp, other: Rows,
                              r: BatchResult, i: nat)
    requires Listed(keys, quantities) && i <= |keys|
  {
    forall j :: 0 <= j < i ==>
      Succeeds(rows, keys[j], quantities[keys[j]], op, other)
      && keys[j] in r.rows && r.rows[keys[j]] == Updated(rows, keys[j], quantities[keys[j]], op)
  }

  /** Where a failed run `r` of the loop stopped: every SKU before position
      `i` went through and keeps its saved row, the SKU at `i` failed with the
      error it gives on its own, and no SKU after it was loaded or changed. */
  ghost predicate StoppedAt(rows: Rows, keys: seq<string>, quantities: map<string, int>, op: StockOp, other: Rows,
                            r: BatchResult, i: nat)
    requires Listed(keys, quantities) && i < |keys|
  {
    var failed := Step(rows, keys[i], quantities[keys[i]], op, other);
    SavedBefore(rows, keys, quantities, op, other, r, i)
    && !Succeeds(rows, keys[i], quantities[keys[i]], op, other)
    && r.outcome == failed.outcome
    && r.saved == i && r.loaded == i + 1
    && SameAt(r.rows, failed.rows, keys[i])
    && (forall k :: k !in keys[..i + 1] ==> SameAt(r.rows, rows, k))
  }

  /** The SKUs before the stopping point, once the first SKU went through. */
  lemma SavedBeforeLater(rows: Rows, keys: seq<string>, quantities: map<string, int>, op: StockOp, other: Rows,
                         rest: BatchResult, i': nat)
    requires Distinct(keys) && Listed(keys, quantities) && keys != []
    requires Step(rows, keys[0], quantities[keys[0]], op, other).outcome == Pass
    requires i' < |keys| - 1
    requires StoppedAt(Step(rows, keys[0], quantities[keys[0]], op, other).rows, keys[1..], quantities, op, other, rest, i')
    ensures SavedBefore(rows, keys, quantities, op, other, rest, i' + 1)
  {
    var sku := keys[0];
    var first := Step(rows, sku, quantities[sku], op, other);
    var tail := keys[1..];
    forall j | 0 <= j < i' + 1
      ensures Succeeds(rows, keys[j], quantities[keys[j]], op, other)
      ensures keys[j] in rest.rows && rest.rows[keys[j]] == Updated(rows, keys[j], quantities[keys[j]], op)
    {
      if j > 0 {
        assert keys[j] == tail[j - 1];
        StepElsewhere(rows, sku, quantities[sku], op, other, keys[j], quantities[keys[j]]);
        StepLocal(first.rows, rows, keys[j], quantities[keys[j]], op, other);
      } else {
        assert sku !in tail[..i' + 1];
        assert SameAt(rest.rows, first.rows, sku);
      }
    }
  }

  /** The SKUs after the stopping point, once the first SKU went through. */
  lemma UntouchedLater(rows: Rows, keys: seq<string>, quantities: map<string, int>, op: StockOp, other: Rows,
                       rest: BatchResult, i': nat)
    requires Distinct(keys) && Listed(keys, quantities) && keys != []
    requires Step(rows, keys[0], quantities[keys[0]], op, other).outcome == Pass
    requires i' < |keys| - 1
    requires StoppedAt(Step(rows, keys[0], quantities[keys[0]], op, other).rows, keys[1..], quantities, op, other, rest, i')
    ensures forall k :: k !in keys[..i' + 2] ==> SameAt(rest.rows, rows, k)
  {
    var sku := keys[0];
    var first := Step(rows, sku, quantities[sku], op, other);
    var tail := keys[1..];
    assert keys[..i' + 2] == [sku] + tail[..i' + 1];
    forall k | k !in keys[..i' + 2]
      ensures SameAt(rest.rows, rows, k)
    {
      assert k !in tail[..i' + 1] && k != sku;
      assert SameAt(rest.rows, first.rows, k);
      StepElsewhere(rows, sku, quantities[sku], op, other, k, 0);
    }
  }

  /** Where the loop stopped after its first SKU went through. */
  lemma StoppedLater(rows: Rows, keys: seq<string>, quantities: map<string, int>, op: StockOp, other: Rows,
                     rest: BatchResult, i': nat)
    requires Distinct(keys) && Listed(keys, quantities) && keys != []
    requires Step(rows, keys[0], quantities[keys[0]], op, other).outcome == Pass
    requires i' < |keys| - 1
    requires StoppedAt(Step(rows, keys[0], quantities[keys[0]], op, other).rows, keys[1..], quantities, op, other, rest, i')
    ensures StoppedAt(rows, keys, quantities, op, other,
                      BatchResult(rest.rows, 1 + rest.loaded, 1 + rest.saved, rest.outcome), i' + 1)
  {
    var sku := keys[0];
    var first := Step(rows, sku, quantities[sku], op, other);
    var k := keys[i' + 1];
    assert k == keys[1..][i'];
    StepElsewhere(rows, sku, quantities[sku], op, other, k, quantities[k]);
    StepLocal(first.rows, rows, k, quantities[k], op, other);
    FailedAgain(first.rows, rows, rest.rows, k, quantities[k], op, other);
    SavedBeforeLater(rows, keys, quantities, op, other, rest, i');
    UntouchedLater(rows, keys, quantities, op, other, rest, i');
  }

  /** The failing step on a SKU whose row is the same in two tables. */
  lemma FailedAgain(a: Rows, b: Rows, r: Rows, k: string, q: int, op: StockOp, other: Rows)
    requires SameAt(a, b, k) && SameAt(r, Step(a, k, q, op, other).rows, k)
    ensures SameAt(r, Step(b, k, q, op, other).rows, k)
  {
    StepLocal(a, b, k, q, op, other);
  }

  /** Where the loop stopped when its first SKU failed. */
  lemma StoppedFirst(rows: Rows, keys: seq<string>, quantities: map<string, int>, op: StockOp, other: Rows)
    requires Listed(keys, quantities) && keys != []
    requires Step(rows, keys[0], quantities[keys[0]], op, other).outcome.Fail?
    ensures StoppedAt(rows, keys, quantities, op, other, Sweep(rows, keys, quantities, op, other), 0)
  {
    var sku := keys[0];
    var first := Step(rows, sku, quantities[sku], op, other);
    assert Sweep(rows, keys, quantities, op, other) == first;
    assert keys[..1] == [sku];
    forall k | k !in keys[..1]
      ensures SameAt(first.rows, rows, k)
    {
      StepElsewhere(rows, sku, quantities[sku], op, other, k, 0);
    }
  }

  /** A failed loop stops at one SKU and does not undo the SKUs before it. */
  lemma {:induction false} SweepStops(rows: Rows, keys: seq<string>, quantities: map<string, int>, op: StockOp, other: Rows)
    requires Distinct(keys) && Listed(keys, quantities)
    requires Sweep(rows, keys, quantities, op, other).outcome.Fail?
    ensures exists i :: 0 <= i < |keys| && StoppedAt(rows, keys, quantities, op, other, Sweep(rows, keys, quantities, op, other), i)
    decreases |keys|
  {
    var sku := keys[0];
    var first := Step(rows, sku, quantities[sku], op, other);
    if first.outcome.Fail? {
      StoppedFirst(rows, keys, quantities, op, other);
    } else {
      var tail := keys[1..];
      assert Distinct(tail);
      SweepStops(first.rows, tail, quantities, op, other);
      var rest := Sweep(first.rows, tail, quantities, op, other);
      var i' :| 0 <= i' < |tail| && StoppedAt(first.rows, tail, quantities, op, other, rest, i');
      StoppedLater(rows, keys, quantities, op, other, rest, i');
    }
  }

  /** The row saved for a SKU reads back as the item after the operation:
      same SKU, same total stock, and the quantity moved between the two
      counts in the operation's direction. */
  lemma UpdatedRow(rows: Rows, sku: string, quantity: int, op: StockOp)
    requires Applicable(rows, sku, quantity, op)
    ensures Reconstruct(Updated(rows, sku, quantity, op)) == Success(Apply(op, Reconstruct(rows[sku]).value, quantity).value)
    ensures Total(Reconstruct(Updated(rows, sku, quantity, op)).value) == Total(Reconstruct(rows[sku]).value)
    ensures Updated(rows, sku, quantity, op).sku == rows[sku].sku
    ensures Updated(rows, sku, quantity, op).available + Updated(rows, sku, quantity, op).reserved
         == rows[sku].available + rows[sku].reserved
    ensures op == ReserveOp ==>
      Updated(rows, sku, quantity, op).available == rows[sku].available - quantity
      && Updated(rows, sku, quantity, op).reserved == rows[sku].reserved + quantity
    ensures op == ReleaseOp ==>
      Updated(rows, sku, quantity, op).available == rows[sku].available + quantity
      && Updated(rows, sku, quantity, op).reserved == rows[sku].reserved - quantity
  {
    ItemRoundTrip(Apply(op, Reconstruct(rows[sku]).value, quantity).value);
  }

  /** The `@Transactional` boundary around the loop: when the loop throws,
      what it saved is rolled back. */
  function Attempt(rows: Rows, keys: seq<string>, quantities: map<string, int>, op: StockOp, other: Rows): BatchResult
    requires Listed(keys, quantities)
  {
    var s := Sweep(rows, keys, quantities, op, other);
    if s.outcome == Pass then s else s.(rows := Restore(s.rows, rows, Elems(keys[..s.saved])))
  }

  /** Two tables that agree on every SKU are the same table. */
  lemma SameTables(a: Rows, b: Rows)
    requires forall k :: SameAt(a, b, k)
    ensures a == b
  {
    assert a.Keys == b.Keys by {
      forall k ensures k in a <==> k in b {
        assert SameAt(a, b, k);
      }
    }
    forall k | k in a ensures a[k] == b[k] {
      assert SameAt(a, b, k);
    }
  }

  /** The rollback after a loop that stopped at position `i`, one SKU at a time. */
  lemma RolledBackAt(rows: Rows, keys: seq<string>, quantities: map<string, int>, op: StockOp, other: Rows,
                     s: BatchResult, i: nat, k: string)
    requires Distinct(keys) && Listed(keys, quantities) && i < |keys|
    requires StoppedAt(rows, keys, quantities, op, other, s, i)
    ensures SameAt(Restore(s.rows, rows, Elems(keys[..s.saved])), Step(rows, keys[i], quantities[keys[i]], op, other).rows, k)
  {
    if k in keys[..i] {
      var j :| 0 <= j < i && keys[..i][j] == k;
      assert keys[j] == k;
      assert k in Elems(keys[..s.saved]);
      StepElsewhere(rows, keys[i], quantities[keys[i]], op, other, k, 0);
    } else if k == keys[i] {
      assert k !in Elems(keys[..s.saved]);
      assert SameAt(s.rows, Step(rows, keys[i], quantities[keys[i]], op, other).rows, k);
    } else {
      assert k !in keys[..i + 1];
      assert k !in Elems(keys[..s.saved]);
      assert SameAt(s.rows, rows, k);
      StepElsewhere(rows, keys[i], quantities[keys[i]], op, other, k, 0);
    }
  }

  /** A failed attempt leaves the table as the failing SKU's step alone would
      leave it: unchanged, except for another transaction's commit on that SKU. */
  lemma AttemptAllOrNothing(rows: Rows, keys: seq<string>, quantities: map<string, int>, op: StockOp, other: Rows)
    requires Distinct(keys) && Listed(keys, quantities)
    requires Attempt(rows, keys, quantities, op, other).outcome.Fail?
    ensures exists i :: (0 <= i < |keys|
      && Attempt(rows, keys, quantities, op, other).rows == Step(rows, keys[i], quantities[keys[i]], op, other).rows
      && Attempt(rows, keys, quantities, op, other).outcome == Step(rows, keys[i], quantities[keys[i]], op, other).outcome)
  {
    var s := Sweep(rows, keys, quantities, op, other);
    SweepStops(rows, keys, quantities, op, other);
    var i :| 0 <= i < |keys| && StoppedAt(rows, keys, quantities, op, other, s, i);
    var failed := Step(rows, keys[i], quantities[keys[i]], op, other);
    forall k
      ensures SameAt(Restore(s.rows, rows, Elems(keys[..s.saved])), failed.rows, k)
    {
      RolledBackAt(rows, keys, quantities, op, other, s, i, k);
    }
    SameTables(Restore(s.rows, rows, Elems(keys[..s.saved])), failed.rows);
  }

  /** So a failed attempt changes no SKU that no other transaction commits;
      without other transactions it leaves the table unchanged. */
  lemma AttemptFailureFrame(rows: Rows, keys: seq<string>, quantities: map<string, int>, op: StockOp, other: Rows)
    requires Distinct(keys) && Listed(keys, quantities)
    requires Attempt(rows, keys, quantities, op, other).outcome.Fail?
    ensures forall k :: k !in other ==> SameAt(Attempt(rows, keys, quantities, op, other).rows, rows, k)
    ensures other == map[] ==> Attempt(rows, keys, quantities, op, other).rows == rows
  {
    var a := Attempt(rows, keys, quantities, op, other);
    AttemptAllOrNothing(rows, keys, quantities, op, other);
    var i :| 0 <= i < |keys| && a.rows == Step(rows, keys[i], quantities[keys[i]], op, other).rows;
    forall k | k !in other
      ensures SameAt(a.rows, rows, k)
    {
      if k != keys[i] {
        StepElsewhere(rows, keys[i], quantities[keys[i]], op, other, k, 0);
      }
    }
    if other == map[] {
      SameTables(a.rows, rows);
    }
  }

  /** `@Retryable(maxAttempts = 3)`. */
  const MaxAttempts: nat := 3

  /** How a retried call ended: the table, the number of attempts made and
      the outcome of the last one. */
  datatype Run = Run(rows: Rows, attempts: nat, outcome: Outcome<Error>)

  /** `retryFor = ObjectOptimisticLockingFailureException`. */
  predicate LockFailed(outcome: Outcome<Error>) {
    outcome.Fail? && outcome.error.kind == OptimisticLockingFailure
  }

  /** Other transactions' commits during attempt number `attempt` (from 0). */
  function Interference(interleaving: seq<Rows>, attempt: nat): Rows {
    if attempt < |interleaving| then interleaving[attempt] else map[]
  }

  /** A lock failure can only come from a SKU another transaction committed:
      the last SKU the loop loaded. */
  lemma {:induction false} LockFailureNeedsInterference(rows: Rows, keys: seq<string>, quantities: map<string, int>, op: StockOp, other: Rows)
    requires Listed(keys, quantities)
    requires LockFailed(Sweep(rows, keys, quantities, op, other).outcome)
    ensures keys[Sweep(rows, keys, quantities, op, other).loaded - 1] in other
    decreases |keys|
  {
    var first := Step(rows, keys[0], quantities[keys[0]], op, other);
    if first.outcome == Pass {
      LockFailureNeedsInterference(first.rows, keys[1..], quantities, op, other);
    } else {
      assert Sweep(rows, keys, quantities, op, other) == first;
      StepLockFailed(rows, keys[0], quantities[keys[0]], op, other);
    }
  }

  /** Loading the row and the domain operation never fail on the version
      check: only the save does. */
  lemma StepLockFailed(rows: Rows, sku: string, quantity: int, op: StockOp, other: Rows)
    requires LockFailed(Step(rows, sku, quantity, op, other).outcome)
    ensures sku in other
  {
    if sku in rows && Reconstruct(rows[sku]).Success? {
      var loaded := Reconstruct(rows[sku]).value;
      assert Step(rows, sku, quantity, op, other) == Finish(rows, sku, loaded, quantity, op, other);
    }
  }

  /** The retried call, from attempt number `attempt`: a failed attempt is
      retried only when it failed on the version check and attempts remain. */
  function Retry(rows: Rows, keys: seq<string>, quantities: map<string, int>, op: StockOp,
                 interleaving: seq<Rows>, attempt: nat): (r: Run)
    requires Listed(keys, quantities) && attempt < MaxAttempts
    ensures attempt < r.attempts <= MaxAttempts
    ensures LockFailed(r.outcome) ==> r.attempts == MaxAttempts
    ensures !LockFailed(Attempt(rows, keys, quantities, op, Interference(interleaving, attempt)).outcome) ==>
      r.attempts == attempt + 1
    decreases MaxAttempts - attempt
  {
    var a := Attempt(rows, keys, quantities, op, Interference(interleaving, attempt));
    if LockFailed(a.outcome) && attempt + 1 < MaxAttempts then
      Retry(a.rows, keys, quantities, op, interleaving, attempt + 1)
    else
      Run(a.rows, attempt + 1, a.outcome)
  }

  /** Without other transactions the call makes one attempt, and a failure
      leaves the table as it was. */
  lemma RetryWithoutInterference(rows: Rows, keys: seq<string>, quantities: map<string, int>, op: StockOp,
                                 interleaving: seq<Rows>, attempt: nat)
    requires Distinct(keys) && Listed(keys, quantities) && attempt < MaxAttempts
    requires forall n :: 0 <= n < |interleaving| ==> interleaving[n] == map[]
    ensures Retry(rows, keys, quantities, op, interleaving, attempt).attempts == attempt + 1
    ensures Retry(rows, keys, quantities, op, interleaving, attempt).outcome.Fail? ==>
      Retry(rows, keys, quantities, op, interleaving, attempt).rows == rows
    ensures Retry(rows, keys, quantities, op, interleaving, attempt).outcome == Pass ==>
      Retry(rows, keys, quantities, op, interleaving, attempt).rows == Sweep(rows, keys, quantities, op, map[]).rows
  {
    assert Interference(interleaving, attempt) == map[];
    var s := Sweep(rows, keys, quantities, op, map[]);
    if LockFailed(s.outcome) {
      LockFailureNeedsInterference(rows, keys, quantities, op, map[]);
    }
    if s.outcome.Fail? {
      AttemptFailureFrame(rows, keys, quantities, op, map[]);
    }
  }

  /** No other transaction commits `k` in any attempt. */
  ghost predicate Untouched(interleaving: seq<Rows>, k: string) {
    forall n :: 0 <= n < |interleaving| ==> k !in interleaving[n]
  }

  /** What a call that ended as `r` did to SKU `k`, starting from `rows`: on
      success a listed SKU holds its updated row, computed from its row before
      the call; otherwise the SKU's row is as it was. */
  ghost predicate Settled(rows: Rows, r: Run, keys: seq<string>, quantities: map<string, int>, op: StockOp, k: string) {
    if r.outcome == Pass && k in keys then
      k in quantities && Applicable(rows, k, quantities[k], op)
      && k in r.rows && r.rows[k] == Updated(rows, k, quantities[k], op)
    else SameAt(r.rows, rows, k)
  }

  /** The first attempt of a call succeeded. */
  lemma SettledOnPass(rows: Rows, keys: seq<string>, quantities: map<string, int>, op: StockOp, other: Rows, r: Run, k: string)
    requires Distinct(keys) && Listed(keys, quantities)
    requires Attempt(rows, keys, quantities, op, other).outcome == Pass
    requires r == Run(Attempt(rows, keys, quantities, op, other).rows, r.attempts, Pass)
    ensures Settled(rows, r, keys, quantities, op, k)
  {
    SweepPassEffect(rows, keys, quantities, op, other);
    if k in keys {
      var i :| 0 <= i < |keys| && keys[i] == k;
    }
  }

  /** A SKU that other transactions leave alone, followed through the
      attempts of one call. */
  lemma {:induction false} RetrySettles(rows: Rows, keys: seq<string>, quantities: map<string, int>, op: StockOp,
                                        interleaving: seq<Rows>, attempt: nat, k: string)
    requires Distinct(keys) && Listed(keys, quantities) && attempt < MaxAttempts
    requires Untouched(interleaving, k)
    ensures Settled(rows, Retry(rows, keys, quantities, op, interleaving, attempt), keys, quantities, op, k)
    decreases MaxAttempts - attempt
  {
    var other := Interference(interleaving, attempt);
    var a := Attempt(rows, keys, quantities, op, other);
    var r := Retry(rows, keys, quantities, op, interleaving, attempt);
    assert k !in other;
    if a.outcome == Pass {
      assert r == Run(a.rows, attempt + 1, Pass);
      SettledOnPass(rows, keys, quantities, op, other, r, k);
    } else {
      AttemptFailureFrame(rows, keys, quantities, op, other);
      assert SameAt(a.rows, rows, k);
      if LockFailed(a.outcome) && attempt + 1 < MaxAttempts {
        assert r == Retry(a.rows, keys, quantities, op, interleaving, attempt + 1);
        RetrySettles(a.rows, keys, quantities, op, interleaving, attempt + 1, k);
        SettledThrough(rows, a.rows, r, keys, quantities, op, k);
      } else {
        assert r == Run(a.rows, attempt + 1, a.outcome);
      }
    }
  }

  /** What a later attempt did to a SKU, seen from before an earlier attempt
      that left the SKU's row as it was. */
  lemma SettledThrough(rows: Rows, mid: Rows, r: Run, keys: seq<string>, quantities: map<string, int>, op: StockOp, k: string)
    requires SameAt(mid, rows, k)
    requires Settled(mid, r, keys, quantities, op, k)
    ensures Settled(rows, r, keys, quantities, op, k)
  {
    if k in quantities {
      StepLocal(mid, rows, k, quantities[k], op, map[]);
    }
  }

  /** Whatever other transactions do and however many attempts it takes, a
      SKU they leave alone is updated exactly once when the call succeeds and
      not at all when it fails. */
  lemma RetryEffect(rows: Rows, keys: seq<string>, quantities: map<string, int>, op: StockOp,
                    interleaving: seq<Rows>, attempt: nat)
    requires Distinct(keys) && Listed(keys, quantities) && attempt < MaxAttempts
    ensures forall k :: Untouched(interleaving, k) ==>
      Settled(rows, Retry(rows, keys, quantities, op, interleaving, attempt), keys, quantities, op, k)
  {
    forall k | Untouched(interleaving, k)
      ensures Settled(rows, Retry(rows, keys, quantities, op, interleaving, attempt), keys, quantities, op, k)
    {
      RetrySettles(rows, keys, quantities, op, interleaving, attempt, k);
    }
  }

  /** One iteration of the loop on the store: `findBySku`, reserve or release
      on the loaded item, `save`. Another transaction commits `other[sku]`
      between the load and the save. */
  method StepStore(store: InventoryStore, sku: string, quantity: int, op: StockOp, other: Rows)
    returns (outcome: Outcome<Error>)
    requires store.Valid() && Keyed(other)
    modifies store
    ensures store.Valid() && store.before == old(store.before)
    ensures store.rows == Step(old(store.rows), sku, quantity, op, other).rows
    ensures outcome == Step(old(store.rows), sku, quantity, op, other).outcome
    ensures outcome == Pass ==> store.written == old(store.written) + {sku}
    ensures outcome.Fail? ==> store.written == old(store.written)
  {
    ghost var rows := store.rows;
    ghost var st := Step(rows, sku, quantity, op, other);
    var found, version := store.FindBySku(sku);
    if found.Failure? {
      return Fail(found.error);
    }
    if found.value.None? {
      return Fail(NotFound(sku));
    }
    outcome := FinishStore(store, found.value.value, version, quantity, op, other);
  }

  /** The rest of an iteration on the store, once `findBySku` returned `item`
      and the version it read. */
  method FinishStore(store: InventoryStore, item: InventoryItem, version: nat, quantity: int, op: StockOp, other: Rows)
    returns (outcome: Outcome<Error>)
    requires store.Valid() && Keyed(other)
    requires item.sku in store.versions && version == store.versions[item.sku]
    modifies store, item
    ensures store.Valid() && store.before == old(store.before)
    ensures store.rows == Finish(old(store.rows), item.sku, old(item.State()), quantity, op, other).rows
    ensures outcome == Finish(old(store.rows), item.sku, old(item.State()), quantity, op, other).outcome
    ensures outcome == Pass ==> store.written == old(store.written) + {item.sku}
    ensures outcome.Fail? ==> store.written == old(store.written)
  {
    var sku := item.sku;
    if sku in other {
      store.ConcurrentCommit(other[sku]);
    }
    var applied;
    if op == ReserveOp {
      applied := item.Reserve(quantity);
    } else {
      applied := item.Release(quantity);
    }
    if applied.Fail? {
      return applied;
    }
    outcome := store.Save(item, version);
  }

  /** A run of the loop from position `i`, seen from position 0: the SKUs
      before `i` were loaded and saved. */
  function Resumed(done: nat, r: BatchResult): BatchResult {
    BatchResult(r.rows, done + r.loaded, done + r.saved, r.outcome)
  }

  /** The loop from position `i`, unrolled once. */
  lemma SweepUnroll(rows: Rows, keys: seq<string>, quantities: map<string, int>, op: StockOp, other: Rows, i: nat)
    requires Listed(keys, quantities) && i < |keys|
    ensures var st := Step(rows, keys[i], quantities[keys[i]], op, other);
      var here := Resumed(i, Sweep(rows, keys[i..], quantities, op, other));
      if st.outcome.Fail? then here == Resumed(i, st)
      else here == Resumed(i + 1, Sweep(st.rows, keys[i + 1..], quantities, op, other))
  {
    assert keys[i..][0] == keys[i] && keys[i..][1..] == keys[i + 1..];
  }

  /** The SKUs saved up to position `i`, then the one at `i`. */
  lemma PrefixGrows(seen: set<string>, keys: seq<string>, i: nat)
    requires i < |keys|
    ensures seen + Elems(keys[..i]) + {keys[i]} == seen + Elems(keys[..i + 1])
  {
    assert keys[..i + 1] == keys[..i] + [keys[i]];
  }

  /** The loop over `keys`, whose whole run is `whole`, has reached position
      `i` with the table `rows`. */
  ghost predicate Reached(whole: BatchResult, keys: seq<string>, quantities: map<string, int>, op: StockOp, other: Rows,
                          i: nat, rows: Rows)
    requires Listed(keys, quantities) && i <= |keys|
  {
    whole == Resumed(i, Sweep(rows, keys[i..], quantities, op, other))
  }

  /** The loop starts at position 0 and, having passed every SKU, ends with
      the result of the whole run. */
  lemma ReachedEnds(start: Rows, keys: seq<string>, quantities: map<string, int>, op: StockOp, other: Rows,
                    whole: BatchResult, rows: Rows)
    requires Listed(keys, quantities)
    ensures Reached(Sweep(start, keys, quantities, op, other), keys, quantities, op, other, 0, start)
    ensures Reached(whole, keys, quantities, op, other, |keys|, rows) ==> whole == BatchResult(rows, |keys|, |keys|, Pass)
  {
    assert keys[0..] == keys && keys[|keys|..] == [];
  }

  /** One turn of the loop at position `i`; `written` is the set of SKUs the
      transaction had written before the loop. */
  method SweepTurn(store: InventoryStore, keys: seq<string>, quantities: map<string, int>, op: StockOp, other: Rows,
                   i: nat, ghost whole: BatchResult, ghost written: set<string>)
    returns (outcome: Outcome<Error>)
    requires store.Valid() && Keyed(other) && Listed(keys, quantities) && i < |keys|
    requires Reached(whole, keys, quantities, op, other, i, store.rows)
    requires store.written == written + Elems(keys[..i])
    modifies store
    ensures store.Valid() && store.before == old(store.before)
    ensures outcome == Pass ==>
      Reached(whole, keys, quantities, op, other, i + 1, store.rows) && store.written == written + Elems(keys[..i + 1])
    ensures outcome.Fail? ==>
      store.rows == whole.rows && outcome == whole.outcome && whole.saved == i && store.written == written + Elems(keys[..i])
  {
    SweepUnroll(store.rows, keys, quantities, op, other, i);
    PrefixGrows(written, keys, i);
    outcome := StepStore(store, keys[i], quantities[keys[i]], op, other);
  }

  /** The loop itself, on the store, over `keys` in the given order; the first
      exception ends it. */
  method SweepStore(store: InventoryStore, keys: seq<string>, quantities: map<string, int>, op: StockOp, other: Rows)
    returns (outcome: Outcome<Error>)
    requires store.Valid() && Keyed(other) && Listed(keys, quantities)
    modifies store
    ensures store.Valid() && store.before == old(store.before)
    ensures var s := Sweep(old(store.rows), keys, quantities, op, other);
      store.rows == s.rows && outcome == s.outcome && store.written == old(store.written) + Elems(keys[..s.saved])
  {
    ghost var whole := Sweep(store.rows, keys, quantities, op, other);
    ghost var written := store.written;
    ghost var before := store.before;
    ReachedEnds(store.rows, keys, quantities, op, other, whole, store.rows);
    var i := 0;
    while i < |keys|
      invariant 0 <= i <= |keys| && store.Valid() && store.before == before
      invariant Reached(whole, keys, quantities, op, other, i, store.rows)
      invariant store.written == written + Elems(keys[..i])
    {
      outcome := SweepTurn(store, keys, quantities, op, other, i, whole, written);
      if outcome.Fail? {
        assert whole.saved == i;
        return;
      }
      i := i + 1;
    }
    ReachedEnds(store.rows, keys, quantities, op, other, whole, store.rows);
    assert keys[..i] == keys && whole.saved == i;
    outcome := Pass;
  }
}
