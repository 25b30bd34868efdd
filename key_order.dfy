/** The SKU order used by `entrySet().stream().sorted(Map.Entry.comparingByKey())`:
    `String.compareTo`, lexicographic by character with a proper prefix first.
    Sorting the entries of a map in whatever order the map yields them gives one
    and the same sequence (`SortCanonical`), which is what makes the sorted loops
    independent of the map's iteration order. */
module KeyOrder {

  /** `a.compareTo(b) < 0`. */
  predicate Less(a: string, b: string)
    decreases |a|
  {
    if a == [] then b != []
    else if b == [] then false
    else if a[0] != b[0] then a[0] < b[0]
    else Less(a[1..], b[1..])
  }

  lemma {:induction false} LessIrreflexive(a: string)
    ensures !Less(a, a)
    decreases |a|
  {
    if a != [] { LessIrreflexive(a[1..]); }
  }

  lemma {:induction false} LessTransitive(a: string, b: string, c: string)
    requires Less(a, b) && Less(b, c)
    ensures Less(a, c)
    decreases |a|
  {
    if a != [] && a[0] == b[0] && b[0] == c[0] {
      LessTransitive(a[1..], b[1..], c[1..]);
    }
  }

  lemma {:induction false} LessTotal(a: string, b: string)
    requires a != b
    ensures Less(a, b) || Less(b, a)
    decreases |a|
  {
    if a != [] && b != [] && a[0] == b[0] {
      assert a == [a[0]] + a[1..] && b == [b[0]] + b[1..];
      LessTotal(a[1..], b[1..]);
    }
  }

  lemma LessAsymmetric(a: string, b: string)
    requires Less(a, b)
    ensures !Less(b, a)
  {
    if Less(b, a) {
      LessTransitive(a, b, a);
      LessIrreflexive(a);
    }
  }

  predicate Distinct(s: seq<string>) {
    forall i, j :: 0 <= i < j < |s| ==> s[i] != s[j]
  }

  predicate StrictlySorted(s: seq<string>) {
    forall i, j :: 0 <= i < j < |s| ==> Less(s[i], s[j])
  }

  function Elems(s: seq<string>): set<string> {
    set x | x in s
  }

  /** `order` lists the keys of a map once each: one possible iteration order. */
  predicate Enumerates(order: seq<string>, keys: set<string>) {
    Distinct(order) && Elems(order) == keys
  }

  /** Insertion of `x` into a sorted sequence. */
  function Insert(x: string, s: seq<string>): seq<string> {
    if s == [] then [x]
    else if Less(x, s[0]) then [x] + s
    else [s[0]] + Insert(x, s[1..])
  }

  /** The stable sort `Stream.sorted` performs, written as insertion sort. */
  function Sort(s: seq<string>): seq<string> {
    if s == [] then [] else Insert(s[0], Sort(s[1..]))
  }

  lemma {:induction false} InsertElems(x: string, s: seq<string>)
    ensures multiset(Insert(x, s)) == multiset(s) + multiset{x}
  {
    if s != [] && !Less(x, s[0]) {
      InsertElems(x, s[1..]);
      assert s == [s[0]] + s[1..];
    }
  }

  /** A key below every key of a sorted sequence can go in front of it. */
  lemma ConsSorted(x: string, s: seq<string>)
    requires StrictlySorted(s) && forall j :: 0 <= j < |s| ==> Less(x, s[j])
    ensures StrictlySorted([x] + s)
  {
    var r := [x] + s;
    forall i, j | 0 <= i < j < |r| ensures Less(r[i], r[j]) {
      if i > 0 { assert r[i] == s[i - 1] && r[j] == s[j - 1]; }
    }
  }

  /** A key below every element of `s` and below `x` is below every element
      of any sequence holding exactly those. */
  lemma BelowAll(y: string, x: string, s: seq<string>, t: seq<string>)
    requires Less(y, x) && forall j :: 0 <= j < |s| ==> Less(y, s[j])
    requires multiset(t) == multiset(s) + multiset{x}
    ensures forall j :: 0 <= j < |t| ==> Less(y, t[j])
  {
    forall j | 0 <= j < |t| ensures Less(y, t[j]) {
      assert t[j] in multiset(t);
      if t[j] != x {
        assert t[j] in multiset(s);
        var k :| 0 <= k < |s| && s[k] == t[j];
      }
    }
  }

  lemma {:induction false} InsertSpec(x: string, s: seq<string>)
    requires StrictlySorted(s) && x !in s
    ensures multiset(Insert(x, s)) == multiset(s) + multiset{x}
    ensures StrictlySorted(Insert(x, s))
  {
    InsertElems(x, s);
    if s == [] {
    } else if Less(x, s[0]) {
      forall j | 0 <= j < |s| ensures Less(x, s[j]) {
        if j > 0 { LessTransitive(x, s[0], s[j]); }
      }
      ConsSorted(x, s);
    } else {
      LessTotal(x, s[0]);
      var rest := s[1..];
      assert StrictlySorted(rest);
      InsertSpec(x, rest);
      forall j | 0 <= j < |rest| ensures Less(s[0], rest[j]) {
        assert rest[j] == s[j + 1];
      }
      BelowAll(s[0], x, rest, Insert(x, rest));
      ConsSorted(s[0], Insert(x, rest));
    }
  }

  lemma {:induction false} SortSpec(s: seq<string>)
    requires Distinct(s)
    ensures multiset(Sort(s)) == multiset(s)
    ensures StrictlySorted(Sort(s))
  {
    if s != [] {
      var rest := s[1..];
      assert Distinct(rest);
      SortSpec(rest);
      assert s == [s[0]] + rest;
      assert s[0] !in multiset(rest);
      assert s[0] !in multiset(Sort(rest));
      InsertSpec(s[0], Sort(rest));
    }
  }

  predicate IsLeast(k: string, keys: set<string>) {
    k in keys && forall j :: j in keys && j != k ==> Less(k, j)
  }

  lemma {:induction false} LeastExists(keys: set<string>)
    requires keys != {}
    ensures exists k :: IsLeast(k, keys)
    decreases keys
  {
    var x :| x in keys;
    if keys - {x} == {} {
      forall j | j in keys ensures j == x {
        assert j !in keys - {x};
      }
      assert IsLeast(x, keys);
    } else {
      LeastExists(keys - {x});
      var y :| IsLeast(y, keys - {x});
      LessTotal(x, y);
      if Less(x, y) {
        forall j | j in keys && j != x ensures Less(x, j) {
          if j != y { LessTransitive(x, y, j); }
        }
        assert IsLeast(x, keys);
      } else {
        assert IsLeast(y, keys);
      }
    }
  }

  /** The keys of a set in ascending order: the canonical sorted iteration. */
  ghost function SortedOf(keys: set<string>): seq<string>
    decreases keys
  {
    if keys == {} then []
    else
      LeastExists(keys);
      var k :| IsLeast(k, keys);
      [k] + SortedOf(keys - {k})
  }

  lemma {:induction false} SortedOfSpec(keys: set<string>)
    ensures StrictlySorted(SortedOf(keys)) && Elems(SortedOf(keys)) == keys
    decreases keys
  {
    if keys != {} {
      LeastExists(keys);
      var k :| IsLeast(k, keys) && SortedOf(keys) == [k] + SortedOf(keys - {k});
      SortedOfSpec(keys - {k});
      var s := SortedOf(keys);
      forall j | 1 <= j < |s| ensures Less(k, s[j]) {
        assert s[j] in Elems(SortedOf(keys - {k}));
      }
      assert Elems(s) == {k} + Elems(SortedOf(keys - {k}));
    }
  }

  lemma {:induction false} SortedIsDistinct(s: seq<string>)
    requires StrictlySorted(s)
    ensures Distinct(s)
  {
    forall i, j | 0 <= i < j < |s| ensures s[i] != s[j] {
      if s[i] == s[j] { LessIrreflexive(s[i]); }
    }
  }

  /** A set has exactly one strictly ascending listing. */
  lemma {:induction false} SortedUnique(a: seq<string>, b: seq<string>)
    requires StrictlySorted(a) && StrictlySorted(b) && Elems(a) == Elems(b)
    ensures a == b
    decreases |a|
  {
    if a != [] {
      assert a[0] in Elems(b);
      assert b != [];
      if a[0] != b[0] {
        assert b[0] in Elems(a);
        var i :| 0 <= i < |a| && a[i] == b[0];
        var j :| 0 <= j < |b| && b[j] == a[0];
        assert Less(a[0], b[0]);
        assert Less(b[0], a[0]);
        LessAsymmetric(a[0], b[0]);
      }
      SortedIsDistinct(a);
      SortedIsDistinct(b);
      assert Elems(a[1..]) == Elems(a) - {a[0]} by {
        assert a == [a[0]] + a[1..];
      }
      assert Elems(b[1..]) == Elems(b) - {b[0]} by {
        assert b == [b[0]] + b[1..];
      }
      SortedUnique(a[1..], b[1..]);
      assert a == [a[0]] + a[1..] && b == [b[0]] + b[1..];
    } else {
      ElemsEmpty(b);
    }
  }

  lemma ElemsEmpty(s: seq<string>)
    ensures Elems(s) == {} <==> s == []
  {
    if s != [] { assert s[0] in Elems(s); }
  }

  /** Sorting any iteration order of a key set gives the ascending listing of
      that set: the result does not depend on the order the map yields. */
  lemma SortCanonical(order: seq<string>)
    requires Distinct(order)
    ensures Sort(order) == SortedOf(Elems(order))
  {
    SortSpec(order);
    SortedOfSpec(Elems(order));
    assert Elems(Sort(order)) == Elems(order) by {
      forall x ensures x in Sort(order) <==> x in order {
        assert x in Sort(order) <==> x in multiset(Sort(order));
        assert x in order <==> x in multiset(order);
      }
    }
    SortedUnique(Sort(order), SortedOf(Elems(order)));
  }

  /** Some iteration order of a key set, as a hash map yields it. */
  method Enumerate(keys: set<string>) returns (order: seq<string>)
    ensures Enumerates(order, keys)
  {
    order := [];
    var rest := keys;
    while rest != {}
      invariant Distinct(order) && Elems(order) !! rest && Elems(order) + rest == keys
      decreases rest
    {
      var k :| k in rest;
      order := order + [k];
      rest := rest - {k};
    }
  }

  /** `entrySet().stream().sorted(comparingByKey())`: the keys in whatever order
      the map yields them, then sorted. The ghost `yielded` is that order. */
  method SortedKeys(keys: set<string>) returns (sorted: seq<string>, ghost yielded: seq<string>)
    ensures Enumerates(yielded, keys) && sorted == Sort(yielded)
    ensures sorted == SortedOf(keys)
  {
    var order := Enumerate(keys);
    sorted := Sort(order);
    yielded := order;
    SortCanonical(order);
  }

  /** Every key of the sequence is a key of the map. */
  predicate Listed(keys: seq<string>, quantities: map<string, int>) {
    forall i :: 0 <= i < |keys| ==> keys[i] in quantities
  }

  /** An enumeration of a map's keys lists only keys of the map. */
  lemma EnumeratedListed(order: seq<string>, quantities: map<string, int>)
    requires Enumerates(order, quantities.Keys)
    ensures Listed(order, quantities)
  {
    forall i | 0 <= i < |order| ensures order[i] in quantities {
      assert order[i] in Elems(order);
    }
  }
}
