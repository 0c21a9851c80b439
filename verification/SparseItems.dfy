// The contents of a sparse array as a value: items with strictly increasing
// indices, and the map that they stand for.

module SparseItems {
  import opened Options

  // An element; its value may be missing, as a null pointer in the source.
  datatype Item = Item(ind: int, value: Option<string>)

  predicate Sorted(s: seq<Item>) { forall i, j :: 0 <= i < j < |s| ==> s[i].ind < s[j].ind }

  predicate Natural(s: seq<Item>) { forall k :: 0 <= k < |s| ==> s[k].ind >= 0 }

  // The first item with an index of at least i, or |s|.
  function Position(s: seq<Item>, i: int): (k: nat)
    ensures k <= |s| && (k < |s| ==> s[k].ind >= i)
    ensures forall j :: 0 <= j < k ==> s[j].ind < i
  {
    if s == [] || s[0].ind >= i then 0 else 1 + Position(s[1..], i)
  }

  predicate Has(s: seq<Item>, i: int) { Position(s, i) < |s| && s[Position(s, i)].ind == i }

  function Put(s: seq<Item>, i: int, v: Option<string>): seq<Item> {
    var k := Position(s, i);
    if Has(s, i) then s[k := Item(i, v)] else s[..k] + [Item(i, v)] + s[k..]
  }

  function Delete(s: seq<Item>, i: int): seq<Item> {
    var k := Position(s, i);
    if Has(s, i) then s[..k] + s[k + 1..] else s
  }

  function Lookup(s: seq<Item>, i: int): Option<string> {
    if Has(s, i) then s[Position(s, i)].value else None
  }

  // The indices in use, and the array as a map.
  function Indices(s: seq<Item>): set<int> {
    if s == [] then {} else Indices(s[..|s| - 1]) + {s[|s| - 1].ind}
  }

  ghost function AsMap(s: seq<Item>): map<int, Option<string>> {
    map x | x in Indices(s) :: Lookup(s, x)
  }

  function MaxIndex(s: seq<Item>): int { if s == [] then -1 else s[|s| - 1].ind }

  lemma PositionIs(s: seq<Item>, i: int, k: nat)
    requires Sorted(s) && k <= |s|
    requires (forall j :: 0 <= j < k ==> s[j].ind < i) && (k < |s| ==> s[k].ind >= i)
    ensures Position(s, i) == k
  {
  }

  lemma HasAt(s: seq<Item>, k: nat)
    requires Sorted(s) && k < |s|
    ensures Position(s, s[k].ind) == k && Has(s, s[k].ind) && Lookup(s, s[k].ind) == s[k].value
  {
    hide Position;
    PositionIs(s, s[k].ind, k);
  }

  // An index is in use exactly if some item has it; an unused one has no value.
  lemma HasIs(s: seq<Item>, i: int)
    requires Sorted(s)
    ensures Has(s, i) <==> exists k :: 0 <= k < |s| && s[k].ind == i
    ensures !Has(s, i) ==> Lookup(s, i) == None
  {
    hide Position;
    if k :| 0 <= k < |s| && s[k].ind == i { HasAt(s, k); }
  }

  // The largest index in use, or -1.
  lemma MaxIndexIs(s: seq<Item>)
    requires Sorted(s)
    ensures if s == [] then MaxIndex(s) == -1 else Has(s, MaxIndex(s))
    ensures forall x :: Has(s, x) ==> x <= MaxIndex(s)
  {
    hide Position, Lookup;
    if s != [] { HasAt(s, |s| - 1); }
  }

  lemma {:induction false} IndexAt(s: seq<Item>, x: int) returns (k: int)
    ensures x in Indices(s) <==> 0 <= k < |s|
    ensures 0 <= k < |s| ==> s[k].ind == x
  {
    if s == [] {
      k := -1;
    } else if s[|s| - 1].ind == x {
      k := |s| - 1;
    } else {
      k := IndexAt(s[..|s| - 1], x);
      if x !in Indices(s) { k := -1; }
    }
  }

  lemma {:induction false} IndicesHold(s: seq<Item>, k: nat)
    requires k < |s|
    ensures s[k].ind in Indices(s)
  {
    if k < |s| - 1 { IndicesHold(s[..|s| - 1], k); }
  }

  lemma HasIsIn(s: seq<Item>, x: int)
    requires Sorted(s)
    ensures x in Indices(s) <==> Has(s, x)
  {
    hide Indices, Position;
    var k := IndexAt(s, x);
    if x in Indices(s) { HasAt(s, k); }
    if Has(s, x) { IndicesHold(s, Position(s, x)); }
  }

  // Two sorted lists with the same lookups are the same map.
  lemma SameLookups(s: seq<Item>, m: map<int, Option<string>>)
    requires Sorted(s) && forall x :: (x in m <==> Has(s, x)) && (x in m ==> m[x] == Lookup(s, x))
    ensures AsMap(s) == m
  {
    hide Position, Indices, Lookup, Has;
    forall x
      ensures x in AsMap(s) <==> x in m
    {
      HasIsIn(s, x);
    }
  }

  lemma PutSorted(s: seq<Item>, i: int, v: Option<string>)
    requires Sorted(s)
    ensures Sorted(Put(s, i, v)) && (Natural(s) && i >= 0 ==> Natural(Put(s, i, v)))
  {
    var k := Position(s, i);
    hide Position;
    if !Has(s, i) {
      Inserted(s, k, Item(i, v));
    }
  }

  // An item in its place keeps the order.
  lemma Inserted(s: seq<Item>, k: nat, e: Item)
    requires Sorted(s) && k <= |s|
    requires (forall j :: 0 <= j < k ==> s[j].ind < e.ind) && (k < |s| ==> e.ind < s[k].ind)
    ensures Sorted(s[..k] + [e] + s[k..])
  {
    var t := s[..k] + [e] + s[k..];
    forall i, j | 0 <= i < j < |t|
      ensures t[i].ind < t[j].ind
    {
      assert i < k ==> t[i] == s[i];
      assert i > k ==> t[i] == s[i - 1];
      assert j < k ==> t[j] == s[j];
      assert j > k ==> t[j] == s[j - 1];
    }
  }

  lemma DeleteSorted(s: seq<Item>, i: int)
    requires Sorted(s)
    ensures Sorted(Delete(s, i)) && (Natural(s) ==> Natural(Delete(s, i)))
  {
    var k := Position(s, i);
    hide Position;
    if Has(s, i) {
      var t := s[..k] + s[k + 1..];
      assert forall j :: 0 <= j < |t| ==> t[j] == if j < k then s[j] else s[j + 1];
    }
  }

  lemma PutLookup(s: seq<Item>, i: int, v: Option<string>, x: int)
    requires Sorted(s)
    ensures Has(Put(s, i, v), x) <==> x == i || Has(s, x)
    ensures Lookup(Put(s, i, v), x) == if x == i then v else Lookup(s, x)
  {
    hide Position;
    var t, k, p := Put(s, i, v), Position(s, i), Position(s, x);
    PutSorted(s, i, v);
    var q := if x == i then k else if Has(s, i) || x < i then p else p + 1;
    if x == i {
      assert t[q] == Item(i, v);
    } else if q < |t| {
      assert t[q] == if x < i && p == k then Item(i, v) else s[p];
    }
    PositionIs(t, x, q);
  }

  // array_insert on the map.
  lemma PutIsUpdate(s: seq<Item>, i: int, v: Option<string>)
    requires Sorted(s)
    ensures Sorted(Put(s, i, v)) && AsMap(Put(s, i, v)) == AsMap(s)[i := v]
  {
    hide Position, Put, Has, Lookup, Indices;
    PutSorted(s, i, v);
    forall x
      ensures (x in AsMap(s)[i := v] <==> Has(Put(s, i, v), x))
      ensures x in AsMap(s)[i := v] ==> AsMap(s)[i := v][x] == Lookup(Put(s, i, v), x)
    {
      PutLookup(s, i, v, x);
      HasIsIn(s, x);
    }
    SameLookups(Put(s, i, v), AsMap(s)[i := v]);
  }

  lemma DeleteLookup(s: seq<Item>, i: int, x: int)
    requires Sorted(s)
    ensures Has(Delete(s, i), x) <==> x != i && Has(s, x)
    ensures x != i ==> Lookup(Delete(s, i), x) == Lookup(s, x)
  {
    hide Position;
    var t, k, p := Delete(s, i), Position(s, i), Position(s, x);
    DeleteSorted(s, i);
    var q := if Has(s, i) && x > i then p - 1 else p;
    PositionIs(t, x, q);
  }

  // array_remove on the map.
  lemma DeleteIsRemoval(s: seq<Item>, i: int)
    requires Sorted(s)
    ensures Sorted(Delete(s, i)) && AsMap(Delete(s, i)) == AsMap(s) - {i}
  {
    hide Position, Delete, Has, Lookup, Indices;
    DeleteSorted(s, i);
    forall x
      ensures (x in AsMap(s) - {i} <==> Has(Delete(s, i), x))
      ensures x in AsMap(s) - {i} ==> (AsMap(s) - {i})[x] == Lookup(Delete(s, i), x)
    {
      DeleteLookup(s, i, x);
      HasIsIn(s, x);
    }
    SameLookups(Delete(s, i), AsMap(s) - {i});
  }

  // ------------------------------------------------------------- shifting

  function Renumbered(s: seq<Item>, d: int): (r: seq<Item>)
    ensures |r| == |s|
    ensures forall k :: 0 <= k < |s| ==> r[k] == Item(s[k].ind + d, s[k].value)
  {
    seq(|s|, k requires 0 <= k < |s| => Item(s[k].ind + d, s[k].value))
  }

  // The indices of the items from position `from' on grow by d.
  function RenumberedFrom(s: seq<Item>, from: nat, d: int): (r: seq<Item>)
    ensures |r| == |s|
    ensures forall k :: 0 <= k < |s| ==> r[k] == if k < from then s[k] else Item(s[k].ind + d, s[k].value)
  {
    seq(|s|, k requires 0 <= k < |s| => if k < from then s[k] else Item(s[k].ind + d, s[k].value))
  }

  // array_shift (n > 0): the first n elements go.
  function ShiftedLeft(s: seq<Item>, n: nat): seq<Item> {
    if n >= |s| then [] else Renumbered(s[n..], 0 - n)
  }

  // array_rshift (n > 0), with a new element 0 if v is given.
  function ShiftedRight(s: seq<Item>, n: nat, v: Option<string>): seq<Item> {
    (if v.Some? then [Item(0, v)] else []) + Renumbered(s, n)
  }

  // The k-th index is at least k.
  lemma {:induction false} IndexAtLeast(s: seq<Item>, k: nat)
    requires Sorted(s) && Natural(s) && k < |s|
    ensures s[k].ind >= k
  {
    if k > 0 { IndexAtLeast(s, k - 1); }
  }

  lemma ShiftedLeftStaysNatural(s: seq<Item>, n: nat)
    requires Sorted(s) && Natural(s)
    ensures Sorted(ShiftedLeft(s, n)) && Natural(ShiftedLeft(s, n))
  {
    if n < |s| {
      forall k | n <= k < |s|
        ensures s[k].ind >= n
      {
        IndexAtLeast(s, k);
      }
    }
  }

  lemma ShiftedRightStaysNatural(s: seq<Item>, n: nat, v: Option<string>)
    requires Sorted(s) && Natural(s) && n > 0
    ensures Sorted(ShiftedRight(s, n, v)) && Natural(ShiftedRight(s, n, v))
  {
  }

  // With a new element 0 the order is kept exactly if no other index ends up
  // at or below it.
  lemma RightIsSorted(s: seq<Item>, n: nat, v: Option<string>)
    requires Sorted(s) && n > 0
    ensures Sorted(ShiftedRight(s, n, v)) <==> v.None? || s == [] || s[0].ind + n > 0
  {
    var r := ShiftedRight(s, n, v);
    if v.Some? && s != [] {
      assert r[0].ind == 0 && r[1].ind == s[0].ind + n;
      assert forall k :: 1 <= k < |r| ==> r[k].ind == s[k - 1].ind + n;
    }
  }

  // array_push, then array_pop: every sparse array is what it was.
  lemma PushThenPop(s: seq<Item>, v: string)
    ensures ShiftedLeft(ShiftedRight(s, 1, Some(v)), 1) == s
  {
    var t := ShiftedRight(s, 1, Some(v));
    if s != [] {
      assert t[1..] == Renumbered(s, 1);
      var r := ShiftedLeft(t, 1);
      assert forall k :: 0 <= k < |s| ==> r[k] == s[k];
    }
  }

  lemma LeftItems(s: seq<Item>, n: nat)
    requires Sorted(s)
    ensures Sorted(ShiftedLeft(s, n)) && |ShiftedLeft(s, n)| == if n < |s| then |s| - n else 0
    ensures forall k :: 0 <= k < |ShiftedLeft(s, n)| ==> ShiftedLeft(s, n)[k] == Item(s[k + n].ind - n, s[k + n].value)
  {
  }

  // Items from n on are those whose index is not below that of item n.
  lemma NotBelow(s: seq<Item>, n: nat, k: nat)
    requires Sorted(s) && n < |s| && k < |s|
    ensures s[k].ind >= s[n].ind <==> k >= n
  {
  }

  // On the map: the first n elements are gone, every other one is found n lower,
  // and nothing else is.
  lemma ShiftedLeftLookup(s: seq<Item>, n: nat, x: int)
    requires Sorted(s)
    ensures Sorted(ShiftedLeft(s, n)) && |ShiftedLeft(s, n)| == if n < |s| then |s| - n else 0
    ensures Has(ShiftedLeft(s, n), x) <==> n < |s| && x + n >= s[n].ind && Has(s, x + n)
    ensures Has(ShiftedLeft(s, n), x) ==> Lookup(ShiftedLeft(s, n), x) == Lookup(s, x + n)
  {
    hide Position, Has, Lookup, Sorted, ShiftedLeft;
    var r := ShiftedLeft(s, n);
    LeftItems(s, n);
    HasIs(r, x);
    HasIs(s, x + n);
    if k :| 0 <= k < |s| && s[k].ind == x + n {
      HasAt(s, k);
      if n < |s| { NotBelow(s, n, k); }
      if n <= k {
        assert r[k - n].ind == x;
        HasAt(r, k - n);
      } else {
        LeftOnce(s, n, k, x);
      }
    }
  }

  // An item that is gone leaves no other one with its index.
  lemma LeftOnce(s: seq<Item>, n: nat, k: nat, x: int)
    requires Sorted(s) && k < n && k < |s| && s[k].ind == x + n
    ensures forall j :: 0 <= j < |ShiftedLeft(s, n)| ==> ShiftedLeft(s, n)[j].ind != x
  {
    hide ShiftedLeft;
    LeftItems(s, n);
  }

  lemma RightItems(s: seq<Item>, n: nat, v: Option<string>)
    ensures var r, d := ShiftedRight(s, n, v), if v.Some? then 1 else 0;
      && |r| == |s| + d && (d == 1 ==> r[0] == Item(0, v))
      && (forall k :: 0 <= k < |s| ==> r[k + d] == Item(s[k].ind + n, s[k].value))
  {
    var t := Renumbered(s, n);
    if v.Some? {
      assert ShiftedRight(s, n, v) == [Item(0, v)] + t;
      assert forall k :: 0 <= k < |s| ==> ([Item(0, v)] + t)[k + 1] == t[k];
    } else {
      assert ShiftedRight(s, n, v) == t;
    }
  }

  // Every element is found n higher, with the new one at 0, and nothing else is.
  lemma ShiftedRightLookup(s: seq<Item>, n: nat, v: Option<string>, x: int)
    requires Sorted(s) && Sorted(ShiftedRight(s, n, v))
    ensures Has(ShiftedRight(s, n, v), x) <==> (v.Some? && x == 0) || Has(s, x - n)
    ensures Lookup(ShiftedRight(s, n, v), x) == if v.Some? && x == 0 then v else Lookup(s, x - n)
  {
    hide Position, Has, Lookup, Sorted, ShiftedRight;
    var r, d := ShiftedRight(s, n, v), if v.Some? then 1 else 0;
    RightItems(s, n, v);
    HasIs(r, x);
    HasIs(s, x - n);
    if v.Some? && x == 0 {
      HasAt(r, 0);
    } else if k :| 0 <= k < |s| && s[k].ind == x - n {
      HasAt(s, k);
      assert r[k + d] == Item(x, s[k].value);
      HasAt(r, k + d);
    } else {
      forall k | 0 <= k < |r|
        ensures r[k].ind != x
      {
        if k >= d { assert r[(k - d) + d] == Item(s[k - d].ind + n, s[k - d].value); }
      }
    }
  }

  // How the source gets there.
  lemma LeftByRenumbering(s: seq<Item>, n: nat)
    requires n < |s|
    ensures ShiftedLeft(s, n) == RenumberedFrom(s[n..], 0, 0 - n)
  {
    var t := RenumberedFrom(s[n..], 0, 0 - n);
    assert forall k :: 0 <= k < |t| ==> t[k] == Renumbered(s[n..], 0 - n)[k];
  }

  lemma RightByRenumbering(s: seq<Item>, n: nat)
    ensures ShiftedRight(s, n, None) == RenumberedFrom(s, 0, n)
  {
    var t := RenumberedFrom(s, 0, n);
    assert ShiftedRight(s, n, None) == Renumbered(s, n);
    assert forall k :: 0 <= k < |t| ==> t[k] == Renumbered(s, n)[k];
  }

  lemma IntoByRenumbering(s: seq<Item>, n: nat, v: Option<string>)
    requires v.Some?
    ensures ShiftedRight(s, n, v) == RenumberedFrom([Item(0, v)] + s, 1, n)
  {
    var u := [Item(0, v)] + s;
    var t, r := RenumberedFrom(u, 1, n), ShiftedRight(s, n, v);
    assert r == [Item(0, v)] + Renumbered(s, n);
    forall k | 0 <= k < |t|
      ensures t[k] == r[k]
    {
      if k > 0 { assert u[k] == s[k - 1] && r[k] == Renumbered(s, n)[k - 1]; }
    }
  }
}
