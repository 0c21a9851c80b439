// The arrays of array.c: a circular doubly linked list with a dummy head,
// kept sorted, and one roving pointer shared by all arrays.

module SparseArrays {
  import opened Options
  import opened SparseItems

  class Element {
    var ind: int
    var value: Option<string>
    var next: Element?
    var prev: Element?

    constructor (ind: int, value: Option<string>)
      ensures this.ind == ind && this.value == value && next == null && prev == null
    {
      this.ind, this.value, next, prev := ind, value, null, null;
    }
  }

  ghost predicate Distinct(r: seq<Element>) { forall i, j :: 0 <= i < j < |r| ==> r[i] != r[j] }

  // r is a ring in both directions.
  ghost predicate Linked(r: seq<Element>)
    reads r`next, r`prev
  {
    && r != [] && Distinct(r)
    && (forall k :: 0 <= k < |r| - 1 ==> r[k].next == r[k + 1])
    && (forall k :: 0 < k < |r| ==> r[k].prev == r[k - 1])
    && r[|r| - 1].next == r[0] && r[0].prev == r[|r| - 1]
  }

  ghost function ItemOf(e: Element): Item
    reads e`ind, e`value
  {
    Item(e.ind, e.value)
  }

  // The items of the elements behind the head.
  ghost function ItemsOf(r: seq<Element>): (s: seq<Item>)
    requires r != []
    reads r`ind, r`value
    ensures |s| == |r| - 1
    ensures forall k :: 0 <= k < |s| ==> s[k] == ItemOf(r[k + 1])
  {
    if |r| == 1 then [] else ItemsOf(r[..|r| - 1]) + [ItemOf(r[|r| - 1])]
  }

  class Array {
    const head: Element
    var maxIndex: int
    var numElements: int
    ghost var ring: seq<Element>

    // array_create
    constructor ()
      ensures Valid() && Items() == [] && fresh(ring)
    {
      var h := new Element(-1, None);
      head := h;
      maxIndex, numElements, ring := -1, 0, [h];
      new;
      head.next, head.prev := head, head;
    }

    ghost predicate Shape()
      reads this`ring, ring`next, ring`prev, ring`ind
    {
      ring != [] && ring[0] == head && Linked(ring) && head.ind == -1
    }

    ghost function Items(): seq<Item>
      requires ring != []
      reads this`ring, ring`ind, ring`value
    {
      ItemsOf(ring)
    }

    ghost predicate Valid()
      reads this, ring
    {
      && Shape() && Sorted(Items())
      && numElements == |Items()| && maxIndex == MaxIndex(Items())
    }

    // element_forw
    lemma Step(k: nat)
      requires Shape() && k < |ring|
      ensures ring[k].next == (if k + 1 < |ring| then ring[k + 1] else head)
      ensures k > 0 ==> ring[k] != head
    {
    }

    // ADD_BEFORE: e goes before ae, which is at position p of the ring, the
    // head being at the end as well.
    method AddBefore(ae: Element, e: Element, ghost p: nat)
      requires Shape() && 0 < p <= |ring| && ae == (if p < |ring| then ring[p] else head) && e !in ring
      modifies this`ring, ring`next, ring`prev, e`next, e`prev
      ensures Shape() && ring == old(ring)[..p] + [e] + old(ring)[p..]
      ensures ItemsOf(ring) == old(Items())[..p - 1] + [old(ItemOf(e))] + old(Items())[p - 1..]
    {
      hide ItemsOf;
      ghost var r := ring;
      assert ae.prev == r[p - 1];
      ae.prev.next := e;
      e.prev := ae.prev;
      ae.prev := e;
      e.next := ae;
      ring := r[..p] + [e] + r[p..];
      Spliced(r, p, e);
      SplicedItems(r, p, e);
    }

    // Adds d to the indices from position p on.
    method Renumber(ae: Element, d: int, ghost p: nat)
      requires Shape() && 0 < p <= |ring| && ae == (if p < |ring| then ring[p] else head)
      modifies ring[1..]`ind
      ensures Shape() && Items() == RenumberedFrom(old(Items()), p - 1, d)
    {
      hide ItemsOf;
      ghost var s := Items();
      var e := ae;
      ghost var k := p;
      HeadApart();
      while e != head
        invariant Shape() && p <= k <= |ring| && e == (if k < |ring| then ring[k] else head)
        invariant forall j :: 0 <= j < |s| ==>
                    ItemOf(ring[j + 1]) == if j < p - 1 || j >= k - 1 then s[j] else Item(s[j].ind + d, s[j].value)
        decreases |ring| - k
      {
        Step(k);
        e.ind := e.ind + d;
        e := e.next;
        k := k + 1;
      }
      assert forall j :: 0 <= j < |s| ==> Items()[j] == RenumberedFrom(s, p - 1, d)[j];
    }

    // Renumbering, and max_index after it.
    method ShiftIndices(d: int, ghost p: nat, ae: Element)
      requires Shape() && 0 < p <= |ring| && ae == (if p < |ring| then ring[p] else head)
      modifies ring[1..]`ind, this`maxIndex
      ensures Shape() && maxIndex == MaxIndex(Items()) && Items() == RenumberedFrom(old(Items()), p - 1, d)
    {
      hide ItemsOf, Linked, RenumberedFrom, MaxIndex;
      Renumber(ae, d, p);
      LastItem();
      maxIndex := head.prev.ind;
    }

    // The first n elements go, and the others are renumbered.
    method DropFront(ae: Element, n: nat) returns (r: Element)
      requires Valid() && 0 < n < |Items()| && ae == ring[n + 1]
      modifies this, ring
      ensures Valid() && ring == [head] + old(ring)[n + 1..]
      ensures Items() == ShiftedLeft(old(Items()), n)
      ensures r == old(ring)[1] && Closed(old(ring)[1..n + 1])
    {
      hide Linked, ItemsOf, Sorted, ShiftedLeft, Closed, RenumberedFrom, MaxIndex;
      ghost var s := Items();
      Step(0);
      r := head.next;
      CutFront(ae, n + 1);
      LeftByRenumbering(s, n);
      ShiftIndices(0 - n, 1, ae);
      numElements := numElements - n;
      ShiftedSorted(s, n);
    }

    // All indices grow by n.
    method MoveUp(n: nat)
      requires Valid() && n > 0 && Items() != []
      modifies this`maxIndex, ring[1..]`ind
      ensures Valid() && Items() == ShiftedRight(old(Items()), n, None)
    {
      hide Linked, ItemsOf, Sorted, ShiftedRight, RenumberedFrom, MaxIndex;
      ghost var s := Items();
      Step(0);
      RightIsSorted(s, n, None);
      RightByRenumbering(s, n);
      ShiftIndices(n, 1, head.next);
    }

    // All indices grow by n, and there is a new element 0.
    method MoveUpInto(n: nat, v: Option<string>)
      requires Valid() && v.Some? && n > 0
      modifies this, ring
      ensures Shape() && numElements == |Items()| && maxIndex == MaxIndex(Items()) && |ring| > 1 && fresh(ring[1]) && ring == [head, ring[1]] + old(ring)[1..]
      ensures Items() == ShiftedRight(old(Items()), n, v)
    {
      hide Linked, ItemsOf, Sorted, ShiftedRight, RenumberedFrom, MaxIndex;
      ghost var s := Items();
      Step(0);
      var ae := head.next;
      AddFirst(v);
      IntoByRenumbering(s, n, v);
      if numElements == 1 {
        maxIndex := 0;
        assert s == [] && Items() == [Item(0, v)];
        OneItem(s, n, v);
        return;
      }
      assert ae == ring[2];
      ShiftIndices(n, 2, ae);
    }

    // A new first element with index 0.
    method AddFirst(v: Option<string>)
      requires Valid()
      modifies this`ring, this`numElements, ring`next, ring`prev
      ensures Shape() && numElements == |Items()| && |ring| > 1 && fresh(ring[1]) && ring == [head, ring[1]] + old(ring)[1..]
      ensures Items() == [Item(0, v)] + old(Items())
    {
      Basics();
      var e := new Element(0, v);
      HookFirst(e);
      numElements := numElements + 1;
    }

    method HookFirst(e: Element)
      requires Shape() && e !in ring
      modifies this`ring, ring`next, ring`prev, e`next, e`prev
      ensures Shape() && ring == [head, e] + old(ring)[1..] && Items() == [old(ItemOf(e))] + old(Items())
    {
      hide ItemsOf, Linked;
      Step(0);
      ghost var s, r := Items(), ring;
      AddBefore(head.next, e, 1);
      BehindHead(r, e);
      InFront(s, old(ItemOf(e)));
    }

    lemma HeadApart()
      requires Shape()
      ensures head !in ring[1..] && Distinct(ring)
    {
    }

    // Everything but the head is dropped.
    method Empty()
      requires ring != [] && ring[0] == head && head.ind == -1
      modifies this, head`next, head`prev
      ensures Valid() && Items() == [] && ring == [head]
    {
      head.next, head.prev := head, head;
      maxIndex, numElements := -1, 0;
      ring := [head];
    }

    // The elements before ae, at position p, are cut off and closed by null.
    method CutFront(ae: Element, ghost p: nat)
      requires Shape() && 1 < p < |ring| && ae == ring[p]
      modifies this`ring, ring`next, ring`prev
      ensures Shape() && ring == [head] + old(ring)[p..]
      ensures ItemsOf(ring) == old(Items())[p - 1..]
      ensures Closed(old(ring)[1..p])
    {
      hide ItemsOf;
      ghost var r := ring;
      assert ae.prev == r[p - 1];
      ae.prev.next := null;
      head.next := ae;
      ae.prev := head;
      ring := [head] + r[p..];
      assert forall k :: 0 < k < |ring| ==> ring[k] == r[k + p - 1];
      assert forall k :: p <= k < |r| - 1 ==> r[k].next == r[k + 1];
      assert forall k :: p < k < |r| ==> r[k].prev == r[k - 1];
      Recut(r, p);
      CutItems(r, p);
      assert forall k :: 0 <= k < p - 2 ==> r[1..p][k] == r[k + 1];
    }

    lemma Basics()
      requires Valid()
      ensures ring != [] && ring[0] == head && numElements == |Items()| == |ring| - 1
    {
    }

    lemma LastItem()
      requires Shape()
      ensures head.prev != null && head.prev.ind == MaxIndex(Items())
    {
    }

    lemma Apart()
      requires Shape()
      ensures Distinct(ring)
    {
    }

    // array_remove without the roving pointer.
    method RemoveNode(ae: Element, i: int, ghost p: nat)
      requires Valid() && 0 < p < |ring| && ae == ring[p] && ae.ind == i
      modifies this, ring`next, ring`prev
      ensures Valid() && (forall e :: e in ring ==> e in old(ring)) && ae !in ring
      ensures Items() == Delete(old(Items()), i)
      ensures Has(old(Items()), i) && ae.value == Lookup(old(Items()), i)
    {
      hide Position, Linked, ItemsOf, Has, Lookup, Delete, Sorted;
      ghost var s := Items();
      ghost var r := ring;
      HasAt(s, p - 1);
      DeleteIs(s, i, p - 1);
      DeleteSorted(s, i);
      MaxDeleted(s, i, p - 1);
      assert ItemOf(ae) == s[p - 1];
      assert p > 1 ==> s[p - 2] == ItemOf(r[p - 1]);
      Unlink(ae, p);
      numElements := numElements - 1;
      if i == maxIndex { maxIndex := ae.prev.ind; }
    }

    // A new element at the end.
    method Append(ind: int, value: Option<string>)
      requires Shape()
      modifies this`ring, ring`next, ring`prev
      ensures Shape() && ring == old(ring) + [ring[|ring| - 1]] && fresh(ring[|ring| - 1])
      ensures Items() == old(Items()) + [Item(ind, value)]
    {
      hide Linked, ItemsOf;
      ghost var s, r := Items(), ring;
      var e := new Element(ind, value);
      AddBefore(head, e, |ring|);
      assert s[..|s|] == s && s[|s|..] == [] && r[..|r|] == r && r[|r|..] == [];
    }

    // array_insert without the roving pointer.
    method InsertNode(ae: Element, i: int, v: Option<string>, ghost p: nat) returns (e: Element)
      requires Valid() && 0 < p <= |ring| && ae == (if p < |ring| then ring[p] else head)
      requires forall j :: 0 <= j < p - 1 ==> Items()[j].ind < i
      requires p < |ring| ==> Items()[p - 1].ind > i
      requires p == |ring| <==> i > maxIndex
      modifies this, ring`next, ring`prev
      ensures Valid() && fresh(e) && ring == old(ring)[..p] + [e] + old(ring)[p..]
      ensures Items() == Put(old(Items()), i, v) && e in ring[1..]
    {
      hide Position, Linked, ItemsOf, Has, Sorted, Put, MaxIndex, Distinct;
      ghost var s := Items();
      PositionIs(s, i, p - 1);
      NotAt(s, i, v, p - 1);
      PutSorted(s, i, v);
      e := new Element(i, v);
      AddBefore(ae, e, p);
      if i > maxIndex { maxIndex := i; }
      numElements := numElements + 1;
      assert ring[p] == e;
    }

    // The value of the element at position p was replaced.
    lemma ItemReplaced(s: seq<Item>, i: int, v: Option<string>, p: nat)
      requires ring != [] && 0 < p < |ring| && |s| == |ring| - 1
      requires forall k :: 0 <= k < |s| && k != p - 1 ==> s[k] == ItemOf(ring[k + 1])
      requires ItemOf(ring[p]) == Item(i, v) && Has(s, i) && Position(s, i) == p - 1
      ensures Items() == Put(s, i, v)
    {
      hide ItemsOf, Has, Position;
      assert |Items()| == |Put(s, i, v)|;
    }

    // The element at position p is unhooked.
    method Unlink(ae: Element, ghost p: nat)
      requires Shape() && 0 < p < |ring| && ae == ring[p]
      modifies this`ring, ring`next, ring`prev
      ensures Shape() && ring == old(ring)[..p] + old(ring)[p + 1..]
      ensures ItemsOf(ring) == old(Items())[..p - 1] + old(Items())[p..]
      ensures ae !in ring && ae.prev == old(ring)[p - 1]
    {
      hide ItemsOf;
      ghost var r := ring;
      assert ae.next == if p < |r| - 1 then r[p + 1] else r[0];
      assert ae.prev == r[p - 1];
      ae.next.prev := ae.prev;
      ae.prev.next := ae.next;
      ring := r[..p] + r[p + 1..];
      Unhooked(r, p);
      UnhookedItems(r, p);
    }
  }

  // A ring into which e was hooked at p.
  lemma Spliced(r: seq<Element>, p: nat, e: Element)
    requires 0 < p <= |r| && Distinct(r) && e !in r
    requires forall k :: 0 <= k < |r| - 1 && k != p - 1 ==> r[k].next == r[k + 1]
    requires forall k :: 0 < k < |r| && k != p ==> r[k].prev == r[k - 1]
    requires r[p - 1].next == e && e.prev == r[p - 1]
    requires p < |r| ==> e.next == r[p] && r[p].prev == e && r[|r| - 1].next == r[0] && r[0].prev == r[|r| - 1]
    requires p == |r| ==> e.next == r[0] && r[0].prev == e
    ensures Linked(r[..p] + [e] + r[p..])
  {
    var t := r[..p] + [e] + r[p..];
    forall k | 0 <= k < |t| - 1
      ensures t[k].next == t[k + 1]
    {
      if k < p - 1 { assert t[k] == r[k] && t[k + 1] == r[k + 1]; }
      else if k > p { assert t[k] == r[k - 1] && t[k + 1] == r[k]; }
    }
    forall k | 0 < k < |t|
      ensures t[k].prev == t[k - 1]
    {
      if k < p { assert t[k] == r[k] && t[k - 1] == r[k - 1]; }
      else if k > p + 1 { assert t[k] == r[k - 1] && t[k - 1] == r[k - 2]; }
    }
    forall i, j | 0 <= i < j < |t|
      ensures t[i] != t[j]
    {
      DistinctAt(r, p, e, i, j);
    }
  }

  lemma DistinctAt(r: seq<Element>, p: nat, e: Element, i: nat, j: nat)
    requires 0 < p <= |r| && Distinct(r) && e !in r && i < j <= |r|
    ensures var t := r[..p] + [e] + r[p..]; t[i] != t[j]
  {
    var t := r[..p] + [e] + r[p..];
    assert t[i] == if i < p then r[i] else if i == p then e else r[i - 1];
    assert t[j] == if j < p then r[j] else if j == p then e else r[j - 1];
  }

  lemma SplicedItems(r: seq<Element>, p: nat, e: Element)
    requires 0 < p <= |r|
    ensures ItemsOf(r[..p] + [e] + r[p..]) == ItemsOf(r)[..p - 1] + [ItemOf(e)] + ItemsOf(r)[p - 1..]
  {
    hide ItemsOf;
    var t, s := r[..p] + [e] + r[p..], ItemsOf(r);
    var u, v := ItemsOf(t), s[..p - 1] + [ItemOf(e)] + s[p - 1..];
    assert |u| == |v|;
    forall k | 0 <= k < |u|
      ensures u[k] == v[k]
    {
      assert u[k] == ItemOf(t[k + 1]);
      if k + 1 < p {
        assert t[k + 1] == r[k + 1] && v[k] == s[k];
      } else if k + 1 == p {
        assert t[k + 1] == e && v[k] == ItemOf(e);
      } else {
        assert t[k + 1] == r[k] && v[k] == s[k - 1];
      }
    }
  }

  // A ring from which the element at p was unhooked.
  lemma Unhooked(r: seq<Element>, p: nat)
    requires 0 < p < |r| && Distinct(r)
    requires forall k :: 0 <= k < |r| - 1 && k != p - 1 && k != p ==> r[k].next == r[k + 1]
    requires forall k :: 0 < k < |r| && k != p && k != p + 1 ==> r[k].prev == r[k - 1]
    requires p < |r| - 1 ==>
               && r[p - 1].next == r[p + 1] && r[p + 1].prev == r[p - 1]
               && r[|r| - 1].next == r[0] && r[0].prev == r[|r| - 1]
    requires p == |r| - 1 ==> r[p - 1].next == r[0] && r[0].prev == r[p - 1]
    ensures Linked(r[..p] + r[p + 1..]) && r[p] !in r[..p] + r[p + 1..]
  {
    var t := r[..p] + r[p + 1..];
    forall k | 0 <= k < |t| - 1
      ensures t[k].next == t[k + 1]
    {
      if k < p - 1 { assert t[k] == r[k] && t[k + 1] == r[k + 1]; }
      else if k >= p { assert t[k] == r[k + 1] && t[k + 1] == r[k + 2]; }
    }
    forall k | 0 < k < |t|
      ensures t[k].prev == t[k - 1]
    {
      if k < p { assert t[k] == r[k] && t[k - 1] == r[k - 1]; }
      else if k > p { assert t[k] == r[k + 1] && t[k - 1] == r[k]; }
    }
    forall i, j | 0 <= i < j < |t|
      ensures t[i] != t[j]
    {
      assert t[i] == (if i < p then r[i] else r[i + 1]) && t[j] == if j < p then r[j] else r[j + 1];
    }
  }

  lemma UnhookedItems(r: seq<Element>, p: nat)
    requires 0 < p < |r|
    ensures ItemsOf(r[..p] + r[p + 1..]) == ItemsOf(r)[..p - 1] + ItemsOf(r)[p..]
  {
    hide ItemsOf;
    var t, s := r[..p] + r[p + 1..], ItemsOf(r);
    var u, v := ItemsOf(t), s[..p - 1] + s[p..];
    assert |u| == |v|;
    forall k | 0 <= k < |u|
      ensures u[k] == v[k]
    {
      assert u[k] == ItemOf(t[k + 1]);
      assert t[k + 1] == if k + 1 < p then r[k + 1] else r[k + 2];
      assert v[k] == if k + 1 < p then s[k] else s[k + 1];
    }
  }

  // A chain that ends in null, as array_shift returns it.
  ghost predicate Closed(r: seq<Element>)
    reads r`next
  {
    r != [] ==> r[|r| - 1].next == null && forall k :: 0 <= k < |r| - 1 ==> r[k].next == r[k + 1]
  }

  lemma Recut(r: seq<Element>, p: nat)
    requires 1 < p < |r| && Distinct(r)
    requires forall k :: p <= k < |r| - 1 ==> r[k].next == r[k + 1]
    requires forall k :: p < k < |r| ==> r[k].prev == r[k - 1]
    requires r[0].next == r[p] && r[p].prev == r[0] && r[|r| - 1].next == r[0] && r[0].prev == r[|r| - 1]
    ensures Linked([r[0]] + r[p..])
  {
    var t := [r[0]] + r[p..];
    forall k | 0 <= k < |t| - 1
      ensures t[k].next == t[k + 1]
    {
      if k > 0 { assert t[k] == r[k + p - 1] && t[k + 1] == r[k + p]; }
    }
    forall k | 0 < k < |t|
      ensures t[k].prev == t[k - 1]
    {
      if k > 1 { assert t[k] == r[k + p - 1] && t[k - 1] == r[k + p - 2]; }
    }
    forall i, j | 0 <= i < j < |t|
      ensures t[i] != t[j]
    {
      assert t[i] == (if i == 0 then r[0] else r[i + p - 1]) && t[j] == r[j + p - 1];
    }
  }

  lemma CutItems(r: seq<Element>, p: nat)
    requires 1 < p < |r|
    ensures ItemsOf([r[0]] + r[p..]) == ItemsOf(r)[p - 1..]
  {
    hide ItemsOf;
    var t, s := [r[0]] + r[p..], ItemsOf(r);
    var u := ItemsOf(t);
    forall k | 0 <= k < |u|
      ensures u[k] == s[p - 1..][k]
    {
      assert u[k] == ItemOf(t[k + 1]) && t[k + 1] == r[k + p] && s[k + p - 1] == ItemOf(r[k + p]);
    }
    assert |u| == |s[p - 1..]|;
  }

  lemma NotThere(s: seq<Item>, i: int)
    requires forall k :: 0 <= k < |s| ==> s[k].ind != i
    ensures !Has(s, i) && Lookup(s, i) == None
  {
    hide Position;
  }

  // ------------------------------------------------------------ the arrays

  // All arrays, with lastarray and lastref.
  class Arrays {
    var lastarray: Array?
    var lastref: Element?

    constructor ()
      ensures Cached()
    {
      lastarray, lastref := null, null;
    }

    // lastref is null or an element of lastarray.
    ghost predicate Cached()
      reads this, if lastarray == null then {} else {lastarray}
    {
      lastref != null ==> lastarray != null && |lastarray.ring| > 0 && lastref in lastarray.ring[1..]
    }

    method InvalidateLastref(a: Array)
      modifies this
      ensures old(lastarray) == a ==> lastarray == null && lastref == null
      ensures old(lastarray) != a ==> lastarray == old(lastarray) && lastref == old(lastref)
    {
      if a == lastarray { lastarray, lastref := null, null; }
    }

    // Where array_reference starts: at the roving pointer if it can.
    method Start(a: Array, i: int) returns (ae: Element, ghost k: nat)
      requires a.Valid() && Cached()
      ensures 1 <= k <= |a.ring| && ae == (if k < |a.ring| then a.ring[k] else a.head)
      ensures forall j :: 0 <= j < k - 1 ==> a.Items()[j].ind != i
    {
      hide ItemsOf;
      a.Step(0);
      k := 1;
      if lastref != null && lastarray == a && i >= lastref.ind {
        ae := lastref;
        k :| 1 <= k < |a.ring| && a.ring[k] == lastref;
        assert a.Items()[k - 1].ind == lastref.ind;
        return;
      }
      ae := a.head.next;
    }

    // array_reference
    method Reference(a: Array, i: int) returns (v: Option<string>)
      requires a.Valid() && Cached()
      modifies this
      ensures Cached() && v == Lookup(a.Items(), i)
    {
      hide Position, Linked, ItemsOf, Has, Lookup;
      ghost var s := a.Items();
      if a.numElements == 0 || i > a.maxIndex {
        NotThere(s, i);
        return None;
      }
      var ae, k := Start(a, i);
      assert a.Items() == s;
      while ae != a.head
        invariant 1 <= k <= |a.ring| && ae == (if k < |a.ring| then a.ring[k] else a.head)
        invariant forall j :: 0 <= j < k - 1 ==> s[j].ind != i
        decreases |a.ring| - k
      {
        a.Step(k);
        assert s[k - 1] == ItemOf(ae);
        if ae.ind == i {
          lastarray, lastref := a, ae;
          HasAt(s, k - 1);
          return ae.value;
        }
        ae := ae.next;
        k := k + 1;
      }
      if k < |a.ring| { a.Step(k); }
      lastarray, lastref := null, null;
      NotThere(s, i);
      v := None;
    }

    method SetLastref(a: Array, e: Element)
      requires |a.ring| > 0 && e in a.ring[1..]
      modifies this
      ensures Cached() && lastarray == a && lastref == e
    {
      lastarray, lastref := a, e;
    }

    // The search loop of array_insert: the first element with an index of at
    // least i, or the head.
    method SeekAtLeast(a: Array, i: int) returns (ae: Element, ghost k: nat)
      requires a.Valid()
      ensures 1 <= k <= |a.ring| && ae == (if k < |a.ring| then a.ring[k] else a.head)
      ensures forall j :: 0 <= j < k - 1 ==> a.Items()[j].ind < i
      ensures k < |a.ring| ==> a.Items()[k - 1] == ItemOf(ae) && ae != a.head && ae.ind >= i
    {
      hide Linked, ItemsOf;
      a.Step(0);
      ae := a.head.next;
      k := 1;
      if k < |a.ring| { a.Step(k); }
      while ae != a.head && ae.ind < i
        invariant 1 <= k <= |a.ring| && ae == (if k < |a.ring| then a.ring[k] else a.head)
        invariant k < |a.ring| ==> ae != a.head
        invariant forall j :: 0 <= j < k - 1 ==> a.Items()[j].ind < i
        decreases |a.ring| - k
      {
        a.Step(k);
        assert a.Items()[k - 1] == ItemOf(ae);
        ae := ae.next;
        k := k + 1;
        if k < |a.ring| { a.Step(k); }
      }
    }

    // The search loop of array_remove: the element with index i, or the head.
    method Seek(a: Array, i: int) returns (ae: Element, ghost k: nat)
      requires a.Valid()
      ensures 1 <= k <= |a.ring| && ae == (if k < |a.ring| then a.ring[k] else a.head)
      ensures forall j :: 0 <= j < k - 1 ==> a.Items()[j].ind != i
      ensures k < |a.ring| ==> a.Items()[k - 1] == ItemOf(ae) && ae != a.head && ae.ind == i
    {
      hide Linked, ItemsOf;
      a.Step(0);
      ae := a.head.next;
      k := 1;
      if k < |a.ring| { a.Step(k); }
      while ae != a.head && ae.ind != i
        invariant 1 <= k <= |a.ring| && ae == (if k < |a.ring| then a.ring[k] else a.head)
        invariant k < |a.ring| ==> ae != a.head
        invariant forall j :: 0 <= j < k - 1 ==> a.Items()[j].ind != i
        decreases |a.ring| - k
      {
        a.Step(k);
        assert a.Items()[k - 1] == ItemOf(ae);
        ae := ae.next;
        k := k + 1;
        if k < |a.ring| { a.Step(k); }
      }
    }

    // array_insert.  It only fails for a negative index in an empty array.
    method Insert(a: Array, i: int, v: Option<string>) returns (r: int)
      requires a.Valid() && Cached()
      modifies this, a, a.ring
      ensures a.Valid() && Cached() && fresh(set e | e in a.ring && e !in old(a.ring))
      ensures r == (if old(a.Items()) == [] && i < 0 then -1 else 0)
      ensures a.Items() == if r == 0 then Put(old(a.Items()), i, v) else old(a.Items())
    {
      hide Position, Linked, ItemsOf, Put, Has;
      ghost var s := a.Items();
      if i > a.maxIndex {
        InsertAt(a, a.head, i, v, |a.ring|);
        return 0;
      }
      var ae, k := SeekAtLeast(a, i);
      if ae == a.head {
        assert k == |s| + 1;
        InvalidateLastref(a);
        return -1;
      }
      if ae.ind == i {
        ReplaceAt(a, ae, i, v, k);
      } else {
        InsertAt(a, ae, i, v, k);
      }
      r := 0;
    }

    // A new element before ae, at position p.
    method InsertAt(a: Array, ae: Element, i: int, v: Option<string>, ghost p: nat)
      requires a.Valid() && Cached() && 0 < p <= |a.ring|
      requires ae == (if p < |a.ring| then a.ring[p] else a.head)
      requires forall j :: 0 <= j < p - 1 ==> a.Items()[j].ind < i
      requires p < |a.ring| ==> a.Items()[p - 1].ind > i
      requires p == |a.ring| <==> i > a.maxIndex
      modifies this, a, a.ring
      ensures a.Valid() && Cached() && fresh(set e | e in a.ring && e !in old(a.ring))
      ensures a.Items() == Put(old(a.Items()), i, v)
    {
      hide Position, Linked, ItemsOf, Has, Sorted, Put, MaxIndex, Distinct, Array.Valid;
      var e := a.InsertNode(ae, i, v, p);
      SetLastref(a, e);
    }

    method ReplaceAt(a: Array, ae: Element, i: int, v: Option<string>, ghost p: nat)
      requires a.Valid() && Cached() && 0 < p < |a.ring| && ae == a.ring[p] && ae.ind == i
      modifies this, ae
      ensures a.Valid() && Cached() && a.ring == old(a.ring)
      ensures a.Items() == Put(old(a.Items()), i, v)
    {
      hide Position, Linked, ItemsOf, Has, Sorted;
      ghost var s := a.Items();
      HasAt(s, p - 1);
      PutSorted(s, i, v);
      assert Distinct(a.ring) by { a.Apart(); }
      ae.value := v;
      a.ItemReplaced(s, i, v, p);
      SetLastref(a, ae);
    }

    // array_remove
    method Remove(a: Array, i: int) returns (r: Element?)
      requires a.Valid() && Cached()
      modifies this, a, a.ring`next, a.ring`prev
      ensures a.Valid() && Cached() && (forall e :: e in a.ring ==> e in old(a.ring))
      ensures a.Items() == Delete(old(a.Items()), i)
      ensures r != null <==> Has(old(a.Items()), i)
      ensures r != null ==> r in old(a.ring) && r !in a.ring && r.ind == i && r.value == Lookup(old(a.Items()), i)
    {
      hide Position, Linked, ItemsOf, Has, Sorted, Delete, Lookup;
      ghost var s := a.Items();
      r := null;
      if a.numElements == 0 {
        NotThere(s, i);
        NothingDeleted(s, i);
        return;
      }
      var ae, k := Seek(a, i);
      assert a.Items() == s;
      if ae == a.head {
        assert k == |s| + 1;
        NotThere(s, i);
        NothingDeleted(s, i);
        return;
      }
      a.RemoveNode(ae, i, k);
      InvalidateLastref(a);
      r := ae;
    }

    // array_flush
    method Flush(a: Array)
      requires a.Valid() && Cached()
      modifies this, a, a.head
      ensures a.Valid() && Cached() && a.Items() == [] && a.ring == [a.head]
    {
      a.Empty();
      InvalidateLastref(a);
    }

    // array_copy: equal contents in fresh elements.
    method Copy(a: Array) returns (c: Array)
      requires a.Valid() && Cached()
      ensures c.Valid() && c.Items() == a.Items() && fresh(c) && fresh(c.ring)
    {
      hide Linked, ItemsOf, Sorted, MaxIndex, Distinct;
      c := new Array();
      a.Step(0);
      var ae := a.head.next;
      ghost var k := 1;
      ghost var s := a.Items();
      while ae != a.head
        invariant 1 <= k <= |a.ring| && ae == (if k < |a.ring| then a.ring[k] else a.head)
        invariant c.Shape() && fresh(c) && fresh(c.ring) && c.Items() == s[..k - 1]
        decreases |a.ring| - k
      {
        a.Step(k);
        assert s[k - 1] == ItemOf(ae) && s[..k] == s[..k - 1] + [s[k - 1]];
        c.Append(ae.ind, ae.value);
        ae := ae.next;
        k := k + 1;
      }
      if k < |a.ring| { a.Step(k); }
      c.maxIndex, c.numElements := a.maxIndex, a.numElements;
      assert s[..|s|] == s;
    }

    // array_rshift
    method Rshift(a: Array, n: int, v: Option<string>) returns (count: int)
      requires a.Valid() && Cached()
      modifies this, a, a.ring
      ensures a.Shape() && a.numElements == |a.Items()| && a.maxIndex == MaxIndex(a.Items())
      ensures a.Valid() <==> n <= 0 || v.None? || old(a.Items()) == [] || old(a.Items())[0].ind + n > 0
      ensures Cached() && fresh(set e | e in a.ring && e !in old(a.ring))
      ensures a.Items() ==
              if n <= 0 || (old(a.Items()) == [] && v.None?) then old(a.Items()) else ShiftedRight(old(a.Items()), n, v)
      ensures count == |a.Items()|
    {
      hide Linked, ItemsOf, Sorted, Natural, ShiftedRight;
      ghost var s := a.Items();
      if a.numElements == 0 && v.None? { return 0; }
      if n <= 0 { return a.numElements; }
      RightIsSorted(s, n, v);
      a.Step(0);
      if v.Some? {
        a.MoveUpInto(n, v);
        if a.numElements == 1 { return 1; }
      } else {
        a.MoveUp(n);
      }
      InvalidateLastref(a);
      count := a.numElements;
    }

    // array_shift
    method Shift(a: Array, n: int, dispose: bool) returns (r: Element?)
      requires a.Valid() && Cached()
      modifies this, a, a.ring
      ensures a.Valid() && Cached() && forall e :: e in a.ring ==> e in old(a.ring)
      ensures a.Items() == if n <= 0 then old(a.Items()) else ShiftedLeft(old(a.Items()), n)
      ensures dispose || n <= 0 || old(a.Items()) == [] <==> r == null
      ensures r != null ==>
                var m := if n < |old(a.Items())| then n else |old(a.Items())|;
                r == old(a.ring)[1] && Closed(old(a.ring)[1..m + 1])
    {
      hide Linked, ItemsOf, Sorted, Closed, MaxIndex, Distinct, Array.Valid, Array.Shape, ShiftedLeft;
      a.Basics();
      ghost var s := a.Items();
      if a.numElements == 0 || n <= 0 {
        if n > 0 { AllShifted(s, n); }
        return null;
      }
      InvalidateLastref(a);
      var ae, k := Walk(a, n);
      if ae == a.head {
        ghost var ring := a.ring;
        WholeTail(ring);
        AllShifted(s, n);
        r := CutAll(a, dispose);
        return;
      }
      r := a.DropFront(ae, n);
      if dispose { r := null; }
    }

    // n steps from the first element, or to the head.
    method Walk(a: Array, n: int) returns (ae: Element, ghost k: nat)
      requires a.Valid() && n > 0 && a.Items() != []
      ensures k == (if n < |a.Items()| then n else |a.Items()|) + 1
      ensures ae == (if k < |a.ring| then a.ring[k] else a.head)
      ensures k < |a.ring| ==> ae != a.head
    {
      hide Linked, ItemsOf;
      a.Step(0);
      a.Step(1);
      ae := a.head.next;
      k := 1;
      var i := 0;
      while ae != a.head && i < n
        invariant 1 <= k <= |a.ring| && ae == (if k < |a.ring| then a.ring[k] else a.head)
        invariant k < |a.ring| ==> ae != a.head
        invariant 0 <= i <= n && k == i + 1
        decreases |a.ring| - k
      {
        a.Step(k);
        ae := ae.next;
        k := k + 1;
        i := i + 1;
        if k < |a.ring| { a.Step(k); }
      }
    }

    // All elements go: freed, or closed by null and returned.
    method CutAll(a: Array, dispose: bool) returns (r: Element?)
      requires a.Valid() && a.Items() != [] && Cached() && lastarray != a
      modifies this, a, a.ring`next, a.ring`prev
      ensures a.Valid() && Cached() && a.Items() == [] && a.ring == [a.head]
      ensures dispose <==> r == null
      ensures r != null ==> r == old(a.ring)[1] && Closed(old(a.ring)[1..])
    {
      hide ItemsOf, Sorted;
      ghost var ring := a.ring;
      if dispose {
        a.Empty();
        return null;
      }
      a.Step(0);
      r := a.head.next;
      var ae := r;
      ghost var k := 1;
      a.Step(1);
      while ae.next != a.head
        invariant 1 <= k < |a.ring| && ae == a.ring[k] && a.ring == ring && a.Shape()
        invariant ae.next == (if k + 1 < |a.ring| then a.ring[k + 1] else a.head)
        modifies {}
        decreases |a.ring| - k
      {
        a.Step(k + 1);
        ae := ae.next;
        k := k + 1;
      }
      ae.next := null;
      assert forall j :: 0 <= j < |ring| - 2 ==> ring[1..][j] == ring[j + 1];
      a.Empty();
    }

    // array_push and array_pop
    method Push(a: Array, v: string)
      requires a.Valid() && Cached()
      modifies this, a, a.ring
      ensures a.Shape() && Cached() && fresh(set e | e in a.ring && e !in old(a.ring))
      ensures a.Valid() <==> old(a.Items()) == [] || old(a.Items())[0].ind >= 0
      ensures Natural(old(a.Items())) ==> a.Valid() && Natural(a.Items())
      ensures a.Items() == ShiftedRight(old(a.Items()), 1, Some(v))
    {
      if Natural(a.Items()) { ShiftedRightStaysNatural(a.Items(), 1, Some(v)); }
      var _ := Rshift(a, 1, Some(v));
    }

    method Pop(a: Array)
      requires a.Valid() && Cached()
      modifies this, a, a.ring
      ensures a.Valid() && Cached() && (Natural(old(a.Items())) ==> Natural(a.Items()))
      ensures a.Items() == ShiftedLeft(old(a.Items()), 1)
    {
      if Natural(a.Items()) { ShiftedLeftStaysNatural(a.Items(), 1); }
      var _ := Shift(a, 1, false);
    }
  }

  lemma WholeTail(r: seq<Element>)
    requires r != []
    ensures r[1..] == r[1..|r|]
  {
  }

  lemma BehindHead(r: seq<Element>, e: Element)
    requires r != []
    ensures r[..1] + [e] + r[1..] == [r[0], e] + r[1..]
  {
  }

  lemma InFront(s: seq<Item>, x: Item)
    ensures s[..0] + [x] + s[0..] == [x] + s
  {
  }

  lemma OneItem(s: seq<Item>, n: nat, v: Option<string>)
    requires s == [] && v.Some?
    ensures ShiftedRight(s, n, v) == [Item(0, v)] && MaxIndex([Item(0, v)]) == 0
  {
  }

  lemma AllShifted(s: seq<Item>, n: nat)
    requires n >= |s|
    ensures ShiftedLeft(s, n) == []
  {
  }

  lemma ShiftedSorted(s: seq<Item>, n: nat)
    requires Sorted(s)
    ensures Sorted(ShiftedLeft(s, n))
  {
  }

  lemma NotAt(s: seq<Item>, i: int, v: Option<string>, k: nat)
    requires Sorted(s) && Position(s, i) == k && (k < |s| ==> s[k].ind != i)
    ensures Put(s, i, v) == s[..k] + [Item(i, v)] + s[k..]
    ensures MaxIndex(Put(s, i, v)) == if k == |s| then i else MaxIndex(s)
  {
  }

  lemma MaxDeleted(s: seq<Item>, i: int, k: nat)
    requires Sorted(s) && k < |s| && Has(s, i) && Position(s, i) == k
    ensures MaxIndex(Delete(s, i)) ==
            if i == MaxIndex(s) then (if k == 0 then -1 else s[k - 1].ind) else MaxIndex(s)
  {
    hide Position;
  }

  lemma DeleteIs(s: seq<Item>, i: int, k: nat)
    requires k < |s| && Has(s, i) && Position(s, i) == k
    ensures Delete(s, i) == s[..k] + s[k + 1..] && |Delete(s, i)| == |s| - 1
  {
  }

  lemma NothingDeleted(s: seq<Item>, i: int)
    requires !Has(s, i)
    ensures Delete(s, i) == s
  {
  }
}