// Runs of operations on any number of sparse arrays, which share the one
// roving pointer.

module SparseArrayRuns {
  import opened Options
  import opened SparseItems
  import opened SparseArrays

  datatype Op = Refer(i: int) | Store(at: nat, v: Option<string>) | Drop(i: int)
    | Left(n: int) | Right(n: int, v: Option<string>) | Clear

  function Applied(s: seq<Item>, op: Op): seq<Item> {
    match op
    case Refer(_) => s
    case Store(i, v) => Put(s, i, v)
    case Drop(i) => Delete(s, i)
    case Left(n) => if n <= 0 then s else ShiftedLeft(s, n)
    case Right(n, v) => if n <= 0 || (s == [] && v.None?) then s else ShiftedRight(s, n, v)
    case Clear => []
  }

  function Answer(s: seq<Item>, op: Op): Option<string> { if op.Refer? then Lookup(s, op.i) else None }

  lemma AppliedNatural(s: seq<Item>, op: Op)
    requires Sorted(s) && Natural(s)
    ensures Natural(Applied(s, op)) && (s != [] ==> s[0].ind >= 0)
  {
    hide Put, Delete, ShiftedLeft, ShiftedRight, Sorted;
    match op
    case Refer(_) =>
    case Store(i, v) => PutSorted(s, i, v);
    case Drop(i) => DeleteSorted(s, i);
    case Left(n) => if n > 0 { ShiftedLeftStaysNatural(s, n); }
    case Right(n, v) => if n > 0 { ShiftedRightStaysNatural(s, n, v); }
    case Clear =>
  }

  // What is stored under an index, if it is in use.
  function Find(s: seq<Item>, x: int): Option<Option<string>> { if Has(s, x) then Some(Lookup(s, x)) else None }

  // The same after an operation: a shift to the left drops the first n elements,
  // one to the right may bring a new element 0, and a count that is not positive
  // changes nothing.
  function Found(s: seq<Item>, op: Op, x: int): Option<Option<string>> {
    match op
    case Refer(_) => Find(s, x)
    case Store(i, v) => if x == i then Some(v) else Find(s, x)
    case Drop(i) => if x == i then None else Find(s, x)
    case Left(n) =>
      if n <= 0 then Find(s, x)
      else if n < |s| && x + n >= s[n].ind then Find(s, x + n)
      else None
    case Right(n, v) =>
      if n <= 0 then Find(s, x)
      else if v.Some? && x == 0 then Some(v)
      else Find(s, x - n)
    case Clear => None
  }

  lemma AppliedIs(s: seq<Item>, op: Op, x: int)
    requires Sorted(s) && Natural(s)
    ensures Find(Applied(s, op), x) == Found(s, op, x)
    ensures Answer(s, op) == if op.Refer? && Find(s, op.i).Some? then Find(s, op.i).value else None
  {
    hide Put, Delete, ShiftedLeft, ShiftedRight, Sorted, Has, Lookup, Natural;
    match op
    case Refer(i) => HasIs(s, i);
    case Store(i, v) => PutLookup(s, i, v, x);
    case Drop(i) => DeleteLookup(s, i, x);
    case Left(n) => if n > 0 { ShiftedLeftLookup(s, n, x); }
    case Right(n, v) =>
      if n > 0 {
        ShiftedRightStaysNatural(s, n, v);
        if s == [] && v.None? { HasIs(s, x - n); HasIs(s, x); } else { ShiftedRightLookup(s, n, v, x); }
      }
    case Clear => NothingIn(x);
  }

  lemma NothingIn(x: int)
    ensures !Has([], x)
  {
  }

  // Operations on many arrays: who is meant, and what is done.
  function AllApplied(m: seq<seq<Item>>, ops: seq<(nat, Op)>): (r: seq<seq<Item>>)
    ensures |r| == |m|
  {
    if ops == [] then m
    else
      var r, (k, op) := AllApplied(m, ops[..|ops| - 1]), ops[|ops| - 1];
      if k < |r| then r[k := Applied(r[k], op)] else r
  }

  function Answers(m: seq<seq<Item>>, ops: seq<(nat, Op)>): seq<Option<string>> {
    if ops == [] then []
    else
      var r, (k, op) := AllApplied(m, ops[..|ops| - 1]), ops[|ops| - 1];
      Answers(m, ops[..|ops| - 1]) + [if k < |r| then Answer(r[k], op) else None]
  }

  lemma NothingApplied(m: seq<seq<Item>>)
    ensures AllApplied(m, []) == m && Answers(m, []) == []
  {
  }

  lemma NextApplied(m: seq<seq<Item>>, ops: seq<(nat, Op)>, n: nat)
    requires n < |ops| && ops[n].0 < |AllApplied(m, ops[..n])|
    ensures var r, k := AllApplied(m, ops[..n]), ops[n].0;
      && AllApplied(m, ops[..n + 1]) == r[k := Applied(r[k], ops[n].1)]
      && Answers(m, ops[..n + 1]) == Answers(m, ops[..n]) + [Answer(r[k], ops[n].1)]
  {
    hide Applied, Answer;
    assert ops[..n + 1][..n] == ops[..n];
  }

  // Different arrays with no element in common, made of the elements in `all',
  // and what they hold.
  ghost predicate Holds(arrays: seq<Array>, m: seq<seq<Item>>, all: set<Element>)
    reads arrays, all
  {
    && |m| == |arrays|
    && (forall k :: 0 <= k < |arrays| ==> forall e :: e in arrays[k].ring ==> e in all)
    && (forall k :: 0 <= k < |arrays| ==> Holding(arrays[k], m[k]))
    && (forall j, k :: 0 <= j < |arrays| && 0 <= k < |arrays| && j != k ==> Apart(arrays[j], arrays[k]))
  }

  ghost predicate Holding(a: Array, s: seq<Item>)
    reads a, a.ring
  {
    a.Valid() && a.Items() == s && Natural(s)
  }

  ghost predicate Apart(a: Array, b: Array)
    reads a`ring, b`ring
  {
    a != b && forall e :: e in a.ring ==> e !in b.ring
  }

  lemma OthersApart(arrays: seq<Array>, m: seq<seq<Item>>, all: set<Element>, k: nat)
    requires Holds(arrays, m, all) && k < |arrays|
    ensures |m| == |arrays| && arrays[k].Valid() && arrays[k].Items() == m[k] && Natural(m[k])
    ensures forall j :: 0 <= j < |arrays| ==> Holding(arrays[j], m[j])
    ensures forall j :: 0 <= j < |arrays| && j != k ==> arrays[j] != arrays[k]
    ensures forall e :: e in arrays[k].ring ==> e in all
    ensures forall j, i :: 0 <= j < |arrays| && j != k && 0 <= i < |arrays[j].ring| ==>
              arrays[j].ring[i] in arrays[j].ring && arrays[j].ring[i] !in arrays[k].ring
  {
    hide Array.Valid, Array.Items, Natural;
  }

  lemma Held(a: Array)
    requires a.Valid()
    ensures a.ring != []
  {
  }

  lemma NowHolding(a: Array)
    requires a.Valid() && a.ring != [] && Natural(a.Items())
    ensures Holding(a, a.Items())
  {
  }

  ghost function Rings(arrays: seq<Array>): (r: seq<seq<Element>>)
    reads arrays
    ensures |r| == |arrays| && forall k :: 0 <= k < |arrays| ==> r[k] == arrays[k].ring
  {
    seq(|arrays|, k requires 0 <= k < |arrays| reads arrays => arrays[k].ring)
  }

  ghost predicate Separate(rings: seq<seq<Element>>, all: set<Element>) {
    && (forall k :: 0 <= k < |rings| ==> forall e :: e in rings[k] ==> e in all)
    && (forall j, k :: 0 <= j < |rings| && 0 <= k < |rings| && j != k ==> forall e :: e in rings[j] ==> e !in rings[k])
  }

  lemma RingsOf(arrays: seq<Array>, m: seq<seq<Item>>, all: set<Element>)
    requires Holds(arrays, m, all)
    ensures Separate(Rings(arrays), all)
    ensures forall j, k :: 0 <= j < |arrays| && 0 <= k < |arrays| && j != k ==> arrays[j] != arrays[k]
  {
    hide Holding;
    forall j, k | 0 <= j < |arrays| && 0 <= k < |arrays| && j != k
      ensures forall e :: e in Rings(arrays)[j] ==> e !in Rings(arrays)[k]
    {
      assert Apart(arrays[j], arrays[k]);
    }
  }

  lemma HoldAgain(arrays: seq<Array>, m: seq<seq<Item>>, all: set<Element>, now: set<Element>, k: nat, s: seq<Item>,
                  rings: seq<seq<Element>>)
    requires |rings| == |m| == |arrays| && Separate(rings, all) && k < |arrays| && Holding(arrays[k], s)
    requires forall i, j :: 0 <= i < |arrays| && 0 <= j < |arrays| && i != j ==> arrays[i] != arrays[j]
    requires forall j :: 0 <= j < |arrays| && j != k ==> Holding(arrays[j], m[j])
    requires forall j :: 0 <= j < |arrays| && j != k ==> arrays[j].ring == rings[j]
    requires forall e :: e in arrays[k].ring ==> e in rings[k] || e !in all
    requires now == all + (set e | e in arrays[k].ring)
    ensures Holds(arrays, m[k := s], now)
  {
    hide Holding;
    forall i, j | 0 <= i < |arrays| && 0 <= j < |arrays| && i != j
      ensures Apart(arrays[i], arrays[j])
    {
    }
  }

  lemma HoldsAll(arrays: seq<Array>, m: seq<seq<Item>>, all: set<Element>)
    requires Holds(arrays, m, all)
    ensures |m| == |arrays| && forall k :: 0 <= k < |arrays| ==> forall e :: e in arrays[k].ring ==> e in all
  {
  }

  // One operation on one array.
  method Perform(cache: Arrays, a: Array, op: Op) returns (answer: Option<string>)
    requires a.Valid() && cache.Cached() && Natural(a.Items())
    modifies cache, a, a.ring
    ensures a.Valid() && cache.Cached() && Natural(a.Items()) && forall e :: e in a.ring ==> e in old(a.ring) || fresh(e)
    ensures a.Items() == Applied(old(a.Items()), op) && answer == Answer(old(a.Items()), op)
  {
    hide Linked, ItemsOf, Sorted, Natural, Put, Delete, ShiftedLeft, ShiftedRight, Lookup, MaxIndex;
    ghost var s := a.Items();
    AppliedNatural(s, op);
    answer := None;
    match op
    case Refer(i) => answer := cache.Reference(a, i);
    case Store(i, v) =>
      var _ := cache.Insert(a, i, v);
    case Drop(i) =>
      var _ := cache.Remove(a, i);
    case Left(n) =>
      var _ := cache.Shift(a, n, true);
    case Right(n, v) =>
      var _ := cache.Rshift(a, n, v);
    case Clear => cache.Flush(a);
  }

  // Any interleaving of operations on any arrays: each array is the list that
  // its operations make, whatever was done to the others in between and
  // wherever the roving pointer stands.
  method Run(cache: Arrays, arrays: seq<Array>, ops: seq<(nat, Op)>, ghost m: seq<seq<Item>>, ghost all: set<Element>)
    returns (answers: seq<Option<string>>, ghost now: set<Element>)
    requires Holds(arrays, m, all) && cache.Cached() && forall n :: 0 <= n < |ops| ==> ops[n].0 < |arrays|
    modifies cache, arrays, all
    ensures cache.Cached() && Holds(arrays, AllApplied(m, ops), now) && fresh(now - all)
    ensures answers == Answers(m, ops)
  {
    hide Holds, Applied, Answer, AllApplied, Answers;
    answers, now := [], all;
    NothingApplied(m);
    var n := 0;
    while n < |ops|
      invariant 0 <= n <= |ops| && cache.Cached() && Holds(arrays, AllApplied(m, ops[..n]), now) && fresh(now - all)
      invariant answers == Answers(m, ops[..n])
    {
      HoldsAll(arrays, AllApplied(m, ops[..n]), now);
      NextApplied(m, ops, n);
      var answer;
      answer, now := TakeTurn(cache, arrays, ops[n].0, ops[n].1, AllApplied(m, ops[..n]), now);
      answers := answers + [answer];
      n := n + 1;
    }
    assert ops[..n] == ops;
  }

  method TakeTurn(cache: Arrays, arrays: seq<Array>, k: nat, op: Op, ghost m: seq<seq<Item>>, ghost all: set<Element>)
    returns (answer: Option<string>, ghost now: set<Element>)
    requires Holds(arrays, m, all) && cache.Cached() && k < |arrays|
    modifies cache, arrays[k], arrays[k].ring
    ensures cache.Cached() && Holds(arrays, m[k := Applied(m[k], op)], now) && answer == Answer(m[k], op)
    ensures fresh(now - all)
  {
    hide *;
    var a := arrays[k];
    OthersApart(arrays, m, all, k);
    ghost var rings := Rings(arrays);
    RingsOf(arrays, m, all);
    answer := Perform(cache, a, op);
    now := all + (set e | e in a.ring);
    Held(a);
    NowHolding(a);
    assert forall j :: 0 <= j < |arrays| && j != k ==> Holding(arrays[j], m[j]);
    assert forall j :: 0 <= j < |arrays| && j != k ==> arrays[j].ring == rings[j];
    assert forall e :: e in a.ring ==> e in rings[k] || e !in all;
    HoldAgain(arrays, m, all, now, k, a.Items(), rings);
  }
}
