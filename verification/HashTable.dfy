// The hash tables of hashlib.c: an array of chains that stands for a map.
// The hash function may be any function of the key.

module HashTable {
  import opened Options

  // A BUCKET_CONTENTS.
  class Entry {
    const key: string
    const khash: nat
    var data: Option<int>
    var timesFound: nat
    var next: Entry?

    constructor (key: string, khash: nat, data: Option<int>, timesFound: nat, next: Entry?)
      ensures this.key == key && this.khash == khash && this.data == data
      ensures this.timesFound == timesFound && this.next == next
    {
      this.key, this.khash, this.data, this.timesFound, this.next := key, khash, data, timesFound, next;
    }
  }

  // a & b
  function BitAnd(a: nat, b: nat): (r: nat)
    ensures r <= a && r <= b
  {
    if a == 0 || b == 0 then 0 else 2 * BitAnd(a / 2, b / 2) + if a % 2 == 1 && b % 2 == 1 then 1 else 0
  }

  // HASH_BUCKET
  function Bucket(h: nat, nbuckets: nat): (b: nat)
    requires nbuckets > 0
    ensures b < nbuckets
  {
    BitAnd(h, nbuckets - 1)
  }

  function Pow2(k: nat): (p: nat)
    ensures p > 0
  {
    if k == 0 then 1 else 2 * Pow2(k - 1)
  }

  // With a power of two, masking leaves the remainder.
  lemma {:induction false} BucketIsRemainder(h: nat, k: nat) returns (q: nat)
    ensures h == q * Pow2(k) + Bucket(h, Pow2(k)) && Bucket(h, Pow2(k)) < Pow2(k)
  {
    if k == 0 {
      q := h;
    } else {
      hide BitAnd;
      q := BucketIsRemainder(h / 2, k - 1);
      Doubled(h, q, Pow2(k - 1));
    }
  }

  lemma Doubled(h: nat, q: nat, p: nat)
    requires p > 0 && h / 2 == q * p + BitAnd(h / 2, p - 1)
    ensures h == q * (2 * p) + BitAnd(h, 2 * p - 1)
  {
    MaskHalf(h, p);
    Twice(q, p);
    hide BitAnd;
    assert h == 2 * (h / 2) + h % 2;
  }

  lemma Twice(q: nat, p: nat)
    ensures q * (2 * p) == 2 * (q * p)
  {
  }

  lemma MaskHalf(h: nat, p: nat)
    requires p > 0
    ensures BitAnd(h, 2 * p - 1) == 2 * BitAnd(h / 2, p - 1) + h % 2
  {
    assert (2 * p - 1) / 2 == p - 1 && (2 * p - 1) % 2 == 1;
  }

  // A null-terminated chain.
  ghost predicate Chain(head: Entry?, es: seq<Entry>)
    reads es`next
  {
    && (es == [] ==> head == null)
    && (es != [] ==> head == es[0] && es[|es| - 1].next == null)
    && forall k :: 0 <= k < |es| - 1 ==> es[k].next == es[k + 1]
  }

  // Every key is stored once, with its hash, in its bucket.
  predicate AtHome(es: seq<Entry>, b: nat, nbuckets: nat, hash: string -> nat)
    requires nbuckets > 0
  {
    && (forall k :: 0 <= k < |es| ==> es[k].khash == hash(es[k].key) && Bucket(es[k].khash, nbuckets) == b)
    && forall i, j :: 0 <= i < j < |es| ==> es[i].key != es[j].key
  }

  // The position of a key in a chain, or its length.
  function Index(es: seq<Entry>, key: string): (k: nat)
    ensures k <= |es| && (k < |es| ==> es[k].key == key)
    ensures forall j :: 0 <= j < k ==> es[j].key != key
  {
    if es == [] || es[0].key == key then 0 else 1 + Index(es[1..], key)
  }

  function KeysOf(es: seq<Entry>): set<string> {
    if es == [] then {} else KeysOf(es[..|es| - 1]) + {es[|es| - 1].key}
  }

  // The keys in the first n buckets.
  function Keys(cs: seq<seq<Entry>>, n: nat): set<string>
    requires n <= |cs|
  {
    if n == 0 then {} else Keys(cs, n - 1) + KeysOf(cs[n - 1])
  }

  function Total(cs: seq<seq<Entry>>): nat { if cs == [] then 0 else Total(cs[..|cs| - 1]) + |cs[|cs| - 1]| }

  lemma {:induction false} TotalUpdated(cs: seq<seq<Entry>>, b: nat, es: seq<Entry>)
    requires b < |cs|
    ensures Total(cs[b := es]) == Total(cs) - |cs[b]| + |es|
  {
    var n := |cs| - 1;
    var t := cs[b := es];
    if b == n {
      assert t[..n] == cs[..n];
    } else {
      assert t[..n] == cs[..n][b := es];
      TotalUpdated(cs[..n], b, es);
    }
  }

  // The chains of all buckets.
  ghost predicate Chains(buckets: seq<Entry?>, cs: seq<seq<Entry>>, repr: set<Entry>)
    requires |buckets| == |cs|
    reads repr`next
  {
    forall b :: 0 <= b < |cs| ==> (forall k :: 0 <= k < |cs[b]| ==> cs[b][k] in repr) && Chain(buckets[b], cs[b])
  }

  predicate AllAtHome(cs: seq<seq<Entry>>, hash: string -> nat) {
    forall b :: 0 <= b < |cs| ==> AtHome(cs[b], b, |cs|, hash)
  }

  class Table {
    const hash: string -> nat
    const buckets: array<Entry?>
    var nentries: int
    ghost var chains: seq<seq<Entry>>
    ghost var repr: set<Entry>

    // hash_create
    constructor (nbuckets: nat, hash: string -> nat)
      ensures Valid() && fresh(buckets) && repr == {} && this.hash == hash && nentries == 0
      ensures buckets.Length == (if nbuckets == 0 then 64 else nbuckets)
      ensures forall key :: !Has(key)
    {
      var n := if nbuckets == 0 then 64 else nbuckets;
      this.hash := hash;
      buckets := new Entry?[n](_ => null);
      nentries := 0;
      chains := seq(n, _ => []);
      repr := {};
      new;
      EmptyTotal(n);
    }

    ghost predicate Valid()
      reads this, buckets, repr`next
    {
      && buckets.Length == |chains| > 0
      && Chains(buckets[..], chains, repr) && AllAtHome(chains, hash) && nentries == Total(chains)
    }

    ghost function ChainOf(key: string): seq<Entry>
      requires |chains| > 0
      reads this
    {
      chains[Bucket(hash(key), |chains|)]
    }

    ghost predicate Has(key: string)
      requires |chains| > 0
      reads this
    {
      Index(ChainOf(key), key) < |ChainOf(key)|
    }

    // The entry of a key.
    ghost function Item(key: string): Entry
      requires |chains| > 0 && Has(key)
      reads this
    {
      ChainOf(key)[Index(ChainOf(key), key)]
    }

    // The search loop.
    method Find(key: string) returns (list: Entry?, prev: Entry?, ghost k: nat)
      requires Valid()
      ensures k == Index(ChainOf(key), key) && (list == null <==> !Has(key))
      ensures list != null ==> list == Item(key) && (prev == null <==> k == 0) && (k > 0 ==> prev == ChainOf(key)[k - 1])
    {
      var hv := hash(key);
      var b := Bucket(hv, buckets.Length);
      ghost var es := chains[b];
      list, prev, k := buckets[b], null, 0;
      assert Chain(buckets[..][b], es) && AtHome(es, b, |chains|, hash);
      while list != null
        invariant 0 <= k <= |es| && list == (if k < |es| then es[k] else null)
        invariant (prev == null <==> k == 0) && (k > 0 ==> prev == es[k - 1])
        invariant forall j :: 0 <= j < k ==> es[j].key != key
        decreases |es| - k
      {
        if hv == list.khash && list.key == key {
          IndexIs(es, key, k);
          return;
        }
        prev := list;
        list := list.next;
        k := k + 1;
      }
      IndexIs(es, key, k);
    }

    // A new entry at the front of its bucket.
    method Add(key: string) returns (item: Entry)
      requires Valid() && !Has(key)
      modifies this, buckets
      ensures Valid() && fresh(item) && item.key == key && item.data == None && item.timesFound == 0
      ensures repr == old(repr) + {item} && nentries == old(nentries) + 1 && |chains| == old(|chains|)
      ensures forall k :: Has(k) <==> k == key || old(Has(k))
      ensures Item(key) == item && forall k :: old(Has(k)) ==> Item(k) == old(Item(k))
    {
      hide Index, Total, Bucket;
      var hv := hash(key);
      var b := Bucket(hv, buckets.Length);
      ghost var cs, bs := chains, buckets[..];
      item := new Entry(key, hv, None, 0, buckets[b]);
      buckets[b] := item;
      nentries := nentries + 1;
      chains := cs[b := [item] + cs[b]];
      repr := repr + {item};
      TotalUpdated(cs, b, [item] + cs[b]);
      AddedChain(bs, cs, old(repr), b, item);
      assert buckets[..] == bs[b := item];
      AddedAtHome(cs, hash, b, item);
      forall k
        ensures Index([item] + cs[b], k) == if k == key then 0 else 1 + Index(cs[b], k)
      {
        IndexFront(item, cs[b], k);
      }
    }

    // hash_search
    method Search(key: string, create: bool) returns (item: Entry?)
      requires Valid()
      modifies this, buckets, repr`timesFound
      ensures Valid() && |chains| == old(|chains|) && (item == null <==> !old(Has(key)) && !create)
      ensures item != null ==> item.key == key && Has(key) && Item(key) == item
      ensures old(Has(key)) && item != null ==> item.timesFound == old(Item(key).timesFound) + 1
      ensures item != null && !old(Has(key)) ==> fresh(item) && item.data == None && item.timesFound == 0
      ensures forall e :: e in old(repr) && e != item ==> e.timesFound == old(e.timesFound)
      ensures nentries == old(nentries) + if create && !old(Has(key)) then 1 else 0
      ensures forall k :: Has(k) <==> old(Has(k)) || (create && k == key)
      ensures forall k :: old(Has(k)) ==> Item(k) == old(Item(k)) && Item(k).data == old(Item(k).data)
    {
      hide Index, Total, Bucket, AllAtHome, Chains;
      if !create && nentries == 0 {
        NoEntries(chains, hash);
        return null;
      }
      var prev;
      ghost var k;
      item, prev, k := Find(key);
      if item != null {
        InRepr(key);
        item.timesFound := item.timesFound + 1;
      } else if create {
        item := Add(key);
      }
    }

    // hash_insert; with HASH_NOSRCH the caller promises a new key.
    method Insert(key: string, noSearch: bool) returns (item: Entry)
      requires Valid() && (noSearch ==> !Has(key))
      modifies this, buckets, repr`timesFound
      ensures Valid() && |chains| == old(|chains|) && item.key == key && Has(key) && Item(key) == item
      ensures old(Has(key)) ==> item.timesFound == old(Item(key).timesFound) + 1
      ensures !old(Has(key)) ==> fresh(item) && item.data == None && item.timesFound == 0
      ensures forall e :: e in old(repr) && e != item ==> e.timesFound == old(e.timesFound)
      ensures nentries == old(nentries) + if old(Has(key)) then 0 else 1
      ensures forall k :: Has(k) <==> old(Has(k)) || k == key
      ensures forall k :: old(Has(k)) ==> Item(k) == old(Item(k)) && Item(k).data == old(Item(k).data)
    {
      hide Index, Total, Bucket, AllAtHome, Chains;
      var found := null;
      if !noSearch { found := Search(key, false); }
      if found != null { return found; }
      item := Add(key);
    }

    // hash_remove
    method Remove(key: string) returns (item: Entry?)
      requires Valid()
      modifies this, buckets, repr`next
      ensures Valid() && |chains| == old(|chains|) && (item != null <==> old(Has(key)))
      ensures item != null ==> item == old(Item(key))
      ensures nentries == old(nentries) - if old(Has(key)) then 1 else 0
      ensures forall k :: Has(k) <==> old(Has(k)) && k != key
      ensures forall k :: k != key && old(Has(k)) ==> Item(k) == old(Item(k))
    {
      hide Index, Total, Bucket, AllAtHome, Chains;
      if nentries == 0 {
        NoEntries(chains, hash);
        return null;
      }
      var prev;
      ghost var p;
      item, prev, p := Find(key);
      if item != null { Unchain(key, item, prev, p); }
    }

    // The entry at position p of its chain is taken out.
    method Unchain(key: string, item: Entry, prev: Entry?, ghost p: nat)
      requires Valid() && Has(key) && item == Item(key) && p == Index(ChainOf(key), key)
      requires (prev == null <==> p == 0) && (p > 0 ==> prev == ChainOf(key)[p - 1])
      modifies this`nentries, this`chains, buckets, repr`next
      ensures Valid() && |chains| == old(|chains|) && nentries == old(nentries) - 1
      ensures forall k :: Has(k) <==> old(Has(k)) && k != key
      ensures forall k :: k != key && old(Has(k)) ==> Item(k) == old(Item(k))
    {
      hide Index, Total, Bucket, Chains, AllAtHome;
      var b := Bucket(hash(key), buckets.Length);
      ghost var cs, es := chains, chains[b];
      ghost var t := es[..p] + es[p + 1..];
      TakeOut(buckets, b, item, prev, p, cs, repr, hash);
      nentries := nentries - 1;
      chains := cs[b := t];
      TotalUpdated(cs, b, t);
      RemovedAtHome(cs, hash, b, p);
      forall k
        ensures Index(t, k) < |t| <==> Index(es, k) < |es| && k != key
        ensures Index(t, k) < |t| ==> t[Index(t, k)] == es[Index(es, k)]
      {
        HomeOf(cs, hash, b);
        IndexRemoved(es, p, k);
      }
    }

    lemma SizeIsKeys()
      requires Valid()
      ensures nentries == |Keys(chains, |chains|)|
    {
      hide Keys, Total, Bucket;
      EntriesAreKeys(chains, |chains|, hash);
      assert chains[..|chains|] == chains;
    }

    // hash_flush
    method Flush()
      requires Valid()
      modifies this`nentries, this`chains, buckets
      ensures Valid() && nentries == 0 && |chains| == old(|chains|) && forall k :: !Has(k)
    {
      hide Index, Bucket, AllAtHome, Chains;
      if nentries == 0 {
        NoEntries(chains, hash);
        return;
      }
      ghost var n := |chains|;
      var i := 0;
      while i < buckets.Length
        invariant 0 <= i <= buckets.Length && chains == old(chains)
        invariant forall k :: 0 <= k < i ==> buckets[k] == null
      {
        buckets[i] := null;
        i := i + 1;
      }
      nentries := 0;
      chains := seq(n, _ => []);
      EmptyTotal(n);
      NoEntries(chains, hash);
      EmptyChains(buckets[..], chains, repr, hash);
    }

    // hash_copy: the same map in fresh nodes; copyData copies a datum.
    method Copy(copyData: int -> int) returns (c: Table)
      requires Valid()
      ensures c.Valid() && fresh(c) && fresh(c.buckets) && fresh(c.repr) && |c.chains| == |chains|
      ensures c.nentries == nentries && forall k :: c.Has(k) <==> Has(k)
      ensures forall k :: Has(k) ==> CopyOf(Item(k), c.Item(k), copyData)
    {
      hide Index, Bucket, AllAtHome, Total, Chains, Copies;
      c := new Table(buckets.Length, hash);
      ghost var cs, all := CopyBuckets(buckets, c.buckets, chains, repr, copyData);
      c.chains, c.repr, c.nentries := cs, all, nentries;
      CopiedTable(chains, cs, hash, copyData);
      forall k | Has(k)
        ensures CopyOf(Item(k), c.Item(k), copyData)
      {
        CopiedItem(ChainOf(k), c.ChainOf(k), Index(ChainOf(k), k), copyData);
      }
    }

    lemma InRepr(key: string)
      requires Valid() && Has(key)
      ensures Item(key) in repr
    {
      var b := Bucket(hash(key), |chains|);
      assert chains[b][Index(chains[b], key)] in repr;
    }
  }

  ghost predicate CopyOf(e: Entry, f: Entry, copyData: int -> int)
    reads e`data, e`timesFound, f`data, f`timesFound
  {
    && f.key == e.key && f.khash == e.khash && f.timesFound == e.timesFound
    && f.data == if e.data.Some? then Some(copyData(e.data.value)) else None
  }

  ghost predicate Copies(es: seq<Entry>, fs: seq<Entry>, copyData: int -> int)
    reads es`data, es`timesFound, fs`data, fs`timesFound
  {
    |fs| == |es| && forall k :: 0 <= k < |es| ==> CopyOf(es[k], fs[k], copyData)
  }

  // copy_bucket_array
  method CopyBucket(ba: Entry?, ghost es: seq<Entry>, copyData: int -> int) returns (r: Entry?, ghost fs: seq<Entry>)
    requires Chain(ba, es)
    ensures Chain(r, fs) && Copies(es, fs, copyData) && fresh(fs)
  {
    hide Index, Bucket, Total;
    r, fs := null, [];
    var n: Entry?, e := null, ba;
    while e != null
      invariant |fs| <= |es| && e == (if |fs| < |es| then es[|fs|] else null)
      invariant Chain(r, fs) && fresh(fs) && Distinct(fs)
      invariant n == if fs == [] then null else fs[|fs| - 1]
      invariant forall k :: 0 <= k < |fs| ==> CopyOf(es[k], fs[k], copyData)
      decreases |es| - |fs|
    {
      var data := if e.data.Some? then Some(copyData(e.data.value)) else None;
      var m := new Entry(e.key, e.khash, data, e.timesFound, null);
      ghost var was := fs;
      assert forall k :: 0 <= k < |was| - 1 ==> was[k] != n;
      if n == null { r := m; } else { n.next := m; }
      n := m;
      fs := fs + [m];
      assert |was| < |es| - 1 ==> es[|was|].next == es[|was| + 1];
      e := e.next;
    }
  }

  ghost predicate Distinct(es: seq<Entry>) { forall i, j :: 0 <= i < j < |es| ==> es[i] != es[j] }

  lemma {:induction false} SameTotal(cs: seq<seq<Entry>>, ds: seq<seq<Entry>>)
    requires |cs| == |ds| && forall b :: 0 <= b < |cs| ==> |cs[b]| == |ds[b]|
    ensures Total(ds) == Total(cs)
  {
    if cs != [] { SameTotal(cs[..|cs| - 1], ds[..|ds| - 1]); }
  }

  lemma CopiedTable(cs: seq<seq<Entry>>, ds: seq<seq<Entry>>, hash: string -> nat, copyData: int -> int)
    requires |cs| == |ds| > 0 && AllAtHome(cs, hash)
    requires forall b :: 0 <= b < |cs| ==> Copies(cs[b], ds[b], copyData)
    ensures AllAtHome(ds, hash) && Total(ds) == Total(cs)
    ensures forall b, key :: 0 <= b < |cs| ==> Index(ds[b], key) == Index(cs[b], key) && |ds[b]| == |cs[b]|
  {
    hide Index, Bucket;
    forall b | 0 <= b < |cs|
      ensures AtHome(ds[b], b, |ds|, hash) && |cs[b]| == |ds[b]|
    {
      assert AtHome(cs[b], b, |cs|, hash) && Copies(cs[b], ds[b], copyData);
      assert forall k :: 0 <= k < |ds[b]| ==> CopyOf(cs[b][k], ds[b][k], copyData);
    }
    SameTotal(cs, ds);
    forall b, key | 0 <= b < |cs|
      ensures Index(ds[b], key) == Index(cs[b], key) && |ds[b]| == |cs[b]|
    {
      assert Copies(cs[b], ds[b], copyData);
      assert forall k :: 0 <= k < |ds[b]| ==> CopyOf(cs[b][k], ds[b][k], copyData);
      IndexIs(ds[b], key, Index(cs[b], key));
    }
  }

  lemma EmptyChains(bs: seq<Entry?>, cs: seq<seq<Entry>>, repr: set<Entry>, hash: string -> nat)
    requires |bs| == |cs| && (forall b :: 0 <= b < |cs| ==> bs[b] == null && cs[b] == [])
    ensures Chains(bs, cs, repr) && AllAtHome(cs, hash)
  {
  }

  lemma CopiedItem(es: seq<Entry>, fs: seq<Entry>, k: nat, copyData: int -> int)
    requires Copies(es, fs, copyData) && k < |es|
    ensures k < |fs| && CopyOf(es[k], fs[k], copyData)
  {
  }

  method CopyBuckets(source: array<Entry?>, target: array<Entry?>, ghost cs: seq<seq<Entry>>, ghost repr: set<Entry>,
                     copyData: int -> int) returns (ghost ds: seq<seq<Entry>>, ghost all: set<Entry>)
    requires source.Length == target.Length == |cs| && source != target && Chains(source[..], cs, repr)
    modifies target
    ensures |ds| == |cs| && (forall b :: 0 <= b < |cs| ==> Copies(cs[b], ds[b], copyData))
    ensures Chains(target[..], ds, all) && fresh(all)
  {
    hide Copies, Chain;
    ds, all := [], {};
    var i := 0;
    while i < source.Length
      invariant 0 <= i <= source.Length && |ds| == i && fresh(all)
      invariant forall b :: 0 <= b < i ==> Copies(cs[b], ds[b], copyData) && Chain(target[b], ds[b])
      invariant forall b :: 0 <= b < i ==> forall k :: 0 <= k < |ds[b]| ==> ds[b][k] in all
    {
      assert Chain(source[..][i], cs[i]);
      var h;
      ghost var es;
      h, es := CopyBucket(source[i], cs[i], copyData);
      target[i] := h;
      ds := ds + [es];
      all := all + set e | e in es;
      i := i + 1;
    }
  }

  lemma HomeOf(cs: seq<seq<Entry>>, hash: string -> nat, b: nat)
    requires b < |cs| && AllAtHome(cs, hash)
    ensures AtHome(cs[b], b, |cs|, hash)
  {
  }

  // The entry at position p of bucket b is taken out of its chain.
  method TakeOut(buckets: array<Entry?>, b: nat, item: Entry, prev: Entry?, ghost p: nat, ghost cs: seq<seq<Entry>>,
                 ghost repr: set<Entry>, ghost hash: string -> nat)
    requires buckets.Length == |cs| && b < |cs| && Chains(buckets[..], cs, repr) && AllAtHome(cs, hash)
    requires p < |cs[b]| && item == cs[b][p] && (prev == null <==> p == 0) && (p > 0 ==> prev == cs[b][p - 1])
    modifies buckets, repr`next
    ensures Chains(buckets[..], cs[b := cs[b][..p] + cs[b][p + 1..]], repr)
  {
    hide Bucket, AtHome, AllAtHome;
    ghost var bs, es := buckets[..], cs[b];
    ghost var t := es[..p] + es[p + 1..];
    Elsewhere(cs, hash, b, p);
    assert Chain(bs[b], es);
    assert p > 0 ==> es[p - 1] in repr;
    assert p < |es| - 1 ==> item.next == es[p + 1];
    if prev != null {
      Elsewhere(cs, hash, b, p - 1);
      prev.next := item.next;
    } else {
      buckets[b] := item.next;
    }
    assert Chain(buckets[b], t) by {
      assert forall k :: 0 <= k < p - 1 ==> t[k] == es[k] && es[k] != prev;
      assert forall k :: p <= k < |t| ==> t[k] == es[k + 1] && es[k + 1] != prev;
    }
    forall c | 0 <= c < |cs| && c != b
      ensures Chain(buckets[c], cs[c])
    {
      assert Chain(bs[c], cs[c]);
    }
    InChains(cs, b, p, repr);
  }

  // An entry stands in one place only.
  lemma Elsewhere(cs: seq<seq<Entry>>, hash: string -> nat, b: nat, p: nat)
    requires b < |cs| && p < |cs[b]| && AllAtHome(cs, hash)
    ensures forall k :: 0 <= k < |cs[b]| && k != p ==> cs[b][k] != cs[b][p]
    ensures forall c, k :: 0 <= c < |cs| && c != b && 0 <= k < |cs[c]| ==> cs[c][k] != cs[b][p]
  {
    hide Bucket;
    assert AtHome(cs[b], b, |cs|, hash);
    forall c, k | 0 <= c < |cs| && c != b && 0 <= k < |cs[c]|
      ensures cs[c][k] != cs[b][p]
    {
      assert AtHome(cs[c], c, |cs|, hash);
    }
  }

  lemma InChains(cs: seq<seq<Entry>>, b: nat, p: nat, repr: set<Entry>)
    requires b < |cs| && p < |cs[b]|
    requires forall c :: 0 <= c < |cs| ==> forall k :: 0 <= k < |cs[c]| ==> cs[c][k] in repr
    ensures var t := cs[b := cs[b][..p] + cs[b][p + 1..]];
      forall c :: 0 <= c < |t| ==> forall k :: 0 <= k < |t[c]| ==> t[c][k] in repr
  {
    var u := cs[b][..p] + cs[b][p + 1..];
    assert forall k :: 0 <= k < |u| ==> u[k] == cs[b][if k < p then k else k + 1];
  }

  lemma RemovedAtHome(cs: seq<seq<Entry>>, hash: string -> nat, b: nat, p: nat)
    requires b < |cs| && p < |cs[b]| && AllAtHome(cs, hash)
    ensures AllAtHome(cs[b := cs[b][..p] + cs[b][p + 1..]], hash)
  {
    hide Bucket;
    var t := cs[b := cs[b][..p] + cs[b][p + 1..]];
    forall c | 0 <= c < |t|
      ensures AtHome(t[c], c, |t|, hash)
    {
      assert AtHome(cs[c], c, |cs|, hash);
      if c == b { assert forall k :: 0 <= k < |t[b]| ==> t[b][k] == cs[b][if k < p then k else k + 1]; }
    }
  }

  lemma IndexRemoved(es: seq<Entry>, p: nat, k: string)
    requires p < |es| && forall i, j :: 0 <= i < j < |es| ==> es[i].key != es[j].key
    ensures var t := es[..p] + es[p + 1..];
      && (Index(t, k) < |t| <==> Index(es, k) < |es| && k != es[p].key)
      && (Index(t, k) < |t| ==> t[Index(t, k)] == es[Index(es, k)])
  {
    hide Index;
    var t := es[..p] + es[p + 1..];
    var i := Index(es, k);
    assert forall j :: 0 <= j < |t| ==> t[j] == es[if j < p then j else j + 1];
    if k == es[p].key {
      IndexIs(es, k, p);
      IndexIs(t, k, |t|);
    } else {
      IndexIs(t, k, if i < p then i else i - 1);
    }
  }

  lemma IndexFront(e: Entry, es: seq<Entry>, k: string)
    ensures Index([e] + es, k) == if k == e.key then 0 else 1 + Index(es, k)
  {
    assert ([e] + es)[1..] == es;
  }

  lemma AddedChain(bs: seq<Entry?>, cs: seq<seq<Entry>>, repr: set<Entry>, b: nat, e: Entry)
    requires |bs| == |cs| && b < |cs| && Chains(bs, cs, repr) && e.next == bs[b]
    ensures Chains(bs[b := e], cs[b := [e] + cs[b]], repr + {e})
  {
    assert Chain(bs[b], cs[b]);
    var t := cs[b := [e] + cs[b]];
    forall c | 0 <= c < |t|
      ensures (forall k :: 0 <= k < |t[c]| ==> t[c][k] in repr + {e}) && Chain(bs[b := e][c], t[c])
    {
      if c == b {
        assert forall k :: 0 < k < |t[b]| ==> t[b][k] == cs[b][k - 1];
      } else {
        assert Chain(bs[c], cs[c]);
      }
    }
  }

  lemma AddedAtHome(cs: seq<seq<Entry>>, hash: string -> nat, b: nat, e: Entry)
    requires b < |cs| && AllAtHome(cs, hash) && e.khash == hash(e.key) && b == Bucket(e.khash, |cs|)
    requires Index(cs[b], e.key) == |cs[b]|
    ensures AllAtHome(cs[b := [e] + cs[b]], hash)
  {
    hide Bucket, Index;
    var t := cs[b := [e] + cs[b]];
    forall c | 0 <= c < |t|
      ensures AtHome(t[c], c, |t|, hash)
    {
      assert AtHome(cs[c], c, |cs|, hash);
      if c == b { assert forall k :: 0 < k < |t[b]| ==> t[b][k] == cs[b][k - 1]; }
    }
  }

  lemma {:induction false} TotalZero(cs: seq<seq<Entry>>, b: nat)
    requires b < |cs| && Total(cs) == 0
    ensures cs[b] == []
  {
    if b < |cs| - 1 { TotalZero(cs[..|cs| - 1], b); }
  }

  lemma NoEntries(cs: seq<seq<Entry>>, hash: string -> nat)
    requires |cs| > 0 && Total(cs) == 0
    ensures forall key :: Index(cs[Bucket(hash(key), |cs|)], key) == 0 && cs[Bucket(hash(key), |cs|)] == []
  {
    forall key
      ensures cs[Bucket(hash(key), |cs|)] == []
    {
      TotalZero(cs, Bucket(hash(key), |cs|));
    }
  }

  lemma IndexIs(es: seq<Entry>, key: string, k: nat)
    requires k <= |es| && (forall j :: 0 <= j < k ==> es[j].key != key) && (k < |es| ==> es[k].key == key)
    ensures Index(es, key) == k
  {
  }

  lemma {:induction false} EmptyTotal(n: nat)
    ensures Total(seq(n, _ => [])) == 0
  {
    if n > 0 {
      assert seq<seq<Entry>>(n, _ => [])[..n - 1] == seq(n - 1, _ => []);
      EmptyTotal(n - 1);
    }
  }

  // -------------------------------------------------------- the size

  lemma {:induction false} KeysAre(es: seq<Entry>, key: string)
    ensures key in KeysOf(es) <==> exists k :: 0 <= k < |es| && es[k].key == key
  {
    if es != [] {
      var t := es[..|es| - 1];
      KeysAre(t, key);
      if key in KeysOf(t) {
        var k :| 0 <= k < |t| && t[k].key == key;
        assert es[k].key == key;
      }
      if k :| 0 <= k < |es| && es[k].key == key {
        if k < |t| { assert t[k].key == key; }
      }
    }
  }

  lemma {:induction false} ChainKeys(es: seq<Entry>, b: nat, nbuckets: nat, hash: string -> nat)
    requires nbuckets > 0 && AtHome(es, b, nbuckets, hash)
    ensures |KeysOf(es)| == |es|
  {
    if es != [] {
      hide Bucket;
      var t := es[..|es| - 1];
      ChainKeys(t, b, nbuckets, hash);
      KeysAre(t, es[|es| - 1].key);
    }
  }

  // nentries is the number of keys: no key is stored twice anywhere.
  lemma {:induction false} EntriesAreKeys(cs: seq<seq<Entry>>, n: nat, hash: string -> nat)
    requires n <= |cs| && AllAtHome(cs, hash)
    ensures |Keys(cs, n)| == Total(cs[..n])
    ensures forall key :: key in Keys(cs, n) ==> Bucket(hash(key), |cs|) < n
  {
    if n > 0 {
      hide Bucket, KeysOf, AllAtHome, Keys, Total;
      EntriesAreKeys(cs, n - 1, hash);
      BucketKeys(cs, n - 1, hash);
      KeysStep(cs, n);
      ApartByBucket(Keys(cs, n - 1), KeysOf(cs[n - 1]), n - 1, |cs|, hash);
    }
  }

  lemma KeysStep(cs: seq<seq<Entry>>, n: nat)
    requires 0 < n <= |cs|
    ensures Keys(cs, n) == Keys(cs, n - 1) + KeysOf(cs[n - 1])
    ensures Total(cs[..n]) == Total(cs[..n - 1]) + |cs[n - 1]|
  {
    hide KeysOf;
    assert cs[..n][..n - 1] == cs[..n - 1];
  }

  lemma BucketKeys(cs: seq<seq<Entry>>, b: nat, hash: string -> nat)
    requires b < |cs| && AllAtHome(cs, hash)
    ensures |KeysOf(cs[b])| == |cs[b]| && forall key :: key in KeysOf(cs[b]) ==> Bucket(hash(key), |cs|) == b
  {
    hide Bucket, KeysOf, AllAtHome;
    HomeOf(cs, hash, b);
    ChainKeys(cs[b], b, |cs|, hash);
    forall key | key in KeysOf(cs[b])
      ensures Bucket(hash(key), |cs|) == b
    {
      KeysAre(cs[b], key);
      var k :| 0 <= k < |cs[b]| && cs[b][k].key == key;
    }
  }

  lemma ApartByBucket(a: set<string>, b: set<string>, n: nat, nbuckets: nat, hash: string -> nat)
    requires nbuckets > 0
    requires forall key :: key in a ==> Bucket(hash(key), nbuckets) < n
    requires forall key :: key in b ==> Bucket(hash(key), nbuckets) == n
    ensures |a + b| == |a| + |b|
    ensures forall key :: key in a + b ==> Bucket(hash(key), nbuckets) < n + 1
  {
    hide Bucket;
    assert a !! b;
  }
}
