/** What cc_map keeps, on values: nodes in ascending order, the bucket each belongs to, the entry a bucket
    must hold, and the finite map the nodes stand for. */
module MapIndex {
  import opened KeyOrder
  import opened Lists
  import Murmur

  const KEYLEN := 256
  const CAPACITY := 16
  const HASHES := 0x1_0000_0000

  datatype MapNode<V> = MapNode(val: V, hash: nat, key: Key)

  function HashOf(seed: bv32, key: Key): (h: nat)
    ensures h < HASHES
  {
    Murmur.Hash(seed, ToWords(key)) as nat
  }

  function ToWords(key: Key): Murmur.Bytes {
    seq(|key|, i requires 0 <= i < |key| => key[i] as bv8)
  }

  function RankOf<V>(n: MapNode<V>): Rank { Rank(n.hash, n.key) }

  /** The bucket of a hash when a bucket spans the given number of hashes. */
  function Slot(hash: nat, elements: int): nat
    requires elements > 0
  {
    hash / elements
  }

  // ---------------------------------------------------------------- powers of two

  function Pow2(k: nat): nat { if k == 0 then 1 else 2 * Pow2(k - 1) }

  /** Capacity and span are powers of two whose product is the number of hashes. */
  ghost predicate Sized(capacity: int, elements: int) {
    exists k: nat :: SizedBy(capacity, elements, k)
  }

  ghost predicate SizedBy(capacity: int, elements: int, k: nat) {
    4 <= k <= 30 && capacity == Pow2(k) && elements == Pow2(32 - k)
  }

  lemma {:induction false} Pow2Adds(a: nat, b: nat)
    ensures Pow2(a) * Pow2(b) == Pow2(a + b) && Pow2(a) > 0
  {
    if a > 0 {
      Pow2Adds(a - 1, b);
      assert 2 * Pow2(a - 1) * Pow2(b) == 2 * (Pow2(a - 1) * Pow2(b));
    } else {
      assert 1 * Pow2(b) == Pow2(b);
    }
  }

  lemma Pow2At(k: nat)
    ensures Pow2(2) == 4 && Pow2(4) == 16 && Pow2(28) == 0x1000_0000 && Pow2(30) == 0x4000_0000 && Pow2(32) == HASHES
  {
    Pow2Adds(2, 2);
    Pow2Adds(4, 4);
    Pow2Adds(8, 8);
    Pow2Adds(16, 16);
    Pow2Adds(16, 8);
    Pow2Adds(24, 4);
    Pow2Adds(28, 2);
  }

  lemma {:induction false} Pow2Monotone(a: nat, b: nat)
    requires a <= b
    ensures Pow2(a) <= Pow2(b)
  {
    if a < b {
      Pow2Monotone(a, b - 1);
      Pow2Adds(b - 1, 0);
    }
  }

  lemma SizedFacts(capacity: int, elements: int)
    requires Sized(capacity, elements)
    ensures 16 <= capacity <= 0x4000_0000 && 4 <= elements && capacity * elements == HASHES
  {
    var k: nat :| SizedBy(capacity, elements, k);
    Pow2At(k);
    Pow2Adds(k, 32 - k);
    Pow2Monotone(4, k);
    Pow2Monotone(k, 30);
    Pow2Monotone(2, 32 - k);
  }

  lemma SizedStart()
    ensures Sized(CAPACITY, HASHES / CAPACITY)
  {
    Pow2At(4);
    assert SizedBy(CAPACITY, HASHES / CAPACITY, 4);
  }

  /** Doubling the capacity halves the span exactly, as long as the doubled capacity still fits. */
  lemma SizedDouble(capacity: int, elements: int)
    requires Sized(capacity, elements) && capacity < 0x4000_0000
    ensures capacity > 0 && Sized(2 * capacity, HASHES / (2 * capacity))
    ensures elements == 2 * (HASHES / (2 * capacity))
  {
    var k: nat :| SizedBy(capacity, elements, k);
    Pow2At(k);
    assert k < 30;
    Pow2Adds(k, 32 - k);
    var e := Pow2(31 - k);
    assert Pow2(32 - k) == 2 * e && Pow2(k + 1) == 2 * capacity;
    hide Pow2;
    Reorder(capacity, e);
    DivideExactly(HASHES, e, 2 * capacity, 0);
    assert SizedBy(2 * capacity, HASHES / (2 * capacity), k + 1);
  }

  lemma Reorder(c: int, e: int)
    ensures e * (2 * c) == c * (2 * e)
  {
  }

  // ---------------------------------------------------------------- slots

  lemma Fundamental(n: int, d: int)
    requires d > 0
    ensures n == (n / d) * d + n % d && 0 <= n % d < d
  {
  }

  lemma Gap(a: int, b: int, d: int)
    requires a < b && d > 0
    ensures a * d + d <= b * d
  {
    assert b * d == a * d + (b - a) * d;
    assert (b - a) * d == (b - a - 1) * d + d;
    assert (b - a - 1) * d >= 0;
  }

  lemma SameQuotient(q: int, r: int, p: int, s: int, d: int)
    requires 0 <= r < d && 0 <= s < d && q * d + r == p * d + s
    ensures q == p
  {
    if q < p {
      Gap(q, p, d);
    } else if p < q {
      Gap(p, q, d);
    }
  }

  lemma DivideExactly(n: int, q: int, d: int, r: int)
    requires d > 0 && 0 <= r < d && n == q * d + r
    ensures n / d == q
  {
    Fundamental(n, d);
    SameQuotient(q, r, n / d, n % d, d);
  }

  lemma SlotMonotone(h1: nat, h2: nat, elements: int)
    requires h1 <= h2 && elements > 0
    ensures Slot(h1, elements) <= Slot(h2, elements)
  {
    Fundamental(h1, elements);
    Fundamental(h2, elements);
    if h2 / elements < h1 / elements {
      Gap(h2 / elements, h1 / elements, elements);
    }
  }

  lemma SlotInRange(hash: nat, capacity: int, elements: int)
    requires hash < HASHES && elements > 0 && capacity * elements == HASHES
    ensures Slot(hash, elements) < capacity
  {
    Fundamental(hash, elements);
    if capacity < hash / elements {
      Gap(capacity, hash / elements, elements);
    }
  }

  /** Halving the span splits bucket b into 2b and 2b + 1. */
  lemma SlotSplits(hash: nat, half: int)
    requires half > 0
    ensures Slot(hash, half) == 2 * Slot(hash, 2 * half) || Slot(hash, half) == 2 * Slot(hash, 2 * half) + 1
  {
    Fundamental(hash, 2 * half);
    var q, r := hash / (2 * half), hash % (2 * half);
    if r < half {
      DivideExactly(hash, 2 * q, half, r);
    } else {
      DivideExactly(hash, 2 * q + 1, half, r - half);
    }
  }

  // ---------------------------------------------------------------- the nodes in order

  /** a comes before b in the list. */
  ghost predicate Before(a: Rank, b: Rank) { Compare(a, b) < 0 }

  ghost predicate InOrder<V>(d: seq<MapNode<V>>, i: int, j: int) {
    0 <= i < j < |d| ==> Before(RankOf(d[i]), RankOf(d[j]))
  }

  /** The nodes are strictly ascending. */
  ghost predicate Sorted<V>(d: seq<MapNode<V>>) {
    forall i, j :: InOrder(d, i, j)
  }

  /** Every node carries the hash of its key, and no key is empty or too long. */
  ghost predicate Hashed<V>(seed: bv32, d: seq<MapNode<V>>) {
    forall i | 0 <= i < |d| :: d[i].hash == HashOf(seed, d[i].key) && 0 < |d[i].key| <= KEYLEN
  }

  lemma BeforeFacts(a: Rank, b: Rank, c: Rank)
    ensures Before(a, b) ==> a.hash <= b.hash && !Before(b, a)
    ensures Before(a, b) && Before(b, c) ==> Before(a, c)
    ensures !Before(a, b) && !Before(b, a) ==> a == b
    ensures a.hash < b.hash ==> Before(a, b)
  {
    hide CompareFrom;
    CompareFlip(a, b);
    CompareZero(a, b);
    if Before(a, b) && Before(b, c) {
      CompareTransitive(a, b, c);
    }
  }

  /** Where a node belongs: the first position whose node does not come before it. */
  ghost function Place<V>(d: seq<MapNode<V>>, r: Rank): (p: nat)
    ensures p <= |d| && (p > 0 ==> Before(RankOf(d[p - 1]), r)) && (p < |d| ==> !Before(RankOf(d[p]), r))
  {
    if d == [] || !Before(RankOf(d[0]), r) then 0 else 1 + Place(d[1..], r)
  }

  /** The first position whose node lies in bucket b or later. */
  ghost function FirstFrom<V>(d: seq<MapNode<V>>, elements: int, b: int): (p: nat)
    requires elements > 0
    ensures p <= |d| && (p > 0 ==> Slot(d[p - 1].hash, elements) < b)
    ensures p < |d| ==> Slot(d[p].hash, elements) >= b
  {
    if d == [] || Slot(d[0].hash, elements) >= b then 0 else 1 + FirstFrom(d[1..], elements, b)
  }

  /** What bucket b must hold: the first node whose hash falls in it, if there is one. */
  ghost function Entry<V>(nodes: seq<ListIter<MapNode<V>>>, d: seq<MapNode<V>>, elements: int, b: int)
      : ListIter?<MapNode<V>>
    requires |nodes| == |d| && elements > 0
  {
    var p := FirstFrom(d, elements, b);
    if p < |d| && Slot(d[p].hash, elements) == b then nodes[p] else null
  }

  lemma SortedHashes<V>(d: seq<MapNode<V>>, i: nat, j: nat, elements: int)
    requires Sorted(d) && i <= j < |d| && elements > 0
    ensures d[i].hash <= d[j].hash && Slot(d[i].hash, elements) <= Slot(d[j].hash, elements)
  {
    hide Before;
    assert InOrder(d, i, j);
    BeforeFacts(RankOf(d[i]), RankOf(d[j]), RankOf(d[j]));
    SlotMonotone(d[i].hash, d[j].hash, elements);
  }

  /** FirstFrom is the only position that splits the nodes at bucket b. */
  lemma FirstFromIs<V>(d: seq<MapNode<V>>, elements: int, b: int, p: nat)
    requires elements > 0 && p <= |d|
    requires p > 0 ==> Slot(d[p - 1].hash, elements) < b
    requires p < |d| ==> Slot(d[p].hash, elements) >= b
    requires Sorted(d)
    ensures FirstFrom(d, elements, b) == p
  {
    hide Before;
    var q := FirstFrom(d, elements, b);
    if q < p {
      SortedHashes(d, q, p - 1, elements);
    } else if p < q {
      SortedHashes(d, p, q - 1, elements);
    }
  }

  /** Everything in front of the place comes before the rank. */
  lemma PlaceBelow<V>(d: seq<MapNode<V>>, r: Rank, i: nat)
    requires Sorted(d) && i < Place(d, r)
    ensures Before(RankOf(d[i]), r)
  {
    hide Before;
    var p := Place(d, r);
    if i < p - 1 {
      assert InOrder(d, i, p - 1);
      BeforeFacts(RankOf(d[i]), RankOf(d[p - 1]), r);
    }
  }

  /** Everything behind the place comes after a rank that is not there. */
  lemma PlaceAbove<V>(d: seq<MapNode<V>>, r: Rank, i: nat)
    requires Sorted(d) && Place(d, r) <= i < |d| && Before(r, RankOf(d[Place(d, r)]))
    ensures Before(r, RankOf(d[i]))
  {
    hide Before;
    var p := Place(d, r);
    if p < i {
      assert InOrder(d, p, i);
      BeforeFacts(r, RankOf(d[p]), RankOf(d[i]));
    }
  }

  /** A node that is not there yet keeps the order at its place. */
  lemma SortedInsert<V>(d: seq<MapNode<V>>, n: MapNode<V>)
    requires Sorted(d) && (Place(d, RankOf(n)) < |d| ==> Before(RankOf(n), RankOf(d[Place(d, RankOf(n))])))
    ensures Sorted(InsertAt(d, Place(d, RankOf(n)), n))
  {
    hide Before, InOrder, InsertAt, Place;
    var r := InsertAt(d, Place(d, RankOf(n)), n);
    forall i, j
      ensures InOrder(r, i, j)
    {
      InOrderInsert(d, n, i, j);
    }
  }

  lemma InOrderInsert<V>(d: seq<MapNode<V>>, n: MapNode<V>, i: int, j: int)
    requires Sorted(d) && (Place(d, RankOf(n)) < |d| ==> Before(RankOf(n), RankOf(d[Place(d, RankOf(n))])))
    ensures InOrder(InsertAt(d, Place(d, RankOf(n)), n), i, j)
  {
    hide Before, Place, InsertAt, Sorted;
    var p := Place(d, RankOf(n));
    InsertAtIndex(d, p, n, i);
    InsertAtIndex(d, p, n, j);
    if 0 <= i < j <= |d| {
      SortedPair(d, i, j);
      if j == p {
        PlaceBelow(d, RankOf(n), i);
      } else if i == p {
        PlaceAbove(d, RankOf(n), j - 1);
      }
    }
  }

  lemma SortedPair<V>(d: seq<MapNode<V>>, i: int, j: int)
    requires Sorted(d)
    ensures InOrder(d, i, j) && InOrder(d, i, j - 1) && InOrder(d, i - 1, j - 1)
  {
  }

  lemma SortedRemove<V>(d: seq<MapNode<V>>, p: nat)
    requires Sorted(d) && p < |d|
    ensures Sorted(RemoveAt(d, p))
  {
    hide Before;
    var r := RemoveAt(d, p);
    forall i, j
      ensures InOrder(r, i, j)
    {
      assert InOrder(d, if i < p then i else i + 1, if j < p then j else j + 1);
    }
  }

  // ---------------------------------------------------------------- the finite map

  /** The map the nodes stand for. */
  ghost function Model<V>(d: seq<MapNode<V>>): map<Key, V> {
    if d == [] then map[] else Model(d[1..])[d[0].key := d[0].val]
  }

  ghost predicate HasKey<V>(d: seq<MapNode<V>>, k: Key) {
    exists i :: 0 <= i < |d| && d[i].key == k
  }

  lemma {:induction false} ModelKeys<V>(d: seq<MapNode<V>>, k: Key)
    ensures k in Model(d) <==> HasKey(d, k)
  {
    if d != [] {
      ModelKeys(d[1..], k);
      if HasKey(d[1..], k) {
        var i :| 0 <= i < |d[1..]| && d[1..][i].key == k;
        assert d[i + 1].key == k;
      }
      if HasKey(d, k) && d[0].key != k {
        var i :| 0 <= i < |d| && d[i].key == k;
        assert d[1..][i - 1].key == k;
      }
    }
  }

  /** In a sorted list of hashed nodes a key occurs once. */
  lemma KeyOnce<V>(seed: bv32, d: seq<MapNode<V>>, i: nat, j: nat)
    requires Sorted(d) && Hashed(seed, d) && i < |d| && j < |d| && d[i].key == d[j].key
    ensures i == j
  {
    hide Compare, HashOf;
    assert InOrder(d, i, j) && InOrder(d, j, i);
    CompareZero(RankOf(d[i]), RankOf(d[j]));
    CompareZero(RankOf(d[j]), RankOf(d[i]));
  }

  lemma NodesAscend<V>(seed: bv32, d: seq<MapNode<V>>, i: nat, j: nat)
    requires Sorted(d) && Hashed(seed, d) && i < j < |d|
    ensures Compare(Rank(HashOf(seed, d[i].key), d[i].key), Rank(HashOf(seed, d[j].key), d[j].key)) < 0
  {
    hide Compare, HashOf;
    assert InOrder(d, i, j);
  }

  lemma {:induction false} ModelAt<V>(seed: bv32, d: seq<MapNode<V>>, i: nat)
    requires Sorted(d) && Hashed(seed, d) && i < |d|
    ensures d[i].key in Model(d) && Model(d)[d[i].key] == d[i].val
  {
    hide Before, HashOf;
    if i > 0 {
      Tail(seed, d);
      ModelAt(seed, d[1..], i - 1);
      if d[0].key == d[i].key {
        KeyOnce(seed, d, 0, i);
      }
    }
  }

  lemma Tail<V>(seed: bv32, d: seq<MapNode<V>>)
    requires Sorted(d) && Hashed(seed, d) && d != []
    ensures Sorted(d[1..]) && Hashed(seed, d[1..])
  {
    hide Before;
    forall i, j
      ensures InOrder(d[1..], i, j)
    {
      assert InOrder(d, i + 1, j + 1);
    }
  }

  /** There are as many nodes as keys. */
  lemma {:induction false} ModelSize<V>(seed: bv32, d: seq<MapNode<V>>)
    requires Sorted(d) && Hashed(seed, d)
    ensures |Model(d)| == |d|
  {
    hide Sorted, Hashed;
    if d != [] {
      Tail(seed, d);
      ModelSize(seed, d[1..]);
      ModelKeys(d[1..], d[0].key);
      if HasKey(d[1..], d[0].key) {
        var i :| 0 <= i < |d[1..]| && d[1..][i].key == d[0].key;
        KeyOnce(seed, d, 0, i + 1);
      }
    }
  }

  /** A map that agrees with every node and has no other key is the one the nodes stand for. */
  lemma ModelIs<V>(seed: bv32, d: seq<MapNode<V>>, m: map<Key, V>)
    requires Sorted(d) && Hashed(seed, d)
    requires forall i | 0 <= i < |d| :: d[i].key in m && m[d[i].key] == d[i].val
    requires forall k | k in m :: HasKey(d, k)
    ensures Model(d) == m
  {
    hide Sorted, Hashed, Model;
    forall k
      ensures k in Model(d) <==> k in m
      ensures k in m ==> Model(d)[k] == m[k]
    {
      ModelKeys(d, k);
      if HasKey(d, k) {
        var i :| 0 <= i < |d| && d[i].key == k;
        ModelAt(seed, d, i);
      }
    }
  }

  /** A key is present exactly when the node at its place carries it. */
  lemma Found<V>(seed: bv32, d: seq<MapNode<V>>, r: Rank)
    requires Sorted(d) && Hashed(seed, d) && r.hash == HashOf(seed, r.key)
    ensures r.key in Model(d) <==> Place(d, r) < |d| && RankOf(d[Place(d, r)]) == r
    ensures r.key in Model(d) ==> Model(d)[r.key] == d[Place(d, r)].val
    ensures r.key !in Model(d) && Place(d, r) < |d| ==> Before(r, RankOf(d[Place(d, r)]))
  {
    hide Before, HashOf, Model;
    var p := Place(d, r);
    ModelKeys(d, r.key);
    if p < |d| {
      BeforeFacts(RankOf(d[p]), r, r);
      ModelAt(seed, d, p);
    }
    if HasKey(d, r.key) {
      var i :| 0 <= i < |d| && d[i].key == r.key;
      BeforeFacts(r, r, r);
      if i < p {
        PlaceBelow(d, r, i);
      }
      if i > p {
        SortedPair(d, p, i);
      }
    }
  }

  lemma ModelInsert<V>(seed: bv32, d: seq<MapNode<V>>, n: MapNode<V>)
    requires Sorted(d) && Hashed(seed, d) && n.key !in Model(d)
    requires n.hash == HashOf(seed, n.key) && 0 < |n.key| <= KEYLEN
    ensures Sorted(InsertAt(d, Place(d, RankOf(n)), n)) && Hashed(seed, InsertAt(d, Place(d, RankOf(n)), n))
    ensures Model(InsertAt(d, Place(d, RankOf(n)), n)) == Model(d)[n.key := n.val]
  {
    hide Before, HashOf, Model, Sorted;
    var p := Place(d, RankOf(n));
    var r := InsertAt(d, p, n);
    Found(seed, d, RankOf(n));
    SortedInsert(d, n);
    forall i | 0 <= i < |r| && i != p
      ensures r[i].key in Model(d) && Model(d)[r[i].key] == r[i].val
    {
      ModelAt(seed, d, if i < p then i else i - 1);
    }
    forall k | k in Model(d)[n.key := n.val]
      ensures HasKey(r, k)
    {
      if k == n.key {
        assert r[p].key == k;
      } else {
        ModelKeys(d, k);
        var i :| 0 <= i < |d| && d[i].key == k;
        assert r[if i < p then i else i + 1].key == k;
      }
    }
    ModelIs(seed, r, Model(d)[n.key := n.val]);
  }

  lemma KeyRemains<V>(d: seq<MapNode<V>>, p: nat, k: Key)
    requires p < |d| && HasKey(d, k) && d[p].key != k
    ensures HasKey(RemoveAt(d, p), k)
  {
    var i :| 0 <= i < |d| && d[i].key == k;
    assert RemoveAt(d, p)[if i < p then i else i - 1].key == k;
  }

  lemma ModelRemove<V>(seed: bv32, d: seq<MapNode<V>>, p: nat)
    requires Sorted(d) && Hashed(seed, d) && p < |d|
    ensures Sorted(RemoveAt(d, p)) && Hashed(seed, RemoveAt(d, p))
    ensures Model(RemoveAt(d, p)) == Model(d) - {d[p].key}
  {
    hide Before, HashOf, Model, Sorted;
    var r := RemoveAt(d, p);
    SortedRemove(d, p);
    forall j | 0 <= j < |d| && j != p
      ensures d[j].key in Model(d) - {d[p].key} && Model(d)[d[j].key] == d[j].val
    {
      ModelAt(seed, d, j);
      if d[j].key == d[p].key {
        KeyOnce(seed, d, j, p);
      }
    }
    assert forall i | 0 <= i < |r| :: r[i] == d[if i < p then i else i + 1];
    forall k | k in Model(d) - {d[p].key}
      ensures HasKey(r, k)
    {
      ModelKeys(d, k);
      KeyRemains(d, p, k);
    }
    ModelIs(seed, r, Model(d) - {d[p].key});
  }

  // ---------------------------------------------------------------- what an edit does to the buckets

  /** An insertion changes one bucket at most: the node's own, when it is empty or headed by the successor. */
  lemma EntryInsert<V>(nodes: seq<ListIter<MapNode<V>>>, d: seq<MapNode<V>>, n: MapNode<V>, it: ListIter<MapNode<V>>,
                       elements: int, b: int)
    requires |nodes| == |d| && elements > 0 && Sorted(d) && Distinct(nodes)
    requires Place(d, RankOf(n)) < |d| ==> Before(RankOf(n), RankOf(d[Place(d, RankOf(n))]))
    ensures var p, e := Place(d, RankOf(n)), Entry(nodes, d, elements, b);
      Entry(InsertAt(nodes, p, it), InsertAt(d, p, n), elements, b)
      == if b == Slot(n.hash, elements) && (e == null || e == At(nodes, p)) then it else e
  {
    hide Before, Slot, Sorted;
    var p, q := Place(d, RankOf(n)), FirstFrom(d, elements, b);
    FirstFromInsert(d, n, elements, b);
    if p < |d| {
      PlaceSplits(d, RankOf(n), p, elements);
    }
    if q < p {
      PlaceSplits(d, RankOf(n), q, elements);
    }
    if b > Slot(n.hash, elements) {
      EntryShifted(nodes, d, p, n, it, elements, b);
    } else {
      EntryKept(nodes, d, p, n, it, elements, b);
      Apart(nodes, p);
    }
  }

  lemma EntryShifted<V>(nodes: seq<ListIter<MapNode<V>>>, d: seq<MapNode<V>>, p: nat, n: MapNode<V>,
                        it: ListIter<MapNode<V>>, elements: int, b: int)
    requires |nodes| == |d| && elements > 0 && p <= FirstFrom(d, elements, b)
    requires FirstFrom(InsertAt(d, p, n), elements, b) == FirstFrom(d, elements, b) + 1
    ensures Entry(InsertAt(nodes, p, it), InsertAt(d, p, n), elements, b) == Entry(nodes, d, elements, b)
  {
    hide Slot, FirstFrom;
    var q := FirstFrom(d, elements, b);
    assert q < |d| ==> InsertAt(d, p, n)[q + 1] == d[q] && InsertAt(nodes, p, it)[q + 1] == nodes[q];
  }

  lemma EntryKept<V>(nodes: seq<ListIter<MapNode<V>>>, d: seq<MapNode<V>>, p: nat, n: MapNode<V>,
                     it: ListIter<MapNode<V>>, elements: int, b: int)
    requires |nodes| == |d| && elements > 0 && FirstFrom(d, elements, b) <= p <= |d|
    requires FirstFrom(InsertAt(d, p, n), elements, b) == FirstFrom(d, elements, b)
    ensures Entry(InsertAt(nodes, p, it), InsertAt(d, p, n), elements, b)
      == if FirstFrom(d, elements, b) < p then Entry(nodes, d, elements, b)
         else if Slot(n.hash, elements) == b then it else null
  {
    hide Slot, FirstFrom;
    var q := FirstFrom(d, elements, b);
    assert InsertAt(d, p, n)[q] == if q < p then d[q] else n;
    assert InsertAt(nodes, p, it)[q] == if q < p then nodes[q] else it;
  }

  lemma FirstFromInsert<V>(d: seq<MapNode<V>>, n: MapNode<V>, elements: int, b: int)
    requires elements > 0 && Sorted(d)
    requires Place(d, RankOf(n)) < |d| ==> Before(RankOf(n), RankOf(d[Place(d, RankOf(n))]))
    ensures FirstFrom(InsertAt(d, Place(d, RankOf(n)), n), elements, b)
      == if b <= Slot(n.hash, elements) then FirstFrom(d, elements, b) else FirstFrom(d, elements, b) + 1
    ensures b <= Slot(n.hash, elements) ==> FirstFrom(d, elements, b) <= Place(d, RankOf(n))
    ensures b > Slot(n.hash, elements) ==> FirstFrom(d, elements, b) >= Place(d, RankOf(n))
  {
    hide Before, Slot, Sorted;
    var p, q := Place(d, RankOf(n)), FirstFrom(d, elements, b);
    SortedInsert(d, n);
    if b <= Slot(n.hash, elements) && p < q {
      PlaceSplits(d, RankOf(n), q - 1, elements);
    } else if q < p {
      PlaceSplits(d, RankOf(n), q, elements);
    }
    FirstFromIs(InsertAt(d, p, n), elements, b, if b <= Slot(n.hash, elements) then q else q + 1);
  }

  lemma PlaceSplits<V>(d: seq<MapNode<V>>, r: Rank, i: nat, elements: int)
    requires Sorted(d) && elements > 0 && i < |d|
    requires Place(d, r) < |d| ==> Before(r, RankOf(d[Place(d, r)]))
    ensures i < Place(d, r) ==> Slot(d[i].hash, elements) <= Slot(r.hash, elements)
    ensures i >= Place(d, r) ==> Slot(d[i].hash, elements) >= Slot(r.hash, elements)
  {
    hide Before, Slot;
    if i < Place(d, r) {
      PlaceBelow(d, r, i);
      BeforeFacts(RankOf(d[i]), r, r);
      SlotMonotone(d[i].hash, r.hash, elements);
    } else {
      PlaceAbove(d, r, i);
      BeforeFacts(r, RankOf(d[i]), r);
      SlotMonotone(r.hash, d[i].hash, elements);
    }
  }

  /** A removal changes one bucket at most: the one the node heads, which passes to the next node of that bucket. */
  lemma EntryRemove<V>(nodes: seq<ListIter<MapNode<V>>>, d: seq<MapNode<V>>, p: nat, elements: int, b: int)
    requires |nodes| == |d| && elements > 0 && Sorted(d) && Distinct(nodes) && p < |d|
    ensures Entry(RemoveAt(nodes, p), RemoveAt(d, p), elements, b)
      == if Entry(nodes, d, elements, b) != nodes[p] then Entry(nodes, d, elements, b)
         else if p + 1 < |d| && Slot(d[p + 1].hash, elements) == Slot(d[p].hash, elements) then nodes[p + 1] else null
  {
    FirstFromRemove(d, p, elements, b);
    Apart(nodes, p);
    if p + 1 < |d| {
      SortedHashes(d, p, p + 1, elements);
    }
    hide Before, Slot, Distinct, Sorted;
  }

  /** Where a bucket starts moves down by one if the node removed stood in front. */
  lemma FirstFromRemove<V>(d: seq<MapNode<V>>, p: nat, elements: int, b: int)
    requires elements > 0 && Sorted(d) && p < |d|
    ensures FirstFrom(RemoveAt(d, p), elements, b) ==
            FirstFrom(d, elements, b) - if p < FirstFrom(d, elements, b) then 1 else 0
  {
    hide Before, Slot;
    var q, r := FirstFrom(d, elements, b), RemoveAt(d, p);
    SortedRemove(d, p);
    if p < q {
      if p > 0 {
        SortedHashes(d, p - 1, q - 1, elements);
      }
      FirstFromIs(r, elements, b, q - 1);
    } else {
      if p == q && p + 1 < |d| {
        SortedHashes(d, p, p + 1, elements);
      }
      FirstFromIs(r, elements, b, q);
    }
  }

  /** Bucket b of the old index starts where bucket 2b of the doubled one does. */
  lemma FirstFromSplits<V>(d: seq<MapNode<V>>, half: int, b: int)
    requires half > 0 && Sorted(d)
    ensures FirstFrom(d, half, 2 * b) == FirstFrom(d, 2 * half, b)
  {
    hide Before, Slot;
    var p := FirstFrom(d, 2 * half, b);
    if p > 0 {
      SlotSplits(d[p - 1].hash, half);
    }
    if p < |d| {
      SlotSplits(d[p].hash, half);
    }
    FirstFromIs(d, half, 2 * b, p);
  }

  /** An empty bucket adds nothing: the next one starts at the same place. */
  lemma EmptyBucket<V>(nodes: seq<ListIter<MapNode<V>>>, d: seq<MapNode<V>>, elements: int, b: int)
    requires |nodes| == |d| && elements > 0 && Sorted(d) && Entry(nodes, d, elements, b) == null
    ensures FirstFrom(d, elements, b + 1) == FirstFrom(d, elements, b)
  {
    hide Slot, Sorted;
    FirstFromIs(d, elements, b + 1, FirstFrom(d, elements, b));
  }

  /** The place of a rank is not in front of its bucket. */
  lemma PlaceInBucket<V>(d: seq<MapNode<V>>, r: Rank, elements: int)
    requires elements > 0 && Sorted(d)
    ensures FirstFrom(d, elements, Slot(r.hash, elements)) <= Place(d, r)
    ensures FirstFrom(d, elements, Slot(r.hash, elements) + 1) >= Place(d, r)
  {
    hide Before, Slot, Sorted;
    var p, q := Place(d, r), FirstFrom(d, elements, Slot(r.hash, elements));
    if p < q {
      SortedHashes(d, p, q - 1, elements);
      SlotLess(d[p].hash, r.hash, elements);
      BeforeFacts(RankOf(d[p]), r, r);
    }
    var t := FirstFrom(d, elements, Slot(r.hash, elements) + 1);
    if t < p {
      PlaceBelow(d, r, t);
      BeforeFacts(RankOf(d[t]), r, r);
      SlotMonotone(d[t].hash, r.hash, elements);
    }
  }

  lemma SlotLess(h1: nat, h2: nat, elements: int)
    requires elements > 0 && Slot(h1, elements) < Slot(h2, elements)
    ensures h1 < h2
  {
    if h2 <= h1 {
      SlotMonotone(h2, h1, elements);
    }
  }
}
