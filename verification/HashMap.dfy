/** The hash map of cc_map.c: one list of all nodes in order, and an array of buckets indexing it. */
module HashMap {
  import opened KeyOrder
  import opened Lists
  import opened MapIndex

  const NODE_SIZE := 16
  const MAX_CAPACITY := 0x4000_0000

  /** The key an operation works with: an empty one stands for the eight bytes of its own address. */
  function Effective(key: Key, address: Key): (k: Key)
    ensures key != [] ==> k == key
    ensures key == [] ==> k == address
  {
    if |key| == 0 then address else key
  }

  /** What the nodes weigh together. */
  ghost function SizeOf<V>(d: seq<MapNode<V>>): nat {
    if d == [] then 0 else NODE_SIZE + |d[0].key| + SizeOf(d[1..])
  }

  lemma {:induction false} SizeInsert<V>(d: seq<MapNode<V>>, p: nat, n: MapNode<V>)
    requires p <= |d|
    ensures SizeOf(InsertAt(d, p, n)) == SizeOf(d) + NODE_SIZE + |n.key|
  {
    if p == 0 {
      assert InsertAt(d, 0, n)[1..] == d;
    } else {
      SizeInsert(d[1..], p - 1, n);
      assert InsertAt(d, p, n)[1..] == InsertAt(d[1..], p - 1, n);
    }
  }

  lemma SizeEmpty<V>(d: seq<MapNode<V>>)
    requires |d| == 0
    ensures SizeOf(d) == 0
  {
  }

  lemma SizeRemove<V>(d: seq<MapNode<V>>, p: nat)
    requires p < |d|
    ensures SizeOf(RemoveAt(d, p)) == SizeOf(d) - NODE_SIZE - |d[p].key|
  {
    SizeInsert(RemoveAt(d, p), p, d[p]);
    assert InsertAt(RemoveAt(d, p), p, d[p]) == d;
  }

  /** The place of the rank is not taken by a node of that rank. */
  ghost predicate Missing<V>(d: seq<MapNode<V>>, r: Rank) {
    Place(d, r) < |d| ==> RankOf(d[Place(d, r)]) != r
  }

  /** The iterator whose node has the rank, or null. */
  ghost function Holder<V>(nodes: seq<ListIter<MapNode<V>>>, d: seq<MapNode<V>>, r: Rank): ListIter?<MapNode<V>>
    requires |nodes| == |d|
  {
    if Place(d, r) == |d| || Missing(d, r) then null else nodes[Place(d, r)]
  }

  /** A probe that starts at the bucket of a rank starts at or before its place; an empty bucket settles it. */
  lemma ProbeStart<V>(nodes: seq<ListIter<MapNode<V>>>, d: seq<MapNode<V>>, r: Rank, elements: int)
    requires elements > 0 && Sorted(d) && |nodes| == |d|
    ensures FirstFrom(d, elements, Slot(r.hash, elements)) <= Place(d, r)
    ensures Entry(nodes, d, elements, Slot(r.hash, elements)) == null ==>
      Missing(d, r) && Place(d, r) == FirstFrom(d, elements, Slot(r.hash, elements))
  {
    hide Before, Slot, Sorted, Place;
    PlaceInBucket(d, r, elements);
    if Entry(nodes, d, elements, Slot(r.hash, elements)) == null {
      EmptyBucket(nodes, d, elements, Slot(r.hash, elements));
    }
  }

  /** What looking at the node under the probe tells about the place of the rank. */
  lemma ProbeStep<V>(d: seq<MapNode<V>>, r: Rank, p: nat, elements: int)
    requires elements > 0 && Sorted(d)
    requires FirstFrom(d, elements, Slot(r.hash, elements)) <= p <= Place(d, r) && p < |d|
    ensures Slot(d[p].hash, elements) != Slot(r.hash, elements) ==> Place(d, r) == p && Missing(d, r)
    ensures Compare(RankOf(d[p]), r) > 0 ==> Place(d, r) == p && Missing(d, r)
    ensures Compare(RankOf(d[p]), r) == 0 ==> Place(d, r) == p && RankOf(d[p]) == r
    ensures Compare(RankOf(d[p]), r) < 0 && Slot(d[p].hash, elements) == Slot(r.hash, elements) ==> p < Place(d, r)
  {
    hide Slot, Compare, Sorted;
    var q := FirstFrom(d, elements, Slot(r.hash, elements));
    CompareZero(RankOf(d[p]), r);
    SortedHashes(d, q, p, elements);
    if p < Place(d, r) {
      PlaceBelow(d, r, p);
      BeforeFacts(RankOf(d[p]), r, r);
      SlotMonotone(d[p].hash, r.hash, elements);
    }
  }

  /** An empty bucket splits into two empty ones; the first node of a bucket heads one of its halves. */
  lemma SplitEntries<V>(nodes: seq<ListIter<MapNode<V>>>, d: seq<MapNode<V>>, half: int, k: nat)
    requires half > 0 && Sorted(d) && |nodes| == |d|
    ensures Entry(nodes, d, 2 * half, k) == null ==>
      Entry(nodes, d, half, 2 * k) == null && Entry(nodes, d, half, 2 * k + 1) == null
    ensures Entry(nodes, d, 2 * half, k) != null ==>
      var p := FirstFrom(d, 2 * half, k);
      && p < |d| && Entry(nodes, d, 2 * half, k) == nodes[p] && p <= FirstFrom(d, half, 2 * k + 1)
      && Entry(nodes, d, half, 2 * k) == if Slot(d[p].hash, half) == 2 * k then nodes[p] else null
  {
    hide Slot, Sorted, FirstFrom;
    var p, q := FirstFrom(d, 2 * half, k), FirstFrom(d, half, 2 * k + 1);
    FirstFromSplits(d, half, k);
    if q < p {
      SortedHashes(d, q, p - 1, half);
    }
    if p < |d| {
      SlotSplits(d[p].hash, half);
      if Slot(d[p].hash, 2 * half) != k {
        FirstFromIs(d, half, 2 * k + 1, p);
      }
    }
  }

  /** Walking on from below the first node of bucket j, the slot seen tells whether it has been reached. */
  lemma HeadData<V>(l: List<MapNode<V>>, iter: ListIter<MapNode<V>>, p: nat)
    requires p < |l.nodes| && iter == l.nodes[p]
    ensures iter.data == l.Data()[p]
  {
  }

  lemma NodesDistinct<V>(l: List<MapNode<V>>)
    requires l.Valid()
    ensures Distinct(l.nodes)
  {
  }

  lemma SplitStep<V>(d: seq<MapNode<V>>, elements: int, j: int, p: nat)
    requires elements > 0 && Sorted(d) && p <= FirstFrom(d, elements, j) && p < |d|
    ensures Slot(d[p].hash, elements) >= j ==> FirstFrom(d, elements, j) == p
    ensures Slot(d[p].hash, elements) < j ==> p < FirstFrom(d, elements, j)
  {
    hide Slot, Sorted;
    if p < FirstFrom(d, elements, j) {
      SortedHashes(d, p, FirstFrom(d, elements, j) - 1, elements);
    }
  }

  lemma HashInRange<V>(seed: bv32, d: seq<MapNode<V>>, p: nat)
    requires Hashed(seed, d) && p < |d|
    ensures d[p].hash < HASHES
  {
  }

  /** Only the bucket of its own hash can point at a node. */
  lemma HeadsOwnBucket<V>(nodes: seq<ListIter<MapNode<V>>>, d: seq<MapNode<V>>, p: nat, elements: int, b: int)
    requires |nodes| == |d| && elements > 0 && Distinct(nodes) && p < |d|
    ensures Entry(nodes, d, elements, b) == nodes[p] ==> b == Slot(d[p].hash, elements)
  {
    hide Slot;
    Apart(nodes, p);
  }

  /** Passing on the bucket that the node heads is all a removal asks of the index. */
  lemma BucketsRemove<V>(was: seq<ListIter?<MapNode<V>>>, now: seq<ListIter?<MapNode<V>>>,
                         nodes: seq<ListIter<MapNode<V>>>, d: seq<MapNode<V>>, p: nat, elements: int)
    requires |nodes| == |d| && elements > 0 && Sorted(d) && Distinct(nodes) && p < |d| && |was| == |now|
    requires forall b | 0 <= b < |was| :: was[b] == Entry(nodes, d, elements, b)
    requires var idx := Slot(d[p].hash, elements);
      forall b | 0 <= b < |was| ::
        now[b] == if b != idx || was[b] != nodes[p] then was[b]
                  else if p + 1 < |d| && Slot(d[p + 1].hash, elements) == idx then nodes[p + 1] else null
    ensures |RemoveAt(nodes, p)| == |RemoveAt(d, p)|
    ensures forall b | 0 <= b < |was| :: now[b] == Entry(RemoveAt(nodes, p), RemoveAt(d, p), elements, b)
  {
    hide Slot, Entry, Sorted, Distinct;
    forall b | 0 <= b < |was| ensures now[b] == Entry(RemoveAt(nodes, p), RemoveAt(d, p), elements, b) {
      EntryRemove(nodes, d, p, elements, b);
      HeadsOwnBucket(nodes, d, p, elements, b);
    }
  }

  /** A larger array that starts with the elements of a; what follows them is indeterminate. */
  method Reallocate<T(0)>(a: array<T>, size: nat) returns (b: array<T>)
    requires a.Length <= size
    ensures fresh(b) && b.Length == size && b[..a.Length] == a[..]
  {
    b := new T[size];
    for i := 0 to a.Length
      invariant b[..i] == a[..i]
    {
      b[i] := a[i];
    }
  }

  class Map<V> {
    const seed: bv32
    var capacity: int
    var elements: int
    var buckets: array<ListIter?<MapNode<V>>>
    var nodesSize: int
    const nodes: List<MapNode<V>>

    /** Bucket b points at the first node whose hash it covers, or nowhere. */
    ghost predicate Indexed()
      requires elements > 0
      reads this, buckets, nodes, nodes.nodes
    {
      forall b | 0 <= b < buckets.Length :: buckets[b] == Entry(nodes.nodes, nodes.Data(), elements, b)
    }

    ghost predicate Valid()
      reads this, buckets, nodes, nodes.nodes
    {
      && nodes.Valid()
      && elements > 0 && Sized(capacity, elements) && buckets.Length == capacity
      && Sorted(nodes.Data()) && Hashed(seed, nodes.Data())
      && Indexed()
      && nodesSize == SizeOf(nodes.Data())
    }

    /** The finite map this object stands for. */
    ghost function Contents(): map<Key, V>
      reads this, nodes, nodes.nodes
    {
      Model(nodes.Data())
    }

    constructor (seed: bv32)
      ensures Valid() && Contents() == map[] && capacity == 16 && nodesSize == 0
      ensures fresh(nodes) && fresh(buckets) && nodes.nodes == [] && this.seed == seed
    {
      this.seed := seed;
      capacity := CAPACITY;
      elements := HASHES / CAPACITY;
      buckets := new ListIter?<MapNode<V>>[CAPACITY](_ => null);
      nodes := new List<MapNode<V>>();
      nodesSize := 0;
      new;
      SizedStart();
    }

    /** A new map, unless one of its three allocations fails; held counts the blocks that stay allocated. */
    static method Create(seed: bv32, allocMap: bool, allocBuckets: bool, allocNodes: bool)
        returns (m: Map?<V>, held: nat)
      ensures m != null <==> allocMap && allocBuckets && allocNodes
      ensures held == if m == null then 0 else 3
      ensures m != null ==>
        fresh(m) && fresh(m.nodes) && fresh(m.buckets) && m.Valid() && m.Contents() == map[] && m.capacity == 16
    {
      m, held := null, 0;
      if !allocMap {
        return;
      }
      held := held + 1;
      if allocBuckets {
        held := held + 1;
        if allocNodes {
          held := held + 1;
          m := new Map<V>(seed);
          return;
        }
        held := held - 1;
      }
      held := held - 1;
    }

    /** The iterator holding a key, or null when the map does not have it. */
    method Findp(key: Key, address: Key) returns (r: ListIter?<MapNode<V>>)
      requires Valid() && |address| == 8
      ensures key != [] ==> (r != null <==> key in Contents())
      ensures key == [] ==> (r != null <==> address in Contents())
      ensures r != null ==> r in nodes.nodes && r.data.key == if key == [] then address else key
      ensures r != null ==> r.data.key in Contents() && r.data.val == Contents()[r.data.key]
    {
      hide Slot, Compare, HashOf, Sized, Sorted, Hashed, Model, FirstFrom, Place, SizeOf;
      if |key| > KEYLEN {
        TooLong(key);
        return null;
      }
      var key8 := if |key| == 0 then address else key;
      var hash := Hash(key8);
      Found(seed, nodes.Data(), Rank(hash, key8));
      r := Probe(Rank(hash, key8));
    }

    /** Walks from the bucket of a hash towards the place of the rank. */
    method Probe(rank: Rank) returns (r: ListIter?<MapNode<V>>)
      requires Valid() && rank.hash < HASHES
      ensures r == Holder(nodes.nodes, nodes.Data(), rank)
    {
      hide Slot, Compare, Sized, Sorted, Hashed, FirstFrom, Place, SizeOf, Model;
      var idx := Slot(rank.hash, elements);
      SizedFacts(capacity, elements);
      SlotInRange(rank.hash, capacity, elements);
      var miter := buckets[idx];
      ghost var d := nodes.Data();
      ghost var p := FirstFrom(d, elements, idx);
      ProbeStart(nodes.nodes, d, rank, elements);
      while miter != null
        invariant FirstFrom(d, elements, idx) <= p <= Place(d, rank)
        invariant miter != null ==> miter == At(nodes.nodes, p)
        invariant miter == null ==> Missing(d, rank)
        decreases |d| - p
      {
        ProbeStep(d, rank, p, elements);
        var node := miter.data;
        if Slot(node.hash, elements) != idx {
          return null;
        }
        var cmp := NodeCompare(RankOf(node), rank);
        if cmp == 0 {
          return miter;
        } else if cmp > 0 {
          return null;
        }
        miter := miter.next;
        p := p + 1;
      }
      r := null;
    }

    method Hash(key: Key) returns (h: nat)
      ensures h == HashOf(seed, key)
    {
      var w := Murmur.MurmurHash3(ToWords(key), seed);
      h := w as nat;
    }

    /** Doubles the index when there are more nodes than buckets and the reallocation succeeds. */
    method Grow(alloc: bool)
      requires Valid() && |nodes.nodes| <= MAX_CAPACITY
      modifies this
      ensures Valid() && nodesSize == old(nodesSize)
      ensures capacity == if alloc && |nodes.nodes| > old(capacity) then 2 * old(capacity) else old(capacity)
      ensures capacity == old(capacity) ==> buckets == old(buckets)
      ensures capacity != old(capacity) ==> fresh(buckets)
    {
      hide Entry, Sorted, Hashed, SizeOf, Sized;
      if nodes.size <= capacity {
        return;
      }
      SizedFacts(capacity, elements);
      SizedDouble(capacity, elements);
      var capacity1 := capacity;
      var capacity2 := 2 * capacity;
      if !alloc {
        return;
      }
      var buckets2 := Reallocate(buckets, capacity2);
      capacity := capacity2;
      elements := HASHES / capacity;
      buckets := buckets2;
      Split(capacity1);
    }

    /** Rewrites the index in place from the last old bucket down: bucket k becomes buckets 2k and 2k + 1. */
    method Split(capacity1: int)
      requires nodes.Valid() && Sorted(nodes.Data())
      requires capacity1 > 0 && elements > 0 && buckets.Length == 2 * capacity1
      requires forall b | 0 <= b < capacity1 :: buckets[b] == Entry(nodes.nodes, nodes.Data(), 2 * elements, b)
      modifies buckets
      ensures Indexed()
    {
      hide Entry, Sorted;
      var k := capacity1 - 1;
      while k >= 0
        invariant -1 <= k < capacity1
        invariant forall b | 0 <= b <= k :: buckets[b] == Entry(nodes.nodes, nodes.Data(), 2 * elements, b)
        invariant forall b | 2 * k + 2 <= b < 2 * capacity1 ::
          buckets[b] == Entry(nodes.nodes, nodes.Data(), elements, b)
      {
        SplitBucket(k);
        k := k - 1;
      }
    }

    method SplitBucket(k: nat)
      requires nodes.Valid() && Sorted(nodes.Data())
      requires elements > 0 && 2 * k + 1 < buckets.Length
      requires buckets[k] == Entry(nodes.nodes, nodes.Data(), 2 * elements, k)
      modifies buckets
      ensures buckets[2 * k] == Entry(nodes.nodes, nodes.Data(), elements, 2 * k)
      ensures buckets[2 * k + 1] == Entry(nodes.nodes, nodes.Data(), elements, 2 * k + 1)
      ensures forall b | 0 <= b < buckets.Length && b != 2 * k && b != 2 * k + 1 :: buckets[b] == old(buckets[b])
    {
      hide Slot, Sorted, FirstFrom, Entry, DataOf, List.Valid, SizeOf;
      ghost var ns, d := nodes.nodes, nodes.Data();
      ghost var p := FirstFrom(d, 2 * elements, k);
      SplitEntries(ns, d, elements, k);
      var iter := buckets[k];
      if iter != null {
        HeadData(nodes, iter, p);
      }
      var i := 2 * k;
      var j := i + 1;
      buckets[i] := null;
      buckets[j] := null;
      if iter == null {
        return;
      }
      var node := iter.data;
      var idx := Slot(node.hash, elements);
      if idx == i {
        buckets[i] := iter;
      }
      assert nodes.Data() == d;
      var second := Walk(iter, j, p);
      if second != null {
        buckets[j] := second;
      }
    }

    /** Walks on from the first node of a bucket to the first node of its upper half, bucket j, if there is one. */
    method Walk(start: ListIter<MapNode<V>>, j: int, ghost at: nat) returns (r: ListIter?<MapNode<V>>)
      requires nodes.Valid() && Sorted(nodes.Data()) && elements > 0
      requires at <= FirstFrom(nodes.Data(), elements, j) && start == At(nodes.nodes, at)
      ensures r == Entry(nodes.nodes, nodes.Data(), elements, j)
    {
      hide Slot, Sorted, FirstFrom;
      ghost var d, p := nodes.Data(), at;
      var iter: ListIter?<MapNode<V>> := start;
      while iter != null
        invariant p <= FirstFrom(d, elements, j) && iter == At(nodes.nodes, p)
        decreases |d| - p
      {
        var node := iter.data;
        var idx := Slot(node.hash, elements);
        SplitStep(d, elements, j, p);
        if idx == j {
          return iter;
        } else if idx > j {
          return null;
        }
        iter := iter.next;
        p := p + 1;
      }
      r := null;
    }

    /** Nothing about the map differs from before. */
    twostate predicate Untouched()
      reads this, buckets, nodes, nodes.nodes
    {
      && unchanged(this) && buckets[..] == old(buckets[..])
      && nodes.nodes == old(nodes.nodes) && nodes.Data() == old(nodes.Data())
    }

    /** Links a node in at its place and lets its bucket point at it when it comes first there. */
    method InsertNode(miterAt: ListIter?<MapNode<V>>, hash: nat, idx: nat, val: V, key: Key,
                      allocNode: bool, allocIter: bool) returns (r: ListIter?<MapNode<V>>)
      requires Valid() && 0 < |key| <= KEYLEN && hash == HashOf(seed, key) && idx == Slot(hash, elements)
      requires key !in Contents() && miterAt == At(nodes.nodes, Place(nodes.Data(), Rank(hash, key)))
      modifies this`nodesSize, buckets, nodes, nodes.nodes
      ensures Valid()
      ensures !(allocNode && allocIter) ==> r == null && Untouched()
      ensures allocNode && allocIter ==> r != null && fresh(r) && r.data == MapNode(val, hash, key)
      ensures allocNode && allocIter ==>
        && nodes.nodes == InsertAt<ListIter<MapNode<V>>>(old(nodes.nodes), Place(old(nodes.Data()), Rank(hash, key)), r)
        && nodes.Data() == InsertAt(old(nodes.Data()), Place(old(nodes.Data()), Rank(hash, key)), r.data)
        && Contents() == old(Contents())[key := val]
        && nodesSize == old(nodesSize) + NODE_SIZE + |key|
    {
      hide Slot, HashOf, Entry, Sorted, Hashed, Model, SizeOf, Sized, Place, InsertAt, DataOf, Distinct, List.Valid;
      NodesDistinct(nodes);
      if !allocNode {
        return null;
      }
      var node := MapNode(val, hash, key);
      nodesSize := nodesSize + NODE_SIZE + |key|;
      ghost var ns, d, p := nodes.nodes, nodes.Data(), Place(nodes.Data(), RankOf(node));
      Found(seed, d, RankOf(node));
      SizedFacts(capacity, elements);
      SlotInRange(hash, capacity, elements);
      r := LinkNode(miterAt, idx, node, allocIter, p);
      if r == null {
        nodesSize := nodesSize - NODE_SIZE - |key|;
        return null;
      }
      ModelInsert(seed, d, node);
      SizeInsert(d, p, node);
      forall b | 0 <= b < capacity
        ensures buckets[b] == Entry(nodes.nodes, nodes.Data(), elements, b)
      {
        EntryInsert(ns, d, node, r, elements, b);
      }
    }

    /** Puts a node in front of miterAt, or at the tail; bucket idx is replaced when it is empty or headed by
        miterAt. */
    method LinkNode(miterAt: ListIter?<MapNode<V>>, idx: nat, node: MapNode<V>, alloc: bool, ghost p: nat)
        returns (r: ListIter?<MapNode<V>>)
      requires nodes.Valid() && idx < buckets.Length && p <= |nodes.nodes| && miterAt == At(nodes.nodes, p)
      modifies buckets, nodes, nodes.nodes
      ensures nodes.Valid()
      ensures !alloc ==> r == null && nodes.nodes == old(nodes.nodes) && nodes.Data() == old(nodes.Data())
      ensures !alloc ==> buckets[..] == old(buckets[..])
      ensures alloc ==> r != null && fresh(r) && r.data == node
      ensures alloc ==> nodes.nodes == InsertAt<ListIter<MapNode<V>>>(old(nodes.nodes), p, r)
      ensures alloc ==> nodes.Data() == InsertAt(old(nodes.Data()), p, node)
      ensures alloc ==>
        forall b | 0 <= b < buckets.Length ::
          buckets[b] == if b == idx && (old(buckets[b]) == null || old(buckets[b]) == miterAt) then r
                        else old(buckets[b])
    {
      hide InsertAt, DataOf, Distinct, IndexOf;
      var replace := false;
      if miterAt != null {
        if buckets[idx] == null || buckets[idx] == miterAt {
          replace := true;
        }
        IndexOfAt(nodes.nodes, p);
        r := nodes.Insert(miterAt, node, alloc);
      } else {
        if buckets[idx] == null {
          replace := true;
        }
        r := nodes.Append(null, node, alloc);
      }
      if r == null {
        return;
      }
      if replace {
        buckets[idx] := r;
      }
    }

    method AddAt(miterAt: ListIter?<MapNode<V>>, hash: nat, idx: nat, val: V, key: Key,
                 allocNode: bool, allocIter: bool, allocBuckets: bool) returns (r: ListIter?<MapNode<V>>)
      requires Valid() && |nodes.nodes| < MAX_CAPACITY
      requires 0 < |key| <= KEYLEN && hash == HashOf(seed, key) && idx == Slot(hash, elements)
      requires key !in Contents() && miterAt == At(nodes.nodes, Place(nodes.Data(), Rank(hash, key)))
      modifies this, buckets, nodes, nodes.nodes
      ensures Valid() && (buckets == old(buckets) || fresh(buckets))
      ensures !(allocNode && allocIter) ==> r == null && Untouched()
      ensures allocNode && allocIter ==> r != null && fresh(r) && r.data == MapNode(val, hash, key)
      ensures allocNode && allocIter ==>
        && nodes.nodes == InsertAt<ListIter<MapNode<V>>>(old(nodes.nodes), Place(old(nodes.Data()), Rank(hash, key)), r)
        && nodes.Data() == InsertAt(old(nodes.Data()), Place(old(nodes.Data()), Rank(hash, key)), r.data)
        && Contents() == old(Contents())[key := val]
        && nodesSize == old(nodesSize) + NODE_SIZE + |key|
      ensures capacity == if r != null && allocBuckets && |nodes.nodes| > old(capacity) then 2 * old(capacity)
                          else old(capacity)
    {
      hide Slot, HashOf, Entry, Sorted, Hashed, Model, SizeOf, Sized, Place, DataOf, Distinct;
      r := InsertNode(miterAt, hash, idx, val, key, allocNode, allocIter);
      if r != null {
        Grow(allocBuckets);
      }
    }

    /** Adds a key that is not there yet. A key that is there, a key too long or a failed allocation add nothing. */
    method Addp(val: V, key: Key, address: Key, allocNode: bool, allocIter: bool, allocBuckets: bool)
        returns (r: ListIter?<MapNode<V>>)
      requires Valid() && |address| == 8 && |nodes.nodes| < MAX_CAPACITY
      modifies this, buckets, nodes, nodes.nodes
      ensures Valid() && (buckets == old(buckets) || fresh(buckets))
      ensures key != [] ==> (r != null <==> |key| <= 256 && key !in old(Contents()) && allocNode && allocIter)
      ensures key == [] ==> (r != null <==> address !in old(Contents()) && allocNode && allocIter)
      ensures r == null ==> Untouched()
      ensures r != null ==> fresh(r) && r.data.val == val && r.data.key == if key == [] then address else key
      ensures r != null ==> Contents() == old(Contents())[r.data.key := val]
      ensures r != null ==>
        nodes.nodes == InsertAt<ListIter<MapNode<V>>>(old(nodes.nodes), Place(old(nodes.Data()), RankOf(r.data)), r)
      ensures r != null ==>
        nodes.Data() == InsertAt(old(nodes.Data()), Place(old(nodes.Data()), RankOf(r.data)), r.data)
      ensures r != null ==> nodesSize == old(nodesSize) + 16 + |r.data.key|
      ensures capacity == if r != null && allocBuckets && |nodes.nodes| > old(capacity) then 2 * old(capacity)
                          else old(capacity)
    {
      hide Slot, HashOf, Entry, Sorted, Hashed, Model, SizeOf, Sized, Place, DataOf, Distinct, InsertAt;
      if |key| > KEYLEN {
        return null;
      }
      var key8 := if |key| == 0 then address else key;
      var hash := Hash(key8);
      var idx := Slot(hash, elements);
      Found(seed, nodes.Data(), Rank(hash, key8));
      var taken, miter := FindPlace(Rank(hash, key8), idx);
      if taken {
        return null;
      }
      r := AddAt(miter, hash, idx, val, key8, allocNode, allocIter, allocBuckets);
    }

    /** Where a new node goes: inside its bucket, or in front of the next bucket in use when its own is empty. */
    method FindPlace(rank: Rank, idx: nat) returns (taken: bool, at: ListIter?<MapNode<V>>)
      requires Valid() && rank.hash < HASHES && idx == Slot(rank.hash, elements)
      ensures taken <==> Place(nodes.Data(), rank) < |nodes.nodes| && !Missing(nodes.Data(), rank)
      ensures !taken ==> at == At(nodes.nodes, Place(nodes.Data(), rank))
    {
      hide Slot, Compare, Sized, Sorted, Hashed, FirstFrom, Place, SizeOf, Model, DataOf, Distinct;
      SizedFacts(capacity, elements);
      SlotInRange(rank.hash, capacity, elements);
      ghost var d := nodes.Data();
      ghost var p := FirstFrom(d, elements, idx);
      ProbeStart(nodes.nodes, d, rank, elements);
      var miter := buckets[idx];
      if miter == null {
        at := NextInUse(idx);
        return false, at;
      }
      while miter != null
        invariant FirstFrom(d, elements, idx) <= p <= Place(d, rank) && miter == At(nodes.nodes, p)
        decreases |d| - p
      {
        ProbeStep(d, rank, p, elements);
        var node := miter.data;
        if Slot(node.hash, elements) != idx {
          return false, miter;
        }
        var cmp := NodeCompare(RankOf(node), rank);
        if cmp == 0 {
          return true, null;
        } else if cmp > 0 {
          return false, miter;
        }
        miter := miter.next;
        p := p + 1;
      }
      return false, null;
    }

    /** The first node behind an empty bucket, found through the next bucket in use. */
    method NextInUse(idx: nat) returns (at: ListIter?<MapNode<V>>)
      requires Valid() && idx < capacity && buckets[idx] == null
      ensures at == At(nodes.nodes, FirstFrom(nodes.Data(), elements, idx))
    {
      hide Slot, Sorted, Hashed, FirstFrom, SizeOf, Model, DataOf, Distinct, Sized;
      ghost var ns, d := nodes.nodes, nodes.Data();
      EmptyBucket(ns, d, elements, idx);
      var i := idx + 1;
      while i < capacity
        invariant idx < i <= capacity
        invariant FirstFrom(d, elements, i) == FirstFrom(d, elements, idx)
      {
        if buckets[i] != null {
          return buckets[i];
        }
        EmptyBucket(ns, d, elements, i);
        i := i + 1;
      }
      at := null;
      PastTheEnd();
    }

    lemma PastTheEnd()
      requires Valid()
      ensures FirstFrom(nodes.Data(), elements, capacity) == |nodes.nodes|
    {
      hide Slot, Entry, Sorted, SizeOf, Sized, Model;
      var d, p := nodes.Data(), FirstFrom(nodes.Data(), elements, capacity);
      SizedFacts(capacity, elements);
      if p < |d| {
        SlotInRange(d[p].hash, capacity, elements);
      }
    }

    /** Removes the node under an iterator and gives back its value and the iterator behind it. */
    method Remove(miter: ListIter<MapNode<V>>) returns (val: V, next: ListIter?<MapNode<V>>)
      requires Valid() && miter in nodes.nodes
      modifies this`nodesSize, buckets, nodes, nodes.nodes
      ensures Valid()
      ensures val == old(miter.data.val) && Contents() == old(Contents()) - {old(miter.data.key)}
      ensures nodes.nodes == RemoveAt(old(nodes.nodes), IndexOf(old(nodes.nodes), miter))
      ensures nodes.Data() == RemoveAt(old(nodes.Data()), IndexOf(old(nodes.nodes), miter))
      ensures next == At(old(nodes.nodes), IndexOf(old(nodes.nodes), miter) + 1)
      ensures nodesSize == old(nodesSize) - 16 - |old(miter.data.key)|
    {
      hide Slot, HashOf, Entry, Sorted, Hashed, Model, SizeOf, Sized, DataOf, RemoveAt, IndexOf, List.Valid, Distinct;
      ghost var ns, d, p := nodes.nodes, nodes.Data(), IndexOf(nodes.nodes, miter);
      var node := miter.data;
      val := node.val;
      var idx := Slot(node.hash, elements);
      NodesDistinct(nodes);
      SizedFacts(capacity, elements);
      HashInRange(seed, d, p);
      SlotInRange(node.hash, capacity, elements);
      ghost var bs := buckets[..];
      Relay(miter, idx);
      var _, next' := nodes.Remove(miter);
      next := next';
      nodesSize := nodesSize - NODE_SIZE - |node.key|;
      ModelRemove(seed, d, p);
      SizeRemove(d, p);
      BucketsRemove(bs, buckets[..], ns, d, p, elements);
      assert forall b | 0 <= b < buckets.Length :: buckets[b] == buckets[..][b];
    }

    /** Before a node goes, its bucket passes to the next node if that lies in the same bucket. */
    method Relay(miter: ListIter<MapNode<V>>, idx: nat)
      requires nodes.Valid() && miter in nodes.nodes && elements > 0 && idx < buckets.Length
      modifies buckets
      ensures forall b | 0 <= b < buckets.Length && (b != idx || old(buckets[b]) != miter) ::
        buckets[b] == old(buckets[b])
      ensures old(buckets[idx]) == miter ==>
        var p := IndexOf(nodes.nodes, miter);
        buckets[idx] == if p + 1 < |nodes.nodes| && Slot(nodes.nodes[p + 1].data.hash, elements) == idx
                        then nodes.nodes[p + 1] else null
    {
      hide Slot, IndexOf;
      if buckets[idx] == miter {
        var next := miter.next;
        if next != null {
          var tmp := next.data;
          if Slot(tmp.hash, elements) != idx {
            next := null;
          }
        }
        buckets[idx] := next;
      }
    }

    /** Empties the map and keeps its capacity. */
    method Discard()
      requires Valid()
      modifies this`nodesSize, buckets, nodes, nodes.nodes
      ensures Valid() && Contents() == map[] && nodes.nodes == [] && nodesSize == 0
    {
      hide Slot, HashOf, Sized;
      ClearBuckets();
      DeleteNodes();
    }

    method ClearBuckets()
      requires buckets.Length == capacity
      modifies buckets
      ensures forall b | 0 <= b < buckets.Length :: buckets[b] == null
    {
      for i := 0 to capacity
        invariant forall b | 0 <= b < i :: buckets[b] == null
      {
        buckets[i] := null;
      }
    }

    method DeleteNodes()
      requires nodes.Valid() && nodesSize == SizeOf(nodes.Data())
      modifies this`nodesSize, nodes, nodes.nodes
      ensures nodes.Valid() && nodes.nodes == [] && nodesSize == 0
    {
      hide DataOf, SizeOf, List.Valid;
      HeadIs();
      var iter := nodes.head;
      ghost var k := 0;
      while iter != null
        invariant nodes.Valid() && iter == At(nodes.nodes, 0) && k <= |old(nodes.nodes)|
        invariant nodes.nodes == old(nodes.nodes)[k..] && nodesSize == SizeOf(nodes.Data())
        decreases |nodes.nodes|
      {
        iter := DeleteHead(iter);
        k := k + 1;
      }
      SizeEmpty(nodes.Data());
    }

    lemma HeadIs()
      requires nodes.Valid()
      ensures nodes.head == At(nodes.nodes, 0)
      ensures nodes.nodes != [] ==> IndexOf(nodes.nodes, nodes.nodes[0]) == 0
    {
    }

    lemma HeadGone()
      requires nodes.nodes != []
      ensures RemoveAt(nodes.nodes, 0) == nodes.nodes[1..] && At(nodes.nodes[1..], 0) == At(nodes.nodes, 1)
      ensures var d := nodes.Data();
        SizeOf(RemoveAt(d, 0)) == SizeOf(d) - NODE_SIZE - |nodes.nodes[0].data.key|
    {
      RemoveFirst(nodes.nodes);
      SizeRemove(nodes.Data(), 0);
    }

    method DeleteHead(iter: ListIter<MapNode<V>>) returns (next: ListIter?<MapNode<V>>)
      requires nodes.Valid() && nodes.nodes != [] && iter == nodes.nodes[0] && nodesSize == SizeOf(nodes.Data())
      modifies this`nodesSize, nodes, nodes.nodes
      ensures nodes.Valid() && nodes.nodes == old(nodes.nodes)[1..] && nodesSize == SizeOf(nodes.Data())
      ensures next == At(nodes.nodes, 0)
    {
      hide DataOf, RemoveAt, IndexOf, SizeOf, List.Valid, DataKept;
      HeadIs();
      HeadGone();
      var node, next' := nodes.Remove(iter);
      nodesSize := nodesSize - NODE_SIZE - |node.key|;
      next := next';
    }

    lemma TooLong(key: Key)
      requires Valid() && |key| > 256
      ensures key !in Contents()
    {
      ModelKeys(nodes.Data(), key);
    }
  }
}
