/** Whole runs of the hash map against a plain finite map. */
module MapRuns {
  import opened KeyOrder
  import opened HashMap
  import opened Lists
  import opened MapIndex

  /** A call of the map, with the outcome of every allocation it may ask for. */
  datatype Call<V> =
    | Find(key: Key, address: Key)
    | Add(val: V, key: Key, address: Key, allocNode: bool, allocIter: bool, allocBuckets: bool)
    | Delete(key: Key, address: Key)
    | Clear

  /** What a caller learns from a call. */
  datatype Answer<V> = Nothing | Value(val: V) | Added

  ghost predicate WellFormed<V>(c: Call<V>) {
    c.Clear? || |c.address| == 8
  }

  /** The finite map after a call. Only an addition that succeeds or a deletion that hits changes it. */
  ghost function After<V>(m: map<Key, V>, c: Call<V>): map<Key, V> {
    match c
    case Find(_, _) => m
    case Add(val, key, address, _, _, _) => if Accepts(m, c) then m[Effective(key, address) := val] else m
    case Delete(key, address) => m - {Effective(key, address)}
    case Clear => map[]
  }

  ghost predicate Accepts<V>(m: map<Key, V>, c: Call<V>) {
    c.Add? && |c.key| <= 256 && Effective(c.key, c.address) !in m && c.allocNode && c.allocIter
  }

  ghost function Reply<V>(m: map<Key, V>, c: Call<V>): Answer<V> {
    match c
    case Find(key, address) => if Effective(key, address) in m then Value(m[Effective(key, address)]) else Nothing
    case Add(_, _, _, _, _, _) => if Accepts(m, c) then Added else Nothing
    case Delete(key, address) => if Effective(key, address) in m then Value(m[Effective(key, address)]) else Nothing
    case Clear => Nothing
  }

  ghost function Replies<V>(m: map<Key, V>, calls: seq<Call<V>>): seq<Answer<V>>
    decreases |calls|
  {
    if calls == [] then [] else [Reply(m, calls[0])] + Replies(After(m, calls[0]), calls[1..])
  }

  /** What the finite map answers and becomes, in terms of the key: a key is the same wherever it lies, and only an
      empty one stands for its address. */
  lemma KeysCountNotAddresses<V>(m: map<Key, V>, key: Key, a: Key, val: V, node: bool, iter: bool, buckets: bool)
    ensures 0 < |key| <= 256 && key !in m && node && iter ==>
      && After(m, Add(val, key, a, node, iter, buckets)) == m[key := val]
      && Reply(m, Add(val, key, a, node, iter, buckets)) == Added
    ensures key == [] && a !in m && node && iter ==>
      && After(m, Add(val, key, a, node, iter, buckets)) == m[a := val]
      && Reply(m, Add(val, key, a, node, iter, buckets)) == Added
    ensures |key| > 256 || (key != [] && key in m) || (key == [] && a in m) || !node || !iter ==>
      After(m, Add(val, key, a, node, iter, buckets)) == m && Reply(m, Add(val, key, a, node, iter, buckets)) == Nothing
    ensures key != [] ==>
      && Reply(m, Find(key, a)) == (if key in m then Value(m[key]) else Nothing)
      && Reply(m, Delete(key, a)) == (if key in m then Value(m[key]) else Nothing)
      && After(m, Delete(key, a)) == m - {key}
    ensures key == [] ==>
      && Reply(m, Find(key, a)) == (if a in m then Value(m[a]) else Nothing)
      && Reply(m, Delete(key, a)) == (if a in m then Value(m[a]) else Nothing)
      && After(m, Delete(key, a)) == m - {a}
    ensures After(m, Find(key, a)) == m && After(m, Clear) == map[]
  {
  }

  /** What is added under a key from one address is found, and deleted, under that key from any other, and only once. */
  lemma AddFindDelete<V>(m: map<Key, V>, key: Key, a: Key, b: Key, c: Key, val: V, buckets: bool)
    requires 0 < |key| <= 256 && key !in m
    ensures Replies(m, [Add(val, key, a, true, true, buckets), Find(key, b), Delete(key, c), Find(key, b)]) ==
      [Added, Value(val), Value(val), Nothing]
  {
    var add := Add(val, key, a, true, true, buckets);
    var m1 := After(m, add);
    assert m1 == m[key := val];
    var calls := [add, Find(key, b), Delete(key, c), Find(key, b)];
    assert calls[1..] == [Find(key, b), Delete(key, c), Find(key, b)];
    assert calls[1..][1..] == [Delete(key, c), Find(key, b)];
    assert calls[1..][1..][1..] == [Find(key, b)];
    assert calls[1..][1..][1..][1..] == [];
    assert After(m1, Delete(key, c)) == m1 - {key};
    assert Replies(m1 - {key}, [Find(key, b)]) == [Nothing];
    assert Replies(m1, [Delete(key, c), Find(key, b)]) == [Value(val), Nothing];
    assert Replies(m1, calls[1..]) == [Value(val), Value(val), Nothing];
  }

  /** The map has fewer than 2^30 entries whenever something is to be added, however many calls were made before. */
  ghost predicate Roomy<V>(m: map<Key, V>, calls: seq<Call<V>>)
    decreases |calls|
  {
    calls == [] || ((calls[0].Add? ==> |m| < 0x4000_0000) && Roomy(After(m, calls[0]), calls[1..]))
  }

  /** No addition of the run is denied the memory for a larger index. */
  ghost predicate MayGrow<V>(calls: seq<Call<V>>) { forall c | c in calls && c.Add? :: c.allocBuckets }

  /** Any run of calls on a new map, under any allocation failures, is answered as the finite map would answer it. As
      long as the index may grow, the nodes never outnumber its buckets. */
  method Run<V>(seed: bv32, calls: seq<Call<V>>) returns (answers: seq<Answer<V>>, crowded: bool)
    requires Roomy(map[], calls)
    requires forall c | c in calls :: WellFormed(c)
    ensures answers == Replies(map[], calls)
    ensures MayGrow(calls) ==> !crowded
  {
    hide Model, DataOf, Sorted, Hashed, Sized, Entry, After, Reply, Distinct, SizeOf;
    var m := new Map<V>(seed);
    answers := [];
    var i := 0;
    while i < |calls|
      invariant 0 <= i <= |calls| && m.Valid() && Roomy(m.Contents(), calls[i..])
      invariant fresh(m) && fresh(m.buckets) && fresh(m.nodes)
      invariant forall j | 0 <= j < |m.nodes.nodes| :: fresh(m.nodes.nodes[j])
      invariant MayGrow(calls) ==> m.nodes.size <= m.capacity
      invariant answers + Replies(m.Contents(), calls[i..]) == Replies(map[], calls)
    {
      assert calls[i] in calls;
      EntriesAreNodes(m);
      assert calls[i..][0] == calls[i] && calls[i..][1..] == calls[i + 1..];
      var a := Perform(m, calls[i]);
      answers := answers + [a];
      i := i + 1;
    }
    crowded := m.nodes.size > m.capacity;
  }

  lemma EntriesAreNodes<V>(m: Map<V>)
    requires m.Valid()
    ensures |m.Contents()| == |m.nodes.nodes|
  {
    ModelSize(m.seed, m.nodes.Data());
  }

  method Perform<V>(m: Map<V>, c: Call<V>) returns (a: Answer<V>)
    requires m.Valid() && (c.Add? ==> |m.nodes.nodes| < MAX_CAPACITY) && WellFormed(c)
    modifies m, m.buckets, m.nodes, m.nodes.nodes
    ensures m.Valid()
    ensures m.buckets == old(m.buckets) || fresh(m.buckets)
    ensures forall j | 0 <= j < |m.nodes.nodes| :: m.nodes.nodes[j] in old(m.nodes.nodes) || fresh(m.nodes.nodes[j])
    ensures (c.Add? ==> c.allocBuckets) && old(m.nodes.size) <= old(m.capacity) ==> m.nodes.size <= m.capacity
    ensures m.Contents() == After(old(m.Contents()), c) && a == Reply(old(m.Contents()), c)
  {
    hide Model, DataOf, Sorted, Hashed, Sized, Entry, Effective;
    match c {
      case Find(key, address) => a := PerformFind(m, key, address);
      case Add(_, _, _, _, _, _) => a := PerformAdd(m, c);
      case Delete(key, address) => a := PerformDelete(m, key, address);
      case Clear =>
        m.Discard();
        a := Nothing;
    }
  }

  method PerformFind<V>(m: Map<V>, key: Key, address: Key) returns (a: Answer<V>)
    requires m.Valid() && |address| == 8
    ensures a == Reply(m.Contents(), Find(key, address))
  {
    hide Effective, Model, DataOf;
    var iter := m.Findp(key, address);
    a := if iter == null then Nothing else Value(iter.data.val);
  }

  method PerformAdd<V>(m: Map<V>, c: Call<V>) returns (a: Answer<V>)
    requires m.Valid() && |m.nodes.nodes| < MAX_CAPACITY && c.Add? && WellFormed(c)
    modifies m, m.buckets, m.nodes, m.nodes.nodes
    ensures m.Valid()
    ensures m.buckets == old(m.buckets) || fresh(m.buckets)
    ensures forall j | 0 <= j < |m.nodes.nodes| :: m.nodes.nodes[j] in old(m.nodes.nodes) || fresh(m.nodes.nodes[j])
    ensures (c.Add? ==> c.allocBuckets) && old(m.nodes.size) <= old(m.capacity) ==> m.nodes.size <= m.capacity
    ensures m.Contents() == After(old(m.Contents()), c) && a == Reply(old(m.Contents()), c)
  {
    hide Effective, Model, DataOf, Place, InsertAt, Sorted, Hashed, Sized, Entry;
    ghost var ns, d := m.nodes.nodes, m.nodes.Data();
    SizedFacts(m.capacity, m.elements);
    var iter := m.Addp(c.val, c.key, c.address, c.allocNode, c.allocIter, c.allocBuckets);
    a := if iter == null then Nothing else Added;
    if iter != null {
      InsertAtMembers<ListIter<MapNode<V>>>(ns, Place(d, RankOf(iter.data)), iter);
    }
  }

  method PerformDelete<V>(m: Map<V>, key: Key, address: Key) returns (a: Answer<V>)
    requires m.Valid() && |address| == 8
    modifies m, m.buckets, m.nodes, m.nodes.nodes
    ensures m.Valid() && m.buckets == old(m.buckets)
    ensures forall j | 0 <= j < |m.nodes.nodes| :: m.nodes.nodes[j] in old(m.nodes.nodes)
    ensures m.capacity == old(m.capacity) && m.nodes.size <= old(m.nodes.size)
    ensures m.Contents() == After(old(m.Contents()), Delete(key, address))
    ensures a == Reply(old(m.Contents()), Delete(key, address))
  {
    hide Effective, Model, DataOf, RemoveAt, IndexOf, Sorted, Hashed, Sized, Entry;
    var iter := m.Findp(key, address);
    if iter == null {
      return Nothing;
    }
    RemoveAtMembers(m.nodes.nodes, IndexOf(m.nodes.nodes, iter));
    var val, _ := m.Remove(iter);
    a := Value(val);
  }
}
