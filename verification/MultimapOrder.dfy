/** What a multimap holds, on values: groups of items by key, and the order in which a cursor visits them. */
module MultimapOrder {
  import opened KeyOrder
  import opened Lists

  datatype Group<V> = Group(key: Key, items: seq<V>)

  function Pairs<V>(key: Key, items: seq<V>): (r: seq<(Key, V)>)
    ensures |r| == |items|
  {
    seq(|items|, i requires 0 <= i < |items| => (key, items[i]))
  }

  /** Every item with its key, group by group: the order of iteration. */
  function Flat<V>(gs: seq<Group<V>>): seq<(Key, V)> {
    if gs == [] then [] else Pairs(gs[0].key, gs[0].items) + Flat(gs[1..])
  }

  lemma {:induction false} FlatConcat<V>(a: seq<Group<V>>, b: seq<Group<V>>)
    ensures Flat(a + b) == Flat(a) + Flat(b)
    decreases |a|
  {
    if a == [] {
      assert a + b == b;
    } else {
      assert (a + b)[1..] == a[1..] + b;
      FlatConcat(a[1..], b);
    }
  }

  lemma FlatOne<V>(g: Group<V>)
    ensures Flat([g]) == Pairs(g.key, g.items)
  {}

  lemma FlatAround<V>(a: seq<Group<V>>, g: Group<V>, b: seq<Group<V>>)
    ensures Flat(a + [g] + b) == Flat(a) + Pairs(g.key, g.items) + Flat(b)
  {
    hide Flat;
    FlatConcat(a + [g], b);
    FlatConcat(a, [g]);
    FlatOne(g);
  }

  /** Item k of group i is there to be visited. */
  predicate Stands<V>(gs: seq<Group<V>>, i: nat, k: nat) { i < |gs| && k < |gs[i].items| }

  /** How many items come before item k of group i. */
  function Offset<V>(gs: seq<Group<V>>, i: nat, k: nat): nat
    requires i <= |gs|
  {
    |Flat(gs[..i])| + k
  }

  lemma OffsetIs<V>(gs: seq<Group<V>>, i: nat, k: nat)
    requires Stands(gs, i, k)
    ensures Offset(gs, i, k) < |Flat(gs)| && Flat(gs)[Offset(gs, i, k)] == (gs[i].key, gs[i].items[k])
    ensures Offset(gs, i + 1, 0) == Offset(gs, i, |gs[i].items|)
  {
    hide Flat;
    assert gs == gs[..i] + [gs[i]] + gs[i + 1..];
    assert gs[..i + 1] == gs[..i] + [gs[i]];
    FlatAround(gs[..i], gs[i], gs[i + 1..]);
    FlatConcat(gs[..i], [gs[i]]);
    FlatOne(gs[i]);
  }

  lemma OffsetEnd<V>(gs: seq<Group<V>>)
    ensures Offset(gs, |gs|, 0) == |Flat(gs)|
  {
    assert gs[..|gs|] == gs;
  }

  lemma OffsetStart<V>(gs: seq<Group<V>>)
    requires forall g | g in gs :: g.items != []
    ensures Offset(gs, 0, 0) == 0 && (gs != [] ==> Flat(gs) != [])
  {
    if gs != [] {
      OffsetIs(gs, 0, 0);
    }
  }

  /** The item that follows stands at the next offset; behind the last one the order ends. */
  lemma OffsetNext<V>(gs: seq<Group<V>>, i: nat, k: nat)
    requires Stands(gs, i, k) && forall g | g in gs :: g.items != []
    ensures var (j, l) := if k + 1 < |gs[i].items| then (i, k + 1) else (i + 1, 0);
      && Offset(gs, j, l) == Offset(gs, i, k) + 1
      && if j < |gs| then Stands(gs, j, l) && Offset(gs, j, l) < |Flat(gs)| else Offset(gs, j, l) == |Flat(gs)|
  {
    hide Flat;
    OffsetIs(gs, i, k);
    OffsetEnd(gs);
    if k + 1 < |gs[i].items| {
      OffsetIs(gs, i, k + 1);
    } else if i + 1 < |gs| {
      assert gs[i + 1] in gs;
      OffsetIs(gs, i + 1, 0);
    }
  }

  /** Group i without its item k; a group that held nothing else goes with it. */
  function Without<V>(gs: seq<Group<V>>, i: nat, k: nat): seq<Group<V>>
    requires Stands(gs, i, k)
  {
    if |gs[i].items| == 1 then RemoveAt(gs, i) else gs[i := Group(gs[i].key, RemoveAt(gs[i].items, k))]
  }

  lemma PairsWithout<V>(key: Key, items: seq<V>, k: nat)
    requires k < |items|
    ensures Pairs(key, RemoveAt(items, k)) == RemoveAt(Pairs(key, items), k)
  {}

  lemma RemoveInside<X>(a: seq<X>, b: seq<X>, c: seq<X>, k: nat)
    requires k < |b|
    ensures a + RemoveAt(b, k) + c == RemoveAt(a + b + c, |a| + k)
  {}

  lemma FlatWithoutItem<V>(gs: seq<Group<V>>, i: nat, k: nat)
    requires Stands(gs, i, k)
    ensures Flat(gs) == Flat(gs[..i]) + Pairs(gs[i].key, gs[i].items) + Flat(gs[i + 1..])
    ensures Flat(gs[i := Group(gs[i].key, RemoveAt(gs[i].items, k))]) == RemoveAt(Flat(gs), Offset(gs, i, k))
  {
    hide Flat, Pairs, RemoveAt;
    var g := gs[i];
    var h := Group(g.key, RemoveAt(g.items, k));
    assert gs == gs[..i] + [g] + gs[i + 1..];
    assert gs[i := h] == gs[..i] + [h] + gs[i + 1..];
    FlatAround(gs[..i], g, gs[i + 1..]);
    FlatAround(gs[..i], h, gs[i + 1..]);
    OffsetIs(gs, i, k);
    PairsWithout(g.key, g.items, k);
    RemoveInside(Flat(gs[..i]), Pairs(g.key, g.items), Flat(gs[i + 1..]), k);
  }

  lemma FlatWithoutGroup<V>(gs: seq<Group<V>>, i: nat)
    requires i < |gs| && |gs[i].items| == 1
    ensures Offset(gs, i, 0) < |Flat(gs)| && Flat(RemoveAt(gs, i)) == RemoveAt(Flat(gs), Offset(gs, i, 0))
  {
    hide Flat, Pairs;
    OffsetIs(gs, i, 0);
    FlatWithoutItem(gs, i, 0);
    FlatConcat(gs[..i], gs[i + 1..]);
  }

  /** Dropping an item from its group takes exactly that one out of the order of iteration. */
  lemma FlatWithout<V>(gs: seq<Group<V>>, i: nat, k: nat)
    requires Stands(gs, i, k)
    ensures Offset(gs, i, k) < |Flat(gs)| && Flat(Without(gs, i, k)) == RemoveAt(Flat(gs), Offset(gs, i, k))
  {
    hide Flat, Pairs, RemoveAt;
    OffsetIs(gs, i, k);
    if |gs[i].items| == 1 {
      FlatWithoutGroup(gs, i);
    } else {
      FlatWithoutItem(gs, i, k);
    }
  }

  /** Where the cursor stands after item k of group i is gone: on the item that followed it. */
  function Behind<V>(gs: seq<Group<V>>, i: nat, k: nat): (nat, nat)
    requires Stands(gs, i, k)
  {
    if |gs[i].items| == 1 then (i, 0) else if k + 1 < |gs[i].items| then (i, k) else (i + 1, 0)
  }

  lemma BehindIs<V>(gs: seq<Group<V>>, i: nat, k: nat)
    requires Stands(gs, i, k) && forall g | g in gs :: g.items != []
    ensures var (j, l) := Behind(gs, i, k); var rest := Without(gs, i, k);
      && j <= |rest| && Offset(rest, j, l) == Offset(gs, i, k)
      && (if j < |rest| then Stands(rest, j, l) else l == 0 && Offset(gs, i, k) == |Flat(rest)|)
  {
    hide Flat, Pairs;
    var (j, l) := Behind(gs, i, k);
    var rest := Without(gs, i, k);
    assert rest[..i] == gs[..i];
    if j == i + 1 {
      FlatConcat(rest[..i], [rest[i]]);
      FlatOne(rest[i]);
      assert rest[..j] == rest[..i] + [rest[i]];
    }
    if j < |rest| {
      assert rest[j] in rest;
    } else {
      OffsetEnd(rest);
    }
  }

  // ---------------------------------------------------------------- sorted and stable groups

  /** A comparator that is a total preorder. */
  ghost predicate Lawful<V(!new)>(compare: (V, V) -> int) {
    && (forall a, b :: compare(a, b) < 0 ==> compare(b, a) > 0)
    && (forall a, b :: compare(a, b) == 0 ==> compare(b, a) == 0)
    && (forall a, b :: compare(a, b) > 0 ==> compare(b, a) < 0)
    && (forall a, b, c :: compare(a, b) <= 0 && compare(b, c) <= 0 ==> compare(a, c) <= 0)
  }

  ghost predicate Ascends<V(!new)>(compare: (V, V) -> int, d: seq<V>, i: int, j: int) {
    0 <= i < j < |d| ==> compare(d[i], d[j]) <= 0
  }

  ghost predicate SortedBy<V(!new)>(compare: (V, V) -> int, d: seq<V>) {
    forall i, j :: Ascends(compare, d, i, j)
  }

  /** The items that the comparator does not tell from c, in order. */
  function Peers<V>(compare: (V, V) -> int, c: V, d: seq<V>): seq<V> {
    if d == [] then []
    else Peers(compare, c, d[..|d| - 1]) + if compare(c, d[|d| - 1]) == 0 then [d[|d| - 1]] else []
  }

  /** All items before the place may precede x, all behind it must follow it. */
  lemma SortedPlaceSplits<V(!new)>(compare: (V, V) -> int, x: V, d: seq<V>, i: nat)
    requires Lawful(compare) && SortedBy(compare, d) && i < |d|
    ensures i < SortedPlace(compare, x, d, 0) <==> compare(x, d[i]) >= 0
  {
    var p := SortedPlace(compare, x, d, 0);
    SortedPlaceIs(compare, x, d, 0);
    if p < i {
      assert Ascends(compare, d, p, i);
      LessThrough(compare, x, d[p], d[i]);
    }
  }

  lemma LessThrough<V(!new)>(compare: (V, V) -> int, x: V, y: V, z: V)
    requires Lawful(compare) && compare(x, y) < 0 && compare(y, z) <= 0
    ensures compare(x, z) < 0
  {
    assert compare(z, x) <= 0 ==> compare(y, x) <= 0;
  }

  lemma SortedPlaceIs<V>(compare: (V, V) -> int, x: V, d: seq<V>, k: nat)
    requires k <= |d|
    ensures var p := SortedPlace(compare, x, d, k);
      (forall i | k <= i < p :: compare(x, d[i]) >= 0) && (p < |d| ==> compare(x, d[p]) < 0)
    decreases |d| - k
  {
    if k < |d| && compare(x, d[k]) >= 0 { SortedPlaceIs(compare, x, d, k + 1); }
  }

  /** Inserting at that place keeps the items sorted. */
  lemma InsertSortedKeeps<V(!new)>(compare: (V, V) -> int, x: V, d: seq<V>)
    requires Lawful(compare) && SortedBy(compare, d)
    ensures SortedBy(compare, InsertAt(d, SortedPlace(compare, x, d, 0), x))
  {
    hide SortedBy, InsertAt;
    var r := InsertAt(d, SortedPlace(compare, x, d, 0), x);
    forall i, j ensures Ascends(compare, r, i, j) {
      InsertSortedPair(compare, x, d, i, j);
    }
    SortedFrom(compare, r);
  }

  lemma InsertSortedPair<V(!new)>(compare: (V, V) -> int, x: V, d: seq<V>, i: int, j: int)
    requires Lawful(compare) && SortedBy(compare, d)
    ensures Ascends(compare, InsertAt(d, SortedPlace(compare, x, d, 0), x), i, j)
  {
    hide SortedBy, InsertAt;
    var p := SortedPlace(compare, x, d, 0);
    var i', j' := if i < p then i else i - 1, if j < p then j else j - 1;
    InsertAtIndex(d, p, x, i);
    InsertAtIndex(d, p, x, j);
    if 0 <= i < j <= |d| {
      if i == p { SortedPlaceSplits(compare, x, d, j'); }
      else if j == p { SortedPlaceSplits(compare, x, d, i'); }
      else { SortedPair(compare, d, i', j'); }
    }
  }

  lemma SortedPair<V(!new)>(compare: (V, V) -> int, d: seq<V>, i: int, j: int)
    requires SortedBy(compare, d)
    ensures Ascends(compare, d, i, j)
  {}

  lemma SortedFrom<V(!new)>(compare: (V, V) -> int, d: seq<V>)
    requires forall i, j :: Ascends(compare, d, i, j)
    ensures SortedBy(compare, d)
  {}

  lemma RemoveKeepsSorted<V(!new)>(compare: (V, V) -> int, d: seq<V>, k: nat)
    requires SortedBy(compare, d) && k < |d|
    ensures SortedBy(compare, RemoveAt(d, k))
  {
    var r := RemoveAt(d, k);
    forall i, j ensures Ascends(compare, r, i, j) {
      assert Ascends(compare, d, if i < k then i else i + 1, if j < k then j else j + 1);
    }
  }

  lemma {:induction false} PeersConcat<V>(compare: (V, V) -> int, c: V, a: seq<V>, b: seq<V>)
    ensures Peers(compare, c, a + b) == Peers(compare, c, a) + Peers(compare, c, b)
    decreases |b|
  {
    if b == [] {
      assert a + b == a;
    } else {
      assert (a + b)[..|a + b| - 1] == a + b[..|b| - 1];
      PeersConcat(compare, c, a, b[..|b| - 1]);
    }
  }

  lemma {:induction false} NoPeers<V>(compare: (V, V) -> int, c: V, d: seq<V>)
    requires forall i | 0 <= i < |d| :: compare(c, d[i]) != 0
    ensures Peers(compare, c, d) == []
    decreases |d|
  {
    if d != [] { NoPeers(compare, c, d[..|d| - 1]); }
  }

  /** Stability: among the items equal to any c, a new one always becomes the last. */
  lemma InsertSortedStable<V(!new)>(compare: (V, V) -> int, x: V, d: seq<V>, c: V)
    requires Lawful(compare) && SortedBy(compare, d)
    ensures Peers(compare, c, InsertAt(d, SortedPlace(compare, x, d, 0), x))
         == Peers(compare, c, d) + if compare(c, x) == 0 then [x] else []
  {
    hide Peers, SortedBy;
    var p := SortedPlace(compare, x, d, 0);
    assert d == d[..p] + d[p..];
    PeersConcat(compare, c, d[..p], d[p..]);
    PeersConcat(compare, c, d[..p] + [x], d[p..]);
    PeersConcat(compare, c, d[..p], [x]);
    PeersOne(compare, c, x);
    if compare(c, x) == 0 {
      forall i | 0 <= i < |d[p..]| ensures compare(c, d[p..][i]) != 0 {
        SortedPlaceSplits(compare, x, d, p + i);
        PeersDiffer(compare, c, x, d[p + i]);
      }
      NoPeers(compare, c, d[p..]);
    }
  }

  lemma PeersOne<V>(compare: (V, V) -> int, c: V, x: V)
    ensures Peers(compare, c, [x]) == if compare(c, x) == 0 then [x] else []
  {
    assert [x][..0] == [];
  }

  lemma PeersDiffer<V(!new)>(compare: (V, V) -> int, c: V, x: V, y: V)
    requires Lawful(compare) && compare(c, x) == 0 && compare(x, y) < 0
    ensures compare(c, y) != 0
  {
    assert compare(c, y) == 0 ==> compare(y, c) <= 0;
    assert compare(y, c) <= 0 ==> compare(y, x) <= 0;
  }

  // ---------------------------------------------------------------- adding

  datatype Comparator<!V> = Unordered | Ordered(compare: (V, V) -> int)

  /** A group's items with one more: at its place in the order, or last. */
  function Grown<V>(c: Comparator<V>, items: seq<V>, val: V): seq<V> {
    match c
    case Unordered => items + [val]
    case Ordered(compare) => InsertAt(items, SortedPlace(compare, val, items, 0), val)
  }

  /** Where a new item joins a key that is there: at the end without a comparator, and with one right in front of the
      first item that it precedes, behind all others. */
  ghost predicate Joined<V>(c: Comparator<V>, was: seq<V>, now: seq<V>, val: V) {
    match c
    case Unordered => now == was + [val]
    case Ordered(compare) => exists k :: JoinedAt(compare, was, now, val, k)
  }

  ghost predicate JoinedAt<V>(compare: (V, V) -> int, was: seq<V>, now: seq<V>, val: V, k: int) {
    && 0 <= k <= |was| && now == was[..k] + [val] + was[k..]
    && (forall j | 0 <= j < k :: compare(val, was[j]) >= 0) && (k < |was| ==> compare(val, was[k]) < 0)
  }

  lemma GrownJoins<V>(c: Comparator<V>, items: seq<V>, val: V)
    ensures Joined(c, items, Grown(c, items, val), val)
  {
    if c.Ordered? {
      SortedPlaceIs(c.compare, val, items, 0);
      assert JoinedAt(c.compare, items, Grown(c, items, val), val, SortedPlace(c.compare, val, items, 0));
    }
  }

  lemma GrownNotEmpty<V>(c: Comparator<V>, items: seq<V>, val: V)
    ensures Grown(c, items, val) != []
  {}

  lemma InsertLast<X>(s: seq<X>, x: X)
    ensures InsertAt(s, |s|, x) == s + [x]
  {}

  ghost predicate KeyAt<V>(gs: seq<Group<V>>, i: int, key: Key) { 0 <= i < |gs| && gs[i].key == key }

  ghost predicate HasGroup<V>(gs: seq<Group<V>>, key: Key) { exists i :: KeyAt(gs, i, key) }

  lemma PairsWith<V>(key: Key, items: seq<V>, k: nat, x: V)
    requires k <= |items|
    ensures Pairs(key, InsertAt(items, k, x)) == InsertAt(Pairs(key, items), k, (key, x))
  {}

  lemma InsertInside<X>(a: seq<X>, b: seq<X>, c: seq<X>, k: nat, x: X)
    requires k <= |b|
    ensures a + InsertAt(b, k, x) + c == InsertAt(a + b + c, |a| + k, x)
  {}

  /** One more item in a group is one more at that point of the order of iteration, and nothing else moves. */
  lemma FlatWith<V>(gs: seq<Group<V>>, i: nat, k: nat, x: V)
    requires i < |gs| && k <= |gs[i].items|
    ensures Offset(gs, i, k) <= |Flat(gs)|
    ensures Flat(gs[i := Group(gs[i].key, InsertAt(gs[i].items, k, x))])
         == InsertAt(Flat(gs), Offset(gs, i, k), (gs[i].key, x))
  {
    hide Flat, Pairs;
    var g := gs[i];
    var h := Group(g.key, InsertAt(g.items, k, x));
    assert gs == gs[..i] + [g] + gs[i + 1..];
    assert gs[i := h] == gs[..i] + [h] + gs[i + 1..];
    FlatAround(gs[..i], g, gs[i + 1..]);
    FlatAround(gs[..i], h, gs[i + 1..]);
    PairsWith(g.key, g.items, k, x);
    InsertInside(Flat(gs[..i]), Pairs(g.key, g.items), Flat(gs[i + 1..]), k, (g.key, x));
  }

  /** A new group of one item adds that item at its point of the order. */
  lemma FlatNew<V>(gs: seq<Group<V>>, i: nat, key: Key, x: V)
    requires i <= |gs|
    ensures Offset(gs, i, 0) <= |Flat(gs)|
    ensures Flat(InsertAt(gs, i, Group(key, [x]))) == InsertAt(Flat(gs), Offset(gs, i, 0), (key, x))
  {
    hide Flat;
    assert gs == gs[..i] + gs[i..];
    FlatConcat(gs[..i], gs[i..]);
    FlatAround(gs[..i], Group(key, [x]), gs[i..]);
    assert Pairs(key, [x]) == [(key, x)];
  }

  /** What a successful addition makes of the groups; at is where. */
  ghost predicate AddedTo<V>(c: Comparator<V>, was: seq<Group<V>>, now: seq<Group<V>>, key: Key, val: V, at: nat) {
    if HasGroup(was, key) then
      KeyAt(was, at, key) && now == was[at := Group(key, Grown(c, was[at].items, val))]
    else at <= |was| && now == InsertAt(was, at, Group(key, [val]))
  }

  /** With a comparator every group is sorted. */
  ghost predicate InOrder<V(!new)>(c: Comparator<V>, gs: seq<Group<V>>) {
    c.Ordered? ==> forall g | g in gs :: SortedBy(c.compare, g.items)
  }

  /** An addition puts one item into the order of iteration and keeps every group sorted. */
  lemma AddedMeaning<V(!new)>(c: Comparator<V>, was: seq<Group<V>>, now: seq<Group<V>>, key: Key, val: V, at: nat)
    requires AddedTo(c, was, now, key, val, at)
    ensures exists p :: 0 <= p <= |Flat(was)| && Flat(now) == InsertAt(Flat(was), p, (key, val))
    ensures (c.Ordered? ==> Lawful(c.compare)) && InOrder(c, was) ==> InOrder(c, now)
  {
    hide Flat, SortedBy, Lawful, HasGroup, InsertAt;
    if HasGroup(was, key) {
      var items := was[at].items;
      var p := if c.Unordered? then |items| else SortedPlace(c.compare, val, items, 0);
      InsertLast(items, val);
      FlatWith(was, at, p, val);
      assert was[at] in was;
      if c.Ordered? && Lawful(c.compare) && InOrder(c, was) { InsertSortedKeeps(c.compare, val, items); }
    } else {
      FlatNew(was, at, key, val);
      InsertAtMembers(was, at, Group(key, [val]));
      if c.Ordered? { SortedOne(c.compare, val); }
    }
  }

  /** Without a comparator a value added to a key that is there is visited right behind the last item of that key. */
  lemma UnorderedGoesLast<V(!new)>(was: seq<Group<V>>, now: seq<Group<V>>, key: Key, val: V, at: nat)
    requires AddedTo(Unordered, was, now, key, val, at) && HasGroup(was, key)
    ensures at < |was| && was[at].key == key && Offset(was, at + 1, 0) <= |Flat(was)|
    ensures Flat(now) == InsertAt(Flat(was), Offset(was, at + 1, 0), (key, val))
  {
    hide Flat, InsertAt, HasGroup;
    var items := was[at].items;
    InsertLast(items, val);
    FlatWith(was, at, |items|, val);
    OffsetNextGroup(was, at);
  }

  lemma OffsetNextGroup<V>(gs: seq<Group<V>>, i: nat)
    requires i < |gs|
    ensures Offset(gs, i + 1, 0) == Offset(gs, i, |gs[i].items|)
  {
    hide Flat;
    assert gs[..i + 1] == gs[..i] + [gs[i]];
    FlatConcat(gs[..i], [gs[i]]);
    FlatOne(gs[i]);
  }

  /** With one it is visited behind every item of the key that it does not precede and in front of every one it does. */
  lemma OrderedGoesBehindPeers<V(!new)>(compare: (V, V) -> int, was: seq<Group<V>>, now: seq<Group<V>>, key: Key,
                                        val: V, at: nat)
    returns (k: nat)
    requires AddedTo(Ordered(compare), was, now, key, val, at) && HasGroup(was, key)
    requires Lawful(compare) && InOrder(Ordered(compare), was)
    ensures at < |was| && was[at].key == key && k <= |was[at].items| && Offset(was, at, k) <= |Flat(was)|
    ensures Flat(now) == InsertAt(Flat(was), Offset(was, at, k), (key, val))
    ensures forall j | 0 <= j < |was[at].items| :: j < k <==> compare(val, was[at].items[j]) >= 0
  {
    hide Flat, InsertAt, HasGroup, SortedBy;
    var items := was[at].items;
    k := SortedPlace(compare, val, items, 0);
    FlatWith(was, at, k, val);
    assert was[at] in was;
    forall j | 0 <= j < |items| ensures j < k <==> compare(val, items[j]) >= 0 {
      SortedPlaceSplits(compare, val, items, j);
    }
  }

  lemma SortedOne<V(!new)>(compare: (V, V) -> int, x: V)
    ensures SortedBy(compare, [x])
  {}

  lemma RemovedMeaning<V(!new)>(c: Comparator<V>, gs: seq<Group<V>>, i: nat, k: nat)
    requires Stands(gs, i, k) && InOrder(c, gs)
    ensures InOrder(c, Without(gs, i, k))
  {
    hide SortedBy;
    assert gs[i] in gs;
    if c.Ordered? { RemoveKeepsSorted(c.compare, gs[i].items, k); }
  }
}
