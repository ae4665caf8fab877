/** The pool of cc_list.c and the lists that draw on it, as they stand in memory. */
module ListPool {
  import opened Lists
  import opened Queues
  import S = ListPoolState

  /** The next pointers from head on spell out the sequence s and end there. */
  ghost predicate Chain<T>(head: ListIter?<T>, s: seq<ListIter<T>>)
    reads s
  {
    head == At(s, 0) && Distinct(s) && forall i {:trigger s[i].next} | 0 <= i < |s| :: s[i].next == At(s, i + 1)
  }

  lemma DistinctParts<T>(s: seq<ListIter<T>>, k: nat)
    requires Distinct(s) && k <= |s|
    ensures Distinct(s[..k]) && Distinct(s[k..]) && Disjoint(s[..k], s[k..])
  {
    forall i, j ensures Differ(s[..k], i, j) && Differ(s[k..], i, j) {
      assert Differ(s, i, j) && Differ(s, i + k, j + k);
    }
    forall i, j | 0 <= i < k && k <= j < |s| ensures s[i] != s[j] {
      assert Differ(s, i, j);
    }
  }

  lemma ReverseSnoc<X>(s: seq<X>, x: X)
    ensures S.Reverse(s + [x]) == [x] + S.Reverse(s)
  {
    if s == [] {
      assert s + [x] == [x];
    } else {
      ReverseSnoc(s[1..], x);
      assert (s + [x])[1..] == s[1..] + [x];
    }
  }

  lemma ReverseMembers<X>(s: seq<X>)
    ensures forall k | 0 <= k < |s| :: S.Reverse(s)[k] in s
  {
    if s != [] {
      ReverseMembers(s[1..]);
      assert s == [s[0]] + s[1..];
    }
  }

  class Pool<T> {
    /** What an iterator holds while no list uses it. */
    const blank: T
    var refcount: int
    var count: int
    var iters: ListIter?<T>
    var blocks: seq<seq<ListIter<T>>>
    ghost var free: seq<ListIter<T>>

    ghost predicate Valid()
      reads this, free
    {
      Chain(iters, free) && count == |free|
    }

    ghost function Value(): S.Pool<ListIter<T>>
      reads this
    {
      S.Pool(free, blocks, refcount, count)
    }

    constructor (blank: T)
      ensures Valid() && Value() == S.Pool([], [], 0, 0) && this.blank == blank
    {
      this.blank := blank;
      refcount, count, iters, blocks, free := 0, 0, null, [], [];
    }

    /** The iterators of a new block. */
    method NewBlock() returns (b: seq<ListIter<T>>)
      ensures |b| == S.BLOCK_SIZE && Distinct(b) && forall i | 0 <= i < |b| :: fresh(b[i])
    {
      b := [];
      for i := 0 to S.BLOCK_SIZE
        invariant |b| == i && Distinct(b) && forall j | 0 <= j < |b| :: fresh(b[j])
      {
        var iter := new ListIter(blank);
        InsertAtFacts<ListIter<T>>(b, i, iter);
        assert InsertAt<ListIter<T>>(b, i, iter) == b + [iter];
        b := b + [iter];
      }
    }

    /** Links every iterator of a new block into the free chain. */
    method Extend(b: seq<ListIter<T>>)
      requires Valid() && |b| == S.BLOCK_SIZE && Distinct(b) && Disjoint(b, free)
      modifies this, b
      ensures Valid() && Value() == S.Extend(old(Value()), b)
    {
      hide Distinct;
      blocks := [b] + blocks;
      var i := 0;
      while i < S.BLOCK_SIZE
        invariant 0 <= i <= S.BLOCK_SIZE && Chain(iters, free)
        invariant free == S.Reverse(b[..i]) + old(free)
        invariant forall j | i <= j < |b| :: b[j] !in free
        invariant blocks == [b] + old(blocks) && refcount == old(refcount) && count == old(count)
      {
        var iter := b[i];
        ReverseSnoc(b[..i], iter);
        assert b[..i + 1] == b[..i] + [iter];
        Apart(b, i);
        DistinctCons<ListIter<T>>(iter, free);
        iter.next := iters;
        iters := iter;
        free := [iter] + free;
        i := i + 1;
      }
      assert b[..i] == b;
      count := count + S.BLOCK_SIZE;
    }

    /** Cuts the first set off the free chain. */
    method Take() returns (r: ListIter?<T>, ghost got: seq<ListIter<T>>)
      requires Valid() && count >= S.SET_SIZE
      modifies this, free
      ensures Valid() && Chain(r, got) && (Value(), got) == S.Take(old(Value()))
      ensures Disjoint(got, free) && |got| == S.SET_SIZE
      ensures forall i | 0 <= i < |got| :: got[i] in old(free)
      ensures forall i | 0 <= i < |free| :: free[i] in old(free)
    {
      r := iters;
      var tail := iters;
      var i := 0;
      while i < S.SET_SIZE
        invariant 0 <= i <= S.SET_SIZE && iters == At(old(free), i)
        invariant i > 0 ==> tail == old(free)[i - 1]
        invariant free == old(free) && count == old(count) && refcount == old(refcount) && blocks == old(blocks)
        modifies this`iters
      {
        tail := iters;
        iters := iters.next;
        i := i + 1;
      }
      Apart(free, S.SET_SIZE - 1);
      DistinctParts(free, S.SET_SIZE);
      got := free[..S.SET_SIZE];
      tail.next := null;
      free := free[S.SET_SIZE..];
      count := count - S.SET_SIZE;
      refcount := refcount + S.SET_SIZE;
    }

    /** A chain of 32 iterators; a new block is made when fewer are free, unless there is no memory for it. */
    method Get(alloc: bool) returns (r: ListIter?<T>, ghost got: seq<ListIter<T>>, ghost block: S.Block<ListIter<T>>)
      requires Valid()
      modifies this, free
      ensures block == S.NoMemory <==> !(alloc && old(count) < 32)
      ensures block.Fresh? ==> |block.iters| == 1024 && Distinct(block.iters)
      ensures block.Fresh? ==> forall i | 0 <= i < |block.iters| :: fresh(block.iters[i])
      ensures Valid() && Chain(r, got) && (Value(), got) == S.Get(old(Value()), block)
      ensures r == null <==> old(count) < 32 && !alloc
      ensures r != null ==> |got| == 32
      ensures Disjoint(got, free)
      ensures forall i | 0 <= i < |got| :: got[i] in old(free) || fresh(got[i])
      ensures forall i | 0 <= i < |free| :: free[i] in old(free) || fresh(free[i])
    {
      hide S.Take;
      block := S.NoMemory;
      if count < S.SET_SIZE {
        if !alloc {
          return null, [], block;
        }
        var b := NewBlock();
        block := S.Fresh(b);
        Extend(b);
        ReverseMembers(b);
      }
      ghost var all := free;
      assert forall i | 0 <= i < |all| :: all[i] in old(free) || fresh(all[i]);
      r, got := Take();
    }

    /** The last iterator of a chain, and how many there are. */
    method Tail(iters: ListIter<T>, ghost s: seq<ListIter<T>>) returns (tail: ListIter<T>, n: int)
      requires Chain(iters, s)
      ensures n == |s| > 0 && tail == s[n - 1]
    {
      n := 1;
      tail := iters;
      while tail.next != null
        invariant 1 <= n <= |s| && tail == s[n - 1]
        decreases |s| - n
      {
        n := n + 1;
        tail := tail.next;
      }
    }

    /** Takes a chain back; with the last one back every block goes. */
    method Put(iters: ListIter?<T>, ghost s: seq<ListIter<T>>)
      requires Valid() && Chain(iters, s) && Disjoint(s, free)
      modifies this, s
      ensures Valid() && Value() == S.Give(old(Value()), s)
    {
      if iters == null {
        return;
      }
      var tail, n := Tail(iters, s);
      Link(iters, tail, s);
      count := count + n;
      refcount := refcount - n;
      if refcount == 0 {
        this.iters := null;
        count := 0;
        free := [];
        while blocks != []
          invariant Valid() && free == [] && count == 0 && refcount == 0
          decreases |blocks|
        {
          blocks := blocks[1..];
        }
      }
    }

    method Link(iters: ListIter<T>, tail: ListIter<T>, ghost s: seq<ListIter<T>>)
      requires Chain(this.iters, free) && Chain(iters, s) && Disjoint(s, free) && s != [] && tail == s[|s| - 1]
      modifies this`iters, this`free, tail
      ensures Chain(this.iters, free) && free == s + old(free)
    {
      Apart(s, |s| - 1);
      DistinctConcat(s, free);
      tail.next := this.iters;
      this.iters := iters;
      free := s + free;
    }
  }

  /** A list that draws its iterators from the pool and keeps the ones it has no use for. */
  class PooledList<T> {
    const pool: Pool<T>
    const list: List<T>
    var iters: ListIter?<T>
    ghost var spares: seq<ListIter<T>>

    /** The list, its spares and the free chain share nothing. */
    ghost predicate Valid()
      reads this, list, list.nodes, spares, pool, pool.free
    {
      && list.Valid() && Chain(iters, spares) && pool.Valid()
      && Disjoint(list.nodes, spares) && Disjoint(list.nodes, pool.free) && Disjoint(spares, pool.free)
    }

    ghost function Value(): S.Lst<ListIter<T>>
      reads this, list
    {
      S.Lst(true, list.nodes, spares)
    }

    constructor (pool: Pool<T>)
      requires pool.Valid()
      ensures Valid() && Value() == S.Lst(true, [], []) && this.pool == pool && fresh(list)
    {
      this.pool := pool;
      list := new List<T>();
      iters, spares := null, [];
    }

    /** Puts an iterator in front of the spares. */
    method Push(iter: ListIter<T>)
      requires Chain(iters, spares) && iter !in spares
      modifies this`iters, this`spares, iter`next
      ensures Chain(iters, spares) && spares == [iter] + old(spares)
    {
      DistinctCons<ListIter<T>>(iter, spares);
      hide Distinct;
      iter.next := iters;
      iters := iter;
      spares := [iter] + spares;
    }

    /** Keeps the rest of a new set, which comes out in reverse. */
    method Keep(self: ListIter<T>, ghost got: seq<ListIter<T>>)
      requires Chain(self, got) && Chain(iters, spares) && spares == []
      modifies this`iters, this`spares, got
      ensures spares == S.Reverse(got[1..]) && Chain(iters, spares) && self !in spares
    {
      hide Distinct;
      var iter := self.next;
      ghost var k := 1;
      while iter != null
        invariant 1 <= k <= |got| && iter == At(got, k)
        invariant spares == S.Reverse(got[1..k]) && Chain(iters, spares)
        invariant forall j | k <= j < |got| :: got[j].next == At(got, j + 1) && got[j] !in spares
        invariant got[0] !in spares
        decreases |got| - k
      {
        var next := iter.next;
        ReverseSnoc<ListIter<T>>(got[1..k], iter);
        assert got[1..k + 1] == got[1..k] + [iter];
        Apart(got, k);
        Push(iter);
        iter := next;
        k := k + 1;
      }
      assert got[1..k] == got[1..];
    }

    /** An iterator is on its own: in no list, among no spares and not free. */
    ghost predicate Loose(x: ListIter<T>)
      reads this, list, pool
    {
      x !in list.nodes && x !in spares && x !in pool.free
    }

    method StockSpare() returns (self: ListIter<T>)
      requires Valid() && iters != null
      modifies this`iters, this`spares
      ensures Valid() && old(spares) == [self] + spares && Loose(self)
    {
      self := iters;
      iters := iters.next;
      Apart(spares, 0);
      DistinctParts(spares, 1);
      spares := spares[1..];
    }

    method StockSet(alloc: bool)
        returns (self: ListIter?<T>, ghost got: seq<ListIter<T>>, ghost block: S.Block<ListIter<T>>)
      requires Valid() && iters == null
      modifies this`iters, this`spares, pool, pool.free
      ensures Valid() && (block.Fresh? ==> |block.iters| == S.BLOCK_SIZE)
      ensures (pool.Value(), got) == S.Get(old(pool.Value()), block)
      ensures self == At(got, 0) && (self != null ==> Loose(self) && (self in old(pool.free) || fresh(self)))
      ensures self == null <==> old(pool.count) < S.SET_SIZE && !alloc
      ensures spares == if got == [] then [] else S.Reverse(got[1..])
    {
      hide Distinct, S.Get;
      self, got, block := pool.Get(alloc);
      if self != null {
        Keep(self, got);
        ReverseMembers(got[1..]);
      }
    }

    /** Links a loose iterator in. */
    method LinkIn(self: ListIter<T>, prev: ListIter?<T>, next: ListIter?<T>, data: T, ghost k: nat)
      requires Valid() && Loose(self)
      requires k <= |list.nodes| && prev == At(list.nodes, k - 1) && next == At(list.nodes, k)
      modifies list, list.nodes, self
      ensures Valid() && list.nodes == InsertAt<ListIter<T>>(old(list.nodes), k, self) && self.data == data
      ensures forall n | n in old(list.nodes) :: n.data == old(n.data)
    {
      hide Distinct, InsertAt;
      list.IterAdd(self, prev, next, k);
      self.data := data;
    }

    /** Makes an iterator for data and links it in at position k, unless there is none to be had. */
    method IterNew(prev: ListIter?<T>, next: ListIter?<T>, data: T, alloc: bool, ghost k: nat)
        returns (r: ListIter?<T>, ghost block: S.Block<ListIter<T>>)
      requires Valid() && k <= |list.nodes| && prev == At(list.nodes, k - 1) && next == At(list.nodes, k)
      modifies this`iters, this`spares, list, list.nodes, spares, pool, pool.free
      ensures Valid() && (block.Fresh? ==> |block.iters| == S.BLOCK_SIZE)
      ensures var (q, supply) := S.Supply(old(Value()), old(pool.Value()), block);
        pool.Value() == q && Value() == S.InsertOne(old(Value()), supply, k) && r == At(supply, 0)
      ensures r == null <==> old(spares) == [] && old(pool.count) < 32 && !alloc
      ensures r != null ==> r.data == data && list.nodes == InsertAt<ListIter<T>>(old(list.nodes), k, r)
    {
      hide Distinct, InsertAt, S.Get, S.Supply, S.InsertOne, Chain, Pool.Valid, List.Valid;
      block := S.NoMemory;
      ghost var was, p := Value(), pool.Value();
      SpareOrNone();
      if iters != null {
        SupplySpare(was, p, block, k);
        r := StockSpare();
      } else {
        ghost var got;
        r, got, block := StockSet(alloc);
        SupplySet(was, p, block, k);
        if r == null {
          return;
        }
      }
      LinkIn(r, prev, next, data, k);
    }

    lemma SpareOrNone()
      requires Valid()
      ensures iters == At(spares, 0) && pool.count == |pool.free|
    {}

    /** Takes an iterator out of the list and keeps it as a spare. */
    method IterDelete(iter: ListIter<T>) returns (data: T, next: ListIter?<T>)
      requires Valid() && iter in list.nodes
      modifies this`iters, this`spares, list, list.nodes
      ensures Valid() && Value() == S.RemoveOne(old(Value()), IndexOf(old(list.nodes), iter))
      ensures spares == [iter] + old(spares)
      ensures list.nodes == RemoveAt<ListIter<T>>(old(list.nodes), IndexOf(old(list.nodes), iter))
      ensures data == old(iter.data) && next == At(old(list.nodes), IndexOf(old(list.nodes), iter) + 1)
      ensures iter.data == pool.blank
    {
      hide RemoveAt, IndexOf;
      data, next := Leave(iter);
      Spare(iter);
    }

    /** The iterator leaves the list and loses its data. */
    method Leave(iter: ListIter<T>) returns (data: T, next: ListIter?<T>)
      requires Valid() && iter in list.nodes
      modifies list, list.nodes
      ensures Valid() && Loose(iter) && list.nodes == RemoveAt(old(list.nodes), IndexOf(old(list.nodes), iter))
      ensures data == old(iter.data) && next == At(old(list.nodes), IndexOf(old(list.nodes), iter) + 1)
      ensures iter.data == pool.blank
    {
      hide RemoveAt, IndexOf, Distinct, Chain, Pool.Valid;
      ghost var was := list.nodes;
      RemoveAtFacts(was, IndexOf(was, iter));
      next := iter.next;
      data := iter.data;
      iter.data := pool.blank;
      list.IterRemove(iter);
    }

    method Spare(iter: ListIter<T>)
      requires Valid() && Loose(iter)
      modifies this`iters, this`spares, iter`next
      ensures Valid() && spares == [iter] + old(spares) && list.nodes == old(list.nodes)
    {
      hide Distinct;
      Push(iter);
    }

    /** Ends the list: what it still holds becomes spare, and every spare goes back to the pool. */
    method Delete()
      requires Valid()
      modifies this`iters, this`spares, list, list.nodes, spares, pool, pool.free
      ensures pool.Valid() && pool.Value() == S.Give(old(pool.Value()), S.Discarded(old(Value())).spares)
    {
      Discard();
      pool.Put(iters, spares);
    }

    /** Removes from the head until nothing is left. */
    method Discard()
      requires Valid()
      modifies this`iters, this`spares, list, list.nodes, spares
      ensures Valid() && Value() == S.Discarded(old(Value()))
      ensures forall i | 0 <= i < |spares| :: spares[i] in old(spares) || spares[i] in old(list.nodes)
    {
      hide S.Discarded, RemoveAt, S.RemoveOne, IndexOf, Distinct, Disjoint;
      DiscardStep();
      var iter := list.head;
      while iter != null
        invariant Valid() && iter == At(list.nodes, 0)
        invariant S.Discarded(Value()) == S.Discarded(old(Value()))
        invariant forall i | 0 <= i < |list.nodes| :: list.nodes[i] in old(list.nodes)
        invariant forall i | 0 <= i < |spares| :: spares[i] in old(spares) || spares[i] in old(list.nodes)
        decreases |list.nodes|
      {
        DiscardStep();
        iter := RemoveHead(iter);
      }
      DiscardStep();
    }

    lemma DiscardStep()
      requires Valid()
      ensures list.head == At(list.nodes, 0)
      ensures S.Discarded(Value()) == if list.nodes == [] then Value() else S.Discarded(S.RemoveOne(Value(), 0))
    {}

    method RemoveHead(iter: ListIter<T>) returns (next: ListIter?<T>)
      requires Valid() && list.nodes != [] && iter == list.nodes[0]
      modifies this`iters, this`spares, list, list.nodes
      ensures Valid() && Value() == S.RemoveOne(old(Value()), 0) && next == At(list.nodes, 0)
      ensures list.nodes == old(list.nodes)[1..] && spares == [old(list.nodes)[0]] + old(spares)
    {
      hide Distinct, Disjoint;
      HeadIndex();
      var data, next' := IterDelete(iter);
      next := next';
    }

    lemma HeadIndex()
      requires Valid() && list.nodes != []
      ensures IndexOf(list.nodes, list.nodes[0]) == 0
    {}
  }

  /** A list with spares is supplied by the first of them. */
  lemma SupplySpare<I>(l: S.Lst<I>, p: S.Pool<I>, b: S.Block<I>, k: nat)
    requires p.count == |p.free| && (b.Fresh? ==> |b.iters| == S.BLOCK_SIZE) && k <= |l.nodes| && l.spares != []
    ensures S.Supply(l, p, b) == (p, l.spares)
    ensures S.InsertOne(l, l.spares, k) == l.(nodes := InsertAt(l.nodes, k, l.spares[0]), spares := l.spares[1..])
  {}

  /** A list without spares is supplied by a new set, if there is one to be had. */
  lemma SupplySet<I>(l: S.Lst<I>, p: S.Pool<I>, b: S.Block<I>, k: nat)
    requires p.count == |p.free| && (b.Fresh? ==> |b.iters| == S.BLOCK_SIZE) && k <= |l.nodes| && l.spares == []
    ensures var (q, got) := S.Get(p, b);
      var supply := if got == [] then [] else [got[0]] + S.Reverse(got[1..]);
      && S.Supply(l, p, b) == (q, supply)
      && S.InsertOne(l, supply, k) ==
         if got == [] then l else l.(nodes := InsertAt(l.nodes, k, got[0]), spares := S.Reverse(got[1..]))
  {
    hide S.Get;
  }

  // ---------------------------------------------------------------- between two lists

  /** Two lists that share a pool and nothing else. */
  ghost predicate Strangers<T>(a: PooledList<T>, b: PooledList<T>)
    reads a, b, a.list, b.list
  {
    && a.pool == b.pool && a.list != b.list
    && Disjoint(a.list.nodes, b.list.nodes) && Disjoint(a.list.nodes, b.spares)
    && Disjoint(a.spares, b.list.nodes) && Disjoint(a.spares, b.spares)
  }

  /** Every iterator of now comes from one of the two. */
  ghost predicate From<T>(now: seq<ListIter<T>>, a: seq<ListIter<T>>, b: seq<ListIter<T>>) {
    forall x | x in now :: x in a || x in b
  }

  lemma MembersDisjoint<T>(s: seq<ListIter<T>>, t: seq<ListIter<T>>)
    requires forall x | x in s :: x !in t
    ensures Disjoint(s, t)
  {
    forall i | 0 <= i < |t| ensures t[i] !in s {
      assert t[i] in t;
    }
  }

  lemma DisjointMembers<T>(s: seq<ListIter<T>>, t: seq<ListIter<T>>)
    requires Disjoint(s, t)
    ensures forall x | x in s :: x !in t
  {}

  /** Lists whose iterators all come from either of two others stay clear of what both were clear of. */
  lemma StillClear<T>(a: seq<ListIter<T>>, b: seq<ListIter<T>>, now: seq<ListIter<T>>, t: seq<ListIter<T>>)
    requires Disjoint(a, t) && Disjoint(b, t) && From(now, a, b)
    ensures Disjoint(now, t) && Disjoint(t, now)
  {
    hide Disjoint;
    DisjointMembers(a, t);
    DisjointMembers(b, t);
    MembersDisjoint(now, t);
    DisjointFlip(now, t);
  }

  lemma DisjointFlip<T>(s: seq<ListIter<T>>, t: seq<ListIter<T>>)
    requires Disjoint(s, t)
    ensures Disjoint(t, s)
  {}

  /** What two lists in order held has been exchanged between them: both are in order again, and strangers. */
  lemma Exchanged<T>(a: PooledList<T>, b: PooledList<T>, na: seq<ListIter<T>>, nb: seq<ListIter<T>>)
    requires a.list.Valid() && b.list.Valid() && Disjoint(a.list.nodes, b.list.nodes)
    requires Chain(a.iters, a.spares) && Chain(b.iters, b.spares) && a.pool.Valid()
    requires a.pool == b.pool && a.list != b.list
    requires Disjoint(na, a.spares) && Disjoint(na, b.spares) && Disjoint(na, a.pool.free)
    requires Disjoint(nb, a.spares) && Disjoint(nb, b.spares) && Disjoint(nb, a.pool.free)
    requires Disjoint(a.spares, b.spares) && Disjoint(a.spares, a.pool.free) && Disjoint(b.spares, a.pool.free)
    requires From(a.list.nodes, na, nb) && From(b.list.nodes, na, nb)
    ensures a.Valid() && b.Valid() && Strangers(a, b)
  {
    hide From, Disjoint, Chain, List.Valid, Pool.Valid;
    StillClear(na, nb, a.list.nodes, a.spares);
    StillClear(na, nb, a.list.nodes, b.spares);
    StillClear(na, nb, a.list.nodes, a.pool.free);
    StillClear(na, nb, b.list.nodes, a.spares);
    StillClear(na, nb, b.list.nodes, b.spares);
    StillClear(na, nb, b.list.nodes, a.pool.free);
  }

  /** The two sequences after x went from one to the other hold what they held, and still nothing in common. */
  lemma HandedOver<T>(a: seq<ListIter<T>>, b: seq<ListIter<T>>, k: nat, m: nat)
    requires Distinct(a) && Disjoint(a, b) && k < |a| && m <= |b|
    ensures var r, i := RemoveAt<ListIter<T>>(a, k), InsertAt<ListIter<T>>(b, m, a[k]);
      Disjoint(r, i) && From(r, a, b) && From(i, a, b)
  {
    hide Distinct, Disjoint;
    RemoveAtFacts(a, k);
    InsertAtMembers<ListIter<T>>(b, m, a[k]);
    DisjointMembers(a, b);
    assert a[k] in a;
    MembersDisjoint(RemoveAt<ListIter<T>>(a, k), InsertAt<ListIter<T>>(b, m, a[k]));
  }

  lemma ListDistinct<T>(l: List<T>)
    requires l.Valid()
    ensures Distinct(l.nodes)
  {}

  /** A list whose iterators have changed order, or gone, is still in order with its spares and the pool. */
  lemma Rearranged<T>(a: PooledList<T>, was: seq<ListIter<T>>)
    requires a.list.Valid() && Chain(a.iters, a.spares) && a.pool.Valid() && From(a.list.nodes, was, was)
    requires Disjoint(was, a.spares) && Disjoint(was, a.pool.free) && Disjoint(a.spares, a.pool.free)
    ensures a.Valid()
  {
    hide From, Disjoint, Chain, List.Valid, Pool.Valid;
    StillClear(was, was, a.list.nodes, a.spares);
    StillClear(was, was, a.list.nodes, a.pool.free);
  }

  lemma MovedMembers<T>(s: seq<ListIter<T>>, from: ListIter<T>, to: ListIter<T>)
    requires Distinct(s) && from in s && to in s
    ensures From(MovedBefore(s, from, to), s, s) && From(MovedAfter(s, from, to), s, s)
  {
    hide MoveAt;
    var k, t := IndexOf(s, from), IndexOf(s, to);
    MoveAtMeaning(s, k, if k < t then t - 1 else t);
    MoveAtMeaning(s, k, if k <= t then t else t + 1);
  }

  /** Hands an iterator over to another list, in front of to or at its head; inside one list it is a move. */
  method Swap<T>(a: PooledList<T>, b: PooledList<T>, from: ListIter<T>, to: ListIter?<T>)
    requires a.Valid() && b.Valid() && (a != b ==> Strangers(a, b))
    requires from in a.list.nodes && (to == null || to in b.list.nodes)
    modifies a.list, a.list.nodes, b.list, b.list.nodes
    ensures a.Valid() && b.Valid() && (a != b ==> Strangers(a, b))
    ensures a == b ==>
      a.list.nodes == MovedBefore(old(a.list.nodes), from, if to == null then old(a.list.nodes)[0] else to)
    ensures a != b ==>
      var k, m := IndexOf(old(a.list.nodes), from), if to == null then 0 else IndexOf(old(b.list.nodes), to);
      && a.list.nodes == RemoveAt(old(a.list.nodes), k)
      && b.list.nodes == InsertAt<ListIter<T>>(old(b.list.nodes), m, from)
    ensures a.spares == old(a.spares) && b.spares == old(b.spares)
  {
    hide IndexOf, RemoveAt, InsertAt, Distinct, List.Valid, From, MovedBefore, MovedAfter;
    ghost var na, nb := a.list.nodes, b.list.nodes;
    ListDistinct(a.list);
    if a == b {
      MovedMembers(na, from, if to == null then na[0] else to);
      List.Swap(a.list, b.list, from, to);
      Rearranged(a, na);
      return;
    }
    DisjointFlip(a.spares, nb);
    HandedOver(na, nb, IndexOf(na, from), if to == null then 0 else IndexOf(nb, to));
    List.Swap(a.list, b.list, from, to);
    Exchanged(a, b, na, nb);
  }

  /** Hands an iterator over to another list, behind to or at its tail; inside one list it is a move. */
  method Swapn<T>(a: PooledList<T>, b: PooledList<T>, from: ListIter<T>, to: ListIter?<T>)
    requires a.Valid() && b.Valid() && (a != b ==> Strangers(a, b))
    requires from in a.list.nodes && (to == null || to in b.list.nodes)
    modifies a.list, a.list.nodes, b.list, b.list.nodes
    ensures a.Valid() && b.Valid() && (a != b ==> Strangers(a, b))
    ensures a == b ==>
      a.list.nodes == MovedAfter(old(a.list.nodes), from,
                                 if to == null then old(a.list.nodes)[|old(a.list.nodes)| - 1] else to)
    ensures a != b ==>
      var k := IndexOf(old(a.list.nodes), from);
      var m := if to == null then |old(b.list.nodes)| else IndexOf(old(b.list.nodes), to) + 1;
      && a.list.nodes == RemoveAt(old(a.list.nodes), k)
      && b.list.nodes == InsertAt<ListIter<T>>(old(b.list.nodes), m, from)
    ensures a.spares == old(a.spares) && b.spares == old(b.spares)
  {
    hide IndexOf, RemoveAt, InsertAt, Distinct, List.Valid, From, MovedBefore, MovedAfter;
    ghost var na, nb := a.list.nodes, b.list.nodes;
    ListDistinct(a.list);
    if a == b {
      MovedMembers(na, from, if to == null then na[|na| - 1] else to);
      List.Swapn(a.list, b.list, from, to);
      Rearranged(a, na);
      return;
    }
    DisjointFlip(a.spares, nb);
    HandedOver(na, nb, IndexOf(na, from), if to == null then |nb| else IndexOf(nb, to) + 1);
    List.Swapn(a.list, b.list, from, to);
    Exchanged(a, b, na, nb);
  }

  lemma AllHandedOver<T>(na: seq<ListIter<T>>, nb: seq<ListIter<T>>)
    ensures From(na + nb, na, nb) && From(nb + na, na, nb)
    ensures From([], na, nb) && Disjoint(na + nb, []) && Disjoint(nb + na, [])
  {}

  /** Splices all iterators of from onto the tail of a list; each list keeps its own spares. A list spliced onto itself
      loses the iterators it holds: neither a list nor the pool has them then. */
  method AppendList<T>(a: PooledList<T>, from: PooledList<T>)
    requires a.Valid() && from.Valid() && (a != from ==> Strangers(a, from))
    modifies a.list, a.list.nodes, from.list, from.list.nodes
    ensures a.Valid() && from.Valid() && (a != from ==> Strangers(a, from))
    ensures a.list.nodes == if a == from then [] else old(a.list.nodes) + old(from.list.nodes)
    ensures from.list.nodes == []
    ensures a.spares == old(a.spares) && from.spares == old(from.spares)
  {
    hide Distinct, List.Valid, From;
    ghost var na, nb := a.list.nodes, from.list.nodes;
    AllHandedOver(na, nb);
    if a == from {
      a.list.AppendList(from.list);
      Rearranged(a, na);
      return;
    }
    DisjointFlip(a.spares, nb);
    a.list.AppendList(from.list);
    Exchanged(a, from, na, nb);
  }

  /** Splices all iterators of from in front of a list; each list keeps its own spares. In front of itself it loses
      them, as above. */
  method InsertList<T>(a: PooledList<T>, from: PooledList<T>)
    requires a.Valid() && from.Valid() && (a != from ==> Strangers(a, from))
    modifies a.list, a.list.nodes, from.list, from.list.nodes
    ensures a.Valid() && from.Valid() && (a != from ==> Strangers(a, from))
    ensures a.list.nodes == if a == from then [] else old(from.list.nodes) + old(a.list.nodes)
    ensures from.list.nodes == []
    ensures a.spares == old(a.spares) && from.spares == old(from.spares)
  {
    hide Distinct, List.Valid, From;
    ghost var na, nb := a.list.nodes, from.list.nodes;
    AllHandedOver(na, nb);
    if a == from {
      a.list.InsertList(from.list);
      Rearranged(a, na);
      return;
    }
    DisjointFlip(a.spares, nb);
    a.list.InsertList(from.list);
    Exchanged(a, from, na, nb);
  }
}
