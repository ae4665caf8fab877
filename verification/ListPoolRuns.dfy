/** Any number of lists on one pool: where every iterator is, whatever the lists do. */
module ListPoolRuns {
  import opened Lists
  import opened ListPoolState

  /** The pool, the lists, and the iterators that are no longer free nor in any list: a list spliced onto itself drops
      all it held. */
  datatype World<I> = World(pool: Pool<I>, lists: seq<Lst<I>>, lost: seq<I>)

  datatype Event<I> =
    | New
    | Insert(list: nat, k: nat, block: Block<I>)
    | Remove(list: nat, k: nat)
    | Move(list: nat, k: nat, m: nat)
    | Swap(from: nat, k: nat, to: nat, m: nat)
    | Splice(to: nat, from: nat, atTail: bool)
    | Delete(list: nat)

  // ---------------------------------------------------------------- where the iterators are

  function Concat<I>(blocks: seq<seq<I>>): seq<I> {
    if blocks == [] then [] else blocks[0] + Concat(blocks[1..])
  }

  function Own<I>(l: Lst<I>): seq<I> { l.nodes + l.spares }

  /** Every iterator some list holds. */
  function Held<I>(lists: seq<Lst<I>>): seq<I> {
    if lists == [] then [] else Held(lists[..|lists| - 1]) + Own(lists[|lists| - 1])
  }

  /** Every iterator the pool has given out and not got back. */
  function Taken<I>(w: World<I>): seq<I> { Held(w.lists) + w.lost }

  ghost predicate Once<I>(m: multiset<I>) { forall x | x in m :: m[x] == 1 }

  /**
   * Every iterator of every block is free, held by one list, or lost, once; the counters count; and a list that is gone
   * holds nothing.
   */
  ghost predicate Inv<I>(w: World<I>) {
    && w.pool.count == |w.pool.free|
    && w.pool.refcount == |Taken(w)|
    && multiset(w.pool.free) + multiset(Taken(w)) == multiset(Concat(w.pool.blocks))
    && Once(multiset(Concat(w.pool.blocks)))
    && (forall b | b in w.pool.blocks :: |b| == BLOCK_SIZE)
    && (forall l | l in w.lists :: l.live || Own(l) == [])
  }

  // ---------------------------------------------------------------- steps

  predicate Alive<I>(w: World<I>, i: nat) { i < |w.lists| && w.lists[i].live }

  ghost predicate Enabled<I>(w: World<I>, e: Event<I>) {
    match e
    case New => true
    case Insert(i, k, b) => Alive(w, i) && k <= |w.lists[i].nodes| && (b.Fresh? ==> FreshBlock(w, b.iters))
    case Remove(i, k) => Alive(w, i) && k < |w.lists[i].nodes|
    case Move(i, k, m) => Alive(w, i) && k < |w.lists[i].nodes| && m < |w.lists[i].nodes|
    case Swap(i, k, j, m) =>
      && Alive(w, i) && Alive(w, j) && k < |w.lists[i].nodes|
      && if i == j then m < |w.lists[i].nodes| else m <= |w.lists[j].nodes|
    case Splice(i, j, _) => Alive(w, i) && Alive(w, j)
    case Delete(i) => Alive(w, i)
  }

  /** New memory overlaps no block there is. */
  ghost predicate FreshBlock<I>(w: World<I>, b: seq<I>) {
    |b| == BLOCK_SIZE && Once(multiset(b) + multiset(Concat(w.pool.blocks)))
  }

  function Set<I>(w: World<I>, i: nat, l: Lst<I>): World<I>
    requires i < |w.lists|
  {
    w.(lists := w.lists[i := l])
  }

  function Spliced<I>(to: Lst<I>, from: Lst<I>, atTail: bool): Lst<I> {
    to.(nodes := if atTail then to.nodes + from.nodes else from.nodes + to.nodes)
  }

  ghost function Next<I>(w: World<I>, e: Event<I>): World<I>
    requires Enabled(w, e) && Inv(w)
  {
    match e
    case New => w.(lists := w.lists + [Lst(true, [], [])])
    case Insert(i, k, b) =>
      var (q, supply) := Supply(w.lists[i], w.pool, b);
      World(q, w.lists[i := InsertOne(w.lists[i], supply, k)], w.lost)
    case Remove(i, k) => Set(w, i, RemoveOne(w.lists[i], k))
    case Move(i, k, m) => Set(w, i, w.lists[i].(nodes := MoveAt(w.lists[i].nodes, k, m)))
    case Swap(i, k, j, m) =>
      var a, b := w.lists[i], w.lists[j];
      if i == j then Set(w, i, a.(nodes := MoveAt(a.nodes, k, m)))
      else Set(Set(w, i, a.(nodes := RemoveAt(a.nodes, k))), j, b.(nodes := InsertAt(b.nodes, m, a.nodes[k])))
    case Splice(i, j, atTail) =>
      if i == j then Set(w, i, w.lists[i].(nodes := [])).(lost := w.lost + w.lists[i].nodes)
      else Set(Set(w, i, Spliced(w.lists[i], w.lists[j], atTail)), j, w.lists[j].(nodes := []))
    case Delete(i) =>
      World(Give(w.pool, Discarded(w.lists[i]).spares), w.lists[i := Lst(false, [], [])], w.lost)
  }

  // ---------------------------------------------------------------- counting

  lemma Exchange<I>(a: multiset<I>, b: multiset<I>, c: multiset<I>, d: multiset<I>, e: multiset<I>)
    requires a + b == c + d
    ensures a + e + b == c + e + d
  {
    assert a + e + b == a + b + e;
    assert c + d + e == c + e + d;
  }

  lemma Cancel<I>(a: multiset<I>, b: multiset<I>, c: multiset<I>)
    requires a + c == b + c
    ensures a == b
  {
    assert a == a + c - c;
    assert b == b + c - c;
  }

  lemma {:induction false} HeldSet<I>(lists: seq<Lst<I>>, i: nat, l: Lst<I>)
    requires i < |lists|
    ensures multiset(Held(lists[i := l])) + multiset(Own(lists[i])) == multiset(Held(lists)) + multiset(Own(l))
    decreases |lists|
  {
    hide Own;
    var n := |lists| - 1;
    if i < n {
      HeldSet(lists[..n], i, l);
      assert lists[i := l][..n] == lists[..n][i := l] && lists[i := l][n] == lists[n];
      Exchange(multiset(Held(lists[..n][i := l])), multiset(Own(lists[i])), multiset(Held(lists[..n])),
               multiset(Own(l)), multiset(Own(lists[n])));
    } else {
      assert lists[i := l][..n] == lists[..n];
    }
  }

  lemma TakenSet<I>(w: World<I>, i: nat, l: Lst<I>)
    requires i < |w.lists|
    ensures multiset(Taken(Set(w, i, l))) + multiset(Own(w.lists[i])) == multiset(Taken(w)) + multiset(Own(l))
  {
    hide Own, Held;
    HeldSet(w.lists, i, l);
    Exchange(multiset(Held(w.lists[i := l])), multiset(Own(w.lists[i])), multiset(Held(w.lists)), multiset(Own(l)),
             multiset(w.lost));
  }

  lemma {:induction false} ReverseSame<I>(s: seq<I>)
    ensures multiset(Reverse(s)) == multiset(s)
  {
    if s != [] {
      ReverseSame(s[1..]);
      assert s == [s[0]] + s[1..];
    }
  }

  lemma InsertSame<I>(s: seq<I>, k: nat, x: I)
    requires k <= |s|
    ensures multiset(InsertAt(s, k, x)) == multiset(s) + multiset{x}
  {
    assert s == s[..k] + s[k..];
  }

  lemma RemoveSame<I>(s: seq<I>, k: nat)
    requires k < |s|
    ensures multiset(RemoveAt(s, k)) + multiset{s[k]} == multiset(s)
  {
    assert s == s[..k] + [s[k]] + s[k + 1..];
  }

  lemma {:induction false} DiscardedSame<I>(l: Lst<I>)
    ensures multiset(Discarded(l).spares) == multiset(Own(l))
    decreases |l.nodes|
  {
    if l.nodes != [] {
      DiscardedSame(RemoveOne(l, 0));
      RemoveSame(l.nodes, 0);
    }
  }

  lemma {:induction false} ConcatSize<I>(blocks: seq<seq<I>>)
    requires forall b | b in blocks :: |b| == BLOCK_SIZE
    ensures |Concat(blocks)| == BLOCK_SIZE * |blocks|
  {
    if blocks != [] { ConcatSize(blocks[1..]); }
  }

  // ---------------------------------------------------------------- what every step keeps

  /** Taking iterators from the free chain into a list, or giving them back, changes nothing in total. */
  ghost predicate Whole<I>(p: Pool<I>, held: multiset<I>) {
    && p.count == |p.free| && p.refcount == |held|
    && multiset(p.free) + held == multiset(Concat(p.blocks))
    && Once(multiset(Concat(p.blocks)))
    && (forall b | b in p.blocks :: |b| == BLOCK_SIZE)
  }

  lemma ExtendWhole<I>(p: Pool<I>, held: multiset<I>, b: seq<I>)
    requires Whole(p, held) && |b| == BLOCK_SIZE && Once(multiset(b) + multiset(Concat(p.blocks)))
    ensures Whole(Extend(p, b), held)
  {
    ReverseSame(b);
    assert Concat([b] + p.blocks) == b + Concat(p.blocks);
    assert forall x | x in [b] + p.blocks :: x == b || x in p.blocks;
  }

  lemma TakeWhole<I>(p: Pool<I>, held: multiset<I>)
    requires Whole(p, held) && |p.free| >= SET_SIZE
    ensures var (q, got) := Take(p); |got| == SET_SIZE && Whole(q, held + multiset(got))
  {
    assert p.free == p.free[..SET_SIZE] + p.free[SET_SIZE..];
  }

  lemma GetWhole<I>(p: Pool<I>, held: multiset<I>, b: Block<I>)
    requires Whole(p, held)
    requires b.Fresh? ==> |b.iters| == BLOCK_SIZE && Once(multiset(b.iters) + multiset(Concat(p.blocks)))
    ensures var (q, got) := Get(p, b); Whole(q, held + multiset(got))
    ensures Get(p, b).1 == [] <==> p.count < SET_SIZE && b.NoMemory?
  {
    hide Whole, Extend, Take;
    if p.count < SET_SIZE && b.Fresh? { ExtendWhole(p, held, b.iters); ExtendSize(p, b.iters); }
    SizeWhole(p, held);
    if p.count >= SET_SIZE { TakeWhole(p, held); }
    else if b.Fresh? { TakeWhole(Extend(p, b.iters), held); }
    else { assert held + multiset([]) == held; }
  }

  lemma SizeWhole<I>(p: Pool<I>, held: multiset<I>)
    requires Whole(p, held)
    ensures p.count == |p.free|
  {}

  lemma ExtendSize<I>(p: Pool<I>, b: seq<I>)
    ensures |Extend(p, b).free| == |b| + |p.free|
  {}

  lemma GiveWhole<I>(p: Pool<I>, held: multiset<I>, iters: seq<I>)
    requires Whole(p, held + multiset(iters))
    ensures Whole(Give(p, iters), held)
    ensures Give(p, iters).blocks != p.blocks ==> |held| == 0
  {
    if iters != [] && p.refcount - |iters| == 0 {
      assert |held| == 0;
      assert held == multiset{};
    }
  }

  lemma SupplySame<I>(l: Lst<I>, p: Pool<I>, b: Block<I>, k: nat)
    requires p.count == |p.free| && (b.Fresh? ==> |b.iters| == BLOCK_SIZE) && k <= |l.nodes|
    ensures l.spares == [] ==>
      multiset(Own(InsertOne(l, Supply(l, p, b).1, k))) == multiset(Own(l)) + multiset(Get(p, b).1)
    ensures l.spares != [] ==> multiset(Own(InsertOne(l, Supply(l, p, b).1, k))) == multiset(Own(l))
  {
    hide Get, InsertAt, Reverse;
    var supply := Supply(l, p, b).1;
    if l.spares != [] {
      StockSame(l.nodes, k, l.spares);
    } else if supply != [] {
      var got := Get(p, b).1;
      ReverseSame(got[1..]);
      assert multiset(supply) == multiset(got) by {
        assert got == [got[0]] + got[1..];
      }
      StockSame(l.nodes, k, supply);
    }
  }

  lemma StockSame<I>(nodes: seq<I>, k: nat, stock: seq<I>)
    requires k <= |nodes| && stock != []
    ensures multiset(InsertAt(nodes, k, stock[0]) + stock[1..]) == multiset(nodes) + multiset(stock)
  {
    hide InsertAt;
    InsertSame(nodes, k, stock[0]);
    assert stock == [stock[0]] + stock[1..];
  }

  lemma MoveSame<I>(s: seq<I>, k: nat, m: nat)
    requires k < |s| && m < |s|
    ensures multiset(MoveAt(s, k, m)) == multiset(s)
  {
    hide InsertAt, RemoveAt;
    RemoveSame(s, k);
    InsertAtMembers(s, 0, s[k]);
    RemoveLength(s, k);
    InsertSame(RemoveAt(s, k), m, s[k]);
  }

  lemma RemoveLength<I>(s: seq<I>, k: nat)
    requires k < |s|
    ensures |RemoveAt(s, k)| == |s| - 1
  {}

  lemma WholeOf<I>(w: World<I>)
    ensures Inv(w) <==> Whole(w.pool, multiset(Taken(w))) && forall l | l in w.lists :: l.live || Own(l) == []
  {}

  /** A list changes in place; the pool has taken from it or given to it what the difference is. */
  lemma SetKeeps<I>(w: World<I>, i: nat, l: Lst<I>, p: Pool<I>, more: multiset<I>, less: multiset<I>)
    requires Inv(w) && i < |w.lists| && (l.live || Own(l) == [])
    requires multiset(Own(l)) + less == multiset(Own(w.lists[i])) + more
    requires forall taken :: taken + less == multiset(Taken(w)) + more ==> Whole(p, taken)
    ensures Inv(World(p, w.lists[i := l], w.lost))
  {
    hide Inv, Whole, Own, Taken;
    TakenSet(w, i, l);
    var u := World(p, w.lists[i := l], w.lost);
    assert multiset(Taken(u)) == multiset(Taken(Set(w, i, l))) by { TakenLists(u, Set(w, i, l)); }
    SetSum(multiset(Taken(u)), multiset(Own(w.lists[i])), multiset(Taken(w)), multiset(Own(l)), more, less);
    assert Whole(p, multiset(Taken(u)));
    assert forall x | x in u.lists :: x == l || x in w.lists;
    WholeOf(u);
    WholeOf(w);
  }

  lemma TakenLists<I>(u: World<I>, v: World<I>)
    requires u.lists == v.lists && u.lost == v.lost
    ensures Taken(u) == Taken(v)
  {}

  lemma SetSum<I>(now: multiset<I>, own: multiset<I>, was: multiset<I>, l: multiset<I>, more: multiset<I>,
                  less: multiset<I>)
    requires now + own == was + l && l + less == own + more
    ensures now + less == was + more
  {
    Exchange(now, own, was, l, less);
    assert was + less + l == was + (l + less);
    assert was + (own + more) == (was + more) + own;
    assert now + less + own == was + more + own;
    Cancel(now + less, was + more, own);
  }

  lemma InsertKeeps<I>(w: World<I>, e: Event<I>)
    requires Inv(w) && Enabled(w, e) && e.Insert?
    ensures Inv(Next(w, e))
  {
    hide Whole, Own, Get, InsertOne, FreshBlock;
    var l := w.lists[e.list];
    FreshIs(w, e);
    var (q, supply) := Supply(l, w.pool, e.block);
    var held := multiset(Taken(w));
    WholeOf(w);
    SupplySame(l, w.pool, e.block, e.k);
    GetWhole(w.pool, held, e.block);
    StillLive(l, supply, e.k);
    var got := if l.spares == [] then multiset(Get(w.pool, e.block).1) else multiset{};
    forall h: multiset<I> | h + multiset{} == held + got ensures Whole(q, h) {
      assert h == h + multiset{} && held + multiset{} == held;
    }
    SetKeeps(w, e.list, InsertOne(l, supply, e.k), q, got, multiset{});
  }

  lemma FreshIs<I>(w: World<I>, e: Event<I>)
    requires Enabled(w, e) && e.Insert?
    ensures w.lists[e.list].live
    ensures e.block.Fresh? ==>
      |e.block.iters| == BLOCK_SIZE && Once(multiset(e.block.iters) + multiset(Concat(w.pool.blocks)))
  {}

  lemma StillLive<I>(l: Lst<I>, supply: seq<I>, k: nat)
    requires k <= |l.nodes|
    ensures InsertOne(l, supply, k).live == l.live
  {}

  /** Rearranging a list, with its spares, leaves the pool alone. */
  lemma RearrangeKeeps<I>(w: World<I>, i: nat, l: Lst<I>)
    requires Inv(w) && i < |w.lists| && l.live && multiset(Own(l)) == multiset(Own(w.lists[i]))
    ensures Inv(Set(w, i, l))
  {
    hide Whole, Own;
    WholeOf(w);
    var held := multiset(Taken(w));
    forall h: multiset<I> | h + multiset{} == held + multiset{} ensures Whole(w.pool, h) {
      assert h == h + multiset{} && held + multiset{} == held;
    }
    SetKeeps(w, i, l, w.pool, multiset{}, multiset{});
  }

  /** What one list loses another gains. */
  lemma TransferKeeps<I>(w: World<I>, i: nat, a: Lst<I>, j: nat, b: Lst<I>)
    requires Inv(w) && i < |w.lists| && j < |w.lists| && i != j && a.live && b.live
    requires multiset(Own(a)) + multiset(Own(b)) == multiset(Own(w.lists[i])) + multiset(Own(w.lists[j]))
    ensures Inv(Set(Set(w, i, a), j, b))
  {
    hide Inv, Whole, Own, Held;
    WholeOf(w);
    var v := Set(Set(w, i, a), j, b);
    TransferHeld(w.lists, i, a, j, b);
    assert |multiset(Taken(v))| == |multiset(Taken(w))|;
    assert forall x | x in v.lists :: x == a || x == b || x in w.lists;
    WholeOf(v);
  }

  lemma TransferHeld<I>(lists: seq<Lst<I>>, i: nat, a: Lst<I>, j: nat, b: Lst<I>)
    requires i < |lists| && j < |lists| && i != j
    requires multiset(Own(a)) + multiset(Own(b)) == multiset(Own(lists[i])) + multiset(Own(lists[j]))
    ensures multiset(Held(lists[i := a][j := b])) == multiset(Held(lists))
    ensures |Held(lists[i := a][j := b])| == |Held(lists)|
  {
    hide Own, Held;
    var u := lists[i := a];
    HeldSet(lists, i, a);
    HeldSet(u, j, b);
    TransferSum(multiset(Held(lists)), multiset(Held(u)), multiset(Held(u[j := b])),
                multiset(Own(a)), multiset(Own(b)), multiset(Own(lists[i])), multiset(Own(lists[j])));
    assert |multiset(Held(u[j := b]))| == |multiset(Held(lists))|;
  }

  lemma TransferSum<I>(hw: multiset<I>, hu: multiset<I>, hv: multiset<I>, a: multiset<I>, b: multiset<I>,
                       oi: multiset<I>, oj: multiset<I>)
    requires hu + oi == hw + a && hv + oj == hu + b && a + b == oi + oj
    ensures hv == hw
  {
    Exchange(hu, oi, hw, a, b);
    Exchange(hv, oj, hu, b, oi);
    assert hw + b + a == hw + (a + b);
    assert hu + oi + b == hu + b + oi;
    assert hv + oi + oj == hv + (oi + oj);
    Cancel(hv, hw, oi + oj);
  }

  lemma SwapKeeps<I>(w: World<I>, e: Event<I>)
    requires Inv(w) && Enabled(w, e) && e.Swap?
    ensures Inv(Next(w, e))
  {
    hide InsertAt, RemoveAt, MoveAt;
    var a, b := w.lists[e.from], w.lists[e.to];
    if e.from == e.to {
      MoveSame(a.nodes, e.k, e.m);
      RearrangeKeeps(w, e.from, a.(nodes := MoveAt(a.nodes, e.k, e.m)));
      return;
    }
    var x := a.nodes[e.k];
    RemoveSame(a.nodes, e.k);
    InsertSame(b.nodes, e.m, x);
    var ra, ib := multiset(RemoveAt(a.nodes, e.k)), multiset(InsertAt(b.nodes, e.m, x));
    MovedSum(ra, ib, multiset(a.nodes), multiset(b.nodes), multiset(a.spares), multiset(b.spares), multiset{x});
    TransferKeeps(w, e.from, a.(nodes := RemoveAt(a.nodes, e.k)), e.to, b.(nodes := InsertAt(b.nodes, e.m, x)));
  }

  lemma MovedSum<I>(ra: multiset<I>, ib: multiset<I>, a: multiset<I>, b: multiset<I>, sa: multiset<I>, sb: multiset<I>,
                    x: multiset<I>)
    requires ra + x == a && ib == b + x
    ensures (ra + sa) + (ib + sb) == (a + sa) + (b + sb)
  {
    assert (ra + sa) + (ib + sb) == (ra + x) + sa + (b + sb);
  }

  lemma SpliceKeeps<I>(w: World<I>, e: Event<I>)
    requires Inv(w) && Enabled(w, e) && e.Splice?
    ensures Inv(Next(w, e))
  {
    var a, b := w.lists[e.to], w.lists[e.from];
    if e.to == e.from {
      SelfSpliceKeeps(w, e.to);
    } else {
      SpliceSum(multiset(a.nodes), multiset(b.nodes), multiset(a.spares), multiset(b.spares));
      TransferKeeps(w, e.to, Spliced(a, b, e.atTail), e.from, b.(nodes := []));
    }
  }

  /** A list spliced onto itself drops its iterators and keeps its spares. */
  lemma SelfSpliceKeeps<I>(w: World<I>, i: nat)
    requires Inv(w) && i < |w.lists| && w.lists[i].live
    ensures Inv(Set(w, i, w.lists[i].(nodes := [])).(lost := w.lost + w.lists[i].nodes))
  {
    hide Inv, Whole, Held;
    var l := w.lists[i];
    var k := l.(nodes := []);
    var u := Set(w, i, k).(lost := w.lost + l.nodes);
    HeldSet(w.lists, i, k);
    DropSum(multiset(Held(u.lists)), multiset(l.nodes), multiset(l.spares), multiset(Held(w.lists)), multiset(w.lost));
    assert |multiset(Taken(u))| == |multiset(Taken(w))|;
    assert forall x | x in u.lists :: x == k || x in w.lists;
    WholeOf(w);
    WholeOf(u);
  }

  lemma DropSum<I>(now: multiset<I>, nodes: multiset<I>, spares: multiset<I>, was: multiset<I>, lost: multiset<I>)
    requires now + (nodes + spares) == was + (multiset{} + spares)
    ensures now + (lost + nodes) == was + lost
  {
    assert (now + nodes) + spares == now + (nodes + spares);
    assert was + (multiset{} + spares) == was + spares;
    Cancel(now + nodes, was, spares);
  }

  lemma SpliceSum<I>(a: multiset<I>, b: multiset<I>, sa: multiset<I>, sb: multiset<I>)
    ensures ((a + b) + sa) + (multiset{} + sb) == (a + sa) + (b + sb)
    ensures ((b + a) + sa) + (multiset{} + sb) == (a + sa) + (b + sb)
  {}

  /** Deleting a list gives back all it held; when that was all there was, the blocks go. */
  lemma DeleteKeeps<I>(w: World<I>, e: Event<I>)
    requires Inv(w) && Enabled(w, e) && e.Delete?
    ensures Inv(Next(w, e))
    ensures Next(w, e).pool.blocks != w.pool.blocks ==> Taken(Next(w, e)) == []
  {
    hide Inv, Whole, Own, Discarded, Give, Taken;
    DeleteWhole(w, e.list);
    GoneOwns<I>();
    WholeOf(w);
    var u := Next(w, e);
    assert forall x | x in u.lists :: x == Gone<I>() || x in w.lists;
    WholeOf(u);
  }

  function Gone<I>(): Lst<I> { Lst(false, [], []) }

  lemma GoneOwns<I>()
    ensures Own(Gone<I>()) == [] && multiset(Own(Gone<I>())) == multiset{}
  {}

  lemma DeleteWhole<I>(w: World<I>, i: nat)
    requires Inv(w) && i < |w.lists|
    ensures var q := Give(w.pool, Discarded(w.lists[i]).spares);
      var u := World(q, w.lists[i := Gone()], w.lost);
      Whole(q, multiset(Taken(u))) && (q.blocks != w.pool.blocks ==> Taken(u) == [])
  {
    hide Inv, Whole, Own, Discarded, Give, Taken;
    var l := w.lists[i];
    var u := World(Give(w.pool, Discarded(l).spares), w.lists[i := Gone()], w.lost);
    TakenLists(u, Set(w, i, Gone()));
    WholeOf(w);
    DiscardedSame(l);
    GoneOwns<I>();
    TakenSet(w, i, Gone());
    GivenSum(multiset(Taken(u)), multiset(Own(l)), multiset(Taken(w)));
    GiveWhole(w.pool, multiset(Taken(u)), Discarded(l).spares);
  }

  lemma GivenSum<I>(rest: multiset<I>, own: multiset<I>, held: multiset<I>)
    requires rest + own == held + multiset{}
    ensures rest + own == held
  {}

  lemma NewKeeps<I>(w: World<I>)
    requires Inv(w)
    ensures Inv(Next(w, New))
  {
    var l := Lst<I>.Lst(true, [], []);
    assert (w.lists + [l])[..|w.lists|] == w.lists;
    assert Held(w.lists + [l]) == Held(w.lists);
  }

  /** Whatever happens next, every iterator is still free, held or lost, once, and the counters are right. */
  lemma NextKeeps<I>(w: World<I>, e: Event<I>)
    requires Inv(w) && Enabled(w, e)
    ensures Inv(Next(w, e))
  {
    hide Inv, InsertAt, RemoveAt, Supply, InsertOne, Discarded, Give, Spliced;
    match e
    case New => NewKeeps(w);
    case Insert(_, _, _) => InsertKeeps(w, e);
    case Remove(i, k) =>
      RemoveSame(w.lists[i].nodes, k);
      RearrangeKeeps(w, i, RemoveOne(w.lists[i], k));
    case Move(i, k, m) =>
      MoveSame(w.lists[i].nodes, k, m);
      RearrangeKeeps(w, i, w.lists[i].(nodes := MoveAt(w.lists[i].nodes, k, m)));
    case Swap(_, _, _, _) => SwapKeeps(w, e);
    case Splice(_, _, _) => SpliceKeeps(w, e);
    case Delete(_) => DeleteKeeps(w, e);
  }

  // ---------------------------------------------------------------- what one insertion and one removal come to

  /** An insertion into a list with spares takes one of those and leaves the pool alone. Without spares it takes 32
      iterators from the pool, one for the list and 31 to spare, after a block of 1024 has been added if fewer than 32
      were free; and if there is no memory for that block nothing changes. */
  lemma InsertExact<I>(w: World<I>, i: nat, k: nat, b: Block<I>)
    requires Inv(w) && Enabled(w, Insert(i, k, b))
    ensures var l, v := w.lists[i], Next(w, Insert(i, k, b));
      |v.lists| == |w.lists| && (forall j | 0 <= j < |w.lists| && j != i :: v.lists[j] == w.lists[j]) &&
      var m := v.lists[i];
      if l.spares != [] then
        && v.pool == w.pool && m.spares == l.spares[1..] && m.nodes == l.nodes[..k] + [l.spares[0]] + l.nodes[k..]
      else if w.pool.count < 32 && b.NoMemory? then v == w
      else
        && |m.spares| == 31 && |m.nodes| == |l.nodes| + 1 && m.nodes[..k] + m.nodes[k + 1..] == l.nodes
        && v.pool.refcount == w.pool.refcount + 32
        && if w.pool.count < 32 then
             v.pool.blocks == [b.iters] + w.pool.blocks && v.pool.count == w.pool.count + 1024 - 32
           else v.pool.blocks == w.pool.blocks && v.pool.count == w.pool.count - 32
  {
    hide Inv, Held, Concat;
    CountIs(w);
    var l, v := w.lists[i], Next(w, Insert(i, k, b));
    var supply := Supply(l, w.pool, b).1;
    if supply != [] {
      InsertedBetween(l.nodes, k, supply[0]);
    }
    hide Reverse, FreshBlock, Once;
    assert v.lists[i] == InsertOne(l, supply, k);
    assert forall j | 0 <= j < |w.lists| && j != i :: v.lists[j] == w.lists[j];
  }

  lemma CountIs<I>(w: World<I>)
    requires Inv(w)
    ensures w.pool.count == |w.pool.free|
  {}

  lemma InsertedBetween<I>(s: seq<I>, k: nat, x: I)
    requires k <= |s|
    ensures var r := InsertAt(s, k, x); |r| == |s| + 1 && r == s[..k] + [x] + s[k..] && r[..k] + r[k + 1..] == s
  {}

  /** A removal makes the iterator the first spare of its list and leaves the pool alone. */
  lemma RemoveExact<I>(w: World<I>, i: nat, k: nat)
    requires Inv(w) && Enabled(w, Remove(i, k))
    ensures var l, v := w.lists[i], Next(w, Remove(i, k));
      && v.pool == w.pool && v.lists[i].nodes == l.nodes[..k] + l.nodes[k + 1..]
      && v.lists[i].spares == [l.nodes[k]] + l.spares && v.lists[i].live
  {
    hide Inv;
  }

  /** Moves, hand-overs and splices take no iterator from the pool or from what a list has spare: one iterator goes from
      its place to another, or all of a list go, in order, to one end of another. */
  lemma TransferExact<I>(w: World<I>, e: Event<I>)
    requires Inv(w) && Enabled(w, e) && (e.Move? || e.Swap? || e.Splice?)
    ensures var v := Next(w, e);
      && v.pool == w.pool && |v.lists| == |w.lists|
      && (forall j | 0 <= j < |w.lists| :: v.lists[j].live == w.lists[j].live && v.lists[j].spares == w.lists[j].spares)
    ensures var v := Next(w, e);
      match e
      case Move(i, k, m) =>
        var x, y := w.lists[i].nodes, v.lists[i].nodes;
        && |y| == |x| && y[m] == x[k] && y[..m] + y[m + 1..] == x[..k] + x[k + 1..]
        && forall j | 0 <= j < |w.lists| && j != i :: v.lists[j] == w.lists[j]
      case Swap(i, k, j, m) =>
        i != j ==>
          var x, y := w.lists[i].nodes, w.lists[j].nodes;
          && v.lists[i].nodes == x[..k] + x[k + 1..] && v.lists[j].nodes == y[..m] + [x[k]] + y[m..]
          && forall l | 0 <= l < |w.lists| && l != i && l != j :: v.lists[l] == w.lists[l]
      case Splice(i, j, atTail) =>
        i != j ==>
          var x, y := w.lists[i].nodes, w.lists[j].nodes;
          && v.lists[j].nodes == [] && v.lists[i].nodes == (if atTail then x + y else y + x)
          && forall l | 0 <= l < |w.lists| && l != i && l != j :: v.lists[l] == w.lists[l]
      case _ => true
  {
    hide Inv;
    if e.Move? {
      MovedExactly(w.lists[e.list].nodes, e.k, e.m);
    }
  }

  lemma MovedExactly<X>(x: seq<X>, k: nat, m: nat)
    requires k < |x| && m < |x|
    ensures var y := MoveAt(x, k, m);
      |y| == |x| && y[m] == x[k] && y[..m] + y[m + 1..] == x[..k] + x[k + 1..]
  {
    InsertedBetween(RemoveAt(x, k), m, x[k]);
  }

  // ---------------------------------------------------------------- last in, first out

  function Backwards<I>(s: seq<I>): seq<I> { seq(|s|, i requires 0 <= i < |s| => s[|s| - 1 - i]) }

  lemma BackwardsHead<I>(s: seq<I>)
    requires s != []
    ensures Backwards(s) == Backwards(s[1..]) + [s[0]]
  {
  }

  lemma {:induction false} ReverseIs<I>(s: seq<I>)
    ensures Reverse(s) == Backwards(s)
  {
    hide Backwards;
    if s == [] {
      NothingBackwards<I>();
    } else {
      BackwardsHead(s);
      ReverseIs(s[1..]);
    }
  }

  lemma NothingBackwards<I>()
    ensures Backwards<I>([]) == []
  {
  }

  /** Which iterators a list without a spare one gets: the first 32 free ones, or the last 32 of a new block. The first
      of them is used and the others are kept, the last one on top. */
  lemma SuppliedSet<I>(l: Lst<I>, p: Pool<I>, b: Block<I>)
    requires p.count == |p.free| && l.spares == [] && (b.Fresh? ==> |b.iters| == 1024)
    ensures p.count >= 32 ==>
      Supply(l, p, b).1 == [p.free[0]] + Backwards(p.free[1..32]) && Supply(l, p, b).0.free == p.free[32..]
    ensures p.count < 32 && b.Fresh? ==>
      && Supply(l, p, b).1 == [b.iters[1023]] + b.iters[992..1023]
      && Supply(l, p, b).0.free == Backwards(b.iters[..992]) + p.free
  {
    if p.count >= 32 {
      ReverseIs(p.free[..32][1..]);
      assert p.free[..32][1..] == p.free[1..32];
    } else if b.Fresh? {
      ReverseIs(b.iters);
      var all := Backwards(b.iters) + p.free;
      ReverseIs(all[..32][1..]);
      hide Reverse;
      assert all[..32][1..] == Backwards(b.iters[992..1023]);
      assert Backwards(Backwards(b.iters[992..1023])) == b.iters[992..1023];
      assert all[32..] == Backwards(b.iters[..992]) + p.free;
    }
  }

  /** A deleted list gives back its nodes, the last one first, and behind them what it had spare, in front of what is
      free; with nothing left outside, all blocks go. */
  lemma DeleteExact<I>(w: World<I>, i: nat)
    requires Inv(w) && Enabled(w, Delete(i))
    ensures var l, v := w.lists[i], Next(w, Delete(i));
      var back := Backwards(l.nodes) + l.spares;
      && |v.lists| == |w.lists| && (forall j | 0 <= j < |w.lists| && j != i :: v.lists[j] == w.lists[j])
      && !v.lists[i].live && Own(v.lists[i]) == []
      && if back == [] then v.pool == w.pool
         else if w.pool.refcount == |back| then v.pool.free == [] && v.pool.blocks == [] && v.pool.count == 0
         else v.pool.free == back + w.pool.free && v.pool.blocks == w.pool.blocks
              && v.pool.count == w.pool.count + |back| && v.pool.refcount == w.pool.refcount - |back|
  {
    hide Inv;
    DiscardedIs(w.lists[i]);
    hide Discarded;
  }

  lemma {:induction false} DiscardedIs<I>(l: Lst<I>)
    ensures Discarded(l).spares == Backwards(l.nodes) + l.spares
    decreases |l.nodes|
  {
    hide Backwards;
    if l.nodes == [] {
      NothingBackwards<I>();
    } else {
      BackwardsHead(l.nodes);
      assert RemoveOne(l, 0).nodes == l.nodes[1..];
      DiscardedIs(RemoveOne(l, 0));
    }
  }

  /** An insertion where something was just removed gives the iterator back its place, whatever the pool has. */
  lemma RemoveInsert<I>(w: World<I>, i: nat, k: nat, b: Block<I>)
    requires Inv(w) && Enabled(w, Remove(i, k)) && (b.Fresh? ==> FreshBlock(w, b.iters))
    ensures Inv(Next(w, Remove(i, k))) && Enabled(Next(w, Remove(i, k)), Insert(i, k, b))
    ensures Next(Next(w, Remove(i, k)), Insert(i, k, b)) == w
  {
    hide Inv, FreshBlock, InsertOne, RemoveOne;
    NextKeeps(w, Remove(i, k));
    PutBack(w.lists[i], k);
    var v := Next(w, Remove(i, k));
    assert v.lists[i] == RemoveOne(w.lists[i], k) && v.pool == w.pool && v.lists[i := w.lists[i]] == w.lists;
    StillFresh(w, v, b);
    hide Next;
    InsertSpare(v, i, k, b);
  }

  lemma StillFresh<I>(w: World<I>, v: World<I>, b: Block<I>)
    requires b.Fresh? ==> FreshBlock(w, b.iters)
    ensures v.pool == w.pool && b.Fresh? ==> FreshBlock(v, b.iters)
  {
  }

  lemma InsertSpare<I>(w: World<I>, i: nat, k: nat, b: Block<I>)
    requires Inv(w) && Enabled(w, Insert(i, k, b)) && w.lists[i].spares != []
    ensures Next(w, Insert(i, k, b)) == Set(w, i, InsertOne(w.lists[i], w.lists[i].spares, k))
  {
    hide Inv, FreshBlock, InsertOne;
  }

  lemma PutBack<I>(l: Lst<I>, k: nat)
    requires k < |l.nodes|
    ensures var m := RemoveOne(l, k);
      && m.live == l.live && |m.nodes| == |l.nodes| - 1 && m.spares != []
      && InsertOne(m, m.spares, k) == l
  {
    hide InsertAt, RemoveAt;
    InsertRemoved(l.nodes, k);
  }

  lemma InsertRemoved<I>(s: seq<I>, k: nat)
    requires k < |s|
    ensures |RemoveAt(s, k)| == |s| - 1 && InsertAt(RemoveAt(s, k), k, s[k]) == s
  {
  }

  // ---------------------------------------------------------------- every run

  /** The world after a run from nothing; what is not enabled when its turn comes does not happen. */
  ghost function Play<I>(es: seq<Event<I>>): (w: World<I>)
    ensures Inv(w)
  {
    if es == [] then World(Pool([], [], 0, 0), [], [])
    else
      var w := Play(es[..|es| - 1]);
      var e := es[|es| - 1];
      if Enabled(w, e) then
        NextKeeps(w, e);
        Next(w, e)
      else w
  }

  lemma {:induction false} OnceDistinct<I>(s: seq<I>)
    requires Once(multiset(s))
    ensures Distinct(s)
  {
    forall i, j ensures Differ(s, i, j) {
      if 0 <= i < j < |s| && s[i] == s[j] {
        Twice(s, i, j);
      }
    }
  }

  lemma Twice<I>(s: seq<I>, i: nat, j: nat)
    requires i < j < |s| && s[i] == s[j]
    ensures multiset(s)[s[i]] >= 2 && s[i] in multiset(s)
  {
    assert s == s[..j] + [s[j]] + s[j + 1..];
    assert s[..j] == s[..i] + [s[i]] + s[i + 1..j];
  }

  /**
   * After any run: no iterator is in two places, the counters say how many are free and how many have been given out,
   * and together they account for every block.
   */
  lemma EveryRun<I>(es: seq<Event<I>>)
    ensures var w := Play(es);
      && Distinct(w.pool.free + Taken(w))
      && (forall x :: x in w.pool.free + Taken(w) <==> x in Concat(w.pool.blocks))
      && w.pool.count == |w.pool.free| && w.pool.refcount == |Held(w.lists)| + |w.lost|
      && w.pool.count + w.pool.refcount == 1024 * |w.pool.blocks|
  {
    var w := Play(es);
    var all := w.pool.free + Taken(w);
    assert multiset(all) == multiset(Concat(w.pool.blocks));
    OnceDistinct(all);
    ConcatSize(w.pool.blocks);
    assert |multiset(all)| == |all|;
    forall x ensures x in all <==> x in Concat(w.pool.blocks) {
      assert x in all <==> x in multiset(all);
    }
  }

  // ---------------------------------------------------------------- what a list spliced onto itself does

  /** The call splices a list that holds something onto itself. */
  ghost predicate Drops<I>(w: World<I>, e: Event<I>) {
    Enabled(w, e) && e.Splice? && e.to == e.from && w.lists[e.to].nodes != []
  }

  /** A run without such a call. */
  ghost predicate Careful<I>(es: seq<Event<I>>) {
    es == [] || (Careful(es[..|es| - 1]) && !Drops(Play(es[..|es| - 1]), es[|es| - 1]))
  }

  lemma NextLost<I>(w: World<I>, e: Event<I>)
    requires Inv(w) && Enabled(w, e)
    ensures Next(w, e).lost == w.lost + if Drops(w, e) then w.lists[e.to].nodes else []
  {
    hide Inv, Supply, InsertOne, Discarded, Give, Spliced, MoveAt, InsertAt, RemoveAt;
  }

  /** Exactly the careful runs keep every iterator that is not free in some list: the reference count is what the lists
      hold. */
  lemma {:induction false} CarefulRunsAccount<I>(es: seq<Event<I>>)
    ensures Careful(es) <==> Play(es).lost == []
    ensures Careful(es) <==> Play(es).pool.refcount == |Held(Play(es).lists)|
  {
    if es != [] {
      var w, e := Play(es[..|es| - 1]), es[|es| - 1];
      CarefulRunsAccount(es[..|es| - 1]);
      if Enabled(w, e) {
        NextLost(w, e);
      }
    }
  }

  /** Blocks are there only as long as something has been given out. */
  lemma NextReleases<I>(w: World<I>, e: Event<I>)
    requires Inv(w) && Enabled(w, e) && (w.pool.refcount == 0 ==> w.pool.blocks == [])
    ensures Next(w, e).pool.refcount == 0 ==> Next(w, e).pool.blocks == []
  {
    hide Discarded, InsertOne, Spliced, MoveAt, InsertAt, RemoveAt, Reverse;
    assert w.pool.refcount >= 0;
  }

  lemma {:induction false} RunReleases<I>(es: seq<Event<I>>)
    ensures Play(es).pool.refcount == 0 ==> Play(es).pool.blocks == []
  {
    if es != [] {
      var w, e := Play(es[..|es| - 1]), es[|es| - 1];
      RunReleases(es[..|es| - 1]);
      if Enabled(w, e) {
        NextReleases(w, e);
      }
    }
  }

  lemma {:induction false} DeadHoldNothing<I>(lists: seq<Lst<I>>)
    requires forall l | l in lists :: Own(l) == []
    ensures Held(lists) == []
  {
    if lists != [] {
      DeadHoldNothing(lists[..|lists| - 1]);
    }
  }

  /** Once every list has been deleted all blocks have been freed, if and only if the run was careful. */
  lemma LastListFreesAll<I>(es: seq<Event<I>>)
    requires forall l | l in Play(es).lists :: !l.live
    ensures Play(es).pool.blocks == [] <==> Careful(es)
  {
    var w := Play(es);
    assert forall l | l in w.lists :: Own(l) == [];
    DeadHoldNothing(w.lists);
    CarefulRunsAccount(es);
    RunReleases(es);
    EveryRun(es);
    if w.lost != [] {
      assert w.lost[0] in w.pool.free + Taken(w);
    }
  }

  lemma NextKeepsBlocks<I>(w: World<I>, e: Event<I>)
    requires Inv(w) && Enabled(w, e) && w.lost != []
    ensures forall b | b in w.pool.blocks :: b in Next(w, e).pool.blocks
  {
    if e.Insert? {
      KeepsBlocks(w, e);
    } else if e.Delete? {
      DeleteKeeps(w, e);
      assert Next(w, e).lost == w.lost;
    }
  }

  /** After a careless call no block is ever freed again, whatever comes. */
  lemma {:induction false} NothingFreedAfter<I>(es: seq<Event<I>>, more: seq<Event<I>>)
    requires !Careful(es)
    ensures !Careful(es + more) && forall b | b in Play(es).pool.blocks :: b in Play(es + more).pool.blocks
    decreases |more|
  {
    hide Inv, Next, Drops, Enabled;
    if more == [] {
      assert es + more == es;
    } else {
      var all, k := es + more, |more| - 1;
      NothingFreedAfter(es, more[..k]);
      assert all[..|all| - 1] == es + more[..k] && all[|all| - 1] == more[k];
      CarefulRunsAccount(es + more[..k]);
      if Enabled(Play(es + more[..k]), more[k]) {
        NextKeepsBlocks(Play(es + more[..k]), more[k]);
      }
    }
  }

  lemma PlayOne<I>(es: seq<Event<I>>, e: Event<I>)
    ensures Enabled(Play(es), e) ==> Play(es + [e]) == Next(Play(es), e)
    ensures Careful(es + [e]) <==> Careful(es) && !Drops(Play(es), e)
  {
    assert (es + [e])[..|es + [e]| - 1] == es;
  }

  /** One list, one element in it, and the list spliced onto itself. */
  function Careless<I>(b: seq<I>): seq<Event<I>> { [New, Insert(0, 0, Fresh(b)), Splice(0, 0, true)] }

  /** Deleting the list after that frees nothing. */
  lemma CarelessRun<I>(b: seq<I>)
    requires |b| == 1024 && Once(multiset(b))
    ensures var es := Careless(b) + [Delete(0)];
      !Careful(es) && (forall l | l in Play(es).lists :: !l.live) && Play(es).pool.blocks != []
  {
    hide Play, Careful, Drops, Careless, Next;
    SpliceDrops(b);
    PlayOne(Careless(b), Delete(0));
    DeleteOnly(Play(Careless(b)));
    LastListFreesAll(Careless(b) + [Delete(0)]);
  }

  lemma DeleteOnly<I>(w: World<I>)
    requires Inv(w) && |w.lists| == 1 && w.lists[0].live
    ensures Enabled(w, Delete(0)) && forall l | l in Next(w, Delete(0)).lists :: !l.live
  {
    hide Inv, Give, Discarded;
  }

  lemma SpliceDrops<I>(b: seq<I>)
    requires |b| == BLOCK_SIZE && Once(multiset(b))
    ensures var w := Play(Careless(b)); !Careful(Careless(b)) && |w.lists| == 1 && w.lists[0].live
  {
    hide Play, Careful, Inv;
    var es: seq<Event<I>> := [New, Insert(0, 0, Fresh(b))];
    OneInList(b);
    assert es + [Splice(0, 0, true)] == Careless(b);
    PlayOne(es, Splice(0, 0, true));
  }

  lemma OneInList<I>(b: seq<I>)
    requires |b| == BLOCK_SIZE && Once(multiset(b))
    ensures var w := Play([New, Insert(0, 0, Fresh(b))]); |w.lists| == 1 && w.lists[0].live && w.lists[0].nodes != []
  {
    hide Inv;
    var first: seq<Event<I>> := [New];
    assert [] + [New] == first && first + [Insert(0, 0, Fresh(b))] == [New, Insert(0, 0, Fresh(b))];
    PlayOne<I>([], New);
    PlayOne(first, Insert(0, 0, Fresh(b)));
    FreshToBegin(b);
    hide Play, Next, Once;
    FirstInsert(Play(first), b);
  }

  lemma FreshToBegin<I>(b: seq<I>)
    requires Once(multiset(b))
    ensures Once(multiset(b) + multiset(Concat<I>([])))
  {
    assert multiset(b) + multiset(Concat<I>([])) == multiset(b);
  }

  lemma FirstInsert<I>(w: World<I>, b: seq<I>)
    requires Inv(w) && w.pool == Pool([], [], 0, 0) && w.lists == [Lst(true, [], [])] && |b| == BLOCK_SIZE
    requires Enabled(w, Insert(0, 0, Fresh(b)))
    ensures var v := Next(w, Insert(0, 0, Fresh(b))); |v.lists| == 1 && v.lists[0].live && v.lists[0].nodes != []
  {
    hide Reverse, Inv;
  }

  /** What list i holds is part of what all hold. */
  lemma {:induction false} HeldBy<I>(lists: seq<Lst<I>>, i: nat, x: I)
    requires i < |lists| && x in Own(lists[i])
    ensures x in Held(lists)
    decreases |lists|
  {
    if i < |lists| - 1 {
      HeldBy(lists[..|lists| - 1], i, x);
    }
  }

  /** Blocks are freed only when no list that is left has an iterator in them, or anywhere. */
  lemma FreedBlocksAreUnused<I>(es: seq<Event<I>>, e: Event<I>, i: nat)
    requires Enabled(Play(es), e)
    requires exists b :: b in Play(es).pool.blocks && b !in Next(Play(es), e).pool.blocks
    requires i < |Next(Play(es), e).lists|
    ensures Next(Play(es), e).lists[i].nodes == [] && Next(Play(es), e).lists[i].spares == []
  {
    var w := Play(es);
    var b :| b in w.pool.blocks && b !in Next(w, e).pool.blocks;
    if e.Insert? { KeepsBlocks(w, e); }
    assert e.Delete?;
    DeleteKeeps(w, e);
    var l := Next(w, e).lists[i];
    if Own(l) != [] { HeldBy(Next(w, e).lists, i, Own(l)[0]); }
    assert |Own(l)| == 0;
  }

  lemma KeepsBlocks<I>(w: World<I>, e: Event<I>)
    requires Inv(w) && Enabled(w, e) && e.Insert?
    ensures forall b | b in w.pool.blocks :: b in Next(w, e).pool.blocks
  {}
}
