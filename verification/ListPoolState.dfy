/** The pool that hands iterators to the lists of cc_list.c, and the lists' own spare iterators, on values. */
module ListPoolState {
  import opened Lists

  const BLOCK_SIZE := 1024
  const SET_SIZE := 32

  /** The free chain, the blocks, the newest first, and the two counters. */
  datatype Pool<I> = Pool(free: seq<I>, blocks: seq<seq<I>>, refcount: int, count: int)

  datatype Block<I> = NoMemory | Fresh(iters: seq<I>)

  /** A list, while it exists: the iterators that carry its data, and those it keeps for later. */
  datatype Lst<I> = Lst(live: bool, nodes: seq<I>, spares: seq<I>)

  function Reverse<I>(s: seq<I>): (r: seq<I>)
    ensures |r| == |s|
  {
    if s == [] then [] else Reverse(s[1..]) + [s[0]]
  }

  // ---------------------------------------------------------------- the pool

  /** Puts a new block in front of the free chain, its last iterator first. */
  function Extend<I>(p: Pool<I>, b: seq<I>): Pool<I> {
    Pool(Reverse(b) + p.free, [b] + p.blocks, p.refcount, p.count + BLOCK_SIZE)
  }

  function Take<I>(p: Pool<I>): (Pool<I>, seq<I>)
    requires |p.free| >= SET_SIZE
  {
    (Pool(p.free[SET_SIZE..], p.blocks, p.refcount + SET_SIZE, p.count - SET_SIZE), p.free[..SET_SIZE])
  }

  /** A set of iterators, or none when a new block is needed and there is no memory for it. */
  function Get<I>(p: Pool<I>, b: Block<I>): (Pool<I>, seq<I>)
    requires p.count == |p.free| && (b.Fresh? ==> |b.iters| == BLOCK_SIZE)
  {
    if p.count >= SET_SIZE then Take(p)
    else if b.NoMemory? then (p, [])
    else Take(Extend(p, b.iters))
  }

  /** Takes iterators back; when the last one comes back every block goes. */
  function Give<I>(p: Pool<I>, iters: seq<I>): Pool<I> {
    if iters == [] then p
    else if p.refcount - |iters| == 0 then Pool([], [], 0, 0)
    else Pool(iters + p.free, p.blocks, p.refcount - |iters|, p.count + |iters|)
  }

  // ---------------------------------------------------------------- one list

  /** A list with room for one more: a spare iterator first, or one of a new set, the rest of which become spares. */
  function Supply<I>(l: Lst<I>, p: Pool<I>, b: Block<I>): (Pool<I>, seq<I>)
    requires p.count == |p.free| && (b.Fresh? ==> |b.iters| == BLOCK_SIZE)
  {
    if l.spares != [] then (p, l.spares)
    else
      var (q, got) := Get(p, b);
      (q, if got == [] then [] else [got[0]] + Reverse(got[1..]))
  }

  function InsertOne<I>(l: Lst<I>, supply: seq<I>, k: nat): Lst<I>
    requires k <= |l.nodes|
  {
    if supply == [] then l else l.(nodes := InsertAt(l.nodes, k, supply[0]), spares := supply[1..])
  }

  function RemoveOne<I>(l: Lst<I>, k: nat): Lst<I>
    requires k < |l.nodes|
  {
    l.(nodes := RemoveAt(l.nodes, k), spares := [l.nodes[k]] + l.spares)
  }

  /** Removal from the head until nothing is left. */
  function Discarded<I>(l: Lst<I>): (r: Lst<I>)
    ensures r.nodes == []
    decreases |l.nodes|
  {
    if l.nodes == [] then l else Discarded(RemoveOne(l, 0))
  }
}
