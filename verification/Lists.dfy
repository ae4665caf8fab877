/** The doubly linked list of cc_list.c: pointers in the heap, a sequence of iterators as the specification.

    An iterator is a heap object. It keeps its identity and its data when it is moved inside a list or
    handed from one list to another. */
module Lists {

  // ---------------------------------------------------------------- sequence edits

  function InsertAt<X>(s: seq<X>, k: nat, x: X): seq<X>
    requires k <= |s|
  {
    s[..k] + [x] + s[k..]
  }

  function RemoveAt<X>(s: seq<X>, k: nat): seq<X>
    requires k < |s|
  {
    s[..k] + s[k + 1..]
  }

  /** Takes the element at position k out and puts it back so that m elements of the rest precede it. */
  function MoveAt<X>(s: seq<X>, k: nat, m: nat): seq<X>
    requires k < |s| && m < |s|
  {
    InsertAt(RemoveAt(s, k), m, s[k])
  }

  ghost predicate Differ<X>(s: seq<X>, i: int, j: int) {
    0 <= i < j < |s| ==> s[i] != s[j]
  }

  /** No element occurs twice. The named inner predicate keeps the verifier from comparing every pair unasked. */
  ghost predicate Distinct<X>(s: seq<X>) {
    forall i, j :: Differ(s, i, j)
  }

  lemma InsertAtFacts<X>(s: seq<X>, k: nat, x: X)
    requires Distinct(s) && k <= |s| && x !in s
    ensures Distinct(InsertAt(s, k, x))
    ensures |InsertAt(s, k, x)| == |s| + 1
    ensures forall i {:trigger InsertAt(s, k, x)[i]} | 0 <= i <= |s| ::
      InsertAt(s, k, x)[i] == if i < k then s[i] else if i == k then x else s[i - 1]
    ensures forall y :: y in InsertAt(s, k, x) <==> y == x || y in s
  {
    var r := InsertAt(s, k, x);
    forall i, j
      ensures Differ(r, i, j)
    {
      assert Differ(s, if i < k then i else i - 1, if j < k then j else j - 1);
    }
  }

  lemma InsertAtIndex<X>(s: seq<X>, k: nat, x: X, i: int)
    requires k <= |s|
    ensures |InsertAt(s, k, x)| == |s| + 1
    ensures 0 <= i <= |s| ==> InsertAt(s, k, x)[i] == if i < k then s[i] else if i == k then x else s[i - 1]
  {
  }

  lemma InsertAtMembers<X>(s: seq<X>, k: nat, x: X)
    requires k <= |s|
    ensures |InsertAt(s, k, x)| == |s| + 1
    ensures forall y :: y in InsertAt(s, k, x) <==> y == x || y in s
  {
  }

  lemma RemoveAtMembers<X>(s: seq<X>, k: nat)
    requires k < |s|
    ensures |RemoveAt(s, k)| == |s| - 1
    ensures forall y | y in RemoveAt(s, k) :: y in s
  {
  }

  lemma RemoveAtFacts<X>(s: seq<X>, k: nat)
    requires Distinct(s) && k < |s|
    ensures Distinct(RemoveAt(s, k)) && s[k] !in RemoveAt(s, k)
    ensures |RemoveAt(s, k)| == |s| - 1
    ensures forall i {:trigger RemoveAt(s, k)[i]} | 0 <= i < |s| - 1 ::
      RemoveAt(s, k)[i] == if i < k then s[i] else s[i + 1]
    ensures forall y :: y in RemoveAt(s, k) <==> y != s[k] && y in s
  {
    var r := RemoveAt(s, k);
    forall i, j
      ensures Differ(r, i, j)
    {
      assert Differ(s, if i < k then i else i + 1, if j < k then j else j + 1);
    }
    Apart(s, k);
  }

  lemma Apart<X>(s: seq<X>, k: int)
    requires Distinct(s)
    ensures 0 <= k < |s| ==> forall j | 0 <= j < |s| && j != k :: s[j] != s[k]
  {
    forall j | 0 <= k < |s| && 0 <= j < |s| && j != k
      ensures s[j] != s[k]
    {
      assert Differ(s, j, k) && Differ(s, k, j);
    }
  }

  // ---------------------------------------------------------------- the heap

  class ListIter<T> {
    var next: ListIter?<T>
    var prev: ListIter?<T>
    var data: T

    constructor (data: T)
      ensures this.data == data && next == null && prev == null
    {
      this.data := data;
      next, prev := null, null;
    }
  }

  /** The position of an iterator. */
  ghost function IndexOf<T>(s: seq<ListIter<T>>, x: ListIter<T>): (k: nat)
    requires x in s
    ensures k < |s| && s[k] == x
  {
    if s[0] == x then 0 else 1 + IndexOf(s[1..], x)
  }

  lemma IndexOfAt<T>(s: seq<ListIter<T>>, k: nat)
    requires Distinct(s) && k < |s|
    ensures IndexOf(s, s[k]) == k
  {
    Apart(s, k);
  }

  ghost function At<T>(s: seq<ListIter<T>>, i: int): ListIter?<T> {
    if 0 <= i < |s| then s[i] else null
  }

  class List<T> {
    var size: int
    var head: ListIter?<T>
    var tail: ListIter?<T>
    ghost var nodes: seq<ListIter<T>>

    /** The pointers spell out the sequence s. */
    ghost predicate Links(s: seq<ListIter<T>>)
      reads this, s
    {
      && head == At(s, 0)
      && tail == At(s, |s| - 1)
      && Distinct(s)
      && (forall i {:trigger s[i].prev} | 0 <= i < |s| :: s[i].prev == At(s, i - 1))
      && (forall i {:trigger s[i].next} | 0 <= i < |s| :: s[i].next == At(s, i + 1))
    }

    ghost predicate Valid()
      reads this, nodes
    {
      size == |nodes| && Links(nodes)
    }

    /** What the list holds, in order. */
    ghost function Data(): (d: seq<T>)
      reads this, nodes
      ensures |d| == |nodes|
    {
      DataOf(nodes)
    }

    constructor ()
      ensures Valid() && nodes == []
    {
      size, head, tail, nodes := 0, null, null, [];
    }

    // -------------------------------------------------------------- pointer surgery

    method IterAdd(iter: ListIter<T>, prev: ListIter?<T>, next: ListIter?<T>, ghost k: nat)
      requires Valid() && iter !in nodes
      requires k <= |nodes| && prev == At(nodes, k - 1) && next == At(nodes, k)
      modifies this, nodes, iter
      ensures Valid() && nodes == InsertAt<ListIter<T>>(old(nodes), k, iter)
      ensures forall n :: n in nodes <==> n == iter || n in old(nodes)
      ensures iter.data == old(iter.data) && DataKept(old(nodes))
    {
      hide InsertAt, Distinct;
      Apart(nodes, k - 1);
      Apart(nodes, k);
      InsertAtFacts(nodes, k, iter);
      iter.next := next;
      iter.prev := prev;
      if next != null {
        next.prev := iter;
      }
      if prev != null {
        prev.next := iter;
      }
      if prev == null {
        head := iter;
      }
      if next == null {
        tail := iter;
      }
      size := size + 1;
      nodes := InsertAt(nodes, k, iter);
      assert forall i {:trigger nodes[i].prev} | 0 <= i < |nodes| :: nodes[i].prev == At(nodes, i - 1);
    }

    /** Makes the neighbours of an iterator neighbours of each other. */
    method Bypass(iter: ListIter<T>)
      requires Valid() && iter in nodes
      modifies nodes
      ensures var k := IndexOf(nodes, iter);
        && (forall i {:trigger nodes[i].next} | 0 <= i < |nodes| ::
              nodes[i].next == At(nodes, if i == k - 1 then k + 1 else i + 1))
        && (forall i {:trigger nodes[i].prev} | 0 <= i < |nodes| ::
              nodes[i].prev == At(nodes, if i == k + 1 then k - 1 else i - 1))
      ensures DataKept(nodes)
    {
      hide IndexOf, Distinct;
      ghost var k: int := IndexOf(nodes, iter);
      Apart(nodes, k - 1);
      Apart(nodes, k);
      Apart(nodes, k + 1);
      if iter.prev != null {
        iter.prev.next := iter.next;
      }
      if iter.next != null {
        iter.next.prev := iter.prev;
      }
    }

    /** Takes an iterator out of the chain; its own pointers stay as they are. */
    method Detach(iter: ListIter<T>)
      requires Valid() && iter in nodes
      modifies this, nodes
      ensures nodes == old(nodes) && size == old(size)
      ensures Links(RemoveAt(nodes, IndexOf(nodes, iter))) && DataKept(nodes)
    {
      hide RemoveAt, IndexOf, Distinct;
      ghost var k: int := IndexOf(nodes, iter);
      Apart(nodes, k);
      RemoveAtFacts(nodes, k);
      Bypass(iter);
      if iter == head {
        head := iter.next;
      }
      if iter == tail {
        tail := iter.prev;
      }
    }

    method IterRemove(iter: ListIter<T>)
      requires Valid() && iter in nodes
      modifies this, nodes
      ensures Valid() && nodes == RemoveAt(old(nodes), IndexOf(old(nodes), iter))
      ensures forall n :: n in nodes <==> n != iter && n in old(nodes)
      ensures iter.next == null && iter.prev == null && DataKept(old(nodes))
    {
      hide RemoveAt, IndexOf, Distinct;
      ghost var k := IndexOf(nodes, iter);
      RemoveAtFacts(nodes, k);
      Detach(iter);
      size := size - 1;
      iter.next := null;
      iter.prev := null;
      nodes := RemoveAt(nodes, k);
    }

    /** The first half of a move. The "else if" relies on the list holding two iterators or more. */
    method Unlink(iter: ListIter<T>)
      requires Valid() && iter in nodes && |nodes| >= 2
      modifies this, nodes
      ensures nodes == old(nodes) && size == old(size)
      ensures Links(RemoveAt(nodes, IndexOf(nodes, iter))) && DataKept(nodes)
    {
      hide RemoveAt, IndexOf, Distinct;
      ghost var k: int := IndexOf(nodes, iter);
      Apart(nodes, k);
      RemoveAtFacts(nodes, k);
      Bypass(iter);
      if iter == head {
        head := iter.next;
      } else if iter == tail {
        tail := iter.prev;
      }
    }

    /** The second half of a move: links the iterator between two neighbours of which at least one exists. */
    method Relink(iter: ListIter<T>, prev: ListIter?<T>, next: ListIter?<T>, ghost rest: seq<ListIter<T>>, ghost m: nat)
      requires Links(rest) && iter !in rest && size == |rest| + 1 && rest != []
      requires m <= |rest| && prev == At(rest, m - 1) && next == At(rest, m)
      modifies this, rest, iter
      ensures Valid() && nodes == InsertAt<ListIter<T>>(rest, m, iter)
      ensures iter.data == old(iter.data) && DataKept(rest)
    {
      hide InsertAt, Distinct;
      Apart(rest, m - 1);
      Apart(rest, m);
      InsertAtFacts(rest, m, iter);
      iter.prev := prev;
      iter.next := next;
      if next != null {
        next.prev := iter;
      }
      if prev != null {
        prev.next := iter;
      }
      if prev == null {
        head := iter;
      } else if next == null {
        tail := iter;
      }
      nodes := InsertAt<ListIter<T>>(rest, m, iter);
    }

    method IterMove(iter: ListIter<T>, prev: ListIter?<T>, next: ListIter?<T>, ghost m: nat)
      requires Valid() && iter in nodes && |nodes| >= 2 && m < |nodes|
      requires var rest := RemoveAt(nodes, IndexOf(nodes, iter)); prev == At(rest, m - 1) && next == At(rest, m)
      modifies this, nodes
      ensures Valid() && nodes == MoveAt(old(nodes), IndexOf(old(nodes), iter), m)
      ensures DataKept(old(nodes))
    {
      ghost var rest := RemoveAt(nodes, IndexOf(nodes, iter));
      RemoveAtFacts(nodes, IndexOf(nodes, iter));
      Unlink(iter);
      Relink(iter, prev, next, rest, m);
    }

    // -------------------------------------------------------------- public operations

    /** Makes an iterator for data and links it in at position k, unless the allocation fails. */
    method IterNew(prev: ListIter?<T>, next: ListIter?<T>, data: T, alloc: bool, ghost k: nat)
        returns (r: ListIter?<T>)
      requires Valid()
      requires k <= |nodes| && prev == At(nodes, k - 1) && next == At(nodes, k)
      modifies this, nodes
      ensures Valid() && DataKept(old(nodes))
      ensures !alloc ==> r == null && nodes == old(nodes)
      ensures alloc ==> r != null && fresh(r) && r.data == data && nodes == InsertAt<ListIter<T>>(old(nodes), k, r)
      ensures Data() == if alloc then InsertAt(old(Data()), k, data) else old(Data())
    {
      ghost var was, d := nodes, Data();
      if !alloc {
        return null;
      }
      var iter := new ListIter(data);
      IterAdd(iter, prev, next, k);
      r := iter;
      hide InsertAt;
      DataInsert(was, d, k, iter);
    }

    /** Inserts before iter, or at the head when iter is null. */
    method Insert(iter: ListIter?<T>, data: T, alloc: bool) returns (r: ListIter?<T>)
      requires Valid() && (iter == null || iter in nodes)
      modifies this, nodes
      ensures Valid() && DataKept(old(nodes))
      ensures !alloc ==> r == null && nodes == old(nodes)
      ensures alloc ==> r != null && fresh(r) && r.data == data
      ensures alloc ==>
        nodes == InsertAt<ListIter<T>>(old(nodes), if iter == null then 0 else IndexOf(old(nodes), iter), r)
      ensures alloc ==> Data() == InsertAt(old(Data()), if iter == null then 0 else IndexOf(old(nodes), iter), data)
      ensures !alloc ==> Data() == old(Data())
    {
      if iter != null {
        r := IterNew(iter.prev, iter, data, alloc, IndexOf(nodes, iter));
      } else {
        r := IterNew(null, head, data, alloc, 0);
      }
    }

    /** Inserts after iter, or at the tail when iter is null. */
    method Append(iter: ListIter?<T>, data: T, alloc: bool) returns (r: ListIter?<T>)
      requires Valid() && (iter == null || iter in nodes)
      modifies this, nodes
      ensures Valid() && DataKept(old(nodes))
      ensures !alloc ==> r == null && nodes == old(nodes)
      ensures alloc ==> r != null && fresh(r) && r.data == data
      ensures alloc ==>
        nodes == InsertAt<ListIter<T>>(old(nodes),
          if iter == null then |old(nodes)| else IndexOf(old(nodes), iter) + 1, r)
      ensures alloc ==>
        Data() == InsertAt(old(Data()), if iter == null then |old(nodes)| else IndexOf(old(nodes), iter) + 1, data)
      ensures !alloc ==> Data() == old(Data())
    {
      if iter != null {
        r := IterNew(iter, iter.next, data, alloc, IndexOf(nodes, iter) + 1);
      } else {
        r := IterNew(tail, null, data, alloc, |nodes|);
      }
    }

    /** Removes iter and gives back its data and the iterator that followed it. */
    method Remove(iter: ListIter<T>) returns (data: T, next: ListIter?<T>)
      requires Valid() && iter in nodes
      modifies this, nodes
      ensures Valid() && nodes == RemoveAt(old(nodes), IndexOf(old(nodes), iter))
      ensures forall n :: n in nodes <==> n != iter && n in old(nodes)
      ensures data == old(iter.data) && next == At(old(nodes), IndexOf(old(nodes), iter) + 1)
      ensures DataKept(old(nodes)) && Data() == RemoveAt(old(Data()), IndexOf(old(nodes), iter))
    {
      ghost var was, d := nodes, Data();
      next := iter.next;
      data := iter.data;
      IterRemove(iter);
      hide RemoveAt, IndexOf;
      DataRemove(was, d, IndexOf(was, iter));
    }

    /** Moves from in front of to, or to the head when to is null. */
    method Move(from: ListIter<T>, to: ListIter?<T>)
      requires Valid() && from in nodes && (to == null || to in nodes)
      modifies this, nodes
      ensures Valid() && DataKept(old(nodes))
      ensures nodes == MovedBefore(old(nodes), from, if to == null then old(nodes)[0] else to)
    {
      var to' := if to == null then head else to;
      var prev := to'.prev;
      ghost var k, t := IndexOf(nodes, from), IndexOf(nodes, to');
      NeighboursBefore(nodes, k, t);
      if from == to' || from == prev {
        return;
      }
      IterMove(from, prev, to', if k < t then t - 1 else t);
    }

    /** Moves from right behind to, or to the tail when to is null. */
    method Moven(from: ListIter<T>, to: ListIter?<T>)
      requires Valid() && from in nodes && (to == null || to in nodes)
      modifies this, nodes
      ensures Valid() && DataKept(old(nodes))
      ensures nodes == MovedAfter(old(nodes), from, if to == null then old(nodes)[|old(nodes)| - 1] else to)
    {
      var to' := if to == null then tail else to;
      var next := to'.next;
      ghost var k, t := IndexOf(nodes, from), IndexOf(nodes, to');
      NeighboursAfter(nodes, k, t);
      if from == to' || from == next {
        return;
      }
      IterMove(from, to', next, if k <= t then t else t + 1);
    }

    /** Hands from over to toList, in front of to or at its head; inside one list it is a move. */
    static method Swap(fromList: List<T>, toList: List<T>, from: ListIter<T>, to: ListIter?<T>)
      requires fromList.Valid() && toList.Valid() && from in fromList.nodes
      requires to == null || to in toList.nodes
      requires fromList != toList ==> Disjoint(fromList.nodes, toList.nodes)
      modifies fromList, fromList.nodes, toList, toList.nodes
      ensures fromList.Valid() && toList.Valid() && DataKept(old(fromList.nodes) + old(toList.nodes))
      ensures fromList == toList ==>
        toList.nodes == MovedBefore(old(toList.nodes), from, if to == null then old(toList.nodes)[0] else to)
      ensures fromList != toList ==>
        && fromList.nodes == RemoveAt(old(fromList.nodes), IndexOf(old(fromList.nodes), from))
        && toList.nodes == InsertAt<ListIter<T>>(old(toList.nodes),
             if to == null then 0 else IndexOf(old(toList.nodes), to), from)
    {
      hide InsertAt, RemoveAt, IndexOf, MovedBefore, MovedAfter;
      if fromList == toList {
        fromList.Move(from, to);
        return;
      }
      fromList.IterRemove(from);
      if to == null {
        toList.IterAdd(from, null, toList.head, 0);
      } else {
        toList.IterAdd(from, to.prev, to, IndexOf(toList.nodes, to));
      }
    }

    /** Hands from over to toList, right behind to or at its tail; inside one list it is a move. */
    static method Swapn(fromList: List<T>, toList: List<T>, from: ListIter<T>, to: ListIter?<T>)
      requires fromList.Valid() && toList.Valid() && from in fromList.nodes
      requires to == null || to in toList.nodes
      requires fromList != toList ==> Disjoint(fromList.nodes, toList.nodes)
      modifies fromList, fromList.nodes, toList, toList.nodes
      ensures fromList.Valid() && toList.Valid() && DataKept(old(fromList.nodes) + old(toList.nodes))
      ensures fromList == toList ==>
        toList.nodes == MovedAfter(old(toList.nodes), from,
                                   if to == null then old(toList.nodes)[|old(toList.nodes)| - 1] else to)
      ensures fromList != toList ==>
        && fromList.nodes == RemoveAt(old(fromList.nodes), IndexOf(old(fromList.nodes), from))
        && toList.nodes == InsertAt<ListIter<T>>(old(toList.nodes),
             if to == null then |old(toList.nodes)| else IndexOf(old(toList.nodes), to) + 1, from)
    {
      hide InsertAt, RemoveAt, IndexOf, MovedBefore, MovedAfter;
      if fromList == toList {
        fromList.Moven(from, to);
        return;
      }
      fromList.IterRemove(from);
      if to == null {
        toList.IterAdd(from, toList.tail, null, |toList.nodes|);
      } else {
        toList.IterAdd(from, to, to.next, IndexOf(toList.nodes, to) + 1);
      }
    }

    /** The list lets go of all it holds. */
    method Forget()
      modifies this
      ensures Valid() && nodes == []
    {
      head := null;
      tail := null;
      size := 0;
      nodes := [];
    }

    /** An empty list takes over all that another one holds. */
    method TakeAll(from: List<T>)
      requires from.Valid() && from != this
      modifies this, from
      ensures Valid() && from.Valid() && from.nodes == [] && nodes == old(from.nodes)
    {
      head := from.head;
      tail := from.tail;
      size := from.size;
      nodes := from.nodes;
      from.Forget();
    }

    /** Splices every iterator of from onto the tail of this list. A list spliced onto itself loses all it holds. */
    method AppendList(from: List<T>)
      requires Valid() && from.Valid() && (from != this ==> Disjoint(nodes, from.nodes))
      modifies this, nodes, from, from.nodes
      ensures Valid() && from.Valid() && from.nodes == [] && DataKept(old(nodes) + old(from.nodes))
      ensures nodes == if from == this then [] else old(nodes) + old(from.nodes)
    {
      if from.size == 0 {
        return;
      } else if size == 0 {
        TakeAll(from);
        return;
      }
      Apart(nodes, |nodes| - 1);
      Apart(from.nodes, 0);
      if from != this {
        DistinctConcat(nodes, from.nodes);
      }
      hide Distinct;
      tail.next := from.head;
      from.head.prev := tail;
      tail := from.tail;
      size := size + from.size;
      nodes := nodes + from.nodes;
      from.Forget();
    }

    /** Splices every iterator of from in front of this list. A list spliced in front of itself loses all it holds. */
    method InsertList(from: List<T>)
      requires Valid() && from.Valid() && (from != this ==> Disjoint(nodes, from.nodes))
      modifies this, nodes, from, from.nodes
      ensures Valid() && from.Valid() && from.nodes == [] && DataKept(old(nodes) + old(from.nodes))
      ensures nodes == if from == this then [] else old(from.nodes) + old(nodes)
    {
      if from.size == 0 {
        return;
      } else if size == 0 {
        TakeAll(from);
        return;
      }
      Apart(nodes, 0);
      Apart(from.nodes, |from.nodes| - 1);
      if from != this {
        DistinctConcat(from.nodes, nodes);
      }
      hide Distinct;
      head.prev := from.tail;
      from.tail.next := head;
      head := from.head;
      size := size + from.size;
      nodes := from.nodes + nodes;
      assert forall i {:trigger nodes[i].prev} | 0 <= i < |nodes| && from != this :: nodes[i].prev == At(nodes, i - 1);
      from.Forget();
    }

    /** Inserts before the first element that data precedes, or at the tail. */
    method InsertSorted(compare: (T, T) -> int, data: T, alloc: bool) returns (r: ListIter?<T>)
      requires Valid()
      modifies this, nodes
      ensures Valid() && DataKept(old(nodes))
      ensures !alloc ==> r == null && nodes == old(nodes)
      ensures alloc ==> r != null && fresh(r) && r.data == data
      ensures alloc ==> nodes == InsertAt<ListIter<T>>(old(nodes), SortedPlace(compare, data, old(Data()), 0), r)
      ensures Data() == if alloc then InsertAt(old(Data()), SortedPlace(compare, data, old(Data()), 0), data)
                        else old(Data())
    {
      var iter := head;
      ghost var k, was := 0, Data();
      while iter != null
        invariant unchanged(this) && unchanged(nodes)
        invariant 0 <= k <= |nodes| && iter == At(nodes, k)
        invariant SortedPlace(compare, data, was, k) == SortedPlace(compare, data, was, 0)
        decreases |nodes| - k
      {
        var d := iter.data;
        assert was[k] == d;
        if compare(data, d) < 0 {
          assert SortedPlace(compare, data, was, k) == k;
          IndexOfAt(nodes, k);
          r := Insert(iter, data, alloc);
          return;
        }
        iter := iter.next;
        k := k + 1;
      }
      r := Append(null, data, alloc);
    }

    /** Empties the list from its head. */
    method Discard()
      requires Valid()
      modifies this, nodes
      ensures Valid() && nodes == [] && DataKept(old(nodes))
    {
      hide RemoveAt, IndexOf;
      var iter := head;
      ghost var k := 0;
      while iter != null
        invariant Valid() && iter == head && k <= |old(nodes)| && nodes == old(nodes)[k..]
        invariant DataKept(old(nodes))
        decreases |nodes|
      {
        IndexOfAt(nodes, 0);
        RemoveFirst(nodes);
        var _, next := Remove(iter);
        iter := next;
        k := k + 1;
      }
    }
  }

  lemma RemoveFirst<X>(s: seq<X>)
    requires s != []
    ensures RemoveAt(s, 0) == s[1..]
  {
  }

  /** s with from taken out and put back right before to. */
  ghost function MovedBefore<T>(s: seq<ListIter<T>>, from: ListIter<T>, to: ListIter<T>): seq<ListIter<T>>
    requires from in s && to in s
  {
    var k, t := IndexOf(s, from), IndexOf(s, to);
    MoveAt(s, k, if k < t then t - 1 else t)
  }

  /** s with from taken out and put back right after to. */
  ghost function MovedAfter<T>(s: seq<ListIter<T>>, from: ListIter<T>, to: ListIter<T>): seq<ListIter<T>>
    requires from in s && to in s
  {
    var k, t := IndexOf(s, from), IndexOf(s, to);
    MoveAt(s, k, if k <= t then t else t + 1)
  }

  ghost predicate Disjoint<T>(s: seq<ListIter<T>>, t: seq<ListIter<T>>) {
    (forall i | 0 <= i < |s| :: s[i] !in t) && (forall i | 0 <= i < |t| :: t[i] !in s)
  }

  /** Where insertSorted puts data: before the first element from position k on that data precedes. */
  function SortedPlace<T>(compare: (T, T) -> int, data: T, d: seq<T>, k: nat): (p: nat)
    requires k <= |d|
    ensures k <= p <= |d|
    decreases |d| - k
  {
    if k == |d| || compare(data, d[k]) < 0 then k else SortedPlace(compare, data, d, k + 1)
  }

  /** Next to its own place an element does not move; anywhere else the new neighbours are next to each other. */
  lemma NeighboursBefore<T>(s: seq<ListIter<T>>, k: nat, t: nat)
    requires Distinct(s) && k < |s| && t < |s|
    ensures At(s, t - 1) == s[k] <==> k == t - 1
    ensures s[k] == s[t] <==> k == t
    ensures k == t || k == t - 1 ==> MoveAt(s, k, if k < t then t - 1 else t) == s
    ensures k != t && k != t - 1 ==> |s| >= 2
    ensures k != t && k != t - 1 ==>
      var rest, m := RemoveAt(s, k), if k < t then t - 1 else t;
      At(rest, m - 1) == At(s, t - 1) && At(rest, m) == s[t]
  {
    Apart(s, k);
    MoveNowhere(s, k);
    hide Distinct, MoveAt;
  }

  lemma NeighboursAfter<T>(s: seq<ListIter<T>>, k: nat, t: nat)
    requires Distinct(s) && k < |s| && t < |s|
    ensures At(s, t + 1) == s[k] <==> k == t + 1
    ensures s[k] == s[t] <==> k == t
    ensures k == t || k == t + 1 ==> MoveAt(s, k, if k <= t then t else t + 1) == s
    ensures k != t && k != t + 1 ==> |s| >= 2
    ensures k != t && k != t + 1 ==>
      var rest, m := RemoveAt(s, k), if k <= t then t else t + 1;
      At(rest, m - 1) == s[t] && At(rest, m) == At(s, t + 1)
  {
    Apart(s, k);
    MoveNowhere(s, k);
    hide Distinct, MoveAt;
  }

  /** Moving keeps every iterator, leaves the others in their order and puts from right before to. */
  lemma MovedBeforeMeaning<T>(s: seq<ListIter<T>>, from: ListIter<T>, to: ListIter<T>)
    requires Distinct(s) && from in s && to in s && from != to
    ensures var r := MovedBefore(s, from, to);
      && Distinct(r) && (forall x :: x in r <==> x in s)
      && RemoveAt(r, IndexOf(r, from)) == RemoveAt(s, IndexOf(s, from))
      && IndexOf(r, from) + 1 == IndexOf(r, to)
  {
    hide Distinct, MoveAt, RemoveAt, IndexOf;
    var k, t := IndexOf(s, from), IndexOf(s, to);
    MoveAtMeaning(s, k, if k < t then t - 1 else t);
    var r := MovedBefore(s, from, to);
    IndexOfAt(r, if k < t then t - 1 else t);
    IndexOfAt(r, if k < t then t else t + 1);
  }

  lemma MovedAfterMeaning<T>(s: seq<ListIter<T>>, from: ListIter<T>, to: ListIter<T>)
    requires Distinct(s) && from in s && to in s && from != to
    ensures var r := MovedAfter(s, from, to);
      && Distinct(r) && (forall x :: x in r <==> x in s)
      && RemoveAt(r, IndexOf(r, from)) == RemoveAt(s, IndexOf(s, from))
      && IndexOf(r, to) + 1 == IndexOf(r, from)
  {
    hide Distinct, MoveAt, RemoveAt, IndexOf;
    var k, t := IndexOf(s, from), IndexOf(s, to);
    MoveAtMeaning(s, k, if k <= t then t else t + 1);
    var r := MovedAfter(s, from, to);
    IndexOfAt(r, if k <= t then t else t + 1);
    IndexOfAt(r, if k <= t then t - 1 else t);
  }

  lemma MoveNowhere<X>(s: seq<X>, k: nat)
    requires k < |s|
    ensures MoveAt(s, k, k) == s
  {
  }

  lemma MoveAtMeaning<X>(s: seq<X>, k: nat, m: nat)
    requires Distinct(s) && k < |s| && m < |s|
    ensures var r := MoveAt(s, k, m);
      && Distinct(r) && (forall x :: x in r <==> x in s) && RemoveAt(r, m) == RemoveAt(s, k)
      && |r| == |s| && r[m] == s[k] && forall i | 0 <= i < |s| && i != m ::
        r[i] == var j := if i < m then i else i - 1; s[if j < k then j else j + 1]
  {
    RemoveAtFacts(s, k);
    InsertAtFacts(RemoveAt(s, k), m, s[k]);
  }

  lemma MoveAtMembers<X>(s: seq<X>, k: nat, m: nat)
    requires Distinct(s) && k < |s| && m < |s|
    ensures Distinct(MoveAt(s, k, m)) && forall x :: x in MoveAt(s, k, m) <==> x in s
  {
    MoveAtMeaning(s, k, m);
  }

  lemma DistinctConcat<T>(s: seq<ListIter<T>>, t: seq<ListIter<T>>)
    requires Distinct(s) && Distinct(t) && Disjoint(s, t)
    ensures Distinct(s + t)
  {
    forall i, j
      ensures Differ(s + t, i, j)
    {
      assert Differ(s, i, j) && Differ(t, i - |s|, j - |s|);
      if 0 <= i < |s| <= j < |s + t| {
        assert s[i] in s && t[j - |s|] in t;
      }
    }
  }

  ghost function DataOf<T>(s: seq<ListIter<T>>): (d: seq<T>)
    reads s
    ensures |d| == |s| && forall i | 0 <= i < |s| :: d[i] == s[i].data
  {
    seq(|s|, i requires 0 <= i < |s| reads s => s[i].data)
  }

  lemma DataInsert<T>(s: seq<ListIter<T>>, d: seq<T>, k: nat, iter: ListIter<T>)
    requires k <= |s| == |d| && forall i | 0 <= i < |s| :: s[i].data == d[i]
    ensures DataOf(InsertAt(s, k, iter)) == InsertAt(d, k, iter.data)
  {
  }

  lemma DataRemove<T>(s: seq<ListIter<T>>, d: seq<T>, k: nat)
    requires k < |s| == |d| && forall i | 0 <= i < |s| :: s[i].data == d[i]
    ensures DataOf(RemoveAt(s, k)) == RemoveAt(d, k)
  {
  }

  /** No iterator of s has had its data changed. */
  twostate predicate DataKept<T>(s: seq<ListIter<T>>)
    reads s
  {
    forall n | n in s :: n.data == old(n.data)
  }
}
