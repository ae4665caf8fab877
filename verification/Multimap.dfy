/** The multimap of cc_multimap.c: a hash map whose values are lists, with a cursor that may remove as it goes. */
module Multimap {
  import opened KeyOrder
  import opened Lists
  import opened MapIndex
  import opened HashMap
  import opened MultimapOrder

  class MultimapIter<V> {
    var miter: ListIter?<MapNode<List<V>>>
    var iter: ListIter?<V>

    constructor ()
      ensures miter == null && iter == null
    {
      miter, iter := null, null;
    }
  }

  class Multimap<V(!new)> {
    const table: Map<List<V>>
    const compare: Comparator<V>
    ghost var lists: seq<List<V>>
    ghost var groups: seq<Group<V>>
    ghost var owner: map<ListIter<V>, List<V>>
    ghost var repr: set<object>

    /** Group i is the list in node i of the map, under that node's key. */
    ghost predicate Linked(i: int)
      requires |lists| == |groups| == |table.nodes.nodes|
      reads this, table, table.nodes, table.nodes.nodes
    {
      0 <= i < |lists| ==>
        table.nodes.nodes[i].data.val == lists[i] && table.nodes.nodes[i].data.key == groups[i].key
    }

    /** Every iterator in list i is its own: no other list has it. */
    ghost predicate Kept(i: int)
      requires |lists| == |groups|
      reads this, repr
    {
      0 <= i < |lists| ==>
        && lists[i] in repr
        && (forall j | 0 <= j < |lists[i].nodes| ::
              lists[i].nodes[j] in repr && lists[i].nodes[j] in owner && owner[lists[i].nodes[j]] == lists[i])
        && lists[i].Valid() && lists[i].Data() == groups[i].items
    }

    /** The lists and their iterators are no part of the map itself. */
    ghost predicate Outside()
      reads this, table, table.nodes
    {
      && this !in repr && table !in repr && table.buckets !in repr && table.nodes !in repr
      && forall i | 0 <= i < |table.nodes.nodes| :: table.nodes.nodes[i] !in repr
    }

    /** All but the promise that no list is empty. */
    ghost predicate Base()
      reads this, table, table.buckets, table.nodes, table.nodes.nodes, repr
    {
      && table.Valid() && Outside() && Distinct(lists)
      && |lists| == |groups| == |table.nodes.nodes|
      && (forall i :: Linked(i)) && (forall i :: Kept(i))
    }

    ghost predicate Valid()
      reads this, table, table.buckets, table.nodes, table.nodes.nodes, repr
    {
      Base() && (forall g | g in groups :: g.items != [])
    }

    /** The cursor stands on item k of group i. */
    ghost predicate Points(mm: MultimapIter<V>, i: nat, k: nat)
      requires Base()
      reads this, table, table.buckets, table.nodes, table.nodes.nodes, repr, mm
    {
      && Stands(groups, i, k) && Kept(i)
      && mm.miter == table.nodes.nodes[i] && mm.iter == lists[i].nodes[k]
    }

    constructor (seed: bv32, compare: Comparator<V>)
      ensures Valid() && groups == [] && fresh(table) && fresh(table.buckets) && fresh(table.nodes)
      ensures this.compare == compare && repr == {}
    {
      table := new Map<List<V>>(seed);
      this.compare := compare;
      lists, groups, owner, repr := [], [], map[], {};
    }

    // -------------------------------------------------------------- visiting

    /** The first iterator of the list under a node of the map, unless there is no such node. */
    method FirstItem(miter: ListIter?<MapNode<List<V>>>, ghost i: nat) returns (iter: ListIter?<V>)
      requires Valid() && miter == At(table.nodes.nodes, i)
      ensures i < |groups| <==> miter != null
      ensures i < |groups| ==> Stands(groups, i, 0) && Kept(i) && iter == lists[i].nodes[0]
    {
      hide Sorted, Hashed, Distinct, Model, DataOf;
      iter := null;
      if miter != null {
        assert Linked(i) && Kept(i) && groups[i] in groups;
        var list := miter.data.val;
        iter := list.head;
      }
    }

    method Neighbours(mm: MultimapIter<V>, ghost i: nat, ghost k: nat)
        returns (iter: ListIter?<V>, miter: ListIter?<MapNode<List<V>>>)
      requires Valid() && Points(mm, i, k)
      ensures iter == (if k + 1 < |groups[i].items| then lists[i].nodes[k + 1] else null)
      ensures miter == At(table.nodes.nodes, i + 1)
    {
      hide Sorted, Hashed, Distinct, Model, DataOf;
      assert Kept(i);
      iter, miter := mm.iter.next, mm.miter.next;
    }

    lemma NodesValid()
      requires Base()
      ensures table.nodes.Valid()
    {
      hide Sorted, Hashed, Distinct, Model, DataOf, Kept, Linked;
    }

    /** Sets the cursor to a node of the map and the first item of its list; without a node the iteration is over. */
    method Settle(mm: MultimapIter<V>, miter: ListIter?<MapNode<List<V>>>, ghost i: nat) returns (more: bool)
      requires Valid() && mm !in repr && miter == At(table.nodes.nodes, i)
      modifies mm
      ensures Valid()
      ensures more <==> i < |groups|
      ensures more ==> Points(mm, i, 0)
    {
      hide Map.Valid, List.Valid, Sorted, Hashed, Distinct, Model, DataOf;
      mm.miter := miter;
      if miter == null {
        return false;
      }
      var iter := FirstItem(miter, i);
      mm.iter := iter;
      more := true;
    }

    /** Puts the cursor on the first item, if there is one. */
    method Head(mm: MultimapIter<V>) returns (more: bool)
      requires Valid() && mm !in repr
      modifies mm
      ensures Valid()
      ensures more <==> groups != []
      ensures more ==> Points(mm, 0, 0)
    {
      hide Map.Valid, List.Valid, Sorted, Hashed, Distinct, Model, DataOf;
      NodesValid();
      HeadNode();
      more := Settle(mm, table.nodes.head, 0);
    }

    lemma HeadNode()
      requires table.nodes.Valid()
      ensures table.nodes.head == At(table.nodes.nodes, 0)
    {}

    /** Moves the cursor on to the item that follows. */
    method Next(mm: MultimapIter<V>, ghost i: nat, ghost k: nat) returns (more: bool)
      requires Valid() && mm !in repr && Points(mm, i, k)
      modifies mm
      ensures Valid()
      ensures more <==> k + 1 < |groups[i].items| || i + 1 < |groups|
      ensures more ==> if k + 1 < |groups[i].items| then Points(mm, i, k + 1) else Points(mm, i + 1, 0)
    {
      hide Map.Valid, List.Valid, Sorted, Hashed, Distinct, Model, DataOf;
      var iter, miter := Neighbours(mm, i, k);
      mm.iter := iter;
      if mm.iter != null {
        return true;
      }
      more := Settle(mm, miter, i + 1);
    }

    // -------------------------------------------------------------- removing

    /** Takes an item out of its list. */
    method TakeItem(list: List<V>, iter: ListIter<V>, ghost i: nat, ghost k: nat)
        returns (data: V, next: ListIter?<V>)
      requires Base() && Stands(groups, i, k) && list == lists[i] && Kept(i) && iter == list.nodes[k]
      modifies list, list.nodes
      ensures table.Valid() && Outside() && DataKept(table.nodes.nodes) && forall j | j != i :: Kept(j)
      ensures list.Valid() && list.nodes == RemoveAt(old(list.nodes), k)
      ensures list.Data() == RemoveAt(groups[i].items, k)
      ensures data == groups[i].items[k] && next == At(old(list.nodes), k + 1)
    {
      hide Map.Valid, Sorted, Hashed, Distinct, Model, RemoveAt;
      IndexOfAt(list.nodes, k);
      RemoveAtMembers(list.nodes, k);
      data, next := list.Remove(iter);
      forall j | j != i ensures Kept(j) {
        assert old(Kept(j));
        Apart(lists, i);
      }
    }

    /** Takes an item out of its list, which may be left empty, and out of its group. */
    method DropItem(list: List<V>, iter: ListIter<V>, ghost i: nat, ghost k: nat)
        returns (data: V, next: ListIter?<V>)
      requires Base() && Stands(groups, i, k) && list == lists[i] && Kept(i) && iter == list.nodes[k]
      modifies list, list.nodes, this`groups
      ensures Base() && table.nodes.nodes == old(table.nodes.nodes)
      ensures groups == old(groups)[i := Group(old(groups[i].key), RemoveAt(old(groups[i].items), k))]
      ensures data == old(groups[i].items[k]) && next == At(old(list.nodes), k + 1)
      ensures list.nodes == RemoveAt(old(list.nodes), k)
    {
      hide Map.Valid, List.Valid, Sorted, Hashed, Distinct, Model, RemoveAt;
      RemoveAtMembers(list.nodes, k);
      data, next := TakeItem(list, iter, i, k);
      label Taken:
      groups := groups[i := Group(groups[i].key, RemoveAt(groups[i].items, k))];
      forall j ensures Linked(j) {
        assert old(Linked(j));
      }
      forall j ensures Kept(j) {
        if j == i {
          assert forall m | 0 <= m < |list.nodes| :: list.nodes[m] in list.nodes && list.nodes[m] in old(list.nodes);
        } else {
          assert old@Taken(Kept(j));
        }
      }
    }

    /** Node j of the map holds what node j or j + 1 of the books says, node i being gone. */
    ghost predicate Struck(i: int, j: int)
      requires |lists| == |groups| == |table.nodes.nodes| + 1
      reads this, table, table.nodes, table.nodes.nodes
    {
      0 <= j < |table.nodes.nodes| ==>
        var l := if j < i then j else j + 1;
        table.nodes.nodes[j].data.val == lists[l] && table.nodes.nodes[j].data.key == groups[l].key
    }

    /** Takes group i out of the books. */
    ghost method Strike(i: nat)
      requires table.Valid() && Outside() && Distinct(lists) && i < |lists| == |groups| == |table.nodes.nodes| + 1
      requires (forall j :: Struck(i, j)) && (forall j :: Kept(j))
      modifies this`groups, this`lists
      ensures Base() && groups == RemoveAt(old(groups), i) && lists == RemoveAt(old(lists), i)
    {
      hide Map.Valid, List.Valid, Sorted, Hashed, Distinct, Model, RemoveAt;
      RemoveAtFacts(lists, i);
      RemovedAre(lists, RemoveAt(lists, i), i);
      RemovedAre(groups, RemoveAt(groups, i), i);
      groups, lists := RemoveAt(groups, i), RemoveAt(lists, i);
      forall j ensures Linked(j) {
        assert old(Struck(i, j));
      }
      forall j ensures Kept(j) {
        assert old(Kept(if j < i then j else j + 1));
      }
    }

    /** Takes a node, its list and its group out of the map. */
    method DropGroup(miter: ListIter<MapNode<List<V>>>, ghost i: nat) returns (next: ListIter?<MapNode<List<V>>>)
      requires Base() && i < |groups| && miter == table.nodes.nodes[i]
      modifies this`groups, this`lists, table`nodesSize, table.buckets, table.nodes, table.nodes.nodes
      ensures Base() && repr == old(repr)
      ensures groups == RemoveAt(old(groups), i) && lists == RemoveAt(old(lists), i)
      ensures table.nodes.nodes == RemoveAt(old(table.nodes.nodes), i)
      ensures next == At(old(table.nodes.nodes), i + 1)
    {
      hide Map.Valid, List.Valid, Sorted, Hashed, Distinct, Model, RemoveAt, DataOf, Map.Contents;
      NodesValid();
      NodesDistinct();
      IndexOfAt(table.nodes.nodes, i);
      var _, next' := table.Remove(miter);
      next := next';
      RemoveAtMembers(old(table.nodes.nodes), i);
      RemovedAre(old(table.nodes.Data()), table.nodes.Data(), i);
      assert forall j | 0 <= j < |table.nodes.nodes| :: table.nodes.nodes[j] in table.nodes.nodes;
      forall j ensures Struck(i, j) {
        assert old(Linked(if j < i then j else j + 1));
      }
      forall j ensures Kept(j) {
        assert old(Kept(j));
      }
      Strike(i);
    }

    lemma RemovedAre<X>(was: seq<X>, now: seq<X>, i: nat)
      requires i < |was| && now == RemoveAt(was, i)
      ensures |now| == |was| - 1 && forall j | 0 <= j < |now| :: now[j] == was[if j < i then j else j + 1]
    {}

    lemma NodesDistinct()
      requires table.nodes.Valid()
      ensures Distinct(table.nodes.nodes)
    {}

    lemma ListOf(mm: MultimapIter<V>, i: nat, k: nat)
      requires Base() && Points(mm, i, k)
      ensures mm.miter.data.val == lists[i] && mm.miter.data.key == groups[i].key && mm.miter in table.nodes.nodes
    {
      hide Map.Valid, List.Valid, Sorted, Hashed, Distinct, Model, DataOf;
      assert Linked(i);
    }

    lemma ItemOf(mm: MultimapIter<V>, i: nat, k: nat)
      requires Base() && Points(mm, i, k)
      ensures mm.iter != null && mm.iter.data == groups[i].items[k]
    {
      hide Map.Valid, Sorted, Hashed, Distinct, Model, Outside, Linked;
      assert Kept(i) && lists[i].Data()[k] == groups[i].items[k];
    }

    lemma SizeIs(i: nat)
      requires Base() && i < |groups|
      ensures Kept(i) && lists[i].size == |groups[i].items| == |lists[i].nodes|
    {
      hide Map.Valid, Sorted, Hashed, Distinct, Model, Outside, Linked;
      assert Kept(i);
    }

    lemma NodeNext(i: nat)
      requires table.nodes.Valid() && i < |table.nodes.nodes|
      ensures table.nodes.nodes[i].next == At(table.nodes.nodes, i + 1)
    {}

    lemma Emptied(was: seq<Group<V>>, now: seq<Group<V>>, i: nat)
      requires i < |was| && now == RemoveAt(was, i) && forall j | 0 <= j < |was| && j != i :: was[j].items != []
      ensures forall g | g in now :: g.items != []
    {}

    /** After an item is gone: drops an empty list, and moves the cursor on from the end of a list. */
    method Advance(mm: MultimapIter<V>, list: List<V>, ghost i: nat, ghost k: nat) returns (more: bool)
      requires Base() && i < |groups| && list == lists[i] && mm !in repr && Kept(i)
      requires mm.miter == table.nodes.nodes[i] && mm.iter == At(list.nodes, k)
      requires forall j | 0 <= j < |groups| && j != i :: groups[j].items != []
      modifies this`groups, this`lists, table`nodesSize, table.buckets, table.nodes, table.nodes.nodes, mm
      ensures Valid() && repr == old(repr)
      ensures forall j | 0 <= j < |table.nodes.nodes| :: table.nodes.nodes[j] in old(table.nodes.nodes)
      ensures groups == if old(groups[i].items) == [] then RemoveAt(old(groups), i) else old(groups)
      ensures var (j, l) := if old(groups[i].items) == [] then (i, 0)
                            else if k < |old(groups[i].items)| then (i, k) else (i + 1, 0);
        (more <==> j < |groups|) && (more ==> Points(mm, j, l))
    {
      hide Map.Valid, List.Valid, Sorted, Hashed, Distinct, Model, DataOf, RemoveAt;
      SizeIs(i);
      if list.size == 0 {
        var next := DropGroup(mm.miter, i);
        Emptied(old(groups), groups, i);
        NextBehind(old(table.nodes.nodes), i);
        RemoveAtMembers(old(table.nodes.nodes), i);
        assert forall j | 0 <= j < |table.nodes.nodes| :: table.nodes.nodes[j] in table.nodes.nodes;
        more := Settle(mm, next, i);
      } else if mm.iter == null {
        NodesValid();
        NodeNext(i);
        more := Settle(mm, mm.miter.next, i + 1);
      } else {
        more := true;
      }
    }

    lemma NextBehind(was: seq<ListIter<MapNode<List<V>>>>, i: nat)
      requires i < |was|
      ensures At(RemoveAt(was, i), i) == At(was, i + 1)
    {}

    lemma WithoutIs(was: seq<Group<V>>, mid: seq<Group<V>>, i: nat, k: nat)
      requires Stands(was, i, k) && mid == was[i := Group(was[i].key, RemoveAt(was[i].items, k))]
      ensures |mid[i].items| == |was[i].items| - 1
      ensures Without(was, i, k) == if mid[i].items == [] then RemoveAt(mid, i) else mid
    {}

    /** Removes the item under the cursor and leaves the cursor on the item that followed it. */
    method Remove(mm: MultimapIter<V>, ghost i: nat, ghost k: nat) returns (data: V, more: bool)
      requires Valid() && mm !in repr && Points(mm, i, k)
      modifies this`groups, this`lists, table`nodesSize, table.buckets, table.nodes, table.nodes.nodes, repr, mm
      ensures Valid() && repr == old(repr)
      ensures forall j | 0 <= j < |table.nodes.nodes| :: table.nodes.nodes[j] in old(table.nodes.nodes)
      ensures groups == Without(old(groups), i, k) && data == old(groups[i].items[k])
      ensures var (j, l) := Behind(old(groups), i, k);
        (more <==> j < |groups|) && (more ==> Points(mm, j, l))
    {
      hide Map.Valid, List.Valid, Sorted, Hashed, Distinct, Model, DataOf, RemoveAt;
      ListOf(mm, i, k);
      var list := mm.miter.data.val;
      var data', iter := DropItem(list, mm.iter, i, k);
      data := data';
      mm.iter := iter;
      WithoutIs(old(groups), groups, i, k);
      assert forall j | 0 <= j < |groups| && j != i :: groups[j] == old(groups)[j] && old(groups)[j] in old(groups);
      assert Kept(i);
      NextBehindItem(old(lists[i].nodes), k);
      more := Advance(mm, list, i, k);
    }

    lemma NextBehindItem(was: seq<ListIter<V>>, k: nat)
      requires k < |was|
      ensures At(RemoveAt(was, k), k) == At(was, k + 1)
    {}

    // -------------------------------------------------------------- adding

    /** Puts a value into a list: at its place in the order, or at the end. */
    method Enlist(list: List<V>, val: V, alloc: bool) returns (r: ListIter?<V>)
      requires list.Valid()
      modifies list, list.nodes
      ensures list.Valid() && alloc == (r != null)
      ensures list.Data() == if alloc then Grown(compare, old(list.Data()), val) else old(list.Data())
      ensures alloc ==> fresh(r)
      ensures forall n | n in list.nodes :: n == r || n in old(list.nodes)
    {
      hide Distinct, InsertAt;
      if compare.Ordered? {
        ghost var p := SortedPlace(compare.compare, val, list.Data(), 0);
        r := list.InsertSorted(compare.compare, val, alloc);
        if alloc { InsertAtMembers<ListIter<V>>(old(list.nodes), p, r); }
      } else {
        r := list.Append(null, val, alloc);
        if alloc {
          InsertAtMembers<ListIter<V>>(old(list.nodes), |old(list.nodes)|, r);
          InsertLast(old(list.Data()), val);
        }
      }
    }

    method PutItem(list: List<V>, val: V, alloc: bool, ghost i: nat) returns (r: ListIter?<V>)
      requires Base() && i < |groups| && list == lists[i] && Kept(i)
      modifies list, list.nodes
      ensures table.Valid() && Outside() && (forall j :: Linked(j)) && forall j | j != i :: Kept(j)
      ensures list.Valid() && alloc == (r != null)
      ensures list.Data() == if alloc then Grown(compare, groups[i].items, val) else groups[i].items
      ensures alloc ==> fresh(r)
      ensures forall n | n in list.nodes :: n == r || n in old(list.nodes)
    {
      hide Map.Valid, Sorted, Hashed, Distinct, Model, Grown;
      r := Enlist(list, val, alloc);
      forall j ensures Linked(j) {
        assert old(Linked(j));
      }
      forall j | j != i ensures Kept(j) {
        assert old(Kept(j));
        Apart(lists, i);
      }
    }

    /** Takes a list's new item into the books. */
    ghost method Book(list: List<V>, r: ListIter<V>, i: nat, items: seq<V>)
      requires table.Valid() && Outside() && Distinct(lists) && |lists| == |groups| == |table.nodes.nodes|
      requires (forall j :: Linked(j)) && (forall j | j != i :: Kept(j))
      requires i < |lists| && list == lists[i] && list in repr && list.Valid() && list.Data() == items
      requires forall n | n in list.nodes :: n == r || (n in repr && n in owner && owner[n] == list)
      requires r !in repr && forall j | 0 <= j < |table.nodes.nodes| :: table.nodes.nodes[j] != r
      modifies this`groups, this`owner, this`repr
      ensures Base() && groups == old(groups)[i := Group(old(groups[i].key), items)] && repr == old(repr) + {r}
    {
      hide Map.Valid, List.Valid, Sorted, Hashed, Distinct, Model;
      owner := owner[r := list];
      repr := repr + {r};
      groups := groups[i := Group(groups[i].key, items)];
      forall j ensures Linked(j) {
        assert old(Linked(j));
      }
      forall j ensures Kept(j) {
        if j == i {
          assert forall m | 0 <= m < |list.nodes| :: list.nodes[m] in list.nodes;
        } else {
          assert old(Kept(j));
        }
      }
    }

    lemma KeptFrom(i: nat)
      requires i < |lists| == |groups| && lists[i] in repr
      requires forall n | n in lists[i].nodes :: n in repr && n in owner && owner[n] == lists[i]
      requires lists[i].Valid() && lists[i].Data() == groups[i].items
      ensures Kept(i)
    {
      assert forall m | 0 <= m < |lists[i].nodes| :: lists[i].nodes[m] in lists[i].nodes;
    }

    /** Adds a value to a key that is there. */
    method AddItem(list: List<V>, val: V, alloc: bool, ghost i: nat) returns (ok: bool)
      requires Base() && i < |groups| && list == lists[i] && Kept(i)
      modifies list, list.nodes, this`groups, this`owner, this`repr
      ensures Base() && ok == alloc && fresh(repr - old(repr))
      ensures groups ==
        if ok then old(groups)[i := Group(old(groups[i].key), Grown(compare, old(groups[i].items), val))]
        else old(groups)
    {
      hide Map.Valid, List.Valid, Sorted, Hashed, Distinct, Model, Grown;
      var r := PutItem(list, val, alloc, i);
      ok := r != null;
      if ok {
        Book(list, r, i, Grown(compare, groups[i].items, val));
      } else {
        KeptFrom(i);
      }
    }

    /** The node at holds the list under the key, and the other nodes the lists there were. */
    ghost predicate Filed(list: List<V>, key: Key, at: nat, j: int)
      requires |lists| == |groups| && |table.nodes.nodes| == |lists| + 1
      reads this, table, table.nodes, table.nodes.nodes
    {
      0 <= j <= |lists| ==>
        var n := table.nodes.nodes[j].data;
        if j == at then n.val == list && n.key == key
        else
          var l := if j < at then j else j - 1;
          0 <= l < |lists| && n.val == lists[l] && n.key == groups[l].key
    }

    /** Takes the new list into the books. */
    ghost method Enroll(list: List<V>, val: V, key: Key, at: nat)
      requires table.Valid() && Outside() && Distinct(lists) && |lists| == |groups| && at <= |lists|
      requires |table.nodes.nodes| == |lists| + 1 && (forall j :: Filed(list, key, at, j)) && (forall j :: Kept(j))
      requires Single(list, val) && list !in lists
      modifies this`groups, this`lists, this`owner, this`repr
      ensures Base()
      ensures groups == InsertAt(old(groups), at, Group(key, [val]))
      ensures repr == old(repr) + {list, list.nodes[0]}
    {
      hide Map.Valid, List.Valid, Sorted, Hashed, Distinct, Model, InsertAt;
      var ls, gs := lists, groups;
      var g := Group(key, [val]);
      var ls', gs' := InsertAt(ls, at, list), InsertAt(gs, at, g);
      InsertAtFacts(ls, at, list);
      InsertAtIndex(gs, at, g, at);
      groups, lists := gs', ls';
      owner := owner[list.nodes[0] := list];
      repr := repr + {list, list.nodes[0]};
      forall j ensures Linked(j) {
        InsertAtIndex(gs, at, g, j);
        assert old(Filed(list, key, at, j));
      }
      forall j ensures Kept(j) {
        InsertAtIndex(gs, at, g, j);
        if j != at { assert old(Kept(if j < at then j else j - 1)); }
      }
    }

    /** A list of one item that has nothing to do with this multimap yet. */
    ghost predicate Single(list: List<V>, val: V)
      reads this, table, table.nodes, list, list.nodes
    {
      && |list.nodes| == 1 && list.Valid() && list.Data() == [val]
      && list !in repr && list.nodes[0] !in repr && list != table.nodes
      && forall i | 0 <= i < |table.nodes.nodes| :: table.nodes.nodes[i] != list.nodes[0]
    }

    /** Files a list of one item under a key that is not there. */
    method FileList(list: List<V>, ghost val: V, key: Key, address: Key,
                    allocNode: bool, allocIter: bool, allocBuckets: bool) returns (ok: bool, ghost at: nat)
      requires Base() && |address| == 8 && |groups| < MAX_CAPACITY && Single(list, val)
      modifies table, table.buckets, table.nodes, table.nodes.nodes, this`groups, this`lists, this`owner, this`repr
      ensures Base()
      ensures ok <==> |key| <= KEYLEN && Effective(key, address) !in old(table.Contents()) && allocNode && allocIter
      ensures !ok ==> groups == old(groups) && repr == old(repr) && Single(list, val)
      ensures ok ==> at <= |old(groups)| && groups == InsertAt(old(groups), at, Group(Effective(key, address), [val]))
      ensures ok ==> repr == old(repr) + {list, list.nodes[0]}
      ensures list.Valid() && list.nodes == old(list.nodes)
    {
      hide Map.Valid, Sorted, Hashed, Distinct, Model, Effective, InsertAt, List.Valid, DataOf, Map.Contents;
      hide Outside, Filed, Kept, Linked, Single;
      FreshList(list, val);
      ok, at := PutList(list, val, key, address, allocNode, allocIter, allocBuckets);
      if ok {
        Enroll(list, val, Effective(key, address), at);
      }
    }

    /** Puts the list into the map itself; the books do not have it yet. */
    method PutList(list: List<V>, ghost val: V, key: Key, address: Key,
                   allocNode: bool, allocIter: bool, allocBuckets: bool) returns (ok: bool, ghost at: nat)
      requires Base() && |address| == 8 && |groups| < MAX_CAPACITY && Single(list, val)
      modifies table, table.buckets, table.nodes, table.nodes.nodes
      ensures table.Valid() && Outside() && (forall j :: Kept(j)) && Single(list, val)
      ensures ok <==> |key| <= KEYLEN && Effective(key, address) !in old(table.Contents()) && allocNode && allocIter
      ensures !ok ==> |table.nodes.nodes| == |lists| && forall j :: Linked(j)
      ensures ok ==> at <= |lists| && |table.nodes.nodes| == |lists| + 1
      ensures ok ==> forall j :: Filed(list, Effective(key, address), at, j)
      ensures list.Valid() && list.nodes == old(list.nodes)
    {
      hide Map.Valid, Sorted, Hashed, Distinct, Model, Place, Effective, InsertAt, List.Valid, DataOf, Map.Contents,
        Kept, Linked, Filed;
      at := 0;
      ghost var d := table.nodes.Data();
      LinkedToData();
      assert AllKept();
      var miter := table.Addp(list, key, address, allocNode, allocIter, allocBuckets);
      ok := miter != null;
      if ok {
        at := Place(d, RankOf(miter.data));
        InsertAtMembers<ListIter<MapNode<List<V>>>>(old(table.nodes.nodes), at, miter);
        assert forall j | 0 <= j < |table.nodes.nodes| :: table.nodes.nodes[j] in table.nodes.nodes;
        DataToFiled(d, at, miter.data);
      } else {
        DataToLinked(d);
      }
      assert AllKept();
    }

    ghost predicate InData(d: seq<MapNode<List<V>>>, i: int)
      requires |d| == |lists| == |groups|
      reads this
    {
      0 <= i < |lists| ==> d[i].val == lists[i] && d[i].key == groups[i].key
    }

    lemma LinkedToData()
      requires |lists| == |groups| == |table.nodes.nodes| && forall i :: Linked(i)
      ensures forall i :: InData(table.nodes.Data(), i)
    {
      forall i ensures InData(table.nodes.Data(), i) {
        assert Linked(i);
      }
    }

    lemma DataToLinked(d: seq<MapNode<List<V>>>)
      requires |lists| == |groups| == |table.nodes.nodes| && table.nodes.Data() == d && forall i :: InData(d, i)
      ensures forall i :: Linked(i)
    {
      forall i ensures Linked(i) {
        assert InData(d, i);
      }
    }

    lemma DataToFiled(d: seq<MapNode<List<V>>>, at: nat, node: MapNode<List<V>>)
      requires |lists| == |groups| == |d| && at <= |d| && forall i :: InData(d, i)
      requires |table.nodes.nodes| == |d| + 1 && table.nodes.Data() == InsertAt(d, at, node)
      ensures forall j :: Filed(node.val, node.key, at, j)
    {
      forall j ensures Filed(node.val, node.key, at, j) {
        InsertAtIndex(d, at, node, j);
        assert InData(d, if j < at then j else j - 1);
      }
    }

    ghost predicate AllKept()
      requires |lists| == |groups|
      reads this, repr
    {
      forall j :: Kept(j)
    }

    lemma FreshList(list: List<V>, val: V)
      requires Base() && Single(list, val)
      ensures list !in lists
    {
      hide Map.Valid, List.Valid, Sorted, Hashed, Distinct, Model, Outside, Linked;
      forall i | 0 <= i < |lists| ensures lists[i] != list {
        assert Kept(i);
      }
    }

    /** A new list of one item, unless an allocation fails. */
    method OneItem(val: V, allocList: bool, allocItem: bool) returns (list: List?<V>)
      ensures (list != null) == (allocList && allocItem)
      ensures list != null ==>
        fresh(list) && list.Valid() && |list.nodes| == 1 && fresh(list.nodes[0]) && list.Data() == [val]
    {
      list := null;
      if !allocList {
        return;
      }
      list := new List<V>();
      var r := list.Append(null, val, allocItem);
      if r == null { list := null; }
    }

    method Unlist(list: List<V>)
      requires list.Valid() && |list.nodes| == 1
      modifies list, list.nodes
      ensures list.Valid() && list.nodes == []
    {
      var _, _ := list.Remove(list.head);
    }

    /** A new list of one item under a new key; whatever allocation fails, nothing is left of the attempt. */
    method AddGroup(val: V, key: Key, address: Key, allocList: bool, allocItem: bool,
                    allocNode: bool, allocIter: bool, allocBuckets: bool) returns (ok: bool, ghost at: nat)
      requires Base() && |address| == 8 && |groups| < MAX_CAPACITY
      modifies table, table.buckets, table.nodes, table.nodes.nodes, this`groups, this`lists, this`owner, this`repr
      ensures Base() && fresh(repr - old(repr))
      ensures ok <==> |key| <= KEYLEN && Effective(key, address) !in old(table.Contents())
                      && allocList && allocItem && allocNode && allocIter
      ensures !ok ==> groups == old(groups)
      ensures ok ==> at <= |old(groups)| && groups == InsertAt(old(groups), at, Group(Effective(key, address), [val]))
    {
      hide Map.Valid, List.Valid, Sorted, Hashed, Distinct, Model, Effective, Kept, Linked, Map.Contents,
        InsertAt, DataOf;
      ok, at := false, 0;
      var list := OneItem(val, allocList, allocItem);
      if list != null {
        ok, at := FileList(list, val, key, address, allocNode, allocIter, allocBuckets);
        if !ok {
          Unlist(list);
          assert table.Valid() && Outside();
        }
      }
    }

    // -------------------------------------------------------------- by key

    /** The map knows a key exactly when there is a group for it. */
    lemma KeysAgree(key: Key)
      requires Base()
      ensures key in table.Contents() <==> HasGroup(groups, key)
    {
      hide Map.Valid, List.Valid, Sorted, Hashed, Distinct, Model, Kept, Outside;
      ModelKeys(table.nodes.Data(), key);
      if HasKey(table.nodes.Data(), key) {
        var i :| 0 <= i < |table.nodes.Data()| && table.nodes.Data()[i].key == key;
        assert Linked(i);
        assert KeyAt(groups, i, key);
      }
      if HasGroup(groups, key) {
        var i :| KeyAt(groups, i, key);
        assert Linked(i);
        assert table.nodes.Data()[i].key == key;
      }
    }

    /** No key has two groups. */
    lemma KeysDiffer(i: nat, j: nat)
      requires Base() && i < j < |groups|
      ensures groups[i].key != groups[j].key
    {
      hide Model, Kept, Outside, Sorted, Hashed, Distinct;
      assert Linked(i) && Linked(j);
      if groups[i].key == groups[j].key { KeyOnce(table.seed, table.nodes.Data(), i, j); }
    }

    /** The groups stand in the order of the map's nodes: by hash, then by length, then by the key's words. */
    lemma KeysAscend(i: nat, j: nat)
      requires Base() && i < j < |groups|
      ensures var a, b := groups[i].key, groups[j].key;
        Compare(Rank(HashOf(table.seed, a), a), Rank(HashOf(table.seed, b), b)) < 0
    {
      hide Model, Kept, Outside, Distinct, Compare, HashOf;
      assert Linked(i) && Linked(j);
      NodesAscend(table.seed, table.nodes.Data(), i, j);
    }

    lemma NodeOf(miter: ListIter<MapNode<List<V>>>) returns (i: nat)
      requires Base() && miter in table.nodes.nodes
      ensures i < |groups| && miter == table.nodes.nodes[i] && Kept(i)
      ensures lists[i] in repr && forall m | 0 <= m < |lists[i].nodes| :: lists[i].nodes[m] in repr
      ensures miter.data.val == lists[i] && miter.data.key == groups[i].key
    {
      hide Map.Valid, List.Valid, Sorted, Hashed, Distinct, Model, Outside;
      i := IndexOf(table.nodes.nodes, miter);
      assert Linked(i) && Kept(i);
    }

    /** The list under a key, with the cursor on its first item; null when there is none. */
    method Findp(mm: MultimapIter<V>, key: Key, address: Key) returns (list: List?<V>, ghost at: nat)
      requires Valid() && |address| == 8 && mm !in repr
      modifies mm
      ensures Valid()
      ensures list != null <==> HasGroup(groups, if key == [] then address else key)
      ensures list != null ==>
        at < |groups| && groups[at].key == (if key == [] then address else key) && list == lists[at]
      ensures list != null ==> Points(mm, at, 0)
    {
      hide Map.Valid, List.Valid, Sorted, Hashed, Distinct, Model, DataOf, Effective, Map.Contents, Kept;
      KeysAgree(Effective(key, address));
      var miter := table.Findp(key, address);
      list, at := null, 0;
      if miter != null {
        at := NodeOf(miter);
        list := miter.data.val;
        var _ := Settle(mm, miter, at);
      } else {
        mm.miter := null;
      }
    }

    /** Adds a value under a key, to the key's list or in a list of its own; a failure changes nothing. */
    method Addp(val: V, key: Key, address: Key, allocList: bool, allocItem: bool,
                allocNode: bool, allocIter: bool, allocBuckets: bool) returns (ok: bool, ghost at: nat)
      requires Valid() && |address| == 8 && |groups| < MAX_CAPACITY
      modifies table, table.buckets, table.nodes, table.nodes.nodes
      modifies this`groups, this`lists, this`owner, this`repr, repr
      ensures Valid() && fresh(repr - old(repr))
      ensures var key8 := if key == [] then address else key;
        && (ok <==> if HasGroup(old(groups), key8) then allocItem
                    else |key| <= 256 && allocList && allocItem && allocNode && allocIter)
        && (if ok then AddedTo(compare, old(groups), groups, key8, val, at) else groups == old(groups))
        && (ok && HasGroup(old(groups), key8) ==>
              at < |groups| == |old(groups)| && Joined(compare, old(groups)[at].items, groups[at].items, val))
    {
      hide Map.Valid, List.Valid, Sorted, Hashed, Distinct, Model, DataOf, Effective, Map.Contents, Kept, Grown,
        InsertAt;
      KeysAgree(Effective(key, address));
      var miter := table.Findp(key, address);
      if miter != null {
        at := NodeOf(miter);
        assert groups[at] in groups && KeyAt(groups, at, Effective(key, address));
        ok := AddItem(miter.data.val, val, allocItem, at);
        GrownNotEmpty(compare, old(groups)[at].items, val);
        GrownJoins(compare, old(groups)[at].items, val);
      } else {
        ok, at := AddGroup(val, key, address, allocList, allocItem, allocNode, allocIter, allocBuckets);
        if ok { InsertAtMembers(old(groups), at, Group(Effective(key, address), [val])); }
      }
    }

    // -------------------------------------------------------------- emptying

    /** Empties a list that no node of the map holds any more. */
    method EmptyList(list: List<V>)
      requires Base() && list.Valid() && list !in lists && list in repr
      requires forall m | 0 <= m < |list.nodes| ::
        list.nodes[m] in repr && list.nodes[m] in owner && owner[list.nodes[m]] == list
      modifies list, list.nodes
      ensures Base() && list.nodes == []
    {
      hide Map.Valid, Sorted, Hashed, Distinct, Model;
      list.Discard();
      assert table.Valid() && Outside();
      forall j ensures Linked(j) {
        assert old(Linked(j));
      }
      forall j ensures Kept(j) {
        assert old(Kept(j));
        assert 0 <= j < |lists| ==> lists[j] in lists;
      }
    }

    /** Removes every list from the map and empties it. */
    method Discard()
      requires Valid()
      modifies this`groups, this`lists, table`nodesSize, table.buckets, table.nodes, table.nodes.nodes, repr
      ensures Valid() && groups == [] && table.Contents() == map[]
    {
      hide Map.Valid, Sorted, Hashed, Distinct, Model, DataOf, RemoveAt, Map.Contents;
      NodesValid();
      HeadNode();
      var miter := table.nodes.head;
      while miter != null
        invariant Valid() && repr == old(repr) && miter == At(table.nodes.nodes, 0)
        invariant forall j | 0 <= j < |table.nodes.nodes| :: table.nodes.nodes[j] in old(table.nodes.nodes)
        decreases |groups|
      {
        RemoveAtMembers(table.nodes.nodes, 0);
        ghost var was := table.nodes.nodes;
        miter := DiscardGroup(miter);
        assert forall j | 0 <= j < |table.nodes.nodes| :: table.nodes.nodes[j] in table.nodes.nodes;
      }
      NoGroups();
    }

    /** One round: takes the first list out of the map and empties it. */
    method DiscardGroup(miter: ListIter<MapNode<List<V>>>) returns (next: ListIter?<MapNode<List<V>>>)
      requires Valid() && groups != [] && miter == table.nodes.nodes[0]
      modifies this`groups, this`lists, table`nodesSize, table.buckets, table.nodes, table.nodes.nodes, repr
      ensures Valid() && repr == old(repr) && groups == old(groups)[1..]
      ensures table.nodes.nodes == RemoveAt(old(table.nodes.nodes), 0)
      ensures next == At(table.nodes.nodes, 0)
    {
      hide Map.Valid, Sorted, Hashed, Distinct, Model, DataOf, RemoveAt, Map.Contents;
      assert Linked(0) && Kept(0);
      RemoveAtFacts(lists, 0);
      RemoveFirst(groups);
      NextBehind(table.nodes.nodes, 0);
      var list := miter.data.val;
      next := DropGroup(miter, 0);
      EmptyList(list);
    }

    lemma NoGroups()
      requires Base() && groups == []
      ensures table.Contents() == map[]
    {
      hide Map.Valid, Sorted, Hashed, Distinct;
      forall key | key in table.Contents() ensures false {
        KeysAgree(key);
      }
    }

    lemma FlatNothing(gs: seq<Group<V>>)
      ensures Offset(gs, 0, 0) == 0 && Flat<V>([]) == []
    {}

    /** Going on from the first item to the next visits every item, once, in the order of iteration. */
    method Walk(mm: MultimapIter<V>) returns (out: seq<(Key, V)>)
      requires Valid() && mm !in repr
      modifies mm
      ensures Valid() && groups == old(groups) && out == Flat(groups)
    {
      hide Map.Valid, List.Valid, Sorted, Hashed, Distinct, Model, DataOf, Map.Contents, Kept, Flat, Linked, Offset;
      out := [];
      ghost var i, k := 0, 0;
      FlatNothing(groups);
      OffsetStart(groups);
      var more := Head(mm);
      while more
        invariant Valid() && (more ==> Points(mm, i, k) && Offset(groups, i, k) == |out| < |Flat(groups)|)
        invariant |out| <= |Flat(groups)| && out == Flat(groups)[..|out|]
        invariant !more ==> out == Flat(groups)
        decreases |Flat(groups)| - |out|, more
      {
        ListOf(mm, i, k);
        ItemOf(mm, i, k);
        OffsetIs(groups, i, k);
        assert Flat(groups)[..|out| + 1] == Flat(groups)[..|out|] + [Flat(groups)[|out|]];
        out := out + [(mm.miter.data.key, mm.iter.data)];
        OffsetNext(groups, i, k);
        more := Next(mm, i, k);
        i, k := if k + 1 < |groups[i].items| then i else i + 1, if k + 1 < |groups[i].items| then k + 1 else 0;
      }
    }

    /** Removing at the cursor from the first item on hands out every item, once, in the order of iteration. */
    method Drain(mm: MultimapIter<V>) returns (out: seq<(Key, V)>)
      requires Valid() && mm !in repr
      modifies this`groups, this`lists, table`nodesSize, table.buckets, table.nodes, table.nodes.nodes, repr, mm
      ensures Valid() && groups == [] && out == Flat(old(groups))
    {
      hide Map.Valid, List.Valid, Sorted, Hashed, Distinct, Model, DataOf, RemoveAt, Map.Contents, Kept, Flat, Linked;
      out := [];
      var more := Head(mm);
      while more
        invariant Valid() && repr == old(repr)
        invariant forall j | 0 <= j < |table.nodes.nodes| :: table.nodes.nodes[j] in old(table.nodes.nodes)
        invariant more <==> groups != []
        invariant more ==> Points(mm, 0, 0)
        invariant out + Flat(groups) == Flat(old(groups))
        decreases |Flat(groups)|
      {
        ghost var was, ns := groups, table.nodes.nodes;
        ListOf(mm, 0, 0);
        OffsetIs(was, 0, 0);
        FlatWithout(was, 0, 0);
        RemoveFirst(Flat(was));
        FlatNothing(was);
        var key := mm.miter.data.key;
        var data, m := Remove(mm, 0, 0);
        out := out + [(key, data)];
        more := m;
      }
      FlatNothing(groups);
    }
  }
}
