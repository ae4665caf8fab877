/** Which task a worker takes next: over every run that never submits a pending task again with another priority, the
    pending queue stays ordered by priority, oldest first among equals. */
module WorkqRanking {
  import opened Lists
  import opened Queues
  import opened WorkqOrder
  import opened WorkqState
  import opened WorkqRegions
  import opened WorkqProtocol
  import opened WorkqService

  /** Nodes are numbered in the order in which their tasks were taken in. */
  function ById(n: Id): nat { n }

  /** Highest priority first, and among equals first come first served. */
  ghost predicate Served(s: State) { ServedBy(s, ById) }

  /** Task m does not stand between the old and the new rank of n: if n is raised, m stays ahead of it where it was; if
      n is lowered, m does not get ahead where it had a lower priority. */
  predicate Beside(node: map<Id, Node>, m: Id, n: Id, p: int)
    requires m in node && n in node
  {
    var own, other := node[n].priority, node[m].priority;
    && (p > own && Ahead(node, ById, m, n) ==> other > p || (other == p && m < n))
    && (p < own && other < own ==> p > other || (p == other && n < m))
  }

  /** The caller can see from the queue whether giving the pending node n priority p upsets the order of service. */
  predicate KeepsRank(s: State, n: Id, p: int) {
    forall m | m in s.pending && m != n :: m in s.node && n in s.node && Beside(s.node, m, n, p)
  }

  /** The step does not submit a pending task again with a priority that upsets the order. */
  predicate KeepsOrder(w: World, s: Step) {
    s.CallRun? && s.task in w.q.mapTask && w.q.mapTask[s.task] in w.q.pending
    ==> KeepsRank(w.q, w.q.mapTask[s.task], s.priority)
  }

  ghost predicate Shifts(q: seq<Id>, r: seq<Id>, k: int, m: int, i: int) {
    0 <= i < |q| == |r| && i != m && m < |q| ==> r[i] == q[if k <= i < m then i + 1 else i]
  }

  ghost predicate Classed(node: map<Id, Node>, q: seq<Id>, k: int, m: int, p: int, i: int) {
    0 <= i < |q| && 0 <= k < |q| && q[i] in node && q[k] in node ==>
      && (k <= i <= m ==> node[q[i]].priority == node[q[k]].priority)
      && (m < i && p < node[q[k]].priority ==> node[q[i]].priority < node[q[k]].priority)
  }

  /** Submitting the node at position k again turns queue q into r: nobody moves but that node, only when it is lowered,
      and only to the end of those that had its priority. */
  ghost predicate MovedInClass(node: map<Id, Node>, q: seq<Id>, r: seq<Id>, k: int, m: int, p: int) {
    && 0 <= k <= m < |q| == |r| && r[m] == q[k] && q[k] in node && (p >= node[q[k]].priority ==> m == k)
    && (forall i :: Shifts(q, r, k, m, i)) && (forall i :: Classed(node, q, k, m, p, i))
  }

  lemma ScanStays(prio: seq<int>, k: nat, p: int)
    requires Descending(prio) && k < |prio|
    ensures var m := MovedTo(prio, k, p);
      && k <= m && (p >= prio[k] ==> m == k) && (forall i | k <= i <= m :: prio[i] == prio[k])
      && forall i | m < i < |prio| && p < prio[k] :: prio[i] < prio[k]
  {
    if p > prio[k] {
      RaiseMovesNothing(prio, k, p);
    } else if p < prio[k] {
      LowerStaysInClass(prio, k, p);
    }
  }

  lemma QueuedKnown(s: State)
    requires Queued(s)
    ensures Distinct(s.pending) && forall n | n in s.pending :: n in s.node
  {
  }

  lemma MovedOnward(q: seq<Id>, k: nat, m: nat)
    requires k <= m < |q|
    ensures var r := MoveAt(q, k, m); |r| == |q| && r[m] == q[k] && forall i :: Shifts(q, r, k, m, i)
  {
  }

  lemma ResubmittedQueue(s: State, n: Id, p: int)
    requires Queued(s) && Served(s) && n in s.pending
    ensures var k := Position(s.pending, n);
      var m := MovedTo(Priorities(s, s.pending), k, p);
      MovedInClass(s.node, s.pending, MoveAt(s.pending, k, m), k, m, p)
  {
    QueuedKnown(s);
    ServedDescends(s, ById);
    var q, k, prio := s.pending, Position(s.pending, n), Priorities(s, s.pending);
    var m := MovedTo(prio, k, p);
    ScanStays(prio, k, p);
    MovedOnward(q, k, m);
    PriorityAt(s, k);
    hide Queued, Descending, Distinct, MoveAt, Ranked, MovedTo, Position, Priorities, Shifts;
    forall i
      ensures Classed(s.node, q, k, m, p, i)
    {
      PriorityAt(s, i);
    }
  }

  /** Seen on the priorities alone, a call of run does to the queue what the scans do to a list of numbers. */
  lemma RunResubmits(s: State, task: Task, p: int, alloc: bool)
    requires Queued(s) && Indexed(s) && task in s.mapTask && s.mapTask[task] in s.pending
    ensures var k, prio := Position(s.pending, s.mapTask[task]), Priorities(s, s.pending);
      var t := Run(s, task, p, alloc).0;
      && (forall n | n in t.pending :: n in t.node)
      && Priorities(t, t.pending) == Resubmitted(prio, k, MovedTo(prio, k, p), p)
  {
    var n := s.mapTask[task];
    var k := Position(s.pending, n);
    var m := MovedTo(Priorities(s, s.pending), k, p);
    RunReorders(s, task, p, alloc);
    QueuedKnown(s);
    MoveAtMeaning(s.pending, k, m);
    hide MovedTo, MoveAt, Distinct, Position, Queued, Indexed, Run, Priorities;
    ReorderedPriorities(s, Run(s, task, p, alloc).0, k, m, p);
  }

  lemma RunReorders(s: State, task: Task, p: int, alloc: bool)
    requires Queued(s) && Indexed(s) && task in s.mapTask && s.mapTask[task] in s.pending
    ensures var k, t := Position(s.pending, s.mapTask[task]), Run(s, task, p, alloc).0;
      && t.pending == MoveAt(s.pending, k, MovedTo(Priorities(s, s.pending), k, p))
      && t.node == Repriced(s, s.mapTask[task], p)
  {
    hide MovedTo, MoveAt, Distinct, Position, Priorities;
  }

  lemma ReorderedPriorities(s: State, t: State, k: nat, m: nat, p: int)
    requires Distinct(s.pending) && (forall n | n in s.pending :: n in s.node) && k < |s.pending| && m < |s.pending|
    requires t.pending == MoveAt(s.pending, k, m) && t.node == Repriced(s, s.pending[k], p)
    requires forall n | n in t.pending :: n in t.node
    ensures Priorities(t, t.pending) == Resubmitted(Priorities(s, s.pending), k, m, p)
  {
    MoveAtMeaning(s.pending, k, m);
    MovedIndex(Priorities(s, s.pending), k, m, p, k);
    hide MoveAt, Resubmitted, Distinct, Priorities;
    forall i | 0 <= i < |t.pending|
      ensures Priorities(t, t.pending)[i] == Resubmitted(Priorities(s, s.pending), k, m, p)[i]
    {
      PriorityAt(t, i);
      ReorderedPriority(s, t, k, m, p, i);
    }
  }

  lemma ReorderedPriority(s: State, t: State, k: nat, m: nat, p: int, i: nat)
    requires Distinct(s.pending) && (forall n | n in s.pending :: n in s.node) && k < |s.pending| && m < |s.pending|
    requires t.pending == MoveAt(s.pending, k, m) && t.node == Repriced(s, s.pending[k], p)
    requires i < |s.pending|
    ensures |t.pending| == |s.pending| == |Resubmitted(Priorities(s, s.pending), k, m, p)| && t.pending[i] in t.node
    ensures t.node[t.pending[i]].priority == Resubmitted(Priorities(s, s.pending), k, m, p)[i]
  {
    MoveAtIndex(s.pending, k, m, i);
    MovedIndex(Priorities(s, s.pending), k, m, p, i);
    Apart(s.pending, k);
    hide MoveAt, Resubmitted, Distinct;
  }

  lemma MoveAtIndex(q: seq<Id>, k: nat, m: nat, i: nat)
    requires k < |q| && m < |q| && i < |q|
    ensures |MoveAt(q, k, m)| == |q|
    ensures i == m ==> MoveAt(q, k, m)[i] == q[k]
    ensures i < m ==> MoveAt(q, k, m)[i] == q[if i < k then i else i + 1]
    ensures i > m ==> MoveAt(q, k, m)[i] == q[if i - 1 < k then i - 1 else i]
  {
  }

  /** The nodes after n was given priority p. */
  function Repriced(s: State, n: Id, p: int): map<Id, Node>
    requires n in s.node
  {
    s.node[n := s.node[n].(priority := p, purgeId := s.purgeId)]
  }

  lemma ResubmitServed(s: State, n: Id, p: int)
    requires Queued(s) && Served(s) && n in s.pending
    ensures var k := Position(s.pending, n);
      Served(Reorder(Renew(s, n), k, MovedTo(Priorities(s, s.pending), k, p), p)) <==> KeepsRank(s, n, p)
  {
    var k := Position(s.pending, n);
    var m := MovedTo(Priorities(s, s.pending), k, p);
    var t := Reorder(Renew(s, n), k, m, p);
    ResubmittedQueue(s, n, p);
    QueuedKnown(s);
    assert t.node == Repriced(s, n, p) && t.pending == MoveAt(s.pending, k, m);
    hide Queued, Distinct, MoveAt, Position, Priorities, MovedTo, Reorder, Renew, MovedInClass, Ranked, Repriced;
    if Served(t) {
      forall x | x in s.pending && x != n
        ensures Beside(s.node, x, n, p)
      {
        var i :| 0 <= i < |s.pending| && s.pending[i] == x;
        RankedBeside(s, t.pending, k, m, p, i);
      }
    }
    if KeepsRank(s, n, p) {
      BesideRanked(s, t.pending, k, m, p);
    }
  }

  lemma RankedBeside(s: State, r: seq<Id>, k: nat, m: nat, p: int, i: nat)
    requires MovedInClass(s.node, s.pending, r, k, m, p) && Ranked(s.node, ById, s.pending) && i < |s.pending|
    requires Ranked(Repriced(s, s.pending[k], p), ById, r) && s.pending[i] != s.pending[k] && s.pending[i] in s.node
    ensures Beside(s.node, s.pending[i], s.pending[k], p)
  {
    var q, node := s.pending, Repriced(s, s.pending[k], p);
    assert RankedPair(s.node, ById, q, i, k) && RankedPair(s.node, ById, q, k, i);
    assert RankedPair(node, ById, r, i, m) && RankedPair(node, ById, r, m, i);
    assert Shifts(q, r, k, m, i) && Classed(s.node, q, k, m, p, i);
    hide Ranked, MovedInClass;
  }

  lemma BesideRanked(s: State, r: seq<Id>, k: nat, m: nat, p: int)
    requires MovedInClass(s.node, s.pending, r, k, m, p) && Ranked(s.node, ById, s.pending) && Distinct(s.pending)
    requires KeepsRank(s, s.pending[k], p) && forall n | n in s.pending :: n in s.node
    ensures Ranked(Repriced(s, s.pending[k], p), ById, r)
  {
    hide KeepsRank, Distinct;
    forall i, j
      ensures RankedPair(Repriced(s, s.pending[k], p), ById, r, i, j)
    {
      BesideRankedPair(s, r, k, m, p, i, j);
    }
  }

  lemma BesideRankedPair(s: State, r: seq<Id>, k: nat, m: nat, p: int, i: int, j: int)
    requires MovedInClass(s.node, s.pending, r, k, m, p) && Ranked(s.node, ById, s.pending) && Distinct(s.pending)
    requires KeepsRank(s, s.pending[k], p) && forall n | n in s.pending :: n in s.node
    ensures RankedPair(Repriced(s, s.pending[k], p), ById, r, i, j)
  {
    var q := s.pending;
    var i', j' := if k <= i < m then i + 1 else i, if k <= j < m then j + 1 else j;
    assert Shifts(q, r, k, m, i) && Shifts(q, r, k, m, j);
    assert Classed(s.node, q, k, m, p, i') && Classed(s.node, q, k, m, p, j');
    assert RankedPair(s.node, ById, q, i', j');
    assert RankedPair(s.node, ById, q, k, j') && RankedPair(s.node, ById, q, i', k);
    Apart(q, k);
    hide Ranked, MovedInClass, Distinct;
    if 0 <= i < j < |q| {
      assert i != m ==> q[i'] in q && q[i'] != q[k];
      assert j != m ==> q[j'] in q && q[j'] != q[k];
    }
  }

  lemma InsertStamps(s: State)
    requires Good(s, s.purgeId)
    ensures Stamped(s, ById, ById(s.next))
  {
    forall n | n in s.pending
      ensures n < s.next
    {
      var k :| 0 <= k < |s.pending| && s.pending[k] == n;
      PendingKnown(s, k);
    }
  }

  /** Whether a call of run keeps the queue in the order of service: always, but for a pending task whose new priority
      upsets it, and then never. */
  lemma RunServed(s: State, task: Task, priority: int, alloc: bool)
    requires Good(s, s.purgeId) && Served(s)
    ensures Served(Run(s, task, priority, alloc).0) <==>
      (task in s.mapTask && s.mapTask[task] in s.pending ==> KeepsRank(s, s.mapTask[task], priority))
  {
    hide Ranked, Distinct, Reorder, Drop, Insert, Chronicled, Coloured, KeepsRank;
    if task !in s.mapTask {
      if alloc {
        InsertStamps(s);
        InsertServed(s, ById, task, priority);
      }
    } else {
      var n := s.mapTask[task];
      assert Placed(s, n);
      if s.node[n].status == Active {
        RankedFrame(ById, s.node, Renew(s, n).node, s.pending);
      } else if s.node[n].status == Pending {
        ResubmitServed(s, n, priority);
      } else {
        DropRanked(s, ById, n, Handed(n, s.node[n].status));
      }
    }
  }

  /** So of all steps only such a call upsets the order, and it always does. */
  lemma NextRanked(w: World, s: Step)
    requires Inv(w) && Enabled(w, s) && Served(w.q)
    ensures Served(Next(w, s).q) <==> KeepsOrder(w, s)
  {
    if s.CallRun? {
      RunServed(w.q, s.task, s.priority, s.alloc);
    } else {
      OthersServe(w, ById, s);
    }
    hide Inv, Served, KeepsRank, Run, Queued, Indexed, Coloured, Chronicled;
  }

  /** A run that never submits a pending task again with a priority that upsets the order. */
  predicate Steady(w: World, steps: seq<Step>)
    requires Inv(w)
    decreases |steps|
  {
    steps == [] ||
    if Enabled(w, steps[0]) then
      KeepsOrder(w, steps[0]) && (NextKeeps(w, steps[0]); Steady(Next(w, steps[0]), steps[1..]))
    else Steady(w, steps[1..])
  }

  lemma {:induction false} SteadyRunsServe(w: World, steps: seq<Step>)
    requires Inv(w) && Served(w.q) && Steady(w, steps)
    ensures Served(Play(w, steps).q)
    decreases |steps|
  {
    hide Inv, Next, KeepsOrder, Served;
    if steps != [] {
      if Enabled(w, steps[0]) {
        NextKeeps(w, steps[0]);
        NextRanked(w, steps[0]);
        SteadyRunsServe(Next(w, steps[0]), steps[1..]);
      } else {
        SteadyRunsServe(w, steps[1..]);
      }
    }
  }

  /** In such a run, from a new queue on, the task a worker takes is the oldest of those with the highest priority. */
  lemma WorkerTakesTheBest(workers: nat, steps: seq<Step>, n: Id)
    requires Inv(Initial(workers)) && Steady(Initial(workers), steps)
    ensures var q := Play(Initial(workers), steps).q;
      n in q.pending && n != q.pending[0] ==> Ahead(q.node, ById, q.pending[0], n)
  {
    hide Inv, Steady, Play;
    SteadyRunsServe(Initial(workers), steps);
    var q := Play(Initial(workers), steps).q;
    if n in q.pending && n != q.pending[0] {
      var j :| 0 <= j < |q.pending| && q.pending[j] == n;
      assert RankedPair(q.node, ById, q.pending, 0, j);
    }
  }

  // ---------------------------------------------------------------- calls after which the queue is out of order

  /** Three new tasks with priorities 5, 4 and 3, and then the first of them again with priority 1. */
  function FourCalls(): seq<Step> {
    [CallRun(0, 5, true), CallRun(1, 4, true), CallRun(2, 3, true), CallRun(0, 1, true)]
  }

  ghost predicate FilledAt(s: State, prio: seq<int>, i: int) {
    0 <= i < |prio| == |s.pending| ==>
      && s.pending[i] == i && i in s.node && s.node[i].priority == prio[i] && i in s.mapTask && s.mapTask[i] == i
  }

  /** Tasks 0 to |prio| - 1 are pending in turn with these priorities, and nothing else is there. */
  ghost predicate Filled(s: State, prio: seq<int>) {
    && |s.pending| == |prio| == s.next
    && (forall i :: FilledAt(s, prio, i)) && forall t | t in s.mapTask :: t < |prio|
  }

  /** The priorities of the pending queue, from its head. */
  ghost predicate ReadsAs(s: State, prio: seq<int>) {
    (forall n | n in s.pending :: n in s.node) && Priorities(s, s.pending) == prio
  }

  lemma FilledPriorities(s: State, prio: seq<int>)
    requires Filled(s, prio)
    ensures ReadsAs(s, prio)
  {
    forall n | n in s.pending
      ensures n in s.node
    {
      var i :| 0 <= i < |s.pending| && s.pending[i] == n;
      assert FilledAt(s, prio, i);
    }
    forall i | 0 <= i < |prio|
      ensures Priorities(s, s.pending)[i] == prio[i]
    {
      assert FilledAt(s, prio, i);
    }
  }

  lemma FilledServed(s: State, prio: seq<int>)
    requires Filled(s, prio) && Descending(prio)
    ensures Served(s)
  {
    forall i, j
      ensures RankedPair(s.node, ById, s.pending, i, j)
    {
      assert FilledAt(s, prio, i) && FilledAt(s, prio, j);
    }
  }

  lemma FilledNext(s: State, prio: seq<int>, p: int)
    requires Queued(s) && Indexed(s) && Filled(s, prio) && (prio != [] ==> prio[|prio| - 1] >= p)
    ensures Filled(Run(s, |prio|, p, true).0, prio + [p])
  {
    FilledPriorities(s, prio);
    var t := Run(s, |prio|, p, true).0;
    assert t == Insert(s, |prio|, p, |prio|);
    hide Queued, Indexed, Run, Priorities;
    forall i
      ensures FilledAt(t, prio + [p], i)
    {
      assert FilledAt(s, prio, i);
    }
  }

  /** An idle client's next call, of a new task with the lowest priority so far, fills the queue further. */
  lemma SubmitNext(w: World, prio: seq<int>, p: int, rest: seq<Step>) returns (v: World)
    requires Inv(w) && w.client == Idle && Filled(w.q, prio) && (prio != [] ==> prio[|prio| - 1] >= p)
    ensures Inv(v) && v.client == Idle && Filled(v.q, prio + [p])
    ensures Play(w, [CallRun(|prio|, p, true)] + rest) == Play(v, rest)
  {
    var s := CallRun(|prio|, p, true);
    NextKeeps(w, s);
    FilledNext(w.q, prio, p);
    v := Next(w, s);
    hide Inv, Filled, Run;
    assert ([s] + rest)[1..] == rest;
  }

  lemma ThreeCalls(w: World, rest: seq<Step>) returns (v: World)
    requires Inv(w) && w.client == Idle && Filled(w.q, [])
    ensures Inv(v) && v.client == Idle && Filled(v.q, [5, 4, 3]) && Play(w, FourCalls()[..3] + rest) == Play(v, rest)
  {
    hide Inv, Filled, Play;
    var a, b, c := CallRun(0, 5, true), CallRun(1, 4, true), CallRun(2, 3, true);
    assert [] + [5] == [5] && [5] + [4] == [5, 4] && [5, 4] + [3] == [5, 4, 3];
    var w1 := SubmitNext(w, [], 5, [b, c] + rest);
    var w2 := SubmitNext(w1, [5], 4, [c] + rest);
    v := SubmitNext(w2, [5, 4], 3, rest);
    assert FourCalls()[..3] + rest == [a] + ([b, c] + rest);
    assert [b, c] + rest == [b] + ([c] + rest);
  }

  lemma LoweredHead()
    ensures MovedTo([5, 4, 3], 0, 1) == 0 && Resubmitted([5, 4, 3], 0, 0, 1) == [1, 4, 3]
  {
    assert ScanOn([5, 4, 3], 5, 1) == 1;
  }

  lemma LastCall(w: World)
    requires Inv(w) && w.client == Idle && Filled(w.q, [5, 4, 3])
    ensures ReadsAs(Play(w, [CallRun(0, 1, true)]).q, [1, 4, 3])
  {
    var last, u := CallRun(0, 1, true), Run(w.q, 0, 1, true).0;
    NextKeeps(w, last);
    LastRun(w.q);
    assert Next(w, last).q == u;
    hide Inv, Filled, Run, Next, ReadsAs;
    assert [last][1..] == [];
    assert Play(w, [last]) == Play(Next(w, last), []);
  }

  lemma LastRun(s: State)
    requires Queued(s) && Indexed(s) && Filled(s, [5, 4, 3])
    ensures ReadsAs(Run(s, 0, 1, true).0, [1, 4, 3])
  {
    FilledPriorities(s, [5, 4, 3]);
    assert FilledAt(s, [5, 4, 3], 0);
    RunResubmits(s, 0, 1, true);
    LoweredHead();
    hide Filled, Run, Queued, Indexed, MovedTo, Resubmitted, Priorities;
    assert Position(s.pending, 0) == 0;
  }

  lemma Unserved(s: State)
    requires ReadsAs(s, [1, 4, 3])
    ensures !Served(s)
  {
    assert Priorities(s, s.pending)[0] == 1 && Priorities(s, s.pending)[1] == 4;
    assert !RankedPair(s.node, ById, s.pending, 0, 1);
  }

  lemma InitialFilled(workers: nat)
    ensures Inv(Initial(workers)) && Initial(workers).client == Idle && Filled(Initial(workers).q, [])
  {
    InitialFits(workers);
  }

  lemma FiveFourThree()
    ensures Descending([5, 4, 3])
  {
  }

  lemma FirstThree(w: World)
    requires Inv(w) && w.client == Idle && Filled(w.q, [])
    ensures ReadsAs(Play(w, FourCalls()[..3]).q, [5, 4, 3]) && Served(Play(w, FourCalls()[..3]).q)
  {
    assert FourCalls()[..3] + [] == FourCalls()[..3];
    FiveFourThree();
    hide Inv, Filled, Play, FourCalls, ReadsAs, Served, Descending;
    var v := ThreeCalls(w, []);
    PlayNothing(v);
    FilledPriorities(v.q, [5, 4, 3]);
    FilledServed(v.q, [5, 4, 3]);
  }

  lemma AllFour(w: World)
    requires Inv(w) && w.client == Idle && Filled(w.q, [])
    ensures ReadsAs(Play(w, FourCalls()).q, [1, 4, 3]) && !Served(Play(w, FourCalls()).q)
  {
    var last := CallRun(0, 1, true);
    assert FourCalls()[..3] + [last] == FourCalls();
    hide Inv, Filled, Play, FourCalls, ReadsAs, Served;
    var v := ThreeCalls(w, [last]);
    LastCall(v);
    Unserved(Play(v, [last]).q);
  }

  /** The head of the queue is lowered to 1 and stays in front of 4 and 3: a worker takes it next. */
  lemma LoweredHeadStays(workers: nat)
    ensures Inv(Initial(workers))
    ensures var v := Play(Initial(workers), FourCalls()[..3]).q; ReadsAs(v, [5, 4, 3]) && Served(v)
    ensures var u := Play(Initial(workers), FourCalls()).q; ReadsAs(u, [1, 4, 3]) && !Served(u)
  {
    hide Inv, Filled, Play, FourCalls, ReadsAs, Served, Initial;
    InitialFilled(workers);
    FirstThree(Initial(workers));
    AllFour(Initial(workers));
  }

  lemma PlayNothing(w: World)
    requires Inv(w)
    ensures Play(w, []) == w
  {
  }
}
