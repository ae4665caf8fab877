/** The order of service of the pending queue: by priority, and among equals by a stamp. No step but a call of run can
    upset it. */
module WorkqService {
  import opened Lists
  import opened Queues
  import opened WorkqOrder
  import opened WorkqState
  import opened WorkqRegions
  import opened WorkqProtocol

  /** m is served before n: it has the higher priority, or the same one and the smaller stamp. */
  predicate Ahead(node: map<Id, Node>, stamp: Id -> nat, m: Id, n: Id) {
    && m in node && n in node
    && (node[m].priority > node[n].priority || (node[m].priority == node[n].priority && stamp(m) < stamp(n)))
  }

  ghost predicate RankedPair(node: map<Id, Node>, stamp: Id -> nat, q: seq<Id>, i: int, j: int) {
    0 <= i < j < |q| ==> Ahead(node, stamp, q[i], q[j])
  }

  ghost predicate Ranked(node: map<Id, Node>, stamp: Id -> nat, q: seq<Id>) {
    forall i, j :: RankedPair(node, stamp, q, i, j)
  }

  ghost predicate ServedBy(s: State, stamp: Id -> nat) { Ranked(s.node, stamp, s.pending) }

  lemma {:induction false} ExceptRanked(node: map<Id, Node>, stamp: Id -> nat, q: seq<Id>, gone: set<Id>)
    requires Ranked(node, stamp, q)
    ensures Ranked(node, stamp, Except(q, gone))
  {
    if q != [] {
      var rest, e := q[1..], Except(q[1..], gone);
      forall i, j
        ensures RankedPair(node, stamp, rest, i, j)
      {
        assert RankedPair(node, stamp, q, i + 1, j + 1);
      }
      ExceptRanked(node, stamp, rest, gone);
      forall i, j
        ensures RankedPair(node, stamp, [q[0]] + e, i, j)
      {
        assert RankedPair(node, stamp, e, i - 1, j - 1);
        if 0 == i < j < |e| + 1 {
          assert e[j - 1] in rest;
          var k :| 0 <= k < |rest| && rest[k] == e[j - 1];
          assert RankedPair(node, stamp, q, 0, k + 1);
        }
      }
    }
  }

  lemma RankedFrame(stamp: Id -> nat, a: map<Id, Node>, b: map<Id, Node>, q: seq<Id>)
    requires Ranked(a, stamp, q)
    requires forall n | n in q && n in a :: n in b && b[n].priority == a[n].priority
    ensures Ranked(b, stamp, q)
  {
    forall i, j
      ensures RankedPair(b, stamp, q, i, j)
    {
      assert RankedPair(a, stamp, q, i, j);
    }
  }

  lemma ServedDescends(s: State, stamp: Id -> nat)
    requires Queued(s) && ServedBy(s, stamp)
    ensures Descending(Priorities(s, s.pending))
  {
    forall i, j | 0 <= i < j < |s.pending|
      ensures Priorities(s, s.pending)[i] >= Priorities(s, s.pending)[j]
    {
      assert RankedPair(s.node, stamp, s.pending, i, j);
    }
  }

  lemma MinusIsExcept(q: seq<Id>, n: Id)
    requires Distinct(q)
    ensures Minus(q, n) == Except(q, {n})
  {
    ExceptMinus(q, n, {});
    ExceptNothing(Minus(q, n), {});
    assert {} + {n} == {n};
  }

  lemma TailRanked(node: map<Id, Node>, stamp: Id -> nat, q: seq<Id>)
    requires Ranked(node, stamp, q) && q != []
    ensures Ranked(node, stamp, q[1..])
  {
    forall i, j
      ensures RankedPair(node, stamp, q[1..], i, j)
    {
      assert RankedPair(node, stamp, q, i + 1, j + 1);
    }
  }

  lemma DropRanked(s: State, stamp: Id -> nat, n: Id, e: Event)
    requires Queued(s) && ServedBy(s, stamp) && n in s.node
    ensures ServedBy(Drop(s, n, e), stamp)
  {
    hide Except, Minus, Distinct;
    MinusIsExcept(s.pending, n);
    MinusFacts(s.pending, n);
    ExceptRanked(s.node, stamp, s.pending, {n});
    RankedFrame(stamp, s.node, Drop(s, n, e).node, Minus(s.pending, n));
  }

  // ---------------------------------------------------------------- a node takes its place

  /** n belongs behind the first m of queue q: those have its priority or a higher one, the others a lower one, and none
      has a stamp as late. */
  ghost predicate Between(node: map<Id, Node>, stamp: Id -> nat, q: seq<Id>, m: int, n: Id, i: int) {
    0 <= i < |q| && n in node ==>
      && q[i] in node && stamp(q[i]) < stamp(n)
      && if i < m then node[q[i]].priority >= node[n].priority else node[q[i]].priority < node[n].priority
  }

  lemma InsertRanks(node: map<Id, Node>, stamp: Id -> nat, q: seq<Id>, m: nat, n: Id)
    requires Ranked(node, stamp, q) && m <= |q| && n in node && forall i :: Between(node, stamp, q, m, n, i)
    ensures Ranked(node, stamp, InsertAt(q, m, n))
  {
    hide InsertAt;
    forall i, j
      ensures RankedPair(node, stamp, InsertAt(q, m, n), i, j)
    {
      InsertAtIndex(q, m, n, i);
      InsertAtIndex(q, m, n, j);
      var i', j' := if i < m then i else i - 1, if j < m then j else j - 1;
      assert RankedPair(node, stamp, q, i', j');
      assert Between(node, stamp, q, m, n, i') && Between(node, stamp, q, m, n, j');
    }
  }

  /** Every pending node was stamped before now. */
  ghost predicate Stamped(s: State, stamp: Id -> nat, now: nat) {
    forall n | n in s.pending :: stamp(n) < now
  }

  lemma PriorityAt(s: State, i: int)
    requires forall n | n in s.pending :: n in s.node
    ensures 0 <= i < |s.pending| ==> Priorities(s, s.pending)[i] == s.node[s.pending[i]].priority
  {
  }

  lemma PendingKnown(s: State, k: nat)
    requires Good(s, s.purgeId) && k < |s.pending|
    ensures s.pending[k] in s.node && s.pending[k] < s.next && s.next !in s.node
  {
    assert s.pending[k] in s.pending;
    assert LifeFits(s, s.pending[k]) && LifeFits(s, s.next);
  }

  /** A new task takes its place when it gets the latest stamp. */
  lemma InsertServed(s: State, stamp: Id -> nat, task: Task, priority: int)
    requires Good(s, s.purgeId) && ServedBy(s, stamp) && Stamped(s, stamp, stamp(s.next))
    ensures ServedBy(Insert(s, task, priority, ScanBack(Priorities(s, s.pending), priority, |s.pending|)), stamp)
  {
    var q, prio := s.pending, Priorities(s, s.pending);
    var m := ScanBack(prio, priority, |q|);
    var t := Insert(s, task, priority, m);
    NewNode(s, stamp, task, priority, m);
    ScanBackFinds(prio, priority, |q|);
    hide Good, ScanBack, InsertAt, Priorities, Insert, Ranked;
    forall i
      ensures Between(t.node, stamp, q, m, s.next, i)
    {
      NewBetween(s, stamp, task, priority, m, i);
    }
    InsertRanks(t.node, stamp, q, m, s.next);
  }

  lemma NewNode(s: State, stamp: Id -> nat, task: Task, priority: int, m: nat)
    requires Good(s, s.purgeId) && ServedBy(s, stamp) && m <= |s.pending|
    ensures var t := Insert(s, task, priority, m);
      && t.pending == InsertAt(s.pending, m, s.next) && s.next in t.node && Ranked(t.node, stamp, s.pending)
    ensures forall n | n in s.pending :: n in s.node
  {
    var t := Insert(s, task, priority, m);
    forall n | n in s.pending
      ensures n in s.node && n in t.node && t.node[n] == s.node[n]
    {
      var k :| 0 <= k < |s.pending| && s.pending[k] == n;
      PendingKnown(s, k);
    }
    hide Good;
    RankedFrame(stamp, s.node, t.node, s.pending);
  }

  lemma NewBetween(s: State, stamp: Id -> nat, task: Task, priority: int, m: nat, i: int)
    requires Good(s, s.purgeId) && ServedBy(s, stamp) && Stamped(s, stamp, stamp(s.next)) && m <= |s.pending|
    requires forall n | n in s.pending :: n in s.node
    requires m > 0 ==> Priorities(s, s.pending)[m - 1] >= priority
    requires forall k | m <= k < |s.pending| :: Priorities(s, s.pending)[k] < priority
    ensures Between(Insert(s, task, priority, m).node, stamp, s.pending, m, s.next, i)
  {
    var q := s.pending;
    if 0 <= i < |q| {
      PendingKnown(s, i);
      PriorityAt(s, i);
      PriorityAt(s, m - 1);
      assert i < m - 1 ==> RankedPair(s.node, stamp, q, i, m - 1);
      assert q[i] in q;
    }
    hide Good, Priorities, InsertAt, Ranked;
  }

  // ---------------------------------------------------------------- every other step

  lemma BeginRanked(s: State, stamp: Id -> nat, current: int)
    requires Good(s, current) && ServedBy(s, stamp) && s.pending != []
    ensures ServedBy(Begin(s), stamp)
  {
    hide Ranked, Distinct, LifeOf;
    TailRanked(s.node, stamp, s.pending);
    RankedFrame(stamp, s.node, Begin(s).node, s.pending[1..]);
  }

  lemma CheckQueueRanked(w: World, stamp: Id -> nat, t: nat)
    requires Inv(w) && t < |w.workers| && ServedBy(w.q, stamp)
    ensures ServedBy(CheckQueue(w, t).q, stamp)
  {
    hide Queued, Indexed, Coloured, Chronicled, Begin, Ranked;
    if w.q.running && w.q.pending != [] {
      BeginRanked(w.q, stamp, Current(w));
    }
  }

  lemma CompletedRanked(w: World, stamp: Id -> nat, t: nat, ok: bool)
    requires Inv(w) && t < |w.workers| && w.workers[t].Busy? && ServedBy(w.q, stamp)
    ensures w.workers[t].n in w.q.node && ServedBy(Completed(w, t, ok).q, stamp)
  {
    CompletedKeeps(w, t, ok);
    RankedFrame(stamp, w.q.node, Completed(w, t, ok).q.node, w.q.pending);
  }

  lemma FlushRanked(s: State, stamp: Id -> nat, current: int)
    requires Good(s, current) && ServedBy(s, stamp)
    ensures ServedBy(Flush(s), stamp)
  {
    hide Ranked, Flush;
    FlushExact(s, current);
    forall n | n in s.pending
      ensures n in s.node && n !in s.complete
    {
    }
    RankedFrame(stamp, s.node, Flush(s).node, s.pending);
  }

  lemma PurgeRanked(s: State, stamp: Id -> nat, current: int)
    requires Good(s, current) && ServedBy(s, stamp)
    ensures ServedBy(Purge(s), stamp)
  {
    hide Ranked, Distinct, Select, FinishAll, Chronicled, Indexed, Coloured;
    var stale := Select(s, s.pending, false, true);
    SelectFacts(s, s.pending, false, true);
    FinishAllGood(s, current, stale);
    FinishAllExact(s, stale);
    ExceptRanked(s.node, stamp, s.pending, set n | n in stale);
    ExceptMembers(s.pending, set n | n in stale);
    var p := PurgePending(s);
    RankedFrame(stamp, s.node, p.node, p.pending);
    MarkedRanked(p, stamp, current);
  }

  lemma MarkedRanked(p: State, stamp: Id -> nat, current: int)
    requires Good(p, current) && ServedBy(p, stamp)
    ensures Queued(Mark(p)) && ServedBy(PurgeComplete(Mark(p)), stamp)
  {
    hide Ranked, Distinct, Select, FinishAll, Chronicled, Indexed, Coloured;
    MarkQueued(p);
    var t := Mark(p);
    RankedFrame(stamp, p.node, t.node, t.pending);
    var done := Select(t, t.complete, true, true);
    SelectFacts(t, t.complete, true, true);
    FinishAllExact(t, done);
    FinishAllNodes(t, done);
    ExceptRanked(t.node, stamp, t.pending, set n | n in done);
    ExceptMembers(t.pending, set n | n in done);
    RankedFrame(stamp, t.node, PurgeComplete(t).node, PurgeComplete(t).pending);
  }

  lemma {:induction false} FinishAllNodes(s: State, ns: seq<Id>)
    requires Distinct(ns) && forall n | n in ns :: n in s.node
    ensures forall n | n in s.node && n !in ns :: n in FinishAll(s, ns).node && FinishAll(s, ns).node[n] == s.node[n]
    decreases |ns|
  {
    if ns != [] {
      DistinctTail(ns);
      FinishAllNodes(Drop(s, ns[0], Finish(ns[0], s.node[ns[0]].status)), ns[1..]);
    }
  }

  lemma ResumedRanked(w: World, stamp: Id -> nat)
    requires Inv(w) && Enabled(w, ClientResumes) && ServedBy(w.q, stamp)
    ensures ServedBy(Resumed(w).q, stamp)
  {
    hide Queued, Indexed, Coloured, Chronicled, WorkersFit, Ranked, Purge, Flush, Drop;
    match w.client
    case InWait(n, _, _) => DropRanked(w.q, stamp, n, Handed(n, w.q.node[n].status));
    case InCancel(n, _, _) => DropRanked(w.q, stamp, n, Handed(n, w.q.node[n].status));
    case InFinish(_) => FlushRanked(w.q, stamp, Current(w));
    case InReset(_, _) =>
    case InSweep(_) => PurgeRanked(w.q, stamp, Current(w));
    case Joining =>
      ColourBack(w.q, Current(w), PURGE);
      PurgeRanked(Colour(w.q, PURGE), stamp, Current(w));
    case _ =>
  }

  /** No step but a call of run can upset the order of service, whatever the stamps. */
  lemma OthersServe(w: World, stamp: Id -> nat, s: Step)
    requires Inv(w) && Enabled(w, s) && ServedBy(w.q, stamp) && !s.CallRun?
    ensures ServedBy(Next(w, s).q, stamp)
  {
    hide Queued, Indexed, Coloured, Chronicled, WorkersFit, Ranked, Purge, Flush, Drop, Run, CheckQueue, Resumed;
    match s
    case WorkerEnters(t) => CheckQueueRanked(w, stamp, t);
    case WorkerReturns(t, ok) =>
      CompletedKeeps(w, t, ok);
      CompletedRanked(w, stamp, t, ok);
      CheckQueueRanked(Completed(w, t, ok), stamp, t);
    case CallWait(task, _) =>
      if task in w.q.mapTask {
        IndexedTask(w.q, Current(w), task);
        var n := w.q.mapTask[task];
        DropRanked(w.q, stamp, n, Handed(n, w.q.node[n].status));
      }
    case CallCancel(task, _) =>
      if task in w.q.mapTask {
        IndexedTask(w.q, Current(w), task);
        var n := w.q.mapTask[task];
        DropRanked(w.q, stamp, n, Handed(n, w.q.node[n].status));
      }
    case CallPurge => PurgeRanked(w.q, stamp, Current(w));
    case CallFlush => FlushRanked(w.q, stamp, Current(w));
    case CallFinish => FlushRanked(w.q, stamp, Current(w));
    case CallReset(_) =>
      ColourBack(w.q, Current(w), PURGE);
      PurgeRanked(Colour(w.q, PURGE), stamp, Current(w));
    case ClientResumes => ResumedRanked(w, stamp);
    case _ =>
  }
}
