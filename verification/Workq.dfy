/** The work queue of cc_workq.c as an object: every mutex-held region changes its fields as the source does and is
    proved to make the change WorkqRegions describes. Queues hold the identities of their iterators; the store of
    nodes and the task index are maps the regions update. */
module Workq {
  import opened Lists
  import opened Queues
  import opened WorkqOrder
  import opened WorkqState
  import opened WorkqRegions

  datatype Which = OnPending | OnComplete

  /** Tracked nodes are queued by status, indexed by task, and older than the next one. */
  ghost predicate Fit(s: State) {
    Queued(s) && WorkqState.Indexed(s) && forall n | n in s.node :: n < s.next
  }

  class Workq {
    var running: bool
    var purgeId: int
    var pending: seq<Id>
    var active: seq<Id>
    var complete: seq<Id>
    var node: map<Id, Node>
    var mapTask: map<Task, Id>
    var next: Id
    ghost var log: seq<Event>
    ghost var recent: set<Id>

    /** The shared state on values. */
    ghost function Now(): State
      reads this
    {
      State(running, purgeId, pending, active, complete, node, mapTask, log, recent, next)
    }

    ghost predicate Valid()
      reads this
    {
      Fit(Now())
    }

    constructor ()
      ensures Valid() && Now() == State(true, 0, [], [], [], map[], map[], [], {}, 0)
    {
      running, purgeId := true, 0;
      pending, active, complete := [], [], [];
      node, mapTask, next := map[], map[], 0;
      log, recent := [], {};
    }

    /** removeLocked: takes the i-th iterator out of a queue and its node out of the index and out of memory. */
    method RemoveLocked(finish: bool, which: Which, i: nat)
      requires Valid()
      requires i < |if which == OnPending then pending else complete|
      modifies this
      ensures Valid()
      ensures var s, n := old(Now()), old(if which == OnPending then pending[i] else complete[i]);
        n in s.node &&
        Now() == Drop(s, n, if finish then Finish(n, s.node[n].status) else Handed(n, s.node[n].status))
    {
      hide Minus, Distinct, Fit, RemoveAt;
      ghost var s := Now();
      var n;
      TakenOut(s, which, i);
      if which == OnPending {
        n := pending[i];
        pending := RemoveAt(pending, i);
      } else {
        n := complete[i];
        complete := RemoveAt(complete, i);
      }
      var task := node[n].task;
      var status := node[n].status;
      mapTask := mapTask - {task};
      log := log + [if finish then Finish(n, status) else Handed(n, status)];
      node := node - {n};
      DropFit(s, n, if finish then Finish(n, status) else Handed(n, status));
      assert Now() == Drop(s, n, if finish then Finish(n, status) else Handed(n, status));
    }

    // -------------------------------------------------------------- the worker

    /** A worker takes the head of the pending queue. */
    method TakeTask() returns (n: Id)
      requires Valid() && pending != []
      modifies this
      ensures Valid() && n == old(pending[0]) && Now() == Begin(old(Now()))
    {
      hide Fit, Distinct;
      ghost var s := Now();
      n := pending[0];
      PendingKnown(n);
      pending := pending[1..];
      active := active + [n];
      node := node[n := node[n].(status := Active)];
      log := log + [Start(n)];
      BeginFit(s);
    }

    /** run_fn has returned: its task goes to the tail of the complete queue. */
    method CompleteTask(n: Id, ok: bool)
      requires Valid() && n in active
      modifies this
      ensures Valid() && Now() == Done(old(Now()), n, ok)
    {
      hide Fit, Distinct, Minus;
      ghost var s := Now();
      ActiveKnown(n);
      node := node[n := node[n].(status := if ok then Complete else Failure)];
      active := Minus(active, n);
      complete := complete + [n];
      log := log + [End(n, ok)];
      DoneFit(s, n, ok);
    }

    // -------------------------------------------------------------- flush and purge

    method FlushLocked()
      requires Valid()
      modifies this
      ensures Valid() && Now() == Flush(old(Now()))
    {
      hide Minus, Distinct;
      ghost var s := Now();
      while complete != []
        invariant Valid() && FinishAll(Now(), complete) == Flush(s)
        decreases |complete|
      {
        MinusHead(complete);
        RemoveLocked(true, OnComplete, 0);
      }
    }

    method PurgeLocked()
      requires Valid()
      modifies this
      ensures Valid() && Now() == Purge(old(Now()))
    {
      hide PurgePending, PurgeComplete, Mark, Fit;
      ghost var s := Now();
      FitQueued(s);
      PurgePendingQueue();
      FitQueued(Now());
      MarkActiveQueue();
      FitQueued(Now());
      PurgeCompleteQueue();
      SwapFit(Now());
      if purgeId != PURGE {
        purgeId := 1 - purgeId;
      }
      recent := {};
    }

    method PurgePendingQueue()
      requires Valid()
      modifies this
      ensures Valid() && Now() == PurgePending(old(Now()))
    {
      hide Minus, Distinct, FinishAll, Drop;
      ghost var s := Now();
      var i := 0;
      assert pending[0..] == pending;
      while i < |pending|
        invariant Valid() && i <= |pending| && Distinct(pending[i..])
        invariant PurgeRest(Now(), pending[i..], false) == PurgePending(s)
        decreases |pending| - i
      {
        ghost var t := Now();
        if node[pending[i]].purgeId != purgeId {
          RemoveLocked(true, OnPending, i);
          PurgeStepPending(t, i);
        } else {
          assert pending[i..][1..] == pending[i + 1..];
          DistinctTail(pending[i..]);
          i := i + 1;
        }
      }
      PurgeRestEmpty(Now(), pending[i..], false);
    }

    method MarkActiveQueue()
      requires Valid()
      modifies this
      ensures Valid() && Now() == Mark(old(Now()))
    {
      hide MarkedUpTo, Distinct;
      ghost var s := Now();
      MarkFit(s);
      MarkEnds(s);
      var i := 0;
      while i < |active|
        invariant i <= |s.active| && Now() == s.(node := MarkedUpTo(s, i))
      {
        MarkOne(s, i);
        if node[active[i]].purgeId != purgeId {
          node := node[active[i] := node[active[i]].(purgeId := PURGE)];
        }
        i := i + 1;
      }
      recent := if purgeId == PURGE then set n | n in recent && n !in active else recent;
    }

    method PurgeCompleteQueue()
      requires Valid()
      modifies this
      ensures Valid() && Now() == PurgeComplete(old(Now()))
    {
      hide Minus, Distinct, FinishAll, Drop;
      ghost var s := Now();
      var i := 0;
      assert complete[0..] == complete;
      while i < |complete|
        invariant Valid() && i <= |complete| && Distinct(complete[i..])
        invariant PurgeRest(Now(), complete[i..], true) == PurgeComplete(s)
        decreases |complete| - i
      {
        ghost var t := Now();
        if node[complete[i]].purgeId != purgeId || node[complete[i]].purgeId == PURGE {
          RemoveLocked(true, OnComplete, i);
          PurgeStepComplete(t, i);
        } else {
          assert complete[i..][1..] == complete[i + 1..];
          DistinctTail(complete[i..]);
          i := i + 1;
        }
      }
      PurgeRestEmpty(Now(), complete[i..], true);
    }

    // -------------------------------------------------------------- run

    /** Takes a new task in at its place, renews an active one, moves a pending one, hands a complete one back. */
    method Run(task: Task, priority: int, allocNode: bool, allocIter: bool, allocMap: bool) returns (status: Status)
      requires Valid()
      modifies this
      ensures Valid()
      ensures (Now(), status) == WorkqRegions.Run(old(Now()), task, priority, allocNode && allocIter && allocMap)
    {
      hide Insert, Renew, Reorder, Drop, MovedTo, ScanBack, Distinct;
      if task !in mapTask {
        var ok := Accept(task, priority, allocNode, allocIter, allocMap);
        return if ok then Pending else Error;
      }
      var n := mapTask[task];
      assert Placed(Now(), n);
      status := node[n].status;
      if status == Active {
        Refresh(n);
      } else if status == Pending {
        Requeue(n, priority);
      } else {
        RemoveLocked(false, OnComplete, Position(complete, n));
      }
    }

    /** Scans from the tail for the place of a new task. Whichever allocation fails, nothing is left of it. */
    method Accept(task: Task, priority: int, allocNode: bool, allocIter: bool, allocMap: bool) returns (ok: bool)
      requires Valid() && task !in mapTask
      modifies this
      ensures Valid() && ok == (allocNode && allocIter && allocMap)
      ensures var s := old(Now());
        Now() == if ok then Insert(s, task, priority, ScanBack(Priorities(s, s.pending), priority, |s.pending|)) else s
    {
      hide InsertAt, RemoveAt, Fit, ScanBack;
      ghost var s := Now();
      if !allocNode {
        return false;
      }
      var n := next;
      var pos := ScanTail(priority);
      if !allocIter {
        return false;
      }
      InsertFit(s, task, priority, pos + 1);
      InsertThenRemove(pending, pos + 1, n);
      if pos >= 0 {
        pending := InsertAt(pending, pos + 1, n);
      } else {
        pending := InsertAt(pending, 0, n);
      }
      if !allocMap {
        pending := RemoveAt(pending, pos + 1);
        return false;
      }
      mapTask := mapTask[task := n];
      node := node[n := Node(Pending, priority, purgeId, task)];
      next := next + 1;
      log := log + [WorkqState.Accept(n)];
      recent := recent + {n};
      return true;
    }

    /** The last position whose priority is not below the given one, or -1. */
    method ScanTail(priority: int) returns (pos: int)
      requires Valid()
      ensures -1 <= pos < |pending|
      ensures pos + 1 == ScanBack(Priorities(Now(), pending), priority, |pending|)
    {
      ghost var prio := Priorities(Now(), pending);
      pos := |pending| - 1;
      while pos >= 0
        invariant -1 <= pos < |pending|
        invariant ScanBack(prio, priority, pos + 1) == ScanBack(prio, priority, |pending|)
      {
        if node[pending[pos]].priority >= priority {
          break;
        }
        pos := pos - 1;
      }
    }

    method Refresh(n: Id)
      requires Valid() && n in node
      modifies this
      ensures Valid() && Now() == Renew(old(Now()), n)
    {
      RenewFit(Now(), n);
      node := node[n := node[n].(purgeId := purgeId)];
      recent := recent + {n};
    }

    /** Moves a pending task as the source does: both scans compare with the priority the task had so far. */
    method Requeue(n: Id, priority: int)
      requires Valid() && n in pending
      modifies this
      ensures Valid()
      ensures var s := old(Now());
        var k := Position(s.pending, n);
        Now() == Reorder(Renew(s, n), k, MovedTo(Priorities(s, s.pending), k, priority), priority)
    {
      hide MoveAt, Distinct, ScanBack, ScanOn, Position, Fit, Valid;
      ghost var s := Now();
      PendingKnown(n);
      var k := Position(pending, n);
      Refresh(n);
      RenewPriorities(s, n, pending);
      Reposition(k, priority);
    }

    lemma ActiveKnown(n: Id)
      requires Valid() && n in active
      ensures n in node
    {}

    lemma PendingKnown(n: Id)
      requires Valid() && n in pending
      ensures n in node && forall m | m in pending :: m in node
    {
      PendingInNode(Now(), n);
    }

    method Reposition(k: nat, priority: int)
      requires Valid() && k < |pending|
      modifies this
      ensures Valid()
      ensures var s := old(Now()); Now() == Reorder(s, k, MovedTo(Priorities(s, s.pending), k, priority), priority)
    {
      hide MoveAt, Distinct, ScanBack, ScanOn;
      ghost var s := Now();
      var n := pending[k];
      PendingInNode(s, n);
      MoveNowhere(pending, k);
      ReorderFit(s, k, MovedTo(Priorities(s, pending), k, priority), priority);
      hide Fit;
      if priority > node[n].priority {
        var m := ScanUp(k);
        pending := MoveAt(pending, k, m);
      } else if priority < node[n].priority {
        var m := ScanDown(k);
        pending := MoveAt(pending, k, m);
      }
      node := node[n := node[n].(priority := priority)];
    }

    /** Where "move up" puts the iterator at position k: behind the position found, or at the head. */
    method ScanUp(k: nat) returns (m: nat)
      requires k < |pending| && forall n | n in pending :: n in node
      ensures m == ScanBack(Priorities(Now(), pending), node[pending[k]].priority, k) && m <= k
    {
      ghost var prio := Priorities(Now(), pending);
      var pos := k - 1;
      while pos >= 0
        invariant -1 <= pos < k
        invariant ScanBack(prio, prio[k], pos + 1) == ScanBack(prio, prio[k], k)
      {
        if node[pending[pos]].priority >= node[pending[k]].priority {
          return pos + 1;
        }
        pos := pos - 1;
      }
      return 0;
    }

    /** Where "move down" puts the iterator at position k: in front of the position found, or at the tail. */
    method ScanDown(k: nat) returns (m: nat)
      requires k < |pending| && forall n | n in pending :: n in node
      ensures m == ScanOn(Priorities(Now(), pending), node[pending[k]].priority, k + 1) - 1 && m < |pending|
    {
      ghost var prio := Priorities(Now(), pending);
      var pos := k + 1;
      while pos < |pending|
        invariant k < pos <= |pending|
        invariant ScanOn(prio, prio[k], pos) == ScanOn(prio, prio[k], k + 1)
      {
        if node[pending[pos]].priority < node[pending[k]].priority {
          return pos - 1;
        }
        pos := pos + 1;
      }
      return |pending| - 1;
    }

    // -------------------------------------------------------------- the regions of wait, cancel, finish and reset

    /** One look at a task being waited for: go to sleep, give up, or take its node and its status. When it gives up,
        the status of node n is read later, without the mutex. */
    method WaitRegion(task: Task, blocking: bool) returns (sleep: bool, later: bool, n: Id, status: Status)
      requires Valid()
      modifies this
      ensures Valid()
      ensures task !in old(mapTask) ==> !sleep && !later && status == Error && Now() == old(Now())
      ensures task in old(mapTask) ==>
        n == old(mapTask[task]) && n in old(node) && var was := old(node)[n].status;
        if was == Pending || was == Active then sleep == blocking && later == !blocking && Now() == old(Now())
        else !sleep && !later && status == was && Now() == Take(old(Now()), n).0
    {
      hide Distinct, Drop;
      if task !in mapTask {
        return false, false, 0, Error;
      }
      n := mapTask[task];
      assert Placed(Now(), n);
      status := node[n].status;
      if status == Pending || status == Active {
        return blocking, !blocking, n, Error;
      }
      RemoveLocked(false, OnComplete, Position(complete, n));
      sleep, later := false, false;
    }

    /** One look at a task being cancelled: only an active one makes the caller wait. */
    method CancelRegion(task: Task, blocking: bool) returns (sleep: bool, later: bool, n: Id, status: Status)
      requires Valid()
      modifies this
      ensures Valid()
      ensures task !in old(mapTask) ==> !sleep && !later && status == Error && Now() == old(Now())
      ensures task in old(mapTask) ==>
        n == old(mapTask[task]) && n in old(node) && var was := old(node)[n].status;
        if was == Active then sleep == blocking && later == !blocking && Now() == old(Now())
        else !sleep && !later && status == was && Now() == Take(old(Now()), n).0
    {
      hide Distinct, Drop;
      if task !in mapTask {
        return false, false, 0, Error;
      }
      n := mapTask[task];
      assert Placed(Now(), n);
      status := node[n].status;
      if status == Active {
        return blocking, !blocking, n, Error;
      }
      sleep, later := false, false;
      if status == Pending {
        RemoveLocked(false, OnPending, Position(pending, n));
      } else {
        RemoveLocked(false, OnComplete, Position(complete, n));
      }
    }

    /** One round of finish: flush what is complete, and sleep while anything is pending or active. */
    method FinishRegion() returns (sleep: bool)
      requires Valid()
      modifies this
      ensures Valid() && Now() == Flush(old(Now()))
      ensures sleep <==> Now().pending != [] || Now().active != []
    {
      if complete != [] {
        FlushLocked();
      }
      sleep := pending != [] || active != [];
    }

    /** reset saves the purge id, forces it and purges. */
    method ResetRegion() returns (saved: int)
      requires Valid()
      modifies this
      ensures Valid() && saved == old(purgeId) && Now() == Purge(Colour(old(Now()), PURGE))
    {
      saved := purgeId;
      ColourFit(Now(), PURGE);
      purgeId := PURGE;
      PurgeLocked();
    }
  }

  lemma InsertThenRemove<X>(s: seq<X>, k: nat, x: X)
    requires k <= |s|
    ensures |InsertAt(s, k, x)| == |s| + 1 && RemoveAt(InsertAt(s, k, x), k) == s
  {
  }

  lemma InsertFit(s: State, task: Task, priority: int, k: nat)
    requires Fit(s) && k <= |s.pending| && task !in s.mapTask
    ensures Fit(Insert(s, task, priority, k))
  {
    InsertQueued(s, task, priority, k);
    hide Queued, InsertAt;
  }

  lemma RenewFit(s: State, n: Id)
    requires Fit(s) && n in s.node
    ensures Fit(Renew(s, n))
  {
    RenewQueued(s, n);
    hide Queued;
  }

  lemma RenewPriorities(s: State, n: Id, q: seq<Id>)
    requires n in s.node && forall m | m in q :: m in s.node
    ensures Priorities(Renew(s, n), q) == Priorities(s, q)
  {
  }

  lemma ReorderFit(s: State, k: nat, m: nat, priority: int)
    requires Fit(s) && k < |s.pending| && m < |s.pending| && s.pending[k] in s.node
    ensures Fit(Reorder(s, k, m, priority))
  {
    ReorderQueued(s, k, m, priority);
    hide Queued, MoveAt;
  }

  lemma ColourFit(s: State, purgeId: int)
    requires Fit(s)
    ensures Fit(Colour(s, purgeId))
  {
    hide Distinct;
  }

  lemma PendingInNode(s: State, n: Id)
    requires Queued(s) && n in s.pending
    ensures n in s.node && forall m | m in s.pending :: m in s.node
  {
  }

  // ---------------------------------------------------------------- what the loops need

  lemma {:induction false} MinusAbsent<X>(s: seq<X>, x: X)
    requires x !in s
    ensures Minus(s, x) == s
  {
    if s != [] {
      MinusAbsent(s[1..], x);
    }
  }

  /** Taking an iterator out of its queue takes it out wherever it could be. */
  lemma TakenOut(s: State, which: Which, i: nat)
    requires Fit(s) && i < |if which == OnPending then s.pending else s.complete|
    ensures var n := if which == OnPending then s.pending[i] else s.complete[i];
      && n in s.node && (n in s.pending || n in s.complete)
      && Minus(s.pending, n) == (if which == OnPending then RemoveAt(s.pending, i) else s.pending)
      && Minus(s.complete, n) == if which == OnPending then s.complete else RemoveAt(s.complete, i)
  {
    var n := if which == OnPending then s.pending[i] else s.complete[i];
    hide Minus, Distinct, RemoveAt;
    if which == OnPending {
      MinusAt(s.pending, i);
      MinusAbsent(s.complete, n);
    } else {
      MinusAt(s.complete, i);
      MinusAbsent(s.pending, n);
    }
  }

  lemma DropFit(s: State, n: Id, e: Event)
    requires Fit(s) && n in s.node && (n in s.pending || n in s.complete)
    ensures Fit(Drop(s, n, e))
  {
    DropKeepsQueues(s, n, e);
    hide Queued, Minus;
  }

  lemma BeginFit(s: State)
    requires Fit(s) && s.pending != []
    ensures Fit(Begin(s))
  {
    BeginQueued(s);
    assert s.pending[0] in s.node;
    hide Queued;
  }

  lemma DoneFit(s: State, n: Id, ok: bool)
    requires Fit(s) && n in s.active
    ensures Fit(Done(s, n, ok))
  {
    DoneQueued(s, n, ok);
    assert n in s.node;
    hide Queued, Minus;
  }

  lemma MarkFit(s: State)
    requires Fit(s)
    ensures Fit(Mark(s))
  {
    MarkQueued(s);
    hide Queued;
  }

  lemma FitQueued(s: State)
    requires Fit(s)
    ensures Queued(s)
  {
  }

  lemma SwapFit(s: State)
    requires Fit(s)
    ensures Fit(Swap(s))
  {
    hide Distinct;
  }

  ghost function MarkedUpTo(s: State, i: nat): map<Id, Node>
    requires i <= |s.active|
  {
    map n | n in s.node ::
      if n in s.active[..i] && s.node[n].purgeId != s.purgeId then s.node[n].(purgeId := PURGE) else s.node[n]
  }

  lemma MarkEnds(s: State)
    requires Queued(s)
    ensures MarkedUpTo(s, 0) == s.node && MarkedUpTo(s, |s.active|) == Mark(s).node
  {
    assert s.active[..|s.active|] == s.active;
  }

  lemma MarkOne(s: State, i: nat)
    requires Queued(s) && i < |s.active|
    ensures var n, m := s.active[i], MarkedUpTo(s, i);
      n in s.node && n in m && m[n] == s.node[n] &&
      MarkedUpTo(s, i + 1) == if s.node[n].purgeId != s.purgeId then m[n := m[n].(purgeId := PURGE)] else m
  {
    var n := s.active[i];
    assert n !in s.active[..i] by {
      Apart(s.active, i);
    }
    assert s.active[..i + 1] == s.active[..i] + [n];
  }

  /** What a purge still does to a queue of which q is left to look at. */
  ghost function PurgeRest(s: State, q: seq<Id>, marked: bool): State
    requires Distinct(q) && forall n | n in q :: n in s.node
  {
    SelectFacts(s, q, marked, true);
    FinishAll(s, Select(s, q, marked, true))
  }

  lemma PurgeRestEmpty(s: State, q: seq<Id>, marked: bool)
    requires q == []
    ensures Distinct(q) && PurgeRest(s, q, marked) == s
  {
  }

  /** Dropping a stale node at position i leaves the rest of the loop to do what it would have done. */
  lemma PurgeStepPending(s: State, i: nat)
    requires Queued(s) && i < |s.pending| && Stale(s, s.pending[i], false)
    ensures var n := s.pending[i];
      var t := Drop(s, n, Finish(n, s.node[n].status));
      && Queued(t) && |t.pending| == |s.pending| - 1 && i <= |t.pending|
      && Distinct(t.pending[i..]) && Distinct(s.pending[i..])
      && PurgeRest(s, s.pending[i..], false) == PurgeRest(t, t.pending[i..], false)
  {
    hide Minus, Distinct;
    var n := s.pending[i];
    var t := Drop(s, n, Finish(n, s.node[n].status));
    DropKeepsQueues(s, n, Finish(n, s.node[n].status));
    MinusAt(s.pending, i);
    assert t.pending[i..] == s.pending[i..][1..];
    DistinctDrop(s.pending, i);
    DistinctTail(s.pending[i..]);
    MinusFacts(s.pending, n);
    SelectSame(s, t, s.pending[i..][1..], false);
  }

  lemma PurgeStepComplete(s: State, i: nat)
    requires Queued(s) && i < |s.complete| && Stale(s, s.complete[i], true)
    ensures var n := s.complete[i];
      var t := Drop(s, n, Finish(n, s.node[n].status));
      && Queued(t) && |t.complete| == |s.complete| - 1 && i <= |t.complete|
      && Distinct(t.complete[i..]) && Distinct(s.complete[i..])
      && PurgeRest(s, s.complete[i..], true) == PurgeRest(t, t.complete[i..], true)
  {
    hide Minus, Distinct;
    var n := s.complete[i];
    var t := Drop(s, n, Finish(n, s.node[n].status));
    DropKeepsQueues(s, n, Finish(n, s.node[n].status));
    MinusAt(s.complete, i);
    assert t.complete[i..] == s.complete[i..][1..];
    DistinctDrop(s.complete, i);
    DistinctTail(s.complete[i..]);
    MinusFacts(s.complete, n);
    SelectSame(s, t, s.complete[i..][1..], true);
  }

  lemma DistinctDrop<X>(s: seq<X>, i: nat)
    requires Distinct(s) && i <= |s|
    ensures Distinct(s[i..])
  {
    forall j, k
      ensures Differ(s[i..], j, k)
    {
      assert Differ(s, i + j, i + k);
    }
  }

  lemma {:induction false} SelectSame(s: State, t: State, q: seq<Id>, marked: bool)
    requires s.purgeId == t.purgeId
    requires forall n | n in q :: n in s.node && n in t.node && t.node[n] == s.node[n]
    ensures Select(s, q, marked, true) == Select(t, q, marked, true)
  {
    if q != [] {
      assert q[0] in q;
      SelectSame(s, t, q[1..], marked);
    }
  }
}
