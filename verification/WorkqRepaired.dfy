/** What cc_workq_run would do if its two scans compared with the new priority: over every run the pending queue is in
    order of priority, and first come first served among equals, where a changed priority counts as a new arrival. */
module WorkqRepaired {
  import opened Lists
  import opened Queues
  import opened WorkqOrder
  import opened WorkqState
  import opened WorkqRegions
  import opened WorkqProtocol
  import opened WorkqService
  import opened WorkqRanking

  predicate IsPending(s: State, task: Task)
    requires Indexed(s)
  {
    task in s.mapTask && s.node[s.mapTask[task]].status == Pending
  }

  /** cc_workq_run with both scans comparing with the new priority; nothing else is different. */
  function RunNew(s: State, task: Task, priority: int, alloc: bool): State
    requires Queued(s) && Indexed(s)
  {
    if IsPending(s, task) then
      var n := s.mapTask[task];
      var k := Position(s.pending, n);
      Reorder(Renew(s, n), k, MovedToNew(Priorities(s, s.pending), k, priority), priority)
    else Run(s, task, priority, alloc).0
  }

  /** The world with a clock and the time of each node's last arrival. */
  datatype Clocked = Clocked(w: World, stamp: Id -> nat, now: nat)

  function Stamp(stamp: Id -> nat, n: Id, now: nat): Id -> nat { m => if m == n then now else stamp(m) }

  /** A call of run makes its node arrive when the task is taken in, or is pending and gets another priority. */
  predicate Arrives(s: State, task: Task, priority: int, alloc: bool)
    requires Indexed(s)
  {
    if task in s.mapTask then IsPending(s, task) && s.node[s.mapTask[task]].priority != priority else alloc
  }

  function Arriver(s: State, task: Task): Id { if task in s.mapTask then s.mapTask[task] else s.next }

  function StampNew(c: Clocked, s: Step): Id -> nat
    requires Inv(c.w)
  {
    if s.CallRun? && Arrives(c.w.q, s.task, s.priority, s.alloc) then Stamp(c.stamp, Arriver(c.w.q, s.task), c.now)
    else c.stamp
  }

  function SubmittedNew(w: World, task: Task, priority: int, alloc: bool): World
    requires Inv(w)
  {
    Submitted(w, task, priority, alloc).(q := RunNew(w.q, task, priority, alloc))
  }

  /** A step of the queue as it would be then. */
  function NextNew(c: Clocked, s: Step): Clocked
    requires Inv(c.w) && Enabled(c.w, s)
  {
    Clocked(if s.CallRun? then SubmittedNew(c.w, s.task, s.priority, s.alloc) else Next(c.w, s),
            StampNew(c, s), c.now + 1)
  }

  // ---------------------------------------------------------------- the place of a task with a new priority

  /** Counted among the others, those in front of the new place have the new priority or a higher one, those behind it
      have a lower one. */
  ghost predicate Splits(prio: seq<int>, k: int, m: int, p: int, i: int) {
    0 <= i < |prio| - 1 && 0 <= k < |prio| ==>
      if i < m then prio[if i < k then i else i + 1] >= p else prio[if i < k then i else i + 1] < p
  }

  lemma NewPlaceSplits(prio: seq<int>, k: nat, p: int)
    requires Descending(prio) && k < |prio| && p != prio[k]
    ensures forall i :: Splits(prio, k, MovedToNew(prio, k, p), p, i)
  {
    if p > prio[k] {
      ScanBackFinds(prio, p, k);
    } else {
      ScanOnFinds(prio, p, k + 1);
    }
    hide ScanBack, ScanOn;
  }

  /** Of two stampings the second differs at n alone, and gives it a later stamp than any other pending node has. */
  ghost predicate Restamped(s: State, a: Id -> nat, b: Id -> nat, n: Id) {
    (forall m | m != n :: a(m) == b(m)) && forall m | m in s.pending && m != n :: a(m) < b(n)
  }

  /** The others keep their ranks when n is taken out of the queue and given another priority and stamp. */
  lemma RestRanked(s: State, a: Id -> nat, b: Id -> nat, k: nat, p: int)
    requires Queued(s) && ServedBy(s, a) && k < |s.pending| && Restamped(s, a, b, s.pending[k])
    ensures Ranked(Repriced(s, s.pending[k], p), b, RemoveAt(s.pending, k))
  {
    var q, n := s.pending, s.pending[k];
    Apart(q, k);
    hide Distinct, Ranked, Queued;
    forall i, j
      ensures RankedPair(Repriced(s, n, p), b, RemoveAt(q, k), i, j)
    {
      RankedAt(s, a, if i < k then i else i + 1, if j < k then j else j + 1);
    }
  }

  lemma RankedAt(s: State, stamp: Id -> nat, i: int, j: int)
    requires ServedBy(s, stamp)
    ensures RankedPair(s.node, stamp, s.pending, i, j)
  {
  }

  /** Submitted again with another priority and a later stamp, a pending task takes its place in the order of
      service. */
  lemma ResubmitNewServed(s: State, a: Id -> nat, b: Id -> nat, n: Id, p: int)
    requires Queued(s) && ServedBy(s, a) && n in s.pending && n in s.node && Restamped(s, a, b, n)
    requires p != s.node[n].priority
    ensures var k := Position(s.pending, n);
      ServedBy(Reorder(Renew(s, n), k, MovedToNew(Priorities(s, s.pending), k, p), p), b)
  {
    var q, k, prio := s.pending, Position(s.pending, n), Priorities(s, s.pending);
    var m := MovedToNew(prio, k, p);
    var t, rest := Reorder(Renew(s, n), k, m, p), RemoveAt(q, k);
    assert t.pending == InsertAt(rest, m, n) && t.node == Repriced(s, n, p);
    QueuedKnown(s);
    ServedDescends(s, a);
    RestRanked(s, a, b, k, p);
    PriorityAt(s, k);
    NewPlaceSplits(prio, k, p);
    hide Queued, Distinct, Ranked, MovedToNew, Reorder, Renew, RemoveAt, InsertAt, Position, Priorities, Splits;
    RemoveLength(q, k);
    forall i
      ensures Between(t.node, b, rest, m, n, i)
    {
      assert Splits(prio, k, m, p, i);
      RestBetween(s, a, b, k, m, p, i);
    }
    InsertRanks(t.node, b, rest, m, n);
  }

  lemma RemoveLength(q: seq<Id>, k: nat)
    requires k < |q|
    ensures |RemoveAt(q, k)| == |q| - 1
  {
  }

  lemma RestBetween(s: State, a: Id -> nat, b: Id -> nat, k: nat, m: nat, p: int, i: int)
    requires Distinct(s.pending) && k < |s.pending| && Restamped(s, a, b, s.pending[k])
    requires forall n | n in s.pending :: n in s.node
    requires Splits(Priorities(s, s.pending), k, m, p, i)
    ensures Between(Repriced(s, s.pending[k], p), b, RemoveAt(s.pending, k), m, s.pending[k], i)
  {
    var q := s.pending;
    if 0 <= i < |q| - 1 {
      var j := if i < k then i else i + 1;
      assert RemoveAt(q, k)[i] == q[j] && q[j] in q;
      PriorityAt(s, j);
      Apart(q, k);
    }
    hide Priorities, Distinct;
  }

  // ---------------------------------------------------------------- a call of run

  lemma StampsFit(s: State, stamp: Id -> nat, n: Id, now: nat)
    requires forall m :: stamp(m) < now
    ensures Restamped(s, stamp, Stamp(stamp, n, now), n) && forall m :: Stamp(stamp, n, now)(m) <= now
  {
  }

  /** Every call of the repaired run keeps the order of service. */
  lemma RunNewServed(s: State, stamp: Id -> nat, now: nat, task: Task, priority: int, alloc: bool)
    requires Good(s, s.purgeId) && ServedBy(s, stamp) && forall m :: stamp(m) < now
    ensures ServedBy(RunNew(s, task, priority, alloc),
                     if Arrives(s, task, priority, alloc) then Stamp(stamp, Arriver(s, task), now) else stamp)
  {
    hide Ranked, Distinct, Drop, Insert, Chronicled, Coloured, Restamped, MoveAt, Position, MovedToNew;
    var n := Arriver(s, task);
    var b := Stamp(stamp, n, now);
    StampsFit(s, stamp, n, now);
    if task !in s.mapTask {
      if alloc {
        NewServed(s, stamp, now, task, priority);
      }
    } else {
      assert Placed(s, n);
      if s.node[n].status == Active {
        RankedFrame(stamp, s.node, Renew(s, n).node, s.pending);
      } else if s.node[n].status == Pending {
        if s.node[n].priority == priority {
          SamePriority(s, stamp, n);
        } else {
          ResubmitNewServed(s, stamp, b, n, priority);
        }
      } else {
        DropRanked(s, stamp, n, Handed(n, s.node[n].status));
      }
    }
  }

  lemma NewServed(s: State, stamp: Id -> nat, now: nat, task: Task, priority: int)
    requires Good(s, s.purgeId) && ServedBy(s, stamp) && forall m :: stamp(m) < now
    ensures ServedBy(Insert(s, task, priority, ScanBack(Priorities(s, s.pending), priority, |s.pending|)),
                     Stamp(stamp, s.next, now))
  {
    var b := Stamp(stamp, s.next, now);
    forall n | n in s.pending
      ensures n in s.node && n != s.next
    {
      var k :| 0 <= k < |s.pending| && s.pending[k] == n;
      PendingKnown(s, k);
    }
    hide Good, Insert, ScanBack;
    forall i, j
      ensures RankedPair(s.node, b, s.pending, i, j)
    {
      RankedAt(s, stamp, i, j);
    }
    InsertServed(s, b, task, priority);
  }

  lemma SamePriority(s: State, stamp: Id -> nat, n: Id)
    requires Queued(s) && ServedBy(s, stamp) && n in s.pending && n in s.node
    ensures var k, p := Position(s.pending, n), s.node[n].priority;
      ServedBy(Reorder(Renew(s, n), k, MovedToNew(Priorities(s, s.pending), k, p), p), stamp)
  {
    var k, p := Position(s.pending, n), s.node[n].priority;
    MoveNowhere(s.pending, k);
    PriorityAt(s, k);
    hide Ranked, Distinct, MoveAt, Position;
    RankedFrame(stamp, s.node, Reorder(Renew(s, n), k, k, p).node, s.pending);
  }

  lemma RunNewGood(s: State, task: Task, priority: int, alloc: bool)
    requires Good(s, s.purgeId)
    ensures var r := RunNew(s, task, priority, alloc);
      && Good(r, s.purgeId) && r.active == s.active && r.running == s.running && r.purgeId == s.purgeId
      && (task in s.mapTask || !alloc ==> s.pending == [] ==> r.pending == [])
  {
    if IsPending(s, task) {
      var n := s.mapTask[task];
      assert Placed(s, n);
      RenewGood(s, n);
      var k := Position(s.pending, n);
      hide Good, MovedToNew, Position;
      ReorderGood(Renew(s, n), k, MovedToNew(Priorities(s, s.pending), k, priority), priority);
    } else {
      RunGood(s, task, priority, alloc);
      RunFrame(s, task, priority, alloc);
    }
  }

  lemma SubmittedNewKeeps(w: World, task: Task, priority: int, alloc: bool)
    requires Inv(w) && w.client == Idle
    ensures Inv(SubmittedNew(w, task, priority, alloc))
  {
    RunNewGood(w.q, task, priority, alloc);
    hide Good, RunNew, Run, Queued, Indexed;
    if task !in w.q.mapTask && alloc {
      BroadcastFits(w.q, SubmittedNew(w, task, priority, alloc).q, w.workers);
    } else {
      WorkersStayFit(w.q, SubmittedNew(w, task, priority, alloc).q, w.workers);
    }
  }

  // ---------------------------------------------------------------- every run

  ghost predicate InvNew(c: Clocked) {
    Inv(c.w) && ServedBy(c.w.q, c.stamp) && forall m :: c.stamp(m) < c.now
  }

  /** Every step of every thread keeps the order of service. */
  lemma NextNewKeeps(c: Clocked, s: Step)
    requires InvNew(c) && Enabled(c.w, s)
    ensures InvNew(NextNew(c, s))
  {
    StampsEarlier(c, s);
    hide Inv, Next, ServedBy, StampNew, Enabled, SubmittedNew;
    if s.CallRun? {
      CallNewServes(c, s);
    } else {
      NextKeeps(c.w, s);
      OthersServe(c.w, c.stamp, s);
      StampKept(c, s);
    }
  }

  lemma StampsEarlier(c: Clocked, s: Step)
    requires Inv(c.w) && forall m :: c.stamp(m) < c.now
    ensures forall m :: StampNew(c, s)(m) < c.now + 1
  {
    hide Inv;
  }

  lemma StampKept(c: Clocked, s: Step)
    requires Inv(c.w) && !s.CallRun?
    ensures StampNew(c, s) == c.stamp
  {
    hide Inv;
  }

  lemma CallNewServes(c: Clocked, s: Step)
    requires InvNew(c) && Enabled(c.w, s) && s.CallRun?
    ensures Inv(SubmittedNew(c.w, s.task, s.priority, s.alloc))
    ensures ServedBy(SubmittedNew(c.w, s.task, s.priority, s.alloc).q, StampNew(c, s))
  {
    SubmittedNewKeeps(c.w, s.task, s.priority, s.alloc);
    IdleGood(c.w);
    hide Inv, Good, RunNew, ServedBy, Arrives;
    RunNewServed(c.w.q, c.stamp, c.now, s.task, s.priority, s.alloc);
  }

  lemma IdleGood(w: World)
    requires Inv(w) && w.client == Idle
    ensures Good(w.q, w.q.purgeId)
  {
  }

  function PlayNew(c: Clocked, steps: seq<Step>): (d: Clocked)
    requires InvNew(c)
    ensures InvNew(d)
    decreases |steps|
  {
    if steps == [] then c
    else if Enabled(c.w, steps[0]) then
      NextNewKeeps(c, steps[0]);
      PlayNew(NextNew(c, steps[0]), steps[1..])
    else PlayNew(c, steps[1..])
  }

  function Start(workers: nat): Clocked { Clocked(Initial(workers), _ => 0, 1) }

  lemma StartFits(workers: nat)
    ensures InvNew(Start(workers))
  {
    InitialFits(workers);
  }

  /** Over every run, whatever is submitted again and how, the task a worker takes next is the one of highest priority
      that arrived first. */
  lemma EveryRunServes(workers: nat, steps: seq<Step>, n: Id)
    ensures InvNew(Start(workers))
    ensures var c := PlayNew(Start(workers), steps);
      ServedBy(c.w.q, c.stamp) &&
      (n in c.w.q.pending && n != c.w.q.pending[0] ==> Ahead(c.w.q.node, c.stamp, c.w.q.pending[0], n))
  {
    StartFits(workers);
    hide Inv, PlayNew, Start;
    var c := PlayNew(Start(workers), steps);
    if n in c.w.q.pending {
      var j :| 0 <= j < |c.w.q.pending| && c.w.q.pending[j] == n;
      RankedAt(c.w.q, c.stamp, 0, j);
    }
  }

  // ---------------------------------------------------------------- and by age of the task alone

  /** Were equals to be served by the age of their tasks, whatever became of their priorities, the repaired call would
      upset that order exactly when the pending task gets the priority of a younger one. */
  lemma RunNewById(s: State, task: Task, priority: int, alloc: bool)
    requires Good(s, s.purgeId) && Served(s)
    ensures Served(RunNew(s, task, priority, alloc)) <==>
      (IsPending(s, task) && s.node[s.mapTask[task]].priority != priority ==>
         forall m | m in s.pending && m > s.mapTask[task] :: m in s.node && s.node[m].priority != priority)
  {
    hide Ranked, Chronicled, Coloured, RunNew;
    if IsPending(s, task) && s.node[s.mapTask[task]].priority != priority {
      var n := s.mapTask[task];
      assert Placed(s, n);
      PendingIds(s);
      ByIdAfter(s, task, priority, alloc);
    } else {
      assert task in s.mapTask ==> Placed(s, s.mapTask[task]);
      SameById(s, task, priority, alloc);
    }
  }

  lemma PendingIds(s: State)
    requires Good(s, s.purgeId)
    ensures forall m | m in s.pending :: m in s.node && m < s.next
  {
    forall m | m in s.pending
      ensures m in s.node && m < s.next
    {
      var k :| 0 <= k < |s.pending| && s.pending[k] == m;
      PendingKnown(s, k);
    }
  }

  lemma SameById(s: State, task: Task, priority: int, alloc: bool)
    requires Good(s, s.purgeId) && Served(s)
    requires IsPending(s, task) ==> s.node[s.mapTask[task]].priority == priority
    ensures Served(RunNew(s, task, priority, alloc))
  {
    if IsPending(s, task) {
      assert Placed(s, s.mapTask[task]);
      hide Ranked, Good;
      SamePriority(s, ById, s.mapTask[task]);
    } else {
      NotPending(s, task);
      hide Ranked, Good;
      RunServed(s, task, priority, alloc);
    }
  }

  lemma NotPending(s: State, task: Task)
    requires Queued(s) && Indexed(s) && !IsPending(s, task)
    ensures task in s.mapTask ==> s.mapTask[task] !in s.pending
  {
  }

  lemma ByIdAfter(s: State, task: Task, p: int, alloc: bool)
    requires Queued(s) && Indexed(s) && Served(s) && IsPending(s, task) && s.mapTask[task] in s.pending
    requires s.node[s.mapTask[task]].priority != p && forall m | m in s.pending :: m in s.node && m < s.next
    ensures Served(RunNew(s, task, p, alloc)) <==>
      forall m | m in s.pending && m > s.mapTask[task] :: s.node[m].priority != p
  {
    var n, k := s.mapTask[task], Position(s.pending, s.mapTask[task]);
    var b := Stamp(ById, n, s.next);
    var t := RunNew(s, task, p, alloc);
    ResubmitNewServed(s, ById, b, n, p);
    var m := MovedToNew(Priorities(s, s.pending), k, p);
    MoveAtMembers(s.pending, k, m);
    assert t.pending == MoveAt(s.pending, k, m) && t.node == Repriced(s, n, p);
    hide RunNew, Queued, Indexed, MovedToNew, MoveAt, Position, Distinct, Ranked, Repriced, Priorities;
    RepricedAt(s, n, p);
    StampsById(t, n, s.next);
  }

  lemma RepricedAt(s: State, n: Id, p: int)
    requires n in s.node
    ensures Repriced(s, n, p).Keys == s.node.Keys && Repriced(s, n, p)[n].priority == p
    ensures forall m | m in s.node && m != n :: Repriced(s, n, p)[m] == s.node[m]
  {
  }

  /** With n the latest of all, the order by age is the same but for those n now stands behind. */
  lemma StampsById(t: State, n: Id, now: nat)
    requires ServedBy(t, Stamp(ById, n, now)) && n in t.pending && n in t.node
    requires forall m | m in t.pending :: m in t.node && m < now
    ensures Served(t) <==> forall m | m in t.pending && m > n :: t.node[m].priority != t.node[n].priority
  {
    var b, q := Stamp(ById, n, now), t.pending;
    var k :| 0 <= k < |q| && q[k] == n;
    if Served(t) {
      forall m | m in q && m > n
        ensures t.node[m].priority != t.node[n].priority
      {
        var i :| 0 <= i < |q| && q[i] == m;
        RankedAt(t, b, i, k);
        RankedAt(t, b, k, i);
        RankedAt(t, ById, i, k);
        RankedAt(t, ById, k, i);
      }
    }
    if forall m | m in q && m > n :: t.node[m].priority != t.node[n].priority {
      hide Ranked;
      forall i, j
        ensures RankedPair(t.node, ById, q, i, j)
      {
        RankedAt(t, b, i, j);
        assert 0 <= i < |q| ==> q[i] in q;
        assert 0 <= j < |q| ==> q[j] in q;
      }
      RankedFrom(t);
    }
  }

  lemma RankedFrom(t: State)
    requires forall i, j :: RankedPair(t.node, ById, t.pending, i, j)
    ensures Served(t)
  {
  }

  /** Two tasks with priorities 5 and 4: the first, lowered to 4, goes behind the second, which is younger. */
  lemma LoweredGoesBehind(workers: nat)
    ensures Inv(Initial(workers))
    ensures var v := Play(Initial(workers), [CallRun(0, 5, true), CallRun(1, 4, true)]).q;
      Served(v) && !Served(RunNew(v, 0, 4, true))
  {
    InitialFilled(workers);
    FiveFour();
    hide Inv, Filled, Play, Served, RunNew, Initial, Good, Descending;
    var v := TwoCalls(Initial(workers));
    FilledServed(v.q, [5, 4]);
    IdleGood(v);
    FirstBehind(v.q);
  }

  lemma TwoCalls(w: World) returns (v: World)
    requires Inv(w) && w.client == Idle && Filled(w.q, [])
    ensures Inv(v) && v.client == Idle && Filled(v.q, [5, 4])
    ensures Play(w, [CallRun(0, 5, true), CallRun(1, 4, true)]) == v
  {
    hide Inv, Filled, Play, Descending, Enabled, Next;
    var a, b := CallRun(0, 5, true), CallRun(1, 4, true);
    TwoSteps(a, b);
    FiveFour();
    v := SubmitNext(w, [], 5, [b]);
    v := SubmitNext(v, [5], 4, []);
    PlayNothing(v);
  }

  lemma TwoSteps(a: Step, b: Step)
    ensures [a, b] == [a] + [b] && [b] == [b] + []
  {
  }

  lemma FiveFour()
    ensures [] + [5] == [5] && [5] + [4] == [5, 4] && Descending([5, 4])
  {
  }

  lemma FirstBehind(s: State)
    requires Good(s, s.purgeId) && Served(s) && Filled(s, [5, 4])
    ensures !Served(RunNew(s, 0, 4, true))
  {
    assert FilledAt(s, [5, 4], 0) && FilledAt(s, [5, 4], 1);
    assert s.pending[0] in s.pending && s.pending[1] in s.pending;
    RunNewById(s, 0, 4, true);
    hide RunNew, Ranked;
  }
}
