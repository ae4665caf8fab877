/** The queues behind the pending one are in order of time: active tasks in the order in which they were started,
    complete ones in the order in which they ended, which is the order in which finish_fn gets them. */
module WorkqSequence {
  import opened Lists
  import opened Queues
  import opened WorkqState
  import opened WorkqRegions
  import opened WorkqProtocol
  import opened WorkqOutcomes

  datatype Kind = Starting | Ending

  /** Event i of the history is the start, or the end, of n. */
  predicate Marks(log: seq<Event>, kind: Kind, i: int, n: Id) {
    0 <= i < |log| && log[i].n == n && if kind == Starting then log[i].Start? else log[i].End?
  }

  ghost predicate Earlier(log: seq<Event>, kind: Kind, m: Id, n: Id) {
    exists i, j :: i < j && Marks(log, kind, i, m) && Marks(log, kind, j, n)
  }

  ghost predicate EarlierAt(log: seq<Event>, kind: Kind, q: seq<Id>, i: int, j: int) {
    0 <= i < j < |q| ==> Earlier(log, kind, q[i], q[j])
  }

  ghost predicate InTime(log: seq<Event>, kind: Kind, q: seq<Id>) { forall i, j :: EarlierAt(log, kind, q, i, j) }

  ghost predicate Timely(s: State) { InTime(s.log, Starting, s.active) && InTime(s.log, Ending, s.complete) }

  lemma LogGrows(log: seq<Event>, more: seq<Event>, kind: Kind, q: seq<Id>)
    requires InTime(log, kind, q)
    ensures InTime(log + more, kind, q)
  {
    forall i, j
      ensures EarlierAt(log + more, kind, q, i, j)
    {
      assert EarlierAt(log, kind, q, i, j);
      if 0 <= i < j < |q| {
        var a, b :| a < b && Marks(log, kind, a, q[i]) && Marks(log, kind, b, q[j]);
        assert Marks(log + more, kind, a, q[i]) && Marks(log + more, kind, b, q[j]);
      }
    }
  }

  lemma {:induction false} ExceptInTime(log: seq<Event>, kind: Kind, q: seq<Id>, gone: set<Id>)
    requires InTime(log, kind, q)
    ensures InTime(log, kind, Except(q, gone))
  {
    if q != [] {
      var rest, e := q[1..], Except(q[1..], gone);
      forall i, j
        ensures EarlierAt(log, kind, rest, i, j)
      {
        assert EarlierAt(log, kind, q, i + 1, j + 1);
      }
      ExceptInTime(log, kind, rest, gone);
      forall i, j
        ensures EarlierAt(log, kind, [q[0]] + e, i, j)
      {
        assert EarlierAt(log, kind, e, i - 1, j - 1);
        if 0 == i < j < |e| + 1 {
          assert e[j - 1] in rest;
          var k :| 0 <= k < |rest| && rest[k] == e[j - 1];
          assert EarlierAt(log, kind, q, 0, k + 1);
        }
      }
    }
  }

  lemma MinusInTime(log: seq<Event>, kind: Kind, q: seq<Id>, n: Id)
    requires InTime(log, kind, q) && Distinct(q)
    ensures InTime(log, kind, Minus(q, n))
  {
    ExceptMinus(q, n, {});
    ExceptNothing(Minus(q, n), {});
    assert {} + {n} == {n};
    ExceptInTime(log, kind, q, {n});
  }

  lemma {:induction false} OnlyIsExcept(q: seq<Id>, keep: set<Id>)
    ensures Only(q, keep) == Except(q, set n | n in q && n !in keep)
  {
    if q != [] {
      OnlyIsExcept(q[1..], keep);
      ExceptSame(q[1..], set n | n in q && n !in keep, set n | n in q[1..] && n !in keep);
    }
  }

  /** An event of now makes its node the last in time. */
  lemma LastInTime(log: seq<Event>, e: Event, kind: Kind, q: seq<Id>)
    requires InTime(log, kind, q) && Marks([e], kind, 0, e.n)
    requires forall n | n in q :: exists i :: Marks(log, kind, i, n)
    ensures InTime(log + [e], kind, q + [e.n])
  {
    LogGrows(log, [e], kind, q);
    forall i, j
      ensures EarlierAt(log + [e], kind, q + [e.n], i, j)
    {
      assert EarlierAt(log + [e], kind, q, i, j);
      if 0 <= i < j == |q| {
        assert q[i] in q;
        var a :| Marks(log, kind, a, q[i]);
        assert Marks(log + [e], kind, a, q[i]) && Marks(log + [e], kind, |log|, e.n);
      }
    }
  }

  // ---------------------------------------------------------------- what keeps the order

  lemma StartedBefore(w: World, n: Id)
    requires Inv(w) && n in w.q.active
    ensures exists i :: Marks(w.q.log, Starting, i, n)
  {
    StatusesAreTrue(w, n);
    ActiveTracked(w.q, Current(w), n);
    var i :| 0 <= i < |w.q.log| && w.q.log[i] == Start(n);
    assert Marks(w.q.log, Starting, i, n);
  }

  lemma EndedBefore(w: World, n: Id)
    requires Inv(w) && n in w.q.complete
    ensures exists i :: Marks(w.q.log, Ending, i, n)
  {
    StatusesAreTrue(w, n);
    CompleteStatus(w.q, Current(w), n);
    var ok := w.q.node[n].status == Complete;
    var i :| 0 <= i < |w.q.log| && w.q.log[i] == End(n, ok);
    assert Marks(w.q.log, Ending, i, n);
  }

  lemma CompleteStatus(s: State, current: int, n: Id)
    requires Good(s, current) && n in s.complete
    ensures n in s.node && (s.node[n].status == Complete || s.node[n].status == Failure)
  {
  }

  lemma QueuesDistinct(s: State, current: int)
    requires Good(s, current)
    ensures Distinct(s.active) && Distinct(s.complete)
  {
  }

  lemma BeginTimely(w: World, s: State)
    requires Inv(w) && Timely(w.q) && w.q.pending != [] && w.q.pending[0] in w.q.node && s == Begin(w.q)
    ensures Timely(s)
  {
    forall n | n in w.q.active
      ensures exists i :: Marks(w.q.log, Starting, i, n)
    {
      StartedBefore(w, n);
    }
    hide Inv, InTime;
    LastInTime(w.q.log, Event.Start(w.q.pending[0]), Starting, w.q.active);
    LogGrows(w.q.log, [Event.Start(w.q.pending[0])], Ending, w.q.complete);
  }

  lemma DoneTimely(w: World, n: Id, ok: bool)
    requires Inv(w) && Timely(w.q) && n in w.q.active && n in w.q.node
    ensures Timely(Done(w.q, n, ok))
  {
    forall m | m in w.q.complete
      ensures exists i :: Marks(w.q.log, Ending, i, m)
    {
      EndedBefore(w, m);
    }
    QueuesDistinct(w.q, Current(w));
    hide Inv, InTime, Minus, Distinct;
    LastInTime(w.q.log, End(n, ok), Ending, w.q.complete);
    MinusInTime(w.q.log, Starting, w.q.active, n);
    LogGrows(w.q.log, [End(n, ok)], Starting, Minus(w.q.active, n));
  }

  lemma DropTimely(s: State, current: int, n: Id, e: Event)
    requires Good(s, current) && Timely(s) && n in s.node
    ensures Timely(Drop(s, n, e))
  {
    QueuesDistinct(s, current);
    hide Good, InTime, Minus, Distinct;
    MinusInTime(s.log, Ending, s.complete, n);
    LogGrows(s.log, [e], Ending, Minus(s.complete, n));
    LogGrows(s.log, [e], Starting, s.active);
  }

  lemma FlushTimely(s: State, current: int)
    requires Good(s, current) && Timely(s)
    ensures Timely(Flush(s))
  {
    FlushExact(s, current);
    hide Good, Flush;
    LogGrows(s.log, Finishes(s, s.complete), Starting, s.active) by {
      CompleteKnown(s, current);
    }
  }

  lemma CompleteKnown(s: State, current: int)
    requires Good(s, current)
    ensures (forall n | n in s.complete :: n in s.node) && forall n | n in s.pending :: n in s.node
  {
  }

  lemma PurgeTimely(s: State, current: int)
    requires Good(s, current) && Timely(s) && (s.purgeId == current || s.purgeId == PURGE)
    ensures Timely(Purge(s))
  {
    CompleteKnown(s, current);
    if s.purgeId == PURGE {
      PurgeForced(s, current);
      hide Good, Purge, InTime, Finishes;
      LogGrows(s.log, Finishes(s, s.pending), Starting, s.active);
      LogGrows(s.log + Finishes(s, s.pending), Finishes(s, s.complete), Starting, s.active);
      NothingInTime(Purge(s).log);
    } else {
      PurgeExact(s);
      hide Good, Purge, InTime, Finishes, Except, Only;
      var a, b := Finishes(s, Except(s.pending, s.recent)), Finishes(s, Except(s.complete, s.recent));
      LogGrows(s.log, a, Starting, s.active);
      LogGrows(s.log + a, b, Starting, s.active);
      OnlyIsExcept(s.complete, s.recent);
      ExceptInTime(s.log, Ending, s.complete, set n | n in s.complete && n !in s.recent);
      LogGrows(s.log, a, Ending, Only(s.complete, s.recent));
      LogGrows(s.log + a, b, Ending, Only(s.complete, s.recent));
    }
  }

  lemma NothingInTime(log: seq<Event>)
    ensures InTime(log, Ending, [])
  {
  }

  lemma RunTimely(s: State, task: Task, priority: int, alloc: bool)
    requires Good(s, s.purgeId) && Timely(s)
    ensures Timely(Run(s, task, priority, alloc).0)
  {
    LogGrows(s.log, [Accept(s.next)], Starting, s.active);
    LogGrows(s.log, [Accept(s.next)], Ending, s.complete);
    if task in s.mapTask {
      DropTimely(s, s.purgeId, s.mapTask[task], Handed(s.mapTask[task], s.node[s.mapTask[task]].status));
    }
    hide InTime, Queued, Coloured, Chronicled, Drop;
  }

  lemma CheckQueueTimely(w: World, t: nat)
    requires Inv(w) && t < |w.workers| && Timely(w.q)
    ensures Timely(CheckQueue(w, t).q)
  {
    if w.q.running && w.q.pending != [] {
      CompleteKnown(w.q, Current(w));
      hide Inv, Timely;
      BeginTimely(w, Begin(w.q));
    }
  }

  lemma ReturnsTimely(w: World, t: nat, ok: bool)
    requires Inv(w) && Enabled(w, WorkerReturns(t, ok)) && Timely(w.q)
    ensures Timely(Next(w, WorkerReturns(t, ok)).q)
  {
    CompletedKeeps(w, t, ok);
    var v := Completed(w, t, ok);
    assert Timely(v.q) by {
      BusyActive(w, t);
      ActiveTracked(w.q, Current(w), w.workers[t].n);
      hide Inv, Timely, Done;
      DoneTimely(w, w.workers[t].n, ok);
    }
    hide Inv, Timely, CheckQueue, Completed;
    CheckQueueTimely(v, t);
  }

  lemma BusyActive(w: World, t: nat)
    requires Inv(w) && t < |w.workers| && w.workers[t].Busy?
    ensures w.workers[t].n in w.q.active
  {
  }

  lemma StoppedTimely(s: State)
    requires Timely(s)
    ensures Timely(s.(running := false))
  {
  }

  lemma ResumedTimely(w: World)
    requires Inv(w) && Enabled(w, ClientResumes) && Timely(w.q)
    ensures Timely(Resumed(w).q)
  {
    hide Queued, Indexed, Coloured, Chronicled, WorkersFit, Timely, Purge, Flush, Drop;
    match w.client
    case InWait(n, _, _) => DropTimely(w.q, Current(w), n, Handed(n, w.q.node[n].status));
    case InCancel(n, _, _) => DropTimely(w.q, Current(w), n, Handed(n, w.q.node[n].status));
    case InFinish(_) => FlushTimely(w.q, Current(w));
    case InSweep(_) => PurgeCallTimely(w.q, Current(w), w.client.saved);
    case Joining => PurgeCallTimely(w.q, Current(w), PURGE);
    case _ =>
  }

  /** A forced purge, and whatever purge id is put back after it. */
  lemma PurgeCallTimely(s: State, current: int, back: int)
    requires Good(s, current) && Timely(s)
    ensures Queued(Colour(s, PURGE)) && Timely(Purge(Colour(s, PURGE))) && Timely(Colour(Purge(Colour(s, PURGE)), back))
  {
    ColourBack(s, current, PURGE);
    PurgeTimely(Colour(s, PURGE), current);
    hide Good, Purge, InTime;
  }

  lemma NextTimely(w: World, s: Step)
    requires Inv(w) && Enabled(w, s) && Timely(w.q)
    ensures Timely(Next(w, s).q)
  {
    hide Queued, Indexed, Coloured, Chronicled, WorkersFit, Timely, Purge, Flush, Drop, Run, CheckQueue, Resumed;
    match s
    case WorkerEnters(t) => CheckQueueTimely(w, t);
    case WorkerReturns(t, ok) => ReturnsTimely(w, t, ok);
    case CallRun(task, priority, alloc) => RunTimely(w.q, task, priority, alloc);
    case CallWait(task, _) =>
      if task in w.q.mapTask {
        IndexedTask(w.q, Current(w), task);
        DropTimely(w.q, Current(w), w.q.mapTask[task], Handed(w.q.mapTask[task], w.q.node[w.q.mapTask[task]].status));
      }
    case CallCancel(task, _) =>
      if task in w.q.mapTask {
        IndexedTask(w.q, Current(w), task);
        DropTimely(w.q, Current(w), w.q.mapTask[task], Handed(w.q.mapTask[task], w.q.node[w.q.mapTask[task]].status));
      }
    case CallPurge => PurgeTimely(w.q, Current(w));
    case CallFlush => FlushTimely(w.q, Current(w));
    case CallFinish => FlushTimely(w.q, Current(w));
    case CallReset(_) => PurgeCallTimely(w.q, Current(w), w.q.purgeId);
    case CallDelete => StoppedTimely(w.q);
    case ClientResumes => ResumedTimely(w);
    case _ =>
  }

  /** In every run the active queue is in the order of the calls of run_fn, and the complete queue in the order in which
      they returned. */
  lemma {:induction false} EveryRunTimely(w: World, steps: seq<Step>)
    requires Inv(w) && Timely(w.q)
    ensures Timely(Play(w, steps).q)
    decreases |steps|
  {
    hide Inv, Next, Timely, Enabled;
    if steps != [] {
      if Enabled(w, steps[0]) {
        NextKeeps(w, steps[0]);
        NextTimely(w, steps[0]);
        EveryRunTimely(Next(w, steps[0]), steps[1..]);
      } else {
        EveryRunTimely(w, steps[1..]);
      }
    }
  }

  lemma FromTheStart(workers: nat, steps: seq<Step>)
    ensures Inv(Initial(workers))
    ensures Timely(Play(Initial(workers), steps).q)
  {
    InitialFits(workers);
    assert Timely(Initial(workers).q);
    hide Inv, Play, Timely, Initial;
    EveryRunTimely(Initial(workers), steps);
  }
}
