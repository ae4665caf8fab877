/** What becomes of a task that is not run again: over every run, the first purge that finds its node complete or
    pending finishes it. */
module WorkqPurges {
  import opened Lists
  import opened Queues
  import opened WorkqState
  import opened WorkqRegions
  import opened WorkqProtocol

  /** From s to t node n was not run: it is not among those run since the last purge, and still carries its task if it
      is there at all. */
  ghost predicate LeftAlone(s: State, t: State, n: Id) {
    && s.next <= t.next && n !in t.recent
    && (n in t.node ==> n in s.node && t.node[n].task == s.node[n].task)
  }

  lemma FlushLeavesAlone(s: State, current: int, n: Id)
    requires Good(s, current) && n !in s.recent
    ensures LeftAlone(s, Flush(s), n)
  {
    FinishAllGood(s, current, s.complete);
    FinishAllRunning(s, s.complete);
  }

  lemma PurgeLeavesAlone(s: State, current: int, n: Id)
    requires Good(s, current)
    ensures LeftAlone(s, Purge(s), n) && Purge(s).recent == {}
  {
    hide Distinct, Select, FinishAll, Chronicled, Indexed, Coloured;
    var stale := Select(s, s.pending, false, true);
    SelectFacts(s, s.pending, false, true);
    FinishAllGood(s, current, stale);
    FinishAllRunning(s, stale);
    FinishAllTracked(s, stale);
    var p := PurgePending(s);
    MarkQueued(p);
    var t := Mark(p);
    var done := Select(t, t.complete, true, true);
    SelectFacts(t, t.complete, true, true);
    FinishAllRunning(t, done);
    FinishAllTracked(t, done);
  }

  lemma {:induction false} FinishAllTracked(s: State, ns: seq<Id>)
    requires Distinct(ns) && forall n | n in ns :: n in s.node
    ensures forall n | n in FinishAll(s, ns).node :: n in s.node && FinishAll(s, ns).node[n] == s.node[n]
    decreases |ns|
  {
    if ns != [] {
      DistinctTail(ns);
      FinishAllTracked(Drop(s, ns[0], Finish(ns[0], s.node[ns[0]].status)), ns[1..]);
    }
  }

  lemma RunLeavesAlone(s: State, task: Task, priority: int, alloc: bool, n: Id)
    requires Good(s, s.purgeId) && n !in s.recent && n < s.next && (n in s.node ==> s.node[n].task != task)
    ensures LeftAlone(s, Run(s, task, priority, alloc).0, n)
  {
    hide Distinct, Placed, Chronicled, Coloured;
  }

  lemma CheckQueueLeavesAlone(w: World, t: nat, n: Id)
    requires Inv(w) && t < |w.workers| && n !in w.q.recent
    ensures LeftAlone(w.q, CheckQueue(w, t).q, n)
  {
    hide Distinct, Chronicled, Coloured, Indexed;
  }

  lemma ResumedLeavesAlone(w: World, n: Id)
    requires Inv(w) && Enabled(w, ClientResumes) && n !in w.q.recent
    ensures LeftAlone(w.q, Resumed(w).q, n)
  {
    hide Queued, Indexed, Coloured, Chronicled, WorkersFit, Flush, Purge;
    match w.client
    case InFinish(_) => FlushLeavesAlone(w.q, Current(w), n);
    case InSweep(_) => PurgeLeavesAlone(w.q, Current(w), n);
    case Joining =>
      ColourBack(w.q, Current(w), PURGE);
      PurgeLeavesAlone(Colour(w.q, PURGE), Current(w), n);
    case _ =>
  }

  lemma NextLeavesAlone(w: World, s: Step, n: Id)
    requires Inv(w) && Enabled(w, s) && n !in w.q.recent && n < w.q.next
    requires s.CallRun? && n in w.q.node ==> s.task != w.q.node[n].task
    ensures LeftAlone(w.q, Next(w, s).q, n)
  {
    hide Queued, Indexed, Coloured, Chronicled, WorkersFit, Flush, Purge, Run, CheckQueue, Resumed;
    match s
    case WorkerEnters(t) => CheckQueueLeavesAlone(w, t, n);
    case WorkerReturns(t, ok) =>
      CompletedKeeps(w, t, ok);
      CheckQueueLeavesAlone(Completed(w, t, ok), t, n);
    case CallRun(task, priority, alloc) => RunLeavesAlone(w.q, task, priority, alloc, n);
    case CallPurge => PurgeLeavesAlone(w.q, Current(w), n);
    case CallFlush => FlushLeavesAlone(w.q, Current(w), n);
    case CallFinish => FlushLeavesAlone(w.q, Current(w), n);
    case CallReset(_) =>
      ColourBack(w.q, Current(w), PURGE);
      PurgeLeavesAlone(Colour(w.q, PURGE), Current(w), n);
    case ClientResumes => ResumedLeavesAlone(w, n);
    case _ =>
  }

  /** As long as a task is not run again, its node counts as not run since the last purge. */
  lemma {:induction false} StaysOld(w: World, steps: seq<Step>, n: Id, task: Task)
    requires Inv(w) && n !in w.q.recent && n < w.q.next && (n in w.q.node ==> w.q.node[n].task == task)
    requires forall s | s in steps :: s.CallRun? ==> s.task != task
    ensures LeftAlone(w.q, Play(w, steps).q, n)
    decreases |steps|
  {
    if steps != [] {
      assert forall s | s in steps[1..] :: s in steps;
      assert steps[0] in steps;
      if Enabled(w, steps[0]) {
        NextKeeps(w, steps[0]);
        NextLeavesAlone(w, steps[0], n);
        hide Inv, Next, Enabled;
        StaysOld(Next(w, steps[0]), steps[1..], n, task);
      } else {
        hide Inv, Enabled;
        StaysOld(w, steps[1..], n, task);
      }
    }
  }

  /** A purge finishes whatever it finds complete or pending that was not run since the last one. */
  lemma OldGoes(s: State, n: Id)
    requires Good(s, s.purgeId) && n in s.node && n !in s.recent && (n in s.complete || n in s.pending)
    ensures n !in Purge(s).node && Finish(n, s.node[n].status) in Purge(s).log
  {
    PurgeGood(s, s.purgeId);
    PurgeExact(s);
    NotActive(s, n);
    hide Purge, Good;
    OnlyMembers(s.pending, s.recent);
    OnlyMembers(s.complete, s.recent);
    ExceptMembers(s.complete, s.recent);
    ExceptMembers(s.pending, s.recent);
    var q := if n in s.complete then s.complete else s.pending;
    var gone := Except(q, s.recent);
    var i :| 0 <= i < |gone| && gone[i] == n;
    assert Finishes(s, gone)[i] == Finish(n, s.node[n].status);
    TrackedSomewhere(Purge(s), 1 - s.purgeId, n);
  }

  lemma NotActive(s: State, n: Id)
    requires Good(s, s.purgeId) && (n in s.complete || n in s.pending)
    ensures n !in s.active && (forall m | m in s.complete || m in s.pending :: m in s.node) && 0 <= s.purgeId <= 1
  {
  }

  lemma TrackedSomewhere(s: State, current: int, n: Id)
    requires Good(s, current)
    ensures n in s.node ==> n in s.pending || n in s.active || n in s.complete
  {
    assert n in s.node ==> Placed(s, n);
  }

  /** A purge comes while the node is active or just renewed. If its task is not run again after that, then over every
      run the node is finished by the first purge that finds it complete or pending. */
  lemma MarkedGoesNext(w: World, steps: seq<Step>, n: Id)
    requires Inv(w) && Enabled(w, CallPurge) && n in w.q.node
    requires forall s | s in steps :: s.CallRun? ==> s.task != w.q.node[n].task
    requires Inv(Next(w, CallPurge))
    ensures var v := Play(Next(w, CallPurge), steps);
      Enabled(v, CallPurge) && n in v.q.node && v.q.node[n].status != Active ==>
        n !in Next(v, CallPurge).q.node && Finish(n, v.q.node[n].status) in Next(v, CallPurge).q.log
  {
    var p := Next(w, CallPurge);
    PurgedAllOld(w, n);
    StaysOld(p, steps, n, w.q.node[n].task);
    hide Play, Inv;
    var v := Play(p, steps);
    if Enabled(v, CallPurge) && n in v.q.node && v.q.node[n].status != Active {
      IdleGood(v, n);
      OldGoes(v.q, n);
    }
  }

  lemma PurgedAllOld(w: World, n: Id)
    requires Inv(w) && w.client == Idle && n in w.q.node
    ensures Purge(w.q).recent == {} && n < Purge(w.q).next
    ensures n in Purge(w.q).node ==> Purge(w.q).node[n].task == w.q.node[n].task
  {
    assert LifeFits(w.q, n);
    PurgeLeavesAlone(w.q, Current(w), n);
  }

  lemma IdleGood(w: World, n: Id)
    requires Inv(w) && w.client == Idle && n in w.q.node && w.q.node[n].status != Active
    ensures Good(w.q, w.q.purgeId) && (n in w.q.complete || n in w.q.pending)
  {
    assert Placed(w.q, n);
  }
}
