/** The other half of mark and sweep: a task that is run again after a purge outlives the next one. */
module WorkqRenewal {
  import opened Lists
  import opened Queues
  import opened WorkqOrder
  import opened WorkqState
  import opened WorkqRegions
  import opened WorkqProtocol

  /** A purge leaves a node that was run since the last one as it is. */
  lemma PurgeKeepsRecent(s: State, n: Id)
    requires Good(s, s.purgeId) && n in s.node && n in s.recent
    ensures n in Purge(s).node && Purge(s).node[n] == s.node[n]
  {
    hide Distinct, Select, FinishAll, Chronicled, Indexed;
    var stale := Select(s, s.pending, false, true);
    SelectFacts(s, s.pending, false, true);
    FinishAllGood(s, s.purgeId, stale);
    var p := PurgePending(s);
    MarkGood(p, s.purgeId);
    var t := Mark(p);
    var done := Select(t, t.complete, true, true);
    SelectFacts(t, t.complete, true, true);
    FinishAllGood(t, s.purgeId, done);
  }

  // ---------------------------------------------------------------- a call of run

  /** What the caller of run learns, and what it finds afterwards: an error and nothing changed exactly when a new task
      could not be taken in; Pending for a task taken in; otherwise the status the task had, with the task kept while it
      is pending or active and handed out once it is complete or failed. */
  ghost predicate Told(s: State, t: State, status: Status, task: Task, priority: int, alloc: bool) {
    && (status == Error <==> task !in s.mapTask && !alloc)
    && (status == Error ==> t == s)
    && (task !in s.mapTask && alloc ==>
          && status == Pending && task in t.mapTask && t.mapTask[task] !in s.node && t.mapTask[task] in t.node
          && t.node[t.mapTask[task]].status == Pending && t.node[t.mapTask[task]].priority == priority
          && t.node[t.mapTask[task]].task == task && (forall n | n in s.node :: n in t.node && t.node[n] == s.node[n]))
    && (task in s.mapTask && s.mapTask[task] in s.node ==>
          var n := s.mapTask[task];
          && status == s.node[n].status
          && (forall m | m in s.node && m != n :: m in t.node && t.node[m] == s.node[m])
          && if status == Pending || status == Active then
               && task in t.mapTask && t.mapTask[task] == n && n in t.node && t.log == s.log
               && t.node[n].status == status && t.node[n].task == task
               && t.node[n].priority == if status == Pending then priority else s.node[n].priority
             else task !in t.mapTask && n !in t.node && t.log == s.log + [Handed(n, status)])
  }

  lemma RunTells(s: State, task: Task, priority: int, alloc: bool)
    requires Good(s, s.purgeId)
    ensures var (t, status) := Run(s, task, priority, alloc); Told(s, t, status, task, priority, alloc)
  {
    NoErrors(s);
    if task in s.mapTask {
      hide Good;
      TrackedTells(s, task, priority, alloc);
    } else {
      NextUntracked(s);
      hide Queued, Indexed, Chronicled, Coloured, Distinct, ScanBack, InsertAt;
    }
  }

  lemma TrackedTells(s: State, task: Task, priority: int, alloc: bool)
    requires Queued(s) && Indexed(s) && task in s.mapTask
    requires forall n | n in s.node :: s.node[n].status != Error
    ensures var (t, status) := Run(s, task, priority, alloc); Told(s, t, status, task, priority, alloc)
  {
    hide Queued, Distinct, MovedTo, ScanBack, Position, Minus, MoveAt, InsertAt;
  }

  lemma NoErrors(s: State)
    requires Good(s, s.purgeId)
    ensures forall n | n in s.node :: s.node[n].status != Error
  {
    assert forall n | n in s.node :: Placed(s, n);
  }

  /** The node is there after a purge, with the status it has, and unmarked. */
  ghost predicate Survives(s: State, n: Id) {
    && Queued(s) && n in s.node && n in Purge(s).node
    && Purge(s).node[n].purgeId != PURGE && Purge(s).node[n].status == s.node[n].status
  }

  /** Run has made the node one of those the current purge id protects. */
  ghost predicate Renewed(s: State, task: Task, purgeId: int) {
    && task in s.mapTask && s.mapTask[task] in s.node
    && var n := s.mapTask[task];
       && s.node[n].task == task && (s.node[n].status == Pending || s.node[n].status == Active)
       && s.purgeId == purgeId && s.node[n].purgeId == purgeId && n in s.recent && Survives(s, n)
  }

  /** Whatever run leaves tracked under the task, the one that was taken in, pending or active, carries the current
      purge id, has not finished, and outlives the next purge unmarked. */
  lemma RunRenews(s: State, task: Task, priority: int, alloc: bool)
    requires Good(s, s.purgeId)
    ensures var t := Run(s, task, priority, alloc).0;
      task in t.mapTask ==> Renewed(t, task, s.purgeId)
  {
    var t := Run(s, task, priority, alloc).0;
    RunGood(s, task, priority, alloc);
    RunFrame(s, task, priority, alloc);
    RunMarksRecent(s, task, priority, alloc);
    hide Run;
    if task in t.mapTask {
      IndexedTask(t, t.purgeId, task);
      hide Good, Purge;
      RecentSurvives(t, t.mapTask[task]);
    }
  }

  lemma RecentSurvives(s: State, n: Id)
    requires Good(s, s.purgeId) && n in s.node && n in s.recent
    ensures Survives(s, n) && s.node[n].purgeId == s.purgeId
  {
    RecentColour(s, n);
    PurgeKeepsRecent(s, n);
    hide Purge;
  }

  lemma RunMarksRecent(s: State, task: Task, priority: int, alloc: bool)
    requires Good(s, s.purgeId)
    ensures var t := Run(s, task, priority, alloc).0;
      task in t.mapTask ==>
        && t.mapTask[task] in t.recent && t.mapTask[task] in t.node
        && (t.node[t.mapTask[task]].status == Pending || t.node[t.mapTask[task]].status == Active)
  {
    hide Queued, Chronicled, Coloured;
  }

  lemma RecentColour(s: State, n: Id)
    requires Good(s, s.purgeId) && n in s.node && n in s.recent
    ensures s.node[n].purgeId == s.purgeId && s.purgeId != PURGE
  {
  }

  // ---------------------------------------------------------------- over runs

  /** The steps that purge, or begin to. */
  predicate Purges(s: Step) { s.CallPurge? || s.CallReset? || s.CallDelete? }

  predicate PurgesLater(c: Client) { c.InReset? || c.InSweep? || c.Joining? }

  lemma NextKeepsRecent(w: World, s: Step, n: Id)
    requires Inv(w) && Enabled(w, s) && n in w.q.recent && !Purges(s) && !PurgesLater(w.client)
    ensures n in Next(w, s).q.recent && !PurgesLater(Next(w, s).client)
  {
    hide Queued, Indexed, Coloured, Chronicled, WorkersFit, FinishAll;
    if s.WorkerReturns? {
      CompletedKeeps(w, s.t, s.ok);
    }
    if s.CallFlush? || s.CallFinish? || s.ClientResumes? {
      FlushKeepsRecent(w.q, Current(w));
    }
  }

  lemma FlushKeepsRecent(s: State, current: int)
    requires Good(s, current)
    ensures Flush(s).recent == s.recent
  {
    FinishAllGood(s, current, s.complete);
  }

  /** Until the next purge, reset or delete, what was run since the last one stays so. */
  lemma {:induction false} StaysRecent(w: World, steps: seq<Step>, n: Id)
    requires Inv(w) && n in w.q.recent && !PurgesLater(w.client) && forall s | s in steps :: !Purges(s)
    ensures n in Play(w, steps).q.recent
    decreases |steps|
  {
    if steps != [] {
      assert forall s | s in steps[1..] :: s in steps;
      assert steps[0] in steps;
      if Enabled(w, steps[0]) {
        NextKeeps(w, steps[0]);
        NextKeepsRecent(w, steps[0], n);
        hide Inv, Next, Enabled;
        StaysRecent(Next(w, steps[0]), steps[1..], n);
      } else {
        hide Inv, Enabled;
        StaysRecent(w, steps[1..], n);
      }
    }
  }

  /** A task is run, for the first time or again, and then everything but another purge may happen. If its node is still
      there when the next purge comes, the purge leaves it as it is. */
  lemma RenewedOutlivesPurge(w: World, call: Step, steps: seq<Step>)
    requires Inv(w) && call.CallRun? && Enabled(w, call) && Inv(Next(w, call))
    requires call.task in Next(w, call).q.mapTask && forall s | s in steps :: !Purges(s)
    ensures var n, v := Next(w, call).q.mapTask[call.task], Play(Next(w, call), steps);
      Enabled(v, CallPurge) && n in v.q.node ==>
        n in Next(v, CallPurge).q.node && Next(v, CallPurge).q.node[n] == v.q.node[n]
  {
    hide Inv, Play, Next, Enabled;
    var u := Next(w, call);
    var n := u.q.mapTask[call.task];
    CallMarksRecent(w, call);
    StaysRecent(u, steps, n);
    var v := Play(u, steps);
    if Enabled(v, CallPurge) && n in v.q.node {
      PurgeCallKeeps(v, n);
    }
  }

  lemma PurgeCallKeeps(w: World, n: Id)
    requires Inv(w) && Enabled(w, CallPurge) && n in w.q.node && n in w.q.recent
    ensures n in Next(w, CallPurge).q.node && Next(w, CallPurge).q.node[n] == w.q.node[n]
  {
    IdleState(w);
    PurgeKeepsRecent(w.q, n);
    hide Good, WorkersFit, Purge;
  }

  lemma CallMarksRecent(w: World, call: Step)
    requires Inv(w) && call.CallRun? && Enabled(w, call) && call.task in Next(w, call).q.mapTask
    ensures Next(w, call).q.mapTask[call.task] in Next(w, call).q.recent && !PurgesLater(Next(w, call).client)
  {
    RunMarksRecent(w.q, call.task, call.priority, call.alloc);
    hide Good, WorkersFit, Run;
  }

  lemma IdleState(w: World)
    requires Inv(w) && w.client == Idle
    ensures Good(w.q, w.q.purgeId)
  {
  }
}
