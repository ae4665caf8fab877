/** What the callers of the work queue are told, and which tasks each call lets run: statuses against the results of
    run_fn, calls that do not wait, and which drains run what is pending. */
module WorkqOutcomes {
  import opened Lists
  import opened Queues
  import opened WorkqState
  import opened WorkqRegions
  import opened WorkqProtocol
  import opened WorkqDrains

  // ---------------------------------------------------------------- statuses

  /** The history of n holds together: run_fn was called before it returned; it returned once at most; and n left with
      Pending if it was never called, and otherwise with Complete or Failure as run_fn said. */
  ghost predicate Truthful(log: seq<Event>, n: Id) {
    && (forall ok :: End(n, ok) in log ==> Start(n) in log && End(n, !ok) !in log)
    && (forall status | Finish(n, status) in log || Handed(n, status) in log ::
          Says(log, n, status))
  }

  ghost predicate Says(log: seq<Event>, n: Id, status: Status) {
    match status
    case Pending => Start(n) !in log
    case Complete => End(n, true) in log
    case Failure => End(n, false) in log
    case _ => false
  }

  lemma {:induction false} LifeTells(log: seq<Event>, n: Id)
    requires LifeOf(log, n) != Broken
    ensures Start(n) in log <==> LifeOf(log, n) !in {Unborn, Waiting, Gone(Pending)}
    ensures forall ok :: End(n, ok) in log <==>
      LifeOf(log, n) == Ended(ok) || LifeOf(log, n) == Gone(if ok then Complete else Failure)
    ensures forall status :: Finish(n, status) in log || Handed(n, status) in log <==> LifeOf(log, n) == Gone(status)
    ensures LifeOf(log, n).Gone? ==> LifeOf(log, n).status in {Pending, Complete, Failure}
  {
    if log != [] {
      var before, e := log[..|log| - 1], log[|log| - 1];
      assert log == before + [e];
      LifeTells(before, n);
    }
  }

  /** In every run: the status a caller gets for a task, or finish_fn is called with, is what came of running it; and a
      tracked node has the status its history calls for. */
  lemma StatusesAreTrue(w: World, n: Id)
    requires Inv(w)
    ensures Truthful(w.q.log, n)
    ensures n in w.q.node && w.q.node[n].status != Active ==> Says(w.q.log, n, w.q.node[n].status)
    ensures n in w.q.node && w.q.node[n].status == Active ==>
      Start(n) in w.q.log && End(n, true) !in w.q.log && End(n, false) !in w.q.log
  {
    assert LifeFits(w.q, n);
    assert n in w.q.node ==> Placed(w.q, n);
    hide Good, WorkersFit, ClientFits, LifeOf;
    LifeTells(w.q.log, n);
  }

  // ---------------------------------------------------------------- calls that do not wait

  /** Asking for a task that is not tracked changes nothing, and neither does asking for one that is not done, without
      waiting: its status is read next. */
  lemma PollingChangesNothing(w: World, task: Task)
    requires Inv(w) && w.client == Idle
    ensures task !in w.q.mapTask ==> forall blocking ::
      Next(w, CallWait(task, blocking)) == w && Next(w, CallCancel(task, blocking)) == w
    ensures task in w.q.mapTask && w.q.mapTask[task] in w.q.node ==>
      var n := w.q.mapTask[task];
      && (w.q.node[n].status == Pending || w.q.node[n].status == Active ==>
            Next(w, CallWait(task, false)) == w.(client := Reading(n, task)))
      && (w.q.node[n].status == Active ==> Next(w, CallCancel(task, false)) == w.(client := Reading(n, task)))
  {
    hide Good, WorkersFit;
  }

  /** Cancelling a pending task takes it out at once, whether the caller is willing to wait or not: it is handed back
      unrun, and nothing else changes. */
  lemma CancelPending(w: World, task: Task, blocking: bool)
    requires Inv(w) && w.client == Idle && task in w.q.mapTask && w.q.mapTask[task] in w.q.node
    requires w.q.node[w.q.mapTask[task]].status == Pending
    ensures var n, v := w.q.mapTask[task], Next(w, CallCancel(task, blocking));
      && v.client == Idle && v.workers == w.workers && n !in v.q.node && task !in v.q.mapTask && n !in v.q.pending
      && v.q.log == w.q.log + [Handed(n, Pending)] && Start(n) !in v.q.log && v.q.active == w.q.active
      && forall m | m in w.q.node && m != n :: m in v.q.node && v.q.node[m] == w.q.node[m]
  {
    var n := w.q.mapTask[task];
    StatusesAreTrue(w, n);
    PendingDistinct(w.q, Current(w));
    MinusFacts(w.q.pending, n);
    hide Good, WorkersFit, Minus, Distinct;
  }

  lemma PendingDistinct(s: State, current: int)
    requires Good(s, current)
    ensures Distinct(s.pending)
  {
  }

  // ---------------------------------------------------------------- flush and reset

  /** finish_fn has been called once for n, and n is gone. */
  ghost predicate Finished(q: State, n: Id) {
    n !in q.node && FinishCount(q.log, n) == 1 && HandedCount(q.log, n) == 0
  }

  lemma GoneByFinish(w: World, v: World, n: Id)
    requires Inv(w) && Inv(v) && n in w.q.node && n !in v.q.node && w.q.next <= v.q.next
    requires HandedCount(v.q.log, n) == HandedCount(w.q.log, n)
    ensures Finished(v.q, n)
  {
    hide Inv, FinishCount, HandedCount;
    LeftOnce(w, n);
    LeftOnce(v, n);
  }

  /** flush finishes every complete task and leaves the others alone. */
  lemma FlushCall(w: World, n: Id)
    requires Inv(w) && w.client == Idle && n in w.q.node
    ensures var q := Next(w, CallFlush).q;
      if n in w.q.complete then Finished(q, n) else n in q.node && q.node[n] == w.q.node[n]
  {
    var v := Next(w, CallFlush);
    NextKeeps(w, CallFlush);
    FlushGone(w.q, Current(w), n);
    hide Inv, Next, Finished;
    if n in w.q.complete {
      GoneByFinish(w, v, n);
    }
  }

  lemma FlushGone(s: State, current: int, n: Id)
    requires Good(s, current) && n in s.node
    ensures n in s.complete ==> n !in Flush(s).node
    ensures n !in s.complete ==> n in Flush(s).node && Flush(s).node[n] == s.node[n]
    ensures HandedCount(Flush(s).log, n) == HandedCount(s.log, n) && Flush(s).next == s.next
  {
    FinishAllGood(s, current, s.complete);
    FlushHandsNothing(s, current, n);
    FinishAllRunning(s, s.complete);
    hide Good, FinishAll, HandedCount;
  }

  /** reset, blocking or not, finishes at once whatever is pending or complete; what is active stays but counts as not
      run since, so that it goes with the next purge unless it is run again. Without waiting the purge id stays. */
  lemma ResetCall(w: World, blocking: bool, n: Id)
    requires Inv(w) && w.client == Idle && n in w.q.node
    ensures var v := Next(w, CallReset(blocking));
      && v.q.pending == [] && v.q.complete == [] && v.q.active == w.q.active && n !in v.q.recent
      && (if n in w.q.active then n in v.q.node else Finished(v.q, n))
      && (!blocking ==> v.client == Idle && v.q.purgeId == w.q.purgeId)
  {
    hide Inv, Next, Finished, HandedCount;
    NextKeeps(w, CallReset(blocking));
    ResetFacts(w, blocking, n);
    ResetTracks(w, blocking);
    if n !in w.q.active {
      GoneByFinish(w, Next(w, CallReset(blocking)), n);
    }
  }

  lemma ResetFacts(w: World, blocking: bool, n: Id)
    requires Inv(w) && w.client == Idle && n in w.q.node
    ensures var v := Next(w, CallReset(blocking));
      && v.q.pending == [] && v.q.complete == [] && v.q.active == w.q.active && n !in v.q.recent
      && (n in w.q.active ==> n in v.q.node) && (!blocking ==> v.client == Idle && v.q.purgeId == w.q.purgeId)
      && HandedCount(v.q.log, n) == HandedCount(w.q.log, n) && v.q.next == w.q.next
  {
    ColourBack(w.q, Current(w), PURGE);
    ForcedCall(Colour(w.q, PURGE), Current(w), n);
    hide Good, WorkersFit, Purge, HandedCount;
  }

  lemma ForcedCall(s: State, current: int, n: Id)
    requires Good(s, current) && s.purgeId == PURGE
    ensures Purge(s).pending == [] && Purge(s).complete == [] && Purge(s).active == s.active && n !in Purge(s).recent
    ensures HandedCount(Purge(s).log, n) == HandedCount(s.log, n) && Purge(s).next == s.next
    ensures n in s.active ==> n in Purge(s).node
  {
    PurgeForced(s, current);
    PurgeHandsNothing(s, current, n);
    PurgeRunning(s, current);
    hide Good, PurgePending, PurgeComplete, HandedCount;
  }

  lemma ResetTracks(w: World, blocking: bool)
    requires Inv(w) && w.client == Idle && Inv(Next(w, CallReset(blocking)))
    ensures var q := Next(w, CallReset(blocking)).q;
      q.pending == [] && q.complete == [] ==> forall n | n in q.node :: n in q.active
  {
    var v := Next(w, CallReset(blocking));
    hide Next;
    forall n | n in v.q.node && v.q.pending == [] && v.q.complete == []
      ensures n in v.q.active
    {
      QueuedSomewhere(v.q, Current(v), n);
    }
  }

  // ---------------------------------------------------------------- which drains run what

  lemma {:induction false} StartsNothing(log: seq<Event>, more: seq<Event>, n: Id)
    requires forall e | e in more :: !e.Start?
    ensures StartCount(log + more, n) == StartCount(log, n)
  {
    if more == [] {
      assert log + more == log;
    } else {
      var k := |more| - 1;
      StartsNothing(log, more[..k], n);
      assert (log + more)[..|log + more| - 1] == log + more[..k];
      assert more[k] in more;
    }
  }

  /** reset or delete is in progress: nothing is pending, or the workers are stopping. */
  predicate Clearing(c: Client) { c.InReset? || c.InSweep? || c.Joining? }

  lemma PurgeStartsNothing(s: State, current: int, n: Id)
    requires Good(s, current) && s.purgeId == PURGE
    ensures StartCount(Purge(s).log, n) == StartCount(s.log, n)
  {
    PurgeForced(s, current);
    StartsNothing(s.log, Finishes(s, s.pending), n);
    StartsNothing(s.log + Finishes(s, s.pending), Finishes(s, s.complete), n);
  }

  lemma ClearingStep(w: World, s: Step, n: Id)
    requires Inv(w) && Enabled(w, s) && (Clearing(w.client) || s == CallReset(true) || s.CallDelete?)
    ensures StartCount(Next(w, s).q.log, n) == StartCount(w.q.log, n)
    ensures Blocked(Next(w, s).client) ==> Clearing(Next(w, s).client)
  {
    hide Queued, Indexed, Coloured, Chronicled, Purge, StartCount, FinishAll;
    match s
    case WorkerReturns(t, ok) =>
      CompletedKeeps(w, t, ok);
      StartsNothing(w.q.log, [End(w.workers[t].n, ok)], n);
    case CallReset(_) =>
      ColourBack(w.q, Current(w), PURGE);
      PurgeStartsNothing(Colour(w.q, PURGE), Current(w), n);
    case ClientResumes =>
      if w.client.InSweep? {
        PurgeStartsNothing(w.q, Current(w), n);
      } else if w.client.Joining? {
        ColourBack(w.q, Current(w), PURGE);
        PurgeStartsNothing(Colour(w.q, PURGE), Current(w), n);
      }
    case _ =>
  }

  lemma {:induction false} ClearingRun(w: World, steps: seq<Step>, n: Id)
    requires Inv(w) && Drains(w, steps) && (Clearing(w.client) || steps == [])
    ensures StartCount(Play(w, steps).q.log, n) == StartCount(w.q.log, n)
    decreases |steps|
  {
    hide Inv, Next, Clearing, StartCount, Enabled, Blocked;
    if steps != [] {
      NextKeeps(w, steps[0]);
      ClearingStep(w, steps[0], n);
      ClearingRun(Next(w, steps[0]), steps[1..], n);
    }
  }

  /** A blocking reset, and delete, start no task: what is pending when they are called is finished unrun, and what is
      active has been run once. */
  lemma ResetAndDeleteStartNothing(w: World, call: Step, steps: seq<Step>, n: Id)
    requires Inv(w) && Enabled(w, call) && (call == CallReset(true) || call.CallDelete?)
    requires Inv(Next(w, call)) && Drains(Next(w, call), steps)
    ensures StartCount(Play(Next(w, call), steps).q.log, n) == StartCount(w.q.log, n)
    ensures n in w.q.node ==>
      StartCount(Play(Next(w, call), steps).q.log, n) == if w.q.node[n].status == Pending then 0 else 1
  {
    ClearingStep(w, call, n);
    LeftOnce(w, n);
    hide Inv, Play, Next, StartCount, Clearing, Enabled;
    if steps == [] {
      PlayedNothing(Next(w, call));
    } else {
      ClearingRun(Next(w, call), steps, n);
    }
  }

  lemma PlayedNothing(w: World)
    requires Inv(w)
    ensures Play(w, []) == w
  {
  }

  /** n is still there, or run_fn has been called for it. */
  ghost predicate HereOrRun(q: State, n: Id) { n in q.node || StartCount(q.log, n) == 1 }

  lemma FlushRuns(s: State, current: int, w: World, n: Id)
    requires Inv(w) && w.q == s && Good(s, current) && HereOrRun(s, n)
    ensures HereOrRun(Flush(s), n)
  {
    FlushExact(s, current);
    StartsNothing(s.log, Finishes(s, s.complete), n);
    LeftOnce(w, n);
    CompleteDone(s, current, n);
    hide Good, Inv, Flush, StartCount;
  }

  lemma CompleteDone(s: State, current: int, n: Id)
    requires Good(s, current)
    ensures n in s.complete ==> n in s.node && s.node[n].status != Pending
  {
  }

  lemma FinishStep(w: World, s: Step, n: Id)
    requires Inv(w) && Enabled(w, s) && (w.client.InFinish? || s.CallFinish?) && HereOrRun(w.q, n)
    ensures HereOrRun(Next(w, s).q, n)
    ensures Blocked(Next(w, s).client) ==> Next(w, s).client.InFinish?
  {
    hide Queued, Indexed, Coloured, Chronicled, Flush, StartCount, FinishAll, HereOrRun;
    match s
    case WorkerEnters(t) => CheckQueueRuns(w, t, n);
    case WorkerReturns(t, ok) =>
      CompletedKeeps(w, t, ok);
      StartsNothing(w.q.log, [End(w.workers[t].n, ok)], n);
      SameNodes(w.q, Completed(w, t, ok).q, n);
      CheckQueueRuns(Completed(w, t, ok), t, n);
    case CallFinish => FlushRuns(w.q, Current(w), w, n);
    case ClientResumes => FlushRuns(w.q, Current(w), w, n);
    case _ =>
  }

  lemma SameNodes(s: State, t: State, n: Id)
    requires HereOrRun(s, n) && t.node.Keys == s.node.Keys && StartCount(t.log, n) == StartCount(s.log, n)
    ensures HereOrRun(t, n)
  {
  }

  lemma CheckQueueRuns(w: World, t: nat, n: Id)
    requires Inv(w) && t < |w.workers| && HereOrRun(w.q, n)
    ensures HereOrRun(CheckQueue(w, t).q, n)
  {
    if w.q.running && w.q.pending != [] {
      var k := w.q.pending[0];
      PendingTracked(w.q, Current(w));
      hide Good, WorkersFit;
      assert (w.q.log + [Event.Start(k)])[..|w.q.log|] == w.q.log;
    }
  }

  lemma PendingTracked(s: State, current: int)
    requires Good(s, current)
    ensures forall n | n in s.pending :: n in s.node
  {
  }

  lemma {:induction false} FinishRun(w: World, steps: seq<Step>, n: Id)
    requires Inv(w) && Drains(w, steps) && HereOrRun(w.q, n) && (w.client.InFinish? || steps == [])
    ensures HereOrRun(Play(w, steps).q, n)
    decreases |steps|
  {
    hide Inv, Next, HereOrRun, Enabled, Blocked;
    if steps != [] {
      NextKeeps(w, steps[0]);
      FinishStep(w, steps[0], n);
      FinishRun(Next(w, steps[0]), steps[1..], n);
    }
  }

  /** finish runs every task that was there exactly once before it gets back. */
  lemma FinishRunsEverything(w: World, steps: seq<Step>, n: Id)
    requires Inv(w) && Enabled(w, CallFinish) && (w.workers != [] || w.q.pending == []) && n in w.q.node
    requires Inv(Next(w, CallFinish)) && Drains(Next(w, CallFinish), steps) && Settles(Play(Next(w, CallFinish), steps))
    ensures StartCount(Play(Next(w, CallFinish), steps).q.log, n) == 1
  {
    FinishStep(w, CallFinish, n);
    DrainFinishesEverything(w, CallFinish, steps, n);
    hide Inv, Play, Next, StartCount, Enabled, Settles;
    if steps == [] {
      PlayedNothing(Next(w, CallFinish));
    } else {
      FinishRun(Next(w, CallFinish), steps, n);
    }
  }
}
