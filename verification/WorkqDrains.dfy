/** Calls that block on the work queue get back to their caller after finitely many steps: finish, a blocking reset and
    delete leave nothing behind, and wait and cancel hand their task out. */
module WorkqDrains {
  import opened Lists
  import opened Queues
  import opened Threads
  import opened WorkqState
  import opened WorkqRegions
  import opened WorkqProtocol

  /** A drain in progress: the caller of finish, blocking reset or delete has not got back yet. */
  predicate Draining(c: Client) { c.InFinish? || c.InReset? || c.InSweep? || c.Joining? }

  /** The client is inside a call that has not got back yet. */
  predicate Blocked(c: Client) { Draining(c) || c.InWait? || c.InCancel? || c.Reading? }

  /** The call that starts a drain. */
  predicate StartsDrain(s: Step) { s.CallFinish? || s == CallReset(true) || s.CallDelete? }

  predicate DrainStep(w: World, s: Step) { StartsDrain(s) || Draining(w.client) }

  // ---------------------------------------------------------------- what a drain does to the tasks that were there

  lemma {:induction false} FinishesHandNothing(log: seq<Event>, more: seq<Event>, n: Id)
    requires forall e | e in more :: !e.Handed?
    ensures HandedCount(log + more, n) == HandedCount(log, n)
  {
    if more == [] {
      assert log + more == log;
    } else {
      var k := |more| - 1;
      FinishesHandNothing(log, more[..k], n);
      assert (log + more)[..|log + more| - 1] == log + more[..k];
      assert more[k] in more;
    }
  }

  lemma CheckQueueHandsNothing(w: World, t: nat, n: Id)
    requires Inv(w) && t < |w.workers|
    ensures HandedCount(CheckQueue(w, t).q.log, n) == HandedCount(w.q.log, n)
  {
    hide Queued, Indexed, Coloured, Chronicled;
    if w.q.running && w.q.pending != [] {
      FinishesHandNothing(w.q.log, [Event.Start(w.q.pending[0])], n);
    }
  }

  lemma FlushHandsNothing(s: State, current: int, n: Id)
    requires Good(s, current)
    ensures HandedCount(Flush(s).log, n) == HandedCount(s.log, n)
  {
    FlushExact(s, current);
    FinishesHandNothing(s.log, Finishes(s, s.complete), n);
  }

  lemma PurgeHandsNothing(s: State, current: int, n: Id)
    requires Good(s, current) && s.purgeId == PURGE
    ensures HandedCount(Purge(s).log, n) == HandedCount(s.log, n)
  {
    PurgeForced(s, current);
    FinishesHandNothing(s.log, Finishes(s, s.pending), n);
    FinishesHandNothing(s.log + Finishes(s, s.pending), Finishes(s, s.complete), n);
  }

  lemma DrainHandsNothing(w: World, s: Step, n: Id)
    requires Inv(w) && Enabled(w, s) && DrainStep(w, s)
    ensures HandedCount(Next(w, s).q.log, n) == HandedCount(w.q.log, n)
  {
    hide Queued, Indexed, Coloured, Chronicled, WorkersFit, Flush, Purge, CheckQueue, HandedCount, FinishAll;
    match s
    case WorkerEnters(t) => CheckQueueHandsNothing(w, t, n);
    case WorkerReturns(t, ok) =>
      CompletedKeeps(w, t, ok);
      FinishesHandNothing(w.q.log, [End(w.workers[t].n, ok)], n);
      CheckQueueHandsNothing(Completed(w, t, ok), t, n);
    case WorkerWakes(_) =>
    case CallFinish => FlushHandsNothing(w.q, Current(w), n);
    case CallReset(_) =>
      ColourBack(w.q, Current(w), PURGE);
      PurgeHandsNothing(Colour(w.q, PURGE), Current(w), n);
    case CallDelete =>
    case ClientWakes =>
    case ClientResumes =>
      if w.client.InFinish? {
        FlushHandsNothing(w.q, Current(w), n);
      } else if w.client.InSweep? {
        PurgeHandsNothing(w.q, Current(w), n);
      } else if w.client.Joining? {
        ColourBack(w.q, Current(w), PURGE);
        PurgeHandsNothing(Colour(w.q, PURGE), Current(w), n);
      }
    case _ =>
  }

  /** The last step of a drain leaves nothing behind. */
  lemma DrainReturns(w: World, s: Step)
    requires Inv(w) && Enabled(w, s) && DrainStep(w, s) && !Draining(Next(w, s).client)
    ensures Next(w, s).q.node == map[] && Next(w, s).q.mapTask == map[]
  {
    hide Queued, Indexed, Coloured, Chronicled, WorkersFit, Flush, Purge;
    NextKeeps(w, s);
    if s.CallFinish? || (s.ClientResumes? && w.client.InFinish?) {
      FlushExact(w.q, Current(w));
      Drained(CheckFinish(w).q, Current(w));
    } else if s.ClientResumes? && w.client.InSweep? {
      EndResetKeeps(w);
      var t := EndReset(w, w.client.saved);
      NothingIndexed(t.q);
    }
  }

  lemma NothingIndexed(s: State)
    requires s.node == map[] && Indexed(s)
    ensures s.mapTask == map[]
  {
  }

  lemma DrainKeepsNext(w: World, s: Step)
    requires Inv(w) && Enabled(w, s) && DrainStep(w, s)
    ensures Next(w, s).q.next == w.q.next
  {
    hide Queued, Indexed, Coloured, Chronicled, WorkersFit, Purge, FinishAll;
    match s
    case WorkerReturns(t, ok) => CompletedKeeps(w, t, ok);
    case CallFinish =>
      CompleteSettled(w.q, Current(w));
      FinishAllRunning(w.q, w.q.complete);
    case CallReset(_) =>
      ColourBack(w.q, Current(w), PURGE);
      PurgeRunning(Colour(w.q, PURGE), Current(w));
    case ClientResumes =>
      if w.client.InFinish? {
        CompleteSettled(w.q, Current(w));
        FinishAllRunning(w.q, w.q.complete);
      } else if w.client.InSweep? {
        PurgeRunning(w.q, Current(w));
      } else if w.client.Joining? {
        ColourBack(w.q, Current(w), PURGE);
        PurgeRunning(Colour(w.q, PURGE), Current(w));
      }
    case _ =>
  }

  lemma CompleteSettled(s: State, current: int)
    requires Good(s, current)
    ensures Distinct(s.complete) && forall n | n in s.complete :: n in s.node
  {
  }

  /** A run of enabled steps while the client is inside a call. */
  predicate Drains(w: World, steps: seq<Step>)
    requires Inv(w)
    decreases |steps|
  {
    steps == [] ||
    (&& Blocked(w.client) && Enabled(w, steps[0])
     && (NextKeeps(w, steps[0]); Drains(Next(w, steps[0]), steps[1..])))
  }

  /** Where a drain leads to: where the client will be, and the purge id it will leave. */
  function Goal(w: World): (Client, int) {
    match w.client
    case InFinish(_) => (Idle, w.q.purgeId)
    case InReset(saved, _) => (Idle, saved)
    case InSweep(saved) => (Idle, saved)
    case Joining => (Deleted(w.q.purgeId), PURGE)
    case _ => (w.client, w.q.purgeId)
  }

  lemma GoalStays(w: World, s: Step)
    requires Inv(w) && Draining(w.client) && Enabled(w, s)
    ensures Goal(Next(w, s)) == Goal(w)
  {
    hide Good, WorkersFit, Flush, Purge;
    match s
    case WorkerReturns(t, ok) => CompletedKeeps(w, t, ok);
    case ClientResumes =>
      FlushExact(w.q, Current(w));
      if w.client.Joining? {
        ColourBack(w.q, Current(w), PURGE);
        PurgeForced(Colour(w.q, PURGE), Current(w));
      }
    case _ =>
  }

  lemma DrainGoesOnOrEnds(w: World, s: Step)
    requires Inv(w) && Draining(w.client) && Enabled(w, s)
    ensures Blocked(Next(w, s).client) ==> Draining(Next(w, s).client)
  {
    hide Good, WorkersFit, Flush, Purge;
    if s.WorkerReturns? {
      CompletedKeeps(w, s.t, s.ok);
    }
  }

  lemma {:induction false} DrainsKeep(w: World, steps: seq<Step>, n: Id)
    requires Inv(w) && Drains(w, steps) && (Draining(w.client) || steps == [])
    ensures Draining(w.client) && !Draining(Play(w, steps).client) ==>
      Play(w, steps).q.node == map[] && Play(w, steps).q.mapTask == map[]
    ensures HandedCount(Play(w, steps).q.log, n) == HandedCount(w.q.log, n)
    ensures Play(w, steps).q.next == w.q.next && Goal(Play(w, steps)) == Goal(w)
    decreases |steps|
  {
    hide Inv, Next, Draining, HandedCount, Enabled, Goal, Blocked;
    if steps != [] {
      GoalStays(w, steps[0]);
      DrainGoesOnOrEnds(w, steps[0]);
      NextKeeps(w, steps[0]);
      DrainHandsNothing(w, steps[0], n);
      DrainKeepsNext(w, steps[0]);
      DrainsKeep(Next(w, steps[0]), steps[1..], n);
      if !Draining(Next(w, steps[0]).client) {
        DrainReturns(w, steps[0]);
      }
    }
  }

  // ---------------------------------------------------------------- a call gets on

  /** The steps that threads take of their own accord: everything but waking up without cause. */
  predicate Own(s: Step) { s.WorkerEnters? || s.WorkerReturns? || s.ClientResumes? }

  function Causeless(steps: seq<Step>): nat {
    if steps == [] then 0 else (if Own(steps[0]) then 0 else 1) + Causeless(steps[1..])
  }

  /** finish is called while something is pending, or wait for a pending task, and there is no thread to run it. */
  predicate Starved(w: World) {
    && w.workers == []
    && match w.client
       case InFinish(_) => w.q.pending != []
       case InWait(n, _, _) => n in w.q.node && w.q.node[n].status == Pending
       case _ => false
  }

  /** A call in progress can always go on, unless it is starved. */
  lemma DrainGoesOn(w: World)
    requires Inv(w) && Blocked(w.client) && !Starved(w)
    ensures exists s :: Own(s) && Enabled(w, s)
  {
    if w.client.InWait? || w.client.InCancel? {
      assert Placed(w.q, w.client.n);
    }
    hide Good;
    assert w.q.active != [] ==> Held(w.workers, w.q.active[0]);
    if !Asleep(w.client) && !w.client.Joining? {
      assert Own(ClientResumes) && Enabled(w, ClientResumes);
    } else if CanMove(w.workers) {
      var t :| 0 <= t < |w.workers| && (w.workers[t] == Ready || w.workers[t].Busy?);
      if w.workers[t] == Ready {
        assert Own(WorkerEnters(t)) && Enabled(w, WorkerEnters(t));
      } else {
        assert Own(WorkerReturns(t, true)) && Enabled(w, WorkerReturns(t, true));
      }
    } else {
      AtRest(w);
      assert !Asleep(w.client);
      assert Own(ClientResumes) && Enabled(w, ClientResumes);
    }
  }

  /** How far the caller still is from getting back, leaving the workers aside. */
  function Phase(c: Client): nat {
    match c
    case InReset(_, asleep) => if asleep then 2 else 3
    case InFinish(asleep) => if asleep then 1 else 2
    case InSweep(_) => 1
    case Joining => 1
    case InWait(_, _, asleep) => if asleep then 1 else 2
    case InCancel(_, _, asleep) => if asleep then 1 else 2
    case Reading(_, _) => 1
    case _ => 0
  }

  /** A worker that completes a task wakes the client, which costs less than the task weighed. */
  function DrainWeight(w: World): nat { 4 * Weight(w) + Phase(w.client) }

  /** A node that is handed out weighs nothing any more. */
  lemma TakenWeight(w: World, n: Id)
    requires Inv(w) && n in w.q.node
    ensures |Take(w.q, n).0.pending| <= |w.q.pending| && Take(w.q, n).0.active == w.q.active
  {
    MinusFacts(w.q.pending, n);
  }

  lemma ResumedLighter(w: World)
    requires Inv(w) && Blocked(w.client) && Enabled(w, ClientResumes)
    ensures DrainWeight(Resumed(w)) < DrainWeight(w)
  {
    hide WorkersFit, Flush, Purge, Indexed, Coloured, Chronicled, Distinct;
    match w.client
    case InWait(n, _, _) => TakenWeight(w, n);
    case InCancel(n, _, _) => TakenWeight(w, n);
    case InFinish(_) => FlushExact(w.q, Current(w));
    case InReset(_, _) =>
    case InSweep(_) => PurgeForced(w.q, Current(w));
    case Joining =>
      ColourBack(w.q, Current(w), PURGE);
      PurgeForced(Colour(w.q, PURGE), Current(w));
    case _ =>
  }

  lemma WorkerLighter(w: World, s: Step)
    requires Inv(w) && Enabled(w, s) && (s.WorkerEnters? || s.WorkerReturns?)
    ensures DrainWeight(Next(w, s)) < DrainWeight(w)
  {
    WorkerStepsEnd(w, s);
    WorkerClient(w, s);
    hide Inv, Next, Weight, Enabled;
  }

  /** A worker wakes the client at most. */
  lemma WorkerClient(w: World, s: Step)
    requires Inv(w) && Enabled(w, s) && (s.WorkerEnters? || s.WorkerReturns?)
    ensures Next(w, s).client == w.client || Next(w, s).client == Wake(w.client)
  {
    hide Good, WorkersFit, Begin, Done;
    if s.WorkerReturns? {
      CompletedKeeps(w, s.t, s.ok);
    }
  }

  lemma WakingLighter(w: World, s: Step)
    requires Inv(w) && Enabled(w, s) && (s.WorkerWakes? || s.ClientWakes?)
    ensures DrainWeight(Next(w, s)) <= DrainWeight(w) + 4
  {
    hide Good, WorkersFit;
    if s.WorkerWakes? {
      CountReadyUpdate(w.workers, s.t, Ready);
    }
  }

  /** Every step brings a call nearer to its end; a wake-up without cause puts it back by five at most. */
  lemma DrainLighter(w: World, s: Step)
    requires Inv(w) && Blocked(w.client) && Enabled(w, s)
    ensures DrainWeight(Next(w, s)) + 1 <= DrainWeight(w) + if Own(s) then 0 else 5
  {
    hide Inv, DrainWeight, CheckQueue, Completed;
    match s
    case WorkerEnters(_) => WorkerLighter(w, s);
    case WorkerReturns(_, _) => WorkerLighter(w, s);
    case WorkerWakes(_) => WakingLighter(w, s);
    case ClientWakes => WakingLighter(w, s);
    case ClientResumes => ResumedLighter(w);
    case _ =>
  }

  lemma StarvedStays(w: World, s: Step)
    requires Inv(w) && Blocked(w.client) && Enabled(w, s)
    ensures Blocked(Next(w, s).client) ==> (Starved(Next(w, s)) <==> Starved(w))
    ensures Starved(w) ==> Blocked(Next(w, s).client)
  {
    hide Good, WorkersFit, Flush, Purge;
    if s.ClientResumes? && w.client.InFinish? {
      FlushExact(w.q, Current(w));
    }
    if s.WorkerReturns? {
      CompletedKeeps(w, s.t, s.ok);
    }
  }

  /** A call has bounded length: only waking up without cause makes it longer. */
  lemma {:induction false} DrainsEnd(w: World, steps: seq<Step>)
    requires Inv(w) && Drains(w, steps)
    ensures |steps| <= DrainWeight(w) + 5 * Causeless(steps)
    decreases |steps|
  {
    hide Inv, Next, DrainWeight, Own, Blocked, Enabled;
    if steps != [] {
      NextKeeps(w, steps[0]);
      DrainLighter(w, steps[0]);
      DrainsEnd(Next(w, steps[0]), steps[1..]);
    }
  }

  /** The call has got back to its caller, or no thread can go on of its own accord. */
  ghost predicate Settles(w: World) { Blocked(w.client) ==> forall s | Own(s) :: !Enabled(w, s) }

  /** A call that has gone on as far as it can has got back to its caller, unless it was starved; a starved one never
      gets back. */
  lemma {:induction false} DrainGetsBack(w: World, steps: seq<Step>)
    requires Inv(w) && Blocked(w.client) && Drains(w, steps)
    ensures Starved(w) ==> Starved(Play(w, steps))
    ensures Settles(Play(w, steps)) ==> (Blocked(Play(w, steps).client) <==> Starved(w))
    decreases |steps|
  {
    hide Inv, Next, Blocked, Enabled, Own, Starved;
    if steps == [] {
      if !Starved(w) {
        DrainGoesOn(w);
      }
    } else {
      var v := Next(w, steps[0]);
      NextKeeps(w, steps[0]);
      StarvedStays(w, steps[0]);
      if Blocked(v.client) {
        DrainGetsBack(v, steps[1..]);
      } else {
        assert steps[1..] == [];
      }
    }
  }

  /** From any point of a call there is a way back to the caller. */
  lemma {:induction false} WayBack(w: World) returns (steps: seq<Step>)
    requires Inv(w) && Blocked(w.client) && !Starved(w)
    ensures Drains(w, steps) && !Blocked(Play(w, steps).client) && Causeless(steps) == 0
    decreases DrainWeight(w)
  {
    hide Inv, Next, Blocked, Enabled, Own, Starved, DrainWeight;
    DrainGoesOn(w);
    var s :| Own(s) && Enabled(w, s);
    NextKeeps(w, s);
    DrainLighter(w, s);
    StarvedStays(w, s);
    var rest: seq<Step> := [];
    if Blocked(Next(w, s).client) {
      rest := WayBack(Next(w, s));
    }
    steps := [s] + rest;
    assert steps[1..] == rest;
  }

  // ---------------------------------------------------------------- finish, blocking reset and delete

  /** finish, a blocking reset and delete get back to their caller after a bounded number of steps, unless finish finds
      work pending and no threads. Then all queues and the task index are empty, finish_fn has been called exactly once
      for every task that was there, and reset has put the purge id back. */
  lemma DrainFinishesEverything(w: World, call: Step, steps: seq<Step>, n: Id)
    requires Inv(w) && Enabled(w, call) && StartsDrain(call)
    requires Inv(Next(w, call)) && Drains(Next(w, call), steps) && Settles(Play(Next(w, call), steps))
    requires call.CallFinish? ==> w.workers != [] || w.q.pending == []
    ensures |steps| <= DrainWeight(Next(w, call)) + 5 * Causeless(steps)
    ensures var v := Play(Next(w, call), steps);
      && v.client == (if call.CallDelete? then Deleted(w.q.purgeId) else Idle)
      && v.q.node == map[] && v.q.mapTask == map[] && v.q.purgeId == (if call.CallDelete? then PURGE else w.q.purgeId)
      && (n in w.q.node ==> FinishCount(v.q.log, n) == 1 && HandedCount(v.q.log, n) == 0)
  {
    var v := Next(w, call);
    CallStarts(w, call, n);
    hide Inv, Play, Drains, Next, FinishCount, HandedCount, Enabled, DrainWeight, Causeless;
    DrainsKeep(v, steps, n);
    DrainsEnd(v, steps);
    if Draining(v.client) {
      DrainGetsBack(v, steps);
    } else {
      ReturnedAtOnce(v, steps);
    }
    FinishedOnce(w, Play(v, steps), n);
  }

  lemma FinishedOnce(w: World, v: World, n: Id)
    requires Inv(w) && Inv(v) && v.q.node == map[] && v.q.next == w.q.next
    requires HandedCount(v.q.log, n) == HandedCount(w.q.log, n)
    ensures n in w.q.node ==> FinishCount(v.q.log, n) == 1 && HandedCount(v.q.log, n) == 0
  {
    hide Inv, FinishCount, HandedCount;
    LeftOnce(w, n);
    LeftOnce(v, n);
  }

  lemma ReturnedAtOnce(w: World, steps: seq<Step>)
    requires Inv(w) && !Blocked(w.client) && Drains(w, steps)
    ensures Play(w, steps) == w && steps == []
  {
  }

  /** What the call itself does: it starts the drain, or comes back with nothing left. */
  lemma CallStarts(w: World, call: Step, n: Id)
    requires Inv(w) && Enabled(w, call) && StartsDrain(call)
    ensures var v := Next(w, call);
      && Inv(v) && Goal(v) == (if call.CallDelete? then (Deleted(w.q.purgeId), PURGE) else (Idle, w.q.purgeId))
      && HandedCount(v.q.log, n) == HandedCount(w.q.log, n) && v.q.next == w.q.next
      && (if Blocked(v.client) then Draining(v.client) else v.q.node == map[] && v.q.mapTask == map[])
      && (Starved(v) ==> call.CallFinish? && w.workers == [] && w.q.pending != [])
  {
    NextKeeps(w, call);
    DrainHandsNothing(w, call, n);
    DrainKeepsNext(w, call);
    if !Draining(Next(w, call).client) {
      DrainReturns(w, call);
    }
    CallAims(w, call);
    hide Inv, Next, HandedCount, Goal, Starved;
  }

  lemma CallAims(w: World, call: Step)
    requires Inv(w) && Enabled(w, call) && StartsDrain(call)
    ensures var v := Next(w, call);
      && Goal(v) == (if call.CallDelete? then (Deleted(w.q.purgeId), PURGE) else (Idle, w.q.purgeId))
      && (Blocked(v.client) ==> Draining(v.client))
      && (Starved(v) ==> call.CallFinish? && w.workers == [] && w.q.pending != [])
  {
    if call.CallFinish? {
      FinishAims(w);
    } else {
      hide Inv, Good, WorkersFit, ClientFits, Flush;
    }
  }

  lemma FinishAims(w: World)
    requires Inv(w) && w.client == Idle
    ensures var v := CheckFinish(w);
      && v.workers == w.workers && v.q.purgeId == w.q.purgeId && v.q.pending == w.q.pending
      && v.client in {Idle, InFinish(true)}
  {
    FlushExact(w.q, Current(w));
    hide Inv, Good, Flush;
  }

  // ---------------------------------------------------------------- blocking wait and cancel

  /** The call that starts a blocking wait or cancel. */
  predicate StartsWait(s: Step, task: Task) { s == CallWait(task, true) || s == CallCancel(task, true) }

  /** A caller of wait, or of cancel, is asleep or about to look again. */
  predicate WaitsInside(c: Client, wait: bool, n: Id, task: Task) {
    (if wait then c.InWait? else c.InCancel?) && c.n == n && c.task == task
  }

  /** The caller has got the status of node n: it has left, by that route alone; after a wait run_fn was called for
      it. */
  ghost predicate GotStatus(w: World, wait: bool, n: Id) {
    && w.client == Idle && n !in w.q.node && HandedCount(w.q.log, n) == 1 && FinishCount(w.q.log, n) == 0
    && (wait ==> StartCount(w.q.log, n) == 1)
  }

  lemma TakenStatus(w: World, wait: bool, n: Id)
    requires Inv(w) && n in w.q.node && (wait ==> w.q.node[n].status != Pending)
    ensures GotStatus(w.(q := Take(w.q, n).0, client := Idle), wait, n)
  {
    LeftOnce(w, n);
    assert (w.q.log + [Handed(n, w.q.node[n].status)])[..|w.q.log|] == w.q.log;
  }

  lemma WaitStep(w: World, s: Step, wait: bool, n: Id, task: Task)
    requires Inv(w) && WaitsInside(w.client, wait, n, task) && Enabled(w, s)
    ensures WaitsInside(Next(w, s).client, wait, n, task) || GotStatus(Next(w, s), wait, n)
  {
    hide Good, WorkersFit, GotStatus;
    if s.WorkerReturns? {
      CompletedKeeps(w, s.t, s.ok);
    }
    if s.ClientResumes? && Next(w, s).client.Idle? {
      TakenStatus(w, wait, n);
    }
  }

  lemma {:induction false} WaitsKeep(w: World, steps: seq<Step>, wait: bool, n: Id, task: Task)
    requires Inv(w) && Drains(w, steps) && WaitsInside(w.client, wait, n, task)
    ensures WaitsInside(Play(w, steps).client, wait, n, task) || GotStatus(Play(w, steps), wait, n)
    decreases |steps|
  {
    hide Inv, Next, WaitsInside, Enabled;
    if steps != [] {
      NextKeeps(w, steps[0]);
      WaitStep(w, steps[0], wait, n, task);
      if WaitsInside(Next(w, steps[0]).client, wait, n, task) {
        WaitsKeep(Next(w, steps[0]), steps[1..], wait, n, task);
      } else {
        ReturnedAtOnce(Next(w, steps[0]), steps[1..]);
      }
    }
  }

  lemma WaitStarts(w: World, call: Step, task: Task)
    requires Inv(w) && Enabled(w, call) && StartsWait(call, task) && task in w.q.mapTask
    ensures w.q.mapTask[task] in w.q.node
    ensures var v, n := Next(w, call), w.q.mapTask[task];
      && Inv(v) && (WaitsInside(v.client, call.CallWait?, n, task) || GotStatus(v, call.CallWait?, n))
      && (Starved(v) ==> call.CallWait? && w.workers == [] && w.q.node[n].status == Pending)
  {
    var n := w.q.mapTask[task];
    NextKeeps(w, call);
    IndexedTask(w.q, Current(w), task);
    hide Good, WorkersFit, GotStatus;
    if Next(w, call).client.Idle? {
      TakenStatus(w, call.CallWait?, n);
    }
  }

  /** A blocking wait or cancel of a tracked task gets back to its caller after a bounded number of steps, unless it is
      a wait for a pending task on a queue without threads. Then the task has left by being handed out and by no other
      way, and after a wait it has been run. */
  lemma WaitGetsStatus(w: World, call: Step, task: Task, steps: seq<Step>)
    requires Inv(w) && Enabled(w, call) && StartsWait(call, task)
    requires task in w.q.mapTask && w.q.mapTask[task] in w.q.node
    requires Inv(Next(w, call)) && Drains(Next(w, call), steps) && Settles(Play(Next(w, call), steps))
    requires call.CallWait? ==> w.workers != [] || w.q.node[w.q.mapTask[task]].status != Pending
    ensures |steps| <= DrainWeight(Next(w, call)) + 5 * Causeless(steps)
    ensures GotStatus(Play(Next(w, call), steps), call.CallWait?, w.q.mapTask[task])
  {
    hide Inv, Play, Drains, Next, Enabled, DrainWeight, Causeless, Settles, Starved, GotStatus, Blocked, WaitsInside;
    var v, n := Next(w, call), w.q.mapTask[task];
    WaitStarts(w, call, task);
    DrainsEnd(v, steps);
    WaitEnds(v, steps, call.CallWait?, n, task);
  }

  lemma WaitEnds(w: World, steps: seq<Step>, wait: bool, n: Id, task: Task)
    requires Inv(w) && Drains(w, steps) && Settles(Play(w, steps)) && !Starved(w)
    requires WaitsInside(w.client, wait, n, task) || GotStatus(w, wait, n)
    ensures GotStatus(Play(w, steps), wait, n)
  {
    hide Inv, Play, Drains, Settles, Starved;
    if WaitsInside(w.client, wait, n, task) {
      DrainGetsBack(w, steps);
      WaitsKeep(w, steps, wait, n, task);
    } else {
      ReturnedAtOnce(w, steps);
    }
  }

  // ---------------------------------------------------------------- a queue without threads

  /** On a queue made with no threads, finish after one run waits for ever, and so does wait. */
  lemma NoThreads(priority: int)
    ensures Inv(Initial(0))
    ensures Starved(Play(Initial(0), [CallRun(0, priority, true), CallFinish]))
    ensures Starved(Play(Initial(0), [CallRun(0, priority, true), CallWait(0, true)]))
  {
    InitialFits(0);
    var w, run := Initial(0), CallRun(0, priority, true);
    NextKeeps(w, run);
    OneTask(priority);
    hide Inv, Next, Initial, Play, Starved;
    StarvedCalls(Next(w, run));
    PlayTwo(w, run, CallFinish);
    PlayTwo(w, run, CallWait(0, true));
  }

  /** One task is pending on a queue without threads. */
  predicate OnePending(w: World) {
    && w.client == Idle && w.workers == [] && w.q.pending == [0] && w.q.complete == []
    && 0 in w.q.mapTask && w.q.mapTask[0] == 0 && 0 in w.q.node && w.q.node[0].status == Pending
  }

  lemma OneTask(priority: int)
    requires Inv(Initial(0))
    ensures OnePending(Next(Initial(0), CallRun(0, priority, true)))
    ensures Enabled(Initial(0), CallRun(0, priority, true))
  {
  }

  lemma StarvedCalls(w: World)
    requires Inv(w) && OnePending(w)
    ensures Enabled(w, CallFinish) && Starved(Next(w, CallFinish))
    ensures Enabled(w, CallWait(0, true)) && Starved(Next(w, CallWait(0, true)))
  {
    hide Good, WorkersFit;
  }

  lemma PlayTwo(w: World, a: Step, b: Step)
    requires Inv(w) && Enabled(w, a) && Inv(Next(w, a)) && Enabled(Next(w, a), b)
    ensures Play(w, [a, b]) == Next(Next(w, a), b)
  {
    hide Inv, Next, Enabled;
    assert [a, b][1..] == [b] && [b][1..] == [];
    NextKeeps(Next(w, a), b);
    assert Play(Next(w, a), [b]) == Play(Next(Next(w, a), b), []);
  }
}
