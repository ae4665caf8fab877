/** Draining the job queue: finish and delete get back to their caller after finitely many steps, also when the queue
    was paused, and every job accepted before has been run exactly once. */
module JobqDrains {
  import opened Queues
  import opened Threads
  import opened JobqProtocol

  /** A call in progress: the caller of finish or delete has not got back yet. */
  predicate Ending(c: Client) { c.Draining? || c.Stopping? || c.Joining? }

  /** A run of enabled steps while finish or delete is in progress. */
  predicate Drains(w: World, steps: seq<Step>)
    decreases |steps|
  {
    steps == [] || (Ending(w.client) && Enabled(w, steps[0]) && Drains(Next(w, steps[0]), steps[1..]))
  }

  /** The steps that threads take of their own accord: everything but waking up without cause. */
  predicate Own(s: Step) { s.WorkerEnters? || s.WorkerReturns? || s.ClientResumes? }

  function Causeless(steps: seq<Step>): nat {
    if steps == [] then 0 else (if Own(steps[0]) then 0 else 1) + Causeless(steps[1..])
  }

  /** The client waits for jobs that are pending, and there is no thread to run them. */
  predicate Starved(w: World) { w.client.Draining? && w.workers == [] && w.q.pending != [] }

  /** A call in progress can always go on, unless it is starved. */
  lemma DrainGoesOn(w: World)
    requires Inv(w) && Ending(w.client) && !Starved(w)
    ensures exists s :: Own(s) && Enabled(w, s)
  {
    hide Good;
    assert w.q.active != [] ==> Held(w.workers, w.q.active[0]);
    if !Asleep(w.client) && !w.client.Joining? {
      assert Own(ClientResumes) && Enabled(w, ClientResumes);
    } else if CanMove(w.workers) {
      var t :| 0 <= t < |w.workers| && (w.workers[t] == Ready || w.workers[t].Busy?);
      if w.workers[t] == Ready {
        assert Own(WorkerEnters(t)) && Enabled(w, WorkerEnters(t));
      } else {
        assert Own(WorkerReturns(t)) && Enabled(w, WorkerReturns(t));
      }
    } else {
      AtRest(w);
      assert Own(ClientResumes) && Enabled(w, ClientResumes);
    }
  }

  /** How far the caller still is from getting back, leaving the jobs aside: stopping wakes every worker once more. */
  function Phase(c: Client, workers: nat): nat {
    match c
    case Draining(asleep, _) => 4 * workers + if asleep then 3 else 4
    case Stopping => 4 * workers + 2
    case Joining => 1
    case _ => 0
  }

  function DrainWeight(w: World): nat { 4 * Weight(w) + Phase(w.client, |w.workers|) }

  lemma WorkerLighter(w: World, s: Step)
    requires Inv(w) && Enabled(w, s) && (s.WorkerEnters? || s.WorkerReturns?)
    ensures DrainWeight(Next(w, s)) < DrainWeight(w)
  {
    WorkerStepsEnd(w, s);
    NextKeepsWorkers(w, s);
    WorkerClient(w, s);
    hide Inv, Next, Weight, Enabled;
  }

  /** A worker wakes the client at most. */
  lemma WorkerClient(w: World, s: Step)
    requires Enabled(w, s) && (s.WorkerEnters? || s.WorkerReturns?)
    ensures Next(w, s).client == w.client || (w.client.Draining? && Next(w, s).client == w.client.(asleep := false))
  {
  }

  lemma ClientLighter(w: World, s: Step)
    requires Inv(w) && Ending(w.client) && Enabled(w, s) && s.ClientResumes?
    ensures DrainWeight(Next(w, s)) < DrainWeight(w)
  {
    hide Good, WorkersFit, CountReady;
  }

  lemma WakingLighter(w: World, s: Step)
    requires Enabled(w, s) && (s.WorkerWakes? || s.ClientWakes?)
    ensures DrainWeight(Next(w, s)) <= DrainWeight(w) + 4
  {
    if s.WorkerWakes? {
      CountReadyUpdate(w.workers, s.t, Ready);
    }
  }

  /** Every step brings the call nearer to its end; a wake-up without cause puts it back by five at most. */
  lemma DrainLighter(w: World, s: Step)
    requires Inv(w) && Ending(w.client) && Enabled(w, s)
    ensures DrainWeight(Next(w, s)) + 1 <= DrainWeight(w) + if Own(s) then 0 else 5
  {
    hide Inv, DrainWeight, Next;
    match s
    case WorkerEnters(_) => WorkerLighter(w, s);
    case WorkerReturns(_) => WorkerLighter(w, s);
    case WorkerWakes(_) => WakingLighter(w, s);
    case ClientWakes => WakingLighter(w, s);
    case ClientResumes => ClientLighter(w, s);
    case _ =>
  }

  lemma StarvedStays(w: World, s: Step)
    requires Inv(w) && Ending(w.client) && Enabled(w, s)
    ensures Ending(Next(w, s).client) && Starved(Next(w, s)) <==> Starved(w)
  {
    hide Good, WorkersFit;
  }

  /** A call has bounded length: only waking up without cause makes it longer. */
  lemma {:induction false} DrainsEnd(w: World, steps: seq<Step>)
    requires Inv(w) && Drains(w, steps)
    ensures |steps| <= DrainWeight(w) + 5 * Causeless(steps)
    decreases |steps|
  {
    hide Inv, Next, DrainWeight, Own, Ending, Enabled;
    if steps != [] {
      NextKeeps(w, steps[0]);
      DrainLighter(w, steps[0]);
      DrainsEnd(Next(w, steps[0]), steps[1..]);
    }
  }

  /** The caller has got back, or no thread can go on of its own accord. */
  ghost predicate Settles(w: World) { Ending(w.client) ==> forall s | Own(s) :: !Enabled(w, s) }

  /** A call that has gone on as far as it can has got back to its caller, unless it was starved; a starved one never
      gets back. */
  lemma {:induction false} DrainGetsBack(w: World, steps: seq<Step>)
    requires Inv(w) && Ending(w.client) && Drains(w, steps)
    ensures Starved(w) ==> Starved(Play(w, steps))
    ensures Settles(Play(w, steps)) ==> (Ending(Play(w, steps).client) <==> Starved(w))
    decreases |steps|
  {
    hide Inv, Next, Ending, Enabled, Own, Starved;
    if steps == [] {
      if !Starved(w) {
        DrainGoesOn(w);
      }
      StarvedEnds(w);
    } else {
      var v := Next(w, steps[0]);
      NextKeeps(w, steps[0]);
      StarvedStays(w, steps[0]);
      if Ending(v.client) {
        DrainGetsBack(v, steps[1..]);
      } else {
        assert steps[1..] == [];
      }
    }
  }

  lemma StarvedEnds(w: World)
    ensures Starved(w) ==> Ending(w.client)
  {
  }

  /** From any point of a call there is a way back to the caller. */
  lemma {:induction false} WayBack(w: World) returns (steps: seq<Step>)
    requires Inv(w) && Ending(w.client) && !Starved(w)
    ensures Drains(w, steps) && !Ending(Play(w, steps).client) && Causeless(steps) == 0
    decreases DrainWeight(w)
  {
    hide Inv, Next, Ending, Enabled, Own, Starved, DrainWeight;
    DrainGoesOn(w);
    var s :| Own(s) && Enabled(w, s);
    NextKeeps(w, s);
    DrainLighter(w, s);
    StarvedStays(w, s);
    var rest: seq<Step> := [];
    if Ending(Next(w, s).client) {
      rest := WayBack(Next(w, s));
    }
    steps := [s] + rest;
    assert steps[1..] == rest;
  }

  // ---------------------------------------------------------------- finish and delete

  /** Where the call leads to: whether it deletes the queue, and how many jobs were accepted. */
  function Goal(w: World): (Client, nat) {
    match w.client
    case Draining(_, deleting) => (if deleting then Deleted else Idle, w.q.next)
    case Stopping => (Deleted, w.q.next)
    case Joining => (Deleted, w.q.next)
    case _ => (w.client, w.q.next)
  }

  /** Nothing is left to do once the caller of finish or delete has got back. */
  predicate Quiet(w: World) {
    && w.q.pending == [] && w.q.active == []
    && if w.client.Deleted? then w.q.mode == Stop && forall t | 0 <= t < |w.workers| :: w.workers[t] == Exited
       else w.q.mode == Running
  }

  lemma DrainStep(w: World, s: Step)
    requires Inv(w) && Ending(w.client) && Enabled(w, s)
    ensures Goal(Next(w, s)) == Goal(w)
    ensures !Ending(Next(w, s).client) ==> Quiet(Next(w, s))
  {
    hide Good, WorkersFit;
  }

  lemma {:induction false} DrainsKeep(w: World, steps: seq<Step>)
    requires Inv(w) && Drains(w, steps)
    ensures Inv(Play(w, steps)) && Goal(Play(w, steps)) == Goal(w)
    ensures Ending(w.client) && !Ending(Play(w, steps).client) ==> Quiet(Play(w, steps))
    decreases |steps|
  {
    hide Inv, Next, Ending, Enabled, Goal, Quiet;
    if steps != [] {
      NextKeeps(w, steps[0]);
      DrainStep(w, steps[0]);
      DrainsKeep(Next(w, steps[0]), steps[1..]);
    }
  }

  /** finish and delete, called on a running or a paused queue, get back to their caller after a bounded number of
      steps, unless jobs are pending and there are no threads. Then every job accepted before has been run exactly once,
      and the queue is running, or all its workers are gone. */
  lemma DrainRunsEverything(w: World, call: Step, steps: seq<Step>, n: Id)
    requires Inv(w) && Enabled(w, call) && (call.CallFinish? || call.CallDelete?)
    requires Drains(Next(w, call), steps) && Settles(Play(Next(w, call), steps))
    requires w.workers != [] || w.q.pending == []
    ensures |steps| <= DrainWeight(Next(w, call)) + 5 * Causeless(steps)
    ensures var v := Play(Next(w, call), steps);
      && v.client == (if call.CallDelete? then Deleted else Idle) && Quiet(v) && v.q.next == w.q.next
      && (n < w.q.next ==> Count(v.q.log, Start(n)) == 1 && Count(v.q.log, End(n)) == 1)
  {
    var v := Next(w, call);
    CallStarts(w, call);
    hide Inv, Play, Drains, Next, Enabled, DrainWeight, Causeless, Quiet, Ending, Goal;
    DrainsKeep(v, steps);
    DrainsEnd(v, steps);
    if Ending(v.client) {
      DrainGetsBack(v, steps);
    } else {
      ReturnedAtOnce(v, steps);
    }
    var e := Play(v, steps);
    GoalReached(e);
    RunOnce(e, n);
  }

  lemma GoalReached(w: World)
    requires !Ending(w.client)
    ensures Goal(w) == (w.client, w.q.next)
  {
  }

  lemma ReturnedAtOnce(w: World, steps: seq<Step>)
    requires !Ending(w.client) && Drains(w, steps)
    ensures Play(w, steps) == w
  {
  }

  lemma CallStarts(w: World, call: Step)
    requires Inv(w) && Enabled(w, call) && (call.CallFinish? || call.CallDelete?)
    ensures var v := Next(w, call);
      && Inv(v) && Goal(v) == (if call.CallDelete? then Deleted else Idle, w.q.next)
      && (Ending(v.client) || Quiet(v)) && (Starved(v) ==> w.workers == [] && w.q.pending != [])
  {
    NextKeeps(w, call);
    hide Good, WorkersFit;
  }

  lemma RunOnce(w: World, n: Id)
    requires Inv(w) && Quiet(w)
    ensures n < w.q.next ==> Count(w.q.log, Start(n)) == 1 && Count(w.q.log, End(n)) == 1
  {
    assert LifeFits(w.q, n);
    LifeCounts(w.q.log, n);
  }

  // ---------------------------------------------------------------- a queue without threads

  /** On a queue made with no threads, finish and delete after one run wait for ever. */
  lemma NoThreads()
    ensures Starved(Play(Initial(0), [CallRun(true), CallFinish]))
    ensures Starved(Play(Initial(0), [CallRun(true), CallDelete]))
  {
    var w, run := Initial(0), CallRun(true);
    assert [run, CallFinish][1..] == [CallFinish] && [CallFinish][1..] == [];
    assert [run, CallDelete][1..] == [CallDelete] && [CallDelete][1..] == [];
    assert Play(w, [run, CallFinish]) == Play(Next(w, run), [CallFinish]);
    assert Play(Next(w, run), [CallFinish]) == Play(Next(Next(w, run), CallFinish), []);
    assert Play(w, [run, CallDelete]) == Play(Next(w, run), [CallDelete]);
    assert Play(Next(w, run), [CallDelete]) == Play(Next(Next(w, run), CallDelete), []);
  }
}
