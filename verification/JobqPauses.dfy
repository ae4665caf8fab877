/** Pausing and resuming the job queue: while it is paused nothing is started, and once it is resumed everything is. */
module JobqPauses {
  import opened Queues
  import opened Threads
  import opened JobqProtocol

  /** The calls that set a paused queue running again. */
  predicate SetsGoing(s: Step) { s.CallResume? || s.CallFinish? || s.CallDelete? }

  lemma NextStaysPaused(w: World, s: Step)
    requires Inv(w) && Enabled(w, s) && w.q.mode == Paused && !SetsGoing(s)
    ensures Next(w, s).q.mode == Paused && Starts(Next(w, s).q.log) == Starts(w.q.log)
    ensures w.q.next <= Next(w, s).q.next
  {
    hide Good, WorkersFit, Starts;
    StartsSnoc(w.q.log, Accept(w.q.next));
    if s.WorkerReturns? {
      StartsSnoc(w.q.log, End(w.workers[s.t].n));
    }
  }

  /** From a pause on, whatever is submitted and whatever workers do, no job is started until resume, finish or delete
      is called. */
  lemma {:induction false} PausedStartsNothing(w: World, steps: seq<Step>)
    requires Inv(w) && w.q.mode == Paused && forall s | s in steps :: !SetsGoing(s)
    ensures Play(w, steps).q.mode == Paused && Starts(Play(w, steps).q.log) == Starts(w.q.log)
    decreases |steps|
  {
    hide Inv, Next, Starts, Enabled;
    if steps != [] {
      assert forall s | s in steps[1..] :: s in steps;
      assert steps[0] in steps;
      if Enabled(w, steps[0]) {
        NextKeeps(w, steps[0]);
        NextStaysPaused(w, steps[0]);
        PausedStartsNothing(Next(w, steps[0]), steps[1..]);
      } else {
        PausedStartsNothing(w, steps[1..]);
      }
    }
  }

  lemma PauseHolds(w: World, steps: seq<Step>)
    requires Inv(w) && Enabled(w, CallPause) && forall s | s in steps :: !SetsGoing(s)
    ensures Starts(Play(Next(w, CallPause), steps).q.log) == Starts(w.q.log)
  {
    NextKeeps(w, CallPause);
    assert Next(w, CallPause).q.mode == Paused && Next(w, CallPause).q.log == w.q.log;
    hide Inv, Next, Play;
    PausedStartsNothing(Next(w, CallPause), steps);
  }

  lemma {:induction false} WorkersKeepRunning(w: World, steps: seq<Step>)
    requires Inv(w) && WorkersOnly(w, steps) && w.q.mode == Running
    ensures Play(w, steps).q.mode == Running && Play(w, steps).q.next == w.q.next
    ensures |Play(w, steps).workers| == |w.workers|
    decreases |steps|
  {
    if steps != [] {
      NextKeeps(w, steps[0]);
      assert Next(w, steps[0]).q.mode == Running && Next(w, steps[0]).q.next == w.q.next;
      NextKeepsWorkers(w, steps[0]);
      hide Inv, Next;
      WorkersKeepRunning(Next(w, steps[0]), steps[1..]);
    }
  }

  /** After resume the workers come to rest within a bounded number of steps, and then every job accepted so far has
      been run exactly once. */
  lemma ResumeRunsEverything(w: World, steps: seq<Step>, n: Id)
    requires Inv(w) && Enabled(w, CallResume) && w.workers != [] && n < w.q.next
    requires WorkersOnly(Next(w, CallResume), steps)
    ensures |steps| <= Weight(Next(w, CallResume))
    ensures var v := Play(Next(w, CallResume), steps);
      !CanMove(v.workers) ==>
        v.q.pending == [] && v.q.active == [] && Count(v.q.log, Start(n)) == 1 && Count(v.q.log, End(n)) == 1
  {
    var u := Next(w, CallResume);
    NextKeeps(w, CallResume);
    assert u.q.mode == Running && u.q.next == w.q.next && |u.workers| == |w.workers|;
    hide Inv, Next, Play, Weight;
    WorkersComeToRest(u, steps);
    WorkersKeepRunning(u, steps);
    PlayKeeps(u, steps);
    if !CanMove(Play(u, steps).workers) {
      AllOver(Play(u, steps), n);
    }
  }

  lemma AllOver(w: World, n: Id)
    requires Inv(w) && w.q.pending == [] && w.q.active == [] && n < w.q.next
    ensures Count(w.q.log, Start(n)) == 1 && Count(w.q.log, End(n)) == 1
  {
    assert LifeFits(w.q, n);
    LifeCounts(w.q.log, n);
  }

  /** A submission is accepted, behind all others, exactly when its allocation succeeds. */
  lemma RunAccepts(w: World, alloc: bool)
    requires Inv(w) && Enabled(w, CallRun(alloc))
    ensures var v := Next(w, CallRun(alloc)).q;
      if alloc then
        && v.next == w.q.next + 1 && v.pending == w.q.pending + [w.q.next]
        && v.log == w.q.log + [Accept(w.q.next)]
      else v == w.q
  {
  }

  /** A caller asleep in finish or delete is signalled by the last job to end, and by no other. */
  lemma LastReturnSignals(w: World, t: nat)
    requires Inv(w) && Enabled(w, WorkerReturns(t)) && Asleep(w.client)
    ensures Asleep(Next(w, WorkerReturns(t)).client) <==> w.q.pending != [] || |w.q.active| > 1
  {
    assert w.workers[t].n in w.q.active;
    DoneGood(w.q, w.workers[t].n);
    hide Good, WorkersFit, Minus;
  }
}
