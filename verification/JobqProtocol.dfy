/** The job queue of cc_jobq.c as a protocol: one client thread, any number of workers, and a step for every region
    that runs under the mutex. Each submission has its own identity, numbered in the order of acceptance. */
module JobqProtocol {
  import opened Lists
  import opened Queues
  import opened Threads

  datatype Mode = Running | Paused | Stop

  datatype Event = Accept(n: Id) | Start(n: Id) | End(n: Id)

  /** The shared state. next counts the submissions and log is the history of callbacks. */
  datatype State = State(mode: Mode, pending: seq<Id>, active: seq<Id>, next: Id, log: seq<Event>)

  // ---------------------------------------------------------------- the regions on the shared state

  function Accepted(s: State): State {
    s.(pending := s.pending + [s.next], next := s.next + 1, log := s.log + [Accept(s.next)])
  }

  function Begin(s: State): State
    requires s.pending != []
  {
    s.(pending := s.pending[1..], active := s.active + [s.pending[0]], log := s.log + [Start(s.pending[0])])
  }

  function Done(s: State, n: Id): State { s.(active := Minus(s.active, n), log := s.log + [End(n)]) }

  // ---------------------------------------------------------------- the life of a job

  datatype Life = Unborn | Waiting | Started | Over | Broken

  function Live(l: Life, n: Id, e: Event): Life {
    if e.n != n then l
    else match e
      case Accept(_) => if l == Unborn then Waiting else Broken
      case Start(_) => if l == Waiting then Started else Broken
      case End(_) => if l == Started then Over else Broken
  }

  function LifeOf(log: seq<Event>, n: Id): Life {
    if log == [] then Unborn else Live(LifeOf(log[..|log| - 1], n), n, log[|log| - 1])
  }

  lemma LifeSnoc(log: seq<Event>, e: Event, n: Id)
    ensures LifeOf(log + [e], n) == Live(LifeOf(log, n), n, e)
  {
    assert (log + [e])[..|log|] == log;
  }

  /** The jobs started so far, in the order in which run_fn was called for them. */
  function Starts(log: seq<Event>): seq<Id> {
    if log == [] then []
    else Starts(log[..|log| - 1]) + if log[|log| - 1].Start? then [log[|log| - 1].n] else []
  }

  lemma StartsSnoc(log: seq<Event>, e: Event)
    ensures Starts(log + [e]) == Starts(log) + if e.Start? then [e.n] else []
  {
    assert (log + [e])[..|log|] == log;
  }

  function UpTo(k: nat): seq<Id> { seq(k, i => i) }

  /** The job that will be started next. */
  function Turn(s: State): Id { if s.pending == [] then s.next else s.pending[0] }

  /** The pending queue holds the submissions from the next turn to the last, in order. */
  ghost predicate Fifo(s: State) {
    && Turn(s) + |s.pending| == s.next
    && forall i | 0 <= i < |s.pending| :: s.pending[i] == Turn(s) + i
  }

  ghost predicate LifeFits(s: State, n: Id) {
    LifeOf(s.log, n) ==
      if n >= s.next then Unborn else if n >= Turn(s) then Waiting else if n in s.active then Started else Over
  }

  ghost predicate Good(s: State) {
    && Fifo(s) && Distinct(s.active) && (forall n | n in s.active :: n < Turn(s))
    && Starts(s.log) == UpTo(Turn(s))
    && forall n :: LifeFits(s, n)
  }

  lemma AcceptedGood(s: State)
    requires Good(s)
    ensures Good(Accepted(s)) && Turn(Accepted(s)) == Turn(s)
  {
    hide LifeOf, Distinct, Starts;
    StartsSnoc(s.log, Accept(s.next));
    forall n
      ensures LifeFits(Accepted(s), n)
    {
      assert LifeFits(s, n);
      LifeSnoc(s.log, Accept(s.next), n);
    }
  }

  lemma BeginGood(s: State)
    requires Good(s) && s.pending != []
    ensures Good(Begin(s)) && Turn(Begin(s)) == Turn(s) + 1
  {
    hide LifeOf, Distinct, Starts;
    StartsSnoc(s.log, Start(s.pending[0]));
    DistinctSnoc(s.active, s.pending[0]);
    var t := Begin(s);
    assert t.pending != [] ==> t.pending[0] == s.pending[1];
    forall n
      ensures LifeFits(t, n)
    {
      assert LifeFits(s, n);
      LifeSnoc(s.log, Start(s.pending[0]), n);
    }
  }

  lemma DoneGood(s: State, n: Id)
    requires Good(s) && n in s.active
    ensures Good(Done(s, n)) && Turn(Done(s, n)) == Turn(s)
    ensures forall m :: m in Done(s, n).active <==> m in s.active && m != n
    ensures |Done(s, n).active| == |s.active| - 1
  {
    hide LifeOf, Distinct, Minus, Starts;
    StartsSnoc(s.log, End(n));
    MinusFacts(s.active, n);
    forall m
      ensures LifeFits(Done(s, n), m)
    {
      assert LifeFits(s, m);
      LifeSnoc(s.log, End(n), m);
    }
  }

  lemma ModeGood(s: State, mode: Mode)
    requires Good(s)
    ensures Good(s.(mode := mode))
  {
    hide LifeOf, Distinct, Starts;
    forall n
      ensures LifeFits(s.(mode := mode), n)
    {
      assert LifeFits(s, n);
    }
  }

  // ---------------------------------------------------------------- threads

  /** Where the client is. Draining is finish, alone or as the first half of delete. */
  datatype Client = Idle | Draining(asleep: bool, deleting: bool) | Stopping | Joining | Deleted

  predicate Asleep(c: Client) { c.Draining? && c.asleep }

  datatype World = World(q: State, workers: seq<Worker>, client: Client)

  datatype Step =
    | WorkerEnters(t: nat)
    | WorkerReturns(t: nat)
    | WorkerWakes(t: nat)
    | CallRun(alloc: bool)
    | CallPause
    | CallResume
    | CallFinish
    | CallDelete
    | ClientWakes
    | ClientResumes

  /** The top of the worker's loop: sleep while paused or idle, stop, or take the head of the queue. */
  function CheckQueue(w: World, t: nat): World
    requires t < |w.workers|
  {
    if w.q.mode == Paused || (w.q.pending == [] && w.q.mode == Running) then w.(workers := w.workers[t := Sleeping])
    else if w.q.mode == Stop then w.(workers := w.workers[t := Exited])
    else
      assert w.q.mode == Running;
      w.(workers := w.workers[t := Busy(w.q.pending[0])], q := Begin(w.q))
  }

  /** run_fn has returned. The client is signalled when that was the last job. */
  function Completed(w: World, t: nat): World
    requires t < |w.workers| && w.workers[t].Busy?
  {
    var q := Done(w.q, w.workers[t].n);
    World(q, w.workers[t := Ready],
          if q.pending == [] && q.active == [] && w.client.Draining? then w.client.(asleep := false) else w.client)
  }

  function Submitted(w: World, alloc: bool): World {
    if !alloc then w
    else w.(q := Accepted(w.q), workers := if w.q.mode == Running then Broadcast(w.workers) else w.workers)
  }

  /** finish resumes a paused queue before it waits. */
  function BeginDrain(w: World, deleting: bool): World {
    var v := if w.q.mode == Paused then w.(q := w.q.(mode := Running), workers := Broadcast(w.workers)) else w;
    CheckDrain(v, deleting)
  }

  function CheckDrain(w: World, deleting: bool): World {
    w.(client := if w.q.pending != [] || w.q.active != [] then Draining(true, deleting)
                 else if deleting then Stopping else Idle)
  }

  predicate Enabled(w: World, s: Step) {
    match s
    case WorkerEnters(t) => t < |w.workers| && w.workers[t] == Ready
    case WorkerReturns(t) => t < |w.workers| && w.workers[t].Busy?
    case WorkerWakes(t) => t < |w.workers| && w.workers[t] == Sleeping
    case ClientWakes => Asleep(w.client)
    case ClientResumes =>
      || (w.client.Draining? && !Asleep(w.client))
      || w.client.Stopping?
      || (w.client.Joining? && forall t | 0 <= t < |w.workers| :: w.workers[t] == Exited)
    case _ => w.client.Idle?
  }

  function Next(w: World, s: Step): World
    requires Enabled(w, s)
  {
    match s
    case WorkerEnters(t) => CheckQueue(w, t)
    case WorkerReturns(t) => CheckQueue(Completed(w, t), t)
    case WorkerWakes(t) => w.(workers := w.workers[t := Ready])
    case CallRun(alloc) => Submitted(w, alloc)
    case CallPause => w.(q := w.q.(mode := Paused))
    case CallResume => w.(q := w.q.(mode := Running), workers := Broadcast(w.workers))
    case CallFinish => BeginDrain(w, false)
    case CallDelete => BeginDrain(w, true)
    case ClientWakes => w.(client := w.client.(asleep := false))
    case ClientResumes =>
      match w.client
      case Draining(_, deleting) => CheckDrain(w, deleting)
      case Stopping => World(w.q.(mode := Stop), Broadcast(w.workers), Joining)
      case _ => w.(client := Deleted)
  }

  // ---------------------------------------------------------------- the invariant

  /** Each active job is inside run_fn of exactly one worker; a worker asleep has nothing it may do. */
  ghost predicate WorkersFit(q: State, ws: seq<Worker>) {
    && (forall t | 0 <= t < |ws| && ws[t].Busy? :: ws[t].n in q.active)
    && (forall t, u | 0 <= t < |ws| && 0 <= u < |ws| && ws[t].Busy? && ws[t] == ws[u] :: t == u)
    && (forall n | n in q.active :: Held(ws, n))
    && (forall t | 0 <= t < |ws| && ws[t] == Sleeping :: q.mode == Paused || (q.pending == [] && q.mode == Running))
    && (forall t | 0 <= t < |ws| && ws[t] == Exited :: q.mode == Stop)
  }

  ghost predicate ClientFits(q: State, c: Client) {
    && (q.mode == Stop <==> c.Joining? || c.Deleted?)
    && (c.Draining? || c.Stopping? ==> q.mode == Running)
    && (c.Draining? && c.asleep ==> q.pending != [] || q.active != [])
    && (c.Stopping? || c.Joining? || c.Deleted? ==> q.pending == [] && q.active == [])
  }

  ghost predicate Inv(w: World) {
    Good(w.q) && WorkersFit(w.q, w.workers) && ClientFits(w.q, w.client)
  }

  lemma BroadcastFits(q: State, r: State, ws: seq<Worker>)
    requires WorkersFit(q, ws) && r.active == q.active && (q.mode == Stop ==> r.mode == Stop)
    ensures WorkersFit(r, Broadcast(ws))
  {
    forall n | n in r.active
      ensures Held(Broadcast(ws), n)
    {
      HeldAfterBroadcast(ws, n);
    }
  }

  lemma CompletedKeeps(w: World, t: nat)
    requires Inv(w) && t < |w.workers| && w.workers[t].Busy?
    ensures Inv(Completed(w, t))
  {
    var n := w.workers[t].n;
    DoneGood(w.q, n);
    hide Good, Done;
    var v := Completed(w, t);
    forall m | m in v.q.active
      ensures Held(v.workers, m)
    {
      HeldStays(w.workers, v.workers, t, m);
    }
  }

  lemma CheckQueueKeeps(w: World, t: nat)
    requires Inv(w) && t < |w.workers| && w.workers[t] == Ready
    ensures Inv(CheckQueue(w, t))
  {
    var v := CheckQueue(w, t);
    if w.q.mode == Running && w.q.pending != [] {
      BeginGood(w.q);
      TurnIsNew(w.q);
    }
    hide Good;
    forall m | m in v.q.active
      ensures Held(v.workers, m)
    {
      if m in w.q.active {
        HeldStays(w.workers, v.workers, t, m);
      } else {
        assert v.workers[t] == Busy(m);
      }
    }
  }

  lemma TurnIsNew(s: State)
    requires Good(s) && s.pending != []
    ensures s.pending[0] !in s.active
  {
  }

  lemma WakesKeep(w: World, t: nat)
    requires Inv(w) && t < |w.workers| && w.workers[t] == Sleeping
    ensures Inv(w.(workers := w.workers[t := Ready]))
  {
    hide Good;
    forall m | m in w.q.active
      ensures Held(w.workers[t := Ready], m)
    {
      HeldStays(w.workers, w.workers[t := Ready], t, m);
    }
  }

  lemma NextKeeps(w: World, s: Step)
    requires Inv(w) && Enabled(w, s)
    ensures Inv(Next(w, s))
  {
    match s
    case WorkerEnters(t) => CheckQueueKeeps(w, t);
    case WorkerReturns(t) =>
      CompletedKeeps(w, t);
      CheckQueueKeeps(Completed(w, t), t);
    case WorkerWakes(t) => WakesKeep(w, t);
    case _ => ClientKeeps(w, s);
  }

  lemma ClientKeeps(w: World, s: Step)
    requires Inv(w) && Enabled(w, s) && !s.WorkerEnters? && !s.WorkerReturns? && !s.WorkerWakes?
    ensures Inv(Next(w, s))
  {
    AcceptedGood(w.q);
    ModeGood(w.q, Running);
    ModeGood(w.q, Paused);
    ModeGood(w.q, Stop);
    hide Good;
    BroadcastFits(w.q, Next(w, s).q, w.workers);
  }

  // ---------------------------------------------------------------- every run

  function Initial(workers: nat): World {
    World(State(Running, [], [], 0, []), seq(workers, _ => Ready), Idle)
  }

  lemma InitialFits(workers: nat)
    ensures Inv(Initial(workers))
  {
    assert forall n :: LifeFits(Initial(workers).q, n);
  }

  /** The world after a run of steps. A step that is not enabled when its turn comes does not happen. */
  function Play(w: World, steps: seq<Step>): World
    decreases |steps|
  {
    if steps == [] then w
    else Play(if Enabled(w, steps[0]) then Next(w, steps[0]) else w, steps[1..])
  }

  lemma {:induction false} PlayKeeps(w: World, steps: seq<Step>)
    requires Inv(w)
    ensures Inv(Play(w, steps)) && |Play(w, steps).workers| == |w.workers|
    decreases |steps|
  {
    hide Inv, Next;
    if steps != [] {
      if Enabled(w, steps[0]) {
        NextKeeps(w, steps[0]);
        NextKeepsWorkers(w, steps[0]);
      }
      PlayKeeps(if Enabled(w, steps[0]) then Next(w, steps[0]) else w, steps[1..]);
    }
  }

  lemma NextKeepsWorkers(w: World, s: Step)
    requires Enabled(w, s)
    ensures |Next(w, s).workers| == |w.workers|
  {
  }

  function Count(log: seq<Event>, e: Event): nat {
    if log == [] then 0 else Count(log[..|log| - 1], e) + if log[|log| - 1] == e then 1 else 0
  }

  lemma {:induction false} LifeCounts(log: seq<Event>, n: Id)
    requires LifeOf(log, n) != Broken
    ensures Count(log, Start(n)) == if LifeOf(log, n).Started? || LifeOf(log, n).Over? then 1 else 0
    ensures Count(log, End(n)) == if LifeOf(log, n).Over? then 1 else 0
  {
    if log != [] {
      LifeCounts(log[..|log| - 1], n);
    }
  }

  /** In every run, jobs are started in the order in which they were accepted, each at most once, and run_fn is inside
      exactly the active ones. */
  lemma EveryRun(workers: nat, steps: seq<Step>, n: Id)
    ensures var q := Play(Initial(workers), steps).q;
      && Starts(q.log) == UpTo(Turn(q)) && Turn(q) + |q.pending| == q.next
      && Count(q.log, Start(n)) == (if n < Turn(q) then 1 else 0)
      && Count(q.log, End(n)) == (if n < Turn(q) && n !in q.active then 1 else 0)
  {
    InitialFits(workers);
    PlayKeeps(Initial(workers), steps);
    hide Play;
    var q := Play(Initial(workers), steps).q;
    assert LifeFits(q, n);
    LifeCounts(q.log, n);
  }

  // ---------------------------------------------------------------- nobody sleeps for ever

  /** In every run: while the client sleeps unsignalled, some worker is running a job or about to look for
      one, if there are any workers. */
  lemma ClientNotForgotten(workers: nat, steps: seq<Step>)
    ensures var w := Play(Initial(workers), steps); Asleep(w.client) ==> (CanMove(w.workers) <==> workers > 0)
  {
    InitialFits(workers);
    PlayKeeps(Initial(workers), steps);
    hide Inv, Play, Asleep;
    if Asleep(Play(Initial(workers), steps).client) && workers > 0 {
      SleeperIsServed(Play(Initial(workers), steps));
    }
  }

  lemma SleeperIsServed(w: World)
    requires Inv(w) && Asleep(w.client) && w.workers != []
    ensures CanMove(w.workers)
  {
    if w.q.active != [] {
      assert Held(w.workers, w.q.active[0]);
    } else {
      assert w.workers[0] != Sleeping && w.workers[0] != Exited;
    }
  }

  /** In every run a worker sleeps only while the queue is paused, or running and empty. */
  lemma WorkersNotForgotten(workers: nat, steps: seq<Step>, t: nat)
    requires t < |Play(Initial(workers), steps).workers|
    ensures var w := Play(Initial(workers), steps);
      w.q.mode != Paused && (w.q.pending != [] || w.q.mode == Stop) ==> w.workers[t] != Sleeping
  {
    InitialFits(workers);
    PlayKeeps(Initial(workers), steps);
    hide Good, Play;
  }

  function Weight(w: World): nat { 2 * |w.q.pending| + |w.q.active| + CountReady(w.workers) }

  lemma CheckQueueLighter(w: World, t: nat)
    requires Inv(w) && t < |w.workers| && w.workers[t] == Ready
    ensures Weight(CheckQueue(w, t)) < Weight(w)
  {
    hide Good;
    CountReadyUpdate(w.workers, t, CheckQueue(w, t).workers[t]);
  }

  lemma WorkerStepsEnd(w: World, s: Step)
    requires Inv(w) && Enabled(w, s) && (s.WorkerEnters? || s.WorkerReturns?)
    ensures Weight(Next(w, s)) < Weight(w)
  {
    if s.WorkerEnters? {
      CheckQueueLighter(w, s.t);
    } else {
      CompletedKeeps(w, s.t);
      CheckQueueLighter(Completed(w, s.t), s.t);
      CountReadyUpdate(w.workers, s.t, Ready);
      DoneGood(w.q, w.workers[s.t].n);
    }
  }

  /** A run in which only workers move. */
  predicate WorkersOnly(w: World, steps: seq<Step>)
    decreases |steps|
  {
    steps == [] ||
    (&& Enabled(w, steps[0]) && (steps[0].WorkerEnters? || steps[0].WorkerReturns?)
     && WorkersOnly(Next(w, steps[0]), steps[1..]))
  }

  /** The workers have nothing left to do: no job is active; unless the queue is paused none is pending either and the
      client is not asleep; once it is stopping all of them are gone. */
  predicate Rested(w: World) {
    && w.q.active == []
    && (w.q.mode == Running && w.workers != [] ==> w.q.pending == [] && !Asleep(w.client))
    && (w.q.mode == Stop ==> w.q.pending == [] && forall t | 0 <= t < |w.workers| :: w.workers[t] == Exited)
  }

  /** Left alone, the workers come to rest after finitely many steps, with nothing left to do. */
  lemma {:induction false} WorkersComeToRest(w: World, steps: seq<Step>)
    requires Inv(w) && WorkersOnly(w, steps)
    ensures |steps| <= Weight(w)
    ensures !CanMove(Play(w, steps).workers) ==> Rested(Play(w, steps))
    decreases |steps|
  {
    hide Inv, Weight, Next;
    if steps == [] {
      if !CanMove(w.workers) {
        AtRest(w);
      }
    } else {
      NextKeeps(w, steps[0]);
      WorkerStepsEnd(w, steps[0]);
      WorkersComeToRest(Next(w, steps[0]), steps[1..]);
    }
  }

  lemma AtRest(w: World)
    requires Inv(w) && !CanMove(w.workers)
    ensures Rested(w)
  {
    assert w.q.active != [] ==> Held(w.workers, w.q.active[0]);
    assert w.workers != [] ==> w.workers[0] == Sleeping || w.workers[0] == Exited;
  }
}
