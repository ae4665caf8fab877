/** The work queue as a protocol: one client thread, any number of workers, and a step for every region that runs
    under the mutex. A condition variable is the set of threads asleep on it; a broadcast or a spurious wake-up
    takes threads out of it. */
module WorkqProtocol {
  import opened Lists
  import opened Queues
  import opened Threads
  import opened WorkqState
  import opened WorkqRegions

  /** Where the client is. A client that is asleep waits on cond_complete and has not been signalled. One that is
      reading has given up the mutex and is about to look at the status of a node for a caller that does not want to
      wait. */
  datatype Client =
    | Idle
    | InWait(n: Id, task: Task, asleep: bool)
    | InCancel(n: Id, task: Task, asleep: bool)
    | Reading(n: Id, task: Task)
    | InFinish(asleep: bool)
    | InReset(saved: int, asleep: bool)
    | InSweep(saved: int)
    | Joining
    | Deleted(saved: int)

  datatype World = World(q: State, workers: seq<Worker>, client: Client)

  datatype Step =
    | WorkerEnters(t: nat)
    | WorkerReturns(t: nat, ok: bool)
    | WorkerWakes(t: nat)
    | CallRun(task: Task, priority: int, alloc: bool)
    | CallWait(task: Task, blocking: bool)
    | CallCancel(task: Task, blocking: bool)
    | CallPurge
    | CallFlush
    | CallFinish
    | CallReset(blocking: bool)
    | CallDelete
    | ClientWakes
    | ClientResumes

  function Wake(c: Client): Client {
    match c
    case InWait(n, task, _) => InWait(n, task, false)
    case InCancel(n, task, _) => InCancel(n, task, false)
    case InFinish(_) => InFinish(false)
    case InReset(saved, _) => InReset(saved, false)
    case _ => c
  }

  predicate Asleep(c: Client) {
    (c.InWait? || c.InCancel? || c.InFinish? || c.InReset?) && c.asleep
  }

  // ---------------------------------------------------------------- the regions

  /** The top of the worker's loop: sleep, stop, or take the head of the pending queue. */
  function CheckQueue(w: World, t: nat): World
    requires t < |w.workers| && Queued(w.q)
  {
    if w.q.running && w.q.pending == [] then w.(workers := w.workers[t := Sleeping])
    else if !w.q.running then w.(workers := w.workers[t := Exited])
    else w.(workers := w.workers[t := Busy(w.q.pending[0])], q := Begin(w.q))
  }

  /** run_fn has returned: the task completes and a waiting client is woken. */
  function Completed(w: World, t: nat, ok: bool): World
    requires t < |w.workers| && w.workers[t].Busy? && w.workers[t].n in w.q.node
  {
    World(Done(w.q, w.workers[t].n, ok), w.workers[t := Ready], Wake(w.client))
  }

  function Submitted(w: World, task: Task, priority: int, alloc: bool): World
    requires Queued(w.q) && Indexed(w.q)
  {
    w.(q := Run(w.q, task, priority, alloc).0,
       workers := if task !in w.q.mapTask && alloc then Broadcast(w.workers) else w.workers)
  }

  function CheckWait(w: World, n: Id, task: Task, blocking: bool): World
    requires n in w.q.node
  {
    if w.q.node[n].status == Pending || w.q.node[n].status == Active then
      w.(client := if blocking then InWait(n, task, true) else Reading(n, task))
    else w.(q := Take(w.q, n).0, client := Idle)
  }

  function CheckCancel(w: World, n: Id, task: Task, blocking: bool): World
    requires n in w.q.node
  {
    if w.q.node[n].status == Active then
      w.(client := if blocking then InCancel(n, task, true) else Reading(n, task))
    else w.(q := Take(w.q, n).0, client := Idle)
  }

  function CheckFinish(w: World): World
    requires Queued(w.q)
  {
    var q := if w.q.complete != [] then Flush(w.q) else w.q;
    w.(q := q, client := if q.pending != [] || q.active != [] then InFinish(true) else Idle)
  }

  /** reset forces the purge id and purges once; only a blocking reset goes on to wait. */
  function BeginReset(w: World, blocking: bool): World
    requires Queued(w.q)
  {
    var q := Purge(Colour(w.q, PURGE));
    if blocking then w.(q := q, client := InReset(w.q.purgeId, false))
    else w.(q := Colour(q, w.q.purgeId))
  }

  function CheckReset(w: World, saved: int): World {
    w.(client := if w.q.active != [] then InReset(saved, true) else InSweep(saved))
  }

  function EndReset(w: World, saved: int): World
    requires Queued(w.q)
  {
    w.(q := Colour(Purge(w.q), saved), client := Idle)
  }

  function BeginDelete(w: World): World {
    World(w.q.(running := false), Broadcast(w.workers), Joining)
  }

  function EndDelete(w: World): World
    requires Queued(w.q)
  {
    w.(q := Purge(Colour(w.q, PURGE)), client := Deleted(w.q.purgeId))
  }

  // ---------------------------------------------------------------- steps

  /** When a step can happen: a worker does its own next thing, an idle client calls, a woken one goes on. */
  predicate Enabled(w: World, s: Step) {
    match s
    case WorkerEnters(t) => t < |w.workers| && w.workers[t] == Ready
    case WorkerReturns(t, _) => t < |w.workers| && w.workers[t].Busy?
    case WorkerWakes(t) => t < |w.workers| && w.workers[t] == Sleeping
    case ClientWakes => Asleep(w.client)
    case ClientResumes =>
      && !Asleep(w.client) && !w.client.Idle? && !w.client.Deleted?
      && (w.client.Joining? ==> forall t | 0 <= t < |w.workers| :: w.workers[t] == Exited)
    case _ => w.client.Idle?
  }

  function Resumed(w: World): World
    requires Inv(w)
  {
    match w.client
    case InWait(n, task, _) => CheckWait(w, n, task, true)
    case InCancel(n, task, _) => CheckCancel(w, n, task, true)
    case Reading(_, _) => w.(client := Idle)
    case InFinish(_) => CheckFinish(w)
    case InReset(saved, _) => CheckReset(w, saved)
    case InSweep(saved) => EndReset(w, saved)
    case Joining => EndDelete(w)
    case _ => w
  }

  function Next(w: World, s: Step): World
    requires Inv(w) && Enabled(w, s)
  {
    match s
    case WorkerEnters(t) => CheckQueue(w, t)
    case WorkerReturns(t, ok) =>
      CompletedKeeps(w, t, ok);
      CheckQueue(Completed(w, t, ok), t)
    case WorkerWakes(t) => w.(workers := w.workers[t := Ready])
    case CallRun(task, priority, alloc) => Submitted(w, task, priority, alloc)
    case CallWait(task, blocking) =>
      if task in w.q.mapTask then CheckWait(w, w.q.mapTask[task], task, blocking) else w
    case CallCancel(task, blocking) =>
      if task in w.q.mapTask then CheckCancel(w, w.q.mapTask[task], task, blocking) else w
    case CallPurge => w.(q := Purge(w.q))
    case CallFlush => w.(q := Flush(w.q))
    case CallFinish => CheckFinish(w)
    case CallReset(blocking) => BeginReset(w, blocking)
    case CallDelete => BeginDelete(w)
    case ClientWakes => w.(client := Wake(w.client))
    case ClientResumes => Resumed(w)
  }

  // ---------------------------------------------------------------- the invariant

  /** Each active node is inside run_fn of exactly one worker. A worker asleep has nothing to do. */
  ghost predicate WorkersFit(q: State, ws: seq<Worker>) {
    && (forall t | 0 <= t < |ws| && ws[t].Busy? :: ws[t].n in q.active)
    && (forall t, u | 0 <= t < |ws| && 0 <= u < |ws| && ws[t].Busy? && ws[t] == ws[u] :: t == u)
    && (forall n | n in q.active :: Held(ws, n))
    && (forall t | 0 <= t < |ws| && ws[t] == Sleeping :: q.pending == [] && q.running)
    && (forall t | 0 <= t < |ws| && ws[t] == Exited :: !q.running)
  }

  /** A client in the middle of a call holds a node that is still there, and sleeps only while its wait condition
      holds. */
  ghost predicate ClientFits(q: State, c: Client) {
    && (q.running <==> !c.Joining? && !c.Deleted?)
    && (q.purgeId == PURGE <==> c.InReset? || c.InSweep? || c.Deleted?)
    && match c
       case InWait(n, task, asleep) =>
         && n in q.node && q.node[n].task == task
         && (asleep ==> q.node[n].status == Pending || q.node[n].status == Active)
       case InCancel(n, task, asleep) =>
         && n in q.node && q.node[n].task == task && q.node[n].status != Pending
         && (asleep ==> q.node[n].status == Active)
       case Reading(n, task) => n in q.node && q.node[n].task == task
       case InFinish(asleep) => asleep ==> q.pending != [] || q.active != []
       case InReset(_, asleep) => q.pending == [] && (asleep ==> q.active != [])
       case InSweep(_) => q.pending == [] && q.active == []
       case Deleted(_) => q.node == map[] && q.mapTask == map[]
       case _ => true
  }

  function Current(w: World): int {
    match w.client
    case InReset(saved, _) => saved
    case InSweep(saved) => saved
    case Deleted(saved) => saved
    case _ => w.q.purgeId
  }

  ghost predicate Inv(w: World) {
    Good(w.q, Current(w)) && WorkersFit(w.q, w.workers) && ClientFits(w.q, w.client)
  }

  lemma CompletedKeeps(w: World, t: nat, ok: bool)
    requires Inv(w) && t < |w.workers| && w.workers[t].Busy?
    ensures w.workers[t].n in w.q.node && Inv(Completed(w, t, ok))
  {
    hide Good, Minus;
    var n := w.workers[t].n;
    ActiveTracked(w.q, Current(w), n);
    DoneGood(w.q, Current(w), n, ok);
    ActiveAfterDone(w.q, Current(w), n);
    var v := Completed(w, t, ok);
    forall m | m in v.q.active
      ensures Held(v.workers, m)
    {
      assert Held(w.workers, m);
      var u :| 0 <= u < |w.workers| && w.workers[u] == Busy(m);
      assert v.workers[u] == Busy(m);
    }
  }

  lemma ActiveTracked(s: State, current: int, n: Id)
    requires Good(s, current) && n in s.active
    ensures n in s.node && s.node[n].status == Active
  {
  }

  lemma ActiveAfterDone(s: State, current: int, n: Id)
    requires Good(s, current) && n in s.active
    ensures forall m :: m in Minus(s.active, n) <==> m in s.active && m != n
  {
    MinusFacts(s.active, n);
  }

  // ---------------------------------------------------------------- every step keeps the invariant

  lemma CheckQueueKeeps(w: World, t: nat)
    requires Inv(w) && t < |w.workers| && w.workers[t] == Ready
    ensures Inv(CheckQueue(w, t))
  {
    hide Queued, Indexed, Coloured, Chronicled, Begin;
    var v := CheckQueue(w, t);
    if w.q.running && w.q.pending != [] {
      var n := w.q.pending[0];
      BeginGood(w.q, Current(w));
      AfterBegin(w.q, Current(w));
      forall m | m in v.q.active
        ensures Held(v.workers, m)
      {
        if m == n {
          assert v.workers[t] == Busy(n);
        } else {
          HeldStays(w.workers, v.workers, t, m);
        }
      }
    } else {
      forall m | m in v.q.active
        ensures Held(v.workers, m)
      {
        HeldStays(w.workers, v.workers, t, m);
      }
    }
  }

  lemma AfterBegin(s: State, current: int)
    requires Good(s, current) && s.pending != []
    ensures s.pending[0] !in s.active && Begin(s).active == s.active + [s.pending[0]]
    ensures Begin(s).node.Keys == s.node.Keys && Begin(s).running == s.running && Begin(s).purgeId == s.purgeId
    ensures forall n | n in s.node :: Begin(s).node[n].task == s.node[n].task
    ensures forall n | n in s.node && n != s.pending[0] :: Begin(s).node[n] == s.node[n]
    ensures s.pending[0] in s.node && s.node[s.pending[0]].status == Pending
    ensures Begin(s).node[s.pending[0]].status == Active
  {
  }

  /** A change of the shared state that leaves the active queue and gives sleeping workers nothing to do suits them. */
  lemma WorkersStayFit(q: State, r: State, ws: seq<Worker>)
    requires WorkersFit(q, ws) && r.active == q.active && r.running == q.running
    requires q.pending == [] ==> r.pending == []
    ensures WorkersFit(r, ws)
  {
  }

  lemma BroadcastFits(q: State, r: State, ws: seq<Worker>)
    requires WorkersFit(q, ws) && r.active == q.active && (r.running == q.running || !r.running)
    ensures WorkersFit(r, Broadcast(ws))
  {
    forall n | n in r.active
      ensures Held(Broadcast(ws), n)
    {
      HeldAfterBroadcast(ws, n);
    }
  }

  lemma SubmittedKeeps(w: World, task: Task, priority: int, alloc: bool)
    requires Inv(w) && w.client == Idle
    ensures Inv(Submitted(w, task, priority, alloc))
  {
    hide Drop, Renew, Reorder, Insert;
    RunGood(w.q, task, priority, alloc);
    RunFrame(w.q, task, priority, alloc);
    hide Good, Run, Queued, Indexed;
    if task !in w.q.mapTask && alloc {
      BroadcastFits(w.q, Submitted(w, task, priority, alloc).q, w.workers);
    } else {
      WorkersStayFit(w.q, Submitted(w, task, priority, alloc).q, w.workers);
    }
  }

  lemma RunFrame(s: State, task: Task, priority: int, alloc: bool)
    requires Good(s, s.purgeId)
    ensures var r := Run(s, task, priority, alloc).0;
      && r.active == s.active && r.running == s.running && r.purgeId == s.purgeId
      && (task in s.mapTask || !alloc ==> s.pending == [] ==> r.pending == [])
  {
    if task in s.mapTask {
      assert Placed(s, s.mapTask[task]);
    }
  }

  lemma TakeKeeps(w: World, n: Id)
    requires Inv(w) && n in w.q.node && w.q.node[n].status != Active
    requires w.client.Idle? || w.client.InWait? || w.client.InCancel?
    ensures Inv(w.(q := Take(w.q, n).0, client := Idle))
  {
    TakeGood(w.q, Current(w), n);
    hide Good;
    WorkersStayFit(w.q, Take(w.q, n).0, w.workers);
  }

  lemma CheckWaitKeeps(w: World, n: Id, task: Task, blocking: bool)
    requires Inv(w) && n in w.q.node && w.q.node[n].task == task && (w.client.Idle? || w.client.InWait?)
    ensures Inv(CheckWait(w, n, task, blocking))
  {
    hide Good, WorkersFit;
    if w.q.node[n].status != Pending && w.q.node[n].status != Active {
      TakeKeeps(w, n);
    }
  }

  lemma CheckCancelKeeps(w: World, n: Id, task: Task, blocking: bool)
    requires Inv(w) && n in w.q.node && w.q.node[n].task == task && (w.client.Idle? || w.client.InCancel?)
    ensures Inv(CheckCancel(w, n, task, blocking))
  {
    hide Good, WorkersFit;
    if w.q.node[n].status != Active {
      TakeKeeps(w, n);
    }
  }

  lemma CheckFinishKeeps(w: World)
    requires Inv(w) && (w.client.Idle? || w.client.InFinish?)
    ensures Inv(CheckFinish(w))
  {
    FlushExact(w.q, Current(w));
    hide Good, Flush;
    WorkersStayFit(w.q, CheckFinish(w).q, w.workers);
  }

  lemma ColourBack(s: State, current: int, purgeId: int)
    requires Good(s, current)
    ensures Good(Colour(s, purgeId), current)
  {
    forall n
      ensures LifeFits(Colour(s, purgeId), n)
    {
      assert LifeFits(s, n);
    }
  }

  lemma PurgeKeeps(w: World)
    requires Inv(w) && w.client == Idle
    ensures Inv(w.(q := Purge(w.q)))
  {
    PurgeGood(w.q, w.q.purgeId);
    PurgeExact(w.q);
    PurgeRunning(w.q, w.q.purgeId);
    PurgeNothing(w.q);
    hide Good, Purge;
    WorkersStayFit(w.q, Purge(w.q), w.workers);
  }

  lemma PurgeRunning(s: State, current: int)
    requires Good(s, current)
    ensures Purge(s).running == s.running && Purge(s).next == s.next
  {
    SelectFacts(s, s.pending, false, true);
    FinishAllGood(s, current, Select(s, s.pending, false, true));
    FinishAllRunning(s, Select(s, s.pending, false, true));
    var t := Mark(PurgePending(s));
    SelectFacts(t, t.complete, true, true);
    FinishAllRunning(t, Select(t, t.complete, true, true));
  }

  lemma {:induction false} FinishAllRunning(s: State, ns: seq<Id>)
    requires Distinct(ns) && forall n | n in ns :: n in s.node
    ensures FinishAll(s, ns).running == s.running && FinishAll(s, ns).next == s.next
    decreases |ns|
  {
    if ns != [] {
      DistinctTail(ns);
      FinishAllRunning(Drop(s, ns[0], Finish(ns[0], s.node[ns[0]].status)), ns[1..]);
    }
  }

  lemma PurgeNothing(s: State)
    requires Good(s, s.purgeId)
    ensures s.pending == [] ==> Purge(s).pending == []
  {
    PurgeExact(s);
  }

  lemma ForcedPurge(w: World, q: State, current: int)
    requires Good(q, current) && WorkersFit(q, w.workers) && q.purgeId == PURGE
    ensures Good(Purge(q), current) && WorkersFit(Purge(q), w.workers)
    ensures Purge(q).pending == [] && Purge(q).complete == [] && Purge(q).active == q.active
    ensures Purge(q).running == q.running && Purge(q).purgeId == PURGE
  {
    PurgeGood(q, current);
    PurgeForced(q, current);
    PurgeRunning(q, current);
    hide Good, Purge;
    WorkersStayFit(q, Purge(q), w.workers);
  }

  lemma BeginResetKeeps(w: World, blocking: bool)
    requires Inv(w) && w.client == Idle
    ensures Inv(BeginReset(w, blocking))
  {
    var c := w.q.purgeId;
    ColourBack(w.q, c, PURGE);
    var q := Colour(w.q, PURGE);
    WorkersStayFit(w.q, q, w.workers);
    ForcedPurge(w, q, c);
    CurrentIsColour(w.q, c);
    hide Good, Purge;
    if !blocking {
      ColourBack(Purge(q), c, c);
      WorkersStayFit(Purge(q), Colour(Purge(q), c), w.workers);
    }
  }

  lemma CurrentIsColour(s: State, current: int)
    requires Good(s, current)
    ensures current == 0 || current == 1
  {
  }

  lemma CheckResetKeeps(w: World, saved: int)
    requires Inv(w) && w.client.InReset? && w.client.saved == saved
    ensures Inv(CheckReset(w, saved))
  {
    hide Good;
  }

  lemma EndResetKeeps(w: World)
    requires Inv(w) && w.client.InSweep?
    ensures Inv(EndReset(w, w.client.saved)) && EndReset(w, w.client.saved).q.node == map[]
  {
    var saved := w.client.saved;
    ForcedPurge(w, w.q, saved);
    CurrentIsColour(w.q, saved);
    Drained(Purge(w.q), saved);
    hide Good, Purge;
    ColourBack(Purge(w.q), saved, saved);
    WorkersStayFit(Purge(w.q), Colour(Purge(w.q), saved), w.workers);
  }

  lemma QueuedSomewhere(s: State, current: int, n: Id)
    requires Good(s, current) && n in s.node
    ensures n in s.pending || n in s.active || n in s.complete
  {
    assert Placed(s, n);
  }

  /** When all three queues are empty nothing is tracked any more. */
  lemma Drained(s: State, current: int)
    requires Good(s, current) && s.pending == [] && s.active == [] && s.complete == []
    ensures s.node == map[] && s.mapTask == map[]
  {
    forall n
      ensures n !in s.node
    {
      if n in s.node {
        QueuedSomewhere(s, current, n);
      }
    }
  }

  lemma BeginDeleteKeeps(w: World)
    requires Inv(w) && w.client == Idle
    ensures Inv(BeginDelete(w))
  {
    var q := w.q.(running := false);
    forall n
      ensures LifeFits(q, n)
    {
      assert LifeFits(w.q, n);
    }
    BroadcastFits(w.q, q, w.workers);
  }

  lemma EndDeleteKeeps(w: World)
    requires Inv(w) && w.client == Joining && forall t | 0 <= t < |w.workers| :: w.workers[t] == Exited
    ensures Inv(EndDelete(w))
  {
    var c := w.q.purgeId;
    assert w.q.active != [] ==> Held(w.workers, w.q.active[0]);
    ColourBack(w.q, c, PURGE);
    var q := Colour(w.q, PURGE);
    WorkersStayFit(w.q, q, w.workers);
    ForcedPurge(w, q, c);
    CurrentIsColour(w.q, c);
    Drained(Purge(q), c);
    hide Good, Purge;
  }

  lemma ResumedKeeps(w: World)
    requires Inv(w) && Enabled(w, ClientResumes)
    ensures Inv(Resumed(w))
  {
    hide Good, WorkersFit, CheckWait, CheckCancel, CheckFinish, EndReset, EndDelete, CheckReset;
    match w.client
    case InWait(n, task, _) => CheckWaitKeeps(w, n, task, true);
    case InCancel(n, task, _) => CheckCancelKeeps(w, n, task, true);
    case InFinish(_) => CheckFinishKeeps(w);
    case InReset(saved, _) => CheckResetKeeps(w, saved);
    case InSweep(_) => EndResetKeeps(w);
    case Joining => EndDeleteKeeps(w);
    case _ =>
  }

  lemma WakesKeep(w: World, t: nat)
    requires Inv(w) && t < |w.workers| && w.workers[t] == Sleeping
    ensures Inv(w.(workers := w.workers[t := Ready]))
  {
    hide Good;
    forall m | m in w.q.active
      ensures Held(w.workers[t := Ready], m)
    {
      HeldStays(w.workers, w.workers[t := Ready], t, m);
    }
  }

  lemma IndexedTask(s: State, current: int, task: Task)
    requires Good(s, current) && task in s.mapTask
    ensures s.mapTask[task] in s.node && s.node[s.mapTask[task]].task == task
  {
  }

  lemma NextKeeps(w: World, s: Step)
    requires Inv(w) && Enabled(w, s)
    ensures Inv(Next(w, s))
  {
    hide Good, WorkersFit, CheckWait, CheckCancel, CheckFinish, CheckQueue, Submitted, Purge, Flush, BeginReset,
      BeginDelete, Resumed;
    match s
    case WorkerEnters(t) => CheckQueueKeeps(w, t);
    case WorkerReturns(t, ok) =>
      CompletedKeeps(w, t, ok);
      CheckQueueKeeps(Completed(w, t, ok), t);
    case WorkerWakes(t) => WakesKeep(w, t);
    case CallRun(task, priority, alloc) => SubmittedKeeps(w, task, priority, alloc);
    case CallWait(task, blocking) =>
      if task in w.q.mapTask {
        IndexedTask(w.q, Current(w), task);
        CheckWaitKeeps(w, w.q.mapTask[task], task, blocking);
      }
    case CallCancel(task, blocking) =>
      if task in w.q.mapTask {
        IndexedTask(w.q, Current(w), task);
        CheckCancelKeeps(w, w.q.mapTask[task], task, blocking);
      }
    case CallPurge => PurgeKeeps(w);
    case CallFlush => FlushKeeps(w);
    case CallFinish => CheckFinishKeeps(w);
    case CallReset(blocking) => BeginResetKeeps(w, blocking);
    case CallDelete => BeginDeleteKeeps(w);
    case ClientWakes =>
    case ClientResumes => ResumedKeeps(w);
  }

  lemma FlushKeeps(w: World)
    requires Inv(w) && w.client == Idle
    ensures Inv(w.(q := Flush(w.q)))
  {
    FlushExact(w.q, Current(w));
    hide Good, Flush;
    WorkersStayFit(w.q, Flush(w.q), w.workers);
  }

  // ---------------------------------------------------------------- every run

  /** The queue after cc_workq_new, with its workers about to take the mutex for the first time. */
  function Initial(workers: nat): World {
    World(State(true, 0, [], [], [], map[], map[], [], {}, 0), seq(workers, _ => Ready), Idle)
  }

  lemma InitialFits(workers: nat)
    ensures Inv(Initial(workers))
  {
    forall n
      ensures LifeFits(Initial(workers).q, n)
    {
    }
  }

  /** The world after a run of steps. A step that is not enabled when its turn comes does not happen. */
  function Play(w: World, steps: seq<Step>): (v: World)
    requires Inv(w)
    ensures Inv(v)
    decreases |steps|
  {
    if steps == [] then w
    else if Enabled(w, steps[0]) then
      NextKeeps(w, steps[0]);
      Play(Next(w, steps[0]), steps[1..])
    else Play(w, steps[1..])
  }

  /** In every run a tracked task is in exactly one queue, the one its status names; the task index holds exactly the
      tracked tasks, so that looking one up to remove it never misses; and nothing has left the queue twice. */
  lemma EveryRun(workers: nat, steps: seq<Step>)
    ensures Inv(Initial(workers))
    ensures var w := Play(Initial(workers), steps); Queued(w.q) && Indexed(w.q) && Chronicled(w.q)
  {
    InitialFits(workers);
    hide Queued, Indexed, Chronicled, Coloured;
    var w := Play(Initial(workers), steps);
  }

  // ---------------------------------------------------------------- nobody sleeps for ever

  /** In every run: while the client sleeps unsignalled, some worker is running a task or about to look for
      one, if there are any workers. */
  lemma ClientNotForgotten(workers: nat, steps: seq<Step>)
    requires Inv(Initial(workers))
    ensures var w := Play(Initial(workers), steps); Asleep(w.client) ==> (CanMove(w.workers) <==> workers > 0)
  {
    hide Inv, Play, Asleep;
    var w := Play(Initial(workers), steps);
    PlayKeepsWorkers(Initial(workers), steps);
    if Asleep(w.client) && workers > 0 {
      SleeperIsServed(w);
    }
  }

  lemma {:induction false} PlayKeepsWorkers(w: World, steps: seq<Step>)
    requires Inv(w)
    ensures |Play(w, steps).workers| == |w.workers|
    decreases |steps|
  {
    if steps != [] {
      if Enabled(w, steps[0]) {
        NextKeeps(w, steps[0]);
        NextKeepsWorkers(w, steps[0]);
        hide Inv, Next, Enabled;
        PlayKeepsWorkers(Next(w, steps[0]), steps[1..]);
      } else {
        hide Inv, Enabled;
        PlayKeepsWorkers(w, steps[1..]);
      }
    }
  }

  lemma NextKeepsWorkers(w: World, s: Step)
    requires Inv(w) && Enabled(w, s)
    ensures |Next(w, s).workers| == |w.workers|
  {
    hide Good, WorkersFit, Flush, Purge, Run;
    if s.WorkerReturns? {
      CompletedKeeps(w, s.t, s.ok);
    }
  }

  lemma SleeperIsServed(w: World)
    requires Inv(w) && Asleep(w.client) && w.workers != []
    ensures CanMove(w.workers)
  {
    if w.q.active != [] {
      assert Held(w.workers, w.q.active[0]);
    } else {
      SleeperWaitsFor(w);
      assert w.workers[0] != Sleeping && w.workers[0] != Exited;
    }
  }

  lemma SleeperWaitsFor(w: World)
    requires Inv(w) && Asleep(w.client)
    ensures w.q.running && (w.q.active != [] || w.q.pending != [])
  {
    if w.client.InWait? || w.client.InCancel? {
      assert Placed(w.q, w.client.n);
    }
  }

  /** In every run: with work pending and the queue running, or with the queue stopping, no worker sleeps. */
  lemma WorkersNotForgotten(workers: nat, steps: seq<Step>, t: nat)
    requires Inv(Initial(workers)) && t < |Play(Initial(workers), steps).workers|
    ensures var w := Play(Initial(workers), steps); w.q.pending != [] || !w.q.running ==> w.workers[t] != Sleeping
  {
    hide Good, Play;
    assert WorkersFit(Play(Initial(workers), steps).q, Play(Initial(workers), steps).workers);
  }

  /** The client is inside wait or cancel for n, asleep or about to read its status without the mutex. */
  predicate WaitsFor(c: Client, n: Id, task: Task) {
    (c.InWait? || c.InCancel? || c.Reading?) && c.n == n && c.task == task
  }

  /** Whatever the workers do, and however often the client wakes without cause, until it goes on inside wait or cancel
      the node it holds is there, still under its task. */
  lemma {:induction false} NodeOutlivesSleep(w: World, steps: seq<Step>, n: Id, task: Task)
    requires Inv(w) && WaitsFor(w.client, n, task)
    requires forall s | s in steps :: !s.ClientResumes?
    ensures var v := Play(w, steps);
      WaitsFor(v.client, n, task) && n in v.q.node && task in v.q.mapTask && v.q.mapTask[task] == n
    decreases |steps|
  {
    if steps == [] {
      HoldsItsNode(w, n, task);
    } else {
      assert forall s | s in steps[1..] :: s in steps;
      assert steps[0] in steps;
      if Enabled(w, steps[0]) {
        NextKeeps(w, steps[0]);
        StillWaits(w, steps[0], n, task);
        hide Inv, Next, Enabled;
        NodeOutlivesSleep(Next(w, steps[0]), steps[1..], n, task);
      } else {
        hide Inv, Enabled;
        NodeOutlivesSleep(w, steps[1..], n, task);
      }
    }
  }

  lemma HoldsItsNode(w: World, n: Id, task: Task)
    requires Inv(w) && WaitsFor(w.client, n, task)
    ensures n in w.q.node && task in w.q.mapTask && w.q.mapTask[task] == n
  {
    hide Queued, Coloured, Chronicled, WorkersFit;
  }

  lemma StillWaits(w: World, s: Step, n: Id, task: Task)
    requires Inv(w) && WaitsFor(w.client, n, task) && Enabled(w, s) && !s.ClientResumes?
    ensures WaitsFor(Next(w, s).client, n, task)
  {
    hide Good, WorkersFit;
    if s.WorkerReturns? {
      CompletedKeeps(w, s.t, s.ok);
    }
  }

  // ---------------------------------------------------------------- draining ends

  function Weight(w: World): nat { 2 * |w.q.pending| + |w.q.active| + CountReady(w.workers) }

  lemma CheckQueueLighter(w: World, t: nat)
    requires Inv(w) && t < |w.workers| && w.workers[t] == Ready
    ensures Weight(CheckQueue(w, t)) < Weight(w)
    ensures CheckQueue(w, t).client == w.client
  {
    hide Queued, Indexed, Coloured, Chronicled;
    CountReadyUpdate(w.workers, t, CheckQueue(w, t).workers[t]);
  }

  /** Every step a worker takes of its own accord uses up weight, so only finitely many follow each other. */
  lemma WorkerStepsEnd(w: World, s: Step)
    requires Inv(w) && Enabled(w, s) && (s.WorkerEnters? || s.WorkerReturns?)
    ensures Weight(Next(w, s)) < Weight(w)
  {
    if s.WorkerEnters? {
      CheckQueueLighter(w, s.t);
    } else {
      CompletedKeeps(w, s.t, s.ok);
      var v, n := Completed(w, s.t, s.ok), w.workers[s.t].n;
      CheckQueueLighter(v, s.t);
      CountReadyUpdate(w.workers, s.t, Ready);
      MinusLength(w.q, Current(w), n);
    }
  }

  lemma MinusLength(s: State, current: int, n: Id)
    requires Good(s, current) && n in s.active
    ensures |Minus(s.active, n)| == |s.active| - 1
  {
    MinusFacts(s.active, n);
  }

  /** A run in which only workers move. */
  predicate WorkersOnly(w: World, steps: seq<Step>)
    requires Inv(w)
    decreases |steps|
  {
    steps == [] ||
    (&& Enabled(w, steps[0]) && (steps[0].WorkerEnters? || steps[0].WorkerReturns?)
     && (NextKeeps(w, steps[0]); WorkersOnly(Next(w, steps[0]), steps[1..])))
  }

  /** The workers have nothing left to do: no task is active; while the queue is running none is pending either and
      the client is not asleep; once it is stopping all of them are gone. */
  predicate Rested(w: World) {
    && w.q.active == []
    && (w.q.running && w.workers != [] ==> w.q.pending == [] && !Asleep(w.client))
    && (!w.q.running ==> forall t | 0 <= t < |w.workers| :: w.workers[t] == Exited)
  }

  /** Left alone, the workers come to rest after finitely many steps, with nothing left to do. */
  lemma {:induction false} WorkersComeToRest(w: World, steps: seq<Step>)
    requires Inv(w) && WorkersOnly(w, steps)
    ensures |steps| <= Weight(w)
    ensures !CanMove(Play(w, steps).workers) ==> Rested(Play(w, steps))
    decreases |steps|
  {
    hide Inv, Weight, Next;
    if steps == [] {
      if !CanMove(w.workers) {
        AtRest(w);
      }
    } else {
      NextKeeps(w, steps[0]);
      WorkerStepsEnd(w, steps[0]);
      WorkersComeToRest(Next(w, steps[0]), steps[1..]);
    }
  }

  lemma AtRest(w: World)
    requires Inv(w) && !CanMove(w.workers)
    ensures Rested(w)
  {
    assert w.q.active != [] ==> Held(w.workers, w.q.active[0]);
    assert w.workers != [] ==> w.workers[0] == Sleeping || w.workers[0] == Exited;
    if Asleep(w.client) && w.workers != [] {
      SleeperIsServed(w);
    }
  }

  // ---------------------------------------------------------------- how a node leaves

  function HandedCount(log: seq<Event>, n: Id): nat {
    if log == [] then 0
    else HandedCount(log[..|log| - 1], n) + if log[|log| - 1].Handed? && log[|log| - 1].n == n then 1 else 0
  }

  function FinishCount(log: seq<Event>, n: Id): nat {
    if log == [] then 0
    else FinishCount(log[..|log| - 1], n) + if log[|log| - 1].Finish? && log[|log| - 1].n == n then 1 else 0
  }

  function StartCount(log: seq<Event>, n: Id): nat {
    if log == [] then 0
    else StartCount(log[..|log| - 1], n) + if log[|log| - 1].Start? && log[|log| - 1].n == n then 1 else 0
  }

  /** What an unbroken life comes to: a node is announced gone at most once, by one route or the other, and run_fn was
      called exactly once for it unless it left as it came, pending. */
  lemma {:induction false} LifeCounts(log: seq<Event>, n: Id)
    requires LifeOf(log, n) != Broken
    ensures FinishCount(log, n) + HandedCount(log, n) == if LifeOf(log, n).Gone? then 1 else 0
    ensures StartCount(log, n) ==
      match LifeOf(log, n)
      case Unborn => 0
      case Waiting => 0
      case Gone(status) => if status == Pending then 0 else 1
      case _ => 1
    ensures LifeOf(log, n).Gone? ==> LifeOf(log, n).status in {Pending, Complete, Failure}
  {
    if log != [] {
      LifeCounts(log[..|log| - 1], n);
    }
  }

  /** In every run each node leaves at most once, and run_fn is called once for a node that completed or failed and
      never for one that left while it was pending. */
  lemma LeftOnce(w: World, n: Id)
    requires Inv(w)
    ensures FinishCount(w.q.log, n) + HandedCount(w.q.log, n) == if n in w.q.node || n >= w.q.next then 0 else 1
    ensures n in w.q.node ==> n < w.q.next
    ensures n in w.q.node ==> StartCount(w.q.log, n) == if w.q.node[n].status == Pending then 0 else 1
    ensures n !in w.q.node && n < w.q.next ==>
      LifeOf(w.q.log, n).Gone? && StartCount(w.q.log, n) == if LifeOf(w.q.log, n).status == Pending then 0 else 1
  {
    assert LifeFits(w.q, n);
    if n in w.q.node {
      assert Placed(w.q, n);
    }
    LifeCounts(w.q.log, n);
  }
}
