/** The work queue of cc_workq.c on values: what each mutex-held region does to the shared state, the history
    of callbacks it leaves behind, and what every region keeps. */
module WorkqState {
  import opened Lists
  import opened Queues

  type Task = nat

  const PURGE := -1

  datatype Status = Error | Pending | Active | Complete | Failure

  datatype Node = Node(status: Status, priority: int, purgeId: int, task: Task)

  /** Callbacks and hand-overs, in the order in which they happen. */
  datatype Event =
    | Accept(n: Id)                  // run took the task in
    | Start(n: Id)                   // a worker calls run_fn
    | End(n: Id, ok: bool)           // run_fn returns
    | Finish(n: Id, status: Status)  // finish_fn is called and the node is gone
    | Handed(n: Id, status: Status)  // the caller gets the status and the node is gone

  /** The shared state. recent holds the nodes run since the last purge or reset and
      next is the identity of the next node; log, recent and next are history. */
  datatype State = State(running: bool, purgeId: int, pending: seq<Id>, active: seq<Id>, complete: seq<Id>,
                         node: map<Id, Node>, mapTask: map<Task, Id>, log: seq<Event>, recent: set<Id>, next: Id)

  // ---------------------------------------------------------------- primitive changes

  function Insert(s: State, task: Task, priority: int, k: nat): State
    requires k <= |s.pending|
  {
    var n := s.next;
    s.(pending := InsertAt(s.pending, k, n), node := s.node[n := Node(Pending, priority, s.purgeId, task)],
       mapTask := s.mapTask[task := n], log := s.log + [Accept(n)], recent := s.recent + {n}, next := n + 1)
  }

  /** The node was run again: it carries the current colour. */
  function Renew(s: State, n: Id): State
    requires n in s.node
  {
    s.(node := s.node[n := s.node[n].(purgeId := s.purgeId)], recent := s.recent + {n})
  }

  function Reorder(s: State, k: nat, m: nat, priority: int): State
    requires k < |s.pending| && m < |s.pending| && s.pending[k] in s.node
  {
    var n := s.pending[k];
    s.(pending := MoveAt(s.pending, k, m), node := s.node[n := s.node[n].(priority := priority)])
  }

  /** A worker moves the head of the pending queue to the tail of the active one. */
  function Begin(s: State): State
    requires s.pending != [] && s.pending[0] in s.node
  {
    var n := s.pending[0];
    s.(pending := s.pending[1..], active := s.active + [n],
       node := s.node[n := s.node[n].(status := Active)], log := s.log + [Start(n)])
  }

  /** A worker moves its task to the tail of the complete queue. */
  function Done(s: State, n: Id, ok: bool): State
    requires n in s.node
  {
    s.(active := Minus(s.active, n), complete := s.complete + [n],
       node := s.node[n := s.node[n].(status := if ok then Complete else Failure)], log := s.log + [End(n, ok)])
  }

  /** removeLocked: the node leaves its queue, the task index and memory, announced by one event. */
  function Drop(s: State, n: Id, e: Event): State
    requires n in s.node
  {
    s.(pending := Minus(s.pending, n), complete := Minus(s.complete, n), node := s.node - {n},
       mapTask := s.mapTask - {s.node[n].task}, log := s.log + [e])
  }

  function Colour(s: State, purgeId: int): State { s.(purgeId := purgeId) }

  // ---------------------------------------------------------------- what every change keeps

  ghost predicate Placed(s: State, n: Id)
    requires n in s.node
  {
    match s.node[n].status
    case Error => false
    case Pending => n in s.pending
    case Active => n in s.active
    case _ => n in s.complete
  }

  /** A tracked node is in exactly the queue its status names. */
  ghost predicate Queued(s: State) {
    && Distinct(s.pending) && Distinct(s.active) && Distinct(s.complete)
    && (forall n | n in s.pending :: n in s.node && s.node[n].status == Pending)
    && (forall n | n in s.active :: n in s.node && s.node[n].status == Active)
    && (forall n | n in s.complete :: n in s.node && (s.node[n].status == Complete || s.node[n].status == Failure))
    && (forall n | n in s.node :: Placed(s, n))
  }

  /** The task index maps exactly the tracked tasks to their nodes. */
  ghost predicate Indexed(s: State) {
    && (forall n | n in s.node :: s.node[n].task in s.mapTask && s.mapTask[s.node[n].task] == n)
    && (forall t | t in s.mapTask :: s.mapTask[t] in s.node && s.node[s.mapTask[t]].task == t)
  }

  /** Between calls the purge id is 0 or 1, and a node carries it exactly when it was run since the last purge. */
  ghost predicate Coloured(s: State, current: int) {
    && (current == 0 || current == 1)
    && (forall n | n in s.node :: s.node[n].purgeId == current <==> n in s.recent)
    && (forall n | n in s.node :: s.node[n].purgeId in {-1, 0, 1})
    && (forall n | n in s.pending :: n in s.node ==> s.node[n].purgeId != PURGE)
  }

  // ---------------------------------------------------------------- the life of a node

  datatype Life = Unborn | Waiting | Started | Ended(ok: bool) | Gone(status: Status) | Broken

  /** One event in the life of node n. Whatever does not fit breaks it for good. */
  function Live(l: Life, n: Id, e: Event): Life {
    if e.n != n then l
    else match e
      case Accept(_) => if l == Unborn then Waiting else Broken
      case Start(_) => if l == Waiting then Started else Broken
      case End(_, ok) => if l == Started then Ended(ok) else Broken
      case _ => if MayLeave(l, e.status) then Gone(e.status) else Broken
  }

  /** A node leaves with Pending when it was never run, otherwise with what its run came to. */
  predicate MayLeave(l: Life, status: Status) {
    (l == Waiting && status == Pending) || (l == Ended(true) && status == Complete) ||
    (l == Ended(false) && status == Failure)
  }

  function LifeOf(log: seq<Event>, n: Id): Life {
    if log == [] then Unborn else Live(LifeOf(log[..|log| - 1], n), n, log[|log| - 1])
  }

  function Stage(status: Status): Life {
    match status
    case Error => Broken
    case Pending => Waiting
    case Active => Started
    case Complete => Ended(true)
    case Failure => Ended(false)
  }

  ghost predicate LifeFits(s: State, n: Id) {
    if n in s.node then LifeOf(s.log, n) == Stage(s.node[n].status) && n < s.next
    else if n < s.next then LifeOf(s.log, n).Gone?
    else LifeOf(s.log, n) == Unborn
  }

  ghost predicate Chronicled(s: State) {
    forall n :: LifeFits(s, n)
  }

  ghost predicate Good(s: State, current: int) {
    Queued(s) && Indexed(s) && Coloured(s, current) && Chronicled(s)
  }

  lemma LifeSnoc(log: seq<Event>, e: Event, n: Id)
    ensures LifeOf(log + [e], n) == Live(LifeOf(log, n), n, e)
  {
    assert (log + [e])[..|log|] == log;
  }

  // ---------------------------------------------------------------- each change keeps it

  lemma InsertChronicled(s: State, task: Task, priority: int, k: nat)
    requires Good(s, s.purgeId) && k <= |s.pending| && task !in s.mapTask
    ensures Chronicled(Insert(s, task, priority, k))
  {
    hide LifeOf, Distinct, Minus, MoveAt, InsertAt;
    var t := Insert(s, task, priority, k);
    forall m
      ensures LifeFits(t, m)
    {
      assert LifeFits(s, m);
      LifeSnoc(s.log, Accept(s.next), m);
    }
  }

  lemma NextUntracked(s: State)
    requires Chronicled(s)
    ensures s.next !in s.node
  {
    assert LifeFits(s, s.next);
  }

  lemma InsertQueued(s: State, task: Task, priority: int, k: nat)
    requires Queued(s) && k <= |s.pending| && s.next !in s.node
    ensures Queued(Insert(s, task, priority, k))
  {
    hide Distinct, InsertAt;
    InsertAtFacts(s.pending, k, s.next);
  }

  lemma InsertGood(s: State, task: Task, priority: int, k: nat)
    requires Good(s, s.purgeId) && k <= |s.pending| && task !in s.mapTask
    ensures Good(Insert(s, task, priority, k), s.purgeId)
  {
    hide Chronicled, Distinct, Placed, InsertAt;
    NextUntracked(s);
    InsertAtMembers(s.pending, k, s.next);
    InsertQueued(s, task, priority, k);
    InsertChronicled(s, task, priority, k);
  }

  lemma RenewChronicled(s: State, n: Id)
    requires Good(s, s.purgeId) && n in s.node
    ensures Chronicled(Renew(s, n))
  {
    hide LifeOf, Distinct, Minus, MoveAt, InsertAt;
    var t := Renew(s, n);
    forall m
      ensures LifeFits(t, m)
    {
      assert LifeFits(s, m);
    }
  }

  lemma RenewQueued(s: State, n: Id)
    requires Queued(s) && n in s.node
    ensures Queued(Renew(s, n))
  {
    hide Distinct;
    var t := Renew(s, n);
    assert forall m | m in s.node :: t.node[m].status == s.node[m].status;
    assert forall m | m in s.node :: Placed(s, m) ==> Placed(t, m);
  }

  lemma RenewColoured(s: State, n: Id)
    requires Indexed(s) && Coloured(s, s.purgeId) && n in s.node
    ensures Indexed(Renew(s, n)) && Coloured(Renew(s, n), s.purgeId)
  {
  }

  lemma RenewGood(s: State, n: Id)
    requires Good(s, s.purgeId) && n in s.node
    ensures Good(Renew(s, n), s.purgeId)
  {
    RenewQueued(s, n);
    RenewColoured(s, n);
    RenewChronicled(s, n);
    hide Queued, Indexed, Coloured, Chronicled, Renew;
  }

  lemma ReorderChronicled(s: State, k: nat, m: nat, priority: int)
    requires Good(s, s.purgeId) && k < |s.pending| && m < |s.pending| && s.pending[k] in s.node
    ensures Chronicled(Reorder(s, k, m, priority))
  {
    hide LifeOf, Distinct, Minus, MoveAt, InsertAt;
    var t := Reorder(s, k, m, priority);
    forall n
      ensures LifeFits(t, n)
    {
      assert LifeFits(s, n);
    }
  }

  lemma ReorderQueued(s: State, k: nat, m: nat, priority: int)
    requires Queued(s) && k < |s.pending| && m < |s.pending| && s.pending[k] in s.node
    ensures Queued(Reorder(s, k, m, priority))
  {
    MoveAtMembers(s.pending, k, m);
    hide Distinct, MoveAt;
    var t := Reorder(s, k, m, priority);
    assert forall n | n in s.node :: t.node[n].status == s.node[n].status;
    assert forall n | n in s.node :: Placed(s, n) ==> Placed(t, n);
  }

  lemma ReorderIndexed(s: State, k: nat, m: nat, priority: int)
    requires Indexed(s) && k < |s.pending| && m < |s.pending| && s.pending[k] in s.node
    ensures Indexed(Reorder(s, k, m, priority))
  {
    hide MoveAt;
  }

  lemma ReorderColoured(s: State, k: nat, m: nat, priority: int)
    requires Coloured(s, s.purgeId) && Distinct(s.pending)
    requires k < |s.pending| && m < |s.pending| && s.pending[k] in s.node
    ensures Coloured(Reorder(s, k, m, priority), s.purgeId)
  {
    MoveAtMembers(s.pending, k, m);
    hide Distinct, MoveAt;
    var t := Reorder(s, k, m, priority);
    assert forall n | n in s.node :: t.node[n].purgeId == s.node[n].purgeId;
  }

  lemma ReorderGood(s: State, k: nat, m: nat, priority: int)
    requires Good(s, s.purgeId) && k < |s.pending| && m < |s.pending| && s.pending[k] in s.node
    ensures Good(Reorder(s, k, m, priority), s.purgeId)
  {
    ReorderQueued(s, k, m, priority);
    ReorderIndexed(s, k, m, priority);
    ReorderColoured(s, k, m, priority);
    ReorderChronicled(s, k, m, priority);
    hide Queued, Indexed, Coloured, Chronicled, Reorder;
  }

  lemma BeginChronicled(s: State, current: int)
    requires Good(s, current) && s.pending != []
    ensures Chronicled(Begin(s))
  {
    hide LifeOf, Distinct, Minus, MoveAt, InsertAt;
    var t, n := Begin(s), s.pending[0];
    forall m
      ensures LifeFits(t, m)
    {
      assert LifeFits(s, m);
      LifeSnoc(s.log, Start(n), m);
    }
  }

  lemma BeginQueued(s: State)
    requires Queued(s) && s.pending != []
    ensures Queued(Begin(s))
  {
    hide Distinct;
    DistinctTail(s.pending);
    DistinctSnoc(s.active, s.pending[0]);
  }

  lemma BeginGood(s: State, current: int)
    requires Good(s, current) && s.pending != []
    ensures Good(Begin(s), current)
  {
    hide Chronicled, Distinct, Placed;
    BeginQueued(s);
    BeginChronicled(s, current);
  }

  lemma DoneChronicled(s: State, current: int, n: Id, ok: bool)
    requires Good(s, current) && n in s.active
    ensures Chronicled(Done(s, n, ok))
  {
    hide LifeOf, Distinct, Minus, MoveAt, InsertAt;
    var t := Done(s, n, ok);
    forall m
      ensures LifeFits(t, m)
    {
      assert LifeFits(s, m);
      LifeSnoc(s.log, End(n, ok), m);
    }
  }

  lemma DoneQueued(s: State, n: Id, ok: bool)
    requires Queued(s) && n in s.active
    ensures Queued(Done(s, n, ok))
  {
    hide Distinct, Minus;
    MinusFacts(s.active, n);
    DistinctSnoc(s.complete, n);
  }

  lemma DoneGood(s: State, current: int, n: Id, ok: bool)
    requires Good(s, current) && n in s.active
    ensures Good(Done(s, n, ok), current)
  {
    hide Chronicled, Distinct, Minus, Placed;
    DoneQueued(s, n, ok);
    DoneChronicled(s, current, n, ok);
  }

  /** The event under which a node may be dropped: it carries the node and the status the node has. */
  predicate Announces(s: State, n: Id, e: Event) {
    n in s.node && (e == Finish(n, s.node[n].status) || e == Handed(n, s.node[n].status))
  }

  lemma DropChronicled(s: State, current: int, n: Id, e: Event)
    requires Good(s, current) && Announces(s, n, e) && (n in s.pending || n in s.complete)
    ensures Chronicled(Drop(s, n, e))
  {
    hide LifeOf, Distinct, Minus, MoveAt, InsertAt;
    var t := Drop(s, n, e);
    forall m
      ensures LifeFits(t, m)
    {
      assert LifeFits(s, m) && LifeFits(s, n);
      LifeSnoc(s.log, e, m);
    }
  }

  lemma DropKeepsQueues(s: State, n: Id, e: Event)
    requires Queued(s) && n in s.node && (n in s.pending || n in s.complete)
    ensures Queued(Drop(s, n, e))
  {
    MinusFacts(s.pending, n);
    MinusFacts(s.complete, n);
    hide Minus, Distinct;
    var t := Drop(s, n, e);
    assert forall m | m in t.node :: Placed(s, m) ==> Placed(t, m);
  }

  lemma DropColoured(s: State, current: int, n: Id, e: Event)
    requires Queued(s) && Indexed(s) && Coloured(s, current) && n in s.node
    ensures Indexed(Drop(s, n, e)) && Coloured(Drop(s, n, e), current)
  {
    MinusFacts(s.pending, n);
    hide Minus, Distinct, Placed;
  }

  lemma DropGood(s: State, current: int, n: Id, e: Event)
    requires Good(s, current) && Announces(s, n, e) && (n in s.pending || n in s.complete)
    ensures Good(Drop(s, n, e), current)
  {
    DropKeepsQueues(s, n, e);
    DropColoured(s, current, n, e);
    DropChronicled(s, current, n, e);
    hide Queued, Indexed, Coloured, Chronicled, Drop;
  }
}
