/** The mutex-held regions of cc_workq.c as functions on the shared state, and what they promise. */
module WorkqRegions {
  import opened Lists
  import opened Queues
  import opened WorkqOrder
  import opened WorkqState

  // ---------------------------------------------------------------- purge

  /** Whether a purge takes a node out: its colour is not the current one, or it was marked while it was active. */
  predicate Stale(s: State, n: Id, marked: bool)
    requires n in s.node
  {
    s.node[n].purgeId != s.purgeId || (marked && s.node[n].purgeId == PURGE)
  }

  /** The nodes of a queue that a purge takes out, or the ones it leaves, in queue order. */
  function Select(s: State, q: seq<Id>, marked: bool, stale: bool): seq<Id>
    requires forall n | n in q :: n in s.node
  {
    if q == [] then []
    else
      var rest := Select(s, q[1..], marked, stale);
      if Stale(s, q[0], marked) == stale then [q[0]] + rest else rest
  }

  /** finish_fn is called for each node in turn. */
  function FinishAll(s: State, ns: seq<Id>): State
    requires forall n | n in ns :: n in s.node
    requires Distinct(ns)
    decreases |ns|
  {
    if ns == [] then s
    else
      DistinctTail(ns);
      FinishAll(Drop(s, ns[0], Finish(ns[0], s.node[ns[0]].status)), ns[1..])
  }

  /** Active nodes that were not renewed are marked, so that the next purge after they complete takes them out. */
  function Mark(s: State): State {
    s.(node := map n | n in s.node ::
                 if n in s.active && s.node[n].purgeId != s.purgeId then s.node[n].(purgeId := PURGE) else s.node[n],
       recent := if s.purgeId == PURGE then set n | n in s.recent && n !in s.active else s.recent)
  }

  /** Two colours: the next round starts with the other one. A forced purge has no colour to swap. */
  function Swap(s: State): State {
    s.(purgeId := if s.purgeId == PURGE then PURGE else 1 - s.purgeId, recent := {})
  }

  function PurgePending(s: State): State
    requires Queued(s)
  {
    SelectFacts(s, s.pending, false, true);
    FinishAll(s, Select(s, s.pending, false, true))
  }

  function PurgeComplete(s: State): State
    requires Queued(s)
  {
    SelectFacts(s, s.complete, true, true);
    FinishAll(s, Select(s, s.complete, true, true))
  }

  lemma {:induction false} SelectFacts(s: State, q: seq<Id>, marked: bool, stale: bool)
    requires Distinct(q) && forall n | n in q :: n in s.node
    ensures Distinct(Select(s, q, marked, stale))
    ensures forall n :: n in Select(s, q, marked, stale) <==> n in q && Stale(s, n, marked) == stale
  {
    if q != [] {
      DistinctTail(q);
      SelectFacts(s, q[1..], marked, stale);
      assert q == [q[0]] + q[1..];
      if Stale(s, q[0], marked) == stale {
        DistinctCons(q[0], Select(s, q[1..], marked, stale));
      }
    }
  }

  ghost predicate Settled(s: State, ns: seq<Id>) {
    Distinct(ns) && forall n | n in ns :: n in s.node && (n in s.pending || n in s.complete)
  }

  /** What finishing the nodes ns leaves alone. */
  ghost predicate FinishedFrom(s: State, t: State, ns: seq<Id>) {
    && t.active == s.active && t.purgeId == s.purgeId && t.recent == s.recent && t.running == s.running
    && (forall n :: n in t.node <==> n in s.node && n !in ns)
    && (forall n | n in s.node && n !in ns :: t.node[n] == s.node[n])
  }

  lemma FinishAllGood(s: State, current: int, ns: seq<Id>)
    requires Good(s, current) && Settled(s, ns)
    ensures Good(FinishAll(s, ns), current) && FinishedFrom(s, FinishAll(s, ns), ns)
  {
    GoodQueued(s, current);
    hide Good, Queued, Settled, FinishedFrom, FinishAll;
    FinishAllFrame(s, ns);
    FinishAllKeeps(s, current, ns);
  }

  lemma {:induction false} FinishAllKeeps(s: State, current: int, ns: seq<Id>)
    requires Good(s, current) && Settled(s, ns)
    ensures Good(FinishAll(s, ns), current)
    decreases |ns|
  {
    if ns != [] {
      var e := Finish(ns[0], s.node[ns[0]].status);
      SettledFirst(s, ns);
      GoodQueued(s, current);
      hide Good, Settled, Drop, Queued;
      DropGood(s, current, ns[0], e);
      DropSettled(s, ns, e);
      FinishAllKeeps(Drop(s, ns[0], e), current, ns[1..]);
    }
  }

  lemma {:induction false} FinishAllFrame(s: State, ns: seq<Id>)
    requires Queued(s) && Settled(s, ns)
    ensures FinishedFrom(s, FinishAll(s, ns), ns)
    decreases |ns|
  {
    if ns != [] {
      var e := Finish(ns[0], s.node[ns[0]].status);
      var t := Drop(s, ns[0], e);
      SettledFirst(s, ns);
      DropKeepsQueues(s, ns[0], e);
      DropSettled(s, ns, e);
      hide Queued, Settled, Drop, FinishedFrom;
      FinishAllFrame(t, ns[1..]);
      FinishedStep(s, t, FinishAll(s, ns), ns);
    }
  }

  lemma FinishedStep(s: State, t: State, u: State, ns: seq<Id>)
    requires ns != [] && t.active == s.active && t.purgeId == s.purgeId
    requires t.recent == s.recent && t.running == s.running
    requires forall n :: n in t.node <==> n in s.node && n != ns[0]
    requires forall n | n in s.node && n != ns[0] :: t.node[n] == s.node[n]
    requires FinishedFrom(t, u, ns[1..])
    ensures FinishedFrom(s, u, ns)
  {
    assert forall n :: n in ns <==> n == ns[0] || n in ns[1..] by {
      assert ns == [ns[0]] + ns[1..];
    }
  }

  lemma SettledFirst(s: State, ns: seq<Id>)
    requires Settled(s, ns) && ns != []
    ensures ns[0] in s.node && (ns[0] in s.pending || ns[0] in s.complete)
  {
  }

  lemma GoodQueued(s: State, current: int)
    requires Good(s, current)
    ensures Queued(s)
  {
  }

  lemma DropSettled(s: State, ns: seq<Id>, e: Event)
    requires Queued(s) && Settled(s, ns) && ns != []
    ensures Settled(Drop(s, ns[0], e), ns[1..])
    ensures forall n :: n in Drop(s, ns[0], e).node <==> n in s.node && n != ns[0]
    ensures forall n | n in s.node && n != ns[0] :: Drop(s, ns[0], e).node[n] == s.node[n]
    ensures Drop(s, ns[0], e).active == s.active && Drop(s, ns[0], e).purgeId == s.purgeId
    ensures Drop(s, ns[0], e).recent == s.recent && Drop(s, ns[0], e).running == s.running
  {
    hide Minus, Distinct;
    DistinctTail(ns);
    MinusFacts(s.pending, ns[0]);
    MinusFacts(s.complete, ns[0]);
  }

  /** The calls of finish_fn for the nodes of a queue. */
  function Finishes(s: State, ns: seq<Id>): seq<Event>
    requires forall n | n in ns :: n in s.node
  {
    seq(|ns|, i requires 0 <= i < |ns| => Finish(ns[i], s.node[ns[i]].status))
  }

  lemma FinishAllExact(s: State, ns: seq<Id>)
    requires Queued(s) && Settled(s, ns)
    ensures FinishAll(s, ns).log == s.log + Finishes(s, ns)
    ensures FinishAll(s, ns).pending == Except(s.pending, set n | n in ns)
    ensures FinishAll(s, ns).complete == Except(s.complete, set n | n in ns)
  {
    hide FinishAll, Queued, Settled;
    FinishAllLog(s, ns);
    FinishAllQueues(s, ns);
  }

  lemma {:induction false} FinishAllLog(s: State, ns: seq<Id>)
    requires Queued(s) && Settled(s, ns)
    ensures FinishAll(s, ns).log == s.log + Finishes(s, ns)
    decreases |ns|
  {
    if ns != [] {
      var e := Finish(ns[0], s.node[ns[0]].status);
      var t := Drop(s, ns[0], e);
      DropKeepsQueues(s, ns[0], e);
      DropSettled(s, ns, e);
      FinishesStep(s, ns, t);
      hide Queued, Settled, Finishes, Minus;
      FinishAllLog(t, ns[1..]);
      assert s.log + Finishes(s, ns) == s.log + [e] + Finishes(t, ns[1..]);
    }
  }

  lemma {:induction false} FinishAllQueues(s: State, ns: seq<Id>)
    requires Queued(s) && Settled(s, ns)
    ensures FinishAll(s, ns).pending == Except(s.pending, set n | n in ns)
    ensures FinishAll(s, ns).complete == Except(s.complete, set n | n in ns)
    decreases |ns|
  {
    var gone := set n | n in ns;
    if ns == [] {
      ExceptNothing(s.pending, gone);
      ExceptNothing(s.complete, gone);
    } else {
      var e := Finish(ns[0], s.node[ns[0]].status);
      var t, rest := Drop(s, ns[0], e), set n | n in ns[1..];
      DropKeepsQueues(s, ns[0], e);
      DropSettled(s, ns, e);
      ExceptMinus(s.pending, ns[0], rest);
      ExceptMinus(s.complete, ns[0], rest);
      hide Queued, Settled, Minus, Except;
      FinishAllQueues(t, ns[1..]);
      assert gone == rest + {ns[0]};
    }
  }

  lemma FinishesStep(s: State, ns: seq<Id>, t: State)
    requires ns != [] && (forall n | n in ns :: n in s.node) && (forall n | n in ns[1..] :: n in t.node)
    requires forall n | n in ns[1..] :: t.node[n] == s.node[n]
    ensures Finishes(s, ns) == [Finish(ns[0], s.node[ns[0]].status)] + Finishes(t, ns[1..])
  {
  }

  /** When staleness is not being in keep, a purge takes out what is not in keep and leaves what is. */
  lemma {:induction false} SelectSplits(s: State, q: seq<Id>, marked: bool, keep: set<Id>)
    requires Distinct(q) && forall n | n in q :: n in s.node
    requires forall n | n in q :: Stale(s, n, marked) <==> n !in keep
    ensures Select(s, q, marked, true) == Except(q, keep)
    ensures Except(q, set n | n in Except(q, keep)) == Only(q, keep)
  {
    if q != [] {
      DistinctTail(q);
      assert q == [q[0]] + q[1..];
      SelectSplits(s, q[1..], marked, keep);
      ExceptMembers(q, keep);
      ExceptMembers(q[1..], keep);
      ExceptSame(q[1..], set n | n in Except(q, keep), set n | n in Except(q[1..], keep));
    }
  }

  // ---------------------------------------------------------------- the whole purge

  function Purge(s: State): State
    requires Queued(s)
  {
    PurgePendingQueued(s);
    var t := Mark(PurgePending(s));
    MarkQueued(PurgePending(s));
    Swap(PurgeComplete(t))
  }

  lemma PurgePendingQueued(s: State)
    requires Queued(s)
    ensures Queued(PurgePending(s))
  {
    SelectFacts(s, s.pending, false, true);
    FinishAllQueued(s, Select(s, s.pending, false, true));
  }

  lemma {:induction false} FinishAllQueued(s: State, ns: seq<Id>)
    requires Queued(s) && Settled(s, ns)
    ensures Queued(FinishAll(s, ns))
    decreases |ns|
  {
    if ns != [] {
      var e := Finish(ns[0], s.node[ns[0]].status);
      DropKeepsQueues(s, ns[0], e);
      DropSettled(s, ns, e);
      DistinctTail(ns);
      FinishAllQueued(Drop(s, ns[0], e), ns[1..]);
    }
  }

  lemma MarkQueued(s: State)
    requires Queued(s)
    ensures Queued(Mark(s))
  {
    hide Distinct;
  }

  lemma MarkChronicled(s: State)
    requires Chronicled(s)
    ensures Chronicled(Mark(s))
  {
    hide LifeOf;
    var t := Mark(s);
    forall n
      ensures LifeFits(t, n)
    {
      assert LifeFits(s, n);
    }
  }

  /** Marking changes no colour that matters: only nodes that were not run since the last purge are recoloured. */
  lemma MarkGood(s: State, current: int)
    requires Good(s, current) && (s.purgeId == current || s.purgeId == PURGE)
    ensures Good(Mark(s), current)
  {
    hide Queued, Chronicled;
    MarkQueued(s);
    MarkChronicled(s);
    MarkColoured(s, current);
  }

  lemma MarkColoured(s: State, current: int)
    requires Coloured(s, current) && Indexed(s) && Queued(s) && (s.purgeId == current || s.purgeId == PURGE)
    ensures Coloured(Mark(s), current) && Indexed(Mark(s))
  {
    hide Distinct, Placed;
  }

  /** What is left after a purge has the old colour or none, so that nothing has the new one. */
  ghost predicate OneColour(s: State, current: int) {
    forall n | n in s.node :: s.node[n].purgeId == PURGE || (s.purgeId == current && s.node[n].purgeId == current)
  }

  lemma SwapGood(s: State, current: int)
    requires Good(s, current) && (s.purgeId == current || s.purgeId == PURGE) && OneColour(s, current)
    ensures Good(Swap(s), if s.purgeId == PURGE then current else 1 - current)
  {
    hide Distinct, LifeOf;
    forall n
      ensures LifeFits(Swap(s), n)
    {
      assert LifeFits(s, n);
    }
  }

  lemma PurgeGood(s: State, current: int)
    requires Good(s, current) && (s.purgeId == current || s.purgeId == PURGE)
    ensures Good(Purge(s), if s.purgeId == PURGE then current else 1 - current)
  {
    hide Distinct, Select, FinishAll, Chronicled, Indexed;
    var stale := Select(s, s.pending, false, true);
    SelectFacts(s, s.pending, false, true);
    FinishAllGood(s, current, stale);
    var p := PurgePending(s);
    MarkGood(p, current);
    var t := Mark(p);
    var done := Select(t, t.complete, true, true);
    SelectFacts(t, t.complete, true, true);
    FinishAllGood(t, current, done);
    var u := PurgeComplete(t);
    forall n | n in u.node
      ensures u.node[n].purgeId == PURGE || (u.purgeId == current && u.node[n].purgeId == current)
    {
      assert n in t.node && n !in done && n !in stale && Placed(t, n);
    }
    SwapGood(u, current);
  }

  /** A purge calls finish_fn exactly for the pending and complete nodes that were not run since the last one,
      in queue order, leaves the others where they are, and marks the active ones that were not run. */
  lemma PurgeExact(s: State)
    requires Good(s, s.purgeId)
    ensures Purge(s).log == s.log + Finishes(s, Except(s.pending, s.recent)) + Finishes(s, Except(s.complete, s.recent))
    ensures Purge(s).pending == Only(s.pending, s.recent) && Purge(s).complete == Only(s.complete, s.recent)
    ensures Purge(s).active == s.active && Purge(s).purgeId == 1 - s.purgeId && Purge(s).recent == {}
    ensures forall n | n in s.active ::
      n in Purge(s).node && Purge(s).node[n].purgeId == if n in s.recent then s.purgeId else PURGE
  {
    hide Distinct, Select, FinishAll, Chronicled, Indexed, Finishes;
    var stale := Select(s, s.pending, false, true);
    SelectFacts(s, s.pending, false, true);
    SelectSplits(s, s.pending, false, s.recent);
    FinishAllGood(s, s.purgeId, stale);
    FinishAllExact(s, stale);
    var p := PurgePending(s);
    assert p.complete == s.complete by {
      ExceptNothing(s.complete, set n | n in stale);
    }
    MarkGood(p, s.purgeId);
    var t := Mark(p);
    var done := Select(t, t.complete, true, true);
    SelectFacts(t, t.complete, true, true);
    SelectSplits(t, t.complete, true, s.recent);
    FinishAllGood(t, s.purgeId, done);
    FinishAllExact(t, done);
    assert Except(t.pending, set n | n in done) == t.pending by {
      ExceptNothing(t.pending, set n | n in done);
    }
    FinishesSame(s, t, done);
  }

  lemma FinishesSame(s: State, t: State, ns: seq<Id>)
    requires forall n | n in ns :: n in s.node && n in t.node && s.node[n].status == t.node[n].status
    ensures Finishes(s, ns) == Finishes(t, ns)
  {
  }

  /** A forced purge empties both queues, whatever the colours. */
  lemma PurgeForced(s: State, current: int)
    requires Good(s, current) && s.purgeId == PURGE
    ensures Purge(s).log == s.log + Finishes(s, s.pending) + Finishes(s, s.complete)
    ensures Purge(s).pending == [] && Purge(s).complete == [] && Purge(s).active == s.active
    ensures Purge(s).purgeId == PURGE && forall n | n in s.active :: n in Purge(s).node
  {
    hide Distinct, Select, FinishAll, Chronicled, Indexed, Finishes;
    OnlyNothing(s.pending, {});
    OnlyNothing(s.complete, {});
    var stale := Select(s, s.pending, false, true);
    SelectFacts(s, s.pending, false, true);
    SelectSplits(s, s.pending, false, {});
    FinishAllGood(s, current, stale);
    FinishAllExact(s, stale);
    var p := PurgePending(s);
    assert p.complete == s.complete by {
      ExceptNothing(s.complete, set n | n in stale);
    }
    MarkGood(p, current);
    var t := Mark(p);
    var done := Select(t, t.complete, true, true);
    SelectFacts(t, t.complete, true, true);
    SelectSplits(t, t.complete, true, {});
    FinishAllGood(t, current, done);
    FinishAllExact(t, done);
    ExceptNothing(t.pending, set n | n in done);
    FinishesSame(s, t, done);
  }

  // ---------------------------------------------------------------- flush, run, wait, cancel

  function Flush(s: State): State
    requires Queued(s)
  {
    FinishAll(s, s.complete)
  }

  /** A flush calls finish_fn for every complete node and empties the complete queue. */
  lemma FlushExact(s: State, current: int)
    requires Good(s, current)
    ensures Good(Flush(s), current)
    ensures Flush(s).log == s.log + Finishes(s, s.complete) && Flush(s).complete == []
    ensures Flush(s).pending == s.pending && Flush(s).active == s.active && Flush(s).purgeId == s.purgeId
    ensures Flush(s).running == s.running
    ensures forall n | n in s.node && n !in s.complete :: n in Flush(s).node && Flush(s).node[n] == s.node[n]
  {
    hide FinishAll, Chronicled, Indexed, Coloured, Distinct;
    FinishAllGood(s, current, s.complete);
    FinishAllExact(s, s.complete);
    var gone := set n | n in s.complete;
    ExceptNothing(s.pending, gone);
    OnlyNothing(s.complete, {});
    ExceptAll(s.complete, gone);
  }

  function Priorities(s: State, q: seq<Id>): (prio: seq<int>)
    requires forall n | n in q :: n in s.node
    ensures |prio| == |q|
  {
    seq(|q|, i requires 0 <= i < |q| => s.node[q[i]].priority)
  }

  /** The position of an element. */
  function Position(q: seq<Id>, n: Id): (k: nat)
    requires n in q
    ensures k < |q| && q[k] == n
  {
    if q[0] == n then 0 else 1 + Position(q[1..], n)
  }

  /** cc_workq_run: takes a new task in, renews an active one, moves a pending one, hands a complete one back. */
  function Run(s: State, task: Task, priority: int, alloc: bool): (State, Status)
    requires Queued(s) && Indexed(s)
  {
    if task !in s.mapTask then
      if alloc then (Insert(s, task, priority, ScanBack(Priorities(s, s.pending), priority, |s.pending|)), Pending)
      else (s, Error)
    else
      var n := s.mapTask[task];
      match s.node[n].status
      case Active => (Renew(s, n), Active)
      case Pending =>
        var k := Position(s.pending, n);
        (Reorder(Renew(s, n), k, MovedTo(Priorities(s, s.pending), k, priority), priority), Pending)
      case status => (Drop(s, n, Handed(n, status)), status)
  }

  lemma RunGood(s: State, task: Task, priority: int, alloc: bool)
    requires Good(s, s.purgeId)
    ensures Good(Run(s, task, priority, alloc).0, s.purgeId)
  {
    if task !in s.mapTask {
      if alloc {
        InsertGood(s, task, priority, ScanBack(Priorities(s, s.pending), priority, |s.pending|));
      }
    } else {
      var n := s.mapTask[task];
      if s.node[n].status == Active {
        RenewGood(s, n);
      } else if s.node[n].status == Pending {
        RenewGood(s, n);
        var k := Position(s.pending, n);
        ReorderGood(Renew(s, n), k, MovedTo(Priorities(s, s.pending), k, priority), priority);
      } else {
        assert Placed(s, n);
        DropGood(s, s.purgeId, n, Handed(n, s.node[n].status));
      }
    }
  }

  /** The end of cc_workq_wait and cc_workq_cancel: the node goes and the caller gets its status. */
  function Take(s: State, n: Id): (State, Status)
    requires n in s.node
  {
    (Drop(s, n, Handed(n, s.node[n].status)), s.node[n].status)
  }

  lemma TakeGood(s: State, current: int, n: Id)
    requires Good(s, current) && n in s.node && s.node[n].status != Active
    ensures Good(Take(s, n).0, current)
  {
    assert Placed(s, n);
    DropGood(s, current, n, Handed(n, s.node[n].status));
  }
}
