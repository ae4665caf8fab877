/** The job queue of cc_jobq.c as an object over two linked lists: the change each mutex-held region makes to them.
    wakePending and wakeComplete report whether the region broadcasts the condition variable. */
module Jobq {
  import opened Lists
  import opened Queues
  import opened JobqProtocol

  class Jobq {
    var mode: Mode
    const pending: List<Id>
    const active: List<Id>
    var next: Id
    ghost var log: seq<Event>

    /** Both lists are in order and share nothing. */
    ghost predicate Linked()
      reads pending, pending.nodes, active, active.nodes
    {
      pending != active && pending.Valid() && active.Valid() && Disjoint(pending.nodes, active.nodes)
    }

    ghost predicate Valid()
      reads this, pending, pending.nodes, active, active.nodes
    {
      Linked() && Good(Now())
    }

    /** The shared state of the protocol: what the two lists hold, in order. */
    ghost function Now(): State
      reads this, pending, pending.nodes, active, active.nodes
    {
      State(mode, pending.Data(), active.Data(), next, log)
    }

    constructor ()
      ensures Valid() && Now() == Initial(0).q && fresh(pending) && fresh(active)
    {
      mode, next, log := Running, 0, [];
      pending := new List<Id>();
      active := new List<Id>();
      new;
      InitialFits(0);
      assert Now() == Initial(0).q;
    }

    method Run(alloc: bool) returns (accepted: bool, wakePending: bool)
      requires Valid()
      modifies this, pending, pending.nodes
      ensures Valid() && accepted == alloc && wakePending == (alloc && mode == Running)
      ensures var was := old(Now()); Now() == if alloc then Accepted(was) else was
    {
      AcceptedGood(Now());
      hide Good, Linked;
      ghost var was := Now();
      var iter := Enqueue(alloc);
      if iter == null {
        assert Now() == was;
        return false, false;
      }
      log := log + [Accept(next)];
      next := next + 1;
      assert Now() == Accepted(was);
      return true, mode == Running;
    }

    method Enqueue(alloc: bool) returns (iter: ListIter?<Id>)
      requires Linked()
      modifies pending, pending.nodes
      ensures Linked() && (iter != null <==> alloc)
      ensures pending.Data() == old(pending.Data()) + if alloc then [next] else []
      ensures active.Data() == old(active.Data())
    {
      hide List.Valid, InsertAt;
      ghost var p, a := pending.nodes, active.nodes;
      AtTail(pending.Data(), next);
      iter := pending.Append(null, next, alloc);
      if iter != null {
        StayApart(p, a, iter);
      }
    }

    lemma StayApart(p: seq<ListIter<Id>>, a: seq<ListIter<Id>>, iter: ListIter<Id>)
      requires Disjoint(p, a) && iter !in a
      ensures Disjoint(InsertAt<ListIter<Id>>(p, |p|, iter), a)
    {
    }

    method Pause()
      requires Valid()
      modifies this
      ensures Valid() && Now() == old(Now()).(mode := Paused)
    {
      ModeGood(Now(), Paused);
      hide Good;
      mode := Paused;
    }

    method Resume()
      requires Valid()
      modifies this
      ensures Valid() && Now() == old(Now()).(mode := Running)
    {
      ModeGood(Now(), Running);
      hide Good;
      mode := Running;
    }

    /** The worker's look at the queue: nothing when it has to sleep or stop, otherwise the head of the queue. */
    method TakeTask() returns (sleep: bool, stop: bool, iter: ListIter?<Id>)
      requires Valid()
      modifies this, pending, pending.nodes, active, active.nodes
      ensures Valid() && var was, now := old(Now()), Now();
        && (sleep <==> was.mode == Paused || (was.pending == [] && was.mode == Running))
        && (stop <==> !sleep && was.mode == Stop)
        && if sleep || stop then now == was
           else
             && was.pending != [] && now == Begin(was)
             && iter != null && iter in active.nodes && iter.data == was.pending[0]
    {
      HeadAndSize();
      sleep, stop, iter := false, false, null;
      if mode == Paused || (pending.size == 0 && mode == Running) {
        sleep := true;
        return;
      }
      if mode == Stop {
        stop := true;
        return;
      }
      ghost var was := Now();
      BeginGood(was);
      hide Good, Linked;
      iter := pending.head;
      Hand(iter);
      log := log + [Start(iter.data)];
      assert Now() == Begin(was);
    }

    lemma HeadAndSize()
      requires Linked()
      ensures pending.size == |pending.nodes| == |pending.Data()| && active.size == |active.nodes| == |active.Data()|
      ensures pending.nodes != [] ==> pending.head == pending.nodes[0] && pending.nodes[0].data == pending.Data()[0]
    {
    }

    /** Moves the head of the pending list to the tail of the active one. */
    method Hand(iter: ListIter<Id>)
      requires Linked()
      requires pending.nodes != [] && iter == pending.nodes[0]
      modifies pending, pending.nodes, active, active.nodes
      ensures Linked() && iter in active.nodes
      ensures iter.data == old(iter.data) && pending.Data() == old(pending.Data())[1..]
      ensures active.Data() == old(active.Data()) + [old(pending.Data())[0]]
    {
      hide Distinct, IndexOf, RemoveAt, InsertAt, List.Valid, Disjoint;
      ghost var p, a, dp, da := pending.nodes, active.nodes, pending.Data(), active.Data();
      HeadGoes();
      StillApart(a, p, 0);
      AtTail<ListIter<Id>>(a, iter);
      AtTail(da, iter.data);
      List<Id>.Swapn(pending, active, iter, null);
      DataRemove(p, dp, 0);
      DataInsert(a, da, |a|, iter);
    }

    lemma HeadGoes()
      requires pending.Valid() && Disjoint(pending.nodes, active.nodes) && pending.nodes != []
      ensures var p, a := pending.nodes, active.nodes;
        && IndexOf(p, p[0]) == 0 && RemoveAt<ListIter<Id>>(p, 0) == p[1..]
        && Disjoint(a, p) && Disjoint(p[1..], a + [p[0]])
      ensures RemoveAt(pending.Data(), 0) == pending.Data()[1..]
    {
      hide Distinct;
      Apart(pending.nodes, 0);
    }

    lemma AtTail<X>(s: seq<X>, x: X)
      ensures InsertAt(s, |s|, x) == s + [x]
    {
    }

    /** run_fn has returned. */
    method CompleteTask(iter: ListIter<Id>) returns (wakeComplete: bool)
      requires Valid() && iter in active.nodes
      modifies this, active, active.nodes
      ensures Valid() && var now := Now();
        now == Done(old(Now()), old(iter.data)) && (wakeComplete <==> now.pending == [] && now.active == [])
    {
      ghost var was, n := Now(), iter.data;
      ActiveHolds(iter);
      DoneGood(was, n);
      hide Good, Minus, Linked;
      TakeOut(iter);
      log := log + [End(n)];
      assert Now() == Done(was, n);
      wakeComplete := pending.size == 0 && active.size == 0;
    }

    lemma ActiveHolds(iter: ListIter<Id>)
      requires Valid() && iter in active.nodes
      ensures iter.data in Now().active && Distinct(active.Data())
    {
      assert active.Data()[IndexOf(active.nodes, iter)] == iter.data;
    }

    method TakeOut(iter: ListIter<Id>)
      requires Linked()
      requires iter in active.nodes && Distinct(active.Data())
      modifies active, active.nodes
      ensures Linked()
      ensures active.Data() == Minus(old(active.Data()), old(iter.data)) && pending.Data() == old(pending.Data())
      ensures pending.size == |pending.Data()| && active.size == |active.Data()|
    {
      hide RemoveAt, IndexOf, Minus, Distinct, List.Valid, Disjoint;
      ghost var p, a, d, k := pending.nodes, active.nodes, active.Data(), IndexOf(active.nodes, iter);
      MinusAt(d, k);
      StillApart(p, a, k);
      var _, _ := active.Remove(iter);
      HeadAndSize();
    }

    lemma StillApart(p: seq<ListIter<Id>>, a: seq<ListIter<Id>>, k: nat)
      requires Disjoint(p, a) && k < |a|
      ensures Disjoint(p, RemoveAt<ListIter<Id>>(a, k)) && forall x | x in p :: x !in a
    {
    }

    /** The entry of finish: a paused queue is resumed; the caller sleeps while anything is pending or active. */
    method FinishRegion() returns (wakePending: bool, sleep: bool)
      requires Valid() && mode != Stop
      modifies this
      ensures Valid() && Now() == old(Now()).(mode := Running) && wakePending == (old(mode) == Paused)
      ensures sleep <==> Now().pending != [] || Now().active != []
    {
      ModeGood(Now(), Running);
      hide Good;
      wakePending := false;
      if mode == Paused {
        mode := Running;
        wakePending := true;
      }
      sleep := pending.size != 0 || active.size != 0;
    }
  }
}
