/** The worker threads of both thread pools: what a broadcast does to them, and how many are about to look for work. */
module Threads {
  import opened Queues

  /** Where a worker is: about to take the mutex, asleep on cond_pending, inside run_fn, or gone. */
  datatype Worker = Ready | Sleeping | Busy(n: Id) | Exited

  function Broadcast(ws: seq<Worker>): (r: seq<Worker>)
    ensures |r| == |ws|
  {
    seq(|ws|, i requires 0 <= i < |ws| => if ws[i] == Sleeping then Ready else ws[i])
  }

  /** Some worker is inside run_fn for n. */
  ghost predicate Held(ws: seq<Worker>, n: Id) {
    exists t :: 0 <= t < |ws| && ws[t] == Busy(n)
  }

  lemma HeldStays(ws: seq<Worker>, vs: seq<Worker>, t: nat, n: Id)
    requires t < |ws| == |vs| && ws[t] != Busy(n) && Held(ws, n)
    requires forall u | 0 <= u < |ws| && u != t :: vs[u] == ws[u]
    ensures Held(vs, n)
  {
    var u :| 0 <= u < |ws| && ws[u] == Busy(n);
    assert vs[u] == Busy(n);
  }

  lemma HeldAfterBroadcast(ws: seq<Worker>, n: Id)
    requires Held(ws, n)
    ensures Held(Broadcast(ws), n)
  {
    var u :| 0 <= u < |ws| && ws[u] == Busy(n);
    assert Broadcast(ws)[u] == Busy(n);
  }

  predicate CanMove(ws: seq<Worker>) {
    exists t :: 0 <= t < |ws| && (ws[t] == Ready || ws[t].Busy?)
  }

  function CountReady(ws: seq<Worker>): (k: nat)
    ensures k <= |ws|
  {
    if ws == [] then 0 else (if ws[0] == Ready then 1 else 0) + CountReady(ws[1..])
  }

  lemma {:induction false} CountReadyUpdate(ws: seq<Worker>, t: nat, x: Worker)
    requires t < |ws|
    ensures CountReady(ws[t := x]) == CountReady(ws) - (if ws[t] == Ready then 1 else 0) + (if x == Ready then 1 else 0)
  {
    if t > 0 {
      CountReadyUpdate(ws[1..], t - 1, x);
      assert ws[t := x][1..] == ws[1..][t - 1 := x];
    } else {
      assert ws[t := x][1..] == ws[1..];
    }
  }
}
