/** The scans cc_workq_run makes over the priorities of the pending queue, and what they do to its order. */
module WorkqOrder {
  import opened Lists

  /** Scanning back from position j: behind the last task whose priority is not below p, or at the head. */
  function ScanBack(prio: seq<int>, p: int, j: nat): (m: nat)
    requires j <= |prio|
    ensures m <= j
  {
    if j == 0 || prio[j - 1] >= p then j else ScanBack(prio, p, j - 1)
  }

  /** Scanning on from position j: in front of the first task whose priority is below p, or at the tail. */
  function ScanOn(prio: seq<int>, p: int, j: nat): (m: nat)
    requires j <= |prio|
    ensures j <= m <= |prio|
    decreases |prio| - j
  {
    if j == |prio| || prio[j] < p then j else ScanOn(prio, p, j + 1)
  }

  /** Highest priority first. */
  ghost predicate Descending(prio: seq<int>) {
    forall i, j | 0 <= i < j < |prio| :: prio[i] >= prio[j]
  }

  /** Where the task at position k ends up, counted among the others, when it is submitted again with priority p. */
  function MovedTo(prio: seq<int>, k: nat, p: int): (m: nat)
    requires k < |prio|
    ensures m < |prio|
  {
    if p > prio[k] then ScanBack(prio, prio[k], k)
    else if p < prio[k] then ScanOn(prio, prio[k], k + 1) - 1
    else k
  }

  /** The same with both scans comparing with the new priority. */
  function MovedToNew(prio: seq<int>, k: nat, p: int): (m: nat)
    requires k < |prio|
    ensures m < |prio|
  {
    if p > prio[k] then ScanBack(prio, p, k)
    else if p < prio[k] then ScanOn(prio, p, k + 1) - 1
    else k
  }

  /** The priorities after the task at position k was moved to m and given priority p. */
  function Resubmitted(prio: seq<int>, k: nat, m: nat, p: int): seq<int>
    requires k < |prio| && m < |prio|
  {
    MoveAt(prio, k, m)[m := p]
  }

  lemma {:induction false} ScanBackFinds(prio: seq<int>, p: int, j: nat)
    requires j <= |prio|
    ensures var m := ScanBack(prio, p, j); (m > 0 ==> prio[m - 1] >= p) && forall i | m <= i < j :: prio[i] < p
  {
    if j > 0 && prio[j - 1] < p {
      ScanBackFinds(prio, p, j - 1);
    }
  }

  lemma {:induction false} ScanOnFinds(prio: seq<int>, p: int, j: nat)
    requires j <= |prio|
    ensures var m := ScanOn(prio, p, j); (m < |prio| ==> prio[m] < p) && forall i | j <= i < m :: prio[i] >= p
    decreases |prio| - j
  {
    if j < |prio| && prio[j] >= p {
      ScanOnFinds(prio, p, j + 1);
    }
  }

  /** A new task goes behind every task of its priority or a higher one and in front of every lower one. */
  lemma InsertKeepsOrder(prio: seq<int>, p: int)
    requires Descending(prio)
    ensures var m := ScanBack(prio, p, |prio|);
      && Descending(InsertAt(prio, m, p))
      && (forall i | 0 <= i < m :: prio[i] >= p) && (forall i | m <= i < |prio| :: prio[i] < p)
  {
    ScanBackFinds(prio, p, |prio|);
  }

  /** On an ordered queue "move up" finds the task already where the scan stops: it moves nothing. */
  lemma RaiseMovesNothing(prio: seq<int>, k: nat, p: int)
    requires Descending(prio) && k < |prio| && p > prio[k]
    ensures MovedTo(prio, k, p) == k
  {
  }

  /** On an ordered queue "move down" takes the task to the end of those that shared its old priority. */
  lemma LowerStaysInClass(prio: seq<int>, k: nat, p: int)
    requires Descending(prio) && k < |prio| && p < prio[k]
    ensures var m := MovedTo(prio, k, p);
      && k <= m && (forall i | k <= i <= m :: prio[i] == prio[k]) && (m + 1 < |prio| ==> prio[m + 1] < prio[k])
      && MoveAt(prio, k, m) == prio
  {
    ScanOnFinds(prio, prio[k], k + 1);
  }

  /** No priority stands between the old one of the task at position k and the new one: a raised task has nothing below
      its new priority in front of it, a lowered one nothing behind it that was below its old one and is above its new
      one. */
  predicate Fits(prio: seq<int>, k: nat, p: int)
    requires k < |prio|
  {
    && (forall i | 0 <= i < k :: prio[i] >= p || p <= prio[k])
    && (forall j | k < j < |prio| :: prio[j] <= p || prio[j] >= prio[k])
  }

  /** A new priority keeps an ordered queue ordered exactly when no other priority stands between the two. */
  lemma ResubmitOrder(prio: seq<int>, k: nat, p: int)
    requires Descending(prio) && k < |prio|
    ensures Descending(Resubmitted(prio, k, MovedTo(prio, k, p), p)) <==> Fits(prio, k, p)
  {
    var m := MovedTo(prio, k, p);
    if p < prio[k] {
      LowerStaysInClass(prio, k, p);
    } else {
      MoveNowhere(prio, k);
    }
    hide MovedTo, Descending, MoveAt;
    StoredOrder(prio, m, p);
    NeighboursDecide(prio, k, m, p);
  }

  /** With m the last of the former equals of k, or k itself, the neighbours of m speak for the whole queue. */
  lemma NeighboursDecide(prio: seq<int>, k: nat, m: nat, p: int)
    requires Descending(prio) && k <= m < |prio| && prio[m] == prio[k]
    requires p >= prio[k] ==> m == k
    requires p < prio[k] ==> m + 1 < |prio| ==> prio[m + 1] < prio[k]
    ensures (m == 0 || prio[m - 1] >= p) && (m + 1 == |prio| || prio[m + 1] <= p) <==> Fits(prio, k, p)
  {
  }

  lemma StoredOrder(prio: seq<int>, m: nat, p: int)
    requires Descending(prio) && m < |prio|
    ensures Descending(prio[m := p]) <==> (m == 0 || prio[m - 1] >= p) && (m + 1 == |prio| || prio[m + 1] <= p)
  {
    var r := prio[m := p];
    if Descending(r) {
      assert m > 0 ==> r[m - 1] >= r[m];
      assert m + 1 < |r| ==> r[m] >= r[m + 1];
    }
  }

  /** Comparing with the new priority would keep every ordered queue ordered, and serve the task after those of
      the same priority. */
  lemma ResubmitNewKeepsOrder(prio: seq<int>, k: nat, p: int)
    requires Descending(prio) && k < |prio|
    ensures var m := MovedToNew(prio, k, p);
      var r := Resubmitted(prio, k, m, p);
      && Descending(r) && |r| == |prio|
      && (p != prio[k] ==> forall i | m < i < |r| :: r[i] < p)
  {
    hide ScanBack, ScanOn, Resubmitted;
    var m := MovedToNew(prio, k, p);
    if p > prio[k] {
      ScanBackFinds(prio, p, k);
    } else if p < prio[k] {
      ScanOnFinds(prio, p, k + 1);
    }
    var r := Resubmitted(prio, k, m, p);
    MovedIndex(prio, k, m, p, m);
    forall i, j | 0 <= i < j < |prio|
      ensures r[i] >= r[j]
    {
      MovedIndex(prio, k, m, p, i);
      MovedIndex(prio, k, m, p, j);
    }
    forall i | m < i < |prio| && p != prio[k]
      ensures r[i] < p
    {
      MovedIndex(prio, k, m, p, i);
    }
  }

  lemma MovedIndex(prio: seq<int>, k: nat, m: nat, p: int, i: nat)
    requires k < |prio| && m < |prio| && i < |prio|
    ensures |Resubmitted(prio, k, m, p)| == |prio|
    ensures i == m ==> Resubmitted(prio, k, m, p)[i] == p
    ensures i < m ==> Resubmitted(prio, k, m, p)[i] == prio[if i < k then i else i + 1]
    ensures i > m ==> Resubmitted(prio, k, m, p)[i] == prio[if i - 1 < k then i - 1 else i]
  {
  }
}
