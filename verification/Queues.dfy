/** Facts about sequences of identities that both thread pools use. */
module Queues {
  import opened Lists

  /** The identity of a queue iterator and of what it carries. */
  type Id = nat

  /** s without its first x. */
  function Minus<X(==)>(s: seq<X>, x: X): seq<X> {
    if s == [] then [] else if s[0] == x then s[1..] else [s[0]] + Minus(s[1..], x)
  }

  lemma {:induction false} MinusFacts<X>(s: seq<X>, x: X)
    requires Distinct(s)
    ensures Distinct(Minus(s, x)) && forall y :: y in Minus(s, x) <==> y in s && y != x
    ensures |Minus(s, x)| == if x in s then |s| - 1 else |s|
  {
    if s != [] {
      DistinctTail(s);
      MinusFacts(s[1..], x);
      assert s == [s[0]] + s[1..];
      if s[0] == x {
        Apart(s, 0);
      } else {
        DistinctCons(s[0], Minus(s[1..], x));
      }
    }
  }

  lemma DistinctTail<X>(s: seq<X>)
    requires Distinct(s) && s != []
    ensures Distinct(s[1..]) && forall y :: y in s[1..] <==> y in s && y != s[0]
  {
    forall i, j
      ensures Differ(s[1..], i, j)
    {
      assert Differ(s, i + 1, j + 1);
    }
    Apart(s, 0);
    assert s == [s[0]] + s[1..];
  }

  lemma DistinctCons<X>(x: X, s: seq<X>)
    requires Distinct(s) && x !in s
    ensures Distinct([x] + s)
  {
    forall i, j
      ensures Differ([x] + s, i, j)
    {
      assert Differ(s, i - 1, j - 1);
    }
  }

  lemma DistinctSnoc<X>(s: seq<X>, x: X)
    requires Distinct(s) && x !in s
    ensures Distinct(s + [x]) && forall y :: y in s + [x] <==> y in s || y == x
  {
    forall i, j
      ensures Differ(s + [x], i, j)
    {
      assert Differ(s, i, j);
    }
  }

  lemma MinusHead<X>(s: seq<X>)
    requires s != []
    ensures Minus(s, s[0]) == s[1..]
  {
  }

  /** Taking out the element at a known place. */
  lemma {:induction false} MinusAt<X>(s: seq<X>, k: nat)
    requires Distinct(s) && k < |s|
    ensures Minus(s, s[k]) == RemoveAt(s, k)
  {
    if k > 0 {
      Apart(s, k);
      DistinctTail(s);
      MinusAt(s[1..], k - 1);
      assert RemoveAt(s, k) == [s[0]] + RemoveAt(s[1..], k - 1);
    }
  }

  /** s without the elements of gone, in order. */
  function Except<X(==)>(s: seq<X>, gone: set<X>): (r: seq<X>)
    ensures forall y | y in r :: y in s
  {
    if s == [] then [] else if s[0] in gone then Except(s[1..], gone) else [s[0]] + Except(s[1..], gone)
  }

  lemma {:induction false} ExceptMembers<X>(s: seq<X>, gone: set<X>)
    ensures forall y :: y in Except(s, gone) <==> y in s && y !in gone
  {
    if s != [] {
      ExceptMembers(s[1..], gone);
      assert s == [s[0]] + s[1..];
    }
  }

  lemma {:induction false} ExceptNothing<X>(s: seq<X>, gone: set<X>)
    requires forall x | x in s :: x !in gone
    ensures Except(s, gone) == s
  {
    if s != [] {
      ExceptNothing(s[1..], gone);
    }
  }

  lemma {:induction false} ExceptMinus<X>(s: seq<X>, x: X, gone: set<X>)
    requires Distinct(s)
    ensures Except(Minus(s, x), gone) == Except(s, gone + {x})
  {
    if s != [] {
      DistinctTail(s);
      ExceptMinus(s[1..], x, gone);
      if s[0] == x {
        ExceptSame(s[1..], gone, gone + {x});
      }
    }
  }

  lemma {:induction false} ExceptSame<X>(s: seq<X>, g: set<X>, h: set<X>)
    requires forall x | x in s :: x in g <==> x in h
    ensures Except(s, g) == Except(s, h)
  {
    if s != [] {
      assert s[0] in s;
      ExceptSame(s[1..], g, h);
    }
  }

  /** The elements of s that are in keep, in order. */
  function Only<X(==)>(s: seq<X>, keep: set<X>): seq<X> {
    if s == [] then [] else if s[0] in keep then [s[0]] + Only(s[1..], keep) else Only(s[1..], keep)
  }

  lemma {:induction false} OnlyMembers<X>(s: seq<X>, keep: set<X>)
    ensures forall y :: y in Only(s, keep) <==> y in s && y in keep
  {
    if s != [] {
      OnlyMembers(s[1..], keep);
      assert s == [s[0]] + s[1..];
    }
  }

  lemma {:induction false} OnlyNothing<X>(s: seq<X>, keep: set<X>)
    requires forall x | x in s :: x !in keep
    ensures Only(s, keep) == [] && Except(s, keep) == s
  {
    if s != [] {
      assert s[0] in s;
      OnlyNothing(s[1..], keep);
    }
  }

  lemma {:induction false} ExceptAll<X>(s: seq<X>, gone: set<X>)
    requires forall x | x in s :: x in gone
    ensures Except(s, gone) == []
  {
    if s != [] {
      assert s[0] in s;
      ExceptAll(s[1..], gone);
    }
  }
}
