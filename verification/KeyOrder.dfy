/** The order cc_map keeps its nodes in: hash, then key length, then the key compared eight, four and
    one byte at a time. */
module KeyOrder {
  type Byte = x: nat | x < 0x100

  type Key = seq<Byte>

  /** What the comparison looks at: a 32-bit hash and the key it belongs to. */
  datatype Rank = Rank(hash: nat, key: Key)

  function Join8(lo: nat, hi: nat): nat { lo + 0x100 * hi }

  function Join32(lo: nat, hi: nat): nat { lo + 0x1_0000_0000 * hi }

  /** A little-endian load of four bytes. */
  function Load32(key: Key, i: nat): (w: nat)
    requires i + 4 <= |key|
    ensures w < 0x1_0000_0000
  {
    Join8(key[i], Join8(key[i + 1], Join8(key[i + 2], key[i + 3])))
  }

  /** A little-endian load of eight bytes. */
  function Load64(key: Key, i: nat): nat
    requires i + 8 <= |key|
  {
    Join32(Load32(key, i), Load32(key, i + 4))
  }

  /** How many words n bytes make: as many of eight as fit, at most one of four, single bytes for the rest. */
  function WordCount(n: nat): nat {
    if n >= 8 then 1 + WordCount(n - 8) else if n >= 4 then 1 + WordCount(n - 4) else n
  }

  /** The words a comparison reads from byte i on: 64-bit words, then a 32-bit word, then bytes. */
  function Words(key: Key, i: nat): (ws: seq<nat>)
    requires i <= |key|
    ensures |ws| == WordCount(|key| - i)
    decreases |key| - i
  {
    if i + 8 <= |key| then [Load64(key, i)] + Words(key, i + 8)
    else if i + 4 <= |key| then [Load32(key, i)] + Words(key, i + 4)
    else key[i..]
  }

  function CompareWords(u: seq<nat>, v: seq<nat>): int
    requires |u| == |v|
  {
    if u == [] then 0
    else if u[0] > v[0] then 1
    else if u[0] < v[0] then -1
    else CompareWords(u[1..], v[1..])
  }

  /** The comparison of two keys of one length from byte i on. */
  function CompareFrom(a: Key, b: Key, i: nat): int
    requires i <= |a| == |b|
  {
    CompareWords(Words(a, i), Words(b, i))
  }

  function Compare(a: Rank, b: Rank): int {
    if a.hash > b.hash then 1
    else if a.hash < b.hash then -1
    else if |a.key| > |b.key| then 1
    else if |a.key| < |b.key| then -1
    else CompareFrom(a.key, b.key, 0)
  }

  // ---------------------------------------------------------------- the three passes of the source

  method NodeCompare(self: Rank, other: Rank) returns (r: int)
    ensures r == Compare(self, other)
  {
    if self.hash > other.hash {
      return 1;
    } else if self.hash < other.hash {
      return -1;
    }
    if |self.key| > |other.key| {
      return 1;
    } else if |self.key| < |other.key| {
      return -1;
    }
    r := CompareBytes(self.key, other.key);
  }

  method CompareBytes(a: Key, b: Key) returns (r: int)
    requires |a| == |b|
    ensures r == CompareFrom(a, b, 0)
  {
    hide CompareFrom, Load32, Load64;
    var cnt := |a| / 8;
    var idx := 0;
    while cnt != 0
      invariant 0 <= cnt && idx + cnt == |a| / 8
      invariant CompareFrom(a, b, 8 * idx) == CompareFrom(a, b, 0)
      decreases cnt
    {
      CompareStep(a, b, 8 * idx);
      if Load64(a, 8 * idx) > Load64(b, 8 * idx) {
        return 1;
      } else if Load64(a, 8 * idx) < Load64(b, 8 * idx) {
        return -1;
      }
      idx := idx + 1;
      cnt := cnt - 1;
    }
    cnt := |a| % 8;
    idx := 2 * idx;
    if cnt >= 4 {
      CompareStep(a, b, 4 * idx);
      if Load32(a, 4 * idx) > Load32(b, 4 * idx) {
        return 1;
      } else if Load32(a, 4 * idx) < Load32(b, 4 * idx) {
        return -1;
      }
      idx := idx + 1;
      cnt := cnt - 4;
    }
    idx := 4 * idx;
    CompareStep(a, b, idx);
    while cnt != 0
      invariant 0 <= cnt < 4 && idx + cnt == |a|
      invariant CompareWords(a[idx..], b[idx..]) == CompareFrom(a, b, 0)
      decreases cnt
    {
      assert a[idx..][1..] == a[idx + 1..] && b[idx..][1..] == b[idx + 1..];
      if a[idx] > b[idx] {
        return 1;
      } else if a[idx] < b[idx] {
        return -1;
      }
      idx := idx + 1;
      cnt := cnt - 1;
    }
    r := 0;
  }

  /** One word of the comparison: the first difference decides, equal words pass it on. */
  lemma CompareStep(a: Key, b: Key, i: nat)
    requires i <= |a| == |b|
    ensures CompareFrom(a, b, i) ==
      if i + 8 <= |a| then Decide(Load64(a, i), Load64(b, i), CompareFrom(a, b, i + 8))
      else if i + 4 <= |a| then Decide(Load32(a, i), Load32(b, i), CompareFrom(a, b, i + 4))
      else CompareWords(a[i..], b[i..])
  {
    hide Load32, Load64;
    if i + 4 <= |a| {
      var step := if i + 8 <= |a| then 8 else 4;
      assert Words(a, i)[1..] == Words(a, i + step) && Words(b, i)[1..] == Words(b, i + step);
    }
  }

  function Decide(x: nat, y: nat, rest: int): int { if x > y then 1 else if x < y then -1 else rest }

  // ---------------------------------------------------------------- a total order

  lemma Join8Injective(lo1: Byte, hi1: nat, lo2: Byte, hi2: nat)
    requires Join8(lo1, hi1) == Join8(lo2, hi2)
    ensures lo1 == lo2 && hi1 == hi2
  {
  }

  lemma Join32Injective(lo1: nat, hi1: nat, lo2: nat, hi2: nat)
    requires lo1 < 0x1_0000_0000 && lo2 < 0x1_0000_0000 && Join32(lo1, hi1) == Join32(lo2, hi2)
    ensures lo1 == lo2 && hi1 == hi2
  {
  }

  lemma Load32Injective(a: Key, b: Key, i: nat)
    requires i + 4 <= |a| == |b| && Load32(a, i) == Load32(b, i)
    ensures a[i..i + 4] == b[i..i + 4]
  {
    hide Join8;
    var a2, b2 := Join8(a[i + 2], a[i + 3]), Join8(b[i + 2], b[i + 3]);
    Join8Injective(a[i], Join8(a[i + 1], a2), b[i], Join8(b[i + 1], b2));
    Join8Injective(a[i + 1], a2, b[i + 1], b2);
    Join8Injective(a[i + 2], a[i + 3], b[i + 2], b[i + 3]);
  }

  lemma Load64Injective(a: Key, b: Key, i: nat)
    requires i + 8 <= |a| == |b| && Load64(a, i) == Load64(b, i)
    ensures a[i..i + 8] == b[i..i + 8]
  {
    hide Load32;
    Join32Injective(Load32(a, i), Load32(a, i + 4), Load32(b, i), Load32(b, i + 4));
    Load32Injective(a, b, i);
    Load32Injective(a, b, i + 4);
    assert a[i..i + 8] == a[i..i + 4] + a[i + 4..i + 8];
    assert b[i..i + 8] == b[i..i + 4] + b[i + 4..i + 8];
  }

  lemma {:induction false} WordsInjective(a: Key, b: Key, i: nat)
    requires i <= |a| == |b| && Words(a, i) == Words(b, i)
    ensures a[i..] == b[i..]
    decreases |a| - i
  {
    hide Load32, Load64;
    if i + 4 <= |a| {
      var step := if i + 8 <= |a| then 8 else 4;
      assert Words(a, i)[1..] == Words(a, i + step) && Words(b, i)[1..] == Words(b, i + step);
      WordsInjective(a, b, i + step);
      assert Words(a, i)[0] == Words(b, i)[0];
      if step == 8 {
        Load64Injective(a, b, i);
      } else {
        Load32Injective(a, b, i);
      }
      assert a[i..] == a[i..i + step] + a[i + step..];
      assert b[i..] == b[i..i + step] + b[i + step..];
    }
  }

  lemma {:induction false} CompareWordsZero(u: seq<nat>, v: seq<nat>)
    requires |u| == |v|
    ensures CompareWords(u, v) == 0 <==> u == v
  {
    if u != [] {
      CompareWordsZero(u[1..], v[1..]);
      assert u == [u[0]] + u[1..] && v == [v[0]] + v[1..];
    }
  }

  lemma {:induction false} CompareWordsFlip(u: seq<nat>, v: seq<nat>)
    requires |u| == |v|
    ensures CompareWords(u, v) == -CompareWords(v, u)
  {
    if u != [] {
      CompareWordsFlip(u[1..], v[1..]);
    }
  }

  lemma {:induction false} CompareWordsTransitive(u: seq<nat>, v: seq<nat>, w: seq<nat>)
    requires |u| == |v| == |w|
    requires CompareWords(u, v) < 0 && CompareWords(v, w) < 0
    ensures CompareWords(u, w) < 0
  {
    if u[0] == v[0] == w[0] {
      CompareWordsTransitive(u[1..], v[1..], w[1..]);
    }
  }

  /** The comparison is zero exactly when both hash and key are identical. */
  lemma CompareZero(a: Rank, b: Rank)
    ensures Compare(a, b) == 0 <==> a == b
  {
    if a.hash == b.hash && |a.key| == |b.key| {
      CompareWordsZero(Words(a.key, 0), Words(b.key, 0));
      if Words(a.key, 0) == Words(b.key, 0) {
        WordsInjective(a.key, b.key, 0);
      }
    }
  }

  lemma CompareFlip(a: Rank, b: Rank)
    ensures Compare(a, b) == -Compare(b, a)
  {
    if a.hash == b.hash && |a.key| == |b.key| {
      CompareWordsFlip(Words(a.key, 0), Words(b.key, 0));
    }
  }

  lemma CompareTransitive(a: Rank, b: Rank, c: Rank)
    requires Compare(a, b) < 0 && Compare(b, c) < 0
    ensures Compare(a, c) < 0
  {
    if a.hash == b.hash == c.hash && |a.key| == |b.key| == |c.key| {
      CompareWordsTransitive(Words(a.key, 0), Words(b.key, 0), Words(c.key, 0));
    }
  }
}
