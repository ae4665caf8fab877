/** What fixes the order and the hash of the map's keys: which part of a key decides, and known hashes. */
module MapLaws {
  import opened KeyOrder
  import opened MapIndex
  import MurmurValues

  /** The hash decides first, and the length of the key second. */
  lemma HashThenLength(a: Rank, b: Rank)
    ensures a.hash < b.hash ==> Compare(a, b) < 0 < Compare(b, a)
    ensures a.hash == b.hash && |a.key| < |b.key| ==> Compare(a, b) < 0 < Compare(b, a)
  {
  }

  /** Eight bytes are compared as one little-endian number: the last byte in which they differ decides. */
  lemma EightBytes(a: Key, b: Key, hash: nat, i: nat)
    requires |a| == 8 == |b| && i < 8 && a[i] < b[i] && forall j | i < j < 8 :: a[j] == b[j]
    ensures Compare(Rank(hash, a), Rank(hash, b)) < 0
  {
    assert Load64(a, 0) < Load64(b, 0);
    assert Words(a, 0)[0] == Load64(a, 0) && Words(b, 0)[0] == Load64(b, 0);
    hide Load64;
  }

  /** So are the four bytes that may follow, and after them the first byte in which they differ decides. */
  lemma LastBytes(a: Key, b: Key, hash: nat, i: nat)
    requires |a| == |b| && i < |a| && a[i] < b[i]
    ensures |a| == 4 && (forall j | i < j < 4 :: a[j] == b[j]) ==> Compare(Rank(hash, a), Rank(hash, b)) < 0
    ensures |a| < 4 && (forall j | 0 <= j < i :: a[j] == b[j]) ==> Compare(Rank(hash, a), Rank(hash, b)) < 0
  {
    if |a| == 4 && forall j | i < j < 4 :: a[j] == b[j] {
      assert Load32(a, 0) < Load32(b, 0);
      assert Words(a, 0)[0] == Load32(a, 0) && Words(b, 0)[0] == Load32(b, 0);
    }
    if |a| < 4 && forall j | 0 <= j < i :: a[j] == b[j] {
      assert Words(a, 0) == a && Words(b, 0) == b;
      FirstDecides(a, b, i);
    }
  }

  lemma {:induction false} FirstDecides(u: seq<nat>, v: seq<nat>, i: nat)
    requires |u| == |v| && i < |u| && u[i] < v[i] && forall j | 0 <= j < i :: u[j] == v[j]
    ensures CompareWords(u, v) == -1
  {
    if i > 0 {
      FirstDecides(u[1..], v[1..], i - 1);
    }
  }

  /** The words of the first difference decide, wherever it is. */
  lemma WordsDecide(a: Rank, b: Rank, i: nat)
    requires a.hash == b.hash && |a.key| == |b.key| && i < |Words(a.key, 0)|
    requires Words(a.key, 0)[i] < Words(b.key, 0)[i]
    requires forall j | 0 <= j < i :: Words(a.key, 0)[j] == Words(b.key, 0)[j]
    ensures Compare(a, b) == -1
  {
    FirstDecides(Words(a.key, 0), Words(b.key, 0), i);
  }

  lemma WordsOfBytes()
    ensures ToWords([0x61]) == [0x61] && ToWords([0x61, 0x62, 0x63, 0x64]) == [0x61, 0x62, 0x63, 0x64]
  {
  }

  /** The hash of a key is MurmurHash3 of its bytes. */
  lemma KnownHash()
    ensures HashOf(0x9747b28c, [0x61]) == 0x7fa09ea6
    ensures HashOf(0x9747b28c, [0x61, 0x62, 0x63, 0x64]) == 0xf0478627
  {
    hide Murmur.Hash, ToWords;
    WordsOfBytes();
    MurmurValues.OneByte();
    MurmurValues.OneBlock();
  }
}
