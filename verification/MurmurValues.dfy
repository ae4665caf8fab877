/** What fixes MurmurHash3 among its relatives: the length counts, and known hashes come out. */
module MurmurValues {
  import opened Murmur

  // ---------------------------------------------------------------- the length counts

  lemma ByteValue(n: nat, scale: nat)
    requires scale > 0
    ensures ByteOf(n, scale) as nat == n / scale % 0x100
  {
    ByteBack(n / scale % 0x100);
  }

  lemma ByteBack(n: nat)
    requires n < 0x100
    ensures (n as bv8) as nat == n
  {
    assert n % 0x100 == n;
  }

  /** The number four bytes spell, lowest first. */
  function Spelled(d0: nat, d1: nat, d2: nat, d3: nat): nat { d0 + 0x100 * (d1 + 0x100 * (d2 + 0x100 * d3)) }

  lemma DivideTwice(n: nat)
    ensures n / 0x1_0000 == n / 0x100 / 0x100
  {
  }

  lemma DivideThrice(n: nat)
    ensures n / 0x100_0000 == n / 0x1_0000 / 0x100
  {
  }

  lemma Digits(n: nat)
    ensures n % 0x1_0000_0000 ==
      Spelled(n / 1 % 0x100, n / 0x100 % 0x100, n / 0x1_0000 % 0x100, n / 0x100_0000 % 0x100)
  {
    DivideTwice(n);
    DivideThrice(n);
    var q1 := n / 0x100;
    var q2 := q1 / 0x100;
    var q3 := q2 / 0x100;
    assert n / 0x1_0000 == q2 && n / 0x100_0000 == q3;
    FourDigits(n, q1, q2, q3, q3 / 0x100);
  }

  lemma FourDigits(n: nat, q1: nat, q2: nat, q3: nat, q4: nat)
    requires q1 == n / 0x100 && q2 == q1 / 0x100 && q3 == q2 / 0x100 && q4 == q3 / 0x100
    ensures n % 0x1_0000_0000 == Spelled(n % 0x100, q1 % 0x100, q2 % 0x100, q3 % 0x100)
  {
    assert n == Spelled(n % 0x100, q1 % 0x100, q2 % 0x100, q3 % 0x100) + 0x1_0000_0000 * q4;
    assert Spelled(n % 0x100, q1 % 0x100, q2 % 0x100, q3 % 0x100) < 0x1_0000_0000;
  }

  /** Equal length words mean lengths that are equal up to multiples of 2^32. */
  lemma LengthWordExact(a: Bytes, b: Bytes)
    requires LenWord(a) == LenWord(b)
    ensures |a| % 0x1_0000_0000 == |b| % 0x1_0000_0000
  {
    Digits(|a|);
    Digits(|b|);
    WordInjective(ByteOf(|a|, 1), ByteOf(|a|, 0x100), ByteOf(|a|, 0x1_0000), ByteOf(|a|, 0x100_0000),
                  ByteOf(|b|, 1), ByteOf(|b|, 0x100), ByteOf(|b|, 0x1_0000), ByteOf(|b|, 0x100_0000));
    hide ByteOf, Word, Spelled, LenWord;
    LengthBytes(|a|);
    LengthBytes(|b|);
  }

  lemma LengthBytes(n: nat)
    ensures ByteOf(n, 1) as nat == n / 1 % 0x100 && ByteOf(n, 0x100) as nat == n / 0x100 % 0x100
    ensures ByteOf(n, 0x1_0000) as nat == n / 0x1_0000 % 0x100
    ensures ByteOf(n, 0x100_0000) as nat == n / 0x100_0000 % 0x100
  {
    hide ByteOf;
    ByteValue(n, 1);
    ByteValue(n, 0x100);
    ByteValue(n, 0x1_0000);
    ByteValue(n, 0x100_0000);
  }

  lemma {:induction false} SameBody(seed: bv32, a: Bytes, b: Bytes, n: nat)
    requires 4 * n <= |a| <= |b| && b[..|a|] == a
    ensures Body(seed, a, n) == Body(seed, b, n)
  {
    hide Absorb;
    if n > 0 {
      SameBody(seed, a, b, n - 1);
      assert forall k | 0 <= k < |a| :: b[k] == b[..|a|][k];
    }
  }

  lemma ZeroTail(key: Bytes)
    requires |key| % 4 != 3
    ensures TailWord(key + [0]) == TailWord(key)
  {
    var t := |key| / 4 * 4;
    assert |key + [0]| / 4 * 4 == t && |key + [0]| % 4 == |key| % 4 + 1;
    assert key + [0] == key[..t] + key[t..] + [0];
    NoBytes();
    hide Word;
  }

  lemma NoBytes()
    ensures Word(0, 0, 0, 0) == 0
  {
  }

  /** A zero byte in the tail changes no word that is mixed in; only the length tells the two keys apart, and it always
      does. */
  lemma ZeroByteCounts(seed: bv32, key: Bytes)
    requires |key| % 4 != 3
    ensures Hash(seed, key + [0]) != Hash(seed, key)
  {
    hide Fmix, Xor, Scramble, Body, TailWord, LenWord;
    var long := key + [0];
    assert |long| / 4 == |key| / 4 && long[..|key|] == key;
    SameBody(seed, key, long, |key| / 4);
    ZeroTail(key);
    if LenWord(key) == LenWord(long) {
      LengthWordExact(key, long);
    }
    FmixInjective(Xor(State(seed, key), LenWord(key)), Xor(State(seed, long), LenWord(long)));
    XorCancel(State(seed, key), LenWord(key), LenWord(long));
  }

  // ---------------------------------------------------------------- known hashes

  const SEED: bv32 := 0x9747b28c

  lemma LowByte(len: bv8)
    ensures ByteOf(len as nat, 1) == len
  {
    assert (len as nat) as bv8 == len;
    assert (len as nat) / 1 % 0x100 == len as nat;
  }

  lemma HighByte(n: nat, scale: nat)
    requires n < 0x100 <= scale
    ensures ByteOf(n, scale) == 0
  {
    NoQuotient(n, scale);
  }

  lemma NoQuotient(n: nat, scale: nat)
    requires n < scale
    ensures n / scale % 0x100 == 0
  {
  }

  lemma LenSmall(key: Bytes, len: bv8)
    requires |key| == len as nat
    ensures LenWord(key) == len as bv32
  {
    hide ByteOf, Word;
    LowByte(len);
    HighByte(|key|, 0x100);
    HighByte(|key|, 0x1_0000);
    HighByte(|key|, 0x100_0000);
    FirstByte(len);
  }

  lemma FirstByte(b: bv8)
    ensures Word(b, 0, 0, 0) == b as bv32
  {
  }

  /** A hash from the state it is finished from. */
  lemma Finish(seed: bv32, key: Bytes, state: bv32, len: bv8)
    requires State(seed, key) == state && |key| == len as nat
    ensures Hash(seed, key) == Fmix(Xor(state, len as bv32))
  {
    LenSmall(key, len);
  }

  /** The empty key with three seeds: nothing but the finaliser is left. */
  lemma EmptyKey()
    ensures Hash(0, []) == 0 && Hash(1, []) == 0x514e28b7 && Hash(SEED, []) == 0xebb6c228
  {
    EmptyState(0);
    EmptyState(1);
    EmptyState(SEED);
    Finish(0, [], 0, 0);
    Finish(1, [], 1, 0);
    Finish(SEED, [], SEED, 0);
  }

  lemma EmptyState(seed: bv32)
    ensures State(seed, []) == seed
  {
    ScrambleZero(seed);
  }

  /** A tail of one byte, "a". */
  lemma OneByte()
    ensures Hash(SEED, [0x61]) == 0x7fa09ea6
  {
    var key: Bytes := [0x61];
    assert TailWord(key) == 0x61;
    assert State(SEED, key) == 0xc70c1b59;
    hide State, Body, TailWord, LenWord;
    Finish(SEED, key, 0xc70c1b59, 1);
  }

  /** A tail of two bytes, "ab". */
  lemma TwoBytes()
    ensures Hash(SEED, [0x61, 0x62]) == 0x74875592
  {
    var key: Bytes := [0x61, 0x62];
    assert TailWord(key) == 0x6261;
    assert State(SEED, key) == 0xccc022a0;
    hide State, Body, TailWord, LenWord;
    Finish(SEED, key, 0xccc022a0, 2);
  }

  /** A tail of three bytes, "abc". */
  lemma ThreeBytes()
    ensures Hash(SEED, [0x61, 0x62, 0x63]) == 0xc84a62dd
  {
    var key: Bytes := [0x61, 0x62, 0x63];
    assert TailWord(key) == 0x636261;
    assert State(SEED, key) == 0x30732f3b;
    hide State, Body, TailWord, LenWord;
    Finish(SEED, key, 0x30732f3b, 3);
  }

  /** One block and no tail, "abcd". */
  lemma OneBlock()
    ensures Hash(SEED, [0x61, 0x62, 0x63, 0x64]) == 0xf0478627
  {
    var key: Bytes := [0x61, 0x62, 0x63, 0x64];
    assert Body(SEED, key, 0) == 0x9747b28c;
    assert Body(SEED, key, 1) == 0x1719cb66;
    assert TailWord(key) == 0x0;
    assert State(SEED, key) == 0x1719cb66;
    hide State, Body, TailWord, LenWord;
    Finish(SEED, key, 0x1719cb66, 4);
  }

  const HELLO: Bytes := [0x48, 0x65, 0x6c, 0x6c, 0x6f, 0x2c, 0x20, 0x77, 0x6f, 0x72, 0x6c, 0x64, 0x21]

  /** Three blocks and a tail of one byte, "Hello, world!". */
  lemma ThreeBlocksAndTail()
    ensures Hash(SEED, HELLO) == 0x24884cba
  {
    HelloBlocks();
    Turns();
    hide Block, Absorb, State, LenWord, TailWord;
    assert Body(SEED, HELLO, 0) == SEED;
    assert Body(SEED, HELLO, 1) == 0xdae4c92e;
    assert Body(SEED, HELLO, 2) == 0x71c6b43c;
    assert Body(SEED, HELLO, 3) == 0x3bd692af;
    HelloState();
    Finish(SEED, HELLO, 0x9788c38c, 13);
  }

  lemma HelloBlocks()
    ensures |HELLO| == 13 && TailWord(HELLO) == 0x21
    ensures Block(HELLO, 0) == 0x6c6c6548 && Block(HELLO, 1) == 0x77202c6f && Block(HELLO, 2) == 0x646c726f
  {
  }

  lemma Turns()
    ensures Absorb(SEED, 0x6c6c6548) == 0xdae4c92e
    ensures Absorb(0xdae4c92e, 0x77202c6f) == 0x71c6b43c
    ensures Absorb(0x71c6b43c, 0x646c726f) == 0x3bd692af
  {
  }

  lemma HelloState()
    requires Body(SEED, HELLO, 3) == 0x3bd692af
    ensures State(SEED, HELLO) == 0x9788c38c
  {
    HelloBlocks();
    hide Body, Block, TailWord;
    assert Xor(0x3bd692af, Scramble(0x21)) == 0x9788c38c;
  }
}
