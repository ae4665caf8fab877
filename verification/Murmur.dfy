/** MurmurHash3_x86_32 on 32-bit words, as cc_mumurhash3.c computes it.

    Every stage that touches the running state is a bijection on 32-bit words. The module defines
    the inverse of each stage and concludes that the seed can be recovered from the hash, and that
    keys of the same length which differ in one block, or in the tail only, never collide. */
module Murmur {

  type Bytes = seq<bv8>

  function MulC1(x: bv32): bv32 { x * 0xcc9e2d51 }

  function MulC2(x: bv32): bv32 { x * 0x1b873593 }

  function Mul5(x: bv32): bv32 { x * 5 + 0xe6546b64 }

  function MulF1(x: bv32): bv32 { x * 0x85ebca6b }

  function MulF2(x: bv32): bv32 { x * 0xc2b2ae35 }

  function Rotl13(x: bv32): bv32 { (x << 13) | (x >> 19) }

  function Rotl15(x: bv32): bv32 { (x << 15) | (x >> 17) }

  function XorShift13(x: bv32): bv32 { x ^ (x >> 13) }

  function XorShift16(x: bv32): bv32 { x ^ (x >> 16) }

  function Xor(x: bv32, y: bv32): bv32 { x ^ y }

  /** Four bytes as a little-endian word. They occupy disjoint bits, so xor puts them together. */
  function Word(b0: bv8, b1: bv8, b2: bv8, b3: bv8): bv32 {
    Xor(Xor(Xor((b3 as bv32) << 24, (b2 as bv32) << 16), (b1 as bv32) << 8), b0 as bv32)
  }

  /** The 32-bit little-endian read of block i. */
  function Block(key: Bytes, i: nat): bv32
    requires 4 * i + 4 <= |key|
  {
    Word(key[4 * i], key[4 * i + 1], key[4 * i + 2], key[4 * i + 3])
  }

  function Scramble(k: bv32): bv32 { MulC2(Rotl15(MulC1(k))) }

  /** One turn of the block loop. */
  function Absorb(h: bv32, k: bv32): bv32 { Mul5(Rotl13(Xor(h, Scramble(k)))) }

  /** The state after the first n blocks. */
  function Body(seed: bv32, key: Bytes, n: nat): bv32
    requires 4 * n <= |key|
  {
    if n == 0 then seed else Absorb(Body(seed, key, n - 1), Block(key, n - 1))
  }

  /** The word built from the last |key| % 4 bytes; zero when there are none. */
  function TailWord(key: Bytes): bv32 {
    var t := |key| / 4 * 4;
    match |key| % 4
    case 3 => Word(key[t], key[t + 1], key[t + 2], 0)
    case 2 => Word(key[t], key[t + 1], 0, 0)
    case 1 => Word(key[t], 0, 0, 0)
    case _ => 0
  }

  /** The finaliser fmix32. */
  function Fmix(h: bv32): bv32 { XorShift16(MulF2(XorShift13(MulF1(XorShift16(h))))) }

  /** Byte i of a number. */
  function ByteOf(n: nat, scale: nat): bv8
    requires scale > 0
  {
    (n / scale % 0x100) as bv8
  }

  /** A C int length reinterpreted as a 32-bit word. */
  function LenWord(key: Bytes): bv32 {
    Word(ByteOf(|key|, 1), ByteOf(|key|, 0x100), ByteOf(|key|, 0x1_0000), ByteOf(|key|, 0x100_0000))
  }

  /** The state once every byte of the key has been mixed in. */
  function State(seed: bv32, key: Bytes): bv32 { Xor(Body(seed, key, |key| / 4), Scramble(TailWord(key))) }

  function Hash(seed: bv32, key: Bytes): bv32 { Fmix(Xor(State(seed, key), LenWord(key))) }

  // ---------------------------------------------------------------- the loop of the source

  /** The block loop counts i up from -nblocks to zero and the switch falls through; when the length is a
      multiple of four the switch is skipped altogether. */
  method MurmurHash3(key: Bytes, seed: bv32) returns (out: bv32)
    ensures out == Hash(seed, key)
  {
    hide Fmix, Xor, MulC1, MulC2, Mul5, Rotl13, Rotl15, LenWord, Block;
    var nblocks := |key| / 4;
    var h1 := seed;
    var i := -nblocks;
    while i != 0
      invariant -nblocks <= i <= 0
      invariant h1 == Body(seed, key, nblocks + i)
      decreases -i
    {
      var k1 := Block(key, nblocks + i);
      k1 := MulC1(k1);
      k1 := Rotl15(k1);
      k1 := MulC2(k1);
      h1 := Xor(h1, k1);
      h1 := Rotl13(h1);
      h1 := Mul5(h1);
      i := i + 1;
    }
    var rest := |key| % 4;
    var k1 := TailSwitch(key);
    if rest >= 1 {
      k1 := MulC1(k1);
      k1 := Rotl15(k1);
      k1 := MulC2(k1);
      h1 := Xor(h1, k1);
    } else {
      ScrambleZero(h1);
    }
    h1 := Xor(h1, LenWord(key));
    h1 := Fmix(h1);
    out := h1;
  }

  /** The xors of the switch place disjoint bytes, so they build a little-endian word. */
  method TailSwitch(key: Bytes) returns (k1: bv32)
    ensures k1 == TailWord(key)
  {
    var tail := |key| / 4 * 4;
    var rest := |key| % 4;
    k1 := 0;
    if rest == 3 {
      k1 := Xor(k1, (key[tail + 2] as bv32) << 16);
    }
    if rest >= 2 {
      k1 := Xor(k1, (key[tail + 1] as bv32) << 8);
    }
    if rest >= 1 {
      k1 := Xor(k1, key[tail] as bv32);
    }
    hide Xor;
    ZeroByte();
  }

  lemma ZeroByte()
    ensures ((0 as bv8) as bv32) << 24 == 0 && ((0 as bv8) as bv32) << 16 == 0 && ((0 as bv8) as bv32) << 8 == 0
    ensures (0 as bv8) as bv32 == 0 && Xor(0, 0) == 0
  {
  }

  lemma ScrambleZero(h: bv32)
    ensures Xor(h, Scramble(0)) == h
  {
    assert MulC1(0) == 0 && Rotl15(0) == 0 && MulC2(0) == 0;
  }

  // ---------------------------------------------------------------- inverses of the stages

  function DivC1(x: bv32): bv32 { x * 0xdee13bb1 }

  function DivC2(x: bv32): bv32 { x * 0x56ed309b }

  function Div5(x: bv32): bv32 { (x - 0xe6546b64) * 0xcccccccd }

  function DivF1(x: bv32): bv32 { x * 0xa5cb9243 }

  function DivF2(x: bv32): bv32 { x * 0x7ed1b41d }

  function Rotr13(x: bv32): bv32 { (x >> 13) | (x << 19) }

  function Rotr15(x: bv32): bv32 { (x >> 15) | (x << 17) }

  function UnXorShift13(x: bv32): bv32 { x ^ (x >> 13) ^ (x >> 26) }

  function Unscramble(y: bv32): bv32 { DivC1(Rotr15(DivC2(y))) }

  function Unabsorb(h: bv32, k: bv32): bv32 { Xor(Rotr13(Div5(h)), Scramble(k)) }

  function Unfmix(h: bv32): bv32 { XorShift16(DivF1(UnXorShift13(DivF2(XorShift16(h))))) }

  /** Runs the block loop backwards from the state after n blocks to the seed. */
  function Unbody(h: bv32, key: Bytes, n: nat): bv32
    requires 4 * n <= |key|
    decreases n
  {
    if n == 0 then h else Unbody(Unabsorb(h, Block(key, n - 1)), key, n - 1)
  }

  /** The seed that sends a key to a given hash. */
  function SeedFor(h: bv32, key: Bytes): bv32 {
    Unbody(Xor(Xor(Unfmix(h), LenWord(key)), Scramble(TailWord(key))), key, |key| / 4)
  }

  lemma Rotations(x: bv32)
    ensures Rotr13(Rotl13(x)) == x && Rotl13(Rotr13(x)) == x
    ensures Rotr15(Rotl15(x)) == x && Rotl15(Rotr15(x)) == x
  {
  }

  lemma XorShifts16(x: bv32)
    ensures XorShift16(XorShift16(x)) == x
  {
    assert XorShift16(x ^ (x >> 16)) == x;
  }

  lemma XorShifts13(x: bv32)
    ensures UnXorShift13(XorShift13(x)) == x
  {
    assert UnXorShift13(x ^ (x >> 13)) == x;
  }

  lemma UnXorShifts13(x: bv32)
    ensures XorShift13(UnXorShift13(x)) == x
  {
    assert XorShift13(x ^ (x >> 13) ^ (x >> 26)) == x;
  }

  lemma Xors(x: bv32, y: bv32)
    ensures Xor(Xor(x, y), y) == x && Xor(x, Xor(x, y)) == y
  {
  }

  lemma MulC1Inverse(x: bv32)
    ensures DivC1(MulC1(x)) == x
  {
    assert DivC1(x * 0xcc9e2d51) == x;
  }

  lemma MulC2Inverse(x: bv32)
    ensures DivC2(MulC2(x)) == x
  {
    assert DivC2(x * 0x1b873593) == x;
  }

  lemma Mul5Inverse(x: bv32)
    ensures Div5(Mul5(x)) == x && Mul5(Div5(x)) == x
  {
    assert Div5(x * 5 + 0xe6546b64) == x;
    assert Mul5((x - 0xe6546b64) * 0xcccccccd) == x;
  }

  lemma MulF1Inverse(x: bv32)
    ensures DivF1(MulF1(x)) == x && MulF1(DivF1(x)) == x
  {
    assert DivF1(x * 0x85ebca6b) == x;
    assert MulF1(x * 0xa5cb9243) == x;
  }

  lemma MulF2Inverse(x: bv32)
    ensures DivF2(MulF2(x)) == x && MulF2(DivF2(x)) == x
  {
    assert DivF2(x * 0xc2b2ae35) == x;
    assert MulF2(x * 0x7ed1b41d) == x;
  }

  lemma ScrambleInverse(k: bv32)
    ensures Unscramble(Scramble(k)) == k
  {
    MulC1Inverse(k);
    Rotations(MulC1(k));
    MulC2Inverse(Rotl15(MulC1(k)));
  }

  lemma AbsorbInverse(h: bv32, k: bv32)
    ensures Unabsorb(Absorb(h, k), k) == h
    ensures Absorb(Unabsorb(h, k), k) == h
  {
    var s := Scramble(k);
    Xors(h, s);
    Rotations(Xor(h, s));
    Mul5Inverse(Rotl13(Xor(h, s)));
    Xors(Rotr13(Div5(h)), s);
    Rotations(Div5(h));
    Mul5Inverse(h);
  }

  /** fmix32 is a bijection on 32-bit words, with inverse Unfmix. */
  lemma FmixInverse(h: bv32)
    ensures Unfmix(Fmix(h)) == h && Fmix(Unfmix(h)) == h
  {
    var a := XorShift16(h);
    XorShifts16(h);
    MulF1Inverse(a);
    XorShifts13(MulF1(a));
    MulF2Inverse(XorShift13(MulF1(a)));
    XorShifts16(MulF2(XorShift13(MulF1(a))));
    MulF2Inverse(a);
    UnXorShifts13(DivF2(a));
    MulF1Inverse(UnXorShift13(DivF2(a)));
    XorShifts16(DivF1(UnXorShift13(DivF2(a))));
  }

  lemma {:induction false} BodyInverse(seed: bv32, h: bv32, key: Bytes, n: nat)
    requires 4 * n <= |key|
    ensures Unbody(Body(seed, key, n), key, n) == seed
    ensures Body(Unbody(h, key, n), key, n) == h
    decreases n
  {
    hide Absorb, Unabsorb, Block;
    if n > 0 {
      var k := Block(key, n - 1);
      AbsorbInverse(Body(seed, key, n - 1), k);
      AbsorbInverse(h, k);
      BodyInverse(seed, Unabsorb(h, k), key, n - 1);
    }
  }

  /** For a fixed key of any length, hashing is a bijection from seeds to hashes, with inverse SeedFor. */
  lemma SeedBijection(seed: bv32, h: bv32, key: Bytes)
    ensures SeedFor(Hash(seed, key), key) == seed
    ensures Hash(SeedFor(h, key), key) == h
  {
    var n, t, l := |key| / 4, Scramble(TailWord(key)), LenWord(key);
    hide Fmix, Unfmix, Xor, Scramble, TailWord, LenWord;
    var b := Body(seed, key, n);
    Xors(b, t);
    Xors(Xor(b, t), l);
    FmixInverse(Xor(Xor(b, t), l));
    var u := Unfmix(h);
    Xors(u, l);
    Xors(Xor(u, l), t);
    FmixInverse(h);
    BodyInverse(seed, Xor(Xor(u, l), t), key, n);
  }

  // ---------------------------------------------------------------- no collisions

  lemma SameAbsorb(h1: bv32, k1: bv32, h2: bv32, k2: bv32)
    requires Absorb(h1, k1) == Absorb(h2, k2)
    ensures Xor(h1, Scramble(k1)) == Xor(h2, Scramble(k2))
  {
    var x1, x2 := Xor(h1, Scramble(k1)), Xor(h2, Scramble(k2));
    Mul5Inverse(Rotl13(x1));
    Mul5Inverse(Rotl13(x2));
    Rotations(x1);
    Rotations(x2);
  }

  lemma XorCancel(x: bv32, y: bv32, z: bv32)
    ensures Xor(x, y) == Xor(x, z) <==> y == z
    ensures Xor(y, x) == Xor(z, x) <==> y == z
  {
  }

  lemma AbsorbInjective(h1: bv32, k1: bv32, h2: bv32, k2: bv32)
    requires Absorb(h1, k1) == Absorb(h2, k2)
    ensures k1 == k2 <==> h1 == h2
  {
    hide Absorb, Xor, Scramble, Unscramble;
    SameAbsorb(h1, k1, h2, k2);
    XorCancel(h1, Scramble(k1), Scramble(k2));
    XorCancel(Scramble(k1), h1, h2);
    ScrambleInverse(k1);
    ScrambleInverse(k2);
  }

  /** Once two runs of the block loop part, equal blocks keep them apart. */
  lemma {:induction false} BodiesStayApart(seed: bv32, a: Bytes, b: Bytes, m: nat, n: nat)
    requires m <= n && 4 * n <= |a| == |b|
    requires forall j | m <= j < n :: Block(a, j) == Block(b, j)
    ensures Body(seed, a, m) == Body(seed, b, m) <==> Body(seed, a, n) == Body(seed, b, n)
  {
    hide Absorb, Block;
    if m < n {
      BodiesStayApart(seed, a, b, m, n - 1);
      if Body(seed, a, n) == Body(seed, b, n) {
        AbsorbInjective(Body(seed, a, n - 1), Block(a, n - 1), Body(seed, b, n - 1), Block(b, n - 1));
      }
    }
  }

  lemma WordInjective(a0: bv8, a1: bv8, a2: bv8, a3: bv8, b0: bv8, b1: bv8, b2: bv8, b3: bv8)
    requires Word(a0, a1, a2, a3) == Word(b0, b1, b2, b3)
    ensures a0 == b0 && a1 == b1 && a2 == b2 && a3 == b3
  {
  }

  lemma TailInjective(a: Bytes, b: Bytes)
    requires |a| == |b| && TailWord(a) == TailWord(b)
    ensures a[|a| / 4 * 4..] == b[|a| / 4 * 4..]
  {
    var t := |a| / 4 * 4;
    match |a| % 4
    case 3 => WordInjective(a[t], a[t + 1], a[t + 2], 0, b[t], b[t + 1], b[t + 2], 0);
    case 2 => WordInjective(a[t], a[t + 1], 0, 0, b[t], b[t + 1], 0, 0);
    case 1 => WordInjective(a[t], 0, 0, 0, b[t], 0, 0, 0);
    case _ =>
  }

  lemma FmixInjective(x: bv32, y: bv32)
    ensures Fmix(x) == Fmix(y) <==> x == y
  {
    hide Fmix, Unfmix;
    FmixInverse(x);
    FmixInverse(y);
  }

  /** The finishing steps lose nothing: equal hashes of equal-length keys mean equal state before the length is
      mixed in. */
  lemma SameHashSameState(seed: bv32, a: Bytes, b: Bytes)
    requires |a| == |b|
    ensures Hash(seed, a) == Hash(seed, b) <==> State(seed, a) == State(seed, b)
  {
    hide Fmix, State, Xor;
    var l := LenWord(a);
    FmixInjective(Xor(State(seed, a), l), Xor(State(seed, b), l));
    XorCancel(l, State(seed, a), State(seed, b));
  }

  /** Two different keys of one length that agree outside one aligned 4-byte block never have the same hash. */
  lemma OneBlockNoCollision(seed: bv32, a: Bytes, b: Bytes, i: nat)
    requires |a| == |b| && 4 * i + 4 <= |a|
    requires a != b && a[..4 * i] == b[..4 * i] && a[4 * i + 4..] == b[4 * i + 4..]
    ensures Hash(seed, a) != Hash(seed, b)
  {
    hide Absorb, Fmix, Xor, Word, Scramble, LenWord, Hash;
    var n, p := |a| / 4, 4 * i;
    forall j | 0 <= j < n && j != i
      ensures Block(a, j) == Block(b, j)
    {
      AgreeOutside(a, b, p);
    }
    BlockTellsApart(a, b, i);
    BodiesStayApart(seed, a, b, 0, i);
    if Body(seed, a, i + 1) == Body(seed, b, i + 1) {
      AbsorbInjective(Body(seed, a, i), Block(a, i), Body(seed, b, i), Block(b, i));
    }
    BodiesStayApart(seed, a, b, i + 1, n);
    assert TailWord(a) == TailWord(b) by {
      AgreeOutside(a, b, p);
    }
    SameHashSameState(seed, a, b);
    XorCancel(Scramble(TailWord(a)), Body(seed, a, n), Body(seed, b, n));
  }

  lemma BlockTellsApart(a: Bytes, b: Bytes, i: nat)
    requires |a| == |b| && 4 * i + 4 <= |a|
    requires a[..4 * i] == b[..4 * i] && a[4 * i + 4..] == b[4 * i + 4..]
    ensures Block(a, i) == Block(b, i) ==> a == b
  {
    var p := 4 * i;
    if Block(a, i) == Block(b, i) {
      WordInjective(a[p], a[p + 1], a[p + 2], a[p + 3], b[p], b[p + 1], b[p + 2], b[p + 3]);
      AgreeOutside(a, b, p);
    }
  }

  lemma AgreeOutside(a: Bytes, b: Bytes, p: nat)
    requires |a| == |b| && p + 4 <= |a| && a[..p] == b[..p] && a[p + 4..] == b[p + 4..]
    ensures forall k | 0 <= k < |a| && !(p <= k < p + 4) :: a[k] == b[k]
  {
    forall k | 0 <= k < |a| && !(p <= k < p + 4)
      ensures a[k] == b[k]
    {
      if k < p {
        assert a[k] == a[..p][k] == b[..p][k];
      } else {
        assert a[k] == a[p + 4..][k - p - 4] == b[p + 4..][k - p - 4];
      }
    }
  }

  /** Two different keys of one length that agree on every full block never have the same hash. */
  lemma TailNoCollision(seed: bv32, a: Bytes, b: Bytes)
    requires |a| == |b| && a != b && a[..|a| / 4 * 4] == b[..|a| / 4 * 4]
    ensures Hash(seed, a) != Hash(seed, b)
  {
    hide Absorb, Fmix, Xor, Word, Scramble, LenWord, Hash;
    var n := |a| / 4;
    forall j | 0 <= j < n
      ensures Block(a, j) == Block(b, j)
    {
      assert forall k | 0 <= k < 4 * n :: a[k] == a[..4 * n][k] == b[..4 * n][k] == b[k];
    }
    BodiesStayApart(seed, a, b, 0, n);
    SameHashSameState(seed, a, b);
    XorCancel(Body(seed, a, n), Scramble(TailWord(a)), Scramble(TailWord(b)));
    ScrambleInverse(TailWord(a));
    ScrambleInverse(TailWord(b));
    TailTellsApart(a, b);
  }

  lemma TailTellsApart(a: Bytes, b: Bytes)
    requires |a| == |b| && a[..|a| / 4 * 4] == b[..|a| / 4 * 4]
    ensures TailWord(a) == TailWord(b) ==> a == b
  {
    var t := |a| / 4 * 4;
    if TailWord(a) == TailWord(b) {
      TailInjective(a, b);
      assert a == a[..t] + a[t..] && b == b[..t] + b[t..];
    }
  }
}
