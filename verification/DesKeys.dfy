/** The DES key schedule. */
module DesKeys {
  import opened DesTables
  import opened DesCipher

  const HALF_BITS: bv32 := 0x0FFFFFFF

  // ------------------------------------------------------------------------ des_main_ks

  // The two exchange lines before the tables
  function PcX4(x: bv32, y: bv32): bv32 { x ^ (((y >> 4) ^ x) & 0x0F0F0F0F) }
  function PcY4(x: bv32, y: bv32): bv32 { y ^ ((((y >> 4) ^ x) & 0x0F0F0F0F) << 4) }
  function PcX0(x: bv32, y: bv32): bv32 { x ^ ((y ^ x) & 0x10101010) }
  function PcY0(x: bv32, y: bv32): bv32 { y ^ ((y ^ x) & 0x10101010) }

  function Exchanged(k: Pair): Pair {
    var x, y := PcX4(k.x, k.y), PcY4(k.x, k.y);
    Pair(PcX0(x, y), PcY0(x, y))
  }

  function Nibble(v: bv32): (n: nat) ensures n < 16 { (v & 0xF) as int }

  function Lhs(v: bv32): bv32 { LHs[Nibble(v)] }
  function Rhs(v: bv32): bv32 { RHs[Nibble(v)] }

  /** Eight table words, each shifted to its own bit of every byte; 28 bits are kept. */
  function Gather(a: bv32, b: bv32, c: bv32, d: bv32, e: bv32, f: bv32, g: bv32, h: bv32): bv32 {
    ((a << 3) | (b << 2) | (c << 1) | d | (e << 7) | (f << 6) | (g << 5) | (h << 4)) & HALF_BITS
  }

  function LeftHalf(x: bv32): bv32 {
    Gather(Lhs(x), Lhs(x >> 8), Lhs(x >> 16), Lhs(x >> 24), Lhs(x >> 5), Lhs(x >> 13), Lhs(x >> 21), Lhs(x >> 29))
  }

  function RightHalf(y: bv32): bv32 {
    Gather(Rhs(y >> 1), Rhs(y >> 9), Rhs(y >> 17), Rhs(y >> 25), Rhs(y >> 4), Rhs(y >> 12), Rhs(y >> 20), Rhs(y >> 28))
  }

  /** Permuted choice 1: 28 bits in each word. */
  function Pc1(k: Pair): Pair { Pair(LeftHalf(Exchanged(k).x), RightHalf(Exchanged(k).y)) }

  function Turn1(w: bv32): bv32 { ((w << 1) | (w >> 27)) & HALF_BITS }
  function Turn2(w: bv32): bv32 { ((w << 2) | (w >> 26)) & HALF_BITS }

  /** The left rotation of both 28-bit halves in round i. */
  function Turned(i: nat, k: Pair): Pair {
    if i < 2 || i == 8 || i == 15 then Pair(Turn1(k.x), Turn1(k.y)) else Pair(Turn2(k.x), Turn2(k.y))
  }

  // Permuted choice 2: the bits of the two subkey words that come from each half
  function LeftWord0(x: bv32): bv32 {
    (((x << 4) & 0x24000000) | ((x << 28) & 0x10000000)
     | ((x << 14) & 0x08000000) | ((x << 18) & 0x02080000)
     | ((x << 6) & 0x01000000) | ((x << 9) & 0x00200000)
     | ((x >> 1) & 0x00100000) | ((x << 10) & 0x00040000)
     | ((x << 2) & 0x00020000) | ((x >> 10) & 0x00010000))
  }

  function RightWord0(y: bv32): bv32 {
    (((y >> 13) & 0x00002000) | ((y >> 4) & 0x00001000)
     | ((y << 6) & 0x00000800) | ((y >> 1) & 0x00000400)
     | ((y >> 14) & 0x00000200) | (y & 0x00000100)
     | ((y >> 5) & 0x00000020) | ((y >> 10) & 0x00000010)
     | ((y >> 3) & 0x00000008) | ((y >> 18) & 0x00000004)
     | ((y >> 26) & 0x00000002) | ((y >> 24) & 0x00000001))
  }

  function LeftWord1(x: bv32): bv32 {
    (((x << 15) & 0x20000000) | ((x << 17) & 0x10000000)
     | ((x << 10) & 0x08000000) | ((x << 22) & 0x04000000)
     | ((x >> 2) & 0x02000000) | ((x << 1) & 0x01000000)
     | ((x << 16) & 0x00200000) | ((x << 11) & 0x00100000)
     | ((x << 3) & 0x00080000) | ((x >> 6) & 0x00040000)
     | ((x << 15) & 0x00020000) | ((x >> 4) & 0x00010000))
  }

  function RightWord1(y: bv32): bv32 {
    (((y >> 2) & 0x00002000) | ((y << 8) & 0x00001000)
     | ((y >> 14) & 0x00000808) | ((y >> 9) & 0x00000400)
     | (y & 0x00000200) | ((y << 7) & 0x00000100)
     | ((y >> 7) & 0x00000020) | ((y >> 3) & 0x00000011)
     | ((y << 2) & 0x00000004) | ((y >> 21) & 0x00000002))
  }

  function Word0(x: bv32, y: bv32): bv32 { LeftWord0(x) | RightWord0(y) }
  function Word1(x: bv32, y: bv32): bv32 { LeftWord1(x) | RightWord1(y) }

  function Subkey0(k: Pair): bv32 { Word0(k.x, k.y) }
  function Subkey1(k: Pair): bv32 { Word1(k.x, k.y) }

  /** The halves after the rotations of i rounds. */
  function Halves(k: Pair, i: nat): Pair {
    if i == 0 then Pc1(k) else Turned(i - 1, Halves(k, i - 1))
  }

  /** The first n rounds' subkeys. */
  function Subkeys(k: Pair, n: nat): (r: seq<bv32>)
    ensures |r| == 2 * n
  {
    if n == 0 then [] else Subkeys(k, n - 1) + [Subkey0(Halves(k, n)), Subkey1(Halves(k, n))]
  }

  /** The schedule of one key. */
  function KeySchedule(k: Pair): (r: seq<bv32>)
    ensures |r| == 32
  {
    Subkeys(k, 16)
  }

  // --------------------------------------------------------- the schedule of the inverted key

  function Inv28(w: bv32): bv32 { w ^ HALF_BITS }

  function NotHalves(k: Pair): Pair { Pair(Inv28(k.x), Inv28(k.y)) }

  predicate Half(w: bv32) { w & 0xF0000000 == 0 }

  // The exchange lines invert with the key
  lemma ExchangedBits(k: Pair)
    ensures Exchanged(Not(k)).x ^ Exchanged(k).x == 0xFFFFFFFF && Exchanged(Not(k)).y ^ Exchanged(k).y == 0xFFFFFFFF {}

  lemma ExchangedNot(k: Pair)
    ensures Exchanged(Not(k)) == Not(Exchanged(k))
  {
    hide Exchanged, Inv;
    ExchangedBits(k);
    Inverted(Exchanged(Not(k)).x, Exchanged(k).x);
    Inverted(Exchanged(Not(k)).y, Exchanged(k).y);
  }

  const SPREAD_BITS: bv32 := 0x01010101

  function Flip(w: bv32): bv32 { w ^ SPREAD_BITS }
  function FlipThree(w: bv32): bv32 { w ^ 0x00010101 }

  predicate Spread(w: bv32) { w & 0xFEFEFEFE == 0 }

  // The tables spread four bits, so the complementary index selects the complementary word.
  lemma LeftTable(i: nat)
    requires i < 16
    ensures LHs[15 - i] == Flip(LHs[i]) && Spread(LHs[i])
  {
    match i {
      case 0 | 15 =>
      case 1 | 14 =>
      case 2 | 13 =>
      case 3 | 12 =>
      case 4 | 11 =>
      case 5 | 10 =>
      case 6 | 9 =>
      case _ =>
    }
  }

  lemma RightTable(i: nat)
    requires i < 16
    ensures RHs[15 - i] == Flip(RHs[i]) && Spread(RHs[i])
  {
    match i {
      case 0 | 15 =>
      case 1 | 14 =>
      case 2 | 13 =>
      case 3 | 12 =>
      case 4 | 11 =>
      case 5 | 10 =>
      case 6 | 9 =>
      case _ =>
    }
  }

  lemma TopTable(i: nat)
    requires i < 8
    ensures LHs[7 - i] == FlipThree(LHs[i]) && Spread(LHs[i])
  {
    match i {
      case 0 | 7 =>
      case 1 | 6 =>
      case 2 | 5 =>
      case _ =>
    }
  }

  /** The low four bits are opposite. */
  predicate Opposite(v: bv32, w: bv32) { (w ^ v) & 0xF == 0xF }

  lemma NibbleNot(v: bv32, w: bv32)
    requires Opposite(v, w)
    ensures Nibble(w) == 15 - Nibble(v) {}

  lemma LhsNot(v: bv32, w: bv32)
    requires Opposite(v, w)
    ensures Lhs(w) == Flip(Lhs(v)) && Spread(Lhs(v))
  {
    NibbleNot(v, w); LeftTable(Nibble(v));
  }

  lemma RhsNot(v: bv32, w: bv32)
    requires Opposite(v, w)
    ensures Rhs(w) == Flip(Rhs(v)) && Spread(Rhs(v))
  {
    NibbleNot(v, w); RightTable(Nibble(v));
  }

  // The last index of the left half has three bits only.
  lemma TopNibble(x: bv32)
    ensures Nibble(x >> 29) < 8 && Nibble(Inv(x) >> 29) == 7 - Nibble(x >> 29) {}

  lemma LhsTop(x: bv32)
    ensures Lhs(Inv(x) >> 29) == FlipThree(Lhs(x >> 29)) && Spread(Lhs(x >> 29))
  {
    TopNibble(x); TopTable(Nibble(x >> 29));
  }

  lemma LeftNibbleBits(x: bv32)
    ensures Opposite(x, Inv(x))
    ensures Opposite(x >> 8, Inv(x) >> 8)
    ensures Opposite(x >> 16, Inv(x) >> 16)
    ensures Opposite(x >> 24, Inv(x) >> 24)
    ensures Opposite(x >> 5, Inv(x) >> 5)
    ensures Opposite(x >> 13, Inv(x) >> 13)
    ensures Opposite(x >> 21, Inv(x) >> 21) {}

  lemma RightNibbleBits(y: bv32)
    ensures Opposite(y >> 1, Inv(y) >> 1)
    ensures Opposite(y >> 9, Inv(y) >> 9)
    ensures Opposite(y >> 17, Inv(y) >> 17)
    ensures Opposite(y >> 25, Inv(y) >> 25)
    ensures Opposite(y >> 4, Inv(y) >> 4)
    ensures Opposite(y >> 12, Inv(y) >> 12)
    ensures Opposite(y >> 20, Inv(y) >> 20)
    ensures Opposite(y >> 28, Inv(y) >> 28) {}

  lemma GatherBits(a: bv32, b: bv32, c: bv32, d: bv32, e: bv32, f: bv32, g: bv32, h: bv32)
    requires Spread(a) && Spread(b) && Spread(c) && Spread(d) && Spread(e) && Spread(f) && Spread(g) && Spread(h)
    ensures Gather(Flip(a), Flip(b), Flip(c), Flip(d), Flip(e), Flip(f), Flip(g), Flip(h))
            ^ Inv28(Gather(a, b, c, d, e, f, g, h)) == 0 {}

  lemma GatherNot(a: bv32, b: bv32, c: bv32, d: bv32, e: bv32, f: bv32, g: bv32, h: bv32)
    requires Spread(a) && Spread(b) && Spread(c) && Spread(d) && Spread(e) && Spread(f) && Spread(g) && Spread(h)
    ensures Gather(Flip(a), Flip(b), Flip(c), Flip(d), Flip(e), Flip(f), Flip(g), Flip(h))
            == Inv28(Gather(a, b, c, d, e, f, g, h))
  {
    hide *;
    GatherBits(a, b, c, d, e, f, g, h);
    Same(Gather(Flip(a), Flip(b), Flip(c), Flip(d), Flip(e), Flip(f), Flip(g), Flip(h)),
         Inv28(Gather(a, b, c, d, e, f, g, h)));
  }

  lemma GatherTopBits(a: bv32, b: bv32, c: bv32, d: bv32, e: bv32, f: bv32, g: bv32, h: bv32)
    requires Spread(a) && Spread(b) && Spread(c) && Spread(d) && Spread(e) && Spread(f) && Spread(g) && Spread(h)
    ensures Gather(Flip(a), Flip(b), Flip(c), Flip(d), Flip(e), Flip(f), Flip(g), FlipThree(h))
            ^ Inv28(Gather(a, b, c, d, e, f, g, h)) == 0 {}

  lemma GatherTopNot(a: bv32, b: bv32, c: bv32, d: bv32, e: bv32, f: bv32, g: bv32, h: bv32)
    requires Spread(a) && Spread(b) && Spread(c) && Spread(d) && Spread(e) && Spread(f) && Spread(g) && Spread(h)
    ensures Gather(Flip(a), Flip(b), Flip(c), Flip(d), Flip(e), Flip(f), Flip(g), FlipThree(h))
            == Inv28(Gather(a, b, c, d, e, f, g, h))
  {
    hide *;
    GatherTopBits(a, b, c, d, e, f, g, h);
    Same(Gather(Flip(a), Flip(b), Flip(c), Flip(d), Flip(e), Flip(f), Flip(g), FlipThree(h)),
         Inv28(Gather(a, b, c, d, e, f, g, h)));
  }

  lemma LeftWords(x: bv32)
    ensures Lhs(Inv(x)) == Flip(Lhs(x)) && Spread(Lhs(x))
    ensures Lhs(Inv(x) >> 8) == Flip(Lhs(x >> 8)) && Spread(Lhs(x >> 8))
    ensures Lhs(Inv(x) >> 16) == Flip(Lhs(x >> 16)) && Spread(Lhs(x >> 16))
    ensures Lhs(Inv(x) >> 24) == Flip(Lhs(x >> 24)) && Spread(Lhs(x >> 24))
    ensures Lhs(Inv(x) >> 5) == Flip(Lhs(x >> 5)) && Spread(Lhs(x >> 5))
    ensures Lhs(Inv(x) >> 13) == Flip(Lhs(x >> 13)) && Spread(Lhs(x >> 13))
    ensures Lhs(Inv(x) >> 21) == Flip(Lhs(x >> 21)) && Spread(Lhs(x >> 21))
    ensures Lhs(Inv(x) >> 29) == FlipThree(Lhs(x >> 29)) && Spread(Lhs(x >> 29))
  {
    hide *;
    LeftNibbleBits(x);
    LhsNot(x, Inv(x)); LhsNot(x >> 8, Inv(x) >> 8); LhsNot(x >> 16, Inv(x) >> 16); LhsNot(x >> 24, Inv(x) >> 24);
    LhsNot(x >> 5, Inv(x) >> 5); LhsNot(x >> 13, Inv(x) >> 13); LhsNot(x >> 21, Inv(x) >> 21); LhsTop(x);
  }

  lemma LeftHalfNot(x: bv32)
    ensures LeftHalf(Inv(x)) == Inv28(LeftHalf(x))
  {
    hide Gather, Inv28, Flip, FlipThree, Lhs, Inv, Spread;
    LeftWords(x);
    GatherTopNot(Lhs(x), Lhs(x >> 8), Lhs(x >> 16), Lhs(x >> 24), Lhs(x >> 5), Lhs(x >> 13), Lhs(x >> 21),
      Lhs(x >> 29));
  }

  lemma RightWords(y: bv32)
    ensures Rhs(Inv(y) >> 1) == Flip(Rhs(y >> 1)) && Spread(Rhs(y >> 1))
    ensures Rhs(Inv(y) >> 9) == Flip(Rhs(y >> 9)) && Spread(Rhs(y >> 9))
    ensures Rhs(Inv(y) >> 17) == Flip(Rhs(y >> 17)) && Spread(Rhs(y >> 17))
    ensures Rhs(Inv(y) >> 25) == Flip(Rhs(y >> 25)) && Spread(Rhs(y >> 25))
    ensures Rhs(Inv(y) >> 4) == Flip(Rhs(y >> 4)) && Spread(Rhs(y >> 4))
    ensures Rhs(Inv(y) >> 12) == Flip(Rhs(y >> 12)) && Spread(Rhs(y >> 12))
    ensures Rhs(Inv(y) >> 20) == Flip(Rhs(y >> 20)) && Spread(Rhs(y >> 20))
    ensures Rhs(Inv(y) >> 28) == Flip(Rhs(y >> 28)) && Spread(Rhs(y >> 28))
  {
    hide *;
    RightNibbleBits(y);
    RhsNot(y >> 1, Inv(y) >> 1); RhsNot(y >> 9, Inv(y) >> 9); RhsNot(y >> 17, Inv(y) >> 17);
    RhsNot(y >> 25, Inv(y) >> 25);
    RhsNot(y >> 4, Inv(y) >> 4); RhsNot(y >> 12, Inv(y) >> 12); RhsNot(y >> 20, Inv(y) >> 20);
    RhsNot(y >> 28, Inv(y) >> 28);
  }

  lemma RightHalfNot(y: bv32)
    ensures RightHalf(Inv(y)) == Inv28(RightHalf(y))
  {
    hide Gather, Inv28, Flip, Rhs, Inv, Spread;
    RightWords(y);
    GatherNot(Rhs(y >> 1), Rhs(y >> 9), Rhs(y >> 17), Rhs(y >> 25), Rhs(y >> 4), Rhs(y >> 12), Rhs(y >> 20),
      Rhs(y >> 28));
  }

  lemma Pc1Not(k: Pair)
    ensures Pc1(Not(k)) == NotHalves(Pc1(k))
  {
    ExchangedNot(k);
    LeftHalfNot(Exchanged(k).x);
    RightHalfNot(Exchanged(k).y);
  }

  // Rotations of 28 bits
  lemma Turn1Bits(w: bv32)
    requires Half(w)
    ensures Turn1(Inv28(w)) ^ Inv28(Turn1(w)) == 0 {}

  lemma Turn2Bits(w: bv32)
    requires Half(w)
    ensures Turn2(Inv28(w)) ^ Inv28(Turn2(w)) == 0 {}

  lemma Turn1Not(w: bv32)
    requires Half(w)
    ensures Turn1(Inv28(w)) == Inv28(Turn1(w))
  {
    hide *;
    Turn1Bits(w);
    Same(Turn1(Inv28(w)), Inv28(Turn1(w)));
  }

  lemma Turn2Not(w: bv32)
    requires Half(w)
    ensures Turn2(Inv28(w)) == Inv28(Turn2(w))
  {
    hide *;
    Turn2Bits(w);
    Same(Turn2(Inv28(w)), Inv28(Turn2(w)));
  }

  lemma GatherHalf(a: bv32, b: bv32, c: bv32, d: bv32, e: bv32, f: bv32, g: bv32, h: bv32)
    ensures Half(Gather(a, b, c, d, e, f, g, h)) {}
  lemma Turn1Half(w: bv32) ensures Half(Turn1(w)) {}
  lemma Turn2Half(w: bv32) ensures Half(Turn2(w)) {}

  lemma {:induction false} HalvesNot(k: Pair, i: nat)
    ensures Half(Halves(k, i).x) && Half(Halves(k, i).y)
    ensures Halves(Not(k), i) == NotHalves(Halves(k, i))
  {
    if i == 0 {
      var (x, y) := (Exchanged(k).x, Exchanged(k).y);
      GatherHalf(Lhs(x), Lhs(x >> 8), Lhs(x >> 16), Lhs(x >> 24), Lhs(x >> 5), Lhs(x >> 13), Lhs(x >> 21),
        Lhs(x >> 29));
      GatherHalf(Rhs(y >> 1), Rhs(y >> 9), Rhs(y >> 17), Rhs(y >> 25), Rhs(y >> 4), Rhs(y >> 12), Rhs(y >> 20),
        Rhs(y >> 28));
      Pc1Not(k);
    } else {
      HalvesNot(k, i - 1);
      var h := Halves(k, i - 1);
      Turn1Half(h.x); Turn1Half(h.y); Turn2Half(h.x); Turn2Half(h.y);
      Turn1Not(h.x); Turn1Not(h.y); Turn2Not(h.x); Turn2Not(h.y);
    }
  }

  // The subkey words take no bit twice and leave none of their six-bit groups out.
  lemma Word0Bits(x: bv32, y: bv32)
    ensures Word0(Inv28(x), Inv28(y)) ^ Xor(Word0(x, y), KEY_BITS) == 0 {}

  lemma Word1Bits(x: bv32, y: bv32)
    ensures Word1(Inv28(x), Inv28(y)) ^ Xor(Word1(x, y), KEY_BITS) == 0 {}

  lemma SubkeysOfNot(k: Pair)
    ensures Subkey0(NotHalves(k)) == Xor(Subkey0(k), KEY_BITS)
    ensures Subkey1(NotHalves(k)) == Xor(Subkey1(k), KEY_BITS)
  {
    hide Word0, Word1, Inv28, Xor;
    Word0Bits(k.x, k.y); Same(Word0(Inv28(k.x), Inv28(k.y)), Xor(Word0(k.x, k.y), KEY_BITS));
    Word1Bits(k.x, k.y); Same(Word1(Inv28(k.x), Inv28(k.y)), Xor(Word1(k.x, k.y), KEY_BITS));
  }

  lemma SubkeysMore(k: Pair, n: nat)
    requires n > 0
    ensures Subkeys(k, n) == Subkeys(k, n - 1) + [Subkey0(Halves(k, n)), Subkey1(Halves(k, n))]
  {
    hide Subkey0, Subkey1, Halves;
  }

  lemma NotKeysMore(sk: seq<bv32>, k0: bv32, k1: bv32)
    ensures NotKeys(sk + [k0, k1]) == NotKeys(sk) + [Xor(k0, KEY_BITS), Xor(k1, KEY_BITS)]
  {
    hide Xor;
  }

  lemma {:induction false} SubkeysNot(k: Pair, n: nat)
    ensures Subkeys(Not(k), n) == NotKeys(Subkeys(k, n))
  {
    if n > 0 {
      hide *;
      SubkeysNot(k, n - 1);
      HalvesNot(k, n);
      SubkeysOfNot(Halves(k, n));
      SubkeysMore(k, n);
      SubkeysMore(Not(k), n);
      NotKeysMore(Subkeys(k, n - 1), Subkey0(Halves(k, n)), Subkey1(Halves(k, n)));
    }
  }

  /** Inverting the key inverts exactly the six-bit groups of every subkey. */
  lemma KeyScheduleNot(k: Pair)
    ensures KeySchedule(Not(k)) == NotKeys(KeySchedule(k))
  {
    SubkeysNot(k, 16);
  }
}
