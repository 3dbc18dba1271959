/** The code enciphers as FIPS 46-3 says, bit by bit. */
module DesConforms {
  import opened Des
  import opened DesBits
  import opened DesBlocks
  import opened DesCipher
  import opened DesKeys
  import opened DesMixing
  import opened DesModes
  import opened DesRound
  import opened DesTables
  import FIPS = DesStandard

  // ---------------------------------------------------------------------------------- the iterations

  /** One round of the code on a pair of halves. */
  function RoundOf(a: bv32, b: bv32, p: Pair): Pair { Pair(p.y, Xor(p.x, RoundMix(DES_BOXES, a, b, p.y))) }

  lemma OneRound(a: bv32, b: bv32, p: Pair)
    ensures Rounds(MIX(), [a, b], p) == RoundOf(a, b, p)
  {
    hide Xor, RoundMix, DES_BOXES;
    assert [a, b][2..] == [];
    assert Rounds(MIX(), [], RoundOf(a, b, p)) == RoundOf(a, b, p);
  }

  /** L and R, with bits in the standard's places. */
  function HalvesOf(p: Pair): (h: FIPS.Halves)
    ensures |h.l| == |h.r| == 32
  {
    FIPS.Halves(BitsOf(Right1(p.x)), BitsOf(Right1(p.y)))
  }

  lemma RoundFollows(a: bv32, b: bv32, p: Pair)
    ensures var h := HalvesOf(p);
            HalvesOf(RoundOf(a, b, p)) == FIPS.Halves(h.r, FIPS.Mod2(h.l, FIPS.F(h.r, GroupBits(a, b))))
  {
    hide Xor, RoundMix, DES_BOXES, Right1, BitsOf, GroupBits, FIPS.F, FIPS.Mod2;
    var m := RoundMix(DES_BOXES, a, b, p.y);
    MixIsF(a, b, p.y);
    TurnXor(p.x, m);
    WordXor(Right1(p.x), Right1(m));
  }

  /** After n rounds the code's halves are the L and R of the standard after n iterations. */
  lemma {:induction false} RoundsFollow(k: Pair, b: Pair, n: nat)
    requires n <= 16
    ensures HalvesOf(Rounds(MIX(), Subkeys(k, n), Ip(b))) == FIPS.Iterated(PairBits(k), PairBits(b), n)
  {
    hide HalvesOf, RoundOf, Ip, Halves, Subkey0, Subkey1, PairBits, GroupBits, MIX, Rounds;
    hide FIPS.F, FIPS.KeyOf, FIPS.Mod2, FIPS.Select, FIPS.IP;
    if n == 0 {
      StartFollows(b);
    } else {
      var (h, p) := (Halves(k, n), Rounds(MIX(), Subkeys(k, n - 1), Ip(b)));
      var (k0, k1) := (Subkey0(h), Subkey1(h));
      RoundsFollow(k, b, n - 1);
      RoundsConcat(MIX(), Subkeys(k, n - 1), [k0, k1], Ip(b));
      OneRound(k0, k1, p);
      RoundFollows(k0, k1, p);
      SubkeysFollow(k, n);
    }
  }

  lemma StartFollows(b: Pair)
    ensures HalvesOf(Rounds(MIX(), [], Ip(b))) == HalvesOf(Ip(b))
    ensures var s := FIPS.Select(PairBits(b), FIPS.IP, 8, 64); HalvesOf(Ip(b)) == FIPS.Halves(s[..32], s[32..])
  {
    hide Ip, Right1, BitsOf, FIPS.Select, FIPS.IP;
    IpSelects(b);
    var (l, r) := (BitsOf(Right1(Ip(b).x)), BitsOf(Right1(Ip(b).y)));
    assert (l + r)[..32] == l && (l + r)[32..] == r;
  }

  // ------------------------------------------------------------------------------------ enciphering

  function FpEntry(i: nat): nat { FIPS.EntryOf(FIPS.IP_INVERSE, 8, i) }

  lemma FpUpperEntries()
    ensures && FpEntry(0) == 40 && FpEntry(1) == 8 && FpEntry(2) == 48 && FpEntry(3) == 16
            && FpEntry(4) == 56 && FpEntry(5) == 24 && FpEntry(6) == 64 && FpEntry(7) == 32
            && FpEntry(8) == 39 && FpEntry(9) == 7 && FpEntry(10) == 47 && FpEntry(11) == 15
            && FpEntry(12) == 55 && FpEntry(13) == 23 && FpEntry(14) == 63 && FpEntry(15) == 31
            && FpEntry(16) == 38 && FpEntry(17) == 6 && FpEntry(18) == 46 && FpEntry(19) == 14
            && FpEntry(20) == 54 && FpEntry(21) == 22 && FpEntry(22) == 62 && FpEntry(23) == 30
            && FpEntry(24) == 37 && FpEntry(25) == 5 && FpEntry(26) == 45 && FpEntry(27) == 13
            && FpEntry(28) == 53 && FpEntry(29) == 21 && FpEntry(30) == 61 && FpEntry(31) == 29 {}

  lemma FpLowerEntries()
    ensures && FpEntry(32) == 36 && FpEntry(33) == 4 && FpEntry(34) == 44 && FpEntry(35) == 12
            && FpEntry(36) == 52 && FpEntry(37) == 20 && FpEntry(38) == 60 && FpEntry(39) == 28
            && FpEntry(40) == 35 && FpEntry(41) == 3 && FpEntry(42) == 43 && FpEntry(43) == 11
            && FpEntry(44) == 51 && FpEntry(45) == 19 && FpEntry(46) == 59 && FpEntry(47) == 27
            && FpEntry(48) == 34 && FpEntry(49) == 2 && FpEntry(50) == 42 && FpEntry(51) == 10
            && FpEntry(52) == 50 && FpEntry(53) == 18 && FpEntry(54) == 58 && FpEntry(55) == 26
            && FpEntry(56) == 33 && FpEntry(57) == 1 && FpEntry(58) == 41 && FpEntry(59) == 9
            && FpEntry(60) == 49 && FpEntry(61) == 17 && FpEntry(62) == 57 && FpEntry(63) == 25 {}

  /** The last permutation is the inverse of the first. */
  lemma EntriesInverse(i: nat)
    requires i < 64
    ensures 1 <= FpEntry(i) <= 64 && IpEntry(FpEntry(i) - 1) == i + 1
  {
    hide IpEntry, FpEntry;
    IpUpperEntries(); IpLowerEntries(); FpUpperEntries(); FpLowerEntries();
    assert Eight(i / 8) && Eight(i % 8);
  }

  lemma SelectsBack(b: FIPS.Bits)
    requires |b| == 64
    ensures FIPS.Select(FIPS.Select(b, FIPS.IP, 8, 64), FIPS.IP_INVERSE, 8, 64) == b
  {
    hide FIPS.IP, FIPS.IP_INVERSE, FIPS.EntryOf;
    var s := FIPS.Select(b, FIPS.IP, 8, 64);
    forall i | 0 <= i < 64 ensures FIPS.Select(s, FIPS.IP_INVERSE, 8, 64)[i] == b[i] { EntriesInverse(i); }
  }

  lemma CryptConforms(k: Pair, b: Pair)
    ensures PairBits(Crypt(MIX(), KeySchedule(k), b)) == FIPS.Enciphered(PairBits(k), PairBits(b))
  {
    hide Ip, Fp, Right1, MIX, Rounds, Subkeys, BitsOf, FIPS.Select, FIPS.Iterated, FIPS.IP, FIPS.IP_INVERSE;
    var p := Rounds(MIX(), KeySchedule(k), Ip(b));
    RoundsFollow(k, b, 16);
    IpOfFp(Swap(p));
    IpSelects(Fp(Swap(p)));
    SelectsBack(PairBits(Fp(Swap(p))));
  }

  /** The code's DES is the cipher of the standard, for every key and block. */
  lemma CipherConforms(key: Block, b: Block)
    ensures BlockBits(DesWith(KeysOf(key))(b)) == FIPS.Enciphered(BlockBits(key), BlockBits(b))
  {
    hide MIX, Crypt, KeySchedule, PairOf, BytesOf, PairBits, BlockBits, FIPS.Enciphered;
    PairOfBits(key); PairOfBits(b);
    var c := Crypt(MIX(), KeysOf(key), PairOf(b));
    PairOfBits(BytesOf(c));
    PairOfBytes(c);
    CryptConforms(PairOf(key), PairOf(b));
  }

  /** Decryption finds the block that the standard's cipher takes to the given one. */
  lemma DecryptConforms(key: Block, c: Block)
    ensures FIPS.Enciphered(BlockBits(key), BlockBits(DesWith(Reversed(KeysOf(key)))(c))) == BlockBits(c)
  {
    hide KeysOf, DesWith, Reversed, BlockBits, FIPS.Enciphered;
    DesInverse(KeysOf(key));
    CipherConforms(key, DesWith(Reversed(KeysOf(key)))(c));
  }

  /** Triple DES enciphers under the first key, deciphers under the second and enciphers under the third. */
  lemma TripleConforms(k1: Block, k2: Block, k3: Block, b: Block) returns (m: Block)
    ensures FIPS.Enciphered(BlockBits(k2), BlockBits(m)) == FIPS.Enciphered(BlockBits(k1), BlockBits(b))
    ensures BlockBits(Des3With(ThreeKeys(k1 + k2 + k3))(b)) == FIPS.Enciphered(BlockBits(k3), BlockBits(m))
  {
    hide KeysOf, DesWith, Des3With, ThreeKeys, Reversed, BlockBits, FIPS.Enciphered;
    var m1 := DesWith(KeysOf(k1))(b);
    m := DesWith(Reversed(KeysOf(k2)))(m1);
    ThreeKeysOrder(k1, k2, k3, b);
    CipherConforms(k1, b);
    DecryptConforms(k2, m1);
    CipherConforms(k3, m);
  }
}
