/** Words as strings of bits, and where the shifts, masks and tables of the code put every bit. */
module DesBits {
  import opened DesCipher
  import opened DesKeys
  import opened DesRound
  import opened DesTables
  import FIPS = DesStandard

  // ---------------------------------------------------------------------------- bits of words

  /** The words with one bit, the leftmost bit first. */
  const ONES: seq<seq<bv32>> := [
    [0x80000000, 0x40000000, 0x20000000, 0x10000000, 0x08000000, 0x04000000, 0x02000000, 0x01000000],
    [0x00800000, 0x00400000, 0x00200000, 0x00100000, 0x00080000, 0x00040000, 0x00020000, 0x00010000],
    [0x00008000, 0x00004000, 0x00002000, 0x00001000, 0x00000800, 0x00000400, 0x00000200, 0x00000100],
    [0x00000080, 0x00000040, 0x00000020, 0x00000010, 0x00000008, 0x00000004, 0x00000002, 0x00000001]
  ]

  function One(i: nat): bv32
    requires i < 32
  {
    ONES[i / 8][i % 8]
  }

  predicate BitAt(w: bv32, i: nat)
    requires i < 32
  {
    w & One(i) != 0
  }

  /** The bit m of a word is the bit n of another. */
  predicate Goes(w: bv32, m: bv32, v: bv32, n: bv32) { w & m != 0 <==> v & n != 0 }

  predicate Eight(c: nat) { c == 0 || c == 1 || c == 2 || c == 3 || c == 4 || c == 5 || c == 6 || c == 7 }

  lemma Ones0()
    ensures && One(0) == 0x80000000 && One(1) == 0x40000000 && One(2) == 0x20000000 && One(3) == 0x10000000
            && One(4) == 0x08000000 && One(5) == 0x04000000 && One(6) == 0x02000000 && One(7) == 0x01000000 {}

  lemma Ones1()
    ensures && One(8) == 0x00800000 && One(9) == 0x00400000 && One(10) == 0x00200000 && One(11) == 0x00100000
            && One(12) == 0x00080000 && One(13) == 0x00040000 && One(14) == 0x00020000 && One(15) == 0x00010000 {}

  lemma Ones2()
    ensures && One(16) == 0x00008000 && One(17) == 0x00004000 && One(18) == 0x00002000 && One(19) == 0x00001000
            && One(20) == 0x00000800 && One(21) == 0x00000400 && One(22) == 0x00000200 && One(23) == 0x00000100 {}

  lemma Ones3()
    ensures && One(24) == 0x00000080 && One(25) == 0x00000040 && One(26) == 0x00000020 && One(27) == 0x00000010
            && One(28) == 0x00000008 && One(29) == 0x00000004 && One(30) == 0x00000002 && One(31) == 0x00000001 {}

  lemma Ones()
    ensures && One(0) == 0x80000000 && One(1) == 0x40000000 && One(2) == 0x20000000 && One(3) == 0x10000000
            && One(4) == 0x08000000 && One(5) == 0x04000000 && One(6) == 0x02000000 && One(7) == 0x01000000
            && One(8) == 0x00800000 && One(9) == 0x00400000 && One(10) == 0x00200000 && One(11) == 0x00100000
            && One(12) == 0x00080000 && One(13) == 0x00040000 && One(14) == 0x00020000 && One(15) == 0x00010000
            && One(16) == 0x00008000 && One(17) == 0x00004000 && One(18) == 0x00002000 && One(19) == 0x00001000
            && One(20) == 0x00000800 && One(21) == 0x00000400 && One(22) == 0x00000200 && One(23) == 0x00000100
            && One(24) == 0x00000080 && One(25) == 0x00000040 && One(26) == 0x00000020 && One(27) == 0x00000010
            && One(28) == 0x00000008 && One(29) == 0x00000004 && One(30) == 0x00000002 && One(31) == 0x00000001
  {
    hide One;
    Ones0(); Ones1(); Ones2(); Ones3();
  }

  // ---------------------------------------------------------------- the initial permutation

  /** Bit i of the two halves, turned right by one, is the bit of the block that IP names. */
  predicate IpFits(p: Pair, i: nat)
    requires i < 64
  {
    var k := IpEntry(i);
    1 <= k <= 64
    && Goes(Right1(if i < 32 then Ip(p).x else Ip(p).y), One(i % 32), if k <= 32 then p.x else p.y, One((k - 1) % 32))
  }

  lemma IpMasks0(p: Pair)
    ensures var w := Right1(Ip(p).x);
            && Goes(w, 0x80000000, p.y, 0x00000040) && Goes(w, 0x40000000, p.y, 0x00004000)
            && Goes(w, 0x20000000, p.y, 0x00400000) && Goes(w, 0x10000000, p.y, 0x40000000)
            && Goes(w, 0x08000000, p.x, 0x00000040) && Goes(w, 0x04000000, p.x, 0x00004000)
            && Goes(w, 0x02000000, p.x, 0x00400000) && Goes(w, 0x01000000, p.x, 0x40000000) {}

  lemma IpMasks1(p: Pair)
    ensures var w := Right1(Ip(p).x);
            && Goes(w, 0x00800000, p.y, 0x00000010) && Goes(w, 0x00400000, p.y, 0x00001000)
            && Goes(w, 0x00200000, p.y, 0x00100000) && Goes(w, 0x00100000, p.y, 0x10000000)
            && Goes(w, 0x00080000, p.x, 0x00000010) && Goes(w, 0x00040000, p.x, 0x00001000)
            && Goes(w, 0x00020000, p.x, 0x00100000) && Goes(w, 0x00010000, p.x, 0x10000000) {}

  lemma IpMasks2(p: Pair)
    ensures var w := Right1(Ip(p).x);
            && Goes(w, 0x00008000, p.y, 0x00000004) && Goes(w, 0x00004000, p.y, 0x00000400)
            && Goes(w, 0x00002000, p.y, 0x00040000) && Goes(w, 0x00001000, p.y, 0x04000000)
            && Goes(w, 0x00000800, p.x, 0x00000004) && Goes(w, 0x00000400, p.x, 0x00000400)
            && Goes(w, 0x00000200, p.x, 0x00040000) && Goes(w, 0x00000100, p.x, 0x04000000) {}

  lemma IpMasks3(p: Pair)
    ensures var w := Right1(Ip(p).x);
            && Goes(w, 0x00000080, p.y, 0x00000001) && Goes(w, 0x00000040, p.y, 0x00000100)
            && Goes(w, 0x00000020, p.y, 0x00010000) && Goes(w, 0x00000010, p.y, 0x01000000)
            && Goes(w, 0x00000008, p.x, 0x00000001) && Goes(w, 0x00000004, p.x, 0x00000100)
            && Goes(w, 0x00000002, p.x, 0x00010000) && Goes(w, 0x00000001, p.x, 0x01000000) {}

  lemma IpMasks4(p: Pair)
    ensures var w := Right1(Ip(p).y);
            && Goes(w, 0x80000000, p.y, 0x00000080) && Goes(w, 0x40000000, p.y, 0x00008000)
            && Goes(w, 0x20000000, p.y, 0x00800000) && Goes(w, 0x10000000, p.y, 0x80000000)
            && Goes(w, 0x08000000, p.x, 0x00000080) && Goes(w, 0x04000000, p.x, 0x00008000)
            && Goes(w, 0x02000000, p.x, 0x00800000) && Goes(w, 0x01000000, p.x, 0x80000000) {}

  lemma IpMasks5(p: Pair)
    ensures var w := Right1(Ip(p).y);
            && Goes(w, 0x00800000, p.y, 0x00000020) && Goes(w, 0x00400000, p.y, 0x00002000)
            && Goes(w, 0x00200000, p.y, 0x00200000) && Goes(w, 0x00100000, p.y, 0x20000000)
            && Goes(w, 0x00080000, p.x, 0x00000020) && Goes(w, 0x00040000, p.x, 0x00002000)
            && Goes(w, 0x00020000, p.x, 0x00200000) && Goes(w, 0x00010000, p.x, 0x20000000) {}

  lemma IpMasks6(p: Pair)
    ensures var w := Right1(Ip(p).y);
            && Goes(w, 0x00008000, p.y, 0x00000008) && Goes(w, 0x00004000, p.y, 0x00000800)
            && Goes(w, 0x00002000, p.y, 0x00080000) && Goes(w, 0x00001000, p.y, 0x08000000)
            && Goes(w, 0x00000800, p.x, 0x00000008) && Goes(w, 0x00000400, p.x, 0x00000800)
            && Goes(w, 0x00000200, p.x, 0x00080000) && Goes(w, 0x00000100, p.x, 0x08000000) {}

  lemma IpMasks7(p: Pair)
    ensures var w := Right1(Ip(p).y);
            && Goes(w, 0x00000080, p.y, 0x00000002) && Goes(w, 0x00000040, p.y, 0x00000200)
            && Goes(w, 0x00000020, p.y, 0x00020000) && Goes(w, 0x00000010, p.y, 0x02000000)
            && Goes(w, 0x00000008, p.x, 0x00000002) && Goes(w, 0x00000004, p.x, 0x00000200)
            && Goes(w, 0x00000002, p.x, 0x00020000) && Goes(w, 0x00000001, p.x, 0x02000000) {}

  function IpEntry(i: nat): nat { FIPS.EntryOf(FIPS.IP, 8, i) }

  lemma IpUpperEntries()
    ensures && IpEntry(0) == 58 && IpEntry(1) == 50 && IpEntry(2) == 42 && IpEntry(3) == 34
            && IpEntry(4) == 26 && IpEntry(5) == 18 && IpEntry(6) == 10 && IpEntry(7) == 2
            && IpEntry(8) == 60 && IpEntry(9) == 52 && IpEntry(10) == 44 && IpEntry(11) == 36
            && IpEntry(12) == 28 && IpEntry(13) == 20 && IpEntry(14) == 12 && IpEntry(15) == 4
            && IpEntry(16) == 62 && IpEntry(17) == 54 && IpEntry(18) == 46 && IpEntry(19) == 38
            && IpEntry(20) == 30 && IpEntry(21) == 22 && IpEntry(22) == 14 && IpEntry(23) == 6
            && IpEntry(24) == 64 && IpEntry(25) == 56 && IpEntry(26) == 48 && IpEntry(27) == 40
            && IpEntry(28) == 32 && IpEntry(29) == 24 && IpEntry(30) == 16 && IpEntry(31) == 8 {}

  lemma IpLowerEntries()
    ensures && IpEntry(32) == 57 && IpEntry(33) == 49 && IpEntry(34) == 41 && IpEntry(35) == 33
            && IpEntry(36) == 25 && IpEntry(37) == 17 && IpEntry(38) == 9 && IpEntry(39) == 1
            && IpEntry(40) == 59 && IpEntry(41) == 51 && IpEntry(42) == 43 && IpEntry(43) == 35
            && IpEntry(44) == 27 && IpEntry(45) == 19 && IpEntry(46) == 11 && IpEntry(47) == 3
            && IpEntry(48) == 61 && IpEntry(49) == 53 && IpEntry(50) == 45 && IpEntry(51) == 37
            && IpEntry(52) == 29 && IpEntry(53) == 21 && IpEntry(54) == 13 && IpEntry(55) == 5
            && IpEntry(56) == 63 && IpEntry(57) == 55 && IpEntry(58) == 47 && IpEntry(59) == 39
            && IpEntry(60) == 31 && IpEntry(61) == 23 && IpEntry(62) == 15 && IpEntry(63) == 7 {}

  lemma IpUpper(p: Pair, i: nat)
    requires i < 32
    ensures IpFits(p, i)
  {
    hide Ip, Right1, One, Goes, IpEntry;
    IpMasks0(p); IpMasks1(p); IpMasks2(p); IpMasks3(p);
    IpUpperEntries(); Ones();
    assert Eight(i / 8) && Eight(i % 8);
  }

  lemma IpLower(p: Pair, i: nat)
    requires 32 <= i < 64
    ensures IpFits(p, i)
  {
    hide Ip, Right1, One, Goes, IpEntry;
    IpMasks4(p); IpMasks5(p); IpMasks6(p); IpMasks7(p);
    IpLowerEntries(); Ones();
    assert Eight(i / 8) && Eight(i % 8);
  }

  lemma IpAt(p: Pair, i: nat)
    requires i < 64
    ensures IpFits(p, i)
  {
    hide IpFits;
    if i < 32 { IpUpper(p, i); } else { IpLower(p, i); }
  }

  // ------------------------------------------------------------------------------- the keys

  /** A nibble of four bits spread over the bytes of a word. */
  function SpreadLeft(v: bv32): bv32 { (v & 1) | ((v & 2) << 7) | ((v & 4) << 14) | ((v & 8) << 21) }
  function SpreadRight(v: bv32): bv32 { ((v & 1) << 24) | ((v & 2) << 15) | ((v & 4) << 6) | ((v & 8) >> 3) }

  lemma LhsSpread(v: bv32) ensures Lhs(v) == SpreadLeft(v) { assert Eight(Nibble(v)) || Eight(Nibble(v) - 8); }
  lemma RhsSpread(v: bv32) ensures Rhs(v) == SpreadRight(v) { assert Eight(Nibble(v)) || Eight(Nibble(v) - 8); }

  /** The two halves with the spread nibbles in place of the table words. */
  function LeftGather(x: bv32): bv32 {
    Gather(SpreadLeft(x), SpreadLeft(x >> 8), SpreadLeft(x >> 16), SpreadLeft(x >> 24),
           SpreadLeft(x >> 5), SpreadLeft(x >> 13), SpreadLeft(x >> 21), SpreadLeft(x >> 29))
  }

  function RightGather(y: bv32): bv32 {
    Gather(SpreadRight(y >> 1), SpreadRight(y >> 9), SpreadRight(y >> 17), SpreadRight(y >> 25),
           SpreadRight(y >> 4), SpreadRight(y >> 12), SpreadRight(y >> 20), SpreadRight(y >> 28))
  }

  lemma LeftGathers(x: bv32)
    ensures LeftHalf(x) == LeftGather(x)
  {
    hide Gather, Lhs, SpreadLeft;
    LhsSpread(x); LhsSpread(x >> 8); LhsSpread(x >> 16); LhsSpread(x >> 24);
    LhsSpread(x >> 5); LhsSpread(x >> 13); LhsSpread(x >> 21); LhsSpread(x >> 29);
  }

  lemma RightGathers(y: bv32)
    ensures RightHalf(y) == RightGather(y)
  {
    hide Gather, Rhs, SpreadRight;
    RhsSpread(y >> 1); RhsSpread(y >> 9); RhsSpread(y >> 17); RhsSpread(y >> 25);
    RhsSpread(y >> 4); RhsSpread(y >> 12); RhsSpread(y >> 20); RhsSpread(y >> 28);
  }

  /** Bit i of C and D, which the code keeps in the low 28 bits of two words, is the key bit that PC-1 names. */
  predicate Pc1Fits(k: Pair, i: nat)
    requires i < 56
  {
    var e := Pc1Entry(i);
    1 <= e <= 64
    && Goes(if i < 28 then Pc1(k).x else Pc1(k).y, One(4 + i % 28),
            if e <= 32 then k.x else k.y, One((e - 1) % 32))
  }

  lemma Pc1Masks0(k: Pair)
    ensures var w := LeftGather(Exchanged(k).x);
            && Goes(w, 0x08000000, k.y, 0x00000080) && Goes(w, 0x04000000, k.y, 0x00008000)
            && Goes(w, 0x02000000, k.y, 0x00800000) && Goes(w, 0x01000000, k.y, 0x80000000)
            && Goes(w, 0x00800000, k.x, 0x00000080) && Goes(w, 0x00400000, k.x, 0x00008000)
            && Goes(w, 0x00200000, k.x, 0x00800000) {}

  lemma Pc1Masks1(k: Pair)
    ensures var w := LeftGather(Exchanged(k).x);
            && Goes(w, 0x00100000, k.x, 0x80000000) && Goes(w, 0x00080000, k.y, 0x00000040)
            && Goes(w, 0x00040000, k.y, 0x00004000) && Goes(w, 0x00020000, k.y, 0x00400000)
            && Goes(w, 0x00010000, k.y, 0x40000000) && Goes(w, 0x00008000, k.x, 0x00000040)
            && Goes(w, 0x00004000, k.x, 0x00004000) {}

  lemma Pc1Masks2(k: Pair)
    ensures var w := LeftGather(Exchanged(k).x);
            && Goes(w, 0x00002000, k.x, 0x00400000) && Goes(w, 0x00001000, k.x, 0x40000000)
            && Goes(w, 0x00000800, k.y, 0x00000020) && Goes(w, 0x00000400, k.y, 0x00002000)
            && Goes(w, 0x00000200, k.y, 0x00200000) && Goes(w, 0x00000100, k.y, 0x20000000)
            && Goes(w, 0x00000080, k.x, 0x00000020) {}

  lemma Pc1Masks3(k: Pair)
    ensures var w := LeftGather(Exchanged(k).x);
            && Goes(w, 0x00000040, k.x, 0x00002000) && Goes(w, 0x00000020, k.x, 0x00200000)
            && Goes(w, 0x00000010, k.x, 0x20000000) && Goes(w, 0x00000008, k.y, 0x00000010)
            && Goes(w, 0x00000004, k.y, 0x00001000) && Goes(w, 0x00000002, k.y, 0x00100000)
            && Goes(w, 0x00000001, k.y, 0x10000000) {}

  lemma Pc1Masks4(k: Pair)
    ensures var w := RightGather(Exchanged(k).y);
            && Goes(w, 0x08000000, k.y, 0x00000002) && Goes(w, 0x04000000, k.y, 0x00000200)
            && Goes(w, 0x02000000, k.y, 0x00020000) && Goes(w, 0x01000000, k.y, 0x02000000)
            && Goes(w, 0x00800000, k.x, 0x00000002) && Goes(w, 0x00400000, k.x, 0x00000200)
            && Goes(w, 0x00200000, k.x, 0x00020000) {}

  lemma Pc1Masks5(k: Pair)
    ensures var w := RightGather(Exchanged(k).y);
            && Goes(w, 0x00100000, k.x, 0x02000000) && Goes(w, 0x00080000, k.y, 0x00000004)
            && Goes(w, 0x00040000, k.y, 0x00000400) && Goes(w, 0x00020000, k.y, 0x00040000)
            && Goes(w, 0x00010000, k.y, 0x04000000) && Goes(w, 0x00008000, k.x, 0x00000004)
            && Goes(w, 0x00004000, k.x, 0x00000400) {}

  lemma Pc1Masks6(k: Pair)
    ensures var w := RightGather(Exchanged(k).y);
            && Goes(w, 0x00002000, k.x, 0x00040000) && Goes(w, 0x00001000, k.x, 0x04000000)
            && Goes(w, 0x00000800, k.y, 0x00000008) && Goes(w, 0x00000400, k.y, 0x00000800)
            && Goes(w, 0x00000200, k.y, 0x00080000) && Goes(w, 0x00000100, k.y, 0x08000000)
            && Goes(w, 0x00000080, k.x, 0x00000008) {}

  lemma Pc1Masks7(k: Pair)
    ensures var w := RightGather(Exchanged(k).y);
            && Goes(w, 0x00000040, k.x, 0x00000800) && Goes(w, 0x00000020, k.x, 0x00080000)
            && Goes(w, 0x00000010, k.x, 0x08000000) && Goes(w, 0x00000008, k.x, 0x00000010)
            && Goes(w, 0x00000004, k.x, 0x00001000) && Goes(w, 0x00000002, k.x, 0x00100000)
            && Goes(w, 0x00000001, k.x, 0x10000000) {}

  function Pc1Entry(i: nat): nat { FIPS.EntryOf(FIPS.PC1, 7, i) }

  lemma Pc1UpperEntries()
    ensures && Pc1Entry(0) == 57 && Pc1Entry(1) == 49 && Pc1Entry(2) == 41 && Pc1Entry(3) == 33
            && Pc1Entry(4) == 25 && Pc1Entry(5) == 17 && Pc1Entry(6) == 9 && Pc1Entry(7) == 1
            && Pc1Entry(8) == 58 && Pc1Entry(9) == 50 && Pc1Entry(10) == 42 && Pc1Entry(11) == 34
            && Pc1Entry(12) == 26 && Pc1Entry(13) == 18 && Pc1Entry(14) == 10 && Pc1Entry(15) == 2
            && Pc1Entry(16) == 59 && Pc1Entry(17) == 51 && Pc1Entry(18) == 43 && Pc1Entry(19) == 35
            && Pc1Entry(20) == 27 && Pc1Entry(21) == 19 && Pc1Entry(22) == 11 && Pc1Entry(23) == 3
            && Pc1Entry(24) == 60 && Pc1Entry(25) == 52 && Pc1Entry(26) == 44 && Pc1Entry(27) == 36 {}

  lemma Pc1LowerEntries()
    ensures && Pc1Entry(28) == 63 && Pc1Entry(29) == 55 && Pc1Entry(30) == 47 && Pc1Entry(31) == 39
            && Pc1Entry(32) == 31 && Pc1Entry(33) == 23 && Pc1Entry(34) == 15 && Pc1Entry(35) == 7
            && Pc1Entry(36) == 62 && Pc1Entry(37) == 54 && Pc1Entry(38) == 46 && Pc1Entry(39) == 38
            && Pc1Entry(40) == 30 && Pc1Entry(41) == 22 && Pc1Entry(42) == 14 && Pc1Entry(43) == 6
            && Pc1Entry(44) == 61 && Pc1Entry(45) == 53 && Pc1Entry(46) == 45 && Pc1Entry(47) == 37
            && Pc1Entry(48) == 29 && Pc1Entry(49) == 21 && Pc1Entry(50) == 13 && Pc1Entry(51) == 5
            && Pc1Entry(52) == 28 && Pc1Entry(53) == 20 && Pc1Entry(54) == 12 && Pc1Entry(55) == 4 {}

  lemma Pc1Upper(k: Pair, i: nat)
    requires i < 28
    ensures Pc1Fits(k, i)
  {
    hide LeftGather, RightGather, Exchanged, LeftHalf, RightHalf, One, Goes, Pc1Entry;
    LeftGathers(Exchanged(k).x);
    Pc1Masks0(k); Pc1Masks1(k); Pc1Masks2(k); Pc1Masks3(k);
    Pc1UpperEntries(); Ones();
    assert Eight(i / 7) && Eight(i % 7);
  }

  lemma Pc1Lower(k: Pair, i: nat)
    requires 28 <= i < 56
    ensures Pc1Fits(k, i)
  {
    hide LeftGather, RightGather, Exchanged, LeftHalf, RightHalf, One, Goes, Pc1Entry;
    RightGathers(Exchanged(k).y);
    Pc1Masks4(k); Pc1Masks5(k); Pc1Masks6(k); Pc1Masks7(k);
    Pc1LowerEntries(); Ones();
    assert Eight(i / 7) && Eight(i % 7);
  }

  lemma Pc1At(k: Pair, i: nat)
    requires i < 56
    ensures Pc1Fits(k, i)
  {
    hide Pc1Fits;
    if i < 28 { Pc1Upper(k, i); } else { Pc1Lower(k, i); }
  }

  /** Bit i of the subkey, six bits for each S-box, is the bit of C and D that PC-2 names. */
  predicate Pc2Fits(h: Pair, i: nat)
    requires i < 48
  {
    var e := Pc2Entry(i);
    1 <= e <= 56
    && Goes(if i / 6 % 2 == 0 then Subkey1(h) else Subkey0(h), One(8 * (i / 12) + 2 + i % 6),
            if e <= 28 then h.x else h.y, One(if e <= 28 then e + 3 else e - 25))
  }

  lemma Pc2Masks0(h: Pair)
    ensures var w := Subkey1(h);
            && Goes(w, 0x20000000, h.x, 0x00004000) && Goes(w, 0x10000000, h.x, 0x00000800)
            && Goes(w, 0x08000000, h.x, 0x00020000) && Goes(w, 0x04000000, h.x, 0x00000010)
            && Goes(w, 0x02000000, h.x, 0x08000000) && Goes(w, 0x01000000, h.x, 0x00800000) {}

  lemma Pc2Masks1(h: Pair)
    ensures var w := Subkey0(h);
            && Goes(w, 0x20000000, h.x, 0x02000000) && Goes(w, 0x10000000, h.x, 0x00000001)
            && Goes(w, 0x08000000, h.x, 0x00002000) && Goes(w, 0x04000000, h.x, 0x00400000)
            && Goes(w, 0x02000000, h.x, 0x00000080) && Goes(w, 0x01000000, h.x, 0x00040000) {}

  lemma Pc2Masks2(h: Pair)
    ensures var w := Subkey1(h);
            && Goes(w, 0x00200000, h.x, 0x00000020) && Goes(w, 0x00100000, h.x, 0x00000200)
            && Goes(w, 0x00080000, h.x, 0x00010000) && Goes(w, 0x00040000, h.x, 0x01000000)
            && Goes(w, 0x00020000, h.x, 0x00000004) && Goes(w, 0x00010000, h.x, 0x00100000) {}

  lemma Pc2Masks3(h: Pair)
    ensures var w := Subkey0(h);
            && Goes(w, 0x00200000, h.x, 0x00001000) && Goes(w, 0x00100000, h.x, 0x00200000)
            && Goes(w, 0x00080000, h.x, 0x00000002) && Goes(w, 0x00040000, h.x, 0x00000100)
            && Goes(w, 0x00020000, h.x, 0x00008000) && Goes(w, 0x00010000, h.x, 0x04000000) {}

  lemma Pc2Masks4(h: Pair)
    ensures var w := Subkey1(h);
            && Goes(w, 0x00002000, h.y, 0x00008000) && Goes(w, 0x00001000, h.y, 0x00000010)
            && Goes(w, 0x00000800, h.y, 0x02000000) && Goes(w, 0x00000400, h.y, 0x00080000)
            && Goes(w, 0x00000200, h.y, 0x00000200) && Goes(w, 0x00000100, h.y, 0x00000002) {}

  lemma Pc2Masks5(h: Pair)
    ensures var w := Subkey0(h);
            && Goes(w, 0x00002000, h.y, 0x04000000) && Goes(w, 0x00001000, h.y, 0x00010000)
            && Goes(w, 0x00000800, h.y, 0x00000020) && Goes(w, 0x00000400, h.y, 0x00000800)
            && Goes(w, 0x00000200, h.y, 0x00800000) && Goes(w, 0x00000100, h.y, 0x00000100) {}

  lemma Pc2Masks6(h: Pair)
    ensures var w := Subkey1(h);
            && Goes(w, 0x00000020, h.y, 0x00001000) && Goes(w, 0x00000010, h.y, 0x00000080)
            && Goes(w, 0x00000008, h.y, 0x00020000) && Goes(w, 0x00000004, h.y, 0x00000001)
            && Goes(w, 0x00000002, h.y, 0x00400000) && Goes(w, 0x00000001, h.y, 0x00000008) {}

  lemma Pc2Masks7(h: Pair)
    ensures var w := Subkey0(h);
            && Goes(w, 0x00000020, h.y, 0x00000400) && Goes(w, 0x00000010, h.y, 0x00004000)
            && Goes(w, 0x00000008, h.y, 0x00000040) && Goes(w, 0x00000004, h.y, 0x00100000)
            && Goes(w, 0x00000002, h.y, 0x08000000) && Goes(w, 0x00000001, h.y, 0x01000000) {}

  function Pc2Entry(i: nat): nat { FIPS.EntryOf(FIPS.PC2, 6, i) }

  lemma Pc2UpperEntries()
    ensures && Pc2Entry(0) == 14 && Pc2Entry(1) == 17 && Pc2Entry(2) == 11 && Pc2Entry(3) == 24
            && Pc2Entry(4) == 1 && Pc2Entry(5) == 5 && Pc2Entry(6) == 3 && Pc2Entry(7) == 28
            && Pc2Entry(8) == 15 && Pc2Entry(9) == 6 && Pc2Entry(10) == 21 && Pc2Entry(11) == 10
            && Pc2Entry(12) == 23 && Pc2Entry(13) == 19 && Pc2Entry(14) == 12 && Pc2Entry(15) == 4
            && Pc2Entry(16) == 26 && Pc2Entry(17) == 8 && Pc2Entry(18) == 16 && Pc2Entry(19) == 7
            && Pc2Entry(20) == 27 && Pc2Entry(21) == 20 && Pc2Entry(22) == 13 && Pc2Entry(23) == 2 {}

  lemma Pc2LowerEntries()
    ensures && Pc2Entry(24) == 41 && Pc2Entry(25) == 52 && Pc2Entry(26) == 31 && Pc2Entry(27) == 37
            && Pc2Entry(28) == 47 && Pc2Entry(29) == 55 && Pc2Entry(30) == 30 && Pc2Entry(31) == 40
            && Pc2Entry(32) == 51 && Pc2Entry(33) == 45 && Pc2Entry(34) == 33 && Pc2Entry(35) == 48
            && Pc2Entry(36) == 44 && Pc2Entry(37) == 49 && Pc2Entry(38) == 39 && Pc2Entry(39) == 56
            && Pc2Entry(40) == 34 && Pc2Entry(41) == 53 && Pc2Entry(42) == 46 && Pc2Entry(43) == 42
            && Pc2Entry(44) == 50 && Pc2Entry(45) == 36 && Pc2Entry(46) == 29 && Pc2Entry(47) == 32 {}

  lemma Pc2Upper(h: Pair, i: nat)
    requires i < 24
    ensures Pc2Fits(h, i)
  {
    hide Subkey0, Subkey1, One, Goes, Pc2Entry;
    Pc2Masks0(h); Pc2Masks1(h); Pc2Masks2(h); Pc2Masks3(h);
    Pc2UpperEntries(); Ones();
    assert Eight(i / 6) && Eight(i % 6);
  }

  lemma Pc2Lower(h: Pair, i: nat)
    requires 24 <= i < 48
    ensures Pc2Fits(h, i)
  {
    hide Subkey0, Subkey1, One, Goes, Pc2Entry;
    Pc2Masks4(h); Pc2Masks5(h); Pc2Masks6(h); Pc2Masks7(h);
    Pc2LowerEntries(); Ones();
    assert Eight(i / 6) && Eight(i % 6);
  }

  lemma Pc2At(h: Pair, i: nat)
    requires i < 48
    ensures Pc2Fits(h, i)
  {
    hide Pc2Fits;
    if i < 24 { Pc2Upper(h, i); } else { Pc2Lower(h, i); }
  }

  // ------------------------------------------------------------------ S-boxes and permutation P

  function If(b: bool, w: bv32): bv32 { if b then w else 0 }

  /** A number of four bits, each put at a place of its own. */
  function Put(a: bv32, b: bv32, c: bv32, d: bv32, s: nat): bv32 {
    If(s / 8 % 2 == 1, a) | If(s / 4 % 2 == 1, b) | If(s / 2 % 2 == 1, c) | If(s % 2 == 1, d)
  }

  /** The four bits of S-box j where P puts them. */
  function Placed(j: nat, s: nat): bv32
    requires j < 8
  {
    if j == 0 then Put(0x00800000, 0x00008000, 0x00000200, 0x00000002, s)
    else if j == 1 then Put(0x00080000, 0x00000010, 0x40000000, 0x00004000, s)
    else if j == 2 then Put(0x00000100, 0x00010000, 0x00000004, 0x04000000, s)
    else if j == 3 then Put(0x00000040, 0x00001000, 0x00400000, 0x80000000, s)
    else if j == 4 then Put(0x01000000, 0x00040000, 0x00000080, 0x20000000, s)
    else if j == 5 then Put(0x10000000, 0x00000008, 0x00200000, 0x00002000, s)
    else if j == 6 then Put(0x00000001, 0x00100000, 0x00000400, 0x02000000, s)
    else Put(0x08000000, 0x00000020, 0x00020000, 0x00000800, s)
  }

  predicate Sixteen(c: nat) {
    c == 0 || c == 1 || c == 2 || c == 3 || c == 4 || c == 5 || c == 6 || c == 7
    || c == 8 || c == 9 || c == 10 || c == 11 || c == 12 || c == 13 || c == 14 || c == 15
  }

  // The rows of the code's S-boxes: each is taken in turn from two rows of the standard's.

  lemma Box1Row0(c: nat)
    requires c < 16
    ensures Right1(SB1[0][c]) == Put(0x00800000, 0x00008000, 0x00000200, 0x00000002, FIPS.S1[c % 2][c / 2])
  {
    assert Sixteen(c);
  }

  lemma Box1Row1(c: nat)
    requires c < 16
    ensures Right1(SB1[1][c]) == Put(0x00800000, 0x00008000, 0x00000200, 0x00000002, FIPS.S1[c % 2][8 + c / 2])
  {
    assert Sixteen(c);
  }

  lemma Box1Row2(c: nat)
    requires c < 16
    ensures Right1(SB1[2][c]) == Put(0x00800000, 0x00008000, 0x00000200, 0x00000002, FIPS.S1[2 + c % 2][c / 2])
  {
    assert Sixteen(c);
  }

  lemma Box1Row3(c: nat)
    requires c < 16
    ensures Right1(SB1[3][c]) == Put(0x00800000, 0x00008000, 0x00000200, 0x00000002, FIPS.S1[2 + c % 2][8 + c / 2])
  {
    assert Sixteen(c);
  }

  lemma Box2Row0(c: nat)
    requires c < 16
    ensures Right1(SB2[0][c]) == Put(0x00080000, 0x00000010, 0x40000000, 0x00004000, FIPS.S2[c % 2][c / 2])
  {
    assert Sixteen(c);
  }

  lemma Box2Row1(c: nat)
    requires c < 16
    ensures Right1(SB2[1][c]) == Put(0x00080000, 0x00000010, 0x40000000, 0x00004000, FIPS.S2[c % 2][8 + c / 2])
  {
    assert Sixteen(c);
  }

  lemma Box2Row2(c: nat)
    requires c < 16
    ensures Right1(SB2[2][c]) == Put(0x00080000, 0x00000010, 0x40000000, 0x00004000, FIPS.S2[2 + c % 2][c / 2])
  {
    assert Sixteen(c);
  }

  lemma Box2Row3(c: nat)
    requires c < 16
    ensures Right1(SB2[3][c]) == Put(0x00080000, 0x00000010, 0x40000000, 0x00004000, FIPS.S2[2 + c % 2][8 + c / 2])
  {
    assert Sixteen(c);
  }

  lemma Box3Row0(c: nat)
    requires c < 16
    ensures Right1(SB3[0][c]) == Put(0x00000100, 0x00010000, 0x00000004, 0x04000000, FIPS.S3[c % 2][c / 2])
  {
    assert Sixteen(c);
  }

  lemma Box3Row1(c: nat)
    requires c < 16
    ensures Right1(SB3[1][c]) == Put(0x00000100, 0x00010000, 0x00000004, 0x04000000, FIPS.S3[c % 2][8 + c / 2])
  {
    assert Sixteen(c);
  }

  lemma Box3Row2(c: nat)
    requires c < 16
    ensures Right1(SB3[2][c]) == Put(0x00000100, 0x00010000, 0x00000004, 0x04000000, FIPS.S3[2 + c % 2][c / 2])
  {
    assert Sixteen(c);
  }

  lemma Box3Row3(c: nat)
    requires c < 16
    ensures Right1(SB3[3][c]) == Put(0x00000100, 0x00010000, 0x00000004, 0x04000000, FIPS.S3[2 + c % 2][8 + c / 2])
  {
    assert Sixteen(c);
  }

  lemma Box4Row0(c: nat)
    requires c < 16
    ensures Right1(SB4[0][c]) == Put(0x00000040, 0x00001000, 0x00400000, 0x80000000, FIPS.S4[c % 2][c / 2])
  {
    assert Sixteen(c);
  }

  lemma Box4Row1(c: nat)
    requires c < 16
    ensures Right1(SB4[1][c]) == Put(0x00000040, 0x00001000, 0x00400000, 0x80000000, FIPS.S4[c % 2][8 + c / 2])
  {
    assert Sixteen(c);
  }

  lemma Box4Row2(c: nat)
    requires c < 16
    ensures Right1(SB4[2][c]) == Put(0x00000040, 0x00001000, 0x00400000, 0x80000000, FIPS.S4[2 + c % 2][c / 2])
  {
    assert Sixteen(c);
  }

  lemma Box4Row3(c: nat)
    requires c < 16
    ensures Right1(SB4[3][c]) == Put(0x00000040, 0x00001000, 0x00400000, 0x80000000, FIPS.S4[2 + c % 2][8 + c / 2])
  {
    assert Sixteen(c);
  }

  lemma Box5Row0(c: nat)
    requires c < 16
    ensures Right1(SB5[0][c]) == Put(0x01000000, 0x00040000, 0x00000080, 0x20000000, FIPS.S5[c % 2][c / 2])
  {
    assert Sixteen(c);
  }

  lemma Box5Row1(c: nat)
    requires c < 16
    ensures Right1(SB5[1][c]) == Put(0x01000000, 0x00040000, 0x00000080, 0x20000000, FIPS.S5[c % 2][8 + c / 2])
  {
    assert Sixteen(c);
  }

  lemma Box5Row2(c: nat)
    requires c < 16
    ensures Right1(SB5[2][c]) == Put(0x01000000, 0x00040000, 0x00000080, 0x20000000, FIPS.S5[2 + c % 2][c / 2])
  {
    assert Sixteen(c);
  }

  lemma Box5Row3(c: nat)
    requires c < 16
    ensures Right1(SB5[3][c]) == Put(0x01000000, 0x00040000, 0x00000080, 0x20000000, FIPS.S5[2 + c % 2][8 + c / 2])
  {
    assert Sixteen(c);
  }

  lemma Box6Row0(c: nat)
    requires c < 16
    ensures Right1(SB6[0][c]) == Put(0x10000000, 0x00000008, 0x00200000, 0x00002000, FIPS.S6[c % 2][c / 2])
  {
    assert Sixteen(c);
  }

  lemma Box6Row1(c: nat)
    requires c < 16
    ensures Right1(SB6[1][c]) == Put(0x10000000, 0x00000008, 0x00200000, 0x00002000, FIPS.S6[c % 2][8 + c / 2])
  {
    assert Sixteen(c);
  }

  lemma Box6Row2(c: nat)
    requires c < 16
    ensures Right1(SB6[2][c]) == Put(0x10000000, 0x00000008, 0x00200000, 0x00002000, FIPS.S6[2 + c % 2][c / 2])
  {
    assert Sixteen(c);
  }

  lemma Box6Row3(c: nat)
    requires c < 16
    ensures Right1(SB6[3][c]) == Put(0x10000000, 0x00000008, 0x00200000, 0x00002000, FIPS.S6[2 + c % 2][8 + c / 2])
  {
    assert Sixteen(c);
  }

  lemma Box7Row0(c: nat)
    requires c < 16
    ensures Right1(SB7[0][c]) == Put(0x00000001, 0x00100000, 0x00000400, 0x02000000, FIPS.S7[c % 2][c / 2])
  {
    assert Sixteen(c);
  }

  lemma Box7Row1(c: nat)
    requires c < 16
    ensures Right1(SB7[1][c]) == Put(0x00000001, 0x00100000, 0x00000400, 0x02000000, FIPS.S7[c % 2][8 + c / 2])
  {
    assert Sixteen(c);
  }

  lemma Box7Row2(c: nat)
    requires c < 16
    ensures Right1(SB7[2][c]) == Put(0x00000001, 0x00100000, 0x00000400, 0x02000000, FIPS.S7[2 + c % 2][c / 2])
  {
    assert Sixteen(c);
  }

  lemma Box7Row3(c: nat)
    requires c < 16
    ensures Right1(SB7[3][c]) == Put(0x00000001, 0x00100000, 0x00000400, 0x02000000, FIPS.S7[2 + c % 2][8 + c / 2])
  {
    assert Sixteen(c);
  }

  lemma Box8Row0(c: nat)
    requires c < 16
    ensures Right1(SB8[0][c]) == Put(0x08000000, 0x00000020, 0x00020000, 0x00000800, FIPS.S8[c % 2][c / 2])
  {
    assert Sixteen(c);
  }

  lemma Box8Row1(c: nat)
    requires c < 16
    ensures Right1(SB8[1][c]) == Put(0x08000000, 0x00000020, 0x00020000, 0x00000800, FIPS.S8[c % 2][8 + c / 2])
  {
    assert Sixteen(c);
  }

  lemma Box8Row2(c: nat)
    requires c < 16
    ensures Right1(SB8[2][c]) == Put(0x08000000, 0x00000020, 0x00020000, 0x00000800, FIPS.S8[2 + c % 2][c / 2])
  {
    assert Sixteen(c);
  }

  lemma Box8Row3(c: nat)
    requires c < 16
    ensures Right1(SB8[3][c]) == Put(0x08000000, 0x00000020, 0x00020000, 0x00000800, FIPS.S8[2 + c % 2][8 + c / 2])
  {
    assert Sixteen(c);
  }
}
