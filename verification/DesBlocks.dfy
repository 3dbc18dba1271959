/** Blocks and keys as strings of bits: the initial permutation and the key schedule of FIPS 46-3. */
module DesBlocks {
  import opened DesBits
  import opened DesCipher
  import opened DesKeys
  import opened DesModes
  import FIPS = DesStandard

  // ------------------------------------------------------------------- blocks as strings of bits

  /** The bytes with one bit, the leftmost bit first. */
  function OneByte(c: nat): bv8
    requires c < 8
  {
    [0x80, 0x40, 0x20, 0x10, 0x08, 0x04, 0x02, 0x01][c]
  }

  predicate ByteBit(a: bv8, c: nat)
    requires c < 8
  {
    a & OneByte(c) != 0
  }

  /** The 64 bits of eight bytes. */
  function BlockBits(b: Block): (r: FIPS.Bits)
    ensures |r| == 64
  {
    seq(64, i requires 0 <= i < 64 => ByteBit(b[i / 8], i % 8))
  }

  function BitsOf(w: bv32): (r: FIPS.Bits)
    ensures |r| == 32
  {
    seq(32, i requires 0 <= i < 32 => BitAt(w, i))
  }

  function PairBits(p: Pair): (r: FIPS.Bits)
    ensures |r| == 64
  {
    BitsOf(p.x) + BitsOf(p.y)
  }

  lemma GoesBit(w: bv32, i: nat, v: bv32, k: nat)
    requires i < 32 && k < 32 && Goes(w, One(i), v, One(k))
    ensures BitAt(w, i) == BitAt(v, k)
  {
    hide One;
  }

  /** A byte as the q-th of a word. */
  function InWord(m: bv8, q: nat): bv32 {
    if q == 0 then (m as bv32) << 24 else if q == 1 then (m as bv32) << 16
    else if q == 2 then (m as bv32) << 8 else m as bv32
  }

  predicate GoesByte(w: bv32, m: bv32, a: bv8, n: bv8) { w & m != 0 <==> a & n != 0 }

  lemma OneOfByte(c: nat)
    requires c < 8
    ensures One(c) == InWord(OneByte(c), 0) && One(8 + c) == InWord(OneByte(c), 1)
            && One(16 + c) == InWord(OneByte(c), 2) && One(24 + c) == InWord(OneByte(c), 3)
  {
    hide One;
    Ones();
    assert Eight(c);
  }

  lemma Get32Bits(a: bv8, b: bv8, c: bv8, d: bv8, m: bv8)
    ensures var w := Get32(a, b, c, d);
            && GoesByte(w, InWord(m, 0), a, m) && GoesByte(w, InWord(m, 1), b, m)
            && GoesByte(w, InWord(m, 2), c, m) && GoesByte(w, InWord(m, 3), d, m) {}

  lemma GoesByteBit(w: bv32, i: nat, a: bv8, c: nat)
    requires i < 32 && c < 8 && GoesByte(w, One(i), a, OneByte(c))
    ensures BitAt(w, i) == ByteBit(a, c)
  {
    hide One, OneByte;
  }

  lemma Get32At(a: bv8, b: bv8, c: bv8, d: bv8, i: nat)
    requires i < 8
    ensures var w := Get32(a, b, c, d);
            && BitAt(w, i) == ByteBit(a, i) && BitAt(w, 8 + i) == ByteBit(b, i)
            && BitAt(w, 16 + i) == ByteBit(c, i) && BitAt(w, 24 + i) == ByteBit(d, i)
  {
    hide *;
    OneOfByte(i);
    Get32Bits(a, b, c, d, OneByte(i));
    var w := Get32(a, b, c, d);
    GoesByteBit(w, i, a, i); GoesByteBit(w, 8 + i, b, i); GoesByteBit(w, 16 + i, c, i); GoesByteBit(w, 24 + i, d, i);
  }

  lemma WordOfBit(a: bv8, b: bv8, c: bv8, d: bv8, i: nat)
    requires i < 32
    ensures BitsOf(Get32(a, b, c, d))[i]
            == ByteBit(if i < 8 then a else if i < 16 then b else if i < 24 then c else d, i % 8)
  {
    hide Get32, ByteBit, BitAt;
    Get32At(a, b, c, d, i % 8);
  }

  lemma PairOfBit(b: Block, i: nat)
    requires i < 64
    ensures PairBits(PairOf(b))[i] == ByteBit(b[i / 8], i % 8)
  {
    hide Get32, ByteBit, BitAt, BitsOf;
    if i < 32 {
      WordOfBit(b[0], b[1], b[2], b[3], i);
    } else {
      WordOfBit(b[4], b[5], b[6], b[7], i - 32);
    }
    assert Eight(i / 8);
  }

  lemma PairOfBits(b: Block)
    ensures PairBits(PairOf(b)) == BlockBits(b)
  {
    hide PairBits, PairOf, ByteBit;
    forall i | 0 <= i < 64 ensures PairBits(PairOf(b))[i] == BlockBits(b)[i] { PairOfBit(b, i); }
  }

  // -------------------------------------------------------------------------- the permutation IP

  /** The two halves with bits in the standard's places: the code keeps them turned left by one. */
  function Unturned(p: Pair): Pair { Pair(Right1(p.x), Right1(p.y)) }

  lemma IpSelectsAt(p: Pair, i: nat)
    requires i < 64
    ensures PairBits(Unturned(Ip(p)))[i] == FIPS.Bit(PairBits(p), IpEntry(i))
  {
    hide Ip, Right1, One, BitAt, Goes, IpEntry;
    IpAt(p, i);
    var k := IpEntry(i);
    GoesBit(Right1(if i < 32 then Ip(p).x else Ip(p).y), i % 32, if k <= 32 then p.x else p.y, (k - 1) % 32);
  }

  lemma IpSelects(p: Pair)
    ensures PairBits(Unturned(Ip(p))) == FIPS.Select(PairBits(p), FIPS.IP, 8, 64)
  {
    hide Ip, PairBits, Unturned, FIPS.IP, FIPS.Bit, FIPS.EntryOf;
    forall i | 0 <= i < 64
      ensures PairBits(Unturned(Ip(p)))[i] == FIPS.Select(PairBits(p), FIPS.IP, 8, 64)[i]
    {
      IpSelectsAt(p, i);
    }
  }

  // ----------------------------------------------------------------------------- the key schedule

  /** The blocks C and D, which the code keeps in the low 28 bits of two words. */
  function CDBits(h: Pair): (r: FIPS.Bits)
    ensures |r| == 56
  {
    seq(56, i requires 0 <= i < 56 => if i < 28 then BitAt(h.x, i + 4) else BitAt(h.y, i - 24))
  }

  lemma Pc1SelectsAt(k: Pair, i: nat)
    requires i < 56
    ensures CDBits(Pc1(k))[i] == FIPS.Bit(PairBits(k), Pc1Entry(i))
  {
    hide Pc1, One, BitAt, Goes, Pc1Entry;
    Pc1At(k, i);
    var e := Pc1Entry(i);
    GoesBit(if i < 28 then Pc1(k).x else Pc1(k).y, 4 + i % 28, if e <= 32 then k.x else k.y, (e - 1) % 32);
  }

  lemma Pc1Selects(k: Pair)
    ensures CDBits(Pc1(k)) == FIPS.Select(PairBits(k), FIPS.PC1, 7, 56)
  {
    hide Pc1, PairBits, CDBits, FIPS.PC1, FIPS.Bit, FIPS.EntryOf;
    forall i | 0 <= i < 56 ensures CDBits(Pc1(k))[i] == FIPS.Select(PairBits(k), FIPS.PC1, 7, 56)[i] {
      Pc1SelectsAt(k, i);
    }
  }

  // Turning 28 bits moves every bit one place to the left.
  lemma TurnGoes(w: bv32, m: bv32)
    requires Half(w) && Half(m)
    ensures Half(Turn1(w)) && Goes(Turn1(w), Turn1(m), w, m) {}

  lemma TurnTwice(w: bv32)
    requires Half(w)
    ensures Turn2(w) == Turn1(Turn1(w)) {}

  lemma TurnOne(i: nat)
    requires i < 28
    ensures Half(One(4 + (i + 1) % 28)) && Turn1(One(4 + (i + 1) % 28)) == One(4 + i)
  {
    hide One;
    Ones();
    assert Eight(i) || Eight(i - 8) || Eight(i - 16) || Eight(i - 24);
  }

  function HalfBits(w: bv32): (r: FIPS.Bits)
    ensures |r| == 28
  {
    seq(28, i requires 0 <= i < 28 => BitAt(w, i + 4))
  }

  lemma TurnBits(w: bv32)
    requires Half(w)
    ensures Half(Turn1(w)) && HalfBits(Turn1(w)) == FIPS.Rotated(HalfBits(w), 1)
  {
    hide Turn1, Half, One, BitAt, Goes;
    forall i | 0 <= i < 28 ensures HalfBits(Turn1(w))[i] == FIPS.Rotated(HalfBits(w), 1)[i] {
      TurnOne(i);
      TurnGoes(w, One(4 + (i + 1) % 28));
      GoesBit(Turn1(w), 4 + i, w, 4 + (i + 1) % 28);
    }
    TurnGoes(w, w);
  }

  lemma TurnTwoBits(w: bv32)
    requires Half(w)
    ensures Half(Turn2(w)) && HalfBits(Turn2(w)) == FIPS.Rotated(HalfBits(w), 2)
  {
    hide Turn1, Turn2, Half, HalfBits;
    TurnBits(w);
    TurnBits(Turn1(w));
    TurnTwice(w);
  }

  /** The table of shifts gives one place in the iterations 1, 2, 9 and 16, and two in the others. */
  lemma ShiftEntries(i: nat)
    requires i < 16
    ensures FIPS.Shift(i) == (if i < 2 || i == 8 || i == 15 then 1 else 2)
  {
    assert Eight(i) || Eight(i - 8);
  }

  lemma CDSplits(h: Pair)
    ensures CDBits(h)[..28] == HalfBits(h.x) && CDBits(h)[28..] == HalfBits(h.y)
  {
    hide BitAt;
  }

  lemma CDJoins(h: Pair)
    ensures CDBits(h) == HalfBits(h.x) + HalfBits(h.y)
  {
    hide BitAt;
  }

  lemma Pc1Halves(k: Pair)
    ensures Half(Pc1(k).x) && Half(Pc1(k).y)
  {
    hide Lhs, Rhs, Exchanged;
  }

  /** After n rounds the code's halves are the blocks C and D after n iterations. */
  lemma {:induction false} HalvesFollow(k: Pair, n: nat)
    requires n <= 16
    ensures Half(Halves(k, n).x) && Half(Halves(k, n).y)
    ensures CDBits(Halves(k, n)) == FIPS.CD(PairBits(k), n)
  {
    if n == 0 {
      Pc1Halves(k);
      Pc1Selects(k);
    } else {
      HalvesFollow(k, n - 1);
      TurnedFollows(n - 1, Halves(k, n - 1));
    }
  }

  lemma TurnedFollows(i: nat, h: Pair)
    requires i < 16 && Half(h.x) && Half(h.y)
    ensures var (t, b, s) := (Turned(i, h), CDBits(h), FIPS.Shift(i));
            && Half(t.x) && Half(t.y)
            && CDBits(t) == FIPS.Rotated(b[..28], s) + FIPS.Rotated(b[28..], s)
  {
    hide Turn1, Turn2, Half, HalfBits, CDBits, FIPS.Rotated, FIPS.Shift;
    ShiftEntries(i);
    CDSplits(h); CDJoins(Turned(i, h));
    TurnBits(h.x); TurnBits(h.y); TurnTwoBits(h.x); TurnTwoBits(h.y);
  }

  /** The 48 bits that two words hold for the eight S-boxes, those of S2, S4, S6 and S8 in the first. */
  function GroupBits(even: bv32, odd: bv32): (r: FIPS.Bits)
    ensures |r| == 48
  {
    seq(48, i requires 0 <= i < 48 => BitAt(if i / 6 % 2 == 0 then odd else even, 8 * (i / 12) + 2 + i % 6))
  }

  lemma Pc2SelectsAt(h: Pair, i: nat)
    requires i < 48
    ensures GroupBits(Subkey0(h), Subkey1(h))[i] == FIPS.Bit(CDBits(h), Pc2Entry(i))
  {
    hide Subkey0, Subkey1, One, BitAt, Goes, Pc2Entry;
    Pc2At(h, i);
    var e := Pc2Entry(i);
    GoesBit(if i / 6 % 2 == 0 then Subkey1(h) else Subkey0(h), 8 * (i / 12) + 2 + i % 6,
            if e <= 28 then h.x else h.y, if e <= 28 then e + 3 else e - 25);
  }

  lemma Pc2Selects(h: Pair)
    ensures GroupBits(Subkey0(h), Subkey1(h)) == FIPS.Select(CDBits(h), FIPS.PC2, 6, 48)
  {
    hide Subkey0, Subkey1, GroupBits, CDBits, FIPS.PC2, FIPS.Bit, FIPS.EntryOf;
    forall i | 0 <= i < 48
      ensures GroupBits(Subkey0(h), Subkey1(h))[i] == FIPS.Select(CDBits(h), FIPS.PC2, 6, 48)[i]
    {
      Pc2SelectsAt(h, i);
    }
  }

  /** The two subkey words of round n hold the standard's key of iteration n. */
  lemma SubkeysFollow(k: Pair, n: nat)
    requires 1 <= n <= 16
    ensures var h := Halves(k, n); GroupBits(Subkey0(h), Subkey1(h)) == FIPS.KeyOf(PairBits(k), n)
  {
    hide Halves, Subkey0, Subkey1, GroupBits, CDBits, FIPS.CD, FIPS.Select, FIPS.PC2;
    HalvesFollow(k, n);
    Pc2Selects(Halves(k, n));
  }

  // ------------------------------------------------------------------------------- all the rotations

  /** A half turned n places to the left. */
  function Turns(w: bv32, n: nat): bv32 {
    if n == 0 then w else Turn1(Turns(w, n - 1))
  }

  /** How far the halves have been turned after n rounds. */
  function Total(n: nat): nat
    requires n <= 16
  {
    [0, 1, 2, 4, 6, 8, 10, 12, 14, 15, 17, 19, 21, 23, 25, 27, 28][n]
  }

  lemma Totals(n: nat)
    requires n < 16
    ensures Total(n + 1) == Total(n) + FIPS.Shift(n)
  {
    hide FIPS.Shift;
    ShiftEntries(n);
    assert Eight(n) || Eight(n - 8);
  }

  lemma {:induction false} TurnsHalf(w: bv32, n: nat)
    requires Half(w)
    ensures Half(Turns(w, n))
  {
    hide Turn1, Half;
    if n > 0 { TurnsHalf(w, n - 1); TurnGoes(Turns(w, n - 1), Turns(w, n - 1)); }
  }

  lemma {:induction false} TurnsTurns(w: bv32, m: nat, n: nat)
    ensures Turns(Turns(w, m), n) == Turns(w, m + n)
  {
    hide Turn1;
    if n > 0 { TurnsTurns(w, m, n - 1); }
  }

  lemma TurnedTurns(i: nat, h: Pair)
    requires i < 16 && Half(h.x) && Half(h.y)
    ensures Turned(i, h) == Pair(Turns(h.x, FIPS.Shift(i)), Turns(h.y, FIPS.Shift(i)))
  {
    hide Turn1, Turn2, Half, FIPS.Shift;
    ShiftEntries(i);
    TurnTwice(h.x); TurnTwice(h.y);
    assert Turns(h.x, 1) == Turn1(Turns(h.x, 0)) && Turns(h.y, 1) == Turn1(Turns(h.y, 0));
  }

  /** The halves of round n are those of the key, turned by 1, 2, 4, 6, 8, 10, 12, 14, 15, 17 and so on to 28. */
  lemma {:induction false} HalvesTurn(k: Pair, n: nat)
    requires n <= 16
    ensures Halves(k, n) == Pair(Turns(Pc1(k).x, Total(n)), Turns(Pc1(k).y, Total(n)))
  {
    hide Pc1, Turn1, Turned, Half, Total, FIPS.Shift;
    StartTotal();
    if n > 0 {
      HalvesTurn(k, n - 1);
      Totals(n - 1);
      HalvesFollow(k, n - 1);
      TurnedTurns(n - 1, Halves(k, n - 1));
      TurnsTurns(Pc1(k).x, Total(n - 1), FIPS.Shift(n - 1));
      TurnsTurns(Pc1(k).y, Total(n - 1), FIPS.Shift(n - 1));
    }
  }

  lemma StartTotal() ensures Total(0) == 0 && Total(16) == 28 {}

  function Turn4(w: bv32): bv32 { ((w << 4) | (w >> 24)) & HALF_BITS }

  lemma TurnsFour(w: bv32)
    requires Half(w)
    ensures Turns(w, 4) == Turn4(w)
  {
    var (w1, w2, w3) := (Turns(w, 1), Turns(w, 2), Turns(w, 3));
    assert Turns(w, 0) == w;
    assert w1 == Turn1(w) && w2 == Turn1(w1) && w3 == Turn1(w2) && Turns(w, 4) == Turn1(w3);
  }

  lemma FourSeven(w: bv32)
    requires Half(w)
    ensures Turn4(Turn4(Turn4(Turn4(Turn4(Turn4(Turn4(w))))))) == w {}

  lemma TurnsFull(w: bv32)
    requires Half(w)
    ensures Turns(w, 28) == w
  {
    hide Turn1, Turn4, Half;
    var (a, b, c) := (Turns(w, 4), Turns(w, 8), Turns(w, 12));
    var (d, e, f) := (Turns(w, 16), Turns(w, 20), Turns(w, 24));
    TurnsHalf(w, 4); TurnsHalf(w, 8); TurnsHalf(w, 12); TurnsHalf(w, 16); TurnsHalf(w, 20); TurnsHalf(w, 24);
    TurnsTurns(w, 4, 4); TurnsTurns(w, 8, 4); TurnsTurns(w, 12, 4); TurnsTurns(w, 16, 4); TurnsTurns(w, 20, 4);
    TurnsTurns(w, 24, 4);
    TurnsFour(w); TurnsFour(a); TurnsFour(b); TurnsFour(c); TurnsFour(d); TurnsFour(e); TurnsFour(f);
    FourSeven(w);
  }

  /** After all rounds the halves are back where they started. */
  lemma HalvesComeBack(k: Pair)
    ensures Halves(k, 16) == Pc1(k)
  {
    hide Pc1, Half, Total, Halves, Turns;
    StartTotal();
    HalvesTurn(k, 16);
    HalvesFollow(k, 0); HalvesStart(k);
    TurnsFull(Pc1(k).x); TurnsFull(Pc1(k).y);
  }

  lemma HalvesStart(k: Pair) ensures Halves(k, 0) == Pc1(k) {}
}
