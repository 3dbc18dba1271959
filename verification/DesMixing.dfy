/** The bit selection E, the S-boxes and the permutation P of FIPS 46-3. */
module DesMixing {
  import opened DesBits
  import opened DesBlocks
  import opened DesCipher
  import opened DesRound
  import opened DesTables
  import FIPS = DesStandard

  // ---------------------------------------------------------------------------- the bit selection E

  // Turning 32 bits moves every bit one place to the right.
  lemma Right1Goes(w: bv32, m: bv32)
    ensures Goes(Right1(w), Right1(m), w, m) {}

  lemma Right1One(i: nat)
    requires i < 32
    ensures Right1(One((i + 31) % 32)) == One(i)
  {
    hide One;
    Ones();
    assert Eight(i) || Eight(i - 8) || Eight(i - 16) || Eight(i - 24);
  }

  lemma Right1At(w: bv32, i: nat)
    requires i < 32
    ensures BitAt(Right1(w), i) == BitAt(w, (i + 31) % 32)
  {
    hide *;
    Right1One(i);
    Right1Goes(w, One((i + 31) % 32));
    GoesBit(Right1(w), i, w, (i + 31) % 32);
  }

  lemma Right4Turns(w: bv32)
    ensures Right4(w) == Right1(Right1(Right1(Right1(w)))) {}

  lemma Right4At(w: bv32, i: nat)
    requires i < 32
    ensures BitAt(Right4(w), i) == BitAt(w, (i + 28) % 32)
  {
    hide *;
    Right4Turns(w);
    Right1At(Right1(Right1(Right1(w))), i);
    Right1At(Right1(Right1(w)), (i + 31) % 32);
    Right1At(Right1(w), (i + 30) % 32);
    Right1At(w, (i + 29) % 32);
  }

  function EEntry(i: nat): nat { FIPS.EntryOf(FIPS.E, 6, i) }

  /** The rows of E overlap by two. */
  lemma EEntries(i: nat)
    requires i < 48
    ensures EEntry(i) == (4 * (i / 6) + i % 6 + 31) % 32 + 1
  {
    assert Eight(i / 6) && Eight(i % 6);
  }

  lemma EPlaces(i: nat)
    requires i < 48
    ensures var (k, t) := (EEntry(i) - 1, 8 * (i / 12) + 2 + i % 6);
            0 <= k < 32 && (k + 31) % 32 == if i / 6 % 2 == 0 then (t + 28) % 32 else t
  {
    hide EEntry;
    EEntries(i);
    assert Eight(i / 6);
  }

  lemma ESelectsAt(x: bv32, i: nat)
    requires i < 48
    ensures GroupBits(x, Right4(x))[i] == FIPS.Bit(BitsOf(Right1(x)), EEntry(i))
  {
    hide Right1, Right4, BitAt, EEntry;
    EPlaces(i);
    Right1At(x, EEntry(i) - 1);
    if i / 6 % 2 == 0 { Right4At(x, 8 * (i / 12) + 2 + i % 6); }
  }

  lemma ESelects(x: bv32)
    ensures GroupBits(x, Right4(x)) == FIPS.Select(BitsOf(Right1(x)), FIPS.E, 6, 48)
  {
    hide Right1, Right4, GroupBits, BitsOf, FIPS.E, FIPS.Bit, FIPS.EntryOf;
    forall i | 0 <= i < 48
      ensures GroupBits(x, Right4(x))[i] == FIPS.Select(BitsOf(Right1(x)), FIPS.E, 6, 48)[i]
    {
      ESelectsAt(x, i);
    }
  }

  // --------------------------------------------------------------------------------- addition modulo 2

  predicate Single(m: bv32) { m != 0 && m & (m - 1) == 0 }

  predicate Sums(c: bv32, a: bv32, b: bv32, m: bv32) { c & m != 0 <==> (a & m != 0) != (b & m != 0) }

  lemma XorBit(a: bv32, b: bv32, m: bv32)
    requires m != 0 && m & (m - 1) == 0
    ensures (a ^ b) & m != 0 <==> (a & m != 0) != (b & m != 0) {}

  lemma XorSingle(a: bv32, b: bv32, m: bv32)
    requires Single(m)
    ensures Sums(Xor(a, b), a, b, m)
  {
    XorBit(a, b, m);
  }

  lemma OneSingle(i: nat)
    requires i < 32
    ensures Single(One(i))
  {
    hide One;
    Ones();
    assert Eight(i) || Eight(i - 8) || Eight(i - 16) || Eight(i - 24);
  }

  lemma SumsAt(c: bv32, a: bv32, b: bv32, i: nat)
    requires i < 32 && Sums(c, a, b, One(i))
    ensures BitAt(c, i) == (BitAt(a, i) != BitAt(b, i))
  {
    hide One;
  }

  lemma XorAt(a: bv32, b: bv32, i: nat)
    requires i < 32
    ensures BitAt(Xor(a, b), i) == (BitAt(a, i) != BitAt(b, i))
  {
    hide *;
    OneSingle(i);
    XorSingle(a, b, One(i));
    SumsAt(Xor(a, b), a, b, i);
  }

  lemma WordXor(a: bv32, b: bv32)
    ensures BitsOf(Xor(a, b)) == FIPS.Mod2(BitsOf(a), BitsOf(b))
  {
    hide Xor, BitAt;
    forall i | 0 <= i < 32 ensures BitsOf(Xor(a, b))[i] == FIPS.Mod2(BitsOf(a), BitsOf(b))[i] {
      XorAt(a, b, i);
    }
  }

  lemma GroupXor(a0: bv32, a1: bv32, b0: bv32, b1: bv32)
    ensures GroupBits(Xor(a0, b0), Xor(a1, b1)) == FIPS.Mod2(GroupBits(b0, b1), GroupBits(a0, a1))
  {
    hide Xor, BitAt;
    forall i | 0 <= i < 48
      ensures GroupBits(Xor(a0, b0), Xor(a1, b1))[i] == FIPS.Mod2(GroupBits(b0, b1), GroupBits(a0, a1))[i]
    {
      var t := 8 * (i / 12) + 2 + i % 6;
      if i / 6 % 2 == 0 { XorAt(a1, b1, t); } else { XorAt(a0, b0, t); }
    }
  }

  // --------------------------------------------------------------------------------------- the S-boxes

  predicate Meets(a: bv32, b: bv32) { a & b != 0 }

  lemma MeetsAt(w: bv32, i: nat)
    requires i < 32
    ensures BitAt(w, i) == Meets(w, One(i))
  {
    hide One;
  }

  /** The six bits of a table index. */
  function SixBits(v: bv32): (r: FIPS.Bits)
    ensures |r| == 6
  {
    seq(6, c requires 0 <= c < 6 => BitAt(v, 26 + c))
  }

  function Bits4(a: bool, b: bool, c: bool, d: bool): nat {
    8 * FIPS.Number(a) + 4 * FIPS.Number(b) + 2 * FIPS.Number(c) + FIPS.Number(d)
  }

  lemma IndexNumber(v: bv32)
    ensures (v & 0x3F) as int
            == 16 * (2 * FIPS.Number(v & 0x20 != 0) + FIPS.Number(v & 0x10 != 0))
               + Bits4(v & 8 != 0, v & 4 != 0, v & 2 != 0, v & 1 != 0) {}

  lemma IndexMeets(v: bv32)
    ensures (v & 0x3F) as int == 16 * (2 * FIPS.Number(Meets(v, 0x20)) + FIPS.Number(Meets(v, 0x10)))
                                 + Bits4(Meets(v, 8), Meets(v, 4), Meets(v, 2), Meets(v, 1))
  {
    IndexNumber(v);
  }

  lemma IndexBits(v: bv32)
    ensures var (n, b) := ((v & 0x3F) as int, SixBits(v));
            n == 16 * (2 * FIPS.Number(b[0]) + FIPS.Number(b[1])) + Bits4(b[2], b[3], b[4], b[5])
  {
    hide One, BitAt, Meets, Bits4, FIPS.Number;
    Ones(); IndexMeets(v);
    MeetsAt(v, 26); MeetsAt(v, 27); MeetsAt(v, 28); MeetsAt(v, 29); MeetsAt(v, 30); MeetsAt(v, 31);
  }

  /** The lookup of six bits: the first two give the row of the code's table, the others the place in the row. */
  lemma EntryBits(t: seq<seq<bv32>>, v: bv32)
    requires Rows(t)
    ensures var b := SixBits(v);
            Entry(t, v) == t[2 * FIPS.Number(b[0]) + FIPS.Number(b[1])][Bits4(b[2], b[3], b[4], b[5])]
  {
    hide SixBits;
    IndexBits(v);
  }

  lemma AllRows()
    ensures Rows(SB1) && Rows(SB2) && Rows(SB3) && Rows(SB4) && Rows(SB5) && Rows(SB6) && Rows(SB7) && Rows(SB8) {}

  /** The word that S-box j of the code gives for six bits. */
  function Looked(j: nat, v: bv32): bv32
    requires j < 8
  {
    if j == 0 then Entry(SB1, v) else if j == 1 then Entry(SB2, v) else if j == 2 then Entry(SB3, v)
    else if j == 3 then Entry(SB4, v) else if j == 4 then Entry(SB5, v) else if j == 5 then Entry(SB6, v)
    else if j == 6 then Entry(SB7, v) else Entry(SB8, v)
  }

  lemma Box1Fits(v: bv32)
    ensures Right1(Entry(SB1, v)) == Placed(0, FIPS.BoxOf(0, SixBits(v)))
  {
    hide SixBits, Entry, Right1, Put, Rows, SB1, FIPS.S1;
    AllRows(); EntryBits(SB1, v);
    var b := SixBits(v);
    var c := Bits4(b[2], b[3], b[4], b[5]);
    if !b[0] && !b[1] { Box1Row0(c); } else if !b[0] { Box1Row1(c); }
    else if !b[1] { Box1Row2(c); } else { Box1Row3(c); }
  }

  lemma Box2Fits(v: bv32)
    ensures Right1(Entry(SB2, v)) == Placed(1, FIPS.BoxOf(1, SixBits(v)))
  {
    hide SixBits, Entry, Right1, Put, Rows, SB2, FIPS.S2;
    AllRows(); EntryBits(SB2, v);
    var b := SixBits(v);
    var c := Bits4(b[2], b[3], b[4], b[5]);
    if !b[0] && !b[1] { Box2Row0(c); } else if !b[0] { Box2Row1(c); }
    else if !b[1] { Box2Row2(c); } else { Box2Row3(c); }
  }

  lemma Box3Fits(v: bv32)
    ensures Right1(Entry(SB3, v)) == Placed(2, FIPS.BoxOf(2, SixBits(v)))
  {
    hide SixBits, Entry, Right1, Put, Rows, SB3, FIPS.S3;
    AllRows(); EntryBits(SB3, v);
    var b := SixBits(v);
    var c := Bits4(b[2], b[3], b[4], b[5]);
    if !b[0] && !b[1] { Box3Row0(c); } else if !b[0] { Box3Row1(c); }
    else if !b[1] { Box3Row2(c); } else { Box3Row3(c); }
  }

  lemma Box4Fits(v: bv32)
    ensures Right1(Entry(SB4, v)) == Placed(3, FIPS.BoxOf(3, SixBits(v)))
  {
    hide SixBits, Entry, Right1, Put, Rows, SB4, FIPS.S4;
    AllRows(); EntryBits(SB4, v);
    var b := SixBits(v);
    var c := Bits4(b[2], b[3], b[4], b[5]);
    if !b[0] && !b[1] { Box4Row0(c); } else if !b[0] { Box4Row1(c); }
    else if !b[1] { Box4Row2(c); } else { Box4Row3(c); }
  }

  lemma Box5Fits(v: bv32)
    ensures Right1(Entry(SB5, v)) == Placed(4, FIPS.BoxOf(4, SixBits(v)))
  {
    hide SixBits, Entry, Right1, Put, Rows, SB5, FIPS.S5;
    AllRows(); EntryBits(SB5, v);
    var b := SixBits(v);
    var c := Bits4(b[2], b[3], b[4], b[5]);
    if !b[0] && !b[1] { Box5Row0(c); } else if !b[0] { Box5Row1(c); }
    else if !b[1] { Box5Row2(c); } else { Box5Row3(c); }
  }

  lemma Box6Fits(v: bv32)
    ensures Right1(Entry(SB6, v)) == Placed(5, FIPS.BoxOf(5, SixBits(v)))
  {
    hide SixBits, Entry, Right1, Put, Rows, SB6, FIPS.S6;
    AllRows(); EntryBits(SB6, v);
    var b := SixBits(v);
    var c := Bits4(b[2], b[3], b[4], b[5]);
    if !b[0] && !b[1] { Box6Row0(c); } else if !b[0] { Box6Row1(c); }
    else if !b[1] { Box6Row2(c); } else { Box6Row3(c); }
  }

  lemma Box7Fits(v: bv32)
    ensures Right1(Entry(SB7, v)) == Placed(6, FIPS.BoxOf(6, SixBits(v)))
  {
    hide SixBits, Entry, Right1, Put, Rows, SB7, FIPS.S7;
    AllRows(); EntryBits(SB7, v);
    var b := SixBits(v);
    var c := Bits4(b[2], b[3], b[4], b[5]);
    if !b[0] && !b[1] { Box7Row0(c); } else if !b[0] { Box7Row1(c); }
    else if !b[1] { Box7Row2(c); } else { Box7Row3(c); }
  }

  lemma Box8Fits(v: bv32)
    ensures Right1(Entry(SB8, v)) == Placed(7, FIPS.BoxOf(7, SixBits(v)))
  {
    hide SixBits, Entry, Right1, Put, Rows, SB8, FIPS.S8;
    AllRows(); EntryBits(SB8, v);
    var b := SixBits(v);
    var c := Bits4(b[2], b[3], b[4], b[5]);
    if !b[0] && !b[1] { Box8Row0(c); } else if !b[0] { Box8Row1(c); }
    else if !b[1] { Box8Row2(c); } else { Box8Row3(c); }
  }

  // ---------------------------------------------------------------------------------- the permutation P

  /** Where P puts every bit: its inverse, counted from 0. */
  const PLACES: seq<seq<nat>> := [
    [ 8, 16, 22, 30],
    [12, 27,  1, 17],
    [23, 15, 29,  5],
    [25, 19,  9,  0],
    [ 7, 13, 24,  2],
    [ 3, 28, 10, 18],
    [31, 11, 21,  6],
    [ 4, 26, 14, 20]
  ]

  function At(k: nat): nat
    requires k < 32
  {
    PLACES[k / 4][k % 4]
  }

  function PEntry(i: nat): nat { FIPS.EntryOf(FIPS.P, 4, i) }

  lemma AtEntries()
    ensures && At(0) == 8 && At(1) == 16 && At(2) == 22 && At(3) == 30
            && At(4) == 12 && At(5) == 27 && At(6) == 1 && At(7) == 17
            && At(8) == 23 && At(9) == 15 && At(10) == 29 && At(11) == 5
            && At(12) == 25 && At(13) == 19 && At(14) == 9 && At(15) == 0
            && At(16) == 7 && At(17) == 13 && At(18) == 24 && At(19) == 2
            && At(20) == 3 && At(21) == 28 && At(22) == 10 && At(23) == 18
            && At(24) == 31 && At(25) == 11 && At(26) == 21 && At(27) == 6
            && At(28) == 4 && At(29) == 26 && At(30) == 14 && At(31) == 20 {}

  lemma PEntries()
    ensures && PEntry(0) == 16 && PEntry(1) == 7 && PEntry(2) == 20 && PEntry(3) == 21
            && PEntry(4) == 29 && PEntry(5) == 12 && PEntry(6) == 28 && PEntry(7) == 17
            && PEntry(8) == 1 && PEntry(9) == 15 && PEntry(10) == 23 && PEntry(11) == 26
            && PEntry(12) == 5 && PEntry(13) == 18 && PEntry(14) == 31 && PEntry(15) == 10
            && PEntry(16) == 2 && PEntry(17) == 8 && PEntry(18) == 24 && PEntry(19) == 14
            && PEntry(20) == 32 && PEntry(21) == 27 && PEntry(22) == 3 && PEntry(23) == 9
            && PEntry(24) == 19 && PEntry(25) == 13 && PEntry(26) == 30 && PEntry(27) == 6
            && PEntry(28) == 22 && PEntry(29) == 11 && PEntry(30) == 4 && PEntry(31) == 25 {}

  lemma PlaceOfEntry(i: nat)
    requires i < 32
    ensures 1 <= PEntry(i) <= 32 && At(PEntry(i) - 1) == i
  {
    hide At, PEntry;
    AtEntries(); PEntries();
    assert Eight(i) || Eight(i - 8) || Eight(i - 16) || Eight(i - 24);
  }

  lemma EntryOfPlace(k: nat)
    requires k < 32
    ensures At(k) < 32 && PEntry(At(k)) == k + 1
  {
    hide At, PEntry;
    AtEntries(); PEntries();
    assert Eight(k) || Eight(k - 8) || Eight(k - 16) || Eight(k - 24);
  }

  // Different single bits have nothing in common.
  lemma OneHalves(i: nat)
    requires i < 31
    ensures One(i + 1) == One(i) >> 1 && One(i) != 0
  {
    hide One;
    Ones();
    assert Eight(i) || Eight(i - 8) || Eight(i - 16) || Eight(i - 24);
  }

  lemma ShiftLess(m: bv32) requires m != 0 ensures m >> 1 < m {}

  lemma {:induction false} OneFalls(i: nat, j: nat)
    requires i < j < 32
    ensures One(j) < One(i)
  {
    hide One;
    OneHalves(j - 1);
    ShiftLess(One(j - 1));
    if i < j - 1 { OneFalls(i, j - 1); }
  }

  lemma SinglesApart(a: bv32, b: bv32)
    requires Single(a) && Single(b) && a != b
    ensures !Meets(a, b) {}

  lemma SingleMeets(m: bv32) requires Single(m) ensures Meets(m, m) {}

  lemma OneDiffers(i: nat, j: nat)
    requires i < 32 && j < 32 && i != j
    ensures One(i) != One(j)
  {
    hide One;
    if i < j { OneFalls(i, j); } else { OneFalls(j, i); }
  }

  lemma OneApart(i: nat, j: nat)
    requires i < 32 && j < 32
    ensures BitAt(One(i), j) <==> i == j
  {
    hide *;
    OneSingle(i); OneSingle(j);
    MeetsAt(One(i), j);
    if i == j {
      SingleMeets(One(i));
    } else {
      OneDiffers(i, j);
      SinglesApart(One(i), One(j));
    }
  }

  lemma PlacedOnes(j: nat, s: nat)
    requires j < 8
    ensures At(4 * j) < 32 && At(4 * j + 1) < 32 && At(4 * j + 2) < 32 && At(4 * j + 3) < 32
    ensures Placed(j, s) == Put(One(At(4 * j)), One(At(4 * j + 1)), One(At(4 * j + 2)), One(At(4 * j + 3)), s)
  {
    hide One, At, Put;
    Ones(); AtEntries();
    assert Eight(j);
  }

  lemma JoinBits(a: bv32, b: bv32, c: bv32, d: bv32, m: bv32)
    ensures (a | b | c | d) & m != 0 <==> (a & m != 0 || b & m != 0 || c & m != 0 || d & m != 0) {}

  lemma JoinMeets(a: bv32, b: bv32, c: bv32, d: bv32, m: bv32)
    ensures Meets(a | b | c | d, m) <==> Meets(a, m) || Meets(b, m) || Meets(c, m) || Meets(d, m)
  {
    JoinBits(a, b, c, d, m);
  }

  lemma JoinAt(a: bv32, b: bv32, c: bv32, d: bv32, i: nat)
    requires i < 32
    ensures BitAt(a | b | c | d, i) <==> BitAt(a, i) || BitAt(b, i) || BitAt(c, i) || BitAt(d, i)
  {
    hide *;
    MeetsAt(a | b | c | d, i); MeetsAt(a, i); MeetsAt(b, i); MeetsAt(c, i); MeetsAt(d, i);
    JoinMeets(a, b, c, d, One(i));
  }

  lemma NoneAt(i: nat)
    requires i < 32
    ensures !BitAt(0, i)
  {
    hide One;
  }

  lemma PutAt(a: nat, b: nat, c: nat, d: nat, s: nat, i: nat)
    requires a < 32 && b < 32 && c < 32 && d < 32 && i < 32
    ensures BitAt(Put(One(a), One(b), One(c), One(d), s), i)
            <==> || (s / 8 % 2 == 1 && a == i) || (s / 4 % 2 == 1 && b == i)
                 || (s / 2 % 2 == 1 && c == i) || (s % 2 == 1 && d == i)
  {
    hide One, BitAt;
    NoneAt(i);
    OneApart(a, i); OneApart(b, i); OneApart(c, i); OneApart(d, i);
    JoinAt(If(s / 8 % 2 == 1, One(a)), If(s / 4 % 2 == 1, One(b)),
           If(s / 2 % 2 == 1, One(c)), If(s % 2 == 1, One(d)), i);
  }

  /** S-box j puts its number's bit m where P wants bit 4 j + m, and nothing elsewhere. */
  lemma PlacedAt(j: nat, s: nat, i: nat)
    requires j < 8 && i < 32
    ensures var k := PEntry(i) - 1;
            0 <= k < 32 && (BitAt(Placed(j, s), i) <==> k / 4 == j && FIPS.NibbleBit(s, k % 4))
  {
    hide At, PEntry, One, Put, Placed, BitAt;
    PlaceOfEntry(i);
    EntryOfPlace(4 * j); EntryOfPlace(4 * j + 1); EntryOfPlace(4 * j + 2); EntryOfPlace(4 * j + 3);
    PlacedOnes(j, s);
    PutAt(At(4 * j), At(4 * j + 1), At(4 * j + 2), At(4 * j + 3), s, i);
  }

  // ----------------------------------------------------------------------------- the cipher function f

  // The four six-bit groups of a word
  lemma SixGoes(u: bv32, m: bv32)
    requires m & 0x3F == m
    ensures Goes(Six24(u), m, u, m << 24) && Goes(Six16(u), m, u, m << 16)
            && Goes(Six8(u), m, u, m << 8) && Goes(Six0(u), m, u, m) {}

  lemma SixOnes(c: nat)
    requires c < 6
    ensures var m := One(26 + c);
            m & 0x3F == m && m << 24 == One(2 + c) && m << 16 == One(10 + c) && m << 8 == One(18 + c)
  {
    hide One;
    Ones();
    assert Eight(c);
  }

  lemma SixAt(u: bv32, c: nat)
    requires c < 6
    ensures BitAt(Six24(u), 26 + c) == BitAt(u, 2 + c) && BitAt(Six16(u), 26 + c) == BitAt(u, 10 + c)
            && BitAt(Six8(u), 26 + c) == BitAt(u, 18 + c) && BitAt(Six0(u), 26 + c) == BitAt(u, 26 + c)
  {
    hide *;
    SixOnes(c);
    SixGoes(u, One(26 + c));
    GoesBit(Six24(u), 26 + c, u, 2 + c); GoesBit(Six16(u), 26 + c, u, 10 + c);
    GoesBit(Six8(u), 26 + c, u, 18 + c); GoesBit(Six0(u), 26 + c, u, 26 + c);
  }

  /** The six bits that S-box j looks at. */
  function Six(u0: bv32, u1: bv32, j: nat): bv32
    requires j < 8
  {
    var u := if j % 2 == 0 then u1 else u0;
    if j < 2 then Six24(u) else if j < 4 then Six16(u) else if j < 6 then Six8(u) else Six0(u)
  }

  lemma SixGroupAt(u0: bv32, u1: bv32, j: nat, c: nat)
    requires j < 8 && c < 6
    ensures GroupBits(u0, u1)[6 * j + c] == BitAt(Six(u0, u1, j), 26 + c)
  {
    hide BitAt, Six24, Six16, Six8, Six0;
    var n := 6 * j + c;
    assert n / 6 == j && n % 6 == c && n / 12 == j / 2;
    SixAt(if j % 2 == 0 then u1 else u0, c);
  }

  lemma SixGroup(u0: bv32, u1: bv32, j: nat)
    requires j < 8
    ensures GroupBits(u0, u1)[6 * j..6 * j + 6] == SixBits(Six(u0, u1, j))
  {
    hide BitAt, GroupBits, Six;
    var (g, b) := (GroupBits(u0, u1)[6 * j..6 * j + 6], SixBits(Six(u0, u1, j)));
    forall c | 0 <= c < 6 ensures g[c] == b[c] { SixGroupAt(u0, u1, j, c); }
  }

  /** The number that S-box j of the standard gives. */
  function BoxNumber(u0: bv32, u1: bv32, j: nat): nat
    requires j < 8
  {
    FIPS.BoxOf(j, SixBits(Six(u0, u1, j)))
  }

  lemma LookedFits(u0: bv32, u1: bv32, j: nat)
    requires j < 8
    ensures Right1(Looked(j, Six(u0, u1, j))) == Placed(j, BoxNumber(u0, u1, j))
  {
    hide Right1, Placed, Six, SixBits, FIPS.BoxOf, Entry;
    var v := Six(u0, u1, j);
    Box1Fits(v); Box2Fits(v); Box3Fits(v); Box4Fits(v); Box5Fits(v); Box6Fits(v); Box7Fits(v); Box8Fits(v);
  }

  lemma TheBoxes(v: bv32)
    ensures var sb := DES_BOXES;
            && sb.s1(v) == Looked(0, v) && sb.s2(v) == Looked(1, v) && sb.s3(v) == Looked(2, v)
            && sb.s4(v) == Looked(3, v) && sb.s5(v) == Looked(4, v) && sb.s6(v) == Looked(5, v)
            && sb.s7(v) == Looked(6, v) && sb.s8(v) == Looked(7, v)
  {
    hide Entry;
  }

  lemma EvenLooks(u0: bv32, u1: bv32)
    ensures EvenBoxes(DES_BOXES, u0)
            == Xor4(Looked(7, Six(u0, u1, 7)), Looked(5, Six(u0, u1, 5)), Looked(3, Six(u0, u1, 3)),
                    Looked(1, Six(u0, u1, 1)))
  {
    hide DES_BOXES, Looked, Xor4, Six24, Six16, Six8, Six0;
    TheBoxes(Six0(u0)); TheBoxes(Six8(u0)); TheBoxes(Six16(u0)); TheBoxes(Six24(u0));
  }

  lemma OddLooks(u0: bv32, u1: bv32)
    ensures OddBoxes(DES_BOXES, u1)
            == Xor4(Looked(6, Six(u0, u1, 6)), Looked(4, Six(u0, u1, 4)), Looked(2, Six(u0, u1, 2)),
                    Looked(0, Six(u0, u1, 0)))
  {
    hide DES_BOXES, Looked, Xor4, Six24, Six16, Six8, Six0;
    TheBoxes(Six0(u1)); TheBoxes(Six8(u1)); TheBoxes(Six16(u1)); TheBoxes(Six24(u1));
  }

  // Turning distributes over the sum.
  lemma TurnXor(a: bv32, b: bv32)
    ensures Right1(Xor(a, b)) == Xor(Right1(a), Right1(b)) {}

  lemma TurnXor4(a: bv32, b: bv32, c: bv32, d: bv32)
    ensures Right1(Xor4(a, b, c, d)) == Xor4(Right1(a), Right1(b), Right1(c), Right1(d))
  {
    hide Right1, Xor;
    TurnXor(Xor(Xor(a, b), c), d);
    TurnXor(Xor(a, b), c);
    TurnXor(a, b);
  }

  /** All eight numbers of the standard's S-boxes, each where P puts its bits. */
  function AllPlaced(u0: bv32, u1: bv32): bv32 {
    Xor(Xor4(Placed(7, BoxNumber(u0, u1, 7)), Placed(5, BoxNumber(u0, u1, 5)),
             Placed(3, BoxNumber(u0, u1, 3)), Placed(1, BoxNumber(u0, u1, 1))),
        Xor4(Placed(6, BoxNumber(u0, u1, 6)), Placed(4, BoxNumber(u0, u1, 4)),
             Placed(2, BoxNumber(u0, u1, 2)), Placed(0, BoxNumber(u0, u1, 0))))
  }

  lemma MixPlaces(k0: bv32, k1: bv32, x: bv32)
    ensures Right1(RoundMix(DES_BOXES, k0, k1, x)) == AllPlaced(Xor(k0, x), Xor(k1, Right4(x)))
  {
    hide Right1, Right4, Xor, Xor4, EvenBoxes, OddBoxes, Looked, Six, Placed, BoxNumber, DES_BOXES;
    var (u0, u1) := (Xor(k0, x), Xor(k1, Right4(x)));
    EvenLooks(u0, u1); OddLooks(u0, u1);
    TurnXor(EvenBoxes(DES_BOXES, u0), OddBoxes(DES_BOXES, u1));
    var L := (j: nat) requires j < 8 => Looked(j, Six(u0, u1, j));
    TurnXor4(L(7), L(5), L(3), L(1)); TurnXor4(L(6), L(4), L(2), L(0));
    LookedFits(u0, u1, 0); LookedFits(u0, u1, 1); LookedFits(u0, u1, 2); LookedFits(u0, u1, 3);
    LookedFits(u0, u1, 4); LookedFits(u0, u1, 5); LookedFits(u0, u1, 6); LookedFits(u0, u1, 7);
  }

  lemma Xor4At(a: bv32, b: bv32, c: bv32, d: bv32, i: nat)
    requires i < 32
    ensures BitAt(Xor4(a, b, c, d), i) == (((BitAt(a, i) != BitAt(b, i)) != BitAt(c, i)) != BitAt(d, i))
  {
    hide Xor, BitAt;
    XorAt(Xor(Xor(a, b), c), d, i);
    XorAt(Xor(a, b), c, i);
    XorAt(a, b, i);
  }

  /** Bit i is the bit of the one S-box that P names. */
  lemma AllPlacedAt(u0: bv32, u1: bv32, i: nat)
    requires i < 32
    ensures var k := PEntry(i) - 1;
            0 <= k < 32 && BitAt(AllPlaced(u0, u1), i) == FIPS.NibbleBit(BoxNumber(u0, u1, k / 4), k % 4)
  {
    hide Xor, Xor4, BitAt, Placed, BoxNumber, PEntry, FIPS.NibbleBit;
    var n := (j: nat) requires j < 8 => BoxNumber(u0, u1, j);
    PlacedAt(0, n(0), i); PlacedAt(1, n(1), i); PlacedAt(2, n(2), i); PlacedAt(3, n(3), i);
    PlacedAt(4, n(4), i); PlacedAt(5, n(5), i); PlacedAt(6, n(6), i); PlacedAt(7, n(7), i);
    Xor4At(Placed(7, n(7)), Placed(5, n(5)), Placed(3, n(3)), Placed(1, n(1)), i);
    Xor4At(Placed(6, n(6)), Placed(4, n(4)), Placed(2, n(2)), Placed(0, n(0)), i);
    XorAt(Xor4(Placed(7, n(7)), Placed(5, n(5)), Placed(3, n(3)), Placed(1, n(1))),
          Xor4(Placed(6, n(6)), Placed(4, n(4)), Placed(2, n(2)), Placed(0, n(0))), i);
    assert Eight((PEntry(i) - 1) / 4);
  }

  lemma BoxesAt(u0: bv32, u1: bv32, k: nat)
    requires k < 32
    ensures FIPS.Boxes(GroupBits(u0, u1))[k] == FIPS.NibbleBit(BoxNumber(u0, u1, k / 4), k % 4)
  {
    hide FIPS.BoxOf, FIPS.NibbleBit, GroupBits, SixBits, Six;
    SixGroup(u0, u1, k / 4);
  }

  lemma MixAt(k0: bv32, k1: bv32, x: bv32, i: nat)
    requires i < 32
    ensures BitAt(Right1(RoundMix(DES_BOXES, k0, k1, x)), i)
            == FIPS.Bit(FIPS.Boxes(GroupBits(Xor(k0, x), Xor(k1, Right4(x)))), PEntry(i))
  {
    hide Right1, Right4, Xor, BitAt, AllPlaced, BoxNumber, RoundMix, DES_BOXES, GroupBits, PEntry, FIPS.Boxes;
    hide FIPS.NibbleBit;
    var (u0, u1) := (Xor(k0, x), Xor(k1, Right4(x)));
    MixPlaces(k0, k1, x);
    AllPlacedAt(u0, u1, i);
    BoxesAt(u0, u1, PEntry(i) - 1);
  }

  /** What a round adds to a half is f of the other half and the key. */
  lemma MixIsF(k0: bv32, k1: bv32, x: bv32)
    ensures BitsOf(Right1(RoundMix(DES_BOXES, k0, k1, x))) == FIPS.F(BitsOf(Right1(x)), GroupBits(k0, k1))
  {
    hide Right1, Right4, Xor, BitAt, RoundMix, DES_BOXES, GroupBits;
    hide FIPS.Boxes, FIPS.Bit, FIPS.EntryOf, FIPS.E, FIPS.P, FIPS.Mod2;
    var (u0, u1) := (Xor(k0, x), Xor(k1, Right4(x)));
    ESelects(x);
    GroupXor(k0, k1, x, Right4(x));
    var f := FIPS.F(BitsOf(Right1(x)), GroupBits(k0, k1));
    forall i | 0 <= i < 32 ensures BitsOf(Right1(RoundMix(DES_BOXES, k0, k1, x)))[i] == f[i] { MixAt(k0, k1, x, i); }
  }
}
