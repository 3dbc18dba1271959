/** MD5 against RFC 1321: the auxiliary functions bit by bit, the rows of the step table, and two suite values. */
module Md5Suite {
  import opened Bytes
  import opened Md5
  import opened Md5Block

  // -------------------------------------------------------- the auxiliary functions, section 3.4

  // The laws for one bit m, first on the formulas and then on the functions
  lemma ChoiceBit(x: bv32, y: bv32, z: bv32, m: bv32)
    requires m != 0 && m & (m - 1) == 0
    ensures ((x & y) | (!x & z)) & m == if x & m != 0 then y & m else z & m {}

  lemma OtherChoiceBit(x: bv32, y: bv32, z: bv32, m: bv32)
    requires m != 0 && m & (m - 1) == 0
    ensures ((x & z) | (y & !z)) & m == if z & m != 0 then x & m else y & m {}

  lemma ParityBit(x: bv32, y: bv32, z: bv32, m: bv32)
    requires m != 0 && m & (m - 1) == 0
    ensures (x ^ y ^ z) & m != 0 <==> ((x & m != 0) != ((y & m != 0) != (z & m != 0))) {}

  lemma InvertBit(x: bv32, y: bv32, z: bv32, m: bv32)
    requires m != 0 && m & (m - 1) == 0
    ensures (y ^ (x | !z)) & m != 0 <==> ((y & m != 0) != (x & m != 0 || z & m == 0)) {}

  /** If X then Y else Z. */
  lemma FBit(x: bv32, y: bv32, z: bv32, m: bv32)
    requires m != 0 && m & (m - 1) == 0
    ensures F(x, y, z) & m == if x & m != 0 then y & m else z & m
  {
    ChoiceBit(x, y, z, m);
  }

  /** If Z then X else Y. */
  lemma GBit(x: bv32, y: bv32, z: bv32, m: bv32)
    requires m != 0 && m & (m - 1) == 0
    ensures G(x, y, z) & m == if z & m != 0 then x & m else y & m
  {
    OtherChoiceBit(x, y, z, m);
  }

  /** The parity of the three bits. */
  lemma HBit(x: bv32, y: bv32, z: bv32, m: bv32)
    requires m != 0 && m & (m - 1) == 0
    ensures H(x, y, z) & m != 0 <==> ((x & m != 0) != ((y & m != 0) != (z & m != 0)))
  {
    ParityBit(x, y, z, m);
  }

  /** The bit of Y, inverted where X is set or Z is clear. */
  lemma IBit(x: bv32, y: bv32, z: bv32, m: bv32)
    requires m != 0 && m & (m - 1) == 0
    ensures I(x, y, z) & m != 0 <==> ((y & m != 0) != (x & m != 0 || z & m == 0))
  {
    InvertBit(x, y, z, m);
  }

  // --------------------------------------------------------------- the 64 rows of the step table

  /** Step n takes word k, turns by s and adds the constant t. */
  predicate RowIs(n: nat, k: nat, s: nat, t: nat)
    requires n < 64
  {
    WordAt(n) == k && Amount(n) == s && Sine(n) == t
  }

  lemma Rows0()
    ensures && RowIs(0, 0, 7, 0xd76aa478) && RowIs(1, 1, 12, 0xe8c7b756)
            && RowIs(2, 2, 17, 0x242070db) && RowIs(3, 3, 22, 0xc1bdceee)
            && RowIs(4, 4, 7, 0xf57c0faf) && RowIs(5, 5, 12, 0x4787c62a)
            && RowIs(6, 6, 17, 0xa8304613) && RowIs(7, 7, 22, 0xfd469501) {}

  lemma Rows8()
    ensures && RowIs(8, 8, 7, 0x698098d8) && RowIs(9, 9, 12, 0x8b44f7af)
            && RowIs(10, 10, 17, 0xffff5bb1) && RowIs(11, 11, 22, 0x895cd7be)
            && RowIs(12, 12, 7, 0x6b901122) && RowIs(13, 13, 12, 0xfd987193)
            && RowIs(14, 14, 17, 0xa679438e) && RowIs(15, 15, 22, 0x49b40821) {}

  lemma Rows16()
    ensures && RowIs(16, 1, 5, 0xf61e2562) && RowIs(17, 6, 9, 0xc040b340)
            && RowIs(18, 11, 14, 0x265e5a51) && RowIs(19, 0, 20, 0xe9b6c7aa)
            && RowIs(20, 5, 5, 0xd62f105d) && RowIs(21, 10, 9, 0x02441453)
            && RowIs(22, 15, 14, 0xd8a1e681) && RowIs(23, 4, 20, 0xe7d3fbc8) {}

  lemma Rows24()
    ensures && RowIs(24, 9, 5, 0x21e1cde6) && RowIs(25, 14, 9, 0xc33707d6)
            && RowIs(26, 3, 14, 0xf4d50d87) && RowIs(27, 8, 20, 0x455a14ed)
            && RowIs(28, 13, 5, 0xa9e3e905) && RowIs(29, 2, 9, 0xfcefa3f8)
            && RowIs(30, 7, 14, 0x676f02d9) && RowIs(31, 12, 20, 0x8d2a4c8a) {}

  lemma Rows32()
    ensures && RowIs(32, 5, 4, 0xfffa3942) && RowIs(33, 8, 11, 0x8771f681)
            && RowIs(34, 11, 16, 0x6d9d6122) && RowIs(35, 14, 23, 0xfde5380c)
            && RowIs(36, 1, 4, 0xa4beea44) && RowIs(37, 4, 11, 0x4bdecfa9)
            && RowIs(38, 7, 16, 0xf6bb4b60) && RowIs(39, 10, 23, 0xbebfbc70) {}

  lemma Rows40()
    ensures && RowIs(40, 13, 4, 0x289b7ec6) && RowIs(41, 0, 11, 0xeaa127fa)
            && RowIs(42, 3, 16, 0xd4ef3085) && RowIs(43, 6, 23, 0x04881d05)
            && RowIs(44, 9, 4, 0xd9d4d039) && RowIs(45, 12, 11, 0xe6db99e5)
            && RowIs(46, 15, 16, 0x1fa27cf8) && RowIs(47, 2, 23, 0xc4ac5665) {}

  lemma Rows48()
    ensures && RowIs(48, 0, 6, 0xf4292244) && RowIs(49, 7, 10, 0x432aff97)
            && RowIs(50, 14, 15, 0xab9423a7) && RowIs(51, 5, 21, 0xfc93a039)
            && RowIs(52, 12, 6, 0x655b59c3) && RowIs(53, 3, 10, 0x8f0ccc92)
            && RowIs(54, 10, 15, 0xffeff47d) && RowIs(55, 1, 21, 0x85845dd1) {}

  lemma Rows56()
    ensures && RowIs(56, 8, 6, 0x6fa87e4f) && RowIs(57, 15, 10, 0xfe2ce6e0)
            && RowIs(58, 6, 15, 0xa3014314) && RowIs(59, 13, 21, 0x4e0811a1)
            && RowIs(60, 4, 6, 0xf7537e82) && RowIs(61, 11, 10, 0xbd3af235)
            && RowIs(62, 2, 15, 0x2ad7d2bb) && RowIs(63, 9, 21, 0xeb86d391) {}

  // ------------------------------------------------------------------------------ words of blocks

  lemma {:induction false} DecodedAt(b: seq<bv8>, i: nat)
    requires |b| % 4 == 0 && 4 * i + 4 <= |b|
    ensures Decoded(b)[i] == Word(b[4 * i..4 * i + 4])
  {
    hide Word;
    if 4 * i + 4 < |b| {
      DecodedAt(b[..|b| - 4], i);
      assert b[..|b| - 4][4 * i..4 * i + 4] == b[4 * i..4 * i + 4];
    } else {
      assert b[4 * i..4 * i + 4] == b[4 * i..];
    }
  }

  lemma WordOfFour(b: seq<bv8>, i: nat, a0: bv8, a1: bv8, a2: bv8, a3: bv8)
    requires |b| % 4 == 0 && 4 * i + 4 <= |b|
    requires b[4 * i] == a0 && b[4 * i + 1] == a1 && b[4 * i + 2] == a2 && b[4 * i + 3] == a3
    ensures Decoded(b)[i] == Word([a0, a1, a2, a3])
  {
    hide Word, Decoded;
    DecodedAt(b, i);
    var s := b[4 * i..4 * i + 4];
    assert s[0] == a0 && s[1] == a1 && s[2] == a2 && s[3] == a3;
    assert s == [a0, a1, a2, a3];
  }

  lemma TwoEncoded(a: bv32, b: bv32)
    ensures Encoded([a, b]) == WordBytes(a) + WordBytes(b)
  {
    hide WordBytes;
    EncodedMore([], a); EncodedMore([a], b);
    assert [] + [a] == [a] && [a] + [b] == [a, b];
  }

  lemma FourEncoded(a: bv32, b: bv32, c: bv32, d: bv32)
    ensures Encoded([a, b, c, d]) == WordBytes(a) + WordBytes(b) + WordBytes(c) + WordBytes(d)
  {
    hide WordBytes, Encoded;
    TwoEncoded(a, b); EncodedMore([a, b], c); EncodedMore([a, b, c], d);
    assert [a, b] + [c] == [a, b, c] && [a, b, c] + [d] == [a, b, c, d];
  }

  lemma ZeroBytes() ensures Bv(0) == 0 && WordBytes(0) == [0, 0, 0, 0] {}

  lemma WordZero() ensures Word([0, 0, 0, 0]) == 0 {}

  /** The padded message is one block of these words. */
  predicate OneBlock(m: seq<bv8>, x: seq<bv32>) { |Padded(m)| == 64 && Decoded(Padded(m)) == x }

  lemma NoSteps(q: Quad, x: seq<bv32>)
    requires |x| == 16
    ensures Steps(0, q, x) == q {}

  /** What a step computes anew. */
  predicate FreshIs(n: nat, q: Quad, w: bv32, s: nat, t: nat, v: bv32)
    requires 0 < s < 32 && t < 0x1_0000_0000
  {
    Fresh(q, Aux(n, q), w, s, t) == v
  }

  // ---------------------------------------------------------------------- the empty message

  const EMPTY: seq<bv32> := [
    0x00000080, 0x00000000, 0x00000000, 0x00000000, 0x00000000, 0x00000000, 0x00000000, 0x00000000,
    0x00000000, 0x00000000, 0x00000000, 0x00000000, 0x00000000, 0x00000000, 0x00000000, 0x00000000
  ]

  lemma EmptyWords()
    ensures |EMPTY| == 16
            && EMPTY[0] == 0x00000080 && EMPTY[1] == 0x00000000 && EMPTY[2] == 0x00000000
            && EMPTY[3] == 0x00000000 && EMPTY[4] == 0x00000000 && EMPTY[5] == 0x00000000
            && EMPTY[6] == 0x00000000 && EMPTY[7] == 0x00000000 && EMPTY[8] == 0x00000000
            && EMPTY[9] == 0x00000000 && EMPTY[10] == 0x00000000 && EMPTY[11] == 0x00000000
            && EMPTY[12] == 0x00000000 && EMPTY[13] == 0x00000000 && EMPTY[14] == 0x00000000
            && EMPTY[15] == 0x00000000 {}

  lemma EmptyFresh0()
    ensures && FreshIs(0, Quad(0x67452301, 0xefcdab89, 0x98badcfe, 0x10325476), 0x00000080, 7, 0xd76aa478, 0xa5202774)
            && FreshIs(1, Quad(0x10325476, 0xa5202774, 0xefcdab89, 0x98badcfe), 0x00000000, 12, 0xe8c7b756, 0xf59592dd)
            && FreshIs(2, Quad(0x98badcfe, 0xf59592dd, 0xa5202774, 0xefcdab89), 0x00000000, 17, 0x242070db, 0xe7f06b23)
            && FreshIs(3, Quad(0xefcdab89, 0xe7f06b23, 0xf59592dd, 0xa5202774), 0x00000000, 22, 0xc1bdceee, 0x1b163203)
            && FreshIs(4, Quad(0xa5202774, 0x1b163203, 0xe7f06b23, 0xf59592dd), 0x00000000, 7, 0xf57c0faf, 0x32033344)
            && FreshIs(5, Quad(0xf59592dd, 0x32033344, 0x1b163203, 0xe7f06b23), 0x00000000, 12, 0x4787c62a, 0x2f35d494)
            && FreshIs(6, Quad(0xe7f06b23, 0x2f35d494, 0x32033344, 0x1b163203), 0x00000000, 17, 0xa8304613, 0xf5b158db)
            && FreshIs(7, Quad(0x1b163203, 0xf5b158db, 0x2f35d494, 0x32033344), 0x00000000, 22, 0xfd469501, 0x9bc13ce9)
  {
  }

  lemma EmptyEight0()
    ensures Eight(0, Quad(0x67452301, 0xefcdab89, 0x98badcfe, 0x10325476), EMPTY)
            == Quad(0x32033344, 0x9bc13ce9, 0xf5b158db, 0x2f35d494)
  {
    hide Fresh, Aux, WordAt, Amount, Sine, EMPTY;
    Rows0(); EmptyFresh0(); EmptyWords();
  }

  lemma EmptyFresh8()
    ensures && FreshIs(8, Quad(0x32033344, 0x9bc13ce9, 0xf5b158db, 0x2f35d494), 0x00000000, 7, 0x698098d8, 0x3893b991)
            && FreshIs(9, Quad(0x2f35d494, 0x3893b991, 0x9bc13ce9, 0xf5b158db), 0x00000000, 12, 0x8b44f7af, 0xfce4a312)
            && FreshIs(10, Quad(0xf5b158db, 0xfce4a312, 0x3893b991, 0x9bc13ce9), 0x00000000, 17, 0xffff5bb1, 0xe1ef0576)
            && FreshIs(11, Quad(0x9bc13ce9, 0xe1ef0576, 0xfce4a312, 0x3893b991), 0x00000000, 22, 0x895cd7be, 0x70768a29)
            && FreshIs(12, Quad(0x3893b991, 0x70768a29, 0xe1ef0576, 0xfce4a312), 0x00000000, 7, 0x6b901122, 0xf56c7cf1)
            && FreshIs(13, Quad(0xfce4a312, 0xf56c7cf1, 0x70768a29, 0xe1ef0576), 0x00000000, 12, 0xfd987193, 0x374943a7)
            && FreshIs(14, Quad(0xe1ef0576, 0x374943a7, 0xf56c7cf1, 0x70768a29), 0x00000000, 17, 0xa679438e, 0x5aa53f75)
            && FreshIs(15, Quad(0x70768a29, 0x5aa53f75, 0x374943a7, 0xf56c7cf1), 0x00000000, 22, 0x49b40821, 0xd6819c6a)
  {
  }

  lemma EmptyEight8()
    ensures Eight(8, Quad(0x32033344, 0x9bc13ce9, 0xf5b158db, 0x2f35d494), EMPTY)
            == Quad(0xf56c7cf1, 0xd6819c6a, 0x5aa53f75, 0x374943a7)
  {
    hide Fresh, Aux, WordAt, Amount, Sine, EMPTY;
    Rows8(); EmptyFresh8(); EmptyWords();
  }

  lemma EmptyFresh16()
    ensures && FreshIs(16, Quad(0xf56c7cf1, 0xd6819c6a, 0x5aa53f75, 0x374943a7), 0x00000000, 5, 0xf61e2562, 0x1c7d7513)
            && FreshIs(17, Quad(0x374943a7, 0x1c7d7513, 0xd6819c6a, 0x5aa53f75), 0x00000000, 9, 0xc040b340, 0x7bd57a3a)
            && FreshIs(18, Quad(0x5aa53f75, 0x7bd57a3a, 0x1c7d7513, 0xd6819c6a), 0x00000000, 14, 0x265e5a51, 0xc095f13a)
            && FreshIs(19, Quad(0xd6819c6a, 0xc095f13a, 0x7bd57a3a, 0x1c7d7513), 0x00000080, 20, 0xe9b6c7aa, 0xbd782e17)
            && FreshIs(20, Quad(0x1c7d7513, 0xbd782e17, 0xc095f13a, 0x7bd57a3a), 0x00000000, 5, 0xd62f105d, 0x3d1e3e6c)
            && FreshIs(21, Quad(0x7bd57a3a, 0x3d1e3e6c, 0xbd782e17, 0xc095f13a), 0x00000000, 9, 0x02441453, 0x68b7b3e3)
            && FreshIs(22, Quad(0xc095f13a, 0x68b7b3e3, 0x3d1e3e6c, 0xbd782e17), 0x00000000, 14, 0xd8a1e681, 0xeb41643e)
            && FreshIs(23, Quad(0xbd782e17, 0xeb41643e, 0x68b7b3e3, 0x3d1e3e6c), 0x00000000, 20, 0xe7d3fbc8, 0xe422531a)
  {
  }

  lemma EmptyEight16()
    ensures Eight(16, Quad(0xf56c7cf1, 0xd6819c6a, 0x5aa53f75, 0x374943a7), EMPTY)
            == Quad(0x3d1e3e6c, 0xe422531a, 0xeb41643e, 0x68b7b3e3)
  {
    hide Fresh, Aux, WordAt, Amount, Sine, EMPTY;
    Rows16(); EmptyFresh16(); EmptyWords();
  }

  lemma EmptyFresh24()
    ensures && FreshIs(24, Quad(0x3d1e3e6c, 0xe422531a, 0xeb41643e, 0x68b7b3e3), 0x00000000, 5, 0x21e1cde6, 0x306ec122)
            && FreshIs(25, Quad(0x68b7b3e3, 0x306ec122, 0xe422531a, 0xeb41643e), 0x00000000, 9, 0xc33707d6, 0xd28c77c2)
            && FreshIs(26, Quad(0xeb41643e, 0xd28c77c2, 0x306ec122, 0xe422531a), 0x00000000, 14, 0xf4d50d87, 0xa3c663da)
            && FreshIs(27, Quad(0xe422531a, 0xa3c663da, 0xd28c77c2, 0x306ec122), 0x00000000, 20, 0x455a14ed, 0xa0572807)
            && FreshIs(28, Quad(0x306ec122, 0xa0572807, 0xa3c663da, 0xd28c77c2), 0x00000000, 5, 0xa9e3e905, 0x13707036)
            && FreshIs(29, Quad(0xd28c77c2, 0x13707036, 0xa0572807, 0xa3c663da), 0x00000000, 9, 0xfcefa3f8, 0xae7813db)
            && FreshIs(30, Quad(0xa3c663da, 0xae7813db, 0x13707036, 0xa0572807), 0x00000000, 14, 0x676f02d9, 0x1c31c384)
            && FreshIs(31, Quad(0xa0572807, 0x1c31c384, 0xae7813db, 0x13707036), 0x00000000, 20, 0x8d2a4c8a, 0xa2205f1f)
  {
  }

  lemma EmptyEight24()
    ensures Eight(24, Quad(0x3d1e3e6c, 0xe422531a, 0xeb41643e, 0x68b7b3e3), EMPTY)
            == Quad(0x13707036, 0xa2205f1f, 0x1c31c384, 0xae7813db)
  {
    hide Fresh, Aux, WordAt, Amount, Sine, EMPTY;
    Rows24(); EmptyFresh24(); EmptyWords();
  }

  lemma EmptyFresh32()
    ensures && FreshIs(32, Quad(0x13707036, 0xa2205f1f, 0x1c31c384, 0xae7813db), 0x00000000, 4, 0xfffa3942, 0xdf63eaa1)
            && FreshIs(33, Quad(0xae7813db, 0xdf63eaa1, 0xa2205f1f, 0x1c31c384), 0x00000000, 11, 0x8771f681, 0xc3689f5b)
            && FreshIs(34, Quad(0x1c31c384, 0xc3689f5b, 0xdf63eaa1, 0xa2205f1f), 0x00000000, 16, 0x6d9d6122, 0x12f3e755)
            && FreshIs(35, Quad(0xa2205f1f, 0x12f3e755, 0xc3689f5b, 0xdf63eaa1), 0x00000000, 23, 0xfde5380c, 0x004b6669)
            && FreshIs(36, Quad(0xdf63eaa1, 0x004b6669, 0x12f3e755, 0xc3689f5b), 0x00000000, 4, 0xa4beea44, 0x5f7a9b2e)
            && FreshIs(37, Quad(0xc3689f5b, 0x5f7a9b2e, 0x004b6669, 0x12f3e755), 0x00000000, 11, 0x4bdecfa9, 0xabc34e16)
            && FreshIs(38, Quad(0x12f3e755, 0xabc34e16, 0x5f7a9b2e, 0x004b6669), 0x00000000, 16, 0xf6bb4b60, 0x91ca4cb7)
            && FreshIs(39, Quad(0x004b6669, 0x91ca4cb7, 0xabc34e16, 0x5f7a9b2e), 0x00000000, 23, 0xbebfbc70, 0xc5dc8c15)
  {
  }

  lemma EmptyEight32()
    ensures Eight(32, Quad(0x13707036, 0xa2205f1f, 0x1c31c384, 0xae7813db), EMPTY)
            == Quad(0x5f7a9b2e, 0xc5dc8c15, 0x91ca4cb7, 0xabc34e16)
  {
    hide Fresh, Aux, WordAt, Amount, Sine, EMPTY;
    Rows32(); EmptyFresh32(); EmptyWords();
  }

  lemma EmptyFresh40()
    ensures && FreshIs(40, Quad(0x5f7a9b2e, 0xc5dc8c15, 0x91ca4cb7, 0xabc34e16), 0x00000000, 4, 0x289b7ec6, 0x4497169d)
            && FreshIs(41, Quad(0xabc34e16, 0x4497169d, 0xc5dc8c15, 0x91ca4cb7), 0x00000080, 11, 0xeaa127fa, 0x76fd93d4)
            && FreshIs(42, Quad(0x91ca4cb7, 0x76fd93d4, 0x4497169d, 0xc5dc8c15), 0x00000000, 16, 0xd4ef3085, 0xfd95f243)
            && FreshIs(43, Quad(0xc5dc8c15, 0xfd95f243, 0x76fd93d4, 0x4497169d), 0x00000000, 23, 0x04881d05, 0x0fe32453)
            && FreshIs(44, Quad(0x4497169d, 0x0fe32453, 0xfd95f243, 0x76fd93d4), 0x00000000, 4, 0xd9d4d039, 0x3f55edfd)
            && FreshIs(45, Quad(0x76fd93d4, 0x3f55edfd, 0x0fe32453, 0xfd95f243), 0x00000000, 11, 0xe6db99e5, 0x22a31f54)
            && FreshIs(46, Quad(0xfd95f243, 0x22a31f54, 0x3f55edfd, 0x0fe32453), 0x00000000, 16, 0x1fa27cf8, 0x68d84ea2)
            && FreshIs(47, Quad(0x0fe32453, 0x68d84ea2, 0x22a31f54, 0x3f55edfd), 0x00000000, 23, 0xc4ac5665, 0xca7d2dbd)
  {
  }

  lemma EmptyEight40()
    ensures Eight(40, Quad(0x5f7a9b2e, 0xc5dc8c15, 0x91ca4cb7, 0xabc34e16), EMPTY)
            == Quad(0x3f55edfd, 0xca7d2dbd, 0x68d84ea2, 0x22a31f54)
  {
    hide Fresh, Aux, WordAt, Amount, Sine, EMPTY;
    Rows40(); EmptyFresh40(); EmptyWords();
  }

  lemma EmptyFresh48()
    ensures && FreshIs(48, Quad(0x3f55edfd, 0xca7d2dbd, 0x68d84ea2, 0x22a31f54), 0x00000080, 6, 0xf4292244, 0x93aa2577)
            && FreshIs(49, Quad(0x22a31f54, 0x93aa2577, 0xca7d2dbd, 0x68d84ea2), 0x00000000, 10, 0x432aff97, 0x1688dc85)
            && FreshIs(50, Quad(0x68d84ea2, 0x1688dc85, 0x93aa2577, 0xca7d2dbd), 0x00000000, 15, 0xab9423a7, 0xcd85b8cb)
            && FreshIs(51, Quad(0xca7d2dbd, 0xcd85b8cb, 0x1688dc85, 0x93aa2577), 0x00000000, 21, 0xfc93a039, 0x561e0689)
            && FreshIs(52, Quad(0x93aa2577, 0x561e0689, 0xcd85b8cb, 0x1688dc85), 0x00000000, 6, 0x655b59c3, 0x5625a114)
            && FreshIs(53, Quad(0x1688dc85, 0x5625a114, 0x561e0689, 0xcd85b8cb), 0x00000000, 10, 0x8f0ccc92, 0x3450f42b)
            && FreshIs(54, Quad(0xcd85b8cb, 0x3450f42b, 0x5625a114, 0x561e0689), 0x00000000, 15, 0xffeff47d, 0x392ad0d0)
            && FreshIs(55, Quad(0x561e0689, 0x392ad0d0, 0x3450f42b, 0x5625a114), 0x00000000, 21, 0x85845dd1, 0x1e77fa61)
  {
  }

  lemma EmptyEight48()
    ensures Eight(48, Quad(0x3f55edfd, 0xca7d2dbd, 0x68d84ea2, 0x22a31f54), EMPTY)
            == Quad(0x5625a114, 0x1e77fa61, 0x392ad0d0, 0x3450f42b)
  {
    hide Fresh, Aux, WordAt, Amount, Sine, EMPTY;
    Rows48(); EmptyFresh48(); EmptyWords();
  }

  lemma EmptyFresh56()
    ensures && FreshIs(56, Quad(0x5625a114, 0x1e77fa61, 0x392ad0d0, 0x3450f42b), 0x00000000, 6, 0x6fa87e4f, 0x474a9c8c)
            && FreshIs(57, Quad(0x3450f42b, 0x474a9c8c, 0x1e77fa61, 0x392ad0d0), 0x00000000, 10, 0xfe2ce6e0, 0xdfce00bc)
            && FreshIs(58, Quad(0x392ad0d0, 0xdfce00bc, 0x474a9c8c, 0x1e77fa61), 0x00000000, 15, 0xa3014314, 0x36594b14)
            && FreshIs(59, Quad(0x1e77fa61, 0x36594b14, 0xdfce00bc, 0x474a9c8c), 0x00000000, 21, 0x4e0811a1, 0x30130182)
            && FreshIs(60, Quad(0x474a9c8c, 0x30130182, 0x36594b14, 0xdfce00bc), 0x00000000, 6, 0xf7537e82, 0x7246fad3)
            && FreshIs(61, Quad(0xdfce00bc, 0x7246fad3, 0x30130182, 0x36594b14), 0x00000000, 10, 0xbd3af235, 0x6e10a476)
            && FreshIs(62, Quad(0x36594b14, 0x6e10a476, 0x7246fad3, 0x30130182), 0x00000000, 15, 0x2ad7d2bb, 0xff4ea3eb)
            && FreshIs(63, Quad(0x30130182, 0xff4ea3eb, 0x6e10a476, 0x7246fad3), 0x00000000, 21, 0xeb86d391, 0x14e45506)
  {
  }

  lemma EmptyEight56()
    ensures Eight(56, Quad(0x5625a114, 0x1e77fa61, 0x392ad0d0, 0x3450f42b), EMPTY)
            == Quad(0x7246fad3, 0x14e45506, 0xff4ea3eb, 0x6e10a476)
  {
    hide Fresh, Aux, WordAt, Amount, Sine, EMPTY;
    Rows56(); EmptyFresh56(); EmptyWords();
  }

  lemma EmptySteps()
    ensures Steps(64, Quad(0x67452301, 0xefcdab89, 0x98badcfe, 0x10325476), EMPTY)
            == Quad(0x7246fad3, 0x14e45506, 0xff4ea3eb, 0x6e10a476)
  {
    hide Eight, Steps, EMPTY;
    var q := Quad(0x67452301, 0xefcdab89, 0x98badcfe, 0x10325476);
    EmptyWords(); NoSteps(q, EMPTY);
    EightSteps(0, q, EMPTY); EmptyEight0();
    EightSteps(8, q, EMPTY); EmptyEight8();
    EightSteps(16, q, EMPTY); EmptyEight16();
    EightSteps(24, q, EMPTY); EmptyEight24();
    EightSteps(32, q, EMPTY); EmptyEight32();
    EightSteps(40, q, EMPTY); EmptyEight40();
    EightSteps(48, q, EMPTY); EmptyEight48();
    EightSteps(56, q, EMPTY); EmptyEight56();
  }

  lemma EmptyLength()
    ensures LengthBytes(0) == [0x00, 0x00, 0x00, 0x00, 0x00, 0x00, 0x00, 0x00]
  {
    hide WordBytes, BitLength, Bv, Encoded;
    TwoEncoded(0x00000000, 0);
    EmptyBits(); EmptyLowBytes(); ZeroBytes();
  }

  lemma EmptyBits() ensures BitLength(0) == 0 && Bv(0) == 0x00000000 {}

  lemma EmptyLowBytes() ensures WordBytes(0x00000000) == [0x00, 0x00, 0x00, 0x00] {}

  lemma EmptyPadded(m: seq<bv8>)
    requires m == []
    ensures var b := Padded(m);
            && |b| == 64 && b[0] == 0x80 && b[1] == 0x00 && b[2] == 0x00 && b[3] == 0x00
            && (forall j | 4 <= j < 56 :: b[j] == 0) && b[56..] == [0x00, 0x00, 0x00, 0x00, 0x00, 0x00, 0x00, 0x00]
  {
    hide LengthBytes;
    EmptyLength();
  }

  /** The only block of the padded message. */
  lemma EmptyBlock(m: seq<bv8>)
    requires m == []
    ensures OneBlock(m, EMPTY)
  {
    hide Word, Decoded, Padded, EMPTY;
    var b := Padded(m);
    EmptyPadded(m); EmptyWords(); WordZero(); EmptyFirst(); EmptyLast();
    WordOfFour(b, 0, 0x80, 0x00, 0x00, 0x00);
    forall i | 1 <= i < 14 ensures Decoded(b)[i] == 0 { WordOfFour(b, i, 0, 0, 0, 0); }
    assert b[56] == b[56..][0] && b[57] == b[56..][1] && b[58] == b[56..][2] && b[59] == b[56..][3];
    assert b[60] == b[56..][4] && b[61] == b[56..][5] && b[62] == b[56..][6] && b[63] == b[56..][7];
    WordOfFour(b, 14, 0x00, 0x00, 0x00, 0x00);
    WordOfFour(b, 15, 0, 0, 0, 0);
  }

  lemma EmptyFirst() ensures Word([0x80, 0x00, 0x00, 0x00]) == 0x00000080 {}

  lemma EmptyLast() ensures Word([0x00, 0x00, 0x00, 0x00]) == 0x00000000 {}

  lemma EmptyBytes()
    ensures Add(Quad(0x67452301, 0xefcdab89, 0x98badcfe, 0x10325476),
                Quad(0x7246fad3, 0x14e45506, 0xff4ea3eb, 0x6e10a476))
            == Quad(0xd98c1dd4, 0x04b2008f, 0x980980e9, 0x7e42f8ec)
    ensures Encoded([0xd98c1dd4, 0x04b2008f, 0x980980e9, 0x7e42f8ec])
            == [0xd4, 0x1d, 0x8c, 0xd9, 0x8f, 0x00, 0xb2, 0x04, 0xe9, 0x80, 0x09, 0x98, 0xec, 0xf8, 0x42, 0x7e]
  {
    FourEncoded(0xd98c1dd4, 0x04b2008f, 0x980980e9, 0x7e42f8ec);
  }

  /** MD5 ("") = d41d8cd98f00b204e9800998ecf8427e */
  lemma EmptyDigest()
    ensures Digest([])
            == [0xd4, 0x1d, 0x8c, 0xd9, 0x8f, 0x00, 0xb2, 0x04, 0xe9, 0x80, 0x09, 0x98, 0xec, 0xf8, 0x42, 0x7e]
  {
    hide Word, Decoded, Encoded, Padded, Steps, Add, EMPTY;
    var b := Padded([]);
    EmptyBlock([]); EmptySteps(); EmptyBytes();
    assert b[..0] == [] && b[0..] == b;
  }

  // ---------------------------------------------------------------------- the message "abc"

  const ABC: seq<bv32> := [
    0x80636261, 0x00000000, 0x00000000, 0x00000000, 0x00000000, 0x00000000, 0x00000000, 0x00000000,
    0x00000000, 0x00000000, 0x00000000, 0x00000000, 0x00000000, 0x00000000, 0x00000018, 0x00000000
  ]

  lemma AbcWords()
    ensures |ABC| == 16
            && ABC[0] == 0x80636261 && ABC[1] == 0x00000000 && ABC[2] == 0x00000000
            && ABC[3] == 0x00000000 && ABC[4] == 0x00000000 && ABC[5] == 0x00000000
            && ABC[6] == 0x00000000 && ABC[7] == 0x00000000 && ABC[8] == 0x00000000
            && ABC[9] == 0x00000000 && ABC[10] == 0x00000000 && ABC[11] == 0x00000000
            && ABC[12] == 0x00000000 && ABC[13] == 0x00000000 && ABC[14] == 0x00000018
            && ABC[15] == 0x00000000 {}

  lemma AbcFresh0()
    ensures && FreshIs(0, Quad(0x67452301, 0xefcdab89, 0x98badcfe, 0x10325476), 0x80636261, 7, 0xd76aa478, 0xd6d117b4)
            && FreshIs(1, Quad(0x10325476, 0xd6d117b4, 0xefcdab89, 0x98badcfe), 0x00000000, 12, 0xe8c7b756, 0x344a8432)
            && FreshIs(2, Quad(0x98badcfe, 0x344a8432, 0xd6d117b4, 0xefcdab89), 0x00000000, 17, 0x242070db, 0x2f6fbd72)
            && FreshIs(3, Quad(0xefcdab89, 0x2f6fbd72, 0x344a8432, 0xd6d117b4), 0x00000000, 22, 0xc1bdceee, 0x7ad956f2)
            && FreshIs(4, Quad(0xd6d117b4, 0x7ad956f2, 0x2f6fbd72, 0x344a8432), 0x00000000, 7, 0xf57c0faf, 0xc73741ef)
            && FreshIs(5, Quad(0x344a8432, 0xc73741ef, 0x7ad956f2, 0x2f6fbd72), 0x00000000, 12, 0x4787c62a, 0x8bac3051)
            && FreshIs(6, Quad(0x2f6fbd72, 0x8bac3051, 0xc73741ef, 0x7ad956f2), 0x00000000, 17, 0xa8304613, 0x207dc67b)
            && FreshIs(7, Quad(0x7ad956f2, 0x207dc67b, 0x8bac3051, 0xc73741ef), 0x00000000, 22, 0xfd469501, 0x928d99f6)
  {
  }

  lemma AbcEight0()
    ensures Eight(0, Quad(0x67452301, 0xefcdab89, 0x98badcfe, 0x10325476), ABC)
            == Quad(0xc73741ef, 0x928d99f6, 0x207dc67b, 0x8bac3051)
  {
    hide Fresh, Aux, WordAt, Amount, Sine, ABC;
    Rows0(); AbcFresh0(); AbcWords();
  }

  lemma AbcFresh8()
    ensures && FreshIs(8, Quad(0xc73741ef, 0x928d99f6, 0x207dc67b, 0x8bac3051), 0x00000000, 7, 0x698098d8, 0x854b3712)
            && FreshIs(9, Quad(0x8bac3051, 0x854b3712, 0x928d99f6, 0x207dc67b), 0x00000000, 12, 0x8b44f7af, 0x74e2f284)
            && FreshIs(10, Quad(0x207dc67b, 0x74e2f284, 0x854b3712, 0x928d99f6), 0x00000000, 17, 0xffff5bb1, 0x3020401c)
            && FreshIs(11, Quad(0x928d99f6, 0x3020401c, 0x74e2f284, 0x854b3712), 0x00000000, 22, 0x895cd7be, 0x5ed49596)
            && FreshIs(12, Quad(0x854b3712, 0x5ed49596, 0x3020401c, 0x74e2f284), 0x00000000, 7, 0x6b901122, 0xdda9b9a6)
            && FreshIs(13, Quad(0x74e2f284, 0xdda9b9a6, 0x5ed49596, 0x3020401c), 0x00000000, 12, 0xfd987193, 0xa1051895)
            && FreshIs(14, Quad(0x3020401c, 0xa1051895, 0xdda9b9a6, 0x5ed49596), 0x00000018, 17, 0xa679438e, 0xe396856b)
            && FreshIs(15, Quad(0x5ed49596, 0xe396856b, 0xa1051895, 0xdda9b9a6), 0x00000000, 22, 0x49b40821, 0x72aff2e0)
  {
  }

  lemma AbcEight8()
    ensures Eight(8, Quad(0xc73741ef, 0x928d99f6, 0x207dc67b, 0x8bac3051), ABC)
            == Quad(0xdda9b9a6, 0x72aff2e0, 0xe396856b, 0xa1051895)
  {
    hide Fresh, Aux, WordAt, Amount, Sine, ABC;
    Rows8(); AbcFresh8(); AbcWords();
  }

  lemma AbcFresh16()
    ensures && FreshIs(16, Quad(0xdda9b9a6, 0x72aff2e0, 0xe396856b, 0xa1051895), 0x00000000, 5, 0xf61e2562, 0x3e9e9126)
            && FreshIs(17, Quad(0xa1051895, 0x3e9e9126, 0x72aff2e0, 0xe396856b), 0x00000000, 9, 0xc040b340, 0x4a1d804e)
            && FreshIs(18, Quad(0xe396856b, 0x4a1d804e, 0x3e9e9126, 0x72aff2e0), 0x00000000, 14, 0x265e5a51, 0xe25e1652)
            && FreshIs(19, Quad(0x72aff2e0, 0xe25e1652, 0x4a1d804e, 0x3e9e9126), 0x80636261, 20, 0xe9b6c7aa, 0xb5b204e4)
            && FreshIs(20, Quad(0x3e9e9126, 0xb5b204e4, 0xe25e1652, 0x4a1d804e), 0x00000000, 5, 0xd62f105d, 0x59a8ffda)
            && FreshIs(21, Quad(0x4a1d804e, 0x59a8ffda, 0xb5b204e4, 0xe25e1652), 0x00000000, 9, 0x02441453, 0x6d002f1e)
            && FreshIs(22, Quad(0xe25e1652, 0x6d002f1e, 0x59a8ffda, 0xb5b204e4), 0x00000000, 14, 0xd8a1e681, 0xabfc7920)
            && FreshIs(23, Quad(0xb5b204e4, 0xabfc7920, 0x6d002f1e, 0x59a8ffda), 0x00000000, 20, 0xe7d3fbc8, 0x47092c07)
  {
  }

  lemma AbcEight16()
    ensures Eight(16, Quad(0xdda9b9a6, 0x72aff2e0, 0xe396856b, 0xa1051895), ABC)
            == Quad(0x59a8ffda, 0x47092c07, 0xabfc7920, 0x6d002f1e)
  {
    hide Fresh, Aux, WordAt, Amount, Sine, ABC;
    Rows16(); AbcFresh16(); AbcWords();
  }

  lemma AbcFresh24()
    ensures && FreshIs(24, Quad(0x59a8ffda, 0x47092c07, 0xabfc7920, 0x6d002f1e), 0x00000000, 5, 0x21e1cde6, 0xb7f268cf)
            && FreshIs(25, Quad(0x6d002f1e, 0xb7f268cf, 0x47092c07, 0xabfc7920), 0x00000018, 9, 0xc33707d6, 0x09388eff)
            && FreshIs(26, Quad(0xabfc7920, 0x09388eff, 0xb7f268cf, 0x47092c07), 0x00000000, 14, 0xf4d50d87, 0xfe1623b1)
            && FreshIs(27, Quad(0x47092c07, 0xfe1623b1, 0x09388eff, 0xb7f268cf), 0x00000000, 20, 0x455a14ed, 0x786acb8f)
            && FreshIs(28, Quad(0xb7f268cf, 0x786acb8f, 0xfe1623b1, 0x09388eff), 0x00000000, 5, 0xa9e3e905, 0x790a77fb)
            && FreshIs(29, Quad(0x09388eff, 0x790a77fb, 0x786acb8f, 0xfe1623b1), 0x00000000, 9, 0xfcefa3f8, 0x9f47e4f8)
            && FreshIs(30, Quad(0xfe1623b1, 0x9f47e4f8, 0x790a77fb, 0x786acb8f), 0x00000000, 14, 0x676f02d9, 0xa62884aa)
            && FreshIs(31, Quad(0x786acb8f, 0xa62884aa, 0x9f47e4f8, 0x790a77fb), 0x00000000, 20, 0x8d2a4c8a, 0x726342d3)
  {
  }

  lemma AbcEight24()
    ensures Eight(24, Quad(0x59a8ffda, 0x47092c07, 0xabfc7920, 0x6d002f1e), ABC)
            == Quad(0x790a77fb, 0x726342d3, 0xa62884aa, 0x9f47e4f8)
  {
    hide Fresh, Aux, WordAt, Amount, Sine, ABC;
    Rows24(); AbcFresh24(); AbcWords();
  }

  lemma AbcFresh32()
    ensures && FreshIs(32, Quad(0x790a77fb, 0x726342d3, 0xa62884aa, 0x9f47e4f8), 0x00000000, 4, 0xfffa3942, 0xb3707ebf)
            && FreshIs(33, Quad(0x9f47e4f8, 0xb3707ebf, 0x726342d3, 0xa62884aa), 0x00000000, 11, 0x8771f681, 0x60127b2e)
            && FreshIs(34, Quad(0xa62884aa, 0x60127b2e, 0xb3707ebf, 0x726342d3), 0x00000000, 16, 0x6d9d6122, 0x8d212ff5)
            && FreshIs(35, Quad(0x726342d3, 0x8d212ff5, 0x60127b2e, 0xb3707ebf), 0x00000018, 23, 0xfde5380c, 0x3b0875c7)
            && FreshIs(36, Quad(0xb3707ebf, 0x3b0875c7, 0x8d212ff5, 0x60127b2e), 0x00000000, 4, 0xa4beea44, 0x21b117b9)
            && FreshIs(37, Quad(0x60127b2e, 0x21b117b9, 0x3b0875c7, 0x8d212ff5), 0x00000000, 11, 0x4bdecfa9, 0x6e7429d5)
            && FreshIs(38, Quad(0x8d212ff5, 0x6e7429d5, 0x21b117b9, 0x3b0875c7), 0x00000000, 16, 0xf6bb4b60, 0x3575227e)
            && FreshIs(39, Quad(0x3b0875c7, 0x3575227e, 0x6e7429d5, 0x21b117b9), 0x00000000, 23, 0xbebfbc70, 0x5a2f5ea5)
  {
  }

  lemma AbcEight32()
    ensures Eight(32, Quad(0x790a77fb, 0x726342d3, 0xa62884aa, 0x9f47e4f8), ABC)
            == Quad(0x21b117b9, 0x5a2f5ea5, 0x3575227e, 0x6e7429d5)
  {
    hide Fresh, Aux, WordAt, Amount, Sine, ABC;
    Rows32(); AbcFresh32(); AbcWords();
  }

  lemma AbcFresh40()
    ensures && FreshIs(40, Quad(0x21b117b9, 0x5a2f5ea5, 0x3575227e, 0x6e7429d5), 0x00000000, 4, 0x289b7ec6, 0x11de1779)
            && FreshIs(41, Quad(0x6e7429d5, 0x11de1779, 0x5a2f5ea5, 0x3575227e), 0x80636261, 11, 0xeaa127fa, 0xfadcaa38)
            && FreshIs(42, Quad(0x3575227e, 0xfadcaa38, 0x11de1779, 0x5a2f5ea5), 0x00000000, 16, 0xd4ef3085, 0x31c465ca)
            && FreshIs(43, Quad(0x5a2f5ea5, 0x31c465ca, 0xfadcaa38, 0x11de1779), 0x00000000, 23, 0x04881d05, 0x4c6124f4)
            && FreshIs(44, Quad(0x11de1779, 0x4c6124f4, 0x31c465ca, 0xfadcaa38), 0x00000000, 4, 0xd9d4d039, 0x7f2e507b)
            && FreshIs(45, Quad(0xfadcaa38, 0x7f2e507b, 0x4c6124f4, 0x31c465ca), 0x00000000, 11, 0xe6db99e5, 0x99d9679d)
            && FreshIs(46, Quad(0x31c465ca, 0x99d9679d, 0x7f2e507b, 0x4c6124f4), 0x00000000, 16, 0x1fa27cf8, 0x8fae6399)
            && FreshIs(47, Quad(0x4c6124f4, 0x8fae6399, 0x99d9679d, 0x7f2e507b), 0x00000000, 23, 0xc4ac5665, 0x7beb9700)
  {
  }

  lemma AbcEight40()
    ensures Eight(40, Quad(0x21b117b9, 0x5a2f5ea5, 0x3575227e, 0x6e7429d5), ABC)
            == Quad(0x7f2e507b, 0x7beb9700, 0x8fae6399, 0x99d9679d)
  {
    hide Fresh, Aux, WordAt, Amount, Sine, ABC;
    Rows40(); AbcFresh40(); AbcWords();
  }

  lemma AbcFresh48()
    ensures && FreshIs(48, Quad(0x7f2e507b, 0x7beb9700, 0x8fae6399, 0x99d9679d), 0x80636261, 6, 0xf4292244, 0x7b201df8)
            && FreshIs(49, Quad(0x99d9679d, 0x7b201df8, 0x7beb9700, 0x8fae6399), 0x00000000, 10, 0x432aff97, 0xf4e8e96e)
            && FreshIs(50, Quad(0x8fae6399, 0xf4e8e96e, 0x7b201df8, 0x7beb9700), 0x00000018, 15, 0xab9423a7, 0xb298cefd)
            && FreshIs(51, Quad(0x7beb9700, 0xb298cefd, 0xf4e8e96e, 0x7b201df8), 0x00000000, 21, 0xfc93a039, 0x8bf025c4)
            && FreshIs(52, Quad(0x7b201df8, 0x8bf025c4, 0xb298cefd, 0xf4e8e96e), 0x00000000, 6, 0x655b59c3, 0x06cc5e8a)
            && FreshIs(53, Quad(0xf4e8e96e, 0x06cc5e8a, 0x8bf025c4, 0xb298cefd), 0x00000000, 10, 0x8f0ccc92, 0x5b0d97aa)
            && FreshIs(54, Quad(0xb298cefd, 0x5b0d97aa, 0x06cc5e8a, 0x8bf025c4), 0x00000000, 15, 0xffeff47d, 0x7d632dd0)
            && FreshIs(55, Quad(0x8bf025c4, 0x7d632dd0, 0x5b0d97aa, 0x06cc5e8a), 0x00000000, 21, 0x85845dd1, 0x3bfa2c27)
  {
  }

  lemma AbcEight48()
    ensures Eight(48, Quad(0x7f2e507b, 0x7beb9700, 0x8fae6399, 0x99d9679d), ABC)
            == Quad(0x06cc5e8a, 0x3bfa2c27, 0x7d632dd0, 0x5b0d97aa)
  {
    hide Fresh, Aux, WordAt, Amount, Sine, ABC;
    Rows48(); AbcFresh48(); AbcWords();
  }

  lemma AbcFresh56()
    ensures && FreshIs(56, Quad(0x06cc5e8a, 0x3bfa2c27, 0x7d632dd0, 0x5b0d97aa), 0x00000000, 6, 0x6fa87e4f, 0x7f81cc35)
            && FreshIs(57, Quad(0x5b0d97aa, 0x7f81cc35, 0x3bfa2c27, 0x7d632dd0), 0x00000000, 10, 0xfe2ce6e0, 0x094454ab)
            && FreshIs(58, Quad(0x7d632dd0, 0x094454ab, 0x7f81cc35, 0x3bfa2c27), 0x00000000, 15, 0xa3014314, 0x4f9dbe3f)
            && FreshIs(59, Quad(0x3bfa2c27, 0x4f9dbe3f, 0x094454ab, 0x7f81cc35), 0x00000000, 21, 0x4e0811a1, 0x7327d604)
            && FreshIs(60, Quad(0x7f81cc35, 0x7327d604, 0x4f9dbe3f, 0x094454ab), 0x00000000, 6, 0xf7537e82, 0x310ade8f)
            && FreshIs(61, Quad(0x094454ab, 0x310ade8f, 0x7327d604, 0x4f9dbe3f), 0x00000000, 10, 0xbd3af235, 0x624d8cb2)
            && FreshIs(62, Quad(0x4f9dbe3f, 0x624d8cb2, 0x310ade8f, 0x7327d604), 0x00000000, 15, 0x2ad7d2bb, 0xe484b9d8)
            && FreshIs(63, Quad(0x7327d604, 0xe484b9d8, 0x624d8cb2, 0x310ade8f), 0x00000000, 21, 0xeb86d391, 0xc08226b3)
  {
  }

  lemma AbcEight56()
    ensures Eight(56, Quad(0x06cc5e8a, 0x3bfa2c27, 0x7d632dd0, 0x5b0d97aa), ABC)
            == Quad(0x310ade8f, 0xc08226b3, 0xe484b9d8, 0x624d8cb2)
  {
    hide Fresh, Aux, WordAt, Amount, Sine, ABC;
    Rows56(); AbcFresh56(); AbcWords();
  }

  lemma AbcSteps()
    ensures Steps(64, Quad(0x67452301, 0xefcdab89, 0x98badcfe, 0x10325476), ABC)
            == Quad(0x310ade8f, 0xc08226b3, 0xe484b9d8, 0x624d8cb2)
  {
    hide Eight, Steps, ABC;
    var q := Quad(0x67452301, 0xefcdab89, 0x98badcfe, 0x10325476);
    AbcWords(); NoSteps(q, ABC);
    EightSteps(0, q, ABC); AbcEight0();
    EightSteps(8, q, ABC); AbcEight8();
    EightSteps(16, q, ABC); AbcEight16();
    EightSteps(24, q, ABC); AbcEight24();
    EightSteps(32, q, ABC); AbcEight32();
    EightSteps(40, q, ABC); AbcEight40();
    EightSteps(48, q, ABC); AbcEight48();
    EightSteps(56, q, ABC); AbcEight56();
  }

  lemma AbcLength()
    ensures LengthBytes(3) == [0x18, 0x00, 0x00, 0x00, 0x00, 0x00, 0x00, 0x00]
  {
    hide WordBytes, BitLength, Bv, Encoded;
    TwoEncoded(0x00000018, 0);
    AbcBits(); AbcLowBytes(); ZeroBytes();
  }

  lemma AbcBits() ensures BitLength(3) == 24 && Bv(24) == 0x00000018 {}

  lemma AbcLowBytes() ensures WordBytes(0x00000018) == [0x18, 0x00, 0x00, 0x00] {}

  lemma AbcPadded(m: seq<bv8>)
    requires m == [0x61, 0x62, 0x63]
    ensures var b := Padded(m);
            && |b| == 64 && b[0] == 0x61 && b[1] == 0x62 && b[2] == 0x63 && b[3] == 0x80
            && (forall j | 4 <= j < 56 :: b[j] == 0) && b[56..] == [0x18, 0x00, 0x00, 0x00, 0x00, 0x00, 0x00, 0x00]
  {
    hide LengthBytes;
    AbcLength();
  }

  /** The only block of the padded message. */
  lemma AbcBlock(m: seq<bv8>)
    requires m == [0x61, 0x62, 0x63]
    ensures OneBlock(m, ABC)
  {
    hide Word, Decoded, Padded, ABC;
    var b := Padded(m);
    AbcPadded(m); AbcWords(); WordZero(); AbcFirst(); AbcLast();
    WordOfFour(b, 0, 0x61, 0x62, 0x63, 0x80);
    forall i | 1 <= i < 14 ensures Decoded(b)[i] == 0 { WordOfFour(b, i, 0, 0, 0, 0); }
    assert b[56] == b[56..][0] && b[57] == b[56..][1] && b[58] == b[56..][2] && b[59] == b[56..][3];
    assert b[60] == b[56..][4] && b[61] == b[56..][5] && b[62] == b[56..][6] && b[63] == b[56..][7];
    WordOfFour(b, 14, 0x18, 0x00, 0x00, 0x00);
    WordOfFour(b, 15, 0, 0, 0, 0);
  }

  lemma AbcFirst() ensures Word([0x61, 0x62, 0x63, 0x80]) == 0x80636261 {}

  lemma AbcLast() ensures Word([0x18, 0x00, 0x00, 0x00]) == 0x00000018 {}

  lemma AbcBytes()
    ensures Add(Quad(0x67452301, 0xefcdab89, 0x98badcfe, 0x10325476),
                Quad(0x310ade8f, 0xc08226b3, 0xe484b9d8, 0x624d8cb2))
            == Quad(0x98500190, 0xb04fd23c, 0x7d3f96d6, 0x727fe128)
    ensures Encoded([0x98500190, 0xb04fd23c, 0x7d3f96d6, 0x727fe128])
            == [0x90, 0x01, 0x50, 0x98, 0x3c, 0xd2, 0x4f, 0xb0, 0xd6, 0x96, 0x3f, 0x7d, 0x28, 0xe1, 0x7f, 0x72]
  {
    FourEncoded(0x98500190, 0xb04fd23c, 0x7d3f96d6, 0x727fe128);
  }

  /** MD5 ("abc") = 900150983cd24fb0d6963f7d28e17f72 */
  lemma AbcDigest()
    ensures Digest([0x61, 0x62, 0x63])
            == [0x90, 0x01, 0x50, 0x98, 0x3c, 0xd2, 0x4f, 0xb0, 0xd6, 0x96, 0x3f, 0x7d, 0x28, 0xe1, 0x7f, 0x72]
  {
    hide Word, Decoded, Encoded, Padded, Steps, Add, ABC;
    var b := Padded([0x61, 0x62, 0x63]);
    AbcBlock([0x61, 0x62, 0x63]); AbcSteps(); AbcBytes();
    assert b[..0] == [] && b[0..] == b;
  }
}
