/** The MD5 compression function: 64 written-out steps against the step table of RFC 1321. */
module Md5Block {
  import opened Bytes

  // ----------------------------------------------------------- the step table, section 3.4

  datatype Quad = Quad(a: bv32, b: bv32, c: bv32, d: bv32)

  function F(x: bv32, y: bv32, z: bv32): bv32 { (x & y) | (!x & z) }
  function G(x: bv32, y: bv32, z: bv32): bv32 { (x & z) | (y & !z) }
  function H(x: bv32, y: bv32, z: bv32): bv32 { x ^ y ^ z }
  function I(x: bv32, y: bv32, z: bv32): bv32 { y ^ (x | !z) }

  /** The auxiliary function of a step. */
  function Aux(n: nat, q: Quad): bv32 {
    if n < 16 then F(q.b, q.c, q.d) else if n < 32 then G(q.b, q.c, q.d)
    else if n < 48 then H(q.b, q.c, q.d) else I(q.b, q.c, q.d)
  }

  /** The message word a step takes. */
  function WordAt(n: nat): (k: nat)
    ensures k < 16
  {
    if n < 16 then n else if n < 32 then (5 * n + 1) % 16 else if n < 48 then (3 * n + 5) % 16 else (7 * n) % 16
  }

  /** The rotation of a step; four amounts take turns in each round. */
  function Amount(n: nat): (s: nat)
    ensures 0 < s < 32
  {
    if n < 16 then Turn(n, 7, 12, 17, 22) else if n < 32 then Turn(n, 5, 9, 14, 20)
    else if n < 48 then Turn(n, 4, 11, 16, 23) else Turn(n, 6, 10, 15, 21)
  }

  function Turn(n: nat, a: nat, b: nat, c: nat, d: nat): nat {
    var j := n % 4;
    if j == 0 then a else if j == 1 then b else if j == 2 then c else d
  }

  /** The table T of the standard, the integer part of 2^32 |sin(n + 1)|, sixteen steps at a time. */
  function Sine(n: nat): (t: nat)
    requires n < 64
    ensures t < 0x1_0000_0000
  {
    if n < 16 then SineF(n) else if n < 32 then SineG(n - 16) else if n < 48 then SineH(n - 32) else SineI(n - 48)
  }

  function SineF(j: nat): (t: nat)
    requires j < 16
    ensures t < 0x1_0000_0000
  {
    match j
    case 0 => 0xd76aa478
    case 1 => 0xe8c7b756
    case 2 => 0x242070db
    case 3 => 0xc1bdceee
    case 4 => 0xf57c0faf
    case 5 => 0x4787c62a
    case 6 => 0xa8304613
    case 7 => 0xfd469501
    case 8 => 0x698098d8
    case 9 => 0x8b44f7af
    case 10 => 0xffff5bb1
    case 11 => 0x895cd7be
    case 12 => 0x6b901122
    case 13 => 0xfd987193
    case 14 => 0xa679438e
    case _ => 0x49b40821
  }

  function SineG(j: nat): (t: nat)
    requires j < 16
    ensures t < 0x1_0000_0000
  {
    match j
    case 0 => 0xf61e2562
    case 1 => 0xc040b340
    case 2 => 0x265e5a51
    case 3 => 0xe9b6c7aa
    case 4 => 0xd62f105d
    case 5 => 0x2441453
    case 6 => 0xd8a1e681
    case 7 => 0xe7d3fbc8
    case 8 => 0x21e1cde6
    case 9 => 0xc33707d6
    case 10 => 0xf4d50d87
    case 11 => 0x455a14ed
    case 12 => 0xa9e3e905
    case 13 => 0xfcefa3f8
    case 14 => 0x676f02d9
    case _ => 0x8d2a4c8a
  }

  function SineH(j: nat): (t: nat)
    requires j < 16
    ensures t < 0x1_0000_0000
  {
    match j
    case 0 => 0xfffa3942
    case 1 => 0x8771f681
    case 2 => 0x6d9d6122
    case 3 => 0xfde5380c
    case 4 => 0xa4beea44
    case 5 => 0x4bdecfa9
    case 6 => 0xf6bb4b60
    case 7 => 0xbebfbc70
    case 8 => 0x289b7ec6
    case 9 => 0xeaa127fa
    case 10 => 0xd4ef3085
    case 11 => 0x4881d05
    case 12 => 0xd9d4d039
    case 13 => 0xe6db99e5
    case 14 => 0x1fa27cf8
    case _ => 0xc4ac5665
  }

  function SineI(j: nat): (t: nat)
    requires j < 16
    ensures t < 0x1_0000_0000
  {
    match j
    case 0 => 0xf4292244
    case 1 => 0x432aff97
    case 2 => 0xab9423a7
    case 3 => 0xfc93a039
    case 4 => 0x655b59c3
    case 5 => 0x8f0ccc92
    case 6 => 0xffeff47d
    case 7 => 0x85845dd1
    case 8 => 0x6fa87e4f
    case 9 => 0xfe2ce6e0
    case 10 => 0xa3014314
    case 11 => 0x4e0811a1
    case 12 => 0xf7537e82
    case 13 => 0xbd3af235
    case 14 => 0x2ad7d2bb
    case _ => 0xeb86d391
  }

  function Constant(t: nat): bv32
    requires t < 0x1_0000_0000
  {
    t as bv32
  }

  function Sum(a: bv32, b: bv32): bv32 { a + b }

  function RotateLeft(w: bv32, s: nat): bv32
    requires 0 < s < 32
  {
    (w << s) | (w >> (32 - s))
  }

  /** The word a step computes from the four words and a message word. */
  function Fresh(q: Quad, aux: bv32, w: bv32, s: nat, t: nat): bv32
    requires 0 < s < 32 && t < 0x1_0000_0000
  {
    Sum(RotateLeft(Sum(q.a, Sum(Sum(aux, w), Constant(t))), s), q.b)
  }

  /** Step n: the fresh word takes the place of the second, the others move on by one. */
  function Step(n: nat, q: Quad, x: seq<bv32>): Quad
    requires n < 64 && |x| == 16
  {
    Quad(q.d, Fresh(q, Aux(n, q), x[WordAt(n)], Amount(n), Sine(n)), q.b, q.c)
  }

  function Steps(n: nat, q: Quad, x: seq<bv32>): Quad
    requires n <= 64 && |x| == 16
  {
    if n == 0 then q else Step(n - 1, Steps(n - 1, q, x), x)
  }

  /** Eight steps from step n on. */
  function Eight(n: nat, q: Quad, x: seq<bv32>): Quad
    requires n + 8 <= 64 && |x| == 16
  {
    var q := Step(n + 1, Step(n, q, x), x);
    var q := Step(n + 3, Step(n + 2, q, x), x);
    var q := Step(n + 5, Step(n + 4, q, x), x);
    Step(n + 7, Step(n + 6, q, x), x)
  }

  lemma EightSteps(n: nat, q: Quad, x: seq<bv32>)
    requires n + 8 <= 64 && |x| == 16
    ensures Steps(n + 8, q, x) == Eight(n, Steps(n, q, x), x)
  {
    hide Step;
    assert Steps(n + 2, q, x) == Step(n + 1, Step(n, Steps(n, q, x), x), x);
    assert Steps(n + 4, q, x) == Step(n + 3, Step(n + 2, Steps(n + 2, q, x), x), x);
    assert Steps(n + 6, q, x) == Step(n + 5, Step(n + 4, Steps(n + 4, q, x), x), x);
  }

  function Add(p: Quad, q: Quad): Quad { Quad(Sum(p.a, q.a), Sum(p.b, q.b), Sum(p.c, q.c), Sum(p.d, q.d)) }

  // ----------------------------------------------------------------------- Encode, Decode

  function Word(b: seq<bv8>): bv32
    requires |b| == 4
  {
    (b[0] as bv32) | ((b[1] as bv32) << 8) | ((b[2] as bv32) << 16) | ((b[3] as bv32) << 24)
  }

  function WordBytes(w: bv32): (b: seq<bv8>)
    ensures |b| == 4
  {
    [Byte(w), Byte(w >> 8), Byte(w >> 16), Byte(w >> 24)]
  }

  /** Words, low-order byte first, and back. */
  function Encoded(w: seq<bv32>): (b: seq<bv8>)
    ensures |b| == 4 * |w|
  {
    if |w| == 0 then [] else Encoded(w[..|w| - 1]) + WordBytes(w[|w| - 1])
  }

  function Decoded(b: seq<bv8>): (w: seq<bv32>)
    requires |b| % 4 == 0
    ensures 4 * |w| == |b|
  {
    if |b| == 0 then [] else Decoded(b[..|b| - 4]) + [Word(b[|b| - 4..])]
  }

  lemma WordOfBytes(w: bv32)
    ensures Word(WordBytes(w)) == w {}

  lemma BytesOfWord(a: bv8, b: bv8, c: bv8, d: bv8)
    ensures WordBytes(Word([a, b, c, d])) == [a, b, c, d] {}

  lemma {:induction false} DecodedEncoded(w: seq<bv32>)
    ensures Decoded(Encoded(w)) == w
  {
    hide Word, WordBytes;
    if |w| > 0 {
      var n := |w| - 1;
      var (head, last) := (Encoded(w[..n]), WordBytes(w[n]));
      assert (head + last)[..4 * n] == head && (head + last)[4 * n..] == last;
      DecodedEncoded(w[..n]);
      WordOfBytes(w[n]);
      assert w[..n] + [w[n]] == w;
    }
  }

  lemma WordBack(t: seq<bv8>)
    requires |t| == 4
    ensures WordBytes(Word(t)) == t
  {
    hide Word, WordBytes;
    BytesOfWord(t[0], t[1], t[2], t[3]);
    assert t == [t[0], t[1], t[2], t[3]];
  }

  lemma EncodedMore(w: seq<bv32>, x: bv32)
    ensures Encoded(w + [x]) == Encoded(w) + WordBytes(x)
  {
    hide WordBytes;
    assert (w + [x])[..|w|] == w;
  }

  lemma DecodedMore(b: seq<bv8>, t: seq<bv8>)
    requires |b| % 4 == 0 && |t| == 4
    ensures Decoded(b + t) == Decoded(b) + [Word(t)]
  {
    hide Word;
    assert (b + t)[..|b|] == b && (b + t)[|b|..] == t;
  }

  lemma FourMore(h: seq<bv8>, t: seq<bv8>)
    requires |h| % 4 == 0 && |t| == 4 && Encoded(Decoded(h)) == h
    ensures Encoded(Decoded(h + t)) == h + t
  {
    hide Encoded, Decoded, Word, WordBytes;
    DecodedMore(h, t);
    EncodedMore(Decoded(h), Word(t));
    WordBack(t);
  }

  lemma NoWords(b: seq<bv8>)
    requires |b| == 0
    ensures Encoded(Decoded(b)) == b {}

  lemma {:induction false} WordsBack(b: seq<bv8>, n: nat)
    requires |b| == 4 * n
    ensures Encoded(Decoded(b)) == b
  {
    hide *;
    if n == 0 {
      NoWords(b);
    } else {
      var k := 4 * (n - 1);
      assert b == b[..k] + b[k..];
      WordsBack(b[..k], n - 1);
      FourMore(b[..k], b[k..]);
    }
  }

  lemma EncodedDecoded(b: seq<bv8>)
    requires |b| % 4 == 0
    ensures Encoded(Decoded(b)) == b
  {
    hide Encoded, Decoded;
    WordsBack(b, |b| / 4);
  }

  method Encode(w: seq<bv32>) returns (b: seq<bv8>)
    ensures b == Encoded(w)
  {
    hide WordBytes;
    b := [];
    var i := 0;
    while i < |w|
      invariant 0 <= i <= |w| && b == Encoded(w[..i])
    {
      b := b + WordBytes(w[i]);
      assert w[..i + 1][..i] == w[..i];
      i := i + 1;
    }
    assert w[..i] == w;
  }

  method Decode(b: seq<bv8>) returns (w: seq<bv32>)
    requires |b| % 4 == 0
    ensures w == Decoded(b)
  {
    hide Word;
    w := [];
    var j := 0;
    while j < |b|
      invariant 0 <= j <= |b| && j % 4 == 0 && w == Decoded(b[..j])
    {
      w := w + [Word(b[j..j + 4])];
      assert b[..j + 4][..j] == b[..j] && b[..j + 4][j..] == b[j..j + 4];
      j := j + 4;
    }
    assert b[..j] == b;
  }

  // ------------------------------------------------------------------------- MD5Transform

  /** One block: the words of the state, each added to what the 64 steps make of it. */
  function Compressed(s: seq<bv32>, block: seq<bv8>): (r: seq<bv32>)
    requires |s| == 4 && |block| == 64
    ensures |r| == 4
  {
    var q := Quad(s[0], s[1], s[2], s[3]);
    var r := Add(q, Steps(64, q, Decoded(block)));
    [r.a, r.b, r.c, r.d]
  }

  /** A line of round 1; n is its place in the step table. */
  method FF(ghost n: nat, x: seq<bv32>, a: bv32, b: bv32, c: bv32, d: bv32, k: nat, s: nat, ac: nat)
    returns (v: bv32)
    requires n < 16 && |x| == 16
    requires k == n && s == Turn(n, 7, 12, 17, 22) && ac == SineF(n)
    ensures Quad(d, v, b, c) == Step(n, Quad(a, b, c, d), x)
  {
    hide F, Sum, RotateLeft, Constant;
    v := Sum(a, Sum(Sum(F(b, c, d), x[k]), Constant(ac)));
    v := RotateLeft(v, s);
    v := Sum(v, b);
  }

  /** A line of round 2; n is its place in the step table. */
  method GG(ghost n: nat, x: seq<bv32>, a: bv32, b: bv32, c: bv32, d: bv32, k: nat, s: nat, ac: nat)
    returns (v: bv32)
    requires 16 <= n < 32 && |x| == 16
    requires k == (5 * n + 1) % 16 && s == Turn(n, 5, 9, 14, 20) && ac == SineG(n - 16)
    ensures Quad(d, v, b, c) == Step(n, Quad(a, b, c, d), x)
  {
    hide G, Sum, RotateLeft, Constant;
    v := Sum(a, Sum(Sum(G(b, c, d), x[k]), Constant(ac)));
    v := RotateLeft(v, s);
    v := Sum(v, b);
  }

  /** A line of round 3; n is its place in the step table. */
  method HH(ghost n: nat, x: seq<bv32>, a: bv32, b: bv32, c: bv32, d: bv32, k: nat, s: nat, ac: nat)
    returns (v: bv32)
    requires 32 <= n < 48 && |x| == 16
    requires k == (3 * n + 5) % 16 && s == Turn(n, 4, 11, 16, 23) && ac == SineH(n - 32)
    ensures Quad(d, v, b, c) == Step(n, Quad(a, b, c, d), x)
  {
    hide H, Sum, RotateLeft, Constant;
    v := Sum(a, Sum(Sum(H(b, c, d), x[k]), Constant(ac)));
    v := RotateLeft(v, s);
    v := Sum(v, b);
  }

  /** A line of round 4; n is its place in the step table. */
  method II(ghost n: nat, x: seq<bv32>, a: bv32, b: bv32, c: bv32, d: bv32, k: nat, s: nat, ac: nat)
    returns (v: bv32)
    requires 48 <= n < 64 && |x| == 16
    requires k == 7 * n % 16 && s == Turn(n, 6, 10, 15, 21) && ac == SineI(n - 48)
    ensures Quad(d, v, b, c) == Step(n, Quad(a, b, c, d), x)
  {
    hide I, Sum, RotateLeft, Constant;
    v := Sum(a, Sum(Sum(I(b, c, d), x[k]), Constant(ac)));
    v := RotateLeft(v, s);
    v := Sum(v, b);
  }

  /** The first half of round 1. */
  method Round1First(x: seq<bv32>, a0: bv32, b0: bv32, c0: bv32, d0: bv32)
    returns (a: bv32, b: bv32, c: bv32, d: bv32)
    requires |x| == 16
    ensures Quad(a, b, c, d) == Eight(0, Quad(a0, b0, c0, d0), x)
  {
    hide Step;
    a, b, c, d := a0, b0, c0, d0;
    a := FF(0, x, a, b, c, d, 0, 7, 0xd76aa478);
    d := FF(1, x, d, a, b, c, 1, 12, 0xe8c7b756);
    c := FF(2, x, c, d, a, b, 2, 17, 0x242070db);
    b := FF(3, x, b, c, d, a, 3, 22, 0xc1bdceee);
    a := FF(4, x, a, b, c, d, 4, 7, 0xf57c0faf);
    d := FF(5, x, d, a, b, c, 5, 12, 0x4787c62a);
    c := FF(6, x, c, d, a, b, 6, 17, 0xa8304613);
    b := FF(7, x, b, c, d, a, 7, 22, 0xfd469501);
  }

  /** The second half of round 1. */
  method Round1Second(x: seq<bv32>, a0: bv32, b0: bv32, c0: bv32, d0: bv32)
    returns (a: bv32, b: bv32, c: bv32, d: bv32)
    requires |x| == 16
    ensures Quad(a, b, c, d) == Eight(8, Quad(a0, b0, c0, d0), x)
  {
    hide Step;
    a, b, c, d := a0, b0, c0, d0;
    a := FF(8, x, a, b, c, d, 8, 7, 0x698098d8);
    d := FF(9, x, d, a, b, c, 9, 12, 0x8b44f7af);
    c := FF(10, x, c, d, a, b, 10, 17, 0xffff5bb1);
    b := FF(11, x, b, c, d, a, 11, 22, 0x895cd7be);
    a := FF(12, x, a, b, c, d, 12, 7, 0x6b901122);
    d := FF(13, x, d, a, b, c, 13, 12, 0xfd987193);
    c := FF(14, x, c, d, a, b, 14, 17, 0xa679438e);
    b := FF(15, x, b, c, d, a, 15, 22, 0x49b40821);
  }

  /** The first half of round 2. */
  method Round2First(x: seq<bv32>, a0: bv32, b0: bv32, c0: bv32, d0: bv32)
    returns (a: bv32, b: bv32, c: bv32, d: bv32)
    requires |x| == 16
    ensures Quad(a, b, c, d) == Eight(16, Quad(a0, b0, c0, d0), x)
  {
    hide Step;
    a, b, c, d := a0, b0, c0, d0;
    a := GG(16, x, a, b, c, d, 1, 5, 0xf61e2562);
    d := GG(17, x, d, a, b, c, 6, 9, 0xc040b340);
    c := GG(18, x, c, d, a, b, 11, 14, 0x265e5a51);
    b := GG(19, x, b, c, d, a, 0, 20, 0xe9b6c7aa);
    a := GG(20, x, a, b, c, d, 5, 5, 0xd62f105d);
    d := GG(21, x, d, a, b, c, 10, 9, 0x2441453);
    c := GG(22, x, c, d, a, b, 15, 14, 0xd8a1e681);
    b := GG(23, x, b, c, d, a, 4, 20, 0xe7d3fbc8);
  }

  /** The second half of round 2. */
  method Round2Second(x: seq<bv32>, a0: bv32, b0: bv32, c0: bv32, d0: bv32)
    returns (a: bv32, b: bv32, c: bv32, d: bv32)
    requires |x| == 16
    ensures Quad(a, b, c, d) == Eight(24, Quad(a0, b0, c0, d0), x)
  {
    hide Step;
    a, b, c, d := a0, b0, c0, d0;
    a := GG(24, x, a, b, c, d, 9, 5, 0x21e1cde6);
    d := GG(25, x, d, a, b, c, 14, 9, 0xc33707d6);
    c := GG(26, x, c, d, a, b, 3, 14, 0xf4d50d87);
    b := GG(27, x, b, c, d, a, 8, 20, 0x455a14ed);
    a := GG(28, x, a, b, c, d, 13, 5, 0xa9e3e905);
    d := GG(29, x, d, a, b, c, 2, 9, 0xfcefa3f8);
    c := GG(30, x, c, d, a, b, 7, 14, 0x676f02d9);
    b := GG(31, x, b, c, d, a, 12, 20, 0x8d2a4c8a);
  }

  /** The first half of round 3. */
  method Round3First(x: seq<bv32>, a0: bv32, b0: bv32, c0: bv32, d0: bv32)
    returns (a: bv32, b: bv32, c: bv32, d: bv32)
    requires |x| == 16
    ensures Quad(a, b, c, d) == Eight(32, Quad(a0, b0, c0, d0), x)
  {
    hide Step;
    a, b, c, d := a0, b0, c0, d0;
    a := HH(32, x, a, b, c, d, 5, 4, 0xfffa3942);
    d := HH(33, x, d, a, b, c, 8, 11, 0x8771f681);
    c := HH(34, x, c, d, a, b, 11, 16, 0x6d9d6122);
    b := HH(35, x, b, c, d, a, 14, 23, 0xfde5380c);
    a := HH(36, x, a, b, c, d, 1, 4, 0xa4beea44);
    d := HH(37, x, d, a, b, c, 4, 11, 0x4bdecfa9);
    c := HH(38, x, c, d, a, b, 7, 16, 0xf6bb4b60);
    b := HH(39, x, b, c, d, a, 10, 23, 0xbebfbc70);
  }

  /** The second half of round 3. */
  method Round3Second(x: seq<bv32>, a0: bv32, b0: bv32, c0: bv32, d0: bv32)
    returns (a: bv32, b: bv32, c: bv32, d: bv32)
    requires |x| == 16
    ensures Quad(a, b, c, d) == Eight(40, Quad(a0, b0, c0, d0), x)
  {
    hide Step;
    a, b, c, d := a0, b0, c0, d0;
    a := HH(40, x, a, b, c, d, 13, 4, 0x289b7ec6);
    d := HH(41, x, d, a, b, c, 0, 11, 0xeaa127fa);
    c := HH(42, x, c, d, a, b, 3, 16, 0xd4ef3085);
    b := HH(43, x, b, c, d, a, 6, 23, 0x4881d05);
    a := HH(44, x, a, b, c, d, 9, 4, 0xd9d4d039);
    d := HH(45, x, d, a, b, c, 12, 11, 0xe6db99e5);
    c := HH(46, x, c, d, a, b, 15, 16, 0x1fa27cf8);
    b := HH(47, x, b, c, d, a, 2, 23, 0xc4ac5665);
  }

  /** The first half of round 4. */
  method Round4First(x: seq<bv32>, a0: bv32, b0: bv32, c0: bv32, d0: bv32)
    returns (a: bv32, b: bv32, c: bv32, d: bv32)
    requires |x| == 16
    ensures Quad(a, b, c, d) == Eight(48, Quad(a0, b0, c0, d0), x)
  {
    hide Step;
    a, b, c, d := a0, b0, c0, d0;
    a := II(48, x, a, b, c, d, 0, 6, 0xf4292244);
    d := II(49, x, d, a, b, c, 7, 10, 0x432aff97);
    c := II(50, x, c, d, a, b, 14, 15, 0xab9423a7);
    b := II(51, x, b, c, d, a, 5, 21, 0xfc93a039);
    a := II(52, x, a, b, c, d, 12, 6, 0x655b59c3);
    d := II(53, x, d, a, b, c, 3, 10, 0x8f0ccc92);
    c := II(54, x, c, d, a, b, 10, 15, 0xffeff47d);
    b := II(55, x, b, c, d, a, 1, 21, 0x85845dd1);
  }

  /** The second half of round 4. */
  method Round4Second(x: seq<bv32>, a0: bv32, b0: bv32, c0: bv32, d0: bv32)
    returns (a: bv32, b: bv32, c: bv32, d: bv32)
    requires |x| == 16
    ensures Quad(a, b, c, d) == Eight(56, Quad(a0, b0, c0, d0), x)
  {
    hide Step;
    a, b, c, d := a0, b0, c0, d0;
    a := II(56, x, a, b, c, d, 8, 6, 0x6fa87e4f);
    d := II(57, x, d, a, b, c, 15, 10, 0xfe2ce6e0);
    c := II(58, x, c, d, a, b, 6, 15, 0xa3014314);
    b := II(59, x, b, c, d, a, 13, 21, 0x4e0811a1);
    a := II(60, x, a, b, c, d, 4, 6, 0xf7537e82);
    d := II(61, x, d, a, b, c, 11, 10, 0xbd3af235);
    c := II(62, x, c, d, a, b, 2, 15, 0x2ad7d2bb);
    b := II(63, x, b, c, d, a, 9, 21, 0xeb86d391);
  }

  method Transform(state: array<bv32>, block: seq<bv8>)
    requires state.Length == 4 && |block| == 64
    modifies state
    ensures state[..] == Compressed(old(state[..]), block)
  {
    hide Steps, Eight, Decoded, Sum;
    ghost var q := Quad(state[0], state[1], state[2], state[3]);
    var x := Decode(block);
    var a, b, c, d := state[0], state[1], state[2], state[3];
    NoSteps(q, x);
    a, b, c, d := Round1First(x, a, b, c, d);
    EightSteps(0, q, x);
    a, b, c, d := Round1Second(x, a, b, c, d);
    EightSteps(8, q, x);
    a, b, c, d := Round2First(x, a, b, c, d);
    EightSteps(16, q, x);
    a, b, c, d := Round2Second(x, a, b, c, d);
    EightSteps(24, q, x);
    a, b, c, d := Round3First(x, a, b, c, d);
    EightSteps(32, q, x);
    a, b, c, d := Round3Second(x, a, b, c, d);
    EightSteps(40, q, x);
    a, b, c, d := Round4First(x, a, b, c, d);
    EightSteps(48, q, x);
    a, b, c, d := Round4Second(x, a, b, c, d);
    EightSteps(56, q, x);
    state[0] := Sum(state[0], a);
    state[1] := Sum(state[1], b);
    state[2] := Sum(state[2], c);
    state[3] := Sum(state[3], d);
  }

  lemma NoSteps(q: Quad, x: seq<bv32>)
    requires |x| == 16
    ensures Steps(0, q, x) == q {}
}
