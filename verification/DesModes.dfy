/** Eight-byte blocks, and the two ways the buffer functions run a block cipher over them. */
module DesModes {
  import opened Bytes
  import opened DesCipher

  type Block = b: seq<bv8> | |b| == 8 witness [0, 0, 0, 0, 0, 0, 0, 0]

  type BlockCipher = Block -> Block

  // --------------------------------------------------------------- big-endian words in blocks

  function Get32(a: bv8, b: bv8, c: bv8, d: bv8): bv32 {
    ((a as bv32) << 24) | ((b as bv32) << 16) | ((c as bv32) << 8) | (d as bv32)
  }

  function PairOf(b: Block): Pair {
    Pair(Get32(b[0], b[1], b[2], b[3]), Get32(b[4], b[5], b[6], b[7]))
  }

  function BytesOf(p: Pair): Block {
    [Byte(p.x >> 24), Byte(p.x >> 16), Byte(p.x >> 8), Byte(p.x),
     Byte(p.y >> 24), Byte(p.y >> 16), Byte(p.y >> 8), Byte(p.y)]
  }

  lemma WordOfBytes(w: bv32)
    ensures Get32(Byte(w >> 24), Byte(w >> 16), Byte(w >> 8), Byte(w)) == w {}

  lemma BytesOfWord(a: bv8, b: bv8, c: bv8, d: bv8)
    ensures var w := Get32(a, b, c, d); Byte(w >> 24) == a && Byte(w >> 16) == b && Byte(w >> 8) == c && Byte(w) == d {}

  lemma PairOfBytes(p: Pair)
    ensures PairOf(BytesOf(p)) == p
  {
    WordOfBytes(p.x); WordOfBytes(p.y);
  }

  lemma BytesOfPair(b: Block)
    ensures BytesOf(PairOf(b)) == b
  {
    BytesOfWord(b[0], b[1], b[2], b[3]); BytesOfWord(b[4], b[5], b[6], b[7]);
  }

  function Inv8(a: bv8): bv8 { !a }

  function NotBytes(b: Block): Block { seq(8, i requires 0 <= i < 8 => Inv8(b[i])) }

  lemma WordBits(a: bv8, b: bv8, c: bv8, d: bv8)
    ensures Get32(Inv8(a), Inv8(b), Inv8(c), Inv8(d)) ^ Inv(Get32(a, b, c, d)) == 0 {}

  lemma WordNot(a: bv8, b: bv8, c: bv8, d: bv8)
    ensures Get32(Inv8(a), Inv8(b), Inv8(c), Inv8(d)) == Inv(Get32(a, b, c, d))
  {
    hide *;
    WordBits(a, b, c, d);
    Same(Get32(Inv8(a), Inv8(b), Inv8(c), Inv8(d)), Inv(Get32(a, b, c, d)));
  }

  lemma PairNot(b: Block)
    ensures PairOf(NotBytes(b)) == Not(PairOf(b))
  {
    hide Get32, Inv8, Inv;
    WordNot(b[0], b[1], b[2], b[3]); WordNot(b[4], b[5], b[6], b[7]);
  }

  lemma BytesNot(p: Pair)
    ensures BytesOf(Not(p)) == NotBytes(BytesOf(p))
  {
    PairNot(BytesOf(p));
    PairOfBytes(p);
    BytesOfPair(NotBytes(BytesOf(p)));
  }

  // ------------------------------------------------------------------------------ the modes

  function Xor8(a: bv8, b: bv8): bv8 { a ^ b }

  function XorBytes(a: Block, b: Block): Block { seq(8, i requires 0 <= i < 8 => Xor8(a[i], b[i])) }

  lemma Xor8Twice(a: bv8, b: bv8) ensures Xor8(Xor8(a, b), b) == a {}

  lemma XorBytesTwice(a: Block, b: Block)
    ensures XorBytes(XorBytes(a, b), b) == a
  {
    forall i | 0 <= i < 8 ensures XorBytes(XorBytes(a, b), b)[i] == a[i] { Xor8Twice(a[i], b[i]); }
  }

  /** A whole number of blocks. */
  predicate Whole(m: seq<bv8>) { |m| % 8 == 0 }

  /** The vector after a ciphertext: its last block. */
  function LastOf(iv: Block, c: seq<bv8>): Block
    requires Whole(c)
  {
    if |c| == 0 then iv else c[|c| - 8..]
  }

  /** Chaining: every block is mixed with the previous ciphertext block. */
  function Chained(e: BlockCipher, iv: Block, m: seq<bv8>): (c: seq<bv8>)
    requires Whole(m)
    ensures |c| == |m|
    decreases |m|
  {
    if |m| == 0 then [] else var c := e(XorBytes(m[..8], iv)); c + Chained(e, c, m[8..])
  }

  function Unchained(d: BlockCipher, iv: Block, c: seq<bv8>): (m: seq<bv8>)
    requires Whole(c)
    ensures |m| == |c|
    decreases |c|
  {
    if |c| == 0 then [] else XorBytes(d(c[..8]), iv) + Unchained(d, c[..8], c[8..])
  }

  /** With the vector kept, every block by itself. */
  function Masked(e: BlockCipher, iv: Block, m: seq<bv8>): (c: seq<bv8>)
    requires Whole(m)
    ensures |c| == |m|
  {
    if |m| == 0 then [] else e(XorBytes(m[..8], iv)) + Masked(e, iv, m[8..])
  }

  function Unmasked(d: BlockCipher, iv: Block, c: seq<bv8>): (m: seq<bv8>)
    requires Whole(c)
    ensures |m| == |c|
  {
    if |c| == 0 then [] else XorBytes(d(c[..8]), iv) + Unmasked(d, iv, c[8..])
  }

  /** d undoes e. */
  ghost predicate Undoes(d: BlockCipher, e: BlockCipher) { forall b: Block :: d(e(b)) == b }

  /** The first block of a message, and the rest. */
  lemma UnchainedFirst(d: BlockCipher, iv: Block, c: Block, m: seq<bv8>)
    requires Whole(m)
    ensures Unchained(d, iv, c + m) == XorBytes(d(c), iv) + Unchained(d, c, m)
  {
    assert (c + m)[..8] == c && (c + m)[8..] == m;
  }

  lemma LastOfMore(iv: Block, c: Block, m: seq<bv8>)
    requires Whole(m)
    ensures LastOf(iv, c + m) == LastOf(c, m) {}

  lemma ChainedFirst(e: BlockCipher, iv: Block, p: Block, m: seq<bv8>)
    requires Whole(m)
    ensures var c: Block := e(XorBytes(p, iv)); Chained(e, iv, p + m) == c + Chained(e, c, m)
  {
    assert (p + m)[..8] == p && (p + m)[8..] == m;
  }

  lemma ChainedNone(e: BlockCipher, iv: Block, a: seq<bv8>, b: seq<bv8>)
    requires Whole(b) && |a| == 0
    ensures Chained(e, iv, a + b) == Chained(e, iv, a) + Chained(e, LastOf(iv, Chained(e, iv, a)), b)
  {
    assert a + b == b;
  }

  lemma WholeToo(m: seq<bv8>, r: seq<bv8>)
    requires Whole(m) && |r| == |m|
    ensures Whole(r) {}

  lemma WholeSum(a: seq<bv8>, b: seq<bv8>)
    requires Whole(a) && Whole(b)
    ensures Whole(a + b) {}

  lemma ChainedLonger(e: BlockCipher, iv: Block, p: Block, c: Block, m: seq<bv8>, b: seq<bv8>)
    requires Whole(m) && Whole(b) && c == e(XorBytes(p, iv))
    requires Chained(e, c, m + b) == Chained(e, c, m) + Chained(e, LastOf(c, Chained(e, c, m)), b)
    ensures Chained(e, iv, p + m + b)
            == Chained(e, iv, p + m) + Chained(e, LastOf(iv, Chained(e, iv, p + m)), b)
  {
    hide *;
    var r := Chained(e, c, m);
    WholeToo(m, r); WholeSum(m, b);
    var s := Chained(e, LastOf(c, r), b);
    assert p + m + b == p + (m + b);
    assert c + (r + s) == c + r + s;
    ChainedFirst(e, iv, p, m);
    ChainedFirst(e, iv, p, m + b);
    LastOfMore(iv, c, r);
  }

  lemma {:induction false} ChainedConcat(e: BlockCipher, iv: Block, a: seq<bv8>, b: seq<bv8>)
    requires Whole(a) && Whole(b)
    ensures Chained(e, iv, a + b) == Chained(e, iv, a) + Chained(e, LastOf(iv, Chained(e, iv, a)), b)
    decreases |a|
  {
    hide Chained, XorBytes, LastOf;
    if |a| == 0 {
      ChainedNone(e, iv, a, b);
    } else {
      var p: Block := a[..8];
      var c: Block := e(XorBytes(p, iv));
      assert a == p + a[8..];
      ChainedConcat(e, c, a[8..], b);
      ChainedLonger(e, iv, p, c, a[8..], b);
    }
  }

  lemma UnchainedLonger(d: BlockCipher, iv: Block, c: Block, m: seq<bv8>, b: seq<bv8>)
    requires Whole(m) && Whole(b) && Unchained(d, c, m + b) == Unchained(d, c, m) + Unchained(d, LastOf(c, m), b)
    ensures Unchained(d, iv, c + m + b) == Unchained(d, iv, c + m) + Unchained(d, LastOf(iv, c + m), b)
  {
    hide Unchained, XorBytes, LastOf;
    assert c + m + b == c + (m + b);
    UnchainedFirst(d, iv, c, m);
    UnchainedFirst(d, iv, c, m + b);
    LastOfMore(iv, c, m);
  }

  lemma {:induction false} UnchainedConcat(d: BlockCipher, iv: Block, a: seq<bv8>, b: seq<bv8>)
    requires Whole(a) && Whole(b)
    ensures Unchained(d, iv, a + b) == Unchained(d, iv, a) + Unchained(d, LastOf(iv, a), b)
    decreases |a|
  {
    if |a| == 0 {
      assert a + b == b;
    } else {
      hide Unchained, LastOf;
      assert |a| >= 8 && a == a[..8] + a[8..];
      UnchainedConcat(d, a[..8], a[8..], b);
      UnchainedLonger(d, iv, a[..8], a[8..], b);
    }
  }

  lemma {:induction false} UnchainedChained(e: BlockCipher, d: BlockCipher, iv: Block, m: seq<bv8>)
    requires Whole(m) && Undoes(d, e)
    ensures Unchained(d, iv, Chained(e, iv, m)) == m
    decreases |m|
  {
    if |m| > 0 {
      assert |m| >= 8;
      var x: Block := XorBytes(m[..8], iv);
      var c: Block := e(x);
      var rest: seq<bv8> := Chained(e, c, m[8..]);
      assert (c + rest)[..8] == c && (c + rest)[8..] == rest;
      XorBytesTwice(m[..8], iv);
      UnchainedChained(e, d, c, m[8..]);
    }
  }

  lemma {:induction false} ChainedUnchained(e: BlockCipher, d: BlockCipher, iv: Block, c: seq<bv8>)
    requires Whole(c) && Undoes(e, d)
    ensures Chained(e, iv, Unchained(d, iv, c)) == c
    decreases |c|
  {
    if |c| > 0 {
      assert |c| >= 8;
      var m: Block := XorBytes(d(c[..8]), iv);
      var rest: seq<bv8> := Unchained(d, c[..8], c[8..]);
      assert (m + rest)[..8] == m && (m + rest)[8..] == rest;
      XorBytesTwice(d(c[..8]), iv);
      ChainedUnchained(e, d, c[..8], c[8..]);
    }
  }

  lemma BlockOfRest(m: seq<bv8>, i: nat)
    requires i > 0 && 8 * i + 8 <= |m|
    ensures m[8..][8 * (i - 1)..8 * (i - 1) + 8] == m[8 * i..8 * i + 8] {}

  /** With the vector kept, the output is a map over the blocks. */
  lemma {:induction false} MaskedBlocks(e: BlockCipher, iv: Block, m: seq<bv8>, i: nat)
    requires Whole(m) && 8 * i + 8 <= |m|
    ensures Masked(e, iv, m)[8 * i..8 * i + 8] == e(XorBytes(m[8 * i..8 * i + 8], iv))
  {
    if i > 0 {
      MaskedBlocks(e, iv, m[8..], i - 1);
      BlockOfRest(m, i);
      var c: Block := e(XorBytes(m[..8], iv));
      var rest: seq<bv8> := Masked(e, iv, m[8..]);
      assert (c + rest)[8..] == rest;
      BlockOfRest(c + rest, i);
    }
  }

  lemma MaskedFirst(e: BlockCipher, iv: Block, p: Block, m: seq<bv8>)
    requires Whole(m)
    ensures Masked(e, iv, p + m) == e(XorBytes(p, iv)) + Masked(e, iv, m)
  {
    assert (p + m)[..8] == p && (p + m)[8..] == m;
  }

  lemma MaskedNone(e: BlockCipher, iv: Block, a: seq<bv8>, b: seq<bv8>)
    requires |a| == 0 && Whole(b)
    ensures Masked(e, iv, a + b) == Masked(e, iv, a) + Masked(e, iv, b)
  {
    assert a + b == b;
  }

  lemma MaskedLonger(e: BlockCipher, iv: Block, p: Block, m: seq<bv8>, b: seq<bv8>)
    requires Whole(m) && Whole(b) && Masked(e, iv, m + b) == Masked(e, iv, m) + Masked(e, iv, b)
    ensures Masked(e, iv, p + m + b) == Masked(e, iv, p + m) + Masked(e, iv, b)
  {
    hide *;
    WholeSum(m, b);
    assert p + m + b == p + (m + b);
    MaskedFirst(e, iv, p, m);
    MaskedFirst(e, iv, p, m + b);
  }

  lemma {:induction false} MaskedConcat(e: BlockCipher, iv: Block, a: seq<bv8>, b: seq<bv8>)
    requires Whole(a) && Whole(b)
    ensures Masked(e, iv, a + b) == Masked(e, iv, a) + Masked(e, iv, b)
    decreases |a|
  {
    hide Masked;
    if |a| == 0 {
      MaskedNone(e, iv, a, b);
    } else {
      var p: Block := a[..8];
      assert a == p + a[8..];
      MaskedConcat(e, iv, a[8..], b);
      MaskedLonger(e, iv, p, a[8..], b);
    }
  }

  lemma UnmaskedFirst(d: BlockCipher, iv: Block, p: Block, m: seq<bv8>)
    requires Whole(m)
    ensures Unmasked(d, iv, p + m) == XorBytes(d(p), iv) + Unmasked(d, iv, m)
  {
    assert (p + m)[..8] == p && (p + m)[8..] == m;
  }

  lemma UnmaskedNone(d: BlockCipher, iv: Block, a: seq<bv8>, b: seq<bv8>)
    requires |a| == 0 && Whole(b)
    ensures Unmasked(d, iv, a + b) == Unmasked(d, iv, a) + Unmasked(d, iv, b)
  {
    assert a + b == b;
  }

  lemma UnmaskedLonger(d: BlockCipher, iv: Block, p: Block, m: seq<bv8>, b: seq<bv8>)
    requires Whole(m) && Whole(b) && Unmasked(d, iv, m + b) == Unmasked(d, iv, m) + Unmasked(d, iv, b)
    ensures Unmasked(d, iv, p + m + b) == Unmasked(d, iv, p + m) + Unmasked(d, iv, b)
  {
    hide *;
    WholeSum(m, b);
    assert p + m + b == p + (m + b);
    UnmaskedFirst(d, iv, p, m);
    UnmaskedFirst(d, iv, p, m + b);
  }

  lemma {:induction false} UnmaskedConcat(d: BlockCipher, iv: Block, a: seq<bv8>, b: seq<bv8>)
    requires Whole(a) && Whole(b)
    ensures Unmasked(d, iv, a + b) == Unmasked(d, iv, a) + Unmasked(d, iv, b)
    decreases |a|
  {
    hide Unmasked;
    if |a| == 0 {
      UnmaskedNone(d, iv, a, b);
    } else {
      var p: Block := a[..8];
      assert a == p + a[8..];
      UnmaskedConcat(d, iv, a[8..], b);
      UnmaskedLonger(d, iv, p, a[8..], b);
    }
  }

  lemma {:induction false} UnmaskedMasked(e: BlockCipher, d: BlockCipher, iv: Block, m: seq<bv8>)
    requires Whole(m) && Undoes(d, e)
    ensures Unmasked(d, iv, Masked(e, iv, m)) == m
  {
    if |m| > 0 {
      assert |m| >= 8;
      var c: Block := e(XorBytes(m[..8], iv));
      var rest: seq<bv8> := Masked(e, iv, m[8..]);
      assert (c + rest)[..8] == c && (c + rest)[8..] == rest;
      XorBytesTwice(m[..8], iv);
      UnmaskedMasked(e, d, iv, m[8..]);
    }
  }

  lemma {:induction false} MaskedUnmasked(e: BlockCipher, d: BlockCipher, iv: Block, c: seq<bv8>)
    requires Whole(c) && Undoes(e, d)
    ensures Masked(e, iv, Unmasked(d, iv, c)) == c
  {
    if |c| > 0 {
      assert |c| >= 8;
      var m: Block := XorBytes(d(c[..8]), iv);
      var rest: seq<bv8> := Unmasked(d, iv, c[8..]);
      assert (m + rest)[..8] == m && (m + rest)[8..] == rest;
      XorBytesTwice(d(c[..8]), iv);
      MaskedUnmasked(e, d, iv, c[8..]);
    }
  }

  // One more block of a longer text
  lemma ChainedMore(e: BlockCipher, iv: Block, m: seq<bv8>, p: nat)
    requires p % 8 == 0 && p + 8 <= |m|
    ensures var done := Chained(e, iv, m[..p]);
            var c: Block := e(XorBytes(m[p..p + 8], LastOf(iv, done)));
            Chained(e, iv, m[..p + 8]) == done + c && LastOf(iv, done + c) == c
  {
    var v := LastOf(iv, Chained(e, iv, m[..p]));
    assert m[..p + 8] == m[..p] + m[p..p + 8];
    ChainedConcat(e, iv, m[..p], m[p..p + 8]);
    OneChained(e, v, m[p..p + 8]);
  }

  lemma OneChained(e: BlockCipher, iv: Block, b: Block)
    ensures Chained(e, iv, b) == e(XorBytes(b, iv)) && Masked(e, iv, b) == e(XorBytes(b, iv))
    ensures Unchained(e, iv, b) == XorBytes(e(b), iv) && Unmasked(e, iv, b) == XorBytes(e(b), iv)
  {
    assert b[..8] == b && b[8..] == [];
  }

  lemma UnchainedMore(d: BlockCipher, iv: Block, c: seq<bv8>, p: nat)
    requires p % 8 == 0 && p + 8 <= |c|
    ensures Unchained(d, iv, c[..p + 8]) == Unchained(d, iv, c[..p]) + XorBytes(d(c[p..p + 8]), LastOf(iv, c[..p]))
    ensures LastOf(iv, c[..p + 8]) == c[p..p + 8]
  {
    assert c[..p + 8] == c[..p] + c[p..p + 8];
    UnchainedConcat(d, iv, c[..p], c[p..p + 8]);
    OneChained(d, LastOf(iv, c[..p]), c[p..p + 8]);
  }

  lemma MaskedMore(e: BlockCipher, iv: Block, m: seq<bv8>, p: nat)
    requires p % 8 == 0 && p + 8 <= |m|
    ensures Masked(e, iv, m[..p + 8]) == Masked(e, iv, m[..p]) + e(XorBytes(m[p..p + 8], iv))
  {
    assert m[..p + 8] == m[..p] + m[p..p + 8];
    MaskedConcat(e, iv, m[..p], m[p..p + 8]);
    OneChained(e, iv, m[p..p + 8]);
  }

  lemma UnmaskedMore(d: BlockCipher, iv: Block, c: seq<bv8>, p: nat)
    requires p % 8 == 0 && p + 8 <= |c|
    ensures Unmasked(d, iv, c[..p + 8]) == Unmasked(d, iv, c[..p]) + XorBytes(d(c[p..p + 8]), iv)
  {
    assert c[..p + 8] == c[..p] + c[p..p + 8];
    UnmaskedConcat(d, iv, c[..p], c[p..p + 8]);
    OneChained(d, iv, c[p..p + 8]);
  }
}
