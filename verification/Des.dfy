/** DES and triple DES on byte buffers. */
module Des {
  import opened DesCipher
  import opened DesKeys
  import opened DesModes
  import opened DesRound
  import opened DesTables

  // ------------------------------------------------------------------ what the code computes

  /** The DES round. */
  function MIX(): Mix { MixOf(DES_BOXES) }

  /** One block under a schedule, and one block under three schedules in a row. */
  function DesWith(sk: seq<bv32>): BlockCipher
    requires Schedule(sk)
  {
    (b: Block) => BytesOf(Crypt(MIX(), sk, PairOf(b)))
  }

  function Des3With(sk: seq<bv32>): BlockCipher
    requires |sk| == 96
  {
    (b: Block) => BytesOf(Crypt3(MIX(), sk, PairOf(b)))
  }

  function KeysOf(key: Block): (sk: seq<bv32>)
    ensures |sk| == 32
  {
    KeySchedule(PairOf(key))
  }

  /** Encrypt under the first schedule, decrypt under the second, encrypt under the third. */
  function TripleKeys(s1: seq<bv32>, s2: seq<bv32>, s3: seq<bv32>): (sk: seq<bv32>)
    requires |s1| == |s2| == |s3| == 32
    ensures |sk| == 96
  {
    s1 + Reversed(s2) + s3
  }

  /** The encryption schedules of a 16-byte and of a 24-byte key. */
  function TwoKeys(key: seq<bv8>): (sk: seq<bv32>)
    requires |key| == 16
    ensures |sk| == 96
  {
    hide KeysOf;
    TripleKeys(KeysOf(key[..8]), KeysOf(key[8..]), KeysOf(key[..8]))
  }

  function ThreeKeys(key: seq<bv8>): (sk: seq<bv32>)
    requires |key| == 24
    ensures |sk| == 96
  {
    hide KeysOf;
    TripleKeys(KeysOf(key[..8]), KeysOf(key[8..16]), KeysOf(key[16..]))
  }

  /** The 16-byte key k1 k2 sets the same schedules as the 24-byte key k1 k2 k1. */
  lemma TwoKeysAsThree(key: seq<bv8>)
    requires |key| == 16
    ensures TwoKeys(key) == ThreeKeys(key + key[..8])
  {
    hide KeysOf, TripleKeys;
    var key3 := key + key[..8];
    assert key3[..8] == key[..8] && key3[8..16] == key[8..] && key3[16..] == key[..8];
  }

  /** Decryption undoes encryption, and the other way round, for every schedule. */
  lemma DesInverse(sk: seq<bv32>)
    requires Schedule(sk)
    ensures Undoes(DesWith(Reversed(sk)), DesWith(sk)) && Undoes(DesWith(sk), DesWith(Reversed(sk)))
  {
    hide MIX, Crypt, PairOf, BytesOf, Reversed;
    forall b: Block
      ensures DesWith(Reversed(sk))(DesWith(sk)(b)) == b && DesWith(sk)(DesWith(Reversed(sk))(b)) == b
    {
      CryptInverse(MIX(), sk, PairOf(b));
      PairOfBytes(Crypt(MIX(), sk, PairOf(b)));
      PairOfBytes(Crypt(MIX(), Reversed(sk), PairOf(b)));
      BytesOfPair(b);
    }
  }

  lemma Des3Inverse(sk: seq<bv32>)
    requires |sk| == 96
    ensures Undoes(Des3With(Reversed(sk)), Des3With(sk)) && Undoes(Des3With(sk), Des3With(Reversed(sk)))
  {
    hide MIX, Crypt3, PairOf, BytesOf, Reversed;
    forall b: Block
      ensures Des3With(Reversed(sk))(Des3With(sk)(b)) == b && Des3With(sk)(Des3With(Reversed(sk))(b)) == b
    {
      Crypt3Inverse(MIX(), sk, PairOf(b));
      PairOfBytes(Crypt3(MIX(), sk, PairOf(b)));
      PairOfBytes(Crypt3(MIX(), Reversed(sk), PairOf(b)));
      BytesOfPair(b);
    }
  }

  /** Triple DES is encryption, decryption and encryption with single DES. */
  lemma TripleIsEde(s1: seq<bv32>, s2: seq<bv32>, s3: seq<bv32>, b: Block)
    requires |s1| == |s2| == |s3| == 32
    ensures Des3With(TripleKeys(s1, s2, s3))(b) == DesWith(s3)(DesWith(Reversed(s2))(DesWith(s1)(b)))
  {
    hide MIX, Crypt, Crypt3, PairOf, BytesOf, Reversed;
    var sk := TripleKeys(s1, s2, s3);
    assert sk[..32] == s1 && sk[32..64] == Reversed(s2) && sk[64..] == s3;
    var p := PairOf(b);
    Crypt3IsThreeCrypts(MIX(), sk, p);
    PairOfBytes(Crypt(MIX(), s1, p));
    PairOfBytes(Crypt(MIX(), Reversed(s2), Crypt(MIX(), s1, p)));
  }

  /** Encrypt with the first key, decrypt with the second, encrypt with the third. */
  function Ede(k1: Block, k2: Block, k3: Block, b: Block): Block {
    hide KeysOf, DesWith, Reversed;
    DesWith(KeysOf(k3))(DesWith(Reversed(KeysOf(k2)))(DesWith(KeysOf(k1))(b)))
  }

  /** The first eight bytes of a key encrypt first, the next eight decrypt, and the last eight encrypt. */
  lemma ThreeKeysOrder(k1: Block, k2: Block, k3: Block, b: Block)
    ensures Des3With(ThreeKeys(k1 + k2 + k3))(b) == Ede(k1, k2, k3, b)
  {
    hide KeysOf, DesWith, Des3With, Reversed, TripleKeys;
    var key := k1 + k2 + k3;
    assert key[..8] == k1 && key[8..16] == k2 && key[16..] == k3;
    TripleIsEde(KeysOf(k1), KeysOf(k2), KeysOf(k3), b);
  }

  /** With 16 bytes of key the first eight encrypt, the others decrypt, and the first eight encrypt again. */
  lemma TwoKeysOrder(k1: Block, k2: Block, b: Block)
    ensures Des3With(TwoKeys(k1 + k2))(b) == Ede(k1, k2, k1, b)
  {
    hide KeysOf, DesWith, Des3With, Reversed, TripleKeys;
    var key := k1 + k2;
    assert key[..8] == k1 && key[8..] == k2;
    TripleIsEde(KeysOf(k1), KeysOf(k2), KeysOf(k1), b);
  }

  /** Triple DES under one key thrice is single DES. */
  lemma TripleWithOneKey(sk: seq<bv32>, b: Block)
    requires |sk| == 32
    ensures Des3With(TripleKeys(sk, sk, sk))(b) == DesWith(sk)(b)
  {
    TripleIsEde(sk, sk, sk, b);
    DesInverse(sk);
  }

  /** CBC decryption undoes CBC encryption and the other way round, for every schedule and vector. */
  lemma DesCbcInverse(sk: seq<bv32>, iv: Block, m: seq<bv8>)
    requires Schedule(sk) && Whole(m)
    ensures Unchained(DesWith(Reversed(sk)), iv, Chained(DesWith(sk), iv, m)) == m
    ensures Chained(DesWith(sk), iv, Unchained(DesWith(Reversed(sk)), iv, m)) == m
  {
    hide DesWith, Chained, Unchained;
    DesInverse(sk);
    UnchainedChained(DesWith(sk), DesWith(Reversed(sk)), iv, m);
    ChainedUnchained(DesWith(sk), DesWith(Reversed(sk)), iv, m);
  }

  lemma Des3CbcInverse(sk: seq<bv32>, iv: Block, m: seq<bv8>)
    requires |sk| == 96 && Whole(m)
    ensures Unmasked(Des3With(Reversed(sk)), iv, Masked(Des3With(sk), iv, m)) == m
    ensures Masked(Des3With(sk), iv, Unmasked(Des3With(Reversed(sk)), iv, m)) == m
  {
    hide Des3With, Masked, Unmasked;
    Des3Inverse(sk);
    UnmaskedMasked(Des3With(sk), Des3With(Reversed(sk)), iv, m);
    MaskedUnmasked(Des3With(sk), Des3With(Reversed(sk)), iv, m);
  }

  lemma KeysOfNot(key: Block)
    ensures KeysOf(NotBytes(key)) == NotKeys(KeysOf(key))
  {
    hide PairOf, KeySchedule, NotKeys, NotBytes;
    PairNot(key);
    KeyScheduleNot(PairOf(key));
  }

  lemma DesWithNot(sk: seq<bv32>, b: Block)
    requires |sk| == 32
    ensures DesWith(NotKeys(sk))(NotBytes(b)) == NotBytes(DesWith(sk)(b))
  {
    hide Crypt, PairOf, BytesOf, Complements, NotKeys, NotBytes;
    assert |NotKeys(sk)| == 32 by { NotKeysLength(sk); }
    PairNot(b);
    DesComplements(DES_BOXES);
    CryptNot(MIX(), sk, PairOf(b));
    BytesNot(Crypt(MIX(), sk, PairOf(b)));
  }

  lemma NotKeysLength(sk: seq<bv32>) ensures |NotKeys(sk)| == |sk| {}

  /** Inverting every bit of the key and the block inverts every bit of the result. */
  lemma DesComplement(key: Block, b: Block)
    ensures DesWith(KeysOf(NotBytes(key)))(NotBytes(b)) == NotBytes(DesWith(KeysOf(key))(b))
  {
    hide DesWith, NotBytes;
    KeysOfNot(key);
    DesWithNot(KeysOf(key), b);
  }

  /** So it does for three schedules in a row ... */
  lemma TripleNot(s1: seq<bv32>, s2: seq<bv32>, s3: seq<bv32>, b: Block)
    requires |s1| == |s2| == |s3| == 32
    ensures Des3With(TripleKeys(NotKeys(s1), NotKeys(s2), NotKeys(s3)))(NotBytes(b))
            == NotBytes(Des3With(TripleKeys(s1, s2, s3))(b))
  {
    hide DesWith, Des3With, NotBytes, TripleKeys;
    var b1 := DesWith(s1)(b);
    var b2 := DesWith(Reversed(s2))(b1);
    TripleIsEde(s1, s2, s3, b);
    TripleIsEde(NotKeys(s1), NotKeys(s2), NotKeys(s3), NotBytes(b));
    DesWithNot(s1, b);
    NotReversed(s2);
    DesWithNot(Reversed(s2), b1);
    DesWithNot(s3, b2);
  }

  /** All bytes of a longer key inverted. */
  function NotAll(key: seq<bv8>): (r: seq<bv8>)
    ensures |r| == |key|
  {
    seq(|key|, i requires 0 <= i < |key| => Inv8(key[i]))
  }

  lemma NotPart(key: seq<bv8>, i: nat)
    requires i + 8 <= |key|
    ensures NotAll(key)[i..i + 8] == NotBytes(key[i..i + 8])
  {
    hide Inv8;
  }

  /** ... and so for a 24-byte key ... */
  lemma Des3Complement(key: seq<bv8>, b: Block)
    requires |key| == 24
    ensures Des3With(ThreeKeys(NotAll(key)))(NotBytes(b)) == NotBytes(Des3With(ThreeKeys(key))(b))
  {
    var n := NotAll(key);
    hide Des3With, NotBytes, TripleKeys, KeysOf, NotAll;
    assert n[16..24] == n[16..] && key[16..24] == key[16..] && n[0..8] == n[..8] && key[0..8] == key[..8];
    NotPart(key, 0);
    NotPart(key, 8);
    NotPart(key, 16);
    KeysOfNot(key[..8]);
    KeysOfNot(key[8..16]);
    KeysOfNot(key[16..]);
    TripleNot(KeysOf(key[..8]), KeysOf(key[8..16]), KeysOf(key[16..]), b);
  }

  /** ... and for a 16-byte key. */
  lemma Des3ComplementTwo(key: seq<bv8>, b: Block)
    requires |key| == 16
    ensures Des3With(TwoKeys(NotAll(key)))(NotBytes(b)) == NotBytes(Des3With(TwoKeys(key))(b))
  {
    var key3 := key + key[..8];
    assert NotAll(key3) == NotAll(key) + NotAll(key)[..8];
    hide Des3With, NotBytes, ThreeKeys, TwoKeys, NotAll;
    TwoKeysAsThree(key);
    TwoKeysAsThree(NotAll(key));
    Des3Complement(key3, b);
  }

  // -------------------------------------------------------------------------- the round

  lemma XorInTwo(y: bv32, a: bv32, b: bv32) ensures Xor(Xor(y, a), b) == Xor(y, Xor(a, b)) {}

  /** One DES_ROUND: the half y takes in the mix of the half x and the subkey at k. */
  method Round(sk: array<bv32>, k: nat, x: bv32, y0: bv32) returns (y: bv32)
    requires k + 2 <= sk.Length
    ensures y == Xor(y0, MIX()(sk[k], sk[k + 1], x))
  {
    hide EvenBoxes, OddBoxes, Right4, Xor, DES_BOXES;
    var t := Xor(sk[k], x);
    y := Xor(y0, EvenBoxes(DES_BOXES, t));
    var u := Xor(sk[k + 1], Right4(x));
    y := Xor(y, OddBoxes(DES_BOXES, u));
    XorInTwo(y0, EvenBoxes(DES_BOXES, t), OddBoxes(DES_BOXES, u));
  }

  /** One line of rounds, as the code writes them: first X from Y, then Y from X. */
  method RoundLine(sk: array<bv32>, k: nat, x0: bv32, y0: bv32) returns (x: bv32, y: bv32)
    requires k + 4 <= sk.Length
    ensures Pair(x, y) == Rounds(MIX(), sk[k..k + 4], Pair(x0, y0))
  {
    x := Round(sk, k, y0, x0);
    y := Round(sk, k + 2, x, y0);
    var s := sk[k..k + 4];
    assert s[2..][2..] == [];
    assert Rounds(MIX(), s, Pair(x0, y0)) == Rounds(MIX(), s[2..], Pair(y0, x));
    assert Rounds(MIX(), s[2..], Pair(y0, x)) == Rounds(MIX(), s[2..][2..], Pair(x, y));
  }

  lemma LineDone(f: Mix, sk: seq<bv32>, k: nat, p: Pair)
    requires k % 2 == 0 && k + 4 <= |sk|
    ensures Rounds(f, sk[..k + 4], p) == Rounds(f, sk[k..k + 4], Rounds(f, sk[..k], p))
  {
    hide Rounds;
    assert sk[..k + 4] == sk[..k] + sk[k..k + 4];
    RoundsConcat(f, sk[..k], sk[k..k + 4], p);
  }

  lemma NoRounds(p: Pair) ensures Rounds(MIX(), [], p) == p {}

  /** The sixteen rounds of one schedule. */
  method SixteenRounds(sk: array<bv32>, at: nat, x0: bv32, y0: bv32) returns (x: bv32, y: bv32)
    requires at + 32 <= sk.Length
    ensures Pair(x, y) == Rounds(MIX(), sk[at..at + 32], Pair(x0, y0))
  {
    hide MIX, Rounds;
    x, y := x0, y0;
    assert Pair(x, y) == Rounds(MIX(), sk[at..at + 32][..0], Pair(x0, y0)) by { NoRounds(Pair(x0, y0)); }
    var i := 0;
    while i < 8
      invariant 0 <= i <= 8
      invariant Pair(x, y) == Rounds(MIX(), sk[at..at + 32][..4 * i], Pair(x0, y0))
    {
      x, y := RoundLine(sk, at + 4 * i, x, y);
      LineDone(MIX(), sk[at..at + 32], 4 * i, Pair(x0, y0));
      assert sk[at..at + 32][4 * i..4 * i + 4] == sk[at + 4 * i..at + 4 * i + 4];
      i := i + 1;
    }
    assert sk[at..at + 32][..32] == sk[at..at + 32];
  }
}
