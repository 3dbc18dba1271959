/** DES blocks on 32-bit words: permutations and rounds, for any way of mixing a half with a subkey. */
module DesCipher {

  /** The two words X and Y of the code. */
  datatype Pair = Pair(x: bv32, y: bv32)

  function Swap(p: Pair): Pair { Pair(p.y, p.x) }

  function Not(p: Pair): Pair { Pair(Inv(p.x), Inv(p.y)) }

  function Xor(a: bv32, b: bv32): bv32 { a ^ b }

  function Inv(a: bv32): bv32 { !a }

  // Words without a differing bit are equal, words differing in every bit are inverse.
  lemma Same(a: bv32, b: bv32)
    requires a ^ b == 0
    ensures a == b {}

  lemma Inverted(a: bv32, b: bv32)
    requires a ^ b == 0xFFFFFFFF
    ensures a == Inv(b) {}

  // ------------------------------------------------------------- DES_IP and DES_FP

  // The two words after each exchange line of the macros
  function X4(x: bv32, y: bv32): bv32 { x ^ ((((x >> 4) ^ y) & 0x0F0F0F0F) << 4) }
  function Y4(x: bv32, y: bv32): bv32 { y ^ (((x >> 4) ^ y) & 0x0F0F0F0F) }
  function X16(x: bv32, y: bv32): bv32 { x ^ ((((x >> 16) ^ y) & 0x0000FFFF) << 16) }
  function Y16(x: bv32, y: bv32): bv32 { y ^ (((x >> 16) ^ y) & 0x0000FFFF) }
  function X2(x: bv32, y: bv32): bv32 { x ^ (((y >> 2) ^ x) & 0x33333333) }
  function Y2(x: bv32, y: bv32): bv32 { y ^ ((((y >> 2) ^ x) & 0x33333333) << 2) }
  function X8(x: bv32, y: bv32): bv32 { x ^ (((y >> 8) ^ x) & 0x00FF00FF) }
  function Y8(x: bv32, y: bv32): bv32 { y ^ ((((y >> 8) ^ x) & 0x00FF00FF) << 8) }
  function XOdd(x: bv32, y: bv32): bv32 { x ^ ((x ^ y) & 0xAAAAAAAA) }
  function YOdd(x: bv32, y: bv32): bv32 { y ^ ((x ^ y) & 0xAAAAAAAA) }
  function Left1(w: bv32): bv32 { (w << 1) | (w >> 31) }
  function Right1(w: bv32): bv32 { (w << 31) | (w >> 1) }

  // The lines of the macros
  function Exchange4(p: Pair): Pair { Pair(X4(p.x, p.y), Y4(p.x, p.y)) }
  function Exchange16(p: Pair): Pair { Pair(X16(p.x, p.y), Y16(p.x, p.y)) }
  function Exchange2(p: Pair): Pair { Pair(X2(p.x, p.y), Y2(p.x, p.y)) }
  function Exchange8(p: Pair): Pair { Pair(X8(p.x, p.y), Y8(p.x, p.y)) }
  function ExchangeOdd(p: Pair): Pair { Pair(XOdd(p.x, p.y), YOdd(p.x, p.y)) }
  function LeftY(p: Pair): Pair { Pair(p.x, Left1(p.y)) }
  function LeftX(p: Pair): Pair { Pair(Left1(p.x), p.y) }
  function RightY(p: Pair): Pair { Pair(p.x, Right1(p.y)) }
  function RightX(p: Pair): Pair { Pair(Right1(p.x), p.y) }

  function Ip(b: Pair): Pair {
    LeftX(ExchangeOdd(LeftY(Exchange8(Exchange2(Exchange16(Exchange4(b)))))))
  }

  function Fp(b: Pair): Pair {
    Exchange4(Exchange16(Exchange2(Exchange8(RightY(ExchangeOdd(RightX(b)))))))
  }

  lemma XorTwice(a: bv32, b: bv32) ensures Xor(Xor(a, b), b) == a {}

  /** The initial and final permutation undo each other. */
  lemma FpOfIp(b: Pair)
    ensures Fp(Ip(b)) == b {}

  lemma IpOfFp(b: Pair)
    ensures Ip(Fp(b)) == b {}

  lemma XorNotBits(a: bv32, b: bv32) ensures Xor(Inv(a), b) ^ Inv(Xor(a, b)) == 0 {}

  lemma XorNot(a: bv32, b: bv32)
    ensures Xor(Inv(a), b) == Inv(Xor(a, b))
  {
    XorNotBits(a, b);
    Same(Xor(Inv(a), b), Inv(Xor(a, b)));
  }

  lemma IpBits(b: Pair)
    ensures Ip(Not(b)).x ^ Ip(b).x == 0xFFFFFFFF && Ip(Not(b)).y ^ Ip(b).y == 0xFFFFFFFF {}

  lemma FpBits(b: Pair)
    ensures Fp(Not(b)).x ^ Fp(b).x == 0xFFFFFFFF && Fp(Not(b)).y ^ Fp(b).y == 0xFFFFFFFF {}

  lemma IpNot(b: Pair)
    ensures Ip(Not(b)) == Not(Ip(b))
  {
    hide Ip, Inv;
    IpBits(b);
    Inverted(Ip(Not(b)).x, Ip(b).x);
    Inverted(Ip(Not(b)).y, Ip(b).y);
  }

  lemma FpNot(b: Pair)
    ensures Fp(Not(b)) == Not(Fp(b))
  {
    hide Fp, Inv;
    FpBits(b);
    Inverted(Fp(Not(b)).x, Fp(b).x);
    Inverted(Fp(Not(b)).y, Fp(b).y);
  }

  // ------------------------------------------------------------------------- rounds

  /** What a round xors into one half, from its two subkey words and the other half. */
  type Mix = (bv32, bv32, bv32) -> bv32

  /** A subkey schedule: two words a round. */
  predicate Schedule(sk: seq<bv32>) { |sk| % 2 == 0 }

  /** All rounds of a schedule, the halves changing places after each. */
  function Rounds(f: Mix, sk: seq<bv32>, p: Pair): Pair
    requires Schedule(sk)
  {
    if |sk| == 0 then p
    else Rounds(f, sk[2..], Pair(p.y, Xor(p.x, f(sk[0], sk[1], p.y))))
  }

  /** The subkeys in the order of decryption: rounds reversed, the two words of each kept in order. */
  function Reversed(sk: seq<bv32>): (r: seq<bv32>)
    requires Schedule(sk)
    ensures |r| == |sk|
  {
    if |sk| == 0 then [] else Reversed(sk[2..]) + sk[..2]
  }

  lemma {:induction false} RoundsConcat(f: Mix, a: seq<bv32>, b: seq<bv32>, p: Pair)
    requires Schedule(a) && Schedule(b)
    ensures Rounds(f, a + b, p) == Rounds(f, b, Rounds(f, a, p))
  {
    if |a| == 0 {
      assert a + b == b;
    } else {
      assert (a + b)[2..] == a[2..] + b;
      RoundsConcat(f, a[2..], b, Pair(p.y, Xor(p.x, f(a[0], a[1], p.y))));
    }
  }

  /** The reversed schedule, run on the swapped result, leads back. */
  lemma {:induction false} RoundsInverse(f: Mix, sk: seq<bv32>, p: Pair)
    requires Schedule(sk)
    ensures Rounds(f, Reversed(sk), Swap(Rounds(f, sk, p))) == Swap(p)
  {
    if |sk| > 0 {
      var q := Pair(p.y, Xor(p.x, f(sk[0], sk[1], p.y)));
      XorTwice(p.x, f(sk[0], sk[1], p.y));
      RoundsInverse(f, sk[2..], q);
      RoundsConcat(f, Reversed(sk[2..]), sk[..2], Swap(Rounds(f, sk, p)));
      assert Rounds(f, sk[..2], Swap(q)) == Rounds(f, sk[..2][2..], Pair(q.x, Xor(q.y, f(sk[0], sk[1], q.x))));
    }
  }

  lemma {:induction false} ReversedAt(sk: seq<bv32>, i: nat)
    requires Schedule(sk) && i < |sk|
    ensures Reversed(sk)[i] == sk[if i % 2 == 0 then |sk| - 2 - i else |sk| - i]
  {
    if i < |sk| - 2 { ReversedAt(sk[2..], i); }
  }

  lemma {:induction false} ReversedConcat(a: seq<bv32>, b: seq<bv32>)
    requires Schedule(a) && Schedule(b)
    ensures Reversed(a + b) == Reversed(b) + Reversed(a)
  {
    if |a| == 0 {
      assert a + b == b;
    } else {
      assert (a + b)[2..] == a[2..] + b;
      ReversedConcat(a[2..], b);
    }
  }

  lemma ReversedTwice(sk: seq<bv32>)
    requires Schedule(sk)
    ensures Reversed(Reversed(sk)) == sk
  {
    forall i: nat | i < |sk| ensures Reversed(Reversed(sk))[i] == sk[i] {
      ReversedAt(Reversed(sk), i);
      ReversedAt(sk, if i % 2 == 0 then |sk| - 2 - i else |sk| - i);
    }
  }

  // ------------------------------------------------------------------ one block, DES and 3DES

  /** des_crypt */
  function Crypt(f: Mix, sk: seq<bv32>, b: Pair): Pair
    requires Schedule(sk)
  {
    Fp(Swap(Rounds(f, sk, Ip(b))))
  }

  lemma CryptInverse(f: Mix, sk: seq<bv32>, b: Pair)
    requires Schedule(sk)
    ensures Crypt(f, Reversed(sk), Crypt(f, sk, b)) == b
    ensures Crypt(f, sk, Crypt(f, Reversed(sk), b)) == b
  {
    CryptBack(f, sk, b);
    CryptBack(f, Reversed(sk), b);
    ReversedTwice(sk);
  }

  lemma CryptBack(f: Mix, sk: seq<bv32>, b: Pair)
    requires Schedule(sk)
    ensures Crypt(f, Reversed(sk), Crypt(f, sk, b)) == b
  {
    IpOfFp(Swap(Rounds(f, sk, Ip(b))));
    RoundsInverse(f, sk, Ip(b));
    FpOfIp(b);
  }

  /** des3_crypt: 48 rounds, the halves changing roles after 16 and 32, one IP and one FP. */
  function Crypt3(f: Mix, sk: seq<bv32>, b: Pair): Pair
    requires |sk| == 96
  {
    var p1 := Rounds(f, sk[..32], Ip(b));
    var p2 := Rounds(f, sk[32..64], Swap(p1));
    var p3 := Rounds(f, sk[64..], Swap(p2));
    Fp(Swap(p3))
  }

  /** The fused form is three DES operations in a row. */
  lemma Crypt3IsThreeCrypts(f: Mix, sk: seq<bv32>, b: Pair)
    requires |sk| == 96
    ensures Crypt3(f, sk, b) == Crypt(f, sk[64..], Crypt(f, sk[32..64], Crypt(f, sk[..32], b)))
  {
    var p1 := Rounds(f, sk[..32], Ip(b));
    IpOfFp(Swap(p1));
    IpOfFp(Swap(Rounds(f, sk[32..64], Swap(p1))));
  }

  lemma Crypt3Inverse(f: Mix, sk: seq<bv32>, b: Pair)
    requires |sk| == 96
    ensures Crypt3(f, Reversed(sk), Crypt3(f, sk, b)) == b && Crypt3(f, sk, Crypt3(f, Reversed(sk), b)) == b
  {
    Crypt3Back(f, sk, b);
    Crypt3Back(f, Reversed(sk), b);
    ReversedTwice(sk);
  }

  lemma Crypt3Back(f: Mix, sk: seq<bv32>, b: Pair)
    requires |sk| == 96
    ensures Crypt3(f, Reversed(sk), Crypt3(f, sk, b)) == b
  {
    var (k1, k2, k3) := (sk[..32], sk[32..64], sk[64..]);
    ReversedThirds(sk);
    var r := Reversed(sk);
    Crypt3IsThreeCrypts(f, sk, b);
    Crypt3IsThreeCrypts(f, r, Crypt3(f, sk, b));
    var b1 := Crypt(f, k1, b);
    var b2 := Crypt(f, k2, b1);
    CryptBack(f, k3, b2);
    CryptBack(f, k2, b1);
    CryptBack(f, k1, b);
  }

  lemma ReversedThirds(sk: seq<bv32>)
    requires |sk| == 96
    ensures var r := Reversed(sk);
            r[..32] == Reversed(sk[64..]) && r[32..64] == Reversed(sk[32..64]) && r[64..] == Reversed(sk[..32])
  {
    assert sk == sk[..32] + (sk[32..64] + sk[64..]);
    ReversedConcat(sk[..32], sk[32..64] + sk[64..]);
    ReversedConcat(sk[32..64], sk[64..]);
  }

  // ------------------------------------------------------------------------ complementation

  const KEY_BITS: bv32 := 0x3F3F3F3F

  /** All six-bit groups of all subkeys inverted. */
  function NotKeys(sk: seq<bv32>): (r: seq<bv32>)
    ensures |r| == |sk|
  {
    seq(|sk|, i requires 0 <= i < |sk| => Xor(sk[i], KEY_BITS))
  }

  /** Inverting the subkeys and reversing the rounds can be done in either order. */
  lemma NotReversed(sk: seq<bv32>)
    requires Schedule(sk)
    ensures NotKeys(Reversed(sk)) == Reversed(NotKeys(sk))
  {
    forall j | 0 <= j < |sk| ensures NotKeys(Reversed(sk))[j] == Reversed(NotKeys(sk))[j] {
      ReversedAt(sk, j);
      ReversedAt(NotKeys(sk), j);
    }
  }

  /** Inverting the subkey and the half leaves the mix as it was. */
  ghost predicate Complements(f: Mix) {
    forall k0, k1, x :: f(Xor(k0, KEY_BITS), Xor(k1, KEY_BITS), Inv(x)) == f(k0, k1, x)
  }

  lemma {:induction false} RoundsNot(f: Mix, sk: seq<bv32>, p: Pair)
    requires Schedule(sk) && Complements(f)
    ensures Rounds(f, NotKeys(sk), Not(p)) == Not(Rounds(f, sk, p))
  {
    if |sk| > 0 {
      var m := f(sk[0], sk[1], p.y);
      assert NotKeys(sk)[2..] == NotKeys(sk[2..]);
      XorNot(p.x, m);
      RoundsNot(f, sk[2..], Pair(p.y, Xor(p.x, m)));
    }
  }

  lemma CryptNot(f: Mix, sk: seq<bv32>, b: Pair)
    requires Schedule(sk) && Complements(f)
    ensures Crypt(f, NotKeys(sk), Not(b)) == Not(Crypt(f, sk, b))
  {
    IpNot(b);
    RoundsNot(f, sk, Ip(b));
    FpNot(Swap(Rounds(f, sk, Ip(b))));
  }
}
