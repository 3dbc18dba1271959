/** Machine words as naturals, read and written one bit at a time. */
module Words {

  function Pow2(k: nat): (r: nat)
    ensures r > 0
  {
    if k == 0 then 1 else 2 * Pow2(k - 1)
  }

  /** w & (1 << i) */
  predicate Bit(w: nat, i: nat) {
    if i == 0 then w % 2 == 1 else Bit(w / 2, i - 1)
  }

  /** w | (1 << i) */
  function SetBit(w: nat, i: nat): (r: nat) {
    if i == 0 then w / 2 * 2 + 1 else 2 * SetBit(w / 2, i - 1) + w % 2
  }

  /** w & ~(1 << i) */
  function ClearBit(w: nat, i: nat): (r: nat) {
    if i == 0 then w / 2 * 2 else 2 * ClearBit(w / 2, i - 1) + w % 2
  }

  lemma {:induction false} Pow2Add(a: nat, b: nat)
    ensures Pow2(a + b) == Pow2(a) * Pow2(b)
  {
    if a > 0 { Pow2Add(a - 1, b); }
  }

  lemma {:induction false} Pow2Mono(a: nat, b: nat)
    requires a <= b
    ensures Pow2(a) <= Pow2(b)
    ensures a < b ==> Pow2(a) < Pow2(b)
  {
    if a < b { Pow2Mono(a, b - 1); }
  }

  lemma {:induction false} SetBitBits(w: nat, i: nat, j: nat)
    ensures Bit(SetBit(w, i), j) <==> i == j || Bit(w, j)
  {
    if i > 0 && j > 0 { SetBitBits(w / 2, i - 1, j - 1); }
  }

  lemma {:induction false} ClearBitBits(w: nat, i: nat, j: nat)
    ensures Bit(ClearBit(w, i), j) <==> i != j && Bit(w, j)
  {
    if i > 0 && j > 0 { ClearBitBits(w / 2, i - 1, j - 1); }
  }

  lemma {:induction false} SetBitBound(w: nat, i: nat, k: nat)
    requires w < Pow2(k) && i < k
    ensures SetBit(w, i) < Pow2(k)
  {
    if i > 0 { SetBitBound(w / 2, i - 1, k - 1); }
  }

  lemma {:induction false} ClearBitBound(w: nat, i: nat)
    ensures ClearBit(w, i) <= w
  {
    if i > 0 { ClearBitBound(w / 2, i - 1); }
  }

  /** w >> k */
  function High(w: nat, k: nat): (r: nat) {
    if k == 0 then w else High(w / 2, k - 1)
  }

  /** w & ((1 << k) - 1) */
  function Low(w: nat, k: nat): (r: nat) {
    if k == 0 then 0 else 2 * Low(w / 2, k - 1) + w % 2
  }

  /** h << k | l, for l below 1 << k */
  function Join(h: nat, l: nat, k: nat): (r: nat) {
    if k == 0 then h else 2 * Join(h, l / 2, k - 1) + l % 2
  }

  lemma {:induction false} JoinParts(h: nat, l: nat, k: nat)
    requires l < Pow2(k)
    ensures High(Join(h, l, k), k) == h && Low(Join(h, l, k), k) == l
  {
    if k > 0 { JoinParts(h, l / 2, k - 1); }
  }

  /** Bits from k on are the bits of the high part. */
  lemma {:induction false} HighBits(w: nat, k: nat, j: nat)
    ensures Bit(High(w, k), j) <==> Bit(w, k + j)
  {
    if k > 0 { HighBits(w / 2, k - 1, j); }
  }

  /** Changing bit k + j changes bit j of the high part and leaves the low part alone. */
  lemma {:induction false} SetHighBit(w: nat, k: nat, j: nat)
    ensures High(SetBit(w, k + j), k) == SetBit(High(w, k), j)
    ensures Low(SetBit(w, k + j), k) == Low(w, k)
  {
    if k > 0 {
      assert SetBit(w, k + j) / 2 == SetBit(w / 2, k - 1 + j);
      SetHighBit(w / 2, k - 1, j);
    }
  }

  lemma {:induction false} ClearHighBit(w: nat, k: nat, j: nat)
    ensures High(ClearBit(w, k + j), k) == ClearBit(High(w, k), j)
    ensures Low(ClearBit(w, k + j), k) == Low(w, k)
  {
    if k > 0 {
      assert ClearBit(w, k + j) / 2 == ClearBit(w / 2, k - 1 + j);
      ClearHighBit(w / 2, k - 1, j);
    }
  }

  lemma {:induction false} SomeBit(w: nat, k: nat) returns (i: nat)
    requires 0 < w < Pow2(k)
    ensures i < k && Bit(w, i)
  {
    if w % 2 == 1 { i := 0; } else { var j := SomeBit(w / 2, k - 1); i := j + 1; }
  }

  lemma {:induction false} SomeClearBit(w: nat, k: nat) returns (i: nat)
    requires w < Pow2(k) - 1
    ensures i < k && !Bit(w, i)
  {
    if w % 2 == 0 { i := 0; } else { var j := SomeClearBit(w / 2, k - 1); i := j + 1; }
  }

  /** Pow2(k) - 1 has exactly its k low bits set. */
  lemma {:induction false} MaskBits(k: nat, j: nat)
    ensures Bit(Pow2(k) - 1, j) <==> j < k
  {
    if k == 0 {
      NoBits(j);
    } else if j > 0 {
      assert (Pow2(k) - 1) / 2 == Pow2(k - 1) - 1;
      MaskBits(k - 1, j - 1);
    }
  }

  lemma {:induction false} NoBits(j: nat)
    ensures !Bit(0, j)
  {
    if j > 0 { NoBits(j - 1); }
  }

  /** Clearing a bit below n leaves the bits from n on alone. */
  lemma {:induction false} ClearLowBit(w: nat, i: nat, n: nat)
    requires i < n
    ensures High(ClearBit(w, i), n) == High(w, n)
  {
    if i > 0 { ClearLowBit(w / 2, i - 1, n - 1); }
  }

  /** (1 << a) >> k */
  lemma {:induction false} HighOfPow2(a: nat, k: nat)
    ensures High(Pow2(a), k) == if k <= a then Pow2(a - k) else 0
  {
    if k > 0 && a > 0 { HighOfPow2(a - 1, k - 1); }
    else if k > 0 { HighIsZero(0, k - 1); }
  }

  lemma {:induction false} HighNext(w: nat, k: nat)
    ensures High(w, k + 1) == High(w, k) / 2
  {
    if k > 0 { HighNext(w / 2, k - 1); }
  }

  lemma {:induction false} HighIsZero(w: nat, k: nat)
    ensures High(w, k) == 0 <==> w < Pow2(k)
  {
    if k > 0 { HighIsZero(w / 2, k - 1); }
  }
}
