/** The mixing function of DES, for S-boxes of any contents. */
module DesRound {
  import opened DesCipher

  /** The eight expanded S-boxes, as functions of six bits. */
  datatype Boxes = Boxes(s1: bv32 -> bv32, s2: bv32 -> bv32, s3: bv32 -> bv32, s4: bv32 -> bv32,
                         s5: bv32 -> bv32, s6: bv32 -> bv32, s7: bv32 -> bv32, s8: bv32 -> bv32)

  // The four six-bit groups of a word
  function Six0(t: bv32): bv32 { t & 0x3F }
  function Six8(t: bv32): bv32 { (t >> 8) & 0x3F }
  function Six16(t: bv32): bv32 { (t >> 16) & 0x3F }
  function Six24(t: bv32): bv32 { (t >> 24) & 0x3F }

  function Right4(x: bv32): bv32 { (x << 28) | (x >> 4) }

  function Xor4(a: bv32, b: bv32, c: bv32, d: bv32): bv32 { Xor(Xor(Xor(a, b), c), d) }

  // The two lookups of a round, four S-boxes each
  function EvenBoxes(sb: Boxes, t: bv32): bv32 {
    Xor4(sb.s8(Six0(t)), sb.s6(Six8(t)), sb.s4(Six16(t)), sb.s2(Six24(t)))
  }

  function OddBoxes(sb: Boxes, t: bv32): bv32 {
    Xor4(sb.s7(Six0(t)), sb.s5(Six8(t)), sb.s3(Six16(t)), sb.s1(Six24(t)))
  }

  /** What DES_ROUND(X, Y) xors into Y, for subkey words k0 and k1. */
  function RoundMix(sb: Boxes, k0: bv32, k1: bv32, x: bv32): bv32 {
    Xor(EvenBoxes(sb, Xor(k0, x)), OddBoxes(sb, Xor(k1, Right4(x))))
  }

  // Inverting both the subkey's six-bit groups and the half leaves the S-box indices as they were.
  lemma SixNot(k: bv32, x: bv32)
    ensures var (t, u) := (Xor(k, x), Xor(Xor(k, KEY_BITS), Inv(x)));
            Six0(u) == Six0(t) && Six8(u) == Six8(t) && Six16(u) == Six16(t) && Six24(u) == Six24(t) {}

  lemma EvenBoxesNot(sb: Boxes, k: bv32, x: bv32)
    ensures EvenBoxes(sb, Xor(Xor(k, KEY_BITS), Inv(x))) == EvenBoxes(sb, Xor(k, x))
  {
    hide Six0, Six8, Six16, Six24, Xor, Inv, KEY_BITS;
    SixNot(k, x);
  }

  lemma OddBoxesNot(sb: Boxes, k: bv32, x: bv32)
    ensures OddBoxes(sb, Xor(Xor(k, KEY_BITS), Inv(x))) == OddBoxes(sb, Xor(k, x))
  {
    hide Six0, Six8, Six16, Six24, Xor, Inv, KEY_BITS;
    SixNot(k, x);
  }

  lemma Right4Bits(x: bv32) ensures Right4(Inv(x)) ^ Inv(Right4(x)) == 0 {}

  lemma Right4Not(x: bv32)
    ensures Right4(Inv(x)) == Inv(Right4(x))
  {
    hide *;
    Right4Bits(x);
    Same(Right4(Inv(x)), Inv(Right4(x)));
  }

  /** Inverting the subkey and the half leaves the mix as it was. */
  lemma RoundMixNot(sb: Boxes, k0: bv32, k1: bv32, x: bv32)
    ensures RoundMix(sb, Xor(k0, KEY_BITS), Xor(k1, KEY_BITS), Inv(x)) == RoundMix(sb, k0, k1, x)
  {
    hide Right4, Xor, Inv, EvenBoxes, OddBoxes;
    EvenBoxesNot(sb, k0, x);
    Right4Not(x);
    OddBoxesNot(sb, k1, Right4(x));
  }

  /** DES_ROUND with these S-boxes. */
  function MixOf(sb: Boxes): Mix {
    (k0: bv32, k1: bv32, x: bv32) => RoundMix(sb, k0, k1, x)
  }

  lemma DesComplements(sb: Boxes)
    ensures Complements(MixOf(sb))
  {
    forall k0, k1, x ensures MixOf(sb)(Xor(k0, KEY_BITS), Xor(k1, KEY_BITS), Inv(x)) == MixOf(sb)(k0, k1, x) {
      RoundMixNot(sb, k0, k1, x);
    }
  }
}
