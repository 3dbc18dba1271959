/** The Data Encryption Standard as FIPS 46-3 gives it, bit by bit, with the tables of the standard. */
module DesStandard {

  type Bits = seq<bool>

  /** A table of the standard, in rows as printed; its entries count bits from 1, the leftmost. */
  type Table = seq<seq<nat>>

  /** Entry i of a table with rows of w. */
  function EntryOf(t: Table, w: nat, i: nat): nat
    requires w > 0
  {
    if i / w < |t| && i % w < |t[i / w]| then t[i / w][i % w] else 0
  }

  predicate Bit(b: Bits, k: nat) { 1 <= k <= |b| && b[k - 1] }

  /** The bits that a table selects, in the order of the table. */
  function Select(b: Bits, t: Table, w: nat, n: nat): (r: Bits)
    requires w > 0
    ensures |r| == n
  {
    seq(n, i requires 0 <= i < n => Bit(b, EntryOf(t, w, i)))
  }

  /** The initial permutation, and its inverse. */
  const IP: Table := [
    [58, 50, 42, 34, 26, 18, 10,  2],
    [60, 52, 44, 36, 28, 20, 12,  4],
    [62, 54, 46, 38, 30, 22, 14,  6],
    [64, 56, 48, 40, 32, 24, 16,  8],
    [57, 49, 41, 33, 25, 17,  9,  1],
    [59, 51, 43, 35, 27, 19, 11,  3],
    [61, 53, 45, 37, 29, 21, 13,  5],
    [63, 55, 47, 39, 31, 23, 15,  7]
  ]

  const IP_INVERSE: Table := [
    [40,  8, 48, 16, 56, 24, 64, 32],
    [39,  7, 47, 15, 55, 23, 63, 31],
    [38,  6, 46, 14, 54, 22, 62, 30],
    [37,  5, 45, 13, 53, 21, 61, 29],
    [36,  4, 44, 12, 52, 20, 60, 28],
    [35,  3, 43, 11, 51, 19, 59, 27],
    [34,  2, 42, 10, 50, 18, 58, 26],
    [33,  1, 41,  9, 49, 17, 57, 25]
  ]

  /** The bit selection E. */
  const E: Table := [
    [32,  1,  2,  3,  4,  5],
    [ 4,  5,  6,  7,  8,  9],
    [ 8,  9, 10, 11, 12, 13],
    [12, 13, 14, 15, 16, 17],
    [16, 17, 18, 19, 20, 21],
    [20, 21, 22, 23, 24, 25],
    [24, 25, 26, 27, 28, 29],
    [28, 29, 30, 31, 32,  1]
  ]

  /** The permutation P. */
  const P: Table := [
    [16,  7, 20, 21],
    [29, 12, 28, 17],
    [ 1, 15, 23, 26],
    [ 5, 18, 31, 10],
    [ 2,  8, 24, 14],
    [32, 27,  3,  9],
    [19, 13, 30,  6],
    [22, 11,  4, 25]
  ]

  /** The permuted choices of the key schedule. */
  const PC1: Table := [
    [57, 49, 41, 33, 25, 17,  9],
    [ 1, 58, 50, 42, 34, 26, 18],
    [10,  2, 59, 51, 43, 35, 27],
    [19, 11,  3, 60, 52, 44, 36],
    [63, 55, 47, 39, 31, 23, 15],
    [ 7, 62, 54, 46, 38, 30, 22],
    [14,  6, 61, 53, 45, 37, 29],
    [21, 13,  5, 28, 20, 12,  4]
  ]

  const PC2: Table := [
    [14, 17, 11, 24,  1,  5],
    [ 3, 28, 15,  6, 21, 10],
    [23, 19, 12,  4, 26,  8],
    [16,  7, 27, 20, 13,  2],
    [41, 52, 31, 37, 47, 55],
    [30, 40, 51, 45, 33, 48],
    [44, 49, 39, 56, 34, 53],
    [46, 42, 50, 36, 29, 32]
  ]

  /** The left shifts of the sixteen iterations. */
  const SHIFTS: Table := [[1, 1, 2, 2, 2, 2, 2, 2], [1, 2, 2, 2, 2, 2, 2, 1]]

  // The selection functions
  const S1: Table := [
    [14,  4, 13,  1,  2, 15, 11,  8,  3, 10,  6, 12,  5,  9,  0,  7],
    [ 0, 15,  7,  4, 14,  2, 13,  1, 10,  6, 12, 11,  9,  5,  3,  8],
    [ 4,  1, 14,  8, 13,  6,  2, 11, 15, 12,  9,  7,  3, 10,  5,  0],
    [15, 12,  8,  2,  4,  9,  1,  7,  5, 11,  3, 14, 10,  0,  6, 13]
  ]
  const S2: Table := [
    [15,  1,  8, 14,  6, 11,  3,  4,  9,  7,  2, 13, 12,  0,  5, 10],
    [ 3, 13,  4,  7, 15,  2,  8, 14, 12,  0,  1, 10,  6,  9, 11,  5],
    [ 0, 14,  7, 11, 10,  4, 13,  1,  5,  8, 12,  6,  9,  3,  2, 15],
    [13,  8, 10,  1,  3, 15,  4,  2, 11,  6,  7, 12,  0,  5, 14,  9]
  ]
  const S3: Table := [
    [10,  0,  9, 14,  6,  3, 15,  5,  1, 13, 12,  7, 11,  4,  2,  8],
    [13,  7,  0,  9,  3,  4,  6, 10,  2,  8,  5, 14, 12, 11, 15,  1],
    [13,  6,  4,  9,  8, 15,  3,  0, 11,  1,  2, 12,  5, 10, 14,  7],
    [ 1, 10, 13,  0,  6,  9,  8,  7,  4, 15, 14,  3, 11,  5,  2, 12]
  ]
  const S4: Table := [
    [ 7, 13, 14,  3,  0,  6,  9, 10,  1,  2,  8,  5, 11, 12,  4, 15],
    [13,  8, 11,  5,  6, 15,  0,  3,  4,  7,  2, 12,  1, 10, 14,  9],
    [10,  6,  9,  0, 12, 11,  7, 13, 15,  1,  3, 14,  5,  2,  8,  4],
    [ 3, 15,  0,  6, 10,  1, 13,  8,  9,  4,  5, 11, 12,  7,  2, 14]
  ]
  const S5: Table := [
    [ 2, 12,  4,  1,  7, 10, 11,  6,  8,  5,  3, 15, 13,  0, 14,  9],
    [14, 11,  2, 12,  4,  7, 13,  1,  5,  0, 15, 10,  3,  9,  8,  6],
    [ 4,  2,  1, 11, 10, 13,  7,  8, 15,  9, 12,  5,  6,  3,  0, 14],
    [11,  8, 12,  7,  1, 14,  2, 13,  6, 15,  0,  9, 10,  4,  5,  3]
  ]
  const S6: Table := [
    [12,  1, 10, 15,  9,  2,  6,  8,  0, 13,  3,  4, 14,  7,  5, 11],
    [10, 15,  4,  2,  7, 12,  9,  5,  6,  1, 13, 14,  0, 11,  3,  8],
    [ 9, 14, 15,  5,  2,  8, 12,  3,  7,  0,  4, 10,  1, 13, 11,  6],
    [ 4,  3,  2, 12,  9,  5, 15, 10, 11, 14,  1,  7,  6,  0,  8, 13]
  ]
  const S7: Table := [
    [ 4, 11,  2, 14, 15,  0,  8, 13,  3, 12,  9,  7,  5, 10,  6,  1],
    [13,  0, 11,  7,  4,  9,  1, 10, 14,  3,  5, 12,  2, 15,  8,  6],
    [ 1,  4, 11, 13, 12,  3,  7, 14, 10, 15,  6,  8,  0,  5,  9,  2],
    [ 6, 11, 13,  8,  1,  4, 10,  7,  9,  5,  0, 15, 14,  2,  3, 12]
  ]
  const S8: Table := [
    [13,  2,  8,  4,  6, 15, 11,  1, 10,  9,  3, 14,  5,  0, 12,  7],
    [ 1, 15, 13,  8, 10,  3,  7,  4, 12,  5,  6, 11,  0, 14,  9,  2],
    [ 7, 11,  4,  1,  9, 12, 14,  2,  0,  6, 10, 13, 15,  3,  5,  8],
    [ 2,  1, 14,  7,  4, 10,  8, 13, 15, 12,  9,  0,  3,  5,  6, 11]
  ]

  /** The primitive function S1 to S8, counted from 0. */
  function BoxTable(j: nat): (t: Table)
    requires j < 8
    ensures |t| == 4 && |t[0]| == |t[1]| == |t[2]| == |t[3]| == 16
  {
    if j == 0 then S1 else if j == 1 then S2 else if j == 2 then S3 else if j == 3 then S4
    else if j == 4 then S5 else if j == 5 then S6 else if j == 6 then S7 else S8
  }

  // ------------------------------------------------------------------------- the key schedule

  function Rotated(b: Bits, s: nat): (r: Bits)
    requires s <= |b|
    ensures |r| == |b|
  {
    b[s..] + b[..s]
  }

  function Shift(n: nat): nat
    requires n < 16
    ensures Shift(n) <= 2
  {
    EntryOf(SHIFTS, 8, n)
  }

  /** The blocks C and D, 28 bits each, after n iterations. */
  function CD(key: Bits, n: nat): (b: Bits)
    requires n <= 16
    ensures |b| == 56
  {
    if n == 0 then Select(key, PC1, 7, 56)
    else
      var b := CD(key, n - 1);
      Rotated(b[..28], Shift(n - 1)) + Rotated(b[28..], Shift(n - 1))
  }

  /** The key of iteration n. */
  function KeyOf(key: Bits, n: nat): (k: Bits)
    requires 1 <= n <= 16
    ensures |k| == 48
  {
    Select(CD(key, n), PC2, 6, 48)
  }

  // ------------------------------------------------------------------------ the cipher function

  function Mod2(a: Bits, b: Bits): (r: Bits)
    requires |a| == |b|
    ensures |r| == |a|
  {
    seq(|a|, i requires 0 <= i < |a| => a[i] != b[i])
  }

  function Number(b: bool): nat { if b then 1 else 0 }

  /** What S-box j makes of six bits: the first and last give the row, the others the column. */
  function BoxOf(j: nat, b: Bits): nat
    requires j < 8 && |b| == 6
  {
    var row := 2 * Number(b[0]) + Number(b[5]);
    var column := 8 * Number(b[1]) + 4 * Number(b[2]) + 2 * Number(b[3]) + Number(b[4]);
    BoxTable(j)[row][column]
  }

  /** Bit m, from the left, of a number of four bits. */
  predicate NibbleBit(s: nat, m: nat) {
    (s / (if m == 0 then 8 else if m == 1 then 4 else if m == 2 then 2 else 1)) % 2 == 1
  }

  function Boxes(x: Bits): (r: Bits)
    requires |x| == 48
    ensures |r| == 32
  {
    seq(32, i requires 0 <= i < 32 => NibbleBit(BoxOf(i / 4, x[6 * (i / 4)..6 * (i / 4) + 6]), i % 4))
  }

  /** f(R, K) */
  function F(r: Bits, k: Bits): (b: Bits)
    requires |r| == 32 && |k| == 48
    ensures |b| == 32
  {
    Select(Boxes(Mod2(Select(r, E, 6, 48), k)), P, 4, 32)
  }

  // ------------------------------------------------------------------------------ enciphering

  datatype Halves = Halves(l: Bits, r: Bits)

  /** L and R after n iterations. */
  function Iterated(key: Bits, block: Bits, n: nat): (h: Halves)
    requires n <= 16
    ensures |h.l| == |h.r| == 32
  {
    if n == 0 then
      var b := Select(block, IP, 8, 64);
      Halves(b[..32], b[32..])
    else
      var h := Iterated(key, block, n - 1);
      Halves(h.r, Mod2(h.l, F(h.r, KeyOf(key, n))))
  }

  /** The preoutput R16 L16 through the inverse of the initial permutation. */
  function Enciphered(key: Bits, block: Bits): (r: Bits)
    ensures |r| == 64
  {
    var h := Iterated(key, block, 16);
    Select(h.r + h.l, IP_INVERSE, 8, 64)
  }
}
