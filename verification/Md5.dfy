/** Streaming MD5: a context that takes a message in pieces, and the padded message of RFC 1321. */
module Md5 {
  import opened Md5Block

  const INIT: seq<bv32> := [0x67452301, 0xefcdab89, 0x98badcfe, 0x10325476]

  const WORD: nat := 0x1_0000_0000

  // ------------------------------------------------------------------------ the whole message

  /** The state after a whole number of blocks. */
  function Fold(s: seq<bv32>, m: seq<bv8>): (r: seq<bv32>)
    requires |s| == 4 && |m| % 64 == 0
    ensures |r| == 4
  {
    if |m| == 0 then s else Compressed(Fold(s, m[..|m| - 64]), m[|m| - 64..])
  }

  function Full(n: nat): (f: nat)
    ensures f % 64 == 0 && f <= n < f + 64
  {
    n - n % 64
  }

  /** Section 3.1: how many bytes, 0x80 and zeros, bring the length to 56 modulo 64. */
  function PadLen(n: nat): (p: nat)
    ensures 1 <= p <= 64 && (n + p) % 64 == 56
  {
    if n % 64 < 56 then 56 - n % 64 else 120 - n % 64
  }

  lemma PadLenUnique(n: nat, p: nat)
    requires 1 <= p <= 64 && (n + p) % 64 == 56
    ensures p == PadLen(n) {}

  function Zeros(n: nat): (z: seq<bv8>)
    ensures |z| == n
  {
    seq(n, _ => 0)
  }

  /** The 64 bytes that padding is cut from. */
  function Padding(): (p: seq<bv8>)
    ensures |p| == 64
  {
    [0x80] + Zeros(63)
  }

  /** Section 3.2: the length in bits, low-order word first, modulo 2^64. */
  function LengthBytes(n: nat): (b: seq<bv8>)
    ensures |b| == 8
  {
    var bits := BitLength(n);
    Encoded([Bv(bits % WORD), Bv(bits / WORD)])
  }

  function Bv(w: nat): bv32
    requires w < WORD
  {
    w as bv32
  }

  lemma PadWhole(n: nat)
    ensures (n + PadLen(n) + 8) % 64 == 0 {}

  function Padded(m: seq<bv8>): (p: seq<bv8>)
    ensures |p| % 64 == 0
  {
    PadWhole(|m|);
    m + [0x80] + Zeros(PadLen(|m|) - 1) + LengthBytes(|m|)
  }

  /** MD5 of a message. */
  function Digest(m: seq<bv8>): (d: seq<bv8>)
    ensures |d| == 16
  {
    Encoded(Fold(INIT, Padded(m)))
  }

  lemma FoldMore(s: seq<bv32>, m: seq<bv8>, p: nat)
    requires |s| == 4 && p % 64 == 0 && p + 64 <= |m|
    ensures Fold(s, m[..p + 64]) == Compressed(Fold(s, m[..p]), m[p..p + 64])
  {
    assert m[..p + 64][..p] == m[..p] && m[..p + 64][p..] == m[p..p + 64];
  }

  lemma {:induction false} FoldConcat(s: seq<bv32>, a: seq<bv8>, b: seq<bv8>)
    requires |s| == 4 && |a| % 64 == 0 && |b| % 64 == 0
    ensures Fold(s, a + b) == Fold(Fold(s, a), b)
    decreases |b|
  {
    hide Compressed;
    if |b| == 0 {
      assert a + b == a;
    } else {
      var n := |b| - 64;
      assert (a + b)[..|a| + n] == a + b[..n] && (a + b)[|a| + n..] == b[n..];
      FoldConcat(s, a, b[..n]);
    }
  }

  // -------------------------------------------------------------------------- the bit counter

  function BitLength(n: nat): nat { 8 * n % (WORD * WORD) }

  function Joined(c0: nat, c1: nat): nat { c0 + WORD * c1 }

  /** The two counter words hold the bit length modulo 2^64. */
  predicate Counts(c0: nat, c1: nat, n: nat) {
    c0 < WORD && c1 < WORD && Joined(c0, c1) == BitLength(n)
  }

  /** MD5Update's addition of len bytes to the counter, with its carry. */
  function AddLow(c0: nat, len: nat): nat { (c0 + 8 * len % WORD) % WORD }

  function AddHigh(c0: nat, c1: nat, len: nat): nat {
    var high := if AddLow(c0, len) < 8 * len % WORD then (c1 + 1) % WORD else c1;
    (high + len / 0x2000_0000) % WORD
  }

  // A sum that wraps, and a sum of two halves that wrap
  lemma Wraps(a: nat, b: nat)
    requires a < WORD && b < WORD
    ensures (a + b) % WORD == a + b - (if (a + b) % WORD < b then WORD else 0) {}

  lemma WrapsTwice(a: nat, b: nat)
    ensures (a % WORD + b) % WORD == (a + b) % WORD {}

  lemma Halves(len: nat)
    ensures 8 * len == 8 * len % WORD + WORD * (len / 0x2000_0000) {}

  lemma Regrouped(a: nat, b: nat, k: nat, c0: nat, c1: nat, low: nat, hi: nat, carry: nat)
    requires a == WORD * WORD * k + c0 + WORD * c1 && b == low + WORD * hi
    ensures var s := c1 + carry + hi;
            a + b == WORD * WORD * (k + s / WORD) + (c0 + low - WORD * carry) + WORD * (s % WORD) {}

  lemma Unique(n: nat, k: nat, r: nat)
    requires n == WORD * WORD * k + r && r < WORD * WORD
    ensures n % (WORD * WORD) == r {}

  /** The two new words, as one sum each that wraps. */
  lemma AddedWords(c0: nat, c1: nat, len: nat)
    requires c0 < WORD
    ensures var (low, hi) := (8 * len % WORD, len / 0x2000_0000);
            var carry := if AddLow(c0, len) < low then 1 else 0;
            AddLow(c0, len) == c0 + low - WORD * carry < WORD && AddHigh(c0, c1, len) == (c1 + carry + hi) % WORD
  {
    var (low, hi) := (8 * len % WORD, len / 0x2000_0000);
    var carry := if AddLow(c0, len) < low then 1 else 0;
    Wraps(c0, low);
    WrapsTwice(c1 + carry, hi);
  }

  lemma CountsMore(c0: nat, c1: nat, n: nat, len: nat)
    requires Counts(c0, c1, n) && len < WORD
    ensures Counts(AddLow(c0, len), AddHigh(c0, c1, len), n + len)
  {
    hide AddLow, AddHigh;
    var (k, low, hi) := (8 * n / (WORD * WORD), 8 * len % WORD, len / 0x2000_0000);
    var carry := if AddLow(c0, len) < low then 1 else 0;
    Halves(len);
    AddedWords(c0, c1, len);
    Regrouped(8 * n, 8 * len, k, c0, c1, low, hi, carry);
    Unique(8 * (n + len), k + (c1 + carry + hi) / WORD, AddLow(c0, len) + WORD * AddHigh(c0, c1, len));
  }

  /** The counter tells how many bytes wait in the buffer. */
  lemma CountIndex(c0: nat, c1: nat, n: nat)
    requires Counts(c0, c1, n)
    ensures c0 / 8 % 64 == n % 64
  {
    var q := WORD * (8 * n / (WORD * WORD)) + c1;
    assert 8 * n == c0 + WORD * q;
    assert c0 / 8 == n - 0x2000_0000 * q;
  }

  // ---------------------------------------------------------- the unsigned guard of the loop

  /** The guard of MD5Update's block loop, in 32 bits, at its j-th test. */
  predicate Guard(part: nat, len: nat, j: nat) {
    (part + 64 * j + 63) % WORD < len
  }

  /** Every block that the loop reads lies within the len bytes of the input. */
  ghost predicate StaysInside(part: nat, len: nat) {
    forall k: nat :: (forall j: nat | j <= k :: Guard(part, len, j)) ==> Inside(part, len, k)
  }

  predicate Inside(part: nat, len: nat, k: nat) { part + 64 * k + 64 <= len }

  /** Where the loop should stop. */
  function Stop(part: nat, len: nat): nat
    requires part <= len
  {
    part + 64 * ((len - part) / 64)
  }

  /** The loop stops behind the last whole block of the message. */
  lemma FullStop(base: nat, part: nat, len: nat)
    requires base % 64 == 0 && part <= len
    ensures Full(base + (len - part)) == base + (Stop(part, len) - part) {}

  /** The loop reads nothing but its input exactly when i + 63 does not wrap at its stop. */
  lemma StaysInsideIff(part: nat, len: nat)
    requires part <= len < WORD
    ensures StaysInside(part, len) <==> Stop(part, len) + 63 < WORD
  {
    var q := (len - part) / 64;
    forall j: nat | j < q ensures Guard(part, len, j) {}
    if Stop(part, len) + 63 < WORD {
      assert !Guard(part, len, q);
      forall k: nat | forall j: nat | j <= k :: Guard(part, len, j) ensures Inside(part, len, k) {
        assert !(q <= k);
      }
    } else {
      assert Guard(part, len, q);
      assert !Inside(part, len, q);
    }
  }

  /** Where i + 63 does not wrap, the guard tells whether one more block is there. */
  lemma GuardTells(part: nat, len: nat, j: nat)
    requires part <= len && Stop(part, len) + 63 < WORD && j <= (len - part) / 64
    ensures Guard(part, len, j) <==> j < (len - part) / 64
    ensures Guard(part, len, j) ==> Inside(part, len, j)
  {
    assert part + 64 * j + 63 < WORD;
  }

  /** A call of len bytes after n bytes is read as meant. */
  predicate Safe(n: nat, len: nat) {
    len < WORD && (len < 64 - n % 64 || Stop(64 - n % 64, len) + 63 < WORD)
  }

  /** Every length up to 2^32 - 64 is safe ... */
  lemma SafeLengths(n: nat, len: nat)
    requires len <= WORD - 64
    ensures Safe(n, len) {}

  /** ... and after 63 bytes a call of 2^32 - 1 bytes reads past its input. */
  lemma UnsafeLength()
    ensures !Safe(63, WORD - 1) && !StaysInside(1, WORD - 1)
  {
    StaysInsideIff(1, WORD - 1);
  }

  // ------------------------------------------------------------------------------ the context

  class Context {
    const state: array<bv32>
    const buffer: array<bv8>
    var count0: nat
    var count1: nat
    ghost var message: seq<bv8>

    ghost predicate Sized() {
      state.Length == 4 && buffer.Length == 64
    }

    /** The context stands for the bytes it was given. */
    ghost predicate Valid()
      reads this, state, buffer
    {
      var f := Full(|message|);
      && Sized()
      && Counts(count0, count1, |message|)
      && state[..] == Fold(INIT, message[..f])
      && buffer[..|message| - f] == message[f..]
    }

    constructor ()
      ensures Sized() && fresh(state) && fresh(buffer)
    {
      state := new bv32[4];
      buffer := new bv8[64];
      count0, count1, message := 0, 0, [];
    }

    method Init()
      requires Sized()
      modifies this, state
      ensures Valid() && message == []
    {
      count0, count1, message := 0, 0, [];
      state[0], state[1], state[2], state[3] := 0x67452301, 0xefcdab89, 0x98badcfe, 0x10325476;
      assert state[..] == INIT;
    }

    /** MD5_memcpy into the buffer. */
    method Copy(at: nat, input: seq<bv8>)
      requires Sized() && at + |input| <= 64
      modifies buffer
      ensures buffer[..at] == old(buffer[..at]) && buffer[at..at + |input|] == input
    {
      var i := 0;
      while i < |input|
        invariant 0 <= i <= |input|
        invariant buffer[..at] == old(buffer[..at]) && buffer[at..at + i] == input[..i]
      {
        buffer[at + i] := input[i];
        i := i + 1;
      }
    }

    /** The number of bytes that wait in the buffer. */
    method Waiting(ghost n: nat) returns (index: nat)
      requires Counts(count0, count1, n)
      ensures index == n % 64
    {
      CountIndex(count0, count1, n);
      index := count0 / 8 % 64;
    }

    /** The bit counter of MD5Update, for len bytes after n bytes. */
    method AddLength(ghost n: nat, len: nat)
      requires Counts(count0, count1, n) && len < WORD
      modifies `count0, `count1
      ensures Counts(count0, count1, n + len)
    {
      assert count1 < WORD;
      hide Counts, BitLength, Joined;
      ghost var c0, c1 := count0, count1;
      CountsMore(c0, c1, n, len);
      var bits := 8 * len % WORD;
      count0 := (count0 + bits) % WORD;
      if count0 < bits {
        count1 := (count1 + 1) % WORD;
      }
      count1 := (count1 + len / 0x2000_0000) % WORD;
      assert count0 == AddLow(c0, len) && count1 == AddHigh(c0, c1, len);
    }

    /** The block loop of MD5Update, on the part of the message from base on. */
    method Blocks(input: seq<bv8>, part: nat, len: nat, ghost m: seq<bv8>, ghost base: nat) returns (i: nat)
      requires Sized() && part <= len <= |input| && Stop(part, len) + 63 < WORD
      requires base % 64 == 0 && base <= |m| && m[base..] == input[part..len]
      requires state[..] == Fold(INIT, m[..base])
      modifies state
      ensures i == Stop(part, len) && state[..] == Fold(INIT, m[..Full(|m|)])
    {
      hide Fold, Compressed, Full;
      i := part;
      ghost var j := 0;
      while (i + 63) % WORD < len
        invariant j <= (len - part) / 64 && i == part + 64 * j
        invariant state[..] == Fold(INIT, m[..base + 64 * j])
        decreases len - i
      {
        GuardTells(part, len, j);
        Slices(m, base, input, part, len, 64 * j);
        FoldMore(INIT, m, base + 64 * j);
        Transform(state, input[i..i + 64]);
        i := i + 64;
        j := j + 1;
      }
      GuardTells(part, len, j);
      FullStop(base, part, len);
    }

    /** The buffer filled up and taken in as the block at f. */
    method Fill(index: nat, input: seq<bv8>, ghost m: seq<bv8>, ghost f: nat)
      requires Sized() && index + |input| == 64 && f % 64 == 0 && f + 64 <= |m|
      requires state[..] == Fold(INIT, m[..f]) && buffer[..index] + input == m[f..f + 64]
      modifies state, buffer
      ensures state[..] == Fold(INIT, m[..f + 64])
    {
      hide Fold, Compressed;
      Copy(index, input);
      assert buffer[..] == buffer[..index] + buffer[index..index + |input|];
      FoldMore(INIT, m, f);
      Transform(state, buffer[..]);
    }

    /** The bytes behind the last whole block stay in the buffer. */
    method Keep(index: nat, input: seq<bv8>, ghost m: seq<bv8>)
      requires Sized() && index + |input| < 64 && Counts(count0, count1, |m|)
      requires state[..] == Fold(INIT, m[..Full(|m|)]) && buffer[..index] + input == m[Full(|m|)..]
      modifies this`message, buffer
      ensures Valid() && message == m
    {
      hide Fold, Counts;
      Copy(index, input);
      message := m;
      assert buffer[..index + |input|] == buffer[..index] + buffer[index..index + |input|];
    }

    /** MD5Update */
    method Update(input: seq<bv8>, len: nat)
      requires Valid() && len <= |input| && Safe(|message|, len)
      modifies this, state, buffer
      ensures Valid() && message == old(message) + input[..len]
    {
      assert len < WORD;
      hide Fold, Counts, BitLength, Joined, Safe, Full;
      ghost var n, m := |message|, message + input[..len];
      var index := Waiting(n);
      AddLength(n, len);
      assert |m| == n + len;
      assert Counts(count0, count1, |m|);
      var i := 0;
      if len >= 64 - index {
        i := TakeBlocks(index, input, len);
        index := 0;
        assert buffer[..0] == [];
      } else {
        ShortInput(message, input, len);
      }
      assert buffer[..index] + input[i..len] == m[Full(|m|)..];
      Keep(index, input[i..len], m);
    }

    /** Fills the buffer up and takes in all whole blocks; i is where the rest of the input starts. */
    method TakeBlocks(index: nat, input: seq<bv8>, len: nat) returns (i: nat)
      requires Sized() && index == |message| % 64 && 64 - index <= len <= |input| && Safe(|message|, len)
      requires state[..] == Fold(INIT, message[..Full(|message|)]) && buffer[..index] == message[Full(|message|)..]
      modifies state, buffer
      ensures var m := message + input[..len];
              i <= len < i + 64 && input[i..len] == m[Full(|m|)..] && state[..] == Fold(INIT, m[..Full(|m|)])
    {
      hide Fold, Safe, Stop, Compressed, Full;
      ghost var f, m := Full(|message|), message + input[..len];
      var part := 64 - index;
      LongInput(message, input, len);
      Fill(index, input[..part], m, f);
      i := Blocks(input, part, len, m, f + 64);
    }

    /** MD5Final; the context is wiped. */
    method Final() returns (digest: seq<bv8>)
      requires Valid()
      modifies this, state, buffer
      ensures digest == Digest(old(message))
      ensures state[..] == [0, 0, 0, 0] && count0 == count1 == 0 && buffer[..] == Zeros(64)
    {
      hide Fold, Counts, BitLength, Joined, Padded, Zeros, Encoded;
      Pad();
      FullWhole(message);
      digest := Encode(state[..]);
      Wipe();
    }

    method PadLength(ghost n: nat) returns (padLen: nat)
      requires Counts(count0, count1, n)
      ensures padLen == PadLen(n)
    {
      var index := Waiting(n);
      padLen := if index < 56 then 56 - index else 120 - index;
    }

    /** The update with the padding. */
    method PadOnly()
      requires Valid()
      modifies this, state, buffer
      ensures Valid() && message == old(message) + Padding()[..PadLen(|old(message)|)]
    {
      hide Fold, Counts, Padding, Full, PadLen;
      var padLen := PadLength(|message|);
      SafeLengths(|message|, padLen);
      Update(Padding(), padLen);
    }

    /** The two last updates: the padding and the length. */
    method Pad()
      requires Valid()
      modifies this, state, buffer
      ensures Valid() && message == Padded(old(message))
    {
      assert count0 < WORD && count1 < WORD;
      hide Fold, Counts, BitLength, Joined, Padded, Padding, LengthBytes, Zeros, Encoded, Bv, Safe, Full, PadLen;
      ghost var m := message;
      CountBytes(count0, count1, |m|);
      var bits := Encode([Bv(count0), Bv(count1)]);
      PadParts(m);
      PadOnly();
      SafeLengths(|message|, 8);
      Update(bits, 8);
      assert bits[..8] == bits;
    }

    method Wipe()
      requires Sized()
      modifies this, state, buffer
      ensures state[..] == [0, 0, 0, 0] && count0 == count1 == 0 && buffer[..] == Zeros(64)
    {
      state[0], state[1], state[2], state[3] := 0, 0, 0, 0;
      count0, count1, message := 0, 0, [];
      var i := 0;
      while i < 64
        invariant 0 <= i <= 64 && forall j | 0 <= j < i :: buffer[j] == 0
        invariant state[..] == [0, 0, 0, 0] && count0 == count1 == 0
      {
        buffer[i] := 0;
        i := i + 1;
      }
    }
  }

  lemma CountBytes(c0: nat, c1: nat, n: nat)
    requires Counts(c0, c1, n)
    ensures Encoded([Bv(c0), Bv(c1)]) == LengthBytes(n)
  {
    hide Encoded, Bv;
    var bits := BitLength(n);
    assert bits % WORD == c0 && bits / WORD == c1;
  }

  lemma PadParts(m: seq<bv8>)
    ensures m + Padding()[..PadLen(|m|)] + LengthBytes(|m|) == Padded(m)
  {
    hide LengthBytes, PadLen;
    assert Padding()[..PadLen(|m|)] == [0x80] + Zeros(PadLen(|m|) - 1);
  }

  lemma FullWhole(m: seq<bv8>)
    requires |m| % 64 == 0
    ensures m[..Full(|m|)] == m {}

  lemma Subslice<T>(s: seq<T>, a: nat, b: nat, i: nat, j: nat)
    requires a <= b <= |s| && i <= j <= b - a
    ensures s[a..b][i..j] == s[a + i..a + j]
  {
    var (u, v) := (s[a..b][i..j], s[a + i..a + j]);
    forall x | 0 <= x < |u| ensures u[x] == v[x] { assert u[x] == s[a..b][i + x] == s[a + i + x]; }
  }

  lemma Slices(m: seq<bv8>, base: nat, input: seq<bv8>, part: nat, len: nat, k: nat)
    requires base <= |m| && part <= len <= |input| && m[base..] == input[part..len]
    requires part + k + 64 <= len
    ensures base + k + 64 <= |m| && m[base + k..base + k + 64] == input[part + k..part + k + 64]
  {
    assert m[base..|m|] == m[base..];
    Subslice(m, base, |m|, k, k + 64);
    Subslice(input, part, len, k, k + 64);
  }

  /** How the message and the new bytes fall into blocks when no block is filled ... */
  lemma ShortInput(message: seq<bv8>, input: seq<bv8>, len: nat)
    requires len <= |input| && len < 64 - |message| % 64
    ensures var (m, n, f) := (message + input[..len], |message|, Full(|message|));
            && Full(|m|) == f && f + n % 64 == n && m[..f] == message[..f]
            && m[f..] == message[f..] + input[..len] {}

  /** ... and when one is. */
  lemma LongInput(message: seq<bv8>, input: seq<bv8>, len: nat)
    requires len <= |input| && 64 - |message| % 64 <= len && Safe(|message|, len)
    ensures var (m, n, f, part) := (message + input[..len], |message|, Full(|message|), 64 - |message| % 64);
            && f % 64 == 0 && (f + 64) % 64 == 0 && f + n % 64 == n && m[..f] == message[..f]
            && Stop(part, len) + 63 < WORD && f + 64 <= |m|
            && m[f..f + 64] == message[f..] + input[..part] && m[f + 64..] == input[part..len]
            && Full(|m|) == f + 64 + (Stop(part, len) - part) && Stop(part, len) <= len < Stop(part, len) + 64
            && m[Full(|m|)..] == input[Stop(part, len)..len] {}

  // ---------------------------------------------------------------------- messages in pieces

  function Concat(pieces: seq<seq<bv8>>): seq<bv8> {
    if |pieces| == 0 then [] else Concat(pieces[..|pieces| - 1]) + pieces[|pieces| - 1]
  }

  lemma NoPieces() ensures Concat([]) == [] {}

  lemma ConcatMore(pieces: seq<seq<bv8>>, i: nat)
    requires i < |pieces|
    ensures Concat(pieces[..i + 1]) == Concat(pieces[..i]) + pieces[i][..|pieces[i]|]
  {
    assert pieces[..i + 1][..i] == pieces[..i] && pieces[i][..|pieces[i]|] == pieces[i];
  }

  /** However a message is split into calls that are read as meant, the digest is that of the message. */
  method HashPieces(pieces: seq<seq<bv8>>) returns (digest: seq<bv8>)
    requires forall i | 0 <= i < |pieces| :: Safe(|Concat(pieces[..i])|, |pieces[i]|)
    ensures digest == Digest(Concat(pieces))
  {
    hide Digest, Safe, Fold, Counts, BitLength, Joined, Full, Concat;
    NoPieces();
    assert pieces[..0] == [];
    var c := new Context();
    c.Init();
    var i := 0;
    while i < |pieces|
      invariant 0 <= i <= |pieces| && fresh(c) && fresh(c.state) && fresh(c.buffer)
      invariant c.Valid() && c.message == Concat(pieces[..i])
    {
      ConcatMore(pieces, i);
      c.Update(pieces[i], |pieces[i]|);
      i := i + 1;
    }
    assert pieces[..i] == pieces;
    digest := c.Final();
  }

  /** A context is determined by its bytes, but for the stale end of its buffer. */
  lemma SameMessage(c: Context, d: Context)
    requires c.Valid() && d.Valid() && c.message == d.message
    ensures c.count0 == d.count0 && c.count1 == d.count1 && c.state[..] == d.state[..]
    ensures c.buffer[..|c.message| % 64] == d.buffer[..|c.message| % 64]
  {
    hide Fold;
    assert |c.message| - Full(|c.message|) == |c.message| % 64;
    assert c.count0 == (c.count0 + WORD * c.count1) % WORD;
    assert d.count0 == (d.count0 + WORD * d.count1) % WORD;
  }
}
