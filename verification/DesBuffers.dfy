/** The DES contexts and the functions that work on byte buffers in place. */
module DesBuffers {
  import opened Bytes
  import opened Des
  import opened DesCipher
  import opened DesKeys
  import opened DesModes

  // ------------------------------------------------------------------------ key schedules

  /** des_main_ks writes the schedule of a key to sk + at. */
  method MainKs(sk: array<bv32>, at: nat, key: Block)
    requires at + 32 <= sk.Length
    modifies sk
    ensures sk[..] == old(sk[..at]) + KeysOf(key) + old(sk[at + 32..])
  {
    hide *;
    ghost var k := PairOf(key);
    var h := Pc1(PairOf(key));
    ghost var was := sk[..];
    NoSubkeys(k);
    var i := 0;
    while i < 16
      invariant 0 <= i <= 16
      invariant h == Halves(k, i)
      invariant |sk[..]| == |was|
      invariant sk[..at] == was[..at] && sk[at + 32..] == was[at + 32..]
      invariant sk[at..at + 2 * i] == Subkeys(k, i)
    {
      h := Turned(i, h);
      sk[at + 2 * i] := Subkey0(h);
      sk[at + 2 * i + 1] := Subkey1(h);
      MoreSubkeys(k, i);
      assert sk[at..at + 2 * i + 2] == sk[at..at + 2 * i] + [Subkey0(h), Subkey1(h)];
      i := i + 1;
    }
    assert KeysOf(key) == Subkeys(k, 16) by { AllSubkeys(key); }
    assert sk[..] == sk[..at] + sk[at..at + 32] + sk[at + 32..];
  }

  lemma NoSubkeys(k: Pair)
    ensures Halves(k, 0) == Pc1(k) && Subkeys(k, 0) == [] {}

  lemma MoreSubkeys(k: Pair, i: nat)
    ensures Halves(k, i + 1) == Turned(i, Halves(k, i))
    ensures Subkeys(k, i + 1) == Subkeys(k, i) + [Subkey0(Halves(k, i + 1)), Subkey1(Halves(k, i + 1))]
  {
    hide Turned, Subkey0, Subkey1, Pc1;
  }

  lemma AllSubkeys(key: Block)
    ensures KeysOf(key) == Subkeys(PairOf(key), 16)
  {
    hide Subkeys, PairOf;
  }

  /** The words from at on are the first n of s. */
  predicate Holds(a: seq<bv32>, at: nat, s: seq<bv32>, n: nat) {
    at + n <= |a| && n <= |s| && a[at..at + n] == s[..n]
  }

  function Put(a: seq<bv32>, at: nat, v0: bv32, v1: bv32): (b: seq<bv32>)
    requires at + 2 <= |a|
    ensures |b| == |a|
  {
    a[at := v0][at + 1 := v1]
  }

  /** Two neighbouring words of a schedule. */
  method PutRound(a: array<bv32>, at: nat, v0: bv32, v1: bv32)
    requires at + 2 <= a.Length
    modifies a
    ensures a[..] == Put(old(a[..]), at, v0, v1)
  {
    a[at] := v0;
    a[at + 1] := v1;
  }

  lemma HoldsApart(a: seq<bv32>, at: nat, s: seq<bv32>, n: nat, p: nat, v0: bv32, v1: bv32)
    requires Holds(a, at, s, n) && p + 2 <= |a| && (p + 2 <= at || at + n <= p)
    ensures Holds(Put(a, p, v0, v1), at, s, n) {}

  lemma HoldsMore(a: seq<bv32>, at: nat, s: seq<bv32>, n: nat)
    requires Holds(a, at, s, n) && at + n + 2 <= |a| && n + 2 <= |s|
    ensures Holds(Put(a, at + n, s[n], s[n + 1]), at, s, n + 2)
  {
    assert Put(a, at + n, s[n], s[n + 1])[at..at + n + 2] == a[at..at + n] + [s[n], s[n + 1]];
    assert s[..n + 2] == s[..n] + [s[n], s[n + 1]];
  }

  lemma HoldsAll(a: seq<bv32>, s0: seq<bv32>, s1: seq<bv32>, s2: seq<bv32>)
    requires |a| == 96 && |s0| == |s1| == |s2| == 32
    requires Holds(a, 0, s0, 32) && Holds(a, 32, s1, 32) && Holds(a, 64, s2, 32)
    ensures a == s0 + s1 + s2
  {
    assert a == a[0..32] + a[32..64] + a[64..96];
    assert s0[..32] == s0 && s1[..32] == s1 && s2[..32] == s2;
  }

  lemma HoldsAt(a: seq<bv32>, at: nat, s: seq<bv32>, n: nat, j: nat)
    requires Holds(a, at, s, n) && j < n
    ensures at + j < |a| && j < |s| && a[at + j] == s[j]
  {
    assert a[at..at + n][j] == s[..n][j];
  }

  lemma RoundReversed(sk: seq<bv32>, i: nat)
    requires |sk| % 2 == 0 && i % 2 == 0 && i < |sk|
    ensures Reversed(sk)[i] == sk[|sk| - 2 - i] && Reversed(sk)[i + 1] == sk[|sk| - 1 - i]
  {
    hide Reversed;
    ReversedAt(sk, i);
    ReversedAt(sk, i + 1);
  }

  class DesContext {
    const esk: array<bv32>
    const dsk: array<bv32>

    ghost predicate Valid() {
      esk != dsk && esk.Length == 32 && dsk.Length == 32
    }

    /** The context decrypts what it encrypts. */
    ghost predicate Keyed()
      reads this, esk, dsk
    {
      Valid() && dsk[..] == Reversed(esk[..])
    }

    constructor ()
      ensures Valid() && fresh(esk) && fresh(dsk)
    {
      esk := new bv32[32];
      dsk := new bv32[32];
    }

    /** The loop that fills dsk with the rounds of esk in reverse. */
    method ReverseKeys()
      requires Valid()
      modifies dsk
      ensures Keyed() && esk[..] == old(esk[..])
    {
      hide Reversed;
      ghost var keys := esk[..];
      var i := 0;
      while i < 32
        invariant 0 <= i <= 32 && i % 2 == 0
        invariant esk[..] == keys
        invariant forall k | 0 <= k < i :: dsk[k] == Reversed(keys)[k]
      {
        RoundReversed(keys, i);
        assert esk[30 - i] == keys[30 - i] && esk[31 - i] == keys[31 - i];
        dsk[i] := esk[30 - i];
        dsk[i + 1] := esk[31 - i];
        i := i + 2;
      }
    }

    /** my_des_set_key */
    method SetKey(key: Block)
      requires Valid()
      modifies esk, dsk
      ensures Keyed() && esk[..] == KeysOf(key)
    {
      hide KeysOf, Reversed;
      ghost var keys := KeysOf(key);
      MainKs(esk, 0, key);
      assert esk[..] == keys;
      ReverseKeys();
    }
  }

  /** des3_set_2keys after i words of each schedule. */
  predicate Filled2(e: seq<bv32>, d: seq<bv32>, k1: seq<bv32>, k2: seq<bv32>, i: nat)
  {
    && |e| == |d| == 96 && |k1| == |k2| == 32
    && Holds(e, 0, k1, 32) && Holds(d, 32, k2, 32)
    && Holds(d, 0, Reversed(k1), i) && Holds(e, 32, Reversed(k2), i)
    && Holds(e, 64, k1, i) && Holds(d, 64, Reversed(k1), i)
  }

  /** The first two of the four copies of a turn: the reversed k1 in d and the reversed k2 in e. */
  lemma Step2First(e: seq<bv32>, d: seq<bv32>, k1: seq<bv32>, k2: seq<bv32>, i: nat)
    requires Filled2(e, d, k1, k2, i) && i % 2 == 0 && i < 32
    ensures var d1 := Put(d, i, e[30 - i], e[31 - i]);
            var e1 := Put(e, i + 32, d1[62 - i], d1[63 - i]);
            && Holds(d1, 0, Reversed(k1), i + 2) && Holds(d1, 32, k2, 32) && Holds(d1, 64, Reversed(k1), i)
            && Holds(e1, 0, k1, 32) && Holds(e1, 32, Reversed(k2), i + 2) && Holds(e1, 64, k1, i)
  {
    hide Holds, Put, Reversed;
    var d1 := Put(d, i, e[30 - i], e[31 - i]);
    RoundReversed(k1, i);
    RoundReversed(k2, i);
    HoldsAt(e, 0, k1, 32, 30 - i); HoldsAt(e, 0, k1, 32, 31 - i);
    HoldsMore(d, 0, Reversed(k1), i);
    HoldsApart(d, 32, k2, 32, i, e[30 - i], e[31 - i]);
    HoldsApart(d, 64, Reversed(k1), i, i, e[30 - i], e[31 - i]);
    HoldsAt(d1, 32, k2, 32, 30 - i); HoldsAt(d1, 32, k2, 32, 31 - i);
    HoldsMore(e, 32, Reversed(k2), i);
    HoldsApart(e, 0, k1, 32, i + 32, d1[62 - i], d1[63 - i]);
    HoldsApart(e, 64, k1, i, i + 32, d1[62 - i], d1[63 - i]);
  }

  /** The copy of one round of a schedule from the front of the array into its third part. */
  lemma CopyRound(a: seq<bv32>, s: seq<bv32>, t: seq<bv32>, m: nat, n: nat, i: nat)
    requires |a| == 96 && |s| == 32 && i + 2 <= n <= 32 && m <= 32
    requires Holds(a, 0, s, n) && Holds(a, 32, t, m) && Holds(a, 64, s, i)
    ensures var b := Put(a, i + 64, a[i], a[1 + i]); Holds(b, 0, s, n) && Holds(b, 32, t, m) && Holds(b, 64, s, i + 2)
  {
    hide Holds, Put;
    HoldsAt(a, 0, s, n, i); HoldsAt(a, 0, s, n, i + 1);
    HoldsMore(a, 64, s, i);
    HoldsApart(a, 0, s, n, i + 64, a[i], a[1 + i]);
    HoldsApart(a, 32, t, m, i + 64, a[i], a[1 + i]);
  }

  lemma Step2(e: seq<bv32>, d: seq<bv32>, k1: seq<bv32>, k2: seq<bv32>, i: nat)
    requires Filled2(e, d, k1, k2, i) && i % 2 == 0 && i < 32
    ensures var d1 := Put(d, i, e[30 - i], e[31 - i]);
            var e1 := Put(e, i + 32, d1[62 - i], d1[63 - i]);
            var e2 := Put(e1, i + 64, e1[i], e1[1 + i]);
            var d2 := Put(d1, i + 64, d1[i], d1[1 + i]);
            Filled2(e2, d2, k1, k2, i + 2)
  {
    hide Holds, Put, Reversed;
    var d1 := Put(d, i, e[30 - i], e[31 - i]);
    var e1 := Put(e, i + 32, d1[62 - i], d1[63 - i]);
    Step2First(e, d, k1, k2, i);
    assert i + 2 <= 32;
    CopyRound(e1, k1, Reversed(k2), i + 2, 32, i);
    CopyRound(d1, Reversed(k1), k2, 32, i + 2, i);
  }

  /** des3_set_3keys after i words of each schedule. */
  predicate Filled3(e: seq<bv32>, d: seq<bv32>, k1: seq<bv32>, k2: seq<bv32>, k3: seq<bv32>, i: nat)
  {
    && |e| == |d| == 96 && |k1| == |k2| == |k3| == 32
    && Holds(e, 0, k1, 32) && Holds(d, 32, k2, 32) && Holds(e, 64, k3, 32)
    && Holds(d, 0, Reversed(k3), i) && Holds(e, 32, Reversed(k2), i) && Holds(d, 64, Reversed(k1), i)
  }

  lemma Step3(e: seq<bv32>, d: seq<bv32>, k1: seq<bv32>, k2: seq<bv32>, k3: seq<bv32>, i: nat)
    requires Filled3(e, d, k1, k2, k3, i) && i % 2 == 0 && i < 32
    ensures var d1 := Put(d, i, e[94 - i], e[95 - i]);
            var e1 := Put(e, i + 32, d1[62 - i], d1[63 - i]);
            var d2 := Put(d1, i + 64, e1[30 - i], e1[31 - i]);
            Filled3(e1, d2, k1, k2, k3, i + 2)
  {
    hide Holds, Put, Reversed;
    var d1 := Put(d, i, e[94 - i], e[95 - i]);
    var e1 := Put(e, i + 32, d1[62 - i], d1[63 - i]);
    RoundReversed(k1, i); RoundReversed(k2, i); RoundReversed(k3, i);
    HoldsAt(e, 64, k3, 32, 30 - i); HoldsAt(e, 64, k3, 32, 31 - i);
    HoldsMore(d, 0, Reversed(k3), i);
    HoldsApart(d, 32, k2, 32, i, e[94 - i], e[95 - i]);
    HoldsApart(d, 64, Reversed(k1), i, i, e[94 - i], e[95 - i]);
    HoldsAt(d1, 32, k2, 32, 30 - i); HoldsAt(d1, 32, k2, 32, 31 - i);
    HoldsMore(e, 32, Reversed(k2), i);
    HoldsApart(e, 0, k1, 32, i + 32, d1[62 - i], d1[63 - i]);
    HoldsApart(e, 64, k3, 32, i + 32, d1[62 - i], d1[63 - i]);
    HoldsAt(e1, 0, k1, 32, 30 - i); HoldsAt(e1, 0, k1, 32, 31 - i);
    HoldsMore(d1, 64, Reversed(k1), i);
    HoldsApart(d1, 0, Reversed(k3), i + 2, i + 64, e1[30 - i], e1[31 - i]);
    HoldsApart(d1, 32, k2, 32, i + 64, e1[30 - i], e1[31 - i]);
  }

  class Des3Context {
    const esk: array<bv32>
    const dsk: array<bv32>

    ghost predicate Valid() {
      esk != dsk && esk.Length == 96 && dsk.Length == 96
    }

    /** The context decrypts what it encrypts. */
    ghost predicate Keyed()
      reads this, esk, dsk
    {
      Valid() && dsk[..] == Reversed(esk[..])
    }

    constructor ()
      ensures Valid() && fresh(esk) && fresh(dsk)
    {
      esk := new bv32[96];
      dsk := new bv32[96];
    }

    /** des3_set_2keys */
    method Set2Keys(key: seq<bv8>)
      requires Valid() && |key| == 16
      modifies esk, dsk
      ensures Keyed() && esk[..] == TwoKeys(key)
    {
      hide KeysOf, Reversed, Put, Filled2, TripleKeys;
      ghost var (k1, k2) := (KeysOf(key[..8]), KeysOf(key[8..]));
      MainKs(esk, 0, key[..8]);
      MainKs(dsk, 32, key[8..]);
      Started2(esk[..], dsk[..], k1, k2);
      var i := 0;
      while i < 32
        invariant 0 <= i <= 32 && i % 2 == 0
        invariant Filled2(esk[..], dsk[..], k1, k2, i)
      {
        Step2(esk[..], dsk[..], k1, k2, i);
        PutRound(dsk, i, esk[30 - i], esk[31 - i]);
        PutRound(esk, i + 32, dsk[62 - i], dsk[63 - i]);
        PutRound(esk, i + 64, esk[i], esk[1 + i]);
        PutRound(dsk, i + 64, dsk[i], dsk[1 + i]);
        i := i + 2;
      }
      Finished2(esk[..], dsk[..], k1, k2);
    }

    /** des3_set_3keys */
    method Set3Keys(key: seq<bv8>)
      requires Valid() && |key| == 24
      modifies esk, dsk
      ensures Keyed() && esk[..] == ThreeKeys(key)
    {
      hide KeysOf, Reversed, Put, Filled3, TripleKeys;
      ghost var (k1, k2, k3) := (KeysOf(key[..8]), KeysOf(key[8..16]), KeysOf(key[16..]));
      MainKs(esk, 0, key[..8]);
      MainKs(dsk, 32, key[8..16]);
      MainKs(esk, 64, key[16..]);
      Started3(esk[..], dsk[..], k1, k2, k3);
      var i := 0;
      while i < 32
        invariant 0 <= i <= 32 && i % 2 == 0
        invariant Filled3(esk[..], dsk[..], k1, k2, k3, i)
      {
        Step3(esk[..], dsk[..], k1, k2, k3, i);
        PutRound(dsk, i, esk[94 - i], esk[95 - i]);
        PutRound(esk, i + 32, dsk[62 - i], dsk[63 - i]);
        PutRound(dsk, i + 64, esk[30 - i], esk[31 - i]);
        i := i + 2;
      }
      Finished3(esk[..], dsk[..], k1, k2, k3);
    }
  }

  lemma Started2(e: seq<bv32>, d: seq<bv32>, k1: seq<bv32>, k2: seq<bv32>)
    requires |e| == |d| == 96 && |k1| == |k2| == 32
    requires e[..32] == k1 && d[32..64] == k2
    ensures Filled2(e, d, k1, k2, 0)
  {
    hide Reversed;
  }

  lemma Finished2(e: seq<bv32>, d: seq<bv32>, k1: seq<bv32>, k2: seq<bv32>)
    requires Filled2(e, d, k1, k2, 32)
    ensures e == TripleKeys(k1, k2, k1) && d == Reversed(e)
  {
    hide Reversed;
    HoldsAll(e, k1, Reversed(k2), k1);
    HoldsAll(d, Reversed(k1), k2, Reversed(k1));
    TripleReversed(k1, k2, k1);
  }

  lemma Started3(e: seq<bv32>, d: seq<bv32>, k1: seq<bv32>, k2: seq<bv32>, k3: seq<bv32>)
    requires |e| == |d| == 96 && |k1| == |k2| == |k3| == 32
    requires e[..32] == k1 && d[32..64] == k2 && e[64..] == k3
    ensures Filled3(e, d, k1, k2, k3, 0)
  {
    hide Reversed;
  }

  lemma Finished3(e: seq<bv32>, d: seq<bv32>, k1: seq<bv32>, k2: seq<bv32>, k3: seq<bv32>)
    requires Filled3(e, d, k1, k2, k3, 32)
    ensures e == TripleKeys(k1, k2, k3) && d == Reversed(e)
  {
    hide Reversed;
    HoldsAll(e, k1, Reversed(k2), k3);
    HoldsAll(d, Reversed(k3), k2, Reversed(k1));
    TripleReversed(k1, k2, k3);
  }

  lemma TripleReversed(s1: seq<bv32>, s2: seq<bv32>, s3: seq<bv32>)
    requires |s1| == |s2| == |s3| == 32
    ensures Reversed(TripleKeys(s1, s2, s3)) == Reversed(s3) + s2 + Reversed(s1)
  {
    hide Reversed;
    ReversedConcat(s1 + Reversed(s2), s3);
    ReversedConcat(s1, Reversed(s2));
    ReversedTwice(s2);
  }

  // --------------------------------------------------------------------------- one block

  function Stored(s: seq<bv8>, o: nat, b: seq<bv8>): (t: seq<bv8>)
    requires o + |b| <= |s|
    ensures |t| == |s|
  {
    s[..o] + b + s[o + |b|..]
  }

  lemma StoredMore(s: seq<bv8>, o: nat, a: seq<bv8>, b: seq<bv8>)
    requires o + |a| + |b| <= |s|
    ensures Stored(Stored(s, o, a), o + |a|, b) == Stored(s, o, a + b) {}

  /** PUT_UINT32_BE, on bytes already split off. */
  method PutWord(output: array<bv8>, o: nat, b: seq<bv8>)
    requires o + 4 <= output.Length && |b| == 4
    modifies output
    ensures output[..] == Stored(old(output[..]), o, b)
  {
    output[o] := b[0];
    output[o + 1] := b[1];
    output[o + 2] := b[2];
    output[o + 3] := b[3];
  }

  method PutBlock(output: array<bv8>, o: nat, p: Pair)
    requires o + 8 <= output.Length
    modifies output
    ensures output[..] == Stored(old(output[..]), o, BytesOf(p))
  {
    hide *;
    var b := BytesOf(p);
    PutWord(output, o, b[..4]);
    PutWord(output, o + 4, b[4..]);
    StoredMore(old(output[..]), o, b[..4], b[4..]);
    assert b[..4] + b[4..] == b;
  }

  /** des_crypt; input and output may overlap in any way. */
  method DesCrypt(sk: array<bv32>, input: array<bv8>, i: nat, output: array<bv8>, o: nat)
    requires sk.Length == 32 && i + 8 <= input.Length && o + 8 <= output.Length
    modifies output
    ensures output[..] == Stored(old(output[..]), o, DesWith(sk[..])(old(input[i..i + 8])))
  {
    hide MIX, Rounds, Ip, Fp, PairOf, BytesOf;
    var p := Ip(PairOf(input[i..i + 8]));
    var x, y := SixteenRounds(sk, 0, p.x, p.y);
    PutBlock(output, o, Fp(Pair(y, x)));
    assert sk[0..32] == sk[..];
  }

  /** des3_crypt */
  method Des3Crypt(sk: array<bv32>, input: array<bv8>, i: nat, output: array<bv8>, o: nat)
    requires sk.Length == 96 && i + 8 <= input.Length && o + 8 <= output.Length
    modifies output
    ensures output[..] == Stored(old(output[..]), o, Des3With(sk[..])(old(input[i..i + 8])))
  {
    hide MIX, Rounds, Ip, Fp, PairOf, BytesOf;
    var p := Ip(PairOf(input[i..i + 8]));
    var x, y := SixteenRounds(sk, 0, p.x, p.y);
    y, x := SixteenRounds(sk, 32, y, x);
    x, y := SixteenRounds(sk, 64, x, y);
    PutBlock(output, o, Fp(Pair(y, x)));
    assert sk[0..32] == sk[..][..32] && sk[32..64] == sk[..][32..64] && sk[64..96] == sk[..][64..];
  }

  // ----------------------------------------------------------------------- buffers of blocks

  lemma StoredByte(s: seq<bv8>, o: nat, b: seq<bv8>, i: nat)
    requires o + |b| <= |s| && i < |b|
    ensures Stored(s, o, b[..i])[o + i := b[i]] == Stored(s, o, b[..i + 1])
    ensures Stored(s, o, b[..i])[o + i] == s[o + i] {}

  lemma StoredNone(s: seq<bv8>, o: nat, b: seq<bv8>)
    requires o + |b| <= |s|
    ensures Stored(s, o, b[..0]) == s && b[..|b|] == b {}

  /** output[o..] = input[o..] ^ iv, eight bytes from the lowest on. */
  method XorBlock(input: array<bv8>, output: array<bv8>, o: nat, iv: array<bv8>)
    requires o + 8 <= input.Length && o + 8 <= output.Length && iv.Length == 8 && iv != output
    modifies output
    ensures output[..] == Stored(old(output[..]), o, XorBytes(old(input[o..o + 8]), iv[..]))
  {
    hide Stored, Xor8;
    ghost var was, x := output[..], XorBytes(input[o..o + 8], iv[..]);
    StoredNone(was, o, x);
    var i := 0;
    while i < 8
      invariant 0 <= i <= 8
      invariant output[..] == Stored(was, o, x[..i])
    {
      StoredByte(was, o, x, i);
      assert input[o + i] == old(input[o + i]);
      output[o + i] := Xor8(input[o + i], iv[i]);
      i := i + 1;
    }
  }

  /** memcpy(iv, ..., 8) */
  method SetVector(iv: array<bv8>, b: Block)
    requires iv.Length == 8
    modifies iv
    ensures iv[..] == b
  {
    var i := 0;
    while i < 8
      invariant 0 <= i <= 8 && iv[..i] == b[..i]
    {
      iv[i] := b[i];
      i := i + 1;
    }
  }

  /** The bytes the buffer loops go over. */
  function Span(len: int): nat { if len > 0 then len else 0 }

  /** The first bytes of a buffer replaced. */
  function Front(done: seq<bv8>, s: seq<bv8>): seq<bv8>
    requires |done| <= |s|
  {
    done + s[|done|..]
  }

  lemma StoredHere(s: seq<bv8>, o: nat, b: seq<bv8>)
    requires o + |b| <= |s|
    ensures Stored(s, o, b)[o..o + |b|] == b {}

  lemma StoredTwice(s: seq<bv8>, o: nat, b: seq<bv8>, c: seq<bv8>)
    requires o + |b| <= |s| && |c| == |b|
    ensures Stored(Stored(s, o, b), o, c) == Stored(s, o, c) {}

  lemma FrontMore(done: seq<bv8>, s: seq<bv8>, c: seq<bv8>)
    requires |done| + |c| <= |s|
    ensures Stored(Front(done, s), |done|, c) == Front(done + c, s) {}

  lemma FrontAhead(done: seq<bv8>, s: seq<bv8>, n: nat)
    requires |done| + n <= |s|
    ensures Front(done, s)[|done|..|done| + n] == s[|done|..|done| + n] {}

  lemma SamePart(s: seq<bv8>, n: nat, p: nat)
    requires p + 8 <= n <= |s|
    ensures s[..n][p..p + 8] == s[p..p + 8] {}

  lemma NoneDone(e: BlockCipher, iv: Block, was: seq<bv8>)
    ensures Front(Chained(e, iv, []), was) == was && LastOf(iv, Chained(e, iv, [])) == iv
    ensures Front(Unchained(e, iv, []), was) == was && LastOf(iv, []) == iv
    ensures Front(Masked(e, iv, []), was) == was && Front(Unmasked(e, iv, []), was) == was {}

  /** One turn of the encryption loop. */
  method DesEncryptTurn(sk: array<bv32>, iv: array<bv8>, input: array<bv8>, output: array<bv8>, p: nat)
    requires sk.Length == 32 && iv.Length == 8 && iv != output && iv != input
    requires p + 8 <= input.Length && p + 8 <= output.Length
    modifies iv, output
    ensures var c := DesWith(sk[..])(XorBytes(old(input[p..p + 8]), old(iv[..])));
            output[..] == Stored(old(output[..]), p, c) && iv[..] == c
  {
    hide DesWith, Stored;
    ghost var was, x := output[..], XorBytes(input[p..p + 8], iv[..]);
    XorBlock(input, output, p, iv);
    StoredHere(was, p, x);
    DesCrypt(sk, output, p, output, p);
    StoredTwice(was, p, x, DesWith(sk[..])(x));
    StoredHere(was, p, DesWith(sk[..])(x));
    SetVector(iv, output[p..p + 8]);
  }

  /** my_des_cbc_encrypt, in place or into another buffer. */
  method DesCbcEncrypt(ctx: DesContext, iv: array<bv8>, input: array<bv8>, output: array<bv8>, len: int)
    requires ctx.Valid() && iv.Length == 8 && iv != input && iv != output
    requires Span(len) % 8 == 0 && len <= input.Length && len <= output.Length
    modifies iv, output
    ensures var c := Chained(DesWith(ctx.esk[..]), old(iv[..]), old(input[..Span(len)]));
            output[..] == Front(c, old(output[..])) && iv[..] == LastOf(old(iv[..]), c)
  {
    hide DesWith, Stored, Chained, Front, LastOf;
    ghost var in0, v, was := input[..], iv[..], output[..];
    ghost var e, m := DesWith(ctx.esk[..]), in0[..Span(len)];
    NoneDone(e, v, was);
    assert m[..0] == [];
    var left, p := len, 0;
    while left > 0
      invariant left == len - p && p % 8 == 0 && p <= Span(len)
      invariant output[..] == Front(Chained(e, v, m[..p]), was)
      invariant iv[..] == LastOf(v, Chained(e, v, m[..p]))
    {
      FrontAhead(Chained(e, v, m[..p]), was, 8);
      SamePart(in0, Span(len), p);
      assert input[p..p + 8] == m[p..p + 8];
      ChainedMore(e, v, m, p);
      FrontMore(Chained(e, v, m[..p]), was, e(XorBytes(m[p..p + 8], iv[..])));
      DesEncryptTurn(ctx.esk, iv, input, output, p);
      left, p := left - 8, p + 8;
    }
    assert m[..p] == m;
  }

  /** One turn of the decryption loop; the vector becomes the ciphertext block. */
  method DesDecryptTurn(sk: array<bv32>, iv: array<bv8>, input: array<bv8>, output: array<bv8>, p: nat)
    requires sk.Length == 32 && iv.Length == 8 && iv != output && iv != input
    requires p + 8 <= input.Length && p + 8 <= output.Length
    modifies iv, output
    ensures output[..] == Stored(old(output[..]), p, XorBytes(DesWith(sk[..])(old(input[p..p + 8])), old(iv[..])))
    ensures iv[..] == old(input[p..p + 8])
  {
    hide DesWith, Stored;
    ghost var was, m, v := output[..], DesWith(sk[..])(input[p..p + 8]), iv[..];
    var temp := input[p..p + 8];
    DesCrypt(sk, input, p, output, p);
    StoredHere(was, p, m);
    XorBlock(output, output, p, iv);
    StoredTwice(was, p, m, XorBytes(m, v));
    SetVector(iv, temp);
  }

  /** my_des_cbc_decrypt, in place or into another buffer. */
  method DesCbcDecrypt(ctx: DesContext, iv: array<bv8>, input: array<bv8>, output: array<bv8>, len: int)
    requires ctx.Valid() && iv.Length == 8 && iv != input && iv != output
    requires Span(len) % 8 == 0 && len <= input.Length && len <= output.Length
    modifies iv, output
    ensures var c := old(input[..Span(len)]);
            output[..] == Front(Unchained(DesWith(ctx.dsk[..]), old(iv[..]), c), old(output[..]))
            && iv[..] == LastOf(old(iv[..]), c)
  {
    hide DesWith, Stored, Unchained, Front, LastOf;
    ghost var in0, v, was := input[..], iv[..], output[..];
    ghost var d, c := DesWith(ctx.dsk[..]), in0[..Span(len)];
    NoneDone(d, v, was);
    assert c[..0] == [];
    var left, p := len, 0;
    while left > 0
      invariant left == len - p && p % 8 == 0 && p <= Span(len)
      invariant output[..] == Front(Unchained(d, v, c[..p]), was)
      invariant iv[..] == LastOf(v, c[..p])
    {
      FrontAhead(Unchained(d, v, c[..p]), was, 8);
      SamePart(in0, Span(len), p);
      assert input[p..p + 8] == c[p..p + 8];
      UnchainedMore(d, v, c, p);
      FrontMore(Unchained(d, v, c[..p]), was, XorBytes(d(c[p..p + 8]), iv[..]));
      DesDecryptTurn(ctx.dsk, iv, input, output, p);
      left, p := left - 8, p + 8;
    }
    assert c[..p] == c;
  }

  /** One turn of the triple DES encryption loop; the vector stays. */
  method Des3EncryptTurn(sk: array<bv32>, iv: array<bv8>, input: array<bv8>, output: array<bv8>, p: nat)
    requires sk.Length == 96 && iv.Length == 8 && iv != output && iv != input
    requires p + 8 <= input.Length && p + 8 <= output.Length
    modifies output
    ensures output[..] == Stored(old(output[..]), p, Des3With(sk[..])(XorBytes(old(input[p..p + 8]), iv[..])))
  {
    hide Des3With, Stored;
    ghost var was, x := output[..], XorBytes(input[p..p + 8], iv[..]);
    XorBlock(input, output, p, iv);
    StoredHere(was, p, x);
    Des3Crypt(sk, output, p, output, p);
    StoredTwice(was, p, x, Des3With(sk[..])(x));
  }

  /** One turn of the triple DES decryption loop; the vector stays. */
  method Des3DecryptTurn(sk: array<bv32>, iv: array<bv8>, input: array<bv8>, output: array<bv8>, p: nat)
    requires sk.Length == 96 && iv.Length == 8 && iv != output && iv != input
    requires p + 8 <= input.Length && p + 8 <= output.Length
    modifies output
    ensures output[..] == Stored(old(output[..]), p, XorBytes(Des3With(sk[..])(old(input[p..p + 8])), iv[..]))
  {
    hide Des3With, Stored;
    ghost var was, m, v := output[..], Des3With(sk[..])(input[p..p + 8]), iv[..];
    Des3Crypt(sk, input, p, output, p);
    StoredHere(was, p, m);
    XorBlock(output, output, p, iv);
    StoredTwice(was, p, m, XorBytes(m, v));
  }

  /** des3_cbc_encrypt: the vector is not carried on. */
  method Des3CbcEncrypt(ctx: Des3Context, iv: array<bv8>, input: array<bv8>, output: array<bv8>, len: int)
    requires ctx.Valid() && iv.Length == 8 && iv != input && iv != output
    requires Span(len) % 8 == 0 && len <= input.Length && len <= output.Length
    modifies output
    ensures output[..] == Front(Masked(Des3With(ctx.esk[..]), iv[..], old(input[..Span(len)])), old(output[..]))
  {
    hide Des3With, Stored, Masked, Front;
    ghost var in0, v, was := input[..], iv[..], output[..];
    ghost var f, m := Des3With(ctx.esk[..]), in0[..Span(len)];
    NoneDone(f, v, was);
    assert m[..0] == [];
    var left, p := len, 0;
    while left > 0
      invariant left == len - p && p % 8 == 0 && p <= Span(len)
      invariant output[..] == Front(Masked(f, v, m[..p]), was)
    {
      FrontAhead(Masked(f, v, m[..p]), was, 8);
      SamePart(in0, Span(len), p);
      assert input[p..p + 8] == m[p..p + 8];
      MaskedMore(f, v, m, p);
      FrontMore(Masked(f, v, m[..p]), was, f(XorBytes(m[p..p + 8], v)));
      Des3EncryptTurn(ctx.esk, iv, input, output, p);
      left, p := left - 8, p + 8;
    }
    assert m[..p] == m;
  }

  /** des3_cbc_decrypt */
  method Des3CbcDecrypt(ctx: Des3Context, iv: array<bv8>, input: array<bv8>, output: array<bv8>, len: int)
    requires ctx.Valid() && iv.Length == 8 && iv != input && iv != output
    requires Span(len) % 8 == 0 && len <= input.Length && len <= output.Length
    modifies output
    ensures output[..] == Front(Unmasked(Des3With(ctx.dsk[..]), iv[..], old(input[..Span(len)])), old(output[..]))
  {
    hide Des3With, Stored, Unmasked, Front;
    ghost var in0, v, was := input[..], iv[..], output[..];
    ghost var f, c := Des3With(ctx.dsk[..]), in0[..Span(len)];
    NoneDone(f, v, was);
    assert c[..0] == [];
    var left, p := len, 0;
    while left > 0
      invariant left == len - p && p % 8 == 0 && p <= Span(len)
      invariant output[..] == Front(Unmasked(f, v, c[..p]), was)
    {
      FrontAhead(Unmasked(f, v, c[..p]), was, 8);
      SamePart(in0, Span(len), p);
      assert input[p..p + 8] == c[p..p + 8];
      UnmaskedMore(f, v, c, p);
      FrontMore(Unmasked(f, v, c[..p]), was, XorBytes(f(c[p..p + 8]), v));
      Des3DecryptTurn(ctx.dsk, iv, input, output, p);
      left, p := left - 8, p + 8;
    }
    assert c[..p] == c;
  }

  // ---------------------------------------------------------------- there and back, in place

  /** What was written over the front is what is read there, and writing it anew gives the buffer back. */
  lemma FrontTwice(c: seq<bv8>, was: seq<bv8>)
    requires |c| <= |was|
    ensures Front(c, was)[..|c|] == c && Front(was[..|c|], Front(c, was)) == was
  {
  }

  /** With keys set, decrypting a buffer that was encrypted in place with an equal vector gives it back, and leaves
      the two vectors equal. */
  method DesThereAndBack(ctx: DesContext, iv: array<bv8>, iv2: array<bv8>, buffer: array<bv8>, len: int)
    requires ctx.Keyed() && iv.Length == iv2.Length == 8 && iv != buffer && iv2 != buffer && iv != iv2
             && iv2[..] == iv[..]
    requires Span(len) % 8 == 0 && len <= buffer.Length
    modifies iv, iv2, buffer
    ensures buffer[..] == old(buffer[..]) && iv2[..] == iv[..]
  {
    hide DesWith, Chained, Unchained, Front, LastOf, Reversed;
    ghost var was, v, m := buffer[..], iv[..], buffer[..Span(len)];
    ghost var c := Chained(DesWith(ctx.esk[..]), v, m);
    DesCbcInverse(ctx.esk[..], v, m);
    FrontTwice(c, was);
    DesCbcEncrypt(ctx, iv, buffer, buffer, len);
    DesCbcDecrypt(ctx, iv2, buffer, buffer, len);
  }

  /** The same for triple DES, whose buffer functions keep the vector. */
  method Des3ThereAndBack(ctx: Des3Context, iv: array<bv8>, buffer: array<bv8>, len: int)
    requires ctx.Keyed() && iv.Length == 8 && iv != buffer && Span(len) % 8 == 0 && len <= buffer.Length
    modifies buffer
    ensures buffer[..] == old(buffer[..])
  {
    hide Des3With, Masked, Unmasked, Front, Reversed;
    ghost var was, m := buffer[..], buffer[..Span(len)];
    Des3CbcInverse(ctx.esk[..], iv[..], m);
    FrontTwice(Masked(Des3With(ctx.esk[..]), iv[..], m), was);
    Des3CbcEncrypt(ctx, iv, buffer, buffer, len);
    Des3CbcDecrypt(ctx, iv, buffer, buffer, len);
  }
}
