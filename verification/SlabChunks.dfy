/** Chunks inside a slab page.  Three layouts record which chunks are in use: small
    chunks in a bitmap at the front of the page itself, exact ones in the whole
    descriptor word, big ones in the upper half of that word. */
module SlabChunks {
  import opened SlabTable
  import opened Words

  const MIN_SHIFT: nat := 3
  const WORD_BITS: nat := 64
  const MAP_SHIFT: nat := 32
  const WORD_BUSY: nat := 0xffff_ffff_ffff_ffff

  /** Page sizes for which every shift in the code is defined: `2 << n` overflows an
      `int` when 16 KiB pages and more make n, the bitmap's chunks, reach 32. */
  predicate PageShift(ps: nat) { 9 <= ps <= 13 }

  function ExactShift(ps: nat): (s: nat)
    requires PageShift(ps)
  {
    ps - 6
  }

  /** The tag of pages cut into chunks of 1 << s bytes. */
  function TagOf(ps: nat, s: nat): nat
    requires PageShift(ps)
  {
    if s < ExactShift(ps) then SMALL else if s == ExactShift(ps) then EXACT else BIG
  }

  function Chunks(ps: nat, s: nat): nat
    requires s <= ps
  {
    Pow2(ps - s)
  }

  /** Chunks taken up by the bitmap of a small-chunk page: chunks / 8 / (1 << s), at least one. */
  function MapChunks(ps: nat, s: nat): nat
    requires s <= ps
  {
    var n := High(Chunks(ps, s) / 8, s);
    if n == 0 then 1 else n
  }

  function MapWords(ps: nat, s: nat): nat
    requires s <= ps
  {
    Chunks(ps, s) / WORD_BITS
  }

  lemma Pow64()
    ensures Pow2(64) == WORD_BUSY + 1
  {
    assert Pow2(8) == 256;
    Pow2Add(8, 8); assert Pow2(16) == 65536;
    Pow2Add(16, 16); assert Pow2(32) == 0x1_0000_0000;
    Pow2Add(32, 32);
  }

  /** The chunks that the bitmap takes up, as a power of two. */
  lemma MapSize(ps: nat, s: nat)
    requires s + 3 <= ps
    ensures Chunks(ps, s) / 8 == Pow2(ps - s - 3)
    ensures MapChunks(ps, s) == if s <= ps - s - 3 then Pow2(ps - s - 3 - s) else 1
  {
    assert Pow2(3) == 8;
    Pow2Add(ps - s - 3, 3);
    HighOfPow2(ps - s - 3, s);
  }

  /** The bitmap's words: one for every 64 chunks. */
  lemma WordsSize(ps: nat, s: nat)
    requires s + 6 <= ps
    ensures MapWords(ps, s) == Pow2(ps - s - 6) && Chunks(ps, s) == Pow2(ps - s - 6) * WORD_BITS
    ensures Pow2(ps - s - 6) * 8 == Pow2(ps - s - 3)
  {
    assert Pow2(3) == 8 && Pow2(6) == 64;
    Pow2Add(ps - s - 6, 6);
    Pow2Add(ps - s - 6, 3);
  }

  /** The sizes fit: the bitmap has a bit for each chunk, fits in the chunks set aside
      for it, and these and the first chunk handed out have bits in its first word. */
  lemma SmallGeometry(ps: nat, s: nat)
    requires PageShift(ps) && MIN_SHIFT <= s < ExactShift(ps)
    ensures MapWords(ps, s) * WORD_BITS == Chunks(ps, s)
    ensures MapWords(ps, s) >= 2 && 1 <= MapChunks(ps, s) <= 30
    ensures MapWords(ps, s) * 8 <= MapChunks(ps, s) * Pow2(s)
  {
    assert Pow2(1) == 2 && Pow2(4) == 16;
    hide Pow2, MapWords, MapChunks, Chunks;
    var d := ps - s;
    WordsSize(ps, s);
    MapSize(ps, s);
    Pow2Mono(1, d - 6);
    if s <= d - 3 {
      Pow2Add(d - 3 - s, s);
      Pow2Mono(d - 3 - s, 4);
    } else {
      Pow2Mono(d - 3, s);
    }
  }

  /** For pages of 8 KiB or less, and only for these, `2 << n` on line 368 stays within an int. */
  lemma BitmapShiftFits(ps: nat)
    requires ps >= 9
    ensures ps <= 13 <==> forall s: nat | MIN_SHIFT <= s < ps - 6 :: MapChunks(ps, s) < 30
  {
    assert Pow2(3) == 8 && Pow2(4) == 16 && Pow2(5) == 32 && Pow2(6) == 64;
    assert Pow2(7) == 128 && Pow2(8) == 256 && Pow2(9) == 512 && Pow2(10) == 1024;
    if ps <= 13 {
      forall s: nat | MIN_SHIFT <= s < ps - 6 ensures MapChunks(ps, s) < 30 {
        assert ps == 10 || ps == 11 || ps == 12 || ps == 13;
        assert s == 3 || s == 4 || s == 5 || s == 6;
      }
    } else {
      Pow2Mono(11, ps - 3);
      assert Pow2(11) == 2048;
      var w := Chunks(ps, 3) / 8;
      assert High(w, 3) == High(w / 2, 2) == High(w / 2 / 2, 1) == w / 2 / 2 / 2;
      assert MapChunks(ps, 3) >= 32;
    }
  }

  /** Big chunks: 2 to 32 of them. */
  lemma BigGeometry(ps: nat, s: nat)
    requires PageShift(ps) && ExactShift(ps) < s < ps
    ensures 2 <= Chunks(ps, s) <= 32 && s < 16
  {
    assert Pow2(1) == 2 && Pow2(5) == 32;
    Pow2Mono(1, ps - s);
    Pow2Mono(ps - s, 5);
  }

  // --------------------------------------------------------------- one slab page

  /** slab & DFS_SLAB_SHIFT_MASK, or the exact shift */
  function ShiftOf(ps: nat, p: Page): nat
    requires PageShift(ps)
  {
    if p.tag == EXACT then ExactShift(ps) else Low(p.slab, 4)
  }

  predicate Used(ps: nat, p: Page, w: seq<nat>, c: nat) {
    if p.tag == SMALL then c / WORD_BITS < |w| && Bit(w[c / WORD_BITS], c % WORD_BITS)
    else if p.tag == EXACT then Bit(p.slab, c)
    else Bit(p.slab, MAP_SHIFT + c)
  }

  /** First chunk of the page that can be handed out. */
  function FirstChunk(ps: nat, p: Page): nat
    requires PageShift(ps) && ShiftOf(ps, p) <= ps
  {
    if p.tag == SMALL then MapChunks(ps, ShiftOf(ps, p)) else 0
  }

  /** The words of the page record chunks of one of the sizes of its layout. */
  ghost predicate Laid(ps: nat, p: Page, w: seq<nat>)
    requires PageShift(ps)
  {
    var s := ShiftOf(ps, p);
    && MIN_SHIFT <= s < ps && p.tag == TagOf(ps, s)
    && (p.tag == SMALL ==>
          && p.slab == s && |w| == MapWords(ps, s)
          && (forall m | 0 <= m < |w| :: w[m] < Pow2(WORD_BITS))
          && (forall c: nat | c < MapChunks(ps, s) :: Used(ps, p, w, c)))
    && (p.tag == EXACT ==> p.slab < Pow2(WORD_BITS))
    && (p.tag == BIG ==> Low(p.slab, MAP_SHIFT) == s && High(p.slab, MAP_SHIFT) < Pow2(Chunks(ps, s)))
  }

  ghost predicate SomeFree(ps: nat, p: Page, w: seq<nat>)
    requires PageShift(ps) && ShiftOf(ps, p) <= ps
  {
    exists c: nat | c < Chunks(ps, ShiftOf(ps, p)) :: !Used(ps, p, w, c)
  }

  ghost predicate SomeUsed(ps: nat, p: Page, w: seq<nat>)
    requires PageShift(ps) && ShiftOf(ps, p) <= ps
  {
    exists c: nat | FirstChunk(ps, p) <= c < Chunks(ps, ShiftOf(ps, p)) :: Used(ps, p, w, c)
  }

  /** The lowest four bits are the lowest of the low half. */
  lemma LowLow(w: nat)
    requires Low(w, MAP_SHIFT) < 16
    ensures Low(w, 4) == Low(w, MAP_SHIFT)
  {
    LowPrefix(w, 4, MAP_SHIFT);
    LowId(Low(w, MAP_SHIFT), 4);
  }

  lemma {:induction false} LowPrefix(w: nat, j: nat, k: nat)
    requires j <= k
    ensures Low(Low(w, k), j) == Low(w, j)
  {
    if j > 0 { LowPrefix(w / 2, j - 1, k - 1); }
  }

  lemma {:induction false} LowId(w: nat, k: nat)
    requires w < Pow2(k)
    ensures Low(w, k) == w
  {
    if k > 0 { LowId(w / 2, k - 1); }
  }

  // ------------------------------------------------------------ marking one chunk

  /** The descriptor after the bit of chunk c was set or cleared. */
  function MarkedPage(p: Page, c: nat, on: bool): Page {
    if p.tag == SMALL then p
    else
      var b := if p.tag == EXACT then c else MAP_SHIFT + c;
      p.(slab := if on then SetBit(p.slab, b) else ClearBit(p.slab, b))
  }

  /** The front words of the page after the bit of chunk c was set or cleared. */
  function MarkedWords(p: Page, w: seq<nat>, c: nat, on: bool): (r: seq<nat>)
    requires p.tag == SMALL ==> c / WORD_BITS < |w|
    ensures |r| == |w|
  {
    if p.tag != SMALL then w
    else
      var m := c / WORD_BITS;
      w[m := if on then SetBit(w[m], c % WORD_BITS) else ClearBit(w[m], c % WORD_BITS)]
  }

  lemma MarkedUsed(ps: nat, p: Page, w: seq<nat>, c: nat, on: bool, d: nat)
    requires p.tag == SMALL ==> c / WORD_BITS < |w|
    ensures Used(ps, MarkedPage(p, c, on), MarkedWords(p, w, c, on), d) <==>
              if d == c then on else Used(ps, p, w, d)
  {
    if p.tag == SMALL {
      if c / WORD_BITS == d / WORD_BITS {
        SetBitBits(w[c / WORD_BITS], c % WORD_BITS, d % WORD_BITS);
        ClearBitBits(w[c / WORD_BITS], c % WORD_BITS, d % WORD_BITS);
      }
    } else if p.tag == EXACT {
      SetBitBits(p.slab, c, d);
      ClearBitBits(p.slab, c, d);
    } else {
      SetBitBits(p.slab, MAP_SHIFT + c, MAP_SHIFT + d);
      ClearBitBits(p.slab, MAP_SHIFT + c, MAP_SHIFT + d);
    }
  }

  lemma MarkedShift(ps: nat, p: Page, w: seq<nat>, c: nat, on: bool)
    requires PageShift(ps) && Laid(ps, p, w) && p.tag == BIG
    ensures ShiftOf(ps, MarkedPage(p, c, on)) == ShiftOf(ps, p)
    ensures var q := MarkedPage(p, c, on);
            && Low(q.slab, MAP_SHIFT) == Low(p.slab, MAP_SHIFT)
            && High(q.slab, MAP_SHIFT) ==
                 if on then SetBit(High(p.slab, MAP_SHIFT), c) else ClearBit(High(p.slab, MAP_SHIFT), c)
  {
    var q := MarkedPage(p, c, on);
    SetHighBit(p.slab, MAP_SHIFT, c);
    ClearHighBit(p.slab, MAP_SHIFT, c);
    BigGeometry(ps, ShiftOf(ps, p));
    LowLow(p.slab);
    LowLow(q.slab);
  }

  /** Setting any chunk's bit, or clearing the bit of a chunk that can be handed out,
      keeps the layout of the page. */
  lemma MarkedLaid(ps: nat, p: Page, w: seq<nat>, c: nat, on: bool)
    requires PageShift(ps) && Laid(ps, p, w) && c < Chunks(ps, ShiftOf(ps, p))
    requires on || FirstChunk(ps, p) <= c
    ensures p.tag == SMALL ==> c / WORD_BITS < |w|
    ensures var (q, v) := (MarkedPage(p, c, on), MarkedWords(p, w, c, on));
            Laid(ps, q, v) && ShiftOf(ps, q) == ShiftOf(ps, p) && FirstChunk(ps, q) == FirstChunk(ps, p)
  {
    hide Used, Pow2, SetBit, ClearBit, High, Low;
    var s := ShiftOf(ps, p);
    if p.tag == SMALL {
      SmallGeometry(ps, s);
      var m := c / WORD_BITS;
      SetBitBound(w[m], c % WORD_BITS, WORD_BITS);
      ClearBitBound(w[m], c % WORD_BITS);
      var v := MarkedWords(p, w, c, on);
      forall d: nat | d < MapChunks(ps, s) ensures Used(ps, p, v, d) {
        MarkedUsed(ps, p, w, c, on, d);
      }
    } else if p.tag == EXACT {
      SetBitBound(p.slab, c, WORD_BITS) by { ExactChunks(ps); }
      ClearBitBound(p.slab, c);
    } else {
      MarkedShift(ps, p, w, c, on);
      SetBitBound(High(p.slab, MAP_SHIFT), c, Chunks(ps, s));
      ClearBitBound(High(p.slab, MAP_SHIFT), c);
    }
  }

  lemma ExactChunks(ps: nat)
    requires PageShift(ps)
    ensures Chunks(ps, ExactShift(ps)) == WORD_BITS
  {
    assert Pow2(6) == 64;
  }

  // ------------------------------------------------ full and empty, as the code tests them

  lemma FreeChunk(ps: nat, p: Page, w: seq<nat>, c: nat)
    requires PageShift(ps) && ShiftOf(ps, p) <= ps && c < Chunks(ps, ShiftOf(ps, p)) && !Used(ps, p, w, c)
    ensures SomeFree(ps, p, w)
  {
  }

  lemma UsedChunk(ps: nat, p: Page, w: seq<nat>, c: nat)
    requires PageShift(ps) && ShiftOf(ps, p) <= ps && FirstChunk(ps, p) <= c < Chunks(ps, ShiftOf(ps, p))
    requires Used(ps, p, w, c)
    ensures SomeUsed(ps, p, w)
  {
  }

  lemma ExactFull(ps: nat, p: Page, w: seq<nat>)
    requires PageShift(ps) && Laid(ps, p, w) && p.tag == EXACT
    ensures p.slab != WORD_BUSY <==> SomeFree(ps, p, w)
  {
    ExactChunks(ps);
    Pow64();
    if p.slab != WORD_BUSY {
      var i := SomeClearBit(p.slab, WORD_BITS);
      FreeChunk(ps, p, w, i);
    } else {
      forall c: nat | c < WORD_BITS ensures Used(ps, p, w, c) { MaskBits(WORD_BITS, c); }
    }
  }

  lemma ExactEmpty(ps: nat, p: Page, w: seq<nat>)
    requires PageShift(ps) && Laid(ps, p, w) && p.tag == EXACT
    ensures p.slab != 0 <==> SomeUsed(ps, p, w)
  {
    ExactChunks(ps);
    if p.slab != 0 {
      var i := SomeBit(p.slab, WORD_BITS);
      UsedChunk(ps, p, w, i);
    } else {
      forall c: nat ensures !Used(ps, p, w, c) { NoBits(c); }
    }
  }

  lemma BigFull(ps: nat, p: Page, w: seq<nat>)
    requires PageShift(ps) && Laid(ps, p, w) && p.tag == BIG
    ensures High(p.slab, MAP_SHIFT) != Pow2(Chunks(ps, ShiftOf(ps, p))) - 1 <==> SomeFree(ps, p, w)
  {
    var h, n := High(p.slab, MAP_SHIFT), Chunks(ps, ShiftOf(ps, p));
    if h != Pow2(n) - 1 {
      var i := SomeClearBit(h, n);
      HighBits(p.slab, MAP_SHIFT, i);
      FreeChunk(ps, p, w, i);
    } else {
      forall c: nat | c < n ensures Used(ps, p, w, c) {
        MaskBits(n, c);
        HighBits(p.slab, MAP_SHIFT, c);
      }
    }
  }

  lemma BigEmpty(ps: nat, p: Page, w: seq<nat>)
    requires PageShift(ps) && Laid(ps, p, w) && p.tag == BIG
    ensures High(p.slab, MAP_SHIFT) != 0 <==> SomeUsed(ps, p, w)
  {
    var h, n := High(p.slab, MAP_SHIFT), Chunks(ps, ShiftOf(ps, p));
    if h != 0 {
      var i := SomeBit(h, n);
      HighBits(p.slab, MAP_SHIFT, i);
      UsedChunk(ps, p, w, i);
    } else {
      forall c: nat ensures !Used(ps, p, w, c) {
        NoBits(c);
        HighBits(p.slab, MAP_SHIFT, c);
      }
    }
  }

  /** Not all words of the bitmap are DFS_SLAB_BUSY. */
  ghost predicate AnyNotBusy(w: seq<nat>) {
    exists m | 0 <= m < |w| :: w[m] != WORD_BUSY
  }

  lemma SmallFull(ps: nat, p: Page, w: seq<nat>)
    requires PageShift(ps) && Laid(ps, p, w) && p.tag == SMALL
    ensures AnyNotBusy(w) <==> SomeFree(ps, p, w)
  {
    SmallGeometry(ps, ShiftOf(ps, p));
    Pow64();
    if AnyNotBusy(w) {
      var m: nat :| m < |w| && w[m] != WORD_BUSY;
      var i := SomeClearBit(w[m], WORD_BITS);
      assert (WORD_BITS * m + i) / WORD_BITS == m;
      FreeChunk(ps, p, w, WORD_BITS * m + i);
    } else {
      forall c: nat | c < Chunks(ps, ShiftOf(ps, p)) ensures Used(ps, p, w, c) {
        assert w[c / WORD_BITS] == WORD_BUSY;
        MaskBits(WORD_BITS, c % WORD_BITS);
      }
    }
  }

  /** A bit behind the first n, or a later word, is set. */
  ghost predicate AnyNotZero(w: seq<nat>, n: nat)
    requires |w| > 0
  {
    High(w[0], n) != 0 || exists m | 1 <= m < |w| :: w[m] != 0
  }

  lemma SmallEmpty(ps: nat, p: Page, w: seq<nat>)
    requires PageShift(ps) && Laid(ps, p, w) && p.tag == SMALL
    ensures |w| >= 2
    ensures AnyNotZero(w, FirstChunk(ps, p)) <==> SomeUsed(ps, p, w)
  {
    SmallGeometry(ps, ShiftOf(ps, p));
    if AnyNotZero(w, FirstChunk(ps, p)) { SmallNotEmpty(ps, p, w); }
    else {
      forall c: nat | FirstChunk(ps, p) <= c < Chunks(ps, ShiftOf(ps, p)) ensures !Used(ps, p, w, c) {
        ZeroBits(w, FirstChunk(ps, p), c);
      }
    }
  }

  lemma SmallNotEmpty(ps: nat, p: Page, w: seq<nat>)
    requires PageShift(ps) && Laid(ps, p, w) && p.tag == SMALL && |w| > 0 && AnyNotZero(w, FirstChunk(ps, p))
    ensures SomeUsed(ps, p, w)
  {
    SmallGeometry(ps, ShiftOf(ps, p));
    var c := SomeSetBit(w, FirstChunk(ps, p));
    UsedChunk(ps, p, w, c);
  }

  lemma SomeSetBit(w: seq<nat>, n: nat) returns (c: nat)
    requires |w| > 0 && n <= WORD_BITS && AnyNotZero(w, n)
    requires forall m | 0 <= m < |w| :: w[m] < Pow2(WORD_BITS)
    ensures n <= c < WORD_BITS * |w| && Bit(w[c / WORD_BITS], c % WORD_BITS)
  {
    hide Pow2, High, Bit;
    if High(w[0], n) != 0 {
      c := SomeHighBit(w[0], n);
    } else {
      var m: nat :| 1 <= m < |w| && w[m] != 0;
      var i := SomeBit(w[m], WORD_BITS);
      c := WORD_BITS * m + i;
    }
  }

  lemma SomeHighBit(w: nat, n: nat) returns (c: nat)
    requires w < Pow2(WORD_BITS) && n <= WORD_BITS && High(w, n) != 0
    ensures n <= c < WORD_BITS && Bit(w, c)
  {
    HighBound(w, n, WORD_BITS);
    var j := SomeBit(High(w, n), WORD_BITS - n);
    HighBits(w, n, j);
    c := n + j;
  }

  lemma ZeroBits(w: seq<nat>, n: nat, c: nat)
    requires |w| > 0 && !AnyNotZero(w, n) && n <= c && c / WORD_BITS < |w|
    ensures !Bit(w[c / WORD_BITS], c % WORD_BITS)
  {
    if c < WORD_BITS { NoBits(c - n); HighBits(w[0], n, c - n); }
    else { assert w[c / WORD_BITS] == 0; NoBits(c % WORD_BITS); }
  }

  lemma {:induction false} HighBound(w: nat, n: nat, k: nat)
    requires w < Pow2(k) && n <= k
    ensures High(w, n) < Pow2(k - n)
  {
    if n > 0 { HighBound(w / 2, n - 1, k - 1); }
  }

  // ------------------------------------- the code's tests on a page, layout by layout

  ghost predicate HasClear(word: nat, bits: nat) {
    exists j: nat | j < bits :: !Bit(word, j)
  }

  lemma ExactSearch(ps: nat, p: Page, w: seq<nat>)
    requires PageShift(ps) && Laid(ps, p, w) && p.tag == EXACT && SomeFree(ps, p, w)
    ensures HasClear(p.slab, WORD_BITS) && Chunks(ps, ShiftOf(ps, p)) == WORD_BITS
  {
    ExactChunks(ps);
    var c: nat :| c < WORD_BITS && !Used(ps, p, w, c);
    assert !Bit(p.slab, c);
  }

  lemma BigSearch(ps: nat, p: Page, w: seq<nat>)
    requires PageShift(ps) && Laid(ps, p, w) && p.tag == BIG && SomeFree(ps, p, w)
    ensures HasClear(High(p.slab, MAP_SHIFT), Chunks(ps, ShiftOf(ps, p)))
  {
    var c: nat :| c < Chunks(ps, ShiftOf(ps, p)) && !Used(ps, p, w, c);
    HighBits(p.slab, MAP_SHIFT, c);
    assert !Bit(High(p.slab, MAP_SHIFT), c);
  }

  lemma SmallSearch(w: nat)
    requires w < Pow2(WORD_BITS) && w != WORD_BUSY
    ensures HasClear(w, WORD_BITS)
  {
    Pow64();
    var j := SomeClearBit(w, WORD_BITS);
    assert !Bit(w, j);
  }

  lemma ExactMarked(ps: nat, p: Page, w: seq<nat>, c: nat, on: bool)
    requires PageShift(ps) && Laid(ps, p, w) && p.tag == EXACT && c < WORD_BITS
    ensures var q := p.(slab := if on then SetBit(p.slab, c) else ClearBit(p.slab, c));
            && q == MarkedPage(p, c, on) && MarkedWords(p, w, c, on) == w && ShiftOf(ps, q) <= ps
            && (q.slab == WORD_BUSY <==> !SomeFree(ps, q, w))
            && (q.slab == 0 <==> !SomeUsed(ps, q, w))
  {
    ExactChunks(ps);
    MarkedLaid(ps, p, w, c, on);
    ExactFull(ps, MarkedPage(p, c, on), w);
    ExactEmpty(ps, MarkedPage(p, c, on), w);
  }

  lemma BigMarked(ps: nat, p: Page, w: seq<nat>, c: nat, on: bool)
    requires PageShift(ps) && Laid(ps, p, w) && p.tag == BIG && c < Chunks(ps, ShiftOf(ps, p))
    ensures var b := MAP_SHIFT + c; var q := p.(slab := if on then SetBit(p.slab, b) else ClearBit(p.slab, b));
            && q == MarkedPage(p, c, on) && MarkedWords(p, w, c, on) == w && ShiftOf(ps, q) <= ps
            && (High(q.slab, MAP_SHIFT) == Pow2(Chunks(ps, ShiftOf(ps, p))) - 1 <==> !SomeFree(ps, q, w))
            && (High(q.slab, MAP_SHIFT) == 0 <==> !SomeUsed(ps, q, w))
  {
    MarkedLaid(ps, p, w, c, on);
    BigFull(ps, MarkedPage(p, c, on), w);
    BigEmpty(ps, MarkedPage(p, c, on), w);
  }

  lemma SmallMarked(ps: nat, p: Page, w: seq<nat>, c: nat, on: bool)
    requires PageShift(ps) && Laid(ps, p, w) && p.tag == SMALL && c < Chunks(ps, ShiftOf(ps, p))
    requires on || FirstChunk(ps, p) <= c
    ensures c / WORD_BITS < |w| && MarkedPage(p, c, on) == p && |w| >= 2
    ensures var v := MarkedWords(p, w, c, on);
            (AnyNotBusy(v) <==> SomeFree(ps, p, v)) && (AnyNotZero(v, FirstChunk(ps, p)) <==> SomeUsed(ps, p, v))
  {
    SmallGeometry(ps, ShiftOf(ps, p));
    MarkedLaid(ps, p, w, c, on);
    SmallFull(ps, p, MarkedWords(p, w, c, on));
    SmallEmpty(ps, p, MarkedWords(p, w, c, on));
  }

  /** Clearing a chunk that the bitmap itself takes up: the test for chunks in use does not see it,
      and the page is not laid out any more. */
  lemma OwnMarked(ps: nat, p: Page, w: seq<nat>, c: nat)
    requires PageShift(ps) && Laid(ps, p, w) && p.tag == SMALL && c < FirstChunk(ps, p)
    ensures c / WORD_BITS < |w| && MarkedPage(p, c, false) == p && |w| >= 2
    ensures var v := MarkedWords(p, w, c, false);
            && (AnyNotZero(v, FirstChunk(ps, p)) <==> AnyNotZero(w, FirstChunk(ps, p)))
            && (SomeUsed(ps, p, v) <==> SomeUsed(ps, p, w))
            && !Laid(ps, p, v)
  {
    SmallGeometry(ps, ShiftOf(ps, p));
    var v, n := MarkedWords(p, w, c, false), FirstChunk(ps, p);
    OwnCleared(w, v, c, n);
    MarkedUsed(ps, p, w, c, false, c);
    SameUsed(ps, p, w, v) by {
      forall d: nat | n <= d ensures Used(ps, p, v, d) == Used(ps, p, w, d) { MarkedUsed(ps, p, w, c, false, d); }
    }
  }

  /** The test for chunks in use after any chunk of a small-chunk page was cleared. */
  lemma SmallCleared(ps: nat, p: Page, w: seq<nat>, c: nat)
    requires PageShift(ps) && Laid(ps, p, w) && p.tag == SMALL && c < Chunks(ps, ShiftOf(ps, p))
    ensures c / WORD_BITS < |w| && MarkedPage(p, c, false) == p && |w| >= 2
    ensures var v := MarkedWords(p, w, c, false); AnyNotZero(v, FirstChunk(ps, p)) <==> SomeUsed(ps, p, v)
  {
    if FirstChunk(ps, p) <= c {
      SmallMarked(ps, p, w, c, false);
    } else {
      OwnMarked(ps, p, w, c);
      SmallEmpty(ps, p, w);
    }
  }

  /** Chunk c of the page is marked in use, be it handed out or the bitmap's own. */
  ghost predicate InUse(ps: nat, p: Page, w: seq<nat>, c: nat)
    requires PageShift(ps)
  {
    ShiftOf(ps, p) <= ps && c < Chunks(ps, ShiftOf(ps, p)) && Used(ps, p, w, c)
  }

  /** When no chunk behind the bitmap is left in use, it was not the bitmap's own that went. */
  lemma UnusedNotOwn(ps: nat, p: Page, w: seq<nat>, c: nat)
    requires PageShift(ps) && Laid(ps, p, w) && SomeUsed(ps, p, w)
    requires p.tag == SMALL ==> c / WORD_BITS < |w|
    requires var q := MarkedPage(p, c, false); ShiftOf(ps, q) <= ps && !SomeUsed(ps, q, MarkedWords(p, w, c, false))
    ensures FirstChunk(ps, p) <= c
  {
    if c < FirstChunk(ps, p) { OwnMarked(ps, p, w, c); }
  }

  lemma OwnCleared(w: seq<nat>, v: seq<nat>, c: nat, n: nat)
    requires c < n && |w| > 0 && v == w[0 := ClearBit(w[0], c)]
    ensures AnyNotZero(v, n) <==> AnyNotZero(w, n)
  {
    ClearLowBit(w[0], c, n);
    if m: nat :| 1 <= m < |w| && w[m] != 0 { assert v[m] != 0; }
    if m: nat :| 1 <= m < |v| && v[m] != 0 { assert w[m] != 0; }
  }

  lemma SameUsed(ps: nat, p: Page, w: seq<nat>, v: seq<nat>)
    requires PageShift(ps) && ShiftOf(ps, p) <= ps
    requires forall d: nat | FirstChunk(ps, p) <= d :: Used(ps, p, v, d) == Used(ps, p, w, d)
    ensures SomeUsed(ps, p, v) <==> SomeUsed(ps, p, w)
  {
  }
}
