/** Where live blocks lie: inside the pool, apart from each other, aligned, clear of the bitmaps. */
module SlabGeometry {
  import opened Options
  import opened SlabTable
  import opened SlabRuns
  import opened SlabChunks
  import opened SlabBlocks
  import opened Words

  lemma {:induction false} MulMono(a: int, b: int, z: int)
    requires z > 0 && a <= b
    ensures a * z <= b * z
    decreases b - a
  {
    if a < b { MulMono(a + 1, b, z); }
  }

  /** The pages a live block takes up. */
  ghost function PagesOf(t: seq<Page>, n: nat, hd: seq<int>, i: int): int
    requires Heads(t, n, hd) && 0 <= i < n
  {
    if t[i].tag != PAGE then 1 else BusyLen(t, n, NULL, hd, i)
  }

  /** Blocks of different pages take up different pages. */
  lemma PagesApart(ps: nat, start: int, t: seq<Page>, mem: seq<seq<nat>>, n: nat, hd: seq<int>, fl: seq<int>,
                   sl: seq<seq<int>>,
                   i: nat, c: nat, j: nat, d: nat)
    requires StateOk(ps, t, mem, n, hd, fl, sl) && i < j < n
    requires BlockAt(ps, start, t, mem, n, hd, i, c).Some? && BlockAt(ps, start, t, mem, n, hd, j, d).Some?
    ensures i + PagesOf(t, n, hd, i) <= j
  {
    assert PageOk(t, n, NULL, hd, j);
    if t[i].tag == PAGE && j < i + BusyLen(t, n, NULL, hd, i) { Covers(t, n, NULL, hd, i, j); }
  }

  lemma ChunkInPage(i: int, c: nat, z: int, m: int, k: nat)
    requires m > 0 && z == k * m && c < k
    ensures i * z + c * m + m <= (i + 1) * z && c * m >= 0
  {
    MulMono(c + 1, k, m);
    MulMono(0, c, m);
    assert (c + 1) * m == c * m + m;
    assert (i + 1) * z == i * z + z;
  }

  lemma RunSize(i: int, l: int, z: int)
    requires z > 0 && l >= 1
    ensures (i + l) * z == i * z + l * z && l * z >= z
  {
    MulMono(1, l, z);
  }

  /** A block lies inside its pages, and past the bitmap of a small-chunk page. */
  lemma BlockInPages(ps: nat, start: int, t: seq<Page>, mem: seq<seq<nat>>, n: nat, hd: seq<int>, fl: seq<int>,
                     sl: seq<seq<int>>,
                     i: nat, c: nat)
    requires StateOk(ps, t, mem, n, hd, fl, sl) && i < n
    requires BlockAt(ps, start, t, mem, n, hd, i, c).Some?
    ensures var b := BlockAt(ps, start, t, mem, n, hd, i, c).value; var z := Pow2(ps);
            && start + i * z <= b.addr
            && b.addr + b.size <= start + (i + PagesOf(t, n, hd, i)) * z
            && i + PagesOf(t, n, hd, i) <= n && b.size > 0
            && (t[i].tag == SMALL ==> start + i * z + 8 * |mem[i]| <= b.addr)
  {
    hide Used, Laid, Pow2;
    var z := Pow2(ps);
    if t[i].tag != PAGE {
      SlabPageFacts(ps, t, mem, n, sl, i);
      var s := ShiftOf(ps, t[i]);
      var m := Pow2(s);
      Pow2Add(ps - s, s);
      ChunkInPage(i, c, z, m, Chunks(ps, s));
      if t[i].tag == SMALL {
        SmallGeometry(ps, s);
        MulMono(MapChunks(ps, s), c, m);
      }
    } else {
      var l := BusyLen(t, n, NULL, hd, i);
      assert RunAt(t, n, NULL, hd, i);
      RunSize(i, l, z);
    }
  }

  /** Two live blocks never overlap. */
  lemma BlocksApart(ps: nat, start: int, t: seq<Page>, mem: seq<seq<nat>>, n: nat, hd: seq<int>, fl: seq<int>,
                    sl: seq<seq<int>>,
                    i: nat, c: nat, j: nat, d: nat)
    requires StateOk(ps, t, mem, n, hd, fl, sl) && i < n && j < n && (i < j || (i == j && c < d))
    requires BlockAt(ps, start, t, mem, n, hd, i, c).Some? && BlockAt(ps, start, t, mem, n, hd, j, d).Some?
    ensures var a, b := BlockAt(ps, start, t, mem, n, hd, i, c).value, BlockAt(ps, start, t, mem, n, hd, j, d).value;
            a.addr + a.size <= b.addr
  {
    if i < j {
      PagesApart(ps, start, t, mem, n, hd, fl, sl, i, c, j, d);
      BlockInPages(ps, start, t, mem, n, hd, fl, sl, i, c);
      BlockInPages(ps, start, t, mem, n, hd, fl, sl, j, d);
      MulMono(i + PagesOf(t, n, hd, i), j, Pow2(ps));
    } else {
      var m := Pow2(ShiftOf(ps, t[i]));
      MulMono(c + 1, d, m);
      assert (c + 1) * m == c * m + m;
    }
  }

  ghost predicate Times(a: int, f: int, m: int) {
    a == f * m
  }

  ghost predicate MultipleOf(a: int, m: int) {
    exists f :: Times(a, f, m)
  }

  /** Blocks are aligned: chunks to their size, runs to the page size. */
  lemma BlockAligned(ps: nat, start: int, t: seq<Page>, mem: seq<seq<nat>>, n: nat, hd: seq<int>, i: nat, c: nat)
    requires PageShift(ps) && Heads(t, n, hd) && |mem| == n && i < n && MultipleOf(start, Pow2(ps))
    requires BlockAt(ps, start, t, mem, n, hd, i, c).Some?
    ensures var b := BlockAt(ps, start, t, mem, n, hd, i, c).value;
            MultipleOf(b.addr, if t[i].tag != PAGE then b.size else Pow2(ps))
  {
    AlignedSum(ps, start, i, c, if t[i].tag != PAGE then ShiftOf(ps, t[i]) else ps);
    AlignedSum(ps, start, i, 0, ps);
  }

  lemma AlignedSum(ps: nat, start: int, i: nat, c: nat, s: nat)
    requires s <= ps && MultipleOf(start, Pow2(ps))
    ensures MultipleOf(start + i * Pow2(ps) + c * Pow2(s), Pow2(s))
  {
    var q :| Times(start, q, Pow2(ps));
    Pow2Add(ps - s, s);
    SumOfMultiples(q, i, c, Pow2(ps), Pow2(s), Pow2(ps - s));
    assert Times(start + i * Pow2(ps) + c * Pow2(s), q * Pow2(ps - s) + i * Pow2(ps - s) + c, Pow2(s));
  }

  lemma WholePages(start: int, z: int)
    requires z > 0 && start % z == 0
    ensures MultipleOf(start, z)
  {
    assert Times(start, start / z, z);
  }

  lemma SumOfMultiples(q: int, i: int, c: int, z: int, m: int, e: int)
    requires z == e * m
    ensures q * z + i * z + c * m == (q * e + i * e + c) * m
  {
    assert q * z == (q * e) * m;
    assert i * z == (i * e) * m;
    assert (q * e + i * e + c) * m == (q * e) * m + (i * e) * m + c * m;
  }

  // ------------------------------------------------------------ from an address to its chunk

  lemma {:induction false} DivUnique(a: int, z: int, q: int, o: int)
    requires z > 0 && a == q * z + o && 0 <= o < z
    ensures a / z == q && a % z == o
  {
    var q', o' := a / z, a % z;
    assert a == q' * z + o';
    assert (q + 1) * z == q * z + z && (q' + 1) * z == q' * z + z;
    if q < q' { MulMono(q + 1, q', z); }
    if q' < q { MulMono(q' + 1, q, z); }
  }

  /** The page and chunk numbers of an address, as the code computes them. */
  lemma ChunkAddr(start: int, f: int, i: nat, c: nat, z: int, m: int, e: int)
    requires m > 0 && z == e * m && c < e && start == f * z
    ensures var p := start + i * z + c * m;
            z > 0 && (p - start) / z == i && p % m == 0 && (p % z) / m == c
  {
    var p := start + i * z + c * m;
    ChunkInPage(0, c, z, m, e);
    MulMono(1, e, m);
    DivUnique(p - start, z, i, c * m);
    assert p == (f + i) * z + c * m by { assert (f + i) * z == f * z + i * z; }
    DivUnique(p, z, f + i, c * m);
    DivUnique(c * m, m, c, 0);
    SumOfMultiples(f, i, c, z, m, e);
    DivUnique(p, m, f * e + i * e + c, 0);
  }

  /** A multiple of m below a page is one of the page's chunks. */
  lemma ChunkOfOffset(o: int, c: int, m: int, e: int)
    requires m > 0 && o == c * m && 0 <= o < e * m
    ensures 0 <= c < e && o / m == c
  {
    if c < 0 { MulMono(c, -1, m); }
    if c >= e { MulMono(e, c, m); }
    DivUnique(o, m, c, 0);
  }

  /** What is left of a multiple of m after whole pages is a multiple of m. */
  lemma OffsetIsMultiple(p: int, k: int, z: int, m: int, e: int, o: int)
    requires m > 0 && z == e * m && p == k * z + o && p % m == 0
    ensures o == (p / m - k * e) * m
  {
    assert p == p / m * m;
    assert k * z == k * e * m;
    assert (p / m - k * e) * m == p / m * m - k * e * m;
  }

  /** An aligned address inside page i is the address of chunk (p % z) / m. */
  lemma AddrChunk(start: int, f: int, p: int, z: int, m: int, e: int)
    requires m > 0 && e > 0 && z == e * m && start == f * z && start <= p && p % m == 0
    ensures z > 0
    ensures var i, c := (p - start) / z, (p % z) / m; p == start + i * z + c * m && 0 <= c < e && 0 <= i
  {
    MulMono(1, e, m);
    var i, o := (p - start) / z, (p - start) % z;
    assert p - start == i * z + o;
    assert (f + i) * z == f * z + i * z;
    DivUnique(p, z, f + i, o);
    OffsetIsMultiple(p, f + i, z, m, e, o);
    ChunkOfOffset(o, p / m - (f + i) * e, m, e);
  }

  lemma AddrOfChunk(ps: nat, start: int, i: nat, c: nat, s: nat)
    requires s <= ps && c < Pow2(ps - s) && start % Pow2(ps) == 0
    ensures var p := start + i * Pow2(ps) + c * Pow2(s);
            (p - start) / Pow2(ps) == i && p % Pow2(s) == 0 && (p % Pow2(ps)) / Pow2(s) == c
  {
    var z := Pow2(ps);
    assert start == start / z * z;
    Pow2Add(ps - s, s);
    ChunkAddr(start, start / z, i, c, z, Pow2(s), Pow2(ps - s));
  }

  /** The address of a page lies in the pages and is that of the page's chunk 0. */
  lemma PageAddr(ps: nat, start: int, n: nat, i: nat, s: nat)
    requires s <= ps && i < n && start % Pow2(ps) == 0
    ensures var (p, z) := (start + i * Pow2(ps), Pow2(ps));
            start <= p < start + n * z && (p - start) / z == i && p % Pow2(s) == 0 && (p % z) / Pow2(s) == 0
  {
    AddrOfChunk(ps, start, i, 0, s);
    hide Pow2;
    var z := Pow2(ps);
    MulMono(i + 1, n, z);
    MulMono(0, i, z);
    assert (i + 1) * z == i * z + z;
  }

  /** The page and chunk the code computes from a live block's address are the block's own,
      and the address passes the alignment check. */
  lemma AddrOfLive(ps: nat, start: int, t: seq<Page>, mem: seq<seq<nat>>, n: nat, hd: seq<int>, i: nat, c: nat)
    requires PageShift(ps) && Heads(t, n, hd) && |mem| == n && i < n && start % Pow2(ps) == 0
    requires BlockAt(ps, start, t, mem, n, hd, i, c).Some?
    ensures var p := BlockAt(ps, start, t, mem, n, hd, i, c).value.addr; var z := Pow2(ps);
            && (p - start) / z == i
            && (t[i].tag != PAGE ==> p % Pow2(ShiftOf(ps, t[i])) == 0 && (p % z) / Pow2(ShiftOf(ps, t[i])) == c)
            && (t[i].tag == PAGE ==> p % z == 0 && c == 0)
  {
    if t[i].tag != PAGE {
      AddrOfChunk(ps, start, i, c, ShiftOf(ps, t[i]));
    } else {
      AddrOfChunk(ps, start, i, 0, ps);
    }
  }

  /** An aligned address in slab page i is that of the chunk the code computes. */
  lemma ChunkOfAddr(ps: nat, start: int, p: int, i: nat, s: nat)
    requires s <= ps && start % Pow2(ps) == 0 && start <= p && p % Pow2(s) == 0 && i == (p - start) / Pow2(ps)
    ensures var c := (p % Pow2(ps)) / Pow2(s);
            0 <= c < Pow2(ps - s) && p == start + i * Pow2(ps) + c * Pow2(s)
  {
    var z := Pow2(ps);
    assert start == start / z * z;
    Pow2Add(ps - s, s);
    AddrChunk(start, start / z, p, z, Pow2(s), Pow2(ps - s));
  }

  /** An aligned pointer into slab page x leads to chunk (p % z) / m of it; that chunk is in use just when it is
      one of the bitmap's own or a live block. */
  lemma ChunkPointer(ps: nat, start: int, t: seq<Page>, mem: seq<seq<nat>>, hd: seq<int>, n: nat, x: nat, p: int)
    requires PageShift(ps) && Heads(t, n, hd) && |mem| == n && x < n && start % Pow2(ps) == 0 && start <= p
    requires x == (p - start) / Pow2(ps) && t[x].tag != PAGE && Laid(ps, t[x], mem[x])
    requires p % Pow2(ShiftOf(ps, t[x])) == 0
    ensures var s := ShiftOf(ps, t[x]); var c := (p % Pow2(ps)) / Pow2(s);
            && 0 <= c < Chunks(ps, s) && p == start + x * Pow2(ps) + c * Pow2(s)
            && (t[x].tag == SMALL ==> c / WORD_BITS < |mem[x]|)
            && (FirstChunk(ps, t[x]) <= c && Used(ps, t[x], mem[x], c) <==>
                  HasAddr(BlockAt(ps, start, t, mem, n, hd, x, c), p))
            && (!HasAddr(BlockAt(ps, start, t, mem, n, hd, x, c), p) ==>
                  BlockAt(ps, start, t, mem, n, hd, x, c) == None)
            && (c < FirstChunk(ps, t[x]) ==> t[x].tag == SMALL && Used(ps, t[x], mem[x], c))
  {
    var s := ShiftOf(ps, t[x]);
    ChunkOfAddr(ps, start, p, x, s);
    ChunkInWords(ps, t[x], mem[x], (p % Pow2(ps)) / Pow2(s));
  }

  lemma PageInRange(start: int, p: int, z: int, n: int)
    requires z > 0 && start <= p < start + n * z
    ensures 0 <= (p - start) / z < n
  {
    var q := (p - start) / z;
    assert p - start == q * z + (p - start) % z;
    if q >= n { MulMono(n, q, z); }
    if q < 0 { MulMono(q, -1, z); }
  }

  // ------------------------------------------------------------ what a free does to the blocks

  lemma GoneNone(ps: nat, start: int, t: seq<Page>, mem: seq<seq<nat>>, hd: seq<int>, n: nat, p: int)
    requires PageShift(ps) && Heads(t, n, hd) && |mem| == n
    requires forall i: nat, d: nat | i < n :: !HasAddr(BlockAt(ps, start, t, mem, n, hd, i, d), p)
    ensures OnlyGone(ps, start, t, mem, hd, t, mem, hd, n, p)
  {
  }

  /** Only the block at (x, c) has address p: its going is all that happens. */
  lemma GoneOne(ps: nat, start: int, t: seq<Page>, mem: seq<seq<nat>>, hd: seq<int>,
                r: seq<Page>, mem': seq<seq<nat>>, hd': seq<int>, n: nat, x: nat, c: nat, p: int)
    requires PageShift(ps) && Heads(t, n, hd) && Heads(r, n, hd') && |mem| == |mem'| == n && x < n
             && start % Pow2(ps) == 0
    requires HasAddr(BlockAt(ps, start, t, mem, n, hd, x, c), p)
    requires OnlyAt(ps, start, t, mem, hd, r, mem', hd', n, x, c) && BlockAt(ps, start, r, mem', n, hd', x, c) == None
    ensures OnlyGone(ps, start, t, mem, hd, r, mem', hd', n, p)
  {
    AddrOfLive(ps, start, t, mem, n, hd, x, c);
    forall i: nat, d: nat | i < n && HasAddr(BlockAt(ps, start, t, mem, n, hd, i, d), p) ensures i == x && d == c {
      AddrOfLive(ps, start, t, mem, n, hd, i, d);
    }
  }

  /** No block starts at an address that fails the checks made of a pointer into slab page x. */
  lemma NoChunkAt(ps: nat, start: int, t: seq<Page>, mem: seq<seq<nat>>, hd: seq<int>, n: nat, x: nat, p: int)
    requires PageShift(ps) && Heads(t, n, hd) && |mem| == n && x < n && start % Pow2(ps) == 0
    requires x == (p - start) / Pow2(ps) && t[x].tag != PAGE && ShiftOf(ps, t[x]) <= ps
    requires var m := Pow2(ShiftOf(ps, t[x]));
             p % m != 0 || forall d: nat | d == (p % Pow2(ps)) / m :: BlockAt(ps, start, t, mem, n, hd, x, d) == None
    ensures OnlyGone(ps, start, t, mem, hd, t, mem, hd, n, p)
  {
    forall i: nat, d: nat | i < n ensures !HasAddr(BlockAt(ps, start, t, mem, n, hd, i, d), p) {
      if HasAddr(BlockAt(ps, start, t, mem, n, hd, i, d), p) { AddrOfLive(ps, start, t, mem, n, hd, i, d); }
    }
    GoneNone(ps, start, t, mem, hd, n, p);
  }

  lemma NoRunAt(ps: nat, start: int, t: seq<Page>, mem: seq<seq<nat>>, hd: seq<int>, n: nat, x: nat, p: int)
    requires PageShift(ps) && Heads(t, n, hd) && |mem| == n && x < n && start % Pow2(ps) == 0
    requires x == (p - start) / Pow2(ps) && t[x].tag == PAGE
    requires p % Pow2(ps) != 0 || BlockAt(ps, start, t, mem, n, hd, x, 0) == None
    ensures OnlyGone(ps, start, t, mem, hd, t, mem, hd, n, p)
  {
    forall i: nat, d: nat | i < n ensures !HasAddr(BlockAt(ps, start, t, mem, n, hd, i, d), p) {
      if HasAddr(BlockAt(ps, start, t, mem, n, hd, i, d), p) { AddrOfLive(ps, start, t, mem, n, hd, i, d); }
    }
    GoneNone(ps, start, t, mem, hd, n, p);
  }

  /** A run was given back: if a block started at p it was that run's, and nothing else changed. */
  lemma GoneRun(ps: nat, start: int, t: seq<Page>, mem: seq<seq<nat>>, hd: seq<int>, r: seq<Page>, hd': seq<int>,
                n: nat, x: nat, p: int)
    requires PageShift(ps) && Heads(t, n, hd) && Heads(r, n, hd') && |mem| == n && x < n && start % Pow2(ps) == 0
    requires p == start + x * Pow2(ps) && t[x].tag == PAGE
    requires OnlyAt(ps, start, t, mem, hd, r, mem, hd', n, x, 0) && BlockAt(ps, start, r, mem, n, hd', x, 0) == None
    ensures OnlyGone(ps, start, t, mem, hd, r, mem, hd', n, p)
  {
    AddrOfChunk(ps, start, x, 0, ps);
    forall i: nat, d: nat | i < n && HasAddr(BlockAt(ps, start, t, mem, n, hd, i, d), p) ensures i == x && d == 0 {
      AddrOfLive(ps, start, t, mem, n, hd, i, d);
    }
  }

  lemma NoBlockOutside(ps: nat, start: int, end: int, t: seq<Page>, mem: seq<seq<nat>>, n: nat, hd: seq<int>,
                       fl: seq<int>,
                       sl: seq<seq<int>>, p: int)
    requires StateOk(ps, t, mem, n, hd, fl, sl) && start + n * Pow2(ps) <= end && (p < start || p > end)
    ensures OnlyGone(ps, start, t, mem, hd, t, mem, hd, n, p)
  {
    forall i: nat, d: nat | i < n ensures !HasAddr(BlockAt(ps, start, t, mem, n, hd, i, d), p) {
      if HasAddr(BlockAt(ps, start, t, mem, n, hd, i, d), p) {
        BlockInPages(ps, start, t, mem, n, hd, fl, sl, i, d);
        MulMono(i + PagesOf(t, n, hd, i), n, Pow2(ps));
        MulMono(0, i, Pow2(ps));
      }
    }
    GoneNone(ps, start, t, mem, hd, n, p);
  }
}
