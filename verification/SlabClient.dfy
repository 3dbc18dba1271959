/** Whole runs of the allocator: any sequence of allocations and frees of live pointers. */
module SlabClient {
  import opened Options
  import opened SlabTable
  import opened SlabRuns
  import opened SlabChunks
  import opened SlabBlocks
  import opened SlabGeometry
  import opened Words
  import opened SlabPool

  /** p is the address of the live block at chunk c of page i. */
  ghost predicate Lives(ps: nat, start: int, t: seq<Page>, mem: seq<seq<nat>>, n: nat, hd: seq<int>, p: int, i: nat,
                        c: nat)
    requires PageShift(ps) && Heads(t, n, hd) && |mem| == n
  {
    i < n && HasAddr(BlockAt(ps, start, t, mem, n, hd, i, c), p)
  }

  ghost predicate LiveAddr(ps: nat, start: int, t: seq<Page>, mem: seq<seq<nat>>, n: nat, hd: seq<int>, p: int)
    requires PageShift(ps) && Heads(t, n, hd) && |mem| == n
  {
    exists i: nat, c: nat :: Lives(ps, start, t, mem, n, hd, p, i, c)
  }

  /** p is the address of a live block of the pool. */
  ghost predicate IsLive(pool: Pool, p: int)
    requires pool.Valid()
    reads pool, pool.desc, pool.mem
  {
    LiveAddr(pool.ps, pool.start, pool.desc[..], pool.mem[..], pool.n, pool.hd, p)
  }

  /** Two live blocks are the same block, or apart. */
  lemma LiveBlocksApart(pool: Pool, i: nat, c: nat, j: nat, d: nat)
    requires pool.Valid() && i < pool.n && j < pool.n && pool.BlockOf(i, c).Some? && pool.BlockOf(j, d).Some?
    ensures var (a, b) := (pool.BlockOf(i, c).value, pool.BlockOf(j, d).value);
            (i == j && c == d) || a.addr + a.size <= b.addr || b.addr + b.size <= a.addr
  {
    var t, m, n := pool.desc[..], pool.mem[..], pool.n;
    if i < j || (i == j && c < d) {
      BlocksApart(pool.ps, pool.start, t, m, n, pool.hd, pool.fl, pool.sl, i, c, j, d);
    } else if j < i || (i == j && d < c) {
      BlocksApart(pool.ps, pool.start, t, m, n, pool.hd, pool.fl, pool.sl, j, d, i, c);
    }
  }

  /** A live block lies in the pool, and clear of the bitmap at the front of its page. */
  lemma LiveBlockInside(pool: Pool, i: nat, c: nat)
    requires pool.Valid() && i < pool.n && pool.BlockOf(i, c).Some?
    ensures var a := pool.BlockOf(i, c).value; var z := Pow2(pool.ps);
            && pool.start <= a.addr && a.addr + a.size <= pool.start + pool.n * z <= pool.end && a.size > 0
            && (pool.desc[i].tag == SMALL ==> pool.start + i * z + 8 * |pool.mem[i]| <= a.addr)
  {
    var t, m, n, z := pool.desc[..], pool.mem[..], pool.n, Pow2(pool.ps);
    BlockInPages(pool.ps, pool.start, t, m, n, pool.hd, pool.fl, pool.sl, i, c);
    MulMono(i + PagesOf(t, n, pool.hd, i), n, z);
    MulMono(0, i, z);
  }

  /** A live chunk is aligned to its size, a live page run to the page size. */
  lemma LiveBlockAligned(pool: Pool, i: nat, c: nat)
    requires pool.Valid() && i < pool.n && pool.BlockOf(i, c).Some?
    ensures var a := pool.BlockOf(i, c).value;
            MultipleOf(a.addr, if pool.desc[i].tag != PAGE then a.size else Pow2(pool.ps))
  {
    WholePages(pool.start, Pow2(pool.ps));
    BlockAligned(pool.ps, pool.start, pool.desc[..], pool.mem[..], pool.n, pool.hd, i, c);
  }

  /** A live pointer lies in the pages, and never at a chunk that a bitmap itself takes up. */
  lemma LiveNotOwn(pool: Pool, i: nat, c: nat)
    requires pool.Valid() && i < pool.n && pool.BlockOf(i, c).Some?
    ensures var p := pool.BlockOf(i, c).value.addr;
            pool.start <= p < pool.start + pool.n * Pow2(pool.ps) <= pool.end && !pool.OwnChunk(p)
  {
    hide Pow2, Laid;
    var t, m, n := pool.desc[..], pool.mem[..], pool.n;
    LiveBlockInside(pool, i, c);
    AddrOfLive(pool.ps, pool.start, t, m, n, pool.hd, i, c);
    LiveFacts(pool.ps, pool.start, t, m, n, pool.hd, pool.fl, pool.sl, i, c);
  }

  /** When nothing is live, one free run covers the pool and no slot has a page. */
  lemma AllFreed(pool: Pool)
    requires pool.Valid() && pool.n > 0 && forall i: nat, c: nat | i < pool.n :: pool.BlockOf(i, c) == None
    ensures pool.fl == [0] && pool.desc[0].slab == pool.n
    ensures forall k | 0 <= k < |pool.sl| :: pool.sl[k] == []
  {
    var t, m, n := pool.desc[..], pool.mem[..], pool.n;
    forall i: nat | i < n ensures t[i].tag == PAGE && BusyLen(t, n, NULL, pool.hd, i) == 0 {
      NothingLive(pool.ps, pool.start, t, m, n, pool.hd, pool.fl, pool.sl, i) by {
        forall c: nat ensures BlockAt(pool.ps, pool.start, t, m, n, pool.hd, i, c) == None {
          assert pool.BlockOf(i, c) == None;
        }
      }
    }
    WholePoolFree(t, n, pool.hd, pool.fl);
    forall k | 0 <= k < |pool.sl| ensures pool.sl[k] == [] {
      if |pool.sl[k]| > 0 { FirstOfSlot(pool.ps, t, m, n, pool.sl, k); }
    }
  }

  lemma NothingLive(ps: nat, start: int, t: seq<Page>, m: seq<seq<nat>>, n: nat, hd: seq<int>, fl: seq<int>,
                    sl: seq<seq<int>>, i: nat)
    requires StateOk(ps, t, m, n, hd, fl, sl) && i < n
    requires forall c: nat :: BlockAt(ps, start, t, m, n, hd, i, c) == None
    ensures t[i].tag == PAGE && BusyLen(t, n, NULL, hd, i) == 0
  {
    assert PageOk(t, n, NULL, hd, i);
    assert BlockAt(ps, start, t, m, n, hd, i, 0) == None;
    if t[i].tag != PAGE {
      SlabPageFacts(ps, t, m, n, sl, i);
      var c: nat :| FirstChunk(ps, t[i]) <= c < Chunks(ps, ShiftOf(ps, t[i])) && Used(ps, t[i], m[i], c);
      var none := BlockAt(ps, start, t, m, n, hd, i, c);
    }
  }

  // ------------------------------------------------------------ the addresses in use

  lemma AddrsAfterTake(ps: nat, start: int, t: seq<Page>, m: seq<seq<nat>>, hd: seq<int>, r: seq<Page>,
                       w: seq<seq<nat>>, hd': seq<int>,
                       n: nat, i: nat, c: nat, p: int, q: int)
    requires PageShift(ps) && Heads(t, n, hd) && Heads(r, n, hd') && |m| == |w| == n
    requires OnlyAt(ps, start, t, m, hd, r, w, hd', n, i, c) && i < n
    requires BlockAt(ps, start, t, m, n, hd, i, c) == None && Lives(ps, start, r, w, n, hd', p, i, c)
    ensures LiveAddr(ps, start, r, w, n, hd', q) <==> q == p || LiveAddr(ps, start, t, m, n, hd, q)
  {
    if q == p { assert Lives(ps, start, r, w, n, hd', q, i, c); }
    if LiveAddr(ps, start, t, m, n, hd, q) {
      var j: nat, d: nat :| Lives(ps, start, t, m, n, hd, q, j, d);
      assert Lives(ps, start, r, w, n, hd', q, j, d);
    }
    if LiveAddr(ps, start, r, w, n, hd', q) && q != p {
      var j: nat, d: nat :| Lives(ps, start, r, w, n, hd', q, j, d);
      assert Lives(ps, start, t, m, n, hd, q, j, d);
    }
  }

  /** The address handed out was not in use. */
  lemma NewAddr(ps: nat, start: int, t: seq<Page>, m: seq<seq<nat>>, hd: seq<int>, r: seq<Page>, w: seq<seq<nat>>,
                hd': seq<int>,
                fl': seq<int>, sl': seq<seq<int>>, n: nat, i: nat, c: nat, p: int)
    requires PageShift(ps) && Heads(t, n, hd) && |m| == n && StateOk(ps, r, w, n, hd', fl', sl')
    requires OnlyAt(ps, start, t, m, hd, r, w, hd', n, i, c) && i < n
    requires BlockAt(ps, start, t, m, n, hd, i, c) == None && Lives(ps, start, r, w, n, hd', p, i, c)
    ensures !LiveAddr(ps, start, t, m, n, hd, p)
  {
    if LiveAddr(ps, start, t, m, n, hd, p) {
      var j: nat, d: nat :| Lives(ps, start, t, m, n, hd, p, j, d);
      BlockInPages(ps, start, r, w, n, hd', fl', sl', i, c);
      BlockInPages(ps, start, r, w, n, hd', fl', sl', j, d);
      if i < j || (i == j && c < d) { BlocksApart(ps, start, r, w, n, hd', fl', sl', i, c, j, d); }
      else { BlocksApart(ps, start, r, w, n, hd', fl', sl', j, d, i, c); }
    }
  }

  lemma AddrsAfterDrop(ps: nat, start: int, t: seq<Page>, m: seq<seq<nat>>, hd: seq<int>, r: seq<Page>,
                       w: seq<seq<nat>>, hd': seq<int>,
                       n: nat, p: int, q: int)
    requires PageShift(ps) && Heads(t, n, hd) && Heads(r, n, hd') && |m| == |w| == n
    requires OnlyGone(ps, start, t, m, hd, r, w, hd', n, p)
    ensures LiveAddr(ps, start, r, w, n, hd', q) <==> q != p && LiveAddr(ps, start, t, m, n, hd, q)
  {
    if LiveAddr(ps, start, t, m, n, hd, q) && q != p {
      var j: nat, d: nat :| Lives(ps, start, t, m, n, hd, q, j, d);
      assert Lives(ps, start, r, w, n, hd', q, j, d);
    }
    if LiveAddr(ps, start, r, w, n, hd', q) {
      var j: nat, d: nat :| Lives(ps, start, r, w, n, hd', q, j, d);
      assert Lives(ps, start, t, m, n, hd, q, j, d);
    }
  }

  datatype Op = Take(size: nat) | Drop(k: nat)

  /** A pointer that the client holds, and the size it asked for. */
  datatype Grant = Grant(addr: int, size: nat)

  /** The live block at chunk c of page i starts where the grant says and has the size asked for. */
  ghost predicate ServedBy(ps: nat, start: int, t: seq<Page>, mem: seq<seq<nat>>, n: nat, hd: seq<int>, g: Grant,
                           i: nat, c: nat)
    requires PageShift(ps) && Heads(t, n, hd) && |mem| == n
  {
    Lives(ps, start, t, mem, n, hd, g.addr, i, c) && BlockAt(ps, start, t, mem, n, hd, i, c).value.size >= g.size
  }

  ghost predicate Served(ps: nat, start: int, t: seq<Page>, mem: seq<seq<nat>>, n: nat, hd: seq<int>, g: Grant)
    requires PageShift(ps) && Heads(t, n, hd) && |mem| == n
  {
    exists i: nat, c: nat :: ServedBy(ps, start, t, mem, n, hd, g, i, c)
  }

  /** A live block of at least the size asked for starts at the pointer. */
  ghost predicate IsServed(pool: Pool, g: Grant)
    requires pool.Valid()
    reads pool, pool.desc, pool.mem
  {
    Served(pool.ps, pool.start, pool.desc[..], pool.mem[..], pool.n, pool.hd, g)
  }

  function Addrs(held: seq<Grant>): (r: seq<int>)
    ensures |r| == |held|
  {
    seq(|held|, k requires 0 <= k < |held| => held[k].addr)
  }

  /** A client that allocates, and frees pointers it holds, in any order: at the end it holds the pointers to
      all live blocks, each once, and each block is as large as it was asked to be. */
  method Run(pool: Pool, ops: seq<Op>) returns (held: seq<Grant>)
    requires pool.Valid() && forall i: nat, c: nat | i < pool.n :: pool.BlockOf(i, c) == None
    modifies pool`hd, pool`fl, pool`sl, pool.desc, pool.mem
    ensures pool.Valid()
    ensures forall a, b | 0 <= a < b < |held| :: held[a].addr != held[b].addr
    ensures forall p :: p in Addrs(held) <==> IsLive(pool, p)
    ensures forall a | 0 <= a < |held| :: IsServed(pool, held[a])
  {
    hide HeldBy, IsLive, IsServed;
    held := [];
    NoneHeld(pool);
    for o := 0 to |ops|
      invariant HeldBy(pool, held)
    {
      match ops[o]
      case Take(size) =>
        held := TakeOne(pool, size, held);
      case Drop(k) =>
        if k < |held| {
          held := DropOne(pool, k, held);
        }
    }
    HeldMeans(pool, held);
  }

  lemma NoneHeld(pool: Pool)
    requires pool.Valid() && forall i: nat, c: nat | i < pool.n :: pool.BlockOf(i, c) == None
    ensures HeldBy(pool, [])
  {
    assert Addrs([]) == [];
    forall p ensures !LiveAddr(pool.ps, pool.start, pool.desc[..], pool.mem[..], pool.n, pool.hd, p) {
      forall i: nat, c: nat ensures !Lives(pool.ps, pool.start, pool.desc[..], pool.mem[..], pool.n, pool.hd, p, i, c) {
        if i < pool.n { assert pool.BlockOf(i, c) == None; }
      }
    }
  }

  /** `held` lists the addresses of the live blocks, each once, and each block has the size asked for. */
  ghost predicate Holds(ps: nat, start: int, t: seq<Page>, mem: seq<seq<nat>>, n: nat, hd: seq<int>, held: seq<Grant>)
    requires PageShift(ps) && Heads(t, n, hd) && |mem| == n
  {
    && Distinct(Addrs(held))
    && (forall p :: p in Addrs(held) <==> LiveAddr(ps, start, t, mem, n, hd, p))
    && (forall a | 0 <= a < |held| :: Served(ps, start, t, mem, n, hd, held[a]))
  }

  ghost predicate HeldBy(pool: Pool, held: seq<Grant>)
    reads pool, pool.desc, pool.mem
  {
    pool.Valid() && Holds(pool.ps, pool.start, pool.desc[..], pool.mem[..], pool.n, pool.hd, held)
  }

  lemma HeldMeans(pool: Pool, held: seq<Grant>)
    requires HeldBy(pool, held)
    ensures pool.Valid()
    ensures forall a, b | 0 <= a < b < |held| :: held[a].addr != held[b].addr
    ensures forall p :: p in Addrs(held) <==> IsLive(pool, p)
    ensures forall a | 0 <= a < |held| :: IsServed(pool, held[a])
  {
    hide StateOk, LiveAddr, Served;
    forall a, b | 0 <= a < b < |held| ensures held[a].addr != held[b].addr { assert Addrs(held)[a] != Addrs(held)[b]; }
    forall p ensures p in Addrs(held) <==> IsLive(pool, p) {}
    forall a | 0 <= a < |held| ensures IsServed(pool, held[a]) {}
  }

  lemma HoldsMore(ps: nat, start: int, t: seq<Page>, m: seq<seq<nat>>, hd: seq<int>, r: seq<Page>, w: seq<seq<nat>>,
                  hd': seq<int>,
                  fl': seq<int>, sl': seq<seq<int>>, n: nat, i: nat, c: nat, g: Grant, held: seq<Grant>)
    requires PageShift(ps) && Heads(t, n, hd) && |m| == n && StateOk(ps, r, w, n, hd', fl', sl')
    requires OnlyAt(ps, start, t, m, hd, r, w, hd', n, i, c) && i < n
    requires BlockAt(ps, start, t, m, n, hd, i, c) == None && ServedBy(ps, start, r, w, n, hd', g, i, c)
    requires Holds(ps, start, t, m, n, hd, held)
    ensures Holds(ps, start, r, w, n, hd', held + [g])
  {
    var (p, all) := (g.addr, held + [g]);
    NewAddr(ps, start, t, m, hd, r, w, hd', fl', sl', n, i, c, p);
    assert Addrs(all) == Addrs(held) + [p];
    forall q ensures q in Addrs(all) <==> LiveAddr(ps, start, r, w, n, hd', q) {
      AddrsAfterTake(ps, start, t, m, hd, r, w, hd', n, i, c, p, q);
    }
    forall a | 0 <= a < |all| ensures Served(ps, start, r, w, n, hd', all[a]) {
      if a < |held| {
        var j: nat, d: nat :| ServedBy(ps, start, t, m, n, hd, held[a], j, d);
        assert ServedBy(ps, start, r, w, n, hd', held[a], j, d);
      }
    }
  }

  lemma HoldsSame(ps: nat, start: int, t: seq<Page>, m: seq<seq<nat>>, hd: seq<int>, r: seq<Page>, w: seq<seq<nat>>,
                  hd': seq<int>,
                  n: nat, held: seq<Grant>)
    requires PageShift(ps) && Heads(t, n, hd) && Heads(r, n, hd') && |m| == |w| == n
    requires OnlyAt(ps, start, t, m, hd, r, w, hd', n, NULL, 0)
    requires Holds(ps, start, t, m, n, hd, held)
    ensures Holds(ps, start, r, w, n, hd', held)
  {
    forall q ensures q in Addrs(held) <==> LiveAddr(ps, start, r, w, n, hd', q) {
      if LiveAddr(ps, start, t, m, n, hd, q) {
        var j: nat, d: nat :| Lives(ps, start, t, m, n, hd, q, j, d);
        assert Lives(ps, start, r, w, n, hd', q, j, d);
      }
      if LiveAddr(ps, start, r, w, n, hd', q) {
        var j: nat, d: nat :| Lives(ps, start, r, w, n, hd', q, j, d);
        assert Lives(ps, start, t, m, n, hd, q, j, d);
      }
    }
    forall a | 0 <= a < |held| ensures Served(ps, start, r, w, n, hd', held[a]) {
      var j: nat, d: nat :| ServedBy(ps, start, t, m, n, hd, held[a], j, d);
      assert ServedBy(ps, start, r, w, n, hd', held[a], j, d);
    }
  }

  lemma HoldsLess(ps: nat, start: int, t: seq<Page>, m: seq<seq<nat>>, hd: seq<int>, r: seq<Page>, w: seq<seq<nat>>,
                  hd': seq<int>,
                  n: nat, held: seq<Grant>, k: nat)
    requires PageShift(ps) && Heads(t, n, hd) && Heads(r, n, hd') && |m| == |w| == n && k < |held|
    requires OnlyGone(ps, start, t, m, hd, r, w, hd', n, held[k].addr)
    requires Holds(ps, start, t, m, n, hd, held)
    ensures Holds(ps, start, r, w, n, hd', held[..k] + held[k+1..])
  {
    hide BlockAt;
    var (rest, p) := (held[..k] + held[k+1..], held[k].addr);
    assert Addrs(held)[k] == p && Addrs(rest) == Addrs(held)[..k] + Addrs(held)[k+1..];
    forall q ensures q in Addrs(rest) <==> LiveAddr(ps, start, r, w, n, hd', q) {
      InRemoved(Addrs(held), k, q);
      AddrsAfterDrop(ps, start, t, m, hd, r, w, hd', n, p, q);
    }
    forall a | 0 <= a < |rest| ensures Served(ps, start, r, w, n, hd', rest[a]) {
      var b := if a < k then a else a + 1;
      assert Addrs(held)[b] != p;
      var j: nat, d: nat :| ServedBy(ps, start, t, m, n, hd, held[b], j, d);
      assert ServedBy(ps, start, r, w, n, hd', held[b], j, d);
    }
  }

  method TakeOne(pool: Pool, size: nat, held: seq<Grant>) returns (now: seq<Grant>)
    requires HeldBy(pool, held)
    modifies pool`hd, pool`fl, pool`sl, pool.desc, pool.mem
    ensures HeldBy(pool, now)
    ensures now == held || (|now| == |held| + 1 && now[..|held|] == held && now[|held|].size == size)
  {
    ghost var t, m, hd0, n := pool.desc[..], pool.mem[..], pool.hd, pool.n;
    var p, i, c := pool.Alloc(size);
    now := held;
    if p != 0 {
      now := held + [Grant(p, size)];
      HoldsMore(pool.ps, pool.start, t, m, hd0, pool.desc[..], pool.mem[..], pool.hd, pool.fl, pool.sl, n, i, c,
        Grant(p, size), held);
    } else {
      HoldsSame(pool.ps, pool.start, t, m, hd0, pool.desc[..], pool.mem[..], pool.hd, n, held);
    }
  }

  method DropOne(pool: Pool, k: nat, held: seq<Grant>) returns (now: seq<Grant>)
    requires HeldBy(pool, held)
    requires k < |held|
    modifies pool`hd, pool`fl, pool`sl, pool.desc, pool.mem
    ensures HeldBy(pool, now)
    ensures now == held[..k] + held[k+1..]
  {
    ghost var t, m, hd0, n := pool.desc[..], pool.mem[..], pool.hd, pool.n;
    ghost var i: nat, c: nat :| ServedBy(pool.ps, pool.start, t, m, n, hd0, held[k], i, c);
    LiveNotOwn(pool, i, c);
    pool.Free(held[k].addr);
    now := held[..k] + held[k+1..];
    HoldsLess(pool.ps, pool.start, t, m, hd0, pool.desc[..], pool.mem[..], pool.hd, n, held, k);
  }

  // ------------------------------------------------------------ a pool that comes to harm

  /** A block of 8 bytes lies in a small-chunk page, if the pages have at least 1 KiB. */
  lemma EightBytes(pool: Pool, i: nat, c: nat)
    requires pool.Valid() && pool.ps >= 10 && i < pool.n && pool.BlockOf(i, c).Some?
             && pool.BlockOf(i, c).value.size == 8
    ensures pool.desc[i].tag == SMALL && ShiftOf(pool.ps, pool.desc[i]) == MIN_SHIFT
  {
    var t, m, n := pool.desc[..], pool.mem[..], pool.n;
    assert Pow2(3) == 8;
    Pow2Mono(4, pool.ps);
    assert Pow2(4) == 16;
    if t[i].tag == PAGE {
      MulMono(1, BusyLen(t, n, NULL, pool.hd, i), Pow2(pool.ps));
    } else {
      LiveFacts(pool.ps, pool.start, t, m, n, pool.hd, pool.fl, pool.sl, i, c);
      var s := ShiftOf(pool.ps, t[i]);
      if s > 3 { Pow2Mono(4, s); }
    }
  }

  /** The address of a small-chunk page is that of the bitmap's own first chunk. */
  lemma PageIsOwn(pool: Pool, i: nat)
    requires pool.Valid() && i < pool.n && pool.desc[i].tag == SMALL
    ensures var p := pool.start + i * Pow2(pool.ps);
            pool.start <= p < pool.start + pool.n * Pow2(pool.ps) && (p - pool.start) / Pow2(pool.ps) == i
              && pool.OwnChunk(p)
  {
    hide Laid, SomeFree, SomeUsed, Used, Chunks, TagOf, ExactShift, Pow2, High, Low, RunsOk;
    SlabPageFacts(pool.ps, pool.desc[..], pool.mem[..], pool.n, pool.sl, i);
    PageAddr(pool.ps, pool.start, pool.n, i, ShiftOf(pool.ps, pool.desc[i]));
  }

  /** Every pool of pages of at least 1 KiB can come to harm: after the first small allocation, freeing the address
      of its page leaves tables that no lists make sound. */
  method Harm(p: int, limit: int, pageShift: nat) returns (pool: Pool)
    requires PageShift(pageShift) && 10 <= pageShift && 0 < p <= limit < PAGE_START
    requires Pool.PagesStart(p, limit - p, pageShift) + Pow2(pageShift) <= limit
    requires Pow2(pageShift) + Pool.DESC_SIZE <= limit - p
    ensures fresh(pool) && fresh(pool.desc) && fresh(pool.mem)
    ensures !Sound(pool.ps, pool.desc[..], pool.mem[..], pool.n)
  {
    pool := new Pool(p, limit, pageShift);
    var page := OneByte(pool);
    PageIsOwn(pool, page);
    pool.Free(pool.start + page * Pow2(pool.ps));
  }

  /** The first allocation of one byte, and the page it is in. */
  method OneByte(pool: Pool) returns (page: int)
    requires pool.Valid() && pool.ps >= 10 && pool.n >= 1 && pool.fl == [0]
    modifies pool`hd, pool`fl, pool`sl, pool.desc, pool.mem
    ensures pool.Valid() && 0 <= page < pool.n && pool.desc[page].tag == SMALL
  {
    hide OnlyAt, BlockAt, StateOk, FreeSpan, LeastSlot;
    OnePageFree(pool);
    OneByteSlot(pool.ps);
    var addr, i, c := pool.Alloc(1);
    EightBytes(pool, i, c);
    PageOfLive(pool, i, c);
    page := (addr - pool.start) / Pow2(pool.ps);
  }

  /** One byte is served from the slot of 8 bytes. */
  lemma OneByteSlot(ps: nat)
    requires ps >= 10
    ensures Pow2(MIN_SHIFT) == 8 && 1 <= Pow2(ps) / 2
    ensures forall k: nat :: LeastSlot(1, k) ==> k == 0
  {
    Pow2Mono(1, ps);
    assert Pow2(1) == 2;
  }

  lemma PageOfLive(pool: Pool, i: nat, c: nat)
    requires pool.Valid() && i < pool.n && pool.BlockOf(i, c).Some?
    ensures (pool.BlockOf(i, c).value.addr - pool.start) / Pow2(pool.ps) == i
  {
    AddrOfLive(pool.ps, pool.start, pool.desc[..], pool.mem[..], pool.n, pool.hd, i, c);
  }

  lemma OnePageFree(pool: Pool)
    requires pool.Valid() && pool.n >= 1 && pool.fl == [0]
    ensures FreeSpan(pool.desc[..], pool.n, pool.hd, 0, 1)
  {
    assert 0 in pool.fl;
  }
}
