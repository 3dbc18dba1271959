/** What the tables say is handed out: the live blocks of the pool. */
module SlabBlocks {
  import opened Options
  import opened SlabTable
  import opened SlabRuns
  import opened SlabMoves
  import opened SlabChunks
  import opened SlabSlots
  import opened Words

  datatype Block = Block(addr: int, size: nat)

  /** Both layers of the allocator's state. */
  ghost predicate StateOk(ps: nat, t: seq<Page>, mem: seq<seq<nat>>, n: nat, hd: seq<int>, fl: seq<int>,
                          sl: seq<seq<int>>) {
    SlabsOk(ps, t, mem, n, sl) && RunsOk(t, n, NULL, hd, fl)
  }

  /** The live block at chunk c of page i, or at page i when c is 0 and a busy run starts there. */
  ghost function BlockAt(ps: nat, start: int, t: seq<Page>, mem: seq<seq<nat>>, n: nat, hd: seq<int>, i: int,
                         c: nat): Option<Block>
    requires PageShift(ps) && Heads(t, n, hd) && |mem| == n && 0 <= i < n
  {
    if t[i].tag != PAGE then
      if ShiftOf(ps, t[i]) <= ps && FirstChunk(ps, t[i]) <= c < Chunks(ps, ShiftOf(ps, t[i]))
        && Used(ps, t[i], mem[i], c)
      then Some(Block(start + i * Pow2(ps) + c * Pow2(ShiftOf(ps, t[i])), Pow2(ShiftOf(ps, t[i]))))
      else None
    else if c == 0 && BusyLen(t, n, NULL, hd, i) > 0
    then Some(Block(start + i * Pow2(ps), BusyLen(t, n, NULL, hd, i) * Pow2(ps)))
    else None
  }

  lemma BlockKept(ps: nat, start: int, t: seq<Page>, mem: seq<seq<nat>>, hd: seq<int>,
                  r: seq<Page>, mem': seq<seq<nat>>, hd': seq<int>, n: nat, i: nat, c: nat)
    requires PageShift(ps) && Heads(t, n, hd) && Heads(r, n, hd') && |mem| == |mem'| == n && i < n
    requires r[i].tag == t[i].tag && (t[i].tag == PAGE || r[i].slab == t[i].slab)
    requires mem'[i] == mem[i]
    requires BusyLen(r, n, NULL, hd', i) == BusyLen(t, n, NULL, hd, i)
    ensures BlockAt(ps, start, r, mem', n, hd', i, c) == BlockAt(ps, start, t, mem, n, hd, i, c)
  {
  }

  /** Block c of page x, when the page is cut into chunks of 1 << s bytes. */
  ghost function SizedBlock(ps: nat, start: int, s: nat, x: int, c: nat): Block {
    Block(start + x * Pow2(ps) + c * Pow2(s), Pow2(s))
  }

  /** The block of chunk c of slab page x, live or not. */
  ghost function ChunkBlock(ps: nat, start: int, p: Page, x: int, c: nat): Block
    requires PageShift(ps)
  {
    SizedBlock(ps, start, ShiftOf(ps, p), x, c)
  }

  /** Slab pages were relinked and page x rewritten; runs did not change. */
  ghost predicate Rewritten(t: seq<Page>, mem: seq<seq<nat>>, r: seq<Page>, mem': seq<seq<nat>>, n: nat, x: int) {
    && |r| == |t| && n < |t| && |mem| == |mem'| == n && 0 <= x < n
    && t[x].tag != PAGE && r[x].tag == t[x].tag && r[n] == t[n]
    && (forall j | 0 <= j < n && t[j].tag == PAGE :: r[j] == t[j])
    && (forall j | 0 <= j < n && j != x && t[j].tag != PAGE :: SameSlab(t, r, j))
    && (forall j | 0 <= j < n && j != x :: mem'[j] == mem[j])
  }

  lemma RewrittenOk(ps: nat, start: int, t: seq<Page>, mem: seq<seq<nat>>, r: seq<Page>, mem': seq<seq<nat>>,
                    n: nat, hd: seq<int>, fl: seq<int>, x: nat)
    requires PageShift(ps) && RunsOk(t, n, NULL, hd, fl) && Rewritten(t, mem, r, mem', n, x)
    ensures RunsOk(r, n, NULL, hd, fl)
    ensures forall i: nat, c: nat | i < n && i != x ::
      BlockAt(ps, start, r, mem', n, hd, i, c) == BlockAt(ps, start, t, mem, n, hd, i, c)
  {
    AlikeOk(t, r, n, NULL, hd, fl);
    forall i: nat, c: nat | i < n && i != x
      ensures BlockAt(ps, start, r, mem', n, hd, i, c) == BlockAt(ps, start, t, mem, n, hd, i, c)
    {
      if t[i].tag != PAGE { assert SameSlab(t, r, i); }
      BlockKept(ps, start, t, mem, hd, r, mem', hd, n, i, c);
    }
  }

  /** All blocks are as before, except the one at (x, c). */
  ghost predicate OnlyAt(ps: nat, start: int, t: seq<Page>, mem: seq<seq<nat>>, hd: seq<int>,
                         r: seq<Page>, mem': seq<seq<nat>>, hd': seq<int>, n: nat, x: int, c: nat)
    requires PageShift(ps) && Heads(t, n, hd) && Heads(r, n, hd') && |mem| == |mem'| == n
  {
    forall i: nat, d: nat | i < n && !(i == x && d == c) ::
      BlockAt(ps, start, r, mem', n, hd', i, d) == BlockAt(ps, start, t, mem, n, hd, i, d)
  }

  /** The block with address p, if there is one, is gone; all others are as before. */
  ghost predicate OnlyGone(ps: nat, start: int, t: seq<Page>, mem: seq<seq<nat>>, hd: seq<int>,
                           r: seq<Page>, mem': seq<seq<nat>>, hd': seq<int>, n: nat, p: int)
    requires PageShift(ps) && Heads(t, n, hd) && Heads(r, n, hd') && |mem| == |mem'| == n
  {
    forall i: nat, d: nat | i < n ::
      BlockAt(ps, start, r, mem', n, hd', i, d) ==
        if HasAddr(BlockAt(ps, start, t, mem, n, hd, i, d), p) then None else BlockAt(ps, start, t, mem, n, hd, i, d)
  }

  ghost predicate HasAddr(b: Option<Block>, p: int) {
    b.Some? && b.value.addr == p
  }

  /** A page whose chunks lie as before has the blocks of its used chunks. */
  lemma RelaidBlock(ps: nat, start: int, t: seq<Page>, mem: seq<seq<nat>>, r: seq<Page>, mem': seq<seq<nat>>,
                    n: nat, hd: seq<int>, x: nat, d: nat)
    requires PageShift(ps) && Heads(t, n, hd) && Heads(r, n, hd) && |mem| == |mem'| == n && x < n
    requires t[x].tag != PAGE && r[x].tag == t[x].tag && ShiftOf(ps, r[x]) == ShiftOf(ps, t[x]) <= ps
    ensures Used(ps, r[x], mem'[x], d) == Used(ps, t[x], mem[x], d) ==>
      BlockAt(ps, start, r, mem', n, hd, x, d) == BlockAt(ps, start, t, mem, n, hd, x, d)
    ensures FirstChunk(ps, t[x]) <= d < Chunks(ps, ShiftOf(ps, t[x])) ==>
      BlockAt(ps, start, r, mem', n, hd, x, d) ==
        if Used(ps, r[x], mem'[x], d) then Some(ChunkBlock(ps, start, t[x], x, d)) else None
  {
  }

  /** Chunk d of page x after chunk c of it was marked. */
  lemma MarkedBlock(ps: nat, start: int, t: seq<Page>, mem: seq<seq<nat>>, r: seq<Page>, mem': seq<seq<nat>>,
                    n: nat, hd: seq<int>, x: nat, c: nat, on: bool, d: nat)
    requires PageShift(ps) && Heads(t, n, hd) && Heads(r, n, hd) && |mem| == |mem'| == n && x < n
    requires t[x].tag != PAGE && r[x].tag == t[x].tag
    requires Laid(ps, t[x], mem[x]) && FirstChunk(ps, t[x]) <= c < Chunks(ps, ShiftOf(ps, t[x]))
    requires t[x].tag == SMALL ==> c / WORD_BITS < |mem[x]|
    requires r[x].slab == MarkedPage(t[x], c, on).slab && mem'[x] == MarkedWords(t[x], mem[x], c, on)
    ensures BlockAt(ps, start, r, mem', n, hd, x, d) ==
      if d != c then BlockAt(ps, start, t, mem, n, hd, x, d)
      else if on then Some(ChunkBlock(ps, start, t[x], x, c)) else None
  {
    assert Used(ps, r[x], mem'[x], d) == if d == c then on else Used(ps, t[x], mem[x], d) by {
      MarkedUsed(ps, t[x], mem[x], c, on, d);
    }
    assert ShiftOf(ps, r[x]) == ShiftOf(ps, t[x]) <= ps by {
      MarkedLaid(ps, t[x], mem[x], c, on);
    }
    RelaidBlock(ps, start, t, mem, r, mem', n, hd, x, d);
  }

  /** Page x after chunk c was marked: that chunk's block changed, the others did not. */
  lemma MarkedBlocks(ps: nat, start: int, t: seq<Page>, mem: seq<seq<nat>>, r: seq<Page>, mem': seq<seq<nat>>,
                     n: nat, hd: seq<int>, fl: seq<int>, x: nat, c: nat, on: bool)
    requires PageShift(ps) && RunsOk(t, n, NULL, hd, fl) && Rewritten(t, mem, r, mem', n, x)
    requires Laid(ps, t[x], mem[x]) && FirstChunk(ps, t[x]) <= c < Chunks(ps, ShiftOf(ps, t[x]))
    requires t[x].tag == SMALL ==> c / WORD_BITS < |mem[x]|
    requires r[x].slab == MarkedPage(t[x], c, on).slab && mem'[x] == MarkedWords(t[x], mem[x], c, on)
    ensures RunsOk(r, n, NULL, hd, fl)
    ensures OnlyAt(ps, start, t, mem, hd, r, mem', hd, n, x, c)
    ensures BlockAt(ps, start, r, mem', n, hd, x, c) == if on then Some(ChunkBlock(ps, start, t[x], x, c)) else None
  {
    RewrittenOk(ps, start, t, mem, r, mem', n, hd, fl, x);
    MarkedBlock(ps, start, t, mem, r, mem', n, hd, x, c, on, c);
    forall i: nat, d: nat | i < n && !(i == x && d == c)
      ensures BlockAt(ps, start, r, mem', n, hd, i, d) == BlockAt(ps, start, t, mem, n, hd, i, d)
    {
      if i == x { MarkedBlock(ps, start, t, mem, r, mem', n, hd, x, c, on, d); }
    }
  }

  // ------------------------------------------------------------ taking a chunk

  /** Chunk c of page x, the first of slot k, was taken; a page without a free chunk left the list. */
  ghost predicate Took(ps: nat, t: seq<Page>, mem: seq<seq<nat>>, sl: seq<seq<int>>, k: nat, x: int, c: nat,
                       r: seq<Page>, mem': seq<seq<nat>>, sl': seq<seq<int>>)
    requires PageShift(ps) && 0 <= x < |t| && x < |mem| && k < |sl| && |sl[k]| > 0
    requires t[x].tag == SMALL ==> c / WORD_BITS < |mem[x]|
    requires 0 <= t[x].prev < |t| && 0 <= t[x].next < |t| && t[x].prev != x && ShiftOf(ps, t[x]) <= ps
    requires ShiftOf(ps, MarkedPage(t[x], c, true)) <= ps
  {
    var q, v := MarkedPage(t[x], c, true), MarkedWords(t[x], mem[x], c, true);
    && mem' == mem[x := v]
    && (if SomeFree(ps, q, v) then r == t[x := q] && sl' == sl
        else r == Filled(t, x, q) && sl' == sl[k := sl[k][1..]])
  }

  lemma FirstOfSlot(ps: nat, t: seq<Page>, mem: seq<seq<nat>>, n: nat, sl: seq<seq<int>>, k: nat)
    requires SlabsOk(ps, t, mem, n, sl) && k < |sl| && |sl[k]| > 0
    ensures var x := sl[k][0];
            && 0 <= x < n && t[n+1+k].next == x && x in sl[k]
            && 0 <= t[x].prev < |t| && 0 <= t[x].next < |t| && t[x].prev != x && t[x].next != x
            && t[x].tag == TagOf(ps, MIN_SHIFT + k) && ShiftOf(ps, t[x]) == MIN_SHIFT + k
            && Laid(ps, t[x], mem[x]) && SomeFree(ps, t[x], mem[x])
  {
    assert SlotOk(ps, t, n, sl[k], k);
    SlotTag(ps, t, mem, n, sl, k, 0);
    LinkFacts(t, n, n + 1 + k, sl[k], 0);
    assert PageChunksOk(ps, t, mem, sl[k][0]);
  }

  lemma TookOk(ps: nat, start: int, t: seq<Page>, mem: seq<seq<nat>>, n: nat, hd: seq<int>, fl: seq<int>,
               sl: seq<seq<int>>,
               k: nat, x: nat, c: nat, r: seq<Page>, mem': seq<seq<nat>>, sl': seq<seq<int>>)
    requires StateOk(ps, t, mem, n, hd, fl, sl) && k < |sl| && |sl[k]| > 0 && x == sl[k][0]
    requires x < n && ShiftOf(ps, t[x]) <= ps && c < Chunks(ps, ShiftOf(ps, t[x])) && !Used(ps, t[x], mem[x], c)
    requires t[x].tag == SMALL ==> c / WORD_BITS < |mem[x]|
    requires 0 <= t[x].prev < |t| && 0 <= t[x].next < |t| && t[x].prev != x
    requires ShiftOf(ps, MarkedPage(t[x], c, true)) <= ps
    requires Took(ps, t, mem, sl, k, x, c, r, mem', sl')
    ensures StateOk(ps, r, mem', n, hd, fl, sl')
    ensures OnlyAt(ps, start, t, mem, hd, r, mem', hd, n, x, c)
    ensures BlockAt(ps, start, t, mem, n, hd, x, c) == None
    ensures BlockAt(ps, start, r, mem', n, hd, x, c) == Some(SizedBlock(ps, start, MIN_SHIFT + k, x, c))
  {
    FirstOfSlot(ps, t, mem, n, sl, k);
    assert FirstChunk(ps, t[x]) <= c;
    TookSlabs(ps, t, mem, n, sl, k, x, c, r, mem', sl');
    MarkedBlocks(ps, start, t, mem, r, mem', n, hd, fl, x, c, true);
  }

  lemma TookSlabs(ps: nat, t: seq<Page>, mem: seq<seq<nat>>, n: nat, sl: seq<seq<int>>,
                  k: nat, x: nat, c: nat, r: seq<Page>, mem': seq<seq<nat>>, sl': seq<seq<int>>)
    requires SlabsOk(ps, t, mem, n, sl) && k < |sl| && |sl[k]| > 0 && x == sl[k][0] && x < n < |t|
    requires ShiftOf(ps, t[x]) <= ps && FirstChunk(ps, t[x]) <= c < Chunks(ps, ShiftOf(ps, t[x]))
    requires t[x].tag == SMALL ==> c / WORD_BITS < |mem[x]|
    requires 0 <= t[x].prev < |t| && 0 <= t[x].next < |t| && t[x].prev != x
    requires ShiftOf(ps, MarkedPage(t[x], c, true)) <= ps
    requires Took(ps, t, mem, sl, k, x, c, r, mem', sl')
    ensures SlabsOk(ps, r, mem', n, sl') && Rewritten(t, mem, r, mem', n, x)
    ensures r[x].slab == MarkedPage(t[x], c, true).slab
  {
    hide Used, Laid;
    FirstOfSlot(ps, t, mem, n, sl, k);
    var p, w := t[x], mem[x];
    MarkedLaid(ps, p, w, c, true);
    var q, v := MarkedPage(p, c, true), MarkedWords(p, w, c, true);
    MarkedUsed(ps, p, w, c, true, c);
    UsedChunk(ps, q, v, c);
    if SomeFree(ps, q, v) {
      StayListed(ps, t, mem, n, sl, k, x, q, v);
    } else {
      LeaveList(ps, t, mem, n, sl, k, 0, x, q, v);
      FilledSame(ps, t, mem, n, sl, k, 0, x, q);
      FilledRuns(ps, t, mem, n, sl, k, x, q);
      assert sl[k][..0] + sl[k][1..] == sl[k][1..];
    }
  }

  lemma FilledRuns(ps: nat, t: seq<Page>, mem: seq<seq<nat>>, n: nat, sl: seq<seq<int>>, k: nat, x: nat, q: Page)
    requires SlabsOk(ps, t, mem, n, sl) && k < |sl| && |sl[k]| > 0 && x == sl[k][0] && x < n
    requires q.next == t[x].next && q.prev == t[x].prev && q.tag == t[x].tag
    requires 0 <= q.prev < |t| && 0 <= q.next < |t| && q.prev != x
    ensures Filled(t, x, q)[n] == t[n]
    ensures forall j | 0 <= j < n && t[j].tag == PAGE :: Filled(t, x, q)[j] == t[j]
  {
    SlotNeighbours(ps, t, mem, n, sl, k, 0);
    SlotTag(ps, t, mem, n, sl, k, 0);
  }

  // ------------------------------------------------------------ giving a chunk back

  /** A page has room for two chunks or more. */
  lemma TwoChunks(ps: nat, p: Page, w: seq<nat>)
    requires PageShift(ps) && Laid(ps, p, w) && p.tag != PAGE
    ensures FirstChunk(ps, p) + 2 <= Chunks(ps, ShiftOf(ps, p))
  {
    var s := ShiftOf(ps, p);
    if p.tag == SMALL { SmallGeometry(ps, s); }
    else if p.tag == EXACT { ExactChunks(ps); }
    else { BigGeometry(ps, s); }
  }

  /** A full page that loses one chunk still has another in use. */
  lemma FullLosesOne(ps: nat, p: Page, w: seq<nat>, c: nat)
    requires PageShift(ps) && Laid(ps, p, w) && p.tag != PAGE && !SomeFree(ps, p, w)
    requires FirstChunk(ps, p) <= c < Chunks(ps, ShiftOf(ps, p))
    requires p.tag == SMALL ==> c / WORD_BITS < |w|
    ensures ShiftOf(ps, MarkedPage(p, c, false)) <= ps
    ensures SomeUsed(ps, MarkedPage(p, c, false), MarkedWords(p, w, c, false))
  {
    MarkedLaid(ps, p, w, c, false);
    TwoChunks(ps, p, w);
    var d := if c == FirstChunk(ps, p) then c + 1 else c - 1;
    if !Used(ps, p, w, d) { FreeChunk(ps, p, w, d); }
    MarkedUsed(ps, p, w, c, false, d);
    UsedChunk(ps, MarkedPage(p, c, false), MarkedWords(p, w, c, false), d);
  }

  /** What a slab page in use tells of itself. */
  lemma SlabPageFacts(ps: nat, t: seq<Page>, mem: seq<seq<nat>>, n: nat, sl: seq<seq<int>>, x: nat)
    requires SlabsOk(ps, t, mem, n, sl) && x < n && t[x].tag != PAGE
    ensures Laid(ps, t[x], mem[x]) && SomeUsed(ps, t[x], mem[x])
    ensures t[x].next != NULL <==> SomeFree(ps, t[x], mem[x])
    ensures MIN_SHIFT <= ShiftOf(ps, t[x]) < ps && t[x].tag == TagOf(ps, ShiftOf(ps, t[x]))
    ensures t[x].next != NULL ==> x in sl[ShiftOf(ps, t[x]) - MIN_SHIFT]
  {
    assert PageChunksOk(ps, t, mem, x);
    var k := ShiftOf(ps, t[x]) - MIN_SHIFT;
    assert SlotOk(ps, t, n, sl[k], k);
  }

  lemma ChunkInWords(ps: nat, p: Page, w: seq<nat>, c: nat)
    requires PageShift(ps) && Laid(ps, p, w) && c < Chunks(ps, ShiftOf(ps, p))
    ensures p.tag == SMALL ==> c / WORD_BITS < |w|
  {
    if p.tag == SMALL { SmallGeometry(ps, ShiftOf(ps, p)); }
  }

  /** Case 1: the page was full, and goes back on its list. */
  lemma GaveFull(ps: nat, start: int, t: seq<Page>, mem: seq<seq<nat>>, n: nat, hd: seq<int>, fl: seq<int>,
                 sl: seq<seq<int>>,
                 k: nat, x: nat, c: nat)
    requires StateOk(ps, t, mem, n, hd, fl, sl) && x < n && t[x].tag != PAGE && t[x].next == NULL
    requires ShiftOf(ps, t[x]) == MIN_SHIFT + k && k < |sl| && MIN_SHIFT + k <= ps
    requires FirstChunk(ps, t[x]) <= c < Chunks(ps, ShiftOf(ps, t[x]))
    requires t[x].tag == SMALL ==> c / WORD_BITS < |mem[x]|
    ensures 0 <= t[n+1+k].next < |t|
    ensures var q, v := MarkedPage(t[x], c, false), MarkedWords(t[x], mem[x], c, false);
            var r, mem', sl' := Pushed(t[x := q], n + 1 + k, x, q.tag), mem[x := v], sl[k := [x] + sl[k]];
            && StateOk(ps, r, mem', n, hd, fl, sl')
            && OnlyAt(ps, start, t, mem, hd, r, mem', hd, n, x, c)
            && BlockAt(ps, start, r, mem', n, hd, x, c) == None
  {
    hide Laid, SomeFree, SomeUsed, Used, FirstChunk;
    SlabPageFacts(ps, t, mem, n, sl, x);
    var p, w := t[x], mem[x];
    FullLosesOne(ps, p, w, c);
    MarkedLaid(ps, p, w, c, false);
    var q, v := MarkedPage(p, c, false), MarkedWords(p, w, c, false);
    MarkedUsed(ps, p, w, c, false, c);
    FreeChunk(ps, q, v, c);
    JoinList(ps, t, mem, n, sl, k, x, q, v);
    PushedRuns(ps, t, mem, n, sl, k, x, q);
    MarkedBlocks(ps, start, t, mem, Pushed(t[x := q], n + 1 + k, x, q.tag), mem[x := v], n, hd, fl, x, c, false);
  }

  lemma PushedRuns(ps: nat, t: seq<Page>, mem: seq<seq<nat>>, n: nat, sl: seq<seq<int>>, k: nat, x: nat, q: Page)
    requires SlabsOk(ps, t, mem, n, sl) && k < |sl| && x < n && t[x].tag != PAGE && t[x].next == NULL
    requires q.tag == t[x].tag && q.tag == TagOf(ps, MIN_SHIFT + k) && 0 <= t[n+1+k].next < |t|
    ensures var r := Pushed(t[x := q], n + 1 + k, x, q.tag);
            && r[n] == t[n] && r[x].tag == q.tag && r[x].slab == q.slab
            && (forall j | 0 <= j < n && t[j].tag == PAGE :: r[j] == t[j])
            && (forall j | 0 <= j < n && j != x :: SameSlab(t, r, j))
  {
    assert SlotOk(ps, t, n, sl[k], k);
    assert x !in sl[k];
    assert t[n+1+k].next == At(sl[k], n + 1 + k, 0);
    if |sl[k]| > 0 { SlotTag(ps, t, mem, n, sl, k, 0); assert sl[k][0] in sl[k]; }
  }

  /** Case 2: the page was partly used, and still is. */
  lemma GavePart(ps: nat, start: int, t: seq<Page>, mem: seq<seq<nat>>, n: nat, hd: seq<int>, fl: seq<int>,
                 sl: seq<seq<int>>,
                 x: nat, c: nat)
    requires StateOk(ps, t, mem, n, hd, fl, sl) && x < n && t[x].tag != PAGE && t[x].next != NULL
    requires ShiftOf(ps, t[x]) <= ps && FirstChunk(ps, t[x]) <= c < Chunks(ps, ShiftOf(ps, t[x]))
    requires t[x].tag == SMALL ==> c / WORD_BITS < |mem[x]|
    requires var q, v := MarkedPage(t[x], c, false), MarkedWords(t[x], mem[x], c, false);
             ShiftOf(ps, q) <= ps && SomeUsed(ps, q, v)
    ensures var r, mem' := t[x := MarkedPage(t[x], c, false)], mem[x := MarkedWords(t[x], mem[x], c, false)];
            && StateOk(ps, r, mem', n, hd, fl, sl)
            && OnlyAt(ps, start, t, mem, hd, r, mem', hd, n, x, c)
            && BlockAt(ps, start, r, mem', n, hd, x, c) == None
  {
    SlabPageFacts(ps, t, mem, n, sl, x);
    var p, w := t[x], mem[x];
    MarkedLaid(ps, p, w, c, false);
    var q, v := MarkedPage(p, c, false), MarkedWords(p, w, c, false);
    MarkedUsed(ps, p, w, c, false, c);
    FreeChunk(ps, q, v, c);
    StayListed(ps, t, mem, n, sl, ShiftOf(ps, p) - MIN_SHIFT, x, q, v);
    MarkedBlocks(ps, start, t, mem, t[x := q], mem[x := v], n, hd, fl, x, c, false);
  }

  /** Case 3: the page has no chunk in use any more, and was handed back as a free page. */
  lemma GaveLast(ps: nat, start: int, t: seq<Page>, mem: seq<seq<nat>>, n: nat, hd: seq<int>, fl: seq<int>,
                 sl: seq<seq<int>>,
                 k: nat, i: nat, x: nat, c: nat, r: seq<Page>, hd': seq<int>, fl': seq<int>)
    requires StateOk(ps, t, mem, n, hd, fl, sl) && x < n && t[x].tag != PAGE && t[x].next != NULL
    requires k < |sl| && i < |sl[k]| && sl[k][i] == x
    requires ShiftOf(ps, t[x]) <= ps && FirstChunk(ps, t[x]) <= c < Chunks(ps, ShiftOf(ps, t[x]))
    requires t[x].tag == SMALL ==> c / WORD_BITS < |mem[x]|
    requires var q, v := MarkedPage(t[x], c, false), MarkedWords(t[x], mem[x], c, false);
             && ShiftOf(ps, q) <= ps && !SomeUsed(ps, q, v)
             && 0 <= q.prev < |t| && 0 <= q.next < |t| && q.prev != x
             && Released(t[x := q], hd, r, hd', n, x, 1) && RunsOk(r, n, NULL, hd', fl')
    ensures var mem' := mem[x := MarkedWords(t[x], mem[x], c, false)];
            && StateOk(ps, r, mem', n, hd', fl', sl[k := sl[k][..i] + sl[k][i+1..]])
            && OnlyAt(ps, start, t, mem, hd, r, mem', hd', n, x, c)
            && BlockAt(ps, start, r, mem', n, hd', x, c) == None
  {
    hide Laid, SomeFree, SomeUsed, Used, MarkedWords, PageChunksOk, SlotOk, Unlinked;
    SlabPageFacts(ps, t, mem, n, sl, x);
    var p, w := t[x], mem[x];
    var q, v := MarkedPage(p, c, false), MarkedWords(p, w, c, false);
    DropPage(ps, t, mem, r, n, sl, k, i, x, q, v);
    FilledSame(ps, t, mem, n, sl, k, i, x, q);
    var mem' := mem[x := v];
    assert BusyLen(r, n, NULL, hd', x) == 0;
    forall j: nat, d: nat | j < n && !(j == x && d == c)
      ensures BlockAt(ps, start, r, mem', n, hd', j, d) == BlockAt(ps, start, t, mem, n, hd, j, d)
    {
      if j != x {
        var u := Unlinked(t[x := q], x);
        assert SameSlab(t, Filled(t, x, q), j) && u[j] == Filled(t, x, q)[j];
        assert BusyLen(r, n, NULL, hd', j) == BusyLen(t[x := q], n, NULL, hd, j);
        BlockKept(ps, start, t, mem, hd, r, mem', hd', n, j, d);
      } else {
        MarkedUsed(ps, p, w, c, false, d);
        MarkedLaid(ps, p, w, c, false);
        if FirstChunk(ps, q) <= d < Chunks(ps, ShiftOf(ps, q)) && Used(ps, q, v, d) { UsedChunk(ps, q, v, d); }
      }
    }
  }

  // ------------------------------------------------------------ page runs and new slab pages

  lemma AllottedOk(ps: nat, start: int, t: seq<Page>, mem: seq<seq<nat>>, n: nat, hd: seq<int>, fl: seq<int>,
                   sl: seq<seq<int>>,
                   page: int, k: nat, r: seq<Page>, hd': seq<int>, fl': seq<int>)
    requires StateOk(ps, t, mem, n, hd, fl, sl) && Allotted(t, hd, r, hd', n, page, k) && k >= 1
    requires RunsOk(r, n, NULL, hd', fl')
    ensures StateOk(ps, r, mem, n, hd', fl', sl) && 0 <= page < n
    ensures OnlyAt(ps, start, t, mem, hd, r, mem, hd', n, page, 0)
    ensures forall d: nat :: BlockAt(ps, start, t, mem, n, hd, page, d) == None
    ensures BlockAt(ps, start, r, mem, n, hd', page, 0) == Some(Block(start + page * Pow2(ps), k * Pow2(ps)))
    ensures r[page] == Page(PAGE_START + k, NULL, NULL, PAGE) && hd'[page] == page && t[page].tag == PAGE
  {
    KeptOk(ps, t, mem, r, n, sl);
    assert PageFree(t, n, NULL, hd, page) && BusyLen(r, n, NULL, hd', page) == k;
    assert PageOk(t, n, NULL, hd, page) && PageOk(r, n, NULL, hd', page);
    forall j: nat, d: nat | j < n && !(j == page && d == 0)
      ensures BlockAt(ps, start, r, mem, n, hd', j, d) == BlockAt(ps, start, t, mem, n, hd, j, d)
    {
      if j != page { BlockKept(ps, start, t, mem, hd, r, mem, hd', n, j, d); }
    }
  }

  lemma ReleasedOk(ps: nat, start: int, t: seq<Page>, mem: seq<seq<nat>>, n: nat, hd: seq<int>, fl: seq<int>,
                   sl: seq<seq<int>>,
                   page: nat, k: nat, r: seq<Page>, hd': seq<int>, fl': seq<int>)
    requires StateOk(ps, t, mem, n, hd, fl, sl) && page < n && t[page].tag == PAGE && t[page].next == NULL
    requires Released(t, hd, r, hd', n, page, k) && RunsOk(r, n, NULL, hd', fl')
    ensures StateOk(ps, r, mem, n, hd', fl', sl)
    ensures OnlyAt(ps, start, t, mem, hd, r, mem, hd', n, page, 0)
    ensures BlockAt(ps, start, r, mem, n, hd', page, 0) == None
  {
    KeptOk(ps, t, mem, r, n, sl);
    forall j: nat, d: nat | j < n && !(j == page && d == 0)
      ensures BlockAt(ps, start, r, mem, n, hd', j, d) == BlockAt(ps, start, t, mem, n, hd, j, d)
    {
      if j != page { BlockKept(ps, start, t, mem, hd, r, mem, hd', n, j, d); }
    }
  }

  /** A run that was free already and was freed again: no block came or went. */
  lemma RelistedOk(ps: nat, start: int, t: seq<Page>, mem: seq<seq<nat>>, n: nat, hd: seq<int>, fl: seq<int>,
                   sl: seq<seq<int>>,
                   i: nat, r: seq<Page>, hd': seq<int>, fl': seq<int>)
    requires StateOk(ps, t, mem, n, hd, fl, sl) && i < |fl| && 0 <= fl[i] < n && t[fl[i]].slab >= 1
             && t[fl[i]].next != NULL
    requires 0 <= t[fl[i]].prev < |t| && 0 <= t[fl[i]].next < |t| && t[fl[i]].prev != fl[i]
    requires Released(t, hd, r, hd', n, fl[i], t[fl[i]].slab) && RunsOk(r, n, NULL, hd', fl')
    ensures StateOk(ps, r, mem, n, hd', fl', sl)
    ensures forall j: nat, d: nat | j < n ::
      BlockAt(ps, start, r, mem, n, hd', j, d) == BlockAt(ps, start, t, mem, n, hd, j, d)
  {
    var h := fl[i];
    ListedFacts(t, n, NULL, hd, fl, i);
    UnlinkKept(t, n, NULL, hd, fl, i);
    assert SlabsKept(t, r, n, NULL);
    KeptOk(ps, t, mem, r, n, sl);
    assert BusyLen(t, n, NULL, hd, h) == 0;
    forall j: nat, d: nat | j < n
      ensures BlockAt(ps, start, r, mem, n, hd', j, d) == BlockAt(ps, start, t, mem, n, hd, j, d)
    {
      BlockKept(ps, start, t, mem, hd, r, mem, hd', n, j, d);
    }
  }

  /** Some run heads, free list and slot lists make the tables a sound state. */
  ghost predicate Sound(ps: nat, t: seq<Page>, mem: seq<seq<nat>>, n: nat) {
    exists hd, fl, sl :: StateOk(ps, t, mem, n, hd, fl, sl)
  }

  /** Giving back a chunk that a bitmap itself takes up leaves tables that no lists make sound. */
  lemma OwnGiven(ps: nat, t: seq<Page>, mem: seq<seq<nat>>, n: nat, hd: seq<int>, fl: seq<int>, sl: seq<seq<int>>,
                 k: nat, x: nat, c: nat, r: seq<Page>, mem': seq<seq<nat>>)
    requires StateOk(ps, t, mem, n, hd, fl, sl) && k < |sl| && x < n && t[x].tag == SMALL
    requires ShiftOf(ps, t[x]) <= ps && c < FirstChunk(ps, t[x]) && c / WORD_BITS < |mem[x]|
    requires Giving(ps, t, mem, n, k, x, c, r, mem')
    ensures !Sound(ps, r, mem', n)
  {
    SlabPageFacts(ps, t, mem, n, sl, x);
    OwnMarked(ps, t[x], mem[x], c);
    if t[x].next == NULL { SlotOfFull(ps, t, mem, n, sl, k, x); }
    if Sound(ps, r, mem', n) {
      var hd', fl', sl' :| StateOk(ps, r, mem', n, hd', fl', sl');
      SlabPageFacts(ps, r, mem', n, sl', x);
      SameLaid(ps, r[x], t[x], mem'[x]);
    }
  }

  /** The descriptor of a new slab page with chunks of 1 << s bytes, its first chunk taken. */
  function StartPage(ps: nat, s: nat, node: int): Page
    requires PageShift(ps)
  {
    Page(if s < ExactShift(ps) then s else if s == ExactShift(ps) then 1 else Join(1, s, MAP_SHIFT),
         node, node, TagOf(ps, s))
  }

  /** The bitmap of a new small-chunk page: its own chunks and one more, `(2 << n) - 1`. */
  function StartWords(ps: nat, s: nat): seq<nat>
    requires s <= ps
  {
    seq(MapWords(ps, s), m => if m == 0 then Pow2(MapChunks(ps, s) + 1) - 1 else 0)
  }

  /** The page of a new slab page is well laid out, and exactly its first chunk is in use. */
  ghost predicate WellStarted(ps: nat, s: nat, q: Page, w: seq<nat>)
    requires PageShift(ps) && s < ps
  {
    && ShiftOf(ps, q) == s && Laid(ps, q, w) && SomeUsed(ps, q, w) && SomeFree(ps, q, w)
    && (forall c: nat | FirstChunk(ps, q) <= c < Chunks(ps, s) :: Used(ps, q, w, c) <==> c == FirstChunk(ps, q))
  }

  lemma StartLaid(ps: nat, s: nat, node: int, w: seq<nat>)
    requires PageShift(ps) && MIN_SHIFT <= s < ps
    requires s < ExactShift(ps) ==> w == StartWords(ps, s)
    ensures WellStarted(ps, s, StartPage(ps, s, node), w)
  {
    if s < ExactShift(ps) { StartSmall(ps, s, node); }
    else if s == ExactShift(ps) { StartExact(ps, node, w); }
    else { StartBig(ps, s, node, w); }
  }

  lemma StartExact(ps: nat, node: int, w: seq<nat>)
    requires PageShift(ps)
    ensures WellStarted(ps, ExactShift(ps), StartPage(ps, ExactShift(ps), node), w)
  {
    var q := StartPage(ps, ExactShift(ps), node);
    ExactChunks(ps);
    assert q.slab == Pow2(1) - 1;
    forall c: nat ensures Used(ps, q, w, c) <==> c < 1 { MaskBits(1, c); }
    UsedChunk(ps, q, w, 0);
    FreeChunk(ps, q, w, 1);
  }

  lemma StartBig(ps: nat, s: nat, node: int, w: seq<nat>)
    requires PageShift(ps) && ExactShift(ps) < s < ps
    ensures WellStarted(ps, s, StartPage(ps, s, node), w)
  {
    var q := StartPage(ps, s, node);
    BigGeometry(ps, s);
    Pow2Mono(4, MAP_SHIFT);
    assert Pow2(4) == 16;
    JoinParts(1, s, MAP_SHIFT);
    LowLow(q.slab);
    forall c: nat ensures Used(ps, q, w, c) <==> c < 1 {
      HighBits(q.slab, MAP_SHIFT, c);
      assert High(q.slab, MAP_SHIFT) == Pow2(1) - 1;
      MaskBits(1, c);
    }
    UsedChunk(ps, q, w, 0);
    FreeChunk(ps, q, w, 1);
  }

  lemma StartBit(ps: nat, s: nat, node: int, c: nat)
    requires PageShift(ps) && MIN_SHIFT <= s < ExactShift(ps) && c < MapWords(ps, s) * WORD_BITS
    requires MapChunks(ps, s) <= 30
    ensures Used(ps, StartPage(ps, s, node), StartWords(ps, s), c) <==> c <= MapChunks(ps, s)
  {
    FirstBits(StartWords(ps, s), MapChunks(ps, s), c);
  }

  lemma FirstBits(w: seq<nat>, n: nat, c: nat)
    requires |w| > 0 && w[0] == Pow2(n + 1) - 1 && n < WORD_BITS - 1 && c / WORD_BITS < |w|
    requires forall m | 1 <= m < |w| :: w[m] == 0
    ensures Bit(w[c / WORD_BITS], c % WORD_BITS) <==> c <= n
  {
    if c < WORD_BITS { MaskBits(n + 1, c); } else { NoBits(c % WORD_BITS); }
  }

  lemma StartSmallLaid(ps: nat, s: nat, node: int)
    requires PageShift(ps) && MIN_SHIFT <= s < ExactShift(ps)
    ensures var q, w := StartPage(ps, s, node), StartWords(ps, s); ShiftOf(ps, q) == s && Laid(ps, q, w)
  {
    var q, w := StartPage(ps, s, node), StartWords(ps, s);
    SmallGeometry(ps, s);
    LowId(s, 4) by { assert Pow2(4) == 16; }
    var n := MapChunks(ps, s);
    Pow2Mono(n + 1, WORD_BITS);
    forall c: nat | c < n ensures Used(ps, q, w, c) { StartBit(ps, s, node, c); }
  }

  lemma StartSmall(ps: nat, s: nat, node: int)
    requires PageShift(ps) && MIN_SHIFT <= s < ExactShift(ps)
    ensures WellStarted(ps, s, StartPage(ps, s, node), StartWords(ps, s))
  {
    var q, w := StartPage(ps, s, node), StartWords(ps, s);
    StartSmallLaid(ps, s, node);
    SmallGeometry(ps, s);
    var n := MapChunks(ps, s);
    forall c: nat | c < Chunks(ps, s) ensures Used(ps, q, w, c) <==> c <= n { StartBit(ps, s, node, c); }
    UsedChunk(ps, q, w, n);
    FreeChunk(ps, q, w, n + 1);
  }

  /** A busy run of one page becomes a slab page: the runs stand as they were. */
  lemma RetagOk(t: seq<Page>, r: seq<Page>, n: nat, hd: seq<int>, fl: seq<int>, x: nat)
    requires RunsOk(t, n, NULL, hd, fl) && x < n && |r| == |t| && n < |t|
    requires hd[x] == x && t[x] == Page(PAGE_START + 1, NULL, NULL, PAGE) && r[x].tag != PAGE && r[n] == t[n]
    requires forall j | 0 <= j < n && j != x :: r[j] == t[j]
    ensures RunsOk(r, n, NULL, hd, fl)
    ensures forall i | 0 <= i < n :: BusyLen(r, n, NULL, hd, i) == if i == x then 0 else BusyLen(t, n, NULL, hd, i)
  {
    forall i | 0 <= i < n ensures RunAt(r, n, NULL, hd, i) && PageOk(r, n, NULL, hd, i) {
      assert RunAt(t, n, NULL, hd, i) && PageOk(t, n, NULL, hd, i);
      if hd[i] == x { assert i == x; }
    }
    forall k | 0 <= k < |fl| ensures r[fl[k]] == t[fl[k]] { ListedFacts(t, n, NULL, hd, fl, k); }
    ChainFrame(t, r, n, n, fl);
  }

  /** The edits that turn the busy page x into the only slab page of slot k. */
  function Started(ps: nat, t: seq<Page>, n: nat, k: nat, x: int): (r: seq<Page>)
    requires PageShift(ps) && 0 <= x < |t| && n + 1 + k < |t|
    ensures |r| == |t|
  {
    t[x := StartPage(ps, MIN_SHIFT + k, n + 1 + k)][n+1+k := t[n+1+k].(next := x)]
  }

  lemma StartedOk(ps: nat, t: seq<Page>, mem: seq<seq<nat>>, n: nat, hd: seq<int>, fl: seq<int>, sl: seq<seq<int>>,
                  k: nat, x: nat, w: seq<nat>)
    requires StateOk(ps, t, mem, n, hd, fl, sl) && k < |sl| && sl[k] == [] && x < n
    requires hd[x] == x && t[x] == Page(PAGE_START + 1, NULL, NULL, PAGE)
    requires MIN_SHIFT + k < ExactShift(ps) ==> w == StartWords(ps, MIN_SHIFT + k)
    ensures StateOk(ps, Started(ps, t, n, k, x), mem[x := w], n, hd, fl, sl[k := [x]])
    ensures forall i | 0 <= i < n ::
      BusyLen(Started(ps, t, n, k, x), n, NULL, hd, i) == if i == x then 0 else BusyLen(t, n, NULL, hd, i)
  {
    StartedSlabs(ps, t, mem, n, sl, k, x, w);
    RetagOk(t, Started(ps, t, n, k, x), n, hd, fl, x);
  }

  lemma StartedSlabs(ps: nat, t: seq<Page>, mem: seq<seq<nat>>, n: nat, sl: seq<seq<int>>, k: nat, x: nat, w: seq<nat>)
    requires SlabsOk(ps, t, mem, n, sl) && k < |sl| && sl[k] == [] && x < n && t[x].tag == PAGE
    requires MIN_SHIFT + k < ExactShift(ps) ==> w == StartWords(ps, MIN_SHIFT + k)
    ensures SlabsOk(ps, Started(ps, t, n, k, x), mem[x := w], n, sl[k := [x]])
  {
    StartLaid(ps, MIN_SHIFT + k, n + 1 + k, w);
    StartList(ps, t, mem, n, sl, k, x, StartPage(ps, MIN_SHIFT + k, n + 1 + k), w);
  }

  /** From t to r, page x, which held a busy run of one page, holds one chunk in use. */
  lemma StartedBlocks(ps: nat, start: int, t: seq<Page>, mem: seq<seq<nat>>, n: nat, hd: seq<int>, k: nat, x: nat,
                      w: seq<nat>)
    requires PageShift(ps) && Heads(t, n, hd) && |mem| == n && x < n && n + 1 + k < |t| && MIN_SHIFT + k < ps
    requires MIN_SHIFT + k < ExactShift(ps) ==> w == StartWords(ps, MIN_SHIFT + k)
    requires forall i | 0 <= i < n ::
      BusyLen(Started(ps, t, n, k, x), n, NULL, hd, i) == if i == x then 0 else BusyLen(t, n, NULL, hd, i)
    ensures var s := MIN_SHIFT + k; var q := StartPage(ps, s, n + 1 + k);
            var r, mem' := Started(ps, t, n, k, x), mem[x := w];
            && ShiftOf(ps, q) == s
            && (forall i: nat, d: nat | i < n && i != x ::
                  BlockAt(ps, start, r, mem', n, hd, i, d) == BlockAt(ps, start, t, mem, n, hd, i, d))
            && (forall d: nat :: BlockAt(ps, start, r, mem', n, hd, x, d) ==
                  if d == FirstChunk(ps, q) then Some(ChunkBlock(ps, start, q, x, d)) else None)
  {
    hide StartPage, ShiftOf, SomeFree, SomeUsed;
    forall i: nat, d: nat | i < n && i != x
      ensures BlockAt(ps, start, Started(ps, t, n, k, x), mem[x := w], n, hd, i, d)
              == BlockAt(ps, start, t, mem, n, hd, i, d)
    {
      StartedOther(ps, start, t, mem, n, hd, k, x, w, i, d);
    }
    StartLaid(ps, MIN_SHIFT + k, n + 1 + k, w);
    var r, mem', q := Started(ps, t, n, k, x), mem[x := w], StartPage(ps, MIN_SHIFT + k, n + 1 + k);
    forall d: nat ensures
      BlockAt(ps, start, r, mem', n, hd, x, d) ==
        if d == FirstChunk(ps, q) then Some(ChunkBlock(ps, start, q, x, d)) else None
    {
      StartedHere(ps, start, r, mem', n, hd, MIN_SHIFT + k, x, d);
    }
  }

  lemma StartedHere(ps: nat, start: int, r: seq<Page>, mem: seq<seq<nat>>, n: nat, hd: seq<int>, s: nat, x: nat, d: nat)
    requires PageShift(ps) && Heads(r, n, hd) && |mem| == n && x < n && s < ps
    requires r[x].tag != PAGE && WellStarted(ps, s, r[x], mem[x])
    ensures BlockAt(ps, start, r, mem, n, hd, x, d) ==
      if d == FirstChunk(ps, r[x]) then Some(ChunkBlock(ps, start, r[x], x, d)) else None
  {
    TwoChunks(ps, r[x], mem[x]);
  }

  lemma StartedOther(ps: nat, start: int, t: seq<Page>, mem: seq<seq<nat>>, n: nat, hd: seq<int>, k: nat, x: nat,
                     w: seq<nat>,
                     i: nat, d: nat)
    requires PageShift(ps) && Heads(t, n, hd) && |mem| == n && x < n && n + 1 + k < |t| && i < n && i != x
    requires BusyLen(Started(ps, t, n, k, x), n, NULL, hd, i) == BusyLen(t, n, NULL, hd, i)
    ensures BlockAt(ps, start, Started(ps, t, n, k, x), mem[x := w], n, hd, i, d)
            == BlockAt(ps, start, t, mem, n, hd, i, d)
  {
    BlockKept(ps, start, t, mem, hd, Started(ps, t, n, k, x), mem[x := w], hd, n, i, d);
  }

  /** Taking a page and setting it up, put together. */
  lemma NewPageBlocks(ps: nat, start: int, t0: seq<Page>, w0: seq<seq<nat>>, hd0: seq<int>,
                      t: seq<Page>, hd: seq<int>, r: seq<Page>, w: seq<seq<nat>>, n: nat, x: nat, c: nat, b: Block)
    requires PageShift(ps) && |w0| == |w| == n && x < n
    requires Heads(t0, n, hd0) && Heads(t, n, hd) && Heads(r, n, hd)
    requires OnlyAt(ps, start, t0, w0, hd0, t, w0, hd, n, x, 0)
    requires forall d: nat :: BlockAt(ps, start, t0, w0, n, hd0, x, d) == None
    requires forall i: nat, d: nat | i < n && i != x ::
      BlockAt(ps, start, r, w, n, hd, i, d) == BlockAt(ps, start, t, w0, n, hd, i, d)
    requires forall d: nat :: BlockAt(ps, start, r, w, n, hd, x, d) == if d == c then Some(b) else None
    ensures OnlyAt(ps, start, t0, w0, hd0, r, w, hd, n, x, c)
  {
  }

  /** The table as the steps of a free leave it before an emptied page is handed back. */
  ghost predicate Giving(ps: nat, t: seq<Page>, mem: seq<seq<nat>>, n: nat, k: nat, x: int, c: nat,
                         r: seq<Page>, mem': seq<seq<nat>>)
    requires PageShift(ps) && 0 <= x < n < |t| && |mem| == n && n + 1 + k < |t|
    requires t[x].tag == SMALL ==> c / WORD_BITS < |mem[x]|
  {
    var q := MarkedPage(t[x], c, false);
    && mem' == mem[x := MarkedWords(t[x], mem[x], c, false)]
    && (if t[x].next == NULL
        then 0 <= t[n+1+k].next < |t| && r == Pushed(t[x := q], n + 1 + k, x, q.tag)
        else r == t[x := q])
  }

  /** A slab page heads its own run of one page. */
  lemma SlabPageRun(t: seq<Page>, n: nat, hd: seq<int>, fl: seq<int>, x: nat)
    requires RunsOk(t, n, NULL, hd, fl) && x < n && t[x].tag != PAGE
    ensures hd[x] == x && !FreeHead(t, NULL, x) && Len(t, NULL, x) == 1
  {
    assert PageOk(t, n, NULL, hd, x);
  }

  /** Rewriting the words of a listed slab page keeps it listed, for dfs_slab_free_pages to find. */
  lemma StillOnSlot(ps: nat, t: seq<Page>, mem: seq<seq<nat>>, n: nat, hd: seq<int>, fl: seq<int>, sl: seq<seq<int>>,
                    k: nat, i: nat, x: nat, q: Page)
    requires StateOk(ps, t, mem, n, hd, fl, sl) && k < |sl| && i < |sl[k]| && sl[k][i] == x && x < n
    requires q.next == t[x].next && q.prev == t[x].prev && q.tag == t[x].tag
    ensures var r := t[x := q];
            && OnSlot(r, n, n + 1 + k, sl[k], i, x) && RunsOk(r, n, NULL, hd, fl)
            && hd[x] == x && !FreeHead(r, NULL, x) && Len(r, NULL, x) == 1
            && 0 <= q.prev < |t| && 0 <= q.next < |t| && q.prev != x
  {
    var r := t[x := q];
    assert SlotOk(ps, t, n, sl[k], k);
    ChainFrame(t, r, n, n + 1 + k, sl[k]);
    LinkFacts(t, n, n + 1 + k, sl[k], i);
    SlotTag(ps, t, mem, n, sl, k, i);
    forall j | 0 <= j < |sl[k]| ensures r[sl[k][j]].tag == q.tag { SlotTag(ps, t, mem, n, sl, k, j); }
    AlikeOk(t, r, n, NULL, hd, fl);
    SlabPageRun(r, n, hd, fl, x);
  }

  /** The slot of a full page: its first link is a descriptor, and not that page. */
  lemma SlotOfFull(ps: nat, t: seq<Page>, mem: seq<seq<nat>>, n: nat, sl: seq<seq<int>>, k: nat, x: nat)
    requires SlabsOk(ps, t, mem, n, sl) && k < |sl| && x < n && t[x].next == NULL
    ensures 0 <= t[n+1+k].next < |t| && t[n+1+k].next != x
  {
    assert SlotOk(ps, t, n, sl[k], k);
    if |sl[k]| > 0 { assert sl[k][0] in sl[k]; }
  }

  /** Clearing the bit after relinking, or before, comes to the same. */
  lemma RelinkThenClear(t: seq<Page>, s: int, x: int, tag: nat, v: nat)
    requires 0 <= x < |t| && 0 <= s < |t| && 0 <= t[s].next < |t| && x != s && t[s].next != x
    ensures var r := Pushed(t, s, x, tag);
            r[x := r[x].(slab := v)] == Pushed(t[x := t[x].(slab := v)], s, x, tag) && r[x].slab == t[x].slab
  {
    var r := Pushed(t, s, x, tag);
    var q := Pushed(t[x := t[x].(slab := v)], s, x, tag);
    forall j | 0 <= j < |t| ensures r[x := r[x].(slab := v)][j] == q[j] {}
  }

  /** What live means, for a chunk of a slab page and for a page run. */
  lemma LiveFacts(ps: nat, start: int, t: seq<Page>, mem: seq<seq<nat>>, n: nat, hd: seq<int>, fl: seq<int>,
                  sl: seq<seq<int>>,
                  x: nat, c: nat)
    requires StateOk(ps, t, mem, n, hd, fl, sl) && x < n && BlockAt(ps, start, t, mem, n, hd, x, c).Some?
    ensures t[x].tag != PAGE ==>
              && ShiftOf(ps, t[x]) <= ps && Laid(ps, t[x], mem[x]) && Used(ps, t[x], mem[x], c)
              && FirstChunk(ps, t[x]) <= c < Chunks(ps, ShiftOf(ps, t[x]))
              && (t[x].tag == SMALL ==> c / WORD_BITS < |mem[x]|)
    ensures t[x].tag == PAGE ==>
              && c == 0 && hd[x] == x && !FreeHead(t, NULL, x) && t[x].next == NULL && t[x].slab > PAGE_START
              && Len(t, NULL, x) == t[x].slab - PAGE_START == BusyLen(t, n, NULL, hd, x)
  {
    if t[x].tag != PAGE {
      SlabPageFacts(ps, t, mem, n, sl, x);
      ChunkInWords(ps, t[x], mem[x], c);
    }
  }

  /** A pointer to a page that is not a slab page: it is a live block's just when the two
      checks of the code let it through and it does not head a free run. */
  lemma PageChecks(ps: nat, start: int, t: seq<Page>, mem: seq<seq<nat>>, n: nat, hd: seq<int>, fl: seq<int>,
                   sl: seq<seq<int>>, x: nat)
    requires StateOk(ps, t, mem, n, hd, fl, sl) && x < n && t[x].tag == PAGE
    ensures t[x].slab == PAGE_FREE || t[x].slab == PAGE_BUSY <==> hd[x] != x
    ensures hd[x] == x && t[x].next == NULL <==> BlockAt(ps, start, t, mem, n, hd, x, 0).Some?
  {
    assert RunAt(t, n, NULL, hd, x) && PageOk(t, n, NULL, hd, x);
  }

  /** The length that dfs_slab_free_locked takes from the descriptor of a run, free or busy. */
  lemma RunLength(t: seq<Page>, n: nat, hd: seq<int>, fl: seq<int>, x: nat)
    requires RunsOk(t, n, NULL, hd, fl) && x < n && t[x].tag == PAGE && hd[x] == x
    ensures t[x].slab % PAGE_START == Len(t, NULL, x) >= 1
    ensures t[x].next != NULL ==> x in fl && t[x].slab % PAGE_START == t[x].slab
  {
    assert RunAt(t, n, NULL, hd, x) && PageOk(t, n, NULL, hd, x);
  }

  /** Relinking a full page and then clearing the chunk's bit are the steps of a free. */
  lemma GivingSteps(ps: nat, t: seq<Page>, mem: seq<seq<nat>>, n: nat, sl: seq<seq<int>>, k: nat, x: nat, c: nat,
                    u: seq<Page>, r: seq<Page>, mem': seq<seq<nat>>)
    requires SlabsOk(ps, t, mem, n, sl) && k < |sl| && x < n
    requires t[x].tag == SMALL ==> c / WORD_BITS < |mem[x]|
    requires 0 <= t[n+1+k].next < |t|
    requires u == if t[x].next == NULL then Pushed(t, n + 1 + k, x, t[x].tag) else t
    requires r == u[x := u[x].(slab := MarkedPage(t[x], c, false).slab)]
    requires mem' == mem[x := MarkedWords(t[x], mem[x], c, false)]
    ensures Giving(ps, t, mem, n, k, x, c, r, mem')
  {
    var q := MarkedPage(t[x], c, false);
    assert q == t[x].(slab := q.slab);
    if t[x].next == NULL {
      SlotOfFull(ps, t, mem, n, sl, k, x);
      RelinkThenClear(t, n + 1 + k, x, t[x].tag, q.slab);
    }
  }

  /** Cases 1 and 2 of giving a chunk back: the page keeps a chunk in use. */
  lemma GaveUsed(ps: nat, start: int, t: seq<Page>, mem: seq<seq<nat>>, n: nat, hd: seq<int>, fl: seq<int>,
                 sl: seq<seq<int>>,
                 k: nat, x: nat, c: nat, r: seq<Page>, mem': seq<seq<nat>>, sl': seq<seq<int>>)
    requires StateOk(ps, t, mem, n, hd, fl, sl) && k < |sl| && x < n && t[x].tag != PAGE
    requires ShiftOf(ps, t[x]) == MIN_SHIFT + k && FirstChunk(ps, t[x]) <= c < Chunks(ps, MIN_SHIFT + k)
    requires t[x].tag == SMALL ==> c / WORD_BITS < |mem[x]|
    requires Giving(ps, t, mem, n, k, x, c, r, mem')
    requires var q, v := MarkedPage(t[x], c, false), MarkedWords(t[x], mem[x], c, false);
             ShiftOf(ps, q) <= ps && SomeUsed(ps, q, v)
    requires sl' == if t[x].next == NULL then sl[k := [x] + sl[k]] else sl
    ensures StateOk(ps, r, mem', n, hd, fl, sl')
    ensures OnlyAt(ps, start, t, mem, hd, r, mem', hd, n, x, c)
    ensures BlockAt(ps, start, r, mem', n, hd, x, c) == None
  {
    if t[x].next == NULL { GaveFull(ps, start, t, mem, n, hd, fl, sl, k, x, c); }
    else { GavePart(ps, start, t, mem, n, hd, fl, sl, x, c); }
  }

  // ------------------------------------------------------------ dfs_slab_init

  /** The table as `dfs_slab_init` leaves it: one free run, its last page's back pointer unset. */
  function InitTable(n: nat, slots: nat): (t: seq<Page>)
    ensures |t| == n + 1 + slots
  {
    seq(n + 1 + slots, i =>
      if i == n then Page(0, 0, NULL, PAGE)
      else if i > n then Page(0, i, NULL, PAGE)
      else if i == 0 then Page(n, n, n, PAGE)
      else CLEARED)
  }

  lemma InitOk(ps: nat, t: seq<Page>, mem: seq<seq<nat>>, n: nat, hd: seq<int>, sl: seq<seq<int>>)
    requires PageShift(ps) && 1 <= n && n + 1 < PAGE_START && |mem| == n && t == InitTable(n, ps - MIN_SHIFT)
    requires |hd| == n && forall i | 0 <= i < n :: hd[i] == 0
    requires |sl| == ps - MIN_SHIFT && forall k | 0 <= k < |sl| :: sl[k] == []
    ensures StateOk(ps, t, mem, n, hd, [0], sl)
    ensures forall i | 0 <= i < n :: BusyLen(t, n, NULL, hd, i) == 0 && t[i].tag == PAGE
  {
    forall i | 0 <= i < n ensures RunAt(t, n, NULL, hd, i) && PageOk(t, n, NULL, hd, i) {}
    assert LinkAt(t, n, n, [0], 0);
    forall k | 0 <= k < |sl| ensures SlotOk(ps, t, n, sl[k], k) {}
    forall i | 0 <= i < n ensures PageChunksOk(ps, t, mem, i) {}
  }
}
