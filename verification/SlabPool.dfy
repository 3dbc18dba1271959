/** The slab pool: the allocator's methods on the descriptor table and the page bitmaps. */
module SlabPool {
  import opened Options
  import opened SlabTable
  import opened SlabRuns
  import opened SlabMoves
  import opened SlabChunks
  import opened SlabSlots
  import opened SlabBlocks
  import opened SlabGeometry
  import opened Words

  class Pool {
    const ps: nat                     // dfs_pagesize_shift
    const start: int                  // pool->start
    const end: int                    // pool->end
    const n: nat                      // pool->last - pool->pages
    const desc: array<Page>           // pages, then pool->free, then the slots
    const mem: array<seq<nat>>        // the words at the front of each page, while they are a bitmap
    ghost var hd: seq<int>
    ghost var fl: seq<int>
    ghost var sl: seq<seq<int>>

    /** The state is sound in both layers, and the pages lie in the pool's memory. */
    ghost predicate Valid()
      reads this, desc, mem
    {
      && StateOk(ps, desc[..], mem[..], n, hd, fl, sl)
      && start > 0 && start % Pow2(ps) == 0 && start + n * Pow2(ps) <= end
    }

    /** sizeof(dfs_slab_page_t) */
    static const DESC_SIZE: nat := 24

    /** dfs_align_ptr(p, a) */
    static function AlignUp(p: int, a: nat): int
      requires a > 0
    {
      (p + a - 1) / a * a
    }

    /** Where the pages start, when `size` bytes from p on are given to slots, descriptors and pages. */
    static function PagesStart(p: int, size: int, ps: nat): int
      requires PageShift(ps)
    {
      AlignUp(p + (ps - MIN_SHIFT) * DESC_SIZE + size / (Pow2(ps) + DESC_SIZE) * DESC_SIZE, Pow2(ps))
    }

    /** The pages start less than a page behind the slots and as many descriptors as could have a page each. */
    static predicate Packed(p: int, limit: int, ps: nat, begin: int)
      requires PageShift(ps)
    {
      var d := (limit - p) / (Pow2(ps) + DESC_SIZE);
      0 <= begin - (p + (ps - MIN_SHIFT) * DESC_SIZE + d * DESC_SIZE) < Pow2(ps)
    }

    /** How many pages fit between p and limit, after the slots and the descriptors, and where they start. */
    static method Layout(p: int, limit: int, pageShift: nat) returns (pages: int, begin: int)
      requires PageShift(pageShift) && 0 < p <= limit < PAGE_START
      requires PagesStart(p, limit - p, pageShift) + Pow2(pageShift) <= limit
      requires Pow2(pageShift) + DESC_SIZE <= limit - p
      ensures 1 <= pages && pages + 1 < PAGE_START
      ensures begin > 0 && begin % Pow2(pageShift) == 0 && begin + pages * Pow2(pageShift) <= limit
      ensures p + (pageShift - MIN_SHIFT) * DESC_SIZE + pages * DESC_SIZE <= begin
      ensures begin + (pages + 1) * Pow2(pageShift) > limit
      ensures Packed(p, limit, pageShift, begin)
    {
      hide AlignUp;
      var z := Pow2(pageShift);
      var size := limit - p;
      var base := p + (pageShift - MIN_SHIFT) * DESC_SIZE;
      pages := size / (z + DESC_SIZE);
      begin := AlignUp(base + pages * DESC_SIZE, z);
      var m := pages - (limit - begin) / z;
      InitSizes(p, limit, size, z, pages, base, begin);
      if m > 0 {
        pages := pages - m;
      }
    }

    /** dfs_slab_init, for a pool whose memory after its own header is p .. limit. */
    constructor (p: int, limit: int, pageShift: nat)
      requires PageShift(pageShift) && 0 < p <= limit < PAGE_START
      requires PagesStart(p, limit - p, pageShift) + Pow2(pageShift) <= limit
      requires Pow2(pageShift) + DESC_SIZE <= limit - p
      ensures Valid() && fresh(desc) && fresh(mem) && ps == pageShift && end == limit
      ensures p + (ps - MIN_SHIFT) * DESC_SIZE + n * DESC_SIZE <= start && n >= 1
      ensures start + (n + 1) * Pow2(ps) > limit && Packed(p, limit, ps, start)
      ensures fl == [0] && desc[0].slab == n
      ensures forall i: nat, c: nat | i < n :: BlockOf(i, c) == None
    {
      hide Packed, PagesStart;
      var pages, begin := Layout(p, limit, pageShift);
      var slots := pageShift - MIN_SHIFT;
      ps, start, end, n := pageShift, begin, limit, pages;
      var table := InitDescriptors(pages, slots);
      desc := table;
      mem := new seq<nat>[pages](_ => []);
      hd := seq(pages, _ => 0);
      fl := [0];
      sl := seq(slots, _ => []);
      new;
      InitOk(ps, desc[..], mem[..], n, hd, sl);
    }

    static method InitDescriptors(pages: nat, slots: nat) returns (d: array<Page>)
      ensures fresh(d) && d[..] == InitTable(pages, slots)
    {
      d := new Page[pages + 1 + slots](i =>
        if i == pages then Page(0, 0, NULL, PAGE)
        else if i > pages then Page(0, i, NULL, PAGE)
        else if i == 0 then Page(pages, pages, pages, PAGE)
        else CLEARED);
    }

    /** The live block at chunk c of page i. */
    ghost function BlockOf(i: int, c: nat): Option<Block>
      requires Valid() && 0 <= i < n
      reads this, desc, mem
    {
      BlockAt(ps, start, desc[..], mem[..], n, hd, i, c)
    }

    /** The pool is valid, and its blocks are those of the tables t, w with run heads h, the one at (x, c) aside. */
    ghost predicate ValidBut(t: seq<Page>, w: seq<seq<nat>>, h: seq<int>, x: int, c: nat)
      reads this, desc, mem
    {
      Valid() && Heads(t, n, h) && |w| == n && OnlyAt(ps, start, t, w, h, desc[..], mem[..], hd, n, x, c)
    }

    /** The pool is valid, and its blocks are those of the tables t, w with run heads h, without the one that starts at
        p. */
    ghost predicate ValidWithout(t: seq<Page>, w: seq<seq<nat>>, h: seq<int>, p: int)
      reads this, desc, mem
    {
      Valid() && Heads(t, n, h) && |w| == n && OnlyGone(ps, start, t, w, h, desc[..], mem[..], hd, n, p)
    }

    method Unlink(x: int)
      requires 0 <= x < desc.Length && 0 <= desc[x].prev < desc.Length && 0 <= desc[x].next < desc.Length
      requires desc[x].prev != x
      modifies desc
      ensures desc[..] == Unlinked(old(desc[..]), x)
    {
      var prev := desc[x].prev;
      desc[prev] := desc[prev].(next := desc[x].next);
      var next := desc[x].next;
      desc[next] := desc[next].(prev := desc[x].prev, tag := desc[x].tag);
    }

    method MarkBusy(page: int, pages: nat)
      requires 0 <= page && 1 <= pages && page + pages <= desc.Length
      modifies desc
      ensures desc[..] == Marked(old(desc[..]), page, pages)
    {
      desc[page] := Page(PAGE_START + pages, NULL, NULL, PAGE);
      var p := page + 1;
      while p < page + pages
        invariant page < p <= page + pages
        invariant forall j | 0 <= j < desc.Length && !(page <= j < p) :: desc[j] == old(desc[j])
        invariant desc[page] == Page(PAGE_START + pages, NULL, NULL, PAGE)
        invariant forall j | page < j < p :: desc[j] == INSIDE
      {
        desc[p] := INSIDE;
        p := p + 1;
      }
    }

    method SplitRun(page: int, pages: nat)
      requires 0 <= page < n <= desc.Length && 1 <= pages < desc[page].slab && page + desc[page].slab <= n
      requires 0 <= desc[page].prev < desc.Length && 0 <= desc[page].next < desc.Length
      requires !(page <= desc[page].prev < page + desc[page].slab)
               && !(page <= desc[page].next < page + desc[page].slab)
      modifies desc
      ensures desc[..] == Split(old(desc[..]), n, page, pages)
    {
      var l := desc[page].slab;
      desc[page + l - 1] := desc[page + l - 1].(prev := page + pages, tag := PAGE);
      desc[page + pages] := Page(l - pages, desc[page].next, desc[page].prev, desc[page].tag);
      var p := desc[page].prev;
      desc[p] := desc[p].(next := page + pages);
      var q := desc[page].next;
      desc[q] := desc[q].(prev := page + pages, tag := PAGE);
    }

    /** Takes the first pages of free run `page`, the i-th on the free list. */
    method TakeFrom(page: int, pages: nat, ghost i: nat)
      requires RunsOk(desc[..], n, NULL, hd, fl) && i < |fl| && page == fl[i]
      requires 0 <= page < n <= desc.Length && 1 <= pages <= desc[page].slab
      modifies desc, `hd, `fl
      ensures RunsOk(desc[..], n, NULL, hd, fl)
      ensures Allotted(old(desc[..]), old(hd), desc[..], hd, n, page, pages)
    {
      ghost var t := desc[..];
      ListedFacts(t, n, NULL, hd, fl, i);
      Surroundings(t, n, NULL, hd, fl, i);
      ghost var hd', fl';
      if desc[page].slab > pages {
        hd', fl' := Rehead(hd, page + pages, page + t[page].slab, page + pages), fl[i := page + pages];
        SplitRun(page, pages);
      } else {
        hd', fl' := hd, fl[..i] + fl[i+1..];
        Unlink(page);
      }
      MarkBusy(page, pages);
      assert Taken(t, n, hd, fl, i, page, pages, desc[..], hd', fl');
      TakenRuns(t, n, hd, fl, i, page, pages, desc[..], hd', fl');
      TakenAllots(t, n, hd, fl, i, page, pages, desc[..], hd', fl');
      hd, fl := hd', fl';
    }

    /** First fit along the free list. */
    method AllocPages(pages: nat) returns (page: int)
      requires 1 <= pages && RunsOk(desc[..], n, NULL, hd, fl)
      modifies desc, `hd, `fl
      ensures RunsOk(desc[..], n, NULL, hd, fl)
      ensures page == NULL <==> forall a :: !FreeSpan(old(desc[..]), n, old(hd), a, pages)
      ensures page == NULL ==> desc[..] == old(desc[..]) && hd == old(hd) && fl == old(fl)
      ensures page != NULL ==> Allotted(old(desc[..]), old(hd), desc[..], hd, n, page, pages)
    {
      ghost var t := desc[..];
      ghost var i := 0;
      page := desc[n].next;
      while page != n
        invariant 0 <= i <= |fl| && page == At(fl, n, i)
        invariant desc[..] == t && hd == old(hd) && fl == old(fl)
        invariant forall j | 0 <= j < i :: 0 <= fl[j] < n && t[fl[j]].slab < pages
        decreases |fl| - i
      {
        ListedFacts(t, n, NULL, hd, fl, i);
        if desc[page].slab >= pages {
          TakeFrom(page, pages, i);
          return;
        }
        page := desc[page].next;
        i := i + 1;
      }
      forall a ensures !FreeSpan(t, n, hd, a, pages) { NoSpan(t, n, hd, fl, pages, a); }
      return NULL;
    }

    method ClearRun(page: int, pages: nat)
      requires 0 <= page && 1 <= pages && page + pages <= desc.Length
      modifies desc
      ensures desc[..] == Cleared(old(desc[..]), page, pages)
    {
      desc[page] := desc[page].(slab := pages);
      var p := page + 1;
      while p < page + pages
        invariant page < p <= page + pages
        invariant forall j | 0 <= j < desc.Length && j != page && !(page < j < p) :: desc[j] == old(desc[j])
        invariant desc[page] == old(desc[page]).(slab := pages)
        invariant forall j | page < j < p :: desc[j] == CLEARED
      {
        desc[p] := CLEARED;
        p := p + 1;
      }
    }

    /** Makes run b part of run a; y, one of the two, leaves the free list. */
    method Join(a: int, b: int, y: int)
      requires 0 <= a < desc.Length && 0 <= b < desc.Length && a != b && (y == a || y == b)
      requires 0 <= desc[y].prev < desc.Length && 0 <= desc[y].next < desc.Length && desc[y].prev != y
      modifies desc
      ensures desc[..] == Joined(old(desc[..]), a, b, y)
    {
      desc[a] := desc[a].(slab := desc[a].slab + desc[b].slab);
      Unlink(y);
      desc[b] := CLEARED;
    }

    method JoinRight(page: int, pages: nat) returns (pages': nat)
      requires 0 <= page < n && RunsOk(desc[..], n, page, hd, fl) && pages + 1 == desc[page].slab
      modifies desc, `hd, `fl
      ensures RunsOk(desc[..], n, page, hd, fl) && pages' + 1 == desc[page].slab
      ensures SameUse(old(desc[..]), page, old(hd), desc[..], page, hd, n)
      ensures RightBusy(desc[..], n, page)
    {
      ghost var t := desc[..];
      pages' := pages;
      var join := page + desc[page].slab;
      if join < n {
        RightNeighbour(t, n, page, hd);
        if desc[join].tag == PAGE && desc[join].next != NULL {
          assert join in fl;
          ghost var i :| 0 <= i < |fl| && fl[i] == join;
          pages' := pages + desc[join].slab;
          JoinedOk(t, n, page, hd, fl, page, join, i);
          JoinedSameUse(t, n, page, hd, fl, page, join, i);
          JoinedRightBusy(t, n, page, hd, fl, join, i);
          Join(page, join, join);
          hd, fl := Rehead(hd, join, join + t[join].slab, page), fl[..i] + fl[i+1..];
        }
      }
    }

    method JoinLeft(page: int, pages: nat) returns (head: int, pages': nat)
      requires 0 <= page < n && RunsOk(desc[..], n, page, hd, fl) && pages + 1 == desc[page].slab
      requires RightBusy(desc[..], n, page)
      modifies desc, `hd, `fl
      ensures 0 <= head <= page && RunsOk(desc[..], n, head, hd, fl) && pages' + 1 == desc[head].slab
      ensures SameUse(old(desc[..]), page, old(hd), desc[..], head, hd, n)
      ensures Isolated(desc[..], n, head, hd)
      ensures head != page ==> desc[page].tag == PAGE && old(desc[..])[head].tag == PAGE
    {
      hide Unlinked, FreeHead, PageOk, Rehead;
      ghost var t := desc[..];
      head, pages' := page, pages;
      if page > 0 {
        LeftNeighbour(t, n, page, hd);
        var join := page - 1;
        if desc[join].tag == PAGE {
          if desc[join].slab == PAGE_FREE {
            join := desc[join].prev;
          }
          if desc[join].next != NULL {
            assert join in fl;
            ghost var i :| 0 <= i < |fl| && fl[i] == join;
            pages' := pages + desc[join].slab;
            JoinedLeftAll(t, n, page, hd, fl, join, i);
            Join(join, page, join);
            hd, fl := Rehead(hd, page, page + t[page].slab, join), fl[..i] + fl[i+1..];
            head := join;
          }
        }
      }
    }

    method LinkFirst(page: int, pages: nat)
      requires 0 <= page < n < desc.Length && pages + 1 == desc[page].slab && page + desc[page].slab <= n
      requires 0 <= desc[n].next < desc.Length
      modifies desc
      ensures desc[..] == Listed(old(desc[..]), n, page)
    {
      if pages > 0 {
        desc[page + pages] := desc[page + pages].(prev := page, tag := PAGE);
      }
      var first := desc[n].next;
      desc[page] := desc[page].(next := first, prev := n, tag := PAGE);
      desc[first] := desc[first].(prev := page, tag := PAGE);
      desc[n] := desc[n].(next := page);
    }

    method ListRun(page: int, pages: nat)
      requires 0 <= page < n && RunsOk(desc[..], n, page, hd, fl) && pages + 1 == desc[page].slab
      requires Isolated(desc[..], n, page, hd)
      modifies desc, `fl
      ensures RunsOk(desc[..], n, NULL, hd, fl)
      ensures SameUse(old(desc[..]), page, hd, desc[..], NULL, hd, n)
      ensures desc[page].tag == PAGE
    {
      ListedOk(desc[..], n, page, hd, fl);
      ListedSameUse(desc[..], n, page, hd, fl);
      LinkFirst(page, pages);
      fl := [page] + fl;
    }

    /** Puts the run of `pages` pages at `page` back, joined with its free neighbours. */
    method FreePages(page: int, pages: nat, ghost s: int, ghost l: seq<int>, ghost k: nat)
      requires 0 <= page < n && RunsOk(desc[..], n, NULL, hd, fl) && hd[page] == page
      requires pages == Len(desc[..], NULL, page)
      requires desc[page].next != NULL && !FreeHead(desc[..], NULL, page) ==> OnSlot(desc[..], n, s, l, k, page)
      modifies desc, `hd, `fl
      ensures RunsOk(desc[..], n, NULL, hd, fl)
      ensures old(desc[page].next) != NULL ==>
        0 <= old(desc[page].prev) < desc.Length && 0 <= old(desc[page].next) < desc.Length
          && old(desc[page].prev) != page
      ensures Released(old(desc[..]), old(hd), desc[..], hd, n, page, pages)
    {
      hide Idle, BusyLen, SlabsKept, Cleared;
      ghost var t := desc[..];
      ghost var rest := fl;
      if FreeHead(t, NULL, page) {
        ghost var i: nat :| i < |fl| && fl[i] == page;
        FreeWithdrawn(t, n, hd, fl, i);
        rest := fl[..i] + fl[i+1..];
      } else {
        WithdrawnOk(t, n, hd, fl, page, pages, s, l, k);
        WithdrawnKept(t, n, hd, fl, page, pages, s, l, k);
      }
      ClearRun(page, pages);
      if desc[page].next != NULL {
        Unlink(page);
      }
      assert desc[..] == Withdrawn(t, page, pages);
      fl := rest;
      JoinAndList(page, pages, t);
    }

    /** The second half of freeing: the cleared run is joined with its free neighbours and listed. */
    method JoinAndList(page: int, pages: nat, ghost t: seq<Page>)
      requires 0 <= page < n && RunsOk(desc[..], n, page, hd, fl) && pages >= 1 && desc[page].slab == pages
      requires n < |t| && Heads(t, n, hd)
      requires t[page].next != NULL ==> 0 <= t[page].prev < |t| && 0 <= t[page].next < |t| && t[page].prev != page
      requires SlabsKept(if t[page].next != NULL then Unlinked(t, page) else t, desc[..], n, page)
      requires forall i | 0 <= i < n ::
        Idle(desc[..], n, page, hd, i) <==> PageFree(t, n, NULL, hd, i) || page <= i < page + pages
      requires forall i | 0 <= i < n ::
        BusyLen(desc[..], n, page, hd, i) == if i == page then 0 else BusyLen(t, n, NULL, hd, i)
      modifies desc, `hd, `fl
      ensures RunsOk(desc[..], n, NULL, hd, fl)
      ensures Released(t, old(hd), desc[..], hd, n, page, pages)
    {
      ghost var u, hd0 := desc[..], hd;
      var left := JoinRight(page, pages - 1);
      ghost var v, hd1 := desc[..], hd;
      var head;
      head, left := JoinLeft(page, left);
      ghost var w, hd2 := desc[..], hd;
      ListRun(head, left);
      ReleaseSteps(t, hd0, page, pages, u, v, hd1, w, head, hd2, desc[..], n);
    }

    // ------------------------------------------------------------- taking a chunk

    /** The search for the first clear bit of a map. */
    static method FirstClear(word: nat, bits: nat) returns (i: nat)
      requires HasClear(word, bits)
      ensures i < bits && !Bit(word, i) && forall j: nat | j < i :: Bit(word, j)
    {
      i := 0;
      while Bit(word, i)
        invariant i < bits && forall j: nat | j < i :: Bit(word, j)
        decreases bits - i
      {
        i := i + 1;
      }
    }

    /** Takes a page without free chunks off its list. */
    method LeaveSlot(page: int)
      requires 0 <= page < desc.Length && 0 <= desc[page].prev < desc.Length && 0 <= desc[page].next < desc.Length
      requires desc[page].prev != page && desc[page].next != page
      modifies desc
      ensures desc[..] == Unlinked(old(desc[..]), page)
              [page := Page(old(desc[page]).slab, NULL, NULL, old(desc[page]).tag)]
    {
      Unlink(page);
      desc[page] := desc[page].(next := NULL);
      desc[page] := desc[page].(prev := NULL);
    }

    /** Chunk c of the first page of slot k was marked; `full` says that no chunk of it is left. */
    method SettleTake(page: int, full: bool, ghost k: nat, ghost c: nat, ghost t: seq<Page>, ghost w: seq<seq<nat>>)
      requires StateOk(ps, t, w, n, hd, fl, sl) && k < |sl| && |sl[k]| > 0 && page == sl[k][0] && 0 <= page < n
      requires ShiftOf(ps, t[page]) <= ps && c < Chunks(ps, ShiftOf(ps, t[page])) && !Used(ps, t[page], w[page], c)
      requires t[page].tag == SMALL ==> c / WORD_BITS < |w[page]|
      requires desc[..] == t[page := MarkedPage(t[page], c, true)]
      requires mem[..] == w[page := MarkedWords(t[page], w[page], c, true)]
      requires ShiftOf(ps, desc[page]) <= ps && (full <==> !SomeFree(ps, desc[page], mem[..][page]))
      modifies desc, `sl
      ensures StateOk(ps, desc[..], mem[..], n, hd, fl, sl)
      ensures OnlyAt(ps, start, t, w, hd, desc[..], mem[..], hd, n, page, c)
      ensures BlockAt(ps, start, t, w, n, hd, page, c) == None
      ensures BlockAt(ps, start, desc[..], mem[..], n, hd, page, c)
              == Some(SizedBlock(ps, start, MIN_SHIFT + k, page, c))
    {
      FirstOfSlot(ps, t, w, n, sl, k);
      SlotNeighbours(ps, t, w, n, sl, k, 0);
      ghost var s := sl;
      if full {
        LeaveSlot(page);
        sl := sl[k := sl[k][1..]];
      }
      TookOk(ps, start, t, w, n, hd, fl, s, k, page, c, desc[..], mem[..], sl);
    }

    method TakeExact(page: int, ghost k: nat) returns (c: nat)
      requires Valid() && k < |sl| && |sl[k]| > 0 && page == sl[k][0] && MIN_SHIFT + k == ExactShift(ps)
      modifies desc, mem, `sl
      ensures 0 <= page < n && ValidBut(old(desc[..]), old(mem[..]), old(hd), page, c)
      ensures old(BlockOf(page, c)) == None && BlockOf(page, c) == Some(SizedBlock(ps, start, MIN_SHIFT + k, page, c))
    {
      hide BlockAt, OnlyAt, Pow2, Bit, SetBit;
      ghost var t, w := desc[..], mem[..];
      FirstOfSlot(ps, t, w, n, sl, k);
      ExactSearch(ps, t[page], w[page]);
      c := FirstClear(desc[page].slab, WORD_BITS);
      desc[page] := desc[page].(slab := SetBit(desc[page].slab, c));
      ExactMarked(ps, t[page], w[page], c, true);
      SettleTake(page, desc[page].slab == WORD_BUSY, k, c, t, w);
    }

    method TakeBig(page: int, shift: nat, ghost k: nat) returns (c: nat)
      requires Valid() && k < |sl| && |sl[k]| > 0 && page == sl[k][0]
      requires shift == MIN_SHIFT + k && shift > ExactShift(ps)
      modifies desc, mem, `sl
      ensures 0 <= page < n && ValidBut(old(desc[..]), old(mem[..]), old(hd), page, c)
      ensures old(BlockOf(page, c)) == None && BlockOf(page, c) == Some(SizedBlock(ps, start, MIN_SHIFT + k, page, c))
    {
      hide BlockAt, OnlyAt, Pow2, Bit, SetBit;
      ghost var t, w := desc[..], mem[..];
      FirstOfSlot(ps, t, w, n, sl, k);
      BigSearch(ps, t[page], w[page]);
      // the bits of the map, 1 << (pagesize_shift - shift) of them, and the mask of all of them
      var bits := Chunks(ps, Low(desc[page].slab, 4));
      var mask := Pow2(bits) - 1;
      c := FirstClear(High(desc[page].slab, MAP_SHIFT), bits);
      HighBits(t[page].slab, MAP_SHIFT, c);
      desc[page] := desc[page].(slab := SetBit(desc[page].slab, MAP_SHIFT + c));
      BigMarked(ps, t[page], w[page], c, true);
      SettleTake(page, High(desc[page].slab, MAP_SHIFT) == mask, k, c, t, w);
    }

    /** The test after a word has filled up: is every later word busy too? */
    static method AllBusyFrom(w: seq<nat>, m: nat) returns (busy: bool)
      requires m <= |w|
      ensures busy <==> forall i | m <= i < |w| :: w[i] == WORD_BUSY
    {
      var i := m;
      while i < |w|
        invariant m <= i <= |w| && forall j | m <= j < i :: w[j] == WORD_BUSY
      {
        if w[i] != WORD_BUSY { return false; }
        i := i + 1;
      }
      return true;
    }

    /** The first word of the bitmap that is not DFS_SLAB_BUSY. */
    static method FirstNotBusy(w: seq<nat>) returns (m: nat)
      requires AnyNotBusy(w)
      ensures m < |w| && w[m] != WORD_BUSY && forall j | 0 <= j < m :: w[j] == WORD_BUSY
    {
      m := 0;
      while w[m] == WORD_BUSY
        invariant m < |w| && forall j | 0 <= j < m :: w[j] == WORD_BUSY
        decreases |w| - m
      {
        m := m + 1;
      }
    }

    /** Sets the first clear bit of the bitmap; `full` says that it was the last one. */
    static method TakeBit(w: seq<nat>) returns (v: seq<nat>, c: nat, full: bool)
      requires AnyNotBusy(w) && forall m | 0 <= m < |w| :: w[m] < Pow2(WORD_BITS)
      ensures c / WORD_BITS < |w| && !Bit(w[c / WORD_BITS], c % WORD_BITS)
      ensures v == w[c / WORD_BITS := SetBit(w[c / WORD_BITS], c % WORD_BITS)]
      ensures full <==> !AnyNotBusy(v)
    {
      var m := FirstNotBusy(w);
      SmallSearch(w[m]);
      var i := FirstClear(w[m], WORD_BITS);
      c := m * WORD_BITS + i;
      v := w[m := SetBit(w[m], i)];
      full := v[m] == WORD_BUSY;
      if full { full := AllBusyFrom(v, m + 1); }
    }

    method TakeSmall(page: int, ghost k: nat) returns (c: nat)
      requires Valid() && k < |sl| && |sl[k]| > 0 && page == sl[k][0] && MIN_SHIFT + k < ExactShift(ps)
      modifies desc, mem, `sl
      ensures 0 <= page < n && ValidBut(old(desc[..]), old(mem[..]), old(hd), page, c)
      ensures old(BlockOf(page, c)) == None && BlockOf(page, c) == Some(SizedBlock(ps, start, MIN_SHIFT + k, page, c))
    {
      hide BlockAt, OnlyAt, Pow2, Bit, SetBit;
      ghost var t, w := desc[..], mem[..];
      FirstOfSlot(ps, t, w, n, sl, k);
      SmallFull(ps, t[page], w[page]);
      SmallGeometry(ps, MIN_SHIFT + k);
      var v, full;
      v, c, full := TakeBit(mem[page]);
      mem[page] := v;
      SmallMarked(ps, t[page], w[page], c, true);
      SettleTake(page, full, k, c, t, w);
    }

    // ------------------------------------------------------------- a new slab page

    /** The words of the bitmap of a new small-chunk page. */
    method StartBitmap(shift: nat) returns (w: seq<nat>)
      requires PageShift(ps) && MIN_SHIFT <= shift < ExactShift(ps)
      ensures w == StartWords(ps, shift)
    {
      SmallGeometry(ps, shift);
      w := [Pow2(MapChunks(ps, shift) + 1) - 1];
      var words := MapWords(ps, shift);
      for i := 1 to words
        invariant |w| == i && w[0] == Pow2(MapChunks(ps, shift) + 1) - 1
        invariant forall j | 1 <= j < i :: w[j] == 0
      {
        w := w + [0];
      }
    }

    /** Makes the busy page `page` the only slab page of its slot, its first chunk taken. */
    method SetUpPage(page: int, shift: nat, ghost k: nat) returns (c: nat)
      requires StateOk(ps, desc[..], mem[..], n, hd, fl, sl) && shift == MIN_SHIFT + k && k < |sl| && sl[k] == []
      requires 0 <= page < n && hd[page] == page && desc[page] == Page(PAGE_START + 1, NULL, NULL, PAGE)
      modifies desc, mem, `sl
      ensures StateOk(ps, desc[..], mem[..], n, hd, fl, sl)
      ensures forall i: nat, d: nat | i < n && i != page ::
        BlockAt(ps, start, desc[..], mem[..], n, hd, i, d)
          == BlockAt(ps, start, old(desc[..]), old(mem[..]), n, hd, i, d)
      ensures forall d: nat :: BlockAt(ps, start, desc[..], mem[..], n, hd, page, d) ==
                (if d == c then Some(SizedBlock(ps, start, shift, page, c)) else None)
    {
      hide Pow2, Laid, Used, SomeUsed, SomeFree;
      ghost var t, w := desc[..], mem[..];
      c := 0;
      if shift < ExactShift(ps) {
        mem[page] := StartBitmap(shift);
        c := MapChunks(ps, shift);
      }
      var node := n + 1 + shift - MIN_SHIFT;
      desc[page] := StartPage(ps, shift, node);
      desc[node] := desc[node].(next := page);
      assert mem[..] == w[page := mem[page]];
      assert desc[..] == Started(ps, t, n, k, page);
      StartedOk(ps, t, w, n, hd, fl, sl, k, page, mem[page]);
      StartedBlocks(ps, start, t, w, n, hd, k, page, mem[page]);
      sl := sl[k := [page]];
    }

    method NewSlabPage(shift: nat, ghost k: nat) returns (page: int, c: nat)
      requires Valid() && shift == MIN_SHIFT + k && k < |sl| && sl[k] == []
      modifies desc, mem, `hd, `fl, `sl
      ensures Valid()
      ensures page == NULL <==> forall a :: !FreeSpan(old(desc[..]), n, old(hd), a, 1)
      ensures page == NULL ==> ValidBut(old(desc[..]), old(mem[..]), old(hd), NULL, 0)
      ensures page != NULL ==> 0 <= page < n && ValidBut(old(desc[..]), old(mem[..]), old(hd), page, c)
      ensures page != NULL ==> old(BlockOf(page, c)) == None
      ensures page != NULL ==> BlockOf(page, c) == Some(SizedBlock(ps, start, shift, page, c))
    {
      ghost var t0, w0, hd0 := desc[..], mem[..], hd;
      c := 0;
      page := AllocPages(1);
      if page != NULL {
        AllottedOk(ps, start, t0, w0, n, hd0, old(fl), sl, page, 1, desc[..], hd, fl);
        ghost var t := desc[..];
        c := SetUpPage(page, shift, k);
        NewPageBlocks(ps, start, t0, w0, hd0, t, hd, desc[..], mem[..], n, page, c,
          SizedBlock(ps, start, shift, page, c));
      }
    }

    // ------------------------------------------------------------- dfs_slab_alloc_locked

    /** The shift of the smallest chunk that holds the request. */
    static method ShiftFor(size: nat) returns (shift: nat)
      requires size >= 2
      ensures shift >= 1 && Pow2(shift - 1) < size <= Pow2(shift)
    {
      shift := 1;
      var s := (size - 1) / 2;
      while s != 0
        invariant shift >= 1 && s == High(size - 1, shift) && High(size - 1, shift - 1) != 0
        decreases s
      {
        HighNext(size - 1, shift);
        shift := shift + 1;
        s := s / 2;
      }
      HighIsZero(size - 1, shift);
      HighIsZero(size - 1, shift - 1);
    }

    /** Pages needed for a request. */
    static function PagesFor(size: nat, z: nat): (k: int)
      requires z > 0
    {
      size / z + if size % z != 0 then 1 else 0
    }

    /** Returns 0 or the address of a new block; i and c say which page and chunk it is. */
    method Alloc(size: nat) returns (p: int, ghost i: int, ghost c: nat)
      requires Valid()
      modifies desc, mem, `hd, `fl, `sl
      ensures Valid()
      ensures p == 0 ==> ValidBut(old(desc[..]), old(mem[..]), old(hd), NULL, 0)
      ensures p != 0 ==> 0 <= i < n && ValidBut(old(desc[..]), old(mem[..]), old(hd), i, c)
      ensures p != 0 ==> old(BlockOf(i, c)) == None
      ensures p != 0 ==> BlockOf(i, c).Some? && BlockOf(i, c).value.addr == p && BlockOf(i, c).value.size >= size
      ensures size > Pow2(ps) / 2 && p != 0 ==>
        var b := BlockOf(i, c).value.size; b % Pow2(ps) == 0 && size <= b < size + Pow2(ps)
      ensures size > Pow2(ps) / 2 ==> exists k: nat ::
        Rounded(size, Pow2(ps), k) && (p == 0 <==> forall a :: !FreeSpan(old(desc[..]), n, old(hd), a, k))
      ensures size <= Pow2(ps) / 2 ==> exists k: nat | k < |old(sl)| ::
        && LeastSlot(size, k)
        && (p == 0 <==> old(sl)[k] == [] && forall a :: !FreeSpan(old(desc[..]), n, old(hd), a, 1))
        && (p != 0 ==> BlockOf(i, c).value.size == Pow2(MIN_SHIFT + k))
    {
      hide BlockAt, OnlyAt, FreeSpan;
      var z := Pow2(ps);
      if size > z / 2 {
        PagesRounded(size, z);
        p, i := AllocRun(PagesFor(size, z));
        c := 0;
      } else {
        var shift := MIN_SHIFT;
        if size > Pow2(MIN_SHIFT) {
          shift := ShiftFor(size);
        }
        ShiftInRange(ps, size, shift);
        p, i, c := AllocChunk(shift, shift - MIN_SHIFT);
      }
    }

    method AllocRun(pages: nat) returns (p: int, ghost i: int)
      requires Valid() && pages >= 1
      modifies desc, `hd, `fl
      ensures Valid() && sl == old(sl)
      ensures p == 0 <==> forall a :: !FreeSpan(old(desc[..]), n, old(hd), a, pages)
      ensures p == 0 ==> ValidBut(old(desc[..]), old(mem[..]), old(hd), NULL, 0)
      ensures p != 0 ==> 0 <= i < n && ValidBut(old(desc[..]), old(mem[..]), old(hd), i, 0)
      ensures p != 0 ==> old(BlockOf(i, 0)) == None
      ensures p != 0 ==> BlockOf(i, 0) == Some(Block(p, pages * Pow2(ps)))
    {
      ghost var t, hd0 := desc[..], hd;
      var page := AllocPages(pages);
      i := page;
      if page == NULL { return 0, i; }
      AllottedOk(ps, start, t, mem[..], n, hd0, old(fl), sl, page, pages, desc[..], hd, fl);
      MulMono(0, page, Pow2(ps));
      p := start + page * Pow2(ps);
    }

    /** Takes a chunk of the first page of a slot that is not empty.  That page always has a
        free chunk, so the search never moves on to the next page, let alone to the slot. */
    method TakeChunk(page: int, shift: nat, ghost k: nat) returns (c: nat)
      requires Valid() && k < |sl| && |sl[k]| > 0 && page == sl[k][0] && shift == MIN_SHIFT + k
      modifies desc, mem, `sl
      ensures 0 <= page < n && ValidBut(old(desc[..]), old(mem[..]), old(hd), page, c)
      ensures old(BlockOf(page, c)) == None && BlockOf(page, c) == Some(SizedBlock(ps, start, shift, page, c))
    {
      if shift < ExactShift(ps) {
        c := TakeSmall(page, k);
      } else if shift == ExactShift(ps) {
        c := TakeExact(page, k);
      } else {
        c := TakeBig(page, shift, k);
      }
    }

    /** The slot's own link tells whether its list is empty. */
    lemma SlotLink(k: nat)
      requires Valid() && k < |sl|
      ensures var node := n + 1 + k; var page := desc[node].next;
              && 0 <= page < desc.Length
              && (desc[page].next != page <==> sl[k] != [])
              && (sl[k] != [] ==> page == sl[k][0])
    {
      assert SlotOk(ps, desc[..], n, sl[k], k);
      if |sl[k]| > 0 { FirstOfSlot(ps, desc[..], mem[..], n, sl, k); }
    }

    method AllocChunk(shift: nat, ghost k: nat) returns (p: int, ghost i: int, ghost c: nat)
      requires Valid() && shift == MIN_SHIFT + k && k < |sl|
      modifies desc, mem, `hd, `fl, `sl
      ensures Valid()
      ensures p == 0 <==> old(sl)[k] == [] && forall a :: !FreeSpan(old(desc[..]), n, old(hd), a, 1)
      ensures p == 0 ==> ValidBut(old(desc[..]), old(mem[..]), old(hd), NULL, 0)
      ensures p != 0 ==> 0 <= i < n && ValidBut(old(desc[..]), old(mem[..]), old(hd), i, c)
      ensures p != 0 ==> old(BlockOf(i, c)) == None
      ensures p != 0 ==> BlockOf(i, c) == Some(Block(p, Pow2(shift)))
    {
      SlotLink(k);
      var page := desc[n + 1 + shift - MIN_SHIFT].next;
      var chunk;
      if desc[page].next != page {
        chunk := TakeChunk(page, shift, k);
      } else {
        page, chunk := NewSlabPage(shift, k);
      }
      i, c := page, chunk;
      if page == NULL { return 0, i, c; }
      AddrPositive(start, page, chunk, Pow2(ps), Pow2(shift));
      p := start + page * Pow2(ps) + chunk * Pow2(shift);
    }

    // ------------------------------------------------------------- dfs_slab_free_locked

    /** Puts a full page that gives a chunk back at the front of its slot's list. */
    method Relink(page: int, node: int, tag: nat)
      requires 0 <= page < desc.Length && 0 <= node < desc.Length && 0 <= desc[node].next < desc.Length && page != node
      requires desc[node].next != page
      modifies desc
      ensures desc[..] == Pushed(old(desc[..]), node, page, tag)
    {
      desc[page] := desc[page].(next := desc[node].next);
      desc[node] := desc[node].(next := page);
      desc[page] := desc[page].(prev := node, tag := tag);
      var next := desc[page].next;
      desc[next] := desc[next].(prev := page, tag := tag);
    }

    /** The bit of chunk c was cleared, and the page still has a chunk in use: nothing is left to do. */
    ghost method KeepPage(page: int, k: nat, c: nat, t: seq<Page>, w: seq<seq<nat>>)
      requires StateOk(ps, t, w, n, hd, fl, sl) && k < |sl| && 0 <= page < n && t[page].tag != PAGE
      requires ShiftOf(ps, t[page]) == MIN_SHIFT + k
      requires FirstChunk(ps, t[page]) <= c < Chunks(ps, MIN_SHIFT + k)
      requires t[page].tag == SMALL ==> c / WORD_BITS < |w[page]|
      requires Giving(ps, t, w, n, k, page, c, desc[..], mem[..])
      requires var q, v := MarkedPage(t[page], c, false), MarkedWords(t[page], w[page], c, false);
               ShiftOf(ps, q) <= ps && SomeUsed(ps, q, v)
      modifies `sl
      ensures StateOk(ps, desc[..], mem[..], n, hd, fl, sl)
      ensures OnlyAt(ps, start, t, w, hd, desc[..], mem[..], hd, n, page, c)
      ensures BlockAt(ps, start, desc[..], mem[..], n, hd, page, c) == None
    {
      var s := sl;
      if t[page].next == NULL { sl := sl[k := [page] + sl[k]]; }
      GaveUsed(ps, start, t, w, n, hd, fl, s, k, page, c, desc[..], mem[..], sl);
    }

    /** Hands an emptied slab page back to the page allocator. */
    method HandBack(page: int, ghost k: nat, ghost c: nat, ghost t: seq<Page>, ghost w: seq<seq<nat>>)
      requires StateOk(ps, t, w, n, hd, fl, sl) && k < |sl| && 0 <= page < n && t[page].tag != PAGE
      requires ShiftOf(ps, t[page]) == MIN_SHIFT + k
      requires FirstChunk(ps, t[page]) <= c < Chunks(ps, MIN_SHIFT + k)
      requires t[page].tag == SMALL ==> c / WORD_BITS < |w[page]|
      requires Giving(ps, t, w, n, k, page, c, desc[..], mem[..])
      requires var q, v := MarkedPage(t[page], c, false), MarkedWords(t[page], w[page], c, false);
               ShiftOf(ps, q) <= ps && !SomeUsed(ps, q, v)
      modifies desc, `hd, `fl, `sl
      ensures StateOk(ps, desc[..], mem[..], n, hd, fl, sl)
      ensures OnlyAt(ps, start, t, w, old(hd), desc[..], mem[..], hd, n, page, c)
      ensures BlockAt(ps, start, desc[..], mem[..], n, hd, page, c) == None
    {
      hide BlockAt, OnlyAt, Pow2, Laid, Released;
      SlabPageFacts(ps, t, w, n, sl, page);
      if t[page].next == NULL { FullLosesOne(ps, t[page], w[page], c); }
      ghost var i: nat :| i < |sl[k]| && sl[k][i] == page;
      StillOnSlot(ps, t, w, n, hd, fl, sl, k, i, page, MarkedPage(t[page], c, false));
      ghost var hd0, fl0, s := hd, fl, sl;
      FreePages(page, 1, n + 1 + k, sl[k], i);
      sl := sl[k := sl[k][..i] + sl[k][i+1..]];
      GaveLast(ps, start, t, w, n, hd0, fl0, s, k, i, page, c, desc[..], hd, fl);
    }

    /** The relinking common to the three layouts. */
    method RelinkIfFull(page: int, full: bool, shift: nat, tag: nat, ghost k: nat)
      requires Valid() && k < |sl| && 0 <= page < n && shift == MIN_SHIFT + k && tag == desc[page].tag
      requires full <==> desc[page].next == NULL
      modifies desc
      ensures 0 <= old(desc[n+1+k].next) < desc.Length
      ensures desc[..] == if full then Pushed(old(desc[..]), n + 1 + k, page, tag) else old(desc[..])
      ensures desc[page].slab == old(desc[page].slab)
    {
      assert SlotOk(ps, desc[..], n, sl[k], k);
      if full {
        SlotOfFull(ps, desc[..], mem[..], n, sl, k, page);
        RelinkThenClear(desc[..], n + 1 + k, page, tag, desc[page].slab);
        Relink(page, n + 1 + shift - MIN_SHIFT, tag);
      } else if |sl[k]| > 0 {
        LinkFacts(desc[..], n, n + 1 + k, sl[k], 0);
      }
    }

    /** Relinks the page if it is full and clears the chunk's bit; says whether a chunk is still in use. */
    method ClearExact(page: int, c: nat, ghost k: nat) returns (used: bool)
      requires Valid() && 0 <= page < n && desc[page].tag == EXACT && c < WORD_BITS && k == ExactShift(ps) - MIN_SHIFT
      modifies desc
      ensures Giving(ps, old(desc[..]), mem[..], n, k, page, c, desc[..], mem[..])
      ensures var (p, w) := (old(desc[page]), mem[page]); var q := MarkedPage(p, c, false);
              ShiftOf(ps, q) <= ps && (used <==> SomeUsed(ps, q, MarkedWords(p, w, c, false)))
    {
      hide Laid, Giving, ClearBit, SlotOk;
      ghost var t, w := desc[..], mem[..];
      SlabPageFacts(ps, t, w, n, sl, page);
      ExactChunks(ps);
      ExactFull(ps, t[page], w[page]);
      RelinkIfFull(page, desc[page].slab == WORD_BUSY, ExactShift(ps), EXACT, k);
      ghost var u := desc[..];
      desc[page] := desc[page].(slab := ClearBit(desc[page].slab, c));
      ExactMarked(ps, t[page], w[page], c, false);
      GivingSteps(ps, t, w, n, sl, k, page, c, u, desc[..], w);
      used := desc[page].slab != 0;
    }

    method ClearBig(page: int, c: nat, shift: nat, ghost k: nat) returns (used: bool)
      requires Valid() && 0 <= page < n && desc[page].tag == BIG
      requires shift == Low(desc[page].slab, 4) == MIN_SHIFT + k && k < |sl| && c < Chunks(ps, shift)
      modifies desc
      ensures Giving(ps, old(desc[..]), mem[..], n, k, page, c, desc[..], mem[..])
      ensures var (p, w) := (old(desc[page]), mem[page]); var q := MarkedPage(p, c, false);
              ShiftOf(ps, q) <= ps && (used <==> SomeUsed(ps, q, MarkedWords(p, w, c, false)))
    {
      hide RunsOk, Pow2, ClearBit;
      ghost var t, w := desc[..], mem[..];
      SlabPageFacts(ps, t, w, n, sl, page);
      RelinkIfFull(page, desc[page].next == NULL, shift, BIG, k);
      ghost var u := desc[..];
      desc[page] := desc[page].(slab := ClearBit(desc[page].slab, MAP_SHIFT + c));
      BigMarked(ps, t[page], w[page], c, false);
      GivingSteps(ps, t, w, n, sl, k, page, c, u, desc[..], w);
      used := High(desc[page].slab, MAP_SHIFT) != 0;
    }

    /** The test after a bit was cleared: is a chunk behind the bitmap still in use? */
    static method AnyUsed(w: seq<nat>, first: nat) returns (used: bool)
      requires |w| > 0
      ensures used <==> AnyNotZero(w, first)
    {
      if High(w[0], first) != 0 { return true; }
      var i := 1;
      while i < |w|
        invariant 1 <= i <= |w| && forall j | 1 <= j < i :: w[j] == 0
      {
        if w[i] != 0 { return true; }
        i := i + 1;
      }
      return false;
    }

    method ClearSmall(page: int, c: nat, shift: nat, ghost k: nat) returns (used: bool)
      requires Valid() && 0 <= page < n && desc[page].tag == SMALL
      requires shift == Low(desc[page].slab, 4) == MIN_SHIFT + k && k < |sl| && c < Chunks(ps, shift)
      modifies desc, mem
      ensures c / WORD_BITS < |old(mem[page])|
      ensures Giving(ps, old(desc[..]), old(mem[..]), n, k, page, c, desc[..], mem[..])
      ensures var (p, w) := (old(desc[page]), old(mem[page])); var q := MarkedPage(p, c, false);
              ShiftOf(ps, q) <= ps && (used <==> SomeUsed(ps, q, MarkedWords(p, w, c, false)))
    {
      hide RunsOk, Pow2, ClearBit;
      ghost var t, w := desc[..], mem[..];
      SlabPageFacts(ps, t, w, n, sl, page);
      SmallCleared(ps, t[page], w[page], c);
      RelinkIfFull(page, desc[page].next == NULL, shift, SMALL, k);
      ghost var u := desc[..];
      var m := c / WORD_BITS;
      mem[page] := mem[page][m := ClearBit(mem[page][m], c % WORD_BITS)];
      assert u[page := u[page].(slab := t[page].slab)] == u;
      GivingSteps(ps, t, w, n, sl, k, page, c, u, desc[..], mem[..]);
      used := AnyUsed(mem[page], MapChunks(ps, shift));
    }

    /** Clears the bit of chunk c, in the layout of the page. */
    method ClearChunk(page: int, c: nat, ghost k: nat) returns (used: bool)
      requires Valid() && 0 <= page < n && desc[page].tag != PAGE && InUse(ps, desc[page], mem[page], c)
      requires ShiftOf(ps, desc[page]) == MIN_SHIFT + k && k < |sl|
      modifies desc, mem
      ensures old(desc[page]).tag == SMALL ==> c / WORD_BITS < |old(mem[page])|
      ensures Giving(ps, old(desc[..]), old(mem[..]), n, k, page, c, desc[..], mem[..])
      ensures var (p, w) := (old(desc[page]), old(mem[page])); var q := MarkedPage(p, c, false);
              ShiftOf(ps, q) <= ps && (used <==> SomeUsed(ps, q, MarkedWords(p, w, c, false)))
    {
      hide SomeUsed, MarkedPage, MarkedWords, Pow2, Bit;
      SlabPageFacts(ps, desc[..], mem[..], n, sl, page);
      ExactChunks(ps);
      if desc[page].tag == SMALL {
        used := ClearSmall(page, c, Low(desc[page].slab, 4), k);
      } else if desc[page].tag == EXACT {
        used := ClearExact(page, c, k);
      } else {
        used := ClearBig(page, c, Low(desc[page].slab, 4), k);
      }
    }

    /** Gives chunk c of a slab page back. */
    method Give(page: int, c: nat)
      requires Valid() && 0 <= page < n && desc[page].tag != PAGE && InUse(ps, desc[page], mem[page], c)
      modifies desc, mem, `hd, `fl, `sl
      ensures if c < old(FirstChunk(ps, desc[page])) then Spoiled(old(desc[..]), old(mem[..]), page, c)
              else ValidBut(old(desc[..]), old(mem[..]), old(hd), page, c) && BlockOf(page, c) == None
    {
      hide BlockAt, OnlyAt, Pow2, Laid;
      ghost var t, w := desc[..], mem[..];
      SlabPageFacts(ps, t, w, n, sl, page);
      ghost var k := ShiftOf(ps, t[page]) - MIN_SHIFT;
      var used := ClearChunk(page, c, k);
      if used {
        if c < FirstChunk(ps, t[page]) {
          OwnGiven(ps, t, w, n, hd, fl, sl, k, page, c, desc[..], mem[..]);
        } else {
          KeepPage(page, k, c, t, w);
        }
      } else {
        UnusedNotOwn(ps, t[page], w[page], c);
        HandBack(page, k, c, t, w);
      }
    }

    /** The tables are t, w after the steps of a free at the bitmap's own chunk c of page x, and no lists
        make them sound again. */
    ghost predicate Spoiled(t: seq<Page>, w: seq<seq<nat>>, x: int, c: nat)
      reads this, desc, mem
    {
      && PageShift(ps) && 0 <= x < n < |t| && |w| == n && t[x].tag == SMALL && c / WORD_BITS < |w[x]|
      && MIN_SHIFT <= ShiftOf(ps, t[x]) && n + 1 + ShiftOf(ps, t[x]) - MIN_SHIFT < |t|
      && Giving(ps, t, w, n, ShiftOf(ps, t[x]) - MIN_SHIFT, x, c, desc[..], mem[..])
      && !Sound(ps, desc[..], mem[..], n)
    }

    ghost predicate SpoiledAt(t: seq<Page>, w: seq<seq<nat>>, x: int, c: nat, p: int)
      reads this, desc, mem
    {
      Spoiled(t, w, x, c) && p == start + x * Pow2(ps) + c * Pow2(ShiftOf(ps, t[x]))
    }

    ghost predicate SpoiledBy(t: seq<Page>, w: seq<seq<nat>>, p: int)
      reads this, desc, mem
    {
      exists x: int, c: nat :: SpoiledAt(t, w, x, c, p)
    }

    method GiveRun(page: int)
      requires Valid() && 0 <= page < n && desc[page].tag == PAGE && hd[page] == page
      modifies desc, `hd, `fl
      ensures ValidBut(old(desc[..]), old(mem[..]), old(hd), page, 0) && BlockOf(page, 0) == None
    {
      ghost var t, hd0, fl0 := desc[..], hd, fl;
      RunLength(t, n, hd, fl, page);
      var pages := desc[page].slab % PAGE_START;
      FreePages(page, pages, 0, [], 0);
      if t[page].next == NULL {
        ReleasedOk(ps, start, t, mem[..], n, hd0, fl0, sl, page, pages, desc[..], hd, fl);
      } else {
        ghost var i: nat :| i < |fl0| && fl0[i] == page;
        RelistedOk(ps, start, t, mem[..], n, hd0, fl0, sl, i, desc[..], hd, fl);
      }
    }

    /** p leads to a chunk that a bitmap itself takes up. */
    ghost predicate OwnChunk(p: int)
      requires Valid() && start <= p < start + n * Pow2(ps)
      reads this, desc, mem
    {
      PageInRange(start, p, Pow2(ps), n);
      var x := desc[(p - start) / Pow2(ps)];
      && x.tag == SMALL && ShiftOf(ps, x) <= ps && p % Pow2(ShiftOf(ps, x)) == 0
      && (p % Pow2(ps)) / Pow2(ShiftOf(ps, x)) < FirstChunk(ps, x)
    }

    method FreeChunk(p: int, page: int, shift: nat)
      requires Valid() && start <= p < start + n * Pow2(ps)
      requires 0 <= page < n && page == (p - start) / Pow2(ps) && desc[page].tag != PAGE
               && shift == ShiftOf(ps, desc[page])
      modifies desc, mem, `hd, `fl, `sl
      ensures if old(OwnChunk(p)) then SpoiledBy(old(desc[..]), old(mem[..]), p)
              else ValidWithout(old(desc[..]), old(mem[..]), old(hd), p)
    {
      hide BlockAt, OnlyAt, OnlyGone, Giving, Sound, MarkedPage, MarkedWords, Pow2, Bit, Laid;
      ghost var t, w, hd0 := desc[..], mem[..], hd;
      SlabPageFacts(ps, t, w, n, sl, page);
      if p % Pow2(shift) != 0 {
        NoChunkAt(ps, start, t, w, hd, n, page, p);
        return;
      }
      ChunkPointer(ps, start, t, w, hd, n, page, p);
      ghost var own := OwnChunk(p);
      var c := (p % Pow2(ps)) / Pow2(shift);
      var used := if desc[page].tag == SMALL then Bit(mem[page][c / WORD_BITS], c % WORD_BITS)
                  else if desc[page].tag == EXACT then Bit(desc[page].slab, c)
                  else Bit(desc[page].slab, MAP_SHIFT + c);
      assert own <==> c < FirstChunk(ps, t[page]);
      assert used <==> Used(ps, t[page], w[page], c);
      if used {
        Give(page, c);
        if own {
          assert SpoiledAt(t, w, page, c, p);
        } else {
          GoneOne(ps, start, t, w, hd0, desc[..], mem[..], hd, n, page, c, p);
        }
      } else {
        NoChunkAt(ps, start, t, w, hd, n, page, p);
      }
    }

    method FreeRun(p: int, page: int)
      requires Valid() && start <= p < start + n * Pow2(ps)
      requires 0 <= page < n && page == (p - start) / Pow2(ps) && desc[page].tag == PAGE
      modifies desc, `hd, `fl
      ensures ValidWithout(old(desc[..]), old(mem[..]), old(hd), p)
    {
      ghost var t, w, hd0 := desc[..], mem[..], hd;
      PageChecks(ps, start, t, w, n, hd, fl, sl, page);
      if p % Pow2(ps) != 0 || desc[page].slab == PAGE_FREE || desc[page].slab == PAGE_BUSY {
        NoRunAt(ps, start, t, w, hd, n, page, p);
        return;
      }
      ChunkOfAddr(ps, start, p, page, ps);
      GiveRun(page);
      GoneRun(ps, start, t, w, hd0, desc[..], hd, n, page, p);
    }

    /** Frees the block at p.  Pointers outside the pool, at no chunk or page, or at a free chunk are
        refused, and nothing changes; at the head of a free run the code lists that run anew.  Tables
        that are sound again come out if and only if p is not at a chunk that a bitmap itself takes up. */
    method Free(p: int)
      requires Valid() && (start <= p <= end ==> p < start + n * Pow2(ps))
      modifies desc, mem, `hd, `fl, `sl
      ensures Sound(ps, desc[..], mem[..], n) <==> !(start <= p <= end && old(OwnChunk(p)))
      ensures if start <= p <= end && old(OwnChunk(p)) then SpoiledBy(old(desc[..]), old(mem[..]), p)
              else ValidWithout(old(desc[..]), old(mem[..]), old(hd), p)
    {
      if p < start || p > end {
        NoBlockOutside(ps, start, end, desc[..], mem[..], n, hd, fl, sl, p);
        return;
      }
      PageInRange(start, p, Pow2(ps), n);
      var page := (p - start) / Pow2(ps);
      if desc[page].tag != PAGE {
        FreeChunk(p, page, if desc[page].tag == EXACT then ExactShift(ps) else Low(desc[page].slab, 4));
      } else {
        FreeRun(p, page);
      }
    }
  }

  lemma AlignedUp(a: int, z: int)
    requires z > 0 && a > 0
    ensures var b := Pool.AlignUp(a, z); a <= b < a + z && b % z == 0
  {
    var q, o := (a + z - 1) / z, (a + z - 1) % z;
    assert a + z - 1 == q * z + o;
    DivUnique(q * z, z, q, 0);
  }

  /** n pages fit where there is room for n or more. */
  lemma RoomFor(room: int, l: int, z: int, n: int)
    requires z > 0 && l >= z && room == l / z && n <= room
    ensures room >= 1 && n * z <= l
  {
    assert l == room * z + l % z;
    if room < 1 { MulMono(room, 0, z); }
    MulMono(n, room, z);
  }

  /** Pages behind the descriptors are no more than there are descriptors. */
  lemma RoomWithin(p: int, limit: int, z: int, pages: int, base: int, begin: int)
    requires z > 0 && p <= limit && base >= p + 24 && pages == (limit - p) / (z + 24)
    requires base + pages * 24 <= begin <= limit
    ensures (limit - begin) / z <= pages
  {
    var room := (limit - begin) / z;
    NoMore(pages, limit - p, z + 24);
    assert (pages + 1) * (z + 24) == (pages + 1) * z + pages * 24 + 24;
    assert limit - begin == room * z + (limit - begin) % z;
    if room > pages { MulMono(pages + 1, room, z); }
  }

  lemma InitSizes(p: int, limit: int, size: int, z: int, pages: int, base: int, begin: int)
    requires z > 0 && size == limit - p && 0 < p <= limit < PAGE_START && z + 24 <= size
    requires base >= p + 24
    requires pages == size / (z + 24) && begin == Pool.AlignUp(base + pages * 24, z) && begin + z <= limit
    ensures var room := (limit - begin) / z; var n := if pages - room > 0 then room else pages;
            && 1 <= n <= pages && n + 1 < PAGE_START
            && begin > 0 && begin % z == 0 && begin + n * z <= limit && base + n * 24 <= begin
            && begin + (n + 1) * z > limit && 0 <= begin - (base + pages * 24) < z
  {
    hide Pool.AlignUp;
    RoomFor(pages, size, z + 24, pages);
    AlignedUp(base + pages * 24, z);
    var room := (limit - begin) / z;
    RoomWithin(p, limit, z, pages, base, begin);
    RoomFor(room, limit - begin, z, room);
    NoMore(room, limit - begin, z);
    PagesFew(pages, z, size);
  }

  lemma PagesFew(pages: int, z: int, size: int)
    requires z > 0 && pages >= 0 && pages * (z + 24) <= size
    ensures pages * 24 <= size
  {
    assert pages * (z + 24) == pages * z + pages * 24;
    MulMono(0, pages, z);
  }

  lemma NoMore(room: int, l: int, z: int)
    requires z > 0 && l >= 0 && room == l / z
    ensures (room + 1) * z > l
  {
    assert l == room * z + l % z;
    assert (room + 1) * z == room * z + z;
  }

  /** k pages of z bytes are the fewest that hold the size. */
  predicate Rounded(size: nat, z: nat, k: int) { (k - 1) * z < size <= k * z }

  lemma PagesRounded(size: nat, z: nat)
    requires z > 0 && size > 0
    ensures var k := Pool.PagesFor(size, z);
            k >= 1 && Rounded(size, z, k) && k * z % z == 0 && size <= k * z < size + z
  {
    var q, r := size / z, size % z;
    assert size == q * z + r;
    assert (q + 1) * z == q * z + z && (q - 1) * z == q * z - z;
    if q <= 0 { MulMono(q, 0, z); }
    DivUnique(q * z, z, q, 0); DivUnique((q + 1) * z, z, q + 1, 0);
  }

  /** There is just one such number of pages. */
  lemma RoundedOnce(size: nat, z: nat, k: int, m: int)
    requires z > 0 && Rounded(size, z, k) && Rounded(size, z, m)
    ensures k == m
  {
    if k < m { MulMono(k, m - 1, z); }
    if m < k { MulMono(m, k - 1, z); }
  }

  /** Slot k is the first whose chunks hold the size. */
  predicate LeastSlot(size: nat, k: nat) {
    (k == 0 || Pow2(MIN_SHIFT + k - 1) < size) && size <= Pow2(MIN_SHIFT + k)
  }

  /** A request of at most half a page has one of the slots' shifts. */
  lemma ShiftInRange(ps: nat, size: nat, shift: nat)
    requires PageShift(ps) && size <= Pow2(ps) / 2
    requires if size > Pow2(MIN_SHIFT) then shift >= 1 && Pow2(shift - 1) < size <= Pow2(shift) else shift == MIN_SHIFT
    ensures MIN_SHIFT <= shift < ps && size <= Pow2(shift)
    ensures shift == MIN_SHIFT || Pow2(shift - 1) < size
  {
    if size > Pow2(MIN_SHIFT) {
      if shift < MIN_SHIFT { Pow2Mono(shift, MIN_SHIFT); }
      if shift >= ps { Pow2Mono(ps - 1, shift - 1); }
    }
  }

  lemma AddrPositive(start: int, page: int, chunk: nat, z: int, m: int)
    requires start > 0 && page >= 0 && z > 0 && m > 0
    ensures start + page * z + chunk * m > 0
  {
    MulMono(0, page, z);
    MulMono(0, chunk, m);
  }
}
