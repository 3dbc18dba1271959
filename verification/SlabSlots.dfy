/** Slot lists: for each chunk size, the slab pages that have both a used and a free chunk. */
module SlabSlots {
  import opened SlabTable
  import opened SlabChunks

  ghost predicate PageChunksOk(ps: nat, t: seq<Page>, mem: seq<seq<nat>>, i: int)
    requires PageShift(ps) && 0 <= i < |t| && i < |mem|
  {
    t[i].tag != PAGE ==>
      && Laid(ps, t[i], mem[i])
      && SomeUsed(ps, t[i], mem[i])
      && (t[i].next != NULL <==> SomeFree(ps, t[i], mem[i]))
  }

  ghost predicate SlotMember(ps: nat, t: seq<Page>, i: int, k: nat)
    requires PageShift(ps) && 0 <= i < |t|
  {
    t[i].tag != PAGE && t[i].next != NULL && ShiftOf(ps, t[i]) == MIN_SHIFT + k
  }

  /** Slot k lists exactly the partly used pages of its chunk size. */
  ghost predicate SlotOk(ps: nat, t: seq<Page>, n: nat, l: seq<int>, k: nat)
    requires PageShift(ps) && n <= |t|
  {
    && Chain(t, n, n + 1 + k, l)
    && (forall i | 0 <= i < n :: i in l <==> SlotMember(ps, t, i, k))
  }

  ghost predicate SlabsOk(ps: nat, t: seq<Page>, mem: seq<seq<nat>>, n: nat, sl: seq<seq<int>>) {
    && PageShift(ps) && |sl| == ps - MIN_SHIFT && |t| == n + 1 + |sl| && |mem| == n
    && (forall i | 0 <= i < n :: PageChunksOk(ps, t, mem, i))
    && (forall k | 0 <= k < |sl| :: SlotOk(ps, t, n, sl[k], k))
  }

  ghost predicate SameSlab(t: seq<Page>, r: seq<Page>, j: int)
    requires 0 <= j < |t| && |r| == |t|
  {
    r[j].slab == t[j].slab && r[j].tag == t[j].tag && (r[j].next == NULL <==> t[j].next == NULL)
  }

  /** All pages of a slot have the layout of its size. */
  lemma SlotTag(ps: nat, t: seq<Page>, mem: seq<seq<nat>>, n: nat, sl: seq<seq<int>>, k: nat, i: nat)
    requires SlabsOk(ps, t, mem, n, sl) && k < |sl| && i < |sl[k]|
    ensures var x := sl[k][i]; 0 <= x < n && SlotMember(ps, t, x, k) && t[x].tag == TagOf(ps, MIN_SHIFT + k)
  {
    assert SlotOk(ps, t, n, sl[k], k);
    var x := sl[k][i];
    assert x in sl[k];
    assert PageChunksOk(ps, t, mem, x);
  }

  lemma OneSlot(ps: nat, t: seq<Page>, mem: seq<seq<nat>>, n: nat, sl: seq<seq<int>>, k: nat, g: nat, x: int)
    requires SlabsOk(ps, t, mem, n, sl) && k < |sl| && g < |sl| && k != g && x in sl[k]
    ensures x !in sl[g]
  {
    assert SlotOk(ps, t, n, sl[k], k) && SlotOk(ps, t, n, sl[g], g);
    var i: nat :| i < |sl[k]| && sl[k][i] == x;
    SlotTag(ps, t, mem, n, sl, k, i);
  }

  /** A list no node of which was relinked. */
  lemma OtherSlot(ps: nat, t: seq<Page>, r: seq<Page>, mem: seq<seq<nat>>, n: nat, sl: seq<seq<int>>, x: int, k: nat,
                  g: nat)
    requires SlabsOk(ps, t, mem, n, sl) && k < |sl| && g < |sl| && k != g && x !in sl[g] && |r| == |t|
    requires forall j | 0 <= j < |t| && j != x && j != n + 1 + k && j !in sl[k] ::
      r[j].next == t[j].next && r[j].prev == t[j].prev
    requires 0 <= x < n
    ensures Chain(r, n, n + 1 + g, sl[g])
  {
    assert SlotOk(ps, t, n, sl[g], g) && SlotOk(ps, t, n, sl[k], k);
    forall c | 0 <= c < |sl[g]| ensures r[sl[g][c]].next == t[sl[g][c]].next && r[sl[g][c]].prev == t[sl[g][c]].prev {
      assert sl[g][c] in sl[g];
      OneSlot(ps, t, mem, n, sl, g, k, sl[g][c]);
    }
    assert n + 1 + g !in sl[k];
    ChainFrame(t, r, n, n + 1 + g, sl[g]);
  }

  /** One page x changed, and with it only slot k. */
  lemma SlotStep(ps: nat, t: seq<Page>, mem: seq<seq<nat>>, r: seq<Page>, mem': seq<seq<nat>>,
                 n: nat, sl: seq<seq<int>>, k: nat, l: seq<int>, x: nat)
    requires SlabsOk(ps, t, mem, n, sl) && k < |sl| && x < n && |r| == |t| && |mem'| == n
    requires forall j | 0 <= j < n && j != x :: SameSlab(t, r, j) && mem'[j] == mem[j]
    requires forall j | 0 <= j < |t| && j != x && j != n + 1 + k && j !in sl[k] ::
      r[j].next == t[j].next && r[j].prev == t[j].prev
    requires PageChunksOk(ps, r, mem', x)
    requires Chain(r, n, n + 1 + k, l)
    requires x in l <==> SlotMember(ps, r, x, k)
    requires forall j | 0 <= j < n && j != x :: j in l <==> j in sl[k]
    requires forall g: nat | g < |sl| && g != k :: x !in sl[g] && !SlotMember(ps, r, x, g)
    ensures SlabsOk(ps, r, mem', n, sl[k := l])
  {
    forall i | 0 <= i < n ensures PageChunksOk(ps, r, mem', i) {
      assert PageChunksOk(ps, t, mem, i);
      if i != x {
        assert SameSlab(t, r, i);
        if t[i].tag != PAGE { SameLaid(ps, t[i], r[i], mem[i]); }
      }
    }
    var sl' := sl[k := l];
    forall g | 0 <= g < |sl| ensures SlotOk(ps, r, n, sl'[g], g) {
      assert SlotOk(ps, t, n, sl[g], g);
      if g != k { OtherSlot(ps, t, r, mem, n, sl, x, k, g); }
      forall i | 0 <= i < n ensures i in sl'[g] <==> SlotMember(ps, r, i, g) {
        if i != x { assert SameSlab(t, r, i); }
      }
    }
  }

  /** The links of a descriptor do not matter to what its words record. */
  lemma SameLaid(ps: nat, p: Page, q: Page, w: seq<nat>)
    requires PageShift(ps) && Laid(ps, p, w) && q.slab == p.slab && q.tag == p.tag
    ensures Laid(ps, q, w)
    ensures SomeUsed(ps, q, w) == SomeUsed(ps, p, w)
    ensures SomeFree(ps, q, w) == SomeFree(ps, p, w)
  {
    assert forall c: nat :: Used(ps, q, w, c) == Used(ps, p, w, c);
    if c: nat :| FirstChunk(ps, p) <= c < Chunks(ps, ShiftOf(ps, p)) && Used(ps, p, w, c) {
      UsedChunk(ps, q, w, c);
    }
    if c: nat :| c < Chunks(ps, ShiftOf(ps, p)) && !Used(ps, p, w, c) { FreeChunk(ps, q, w, c); }
  }

  // ------------------------------------------------- what happens to a page's listing

  /** A partly used page stays partly used. */
  lemma StayListed(ps: nat, t: seq<Page>, mem: seq<seq<nat>>, n: nat, sl: seq<seq<int>>, k: nat, x: nat, q: Page,
                   v: seq<nat>)
    requires SlabsOk(ps, t, mem, n, sl) && k < |sl| && x < n && x in sl[k]
    requires q.next == t[x].next && q.prev == t[x].prev && q.tag == t[x].tag && ShiftOf(ps, q) == ShiftOf(ps, t[x])
    requires Laid(ps, q, v) && SomeUsed(ps, q, v) && SomeFree(ps, q, v)
    ensures SlabsOk(ps, t[x := q], mem[x := v], n, sl)
  {
    var r := t[x := q];
    assert SlotOk(ps, t, n, sl[k], k);
    forall g: nat | g < |sl| && g != k ensures x !in sl[g] { OneSlot(ps, t, mem, n, sl, k, g, x); }
    ChainFrame(t, r, n, n + 1 + k, sl[k]);
    SlotStep(ps, t, mem, r, mem[x := v], n, sl, k, sl[k], x);
    assert sl[k := sl[k]] == sl;
  }

  /** The edits that take a page that became full off its list. */
  function Filled(t: seq<Page>, x: int, q: Page): (r: seq<Page>)
    requires 0 <= x < |t| && q.next == t[x].next && q.prev == t[x].prev
    requires 0 <= q.prev < |t| && 0 <= q.next < |t| && q.prev != x
    ensures |r| == |t|
  {
    Unlinked(t[x := q], x)[x := Page(q.slab, NULL, NULL, q.tag)]
  }

  lemma FilledChain(t: seq<Page>, n: nat, s: int, l: seq<int>, c: nat, x: nat, q: Page)
    requires Chain(t, n, s, l) && c < |l| && l[c] == x && x < n
    requires q.next == t[x].next && q.prev == t[x].prev
    ensures 0 <= q.prev < |t| && 0 <= q.next < |t| && q.prev != x
    ensures Chain(Filled(t, x, q), n, s, l[..c] + l[c+1..])
  {
    LinkFacts(t, n, s, l, c);
    var u := t[x := q];
    ChainFrame(t, u, n, s, l);
    ChainUnlink(u, n, s, l, c);
    var m := l[..c] + l[c+1..];
    InRemoved(l, c, x);
    forall i | 0 <= i < |m| ensures m[i] != x { assert m[i] in m; }
    ChainFrame(Unlinked(u, x), Filled(t, x, q), n, s, m);
  }

  lemma FilledSame(ps: nat, t: seq<Page>, mem: seq<seq<nat>>, n: nat, sl: seq<seq<int>>, k: nat, c: nat, x: nat,
                   q: Page)
    requires SlabsOk(ps, t, mem, n, sl) && k < |sl| && c < |sl[k]| && sl[k][c] == x && x < n
    requires q.next == t[x].next && q.prev == t[x].prev && q.tag == t[x].tag
    requires 0 <= q.prev < |t| && 0 <= q.next < |t| && q.prev != x
    ensures forall j | 0 <= j < n && j != x :: SameSlab(t, Filled(t, x, q), j)
    ensures forall j | 0 <= j < |t| && j != x && j != n + 1 + k && j !in sl[k] :: Filled(t, x, q)[j] == t[j]
    ensures Filled(t, x, q)[x] == Page(q.slab, NULL, NULL, q.tag)
  {
    SlotNeighbours(ps, t, mem, n, sl, k, c);
  }

  lemma LeaveList(ps: nat, t: seq<Page>, mem: seq<seq<nat>>, n: nat, sl: seq<seq<int>>, k: nat, c: nat, x: nat,
                  q: Page, v: seq<nat>)
    requires SlabsOk(ps, t, mem, n, sl) && k < |sl| && c < |sl[k]| && sl[k][c] == x && x < n
    requires q.next == t[x].next && q.prev == t[x].prev && q.tag == t[x].tag && ShiftOf(ps, q) == ShiftOf(ps, t[x])
    requires Laid(ps, q, v) && SomeUsed(ps, q, v) && !SomeFree(ps, q, v)
    ensures 0 <= q.prev < |t| && 0 <= q.next < |t| && q.prev != x
    ensures SlabsOk(ps, Filled(t, x, q), mem[x := v], n, sl[k := sl[k][..c] + sl[k][c+1..]])
  {
    hide Laid, Used;
    var l := sl[k];
    assert SlotOk(ps, t, n, l, k);
    FilledChain(t, n, n + 1 + k, l, c, x, q);
    FilledSame(ps, t, mem, n, sl, k, c, x, q);
    var m := l[..c] + l[c+1..];
    var r := Filled(t, x, q);
    forall j | 0 <= j < n ensures j in m <==> j != x && j in l { InRemoved(l, c, j); }
    SlotTag(ps, t, mem, n, sl, k, c);
    SameLaid(ps, q, r[x], v);
    forall g: nat | g < |sl| && g != k ensures x !in sl[g] { OneSlot(ps, t, mem, n, sl, k, g, x); }
    SlotStep(ps, t, mem, r, mem[x := v], n, sl, k, m, x);
  }

  /** The neighbours of a page on its slot list: pages of the same layout, or the slot. */
  lemma SlotNeighbours(ps: nat, t: seq<Page>, mem: seq<seq<nat>>, n: nat, sl: seq<seq<int>>, k: nat, c: nat)
    requires SlabsOk(ps, t, mem, n, sl) && k < |sl| && c < |sl[k]|
    requires 0 <= sl[k][c] < n
    ensures var x := sl[k][c]; var (p, q) := (t[x].prev, t[x].next);
            && (p == n + 1 + k || (0 <= p < n && p in sl[k] && t[p].tag == t[x].tag && t[p].next != NULL))
            && (q == n + 1 + k || (0 <= q < n && q in sl[k] && t[q].tag == t[x].tag && t[q].next != NULL))
  {
    assert SlotOk(ps, t, n, sl[k], k);
    LinkFacts(t, n, n + 1 + k, sl[k], c);
    SlotTag(ps, t, mem, n, sl, k, c);
    if c > 0 { SlotTag(ps, t, mem, n, sl, k, c - 1); }
    if c + 1 < |sl[k]| { SlotTag(ps, t, mem, n, sl, k, c + 1); }
  }

  /** The list with a page pushed in front: its links, and what other descriptors keep. */
  lemma PushedList(ps: nat, t: seq<Page>, mem: seq<seq<nat>>, n: nat, sl: seq<seq<int>>, k: nat, x: nat, q: Page)
    requires SlabsOk(ps, t, mem, n, sl) && k < |sl| && x < n
    requires t[x].next == NULL && ShiftOf(ps, q) == MIN_SHIFT + k && q.tag == TagOf(ps, MIN_SHIFT + k)
    ensures 0 <= t[n+1+k].next < |t| && x !in sl[k]
    ensures var r := Pushed(t[x := q], n + 1 + k, x, q.tag);
            && Chain(r, n, n + 1 + k, [x] + sl[k])
            && (forall j | 0 <= j < n && j != x :: SameSlab(t, r, j))
            && (forall j | 0 <= j < |t| && j != x && j != n + 1 + k && j !in sl[k] :: r[j] == t[j])
            && r[x].slab == q.slab && r[x].tag == q.tag && r[x].next != NULL
  {
    hide Laid, SomeUsed, SomeFree;
    var l, s := sl[k], n + 1 + k;
    assert SlotOk(ps, t, n, l, k);
    assert x !in l;
    var u := t[x := q];
    ChainFrame(t, u, n, s, l);
    ChainPush(u, n, s, l, x, q.tag);
    assert t[s].next == At(l, s, 0);
    if |l| > 0 {
      SlotTag(ps, t, mem, n, sl, k, 0);
      LinkFacts(t, n, s, l, 0);
      assert l[0] in l;
    }
  }

  /** A full page that gave a chunk back goes to the front of its list. */
  lemma JoinList(ps: nat, t: seq<Page>, mem: seq<seq<nat>>, n: nat, sl: seq<seq<int>>, k: nat, x: nat, q: Page,
                 v: seq<nat>)
    requires SlabsOk(ps, t, mem, n, sl) && k < |sl| && x < n
    requires t[x].next == NULL && ShiftOf(ps, q) == MIN_SHIFT + k && q.tag != PAGE && q.next == NULL
    requires Laid(ps, q, v) && SomeUsed(ps, q, v) && SomeFree(ps, q, v)
    ensures 0 <= t[n+1+k].next < |t|
    ensures SlabsOk(ps, Pushed(t[x := q], n + 1 + k, x, q.tag), mem[x := v], n, sl[k := [x] + sl[k]])
  {
    PushedList(ps, t, mem, n, sl, k, x, q);
    hide Chunks, MapChunks, SomeUsed, Used, Pushed, Chain;
    var r := Pushed(t[x := q], n + 1 + k, x, q.tag);
    SameLaid(ps, q, r[x], v);
    forall g: nat | g < |sl| && g != k ensures x !in sl[g] { assert SlotOk(ps, t, n, sl[g], g); }
    SlotStep(ps, t, mem, r, mem[x := v], n, sl, k, [x] + sl[k], x);
  }

  /** A laid-out page with a chunk in use and a free one. */
  ghost predicate PartlyUsed(ps: nat, q: Page, v: seq<nat>)
    requires PageShift(ps) && ShiftOf(ps, q) <= ps
  {
    Laid(ps, q, v) && SomeUsed(ps, q, v) && SomeFree(ps, q, v)
  }

  /** A new slab page becomes the only page of an empty list. */
  lemma StartList(ps: nat, t: seq<Page>, mem: seq<seq<nat>>, n: nat, sl: seq<seq<int>>, k: nat, x: nat, q: Page,
                  v: seq<nat>)
    requires SlabsOk(ps, t, mem, n, sl) && k < |sl| && x < n && |sl[k]| == 0
    requires t[x].tag == PAGE && ShiftOf(ps, q) == MIN_SHIFT + k && q.tag != PAGE
    requires q.next == n + 1 + k && q.prev == n + 1 + k
    requires PartlyUsed(ps, q, v)
    ensures SlabsOk(ps, t[x := q][n+1+k := t[n+1+k].(next := x)], mem[x := v], n, sl[k := [x]])
  {
    var s := n + 1 + k;
    assert SlotOk(ps, t, n, sl[k], k);
    var r := t[x := q][s := t[s].(next := x)];
    assert LinkAt(r, n, s, [x], 0);
    forall g: nat | g < |sl| && g != k ensures x !in sl[g] { assert SlotOk(ps, t, n, sl[g], g); }
    forall j | 0 <= j < n && j != x ensures SameSlab(t, r, j) {}
    SlotStep(ps, t, mem, r, mem[x := v], n, sl, k, [x], x);
  }

  /** Page runs come and go without touching the slab pages. */
  lemma KeptOk(ps: nat, t: seq<Page>, mem: seq<seq<nat>>, r: seq<Page>, n: nat, sl: seq<seq<int>>)
    requires SlabsOk(ps, t, mem, n, sl) && |r| == |t|
    requires forall j | n < j < |t| :: r[j] == t[j]
    requires forall j | 0 <= j < n && t[j].tag != PAGE :: r[j] == t[j]
    requires forall j | 0 <= j < n && t[j].tag == PAGE :: r[j].tag == PAGE
    ensures SlabsOk(ps, r, mem, n, sl)
  {
    forall i | 0 <= i < n ensures PageChunksOk(ps, r, mem, i) { assert PageChunksOk(ps, t, mem, i); }
    forall k | 0 <= k < |sl| ensures SlotOk(ps, r, n, sl[k], k) {
      assert SlotOk(ps, t, n, sl[k], k);
      forall c | 0 <= c < |sl[k]| ensures r[sl[k][c]] == t[sl[k][c]] { SlotTag(ps, t, mem, n, sl, k, c); }
      ChainFrame(t, r, n, n + 1 + k, sl[k]);
    }
  }

  /** A slab page of slot k, cut from its list, is handed back as a free page. */
  lemma DropPage(ps: nat, t: seq<Page>, mem: seq<seq<nat>>, r: seq<Page>, n: nat, sl: seq<seq<int>>, k: nat, c: nat,
                 x: nat, q: Page, v: seq<nat>)
    requires SlabsOk(ps, t, mem, n, sl) && k < |sl| && c < |sl[k]| && sl[k][c] == x && x < n
    requires q.next == t[x].next && q.prev == t[x].prev && q.tag == t[x].tag
    requires 0 <= q.prev < |t| && 0 <= q.next < |t| && q.prev != x && |r| == |t|
    requires var u := Unlinked(t[x := q], x);
             && (forall j | n < j < |t| :: r[j] == u[j])
             && (forall j | 0 <= j < n && j != x && u[j].tag != PAGE :: r[j] == u[j])
             && (forall j | 0 <= j < n && j != x && u[j].tag == PAGE :: r[j].tag == PAGE)
    requires r[x].tag == PAGE
    ensures SlabsOk(ps, r, mem[x := v], n, sl[k := sl[k][..c] + sl[k][c+1..]])
  {
    // first, in the proof only, as a page that became full; then as one that is not a slab page
    var l := sl[k];
    assert SlotOk(ps, t, n, l, k);
    FilledChain(t, n, n + 1 + k, l, c, x, q);
    FilledSame(ps, t, mem, n, sl, k, c, x, q);
    var f := Filled(t, x, q);
    var m := l[..c] + l[c+1..];
    var w := f[x := CLEARED];
    forall j | 0 <= j < n ensures j in m <==> j != x && j in l { InRemoved(l, c, j); }
    forall g: nat | g < |sl| && g != k ensures x !in sl[g] { OneSlot(ps, t, mem, n, sl, k, g, x); }
    forall i | 0 <= i < |m| ensures m[i] != x { assert m[i] in m; }
    ChainFrame(f, w, n, n + 1 + k, m);
    forall j | 0 <= j < n && j != x ensures SameSlab(t, w, j) && mem[x := v][j] == mem[j] { assert SameSlab(t, f, j); }
    SlotStep(ps, t, mem, w, mem[x := v], n, sl, k, m, x);
    KeptOk(ps, w, mem[x := v], r, n, sl[k := m]);
  }
}
