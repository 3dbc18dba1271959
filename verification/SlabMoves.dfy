/** The table edits made by `dfs_slab_alloc_pages` and `dfs_slab_free_pages`, as
    functions on the table, and what each keeps. */
module SlabMoves {
  import opened SlabTable
  import opened SlabRuns

  /** The edits that cut k pages off the front of the longer free run h. */
  function Split(t: seq<Page>, n: nat, h: int, k: nat): (r: seq<Page>)
    requires 0 <= h < n <= |t| && 1 <= k < t[h].slab && h + t[h].slab <= n
    requires 0 <= t[h].prev < |t| && 0 <= t[h].next < |t| && t[h].prev != h
    ensures |r| == |t|
  {
    var l := t[h].slab;
    var u := t[h+l-1 := t[h+l-1].(prev := h + k, tag := PAGE)];
    Replaced(u, h, h + k, Page(l - k, u[h].next, u[h].prev, u[h].tag))
  }

  /** The edits that mark k pages busy. */
  function Marked(t: seq<Page>, h: int, k: nat): (r: seq<Page>)
    ensures |r| == |t|
    ensures forall j | 0 <= j < |t| ::
      r[j] == if j == h then Page(PAGE_START + k, NULL, NULL, PAGE) else if h < j < h + k then INSIDE else t[j]
  {
    seq(|t|, j requires 0 <= j < |t| =>
      if j == h then Page(PAGE_START + k, NULL, NULL, PAGE) else if h < j < h + k then INSIDE else t[j])
  }

  /** A member of the free list, and its neighbours there. */
  lemma ListedFacts(t: seq<Page>, n: nat, x: int, hd: seq<int>, fl: seq<int>, i: nat)
    requires RunsOk(t, n, x, hd, fl) && i < |fl|
    ensures var h := fl[i];
            && 0 <= h < n && hd[h] == h && FreeHead(t, x, h)
            && 1 <= t[h].slab && h + t[h].slab <= n && t[h].slab < PAGE_START
            && 0 <= t[h].prev <= n && 0 <= t[h].next <= n && t[h].prev != h && t[h].next != h
            && t[h].prev == At(fl, n, i - 1) && t[h].next == At(fl, n, i + 1)
  {
    var h := fl[i];
    assert h in fl;
    assert RunAt(t, n, x, hd, h) && PageOk(t, n, x, hd, h);
    LinkFacts(t, n, n, fl, i);
  }

  /** Pages off the free list are untouched by an edit of three list neighbours. */
  lemma NeighbourListed(t: seq<Page>, n: nat, x: int, hd: seq<int>, fl: seq<int>, i: nat, j: nat)
    requires RunsOk(t, n, x, hd, fl) && i < |fl| && j < n
    requires j == t[fl[i]].prev || j == t[fl[i]].next
    ensures j in fl && t[j].tag == PAGE && t[j].next != NULL && hd[j] == j
  {
    ListedFacts(t, n, x, hd, fl, i);
    assert j == At(fl, n, i - 1) || j == At(fl, n, i + 1);
    if 0 <= i - 1 && j == fl[i-1] { ListedFacts(t, n, x, hd, fl, i - 1); }
    else if i + 1 < |fl| && j == fl[i+1] { ListedFacts(t, n, x, hd, fl, i + 1); }
  }

  // ------------------------------------------------------------------ splitting

  /** The four fields of descriptor j after a split. */
  lemma SplitAt(t: seq<Page>, n: nat, h: int, k: nat, j: nat)
    requires 0 <= h < n <= |t| && 1 <= k < t[h].slab && h + t[h].slab <= n && j < |t|
    requires 0 <= t[h].prev < |t| && 0 <= t[h].next < |t|
    requires !(h <= t[h].prev < h + t[h].slab) && !(h <= t[h].next < h + t[h].slab)
    ensures var (l, p, q) := (t[h].slab, t[h].prev, t[h].next); var r := Split(t, n, h, k)[j];
            && r.slab == (if j == h + k then l - k else t[j].slab)
            && r.tag == (if j == h + k then t[h].tag else if j == q || j == h + l - 1 then PAGE else t[j].tag)
            && r.next == (if j == p then h + k else if j == h + k then q else t[j].next)
            && r.prev == (if j == q || (j == h + l - 1 && j != h + k) then h + k
                          else if j == h + k then p else t[j].prev)
  {
  }

  /** The neighbours of a free run on the list lie outside the run, and what lies inside is clear. */
  lemma Surroundings(t: seq<Page>, n: nat, x: int, hd: seq<int>, fl: seq<int>, i: nat)
    requires RunsOk(t, n, x, hd, fl) && i < |fl|
    ensures var (h, l) := (fl[i], t[fl[i]].slab);
            && h + l <= n && !(h <= t[h].prev < h + l) && !(h <= t[h].next < h + l)
            && (forall j | h < j < h + l :: j < n && t[j].next == NULL && t[j].tag == PAGE && t[j].slab == PAGE_FREE)
  {
    var h := fl[i];
    ListedFacts(t, n, x, hd, fl, i);
    var l := t[h].slab;
    if h < t[h].prev < h + l { NeighbourListed(t, n, x, hd, fl, i, t[h].prev); Covers(t, n, x, hd, h, t[h].prev); }
    if h < t[h].next < h + l { NeighbourListed(t, n, x, hd, fl, i, t[h].next); Covers(t, n, x, hd, h, t[h].next); }
    forall j | h < j < h + l
      ensures j < n && t[j].next == NULL && t[j].tag == PAGE && t[j].slab == PAGE_FREE
    {
      Covers(t, n, x, hd, h, j);
      assert PageOk(t, n, x, hd, j);
    }
  }

  lemma SplitCarves(t: seq<Page>, n: nat, hd: seq<int>, fl: seq<int>, i: nat, k: nat)
    requires RunsOk(t, n, NULL, hd, fl) && i < |fl| && 1 <= k < t[fl[i]].slab
    ensures var h := fl[i];
            && h + t[h].slab <= n && 0 <= t[h].prev < |t| && 0 <= t[h].next < |t| && t[h].prev != h
            && Carved(t, Marked(Split(t, n, h, k), h, k), n, h, k)
  {
    var h := fl[i];
    ListedFacts(t, n, NULL, hd, fl, i);
    Surroundings(t, n, NULL, hd, fl, i);
    var l := t[h].slab;
    var s := Split(t, n, h, k);
    var r := Marked(s, h, k);
    forall j | 0 <= j < n && !(h <= j < h + l) ensures SameRole(t, r, j) {
      SplitAt(t, n, h, k, j);
      if j == t[h].prev || j == t[h].next { NeighbourListed(t, n, NULL, hd, fl, i, j); }
    }
    forall j | h + k <= j < h + l
      ensures r[j].tag == PAGE && (j != h + k ==> r[j].next == NULL && r[j].slab == PAGE_FREE)
      ensures j == h + k ==> r[j].slab == l - k && r[j].next != NULL
      ensures j == h + l - 1 && j != h + k ==> r[j].prev == h + k
    {
      SplitAt(t, n, h, k, j);
    }
  }

  /** Pages inside a free run, past its head, are not on the free list. */
  lemma InsideUnlisted(t: seq<Page>, n: nat, x: int, hd: seq<int>, fl: seq<int>, i: nat, j: nat)
    requires RunsOk(t, n, x, hd, fl) && i < |fl| && fl[i] < j < fl[i] + t[fl[i]].slab
    ensures j < n && j !in fl
  {
    ListedFacts(t, n, x, hd, fl, i);
    Covers(t, n, x, hd, fl[i], j);
  }

  /** What is left of the run takes its place on the free list. */
  lemma SplitChain(t: seq<Page>, n: nat, hd: seq<int>, fl: seq<int>, i: nat, k: nat)
    requires RunsOk(t, n, NULL, hd, fl) && i < |fl| && 1 <= k < t[fl[i]].slab
    ensures var h := fl[i];
            && h + t[h].slab <= n && 0 <= t[h].prev < |t| && 0 <= t[h].next < |t| && t[h].prev != h
            && Chain(Split(t, n, h, k), n, n, fl[i := h + k])
  {
    var h := fl[i];
    ListedFacts(t, n, NULL, hd, fl, i);
    var l := t[h].slab;
    var e := h + l - 1;
    var u := t[e := t[e].(prev := h + k, tag := PAGE)];
    InsideUnlisted(t, n, NULL, hd, fl, i, e);
    InsideUnlisted(t, n, NULL, hd, fl, i, h + k);
    ChainFrame(t, u, n, n, fl);
    ChainReplace(u, n, n, fl, i, h + k, Page(l - k, u[h].next, u[h].prev, u[h].tag));
  }

  /** Marking pages that are on no list disturbs none. */
  lemma MarkedChain(t: seq<Page>, n: nat, s: int, l: seq<int>, h: int, k: nat)
    requires Chain(t, n, s, l) && 0 <= h && h + k <= n && 1 <= k
    requires forall j | h <= j < h + k :: j !in l
    ensures Chain(Marked(t, h, k), n, s, l)
  {
    forall c | 0 <= c < |l| ensures !(h <= l[c] < h + k) { assert l[c] in l; }
    ChainFrame(t, Marked(t, h, k), n, s, l);
  }

  lemma SplitOk(t: seq<Page>, n: nat, hd: seq<int>, fl: seq<int>, i: nat, k: nat)
    requires RunsOk(t, n, NULL, hd, fl) && i < |fl| && 1 <= k < t[fl[i]].slab
    ensures var h := fl[i];
            && h + t[h].slab <= n && 0 <= t[h].prev < |t| && 0 <= t[h].next < |t| && t[h].prev != h
            && RunsOk(Marked(Split(t, n, h, k), h, k), n, NULL, Rehead(hd, h + k, h + t[h].slab, h + k), fl[i := h + k])
  {
    hide Split, Marked, Carved;
    var h := fl[i];
    SplitCarves(t, n, hd, fl, i, k);
    ListedFacts(t, n, NULL, hd, fl, i);
    var s := Split(t, n, h, k);
    var m := fl[i := h + k];
    SplitChain(t, n, hd, fl, i, k);
    forall j | h <= j < h + k ensures j !in m {
      InUpdated(fl, i, h + k, j);
      if j != h { InsideUnlisted(t, n, NULL, hd, fl, i, j); }
    }
    MarkedChain(s, n, n, m, h, k);
    CarvedOk(t, Marked(s, h, k), n, hd, fl, i, k);
  }

  lemma CarvedOk(t: seq<Page>, r: seq<Page>, n: nat, hd: seq<int>, fl: seq<int>, i: nat, k: nat)
    requires Tiled(t, n, NULL, hd) && i < |fl| && Distinct(fl)
    requires forall h | 0 <= h < n :: h in fl <==> hd[h] == h && FreeHead(t, NULL, h)
    requires 0 <= fl[i] < n && hd[fl[i]] == fl[i] && FreeHead(t, NULL, fl[i])
    requires Carved(t, r, n, fl[i], k) && k < t[fl[i]].slab
    requires Chain(r, n, n, fl[i := fl[i] + k])
    ensures RunsOk(r, n, NULL, Rehead(hd, fl[i] + k, fl[i] + t[fl[i]].slab, fl[i] + k), fl[i := fl[i] + k])
  {
    var h := fl[i];
    CarveTiled(t, r, n, hd, h, k);
    var hd' := Rehead(hd, h + k, h + t[h].slab, h + k);
    forall g | 0 <= g < n ensures g in fl[i := h + k] <==> hd'[g] == g && FreeHead(r, NULL, g) {
      InUpdated(fl, i, h + k, g);
      if h <= g < h + t[h].slab { Covers(t, n, NULL, hd, h, g); }
      else { assert SameRole(t, r, g); }
    }
  }

  // ------------------------------------------------------------- taking a run whole

  lemma TakeCarves(t: seq<Page>, n: nat, hd: seq<int>, fl: seq<int>, i: nat)
    requires RunsOk(t, n, NULL, hd, fl) && i < |fl|
    ensures var h := fl[i];
            && h + t[h].slab <= n && 0 <= t[h].prev < |t| && 0 <= t[h].next < |t| && t[h].prev != h
            && Carved(t, Marked(Unlinked(t, h), h, t[h].slab), n, h, t[h].slab)
  {
    var h := fl[i];
    ListedFacts(t, n, NULL, hd, fl, i);
    Surroundings(t, n, NULL, hd, fl, i);
    var l := t[h].slab;
    var s := Unlinked(t, h);
    forall j | 0 <= j < n && !(h <= j < h + l) ensures SameRole(t, Marked(s, h, l), j) {
      if j == t[h].prev || j == t[h].next { NeighbourListed(t, n, NULL, hd, fl, i, j); }
    }
  }

  lemma TakeOk(t: seq<Page>, n: nat, hd: seq<int>, fl: seq<int>, i: nat)
    requires RunsOk(t, n, NULL, hd, fl) && i < |fl|
    ensures var h := fl[i];
            && h + t[h].slab <= n && 0 <= t[h].prev < |t| && 0 <= t[h].next < |t| && t[h].prev != h
            && RunsOk(Marked(Unlinked(t, h), h, t[h].slab), n, NULL, hd, fl[..i] + fl[i+1..])
  {
    var h := fl[i];
    TakeCarves(t, n, hd, fl, i);
    ListedFacts(t, n, NULL, hd, fl, i);
    var l := t[h].slab;
    var s := Unlinked(t, h);
    var m := fl[..i] + fl[i+1..];
    ChainUnlink(t, n, n, fl, i);
    forall j | h <= j < h + l ensures j !in m {
      InRemoved(fl, i, j);
      if j != h { InsideUnlisted(t, n, NULL, hd, fl, i, j); }
    }
    MarkedChain(s, n, n, m, h, l);
    TakenOk(t, Marked(s, h, l), n, hd, fl, i);
  }

  lemma TakenOk(t: seq<Page>, r: seq<Page>, n: nat, hd: seq<int>, fl: seq<int>, i: nat)
    requires Tiled(t, n, NULL, hd) && i < |fl| && Distinct(fl)
    requires forall h | 0 <= h < n :: h in fl <==> hd[h] == h && FreeHead(t, NULL, h)
    requires 0 <= fl[i] < n && hd[fl[i]] == fl[i] && FreeHead(t, NULL, fl[i])
    requires Carved(t, r, n, fl[i], t[fl[i]].slab)
    requires Chain(r, n, n, fl[..i] + fl[i+1..])
    ensures RunsOk(r, n, NULL, hd, fl[..i] + fl[i+1..])
  {
    var h := fl[i];
    var l := t[h].slab;
    CarveTiled(t, r, n, hd, h, l);
    assert Rehead(hd, h + l, h + l, h + l) == hd;
    forall g | 0 <= g < n ensures g in fl[..i] + fl[i+1..] <==> hd[g] == g && FreeHead(r, NULL, g) {
      InRemoved(fl, i, g);
      if h <= g < h + l { Covers(t, n, NULL, hd, h, g); }
      else { assert SameRole(t, r, g); }
    }
  }

  // ------------------------------------------------------------------ freeing a run

  /** The edits that take a busy run or slab page out of use. */
  function Cleared(t: seq<Page>, x: int, l: nat): (r: seq<Page>)
    ensures |r| == |t|
    ensures forall j | 0 <= j < |t| ::
      r[j] == if j == x then t[j].(slab := l) else if x < j < x + l then CLEARED else t[j]
  {
    seq(|t|, j requires 0 <= j < |t| =>
      if j == x then t[j].(slab := l) else if x < j < x + l then CLEARED else t[j])
  }

  /** The edits that make the run at b part of the run at a; y is the one of them on the free list. */
  function Joined(t: seq<Page>, a: int, b: int, y: int): (r: seq<Page>)
    requires 0 <= a < |t| && 0 <= b < |t| && a != b && (y == a || y == b)
    requires 0 <= t[y].prev < |t| && 0 <= t[y].next < |t| && t[y].prev != y
    ensures |r| == |t|
  {
    Unlinked(t[a := t[a].(slab := t[a].slab + t[b].slab)], y)[b := CLEARED]
  }

  /** The edits that put the run in limbo on the free list. */
  function Listed(t: seq<Page>, n: nat, x: int): (r: seq<Page>)
    requires 0 <= x < n < |t| && x + t[x].slab <= n && 0 <= t[n].next < |t|
    ensures |r| == |t|
  {
    var l := t[x].slab;
    var u := if l > 1 then t[x+l-1 := t[x+l-1].(prev := x, tag := PAGE)] else t;
    Pushed(u, n, x, PAGE)
  }

  lemma ClearedOk(t: seq<Page>, n: nat, hd: seq<int>, fl: seq<int>, x: nat, l: nat)
    requires RunsOk(t, n, NULL, hd, fl) && x < n && hd[x] == x && !FreeHead(t, NULL, x)
    requires l == Len(t, NULL, x)
    ensures RunsOk(Cleared(t, x, l), n, x, hd, fl)
  {
    var r := Cleared(t, x, l);
    assert RunAt(t, n, NULL, hd, x);
    DetachTiled(t, r, n, hd, x, l);
    forall k | 0 <= k < |fl| ensures !(x <= fl[k] < x + l) {
      ListedFacts(t, n, NULL, hd, fl, k);
      if x <= fl[k] < x + l { Covers(t, n, NULL, hd, x, fl[k]); }
    }
    ChainFrame(t, r, n, n, fl);
    forall g | 0 <= g < n ensures g in fl <==> hd[g] == g && FreeHead(r, x, g) {
      if x < g < x + l { Covers(t, n, NULL, hd, x, g); }
    }
  }

  /** Only slab pages, slots and the links of the page in limbo differ. */
  ghost predicate RunsAlike(t: seq<Page>, r: seq<Page>, n: nat, x: int)
    requires n < |t|
  {
    && |r| == |t| && r[n] == t[n]
    && (forall j | 0 <= j < n && j != x && t[j].tag == PAGE :: r[j] == t[j])
    && (forall j | 0 <= j < n && j != x && t[j].tag != PAGE :: r[j].tag != PAGE)
    && (0 <= x < n ==> r[x].slab == t[x].slab)
  }

  lemma AlikeOk(t: seq<Page>, r: seq<Page>, n: nat, x: int, hd: seq<int>, fl: seq<int>)
    requires RunsOk(t, n, x, hd, fl) && RunsAlike(t, r, n, x)
    ensures RunsOk(r, n, x, hd, fl)
    ensures forall i | 0 <= i < n ::
      PageFree(r, n, x, hd, i) == PageFree(t, n, x, hd, i) && BusyLen(r, n, x, hd, i) == BusyLen(t, n, x, hd, i)
  {
    forall i | 0 <= i < n ensures FreeHead(r, x, i) == FreeHead(t, x, i) && Len(r, x, i) == Len(t, x, i) {}
    forall i | 0 <= i < n ensures RunAt(r, n, x, hd, i) && PageOk(r, n, x, hd, i) {
      assert RunAt(t, n, x, hd, i) && PageOk(t, n, x, hd, i);
    }
    forall k | 0 <= k < |fl| ensures r[fl[k]] == t[fl[k]] { ListedFacts(t, n, x, hd, fl, k); }
    ChainFrame(t, r, n, n, fl);
  }

  lemma JoinedMerges(t: seq<Page>, n: nat, x: int, hd: seq<int>, fl: seq<int>, a: nat, b: nat, i: nat)
    requires RunsOk(t, n, x, hd, fl) && a < b < n && i < |fl| && (x == a || x == b)
    requires fl[i] == if x == a then b else a
    ensures 0 <= t[fl[i]].prev < |t| && 0 <= t[fl[i]].next < |t| && t[fl[i]].prev != fl[i]
    ensures Merged(t, Joined(t, a, b, fl[i]), n, x, a, b)
  {
    var y := fl[i];
    ListedFacts(t, n, x, hd, fl, i);
    var r := Joined(t, a, b, y);
    forall j | 0 <= j < n && j != a && j != b ensures SameRole(t, r, j) {
      if j == t[y].prev || j == t[y].next { NeighbourListed(t, n, x, hd, fl, i, j); }
    }
    assert x !in fl;
    if t[y].prev < n { NeighbourListed(t, n, x, hd, fl, i, t[y].prev); }
    if t[y].next < n { NeighbourListed(t, n, x, hd, fl, i, t[y].next); }
  }

  lemma JoinedChain(t: seq<Page>, n: nat, x: int, hd: seq<int>, fl: seq<int>, a: nat, b: nat, i: nat)
    requires RunsOk(t, n, x, hd, fl) && a < b < n && i < |fl| && (x == a || x == b)
    requires fl[i] == if x == a then b else a
    requires 0 <= t[fl[i]].prev < |t| && 0 <= t[fl[i]].next < |t| && t[fl[i]].prev != fl[i]
    ensures Chain(Joined(t, a, b, fl[i]), n, n, fl[..i] + fl[i+1..])
  {
    var y := fl[i];
    assert x !in fl;
    var u := t[a := t[a].(slab := t[a].slab + t[b].slab)];
    ChainFrame(t, u, n, n, fl);
    ChainUnlink(u, n, n, fl, i);
    var m := fl[..i] + fl[i+1..];
    InRemoved(fl, i, b);
    assert b !in m;
    forall k | 0 <= k < |m| ensures m[k] != b { assert m[k] in m; }
    ChainFrame(Unlinked(u, y), Joined(t, a, b, y), n, n, m);
  }

  /** Joining an adjacent free run to the run in limbo leaves a longer run in limbo. */
  lemma JoinedOk(t: seq<Page>, n: nat, x: int, hd: seq<int>, fl: seq<int>, a: nat, b: nat, i: nat)
    requires RunsOk(t, n, x, hd, fl) && a < b < n && i < |fl| && (x == a || x == b)
    requires fl[i] == if x == a then b else a
    requires hd[a] == a && hd[b] == b && b == a + Len(t, x, a)
    ensures 0 <= t[fl[i]].prev < |t| && 0 <= t[fl[i]].next < |t| && t[fl[i]].prev != fl[i]
    ensures RunsOk(Joined(t, a, b, fl[i]), n, a, Rehead(hd, b, b + t[b].slab, a), fl[..i] + fl[i+1..])
  {
    ListedFacts(t, n, x, hd, fl, i);
    JoinedMerges(t, n, x, hd, fl, a, b, i);
    JoinedChain(t, n, x, hd, fl, a, b, i);
    MergedOk(t, Joined(t, a, b, fl[i]), n, x, hd, fl, a, b, i);
  }

  lemma MergedOk(t: seq<Page>, r: seq<Page>, n: nat, x: int, hd: seq<int>, fl: seq<int>, a: nat, b: nat, i: nat)
    requires Tiled(t, n, x, hd) && a < b < n && i < |fl| && (x == a || x == b) && Distinct(fl)
    requires forall h | 0 <= h < n :: h in fl <==> hd[h] == h && FreeHead(t, x, h)
    requires fl[i] == (if x == a then b else a) && FreeHead(t, x, fl[i])
    requires hd[a] == a && hd[b] == b && b == a + Len(t, x, a)
    requires Merged(t, r, n, x, a, b) && Chain(r, n, n, fl[..i] + fl[i+1..])
    ensures RunsOk(r, n, a, Rehead(hd, b, b + t[b].slab, a), fl[..i] + fl[i+1..])
  {
    MergeTiled(t, r, n, x, hd, a, b);
    var hd' := Rehead(hd, b, b + t[b].slab, a);
    assert PageOk(t, n, x, hd, b);
    forall g | 0 <= g < n ensures g in fl[..i] + fl[i+1..] <==> hd'[g] == g && FreeHead(r, a, g) {
      InRemoved(fl, i, g);
      MergePlace(t, n, x, hd, a, b, g);
      if g != a && g != b { assert SameRole(t, r, g); }
    }
  }

  lemma ListedOk(t: seq<Page>, n: nat, x: nat, hd: seq<int>, fl: seq<int>)
    requires RunsOk(t, n, x, hd, fl) && x < n && Isolated(t, n, x, hd)
    ensures x + t[x].slab <= n && 0 <= t[n].next < |t|
    ensures RunsOk(Listed(t, n, x), n, NULL, hd, [x] + fl)
  {
    var l := t[x].slab;
    assert RunAt(t, n, x, hd, x);
    Covers(t, n, x, hd, x, x + l - 1);
    var u := if l > 1 then t[x+l-1 := t[x+l-1].(prev := x, tag := PAGE)] else t;
    assert x !in fl && (l > 1 ==> x + l - 1 !in fl);
    ChainFrame(t, u, n, n, fl);
    ChainPush(u, n, n, fl, x, PAGE);
    ListedAttaches(t, n, x, hd, fl);
    AttachTiled(t, Listed(t, n, x), n, hd, x);
    var r := Listed(t, n, x);
    forall g | 0 <= g < n ensures g in [x] + fl <==> hd[g] == g && FreeHead(r, NULL, g) {
      if g == x + l - 1 && g != x { Covers(t, n, x, hd, x, g); }
      else if g != x { assert SameRole(t, r, g); }
    }
  }

  lemma ListedAttaches(t: seq<Page>, n: nat, x: nat, hd: seq<int>, fl: seq<int>)
    requires RunsOk(t, n, x, hd, fl) && x < n && x + t[x].slab <= n && t[x].slab >= 1
    ensures 0 <= t[n].next < |t| && Attached(t, Listed(t, n, x), n, x)
  {
    var f := t[n].next;
    if |fl| > 0 { ListedFacts(t, n, x, hd, fl, 0); }
    assert f == At(fl, n, 0) && f != x;
    var l := t[x].slab;
    if l > 1 {
      Covers(t, n, x, hd, x, x + l - 1);
      assert PageOk(t, n, x, hd, x + l - 1);
      assert x + l - 1 !in fl;
    }
    var r := Listed(t, n, x);
    forall j | 0 <= j < n && j != x && j != x + l - 1 ensures SameRole(t, r, j) {}
  }

  // ---------------------------------------------------- the neighbours of a freed run

  /** The descriptor before a run leads to the head of the free run that ends there, if one does. */
  lemma LeftNeighbour(t: seq<Page>, n: nat, x: nat, hd: seq<int>)
    requires Tiled(t, n, x, hd) && 0 < x < n
    ensures var j := t[x-1]; var y := if j.slab == PAGE_FREE then j.prev else x - 1;
            && (j.tag == PAGE ==> 0 <= y < x)
            && (j.tag == PAGE && t[y].next != NULL <==> FreeHead(t, x, hd[x-1]))
            && (FreeHead(t, x, hd[x-1]) ==> y == hd[x-1] && hd[y] == y && x == y + Len(t, x, y))
  {
    assert RunAt(t, n, x, hd, x) && RunAt(t, n, x, hd, x - 1) && PageOk(t, n, x, hd, x - 1);
    HeadOfHead(t, n, x, hd, x - 1);
    assert PageOk(t, n, x, hd, hd[x-1]);
  }

  /** The descriptor after a run heads the next run. */
  lemma RightNeighbour(t: seq<Page>, n: nat, x: nat, hd: seq<int>)
    requires Tiled(t, n, x, hd) && x < n && x + t[x].slab < n
    ensures hd[x + t[x].slab] == x + t[x].slab && t[x].slab >= 1
  {
    var e := x + t[x].slab;
    assert RunAt(t, n, x, hd, x) && RunAt(t, n, x, hd, e);
    Covers(t, n, x, hd, x, e - 1);
  }

  // ------------------------------------------- what the edits mean for the pool's pages

  /** Page i is free, or in the run being freed. */
  ghost predicate Idle(t: seq<Page>, n: nat, x: int, hd: seq<int>, i: int)
    requires Heads(t, n, hd) && 0 <= i < n
  {
    hd[i] == x || PageFree(t, n, x, hd, i)
  }

  lemma CarveEffect(t: seq<Page>, r: seq<Page>, n: nat, hd: seq<int>, h: nat, k: nat, i: nat)
    requires Tiled(t, n, NULL, hd) && h < n && hd[h] == h && FreeHead(t, NULL, h)
    requires Carved(t, r, n, h, k) && i < n
    ensures var hd' := Rehead(hd, h + k, h + t[h].slab, h + k);
            && Heads(r, n, hd')
            && (PageFree(r, n, NULL, hd', i) <==> PageFree(t, n, NULL, hd, i) && !(h <= i < h + k))
            && BusyLen(r, n, NULL, hd', i) == (if i == h then k else BusyLen(t, n, NULL, hd, i))
            && (h <= i < h + k ==> PageFree(t, n, NULL, hd, i))
  {
    if h <= i < h + t[h].slab { Covers(t, n, NULL, hd, h, i); }
    else { Outside(t, n, NULL, hd, h, i); assert SameRole(t, r, hd[i]) && SameRole(t, r, i); }
  }

  lemma DetachEffect(t: seq<Page>, r: seq<Page>, n: nat, hd: seq<int>, x: nat, l: nat, i: nat)
    requires Tiled(t, n, NULL, hd) && x < n && hd[x] == x && l == Len(t, NULL, x) && x + l <= n
    requires Detached(t, r, n, x, l) && i < n
    ensures Idle(r, n, x, hd, i) <==> PageFree(t, n, NULL, hd, i) || x <= i < x + l
    ensures BusyLen(r, n, x, hd, i) == if i == x then 0 else BusyLen(t, n, NULL, hd, i)
  {
    if x <= i < x + l {
      Covers(t, n, NULL, hd, x, i);
    } else {
      Outside(t, n, NULL, hd, x, i);
      assert SameRole(t, r, i) && SameRole(t, r, hd[i]);
    }
  }

  lemma MergeEffect(t: seq<Page>, r: seq<Page>, n: nat, x: int, hd: seq<int>, a: nat, b: nat, i: nat)
    requires Tiled(t, n, x, hd) && a < b < n && hd[a] == a && hd[b] == b && b == a + Len(t, x, a)
    requires (x == a && FreeHead(t, x, b)) || (x == b && FreeHead(t, x, a))
    requires Merged(t, r, n, x, a, b) && i < n
    ensures var hd' := Rehead(hd, b, b + t[b].slab, a);
            && Heads(r, n, hd')
            && (Idle(r, n, a, hd', i) <==> Idle(t, n, x, hd, i))
            && BusyLen(r, n, a, hd', i) == BusyLen(t, n, x, hd, i)
  {
    assert PageOk(t, n, x, hd, b) && PageOk(t, n, x, hd, a);
    MergePlace(t, n, x, hd, a, b, i);
    if i != a && i != b { assert SameRole(t, r, i); }
    if hd[i] != a && hd[i] != b { assert SameRole(t, r, hd[i]); }
  }

  lemma AttachEffect(t: seq<Page>, r: seq<Page>, n: nat, hd: seq<int>, x: nat, i: nat)
    requires x < n && Tiled(t, n, x, hd) && Attached(t, r, n, x) && i < n
    ensures PageFree(r, n, NULL, hd, i) <==> Idle(t, n, x, hd, i)
    ensures BusyLen(r, n, NULL, hd, i) == BusyLen(t, n, x, hd, i)
  {
    assert RunAt(t, n, x, hd, x);
    Covers(t, n, x, hd, x, x + t[x].slab - 1);
    HeadOfHead(t, n, x, hd, i);
    if hd[i] != x { assert SameRole(t, r, hd[i]); }
    if i != x && hd[i] == i { assert SameRole(t, r, i); }
  }

  /** The descriptors of slab pages and slots do not move. */
  ghost predicate SlabsKept(t: seq<Page>, r: seq<Page>, n: nat, x: int)
    requires n <= |t|
  {
    && |r| == |t|
    && (forall j | n < j < |t| :: r[j] == t[j])
    && (forall j | 0 <= j < n && j != x && t[j].tag != PAGE :: r[j] == t[j])
    && (forall j | 0 <= j < n && j != x && t[j].tag == PAGE :: r[j].tag == PAGE)
  }

  lemma SplitKept(t: seq<Page>, n: nat, hd: seq<int>, fl: seq<int>, i: nat, k: nat)
    requires RunsOk(t, n, NULL, hd, fl) && i < |fl| && 1 <= k < t[fl[i]].slab
    requires var h := fl[i];
            h + t[h].slab <= n && 0 <= t[h].prev < |t| && 0 <= t[h].next < |t| && t[h].prev != h
    ensures SlabsKept(t, Marked(Split(t, n, fl[i], k), fl[i], k), n, NULL)
  {
    hide Split;
    var h := fl[i];
    ListedFacts(t, n, NULL, hd, fl, i);
    Surroundings(t, n, NULL, hd, fl, i);
    forall j | 0 <= j < n && (t[j].tag != PAGE || j == t[h].prev || j == t[h].next)
      ensures (j == t[h].prev || j == t[h].next) ==> t[j].tag == PAGE
    {
      if j == t[h].prev || j == t[h].next { NeighbourListed(t, n, NULL, hd, fl, i, j); }
    }
    forall j | 0 <= j < |t| && !(h <= j < h + t[h].slab) ensures
      Split(t, n, h, k)[j] == t[j] || j == n || (j < n && t[j].tag == PAGE && Split(t, n, h, k)[j].tag == PAGE)
    {
      SplitAt(t, n, h, k, j);
    }
    forall j | h <= j < h + t[h].slab ensures Split(t, n, h, k)[j].tag == PAGE { SplitAt(t, n, h, k, j); }
  }

  lemma UnlinkKept(t: seq<Page>, n: nat, x: int, hd: seq<int>, fl: seq<int>, i: nat)
    requires RunsOk(t, n, x, hd, fl) && i < |fl|
    ensures 0 <= t[fl[i]].prev < |t| && 0 <= t[fl[i]].next < |t| && t[fl[i]].prev != fl[i]
    ensures SlabsKept(t, Unlinked(t, fl[i]), n, x)
  {
    var h := fl[i];
    ListedFacts(t, n, x, hd, fl, i);
    if t[h].prev < n { NeighbourListed(t, n, x, hd, fl, i, t[h].prev); }
    if t[h].next < n { NeighbourListed(t, n, x, hd, fl, i, t[h].next); }
  }

  lemma TakeKept(t: seq<Page>, n: nat, hd: seq<int>, fl: seq<int>, i: nat)
    requires RunsOk(t, n, NULL, hd, fl) && i < |fl|
    ensures 0 <= t[fl[i]].prev < |t| && 0 <= t[fl[i]].next < |t| && t[fl[i]].prev != fl[i]
    ensures SlabsKept(t, Marked(Unlinked(t, fl[i]), fl[i], t[fl[i]].slab), n, NULL)
  {
    UnlinkKept(t, n, NULL, hd, fl, i);
    ListedFacts(t, n, NULL, hd, fl, i);
    Surroundings(t, n, NULL, hd, fl, i);
  }

  /** When every free run is too short, no k free pages lie in a row. */
  lemma NoSpan(t: seq<Page>, n: nat, hd: seq<int>, fl: seq<int>, k: nat, a: int)
    requires RunsOk(t, n, NULL, hd, fl) && k >= 1
    requires forall j | 0 <= j < |fl| :: 0 <= fl[j] < n && t[fl[j]].slab < k
    ensures !FreeSpan(t, n, hd, a, k)
  {
    if FreeSpan(t, n, hd, a, k) {
      SpanInOneRun(t, n, hd, a, k);
    }
  }

  /** From (t, hd) to (r, hd'), the k free pages from `page` on became one busy run,
      and no other page changed its part. */
  ghost predicate Allotted(t: seq<Page>, hd: seq<int>, r: seq<Page>, hd': seq<int>, n: nat, page: int, k: nat) {
    && Heads(t, n, hd) && Heads(r, n, hd')
    && FreeSpan(t, n, hd, page, k)
    && SlabsKept(t, r, n, NULL)
    && (forall i | 0 <= i < n ::
          PageFree(r, n, NULL, hd', i) <==> PageFree(t, n, NULL, hd, i) && !(page <= i < page + k))
    && (forall i | 0 <= i < n ::
          BusyLen(r, n, NULL, hd', i) == if i == page then k else BusyLen(t, n, NULL, hd, i))
  }

  lemma CarvedAllots(t: seq<Page>, r: seq<Page>, n: nat, hd: seq<int>, h: nat, k: nat)
    requires Tiled(t, n, NULL, hd) && h < n && hd[h] == h && FreeHead(t, NULL, h)
    requires Carved(t, r, n, h, k) && SlabsKept(t, r, n, NULL)
    ensures Allotted(t, hd, r, Rehead(hd, h + k, h + t[h].slab, h + k), n, h, k)
  {
    forall i | 0 <= i < n { CarveEffect(t, r, n, hd, h, k, i); }
  }

  lemma SplitAllots(t: seq<Page>, n: nat, hd: seq<int>, fl: seq<int>, i: nat, k: nat)
    requires RunsOk(t, n, NULL, hd, fl) && i < |fl| && 1 <= k < t[fl[i]].slab
    ensures var h := fl[i];
            && h + t[h].slab <= n && 0 <= t[h].prev < |t| && 0 <= t[h].next < |t| && t[h].prev != h
            && Allotted(t, hd, Marked(Split(t, n, h, k), h, k), Rehead(hd, h + k, h + t[h].slab, h + k), n, h, k)
  {
    hide Split, Marked, Carved, SlabsKept, Allotted;
    ListedFacts(t, n, NULL, hd, fl, i);
    SplitCarves(t, n, hd, fl, i, k);
    SplitKept(t, n, hd, fl, i, k);
    CarvedAllots(t, Marked(Split(t, n, fl[i], k), fl[i], k), n, hd, fl[i], k);
  }

  lemma TakeAllots(t: seq<Page>, n: nat, hd: seq<int>, fl: seq<int>, i: nat)
    requires RunsOk(t, n, NULL, hd, fl) && i < |fl|
    ensures var h := fl[i];
            && h + t[h].slab <= n && 0 <= t[h].prev < |t| && 0 <= t[h].next < |t| && t[h].prev != h
            && Allotted(t, hd, Marked(Unlinked(t, h), h, t[h].slab), hd, n, h, t[h].slab)
  {
    var h := fl[i];
    var l := t[h].slab;
    ListedFacts(t, n, NULL, hd, fl, i);
    TakeCarves(t, n, hd, fl, i);
    TakeKept(t, n, hd, fl, i);
    CarvedAllots(t, Marked(Unlinked(t, h), h, l), n, hd, h, l);
    assert Rehead(hd, h + l, h + l, h + l) == hd;
  }

  /** Where the state goes when page runs are taken: the table, the run heads and the free list. */
  ghost predicate Taken(t: seq<Page>, n: nat, hd: seq<int>, fl: seq<int>, i: nat, page: int, k: nat,
                        r: seq<Page>, hd': seq<int>, fl': seq<int>)
    requires i < |fl| && 0 <= page < n <= |t| && 1 <= k <= t[page].slab && page + t[page].slab <= n
    requires 0 <= t[page].prev < |t| && 0 <= t[page].next < |t| && t[page].prev != page
  {
    if k < t[page].slab then
      && r == Marked(Split(t, n, page, k), page, k)
      && hd' == Rehead(hd, page + k, page + t[page].slab, page + k)
      && fl' == fl[i := page + k]
    else
      r == Marked(Unlinked(t, page), page, k) && hd' == hd && fl' == fl[..i] + fl[i+1..]
  }

  lemma TakenRuns(t: seq<Page>, n: nat, hd: seq<int>, fl: seq<int>, i: nat, page: int, k: nat,
                  r: seq<Page>, hd': seq<int>, fl': seq<int>)
    requires RunsOk(t, n, NULL, hd, fl) && i < |fl| && page == fl[i]
    requires 0 <= page < n <= |t| && 1 <= k <= t[page].slab && page + t[page].slab <= n
    requires 0 <= t[page].prev < |t| && 0 <= t[page].next < |t| && t[page].prev != page
    requires Taken(t, n, hd, fl, i, page, k, r, hd', fl')
    ensures RunsOk(r, n, NULL, hd', fl')
  {
    if k < t[page].slab { SplitOk(t, n, hd, fl, i, k); } else { TakeOk(t, n, hd, fl, i); }
  }

  lemma TakenAllots(t: seq<Page>, n: nat, hd: seq<int>, fl: seq<int>, i: nat, page: int, k: nat,
                    r: seq<Page>, hd': seq<int>, fl': seq<int>)
    requires RunsOk(t, n, NULL, hd, fl) && i < |fl| && page == fl[i]
    requires 0 <= page < n <= |t| && 1 <= k <= t[page].slab && page + t[page].slab <= n
    requires 0 <= t[page].prev < |t| && 0 <= t[page].next < |t| && t[page].prev != page
    requires Taken(t, n, hd, fl, i, page, k, r, hd', fl')
    ensures Allotted(t, hd, r, hd', n, page, k)
  {
    if k < t[page].slab { SplitAllots(t, n, hd, fl, i, k); } else { TakeAllots(t, n, hd, fl, i); }
  }

  /** Every page keeps its use: idle stays idle, busy runs keep their length, slab pages stay put.
      x and x' are the heads of the run in limbo before and after. */
  ghost predicate SameUse(t: seq<Page>, x: int, hd: seq<int>, r: seq<Page>, x': int, hd': seq<int>, n: nat) {
    && Heads(t, n, hd) && Heads(r, n, hd')
    && SlabsKept(t, r, n, x)
    && (forall i | 0 <= i < n :: Idle(r, n, x', hd', i) <==> Idle(t, n, x, hd, i))
    && (forall i | 0 <= i < n :: BusyLen(r, n, x', hd', i) == BusyLen(t, n, x, hd, i))
  }

  ghost predicate RightBusy(t: seq<Page>, n: nat, x: int)
    requires 0 <= x < n <= |t|
  {
    x + t[x].slab < n ==> !FreeHead(t, x, x + t[x].slab)
  }

  /** Descriptor j after a joining: only four are touched, and two get another tag. */
  lemma JoinedAt(t: seq<Page>, a: int, b: int, y: int, j: nat)
    requires 0 <= a < |t| && 0 <= b < |t| && a != b && (y == a || y == b) && j < |t|
    requires 0 <= t[y].prev < |t| && 0 <= t[y].next < |t| && t[y].prev != y
    ensures var (r, p, q) := (Joined(t, a, b, y)[j], t[y].prev, t[y].next);
            && (j != a && j != b && j != p && j != q ==> r == t[j])
            && r.tag == if j == b then PAGE else if j == q then t[y].tag else t[j].tag
  {
  }

  lemma JoinedKept(t: seq<Page>, n: nat, x: int, hd: seq<int>, fl: seq<int>, a: nat, b: nat, i: nat)
    requires RunsOk(t, n, x, hd, fl) && a < b < n && i < |fl| && (x == a || x == b)
    requires fl[i] == if x == a then b else a
    requires 0 <= t[fl[i]].prev < |t| && 0 <= t[fl[i]].next < |t| && t[fl[i]].prev != fl[i]
    ensures var r := Joined(t, a, b, fl[i]); SlabsKept(t, r, n, x)
  {
    var y := fl[i];
    ListedFacts(t, n, x, hd, fl, i);
    if t[y].prev < n { NeighbourListed(t, n, x, hd, fl, i, t[y].prev); }
    if t[y].next < n { NeighbourListed(t, n, x, hd, fl, i, t[y].next); }
    hide RunsOk, Joined;
    var r := Joined(t, a, b, y);
    forall j: nat | j < |t| && j != x && j != n
      ensures if j > n || t[j].tag != PAGE then r[j] == t[j] else r[j].tag == PAGE
    {
      JoinedAt(t, a, b, y, j);
    }
  }

  lemma JoinedSameUse(t: seq<Page>, n: nat, x: int, hd: seq<int>, fl: seq<int>, a: nat, b: nat, i: nat)
    requires RunsOk(t, n, x, hd, fl) && a < b < n && i < |fl| && (x == a || x == b)
    requires fl[i] == if x == a then b else a
    requires hd[a] == a && hd[b] == b && b == a + Len(t, x, a)
    requires 0 <= t[fl[i]].prev < |t| && 0 <= t[fl[i]].next < |t| && t[fl[i]].prev != fl[i]
    ensures SameUse(t, x, hd, Joined(t, a, b, fl[i]), a, Rehead(hd, b, b + t[b].slab, a), n)
  {
    var r := Joined(t, a, b, fl[i]);
    ListedFacts(t, n, x, hd, fl, i);
    JoinedKept(t, n, x, hd, fl, a, b, i);
    JoinedMerges(t, n, x, hd, fl, a, b, i);
    forall j | 0 <= j < n { MergeEffect(t, r, n, x, hd, a, b, j); }
  }

  /** After a free right neighbour was joined, the next run is not free. */
  lemma JoinedRightBusy(t: seq<Page>, n: nat, x: nat, hd: seq<int>, fl: seq<int>, b: nat, i: nat)
    requires RunsOk(t, n, x, hd, fl) && x < b < n && i < |fl| && fl[i] == b
    requires hd[b] == b && b == x + t[x].slab
    requires 0 <= t[b].prev < |t| && 0 <= t[b].next < |t| && t[b].prev != b
    ensures RightBusy(Joined(t, x, b, b), n, x)
  {
    var r := Joined(t, x, b, b);
    JoinedMerges(t, n, x, hd, fl, x, b, i);
    ListedFacts(t, n, x, hd, fl, i);
    var e := b + t[b].slab;
    if e < n {
      assert RunAt(t, n, x, hd, e);
      Covers(t, n, x, hd, b, e - 1);
      assert SameRole(t, r, e);
    }
  }

  /** Joining a free left neighbour leaves the right neighbour as it was. */
  lemma JoinedLeftBusy(t: seq<Page>, n: nat, x: nat, hd: seq<int>, fl: seq<int>, a: nat, i: nat)
    requires RunsOk(t, n, x, hd, fl) && a < x < n && i < |fl| && fl[i] == a
    requires hd[a] == a && x == a + t[a].slab && RightBusy(t, n, x)
    requires 0 <= t[a].prev < |t| && 0 <= t[a].next < |t| && t[a].prev != a
    ensures RightBusy(Joined(t, a, x, a), n, a)
    ensures a > 0 ==> !FreeHead(Joined(t, a, x, a), a, hd[a-1])
  {
    var r := Joined(t, a, x, a);
    JoinedMerges(t, n, x, hd, fl, a, x, i);
    ListedFacts(t, n, x, hd, fl, i);
    assert RunAt(t, n, x, hd, x) && RunAt(t, n, x, hd, a);
    var e := x + t[x].slab;
    if e < n { assert SameRole(t, r, e); }
    if a > 0 { MergePlace(t, n, x, hd, a, x, a - 1); assert SameRole(t, r, hd[a-1]); }
  }

  lemma ListedSameUse(t: seq<Page>, n: nat, x: nat, hd: seq<int>, fl: seq<int>)
    requires RunsOk(t, n, x, hd, fl) && x < n && x + t[x].slab <= n && 0 <= t[n].next < |t| && n < |t|
    ensures SameUse(t, x, hd, Listed(t, n, x), NULL, hd, n)
    ensures Listed(t, n, x)[x].tag == PAGE
  {
    assert RunAt(t, n, x, hd, x);
    var r := Listed(t, n, x);
    ListedAttaches(t, n, x, hd, fl);
    forall i | 0 <= i < n { AttachEffect(t, r, n, hd, x, i); }
    if |fl| > 0 { ListedFacts(t, n, x, hd, fl, 0); }
    var e := x + t[x].slab - 1;
    Covers(t, n, x, hd, x, e);
    assert PageOk(t, n, x, hd, e);
  }

  /** The slab page x is in the list l of slot s; its neighbours there are slab pages too. */
  ghost predicate OnSlot(t: seq<Page>, n: nat, s: int, l: seq<int>, k: nat, x: int) {
    && Chain(t, n, s, l) && n < s && k < |l| && l[k] == x
    && (forall j | 0 <= j < |l| :: t[l[j]].tag == t[x].tag)
  }

  /** From (t, hd) to (r, hd'), the k pages of run `page` became free, a slab page
      having left its slot list first, and no other page changed its part. */
  ghost predicate Released(t: seq<Page>, hd: seq<int>, r: seq<Page>, hd': seq<int>, n: nat, page: int, k: nat)
    requires 0 <= page < n < |t|
    requires t[page].next != NULL ==> 0 <= t[page].prev < |t| && 0 <= t[page].next < |t| && t[page].prev != page
  {
    && Heads(t, n, hd) && Heads(r, n, hd')
    && SlabsKept(if t[page].next != NULL then Unlinked(t, page) else t, r, n, page)
    && r[page].tag == PAGE
    && (forall i | 0 <= i < n ::
          PageFree(r, n, NULL, hd', i) <==> PageFree(t, n, NULL, hd, i) || page <= i < page + k)
    && (forall i | 0 <= i < n ::
          BusyLen(r, n, NULL, hd', i) == if i == page then 0 else BusyLen(t, n, NULL, hd, i))
  }

  /** The first half of freeing: out of use, off its slot list, in limbo. */
  function Withdrawn(t: seq<Page>, x: int, l: nat): (r: seq<Page>)
    requires 0 <= x < |t|
    requires t[x].next != NULL ==> 0 <= t[x].prev < |t| && 0 <= t[x].next < |t| && t[x].prev != x
    ensures |r| == |t|
  {
    var u := Cleared(t, x, l);
    if t[x].next != NULL then Unlinked(u, x) else u
  }

  lemma WithdrawnOk(t: seq<Page>, n: nat, hd: seq<int>, fl: seq<int>, x: nat, l: nat, s: int, sl: seq<int>, k: nat)
    requires RunsOk(t, n, NULL, hd, fl) && x < n && hd[x] == x && !FreeHead(t, NULL, x) && l == Len(t, NULL, x)
    requires t[x].next != NULL ==> OnSlot(t, n, s, sl, k, x)
    ensures t[x].next != NULL ==> 0 <= t[x].prev < |t| && 0 <= t[x].next < |t| && t[x].prev != x
    ensures n < |t| && l >= 1 && x + l <= n && RunsOk(Withdrawn(t, x, l), n, x, hd, fl)
    ensures forall i | 0 <= i < n ::
      Idle(Withdrawn(t, x, l), n, x, hd, i) <==> PageFree(t, n, NULL, hd, i) || x <= i < x + l
    ensures forall i | 0 <= i < n ::
      BusyLen(Withdrawn(t, x, l), n, x, hd, i) == if i == x then 0 else BusyLen(t, n, NULL, hd, i)
  {
    assert RunAt(t, n, NULL, hd, x);
    ClearedOk(t, n, hd, fl, x, l);
    var u := Cleared(t, x, l);
    forall i | 0 <= i < n { DetachEffect(t, u, n, hd, x, l, i); }
    if t[x].next != NULL {
      LinkFacts(t, n, s, sl, k);
      WithdrawnAlike(t, n, x, s, sl, k);
      AlikeOk(u, Unlinked(u, x), n, x, hd, fl);
    }
  }

  /** Descriptor j after an unlinking: the two neighbours are touched, and one gets another tag. */
  lemma UnlinkedDesc(t: seq<Page>, x: int, j: nat)
    requires 0 <= x < |t| && 0 <= t[x].prev < |t| && 0 <= t[x].next < |t| && t[x].prev != x && j < |t|
    ensures var (r, p, q) := (Unlinked(t, x)[j], t[x].prev, t[x].next);
            && (j != p && j != q ==> r == t[j])
            && r.slab == t[j].slab && r.tag == if j == q then t[x].tag else t[j].tag
  {
  }

  /** Rewriting the word of a page before unlinking it, or after, comes to the same. */
  lemma UnlinkedRewritten(t: seq<Page>, x: int, l: nat)
    requires 0 <= x < |t| && 0 <= t[x].prev < |t| && 0 <= t[x].next < |t| && t[x].prev != x && t[x].next != x
    ensures var r := Unlinked(t, x); Unlinked(t[x := t[x].(slab := l)], x) == r[x := r[x].(slab := l)]
  {
  }

  lemma WithdrawnAlike(t: seq<Page>, n: nat, x: nat, s: int, sl: seq<int>, k: nat)
    requires OnSlot(t, n, s, sl, k, x) && x < n && t[x].tag != PAGE
    requires 0 <= t[x].prev < |t| && 0 <= t[x].next < |t| && t[x].prev != x
    ensures RunsAlike(Cleared(t, x, 1), Unlinked(Cleared(t, x, 1), x), n, x)
    ensures SlabsKept(Unlinked(t, x), Withdrawn(t, x, 1), n, x)
    ensures forall j | 0 <= j < n && j != x :: t[j].tag != PAGE <==> Unlinked(t, x)[j].tag != PAGE
  {
    LinkFacts(t, n, s, sl, k);
    var (p, q, u) := (t[x].prev, t[x].next, t[x := t[x].(slab := 1)]);
    if p < n { assert 0 <= k - 1 && p == sl[k-1]; }
    if q < n { assert k + 1 < |sl| && q == sl[k+1]; }
    assert Cleared(t, x, 1) == u;
    hide Unlinked, Chain, At;
    UnlinkedRewritten(t, x, 1);
    UnlinkedDesc(t, x, n);
    forall j: nat | j < n && j != x
      ensures if t[j].tag == PAGE then Unlinked(t, x)[j] == t[j] else Unlinked(t, x)[j].tag != PAGE
    {
      UnlinkedDesc(t, x, j);
    }
  }

  lemma WithdrawnKept(t: seq<Page>, n: nat, hd: seq<int>, fl: seq<int>, x: nat, l: nat, s: int, sl: seq<int>, k: nat)
    requires RunsOk(t, n, NULL, hd, fl) && x < n && hd[x] == x && !FreeHead(t, NULL, x) && l == Len(t, NULL, x)
    requires t[x].next != NULL ==> OnSlot(t, n, s, sl, k, x)
    requires t[x].next != NULL ==> 0 <= t[x].prev < |t| && 0 <= t[x].next < |t| && t[x].prev != x
    ensures SlabsKept(if t[x].next != NULL then Unlinked(t, x) else t, Withdrawn(t, x, l), n, x)
  {
    if t[x].next != NULL {
      WithdrawnAlike(t, n, x, s, sl, k);
    } else {
      assert RunAt(t, n, NULL, hd, x);
      forall j | x < j < x + l ensures t[j].tag == PAGE {
        Covers(t, n, NULL, hd, x, j);
        assert PageOk(t, n, NULL, hd, j);
      }
    }
  }

  /** A free run, cleared and off the free list, is in limbo like any other. */
  lemma FreeDetached(t: seq<Page>, n: nat, hd: seq<int>, fl: seq<int>, i: nat)
    requires RunsOk(t, n, NULL, hd, fl) && i < |fl|
    ensures var h := fl[i];
            && 0 <= t[h].prev < |t| && 0 <= t[h].next < |t| && t[h].prev != h && h + t[h].slab <= n
            && Detached(t, Withdrawn(t, h, t[h].slab), n, h, t[h].slab)
            && Chain(Withdrawn(t, h, t[h].slab), n, n, fl[..i] + fl[i+1..])
  {
    var h := fl[i];
    ListedFacts(t, n, NULL, hd, fl, i);
    Surroundings(t, n, NULL, hd, fl, i);
    var l := t[h].slab;
    var u := Cleared(t, h, l);
    var r := Unlinked(u, h);
    forall k | 0 <= k < |fl| ensures u[fl[k]].next == t[fl[k]].next && u[fl[k]].prev == t[fl[k]].prev {
      if h < fl[k] < h + l { InsideUnlisted(t, n, NULL, hd, fl, i, fl[k]); }
    }
    ChainFrame(t, u, n, n, fl);
    ChainUnlink(u, n, n, fl, i);
    forall j | 0 <= j < n && !(h <= j < h + l) ensures SameRole(t, r, j) {
      if j == t[h].prev || j == t[h].next { NeighbourListed(t, n, NULL, hd, fl, i, j); }
    }
  }

  /** Like WithdrawnOk and WithdrawnKept, for a run that is free already. */
  lemma FreeWithdrawn(t: seq<Page>, n: nat, hd: seq<int>, fl: seq<int>, i: nat)
    requires RunsOk(t, n, NULL, hd, fl) && i < |fl|
    ensures var (h, l) := (fl[i], t[fl[i]].slab);
            && 0 <= h < n && 0 <= t[h].prev < |t| && 0 <= t[h].next < |t| && t[h].prev != h && l >= 1 && h + l <= n
            && RunsOk(Withdrawn(t, h, l), n, h, hd, fl[..i] + fl[i+1..])
            && SlabsKept(Unlinked(t, h), Withdrawn(t, h, l), n, h)
            && (forall j | 0 <= j < n ::
                  Idle(Withdrawn(t, h, l), n, h, hd, j) <==> PageFree(t, n, NULL, hd, j) || h <= j < h + l)
            && (forall j | 0 <= j < n ::
                  BusyLen(Withdrawn(t, h, l), n, h, hd, j) == if j == h then 0 else BusyLen(t, n, NULL, hd, j))
  {
    var h := fl[i];
    ListedFacts(t, n, NULL, hd, fl, i);
    FreeDetached(t, n, hd, fl, i);
    var l := t[h].slab;
    var r := Withdrawn(t, h, l);
    DetachTiled(t, r, n, hd, h, l);
    forall j | 0 <= j < n { DetachEffect(t, r, n, hd, h, l, j); }
    forall g | 0 <= g < n ensures g in fl[..i] + fl[i+1..] <==> hd[g] == g && FreeHead(r, h, g) {
      InRemoved(fl, i, g);
      if h < g < h + l { Covers(t, n, NULL, hd, h, g); }
      else if g != h { assert SameRole(t, r, g); }
    }
    FreeKept(t, n, hd, fl, i);
  }

  lemma FreeKept(t: seq<Page>, n: nat, hd: seq<int>, fl: seq<int>, i: nat)
    requires RunsOk(t, n, NULL, hd, fl) && i < |fl|
    requires var h := fl[i]; 0 <= h < n && 0 <= t[h].prev < |t| && 0 <= t[h].next < |t| && t[h].prev != h
    ensures SlabsKept(Unlinked(t, fl[i]), Withdrawn(t, fl[i], t[fl[i]].slab), n, fl[i])
  {
    Surroundings(t, n, NULL, hd, fl, i);
  }

  lemma JoinedLeftAll(t: seq<Page>, n: nat, x: nat, hd: seq<int>, fl: seq<int>, a: nat, i: nat)
    requires RunsOk(t, n, x, hd, fl) && a < x < n && i < |fl| && fl[i] == a && RightBusy(t, n, x)
    requires hd[a] == a && x == a + Len(t, x, a)
    ensures 0 <= t[a].prev < |t| && 0 <= t[a].next < |t| && t[a].prev != a
    ensures var r := Joined(t, a, x, a); var hd' := Rehead(hd, x, x + t[x].slab, a);
            && RunsOk(r, n, a, hd', fl[..i] + fl[i+1..])
            && SameUse(t, x, hd, r, a, hd', n)
            && Isolated(r, n, a, hd')
            && r[x].tag == PAGE && r[a].slab == t[a].slab + t[x].slab
  {
    ListedFacts(t, n, x, hd, fl, i);
    JoinedOk(t, n, x, hd, fl, a, x, i);
    JoinedSameUse(t, n, x, hd, fl, a, x, i);
    JoinedLeftBusy(t, n, x, hd, fl, a, i);
    JoinedMerges(t, n, x, hd, fl, a, x, i);
  }

  /** The steps of a release, put together: withdrawn, joined right, joined left, listed. */
  lemma ReleaseSteps(t: seq<Page>, hd: seq<int>, x: nat, l: nat, u: seq<Page>, v: seq<Page>, hd1: seq<int>,
                     w: seq<Page>, h: int, hd2: seq<int>, r: seq<Page>, n: nat)
    requires x < n < |t| && 0 <= h <= x
    requires t[x].next != NULL ==> 0 <= t[x].prev < |t| && 0 <= t[x].next < |t| && t[x].prev != x
    requires Heads(t, n, hd) && Heads(u, n, hd)
    requires SlabsKept(if t[x].next != NULL then Unlinked(t, x) else t, u, n, x)
    requires forall i | 0 <= i < n :: Idle(u, n, x, hd, i) <==> PageFree(t, n, NULL, hd, i) || x <= i < x + l
    requires forall i | 0 <= i < n :: BusyLen(u, n, x, hd, i) == if i == x then 0 else BusyLen(t, n, NULL, hd, i)
    requires SameUse(u, x, hd, v, x, hd1, n) && SameUse(v, x, hd1, w, h, hd2, n) && SameUse(w, h, hd2, r, NULL, hd2, n)
    requires (h != x ==> w[x].tag == PAGE && v[h].tag == PAGE) && r[h].tag == PAGE
    ensures Released(t, hd, r, hd2, n, x, l)
  {
    forall i | 0 <= i < n ensures
      && (PageFree(r, n, NULL, hd2, i) <==> PageFree(t, n, NULL, hd, i) || x <= i < x + l)
      && (BusyLen(r, n, NULL, hd2, i) == if i == x then 0 else BusyLen(t, n, NULL, hd, i))
    {
      assert Idle(r, n, NULL, hd2, i) <==> Idle(u, n, x, hd, i);
    }
    KeptSteps(if t[x].next != NULL then Unlinked(t, x) else t, u, v, w, r, n, x, h);
  }

  lemma KeptSteps(t: seq<Page>, u: seq<Page>, v: seq<Page>, w: seq<Page>, r: seq<Page>, n: nat, x: nat, h: nat)
    requires x < n <= |t| && h < n
    requires SlabsKept(t, u, n, x) && SlabsKept(u, v, n, x) && SlabsKept(v, w, n, x) && SlabsKept(w, r, n, h)
    requires (h != x ==> w[x].tag == PAGE && v[h].tag == PAGE) && r[h].tag == PAGE
    ensures SlabsKept(t, r, n, x) && r[x].tag == PAGE
  {
  }
}
