/** Page runs: how the descriptor table tiles the pool into free runs, busy runs
    and single slab pages, and how splitting and coalescing keep the tiling.

    `hd[i]` is the first page of the run page i belongs to.  While
    `dfs_slab_free_pages` is at work, the run it frees is in limbo: head `x`,
    length in its `slab` word, neither busy nor on the free list (x == NULL
    otherwise). */
module SlabRuns {
  import opened SlabTable

  ghost predicate FreeHead(t: seq<Page>, x: int, h: int)
    requires 0 <= h < |t|
  {
    h != x && t[h].tag == PAGE && t[h].next != NULL
  }

  ghost function Len(t: seq<Page>, x: int, h: int): int
    requires 0 <= h < |t|
  {
    if h == x then t[h].slab
    else if t[h].tag != PAGE then 1
    else if t[h].next != NULL then t[h].slab
    else t[h].slab - PAGE_START
  }

  ghost predicate Heads(t: seq<Page>, n: nat, hd: seq<int>) {
    n <= |t| && |hd| == n && n + 1 < PAGE_START && forall i | 0 <= i < n :: 0 <= hd[i] <= i
  }

  /** Page i lies inside its run, the run lies inside the pool, and runs follow one
      another without gap or overlap; no free run follows a free run. */
  ghost predicate RunAt(t: seq<Page>, n: nat, x: int, hd: seq<int>, i: int)
    requires Heads(t, n, hd) && 0 <= i < n
  {
    && i < hd[i] + Len(t, x, hd[i]) <= n
    && (if i == 0 then true
        else if hd[i] == i then
          && i == hd[i-1] + Len(t, x, hd[i-1])
          && !(FreeHead(t, x, hd[i-1]) && FreeHead(t, x, i))
        else hd[i] == hd[i-1])
  }

  /** What the descriptor of page i holds, by its role. */
  ghost predicate PageOk(t: seq<Page>, n: nat, x: int, hd: seq<int>, i: int)
    requires Heads(t, n, hd) && 0 <= i < n
  {
    var h := hd[i];
    if i == h then
      || i == x
      || t[i].tag != PAGE
      || (t[i].next == NULL && t[i].prev == NULL && t[i].slab > PAGE_START)
      || (t[i].next != NULL && t[i].slab < PAGE_START)
    else
      && t[i].next == NULL && t[i].tag == PAGE
      && t[i].slab == (if h == x || FreeHead(t, x, h) then PAGE_FREE else PAGE_BUSY)
      // the last page of a free run points back at its head, unless the run ends the pool
      && (FreeHead(t, x, h) && i + 1 == h + Len(t, x, h) && i + 1 < n ==> t[i].prev == h)
  }

  /** Every page lies in exactly one run, and every descriptor fits its page's role. */
  ghost predicate Tiled(t: seq<Page>, n: nat, x: int, hd: seq<int>) {
    && Heads(t, n, hd)
    && (x == NULL || (0 <= x < n && hd[x] == x))
    && (forall i | 0 <= i < n :: RunAt(t, n, x, hd, i))
    && (forall i | 0 <= i < n :: PageOk(t, n, x, hd, i))
  }

  /** The free list holds exactly the heads of the free runs. */
  ghost predicate FreeListed(t: seq<Page>, n: nat, x: int, hd: seq<int>, fl: seq<int>)
    requires n <= |t| && |hd| == n
  {
    && Chain(t, n, n, fl)
    && (forall h | 0 <= h < n :: h in fl <==> hd[h] == h && FreeHead(t, x, h))
  }

  lemma {:induction false} HeadOfHead(t: seq<Page>, n: nat, x: int, hd: seq<int>, i: nat)
    requires Tiled(t, n, x, hd) && i < n
    ensures hd[hd[i]] == hd[i]
  {
    assert RunAt(t, n, x, hd, i);
    if hd[i] != i { HeadOfHead(t, n, x, hd, i - 1); }
  }

  /** A run covers all the pages its length says. */
  lemma {:induction false} Covers(t: seq<Page>, n: nat, x: int, hd: seq<int>, h: nat, i: nat)
    requires Tiled(t, n, x, hd) && h < n && hd[h] == h && h <= i < h + Len(t, x, h)
    ensures i < n && hd[i] == h
  {
    assert RunAt(t, n, x, hd, h);
    if i != h {
      Covers(t, n, x, hd, h, i - 1);
      assert RunAt(t, n, x, hd, i);
    }
  }

  /** A page outside a run has its head outside it too. */
  lemma Outside(t: seq<Page>, n: nat, x: int, hd: seq<int>, h: nat, i: nat)
    requires Tiled(t, n, x, hd) && h < n && hd[h] == h && i < n
    requires !(h <= i < h + Len(t, x, h))
    ensures !(h <= hd[i] < h + Len(t, x, h))
  {
    assert RunAt(t, n, x, hd, i);
    HeadOfHead(t, n, x, hd, i);
    if h <= hd[i] < h + Len(t, x, h) { Covers(t, n, x, hd, h, hd[i]); }
  }

  /** Page j plays the same part in both tables; only links between list members may differ. */
  ghost predicate SameRole(t: seq<Page>, r: seq<Page>, j: int)
    requires 0 <= j < |t| && |r| == |t|
  {
    && r[j].slab == t[j].slab && r[j].tag == t[j].tag
    && (t[j].next == NULL <==> r[j].next == NULL)
    && (t[j].next == NULL ==> r[j].prev == t[j].prev)
  }

  ghost function Rehead(hd: seq<int>, a: int, b: int, v: int): (r: seq<int>)
    ensures |r| == |hd|
    ensures forall i | 0 <= i < |hd| :: r[i] == if a <= i < b then v else hd[i]
  {
    seq(|hd|, i requires 0 <= i < |hd| => if a <= i < b then v else hd[i])
  }

  // ------------------------------------------------------- splitting a free run

  /** r is t after the first k pages of the free run h were made busy. */
  ghost predicate Carved(t: seq<Page>, r: seq<Page>, n: nat, h: int, k: nat)
    requires n <= |t| && 0 <= h < n
  {
    var l := t[h].slab;
    && |r| == |t| && 1 <= k <= l && h + l <= n
    && (forall j | 0 <= j < n && !(h <= j < h + l) :: SameRole(t, r, j))
    && r[h] == Page(PAGE_START + k, NULL, NULL, PAGE)
    && (forall j | h < j < h + k :: r[j] == INSIDE)
    && (k < l ==> r[h+k].slab == l - k && r[h+k].tag == PAGE && r[h+k].next != NULL)
    && (forall j | h + k < j < h + l :: r[j].next == NULL && r[j].tag == PAGE && r[j].slab == PAGE_FREE)
    && (k + 1 < l ==> r[h+l-1].prev == h + k)
  }

  /** The run of page i after the carving: the taken pages, the rest of the run, or the run it was. */
  lemma CarveLen(t: seq<Page>, r: seq<Page>, n: nat, hd: seq<int>, h: nat, k: nat, i: nat)
    requires Tiled(t, n, NULL, hd) && h < n && hd[h] == h && FreeHead(t, NULL, h)
    requires Carved(t, r, n, h, k) && i < n
    ensures var (l, g, g') := (t[h].slab, hd[i], Rehead(hd, h + k, h + t[h].slab, h + k)[i]);
            if h <= i < h + k then g == g' == h && Len(r, NULL, h) == k && !FreeHead(r, NULL, h)
            else if h + k <= i < h + l then
              g == h && g' == h + k && Len(r, NULL, h + k) == l - k && FreeHead(r, NULL, h + k)
            else
              && g' == g && !(h <= g < h + l)
              && Len(r, NULL, g) == Len(t, NULL, g) && FreeHead(r, NULL, g) == FreeHead(t, NULL, g)
  {
    assert RunAt(t, n, NULL, hd, i);
    if h <= i < h + t[h].slab { Covers(t, n, NULL, hd, h, i); }
    else { Outside(t, n, NULL, hd, h, i); assert SameRole(t, r, hd[i]); }
  }

  lemma CarveRun(t: seq<Page>, r: seq<Page>, n: nat, hd: seq<int>, h: nat, k: nat, i: nat)
    requires Tiled(t, n, NULL, hd) && h < n && hd[h] == h && FreeHead(t, NULL, h)
    requires Carved(t, r, n, h, k) && i < n
    ensures RunAt(r, n, NULL, Rehead(hd, h + k, h + t[h].slab, h + k), i)
  {
    assert RunAt(t, n, NULL, hd, i) && Len(t, NULL, h) == t[h].slab;
    CarveLen(t, r, n, hd, h, k, i);
    if i > 0 { CarveLen(t, r, n, hd, h, k, i - 1); }
    hide Len, FreeHead, Tiled, Rehead;
  }

  lemma CarvePage(t: seq<Page>, r: seq<Page>, n: nat, hd: seq<int>, h: nat, k: nat, i: nat)
    requires Tiled(t, n, NULL, hd) && h < n && hd[h] == h && FreeHead(t, NULL, h)
    requires Carved(t, r, n, h, k) && i < n
    ensures PageOk(r, n, NULL, Rehead(hd, h + k, h + t[h].slab, h + k), i)
  {
    var l := t[h].slab;
    assert PageOk(t, n, NULL, hd, i) && PageOk(t, n, NULL, hd, h);
    if h <= i < h + l {
      Covers(t, n, NULL, hd, h, i);
    } else {
      Outside(t, n, NULL, hd, h, i);
      assert SameRole(t, r, hd[i]) && SameRole(t, r, i);
    }
  }

  lemma CarveTiled(t: seq<Page>, r: seq<Page>, n: nat, hd: seq<int>, h: nat, k: nat)
    requires Tiled(t, n, NULL, hd) && h < n && hd[h] == h && FreeHead(t, NULL, h)
    requires Carved(t, r, n, h, k)
    ensures Tiled(r, n, NULL, Rehead(hd, h + k, h + t[h].slab, h + k))
  {
    var hd' := Rehead(hd, h + k, h + t[h].slab, h + k);
    forall i | 0 <= i < n ensures RunAt(r, n, NULL, hd', i) && PageOk(r, n, NULL, hd', i) {
      CarveRun(t, r, n, hd, h, k, i);
      CarvePage(t, r, n, hd, h, k, i);
    }
  }

  /** x is the free run of the two adjacent runs a and b that gives up its place on
      the free list; one of a, b is in limbo, and so is their union afterwards. */
  ghost predicate Merged(t: seq<Page>, r: seq<Page>, n: nat, x: int, a: int, b: int)
    requires n <= |t| && 0 <= a < b < n
  {
    && |r| == |t|
    && (forall j | 0 <= j < n && j != a && j != b :: SameRole(t, r, j))
    && r[a].slab == t[a].slab + t[b].slab
    && r[b] == CLEARED
  }

  lemma MergeTiled(t: seq<Page>, r: seq<Page>, n: nat, x: int, hd: seq<int>, a: nat, b: nat)
    requires Tiled(t, n, x, hd) && a < b < n && hd[a] == a && hd[b] == b
    requires b == a + Len(t, x, a)
    requires (x == a && FreeHead(t, x, b)) || (x == b && FreeHead(t, x, a))
    requires Merged(t, r, n, x, a, b)
    ensures Tiled(r, n, a, Rehead(hd, b, b + t[b].slab, a))
  {
    var hd' := Rehead(hd, b, b + t[b].slab, a);
    assert RunAt(t, n, x, hd, b) && PageOk(t, n, x, hd, b) && PageOk(t, n, x, hd, a);
    forall i | 0 <= i < n ensures RunAt(r, n, a, hd', i) && PageOk(r, n, a, hd', i) {
      MergeRun(t, r, n, x, hd, a, b, i);
      MergePage(t, r, n, x, hd, a, b, i);
    }
  }

  /** Where page i and its head stand relative to the two runs being merged. */
  lemma MergePlace(t: seq<Page>, n: nat, x: int, hd: seq<int>, a: nat, b: nat, i: nat)
    requires Tiled(t, n, x, hd) && a < b < n && hd[a] == a && hd[b] == b
    requires b == a + Len(t, x, a) && i < n
    ensures a <= i < b ==> hd[i] == a
    ensures b <= i < b + Len(t, x, b) ==> hd[i] == b
    ensures !(a <= i < b + Len(t, x, b)) ==> hd[i] != a && hd[i] != b
  {
    assert RunAt(t, n, x, hd, a) && RunAt(t, n, x, hd, b);
    if a <= i < b { Covers(t, n, x, hd, a, i); }
    else {
      Outside(t, n, x, hd, a, i);
      if b <= i < b + Len(t, x, b) { Covers(t, n, x, hd, b, i); }
      else { Outside(t, n, x, hd, b, i); }
    }
  }

  /** The run of page i after the merging: the union of a and b, or the run it was. */
  lemma MergeLen(t: seq<Page>, r: seq<Page>, n: nat, x: int, hd: seq<int>, a: nat, b: nat, i: nat)
    requires Tiled(t, n, x, hd) && a < b < n && hd[a] == a && hd[b] == b
    requires b == a + Len(t, x, a)
    requires (x == a && FreeHead(t, x, b)) || (x == b && FreeHead(t, x, a))
    requires Merged(t, r, n, x, a, b) && i < n
    ensures var (h, h') := (hd[i], Rehead(hd, b, b + t[b].slab, a)[i]);
            if h == a || h == b then h' == a && Len(r, a, a) == Len(t, x, a) + Len(t, x, b) && a <= i < b + Len(t, x, b)
            else h' == h && Len(r, a, h) == Len(t, x, h) && FreeHead(r, a, h) == FreeHead(t, x, h)
                 && !(a <= i < b + Len(t, x, b))
  {
    assert RunAt(t, n, x, hd, i);
    MergePlace(t, n, x, hd, a, b, i);
    if hd[i] != a && hd[i] != b { assert SameRole(t, r, hd[i]); }
  }

  lemma MergeRun(t: seq<Page>, r: seq<Page>, n: nat, x: int, hd: seq<int>, a: nat, b: nat, i: nat)
    requires Tiled(t, n, x, hd) && a < b < n && hd[a] == a && hd[b] == b
    requires b == a + Len(t, x, a)
    requires (x == a && FreeHead(t, x, b)) || (x == b && FreeHead(t, x, a))
    requires Merged(t, r, n, x, a, b) && i < n
    ensures RunAt(r, n, a, Rehead(hd, b, b + t[b].slab, a), i)
  {
    assert RunAt(t, n, x, hd, i) && RunAt(t, n, x, hd, b) && !FreeHead(r, a, a);
    MergeLen(t, r, n, x, hd, a, b, i);
    if i > 0 { MergeLen(t, r, n, x, hd, a, b, i - 1); }
    hide Len, FreeHead, Merged, Tiled, Rehead;
  }

  lemma MergePage(t: seq<Page>, r: seq<Page>, n: nat, x: int, hd: seq<int>, a: nat, b: nat, i: nat)
    requires Tiled(t, n, x, hd) && a < b < n && hd[a] == a && hd[b] == b
    requires b == a + Len(t, x, a)
    requires (x == a && FreeHead(t, x, b)) || (x == b && FreeHead(t, x, a))
    requires Merged(t, r, n, x, a, b) && i < n
    ensures PageOk(r, n, a, Rehead(hd, b, b + t[b].slab, a), i)
  {
    assert PageOk(t, n, x, hd, i);
    MergePlace(t, n, x, hd, a, b, i);
    if i != a && i != b { assert SameRole(t, r, i); }
    if hd[i] != a && hd[i] != b { assert SameRole(t, r, hd[i]); }
  }

  // ------------------------------------------------------- into and out of limbo

  /** r is t with the run or slab page x, l pages long, cleared. */
  ghost predicate Detached(t: seq<Page>, r: seq<Page>, n: nat, x: int, l: nat)
    requires n <= |t| && 0 <= x < n && x + l <= n
  {
    && |r| == |t| && r[x].slab == l
    && (forall j | x < j < x + l :: r[j] == CLEARED)
    && (forall j | 0 <= j < n && !(x <= j < x + l) :: SameRole(t, r, j))
  }

  lemma DetachTiled(t: seq<Page>, r: seq<Page>, n: nat, hd: seq<int>, x: nat, l: nat)
    requires Tiled(t, n, NULL, hd) && x < n && hd[x] == x
    requires l == Len(t, NULL, x) && x + l <= n && Detached(t, r, n, x, l)
    ensures Tiled(r, n, x, hd)
  {
    forall i | 0 <= i < n ensures RunAt(r, n, x, hd, i) && PageOk(r, n, x, hd, i) {
      DetachAt(t, r, n, hd, x, l, i);
    }
  }

  lemma DetachAt(t: seq<Page>, r: seq<Page>, n: nat, hd: seq<int>, x: nat, l: nat, i: nat)
    requires Tiled(t, n, NULL, hd) && x < n && hd[x] == x
    requires l == Len(t, NULL, x) && x + l <= n && Detached(t, r, n, x, l) && i < n
    ensures RunAt(r, n, x, hd, i) && PageOk(r, n, x, hd, i)
  {
    assert RunAt(t, n, NULL, hd, i) && PageOk(t, n, NULL, hd, i);
    if x <= i < x + l { Covers(t, n, NULL, hd, x, i); }
    else { Outside(t, n, NULL, hd, x, i); assert SameRole(t, r, i) && SameRole(t, r, hd[i]); }
    if i > 0 {
      if x <= i - 1 < x + l { Covers(t, n, NULL, hd, x, i - 1); }
      else { Outside(t, n, NULL, hd, x, i - 1); assert SameRole(t, r, hd[i-1]); }
    }
  }

  /** r is t with the run in limbo on the free list. */
  ghost predicate Attached(t: seq<Page>, r: seq<Page>, n: nat, x: int)
    requires n <= |t| && 0 <= x < n
  {
    var l := t[x].slab;
    && |r| == |t| && r[x].slab == l && r[x].tag == PAGE && r[x].next != NULL
    && (forall j | 0 <= j < n && j != x && j != x + l - 1 :: SameRole(t, r, j))
    && (1 < l && x + l <= n ==>
          r[x+l-1].slab == t[x+l-1].slab && r[x+l-1].tag == t[x+l-1].tag
          && r[x+l-1].next == t[x+l-1].next && r[x+l-1].prev == x)
  }

  /** The neighbours of a run in limbo are not free. */
  ghost predicate Isolated(t: seq<Page>, n: nat, x: int, hd: seq<int>)
    requires Heads(t, n, hd) && 0 <= x < n
  {
    && (x > 0 ==> !FreeHead(t, x, hd[x-1]))
    && (x + t[x].slab < n ==> !FreeHead(t, x, x + t[x].slab))
  }

  lemma AttachTiled(t: seq<Page>, r: seq<Page>, n: nat, hd: seq<int>, x: nat)
    requires x < n && Tiled(t, n, x, hd) && Isolated(t, n, x, hd) && Attached(t, r, n, x)
    ensures Tiled(r, n, NULL, hd)
  {
    forall i | 0 <= i < n ensures RunAt(r, n, NULL, hd, i) && PageOk(r, n, NULL, hd, i) {
      AttachAt(t, r, n, hd, x, i);
    }
  }

  lemma AttachAt(t: seq<Page>, r: seq<Page>, n: nat, hd: seq<int>, x: nat, i: nat)
    requires x < n && Tiled(t, n, x, hd) && Isolated(t, n, x, hd) && Attached(t, r, n, x)
    requires i < n
    ensures RunAt(r, n, NULL, hd, i) && PageOk(r, n, NULL, hd, i)
  {
    var l := t[x].slab;
    assert RunAt(t, n, x, hd, x) && RunAt(t, n, x, hd, i) && PageOk(t, n, x, hd, i);
    var e := x + l - 1;
    Covers(t, n, x, hd, x, e);
    HeadOfHead(t, n, x, hd, i);
    assert forall j | 0 <= j < n && hd[j] == j && j != x :: SameRole(t, r, j);
    if i != x && i != e { assert SameRole(t, r, i); }
    if i > 0 { HeadOfHead(t, n, x, hd, i - 1); }
    if x <= i < x + l { Covers(t, n, x, hd, x, i); } else { Outside(t, n, x, hd, x, i); }
  }

  // ------------------------------------------------------- the whole page layer

  ghost predicate RunsOk(t: seq<Page>, n: nat, x: int, hd: seq<int>, fl: seq<int>) {
    Tiled(t, n, x, hd) && FreeListed(t, n, x, hd, fl)
  }

  /** Page i belongs to a free run. */
  ghost predicate PageFree(t: seq<Page>, n: nat, x: int, hd: seq<int>, i: int)
    requires Heads(t, n, hd) && 0 <= i < n
  {
    FreeHead(t, x, hd[i])
  }

  /** Length of the busy run that starts at page i, or 0. */
  ghost function BusyLen(t: seq<Page>, n: nat, x: int, hd: seq<int>, i: int): int
    requires Heads(t, n, hd) && 0 <= i < n
  {
    if hd[i] == i && i != x && t[i].tag == PAGE && t[i].next == NULL then t[i].slab - PAGE_START else 0
  }

  /** k free pages in a row, from page a on. */
  ghost predicate FreeSpan(t: seq<Page>, n: nat, hd: seq<int>, a: int, k: int)
    requires Heads(t, n, hd)
  {
    0 <= a && a + k <= n && forall i | a <= i < a + k :: PageFree(t, n, NULL, hd, i)
  }

  /** Free pages in a row always share one run, because no two free runs touch. */
  lemma {:induction false} SpanInOneRun(t: seq<Page>, n: nat, hd: seq<int>, a: int, k: nat)
    requires Tiled(t, n, NULL, hd) && k >= 1 && FreeSpan(t, n, hd, a, k)
    ensures hd[a + k - 1] == hd[a]
    ensures FreeHead(t, NULL, hd[a]) && Len(t, NULL, hd[a]) >= k && hd[hd[a]] == hd[a]
  {
    var e := a + k - 1;
    assert PageFree(t, n, NULL, hd, a) && PageFree(t, n, NULL, hd, e);
    assert RunAt(t, n, NULL, hd, e);
    HeadOfHead(t, n, NULL, hd, a);
    if k > 1 {
      SpanInOneRun(t, n, hd, a, k - 1);
      assert PageFree(t, n, NULL, hd, e - 1);
    }
  }

  /** A pool without busy runs and slab pages is one free run. */
  lemma WholePoolFree(t: seq<Page>, n: nat, hd: seq<int>, fl: seq<int>)
    requires RunsOk(t, n, NULL, hd, fl) && n > 0
    requires forall i | 0 <= i < n :: t[i].tag == PAGE && BusyLen(t, n, NULL, hd, i) == 0
    ensures fl == [0] && t[0].slab == n
  {
    forall i | 0 <= i < n ensures PageFree(t, n, NULL, hd, i) {
      HeadOfHead(t, n, NULL, hd, i);
      assert PageOk(t, n, NULL, hd, hd[i]);
      assert BusyLen(t, n, NULL, hd, hd[i]) == 0;
    }
    SpanInOneRun(t, n, hd, 0, n);
    assert RunAt(t, n, NULL, hd, 0) && hd[0] == 0;
    assert 0 in fl;
    if |fl| > 1 {
      assert fl[0] in fl && fl[1] in fl;
      Covers(t, n, NULL, hd, 0, fl[0]);
      Covers(t, n, NULL, hd, 0, fl[1]);
    }
  }
}
