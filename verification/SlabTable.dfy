/** The page table of the slab allocator: descriptors, circular lists and page runs.

    A descriptor index stands for the address of a `dfs_slab_page_t`: pages are
    0 .. n-1, the free-list sentinel `pool->free` is n, and slot k is n+1+k.  The
    word `prev` is kept as an index and the two tag bits packed beside it. */
module SlabTable {

  datatype Page = Page(slab: nat, next: int, prev: int, tag: nat)

  const NULL: int := -1

  // The tags packed in the low bits of `prev`
  const PAGE: nat := 0
  const BIG: nat := 1
  const EXACT: nat := 2
  const SMALL: nat := 3

  const PAGE_FREE: nat := 0
  const PAGE_BUSY: nat := 0xffff_ffff_ffff_ffff
  const PAGE_START: nat := 0x8000_0000_0000_0000

  const CLEARED: Page := Page(PAGE_FREE, NULL, NULL, PAGE)
  const INSIDE: Page := Page(PAGE_BUSY, NULL, NULL, PAGE)

  // ---------------------------------------------------------------- lists

  /** Node at position k of the circular list `l` with sentinel `s`. */
  function At(l: seq<int>, s: int, k: int): int {
    if 0 <= k < |l| then l[k] else s
  }

  ghost predicate Distinct(l: seq<int>) {
    forall j, k | 0 <= j < k < |l| :: l[j] != l[k]
  }

  /** The node at position k is linked to its neighbours, both ways. */
  ghost predicate LinkAt(t: seq<Page>, n: nat, s: int, l: seq<int>, k: int)
    requires 0 <= k < |l| && 0 <= l[k] < |t|
  {
    && t[l[k]].next == At(l, s, k + 1)
    && t[l[k]].prev == At(l, s, k - 1)
  }

  /** `l` is the circular list of sentinel `s`.  (The `prev` of a sentinel is never
      read, and `dfs_slab_init` does not set it.) */
  ghost predicate Chain(t: seq<Page>, n: nat, s: int, l: seq<int>) {
    && n <= s < |t|
    && t[s].next == At(l, s, 0)
    && (forall k | 0 <= k < |l| :: 0 <= l[k] < n)
    && (forall k | 0 <= k < |l| :: LinkAt(t, n, s, l, k))
    && Distinct(l)
  }

  /** Different positions of a list hold different nodes, none of them the sentinel. */
  lemma AtInjective(t: seq<Page>, n: nat, s: int, l: seq<int>, i: int, j: int)
    requires Chain(t, n, s, l) && 0 <= i < |l| && i != j
    ensures 0 <= l[i] < n && At(l, s, i) != At(l, s, j)
  {
    assert LinkAt(t, n, s, l, i);
  }

  /** The neighbours of a node are descriptors, and not the node itself. */
  lemma LinkFacts(t: seq<Page>, n: nat, s: int, l: seq<int>, k: nat)
    requires Chain(t, n, s, l) && k < |l|
    ensures var x := l[k];
            && 0 <= x < n <= s < |t|
            && t[x].next == At(l, s, k + 1) && 0 <= t[x].next < |t| && t[x].next != x
            && t[x].prev == At(l, s, k - 1) && 0 <= t[x].prev < |t| && t[x].prev != x
  {
    assert LinkAt(t, n, s, l, k);
    if 0 < k { assert LinkAt(t, n, s, l, k - 1); }
    if k + 1 < |l| { assert LinkAt(t, n, s, l, k + 1); }
    AtInjective(t, n, s, l, k, k - 1);
    AtInjective(t, n, s, l, k, k + 1);
  }

  /** The two neighbours of x linked to each other. */
  function Unlinked(t: seq<Page>, x: int): (r: seq<Page>)
    requires 0 <= x < |t| && 0 <= t[x].prev < |t| && 0 <= t[x].next < |t| && t[x].prev != x
    ensures |r| == |t|
  {
    var u := t[t[x].prev := t[t[x].prev].(next := t[x].next)];
    u[u[x].next := u[u[x].next].(prev := u[x].prev, tag := u[x].tag)]
  }

  /** x becomes the first node of sentinel s. */
  function Pushed(t: seq<Page>, s: int, x: int, tag: nat): (r: seq<Page>)
    requires 0 <= x < |t| && 0 <= s < |t| && 0 <= t[s].next < |t| && x != s
    ensures |r| == |t|
  {
    var first := t[s].next;
    var u := t[x := t[x].(next := first, prev := s, tag := tag)];
    var v := u[first := u[first].(prev := x, tag := tag)];
    v[s := v[s].(next := x)]
  }

  /** y, holding v, takes the place of x. */
  function Replaced(t: seq<Page>, x: int, y: int, v: Page): (r: seq<Page>)
    requires 0 <= x < |t| && 0 <= t[x].prev < |t| && 0 <= t[x].next < |t| && 0 <= y < |t|
    requires t[x].prev != x
    ensures |r| == |t|
  {
    var u := t[y := v];
    var w := u[t[x].prev := u[t[x].prev].(next := y)];
    w[t[x].next := w[t[x].next].(prev := y, tag := PAGE)]
  }

  /** Positions shift down by one past a removed node. */
  lemma AtRemoved(l: seq<int>, s: int, k: nat, j: int)
    requires k < |l|
    ensures At(l[..k] + l[k+1..], s, j) == At(l, s, if j < k then j else j + 1)
  {
  }

  lemma UnlinkedAt(t: seq<Page>, n: nat, s: int, l: seq<int>, k: nat, i: nat)
    requires Chain(t, n, s, l) && k < |l| && i < |l| && i != k
    requires 0 <= t[l[k]].prev < |t| && 0 <= t[l[k]].next < |t| && t[l[k]].prev != l[k]
    ensures var r := Unlinked(t, l[k]);
            && 0 <= l[i] < n
            && r[l[i]].next == At(l, s, if i + 1 == k then i + 2 else i + 1)
            && r[l[i]].prev == At(l, s, if i - 1 == k then i - 2 else i - 1)
  {
    LinkFacts(t, n, s, l, i);
    LinkFacts(t, n, s, l, k);
    if i != k - 1 { AtInjective(t, n, s, l, i, k - 1); }
    if i != k + 1 { AtInjective(t, n, s, l, i, k + 1); }
  }

  /** The links of the node at position j of what remains. */
  lemma UnlinkedLink(t: seq<Page>, n: nat, s: int, l: seq<int>, k: nat, j: nat)
    requires Chain(t, n, s, l) && k < |l| && j < |l| - 1
    requires 0 <= t[l[k]].prev < |t| && 0 <= t[l[k]].next < |t| && t[l[k]].prev != l[k]
    ensures var m := l[..k] + l[k+1..]; 0 <= m[j] < n && LinkAt(Unlinked(t, l[k]), n, s, m, j)
  {
    UnlinkedAt(t, n, s, l, k, if j < k then j else j + 1);
    AtRemoved(l, s, k, j);
    AtRemoved(l, s, k, j + 1);
    AtRemoved(l, s, k, j - 1);
  }

  lemma UnlinkedFirst(t: seq<Page>, n: nat, s: int, l: seq<int>, k: nat)
    requires Chain(t, n, s, l) && k < |l|
    requires 0 <= t[l[k]].prev < |t| && 0 <= t[l[k]].next < |t| && t[l[k]].prev != l[k]
    ensures Unlinked(t, l[k])[s].next == At(l[..k] + l[k+1..], s, 0)
  {
    LinkFacts(t, n, s, l, k);
    AtRemoved(l, s, k, 0);
    if k > 0 { AtInjective(t, n, s, l, k - 1, -1); }
  }

  lemma ChainUnlink(t: seq<Page>, n: nat, s: int, l: seq<int>, k: nat)
    requires Chain(t, n, s, l) && k < |l|
    ensures 0 <= t[l[k]].prev < |t| && 0 <= t[l[k]].next < |t| && t[l[k]].prev != l[k]
    ensures Chain(Unlinked(t, l[k]), n, s, l[..k] + l[k+1..])
  {
    hide Unlinked, LinkAt;
    LinkFacts(t, n, s, l, k);
    UnlinkedFirst(t, n, s, l, k);
    var m := l[..k] + l[k+1..];
    forall j | 0 <= j < |m| ensures 0 <= m[j] < n && LinkAt(Unlinked(t, l[k]), n, s, m, j) {
      UnlinkedLink(t, n, s, l, k, j);
    }
  }

  /** Lists that share no node with l are linked as before. */
  lemma ChainUnlinkElsewhere(t: seq<Page>, n: nat, s: int, l: seq<int>, k: nat, g: int, m: seq<int>)
    requires Chain(t, n, s, l) && k < |l| && Chain(t, n, g, m) && g != s
    requires forall j | 0 <= j < |m| :: m[j] !in l
    ensures 0 <= t[l[k]].prev < |t| && 0 <= t[l[k]].next < |t| && t[l[k]].prev != l[k]
    ensures Chain(Unlinked(t, l[k]), n, g, m)
  {
    LinkFacts(t, n, s, l, k);
    var r := Unlinked(t, l[k]);
    assert forall j | 0 <= j < |l| :: l[j] in l;
    forall j | 0 <= j < |m| ensures r[m[j]].next == t[m[j]].next && r[m[j]].prev == t[m[j]].prev {
      assert m[j] != At(l, s, k - 1) && m[j] != At(l, s, k + 1);
    }
    ChainFrame(t, r, n, g, m);
  }

  lemma PushedAt(t: seq<Page>, n: nat, s: int, l: seq<int>, x: int, tag: nat, i: nat)
    requires Chain(t, n, s, l) && 0 <= x < n && x !in l && i < |l|
    requires 0 <= t[s].next < |t|
    ensures var r := Pushed(t, s, x, tag);
            && 0 <= l[i] < n && r[l[i]].next == At(l, s, i + 1)
            && r[l[i]].prev == if i == 0 then x else At(l, s, i - 1)
  {
    LinkFacts(t, n, s, l, i);
    if i > 0 { AtInjective(t, n, s, l, i, 0); }
    assert l[i] in l;
  }

  lemma ChainPush(t: seq<Page>, n: nat, s: int, l: seq<int>, x: int, tag: nat)
    requires Chain(t, n, s, l) && 0 <= x < n && x !in l
    ensures 0 <= t[s].next < |t|
    ensures Chain(Pushed(t, s, x, tag), n, s, [x] + l)
  {
    if |l| > 0 { LinkFacts(t, n, s, l, 0); }
    var r := Pushed(t, s, x, tag);
    var m := [x] + l;
    forall j | 0 <= j < |m| ensures LinkAt(r, n, s, m, j) {
      if j > 0 { PushedAt(t, n, s, l, x, tag, j - 1); }
    }
  }

  /** A list survives any change that leaves its own links alone. */
  lemma ChainFrame(t: seq<Page>, r: seq<Page>, n: nat, s: int, l: seq<int>)
    requires Chain(t, n, s, l) && |r| == |t|
    requires r[s].next == t[s].next
    requires forall k | 0 <= k < |l| :: r[l[k]].next == t[l[k]].next && r[l[k]].prev == t[l[k]].prev
    ensures Chain(r, n, s, l)
  {
    forall k | 0 <= k < |l| ensures LinkAt(r, n, s, l, k) { assert LinkAt(t, n, s, l, k); }
  }

  lemma ReplacedAt(t: seq<Page>, n: nat, s: int, l: seq<int>, k: nat, y: int, v: Page, i: nat)
    requires Chain(t, n, s, l) && k < |l| && i < |l| && i != k
    requires 0 <= y < n && y !in l
    requires 0 <= t[l[k]].prev < |t| && 0 <= t[l[k]].next < |t| && t[l[k]].prev != l[k]
    ensures var r := Replaced(t, l[k], y, v);
            && 0 <= l[i] < n
            && r[l[i]].next == (if i + 1 == k then y else At(l, s, i + 1))
            && r[l[i]].prev == (if i - 1 == k then y else At(l, s, i - 1))
  {
    LinkFacts(t, n, s, l, i);
    LinkFacts(t, n, s, l, k);
    if i != k - 1 { AtInjective(t, n, s, l, i, k - 1); }
    if i != k + 1 { AtInjective(t, n, s, l, i, k + 1); }
    assert l[i] in l;
  }

  lemma ChainReplace(t: seq<Page>, n: nat, s: int, l: seq<int>, k: nat, y: int, v: Page)
    requires Chain(t, n, s, l) && k < |l|
    requires 0 <= y < n && y !in l
    requires v.next == t[l[k]].next && v.prev == t[l[k]].prev
    ensures 0 <= t[l[k]].prev < |t| && 0 <= t[l[k]].next < |t| && t[l[k]].prev != l[k]
    ensures Chain(Replaced(t, l[k], y, v), n, s, l[k := y])
  {
    LinkFacts(t, n, s, l, k);
    var r := Replaced(t, l[k], y, v);
    var m := l[k := y];
    assert At(l, s, k - 1) != y && At(l, s, k + 1) != y;
    forall j | 0 <= j < |m| ensures LinkAt(r, n, s, m, j) {
      if j != k { ReplacedAt(t, n, s, l, k, y, v, j); }
    }
    if k > 0 { AtInjective(t, n, s, l, k - 1, -1); }
    assert Distinct(m) by {
      forall i, j | 0 <= i < j < |m| ensures m[i] != m[j] {
        assert l[i] in l && l[j] in l;
      }
    }
  }

  lemma InUpdated(l: seq<int>, i: nat, y: int, g: int)
    requires i < |l| && Distinct(l)
    ensures g in l[i := y] <==> g == y || (g != l[i] && g in l)
  {
    var m := l[i := y];
    assert m[i] == y;
    if g in l && g != l[i] { var c :| 0 <= c < |l| && l[c] == g; assert m[c] == g; }
    if g in m && g != y { var c :| 0 <= c < |m| && m[c] == g; assert l[c] == g && c != i; }
  }

  lemma InRemoved(l: seq<int>, i: nat, g: int)
    requires i < |l| && Distinct(l)
    ensures g in l[..i] + l[i+1..] <==> g != l[i] && g in l
  {
    var m := l[..i] + l[i+1..];
    if g in l && g != l[i] {
      var c :| 0 <= c < |l| && l[c] == g;
      assert m[if c < i then c else c - 1] == g;
    }
    if g in m {
      var c :| 0 <= c < |m| && m[c] == g;
      assert l[if c < i then c else c + 1] == g;
    }
  }
}
