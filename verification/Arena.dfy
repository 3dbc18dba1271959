/** The memory pool: small blocks cut from a chain of equal memory blocks that is only given back as a whole. */
module Arena {
  import opened Options

  const POOL_HEAD: nat := 64       // sizeof(sw_pool_t)
  const DATA_HEAD: nat := 32       // sizeof(sw_pool_data_t)
  const LARGE_HEAD: nat := 16      // sizeof(sw_pool_large_t)
  const ALIGNMENT: nat := 8
  const SIZE_T: nat := 0x1_0000_0000_0000_0000

  /** One memory block of the chain; last is where its free end begins. */
  datatype Block = Block(last: nat, failed: nat)

  /** A piece handed out: the place of its block in the chain, its offset there, and its size. */
  datatype Piece = Piece(block: nat, off: nat, size: nat)

  /** The chain, the block where searches start, the pieces handed out since the last reset, and the large
      allocations, the latest entry first; an entry whose allocation was given back is empty. */
  datatype State = State(blocks: seq<Block>, current: nat, pieces: seq<Piece>, large: seq<Option<int>>)

  /** What a program asks of a pool. mem and head tell whether a memory block can be had, addr is what malloc
      returns, 0 when it fails. */
  datatype Request = Small(size: nat, aligned: bool, mem: bool)
                   | Large(addr: int, head: bool)
                   | Free(addr: int)
                   | Reset

  // ---------------------------------------------------------------------- what a request does

  function AlignUp(n: nat): (r: nat)
    ensures r % ALIGNMENT == 0 && n <= r < n + ALIGNMENT
  {
    (n + 7) / 8 * 8
  }

  /** Where a piece would start: aligned by pub_pool_palloc, not by pub_pool_pnalloc. */
  function Start(b: Block, aligned: bool): (m: nat)
    ensures b.last <= m
  {
    if aligned then AlignUp(b.last) else b.last
  }

  /** The test of the search: the room left, taken as an unsigned word, is enough. */
  predicate Fits(psize: nat, b: Block, size: nat, aligned: bool) {
    (psize - Start(b, aligned)) % SIZE_T >= size
  }

  /** The largest small request; the room of the first block is taken as an unsigned word too. */
  function MaxOf(size: nat, pagesize: nat): nat
    requires pagesize > 0
  {
    var room := (size - POOL_HEAD) % SIZE_T;
    if room < pagesize - 1 then room else pagesize - 1
  }

  /** pub_pool_create */
  function Created(): State { State([Block(POOL_HEAD, 0)], 0, [], []) }

  /** The first block from lo on that passes the test, or the end of the chain. */
  function FirstFit(psize: nat, blocks: seq<Block>, lo: nat, size: nat, aligned: bool): (i: nat)
    requires lo <= |blocks|
    ensures lo <= i <= |blocks| && (i < |blocks| ==> Fits(psize, blocks[i], size, aligned))
    ensures forall j | lo <= j < i :: !Fits(psize, blocks[j], size, aligned)
    decreases |blocks| - lo
  {
    if lo == |blocks| || Fits(psize, blocks[lo], size, aligned) then lo
    else FirstFit(psize, blocks, lo + 1, size, aligned)
  }

  /** The piece is cut off the first block from lo on that has room for it, where its free end begins. */
  predicate CutFirst(psize: nat, blocks: seq<Block>, lo: nat, aligned: bool, p: Piece) {
    && lo <= p.block < |blocks| && Fits(psize, blocks[p.block], p.size, aligned)
    && blocks[p.block].last <= p.off < blocks[p.block].last + (if aligned then ALIGNMENT else 1)
    && forall j | lo <= j < p.block :: !Fits(psize, blocks[j], p.size, aligned)
  }

  /** A piece of size bytes cut at m off block i. */
  function Cut(s: State, i: nat, m: nat, size: nat): State
    requires i < |s.blocks|
  {
    s.(blocks := s.blocks[i := s.blocks[i].(last := m + size)], pieces := s.pieces + [Piece(i, m, size)])
  }

  /** Every block from lo on but the last has failed once more. */
  function Failed(blocks: seq<Block>, lo: nat): (r: seq<Block>)
    ensures |r| == |blocks|
  {
    seq(|blocks|, i requires 0 <= i < |blocks| =>
      blocks[i].(failed := blocks[i].failed + if lo <= i < |blocks| - 1 then 1 else 0))
  }

  /** Searches start behind the last of the blocks lo .. hi that had failed more than four times. */
  function NextCurrent(blocks: seq<Block>, lo: nat, hi: nat): (c: nat)
    requires lo <= hi <= |blocks|
    ensures lo <= c <= hi
  {
    if lo == hi then lo else if blocks[hi - 1].failed > 4 then hi else NextCurrent(blocks, lo, hi - 1)
  }

  /** One more block, with a piece cut for the request. */
  function Grown(s: State, size: nat): State
    requires s.current < |s.blocks|
  {
    var n := |s.blocks|;
    s.(blocks := Failed(s.blocks, s.current) + [Block(DATA_HEAD + size, 0)],
       current := NextCurrent(s.blocks, s.current, n - 1),
       pieces := s.pieces + [Piece(n, DATA_HEAD, size)])
  }

  function Taken(psize: nat, s: State, size: nat, aligned: bool, mem: bool): (t: State)
    requires s.current < |s.blocks|
    ensures t.current < |t.blocks| && t.large == s.large
  {
    var i := FirstFit(psize, s.blocks, s.current, size, aligned);
    if i < |s.blocks| then Cut(s, i, Start(s.blocks[i], aligned), size)
    else if mem then Grown(s, size) else s
  }

  /** An entry of the list of large allocations that can be used again: one of the first five. */
  predicate FreeEntry(large: seq<Option<int>>, i: nat) { i < |large| && i < 5 && large[i].None? }

  ghost predicate AnyFreeEntry(large: seq<Option<int>>) { exists i: nat :: FreeEntry(large, i) }

  /** The first of them, or five, or the end of the list. */
  function Entry(large: seq<Option<int>>, lo: nat): (i: nat)
    requires lo <= |large| && lo <= 5
    ensures lo <= i <= |large| && i <= 5 && (i < |large| && i < 5 ==> FreeEntry(large, i))
    ensures forall j: nat | lo <= j < i :: !FreeEntry(large, j)
    decreases 5 - lo
  {
    if lo == |large| || lo == 5 || large[lo].None? then lo else Entry(large, lo + 1)
  }

  /** Where an allocation is entered, or the end of the list. */
  function Holding(large: seq<Option<int>>, addr: int): (i: nat)
    ensures i <= |large| && (i < |large| ==> large[i] == Some(addr))
    ensures forall j | 0 <= j < i :: large[j] != Some(addr)
  {
    if |large| == 0 || large[0] == Some(addr) then 0 else 1 + Holding(large[1..], addr)
  }

  function Step(psize: nat, s: State, r: Request): (t: State)
    requires s.current < |s.blocks|
    ensures t.current < |t.blocks|
  {
    match r
    case Small(size, aligned, mem) => Taken(psize, s, size, aligned, mem)
    case Large(addr, head) =>
      var i := Entry(s.large, 0);
      if addr == 0 then s
      else if FreeEntry(s.large, i) then s.(large := s.large[i := Some(addr)])
      else
        var t := Taken(psize, s, LARGE_HEAD, true, head);
        if |t.pieces| > |s.pieces| then t.(large := [Some(addr)] + s.large) else t
    case Free(addr) =>
      var i := Holding(s.large, addr);
      if i < |s.large| then s.(large := s.large[i := None]) else s
    case Reset =>
      State(seq(|s.blocks|, i requires 0 <= i < |s.blocks| => s.blocks[i].(last := POOL_HEAD)), s.current, [], [])
  }

  /** What a request may be: a small one is at most max, and with a max below the size of an entry's head a large
      request would ask for its head as for another large one, without end. */
  predicate Allowed(r: Request, max: nat) {
    match r
    case Small(size, _, _) => size <= max
    case Large(_, _) => LARGE_HEAD <= max
    case _ => true
  }

  predicate AllAllowed(rs: seq<Request>, max: nat) { forall k | 0 <= k < |rs| :: Allowed(rs[k], max) }

  /** A run from the creation of the pool on. */
  function Run(psize: nat, rs: seq<Request>): (s: State)
    ensures s.current < |s.blocks|
  {
    if |rs| == 0 then Created() else Step(psize, Run(psize, rs[..|rs| - 1]), rs[|rs| - 1])
  }

  // ------------------------------------------------------------------- what every run keeps

  /** How often the block at i has failed: once for each block linked behind its successor. */
  function FailedAt(n: nat, current: nat, i: nat): nat {
    if i < current then 6 else if i + 2 <= n then n - 2 - i else 0
  }

  /** The chain from current on is at most seven blocks, the failures fall along it, and those before it have failed
      six times. */
  predicate Chained(blocks: seq<Block>, current: nat) {
    && current < |blocks| <= current + 7
    && forall i | 0 <= i < |blocks| :: blocks[i].failed == FailedAt(|blocks|, current, i)
  }

  /** The piece lies behind the head of its block and before the block's free end. */
  predicate Behind(blocks: seq<Block>, p: Piece) {
    && p.block < |blocks| && (if p.block == 0 then POOL_HEAD else DATA_HEAD) <= p.off
    && p.off + p.size <= blocks[p.block].last
  }

  predicate Apart(p: Piece, q: Piece) {
    p.block != q.block || p.off + p.size <= q.off || q.off + q.size <= p.off
  }

  predicate AllApart(ps: seq<Piece>) {
    forall i, j | 0 <= i < j < |ps| :: Apart(ps[i], ps[j])
  }

  predicate Headed(blocks: seq<Block>) {
    forall i | 0 <= i < |blocks| :: (if i == 0 then POOL_HEAD else DATA_HEAD) <= blocks[i].last
  }

  predicate Sound(s: State) {
    && Chained(s.blocks, s.current) && Headed(s.blocks)
    && AllApart(s.pieces) && forall j | 0 <= j < |s.pieces| :: Behind(s.blocks, s.pieces[j])
  }

  /** Cutting a piece off a block keeps it apart from all others. */
  lemma CutSound(s: State, i: nat, m: nat, size: nat)
    requires Sound(s) && i < |s.blocks| && s.blocks[i].last <= m
    ensures Sound(Cut(s, i, m, size))
  {
    var t := Cut(s, i, m, size);
    forall j | 0 <= j < |s.pieces| ensures Behind(t.blocks, s.pieces[j]) && Apart(s.pieces[j], Piece(i, m, size)) {
      assert Behind(s.blocks, s.pieces[j]);
    }
  }

  lemma {:induction false} NextCurrentChained(blocks: seq<Block>, current: nat, hi: nat)
    requires Chained(blocks, current) && current <= hi < |blocks|
    ensures NextCurrent(blocks, current, hi) == if hi > current && |blocks| == current + 7 then current + 1 else current
  {
    if hi > current { NextCurrentChained(blocks, current, hi - 1); }
  }

  lemma GrownSound(s: State, size: nat)
    requires Sound(s)
    ensures Sound(Grown(s, size))
  {
    var t := Grown(s, size);
    NextCurrentChained(s.blocks, s.current, |s.blocks| - 1);
    forall j | 0 <= j < |s.pieces| ensures Behind(t.blocks, s.pieces[j]) { assert Behind(s.blocks, s.pieces[j]); }
  }

  lemma StepSound(psize: nat, s: State, r: Request)
    requires Sound(s)
    ensures Sound(Step(psize, s, r))
  {
    if r.Small? || r.Large? {
      var (size, aligned) := if r.Small? then (r.size, r.aligned) else (LARGE_HEAD, true);
      var i := FirstFit(psize, s.blocks, s.current, size, aligned);
      if i < |s.blocks| { CutSound(s, i, Start(s.blocks[i], aligned), size); } else { GrownSound(s, size); }
    }
  }

  /** In every run on a pool of any size the pieces share no byte and lie behind their block's head, the chain from
      current on has at most seven blocks, and their failures fall along it. */
  lemma {:induction false} RunSound(psize: nat, rs: seq<Request>)
    ensures Sound(Run(psize, rs))
  {
    if |rs| > 0 {
      RunSound(psize, rs[..|rs| - 1]);
      StepSound(psize, Run(psize, rs[..|rs| - 1]), rs[|rs| - 1]);
    }
  }

  /** From current on the failures fall along the chain; before it every block has failed at least six times. */
  lemma FailuresFall(blocks: seq<Block>, current: nat, i: nat, j: nat)
    requires Chained(blocks, current) && i <= j < |blocks|
    ensures current <= i ==> blocks[j].failed <= blocks[i].failed <= 5
    ensures i < current ==> blocks[i].failed >= 6 {}

  // ------------------------------------------------------------------ inside the memory blocks

  predicate Inside(psize: nat, s: State) {
    forall j | 0 <= j < |s.pieces| :: s.pieces[j].off + s.pieces[j].size <= psize
  }

  predicate Within(psize: nat, blocks: seq<Block>) {
    forall i | 0 <= i < |blocks| :: blocks[i].last <= psize
  }

  /** A block size that is a multiple of the alignment leaves no aligned start behind the end. */
  lemma FitsIsRoom(psize: nat, b: Block, size: nat, aligned: bool)
    requires psize < SIZE_T && psize % ALIGNMENT == 0 && b.last <= psize
    ensures Fits(psize, b, size, aligned) <==> Start(b, aligned) + size <= psize {}

  lemma StepInside(psize: nat, max: nat, s: State, r: Request)
    requires POOL_HEAD <= psize < SIZE_T && psize % ALIGNMENT == 0 && max <= psize - POOL_HEAD && Allowed(r, max)
    requires s.current < |s.blocks| && Within(psize, s.blocks) && Inside(psize, s)
    ensures Within(psize, Step(psize, s, r).blocks) && Inside(psize, Step(psize, s, r))
  {
    if r.Small? || r.Large? {
      var (size, aligned) := if r.Small? then (r.size, r.aligned) else (LARGE_HEAD, true);
      var i := FirstFit(psize, s.blocks, s.current, size, aligned);
      if i < |s.blocks| { FitsIsRoom(psize, s.blocks[i], size, aligned); }
    }
  }

  lemma {:induction false} RunInside(psize: nat, max: nat, rs: seq<Request>)
    requires POOL_HEAD <= psize < SIZE_T && psize % ALIGNMENT == 0 && max <= psize - POOL_HEAD && AllAllowed(rs, max)
    ensures Within(psize, Run(psize, rs).blocks) && Inside(psize, Run(psize, rs))
  {
    if |rs| > 0 {
      RunInside(psize, max, rs[..|rs| - 1]);
      StepInside(psize, max, Run(psize, rs[..|rs| - 1]), rs[|rs| - 1]);
    }
  }

  /** Where only empty pieces may be asked for, all of them lie at the end of the first block's head. */
  lemma {:induction false} RunEmpty(psize: nat, rs: seq<Request>)
    requires POOL_HEAD <= psize && AllAllowed(rs, 0)
    ensures Run(psize, rs).blocks == [Block(POOL_HEAD, 0)] && Inside(psize, Run(psize, rs))
  {
    if |rs| > 0 {
      RunEmpty(psize, rs[..|rs| - 1]);
    }
  }

  function Byte(aligned: bool): Request { Small(1, aligned, true) }

  /** k times one byte of pub_pool_pnalloc. */
  function Bytes(k: nat): (rs: seq<Request>)
    ensures |rs| == k && forall j | 0 <= j < k :: rs[j] == Byte(false)
  {
    seq(k, _ => Byte(false))
  }

  /** A request that the only block of the chain serves. */
  lemma FirstServes(psize: nat, rs: seq<Request>, r: Request)
    requires r.Small? && |Run(psize, rs).blocks| == 1 && Fits(psize, Run(psize, rs).blocks[0], r.size, r.aligned)
    ensures var s := Run(psize, rs);
            Run(psize, rs + [r]) == Cut(s, 0, Start(s.blocks[0], r.aligned), r.size)
  {
    assert (rs + [r])[..|rs|] == rs;
    hide Cut, Start, Fits;
    assert FirstFit(psize, Run(psize, rs).blocks, 0, r.size, r.aligned) == 0;
  }

  lemma NoBytes() ensures Bytes(0) == [] {}

  lemma BytesMore(k: nat)
    requires k > 0
    ensures Bytes(k) == Bytes(k - 1) + [Byte(false)] {}

  /** The first block fills up to its very end. */
  lemma {:induction false} FilledUp(psize: nat, k: nat)
    requires POOL_HEAD + k <= psize < SIZE_T
    ensures Run(psize, Bytes(k)).blocks == [Block(POOL_HEAD + k, 0)]
  {
    hide Step;
    if k > 0 {
      hide Bytes, FirstFit, AlignUp;
      FilledUp(psize, k - 1);
      BytesMore(k);
      FirstServes(psize, Bytes(k - 1), Byte(false));
    } else {
      NoBytes();
    }
  }

  /** A pool whose size is no multiple of the alignment hands out a byte behind its end. */
  lemma BehindTheEnd(psize: nat)
    requires POOL_HEAD < psize < SIZE_T && psize % ALIGNMENT != 0
    ensures !Inside(psize, Run(psize, Bytes(psize - POOL_HEAD) + [Byte(true)]))
  {
    hide Run, Bytes;
    var rs := Bytes(psize - POOL_HEAD);
    FilledUp(psize, psize - POOL_HEAD);
    FirstServes(psize, rs, Byte(true));
    var t := Run(psize, rs + [Byte(true)]);
    assert t.pieces[|t.pieces| - 1] == Piece(0, AlignUp(psize), 1);
  }

  /** A pool smaller than its own head hands out its first piece behind its end. */
  lemma BelowTheHead(psize: nat)
    requires psize < POOL_HEAD
    ensures !Inside(psize, Run(psize, [Small(0, true, true)]))
  {
    assert [Small(0, true, true)][..0] == [];
    assert Run(psize, []) == Created();
    var s := Run(psize, [Small(0, true, true)]);
    assert s.pieces[0] == Piece(0, POOL_HEAD, 0);
  }

  /** Created with any size, a pool keeps every piece inside its memory block in all runs if and only if the size holds
      the head and is a multiple of the alignment, or nothing but empty pieces can be asked for. */
  lemma StaysInsideIff(size: nat, pagesize: nat)
    requires size < SIZE_T && pagesize > 0
    ensures (forall rs | AllAllowed(rs, MaxOf(size, pagesize)) :: Inside(size, Run(size, rs)))
            <==> size >= POOL_HEAD && (size % ALIGNMENT == 0 || MaxOf(size, pagesize) == 0)
  {
    var max := MaxOf(size, pagesize);
    if size < POOL_HEAD {
      BelowTheHead(size);
      assert AllAllowed([Small(0, true, true)], max);
    } else if size % ALIGNMENT == 0 {
      forall rs | AllAllowed(rs, max) ensures Inside(size, Run(size, rs)) { RunInside(size, max, rs); }
    } else if max == 0 {
      forall rs | AllAllowed(rs, max) ensures Inside(size, Run(size, rs)) { RunEmpty(size, rs); }
    } else {
      BehindTheEnd(size);
      assert AllAllowed(Bytes(size - POOL_HEAD) + [Byte(true)], max);
    }
  }

  // --------------------------------------------------------------------- large allocations

  function One(e: Option<int>, addr: int): nat { if e == Some(addr) then 1 else 0 }

  /** How often an allocation is entered. */
  function Times(large: seq<Option<int>>, addr: int): nat {
    if |large| == 0 then 0 else Times(large[1..], addr) + One(large[0], addr)
  }

  lemma {:induction false} TimesUpdate(large: seq<Option<int>>, i: nat, e: Option<int>, addr: int)
    requires i < |large|
    ensures Times(large[i := e], addr) == Times(large, addr) - One(large[i], addr) + One(e, addr)
  {
    var u := large[i := e];
    if i > 0 {
      assert u[1..] == large[1..][i - 1 := e];
      TimesUpdate(large[1..], i - 1, e, addr);
    } else {
      assert u[1..] == large[1..];
    }
  }

  /** Whether the request enters its allocation: it could be had, and a used-up entry or a new head for it. */
  predicate Entered(psize: nat, s: State, addr: int, head: bool)
    requires s.current < |s.blocks|
  {
    && addr != 0
    && (FreeEntry(s.large, Entry(s.large, 0)) || |Taken(psize, s, LARGE_HEAD, true, head).pieces| > |s.pieces|)
  }

  /** A large request enters its allocation or nothing ... */
  lemma LargeHeld(psize: nat, s: State, addr: int, head: bool, a: int)
    requires s.current < |s.blocks|
    ensures Times(Step(psize, s, Large(addr, head)).large, a)
            == Times(s.large, a) + if a == addr && Entered(psize, s, addr, head) then 1 else 0
  {
    hide Taken;
    var i := Entry(s.large, 0);
    if FreeEntry(s.large, i) { TimesUpdate(s.large, i, Some(addr), a); }
    assert ([Some(addr)] + s.large)[1..] == s.large;
  }

  /** ... giving one back takes just that one out, if it is there ... */
  lemma FreeHeld(psize: nat, s: State, addr: int, a: int)
    requires s.current < |s.blocks|
    ensures Times(Step(psize, s, Free(addr)).large, a)
            == Times(s.large, a) - if a == addr && Times(s.large, addr) > 0 then 1 else 0
  {
    var i := Holding(s.large, addr);
    if i < |s.large| {
      TimesUpdate(s.large, i, None, a);
      TimesUpdate(s.large, i, None, addr);
    } else {
      NotHeld(s.large, addr);
    }
  }

  /** ... and small requests leave the large allocations alone. */
  lemma SmallHeld(psize: nat, s: State, size: nat, aligned: bool, mem: bool)
    requires s.current < |s.blocks|
    ensures Step(psize, s, Small(size, aligned, mem)).large == s.large {}

  lemma {:induction false} NotHeld(large: seq<Option<int>>, addr: int)
    requires forall j | 0 <= j < |large| :: large[j] != Some(addr)
    ensures Times(large, addr) == 0
  {
    if |large| > 0 { NotHeld(large[1..], addr); }
  }

  // ------------------------------------------------------------------------------- the pool

  class Pool {
    const psize: nat
    const max: nat
    var blocks: seq<Block>
    var current: nat
    var large: seq<Option<int>>
    ghost var pieces: seq<Piece>

    ghost function Value(): State
      reads this
    {
      State(blocks, current, pieces, large)
    }

    ghost predicate Valid()
      reads this
    {
      Sound(Value())
    }

    /** pub_pool_create, for any size */
    constructor (size: nat, pagesize: nat)
      requires size < SIZE_T && pagesize > 0
      ensures Valid() && Value() == Created() && psize == size && max == MaxOf(size, pagesize)
    {
      psize := size;
      var room := (size - POOL_HEAD) % SIZE_T;
      max := if room < pagesize - 1 then room else pagesize - 1;
      blocks, current, pieces, large := [Block(POOL_HEAD, 0)], 0, [], [];
    }

    /** pub_pool_reset: every block is empty again; current and the failures stay. */
    method Clear()
      requires Valid()
      modifies this
      ensures Valid() && Value() == Step(psize, old(Value()), Reset)
      ensures |blocks| == |old(blocks)| && current == old(current) && pieces == [] && large == []
      ensures forall j | 0 <= j < |blocks| :: blocks[j] == Block(POOL_HEAD, old(blocks)[j].failed)
    {
      ghost var s := Value();
      StepSound(psize, s, Reset);
      var i := 0;
      pieces, large := [], [];
      while i < |blocks|
        invariant 0 <= i <= |blocks| == |s.blocks| && current == s.current && pieces == [] && large == []
        invariant forall j | 0 <= j < |blocks| ::
          blocks[j] == if j < i then s.blocks[j].(last := POOL_HEAD) else s.blocks[j]
      {
        blocks := blocks[i := blocks[i].(last := POOL_HEAD)];
        i := i + 1;
      }
      assert blocks == Step(psize, s, Reset).blocks;
    }

    /** The search of pub_pool_palloc (aligned) and pub_pool_pnalloc (not), over at most seven blocks. */
    method Search(size: nat, aligned: bool) returns (r: Option<Piece>, ghost scanned: nat)
      requires Valid()
      modifies `blocks, `pieces
      ensures scanned <= 7
      ensures var (s, i) := (old(Value()), FirstFit(psize, old(blocks), current, size, aligned));
              if i < |s.blocks|
              then r == Some(Piece(i, Start(s.blocks[i], aligned), size))
                && Value() == Cut(s, i, Start(s.blocks[i], aligned), size)
              else r == None && Value() == s
    {
      var p := current;
      scanned := 0;
      while p < |blocks|
        invariant current <= p <= |blocks| && scanned == p - current
        invariant FirstFit(psize, blocks, current, size, aligned) == FirstFit(psize, blocks, p, size, aligned)
        decreases |blocks| - p
      {
        scanned := scanned + 1;
        var m := if aligned then AlignUp(blocks[p].last) else blocks[p].last;
        if (psize - m) % SIZE_T >= size {
          assert FirstFit(psize, blocks, current, size, aligned) == p;
          blocks := blocks[p := blocks[p].(last := m + size)];
          pieces := pieces + [Piece(p, m, size)];
          return Some(Piece(p, m, size)), scanned;
        }
        p := p + 1;
      }
      r := None;
    }

    /** pub_pool_palloc_block: one more block, cut for the request; mem tells whether memory can be had. */
    method NewBlock(size: nat, mem: bool) returns (r: Option<Piece>)
      requires Valid()
      modifies `blocks, `current, `pieces
      ensures Value() == if mem then Grown(old(Value()), size) else old(Value())
      ensures r == if mem then Some(Piece(|old(blocks)|, DATA_HEAD, size)) else None
    {
      ghost var s := Value();
      if !mem { return None; }
      var m := AlignUp(DATA_HEAD);
      var cur, p := current, current;
      var n := |blocks|;
      ghost var was := blocks;
      while p < |blocks| - 1
        invariant current == s.current <= p <= n - 1 && n == |blocks| == |was| && pieces == s.pieces
        invariant forall i | 0 <= i < n ::
          blocks[i] == was[i].(failed := was[i].failed + if current <= i < p then 1 else 0)
        invariant cur == NextCurrent(was, current, p)
        decreases |blocks| - p
      {
        var failed := blocks[p].failed;
        blocks := blocks[p := blocks[p].(failed := failed + 1)];
        p := p + 1;
        if failed > 4 { cur := p; }
      }
      assert blocks == Failed(was, current) && m == DATA_HEAD;
      blocks := blocks + [Block(m + size, 0)];
      pieces := pieces + [Piece(n, m, size)];
      current := cur;
      r := Some(Piece(n, m, size));
    }

    /** pub_pool_palloc and pub_pool_pnalloc for a size up to max. */
    method Alloc(size: nat, aligned: bool, mem: bool) returns (r: Option<Piece>)
      requires Valid() && size <= max
      modifies this
      ensures Valid() && Value() == Step(psize, old(Value()), Small(size, aligned, mem))
      ensures pieces == old(pieces) + if r.Some? then [r.value] else []
      ensures r.Some? ==> r.value.size == size && (aligned ==> r.value.off % ALIGNMENT == 0)
      ensures |blocks| == |old(blocks)| + 1 <==>
              mem && forall j | old(current) <= j < |old(blocks)| :: !Fits(psize, old(blocks)[j], size, aligned)
      ensures |blocks| == |old(blocks)| || (|blocks| == |old(blocks)| + 1 && r.Some? && r.value.block == |old(blocks)|)
      ensures r.Some? && |blocks| == |old(blocks)| ==> CutFirst(psize, old(blocks), old(current), aligned, r.value)
      ensures r == None ==> !mem && Value() == old(Value())
    {
      StepSound(psize, Value(), Small(size, aligned, mem));
      ghost var scanned;
      r, scanned := Search(size, aligned);
      if r.None? { r := NewBlock(size, mem); }
    }

    /** pub_pool_palloc_large, where an entry's head is a small request: addr is what malloc returned. */
    method AllocLarge(addr: int, head: bool) returns (r: int)
      requires Valid() && LARGE_HEAD <= max
      modifies this
      ensures Valid() && Value() == Step(psize, old(Value()), Large(addr, head))
      ensures r == if Entered(psize, old(Value()), addr, head) then addr else 0
    {
      if addr == 0 { return 0; }
      var n := 0;
      while n < |large|
        invariant 0 <= n <= |large| && n <= 4 && Value() == old(Value())
        invariant Entry(large, 0) == Entry(large, n)
        decreases |large| - n
      {
        if large[n] == None {
          large := large[n := Some(addr)];
          return addr;
        }
        if n > 3 { break; }
        n := n + 1;
      }
      assert !FreeEntry(large, Entry(large, 0));
      var header := Alloc(LARGE_HEAD, true, head);
      if header == None { return 0; }
      large := [Some(addr)] + large;
      r := addr;
    }

    /** pub_pool_pfree */
    method FreeLarge(addr: int) returns (ok: bool)
      requires Valid()
      modifies `large
      ensures Valid() && Value() == Step(psize, old(Value()), Free(addr))
      ensures ok <==> Some(addr) in old(large)
    {
      var i := 0;
      while i < |large|
        invariant 0 <= i <= |large| && large == old(large) && forall j | 0 <= j < i :: large[j] != Some(addr)
      {
        if large[i] == Some(addr) {
          assert Holding(large, addr) == i;
          large := large[i := None];
          return true;
        }
        i := i + 1;
      }
      ok := false;
    }
  }
}
