/** The process table of a server group: registration and the choice of the process for a message. */
module Dispatch {
  import opened Options

  const SW_S_START := 100
  const SW_S_EXITING := 106
  const SW_MSG_REQ := 1002
  const ND_LSN_RCV := 103
  const PROC_S_BUSYING := 1
  const PROC_S_IDLE := 2
  const MAX_RESTART_CNT := 3
  const SW_MAX_TASK_CNT: nat := 0x7fffffff - 10000
  const UINT32: nat := 0x1_0000_0000

  /** sw_proc_info_t, as far as it decides anything; task_cnt is an unsigned 32-bit word. */
  datatype Proc = Proc(name: string, pid: int, status: int, kind: int, taskCnt: nat, busyFlag: int, restartCnt: int)

  // ------------------------------------------------------------------------------ the choice

  /** May the process get a message of this type; live is what checking its pid gives. */
  predicate Eligible(p: Proc, live: bool, msgType: int) {
    && p.pid > 0
    && (p.status == SW_S_START || (p.status == SW_S_EXITING && msgType == SW_MSG_REQ))
    && live && p.kind != ND_LSN_RCV
  }

  /** A process that is down, or a receiver of the listener, or neither started (100) nor leaving (106) with a request
      (1002) to serve, gets no message. */
  predicate Unfit(p: Proc, live: bool, msgType: int) {
    || p.pid <= 0 || !live || p.kind == 103
    || !(p.status == 100 || (p.status == 106 && msgType == 1002))
  }

  lemma EligibleUnlessUnfit(p: Proc, live: bool, msgType: int)
    ensures Eligible(p, live, msgType) <==> !Unfit(p, live, msgType) {}

  /** A look at the table: the first n processes, which of them are alive, and the message type. */
  datatype View = View(ps: seq<Proc>, live: seq<bool>, n: nat, msgType: int)
  {
    predicate Valid() { n <= |ps| && n <= |live| && forall i | 0 <= i < |ps| :: ps[i].taskCnt < UINT32 }

    predicate May(i: nat)
      requires Valid()
    {
      i < n && Eligible(ps[i], live[i], msgType)
    }

    predicate Free(i: nat)
      requires Valid()
    {
      May(i) && ps[i].busyFlag == PROC_S_IDLE
    }

    predicate NoneFree(k: nat)
      requires Valid()
    {
      forall i: nat | i < k :: !Free(i)
    }

    /** k has the least count among the first m, and the lowest index among those. */
    predicate Least(k: nat, m: nat)
      requires Valid() && m <= n
    {
      && May(k) && k < m
      && forall i: nat | i < m && May(i) ::
           ps[k].taskCnt < ps[i].taskCnt || (ps[k].taskCnt == ps[i].taskCnt && k <= i)
    }

    /** The first idle eligible process, or else the least loaded one. */
    predicate Right(k: nat)
      requires Valid()
    {
      if NoneFree(n) then Least(k, n) else Free(k) && NoneFree(k)
    }

    /** How far the search looks. */
    function Seen(k: nat): nat
      requires Valid() && May(k)
      ensures Seen(k) <= n
    {
      if Free(k) then k + 1 else n
    }

    /** Every count the search has seen is beyond the limit. */
    predicate Over(k: nat)
      requires Valid() && May(k)
    {
      forall i: nat | i < Seen(k) && May(i) :: ps[i].taskCnt > SW_MAX_TASK_CNT
    }
  }

  /** There is never more than one right process. */
  lemma RightIsUnique(v: View, j: nat, k: nat)
    requires v.Valid() && v.Right(j) && v.Right(k)
    ensures j == k {}

  /** There is a right process exactly when one is eligible. */
  lemma RightExists(v: View)
    requires v.Valid()
    ensures (exists k: nat :: v.Right(k) && v.May(k)) <==> exists i: nat :: v.May(i)
  {
    if i: nat :| v.May(i) {
      if !v.NoneFree(v.n) {
        var k := FirstFree(v, v.n);
      } else {
        var k := LeastUpTo(v, i, v.n);
        assert v.Right(k);
      }
    }
  }

  lemma {:induction false} FirstFree(v: View, m: nat) returns (k: nat)
    requires v.Valid() && !v.NoneFree(m) && !v.NoneFree(v.n)
    ensures v.Right(k) && v.May(k)
  {
    if v.NoneFree(m - 1) { k := m - 1; } else { k := FirstFree(v, m - 1); }
  }

  /** The least of the first m processes, of which i is one that may get the message. */
  lemma {:induction false} LeastUpTo(v: View, i: nat, m: nat) returns (k: nat)
    requires v.Valid() && v.May(i) && i < m <= v.n
    ensures v.Least(k, m)
    decreases m
  {
    k := m - 1;
    if j: nat :| j < m - 1 && v.May(j) {
      k := LeastUpTo(v, j, m - 1);
      if v.May(m - 1) && v.ps[m - 1].taskCnt < v.ps[k].taskCnt { k := m - 1; }
    }
  }

  function Marked(p: Proc): Proc { p.(busyFlag := if p.busyFlag == PROC_S_IDLE then PROC_S_BUSYING else p.busyFlag) }

  function Counted(p: Proc): Proc { p.(taskCnt := (p.taskCnt + 1) % UINT32) }

  function Lowered(p: Proc): Proc {
    if p.taskCnt > SW_MAX_TASK_CNT then p.(taskCnt := p.taskCnt - SW_MAX_TASK_CNT) else p
  }

  /** The table after process k got a message. */
  function After(ps: seq<Proc>, n: nat, k: nat, over: bool): (r: seq<Proc>)
    requires k < n <= |ps|
    ensures |r| == |ps|
  {
    var qs := ps[k := Counted(Marked(ps[k]))];
    if over then LoweredTo(qs, n) else qs
  }

  function LoweredTo(ps: seq<Proc>, m: nat): (r: seq<Proc>)
    requires m <= |ps|
    ensures |r| == |ps| && forall i | 0 <= i < |ps| :: r[i] == if i < m then Lowered(ps[i]) else ps[i]
  {
    seq(|ps|, i requires 0 <= i < |ps| => if i < m then Lowered(ps[i]) else ps[i])
  }

  /** The places in use come first, and no name is used twice. */
  predicate Registered(ps: seq<Proc>, use: nat) {
    && use <= |ps|
    && (forall i | 0 <= i < use :: ps[i].name != "")
    && (forall i | use <= i < |ps| :: ps[i].name == "")
    && (forall i, j | 0 <= i < j < use :: ps[i].name != ps[j].name)
  }

  /** The place of a name. */
  predicate At(ps: seq<Proc>, name: string, i: int) { 0 <= i < |ps| && ps[i].name == name }

  lemma NewPlace(ps: seq<Proc>, use: nat, p: Proc)
    requires Registered(ps, use) && use < |ps| && p.name != "" && forall i | 0 <= i < |ps| :: !At(ps, p.name, i)
    ensures Registered(ps[use := p], use + 1)
  {
    forall i | 0 <= i < use ensures ps[i].name != p.name { assert !At(ps, p.name, i); }
  }

  /** sw_svr_grp_t: the table of one group, svcCurr of its places in use. */
  class Group {
    const procs: array<Proc>
    var svcCurr: nat

    ghost predicate Valid()
      reads this, procs
    {
      svcCurr <= procs.Length && forall i | 0 <= i < procs.Length :: procs[i].taskCnt < UINT32
    }

    ghost function Sight(live: seq<bool>, msgType: int): View
      reads this, procs
    {
      View(procs[..], live, svcCurr, msgType)
    }

    constructor (max: nat)
      ensures Valid() && fresh(procs) && procs.Length == max && svcCurr == 0
      ensures Registered(procs[..], svcCurr)
    {
      procs := new Proc[max](_ => Proc("", 0, 0, 0, 0, 0, 0));
      svcCurr := 0;
    }

    /** The first place with this name from lo on, or the end of the table. */
    method Find(name: string, lo: nat) returns (index: nat)
      requires lo <= procs.Length
      ensures lo <= index <= procs.Length && (index < procs.Length ==> At(procs[..], name, index))
      ensures forall i | lo <= i < index :: !At(procs[..], name, i)
    {
      index := lo;
      while index < procs.Length
        invariant lo <= index <= procs.Length && forall i | lo <= i < index :: !At(procs[..], name, i)
      {
        if procs[index].name == name { return; }
        index := index + 1;
      }
    }

    /**
     * procs_register on a group's table: a known name keeps its place and its count, a new one takes the
     * next place, and only a full table refuses it.
     */
    method Register(info: Proc) returns (ok: bool, index: nat)
      requires Valid() && Registered(procs[..], svcCurr)
      modifies this, procs
      ensures Valid() && Registered(procs[..], svcCurr)
      ensures var (ps, use) := (old(procs[..]), old(svcCurr));
              var known := exists i :: At(ps, info.name, i);
              && (ok <==> info.name != "" && (known || use < procs.Length))
              && (!ok ==> procs[..] == ps && svcCurr == use)
              && (ok && known ==>
                    (At(ps, info.name, index) && svcCurr == use
                     && procs[..] == ps[index := info.(taskCnt := ps[index].taskCnt, busyFlag := PROC_S_IDLE)]))
              && (ok && !known ==>
                    (index == use && svcCurr == use + 1
                     && procs[..]
                        == ps[use := info.(taskCnt := 0, busyFlag := PROC_S_IDLE, restartCnt := MAX_RESTART_CNT)]))
    {
      ghost var ps := procs[..];
      if info.name == "" { return false, 0; }
      var taskCnt, first := 0, false;
      index := Find(info.name, 0);
      if index < procs.Length {
        taskCnt := procs[index].taskCnt;
      } else {
        index := Find("", svcCurr);
        if index == procs.Length {
          if svcCurr < procs.Length { assert At(ps, "", svcCurr); }
          return false, index;
        }
        if svcCurr < index { assert At(ps, "", svcCurr); }
        NewPlace(ps, svcCurr, info.(taskCnt := 0, busyFlag := PROC_S_IDLE, restartCnt := MAX_RESTART_CNT));
        first := true;
        svcCurr := svcCurr + 1;
      }
      procs[index] := info.(taskCnt := taskCnt, busyFlag := PROC_S_IDLE);
      if first {
        procs[index] := procs[index].(restartCnt := MAX_RESTART_CNT);
      }
      ok := true;
    }

    /** The search loop of procs_get_dst_proc: -1 or the chosen index, and the last minimum. */
    method Search(live: seq<bool>, msgType: int) returns (index: int, min: nat)
      requires Valid() && |live| >= svcCurr
      ensures var v := Sight(live, msgType);
              if index == -1 then forall i: nat | i < v.n :: !v.May(i)
              else 0 <= index < svcCurr && v.May(index) && v.Right(index)
                   && (v.Over(index) <==> min > SW_MAX_TASK_CNT)
    {
      ghost var v := Sight(live, msgType);
      index, min := -1, 0;
      ghost var least := -1;
      var i := 0;
      while i < svcCurr
        invariant 0 <= i <= svcCurr && v.NoneFree(i)
        invariant if index == -1 then forall j: nat | j < i :: !v.May(j)
                  else 0 <= index < i && v.Least(index, i) && min == procs[index].taskCnt
      {
        if Eligible(procs[i], live[i], msgType) {
          if index == -1 {
            min, index := procs[i].taskCnt, i;
          }
          if procs[i].taskCnt < min {
            min, index := procs[i].taskCnt, i;
          }
          least := index;
          assert v.Least(least, i + 1) && min == procs[least].taskCnt;
          if procs[i].busyFlag == PROC_S_IDLE {
            index := i;
            assert v.Free(i);
            return;
          }
        }
        i := i + 1;
      }
    }

    /** The loop that brings the counts down. */
    method Lower()
      requires svcCurr <= procs.Length
      modifies procs
      ensures procs[..] == LoweredTo(old(procs[..]), svcCurr)
    {
      var i := 0;
      while i < svcCurr
        invariant 0 <= i <= svcCurr && procs[..] == LoweredTo(old(procs[..]), i)
      {
        if procs[i].taskCnt > SW_MAX_TASK_CNT {
          procs[i] := procs[i].(taskCnt := procs[i].taskCnt - SW_MAX_TASK_CNT);
        }
        i := i + 1;
      }
    }

    /** procs_get_dst_proc; the copy is taken before the count goes up. */
    method GetDst(live: seq<bool>, msgType: int) returns (r: Option<Proc>, index: int)
      requires Valid() && |live| >= svcCurr
      modifies procs
      ensures Valid() && svcCurr == old(svcCurr)
      ensures var v := old(Sight(live, msgType));
              && (r.None? ==> index == -1 && procs[..] == v.ps && forall i: nat | i < v.n :: !v.May(i))
              && (r.Some? ==> 0 <= index < v.n && v.May(index) && v.Right(index) && r.value == Marked(v.ps[index])
                              && procs[..] == After(v.ps, v.n, index, v.Over(index)))
      ensures r.None? <==> forall i | 0 <= i < svcCurr :: Unfit(old(procs[i]), live[i], msgType)
      ensures r.Some? ==> !Unfit(old(procs[index]), live[index], msgType)
    {
      var min;
      ghost var was, n, v := procs[..], svcCurr, Sight(live, msgType);
      index, min := Search(live, msgType);
      if index < 0 {
        assert Sight(live, msgType) == v;
        forall i | 0 <= i < svcCurr ensures Unfit(procs[i], live[i], msgType) { assert !v.May(i); }
        return None, index;
      }
      if procs[index].busyFlag == PROC_S_IDLE {
        procs[index] := procs[index].(busyFlag := PROC_S_BUSYING);
      }
      r := Some(procs[index]);
      assert v.May(index) && !Unfit(was[index], live[index], msgType);
      procs[index] := procs[index].(taskCnt := (procs[index].taskCnt + 1) % UINT32);
      ghost var qs := was[index := Counted(Marked(was[index]))];
      assert procs[..] == qs;
      if min > SW_MAX_TASK_CNT { Lower(); }
    }
  }

  // ------------------------------------------------------------- runs with every process busy

  /** All of the first n processes may get the message and none is idle. */
  predicate AllBusy(v: View)
    requires v.Valid()
  {
    v.n > 0 && (forall i: nat | i < v.n :: v.May(i)) && v.NoneFree(v.n)
  }

  /** The counts of the first n processes are within one of each other and of the limit. */
  predicate Even(ps: seq<Proc>, n: nat) {
    && n <= |ps|
    && (forall i, j | 0 <= i < n && 0 <= j < n :: ps[i].taskCnt <= ps[j].taskCnt + 1)
    && (forall i | 0 <= i < n :: ps[i].taskCnt <= SW_MAX_TASK_CNT + 1)
  }

  /** What one message does to the count of process i. */
  lemma CountAfter(v: View, k: nat, i: nat)
    requires v.Valid() && AllBusy(v) && v.May(k) && i < v.n && v.ps[i].taskCnt <= SW_MAX_TASK_CNT + 1
    ensures After(v.ps, v.n, k, v.Over(k))[i].taskCnt == NewCount(v, k, i)
  {
    assert v.May(i) && !v.Free(k);
  }

  predicate Around(ps: seq<Proc>, n: nat, base: int) {
    n <= |ps| && forall i | 0 <= i < n :: base <= ps[i].taskCnt <= base + 1
  }

  /** One message keeps the counts even, across the lowering too, and no count passes the limit by more than two. */
  lemma EvenStep(v: View, k: nat)
    requires v.Valid() && AllBusy(v) && Even(v.ps, v.n) && v.May(k) && v.Right(k)
    ensures v.ps[k].taskCnt + 1 <= SW_MAX_TASK_CNT + 2 < UINT32
    ensures Even(After(v.ps, v.n, k, v.Over(k)), v.n)
    ensures forall i | 0 <= i < v.n :: After(v.ps, v.n, k, v.Over(k))[i].taskCnt == NewCount(v, k, i)
  {
    var least := v.ps[k].taskCnt;
    var base := least - (if v.Over(k) then SW_MAX_TASK_CNT else 0);
    assert v.Over(k) <==> least > SW_MAX_TASK_CNT by { LeastDecides(v, k); }
    forall i | 0 <= i < v.n
      ensures After(v.ps, v.n, k, v.Over(k))[i].taskCnt == NewCount(v, k, i) && base <= NewCount(v, k, i) <= base + 1
    {
      assert v.May(i) && least <= v.ps[i].taskCnt;
      CountAfter(v, k, i);
    }
    assert Around(After(v.ps, v.n, k, v.Over(k)), v.n, base);
  }

  lemma LeastDecides(v: View, k: nat)
    requires v.Valid() && AllBusy(v) && v.May(k) && v.Right(k)
    ensures v.Over(k) <==> v.ps[k].taskCnt > SW_MAX_TASK_CNT
  {
    assert !v.Free(k);
    if v.Over(k) { assert v.May(k); }
  }

  function NewCount(v: View, k: nat, i: nat): int
    requires v.Valid() && v.May(k) && i < v.n
  {
    v.ps[i].taskCnt + (if i == k then 1 else 0) - (if v.Over(k) then SW_MAX_TASK_CNT else 0)
  }

  /** A run: each table follows from the one before by a dispatch to the right process. */
  predicate Run(vs: seq<View>, picks: seq<nat>) {
    && |vs| == |picks| + 1
    && (forall m | 0 <= m < |vs| :: Level(vs[m], vs[0].n))
    && (forall m | 0 <= m < |picks| :: Dispatched(vs[m], vs[m + 1], picks[m]))
  }

  predicate Level(v: View, n: nat) { v.Valid() && AllBusy(v) && v.n == n }

  /** Between two dispatches only what is not a count may change. */
  predicate Dispatched(v: View, w: View, k: nat)
  {
    v.Valid() && w.Valid() && v.n == w.n && v.May(k) && v.Right(k)
      && SameCounts(After(v.ps, v.n, k, v.Over(k)), w.ps, v.n)
  }

  predicate SameCounts(ps: seq<Proc>, qs: seq<Proc>, n: nat) {
    n <= |ps| && n <= |qs| && forall i | 0 <= i < n :: ps[i].taskCnt == qs[i].taskCnt
  }

  /** How often process i was picked. */
  function Times(picks: seq<nat>, i: nat): nat {
    if |picks| == 0 then 0 else Times(picks[..|picks| - 1], i) + (if picks[|picks| - 1] == i then 1 else 0)
  }

  /** Over a whole run the counts stay even, and each is its start plus the picks less the same amount for all. */
  lemma {:induction false} RunEven(vs: seq<View>, picks: seq<nat>) returns (lowered: nat)
    requires Run(vs, picks) && Even(vs[0].ps, vs[0].n)
    ensures var (v, w) := (vs[0], vs[|picks|]);
            && Even(w.ps, w.n)
            && forall i: nat | i < v.n :: w.ps[i].taskCnt == v.ps[i].taskCnt + Times(picks, i) - lowered
  {
    var m := |picks|;
    if m == 0 {
      lowered := 0;
    } else {
      RunPrefix(vs, picks);
      lowered := RunEven(vs[..m], picks[..m - 1]);
      var (u, w, k) := (vs[m - 1], vs[m], picks[m - 1]);
      assert Dispatched(u, w, k) && Level(u, vs[0].n);
      EvenStep(u, k);
      assert vs[..m][m - 1] == u;
      var more := if u.Over(k) then SW_MAX_TASK_CNT else 0;
      forall i: nat | i < u.n
        ensures w.ps[i].taskCnt == vs[0].ps[i].taskCnt + Times(picks, i) - (lowered + more)
      {
        assert u.ps[i].taskCnt == vs[0].ps[i].taskCnt + Times(picks[..m - 1], i) - lowered;
        assert w.ps[i].taskCnt == NewCount(u, k, i);
      }
      EvenSame(After(u.ps, u.n, k, u.Over(k)), w.ps, u.n);
      lowered := lowered + more;
    }
  }

  lemma EvenSame(ps: seq<Proc>, qs: seq<Proc>, n: nat)
    requires Even(ps, n) && SameCounts(ps, qs, n)
    ensures Even(qs, n) {}

  lemma RunPrefix(vs: seq<View>, picks: seq<nat>)
    requires Run(vs, picks) && |picks| > 0
    ensures Run(vs[..|picks|], picks[..|picks| - 1])
  {
    var m := |picks|;
    forall j | 0 <= j < m - 1 ensures Dispatched(vs[..m][j], vs[..m][j + 1], picks[..m - 1][j]) {
      assert Dispatched(vs[j], vs[j + 1], picks[j]);
    }
  }

  /** Processes that start level have been picked equally often, but for one. */
  lemma RunFair(vs: seq<View>, picks: seq<nat>, i: nat, j: nat)
    requires Run(vs, picks) && Even(vs[0].ps, vs[0].n) && i < vs[0].n && j < vs[0].n
    requires vs[0].ps[i].taskCnt == vs[0].ps[j].taskCnt
    ensures Times(picks, i) <= Times(picks, j) + 1
  {
    var lowered := RunEven(vs, picks);
  }

  /** A busy table stays busy: a dispatch changes nothing but counts then. */
  lemma BusyStays(v: View, k: nat)
    requires v.Valid() && AllBusy(v) && v.May(k) && v.Right(k) && Even(v.ps, v.n)
    ensures var w := v.(ps := After(v.ps, v.n, k, v.Over(k))); w.Valid() && AllBusy(w)
  {
    var w := v.(ps := After(v.ps, v.n, k, v.Over(k)));
    EvenStep(v, k);
    forall i: nat | i < v.n ensures w.May(i) && !w.Free(i) { assert v.May(i) && !v.Free(i); }
  }

  /** Any number of messages to a group in which all are eligible and busy leaves the counts even. */
  method Serve(g: Group, live: seq<bool>, msgType: int, messages: nat)
    requires g.Valid() && |live| >= g.svcCurr && AllBusy(g.Sight(live, msgType)) && Even(g.procs[..], g.svcCurr)
    modifies g.procs
    ensures g.Valid() && Even(g.procs[..], g.svcCurr)
  {
    var m := 0;
    while m < messages
      invariant g.Valid() && g.svcCurr == old(g.svcCurr)
      invariant AllBusy(g.Sight(live, msgType)) && Even(g.procs[..], g.svcCurr)
    {
      ghost var v := g.Sight(live, msgType);
      assert v.May(0);
      var r, index := g.GetDst(live, msgType);
      EvenStep(v, index);
      BusyStays(v, index);
      assert g.Sight(live, msgType) == v.(ps := After(v.ps, v.n, index, v.Over(index)));
      m := m + 1;
    }
  }

  // --------------------------------------------------------------- the groups' shares of the table

  /** sw_svr_grp_t as procs_svr_alloc lays it out; offset counts processes. */
  datatype Entry = Entry(name: string, product: string, size: nat, offset: nat)

  /** procs_get_svr_by_name: an empty product matches every one. */
  predicate Matches(e: Entry, name: string, product: string) {
    (product == "" || e.product == product) && e.name == name
  }

  /** The first n entries share out the first use processes without overlap, in order. */
  predicate Shared(es: seq<Entry>, n: nat, use: nat) {
    && n <= |es|
    && (forall i | 0 <= i < |es| :: es[i].name != "" <==> i < n)
    && (forall i | 0 <= i < n :: Ends(es, i) == if i + 1 < n then es[i + 1].offset else use)
    && (n == 0 ==> use == 0) && (n > 0 ==> es[0].offset == 0)
  }

  function Ends(es: seq<Entry>, i: nat): nat
    requires i < |es|
  {
    es[i].offset + es[i].size
  }

  /** No process belongs to two groups, and every group lies within what is in use. */
  lemma {:induction false} SharesApart(es: seq<Entry>, n: nat, use: nat, i: nat, j: nat)
    requires Shared(es, n, use) && i < j < n
    ensures Ends(es, i) <= es[j].offset && Ends(es, j) <= use
    decreases n - i
  {
    SharesInside(es, n, use, j);
    if i + 1 < j { SharesApart(es, n, use, i + 1, j); }
  }

  lemma {:induction false} SharesInside(es: seq<Entry>, n: nat, use: nat, i: nat)
    requires Shared(es, n, use) && i < n
    ensures Ends(es, i) <= use
    decreases n - i
  {
    if i + 1 < n { SharesInside(es, n, use, i + 1); }
  }

  lemma NewShare(es: seq<Entry>, n: nat, use: nat, e: Entry)
    requires Shared(es, n, use) && n < |es| && e.name != "" && e.offset == use
    ensures Shared(es[n := e], n + 1, use + e.size)
  {
    var fs := es[n := e];
    forall i | 0 <= i < n ensures Ends(fs, i) == fs[i + 1].offset { assert Ends(es, i) == Ends(fs, i); }
  }

  class Head {
    const groups: array<Entry>
    const max: nat
    var used: nat
    var use: nat
    var locked: bool    // this process holds the table's lock

    ghost predicate Valid()
      reads this, groups
    {
      Shared(groups[..], used, use) && (use == 0 || use < max)
    }

    constructor (groupMax: nat, max: nat)
      ensures Valid() && fresh(groups) && groups.Length == groupMax && this.max == max && used == use == 0 && !locked
    {
      groups := new Entry[groupMax](_ => Entry("", "", 0, 0));
      this.max := max;
      used, use, locked := 0, 0, false;
    }

    /** procs_get_svr_by_name: the entry of the group, or used when there is none. */
    method Lookup(name: string, product: string) returns (index: nat)
      requires Valid()
      ensures index <= used && (index < used ==> First(groups[..], used, name, product, index))
      ensures index == used ==> forall i | 0 <= i < used :: !Matches(groups[i], name, product)
    {
      index := 0;
      while index < used
        invariant 0 <= index <= used && forall j | 0 <= j < index :: !Matches(groups[j], name, product)
      {
        if Matches(groups[index], name, product) { return; }
        index := index + 1;
      }
    }

    /** The first entry without a name, or the end of the table. */
    method FirstFree() returns (index: nat)
      requires Valid()
      ensures index == used
    {
      index := 0;
      while index < groups.Length
        invariant 0 <= index <= used && forall j | 0 <= j < index :: groups[j].name != ""
      {
        if groups[index].name == "" { return; }
        index := index + 1;
      }
    }

    /** A new group would fit: it has a name, a free entry and enough processes behind the others. */
    ghost predicate Fits(es: seq<Entry>, n: nat, u: nat, name: string, size: nat)
      reads this
    {
      name != "" && n < |es| && u + size < max
    }

    /** The second half of procs_svr_alloc: a group that is not known yet gets an entry. */
    method Enter(name: string, product: string, size: nat, newId: bool) returns (ok: bool)
      requires Valid() && !locked && name != ""
      modifies this, groups
      ensures var (es, n, u) := (old(groups[..]), old(used), old(use));
              var (fits, e) := (Fits(es, n, u, name, size), Entry(name, product, size, u));
              && (ok <==> fits && newId) && (locked <==> fits && !newId) && (locked <==> !Valid())
              && (ok ==> used == n + 1 && use == u + size) && (!ok ==> used == n && use == u)
              && groups[..] == if fits then es[n := e] else es
    {
      locked := true;
      var index := FirstFree();
      if index == groups.Length {
        locked := false;
        return false;
      }
      var curr := use + size;
      if curr >= max {
        locked := false;
        return false;
      }
      NewShare(groups[..], used, use, Entry(name, product, size, use));
      groups[index] := Entry(name, product, size, use);
      if !newId { return false; }
      use, used := curr, used + 1;
      locked := false;
      ok := true;
    }

    /**
     * procs_svr_alloc; newId tells whether a lock number can be had. A known group is accepted with its own size
     * only, a new one gets the processes behind the others; the last process of the table is never given out.
     * Exactly when a new group fits but no lock number is left, the entry stays written, is not counted, and
     * the lock stays taken.
     */
    method Alloc(name: string, product: string, size: nat, newId: bool) returns (ok: bool)
      requires Valid() && !locked
      modifies this, groups
      ensures var (es, n, u) := (old(groups[..]), old(used), old(use));
              var known := exists i :: 0 <= i < n && Matches(es[i], name, product);
              var (fits, e) := (Fits(es, n, u, name, size), Entry(name, product, size, u));
              && (known ==> (ok <==> name != "" && exists i :: First(es, n, name, product, i) && es[i].size == size))
              && (!known ==> (ok <==> fits && newId))
              && (locked <==> !known && fits && !newId) && (locked <==> !Valid())
              && (if ok && !known then used == n + 1 && use == u + size else used == n && use == u)
              && groups[..] == if !known && fits then es[n := e] else es
    {
      if name == "" { return false; }
      var index := Lookup(name, product);
      if index < used { return groups[index].size == size; }
      ok := Enter(name, product, size, newId);
    }
  }

  /** The entry that the lookup finds. */
  predicate First(es: seq<Entry>, n: nat, name: string, product: string, i: int) {
    0 <= i < n <= |es| && Matches(es[i], name, product) && forall j | 0 <= j < i :: !Matches(es[j], name, product)
  }
}
