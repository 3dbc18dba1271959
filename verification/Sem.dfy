/**
 * The reader/writer locks on counting semaphores, and the numbering of locks, as steps of processes
 * that may die at any moment and whose operations the kernel then undoes (SEM_UNDO).
 */
module Sem {

  const SEM_VALUE: int := 500

  // ---------------------------------------------------------------------------------- state

  /** Where a process stands in dfs_lock_newid. */
  datatype Pc = Outside
              | Locked                  // holds lock 1
              | Loaded(count: int)      // has read lockcnt for the increment
              | Stored                  // has written it back
              | Leaving(id: int)        // about to give lock 1 back

  /** What a process has taken of every lock and not given back, and what the kernel would give back for it. */
  datatype Process = Process(shares: seq<nat>, writes: seq<int>, adjust: seq<int>, pc: Pc)

  datatype State = State(values: seq<int>, processes: seq<Process>, lockcnt: int, given: seq<int>)

  function Semnum(s: State): nat { |s.values| }

  /** The range check of every lock function. */
  predicate InRange(s: State, lock: int) { 0 <= lock < Semnum(s) }

  function Load(q: Process, i: nat): int
    requires i < |q.shares| && i < |q.writes|
  {
    q.shares[i] + SEM_VALUE * q.writes[i]
  }

  predicate Shaped(n: nat, q: Process) { |q.shares| == |q.writes| == |q.adjust| == n }

  function Repeat<T>(n: nat, x: T): (r: seq<T>)
    ensures |r| == n && forall i | 0 <= i < n :: r[i] == x
  {
    seq(n, _ => x)
  }

  function Fresh(n: nat): Process { Process(Repeat(n, 0), Repeat(n, 0), Repeat(n, 0), Outside) }

  /** dfs_lock_init, for any number of processes. */
  predicate Init(s: State) {
    && Semnum(s) > 0 && s.values == Repeat(Semnum(s), SEM_VALUE)
    && s.lockcnt == 1 && s.given == []
    && forall p | 0 <= p < |s.processes| :: s.processes[p] == Fresh(Semnum(s))
  }

  // ---------------------------------------------------------------------------------- steps

  /** semop with SEM_UNDO: blocked while the value would fall below zero. */
  predicate SemOp(s: State, t: State, p: nat, i: nat, delta: int, q: Process)
    requires p < |s.processes| && i < Semnum(s) && Shaped(Semnum(s), s.processes[p])
  {
    && s.values[i] + delta >= 0
    && q.adjust == s.processes[p].adjust[i := s.processes[p].adjust[i] - delta]
    && t == s.(values := s.values[i := s.values[i] + delta], processes := s.processes[p := q])
  }

  /**
   * The user's calls and the lines of dfs_lock_newid; a refused or blocked call is no step. Interrupt is the lock
   * call of dfs_lock_newid that fails: its result is not looked at, and the next lines run without the lock.
   */
  datatype Action = ReadLock(lock: int) | ReadUnlock(lock: int)
                  | WriteLock(lock: int) | WriteUnlock(lock: int)
                  | EnterNewId | Interrupt | Test | Increment | ReadBack | LeaveNewId
                  | Die

  predicate Ready(s: State, p: nat) {
    p < |s.processes| && Shaped(Semnum(s), s.processes[p])
  }

  predicate Next(s: State, t: State, p: nat, a: Action)
    requires Ready(s, p)
  {
    var q := s.processes[p];
    match a
    case ReadLock(i) => q.pc.Outside? && InRange(s, i)
      && SemOp(s, t, p, i, -1, q.(shares := q.shares[i := q.shares[i] + 1], adjust := q.adjust[i := q.adjust[i] + 1]))
    case ReadUnlock(i) => q.pc.Outside? && InRange(s, i) && q.shares[i] > 0
      && SemOp(s, t, p, i, 1, q.(shares := q.shares[i := q.shares[i] - 1], adjust := q.adjust[i := q.adjust[i] - 1]))
    case WriteLock(i) => q.pc.Outside? && InRange(s, i)
      && SemOp(s, t, p, i, -SEM_VALUE, Taking(q, i))
    case WriteUnlock(i) => q.pc.Outside? && InRange(s, i) && q.writes[i] > 0
      && SemOp(s, t, p, i, SEM_VALUE, Giving(q, i))
    case EnterNewId => q.pc.Outside?
      && if InRange(s, 1) then SemOp(s, t, p, 1, -SEM_VALUE, Taking(q, 1).(pc := Locked))
         else t == s.(processes := s.processes[p := q.(pc := Locked)])
    case Interrupt => q.pc.Outside? && InRange(s, 1) && t == s.(processes := s.processes[p := q.(pc := Locked)])
    case Test => q.pc.Locked?
      && t == s.(processes := s.processes
             [p := q.(pc := if s.lockcnt < Semnum(s) then Loaded(s.lockcnt) else Leaving(-1))])
    case Increment => q.pc.Loaded?
      && t == s.(lockcnt := q.pc.count + 1, processes := s.processes[p := q.(pc := Stored)])
    case ReadBack => q.pc.Stored?
      && t == s.(processes := s.processes[p := q.(pc := Leaving(s.lockcnt))])
    case LeaveNewId => q.pc.Leaving?
      && var u := s.(given := if q.pc.id == -1 then s.given else s.given + [q.pc.id]);
         if InRange(s, 1) then SemOp(u, t, p, 1, SEM_VALUE, Giving(q, 1).(pc := Outside))
         else t == u.(processes := s.processes[p := q.(pc := Outside)])
    case Die => t == s.(values := Undone(s.values, q.adjust), processes := s.processes[p := Fresh(Semnum(s))])
  }

  function Taking(q: Process, i: nat): Process
    requires i < |q.writes| && i < |q.adjust|
  {
    q.(writes := q.writes[i := q.writes[i] + 1], adjust := q.adjust[i := q.adjust[i] + SEM_VALUE])
  }

  function Giving(q: Process, i: nat): Process
    requires i < |q.writes| && i < |q.adjust|
  {
    q.(writes := q.writes[i := q.writes[i] - 1], adjust := q.adjust[i := q.adjust[i] - SEM_VALUE])
  }

  /** The kernel adds the adjustments of a dead process to the values, but takes no value below zero. */
  function Undone(values: seq<int>, adjust: seq<int>): (r: seq<int>)
    requires |values| == |adjust|
    ensures |r| == |values|
  {
    seq(|values|, i requires 0 <= i < |values| => if values[i] + adjust[i] < 0 then 0 else values[i] + adjust[i])
  }

  // ------------------------------------------------------------------------------ invariant

  /** What all processes hold of lock i. */
  function Total(qs: seq<Process>, i: nat): int
    requires forall p | 0 <= p < |qs| :: i < |qs[p].shares| && i < |qs[p].writes|
  {
    if |qs| == 0 then 0 else Total(qs[..|qs| - 1], i) + Load(qs[|qs| - 1], i)
  }

  predicate AllShaped(n: nat, qs: seq<Process>) {
    forall p | 0 <= p < |qs| :: Shaped(n, qs[p])
  }

  /** The undo entry of the process for lock i is what it holds. */
  predicate Backed(q: Process, i: nat)
    requires i < |q.shares| && i < |q.writes| && i < |q.adjust|
  {
    q.adjust[i] == Load(q, i) && q.writes[i] >= 0
  }

  predicate AllBacked(n: nat, qs: seq<Process>, i: nat)
    requires i < n && AllShaped(n, qs)
  {
    forall p | 0 <= p < |qs| :: Backed(qs[p], i)
  }

  /** A lock's value is what nobody holds of it, and every process's undo entry is what that one holds. */
  predicate Conserved(s: State, i: nat) {
    && i < Semnum(s) && AllShaped(Semnum(s), s.processes) && AllBacked(Semnum(s), s.processes, i)
    && 0 <= s.values[i] == SEM_VALUE - Total(s.processes, i)
  }

  predicate Counting(s: State) {
    && Semnum(s) > 0 && AllShaped(Semnum(s), s.processes)
    && forall i: nat | i < Semnum(s) :: Conserved(s, i)
  }

  lemma {:induction false} TotalUpdate(n: nat, qs: seq<Process>, p: nat, q: Process, i: nat)
    requires p < |qs| && i < n && AllShaped(n, qs) && Shaped(n, q)
    ensures AllShaped(n, qs[p := q])
    ensures Total(qs[p := q], i) == Total(qs, i) - Load(qs[p], i) + Load(q, i)
  {
    var m := |qs| - 1;
    if p < m {
      assert qs[p := q][..m] == qs[..m][p := q];
      TotalUpdate(n, qs[..m], p, q, i);
    } else {
      assert qs[p := q][..m] == qs[..m];
    }
  }

  lemma {:induction false} TotalAtLeast(n: nat, qs: seq<Process>, p: nat, i: nat)
    requires p < |qs| && i < n && AllShaped(n, qs) && AllBacked(n, qs, i)
    ensures 0 <= Load(qs[p], i) <= Total(qs, i)
  {
    assert Backed(qs[p], i) && Backed(qs[|qs| - 1], i);
    if p < |qs| - 1 {
      TotalAtLeast(n, qs[..|qs| - 1], p, i);
    } else if p > 0 {
      TotalAtLeast(n, qs[..p], p - 1, i);
    }
  }

  lemma {:induction false} TotalAtLeastTwo(n: nat, qs: seq<Process>, p: nat, q: nat, i: nat)
    requires p < q < |qs| && i < n && AllShaped(n, qs) && AllBacked(n, qs, i)
    ensures Load(qs[p], i) + Load(qs[q], i) <= Total(qs, i)
  {
    assert Backed(qs[|qs| - 1], i);
    if q < |qs| - 1 {
      TotalAtLeastTwo(n, qs[..|qs| - 1], p, q, i);
    } else {
      TotalAtLeast(n, qs[..|qs| - 1], p, i);
    }
  }

  lemma {:induction false} TotalZero(n: nat, qs: seq<Process>, i: nat)
    requires i < n && AllShaped(n, qs) && forall p | 0 <= p < |qs| :: Load(qs[p], i) == 0
    ensures Total(qs, i) == 0
  {
    if |qs| > 0 { TotalZero(n, qs[..|qs| - 1], i); }
  }

  /** Nobody else holds a lock that a process holds for writing. */
  predicate Excludes(s: State, i: nat) {
    forall p, q | 0 <= p < |s.processes| && 0 <= q < |s.processes| && p != q ::
      Writes(s.processes[p], i) ==> !Writes(s.processes[q], i) && !Reads(s.processes[q], i)
  }

  predicate Writes(q: Process, i: nat) { i < |q.writes| && q.writes[i] > 0 }

  predicate Reads(q: Process, i: nat) { i < |q.shares| && q.shares[i] > 0 }

  /** A holder of a write lock is alone with it. */
  lemma Exclusive(s: State, p: nat, q: nat, i: nat)
    requires Conserved(s, i) && p < |s.processes| && q < |s.processes|
    requires s.processes[p].writes[i] > 0
    ensures s.processes[p].writes[i] == 1 && s.processes[p].shares[i] == 0 && s.values[i] == 0
    ensures p != q ==> s.processes[q].writes[i] == 0 && s.processes[q].shares[i] == 0
  {
    assert Backed(s.processes[p], i) && Backed(s.processes[q], i);
    TotalAtLeast(Semnum(s), s.processes, p, i);
    if p < q {
      TotalAtLeastTwo(Semnum(s), s.processes, p, q, i);
    } else if q < p {
      TotalAtLeastTwo(Semnum(s), s.processes, q, p, i);
    }
  }

  // ------------------------------------------------------------------------------ every step keeps it

  /** One process changes what it holds of lock i by as much as the value changes the other way. */
  lemma Shifted(s: State, t: State, p: nat, i: nat)
    requires Conserved(s, i) && p < |s.processes| && Semnum(t) == Semnum(s) && |t.processes| == |s.processes|
    requires var q := t.processes[p];
             && t.processes == s.processes[p := q] && Shaped(Semnum(s), q) && Backed(q, i)
             && 0 <= t.values[i] == s.values[i] + Load(s.processes[p], i) - Load(q, i)
    ensures Conserved(t, i)
  {
    var q := t.processes[p];
    TotalUpdate(Semnum(s), s.processes, p, q, i);
    forall r | 0 <= r < |t.processes| ensures Backed(t.processes[r], i) {
      if r != p { assert Backed(s.processes[r], i); }
    }
  }

  /** A step changes one process and keeps all sizes. */
  lemma NextKeepsShape(s: State, t: State, p: nat, a: Action)
    requires AllShaped(Semnum(s), s.processes) && Ready(s, p) && Next(s, t, p, a)
    ensures Semnum(t) == Semnum(s) && |t.processes| == |s.processes| && t.processes == s.processes[p := t.processes[p]]
    ensures AllShaped(Semnum(t), t.processes)
  {
  }

  /** Every step keeps every lock's account, unless one that never got lock 1 gives it back. */
  lemma NextKeepsConserved(s: State, t: State, p: nat, a: Action, i: nat)
    requires Conserved(s, i) && Ready(s, p) && Next(s, t, p, a)
    requires a.LeaveNewId? && i == 1 ==> s.processes[p].writes[1] > 0
    ensures Conserved(t, i)
  {
    NextKeepsShape(s, t, p, a);
    assert Backed(s.processes[p], i);
    if a.Die? { UndoKeeps(s, t, p, i); } else { Shifted(s, t, p, i); }
  }

  /** The kernel's undo gives back exactly what the dead process held. */
  lemma UndoKeeps(s: State, t: State, p: nat, i: nat)
    requires Conserved(s, i) && Ready(s, p) && Next(s, t, p, Die)
    ensures Conserved(t, i) && t.values[i] == s.values[i] + Load(s.processes[p], i)
  {
    assert Backed(s.processes[p], i);
    TotalAtLeast(Semnum(s), s.processes, p, i);
    Shifted(s, t, p, i);
  }

  // ----------------------------------------------------------------------- fresh lock numbers

  /** Inside dfs_lock_newid, where lock 1 is held if it exists. */
  predicate Numbering(s: State, q: Process)
    requires Shaped(Semnum(s), q)
  {
    match q.pc
    case Outside => true
    case Locked => Holds(s, q)
    case Loaded(count) => Holds(s, q) && count == s.lockcnt < Semnum(s)
    case Stored => Holds(s, q) && Below(s.given, s.lockcnt) && s.lockcnt > 1
    case Leaving(id) => Holds(s, q) && (id == -1 || (id == s.lockcnt > 1 && Below(s.given, id)))
  }

  predicate Holds(s: State, q: Process)
    requires Shaped(Semnum(s), q)
  {
    Semnum(s) > 1 ==> q.writes[1] > 0
  }

  predicate Below(given: seq<int>, id: int) { forall k | 0 <= k < |given| :: given[k] < id }

  predicate Ascending(given: seq<int>) { forall k, m | 0 <= k < m < |given| :: given[k] < given[m] }

  predicate Numbered(s: State) {
    && Counting(s)
    && (forall p | 0 <= p < |s.processes| :: Numbering(s, s.processes[p]))
    && 1 <= s.lockcnt <= Semnum(s)
    && Ascending(s.given) && Below(s.given, s.lockcnt + 1) && (forall k | 0 <= k < |s.given| :: s.given[k] > 1)
  }

  /** While a process is between its lock and unlock, every other one is outside. */
  lemma Alone(s: State, p: nat, q: nat)
    requires Numbered(s) && p < |s.processes| && q < |s.processes| && p != q && Semnum(s) > 1
    requires !s.processes[p].pc.Outside?
    ensures s.processes[q].pc.Outside?
  {
    assert Numbering(s, s.processes[p]) && Numbering(s, s.processes[q]) && Conserved(s, 1);
    Exclusive(s, p, q, 1);
  }

  /** The process that takes the step. */
  lemma NumberingMover(s: State, t: State, p: nat, a: Action)
    requires Numbered(s) && Ready(s, p) && Next(s, t, p, a) && !a.Interrupt? && Shaped(Semnum(t), t.processes[p])
    requires Semnum(t) == Semnum(s) && p < |t.processes|
    ensures Numbering(t, t.processes[p])
  {
    assert Numbering(s, s.processes[p]);
    if Semnum(s) > 1 { assert Conserved(s, 1) && Backed(s.processes[p], 1); }
  }

  /** A process that takes no step. */
  lemma NumberingOther(s: State, t: State, p: nat, a: Action, q: nat)
    requires Numbered(s) && Ready(s, p) && Next(s, t, p, a) && q < |s.processes| && q != p
    requires Semnum(t) == Semnum(s)
    ensures Numbering(t, s.processes[q])
  {
    assert Numbering(s, s.processes[p]) && Numbering(s, s.processes[q]);
    if Semnum(s) > 1 && !s.processes[p].pc.Outside? { Alone(s, p, q); }
  }

  lemma NextKeepsNumbered(s: State, t: State, p: nat, a: Action)
    requires Numbered(s) && Ready(s, p) && Next(s, t, p, a) && !a.Interrupt?
    ensures Numbered(t)
  {
    NextKeepsShape(s, t, p, a);
    NextKeepsCounting(s, t, p, a);
    NumberingMover(s, t, p, a);
    forall q: nat | q < |t.processes| ensures Numbering(t, t.processes[q]) {
      if q != p { NumberingOther(s, t, p, a, q); }
    }
    assert Numbering(s, s.processes[p]);
  }

  lemma NextKeepsCounting(s: State, t: State, p: nat, a: Action)
    requires Numbered(s) && Ready(s, p) && Next(s, t, p, a)
    ensures Counting(t)
  {
    assert Numbering(s, s.processes[p]);
    NextKeepsShape(s, t, p, a);
    forall i: nat | i < Semnum(t) ensures Conserved(t, i) {
      assert Conserved(s, i);
      NextKeepsConserved(s, t, p, a, i);
    }
  }

  lemma InitConserved(s: State, i: nat)
    requires Init(s) && i < Semnum(s)
    ensures AllShaped(Semnum(s), s.processes) && Conserved(s, i)
  {
    forall p | 0 <= p < |s.processes| ensures Load(s.processes[p], i) == 0 {}
    TotalZero(Semnum(s), s.processes, i);
  }

  lemma InitNumbered(s: State)
    requires Init(s)
    ensures Numbered(s)
  {
    forall i: nat | i < Semnum(s) ensures AllShaped(Semnum(s), s.processes) && Conserved(s, i) { InitConserved(s, i); }
  }

  // ------------------------------------------------------------------------------ whole runs

  datatype Event = Event(process: nat, action: Action)

  /** A run: the states one after another and the steps between them. */
  predicate Run(states: seq<State>, events: seq<Event>) {
    && |states| == |events| + 1 && Init(states[0])
    && forall k | 0 <= k < |events| :: Follows(states[k], states[k + 1], events[k])
  }

  predicate Follows(s: State, t: State, e: Event) {
    Ready(s, e.process) && Next(s, t, e.process, e.action)
  }

  /** How many lock calls of dfs_lock_newid were interrupted. */
  function Interruptions(events: seq<Event>): nat {
    if |events| == 0 then 0
    else Interruptions(events[..|events| - 1]) + if events[|events| - 1].action.Interrupt? then 1 else 0
  }

  function Last(states: seq<State>): State
    requires |states| > 0
  {
    states[|states| - 1]
  }

  /** A run without its last step is a run. */
  lemma Shorter(states: seq<State>, events: seq<Event>)
    requires Run(states, events) && |events| > 0
    ensures var n := |events|; Run(states[..n], events[..n - 1]) && Follows(states[n - 1], states[n], events[n - 1])
  {
    var n := |events|;
    assert forall k | 0 <= k < n :: Follows(states[k], states[k + 1], events[k]);
    assert forall k | 0 <= k < n - 1 :: Follows(states[..n][k], states[..n][k + 1], events[..n - 1][k]);
  }

  lemma {:induction false} RunNumbered(states: seq<State>, events: seq<Event>)
    requires Run(states, events) && Interruptions(events) == 0
    ensures Numbered(Last(states))
  {
    var n := |events|;
    if n == 0 {
      InitNumbered(states[0]);
    } else {
      Shorter(states, events);
      RunNumbered(states[..n], events[..n - 1]);
      NextKeepsNumbered(states[n - 1], states[n], events[n - 1].process, events[n - 1].action);
    }
  }

  /** Interrupted calls upset no lock but lock 1. */
  lemma {:induction false} RunConserved(states: seq<State>, events: seq<Event>, i: nat)
    requires Run(states, events) && i < Semnum(Last(states)) && (i == 1 ==> Interruptions(events) == 0)
    ensures Conserved(Last(states), i)
  {
    var n := |events|;
    if i == 1 {
      RunNumbered(states, events);
    } else if n == 0 {
      InitConserved(states[0], i);
    } else {
      Shorter(states, events);
      RunShaped(states[..n], events[..n - 1]);
      NextKeepsShape(states[n - 1], states[n], events[n - 1].process, events[n - 1].action);
      RunConserved(states[..n], events[..n - 1], i);
      NextKeepsConserved(states[n - 1], states[n], events[n - 1].process, events[n - 1].action, i);
    }
  }

  lemma {:induction false} RunShaped(states: seq<State>, events: seq<Event>)
    requires Run(states, events)
    ensures AllShaped(Semnum(Last(states)), Last(states).processes)
  {
    var n := |events|;
    if n > 0 {
      Shorter(states, events);
      RunShaped(states[..n], events[..n - 1]);
      NextKeepsShape(states[n - 1], states[n], events[n - 1].process, events[n - 1].action);
    }
  }

  function Readers(qs: seq<Process>, i: nat): nat
    requires forall p | 0 <= p < |qs| :: i < |qs[p].shares|
  {
    if |qs| == 0 then 0 else Readers(qs[..|qs| - 1], i) + qs[|qs| - 1].shares[i]
  }

  function Writers(qs: seq<Process>, i: nat): int
    requires forall p | 0 <= p < |qs| :: i < |qs[p].writes|
  {
    if |qs| == 0 then 0 else Writers(qs[..|qs| - 1], i) + qs[|qs| - 1].writes[i]
  }

  lemma {:induction false} TotalSplits(n: nat, qs: seq<Process>, i: nat)
    requires i < n && AllShaped(n, qs) && AllBacked(n, qs, i)
    ensures Total(qs, i) == Readers(qs, i) + SEM_VALUE * Writers(qs, i) && Writers(qs, i) >= 0
  {
    if |qs| > 0 {
      assert Backed(qs[|qs| - 1], i);
      TotalSplits(n, qs[..|qs| - 1], i);
    }
  }

  /**
   * In every run, crashes included, a value is 500 less the readers less 500 times the writers: for every lock but
   * lock 1 in all runs, for lock 1 in those without interrupted calls.
   */
  lemma RunConserves(states: seq<State>, events: seq<Event>, i: nat)
    requires Run(states, events) && i < Semnum(Last(states)) && (i == 1 ==> Interruptions(events) == 0)
    ensures var s := Last(states);
            && AllShaped(Semnum(s), s.processes)
            && s.values[i] == SEM_VALUE - Readers(s.processes, i) - SEM_VALUE * Writers(s.processes, i)
            && 0 <= s.values[i]
            && (Writers(s.processes, i) == 0 || (Writers(s.processes, i) == 1 && Readers(s.processes, i) == 0))
  {
    RunConserved(states, events, i);
    TotalSplits(Semnum(Last(states)), Last(states).processes, i);
  }

  /** A process that holds a lock for writing shuts all others out, in the same runs. */
  lemma RunExcludes(states: seq<State>, events: seq<Event>, i: nat)
    requires Run(states, events) && (i == 1 ==> Interruptions(events) == 0)
    ensures Excludes(Last(states), i)
  {
    var s := Last(states);
    RunShaped(states, events);
    forall p, q | 0 <= p < |s.processes| && 0 <= q < |s.processes| && p != q && Writes(s.processes[p], i)
      ensures !Writes(s.processes[q], i) && !Reads(s.processes[q], i)
    {
      RunConserved(states, events, i);
      Exclusive(s, p, q, i);
    }
  }

  // ------------------------------------------------------------------- taking and giving back

  /** The call returns, in some state. */
  ghost predicate Can(s: State, p: nat, a: Action)
    requires Ready(s, p)
  {
    exists t :: Next(s, t, p, a)
  }

  /** The only step of the action leads to t. */
  ghost predicate Leads(s: State, p: nat, a: Action, t: State)
    requires Ready(s, p)
  {
    forall u :: Next(s, u, p, a) <==> u == t
  }

  /** In what the last state of a run says about lock i, interrupted calls count for lock 1 alone. */
  predicate Reached(states: seq<State>, events: seq<Event>, i: nat) {
    Run(states, events) && i < Semnum(Last(states)) && (i == 1 ==> Interruptions(events) == 0)
  }

  lemma WriteBack(s: State, t: State, p: nat, i: nat)
    requires Conserved(s, i) && Ready(s, p) && Next(s, t, p, WriteLock(i))
    ensures Ready(t, p) && Leads(t, p, WriteUnlock(i), s)
  {
    var (q, r) := (s.processes[p], t.processes[p]);
    assert Backed(q, i);
    assert Giving(r, i) == q;
    assert t.values[i := t.values[i] + SEM_VALUE] == s.values && t.processes[p := q] == s.processes;
  }

  lemma ReadBackAgain(s: State, t: State, p: nat, i: nat)
    requires Conserved(s, i) && Ready(s, p) && Next(s, t, p, ReadLock(i))
    ensures Ready(t, p) && Leads(t, p, ReadUnlock(i), s)
  {
    var (q, r) := (s.processes[p], t.processes[p]);
    assert r.(shares := r.shares[i := r.shares[i] - 1], adjust := r.adjust[i := r.adjust[i] - 1]) == q;
    assert t.values[i := t.values[i] + 1] == s.values && t.processes[p := q] == s.processes;
  }

  /** Giving a lock back restores what was before it was taken: values, holdings and undo entries. */
  lemma RunRestores(states: seq<State>, events: seq<Event>, t: State, p: nat, i: nat)
    requires Reached(states, events, i) && Ready(Last(states), p)
    ensures Next(Last(states), t, p, WriteLock(i)) ==> Ready(t, p) && Leads(t, p, WriteUnlock(i), Last(states))
    ensures Next(Last(states), t, p, ReadLock(i)) ==> Ready(t, p) && Leads(t, p, ReadUnlock(i), Last(states))
  {
    hide Next, Leads;
    var s := Last(states);
    RunConserved(states, events, i);
    if Next(s, t, p, WriteLock(i)) { WriteBack(s, t, p, i); }
    if Next(s, t, p, ReadLock(i)) { ReadBackAgain(s, t, p, i); }
  }

  /** Nobody holds lock i, or has an undo entry for it. */
  predicate Unheld(s: State, i: nat) {
    forall p | 0 <= p < |s.processes| :: HoldsNone(s.processes[p], i)
  }

  predicate HoldsNone(q: Process, i: nat) {
    i < |q.shares| && i < |q.writes| && i < |q.adjust| && q.shares[i] == 0 && q.writes[i] == 0 && q.adjust[i] == 0
  }

  /** When a writer gives a lock back, the lock is free and nobody holds it. */
  lemma RunWriterLeaves(states: seq<State>, events: seq<Event>, t: State, p: nat, i: nat)
    requires Reached(states, events, i) && Ready(Last(states), p) && Next(Last(states), t, p, WriteUnlock(i))
    ensures i < Semnum(t) && t.values[i] == SEM_VALUE && Unheld(t, i)
  {
    var s := Last(states);
    RunConserved(states, events, i);
    Exclusive(s, p, p, i);
    forall q: nat | q < |t.processes| ensures HoldsNone(t.processes[q], i) {
      Exclusive(s, p, q, i);
      assert Backed(s.processes[q], i);
    }
  }

  lemma NoneHeld(n: nat, qs: seq<Process>, i: nat)
    requires i < n && AllShaped(n, qs) && AllBacked(n, qs, i) && Total(qs, i) == 0
    ensures forall p | 0 <= p < |qs| :: HoldsNone(qs[p], i)
  {
    forall p: nat | p < |qs| ensures HoldsNone(qs[p], i) {
      TotalAtLeast(n, qs, p, i);
      assert Backed(qs[p], i);
    }
  }

  /** A process outside gets a lock for writing if and only if nobody holds it, the process itself included. */
  lemma RunWriteLock(states: seq<State>, events: seq<Event>, p: nat, i: nat)
    requires Reached(states, events, i) && Ready(Last(states), p) && Last(states).processes[p].pc.Outside?
    ensures Can(Last(states), p, WriteLock(i)) <==> Unheld(Last(states), i)
  {
    var s := Last(states);
    var n := Semnum(s);
    RunConserved(states, events, i);
    if Unheld(s, i) {
      TotalZero(n, s.processes, i);
      var t := s.(values := s.values[i := 0], processes := s.processes[p := Taking(s.processes[p], i)]);
      assert Next(s, t, p, WriteLock(i));
    }
    if t :| Next(s, t, p, WriteLock(i)) {
      TotalIsNat(n, s.processes, i);
      NoneHeld(n, s.processes, i);
    }
  }

  lemma TotalIsNat(n: nat, qs: seq<Process>, i: nat)
    requires i < n && AllShaped(n, qs) && AllBacked(n, qs, i)
    ensures Total(qs, i) >= 0
  {
    if |qs| > 0 { TotalAtLeast(n, qs, |qs| - 1, i); }
  }

  /** A process outside gets a lock for reading if and only if there is no writer and fewer than 500 shares are held. */
  lemma RunReadLock(states: seq<State>, events: seq<Event>, p: nat, i: nat)
    requires Reached(states, events, i) && Ready(Last(states), p) && Last(states).processes[p].pc.Outside?
    ensures AllShaped(Semnum(Last(states)), Last(states).processes)
    ensures var qs := Last(states).processes;
            Can(Last(states), p, ReadLock(i)) <==> Writers(qs, i) == 0 && Readers(qs, i) < SEM_VALUE
  {
    var s := Last(states);
    var n := Semnum(s);
    var q := s.processes[p];
    RunConserved(states, events, i);
    TotalSplits(n, s.processes, i);
    if s.values[i] > 0 {
      var r := q.(shares := q.shares[i := q.shares[i] + 1], adjust := q.adjust[i := q.adjust[i] + 1]);
      var t := s.(values := s.values[i := s.values[i] - 1], processes := s.processes[p := r]);
      assert Next(s, t, p, ReadLock(i));
    }
    if t :| Next(s, t, p, ReadLock(i)) {
      assert s.values[i] > 0;
    }
  }

  /** In every run without interrupted calls the numbers handed out ascend, so they differ, and none is 0 or 1. */
  lemma RunNumbers(states: seq<State>, events: seq<Event>)
    requires Run(states, events) && Interruptions(events) == 0
    ensures var s := Last(states); Ascending(s.given) && forall k | 0 <= k < |s.given| :: 1 < s.given[k] <= Semnum(s)
  {
    RunNumbered(states, events);
  }

  // ---------------------------------------------------------------- the range of the numbers

  predicate IdInRange(s: State, q: Process) {
    match q.pc
    case Loaded(count) => 1 <= count < Semnum(s)
    case Stored => s.lockcnt > 1
    case Leaving(id) => id == -1 || 1 < id <= Semnum(s)
    case _ => true
  }

  predicate Ranged(s: State) {
    && 1 <= s.lockcnt <= Semnum(s)
    && (forall k | 0 <= k < |s.given| :: 1 < s.given[k] <= Semnum(s))
    && (forall p | 0 <= p < |s.processes| :: IdInRange(s, s.processes[p]))
  }

  /** In every run, interrupted or not, a number handed out is neither 0 nor 1 and at most semnum. */
  lemma {:induction false} RunRanged(states: seq<State>, events: seq<Event>)
    requires Run(states, events)
    ensures Ranged(Last(states))
  {
    var n := |events|;
    if n > 0 {
      Shorter(states, events);
      RunRanged(states[..n], events[..n - 1]);
      RunShaped(states[..n], events[..n - 1]);
      var (s, t, p, a) := (states[n - 1], states[n], events[n - 1].process, events[n - 1].action);
      NextKeepsShape(s, t, p, a);
      assert IdInRange(s, s.processes[p]);
      forall q | 0 <= q < |t.processes| ensures IdInRange(t, t.processes[q]) {
        assert IdInRange(s, s.processes[q]);
      }
    }
  }

  /** The last number is no lock: the range check of all four lock functions refuses it, and no other number. */
  lemma LastNumberRefused(s: State, t: State, p: nat)
    requires Ready(s, p)
    ensures !Next(s, t, p, ReadLock(Semnum(s))) && !Next(s, t, p, ReadUnlock(Semnum(s)))
    ensures !Next(s, t, p, WriteLock(Semnum(s))) && !Next(s, t, p, WriteUnlock(Semnum(s)))
    ensures forall id | 1 < id <= Semnum(s) :: InRange(s, id) <==> id != Semnum(s) {}

  // One process that asks for a number again and again

  function Asked(n: nat, m: nat): State
    requires 1 <= m <= n
  {
    State(Repeat(n, SEM_VALUE), [Fresh(n)], m, seq(m - 1, k => k + 2))
  }

  function Asking(n: nat, m: nat, j: nat): State
    requires 1 <= m < n
  {
    var q := Taking(Fresh(n), 1);
    var values := Repeat(n, SEM_VALUE)[1 := 0];
    var given := Asked(n, m).given;
    if j == 0 then State(values, [q.(pc := Locked)], m, given)
    else if j == 1 then State(values, [q.(pc := Loaded(m))], m, given)
    else if j == 2 then State(values, [q.(pc := Stored)], m + 1, given)
    else State(values, [q.(pc := Leaving(m + 1))], m + 1, given)
  }

  /** One call of dfs_lock_newid, undisturbed. */
  lemma AskOnce(n: nat, m: nat)
    requires 1 <= m < n
    ensures Follows(Asked(n, m), Asking(n, m, 0), Event(0, EnterNewId))
    ensures Follows(Asking(n, m, 0), Asking(n, m, 1), Event(0, Test))
    ensures Follows(Asking(n, m, 1), Asking(n, m, 2), Event(0, Increment))
    ensures Follows(Asking(n, m, 2), Asking(n, m, 3), Event(0, ReadBack))
  {
  }

  lemma AskLeaves(n: nat, m: nat)
    requires 1 <= m < n
    ensures Follows(Asking(n, m, 3), Asked(n, m + 1), Event(0, LeaveNewId))
  {
    var (s, q) := (Asking(n, m, 3), Asking(n, m, 3).processes[0]);
    assert Giving(q, 1).(pc := Outside) == Fresh(n);
    assert s.values[1 := s.values[1] + SEM_VALUE] == Repeat(n, SEM_VALUE);
    assert Asked(n, m + 1).given == s.given + [m + 1];
  }

  /** A run in which every number up to m is handed out, for m up to semnum: so the refused number is handed out too. */
  lemma {:induction false} NumbersGiven(n: nat, m: nat) returns (states: seq<State>, events: seq<Event>)
    requires 1 <= m <= n
    ensures Run(states, events) && Interruptions(events) == 0 && Last(states) == Asked(n, m)
    ensures forall id | 1 < id <= m :: id in Asked(n, m).given
  {
    hide Follows, Asking;
    if m == 1 {
      states, events := [Asked(n, 1)], [];
    } else {
      states, events := NumbersGiven(n, m - 1);
      AskOnce(n, m - 1);
      AskLeaves(n, m - 1);
      states, events := Longer(states, events, Asking(n, m - 1, 0), Event(0, EnterNewId));
      states, events := Longer(states, events, Asking(n, m - 1, 1), Event(0, Test));
      states, events := Longer(states, events, Asking(n, m - 1, 2), Event(0, Increment));
      states, events := Longer(states, events, Asking(n, m - 1, 3), Event(0, ReadBack));
      states, events := Longer(states, events, Asked(n, m), Event(0, LeaveNewId));
    }
    forall id | 1 < id <= m ensures id in Asked(n, m).given { assert Asked(n, m).given[id - 2] == id; }
  }

  lemma Longer(states: seq<State>, events: seq<Event>, t: State, e: Event) returns (states': seq<State>,
               events': seq<Event>)
    requires Run(states, events) && Follows(Last(states), t, e)
    ensures Run(states', events') && Last(states') == t && states'[0] == states[0]
    ensures Interruptions(events') == Interruptions(events) + if e.action.Interrupt? then 1 else 0
  {
    states', events' := states + [t], events + [e];
    assert events'[..|events|] == events;
    forall k | 0 <= k < |events'| ensures Follows(states'[k], states'[k + 1], events'[k]) {
      if k < |events| { assert Follows(states[k], states[k + 1], events[k]); }
    }
  }

  /** After every process has died, nothing is held. */
  lemma AllDead(s: State)
    requires Counting(s) && forall p | 0 <= p < |s.processes| :: s.processes[p] == Fresh(Semnum(s))
    ensures s.values == Repeat(Semnum(s), SEM_VALUE)
  {
    forall i: nat | i < Semnum(s) ensures s.values[i] == SEM_VALUE {
      assert Conserved(s, i);
      TotalZero(Semnum(s), s.processes, i);
    }
  }

  // -------------------------------------------------------------------------- one process alone

  /** Inside dfs_lock_newid with nobody else there, lock or no lock. */
  predicate Undisturbed(s: State, q: Process) {
    match q.pc
    case Loaded(count) => count == s.lockcnt < Semnum(s)
    case Stored => Below(s.given, s.lockcnt) && s.lockcnt > 1
    case Leaving(id) => id == -1 || (id == s.lockcnt > 1 && Below(s.given, id))
    case _ => true
  }

  predicate Single(s: State) {
    && |s.processes| < 2 && (forall p | 0 <= p < |s.processes| :: Undisturbed(s, s.processes[p]))
    && 1 <= s.lockcnt <= Semnum(s) && Ascending(s.given) && Below(s.given, s.lockcnt + 1)
  }

  lemma SingleStep(s: State, t: State, p: nat, a: Action)
    requires Single(s) && Ready(s, p) && Next(s, t, p, a) && t.processes == s.processes[p := t.processes[p]]
    requires Semnum(t) == Semnum(s) && |t.processes| == |s.processes|
    ensures Single(t)
  {
    assert Undisturbed(s, s.processes[p]);
  }

  /** A process that is alone gets ascending numbers in every run, interrupted or not. */
  lemma {:induction false} RunSingle(states: seq<State>, events: seq<Event>)
    requires Run(states, events) && |Last(states).processes| < 2
    ensures Single(Last(states))
  {
    var n := |events|;
    if n > 0 {
      Shorter(states, events);
      RunShaped(states[..n], events[..n - 1]);
      var (s, t, p, a) := (states[n - 1], states[n], events[n - 1].process, events[n - 1].action);
      NextKeepsShape(s, t, p, a);
      RunSingle(states[..n], events[..n - 1]);
      SingleStep(s, t, p, a);
    }
  }

  /** A run keeps the number of locks and of processes. */
  lemma {:induction false} RunSizes(states: seq<State>, events: seq<Event>)
    requires Run(states, events)
    ensures Semnum(Last(states)) == Semnum(states[0]) && |Last(states).processes| == |states[0].processes|
    ensures Semnum(Last(states)) < 2 ==> Last(states).given == []
  {
    var n := |events|;
    if n > 0 {
      Shorter(states, events);
      RunShaped(states[..n], events[..n - 1]);
      RunRanged(states[..n], events[..n - 1]);
      NextKeepsShape(states[n - 1], states[n], events[n - 1].process, events[n - 1].action);
      RunSizes(states[..n], events[..n - 1]);
      assert IdInRange(states[n - 1], states[n - 1].processes[events[n - 1].process]);
    }
  }

  // -------------------------------------------------------------------- one interrupted call

  // Of n locks: a process that holds nothing, one that holds lock 1, one that gave lock 1 back without having had
  // it, and the same one reading lock 1
  function Without(n: nat, pc: Pc): Process { Fresh(n).(pc := pc) }

  function With(n: nat, pc: Pc): Process
    requires n > 1
  {
    Taking(Fresh(n), 1).(pc := pc)
  }

  function Owing(n: nat): Process
    requires n > 1
  {
    Giving(Fresh(n), 1)
  }

  function OwingReader(n: nat): Process
    requires n > 1
  {
    Owing(n).(shares := Repeat(n, 0)[1 := 1], adjust := Repeat(n, 0)[1 := -SEM_VALUE + 1])
  }

  /** The first two of m processes and lock 1; the others are as at the start. */
  function Two(n: nat, m: nat, value: int, q0: Process, q1: Process, lockcnt: int, given: seq<int>): State
    requires n > 1 && m > 1
  {
    State(Repeat(n, SEM_VALUE)[1 := value], Repeat(m, Fresh(n))[0 := q0][1 := q1], lockcnt, given)
  }

  /** The state in which process p of the first two has become q, with another value, counter and numbers. */
  lemma TwoStep(n: nat, m: nat, s: State, p: nat, q: Process, value: int, lockcnt: int, given: seq<int>)
    requires n > 1 && m > 1 && p < 2 && |s.processes| == m && Semnum(s) == n
    requires s == Two(n, m, s.values[1], s.processes[0], s.processes[1], s.lockcnt, s.given)
    ensures State(s.values[1 := value], s.processes[p := q], lockcnt, given)
            == (if p == 0 then Two(n, m, value, q, s.processes[1], lockcnt, given)
                else Two(n, m, value, s.processes[0], q, lockcnt, given))
    ensures s.values[1 := s.values[1]] == s.values
  {
    var ps := Repeat(m, Fresh(n));
    assert ps[0 := s.processes[0]][1 := s.processes[1]][p := q]
           == if p == 0 then ps[0 := q][1 := s.processes[1]] else ps[0 := s.processes[0]][1 := q];
    assert Repeat(n, SEM_VALUE)[1 := s.values[1]][1 := value] == Repeat(n, SEM_VALUE)[1 := value];
  }

  lemma TwoParts(n: nat, m: nat, value: int, q0: Process, q1: Process, lockcnt: int, given: seq<int>)
    requires n > 1 && m > 1
    ensures var s := Two(n, m, value, q0, q1, lockcnt, given);
            && Semnum(s) == n && |s.processes| == m && s.values[1] == value && s.processes[0] == q0
              && s.processes[1] == q1
            && s.lockcnt == lockcnt && s.given == given {}

  /**
   * Process 0 takes lock 1 in dfs_lock_newid, process 1 is interrupted there, and they take turns; afterwards
   * process 0 locks lock 1 for writing and process 1 locks it for reading.
   */
  function Mishap(n: nat, m: nat, k: nat): State
    requires n > 1 && m > 1
  {
    var (v, idle) := (SEM_VALUE, Fresh(n));
    if k == 0 then Two(n, m, v, idle, idle, 1, [])
    else if k == 1 then Two(n, m, 0, With(n, Locked), idle, 1, [])
    else if k == 2 then Two(n, m, 0, With(n, Locked), Without(n, Locked), 1, [])
    else if k == 3 then Two(n, m, 0, With(n, Loaded(1)), Without(n, Locked), 1, [])
    else if k == 4 then Two(n, m, 0, With(n, Loaded(1)), Without(n, Loaded(1)), 1, [])
    else if k == 5 then Two(n, m, 0, With(n, Stored), Without(n, Loaded(1)), 2, [])
    else if k == 6 then Two(n, m, 0, With(n, Stored), Without(n, Stored), 2, [])
    else if k == 7 then Two(n, m, 0, With(n, Leaving(2)), Without(n, Stored), 2, [])
    else if k == 8 then Two(n, m, 0, With(n, Leaving(2)), Without(n, Leaving(2)), 2, [])
    else if k == 9 then Two(n, m, v, idle, Without(n, Leaving(2)), 2, [2])
    else if k == 10 then Two(n, m, 2 * v, idle, Owing(n), 2, [2, 2])
    else if k == 11 then Two(n, m, v, With(n, Outside), Owing(n), 2, [2, 2])
    else Two(n, m, v - 1, With(n, Outside), OwingReader(n), 2, [2, 2])
  }

  function MishapEvent(k: nat): Event {
    if k == 0 then Event(0, EnterNewId)
    else if k == 1 then Event(1, Interrupt)
    else if k < 10 then
      Event(k % 2, if k < 4 then Test else if k < 6 then Increment else if k < 8 then ReadBack else LeaveNewId)
    else if k == 10 then Event(0, WriteLock(1))
    else Event(1, ReadLock(1))
  }

  /** Each state of that run is of its shape. */
  lemma MishapShape(n: nat, m: nat, k: nat)
    requires n > 1 && m > 1
    ensures var s := Mishap(n, m, k);
            && Semnum(s) == n && |s.processes| == m
            && s == Two(n, m, s.values[1], s.processes[0], s.processes[1], s.lockcnt, s.given)
  {
  }

  /** What a step of that run has to change: its process, lock 1, the counter and the numbers. */
  ghost predicate Moves(n: nat, s: State, t: State, e: Event)
  {
    && e.process < 2 && Semnum(s) == Semnum(t) == n > 1 && |s.processes| == |t.processes| > 1
    && t.processes[1 - e.process] == s.processes[1 - e.process]
    && var u := State(s.values[1 := t.values[1]], s.processes[e.process := t.processes[e.process]], t.lockcnt, t.given);
       (u == t && s.values[1 := s.values[1]] == s.values ==> Follows(s, t, e))
  }

  lemma MishapStep(n: nat, m: nat, k: nat)
    requires n > 1 && m > 1 && k < 12
    ensures Follows(Mishap(n, m, k), Mishap(n, m, k + 1), MishapEvent(k))
  {
    var (s, t, e) := (Mishap(n, m, k), Mishap(n, m, k + 1), MishapEvent(k));
    if k == 0 || k == 10 { MishapTakes(n, m, k); }
    else if k < 8 { MishapTurns(n, m, k); }
    else if k < 10 { MishapLeaves(n, m, k); }
    else { MishapReads(n, m); }
    MishapShape(n, m, k);
    MishapShape(n, m, k + 1);
    hide Mishap, MishapEvent, Two, Follows;
    TwoStep(n, m, s, e.process, t.processes[e.process], t.values[1], t.lockcnt, t.given);
  }

  lemma MishapTakes(n: nat, m: nat, k: nat)
    requires n > 1 && m > 1 && (k == 0 || k == 10)
    ensures Moves(n, Mishap(n, m, k), Mishap(n, m, k + 1), MishapEvent(k))
  {
    assert With(n, Outside) == Taking(Fresh(n), 1);
  }

  lemma MishapTurns(n: nat, m: nat, k: nat)
    requires n > 1 && m > 1 && 1 <= k < 8
    ensures Moves(n, Mishap(n, m, k), Mishap(n, m, k + 1), MishapEvent(k))
  {
    if k == 1 {
    } else if k == 2 {
    } else if k == 3 {
    } else if k == 4 {
    } else if k == 5 {
    } else if k == 6 {
    } else {
    }
  }

  lemma MishapLeaves(n: nat, m: nat, k: nat)
    requires n > 1 && m > 1 && 8 <= k < 10
    ensures Moves(n, Mishap(n, m, k), Mishap(n, m, k + 1), MishapEvent(k))
  {
    if k == 8 {
      var q := With(n, Leaving(2));
      assert Giving(q, 1).writes == Fresh(n).writes && Giving(q, 1).adjust == Fresh(n).adjust;
    } else {
      assert [2] + [2] == [2, 2];
    }
  }

  lemma MishapReads(n: nat, m: nat)
    requires n > 1 && m > 1
    ensures Moves(n, Mishap(n, m, 11), Mishap(n, m, 12), MishapEvent(11))
  {
    var q := Owing(n);
    assert OwingReader(n).adjust == q.adjust[1 := q.adjust[1] + 1];
  }

  lemma MishapInit(n: nat, m: nat)
    requires n > 1 && m > 1
    ensures var s := Mishap(n, m, 0); Init(s) && Semnum(s) == n && |s.processes| == m
  {
    assert Repeat(n, SEM_VALUE)[1 := SEM_VALUE] == Repeat(n, SEM_VALUE);
    assert Repeat(m, Fresh(n))[0 := Fresh(n)][1 := Fresh(n)] == Repeat(m, Fresh(n));
  }

  /** In the end a process holds lock 1 for writing and another reads it. */
  lemma MishapEnd(n: nat, m: nat)
    requires n > 1 && m > 1
    ensures !Excludes(Mishap(n, m, 12), 1) && !AllDiffer(Mishap(n, m, 10).given)
  {
    var s := Mishap(n, m, 12);
    assert Writes(s.processes[0], 1) && Reads(s.processes[1], 1);
    var given := Mishap(n, m, 10).given;
    assert given[0] == given[1];
  }

  /** The first j steps of that run. */
  lemma {:induction false} MishapRun(n: nat, m: nat, j: nat) returns (states: seq<State>, events: seq<Event>)
    requires n > 1 && m > 1 && j <= 12
    ensures Run(states, events) && Interruptions(events) <= 1 && Last(states) == Mishap(n, m, j)
    ensures Semnum(states[0]) == n && |states[0].processes| == m
    ensures j <= 1 ==> Interruptions(events) == 0
  {
    if j == 0 {
      states, events := [Mishap(n, m, 0)], [];
      MishapInit(n, m);
    } else {
      states, events := MishapRun(n, m, j - 1);
      MishapStep(n, m, j - 1);
      hide Mishap, Follows, Init;
      states, events := Longer(states, events, Mishap(n, m, j), MishapEvent(j - 1));
    }
  }

  // ------------------------------------------------------------------- when interruptions matter

  predicate AllDiffer(given: seq<int>) { forall j, k | 0 <= j < k < |given| :: given[j] != given[k] }

  /** A run of n locks and m processes with at most k interrupted calls. */
  predicate RunOf(n: nat, m: nat, k: nat, states: seq<State>, events: seq<Event>) {
    Run(states, events) && Semnum(states[0]) == n && |states[0].processes| == m && Interruptions(events) <= k
  }

  /** All such runs hand out different numbers if and only if there are no interrupted calls, no number to hand out,
      or no second process. */
  lemma InterruptedNumbers(n: nat, m: nat, k: nat)
    ensures (forall states, events :: RunOf(n, m, k, states, events) ==> AllDiffer(Last(states).given))
            <==> k == 0 || n < 2 || m < 2
  {
    hide Mishap;
    if k == 0 || n < 2 || m < 2 {
      forall states, events | RunOf(n, m, k, states, events) ensures AllDiffer(Last(states).given) {
        RunSizes(states, events);
        if k == 0 { RunNumbers(states, events); } else if m < 2 { RunSingle(states, events); }
      }
    } else {
      var states, events := MishapRun(n, m, 10);
      assert RunOf(n, m, k, states, events);
      MishapEnd(n, m);
    }
  }

  lemma NobodyElse(s: State, i: nat)
    requires AllShaped(Semnum(s), s.processes) && (|s.processes| < 2 || Semnum(s) <= i)
    ensures Excludes(s, i) {}

  /** All such runs keep lock i exclusive if and only if there are no interrupted calls, it is not lock 1, lock 1 does
      not exist, or there is no second process. */
  lemma InterruptedExcludes(n: nat, m: nat, k: nat, i: nat)
    ensures (forall states, events :: RunOf(n, m, k, states, events) ==> Excludes(Last(states), i))
            <==> k == 0 || i != 1 || n < 2 || m < 2
  {
    hide Mishap, Excludes;
    if k == 0 || i != 1 || n < 2 || m < 2 {
      forall states, events | RunOf(n, m, k, states, events) ensures Excludes(Last(states), i) {
        RunSizes(states, events);
        RunShaped(states, events);
        if k == 0 || i != 1 { RunExcludes(states, events, i); } else { NobodyElse(Last(states), i); }
      }
    } else {
      var states, events := MishapRun(n, m, 12);
      assert RunOf(n, m, k, states, events);
      MishapEnd(n, m);
    }
  }
}
