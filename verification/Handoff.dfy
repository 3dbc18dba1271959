/**
 * How the select loop of the TCP long-link listener hands jobs to its worker threads: a status word, a
 * mutex and a condition per worker. The steps of all threads interleave freely; a condition may also
 * wake its worker for no reason.
 */
module Handoff {
  import opened Options

  datatype Status = Idle | Busy

  datatype Owner = Free | ByDispatcher | ByWorker

  /** Where a worker stands; each step below is the line named. */
  datatype WorkerPc = Starting  // status is IDLE, the loop is not entered yet
                    | Refresh   // buf_refresh
                    | SetIdle   // status = IDLE
                    | Lock      // pthread_mutex_lock
                    | Check     // while (status == IDLE), mutex held
                    | Waiting   // in pthread_cond_wait
                    | Woken     // leaving pthread_cond_wait, mutex not yet back
                    | Unlock    // pthread_mutex_unlock after a BUSY status
                    | Reading   // about to read the job
                    | Working   // at work on it, in its own buffer

  datatype DispatcherPc = Scanning
                        | Found(i: nat)      // saw IDLE, about to lock
                        | Receiving(i: nat)  // mutex held, reading from the link
                        | Filled(i: nat)     // the job is in the buffer
                        | Marked(i: nat)     // status = BUSY, about to signal
                        | Signalled(i: nat)  // about to unlock
                        | Failed(i: nat)     // nothing received, about to clear the buffer and unlock

  datatype Worker<J> = Worker(pc: WorkerPc, status: Status, buf: Option<J>, owner: Owner,
                              marked: seq<J>,   // the jobs marked BUSY for this worker, oldest first
                              handled: seq<J>)  // the jobs it has read

  datatype State<J> = State(d: DispatcherPc, workers: seq<Worker<J>>)

  // ---------------------------------------------------------------------------------- steps

  datatype WorkerAct<J> = Enter | DoRefresh | DoSetIdle | DoLock | SeeIdle | SeeBusy | Spurious | Relock
                        | DoUnlock | Read | Scribble(b: Option<J>) | Finish

  ghost predicate WorkerStep<J(!new)>(w: Worker<J>, v: Worker<J>, a: WorkerAct<J>) {
    match a
    case Enter => w.pc.Starting? && v == w.(pc := Refresh)
    case DoRefresh => w.pc.Refresh? && v == w.(pc := SetIdle, buf := None)
    case DoSetIdle => w.pc.SetIdle? && v == w.(pc := Lock, status := Idle)
    case DoLock => w.pc.Lock? && w.owner.Free? && v == w.(pc := Check, owner := ByWorker)
    case SeeIdle => w.pc.Check? && w.status.Idle? && v == w.(pc := Waiting, owner := Free)
    case SeeBusy => w.pc.Check? && w.status.Busy? && v == w.(pc := Unlock)
    case Spurious => w.pc.Waiting? && v == w.(pc := Woken)
    case Relock => w.pc.Woken? && w.owner.Free? && v == w.(pc := Check, owner := ByWorker)
    case DoUnlock => w.pc.Unlock? && v == w.(pc := Reading, owner := Free)
    case Read => w.pc.Reading? && w.buf.Some? && v == w.(pc := Working, handled := w.handled + [w.buf.value])
    case Scribble(b) => w.pc.Working? && v == w.(buf := b)
    case Finish => w.pc.Working? && v == w.(pc := Refresh)
  }

  datatype DispatcherAct<J> = Find(i: nat) | TakeLock | Receive(job: J) | Fail(b: Option<J>) | Mark | Signal | Release

  /** The dispatcher's step seen by the worker it is busy with. */
  ghost predicate Handing<J(!new)>(d: DispatcherPc, e: DispatcherPc, w: Worker<J>, v: Worker<J>, a: DispatcherAct<J>) {
    match a
    case Find(i) => d.Scanning? && e == Found(i) && w.status.Idle? && v == w
    case TakeLock => d.Found? && w.owner.Free? && e == Receiving(d.i) && v == w.(owner := ByDispatcher)
    case Receive(job) => d.Receiving? && w.buf.None? && e == Filled(d.i) && v == w.(buf := Some(job))
    case Fail(b) => d.Receiving? && e == Failed(d.i) && v == w.(buf := b)
    case Mark => d.Filled? && w.buf.Some? && e == Marked(d.i)
      && v == w.(status := Busy, marked := w.marked + [w.buf.value])
    case Signal => d.Marked? && e == Signalled(d.i) && v == if w.pc.Waiting? then w.(pc := Woken) else w
    case Release => e == Scanning && (if d.Failed? then v == w.(owner := Free, buf := None)
                                      else d.Signalled? && v == w.(owner := Free))
  }

  /** The worker a dispatcher action is about. */
  function Target<J>(d: DispatcherPc, a: DispatcherAct<J>): Option<nat> {
    if a.Find? then Some(a.i) else if d.Scanning? then None else Some(d.i)
  }

  datatype Event<J> = ByWorkerAt(i: nat, w: WorkerAct<J>) | ByDispatch(d: DispatcherAct<J>)

  ghost predicate Next<J(!new)>(s: State<J>, t: State<J>, e: Event<J>) {
    |t.workers| == |s.workers| &&
    match e
    case ByWorkerAt(i, a) => i < |s.workers| && WorkerStep(s.workers[i], t.workers[i], a)
      && t == s.(workers := s.workers[i := t.workers[i]])
    case ByDispatch(a) => Target(s.d, a).Some? && var i := Target(s.d, a).value;
      i < |s.workers| && Handing(s.d, t.d, s.workers[i], t.workers[i], a)
      && t.workers == s.workers[i := t.workers[i]]
  }

  /** A worker that starts at a place with status IDLE, an empty buffer and no job so far. */
  function StartAt<J>(pc: WorkerPc): Worker<J> {
    Worker(pc, Idle, None, if pc.Check? || pc.Unlock? then ByWorker else Free, [], [])
  }

  function Start<J>(pcs: seq<WorkerPc>): State<J> {
    State(Scanning, seq(|pcs|, i requires 0 <= i < |pcs| => StartAt(pcs[i])))
  }

  /** Every worker has passed the IDLE store in its loop and not left the wait behind it. */
  predicate AllBefore(pcs: seq<WorkerPc>) { forall i | 0 <= i < |pcs| :: Before(pcs[i]) }

  ghost predicate Init<J(!new)>(s: State<J>) {
    exists pcs :: AllBefore(pcs) && s == Start(pcs)
  }

  // ------------------------------------------------------------------------------ invariant

  /** The dispatcher is between its lock and unlock for worker i. */
  predicate Holding(d: DispatcherPc, i: nat) { !d.Scanning? && !d.Found? && d.i == i }

  /** The dispatcher has picked worker i and not marked it yet. */
  predicate Offering(d: DispatcherPc, i: nat) {
    !d.Scanning? && d.i == i && (d.Found? || d.Receiving? || d.Filled? || d.Failed?)
  }

  /** A job is marked for the worker and not read yet. */
  predicate Pending<J>(w: Worker<J>) { w.status.Busy? && (Before(w.pc) || w.pc.Unlock? || w.pc.Reading?) }

  /** Between the IDLE store and the end of the wait. */
  predicate Before(pc: WorkerPc) { pc.Lock? || pc.Check? || pc.Waiting? || pc.Woken? }

  ghost predicate Good<J(!new)>(d: DispatcherPc, i: nat, w: Worker<J>) {
    && !w.pc.Starting?
    // the mutex
    && (w.owner.ByWorker? <==> (w.pc.Check? || w.pc.Unlock?))
    && (w.owner.ByDispatcher? <==> Holding(d, i))
    // the status word
    && (w.status.Idle? ==> Before(w.pc))
    && (Offering(d, i) ==> w.status.Idle?)
    // the buffer is clean when a job is received into it
    && (w.pc.SetIdle? ==> w.buf.None?)
    && (d == Filled(i) ==> w.buf.Some?)
    && (w.status.Idle? && d != Filled(i) && d != Failed(i) ==> w.buf.None?)
    && (d == Marked(i) ==> Pending(w) && Before(w.pc))
    && (d == Signalled(i) ==> Before(w.pc))
    // no job is lost, doubled, reordered or changed
    && (if Pending(w) then w.buf.Some? && w.marked == w.handled + [w.buf.value] else w.marked == w.handled)
    // a sleeper with a job is about to be signalled
    && (w.pc.Waiting? && w.status.Busy? ==> d == Marked(i))
  }

  ghost predicate Inv<J(!new)>(s: State<J>) {
    forall i | 0 <= i < |s.workers| :: Good(s.d, i, s.workers[i])
  }

  lemma InitGood<J(!new)>(s: State<J>)
    requires Init(s)
    ensures Inv(s) {}

  lemma WorkerStepKeeps<J(!new)>(d: DispatcherPc, i: nat, w: Worker<J>, v: Worker<J>, a: WorkerAct<J>)
    requires Good(d, i, w) && WorkerStep(w, v, a)
    ensures Good(d, i, v) {}

  lemma HandingKeeps<J(!new)>(d: DispatcherPc, e: DispatcherPc, i: nat, w: Worker<J>, v: Worker<J>, a: DispatcherAct<J>)
    requires Good(d, i, w) && Target(d, a) == Some(i) && Handing(d, e, w, v, a)
    ensures Good(e, i, v) {}

  /** The other workers do not notice. */
  lemma HandingElsewhere<J(!new)>(d: DispatcherPc, e: DispatcherPc, i: nat, w: Worker<J>, v: Worker<J>,
                           a: DispatcherAct<J>,
                                  j: nat, u: Worker<J>)
    requires Good(d, j, u) && j != i && Target(d, a) == Some(i) && Handing(d, e, w, v, a)
    ensures Good(e, j, u) {}

  lemma NextKeeps<J(!new)>(s: State<J>, t: State<J>, e: Event<J>)
    requires Inv(s) && Next(s, t, e)
    ensures Inv(t)
  {
    match e
    case ByWorkerAt(i, a) => WorkerStepKeeps(s.d, i, s.workers[i], t.workers[i], a);
    case ByDispatch(a) =>
      var i := Target(s.d, a).value;
      HandingKeeps(s.d, t.d, i, s.workers[i], t.workers[i], a);
      forall j: nat | j < |t.workers| && j != i ensures Good(t.d, j, t.workers[j]) {
        HandingElsewhere(s.d, t.d, i, s.workers[i], t.workers[i], a, j, s.workers[j]);
      }
  }

  // ------------------------------------------------------------------------------ whole runs

  ghost predicate Steps<J(!new)>(states: seq<State<J>>, events: seq<Event<J>>) {
    |states| == |events| + 1 && forall k | 0 <= k < |events| :: Next(states[k], states[k + 1], events[k])
  }

  ghost predicate Run<J(!new)>(states: seq<State<J>>, events: seq<Event<J>>) {
    Steps(states, events) && Init(states[0])
  }

  lemma {:induction false} RunKeeps<J(!new)>(states: seq<State<J>>, events: seq<Event<J>>, k: nat)
    requires Run(states, events) && k < |states|
    ensures Inv(states[k])
  {
    if k == 0 {
      InitGood(states[0]);
    } else {
      RunKeeps(states, events, k - 1);
      NextKeeps(states[k - 1], states[k], events[k - 1]);
    }
  }

  /** The jobs a worker has read are the jobs marked for it, but for at most the last one, which is in its buffer. */
  predicate Once<J(==)>(w: Worker<J>) {
    w.marked == w.handled || (w.buf.Some? && w.marked == w.handled + [w.buf.value] && w.status.Busy?)
  }

  ghost predicate AllOnce<J(!new)>(s: State<J>) { forall i | 0 <= i < |s.workers| :: Once(s.workers[i]) }

  /** At every moment of every run, every worker has read the jobs marked for it, in order, once and unchanged. */
  lemma HandledOnce<J(!new)>(states: seq<State<J>>, events: seq<Event<J>>, k: nat, i: nat)
    requires Run(states, events) && k < |states| && i < |states[k].workers|
    ensures Once(states[k].workers[i])
  {
    RunKeeps(states, events, k);
    assert Good(states[k].d, i, states[k].workers[i]);
  }

  /** The dispatcher touches a worker's buffer only while the worker waits without a job. */
  lemma BufferOwned<J(!new)>(states: seq<State<J>>, events: seq<Event<J>>, k: nat, i: nat)
    requires Run(states, events) && k < |events| && events[k].ByDispatch? && i < |states[k].workers|
    requires states[k + 1].workers[i].buf != states[k].workers[i].buf
    ensures var w := states[k].workers[i];
            w.status.Idle? && Before(w.pc) && w.owner.ByDispatcher? && w.marked == w.handled
  {
    RunKeeps(states, events, k);
    assert Good(states[k].d, i, states[k].workers[i]);
    assert Next(states[k], states[k + 1], events[k]);
  }

  /** Whenever the dispatcher is about to receive, the buffer is empty: nothing of an old job is left in it. */
  lemma CleanBuffer<J(!new)>(states: seq<State<J>>, events: seq<Event<J>>, k: nat)
    requires Run(states, events) && k < |states| && states[k].d.Receiving? && states[k].d.i < |states[k].workers|
    ensures states[k].workers[states[k].d.i].buf.None?
  {
    RunKeeps(states, events, k);
    assert Good(states[k].d, states[k].d.i, states[k].workers[states[k].d.i]);
  }

  /** No worker sleeps over a job: while one is marked for a waiting worker, the dispatcher is about to signal. */
  lemma NoLostWakeup<J(!new)>(states: seq<State<J>>, events: seq<Event<J>>, k: nat, i: nat)
    requires Run(states, events) && k < |states| && i < |states[k].workers|
    requires states[k].workers[i].pc.Waiting? && states[k].workers[i].status.Busy?
    ensures states[k].d == Marked(i)
  {
    RunKeeps(states, events, k);
    assert Good(states[k].d, i, states[k].workers[i]);
  }

  // ------------------------------------------------------------------------------- progress

  /** How many steps a marked job is from being read. */
  function Distance<J>(d: DispatcherPc, i: nat, w: Worker<J>): nat {
    (if d == Marked(i) then 2 else if Holding(d, i) then 1 else 0) + Ahead(w.pc)
  }

  /** How many of its own steps a worker with a marked job is from reading it. */
  function Ahead(pc: WorkerPc): nat {
    match pc
    case Waiting => 5
    case Woken => 4
    case Lock => 4
    case Check => 3
    case Unlock => 2
    case _ => 1
  }

  /** A marked job is never stuck: some step of its worker or of the dispatcher brings it nearer to being read. */
  lemma Progress<J(!new)>(s: State<J>, i: nat) returns (e: Event<J>, t: State<J>)
    requires Inv(s) && i < |s.workers| && Pending(s.workers[i])
    ensures Next(s, t, e) && Inv(t)
    ensures t.workers[i].handled == s.workers[i].marked
            || (Pending(t.workers[i]) && Distance(t.d, i, t.workers[i]) < Distance(s.d, i, s.workers[i]))
  {
    var w := s.workers[i];
    assert Good(s.d, i, w);
    if s.d == Marked(i) {
      e := ByDispatch(Signal);
      var v := if w.pc.Waiting? then w.(pc := Woken) else w;
      t := State(Signalled(i), s.workers[i := v]);
    } else if s.d == Signalled(i) {
      e := ByDispatch(Release);
      t := State(Scanning, s.workers[i := w.(owner := Free)]);
    } else {
      var a, v := Read, w;
      match w.pc {
        case Lock => a, v := DoLock, w.(pc := Check, owner := ByWorker);
        case Woken => a, v := Relock, w.(pc := Check, owner := ByWorker);
        case Check => a, v := SeeBusy, w.(pc := Unlock);
        case Unlock => a, v := DoUnlock, w.(pc := Reading, owner := Free);
        case Reading => v := w.(pc := Working, handled := w.handled + [w.buf.value]);
        case _ => assert false;
      }
      e := ByWorkerAt(i, a);
      t := s.(workers := s.workers[i := v]);
    }
    NextKeeps(s, t, e);
  }

  /** No step of any thread takes a marked job away: it is read, or stays marked and no farther from being read. */
  lemma NoHindrance<J(!new)>(s: State<J>, t: State<J>, e: Event<J>, i: nat)
    requires Inv(s) && Next(s, t, e) && i < |s.workers| && Pending(s.workers[i])
    ensures t.workers[i].marked == s.workers[i].marked
    ensures t.workers[i].handled == s.workers[i].marked
            || (Pending(t.workers[i]) && t.workers[i].buf == s.workers[i].buf
                && Distance(t.d, i, t.workers[i]) <= Distance(s.d, i, s.workers[i]))
  {
    assert Good(s.d, i, s.workers[i]);
  }

  /** Each step of its own brings a worker with a marked job strictly nearer to reading it, and no other step
      takes it away. */
  lemma OwnStepNearer<J(!new)>(s: State<J>, t: State<J>, e: Event<J>, i: nat)
    requires Inv(s) && Next(s, t, e) && i < |s.workers| && Pending(s.workers[i])
    ensures t.workers[i].marked == s.workers[i].marked
    ensures t.workers[i].handled == s.workers[i].marked
            || (Pending(t.workers[i]) && Ahead(t.workers[i].pc) + OwnStep(e, i) <= Ahead(s.workers[i].pc))
  {
    assert Good(s.d, i, s.workers[i]);
  }

  function OwnStep<J>(e: Event<J>, i: nat): nat { if e.ByWorkerAt? && e.i == i then 1 else 0 }

  /** How many of the steps k .. m are worker i's own. */
  function OwnSteps<J>(events: seq<Event<J>>, k: nat, m: nat, i: nat): nat
    requires k <= m <= |events|
  {
    if k == m then 0 else OwnSteps(events, k, m - 1, i) + OwnStep(events[m - 1], i)
  }

  /** What a worker has read stays read. */
  lemma HandledGrows<J(!new)>(s: State<J>, t: State<J>, e: Event<J>, i: nat)
    requires Next(s, t, e) && i < |s.workers|
    ensures i < |t.workers| && s.workers[i].handled <= t.workers[i].handled {}

  /** Of the jobs marked when the worker was w, the last is read, or still marked and that many steps nearer. */
  predicate Nearer<J(==)>(w: Worker<J>, v: Worker<J>, steps: nat) {
    w.marked <= v.handled || (Pending(v) && v.marked == w.marked && Ahead(v.pc) + steps <= Ahead(w.pc))
  }

  lemma NearerStep<J(!new)>(w: Worker<J>, s: State<J>, t: State<J>, e: Event<J>, i: nat, steps: nat)
    requires Inv(s) && Next(s, t, e) && i < |s.workers| && Nearer(w, s.workers[i], steps)
    ensures i < |t.workers| && Nearer(w, t.workers[i], steps + OwnStep(e, i))
  {
    HandledGrows(s, t, e, i);
    if Pending(s.workers[i]) { OwnStepNearer(s, t, e, i); }
  }

  lemma NoOwnSteps<J(!new)>(w: Worker<J>, events: seq<Event<J>>, k: nat, i: nat)
    requires Pending(w) && k <= |events|
    ensures Nearer(w, w, OwnSteps(events, k, k, i)) {}

  lemma MoreOwnSteps<J(!new)>(states: seq<State<J>>, events: seq<Event<J>>, k: nat, m: nat, i: nat)
    requires Run(states, events) && k < m < |states|
    ensures m <= |events| && Next(states[m - 1], states[m], events[m - 1])
    ensures OwnSteps(events, k, m, i) == OwnSteps(events, k, m - 1, i) + OwnStep(events[m - 1], i)
  {
    hide Next, OwnStep;
  }

  lemma RunLength<J(!new)>(states: seq<State<J>>, events: seq<Event<J>>)
    requires Run(states, events)
    ensures |states| == |events| + 1 {}

  lemma {:induction false} ReadOrNearer<J(!new)>(states: seq<State<J>>, events: seq<Event<J>>, k: nat, m: nat, i: nat)
    requires Run(states, events) && k <= m < |states| && i < |states[k].workers| && Pending(states[k].workers[i])
    ensures m <= |events| && i < |states[m].workers|
    ensures Nearer(states[k].workers[i], states[m].workers[i], OwnSteps(events, k, m, i))
    decreases m - k
  {
    hide *;
    RunLength(states, events);
    if k == m {
      NoOwnSteps(states[k].workers[i], events, k, i);
    } else {
      ReadOrNearer(states, events, k, m - 1, i);
      RunKeeps(states, events, m - 1);
      MoreOwnSteps(states, events, k, m, i);
      NearerStep(states[k].workers[i], states[m - 1], states[m], events[m - 1], i, OwnSteps(events, k, m - 1, i));
    }
  }

  /** Whatever else happens in between, a marked job has been read once its worker has made five more steps. */
  lemma ReadInFive<J(!new)>(states: seq<State<J>>, events: seq<Event<J>>, k: nat, m: nat, i: nat)
    requires Run(states, events) && k <= m < |states| && i < |states[k].workers| && Pending(states[k].workers[i])
    requires m <= |events| && OwnSteps(events, k, m, i) >= 5
    ensures i < |states[m].workers| && states[k].workers[i].marked <= states[m].workers[i].handled
  {
    ReadOrNearer(states, events, k, m, i);
  }

  // ------------------------------------------------------------------------- the way back

  lemma Longer<J(!new)>(states: seq<State<J>>, events: seq<Event<J>>, t: State<J>, e: Event<J>)
      returns (states': seq<State<J>>, events': seq<Event<J>>)
    requires Steps(states, events) && Next(states[|events|], t, e)
    ensures Steps(states', events') && states' == states + [t] && events' == events + [e]
  {
    states', events' := states + [t], events + [e];
  }

  /** A worker in the wait without a job, after the jobs so far. */
  function Resting<J>(jobs: seq<J>): Worker<J> { Worker(Waiting, Idle, None, Free, jobs, jobs) }

  /** The worker's own steps from the end of a job to the wait. */
  function WayBack<J>(i: nat): seq<Event<J>> {
    [ByWorkerAt(i, Finish), ByWorkerAt(i, DoRefresh), ByWorkerAt(i, DoSetIdle), ByWorkerAt(i, DoLock),
     ByWorkerAt(i, SeeIdle)]
  }

  function WayStates<J>(s: State<J>, i: nat): (later: seq<State<J>>)
    requires i < |s.workers|
    ensures |later| == 5
  {
    var w: Worker<J> := s.workers[i];
    var ws: seq<Worker<J>> := [w.(pc := Refresh), w.(pc := SetIdle, buf := None),
                               w.(pc := Lock, buf := None, status := Idle),
                               w.(pc := Check, buf := None, status := Idle, owner := ByWorker),
                               w.(pc := Waiting, buf := None, status := Idle, owner := Free)];
    seq(5, k requires 0 <= k < 5 => State(s.d, s.workers[i := ws[k]]))
  }

  lemma WaySteps<J(!new)>(s: State<J>, i: nat)
    requires Inv(s) && i < |s.workers| && s.workers[i].pc.Working?
    ensures Steps([s] + WayStates(s, i), WayBack(i))
  {
    assert Good(s.d, i, s.workers[i]);
    var states := [s] + WayStates(s, i);
    forall k | 0 <= k < 5 ensures Next(states[k], states[k + 1], WayBack(i)[k]) {
      assert k == 0 || k == 1 || k == 2 || k == 3 || k == 4;
    }
  }

  lemma Joined<J(!new)>(a: seq<State<J>>, b: seq<Event<J>>, c: seq<State<J>>, d: seq<Event<J>>)
    requires Run(a, b) && Steps([a[|b|]] + c, d)
    ensures Run(a + c, b + d)
  {
    hide Next, Init;
    var (s, e, m) := (a + c, b + d, [a[|b|]] + c);
    forall k | 0 <= k < |e| ensures Next(s[k], s[k + 1], e[k]) {
      if k < |b| {
        assert Next(a[k], a[k + 1], b[k]);
      } else {
        assert Next(m[k - |b|], m[k - |b| + 1], d[k - |b|]);
        assert s[k] == m[k - |b|] && s[k + 1] == m[k - |b| + 1];
      }
    }
  }

  /** In every reached state a worker done with a job gets back to the wait by its own next steps: its status is IDLE,
      its buffer empty and its mutex free, and nothing else has changed. */
  lemma BackToWait<J(!new)>(states: seq<State<J>>, events: seq<Event<J>>, i: nat) returns (later: seq<State<J>>)
    requires Run(states, events) && i < |states[|events|].workers| && states[|events|].workers[i].pc.Working?
    ensures Run(states + later, events + WayBack(i)) && |later| == 5
    ensures var (s, t) := (states[|events|], later[4]);
            t == s.(workers := s.workers[i := Resting(s.workers[i].marked)])
            && s.workers[i].handled == s.workers[i].marked
  {
    hide Init, Next;
    RunKeeps(states, events, |events|);
    var s := states[|events|];
    assert Good(s.d, i, s.workers[i]);
    WaySteps(s, i);
    later := WayStates(s, i);
    Joined(states, events, later, WayBack(i));
  }

  /** Done with a job and not yet back, after so many steps of its own. */
  predicate Returning<J>(w: Worker<J>, steps: nat) { (w.pc.Refresh? && steps == 0) || (w.pc.SetIdle? && steps == 1) }

  /** Ready for the next job. */
  predicate Returned<J(==)>(w: Worker<J>) { w.pc.Lock? && w.status.Idle? && w.buf.None? && w.marked == w.handled }

  lemma ReturningStep<J(!new)>(s: State<J>, t: State<J>, e: Event<J>, i: nat, steps: nat)
    requires Inv(s) && Next(s, t, e) && i < |s.workers| && Returning(s.workers[i], steps)
    ensures i < |t.workers| && (Returned(t.workers[i]) || Returning(t.workers[i], steps + OwnStep(e, i)))
  {
    assert Good(s.d, i, s.workers[i]);
  }

  ghost predicate ReturnedBetween<J(!new)>(states: seq<State<J>>, k: nat, m: nat, i: nat) {
    exists l :: k <= l <= m && l < |states| && i < |states[l].workers| && Returned(states[l].workers[i])
  }

  lemma NotBackYet<J(!new)>(w: Worker<J>, events: seq<Event<J>>, k: nat, i: nat)
    requires w.pc.Refresh? && k <= |events|
    ensures Returning(w, OwnSteps(events, k, k, i)) {}

  lemma ReturnedAt<J(!new)>(states: seq<State<J>>, k: nat, m: nat, i: nat)
    requires k < m < |states| && i < |states[m].workers|
    requires ReturnedBetween(states, k, m - 1, i) || Returned(states[m].workers[i])
    ensures ReturnedBetween(states, k, m, i)
  {
    hide Returned;
  }

  lemma {:induction false} ReturnedOrReturning<J(!new)>(states: seq<State<J>>, events: seq<Event<J>>, k: nat, m: nat,
                                                        i: nat)
    requires Run(states, events) && k <= m < |states| && i < |states[k].workers| && states[k].workers[i].pc.Refresh?
    ensures m <= |events| && i < |states[m].workers|
    ensures ReturnedBetween(states, k, m, i) || Returning(states[m].workers[i], OwnSteps(events, k, m, i))
    decreases m - k
  {
    hide *;
    RunLength(states, events);
    if k == m {
      NotBackYet(states[k].workers[i], events, k, i);
    } else {
      ReturnedOrReturning(states, events, k, m - 1, i);
      RunKeeps(states, events, m - 1);
      MoreOwnSteps(states, events, k, m, i);
      HandledGrows(states[m - 1], states[m], events[m - 1], i);
      if Returning(states[m - 1].workers[i], OwnSteps(events, k, m - 1, i)) {
        ReturningStep(states[m - 1], states[m], events[m - 1], i, OwnSteps(events, k, m - 1, i));
      }
      if ReturnedBetween(states, k, m - 1, i) || Returned(states[m].workers[i]) { ReturnedAt(states, k, m, i); }
    }
  }

  /** Whatever else happens in between, a worker at the end of a job has offered itself for the next one, with status
      IDLE and an empty buffer, once it has made two more steps. */
  lemma IdleInTwo<J(!new)>(states: seq<State<J>>, events: seq<Event<J>>, k: nat, m: nat, i: nat)
    requires Run(states, events) && k <= m < |states| && i < |states[k].workers| && states[k].workers[i].pc.Refresh?
    requires m <= |events| && OwnSteps(events, k, m, i) >= 2
    ensures ReturnedBetween(states, k, m, i)
  {
    ReturnedOrReturning(states, events, k, m, i);
  }

  /** When nothing is received the dispatcher leaves the worker as it found it, with status IDLE, an empty buffer and
      the mutex free, and goes on scanning. */
  lemma NothingReceived<J(!new)>(states: seq<State<J>>, events: seq<Event<J>>, i: nat, b: Option<J>)
      returns (later: seq<State<J>>)
    requires Run(states, events) && i < |states[|events|].workers| && states[|events|].d == Receiving(i)
    ensures Run(states + later, events + [ByDispatch(Fail(b)), ByDispatch(Release)]) && |later| == 2
    ensures var (s, w) := (states[|events|], states[|events|].workers[i]);
            && w.status.Idle? && w.buf.None?
            && later[1] == State(Scanning, s.workers[i := w.(owner := Free)])
  {
    RunKeeps(states, events, |events|);
    var ws := states[|events|].workers;
    var w: Worker<J> := ws[i];
    assert Good(states[|events|].d, i, w);
    var w1: Worker<J> := w.(buf := b);
    var w2: Worker<J> := w.(owner := Free, buf := None);
    later := [State(Failed(i), ws[i := w1]), State(Scanning, ws[i := w2])];
    var x, y := Longer(states, events, later[0], ByDispatch(Fail(b)));
    x, y := Longer(x, y, later[1], ByDispatch(Release));
    assert x == states + later && y == events + [ByDispatch(Fail(b)), ByDispatch(Release)];
  }

  /** The dispatcher hands a job to a worker in the wait. */
  lemma HandOver<J(!new)>(states: seq<State<J>>, events: seq<Event<J>>, i: nat, jobs: seq<J>, job: J)
      returns (states': seq<State<J>>, events': seq<Event<J>>)
    requires Run(states, events) && i < |states[|events|].workers|
    requires states[|events|].d.Scanning? && states[|events|].workers[i] == Resting(jobs)
    ensures Run(states', events') && states <= states'
    ensures states'[|events'|] == State(Scanning, states[|events|].workers
                                    [i := Worker(Woken, Busy, Some(job), Free, jobs + [job], jobs)])
  {
    hide Init;
    var ws := states[|events|].workers;
    var w := ws[i];
    states', events' := Longer(states, events, State(Found(i), ws[i := w]), ByDispatch(Find(i)));
    w := w.(owner := ByDispatcher);
    states', events' := Longer(states', events', State(Receiving(i), ws[i := w]), ByDispatch(TakeLock));
    w := w.(buf := Some(job));
    states', events' := Longer(states', events', State(Filled(i), ws[i := w]), ByDispatch(Receive(job)));
    w := w.(status := Busy, marked := jobs + [job]);
    states', events' := Longer(states', events', State(Marked(i), ws[i := w]), ByDispatch(Mark));
    w := w.(pc := Woken);
    states', events' := Longer(states', events', State(Signalled(i), ws[i := w]), ByDispatch(Signal));
    w := w.(owner := Free);
    states', events' := Longer(states', events', State(Scanning, ws[i := w]), ByDispatch(Release));
  }

  /** The woken worker reads it. */
  lemma TakeJob<J(!new)>(states: seq<State<J>>, events: seq<Event<J>>, i: nat, jobs: seq<J>, job: J)
      returns (states': seq<State<J>>, events': seq<Event<J>>)
    requires Run(states, events) && i < |states[|events|].workers| && states[|events|].d.Scanning?
    requires states[|events|].workers[i] == Worker(Woken, Busy, Some(job), Free, jobs + [job], jobs)
    ensures Run(states', events') && states <= states'
    ensures states'[|events'|] == State(Scanning, states[|events|].workers
                                    [i := Worker(Working, Busy, Some(job), Free, jobs + [job], jobs + [job])])
  {
    hide Init;
    var ws := states[|events|].workers;
    var w := ws[i].(pc := Check, owner := ByWorker);
    states', events' := Longer(states, events, State(Scanning, ws[i := w]), ByWorkerAt(i, Relock));
    w := w.(pc := Unlock);
    states', events' := Longer(states', events', State(Scanning, ws[i := w]), ByWorkerAt(i, SeeBusy));
    w := w.(pc := Reading, owner := Free);
    states', events' := Longer(states', events', State(Scanning, ws[i := w]), ByWorkerAt(i, DoUnlock));
    w := w.(pc := Working, handled := jobs + [job]);
    states', events' := Longer(states', events', State(Scanning, ws[i := w]), ByWorkerAt(i, Read));
  }

  /** A worker that starts anywhere before the end of the wait gets into it. */
  lemma Settles<J(!new)>(pcs: seq<WorkerPc>, i: nat) returns (states: seq<State<J>>, events: seq<Event<J>>)
    requires AllBefore(pcs) && i < |pcs|
    ensures Run(states, events) && states[0] == Start(pcs)
    ensures states[|events|] == State(Scanning, states[0].workers[i := Resting([])])
  {
    var s: State<J> := Start(pcs);
    var ws := s.workers;
    var w: Worker<J> := ws[i].(pc := Check, owner := ByWorker);
    assert Before(pcs[i]);
    states, events := [s], [];
    assert Init(s) && ws[i := ws[i]] == ws;
    if pcs[i].Lock? || pcs[i].Woken? {
      states, events := Longer(states, events, State(Scanning, ws[i := w]),
                               ByWorkerAt(i, if pcs[i].Lock? then DoLock else Relock));
    }
    if !pcs[i].Waiting? {
      states, events := Longer(states, events, State(Scanning, ws[i := Resting([])]), ByWorkerAt(i, SeeIdle));
    }
  }

  /** From every start, for every worker and every sequence of jobs, some run makes the worker handle just these. */
  lemma {:induction false} AnyJobs<J(!new)>(pcs: seq<WorkerPc>, i: nat, jobs: seq<J>)
      returns (states: seq<State<J>>, events: seq<Event<J>>)
    requires AllBefore(pcs) && i < |pcs|
    ensures Run(states, events) && states[0] == Start(pcs)
    ensures states[|events|] == State(Scanning, states[0].workers[i := Resting(jobs)])
    ensures states[|events|].workers[i].handled == jobs
    decreases |jobs|
  {
    hide Init;
    var n := |jobs| - 1;
    if n < 0 {
      states, events := Settles(pcs, i);
      assert jobs == [];
    } else {
      var ws := Start<J>(pcs).workers;
      states, events := AnyJobs(pcs, i, jobs[..n]);
      states, events := HandOver(states, events, i, jobs[..n], jobs[n]);
      states, events := TakeJob(states, events, i, jobs[..n], jobs[n]);
      var later := BackToWait(states, events, i);
      var s := states[|events|];
      states, events := states + later, events + WayBack(i);
      assert jobs[..n] + [jobs[n]] == jobs;
      assert states[|events|] == later[4];
    }
  }

  // ------------------------------------------------------------------------ the startup window

  lemma StartGood<J(!new)>(pcs: seq<WorkerPc>, states: seq<State<J>>, events: seq<Event<J>>)
    requires AllBefore(pcs) && Steps(states, events) && states[0] == Start(pcs)
    ensures AllOnce(states[|events|])
  {
    forall i | 0 <= i < |states[|events|].workers| ensures Once(states[|events|].workers[i]) {
      HandledOnce(states, events, |events|, i);
    }
  }

  /** A worker that starts elsewhere, seen with the dispatcher: up to the job in its buffer. */
  lemma JobReceived<J(!new)>(pcs: seq<WorkerPc>, i: nat, job: J) returns (states: seq<State<J>>, events: seq<Event<J>>)
    requires i < |pcs| && !Before(pcs[i])
    ensures Steps(states, events) && states[0] == Start(pcs)
    ensures var pc := if pcs[i].Unlock? then Reading else pcs[i];
            states[|events|] == State(Filled(i), states[0].workers
              [i := Worker(pc, Idle, Some(job), ByDispatcher, [], [])])
  {
    var s: State<J> := Start(pcs);
    var w := s.workers[i];
    states, events := [s], [];
    if pcs[i].Unlock? {
      w := w.(pc := Reading, owner := Free);
      states, events := Longer(states, events, State(Scanning, s.workers[i := w]), ByWorkerAt(i, DoUnlock));
    }
    states, events := Longer(states, events, State(Found(i), s.workers[i := w]), ByDispatch(Find(i)));
    w := w.(owner := ByDispatcher);
    states, events := Longer(states, events, State(Receiving(i), s.workers[i := w]), ByDispatch(TakeLock));
    w := w.(buf := Some(job));
    states, events := Longer(states, events, State(Filled(i), s.workers[i := w]), ByDispatch(Receive(job)));
  }

  /** A worker that starts outside the wait can read a job before it is marked, or lose a marked one. */
  lemma LostAtStart<J(!new)>(pcs: seq<WorkerPc>, i: nat, job: J) returns (states: seq<State<J>>, events: seq<Event<J>>)
    requires i < |pcs| && !Before(pcs[i])
    ensures Steps(states, events) && states[0] == Start(pcs) && |states[|events|].workers| == |pcs|
    ensures !Once(states[|events|].workers[i])
  {
    states, events := JobReceived(pcs, i, job);
    var ws, w := states[0].workers, states[|events|].workers[i];
    if w.pc.Reading? {
      w := w.(pc := Working, handled := [job]);
      states, events := Longer(states, events, State(Filled(i), ws[i := w]), ByWorkerAt(i, Read));
    } else {
      w := w.(status := Busy, marked := [job]);
      states, events := Longer(states, events, State(Marked(i), ws[i := w]), ByDispatch(Mark));
      if w.pc.Starting? || w.pc.Working? {
        var a := if w.pc.Starting? then Enter else Finish;
        w := w.(pc := Refresh);
        states, events := Longer(states, events, State(Marked(i), ws[i := w]), ByWorkerAt(i, a));
      }
      if w.pc.Refresh? {
        w := w.(pc := SetIdle, buf := None);
        states, events := Longer(states, events, State(Marked(i), ws[i := w]), ByWorkerAt(i, DoRefresh));
      }
      w := w.(pc := Lock, status := Idle);
      states, events := Longer(states, events, State(Marked(i), ws[i := w]), ByWorkerAt(i, DoSetIdle));
    }
  }

  /**
   * Workers that start with status IDLE handle every job once in all runs if and only if each starts between the
   * IDLE store of its loop and the end of the wait.
   */
  lemma SafeStart<J(!new)>(pcs: seq<WorkerPc>, job: J)
    ensures (forall states: seq<State<J>>, events ::
               Steps(states, events) && states[0] == Start(pcs) ==> AllOnce(states[|events|])) <==> AllBefore(pcs)
  {
    if AllBefore(pcs) {
      forall states: seq<State<J>>, events | Steps(states, events) && states[0] == Start(pcs)
        ensures AllOnce(states[|events|])
      {
        StartGood(pcs, states, events);
      }
    } else {
      var i: nat :| i < |pcs| && !Before(pcs[i]);
      var states, events := LostAtStart(pcs, i, job);
      assert Steps(states, events) && !AllOnce(states[|events|]);
    }
  }
}
