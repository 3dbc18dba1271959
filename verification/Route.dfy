/** The command stack that travels with a message and leads responses back to where their requests came from. */
module Route {
  import opened Options

  const SW_MAX_CMD: nat := 20
  const SW_MSG_RES := 1001
  const SW_MSG_REQ := 1002
  const SW_STORE := 1003
  const SW_DEL := 1005
  const ND_LSN := 101
  const SW_TASKREQ := 605
  const SW_TASKRES := 606
  const SW_CALLREQ := 607
  const SW_CALLRES := 608
  const SW_POSTREQ := 609
  const SW_POSTRES := 610
  const SW_CALLLSNREQ := 612
  const SW_CALLLSNRES := 613
  const SW_LINKLSNREQ := 614
  const SW_LINKLSNRES := 615
  const SW_POSTLSNREQ := 616
  const SW_POSTLSNRES := 617
  const SW_LINKNULL := 618

  /** A node: product, server and service. */
  datatype Place = Place(prdt: string, svr: string, svc: string)

  /** sw_cmd_t, as far as routing looks at it. */
  datatype Cmd = Cmd(msgType: int, taskFlg: int, kind: int, defName: string, dst: Place, ori: Place,
                     dstType: int, oriType: int, startLine: int)

  const ZERO: Cmd := Cmd(0, 0, 0, "", Place("", "", ""), Place("", "", ""), 0, 0, 0)

  // ------------------------------------------------------------------------------ the stack

  /** sw_task_hd_t */
  class Head {
    const cmd: array<Cmd>
    var taskCurr: nat

    ghost predicate Valid()
      reads this, cmd
    {
      && taskCurr <= cmd.Length == SW_MAX_CMD
      && forall i | taskCurr <= i < SW_MAX_CMD :: cmd[i] == ZERO
    }

    /** The frames, oldest first. */
    ghost function Frames(): (s: seq<Cmd>)
      reads this, cmd
      requires Valid()
      ensures |s| <= SW_MAX_CMD
    {
      cmd[..taskCurr]
    }

    /** route_alloc, where there is no stack yet */
    constructor ()
      ensures Valid() && fresh(cmd) && Frames() == []
    {
      cmd := new Cmd[SW_MAX_CMD](_ => ZERO);
      taskCurr := 0;
    }

    /** route_add_cmd */
    method Add(c: Cmd) returns (ok: bool)
      requires Valid()
      modifies this, cmd
      ensures Valid() && (ok <==> |old(Frames())| < SW_MAX_CMD)
      ensures Frames() == if ok then old(Frames()) + [c] else old(Frames())
    {
      if taskCurr >= cmd.Length { return false; }
      cmd[taskCurr] := c;
      taskCurr := taskCurr + 1;
      ok := true;
    }

    /** route_del_cur_cmd */
    method DelCur() returns (ok: bool)
      requires Valid()
      modifies this, cmd
      ensures Valid() && (ok <==> |old(Frames())| > 0)
      ensures Frames() == if ok then old(Frames()[..taskCurr - 1]) else old(Frames())
    {
      if taskCurr <= 0 { return false; }
      taskCurr := taskCurr - 1;
      cmd[taskCurr] := ZERO;
      ok := true;
    }

    /** route_recov_cmd; c is the command before and r after. */
    method Recov(c: Cmd) returns (ok: bool, r: Cmd)
      requires Valid()
      modifies this, cmd
      ensures Valid()
      ensures var s := old(Frames());
              if |s| == 0 then !ok && r == c && Frames() == s
              else if c.msgType != SW_MSG_RES then ok && r == c && Frames() == s
              else ok && r == Recovered(s, c) && Frames() == s[..|s| - 1]
    {
      var curr := taskCurr;
      r := c;
      if curr < 1 { return false, r; }
      if c.msgType != SW_MSG_RES { return true, r; }
      var top := cmd[curr - 1];
      r := r.(dst := top.ori, ori := top.dst, kind := top.kind);
      if curr >= 2 {
        r := r.(defName := cmd[curr - 2].defName);
      }
      if curr == 1 && top.taskFlg == SW_DEL {
        r := r.(taskFlg := SW_DEL);
      }
      r := r.(dstType := top.oriType, startLine := top.startLine);
      ok := DelCur();
    }

    /**
     * route_snd_dst up to the sending. The answers of the process table are parameters: first is the
     * process looked up for the destination, later what happens behind the push.
     */
    method SndDst(c: Cmd, first: Option<string>, later: Later) returns (status: Status, r: Cmd)
      requires Valid()
      modifies this, cmd
      ensures Valid()
      ensures var o := Step(old(Frames()), Message(c, first, later));
              Frames() == o.frames && status == o.status && r == o.cmd
    {
      r := c;
      if c.msgType != SW_MSG_REQ && c.msgType != SW_MSG_RES { return Failed, r; }
      if r.msgType == SW_MSG_RES {
        var kind := r.kind;
        var ok;
        ok, r := Recov(r);
        if !ok { return Failed, r; }
        if kind == SW_LINKNULL { r := r.(kind := kind); }
        if r.taskFlg == SW_DEL { return Destroyed, r; }
        r := r.(kind := TypeChange(r.kind));
      }
      if first.None? { return Failed, r; }
      if r.msgType == SW_MSG_REQ || r.dstType != ND_LSN {
        r := r.(dst := r.dst.(svc := first.value));
      }
      if r.taskFlg == SW_STORE || r.kind == SW_POSTREQ {
        var ok := Add(r);
        if !ok { return Failed, r; }
      }
      if later.Fails? { return Failed, r; }
      if later.Redirect? { r := r.(dst := r.dst.(svc := later.svc)); }
      status := Sent;
    }
  }

  // ------------------------------------------------------------------------ what a send does

  /** What follows the push: the message goes out, to another process of the same server, or not at all. */
  datatype Later = Goes | Redirect(svc: string) | Fails

  datatype Status = Sent | Destroyed | Failed

  datatype Message = Message(cmd: Cmd, first: Option<string>, later: Later)

  datatype Outcome = Outcome(frames: seq<Cmd>, status: Status, cmd: Cmd)

  /** route_cmd_tpye_change: the type of the response to a request type. */
  function TypeChange(kind: int): int {
    if kind == SW_TASKREQ then SW_TASKRES
    else if kind == SW_CALLLSNREQ then SW_CALLLSNRES
    else if kind == SW_CALLREQ then SW_CALLRES
    else if kind == SW_POSTLSNREQ then SW_POSTLSNRES
    else if kind == SW_POSTREQ then SW_POSTRES
    else if kind == SW_LINKLSNREQ then SW_LINKLSNRES
    else kind
  }

  /** A response turned back towards the sender of the latest frame. */
  function Recovered(s: seq<Cmd>, c: Cmd): Cmd
    requires |s| > 0
  {
    var top := s[|s| - 1];
    c.(dst := top.ori, ori := top.dst, kind := top.kind, dstType := top.oriType, startLine := top.startLine,
       defName := if |s| >= 2 then s[|s| - 2].defName else c.defName,
       taskFlg := if |s| == 1 && top.taskFlg == SW_DEL then SW_DEL else c.taskFlg)
  }

  predicate Stored(c: Cmd) { c.taskFlg == SW_STORE || c.kind == SW_POSTREQ }

  /** The second half of a send: look up, push, go. */
  function Onward(s: seq<Cmd>, r: Cmd, m: Message): Outcome {
    if m.first.None? then Outcome(s, Failed, r)
    else
      var r := if r.msgType == SW_MSG_REQ || r.dstType != ND_LSN then r.(dst := r.dst.(svc := m.first.value)) else r;
      if Stored(r) && |s| >= SW_MAX_CMD then Outcome(s, Failed, r)
      else
        var t := if Stored(r) then s + [r] else s;
        match m.later
        case Fails => Outcome(t, Failed, r)
        case Redirect(svc) => Outcome(t, Sent, r.(dst := r.dst.(svc := svc)))
        case Goes => Outcome(t, Sent, r)
  }

  function Step(s: seq<Cmd>, m: Message): Outcome {
    var c := m.cmd;
    if c.msgType == SW_MSG_REQ then Onward(s, c, m)
    else if c.msgType != SW_MSG_RES || |s| == 0 then Outcome(s, Failed, c)
    else
      var r := Recovered(s, c);
      var r := if c.kind == SW_LINKNULL then r.(kind := SW_LINKNULL) else r;
      if r.taskFlg == SW_DEL then Outcome(s[..|s| - 1], Destroyed, r)
      else Onward(s[..|s| - 1], r.(kind := TypeChange(r.kind)), m)
  }

  /** A response is never pushed for its type: no type changes into that of a posted request. */
  lemma TypeChangeFits(kind: int)
    ensures TypeChange(kind) != SW_POSTREQ
    ensures TypeChange(TypeChange(kind)) == TypeChange(kind) {}

  /** Each of the six request types is answered by the type with the next number, and every other type by itself. */
  function AnswerType(kind: int): int {
    if kind in {605, 607, 609, 612, 614, 616} then kind + 1 else kind
  }

  lemma TypeAnswers(kind: int)
    ensures TypeChange(kind) == AnswerType(kind) {}

  /** The service a message ends up with: that of the process found, unless it is redirected. */
  function ServiceFor(found: string, later: Later): string {
    if later.Redirect? then later.svc else found
  }

  /**
   * A request goes out exactly when a process is found, nothing fails behind the push, and there is room for it if it
   * is stored; it goes to that process, or where it is redirected to, and is otherwise as it was. What is stored names
   * the process found.
   */
  lemma RequestGoes(s: seq<Cmd>, m: Message)
    requires m.cmd.msgType == SW_MSG_REQ
    ensures var (o, c, stored) := (Step(s, m), m.cmd, m.cmd.taskFlg == SW_STORE || m.cmd.kind == SW_POSTREQ);
            && (o.status == Sent <==> m.first.Some? && !m.later.Fails? && (stored ==> |s| < SW_MAX_CMD))
            && (o.status == Sent ==>
                  o.cmd == c.(dst := Place(c.dst.prdt, c.dst.svr, ServiceFor(m.first.value, m.later))))
            && o.frames == if stored && m.first.Some? && |s| < SW_MAX_CMD
                           then s + [c.(dst := Place(c.dst.prdt, c.dst.svr, m.first.value))] else s
  {
  }

  /** A message that is neither a request nor a response does not go out, and changes nothing. */
  lemma OthersFail(s: seq<Cmd>, m: Message)
    requires m.cmd.msgType != SW_MSG_REQ && m.cmd.msgType != SW_MSG_RES
    ensures Step(s, m) == Outcome(s, Failed, m.cmd) {}

  /** The stack never holds more than its twenty frames. */
  lemma StepBounded(s: seq<Cmd>, m: Message)
    requires |s| <= SW_MAX_CMD
    ensures |Step(s, m).frames| <= SW_MAX_CMD {}

  // ----------------------------------------------------------------------------- conversations

  /**
   * What happens from some moment on: a request that is pushed, with all that happens before its answer, or
   * a message that is no response and is not pushed, and then the rest.
   */
  datatype Course = Over
                  | Talk(req: Message, inner: Course, resp: Message, rest: Course)
                  | Pass(msg: Message, rest: Course)

  function Messages(c: Course): seq<Message> {
    match c
    case Over => []
    case Talk(req, inner, resp, rest) => [req] + Messages(inner) + [resp] + Messages(rest)
    case Pass(msg, rest) => [msg] + Messages(rest)
  }

  /** The frames after all messages. */
  function Exec(s: seq<Cmd>, ms: seq<Message>): seq<Cmd>
    decreases |ms|
  {
    if |ms| == 0 then s else Exec(Step(s, ms[0]).frames, ms[1..])
  }

  lemma {:induction false} ExecConcat(s: seq<Cmd>, a: seq<Message>, b: seq<Message>)
    ensures Exec(s, a + b) == Exec(Exec(s, a), b)
    decreases |a|
  {
    if |a| == 0 {
      assert a + b == b;
    } else {
      assert (a + b)[1..] == a[1..] + b;
      ExecConcat(Step(s, a[0]).frames, a[1..], b);
    }
  }

  /** The message finds its process and goes out. */
  predicate Carried(m: Message) { m.first.Some? && !m.later.Fails? }

  /** A request that is pushed when there is room, whatever becomes of it behind the push. */
  predicate Pushes(m: Message) { m.cmd.msgType == SW_MSG_REQ && Stored(m.cmd) && m.first.Some? }

  /** The course holds what its shape says, and no response is marked to be stored. */
  predicate Proper(c: Course) {
    match c
    case Over => true
    case Talk(req, inner, resp, rest) =>
      && Pushes(req) && resp.cmd.msgType == SW_MSG_RES && resp.cmd.taskFlg != SW_STORE
      && Proper(inner) && Proper(rest)
    case Pass(msg, rest) => msg.cmd.msgType != SW_MSG_RES && !Pushes(msg) && Proper(rest)
  }

  /** How many frames it needs at once. */
  function Depth(c: Course): nat {
    match c
    case Over => 0
    case Talk(_, inner, _, rest) => Max(1 + Depth(inner), Depth(rest))
    case Pass(_, rest) => Depth(rest)
  }

  function Max(a: nat, b: nat): nat { if a > b then a else b }

  /** The response o, sent from stack s plus one frame, answers the request, which went to service svc. */
  predicate Answers(s: seq<Cmd>, req: Cmd, svc: string, resp: Message, o: Outcome) {
    && o.frames == s
    && o.status == (if resp.cmd.taskFlg == SW_DEL || (|s| == 0 && req.taskFlg == SW_DEL) then Destroyed
                    else if Carried(resp) then Sent else Failed)
    && o.cmd.dst.prdt == req.ori.prdt && o.cmd.dst.svr == req.ori.svr
    && o.cmd.ori == Place(req.dst.prdt, req.dst.svr, svc)
    && o.cmd.dstType == req.oriType && o.cmd.startLine == req.startLine
    && o.cmd.defName == (if |s| > 0 then s[|s| - 1].defName else resp.cmd.defName)
    && (o.status.Sent? ==>
          && resp.first.Some?
          && o.cmd.kind == (if resp.cmd.kind == SW_LINKNULL then SW_LINKNULL else AnswerType(req.kind))
          && o.cmd.dst.svc == ServiceFor(if req.oriType == ND_LSN then req.ori.svc else resp.first.value, resp.later))
  }

  /** Every response of the course answers its own request, whatever happened in between. */
  predicate AllAnswered(s: seq<Cmd>, c: Course)
    decreases c
  {
    match c
    case Over => true
    case Talk(req, inner, resp, rest) =>
      var t := Step(s, req).frames;
      && AllAnswered(t, inner)
      && req.first.Some?
      && Answers(s, req.cmd, req.first.value, resp, Step(Exec(s, [req] + Messages(inner)), resp))
      && AllAnswered(s, rest)
    case Pass(_, rest) => AllAnswered(s, rest)
  }

  lemma RequestPushes(s: seq<Cmd>, m: Message)
    requires m.cmd.msgType != SW_MSG_RES && (Pushes(m) ==> |s| < SW_MAX_CMD)
    ensures Step(s, m).frames == if Pushes(m) then s + [m.cmd.(dst := m.cmd.dst.(svc := m.first.value))] else s {}

  lemma ResponseAnswers(s: seq<Cmd>, req: Cmd, svc: string, m: Message)
    requires m.cmd.msgType == SW_MSG_RES && m.cmd.taskFlg != SW_STORE && |s| < SW_MAX_CMD
    ensures Answers(s, req, svc, m, Step(s + [req.(dst := req.dst.(svc := svc))], m))
  {
    var t := s + [req.(dst := req.dst.(svc := svc))];
    assert t[..|t| - 1] == s;
    TypeChangeFits(req.kind);
    TypeAnswers(req.kind);
  }

  /** Exactly the responses that are themselves marked to be stored, and find a process, leave a frame behind. */
  lemma ResponseRestores(s: seq<Cmd>, frame: Cmd, m: Message)
    requires m.cmd.msgType == SW_MSG_RES && |s| < SW_MAX_CMD
    ensures Step(s + [frame], m).frames == s
            <==> (m.cmd.taskFlg != SW_STORE || m.first.None? || (|s| == 0 && frame.taskFlg == SW_DEL))
  {
    var t := s + [frame];
    assert t[..|t| - 1] == s;
    TypeChangeFits(frame.kind);
  }

  /**
   * A course that ends balanced leaves the stack as it was, and each response went back to the product and
   * server of its own request, with the name of the enclosing frame.
   */
  lemma {:induction false} CourseBalanced(s: seq<Cmd>, c: Course)
    requires Proper(c) && |s| + Depth(c) <= SW_MAX_CMD
    ensures Exec(s, Messages(c)) == s && AllAnswered(s, c)
    decreases c
  {
    match c
    case Over =>
    case Talk(req, inner, resp, rest) =>
      RequestPushes(s, req);
      var t := Step(s, req).frames;
      CourseBalanced(t, inner);
      assert ([req] + Messages(inner))[1..] == Messages(inner);
      assert Exec(s, [req] + Messages(inner)) == t;
      ResponseAnswers(s, req.cmd, req.first.value, resp);
      CourseBalanced(s, rest);
      ExecConcat(s, [req] + Messages(inner), [resp]);
      ExecConcat(s, [req] + Messages(inner) + [resp], Messages(rest));
    case Pass(msg, rest) =>
      RequestPushes(s, msg);
      CourseBalanced(s, rest);
      assert ([msg] + Messages(rest))[1..] == Messages(rest);
  }
}
