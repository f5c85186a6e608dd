/** What the callers of the port routines see over whole runs: the messages handed in come out again,
    in order, and nobody who waits is overtaken. */
module PortsTraces {
  import opened PortsModel
  import opened PortsSteps
  import opened PortsSafety
  import opened PortsRun

  // ---- answers ---------------------------------------------------------------

  predicate Sending(pr: Proc) {
    pr.SendWait? || pr.SendGranted?
  }

  /** The message a call has just passed to port p: ptsend answered OK, at once or after waiting. */
  function SentNow(w: World, a: Act, r: Reply, p: int): seq<int> {
    match a
    case Send(_, q, m) => if q == p && r == Ok then [m] else []
    case Run(x) => if x in w.procs && w.procs[x].SendGranted? && w.procs[x].port == p && r == Ok then [w.procs[x].msg] else []
    case _ => []
  }

  /** The message a call has just been given by port p, read off its answer. */
  function ReceivedNow(w: World, a: Act, r: Reply, p: int): seq<int> {
    match a
    case Recv(_, q) => if q == p && r.Message? then [r.msg] else []
    case Run(x) => if x in w.procs && w.procs[x].RecvGranted? && w.procs[x].port == p && r.Message? then [r.msg] else []
    case _ => []
  }

  ghost predicate InUse(w: World, p: int) {
    0 <= p < |w.ports| && w.ports[p].state == PT_ALLOC
  }

  /** The same incarnation with the same messages; its semaphores may differ. */
  predicate SameLife(t: Port, u: Port) {
    u.state == t.state && u.seqno == t.seqno && u.cap == t.cap && u.msgs == t.msgs && u.sent == t.sent && u.got == t.got
  }

  lemma SignalsQuiet(w: World, p: int, q: int)
    requires 0 <= p < |w.ports| && 0 <= q < |w.ports|
    ensures |UpSend(w, p).ports| == |w.ports| && SameLife(w.ports[q], UpSend(w, p).ports[q])
    ensures |UpRecv(w, p).ports| == |w.ports| && SameLife(w.ports[q], UpRecv(w, p).ports[q])
  {
  }

  /** From w to t port q took in x and gave out y, or, being not in use, was left alone. */
  predicate Moved(w: World, t: World, q: int, x: seq<int>, y: seq<int>) {
    && 0 <= q < |w.ports| == |t.ports|
    && t.ports[q].seqno == w.ports[q].seqno && t.ports[q].cap == w.ports[q].cap && t.ports[q].state == w.ports[q].state
    && t.ports[q].sent == w.ports[q].sent + x && t.ports[q].got == w.ports[q].got + y
  }

  lemma DeliverMoves(w: World, p: int, msg: int, room: bool, q: int)
    requires 0 <= p < |w.ports| && 0 <= q < |w.ports|
    ensures var (t, r) := Deliver(w, p, msg, room);
            (r == Ok || r == Panic) && Moved(w, t, q, if q == p && r == Ok then [msg] else [], [])
  {
    hide UpRecv;
    SignalsQuiet(SetPort(w, p, w.ports[p].(msgs := w.ports[p].msgs + [msg], sent := w.ports[p].sent + [msg])), p, q);
  }

  lemma CollectMoves(w: World, p: int, q: int)
    requires 0 <= p < |w.ports| && 0 <= q < |w.ports|
    ensures var (t, r) := Collect(w, p);
            (r == SysErr || r.Message?) && Moved(w, t, q, [], if q == p && r.Message? then [r.msg] else [])
  {
    hide UpSend;
    if w.ports[p].msgs != [] {
      SignalsQuiet(Dequeued(w, p), p, q);
    }
  }

  lemma SendMoves(w: World, x: int, p: int, msg: int, room: bool, q: int)
    requires 0 <= q < |w.ports|
    ensures var (t, r) := PtSend(w, x, p, msg, room); Moved(w, t, q, if q == p && r == Ok then [msg] else [], [])
  {
    hide Deliver;
    if Usable(w, p) {
      var t := w.ports[p];
      DeliverMoves(SetPort(w, p, t.(ssem := Sem(t.ssem.count - 1, t.ssem.waiting))), p, msg, room, q);
    }
  }

  lemma RecvMoves(w: World, x: int, p: int, q: int)
    requires 0 <= q < |w.ports|
    ensures var (t, r) := PtRecv(w, x, p); Moved(w, t, q, [], if q == p && r.Message? then [r.msg] else [])
  {
    hide Collect;
    if Usable(w, p) {
      var t := w.ports[p];
      CollectMoves(SetPort(w, p, t.(rsem := Sem(t.rsem.count - 1, t.rsem.waiting))), p, q);
    }
  }

  lemma ContinueMoves(w: World, x: int, room: bool, q: int)
    requires x in w.procs && (w.procs[x].SendGranted? || w.procs[x].RecvGranted?) && 0 <= q < |w.ports|
    ensures var (t, r) := Continue(w, x, room); Moved(w, t, q, SentNow(w, Run(x), r, q), ReceivedNow(w, Run(x), r, q))
  {
    hide Deliver, Collect;
    var u, p := w.(procs := Without(w.procs, x)), w.procs[x].port;
    if Current(w, p, w.procs[x].seqno) {
      CollectMoves(u, p, q);
      if w.procs[x].SendGranted? {
        DeliverMoves(u, p, w.procs[x].msg, room, q);
      }
    }
  }

  /** Only processes of the port, or one that clears it, change what it holds. */
  lemma OtherMoves(w: World, a: Act, nodes: nat, q: int)
    requires Inv(w) && Enabled(w, a) && InUse(w, q) && InUse(Do(w, a, nodes).0, q)
    requires !a.Send? && !a.Recv? && !a.Run?
    ensures Moved(w, Do(w, a, nodes).0, q, [], [])
  {
    NotClearing(w, q, if a.ClearMore? || a.ClearLast? then a.x else 0);
    hide PortOk;
  }

  lemma NotClearing(w: World, p: int, x: int)
    requires Inv(w) && InUse(w, p)
    ensures !Clears(w, x, p)
  {
    assert PortOk(w, p);
  }

  /** A step of a port that stays in use adds to what was sent what a call passed in, and to what was
      received what a call was answered. */
  lemma DoTraffic(w: World, a: Act, nodes: nat, p: int)
    requires Inv(w) && Enabled(w, a) && InUse(w, p) && InUse(Do(w, a, nodes).0, p)
    ensures var (t, r) := Do(w, a, nodes);
            && t.ports[p].seqno == w.ports[p].seqno && t.ports[p].cap == w.ports[p].cap
            && t.ports[p].sent == w.ports[p].sent + SentNow(w, a, r, p)
            && t.ports[p].got == w.ports[p].got + ReceivedNow(w, a, r, p)
  {
    hide Inv, PtSend, PtRecv, Continue, ClearStart, ClearNext, ClearEnd, PortsSteps.Kill, PtCreate, Room;
    match a {
      case Send(x, q, m) => SendMoves(w, x, q, m, Room(w, nodes), p);
      case Recv(x, q) => RecvMoves(w, x, q, p);
      case Run(x) => ContinueMoves(w, x, Room(w, nodes), p);
      case _ => OtherMoves(w, a, nodes, p);
    }
  }

  // ---- whole runs ------------------------------------------------------------

  /** The port is in use all along the run. */
  ghost predicate Alive(w: World, acts: seq<Act>, nodes: nat, p: int)
    requires Runs(w, acts, nodes)
    decreases |acts|
  {
    InUse(w, p) && (acts == [] || Alive(Do(w, acts[0], nodes).0, acts[1..], nodes, p))
  }

  /** The messages the calls of a run passed in, in order. */
  ghost function Sent(w: World, acts: seq<Act>, nodes: nat, p: int): seq<int>
    requires Runs(w, acts, nodes)
    decreases |acts|
  {
    if acts == [] then []
    else SentNow(w, acts[0], Do(w, acts[0], nodes).1, p) + Sent(Do(w, acts[0], nodes).0, acts[1..], nodes, p)
  }

  /** The messages the calls of a run were answered with, in order. */
  ghost function Received(w: World, acts: seq<Act>, nodes: nat, p: int): seq<int>
    requires Runs(w, acts, nodes)
    decreases |acts|
  {
    if acts == [] then []
    else ReceivedNow(w, acts[0], Do(w, acts[0], nodes).1, p) + Received(Do(w, acts[0], nodes).0, acts[1..], nodes, p)
  }

  lemma {:induction false} RunTraffic(w: World, acts: seq<Act>, nodes: nat, p: int)
    requires Inv(w) && Runs(w, acts, nodes) && Alive(w, acts, nodes, p)
    ensures var t := After(w, acts, nodes);
            && InUse(t, p) && t.ports[p].seqno == w.ports[p].seqno && t.ports[p].cap == w.ports[p].cap
            && t.ports[p].sent == w.ports[p].sent + Sent(w, acts, nodes, p)
            && t.ports[p].got == w.ports[p].got + Received(w, acts, nodes, p)
    decreases |acts|
  {
    hide Do, Inv;
    if acts != [] {
      var (t, r) := Do(w, acts[0], nodes);
      DoTraffic(w, acts[0], nodes, p);
      DoInv(w, acts[0], nodes);
      RunTraffic(t, acts[1..], nodes, p);
    }
  }

  /** A step with which a port starts a new life. */
  predicate Birth(w: World, a: Act, p: int) {
    match a
    case Create(q, _) => q == p
    case ClearLast(x) => x in w.procs && w.procs[x].Clearing? && w.procs[x].port == p && w.procs[x].next == PT_ALLOC
    case _ => false
  }

  /** A created port is a new incarnation, and a new life starts with nothing sent or received. */
  lemma BornEmpty(w: World, a: Act, nodes: nat, p: int)
    requires Inv(w) && Enabled(w, a) && Birth(w, a, p) && 0 <= p < |w.ports|
    ensures var t := Do(w, a, nodes).0; InUse(t, p) && t.ports[p].sent == [] && t.ports[p].got == []
    ensures a.Create? ==> Do(w, a, nodes).0.ports[p].seqno > w.ports[p].seqno
  {
    hide Inv;
    if a.ClearLast? {
      assert Do(w, a, nodes).0 == ClearEnd(w, a.x);
      assert w.procs[a.x].port == p;
    } else {
      assert Do(w, a, nodes).0 == PtCreate(w, p, a.count);
    }
  }

  /** From its creation or its latest reset, and while it stays in use, the messages a port has
      answered its receivers with are, in order, the first of those its senders passed in, and the
      rest, at most its capacity, are what it holds. */
  lemma InOrder(w: World, a: Act, acts: seq<Act>, nodes: nat, p: int)
    requires Inv(w) && Enabled(w, a) && Do(w, a, nodes).1 != Panic && Birth(w, a, p) && 0 <= p < |w.ports|
    requires Runs(Do(w, a, nodes).0, acts, nodes) && Alive(Do(w, a, nodes).0, acts, nodes, p)
    ensures var b := Do(w, a, nodes).0;
            var x, y, t := Sent(b, acts, nodes, p), Received(b, acts, nodes, p), After(b, acts, nodes);
            && InUse(t, p) && y <= x && t.ports[p].msgs == x[|y|..] && |x| - |y| <= t.ports[p].cap
  {
    hide Do, Inv;
    var b := Do(w, a, nodes).0;
    DoInv(w, a, nodes);
    BornEmpty(w, a, nodes, p);
    RunTraffic(b, acts, nodes, p);
    RunInv(b, acts, nodes);
    var t := After(b, acts, nodes);
    FirstInFirstOut(t, p);
    assert t.ports[p].sent == Sent(b, acts, nodes, p) && t.ports[p].got == Received(b, acts, nodes, p);
  }

  // ---- which answer ----------------------------------------------------------

  /** ptsend refuses a port not in use, waits when no space is left, and otherwise sends. */
  lemma SendAnswers(w: World, x: int, p: int, msg: int, nodes: nat)
    requires x !in w.procs
    ensures var r := Do(w, Send(x, p, msg), nodes).1;
            && (r == SysErr <==> !InUse(w, p)) && (r == Blocked <==> InUse(w, p) && w.ports[p].ssem.count <= 0)
            && (r == Panic <==> InUse(w, p) && w.ports[p].ssem.count > 0 && Queued(w.ports) >= nodes)
            && !r.Message?
  {
    hide Put, Queued;
  }

  /** ptrecv refuses a port not in use, waits when no message is announced, and otherwise has one. */
  lemma RecvAnswers(w: World, x: int, p: int, nodes: nat)
    requires Inv(w) && x !in w.procs
    ensures var r := Do(w, Recv(x, p), nodes).1;
            && (r == SysErr <==> !InUse(w, p)) && (r == Blocked <==> InUse(w, p) && w.ports[p].rsem.count <= 0)
            && (r.Message? <==> InUse(w, p) && w.ports[p].rsem.count > 0)
  {
    hide UpSend, Dequeued;
    if InUse(w, p) {
      assert PortOk(w, p);
    }
  }

  /** A process that was let go has SYSERR exactly when its port is another incarnation, and otherwise
      a receiver has a message and a sender has sent unless the pool ran out. */
  lemma RunAnswers(w: World, x: int, nodes: nat)
    requires Inv(w) && Enabled(w, Run(x))
    ensures var r, p := Do(w, Run(x), nodes).1, w.procs[x].port;
            && (r == SysErr <==> !(InUse(w, p) && w.ports[p].seqno == w.procs[x].seqno))
            && (r != SysErr && w.procs[x].RecvGranted? ==> r.Message?)
            && (r != SysErr && w.procs[x].SendGranted? ==> r == if Queued(w.ports) < nodes then Ok else Panic)
  {
    hide UpSend, UpRecv, Dequeued, Queued;
    var p := w.procs[x].port;
    if InUse(w, p) && w.ports[p].seqno == w.procs[x].seqno {
      QueueBounded(w, p, x);
      assert w.procs[x].RecvGranted? ==> x in GrantedR(w, p);
    }
  }
}
