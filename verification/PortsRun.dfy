/** Whole runs of the port machine: the invariant, processes of earlier incarnations, and the pool. */
module PortsRun {
  import opened PortsModel
  import opened PortsSteps
  import opened PortsSafety

  // One step of one process; nodes is the size of the pool.
  datatype Act =
    | Send(x: int, port: int, msg: int) | Recv(x: int, port: int) | Run(x: int)
    | Reset(x: int, port: int) | Delete(x: int, port: int) | ClearMore(x: int) | ClearLast(x: int)
    | Kill(x: int) | Create(port: int, count: int) | Refused

  function Queued(ports: seq<Port>): nat {
    if ports == [] then 0 else |ports[0].msgs| + Queued(ports[1..])
  }

  /** A node is free when fewer messages are queued than there are nodes. */
  predicate Room(w: World, nodes: nat) {
    Queued(w.ports) < nodes
  }

  /** A process starts one call at a time and continues only what it is in the middle of. */
  predicate Enabled(w: World, a: Act) {
    match a
    case Send(x, _, _) => x !in w.procs
    case Recv(x, _) => x !in w.procs
    case Run(x) => x in w.procs && (w.procs[x].SendGranted? || w.procs[x].RecvGranted?)
    case Reset(x, _) => x !in w.procs
    case Delete(x, _) => x !in w.procs
    case ClearMore(x) => x in w.procs && w.procs[x].Clearing? && w.procs[x].phase == 1
    case ClearLast(x) => x in w.procs && w.procs[x].Clearing? && w.procs[x].phase == 2
    case Kill(x) => x in w.procs && 0 <= w.procs[x].port < |w.ports|
    case Create(p, count) => 0 <= p < |w.ports| && w.ports[p].state == PT_FREE && count >= 0
    case Refused => true
  }

  function Do(w: World, a: Act, nodes: nat): (World, Reply)
    requires Enabled(w, a)
  {
    match a
    case Send(x, p, m) => PtSend(w, x, p, m, Room(w, nodes))
    case Recv(x, p) => PtRecv(w, x, p)
    case Run(x) => Continue(w, x, Room(w, nodes))
    case Reset(x, p) => ClearStart(w, x, p, PT_ALLOC)
    case Delete(x, p) => ClearStart(w, x, p, PT_FREE)
    case ClearMore(x) => (ClearNext(w, x), Blocked)
    case ClearLast(x) => (ClearEnd(w, x), Ok)
    case Kill(x) => (PortsSteps.Kill(w, x), Ok)
    case Create(p, count) => (PtCreate(w, p, count), Ok)
    case Refused => (w, SysErr)
  }

  lemma DoInv(w: World, a: Act, nodes: nat)
    requires Inv(w) && Enabled(w, a) && Do(w, a, nodes).1 != Panic
    ensures Inv(Do(w, a, nodes).0)
  {
    hide Inv;
    match a {
      case Send(x, p, m) => PtSendInv(w, x, p, m, Room(w, nodes));
      case Recv(x, p) => PtRecvInv(w, x, p);
      case Run(x) => ContinueInv(w, x, Room(w, nodes));
      case Reset(x, p) => ClearStartInv(w, x, p, PT_ALLOC);
      case Delete(x, p) => ClearStartInv(w, x, p, PT_FREE);
      case ClearMore(x) => ClearNextInv(w, x);
      case ClearLast(x) => ClearEndInv(w, x);
      case Kill(x) => KillInv(w, x);
      case Create(p, count) => PtCreateInv(w, p, count);
      case Refused =>
    }
  }

  /** The steps of a run, none of which panics. */
  ghost predicate Runs(w: World, acts: seq<Act>, nodes: nat)
    decreases |acts|
  {
    acts == [] || (Enabled(w, acts[0]) && Do(w, acts[0], nodes).1 != Panic && Runs(Do(w, acts[0], nodes).0, acts[1..], nodes))
  }

  ghost function After(w: World, acts: seq<Act>, nodes: nat): World
    requires Runs(w, acts, nodes)
    decreases |acts|
  {
    if acts == [] then w else After(Do(w, acts[0], nodes).0, acts[1..], nodes)
  }

  /** At every point of every run, for every port in use: the tokens add up, the queue is within its
      bound, and messages have left in the order they came. */
  lemma {:induction false} RunInv(w: World, acts: seq<Act>, nodes: nat)
    requires Inv(w) && Runs(w, acts, nodes)
    ensures Inv(After(w, acts, nodes))
    ensures forall p :: 0 <= p < |After(w, acts, nodes).ports| && After(w, acts, nodes).ports[p].state == PT_ALLOC ==>
              var t := After(w, acts, nodes).ports[p];
              && TokensBut(After(w, acts, nodes), p, 0, 0) && |t.msgs| <= t.cap && t.sent == t.got + t.msgs
    decreases |acts|
  {
    if acts == [] {
      forall p | 0 <= p < |w.ports| && w.ports[p].state == PT_ALLOC
        ensures TokensBut(w, p, 0, 0) && |w.ports[p].msgs| <= w.ports[p].cap && w.ports[p].sent == w.ports[p].got + w.ports[p].msgs
      {
        assert PortOk(w, p);
      }
    } else {
      DoInv(w, acts[0], nodes);
      RunInv(Do(w, acts[0], nodes).0, acts[1..], nodes);
    }
  }

  // Incarnations.

  ghost predicate Remembers(w: World, t: World, y: int) {
    && |t.ports| == |w.ports| && (forall p :: 0 <= p < |w.ports| ==> w.ports[p].seqno <= t.ports[p].seqno)
    && (y in w.procs && !w.procs[y].Clearing? && y in t.procs ==>
          !t.procs[y].Clearing? && t.procs[y].port == w.procs[y].port && t.procs[y].seqno == w.procs[y].seqno)
  }

  lemma CallRemembers(w: World, x: int, p: int, msg: int, room: bool, y: int)
    requires Inv(w) && y in w.procs && !w.procs[y].Clearing? && x !in w.procs
    ensures Remembers(w, PtSend(w, x, p, msg, room).0, y) && y in PtSend(w, x, p, msg, room).0.procs
    ensures Remembers(w, PtRecv(w, x, p).0, y) && y in PtRecv(w, x, p).0.procs
  {
    WaitersAreNotClearing(w);
  }

  lemma RunRemembers(w: World, x: int, room: bool, y: int)
    requires Inv(w) && y in w.procs && !w.procs[y].Clearing? && x in w.procs && (w.procs[x].SendGranted? || w.procs[x].RecvGranted?)
    ensures Remembers(w, Continue(w, x, room).0, y) && (y != x ==> y in Continue(w, x, room).0.procs)
  {
    WaitersAreNotClearing(w);
  }

  lemma ClearRemembers(w: World, x: int, p: int, next: PtState, y: int)
    requires Inv(w) && y in w.procs && !w.procs[y].Clearing? && x !in w.procs
    ensures Remembers(w, ClearStart(w, x, p, next).0, y) && y in ClearStart(w, x, p, next).0.procs
  {
  }

  lemma ClearingRemembers(w: World, x: int, y: int)
    requires Inv(w) && y in w.procs && !w.procs[y].Clearing? && x in w.procs && w.procs[x].Clearing?
    ensures Remembers(w, ClearNext(w, x), y) && y in ClearNext(w, x).procs
    ensures Remembers(w, ClearEnd(w, x), y) && y in ClearEnd(w, x).procs
  {
  }

  lemma KillRemembers(w: World, x: int, y: int)
    requires Inv(w) && y in w.procs && !w.procs[y].Clearing? && x in w.procs && 0 <= w.procs[x].port < |w.ports|
    ensures Remembers(w, PortsSteps.Kill(w, x), y) && (y != x ==> y in PortsSteps.Kill(w, x).procs)
  {
  }

  /** What a process in the middle of a call remembers never changes, and sequence numbers only grow. */
  lemma DoRemembers(w: World, a: Act, nodes: nat, y: int)
    requires Inv(w) && Enabled(w, a) && y in w.procs && !w.procs[y].Clearing?
    ensures Remembers(w, Do(w, a, nodes).0, y)
    ensures y !in Do(w, a, nodes).0.procs ==> a == Run(y) || a == Act.Kill(y)
  {
    match a {
      case Send(x, p, m) => CallRemembers(w, x, p, m, Room(w, nodes), y);
      case Recv(x, p) => CallRemembers(w, x, p, 0, true, y);
      case Run(x) => RunRemembers(w, x, Room(w, nodes), y);
      case Reset(x, p) => ClearRemembers(w, x, p, PT_ALLOC, y);
      case Delete(x, p) => ClearRemembers(w, x, p, PT_FREE, y);
      case ClearMore(x) => ClearingRemembers(w, x, y);
      case ClearLast(x) => ClearingRemembers(w, x, y);
      case Kill(x) => KillRemembers(w, x, y);
      case Create(p, count) =>
      case Refused =>
    }
  }

  lemma WaitersAreNotClearing(w: World)
    requires Inv(w)
    ensures forall p, x :: 0 <= p < |w.ports| && x in w.ports[p].ssem.waiting ==> x in w.procs && w.procs[x].SendWait?
    ensures forall p, x :: 0 <= p < |w.ports| && x in w.ports[p].rsem.waiting ==> x in w.procs && w.procs[x].RecvWait?
  {
    forall p, x | 0 <= p < |w.ports| && x in w.ports[p].ssem.waiting ensures x in w.procs && w.procs[x].SendWait? {
      assert PortOk(w, p);
    }
    forall p, x | 0 <= p < |w.ports| && x in w.ports[p].rsem.waiting ensures x in w.procs && w.procs[x].RecvWait? {
      assert PortOk(w, p);
    }
  }

  ghost predicate Outdated(w: World, y: int) {
    && y in w.procs && !w.procs[y].Clearing? && 0 <= w.procs[y].port < |w.ports|
    && w.procs[y].seqno < w.ports[w.procs[y].port].seqno
  }

  /** A reset or delete outdates every process blocked in, or let go by, the port. */
  lemma ClearOutdates(w: World, x: int, p: int, next: PtState, y: int)
    requires Inv(w) && x !in w.procs && Usable(w, p) && y in w.procs && OfPort(w.procs[y], p)
    ensures Outdated(ClearStart(w, x, p, next).0, y)
  {
    assert PortOk(w, p);
  }

  /** Once outdated, for the rest of the run: it stays so until it runs or is killed. */
  lemma {:induction false} OutdatedStays(w: World, acts: seq<Act>, nodes: nat, y: int)
    requires Inv(w) && Runs(w, acts, nodes) && Outdated(w, y)
    requires forall i :: 0 <= i < |acts| ==> acts[i] != Run(y) && acts[i] != Act.Kill(y)
    ensures Outdated(After(w, acts, nodes), y)
    decreases |acts|
  {
    if acts != [] {
      var t := Do(w, acts[0], nodes).0;
      assert acts[0] != Run(y) && acts[0] != Act.Kill(y);
      DoRemembers(w, acts[0], nodes, y);
      DoInv(w, acts[0], nodes);
      hide Do, Inv;
      OutdatedStays(t, acts[1..], nodes, y);
    }
  }

  /** However long it took to run again, a process from before a reset or delete gets SYSERR and
      touches no port, whatever has become of the port's number since. */
  lemma OldIncarnationRefused(w: World, x: int, p: int, next: PtState, acts: seq<Act>, nodes: nat, y: int)
    requires Inv(w) && x !in w.procs && Usable(w, p) && next != PT_LIMBO && y in w.procs && OfPort(w.procs[y], p)
    requires Runs(ClearStart(w, x, p, next).0, acts, nodes)
    requires forall i :: 0 <= i < |acts| ==> acts[i] != Run(y) && acts[i] != Act.Kill(y)
    requires Enabled(After(ClearStart(w, x, p, next).0, acts, nodes), Run(y))
    ensures var t := After(ClearStart(w, x, p, next).0, acts, nodes);
            Do(t, Run(y), nodes).1 == SysErr && Do(t, Run(y), nodes).0.ports == t.ports
  {
    ClearStartInv(w, x, p, next);
    ClearOutdates(w, x, p, next, y);
    OutdatedStays(ClearStart(w, x, p, next).0, acts, nodes, y);
  }

  // The node pool.

  /** What the ports in use may hold between them. */
  function Capacity(ports: seq<Port>): int {
    if ports == [] then 0 else (if ports[0].state == PT_ALLOC then ports[0].cap else 0) + Capacity(ports[1..])
  }

  lemma {:induction false} QueuedWithin(ports: seq<Port>)
    requires forall p :: 0 <= p < |ports| ==> |ports[p].msgs| <= if ports[p].state == PT_ALLOC then ports[p].cap else 0
    ensures Queued(ports) <= Capacity(ports)
  {
    if ports != [] {
      assert |ports[0].msgs| <= if ports[0].state == PT_ALLOC then ports[0].cap else 0;
      QueuedWithin(ports[1..]);
    }
  }

  lemma {:induction false} QueuedBelow(ports: seq<Port>, q: int)
    requires forall p :: 0 <= p < |ports| ==> |ports[p].msgs| <= if ports[p].state == PT_ALLOC then ports[p].cap else 0
    requires 0 <= q < |ports| && ports[q].state == PT_ALLOC && |ports[q].msgs| < ports[q].cap
    ensures Queued(ports) < Capacity(ports)
    decreases q
  {
    assert |ports[0].msgs| <= if ports[0].state == PT_ALLOC then ports[0].cap else 0;
    if q == 0 {
      QueuedWithin(ports[1..]);
    } else {
      QueuedBelow(ports[1..], q - 1);
    }
  }

  lemma WithinBounds(w: World)
    requires Inv(w)
    ensures forall p :: 0 <= p < |w.ports| ==> |w.ports[p].msgs| <= if w.ports[p].state == PT_ALLOC then w.ports[p].cap else 0
  {
    forall p | 0 <= p < |w.ports| ensures |w.ports[p].msgs| <= if w.ports[p].state == PT_ALLOC then w.ports[p].cap else 0 {
      assert PortOk(w, p);
    }
  }

  /** The pool never runs out while the ports in use ask for no more than it has. */
  lemma NoPanic(w: World, a: Act, nodes: nat)
    requires Inv(w) && Enabled(w, a) && Capacity(w.ports) <= nodes
    ensures Do(w, a, nodes).1 != Panic
  {
    WithinBounds(w);
    if a.Send? && Usable(w, a.port) && w.ports[a.port].ssem.count - 1 >= 0 {
      assert PortOk(w, a.port);
      QueuedBelow(w.ports, a.port);
    }
    if a.Run? && w.procs[a.x].SendGranted? && Current(w, w.procs[a.x].port, w.procs[a.x].seqno) {
      assert a.x in GrantedS(w, w.procs[a.x].port);
      QueueBounded(w, w.procs[a.x].port, a.x);
      QueuedBelow(w.ports, w.procs[a.x].port);
    }
  }

  /** The capacity a port is created with survives a reset exactly when it fits the table's 16 bits. */
  lemma CapacityAfterReset(w: World, p: int, count: int, x: int)
    requires 0 <= p < |w.ports| && count >= 0
    ensures var c := PtCreate(w, p, count);
            var r := ClearStart(c, x, p, PT_ALLOC).0;
            && c.ports[p].cap == count && x in r.procs && r.procs[x].Clearing?
            && (ClearEnd(ClearNext(r, x), x).ports[p].cap == count <==> count <= 0xFFFF)
  {
    assert count % 0x1_0000 == count <==> count <= 0xFFFF;
  }
}
