/** Ports: bounded message queues with a semaphore for space and one for messages, and a sequence
    number that tells processes of an earlier incarnation apart. */
module PortsModel {
  // A semaphore's count and the processes blocked on it, first to arrive first.
  datatype Sem = Sem(count: int, waiting: seq<int>)

  datatype PtState = PT_FREE | PT_LIMBO | PT_ALLOC

  // One port. cap is what its space semaphore was last set to; lostS and lostR count the tokens of
  // processes killed between being granted one and using it; sent and got are the messages that
  // entered and left since then, msgs those still in the queue.
  datatype Port = Port(state: PtState, ssem: Sem, rsem: Sem, maxcnt: int, seqno: int, msgs: seq<int>,
                       cap: int, lostS: nat, lostR: nat, sent: seq<int>, got: seq<int>)

  // What a process inside the port routines is in the middle of.
  datatype Proc =
    | SendWait(port: int, seqno: int, msg: int)
    | SendGranted(port: int, seqno: int, msg: int)
    | RecvWait(port: int, seqno: int)
    | RecvGranted(port: int, seqno: int)
    | Clearing(port: int, next: PtState, phase: int)

  datatype World = World(ports: seq<Port>, procs: map<int, Proc>)

  // Processes granted a token of the port's present incarnation and not yet run.
  ghost function GrantedS(w: World, p: int): set<int>
    requires 0 <= p < |w.ports|
  {
    set x | x in w.procs && w.procs[x].SendGranted? && w.procs[x].port == p && w.procs[x].seqno == w.ports[p].seqno
  }

  ghost function GrantedR(w: World, p: int): set<int>
    requires 0 <= p < |w.ports|
  {
    set x | x in w.procs && w.procs[x].RecvGranted? && w.procs[x].port == p && w.procs[x].seqno == w.ports[p].seqno
  }

  function Avail(s: Sem): int {
    if s.count > 0 then s.count else 0
  }

  /** A negative count is the number of processes waiting. */
  predicate SemOk(s: Sem) {
    |s.waiting| == if s.count < 0 then -s.count else 0
  }

  ghost predicate Distinct(s: seq<int>) {
    forall i, j :: 0 <= i < j < |s| ==> s[i] != s[j]
  }

  predicate OfPort(pr: Proc, p: int) {
    !pr.Clearing? && pr.port == p
  }

  /** Exactly the processes blocked in the port's routines are on its semaphores' queues. */
  ghost predicate WaitersOk(w: World, p: int)
    requires 0 <= p < |w.ports|
  {
    && SemOk(w.ports[p].ssem) && SemOk(w.ports[p].rsem)
    && Distinct(w.ports[p].ssem.waiting) && Distinct(w.ports[p].rsem.waiting)
    && (forall x :: x in w.ports[p].ssem.waiting <==> x in w.procs && w.procs[x].SendWait? && w.procs[x].port == p)
    && (forall x :: x in w.ports[p].rsem.waiting <==> x in w.procs && w.procs[x].RecvWait? && w.procs[x].port == p)
  }

  /** Tokens: space is available, promised, used by a queued message or lost; a queued message is
      announced, promised or its announcement lost. Inside an operation ds and dr are in hand. */
  ghost predicate TokensBut(w: World, p: int, ds: int, dr: int)
    requires 0 <= p < |w.ports|
  {
    var t := w.ports[p];
    && Avail(t.ssem) + |GrantedS(w, p)| + |t.msgs| + t.lostS == t.cap - ds
    && Avail(t.rsem) + |GrantedR(w, p)| + t.lostR == |t.msgs| - dr
  }

  /** Processes of the port carry its sequence number only while it is allocated. */
  ghost predicate SeqsOk(w: World, p: int)
    requires 0 <= p < |w.ports|
  {
    && (forall x :: x in w.procs && OfPort(w.procs[x], p) ==> w.procs[x].seqno <= w.ports[p].seqno)
    && (w.ports[p].state != PT_ALLOC ==>
          forall x :: x in w.procs && OfPort(w.procs[x], p) ==> w.procs[x].seqno < w.ports[p].seqno)
    && (w.ports[p].state == PT_ALLOC ==>
          forall x :: x in w.procs && OfPort(w.procs[x], p) && (w.procs[x].SendWait? || w.procs[x].RecvWait?) ==>
            w.procs[x].seqno == w.ports[p].seqno)
  }

  predicate Clears(w: World, x: int, p: int) {
    x in w.procs && w.procs[x].Clearing? && w.procs[x].port == p
  }

  /** A port in limbo is being cleared by at most one process, whose progress shows in the semaphores. */
  ghost predicate ClearingOk(w: World, p: int)
    requires 0 <= p < |w.ports|
  {
    && (forall x :: Clears(w, x, p) ==> ClearPhase(w.ports[p], w.procs[x]))
    && (forall x, y :: Clears(w, x, p) && Clears(w, y, p) ==> x == y)
  }

  predicate ClearPhase(t: Port, c: Proc)
    requires c.Clearing?
  {
    && t.state == PT_LIMBO && c.next != PT_LIMBO && 1 <= c.phase <= 2
    && t.ssem.waiting == [] && (c.next == PT_ALLOC ==> t.ssem == Sem(t.maxcnt, []))
    && (c.phase == 2 ==> t.rsem.waiting == [] && (c.next == PT_ALLOC ==> t.rsem == Sem(0, [])))
  }

  ghost predicate PortBut(w: World, p: int, ds: int, dr: int)
    requires 0 <= p < |w.ports|
  {
    var t := w.ports[p];
    && WaitersOk(w, p) && SeqsOk(w, p) && ClearingOk(w, p) && 0 <= t.maxcnt
    && (t.state == PT_ALLOC ==> TokensBut(w, p, ds, dr) && t.sent == t.got + t.msgs)
    && (t.state != PT_ALLOC ==> t.msgs == [])
    && (t.state == PT_FREE ==> t.ssem.waiting == [] && t.rsem.waiting == [])
  }

  ghost predicate PortOk(w: World, p: int)
    requires 0 <= p < |w.ports|
  {
    PortBut(w, p, 0, 0)
  }

  ghost predicate InRange(w: World) {
    forall x :: x in w.procs ==> 0 <= w.procs[x].port < |w.ports|
  }

  ghost predicate InvBut(w: World, p: int, ds: int, dr: int) {
    && InRange(w) && 0 <= p < |w.ports| && PortBut(w, p, ds, dr)
    && (forall q :: 0 <= q < |w.ports| && q != p ==> PortOk(w, q))
  }

  ghost predicate Inv(w: World) {
    InRange(w) && forall p :: 0 <= p < |w.ports| ==> PortOk(w, p)
  }

  /** The queue never holds more than the port was set up for, and a process granted a message of
      the present incarnation finds one. */
  lemma QueueBounded(w: World, p: int, x: int)
    requires Inv(w) && 0 <= p < |w.ports| && w.ports[p].state == PT_ALLOC
    ensures |w.ports[p].msgs| <= w.ports[p].cap
    ensures x in GrantedR(w, p) ==> w.ports[p].msgs != []
    ensures x in GrantedS(w, p) ==> |w.ports[p].msgs| < w.ports[p].cap
  {
    assert PortOk(w, p);
    if x in GrantedR(w, p) {
      assert GrantedR(w, p) != {};
    }
    if x in GrantedS(w, p) {
      assert GrantedS(w, p) != {};
    }
  }

  /** Messages leave in the order they entered: what was received is the front of what was sent. */
  lemma FirstInFirstOut(w: World, p: int)
    requires Inv(w) && 0 <= p < |w.ports| && w.ports[p].state == PT_ALLOC
    ensures w.ports[p].got <= w.ports[p].sent && w.ports[p].msgs == w.ports[p].sent[|w.ports[p].got|..]
  {
    assert PortOk(w, p);
  }
}
