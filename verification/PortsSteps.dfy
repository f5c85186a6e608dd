/** The port routines as steps of a machine in which a process can be blocked, or let go but not
    yet run; and the proof that each keeps the invariant. */
module PortsSteps {
  import opened PortsModel

  datatype Reply = Ok | SysErr | Blocked | Panic | Message(msg: int)

  function Granted(pr: Proc): Proc {
    match pr
    case SendWait(p, s, m) => SendGranted(p, s, m)
    case RecvWait(p, s) => RecvGranted(p, s)
    case _ => pr
  }

  function SetPort(w: World, p: int, t: Port): World
    requires 0 <= p < |w.ports|
  {
    w.(ports := w.ports[p := t])
  }

  function Without(procs: map<int, Proc>, x: int): (r: map<int, Proc>)
    ensures x !in r && forall y :: y in r <==> y in procs && y != x
    ensures forall y :: y in r ==> r[y] == procs[y]
  {
    procs - {x}
  }

  /** signal on a port's space semaphore. */
  function UpSend(w: World, p: int): World
    requires 0 <= p < |w.ports|
  {
    var t := w.ports[p];
    if t.ssem.count < 0 && t.ssem.waiting != [] && t.ssem.waiting[0] in w.procs then
      var y := t.ssem.waiting[0];
      World(w.ports[p := t.(ssem := Sem(t.ssem.count + 1, t.ssem.waiting[1..]))], w.procs[y := Granted(w.procs[y])])
    else SetPort(w, p, t.(ssem := Sem(t.ssem.count + 1, t.ssem.waiting)))
  }

  /** signal on its message semaphore. */
  function UpRecv(w: World, p: int): World
    requires 0 <= p < |w.ports|
  {
    var t := w.ports[p];
    if t.rsem.count < 0 && t.rsem.waiting != [] && t.rsem.waiting[0] in w.procs then
      var y := t.rsem.waiting[0];
      World(w.ports[p := t.(rsem := Sem(t.rsem.count + 1, t.rsem.waiting[1..]))], w.procs[y := Granted(w.procs[y])])
    else SetPort(w, p, t.(rsem := Sem(t.rsem.count + 1, t.rsem.waiting)))
  }

  /** A message joins the queue and is announced. */
  function Put(w: World, p: int, msg: int): World
    requires 0 <= p < |w.ports|
  {
    UpRecv(SetPort(w, p, w.ports[p].(msgs := w.ports[p].msgs + [msg], sent := w.ports[p].sent + [msg])), p)
  }

  function Dequeued(w: World, p: int): World
    requires 0 <= p < |w.ports| && w.ports[p].msgs != []
  {
    SetPort(w, p, w.ports[p].(msgs := w.ports[p].msgs[1..], got := w.ports[p].got + [w.ports[p].msgs[0]]))
  }

  predicate Usable(w: World, p: int) {
    0 <= p < |w.ports| && w.ports[p].state == PT_ALLOC
  }

  /** The port is still the one the process started with. */
  predicate Current(w: World, p: int, seqno: int) {
    Usable(w, p) && w.ports[p].seqno == seqno
  }

  /** From the moment space is in hand: room says whether a message node is free. */
  function Deliver(w: World, p: int, msg: int, room: bool): (World, Reply)
    requires 0 <= p < |w.ports|
  {
    if room then (Put(w, p, msg), Ok) else (w, Panic)
  }

  /** From the moment a message is promised. The invariant says the queue is not empty. */
  function Collect(w: World, p: int): (World, Reply)
    requires 0 <= p < |w.ports|
  {
    if w.ports[p].msgs == [] then (w, SysErr)
    else (UpSend(Dequeued(w, p), p), Message(w.ports[p].msgs[0]))
  }

  function PtSend(w: World, x: int, p: int, msg: int, room: bool): (World, Reply) {
    if !Usable(w, p) then (w, SysErr)
    else
      var t := w.ports[p];
      if t.ssem.count - 1 < 0 then
        (World(w.ports[p := t.(ssem := Sem(t.ssem.count - 1, t.ssem.waiting + [x]))],
               w.procs[x := SendWait(p, t.seqno, msg)]), Blocked)
      else Deliver(SetPort(w, p, t.(ssem := Sem(t.ssem.count - 1, t.ssem.waiting))), p, msg, room)
  }

  function PtRecv(w: World, x: int, p: int): (World, Reply) {
    if !Usable(w, p) then (w, SysErr)
    else
      var t := w.ports[p];
      if t.rsem.count - 1 < 0 then
        (World(w.ports[p := t.(rsem := Sem(t.rsem.count - 1, t.rsem.waiting + [x]))],
               w.procs[x := RecvWait(p, t.seqno)]), Blocked)
      else Collect(SetPort(w, p, t.(rsem := Sem(t.rsem.count - 1, t.rsem.waiting))), p)
  }

  /** A process let go inside ptsend or ptrecv runs again. */
  function Continue(w: World, x: int, room: bool): (World, Reply)
    requires x in w.procs && (w.procs[x].SendGranted? || w.procs[x].RecvGranted?)
  {
    var u := w.(procs := Without(w.procs, x));
    match w.procs[x]
    case SendGranted(p, s, m) => if Current(w, p, s) then Deliver(u, p, m, room) else (u, SysErr)
    case RecvGranted(p, s) => if Current(w, p, s) then Collect(u, p) else (u, SysErr)
  }

  /** Every process in ws is let go. */
  function GrantAll(procs: map<int, Proc>, ws: seq<int>): map<int, Proc> {
    map x | x in procs :: if x in ws then Granted(procs[x]) else procs[x]
  }

  /** semreset to n when the port lives on, semdelete when it goes: either way nobody is left waiting. */
  function Cleared(s: Sem, next: PtState, n: int): Sem {
    if next == PT_ALLOC then Sem(n, []) else Sem(if s.count < 0 then 1 else s.count + 1, [])
  }

  /** ptreset or ptdelete up to the first reschedule: limbo, new sequence number, messages gone,
      senders let go. */
  function ClearStart(w: World, x: int, p: int, next: PtState): (World, Reply) {
    if !Usable(w, p) then (w, SysErr)
    else
      var t := w.ports[p];
      (World(w.ports[p := t.(state := PT_LIMBO, seqno := t.seqno + 1, msgs := [], ssem := Cleared(t.ssem, next, t.maxcnt))],
             GrantAll(w.procs, t.ssem.waiting)[x := Clearing(p, next, 1)]), Blocked)
  }

  /** Up to the second reschedule: receivers let go. */
  function ClearNext(w: World, x: int): World
    requires x in w.procs && w.procs[x].Clearing?
  {
    var p, c := w.procs[x].port, w.procs[x];
    if 0 <= p < |w.ports| then
      var t := w.ports[p];
      World(w.ports[p := t.(rsem := Cleared(t.rsem, c.next, 0))], GrantAll(w.procs, t.rsem.waiting)[x := c.(phase := 2)])
    else w
  }

  /** The new state. A port that lives on starts a new life with its recorded capacity. */
  function ClearEnd(w: World, x: int): World
    requires x in w.procs && w.procs[x].Clearing?
  {
    var p, c := w.procs[x].port, w.procs[x];
    if 0 <= p < |w.ports| then
      var t := w.ports[p];
      World(w.ports[p := t.(state := c.next, cap := t.maxcnt, lostS := 0, lostR := 0, sent := [], got := [])],
            Without(w.procs, x))
    else w
  }

  /** A free entry becomes a port. The table keeps the capacity in 16 bits. */
  function PtCreate(w: World, p: int, count: int): World
    requires 0 <= p < |w.ports|
  {
    SetPort(w, p, Port(PT_ALLOC, Sem(count, []), Sem(0, []), count % 0x1_0000, w.ports[p].seqno + 1, [], count, 0, 0, [], []))
  }

  function Removed(s: seq<int>, x: int): seq<int> {
    if s == [] then [] else if s[0] == x then s[1..] else [s[0]] + Removed(s[1..], x)
  }

  /** kill: a waiter gives back its place; a token already granted is lost. */
  function Kill(w: World, x: int): World
    requires x in w.procs && 0 <= w.procs[x].port < |w.ports|
  {
    var u := w.(procs := Without(w.procs, x));
    var p := w.procs[x].port;
    var t := w.ports[p];
    match w.procs[x]
    case SendWait(_, _, _) => SetPort(u, p, t.(ssem := Sem(t.ssem.count + 1, Removed(t.ssem.waiting, x))))
    case RecvWait(_, _) => SetPort(u, p, t.(rsem := Sem(t.rsem.count + 1, Removed(t.rsem.waiting, x))))
    case SendGranted(_, s, _) => if s == t.seqno then SetPort(u, p, t.(lostS := t.lostS + 1)) else u
    case RecvGranted(_, s) => if s == t.seqno then SetPort(u, p, t.(lostR := t.lostR + 1)) else u
    case Clearing(_, _, _) => u
  }

  // A step at one port does not concern the others.

  ghost predicate SameElsewhere(w: World, t: World, p: int) {
    && |t.ports| == |w.ports|
    && (forall q :: 0 <= q < |w.ports| && q != p ==> t.ports[q] == w.ports[q])
    && (forall x :: x in w.procs && w.procs[x].port != p ==> x in t.procs && t.procs[x] == w.procs[x])
    && (forall x :: x in t.procs && t.procs[x].port != p ==> x in w.procs && w.procs[x] == t.procs[x])
  }

  lemma SamePlace(w: World, t: World, p: int, q: int, x: int)
    requires SameElsewhere(w, t, p) && q != p
    ensures x in t.procs && t.procs[x].port == q <==> x in w.procs && w.procs[x].port == q
    ensures x in t.procs && t.procs[x].port == q ==> x in w.procs && t.procs[x] == w.procs[x]
  {
  }

  lemma OtherPort(w: World, t: World, p: int, q: int)
    requires SameElsewhere(w, t, p) && 0 <= q < |w.ports| && q != p && PortOk(w, q)
    ensures PortOk(t, q)
  {
    forall x ensures x in GrantedS(t, q) <==> x in GrantedS(w, q)
      ensures x in GrantedR(t, q) <==> x in GrantedR(w, q)
    {
      SamePlace(w, t, p, q, x);
    }
    assert GrantedS(t, q) == GrantedS(w, q) && GrantedR(t, q) == GrantedR(w, q);
    forall x ensures Clears(t, x, q) <==> Clears(w, x, q) {
      SamePlace(w, t, p, q, x);
    }
    assert forall x :: Clears(t, x, q) <==> Clears(w, x, q);
  }

  lemma OnePort(w: World, t: World, p: int, ds: int, dr: int, es: int, er: int)
    requires InvBut(w, p, ds, dr) && SameElsewhere(w, t, p) && PortBut(t, p, es, er)
    ensures InvBut(t, p, es, er)
  {
    forall q | 0 <= q < |t.ports| && q != p ensures PortOk(t, q) {
      OtherPort(w, t, p, q);
    }
    forall x | x in t.procs ensures 0 <= t.procs[x].port < |t.ports| {
    }
  }

  lemma Whole(w: World, p: int)
    requires 0 <= p < |w.ports|
    ensures Inv(w) <==> InvBut(w, p, 0, 0)
  {
    assert PortOk(w, p) <==> PortBut(w, p, 0, 0);
  }
}
