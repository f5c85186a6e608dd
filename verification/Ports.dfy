/** ptcreate, ptsend, ptrecv, ptreset, ptdelete and ptinit over the port table and the node pool. */
module Ports {
  import opened PortsModel
  import opened PortsSteps
  import opened PortsSafety
  import opened PortsNodes

  // A port table entry; its two semaphores are kept in it.
  datatype Entry = Entry(ptssem: Sem, ptrsem: Sem, ptstate: PtState, ptmaxcnt: int, ptseq: int, pthead: int, pttail: int)

  /** An entry and its message list against the port they stand for. */
  ghost predicate EntryFits(e: Entry, t: Port, l: Pool, p: int) {
    && 0 <= p < |l.chains| && Within(l.nodes, l.chains[p]) && MessagesOf(l, p) == t.msgs
    && e.ptssem == t.ssem && e.ptrsem == t.rsem && e.ptstate == t.state && e.ptmaxcnt == t.maxcnt && e.ptseq == t.seqno
    && (t.state == PT_ALLOC ==> e.pthead == First(l.chains[p]) && e.pttail == Last(l.chains[p]))
  }

  /** A port on its way back to use has its list pointers cleared already. */
  ghost predicate ClearedHeads(procs: map<int, Proc>, porttab: seq<Entry>) {
    forall x :: x in procs && procs[x].Clearing? && procs[x].next == PT_ALLOC && 0 <= procs[x].port < |porttab| ==>
      porttab[procs[x].port].pthead == NULL && porttab[procs[x].port].pttail == NULL
  }

  lemma WaitingProcs(w: World, p: int, ds: int, dr: int)
    requires InvBut(w, p, ds, dr)
    ensures var t := w.ports[p];
            && (t.ssem.count < 0 ==> t.ssem.waiting != []) && (t.rsem.count < 0 ==> t.rsem.waiting != [])
            && (forall x :: x in t.ssem.waiting ==> x in w.procs && w.procs[x].SendWait? && w.procs[x].port == p)
            && (forall x :: x in t.rsem.waiting ==> x in w.procs && w.procs[x].RecvWait? && w.procs[x].port == p)
    ensures w.ports[p].state == PT_ALLOC ==> forall x :: !Clears(w, x, p)
  {
  }

  lemma HeadsKept(w: World, was: seq<Entry>, porttab: seq<Entry>, p: int)
    requires ClearedHeads(w.procs, was) && |porttab| == |was| && forall x :: !Clears(w, x, p)
    requires forall q :: 0 <= q < |was| && q != p ==> porttab[q] == was[q]
    ensures ClearedHeads(w.procs, porttab)
  {
    forall x ensures x in w.procs && w.procs[x].Clearing? ==> w.procs[x].port != p {
      assert !Clears(w, x, p);
    }
  }

  /** Only list pointers and clearing processes matter. */
  lemma HeadsSame(was: map<int, Proc>, procs: map<int, Proc>, kept: seq<Entry>, porttab: seq<Entry>, x: int)
    requires ClearedHeads(was, kept) && |porttab| == |kept|
    requires forall q :: 0 <= q < |kept| ==> porttab[q].pthead == kept[q].pthead && porttab[q].pttail == kept[q].pttail
    requires x in procs && !procs[x].Clearing? && forall y :: y in procs && y != x ==> y in was && procs[y] == was[y]
    ensures ClearedHeads(procs, porttab)
  {
  }

  lemma EntrySems(e: Entry, t: Port, l: Pool, p: int)
    requires EntryFits(e, t, l, p)
    ensures e.ptssem == t.ssem && e.ptrsem == t.rsem && e.ptstate == t.state && e.ptmaxcnt == t.maxcnt && e.ptseq == t.seqno
  {
  }

  lemma Bounds(w: World, p: int, ds: int, dr: int)
    requires InvBut(w, p, ds, dr)
    ensures 0 <= p < |w.ports|
  {
  }

  lemma PortInRange(w: World, x: int)
    requires Inv(w) && x in w.procs
    ensures 0 <= w.procs[x].port < |w.ports|
  {
  }

  lemma MessagesLength(l: Pool, p: int)
    requires 0 <= p < |l.chains| && Within(l.nodes, l.chains[p])
    ensures |MessagesOf(l, p)| == |l.chains[p]|
  {
  }

  /** Where the walk over the message list stands. */
  lemma ChainStep(l: Pool, p: int, i: nat)
    requires PoolOk(l) && 0 <= p < |l.chains| && i <= |l.chains[p]| && First(l.chains[p][i..]) != NULL
    ensures i < |l.chains[p]| && First(l.chains[p][i..]) == l.chains[p][i] && 0 <= l.chains[p][i] < |l.nodes|
    ensures l.nodes[l.chains[p][i]].ptnext == First(l.chains[p][i + 1..])
    ensures MessagesOf(l, p)[..i + 1] == MessagesOf(l, p)[..i] + [l.nodes[l.chains[p][i]].ptmsg]
  {
    assert NextOk(l.nodes, l.chains[p], i);
  }

  lemma ChainEnd(l: Pool, p: int, i: nat)
    requires PoolOk(l) && 0 <= p < |l.chains| && i <= |l.chains[p]| && First(l.chains[p][i..]) == NULL
    ensures i == |l.chains[p]|
  {
    InBounds(l.nodes, l.chains[p]);
  }

  lemma ClearStartHeads(w: World, x: int, p: int, next: PtState, was: seq<Entry>, porttab: seq<Entry>)
    requires Inv(w) && Usable(w, p) && ClearedHeads(w.procs, was) && |porttab| == |was| == |w.ports|
    requires forall q :: 0 <= q < |was| && q != p ==> porttab[q] == was[q]
    requires next == PT_ALLOC ==> porttab[p].pthead == NULL && porttab[p].pttail == NULL
    ensures ClearedHeads(ClearStart(w, x, p, next).0.procs, porttab)
  {
    var procs := ClearStart(w, x, p, next).0.procs;
    assert PortOk(w, p);
    forall y | y in procs && y != x && procs[y].Clearing? ensures y in w.procs && procs[y] == w.procs[y] && procs[y].port != p {
      assert !Clears(w, y, p);
    }
  }

  lemma ClearNextHeads(w: World, x: int, was: seq<Entry>, porttab: seq<Entry>)
    requires Inv(w) && x in w.procs && w.procs[x].Clearing? && ClearedHeads(w.procs, was) && |porttab| == |was| == |w.ports|
    requires forall q :: 0 <= q < |was| ==> porttab[q].pthead == was[q].pthead && porttab[q].pttail == was[q].pttail
    ensures ClearedHeads(ClearNext(w, x).procs, porttab)
  {
    var procs := ClearNext(w, x).procs;
    forall y | y in procs && y != x && procs[y].Clearing? ensures y in w.procs && procs[y] == w.procs[y] {
    }
  }

  lemma ClearingPort(w: World, x: int)
    requires Inv(w) && x in w.procs && w.procs[x].Clearing?
    ensures 0 <= w.procs[x].port < |w.ports| && w.ports[w.procs[x].port].state == PT_LIMBO
    ensures w.ports[w.procs[x].port].msgs == []
    ensures forall y :: Clears(w, y, w.procs[x].port) ==> y == x
  {
    var p := w.procs[x].port;
    assert PortOk(w, p) && Clears(w, x, p);
  }

  lemma FreePortEmpty(w: World, p: int)
    requires Inv(w) && 0 <= p < |w.ports| && w.ports[p].state == PT_FREE
    ensures w.ports[p].msgs == [] && forall x :: !Clears(w, x, p)
  {
    assert PortOk(w, p);
  }

  class PortTable {
    const nports: int
    const maxmsgs: nat
    var porttab: seq<Entry>
    var nodes: seq<Node>
    var ptfree: int
    var ptnextid: int
    // Processes in the middle of a port routine.
    var procs: map<int, Proc>
    ghost var pool: Pool
    ghost var model: World

    /** The tables spell out the model. */
    ghost predicate Shape()
      reads this
    {
      && 0 < nports == |porttab| == |model.ports| == |pool.chains| && 0 <= ptnextid < nports
      && procs == model.procs && nodes == pool.nodes && |nodes| == maxmsgs && PoolOk(pool) && ptfree == First(pool.free)
      && ClearedHeads(procs, porttab)
      && (forall p :: 0 <= p < nports ==> EntryFits(porttab[p], model.ports[p], pool, p))
    }

    ghost predicate Valid()
      reads this
    {
      Shape() && Inv(model)
    }

    predicate IsBadPort(portid: int) {
      portid < 0 || portid >= nports
    }

    /** ptinit: every port free, every node on the free list. */
    constructor (nports: int, maxmsgs: nat)
      requires 0 < nports && 0 < maxmsgs
      ensures Valid() && this.nports == nports && this.maxmsgs == maxmsgs && |pool.free| == maxmsgs && procs == map[]
      ensures forall p :: 0 <= p < nports ==> model.ports[p].state == PT_FREE
    {
      var chain := seq(maxmsgs, i => Node(0, NULL));
      var left := maxmsgs - 1;
      var curr, next := 0, 0;
      while left > 0
        invariant 0 <= left && next == curr == maxmsgs - 1 - left && |chain| == maxmsgs
        invariant forall i :: 0 <= i < curr ==> chain[i].ptnext == i + 1
      {
        next := next + 1;
        chain := chain[curr := chain[curr].(ptnext := next)];
        curr := next;
        left := left - 1;
      }
      chain := chain[curr := chain[curr].(ptnext := NULL)];
      this.nports, this.maxmsgs := nports, maxmsgs;
      porttab := seq(nports, p => Entry(Sem(0, []), Sem(0, []), PT_FREE, 0, 0, NULL, NULL));
      nodes := chain;
      ptfree := 0;
      ptnextid := 0;
      procs := map[];
      pool := Pool(chain, seq(maxmsgs, i => i), seq(nports, p => []), seq(maxmsgs, i => -1));
      model := World(seq(nports, p => Port(PT_FREE, Sem(0, []), Sem(0, []), 0, 0, [], 0, 0, 0, [], [])), map[]);
      new;
      FreshPool(pool);
      FreshModel(model);
    }

    /** signal on a port's message semaphore. */
    method SignalMessage(p: int)
      requires Shape() && 0 <= p < nports && (porttab[p].ptrsem.count < 0 ==> porttab[p].ptrsem.waiting != [])
      requires forall x :: x in porttab[p].ptrsem.waiting ==> x in procs && procs[x].RecvWait?
      modifies this`porttab, this`procs, this`model
      ensures Shape() && model == UpRecv(old(model), p)
    {
      hide PoolOk, MessagesOf;
      var s := porttab[p].ptrsem;
      if s.count < 0 {
        var y := s.waiting[0];
        assert y in s.waiting;
        procs := procs[y := Granted(procs[y])];
        porttab := porttab[p := porttab[p].(ptrsem := Sem(s.count + 1, s.waiting[1..]))];
      } else {
        porttab := porttab[p := porttab[p].(ptrsem := Sem(s.count + 1, s.waiting))];
      }
      model := UpRecv(model, p);
    }

    /** signal on its space semaphore. */
    method SignalSpace(p: int)
      requires Shape() && 0 <= p < nports && (porttab[p].ptssem.count < 0 ==> porttab[p].ptssem.waiting != [])
      requires forall x :: x in porttab[p].ptssem.waiting ==> x in procs && procs[x].SendWait?
      modifies this`porttab, this`procs, this`model
      ensures Shape() && model == UpSend(old(model), p)
    {
      hide PoolOk, MessagesOf;
      var s := porttab[p].ptssem;
      if s.count < 0 {
        var y := s.waiting[0];
        assert y in s.waiting;
        procs := procs[y := Granted(procs[y])];
        porttab := porttab[p := porttab[p].(ptssem := Sem(s.count + 1, s.waiting[1..]))];
      } else {
        porttab := porttab[p := porttab[p].(ptssem := Sem(s.count + 1, s.waiting))];
      }
      model := UpSend(model, p);
    }

    /** A node from the pool, with the message, goes behind the port's last. */
    method LinkLast(p: int, msg: int)
      requires Shape() && 0 <= p < nports && model.ports[p].state == PT_ALLOC && ptfree != NULL
      requires forall x :: !Clears(model, x, p)
      modifies this`porttab, this`nodes, this`ptfree, this`pool, this`model
      ensures Shape() && nports == |old(model).ports|
      ensures var t := old(model).ports[p];
              model == SetPort(old(model), p, t.(msgs := t.msgs + [msg], sent := t.sent + [msg]))
    {
      hide PoolOk, MessagesOf, Appended;
      FreeFront(pool);
      AppendedOk(pool, p, msg);
      AppendedParts(pool, p, msg);
      var msgnode := ptfree;
      ptfree := nodes[msgnode].ptnext;
      nodes := nodes[msgnode := nodes[msgnode].(ptnext := NULL)];
      nodes := nodes[msgnode := nodes[msgnode].(ptmsg := msg)];
      var tailnode := porttab[p].pttail;
      if tailnode == NULL {
        porttab := porttab[p := porttab[p].(pttail := msgnode, pthead := msgnode)];
      } else {
        nodes := nodes[tailnode := nodes[tailnode].(ptnext := msgnode)];
        porttab := porttab[p := porttab[p].(pttail := msgnode)];
      }
      pool := Appended(pool, p, msg);
      HeadsKept(model, old(porttab), porttab, p);
      model := SetPort(model, p, model.ports[p].(msgs := model.ports[p].msgs + [msg], sent := model.ports[p].sent + [msg]));
    }

    /** ptsend from the moment it has space. */
    method Enqueue(p: int, msg: int) returns (r: Reply)
      requires Shape() && InvBut(model, p, 1, 0) && model.ports[p].state == PT_ALLOC
      modifies this`porttab, this`procs, this`model, this`nodes, this`ptfree, this`pool
      ensures Shape() && (model, r) == Deliver(old(model), p, msg, old(ptfree) != NULL)
      ensures r == Ok || r == Panic
    {
      hide PoolOk, InvBut, EntryFits;
      WaitingProcs(model, p, 1, 0);
      Bounds(model, p, 1, 0);
      if ptfree == NULL {
        return Panic;
      }
      LinkLast(p, msg);
      EntrySems(porttab[p], model.ports[p], pool, p);
      SignalMessage(p);
      return Ok;
    }

    /** The port's first message, its node back on the free list. */
    method UnlinkFirst(p: int) returns (msg: int)
      requires Shape() && 0 <= p < nports && model.ports[p].state == PT_ALLOC && model.ports[p].msgs != []
      requires forall x :: !Clears(model, x, p)
      modifies this`porttab, this`nodes, this`ptfree, this`pool, this`model
      ensures Shape() && nports == |old(model).ports|
      ensures msg == old(model).ports[p].msgs[0] && model == Dequeued(old(model), p)
    {
      hide PoolOk, MessagesOf;
      MessagesLength(pool, p);
      ReturnedOk(pool, p);
      ReturnedParts(pool, p);
      var msgnode := porttab[p].pthead;
      msg := nodes[msgnode].ptmsg;
      if porttab[p].pthead == porttab[p].pttail {
        porttab := porttab[p := porttab[p].(pthead := NULL, pttail := NULL)];
      } else {
        porttab := porttab[p := porttab[p].(pthead := nodes[msgnode].ptnext)];
      }
      nodes := nodes[msgnode := nodes[msgnode].(ptnext := ptfree)];
      ptfree := msgnode;
      pool := Returned(pool, p);
      HeadsKept(model, old(porttab), porttab, p);
      model := Dequeued(model, p);
    }

    /** ptrecv from the moment it has been promised a message. */
    method Dequeue(p: int) returns (r: Reply)
      requires Shape() && InvBut(model, p, 0, 1) && model.ports[p].state == PT_ALLOC
      modifies this`porttab, this`procs, this`model, this`nodes, this`ptfree, this`pool
      ensures Shape() && (model, r) == Collect(old(model), p)
      ensures r.Message?
    {
      hide PoolOk, InvBut, EntryFits;
      WaitingProcs(model, p, 0, 1);
      Bounds(model, p, 0, 1);
      CollectInv(model, p);
      var msg := UnlinkFirst(p);
      EntrySems(porttab[p], model.ports[p], pool, p);
      SignalSpace(p);
      return Message(msg);
    }

    /** ptsend: takes space if there is any and sends, or joins the senders waiting. */
    method Ptsend(x: int, portid: int, msg: int) returns (r: Reply)
      requires Valid() && x !in procs
      modifies this`porttab, this`procs, this`model, this`nodes, this`ptfree, this`pool
      ensures (model, r) == PtSend(old(model), x, portid, msg, old(ptfree) != NULL)
      ensures r != Panic ==> Valid()
    {
      hide PoolOk, MessagesOf, Inv, InvBut, Deliver;
      if IsBadPort(portid) {
        return SysErr;
      }
      EntrySems(porttab[portid], model.ports[portid], pool, portid);
      if porttab[portid].ptstate != PT_ALLOC {
        return SysErr;
      }
      ghost var w := model;
      if PtSend(w, x, portid, msg, ptfree != NULL).1 != Panic {
        PtSendInv(w, x, portid, msg, ptfree != NULL);
      }
      var s := porttab[portid].ptssem;
      if s.count - 1 < 0 {
        porttab := porttab[portid := porttab[portid].(ptssem := Sem(s.count - 1, s.waiting + [x]))];
        procs := procs[x := SendWait(portid, porttab[portid].ptseq, msg)];
        model := PtSend(w, x, portid, msg, true).0;
        HeadsSame(old(procs), procs, old(porttab), porttab, x);
        return Blocked;
      }
      porttab := porttab[portid := porttab[portid].(ptssem := Sem(s.count - 1, s.waiting))];
      SpaceSpent(w, portid);
      model := SetPort(w, portid, w.ports[portid].(ssem := Sem(s.count - 1, s.waiting)));
      r := Enqueue(portid, msg);
    }

    /** ptrecv: takes a promised message if there is one, or joins the receivers waiting. */
    method Ptrecv(x: int, portid: int) returns (r: Reply)
      requires Valid() && x !in procs
      modifies this`porttab, this`procs, this`model, this`nodes, this`ptfree, this`pool
      ensures Valid() && (model, r) == PtRecv(old(model), x, portid)
    {
      hide PoolOk, MessagesOf, Inv, InvBut, Collect;
      if IsBadPort(portid) {
        return SysErr;
      }
      EntrySems(porttab[portid], model.ports[portid], pool, portid);
      if porttab[portid].ptstate != PT_ALLOC {
        return SysErr;
      }
      ghost var w := model;
      PtRecvInv(w, x, portid);
      var s := porttab[portid].ptrsem;
      if s.count - 1 < 0 {
        porttab := porttab[portid := porttab[portid].(ptrsem := Sem(s.count - 1, s.waiting + [x]))];
        procs := procs[x := RecvWait(portid, porttab[portid].ptseq)];
        model := PtRecv(w, x, portid).0;
        HeadsSame(old(procs), procs, old(porttab), porttab, x);
        return Blocked;
      }
      porttab := porttab[portid := porttab[portid].(ptrsem := Sem(s.count - 1, s.waiting))];
      MessageSpent(w, portid);
      model := SetPort(w, portid, w.ports[portid].(rsem := Sem(s.count - 1, s.waiting)));
      r := Dequeue(portid);
    }

    /** A process let go inside ptsend or ptrecv runs: its port must be the one it started with. */
    method Run(x: int) returns (r: Reply)
      requires Valid() && x in procs && (procs[x].SendGranted? || procs[x].RecvGranted?)
      modifies this`porttab, this`procs, this`model, this`nodes, this`ptfree, this`pool
      ensures (model, r) == Continue(old(model), x, old(ptfree) != NULL)
      ensures r != Panic ==> Valid()
    {
      hide PoolOk, MessagesOf, Inv, InvBut, Collect, Deliver;
      ghost var w := model;
      var pr := procs[x];
      PortInRange(w, x);
      EntrySems(porttab[pr.port], model.ports[pr.port], pool, pr.port);
      if Continue(w, x, ptfree != NULL).1 != Panic {
        ContinueInv(w, x, ptfree != NULL);
      }
      procs := Without(procs, x);
      model := w.(procs := procs);
      if porttab[pr.port].ptstate != PT_ALLOC || porttab[pr.port].ptseq != pr.seqno {
        return SysErr;
      }
      TokenInHand(w, x);
      if pr.SendGranted? {
        r := Enqueue(pr.port, pr.msg);
      } else {
        r := Dequeue(pr.port);
      }
    }

    /** The walk over a port's messages, each handed to the disposal routine. */
    method DisposeAll(p: int) returns (disposed: seq<int>)
      requires 0 <= p < |porttab| && p < |pool.chains| && PoolOk(pool) && nodes == pool.nodes
      requires porttab[p].pthead == First(pool.chains[p])
      ensures disposed == MessagesOf(pool, p)
    {
      hide PoolOk, MessagesOf;
      var walk := porttab[p].pthead;
      ghost var chain, msgs := pool.chains[p], MessagesOf(pool, p);
      MessagesLength(pool, p);
      assert chain[0..] == chain;
      disposed := [];
      ghost var i := 0;
      while walk != NULL
        invariant 0 <= i <= |chain| && walk == First(chain[i..]) && disposed == msgs[..i]
        decreases |chain| - i
      {
        ChainStep(pool, p, i);
        disposed := disposed + [nodes[walk].ptmsg];
        walk := nodes[walk].ptnext;
        i := i + 1;
      }
      ChainEnd(pool, p, i);
    }

    /** Disposes of the messages and links the whole list into the free list. */
    method SpliceAll(p: int) returns (disposed: seq<int>)
      requires 0 <= p < |porttab| && p < |pool.chains| && PoolOk(pool) && nodes == pool.nodes && ptfree == First(pool.free)
      requires porttab[p].pthead == First(pool.chains[p]) && porttab[p].pttail == Last(pool.chains[p])
      modifies this`nodes, this`ptfree, this`pool
      ensures disposed == old(MessagesOf(pool, p))
      ensures (old(pool).chains[p] != [] ==> 0 <= Last(old(pool).chains[p]) < |old(pool).nodes|)
      ensures pool == Spliced(old(pool), p) && nodes == pool.nodes && ptfree == First(pool.free)
    {
      hide PoolOk, MessagesOf;
      SplicedParts(pool, p);
      MessagesLength(pool, p);
      disposed := [];
      if porttab[p].pthead != NULL {
        disposed := DisposeAll(p);
        nodes := nodes[porttab[p].pttail := nodes[porttab[p].pttail].(ptnext := ptfree)];
        ptfree := porttab[p].pthead;
      }
      pool := Spliced(pool, p);
    }

    /** _ptclear up to the reschedule after the space semaphore: limbo, sequence number, every
        message handed to the disposal routine in turn, nodes back to the pool, senders let go. */
    method PtclearStart(x: int, p: int, next: PtState) returns (disposed: seq<int>)
      requires Valid() && x !in procs && Usable(model, p) && next != PT_LIMBO
      modifies this`porttab, this`procs, this`model, this`nodes, this`ptfree, this`pool
      ensures Valid() && model == ClearStart(old(model), x, p, next).0
      ensures disposed == old(model).ports[p].msgs
      ensures multiset(pool.free) == multiset(old(pool).free) + multiset(old(pool).chains[p])
    {
      hide PoolOk, Inv, MessagesOf, Spliced;
      ghost var w := model;
      ClearStartInv(w, x, p, next);
      SplicedOk(pool, p);
      SplicedParts(pool, p);
      porttab := porttab[p := porttab[p].(ptstate := PT_LIMBO)];
      porttab := porttab[p := porttab[p].(ptseq := porttab[p].ptseq + 1)];
      disposed := SpliceAll(p);
      if next == PT_ALLOC {
        porttab := porttab[p := porttab[p].(pttail := NULL, pthead := NULL)];
      }
      var s := porttab[p].ptssem;
      porttab := porttab[p := porttab[p].(ptssem := Cleared(s, next, porttab[p].ptmaxcnt))];
      procs := GrantAll(procs, s.waiting)[x := Clearing(p, next, 1)];
      model := ClearStart(w, x, p, next).0;
      ClearStartHeads(w, x, p, next, old(porttab), porttab);
    }

    /** Up to the reschedule after the message semaphore: receivers let go. */
    method PtclearNext(x: int)
      requires Valid() && x in procs && procs[x].Clearing? && procs[x].phase == 1
      modifies this`porttab, this`procs, this`model
      ensures Valid() && model == ClearNext(old(model), x)
    {
      hide PoolOk, Inv, MessagesOf;
      ghost var w := model;
      ClearNextInv(w, x);
      PortInRange(w, x);
      var c := procs[x];
      var s := porttab[c.port].ptrsem;
      porttab := porttab[c.port := porttab[c.port].(ptrsem := Cleared(s, c.next, 0))];
      procs := GrantAll(procs, s.waiting)[x := c.(phase := 2)];
      model := ClearNext(w, x);
      ClearNextHeads(w, x, old(porttab), porttab);
    }

    /** The port gets its new state; deleting also makes it the first candidate for reuse. */
    method PtclearEnd(x: int)
      requires Valid() && x in procs && procs[x].Clearing? && procs[x].phase == 2
      modifies this`porttab, this`procs, this`model, this`ptnextid
      ensures Valid() && model == ClearEnd(old(model), x)
    {
      hide PoolOk, Inv;
      ghost var w := model;
      ClearEndInv(w, x);
      PortInRange(w, x);
      ClearingPort(w, x);
      var c := procs[x];
      MessagesLength(pool, c.port);
      porttab := porttab[c.port := porttab[c.port].(ptstate := c.next)];
      procs := Without(procs, x);
      if c.next == PT_FREE {
        ptnextid := c.port;
      }
      model := ClearEnd(w, x);
    }

    method Ptreset(x: int, portid: int) returns (r: Reply, disposed: seq<int>)
      requires Valid() && x !in procs
      modifies this`porttab, this`procs, this`model, this`nodes, this`ptfree, this`pool
      ensures Valid() && (model, r) == ClearStart(old(model), x, portid, PT_ALLOC)
      ensures r == Blocked ==> disposed == old(model).ports[portid].msgs
    {
      hide PoolOk, MessagesOf, Inv;
      disposed := [];
      if IsBadPort(portid) {
        return SysErr, disposed;
      }
      EntrySems(porttab[portid], model.ports[portid], pool, portid);
      if porttab[portid].ptstate != PT_ALLOC {
        return SysErr, disposed;
      }
      disposed := PtclearStart(x, portid, PT_ALLOC);
      return Blocked, disposed;
    }

    method Ptdelete(x: int, portid: int) returns (r: Reply, disposed: seq<int>)
      requires Valid() && x !in procs
      modifies this`porttab, this`procs, this`model, this`nodes, this`ptfree, this`pool
      ensures Valid() && (model, r) == ClearStart(old(model), x, portid, PT_FREE)
      ensures r == Blocked ==> disposed == old(model).ports[portid].msgs
    {
      hide PoolOk, MessagesOf, Inv;
      disposed := [];
      if IsBadPort(portid) {
        return SysErr, disposed;
      }
      EntrySems(porttab[portid], model.ports[portid], pool, portid);
      if porttab[portid].ptstate != PT_ALLOC {
        return SysErr, disposed;
      }
      disposed := PtclearStart(x, portid, PT_FREE);
      return Blocked, disposed;
    }

    /** Takes the next free entry, searching once around the table. */
    method Ptcreate(count: int) returns (p: int)
      requires Valid()
      modifies this`porttab, this`model, this`ptnextid
      ensures Valid()
      ensures p == -1 <==> count < 0 || forall q :: 0 <= q < nports ==> old(model).ports[q].state != PT_FREE
      ensures p == -1 ==> model == old(model)
      ensures p != -1 ==> 0 <= p < nports == |old(model).ports| && old(model).ports[p].state == PT_FREE
      ensures p != -1 ==> model == PtCreate(old(model), p, count)
    {
      hide PoolOk, MessagesOf, Inv;
      if count < 0 {
        return -1;
      }
      forall q | 0 <= q < nports ensures porttab[q].ptstate == model.ports[q].state {
        EntrySems(porttab[q], model.ports[q], pool, q);
      }
      ghost var start := ptnextid;
      for i := 0 to nports
        invariant 0 <= ptnextid < nports == |porttab| && porttab == old(porttab) && model == old(model)
        invariant ptnextid == if start + i < nports then start + i else start + i - nports
        invariant forall q :: 0 <= q < nports && (start <= q < start + i || q < start + i - nports) ==> porttab[q].ptstate != PT_FREE
      {
        var ptnum := ptnextid;
        ptnextid := ptnextid + 1;
        if ptnextid >= nports {
          ptnextid := 0;
        }
        if porttab[ptnum].ptstate == PT_FREE {
          PtCreateInv(model, ptnum, count);
          FreePortEmpty(model, ptnum);
          MessagesLength(pool, ptnum);
          porttab := porttab[ptnum := Entry(Sem(count, []), Sem(0, []), PT_ALLOC, count % 0x1_0000, porttab[ptnum].ptseq + 1, NULL, NULL)];
          HeadsKept(model, old(porttab), porttab, ptnum);
          model := PtCreate(model, ptnum, count);
          return ptnum;
        }
      }
      return -1;
    }

    /** A process inside the port routines is killed. */
    method Kill(x: int)
      requires Valid() && x in procs
      modifies this`porttab, this`procs, this`model
      ensures Valid() && 0 <= old(model).procs[x].port < |old(model).ports| && model == PortsSteps.Kill(old(model), x)
    {
      hide PoolOk, MessagesOf, Inv;
      ghost var w := model;
      PortInRange(w, x);
      KillInv(w, x);
      var pr := procs[x];
      procs := Without(procs, x);
      if pr.SendWait? {
        var s := porttab[pr.port].ptssem;
        porttab := porttab[pr.port := porttab[pr.port].(ptssem := Sem(s.count + 1, Removed(s.waiting, x)))];
      } else if pr.RecvWait? {
        var s := porttab[pr.port].ptrsem;
        porttab := porttab[pr.port := porttab[pr.port].(ptrsem := Sem(s.count + 1, Removed(s.waiting, x)))];
      }
      model := PortsSteps.Kill(w, x);
    }
  }
}
