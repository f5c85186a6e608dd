/** Every step of the port machine keeps the invariant. */
module PortsSafety {
  import opened PortsModel
  import opened PortsSteps

  lemma Grown(s: set<int>, t: set<int>, x: int)
    requires x !in s && t == s + {x}
    ensures |t| == |s| + 1
  {
  }

  /** signal for space: one more available, or one more promised. */
  lemma UpSendInv(w: World, p: int)
    requires InvBut(w, p, 1, 0) && w.ports[p].state == PT_ALLOC
    ensures InvBut(UpSend(w, p), p, 0, 0)
  {
    var t, u := w.ports[p], UpSend(w, p);
    if t.ssem.count < 0 {
      var y := t.ssem.waiting[0];
      assert y in t.ssem.waiting;
      assert GrantedS(u, p) == GrantedS(w, p) + {y};
      Grown(GrantedS(w, p), GrantedS(u, p), y);
      assert GrantedR(u, p) == GrantedR(w, p);
      FrontLeaves(t.ssem.waiting);
    } else {
      assert GrantedS(u, p) == GrantedS(w, p) && GrantedR(u, p) == GrantedR(w, p);
    }
    assert forall x :: Clears(u, x, p) <==> Clears(w, x, p);
    OnePort(w, u, p, 1, 0, 0, 0);
  }

  lemma FrontLeaves(s: seq<int>)
    requires Distinct(s) && s != []
    ensures Distinct(s[1..]) && forall x :: x in s[1..] <==> x in s && x != s[0]
  {
    assert forall i :: 0 <= i < |s[1..]| ==> s[1..][i] == s[i + 1];
    forall x | x in s && x != s[0] ensures x in s[1..] {
      var i :| 0 <= i < |s| && s[i] == x;
      assert s[1..][i - 1] == x;
    }
  }

  lemma UpRecvInv(w: World, p: int)
    requires InvBut(w, p, 0, 1) && w.ports[p].state == PT_ALLOC
    ensures InvBut(UpRecv(w, p), p, 0, 0)
  {
    var t, u := w.ports[p], UpRecv(w, p);
    if t.rsem.count < 0 {
      var y := t.rsem.waiting[0];
      assert y in t.rsem.waiting;
      assert GrantedR(u, p) == GrantedR(w, p) + {y};
      Grown(GrantedR(w, p), GrantedR(u, p), y);
      assert GrantedS(u, p) == GrantedS(w, p);
      FrontLeaves(t.rsem.waiting);
    } else {
      assert GrantedS(u, p) == GrantedS(w, p) && GrantedR(u, p) == GrantedR(w, p);
    }
    assert forall x :: Clears(u, x, p) <==> Clears(w, x, p);
    OnePort(w, u, p, 0, 1, 0, 0);
  }

  /** A change to the port's own record that moves tokens about. */
  lemma RecordInv(w: World, p: int, t: Port, ds: int, dr: int, es: int, er: int)
    requires InvBut(w, p, ds, dr) && w.ports[p].state == PT_ALLOC
    requires t.state == PT_ALLOC && t.seqno == w.ports[p].seqno && t.maxcnt == w.ports[p].maxcnt && t.cap == w.ports[p].cap
    requires t.ssem.waiting == w.ports[p].ssem.waiting && t.rsem.waiting == w.ports[p].rsem.waiting && SemOk(t.ssem) && SemOk(t.rsem)
    requires t.sent == t.got + t.msgs
    requires Avail(t.ssem) + |t.msgs| + t.lostS + es == Avail(w.ports[p].ssem) + |w.ports[p].msgs| + w.ports[p].lostS + ds
    requires Avail(t.rsem) + t.lostR - |t.msgs| + er == Avail(w.ports[p].rsem) + w.ports[p].lostR - |w.ports[p].msgs| + dr
    ensures InvBut(SetPort(w, p, t), p, es, er)
  {
    var u := SetPort(w, p, t);
    assert GrantedS(u, p) == GrantedS(w, p) && GrantedR(u, p) == GrantedR(w, p);
    assert forall x :: Clears(u, x, p) <==> Clears(w, x, p);
    OnePort(w, u, p, ds, dr, es, er);
  }

  lemma PutInv(w: World, p: int, msg: int)
    requires InvBut(w, p, 1, 0) && w.ports[p].state == PT_ALLOC
    ensures Inv(Put(w, p, msg))
  {
    var t := w.ports[p].(msgs := w.ports[p].msgs + [msg], sent := w.ports[p].sent + [msg]);
    assert w.ports[p].got + w.ports[p].msgs + [msg] == t.got + t.msgs;
    RecordInv(w, p, t, 1, 0, 0, 1);
    UpRecvInv(SetPort(w, p, t), p);
    Whole(Put(w, p, msg), p);
  }

  /** A promised message is there, and taking it gives its place back. */
  lemma CollectInv(w: World, p: int)
    requires InvBut(w, p, 0, 1) && w.ports[p].state == PT_ALLOC
    ensures w.ports[p].msgs != [] && Inv(Collect(w, p).0)
  {
    var o := w.ports[p];
    assert |o.msgs| >= 1;
    var t := o.(msgs := o.msgs[1..], got := o.got + [o.msgs[0]]);
    assert t.got + t.msgs == o.got + o.msgs;
    RecordInv(w, p, t, 0, 1, 1, 0);
    UpSendInv(SetPort(w, p, t), p);
    Whole(Collect(w, p).0, p);
  }

  /** A process leaves the port routines holding a token of the present incarnation. */
  lemma TokenInHand(w: World, x: int)
    requires Inv(w) && x in w.procs && !w.procs[x].Clearing? && !w.procs[x].SendWait? && !w.procs[x].RecvWait?
    requires Current(w, w.procs[x].port, w.procs[x].seqno)
    ensures var u, p := w.(procs := Without(w.procs, x)), w.procs[x].port;
            if w.procs[x].SendGranted? then InvBut(u, p, 1, 0) else InvBut(u, p, 0, 1)
  {
    var u, p := w.(procs := Without(w.procs, x)), w.procs[x].port;
    Whole(w, p);
    assert forall y :: Clears(u, y, p) <==> Clears(w, y, p);
    if w.procs[x].SendGranted? {
      SpaceInHand(w, x);
      hide TokensBut;
      OnePort(w, u, p, 0, 0, 1, 0);
    } else {
      MessageInHand(w, x);
      hide TokensBut;
      OnePort(w, u, p, 0, 0, 0, 1);
    }
  }

  lemma SpaceInHand(w: World, x: int)
    requires x in w.procs && w.procs[x].SendGranted? && Current(w, w.procs[x].port, w.procs[x].seqno)
    requires TokensBut(w, w.procs[x].port, 0, 0)
    ensures TokensBut(w.(procs := Without(w.procs, x)), w.procs[x].port, 1, 0)
  {
    var u, p := w.(procs := Without(w.procs, x)), w.procs[x].port;
    assert GrantedS(w, p) == GrantedS(u, p) + {x} && GrantedR(u, p) == GrantedR(w, p);
    Grown(GrantedS(u, p), GrantedS(w, p), x);
  }

  lemma MessageInHand(w: World, x: int)
    requires x in w.procs && w.procs[x].RecvGranted? && Current(w, w.procs[x].port, w.procs[x].seqno)
    requires TokensBut(w, w.procs[x].port, 0, 0)
    ensures TokensBut(w.(procs := Without(w.procs, x)), w.procs[x].port, 0, 1)
  {
    var u, p := w.(procs := Without(w.procs, x)), w.procs[x].port;
    assert GrantedR(w, p) == GrantedR(u, p) + {x} && GrantedS(u, p) == GrantedS(w, p);
    Grown(GrantedR(u, p), GrantedR(w, p), x);
  }

  /** A process of an earlier incarnation, or one that was only clearing, leaves without a trace. */
  lemma LeavesNothing(w: World, x: int)
    requires Inv(w) && x in w.procs && !w.procs[x].SendWait? && !w.procs[x].RecvWait?
    requires !w.procs[x].Clearing? ==> !Current(w, w.procs[x].port, w.procs[x].seqno)
    ensures Inv(w.(procs := Without(w.procs, x)))
  {
    var u, p := w.(procs := Without(w.procs, x)), w.procs[x].port;
    Whole(w, p);
    assert GrantedS(u, p) == GrantedS(w, p) && GrantedR(u, p) == GrantedR(w, p);
    assert forall y :: Clears(u, y, p) <==> Clears(w, y, p) && y != x;
    OnePort(w, u, p, 0, 0, 0, 0);
    Whole(u, p);
  }

  lemma SpaceSpent(w: World, p: int)
    requires Inv(w) && Usable(w, p) && w.ports[p].ssem.count - 1 >= 0
    ensures InvBut(SetPort(w, p, w.ports[p].(ssem := Sem(w.ports[p].ssem.count - 1, w.ports[p].ssem.waiting))), p, 1, 0)
  {
    Whole(w, p);
    RecordInv(w, p, w.ports[p].(ssem := Sem(w.ports[p].ssem.count - 1, w.ports[p].ssem.waiting)), 0, 0, 1, 0);
  }

  lemma MessageSpent(w: World, p: int)
    requires Inv(w) && Usable(w, p) && w.ports[p].rsem.count - 1 >= 0
    ensures InvBut(SetPort(w, p, w.ports[p].(rsem := Sem(w.ports[p].rsem.count - 1, w.ports[p].rsem.waiting))), p, 0, 1)
  {
    Whole(w, p);
    RecordInv(w, p, w.ports[p].(rsem := Sem(w.ports[p].rsem.count - 1, w.ports[p].rsem.waiting)), 0, 0, 0, 1);
  }

  lemma PtSendInv(w: World, x: int, p: int, msg: int, room: bool)
    requires Inv(w) && x !in w.procs && PtSend(w, x, p, msg, room).1 != Panic
    ensures Inv(PtSend(w, x, p, msg, room).0)
  {
    if Usable(w, p) {
      Whole(w, p);
      var t := w.ports[p];
      if t.ssem.count - 1 < 0 {
        JoinSendInv(w, x, p, msg);
      } else {
        SpaceSpent(w, p);
        PutInv(SetPort(w, p, t.(ssem := Sem(t.ssem.count - 1, t.ssem.waiting))), p, msg);
      }
    }
  }

  lemma BackGrows(s: seq<int>, x: int)
    requires Distinct(s) && x !in s
    ensures Distinct(s + [x]) && forall y :: y in s + [x] <==> y in s || y == x
  {
  }

  lemma JoinSendInv(w: World, x: int, p: int, msg: int)
    requires Inv(w) && x !in w.procs && Usable(w, p) && w.ports[p].ssem.count - 1 < 0
    ensures Inv(PtSend(w, x, p, msg, true).0)
  {
    var t, u := w.ports[p], PtSend(w, x, p, msg, true).0;
    Whole(w, p);
    BackGrows(t.ssem.waiting, x);
    assert GrantedS(u, p) == GrantedS(w, p) && GrantedR(u, p) == GrantedR(w, p);
    assert forall y :: Clears(u, y, p) <==> Clears(w, y, p);
    OnePort(w, u, p, 0, 0, 0, 0);
    Whole(u, p);
  }

  lemma PtRecvInv(w: World, x: int, p: int)
    requires Inv(w) && x !in w.procs
    ensures Inv(PtRecv(w, x, p).0)
    ensures Usable(w, p) ==> PtRecv(w, x, p).1 != SysErr
  {
    if Usable(w, p) {
      Whole(w, p);
      var t := w.ports[p];
      if t.rsem.count - 1 < 0 {
        JoinRecvInv(w, x, p);
      } else {
        MessageSpent(w, p);
        CollectInv(SetPort(w, p, t.(rsem := Sem(t.rsem.count - 1, t.rsem.waiting))), p);
      }
    }
  }

  lemma JoinRecvInv(w: World, x: int, p: int)
    requires Inv(w) && x !in w.procs && Usable(w, p) && w.ports[p].rsem.count - 1 < 0
    ensures Inv(PtRecv(w, x, p).0)
  {
    var t, u := w.ports[p], PtRecv(w, x, p).0;
    Whole(w, p);
    BackGrows(t.rsem.waiting, x);
    assert GrantedS(u, p) == GrantedS(w, p) && GrantedR(u, p) == GrantedR(w, p);
    assert forall y :: Clears(u, y, p) <==> Clears(w, y, p);
    OnePort(w, u, p, 0, 0, 0, 0);
    Whole(u, p);
  }

  /** Running again: a process of the present incarnation always succeeds, short of running out of
      nodes; one of an earlier incarnation gets SYSERR and changes no port. */
  lemma ContinueInv(w: World, x: int, room: bool)
    requires Inv(w) && x in w.procs && (w.procs[x].SendGranted? || w.procs[x].RecvGranted?)
    requires Continue(w, x, room).1 != Panic
    ensures Inv(Continue(w, x, room).0)
    ensures Continue(w, x, room).1 == SysErr <==> !Current(w, w.procs[x].port, w.procs[x].seqno)
    ensures Continue(w, x, room).1 == SysErr ==> Continue(w, x, room).0.ports == w.ports
  {
    var u, p := w.(procs := Without(w.procs, x)), w.procs[x].port;
    if Current(w, p, w.procs[x].seqno) {
      TokenInHand(w, x);
      if w.procs[x].SendGranted? {
        PutInv(u, p, w.procs[x].msg);
      } else {
        CollectInv(u, p);
      }
    } else {
      LeavesNothing(w, x);
    }
  }

  lemma ClearStartInv(w: World, x: int, p: int, next: PtState)
    requires Inv(w) && x !in w.procs && next != PT_LIMBO
    ensures Inv(ClearStart(w, x, p, next).0)
  {
    if Usable(w, p) {
      var t, u := w.ports[p], ClearStart(w, x, p, next).0;
      Whole(w, p);
      assert forall y :: Clears(u, y, p) <==> y == x;
      OnePort(w, u, p, 0, 0, 0, 0);
      Whole(u, p);
    }
  }

  lemma ClearNextInv(w: World, x: int)
    requires Inv(w) && x in w.procs && w.procs[x].Clearing? && w.procs[x].phase == 1
    ensures Inv(ClearNext(w, x))
  {
    var p, u := w.procs[x].port, ClearNext(w, x);
    Whole(w, p);
    assert Clears(w, x, p);
    forall y ensures Clears(u, y, p) <==> y == x {
      assert Clears(u, y, p) && y != x ==> Clears(w, y, p);
    }
    OnePort(w, u, p, 0, 0, 0, 0);
    Whole(u, p);
  }

  /** The port comes back empty, with all its space available and nobody of the old life waiting. */
  lemma ClearEndInv(w: World, x: int)
    requires Inv(w) && x in w.procs && w.procs[x].Clearing? && w.procs[x].phase == 2
    ensures Inv(ClearEnd(w, x))
    ensures 0 <= w.procs[x].port < |w.ports|
    ensures var t := ClearEnd(w, x).ports[w.procs[x].port];
            && t.state == w.procs[x].next && t.msgs == [] && t.ssem.waiting == [] && t.rsem.waiting == []
            && (t.state == PT_ALLOC ==> Avail(t.ssem) == t.cap && Avail(t.rsem) == 0)
  {
    var p, u := w.procs[x].port, ClearEnd(w, x);
    Whole(w, p);
    assert Clears(w, x, p);
    forall y ensures !Clears(u, y, p) {
      assert Clears(u, y, p) ==> Clears(w, y, p);
    }
    NothingGranted(w, u, p);
    OnePort(w, u, p, 0, 0, 0, 0);
    Whole(u, p);
  }

  lemma NothingGranted(w: World, u: World, p: int)
    requires 0 <= p < |w.ports| == |u.ports| && u.ports[p].seqno >= w.ports[p].seqno
    requires forall x :: x in w.procs && OfPort(w.procs[x], p) ==> w.procs[x].seqno < w.ports[p].seqno
    requires forall x :: x in u.procs ==> x in w.procs && u.procs[x] == w.procs[x]
    ensures GrantedS(u, p) == {} && GrantedR(u, p) == {}
  {
    forall x ensures x !in GrantedS(u, p) && x !in GrantedR(u, p) {
    }
  }

  lemma PtCreateInv(w: World, p: int, count: int)
    requires Inv(w) && 0 <= p < |w.ports| && w.ports[p].state == PT_FREE && count >= 0
    ensures Inv(PtCreate(w, p, count))
  {
    var u := PtCreate(w, p, count);
    Whole(w, p);
    NothingGranted(w, u, p);
    assert forall y :: Clears(u, y, p) <==> Clears(w, y, p);
    OnePort(w, u, p, 0, 0, 0, 0);
    Whole(u, p);
  }

  lemma FrontJoins(x: int, s: seq<int>)
    requires Distinct(s) && x !in s
    ensures Distinct([x] + s)
  {
  }

  lemma {:induction false} RemovedOne(s: seq<int>, x: int)
    requires Distinct(s) && x in s
    ensures |Removed(s, x)| == |s| - 1 && Distinct(Removed(s, x))
    ensures forall y :: y in Removed(s, x) <==> y in s && y != x
  {
    if s[0] == x {
      FrontLeaves(s);
    } else {
      FrontLeaves(s);
      RemovedOne(s[1..], x);
      FrontJoins(s[0], Removed(s[1..], x));
      assert forall y :: y in s <==> y == s[0] || y in s[1..];
    }
  }

  lemma KillWaiterInv(w: World, x: int)
    requires Inv(w) && x in w.procs && (w.procs[x].SendWait? || w.procs[x].RecvWait?)
    ensures Inv(Kill(w, x))
  {
    var p, u := w.procs[x].port, Kill(w, x);
    Whole(w, p);
    if w.procs[x].SendWait? {
      RemovedOne(w.ports[p].ssem.waiting, x);
    } else {
      RemovedOne(w.ports[p].rsem.waiting, x);
    }
    assert GrantedS(u, p) == GrantedS(w, p) && GrantedR(u, p) == GrantedR(w, p);
    assert forall y :: Clears(u, y, p) <==> Clears(w, y, p);
    OnePort(w, u, p, 0, 0, 0, 0);
    Whole(u, p);
  }

  lemma KillInv(w: World, x: int)
    requires Inv(w) && x in w.procs && 0 <= w.procs[x].port < |w.ports|
    ensures Inv(Kill(w, x))
  {
    var u, p := w.(procs := Without(w.procs, x)), w.procs[x].port;
    if w.procs[x].SendWait? || w.procs[x].RecvWait? {
      KillWaiterInv(w, x);
    } else if !w.procs[x].Clearing? && w.procs[x].seqno == w.ports[p].seqno {
      assert Current(w, p, w.procs[x].seqno) by { assert PortOk(w, p); }
      TokenInHand(w, x);
      var t := w.ports[p];
      if w.procs[x].SendGranted? {
        RecordInv(u, p, t.(lostS := t.lostS + 1), 1, 0, 0, 0);
      } else {
        RecordInv(u, p, t.(lostR := t.lostR + 1), 0, 1, 0, 0);
      }
      Whole(Kill(w, x), p);
    } else {
      LeavesNothing(w, x);
    }
  }

  lemma FreshModel(w: World)
    requires w.procs == map[] && forall p :: 0 <= p < |w.ports| ==> w.ports[p].state == PT_FREE && w.ports[p].msgs == []
    requires forall p :: 0 <= p < |w.ports| ==> w.ports[p].ssem == Sem(0, []) && w.ports[p].rsem == Sem(0, []) && w.ports[p].maxcnt == 0
    ensures Inv(w)
  {
    forall p | 0 <= p < |w.ports| ensures PortOk(w, p) {
    }
  }
}
