/** Waiting in the port routines: nobody is overtaken, what a waiting process asked for is kept until
    it runs, and a clearing ends as it was begun. */
module PortsFair {
  import opened PortsModel
  import opened PortsSteps
  import opened PortsSafety
  import opened PortsRun
  import opened PortsTraces

  function Actor(a: Act): int {
    match a
    case Create(_, _) => -1
    case Refused => -1
    case _ => a.x
  }

  /** A waiting process is let go, with the port, incarnation and message it came with. */
  predicate LetGo(was: map<int, Proc>, procs: map<int, Proc>, y: int) {
    && y in was && y in procs
    && match was[y]
       case SendWait(p, s, m) => procs[y] == SendGranted(p, s, m)
       case RecvWait(p, s) => procs[y] == RecvGranted(p, s)
       case _ => false
  }

  /** The front of a line was let go, in order, or its last has joined, or one in it was killed. */
  ghost predicate Orderly(was: map<int, Proc>, procs: map<int, Proc>, s: seq<int>, u: seq<int>, x: int) {
    || Shortened(was, procs, s, u)
    || (u == s + [x] && x !in was && x in procs)
    || (x in was && x !in procs && exists i :: 0 <= i < |s| && s[i] == x && u == s[..i] + s[i + 1..])
  }

  ghost predicate Shortened(was: map<int, Proc>, procs: map<int, Proc>, s: seq<int>, u: seq<int>) {
    exists n :: 0 <= n <= |s| && u == s[n..] && forall i :: 0 <= i < n ==> LetGo(was, procs, s[i])
  }

  lemma FrontShortens(was: map<int, Proc>, procs: map<int, Proc>, s: seq<int>, u: seq<int>)
    requires u == s || (s != [] && u == s[1..] && LetGo(was, procs, s[0]))
    ensures Shortened(was, procs, s, u)
  {
    if u == s {
      assert u == s[0..];
    }
  }

  /** Both lines of port q, and what befell y, from w to t by a step of x. */
  ghost predicate Fair(w: World, t: World, q: int, x: int, y: int) {
    && 0 <= q < |w.ports| == |t.ports|
    && Orderly(w.procs, t.procs, w.ports[q].ssem.waiting, t.ports[q].ssem.waiting, x)
    && Orderly(w.procs, t.procs, w.ports[q].rsem.waiting, t.ports[q].rsem.waiting, x)
    && (y in w.procs && y != x ==> y in t.procs && (t.procs[y] == w.procs[y] || LetGo(w.procs, t.procs, y)))
  }

  /** Only x has come, gone or changed so far, and nobody has left a line. */
  ghost predicate Mid(w: World, v: World, x: int) {
    && |v.ports| == |w.ports|
    && (forall q :: 0 <= q < |w.ports| ==> v.ports[q].ssem.waiting == w.ports[q].ssem.waiting)
    && (forall q :: 0 <= q < |w.ports| ==> v.ports[q].rsem.waiting == w.ports[q].rsem.waiting)
    && (forall y :: y != x ==> (y in v.procs <==> y in w.procs))
    && (forall y :: y != x && y in w.procs ==> v.procs[y] == w.procs[y])
  }

  lemma Lines(w: World, p: int)
    requires Inv(w) && 0 <= p < |w.ports|
    ensures var s := w.ports[p].ssem;
            (s.count < 0 ==> s.waiting != []) && forall y :: y in s.waiting <==> y in w.procs && w.procs[y].SendWait? && w.procs[y].port == p
    ensures var s := w.ports[p].rsem;
            (s.count < 0 ==> s.waiting != []) && forall y :: y in s.waiting <==> y in w.procs && w.procs[y].RecvWait? && w.procs[y].port == p
  {
    assert PortOk(w, p);
  }

  lemma MidFair(w: World, v: World, q: int, x: int, y: int)
    requires Mid(w, v, x) && 0 <= q < |w.ports|
    ensures Fair(w, v, q, x, y)
  {
    hide Shortened;
    FrontShortens(w.procs, v.procs, w.ports[q].ssem.waiting, w.ports[q].ssem.waiting);
    FrontShortens(w.procs, v.procs, w.ports[q].rsem.waiting, w.ports[q].rsem.waiting);
  }

  /** One signal: at most the front of one line goes, and nobody else is touched. */
  predicate Served(v: World, t: World, q: int, y: int) {
    && 0 <= q < |v.ports| == |t.ports|
    && Front(v.procs, t.procs, v.ports[q].ssem.waiting, t.ports[q].ssem.waiting)
    && Front(v.procs, t.procs, v.ports[q].rsem.waiting, t.ports[q].rsem.waiting)
    && (y in v.procs ==> y in t.procs && (t.procs[y] == v.procs[y] || LetGo(v.procs, t.procs, y)))
  }

  predicate Front(was: map<int, Proc>, procs: map<int, Proc>, s: seq<int>, u: seq<int>) {
    u == s || (s != [] && u == s[1..] && LetGo(was, procs, s[0]))
  }

  lemma UpSendServes(v: World, p: int, q: int, y: int)
    requires 0 <= p < |v.ports| && 0 <= q < |v.ports|
    requires var s := v.ports[p].ssem; s.count < 0 ==> s.waiting != [] && s.waiting[0] in v.procs && v.procs[s.waiting[0]].SendWait?
    ensures Served(v, UpSend(v, p), q, y)
  {
  }

  lemma UpRecvServes(v: World, p: int, q: int, y: int)
    requires 0 <= p < |v.ports| && 0 <= q < |v.ports|
    requires var s := v.ports[p].rsem; s.count < 0 ==> s.waiting != [] && s.waiting[0] in v.procs && v.procs[s.waiting[0]].RecvWait?
    ensures Served(v, UpRecv(v, p), q, y)
  {
  }

  /** x itself was not let go, so what went before does not matter. */
  lemma FrontServed(w: World, v: World, procs: map<int, Proc>, s: seq<int>, u: seq<int>, x: int)
    requires Mid(w, v, x) && Front(v.procs, procs, s, u) && x !in s
    ensures Shortened(w.procs, procs, s, u)
  {
    if s != [] {
      var y := s[0];
      assert y in s;
    }
    FrontShortens(w.procs, procs, s, u);
  }

  lemma ServedFair(w: World, v: World, t: World, q: int, x: int, y: int)
    requires Mid(w, v, x) && Served(v, t, q, y) && x !in w.ports[q].ssem.waiting && x !in w.ports[q].rsem.waiting
    ensures Fair(w, t, q, x, y)
  {
    hide Shortened, Front;
    FrontServed(w, v, t.procs, w.ports[q].ssem.waiting, t.ports[q].ssem.waiting, x);
    FrontServed(w, v, t.procs, w.ports[q].rsem.waiting, t.ports[q].rsem.waiting, x);
  }

  lemma UpSendFair(w: World, v: World, p: int, q: int, x: int, y: int)
    requires Inv(w) && Mid(w, v, x) && 0 <= p < |w.ports| && 0 <= q < |w.ports|
    requires v.ports[p].ssem.count == w.ports[p].ssem.count && (x in w.procs ==> !w.procs[x].SendWait? && !w.procs[x].RecvWait?)
    ensures Fair(w, UpSend(v, p), q, x, y)
  {
    hide Inv, Fair, UpSend, Served;
    FirstInLine(w, p, q);
    if w.ports[p].ssem.count < 0 {
      var z := w.ports[p].ssem.waiting[0];
      assert z in w.procs && z != x;
    }
    UpSendServes(v, p, q, y);
    ServedFair(w, v, UpSend(v, p), q, x, y);
  }

  lemma UpRecvFair(w: World, v: World, p: int, q: int, x: int, y: int)
    requires Inv(w) && Mid(w, v, x) && 0 <= p < |w.ports| && 0 <= q < |w.ports|
    requires v.ports[p].rsem.count == w.ports[p].rsem.count && (x in w.procs ==> !w.procs[x].SendWait? && !w.procs[x].RecvWait?)
    ensures Fair(w, UpRecv(v, p), q, x, y)
  {
    hide Inv, Fair, UpRecv, Served;
    FirstInLine(w, p, q);
    if w.ports[p].rsem.count < 0 {
      var z := w.ports[p].rsem.waiting[0];
      assert z in w.procs && z != x;
    }
    UpRecvServes(v, p, q, y);
    ServedFair(w, v, UpRecv(v, p), q, x, y);
  }

  lemma FirstInLine(w: World, p: int, q: int)
    requires Inv(w) && 0 <= p < |w.ports| && 0 <= q < |w.ports|
    ensures var s := w.ports[p].ssem; s.count < 0 ==> s.waiting != [] && s.waiting[0] in w.procs && w.procs[s.waiting[0]].SendWait?
    ensures var s := w.ports[p].rsem; s.count < 0 ==> s.waiting != [] && s.waiting[0] in w.procs && w.procs[s.waiting[0]].RecvWait?
    ensures forall x :: x in w.ports[q].ssem.waiting ==> x in w.procs && w.procs[x].SendWait?
    ensures forall x :: x in w.ports[q].rsem.waiting ==> x in w.procs && w.procs[x].RecvWait?
  {
    hide Inv;
    Lines(w, p);
    Lines(w, q);
    var s, r := w.ports[p].ssem.waiting, w.ports[p].rsem.waiting;
    if s != [] {
      var y := s[0];
      assert y in s;
    }
    if r != [] {
      var y := r[0];
      assert y in r;
    }
  }

  lemma SendFair(w: World, x: int, p: int, msg: int, room: bool, q: int, y: int)
    requires Inv(w) && x !in w.procs && 0 <= q < |w.ports|
    ensures Fair(w, PtSend(w, x, p, msg, room).0, q, x, y)
  {
    hide Inv, UpRecv, Fair;
    if !Usable(w, p) {
      MidFair(w, w, q, x, y);
    } else {
      Lines(w, p);
      var t := w.ports[p];
      var v := SetPort(w, p, t.(ssem := Sem(t.ssem.count - 1, t.ssem.waiting)));
      if t.ssem.count - 1 < 0 {
        JoinFair(w, PtSend(w, x, p, msg, room).0, p, q, x, y);
      } else if room {
        UpRecvFair(w, SetPort(v, p, v.ports[p].(msgs := t.msgs + [msg], sent := t.sent + [msg])), p, q, x, y);
      } else {
        MidFair(w, v, q, x, y);
      }
    }
  }

  /** x has joined one of port p's lines, at its end. */
  lemma JoinFair(w: World, t: World, p: int, q: int, x: int, y: int)
    requires x !in w.procs && x in t.procs && t.procs == w.procs[x := t.procs[x]]
    requires 0 <= p < |w.ports| == |t.ports| && 0 <= q < |w.ports|
    requires forall r :: 0 <= r < |w.ports| && r != p ==> t.ports[r] == w.ports[r]
    requires var a, b := w.ports[p].ssem.waiting, t.ports[p].ssem.waiting; b == a || b == a + [x]
    requires var a, b := w.ports[p].rsem.waiting, t.ports[p].rsem.waiting; b == a || b == a + [x]
    ensures Fair(w, t, q, x, y)
  {
    hide Shortened;
    FrontShortens(w.procs, t.procs, w.ports[q].ssem.waiting, w.ports[q].ssem.waiting);
    FrontShortens(w.procs, t.procs, w.ports[q].rsem.waiting, w.ports[q].rsem.waiting);
  }

  lemma RecvFair(w: World, x: int, p: int, q: int, y: int)
    requires Inv(w) && x !in w.procs && 0 <= q < |w.ports|
    ensures Fair(w, PtRecv(w, x, p).0, q, x, y)
  {
    hide Inv, UpSend, Fair;
    if !Usable(w, p) {
      MidFair(w, w, q, x, y);
    } else {
      Lines(w, p);
      var t := w.ports[p];
      var v := SetPort(w, p, t.(rsem := Sem(t.rsem.count - 1, t.rsem.waiting)));
      if t.rsem.count - 1 < 0 {
        JoinFair(w, PtRecv(w, x, p).0, p, q, x, y);
      } else if t.msgs != [] {
        UpSendFair(w, Dequeued(v, p), p, q, x, y);
      } else {
        MidFair(w, v, q, x, y);
      }
    }
  }

  lemma ContinueFair(w: World, x: int, room: bool, q: int, y: int)
    requires Inv(w) && x in w.procs && (w.procs[x].SendGranted? || w.procs[x].RecvGranted?) && 0 <= q < |w.ports|
    ensures Fair(w, Continue(w, x, room).0, q, x, y)
  {
    hide Inv, UpSend, UpRecv, Fair;
    var v, p := w.(procs := Without(w.procs, x)), w.procs[x].port;
    if !Current(w, p, w.procs[x].seqno) {
      MidFair(w, v, q, x, y);
    } else {
      Lines(w, p);
      var t := w.ports[p];
      if w.procs[x].SendGranted? {
        if room {
          UpRecvFair(w, SetPort(v, p, t.(msgs := t.msgs + [w.procs[x].msg], sent := t.sent + [w.procs[x].msg])), p, q, x, y);
        } else {
          MidFair(w, v, q, x, y);
        }
      } else if t.msgs != [] {
        UpSendFair(w, Dequeued(v, p), p, q, x, y);
      } else {
        MidFair(w, v, q, x, y);
      }
    }
  }

  /** A whole line is let go. */
  lemma AllShorten(was: map<int, Proc>, procs: map<int, Proc>, s: seq<int>)
    requires forall i :: 0 <= i < |s| ==> LetGo(was, procs, s[i])
    ensures Shortened(was, procs, s, [])
  {
    assert s[|s|..] == [];
  }

  /** Everyone in ws was let go, and only x is new. */
  lemma GrantAllLetsGo(was: map<int, Proc>, ws: seq<int>, x: int, c: Proc)
    requires x !in ws && forall y :: y in ws ==> y in was && (was[y].SendWait? || was[y].RecvWait?)
    ensures var procs := GrantAll(was, ws)[x := c];
            && (forall y :: y in was && y != x ==> y in procs && procs[y] == if y in ws then Granted(was[y]) else was[y])
            && Shortened(was, procs, ws, [])
  {
    var procs := GrantAll(was, ws)[x := c];
    forall i | 0 <= i < |ws| ensures LetGo(was, procs, ws[i]) {
      assert ws[i] in ws;
    }
    AllShorten(was, procs, ws);
  }

  lemma ClearStartFair(w: World, x: int, p: int, next: PtState, q: int, y: int)
    requires Inv(w) && x !in w.procs && 0 <= q < |w.ports|
    ensures Fair(w, ClearStart(w, x, p, next).0, q, x, y)
  {
    hide Inv, Shortened, GrantAll;
    var t := ClearStart(w, x, p, next).0;
    FrontShortens(w.procs, t.procs, w.ports[q].ssem.waiting, w.ports[q].ssem.waiting);
    FrontShortens(w.procs, t.procs, w.ports[q].rsem.waiting, w.ports[q].rsem.waiting);
    if Usable(w, p) {
      FirstInLine(w, p, p);
      GrantAllLetsGo(w.procs, w.ports[p].ssem.waiting, x, Clearing(p, next, 1));
    }
  }

  lemma ClearNextFair(w: World, x: int, q: int, y: int)
    requires Inv(w) && x in w.procs && w.procs[x].Clearing? && 0 <= q < |w.ports|
    ensures Fair(w, ClearNext(w, x), q, x, y)
  {
    hide Inv, Shortened, GrantAll;
    var t, p := ClearNext(w, x), w.procs[x].port;
    FrontShortens(w.procs, t.procs, w.ports[q].ssem.waiting, w.ports[q].ssem.waiting);
    FrontShortens(w.procs, t.procs, w.ports[q].rsem.waiting, w.ports[q].rsem.waiting);
    if 0 <= p < |w.ports| {
      FirstInLine(w, p, p);
      GrantAllLetsGo(w.procs, w.ports[p].rsem.waiting, x, w.procs[x].(phase := 2));
    }
  }

  lemma {:induction false} RemovedSplits(s: seq<int>, x: int) returns (i: nat)
    requires x in s
    ensures i < |s| && s[i] == x && Removed(s, x) == s[..i] + s[i + 1..]
  {
    if s[0] == x {
      i := 0;
    } else {
      i := RemovedSplits(s[1..], x);
      i := i + 1;
      assert s[..i] == [s[0]] + s[1..][..i - 1] && s[i + 1..] == s[1..][i..];
    }
  }

  /** A killed waiter leaves the line it was in. */
  lemma KilledLine(was: map<int, Proc>, procs: map<int, Proc>, s: seq<int>, x: int)
    requires x in was && x !in procs && x in s
    ensures Orderly(was, procs, s, Removed(s, x), x)
  {
    hide Shortened;
    var i := RemovedSplits(s, x);
  }

  lemma SameLine(was: map<int, Proc>, procs: map<int, Proc>, s: seq<int>, x: int)
    ensures Orderly(was, procs, s, s, x)
  {
    hide Shortened;
    FrontShortens(was, procs, s, s);
  }

  lemma KillFair(w: World, x: int, q: int, y: int)
    requires Inv(w) && x in w.procs && 0 <= w.procs[x].port < |w.ports| && 0 <= q < |w.ports|
    ensures Fair(w, PortsSteps.Kill(w, x), q, x, y)
  {
    hide Inv, Orderly, Removed;
    var t, p := PortsSteps.Kill(w, x), w.procs[x].port;
    SameLine(w.procs, t.procs, w.ports[q].ssem.waiting, x);
    SameLine(w.procs, t.procs, w.ports[q].rsem.waiting, x);
    Lines(w, p);
    if w.procs[x].SendWait? {
      KilledLine(w.procs, t.procs, w.ports[p].ssem.waiting, x);
    } else if w.procs[x].RecvWait? {
      KilledLine(w.procs, t.procs, w.ports[p].rsem.waiting, x);
    }
  }

  /** In every step each line of a port is served from the front, or grows at its end, or loses a
      process that is killed; and a process that does not act itself is at most let go. */
  lemma DoFair(w: World, a: Act, nodes: nat, q: int, y: int)
    requires Inv(w) && Enabled(w, a) && 0 <= q < |w.ports|
    ensures Fair(w, Do(w, a, nodes).0, q, Actor(a), y)
  {
    hide Inv, Fair, Room, PtSend, PtRecv, Continue, ClearStart, ClearNext, PortsSteps.Kill;
    match a {
      case Send(x, p, m) => SendFair(w, x, p, m, Room(w, nodes), q, y);
      case Recv(x, p) => RecvFair(w, x, p, q, y);
      case Run(x) => ContinueFair(w, x, Room(w, nodes), q, y);
      case Reset(x, p) => ClearStartFair(w, x, p, PT_ALLOC, q, y);
      case Delete(x, p) => ClearStartFair(w, x, p, PT_FREE, q, y);
      case ClearMore(x) => ClearNextFair(w, x, q, y);
      case ClearLast(x) => MidFair(w, ClearEnd(w, x), q, x, y);
      case Kill(x) => KillFair(w, x, q, y);
      case Create(p, count) => FreeLines(w, p); MidFair(w, PtCreate(w, p, count), q, -1, y);
      case Refused => MidFair(w, w, q, -1, y);
    }
  }

  lemma FreeLines(w: World, p: int)
    requires Inv(w) && 0 <= p < |w.ports| && w.ports[p].state == PT_FREE
    ensures w.ports[p].ssem.waiting == [] && w.ports[p].rsem.waiting == []
  {
    assert PortOk(w, p);
  }

  // ---- what is kept until it is used -----------------------------------------

  /** The part of a process's record that waiting does not change. */
  predicate SameCall(c: Proc, d: Proc) {
    && c.port == d.port
    && (Sending(c) ==> Sending(d) && d.msg == c.msg && d.seqno == c.seqno)
    && (c.RecvWait? || c.RecvGranted? ==> (d.RecvWait? || d.RecvGranted?) && d.seqno == c.seqno)
    && (c.Clearing? ==> d.Clearing? && d.next == c.next)
  }

  /** y neither continues nor ends its call, nor is killed. */
  predicate LeavesAlone(a: Act, y: int) {
    a != Run(y) && a != ClearLast(y) && a != Act.Kill(y)
  }

  lemma DoKeepsCall(w: World, a: Act, nodes: nat, y: int)
    requires Inv(w) && Enabled(w, a) && y in w.procs && LeavesAlone(a, y)
    ensures y in Do(w, a, nodes).0.procs && SameCall(w.procs[y], Do(w, a, nodes).0.procs[y])
  {
    hide PortOk, Orderly, Do;
    assert 0 <= w.procs[y].port < |w.ports|;
    if Actor(a) != y {
      DoFair(w, a, nodes, w.procs[y].port, y);
    } else {
      OwnStep(w, a, nodes, y);
    }
  }

  lemma OwnStep(w: World, a: Act, nodes: nat, y: int)
    requires Enabled(w, a) && y in w.procs && LeavesAlone(a, y) && Actor(a) == y
    requires 0 <= w.procs[y].port < |w.ports|
    ensures y in Do(w, a, nodes).0.procs && SameCall(w.procs[y], Do(w, a, nodes).0.procs[y])
  {
  }

  /** Over any run a process in the middle of a call keeps its port, its incarnation, and what it
      sends or what the port is to become. */
  lemma {:induction false} CallKept(w: World, acts: seq<Act>, nodes: nat, y: int)
    requires Inv(w) && Runs(w, acts, nodes) && y in w.procs
    requires forall i :: 0 <= i < |acts| ==> LeavesAlone(acts[i], y)
    ensures var t := After(w, acts, nodes); Inv(t) && y in t.procs && SameCall(w.procs[y], t.procs[y])
    decreases |acts|
  {
    hide Inv, Do;
    if acts != [] {
      assert LeavesAlone(acts[0], y);
      DoInv(w, acts[0], nodes);
      DoKeepsCall(w, acts[0], nodes, y);
      CallKept(Do(w, acts[0], nodes).0, acts[1..], nodes, y);
    }
  }

  /** A sender that had to wait sends the message it was called with, to the port it was called with,
      when it runs, if the port is still the one it waited on. */
  lemma WaiterSends(w: World, x: int, p: int, msg: int, acts: seq<Act>, nodes: nat)
    requires Inv(w) && x !in w.procs && Do(w, Send(x, p, msg), nodes).1 == Blocked
    requires Runs(Do(w, Send(x, p, msg), nodes).0, acts, nodes) && forall i :: 0 <= i < |acts| ==> LeavesAlone(acts[i], x)
    requires Enabled(After(Do(w, Send(x, p, msg), nodes).0, acts, nodes), Run(x))
    ensures var t := After(Do(w, Send(x, p, msg), nodes).0, acts, nodes);
            var (u, r) := Do(t, Run(x), nodes);
            && InUse(w, p) && |t.ports| == |w.ports|
            && (r == SysErr <==> !(InUse(t, p) && t.ports[p].seqno == w.ports[p].seqno))
            && (r == Ok ==> InUse(u, p) && u.ports[p].sent == t.ports[p].sent + [msg])
  {
    hide Inv, Room;
    var b := Do(w, Send(x, p, msg), nodes).0;
    var t := After(b, acts, nodes);
    DoInv(w, Send(x, p, msg), nodes);
    WaitsWith(w, x, p, msg, nodes);
    hide Do;
    CallKept(b, acts, nodes, x);
    PortsStay(b, acts, nodes);
    RunAnswers(t, x, nodes);
    if InUse(t, p) {
      RunUsable(t, x, nodes, p);
    }
  }

  lemma WaitsWith(w: World, x: int, p: int, msg: int, nodes: nat)
    requires x !in w.procs && Do(w, Send(x, p, msg), nodes).1 == Blocked
    ensures var t := Do(w, Send(x, p, msg), nodes).0;
            InUse(w, p) && |t.ports| == |w.ports| && x in t.procs && t.procs[x] == SendWait(p, w.ports[p].seqno, msg)
  {
    hide UpRecv;
  }

  lemma {:induction false} PortsStay(w: World, acts: seq<Act>, nodes: nat)
    requires Inv(w) && Runs(w, acts, nodes)
    ensures |After(w, acts, nodes).ports| == |w.ports|
    decreases |acts|
  {
    if acts != [] {
      hide Inv, Do;
      DoInv(w, acts[0], nodes);
      SamePorts(w, acts[0], nodes);
      PortsStay(Do(w, acts[0], nodes).0, acts[1..], nodes);
    }
  }

  lemma SamePorts(w: World, a: Act, nodes: nat)
    requires Enabled(w, a)
    ensures |Do(w, a, nodes).0.ports| == |w.ports|
  {
  }

  lemma RunUsable(t: World, x: int, nodes: nat, p: int)
    requires Inv(t) && Enabled(t, Run(x)) && t.procs[x].port == p && InUse(t, p)
    ensures var (u, r) := Do(t, Run(x), nodes);
            InUse(u, p) && u.ports[p].sent == t.ports[p].sent + SentNow(t, Run(x), r, p)
  {
    hide Inv, Room;
    ContinueMoves(t, x, Room(t, nodes), p);
  }

  /** However it is interleaved, a reset brings the port back and a delete frees it. */
  lemma ClearingEnds(w: World, a: Act, acts: seq<Act>, nodes: nat)
    requires Inv(w) && Enabled(w, a) && (a.Reset? || a.Delete?) && InUse(w, a.port)
    requires Runs(Do(w, a, nodes).0, acts, nodes) && forall i :: 0 <= i < |acts| ==> LeavesAlone(acts[i], a.x)
    requires Enabled(After(Do(w, a, nodes).0, acts, nodes), ClearLast(a.x))
    ensures var u := Do(After(Do(w, a, nodes).0, acts, nodes), ClearLast(a.x), nodes).0;
            && a.port < |u.ports| && u.ports[a.port].state == (if a.Reset? then PT_ALLOC else PT_FREE)
            && u.ports[a.port].msgs == u.ports[a.port].got == u.ports[a.port].sent == []
  {
    hide Inv, Room;
    var b := Do(w, a, nodes).0;
    var t := After(b, acts, nodes);
    DoInv(w, a, nodes);
    ClearsWith(w, a, nodes);
    CallKept(b, acts, nodes, a.x);
    PortsStay(b, acts, nodes);
    LimboEmpty(t, a.x);
  }

  lemma ClearsWith(w: World, a: Act, nodes: nat)
    requires Enabled(w, a) && (a.Reset? || a.Delete?) && InUse(w, a.port)
    ensures var t := Do(w, a, nodes).0;
            && |t.ports| == |w.ports| && a.x in t.procs && Do(w, a, nodes).1 != Panic
            && t.procs[a.x] == Clearing(a.port, if a.Reset? then PT_ALLOC else PT_FREE, 1)
  {
  }

  lemma LimboEmpty(t: World, x: int)
    requires Inv(t) && x in t.procs && t.procs[x].Clearing?
    ensures 0 <= t.procs[x].port < |t.ports| && t.ports[t.procs[x].port].msgs == []
  {
    assert PortOk(t, t.procs[x].port) && Clears(t, x, t.procs[x].port);
  }
}
