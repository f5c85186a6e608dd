/** When the current process goes on and when it gives way: exactly the calls that make somebody
    eligible, yield, or end the time slice let the next process of equal priority run. */
module KernelTurns {
  import opened Queues
  import opened Delta
  import opened KernelModel
  import S = KernelSteps
  import O = KernelOps
  import C = KernelCalls
  import opened KernelRun
  import opened KernelEffects
  import opened KernelTraces

  /** If c is still running it outranks everybody who is ready. */
  ghost predicate GaveWay(t: State, c: int) {
    t.cur == c ==> t.ready in t.lists && 0 <= t.cur < |t.procs| && FirstKey(t.lists[t.ready]) < t.procs[t.cur].prio
  }

  /** The calls that ask for a reschedule while their caller stays eligible. */
  predicate Yields(k: State, a: Act) {
    || LetThrough(k, a) != []
    || (MailOf(k, a).Mail? && k.procs[MailOf(k, a).pid].state in {RECV, RECTIM})
    || (a.Resume? && 0 <= a.pid < |k.procs| && k.procs[a.pid].state == SUSP)
    || a.Yield? || (a.Sleepms? && a.ticks == 0) || (a.ClockTick? && k.preempt <= 1)
  }

  lemma ReschedTurns(u: State, but: int)
    requires InvBut(u, but) && u.ndefers == 0 && u.procs[u.cur].state != READY
    ensures GaveWay(S.Resched(u), u.cur)
  {
    hide InvBut, Placed, SemsOk, NullOk;
    S.RangeFacts(u, but);
    if u.procs[u.cur].state == CURR {
      if u.procs[u.cur].prio <= FirstKey(u.lists[u.ready]) {
        NextRuns(u, but);
      }
    } else {
      S.SomeoneReady(u, but);
    }
  }

  /** Somebody of equal or higher priority is ready, and the first of them gets the processor. */
  lemma NextRuns(u: State, but: int)
    requires InvBut(u, but) && u.procs[u.cur].state == CURR && u.procs[u.cur].prio <= FirstKey(u.lists[u.ready])
    ensures S.Dispatched(S.Preempted(u)).cur == u.lists[u.ready][0].pid != u.cur
  {
    var s, it := u.lists[u.ready], Item(u.cur, u.procs[u.cur].prio);
    S.CurrentNowhere(u, but);
    HasAt(s, 0);
    assert InsertedByKey(s, it)[0] == s[0];
    S.HomeOnly(u, but, s[0].pid, u.ready);
  }

  lemma StopTurns(u: State, but: int)
    requires InvBut(u, but) && u.ndefers == 1 && u.attempt && u.procs[u.cur].state == CURR
    ensures GaveWay(S.DeferStop(u), u.cur)
  {
    hide InvBut, S.Resched, GaveWay;
    var t := u.(ndefers := 0);
    S.BookkeepingInv(u, t, but);
    ReschedTurns(t, but);
  }

  /** Releasing somebody under a deferral asks for a reschedule. */
  lemma ReleaseAsks(was: State, d: State, t: State, s: seq<Item>)
    requires O.Quiet(was, t) && d.procs == was.procs && d.cur == was.cur && Readied(d, t, s) && s != []
    requires 0 <= was.cur < |was.procs| && was.procs[was.cur].state == CURR
    requires forall i :: 0 <= i < |s| ==> 0 <= s[i].pid < |was.procs| && was.procs[s[i].pid].state in {WAIT, SLEEP, RECTIM}
    ensures t.attempt && t.ndefers == 1 && t.cur == was.cur && t.procs[t.cur].state == CURR
  {
    HasAt(s, 0);
    assert t.procs[s[0].pid].state == READY;
  }

  lemma WaitersWait(k: State, but: int, i: int)
    requires InvBut(k, but) && 0 <= i < |k.sems|
    ensures var w := O.Waiters(k, i); forall j :: 0 <= j < |w| ==> 0 <= w[j].pid < |k.procs| && k.procs[w[j].pid].state == WAIT
  {
    var w := O.Waiters(k, i);
    forall j | 0 <= j < |w| ensures 0 <= w[j].pid < |k.procs| && k.procs[w[j].pid].state == WAIT {
      HasAt(w, j);
      assert Has(k.lists[k.sems[i].queue], w[j].pid) <==> OnQueue(k, w[j].pid, k.sems[i].queue);
    }
  }

  lemma SignalTurns(k: State, i: int)
    requires Stable(k) && LetThrough(k, Act.Signal(i)) != []
    ensures GaveWay(O.Signal(k, i), k.cur)
  {
    hide Stable, InvBut, GaveWay, S.Resched, S.MakeReady;
    C.StableParts(k);
    WaitersCount(k, i);
    O.SignalOneCore(k, i);
    var t := S.SetSem(k, i, true, k.sems[i].count + 1);
    O.ReleasedInv(t, i);
    ReschedTurns(S.MakeReady(t, t.lists[t.sems[i].queue := t.lists[t.sems[i].queue][1..]], O.Waiters(k, i)[0].pid), i);
  }

  lemma SignalnTurns(k: State, i: int, n: int)
    requires Stable(k) && LetThrough(k, Signaln(i, n)) != []
    ensures GaveWay(O.Signaln(k, i, n), k.cur)
  {
    hide Stable, InvBut, GaveWay, S.DeferStop, O.SignalLoop, O.Quiet, Has;
    C.StableParts(k);
    WaitersWait(k, -1, i);
    var d := S.DeferStart(k);
    var t := O.SignalLoop(d, i, n);
    O.DeferStartQuiet(k, -1);
    SignalLoopReadies(k, d, i, n);
    O.SignalLoopInv(k, d, i, n);
    ReleaseAsks(k, d, t, FirstOf(O.Waiters(k, i), n));
    StopTurns(t, -1);
  }

  lemma SemresetTurns(k: State, i: int, n: int)
    requires Stable(k) && LetThrough(k, Semreset(i, n)) != []
    ensures GaveWay(O.Semreset(k, i, n), k.cur)
  {
    hide Stable, InvBut, GaveWay, S.DeferStop, O.ReleaseN, O.Quiet, Has;
    C.StableParts(k);
    WaitersWait(k, -1, i);
    var d, w := S.DeferStart(k), O.Waiters(k, i);
    O.DeferStartQuiet(k, -1);
    S.OutOfStep(d, i);
    ReleaseNReadies(k, d, i, |w|);
    O.ReleaseNInv(k, d, i, |w|);
    var t := O.ReleaseN(d, i, |w|);
    ReleaseAsks(k, d, t, w[..|w|]);
    S.SetSemInv(t, i, true, n);
    StopTurns(S.SetSem(t, i, true, n), i);
  }

  lemma SemdeleteTurns(k: State, i: int)
    requires Stable(k) && LetThrough(k, Semdelete(i)) != []
    ensures GaveWay(O.Semdelete(k, i), k.cur)
  {
    hide Stable, InvBut, GaveWay, S.DeferStop, O.ReleaseN, O.Quiet, Has;
    C.StableParts(k);
    WaitersWait(k, -1, i);
    var c, w := k.sems[i].count, O.Waiters(k, i);
    var e := S.SetSem(S.DeferStart(k), i, false, c);
    O.SemdeleteCore(k, i);
    ReleaseNReadies(k, e, i, |w|);
    O.ReleaseNInv(k, e, i, |w|);
    var t := O.ReleaseN(e, i, |w|);
    ReleaseAsks(k, e, t, w[..|w|]);
    S.SetSemInv(t, i, false, if c < 0 then 1 else c + 1);
    StopTurns(S.SetSem(t, i, false, if c < 0 then 1 else c + 1), i);
  }

  lemma SendTurns(k: State, p: int, msg: int)
    requires Stable(k) && !O.BadPid(k, p) && !k.procs[p].hasmsg && k.procs[p].state in {RECV, RECTIM}
    ensures GaveWay(C.Send(k, p, msg), k.cur)
  {
    hide Stable, InvBut, GaveWay, S.Resched, O.DelayOff, S.Detached;
    C.StableParts(k);
    var t := C.Delivered(k, p, msg);
    S.MessageInv(k, t, p, -1);
    var l := if k.procs[p].state == RECV then t.lists else O.DelayOff(t, p);
    MessageDetached(t, p);
    S.MakeReadyInv(t, l, p, -1);
    S.DetachedFacts(t, l, p, -1);
    ReschedTurns(S.MakeReady(t, l, p), -1);
  }

  lemma ResumeTurns(k: State, p: int)
    requires Stable(k) && 0 <= p < |k.procs| && k.procs[p].state == SUSP
    ensures GaveWay(C.Resume(k, p), k.cur)
  {
    hide Stable, InvBut, GaveWay, S.Resched;
    C.StableParts(k);
    S.DetachedNone(k, p, -1);
    S.MakeReadyInv(k, k.lists, p, -1);
    S.RangeFacts(k, -1);
    ReschedTurns(S.MakeReady(k, k.lists, p), -1);
  }

  lemma SleptTurns(k: State)
    requires Stable(k) && LetThrough(k, Act.ClockTick) != []
    ensures GaveWay(C.Slept(k), k.cur) && SliceKept(k, C.Slept(k))
  {
    hide Stable, InvBut, GaveWay, S.DeferStop, C.WakeN, O.Quiet, Due, Ticked, Has;
    C.StableParts(k);
    S.RangeFacts(k, -1);
    var s := k.lists[k.sleepq];
    C.DecrementedStable(k);
    var d := C.Decremented(k);
    C.StableParts(d);
    O.DeferStartQuiet(d, -1);
    var e, n := S.DeferStart(d), Due(Ticked(s));
    WakeNReadies(d, e, n);
    C.WakeNInv(d, e, n);
    var t := C.WakeN(e, n);
    SleepersSleep(d);
    ReleaseAsks(d, e, t, Ticked(s)[..n]);
    StopTurns(t, -1);
    DeferStopAlike(t, -1);
  }

  lemma SleepersSleep(k: State)
    requires Inv(k)
    ensures k.sleepq in k.lists
    ensures var s := k.lists[k.sleepq]; forall j :: 0 <= j < |s| ==> 0 <= s[j].pid < |k.procs| && k.procs[s[j].pid].state in {SLEEP, RECTIM}
  {
    var s := k.lists[k.sleepq];
    forall j | 0 <= j < |s| ensures 0 <= s[j].pid < |k.procs| && k.procs[s[j].pid].state in {SLEEP, RECTIM} {
      HasAt(s, j);
      assert Has(k.lists[k.sleepq], s[j].pid) <==> OnQueue(k, s[j].pid, k.sleepq);
    }
  }

  lemma ClockTurns(k: State)
    requires Stable(k) && (LetThrough(k, Act.ClockTick) != [] || k.preempt <= 1)
    ensures GaveWay(C.Clock(k), k.cur)
  {
    hide Stable, InvBut, S.Resched, C.Slept;
    C.StableParts(k);
    C.SleptStable(k);
    var u := C.Slept(k);
    C.StableParts(u);
    if LetThrough(k, Act.ClockTick) != [] {
      SleptTurns(k);
    } else {
      SleptQuietly(k);
    }
    if u.preempt <= 1 {
      var v := u.(preempt := QUANTUM);
      S.BookkeepingInv(u, v, -1);
      ReschedTurns(v, -1);
    }
  }

  /** After such a call the process that goes on strictly outranks everybody who is ready: its equals
      have their turn first. */
  lemma DoGivesWay(k: State, a: Act)
    requires Stable(k) && Allowed(k, a) && Yields(k, a)
    ensures GaveWay(Do(k, a), k.cur)
  {
    hide Stable, Inv, GaveWay, S.Resched, C.Clock, Tick, FirstOf;
    C.StableParts(k);
    match a {
      case Signal(i) => SignalTurns(k, i);
      case Signaln(i, n) => SignalnTurns(k, i, n);
      case Semreset(i, n) => SemresetTurns(k, i, n);
      case Semdelete(i) => SemdeleteTurns(k, i);
      case Send(p, m) => SendTurns(k, p, m);
      case KillNotice(p) => SendTurns(k, k.procs[p].parent, p);
      case Resume(p) => ResumeTurns(k, p);
      case ClockTick => ClockTurns(k);
      case _ => ReschedTurns(k, -1);
    }
  }

  /** The current process keeps the processor and nobody joins or leaves the ready list. */
  ghost predicate GoesOn(k: State, t: State) {
    t.cur == k.cur && t.ready == k.ready && t.ready in t.lists && k.ready in k.lists && t.lists[t.ready] == k.lists[k.ready]
  }

  /** A call that neither yields nor stops its caller leaves the processor with it. */
  lemma DoGoesOn(k: State, a: Act)
    requires Stable(k) && Allowed(k, a) && !Yields(k, a) && Effect(k, a, k.cur).state == CURR
    ensures Do(k, a).cur == k.cur && (!a.Suspend? && !a.KillRest? ==> GoesOn(k, Do(k, a)))
  {
    hide Stable, Inv, S.Resched, O.Signal, O.Signaln, O.Semreset, O.Semdelete, Tick, C.Clock;
    C.StableParts(k);
    match a {
      case Signal(i) => SignalGoesOn(k, i, 1);
      case Signaln(i, n) => SignalGoesOn(k, i, n);
      case Semreset(i, n) => ResetGoesOn(k, i, n);
      case Semdelete(i) => ResetGoesOn(k, i, 0);
      case Suspend(p) => if 0 <= p < |k.procs| { C.WaitingSem(k, p); }
      case KillRest(p) => C.WaitingSem(k, p);
      case ClockTick => QuietClock(k);
      case _ =>
    }
  }

  lemma SignalGoesOn(k: State, i: int, n: int)
    requires Stable(k) && (InUse(k, i) && n > 0 ==> O.Waiters(k, i) == [])
    ensures GoesOn(k, O.Signaln(k, i, n)) && (n == 1 ==> GoesOn(k, O.Signal(k, i)))
  {
    hide Stable, Inv, S.Resched, O.SignalOne;
    C.StableParts(k);
    if InUse(k, i) && n > 0 {
      WaitersCount(k, i);
      IdleLoop(S.DeferStart(k), i, n);
      IdleSignal(k, i);
    }
  }

  lemma IdleSignal(k: State, i: int)
    requires InUse(k, i) && k.sems[i].count >= 0
    ensures O.SignalOne(k, i) == k.(sems := O.SignalOne(k, i).sems)
  {
  }

  lemma ResetGoesOn(k: State, i: int, n: int)
    requires Stable(k) && (InUse(k, i) && n >= 0 ==> O.Waiters(k, i) == [])
    ensures GoesOn(k, O.Semreset(k, i, n)) && (n >= 0 ==> GoesOn(k, O.Semdelete(k, i)))
  {
    hide Stable, Inv, S.Resched;
    C.StableParts(k);
    if InUse(k, i) {
      WaitersCount(k, i);
    }
  }

  lemma QuietClock(k: State)
    requires Stable(k) && LetThrough(k, Act.ClockTick) == [] && k.preempt > 1
    ensures GoesOn(k, C.Clock(k))
  {
    hide Stable, InvBut, C.Slept;
    C.StableParts(k);
    SleptQuietly(k);
  }

  /** Signals to a semaphore without waiters touch nothing but its count. */
  lemma {:induction false} IdleLoop(k: State, i: int, n: nat)
    requires InUse(k, i) && k.sems[i].count >= 0
    ensures O.SignalLoop(k, i, n) == k.(sems := O.SignalLoop(k, i, n).sems)
    decreases n
  {
    if n > 0 {
      IdleLoop(O.SignalOne(k, i), i, n - 1);
    }
  }
}
