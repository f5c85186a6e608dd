/** Whole runs of the kernel: stability, sleepers woken on time, waiters never overtaken, and
    equal priorities taking turns. */
module KernelRun {
  import opened Queues
  import opened Delta
  import opened KernelModel
  import S = KernelSteps
  import O = KernelOps
  import C = KernelCalls

  // One step by the current process, or by the clock, with the choices a call makes filled in.
  datatype Act =
    | Yield
    | Wait(sem: int, key: int) | Signal(sem: int) | Signaln(sem: int, n: int)
    | Semreset(sem: int, n: int) | Semdelete(sem: int) | Semcreate(sem: int, n: int)
    | Send(pid: int, msg: int) | Receive | Take | Recvtime(ticks: int) | Sleepms(ticks: int)
    | Suspend(pid: int) | Resume(pid: int) | KillNotice(pid: int) | KillRest(pid: int)
    | Create(pid: int, prio: int) | ClockTick
    // A call turned away before it changed anything.
    | Refused

  /** What the calls require: the null process does not block, and new entries were free. */
  ghost predicate Allowed(k: State, a: Act)
    requires Stable(k)
  {
    match a
    case Wait(i, _) => !O.BadSem(k, i) && k.sems[i].count <= 0 ==> k.cur != NULLPROC
    case Semcreate(i, n) => 0 <= i < |k.sems| && !k.sems[i].used && n >= 0
    case Receive => !k.procs[k.cur].hasmsg ==> k.cur != NULLPROC
    case Recvtime(d) => d >= 0 && !k.procs[k.cur].hasmsg ==> k.cur != NULLPROC
    case Sleepms(d) => d > 0 ==> k.cur != NULLPROC
    case KillRest(p) => 0 < p < |k.procs|
    case Create(p, prio) => 0 <= p < |k.procs| && k.procs[p].state == FREE && prio >= 1
    case _ => true
  }

  ghost function Do(k: State, a: Act): State
    requires Stable(k) && Allowed(k, a)
  {
    match a
    case Yield => S.Resched(k)
    case Wait(i, key) => C.Wait(k, i, key)
    case Signal(i) => O.Signal(k, i)
    case Signaln(i, n) => O.Signaln(k, i, n)
    case Semreset(i, n) => O.Semreset(k, i, n)
    case Semdelete(i) => O.Semdelete(k, i)
    case Semcreate(i, n) => C.Semcreate(k, i, n)
    case Send(p, m) => C.Send(k, p, m)
    case Receive => C.Receive(k)
    case Take => C.Emptied(k)
    case Recvtime(d) => C.Recvtime(k, d)
    case Sleepms(d) => C.Sleepms(k, d)
    case Suspend(p) => C.Suspend(k, p)
    case Resume(p) => C.Resume(k, p)
    case KillNotice(p) => C.KillNotice(k, p)
    case KillRest(p) => C.KillRest(k, p)
    case Create(p, prio) => C.Created(k, p, prio)
    case ClockTick => C.Clock(k)
    case Refused => k
  }

  /** Every step leaves the kernel stable. */
  lemma DoStable(k: State, a: Act)
    requires Stable(k) && Allowed(k, a)
    ensures Stable(Do(k, a))
  {
    hide Stable, Inv;
    C.StableParts(k);
    match a {
      case Yield => S.ReschedStable(k);
      case Wait(i, key) => C.WaitStable(k, i, key);
      case Signal(i) => O.SignalStable(k, i);
      case Signaln(i, n) => O.SignalnStable(k, i, n);
      case Semreset(i, n) => O.SemresetStable(k, i, n);
      case Semdelete(i) => O.SemdeleteStable(k, i);
      case Semcreate(i, n) => C.SemcreateStable(k, i, n);
      case Send(p, m) => C.SendStable(k, p, m);
      case Receive => C.ReceiveStable(k);
      case Take => C.EmptiedStable(k);
      case Recvtime(d) => if !(d < 0 || k.procs[k.cur].hasmsg) { C.AsleepStable(k, d, RECTIM); }
      case Sleepms(d) => SleepmsStable(k, d);
      case Suspend(p) => C.SuspendStable(k, p);
      case Resume(p) => C.ResumeStable(k, p);
      case KillNotice(p) => if !(O.BadPid(k, p) || p == NULLPROC) { C.SendStable(k, k.procs[p].parent, p); }
      case KillRest(p) => C.KillRestStable(k, p);
      case Create(p, prio) => C.CreatedStable(k, p, prio);
      case ClockTick => C.ClockStable(k);
      case Refused =>
    }
  }

  lemma SleepmsStable(k: State, d: int)
    requires Stable(k) && (d > 0 ==> k.cur != NULLPROC)
    ensures Stable(C.Sleepms(k, d))
  {
    if d == 0 {
      S.ReschedStable(k);
    } else if d > 0 {
      C.AsleepStable(k, d, SLEEP);
    }
  }

  ghost predicate AllAllowed(k: State, acts: seq<Act>)
    requires Stable(k)
    decreases |acts|
  {
    acts == [] || (Allowed(k, acts[0]) && (DoStable(k, acts[0]); AllAllowed(Do(k, acts[0]), acts[1..])))
  }

  ghost function RunActs(k: State, acts: seq<Act>): State
    requires Stable(k) && AllAllowed(k, acts)
    decreases |acts|
  {
    if acts == [] then k else DoStable(k, acts[0]); RunActs(Do(k, acts[0]), acts[1..])
  }

  /** Over any run: one process current, every process on exactly the queue its state names,
      semaphore counts equal to their queues, and nobody ready outranking the current process. */
  lemma {:induction false} RunStable(k: State, acts: seq<Act>)
    requires Stable(k) && AllAllowed(k, acts)
    ensures Stable(RunActs(k, acts))
    decreases |acts|
  {
    if acts != [] {
      DoStable(k, acts[0]);
      RunStable(Do(k, acts[0]), acts[1..]);
    }
  }

  // What a step does to the queues other than the ready list.

  ghost predicate SameQueue(k: State, t: State, q: int) {
    q in k.lists && q in t.lists && t.lists[q] == k.lists[q]
  }

  /** t differs from k in no table a queue's identity depends on, and not in queue q. */
  ghost predicate Keeps(k: State, t: State, q: int) {
    && t.ready == k.ready && t.sleepq == k.sleepq && |t.sems| == |k.sems|
    && (forall i :: 0 <= i < |k.sems| ==> t.sems[i].queue == k.sems[i].queue)
    && SameQueue(k, t, q)
  }

  lemma ReschedKeeps(k: State, q: int)
    requires q in k.lists && q != k.ready
    ensures Keeps(k, S.Resched(k), q)
  {
  }

  lemma ReadyUpKeeps(k: State, l: map<int, seq<Item>>, p: int, q: int)
    requires q in l && q in k.lists && l[q] == k.lists[q] && q != k.ready
    ensures Keeps(k, S.ReadyUp(k, l, p), q)
  {
    ReschedKeeps(S.MakeReady(k, l, p), q);
  }

  lemma ReleaseFirstKeeps(k: State, i: int, q: int)
    requires 0 <= i < |k.sems| && q in k.lists && q != k.ready && q != k.sems[i].queue
    ensures Keeps(k, O.ReleaseFirst(k, i), q)
  {
    if O.Waiters(k, i) != [] {
      ReadyUpKeeps(k, k.lists[k.sems[i].queue := k.lists[k.sems[i].queue][1..]], O.Waiters(k, i)[0].pid, q);
    }
  }

  lemma {:induction false} ReleaseNKeeps(k: State, i: int, n: nat, q: int)
    requires 0 <= i < |k.sems| && q in k.lists && q != k.ready && q != k.sems[i].queue
    ensures Keeps(k, O.ReleaseN(k, i, n), q)
    decreases n
  {
    if n > 0 {
      hide O.ReleaseFirst;
      ReleaseFirstKeeps(k, i, q);
      ReleaseNKeeps(O.ReleaseFirst(k, i), i, n - 1, q);
    }
  }

  lemma {:induction false} SignalLoopKeeps(k: State, i: int, n: nat, q: int)
    requires 0 <= i < |k.sems| && q in k.lists && q != k.ready && q != k.sems[i].queue
    ensures Keeps(k, O.SignalLoop(k, i, n), q)
    decreases n
  {
    if n > 0 {
      SignalOneKeeps(k, i, q);
      hide O.SignalOne;
      SignalLoopKeeps(O.SignalOne(k, i), i, n - 1, q);
    }
  }

  lemma SignalOneKeeps(k: State, i: int, q: int)
    requires 0 <= i < |k.sems| && q in k.lists && q != k.ready && q != k.sems[i].queue
    ensures Keeps(k, O.SignalOne(k, i), q)
  {
    hide O.ReleaseFirst;
    ReleaseFirstKeeps(S.SetSem(k, i, k.sems[i].used, k.sems[i].count + 1), i, q);
  }

  lemma {:induction false} WakeNKeeps(k: State, n: nat, q: int)
    requires q in k.lists && q != k.ready && q != k.sleepq
    ensures Keeps(k, C.WakeN(k, n), q)
    decreases n
  {
    if n > 0 {
      WakeFirstKeeps(k, q);
      hide C.WakeFirst;
      WakeNKeeps(C.WakeFirst(k), n - 1, q);
    }
  }

  lemma WakeFirstKeeps(k: State, q: int)
    requires q in k.lists && q != k.ready && q != k.sleepq
    ensures Keeps(k, C.WakeFirst(k), q)
  {
    if k.sleepq in k.lists && k.lists[k.sleepq] != [] {
      ReadyUpKeeps(k, k.lists[k.sleepq := k.lists[k.sleepq][1..]], k.lists[k.sleepq][0].pid, q);
    }
  }

  lemma DeferStopKeeps(k: State, q: int)
    requires q in k.lists && q != k.ready
    ensures Keeps(k, S.DeferStop(k), q)
  {
    if k.ndefers > 0 {
      ReschedKeeps(k.(ndefers := k.ndefers - 1), q);
    }
  }

  lemma ClockKeeps(k: State, q: int)
    requires q in k.lists && q != k.ready && q != k.sleepq
    ensures Keeps(k, C.Clock(k), q)
  {
    var t := C.Slept(k);
    assert Keeps(k, t, q) by {
      if k.sleepq in k.lists && k.lists[k.sleepq] != [] {
        var d := C.Decremented(k);
        if k.lists[k.sleepq][0].key - 1 <= 0 {
          var n := Due(d.lists[d.sleepq]);
          hide C.WakeN, S.Resched;
          WakeNKeeps(S.DeferStart(d), n, q);
          DeferStopKeeps(C.WakeN(S.DeferStart(d), n), q);
        }
      }
    }
    hide C.Slept;
    ReschedKeeps(t.(preempt := QUANTUM), q);
  }

  /** The one queue, besides the ready list, a step works on; -1 for none. */
  ghost function Target(k: State, a: Act): int {
    match a
    case Wait(i, _) => if O.BadSem(k, i) then -1 else k.sems[i].queue
    case Signal(i) => if O.BadSem(k, i) then -1 else k.sems[i].queue
    case Signaln(i, _) => if O.BadSem(k, i) then -1 else k.sems[i].queue
    case Semreset(i, _) => if O.BadSem(k, i) then -1 else k.sems[i].queue
    case Semdelete(i) => if O.BadSem(k, i) then -1 else k.sems[i].queue
    case Send(p, _) => k.sleepq
    case KillNotice(p) => k.sleepq
    case Recvtime(_) => k.sleepq
    case Sleepms(_) => k.sleepq
    case ClockTick => k.sleepq
    case KillRest(p) => if 0 <= p < |k.procs| then Home(k.procs[p], k) else -1
    case _ => -1
  }

  lemma SendKeeps(k: State, p: int, msg: int, q: int)
    requires q in k.lists && q != k.ready && q != k.sleepq
    ensures Keeps(k, C.Send(k, p, msg), q)
  {
    if !(O.BadPid(k, p) || k.procs[p].hasmsg) {
      var t := C.Delivered(k, p, msg);
      ReadyUpKeeps(t, t.lists, p, q);
      ReadyUpKeeps(t, O.DelayOff(t, p), p, q);
    }
  }

  lemma KillRestKeeps(k: State, p: int, q: int)
    requires q in k.lists && q != k.ready && 0 <= p < |k.procs| && q != Home(k.procs[p], k)
    ensures Keeps(k, C.KillRest(k, p), q)
  {
    hide S.Resched;
    if k.procs[p].state == CURR {
      ReschedKeeps(S.Dropped(k, k.lists, p, FREE), q);
    }
  }

  lemma AsleepKeeps(k: State, d: int, st: PrState, q: int)
    requires 0 <= k.cur < |k.procs| && k.sleepq in k.lists && q in k.lists && q != k.ready && q != k.sleepq
    ensures Keeps(k, C.Asleep(k, d, st), q)
  {
    hide S.Resched;
    ReschedKeeps(S.Joined(k, k.sleepq, InsertedByDelay(k.lists[k.sleepq], Item(k.cur, d)), st, k.procs[k.cur].sem), q);
  }

  lemma SignalsKeep(k: State, i: int, n: int, q: int)
    requires q in k.lists && q != k.ready && (!O.BadSem(k, i) ==> q != k.sems[i].queue)
    ensures Keeps(k, O.Signal(k, i), q) && Keeps(k, O.Signaln(k, i, n), q)
  {
    hide S.Resched, O.SignalOne, O.SignalLoop;
    if !O.BadSem(k, i) {
      SignalOneKeeps(k, i, q);
      if n >= 0 {
        SignalLoopKeeps(S.DeferStart(k), i, n, q);
        DeferStopKeeps(O.SignalLoop(S.DeferStart(k), i, n), q);
      }
    }
  }

  lemma ResetsKeep(k: State, i: int, n: int, q: int)
    requires q in k.lists && q != k.ready && (!O.BadSem(k, i) ==> q != k.sems[i].queue)
    ensures Keeps(k, O.Semreset(k, i, n), q) && Keeps(k, O.Semdelete(k, i), q)
  {
    hide S.Resched, O.ReleaseN;
    if !O.BadSem(k, i) {
      var c := k.sems[i].count;
      var m := if c < 0 then -c else 0;
      var d, e := S.DeferStart(k), S.SetSem(S.DeferStart(k), i, false, c);
      ReleaseNKeeps(d, i, |O.Waiters(k, i)|, q);
      ReleaseNKeeps(e, i, m, q);
      var t, u := O.ReleaseN(d, i, |O.Waiters(k, i)|), O.ReleaseN(e, i, m);
      DeferStopKeeps(S.SetSem(t, i, t.sems[i].used, n), q);
      DeferStopKeeps(S.SetSem(u, i, false, if c < 0 then 1 else c + 1), q);
    }
  }

  lemma WaitKeeps(k: State, i: int, key: int, q: int)
    requires q in k.lists && q != k.ready && (!O.BadSem(k, i) ==> q != k.sems[i].queue)
    ensures Keeps(k, C.Wait(k, i, key), q)
  {
    hide S.Resched;
    if !O.BadSem(k, i) && 0 <= k.cur < |k.procs| && k.sems[i].count - 1 < 0 {
      var t := S.SetSem(k, i, true, k.sems[i].count - 1);
      ReschedKeeps(S.Joined(t, k.sems[i].queue, O.Waiters(k, i) + [Item(k.cur, key)], WAIT, i), q);
    }
  }

  lemma SuspensionKeeps(k: State, p: int, q: int)
    requires q in k.lists && q != k.ready
    ensures Keeps(k, C.Suspend(k, p), q) && Keeps(k, C.Resume(k, p), q)
  {
    hide S.Resched;
    if 0 <= p < |k.procs| {
      ReschedKeeps(S.Dropped(k, k.lists, p, SUSP), q);
      ReadyUpKeeps(k, k.lists, p, q);
    }
  }

  /** A step leaves every queue but its target, and the ready list, alone. */
  lemma DoKeeps(k: State, a: Act, q: int)
    requires Stable(k) && Allowed(k, a) && q in k.lists && q != k.ready && q != Target(k, a)
    ensures Keeps(k, Do(k, a), q)
  {
    hide Stable, Inv, S.Resched;
    C.StableParts(k);
    S.RangeFacts(k, -1);
    match a {
      case Yield => ReschedKeeps(k, q);
      case Wait(i, key) => WaitKeeps(k, i, key, q);
      case Signal(i) => SignalsKeep(k, i, 0, q);
      case Signaln(i, n) => SignalsKeep(k, i, n, q);
      case Semreset(i, n) => ResetsKeep(k, i, n, q);
      case Semdelete(i) => ResetsKeep(k, i, 0, q);
      case Semcreate(i, n) =>
      case Send(p, m) => SendKeeps(k, p, m, q);
      case Receive => ReschedKeeps(S.Dropped(k, k.lists, k.cur, RECV), q);
      case Take =>
      case Recvtime(d) => AsleepKeeps(k, d, RECTIM, q);
      case Sleepms(d) => AsleepKeeps(k, d, SLEEP, q); ReschedKeeps(k, q);
      case Suspend(p) => SuspensionKeeps(k, p, q);
      case Resume(p) => SuspensionKeeps(k, p, q);
      case KillNotice(p) => if 0 <= p < |k.procs| { SendKeeps(k, k.procs[p].parent, p, q); }
      case KillRest(p) => KillRestKeeps(k, p, q);
      case Create(p, prio) =>
      case ClockTick => ClockKeeps(k, q);
      case Refused =>
    }
  }
}
