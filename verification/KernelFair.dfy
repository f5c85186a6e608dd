/** Fairness of the kernel: semaphore waiters leave in arrival order, sleepers are woken on their
    tick, and processes of equal priority take turns. */
module KernelFair {
  import opened Queues
  import opened Delta
  import opened KernelModel
  import S = KernelSteps
  import O = KernelOps
  import C = KernelCalls
  import opened KernelRun

  // Semaphore queues.

  /** From one step to the next a queue loses some of its front, gains one at its tail, or loses a
      process that was killed. */
  ghost predicate QueueStep(w: seq<Item>, v: seq<Item>, t: State) {
    || (exists m :: 0 <= m <= |w| && v == w[m..])
    || (exists it :: v == w + [it])
    || (exists j :: 0 <= j < |w| && v == RemovedAt(w, j) && Dead(t, w[j].pid))
  }

  predicate Dead(t: State, p: int) {
    0 <= p < |t.procs| && t.procs[p].state == FREE
  }

  /** A waiter is let through only when nobody who came before it is still waiting. */
  lemma NotOvertaken(w: seq<Item>, v: seq<Item>, t: State, a: nat, b: nat)
    requires NoRepeats(w) && QueueStep(w, v, t) && a < b < |w|
    requires !Has(v, w[b].pid) && !Dead(t, w[b].pid)
    ensures !Has(v, w[a].pid)
  {
    if m :| 0 <= m <= |w| && v == w[m..] {
      SuffixHas(w, m, b);
      SuffixHas(w, m, a);
    } else if it :| v == w + [it] {
      LongerHas(w, it, b);
    } else {
      var j :| 0 <= j < |w| && v == RemovedAt(w, j) && Dead(t, w[j].pid);
      RemovedHas(w, j, w[b].pid);
      HasAt(w, b);
    }
  }

  lemma SuffixHas(w: seq<Item>, m: nat, b: nat)
    requires NoRepeats(w) && m <= |w| && b < |w|
    ensures Has(w[m..], w[b].pid) <==> m <= b
  {
    if m <= b {
      assert w[m..][b - m] == w[b];
      HasAt(w[m..], b - m);
    }
    forall x | 0 <= x < |w| - m && m + x != b ensures w[m..][x].pid != w[b].pid {
      assert w[m..][x] == w[m + x];
    }
  }

  lemma LongerHas(w: seq<Item>, it: Item, b: nat)
    requires b < |w|
    ensures Has(w + [it], w[b].pid)
  {
    assert (w + [it])[b] == w[b];
    HasAt(w + [it], b);
  }

  lemma {:induction false} SignalLoopWaiters(was: State, k: State, i: int, n: nat)
    requires Inv(k) && !O.BadSem(k, i) && O.Quiet(was, k)
    ensures 0 <= i < |O.SignalLoop(k, i, n).sems|
    ensures var w := O.Waiters(k, i);
            O.Waiters(O.SignalLoop(k, i, n), i) == if n <= |w| then w[n..] else []
    decreases n
  {
    hide O.SignalOne, Inv, O.Waiters, O.Quiet;
    if n > 0 {
      O.SignalOneDeferred(was, k, i);
      SignalOneWaiters(was, k, i);
      SignalLoopWaiters(was, O.SignalOne(k, i), i, n - 1);
    }
  }

  lemma SignalOneWaiters(was: State, k: State, i: int)
    requires Inv(k) && !O.BadSem(k, i) && O.Quiet(was, k)
    ensures i < |O.SignalOne(k, i).sems|
    ensures var w := O.Waiters(k, i); O.Waiters(O.SignalOne(k, i), i) == if w == [] then [] else w[1..]
  {
    hide InvBut, O.ReleaseFirst;
    WaitersTold(k, i);
    var t := S.SetSem(k, i, true, k.sems[i].count + 1);
    if k.sems[i].count < 0 {
      O.ReleaseFirstInv(was, t, i);
    }
  }

  lemma WaitersTold(k: State, i: int)
    requires Inv(k) && !O.BadSem(k, i)
    ensures InvBut(S.SetSem(k, i, true, k.sems[i].count + 1), i)
    ensures O.Waiters(S.SetSem(k, i, true, k.sems[i].count + 1), i) == O.Waiters(k, i)
    ensures k.sems[i].count >= 0 <==> O.Waiters(k, i) == []
  {
    assert SemOk(k, i);
    O.SignalOneCore(k, i);
  }

  lemma SignalWaiters(k: State, i: int)
    requires Stable(k) && !O.BadSem(k, i)
    ensures i < |O.Signal(k, i).sems|
    ensures var w := O.Waiters(k, i); O.Waiters(O.Signal(k, i), i) == if w == [] then [] else w[1..]
  {
    hide InvBut, O.ReleaseFirst, Stable;
    C.StableParts(k);
    WaitersTold(k, i);
    var t := S.SetSem(k, i, true, k.sems[i].count + 1);
    if k.sems[i].count < 0 {
      ReleaseWaiters(t, i);
    }
  }

  lemma ReleaseWaiters(t: State, i: int)
    requires InvBut(t, i) && 0 <= i < |t.sems| && O.Waiters(t, i) != []
    ensures i < |O.ReleaseFirst(t, i).sems| && O.Waiters(O.ReleaseFirst(t, i), i) == O.Waiters(t, i)[1..]
  {
    hide InvBut, S.Resched, S.MakeReady;
    O.ReleasedInv(t, i);
    O.TablesOf(t, i);
    var q, p := t.sems[i].queue, O.Waiters(t, i)[0].pid;
    var u := S.MakeReady(t, t.lists[q := t.lists[q][1..]], p);
    ReschedKeeps(u, q) by { O.TablesOf(u, i); }
    KeptWaiters(u, S.Resched(u), i);
  }

  lemma SignalnWaiters(k: State, i: int, n: nat)
    requires Stable(k) && !O.BadSem(k, i)
    ensures i < |O.Signaln(k, i, n).sems|
    ensures var w := O.Waiters(k, i); O.Waiters(O.Signaln(k, i, n), i) == if n <= |w| then w[n..] else []
  {
    O.DeferStartQuiet(k, -1);
    var d := S.DeferStart(k);
    assert O.Waiters(d, i) == O.Waiters(k, i);
    O.SignalLoopInv(k, d, i, n);
    SignalLoopWaiters(k, d, i, n);
    var t := O.SignalLoop(d, i, n);
    hide O.SignalLoop;
    S.RangeFacts(t, -1);
    O.TablesOf(t, -1);
    DeferStopKeeps(t, t.sems[i].queue);
  }

  lemma WaitWaiters(k: State, i: int, key: int)
    requires Stable(k) && !O.BadSem(k, i) && k.sems[i].count <= 0 && k.cur != NULLPROC
    ensures i < |C.Wait(k, i, key).sems|
    ensures O.Waiters(C.Wait(k, i, key), i) == O.Waiters(k, i) + [Item(k.cur, key)]
  {
    var t, q := S.SetSem(k, i, true, k.sems[i].count - 1), k.sems[i].queue;
    ReschedKeeps(S.Joined(t, q, O.Waiters(k, i) + [Item(k.cur, key)], WAIT, i), q);
  }

  lemma KeptWaiters(k: State, t: State, i: int)
    requires 0 <= i < |k.sems| && Keeps(k, t, k.sems[i].queue)
    ensures i < |t.sems| && O.Waiters(t, i) == O.Waiters(k, i)
  {
  }

  /** Every step treats every semaphore's queue in one of the three ways. */
  lemma DoQueue(k: State, a: Act, i: int)
    requires Stable(k) && Allowed(k, a) && 0 <= i < |k.sems|
    ensures i < |Do(k, a).sems| && QueueStep(O.Waiters(k, i), O.Waiters(Do(k, a), i), Do(k, a))
  {
    C.StableParts(k);
    S.RangeFacts(k, -1);
    var q, w, t := k.sems[i].queue, O.Waiters(k, i), Do(k, a);
    assert w[0..] == w;
    if q != Target(k, a) {
      DoKeeps(k, a, q);
      hide Do, Target, Allowed, Stable;
      KeptWaiters(k, t, i);
      assert O.Waiters(t, i) == w[0..];
    } else {
      DoOwnQueue(k, a, i);
    }
  }

  lemma DoOwnQueue(k: State, a: Act, i: int)
    requires Stable(k) && Allowed(k, a) && 0 <= i < |k.sems| && k.sems[i].queue == Target(k, a)
    ensures i < |Do(k, a).sems| && QueueStep(O.Waiters(k, i), O.Waiters(Do(k, a), i), Do(k, a))
  {
    var w := O.Waiters(k, i);
    TargetIsSemaphore(k, a, i);
    assert w[0..] == w && w[|w|..] == [];
    match a {
      case Wait(j, key) =>
        if k.sems[i].count <= 0 {
          WaitWaiters(k, i, key);
        } else {
          assert O.Waiters(Do(k, a), i) == w[0..];
        }
      case Signal(j) =>
        SignalWaiters(k, i);
        assert O.Waiters(Do(k, a), i) == if w == [] then w[0..] else w[1..];
      case Signaln(j, n) =>
        if n >= 0 {
          SignalnWaiters(k, i, n);
          assert O.Waiters(Do(k, a), i) == w[if n <= |w| then n else |w|..];
        } else {
          assert O.Waiters(Do(k, a), i) == w[0..];
        }
      case Semreset(j, n) =>
        O.SemresetStable(k, i, n);
        assert O.Waiters(Do(k, a), i) == w[if n >= 0 then |w| else 0..];
      case Semdelete(j) =>
        O.SemdeleteStable(k, i);
        assert O.Waiters(Do(k, a), i) == w[|w|..];
      case KillRest(p) =>
        KilledWaiters(k, p, i);
    }
  }

  lemma TargetIsSemaphore(k: State, a: Act, i: int)
    requires Stable(k) && Allowed(k, a) && 0 <= i < |k.sems| && k.sems[i].queue == Target(k, a)
    ensures a.Wait? || a.Signal? || a.Signaln? || a.Semreset? || a.Semdelete? || a.KillRest?
    ensures !a.KillRest? ==> a.sem == i && !O.BadSem(k, i)
    ensures a.KillRest? ==> k.procs[a.pid].state == WAIT && k.procs[a.pid].sem == i
  {
  }

  lemma KilledWaiters(k: State, p: int, i: int)
    requires Stable(k) && 0 < p < |k.procs| && 0 <= i < |k.sems| && k.procs[p].state == WAIT && k.procs[p].sem == i
    ensures var w, t := O.Waiters(k, i), C.KillRest(k, p);
            && i < |t.sems| && Has(w, p) && O.Waiters(t, i) == RemovedAt(w, IndexOf(w, p)) && Dead(t, w[IndexOf(w, p)].pid)
  {
    S.HomeOnly(k, -1, p, k.sems[i].queue);
  }

  // The sleep queue.

  datatype Timed = Nothing | Just(e: Event)

  /** What a step means to the sleep queue. */
  ghost function EventOf(k: State, a: Act): Timed
    requires Stable(k) && Allowed(k, a)
  {
    match a
    case Recvtime(d) => if d < 0 || k.procs[k.cur].hasmsg then Nothing else Just(Sleep(k.cur, d))
    case Sleepms(d) => if d <= 0 then Nothing else Just(Sleep(k.cur, d))
    case Send(p, _) => Message(k, p)
    case KillNotice(p) => if O.BadPid(k, p) || p == NULLPROC then Nothing else Message(k, k.procs[p].parent)
    case KillRest(p) => if k.procs[p].state in {SLEEP, RECTIM} then Just(Leave(p)) else Nothing
    case ClockTick => Just(Event.ClockTick)
    case _ => Nothing
  }

  function Message(k: State, p: int): Timed {
    if O.BadPid(k, p) || k.procs[p].hasmsg || k.procs[p].state != RECTIM then Nothing else Just(Leave(p))
  }

  /** The sleep queue after an event. */
  ghost function SleepNext(s: seq<Item>, x: Timed): seq<Item>
    requires x.Just? && x.e.Leave? ==> Has(s, x.e.pid)
  {
    match x
    case Nothing => s
    case Just(Sleep(p, d)) => InsertedByDelay(s, Item(p, d))
    case Just(Leave(p)) => RemovedFromDelay(s, IndexOf(s, p))
    case Just(ClockTick) => Tick(s).1
  }

  lemma SleepersQueued(k: State, p: int)
    requires Stable(k) && 0 <= p < |k.procs|
    ensures k.sleepq in k.lists && k.sleepq != k.ready
    ensures Has(k.lists[k.sleepq], p) <==> k.procs[p].state in {SLEEP, RECTIM}
  {
    S.HomeOnly(k, -1, p, k.sleepq);
  }

  lemma SendSleepq(k: State, p: int, msg: int)
    requires Stable(k)
    ensures var t := C.Send(k, p, msg);
            && k.sleepq in k.lists && t.sleepq == k.sleepq && t.sleepq in t.lists
            && (Message(k, p).Just? ==> Has(k.lists[k.sleepq], p))
            && t.lists[t.sleepq] == SleepNext(k.lists[k.sleepq], Message(k, p))
  {
    SleepersQueued(k, k.cur);
    if !(O.BadPid(k, p) || k.procs[p].hasmsg) {
      SleepersQueued(k, p);
      var t := C.Delivered(k, p, msg);
      hide S.Resched, RemovedFromDelay, IndexOf, Has, Stable, S.MakeReady;
      ReadyUpKeeps(t, t.lists, p, k.sleepq);
      if k.procs[p].state == RECTIM {
        DelayOffSleepq(t, p);
      }
    }
  }

  /** A sleeper woken early leaves the sleep queue, and a reschedule does not touch that queue. */
  lemma DelayOffSleepq(t: State, p: int)
    requires 0 <= p < |t.procs| && t.sleepq in t.lists && t.ready in t.lists && t.sleepq != t.ready && Has(t.lists[t.sleepq], p)
    ensures var u := S.Resched(S.MakeReady(t, O.DelayOff(t, p), p));
            && u.sleepq == t.sleepq && u.sleepq in u.lists
            && u.lists[u.sleepq] == RemovedFromDelay(t.lists[t.sleepq], IndexOf(t.lists[t.sleepq], p))
  {
    hide S.Resched, RemovedFromDelay, IndexOf, Has;
    ReschedKeeps(S.MakeReady(t, O.DelayOff(t, p), p), t.sleepq);
  }

  lemma KillRestSleepq(k: State, p: int)
    requires Stable(k) && 0 < p < |k.procs|
    ensures var t := C.KillRest(k, p);
            && k.sleepq in k.lists && t.sleepq == k.sleepq && t.sleepq in t.lists
            && (k.procs[p].state in {SLEEP, RECTIM} ==> Has(k.lists[k.sleepq], p))
            && (k.procs[p].state in {SLEEP, RECTIM} ==>
                  t.lists[t.sleepq] == RemovedFromDelay(k.lists[k.sleepq], IndexOf(k.lists[k.sleepq], p)))
            && (k.procs[p].state !in {SLEEP, RECTIM} ==> t.lists[t.sleepq] == k.lists[k.sleepq])
  {
    SleepersQueued(k, p);
    C.WaitingSem(k, p);
    SemQueuesApart(k);
    if k.procs[p].state !in {SLEEP, RECTIM} {
      KillRestKeeps(k, p, k.sleepq);
    }
  }

  lemma SemQueuesApart(k: State)
    requires Stable(k)
    ensures forall i :: 0 <= i < |k.sems| ==> k.sems[i].queue in k.lists && k.sems[i].queue != k.sleepq
    ensures k.sleepq != -1
  {
  }

  lemma AsleepSleepq(k: State, d: int, st: PrState)
    requires Stable(k)
    ensures var t := C.Asleep(k, d, st);
            && t.sleepq == k.sleepq && t.sleepq in t.lists && k.sleepq in k.lists
            && t.lists[t.sleepq] == InsertedByDelay(k.lists[k.sleepq], Item(k.cur, d))
            && !Has(k.lists[k.sleepq], k.cur)
  {
    hide S.Resched, InsertedByDelay;
    SleepersQueued(k, k.cur);
    ReschedKeeps(S.Joined(k, k.sleepq, InsertedByDelay(k.lists[k.sleepq], Item(k.cur, d)), st, k.procs[k.cur].sem), k.sleepq);
  }

  /** Every step changes the sleep queue as its event says. */
  lemma DoSleepq(k: State, a: Act)
    requires Stable(k) && Allowed(k, a)
    ensures var t, x := Do(k, a), EventOf(k, a);
            && k.sleepq in k.lists && t.sleepq == k.sleepq && t.sleepq in t.lists
            && (x.Just? && x.e.Leave? ==> Has(k.lists[k.sleepq], x.e.pid))
            && (x.Just? && x.e.Sleep? ==> !Has(k.lists[k.sleepq], x.e.pid))
            && t.lists[t.sleepq] == SleepNext(k.lists[k.sleepq], x)
  {
    SleepersQueued(k, k.cur);
    if Timely(a) {
      TimelySleepq(k, a);
    } else {
      SemQueuesApart(k);
      hide Stable, Do, Allowed, Has, C.Send, C.KillRest;
      DoKeeps(k, a, k.sleepq);
    }
  }

  /** The steps that may concern the sleep queue. */
  predicate Timely(a: Act) {
    a.Send? || a.KillNotice? || a.Recvtime? || a.Sleepms? || a.ClockTick? || a.KillRest?
  }

  lemma TimelySleepq(k: State, a: Act)
    requires Stable(k) && Allowed(k, a) && Timely(a)
    ensures var t, x := Do(k, a), EventOf(k, a);
            && k.sleepq in k.lists && t.sleepq == k.sleepq && t.sleepq in t.lists
            && (x.Just? && x.e.Leave? ==> Has(k.lists[k.sleepq], x.e.pid))
            && (x.Just? && x.e.Sleep? ==> !Has(k.lists[k.sleepq], x.e.pid))
            && t.lists[t.sleepq] == SleepNext(k.lists[k.sleepq], x)
  {
    hide Stable, Inv, S.Resched, Has, InsertedByDelay, RemovedFromDelay, Tick, C.Asleep, C.Clock, C.KillRest, C.Send;
    C.StableParts(k);
    S.RangeFacts(k, -1);
    SleepersQueued(k, k.cur);
    match a {
      case Send(p, m) => SendSleepq(k, p, m);
      case KillNotice(p) => if !(O.BadPid(k, p) || p == NULLPROC) { SendSleepq(k, k.procs[p].parent, p); }
      case Recvtime(d) => AsleepSleepq(k, d, RECTIM);
      case Sleepms(d) => AsleepSleepq(k, d, SLEEP); ReschedKeeps(k, k.sleepq);
      case ClockTick => C.ClockStable(k);
      case KillRest(p) => KillRestSleepq(k, p);
    }
  }

  /** A run in which nobody asks for a timed receive of zero ticks. */
  ghost predicate NoZeroWait(acts: seq<Act>) {
    forall i :: 0 <= i < |acts| && acts[i].Recvtime? ==> acts[i].ticks != 0
  }

  lemma DoOnTime(k: State, a: Act, c: Clock)
    requires Stable(k) && Allowed(k, a) && (a.Recvtime? ==> a.ticks != 0)
    requires k.sleepq in k.lists && OnTime(c) && c.s == k.lists[k.sleepq]
    ensures var t, x := Do(k, a), EventOf(k, a);
            var d := if x.Just? then Next(c, x.e) else c;
            OnTime(d) && t.sleepq in t.lists && d.s == t.lists[t.sleepq]
  {
    hide Stable, OnTime, Do, DeltaOk, Has, InsertedByDelay, RemovedFromDelay, Tick;
    DoSleepq(k, a);
    var x := EventOf(k, a);
    if x.Just? {
      NextOnTime(c, x.e);
    }
  }

  /** The kernel's run as the sleepers see it. */
  ghost function RunSleepers(k: State, acts: seq<Act>, c: Clock): Clock
    requires Stable(k) && AllAllowed(k, acts) && NoZeroWait(acts)
    requires k.sleepq in k.lists && OnTime(c) && c.s == k.lists[k.sleepq]
    decreases |acts|
  {
    if acts == [] then c
    else
      DoStable(k, acts[0]);
      DoOnTime(k, acts[0], c);
      var x := EventOf(k, acts[0]);
      RunSleepers(Do(k, acts[0]), acts[1..], if x.Just? then Next(c, x.e) else c)
  }

  /** In any run of the kernel without zero-tick receives, a process is woken exactly when due. */
  lemma {:induction false} RunOnTime(k: State, acts: seq<Act>, c: Clock)
    requires Stable(k) && AllAllowed(k, acts) && NoZeroWait(acts)
    requires k.sleepq in k.lists && OnTime(c) && c.s == k.lists[k.sleepq]
    ensures var t := RunActs(k, acts);
            && OnTime(RunSleepers(k, acts, c))
            && t.sleepq in t.lists && RunSleepers(k, acts, c).s == t.lists[t.sleepq]
    decreases |acts|
  {
    if acts != [] {
      DoStable(k, acts[0]);
      DoOnTime(k, acts[0], c);
      var x := EventOf(k, acts[0]);
      hide Do, Stable, OnTime, EventOf;
      RunOnTime(Do(k, acts[0]), acts[1..], if x.Just? then Next(c, x.e) else c);
    }
  }

  // Taking turns.

  /** The current process and the ready processes of its priority, in the order they will run. */
  ghost function Ring(k: State): (r: seq<int>)
    requires Stable(k)
    ensures |r| > 0 && r[0] == k.cur
  {
    var s := k.lists[k.ready];
    [k.cur] + Pids(s, KeyPlace(s, k.procs[k.cur].prio))
  }

  function Pids(s: seq<Item>, n: nat): (r: seq<int>)
    requires n <= |s|
    ensures |r| == n
  {
    seq(n, i requires 0 <= i < n => s[i].pid)
  }

  lemma {:induction false} KeyPlaceIs(s: seq<Item>, key: int, n: nat)
    requires n <= |s| && (forall i :: 0 <= i < n ==> s[i].key >= key) && (n < |s| ==> s[n].key < key)
    ensures KeyPlace(s, key) == n
  {
    if n > 0 {
      KeyPlaceIs(s[1..], key, n - 1);
    }
  }

  lemma TurnedItem(s: seq<Item>, m: nat, it: Item, i: nat)
    requires 0 < m <= |s| && i < |s|
    ensures InsertedAt(s, m, it)[1..][i] == if i + 1 < m then s[i + 1] else if i + 1 == m then it else s[i]
  {
  }

  /** The list after the current process is queued behind its equals and the first is taken. */
  lemma TurnedList(s: seq<Item>, it: Item)
    requires Descending(s) && KeyPlace(s, it.key) > 0 && s[0].key == it.key
    ensures var m, u := KeyPlace(s, it.key), InsertedByKey(s, it)[1..];
            && |u| == |s| && KeyPlace(u, it.key) == m
            && [s[0].pid] + Pids(u, m) == Pids(s, m) + [it.pid]
  {
    hide InsertedAt, KeyPlace, Descending;
    var m, u := KeyPlace(s, it.key), InsertedAt(s, KeyPlace(s, it.key), it)[1..];
    forall i | 0 <= i < m ensures u[i].key >= it.key {
      TurnedItem(s, m, it, i);
    }
    if m < |u| { TurnedItem(s, m, it, m); }
    KeyPlaceIs(u, it.key, m);
    var l, r := [s[0].pid] + Pids(u, m), Pids(s, m) + [it.pid];
    forall i | 0 <= i < |l| ensures l[i] == r[i] {
      if i > 0 { TurnedItem(s, m, it, i - 1); }
    }
  }

  lemma TurnedState(k: State)
    requires Stable(k) && KeyPlace(k.lists[k.ready], k.procs[k.cur].prio) > 0
    ensures var t, s, prio := S.Resched(k), k.lists[k.ready], k.procs[k.cur].prio;
            && s[0].key == prio && t.cur == s[0].pid && 0 <= t.cur < |t.procs| && t.procs[t.cur].prio == prio
            && t.ready in t.lists && t.lists[t.ready] == InsertedByKey(s, Item(k.cur, prio))[1..]
  {
    var s, prio := k.lists[k.ready], k.procs[k.cur].prio;
    assert Keyed(k, s[0]);
    assert InsertedByKey(s, Item(k.cur, prio))[0] == s[0];
  }

  /** A reschedule moves the current process behind its equals and runs the next of them. */
  lemma RingTurns(k: State)
    requires Stable(k)
    ensures Stable(S.Resched(k)) && Ring(S.Resched(k)) == Ring(k)[1..] + [Ring(k)[0]]
  {
    S.ReschedStable(k);
    var s, prio := k.lists[k.ready], k.procs[k.cur].prio;
    if KeyPlace(s, prio) > 0 {
      TurnedState(k);
      hide InsertedByKey, S.Resched;
      TurnedList(s, Item(k.cur, prio));
      assert Ring(k)[1..] == Pids(s, KeyPlace(s, prio));
    } else {
      assert Ring(k) == [k.cur];
    }
  }

  ghost function ReschedN(k: State, n: nat): State
    requires Stable(k)
    decreases n
  {
    if n == 0 then k else S.ReschedStable(k); ReschedN(S.Resched(k), n - 1)
  }

  /** Reschedules go round the ring in order: the j-th process of it runs after j of them, and after
      as many as there are processes the first runs again. */
  lemma {:induction false} TurnsInOrder(k: State, n: nat)
    requires Stable(k) && n <= |Ring(k)|
    ensures Stable(ReschedN(k, n)) && Ring(ReschedN(k, n)) == Ring(k)[n..] + Ring(k)[..n]
    ensures ReschedN(k, n).cur == Ring(k)[if n < |Ring(k)| then n else 0]
    decreases n
  {
    hide Stable, S.Resched, Ring;
    var r := Ring(k);
    if n > 0 {
      RingTurns(k);
      var t := r[1..] + [r[0]];
      TurnsInOrder(S.Resched(k), n - 1);
      assert t[n - 1..] + t[..n - 1] == r[n..] + r[..n];
    }
  }
}
