/** The remaining calls: waiting, messages, sleeping, suspension, termination and the clock. */
module KernelCalls {
  import opened Queues
  import opened Delta
  import opened KernelModel
  import opened KernelSteps
  import opened KernelOps

  /** The null process cannot execute code that blocks it. */
  ghost predicate MayBlock(k: State) {
    Stable(k) && k.cur != NULLPROC
  }

  lemma StableParts(k: State)
    requires Stable(k)
    ensures Inv(k) && Tables(k) && 0 <= k.cur < |k.procs| && k.procs[k.cur].state == CURR && k.ndefers == 0
    ensures k.procs[k.cur].state != FREE && !BadPid(k, k.cur)
  {
  }

  // wait; key is whatever the caller's queue entry held.

  function Wait(k: State, i: int, key: int): State {
    if BadSem(k, i) || !(0 <= k.cur < |k.procs|) then k
    else
      var t := SetSem(k, i, true, k.sems[i].count - 1);
      if k.sems[i].count - 1 < 0 then
        Resched(Joined(t, k.sems[i].queue, Waiters(k, i) + [Item(k.cur, key)], WAIT, i))
      else t
  }

  /** A waiter joins the tail of the queue. */
  lemma QueuedBehind(s: seq<Item>, it: Item)
    requires NoRepeats(s) && !Has(s, it.pid)
    ensures NoRepeats(s + [it]) && forall x :: Has(s + [it], x) <==> Has(s, x) || x == it.pid
  {
    assert InsertedAt(s, |s|, it) == s + [it];
    InsertedNoRepeats(s, |s|, it);
    forall x ensures Has(s + [it], x) <==> Has(s, x) || x == it.pid {
      InsertedHas(s, |s|, it, x);
    }
  }

  lemma WaitBlocked(t: State, i: int, it: Item)
    requires InvBut(t, i) && 0 <= i < |t.sems| && t.sems[i].used && t.procs[t.cur].state == CURR && t.cur != NULLPROC
    requires it.pid == t.cur && t.sems[i].count < 0 && |Waiters(t, i)| == -t.sems[i].count - 1
    ensures t.sems[i].queue in t.lists
    ensures Inv(Joined(t, t.sems[i].queue, Waiters(t, i) + [it], WAIT, i))
  {
    hide Has, NoRepeats;
    var q, s := t.sems[i].queue, Waiters(t, i);
    HomeOnly(t, i, t.cur, q);
    QueuedBehind(s, it);
    JoinedInv(t, q, s + [it], WAIT, i, i);
    var u := Joined(t, q, s + [it], WAIT, i);
    assert Waiters(u, i) == s + [it];
    hide InvBut;
    WaitersMatch(u, i);
  }

  lemma WaitStable(k: State, i: int, key: int)
    requires Stable(k) && (!BadSem(k, i) && k.sems[i].count <= 0 ==> k.cur != NULLPROC)
    ensures Stable(Wait(k, i, key))
  {
    if !BadSem(k, i) {
      assert SemOk(k, i);
      OutOfStep(k, i);
      var t := SetSem(k, i, true, k.sems[i].count - 1);
      SetSemInv(k, i, true, k.sems[i].count - 1);
      if k.sems[i].count - 1 < 0 {
        assert Waiters(t, i) == Waiters(k, i);
        hide InvBut;
        WaitBlocked(t, i, Item(k.cur, key));
        ReschedStable(Joined(t, t.sems[i].queue, Waiters(t, i) + [Item(k.cur, key)], WAIT, i));
      }
    }
  }

  lemma WaitFacts(k: State, i: int, key: int)
    requires MayBlock(k) && !BadSem(k, i) && k.sems[i].count <= 0
    ensures k.sems[i].queue in k.lists && Waiters(k, i) == k.lists[k.sems[i].queue] && Nowhere(k.lists, k.cur)
    ensures var t := SetSem(k, i, true, k.sems[i].count - 1);
            && t.sems[i].queue in t.lists && InvBut(t, i)
            && Inv(Joined(t, t.sems[i].queue, Waiters(k, i) + [Item(k.cur, key)], WAIT, i))
  {
    assert SemOk(k, i);
    OutOfStep(k, i);
    var t := SetSem(k, i, true, k.sems[i].count - 1);
    SetSemInv(k, i, true, k.sems[i].count - 1);
    assert Waiters(t, i) == Waiters(k, i);
    CurrentNowhere(k, -1);
    hide InvBut;
    WaitBlocked(t, i, Item(k.cur, key));
  }

  function Semcreate(k: State, i: int, count: int): State
    requires 0 <= i < |k.sems|
  {
    SetSem(k, i, true, count)
  }

  lemma SemcreateStable(k: State, i: int, count: int)
    requires Stable(k) && 0 <= i < |k.sems| && !k.sems[i].used && count >= 0
    ensures Stable(Semcreate(k, i, count))
  {
    assert SemOk(k, i);
    OutOfStep(k, i);
    SetSemInv(k, i, true, count);
  }

  // Messages.

  function Delivered(k: State, p: int, msg: int): State
    requires 0 <= p < |k.procs|
  {
    k.(procs := k.procs[p := k.procs[p].(msg := msg, hasmsg := true)])
  }

  function Send(k: State, p: int, msg: int): State {
    if BadPid(k, p) || k.procs[p].hasmsg then k
    else
      var t := Delivered(k, p, msg);
      if k.procs[p].state == RECV then ReadyUp(t, t.lists, p)
      else if k.procs[p].state == RECTIM then ReadyUp(t, DelayOff(t, p), p)
      else t
  }

  lemma SendStable(k: State, p: int, msg: int)
    requires Stable(k)
    ensures Stable(Send(k, p, msg))
  {
    if !(BadPid(k, p) || k.procs[p].hasmsg) {
      var t := Delivered(k, p, msg);
      MessageInv(k, t, p, -1);
      if k.procs[p].state == RECV {
        DetachedNone(t, p, -1);
        MakeReadyInv(t, t.lists, p, -1);
        ReschedStable(MakeReady(t, t.lists, p));
      } else if k.procs[p].state == RECTIM {
        DelayOffDetached(t, p, -1);
        MakeReadyInv(t, DelayOff(t, p), p, -1);
        ReschedStable(MakeReady(t, DelayOff(t, p), p));
      }
    }
  }

  /** The part of receive before the process next runs. */
  function Receive(k: State): State {
    if !(0 <= k.cur < |k.procs|) || k.procs[k.cur].hasmsg then k
    else Resched(Dropped(k, k.lists, k.cur, RECV))
  }

  lemma ReceiveStable(k: State)
    requires Stable(k) && (!k.procs[k.cur].hasmsg ==> k.cur != NULLPROC)
    ensures Stable(Receive(k))
  {
    if !k.procs[k.cur].hasmsg {
      ParkedInv(k, RECV, -1);
      ReschedStable(Dropped(k, k.lists, k.cur, RECV));
    }
  }

  /** The part after: the message slot is emptied. */
  function Emptied(k: State): State
    requires 0 <= k.cur < |k.procs|
  {
    k.(procs := k.procs[k.cur := k.procs[k.cur].(hasmsg := false)])
  }

  lemma EmptiedStable(k: State)
    requires Stable(k)
    ensures Stable(Emptied(k))
  {
    MessageInv(k, Emptied(k), k.cur, -1);
  }

  // Sleeping.

  function Asleep(k: State, delay: int, st: PrState): State
    requires 0 <= k.cur < |k.procs| && k.sleepq in k.lists
  {
    Resched(Joined(k, k.sleepq, InsertedByDelay(k.lists[k.sleepq], Item(k.cur, delay)), st, k.procs[k.cur].sem))
  }

  lemma AsleepInv(k: State, delay: int, st: PrState)
    requires MayBlock(k) && st in {SLEEP, RECTIM}
    ensures Inv(Joined(k, k.sleepq, InsertedByDelay(k.lists[k.sleepq], Item(k.cur, delay)), st, k.procs[k.cur].sem))
  {
    hide InsertedByDelay, Has, NoRepeats;
    var s, it := k.lists[k.sleepq], Item(k.cur, delay);
    HomeOnly(k, -1, k.cur, k.sleepq);
    InsertRemainingSelf(s, it);
    forall x ensures Has(InsertedByDelay(s, it), x) <==> Has(s, x) || x == k.cur {
      InsertRemaining(s, it, x);
    }
    JoinedInv(k, k.sleepq, InsertedByDelay(s, it), st, k.procs[k.cur].sem, -1);
  }

  lemma AsleepStable(k: State, delay: int, st: PrState)
    requires MayBlock(k) && st in {SLEEP, RECTIM}
    ensures Stable(Asleep(k, delay, st))
  {
    AsleepInv(k, delay, st);
    ReschedStable(Joined(k, k.sleepq, InsertedByDelay(k.lists[k.sleepq], Item(k.cur, delay)), st, k.procs[k.cur].sem));
  }

  lemma AsleepFacts(k: State, delay: int, st: PrState)
    requires MayBlock(k) && st in {SLEEP, RECTIM}
    ensures k.sleepq in k.lists && Nowhere(k.lists, k.cur)
    ensures Inv(Joined(k, k.sleepq, InsertedByDelay(k.lists[k.sleepq], Item(k.cur, delay)), st, k.procs[k.cur].sem))
  {
    CurrentNowhere(k, -1);
    AsleepInv(k, delay, st);
  }

  function Recvtime(k: State, maxwait: int): State
    requires 0 <= k.cur < |k.procs| && k.sleepq in k.lists
  {
    if maxwait < 0 || k.procs[k.cur].hasmsg then k else Asleep(k, maxwait, RECTIM)
  }

  function Sleepms(k: State, delay: int): State
    requires 0 <= k.cur < |k.procs| && k.sleepq in k.lists
  {
    if delay < 0 then k else if delay == 0 then Resched(k) else Asleep(k, delay, SLEEP)
  }

  // Suspension.

  function Suspend(k: State, p: int): State {
    if BadPid(k, p) || p == NULLPROC || k.procs[p].state !in {CURR, READY} then k
    else if k.procs[p].state == READY then Dropped(k, PlainOff(k, p), p, SUSP)
    else Resched(Dropped(k, k.lists, p, SUSP))
  }

  lemma SuspendStable(k: State, p: int)
    requires Stable(k)
    ensures Stable(Suspend(k, p))
  {
    if !(BadPid(k, p) || p == NULLPROC) {
      if k.procs[p].state == READY {
        PlainOffDetached(k, p, -1);
        DroppedInv(k, PlainOff(k, p), p, SUSP, -1);
      } else if k.procs[p].state == CURR {
        ParkedInv(k, SUSP, -1);
        ReschedStable(Dropped(k, k.lists, p, SUSP));
      }
    }
  }

  function Resume(k: State, p: int): State {
    if BadPid(k, p) || k.procs[p].state != SUSP then k else ReadyUp(k, k.lists, p)
  }

  lemma ResumeStable(k: State, p: int)
    requires Stable(k)
    ensures Stable(Resume(k, p))
  {
    if !(BadPid(k, p) || k.procs[p].state != SUSP) {
      DetachedNone(k, p, -1);
      MakeReadyInv(k, k.lists, p, -1);
      ReschedStable(MakeReady(k, k.lists, p));
    }
  }

  /** A new process starts suspended. */
  function Created(k: State, p: int, prio: int): State
    requires 0 <= p < |k.procs|
  {
    k.(procs := k.procs[p := Proc(SUSP, prio, -1, k.cur, false, k.procs[p].msg)])
  }

  lemma CreatedStable(k: State, p: int, prio: int)
    requires Stable(k) && 0 <= p < |k.procs| && k.procs[p].state == FREE && prio >= 1
    ensures Stable(Created(k, p, prio))
  {
    var t := Created(k, p, prio);
    assert p != 0 && p != k.cur;
    forall q, x | q in k.lists ensures Has(k.lists[q], x) <==> OnQueue(t, x, q) {
      assert Has(k.lists[q], x) <==> OnQueue(k, x, q);
    }
    forall i | 0 <= i < |k.lists[k.ready]| ensures Keyed(t, k.lists[k.ready][i]) {
      assert Keyed(k, k.lists[k.ready][i]);
      HasAt(k.lists[k.ready], i);
      assert Has(k.lists[k.ready], k.lists[k.ready][i].pid) <==> OnQueue(k, k.lists[k.ready][i].pid, k.ready);
    }
    forall i | 0 <= i < |t.sems| ensures SemOk(t, i) {
      assert SemOk(k, i);
    }
  }

  // kill, in two parts: the message to the parent may let other processes run before the rest.

  function KillNotice(k: State, p: int): State {
    if BadPid(k, p) || p == NULLPROC then k else Send(k, k.procs[p].parent, p)
  }

  /** What kill does when it resumes, whatever the process's state has become. */
  function KillRest(k: State, p: int): State
    requires 0 <= p < |k.procs|
  {
    match k.procs[p].state
    case CURR => Resched(Dropped(k, k.lists, p, FREE))
    case SLEEP => Dropped(k, DelayOff(k, p), p, FREE)
    case RECTIM => Dropped(k, DelayOff(k, p), p, FREE)
    case WAIT =>
      var i := k.procs[p].sem;
      if 0 <= i < |k.sems| then
        var t := SetSem(k, i, k.sems[i].used, k.sems[i].count + 1);
        Dropped(t, PlainOff(t, p), p, FREE)
      else k
    case READY => Dropped(k, PlainOff(k, p), p, FREE)
    case _ => Dropped(k, k.lists, p, FREE)
  }

  lemma KillRestStable(k: State, p: int)
    requires Stable(k) && 0 < p < |k.procs|
    ensures Stable(KillRest(k, p))
    ensures |KillRest(k, p).procs| == |k.procs| && KillRest(k, p).procs[p].state == FREE
  {
    hide InvBut, Inv, Stable, Resched, PlainOff, DelayOff;
    StableParts(k);
    WaitingSem(k, p);
    match k.procs[p].state {
      case CURR =>
        Suicide(k);
      case SLEEP =>
        KillSleeper(k, p);
      case RECTIM =>
        KillSleeper(k, p);
      case WAIT =>
        KillWaiter(k, p);
      case READY =>
        KillReady(k, p);
      case FREE =>
        assert Dropped(k, k.lists, p, FREE) == k;
      case _ =>
        KillIdle(k, p);
    }
  }

  lemma WaitingSem(k: State, p: int)
    requires Stable(k) && 0 <= p < |k.procs|
    ensures k.procs[p].state == WAIT ==> 0 <= k.procs[p].sem < |k.sems|
    ensures k.procs[p].state == CURR ==> p == k.cur
  {
  }

  lemma KillIdle(k: State, p: int)
    requires Stable(k) && 0 < p < |k.procs| && k.procs[p].state in {SUSP, RECV}
    ensures Stable(Dropped(k, k.lists, p, FREE))
  {
    DetachedNone(k, p, -1);
    DroppedInv(k, k.lists, p, FREE, -1);
  }

  lemma Suicide(k: State)
    requires MayBlock(k)
    ensures var t := Resched(Dropped(k, k.lists, k.cur, FREE));
            Stable(t) && |t.procs| == |k.procs| && t.procs[k.cur].state == FREE
  {
    ParkedInv(k, FREE, -1);
    ReschedStable(Dropped(k, k.lists, k.cur, FREE));
    FreeNotDispatched(Dropped(k, k.lists, k.cur, FREE), k.cur);
  }

  lemma KillReady(k: State, p: int)
    requires Stable(k) && 0 < p < |k.procs| && k.procs[p].state == READY
    ensures Stable(Dropped(k, PlainOff(k, p), p, FREE))
  {
    PlainOffDetached(k, p, -1);
    DroppedInv(k, PlainOff(k, p), p, FREE, -1);
  }

  lemma FreeNotDispatched(k: State, p: int)
    requires Inv(k) && 0 <= p < |k.procs| && k.procs[p].state == FREE && p == k.cur && k.ndefers == 0
    ensures |Resched(k).procs| == |k.procs| && Resched(k).procs[p].state == FREE
  {
    SomeoneReady(k, -1);
  }

  lemma KillSleeper(k: State, p: int)
    requires Stable(k) && 0 < p < |k.procs| && k.procs[p].state in {SLEEP, RECTIM}
    ensures Stable(Dropped(k, DelayOff(k, p), p, FREE))
  {
    DelayOffDetached(k, p, -1);
    assert forall i :: 0 <= i < |k.lists[k.ready]| ==> Keyed(k, k.lists[k.ready][i]);
    DroppedInv(k, DelayOff(k, p), p, FREE, -1);
  }

  lemma KillWaiter(k: State, p: int)
    requires Stable(k) && 0 < p < |k.procs| && k.procs[p].state == WAIT
    ensures 0 <= k.procs[p].sem < |k.sems|
    ensures var i := k.procs[p].sem;
            var t := SetSem(k, i, k.sems[i].used, k.sems[i].count + 1);
            Stable(Dropped(t, PlainOff(t, p), p, FREE))
  {
    var i := k.procs[p].sem;
    var q, s := k.sems[i].queue, Waiters(k, i);
    assert SemOk(k, i);
    HomeOnly(k, -1, p, q);
    OutOfStep(k, i);
    SetSemInv(k, i, k.sems[i].used, k.sems[i].count + 1);
    var t := SetSem(k, i, k.sems[i].used, k.sems[i].count + 1);
    PlainOffDetached(t, p, i);
    DroppedInv(t, PlainOff(t, p), p, FREE, i);
    var u := Dropped(t, PlainOff(t, p), p, FREE);
    assert Waiters(u, i) == RemovedAt(s, IndexOf(s, p));
    hide InvBut, Has, RemovedAt;
    WaitersMatch(u, i);
  }

  // The clock.

  /** ready(dequeue(sleepq)). */
  function WakeFirst(k: State): State {
    if k.sleepq in k.lists && k.lists[k.sleepq] != [] then
      ReadyUp(k, k.lists[k.sleepq := k.lists[k.sleepq][1..]], k.lists[k.sleepq][0].pid)
    else k
  }

  function WakeN(k: State, n: nat): State
    decreases n
  {
    if n == 0 then k else WakeN(WakeFirst(k), n - 1)
  }

  function Wakeup(k: State): State {
    if k.sleepq in k.lists then DeferStop(WakeN(DeferStart(k), Due(k.lists[k.sleepq]))) else k
  }

  lemma WakeFirstInv(was: State, k: State)
    requires Inv(k) && Quiet(was, k) && k.lists[k.sleepq] != []
    ensures Inv(WakeFirst(k)) && Quiet(was, WakeFirst(k))
    ensures var t := WakeFirst(k); t.sleepq == k.sleepq && t.lists[t.sleepq] == k.lists[k.sleepq][1..]
    ensures WakeFirst(k).procs == k.procs[k.lists[k.sleepq][0].pid := k.procs[k.lists[k.sleepq][0].pid].(state := READY)]
  {
    var q, s, p := k.sleepq, k.lists[k.sleepq], k.lists[k.sleepq][0].pid;
    HasAt(s, 0);
    assert Has(s, p) <==> OnQueue(k, p, q);
    assert RemovedAt(s, 0) == s[1..];
    DetachedPlain(k, q, 0, -1);
    MakeReadyInv(k, k.lists[q := s[1..]], p, -1);
    ReschedDeferred(MakeReady(k, k.lists[q := s[1..]], p), -1);
  }

  /** What waking the first sleeper needs of the queue table. */
  lemma WakeFacts(k: State)
    requires Inv(k) && k.lists[k.sleepq] != []
    ensures var q, p := k.sleepq, k.lists[k.sleepq][0].pid;
            && 0 <= p < |k.procs| && k.procs[p].state in {SLEEP, RECTIM}
            && Detached(k, k.lists[q := k.lists[q][1..]], p)
  {
    var q, s, p := k.sleepq, k.lists[k.sleepq], k.lists[k.sleepq][0].pid;
    HasAt(s, 0);
    assert Has(s, p) <==> OnQueue(k, p, q);
    assert RemovedAt(s, 0) == s[1..];
    DetachedPlain(k, q, 0, -1);
  }

  lemma {:induction false} WakeNInv(was: State, k: State, n: nat)
    requires Inv(k) && Quiet(was, k) && n <= |k.lists[k.sleepq]|
    ensures Inv(WakeN(k, n)) && Quiet(was, WakeN(k, n))
    ensures var t := WakeN(k, n); t.sleepq == k.sleepq && t.lists[t.sleepq] == k.lists[k.sleepq][n..]
    decreases n
  {
    if n > 0 {
      hide Quiet, WakeFirst;
      WakeFirstInv(was, k);
      WakeNInv(was, WakeFirst(k), n - 1);
      assert k.lists[k.sleepq][1..][n - 1..] == k.lists[k.sleepq][n..];
    }
  }

  lemma WakeupStable(k: State)
    requires Stable(k)
    ensures Stable(Wakeup(k))
    ensures var t := Wakeup(k);
            && t.sleepq == k.sleepq && t.sleepq in t.lists
            && t.lists[t.sleepq] == k.lists[k.sleepq][Due(k.lists[k.sleepq])..]
  {
    var n, d := Due(k.lists[k.sleepq]), DeferStart(k);
    DeferStartQuiet(k, -1);
    WakeNInv(k, d, n);
    var t := WakeN(d, n);
    DeferStopStable(k, t);
    ReschedFrame(t.(ndefers := 0));
  }

  /** The sleep queue after the decrement of its first key. */
  function Decremented(k: State): State {
    if k.sleepq in k.lists then k.(lists := k.lists[k.sleepq := Ticked(k.lists[k.sleepq])]) else k
  }

  function Slept(k: State): State {
    if k.sleepq !in k.lists || k.lists[k.sleepq] == [] then k
    else if k.lists[k.sleepq][0].key - 1 <= 0 then Wakeup(Decremented(k))
    else Decremented(k)
  }

  /** A clock interrupt. */
  function Clock(k: State): State {
    var t := Slept(k);
    if t.preempt - 1 <= 0 then Resched(t.(preempt := QUANTUM)) else t.(preempt := t.preempt - 1)
  }

  lemma DecrementedStable(k: State)
    requires Stable(k) && k.lists[k.sleepq] != []
    ensures Stable(Decremented(k))
  {
    var t, s := Decremented(k), k.lists[k.sleepq];
    assert Ticked(s) == s[0 := Item(s[0].pid, s[0].key - 1)];
    forall x ensures Has(Ticked(s), x) <==> Has(s, x) {
      RekeyedHas(s, 0, s[0].key - 1, x);
    }
    assert NoRepeats(Ticked(s));
    hide Ticked;
    forall q, x | q in t.lists ensures Has(t.lists[q], x) <==> OnQueue(t, x, q) {
      assert Has(k.lists[q], x) <==> OnQueue(k, x, q);
    }
    forall i | 0 <= i < |t.sems| ensures SemOk(t, i) {
      assert SemOk(k, i);
    }
    forall i | 0 <= i < |t.lists[t.ready]| ensures Keyed(t, t.lists[t.ready][i]) {
      assert Keyed(k, k.lists[k.ready][i]);
    }
  }

  lemma SleptStable(k: State)
    requires Stable(k)
    ensures Stable(Slept(k))
    ensures var t := Slept(k);
            t.sleepq == k.sleepq && t.sleepq in t.lists && t.lists[t.sleepq] == Tick(k.lists[k.sleepq]).1
  {
    if k.lists[k.sleepq] != [] {
      DecrementedStable(k);
      var d := Decremented(k);
      assert d.lists[d.sleepq] == Ticked(k.lists[k.sleepq]);
      hide Wakeup, Due, Stable;
      if k.lists[k.sleepq][0].key - 1 <= 0 {
        WakeupStable(d);
      }
    }
  }

  /** A tick keeps the kernel stable and does to the sleep queue exactly what Tick says. */
  lemma ClockStable(k: State)
    requires Stable(k)
    ensures Stable(Clock(k))
    ensures var t := Clock(k);
            && t.sleepq == k.sleepq && k.sleepq in k.lists && t.sleepq in t.lists
            && t.lists[t.sleepq] == Tick(k.lists[k.sleepq]).1
  {
    hide Stable, Slept, Tick, Resched, InvBut, Inv;
    StableParts(k);
    SleptStable(k);
    QuantumStable(Slept(k));
  }

  lemma QuantumStable(t: State)
    requires Stable(t)
    ensures var c := if t.preempt - 1 <= 0 then Resched(t.(preempt := QUANTUM)) else t.(preempt := t.preempt - 1);
            Stable(c) && c.sleepq == t.sleepq && c.sleepq in c.lists && c.lists[c.sleepq] == t.lists[t.sleepq]
  {
    var u := t.(preempt := if t.preempt - 1 <= 0 then QUANTUM else t.preempt - 1);
    BookkeepingInv(t, u, -1);
    if t.preempt - 1 <= 0 {
      ReschedStable(u);
      ReschedFrame(u);
    }
  }
}
