/** What whole runs add up to: the arithmetic of semaphores, messages kept until they are taken, and
    the time slices of processes of equal priority. */
module KernelTraces {
  import opened Queues
  import opened Delta
  import opened KernelModel
  import S = KernelSteps
  import O = KernelOps
  import C = KernelCalls
  import opened KernelRun
  import F = KernelFair
  import opened KernelEffects

  // ---- semaphores ------------------------------------------------------------

  /** An accepted wait takes one, and blocks the caller exactly when there was none to take. */
  lemma WaitTakesOne(k: State, i: int, key: int)
    requires Stable(k) && Allowed(k, Act.Wait(i, key)) && InUse(k, i)
    ensures var t := Do(k, Act.Wait(i, key));
            && t.sems == k.sems[i := k.sems[i].(count := k.sems[i].count - 1)] && |t.procs| == |k.procs|
            && (k.sems[i].count <= 0 <==> t.procs[k.cur].state == WAIT && t.procs[k.cur].sem == i)
            && (forall p :: 0 <= p < |k.procs| && p != k.cur ==> Like(k.procs[p], t.procs[p]))
  {
    hide Stable, Inv, Do;
    C.StableParts(k);
    var a := Act.Wait(i, key);
    DoMeans(k, a);
    var t := Do(k, a);
    assert Like(Effect(k, a, k.cur), t.procs[k.cur]);
    forall p | 0 <= p < |k.procs| && p != k.cur ensures Like(k.procs[p], t.procs[p]) {
      assert Like(Effect(k, a, p), t.procs[p]);
    }
    forall j | 0 <= j < |k.sems| ensures t.sems[j] == k.sems[i := k.sems[i].(count := k.sems[i].count - 1)][j] {
      assert SemMeant(k, a, t, j);
    }
  }

  /** What a run did to one semaphore: signals to it, kills of its waiters, and waits on it. */
  datatype Tally = Tally(given: int, excused: int, taken: int)

  function Counted(k: State, a: Act, i: int): Tally {
    match a
    case Signal(j) => Tally(if j == i then 1 else 0, 0, 0)
    case Signaln(j, n) => Tally(if j == i && n >= 0 then n else 0, 0, 0)
    case KillRest(p) =>
      Tally(0, if 0 <= p < |k.procs| && k.procs[p].state == WAIT && k.procs[p].sem == i then 1 else 0, 0)
    case Wait(j, _) => Tally(0, 0, if j == i then 1 else 0)
    case _ => Tally(0, 0, 0)
  }

  ghost function TallyOf(k: State, acts: seq<Act>, i: int): Tally
    requires Stable(k) && AllAllowed(k, acts)
    decreases |acts|
  {
    if acts == [] then Tally(0, 0, 0)
    else
      DoStable(k, acts[0]);
      var x, y := Counted(k, acts[0], i), TallyOf(Do(k, acts[0]), acts[1..], i);
      Tally(x.given + y.given, x.excused + y.excused, x.taken + y.taken)
  }

  /** A run that neither resets nor deletes semaphore i. */
  ghost predicate Undisturbed(acts: seq<Act>, i: int) {
    forall j :: 0 <= j < |acts| ==> !((acts[j].Semreset? || acts[j].Semdelete?) && acts[j].sem == i)
  }

  /** The count is what the run started with, plus what was given, minus what was taken. */
  lemma {:induction false} CountOverRun(k: State, acts: seq<Act>, i: int)
    requires Stable(k) && AllAllowed(k, acts) && InUse(k, i) && Undisturbed(acts, i)
    ensures var t, y := RunActs(k, acts), TallyOf(k, acts, i);
            InUse(t, i) && t.sems[i].count == k.sems[i].count + y.given + y.excused - y.taken
    decreases |acts|
  {
    hide Stable, Do;
    if acts != [] {
      var t := Do(k, acts[0]);
      DoStable(k, acts[0]);
      assert !((acts[0].Semreset? || acts[0].Semdelete?) && acts[0].sem == i);
      DoCount(k, acts[0], i);
      CountOverRun(t, acts[1..], i);
    }
  }

  lemma DoCount(k: State, a: Act, i: int)
    requires Stable(k) && Allowed(k, a) && InUse(k, i) && !((a.Semreset? || a.Semdelete?) && a.sem == i)
    ensures var t, x := Do(k, a), Counted(k, a, i);
            InUse(t, i) && t.sems[i].count == k.sems[i].count + x.given + x.excused - x.taken
  {
    hide Inv, Do;
    DoMeans(k, a);
    assert SemMeant(k, a, Do(k, a), i);
  }

  /** From a semaphore with nobody waiting: the waits that have returned are exactly as many as it
      started with plus the signals, less what is left over. */
  lemma PassedWaits(k: State, acts: seq<Act>, i: int)
    requires Stable(k) && AllAllowed(k, acts) && InUse(k, i) && Undisturbed(acts, i) && k.sems[i].count >= 0
    ensures var t, y := RunActs(k, acts), TallyOf(k, acts, i);
            && InUse(t, i)
            && y.taken - y.excused - |O.Waiters(t, i)|
                == k.sems[i].count + y.given - (if t.sems[i].count > 0 then t.sems[i].count else 0)
  {
    hide Inv, RunActs, TallyOf;
    RunStable(k, acts);
    CountOverRun(k, acts, i);
    WaitersCount(RunActs(k, acts), i);
  }

  // ---- messages --------------------------------------------------------------

  /** A message sent to a live process with an empty slot is there; any other is refused. */
  lemma SendDelivers(k: State, p: int, msg: int)
    requires Stable(k)
    ensures var t := Do(k, Send(p, msg));
            if O.BadPid(k, p) || k.procs[p].hasmsg then t == k
            else |t.procs| == |k.procs| && t.procs[p].hasmsg && t.procs[p].msg == msg
                 && t.procs[p].state !in {RECV, RECTIM}
  {
    hide Stable, Inv, S.Resched;
    DoMeans(k, Send(p, msg));
    if !(O.BadPid(k, p) || k.procs[p].hasmsg) {
      assert Like(Effect(k, Send(p, msg), p), Do(k, Send(p, msg)).procs[p]);
    }
  }

  /** Nobody in the run takes p's message, and p's entry is not given to a new process. */
  ghost predicate Untaken(k: State, acts: seq<Act>, p: int)
    requires Stable(k) && AllAllowed(k, acts)
    decreases |acts|
  {
    acts == [] ||
    (!(acts[0].Take? && k.cur == p) && !(acts[0].Create? && acts[0].pid == p)
      && (DoStable(k, acts[0]); Untaken(Do(k, acts[0]), acts[1..], p)))
  }

  lemma DoSlot(k: State, a: Act, p: int)
    requires Stable(k) && Allowed(k, a) && 0 <= p < |k.procs| && k.procs[p].hasmsg
    requires !(a.Take? && k.cur == p) && !(a.Create? && a.pid == p)
    ensures var t := Do(k, a); |t.procs| == |k.procs| && t.procs[p].hasmsg && t.procs[p].msg == k.procs[p].msg
  {
    hide Stable, Inv, Do, Has;
    DoMeans(k, a);
    assert Like(Effect(k, a, p), Do(k, a).procs[p]);
  }

  /** Over any run a message stays in its slot until it is taken. */
  lemma {:induction false} SlotKept(k: State, acts: seq<Act>, p: int)
    requires Stable(k) && AllAllowed(k, acts) && Untaken(k, acts, p) && 0 <= p < |k.procs| && k.procs[p].hasmsg
    ensures var t := RunActs(k, acts); |t.procs| == |k.procs| && t.procs[p].hasmsg && t.procs[p].msg == k.procs[p].msg
    decreases |acts|
  {
    hide Stable, Do;
    if acts != [] {
      DoStable(k, acts[0]);
      DoSlot(k, acts[0], p);
      SlotKept(Do(k, acts[0]), acts[1..], p);
    }
  }

  /** What a step delivers to p, by send or by the death of a child, is what p finds whenever it next
      looks, however long that is: no later message replaces it. */
  lemma MessageArrives(k: State, a: Act, acts: seq<Act>, p: int, msg: int)
    requires Stable(k) && AllAllowed(k, [a] + acts) && MailOf(k, a) == Mail(p, msg)
    requires Stable(Do(k, a)) && AllAllowed(Do(k, a), acts) && Untaken(Do(k, a), acts, p)
    ensures var t := RunActs(Do(k, a), acts); 0 <= p < |t.procs| && t.procs[p].hasmsg && t.procs[p].msg == msg
  {
    hide Stable, Inv, Do, Has;
    DoMeans(k, a);
    assert Like(Effect(k, a, p), Do(k, a).procs[p]);
    SlotKept(Do(k, a), acts, p);
  }

  // ---- time slices -----------------------------------------------------------

  /** Nobody's delay runs out within n ticks. */
  predicate NobodyDue(k: State, n: int) {
    k.sleepq in k.lists && (k.lists[k.sleepq] == [] || k.lists[k.sleepq][0].key > n)
  }

  /** Before the time slice a tick that wakes nobody changes the first delay alone. */
  lemma SleptQuietly(k: State)
    requires Stable(k) && NobodyDue(k, 1)
    ensures var u := C.Slept(k);
            && Stable(u) && u == k.(lists := u.lists) && u.ready in u.lists && u.sleepq in u.lists
            && u.lists[u.ready] == k.lists[k.ready] && u.lists[u.sleepq] == Ticked(k.lists[k.sleepq])
  {
    C.SleptStable(k);
  }

  lemma SameRing(k: State, t: State)
    requires Stable(k) && Stable(t) && t.procs == k.procs && t.cur == k.cur && t.ready == k.ready
    requires t.ready in t.lists && k.ready in k.lists && t.lists[t.ready] == k.lists[k.ready]
    ensures F.Ring(t) == F.Ring(k)
  {
  }

  /** Inside a slice the same process goes on. */
  lemma TickWithin(k: State)
    requires Stable(k) && NobodyDue(k, 1) && k.preempt > 1
    ensures var t := C.Clock(k);
            && Stable(t) && t.preempt == k.preempt - 1 && F.Ring(t) == F.Ring(k)
            && (forall n :: n >= 1 && NobodyDue(k, n) ==> NobodyDue(t, n - 1))
  {
    hide InvBut, C.Slept;
    C.ClockStable(k);
    SleptQuietly(k);
    S.RangeFacts(k, -1);
    SameRing(k, C.Clock(k));
  }

  /** At the end of a slice the next process of equal priority gets a whole quantum. */
  lemma TickAtEnd(k: State)
    requires Stable(k) && NobodyDue(k, 1) && k.preempt <= 1
    ensures var t := C.Clock(k);
            && Stable(t) && t.preempt == QUANTUM && F.Ring(t) == F.Ring(k)[1..] + [F.Ring(k)[0]]
            && (forall n :: n >= 1 && NobodyDue(k, n) ==> NobodyDue(t, n - 1))
  {
    hide InvBut, C.Slept, S.Resched, F.Ring;
    C.ClockStable(k);
    SleptQuietly(k);
    S.RangeFacts(k, -1);
    var u := C.Slept(k);
    var v := u.(preempt := QUANTUM);
    S.BookkeepingInv(u, v, -1);
    SameRing(k, v);
    F.RingTurns(v);
    ReschedAlike(v, -1);
    forall n | n >= 1 && NobodyDue(k, n) ensures NobodyDue(C.Clock(k), n - 1) {
    }
  }

  ghost function TickN(k: State, n: nat): State
    requires Stable(k)
    decreases n
  {
    if n == 0 then k else C.ClockStable(k); TickN(C.Clock(k), n - 1)
  }

  /** While no sleeper is due, the ticks of one slice end with the next process of equal priority. */
  lemma {:induction false} SliceEnds(k: State, n: nat)
    requires Stable(k) && k.preempt >= 1 && n >= k.preempt && NobodyDue(k, n)
    ensures var t := TickN(k, k.preempt);
            && Stable(t) && t.preempt == QUANTUM && NobodyDue(t, n - k.preempt)
            && F.Ring(t) == F.Ring(k)[1..] + [F.Ring(k)[0]]
    ensures forall j :: 0 <= j < k.preempt ==> TickN(k, j).cur == k.cur
    decreases k.preempt
  {
    hide Stable, F.Ring, C.Clock;
    if k.preempt == 1 {
      TickAtEnd(k);
    } else {
      TickWithin(k);
      SliceEnds(C.Clock(k), n - 1);
    }
  }

  lemma NoTicks(k: State)
    requires Stable(k)
    ensures TickN(k, 0) == k
  {
  }

  lemma {:induction false} TicksAdd(k: State, n: nat, m: nat)
    requires Stable(k)
    ensures Stable(TickN(k, n)) && TickN(TickN(k, n), m) == TickN(k, n + m)
    decreases n
  {
    hide Stable, C.Clock;
    if n > 0 {
      C.ClockStable(k);
      TicksAdd(C.Clock(k), n - 1, m);
    }
  }

  /** Processes of equal priority run in turn, QUANTUM ticks each, as long as no sleeper is due. */
  lemma {:induction false} RoundRobin(k: State, m: nat)
    requires Stable(k) && k.preempt == QUANTUM && m <= |F.Ring(k)| && NobodyDue(k, QUANTUM * m)
    ensures var t := TickN(k, QUANTUM * m);
            Stable(t) && t.preempt == QUANTUM && F.Ring(t) == F.Ring(k)[m..] + F.Ring(k)[..m]
    decreases m
  {
    hide Stable, F.Ring, C.Clock, TickN, NobodyDue;
    var r := F.Ring(k);
    if m > 0 {
      SliceEnds(k, QUANTUM * m);
      var t := r[1..] + [r[0]];
      RoundRobin(TickN(k, QUANTUM), m - 1);
      TicksAdd(k, QUANTUM, QUANTUM * (m - 1));
      assert t[m - 1..] + t[..m - 1] == r[m..] + r[..m];
    } else {
      NoTicks(k);
    }
  }

  /** A yield, and a sleep of no time, give the processor to the next process of equal priority. */
  lemma YieldTurns(k: State)
    requires Stable(k)
    ensures Allowed(k, Sleepms(0)) && Do(k, Sleepms(0)) == Do(k, Yield)
    ensures Stable(Do(k, Yield)) && F.Ring(Do(k, Yield)) == F.Ring(k)[1..] + [F.Ring(k)[0]]
  {
    F.RingTurns(k);
  }
}
