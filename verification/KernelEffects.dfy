/** What every step does to every process and every semaphore, said without the queues: the diagram
    of process states, the message slots, and the arithmetic of semaphore counts over whole runs. */
module KernelEffects {
  import opened Queues
  import opened Delta
  import opened KernelModel
  import S = KernelSteps
  import O = KernelOps
  import C = KernelCalls
  import opened KernelRun

  /** The same process, up to which of the eligible ones has the processor. */
  predicate Like(x: Proc, y: Proc) {
    y == x.(state := y.state) && (y.state == x.state || (x.state in {CURR, READY} && y.state in {CURR, READY}))
  }

  ghost predicate Alike(k: State, t: State) {
    |t.procs| == |k.procs| && forall p :: 0 <= p < |k.procs| ==> Like(k.procs[p], t.procs[p])
  }

  /** A process newly given the processor has a whole quantum; otherwise the slice runs on. */
  predicate SliceKept(k: State, t: State) {
    t.preempt == QUANTUM || (t.preempt == k.preempt && t.cur == k.cur)
  }

  // ---- what a step means -----------------------------------------------------

  datatype Mail = NoMail | Mail(pid: int, msg: int)

  /** The message a step delivers: to a live process with an empty slot, or not at all. */
  function MailTo(k: State, pid: int, msg: int): Mail {
    if 0 <= pid < |k.procs| && k.procs[pid].state != FREE && !k.procs[pid].hasmsg then Mail(pid, msg) else NoMail
  }

  /** kill tells the victim's parent the victim's number. */
  function MailOf(k: State, a: Act): Mail {
    match a
    case Send(p, msg) => MailTo(k, p, msg)
    case KillNotice(p) =>
      if 0 < p < |k.procs| && k.procs[p].state != FREE then MailTo(k, k.procs[p].parent, p) else NoMail
    case _ => NoMail
  }

  predicate InUse(k: State, i: int) {
    0 <= i < |k.sems| && k.sems[i].used
  }

  function FirstOf(w: seq<Item>, n: nat): seq<Item> {
    if n <= |w| then w[..n] else w
  }

  /** The waiters and sleepers a step lets through. */
  function LetThrough(k: State, a: Act): seq<Item> {
    match a
    case Signal(i) => if InUse(k, i) then FirstOf(O.Waiters(k, i), 1) else []
    case Signaln(i, n) => if InUse(k, i) && n >= 0 then FirstOf(O.Waiters(k, i), n) else []
    case Semreset(i, n) => if InUse(k, i) && n >= 0 then O.Waiters(k, i) else []
    case Semdelete(i) => if InUse(k, i) then O.Waiters(k, i) else []
    case ClockTick => if k.sleepq in k.lists then Tick(k.lists[k.sleepq]).0 else []
    case _ => []
  }

  /** Process p after a step, READY standing for eligible. */
  function Effect(k: State, a: Act, p: int): Proc
    requires 0 <= p < |k.procs|
  {
    var pr := k.procs[p];
    var mail := MailOf(k, a);
    if mail.Mail? && mail.pid == p then
      pr.(hasmsg := true, msg := mail.msg, state := if pr.state in {RECV, RECTIM} then READY else pr.state)
    else if Has(LetThrough(k, a), p) then pr.(state := READY)
    else
      match a
      case Wait(i, _) => if p == k.cur && InUse(k, i) && k.sems[i].count <= 0 then pr.(state := WAIT, sem := i) else pr
      case Receive => if p == k.cur && !pr.hasmsg then pr.(state := RECV) else pr
      case Take => if p == k.cur then pr.(hasmsg := false) else pr
      case Recvtime(d) => if p == k.cur && d >= 0 && !pr.hasmsg then pr.(state := RECTIM) else pr
      case Sleepms(d) => if p == k.cur && d > 0 then pr.(state := SLEEP) else pr
      case Suspend(q) => if p == q && p != NULLPROC && pr.state in {CURR, READY} then pr.(state := SUSP) else pr
      case Resume(q) => if p == q && pr.state == SUSP then pr.(state := READY) else pr
      case KillRest(q) => if p == q then pr.(state := FREE) else pr
      case Create(q, prio) => if p == q then Proc(SUSP, prio, -1, k.cur, false, pr.msg) else pr
      case _ => pr
  }

  /** Semaphore i after a step; the count of an entry that is not in use does not matter. */
  function CountAfter(k: State, a: Act, i: int): int
    requires 0 <= i < |k.sems|
  {
    var c := k.sems[i].count;
    match a
    case Wait(j, _) => if j == i then c - 1 else c
    case Signal(j) => if j == i then c + 1 else c
    case Signaln(j, n) => if j == i && n >= 0 then c + n else c
    case Semreset(j, n) => if j == i && n >= 0 then n else c
    case Semcreate(j, n) => if j == i then n else c
    case KillRest(p) => if 0 <= p < |k.procs| && k.procs[p].state == WAIT && k.procs[p].sem == i then c + 1 else c
    case _ => c
  }

  function UsedAfter(k: State, a: Act, i: int): bool
    requires 0 <= i < |k.sems|
  {
    if a.Semdelete? && a.sem == i then false else if a.Semcreate? && a.sem == i then true else k.sems[i].used
  }

  // ---- rescheduling and releasing -----------------------------------------------

  lemma AlikeTrans(k: State, t: State, u: State)
    requires Alike(k, t) && Alike(t, u)
    ensures Alike(k, u)
  {
    forall p | 0 <= p < |k.procs| ensures Like(k.procs[p], u.procs[p]) {
      assert Like(k.procs[p], t.procs[p]) && Like(t.procs[p], u.procs[p]);
    }
  }

  lemma DispatchedAlike(k: State, but: int)
    requires InvBut(k, but) && k.procs[k.cur].state != CURR
    ensures Alike(k, S.Dispatched(k)) && S.Dispatched(k).sems == k.sems && S.Dispatched(k).preempt == QUANTUM
  {
    S.SomeoneReady(k, but);
  }

  /** Giving out the processor only moves it between eligible processes. */
  lemma ReschedAlike(k: State, but: int)
    requires InvBut(k, but)
    ensures Alike(k, S.Resched(k)) && S.Resched(k).sems == k.sems && SliceKept(k, S.Resched(k))
  {
    hide InvBut, S.Dispatched, S.MakeReady;
    S.RangeFacts(k, but);
    if k.ndefers <= 0 {
      if k.procs[k.cur].state == CURR {
        S.PreemptedInv(k, but);
        PreemptedAlike(k);
        DispatchedAlike(S.Preempted(k), but);
        AlikeTrans(k, S.Preempted(k), S.Dispatched(S.Preempted(k)));
      } else {
        DispatchedAlike(k, but);
      }
    }
  }

  lemma PreemptedAlike(k: State)
    requires 0 <= k.cur < |k.procs| && k.procs[k.cur].state == CURR && k.ready in k.lists
    ensures Alike(k, S.Preempted(k)) && S.Preempted(k).sems == k.sems
    ensures S.Preempted(k).procs[k.cur].state != CURR && S.Preempted(k).cur == k.cur
  {
  }

  /** u is t with some processes made eligible. */
  ghost predicate Readied(t: State, u: State, s: seq<Item>) {
    |u.procs| == |t.procs| && u.preempt == t.preempt && u.cur == t.cur && forall p :: 0 <= p < |t.procs| ==>
      u.procs[p] == if Has(s, p) then t.procs[p].(state := READY) else t.procs[p]
  }

  lemma ReadiedMore(t: State, u: State, v: State, w: seq<Item>, n: nat)
    requires n < |w| && Readied(t, u, w[..1]) && Readied(u, v, w[1..][..n])
    ensures Readied(t, v, w[..n + 1])
  {
    forall p | 0 <= p < |t.procs| ensures Has(w[..n + 1], p) <==> Has(w[..1], p) || Has(w[1..][..n], p) {
      assert w[..n + 1] == w[..1] + w[1..][..n];
      JoinHas(w[..1], w[1..][..n], p);
    }
  }

  lemma JoinHas(s: seq<Item>, t: seq<Item>, p: int)
    ensures Has(s + t, p) <==> Has(s, p) || Has(t, p)
  {
    if Has(s, p) {
      var i :| 0 <= i < |s| && s[i].pid == p;
      assert (s + t)[i].pid == p;
    }
    if Has(t, p) {
      var i :| 0 <= i < |t| && t[i].pid == p;
      assert (s + t)[|s| + i].pid == p;
    }
    if Has(s + t, p) {
      var i :| 0 <= i < |s + t| && (s + t)[i].pid == p;
      assert if i < |s| then s[i].pid == p else t[i - |s|].pid == p;
    }
  }

  lemma ReadiedNone(t: State, s: seq<Item>)
    requires s == []
    ensures Readied(t, t, s)
  {
  }

  /** The first waiter becomes eligible, and nobody else is touched while rescheduling is deferred. */
  lemma ReleaseFirstReadies(was: State, k: State, i: int)
    requires InvBut(k, i) && 0 <= i < |k.sems| && O.Waiters(k, i) != [] && O.Quiet(was, k)
    ensures Readied(k, O.ReleaseFirst(k, i), O.Waiters(k, i)[..1]) && O.ReleaseFirst(k, i).sems == k.sems
  {
    hide InvBut, S.MakeReady;
    O.ReleasedInv(k, i);
    var w := O.Waiters(k, i);
    O.TablesOf(k, i);
    forall p ensures Has(w[..1], p) <==> p == w[0].pid {
      if p == w[0].pid {
        assert w[..1][0].pid == p;
      }
    }
  }

  lemma {:induction false} ReleaseNReadies(was: State, k: State, i: int, n: nat)
    requires InvBut(k, i) && 0 <= i < |k.sems| && n <= |O.Waiters(k, i)| && O.Quiet(was, k)
    ensures Readied(k, O.ReleaseN(k, i, n), O.Waiters(k, i)[..n]) && O.ReleaseN(k, i, n).sems == k.sems
    decreases n
  {
    hide InvBut, O.Quiet, O.ReleaseFirst, Readied, O.Waiters;
    if n == 0 {
      ReadiedNone(k, O.Waiters(k, i)[..0]);
    } else {
      var t := O.ReleaseFirst(k, i);
      ReleaseFirstReadies(was, k, i);
      O.ReleaseFirstInv(was, k, i);
      ReleaseNReadies(was, t, i, n - 1);
      ReadiedMore(k, t, O.ReleaseN(t, i, n - 1), O.Waiters(k, i), n - 1);
    }
  }

  /** One signal while rescheduling is deferred: the count rises by one, the first waiter is eligible. */
  lemma SignalOneReadies(was: State, k: State, i: int)
    requires Inv(k) && !O.BadSem(k, i) && O.Quiet(was, k)
    ensures var t := O.SignalOne(k, i);
            && Readied(k, t, FirstOf(O.Waiters(k, i), 1))
            && t.sems == k.sems[i := k.sems[i].(count := k.sems[i].count + 1)]
            && O.Waiters(t, i) == if O.Waiters(k, i) == [] then [] else O.Waiters(k, i)[1..]
  {
    assert SemOk(k, i);
    O.SignalOneCore(k, i);
    var t := S.SetSem(k, i, true, k.sems[i].count + 1);
    hide InvBut, O.ReleaseFirst, SemOk;
    if k.sems[i].count < 0 {
      ReleaseFirstReadies(was, t, i);
      O.ReleaseFirstInv(was, t, i);
      assert Readied(t, O.ReleaseFirst(t, i), O.Waiters(k, i)[..1]);
    } else {
      ReadiedNone(k, FirstOf(O.Waiters(k, i), 1));
    }
  }

  lemma {:induction false} SignalLoopReadies(was: State, k: State, i: int, n: nat)
    requires Inv(k) && !O.BadSem(k, i) && O.Quiet(was, k)
    ensures Readied(k, O.SignalLoop(k, i, n), FirstOf(O.Waiters(k, i), n))
    ensures O.SignalLoop(k, i, n).sems == k.sems[i := k.sems[i].(count := k.sems[i].count + n)]
    decreases n
  {
    hide Inv, O.Quiet, O.SignalOne, Readied, O.Waiters;
    if n == 0 {
      ReadiedNone(k, FirstOf(O.Waiters(k, i), 0));
    } else {
      var t, w := O.SignalOne(k, i), O.Waiters(k, i);
      SignalOneReadies(was, k, i);
      O.SignalOneDeferred(was, k, i);
      SignalLoopReadies(was, t, i, n - 1);
      if w != [] {
        var m := if n <= |w| then n - 1 else |w| - 1;
        assert FirstOf(w[1..], n - 1) == w[1..][..m] && FirstOf(w, n) == w[..m + 1];
        ReadiedMore(k, t, O.SignalLoop(t, i, n - 1), w, m);
      } else {
        ReadiedTwice(k, t, O.SignalLoop(t, i, n - 1));
      }
    }
  }

  lemma ReadiedTwice(t: State, u: State, v: State)
    requires Readied(t, u, []) && Readied(u, v, [])
    ensures Readied(t, v, [])
  {
  }

  lemma {:induction false} WakeNReadies(was: State, k: State, n: nat)
    requires Inv(k) && O.Quiet(was, k) && n <= |k.lists[k.sleepq]|
    ensures Readied(k, C.WakeN(k, n), k.lists[k.sleepq][..n]) && C.WakeN(k, n).sems == k.sems
    decreases n
  {
    hide InvBut, O.Quiet, C.WakeFirst, Readied;
    S.RangeFacts(k, -1);
    if n == 0 {
      ReadiedNone(k, k.lists[k.sleepq][..0]);
    } else {
      var t, s := C.WakeFirst(k), k.lists[k.sleepq];
      C.WakeFirstInv(was, k);
      WakeFirstReadies(was, k);
      WakeNReadies(was, t, n - 1);
      ReadiedMore(k, t, C.WakeN(t, n - 1), s, n - 1);
    }
  }

  lemma WakeFirstReadies(was: State, k: State)
    requires Inv(k) && O.Quiet(was, k) && k.lists[k.sleepq] != []
    ensures Readied(k, C.WakeFirst(k), k.lists[k.sleepq][..1]) && C.WakeFirst(k).sems == k.sems
  {
    C.WakeFirstInv(was, k);
    var s := k.lists[k.sleepq];
    hide Inv, S.MakeReady;
    forall p ensures Has(s[..1], p) <==> p == s[0].pid {
      if p == s[0].pid {
        assert s[..1][0].pid == p;
      }
    }
  }

  // ---- every step ------------------------------------------------------------

  /** Going from k to t means a to every process, to every semaphore and to the time slice. */
  ghost predicate Meant(k: State, a: Act, t: State) {
    && |t.procs| == |k.procs| && |t.sems| == |k.sems|
    && (forall p :: 0 <= p < |k.procs| ==> Like(Effect(k, a, p), t.procs[p]))
    && (forall i :: 0 <= i < |k.sems| ==> SemMeant(k, a, t, i))
    && (!a.ClockTick? ==> SliceKept(k, t))
  }

  predicate SemMeant(k: State, a: Act, t: State, i: int)
    requires 0 <= i < |k.sems| == |t.sems|
  {
    && t.sems[i].queue == k.sems[i].queue && t.sems[i].used == UsedAfter(k, a, i)
    && (if t.sems[i].used then t.sems[i].count == CountAfter(k, a, i) else k.sems[i].used || t.sems[i] == k.sems[i])
  }

  /** t is k after the table entries of a were written, before the processor is given out. */
  ghost predicate Written(k: State, a: Act, t: State) {
    && |t.procs| == |k.procs| && |t.sems| == |k.sems| && t.preempt == k.preempt && t.cur == k.cur
    && (forall p :: 0 <= p < |k.procs| ==> t.procs[p] == Effect(k, a, p))
    && (forall i :: 0 <= i < |k.sems| ==> SemMeant(k, a, t, i))
  }

  lemma WrittenMeant(k: State, a: Act, t: State, u: State)
    requires Written(k, a, t) && Alike(t, u) && u.sems == t.sems && (!a.ClockTick? ==> SliceKept(t, u))
    ensures Meant(k, a, u)
  {
    hide Effect, UsedAfter, CountAfter;
    forall i | 0 <= i < |k.sems| ensures SemMeant(k, a, u, i) {
      assert SemMeant(k, a, t, i);
    }
  }

  lemma SelfAlike(t: State)
    ensures Alike(t, t) && SliceKept(t, t)
  {
  }

  lemma Unchanged(k: State, a: Act)
    requires Written(k, a, k)
    ensures Meant(k, a, k)
  {
    SelfAlike(k);
    WrittenMeant(k, a, k, k);
  }

  lemma DeferStopAlike(t: State, but: int)
    requires InvBut(t, but) && t.ndefers == 1
    ensures Alike(t, S.DeferStop(t)) && S.DeferStop(t).sems == t.sems && SliceKept(t, S.DeferStop(t))
  {
    hide InvBut, S.Resched;
    var u := t.(ndefers := 0);
    S.BookkeepingInv(t, u, but);
    ReschedAlike(u, but);
    SelfAlike(t);
  }

  /** A semaphore's count says how many wait. */
  lemma WaitersCount(k: State, i: int)
    requires Inv(k) && !O.BadSem(k, i)
    ensures |O.Waiters(k, i)| == if k.sems[i].count < 0 then -k.sems[i].count else 0
  {
    assert SemOk(k, i);
  }

  lemma WaitMeant(k: State, i: int, key: int)
    requires Stable(k) && Allowed(k, Act.Wait(i, key))
    ensures Meant(k, Act.Wait(i, key), C.Wait(k, i, key))
  {
    hide Stable, InvBut, Alike, S.Resched, Meant;
    C.StableParts(k);
    var a := Act.Wait(i, key);
    if O.BadSem(k, i) {
      Unchanged(k, a);
    } else if k.sems[i].count <= 0 {
      C.WaitFacts(k, i, key);
      var t := S.SetSem(k, i, true, k.sems[i].count - 1);
      var u := S.Joined(t, t.sems[i].queue, O.Waiters(k, i) + [Item(k.cur, key)], WAIT, i);
      ReschedAlike(u, -1);
      WrittenMeant(k, a, u, S.Resched(u));
    } else {
      var t := C.Wait(k, i, key);
      SelfAlike(t);
      WrittenMeant(k, a, t, t);
    }
  }

  lemma SignalMeant(k: State, i: int)
    requires Stable(k)
    ensures Meant(k, Act.Signal(i), O.Signal(k, i))
  {
    hide Stable, InvBut, Alike, S.Resched, S.MakeReady, Meant, SemOk;
    C.StableParts(k);
    var a := Act.Signal(i);
    if O.BadSem(k, i) {
      Unchanged(k, a);
    } else {
      O.SignalOneCore(k, i);
      WaitersCount(k, i);
      var t, w := S.SetSem(k, i, true, k.sems[i].count + 1), O.Waiters(k, i);
      if k.sems[i].count < 0 {
        O.ReleasedInv(t, i);
        var u := S.MakeReady(t, t.lists[t.sems[i].queue := t.lists[t.sems[i].queue][1..]], w[0].pid);
        ReschedAlike(u, i);
        FirstHas(w);
        WrittenMeant(k, a, u, S.Resched(u));
      } else {
        SelfAlike(t);
        WrittenMeant(k, a, t, t);
      }
    }
  }

  lemma FirstHas(w: seq<Item>)
    requires w != []
    ensures forall p :: Has(FirstOf(w, 1), p) <==> p == w[0].pid
  {
    forall p ensures Has(FirstOf(w, 1), p) <==> p == w[0].pid {
      if p == w[0].pid {
        assert w[..1][0].pid == p;
      }
    }
  }

  lemma SignalnMeant(k: State, i: int, n: int)
    requires Stable(k)
    ensures Meant(k, Signaln(i, n), O.Signaln(k, i, n))
  {
    hide Stable, InvBut, Alike, S.Resched, Meant, O.SignalLoop, O.Quiet, FirstOf;
    C.StableParts(k);
    var a := Signaln(i, n);
    if O.BadSem(k, i) || n < 0 {
      Unchanged(k, a);
    } else {
      hide Has;
      var d := S.DeferStart(k);
      var t := O.SignalLoop(d, i, n);
      O.DeferStartQuiet(k, -1);
      SignalLoopReadies(k, d, i, n);
      O.SignalLoopInv(k, d, i, n);
      DeferStopAlike(t, -1);
      WrittenMeant(k, a, t, S.DeferStop(t));
    }
  }

  lemma SemresetMeant(k: State, i: int, n: int)
    requires Stable(k)
    ensures Meant(k, Semreset(i, n), O.Semreset(k, i, n))
  {
    hide Stable, InvBut, Alike, S.Resched, Meant, O.ReleaseN, O.Quiet;
    C.StableParts(k);
    var a := Semreset(i, n);
    if O.BadSem(k, i) || n < 0 {
      Unchanged(k, a);
    } else {
      hide Has;
      var d, w := S.DeferStart(k), O.Waiters(k, i);
      O.DeferStartQuiet(k, -1);
      S.OutOfStep(d, i);
      ReleaseNReadies(k, d, i, |w|);
      O.ReleaseNInv(k, d, i, |w|);
      var t := O.ReleaseN(d, i, |w|);
      var u := S.SetSem(t, i, true, n);
      S.SetSemInv(t, i, true, n);
      DeferStopAlike(u, i);
      assert w[..|w|] == w;
      WrittenMeant(k, a, u, S.DeferStop(u));
    }
  }

  lemma SemdeleteMeant(k: State, i: int)
    requires Stable(k)
    ensures Meant(k, Semdelete(i), O.Semdelete(k, i))
  {
    hide Stable, InvBut, Alike, S.Resched, Meant, O.ReleaseN, O.Quiet;
    C.StableParts(k);
    var a := Semdelete(i);
    if O.BadSem(k, i) {
      Unchanged(k, a);
    } else {
      hide Has;
      var c, w := k.sems[i].count, O.Waiters(k, i);
      var e := S.SetSem(S.DeferStart(k), i, false, c);
      O.SemdeleteCore(k, i);
      ReleaseNReadies(k, e, i, |w|);
      O.ReleaseNInv(k, e, i, |w|);
      var t := O.ReleaseN(e, i, |w|);
      var u := S.SetSem(t, i, false, if c < 0 then 1 else c + 1);
      S.SetSemInv(t, i, false, if c < 0 then 1 else c + 1);
      DeferStopAlike(u, i);
      assert w[..|w|] == w;
      WrittenMeant(k, a, u, S.DeferStop(u));
    }
  }

  lemma MailWritten(k: State, a: Act, p: int, msg: int, u: State)
    requires (a.Send? || a.KillNotice?) && MailOf(k, a) == Mail(p, msg) && 0 <= p < |k.procs|
    requires u.sems == k.sems && u.preempt == k.preempt && u.cur == k.cur
    requires var pr := k.procs[p];
             u.procs == k.procs[p := pr.(hasmsg := true, msg := msg, state := if pr.state in {RECV, RECTIM} then READY else pr.state)]
    ensures Written(k, a, u)
  {
    hide MailOf;
  }

  lemma SendMeant(k: State, a: Act, p: int, msg: int)
    requires Stable(k) && (a.Send? || a.KillNotice?) && MailOf(k, a) == MailTo(k, p, msg)
    ensures Meant(k, a, C.Send(k, p, msg))
  {
    hide MailOf, Stable, InvBut, Alike, S.Resched, Meant, Written, O.DelayOff, Home, S.Detached;
    C.StableParts(k);
    if O.BadPid(k, p) || k.procs[p].hasmsg {
      NoMailWritten(k, a);
      Unchanged(k, a);
    } else {
      var t := C.Delivered(k, p, msg);
      if k.procs[p].state == RECV || k.procs[p].state == RECTIM {
        S.MessageInv(k, t, p, -1);
        var l := if k.procs[p].state == RECV then t.lists else O.DelayOff(t, p);
        MessageDetached(t, p);
        S.MakeReadyInv(t, l, p, -1);
        S.DetachedFacts(t, l, p, -1);
        var u := S.MakeReady(t, l, p);
        ReschedAlike(u, -1);
        MailWritten(k, a, p, msg, u);
        WrittenMeant(k, a, u, S.Resched(u));
      } else {
        SelfAlike(t);
        MailWritten(k, a, p, msg, t);
        WrittenMeant(k, a, t, t);
      }
    }
  }

  lemma NoMailWritten(k: State, a: Act)
    requires (a.Send? || a.KillNotice?) && MailOf(k, a) == NoMail
    ensures Written(k, a, k)
  {
  }

  lemma MessageDetached(t: State, p: int)
    requires Inv(t) && 0 <= p < |t.procs| && t.procs[p].state in {RECV, RECTIM}
    ensures S.Detached(t, if t.procs[p].state == RECV then t.lists else O.DelayOff(t, p), p)
  {
    if t.procs[p].state == RECV {
      S.DetachedNone(t, p, -1);
    } else {
      O.DelayOffDetached(t, p, -1);
    }
  }

  lemma SleepingMeant(k: State, a: Act, d: int, st: PrState)
    requires C.MayBlock(k) && ((a == Recvtime(d) && d >= 0 && !k.procs[k.cur].hasmsg && st == RECTIM) || (a == Sleepms(d) && d > 0 && st == SLEEP))
    ensures k.sleepq in k.lists && Meant(k, a, C.Asleep(k, d, st))
  {
    hide Stable, InvBut, Alike, S.Resched, Meant, InsertedByDelay;
    C.StableParts(k);
    C.AsleepFacts(k, d, st);
    var u := S.Joined(k, k.sleepq, InsertedByDelay(k.lists[k.sleepq], Item(k.cur, d)), st, k.procs[k.cur].sem);
    ReschedAlike(u, -1);
    WrittenMeant(k, a, u, S.Resched(u));
  }

  lemma SuspendMeant(k: State, p: int)
    requires Stable(k)
    ensures Meant(k, Suspend(p), C.Suspend(k, p))
  {
    hide Stable, InvBut, Alike, S.Resched, Meant, O.PlainOff;
    C.StableParts(k);
    if O.BadPid(k, p) || p == NULLPROC || k.procs[p].state !in {CURR, READY} {
      Unchanged(k, Suspend(p));
    } else if k.procs[p].state == READY {
      var t := S.Dropped(k, O.PlainOff(k, p), p, SUSP);
      SelfAlike(t);
      WrittenMeant(k, Suspend(p), t, t);
    } else {
      C.WaitingSem(k, p);
      S.ParkedInv(k, SUSP, -1);
      var t := S.Dropped(k, k.lists, p, SUSP);
      ReschedAlike(t, -1);
      WrittenMeant(k, Suspend(p), t, S.Resched(t));
    }
  }

  lemma ResumeMeant(k: State, p: int)
    requires Stable(k)
    ensures Meant(k, Resume(p), C.Resume(k, p))
  {
    hide Stable, InvBut, Alike, S.Resched, Meant;
    C.StableParts(k);
    if O.BadPid(k, p) || k.procs[p].state != SUSP {
      Unchanged(k, Resume(p));
    } else {
      S.DetachedNone(k, p, -1);
      S.MakeReadyInv(k, k.lists, p, -1);
      S.RangeFacts(k, -1);
      var t := S.MakeReady(k, k.lists, p);
      ReschedAlike(t, -1);
      WrittenMeant(k, Resume(p), t, S.Resched(t));
    }
  }

  lemma WaiterInUse(k: State, p: int)
    requires Stable(k) && 0 <= p < |k.procs| && k.procs[p].state == WAIT
    ensures InUse(k, k.procs[p].sem)
  {
    var i := k.procs[p].sem;
    S.HomeOnly(k, -1, p, k.sems[i].queue);
    assert SemOk(k, i);
  }

  lemma KillRestMeant(k: State, p: int)
    requires Stable(k) && 0 < p < |k.procs|
    ensures Meant(k, KillRest(p), C.KillRest(k, p))
  {
    hide Stable, InvBut, Alike, S.Resched, Meant, O.PlainOff, O.DelayOff;
    C.StableParts(k);
    C.WaitingSem(k, p);
    if k.procs[p].state == WAIT {
      WaiterInUse(k, p);
    }
    if k.procs[p].state == CURR {
      var t := S.Dropped(k, k.lists, p, FREE);
      S.ParkedInv(k, FREE, -1);
      ReschedAlike(t, -1);
      WrittenMeant(k, KillRest(p), t, S.Resched(t));
    } else {
      var t := C.KillRest(k, p);
      SelfAlike(t);
      WrittenMeant(k, KillRest(p), t, t);
    }
  }

  lemma SleptReadies(k: State)
    requires Stable(k)
    ensures k.sleepq in k.lists
    ensures exists t :: Readied(k, t, Tick(k.lists[k.sleepq]).0) && Alike(t, C.Slept(k)) && C.Slept(k).sems == k.sems == t.sems
  {
    hide Stable, InvBut, Alike, S.DeferStop, Readied, C.WakeN, O.Quiet, Due, Ticked;
    C.StableParts(k);
    S.RangeFacts(k, -1);
    var s := k.lists[k.sleepq];
    if s == [] || s[0].key - 1 > 0 {
      var t := C.Slept(k);
      SelfAlike(t);
      ReadiedNone(t, Tick(s).0);
      ReadiedLike(t, k, t, Tick(s).0);
      assert Readied(k, t, Tick(s).0) && Alike(t, C.Slept(k));
    } else {
      C.DecrementedStable(k);
      var d := C.Decremented(k);
      O.DeferStartQuiet(d, -1);
      var e, n := S.DeferStart(d), Due(Ticked(s));
      WakeNReadies(d, e, n);
      C.WakeNInv(d, e, n);
      var t := C.WakeN(e, n);
      DeferStopAlike(t, -1);
      ReadiedLike(e, k, t, Tick(s).0);
      assert Readied(k, t, Tick(s).0) && Alike(t, C.Slept(k));
    }
  }

  lemma ReadiedLike(t: State, k: State, u: State, s: seq<Item>)
    requires Readied(t, u, s) && k.procs == t.procs && k.cur == t.cur && k.preempt == t.preempt
    ensures Readied(k, u, s)
  {
  }

  lemma ClockMeant(k: State)
    requires Stable(k)
    ensures Meant(k, Act.ClockTick, C.Clock(k))
  {
    hide Stable, InvBut, Alike, S.Resched, C.Slept, Meant, Tick, Has;
    SleptReadies(k);
    C.SleptStable(k);
    var u := C.Slept(k);
    C.StableParts(u);
    var t :| Readied(k, t, Tick(k.lists[k.sleepq]).0) && Alike(t, u) && u.sems == k.sems == t.sems;
    var v := u.(preempt := if u.preempt - 1 <= 0 then QUANTUM else u.preempt - 1);
    S.BookkeepingInv(u, v, -1);
    ReschedAlike(v, -1);
    SelfAlike(u);
    SameProcsAlike(u, v, C.Clock(k));
    AlikeTrans(t, u, C.Clock(k));
    WrittenMeant(k, Act.ClockTick, t, C.Clock(k));
  }

  lemma SameProcsAlike(u: State, v: State, w: State)
    requires u.procs == v.procs && (w == v || Alike(v, w))
    ensures Alike(u, w)
  {
  }

  /** Every step does to every process, every semaphore and the time slice what it means. */
  lemma DoMeans(k: State, a: Act)
    requires Stable(k) && Allowed(k, a)
    ensures Meant(k, a, Do(k, a))
  {
    hide Stable, Inv, Alike, Meant, S.Resched, C.Asleep, C.Clock, C.Send;
    C.StableParts(k);
    match a {
      case Wait(i, key) => WaitMeant(k, i, key);
      case Signal(i) => SignalMeant(k, i);
      case Signaln(i, n) => SignalnMeant(k, i, n);
      case Semreset(i, n) => SemresetMeant(k, i, n);
      case Semdelete(i) => SemdeleteMeant(k, i);
      case Send(p, m) => SendMeant(k, a, p, m);
      case Recvtime(d) => if d < 0 || k.procs[k.cur].hasmsg { Unchanged(k, a); } else { SleepingMeant(k, a, d, RECTIM); }
      case Sleepms(d) => if d > 0 { SleepingMeant(k, a, d, SLEEP); } else { IdleMeant(k, a); }
      case Suspend(p) => SuspendMeant(k, p);
      case Resume(p) => ResumeMeant(k, p);
      case KillNotice(p) => if O.BadPid(k, p) || p == NULLPROC { Unchanged(k, a); } else { SendMeant(k, a, k.procs[p].parent, p); }
      case KillRest(p) => KillRestMeant(k, p);
      case ClockTick => ClockMeant(k);
      case _ => IdleMeant(k, a);
    }
  }

  lemma IdleMeant(k: State, a: Act)
    requires Stable(k) && Allowed(k, a)
    requires a.Yield? || (a.Sleepms? && a.ticks <= 0) || a.Receive? || a.Take? || a.Semcreate? || a.Create? || a.Refused?
    ensures Meant(k, a, Do(k, a))
  {
    hide Stable, InvBut, Alike, S.Resched, Meant, Written;
    C.StableParts(k);
    if a.Yield? || (a.Sleepms? && a.ticks == 0) {
      ReschedAlike(k, -1);
      DirectWritten(k, a, k);
      WrittenMeant(k, a, k, S.Resched(k));
    } else if a.Receive? && !k.procs[k.cur].hasmsg {
      S.ParkedInv(k, RECV, -1);
      var t := S.Dropped(k, k.lists, k.cur, RECV);
      ReschedAlike(t, -1);
      DirectWritten(k, a, t);
      WrittenMeant(k, a, t, S.Resched(t));
    } else {
      var t := Do(k, a);
      SelfAlike(t);
      DirectWritten(k, a, t);
      WrittenMeant(k, a, t, t);
    }
  }

  lemma DirectWritten(k: State, a: Act, t: State)
    requires 0 <= k.cur < |k.procs|
    requires match a
             case Yield => t == k
             case Sleepms(d) => d <= 0 && t == k
             case Receive => t == if k.procs[k.cur].hasmsg then k else S.Dropped(k, k.lists, k.cur, RECV)
             case Take => t == C.Emptied(k)
             case Semcreate(i, n) => 0 <= i < |k.sems| && t == C.Semcreate(k, i, n)
             case Create(p, prio) => 0 <= p < |k.procs| && t == C.Created(k, p, prio)
             case Refused => t == k
             case _ => false
    ensures Written(k, a, t)
  {
  }
}
