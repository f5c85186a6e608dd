/** The kernel's process, semaphore, message and clock routines over the process table, the
    semaphore table and the queue table. */
module Kernel {
  import opened Queues
  import opened Delta
  import opened KernelModel
  import S = KernelSteps
  import O = KernelOps
  import C = KernelCalls

  const TIMEOUT: int := -3

  lemma DetachedNowhere(k: State, l: map<int, seq<Item>>, p: int)
    requires S.Detached(k, l, p)
    ensures Nowhere(l, p)
  {
  }

  lemma StartStable(k: State, nproc: int)
    requires 0 < nproc == |k.procs| && k.cur == 0 && k.ndefers == 0
    requires k.procs[0].state == CURR && k.procs[0].prio == 0 && forall p :: 0 < p < nproc ==> k.procs[p].state == FREE
    requires Tables(k) && (forall q :: q in k.lists ==> k.lists[q] == []) && forall i :: 0 <= i < |k.sems| ==> !k.sems[i].used
    ensures Stable(k)
  {
    assert forall q, x :: q in k.lists ==> !Has(k.lists[q], x);
  }

  lemma Wrapped(x: int, n: int)
    requires 0 <= x <= n && 0 < n
    ensures x % n == if x < n then x else 0
  {
    if x < n {
      assert x == 0 * n + x;
    }
  }

  class Scheduler {
    const queues: Queuetab
    const readylist: int
    const sleepq: int
    var proctab: seq<Proc>
    var currpid: int
    var semtab: seq<Sem>
    var ndefers: int
    var attempt: bool
    var preempt: int
    // Where newsem and newpid look next.
    var nextsem: int
    var nextpid: int

    ghost function Snap(): State
      reads this, queues
    {
      State(proctab, currpid, semtab, queues.lists, readylist, sleepq, ndefers, attempt, preempt)
    }

    ghost predicate Valid()
      reads this, queues
    {
      && queues.Valid() && queues.nproc == |proctab|
      && 0 <= nextsem && (|semtab| > 0 ==> nextsem < |semtab|) && 0 <= nextpid <= |proctab|
    }

    /** Start-up: every semaphore free with an empty queue, the null process running. */
    constructor (nproc: int, nsem: int)
      requires 0 < nproc && 0 <= nsem
      ensures Valid() && Stable(Snap()) && currpid == NULLPROC && |proctab| == nproc && |semtab| == nsem
      ensures forall p :: 0 < p < nproc ==> proctab[p].state == FREE
      ensures forall i :: 0 <= i < nsem ==> !semtab[i].used
      ensures fresh(queues)
    {
      hide AllChains;
      var qt := new Queuetab(nproc, nproc + 4 + nsem + nsem);
      var sems: seq<Sem> := [];
      for i := 0 to nsem
        invariant fresh(qt) && qt.Valid() && qt.nproc == nproc && qt.nqent == nproc + 4 + nsem + nsem
        invariant |sems| == i && qt.nextqid == nproc + 2 * i
        invariant forall j :: 0 <= j < i ==> sems[j] == Sem(false, 0, nproc + 2 * j)
        invariant forall q :: q in qt.lists ==> qt.lists[q] == []
      {
        var q := qt.Newqueue();
        sems := sems + [Sem(false, 0, q)];
      }
      var rl := qt.Newqueue();
      var sq := qt.Newqueue();
      queues := qt;
      readylist := rl;
      sleepq := sq;
      semtab := sems;
      proctab := seq(nproc, p => Proc(if p == 0 then CURR else FREE, 0, -1, 0, false, 0));
      currpid := NULLPROC;
      ndefers, attempt, preempt, nextsem, nextpid := 0, false, QUANTUM, 0, 1;
      new;
      StartStable(Snap(), nproc);
    }

    function FirstKeyOf(q: int): int
      requires 0 <= q < |queues.tab| && 0 <= queues.tab[q].qnext < |queues.tab|
      reads this, queues
    {
      queues.tab[queues.tab[q].qnext].qkey
    }

    /** The macros firstkey and isempty against the queue's contents. */
    lemma ReadQueue(q: int)
      requires queues.Valid() && q in queues.lists
      ensures 0 <= q < |queues.tab| && 0 <= queues.tab[q].qnext < |queues.tab|
      ensures FirstKeyOf(q) == FirstKey(queues.lists[q])
      ensures queues.tab[q].qnext >= queues.nproc <==> queues.lists[q] == []
      ensures queues.lists[q] != [] ==> queues.tab[q].qnext == queues.lists[q][0].pid
    {
      hide AllChains;
      Read(queues.tab, queues.nproc, queues.lists, q);
    }

    /** Runs the highest-priority eligible process, or only notes the attempt while deferred. */
    method Resched(ghost but: int)
      requires Valid() && InvBut(Snap(), but)
      modifies this, queues
      ensures Valid() && Snap() == S.Resched(old(Snap()))
    {
      hide AllChains, Placed, SemsOk, NullOk, Tables, ReadyOk, InsertedByKey;
      ghost var k := Snap();
      if ndefers > 0 {
        attempt := true;
        return;
      }
      S.RangeFacts(k, but);
      ReadQueue(readylist);
      var ptold := currpid;
      if proctab[ptold].state == CURR {
        if proctab[ptold].prio > FirstKeyOf(readylist) {
          return;
        }
        S.CurrentNowhere(k, but);
        S.PreemptedInv(k, but);
        proctab := proctab[ptold := proctab[ptold].(state := READY)];
        var ok := queues.Insert(ptold, proctab[ptold].state != FREE, readylist, proctab[ptold].prio);
        assert Snap() == S.Preempted(k);
        S.SomeoneReady(S.Preempted(k), but);
      } else {
        S.SomeoneReady(k, but);
      }
      currpid := queues.Dequeue(readylist);
      proctab := proctab[currpid := proctab[currpid].(state := CURR)];
      preempt := QUANTUM;
    }

    /** Starts or stops a deferral; stopping the last one reschedules if that was asked for. */
    method ReschedCntl(start: bool, ghost but: int) returns (ok: bool)
      requires Valid() && InvBut(Snap(), but)
      modifies this, queues
      ensures Valid() && Snap() == if start then S.DeferStart(old(Snap())) else S.DeferStop(old(Snap()))
      ensures ok <==> start || old(ndefers) > 0
    {
      ghost var k := Snap();
      if start {
        if ndefers == 0 {
          attempt := false;
        }
        ndefers := ndefers + 1;
        return true;
      }
      if ndefers <= 0 {
        return false;
      }
      ndefers := ndefers - 1;
      if ndefers == 0 && attempt {
        S.BookkeepingInv(k, Snap(), but);
        Resched(but);
      }
      return true;
    }

    /** Makes a process, already off its queue, eligible. was is the state before it left. */
    method Ready(pid: int, ghost was: State, ghost but: int) returns (ok: bool)
      requires Valid() && InvBut(was, but) && Snap() == was.(lists := queues.lists)
      requires IsBadPid(pid) || S.Detached(was, queues.lists, pid)
      requires !IsBadPid(pid) ==> proctab[pid].state != READY && (proctab[pid].state == WAIT ==> proctab[pid].sem == but)
      modifies this, queues
      ensures Valid() && (ok <==> !old(IsBadPid(pid)))
      ensures Snap() == if ok then S.ReadyUp(was, old(queues.lists), pid) else old(Snap())
    {
      hide AllChains, Placed, SemsOk, NullOk, Tables, ReadyOk, InsertedByKey, S.Detached;
      if IsBadPid(pid) {
        return false;
      }
      S.DetachedFacts(was, queues.lists, pid, but);
      S.MakeReadyInv(was, queues.lists, pid, but);
      DetachedNowhere(was, queues.lists, pid);
      proctab := proctab[pid := proctab[pid].(state := READY)];
      var r := queues.Insert(pid, true, readylist, proctab[pid].prio);
      assert Snap() == S.MakeReady(was, old(queues.lists), pid);
      Resched(but);
      return true;
    }

    // Semaphores.

    predicate IsBadSem(sem: int)
      reads this
    {
      sem < 0 || sem >= |semtab|
    }

    /** The caller takes one; if none was left it waits at the tail of the queue. */
    method Wait(sem: int) returns (ok: bool)
      requires Valid() && Stable(Snap())
      requires !O.BadSem(Snap(), sem) && semtab[sem].count <= 0 ==> currpid != NULLPROC
      modifies this, queues
      ensures Valid() && Stable(Snap())
      ensures ok <==> !O.BadSem(old(Snap()), sem)
      ensures Snap() == C.Wait(old(Snap()), sem, if ok && old(semtab)[sem].count <= 0 then old(queues.tab[currpid].qkey) else 0)
    {
      hide AllChains, Stable, InvBut, Tables, Placed;
      if IsBadSem(sem) || !semtab[sem].used {
        return false;
      }
      ghost var k := Snap();
      C.StableParts(k);
      S.RangeFacts(k, -1);
      S.OutOfStep(k, sem);
      S.SetSemInv(k, sem, true, semtab[sem].count - 1);
      ghost var t := S.SetSem(k, sem, true, semtab[sem].count - 1);
      semtab := semtab[sem := semtab[sem].(count := semtab[sem].count - 1)];
      assert Snap() == t;
      if semtab[sem].count < 0 {
        ghost var key := queues.tab[currpid].qkey;
        C.WaitStable(k, sem, key);
        C.WaitFacts(k, sem, key);
        proctab := proctab[currpid := proctab[currpid].(state := WAIT)];
        proctab := proctab[currpid := proctab[currpid].(sem := sem)];
        var r := queues.Enqueue(currpid, proctab[currpid].state != FREE, semtab[sem].queue);
        assert Snap() == S.Joined(t, t.sems[sem].queue, O.Waiters(k, sem) + [Item(currpid, key)], WAIT, sem);
        Resched(-1);
      } else {
        C.WaitStable(k, sem, 0);
      }
      return true;
    }

    /** if ((scount++) < 0) ready(dequeue(squeue)), as signal and signaln both do. */
    method Increment(sem: int)
      requires Valid() && Inv(Snap()) && !O.BadSem(Snap(), sem)
      modifies this, queues
      ensures Valid() && Snap() == O.SignalOne(old(Snap()), sem)
    {
      hide AllChains, InvBut, Tables, Placed, S.ReadyUp, S.Detached;
      ghost var k := Snap();
      O.SignalOneCore(k, sem);
      semtab := semtab[sem := semtab[sem].(count := semtab[sem].count + 1)];
      ghost var t := Snap();
      if semtab[sem].count - 1 < 0 {
        S.RangeFacts(t, sem);
        O.ReleaseFacts(t, sem);
        var p := queues.Dequeue(semtab[sem].queue);
        var r := Ready(p, t, sem);
      }
    }

    /** Gives one back; the process that has waited longest gets it. */
    method Signal(sem: int) returns (ok: bool)
      requires Valid() && Stable(Snap())
      modifies this, queues
      ensures Valid() && Stable(Snap())
      ensures ok <==> !O.BadSem(old(Snap()), sem)
      ensures Snap() == O.Signal(old(Snap()), sem)
    {
      hide AllChains, Stable, Inv, O.SignalOne;
      O.SignalStable(Snap(), sem);
      C.StableParts(Snap());
      if IsBadSem(sem) || !semtab[sem].used {
        return false;
      }
      Increment(sem);
      return true;
    }

    /** count signals under one deferral. */
    method Signaln(sem: int, count: int) returns (ok: bool)
      requires Valid() && Stable(Snap())
      modifies this, queues
      ensures Valid() && Stable(Snap())
      ensures ok <==> count >= 0 && !O.BadSem(old(Snap()), sem)
      ensures Snap() == O.Signaln(old(Snap()), sem, count)
    {
      hide AllChains, Stable, InvBut, O.Quiet, S.Resched, O.SignalOne;
      O.SignalnStable(Snap(), sem, count);
      if IsBadSem(sem) || count < 0 {
        return false;
      }
      if !semtab[sem].used {
        return false;
      }
      ghost var k := Snap();
      C.StableParts(k);
      O.DeferStartQuiet(k, -1);
      var r := ReschedCntl(true, -1);
      var n := count;
      while n > 0
        invariant 0 <= n <= count && Valid() && Inv(Snap()) && O.Quiet(k, Snap()) && !O.BadSem(Snap(), sem)
        invariant O.SignalLoop(Snap(), sem, n) == O.SignalLoop(S.DeferStart(k), sem, count)
      {
        O.SignalOneDeferred(k, Snap(), sem);
        Increment(sem);
        n := n - 1;
      }
      r := ReschedCntl(false, -1);
      return true;
    }

    /** while ((pid = getfirst(semqueue)) != EMPTY) ready(pid). */
    method ReadyAll(sem: int, ghost k: State)
      requires Valid() && 0 <= sem < |semtab| && InvBut(Snap(), sem) && O.Quiet(k, Snap())
      modifies this, queues
      ensures Valid() && Snap() == O.ReleaseN(old(Snap()), sem, |O.Waiters(old(Snap()), sem)|)
    {
      hide AllChains, InvBut, Tables, Placed, O.Quiet, S.Resched, S.ReadyUp, S.Detached;
      var q := semtab[sem].queue;
      // t is the state with the process just taken still in the queue.
      ghost var t, n := Snap(), |O.Waiters(Snap(), sem)|;
      ghost var last := O.ReleaseN(t, sem, n);
      S.RangeFacts(t, sem);
      var pid := queues.Getfirst(q);
      while pid != EMPTY
        invariant Valid() && InvBut(t, sem) && O.Quiet(k, t) && t.sems == old(semtab) && q in t.lists
        invariant n == |O.Waiters(t, sem)| && O.ReleaseN(t, sem, n) == last && O.Waiters(t, sem) == t.lists[q]
        invariant pid == EMPTY <==> n == 0
        invariant pid == EMPTY ==> Snap() == t
        invariant pid != EMPTY ==> pid == t.lists[q][0].pid && Snap() == t.(lists := t.lists[q := t.lists[q][1..]])
        decreases n
      {
        O.ReleaseFacts(t, sem);
        O.ReleaseFirstInv(k, t, sem);
        var r := Ready(pid, t, sem);
        t, n := Snap(), n - 1;
        S.RangeFacts(t, sem);
        pid := queues.Getfirst(q);
      }
    }

    /** Releases every waiter under one deferral, then sets the count. */
    method Semreset(sem: int, count: int) returns (ok: bool)
      requires Valid() && Stable(Snap())
      modifies this, queues
      ensures Valid() && Stable(Snap())
      ensures ok <==> count >= 0 && !O.BadSem(old(Snap()), sem)
      ensures Snap() == O.Semreset(old(Snap()), sem, count)
    {
      hide AllChains, Stable, InvBut, Tables, Placed, O.Quiet, S.Resched, O.ReleaseN;
      O.SemresetStable(Snap(), sem, count);
      if count < 0 || IsBadSem(sem) || !semtab[sem].used {
        return false;
      }
      ghost var k := Snap();
      C.StableParts(k);
      O.DeferStartQuiet(k, -1);
      S.OutOfStep(S.DeferStart(k), sem);
      var r := ReschedCntl(true, -1);
      ghost var d := Snap();
      O.ReleaseNInv(k, d, sem, |O.Waiters(d, sem)|);
      ReadyAll(sem, k);
      S.SetSemInv(Snap(), sem, true, count);
      semtab := semtab[sem := semtab[sem].(count := count)];
      r := ReschedCntl(false, sem);
      return true;
    }

    /** ready(getfirst(squeue)). */
    method ReadyFirst(sem: int)
      requires Valid() && 0 <= sem < |semtab| && InvBut(Snap(), sem) && O.Waiters(Snap(), sem) != []
      modifies this, queues
      ensures Valid() && Snap() == O.ReleaseFirst(old(Snap()), sem)
    {
      hide AllChains, InvBut, Tables, Placed, S.ReadyUp, S.Detached;
      ghost var was := Snap();
      O.ReleaseFacts(was, sem);
      var p := queues.Getfirst(semtab[sem].queue);
      var r := Ready(p, was, sem);
    }

    /** while (scount++ < 0) ready(getfirst(squeue)). */
    method CountUp(sem: int, ghost k: State)
      requires Valid() && 0 <= sem < |semtab| && InvBut(Snap(), sem) && O.Quiet(k, Snap()) && !semtab[sem].used
      requires |O.Waiters(Snap(), sem)| == if semtab[sem].count < 0 then -semtab[sem].count else 0
      modifies this, queues
      ensures Valid()
      ensures var n, c := |O.Waiters(old(Snap()), sem)|, old(semtab)[sem].count;
              && O.ReleaseN(old(Snap()), sem, n).sems == old(semtab)
              && Snap() == S.SetSem(O.ReleaseN(old(Snap()), sem, n), sem, false, if c < 0 then 1 else c + 1)
    {
      hide AllChains, InvBut, Tables, Placed, O.Quiet, S.Resched, O.ReleaseFirst;
      // t is the state so far, but for the count.
      ghost var t, c := Snap(), semtab[sem].count;
      ghost var n: nat := |O.Waiters(t, sem)|;
      ghost var last := O.ReleaseN(t, sem, n);
      O.ReleaseNInv(k, t, sem, n);
      assert t == S.SetSem(t, sem, false, c);
      while semtab[sem].count < 0
        invariant Valid() && InvBut(t, sem) && O.Quiet(k, t) && |semtab| == |t.sems| && t.sems == old(semtab)
        invariant Snap() == S.SetSem(t, sem, false, semtab[sem].count) && O.ReleaseN(t, sem, n) == last
        invariant n == |O.Waiters(t, sem)| == (if semtab[sem].count < 0 then -semtab[sem].count else 0)
        invariant if c < 0 then semtab[sem].count <= 0 else semtab[sem].count == c
        decreases n
      {
        O.ReleaseFirstInv(k, t, sem);
        O.ReleaseCount(t, sem, semtab[sem].count + 1);
        S.SetSemInv(t, sem, false, semtab[sem].count + 1);
        semtab := semtab[sem := semtab[sem].(count := semtab[sem].count + 1)];
        assert Snap() == S.SetSem(t, sem, false, semtab[sem].count);
        ReadyFirst(sem);
        t, n := O.ReleaseFirst(t, sem), n - 1;
      }
      semtab := semtab[sem := semtab[sem].(count := semtab[sem].count + 1)];
    }

    /** Frees the entry and releases its waiters, counting up to zero. */
    method Semdelete(sem: int) returns (ok: bool)
      requires Valid() && Stable(Snap())
      modifies this, queues
      ensures Valid() && Stable(Snap())
      ensures ok <==> !O.BadSem(old(Snap()), sem)
      ensures Snap() == O.Semdelete(old(Snap()), sem)
    {
      hide AllChains, Stable, InvBut, Tables, Placed, O.Quiet, S.Resched, O.ReleaseN;
      O.SemdeleteStable(Snap(), sem);
      if IsBadSem(sem) {
        return false;
      }
      if !semtab[sem].used {
        return false;
      }
      ghost var k := Snap();
      C.StableParts(k);
      O.SemdeleteCore(k, sem);
      O.DeferredOrder(k, sem);
      semtab := semtab[sem := semtab[sem].(used := false)];
      var r := ReschedCntl(true, sem);
      ghost var e := Snap();
      O.ReleaseNInv(k, e, sem, |O.Waiters(e, sem)|);
      CountUp(sem, k);
      S.SetSemInv(O.ReleaseN(e, sem, |O.Waiters(e, sem)|), sem, false, semtab[sem].count);
      r := ReschedCntl(false, sem);
      return true;
    }

    /** Takes the next free entry, searching once around the table. */
    method Newsem() returns (sem: int)
      requires Valid()
      modifies this`semtab, this`nextsem
      ensures Valid()
      ensures sem == -1 <==> forall i :: 0 <= i < |old(semtab)| ==> old(semtab)[i].used
      ensures sem == -1 ==> semtab == old(semtab)
      ensures sem != -1 ==> 0 <= sem < |old(semtab)| && !old(semtab)[sem].used
      ensures sem != -1 ==> semtab == old(semtab)[sem := old(semtab)[sem].(used := true)]
    {
      hide AllChains;
      var i := 0;
      ghost var start := nextsem;
      while i < |semtab|
        invariant 0 <= i <= |semtab| && semtab == old(semtab) && 0 <= nextsem && (|semtab| > 0 ==> nextsem < |semtab|)
        invariant nextsem == if start + i < |semtab| then start + i else start + i - |semtab|
        invariant forall j :: 0 <= j < |semtab| && (start <= j < start + i || j < start + i - |semtab|) ==> semtab[j].used
      {
        sem := nextsem;
        nextsem := nextsem + 1;
        if nextsem >= |semtab| {
          nextsem := 0;
        }
        if !semtab[sem].used {
          semtab := semtab[sem := semtab[sem].(used := true)];
          return sem;
        }
        i := i + 1;
      }
      return -1;
    }

    method Semcreate(count: int) returns (sem: int)
      requires Valid() && Stable(Snap())
      modifies this`semtab, this`nextsem
      ensures Valid() && Stable(Snap())
      ensures sem == -1 <==> count < 0 || forall i :: 0 <= i < |old(semtab)| ==> old(semtab)[i].used
      ensures sem == -1 ==> Snap() == old(Snap())
      ensures sem != -1 ==> 0 <= sem < |old(semtab)| && !old(semtab)[sem].used
      ensures sem != -1 ==> Snap() == C.Semcreate(old(Snap()), sem, count)
    {
      hide AllChains, Stable;
      if count < 0 {
        return -1;
      }
      ghost var k := Snap();
      sem := Newsem();
      if sem == -1 {
        return -1;
      }
      C.SemcreateStable(k, sem, count);
      semtab := semtab[sem := semtab[sem].(count := count)];
      assert Snap() == C.Semcreate(k, sem, count);
    }

    // Messages.

    predicate IsBadPid(pid: int)
      reads this
    {
      pid < 0 || pid >= |proctab| || proctab[pid].state == FREE
    }

    /** Takes a sleeper off the sleep queue early; its successor takes over its delay. */
    method Unsleep(pid: int) returns (ok: bool)
      requires Valid() && Inv(Snap())
      modifies queues
      ensures Valid()
      ensures ok <==> !IsBadPid(pid) && proctab[pid].state in {SLEEP, RECTIM}
      ensures !ok ==> queues.lists == old(queues.lists)
      ensures ok ==> queues.lists == O.DelayOff(old(Snap()), pid)
      ensures ok ==> S.Detached(old(Snap()), queues.lists, pid)
    {
      hide AllChains, InvBut, Tables, Placed, S.Detached, RemovedAt;
      if IsBadPid(pid) {
        return false;
      }
      if proctab[pid].state != SLEEP && proctab[pid].state != RECTIM {
        return false;
      }
      ghost var k := Snap();
      S.RangeFacts(k, -1);
      S.HomeOnly(k, -1, pid, sleepq);
      O.DelayOffDetached(k, pid, -1);
      UnlinkSleeper(pid);
      return true;
    }

    /** The body of unsleep once its checks have passed. */
    method UnlinkSleeper(pid: int)
      requires Valid() && sleepq in queues.lists && Has(queues.lists[sleepq], pid) && NoRepeats(queues.lists[sleepq])
      modifies queues
      ensures Valid() && queues.lists == O.DelayOff(old(Snap()), pid)
    {
      hide AllChains, RemovedAt, Has;
      ghost var lists := queues.lists;
      ghost var s, i := lists[sleepq], IndexOf(lists[sleepq], pid);
      ReadItem(queues.tab, queues.nproc, lists, sleepq, i);
      ghost var t := if i + 1 < |s| then s[i + 1 := Item(s[i + 1].pid, s[i + 1].key + s[i].key)] else s;
      var pidnext := queues.tab[pid].qnext;
      S.NextSleeper(s, i);
      if i + 1 < |s| { ReadItem(queues.tab, queues.nproc, lists, sleepq, i + 1); }
      if pidnext < |proctab| {
        queues.AddToKey(pidnext, queues.tab[pid].qkey, sleepq);
      }
      assert queues.lists == lists[sleepq := t];
      S.SameIndex(s, i);
      var r := queues.Getitem(pid, sleepq);
      assert queues.lists == lists[sleepq := RemovedAt(t, i)];
    }

    /** Delivers a message unless one is already waiting, and wakes a process blocked for it. */
    method Send(pid: int, msg: int) returns (ok: bool)
      requires Valid() && Stable(Snap())
      modifies this, queues
      ensures Valid() && Stable(Snap())
      ensures ok <==> !O.BadPid(old(Snap()), pid) && !old(proctab)[pid].hasmsg
      ensures Snap() == C.Send(old(Snap()), pid, msg)
    {
      hide AllChains, Stable, InvBut, Tables, Placed, S.ReadyUp, S.Detached, O.DelayOff;
      C.SendStable(Snap(), pid, msg);
      if IsBadPid(pid) {
        return false;
      }
      if proctab[pid].hasmsg {
        return false;
      }
      ghost var k := Snap();
      C.StableParts(k);
      S.MessageInv(k, C.Delivered(k, pid, msg), pid, -1);
      proctab := proctab[pid := proctab[pid].(msg := msg)];
      proctab := proctab[pid := proctab[pid].(hasmsg := true)];
      assert Snap() == C.Delivered(k, pid, msg);
      ghost var t := Snap();
      if proctab[pid].state == RECV {
        S.DetachedNone(t, pid, -1);
        var r := Ready(pid, t, -1);
      } else if proctab[pid].state == RECTIM {
        var u := Unsleep(pid);
        var r := Ready(pid, t, -1);
      }
      return true;
    }

    /** receive, up to the point where the process runs again. */
    method Receive()
      requires Valid() && Stable(Snap()) && (!proctab[currpid].hasmsg ==> currpid != NULLPROC)
      modifies this, queues
      ensures Valid() && Stable(Snap())
      ensures Snap() == C.Receive(old(Snap()))
    {
      hide AllChains, Stable, InvBut, Tables, Placed, S.Resched;
      ghost var k := Snap();
      C.ReceiveStable(k);
      C.StableParts(k);
      if proctab[currpid].hasmsg == false {
        S.ParkedInv(k, RECV, -1);
        proctab := proctab[currpid := proctab[currpid].(state := RECV)];
        Resched(-1);
      }
    }

    /** The rest of receive, when the process has the processor again. */
    method TakeMessage() returns (msg: int)
      requires Valid() && Stable(Snap())
      modifies this`proctab
      ensures Valid() && Stable(Snap())
      ensures msg == old(proctab)[currpid].msg && Snap() == C.Emptied(old(Snap()))
    {
      hide AllChains, Stable, InvBut, Tables, Placed;
      ghost var k := Snap();
      C.EmptiedStable(k);
      C.StableParts(k);
      msg := proctab[currpid].msg;
      proctab := proctab[currpid := proctab[currpid].(hasmsg := false)];
    }

    /** recvtime, up to the point where the process runs again. */
    method Recvtime(maxwait: int) returns (ok: bool)
      requires Valid() && Stable(Snap()) && (maxwait >= 0 && !proctab[currpid].hasmsg ==> currpid != NULLPROC)
      modifies this, queues
      ensures Valid() && Stable(Snap())
      ensures (ok <==> maxwait >= 0) && Snap() == C.Recvtime(old(Snap()), maxwait)
    {
      hide AllChains, Stable, InvBut, Tables, Placed, S.Resched, InsertedByDelay;
      ghost var k := Snap();
      C.StableParts(k);
      S.RangeFacts(k, -1);
      if maxwait < 0 {
        return false;
      }
      if proctab[currpid].hasmsg == false {
        C.AsleepStable(k, maxwait, RECTIM);
        C.AsleepFacts(k, maxwait, RECTIM);
        var r := queues.Insertd(currpid, proctab[currpid].state != FREE, sleepq, maxwait);
        if !r {
          return false;
        }
        proctab := proctab[currpid := proctab[currpid].(state := RECTIM)];
        assert Snap() == S.Joined(k, k.sleepq, InsertedByDelay(k.lists[k.sleepq], Item(k.cur, maxwait)), RECTIM, k.procs[k.cur].sem);
        Resched(-1);
      }
      return true;
    }

    /** The rest of recvtime: the message, or TIMEOUT when the timer ran out first. */
    method TakeTimed() returns (msg: int)
      requires Valid() && Stable(Snap())
      modifies this`proctab
      ensures Valid() && Stable(Snap())
      ensures msg == if old(proctab)[currpid].hasmsg then old(proctab)[currpid].msg else TIMEOUT
      ensures Snap() == C.Emptied(old(Snap()))
    {
      hide AllChains, Stable, InvBut, Tables, Placed;
      ghost var k := Snap();
      C.EmptiedStable(k);
      C.StableParts(k);
      if proctab[currpid].hasmsg {
        msg := proctab[currpid].msg;
        proctab := proctab[currpid := proctab[currpid].(hasmsg := false)];
      } else {
        msg := TIMEOUT;
        assert proctab == C.Emptied(k).procs;
      }
    }

    /** Sleeps for delay ticks; a delay of zero only yields. */
    method Sleepms(delay: int) returns (ok: bool)
      requires Valid() && Stable(Snap()) && (delay > 0 ==> currpid != NULLPROC)
      modifies this, queues
      ensures Valid() && Stable(Snap())
      ensures (ok <==> delay >= 0) && Snap() == C.Sleepms(old(Snap()), delay)
    {
      hide AllChains, Stable, InvBut, Tables, Placed, S.Resched, InsertedByDelay;
      ghost var k := Snap();
      C.StableParts(k);
      S.RangeFacts(k, -1);
      if delay < 0 {
        return false;
      }
      if delay == 0 {
        S.ReschedStable(k);
        Resched(-1);
        return true;
      }
      C.AsleepStable(k, delay, SLEEP);
      C.AsleepFacts(k, delay, SLEEP);
      var r := queues.Insertd(currpid, proctab[currpid].state != FREE, sleepq, delay);
      if !r {
        return false;
      }
      proctab := proctab[currpid := proctab[currpid].(state := SLEEP)];
      assert Snap() == S.Joined(k, k.sleepq, InsertedByDelay(k.lists[k.sleepq], Item(k.cur, delay)), SLEEP, k.procs[k.cur].sem);
      Resched(-1);
      return true;
    }

    // Suspension and termination.

    method Suspend(pid: int) returns (r: int)
      requires Valid() && Stable(Snap())
      modifies this, queues
      ensures Valid() && Stable(Snap())
      ensures r == if !O.BadPid(old(Snap()), pid) && pid != NULLPROC && old(proctab)[pid].state in {CURR, READY}
                   then old(proctab)[pid].prio else -1
      ensures Snap() == C.Suspend(old(Snap()), pid)
    {
      hide AllChains, Stable, InvBut, Tables, Placed, S.Resched;
      ghost var k := Snap();
      C.SuspendStable(k, pid);
      C.StableParts(k);
      if IsBadPid(pid) || pid == NULLPROC {
        return -1;
      }
      if proctab[pid].state != CURR && proctab[pid].state != READY {
        return -1;
      }
      if proctab[pid].state == READY {
        S.RangeFacts(k, -1);
        S.HomeOnly(k, -1, pid, readylist);
        var q := queues.Getitem(pid, readylist);
        proctab := proctab[pid := proctab[pid].(state := SUSP)];
      } else {
        C.WaitingSem(k, pid);
        S.ParkedInv(k, SUSP, -1);
        proctab := proctab[pid := proctab[pid].(state := SUSP)];
        S.ReschedPrio(Snap(), pid);
        Resched(-1);
      }
      r := proctab[pid].prio;
    }

    method Resume(pid: int) returns (r: int)
      requires Valid() && Stable(Snap())
      modifies this, queues
      ensures Valid() && Stable(Snap())
      ensures r == if !O.BadPid(old(Snap()), pid) && old(proctab)[pid].state == SUSP then old(proctab)[pid].prio else -1
      ensures Snap() == C.Resume(old(Snap()), pid)
    {
      hide AllChains, Stable, InvBut, Tables, Placed, S.ReadyUp, S.Detached;
      ghost var k := Snap();
      C.ResumeStable(k, pid);
      C.StableParts(k);
      if IsBadPid(pid) {
        return -1;
      }
      if proctab[pid].state != SUSP {
        return -1;
      }
      S.DetachedNone(k, pid, -1);
      r := proctab[pid].prio;
      var ok := Ready(pid, k, -1);
    }

    /** kill's checks and its message to the parent, after which other processes may run. */
    method KillNotice(pid: int) returns (ok: bool)
      requires Valid() && Stable(Snap())
      modifies this, queues
      ensures Valid() && Stable(Snap())
      ensures ok <==> !O.BadPid(old(Snap()), pid) && pid != NULLPROC
      ensures Snap() == C.KillNotice(old(Snap()), pid)
    {
      hide AllChains, Stable, C.Send;
      if IsBadPid(pid) || pid == NULLPROC {
        return false;
      }
      var r := Send(proctab[pid].parent, pid);
      return true;
    }

    /** A waiting process leaves its semaphore, whose count makes up for it. */
    method KillWaiter(pid: int)
      requires Valid() && Stable(Snap()) && 0 < pid < |proctab| && proctab[pid].state == WAIT
      modifies this`semtab, this`proctab, queues
      ensures Valid() && Snap() == C.KillRest(old(Snap()), pid)
    {
      hide AllChains, Stable, InvBut, Tables, Placed, S.Detached, Nowhere;
      ghost var k := Snap();
      C.StableParts(k);
      S.RangeFacts(k, -1);
      C.WaitingSem(k, pid);
      var sem := proctab[pid].sem;
      S.HomeOnly(k, -1, pid, semtab[sem].queue);
      semtab := semtab[sem := semtab[sem].(count := semtab[sem].count + 1)];
      var r := queues.Getitem(pid, semtab[sem].queue);
      proctab := proctab[pid := proctab[pid].(state := FREE)];
    }

    /** The rest of kill, on whatever state the process is in by then. */
    method KillRest(pid: int)
      requires Valid() && Stable(Snap()) && 0 < pid < |proctab|
      modifies this, queues
      ensures Valid() && Stable(Snap())
      ensures Snap() == C.KillRest(old(Snap()), pid) && proctab[pid].state == FREE
    {
      hide AllChains, Stable, InvBut, Tables, Placed, S.Resched, S.Detached, O.DelayOff, Nowhere;
      ghost var k := Snap();
      C.KillRestStable(k, pid);
      C.StableParts(k);
      S.RangeFacts(k, -1);
      C.WaitingSem(k, pid);
      match proctab[pid].state {
        case CURR =>
          S.ParkedInv(k, FREE, -1);
          proctab := proctab[pid := proctab[pid].(state := FREE)];
          Resched(-1);
        case SLEEP =>
          var u := Unsleep(pid);
          proctab := proctab[pid := proctab[pid].(state := FREE)];
        case RECTIM =>
          var u := Unsleep(pid);
          proctab := proctab[pid := proctab[pid].(state := FREE)];
        case WAIT =>
          KillWaiter(pid);
        case READY =>
          S.HomeOnly(k, -1, pid, readylist);
          var r := queues.Getitem(pid, readylist);
          proctab := proctab[pid := proctab[pid].(state := FREE)];
        case _ =>
          proctab := proctab[pid := proctab[pid].(state := FREE)];
      }
    }

    // The clock.

    /** Makes every process whose time is up ready, under one deferral. */
    method Wakeup()
      requires Valid() && Stable(Snap())
      modifies this, queues
      ensures Valid() && Stable(Snap())
      ensures Snap() == C.Wakeup(old(Snap()))
    {
      hide AllChains, Stable, InvBut, Tables, Placed, O.Quiet, S.Resched, S.ReadyUp, S.Detached;
      ghost var k := Snap();
      C.WakeupStable(k);
      C.StableParts(k);
      S.RangeFacts(k, -1);
      O.DeferStartQuiet(k, -1);
      var r := ReschedCntl(true, -1);
      ghost var n := Due(queues.lists[sleepq]);
      ghost var last := C.WakeN(Snap(), n);
      ReadQueue(sleepq);
      while queues.tab[sleepq].qnext < |proctab| && FirstKeyOf(sleepq) <= 0
        invariant Valid() && Inv(Snap()) && O.Quiet(k, Snap()) && sleepq in queues.lists
        invariant 0 <= sleepq < |queues.tab| && 0 <= queues.tab[sleepq].qnext < |queues.tab|
        invariant queues.tab[sleepq].qnext >= |proctab| <==> queues.lists[sleepq] == []
        invariant FirstKeyOf(sleepq) == FirstKey(queues.lists[sleepq])
        invariant n == Due(queues.lists[sleepq]) && C.WakeN(Snap(), n) == last
        decreases |queues.lists[sleepq]|
      {
        ghost var was := Snap();
        C.WakeFirstInv(k, was);
        C.WakeFacts(was);
        var p := queues.Dequeue(sleepq);
        r := Ready(p, was, -1);
        n := n - 1;
        S.RangeFacts(Snap(), -1);
        ReadQueue(sleepq);
      }
      r := ReschedCntl(false, -1);
    }

    /** One clock tick: the sleep queue's first delay, then the time slice. */
    method Clkhandler()
      requires Valid() && Stable(Snap())
      modifies this, queues
      ensures Valid() && Stable(Snap())
      ensures Snap() == C.Clock(old(Snap()))
      ensures sleepq in old(queues.lists) && sleepq in queues.lists
      ensures queues.lists[sleepq] == Tick(old(queues.lists)[sleepq]).1
    {
      hide AllChains, Stable, InvBut, Tables, Placed, S.Resched, C.Wakeup, Tick, Has;
      ghost var k := Snap();
      C.ClockStable(k);
      C.StableParts(k);
      S.RangeFacts(k, -1);
      ReadQueue(sleepq);
      ghost var s := queues.lists[sleepq];
      if queues.tab[sleepq].qnext < |proctab| {
        C.DecrementedStable(k);
        HasAt(s, 0);
        FirstIndex(s);
        queues.AddToKey(queues.tab[sleepq].qnext, -1, sleepq);
        assert Snap() == C.Decremented(k);
        ReadQueue(sleepq);
        if FirstKeyOf(sleepq) <= 0 {
          Wakeup();
        }
      }
      assert Snap() == C.Slept(k);
      ghost var t := Snap();
      preempt := preempt - 1;
      if preempt <= 0 {
        C.StableParts(t);
        preempt := QUANTUM;
        S.BookkeepingInv(t, Snap(), -1);
        Resched(-1);
      }
    }

    /** A free process entry, searching once around the table. */
    method Newpid() returns (pid: int)
      requires Valid()
      modifies this`nextpid
      ensures Valid()
      ensures pid == -1 <==> forall p :: 0 <= p < |proctab| ==> proctab[p].state != FREE
      ensures pid != -1 ==> 0 <= pid < |proctab| && proctab[pid].state == FREE
    {
      hide AllChains;
      var i := 0;
      ghost var n := |proctab|;
      ghost var start := if nextpid < n then nextpid else 0;
      while i < |proctab|
        invariant 0 <= i <= n && 0 <= nextpid <= n
        invariant nextpid == start + i || nextpid == start + i - n || (i == 0 && nextpid == n && start == 0)
        invariant forall j :: 0 <= j < n && (start <= j < start + i || j < start + i - n) ==> proctab[j].state != FREE
      {
        Wrapped(nextpid, |proctab|);
        nextpid := nextpid % |proctab|;
        if proctab[nextpid].state == FREE {
          nextpid := nextpid + 1;
          return nextpid - 1;
        } else {
          nextpid := nextpid + 1;
        }
        i := i + 1;
      }
      return -1;
    }

    /** create, as far as the process table goes: the new process is suspended. */
    method Create(priority: int) returns (pid: int)
      requires Valid() && Stable(Snap())
      modifies this`proctab, this`nextpid
      ensures Valid() && Stable(Snap())
      ensures pid == -1 <==> priority < 1 || forall p :: 0 <= p < |old(proctab)| ==> old(proctab)[p].state != FREE
      ensures pid == -1 ==> Snap() == old(Snap())
      ensures pid != -1 ==> 0 <= pid < |old(proctab)| && old(proctab)[pid].state == FREE
      ensures pid != -1 ==> Snap() == C.Created(old(Snap()), pid, priority)
    {
      hide AllChains, Stable;
      if priority < 1 {
        return -1;
      }
      ghost var k := Snap();
      pid := Newpid();
      if pid == -1 {
        return -1;
      }
      C.CreatedStable(k, pid, priority);
      proctab := proctab[pid := Proc(SUSP, priority, -1, currpid, false, proctab[pid].msg)];
      assert Snap() == C.Created(k, pid, priority);
    }
  }
}
