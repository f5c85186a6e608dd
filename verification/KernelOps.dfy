/** The system calls, as functions of the state, and the proof that each leaves the kernel stable. */
module KernelOps {
  import opened Queues
  import opened Delta
  import opened KernelModel
  import opened KernelSteps

  predicate BadPid(k: State, p: int) {
    p < 0 || p >= |k.procs| || k.procs[p].state == FREE
  }

  predicate BadSem(k: State, i: int) {
    i < 0 || i >= |k.sems| || !k.sems[i].used
  }

  function Waiters(k: State, i: int): seq<Item>
    requires 0 <= i < |k.sems|
  {
    if k.sems[i].queue in k.lists then k.lists[k.sems[i].queue] else []
  }

  /** The lists with p off its own queue. */
  function PlainOff(k: State, p: int): map<int, seq<Item>>
    requires 0 <= p < |k.procs|
  {
    var q := Home(k.procs[p], k);
    if q in k.lists && Has(k.lists[q], p) then k.lists[q := RemovedAt(k.lists[q], IndexOf(k.lists[q], p))] else k.lists
  }

  /** The same for a sleeper, whose delay passes to its successor. */
  function DelayOff(k: State, p: int): map<int, seq<Item>> {
    var q := k.sleepq;
    if q in k.lists && Has(k.lists[q], p) then k.lists[q := RemovedFromDelay(k.lists[q], IndexOf(k.lists[q], p))]
    else k.lists
  }

  lemma PlainOffDetached(k: State, p: int, but: int)
    requires InvBut(k, but) && 0 <= p < |k.procs|
    ensures Detached(k, PlainOff(k, p), p)
    ensures Descending(PlainOff(k, p)[k.ready])
    ensures forall i :: 0 <= i < |PlainOff(k, p)[k.ready]| ==> Keyed(k, PlainOff(k, p)[k.ready][i])
    ensures FirstKey(PlainOff(k, p)[k.ready]) <= FirstKey(k.lists[k.ready])
  {
    var q := Home(k.procs[p], k);
    if q in k.lists {
      HomeOnly(k, but, p, q);
      var n := IndexOf(k.lists[q], p);
      DetachedPlain(k, q, n, but);
      if q == k.ready {
        RemoveDescending(k, k.lists[q], n);
        ReadyKeys(k, but);
        FirstAfterRemoval(k, k.lists[q], n);
      }
    } else {
      forall r, x | r in k.lists ensures Has(k.lists[r], x) <==> Has(k.lists[r], x) && x != p {
        HomeOnly(k, but, p, r);
      }
    }
  }

  lemma ReadyKeys(k: State, but: int)
    requires InvBut(k, but)
    ensures forall i :: 0 <= i < |k.lists[k.ready]| ==> k.lists[k.ready][i].key > MINKEY
  {
    var s := k.lists[k.ready];
    forall i | 0 <= i < |s| ensures s[i].key > MINKEY {
      HasAt(s, i);
      assert Keyed(k, s[i]);
      assert Has(s, s[i].pid) <==> OnQueue(k, s[i].pid, k.ready);
    }
  }

  lemma FirstAfterRemoval(k: State, s: seq<Item>, n: nat)
    requires Descending(s) && n < |s| && forall i :: 0 <= i < |s| ==> Keyed(k, s[i])
    requires forall i :: 0 <= i < |s| ==> s[i].key > MINKEY
    ensures FirstKey(RemovedAt(s, n)) <= FirstKey(s)
  {
    RemovedItems(s, n);
  }

  lemma DelayOffDetached(k: State, p: int, but: int)
    requires InvBut(k, but) && 0 <= p < |k.procs| && Home(k.procs[p], k) == k.sleepq
    ensures Detached(k, DelayOff(k, p), p) && DelayOff(k, p)[k.ready] == k.lists[k.ready]
  {
    HomeOnly(k, but, p, k.sleepq);
    DetachedDelay(k, IndexOf(k.lists[k.sleepq], p), but);
  }

  // Releasing waiters.

  /** ready(dequeue(q)) for semaphore i's queue. */
  function ReleaseFirst(k: State, i: int): State
    requires 0 <= i < |k.sems|
  {
    var q := k.sems[i].queue;
    if Waiters(k, i) != [] then ReadyUp(k, k.lists[q := k.lists[q][1..]], k.lists[q][0].pid) else k
  }

  lemma ReschedFrame(k: State)
    ensures var t := Resched(k);
            && |t.procs| == |k.procs| && t.sems == k.sems && t.ready == k.ready && t.sleepq == k.sleepq
            && t.ndefers == k.ndefers && (forall q :: q in k.lists && q != k.ready ==> q in t.lists && t.lists[q] == k.lists[q])
            && (k.ndefers > 0 ==> t == k.(attempt := true))
  {
  }

  /** The first waiter, off its queue and ready; the semaphore's count is up to the caller. */
  lemma ReleasedInv(k: State, i: int)
    requires InvBut(k, i) && 0 <= i < |k.sems| && Waiters(k, i) != []
    ensures var q, p := k.sems[i].queue, Waiters(k, i)[0].pid;
            var t := MakeReady(k, k.lists[q := k.lists[q][1..]], p);
            && 0 <= p < |k.procs| && k.procs[p].state == WAIT && k.procs[p].sem == i
            && InvBut(t, i) && Waiters(t, i) == Waiters(k, i)[1..] && t.sems == k.sems
            && t.procs == k.procs[p := k.procs[p].(state := READY)]
            && t.cur == k.cur && t.ndefers == k.ndefers && t.attempt == k.attempt && t.ready == k.ready && t.preempt == k.preempt
  {
    var q, s := k.sems[i].queue, Waiters(k, i);
    var p := s[0].pid;
    HasAt(s, 0);
    assert Has(k.lists[q], p) <==> OnQueue(k, p, q);
    assert k.procs[p].state == WAIT && k.procs[p].sem == i;
    assert RemovedAt(s, 0) == s[1..];
    DetachedPlain(k, q, 0, i);
    MakeReadyInv(k, k.lists[q := s[1..]], p, i);
  }

  ghost predicate SameReady(was: State, k: State) {
    k.ready in k.lists && was.ready in was.lists && k.lists[k.ready] == was.lists[was.ready]
  }

  /** What releasing the first waiter of semaphore i needs of the queue table. */
  lemma ReleaseFacts(k: State, i: int)
    requires InvBut(k, i) && 0 <= i < |k.sems| && Waiters(k, i) != []
    ensures var q, p := k.sems[i].queue, Waiters(k, i)[0].pid;
            && q in k.lists && Waiters(k, i) == k.lists[q]
            && 0 <= p < |k.procs| && k.procs[p].state == WAIT && k.procs[p].sem == i
            && Detached(k, k.lists[q := k.lists[q][1..]], p)
  {
    ReleasedInv(k, i);
    var q, s := k.sems[i].queue, Waiters(k, i);
    assert RemovedAt(s, 0) == s[1..];
    DetachedPlain(k, q, 0, i);
  }

  // While rescheduling is put off, either it has been asked for or the ready list has not changed.
  ghost predicate Quiet(was: State, k: State): (b: bool)
    ensures b ==> k.ndefers == 1
  {
    && k.ndefers == 1 && k.cur == was.cur && k.ready == was.ready
    && (k.attempt || (k.procs == was.procs && SameReady(was, k)))
  }

  lemma DeferStopStable(was: State, k: State)
    requires Stable(was) && Inv(k) && Quiet(was, k)
    ensures Stable(DeferStop(k))
  {
    var t := k.(ndefers := k.ndefers - 1);
    BookkeepingInv(k, t, -1);
    if t.attempt {
      ReschedStable(t);
    }
  }

  function ReleaseN(k: State, i: int, n: nat): State
    requires 0 <= i < |k.sems|
    decreases n
  {
    if n == 0 then k
    else
      var t := ReleaseFirst(k, i);
      if i < |t.sems| then ReleaseN(t, i, n - 1) else t
  }

  lemma ReleaseFirstInv(was: State, k: State, i: int)
    requires InvBut(k, i) && 0 <= i < |k.sems| && Waiters(k, i) != [] && Quiet(was, k)
    ensures InvBut(ReleaseFirst(k, i), i) && Quiet(was, ReleaseFirst(k, i))
    ensures Waiters(ReleaseFirst(k, i), i) == Waiters(k, i)[1..] && ReleaseFirst(k, i).sems == k.sems
  {
    hide InvBut;
    ReleasedInv(k, i);
    var q, p := k.sems[i].queue, Waiters(k, i)[0].pid;
    var t := MakeReady(k, k.lists[q := k.lists[q][1..]], p);
    ReschedDeferred(t, i);
  }

  lemma {:induction false} ReleaseNInv(was: State, k: State, i: int, n: nat)
    requires InvBut(k, i) && 0 <= i < |k.sems| && n <= |Waiters(k, i)| && Quiet(was, k)
    ensures InvBut(ReleaseN(k, i, n), i) && Quiet(was, ReleaseN(k, i, n))
    ensures ReleaseN(k, i, n).sems == k.sems && Waiters(ReleaseN(k, i, n), i) == Waiters(k, i)[n..]
    decreases n
  {
    hide InvBut, Quiet, ReleaseFirst, Waiters;
    if n > 0 {
      ReleaseFirstInv(was, k, i);
      ReleaseNInv(was, ReleaseFirst(k, i), i, n - 1);
      assert Waiters(k, i)[1..][n - 1..] == Waiters(k, i)[n..];
    }
  }

  // signal and signaln.

  /** One increment, releasing the first waiter if there is one. */
  function SignalOne(k: State, i: int): State
    requires 0 <= i < |k.sems|
  {
    var t := SetSem(k, i, k.sems[i].used, k.sems[i].count + 1);
    if k.sems[i].count < 0 then ReleaseFirst(t, i) else t
  }

  function Signal(k: State, i: int): State {
    if BadSem(k, i) then k else SignalOne(k, i)
  }

  lemma SignalOneCore(k: State, i: int)
    requires Inv(k) && !BadSem(k, i)
    ensures InvBut(SetSem(k, i, true, k.sems[i].count + 1), i)
    ensures Waiters(SetSem(k, i, true, k.sems[i].count + 1), i) == Waiters(k, i)
    ensures k.sems[i].count >= 0 ==> Inv(SetSem(k, i, true, k.sems[i].count + 1))
    ensures k.sems[i].count < 0 ==> |Waiters(k, i)| == -k.sems[i].count
  {
    assert SemOk(k, i);
    OutOfStep(k, i);
    SetSemInv(k, i, true, k.sems[i].count + 1);
  }

  lemma WaitersMatch(k: State, i: int)
    requires InvBut(k, i) && 0 <= i < |k.sems| && k.sems[i].used
    requires if k.sems[i].count < 0 then |Waiters(k, i)| == -k.sems[i].count else Waiters(k, i) == []
    ensures Inv(k)
  {
    InStep(k, i);
  }

  lemma SignalStable(k: State, i: int)
    requires Stable(k)
    ensures Stable(Signal(k, i))
  {
    if !BadSem(k, i) {
      SignalOneCore(k, i);
      var t := SetSem(k, i, true, k.sems[i].count + 1);
      if k.sems[i].count < 0 {
        hide InvBut;
        ReleasedInv(t, i);
        var q, p := t.sems[i].queue, Waiters(t, i)[0].pid;
        var u := MakeReady(t, t.lists[q := t.lists[q][1..]], p);
        WaitersMatch(u, i);
        ReschedStable(u);
      }
    }
  }

  lemma SignalOneDeferred(was: State, k: State, i: int)
    requires Inv(k) && !BadSem(k, i) && Quiet(was, k)
    ensures Inv(SignalOne(k, i)) && Quiet(was, SignalOne(k, i)) && !BadSem(SignalOne(k, i), i)
  {
    SignalOneCore(k, i);
    var t := SetSem(k, i, true, k.sems[i].count + 1);
    if k.sems[i].count < 0 {
      hide InvBut;
      ReleaseFirstInv(was, t, i);
      WaitersMatch(ReleaseFirst(t, i), i);
    }
  }

  function SignalLoop(k: State, i: int, n: nat): State
    requires 0 <= i < |k.sems|
    decreases n
  {
    if n == 0 then k
    else
      var t := SignalOne(k, i);
      if i < |t.sems| then SignalLoop(t, i, n - 1) else t
  }

  function Signaln(k: State, i: int, count: int): State {
    if count < 0 || BadSem(k, i) then k else DeferStop(SignalLoop(DeferStart(k), i, count))
  }

  lemma {:induction false} SignalLoopInv(was: State, k: State, i: int, n: nat)
    requires Inv(k) && !BadSem(k, i) && Quiet(was, k)
    ensures Inv(SignalLoop(k, i, n)) && Quiet(was, SignalLoop(k, i, n)) && !BadSem(SignalLoop(k, i, n), i)
    decreases n
  {
    hide Inv, Quiet, SignalOne;
    if n > 0 {
      SignalOneDeferred(was, k, i);
      SignalLoopInv(was, SignalOne(k, i), i, n - 1);
    }
  }

  lemma DeferStartQuiet(k: State, but: int)
    requires Stable(k)
    ensures Inv(DeferStart(k)) && Quiet(k, DeferStart(k))
  {
    BookkeepingInv(k, DeferStart(k), -1);
  }

  lemma SignalnStable(k: State, i: int, count: int)
    requires Stable(k)
    ensures Stable(Signaln(k, i, count))
  {
    if count >= 0 && !BadSem(k, i) {
      hide Stable, Inv, Quiet, SignalLoop;
      DeferStartQuiet(k, -1);
      SignalLoopInv(k, DeferStart(k), i, count);
      DeferStopStable(k, SignalLoop(DeferStart(k), i, count));
    }
  }

  // semreset and semdelete.

  function Semreset(k: State, i: int, count: int): State {
    if count < 0 || BadSem(k, i) then k
    else
      var t := ReleaseN(DeferStart(k), i, |Waiters(k, i)|);
      if i < |t.sems| then DeferStop(SetSem(t, i, t.sems[i].used, count)) else t
  }

  lemma SemresetStable(k: State, i: int, count: int)
    requires Stable(k)
    ensures Stable(Semreset(k, i, count))
    ensures count >= 0 && !BadSem(k, i) ==>
              Semreset(k, i, count).sems == k.sems[i := k.sems[i].(count := count)] && Waiters(Semreset(k, i, count), i) == []
  {
    if count >= 0 && !BadSem(k, i) {
      DeferStartQuiet(k, -1);
      var d := DeferStart(k);
      OutOfStep(d, i);
      var t := ReleaseN(d, i, |Waiters(k, i)|);
      assert Waiters(d, i) == Waiters(k, i);
      hide InvBut, ReleaseN;
      ReleaseNInv(k, d, i, |Waiters(k, i)|);
      var u := SetSem(t, i, true, count);
      SetSemInv(t, i, true, count);
      WaitersMatch(u, i);
      DeferStopStable(k, u);
      ReschedFrame(u.(ndefers := 0));
      WaitersKept(u, DeferStop(u), i);
    }
  }

  lemma WaitersKept(k: State, t: State, i: int)
    requires Tables(k) && 0 <= i < |k.sems| && t.sems == k.sems && k.sems[i].queue in t.lists
    requires t.lists[k.sems[i].queue] == k.lists[k.sems[i].queue]
    ensures Waiters(t, i) == Waiters(k, i)
  {
  }

  function Semdelete(k: State, i: int): State {
    if BadSem(k, i) then k
    else
      var c := k.sems[i].count;
      var t := ReleaseN(SetSem(DeferStart(k), i, false, c), i, if c < 0 then -c else 0);
      if i < |t.sems| then DeferStop(SetSem(t, i, false, if c < 0 then 1 else c + 1)) else t
  }

  lemma SemdeleteCore(k: State, i: int)
    requires Stable(k) && !BadSem(k, i)
    ensures var c := k.sems[i].count;
            var e, n := SetSem(DeferStart(k), i, false, c), if c < 0 then -c else 0;
            && InvBut(e, i) && Quiet(k, e) && n == |Waiters(e, i)|
  {
    DeferStartQuiet(k, -1);
    assert SemOk(k, i);
    OutOfStep(DeferStart(k), i);
    SetSemInv(DeferStart(k), i, false, k.sems[i].count);
  }

  lemma SemdeleteStable(k: State, i: int)
    requires Stable(k)
    ensures Stable(Semdelete(k, i))
    ensures !BadSem(k, i) ==>
              var t := Semdelete(k, i);
              && |t.sems| == |k.sems| && Waiters(t, i) == [] && BadSem(t, i)
              && (forall j :: 0 <= j < |k.sems| && j != i ==> t.sems[j] == k.sems[j])
  {
    if !BadSem(k, i) {
      var c := k.sems[i].count;
      var e, n := SetSem(DeferStart(k), i, false, c), if c < 0 then -c else 0;
      SemdeleteCore(k, i);
      hide InvBut, ReleaseN, Stable, Quiet, Resched, Waiters;
      ReleaseNInv(k, e, i, n);
      SemdeleteEnd(k, ReleaseN(e, i, n), i, if c < 0 then 1 else c + 1);
    }
  }

  lemma SemdeleteEnd(was: State, t: State, i: int, count: int)
    requires Stable(was) && InvBut(t, i) && Quiet(was, t) && 0 <= i < |t.sems| && Waiters(t, i) == []
    ensures var u := DeferStop(SetSem(t, i, false, count));
            Stable(u) && u.sems == t.sems[i := Sem(false, count, t.sems[i].queue)] && Waiters(u, i) == []
  {
    hide InvBut, Stable;
    var u := SetSem(t, i, false, count);
    SetSemInv(t, i, false, count);
    FreeMatch(u, i);
    QuietSem(was, t, i, count);
    hide Quiet;
    DeferStopStable(was, u);
    ReschedFrame(u.(ndefers := 0));
    TablesOf(u, i);
    hide Resched;
    WaitersKept(u, DeferStop(u), i);
  }

  lemma QuietSem(was: State, t: State, i: int, count: int)
    requires Quiet(was, t) && 0 <= i < |t.sems|
    ensures Quiet(was, SetSem(t, i, false, count))
  {
  }

  lemma FreeMatch(k: State, i: int)
    requires InvBut(k, i) && 0 <= i < |k.sems| && !k.sems[i].used && Waiters(k, i) == []
    ensures Inv(k)
  {
    InStep(k, i);
  }

  lemma TablesOf(k: State, but: int)
    requires InvBut(k, but)
    ensures Tables(k)
  {
  }

  /** Freeing the entry and starting the deferral may come in either order. */
  lemma DeferredOrder(k: State, i: int)
    requires Stable(k) && !BadSem(k, i)
    ensures InvBut(SetSem(k, i, false, k.sems[i].count), i)
    ensures DeferStart(SetSem(k, i, false, k.sems[i].count)) == SetSem(DeferStart(k), i, false, k.sems[i].count)
  {
    OutOfStep(k, i);
    SetSemInv(k, i, false, k.sems[i].count);
  }

  /** Releasing does not look at the count. */
  lemma ReleaseCount(k: State, i: int, c: int)
    requires 0 <= i < |k.sems| && k.ndefers > 0
    ensures ReleaseFirst(SetSem(k, i, false, c), i) == SetSem(ReleaseFirst(k, i), i, false, c)
    ensures Waiters(SetSem(k, i, false, c), i) == Waiters(k, i)
  {
  }
}
