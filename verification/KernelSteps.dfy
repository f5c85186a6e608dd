/** What each kernel operation does to the state, and that it keeps the invariant. */
module KernelSteps {
  import opened Queues
  import opened Delta
  import opened KernelModel

  // Scheduling.

  /** p, already off its old queue in l, becomes ready. */
  function MakeReady(k: State, l: map<int, seq<Item>>, p: int): State {
    if 0 <= p < |k.procs| && k.ready in l then
      k.(procs := k.procs[p := k.procs[p].(state := READY)],
         lists := l[k.ready := InsertedByKey(l[k.ready], Item(p, k.procs[p].prio))])
    else k
  }

  /** The current process, still eligible, goes behind its equals on the ready list. */
  function Preempted(k: State): State {
    MakeReady(k, k.lists, k.cur)
  }

  /** The head of the ready list runs. The invariant says there is one. */
  function Dispatched(k: State): State {
    if k.ready in k.lists && k.lists[k.ready] != [] && 0 <= k.lists[k.ready][0].pid < |k.procs| then
      var p := k.lists[k.ready][0].pid;
      k.(procs := k.procs[p := k.procs[p].(state := CURR)], cur := p,
         lists := k.lists[k.ready := k.lists[k.ready][1..]], preempt := QUANTUM)
    else k
  }

  function Resched(k: State): State {
    if k.ndefers > 0 then k.(attempt := true)
    else if 0 <= k.cur < |k.procs| && k.ready in k.lists && k.procs[k.cur].state == CURR then
      if k.procs[k.cur].prio > FirstKey(k.lists[k.ready]) then k else Dispatched(Preempted(k))
    else Dispatched(k)
  }

  function DeferStart(k: State): State {
    k.(ndefers := k.ndefers + 1, attempt := if k.ndefers == 0 then false else k.attempt)
  }

  function DeferStop(k: State): State {
    if k.ndefers <= 0 then k
    else
      var t := k.(ndefers := k.ndefers - 1);
      if t.ndefers == 0 && t.attempt then Resched(t) else t
  }

  /** ready: onto the ready list, then reschedule. */
  function ReadyUp(k: State, l: map<int, seq<Item>>, p: int): State {
    Resched(MakeReady(k, l, p))
  }

  /** p is off its queue in l and all else is as in k. */
  ghost predicate Detached(k: State, l: map<int, seq<Item>>, p: int) {
    && l.Keys == k.lists.Keys
    && (forall q, x :: q in k.lists ==> (Has(l[q], x) <==> Has(k.lists[q], x) && x != p))
    && (forall q :: q in k.lists ==> NoRepeats(l[q]))
    && (forall q :: q in k.lists && !Has(k.lists[q], p) ==> l[q] == k.lists[q])
  }

  lemma HomeOnly(k: State, but: int, p: int, q: int)
    requires InvBut(k, but) && q in k.lists && 0 <= p < |k.procs|
    ensures Has(k.lists[q], p) <==> Home(k.procs[p], k) == q
    ensures NoRepeats(k.lists[q])
  {
    assert Has(k.lists[q], p) <==> OnQueue(k, p, q);
  }

  /** A process made ready is on the ready list alone, and the semaphores' queues are as before. */
  lemma MadeReadyQueues(k: State, l: map<int, seq<Item>>, p: int, but: int)
    requires InvBut(k, but) && 0 <= p < |k.procs| && Detached(k, l, p)
    requires k.procs[p].state !in {FREE, READY} && (k.procs[p].state == WAIT ==> k.procs[p].sem == but)
    ensures var t := MakeReady(k, l, p);
            && (forall i :: 0 <= i < |k.sems| && i != but ==>
                  k.sems[i].queue in k.lists && k.sems[i].queue in t.lists
                  && t.lists[k.sems[i].queue] == k.lists[k.sems[i].queue])
            && (forall q :: q in t.lists ==> (Has(t.lists[q], p) <==> Home(t.procs[p], t) == q))
  {
    hide Has, NoRepeats, Descending;
    var t, s, it := MakeReady(k, l, p), l[k.ready], Item(p, k.procs[p].prio);
    assert Has(t.lists[k.ready], p) by {
      InsertedHas(s, KeyPlace(s, it.key), it, p);
    }
    forall i | 0 <= i < |k.sems| && i != but ensures t.lists[k.sems[i].queue] == k.lists[k.sems[i].queue] {
      HomeOnly(k, but, p, k.sems[i].queue);
    }
  }

  lemma MakeReadyInv(k: State, l: map<int, seq<Item>>, p: int, but: int)
    requires InvBut(k, but) && 0 <= p < |k.procs| && Detached(k, l, p)
    requires k.procs[p].state !in {FREE, READY} && (k.procs[p].state == WAIT ==> k.procs[p].sem == but)
    ensures InvBut(MakeReady(k, l, p), but)
  {
    var t, s, it := MakeReady(k, l, p), k.lists[k.ready], Item(p, k.procs[p].prio);
    HomeOnly(k, but, p, k.ready);
    assert l[k.ready] == s;
    assert Keyed(k, it);
    InsertDescending(k, s, it);
    InsertedNoRepeats(s, KeyPlace(s, it.key), it);
    forall x ensures Has(t.lists[k.ready], x) <==> Has(s, x) || x == p {
      InsertedHas(s, KeyPlace(s, it.key), it, x);
    }
    hide Has, NoRepeats, InsertedByKey, Descending, Placed;
    MadeReadyQueues(k, l, p, but);
    Move(k, t, p, but);
  }

  /** The process behind position i is where its entry's link says. */
  lemma NextSleeper(s: seq<Item>, i: nat)
    requires NoRepeats(s) && i < |s|
    ensures i + 1 < |s| ==> Has(s, s[i + 1].pid) && IndexOf(s, s[i + 1].pid) == i + 1
  {
    if i + 1 < |s| {
      IndexUnique(s, i + 1);
    }
  }

  lemma SameIndex(s: seq<Item>, i: nat)
    requires NoRepeats(s) && i < |s|
    ensures var t := if i + 1 < |s| then s[i + 1 := Item(s[i + 1].pid, s[i + 1].key + s[i].key)] else s;
            Has(t, s[i].pid) && IndexOf(t, s[i].pid) == i
  {
    var t := if i + 1 < |s| then s[i + 1 := Item(s[i + 1].pid, s[i + 1].key + s[i].key)] else s;
    assert t[i].pid == s[i].pid;
    IndexUnique(t, i);
  }

  /** Bounds a caller of the queue routines needs. */
  lemma RangeFacts(k: State, but: int)
    requires InvBut(k, but)
    ensures k.ready in k.lists && k.sleepq in k.lists && 0 <= k.cur < |k.procs|
    ensures k.procs[k.cur].state != FREE ==> k.procs[k.cur].prio > MINKEY
    ensures forall i :: 0 <= i < |k.sems| ==> k.sems[i].queue in k.lists
  {
  }

  lemma CurrentNowhere(k: State, but: int)
    requires InvBut(k, but) && k.procs[k.cur].state == CURR
    ensures Nowhere(k.lists, k.cur)
  {
    forall q | q in k.lists ensures !Has(k.lists[q], k.cur) {
      HomeOnly(k, but, k.cur, q);
    }
  }

  lemma DetachedFacts(k: State, l: map<int, seq<Item>>, p: int, but: int)
    requires InvBut(k, but) && 0 <= p < |k.procs| && Detached(k, l, p)
    ensures k.ready in l && (k.procs[p].state != FREE ==> k.procs[p].prio > MINKEY)
  {
  }

  lemma PreemptedInv(k: State, but: int)
    requires InvBut(k, but) && k.procs[k.cur].state == CURR
    ensures InvBut(Preempted(k), but)
  {
    forall q, x | q in k.lists ensures Has(k.lists[q], x) <==> Has(k.lists[q], x) && x != k.cur {
      HomeOnly(k, but, k.cur, q);
    }
    MakeReadyInv(k, k.lists, k.cur, but);
  }

  /** Some process can always run: the null process is ready when it is not current. */
  lemma SomeoneReady(k: State, but: int)
    requires InvBut(k, but) && k.procs[k.cur].state != CURR
    ensures k.lists[k.ready] != [] && 0 <= k.lists[k.ready][0].pid < |k.procs|
    ensures k.procs[k.lists[k.ready][0].pid].state == READY
  {
    HomeOnly(k, but, 0, k.ready);
    var s := k.lists[k.ready];
    assert Keyed(k, s[0]);
    HasAt(s, 0);
    assert Has(s, s[0].pid) <==> OnQueue(k, s[0].pid, k.ready);
  }

  lemma DispatchedInv(k: State, but: int)
    requires InvBut(k, but) && k.procs[k.cur].state != CURR
    ensures InvBut(Dispatched(k), but) && Dispatched(k).procs[Dispatched(k).cur].state == CURR
    ensures Dispatched(k).cur == k.lists[k.ready][0].pid
  {
    SomeoneReady(k, but);
    var s, p := k.lists[k.ready], k.lists[k.ready][0].pid;
    var k1, t := k.(cur := p), Dispatched(k);
    assert InvBut(k1, but) by {
      forall i | 0 <= i < |k1.sems| && i != but ensures SemOk(k1, i) {
        assert SemOk(k, i);
      }
      assert forall q, x :: OnQueue(k1, x, q) <==> OnQueue(k, x, q);
      assert forall i :: 0 <= i < |s| ==> Keyed(k, s[i]);
      assert forall it :: Keyed(k1, it) <==> Keyed(k, it);
    }
    assert RemovedAt(s, 0) == s[1..];
    RemoveDescending(k1, s, 0);
    HomeOnly(k, but, p, k.ready);
    RemovedNoRepeats(s, 0);
    forall x ensures Has(t.lists[k.ready], x) <==> Has(s, x) && x != p {
      RemovedHas(s, 0, x);
    }
    hide Has, NoRepeats, Descending, Placed;
    forall q | q in t.lists ensures Has(t.lists[q], p) <==> Home(t.procs[p], t) == q {
      HomeOnly(k, but, p, q);
    }
    forall q | q in k.lists ensures NoRepeats(k.lists[q]) {
      HomeOnly(k, but, p, q);
    }
    Move(k1, t.(preempt := k.preempt), p, but);
    assert InvBut(t.(preempt := k.preempt), but);
    PreemptIrrelevant(t, k.preempt, but);
  }

  /** The quantum and the deferral counters do not matter to the invariant. */
  lemma PreemptIrrelevant(t: State, n: int, but: int)
    requires InvBut(t.(preempt := n), but)
    ensures InvBut(t, but)
  {
    BookkeepingInv(t.(preempt := n), t, but);
  }

  lemma BookkeepingInv(k: State, t: State, but: int)
    requires InvBut(k, but) && t == k.(ndefers := t.ndefers, attempt := t.attempt, preempt := t.preempt)
    ensures InvBut(t, but)
  {
    assert forall q, x :: OnQueue(k, x, q) <==> OnQueue(t, x, q);
    assert forall it :: Keyed(k, it) <==> Keyed(t, it);
    forall i | 0 <= i < |t.sems| && i != but ensures SemOk(t, i) {
      assert SemOk(k, i);
    }
    assert forall i :: 0 <= i < |k.lists[k.ready]| ==> Keyed(k, k.lists[k.ready][i]);
  }

  /** Rescheduling without deferral: the process left running outranks or equals everyone ready. */
  lemma ReschedStable(k: State)
    requires Inv(k) && k.ndefers == 0
    ensures Stable(Resched(k))
  {
    hide SemsOk, Placed, NullOk;
    if k.procs[k.cur].state == CURR {
      if k.procs[k.cur].prio <= FirstKey(k.lists[k.ready]) {
        PreemptedInv(k, -1);
        DispatchedStable(Preempted(k));
      }
    } else {
      DispatchedStable(k);
    }
  }

  lemma DispatchedStable(k: State)
    requires Inv(k) && k.ndefers == 0 && k.procs[k.cur].state != CURR
    ensures Stable(Dispatched(k))
  {
    SomeoneReady(k, -1);
    DispatchedInv(k, -1);
    var s := k.lists[k.ready];
    assert Keyed(k, s[0]);
  }

  /** Giving out the processor changes nobody's priority. */
  lemma ReschedPrio(k: State, p: int)
    requires 0 <= p < |k.procs|
    ensures |Resched(k).procs| == |k.procs| && Resched(k).procs[p].prio == k.procs[p].prio
  {
  }

  lemma ReschedDeferred(k: State, but: int)
    requires InvBut(k, but) && k.ndefers > 0
    ensures InvBut(Resched(k), but) && Resched(k) == k.(attempt := true)
  {
    BookkeepingInv(k, Resched(k), but);
  }

  // Moves of one process that is not made ready.

  /** p leaves its queue for no queue. */
  function Dropped(k: State, l: map<int, seq<Item>>, p: int, st: PrState): State
    requires 0 <= p < |k.procs|
  {
    k.(procs := k.procs[p := k.procs[p].(state := st)], lists := l)
  }

  lemma DroppedInv(k: State, l: map<int, seq<Item>>, p: int, st: PrState, but: int)
    requires InvBut(k, but) && 0 < p < |k.procs| && Detached(k, l, p) && k.procs[p].state != FREE
    requires st in {FREE, SUSP, RECV} && (k.procs[p].state == WAIT ==> k.procs[p].sem == but)
    requires Descending(l[k.ready]) && forall i :: 0 <= i < |l[k.ready]| ==> Keyed(k, l[k.ready][i])
    ensures InvBut(Dropped(k, l, p, st), but)
  {
    hide Has, NoRepeats, Descending, Placed;
    var t := Dropped(k, l, p, st);
    forall i | 0 <= i < |k.sems| && i != but ensures t.lists[k.sems[i].queue] == k.lists[k.sems[i].queue] {
      HomeOnly(k, but, p, k.sems[i].queue);
    }
    assert -1 !in t.lists;
    Move(k, t, p, but);
  }

  /** Nothing to detach: a process on no queue. */
  lemma DetachedNone(k: State, p: int, but: int)
    requires InvBut(k, but) && 0 <= p < |k.procs| && Home(k.procs[p], k) == -1
    ensures Detached(k, k.lists, p)
  {
    forall q, x | q in k.lists ensures Has(k.lists[q], x) <==> Has(k.lists[q], x) && x != p {
      HomeOnly(k, but, p, q);
    }
  }

  lemma DetachedPlain(k: State, q: int, n: nat, but: int)
    requires InvBut(k, but) && q in k.lists && n < |k.lists[q]|
    ensures Detached(k, k.lists[q := RemovedAt(k.lists[q], n)], k.lists[q][n].pid)
  {
    var s, p := k.lists[q], k.lists[q][n].pid;
    var l := k.lists[q := RemovedAt(s, n)];
    HasAt(s, n);
    RemovedNoRepeats(s, n);
    hide RemovedAt, NoRepeats;
    forall r, x | r in k.lists ensures Has(l[r], x) <==> Has(k.lists[r], x) && x != p {
      if r == q {
        RemovedHas(s, n, x);
      } else {
        assert Has(k.lists[r], p) <==> OnQueue(k, p, r);
        assert Has(k.lists[q], p) <==> OnQueue(k, p, q);
      }
    }
  }

  lemma DetachedDelay(k: State, n: nat, but: int)
    requires InvBut(k, but) && n < |k.lists[k.sleepq]|
    ensures Detached(k, k.lists[k.sleepq := RemovedFromDelay(k.lists[k.sleepq], n)], k.lists[k.sleepq][n].pid)
  {
    var q := k.sleepq;
    var s, p := k.lists[q], k.lists[q][n].pid;
    var l := k.lists[q := RemovedFromDelay(s, n)];
    HasAt(s, n);
    RemovedPids(s, n);
    hide RemovedFromDelay, NoRepeats;
    forall r, x | r in k.lists ensures Has(l[r], x) <==> Has(k.lists[r], x) && x != p {
      if r == q {
        RemoveRemaining(s, n, x);
      } else {
        assert Has(k.lists[r], p) <==> OnQueue(k, p, r);
        assert Has(k.lists[q], p) <==> OnQueue(k, p, q);
      }
    }
  }

  /** The current process gives up the processor without joining a queue. */
  lemma ParkedInv(k: State, st: PrState, but: int)
    requires InvBut(k, but) && k.procs[k.cur].state == CURR && k.cur != 0 && st in {FREE, SUSP, RECV}
    ensures InvBut(Dropped(k, k.lists, k.cur, st), but)
  {
    DetachedNone(k, k.cur, but);
    DroppedInv(k, k.lists, k.cur, st, but);
  }

  /** The current process joins queue q, whose contents become s. */
  function Joined(k: State, q: int, s: seq<Item>, st: PrState, sem: int): State
    requires 0 <= k.cur < |k.procs|
  {
    k.(procs := k.procs[k.cur := k.procs[k.cur].(state := st, sem := sem)], lists := k.lists[q := s])
  }

  lemma JoinedInv(k: State, q: int, s: seq<Item>, st: PrState, sem: int, but: int)
    requires InvBut(k, but) && k.procs[k.cur].state == CURR && k.cur != 0 && q in k.lists && q != k.ready
    requires st in {WAIT, SLEEP, RECTIM} && (st == WAIT ==> 0 <= sem < |k.sems| && but == sem)
    requires q == if st == WAIT then k.sems[sem].queue else k.sleepq
    requires NoRepeats(s) && forall x :: Has(s, x) <==> Has(k.lists[q], x) || x == k.cur
    ensures InvBut(Joined(k, q, s, st, sem), but)
  {
    hide Has, NoRepeats, Descending, Placed;
    var t := Joined(k, q, s, st, sem);
    forall r | r in k.lists ensures (Has(t.lists[r], k.cur) <==> r == q) && NoRepeats(t.lists[r]) {
      HomeOnly(k, but, k.cur, r);
    }
    assert forall i :: 0 <= i < |k.lists[k.ready]| ==> Keyed(k, k.lists[k.ready][i]);
    Move(k, t, k.cur, but);
  }

  /** Messages and parents do not matter to the invariant. */
  lemma MessageInv(k: State, t: State, p: int, but: int)
    requires InvBut(k, but) && 0 <= p < |k.procs| == |t.procs| && t == k.(procs := k.procs[p := t.procs[p]])
    requires t.procs[p].state == k.procs[p].state && t.procs[p].prio == k.procs[p].prio && t.procs[p].sem == k.procs[p].sem
    ensures InvBut(t, but)
  {
    assert forall q, x :: OnQueue(k, x, q) <==> OnQueue(t, x, q);
    assert forall it :: Keyed(k, it) <==> Keyed(t, it);
    forall i | 0 <= i < |t.sems| && i != but ensures SemOk(t, i) {
      assert SemOk(k, i);
    }
    assert forall i :: 0 <= i < |k.lists[k.ready]| ==> Keyed(k, k.lists[k.ready][i]);
  }

  /** A semaphore's count and use may change while it is the one out of step. */
  function SetSem(k: State, i: int, used: bool, count: int): State
    requires 0 <= i < |k.sems|
  {
    k.(sems := k.sems[i := Sem(used, count, k.sems[i].queue)])
  }

  lemma SetSemInv(k: State, i: int, used: bool, count: int)
    requires InvBut(k, i) && 0 <= i < |k.sems|
    ensures InvBut(SetSem(k, i, used, count), i)
    ensures SemOk(SetSem(k, i, used, count), i) ==> Inv(SetSem(k, i, used, count))
  {
    var t := SetSem(k, i, used, count);
    assert forall p :: 0 <= p < |k.procs| ==> Home(k.procs[p], k) == Home(t.procs[p], t);
    assert forall q, x :: OnQueue(k, x, q) <==> OnQueue(t, x, q);
    assert forall it :: Keyed(k, it) <==> Keyed(t, it);
    assert Tables(t);
    forall j | 0 <= j < |t.sems| && j != i ensures SemOk(t, j) {
      assert SemOk(k, j);
    }
    assert forall j :: 0 <= j < |k.lists[k.ready]| ==> Keyed(k, k.lists[k.ready][j]);
  }

  lemma InStep(k: State, i: int)
    requires InvBut(k, i) && 0 <= i < |k.sems| && SemOk(k, i)
    ensures Inv(k)
  {
  }

  lemma OutOfStep(k: State, i: int)
    requires Inv(k)
    ensures InvBut(k, i)
  {
    forall j | 0 <= j < |k.sems| && j != i ensures SemOk(k, j) {
    }
  }
}
