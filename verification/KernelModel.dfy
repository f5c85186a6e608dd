/** Processes, semaphores and queues as one value, its invariant, and how a process changes place. */
module KernelModel {
  import opened Queues
  import opened Delta

  datatype PrState = FREE | CURR | READY | RECV | SLEEP | SUSP | WAIT | RECTIM

  datatype Proc = Proc(state: PrState, prio: int, sem: int, parent: int, hasmsg: bool, msg: int)

  datatype Sem = Sem(used: bool, count: int, queue: int)

  datatype State = State(procs: seq<Proc>, cur: int, sems: seq<Sem>, lists: map<int, seq<Item>>,
                         ready: int, sleepq: int, ndefers: int, attempt: bool, preempt: int)

  const NULLPROC: int := 0
  const QUANTUM: int := 2

  /** The queue a process's state puts it on; -1 for none. */
  function Home(pr: Proc, k: State): int {
    match pr.state
    case READY => k.ready
    case WAIT => if 0 <= pr.sem < |k.sems| then k.sems[pr.sem].queue else -1
    case SLEEP => k.sleepq
    case RECTIM => k.sleepq
    case _ => -1
  }

  predicate OnQueue(k: State, p: int, q: int) {
    0 <= p < |k.procs| && Home(k.procs[p], k) == q
  }

  ghost predicate Tables(k: State) {
    && k.ready in k.lists && k.sleepq in k.lists && k.ready != k.sleepq
    && (forall i :: 0 <= i < |k.sems| ==> k.sems[i].queue in k.lists)
    && (forall i :: 0 <= i < |k.sems| ==> k.sems[i].queue != k.ready && k.sems[i].queue != k.sleepq)
    && (forall i, j :: 0 <= i < j < |k.sems| ==> k.sems[i].queue != k.sems[j].queue)
    && -1 !in k.lists
  }

  /** A process is on the queue its state names, once, and on no other. */
  ghost predicate Placed(k: State) {
    && (forall q, p :: q in k.lists ==> (Has(k.lists[q], p) <==> OnQueue(k, p, q)))
    && (forall q :: q in k.lists ==> NoRepeats(k.lists[q]))
    && (forall p :: 0 <= p < |k.procs| && k.procs[p].state == WAIT ==> 0 <= k.procs[p].sem < |k.sems|)
  }

  ghost predicate OneCurrent(k: State) {
    0 <= k.cur < |k.procs| && forall p :: 0 <= p < |k.procs| && k.procs[p].state == CURR ==> p == k.cur
  }

  /** A negative count is the number of waiters; otherwise, or when the entry is free, nobody waits. */
  ghost predicate SemOk(k: State, i: int)
    requires Tables(k) && 0 <= i < |k.sems|
  {
    var s, q := k.sems[i], k.lists[k.sems[i].queue];
    if s.used && s.count < 0 then |q| == -s.count else q == []
  }

  // In the middle of an operation one semaphore may be out of step; but is -1 when none is.
  ghost predicate SemsOk(k: State, but: int)
    requires Tables(k)
  {
    forall i :: 0 <= i < |k.sems| && i != but ==> SemOk(k, i)
  }

  ghost predicate Descending(s: seq<Item>) {
    forall i, j :: 0 <= i < j < |s| ==> s[i].key >= s[j].key
  }

  predicate Keyed(k: State, it: Item) {
    0 <= it.pid < |k.procs| && it.key == k.procs[it.pid].prio
  }

  /** The ready list is in priority order. */
  ghost predicate ReadyOk(k: State)
    requires k.ready in k.lists
  {
    Descending(k.lists[k.ready]) && forall i :: 0 <= i < |k.lists[k.ready]| ==> Keyed(k, k.lists[k.ready][i])
  }

  /** The null process never blocks and every other live process outranks it. */
  ghost predicate NullOk(k: State) {
    && |k.procs| > 0 && k.procs[0].prio == 0
    && (k.procs[0].state == READY || (k.procs[0].state == CURR && k.cur == 0))
    && (forall p :: 0 < p < |k.procs| && k.procs[p].state != FREE ==> k.procs[p].prio >= 1)
  }

  ghost predicate InvBut(k: State, but: int) {
    Tables(k) && Placed(k) && OneCurrent(k) && SemsOk(k, but) && ReadyOk(k) && NullOk(k)
  }

  /** The invariant of the process table, the semaphores and the queues together. */
  ghost predicate Inv(k: State) {
    InvBut(k, -1)
  }

  function FirstKey(s: seq<Item>): int {
    if s == [] then MINKEY else s[0].key
  }

  /** Between operations: a process runs, no deferral is outstanding, and nobody ready outranks it. */
  ghost predicate Stable(k: State) {
    && Inv(k) && k.procs[k.cur].state == CURR && k.ndefers == 0
    && FirstKey(k.lists[k.ready]) <= k.procs[k.cur].prio
  }

  // A process changes state and place; everything else stays.
  ghost predicate SamePlaces(k: State, t: State, p: int) {
    && t.lists.Keys == k.lists.Keys
    && (forall q, x :: q in k.lists && x != p ==> (Has(t.lists[q], x) <==> Has(k.lists[q], x)))
    && (forall q :: q in k.lists ==> NoRepeats(t.lists[q]))
  }

  ghost predicate SameSems(k: State, t: State, but: int) {
    && |t.sems| == |k.sems|
    && (forall i :: 0 <= i < |k.sems| ==> t.sems[i].queue == k.sems[i].queue)
    && (forall i :: 0 <= i < |k.sems| && i != but ==> t.sems[i] == k.sems[i])
    && (forall i :: 0 <= i < |k.sems| && i != but && k.sems[i].queue in k.lists && k.sems[i].queue in t.lists ==>
          t.lists[k.sems[i].queue] == k.lists[k.sems[i].queue])
  }

  lemma PlacedMove(k: State, t: State, p: int)
    requires Tables(k) && Placed(k) && 0 <= p < |k.procs| == |t.procs| && SamePlaces(k, t, p)
    requires |t.sems| == |k.sems| && forall i :: 0 <= i < |k.sems| ==> t.sems[i].queue == k.sems[i].queue
    requires t.procs == k.procs[p := t.procs[p]] && t.ready == k.ready && t.sleepq == k.sleepq
    requires forall q :: q in t.lists ==> (Has(t.lists[q], p) <==> Home(t.procs[p], t) == q)
    requires t.procs[p].state == WAIT ==> 0 <= t.procs[p].sem < |k.sems|
    ensures Placed(t)
  {
    hide Has, NoRepeats;
    forall q, x | q in t.lists ensures Has(t.lists[q], x) <==> OnQueue(t, x, q) {
      if x != p {
        assert Has(k.lists[q], x) <==> OnQueue(k, x, q);
        if 0 <= x < |k.procs| {
          assert Home(t.procs[x], t) == Home(k.procs[x], k);
        }
      }
    }
  }

  /** The invariant carries over a move. */
  lemma Move(k: State, t: State, p: int, but: int)
    requires InvBut(k, but) && 0 <= p < |k.procs| == |t.procs|
    requires t.procs == k.procs[p := t.procs[p]] && t.procs[p].prio == k.procs[p].prio
    requires t.cur == k.cur && t.ready == k.ready && t.sleepq == k.sleepq
    requires SamePlaces(k, t, p) && SameSems(k, t, but)
    requires forall q :: q in t.lists ==> (Has(t.lists[q], p) <==> Home(t.procs[p], t) == q)
    requires t.procs[p].state == WAIT ==> 0 <= t.procs[p].sem < |k.sems|
    requires t.procs[p].state == CURR ==> p == k.cur
    requires p == 0 ==> t.procs[p].state == READY || (t.procs[p].state == CURR && k.cur == 0)
    requires k.procs[p].state == FREE ==> t.procs[p].state == FREE
    requires Descending(t.lists[k.ready]) && forall i :: 0 <= i < |t.lists[k.ready]| ==> Keyed(k, t.lists[k.ready][i])
    ensures InvBut(t, but)
  {
    hide Has, NoRepeats, Placed, Descending;
    PlacedMove(k, t, p);
    assert Tables(t);
    assert OneCurrent(t);
    forall i | 0 <= i < |t.sems| && i != but ensures SemOk(t, i) {
      assert SemOk(k, i);
    }
    forall i | 0 <= i < |t.lists[t.ready]| ensures Keyed(t, t.lists[t.ready][i]) {
      assert Keyed(k, t.lists[k.ready][i]);
    }
    assert NullOk(t);
  }

  // Priority order through insertion and removal.
  lemma InsertDescending(k: State, s: seq<Item>, it: Item)
    requires Descending(s) && Keyed(k, it) && forall i :: 0 <= i < |s| ==> Keyed(k, s[i])
    ensures Descending(InsertedByKey(s, it))
    ensures forall i :: 0 <= i < |InsertedByKey(s, it)| ==> Keyed(k, InsertedByKey(s, it)[i])
  {
    var n, t := KeyPlace(s, it.key), InsertedByKey(s, it);
    forall i, j | 0 <= i < j < |t| ensures t[i].key >= t[j].key {
      InsertedItem(s, n, it, i);
      InsertedItem(s, n, it, j);
      hide InsertedByKey;
      if i == n {
        assert n < j - 1 ==> s[n].key >= s[j - 1].key;
      }
    }
    forall i | 0 <= i < |t| ensures Keyed(k, t[i]) {
      InsertedItem(s, n, it, i);
    }
  }

  lemma InsertedItem(s: seq<Item>, n: nat, it: Item, i: nat)
    requires n <= |s| && i < |s| + 1
    ensures InsertedAt(s, n, it)[i] == if i < n then s[i] else if i == n then it else s[i - 1]
  {
  }

  lemma RemoveDescending(k: State, s: seq<Item>, n: nat)
    requires Descending(s) && n < |s| && forall i :: 0 <= i < |s| ==> Keyed(k, s[i])
    ensures Descending(RemovedAt(s, n))
    ensures forall i :: 0 <= i < |RemovedAt(s, n)| ==> Keyed(k, RemovedAt(s, n)[i])
  {
    RemovedItems(s, n);
  }

  lemma InsertedNoRepeats(s: seq<Item>, n: nat, it: Item)
    requires NoRepeats(s) && n <= |s| && !Has(s, it.pid)
    ensures NoRepeats(InsertedAt(s, n, it))
  {
    var u := InsertedAt(s, n, it);
    forall i | 0 <= i < |s| ensures s[i].pid != it.pid {
      HasAt(s, i);
    }
    assert forall i :: 0 <= i < |u| ==> u[i] == if i < n then s[i] else if i == n then it else s[i - 1];
  }

  lemma RemovedNoRepeats(s: seq<Item>, n: nat)
    requires NoRepeats(s) && n < |s|
    ensures NoRepeats(RemovedAt(s, n))
  {
    RemovedItems(s, n);
  }
}
