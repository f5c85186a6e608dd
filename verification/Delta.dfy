/** What the sleep queue's deltas mean: each key is the delay beyond the process in front, so a
    process is due after the sum of the keys up to and including its own. */
module Delta {
  import opened Queues

  function SumTo(s: seq<Item>, n: nat): int
    requires n <= |s|
  {
    if n == 0 then 0 else SumTo(s, n - 1) + s[n - 1].key
  }

  /** Ticks until the process is due. */
  function Remaining(s: seq<Item>, pid: int): int
    requires Has(s, pid)
  {
    SumTo(s, IndexOf(s, pid) + 1)
  }

  /** No delay is negative and the first process has a tick or more to go. */
  ghost predicate DeltaOk(s: seq<Item>) {
    && NoRepeats(s)
    && (forall i :: 0 <= i < |s| ==> 0 <= s[i].key)
    && (s != [] ==> 1 <= s[0].key)
  }

  lemma {:induction false} SumSame(s: seq<Item>, t: seq<Item>, n: nat)
    requires n <= |s| && n <= |t| && s[..n] == t[..n]
    ensures SumTo(s, n) == SumTo(t, n)
  {
    if n > 0 {
      assert s[..n][..n - 1] == s[..n - 1] && t[..n][..n - 1] == t[..n - 1];
      assert s[..n][n - 1] == t[..n][n - 1];
      SumSame(s, t, n - 1);
    }
  }

  /** Lists whose sums agree at one place and keys after it agree on sums from there on. */
  lemma {:induction false} SumShift(s: seq<Item>, a: nat, t: seq<Item>, b: nat, n: nat)
    requires a + n <= |s| && b + n <= |t| && SumTo(s, a) == SumTo(t, b)
    requires forall k :: a <= k < a + n ==> s[k].key == t[k - a + b].key
    ensures SumTo(s, a + n) == SumTo(t, b + n)
  {
    if n > 0 {
      SumShift(s, a, t, b, n - 1);
      assert s[a + n - 1].key == t[b + n - 1].key;
    }
  }

  lemma {:induction false} SumMonotone(s: seq<Item>, a: nat, b: nat)
    requires a <= b <= |s| && forall i :: 0 <= i < |s| ==> 0 <= s[i].key
    ensures SumTo(s, a) <= SumTo(s, b)
  {
    if a < b {
      SumMonotone(s, a, b - 1);
    }
  }

  lemma IndexUnique(s: seq<Item>, i: nat)
    requires NoRepeats(s) && i < |s|
    ensures Has(s, s[i].pid) && IndexOf(s, s[i].pid) == i
  {
    HasAt(s, i);
  }

  /** The walk stops where the delays in front add up to the new delay less what is left of it. */
  lemma {:induction false} PlaceSum(s: seq<Item>, d: int)
    ensures var r := DeltaPlace(s, d); SumTo(s, r.0) + r.1 == d
    ensures var r := DeltaPlace(s, d); r.0 < |s| ==> s[r.0].key > r.1
    ensures 0 <= d ==> 0 <= DeltaPlace(s, d).1
    ensures (d >= 1 && (forall i :: 0 <= i < |s| ==> 0 <= s[i].key) && DeltaPlace(s, d).0 == 0) ==> DeltaPlace(s, d).1 == d
  {
    if |s| > 0 && s[0].key <= d {
      var r := DeltaPlace(s[1..], d - s[0].key);
      PlaceSum(s[1..], d - s[0].key);
      SumTail(s, r.0);
    }
  }

  lemma {:induction false} SumTail(s: seq<Item>, n: nat)
    requires |s| > 0 && n <= |s| - 1
    ensures SumTo(s, n + 1) == s[0].key + SumTo(s[1..], n)
  {
    if n > 0 {
      SumTail(s, n - 1);
    }
  }

  /** What insertd leaves at each place. */
  lemma InsertedItems(s: seq<Item>, it: Item)
    ensures var r, t := DeltaPlace(s, it.key), InsertedByDelay(s, it);
            && |t| == |s| + 1 && t[r.0] == Item(it.pid, r.1)
            && (forall k :: 0 <= k < r.0 ==> t[k] == s[k])
            && (r.0 < |s| ==> t[r.0 + 1] == Item(s[r.0].pid, s[r.0].key - r.1))
            && (forall k :: r.0 + 1 < k < |t| ==> t[k] == s[k - 1])
  {
  }

  /** Sums after an insertion: nobody else's time changes, and the new process waits its full delay. */
  lemma InsertSums(s: seq<Item>, it: Item, k: nat)
    requires k < |InsertedByDelay(s, it)|
    ensures var r := DeltaPlace(s, it.key).0;
            SumTo(InsertedByDelay(s, it), k + 1) == if k < r then SumTo(s, k + 1) else if k == r then it.key else SumTo(s, k)
  {
    var r, t := DeltaPlace(s, it.key), InsertedByDelay(s, it);
    InsertedItems(s, it);
    PlaceSum(s, it.key);
    hide InsertedByDelay, DeltaPlace;
    if k < r.0 {
      assert t[..k + 1] == s[..k + 1];
      SumSame(s, t, k + 1);
    } else {
      assert t[..r.0] == s[..r.0];
      SumSame(s, t, r.0);
      if k > r.0 {
        assert SumTo(t, r.0 + 2) == SumTo(s, r.0 + 1);
        SumShift(t, r.0 + 2, s, r.0 + 1, k - r.0 - 1);
      }
    }
  }

  lemma InsertedPids(s: seq<Item>, it: Item)
    requires NoRepeats(s) && !Has(s, it.pid)
    ensures var r, t := DeltaPlace(s, it.key).0, InsertedByDelay(s, it);
            NoRepeats(t) && |t| == |s| + 1 && t[r].pid == it.pid
  {
    var r, t := DeltaPlace(s, it.key), InsertedByDelay(s, it);
    InsertedItems(s, it);
    hide InsertedByDelay, DeltaPlace;
    forall i | 0 <= i < |s| ensures s[i].pid != it.pid {
      HasAt(s, i);
    }
  }

  lemma InsertedPid(s: seq<Item>, it: Item, i: nat)
    requires i < |s|
    ensures var r, t := DeltaPlace(s, it.key).0, InsertedByDelay(s, it);
            r <= |s| < |t| == |s| + 1 && t[if i < r then i else i + 1].pid == s[i].pid
  {
    InsertedItems(s, it);
  }

  /** The new process waits its full delay. */
  lemma InsertRemainingSelf(s: seq<Item>, it: Item)
    requires NoRepeats(s) && !Has(s, it.pid)
    ensures NoRepeats(InsertedByDelay(s, it)) && Has(InsertedByDelay(s, it), it.pid)
    ensures Remaining(InsertedByDelay(s, it), it.pid) == it.key
  {
    hide InsertedByDelay, DeltaPlace;
    InsertedPids(s, it);
    IndexUnique(InsertedByDelay(s, it), DeltaPlace(s, it.key).0);
    InsertSums(s, it, DeltaPlace(s, it.key).0);
  }

  /** Nobody else's time changes. */
  lemma InsertRemaining(s: seq<Item>, it: Item, p: int)
    requires NoRepeats(s) && !Has(s, it.pid)
    ensures Has(InsertedByDelay(s, it), p) <==> Has(s, p) || p == it.pid
    ensures Has(s, p) ==> Remaining(InsertedByDelay(s, it), p) == Remaining(s, p)
  {
    hide InsertedByDelay, DeltaPlace, NoRepeats;
    var r, t := DeltaPlace(s, it.key).0, InsertedByDelay(s, it);
    InsertedPids(s, it);
    if Has(s, p) {
      KeptRemaining(s, it, p);
    }
    if p == it.pid {
      HasAt(t, r);
    }
    if Has(t, p) && p != it.pid {
      var k := IndexOf(t, p);
      var i := if k < r then k else k - 1;
      InsertedPid(s, it, i);
      HasAt(s, i);
    }
  }

  lemma KeptRemaining(s: seq<Item>, it: Item, p: int)
    requires NoRepeats(s) && !Has(s, it.pid) && Has(s, p)
    ensures Has(InsertedByDelay(s, it), p) && Remaining(InsertedByDelay(s, it), p) == Remaining(s, p)
  {
    hide InsertedByDelay, DeltaPlace, NoRepeats;
    var r, t := DeltaPlace(s, it.key).0, InsertedByDelay(s, it);
    InsertedPids(s, it);
    var i := IndexOf(s, p);
    var k := if i < r then i else i + 1;
    InsertedPid(s, it, i);
    IndexUnique(t, k);
    InsertSums(s, it, k);
  }

  /** The list stays well formed exactly when the new delay is at least one tick. */
  lemma InsertOk(s: seq<Item>, it: Item)
    requires DeltaOk(s) && !Has(s, it.pid) && 0 <= it.key
    ensures DeltaOk(InsertedByDelay(s, it)) <==> 1 <= it.key
  {
    InsertRemainingSelf(s, it);
    InsertedItems(s, it);
    PlaceSum(s, it.key);
  }

  lemma RemovedDelayItems(s: seq<Item>, i: nat)
    requires i < |s|
    ensures var t := RemovedFromDelay(s, i);
            && |t| == |s| - 1 && (forall k :: 0 <= k < i ==> t[k] == s[k])
            && (i + 1 < |s| ==> t[i] == Item(s[i + 1].pid, s[i + 1].key + s[i].key))
            && (forall k :: i < k < |t| ==> t[k] == s[k + 1])
  {
  }

  lemma RemoveSums(s: seq<Item>, i: nat, k: nat)
    requires i < |s| && k < |s| - 1
    ensures k < |RemovedFromDelay(s, i)|
    ensures SumTo(RemovedFromDelay(s, i), k + 1) == if k < i then SumTo(s, k + 1) else SumTo(s, k + 2)
  {
    hide RemovedFromDelay;
    var t := RemovedFromDelay(s, i);
    RemovedDelayItems(s, i);
    if k < i {
      assert t[..k + 1] == s[..k + 1];
      SumSame(s, t, k + 1);
    } else {
      assert t[..i] == s[..i];
      SumSame(s, t, i);
      assert SumTo(t, i + 1) == SumTo(s, i + 2);
      SumShift(t, i + 1, s, i + 2, k - i);
    }
  }

  lemma RemovedPids(s: seq<Item>, i: nat)
    requires NoRepeats(s) && i < |s|
    ensures var t := RemovedFromDelay(s, i);
            NoRepeats(t) && |t| == |s| - 1 && forall k :: 0 <= k < |t| ==> t[k].pid == s[if k < i then k else k + 1].pid
  {
    RemovedDelayItems(s, i);
    hide RemovedFromDelay;
  }

  /** Leaving early changes nobody else's time. */
  lemma RemoveRemaining(s: seq<Item>, i: nat, p: int)
    requires NoRepeats(s) && i < |s|
    ensures NoRepeats(RemovedFromDelay(s, i))
    ensures Has(RemovedFromDelay(s, i), p) <==> Has(s, p) && p != s[i].pid
    ensures Has(s, p) && p != s[i].pid ==> Remaining(RemovedFromDelay(s, i), p) == Remaining(s, p)
  {
    hide RemovedFromDelay;
    var t := RemovedFromDelay(s, i);
    RemovedPids(s, i);
    if Has(s, p) && p != s[i].pid {
      var j := IndexOf(s, p);
      var k := if j < i then j else j - 1;
      assert t[k].pid == p;
      IndexUnique(t, k);
      RemoveSums(s, i, k);
    }
    if Has(t, p) {
      var k := IndexOf(t, p);
      HasAt(s, if k < i then k else k + 1);
    }
  }

  lemma RemoveOk(s: seq<Item>, i: nat)
    requires DeltaOk(s) && i < |s|
    ensures DeltaOk(RemovedFromDelay(s, i))
  {
    hide RemovedFromDelay;
    RemovedPids(s, i);
    RemovedDelayItems(s, i);
  }

  /** How many processes at the front are due. */
  function Due(s: seq<Item>): (n: nat)
    ensures n <= |s|
    ensures forall i :: 0 <= i < n ==> s[i].key <= 0
    ensures n < |s| ==> s[n].key > 0
  {
    if |s| == 0 || s[0].key > 0 then 0 else 1 + Due(s[1..])
  }

  /** The first process's key one tick later. */
  function Ticked(s: seq<Item>): seq<Item> {
    if |s| == 0 then s else s[0 := Item(s[0].pid, s[0].key - 1)]
  }

  /** A clock tick on the delta list: who is released and who stays. */
  function Tick(s: seq<Item>): (r: (seq<Item>, seq<Item>)) {
    if |s| > 0 && s[0].key - 1 <= 0 then (Ticked(s)[..Due(Ticked(s))], Ticked(s)[Due(Ticked(s))..])
    else ([], Ticked(s))
  }

  lemma {:induction false} TickedSum(s: seq<Item>, n: nat)
    requires 0 < n <= |s|
    ensures SumTo(Ticked(s), n) == SumTo(s, n) - 1
  {
    if n > 1 {
      TickedSum(s, n - 1);
    }
  }

  lemma {:induction false} DropSum(s: seq<Item>, k: nat, n: nat)
    requires k + n <= |s|
    ensures SumTo(s[k..], n) == SumTo(s, k + n) - SumTo(s, k)
  {
    if n > 0 {
      DropSum(s, k, n - 1);
    }
  }

  /** What the processes released in a tick were keyed, in all: the first may have overrun. */
  lemma {:induction false} DueSum(s: seq<Item>, n: nat)
    requires |s| > 0 && 0 < n <= |s| && (forall i :: 1 <= i < n ==> s[i].key == 0)
    ensures SumTo(s, n) == s[0].key
  {
    if n > 1 {
      DueSum(s, n - 1);
    }
  }

  /** How a tick splits the list: the first n are released. */
  lemma TickSplit(s: seq<Item>) returns (n: nat)
    requires s != []
    ensures n <= |s| && Tick(s) == (Ticked(s)[..n], Ticked(s)[n..]) && |Ticked(s)| == |s|
    ensures forall k :: 0 <= k < |s| ==> Ticked(s)[k].pid == s[k].pid
    ensures forall k :: 0 <= k < n ==> Ticked(s)[k].key <= 0
    ensures n < |s| ==> (Ticked(s)[n].key > 0 || n == 0)
    ensures n > 0 <==> s[0].key <= 1
  {
    n := if s[0].key - 1 <= 0 then Due(Ticked(s)) else 0;
  }

  lemma SplitHas(u: seq<Item>, n: nat, i: nat)
    requires NoRepeats(u) && n <= |u| && i < |u|
    ensures Has(u[..n], u[i].pid) <==> i < n
    ensures Has(u[n..], u[i].pid) <==> i >= n
    ensures i >= n ==> IndexOf(u[n..], u[i].pid) == i - n
  {
    if i < n {
      assert u[..n][i].pid == u[i].pid;
      HasAt(u[..n], i);
    } else {
      assert u[n..][i - n].pid == u[i].pid;
      IndexUnique(u[n..], i - n);
    }
    forall k | 0 <= k < n && k != i ensures u[..n][k].pid != u[i].pid {
    }
    forall k | 0 <= k < |u| - n && k + n != i ensures u[n..][k].pid != u[i].pid {
    }
  }

  /** A tick releases exactly the processes with one tick left and takes one from all the rest. */
  lemma TickExact(s: seq<Item>, p: int)
    requires DeltaOk(s) && Has(s, p)
    ensures Has(Tick(s).0, p) <==> Remaining(s, p) == 1
    ensures Has(Tick(s).1, p) <==> Remaining(s, p) > 1
    ensures Has(Tick(s).1, p) ==> Remaining(Tick(s).1, p) == Remaining(s, p) - 1
  {
    var i, u := IndexOf(s, p), Ticked(s);
    var n := TickSplit(s);
    TickedSum(s, i + 1);
    assert forall k :: 1 <= k < |s| ==> u[k] == s[k];
    assert u[0].key == s[0].key - 1 && NoRepeats(u);
    hide Tick, Ticked, NoRepeats, Has, IndexOf;
    SplitHas(u, n, i);
    if i < n {
      DueSum(u, i + 1);
    } else {
      if n > 0 {
        DueSum(u, n);
      }
      DropSum(u, n, i + 1 - n);
      SurvivorPositive(u, n, i);
    }
  }

  lemma TickOk(s: seq<Item>)
    requires DeltaOk(s)
    ensures DeltaOk(Tick(s).1)
  {
    if s != [] {
      var n := TickSplit(s);
      var u := Ticked(s);
      assert forall k :: 1 <= k < |s| ==> u[k] == s[k];
      assert forall k :: 0 <= k < |u[n..]| ==> u[n..][k] == u[k + n];
    }
  }

  lemma {:induction false} SurvivorPositive(u: seq<Item>, n: nat, i: nat)
    requires n <= i < |u| && u[n].key > 0 && SumTo(u, n) >= 0 && forall k :: n <= k < |u| ==> 0 <= u[k].key
    ensures SumTo(u, i + 1) > 0
  {
    if i > n {
      SurvivorPositive(u, n, i - 1);
    }
  }

  /** With a zero delay in front the tick is lost on everyone behind: times fall exactly when the
      first key is at least one. */
  lemma TickLost(s: seq<Item>, p: int)
    requires NoRepeats(s) && (forall i :: 0 <= i < |s| ==> 0 <= s[i].key) && Has(Tick(s).1, p)
    ensures Has(s, p)
    ensures Remaining(Tick(s).1, p) == Remaining(s, p) - 1 <==> s[0].key >= 1
    ensures s[0].key == 0 ==> Remaining(Tick(s).1, p) == Remaining(s, p)
  {
    if s != [] {
      var n, j := SurvivorAt(s, p);
      hide Tick, Ticked, NoRepeats, Has, IndexOf, SumTo;
      LostSums(s, n, j);
    }
  }

  lemma LostSums(s: seq<Item>, n: nat, j: nat)
    requires s != [] && n + j < |s| == |Ticked(s)| && forall k :: 1 <= k < n ==> Ticked(s)[k].key == 0
    ensures SumTo(Ticked(s)[n..], j + 1) == SumTo(s, n + j + 1) - 1 - if n > 0 then s[0].key - 1 else 0
  {
    var u := Ticked(s);
    assert u[0].key == s[0].key - 1 && SumTo(u, 0) == 0;
    hide Ticked, SumTo;
    TickedSum(s, n + j + 1);
    DropSum(u, n, j + 1);
    if n > 0 {
      DueSum(u, n);
    }
  }

  /** Where a process that stays asleep through a tick stands before and after it. */
  lemma SurvivorAt(s: seq<Item>, p: int) returns (n: nat, j: nat)
    requires NoRepeats(s) && s != [] && (forall i :: 0 <= i < |s| ==> 0 <= s[i].key) && Has(Tick(s).1, p)
    ensures n + j < |s| == |Ticked(s)| && Tick(s).1 == Ticked(s)[n..]
    ensures Has(s, p) && IndexOf(s, p) == n + j && IndexOf(Tick(s).1, p) == j
    ensures forall k :: 1 <= k < n ==> Ticked(s)[k].key == 0
    ensures n > 0 <==> s[0].key <= 1
  {
    hide Tick, Due;
    n := TickSplit(s);
    var u := Ticked(s);
    assert forall k :: 1 <= k < |s| ==> u[k] == s[k];
    j := IndexOf(u[n..], p);
    assert u[n..][j] == u[n + j];
    IndexUnique(s, n + j);
  }

  /** A process that waits zero ticks in front of others costs them a tick: with 1 due in one tick,
      process 2 joining with no delay makes the next tick release 2 alone. */
  lemma ZeroDelayExample()
    ensures var s := [Item(1, 1)];
            && DeltaOk(s) && Tick(s).0 == [Item(1, 0)]
            && InsertedByDelay(s, Item(2, 0)) == [Item(2, 0), Item(1, 1)]
            && Tick(InsertedByDelay(s, Item(2, 0))) == ([Item(2, -1)], [Item(1, 1)])
  {
    var s := [Item(1, 1)];
    assert Ticked(s) == [Item(1, 0)];
    assert Due(Ticked(s)[1..]) == 0;
    var t := InsertedByDelay(s, Item(2, 0));
    assert t == [Item(2, 0), Item(1, 1)];
    assert Ticked(t) == [Item(2, -1), Item(1, 1)];
    assert Ticked(t)[1..] == [Item(1, 1)];
    assert Due(Ticked(t)[1..]) == 0 && Due(Ticked(t)) == 1;
    assert Ticked(t)[..1] == [Item(2, -1)];
  }

  // The sleep queue through time: when each sleeper is due, and who was woken when.
  datatype Event = Sleep(pid: int, delay: int) | Leave(pid: int) | ClockTick

  datatype Woken = Woken(pid: int, due: int, at: int)

  datatype Clock = Clock(s: seq<Item>, now: int, due: map<int, int>, log: seq<Woken>)

  ghost predicate OnTime(c: Clock) {
    && DeltaOk(c.s)
    && (forall p :: Has(c.s, p) ==> p in c.due && c.due[p] == c.now + Remaining(c.s, p))
    && (forall w :: w in c.log ==> w.due == w.at)
  }

  function Log(c: Clock, woken: seq<Item>): seq<Woken>
    requires forall i :: 0 <= i < |woken| ==> woken[i].pid in c.due
  {
    seq(|woken|, i requires 0 <= i < |woken| => Woken(woken[i].pid, c.due[woken[i].pid], c.now + 1))
  }

  lemma WokenKnown(c: Clock)
    requires OnTime(c)
    ensures forall i :: 0 <= i < |Tick(c.s).0| ==> Tick(c.s).0[i].pid in c.due && c.due[Tick(c.s).0[i].pid] == c.now + 1
  {
    if c.s != [] {
      var n := TickSplit(c.s);
      forall i | 0 <= i < |Tick(c.s).0| ensures Tick(c.s).0[i].pid in c.due && c.due[Tick(c.s).0[i].pid] == c.now + 1 {
        var p := Tick(c.s).0[i].pid;
        HasAt(Tick(c.s).0, i);
        assert c.s[i].pid == p;
        HasAt(c.s, i);
        TickExact(c.s, p);
      }
    }
  }

  /** Sleeping again before being woken, and leaving a queue one is not on, do nothing. */
  ghost function Next(c: Clock, e: Event): Clock
    requires OnTime(c)
  {
    match e
    case Sleep(p, d) => if Has(c.s, p) then c else c.(s := InsertedByDelay(c.s, Item(p, d)), due := c.due[p := c.now + d])
    case Leave(p) => if Has(c.s, p) then c.(s := RemovedFromDelay(c.s, IndexOf(c.s, p))) else c
    case ClockTick =>
      WokenKnown(c);
      Clock(Tick(c.s).1, c.now + 1, c.due, c.log + Log(c, Tick(c.s).0))
  }

  lemma NextOnTime(c: Clock, e: Event)
    requires OnTime(c) && (e.Sleep? ==> 1 <= e.delay)
    ensures OnTime(Next(c, e))
  {
    hide DeltaOk, Remaining, Has, IndexOf, Tick, InsertedByDelay, RemovedFromDelay;
    var t := Next(c, e).s;
    match e {
      case Sleep(p, d) =>
        if !Has(c.s, p) {
          InsertOk(c.s, Item(p, d));
          assert NoRepeats(c.s) by { OkDistinct(c.s); }
          InsertRemainingSelf(c.s, Item(p, d));
          forall o | Has(t, o) ensures Remaining(t, o) == if Has(c.s, o) then Remaining(c.s, o) else d
            ensures o == p || Has(c.s, o)
          {
            InsertRemaining(c.s, Item(p, d), o);
          }
        }
      case Leave(p) =>
        if Has(c.s, p) {
          OkDistinct(c.s);
          RemoveOk(c.s, IndexOf(c.s, p));
          forall o | Has(t, o) ensures Has(c.s, o) && Remaining(t, o) == Remaining(c.s, o) {
            RemoveRemaining(c.s, IndexOf(c.s, p), o);
          }
        }
      case ClockTick =>
        WokenKnown(c);
        TickOk(c.s);
        forall o | Has(t, o) ensures Has(c.s, o) && Remaining(t, o) == Remaining(c.s, o) - 1 {
          SurvivorWasThere(c.s, o);
          TickExact(c.s, o);
        }
    }
  }

  lemma OkDistinct(s: seq<Item>)
    requires DeltaOk(s)
    ensures NoRepeats(s)
  {
  }

  lemma SurvivorWasThere(s: seq<Item>, p: int)
    requires DeltaOk(s) && Has(Tick(s).1, p)
    ensures Has(s, p)
  {
    if s != [] {
      var n := TickSplit(s);
      var i := IndexOf(Tick(s).1, p);
      assert Ticked(s)[n..][i] == Ticked(s)[n + i];
      HasAt(s, n + i);
    }
  }

  ghost function RunClock(c: Clock, events: seq<Event>): Clock
    requires OnTime(c) && forall i :: 0 <= i < |events| ==> events[i].Sleep? ==> 1 <= events[i].delay
    ensures OnTime(RunClock(c, events))
    decreases |events|
  {
    if |events| == 0 then c
    else
      NextOnTime(c, events[0]);
      RunClock(Next(c, events[0]), events[1..])
  }

  /** Whatever else joins or leaves: a process is woken on the tick its delay names, no other, and
      one still asleep is not yet due. */
  lemma WokenOnTime(events: seq<Event>)
    requires forall i :: 0 <= i < |events| ==> events[i].Sleep? ==> 1 <= events[i].delay
    ensures var start := Clock([], 0, map[], []);
            && OnTime(start)
            && (forall w :: w in RunClock(start, events).log ==> w.at == w.due)
            && (forall p :: Has(RunClock(start, events).s, p) ==>
                  p in RunClock(start, events).due && RunClock(start, events).due[p] > RunClock(start, events).now)
  {
    var start := Clock([], 0, map[], []);
    assert forall p :: !Has(start.s, p);
    var c := RunClock(start, events);
    forall p | Has(c.s, p) ensures p in c.due && c.due[p] > c.now {
      var i := IndexOf(c.s, p);
      SumMonotone(c.s, 1, i + 1);
      assert SumTo(c.s, 1) == SumTo(c.s, 0) + c.s[0].key;
    }
  }
}
