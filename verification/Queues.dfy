/** All process queues live in one table of doubly linked indices: an entry per process and two
    sentinel entries, head and tail, per queue. */
module Queues {
  datatype QEntry = QEntry(qkey: int, qnext: int, qprev: int)

  // One place in a queue.
  datatype Item = Item(pid: int, key: int)

  const EMPTY: int := -1
  const MAXKEY: int := 0x7FFF_FFFF
  const MINKEY: int := -0x8000_0000

  /** Position i along queue q: the head sentinel, then the processes, then the tail sentinel. */
  function Node(q: int, s: seq<Item>, i: int): int
    requires 0 <= i <= |s| + 1
  {
    if i == 0 then q else if i <= |s| then s[i - 1].pid else q + 1
  }

  predicate LinkAt(tab: seq<QEntry>, q: int, s: seq<Item>, i: int)
    requires 0 <= i <= |s|
  {
    var a, b := Node(q, s, i), Node(q, s, i + 1);
    0 <= a < |tab| && 0 <= b < |tab| && tab[a].qnext == b && tab[b].qprev == a
  }

  predicate KeyAt(tab: seq<QEntry>, it: Item) {
    0 <= it.pid < |tab| && tab[it.pid].qkey == it.key
  }

  /** The table spells out s between q's sentinels. */
  ghost predicate Chain(tab: seq<QEntry>, nproc: int, q: int, s: seq<Item>) {
    && 0 <= nproc <= q && q + 1 < |tab|
    && tab[q].qkey == MAXKEY && tab[q + 1].qkey == MINKEY
    && (forall i :: 0 <= i <= |s| ==> LinkAt(tab, q, s, i))
    && (forall i :: 0 <= i < |s| ==> KeyAt(tab, s[i]))
    && (forall i :: 0 <= i < |s| ==> 0 <= s[i].pid < nproc)
  }

  predicate Has(s: seq<Item>, pid: int) {
    exists i :: 0 <= i < |s| && s[i].pid == pid
  }

  ghost predicate NoRepeats(s: seq<Item>) {
    forall i, j :: 0 <= i < j < |s| ==> s[i].pid != s[j].pid
  }

  /** Every queue well linked, and no process in two places. */
  ghost predicate AllChains(tab: seq<QEntry>, nproc: int, lists: map<int, seq<Item>>) {
    && (forall q :: q in lists ==> Chain(tab, nproc, q, lists[q]))
    && (forall q :: q in lists ==> NoRepeats(lists[q]))
    && (forall q, r :: q in lists && r in lists && q != r ==> r != q + 1)
    && (forall q, r, p :: q in lists && r in lists && Has(lists[q], p) && Has(lists[r], p) ==> q == r)
  }

  ghost predicate Nowhere(lists: map<int, seq<Item>>, pid: int) {
    forall q :: q in lists ==> !Has(lists[q], pid)
  }

  // The three kinds of write.
  function Linkin(tab: seq<QEntry>, pid: int, key: int, prev: int, next: int): (t: seq<QEntry>)
    requires 0 <= pid < |tab| && 0 <= prev < |tab| && 0 <= next < |tab|
    ensures |t| == |tab|
  {
    var t1 := tab[pid := QEntry(key, next, prev)];
    var t2 := t1[prev := t1[prev].(qnext := pid)];
    t2[next := t2[next].(qprev := pid)]
  }

  function Unlink(tab: seq<QEntry>, prev: int, next: int): (t: seq<QEntry>)
    requires 0 <= prev < |tab| && 0 <= next < |tab|
    ensures |t| == |tab|
  {
    var t1 := tab[prev := tab[prev].(qnext := next)];
    t1[next := t1[next].(qprev := prev)]
  }

  function SetKey(tab: seq<QEntry>, pid: int, key: int): (t: seq<QEntry>)
    requires 0 <= pid < |tab|
    ensures |t| == |tab|
  {
    tab[pid := tab[pid].(qkey := key)]
  }

  function InsertedAt(s: seq<Item>, i: nat, it: Item): (t: seq<Item>)
    requires i <= |s|
    ensures |t| == |s| + 1
  {
    s[..i] + [it] + s[i..]
  }

  function RemovedAt(s: seq<Item>, i: nat): (t: seq<Item>)
    requires i < |s|
    ensures |t| == |s| - 1
  {
    s[..i] + s[i + 1..]
  }

  lemma NodesDiffer(tab: seq<QEntry>, nproc: int, q: int, s: seq<Item>, i: int, j: int)
    requires Chain(tab, nproc, q, s) && NoRepeats(s) && 0 <= i < j <= |s| + 1
    ensures Node(q, s, i) != Node(q, s, j)
  {
  }

  lemma HasAt(s: seq<Item>, i: int)
    requires 0 <= i < |s|
    ensures Has(s, s[i].pid)
  {
  }

  lemma LinkinNodes(q: int, s: seq<Item>, i: nat, it: Item, k: int)
    requires i <= |s| && 0 <= k <= |s| + 2
    ensures Node(q, InsertedAt(s, i, it), k) == if k <= i then Node(q, s, k) else if k == i + 1 then it.pid else Node(q, s, k - 1)
  {
  }

  lemma LinkinAt(tab: seq<QEntry>, nproc: int, q: int, s: seq<Item>, i: nat, it: Item, k: int)
    requires Chain(tab, nproc, q, s) && NoRepeats(s) && i <= |s| && 0 <= it.pid < nproc && !Has(s, it.pid)
    requires LinkAt(tab, q, s, i) && 0 <= k <= |s| + 1
    ensures LinkAt(Linkin(tab, it.pid, it.key, Node(q, s, i), Node(q, s, i + 1)), q, InsertedAt(s, i, it), k)
  {
    assert it.pid < |tab|;
    hide Chain, NoRepeats, InsertedAt, Node, Has;
    LinkinNodes(q, s, i, it, k);
    LinkinNodes(q, s, i, it, k + 1);
    NodeApart(tab, nproc, q, s, i, it.pid);
    NodeApart(tab, nproc, q, s, i + 1, it.pid);
    if k < i {
      ChainLink(tab, nproc, q, s, k);
      NodesDiffer(tab, nproc, q, s, k, i);
      NodesDiffer(tab, nproc, q, s, k + 1, i + 1);
      NodeApart(tab, nproc, q, s, k, it.pid);
      NodeApart(tab, nproc, q, s, k + 1, it.pid);
    } else if k > i + 1 {
      ChainLink(tab, nproc, q, s, k - 1);
      NodesDiffer(tab, nproc, q, s, i, k - 1);
      NodesDiffer(tab, nproc, q, s, i + 1, k);
      NodeApart(tab, nproc, q, s, k - 1, it.pid);
      NodeApart(tab, nproc, q, s, k, it.pid);
    } else {
      NodesDiffer(tab, nproc, q, s, i, i + 1);
    }
  }

  lemma ChainLink(tab: seq<QEntry>, nproc: int, q: int, s: seq<Item>, k: int)
    requires Chain(tab, nproc, q, s) && 0 <= k <= |s|
    ensures LinkAt(tab, q, s, k)
  {
  }

  lemma NodeApart(tab: seq<QEntry>, nproc: int, q: int, s: seq<Item>, k: int, pid: int)
    requires Chain(tab, nproc, q, s) && 0 <= k <= |s| + 1 && 0 <= pid < nproc && !Has(s, pid)
    ensures Node(q, s, k) != pid
  {
    if 0 < k <= |s| {
      HasAt(s, k - 1);
    }
  }

  /** Linking a process in between two neighbours. */
  lemma LinkinChain(tab: seq<QEntry>, nproc: int, q: int, s: seq<Item>, i: nat, it: Item)
    requires Chain(tab, nproc, q, s) && NoRepeats(s) && i <= |s| && 0 <= it.pid < nproc && !Has(s, it.pid)
    ensures LinkAt(tab, q, s, i)
    ensures var t := Linkin(tab, it.pid, it.key, Node(q, s, i), Node(q, s, i + 1));
            Chain(t, nproc, q, InsertedAt(s, i, it)) && NoRepeats(InsertedAt(s, i, it))
  {
    assert LinkAt(tab, q, s, i);
    var t, u := Linkin(tab, it.pid, it.key, Node(q, s, i), Node(q, s, i + 1)), InsertedAt(s, i, it);
    assert forall k :: 0 <= k < |u| ==> u[k] == if k < i then s[k] else if k == i then it else s[k - 1];
    forall k | 0 <= k < |s| ensures s[k].pid != it.pid {
      HasAt(s, k);
    }
    hide Node, InsertedAt;
    forall k | 0 <= k <= |u| ensures LinkAt(t, q, u, k) {
      LinkinAt(tab, nproc, q, s, i, it, k);
    }
    forall k | 0 <= k < |u| ensures KeyAt(t, u[k]) {
      if k != i {
        assert KeyAt(tab, s[if k < i then k else k - 1]);
      }
    }
  }

  /** Other queues do not notice. */
  lemma LinkinFrame(tab: seq<QEntry>, nproc: int, q: int, s: seq<Item>, i: nat, it: Item, r: int, o: seq<Item>)
    requires Chain(tab, nproc, q, s) && i <= |s| && 0 <= it.pid < nproc
    requires Chain(tab, nproc, r, o) && !Has(o, it.pid) && r != q && r != q + 1 && q != r + 1
    requires forall p :: Has(s, p) ==> !Has(o, p)
    ensures LinkAt(tab, q, s, i)
    ensures Chain(Linkin(tab, it.pid, it.key, Node(q, s, i), Node(q, s, i + 1)), nproc, r, o)
  {
    assert LinkAt(tab, q, s, i);
    var prev, next := Node(q, s, i), Node(q, s, i + 1);
    var t := Linkin(tab, it.pid, it.key, prev, next);
    assert prev != q ==> Has(s, prev) by { if i > 0 { HasAt(s, i - 1); } }
    assert next != q + 1 ==> Has(s, next) by { if i < |s| { HasAt(s, i); } }
    OthersKept(tab, t, nproc, r, o, {it.pid, prev, next});
  }

  /** A queue none of whose entries was written is as it was. */
  lemma OthersKept(tab: seq<QEntry>, t: seq<QEntry>, nproc: int, r: int, o: seq<Item>, written: set<int>)
    requires Chain(tab, nproc, r, o) && |t| == |tab|
    requires forall a :: 0 <= a < |tab| && a !in written ==> t[a] == tab[a]
    requires r !in written && r + 1 !in written && forall p :: p in written ==> !Has(o, p)
    ensures Chain(t, nproc, r, o)
  {
    forall k | 0 <= k <= |o| ensures LinkAt(t, r, o, k) {
      assert LinkAt(tab, r, o, k);
      if 0 < k { HasAt(o, k - 1); }
      if k < |o| { HasAt(o, k); }
    }
    forall k | 0 <= k < |o| ensures KeyAt(t, o[k]) {
      assert KeyAt(tab, o[k]);
      HasAt(o, k);
    }
  }

  lemma UnlinkNodes(q: int, s: seq<Item>, i: nat, k: int)
    requires i < |s| && 0 <= k <= |s|
    ensures Node(q, RemovedAt(s, i), k) == Node(q, s, if k <= i then k else k + 1)
  {
  }

  lemma UnlinkAt(tab: seq<QEntry>, nproc: int, q: int, s: seq<Item>, i: nat, k: int)
    requires Chain(tab, nproc, q, s) && NoRepeats(s) && i < |s| && 0 <= k < |s|
    requires LinkAt(tab, q, s, i) && LinkAt(tab, q, s, i + 1)
    ensures LinkAt(Unlink(tab, Node(q, s, i), Node(q, s, i + 2)), q, RemovedAt(s, i), k)
  {
    hide Chain, NoRepeats, RemovedAt, Node;
    UnlinkNodes(q, s, i, k);
    UnlinkNodes(q, s, i, k + 1);
    NodesDiffer(tab, nproc, q, s, i, i + 2);
    if k < i {
      ChainLink(tab, nproc, q, s, k);
      NodesDiffer(tab, nproc, q, s, k, i);
      NodesDiffer(tab, nproc, q, s, k + 1, i + 2);
    } else if k > i {
      ChainLink(tab, nproc, q, s, k + 1);
      NodesDiffer(tab, nproc, q, s, i, k + 1);
      NodesDiffer(tab, nproc, q, s, i + 2, k + 2);
    }
  }

  /** Unlinking the process at position i. */
  lemma UnlinkChain(tab: seq<QEntry>, nproc: int, q: int, s: seq<Item>, i: nat)
    requires Chain(tab, nproc, q, s) && NoRepeats(s) && i < |s|
    ensures LinkAt(tab, q, s, i) && LinkAt(tab, q, s, i + 1)
    ensures Chain(Unlink(tab, Node(q, s, i), Node(q, s, i + 2)), nproc, q, RemovedAt(s, i))
    ensures NoRepeats(RemovedAt(s, i)) && !Has(RemovedAt(s, i), s[i].pid)
  {
    assert LinkAt(tab, q, s, i) && LinkAt(tab, q, s, i + 1);
    var t, u := Unlink(tab, Node(q, s, i), Node(q, s, i + 2)), RemovedAt(s, i);
    assert forall k :: 0 <= k < |u| ==> u[k] == s[if k < i then k else k + 1];
    hide Node, RemovedAt;
    forall k | 0 <= k <= |u| ensures LinkAt(t, q, u, k) {
      UnlinkAt(tab, nproc, q, s, i, k);
    }
    forall k | 0 <= k < |u| ensures KeyAt(t, u[k]) {
      assert KeyAt(tab, s[if k < i then k else k + 1]);
    }
  }

  lemma UnlinkFrame(tab: seq<QEntry>, nproc: int, q: int, s: seq<Item>, i: nat, r: int, o: seq<Item>)
    requires Chain(tab, nproc, q, s) && i < |s|
    requires Chain(tab, nproc, r, o) && r != q && r != q + 1 && q != r + 1
    requires forall p :: Has(s, p) ==> !Has(o, p)
    ensures LinkAt(tab, q, s, i) && LinkAt(tab, q, s, i + 1)
    ensures Chain(Unlink(tab, Node(q, s, i), Node(q, s, i + 2)), nproc, r, o)
  {
    assert LinkAt(tab, q, s, i) && LinkAt(tab, q, s, i + 1);
    var prev, next := Node(q, s, i), Node(q, s, i + 2);
    assert prev != q ==> Has(s, prev) by { if i > 0 { HasAt(s, i - 1); } }
    assert next != q + 1 ==> Has(s, next) by { if i + 1 < |s| { HasAt(s, i + 1); } }
    OthersKept(tab, Unlink(tab, prev, next), nproc, r, o, {prev, next});
  }

  lemma SetKeyChain(tab: seq<QEntry>, nproc: int, q: int, s: seq<Item>, i: nat, key: int)
    requires Chain(tab, nproc, q, s) && NoRepeats(s) && i < |s|
    ensures Chain(SetKey(tab, s[i].pid, key), nproc, q, s[i := Item(s[i].pid, key)])
    ensures NoRepeats(s[i := Item(s[i].pid, key)])
  {
    var t, u := SetKey(tab, s[i].pid, key), s[i := Item(s[i].pid, key)];
    forall k | 0 <= k <= |u| ensures LinkAt(t, q, u, k) {
      assert LinkAt(tab, q, s, k);
      assert Node(q, u, k) == Node(q, s, k) && Node(q, u, k + 1) == Node(q, s, k + 1);
    }
    forall k | 0 <= k < |u| ensures KeyAt(t, u[k]) {
      assert KeyAt(tab, s[k]);
    }
  }

  /** insert: after every process whose key is at least the new one. */
  function KeyPlace(s: seq<Item>, key: int): (i: nat)
    ensures i <= |s|
    ensures i < |s| ==> s[i].key < key
    ensures forall k :: 0 <= k < i ==> s[k].key >= key
  {
    if |s| == 0 || s[0].key < key then 0 else 1 + KeyPlace(s[1..], key)
  }

  function InsertedByKey(s: seq<Item>, it: Item): seq<Item> {
    InsertedAt(s, KeyPlace(s, it.key), it)
  }

  /** insertd: the position and the delay left after the delays in front of it. */
  function DeltaPlace(s: seq<Item>, key: int): (r: (nat, int))
    ensures r.0 <= |s|
  {
    if |s| == 0 || s[0].key > key then (0, key)
    else
      var r := DeltaPlace(s[1..], key - s[0].key);
      (r.0 + 1, r.1)
  }

  /** A process joins a delta list: it keeps what is left of its delay, its successor gives that up. */
  function InsertedByDelay(s: seq<Item>, it: Item): seq<Item> {
    var r := DeltaPlace(s, it.key);
    var t := if r.0 < |s| then s[r.0 := Item(s[r.0].pid, s[r.0].key - r.1)] else s;
    InsertedAt(t, r.0, Item(it.pid, r.1))
  }

  /** A process leaves a delta list: its successor takes over its delay. */
  function RemovedFromDelay(s: seq<Item>, i: nat): seq<Item>
    requires i < |s|
  {
    var t := if i + 1 < |s| then s[i + 1 := Item(s[i + 1].pid, s[i + 1].key + s[i].key)] else s;
    RemovedAt(t, i)
  }

  /** Where a process stands in a queue. */
  function IndexOf(s: seq<Item>, pid: int): (i: nat)
    requires Has(s, pid)
    ensures i < |s| && s[i].pid == pid
  {
    if s[0].pid == pid then 0 else
      assert Has(s[1..], pid) by {
        var i :| 0 <= i < |s| && s[i].pid == pid;
        HasAt(s[1..], i - 1);
      }
      1 + IndexOf(s[1..], pid)
  }

  lemma AllChainsUpdated(tab: seq<QEntry>, t: seq<QEntry>, nproc: int, lists: map<int, seq<Item>>, q: int, s: seq<Item>)
    requires AllChains(tab, nproc, lists) && q in lists
    requires Chain(t, nproc, q, s) && NoRepeats(s)
    requires forall r :: r in lists && r != q ==> Chain(t, nproc, r, lists[r])
    requires forall r, p :: r in lists && r != q && Has(s, p) ==> !Has(lists[r], p)
    ensures AllChains(t, nproc, lists[q := s])
  {
    hide Chain, NoRepeats, Has;
  }

  lemma Apart(tab: seq<QEntry>, nproc: int, lists: map<int, seq<Item>>, q: int, r: int)
    requires AllChains(tab, nproc, lists) && q in lists && r in lists && q != r
    ensures Chain(tab, nproc, q, lists[q]) && Chain(tab, nproc, r, lists[r]) && NoRepeats(lists[q])
    ensures r != q + 1 && q != r + 1
    ensures forall p :: Has(lists[q], p) ==> !Has(lists[r], p)
  {
    hide Chain, NoRepeats, Has;
  }

  lemma InsertedHas(s: seq<Item>, i: nat, it: Item, p: int)
    requires i <= |s|
    ensures Has(InsertedAt(s, i, it), p) <==> Has(s, p) || p == it.pid
  {
    var u := InsertedAt(s, i, it);
    if Has(s, p) {
      var k :| 0 <= k < |s| && s[k].pid == p;
      assert u[if k < i then k else k + 1] == s[k];
      HasAt(u, if k < i then k else k + 1);
    }
    if p == it.pid {
      HasAt(u, i);
    }
    if Has(u, p) && p != it.pid {
      var k :| 0 <= k < |u| && u[k].pid == p;
      assert u[k] == if k < i then s[k] else if k == i then it else s[k - 1];
      HasAt(s, if k < i then k else k - 1);
    }
  }

  lemma RemovedItems(s: seq<Item>, i: nat)
    requires i < |s|
    ensures forall k :: 0 <= k < |RemovedAt(s, i)| ==> RemovedAt(s, i)[k] == s[if k < i then k else k + 1]
    ensures forall k :: 0 <= k < i ==> s[k] == RemovedAt(s, i)[k]
    ensures forall k :: i < k < |s| ==> s[k] == RemovedAt(s, i)[k - 1]
  {
  }

  lemma RemovedHas(s: seq<Item>, i: nat, p: int)
    requires NoRepeats(s) && i < |s|
    ensures Has(RemovedAt(s, i), p) <==> Has(s, p) && p != s[i].pid
  {
    hide RemovedAt;
    var u := RemovedAt(s, i);
    RemovedItems(s, i);
    if Has(s, p) && p != s[i].pid {
      var k :| 0 <= k < |s| && s[k].pid == p;
      HasAt(u, if k < i then k else k - 1);
    }
    if Has(u, p) {
      var k :| 0 <= k < |u| && u[k].pid == p;
      HasAt(s, if k < i then k else k + 1);
    }
  }

  lemma RekeyedHas(s: seq<Item>, i: nat, key: int, p: int)
    requires i < |s|
    ensures Has(s[i := Item(s[i].pid, key)], p) <==> Has(s, p)
  {
    var u := s[i := Item(s[i].pid, key)];
    if Has(s, p) {
      var k :| 0 <= k < |s| && s[k].pid == p;
      HasAt(u, k);
    }
    if Has(u, p) {
      var k :| 0 <= k < |u| && u[k].pid == p;
      HasAt(s, k);
    }
  }

  /** A process on no queue joins one. */
  lemma LinkinAll(tab: seq<QEntry>, nproc: int, lists: map<int, seq<Item>>, q: int, i: nat, it: Item)
    requires AllChains(tab, nproc, lists) && q in lists && i <= |lists[q]| && 0 <= it.pid < nproc && Nowhere(lists, it.pid)
    ensures LinkAt(tab, q, lists[q], i) && it.pid < |tab|
    ensures AllChains(Linkin(tab, it.pid, it.key, Node(q, lists[q], i), Node(q, lists[q], i + 1)), nproc,
                      lists[q := InsertedAt(lists[q], i, it)])
  {
    hide Chain, NoRepeats, Has, Linkin, InsertedAt;
    assert it.pid < |tab| by { ChainBounds(tab, nproc, q, lists[q]); }
    LinkinChain(tab, nproc, q, lists[q], i, it);
    var t := Linkin(tab, it.pid, it.key, Node(q, lists[q], i), Node(q, lists[q], i + 1));
    forall r | r in lists && r != q ensures Chain(t, nproc, r, lists[r]) {
      Apart(tab, nproc, lists, q, r);
      LinkinFrame(tab, nproc, q, lists[q], i, it, r, lists[r]);
    }
    forall r, p | r in lists && r != q && Has(InsertedAt(lists[q], i, it), p) ensures !Has(lists[r], p) {
      InsertedHas(lists[q], i, it, p);
    }
    AllChainsUpdated(tab, t, nproc, lists, q, InsertedAt(lists[q], i, it));
  }

  lemma ChainBounds(tab: seq<QEntry>, nproc: int, q: int, s: seq<Item>)
    requires Chain(tab, nproc, q, s)
    ensures 0 <= nproc <= q && q + 1 < |tab|
  {
  }

  lemma UnlinkAll(tab: seq<QEntry>, nproc: int, lists: map<int, seq<Item>>, q: int, i: nat)
    requires AllChains(tab, nproc, lists) && q in lists && i < |lists[q]|
    ensures LinkAt(tab, q, lists[q], i) && LinkAt(tab, q, lists[q], i + 1)
    ensures AllChains(Unlink(tab, Node(q, lists[q], i), Node(q, lists[q], i + 2)), nproc,
                      lists[q := RemovedAt(lists[q], i)])
    ensures Nowhere(lists[q := RemovedAt(lists[q], i)], lists[q][i].pid)
  {
    hide Chain, NoRepeats, Has, Unlink, RemovedAt;
    UnlinkChain(tab, nproc, q, lists[q], i);
    var t := Unlink(tab, Node(q, lists[q], i), Node(q, lists[q], i + 2));
    forall r | r in lists && r != q ensures Chain(t, nproc, r, lists[r]) {
      Apart(tab, nproc, lists, q, r);
      UnlinkFrame(tab, nproc, q, lists[q], i, r, lists[r]);
    }
    HasAt(lists[q], i);
    forall r, p | r in lists && r != q && Has(RemovedAt(lists[q], i), p) ensures !Has(lists[r], p) {
      RemovedHas(lists[q], i, p);
    }
    AllChainsUpdated(tab, t, nproc, lists, q, RemovedAt(lists[q], i));
  }

  lemma SetKeyAll(tab: seq<QEntry>, nproc: int, lists: map<int, seq<Item>>, q: int, i: nat, key: int)
    requires AllChains(tab, nproc, lists) && q in lists && i < |lists[q]|
    ensures 0 <= lists[q][i].pid < |tab|
    ensures AllChains(SetKey(tab, lists[q][i].pid, key), nproc, lists[q := lists[q][i := Item(lists[q][i].pid, key)]])
  {
    assert KeyAt(tab, lists[q][i]);
    hide Chain, NoRepeats, Has;
    SetKeyChain(tab, nproc, q, lists[q], i, key);
    var t, u := SetKey(tab, lists[q][i].pid, key), lists[q][i := Item(lists[q][i].pid, key)];
    HasAt(lists[q], i);
    forall r | r in lists && r != q ensures Chain(t, nproc, r, lists[r]) {
      Apart(tab, nproc, lists, q, r);
      SetKeyFrame(tab, nproc, q, lists[q], i, key, r, lists[r]);
    }
    forall r, p | r in lists && r != q && Has(u, p) ensures !Has(lists[r], p) {
      RekeyedHas(lists[q], i, key, p);
    }
    AllChainsUpdated(tab, t, nproc, lists, q, u);
  }

  lemma SetKeyFrame(tab: seq<QEntry>, nproc: int, q: int, s: seq<Item>, i: nat, key: int, r: int, o: seq<Item>)
    requires Chain(tab, nproc, q, s) && i < |s| && Chain(tab, nproc, r, o) && !Has(o, s[i].pid)
    ensures 0 <= s[i].pid < |tab| && Chain(SetKey(tab, s[i].pid, key), nproc, r, o)
  {
    assert KeyAt(tab, s[i]);
    OthersKept(tab, SetKey(tab, s[i].pid, key), nproc, r, o, {s[i].pid});
  }

  /** What the macros firstid, firstkey and isempty, and a process's own entry, read. */
  lemma Read(tab: seq<QEntry>, nproc: int, lists: map<int, seq<Item>>, q: int)
    requires AllChains(tab, nproc, lists) && q in lists
    ensures 0 <= nproc <= q && q + 1 < |tab| && tab[q].qkey == MAXKEY && tab[q + 1].qkey == MINKEY
    ensures var s := lists[q];
            && tab[q].qnext == Node(q, s, 1) && tab[q + 1].qprev == Node(q, s, |s|)
            && (tab[q].qnext >= nproc <==> s == [])
            && (s != [] ==> 0 <= s[0].pid < nproc && tab[s[0].pid].qkey == s[0].key)
  {
    var s := lists[q];
    assert LinkAt(tab, q, s, 0) && LinkAt(tab, q, s, |s|);
    if s != [] {
      assert KeyAt(tab, s[0]);
    }
  }

  lemma ReadItem(tab: seq<QEntry>, nproc: int, lists: map<int, seq<Item>>, q: int, i: nat)
    requires AllChains(tab, nproc, lists) && q in lists && i < |lists[q]|
    ensures var s := lists[q];
            && 0 <= s[i].pid < nproc <= q < |tab| && tab[s[i].pid].qkey == s[i].key
            && tab[s[i].pid].qprev == Node(q, s, i) && tab[s[i].pid].qnext == Node(q, s, i + 2)
  {
    assert KeyAt(tab, lists[q][i]);
    assert LinkAt(tab, q, lists[q], i) && LinkAt(tab, q, lists[q], i + 1);
  }

  /** An entry on no queue may hold anything. */
  lemma StrayWrite(tab: seq<QEntry>, nproc: int, lists: map<int, seq<Item>>, pid: int, e: QEntry)
    requires AllChains(tab, nproc, lists) && Nowhere(lists, pid) && 0 <= pid < nproc && pid < |tab|
    ensures AllChains(tab[pid := e], nproc, lists)
  {
    hide NoRepeats, Has;
    forall q | q in lists ensures Chain(tab[pid := e], nproc, q, lists[q]) {
      OthersKept(tab, tab[pid := e], nproc, q, lists[q], {pid});
    }
  }

  /** A fresh pair of sentinels is an empty queue. */
  lemma NewChain(tab: seq<QEntry>, t: seq<QEntry>, nproc: int, lists: map<int, seq<Item>>, q: int)
    requires AllChains(tab, nproc, lists) && 0 <= nproc <= q && q + 1 < |tab| == |t|
    requires forall r :: r in lists ==> r + 1 < q
    requires forall a :: 0 <= a < |tab| && a != q && a != q + 1 ==> t[a] == tab[a]
    requires t[q] == QEntry(MAXKEY, q + 1, EMPTY) && t[q + 1] == QEntry(MINKEY, EMPTY, q)
    ensures AllChains(t, nproc, lists[q := []])
  {
    forall r | r in lists ensures Chain(t, nproc, r, lists[r]) {
      assert Chain(tab, nproc, r, lists[r]);
      forall p | Has(lists[r], p) ensures p < nproc {
      }
      OthersKept(tab, t, nproc, r, lists[r], {q, q + 1});
    }
    assert LinkAt(t, q, [], 0);
    assert forall p :: !Has([], p);
  }

  class Queuetab {
    const nproc: int
    const nqent: int
    var tab: seq<QEntry>
    // newqueue's static index.
    var nextqid: int
    // What each queue holds, by its head's index.
    ghost var lists: map<int, seq<Item>>

    ghost predicate Valid()
      reads this
    {
      && |tab| == nqent && 0 < nproc <= nqent && nproc <= nextqid && AllChains(tab, nproc, lists)
      && (nqent - nproc) % 2 == 0 && (nextqid - nproc) % 2 == 0
      && (forall q :: q in lists <==> nproc <= q < nextqid && (q - nproc) % 2 == 0)
    }

    constructor (nproc: int, nqent: int)
      requires 0 < nproc <= nqent && (nqent - nproc) % 2 == 0
      ensures Valid() && this.nproc == nproc && this.nqent == nqent && lists == map[] && nextqid == nproc
    {
      this.nproc := nproc;
      this.nqent := nqent;
      tab := seq(nqent, i => QEntry(0, 0, 0));
      nextqid := nproc;
      lists := map[];
    }

    predicate IsBadQid(q: int) {
      q < nproc || q >= nqent - 1
    }

    function FirstId(q: int): int
      requires 0 <= q < |tab|
      reads this
    {
      tab[q].qnext
    }

    /** Allocates the next queue, empty, while the table has room. */
    method Newqueue() returns (q: int)
      requires Valid()
      modifies this
      ensures Valid()
      ensures old(nextqid) >= nqent ==> q == -1 && lists == old(lists)
      ensures old(nextqid) < nqent ==> q == old(nextqid) && q !in old(lists) && lists == old(lists)[q := []]
      ensures old(nextqid) < nqent ==> nextqid == old(nextqid) + 2
    {
      q := nextqid;
      if q >= nqent {
        return -1;
      }
      nextqid := nextqid + 2;
      ghost var was := tab;
      tab := tab[q := QEntry(MAXKEY, q + 1, EMPTY)];
      tab := tab[q + 1 := QEntry(MINKEY, EMPTY, q)];
      NewChain(was, tab, nproc, lists, q);
      lists := lists[q := []];
    }

    /** Adds a process at the tail. */
    method Enqueue(pid: int, live: bool, q: int) returns (r: int)
      requires Valid() && (IsBadQid(q) || q in lists) && (0 <= pid < nproc && live ==> Nowhere(lists, pid))
      modifies this
      ensures Valid() && nextqid == old(nextqid) && (q in old(lists) ==> !IsBadQid(q))
      ensures r == if !IsBadQid(q) && 0 <= pid < nproc && live then pid else -1
      ensures lists == if r == -1 then old(lists) else old(lists)[q := old(lists)[q] + [Item(pid, old(tab)[pid].qkey)]]
    {
      hide AllChains, Nowhere, Linkin;
      if q in lists {
        Read(tab, nproc, lists, q);
      }
      if IsBadQid(q) || pid < 0 || pid >= nproc || !live {
        return -1;
      }
      var tail := q + 1;
      var prev := tab[tail].qprev;
      ghost var s := lists[q];
      LinkinAll(tab, nproc, lists, q, |s|, Item(pid, tab[pid].qkey));
      assert LinkAt(tab, q, s, |s|);
      assert InsertedAt(s, |s|, Item(pid, tab[pid].qkey)) == s + [Item(pid, tab[pid].qkey)];
      tab := Linkin(tab, pid, tab[pid].qkey, prev, tail);
      lists := lists[q := s + [Item(pid, old(tab)[pid].qkey)]];
      return pid;
    }

    /** Unlinks a process wherever it stands in its queue. */
    method Getitem(pid: int, ghost q: int) returns (r: int)
      requires Valid() && q in lists && Has(lists[q], pid)
      modifies this
      ensures Valid() && nextqid == old(nextqid) && r == pid
      ensures lists == old(lists)[q := RemovedAt(old(lists)[q], IndexOf(old(lists)[q], pid))]
      ensures Nowhere(lists, pid)
    {
      hide AllChains, Nowhere, Unlink, Has;
      ghost var i := IndexOf(lists[q], pid);
      ReadItem(tab, nproc, lists, q, i);
      UnlinkAll(tab, nproc, lists, q, i);
      var next := tab[pid].qnext;
      var prev := tab[pid].qprev;
      tab := Unlink(tab, prev, next);
      lists := lists[q := RemovedAt(lists[q], i)];
      return pid;
    }

    /** Removes the process at the head, if there is one. */
    method Getfirst(q: int) returns (r: int)
      requires Valid() && q in lists
      modifies this
      ensures Valid() && nextqid == old(nextqid)
      ensures old(lists)[q] == [] ==> r == EMPTY && lists == old(lists)
      ensures old(lists)[q] != [] ==> r == old(lists)[q][0].pid && 0 <= r < nproc
      ensures old(lists)[q] != [] ==> lists == old(lists)[q := old(lists)[q][1..]] && Nowhere(lists, r)
    {
      hide AllChains, Nowhere, Unlink, Has;
      Read(tab, nproc, lists, q);
      if FirstId(q) >= nproc {
        return EMPTY;
      }
      ghost var s := lists[q];
      HasAt(s, 0);
      FirstIndex(s);
      assert RemovedAt(s, 0) == s[1..];
      r := Getitem(tab[q].qnext, q);
    }

    method Dequeue(q: int) returns (r: int)
      requires Valid() && (IsBadQid(q) || q in lists)
      modifies this
      ensures Valid() && nextqid == old(nextqid) && (q in old(lists) ==> !IsBadQid(q))
      ensures IsBadQid(q) ==> r == -1 && lists == old(lists)
      ensures !IsBadQid(q) && old(lists)[q] == [] ==> r == EMPTY && lists == old(lists)
      ensures !IsBadQid(q) && old(lists)[q] != [] ==> r == old(lists)[q][0].pid && 0 <= r < nproc
      ensures !IsBadQid(q) && old(lists)[q] != [] ==> lists == old(lists)[q := old(lists)[q][1..]] && Nowhere(lists, r)
    {
      hide AllChains, Nowhere;
      if q in lists {
        Read(tab, nproc, lists, q);
      }
      if IsBadQid(q) {
        return -1;
      } else if FirstId(q) >= nproc {
        return EMPTY;
      }
      r := Getfirst(q);
      StrayWrite(tab, nproc, lists, r, tab[r].(qprev := EMPTY));
      tab := tab[r := tab[r].(qprev := EMPTY)];
      StrayWrite(tab, nproc, lists, r, tab[r].(qnext := EMPTY));
      tab := tab[r := tab[r].(qnext := EMPTY)];
    }

    /** Inserts in descending key order, behind equal keys. */
    method Insert(pid: int, live: bool, q: int, key: int) returns (ok: bool)
      requires Valid() && (IsBadQid(q) || q in lists) && (0 <= pid < nproc && live ==> Nowhere(lists, pid)) && MINKEY < key
      modifies this
      ensures Valid() && nextqid == old(nextqid) && (q in old(lists) ==> !IsBadQid(q))
      ensures ok <==> !IsBadQid(q) && 0 <= pid < nproc && live
      ensures lists == if ok then old(lists)[q := InsertedByKey(old(lists)[q], Item(pid, key))] else old(lists)
    {
      hide AllChains, Nowhere, Linkin;
      if q in lists {
        Read(tab, nproc, lists, q);
      }
      if IsBadQid(q) || pid < 0 || pid >= nproc || !live {
        return false;
      }
      ghost var s, i: nat := lists[q], 0;
      var curr := FirstId(q);
      while tab[curr].qkey >= key
        invariant unchanged(this) && i <= |s| && curr == Node(q, s, i + 1) && 0 <= curr < |tab|
        invariant i <= KeyPlace(s, key)
        decreases |s| - i
      {
        KeyPlaceAt(s, key, i);
        ReadItem(tab, nproc, lists, q, i) by { assert i < |s|; }
        curr := tab[curr].qnext;
        i := i + 1;
        if i < |s| { ReadItem(tab, nproc, lists, q, i); }
      }
      if i < |s| { ReadItem(tab, nproc, lists, q, i); }
      assert i == KeyPlace(s, key);
      LinkinAll(tab, nproc, lists, q, i, Item(pid, key));
      assert LinkAt(tab, q, s, i);
      var prev := tab[curr].qprev;
      tab := Linkin(tab, pid, key, prev, curr);
      lists := lists[q := InsertedByKey(s, Item(pid, key))];
      return true;
    }

    /** Changes a queued process's key in place. */
    method AddToKey(pid: int, d: int, ghost q: int)
      requires Valid() && q in lists && Has(lists[q], pid)
      modifies this
      ensures Valid() && nextqid == old(nextqid)
      ensures var s, i := old(lists)[q], IndexOf(old(lists)[q], pid);
              lists == old(lists)[q := s[i := Item(pid, s[i].key + d)]]
    {
      hide AllChains, Has;
      ghost var s, i := lists[q], IndexOf(lists[q], pid);
      ReadItem(tab, nproc, lists, q, i);
      SetKeyAll(tab, nproc, lists, q, i, tab[pid].qkey + d);
      tab := SetKey(tab, pid, tab[pid].qkey + d);
      lists := lists[q := s[i := Item(pid, s[i].key + d)]];
    }

    /** The relinking at the end of insertd: in front of next, which gives up the new key. */
    method LinkBefore(pid: int, q: int, ghost i: nat, key: int, prev: int, next: int)
      requires Valid() && q in lists && 0 <= pid < nproc && Nowhere(lists, pid) && i <= |lists[q]|
      requires prev == Node(q, lists[q], i) && next == Node(q, lists[q], i + 1)
      modifies this
      ensures Valid() && nextqid == old(nextqid)
      ensures var s, u := old(lists)[q], InsertedAt(old(lists)[q], i, Item(pid, key));
              lists == old(lists)[q := if i < |s| then u[i + 1 := Item(s[i].pid, s[i].key - key)] else u]
    {
      hide AllChains, Nowhere, Linkin, Has;
      ghost var s := lists[q];
      Read(tab, nproc, lists, q);
      if i < |s| { ReadItem(tab, nproc, lists, q, i); }
      LinkinAll(tab, nproc, lists, q, i, Item(pid, key));
      assert LinkAt(tab, q, s, i);
      tab := Linkin(tab, pid, key, prev, next);
      ghost var u := InsertedAt(s, i, Item(pid, key));
      lists := lists[q := u];
      if next != q + 1 {
        NextKey(s, i, Item(pid, key));
        ReadItem(tab, nproc, lists, q, i + 1);
        SetKeyAll(tab, nproc, lists, q, i + 1, tab[next].qkey - key);
        tab := SetKey(tab, next, tab[next].qkey - key);
        lists := lists[q := u[i + 1 := Item(s[i].pid, s[i].key - key)]];
      }
    }

    /** Inserts into a delta list. */
    method Insertd(pid: int, live: bool, q: int, delay: int) returns (ok: bool)
      requires Valid() && (IsBadQid(q) || q in lists) && (0 <= pid < nproc && live ==> Nowhere(lists, pid))
      modifies this
      ensures Valid() && nextqid == old(nextqid) && (q in old(lists) ==> !IsBadQid(q))
      ensures ok <==> !IsBadQid(q) && 0 <= pid < nproc && live
      ensures lists == if ok then old(lists)[q := InsertedByDelay(old(lists)[q], Item(pid, delay))] else old(lists)
    {
      hide AllChains, Nowhere, Linkin, Has, InsertedByDelay;
      if q in lists {
        Read(tab, nproc, lists, q);
      }
      if IsBadQid(q) || pid < 0 || pid >= nproc || !live {
        return false;
      }
      ghost var s, i: nat := lists[q], 0;
      var key := delay;
      var prev := q;
      var next := tab[q].qnext;
      assert s[0..] == s;
      while next != q + 1 && tab[next].qkey <= key
        invariant unchanged(this) && i <= |s| && prev == Node(q, s, i) && next == Node(q, s, i + 1)
        invariant 0 <= next < |tab| && (next != q + 1 <==> i < |s|)
        invariant i < |s| ==> tab[next].qkey == s[i].key
        invariant DeltaPlace(s, delay) == (i + DeltaPlace(s[i..], key).0, DeltaPlace(s[i..], key).1)
        decreases |s| - i
      {
        assert s[i..][1..] == s[i + 1..];
        ReadItem(tab, nproc, lists, q, i);
        key := key - tab[next].qkey;
        prev := next;
        next := tab[next].qnext;
        i := i + 1;
        if i < |s| { ReadItem(tab, nproc, lists, q, i); }
      }
      assert DeltaPlace(s, delay) == (i, key);
      LinkBefore(pid, q, i, key, prev, next);
      InsertedByDelayIs(s, pid, delay, i, key);
      return true;
    }
  }

  lemma NextKey(s: seq<Item>, i: nat, it: Item)
    requires i < |s|
    ensures InsertedAt(s, i, it)[i + 1] == s[i]
  {
  }

  lemma InsertedByDelayIs(s: seq<Item>, pid: int, delay: int, i: nat, key: int)
    requires DeltaPlace(s, delay) == (i, key)
    ensures i <= |s|
    ensures InsertedByDelay(s, Item(pid, delay)) ==
            if i < |s| then InsertedAt(s, i, Item(pid, key))[i + 1 := Item(s[i].pid, s[i].key - key)]
            else InsertedAt(s, i, Item(pid, key))
  {
    hide DeltaPlace;
    if i < |s| {
      var it := Item(s[i].pid, s[i].key - key);
      assert s[i := it][..i] == s[..i] && s[i := it][i..] == [it] + s[i + 1..];
      assert s[i..] == [s[i]] + s[i + 1..];
      var l, r := InsertedByDelay(s, Item(pid, delay)), InsertedAt(s, i, Item(pid, key))[i + 1 := it];
      assert l == s[..i] + [Item(pid, key)] + ([it] + s[i + 1..]);
      assert |l| == |r|;
      forall k | 0 <= k < |l| ensures l[k] == r[k] {
      }
    }
  }

  lemma FirstIndex(s: seq<Item>)
    requires s != [] && Has(s, s[0].pid)
    ensures IndexOf(s, s[0].pid) == 0
  {
  }

  lemma KeyPlaceAt(s: seq<Item>, key: int, i: nat)
    requires i <= KeyPlace(s, key)
    ensures i < |s| && s[i].key >= key ==> i < KeyPlace(s, key)
    ensures i < |s| && s[i].key < key ==> i == KeyPlace(s, key)
  {
  }
}
