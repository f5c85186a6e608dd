/** Message nodes: one pool, linked into a free list and one list per port. */
module PortsNodes {
  import opened PortsModel

  const NULL: int := -1

  datatype Node = Node(ptmsg: int, ptnext: int)

  function First(s: seq<int>): int {
    if s == [] then NULL else s[0]
  }

  function Last(s: seq<int>): int {
    if s == [] then NULL else s[|s| - 1]
  }

  ghost predicate Within(nodes: seq<Node>, s: seq<int>) {
    forall i :: 0 <= i < |s| ==> 0 <= s[i] < |nodes|
  }

  predicate NextOk(nodes: seq<Node>, s: seq<int>, i: int)
    requires 0 <= i < |s|
  {
    0 <= s[i] < |nodes| && nodes[s[i]].ptnext == if i + 1 < |s| then s[i + 1] else NULL
  }

  /** The links from the first node of s on spell out s. */
  ghost predicate ListAt(nodes: seq<Node>, s: seq<int>) {
    Within(nodes, s) && Distinct(s) && forall i :: 0 <= i < |s| ==> NextOk(nodes, s, i)
  }

  ghost function Messages(nodes: seq<Node>, s: seq<int>): (m: seq<int>)
    requires Within(nodes, s)
    ensures |m| == |s|
  {
    seq(|s|, i requires 0 <= i < |s| => nodes[s[i]].ptmsg)
  }

  // The pool at a moment: the nodes, the free list, each port's list, and who has which node.
  datatype Pool = Pool(nodes: seq<Node>, free: seq<int>, chains: seq<seq<int>>, owner: seq<int>)

  /** Node i is on its owner's list: the free list for -1, otherwise that port's. */
  predicate OnList(l: Pool, i: int, o: int) {
    0 <= i < |l.owner| && l.owner[i] == o
  }

  /** Every node is on exactly one list. */
  ghost predicate PoolOk(l: Pool): (b: bool)
    ensures b ==> |l.owner| == |l.nodes| && Within(l.nodes, l.free)
    ensures b ==> forall p :: 0 <= p < |l.chains| ==> Within(l.nodes, l.chains[p])
  {
    && |l.owner| == |l.nodes|
    && ListAt(l.nodes, l.free) && (forall p :: 0 <= p < |l.chains| ==> ListAt(l.nodes, l.chains[p]))
    && (forall i :: i in l.free <==> OnList(l, i, -1))
    && (forall p, i :: 0 <= p < |l.chains| ==> (i in l.chains[p] <==> OnList(l, i, p)))
    && (forall i :: 0 <= i < |l.owner| ==> -1 <= l.owner[i] < |l.chains|)
  }

  ghost function MessagesOf(l: Pool, p: int): seq<int>
    requires 0 <= p < |l.chains| && Within(l.nodes, l.chains[p])
  {
    Messages(l.nodes, l.chains[p])
  }

  /** A list none of whose nodes was written is as it was. */
  lemma ListKept(nodes: seq<Node>, t: seq<Node>, s: seq<int>)
    requires ListAt(nodes, s) && |t| == |nodes| && forall i :: 0 <= i < |s| ==> t[s[i]] == nodes[s[i]]
    ensures Within(nodes, s) && ListAt(t, s) && Messages(t, s) == Messages(nodes, s)
  {
    forall i | 0 <= i < |s| ensures NextOk(t, s, i) {
      assert NextOk(nodes, s, i);
    }
  }

  lemma InBounds(nodes: seq<Node>, s: seq<int>)
    requires ListAt(nodes, s)
    ensures Within(nodes, s)
    ensures forall i :: i in s ==> 0 <= i < |nodes|
  {
    forall i | 0 <= i < |s| ensures 0 <= s[i] < |nodes| {
      assert NextOk(nodes, s, i);
    }
  }

  /** ptsend's relinking: the first free node goes, with its message, behind port p's last. */
  function Appended(l: Pool, p: int, msg: int): Pool
    requires l.free != [] && 0 <= l.free[0] < |l.nodes| == |l.owner| && 0 <= p < |l.chains|
    requires l.chains[p] != [] ==> 0 <= Last(l.chains[p]) < |l.nodes|
  {
    var f := l.free[0];
    var nodes := l.nodes[f := Node(msg, NULL)];
    var linked := if l.chains[p] == [] then nodes
                  else nodes[Last(l.chains[p]) := nodes[Last(l.chains[p])].(ptnext := f)];
    Pool(linked, l.free[1..], l.chains[p := l.chains[p] + [f]], l.owner[f := p])
  }

  lemma ListTail(nodes: seq<Node>, s: seq<int>)
    requires ListAt(nodes, s) && s != []
    ensures ListAt(nodes, s[1..]) && nodes[s[0]].ptnext == First(s[1..]) && s[0] !in s[1..]
    ensures Messages(nodes, s[1..]) == Messages(nodes, s)[1..] && Messages(nodes, s)[0] == nodes[s[0]].ptmsg
  {
    assert NextOk(nodes, s, 0);
    forall i | 0 <= i < |s| - 1 ensures NextOk(nodes, s[1..], i) {
      assert NextOk(nodes, s, i + 1);
    }
  }

  lemma ListAppend(nodes: seq<Node>, t: seq<Node>, s: seq<int>, f: int)
    requires ListAt(nodes, s) && f !in s && 0 <= f < |nodes| == |t| && t[f].ptnext == NULL
    requires forall i :: 0 <= i < |s| - 1 ==> t[s[i]] == nodes[s[i]]
    requires s != [] ==> 0 <= Last(s) < |nodes| && t[Last(s)] == nodes[Last(s)].(ptnext := f)
    ensures ListAt(t, s + [f]) && Messages(t, s + [f]) == Messages(nodes, s) + [t[f].ptmsg]
  {
    InBounds(nodes, s);
    forall i | 0 <= i <= |s| ensures NextOk(t, s + [f], i) {
      if i < |s| {
        assert NextOk(nodes, s, i);
      }
    }
    forall i | 0 <= i < |s| ensures t[s[i]].ptmsg == nodes[s[i]].ptmsg {
    }
  }

  /** A node's list is its owner's and no other. */
  lemma OneList(l: Pool, i: int, p: int, q: int)
    requires PoolOk(l) && 0 <= p < |l.chains| && 0 <= q < |l.chains|
    ensures i in l.chains[p] && i in l.chains[q] ==> p == q
    ensures i in l.free ==> i !in l.chains[p]
  {
    assert i in l.free <==> OnList(l, i, -1);
  }

  lemma AppendedOk(l: Pool, p: int, msg: int)
    requires PoolOk(l) && l.free != [] && 0 <= p < |l.chains|
    ensures 0 <= l.free[0] < |l.nodes| && (l.chains[p] != [] ==> 0 <= Last(l.chains[p]) < |l.nodes|)
    ensures PoolOk(Appended(l, p, msg)) && MessagesOf(Appended(l, p, msg), p) == MessagesOf(l, p) + [msg]
    ensures forall q :: 0 <= q < |l.chains| && q != p ==> MessagesOf(Appended(l, p, msg), q) == MessagesOf(l, q)
  {
    InBounds(l.nodes, l.free);
    InBounds(l.nodes, l.chains[p]);
    var f, t := l.free[0], Appended(l, p, msg);
    assert f in l.free;
    OneList(l, f, p, p);
    ListTail(l.nodes, l.free);
    ListAppend(l.nodes, t.nodes, l.chains[p], f);
    assert Last(l.chains[p]) != NULL ==> Last(l.chains[p]) in l.chains[p];
    OneList(l, Last(l.chains[p]), p, p);
    forall i | 0 <= i < |l.free[1..]| ensures t.nodes[l.free[1..][i]] == l.nodes[l.free[1..][i]] {
      assert l.free[1..][i] in l.free;
      OneList(l, l.free[1..][i], p, p);
    }
    ListKept(l.nodes, t.nodes, l.free[1..]);
    forall q | 0 <= q < |l.chains| && q != p
      ensures ListAt(t.nodes, l.chains[q]) && Messages(t.nodes, l.chains[q]) == Messages(l.nodes, l.chains[q])
    {
      InBounds(l.nodes, l.chains[q]);
      forall i | 0 <= i < |l.chains[q]| ensures t.nodes[l.chains[q][i]] == l.nodes[l.chains[q][i]] {
        OneList(l, l.chains[q][i], p, q);
        OneList(l, l.chains[q][i], q, p);
      }
      ListKept(l.nodes, t.nodes, l.chains[q]);
    }
    forall i ensures i in t.free <==> OnList(t, i, -1) {
      assert i in l.free <==> OnList(l, i, -1);
      assert i in l.free <==> i == f || i in l.free[1..];
    }
    forall q, i | 0 <= q < |l.chains| ensures i in t.chains[q] <==> OnList(t, i, q) {
      assert i in l.chains[q] <==> OnList(l, i, q);
      assert i in l.free <==> OnList(l, i, -1);
    }
  }

  /** ptrecv's relinking: port p's first node goes back to the front of the free list. */
  function Returned(l: Pool, p: int): Pool
    requires 0 <= p < |l.chains| && l.chains[p] != [] && 0 <= l.chains[p][0] < |l.nodes| == |l.owner|
  {
    var h := l.chains[p][0];
    Pool(l.nodes[h := l.nodes[h].(ptnext := First(l.free))], [h] + l.free, l.chains[p := l.chains[p][1..]], l.owner[h := -1])
  }

  /** A node linked in front of a list. */
  lemma ListPush(nodes: seq<Node>, t: seq<Node>, s: seq<int>, h: int)
    requires ListAt(nodes, s) && h !in s && 0 <= h < |nodes| == |t| && t[h].ptnext == First(s)
    requires forall i :: 0 <= i < |s| ==> t[s[i]] == nodes[s[i]]
    ensures ListAt(t, [h] + s)
  {
    var u := [h] + s;
    forall i | 0 <= i < |u| ensures NextOk(t, u, i) {
      if i > 0 {
        assert NextOk(nodes, s, i - 1);
      }
    }
  }

  lemma ReturnedOk(l: Pool, p: int)
    requires PoolOk(l) && 0 <= p < |l.chains| && l.chains[p] != []
    ensures 0 <= l.chains[p][0] < |l.nodes|
    ensures PoolOk(Returned(l, p)) && MessagesOf(Returned(l, p), p) == MessagesOf(l, p)[1..]
    ensures MessagesOf(l, p)[0] == l.nodes[l.chains[p][0]].ptmsg && l.nodes[l.chains[p][0]].ptnext == First(l.chains[p][1..])
    ensures forall q :: 0 <= q < |l.chains| && q != p ==> MessagesOf(Returned(l, p), q) == MessagesOf(l, q)
  {
    InBounds(l.nodes, l.free);
    InBounds(l.nodes, l.chains[p]);
    var h, t := l.chains[p][0], Returned(l, p);
    assert h in l.chains[p];
    OneList(l, h, p, p);
    ListTail(l.nodes, l.chains[p]);
    forall i | 0 <= i < |l.free| ensures t.nodes[l.free[i]] == l.nodes[l.free[i]] {
      OneList(l, l.free[i], p, p);
    }
    ListPush(l.nodes, t.nodes, l.free, h);
    forall i | 0 <= i < |l.chains[p][1..]| ensures t.nodes[l.chains[p][1..][i]] == l.nodes[l.chains[p][1..][i]] {
      assert l.chains[p][1..][i] in l.chains[p][1..];
    }
    ListKept(l.nodes, t.nodes, l.chains[p][1..]);
    forall q | 0 <= q < |l.chains| && q != p
      ensures ListAt(t.nodes, l.chains[q]) && Messages(t.nodes, l.chains[q]) == Messages(l.nodes, l.chains[q])
    {
      forall i | 0 <= i < |l.chains[q]| ensures t.nodes[l.chains[q][i]] == l.nodes[l.chains[q][i]] {
        assert l.chains[q][i] in l.chains[q];
        OneList(l, h, p, q);
      }
      ListKept(l.nodes, t.nodes, l.chains[q]);
    }
    forall i ensures i in t.free <==> OnList(t, i, -1) {
      assert i in l.free <==> OnList(l, i, -1);
    }
    forall q, i | 0 <= q < |l.chains| ensures i in t.chains[q] <==> OnList(t, i, q) {
      assert i in l.chains[q] <==> OnList(l, i, q);
      assert i in l.chains[p] <==> i == h || i in l.chains[p][1..];
    }
  }

  /** _ptclear's splice: port p's whole list goes in front of the free list. */
  ghost function Spliced(l: Pool, p: int): Pool
    requires 0 <= p < |l.chains| && (l.chains[p] != [] ==> 0 <= Last(l.chains[p]) < |l.nodes|)
  {
    var nodes := if l.chains[p] == [] then l.nodes
                 else l.nodes[Last(l.chains[p]) := l.nodes[Last(l.chains[p])].(ptnext := First(l.free))];
    Pool(nodes, l.chains[p] + l.free, l.chains[p := []],
         seq(|l.owner|, i requires 0 <= i < |l.owner| => if l.owner[i] == p then -1 else l.owner[i]))
  }

  lemma ListJoin(nodes: seq<Node>, t: seq<Node>, s: seq<int>, r: seq<int>)
    requires ListAt(nodes, s) && ListAt(nodes, r) && |t| == |nodes| && s != [] && forall x :: x in s ==> x !in r
    requires t == nodes[Last(s) := nodes[Last(s)].(ptnext := First(r))]
    ensures ListAt(t, s + r)
  {
    var u := s + r;
    forall i | 0 <= i < |u| ensures NextOk(t, u, i) {
      if i < |s| {
        assert NextOk(nodes, s, i);
      } else {
        assert NextOk(nodes, r, i - |s|);
        assert r[i - |s|] in r;
      }
    }
    forall i, j | 0 <= i < j < |u| ensures u[i] != u[j] {
      if i < |s| <= j {
        assert s[i] in s && r[j - |s|] in r;
      }
    }
  }

  lemma SplicedOk(l: Pool, p: int)
    requires PoolOk(l) && 0 <= p < |l.chains|
    ensures l.chains[p] != [] ==> 0 <= Last(l.chains[p]) < |l.nodes|
    ensures PoolOk(Spliced(l, p)) && MessagesOf(Spliced(l, p), p) == []
    ensures forall q :: 0 <= q < |l.chains| && q != p ==> MessagesOf(Spliced(l, p), q) == MessagesOf(l, q)
  {
    InBounds(l.nodes, l.chains[p]);
    var t := Spliced(l, p);
    var e := Last(l.chains[p]);
    if l.chains[p] != [] {
      assert e in l.chains[p];
      forall x | x in l.chains[p] ensures x !in l.free {
        OneList(l, x, p, p);
      }
      ListJoin(l.nodes, t.nodes, l.chains[p], l.free);
    } else {
      assert t.free == l.free;
    }
    forall q | 0 <= q < |l.chains| && q != p
      ensures ListAt(t.nodes, l.chains[q]) && Messages(t.nodes, l.chains[q]) == Messages(l.nodes, l.chains[q])
    {
      forall i | 0 <= i < |l.chains[q]| ensures t.nodes[l.chains[q][i]] == l.nodes[l.chains[q][i]] {
        assert l.chains[q][i] in l.chains[q];
        OneList(l, e, p, q);
      }
      ListKept(l.nodes, t.nodes, l.chains[q]);
    }
    forall i ensures i in t.free <==> OnList(t, i, -1) {
      assert i in l.free <==> OnList(l, i, -1);
      assert i in l.chains[p] <==> OnList(l, i, p);
    }
    forall q, i | 0 <= q < |l.chains| ensures i in t.chains[q] <==> OnList(t, i, q) {
      assert i in l.chains[q] <==> OnList(l, i, q);
    }
  }

  lemma FreshPool(l: Pool)
    requires |l.owner| == |l.nodes| == |l.free| && (forall i :: 0 <= i < |l.nodes| ==> l.owner[i] == -1 && l.free[i] == i)
    requires forall p :: 0 <= p < |l.chains| ==> l.chains[p] == []
    requires forall i :: 0 <= i < |l.nodes| ==> l.nodes[i].ptnext == if i + 1 < |l.nodes| then i + 1 else NULL
    ensures PoolOk(l)
  {
    forall i ensures i in l.free <==> OnList(l, i, -1) {
      assert 0 <= i < |l.free| ==> l.free[i] == i;
    }
  }

  /** A pool whose free pointer is not NULL has a first free node. */
  lemma FreeFront(l: Pool)
    requires PoolOk(l) && First(l.free) != NULL
    ensures l.free != [] && 0 <= First(l.free) < |l.nodes| && l.nodes[First(l.free)].ptnext == First(l.free[1..])
  {
    InBounds(l.nodes, l.free);
    ListTail(l.nodes, l.free);
  }

  /** The parts of the pool after an append, one assignment at a time. */
  lemma AppendedParts(l: Pool, p: int, msg: int)
    requires PoolOk(l) && l.free != [] && 0 <= p < |l.chains|
    ensures 0 <= l.free[0] < |l.nodes| && (l.chains[p] != [] ==> 0 <= Last(l.chains[p]) < |l.nodes|)
    ensures (Last(l.chains[p]) == NULL <==> l.chains[p] == []) && (First(l.chains[p]) == NULL <==> l.chains[p] == [])
    ensures var f, t := l.free[0], Appended(l, p, msg);
            var nodes := l.nodes[f := Node(msg, NULL)];
            && t.free == l.free[1..] && |t.chains| == |l.chains| && t.chains[p] == l.chains[p] + [f]
            && (forall q :: 0 <= q < |l.chains| && q != p ==> t.chains[q] == l.chains[q])
            && t.nodes == (if l.chains[p] == [] then nodes
                           else nodes[Last(l.chains[p]) := nodes[Last(l.chains[p])].(ptnext := f)])
  {
    InBounds(l.nodes, l.free);
    InBounds(l.nodes, l.chains[p]);
  }

  lemma ReturnedParts(l: Pool, p: int)
    requires PoolOk(l) && 0 <= p < |l.chains| && l.chains[p] != []
    ensures 0 <= l.chains[p][0] < |l.nodes|
    ensures First(l.chains[p]) == Last(l.chains[p]) <==> l.chains[p][1..] == []
    ensures l.chains[p][1..] != [] ==> Last(l.chains[p][1..]) == Last(l.chains[p])
    ensures var t := Returned(l, p);
            && t.free == [l.chains[p][0]] + l.free && |t.chains| == |l.chains| && t.chains[p] == l.chains[p][1..]
            && (forall q :: 0 <= q < |l.chains| && q != p ==> t.chains[q] == l.chains[q])
  {
    InBounds(l.nodes, l.chains[p]);
    assert ListAt(l.nodes, l.chains[p]);
  }

  lemma SplicedParts(l: Pool, p: int)
    requires PoolOk(l) && 0 <= p < |l.chains|
    ensures l.chains[p] != [] ==> 0 <= Last(l.chains[p]) < |l.nodes|
    ensures First(l.chains[p]) == NULL <==> l.chains[p] == []
    ensures var t := Spliced(l, p);
            && t.free == l.chains[p] + l.free && |t.chains| == |l.chains| && t.chains[p] == []
            && (forall q :: 0 <= q < |l.chains| && q != p ==> t.chains[q] == l.chains[q])
            && t.nodes == (if l.chains[p] == [] then l.nodes
                           else l.nodes[Last(l.chains[p]) := l.nodes[Last(l.chains[p])].(ptnext := First(l.free))])
  {
    InBounds(l.nodes, l.chains[p]);
  }
}
