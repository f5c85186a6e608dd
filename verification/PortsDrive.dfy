/** The routines of Ports.PortTable carry out exactly the steps the run theorems speak of, and a
    message node is free exactly when fewer messages are queued than there are nodes. */
module PortsDrive {
  import opened PortsModel
  import opened PortsSteps
  import opened PortsRun
  import opened PortsNodes
  import opened Ports

  // ---- counting nodes ----------------------------------------------------------

  function Elems(s: seq<int>): set<int> {
    set i | i in s
  }

  lemma {:induction false} DistinctSize(s: seq<int>)
    requires Distinct(s)
    ensures |Elems(s)| == |s|
  {
    if s != [] {
      DistinctSize(s[1..]);
      assert s == [s[0]] + s[1..];
      assert Elems(s) == Elems(s[1..]) + {s[0]};
    }
  }

  function TotalLength(lists: seq<seq<int>>): nat {
    if lists == [] then 0 else |lists[0]| + TotalLength(lists[1..])
  }

  function AllElems(lists: seq<seq<int>>): set<int> {
    if lists == [] then {} else Elems(lists[0]) + AllElems(lists[1..])
  }

  /** No element is in two of the lists, or twice in one. */
  ghost predicate Separate(lists: seq<seq<int>>) {
    && (forall p :: 0 <= p < |lists| ==> Distinct(lists[p]))
    && (forall p, q, i :: 0 <= p < q < |lists| && i in lists[p] ==> i !in lists[q])
  }

  lemma {:induction false} AllHas(lists: seq<seq<int>>, i: int)
    ensures i in AllElems(lists) <==> exists p :: 0 <= p < |lists| && i in lists[p]
  {
    if lists != [] {
      AllHas(lists[1..], i);
      if p :| 0 <= p < |lists| && i in lists[p] {
        assert p > 0 ==> i in lists[1..][p - 1];
      }
    }
  }

  lemma {:induction false} SeparateSize(lists: seq<seq<int>>)
    requires Separate(lists)
    ensures |AllElems(lists)| == TotalLength(lists)
  {
    if lists != [] {
      SeparateSize(lists[1..]);
      DistinctSize(lists[0]);
      forall i | i in Elems(lists[0]) ensures i !in AllElems(lists[1..]) {
        AllHas(lists[1..], i);
      }
      assert Elems(lists[0]) * AllElems(lists[1..]) == {};
    }
  }

  function Indices(n: nat): (r: set<int>)
    ensures |r| == n && forall i :: i in r <==> 0 <= i < n
  {
    if n == 0 then {} else Indices(n - 1) + {n - 1}
  }

  /** Conservation: the nodes on the free list and on the ports' lists are all the nodes. */
  lemma NodesConserved(l: Pool)
    requires PoolOk(l)
    ensures |l.free| + TotalLength(l.chains) == |l.nodes|
  {
    var lists := [l.free] + l.chains;
    assert lists[1..] == l.chains;
    forall p, q, i | 0 <= p < q < |lists| && i in lists[p] ensures i !in lists[q] {
      if p > 0 {
        assert OnList(l, i, p - 1);
      }
    }
    forall i ensures i in AllElems(lists) <==> 0 <= i < |l.nodes| {
      AllHas(lists, i);
      if 0 <= i < |l.nodes| {
        assert OnList(l, i, l.owner[i]);
        assert i in lists[l.owner[i] + 1];
      }
    }
    assert AllElems(lists) == Indices(|l.nodes|);
    SeparateSize(lists);
  }

  lemma {:induction false} QueuedLength(ports: seq<Port>, lists: seq<seq<int>>)
    requires |ports| == |lists| && forall p :: 0 <= p < |ports| ==> |ports[p].msgs| == |lists[p]|
    ensures Queued(ports) == TotalLength(lists)
  {
    if ports != [] {
      QueuedLength(ports[1..], lists[1..]);
    }
  }

  /** The code's test for a free node is the machine's. */
  lemma RoomIsFree(t: PortTable)
    requires t.Shape()
    ensures t.ptfree != NULL <==> Room(t.model, t.maxmsgs)
  {
    hide PoolOk;
    forall p | 0 <= p < |t.model.ports| ensures |t.model.ports[p].msgs| == |t.pool.chains[p]| {
      MessagesLength(t.pool, p);
    }
    QueuedLength(t.model.ports, t.pool.chains);
    NodesConserved(t.pool);
    FreeHead(t.pool);
  }

  lemma FreeHead(l: Pool)
    requires PoolOk(l)
    ensures First(l.free) == NULL <==> l.free == []
  {
  }

  // ---- steps -------------------------------------------------------------------

  /** A step as a caller asks for it: ptcreate chooses its port itself. */
  ghost predicate Asked(w: World, op: Act) {
    match op
    case Create(_, _) => true
    case Refused => false
    case _ => Enabled(w, op)
  }

  /** The step that a call turned out to be. */
  ghost predicate Chosen(w: World, op: Act, a: Act) {
    match op
    case Create(_, count) =>
      if count < 0 || forall p :: 0 <= p < |w.ports| ==> w.ports[p].state != PT_FREE then a == Refused
      else a.Create? && a.count == count
    case _ => a == op
  }

  /** One call of a routine of the table is one step of the machine. */
  method Step(t: PortTable, op: Act) returns (r: Reply, ghost a: Act)
    requires t.Valid() && Asked(t.model, op)
    modifies t
    ensures Chosen(old(t.model), op, a) && Enabled(old(t.model), a)
    ensures (t.model, r) == Do(old(t.model), a, t.maxmsgs)
    ensures r != Panic ==> t.Valid()
  {
    hide PoolOk, EntryFits, Inv, ClearedHeads;
    a := op;
    RoomIsFree(t);
    match op {
      case Send(x, p, m) => r := t.Ptsend(x, p, m);
      case Recv(x, p) => r := t.Ptrecv(x, p);
      case Run(x) => r := t.Run(x);
      case Reset(x, p) =>
        var disposed;
        r, disposed := t.Ptreset(x, p);
      case Delete(x, p) =>
        var disposed;
        r, disposed := t.Ptdelete(x, p);
      case ClearMore(x) =>
        t.PtclearNext(x);
        r := Blocked;
      case ClearLast(x) =>
        t.PtclearEnd(x);
        r := Ok;
      case Kill(x) =>
        t.Kill(x);
        r := Ok;
      case Create(_, count) =>
        var p := t.Ptcreate(count);
        r := if p == -1 then SysErr else Ok;
        a := if p == -1 then Refused else Act.Create(p, count);
    }
  }
}
