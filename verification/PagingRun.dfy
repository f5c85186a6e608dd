/** Paging is invisible: over any interleaving of reads and writes by many
    processes, a read returns what the process last wrote at that place. */
module PagingRun {
  import opened PagingModel
  import opened Paging

  datatype Op = Start(pid: int) | Load(k: Key, off: nat) | Store(k: Key, off: nat, b: byte) | Exit(pid: int)

  /** What an operation did: a process began or ended, a byte moved, or nothing
      happened because the process was not there (or was there already). */
  datatype Event =
    | Began(pid: int) | Loaded(k: Key, off: nat, b: byte) | Wrote(k: Key, off: nat, b: byte) | Ended(pid: int) | Ignored

  datatype Option<T> = None | Some(value: T)

  /** The byte that the page's process last wrote at an offset, if it ever did. */
  function LastWritten(trace: seq<Event>, k: Key, off: nat): Option<byte> {
    if trace == [] then None
    else
      var e := trace[|trace| - 1];
      var before := trace[..|trace| - 1];
      match e
      case Wrote(j, o, b) => if j == k && o == off then Some(b) else LastWritten(before, k, off)
      case Ended(p) => if p == k.pid then None else LastWritten(before, k, off)
      case _ => LastWritten(before, k, off)
  }

  /** Every load returned the last byte written there. */
  ghost predicate Transparent(trace: seq<Event>) {
    forall i :: 0 <= i < |trace| && trace[i].Loaded? ==>
      var w := LastWritten(trace[..i], trace[i].k, trace[i].off);
      w.Some? ==> w.value == trace[i].b
  }

  /** The pages agree with what the trace says was written. */
  ghost predicate Agrees(vmem: map<Key, Page>, trace: seq<Event>) {
    forall k, off :: 0 <= off < 4096 && LastWritten(trace, k, off).Some? ==>
      k in vmem && vmem[k][off] == LastWritten(trace, k, off).value
  }

  lemma AppendTransparent(trace: seq<Event>, e: Event)
    requires Transparent(trace)
    requires e.Loaded? ==> var w := LastWritten(trace, e.k, e.off); w.Some? ==> w.value == e.b
    ensures Transparent(trace + [e])
  {
    var t := trace + [e];
    forall i | 0 <= i < |t| && t[i].Loaded?
      ensures var w := LastWritten(t[..i], t[i].k, t[i].off); w.Some? ==> w.value == t[i].b
    {
      assert if i == |trace| then t[..i] == trace else t[..i] == trace[..i];
    }
  }

  lemma AppendAgrees(before: map<Key, Page>, after: map<Key, Page>, trace: seq<Event>, e: Event)
    requires Agrees(before, trace)
    requires forall k :: k in before && !(e.Ended? && k.pid == e.pid) && !(e.Wrote? && k == e.k) ==> k in after && after[k] == before[k]
    requires e.Wrote? ==> e.k in after && e.off < 4096 && after[e.k][e.off] == e.b
    requires e.Wrote? && e.k in before ==> after[e.k] == before[e.k][e.off := e.b]
    ensures Agrees(after, trace + [e])
  {
    var t := trace + [e];
    assert t[|t| - 1] == e && t[..|t| - 1] == trace;
  }

  predicate Sensible(op: Op) {
    match op
    case Start(p) => p > 0
    case Load(k, off) => k.pid > 0 && Hi(k.vpn) >= 4 && off < 4096
    case Store(k, off, _) => k.pid > 0 && Hi(k.vpn) >= 4 && off < 4096
    case Exit(p) => p > 0
  }

  /** What operation `op` does to the machine, and the entry it makes in the log. */
  ghost predicate Answers(a: Machine, op: Op, e: Event, b: Machine)
    requires Sensible(op)
  {
    match op
    case Start(p) =>
      if p in a.s.pdir then e == Ignored && b == a
      else e == Began(p) && b.s.pdir.Keys == a.s.pdir.Keys + {p} && b.s.vmem == a.s.vmem && (b.heap, b.swap) == (a.heap, a.swap)
    case Load(k, off) =>
      if k.pid !in a.s.pdir then e == Ignored && b == a
      else if Starved(a, k) then e == Ended(k.pid) && Gone(a, b, k.pid)
      else Touched(a, b, k) && e == Loaded(k, off, b.s.vmem[k][off]) && (k in a.s.vmem ==> b.s.vmem[k] == a.s.vmem[k])
    case Store(k, off, x) =>
      if k.pid !in a.s.pdir then e == Ignored && b == a
      else if Starved(a, k) then e == Ended(k.pid) && Gone(a, b, k.pid)
      else Touched(a, b, k) && e == Wrote(k, off, x) && b.s.vmem[k][off] == x
           && (k in a.s.vmem ==> b.s.vmem[k] == a.s.vmem[k][off := x])
    case Exit(p) =>
      if p !in a.s.pdir then e == Ignored && b == a
      else e == Ended(p) && Gone(a, b, p)
  }

  /** One operation; `stuck` means that physical memory ran out. */
  method Perform(m: Pager, op: Op) returns (e: Event, stuck: bool)
    requires m.Valid() && Sensible(op)
    modifies m
    ensures !stuck ==> m.Valid() && Answers(old(m.Now()), op, e, m.Now())
    ensures stuck ==> m.Full()
  {
    hide Inv, Entry, Gone, Touched;
    e := Ignored;
    var st := Done;
    match op {
    case Start(p) =>
      if p !in m.pdir {
        st := m.Vcreate(p);
        e := Began(p);
      }
    case Load(k, off) =>
      if k.pid in m.pdir {
        var b;
        st, b := m.Read(k, off);
        e := if st == Dead then Ended(k.pid) else Loaded(k, off, b);
      }
    case Store(k, off, b) =>
      if k.pid in m.pdir {
        st := m.Write(k, off, b);
        e := if st == Dead then Ended(k.pid) else Wrote(k, off, b);
      }
    case Exit(p) =>
      if p in m.pdir {
        m.Kill(p);
        e := Ended(p);
      }
    }
    stuck := st == Exhausted;
  }

  /** The log stays truthful, and the pages keep agreeing with it. */
  lemma AnswerAgrees(a: Machine, op: Op, e: Event, b: Machine, trace: seq<Event>)
    requires Sensible(op) && Answers(a, op, e, b) && Agrees(a.s.vmem, trace) && Transparent(trace)
    ensures Agrees(b.s.vmem, trace + [e]) && Transparent(trace + [e])
  {
    hide Agrees, Transparent, LastWritten, Charged, Released, Owned;
    if e.Loaded? {
      ReadAgrees(a.s.vmem, b.s.vmem, trace, e.k, e.off);
    }
    AppendAgrees(a.s.vmem, b.s.vmem, trace, e);
    AppendTransparent(trace, e);
  }

  lemma ReadAgrees(before: map<Key, Page>, after: map<Key, Page>, trace: seq<Event>, k: Key, off: nat)
    requires Agrees(before, trace) && off < 4096 && k in after && (k in before ==> after[k] == before[k])
    ensures var w := LastWritten(trace, k, off); w.Some? ==> w.value == after[k][off]
  {
    hide LastWritten;
  }

  /** Transparency of paging, over every run until physical memory runs out: each
      operation makes its one entry in the log, from the machine as the operations
      before it left it, and every load in the log returns what was last written
      there.  `ms` are the machine's states between the operations. */
  method Run(m: Pager, ops: seq<Op>) returns (trace: seq<Event>, ghost ms: seq<Machine>)
    requires m.Valid() && forall i :: 0 <= i < |ops| ==> Sensible(ops[i])
    modifies m
    ensures |trace| <= |ops| && |ms| == |trace| + 1 && ms[0] == old(m.Now())
    ensures forall i :: 0 <= i < |trace| ==> Answers(ms[i], ops[i], trace[i], ms[i + 1])
    ensures Transparent(trace)
    ensures if |trace| == |ops| then m.Valid() && ms[|trace|] == m.Now() else m.Full()
  {
    hide Inv, Agrees, Transparent, Answers;
    trace, ms := [], [m.Now()];
    NothingWritten(m.vmem);
    while |trace| < |ops|
      invariant |trace| <= |ops| && |ms| == |trace| + 1 && ms[0] == old(m.Now()) && ms[|trace|] == m.Now()
      invariant forall i :: 0 <= i < |trace| ==> Answers(ms[i], ops[i], trace[i], ms[i + 1])
      invariant m.Valid() && Agrees(m.vmem, trace) && Transparent(trace)
    {
      var e, stuck := Perform(m, ops[|trace|]);
      if stuck {
        return;
      }
      AnswerAgrees(ms[|trace|], ops[|trace|], e, m.Now(), trace);
      trace, ms := trace + [e], ms + [m.Now()];
    }
  }

  lemma NothingWritten(vmem: map<Key, Page>)
    ensures Agrees(vmem, []) && Transparent([])
  {
  }
}
