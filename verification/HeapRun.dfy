/** Whole runs of the heap: every byte is free or in exactly one block handed out, and what
    comes back rebuilds the list it was taken from. */
module HeapRun {
  import opened Heap
  import opened HeapOps

  /** A block none of whose bytes is free overlaps no free block. */
  lemma NoOverlap(bs: seq<Block>, lo: int, a: int, n: int)
    requires Canonical(bs, lo) && 0 < n
    requires forall x :: a <= x < a + n ==> !Covers(bs, x)
    ensures !Overlaps(bs, a, n)
  {
    forall i | 0 <= i < |bs| ensures !(bs[i].addr < a + n && a < bs[i].addr + bs[i].len) {
      var x := if bs[i].addr < a then a else bs[i].addr;
      assert Within(bs[i], x) ==> Covers(bs, x);
    }
  }

  /** getmem followed by freemem, whichever block it came from. */
  lemma TakeLowPutBack(bs: seq<Block>, lo: int, i: nat, n: int, k: nat)
    requires Canonical(bs, lo) && i < |bs| && 0 < n <= bs[i].len
    ensures !Overlaps(TakeLow(bs, i, n), bs[i].addr, n)
    ensures Gap(TakeLow(bs, i, n), k, bs[i].addr, n) ==>
              PutBack(TakeLow(bs, i, n), k, bs[i].addr, n) == bs
  {
    hide Canonical, TakeLow, PutBack, Covers, Overlaps, Gap;
    var t := TakeLow(bs, i, n);
    Neighbours(bs, lo, i);
    TakeLowKeeps(bs, lo, i, n);
    forall x ensures Covers(t, x) <==> Covers(bs, x) && !(bs[i].addr <= x < bs[i].addr + n) {
      TakeLowCovers(bs, lo, i, n, x);
    }
    Restored(bs, t, lo, i, bs[i].addr, n, k);
  }

  /** getstk followed by freestk. */
  lemma TakeHighPutBack(bs: seq<Block>, lo: int, i: nat, n: int, k: nat)
    requires Canonical(bs, lo) && i < |bs| && 0 < n <= bs[i].len
    ensures var a := bs[i].addr + bs[i].len - n;
            && !Overlaps(TakeHigh(bs, i, n), a, n)
            && (Gap(TakeHigh(bs, i, n), k, a, n) ==> PutBack(TakeHigh(bs, i, n), k, a, n) == bs)
  {
    hide Canonical, TakeHigh, PutBack, Covers, Overlaps, Gap;
    var t, a := TakeHigh(bs, i, n), bs[i].addr + bs[i].len - n;
    Neighbours(bs, lo, i);
    TakeHighKeeps(bs, lo, i, n);
    forall x ensures Covers(t, x) <==> Covers(bs, x) && !(a <= x < a + n) {
      TakeHighCovers(bs, lo, i, n, x);
    }
    Restored(bs, t, lo, i, a, n, k);
  }

  lemma GapBound(t: seq<Block>, k: nat, a: int, n: int)
    requires Gap(t, k, a, n)
    ensures k <= |t|
  {
  }

  lemma Restored(bs: seq<Block>, t: seq<Block>, lo: int, i: nat, a: int, n: int, k: nat)
    requires Canonical(bs, lo) && Canonical(t, lo) && i < |bs| && 0 < n
    requires bs[i].addr <= a && a + n <= bs[i].addr + bs[i].len
    requires forall x :: Covers(t, x) <==> Covers(bs, x) && !(a <= x < a + n)
    ensures !Overlaps(t, a, n)
    ensures Gap(t, k, a, n) ==> PutBack(t, k, a, n) == bs
  {
    hide PutBack, Overlaps, Gap;
    NoOverlap(t, lo, a, n);
    if Gap(t, k, a, n) {
      assert k <= |t| by { GapBound(t, k, a, n); }
      Neighbours(bs, lo, i);
      PutBackKeeps(t, lo, k, a, n);
      forall x ensures Covers(PutBack(t, k, a, n), x) <==> Covers(bs, x) {
        PutBackCovers(t, lo, k, a, n, x);
        if a <= x < a + n {
          assert Within(bs[i], x);
        }
      }
      CanonicalUnique(PutBack(t, k, a, n), bs, lo);
    }
  }

  // A block handed out: its bytes, the size asked for, and by which call.
  datatype Grant = Grant(b: Block, nbytes: int, stack: bool)

  datatype Op = Get(nbytes: int) | Stack(nbytes: int) | Free(which: nat)

  ghost predicate Held(owned: seq<Grant>, x: int) {
    exists i :: 0 <= i < |owned| && Within(owned[i].b, x)
  }

  ghost predicate GrantOk(g: Grant) {
    0 < g.nbytes <= 0xFFFF_FFF8 && g.b.len == RoundMb(g.nbytes) && 0 < g.b.len
  }

  /** Every byte the heap began with is free or held, never both, and held by one block only. */
  ghost predicate Partition(all: seq<Block>, bs: seq<Block>, owned: seq<Grant>) {
    && (forall x :: Covers(all, x) <==> Covers(bs, x) || Held(owned, x))
    && (forall x :: Covers(bs, x) ==> !Held(owned, x))
    && (forall i, j :: 0 <= i < j < |owned| ==> Apart(owned[i].b, owned[j].b))
    && (forall i :: 0 <= i < |owned| ==> GrantOk(owned[i]))
  }

  ghost predicate Apart(a: Block, b: Block) {
    a.addr + a.len <= b.addr || b.addr + b.len <= a.addr
  }

  lemma Granted(all: seq<Block>, bs: seq<Block>, t: seq<Block>, owned: seq<Grant>, g: Grant)
    requires Partition(all, bs, owned) && GrantOk(g)
    requires forall x :: Covers(t, x) <==> Covers(bs, x) && !Within(g.b, x)
    requires forall x :: Within(g.b, x) ==> Covers(bs, x)
    ensures Partition(all, t, owned + [g])
  {
    hide Covers;
    var more := owned + [g];
    forall x ensures Held(more, x) <==> Held(owned, x) || Within(g.b, x) {
      HeldMore(owned, g, x);
    }
    forall i | 0 <= i < |owned| ensures Apart(owned[i].b, g.b) {
      ApartFromFree(bs, owned, i, g.b);
    }
  }

  lemma HeldMore(owned: seq<Grant>, g: Grant, x: int)
    ensures Held(owned + [g], x) <==> Held(owned, x) || Within(g.b, x)
  {
    var more := owned + [g];
    if Held(owned, x) {
      var i :| 0 <= i < |owned| && Within(owned[i].b, x);
      assert Within(more[i].b, x);
    }
    if Within(g.b, x) {
      assert Within(more[|owned|].b, x);
    }
  }

  lemma ApartFromFree(bs: seq<Block>, owned: seq<Grant>, i: nat, b: Block)
    requires i < |owned| && 0 < owned[i].b.len && 0 < b.len
    requires forall x :: Covers(bs, x) ==> !Held(owned, x)
    requires forall x :: Within(b, x) ==> Covers(bs, x)
    ensures Apart(owned[i].b, b)
  {
    var a := owned[i].b;
    var x := if a.addr < b.addr then b.addr else a.addr;
    if !Apart(a, b) {
      assert Within(a, x) && Within(b, x);
      assert Held(owned, x);
      assert false;
    }
  }

  lemma Returned(all: seq<Block>, bs: seq<Block>, t: seq<Block>, owned: seq<Grant>, i: nat)
    requires Partition(all, bs, owned) && i < |owned|
    requires forall x :: Covers(t, x) <==> Covers(bs, x) || Within(owned[i].b, x)
    ensures Partition(all, t, owned[..i] + owned[i + 1..])
  {
    hide Covers, GrantOk;
    var less := owned[..i] + owned[i + 1..];
    forall x ensures Held(owned, x) <==> Held(less, x) || Within(owned[i].b, x) {
      HeldLess(owned, i, x);
    }
    forall x ensures Within(owned[i].b, x) ==> !Held(less, x) {
      forall j | 0 <= j < |less| ensures Within(owned[i].b, x) ==> !Within(less[j].b, x) {
        var j' := if j < i then j else j + 1;
        assert less[j] == owned[j'];
        assert Apart(owned[if j' < i then j' else i].b, owned[if j' < i then i else j'].b);
      }
    }
    forall j | 0 <= j < |less| ensures less[j] == owned[if j < i then j else j + 1] {
    }
  }

  lemma HeldLess(owned: seq<Grant>, i: nat, x: int)
    requires i < |owned|
    ensures Held(owned, x) <==> Held(owned[..i] + owned[i + 1..], x) || Within(owned[i].b, x)
  {
    var less := owned[..i] + owned[i + 1..];
    if Held(owned, x) && !Within(owned[i].b, x) {
      var j :| 0 <= j < |owned| && Within(owned[j].b, x);
      assert Within(less[if j < i then j else j - 1].b, x);
    }
    if Held(less, x) {
      var j :| 0 <= j < |less| && Within(less[j].b, x);
      assert Within(owned[if j < i then j else j + 1].b, x);
    }
  }

  /** A block held is one freemem accepts. */
  lemma HeldDisjoint(all: seq<Block>, bs: seq<Block>, lo: int, owned: seq<Grant>, i: nat)
    requires Partition(all, bs, owned) && i < |owned| && Canonical(bs, lo) && Canonical(all, lo)
    ensures !Overlaps(bs, owned[i].b.addr, owned[i].b.len)
    ensures Covers(all, owned[i].b.addr) && lo <= owned[i].b.addr
    ensures owned[i].b.addr + owned[i].b.len < 0x1_0000_0000
  {
    hide Overlaps;
    var b := owned[i].b;
    assert GrantOk(owned[i]);
    assert Within(b, b.addr) && Within(b, b.addr + b.len - 1);
    assert Held(owned, b.addr) && Held(owned, b.addr + b.len - 1);
    forall x ensures b.addr <= x < b.addr + b.len ==> !Covers(bs, x) {
      assert Within(b, x) ==> Held(owned, x);
    }
    NoOverlap(bs, lo, b.addr, b.len);
    var j :| 0 <= j < |all| && Within(all[j], b.addr);
    var l :| 0 <= l < |all| && Within(all[l], b.addr + b.len - 1);
  }

  /** With nothing held the list is the one the run began with. */
  lemma AllReturned(all: seq<Block>, bs: seq<Block>, lo: int)
    requires Partition(all, bs, []) && Canonical(bs, lo) && Canonical(all, lo)
    ensures bs == all
  {
    forall x ensures Covers(all, x) <==> Covers(bs, x) {
      assert !Held([], x);
    }
    CanonicalUnique(all, bs, lo);
  }

  lemma Untouched(all: seq<Block>)
    ensures Partition(all, all, [])
  {
    forall x ensures !Held([], x) {
    }
  }

  /** The run's invariant over the list in memory. */
  ghost predicate Sane(h: FreeList, all: seq<Block>, owned: seq<Grant>)
    reads h
  {
    && h.Valid() && Canonical(all, h.minheap) && Aligned(all) && Aligned(h.blocks) && Partition(all, h.blocks, owned)
    && (forall i :: 0 <= i < |all| ==> all[i].addr + all[i].len - 1 <= h.maxheap)
  }

  /** The grant getmem and getstk make of a block they took bytes from. */
  function HeapGrant(b: Block, nbytes: int): Grant
    requires 0 <= nbytes < 0x1_0000_0000
  {
    Grant(Block(b.addr, RoundMb(nbytes)), nbytes, false)
  }

  function StackGrant(b: Block, nbytes: int): Grant
    requires 0 <= nbytes < 0x1_0000_0000
  {
    Grant(Block(b.addr + b.len - RoundMb(nbytes), RoundMb(nbytes)), nbytes, true)
  }

  /** The first block at or after position i that holds n bytes, or |bs|. */
  function FirstOf(bs: seq<Block>, n: int, i: nat): (r: nat)
    requires i <= |bs|
    ensures i <= r <= |bs| && (r < |bs| ==> bs[r].len >= n) && forall j :: i <= j < r ==> bs[j].len < n
    decreases |bs| - i
  {
    if i == |bs| || bs[i].len >= n then i else FirstOf(bs, n, i + 1)
  }

  /** The last block before position i that holds n bytes, or |bs|. */
  function LastOf(bs: seq<Block>, n: int, i: nat): (r: nat)
    requires i <= |bs|
    ensures r == |bs| || (r < i && bs[r].len >= n)
    ensures forall j :: (if r == |bs| then 0 else r + 1) <= j < i ==> bs[j].len < n
  {
    if i == 0 then |bs| else if bs[i - 1].len >= n then i - 1 else LastOf(bs, n, i - 1)
  }

  /** The first block at or after position i whose address is not below a, or |bs|. */
  function PlaceFor(bs: seq<Block>, a: int, i: nat): (r: nat)
    requires i <= |bs|
    ensures i <= r <= |bs| && (r < |bs| ==> a <= bs[r].addr) && forall j :: i <= j < r ==> bs[j].addr < a
    decreases |bs| - i
  {
    if i == |bs| || a <= bs[i].addr then i else PlaceFor(bs, a, i + 1)
  }

  predicate Askable(op: Op) {
    op.Free? || 0 <= op.nbytes <= 0xFFFF_FFF8
  }

  /** The heap as a plain list: what one call does to the free blocks and to the grants. */
  function Step(bs: seq<Block>, owned: seq<Grant>, op: Op): (seq<Block>, seq<Grant>)
    requires Askable(op)
  {
    match op
    case Get(nbytes) =>
      var i := FirstOf(bs, RoundMb(nbytes), 0);
      if nbytes == 0 || i == |bs| then (bs, owned)
      else (TakeLow(bs, i, RoundMb(nbytes)), owned + [HeapGrant(bs[i], nbytes)])
    case Stack(nbytes) =>
      var i := LastOf(bs, RoundMb(nbytes), |bs|);
      if nbytes == 0 || i == |bs| then (bs, owned)
      else (TakeHigh(bs, i, RoundMb(nbytes)), owned + [StackGrant(bs[i], nbytes)])
    case Free(which) =>
      if which >= |owned| then (bs, owned)
      else
        var b := owned[which].b;
        (PutBack(bs, PlaceFor(bs, b.addr, 0), b.addr, b.len), owned[..which] + owned[which + 1..])
  }

  function Replay(bs: seq<Block>, ops: seq<Op>): (seq<Block>, seq<Grant>)
    requires forall i :: 0 <= i < |ops| ==> Askable(ops[i])
  {
    if ops == [] then (bs, [])
    else
      var p := Replay(bs, ops[..|ops| - 1]);
      Step(p.0, p.1, ops[|ops| - 1])
  }

  lemma GapPlace(bs: seq<Block>, lo: int, k: nat, a: int, n: int)
    requires Canonical(bs, lo) && Gap(bs, k, a, n) && 0 < n
    ensures PlaceFor(bs, a, 0) == k
  {
  }

  lemma GetPartition(all: seq<Block>, bs: seq<Block>, lo: int, owned: seq<Grant>, i: nat, nbytes: int)
    requires Partition(all, bs, owned) && Canonical(bs, lo) && i < |bs|
    requires 0 < nbytes <= 0xFFFF_FFF8 && RoundMb(nbytes) <= bs[i].len
    ensures Partition(all, TakeLow(bs, i, RoundMb(nbytes)), owned + [HeapGrant(bs[i], nbytes)])
    ensures Partition(all, TakeHigh(bs, i, RoundMb(nbytes)), owned + [StackGrant(bs[i], nbytes)])
  {
    hide Partition, TakeLow, TakeHigh, Canonical, RoundMb;
    var n := RoundMb(nbytes);
    RoundCovers(nbytes);
    var t, u := TakeLow(bs, i, n), TakeHigh(bs, i, n);
    forall x ensures Covers(t, x) <==> Covers(bs, x) && !Within(HeapGrant(bs[i], nbytes).b, x) {
      TakeLowCovers(bs, lo, i, n, x);
    }
    forall x ensures Covers(u, x) <==> Covers(bs, x) && !Within(StackGrant(bs[i], nbytes).b, x) {
      TakeHighCovers(bs, lo, i, n, x);
    }
    forall x ensures Within(HeapGrant(bs[i], nbytes).b, x) || Within(StackGrant(bs[i], nbytes).b, x) ==> Covers(bs, x) {
      assert Within(bs[i], x) ==> Covers(bs, x);
    }
    hide Covers, Within;
    Granted(all, bs, t, owned, HeapGrant(bs[i], nbytes));
    Granted(all, bs, u, owned, StackGrant(bs[i], nbytes));
  }

  lemma FreePartition(all: seq<Block>, bs: seq<Block>, lo: int, owned: seq<Grant>, i: nat, k: nat)
    requires Partition(all, bs, owned) && Canonical(bs, lo) && i < |owned| && 0 < owned[i].b.len
    requires Gap(bs, k, owned[i].b.addr, owned[i].b.len)
    ensures Partition(all, PutBack(bs, k, owned[i].b.addr, owned[i].b.len), owned[..i] + owned[i + 1..])
  {
    hide Partition, PutBack, Canonical, Covers;
    GapBound(bs, k, owned[i].b.addr, owned[i].b.len);
    var t := PutBack(bs, k, owned[i].b.addr, owned[i].b.len);
    forall x ensures Covers(t, x) <==> Covers(bs, x) || Within(owned[i].b, x) {
      PutBackCovers(bs, lo, k, owned[i].b.addr, owned[i].b.len, x);
    }
    Returned(all, bs, t, owned, i);
  }

  /** What freeing grant i needs to be accepted, and what it then does. */
  lemma FreeFacts(h: FreeList, all: seq<Block>, owned: seq<Grant>, i: nat)
    requires Sane(h, all, owned) && i < |owned| && Multiple(owned[i].b.addr)
    ensures var b := owned[i].b;
            && 8 <= b.addr && GrantOk(owned[i]) && Sound(b.addr, owned[i].nbytes) && Sound(b.addr, b.len)
            && !Overlaps(h.blocks, b.addr, b.len) && h.minheap <= b.addr <= h.maxheap && RoundMb(b.len) == b.len
  {
    hide Overlaps, Canonical, RoundMb, Linked;
    HeldDisjoint(all, h.blocks, h.minheap, owned, i);
    RoundAgain(owned[i].nbytes);
  }

  lemma AlignedGrant(bs: seq<Block>, i: nat, n: int)
    requires Aligned(bs) && i < |bs|
    ensures Multiple(bs[i].addr) && (Multiple(n) ==> Multiple(bs[i].addr + bs[i].len - n))
  {
  }

  /** One call by a caller that frees what it was given, with the size it asked for. */
  method Perform(h: FreeList, ghost all: seq<Block>, owned: seq<Grant>, op: Op) returns (next: seq<Grant>)
    requires Sane(h, all, owned) && (forall i :: 0 <= i < |owned| ==> Multiple(owned[i].b.addr))
    requires Askable(op)
    modifies h
    ensures Sane(h, all, next) && forall i :: 0 <= i < |next| ==> Multiple(next[i].b.addr)
    ensures (h.blocks, next) == Step(old(h.blocks), owned, op)
  {
    hide Canonical, Aligned, Partition, Linked, TakeLow, TakeHigh, PutBack, Overlaps, Gap, RoundMb, U32, Multiple;
    next := owned;
    ghost var bs := h.blocks;
    match op {
      case Get(nbytes) =>
        var r, i := h.Getmem(nbytes);
        if r.Some? {
          GetPartition(all, bs, h.minheap, owned, i, nbytes);
          TakeAligned(bs, i, RoundMb(nbytes)) by { RoundMultiple(nbytes); }
          AlignedGrant(bs, i, RoundMb(nbytes));
          next := owned + [Grant(Block(r.value, RoundMb(nbytes)), nbytes, false)];
        }
      case Stack(nbytes) =>
        var r, i := h.Getstk(nbytes);
        if r.Some? {
          GetPartition(all, bs, h.minheap, owned, i, nbytes);
          RoundMultiple(nbytes);
          TakeAligned(bs, i, RoundMb(nbytes));
          AlignedGrant(bs, i, RoundMb(nbytes));
          Neighbours(bs, h.minheap, i);
          EndAligned(bs, i, h.minheap);
          next := owned + [Grant(Block(r.value + 4 - RoundMb(nbytes), RoundMb(nbytes)), nbytes, true)];
        }
      case Free(i) =>
        if i < |owned| {
          FreeFacts(h, all, owned, i);
          var b := owned[i].b;
          var ok;
          ghost var k;
          ghost var a := b.addr;
          RoundMultiple(owned[i].nbytes);
          if owned[i].stack {
            ok, a, k := h.Freestk(b.addr + b.len - 4, owned[i].nbytes);
          } else {
            ok, k := h.Freemem(b.addr, owned[i].nbytes);
          }
          FreePartition(all, bs, h.minheap, owned, i, k);
          GapPlace(bs, h.minheap, k, b.addr, b.len);
          PutBackAligned(bs, k, b.addr, b.len) by { GapBound(bs, k, b.addr, b.len); }
          next := owned[..i] + owned[i + 1..];
        }
    }
  }

  lemma RoundMultiple(x: int)
    requires 0 <= x < 0x1_0000_0000
    ensures Multiple(RoundMb(x))
  {
  }

  lemma EndAligned(bs: seq<Block>, i: nat, lo: int)
    requires Aligned(bs) && i < |bs| && Canonical(bs, lo) && 0 < lo
    ensures bs[i].addr + bs[i].len >= 8
  {
  }

  /** Any run: the calls do to the heap what they do to the plain list, the heap stays partitioned, and once all is returned the list is what it was. */
  method Run(h: FreeList, ops: seq<Op>) returns (owned: seq<Grant>)
    requires h.Valid() && Aligned(h.blocks) && MEMLIST in h.mlength
    requires forall i :: 0 <= i < |h.blocks| ==> h.blocks[i].addr + h.blocks[i].len - 1 <= h.maxheap
    requires forall i :: 0 <= i < |ops| ==> Askable(ops[i])
    modifies h
    ensures (h.blocks, owned) == Replay(old(h.blocks), ops)
    ensures h.Valid() && Partition(old(h.blocks), h.blocks, owned)
    ensures owned == [] ==> h.blocks == old(h.blocks)
    ensures MEMLIST in h.mlength && (owned == [] ==> h.mlength[MEMLIST] == old(h.mlength[MEMLIST]))
  {
    hide Canonical, Aligned, Partition, Linked, Multiple;
    ghost var all := h.blocks;
    Visit(h.mnext, h.mlength, h.blocks, h.minheap, 0);
    owned := [];
    Untouched(all);
    for t := 0 to |ops|
      invariant (h.blocks, owned) == Replay(all, ops[..t])
      invariant Sane(h, all, owned) && forall i :: 0 <= i < |owned| ==> Multiple(owned[i].b.addr)
    {
      assert ops[..t + 1][..t] == ops[..t];
      owned := Perform(h, all, owned, ops[t]);
    }
    assert ops[..|ops|] == ops;
    Visit(h.mnext, h.mlength, h.blocks, h.minheap, 0);
    if owned == [] {
      AllReturned(all, h.blocks, h.minheap);
      Visit(h.mnext, h.mlength, h.blocks, h.minheap, 0);
    }
  }
}
