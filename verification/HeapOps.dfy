/** getmem, getstk, freemem and freestk over the linked free list, and any run of them. */
module HeapOps {
  import opened Heap

  // The list head's own header; no heap address is negative. Address 0 is NULL.
  const MEMLIST: int := -1

  function AddressAt(bs: seq<Block>, i: nat): int {
    if i < |bs| then bs[i].addr else 0
  }

  predicate Holds(m: map<int, int>, a: int, v: int) {
    a in m && m[a] == v
  }

  /** The links in memory spell out bs. */
  ghost predicate Threaded(mnext: map<int, int>, bs: seq<Block>) {
    && Holds(mnext, MEMLIST, AddressAt(bs, 0))
    && (forall i :: 0 <= i < |bs| ==> Holds(mnext, bs[i].addr, AddressAt(bs, i + 1)))
  }

  ghost predicate Sized(mlength: map<int, int>, bs: seq<Block>) {
    && Holds(mlength, MEMLIST, Total(bs))
    && (forall i :: 0 <= i < |bs| ==> Holds(mlength, bs[i].addr, bs[i].len))
  }

  /** The headers in memory spell out bs, and the head's length is the total. */
  ghost predicate Linked(mnext: map<int, int>, mlength: map<int, int>, bs: seq<Block>) {
    Threaded(mnext, bs) && Sized(mlength, bs)
  }

  function Before(bs: seq<Block>, i: nat): int
    requires i <= |bs|
  {
    if i == 0 then MEMLIST else bs[i - 1].addr
  }

  ghost predicate FirstFit(bs: seq<Block>, n: int, i: nat) {
    && i < |bs| && bs[i].len >= n
    && (forall j :: 0 <= j < i ==> bs[j].len < n)
  }

  ghost predicate LastFit(bs: seq<Block>, n: int, i: nat) {
    && i < |bs| && bs[i].len >= n
    && (forall j :: i < j < |bs| ==> bs[j].len < n)
  }

  /** The distinctness that makes writing one header leave the others alone. */
  lemma HeadersApart(bs: seq<Block>, lo: int, i: nat, k: nat)
    requires Canonical(bs, lo) && 0 < lo && i < |bs| && k < |bs|
    ensures bs[k].addr != MEMLIST && bs[k].addr != 0
    ensures k != i ==> bs[k].addr != bs[i].addr
    ensures !(bs[i].addr < bs[k].addr <= bs[i].addr + bs[i].len)
  {
  }

  /** Relinking around a stretch of blocks replaces it in the list. */
  lemma SpliceThreaded(mnext: map<int, int>, next: map<int, int>, bs: seq<Block>, i: nat, j: nat, m: seq<Block>)
    requires Threaded(mnext, bs) && i <= j <= |bs| && |m| <= 1
    requires Holds(next, Before(bs, i), if |m| == 1 then m[0].addr else AddressAt(bs, j))
    requires |m| == 1 ==> Holds(next, m[0].addr, AddressAt(bs, j))
    requires i > 0 ==> Holds(next, MEMLIST, AddressAt(bs, 0))
    requires forall k :: 0 <= k < |bs| && (k < i - 1 || j <= k) ==> Holds(next, bs[k].addr, AddressAt(bs, k + 1))
    ensures Threaded(next, Splice(bs, i, j, m))
  {
    var t := Splice(bs, i, j, m);
    forall k | 0 <= k < |t| ensures Holds(next, t[k].addr, AddressAt(t, k + 1)) {
      SpliceAt(bs, i, j, m, k);
      if k + 1 < |t| { SpliceAt(bs, i, j, m, k + 1); }
      hide Splice, Holds;
      if k >= i + |m| {
        assert Holds(next, bs[k - i - |m| + j].addr, AddressAt(bs, k - i - |m| + j + 1));
      } else if k < i - 1 {
        assert Holds(next, bs[k].addr, AddressAt(bs, k + 1));
      }
    }
    if |t| > 0 { SpliceAt(bs, i, j, m, 0); }
  }

  lemma SpliceSized(mlength: map<int, int>, sizes: map<int, int>, bs: seq<Block>, i: nat, j: nat, m: seq<Block>)
    requires Sized(mlength, bs) && i <= j <= |bs| && |m| <= 1
    requires Holds(sizes, MEMLIST, Total(Splice(bs, i, j, m)))
    requires |m| == 1 ==> Holds(sizes, m[0].addr, m[0].len)
    requires forall k :: 0 <= k < |bs| && (k < i || j <= k) ==> Holds(sizes, bs[k].addr, bs[k].len)
    ensures Sized(sizes, Splice(bs, i, j, m))
  {
    hide Total;
    var t := Splice(bs, i, j, m);
    forall k | 0 <= k < |t| ensures Holds(sizes, t[k].addr, t[k].len) {
      SpliceAt(bs, i, j, m, k);
      if k >= i + |m| {
        assert Holds(sizes, bs[k - i - |m| + j].addr, bs[k - i - |m| + j].len);
      }
    }
  }

  // Unlinking block i, and putting a smaller block in its place.
  lemma UnlinkThreaded(mnext: map<int, int>, bs: seq<Block>, lo: int, i: nat)
    requires Threaded(mnext, bs) && Canonical(bs, lo) && 0 < lo && i < |bs|
    ensures Threaded(mnext[Before(bs, i) := AddressAt(bs, i + 1)], Splice(bs, i, i + 1, []))
  {
    hide Canonical, Splice;
    HeadersApart(bs, lo, i, i);
    var next := mnext[Before(bs, i) := AddressAt(bs, i + 1)];
    forall k | 0 <= k < |bs| && (k < i - 1 || i + 1 <= k) ensures Holds(next, bs[k].addr, AddressAt(bs, k + 1)) {
      HeadersApart(bs, lo, if i > 0 then i - 1 else i, k);
    }
    if i > 0 { HeadersApart(bs, lo, i, i - 1); }
    SpliceThreaded(mnext, next, bs, i, i + 1, []);
  }

  lemma UnlinkSized(mlength: map<int, int>, bs: seq<Block>, lo: int, i: nat)
    requires Sized(mlength, bs) && Canonical(bs, lo) && 0 < lo && i < |bs|
    requires Total(Splice(bs, i, i + 1, [])) == Total(bs) - bs[i].len
    ensures Sized(mlength[MEMLIST := Total(bs) - bs[i].len], Splice(bs, i, i + 1, []))
  {
    hide Total, Canonical, Splice;
    var sizes := mlength[MEMLIST := Total(bs) - bs[i].len];
    forall k | 0 <= k < |bs| ensures Holds(sizes, bs[k].addr, bs[k].len) {
      HeadersApart(bs, lo, k, k);
    }
    SpliceSized(mlength, sizes, bs, i, i + 1, []);
  }

  lemma UnlinkLinked(mnext: map<int, int>, mlength: map<int, int>, bs: seq<Block>, lo: int, i: nat)
    requires Linked(mnext, mlength, bs) && Canonical(bs, lo) && 0 < lo && i < |bs|
    ensures Linked(mnext[Before(bs, i) := AddressAt(bs, i + 1)], mlength[MEMLIST := Total(bs) - bs[i].len],
                   TakeLow(bs, i, bs[i].len))
    ensures TakeLow(bs, i, bs[i].len) == TakeHigh(bs, i, bs[i].len)
  {
    hide Total, Canonical, Splice, Threaded, Sized;
    Neighbours(bs, lo, i);
    TakeLowKeeps(bs, lo, i, bs[i].len);
    UnlinkThreaded(mnext, bs, lo, i);
    UnlinkSized(mlength, bs, lo, i);
  }

  lemma ShrinkLowThreaded(mnext: map<int, int>, bs: seq<Block>, lo: int, i: nat, n: int)
    requires Threaded(mnext, bs) && Canonical(bs, lo) && 0 < lo && i < |bs| && 0 <= n < bs[i].len
    ensures var a := bs[i].addr + n;
            Threaded(mnext[Before(bs, i) := a][a := AddressAt(bs, i + 1)], Splice(bs, i, i + 1, [Block(a, bs[i].len - n)]))
  {
    hide Canonical, Splice;
    Neighbours(bs, lo, i);
    HeadersApart(bs, lo, i, i);
    var a := bs[i].addr + n;
    var next := mnext[Before(bs, i) := a][a := AddressAt(bs, i + 1)];
    forall k | 0 <= k < |bs| && (k < i - 1 || i + 1 <= k) ensures Holds(next, bs[k].addr, AddressAt(bs, k + 1)) {
      HeadersApart(bs, lo, i, k);
      HeadersApart(bs, lo, if i > 0 then i - 1 else i, k);
    }
    if i > 0 { HeadersApart(bs, lo, i, i - 1); }
    SpliceThreaded(mnext, next, bs, i, i + 1, [Block(a, bs[i].len - n)]);
  }

  lemma ShrinkSized(mlength: map<int, int>, bs: seq<Block>, lo: int, i: nat, n: int, a: int)
    requires Sized(mlength, bs) && Canonical(bs, lo) && 0 < lo && i < |bs| && 0 <= n < bs[i].len
    requires bs[i].addr <= a < bs[i].addr + bs[i].len
    requires Total(Splice(bs, i, i + 1, [Block(a, bs[i].len - n)])) == Total(bs) - n
    ensures Sized(mlength[a := bs[i].len - n][MEMLIST := Total(bs) - n], Splice(bs, i, i + 1, [Block(a, bs[i].len - n)]))
  {
    hide Total, Canonical, Splice;
    Neighbours(bs, lo, i);
    var sizes := mlength[a := bs[i].len - n][MEMLIST := Total(bs) - n];
    forall k | 0 <= k < |bs| && (k < i || i + 1 <= k) ensures Holds(sizes, bs[k].addr, bs[k].len) {
      HeadersApart(bs, lo, i, k);
    }
    SpliceSized(mlength, sizes, bs, i, i + 1, [Block(a, bs[i].len - n)]);
  }

  lemma ShrinkLowLinked(mnext: map<int, int>, mlength: map<int, int>, bs: seq<Block>, lo: int, i: nat, n: int)
    requires Linked(mnext, mlength, bs) && Canonical(bs, lo) && 0 < lo && i < |bs| && 0 <= n < bs[i].len
    ensures var a := bs[i].addr + n;
            Linked(mnext[Before(bs, i) := a][a := AddressAt(bs, i + 1)],
                   mlength[a := bs[i].len - n][MEMLIST := Total(bs) - n], TakeLow(bs, i, n))
  {
    hide Total, Canonical, Splice, Threaded, Sized;
    TakeLowKeeps(bs, lo, i, n);
    ShrinkLowThreaded(mnext, bs, lo, i, n);
    ShrinkSized(mlength, bs, lo, i, n, bs[i].addr + n);
  }

  /** A block that shrinks from its high end keeps its links. */
  lemma SameThreads(mnext: map<int, int>, bs: seq<Block>, i: nat, len: int)
    requires Threaded(mnext, bs) && i < |bs|
    ensures Threaded(mnext, Splice(bs, i, i + 1, [Block(bs[i].addr, len)]))
  {
    hide Splice;
    SpliceThreaded(mnext, mnext, bs, i, i + 1, [Block(bs[i].addr, len)]);
  }

  lemma ShrinkHighLinked(mnext: map<int, int>, mlength: map<int, int>, bs: seq<Block>, lo: int, i: nat, n: int)
    requires Linked(mnext, mlength, bs) && Canonical(bs, lo) && 0 < lo && i < |bs| && 0 <= n < bs[i].len
    ensures Linked(mnext, mlength[bs[i].addr := bs[i].len - n][MEMLIST := Total(bs) - n], TakeHigh(bs, i, n))
  {
    hide Total, Canonical, Splice, Threaded, Sized;
    TakeHighKeeps(bs, lo, i, n);
    SameThreads(mnext, bs, i, bs[i].len - n);
    ShrinkSized(mlength, bs, lo, i, n, bs[i].addr);
  }

  /** The links after n bytes at a come back between blocks k - 1 and k. */
  function Relinked(mnext: map<int, int>, bs: seq<Block>, k: nat, a: int, n: int): map<int, int>
    requires k <= |bs|
  {
    var block := if JoinsLow(bs, k, a) then bs[k - 1].addr else a;
    var linked := if JoinsLow(bs, k, a) then mnext else mnext[a := AddressAt(bs, k)][Before(bs, k) := a];
    if JoinsHigh(bs, k, a + n) then linked[block := AddressAt(bs, k + 1)] else linked
  }

  function Resized(mlength: map<int, int>, bs: seq<Block>, k: nat, a: int, n: int): map<int, int>
    requires k <= |bs|
  {
    var block := if JoinsLow(bs, k, a) then bs[k - 1].addr else a;
    var end := if JoinsHigh(bs, k, a + n) then bs[k].addr + bs[k].len else a + n;
    mlength[MEMLIST := Total(bs) + n][block := end - block]
  }

  /** A block away from the place keeps its link. */
  lemma RelinkedElsewhere(mnext: map<int, int>, bs: seq<Block>, lo: int, k: nat, a: int, n: int, x: nat)
    requires Threaded(mnext, bs) && Canonical(bs, lo) && 0 < lo <= a && 0 < n && Gap(bs, k, a, n) && x < |bs|
    requires x < (if JoinsLow(bs, k, a) then k - 1 else k) - 1 || (if JoinsHigh(bs, k, a + n) then k + 1 else k) <= x
    ensures Holds(Relinked(mnext, bs, k, a, n), bs[x].addr, AddressAt(bs, x + 1))
  {
    hide Canonical;
    HeadersApart(bs, lo, x, x);
    ApartFromGap(bs, lo, k, a, n, x);
    if k > 0 { HeadersApart(bs, lo, k - 1, x); }
  }

  /** The block before the place, the block that is put there and the list head get their links. */
  lemma RelinkedHere(mnext: map<int, int>, bs: seq<Block>, lo: int, k: nat, a: int, n: int)
    requires Threaded(mnext, bs) && Canonical(bs, lo) && 0 < lo <= a && 0 < n && Gap(bs, k, a, n)
    ensures var low, high, next := JoinsLow(bs, k, a), JoinsHigh(bs, k, a + n), Relinked(mnext, bs, k, a, n);
            var i, j, block := if low then k - 1 else k, if high then k + 1 else k, if low then bs[k - 1].addr else a;
            && Holds(next, Before(bs, i), block) && Holds(next, block, AddressAt(bs, j))
            && (i > 0 ==> Holds(next, MEMLIST, AddressAt(bs, 0)))
  {
    hide Canonical;
    if k > 0 { Neighbours(bs, lo, k - 1); }
    if k > 1 { Neighbours(bs, lo, k - 2); }
  }

  lemma PutBackThreaded(mnext: map<int, int>, bs: seq<Block>, lo: int, k: nat, a: int, n: int)
    requires Threaded(mnext, bs) && Canonical(bs, lo) && 0 < lo <= a && 0 < n && Gap(bs, k, a, n)
    ensures Threaded(Relinked(mnext, bs, k, a, n), PutBack(bs, k, a, n))
  {
    hide Total, Canonical, Splice;
    var low, high := JoinsLow(bs, k, a), JoinsHigh(bs, k, a + n);
    var i, j := if low then k - 1 else k, if high then k + 1 else k;
    var next, block := Relinked(mnext, bs, k, a, n), if low then bs[k - 1].addr else a;
    var end := if high then bs[k].addr + bs[k].len else a + n;
    forall x | 0 <= x < |bs| && (x < i - 1 || j <= x) ensures Holds(next, bs[x].addr, AddressAt(bs, x + 1)) {
      RelinkedElsewhere(mnext, bs, lo, k, a, n, x);
    }
    RelinkedHere(mnext, bs, lo, k, a, n);
    hide Relinked, Holds;
    SpliceThreaded(mnext, next, bs, i, j, [Block(block, end - block)]);
  }

  lemma PutBackSized(mlength: map<int, int>, bs: seq<Block>, lo: int, k: nat, a: int, n: int)
    requires Sized(mlength, bs) && Canonical(bs, lo) && 0 < lo <= a && 0 < n && Gap(bs, k, a, n)
    requires a + n < 0x1_0000_0000
    ensures Sized(Resized(mlength, bs, k, a, n), PutBack(bs, k, a, n))
  {
    hide Total, Canonical, Splice;
    PutBackKeeps(bs, lo, k, a, n);
    var low, high := JoinsLow(bs, k, a), JoinsHigh(bs, k, a + n);
    var i, j := if low then k - 1 else k, if high then k + 1 else k;
    var sizes, block := Resized(mlength, bs, k, a, n), if low then bs[k - 1].addr else a;
    var end := if high then bs[k].addr + bs[k].len else a + n;
    forall x | 0 <= x < |bs| && (x < i || j <= x) ensures Holds(sizes, bs[x].addr, bs[x].len) {
      HeadersApart(bs, lo, x, x);
      ApartFromGap(bs, lo, k, a, n, x);
      if k > 0 { HeadersApart(bs, lo, k - 1, x); }
    }
    if k > 0 { Neighbours(bs, lo, k - 1); }
    SpliceSized(mlength, sizes, bs, i, j, [Block(block, end - block)]);
  }

  lemma ApartFromGap(bs: seq<Block>, lo: int, k: nat, a: int, n: int, x: nat)
    requires Canonical(bs, lo) && 0 < n && Gap(bs, k, a, n) && x < |bs|
    ensures bs[x].addr != a
  {
    if k > 0 {
      assert x < k - 1 ==> bs[x].addr + bs[x].len < bs[k - 1].addr;
    }
    if k < |bs| {
      assert k < x ==> bs[k].addr + bs[k].len < bs[x].addr;
    }
  }

  lemma PutBackLinked(mnext: map<int, int>, mlength: map<int, int>, bs: seq<Block>, lo: int, k: nat, a: int, n: int)
    requires Linked(mnext, mlength, bs) && Canonical(bs, lo) && 0 < lo <= a && 0 < n && Gap(bs, k, a, n)
    requires a + n < 0x1_0000_0000
    ensures Linked(Relinked(mnext, bs, k, a, n), Resized(mlength, bs, k, a, n), PutBack(bs, k, a, n))
    ensures Canonical(PutBack(bs, k, a, n), lo)
  {
    hide Threaded, Sized, Canonical, Gap, PutBack, Relinked, Resized;
    PutBackKeeps(bs, lo, k, a, n);
    PutBackThreaded(mnext, bs, lo, k, a, n);
    PutBackSized(mlength, bs, lo, k, a, n);
  }

  /** The same maps, written one assignment at a time. */
  lemma PutBackSteps(mnext: map<int, int>, mlength: map<int, int>, bs: seq<Block>, lo: int, k: nat, a: int, n: int)
    requires Linked(mnext, mlength, bs) && Canonical(bs, lo) && 0 < lo <= a && 0 < n && Gap(bs, k, a, n)
    ensures var sizes, links := Resized(mlength, bs, k, a, n), Relinked(mnext, bs, k, a, n);
            var sum := mlength[MEMLIST := Total(bs) + n];
            && (JoinsLow(bs, k, a) && JoinsHigh(bs, k, a + n) ==>
                  && sizes == sum[bs[k - 1].addr := bs[k - 1].len + n][bs[k - 1].addr := bs[k - 1].len + n + bs[k].len]
                  && links == mnext[bs[k - 1].addr := AddressAt(bs, k + 1)])
            && (JoinsLow(bs, k, a) && !JoinsHigh(bs, k, a + n) ==>
                  sizes == sum[bs[k - 1].addr := bs[k - 1].len + n] && links == mnext)
            && (!JoinsLow(bs, k, a) && JoinsHigh(bs, k, a + n) ==>
                  && sizes == sum[a := n][a := n + bs[k].len]
                  && links == mnext[a := AddressAt(bs, k)][Before(bs, k) := a][a := AddressAt(bs, k + 1)])
            && (!JoinsLow(bs, k, a) && !JoinsHigh(bs, k, a + n) ==>
                  sizes == sum[a := n] && links == mnext[a := AddressAt(bs, k)][Before(bs, k) := a])
  {
    hide Total, Linked, Canonical;
  }

  /** A return the 32-bit sums describe correctly. */
  predicate Sound(a: int, nbytes: int) {
    0 <= a && 0 <= nbytes <= 0xFFFF_FFF8 && a + RoundMb(nbytes) < 0x1_0000_0000
  }

  /** The overlap test as written, block k being the first at or after a. */
  predicate Admits(bs: seq<Block>, k: nat, a: int, n: int)
    requires k <= |bs|
  {
    !(k > 0 && a < U32(bs[k - 1].addr + bs[k - 1].len)) && !(k < |bs| && U32(a + n) > bs[k].addr)
  }

  /** Block k is the first one at or after a. */
  predicate FirstAfter(bs: seq<Block>, k: nat, a: int) {
    k <= |bs| && (k > 0 ==> bs[k - 1].addr < a) && (k < |bs| ==> a <= bs[k].addr)
  }

  /** The test goes wrong exactly when a block's end wraps past zero in front of a free block. */
  lemma AdmitsExactly(bs: seq<Block>, lo: int, k: nat, a: int, n: int)
    requires Canonical(bs, lo) && 0 <= lo <= a < 0x1_0000_0000 && 0 <= n < 0x1_0000_0000 && FirstAfter(bs, k, a)
    ensures Admits(bs, k, a, n) && Overlaps(bs, a, n) <==>
            a + n >= 0x1_0000_0000 && k < |bs| && a + n - 0x1_0000_0000 <= bs[k].addr
            && (k > 0 ==> bs[k - 1].addr + bs[k - 1].len <= a)
    ensures !Admits(bs, k, a, n) ==> Overlaps(bs, a, n)
  {
    hide Overlaps, Canonical, U32;
    if n > 0 {
      GapIffDisjoint(bs, lo, k, a, n);
    } else {
      InsideOne(bs, lo, k, a);
    }
    if k > 0 { Neighbours(bs, lo, k - 1); }
    if k < |bs| { Neighbours(bs, lo, k); }
    WrapsOnce(a + n);
  }

  /** An address lies strictly inside a free block only if that is the block before it. */
  lemma InsideOne(bs: seq<Block>, lo: int, k: nat, a: int)
    requires Canonical(bs, lo) && FirstAfter(bs, k, a)
    ensures Overlaps(bs, a, 0) <==> k > 0 && a < bs[k - 1].addr + bs[k - 1].len
  {
    if !(k > 0 && a < bs[k - 1].addr + bs[k - 1].len) {
      forall i | 0 <= i < |bs| ensures !(bs[i].addr < a < bs[i].addr + bs[i].len) {
        if i < k - 1 {
          assert bs[i].addr + bs[i].len < bs[k - 1].addr;
        } else if k < i {
          assert bs[k].addr + bs[k].len < bs[i].addr;
        }
      }
    }
  }

  lemma WrapsOnce(x: int)
    requires 0 <= x < 0x2_0000_0000
    ensures U32(x) == if x < 0x1_0000_0000 then x else x - 0x1_0000_0000
  {
  }

  /** Two returns that the test lets through: one runs over the free block behind it and past the
      end of memory, and one is so large that it rounds to no bytes at all. */
  lemma WrappedReturns()
    ensures var bs := [Block(0x10_0000, 0x1000), Block(0x20_0000, 0x1000)];
            && Canonical(bs, 0x10_0000) && FirstAfter(bs, 1, 0x18_0000)
            && Admits(bs, 1, 0x18_0000, RoundMb(0xFFF0_0000)) && Overlaps(bs, 0x18_0000, 0xFFF0_0000)
            && Admits(bs, 1, 0x18_0000, RoundMb(0xFFFF_FFFF)) && Overlaps(bs, 0x18_0000, 0xFFFF_FFFF)
            && RoundMb(0xFFFF_FFFF) == 0
  {
    var bs := [Block(0x10_0000, 0x1000), Block(0x20_0000, 0x1000)];
    assert bs[1].addr < 0x18_0000 + 0xFFF0_0000;
  }

  ghost predicate NoFit(bs: seq<Block>, n: int) {
    forall j :: 0 <= j < |bs| ==> bs[j].len < n
  }

  /** What a walk of the list finds at position i. */
  lemma Visit(mnext: map<int, int>, mlength: map<int, int>, bs: seq<Block>, lo: int, i: nat)
    requires Linked(mnext, mlength, bs) && Canonical(bs, lo) && 0 < lo && i <= |bs|
    ensures AddressAt(bs, i) != 0 <==> i < |bs|
    ensures MEMLIST in mnext && mnext[MEMLIST] == AddressAt(bs, 0)
    ensures MEMLIST in mlength && mlength[MEMLIST] == Total(bs)
    ensures i < |bs| ==> Holds(mnext, bs[i].addr, AddressAt(bs, i + 1)) && Holds(mlength, bs[i].addr, bs[i].len)
    ensures i < |bs| ==> lo <= bs[i].addr && 0 < bs[i].len && bs[i].addr + bs[i].len < 0x1_0000_0000
    ensures Before(bs, i) == MEMLIST <==> i == 0
  {
    hide Total;
    if i < |bs| { HeadersApart(bs, lo, i, i); }
    if i > 0 { HeadersApart(bs, lo, i - 1, i - 1); }
  }

  class FreeList {
    const minheap: int
    const maxheap: int
    // Header words by address; the list head's are at MEMLIST.
    var mnext: map<int, int>
    var mlength: map<int, int>
    ghost var blocks: seq<Block>

    ghost predicate Valid()
      reads this
    {
      0 < minheap && Canonical(blocks, minheap) && Linked(mnext, mlength, blocks)
    }

    /** A heap that is one free block; any other well-formed list serves as well. */
    constructor (minheap: int, maxheap: int, b: Block)
      requires 0 < minheap <= b.addr && 0 < b.len && b.addr + b.len < 0x1_0000_0000
      ensures Valid() && blocks == [b] && this.minheap == minheap && this.maxheap == maxheap
    {
      this.minheap := minheap;
      this.maxheap := maxheap;
      mnext := map[MEMLIST := b.addr, b.addr := 0];
      mlength := map[MEMLIST := b.len, b.addr := b.len];
      blocks := [b];
      new;
      TotalOne(b);
    }

    /** First fit: the request comes off the low end of the lowest block large enough. */
    method Getmem(nbytes: int) returns (r: Option<int>, ghost i: nat)
      requires Valid() && 0 <= nbytes < 0x1_0000_0000
      modifies this
      ensures Valid()
      ensures r.None? <==> nbytes == 0 || NoFit(old(blocks), RoundMb(nbytes))
      ensures r.None? ==> blocks == old(blocks)
      ensures r.Some? ==> FirstFit(old(blocks), RoundMb(nbytes), i) && r.value == old(blocks)[i].addr
      ensures r.Some? ==> blocks == TakeLow(old(blocks), i, RoundMb(nbytes))
    {
      hide Canonical, Total, TakeLow, Linked, RoundMb, U32;
      i := 0;
      if nbytes == 0 {
        return None, i;
      }
      var n := RoundMb(nbytes);
      Visit(mnext, mlength, blocks, minheap, 0);
      var prev, curr := MEMLIST, mnext[MEMLIST];
      while curr != 0
        invariant unchanged(this) && i <= |blocks| && curr == AddressAt(blocks, i) && prev == Before(blocks, i)
        invariant forall j :: 0 <= j < i ==> blocks[j].len < n
        invariant curr != 0 <==> i < |blocks|
        decreases |blocks| - i
      {
        Visit(mnext, mlength, blocks, minheap, i);
        if mlength[curr] == n {
          UnlinkLinked(mnext, mlength, blocks, minheap, i);
          TakeLowKeeps(blocks, minheap, i, n);
          mnext := mnext[prev := mnext[curr]];
          mlength := mlength[MEMLIST := mlength[MEMLIST] - n];
          blocks := TakeLow(blocks, i, n);
          return Some(curr), i;
        } else if mlength[curr] > n {
          ShrinkLowLinked(mnext, mlength, blocks, minheap, i, n);
          TakeLowKeeps(blocks, minheap, i, n);
          var leftover := U32(curr + n);
          var after, len := mnext[curr], mlength[curr];
          mnext := mnext[prev := leftover][leftover := after];
          mlength := mlength[leftover := len - n][MEMLIST := mlength[MEMLIST] - n];
          blocks := TakeLow(blocks, i, n);
          return Some(curr), i;
        } else {
          prev := curr;
          curr := mnext[curr];
          i := i + 1;
          Visit(mnext, mlength, blocks, minheap, i);
        }
      }
      return None, i;
    }

    /** Last fit: the stack comes off the high end of the highest block large enough. */
    method Getstk(nbytes: int) returns (r: Option<int>, ghost i: nat)
      requires Valid() && 0 <= nbytes < 0x1_0000_0000
      modifies this
      ensures Valid()
      ensures r.None? <==> nbytes == 0 || NoFit(old(blocks), RoundMb(nbytes))
      ensures r.None? ==> blocks == old(blocks)
      ensures r.Some? ==> LastFit(old(blocks), RoundMb(nbytes), i)
      ensures r.Some? ==> r.value == U32(old(blocks)[i].addr + old(blocks)[i].len - 4)
      ensures r.Some? ==> blocks == TakeHigh(old(blocks), i, RoundMb(nbytes))
    {
      hide Canonical, Total, TakeHigh, Linked, RoundMb, U32;
      i := 0;
      if nbytes == 0 {
        return None, i;
      }
      var n := RoundMb(nbytes);
      Visit(mnext, mlength, blocks, minheap, 0);
      var prev, curr := MEMLIST, mnext[MEMLIST];
      var fits, fitsprev := 0, 0;
      ghost var k: nat := 0;
      while curr != 0
        invariant unchanged(this) && k <= |blocks| && curr == AddressAt(blocks, k) && prev == Before(blocks, k)
        invariant curr != 0 <==> k < |blocks|
        invariant fits == 0 ==> forall j :: 0 <= j < k ==> blocks[j].len < n
        invariant fits != 0 ==> i < k && blocks[i].len >= n && fits == blocks[i].addr && fitsprev == Before(blocks, i)
        invariant fits != 0 ==> forall j :: i < j < k ==> blocks[j].len < n
        decreases |blocks| - k
      {
        Visit(mnext, mlength, blocks, minheap, k);
        if mlength[curr] >= n {
          fits := curr;
          fitsprev := prev;
          i := k;
        }
        prev := curr;
        curr := mnext[curr];
        k := k + 1;
        Visit(mnext, mlength, blocks, minheap, k);
      }
      if fits == 0 {
        return None, i;
      }
      assert LastFit(blocks, n, i);
      Visit(mnext, mlength, blocks, minheap, i);
      TakeHighKeeps(blocks, minheap, i, n);
      ghost var total := mlength[MEMLIST];
      if n == mlength[fits] {
        UnlinkLinked(mnext, mlength, blocks, minheap, i);
        mnext := mnext[fitsprev := mnext[fits]];
      } else {
        ShrinkHighLinked(mnext, mlength, blocks, minheap, i, n);
        mlength := mlength[fits := mlength[fits] - n];
        fits := U32(fits + mlength[fits]);
      }
      mlength := mlength[MEMLIST := mlength[MEMLIST] - n];
      blocks := TakeHigh(blocks, i, n);
      return Some(U32(fits + n - 4)), i;
    }

    /** What a header holds; memory that is no header of the list reads as zero. */
    function Peek(m: map<int, int>, a: int): int {
      if a in m then m[a] else 0
    }

    /** The end of freemem: the block joins the list between prev and next, coalesced with either.
        sound says that the 32-bit sums are the true ones. */
    method LinkIn(prev: int, next: int, blkaddr: int, n: int, top: int, ghost k: nat, ghost sound: bool)
      requires Valid() && k <= |blocks| && prev == Before(blocks, k) && next == AddressAt(blocks, k)
      requires sound ==> minheap <= blkaddr && 0 < n && blkaddr + n < 0x1_0000_0000 && Gap(blocks, k, blkaddr, n)
      requires sound ==> top == if k == 0 then 0 else blocks[k - 1].addr + blocks[k - 1].len
      modifies this
      ensures sound ==> Valid() && blocks == PutBack(old(blocks), k, blkaddr, n)
    {
      hide Canonical, Total, PutBack, Linked, U32, Relinked, Resized;
      Visit(mnext, mlength, blocks, minheap, k);
      if k > 0 { Visit(mnext, mlength, blocks, minheap, k - 1); }
      ghost var sizes, links := Resized(mlength, blocks, k, blkaddr, n), Relinked(mnext, blocks, k, blkaddr, n);
      if sound {
        PutBackLinked(mnext, mlength, blocks, minheap, k, blkaddr, n);
        PutBackSteps(mnext, mlength, blocks, minheap, k, blkaddr, n);
      }
      var block := blkaddr;
      mlength := mlength[MEMLIST := mlength[MEMLIST] + n];
      if top == block {
        mlength := mlength[prev := Peek(mlength, prev) + n];
        block := prev;
      } else {
        mnext := mnext[block := next];
        mlength := mlength[block := n];
        mnext := mnext[prev := block];
      }
      if U32(block + mlength[block]) == next {
        mlength := mlength[block := mlength[block] + Peek(mlength, next)];
        mnext := mnext[block := Peek(mnext, next)];
      }
      if sound {
        assert mlength == sizes;
        assert mnext == links;
        blocks := PutBack(blocks, k, blkaddr, n);
      }
    }

    /** Returns memory to the list, refusing a block that is outside the heap or touches a free one. */
    method Freemem(blkaddr: int, nbytes: int) returns (ok: bool, ghost k: nat)
      requires Valid() && 0 <= blkaddr < 0x1_0000_0000 && 0 <= nbytes < 0x1_0000_0000
      modifies this
      ensures !ok ==> mnext == old(mnext) && mlength == old(mlength) && blocks == old(blocks)
      ensures nbytes == 0 || !(minheap <= blkaddr <= maxheap) ==> !ok
      ensures nbytes > 0 && minheap <= blkaddr <= maxheap ==>
                FirstAfter(old(blocks), k, blkaddr) && (ok <==> Admits(old(blocks), k, blkaddr, RoundMb(nbytes)))
      ensures Sound(blkaddr, nbytes) ==> Valid()
      ensures Sound(blkaddr, nbytes) && nbytes > 0 && minheap <= blkaddr <= maxheap ==>
                (ok <==> !Overlaps(old(blocks), blkaddr, RoundMb(nbytes)))
      ensures ok && Sound(blkaddr, nbytes) ==> Gap(old(blocks), k, blkaddr, RoundMb(nbytes))
      ensures ok && Sound(blkaddr, nbytes) ==> blocks == PutBack(old(blocks), k, blkaddr, RoundMb(nbytes))
    {
      hide Canonical, Total, PutBack, Overlaps, Linked, RoundMb, U32, Relinked, Resized;
      k := 0;
      if nbytes == 0 || blkaddr < minheap || blkaddr > maxheap {
        return false, k;
      }
      var n := RoundMb(nbytes);
      var block := blkaddr;
      Visit(mnext, mlength, blocks, minheap, 0);
      var prev, next := MEMLIST, mnext[MEMLIST];
      while next != 0 && next < block
        invariant unchanged(this) && k <= |blocks| && next == AddressAt(blocks, k) && prev == Before(blocks, k)
        invariant next != 0 <==> k < |blocks|
        invariant k > 0 ==> prev < block
        decreases |blocks| - k
      {
        Visit(mnext, mlength, blocks, minheap, k);
        prev := next;
        next := mnext[next];
        k := k + 1;
        Visit(mnext, mlength, blocks, minheap, k);
      }
      Visit(mnext, mlength, blocks, minheap, k);
      if k > 0 { Visit(mnext, mlength, blocks, minheap, k - 1); }
      var top := if prev == MEMLIST then 0 else U32(prev + mlength[prev]);
      RoundCovers(nbytes);
      if Sound(blkaddr, nbytes) {
        GapIffDisjoint(blocks, minheap, k, blkaddr, n);
      }
      if (prev != MEMLIST && block < top) || (next != 0 && U32(block + n) > next) {
        return false, k;
      }
      LinkIn(prev, next, blkaddr, n, top, k, Sound(blkaddr, nbytes));
      ok := true;
    }

    /** The macro that turns a stack's top word back into a block and frees it. */
    method Freestk(p: int, len: int) returns (ok: bool, ghost a: int, ghost k: nat)
      requires Valid() && 0 <= p < 0x1_0000_0000 && 0 <= len < 0x1_0000_0000
      modifies this
      ensures a == U32(U32(p - RoundMb(len)) + 4)
      ensures !ok ==> mnext == old(mnext) && mlength == old(mlength) && blocks == old(blocks)
      ensures RoundMb(len) == 0 || !(minheap <= a <= maxheap) ==> !ok
      ensures RoundMb(len) > 0 && minheap <= a <= maxheap ==>
                FirstAfter(old(blocks), k, a) && (ok <==> Admits(old(blocks), k, a, RoundMb(len)))
      ensures Sound(a, RoundMb(len)) ==> Valid()
      ensures Sound(a, RoundMb(len)) && RoundMb(len) > 0 && minheap <= a <= maxheap ==>
                (ok <==> !Overlaps(old(blocks), a, RoundMb(len)))
      ensures ok && Sound(a, RoundMb(len)) ==> Gap(old(blocks), k, a, RoundMb(len))
      ensures ok && Sound(a, RoundMb(len)) ==> blocks == PutBack(old(blocks), k, a, RoundMb(len))
    {
      hide Canonical, Total, PutBack, Overlaps, Linked, RoundMb, U32, Gap;
      RoundAgain(len);
      a := U32(U32(p - RoundMb(len)) + 4);
      ok, k := Freemem(U32(U32(p - RoundMb(len)) + 4), RoundMb(len));
    }
  }
}
