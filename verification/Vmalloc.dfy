/** Virtual memory allocation: first fit over 12288 pages whose free bits are
    spread over three bit planes of four page tables. */
module Vmalloc {
  datatype Bits = Bits(avail: bool, avail2: bool, avail3: bool)

  type Tables = t: seq<seq<Bits>> | |t| == 4 && forall i :: 0 <= i < 4 ==> |t[i]| == 1024
    witness seq(4, _ => seq(1024, _ => Bits(true, true, true)))

  const SPACE: nat := 12288
  const WORD: int := 0x1_0000_0000
  const SYSERR: int := -1

  /** The page table that scan index i (0 to 11) looks at. */
  function TempI(i: nat): (t: nat)
    requires i < 12
    ensures t < 4
  {
    if i < 4 then i else if i < 8 then i - 4 else i - 8
  }

  function CheckBit(b: Bits, i: nat): bool {
    if i < 4 then b.avail else if i < 8 then b.avail2 else b.avail3
  }

  function ClearBit(b: Bits, i: nat): Bits {
    if i < 4 then b.(avail := false) else if i < 8 then b.(avail2 := false) else b.(avail3 := false)
  }

  /** Is page k of the flattened space free? */
  predicate Free(t: Tables, k: nat)
    requires k < 12288
  {
    CheckBit(t[TempI(k / 1024)][k % 1024], k / 1024)
  }

  predicate AllFree(t: Tables, lo: nat, hi: nat)
    requires hi <= 12288
  {
    forall k :: lo <= k < hi ==> Free(t, k)
  }

  function Cleared(t: Tables, i: nat, j: nat): Tables
    requires i < 12 && j < 1024
  {
    t[TempI(i) := t[TempI(i)][j := ClearBit(t[TempI(i)][j], i)]]
  }

  /** Clearing one bit takes exactly one page, although other planes share the
      page-table entry. */
  lemma ClearOne(t: Tables, i: nat, j: nat)
    requires i < 12 && j < 1024
    ensures forall k :: 0 <= k < 12288 ==> (Free(Cleared(t, i, j), k) <==> Free(t, k) && k != 1024 * i + j)
  {
    forall k | 0 <= k < 12288 ensures Free(Cleared(t, i, j), k) <==> Free(t, k) && k != 1024 * i + j {
      if k / 1024 == i && k % 1024 == j {
        assert k == 1024 * i + j;
      }
    }
  }

  /** How many pages from lo up to hi are free. */
  function Count(t: Tables, lo: nat, hi: nat): (n: nat)
    requires lo <= hi <= 12288
    ensures n <= hi - lo
  {
    if lo == hi then 0 else Count(t, lo, hi - 1) + if Free(t, hi - 1) then 1 else 0
  }

  lemma {:induction false} CountAfter(t: Tables, w: Tables, s: nat, e: nat, lo: nat, hi: nat)
    requires lo <= hi <= 12288 && s <= e <= 12288
    requires forall k :: 0 <= k < 12288 ==> (Free(w, k) <==> Free(t, k) && !(s <= k < e))
    requires AllFree(t, s, e)
    ensures Count(w, lo, hi) == Count(t, lo, hi) - Overlap(s, e, lo, hi)
  {
    if lo < hi {
      CountAfter(t, w, s, e, lo, hi - 1);
    }
  }

  function Max(a: int, b: int): int { if a < b then b else a }
  function Min(a: int, b: int): int { if a < b then a else b }

  /** How many of the pages s..e lie between lo and hi. */
  function Overlap(s: nat, e: nat, lo: nat, hi: nat): int { Max(0, Min(e, hi) - Max(s, lo)) }

  /** A free run of n pages from page r. */
  predicate RunAt(t: Tables, r: nat, n: nat) {
    r + n <= 12288 && AllFree(t, r, r + n)
  }

  /** First fit: [s, s + n) is free and no lower run of n pages is. */
  ghost predicate LowestRun(t: Tables, n: nat, s: nat) {
    && RunAt(t, s, n)
    && forall r :: 0 <= r < s ==> !RunAt(t, r, n)
  }

  ghost predicate NoRun(t: Tables, n: nat) {
    forall r: nat :: r + n <= 12288 ==> !RunAt(t, r, n)
  }

  function NumPages(nbytes: nat): nat { nbytes / 4096 + if nbytes % 4096 != 0 then 1 else 0 }

  /** The pages hold the bytes asked for, and one page fewer would not. */
  lemma PagesHold(nbytes: nat)
    ensures nbytes <= 4096 * NumPages(nbytes)
    ensures nbytes > 0 ==> NumPages(nbytes) > 0 && 4096 * (NumPages(nbytes) - 1) < nbytes
  {
    assert nbytes == 4096 * (nbytes / 4096) + nbytes % 4096;
  }

  /** What the answer r to a request says, and what it does to the pages. */
  ghost predicate Answered(t: Tables, nbytes: nat, r: int, w: Tables) {
    if nbytes > 0 then
      if NoRun(t, NumPages(nbytes)) then r == SYSERR && w == t
      else exists s: nat :: r == (5120 + s) * 4096 && LowestRun(t, NumPages(nbytes), s)
                            && Marked(t, w, s, s + NumPages(nbytes))
    else if !Free(t, 0) || AllFree(t, 0, 12288) then r == SYSERR && w == t
    else r == 5120 * 4096 && exists m: nat :: 0 < m < 12288 && AllFree(t, 0, m) && !Free(t, m) && Marked(t, w, 0, m)
  }

  /** The bookkeeping of a process: page counts equal the free bits of the planes. */
  class Space {
    var tables: Tables
    var heapSize: int
    var swapSize: int

    ghost predicate Counted()
      reads this
    {
      heapSize == Count(tables, 0, 4096) && swapSize == Count(tables, 4096, 12288)
    }

    /** A new process has every page free. */
    constructor ()
      ensures Counted() && AllFree(tables, 0, 12288)
    {
      tables := seq(4, _ => seq(1024, _ => Bits(true, true, true)));
      heapSize, swapSize := 4096, 8192;
      new;
      CountAll(tables, 0, 4096);
      CountAll(tables, 4096, 12288);
    }

    /** The scan.  A hit ends at page 1024 * i + j and started at 1024 * si + sj. */
    method Search(num: nat) returns (i: nat, j: nat, cnt: nat, curr: int, si: nat, sj: nat)
      ensures curr != -1 && cnt == num ==> Hit(tables, num, i, j, curr, si, sj)
      ensures curr == -1 || cnt != num ==> Miss(tables, num)
    {
      hide Scanned, Hit, Miss, Free;
      var flag := 0;
      i, j, cnt, curr, si, sj := 0, 0, 0, -1, 0, 0;
      ScanStart(tables, num);
      while i < 12
        invariant 0 <= i <= 12
        invariant Scanned(tables, num, 1024 * i, flag, cnt, curr, si, sj)
      {
        var tempI := TempI(i);
        j := 0;
        while j < 1024
          invariant 0 <= j <= 1024
          invariant Scanned(tables, num, 1024 * i + j, flag, cnt, curr, si, sj)
        {
          var checkBit := CheckBit(tables[tempI][j], i);
          ScanStep(tables, num, flag, cnt, curr, si, sj, i, j);
          if flag == 0 {
            if checkBit {
              si, sj := i, j;
              curr := (i + 5) * 1024 + j;
              flag := 1;
              cnt := cnt + 1;
            }
          } else if checkBit {
            cnt := cnt + 1;
          } else {
            flag := 0;
            cnt := 0;
          }
          if cnt == num {
            return;
          }
          j := j + 1;
        }
        i := i + 1;
      }
      ScanEnd(tables, num, flag, cnt, curr, si, sj);
    }

    /** Take the pages from (si, sj) to (ci, cj), both included, and charge them. */
    method Mark(si: nat, sj: nat, ci: nat, cj: nat)
      requires ci < 12 && cj < 1024 && sj < 1024 && 1024 * si + sj <= 1024 * ci + cj
      requires 0 <= heapSize < WORD && 0 <= swapSize < WORD
      modifies this
      ensures Marked(old(tables), tables, 1024 * si + sj, 1024 * ci + cj + 1)
      ensures heapSize == Wrap(old(heapSize) - Overlap(1024 * si + sj, 1024 * ci + cj + 1, 0, 4096))
      ensures swapSize == Wrap(old(swapSize) - Overlap(1024 * si + sj, 1024 * ci + cj + 1, 4096, 12288))
    {
      hide Free, Cleared, Marked, Overlap, Wrap;
      ghost var s := 1024 * si + sj;
      MarkedNothing(tables, s);
      WrapSmall(heapSize);
      WrapSmall(swapSize);
      var i := si;
      while i <= ci
        invariant si <= i <= ci + 1
        invariant Charged(old(tables), old(heapSize), old(swapSize), tables, heapSize, swapSize, s,
                          if i == si then s else if i > ci then 1024 * ci + cj + 1 else 1024 * i)
      {
        var startCj := if i == si then sj else 0;
        var lastCj := if i == ci then cj + 1 else 1024;
        var j := startCj;
        while j < lastCj
          invariant startCj <= j <= lastCj
          invariant Charged(old(tables), old(heapSize), old(swapSize), tables, heapSize, swapSize, s, 1024 * i + j)
        {
          ClearOne(tables, i, j);
          ChargeOne(old(tables), old(heapSize), old(swapSize), tables, heapSize, swapSize, s, i, j);
          tables := Cleared(tables, i, j);
          if i < 4 {
            heapSize := Wrap(heapSize - 1);
          } else {
            swapSize := Wrap(swapSize - 1);
          }
          j := j + 1;
        }
        i := i + 1;
      }
    }

    /** Allocate whole pages for `nbytes` bytes: the lowest free run, or SYSERR if
        there is none.  A request for no bytes is another matter: if the space
        begins with a free run that does not fill it, all of that run is taken and
        one page too many charged. */
    method Vmalloc(nbytes: nat) returns (r: int)
      requires Sizes(heapSize, swapSize)
      modifies this
      ensures Sizes(heapSize, swapSize)
      ensures Answered(old(tables), nbytes, r, tables)
      ensures r == SYSERR ==> heapSize == old(heapSize) && swapSize == old(swapSize)
      ensures old(Counted()) ==> (Counted() <==> nbytes > 0 || r == SYSERR)
    {
      hide Free, Marked, LowestRun, Count, Overlap, Wrap;
      var num := nbytes / 4096;
      if nbytes % 4096 != 0 {
        num := num + 1;
      }
      assert num == NumPages(nbytes);
      var ci, cj, cnt, curr, si, sj := Search(num);
      if curr == -1 || cnt != num {
        return SYSERR;
      }
      ghost var t, s := tables, 1024 * si + sj;
      ghost var n := 1024 * ci + cj;
      HitMeans(t, num, ci, cj, curr, si, sj);
      Mark(si, sj, ci, cj);
      if num > 0 {
        CountsFollow(t, tables, s, n + 1);
      } else {
        MarkedTaken(t, tables, n);
        CountsWrong(t, tables, n);
      }
      r := curr * 4096;
    }
  }

  lemma HitMeans(t: Tables, num: nat, i: nat, j: nat, curr: int, si: nat, sj: nat)
    requires Hit(t, num, i, j, curr, si, sj)
    ensures var s, n := 1024 * si + sj, 1024 * i + j;
            && s <= n && n < 12288 && AllFree(t, s, if num > 0 then n + 1 else n)
            && (num > 0 ==> !NoRun(t, num))
            && (num == 0 ==> Free(t, 0) && !AllFree(t, 0, 12288))
  {
  }

  lemma MarkedTaken(t: Tables, w: Tables, m: nat)
    requires m < 12288 && Marked(t, w, 0, m + 1) && !Free(t, m)
    ensures Marked(t, w, 0, m)
  {
  }

  /** Arithmetic on an unsigned 32-bit counter. */
  function Wrap(x: int): (w: int)
    ensures 0 <= w < WORD
  {
    x % WORD
  }

  lemma WrapSmall(x: int)
    requires 0 <= x < WORD
    ensures Wrap(x) == x
  {
  }

  lemma WrapMinus(x: int)
    ensures Wrap(Wrap(x) - 1) == Wrap(x - 1)
  {
  }

  lemma OverlapMore(s: nat, n: nat, lo: nat, hi: nat)
    requires s <= n && lo <= hi
    ensures Overlap(s, n + 1, lo, hi) == Overlap(s, n, lo, hi) + if lo <= n < hi then 1 else 0
    ensures Overlap(s, s, lo, hi) == 0
  {
  }

  ghost predicate Charged(t: Tables, heap: int, swap: int, w: Tables, heap': int, swap': int, s: nat, n: nat) {
    && Marked(t, w, s, n)
    && heap' == Wrap(heap - Overlap(s, n, 0, 4096))
    && swap' == Wrap(swap - Overlap(s, n, 4096, 12288))
  }

  lemma ChargeOne(t: Tables, heap: int, swap: int, w: Tables, heap': int, swap': int, s: nat, i: nat, j: nat)
    requires i < 12 && j < 1024 && s <= 1024 * i + j && Charged(t, heap, swap, w, heap', swap', s, 1024 * i + j)
    requires forall k :: 0 <= k < 12288 ==> (Free(Cleared(w, i, j), k) <==> Free(w, k) && k != 1024 * i + j)
    ensures Charged(t, heap, swap, Cleared(w, i, j), if i < 4 then Wrap(heap' - 1) else heap',
                    if i < 4 then swap' else Wrap(swap' - 1), s, 1024 * i + j + 1)
  {
    hide Free, Cleared, Overlap, Wrap;
    var n := 1024 * i + j;
    OverlapMore(s, n, 0, 4096);
    OverlapMore(s, n, 4096, 12288);
    WrapMinus(heap - Overlap(s, n, 0, 4096));
    WrapMinus(swap - Overlap(s, n, 4096, 12288));
  }

  lemma MarkedNothing(t: Tables, s: nat)
    ensures Marked(t, t, s, s) && Overlap(s, s, 0, 4096) == 0 && Overlap(s, s, 4096, 12288) == 0
  {
  }

  /** Pages s..n are taken and the rest are as before. */
  ghost predicate Marked(t: Tables, w: Tables, s: nat, n: nat) {
    forall k :: 0 <= k < 12288 ==> (Free(w, k) <==> Free(t, k) && !(s <= k < n))
  }

  ghost predicate Sizes(heap: int, swap: int) { 0 <= heap < WORD && 0 <= swap < WORD }

  /** Charging exactly the pages taken keeps the counts right. */
  lemma CountsFollow(t: Tables, w: Tables, s: nat, e: nat)
    requires s <= e <= 12288 && Marked(t, w, s, e) && AllFree(t, s, e)
    ensures Count(w, 0, 4096) == Count(t, 0, 4096) - Overlap(s, e, 0, 4096) == Wrap(Count(t, 0, 4096) - Overlap(s, e, 0, 4096))
    ensures Count(w, 4096, 12288) == Count(t, 4096, 12288) - Overlap(s, e, 4096, 12288)
                                  == Wrap(Count(t, 4096, 12288) - Overlap(s, e, 4096, 12288))
  {
    hide Overlap, Wrap, Free, Count;
    CountAfter(t, w, s, e, 0, 4096);
    CountAfter(t, w, s, e, 4096, 12288);
    WrapSmall(Count(w, 0, 4096));
    WrapSmall(Count(w, 4096, 12288));
  }

  /** Charging one page too many makes one of the counts wrong. */
  lemma CountsWrong(t: Tables, w: Tables, e: nat)
    requires e < 12288 && Marked(t, w, 0, e) && AllFree(t, 0, e)
    ensures Count(w, 0, 4096) != Wrap(Count(t, 0, 4096) - Overlap(0, e + 1, 0, 4096))
         || Count(w, 4096, 12288) != Wrap(Count(t, 4096, 12288) - Overlap(0, e + 1, 4096, 12288))
  {
    hide Overlap, Wrap, Free, Count;
    CountsFollow(t, w, 0, e);
    OverlapMore(0, e, 0, 4096);
    OverlapMore(0, e, 4096, 12288);
    WrapDiffers(Count(w, 0, 4096));
    WrapDiffers(Count(w, 4096, 12288));
  }

  lemma WrapDiffers(x: int)
    requires 0 <= x < WORD
    ensures Wrap(x - 1) != x
  {
  }

  /** A successful scan found the lowest run; asked for no page at all, it stops
      at the first taken page after the free run that the space begins with. */
  ghost predicate Hit(t: Tables, num: nat, i: nat, j: nat, curr: int, si: nat, sj: nat) {
    && i < 12 && j < 1024 && si < 12 && sj < 1024 && curr == 5120 + 1024 * si + sj
    && (num > 0 ==> 1024 * si + sj + num == 1024 * i + j + 1 && LowestRun(t, num, 1024 * si + sj))
    && (num == 0 ==> si == sj == 0 && 1024 * i + j > 0 && AllFree(t, 0, 1024 * i + j) && !Free(t, 1024 * i + j))
  }

  ghost predicate Miss(t: Tables, num: nat) {
    && (num > 0 ==> NoRun(t, num))
    && (num == 0 ==> !Free(t, 0) || AllFree(t, 0, 12288))
  }

  lemma ScanStart(t: Tables, num: nat)
    ensures Scanned(t, num, 0, 0, 0, -1, 0, 0)
  {
  }

  lemma ScanEnd(t: Tables, num: nat, flag: int, cnt: nat, curr: int, si: nat, sj: nat)
    requires Scanned(t, num, 12288, flag, cnt, curr, si, sj)
    ensures Miss(t, num) && (curr == -1 || cnt != num)
  {
  }

  /** Looking at one more page either ends the scan or keeps what it knows. */
  lemma ScanStep(t: Tables, num: nat, flag: int, cnt: nat, curr: int, si: nat, sj: nat, i: nat, j: nat)
    requires i < 12 && j < 1024 && Scanned(t, num, 1024 * i + j, flag, cnt, curr, si, sj)
    ensures flag == 0 || flag == 1
    ensures var free := CheckBit(t[TempI(i)][j], i);
            var si', sj' := if flag == 0 && free then i else si, if flag == 0 && free then j else sj;
            var curr' := if flag == 0 && free then (i + 5) * 1024 + j else curr;
            var cnt' := if free then cnt + 1 else 0;
            if cnt' != num then Scanned(t, num, 1024 * i + j + 1, if free then 1 else 0, cnt', curr', si', sj')
            else if curr' == -1 then Miss(t, num) else Hit(t, num, i, j, curr', si', sj')
    ensures flag == 0 ==> cnt == 0
  {
    hide Free, RunAt, LowestRun, CheckBit, TempI;
    BitIsFree(t, i, j);
    NoNewRun(t, num, 1024 * i + j, flag, cnt, curr, si, sj);
  }

  lemma BitIsFree(t: Tables, i: nat, j: nat)
    requires i < 12 && j < 1024
    ensures CheckBit(t[TempI(i)][j], i) == Free(t, 1024 * i + j)
  {
  }

  /** A run that ends with page n would have to contain a page known to be taken,
      unless it is the run being counted and that is now long enough. */
  lemma NoNewRun(t: Tables, num: nat, n: nat, flag: int, cnt: nat, curr: int, si: nat, sj: nat)
    requires n < 12288 && Scanned(t, num, n, flag, cnt, curr, si, sj)
    ensures num > 0 && !(Free(t, n) && cnt + 1 == num) ==> forall r: nat :: r + num <= n + 1 ==> !RunAt(t, r, num)
    ensures num > 0 && Free(t, n) && cnt + 1 == num ==> LowestRun(t, num, n + 1 - num)
  {
    if num > 0 {
      if Free(t, n) {
        var s := if flag == 1 then 1024 * si + sj else n;
        forall r: nat | r + num <= n + 1 && r < s ensures !RunAt(t, r, num) {
          if r + num == n + 1 {
            assert !Free(t, s - 1);
          }
        }
      } else {
        forall r: nat | r + num <= n + 1 ensures !RunAt(t, r, num) {
          if r + num == n + 1 {
            assert !AllFree(t, r, r + num);
          }
        }
      }
    }
  }

  lemma {:induction false} CountAll(t: Tables, lo: nat, hi: nat)
    requires lo <= hi <= 12288 && AllFree(t, lo, hi)
    ensures Count(t, lo, hi) == hi - lo
  {
    if lo < hi {
      CountAll(t, lo, hi - 1);
    }
  }

  /** What the scan knows before it looks at page n. */
  ghost predicate Scanned(t: Tables, num: nat, n: nat, flag: int, cnt: nat, curr: int, si: nat, sj: nat) {
    && n <= 12288
    && (forall r: nat :: r + num <= n && num > 0 ==> !RunAt(t, r, num))
    && (flag == 0 || flag == 1)
    && (flag == 0 ==> cnt == 0 && (n > 0 ==> !Free(t, n - 1)) && (num == 0 ==> n == 0) && (n == 0 ==> curr == -1))
    && (flag == 1 ==>
          && si < 12 && sj < 1024 && curr == 5120 + 1024 * si + sj
          && (var s := 1024 * si + sj;
              && s + cnt == n && cnt > 0 && (cnt < num || num == 0) && AllFree(t, s, n)
              && (s > 0 ==> !Free(t, s - 1)) && (num == 0 ==> s == 0)))
  }

  /** A space that begins with one free page and a taken one: a request for no
      bytes succeeds here and takes page 0, although nothing was asked for. */
  lemma ZeroBytesExample(t: Tables, r: int, w: Tables)
    requires t[0][0].avail && !t[0][1].avail && Answered(t, 0, r, w)
    ensures r == 5120 * 4096 && Free(t, 0) && !Free(w, 0)
  {
    assert !Free(t, 1);
  }

  /** Allocated regions: first page and number of pages. */
  datatype Region = Region(start: nat, pages: nat)

  ghost predicate Disjoint(rs: seq<Region>) {
    forall i, j :: 0 <= i < j < |rs| ==>
      rs[i].start + rs[i].pages <= rs[j].start || rs[j].start + rs[j].pages <= rs[i].start
      || rs[i].pages == 0 || rs[j].pages == 0
  }

  ghost predicate Taken(t: Tables, rs: seq<Region>) {
    forall i :: 0 <= i < |rs| ==> RegionTaken(t, rs[i])
  }

  ghost predicate RegionTaken(t: Tables, r: Region) {
    r.start + r.pages <= 12288 && forall k :: r.start <= k < r.start + r.pages ==> !Free(t, k)
  }

  /** The regions that the requests were given; a request that was refused, or asked for nothing,
      has an empty one. */
  function RegionsOf(requests: seq<nat>, results: seq<int>): seq<Region>
    requires |requests| == |results|
  {
    seq(|requests|, i requires 0 <= i < |requests| => RegionGiven(requests[i], results[i]))
  }

  predicate Granted(nbytes: nat, r: int) { nbytes > 0 && r >= 5120 * 4096 }

  function RegionGiven(nbytes: nat, r: int): Region {
    if Granted(nbytes, r) then Region(r / 4096 - 5120, NumPages(nbytes)) else Region(0, 0)
  }

  lemma RegionAdded(t: Tables, w: Tables, rs: seq<Region>, r: Region)
    requires Taken(t, rs) && Disjoint(rs) && r.start + r.pages <= 12288 && AllFree(t, r.start, r.start + r.pages)
    requires Marked(t, w, r.start, r.start + r.pages)
    ensures Taken(w, rs + [r]) && Disjoint(rs + [r])
  {
    hide Free;
    TakenMore(t, w, rs, r.start, r.start + r.pages);
    forall i | 0 <= i < |rs| && rs[i].pages > 0 && r.pages > 0
      ensures rs[i].start + rs[i].pages <= r.start || r.start + r.pages <= rs[i].start
    {
      var k := Max(rs[i].start, r.start);
      assert RegionTaken(t, rs[i]);
      assert rs[i].start <= k < rs[i].start + rs[i].pages ==> !Free(t, k);
      assert r.start <= k < r.start + r.pages ==> Free(t, k);
    }
  }

  lemma TakenMore(t: Tables, w: Tables, rs: seq<Region>, s: nat, e: nat)
    requires Taken(t, rs) && Marked(t, w, s, e)
    ensures Taken(w, rs)
  {
    hide Free;
    forall i | 0 <= i < |rs| ensures RegionTaken(w, rs[i]) {
      assert RegionTaken(t, rs[i]);
    }
  }

  /** One more answer keeps the regions given out disjoint and taken. */
  lemma AnswerKeeps(t: Tables, nbytes: nat, r: int, w: Tables, rs: seq<Region>)
    requires Answered(t, nbytes, r, w) && Taken(t, rs) && Disjoint(rs)
    ensures Taken(w, rs + [RegionGiven(nbytes, r)]) && Disjoint(rs + [RegionGiven(nbytes, r)])
  {
    hide Free, Marked, Disjoint, RunAt, AllFree, RegionTaken;
    if r == SYSERR {
      NothingAdded(w, rs);
    } else if nbytes > 0 {
      var s: nat :| r == (5120 + s) * 4096 && LowestRun(t, NumPages(nbytes), s) && Marked(t, w, s, s + NumPages(nbytes));
      LowestIsFree(t, NumPages(nbytes), s);
      RegionAdded(t, w, rs, Region(s, NumPages(nbytes)));
    } else {
      var m: nat :| 0 < m < 12288 && Marked(t, w, 0, m);
      TakenMore(t, w, rs, 0, m);
      NothingAdded(w, rs);
    }
  }

  lemma NothingAdded(t: Tables, rs: seq<Region>)
    requires Taken(t, rs) && Disjoint(rs)
    ensures Taken(t, rs + [Region(0, 0)]) && Disjoint(rs + [Region(0, 0)])
  {
    hide Free;
    assert RegionTaken(t, Region(0, 0));
  }

  /** Where an answer points: to the start of a page of the space, or nowhere. */
  lemma AnswerAligned(t: Tables, nbytes: nat, r: int, w: Tables)
    requires Answered(t, nbytes, r, w)
    ensures r == SYSERR || (r >= 5120 * 4096 && r % 4096 == 0)
  {
    hide Free, Marked, LowestRun;
    if r != SYSERR && nbytes > 0 {
      var s: nat :| r == (5120 + s) * 4096;
    }
  }

  /** Every byte from r up to r + n lies in a page of the space that is taken. */
  ghost predicate BytesTaken(t: Tables, r: int, n: nat) {
    forall b :: r <= b < r + n ==> 5120 * 4096 <= b < 17408 * 4096 && !Free(t, b / 4096 - 5120)
  }

  lemma RegionBytes(t: Tables, nbytes: nat, r: int)
    requires Granted(nbytes, r) && r % 4096 == 0 && RegionTaken(t, RegionGiven(nbytes, r))
    ensures BytesTaken(t, r, nbytes)
  {
    hide Free, NumPages;
    PagesHold(nbytes);
    forall b | r <= b < r + nbytes ensures 5120 * 4096 <= b < 17408 * 4096 && !Free(t, b / 4096 - 5120) {
      assert r / 4096 <= b / 4096 < r / 4096 + NumPages(nbytes);
    }
  }

  /** Regions that share no page share no byte. */
  lemma BytesApart(n: nat, r: int, m: nat, q: int)
    requires Granted(n, r) && r % 4096 == 0 && Granted(m, q) && q % 4096 == 0
    requires var a, b := RegionGiven(n, r), RegionGiven(m, q);
             a.start + a.pages <= b.start || b.start + b.pages <= a.start || a.pages == 0 || b.pages == 0
    ensures r + n <= q || q + m <= r
  {
    hide NumPages;
    PagesHold(n);
    PagesHold(m);
  }

  lemma LowestIsFree(t: Tables, n: nat, s: nat)
    requires LowestRun(t, n, s)
    ensures s + n <= 12288 && AllFree(t, s, s + n)
  {
  }

  /** The bytes granted to different requests do not overlap, and all of them are in taken pages. */
  ghost predicate BytesKept(t: Tables, requests: seq<nat>, results: seq<int>)
    requires |requests| == |results|
  {
    && (forall i :: 0 <= i < |requests| && requests[i] > 0 && results[i] != SYSERR ==> BytesTaken(t, results[i], requests[i]))
    && (forall i, j :: 0 <= i < j < |requests| && requests[i] > 0 && requests[j] > 0 && results[i] != SYSERR && results[j] != SYSERR ==>
          results[i] + requests[i] <= results[j] || results[j] + requests[j] <= results[i])
  }

  lemma RegionsInBytes(t: Tables, requests: seq<nat>, results: seq<int>)
    requires |requests| == |results| && Disjoint(RegionsOf(requests, results)) && Taken(t, RegionsOf(requests, results))
    requires forall i :: 0 <= i < |results| ==> results[i] == SYSERR || (results[i] >= 5120 * 4096 && results[i] % 4096 == 0)
    ensures BytesKept(t, requests, results)
  {
    hide RegionGiven, RegionTaken, BytesTaken, Free;
    var rs := RegionsOf(requests, results);
    forall i | 0 <= i < |requests| && requests[i] > 0 && results[i] != SYSERR ensures BytesTaken(t, results[i], requests[i]) {
      assert RegionTaken(t, rs[i]);
      RegionBytes(t, requests[i], results[i]);
    }
    forall i, j | 0 <= i < j < |requests| && requests[i] > 0 && requests[j] > 0 && results[i] != SYSERR && results[j] != SYSERR
      ensures results[i] + requests[i] <= results[j] || results[j] + requests[j] <= results[i]
    {
      assert rs[i] == RegionGiven(requests[i], results[i]) && rs[j] == RegionGiven(requests[j], results[j]);
      BytesApart(requests[i], results[i], requests[j], results[j]);
    }
  }

  /** Over any run each request is answered from the pages as the requests before
      it left them, the bytes given out are disjoint and in taken pages, and as long
      as no request is for zero bytes the page counts stay exact.  `ts` are the page tables
      between the requests. */
  method Run(space: Space, requests: seq<nat>) returns (results: seq<int>, ghost ts: seq<Tables>)
    requires Sizes(space.heapSize, space.swapSize) && space.Counted()
    modifies space
    ensures |results| == |requests| && |ts| == |requests| + 1
    ensures ts[0] == old(space.tables) && ts[|requests|] == space.tables
    ensures forall i :: 0 <= i < |requests| ==> Answered(ts[i], requests[i], results[i], ts[i + 1])
    ensures Disjoint(RegionsOf(requests, results)) && Taken(space.tables, RegionsOf(requests, results))
    ensures BytesKept(space.tables, requests, results)
    ensures (forall i :: 0 <= i < |requests| ==> requests[i] > 0) ==> space.Counted()
  {
    hide Answered, RegionTaken, Count, RegionGiven;
    results, ts := [], [space.tables];
    var i := 0;
    while i < |requests|
      invariant 0 <= i <= |requests| && Sizes(space.heapSize, space.swapSize)
      invariant |results| == i && |ts| == i + 1 && ts[0] == old(space.tables) && ts[i] == space.tables
      invariant forall k :: 0 <= k < i ==> Answered(ts[k], requests[k], results[k], ts[k + 1])
      invariant Disjoint(RegionsOf(requests[..i], results)) && Taken(space.tables, RegionsOf(requests[..i], results))
      invariant forall k :: 0 <= k < i ==> results[k] == SYSERR || (results[k] >= 5120 * 4096 && results[k] % 4096 == 0)
      invariant (forall k :: 0 <= k < i ==> requests[k] > 0) ==> space.Counted()
    {
      var r := space.Vmalloc(requests[i]);
      AnswerKeeps(ts[i], requests[i], r, space.tables, RegionsOf(requests[..i], results));
      AnswerAligned(ts[i], requests[i], r, space.tables);
      assert RegionsOf(requests[..i + 1], results + [r]) == RegionsOf(requests[..i], results) + [RegionGiven(requests[i], r)];
      results, ts := results + [r], ts + [space.tables];
      i := i + 1;
    }
    assert requests[..i] == requests;
    RegionsInBytes(space.tables, requests, results);
  }
}
