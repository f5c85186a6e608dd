/** The kernel heap: one address-ordered list of free blocks, taken from the low end for heap
    requests and from the high end for stacks, and coalesced on both sides when memory returns. */
module Heap {
  // A free block and its length in bytes.
  datatype Block = Block(addr: int, len: int)

  datatype Option<T> = None | Some(value: T)

  /** 32-bit unsigned arithmetic. */
  function U32(x: int): (r: int)
    ensures 0 <= r < 0x1_0000_0000
    ensures 0 <= x < 0x1_0000_0000 ==> r == x
  {
    x % 0x1_0000_0000
  }

  /** Rounds up to a multiple of the block header's size; the sum wraps. */
  function RoundMb(x: int): (r: int)
    requires 0 <= x < 0x1_0000_0000
    ensures r % 8 == 0 && 0 <= r < 0x1_0000_0000
  {
    U32(x + 7) / 8 * 8
  }

  /** The rounded size covers the request exactly when the sum does not wrap. */
  lemma RoundCovers(x: int)
    requires 0 <= x < 0x1_0000_0000
    ensures x <= RoundMb(x) <==> x <= 0xFFFF_FFF8
    ensures x <= 0xFFFF_FFF8 ==> RoundMb(x) < x + 8
    ensures x > 0xFFFF_FFF8 ==> RoundMb(x) == 0
  {
  }

  lemma RoundAgain(x: int)
    requires 0 <= x < 0x1_0000_0000
    ensures RoundMb(RoundMb(x)) == RoundMb(x) <= 0xFFFF_FFF8
  {
  }

  /** Sorted by address, disjoint, never adjacent, inside 32-bit addresses. */
  ghost predicate Canonical(bs: seq<Block>, lo: int) {
    && (forall i :: 0 <= i < |bs| ==> lo <= bs[i].addr && 0 < bs[i].len && bs[i].addr + bs[i].len < 0x1_0000_0000)
    && (forall i, j :: 0 <= i < j < |bs| ==> bs[i].addr + bs[i].len < bs[j].addr)
  }

  predicate Multiple(x: int) {
    x % 8 == 0
  }

  ghost predicate Aligned(bs: seq<Block>) {
    forall i :: 0 <= i < |bs| ==> Multiple(bs[i].addr) && Multiple(bs[i].len)
  }

  predicate Within(b: Block, x: int) {
    b.addr <= x < b.addr + b.len
  }

  /** x is a free byte. */
  ghost predicate Covers(bs: seq<Block>, x: int) {
    exists i :: 0 <= i < |bs| && Within(bs[i], x)
  }

  ghost predicate Overlaps(bs: seq<Block>, a: int, n: int) {
    exists i :: 0 <= i < |bs| && bs[i].addr < a + n && a < bs[i].addr + bs[i].len
  }

  function Total(bs: seq<Block>): int {
    if |bs| == 0 then 0 else bs[0].len + Total(bs[1..])
  }

  lemma {:induction false} TotalConcat(a: seq<Block>, b: seq<Block>)
    ensures Total(a + b) == Total(a) + Total(b)
  {
    if |a| == 0 {
      assert a + b == b;
    } else {
      assert (a + b)[1..] == a[1..] + b;
      TotalConcat(a[1..], b);
    }
  }

  /** Free lists with the same bytes are the same list. */
  lemma {:induction false} CanonicalUnique(a: seq<Block>, b: seq<Block>, lo: int)
    requires Canonical(a, lo) && Canonical(b, lo)
    requires forall x :: Covers(a, x) <==> Covers(b, x)
    ensures a == b
    decreases |a|
  {
    if |a| == 0 || |b| == 0 {
      if |a| > 0 {
        FirstCovered(a, lo);
      }
      if |b| > 0 {
        FirstCovered(b, lo);
      }
    } else {
      hide Covers, Canonical;
      RestCanonical(a, lo);
      RestCanonical(b, lo);
      FirstStart(a, b, lo);
      FirstStart(b, a, lo);
      FirstEnd(a, b, lo);
      FirstEnd(b, a, lo);
      forall x ensures Covers(a[1..], x) <==> Covers(b[1..], x) {
        RestCovers(a, lo, x);
        RestCovers(b, lo, x);
      }
      CanonicalUnique(a[1..], b[1..], lo);
      assert a == [a[0]] + a[1..] && b == [b[0]] + b[1..];
    }
  }

  lemma FirstCovered(a: seq<Block>, lo: int)
    requires Canonical(a, lo) && |a| > 0
    ensures Covers(a, a[0].addr)
  {
    assert Within(a[0], a[0].addr);
  }

  lemma RestCanonical(a: seq<Block>, lo: int)
    requires Canonical(a, lo) && |a| > 0
    ensures Canonical(a[1..], lo)
  {
  }

  lemma FirstStart(a: seq<Block>, b: seq<Block>, lo: int)
    requires Canonical(a, lo) && Canonical(b, lo) && |a| > 0 && |b| > 0
    requires forall x :: Covers(a, x) <==> Covers(b, x)
    ensures a[0].addr >= b[0].addr
  {
    assert Within(a[0], a[0].addr);
    assert Covers(a, a[0].addr);
    var i :| 0 <= i < |b| && Within(b[i], a[0].addr);
  }

  lemma FirstEnd(a: seq<Block>, b: seq<Block>, lo: int)
    requires Canonical(a, lo) && Canonical(b, lo) && |a| > 0 && |b| > 0 && a[0].addr == b[0].addr
    requires forall x :: Covers(a, x) <==> Covers(b, x)
    ensures a[0].len >= b[0].len
  {
    var x := a[0].addr + a[0].len;
    EndNotFree(a, lo);
    if a[0].len < b[0].len {
      assert !Covers(b, x);
      assert Within(b[0], x);
    }
  }

  /** The byte after a free block is never free. */
  lemma EndNotFree(a: seq<Block>, lo: int)
    requires Canonical(a, lo) && |a| > 0
    ensures !Covers(a, a[0].addr + a[0].len)
  {
    forall i | 0 <= i < |a| ensures !Within(a[i], a[0].addr + a[0].len) {
      assert i > 0 ==> a[0].addr + a[0].len < a[i].addr;
    }
  }

  lemma RestCovers(a: seq<Block>, lo: int, x: int)
    requires Canonical(a, lo) && |a| > 0
    ensures Covers(a[1..], x) <==> Covers(a, x) && !Within(a[0], x)
  {
    if Covers(a[1..], x) {
      var i :| 0 <= i < |a[1..]| && Within(a[1..][i], x);
      assert Within(a[i + 1], x);
    }
    if Covers(a, x) && !Within(a[0], x) {
      var i :| 0 <= i < |a| && Within(a[i], x);
      assert Within(a[1..][i - 1], x);
    }
  }

  // Every change to the list replaces a stretch of it by at most one block.
  function Splice(bs: seq<Block>, i: nat, j: nat, m: seq<Block>): (r: seq<Block>)
    requires i <= j <= |bs|
    ensures |r| == i + |m| + |bs| - j
  {
    bs[..i] + m + bs[j..]
  }

  function Piece(addr: int, len: int): seq<Block> {
    if len == 0 then [] else [Block(addr, len)]
  }

  /** What a canonical list says about one block and its neighbours. */
  lemma Neighbours(bs: seq<Block>, lo: int, i: nat)
    requires Canonical(bs, lo) && i < |bs|
    ensures lo <= bs[i].addr && 0 < bs[i].len && bs[i].addr + bs[i].len < 0x1_0000_0000
    ensures i > 0 ==> bs[i - 1].addr + bs[i - 1].len < bs[i].addr
    ensures i + 1 < |bs| ==> bs[i].addr + bs[i].len < bs[i + 1].addr
  {
  }

  /** n bytes off the low end of block i. */
  function TakeLow(bs: seq<Block>, i: nat, n: int): seq<Block>
    requires i < |bs|
  {
    Splice(bs, i, i + 1, Piece(bs[i].addr + n, bs[i].len - n))
  }

  /** n bytes off the high end of block i. */
  function TakeHigh(bs: seq<Block>, i: nat, n: int): seq<Block>
    requires i < |bs|
  {
    Splice(bs, i, i + 1, Piece(bs[i].addr, bs[i].len - n))
  }

  predicate JoinsLow(bs: seq<Block>, k: nat, a: int)
    requires k <= |bs|
  {
    k > 0 && bs[k - 1].addr + bs[k - 1].len == a
  }

  predicate JoinsHigh(bs: seq<Block>, k: nat, end: int)
    requires k <= |bs|
  {
    k < |bs| && end == bs[k].addr
  }

  /** n bytes at a put back between block k - 1 and block k, coalesced with either or both. */
  function PutBack(bs: seq<Block>, k: nat, a: int, n: int): seq<Block>
    requires k <= |bs|
  {
    var addr := if JoinsLow(bs, k, a) then bs[k - 1].addr else a;
    var end := if JoinsHigh(bs, k, a + n) then bs[k].addr + bs[k].len else a + n;
    Splice(bs, if JoinsLow(bs, k, a) then k - 1 else k, if JoinsHigh(bs, k, a + n) then k + 1 else k,
           [Block(addr, end - addr)])
  }

  /** A replacement that stays clear of its neighbours keeps the list canonical. */
  lemma SpliceCanonical(bs: seq<Block>, lo: int, i: nat, j: nat, m: seq<Block>)
    requires Canonical(bs, lo) && i <= j <= |bs| && |m| <= 1 && (j > i || |m| == 1)
    requires |m| == 1 ==> lo <= m[0].addr && 0 < m[0].len && m[0].addr + m[0].len < 0x1_0000_0000
    requires |m| == 1 && i > 0 ==> bs[i - 1].addr + bs[i - 1].len < m[0].addr
    requires |m| == 1 && j < |bs| ==> m[0].addr + m[0].len < bs[j].addr
    ensures Canonical(Splice(bs, i, j, m), lo)
  {
    var t := Splice(bs, i, j, m);
    forall x, y | 0 <= x < y < |t| ensures t[x].addr + t[x].len < t[y].addr {
      SpliceAt(bs, i, j, m, x);
      SpliceAt(bs, i, j, m, y);
      hide Splice;
      if x < i {
        assert x < i - 1 ==> bs[x].addr + bs[x].len < bs[i - 1].addr;
      }
      if y >= i + |m| {
        var y' := y - i - |m| + j;
        assert j < y' ==> bs[j].addr + bs[j].len < bs[y'].addr;
      }
    }
    forall x | 0 <= x < |t| ensures lo <= t[x].addr && 0 < t[x].len && t[x].addr + t[x].len < 0x1_0000_0000 {
      SpliceAt(bs, i, j, m, x);
    }
  }

  lemma SpliceAt(bs: seq<Block>, i: nat, j: nat, m: seq<Block>, x: nat)
    requires i <= j <= |bs| && x < |Splice(bs, i, j, m)|
    ensures Splice(bs, i, j, m)[x] == if x < i then bs[x] else if x < i + |m| then m[x - i] else bs[x - i - |m| + j]
  {
  }

  lemma SpliceTotal(bs: seq<Block>, i: nat, j: nat, m: seq<Block>)
    requires i <= j <= |bs|
    ensures Total(Splice(bs, i, j, m)) == Total(bs) - Total(bs[i..j]) + Total(m)
  {
    hide Total;
    assert bs == bs[..i] + bs[i..j] + bs[j..];
    TotalConcat(bs[..i] + bs[i..j], bs[j..]);
    TotalConcat(bs[..i], bs[i..j]);
    TotalConcat(bs[..i] + m, bs[j..]);
    TotalConcat(bs[..i], m);
  }

  lemma TotalOne(b: Block)
    ensures Total([b]) == b.len
  {
    assert [b][1..] == [];
  }

  lemma PieceTotal(addr: int, len: int)
    ensures Total(Piece(addr, len)) == len
  {
    if len != 0 {
      TotalOne(Block(addr, len));
    }
  }

  lemma TakeLowKeeps(bs: seq<Block>, lo: int, i: nat, n: int)
    requires Canonical(bs, lo) && i < |bs| && 0 <= n <= bs[i].len
    ensures Canonical(TakeLow(bs, i, n), lo)
    ensures Total(TakeLow(bs, i, n)) == Total(bs) - n
  {
    hide Total, Splice, Canonical;
    Neighbours(bs, lo, i);
    var m := Piece(bs[i].addr + n, bs[i].len - n);
    SpliceCanonical(bs, lo, i, i + 1, m);
    SpliceTotal(bs, i, i + 1, m);
    assert bs[i..i + 1] == [bs[i]];
    TotalOne(bs[i]);
    PieceTotal(bs[i].addr + n, bs[i].len - n);
  }

  lemma TakeHighKeeps(bs: seq<Block>, lo: int, i: nat, n: int)
    requires Canonical(bs, lo) && i < |bs| && 0 <= n <= bs[i].len
    ensures Canonical(TakeHigh(bs, i, n), lo)
    ensures Total(TakeHigh(bs, i, n)) == Total(bs) - n
  {
    hide Total, Splice, Canonical;
    Neighbours(bs, lo, i);
    var m := Piece(bs[i].addr, bs[i].len - n);
    SpliceCanonical(bs, lo, i, i + 1, m);
    SpliceTotal(bs, i, i + 1, m);
    assert bs[i..i + 1] == [bs[i]];
    TotalOne(bs[i]);
    PieceTotal(bs[i].addr, bs[i].len - n);
  }

  lemma SpliceAligned(bs: seq<Block>, i: nat, j: nat, m: seq<Block>)
    requires i <= j <= |bs| && Aligned(bs) && Aligned(m)
    ensures Aligned(Splice(bs, i, j, m))
  {
    hide Multiple;
  }

  /** Multiples of the header size stay multiples, whichever way the list changes. */
  lemma TakeAligned(bs: seq<Block>, i: nat, n: int)
    requires Aligned(bs) && i < |bs| && Multiple(n)
    ensures Aligned(TakeLow(bs, i, n)) && Aligned(TakeHigh(bs, i, n))
  {
    hide Splice;
    SpliceAligned(bs, i, i + 1, Piece(bs[i].addr + n, bs[i].len - n));
    SpliceAligned(bs, i, i + 1, Piece(bs[i].addr, bs[i].len - n));
  }

  lemma PutBackAligned(bs: seq<Block>, k: nat, a: int, n: int)
    requires Aligned(bs) && k <= |bs| && Multiple(a) && Multiple(n)
    ensures Aligned(PutBack(bs, k, a, n))
  {
    hide Splice;
    var addr := if JoinsLow(bs, k, a) then bs[k - 1].addr else a;
    var end := if JoinsHigh(bs, k, a + n) then bs[k].addr + bs[k].len else a + n;
    SpliceAligned(bs, if JoinsLow(bs, k, a) then k - 1 else k, if JoinsHigh(bs, k, a + n) then k + 1 else k,
                  [Block(addr, end - addr)]);
  }

  /** Covering, block by block: replacing a slice of the list. */
  lemma CoversSplit(p: seq<Block>, m: seq<Block>, s: seq<Block>, x: int)
    ensures Covers(p + m + s, x) <==> Covers(p, x) || Covers(m, x) || Covers(s, x)
  {
    var t := p + m + s;
    if Covers(t, x) {
      var i :| 0 <= i < |t| && Within(t[i], x);
      if i < |p| {
        assert Within(p[i], x);
      } else if i < |p| + |m| {
        assert Within(m[i - |p|], x);
      } else {
        assert Within(s[i - |p| - |m|], x);
      }
    }
    if Covers(p, x) {
      var i :| 0 <= i < |p| && Within(p[i], x);
      assert Within(t[i], x);
    }
    if Covers(m, x) {
      var i :| 0 <= i < |m| && Within(m[i], x);
      assert Within(t[|p| + i], x);
    }
    if Covers(s, x) {
      var i :| 0 <= i < |s| && Within(s[i], x);
      assert Within(t[|p| + |m| + i], x);
    }
  }

  lemma CoversOne(b: Block, x: int)
    ensures Covers([b], x) <==> Within(b, x)
  {
    assert [b][0] == b;
  }

  /** Exactly the bytes taken stop being free. */
  lemma TakeLowCovers(bs: seq<Block>, lo: int, i: nat, n: int, x: int)
    requires Canonical(bs, lo) && i < |bs| && 0 <= n <= bs[i].len
    ensures Covers(TakeLow(bs, i, n), x) <==> Covers(bs, x) && !(bs[i].addr <= x < bs[i].addr + n)
  {
    TakenCovers(bs, lo, i, Block(bs[i].addr + n, bs[i].len - n), x);
  }

  lemma TakeHighCovers(bs: seq<Block>, lo: int, i: nat, n: int, x: int)
    requires Canonical(bs, lo) && i < |bs| && 0 <= n <= bs[i].len
    ensures Covers(TakeHigh(bs, i, n), x) <==>
            Covers(bs, x) && !(bs[i].addr + bs[i].len - n <= x < bs[i].addr + bs[i].len)
  {
    TakenCovers(bs, lo, i, Block(bs[i].addr, bs[i].len - n), x);
  }

  lemma TakenCovers(bs: seq<Block>, lo: int, i: nat, b: Block, x: int)
    requires Canonical(bs, lo) && i < |bs|
    requires bs[i].addr <= b.addr && b.addr + b.len <= bs[i].addr + bs[i].len && b.len >= 0
    ensures Covers(Splice(bs, i, i + 1, Piece(b.addr, b.len)), x) <==>
            Covers(bs, x) && !(Within(bs[i], x) && !Within(b, x))
  {
    var rest := Piece(b.addr, b.len);
    assert bs == bs[..i] + [bs[i]] + bs[i + 1..];
    CoversSplit(bs[..i], [bs[i]], bs[i + 1..], x);
    CoversSplit(bs[..i], rest, bs[i + 1..], x);
    CoversOne(bs[i], x);
    CoversOne(b, x);
    if Covers(bs[..i], x) {
      var j :| 0 <= j < |bs[..i]| && Within(bs[..i][j], x);
      assert bs[j].addr + bs[j].len < bs[i].addr;
    }
    if Covers(bs[i + 1..], x) {
      var j :| 0 <= j < |bs[i + 1..]| && Within(bs[i + 1..][j], x);
      assert bs[i].addr + bs[i].len < bs[i + 1 + j].addr;
    }
  }

  /** a is where block k - 1 ends or later, and a + n is where block k begins or earlier. */
  ghost predicate Gap(bs: seq<Block>, k: nat, a: int, n: int) {
    && k <= |bs|
    && (k > 0 ==> bs[k - 1].addr + bs[k - 1].len <= a)
    && (k < |bs| ==> a + n <= bs[k].addr)
  }

  lemma PutBackKeeps(bs: seq<Block>, lo: int, k: nat, a: int, n: int)
    requires Canonical(bs, lo) && Gap(bs, k, a, n) && lo <= a && 0 < n && a + n < 0x1_0000_0000
    ensures Canonical(PutBack(bs, k, a, n), lo)
    ensures Total(PutBack(bs, k, a, n)) == Total(bs) + n
  {
    hide Total, Splice, Canonical;
    if k > 0 { Neighbours(bs, lo, k - 1); }
    if k < |bs| { Neighbours(bs, lo, k); }
    if k > 1 { Neighbours(bs, lo, k - 2); }
    if k + 1 < |bs| { Neighbours(bs, lo, k + 1); }
    var low, high := JoinsLow(bs, k, a), JoinsHigh(bs, k, a + n);
    var i, j := if low then k - 1 else k, if high then k + 1 else k;
    var addr := if low then bs[k - 1].addr else a;
    var end := if high then bs[k].addr + bs[k].len else a + n;
    var b := Block(addr, end - addr);
    SpliceCanonical(bs, lo, i, j, [b]);
    SpliceTotal(bs, i, j, [b]);
    TotalOne(b);
    ReplacedTotal(bs, i, k, j);
  }

  lemma ReplacedTotal(bs: seq<Block>, i: nat, k: nat, j: nat)
    requires i <= k <= j <= |bs| && k - i <= 1 && j - k <= 1
    ensures Total(bs[i..j]) == (if i < k then bs[i].len else 0) + if k < j then bs[k].len else 0
  {
    assert bs[i..j] == bs[i..k] + bs[k..j];
    TotalConcat(bs[i..k], bs[k..j]);
    if i < k {
      assert bs[i..k] == [bs[i]];
      TotalOne(bs[i]);
    }
    if k < j {
      assert bs[k..j] == [bs[k]];
      TotalOne(bs[k]);
    }
  }

  lemma ReplacedCovers(bs: seq<Block>, i: nat, k: nat, j: nat, x: int)
    requires i <= k <= j <= |bs| && k - i <= 1 && j - k <= 1
    ensures Covers(bs[i..j], x) <==> (i < k && Within(bs[i], x)) || (k < j && Within(bs[k], x))
  {
    if i < k {
      assert bs[i..j][0] == bs[i];
    }
    if k < j {
      assert bs[i..j][k - i] == bs[k];
    }
  }

  /** Exactly the bytes returned become free. */
  lemma PutBackCovers(bs: seq<Block>, lo: int, k: nat, a: int, n: int, x: int)
    requires Canonical(bs, lo) && Gap(bs, k, a, n) && 0 < n
    ensures Covers(PutBack(bs, k, a, n), x) <==> Covers(bs, x) || a <= x < a + n
  {
    hide Covers, Canonical;
    var low, high := JoinsLow(bs, k, a), JoinsHigh(bs, k, a + n);
    var i, j := if low then k - 1 else k, if high then k + 1 else k;
    var addr := if low then bs[k - 1].addr else a;
    var end := if high then bs[k].addr + bs[k].len else a + n;
    var b := Block(addr, end - addr);
    if k > 0 { Neighbours(bs, lo, k - 1); }
    if k < |bs| { Neighbours(bs, lo, k); }
    assert bs == bs[..i] + bs[i..j] + bs[j..];
    CoversSplit(bs[..i], bs[i..j], bs[j..], x);
    CoversSplit(bs[..i], [b], bs[j..], x);
    CoversOne(b, x);
    ReplacedCovers(bs, i, k, j, x);
  }

  /** Between neighbours, fitting the gap is the same as touching no free block. */
  lemma GapIffDisjoint(bs: seq<Block>, lo: int, k: nat, a: int, n: int)
    requires Canonical(bs, lo) && k <= |bs| && 0 < n
    requires (k > 0 ==> bs[k - 1].addr < a) && (k < |bs| ==> a <= bs[k].addr)
    ensures Gap(bs, k, a, n) <==> !Overlaps(bs, a, n)
  {
    if Gap(bs, k, a, n) {
      forall i | 0 <= i < |bs| ensures !(bs[i].addr < a + n && a < bs[i].addr + bs[i].len) {
        assert i < k - 1 ==> bs[i].addr + bs[i].len < bs[k - 1].addr;
        assert k < i ==> bs[k].addr + bs[k].len < bs[i].addr;
      }
    }
  }
}
