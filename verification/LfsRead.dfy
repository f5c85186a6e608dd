/** What the invariant means: a file's bytes are what one gets by following its
    chain on the disk, and every block is accounted for. */
module LfsRead {
  import opened LfsDisk
  import opened LfsBlocks
  import opened LfsFile
  import opened LfsVolume
  import opened LfsSpec
  import opened LfsSteps
  import opened Lfs

  /** The index blocks reached from n, at most `fuel` of them. */
  function Follow(ib: seq<IBlock>, n: Id, fuel: nat): seq<Id>
    decreases fuel
  {
    if fuel == 0 || n < 0 || n >= |ib| then [] else [n] + Follow(ib, ib[n].next, fuel - 1)
  }

  function ByteAt(ib: seq<IBlock>, sectors: seq<Sector>, chain: seq<Id>, i: nat): byte {
    if i / 8192 >= |chain| then 0
    else
      var n := chain[i / 8192];
      if n < 0 || n >= |ib| || |ib[n].dba| != 16 then 0
      else
        var d := ib[n].dba[i % 8192 / 512];
        if 0 <= d < |sectors| then sectors[d][i % 512] else 0
  }

  /** Read a whole file off a disk, given only its directory entry. */
  function ReadFile(ib: seq<IBlock>, sectors: seq<Sector>, ilist: Id, size: nat): seq<byte> {
    var chain := Follow(ib, ilist, |ib|);
    seq(size, i requires 0 <= i < size => ByteAt(ib, sectors, chain, i))
  }

  /** What the disk says about index block k of a file whose cache is clean. */
  lemma OnDisk(ib: seq<IBlock>, x: File, k: nat, m: nat)
    requires IndexOk(ib, x) && !x.c.ibdirty && k < |x.chain| && m < 16
    ensures 0 <= x.chain[k] < |ib|
    ensures ib[x.chain[k]].next == (if k + 1 < |x.chain| then x.chain[k + 1] else NULLID)
    ensures |ib[x.chain[k]].dba| == 16
    ensures 16 * k + m < |x.slots| ==> ib[x.chain[k]].dba[m] == x.slots[16 * k + m]
  {
    assert IView(ib, x.c, x.chain[k]) == IndexBlock(x.chain, x.slots, k);
  }

  lemma {:induction false} FollowChain(ib: seq<IBlock>, x: File, k: nat, fuel: nat)
    requires IndexOk(ib, x) && !x.c.ibdirty && k < |x.chain| && fuel >= |x.chain| - k
    ensures Follow(ib, x.chain[k], fuel) == x.chain[k..]
    decreases |x.chain| - k
  {
    hide IndexOk;
    OnDisk(ib, x, k, 0);
    if k + 1 < |x.chain| {
      FollowChain(ib, x, k + 1, fuel - 1);
    } else {
      assert Follow(ib, NULLID, fuel - 1) == [];
    }
    assert x.chain[k..] == [x.chain[k]] + x.chain[k + 1..];
  }

  lemma ChainFits(v: Volume, f: nat)
    requires Inv(v) && f < |v.dir.files|
    ensures |v.chains[f]| <= |v.ib|
  {
    hide Bodies, Handles, FreeLists;
    FileFits(v.iown, v.ifl, v.chains, 0, |v.ib|, f);
  }

  lemma Coordinates(i: nat)
    ensures 16 * (i / 8192) + i % 8192 / 512 == i / 512 && 512 * (i / 512) + i % 512 == i
    ensures i % 8192 / 512 < 16
  {
  }

  /** Byte i of the file is at the place that the flushed disk says. */
  lemma ByteFound(ib: seq<IBlock>, sectors: seq<Sector>, x: File, i: nat)
    requires Body(ib, sectors, x) && Clean(x) && i < |x.data|
    ensures ByteAt(ib, sectors, x.chain, i) == x.data[i]
  {
    hide IndexCacheOk, DataCacheOk, PointerOk, IndexOk;
    var k, m, j := i / 8192, i % 8192 / 512, i / 512;
    Coordinates(i);
    assert j < |x.slots| && k < |x.chain|;
    OnDisk(ib, x, k, m);
    assert Holds(DView(sectors, x.c, x.slots[j]), x.data, j);
    assert sectors[x.slots[j]][i % 512] == x.data[512 * j + i % 512];
  }

  /** Following the chain with the cached blocks written over the disk yields the
      file's bytes, through exactly the file's own index blocks. */
  lemma ReadBack(v: Volume, f: nat)
    requires Inv(v) && f < |v.dir.files|
    ensures var c, e := FileOf(v, f).c, v.dir.files[f];
            && Follow(FlushedIb(v.ib, c), e.ilist, |v.ib|) == v.chains[f]
            && ReadFile(FlushedIb(v.ib, c), FlushedSectors(v.sectors, c), e.ilist, e.size) == v.data[f]
  {
    hide Owners, FreeLists, IndexCacheOk, DataCacheOk, PointerOk, DataOk, Holds, ByteAt;
    assert ExactFile(v, f);
    var x := FileOf(v, f);
    Flush(v.ib, v.sectors, x);
    var ib, sectors, y := FlushedIb(v.ib, x.c), FlushedSectors(v.sectors, x.c), Cleaned(x);
    if y.chain != [] {
      ChainFits(v, f);
      FollowChain(ib, y, 0, |ib|);
      assert y.chain[0..] == y.chain;
    }
    forall i | 0 <= i < |x.data| ensures ByteAt(ib, sectors, y.chain, i) == x.data[i] {
      ByteFound(ib, sectors, y, i);
    }
  }

  /** The disk alone holds every closed file. */
  lemma ClosedFileOnDisk(v: Volume, f: nat)
    requires Inv(v) && f < |v.dir.files| && v.handle[f] == -1
    ensures ReadFile(v.ib, v.sectors, v.dir.files[f].ilist, v.dir.files[f].size) == v.data[f]
  {
    hide Body, Owners, FreeLists;
    ReadBack(v, f);
  }

  lemma FillsRounded(q: nat, file: seq<byte>)
    ensures FillsData(q, |file|) <==> q == BlocksOf(file, 512)
    ensures FillsIndex(q, |file|) <==> q == BlocksOf(file, 8192)
  {
  }

  lemma {:induction false} TotalIsBlocks(lists: seq<seq<Id>>, data: seq<seq<byte>>, d: nat)
    requires d > 0 && |lists| == |data|
    requires forall f :: 0 <= f < |data| ==> |lists[f]| == BlocksOf(data[f], d)
    ensures Total(lists) == Blocks(data, d)
  {
    if data != [] {
      TotalIsBlocks(lists[..|lists| - 1], data[..|data| - 1], d);
    }
  }

  /** Exact conservation: a file of n bytes owns ceil(n / 512) data blocks and
      ceil(n / 8192) index blocks, and all the others are free. */
  lemma BlocksConserved(v: Volume)
    requires Inv(v)
    ensures |v.slots| == |v.chains| == |v.data|
    ensures forall f :: 0 <= f < |v.data| ==>
              |v.slots[f]| == BlocksOf(v.data[f], 512) && |v.chains[f]| == BlocksOf(v.data[f], 8192)
    ensures |v.dfl| + Blocks(v.data, 512) == |v.sectors| - v.ibsectors - 1
    ensures |v.ifl| + Blocks(v.data, 8192) == |v.ib|
    ensures v.dir.dfree == NULLID <==> Blocks(v.data, 512) == |v.sectors| - v.ibsectors - 1
    ensures v.dir.ifree == NULLID <==> Blocks(v.data, 8192) == |v.ib|
  {
    hide Bodies, Handles, BlocksOf;
    forall f | 0 <= f < |v.data| ensures |v.slots[f]| == BlocksOf(v.data[f], 512) && |v.chains[f]| == BlocksOf(v.data[f], 8192) {
      assert ExactFile(v, f);
      FillsRounded(|v.slots[f]|, v.data[f]);
      FillsRounded(|v.chains[f]|, v.data[f]);
    }
    TotalIsBlocks(v.slots, v.data, 512);
    TotalIsBlocks(v.chains, v.data, 8192);
    Conservation(v.down, v.dfl, v.slots);
    Conservation(v.iown, v.ifl, v.chains);
    RangeSize(v.down, v.ibsectors + 1, |v.sectors|);
    RangeSize(v.iown, 0, |v.ib|);
    TopIsFree(v);
  }

  ghost function RoomOf(v: Volume): Room { Room(|v.ib|, |v.sectors| - v.ibsectors - 1) }

  /** The free lists run out exactly when the files' sizes say so. */
  lemma ExhaustedMeans(v: Volume, h: nat)
    requires Inv(v) && h < |v.tab| && v.tab[h].used
    ensures Shape(v) && Sound(AbsOf(v)) && v.tab[h].file < |v.data|
    ensures Exhausted(v.dir, v.tab[h].cache.pos, |v.data[v.tab[h].file]|) <==> OutOfSpace(AbsOf(v), h, RoomOf(v))
  {
    hide Inv, Core, Blocks;
    InvShape(v);
    OpenFacts(v, h);
    BlocksConserved(v);
  }

  /** A file never outgrows the disk, so byte positions fit in 32 bits. */
  lemma PositionsFit(v: Volume, f: nat)
    requires Inv(v) && f < |v.dir.files|
    ensures |v.data[f]| <= 512 * (|v.sectors| - v.ibsectors - 1) && |v.data[f]| < 0x1_0000_0000
  {
    hide Bodies, Handles, FreeLists;
    assert ExactFile(v, f);
    FileFits(v.down, v.dfl, v.slots, v.ibsectors + 1, |v.sectors|, f);
  }
}
