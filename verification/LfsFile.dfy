/** One file as the disk and its control block hold it: a chain of index blocks,
    the data blocks they point to, and one cached block of each kind. */
module LfsFile {
  import opened LfsDisk

  // One index block covers 8192 bytes (LF_IDATA).

  /** The part of a control block that caches file data.  `byteptr` is an index
      into `dblock`; 512 means "set the blocks up before the next access". */
  datatype Cache = Cache(pos: nat, inum: Id, iblock: IBlock, dnum: Id, dblock: Sector, byteptr: nat,
                         ibdirty: bool, dbdirty: bool)

  /** A file as seen by the proof: its index blocks, its data blocks, its bytes,
      its cache, and the number of the cached data block within the file. */
  datatype File = File(ilist: Id, chain: seq<Id>, slots: seq<Id>, data: seq<byte>, c: Cache, at: nat)

  // q data blocks, or q index blocks, are as few as can hold n bytes.
  ghost predicate FillsData(q: nat, n: nat) { n <= 512 * q < n + 512 }
  ghost predicate FillsIndex(q: nat, n: nat) { n <= 8192 * q < n + 8192 }

  function EmptyIBlock(offset: int): IBlock {
    IBlock(NULLID, offset, seq(16, _ => NULLID))
  }

  /** What index block k of a file must contain. */
  function IndexBlock(chain: seq<Id>, slots: seq<Id>, k: nat): IBlock {
    IBlock(if k + 1 < |chain| then chain[k + 1] else NULLID, 8192 * k,
           seq(16, m requires 0 <= m < 16 => if 16 * k + m < |slots| then slots[16 * k + m] else NULLID))
  }

  // Disk contents with the dirty cached blocks overlaid.
  function IView(ib: seq<IBlock>, c: Cache, n: Id): IBlock
    requires 0 <= n < |ib|
  {
    if c.ibdirty && c.inum == n then c.iblock else ib[n]
  }

  function DView(sectors: seq<Sector>, c: Cache, d: Id): Sector
    requires 0 <= d < |sectors|
  {
    if c.dbdirty && c.dnum == d then c.dblock else sectors[d]
  }

  /** Sector s holds block j of the file, as far as the file goes. */
  ghost predicate Holds(s: Sector, data: seq<byte>, j: nat) {
    forall i :: 0 <= i < 512 && 512 * j + i < |data| ==> s[i] == data[512 * j + i]
  }

  ghost predicate Within(s: seq<Id>, lo: int, hi: int) {
    && (forall i :: 0 <= i < |s| ==> lo <= s[i] < hi)
    && (forall i, j :: 0 <= i < j < |s| ==> s[i] != s[j])
  }

  ghost predicate IndexOk(ib: seq<IBlock>, x: File) {
    && Within(x.chain, 0, |ib|)
    && forall k {:trigger IView(ib, x.c, x.chain[k])} :: 0 <= k < |x.chain| ==>
         IView(ib, x.c, x.chain[k]) == IndexBlock(x.chain, x.slots, k)
  }

  ghost predicate DataOk(sectors: seq<Sector>, x: File) {
    && Within(x.slots, 0, |sectors|)
    && forall j :: 0 <= j < |x.slots| ==> Holds(DView(sectors, x.c, x.slots[j]), x.data, j)
  }

  ghost predicate IndexCacheOk(x: File) {
    if x.c.inum == NULLID then !x.c.ibdirty && x.c.dnum == NULLID
    else
      var k := x.c.iblock.offset / 8192;
      0 <= k < |x.chain| && x.chain[k] == x.c.inum && x.c.iblock == IndexBlock(x.chain, x.slots, k)
  }

  ghost predicate DataCacheOk(x: File) {
    if x.c.dnum == NULLID then !x.c.dbdirty
    else x.at < |x.slots| && x.slots[x.at] == x.c.dnum && Holds(x.c.dblock, x.data, x.at)
  }

  ghost predicate PointerOk(x: File) {
    && x.c.byteptr <= 512
    && (x.c.byteptr < 512 ==>
          && x.c.inum != NULLID && x.c.dnum != NULLID
          && x.c.byteptr == x.c.pos % 512
          && x.at == x.c.pos / 512
          && x.c.iblock.offset == x.c.pos - x.c.pos % 8192)
  }

  ghost predicate Sized(x: File) {
    && |x.data| <= 512 * |x.slots|
    && |x.slots| <= 16 * |x.chain|
    && |x.chain| <= 0x8_0000
    && x.ilist == (if x.chain == [] then NULLID else x.chain[0])
  }

  ghost predicate Body(ib: seq<IBlock>, sectors: seq<Sector>, x: File) {
    Sized(x) && IndexOk(ib, x) && DataOk(sectors, x) && IndexCacheOk(x) && DataCacheOk(x) && PointerOk(x)
  }

  /** A file of n bytes owns exactly ceil(n / 512) data blocks and ceil(n / 8192) index blocks. */
  ghost predicate Exact(x: File) {
    && FillsData(|x.slots|, |x.data|)
    && FillsIndex(|x.chain|, |x.data|)
    && x.c.pos <= |x.data|
  }

  ghost predicate Clean(x: File) { !x.c.ibdirty && !x.c.dbdirty }

  // ---- steps -------------------------------------------------------------------

  function FlushedIb(ib: seq<IBlock>, c: Cache): seq<IBlock> {
    if c.ibdirty && 0 <= c.inum < |ib| then ib[c.inum := c.iblock] else ib
  }

  function FlushedSectors(sectors: seq<Sector>, c: Cache): seq<Sector> {
    if c.dbdirty && 0 <= c.dnum < |sectors| then sectors[c.dnum := c.dblock] else sectors
  }

  function Cleaned(x: File): File { x.(c := x.c.(ibdirty := false, dbdirty := false)) }

  lemma Flush(ib: seq<IBlock>, sectors: seq<Sector>, x: File)
    requires Body(ib, sectors, x)
    ensures Body(FlushedIb(ib, x.c), FlushedSectors(sectors, x.c), Cleaned(x))
    ensures x.c.ibdirty ==> x.c.inum in x.chain && IBlockOk(x.c.iblock)
    ensures x.c.dbdirty ==> x.c.dnum in x.slots
  {
    var ib', sectors', x' := FlushedIb(ib, x.c), FlushedSectors(sectors, x.c), Cleaned(x);
    forall k | 0 <= k < |x.chain| ensures IView(ib', x'.c, x'.chain[k]) == IndexBlock(x.chain, x.slots, k) {
      assert IView(ib, x.c, x.chain[k]) == IndexBlock(x.chain, x.slots, k);
    }
    forall j | 0 <= j < |x.slots| ensures Holds(DView(sectors', x'.c, x'.slots[j]), x.data, j) {
      assert Holds(DView(sectors, x.c, x.slots[j]), x.data, j);
    }
  }

  /** Bring index block k into memory. */
  lemma LoadIndex(ib: seq<IBlock>, sectors: seq<Sector>, x: File, k: nat)
    requires Body(ib, sectors, x) && Clean(x) && k < |x.chain| && x.c.byteptr == 512
    ensures 0 <= x.chain[k] < |ib| && ib[x.chain[k]] == IndexBlock(x.chain, x.slots, k)
    ensures Body(ib, sectors, x.(c := x.c.(inum := x.chain[k], iblock := ib[x.chain[k]])))
    ensures Body(ib, sectors, x.(c := x.c.(inum := x.chain[k], iblock := ib[x.chain[k]], dnum := NULLID)))
  {
    assert IView(ib, x.c, x.chain[k]) == IndexBlock(x.chain, x.slots, k);
    assert 8192 * k / 8192 == k;
    var x' := x.(c := x.c.(inum := x.chain[k], iblock := ib[x.chain[k]]));
    assert IndexOk(ib, x') by {
      assert forall i :: 0 <= i < |x.chain| ==> IView(ib, x'.c, x.chain[i]) == IView(ib, x.c, x.chain[i]);
    }
    assert DataOk(sectors, x') by {
      assert forall j :: 0 <= j < |x.slots| ==> DView(sectors, x'.c, x.slots[j]) == DView(sectors, x.c, x.slots[j]);
    }
    var x'' := x'.(c := x'.c.(dnum := NULLID));
    assert IndexOk(ib, x'') by {
      assert forall i :: 0 <= i < |x.chain| ==> IView(ib, x''.c, x.chain[i]) == IView(ib, x.c, x.chain[i]);
    }
    assert DataOk(sectors, x'') by {
      assert forall j :: 0 <= j < |x.slots| ==> DView(sectors, x''.c, x.slots[j]) == DView(sectors, x.c, x.slots[j]);
    }
  }

  /** Give an empty file its first index block. */
  lemma FirstIndex(ib: seq<IBlock>, sectors: seq<Sector>, x: File, n: Id)
    requires Body(ib, sectors, x) && Clean(x) && x.chain == [] && 0 <= n < |ib| && x.c.byteptr == 512
    ensures Body(ib, sectors, x.(ilist := n, chain := [n], c := x.c.(inum := n, iblock := EmptyIBlock(0), ibdirty := true)))
  {
  }

  /** Extend the chain of a file whose last index block is in memory and full. */
  lemma NextIndex(ib: seq<IBlock>, sectors: seq<Sector>, x: File, n: Id)
    requires Body(ib, sectors, x) && Clean(x) && x.chain != [] && |x.chain| < 0x8_0000
    requires 0 <= n < |ib| && n !in x.chain && x.c.byteptr == 512
    requires x.c.inum != NULLID && x.c.iblock.next == NULLID
    ensures x.c.iblock.offset == 8192 * (|x.chain| - 1) && x.c.inum in x.chain && 0 <= x.c.inum < |ib|
    ensures IBlockOk(x.c.iblock)
    ensures Body(ib[x.c.inum := x.c.iblock.(next := n)], sectors,
                 x.(chain := x.chain + [n],
                    c := x.c.(inum := n, iblock := EmptyIBlock(8192 * |x.chain|), ibdirty := true, dnum := NULLID)))
  {
    var k := x.c.iblock.offset / 8192;
    assert k == |x.chain| - 1;
    var ib' := ib[x.c.inum := x.c.iblock.(next := n)];
    var x' := x.(chain := x.chain + [n],
                 c := x.c.(inum := n, iblock := EmptyIBlock(8192 * |x.chain|), ibdirty := true, dnum := NULLID));
    assert 8192 * |x.chain| / 8192 == |x.chain|;
    assert x'.c.iblock == IndexBlock(x'.chain, x'.slots, |x.chain|);
    forall i | 0 <= i < |x'.chain| ensures IView(ib', x'.c, x'.chain[i]) == IndexBlock(x'.chain, x'.slots, i) {
      if i < |x.chain| {
        assert x'.chain[i] == x.chain[i];
        assert IView(ib, x.c, x.chain[i]) == IndexBlock(x.chain, x.slots, i);
      }
    }
    assert DataOk(sectors, x') by {
      assert forall j :: 0 <= j < |x.slots| ==> DView(sectors, x'.c, x.slots[j]) == DView(sectors, x.c, x.slots[j]);
    }
  }

  /** The slot of the index block that covers the current position. */
  function Dindex(pos: nat): (i: nat) ensures i < 16 { pos % 8192 / 512 }

  ghost predicate Covering(x: File) {
    x.c.inum != NULLID && x.c.iblock.offset == x.c.pos - x.c.pos % 8192 && x.c.byteptr == 512 && !x.c.dbdirty
  }

  lemma SlotArithmetic(pos: nat, offset: int)
    requires offset == pos - pos % 8192
    ensures 16 * (offset / 8192) + Dindex(pos) == pos / 512 && 8192 * (offset / 8192) == offset
  {
  }

  lemma SlotOfPosition(ib: seq<IBlock>, sectors: seq<Sector>, x: File)
    requires Body(ib, sectors, x) && Covering(x)
    ensures IBlockOk(x.c.iblock)
    ensures var j := x.c.pos / 512;
            x.c.iblock.dba[Dindex(x.c.pos)] == (if j < |x.slots| then x.slots[j] else NULLID)
    ensures 16 * (x.c.iblock.offset / 8192) + Dindex(x.c.pos) == x.c.pos / 512
  {
    hide IndexOk, DataOk, Dindex;
    SlotArithmetic(x.c.pos, x.c.iblock.offset);
  }

  /** Bring the data block of the current position into memory. */
  lemma LoadData(ib: seq<IBlock>, sectors: seq<Sector>, x: File)
    requires Body(ib, sectors, x) && Covering(x) && x.c.pos / 512 < |x.slots|
    ensures var j := x.c.pos / 512;
            && 0 <= x.slots[j] < |sectors|
            && Body(ib, sectors, x.(at := j, c := x.c.(dnum := x.slots[j], byteptr := x.c.pos % 512,
                                      dblock := if x.slots[j] == x.c.dnum then x.c.dblock else sectors[x.slots[j]])))
  {
    hide Holds, IndexBlock;
    var j := x.c.pos / 512;
    var x' := x.(at := j, c := x.c.(dnum := x.slots[j], byteptr := x.c.pos % 512,
                                    dblock := if x.slots[j] == x.c.dnum then x.c.dblock else sectors[x.slots[j]]));
    assert Holds(DView(sectors, x.c, x.slots[j]), x.data, j);
    assert DataOk(sectors, x') by {
      assert forall i :: 0 <= i < |x.slots| ==> DView(sectors, x'.c, x.slots[i]) == DView(sectors, x.c, x.slots[i]);
    }
    assert IndexOk(ib, x') by {
      assert forall i :: 0 <= i < |x.chain| ==> IView(ib, x'.c, x.chain[i]) == IView(ib, x.c, x.chain[i]);
    }
  }

  /** Pointing one more slot at a data block changes one index block. */
  lemma AddSlot(chain: seq<Id>, slots: seq<Id>, d: Id, k: nat, m: nat)
    requires m < 16 && 16 * k + m == |slots|
    ensures IndexBlock(chain, slots + [d], k) ==
            (var b := IndexBlock(chain, slots, k); b.(dba := b.dba[m := d]))
    ensures forall i: nat :: i != k ==> IndexBlock(chain, slots + [d], i) == IndexBlock(chain, slots, i)
  {
    forall i: nat | i != k ensures IndexBlock(chain, slots + [d], i) == IndexBlock(chain, slots, i) {
      forall j | 0 <= j < 16
        ensures IndexBlock(chain, slots + [d], i).dba[j] == IndexBlock(chain, slots, i).dba[j]
      {
        assert 16 * i + j != |slots|;
      }
    }
    var b := IndexBlock(chain, slots, k);
    assert IndexBlock(chain, slots + [d], k).dba == b.dba[m := d];
  }

  /** Append a fresh data block to the file at the current position. */
  lemma AddData(ib: seq<IBlock>, sectors: seq<Sector>, x: File, d: Id, fill: Sector)
    requires Body(ib, sectors, x) && Covering(x) && x.c.pos / 512 == |x.slots|
    requires 0 <= d < |sectors| && d !in x.slots
    ensures var m := Dindex(x.c.pos);
            Body(ib, sectors, x.(slots := x.slots + [d], at := |x.slots|,
                   c := x.c.(iblock := x.c.iblock.(dba := x.c.iblock.dba[m := d]), ibdirty := true,
                             dnum := d, dblock := fill, byteptr := x.c.pos % 512)))
  {
    var m, k := Dindex(x.c.pos), x.c.iblock.offset / 8192;
    var slots' := x.slots + [d];
    var b' := x.c.iblock.(dba := x.c.iblock.dba[m := d]);
    var x' := x.(slots := slots', at := |x.slots|,
                 c := x.c.(iblock := b', ibdirty := true, dnum := d, dblock := fill, byteptr := x.c.pos % 512));
    SlotOfPosition(ib, sectors, x);
    AddSlot(x.chain, x.slots, d, k, m);
    assert IndexOk(ib, x') by {
      forall i | 0 <= i < |x.chain| ensures IView(ib, x'.c, x.chain[i]) == IndexBlock(x.chain, slots', i) {
        assert IView(ib, x.c, x.chain[i]) == IndexBlock(x.chain, x.slots, i);
      }
    }
    assert DataOk(sectors, x') by {
      forall j | 0 <= j < |slots'| ensures Holds(DView(sectors, x'.c, slots'[j]), x.data, j) {
        if j < |x.slots| {
          assert slots'[j] == x.slots[j];
          assert Holds(DView(sectors, x.c, x.slots[j]), x.data, j);
        }
      }
    }
  }

  function Put(data: seq<byte>, pos: nat, b: byte): (r: seq<byte>)
    requires pos <= |data|
  {
    if pos < |data| then data[pos := b] else data + [b]
  }

  lemma NextPosition(pos: nat)
    requires pos % 512 < 512 - 1
    ensures (pos + 1) % 512 == pos % 512 + 1 && (pos + 1) / 512 == pos / 512
    ensures pos + 1 - (pos + 1) % 8192 == pos - pos % 8192
  {
    var q := pos / 8192;
    assert pos == 8192 * q + pos % 8192 && pos % 8192 < 8192 - 1;
  }

  /** Moving on one byte in the cached block keeps the pointer right. */
  lemma Advance(x: File, y: File)
    requires PointerOk(x) && x.c.byteptr < 512 && y.at == x.at
    requires y.c == x.c.(byteptr := x.c.byteptr + 1, pos := x.c.pos + 1, dblock := y.c.dblock, dbdirty := y.c.dbdirty)
    ensures PointerOk(y)
  {
    if y.c.byteptr < 512 {
      NextPosition(x.c.pos);
    }
  }

  /** Store one byte through the cache. */
  lemma Store(ib: seq<IBlock>, sectors: seq<Sector>, x: File, b: byte)
    requires Body(ib, sectors, x) && x.c.byteptr < 512 && x.c.pos <= |x.data|
    ensures Body(ib, sectors, x.(data := Put(x.data, x.c.pos, b),
                   c := x.c.(dblock := x.c.dblock[x.c.byteptr := b], byteptr := x.c.byteptr + 1,
                             pos := x.c.pos + 1, dbdirty := true)))
  {
    var data' := Put(x.data, x.c.pos, b);
    var x' := x.(data := data', c := x.c.(dblock := x.c.dblock[x.c.byteptr := b], byteptr := x.c.byteptr + 1,
                                         pos := x.c.pos + 1, dbdirty := true));
    assert 512 * x.at + x.c.byteptr == x.c.pos;
    Advance(x, x');
    assert DataOk(sectors, x') && DataCacheOk(x') by {
      StoreData(sectors, x, x', b);
    }
    assert IndexOk(ib, x') by {
      assert forall i :: 0 <= i < |x.chain| ==> IView(ib, x'.c, x.chain[i]) == IView(ib, x.c, x.chain[i]);
    }
  }

  lemma StoreData(sectors: seq<Sector>, x: File, y: File, b: byte)
    requires DataOk(sectors, x) && DataCacheOk(x) && x.c.dnum != NULLID && x.c.byteptr < 512
    requires x.c.pos <= |x.data| && 512 * x.at + x.c.byteptr == x.c.pos
    requires y == x.(data := Put(x.data, x.c.pos, b),
                   c := x.c.(dblock := x.c.dblock[x.c.byteptr := b], byteptr := x.c.byteptr + 1,
                             pos := x.c.pos + 1, dbdirty := true))
    ensures DataOk(sectors, y) && DataCacheOk(y)
  {
    forall j | 0 <= j < |x.slots| && j != x.at ensures Holds(DView(sectors, y.c, x.slots[j]), y.data, j) {
      assert Holds(DView(sectors, x.c, x.slots[j]), x.data, j);
      OtherBlock(DView(sectors, x.c, x.slots[j]), x.data, x.c.pos, b, j, x.at);
    }
    assert Holds(y.c.dblock, y.data, x.at);
  }

  lemma OtherBlock(s: Sector, data: seq<byte>, pos: nat, b: byte, j: nat, at: nat)
    requires j != at && 512 * at <= pos < 512 * (at + 1) && pos <= |data|
    requires Holds(s, data, j)
    ensures Holds(s, Put(data, pos, b), j)
  {
    forall i | 0 <= i < 512 && 512 * j + i < |Put(data, pos, b)|
      ensures s[i] == Put(data, pos, b)[512 * j + i]
    {
      assert 512 * j + i != pos;
    }
  }

  /** Fetch one byte through the cache. */
  lemma Fetch(ib: seq<IBlock>, sectors: seq<Sector>, x: File)
    requires Body(ib, sectors, x) && x.c.byteptr < 512 && x.c.pos < |x.data|
    ensures x.c.dblock[x.c.byteptr] == x.data[x.c.pos]
    ensures Body(ib, sectors, x.(c := x.c.(byteptr := x.c.byteptr + 1, pos := x.c.pos + 1)))
  {
    var x' := x.(c := x.c.(byteptr := x.c.byteptr + 1, pos := x.c.pos + 1));
    Advance(x, x');
    assert x.c.dblock[x.c.byteptr] == x.data[x.c.pos] by {
      assert 512 * x.at + x.c.byteptr == x.c.pos;
    }
    assert IndexOk(ib, x') by {
      assert forall i :: 0 <= i < |x.chain| ==> IView(ib, x'.c, x.chain[i]) == IView(ib, x.c, x.chain[i]);
    }
    assert DataOk(sectors, x') by {
      assert forall j :: 0 <= j < |x.slots| ==> DView(sectors, x'.c, x.slots[j]) == DView(sectors, x.c, x.slots[j]);
    }
  }

  /** Dropping a clean cache leaves the file on the disk. */
  lemma Uncache(ib: seq<IBlock>, sectors: seq<Sector>, x: File, c: Cache, a: nat)
    requires Body(ib, sectors, x) && Clean(x)
    requires c.inum == NULLID && c.dnum == NULLID && c.byteptr == 512 && !c.ibdirty && !c.dbdirty
    ensures Body(ib, sectors, x.(c := c, at := a))
  {
    hide IndexBlock, Holds;
    var y := x.(c := c, at := a);
    assert IndexOk(ib, y) by {
      assert forall i :: 0 <= i < |x.chain| ==> IView(ib, y.c, x.chain[i]) == IView(ib, x.c, x.chain[i]);
    }
    assert DataOk(sectors, y) by {
      assert forall j :: 0 <= j < |x.slots| ==> DView(sectors, y.c, x.slots[j]) == DView(sectors, x.c, x.slots[j]);
    }
  }

  /** Moving the position invalidates the byte pointer and nothing else. */
  lemma Reposition(ib: seq<IBlock>, sectors: seq<Sector>, x: File, pos: nat)
    requires Body(ib, sectors, x)
    ensures Body(ib, sectors, x.(c := x.c.(pos := pos, byteptr := 512)))
  {
    hide IndexBlock, Holds;
    var y := x.(c := x.c.(pos := pos, byteptr := 512));
    assert IndexOk(ib, y) by {
      assert forall i :: 0 <= i < |x.chain| ==> IView(ib, y.c, x.chain[i]) == IView(ib, x.c, x.chain[i]);
    }
    assert DataOk(sectors, y) by {
      assert forall j :: 0 <= j < |x.slots| ==> DView(sectors, y.c, x.slots[j]) == DView(sectors, x.c, x.slots[j]);
    }
  }

  /** A file's invariant depends only on its own blocks. */
  lemma Frame(ib: seq<IBlock>, sectors: seq<Sector>, ib': seq<IBlock>, sectors': seq<Sector>, x: File)
    requires Body(ib, sectors, x) && |ib'| == |ib| && |sectors'| == |sectors|
    requires forall k :: 0 <= k < |x.chain| ==> ib'[x.chain[k]] == ib[x.chain[k]]
    requires forall j :: 0 <= j < |x.slots| ==> sectors'[x.slots[j]] == sectors[x.slots[j]]
    ensures Body(ib', sectors', x)
  {
    assert forall i :: 0 <= i < |x.chain| ==> IView(ib', x.c, x.chain[i]) == IView(ib, x.c, x.chain[i]);
    assert forall j :: 0 <= j < |x.slots| ==> DView(sectors', x.c, x.slots[j]) == DView(sectors, x.c, x.slots[j]);
  }
}
