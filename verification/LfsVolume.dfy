/** The whole volume: disk, in-memory directory, table of open files, and the
    invariant that ties them to plain byte sequences. */
module LfsVolume {
  import opened LfsDisk
  import opened LfsBlocks
  import opened LfsFile

  datatype Entry = Entry(name: string, size: nat, ilist: Id)

  datatype Directory = Directory(dfree: Id, ifree: Id, files: seq<Entry>)

  datatype Cblk = Cblk(used: bool, file: nat, name: string, cache: Cache)

  /** A snapshot of the running file system.  The last nine parts are known only
      to the proof: each file's chain, data blocks, bytes and open handle (-1 if
      closed), the number within its file of the data block each handle caches,
      the two free lists, and the owner of every block. */
  datatype Volume = Volume(
    ib: seq<IBlock>, sectors: seq<Sector>, ibsectors: nat,
    dir: Directory, tab: seq<Cblk>,
    chains: seq<seq<Id>>, slots: seq<seq<Id>>, data: seq<seq<byte>>, handle: seq<int>, at: seq<nat>,
    ifl: seq<Id>, dfl: seq<Id>, iown: map<int, Loc>, down: map<int, Loc>)

  function NoCache(): Cache {
    Cache(0, NULLID, EmptyIBlock(0), NULLID, seq(512, _ => 0), 512, false, false)
  }

  ghost predicate Shape(v: Volume) {
    && |v.chains| == |v.slots| == |v.data| == |v.handle| == |v.dir.files|
    && |v.at| == |v.tab|
    && |v.ib| == 7 * v.ibsectors
    && v.ibsectors < |v.sectors| <= 0x80_0000
  }

  function FileOf(v: Volume, f: nat): File
    requires Shape(v) && f < |v.dir.files|
  {
    var h := v.handle[f];
    if 0 <= h < |v.tab|
    then File(v.dir.files[f].ilist, v.chains[f], v.slots[f], v.data[f], v.tab[h].cache, v.at[h])
    else File(v.dir.files[f].ilist, v.chains[f], v.slots[f], v.data[f], NoCache(), 0)
  }

  ghost predicate Owners(v: Volume) {
    && Partition(v.iown, v.ifl, v.chains) && Covers(v.iown, 0, |v.ib|)
    && Partition(v.down, v.dfl, v.slots) && Covers(v.down, v.ibsectors + 1, |v.sectors|)
  }

  function Below(free: seq<Id>, p: nat): Id
    requires p <= |free|
  {
    if p == 0 then NULLID else free[p - 1]
  }

  ghost predicate IFreeLinked(ib: seq<IBlock>, ifl: seq<Id>) {
    (forall p :: 0 <= p < |ifl| ==> 0 <= ifl[p] < |ib|)
    && forall p {:trigger ib[ifl[p]]} :: 0 <= p < |ifl| ==> ib[ifl[p]].next == Below(ifl, p)
  }

  ghost predicate DFreeLinked(sectors: seq<Sector>, dfl: seq<Id>) {
    (forall p :: 0 <= p < |dfl| ==> 0 <= dfl[p] < |sectors|)
    && forall p {:trigger sectors[dfl[p]]} :: 0 <= p < |dfl| ==> Link(sectors[dfl[p]]) == Below(dfl, p)
  }

  lemma IPopLinked(ib: seq<IBlock>, ib': seq<IBlock>, ifl: seq<Id>)
    requires IFreeLinked(ib, ifl) && ifl != [] && |ib'| == |ib|
    requires forall p :: 0 <= p < |ifl| ==> ib'[ifl[p]] == ib[ifl[p]]
    ensures IFreeLinked(ib', Pop(ifl)) && ib[Top(ifl)].next == Top(Pop(ifl))
  {
    var last := |ifl| - 1;
    assert ib[ifl[last]].next == Top(Pop(ifl));
    forall p | 0 <= p < last
      ensures 0 <= Pop(ifl)[p] < |ib'| && ib'[Pop(ifl)[p]].next == Below(Pop(ifl), p)
    {
      assert ib'[ifl[p]] == ib[ifl[p]] && Below(ifl, p) == Below(Pop(ifl), p);
    }
  }

  /** Writing blocks that are not free leaves the free lists linked. */
  lemma FreeFrame(ib: seq<IBlock>, ib': seq<IBlock>, ifl: seq<Id>, sectors: seq<Sector>, sectors': seq<Sector>, dfl: seq<Id>)
    requires IFreeLinked(ib, ifl) && |ib'| == |ib| && DFreeLinked(sectors, dfl) && |sectors'| == |sectors|
    requires forall p :: 0 <= p < |ifl| ==> ib'[ifl[p]] == ib[ifl[p]]
    requires forall p :: 0 <= p < |dfl| ==> sectors'[dfl[p]] == sectors[dfl[p]]
    ensures IFreeLinked(ib', ifl) && DFreeLinked(sectors', dfl)
  {
  }

  lemma DPopLinked(sectors: seq<Sector>, dfl: seq<Id>)
    requires DFreeLinked(sectors, dfl) && dfl != []
    ensures DFreeLinked(sectors, Pop(dfl)) && Link(sectors[Top(dfl)]) == Top(Pop(dfl))
  {
    hide Link;
    var last := |dfl| - 1;
    assert Link(sectors[dfl[last]]) == Top(Pop(dfl));
    forall p | 0 <= p < last
      ensures 0 <= Pop(dfl)[p] < |sectors| && Link(sectors[Pop(dfl)[p]]) == Below(Pop(dfl), p)
    {
      assert Link(sectors[dfl[p]]) == Below(dfl, p) == Below(Pop(dfl), p);
    }
  }

  ghost predicate FreeLists(v: Volume) {
    && v.dir.ifree == Top(v.ifl) && IFreeLinked(v.ib, v.ifl)
    && v.dir.dfree == Top(v.dfl) && DFreeLinked(v.sectors, v.dfl)
  }

  /** One control block per open file, under the file's own name. */
  ghost predicate Handles(v: Volume)
    requires Shape(v)
  {
    && (forall h :: 0 <= h < |v.tab| && v.tab[h].used ==>
          v.tab[h].file < |v.dir.files| && v.handle[v.tab[h].file] == h
          && v.tab[h].name == v.dir.files[v.tab[h].file].name)
    && (forall f :: 0 <= f < |v.handle| ==>
          v.handle[f] == -1 || (0 <= v.handle[f] < |v.tab| && v.tab[v.handle[f]].used && v.tab[v.handle[f]].file == f))
    && (forall f, g :: 0 <= f < g < |v.dir.files| ==> v.dir.files[f].name != v.dir.files[g].name)
  }

  ghost predicate Bodies(v: Volume)
    requires Shape(v)
  {
    forall f :: 0 <= f < |v.dir.files| ==> Body(v.ib, v.sectors, FileOf(v, f))
  }

  ghost predicate Core(v: Volume) {
    Shape(v) && Owners(v) && FreeLists(v) && Handles(v) && Bodies(v)
  }

  ghost predicate ExactFile(v: Volume, f: nat)
    requires Shape(v) && f < |v.dir.files|
  {
    Exact(FileOf(v, f)) && v.dir.files[f].size == |v.data[f]|
  }

  /** The invariant between operations. */
  ghost predicate Inv(v: Volume) {
    Core(v) && forall f :: 0 <= f < |v.dir.files| ==> ExactFile(v, f)
  }

  ghost predicate OpenOn(v: Volume, h: nat, f: nat) {
    h < |v.tab| && v.tab[h].used && v.tab[h].file == f
  }

  ghost predicate IsOf(own: map<int, Loc>, d: int, f: nat) {
    d in own && own[d].Of? && own[d].file == f
  }

  /** From v to w only file f, its blocks and the free lists change. */
  ghost predicate SameElsewhere(v: Volume, w: Volume, f: nat)
    requires Shape(v) && Shape(w) && f < |v.dir.files|
  {
    && |w.dir.files| == |v.dir.files| && w.ibsectors == v.ibsectors
    && |w.ib| == |v.ib| && |w.sectors| == |v.sectors|
    && (forall g :: 0 <= g < |v.dir.files| && g != f ==> FileOf(w, g) == FileOf(v, g) && w.dir.files[g] == v.dir.files[g])
    && (forall i :: 0 <= i < |v.ib| && !IsOf(v.iown, i, f) && !IsOf(w.iown, i, f) ==> w.ib[i] == v.ib[i])
    && (forall d :: 0 <= d < |v.sectors| && !IsOf(v.down, d, f) && !IsOf(w.down, d, f) ==> w.sectors[d] == v.sectors[d])
  }

  lemma Lift(v: Volume, w: Volume, f: nat)
    requires Core(v) && Shape(w) && f < |v.dir.files| && SameElsewhere(v, w, f)
    requires Owners(w) && FreeLists(w) && Handles(w) && Body(w.ib, w.sectors, FileOf(w, f))
    ensures Core(w)
    ensures forall g :: 0 <= g < |v.dir.files| && g != f && ExactFile(v, g) ==> ExactFile(w, g)
  {
    hide Body, IFreeLinked, DFreeLinked, Below, Link;
    forall g | 0 <= g < |w.dir.files| && g != f ensures Body(w.ib, w.sectors, FileOf(w, g)) {
      var x := FileOf(v, g);
      forall k | 0 <= k < |x.chain| ensures w.ib[x.chain[k]] == v.ib[x.chain[k]] {
        assert v.chains[g][k] == x.chain[k] == w.chains[g][k];
      }
      forall j | 0 <= j < |x.slots| ensures w.sectors[x.slots[j]] == v.sectors[x.slots[j]] {
        assert v.slots[g][j] == x.slots[j] == w.slots[g][j];
      }
      Frame(v.ib, v.sectors, w.ib, w.sectors, x);
    }
  }

  lemma InOwnList(v: Volume, f: nat, i: int, d: int)
    requires Shape(v) && Owners(v) && f < |v.dir.files|
    ensures i in v.chains[f] ==> IsOf(v.iown, i, f) && 0 <= i < |v.ib|
    ensures d in v.slots[f] ==> IsOf(v.down, d, f) && v.ibsectors < d < |v.sectors|
  {
  }

  // ---- steps on an open file ---------------------------------------------------

  function WithCache(v: Volume, h: nat, c: Cache, a: nat): Volume
    requires h < |v.tab| && h < |v.at|
  {
    v.(tab := v.tab[h := v.tab[h].(cache := c)], at := v.at[h := a])
  }

  /** Only the cache of file f changes. */
  lemma CacheStep(v: Volume, h: nat, f: nat, c: Cache, a: nat)
    requires Core(v) && OpenOn(v, h, f)
    requires Body(v.ib, v.sectors, FileOf(v, f).(c := c, at := a))
    ensures Core(WithCache(v, h, c, a))
    ensures FileOf(WithCache(v, h, c, a), f) == FileOf(v, f).(c := c, at := a)
    ensures forall g :: 0 <= g < |v.dir.files| && g != f && ExactFile(v, g) ==> ExactFile(WithCache(v, h, c, a), g)
  {
    hide Body, IFreeLinked, DFreeLinked, Below, Link, Partition, Covers;
    Lift(v, WithCache(v, h, c, a), f);
  }

  function Flushed(v: Volume, h: nat): Volume
    requires h < |v.tab|
  {
    var c := v.tab[h].cache;
    v.(ib := FlushedIb(v.ib, c), sectors := FlushedSectors(v.sectors, c),
       tab := v.tab[h := v.tab[h].(cache := c.(ibdirty := false, dbdirty := false))])
  }

  lemma FlushStep(v: Volume, h: nat, f: nat)
    requires Core(v) && OpenOn(v, h, f)
    ensures Core(Flushed(v, h)) && FileOf(Flushed(v, h), f) == Cleaned(FileOf(v, f))
    ensures var c := v.tab[h].cache;
            && (c.ibdirty ==> 0 <= c.inum < |v.ib| && IBlockOk(c.iblock))
            && (c.dbdirty ==> v.ibsectors < c.dnum < |v.sectors|)
    ensures forall g :: 0 <= g < |v.dir.files| && g != f && ExactFile(v, g) ==> ExactFile(Flushed(v, h), g)
  {
    hide Body, IFreeLinked, DFreeLinked, Below, Link, Top;
    var w, x := Flushed(v, h), FileOf(v, f);
    Flush(v.ib, v.sectors, x);
    assert FileOf(w, f) == Cleaned(x);
    InOwnList(v, f, x.c.inum, x.c.dnum);
    assert forall p :: 0 <= p < |v.ifl| ==> v.iown[v.ifl[p]] == FreeAt(p);
    assert forall p :: 0 <= p < |v.dfl| ==> v.down[v.dfl[p]] == FreeAt(p);
    FreeFrame(v.ib, w.ib, v.ifl, v.sectors, w.sectors, v.dfl);
    Lift(v, w, f);
  }

  /** Pop index block n = Top(ifl) and append it to the chain of file f. */
  function IndexTaken(v: Volume, h: nat, f: nat, ib: seq<IBlock>): Volume
    requires h < |v.tab| && f < |v.dir.files| && |v.chains| == |v.dir.files| && v.ifl != []
  {
    var n, k := Top(v.ifl), |v.chains[f]|;
    var c := v.tab[h].cache.(inum := n, iblock := EmptyIBlock(8192 * k), ibdirty := true, dnum := NULLID);
    var e := v.dir.files[f];
    v.(ib := ib,
       dir := v.dir.(ifree := Top(Pop(v.ifl)), files := v.dir.files[f := e.(ilist := if k == 0 then n else e.ilist)]),
       tab := v.tab[h := v.tab[h].(cache := c)],
       ifl := Pop(v.ifl), iown := v.iown[n := Of(f, k)], chains := v.chains[f := v.chains[f] + [n]])
  }

  lemma TopIsFree(v: Volume)
    requires Shape(v) && Owners(v)
    ensures v.ifl != [] ==> v.iown[Top(v.ifl)] == FreeAt(|v.ifl| - 1) && 0 <= Top(v.ifl) < |v.ib|
    ensures v.dfl != [] ==> v.down[Top(v.dfl)] == FreeAt(|v.dfl| - 1) && v.ibsectors < Top(v.dfl) < |v.sectors|
    ensures v.ifl == [] <==> Top(v.ifl) == NULLID
    ensures v.dfl == [] <==> Top(v.dfl) == NULLID
  {
    if v.ifl != [] {
      assert v.ifl[|v.ifl| - 1] in v.iown;
    }
    if v.dfl != [] {
      assert v.dfl[|v.dfl| - 1] in v.down;
    }
  }

  /** The head of the index free list is where the directory says, and links to the next. */
  lemma FreeIndexHead(v: Volume)
    requires Core(v)
    ensures v.ifl != [] <==> v.dir.ifree != NULLID
    ensures v.ifl != [] ==> v.dir.ifree == Top(v.ifl) && 0 <= v.dir.ifree < |v.ib| && v.ib[v.dir.ifree].next == Top(Pop(v.ifl))
  {
    hide Bodies, Handles, Partition, Covers;
    TopIsFree(v);
    if v.ifl != [] {
      IPopLinked(v.ib, v.ib, v.ifl);
    }
  }

  /** The linking half of taking an index block: `ib` differs only in blocks of f. */
  lemma IndexLift(v: Volume, h: nat, f: nat, ib: seq<IBlock>)
    requires Core(v) && OpenOn(v, h, f) && v.ifl != [] && |ib| == |v.ib|
    requires forall i :: 0 <= i < |v.ib| && !IsOf(v.iown, i, f) ==> ib[i] == v.ib[i]
    requires Body(ib, v.sectors, FileOf(IndexTaken(v, h, f, ib), f))
    ensures Core(IndexTaken(v, h, f, ib))
    ensures forall g :: 0 <= g < |v.dir.files| && g != f && ExactFile(v, g) ==> ExactFile(IndexTaken(v, h, f, ib), g)
  {
    hide Body, EmptyIBlock, DFreeLinked, IFreeLinked, Below, Link;
    var w := IndexTaken(v, h, f, ib);
    TopIsFree(v);
    Take(v.iown, v.ifl, v.chains, f);
    assert forall p :: 0 <= p < |v.ifl| ==> v.iown[v.ifl[p]] == FreeAt(p);
    IPopLinked(v.ib, ib, v.ifl);
    Lift(v, w, f);
  }

  lemma FirstIndexStep(v: Volume, h: nat, f: nat)
    requires Core(v) && OpenOn(v, h, f) && v.ifl != []
    requires Clean(FileOf(v, f)) && v.chains[f] == [] && FileOf(v, f).c.byteptr == 512
    ensures Core(IndexTaken(v, h, f, v.ib))
    ensures forall g :: 0 <= g < |v.dir.files| && g != f && ExactFile(v, g) ==> ExactFile(IndexTaken(v, h, f, v.ib), g)
  {
    hide FreeLists, Partition, Covers, IndexOk, DataOk, EmptyIBlock;
    var x, w := FileOf(v, f), IndexTaken(v, h, f, v.ib);
    TopIsFree(v);
    FirstIndex(v.ib, v.sectors, x, Top(v.ifl));
    assert x.c.inum == NULLID;
    assert FileOf(w, f) == x.(ilist := Top(v.ifl), chain := [Top(v.ifl)],
                              c := x.c.(inum := Top(v.ifl), iblock := EmptyIBlock(0), ibdirty := true));
    IndexLift(v, h, f, v.ib);
  }

  lemma NextIndexStep(v: Volume, h: nat, f: nat)
    requires Core(v) && OpenOn(v, h, f) && v.ifl != [] && |v.chains[f]| < 0x8_0000
    requires Clean(FileOf(v, f)) && v.chains[f] != [] && FileOf(v, f).c.byteptr == 512
    requires FileOf(v, f).c.inum != NULLID && FileOf(v, f).c.iblock.next == NULLID
    ensures var c := FileOf(v, f).c;
            && c.iblock.offset == 8192 * (|v.chains[f]| - 1) && 0 <= c.inum < |v.ib| && IBlockOk(c.iblock)
            && Core(IndexTaken(v, h, f, v.ib[c.inum := c.iblock.(next := Top(v.ifl))]))
            && (forall g :: 0 <= g < |v.dir.files| && g != f && ExactFile(v, g) ==>
                  ExactFile(IndexTaken(v, h, f, v.ib[c.inum := c.iblock.(next := Top(v.ifl))]), g))
  {
    hide Body, FreeLists, Covers, EmptyIBlock;
    var x, n := FileOf(v, f), Top(v.ifl);
    TopIsFree(v);
    assert n !in x.chain by {
      forall k | 0 <= k < |x.chain| ensures x.chain[k] != n {
        assert v.iown[v.chains[f][k]] == Of(f, k);
      }
    }
    NextIndex(v.ib, v.sectors, x, n);
    InOwnList(v, f, x.c.inum, x.c.dnum);
    var ib := v.ib[x.c.inum := x.c.iblock.(next := n)];
    assert FileOf(IndexTaken(v, h, f, ib), f) ==
           x.(chain := x.chain + [n],
              c := x.c.(inum := n, iblock := EmptyIBlock(8192 * |x.chain|), ibdirty := true, dnum := NULLID));
    IndexLift(v, h, f, ib);
  }

  /** Pop data block d = Top(dfl) and point the current slot of file f at it. */
  function DataTaken(v: Volume, h: nat, f: nat, fill: Sector): Volume
    requires h < |v.tab| && h < |v.at| && f < |v.slots| && v.dfl != []
    requires |v.tab[h].cache.iblock.dba| == 16
  {
    var d, c := Top(v.dfl), v.tab[h].cache;
    var c' := c.(iblock := c.iblock.(dba := c.iblock.dba[Dindex(c.pos) := d]), ibdirty := true,
                 dnum := d, dblock := fill, byteptr := c.pos % 512);
    v.(dir := v.dir.(dfree := Top(Pop(v.dfl))),
       tab := v.tab[h := v.tab[h].(cache := c')], at := v.at[h := |v.slots[f]|],
       dfl := Pop(v.dfl), down := v.down[d := Of(f, |v.slots[f]|)], slots := v.slots[f := v.slots[f] + [d]])
  }

  lemma AddDataStep(v: Volume, h: nat, f: nat, fill: Sector)
    requires Core(v) && OpenOn(v, h, f) && v.dfl != []
    requires Covering(FileOf(v, f)) && FileOf(v, f).c.pos / 512 == |v.slots[f]|
    ensures |v.tab[h].cache.iblock.dba| == 16 && Core(DataTaken(v, h, f, fill))
    ensures forall g :: 0 <= g < |v.dir.files| && g != f && ExactFile(v, g) ==> ExactFile(DataTaken(v, h, f, fill), g)
  {
    hide Body;
    var x := FileOf(v, f);
    SlotOfPosition(v.ib, v.sectors, x);
    DataLift(v, h, f, fill);
  }

  lemma DataLift(v: Volume, h: nat, f: nat, fill: Sector)
    requires Core(v) && OpenOn(v, h, f) && v.dfl != []
    requires Covering(FileOf(v, f)) && FileOf(v, f).c.pos / 512 == |v.slots[f]| && |v.tab[h].cache.iblock.dba| == 16
    ensures Core(DataTaken(v, h, f, fill))
    ensures forall g :: 0 <= g < |v.dir.files| && g != f && ExactFile(v, g) ==> ExactFile(DataTaken(v, h, f, fill), g)
  {
    hide Body, Covering, DFreeLinked, IFreeLinked, Below, Link, Dindex;
    var x, d, w := FileOf(v, f), Top(v.dfl), DataTaken(v, h, f, fill);
    TopIsFree(v);
    assert d !in x.slots by {
      forall k | 0 <= k < |x.slots| ensures x.slots[k] != d {
        assert v.down[v.slots[f][k]] == Of(f, k);
      }
    }
    AddData(v.ib, v.sectors, x, d, fill);
    Take(v.down, v.dfl, v.slots, f);
    DPopLinked(v.sectors, v.dfl);
    Lift(v, w, f);
  }

  function Stored(v: Volume, h: nat, f: nat, b: byte): Volume
    requires h < |v.tab| && f < |v.data| && f < |v.dir.files|
    requires v.tab[h].cache.byteptr < 512 && v.tab[h].cache.pos <= |v.data[f]|
  {
    var c, e := v.tab[h].cache, v.dir.files[f];
    var c' := c.(dblock := c.dblock[c.byteptr := b], byteptr := c.byteptr + 1, pos := c.pos + 1, dbdirty := true);
    v.(tab := v.tab[h := v.tab[h].(cache := c')], data := v.data[f := Put(v.data[f], c.pos, b)],
       dir := v.dir.(files := v.dir.files[f := e.(size := if c.pos >= e.size then e.size + 1 else e.size)]))
  }

  lemma StoreStep(v: Volume, h: nat, f: nat, b: byte)
    requires Core(v) && OpenOn(v, h, f)
    requires v.tab[h].cache.byteptr < 512 && v.tab[h].cache.pos <= |v.data[f]|
    ensures Core(Stored(v, h, f, b))
    ensures forall g :: 0 <= g < |v.dir.files| && g != f && ExactFile(v, g) ==> ExactFile(Stored(v, h, f, b), g)
  {
    hide Body, IFreeLinked, DFreeLinked, Below, Link, Partition, Covers, Put;
    var x, w := FileOf(v, f), Stored(v, h, f, b);
    Store(v.ib, v.sectors, x, b);
    Lift(v, w, f);
  }
}
