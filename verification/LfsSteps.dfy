/** What each part of the file system's code does to the volume, as lemmas about the volume as a value. */
module LfsSteps {
  import opened LfsDisk
  import opened LfsBlocks
  import opened LfsFile
  import opened LfsVolume
  import opened LfsSpec

  function AbsOf(v: Volume): FileSys
    requires Shape(v)
  {
    FileSys(seq(|v.dir.files|, f requires 0 <= f < |v.dir.files| => v.dir.files[f].name),
            v.data,
            seq(|v.tab|, h requires 0 <= h < |v.tab| =>
              if v.tab[h].used then Open(v.tab[h].file, v.tab[h].cache.pos) else Closed))
  }

  lemma AbsSound(v: Volume)
    requires Inv(v)
    ensures Sound(AbsOf(v))
  {
    hide Body, Owners, FreeLists;
    forall h | 0 <= h < |v.tab| && v.tab[h].used
      ensures v.tab[h].file < |v.data| && v.tab[h].cache.pos <= |v.data[v.tab[h].file]|
    {
      assert ExactFile(v, v.tab[h].file);
    }
  }

  lemma EmptyVolume(v: Volume)
    requires Shape(v) && v.dir.files == [] && Owners(v) && FreeLists(v)
    requires forall h :: 0 <= h < |v.tab| ==> !v.tab[h].used
    ensures Inv(v)
  {
    hide Owners, FreeLists;
  }

  /** Does an access at position pos of a file of `size` bytes need a new block? */
  predicate NeedsIndex(pos: nat, size: nat) { pos == size && size % 8192 == 0 }
  predicate NeedsData(pos: nat, size: nat) { pos == size && size % 512 == 0 }

  predicate Exhausted(dir: Directory, pos: nat, size: nat) {
    (NeedsIndex(pos, size) && dir.ifree == NULLID) || (NeedsData(pos, size) && dir.dfree == NULLID)
  }

  const DFILL: byte := 43

  ghost predicate OthersExact(v: Volume, f: nat)
    requires Shape(v)
  {
    forall g :: 0 <= g < |v.dir.files| && g != f ==> ExactFile(v, g)
  }

  /** While blocks are being set up for file f: everything holds, except that
      the chain may already reach past the end of the file. */
  /** After the first part of lfsetup: some index block is in memory, or the file is empty and no
      index block is free. */
  ghost predicate FirstDone(v: Volume, w: Volume, h: nat, f: nat, ok: bool) {
    && Shape(v) && f < |v.dir.files| && (ok ==> Shape(w) && f < |w.dir.files|)
    && (ok ==> Settling(w, h, f) && SameFiles(v, w) && Indexed(FileOf(w, f)))
    && (ok ==> w.dir.dfree == v.dir.dfree && |w.chains[f]| >= |v.chains[f]|)
    && (!ok ==> |v.data[f]| == 0 && v.dir.ifree == NULLID)
    && (ok && |w.chains[f]| != |v.chains[f]| ==> v.dir.ifree != NULLID && |w.data[f]| == 0)
    && (ok && |w.chains[f]| == |v.chains[f]| ==> w.dir == v.dir && w.chains == v.chains)
  }

  ghost predicate Settling(v: Volume, h: nat, f: nat) {
    && Core(v) && OpenOn(v, h, f) && OthersExact(v, f)
    && (var x := FileOf(v, f);
        && v.dir.files[f].size == |x.data| && x.c.pos <= |x.data|
        && FillsData(|x.slots|, |x.data|)
        && (FillsIndex(|x.chain|, |x.data|) || (x.c.pos == |x.data| && FillsIndex(|x.chain|, |x.data| + 1)))
        && x.c.byteptr == 512 && !x.c.dbdirty)
  }

  /** An index block at or before the position is in memory; a dirty one covers it. */
  ghost predicate Indexed(x: File) {
    && x.c.inum != NULLID
    && x.c.iblock.offset <= x.c.pos - x.c.pos % 8192
    && (x.c.ibdirty ==> x.c.iblock.offset == x.c.pos - x.c.pos % 8192)
  }

  /** What setting up blocks for file f never changes. */
  ghost predicate SameFiles(v: Volume, w: Volume)
    requires Shape(v) && Shape(w)
  {
    && AbsOf(w) == AbsOf(v) && |w.dir.files| == |v.dir.files|
    && forall g :: 0 <= g < |v.dir.files| ==> w.dir.files[g].size == v.dir.files[g].size
  }

  lemma OpenIsFile(v: Volume, h: nat, f: nat)
    requires Core(v) && OpenOn(v, h, f)
    ensures Shape(v) && f < |v.dir.files| && v.handle[f] == h && h < |v.at|
    ensures FileOf(v, f) == File(v.dir.files[f].ilist, v.chains[f], v.slots[f], v.data[f], v.tab[h].cache, v.at[h])
  {
    hide Body, Owners, FreeLists;
  }

  lemma FlushSettles(v: Volume, h: nat, f: nat)
    requires Inv(v) && OpenOn(v, h, f) && v.tab[h].cache.byteptr == 512
    ensures Settling(Flushed(v, h), h, f) && SameFiles(v, Flushed(v, h)) && Clean(FileOf(Flushed(v, h), f))
    ensures Clean(FileOf(v, f)) ==> Flushed(v, h) == v
  {
    hide Body, Owners, FreeLists;
    FlushStep(v, h, f);
    assert ExactFile(v, f);
    var w := Flushed(v, h);
    assert AbsOf(w).handles == AbsOf(v).handles;
  }

  lemma LoadFirst(v: Volume, h: nat, f: nat)
    requires Settling(v, h, f) && Clean(FileOf(v, f)) && v.chains[f] != []
    ensures var n := v.dir.files[f].ilist;
            && n != NULLID && 0 <= n < |v.ib|
            && (var w := WithCache(v, h, v.tab[h].cache.(inum := n, iblock := v.ib[n]), v.at[h]);
                && Settling(w, h, f) && SameFiles(v, w) && Indexed(FileOf(w, f)) && w.chains == v.chains && w.dir == v.dir)
  {
    hide Owners, FreeLists, IndexOk, DataOk, DataCacheOk;
    OpenIsFile(v, h, f);
    var x := FileOf(v, f);
    LoadIndex(v.ib, v.sectors, x, 0);
    CacheStep(v, h, f, x.c.(inum := x.chain[0], iblock := v.ib[x.chain[0]]), x.at);
    var w := WithCache(v, h, x.c.(inum := x.chain[0], iblock := v.ib[x.chain[0]]), x.at);
    assert AbsOf(w).handles == AbsOf(v).handles;
  }

  lemma SettlingShape(v: Volume, h: nat, f: nat)
    requires Settling(v, h, f)
    ensures Core(v) && Shape(v) && OpenOn(v, h, f) && f < |v.dir.files|
  {
    hide Body, Owners, FreeLists;
    OpenIsFile(v, h, f);
  }

  /** What the code of lfsetup leaves behind is the step the proof is about. */
  lemma IndexTakenIs(v: Volume, w: Volume, h: nat, f: nat)
    requires Shape(v) && h < |v.tab| && f < |v.dir.files| && v.ifl != [] && v.chains[f] != []
    requires var c := v.tab[h].cache; c.iblock.offset == 8192 * (|v.chains[f]| - 1) && 0 <= c.inum < |v.ib|
    requires w == v.(ib := w.ib, dir := w.dir, tab := w.tab, ifl := w.ifl, iown := w.iown, chains := w.chains)
    requires var n, c := Top(v.ifl), v.tab[h].cache;
             && w.ib == v.ib[c.inum := c.iblock.(next := n)]
             && w.dir == v.dir.(ifree := Top(Pop(v.ifl)))
             && w.tab == v.tab[h := v.tab[h].(cache :=
                  c.(inum := n, iblock := EmptyIBlock(c.iblock.offset + 8192), ibdirty := true, dnum := NULLID))]
             && w.ifl == Pop(v.ifl) && w.iown == v.iown[n := Of(f, |v.chains[f]|)]
             && w.chains == v.chains[f := v.chains[f] + [n]]
    ensures w == IndexTaken(v, h, f, w.ib)
  {
    hide EmptyIBlock, Top, Pop;
    assert w.dir.files == v.dir.files[f := v.dir.files[f]];
  }

  lemma SettlingPosition(v: Volume, h: nat, f: nat)
    requires Settling(v, h, f)
    ensures Core(v) && Shape(v) && OpenOn(v, h, f) && f < |v.dir.files| && v.tab[h].cache.pos <= |v.data[f]|
  {
    hide Body, Owners, FreeLists;
    OpenIsFile(v, h, f);
  }

  lemma SameFilesAbs(v: Volume, w: Volume)
    requires Shape(v) && Shape(w) && SameFiles(v, w)
    ensures AbsOf(w) == AbsOf(v) && w.data == v.data && |w.tab| == |v.tab|
  {
    assert |AbsOf(w).handles| == |AbsOf(v).handles|;
  }

  lemma SameFilesTrans(u: Volume, v: Volume, w: Volume)
    requires Shape(u) && Shape(v) && Shape(w) && SameFiles(u, v) && SameFiles(v, w)
    ensures SameFiles(u, w)
  {
  }

  /** The abstract files and handles fix what the control block says. */
  lemma SameFilesFacts(v: Volume, w: Volume, h: nat, f: nat)
    requires Shape(v) && Shape(w) && SameFiles(v, w) && OpenOn(v, h, f)
    ensures OpenOn(w, h, f) && w.tab[h].cache.pos == v.tab[h].cache.pos && w.data == v.data
  {
    assert AbsOf(w).handles[h] == AbsOf(v).handles[h];
  }

  lemma FirstFacts(v: Volume, h: nat, f: nat)
    requires Settling(v, h, f)
    ensures Core(v) && Shape(v) && OpenOn(v, h, f) && f < |v.dir.files| && v.handle[f] == h && h < |v.at|
    ensures FileOf(v, f) == File(v.dir.files[f].ilist, v.chains[f], v.slots[f], v.data[f], v.tab[h].cache, v.at[h])
    ensures var e, c := v.dir.files[f], v.tab[h].cache;
            && (e.ilist == NULLID <==> v.chains[f] == [])
            && (v.chains[f] == [] ==> |v.data[f]| == 0 && c.inum == NULLID)
            && (c.inum == NULLID ==> c.dnum == NULLID)
            && (Clean(FileOf(v, f)) && c.inum != NULLID && c.pos >= c.iblock.offset ==> Indexed(FileOf(v, f)))
  {
    hide Owners, FreeLists, DataOk, DataCacheOk, PointerOk;
    OpenIsFile(v, h, f);
    var c := v.tab[h].cache;
    if c.inum != NULLID {
      RoundDown(c.pos, c.iblock.offset / 8192);
    }
  }

  lemma RoundDown(pos: nat, k: nat)
    ensures 8192 * k <= pos ==> 8192 * k <= pos - pos % 8192
  {
  }

  lemma FirstIndexSettles(v: Volume, h: nat, f: nat)
    requires Settling(v, h, f) && Clean(FileOf(v, f)) && v.chains[f] == [] && v.ifl != []
    requires |v.data[f]| == 0
    ensures var w := IndexTaken(v, h, f, v.ib);
            Settling(w, h, f) && SameFiles(v, w) && Indexed(FileOf(w, f))
  {
    hide Body, Owners, FreeLists;
    OpenIsFile(v, h, f);
    TopIsFree(v);
    FirstIndexStep(v, h, f);
    var w := IndexTaken(v, h, f, v.ib);
    assert AbsOf(w).handles == AbsOf(v).handles && AbsOf(w).names == AbsOf(v).names;
  }

  /** The chain of a file leaves room for one more index block at its end. */
  lemma ChainRoom(v: Volume, f: nat)
    requires Core(v) && f < |v.dir.files| && FillsData(|v.slots[f]|, |v.data[f]|) && |v.data[f]| == 8192 * |v.chains[f]|
    ensures |v.chains[f]| < 0x8_0000
  {
    hide Bodies, Handles, FreeLists;
    FileFits(v.down, v.dfl, v.slots, v.ibsectors + 1, |v.sectors|, f);
  }

  /** Where the walk stands: the index block in memory is block k of the chain. */
  lemma WalkPosition(v: Volume, h: nat, f: nat) returns (k: nat)
    requires Settling(v, h, f) && Indexed(FileOf(v, f))
    ensures k < |v.chains[f]| && v.tab[h].cache.iblock == IndexBlock(v.chains[f], v.slots[f], k)
    ensures v.tab[h].cache.iblock.offset == 8192 * k && v.tab[h].cache.inum == v.chains[f][k]
    ensures var c := v.tab[h].cache;
            c.iblock.next == (if k + 1 < |v.chains[f]| then v.chains[f][k + 1] else NULLID)
            && (c.pos - c.pos % 8192 > c.iblock.offset ==> !c.ibdirty)
            && (c.pos - c.pos % 8192 > c.iblock.offset && k + 1 == |v.chains[f]| ==>
                  |v.data[f]| == 8192 * |v.chains[f]| && c.pos == |v.data[f]|)
            && (k + 1 < |v.chains[f]| ==> v.chains[f][k + 1] != NULLID && 0 <= v.chains[f][k + 1] < |v.ib|)
  {
    hide Owners, FreeLists, DataOk, DataCacheOk, PointerOk;
    OpenIsFile(v, h, f);
    k := v.tab[h].cache.iblock.offset / 8192;
  }

  lemma WalkClean(v: Volume, h: nat, f: nat)
    requires Settling(v, h, f) && Indexed(FileOf(v, f))
    requires v.tab[h].cache.pos - v.tab[h].cache.pos % 8192 > v.tab[h].cache.iblock.offset
    ensures Clean(FileOf(v, f))
  {
    hide Body, Owners, FreeLists;
    OpenIsFile(v, h, f);
  }

  lemma WalkDone(v: Volume, h: nat, f: nat)
    requires Settling(v, h, f) && Indexed(FileOf(v, f))
    ensures Shape(v) && h < |v.tab| && v.tab[h].cache.iblock.offset >= 0
    ensures v.tab[h].cache.pos - v.tab[h].cache.pos % 8192 <= v.tab[h].cache.iblock.offset ==> Covering(FileOf(v, f))
  {
    hide Owners, FreeLists, IndexOk, DataOk, DataCacheOk;
    OpenIsFile(v, h, f);
  }

  lemma SameFilesTrivial(v: Volume)
    requires Shape(v)
    ensures SameFiles(v, v)
  {
  }

  lemma LoadNext(v: Volume, h: nat, f: nat, k: nat)
    requires Settling(v, h, f) && Indexed(FileOf(v, f)) && Clean(FileOf(v, f)) && k + 1 < |v.chains[f]|
    requires v.tab[h].cache.pos - v.tab[h].cache.pos % 8192 > 8192 * k
    ensures var n := v.chains[f][k + 1];
            && 0 <= n < |v.ib| && v.ib[n].offset == 8192 * (k + 1)
            && (var w := WithCache(v, h, v.tab[h].cache.(inum := n, iblock := v.ib[n], dnum := NULLID), v.at[h]);
                && Settling(w, h, f) && SameFiles(v, w) && Indexed(FileOf(w, f)))
  {
    hide Owners, FreeLists, IndexOk, DataOk, DataCacheOk, IndexCacheOk, PointerOk, Sized;
    OpenIsFile(v, h, f);
    var x := FileOf(v, f);
    LoadIndex(v.ib, v.sectors, x, k + 1);
    var c := x.c.(inum := x.chain[k + 1], iblock := v.ib[x.chain[k + 1]], dnum := NULLID);
    CacheStep(v, h, f, c, x.at);
    var w := WithCache(v, h, c, x.at);
    assert AbsOf(w).handles == AbsOf(v).handles;
  }

  lemma NextIndexSettles(v: Volume, h: nat, f: nat)
    requires Settling(v, h, f) && Indexed(FileOf(v, f)) && Clean(FileOf(v, f)) && v.ifl != []
    requires v.chains[f] != [] && v.tab[h].cache.iblock.next == NULLID
    requires |v.data[f]| == 8192 * |v.chains[f]| && v.tab[h].cache.pos == |v.data[f]|
    ensures var c := v.tab[h].cache;
            && 0 <= c.inum < |v.ib| && IBlockOk(c.iblock) && c.iblock.offset == 8192 * (|v.chains[f]| - 1)
            && (var w := IndexTaken(v, h, f, v.ib[c.inum := c.iblock.(next := Top(v.ifl))]);
                && Settling(w, h, f) && SameFiles(v, w) && Indexed(FileOf(w, f)))
  {
    hide Body, Owners, FreeLists, FlushedIb, Dindex;
    OpenIsFile(v, h, f);
    ChainRoom(v, f);
    TopIsFree(v);
    assert v.tab[h].cache.pos % 8192 == 0 && FillsIndex(|v.chains[f]| + 1, |v.data[f]| + 1);
    NextIndexStep(v, h, f);
    var c := v.tab[h].cache;
    var w := IndexTaken(v, h, f, v.ib[c.inum := c.iblock.(next := Top(v.ifl))]);
    assert OthersExact(w, f) by {
      forall g | 0 <= g < |w.dir.files| && g != f ensures ExactFile(w, g) {
        assert ExactFile(v, g);
      }
    }
    assert AbsOf(w).handles == AbsOf(v).handles && AbsOf(w).names == AbsOf(v).names;
  }

  function Reach(pos: nat, size: nat): nat { if pos < size then size else pos + 1 }

  /** The blocks for the current position of file f are in memory. */
  ghost predicate Positioned(v: Volume, h: nat, f: nat) {
    && Core(v) && OpenOn(v, h, f) && OthersExact(v, f)
    && (var x := FileOf(v, f);
        && v.dir.files[f].size == |x.data| && x.c.pos <= |x.data|
        && FillsData(|x.slots|, Reach(x.c.pos, |x.data|))
        && FillsIndex(|x.chain|, Reach(x.c.pos, |x.data|))
        && x.c.byteptr < 512)
  }

  lemma PositionedChain(v: Volume, h: nat, f: nat)
    requires Positioned(v, h, f)
    ensures Core(v) && Shape(v) && OpenOn(v, h, f) && f < |v.dir.files|
    ensures v.tab[h].cache.pos < |v.data[f]| ==> FillsIndex(|v.chains[f]|, |v.data[f]|)
    ensures NeedsIndex(v.tab[h].cache.pos, |v.data[f]|) ==> FillsIndex(|v.chains[f]|, |v.data[f]| + 1)
    ensures v.tab[h].cache.pos <= |v.data[f]| && v.dir.files[f].size == |v.data[f]|
  {
    hide Body, Owners, FreeLists;
    OpenIsFile(v, h, f);
  }

  lemma SetupStart(v: Volume, h: nat, f: nat)
    requires Inv(v) && OpenOn(v, h, f) && v.tab[h].cache.byteptr == 512
    ensures Core(v) && Shape(v) && f < |v.dir.files| && v.tab[h].cache.pos <= |v.data[f]|
    ensures FillsIndex(|v.chains[f]|, |v.data[f]|)
    ensures var w := Flushed(v, h);
            && Shape(w) && Settling(w, h, f) && SameFiles(v, w) && Clean(FileOf(w, f)) && OpenOn(w, h, f)
            && w.chains == v.chains && w.data == v.data && w.dir == v.dir && w.tab[h].cache.pos == v.tab[h].cache.pos
    ensures !v.tab[h].cache.ibdirty && !v.tab[h].cache.dbdirty ==> Flushed(v, h) == v
  {
    hide Body, Owners, FreeLists;
    OpenIsFile(v, h, f);
    FlushSettles(v, h, f);
    SettlingShape(Flushed(v, h), h, f);
    assert ExactFile(v, f);
  }

  /** A file that ends inside a data block has room for one more byte. */
  lemma RoomInside(size: nat, q: nat, n: nat)
    requires FillsData(q, size) && FillsIndex(n, size) && size / 512 < q
    ensures FillsData(q, size + 1) && FillsIndex(n, size + 1) && size % 512 != 0
  {
    var k, r := size / 512, size % 512;
    assert size == 512 * k + r && 512 * k < size;
  }

  /** A valid byte pointer means that the blocks are in memory already. */
  lemma AlreadyPositioned(v: Volume, h: nat, f: nat)
    requires Inv(v) && OpenOn(v, h, f) && v.tab[h].cache.byteptr < 512
    ensures Positioned(v, h, f) && !NeedsData(v.tab[h].cache.pos, |v.data[f]|)
    ensures !NeedsIndex(v.tab[h].cache.pos, |v.data[f]|)
  {
    hide Owners, FreeLists, IndexOk, DataOk;
    OpenIsFile(v, h, f);
    assert ExactFile(v, f);
    if v.tab[h].cache.pos == |v.data[f]| {
      RoomInside(|v.data[f]|, |v.slots[f]|, |v.chains[f]|);
    }
  }

  lemma PutStep(v: Volume, h: nat, f: nat, b: byte)
    requires Positioned(v, h, f)
    ensures Shape(v) && Sound(AbsOf(v)) && OpenOn(v, h, f) && f < |v.dir.files| && f < |v.data|
    ensures v.tab[h].cache.byteptr < 512 && v.tab[h].cache.pos <= |v.data[f]|
    ensures Inv(Stored(v, h, f, b)) && Outcome(AbsOf(Stored(v, h, f, b)), Ok) == PutcSpec(AbsOf(v), h, b)
  {
    hide Body, Owners, FreeLists, FlushedIb;
    OpenIsFile(v, h, f);
    StoreStep(v, h, f, b);
    PositionedSound(v, h, f);
    var w := Stored(v, h, f, b);
    assert ExactFile(w, f);
    assert AbsOf(w).names == AbsOf(v).names;
    assert AbsOf(w).handles == AbsOf(v).handles[h := Open(f, v.tab[h].cache.pos + 1)];
  }

  lemma GetStep(v: Volume, h: nat, f: nat)
    requires Positioned(v, h, f) && Shape(v) && Sound(AbsOf(v)) && h < |v.tab| && f < |v.data|
    requires v.tab[h].cache.pos < |v.data[f]|
    ensures var c := v.tab[h].cache;
            && h < |v.at| && c.byteptr < 512 && AbsOf(v).handles[h] == Open(f, c.pos)
            && (var w := WithCache(v, h, c.(byteptr := c.byteptr + 1, pos := c.pos + 1), v.at[h]);
                && Inv(w) && Outcome(AbsOf(w), Byte(c.dblock[c.byteptr])) == GetcSpec(AbsOf(v), h))
  {
    hide Body, Owners, FreeLists;
    OpenIsFile(v, h, f);
    Fetch(v.ib, v.sectors, FileOf(v, f));
    var c := v.tab[h].cache;
    CacheStep(v, h, f, c.(byteptr := c.byteptr + 1, pos := c.pos + 1), v.at[h]);
    var w := WithCache(v, h, c.(byteptr := c.byteptr + 1, pos := c.pos + 1), v.at[h]);
    assert ExactFile(w, f);
    assert AbsOf(w).handles == AbsOf(v).handles[h := Open(f, c.pos + 1)];
  }

  lemma SeekStep(v: Volume, h: nat, f: nat, offset: nat)
    requires Inv(v) && OpenOn(v, h, f) && f < |v.data| && offset <= |v.data[f]| && Shape(v) && Sound(AbsOf(v))
    ensures var w := WithCache(v, h, v.tab[h].cache.(pos := offset, byteptr := 512), v.at[h]);
            Inv(w) && Outcome(AbsOf(w), Ok) == SeekSpec(AbsOf(v), h, offset)
  {
    hide Body, Owners, FreeLists;
    OpenIsFile(v, h, f);
    Reposition(v.ib, v.sectors, FileOf(v, f), offset);
    var c := v.tab[h].cache.(pos := offset, byteptr := 512);
    CacheStep(v, h, f, c, v.at[h]);
    var w := WithCache(v, h, c, v.at[h]);
    assert ExactFile(v, f) && ExactFile(w, f);
    assert AbsOf(w).handles == AbsOf(v).handles[h := Open(f, offset)];
  }

  function ClosedVolume(v: Volume, h: nat): Volume
    requires h < |v.tab| && v.tab[h].file < |v.handle|
  {
    v.(tab := v.tab[h := v.tab[h].(used := false)], handle := v.handle[v.tab[h].file := -1])
  }

  /** A flushed file can be closed: the disk alone holds it. */
  lemma CloseStep(v: Volume, h: nat)
    requires Inv(v) && h < |v.tab| && v.tab[h].used && !v.tab[h].cache.ibdirty && !v.tab[h].cache.dbdirty
    ensures Shape(v) && v.tab[h].file < |v.handle| && Sound(AbsOf(v))
    ensures Inv(ClosedVolume(v, h)) && Outcome(AbsOf(ClosedVolume(v, h)), Ok) == CloseSpec(AbsOf(v), h)
  {
    hide Body, Partition, Covers, IFreeLinked, DFreeLinked;
    var f := v.tab[h].file;
    assert ExactFile(v, f);
    OpenFacts(v, h);
    OpenIsFile(v, h, f);
    InvShape(v);
    Uncache(v.ib, v.sectors, FileOf(v, f), NoCache(), 0);
    var w := ClosedVolume(v, h);
    assert FileOf(w, f) == FileOf(v, f).(c := NoCache(), at := 0);
    forall g | 0 <= g < |v.dir.files| && g != f ensures FileOf(w, g) == FileOf(v, g) {
    }
    CloseLift(v, w, f);
    assert AbsOf(w).handles == AbsOf(v).handles[h := Closed];
    assert AbsOf(w).names == AbsOf(v).names;
  }

  lemma FlushInv(v: Volume, h: nat)
    requires Inv(v) && h < |v.tab| && v.tab[h].used
    ensures Inv(Flushed(v, h)) && Shape(v) && AbsOf(Flushed(v, h)) == AbsOf(v)
    ensures var t := Flushed(v, h).tab[h]; t.used && t.file == v.tab[h].file && !t.cache.ibdirty && !t.cache.dbdirty
    ensures var c := v.tab[h].cache; !c.ibdirty && !c.dbdirty ==> Flushed(v, h) == v
  {
    hide Body, Owners, FreeLists;
    var f, w := v.tab[h].file, Flushed(v, h);
    OpenFacts(v, h);
    OpenIsFile(v, h, f);
    FlushStep(v, h, f);
    assert ExactFile(v, f) && ExactFile(w, f);
    assert AbsOf(w).handles == AbsOf(v).handles;
  }

  lemma CloseLift(v: Volume, w: Volume, f: nat)
    requires Inv(v) && Shape(w) && f < |v.dir.files| && SameElsewhere(v, w, f)
    requires Owners(w) && FreeLists(w) && Handles(w) && Body(w.ib, w.sectors, FileOf(w, f)) && ExactFile(w, f)
    ensures Inv(w)
  {
    hide Body, Owners, FreeLists, Handles, FileOf;
    Lift(v, w, f);
    assert forall g :: 0 <= g < |v.dir.files| ==> ExactFile(v, g);
  }

  function FreshCache(c: Cache): Cache {
    c.(pos := 0, inum := NULLID, dnum := NULLID, byteptr := 512, ibdirty := false, dbdirty := false)
  }

  /** Handle h opened on the existing file f. */
  function Opened(v: Volume, h: nat, f: nat, name: string): Volume
    requires h < |v.tab| && f < |v.handle|
  {
    v.(tab := v.tab[h := Cblk(true, f, name, FreshCache(v.tab[h].cache))], handle := v.handle[f := h])
  }

  lemma OpenStep(v: Volume, h: nat, f: nat, name: string)
    requires Inv(v) && h < |v.tab| && !v.tab[h].used && f < |v.dir.files| && Shape(v)
    requires v.handle[f] == -1 && v.dir.files[f].name == name
    ensures Inv(Opened(v, h, f, name))
    ensures AbsOf(Opened(v, h, f, name)) == AbsOf(v).(handles := AbsOf(v).handles[h := Open(f, 0)])
  {
    hide Body, Partition, Covers, IFreeLinked, DFreeLinked;
    assert ExactFile(v, f);
    var c := FreshCache(v.tab[h].cache);
    Uncache(v.ib, v.sectors, FileOf(v, f), c, v.at[h]);
    var w := Opened(v, h, f, name);
    assert FileOf(w, f) == FileOf(v, f).(c := c, at := v.at[h]);
    OpenElsewhere(v, w, h, f);
    CloseLift(v, w, f);
    assert AbsOf(w).handles == AbsOf(v).handles[h := Open(f, 0)];
  }

  lemma OpenElsewhere(v: Volume, w: Volume, h: nat, f: nat)
    requires Shape(v) && Shape(w) && Handles(v) && h < |v.tab| && !v.tab[h].used && f < |v.dir.files|
    requires |w.tab| == |v.tab| && |w.handle| == |v.handle|
    requires w == v.(tab := v.tab[h := w.tab[h]], handle := v.handle[f := w.handle[f]])
    ensures forall g :: 0 <= g < |v.dir.files| && g != f ==> FileOf(w, g) == FileOf(v, g)
  {
  }

  lemma ClosedByName(v: Volume, f: nat)
    requires Inv(v) && Shape(v) && f < |v.dir.files|
    ensures !IsOpen(AbsOf(v), v.dir.files[f].name) ==> v.handle[f] == -1
  {
    hide Body, Owners, FreeLists;
    var h := v.handle[f];
    if h != -1 {
      assert AbsOf(v).handles[h] == Open(f, v.tab[h].cache.pos);
      assert AbsOf(v).names[f] == v.dir.files[f].name;
    }
  }

  /** Comparing names of control blocks finds out whether a file is open. */
  lemma OpenByName(v: Volume, name: string)
    requires Inv(v) && Shape(v)
    ensures IsOpen(AbsOf(v), name) <==> exists h :: 0 <= h < |v.tab| && v.tab[h].used && v.tab[h].name == name
    ensures forall h :: 0 <= h < |v.tab| ==> (AbsOf(v).handles[h] == Closed <==> !v.tab[h].used)
  {
    hide Body, Owners, FreeLists;
    var a := AbsOf(v);
    forall h | 0 <= h < |v.tab| && v.tab[h].used
      ensures a.handles[h].Open? && v.tab[h].file < |a.names| && a.names[a.handles[h].file] == v.tab[h].name
    {
    }
  }

  /** The directory with one more, empty, file. */
  function Extended(v: Volume, name: string): Volume {
    v.(dir := v.dir.(files := v.dir.files + [Entry(name, 0, NULLID)]),
       chains := v.chains + [[]], slots := v.slots + [[]], data := v.data + [[]], handle := v.handle + [-1])
  }

  lemma ExtendStep(v: Volume, name: string)
    requires Inv(v) && Shape(v) && forall g :: 0 <= g < |v.dir.files| ==> v.dir.files[g].name != name
    ensures Inv(Extended(v, name)) && Shape(Extended(v, name))
    ensures AbsOf(Extended(v, name)) == FileSys(AbsOf(v).names + [name], AbsOf(v).data + [[]], AbsOf(v).handles)
  {
    hide Partition, Covers, IFreeLinked, DFreeLinked, IndexOk, DataOk, IndexBlock;
    var w, n := Extended(v, name), |v.dir.files|;
    AddList(v.iown, v.ifl, v.chains);
    AddList(v.down, v.dfl, v.slots);
    forall g | 0 <= g < n ensures FileOf(w, g) == FileOf(v, g) && ExactFile(w, g) {
      assert ExactFile(v, g);
    }
    NewFile(v.ib, v.sectors, FileOf(w, n));
    assert Handles(w);
    assert AbsOf(w).names == AbsOf(v).names + [name];
    assert AbsOf(w).handles == AbsOf(v).handles;
  }

  lemma NewFile(ib: seq<IBlock>, sectors: seq<Sector>, x: File)
    requires x == File(NULLID, [], [], [], NoCache(), 0)
    ensures Body(ib, sectors, x) && Exact(x)
  {
  }

  function Truncated(v: Volume, h: nat, f: nat, ib: seq<IBlock>, sectors: seq<Sector>): Volume
    requires Shape(v) && h < |v.tab| && f < |v.dir.files|
  {
    var chain, slots, e := v.chains[f], v.slots[f], v.dir.files[f];
    v.(ib := ib, sectors := sectors,
       dir := Directory(Top(v.dfl + slots), Top(v.ifl + Reversed(chain)),
                        v.dir.files[f := e.(size := 0, ilist := NULLID)]),
       tab := v.tab[h := v.tab[h].(cache := v.tab[h].cache.(pos := 0, inum := NULLID, dnum := NULLID, byteptr := 512))],
       chains := v.chains[f := []], slots := v.slots[f := []], data := v.data[f := []],
       ifl := v.ifl + Reversed(chain), dfl := v.dfl + slots,
       iown := Freed(ReversedOwner(v.iown, f, |chain|), f, |v.ifl|),
       down := Freed(v.down, f, |v.dfl|))
  }

  /** Index blocks of a freed chain, spliced in front of the old free list. */
  ghost predicate Spliced(ib: seq<IBlock>, chain: seq<Id>, ifree: Id) {
    forall k :: 0 <= k < |chain| ==>
      0 <= chain[k] < |ib| && ib[chain[k]].next == After(chain, k, ifree)
  }

  function After(chain: seq<Id>, k: nat, ifree: Id): Id
  {
    if k + 1 < |chain| then chain[k + 1] else ifree
  }

  lemma SplicedIsFree(ib: seq<IBlock>, ib': seq<IBlock>, ifl: seq<Id>, chain: seq<Id>)
    requires IFreeLinked(ib, ifl) && |ib'| == |ib| && Spliced(ib', chain, Top(ifl))
    requires forall p :: 0 <= p < |ifl| ==> ib'[ifl[p]] == ib[ifl[p]]
    ensures IFreeLinked(ib', ifl + Reversed(chain))
  {
    var free := ifl + Reversed(chain);
    forall p | 0 <= p < |free| ensures 0 <= free[p] < |ib'| && ib'[free[p]].next == Below(free, p) {
      if p < |ifl| {
        assert ib'[ifl[p]] == ib[ifl[p]] && Below(ifl, p) == Below(free, p);
      } else {
        SplicedAt(chain, ifl, p - |ifl|);
      }
    }
  }

  /** Place q above the old free list holds chain block |chain| - 1 - q. */
  lemma SplicedAt(chain: seq<Id>, ifl: seq<Id>, q: nat)
    requires q < |chain|
    ensures var k, free := |chain| - 1 - q, ifl + Reversed(chain);
            free[|ifl| + q] == chain[k] && Below(free, |ifl| + q) == After(chain, k, Top(ifl))
  {
    var free := ifl + Reversed(chain);
    assert free[|ifl| + q] == Reversed(chain)[q];
    if q > 0 {
      assert free[|ifl| + q - 1] == Reversed(chain)[q - 1];
    }
  }

  function Done(m: nat, n: nat): nat { if m < n then m else n }

  /** The first m data blocks are on the free list, in front of `free`. */
  ghost predicate Freeing(db: seq<Sector>, dfree: Id, slots: seq<Id>, m: nat, free: seq<Id>)
    requires m <= |slots|
  {
    && DFreeLinked(db, free + slots[..m]) && dfree == Top(free + slots[..m])
    && forall p, j :: 0 <= p < |free| && 0 <= j < |slots| ==> free[p] != slots[j]
  }

  lemma FreeOne(db: seq<Sector>, db': seq<Sector>, dfree: Id, dfree': Id, slots: seq<Id>, m: nat, free: seq<Id>)
    requires m < |slots| && Freeing(db, dfree, slots, m, free) && Within(slots, 0, |db|) && |db'| == |db|
    requires dfree' == slots[m] && Link(db'[slots[m]]) == dfree
    requires forall d :: 0 <= d < |db| && d != slots[m] ==> db'[d] == db[d]
    ensures Freeing(db', dfree', slots, m + 1, free)
  {
    hide Link;
    var before, after := free + slots[..m], free + slots[..m + 1];
    assert after == before + [slots[m]];
    forall p | 0 <= p < |after| ensures 0 <= after[p] < |db'| && Link(db'[after[p]]) == Below(after, p) {
      if p < |before| {
        assert after[p] == before[p] && Below(after, p) == Below(before, p);
        assert before[p] != slots[m];
        assert Link(db[before[p]]) == Below(before, p);
      }
    }
  }

  /** Truncation has dealt with the first k index blocks of the chain. */
  ghost predicate Walked(ib0: seq<IBlock>, ib: seq<IBlock>, chain: seq<Id>, slots: seq<Id>, k: nat, ifree: Id) {
    && |ib| == |ib0| && Within(chain, 0, |ib|) && k <= |chain| <= 0x8_0000
    && (forall i :: 0 <= i < |chain| ==> chain[i] != ifree)
    && (forall i :: 0 <= i < k ==> ib[chain[i]].next == After(chain, i, ifree))
    && (forall i :: k <= i < |chain| ==> ib[chain[i]] == IndexBlock(chain, slots, i))
    && (forall n :: 0 <= n < |ib| && n !in chain ==> ib[n] == ib0[n])
  }

  lemma WalkedStart(ib: seq<IBlock>, chain: seq<Id>, slots: seq<Id>, ifree: Id)
    requires Within(chain, 0, |ib|) && |chain| <= 0x8_0000
    requires forall k :: 0 <= k < |chain| ==> ib[chain[k]] == IndexBlock(chain, slots, k)
    requires forall k :: 0 <= k < |chain| ==> chain[k] != ifree
    ensures Walked(ib, ib, chain, slots, 0, ifree)
  {
  }

  lemma WalkedNow(ib0: seq<IBlock>, ib: seq<IBlock>, chain: seq<Id>, slots: seq<Id>, k: nat, ifree: Id)
    requires Walked(ib0, ib, chain, slots, k, ifree) && k < |chain|
    ensures 0 <= chain[k] < |ib| && chain[k] != ifree
    ensures var b := ib[chain[k]];
            && IBlockOk(b)
            && (forall i :: 0 <= i < 16 ==> b.dba[i] == (if 16 * k + i < |slots| then slots[16 * k + i] else NULLID))
            && (if b.next == NULLID then ifree else b.next) == After(chain, k, ifree)
            && After(chain, k, ifree) == (if k + 1 < |chain| then chain[k + 1] else ifree)
  {
    assert ib[chain[k]] == IndexBlock(chain, slots, k);
    assert k + 1 < |chain| ==> chain[k + 1] >= 0;
  }

  lemma WalkedStep(ib0: seq<IBlock>, ib: seq<IBlock>, chain: seq<Id>, slots: seq<Id>, k: nat, ifree: Id, b: IBlock)
    requires Walked(ib0, ib, chain, slots, k, ifree) && k < |chain| && b.next == After(chain, k, ifree)
    ensures 0 <= chain[k] < |ib| && Walked(ib0, ib[chain[k] := b], chain, slots, k + 1, ifree)
  {
    hide IndexBlock, After;
  }

  lemma WalkedDone(ib0: seq<IBlock>, ib: seq<IBlock>, chain: seq<Id>, slots: seq<Id>, k: nat, ifree: Id)
    requires Walked(ib0, ib, chain, slots, k, ifree)
    ensures k == |chain| ==> Spliced(ib, chain, ifree)
    ensures k < |chain| ==> chain[k] != ifree
    ensures forall n :: 0 <= n < |ib| && n !in chain ==> ib[n] == ib0[n]
  {
    hide IndexBlock, After;
  }

  lemma TruncateOwners(v: Volume, h: nat, f: nat, ib: seq<IBlock>, sectors: seq<Sector>)
    requires Shape(v) && Owners(v) && h < |v.tab| && f < |v.dir.files| && |ib| == |v.ib| && |sectors| == |v.sectors|
    ensures Owners(Truncated(v, h, f, ib, sectors))
  {
    var chain := v.chains[f];
    ReverseList(v.iown, v.ifl, v.chains, f);
    GiveBack(ReversedOwner(v.iown, f, |chain|), v.ifl, v.chains[f := Reversed(chain)], f);
    GiveBack(v.down, v.dfl, v.slots, f);
    assert v.chains[f := Reversed(chain)][f := []] == v.chains[f := []];
  }

  lemma TruncateStep(v: Volume, h: nat, f: nat, ib: seq<IBlock>, sectors: seq<Sector>)
    requires Inv(v) && OpenOn(v, h, f) && Shape(v) && f < |v.dir.files| && Clean(FileOf(v, f)) && |v.data[f]| > 0
    requires |ib| == |v.ib| && |sectors| == |v.sectors|
    requires Spliced(ib, v.chains[f], v.dir.ifree) && DFreeLinked(sectors, v.dfl + v.slots[f])
    requires forall i :: 0 <= i < |v.ib| && !IsOf(v.iown, i, f) ==> ib[i] == v.ib[i]
    requires forall d :: 0 <= d < |v.sectors| && !IsOf(v.down, d, f) ==> sectors[d] == v.sectors[d]
    ensures var w := Truncated(v, h, f, ib, sectors);
            && Inv(w) && Sound(AbsOf(v)) && Outcome(AbsOf(w), Ok) == TruncateSpec(AbsOf(v), h)
            && v.chains[f] != [] && w.dir.ifree == v.dir.files[f].ilist
  {
    hide Body, Partition, Covers, IFreeLinked, DFreeLinked, Spliced, Freed, ReversedOwner, Sound, Link;
    var w := Truncated(v, h, f, ib, sectors);
    OpenIsFile(v, h, f);
    InvShape(v);
    assert ExactFile(v, f);
    TruncateOwners(v, h, f, ib, sectors);
    FreeAreOthers(v, f);
    SplicedIsFree(v.ib, ib, v.ifl, v.chains[f]);
    var c := v.tab[h].cache.(pos := 0, inum := NULLID, dnum := NULLID, byteptr := 512);
    assert FileOf(w, f) == File(NULLID, [], [], [], c, v.at[h]);
    EmptiedFile(ib, sectors, FileOf(w, f));
    TruncatedIlist(v, f);
    TruncateElsewhere(v, h, f, ib, sectors);
    CloseLift(v, w, f);
  }

  lemma TruncateElsewhere(v: Volume, h: nat, f: nat, ib: seq<IBlock>, sectors: seq<Sector>)
    requires Shape(v) && Handles(v) && OpenOn(v, h, f) && f < |v.dir.files| && Sound(AbsOf(v))
    requires |ib| == |v.ib| && |sectors| == |v.sectors|
    ensures var w := Truncated(v, h, f, ib, sectors);
            && Shape(w) && Handles(w) && Outcome(AbsOf(w), Ok) == TruncateSpec(AbsOf(v), h)
            && (forall g :: 0 <= g < |v.dir.files| && g != f ==> FileOf(w, g) == FileOf(v, g) && w.dir.files[g] == v.dir.files[g])
            && (forall i :: !IsOf(v.iown, i, f) ==> !IsOf(w.iown, i, f))
            && (forall d :: !IsOf(v.down, d, f) ==> !IsOf(w.down, d, f))
  {
    hide Sound, Top, Reversed;
    var w := Truncated(v, h, f, ib, sectors);
    assert AbsOf(w).names == AbsOf(v).names;
    assert AbsOf(w).handles == AbsOf(v).handles[h := Open(f, 0)];
  }

  lemma FreeAreOthers(v: Volume, f: nat)
    requires Shape(v) && Owners(v)
    ensures forall p :: 0 <= p < |v.ifl| ==> 0 <= v.ifl[p] < |v.ib| && !IsOf(v.iown, v.ifl[p], f)
    ensures forall p :: 0 <= p < |v.dfl| ==> 0 <= v.dfl[p] < |v.sectors| && !IsOf(v.down, v.dfl[p], f)
  {
  }

  lemma TruncatedIlist(v: Volume, f: nat)
    requires Inv(v) && Shape(v) && f < |v.dir.files| && |v.data[f]| > 0
    ensures v.chains[f] != [] && v.dir.files[f].ilist == v.chains[f][0] == Top(v.ifl + Reversed(v.chains[f]))
  {
    hide Owners, FreeLists, IndexOk, DataOk;
    assert ExactFile(v, f);
  }

  lemma EmptiedFile(ib: seq<IBlock>, sectors: seq<Sector>, x: File)
    requires x.ilist == NULLID && x.chain == [] && x.slots == [] && x.data == []
    requires x.c.pos == 0 && x.c.inum == NULLID && x.c.dnum == NULLID && x.c.byteptr == 512 && Clean(x)
    ensures Body(ib, sectors, x) && Exact(x)
  {
  }

  lemma PositionedSound(v: Volume, h: nat, f: nat)
    requires Positioned(v, h, f)
    ensures Shape(v) && Sound(AbsOf(v))
  {
    hide Body, Owners, FreeLists;
    OpenIsFile(v, h, f);
    forall g | 0 <= g < |v.tab| && v.tab[g].used
      ensures v.tab[g].file < |v.data| && v.tab[g].cache.pos <= |v.data[v.tab[g].file]|
    {
      if v.tab[g].file != f {
        assert ExactFile(v, v.tab[g].file);
      }
    }
  }

  lemma InvShape(v: Volume)
    requires Inv(v)
    ensures Core(v) && Shape(v) && Sound(AbsOf(v))
  {
    hide Body, Owners, FreeLists;
    AbsSound(v);
  }

  lemma HandleOf(v: Volume, h: nat)
    requires Shape(v) && h < |v.tab|
    ensures AbsOf(v).handles[h].Open? <==> v.tab[h].used
  {
  }

  /** What truncation finds on the disk once the caches are flushed. */
  lemma TruncateStart(v: Volume, h: nat, f: nat)
    requires Inv(v) && OpenOn(v, h, f) && f < |v.dir.files| && Shape(v)
    requires !v.tab[h].cache.ibdirty && !v.tab[h].cache.dbdirty && |v.data[f]| > 0
    ensures var chain, slots := v.chains[f], v.slots[f];
            && Within(chain, 0, |v.ib|) && Within(slots, v.ibsectors + 1, |v.sectors|)
            && chain != [] && v.dir.files[f].ilist == chain[0] && |slots| <= 16 * |chain| && |chain| <= 0x8_0000
            && (forall k :: 0 <= k < |chain| ==> v.ib[chain[k]] == IndexBlock(chain, slots, k))
            && (forall k :: 0 <= k < |chain| ==> chain[k] != v.dir.ifree)
            && Freeing(v.sectors, v.dir.dfree, slots, 0, v.dfl) && Clean(FileOf(v, f))
  {
    hide DataOk, IndexBlock, Link, Below;
    OpenIsFile(v, h, f);
    assert ExactFile(v, f);
    var x := FileOf(v, f);
    assert IndexOk(v.ib, x);
    InSlots(v, f);
    forall k | 0 <= k < |x.chain| ensures v.ib[x.chain[k]] == IndexBlock(x.chain, x.slots, k) && x.chain[k] != v.dir.ifree {
      assert IView(v.ib, x.c, x.chain[k]) == IndexBlock(x.chain, x.slots, k);
      assert v.iown[v.chains[f][k]] == Of(f, k);
      TopIsFree(v);
    }
    FreeAreOthers(v, f);
    assert v.dfl + x.slots[..0] == v.dfl;
    forall p, j | 0 <= p < |v.dfl| && 0 <= j < |x.slots| ensures v.dfl[p] != x.slots[j] {
      assert v.down[v.slots[f][j]] == Of(f, j);
    }
  }

  lemma EmptyHasNone(v: Volume, f: nat)
    requires Inv(v) && Shape(v) && f < |v.dir.files| && v.data[f] == []
    ensures v.chains[f] == [] && v.slots[f] == []
    ensures v.ifl + Reversed(v.chains[f]) == v.ifl && v.dfl + v.slots[f] == v.dfl
    ensures v.chains[f := []] == v.chains && v.slots[f := []] == v.slots && v.data[f := []] == v.data
  {
    hide Body, Owners, FreeLists;
    assert ExactFile(v, f);
  }

  lemma TruncateEmpty(v: Volume, h: nat, f: nat)
    requires Inv(v) && Shape(v) && Sound(AbsOf(v)) && OpenOn(v, h, f) && f < |v.dir.files| && v.data[f] == []
    ensures Outcome(AbsOf(v), Ok) == TruncateSpec(AbsOf(v), h)
  {
    hide Body, Owners, FreeLists, Sound;
    OpenFacts(v, h);
    assert v.data[f := []] == v.data;
    assert AbsOf(v).handles[h := Open(f, 0)] == AbsOf(v).handles;
  }

  lemma FreeingDone(db: seq<Sector>, dfree: Id, slots: seq<Id>, free: seq<Id>)
    requires Freeing(db, dfree, slots, |slots|, free)
    ensures DFreeLinked(db, free + slots) && dfree == Top(free + slots)
  {
    assert slots[..|slots|] == slots;
  }

  lemma ChangedOnlyOwn(v: Volume, f: nat, ib: seq<IBlock>, db: seq<Sector>)
    requires Inv(v) && Shape(v) && f < |v.dir.files| && |ib| == |v.ib| && |db| == |v.sectors|
    requires forall n :: 0 <= n < |ib| && n !in v.chains[f] ==> ib[n] == v.ib[n]
    requires forall d :: 0 <= d < |db| && d !in v.slots[f] ==> db[d] == v.sectors[d]
    ensures forall i :: 0 <= i < |v.ib| && !IsOf(v.iown, i, f) ==> ib[i] == v.ib[i]
    ensures forall d :: 0 <= d < |v.sectors| && !IsOf(v.down, d, f) ==> db[d] == v.sectors[d]
  {
    hide Body, FreeLists, Handles;
    assert forall n :: n in v.chains[f] ==> IsOf(v.iown, n, f);
    assert forall n :: n in v.slots[f] ==> IsOf(v.down, n, f);
  }

  lemma OpenFacts(v: Volume, h: nat)
    requires Inv(v) && h < |v.tab| && v.tab[h].used
    ensures var f, c := v.tab[h].file, v.tab[h].cache;
            && Shape(v) && Core(v) && OpenOn(v, h, f) && f < |v.dir.files|
            && v.dir.files[f].size == |v.data[f]| && c.pos <= |v.data[f]| && c.byteptr <= 512
    ensures AbsOf(v).handles[h] == Open(v.tab[h].file, v.tab[h].cache.pos)
  {
    hide Owners, FreeLists, IndexOk, DataOk, IndexCacheOk, DataCacheOk, Sized;
    OpenIsFile(v, h, v.tab[h].file);
    assert ExactFile(v, v.tab[h].file);
    assert Body(v.ib, v.sectors, FileOf(v, v.tab[h].file));
  }

  /** With the right index block in memory, its slot for the position tells
      whether a data block is missing: exactly when the file must grow by one. */
  lemma SlotTells(v: Volume, h: nat, f: nat)
    requires Settling(v, h, f) && Covering(FileOf(v, f))
    ensures IBlockOk(v.tab[h].cache.iblock) && FillsIndex(|v.chains[f]|, Reach(v.tab[h].cache.pos, |v.data[f]|))
    ensures var c := v.tab[h].cache;
            var d := c.iblock.dba[Dindex(c.pos)];
            && (d == NULLID <==> NeedsData(c.pos, |v.data[f]|))
            && (d == NULLID <==> c.pos / 512 == |v.slots[f]|)
            && (d != NULLID ==> c.pos / 512 < |v.slots[f]| && d == v.slots[f][c.pos / 512] && v.ibsectors < d < |v.sectors|)
  {
    hide FreeLists, Partition, IndexOk, DataOk, DataCacheOk, PointerOk, IBlockOk, Dindex;
    OpenIsFile(v, h, f);
    var x := FileOf(v, f);
    SlotOfPosition(v.ib, v.sectors, x);
    InSlots(v, f);
    SlotCount(x.c.pos, |x.data|, |x.slots|);
    ChainCount(x.c.pos, |x.data|, |x.chain|, x.c.iblock.offset / 8192);
  }

  lemma InSlots(v: Volume, f: nat)
    requires Shape(v) && Owners(v) && f < |v.slots|
    ensures forall j :: 0 <= j < |v.slots[f]| ==> v.ibsectors < v.slots[f][j] < |v.sectors|
  {
  }

  lemma SlotCount(pos: nat, size: nat, n: nat)
    requires pos <= size && FillsData(n, size)
    ensures pos / 512 <= n && (pos / 512 == n <==> NeedsData(pos, size))
  {
  }

  lemma ChainCount(pos: nat, size: nat, n: nat, k: nat)
    requires pos <= size && (FillsIndex(n, size) || (pos == size && FillsIndex(n, size + 1)))
    requires k < n && 8192 * k == pos - pos % 8192
    ensures FillsIndex(n, Reach(pos, size))
  {
  }

  lemma LoadDataSettles(v: Volume, h: nat, f: nat)
    requires Settling(v, h, f) && Covering(FileOf(v, f)) && v.tab[h].cache.pos / 512 < |v.slots[f]|
    ensures var c, j := v.tab[h].cache, v.tab[h].cache.pos / 512;
            && v.ibsectors < v.slots[f][j] < |v.sectors|
            && (var w := WithCache(v, h, c.(dnum := v.slots[f][j], byteptr := c.pos % 512,
                                            dblock := if v.slots[f][j] == c.dnum then c.dblock else v.sectors[v.slots[f][j]]), j);
                Positioned(w, h, f) && SameFiles(v, w))
  {
    hide FreeLists, Partition, Body;
    OpenIsFile(v, h, f);
    SlotTells(v, h, f);
    var x := FileOf(v, f);
    LoadData(v.ib, v.sectors, x);
    var j := x.c.pos / 512;
    var c := x.c.(dnum := x.slots[j], byteptr := x.c.pos % 512,
                  dblock := if x.slots[j] == x.c.dnum then x.c.dblock else v.sectors[x.slots[j]]);
    CacheStep(v, h, f, c, j);
    var w := WithCache(v, h, c, j);
    assert AbsOf(w).handles == AbsOf(v).handles;
    SlotCount(x.c.pos, |x.data|, |x.slots|);
  }

  lemma AddDataSettles(v: Volume, h: nat, f: nat, fill: Sector)
    requires Settling(v, h, f) && Covering(FileOf(v, f)) && v.tab[h].cache.pos / 512 == |v.slots[f]| && v.dfl != []
    ensures |v.tab[h].cache.iblock.dba| == 16
    ensures var w := DataTaken(v, h, f, fill); Positioned(w, h, f) && SameFiles(v, w)
  {
    hide FreeLists, Owners, Body;
    OpenIsFile(v, h, f);
    SlotTells(v, h, f);
    AddDataStep(v, h, f, fill);
    var w := DataTaken(v, h, f, fill);
    SlotCount(v.tab[h].cache.pos, |v.data[f]|, |v.slots[f]|);
    assert OthersExact(w, f) by {
      forall g | 0 <= g < |w.dir.files| && g != f ensures ExactFile(w, g) {
        assert ExactFile(v, g);
      }
    }
    assert AbsOf(w).handles == AbsOf(v).handles && AbsOf(w).names == AbsOf(v).names;
  }
}
