/** The local file system as the kernel runs it: every operation updates the
    disk, the directory and the control blocks in place. */
module Lfs {
  import opened LfsDisk
  import opened LfsBlocks
  import opened LfsFile
  import opened LfsVolume
  import opened LfsSpec
  import opened LfsSteps

  class LocalFs {
    const disk: Disk
    var dir: Directory
    var dirdirty: bool
    var diskdir: Directory
    var tab: seq<Cblk>

    /** A directory entry was made and the directory not yet written. */
    ghost var unsaved: bool
    ghost var chains: seq<seq<Id>>
    ghost var slots: seq<seq<Id>>
    ghost var data: seq<seq<byte>>
    ghost var handle: seq<int>
    ghost var at: seq<nat>
    ghost var ifl: seq<Id>
    ghost var dfl: seq<Id>
    ghost var iown: map<int, Loc>
    ghost var down: map<int, Loc>

    ghost function Vol(): Volume
      reads this, disk
    {
      Volume(disk.ib, disk.db, disk.ibsectors, dir, tab, chains, slots, data, handle, at, ifl, dfl, iown, down)
    }

    /** The directory on disk is up to date unless it is marked dirty or holds an
        entry that nothing has been written to. */
    ghost predicate Synced()
      reads this
    {
      !dirdirty && !unsaved ==> diskdir == dir
    }

    ghost predicate Valid()
      reads this, disk
    {
      disk.Valid() && Inv(Vol()) && Synced()
    }

    /** The files and handles as the processes see them. */
    ghost function Fs(): (a: FileSys)
      requires Valid()
      reads this, disk
      ensures Sound(a) && |a.handles| == |tab|
    {
      InvShape(Vol());
      AbsOf(Vol())
    }

    /** Mount a file system that holds no files yet. */
    constructor (disk: Disk, dir: Directory, nlfl: nat, ghost ifl: seq<Id>, ghost dfl: seq<Id>, ghost iown: map<int, Loc>, ghost down: map<int, Loc>)
      requires disk.Valid() && dir.files == []
      requires Partition(iown, ifl, []) && Covers(iown, 0, |disk.ib|)
      requires Partition(down, dfl, []) && Covers(down, disk.ibsectors + 1, |disk.sectors|)
      requires dir.ifree == Top(ifl) && IFreeLinked(disk.ib, ifl)
      requires dir.dfree == Top(dfl) && DFreeLinked(disk.db, dfl)
      ensures Valid() && this.disk == disk && this.ifl == ifl && this.dfl == dfl && this.dir == diskdir == dir
      ensures AbsOf(Vol()) == FileSys([], [], seq(nlfl, _ => Closed))
    {
      hide Core, Inv, Partition, Covers, IFreeLinked, DFreeLinked;
      this.disk, this.dir, dirdirty, diskdir, unsaved := disk, dir, false, dir, false;
      tab := seq(nlfl, _ => Cblk(false, 0, "", NoCache()));
      chains, slots, data, handle, at := [], [], [], [], seq(nlfl, _ => 0);
      this.ifl, this.dfl, this.iown, this.down := ifl, dfl, iown, down;
      new;
      EmptyVolume(Vol());
    }

    /** Write the in-memory directory to sector 0. */
    method WriteDirectory()
      modifies this`diskdir, this`unsaved
      ensures diskdir == dir && !unsaved
    {
      diskdir, unsaved := dir, false;
    }

    /** Write the cached blocks that changed. */
    method FlushBlocks(h: nat)
      requires disk.Valid() && h < |tab|
      requires tab[h].cache.dbdirty ==> disk.IsData(tab[h].cache.dnum)
      requires tab[h].cache.ibdirty ==> 0 <= tab[h].cache.inum < |disk.ib| && IBlockOk(tab[h].cache.iblock)
      modifies this`tab, disk
      ensures disk.Valid() && Vol() == Flushed(old(Vol()), h)
    {
      hide IBlockOk;
      ghost var v := Vol();
      var c := tab[h].cache;
      if c.dbdirty {
        disk.Write(c.dnum, c.dblock);
        c := c.(dbdirty := false);
        tab := tab[h := tab[h].(cache := c)];
      }
      if c.ibdirty {
        disk.Lfibput(c.inum, c.iblock);
        c := c.(ibdirty := false);
        tab := tab[h := tab[h].(cache := c)];
      }
      assert Vol() == Flushed(v, h);
    }

    /** Write whatever changed: directory, data block, index block. */
    method Lfflush(h: nat, ghost f: nat) returns (r: Reply)
      requires disk.Valid() && h < |tab| && (tab[h].used ==> Core(Vol()) && OpenOn(Vol(), h, f))
      modifies this`diskdir, this`dirdirty, this`unsaved, this`tab, disk
      ensures disk.Valid() && r == if old(tab[h].used) then Ok else SysErr
      ensures r == SysErr ==> Vol() == old(Vol()) && (dirdirty, diskdir, unsaved) == old((dirdirty, diskdir, unsaved))
      ensures r == Ok ==> Vol() == Flushed(old(Vol()), h) && Core(Vol())
      ensures r == Ok ==> !dirdirty && diskdir == (if old(dirdirty) then dir else old(diskdir))
      ensures r == Ok ==> unsaved == (!old(dirdirty) && old(unsaved))
    {
      hide Core, FileOf, ExactFile, Flushed, IBlockOk;
      if !tab[h].used {
        return SysErr;
      }
      r := Ok;
      FlushStep(Vol(), h, f);
      if dirdirty {
        WriteDirectory();
        dirdirty := false;
      }
      FlushBlocks(h);
    }

    /** Pop a free index block. */
    method Lfiballoc() returns (got: bool, n: Id)
      requires disk.Valid() && Core(Vol())
      modifies this`dir, this`diskdir, this`dirdirty, this`unsaved
      ensures got <==> ifl != []
      ensures !got <==> old(dir.ifree) == NULLID
      ensures got ==> n == Top(ifl) && dir == old(dir).(ifree := Top(Pop(ifl)))
      ensures got ==> diskdir == dir && !dirdirty
    {
      hide Core;
      FreeIndexHead(Vol());
      n := dir.ifree;
      got := n != NULLID;
      if got {
        var iblock := disk.Lfibget(n);
        dir := dir.(ifree := iblock.next);
        WriteDirectory();
        dirdirty := false;
      }
    }

    /** Pop a free data block; `fill` is what the buffer holds afterwards. */
    method Lfdballoc() returns (got: bool, n: Id, fill: Sector)
      requires disk.Valid() && Core(Vol())
      modifies this`dir, this`diskdir, this`dirdirty, this`unsaved
      ensures got <==> dfl != []
      ensures !got <==> old(dir.dfree) == NULLID
      ensures got ==> n == Top(dfl) && dir == old(dir).(dfree := Top(Pop(dfl)))
      ensures got ==> diskdir == dir && !dirdirty
      ensures fill == seq(512, _ => DFILL)
    {
      hide Bodies, Handles, Partition, Covers, Link;
      n, fill := dir.dfree, seq(512, _ => DFILL);
      got := n != NULLID;
      TopIsFree(Vol());
      if got {
        DPopLinked(disk.db, dfl);
        var dbuff := disk.Read(n);
        dir := dir.(dfree := Link(dbuff));
        WriteDirectory();
        dirdirty := false;
      }
    }

    /** Clear the in-memory index block. */
    method Lfibclear(offset: int) returns (b: IBlock)
      ensures b == EmptyIBlock(offset) && b.offset == offset
    {
      var dba: seq<Id> := [];
      for i := 0 to 16
        invariant dba == seq(i, _ => NULLID)
      {
        dba := dba + [NULLID];
      }
      b := IBlock(NULLID, offset, dba);
    }

    /** Read index block `ibnum` into the control block. */
    method LoadIndexBlock(h: nat, ibnum: Id)
      requires disk.Valid() && h < |tab| && 0 <= ibnum < |disk.ib|
      modifies this`tab
      ensures tab == old(tab)[h := old(tab)[h].(cache := old(tab)[h].cache.(inum := ibnum, iblock := disk.ib[ibnum]))]
    {
      var b := disk.Lfibget(ibnum);
      tab := tab[h := tab[h].(cache := tab[h].cache.(inum := ibnum, iblock := b))];
    }

    /** Give an empty file its first index block. */
    method NewFirstIndex(h: nat, ghost f: nat) returns (ok: bool)
      requires disk.Valid() && Settling(Vol(), h, f) && Clean(FileOf(Vol(), f)) && chains[f] == []
      modifies this`dir, this`diskdir, this`dirdirty, this`unsaved, this`tab, this`chains, this`ifl, this`iown
      ensures ok <==> old(dir.ifree) != NULLID
      ensures ok ==> Settling(Vol(), h, f) && SameFiles(old(Vol()), Vol()) && Indexed(FileOf(Vol(), f))
      ensures ok ==> dir.dfree == old(dir.dfree) && |chains[f]| == 1
    {
      hide Core, Settling, Clean, Indexed, SameFiles, FileOf, Top, Pop, EmptyIBlock;
      ghost var v := Vol();
      FirstFacts(v, h, f);
      var file := tab[h].file;
      var ibnum;
      ok, ibnum := Lfiballoc();
      if ok {
        FirstIndexSettles(v, h, f);
        var b := Lfibclear(0);
        dir := dir.(files := dir.files[file := dir.files[file].(ilist := ibnum)]);
        tab := tab[h := tab[h].(cache := tab[h].cache.(inum := ibnum, iblock := b, ibdirty := true))];
        ifl, iown, chains := Pop(ifl), iown[ibnum := Of(f, 0)], chains[f := chains[f] + [ibnum]];
        assert Vol() == IndexTaken(v, h, f, v.ib);
      }
    }

    /** First part of lfsetup: have some index block of the file in memory, at or
        before the position. */
    method FindFirst(h: nat, ghost f: nat) returns (ok: bool)
      requires disk.Valid() && Settling(Vol(), h, f) && Clean(FileOf(Vol(), f))
      modifies this`dir, this`diskdir, this`dirdirty, this`unsaved, this`tab, this`chains, this`ifl, this`iown
      ensures FirstDone(old(Vol()), Vol(), h, f, ok)
      ensures ok && chains == old(chains) ==> (old(Synced()) ==> Synced())
    {
      hide Core, Settling, Indexed, Clean, FileOf;
      ghost var v := Vol();
      FirstFacts(v, h, f);
      ok := true;
      var c, file := tab[h].cache, tab[h].file;
      if c.inum == NULLID && dir.files[file].ilist == NULLID {
        ok := NewFirstIndex(h, f);
      } else if c.inum == NULLID || c.pos < c.iblock.offset {
        LoadFirst(v, h, f);
        LoadIndexBlock(h, dir.files[file].ilist);
        assert Vol() == WithCache(v, h, tab[h].cache, at[h]);
      }
      if ok {
        SettlingShape(Vol(), h, f);
      }
    }

    /** Link index block `ibnum` after the one in memory and replace that one. */
    method LinkIndexBlock(h: nat, ibnum: Id)
      requires disk.Valid() && h < |tab|
      requires var c := tab[h].cache; 0 <= c.inum < |disk.ib| && IBlockOk(c.iblock)
      modifies this`tab, disk
      ensures disk.Valid() && disk.db == old(disk.db)
      ensures var c := old(tab[h].cache);
              && disk.ib == old(disk.ib)[c.inum := c.iblock.(next := ibnum)]
              && tab == old(tab)[h := old(tab[h]).(cache :=
                          c.(inum := ibnum, iblock := EmptyIBlock(c.iblock.offset + 8192), ibdirty := true, dnum := NULLID))]
      ensures tab[h].cache.iblock.offset == old(tab[h].cache.iblock.offset) + 8192
    {
      var c := tab[h].cache;
      disk.Lfibput(c.inum, c.iblock.(next := ibnum));
      var b := Lfibclear(c.iblock.offset + 8192);
      tab := tab[h := tab[h].(cache := c.(inum := ibnum, iblock := b, ibdirty := true, dnum := NULLID))];
    }

    /** Record, for the proof, that index block n now ends the chain of file f. */
    ghost method GrowChain(f: nat, n: Id)
      requires f < |chains| && ifl != []
      modifies this`ifl, this`iown, this`chains
      ensures ifl == Pop(old(ifl)) && iown == old(iown)[n := Of(f, |old(chains)[f]|)]
      ensures chains == old(chains)[f := old(chains)[f] + [n]]
    {
      ifl, iown, chains := Pop(ifl), iown[n := Of(f, |chains[f]|)], chains[f := chains[f] + [n]];
    }

    /** Put index block `ibnum`, just taken off the free list, at the end of the chain. */
    method AppendIndexBlock(h: nat, ghost f: nat, ibnum: Id, ghost v: Volume)
      requires disk.Valid() && Shape(v) && h < |v.tab| && f < |v.dir.files| && v.ifl != [] && v.chains[f] != []
      requires Vol() == v.(dir := dir) && dir == v.dir.(ifree := Top(Pop(v.ifl))) && ibnum == Top(v.ifl)
      requires var c := v.tab[h].cache;
               0 <= c.inum < |v.ib| && IBlockOk(c.iblock) && c.iblock.offset == 8192 * (|v.chains[f]| - 1)
      modifies this`tab, this`chains, this`ifl, this`iown, disk
      ensures disk.Valid()
      ensures var c := v.tab[h].cache; Vol() == IndexTaken(v, h, f, v.ib[c.inum := c.iblock.(next := ibnum)])
    {
      hide Top, Pop, IBlockOk, EmptyIBlock, IndexTaken;
      LinkIndexBlock(h, ibnum);
      GrowChain(f, ibnum);
      IndexTakenIs(v, Vol(), h, f);
    }

    /** Extend the chain of the file by the index block that covers the position. */
    method NewNextIndex(h: nat, ghost f: nat) returns (ok: bool)
      requires disk.Valid() && Settling(Vol(), h, f) && Indexed(FileOf(Vol(), f)) && Clean(FileOf(Vol(), f))
      requires chains[f] != [] && tab[h].cache.iblock.next == NULLID
      requires |data[f]| == 8192 * |chains[f]| && tab[h].cache.pos == |data[f]|
      modifies this`dir, this`diskdir, this`dirdirty, this`unsaved, this`tab, this`chains, this`ifl, this`iown, disk
      ensures ok <==> old(dir.ifree) != NULLID
      ensures ok ==> disk.Valid() && Settling(Vol(), h, f) && SameFiles(old(Vol()), Vol()) && Indexed(FileOf(Vol(), f))
      ensures ok ==> dir.dfree == old(dir.dfree) && |chains[f]| == |old(chains)[f]| + 1
      ensures ok ==> tab[h].cache.iblock.offset == old(tab[h].cache.iblock.offset) + 8192
    {
      hide Core, Settling, Clean, Indexed, SameFiles, FileOf, Top, Pop, IBlockOk, AbsOf;
      ghost var v := Vol();
      SettlingShape(v, h, f);
      var ibnum;
      ok, ibnum := Lfiballoc();
      if ok {
        NextIndexSettles(v, h, f);
        AppendIndexBlock(h, f, ibnum, v);
      }
    }

    /** One step along the chain. */
    method WalkStep(h: nat, ghost f: nat) returns (ok: bool)
      requires disk.Valid() && Settling(Vol(), h, f) && Indexed(FileOf(Vol(), f))
      requires tab[h].cache.pos - tab[h].cache.pos % 8192 > tab[h].cache.iblock.offset
      modifies this`dir, this`diskdir, this`dirdirty, this`unsaved, this`tab, this`chains, this`ifl, this`iown, disk
      ensures ok ==> disk.Valid() && Settling(Vol(), h, f) && SameFiles(old(Vol()), Vol()) && Indexed(FileOf(Vol(), f))
      ensures ok ==> tab[h].cache.iblock.offset == old(tab[h].cache.iblock.offset) + 8192
      ensures !ok ==> NeedsIndex(old(tab[h].cache.pos), |data[f]|) && old(dir.ifree) == NULLID
      ensures ok ==> dir.dfree == old(dir.dfree) && |chains[f]| >= |old(chains)[f]|
      ensures ok && |chains[f]| != |old(chains)[f]| ==>
                old(dir.ifree) != NULLID && tab[h].cache.iblock.offset == old(tab[h].cache.pos)
      ensures ok && |chains[f]| == |old(chains)[f]| ==>
                dir == old(dir) && (old(Synced()) ==> Synced())
    {
      hide Core, Settling, SameFiles, Indexed, Clean, FileOf;
      ok := true;
      ghost var v := Vol();
      FirstFacts(v, h, f);
      ghost var k := WalkPosition(v, h, f);
      WalkClean(v, h, f);
      var ibnum := tab[h].cache.iblock.next;
      if ibnum == NULLID {
        ok := NewNextIndex(h, f);
      } else {
        LoadNext(v, h, f, k);
        LoadIndexBlock(h, ibnum);
        tab := tab[h := tab[h].(cache := tab[h].cache.(dnum := NULLID))];
        assert Vol() == WithCache(v, h, tab[h].cache, at[h]);
      }
    }

    /** Second part of lfsetup: walk along the chain to the index block that
        covers the position, extending the chain at its end. */
    method Walk(h: nat, ghost f: nat) returns (ok: bool)
      requires disk.Valid() && Settling(Vol(), h, f) && Indexed(FileOf(Vol(), f))
      modifies this`dir, this`diskdir, this`dirdirty, this`unsaved, this`tab, this`chains, this`ifl, this`iown, disk
      ensures ok ==> disk.Valid() && Settling(Vol(), h, f) && SameFiles(old(Vol()), Vol()) && Covering(FileOf(Vol(), f))
      ensures !ok ==> NeedsIndex(old(tab[h].cache.pos), |data[f]|) && old(dir.ifree) == NULLID
      ensures ok ==> dir.dfree == old(dir.dfree) && |chains[f]| >= |old(chains)[f]|
      ensures ok && |chains[f]| != |old(chains)[f]| ==> old(dir.ifree) != NULLID
      ensures ok && |chains[f]| == |old(chains)[f]| ==>
                dir == old(dir) && (old(Synced()) ==> Synced())
      ensures old(tab[h].cache.pos) == 0 ==> ok
    {
      hide Core, Settling, SameFiles, Indexed, Clean, FileOf, Covering;
      ok := true;
      ghost var v0 := Vol();
      FirstFacts(v0, h, f);
      SameFilesTrivial(v0);
      WalkDone(v0, h, f);
      while tab[h].cache.pos - tab[h].cache.pos % 8192 > tab[h].cache.iblock.offset
        invariant Shape(Vol()) && f < |dir.files| && OpenOn(Vol(), h, f)
        invariant tab[h].cache.pos == v0.tab[h].cache.pos && data == v0.data
        invariant tab[h].cache.iblock.offset >= 0 && ok
        invariant disk.Valid() && Settling(Vol(), h, f) && Indexed(FileOf(Vol(), f)) && SameFiles(v0, Vol())
        invariant dir.dfree == v0.dir.dfree
        invariant |chains[f]| >= |v0.chains[f]|
        invariant |chains[f]| == |v0.chains[f]| ==> dir == v0.dir && (old(Synced()) ==> Synced())
        invariant |chains[f]| != |v0.chains[f]| ==>
                    v0.dir.ifree != NULLID && tab[h].cache.pos <= tab[h].cache.iblock.offset
        decreases tab[h].cache.pos - tab[h].cache.iblock.offset
      {
        ghost var v := Vol();
        ok := WalkStep(h, f);
        if !ok {
          return;
        }
        FirstFacts(Vol(), h, f);
        SameFilesTrans(v0, v, Vol());
        SameFilesFacts(v, Vol(), h, f);
      }
      WalkDone(Vol(), h, f);
    }

    /** Point the current slot of the index block at data block `dnum`; `v` is the
        volume before the block was taken off the free list. */
    method PointAtData(h: nat, ghost f: nat, dnum: Id, fill: Sector, ghost v: Volume)
      requires h < |tab| && h < |at| && f < |slots| && dfl != [] && |tab[h].cache.iblock.dba| == 16
      requires dnum == Top(dfl) && Vol() == v.(dir := dir) && dir == v.dir.(dfree := Top(Pop(dfl)))
      modifies this`tab, this`at, this`slots, this`dfl, this`down
      ensures Vol() == DataTaken(v, h, f, fill)
    {
      hide Top, Pop, Dindex;
      var c := tab[h].cache;
      c := c.(iblock := c.iblock.(dba := c.iblock.dba[Dindex(c.pos) := dnum]), ibdirty := true,
              dnum := dnum, dblock := fill, byteptr := c.pos % 512);
      tab := tab[h := tab[h].(cache := c)];
      at, dfl, down := at[h := |slots[f]|], Pop(dfl), down[dnum := Of(f, |slots[f]|)];
      slots := slots[f := slots[f] + [dnum]];
    }

    /** Append a data block to the file. */
    method NewDataBlock(h: nat, ghost f: nat) returns (ok: bool)
      requires disk.Valid() && Settling(Vol(), h, f) && Covering(FileOf(Vol(), f))
      requires tab[h].cache.pos / 512 == |slots[f]|
      modifies this`dir, this`diskdir, this`dirdirty, this`unsaved, this`tab, this`at, this`slots, this`dfl, this`down
      ensures ok ==> Positioned(Vol(), h, f) && SameFiles(old(Vol()), Vol())
      ensures !ok <==> old(dir.dfree) == NULLID
    {
      hide Core, Settling, SameFiles, Positioned, Covering, FileOf, Top, Pop, AbsOf, DataTaken;
      ghost var v := Vol();
      SettlingShape(v, h, f);
      var dnum, fill;
      ok, dnum, fill := Lfdballoc();
      if ok {
        AddDataSettles(v, h, f, fill);
        PointAtData(h, f, dnum, fill, v);
      }
    }

    /** Read the data block that the index block names, unless it is there. */
    method LoadDataBlock(h: nat, ghost f: nat)
      requires disk.Valid() && Settling(Vol(), h, f) && Covering(FileOf(Vol(), f))
      requires tab[h].cache.pos / 512 < |slots[f]|
      modifies this`tab, this`at
      ensures Positioned(Vol(), h, f) && SameFiles(old(Vol()), Vol())
    {
      hide Core, Settling, SameFiles, Positioned, Covering, FileOf, NeedsData;
      ghost var v := Vol();
      SettlingShape(v, h, f);
      SlotTells(v, h, f);
      LoadDataSettles(v, h, f);
      var c := tab[h].cache;
      var dnum := c.iblock.dba[Dindex(c.pos)];
      if dnum != c.dnum {
        var buf := disk.Read(dnum);
        c := c.(dblock := buf);
      }
      c := c.(dnum := dnum, byteptr := c.pos % 512);
      tab := tab[h := tab[h].(cache := c)];
      at := at[h := c.pos / 512];
      assert Vol() == WithCache(v, h, c, c.pos / 512);
    }

    /** Have the index block that covers the position in memory. */
    method FindIndex(h: nat, ghost f: nat) returns (ok: bool)
      requires disk.Valid() && Settling(Vol(), h, f) && Clean(FileOf(Vol(), f))
      modifies this`dir, this`diskdir, this`dirdirty, this`unsaved, this`tab, this`chains, this`ifl, this`iown, disk
      ensures ok ==> disk.Valid() && Settling(Vol(), h, f) && SameFiles(old(Vol()), Vol()) && Covering(FileOf(Vol(), f))
      ensures !ok ==> NeedsIndex(old(tab[h].cache.pos), |data[f]|) && old(dir.ifree) == NULLID
      ensures ok ==> dir.dfree == old(dir.dfree) && |chains[f]| >= |old(chains)[f]|
      ensures ok && |chains[f]| != |old(chains)[f]| ==> old(dir.ifree) != NULLID
      ensures ok && |chains[f]| == |old(chains)[f]| ==> dir == old(dir) && (old(Synced()) ==> Synced())
    {
      hide Core, Settling, Covering, Indexed, FileOf, SameFiles, Clean;
      ghost var v := Vol();
      SettlingPosition(v, h, f);
      ok := FindFirst(h, f);
      if ok {
        ghost var w := Vol();
        SettlingShape(w, h, f);
        SameFilesFacts(v, w, h, f);
        ok := Walk(h, f);
        if ok {
          SettlingShape(Vol(), h, f);
          SameFilesTrans(v, w, Vol());
        }
      }
    }

    /** Last part of lfsetup: have the data block of the position in memory. */
    method FindData(h: nat, ghost f: nat) returns (ok: bool)
      requires disk.Valid() && Settling(Vol(), h, f) && Covering(FileOf(Vol(), f))
      modifies this`dir, this`diskdir, this`dirdirty, this`unsaved, this`tab, this`at, this`slots, this`dfl, this`down
      ensures ok ==> Positioned(Vol(), h, f) && SameFiles(old(Vol()), Vol())
      ensures !ok <==> NeedsData(old(tab[h].cache.pos), |data[f]|) && old(dir.dfree) == NULLID
      ensures ok && !NeedsData(old(tab[h].cache.pos), |data[f]|) ==> dir == old(dir) && (old(Synced()) ==> Synced())
    {
      hide Core, Settling, SameFiles, Positioned, Covering, FileOf, NeedsData;
      ok := true;
      SettlingShape(Vol(), h, f);
      SlotTells(Vol(), h, f);
      var c := tab[h].cache;
      if c.iblock.dba[Dindex(c.pos)] == NULLID {
        ok := NewDataBlock(h, f);
      } else {
        LoadDataBlock(h, f);
      }
    }

    /** Set up the index block and the data block for the current position.  False
        means the disk has no free block left, where the kernel panics. */
    method Lfsetup(h: nat, ghost f: nat) returns (ok: bool)
      requires Valid() && OpenOn(Vol(), h, f) && tab[h].cache.byteptr == 512
      modifies this, disk
      ensures ok ==> disk.Valid() && Positioned(Vol(), h, f) && SameFiles(old(Vol()), Vol())
      ensures !ok <==> Exhausted(old(dir), old(tab[h].cache.pos), |old(data)[f]|)
      ensures ok && old(tab[h].cache.pos) < |old(data)[f]| ==> Synced()
    {
      hide Core, Settling, Positioned, Covering, FileOf, SameFiles, Clean, Inv, Flushed;
      ghost var v := Vol();
      SetupStart(v, h, f);
      if tab[h].cache.ibdirty || tab[h].cache.dbdirty {
        var r := Lfflush(h, f);
      }
      ghost var w := Vol();
      ok := FindIndex(h, f);
      if ok {
        ghost var u := Vol();
        SettlingShape(u, h, f);
        SameFilesFacts(w, u, h, f);
        ok := FindData(h, f);
        if ok {
          PositionedChain(Vol(), h, f);
          SameFilesTrans(v, w, u);
          SameFilesTrans(v, u, Vol());
          SameFilesFacts(u, Vol(), h, f);
        }
      }
    }

    /** Have the blocks for the position in memory. */
    method Prepare(h: nat, ghost f: nat) returns (ok: bool)
      requires Valid() && OpenOn(Vol(), h, f) && tab[h].cache.byteptr <= 512
      modifies this, disk
      ensures ok ==> disk.Valid() && Positioned(Vol(), h, f) && SameFiles(old(Vol()), Vol())
      ensures !ok <==> Exhausted(old(dir), old(tab[h].cache.pos), |old(data)[f]|)
      ensures ok && old(tab[h].cache.pos) < |old(data)[f]| ==> Synced()
    {
      hide Core, Inv, Positioned, SameFiles, NeedsData, NeedsIndex;
      if tab[h].cache.byteptr >= 512 {
        ok := Lfsetup(h, f);
      } else {
        InvShape(Vol());
        AlreadyPositioned(Vol(), h, f);
        SameFilesTrivial(Vol());
        ok := true;
      }
    }

    /** Store a byte in the block that is in memory. */
    method PutByte(h: nat, file: nat, ch: byte)
      requires disk.Valid() && Positioned(Vol(), h, file) && Shape(Vol()) && Sound(AbsOf(Vol())) && h < |tab|
      requires file < |data| && (tab[h].cache.pos < |data[file]| ==> Synced())
      modifies this`dir, this`dirdirty, this`tab, this`data
      ensures Valid() && Outcome(Fs(), Ok) == PutcSpec(old(AbsOf(Vol())), h, ch)
    {
      hide Core, Inv, Positioned, FileOf, Sound, AbsOf, PutcSpec, Put;
      ghost var u := Vol();
      PutStep(u, h, file, ch);
      PositionedChain(u, h, file);
      if tab[h].cache.pos >= dir.files[file].size {
        dir := dir.(files := dir.files[file := dir.files[file].(size := dir.files[file].size + 1)]);
        dirdirty := true;
      }
      var c := tab[h].cache;
      c := c.(dblock := c.dblock[c.byteptr := ch], byteptr := c.byteptr + 1, pos := c.pos + 1, dbdirty := true);
      tab := tab[h := tab[h].(cache := c)];
      data := data[file := Put(data[file], c.pos - 1, ch)];
      assert Vol() == Stored(u, h, file, ch);
    }

    /** Write one byte at the position: overwrite it, or append it to the file. */
    method Lflputc(h: nat, ch: byte) returns (r: Reply)
      requires Valid() && h < |tab|
      modifies this, disk
      ensures r == Panic <==>
                old(tab[h].used) && Exhausted(old(dir), old(tab[h].cache.pos), |old(data)[old(tab[h].file)]|)
      ensures r != Panic ==> Valid() && Outcome(Fs(), r) == PutcSpec(old(Fs()), h, ch)
    {
      hide Core, Inv, Positioned, SameFiles, Stored, FileOf, Sound, Exhausted;
      ghost var v := Vol();
      InvShape(v);
      if !tab[h].used {
        return SysErr;
      }
      OpenFacts(v, h);
      var file := tab[h].file;
      if tab[h].cache.pos > dir.files[file].size {
        return SysErr;
      }
      var ok := Prepare(h, file);
      if !ok {
        return Panic;
      }
      PositionedSound(Vol(), h, file);
      SameFilesAbs(v, Vol());
      SameFilesFacts(v, Vol(), h, file);
      PutByte(h, file, ch);
      r := Ok;
    }

    /** Fetch a byte from the block that is in memory. */
    method GetByte(h: nat, file: nat) returns (r: Reply)
      requires disk.Valid() && Positioned(Vol(), h, file) && Shape(Vol()) && Sound(AbsOf(Vol())) && h < |tab|
      requires file < |data| && tab[h].cache.pos < |data[file]| && Synced()
      modifies this`tab
      ensures Valid() && Outcome(Fs(), r) == GetcSpec(old(AbsOf(Vol())), h)
    {
      hide Core, Inv, Positioned, FileOf, Sound, AbsOf, GetcSpec;
      ghost var u := Vol();
      GetStep(u, h, file);
      var c := tab[h].cache;
      r := Byte(c.dblock[c.byteptr]);
      c := c.(byteptr := c.byteptr + 1, pos := c.pos + 1);
      tab := tab[h := tab[h].(cache := c)];
      assert Vol() == WithCache(u, h, c, at[h]);
    }

    /** Read the byte at the position. */
    method Lflgetc(h: nat) returns (r: Reply)
      requires Valid() && h < |tab|
      modifies this, disk
      ensures Valid() && Outcome(Fs(), r) == GetcSpec(old(Fs()), h)
    {
      hide Core, Inv, Positioned, SameFiles, FileOf, Sound;
      ghost var v := Vol();
      InvShape(v);
      if !tab[h].used {
        return SysErr;
      }
      OpenFacts(v, h);
      var file := tab[h].file;
      if tab[h].cache.pos >= dir.files[file].size {
        return Eof;
      }
      hide AbsOf, GetcSpec;
      var ok := Prepare(h, file);
      PositionedSound(Vol(), h, file);
      SameFilesAbs(v, Vol());
      SameFilesFacts(v, Vol(), h, file);
      r := GetByte(h, file);
    }

    /** Move the position anywhere inside the file or to its end. */
    method Lflseek(h: nat, offset: nat) returns (r: Reply)
      requires Valid() && h < |tab|
      modifies this`tab
      ensures Valid() && Outcome(Fs(), r) == SeekSpec(old(Fs()), h, offset)
    {
      hide Core, Inv, FileOf, Sound;
      ghost var v := Vol();
      InvShape(v);
      if !tab[h].used {
        return SysErr;
      }
      OpenFacts(v, h);
      if offset > dir.files[tab[h].file].size {
        return SysErr;
      }
      SeekStep(v, h, tab[h].file, offset);
      var c := tab[h].cache.(pos := offset, byteptr := 512);
      tab := tab[h := tab[h].(cache := c)];
      assert Vol() == WithCache(v, h, c, at[h]);
      r := Ok;
    }

    /** Close a file: everything written through the handle is on the disk, and
        so is the directory unless it holds an entry never written to. */
    method Lflclose(h: nat) returns (r: Reply)
      requires Valid() && h < |tab|
      modifies this, disk
      ensures Valid() && Outcome(Fs(), r) == CloseSpec(old(Fs()), h)
      ensures old(tab[h].used) && !unsaved ==> diskdir == dir
    {
      hide Core, Inv, FileOf, Sound, Flushed;
      ghost var v := Vol();
      InvShape(v);
      if !tab[h].used {
        return SysErr;
      }
      OpenFacts(v, h);
      FlushInv(v, h);
      if dirdirty || tab[h].cache.dbdirty || tab[h].cache.ibdirty {
        r := Lfflush(h, tab[h].file);
      }
      ghost var w := Vol();
      CloseStep(w, h);
      handle := handle[tab[h].file := -1];
      tab := tab[h := tab[h].(used := false)];
      assert Vol() == ClosedVolume(w, h);
      r := Ok;
    }

    /** Search the control blocks: is the name open, and which one is free first? */
    method SearchHandles(name: string) returns (isOpen: bool, lfnext: nat)
      requires Valid()
      ensures isOpen <==> IsOpen(Fs(), name)
      ensures !isOpen ==> lfnext == FirstFrom(Fs().handles, Closed, 0)
    {
      hide Core, Inv, Sound;
      InvShape(Vol());
      OpenByName(Vol(), name);
      lfnext := |tab|;
      isOpen := false;
      var i := 0;
      while i < |tab| && !isOpen
        invariant 0 <= i <= |tab|
        invariant lfnext < i || lfnext == |tab|
        invariant lfnext < |tab| ==> !tab[lfnext].used
        invariant forall k :: 0 <= k < i && k < lfnext ==> tab[k].used
        invariant isOpen ==> IsOpen(Fs(), name)
        invariant !isOpen ==> forall k :: 0 <= k < i && tab[k].used ==> tab[k].name != name
        decreases |tab| - i, !isOpen
      {
        if !tab[i].used {
          if lfnext == |tab| {
            lfnext := i;
          }
          i := i + 1;
        } else if tab[i].name == name {
          isOpen := true;
        } else {
          i := i + 1;
        }
      }
      if !isOpen {
        FirstIs(Fs().handles, Closed, lfnext);
      }
    }

    /** Search the directory for a name. */
    method SearchDirectory(name: string) returns (i: nat)
      requires Valid()
      ensures i == FirstFrom(Fs().names, name, 0)
      ensures i <= |dir.files| && (i < |dir.files| ==> dir.files[i].name == name)
      ensures forall k :: 0 <= k < i ==> dir.files[k].name != name
    {
      hide Core, Inv, Sound;
      InvShape(Vol());
      i := 0;
      while i < |dir.files| && dir.files[i].name != name
        invariant i <= |dir.files|
        invariant forall k :: 0 <= k < i ==> dir.files[k].name != name
      {
        i := i + 1;
      }
      FirstIs(Fs().names, name, i);
    }

    /** Add an entry for an empty file to the in-memory directory. */
    method MakeEntry(name: string)
      requires Valid() && forall k :: 0 <= k < |dir.files| ==> dir.files[k].name != name
      modifies this`dir, this`handle, this`chains, this`slots, this`data, this`unsaved
      ensures Valid() && Fs() == FileSys(old(Fs()).names + [name], old(Fs()).data + [[]], old(Fs()).handles)
      ensures |dir.files| == |handle| == |old(dir.files)| + 1
      ensures dir.files[|old(dir.files)|].name == name && handle[|old(dir.files)|] == -1
    {
      hide Core, Inv, Sound;
      ghost var v := Vol();
      InvShape(v);
      ExtendStep(v, name);
      dir := dir.(files := dir.files + [Entry(name, 0, NULLID)]);
      chains, slots, data, handle := chains + [[]], slots + [[]], data + [[]], handle + [-1];
      unsaved := true;
      assert Vol() == Extended(v, name);
    }

    /** Fill in a free control block for an existing entry. */
    method TakeHandle(h: nat, f: nat, name: string)
      requires Valid() && h < |tab| && !tab[h].used && f < |dir.files| && f < |handle|
      requires handle[f] == -1 && dir.files[f].name == name
      modifies this`tab, this`handle
      ensures Valid() && Fs() == old(Fs()).(handles := old(Fs()).handles[h := Open(f, 0)])
    {
      hide Core, Inv, Sound, AbsOf;
      ghost var w := Vol();
      InvShape(w);
      OpenStep(w, h, f, name);
      tab := tab[h := Cblk(true, f, name, FreshCache(tab[h].cache))];
      handle := handle[f := h];
      assert Vol() == Opened(w, h, f, name);
    }

    /** Open a file by name, making it if it does not exist.  `mustExist` and
        `mustBeNew` are the mode letters 'o' and 'n'. */
    method Lfsopen(name: string, mustExist: bool, mustBeNew: bool) returns (r: Reply)
      requires Valid()
      modifies this`dir, this`tab, this`handle, this`chains, this`slots, this`data, this`unsaved
      ensures Valid() && Outcome(Fs(), r) == OpenSpec(old(Fs()), name, mustExist, mustBeNew)
      ensures OpenAnswered(old(Fs()), name, mustExist, mustBeNew, r, Fs())
    {
      hide Core, Inv, Sound, IsOpen, OpenAnswered;
      InvShape(Vol());
      OpenMeans(Fs(), name, mustExist, mustBeNew);
      if |name| >= NAME_LEN {
        return SysErr;
      }
      var isOpen, lfnext := SearchHandles(name);
      if isOpen || lfnext == |tab| {
        return SysErr;
      }
      OpenByName(Vol(), name);
      var f := SearchDirectory(name);
      if f == |dir.files| {
        if mustExist || |dir.files| >= NUM_DIR_ENT {
          return SysErr;
        }
        MakeEntry(name);
      } else if mustBeNew {
        return SysErr;
      } else {
        ClosedByName(Vol(), f);
      }
      InvShape(Vol());
      TakeHandle(lfnext, f, name);
      r := Dev(lfnext);
    }

    /** Push a data block on the free list. */
    method Lfdbfree(dnum: Id)
      requires disk.Valid() && disk.IsData(dnum)
      modifies this`dir, this`diskdir, this`unsaved, disk
      ensures disk.Valid() && disk.ib == old(disk.ib) && |disk.db| == |old(disk.db)|
      ensures dir == old(dir).(dfree := dnum) && Link(disk.db[dnum]) == old(dir.dfree)
      ensures forall d :: 0 <= d < |disk.db| && d != dnum ==> disk.db[d] == old(disk.db)[d]
    {
      hide Link;
      assert |seq(508, _ => 0 as byte)| == 508;
      var junk: seq<byte> :| |junk| == 508;
      var buf := LinkSector(dir.dfree, junk);
      dir := dir.(dfree := dnum);
      disk.Write(dnum, buf);
      WriteDirectory();
    }

    /** Free the data blocks of one index block, the file's k-th. */
    method FreeDataOf(b: IBlock, ghost slots: seq<Id>, ghost k: nat, ghost free: seq<Id>)
      requires disk.Valid() && Within(slots, disk.ibsectors + 1, |disk.db|) && IBlockOk(b)
      requires forall i :: 0 <= i < 16 ==> b.dba[i] == (if 16 * k + i < |slots| then slots[16 * k + i] else NULLID)
      requires Freeing(disk.db, dir.dfree, slots, Done(16 * k, |slots|), free)
      modifies this`dir, this`diskdir, this`unsaved, disk
      ensures disk.Valid() && disk.ib == old(disk.ib) && |disk.db| == |old(disk.db)|
      ensures Freeing(disk.db, dir.dfree, slots, Done(16 * k + 16, |slots|), free)
      ensures dir == old(dir).(dfree := dir.dfree)
      ensures forall d :: 0 <= d < |disk.db| && d !in slots ==> disk.db[d] == old(disk.db)[d]
    {
      hide Link, Freeing;
      var i := 0;
      while i < 16
        invariant 0 <= i <= 16
        invariant disk.Valid() && disk.ib == old(disk.ib) && |disk.db| == |old(disk.db)|
        invariant Freeing(disk.db, dir.dfree, slots, Done(16 * k + i, |slots|), free)
        invariant dir == old(dir).(dfree := dir.dfree)
        invariant forall d :: 0 <= d < |disk.db| && d !in slots ==> disk.db[d] == old(disk.db)[d]
      {
        var nextdb := b.dba[i];
        if nextdb != NULLID {
          ghost var db, dfree := disk.db, dir.dfree;
          assert slots[16 * k + i] == nextdb;
          Lfdbfree(nextdb);
          FreeOne(db, disk.db, dfree, nextdb, slots, 16 * k + i, free);
        }
        i := i + 1;
      }
    }

    /** Walk the chain once, freeing data blocks and clearing index blocks; the
        last one is linked to the free list.  `visited` is the walk. */
    method FreeChain(firstib: Id, ifree: Id, ghost chain: seq<Id>, ghost slots: seq<Id>, ghost free: seq<Id>)
      returns (ghost visited: seq<Id>)
      requires disk.Valid() && Within(chain, 0, |disk.ib|) && Within(slots, disk.ibsectors + 1, |disk.db|)
      requires chain != [] && firstib == chain[0] && |slots| <= 16 * |chain| && |chain| <= 0x8_0000
      requires forall k :: 0 <= k < |chain| ==> disk.ib[chain[k]] == IndexBlock(chain, slots, k)
      requires forall k :: 0 <= k < |chain| ==> chain[k] != ifree
      requires Freeing(disk.db, dir.dfree, slots, 0, free)
      modifies this`dir, this`diskdir, this`unsaved, disk
      ensures disk.Valid() && |disk.ib| == |old(disk.ib)| && |disk.db| == |old(disk.db)|
      ensures visited == chain && Spliced(disk.ib, chain, ifree) && Freeing(disk.db, dir.dfree, slots, |slots|, free)
      ensures dir == old(dir).(dfree := dir.dfree)
      ensures forall d :: 0 <= d < |disk.db| && d !in slots ==> disk.db[d] == old(disk.db)[d]
      ensures forall n :: 0 <= n < |disk.ib| && n !in chain ==> disk.ib[n] == old(disk.ib)[n]
    {
      hide Freeing, Link, Walked, Within, IndexBlock, After, Spliced;
      var nextib := firstib;
      visited := [];
      ghost var k, ib0 := 0, disk.ib;
      WalkedStart(disk.ib, chain, slots, ifree);
      while nextib != ifree
        invariant 0 <= k <= |chain| && visited == chain[..k]
        invariant nextib == if k < |chain| then chain[k] else ifree
        invariant disk.Valid() && |disk.ib| == |ib0| && |disk.db| == |old(disk.db)|
        invariant Walked(ib0, disk.ib, chain, slots, k, ifree)
        invariant Freeing(disk.db, dir.dfree, slots, Done(16 * k, |slots|), free)
        invariant dir == old(dir).(dfree := dir.dfree)
        invariant forall d :: 0 <= d < |disk.db| && d !in slots ==> disk.db[d] == old(disk.db)[d]
        decreases |chain| - k
      {
        WalkedNow(ib0, disk.ib, chain, slots, k, ifree);
        var iblock := disk.Lfibget(nextib);
        FreeDataOf(iblock, slots, k, free);
        iblock := iblock.(dba := seq(16, _ => NULLID), offset := 0);
        if iblock.next == NULLID {
          iblock := iblock.(next := ifree);
        }
        WalkedStep(ib0, disk.ib, chain, slots, k, ifree, iblock);
        disk.Lfibput(nextib, iblock);
        nextib := iblock.next;
        visited := visited + [chain[k]];
        k := k + 1;
      }
      WalkedDone(ib0, disk.ib, chain, slots, k, ifree);
    }

    /** Record, for the proof, that all blocks of file f are on the free lists. */
    ghost method ForgetBlocks(f: nat)
      requires f < |chains| && f < |slots| && f < |data|
      modifies this`iown, this`down, this`ifl, this`dfl, this`chains, this`slots, this`data
      ensures iown == Freed(ReversedOwner(old(iown), f, |old(chains)[f]|), f, |old(ifl)|)
      ensures down == Freed(old(down), f, |old(dfl)|)
      ensures ifl == old(ifl) + Reversed(old(chains)[f]) && dfl == old(dfl) + old(slots)[f]
      ensures chains == old(chains)[f := []] && slots == old(slots)[f := []] && data == old(data)[f := []]
    {
      iown := Freed(ReversedOwner(iown, f, |chains[f]|), f, |ifl|);
      down := Freed(down, f, |dfl|);
      ifl, dfl := ifl + Reversed(chains[f]), dfl + slots[f];
      chains, slots, data := chains[f := []], slots[f := []], data[f := []];
    }

    /** The part of lftruncate after the caches are flushed. */
    method TruncateBlocks(h: nat, ghost f: nat)
      requires disk.Valid() && Inv(Vol()) && OpenOn(Vol(), h, f) && f < |dir.files| && Shape(Vol())
      requires !tab[h].cache.ibdirty && !tab[h].cache.dbdirty && |data[f]| > 0
      modifies this, disk
      ensures Valid() && Sound(old(AbsOf(Vol()))) && Outcome(Fs(), Ok) == TruncateSpec(old(AbsOf(Vol())), h)
      ensures ifl == old(ifl) + Reversed(old(chains)[f]) && dfl == old(dfl) + old(slots)[f]
      ensures chains == old(chains)[f := []] && slots == old(slots)[f := []]
    {
      hide Core, Inv, FileOf, Sound, Freed, ReversedOwner, Reversed, AbsOf, Top, Freeing, Within, Spliced, IndexBlock, Link, Clean,
           TruncateSpec, IsOf;
      ghost var v := Vol();
      TruncateStart(v, h, f);
      var file := tab[h].file;
      tab := tab[h := tab[h].(cache := tab[h].cache.(pos := 0, inum := NULLID, dnum := NULLID, byteptr := 512))];
      var ifree := dir.ifree;
      var firstib := dir.files[file].ilist;
      dir := dir.(files := dir.files[file := dir.files[file].(size := 0, ilist := NULLID)]);
      dirdirty := true;
      ghost var visited := FreeChain(firstib, ifree, chains[f], slots[f], dfl);
      dir := dir.(ifree := firstib);
      dirdirty := true;
      FreeingDone(disk.db, dir.dfree, slots[f], dfl);
      ChangedOnlyOwn(v, f, disk.ib, disk.db);
      TruncateStep(v, h, f, disk.ib, disk.db);
      ForgetBlocks(f);
      assert Vol() == Truncated(v, h, f, disk.ib, disk.db);
    }

    /** Empty a file: every block it has goes back on the free lists, the index
        blocks in chain order in front of the old list. */
    method Lftruncate(h: nat) returns (r: Reply)
      requires Valid() && h < |tab|
      modifies this, disk
      ensures Valid() && Outcome(Fs(), r) == TruncateSpec(old(Fs()), h)
      ensures r == Ok ==> var f := old(tab[h].file);
                && f < |old(chains)| && f < |old(slots)|
                && ifl == old(ifl) + Reversed(old(chains)[f]) && dfl == old(dfl) + old(slots)[f]
                && chains == old(chains)[f := []] && slots == old(slots)[f := []]
    {
      hide Core, Inv, Sound, Flushed, AbsOf;
      ghost var v := Vol();
      InvShape(v);
      HandleOf(v, h);
      if !tab[h].used {
        return SysErr;
      }
      r := Ok;
      var file := tab[h].file;
      OpenFacts(v, h);
      if dir.files[file].size == 0 {
        EmptyHasNone(v, file);
        TruncateEmpty(v, h, file);
      } else {
        FlushInv(v, h);
        if tab[h].cache.ibdirty || tab[h].cache.dbdirty {
          r := Lfflush(h, file);
        }
        InvShape(Vol());
        OpenFacts(Vol(), h);
        TruncateBlocks(h, file);
      }
    }
  }
}
