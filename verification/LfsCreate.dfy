/** Making an empty file system on a blank disk. */
module LfsCreate {
  import opened LfsDisk
  import opened LfsBlocks
  import opened LfsVolume
  import opened LfsSpec
  import opened LfsSteps
  import opened Lfs

  // The size arithmetic of lfscreate; `lfiblks` is a signed 32-bit number that
  // the sum turns into an unsigned one.
  function Sectors(dsiz: nat): nat { dsiz / 512 }
  function IbSectors(lfiblks: int): nat { (lfiblks + 6) % 0x1_0000_0000 / 7 }

  predicate Accepted(lfiblks: int, dsiz: nat) { IbSectors(lfiblks) <= Sectors(dsiz) / 2 }

  /** The directory that lfscreate writes. */
  function NewDirectory(lfiblks: int): Directory {
    Directory(IbSectors(lfiblks) + 1, 0, [])
  }

  /** There is at least one index block, and at least one data block. */
  predicate HeadsExist(lfiblks: int, dsiz: nat) {
    && 0 < 7 * IbSectors(lfiblks)
    && IbSectors(lfiblks) + 1 < Sectors(dsiz)
  }

  lemma HeadsExistIff(lfiblks: int, dsiz: nat)
    requires Accepted(lfiblks, dsiz)
    ensures HeadsExist(lfiblks, dsiz) <==> IbSectors(lfiblks) >= 1 && dsiz >= 1536
  {
  }

  /** Free lists that hold every index block and every data sector exactly once. */
  ghost predicate AllFree(lfiblks: int, dsiz: nat, ifl: seq<Id>, dfl: seq<Id>, iown: map<int, Loc>, down: map<int, Loc>) {
    && Partition(iown, ifl, []) && Covers(iown, 0, 7 * IbSectors(lfiblks))
    && Partition(down, dfl, []) && Covers(down, IbSectors(lfiblks) + 1, Sectors(dsiz))
  }

  /** No such lists begin where the directory says, unless the blocks it names exist. */
  lemma BadDirectory(lfiblks: int, dsiz: nat, ifl: seq<Id>, dfl: seq<Id>, iown: map<int, Loc>, down: map<int, Loc>)
    requires Accepted(lfiblks, dsiz) && !HeadsExist(lfiblks, dsiz) && AllFree(lfiblks, dsiz, ifl, dfl, iown, down)
    ensures NewDirectory(lfiblks).ifree != Top(ifl) || NewDirectory(lfiblks).dfree != Top(dfl)
  {
    if ifl != [] && dfl != [] {
      assert ifl[|ifl| - 1] in iown && dfl[|dfl| - 1] in down;
    }
  }

  /** The directory heads free lists of all the blocks there are exactly when an index block and
      three sectors of disk were asked for. */
  lemma DirectoryGoodIff(lfiblks: int, dsiz: nat)
    requires Accepted(lfiblks, dsiz) && dsiz < 0x1_0000_0000
    ensures IbSectors(lfiblks) >= 1 && dsiz >= 1536 <==>
            exists ifl, dfl, iown, down :: AllFree(lfiblks, dsiz, ifl, dfl, iown, down)
              && NewDirectory(lfiblks).ifree == Top(ifl) && NewDirectory(lfiblks).dfree == Top(dfl)
  {
    hide Partition, Covers, Descending, DescendingOwner, Top;
    HeadsExistIff(lfiblks, dsiz);
    if HeadsExist(lfiblks, dsiz) {
      var lo := IbSectors(lfiblks) + 1;
      DescendingPartition(0, 7 * IbSectors(lfiblks));
      DescendingPartition(lo, Sectors(dsiz) - lo);
      assert AllFree(lfiblks, dsiz, Descending(0, 7 * IbSectors(lfiblks)), Descending(lo, Sectors(dsiz) - lo),
                     DescendingOwner(0, 7 * IbSectors(lfiblks)), DescendingOwner(lo, Sectors(dsiz) - lo));
    } else {
      forall ifl, dfl, iown, down | AllFree(lfiblks, dsiz, ifl, dfl, iown, down)
        ensures NewDirectory(lfiblks).ifree != Top(ifl) || NewDirectory(lfiblks).dfree != Top(dfl)
      {
        BadDirectory(lfiblks, dsiz, ifl, dfl, iown, down);
      }
    }
  }

  /** The size check lets two kinds of request through that leave a bad list: no index block, and
      a disk of two sectors. */
  lemma AcceptedButEmpty(ifl: seq<Id>, dfl: seq<Id>, iown: map<int, Loc>, down: map<int, Loc>)
    ensures Accepted(0, 4096) && Accepted(7, 1024)
    ensures AllFree(0, 4096, ifl, dfl, iown, down) ==>
              NewDirectory(0).ifree != Top(ifl) || NewDirectory(0).dfree != Top(dfl)
    ensures AllFree(7, 1024, ifl, dfl, iown, down) ==>
              NewDirectory(7).ifree != Top(ifl) || NewDirectory(7).dfree != Top(dfl)
  {
    hide AllFree, Top;
    if AllFree(0, 4096, ifl, dfl, iown, down) {
      BadDirectory(0, 4096, ifl, dfl, iown, down);
    }
    if AllFree(7, 1024, ifl, dfl, iown, down) {
      BadDirectory(7, 1024, ifl, dfl, iown, down);
    }
  }

  /** n, ..., lo + 1, lo: the free list lo, lo + 1, ..., with its head last. */
  function Descending(lo: nat, n: nat): (s: seq<Id>)
    requires lo + n < 0x8000_0000
    ensures |s| == n && forall p :: 0 <= p < n ==> s[p] == lo + n - 1 - p
  {
    seq(n, p requires 0 <= p < n => (lo + n - 1 - p) as Id)
  }

  ghost function DescendingOwner(lo: nat, n: nat): map<int, Loc>
    requires lo + n < 0x8000_0000
  {
    map d | d in Descending(lo, n) :: FreeAt(lo + n - 1 - d)
  }

  lemma DescendingPartition(lo: nat, n: nat)
    requires lo + n < 0x8000_0000
    ensures Partition(DescendingOwner(lo, n), Descending(lo, n), []) && Covers(DescendingOwner(lo, n), lo, lo + n)
    ensures n > 0 ==> Top(Descending(lo, n)) == lo
  {
    var s, own := Descending(lo, n), DescendingOwner(lo, n);
    assert Covers(own, lo, lo + n) by {
      forall d ensures d in own <==> lo <= d < lo + n {
        OwnerAt(lo, n, d);
      }
    }
    hide Partition, Covers, DescendingOwner;
    forall d | d in own ensures own[d].FreeAt? && own[d].p < |s| && s[own[d].p] == d {
      OwnerAt(lo, n, d);
    }
    forall p | 0 <= p < |s| ensures s[p] in own && own[s[p]] == FreeAt(p) {
      OwnerAt(lo, n, s[p]);
    }
    FreeOnly(own, s);
  }

  lemma FreeOnly(own: map<int, Loc>, s: seq<Id>)
    requires forall d :: d in own ==> own[d].FreeAt? && own[d].p < |s| && s[own[d].p] == d
    requires forall p :: 0 <= p < |s| ==> s[p] in own && own[s[p]] == FreeAt(p)
    ensures Partition(own, s, [])
  {
  }

  lemma OwnerAt(lo: nat, n: nat, d: int)
    requires lo + n < 0x8000_0000
    ensures d in DescendingOwner(lo, n) <==> lo <= d < lo + n
    ensures d in DescendingOwner(lo, n) ==>
              DescendingOwner(lo, n)[d] == FreeAt(lo + n - 1 - d) && Descending(lo, n)[lo + n - 1 - d] == d
  {
    var s := Descending(lo, n);
    if lo <= d < lo + n {
      assert s[lo + n - 1 - d] == d;
      assert d in s;
    }
  }

  /** Create the free lists, then mount the empty file system. */
  method Lfscreate(lfiblks: int, dsiz: nat, raw: seq<Sector>, nlfl: nat) returns (fs: LocalFs?)
    requires dsiz < 0x1_0000_0000 && |raw| == Sectors(dsiz)
    requires Accepted(lfiblks, dsiz) ==> HeadsExist(lfiblks, dsiz)
    ensures fs == null <==> !Accepted(lfiblks, dsiz)
    ensures fs != null ==> fs.Valid() && fs.Fs() == FileSys([], [], seq(nlfl, _ => Closed))
    ensures fs != null ==> fs.dir == fs.diskdir == NewDirectory(lfiblks)
    ensures fs != null ==> fs.ifl == Descending(0, 7 * IbSectors(lfiblks))
    ensures fs != null ==>
              fs.dfl == Descending(IbSectors(lfiblks) + 1, Sectors(dsiz) - IbSectors(lfiblks) - 1)
  {
    hide Partition, Covers, IFreeLinked, DFreeLinked, Link, Descending, DescendingOwner, AbsOf, Inv, Sound, Top;
    var sectors, ibsectors := Sectors(dsiz), IbSectors(lfiblks);
    if ibsectors > sectors / 2 {
      return null;
    }
    var n := 7 * ibsectors;
    var dblks := sectors - ibsectors - 1;
    var disk := new Disk(ibsectors, raw);
    var dir := NewDirectory(lfiblks);
    MakeIndexList(disk, n);
    MakeDataList(disk, ibsectors + 1, dblks);
    DescendingPartition(0, n);
    DescendingPartition(ibsectors + 1, dblks);
    fs := new LocalFs(disk, dir, nlfl, Descending(0, n), Descending(ibsectors + 1, dblks),
                      DescendingOwner(0, n), DescendingOwner(ibsectors + 1, dblks));
  }

  /** Chain all index blocks together. */
  method MakeIndexList(disk: Disk, n: nat)
    requires disk.Valid() && n == |disk.ib| && n > 0
    modifies disk
    ensures disk.Valid() && |disk.ib| == |old(disk.ib)| && |disk.sectors| == |old(disk.sectors)|
    ensures IFreeLinked(disk.ib, Descending(0, n))
  {
    var i := 0;
    while i < n
      invariant 0 <= i <= n && disk.Valid() && |disk.ib| == n && |disk.sectors| == |old(disk.sectors)|
      invariant forall k :: 0 <= k < i ==> disk.ib[k].next == (if k == n - 1 then NULLID else k + 1)
    {
      var iblock := IBlock(if i < n - 1 then i + 1 else NULLID, 0, seq(16, _ => NULLID));
      disk.Lfibput(i, iblock);
      i := i + 1;
    }
    var free := Descending(0, n);
    forall p | 0 <= p < n ensures disk.ib[free[p]].next == Below(free, p) {
      assert free[p] == n - 1 - p;
    }
  }

  /** Chain `m` data blocks together, from sector `lo` to the end of the disk. */
  method MakeDataList(disk: Disk, lo: nat, m: nat)
    requires disk.Valid() && lo == disk.ibsectors + 1 && lo + m == |disk.sectors| && m > 0
    modifies disk
    ensures disk.Valid() && disk.ib == old(disk.ib) && |disk.sectors| == |old(disk.sectors)|
    ensures DFreeLinked(disk.db, Descending(lo, m))
  {
    hide Link;
    var i := 0;
    while i < m
      invariant 0 <= i <= m && disk.Valid() && disk.ib == old(disk.ib) && |disk.sectors| == lo + m
      invariant forall k :: lo <= k < lo + i ==> Link(disk.db[k]) == (if k == lo + m - 1 then NULLID else k + 1)
    {
      var dblock := LinkSector(if i < m - 1 then lo + i + 1 else NULLID, seq(508, _ => 0));
      disk.Write(lo + i, dblock);
      i := i + 1;
    }
    var free := Descending(lo, m);
    forall p | 0 <= p < m ensures Link(disk.db[free[p]]) == Below(free, p) {
      assert free[p] == lo + m - 1 - p;
    }
  }
}
