/** The disk under the local file system: 512-byte sectors, with seven 72-byte
    index blocks packed in every sector of the index area. */
module LfsDisk {
  newtype byte = x: int | 0 <= x < 256

  // A sector has 512 bytes (LF_BLKSIZ); an index block has 16 data pointers
  // (LF_IBLEN) and takes 72 bytes, so a sector of the index area packs 7 of
  // them; the index area starts at sector 1 (LF_AREA_IB).  The numbers are
  // written out: the proofs need them as literals.
  const NULLID: int := -1

  type Sector = s: seq<byte> | |s| == 512 witness seq(512, _ => 0)

  /** A signed 32-bit block number; NULLID is the null pointer. */
  type Id = x: int | -0x8000_0000 <= x < 0x8000_0000

  datatype IBlock = IBlock(next: Id, offset: int, dba: seq<Id>)

  predicate IBlockOk(b: IBlock) {
    |b.dba| == 16 && 0 <= b.offset < 0x1_0000_0000
  }

  // ---- the memory image of an index block: 18 little-endian words -----------

  function ByteOf(w: int, i: nat): byte
    requires 0 <= w < 0x1_0000_0000 && i < 4
  {
    (if i == 0 then w % 256
     else if i == 1 then w / 256 % 256
     else if i == 2 then w / 256 / 256 % 256
     else w / 256 / 256 / 256) as byte
  }

  function Unsigned(v: Id): (w: int)
    ensures 0 <= w < 0x1_0000_0000
  {
    if v < 0 then v + 0x1_0000_0000 else v
  }

  function Signed(w: int): Id
    requires 0 <= w < 0x1_0000_0000
  {
    if w < 0x8000_0000 then w else w - 0x1_0000_0000
  }

  function Word(s: seq<byte>, at: nat): (w: int)
    requires at + 4 <= |s|
    ensures 0 <= w < 0x1_0000_0000
  {
    s[at] as int + 256 * (s[at + 1] as int + 256 * (s[at + 2] as int + 256 * s[at + 3] as int))
  }

  lemma WordRoundTrip(s: seq<byte>, at: nat, w: int)
    requires at + 4 <= |s| && 0 <= w < 0x1_0000_0000
    requires forall i {:trigger ByteOf(w, i)} :: 0 <= i < 4 ==> s[at + i] == ByteOf(w, i)
    ensures Word(s, at) == w
  {
    assert s[at + 0] == ByteOf(w, 0) && s[at + 1] == ByteOf(w, 1);
    assert s[at + 2] == ByteOf(w, 2) && s[at + 3] == ByteOf(w, 3);
  }

  function WordOf(b: IBlock, k: nat): (w: int)
    requires IBlockOk(b) && k < 18
    ensures 0 <= w < 0x1_0000_0000
  {
    if k == 0 then Unsigned(b.next) else if k == 1 then b.offset else Unsigned(b.dba[k - 2])
  }

  function Image(b: IBlock): (s: seq<byte>)
    requires IBlockOk(b)
    ensures |s| == 72
  {
    seq(72, i requires 0 <= i < 72 => ByteOf(WordOf(b, i / 4), i % 4))
  }

  function Parse(s: seq<byte>, at: nat): (b: IBlock)
    requires at + 72 <= |s|
    ensures IBlockOk(b)
  {
    IBlock(Signed(Word(s, at)), Word(s, at + 4),
           seq(16, m requires 0 <= m < 16 => Signed(Word(s, at + 4 * (m + 2)))))
  }

  lemma ImageWord(s: seq<byte>, at: nat, b: IBlock, k: nat)
    requires IBlockOk(b) && at + 72 <= |s| && k < 18
    requires s[at..at + 72] == Image(b)
    ensures Word(s, at + 4 * k) == WordOf(b, k)
  {
    forall i | 0 <= i < 4 ensures s[at + 4 * k + i] == ByteOf(WordOf(b, k), i) {
      assert s[at + 4 * k + i] == s[at..at + 72][4 * k + i];
      assert (4 * k + i) / 4 == k && (4 * k + i) % 4 == i;
    }
    WordRoundTrip(s, at + 4 * k, WordOf(b, k));
  }

  /** Loading a stored index block returns it, wherever it lies in a sector. */
  lemma ParseImage(s: seq<byte>, at: nat, b: IBlock)
    requires IBlockOk(b) && at + 72 <= |s|
    requires s[at..at + 72] == Image(b)
    ensures Parse(s, at) == b
  {
    hide Word;
    ImageWord(s, at, b, 0);
    ImageWord(s, at, b, 1);
    forall m | 0 <= m < 16 ensures Parse(s, at).dba[m] == b.dba[m] {
      ImageWord(s, at, b, m + 2);
    }
  }

  lemma ParseFrame(s: seq<byte>, t: seq<byte>, at: nat)
    requires at + 72 <= |s| && |t| == |s|
    requires forall i :: at <= i < at + 72 ==> s[i] == t[i]
    ensures Parse(s, at) == Parse(t, at)
  {
  }

  // ---- where an index block lies ---------------------------------------------

  function Ib2Sect(i: nat): nat { i / 7 + 1 }
  function Ib2Disp(i: nat): (d: nat) ensures d + 72 <= 512 { i % 7 * 72 }

  /** Two index blocks never share a byte of the disk. */
  lemma IndexBlocksDisjoint(i: nat, j: nat)
    requires i != j
    ensures Ib2Sect(i) != Ib2Sect(j) || Ib2Disp(i) + 72 <= Ib2Disp(j) || Ib2Disp(j) + 72 <= Ib2Disp(i)
  {
  }

  /** The link that a data block on the free list keeps in its first word. */
  function Link(s: Sector): Id { Signed(Word(s, 0)) }

  function LinkSector(next: Id, junk: seq<byte>): (s: Sector)
    requires |junk| == 512 - 4
    ensures Link(s) == next
  {
    var w := Unsigned(next);
    var s := [ByteOf(w, 0), ByteOf(w, 1), ByteOf(w, 2), ByteOf(w, 3)] + junk;
    WordRoundTrip(s, 0, w);
    s
  }

  class Disk {
    const ibsectors: nat
    const nsectors: nat
    var sectors: seq<Sector>
    ghost var ib: seq<IBlock>
    ghost var db: seq<Sector>

    /** `ib` is the array of index blocks that the packed sectors hold; `db` is
        the data area (its other elements mean nothing). */
    ghost predicate Valid()
      reads this
    {
      && ibsectors < |sectors| == nsectors <= 0x80_0000
      && |ib| == 7 * ibsectors
      && (forall i :: 0 <= i < |ib| ==> ib[i] == Parse(sectors[Ib2Sect(i)], Ib2Disp(i)))
      && |db| == |sectors|
      && (forall d :: ibsectors < d < |sectors| ==> db[d] == sectors[d])
    }

    ghost predicate IsData(d: int)
      reads this
    {
      ibsectors < d < |sectors|
    }

    constructor (ibsectors: nat, sectors: seq<Sector>)
      requires ibsectors < |sectors| <= 0x80_0000
      ensures Valid() && this.ibsectors == ibsectors && this.sectors == sectors && nsectors == |sectors|
    {
      this.ibsectors, nsectors := ibsectors, |sectors|;
      this.sectors := sectors;
      ib := seq(7 * ibsectors,
                i requires 0 <= i < 7 * ibsectors => Parse(sectors[Ib2Sect(i)], Ib2Disp(i)));
      db := sectors;
    }

    /** Write one data sector: no index block changes. */
    method Write(d: nat, buf: Sector)
      requires Valid() && IsData(d)
      modifies this
      ensures Valid() && sectors == old(sectors)[d := buf] && ib == old(ib) && db == old(db)[d := buf]
    {
      sectors := sectors[d := buf];
      db := db[d := buf];
    }

    method Read(d: nat) returns (buf: Sector)
      requires Valid() && IsData(d)
      ensures buf == db[d]
    {
      buf := sectors[d];
    }

    /** Load index block `inum` byte by byte out of its sector. */
    method Lfibget(inum: nat) returns (b: IBlock)
      requires Valid() && inum < |ib|
      ensures b == ib[inum] && IBlockOk(b)
    {
      var dbuff := sectors[Ib2Sect(inum)];
      var from := Ib2Disp(inum);
      var to: seq<byte> := [];
      for i := 0 to 72
        invariant to == dbuff[from..from + i]
      {
        to := to + [dbuff[from + i]];
      }
      ParseImage'(to, dbuff, from);
      b := Parse(to, 0);
    }

    /** Store index block `inum`: every other index block, the directory and
        all data sectors keep their bytes. */
    method Lfibput(inum: nat, b: IBlock)
      requires Valid() && inum < |ib| && IBlockOk(b)
      modifies this
      ensures Valid() && ib == old(ib)[inum := b]
      ensures |sectors| == |old(sectors)| && sectors[0] == old(sectors)[0]
      ensures db == old(db)
    {
      hide Parse, Image, IBlockOk;
      var diskblock, to, from := Ib2Sect(inum), Ib2Disp(inum), Image(b);
      var before := sectors[diskblock];
      var dbuff: Sector := before;
      for i := 0 to 72
        invariant dbuff == before[..to] + from[..i] + before[to + i..]
      {
        dbuff := dbuff[to + i := from[i]];
      }
      sectors := sectors[diskblock := dbuff];
      ib := ib[inum := b];
      assert dbuff[to..to + 72] == from;
      ParseImage(dbuff, to, b);
      forall j | 0 <= j < |ib| && j != inum
        ensures ib[j] == Parse(sectors[Ib2Sect(j)], Ib2Disp(j))
      {
        IndexBlocksDisjoint(inum, j);
        if Ib2Sect(j) == diskblock {
          ParseFrame(before, dbuff, Ib2Disp(j));
        }
      }
    }
  }

  lemma ParseImage'(t: seq<byte>, s: seq<byte>, at: nat)
    requires at + 72 <= |s| && t == s[at..at + 72]
    ensures Parse(t, 0) == Parse(s, at)
  {
    forall k | 0 <= k <= 68 ensures Word(t, k) == Word(s, at + k) {
    }
    assert Parse(t, 0).dba == Parse(s, at).dba;
  }
}
