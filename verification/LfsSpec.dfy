/** What the local file system promises: named byte sequences and open handles,
    each with a position. */
module LfsSpec {
  import opened LfsDisk
  import opened LfsFile

  datatype Handle = Closed | Open(file: nat, pos: nat)

  datatype FileSys = FileSys(names: seq<string>, data: seq<seq<byte>>, handles: seq<Handle>)

  datatype Reply = Ok | SysErr | Eof | Byte(b: byte) | Dev(h: nat) | Count(n: nat) | Panic

  datatype Op =
    | OpOpen(name: string, mustExist: bool, mustBeNew: bool)
    | OpClose(h: nat)
    | OpPutc(h: nat, b: byte)
    | OpGetc(h: nat)
    | OpSeek(h: nat, offset: nat)
    | OpTruncate(h: nat)

  const NAME_LEN: nat := 16
  const NUM_DIR_ENT: nat := 20

  /** The state and the answer after one operation. */
  datatype Outcome = Outcome(fs: FileSys, reply: Reply)

  ghost predicate Sound(a: FileSys) {
    && |a.names| == |a.data|
    && (forall h :: 0 <= h < |a.handles| && a.handles[h].Open? ==>
          a.handles[h].file < |a.data| && a.handles[h].pos <= |a.data[a.handles[h].file]|)
    && (forall h, g :: 0 <= h < g < |a.handles| && a.handles[h].Open? && a.handles[g].Open? ==>
          a.handles[h].file != a.handles[g].file)
    && (forall f, g :: 0 <= f < g < |a.names| ==> a.names[f] != a.names[g])
  }

  /** The number of blocks of d bytes that one file takes up: its size over d, rounded up. */
  function BlocksOf(file: seq<byte>, d: nat): nat
    requires d > 0
  {
    (|file| + d - 1) / d
  }

  /** The number of blocks of d bytes that the files take up. */
  function Blocks(data: seq<seq<byte>>, d: nat): (n: nat)
    requires d > 0
  {
    if data == [] then 0 else Blocks(data[..|data| - 1], d) + BlocksOf(data[|data| - 1], d)
  }

  /** How many index blocks and how many data blocks the disk has. */
  datatype Room = Room(index: int, data: int)

  /** Nothing can be stored at the position of handle h: that would take a block
      more, and the files use all there are. */
  predicate OutOfSpace(a: FileSys, h: nat, room: Room)
    requires Sound(a) && h < |a.handles|
  {
    match a.handles[h]
    case Closed => false
    case Open(f, p) =>
      && p == |a.data[f]|
      && ((p % 8192 == 0 && Blocks(a.data, 8192) == room.index) || (p % 512 == 0 && Blocks(a.data, 512) == room.data))
  }

  function PutcSpec(a: FileSys, h: nat, b: byte): Outcome
    requires Sound(a) && h < |a.handles|
  {
    match a.handles[h]
    case Closed => Outcome(a, SysErr)
    case Open(f, p) =>
      Outcome(a.(data := a.data[f := Put(a.data[f], p, b)], handles := a.handles[h := Open(f, p + 1)]), Ok)
  }

  function GetcSpec(a: FileSys, h: nat): Outcome
    requires Sound(a) && h < |a.handles|
  {
    match a.handles[h]
    case Closed => Outcome(a, SysErr)
    case Open(f, p) =>
      if p == |a.data[f]| then Outcome(a, Eof)
      else Outcome(a.(handles := a.handles[h := Open(f, p + 1)]), Byte(a.data[f][p]))
  }

  function SeekSpec(a: FileSys, h: nat, offset: nat): Outcome
    requires Sound(a) && h < |a.handles|
  {
    match a.handles[h]
    case Closed => Outcome(a, SysErr)
    case Open(f, p) =>
      if offset > |a.data[f]| then Outcome(a, SysErr)
      else Outcome(a.(handles := a.handles[h := Open(f, offset)]), Ok)
  }

  function TruncateSpec(a: FileSys, h: nat): Outcome
    requires Sound(a) && h < |a.handles|
  {
    match a.handles[h]
    case Closed => Outcome(a, SysErr)
    case Open(f, p) => Outcome(a.(data := a.data[f := []], handles := a.handles[h := Open(f, 0)]), Ok)
  }

  function CloseSpec(a: FileSys, h: nat): Outcome
    requires Sound(a) && h < |a.handles|
  {
    if a.handles[h].Closed? then Outcome(a, SysErr) else Outcome(a.(handles := a.handles[h := Closed]), Ok)
  }

  /** The first position in s at or after i that holds x, or |s|. */
  function FirstFrom<T(==)>(s: seq<T>, x: T, i: nat): (r: nat)
    requires i <= |s|
    ensures i <= r <= |s|
    ensures r < |s| ==> s[r] == x
    ensures forall k :: i <= k < r ==> s[k] != x
    decreases |s| - i
  {
    if i == |s| || s[i] == x then i else FirstFrom(s, x, i + 1)
  }

  lemma FirstIs<T>(s: seq<T>, x: T, r: nat)
    requires r <= |s| && (r < |s| ==> s[r] == x) && forall k :: 0 <= k < r ==> s[k] != x
    ensures FirstFrom(s, x, 0) == r
  {
  }

  predicate IsOpen(a: FileSys, name: string)
    requires |a.names| == |a.data|
  {
    exists h :: 0 <= h < |a.handles| && a.handles[h].Open? && a.handles[h].file < |a.names|
                && a.names[a.handles[h].file] == name
  }

  function OpenSpec(a: FileSys, name: string, mustExist: bool, mustBeNew: bool): Outcome
    requires Sound(a)
  {
    var h := FirstFrom(a.handles, Closed, 0);
    var f := FirstFrom(a.names, name, 0);
    if |name| >= NAME_LEN || IsOpen(a, name) || h == |a.handles| then Outcome(a, SysErr)
    else if f < |a.names| then
      if mustBeNew then Outcome(a, SysErr)
      else Outcome(a.(handles := a.handles[h := Open(f, 0)]), Dev(h))
    else if mustExist || |a.names| >= NUM_DIR_ENT then Outcome(a, SysErr)
    else Outcome(FileSys(a.names + [name], a.data + [[]], a.handles[h := Open(f, 0)]), Dev(h))
  }

  // ---- what each answer means -------------------------------------------------

  // The same operations said on the state before and the state after.

  /** Nothing but handle h differs, and it became x. */
  ghost predicate OnlyHandle(a: FileSys, b: FileSys, h: nat, x: Handle) {
    && b.names == a.names && b.data == a.data && h < |a.handles| == |b.handles| && b.handles[h] == x
    && (forall g :: 0 <= g < |a.handles| && g != h ==> b.handles[g] == a.handles[g])
  }

  /** Nothing but file f and handle h differ, and they became d and x. */
  ghost predicate OnlyFile(a: FileSys, b: FileSys, f: nat, d: seq<byte>, h: nat, x: Handle) {
    && b.names == a.names && f < |a.data| == |b.data| && b.data[f] == d
    && (forall g :: 0 <= g < |a.data| && g != f ==> b.data[g] == a.data[g])
    && h < |a.handles| == |b.handles| && b.handles[h] == x
    && (forall g :: 0 <= g < |a.handles| && g != h ==> b.handles[g] == a.handles[g])
  }

  /** The reasons to refuse an open. */
  ghost predicate OpenRefused(a: FileSys, name: string, mustExist: bool, mustBeNew: bool) {
    || |name| >= NAME_LEN
    || (exists h :: 0 <= h < |a.handles| && a.handles[h].Open? && a.handles[h].file < |a.names| && a.names[a.handles[h].file] == name)
    || (forall h :: 0 <= h < |a.handles| ==> a.handles[h].Open?)
    || (if name in a.names then mustBeNew else mustExist || |a.names| >= NUM_DIR_ENT)
  }

  /** An open is refused, with nothing changed, exactly for those reasons; otherwise the device
      answered is the first closed handle, now at the start of the file of that name, which is an old
      file as it was or an empty one behind the old files. */
  ghost predicate OpenAnswered(a: FileSys, name: string, mustExist: bool, mustBeNew: bool, r: Reply, b: FileSys) {
    if OpenRefused(a, name, mustExist, mustBeNew) then r == SysErr && b == a
    else
      && r.Dev? && r.h < |a.handles| == |b.handles| && a.handles[r.h].Closed?
      && (forall g :: 0 <= g < r.h ==> a.handles[g].Open?)
      && (forall g :: 0 <= g < |a.handles| && g != r.h ==> b.handles[g] == a.handles[g])
      && b.handles[r.h].Open? && b.handles[r.h].pos == 0
      && b.handles[r.h].file < |b.names| && b.names[b.handles[r.h].file] == name
      && (if name in a.names then b.names == a.names && b.data == a.data
          else b.names == a.names + [name] && b.data == a.data + [[]])
  }

  /** What an answer to one of the other operations says of the states before and after. */
  ghost predicate Answered(a: FileSys, op: Op, r: Reply, b: FileSys)
    requires Sound(a)
  {
    if op.OpOpen? then OpenAnswered(a, op.name, op.mustExist, op.mustBeNew, r, b)
    else
      && op.h < |a.handles|
      && if a.handles[op.h].Closed? then r == SysErr && b == a else UsedAnswered(a, op, a.handles[op.h].file, a.handles[op.h].pos, r, b)
  }

  /** The same for a handle at position p of file f. */
  ghost predicate UsedAnswered(a: FileSys, op: Op, f: nat, p: nat, r: Reply, b: FileSys)
    requires !op.OpOpen? && f < |a.data|
  {
    var d := a.data[f];
    if op.OpPutc? then r == Ok && OnlyFile(a, b, f, if p < |d| then d[p := op.b] else d + [op.b], op.h, Open(f, p + 1))
    else if op.OpGetc? then
      if p < |d| then r == Byte(d[p]) && OnlyHandle(a, b, op.h, Open(f, p + 1)) else r == Eof && b == a
    else if op.OpSeek? then
      if op.offset <= |d| then r == Ok && OnlyHandle(a, b, op.h, Open(f, op.offset)) else r == SysErr && b == a
    else if op.OpTruncate? then r == Ok && OnlyFile(a, b, f, [], op.h, Open(f, 0))
    else r == Ok && OnlyHandle(a, b, op.h, Closed)
  }

  lemma OpenMeans(a: FileSys, name: string, mustExist: bool, mustBeNew: bool)
    requires Sound(a)
    ensures var o := OpenSpec(a, name, mustExist, mustBeNew); OpenAnswered(a, name, mustExist, mustBeNew, o.reply, o.fs)
  {
    hide Sound;
    var h := FirstFrom(a.handles, Closed, 0);
    assert h == |a.handles| <==> forall g :: 0 <= g < |a.handles| ==> a.handles[g].Open?;
  }
}
