/** Whole runs of the local file system against the plain byte-sequence model,
    and block reads and writes built from single bytes. */
module LfsRun {
  import opened LfsDisk
  import opened LfsBlocks
  import opened LfsFile
  import opened LfsVolume
  import opened LfsSpec
  import opened LfsSteps
  import opened LfsRead
  import opened Lfs

  predicate InTable(op: Op, n: nat) {
    match op
    case OpOpen(_, _, _) => true
    case OpClose(h) => h < n
    case OpPutc(h, _) => h < n
    case OpGetc(h) => h < n
    case OpSeek(h, _) => h < n
    case OpTruncate(h) => h < n
  }

  function StepSpec(a: FileSys, op: Op): (o: Outcome)
    requires Sound(a) && InTable(op, |a.handles|)
  {
    match op
    case OpOpen(name, mustExist, mustBeNew) => OpenSpec(a, name, mustExist, mustBeNew)
    case OpClose(h) => CloseSpec(a, h)
    case OpPutc(h, b) => PutcSpec(a, h, b)
    case OpGetc(h) => GetcSpec(a, h)
    case OpSeek(h, offset) => SeekSpec(a, h, offset)
    case OpTruncate(h) => TruncateSpec(a, h)
  }

  /** The model keeps its own invariant, and its table of handles its size. */
  lemma StepSound(a: FileSys, op: Op)
    requires Sound(a) && InTable(op, |a.handles|)
    ensures Sound(StepSpec(a, op).fs) && |StepSpec(a, op).fs.handles| == |a.handles|
  {
    if op.OpOpen? {
      OpenSound(a, op.name, op.mustExist, op.mustBeNew);
    }
  }

  lemma OpenSound(a: FileSys, name: string, mustExist: bool, mustBeNew: bool)
    requires Sound(a)
    ensures Sound(OpenSpec(a, name, mustExist, mustBeNew).fs)
  {
    var f := FirstFrom(a.names, name, 0);
    if !IsOpen(a, name) {
      assert forall h :: 0 <= h < |a.handles| && a.handles[h].Open? && f < |a.names| ==> a.handles[h].file != f;
    }
  }

  /** Every operation does exactly what its answer means, and the answer and what is left are fixed
      by that meaning. */
  lemma StepMeans(a: FileSys, op: Op, r: Reply, b: FileSys)
    requires Sound(a) && InTable(op, |a.handles|)
    ensures Answered(a, op, r, b) <==> Outcome(b, r) == StepSpec(a, op)
  {
    if op.OpOpen? {
      OpenMeans(a, op.name, op.mustExist, op.mustBeNew);
      OpenUnique(a, op.name, op.mustExist, op.mustBeNew, r, b);
    } else {
      UsedMeans(a, op, r, b);
    }
  }

  lemma OpenUnique(a: FileSys, name: string, mustExist: bool, mustBeNew: bool, r: Reply, b: FileSys)
    requires Sound(a)
    ensures OpenAnswered(a, name, mustExist, mustBeNew, r, b) ==> Outcome(b, r) == OpenSpec(a, name, mustExist, mustBeNew)
  {
  }

  lemma UsedMeans(a: FileSys, op: Op, r: Reply, b: FileSys)
    requires Sound(a) && InTable(op, |a.handles|) && !op.OpOpen?
    ensures Answered(a, op, r, b) <==> Outcome(b, r) == StepSpec(a, op)
  {
  }

  function FileOfOp(a: FileSys, op: Op): int
    requires InTable(op, |a.handles|)
  {
    match op
    case OpPutc(h, _) => if a.handles[h].Open? then a.handles[h].file else -1
    case OpTruncate(h) => if a.handles[h].Open? then a.handles[h].file else -1
    case _ => -1
  }

  /** An operation never changes the bytes of any file but its own. */
  lemma OtherFilesUnchanged(a: FileSys, op: Op, g: nat)
    requires Sound(a) && InTable(op, |a.handles|) && g < |a.data| && g != FileOfOp(a, op)
    ensures var b := StepSpec(a, op).fs; |b.data| >= |a.data| && b.data[g] == a.data[g] && b.names[g] == a.names[g]
  {
  }

  function Replay(a: FileSys, ops: seq<Op>): (r: (FileSys, seq<Reply>))
    requires Sound(a) && forall i :: 0 <= i < |ops| ==> InTable(ops[i], |a.handles|)
    ensures Sound(r.0) && |r.0.handles| == |a.handles| && |r.1| == |ops|
  {
    if ops == [] then (a, [])
    else
      var p := Replay(a, ops[..|ops| - 1]);
      var op := ops[|ops| - 1];
      StepSound(p.0, op);
      var o := StepSpec(p.0, op);
      (o.fs, p.1 + [o.reply])
  }

  lemma ReplayNothing(a: FileSys)
    requires Sound(a)
    ensures Replay(a, []) == (a, [])
  {
  }

  lemma ReplayMore(a: FileSys, ops: seq<Op>, i: nat)
    requires Sound(a) && i < |ops| && forall k :: 0 <= k < |ops| ==> InTable(ops[k], |a.handles|)
    ensures var p := Replay(a, ops[..i]);
            var o := StepSpec(p.0, ops[i]);
            Replay(a, ops[..i + 1]) == (o.fs, p.1 + [o.reply])
  {
    hide Sound, StepSpec;
    assert ops[..i + 1][..i] == ops[..i] && ops[..i + 1][i] == ops[i];
  }

  /** The blocks of each kind on the disk. */
  function RoomOn(fs: LocalFs): Room { Room(7 * fs.disk.ibsectors, fs.disk.nsectors - fs.disk.ibsectors - 1) }

  /** The operation would need a block that the disk does not have. */
  predicate Stuck(a: FileSys, op: Op, room: Room)
    requires Sound(a) && InTable(op, |a.handles|)
  {
    op.OpPutc? && OutOfSpace(a, op.h, room)
  }

  lemma PanicMeans(fs: LocalFs, h: nat)
    requires fs.Valid() && h < |fs.tab|
    ensures fs.tab[h].used ==> fs.tab[h].file < |fs.data|
    ensures OutOfSpace(fs.Fs(), h, RoomOn(fs)) <==>
              fs.tab[h].used && Exhausted(fs.dir, fs.tab[h].cache.pos, |fs.data[fs.tab[h].file]|)
  {
    hide Core, Sound, OutOfSpace, Exhausted, AbsOf;
    InvShape(fs.Vol());
    HandleOf(fs.Vol(), h);
    if fs.tab[h].used {
      ExhaustedMeans(fs.Vol(), h);
    } else {
      assert !OutOfSpace(fs.Fs(), h, RoomOn(fs)) by { ClosedFits(fs.Fs(), h, RoomOn(fs)); }
    }
  }

  lemma ClosedFits(a: FileSys, h: nat, room: Room)
    requires Sound(a) && h < |a.handles| && a.handles[h].Closed?
    ensures !OutOfSpace(a, h, room)
  {
  }

  /** One operation, which panics exactly when it needs a block that is not there. */
  method Perform(fs: LocalFs, op: Op) returns (r: Reply)
    requires fs.Valid() && InTable(op, |fs.tab|)
    modifies fs, fs.disk
    ensures r == Panic <==> Stuck(old(fs.Fs()), op, RoomOn(fs))
    ensures r != Panic ==> fs.Valid() && Outcome(fs.Fs(), r) == StepSpec(old(fs.Fs()), op) && |fs.tab| == |old(fs.tab)|
    ensures r != Panic ==> Answered(old(fs.Fs()), op, r, fs.Fs())
  {
    hide Inv, Core, Sound, AbsOf, OutOfSpace, Exhausted, Answered;
    ghost var a := fs.Fs();
    StepSound(a, op);
    if op.OpPutc? {
      PanicMeans(fs, op.h);
    }
    match op {
      case OpOpen(name, mustExist, mustBeNew) => r := fs.Lfsopen(name, mustExist, mustBeNew);
      case OpClose(h) => r := fs.Lflclose(h);
      case OpPutc(h, b) => r := fs.Lflputc(h, b);
      case OpGetc(h) => r := fs.Lflgetc(h);
      case OpSeek(h, offset) => r := fs.Lflseek(h, offset);
      case OpTruncate(h) => r := fs.Lftruncate(h);
    }
    if r != Panic {
      StepMeans(a, op, r, fs.Fs());
    }
  }

  /** Refinement over whole runs: whatever the sequence of operations on however
      many open files, every answer and the final state are those of the plain
      model, up to the first one that needs a block the disk does not have. */
  method Run(fs: LocalFs, ops: seq<Op>) returns (replies: seq<Reply>)
    requires fs.Valid() && forall i :: 0 <= i < |ops| ==> InTable(ops[i], |fs.tab|)
    modifies fs, fs.disk
    ensures |replies| <= |ops|
    ensures replies == Replay(old(fs.Fs()), ops[..|replies|]).1
    ensures forall i :: 0 <= i < |replies| ==> !Stuck(Replay(old(fs.Fs()), ops[..i]).0, ops[i], RoomOn(fs))
    ensures |replies| < |ops| ==> Stuck(Replay(old(fs.Fs()), ops[..|replies|]).0, ops[|replies|], RoomOn(fs))
    ensures |replies| == |ops| ==> fs.Valid() && fs.Fs() == Replay(old(fs.Fs()), ops).0
  {
    hide Inv, Core, Sound, AbsOf, StepSpec, Stuck, Replay;
    ghost var a := fs.Fs();
    replies := [];
    assert Replay(a, ops[..0]) == (a, []) by {
      ReplayNothing(a);
    }
    var i := 0;
    while i < |ops|
      invariant i == |replies| <= |ops|
      invariant fs.Valid() && |fs.tab| == |a.handles|
      invariant (fs.Fs(), replies) == Replay(a, ops[..i])
      invariant forall k :: 0 <= k < i ==> !Stuck(Replay(a, ops[..k]).0, ops[k], RoomOn(fs))
    {
      var r := Perform(fs, ops[i]);
      if r == Panic {
        return;
      }
      ReplayMore(a, ops, i);
      replies := replies + [r];
      i := i + 1;
    }
    assert ops[..i] == ops;
  }

  /** Bytes `buf` laid over `data` from position p on, growing it if need be. */
  function Overlay(data: seq<byte>, p: nat, buf: seq<byte>): (r: seq<byte>)
    requires p <= |data|
    ensures |r| == if p + |buf| <= |data| then |data| else p + |buf|
    ensures r[p..p + |buf|] == buf && r[..p] == data[..p]
    ensures forall i :: p + |buf| <= i < |data| ==> r[i] == data[i]
  {
    data[..p] + buf + if p + |buf| <= |data| then data[p + |buf|..] else []
  }

  function Written(a: FileSys, h: nat, buf: seq<byte>): FileSys
    requires Sound(a) && h < |a.handles| && a.handles[h].Open?
  {
    var f, p := a.handles[h].file, a.handles[h].pos;
    a.(data := a.data[f := Overlay(a.data[f], p, buf)], handles := a.handles[h := Open(f, p + |buf|)])
  }

  /** Writing one more byte after `buf` is writing the longer buffer. */
  lemma OverlayMore(d: seq<byte>, p: nat, buf: seq<byte>, b: byte)
    requires p <= |d|
    ensures Put(Overlay(d, p, buf), p + |buf|, b) == Overlay(d, p, buf + [b])
  {
  }

  lemma WrittenMore(a: FileSys, h: nat, buf: seq<byte>, b: byte)
    requires Sound(a) && h < |a.handles| && a.handles[h].Open?
    ensures Sound(Written(a, h, buf)) && PutcSpec(Written(a, h, buf), h, b) == Outcome(Written(a, h, buf + [b]), Ok)
  {
    hide Overlay, Put;
    var f, p := a.handles[h].file, a.handles[h].pos;
    var d := a.data[f];
    WrittenSound(a, h, buf);
    OverlayMore(d, p, buf, b);
    var w := Written(a, h, buf);
    assert w.data[f := Overlay(d, p, buf + [b])] == a.data[f := Overlay(d, p, buf + [b])];
    assert w.handles[h := Open(f, p + |buf| + 1)] == a.handles[h := Open(f, p + |buf| + 1)];
  }

  lemma WrittenSound(a: FileSys, h: nat, buf: seq<byte>)
    requires Sound(a) && h < |a.handles| && a.handles[h].Open?
    ensures Sound(Written(a, h, buf))
  {
  }

  lemma WrittenNothing(a: FileSys, h: nat)
    requires Sound(a) && h < |a.handles| && a.handles[h].Open?
    ensures Written(a, h, []) == a
  {
    var f, p := a.handles[h].file, a.handles[h].pos;
    assert Overlay(a.data[f], p, []) == a.data[f];
  }

  /** Space runs out before byte i of the buffer. */
  predicate RunsOut(a: FileSys, h: nat, buff: seq<byte>, i: nat, room: Room)
    requires Sound(a) && h < |a.handles| && a.handles[h].Open? && i <= |buff|
  {
    WrittenSound(a, h, buff[..i]);
    OutOfSpace(Written(a, h, buff[..i]), h, room)
  }

  /** Write a buffer byte by byte.  `count` may be negative in the source; the
      buffer then does not matter. */
  method Lflwrite(fs: LocalFs, h: nat, buff: seq<byte>, count: int) returns (r: Reply)
    requires fs.Valid() && h < |fs.tab| && (count >= 0 ==> |buff| == count)
    modifies fs, fs.disk
    ensures count < 0 ==> r == SysErr
    ensures count == 0 ==> r == Count(0)
    ensures count > 0 && old(fs.Fs()).handles[h].Closed? ==> r == SysErr
    ensures r != Panic ==> fs.Valid()
    ensures r == SysErr || count == 0 ==> fs.Fs() == old(fs.Fs())
    ensures count > 0 && old(fs.Fs()).handles[h].Open? ==>
              if exists i: nat :: i < count && RunsOut(old(fs.Fs()), h, buff, i, RoomOn(fs)) then r == Panic
              else r == Count(count) && fs.Fs() == Written(old(fs.Fs()), h, buff)
  {
    hide Inv, Core, Sound, AbsOf, Written, PutcSpec, OutOfSpace, Exhausted;
    if count < 0 {
      return SysErr;
    }
    ghost var a := fs.Fs();
    if a.handles[h].Open? {
      WrittenNothing(a, h);
    }
    ClosedPutc(a, h);
    var i := 0;
    while i < count
      invariant 0 <= i <= count && fs.Valid() && |fs.tab| == |a.handles|
      invariant a.handles[h].Open? ==> fs.Fs() == Written(a, h, buff[..i])
      invariant a.handles[h].Open? ==> forall k: nat :: k < i ==> !RunsOut(a, h, buff, k, RoomOn(fs))
      invariant a.handles[h].Closed? ==> i == 0 && fs.Fs() == a
    {
      if a.handles[h].Open? {
        WrittenMore(a, h, buff[..i], buff[i]);
        assert buff[..i] + [buff[i]] == buff[..i + 1];
        WrittenHandles(a, h, buff[..i + 1]);
      }
      InvShape(fs.Vol());
      HandleOf(fs.Vol(), h);
      PanicMeans(fs, h);
      assert a.handles[h].Open? ==> (RunsOut(a, h, buff, i, RoomOn(fs)) <==> OutOfSpace(fs.Fs(), h, RoomOn(fs)));
      r := fs.Lflputc(h, buff[i]);
      if r == SysErr || r == Panic {
        return;
      }
      i := i + 1;
    }
    if count > 0 {
      assert buff[..count] == buff;
    }
    r := Count(count);
  }

  lemma WrittenHandles(a: FileSys, h: nat, buf: seq<byte>)
    requires Sound(a) && h < |a.handles| && a.handles[h].Open?
    ensures |Written(a, h, buf).handles| == |a.handles|
  {
  }

  lemma ClosedPutc(a: FileSys, h: nat)
    requires Sound(a) && h < |a.handles|
    ensures a.handles[h].Closed? ==> forall b :: PutcSpec(a, h, b) == Outcome(a, SysErr)
  {
  }

  function Min(a: int, b: int): int { if a < b then a else b }

  /** What a read of at most `count` bytes returns, and what it leaves. */
  function ReadSpec(a: FileSys, h: nat, count: nat): (r: (FileSys, Reply, seq<byte>))
    requires Sound(a) && h < |a.handles|
    ensures r.1.Count? ==> r.1.n == |r.2| <= count
  {
    if count == 0 then (a, Count(0), [])
    else
      match a.handles[h]
      case Closed => (a, SysErr, [])
      case Open(f, p) =>
        var n := Min(count, |a.data[f]| - p);
        if n == 0 then (a, Eof, [])
        else (a.(handles := a.handles[h := Open(f, p + n)]), Count(n), a.data[f][p..p + n])
  }

  /** Where a reader stands after i bytes. */
  ghost predicate Reading(a: FileSys, b: FileSys, h: nat, i: nat, buff: seq<byte>)
    requires Sound(a) && h < |a.handles|
  {
    match a.handles[h]
    case Closed => i == 0 && b == a && buff == []
    case Open(f, p) => p + i <= |a.data[f]| && b == a.(handles := a.handles[h := Open(f, p + i)]) && buff == a.data[f][p..p + i]
  }

  lemma ReadingStep(a: FileSys, b: FileSys, h: nat, i: nat, buff: seq<byte>)
    requires Sound(a) && Sound(b) && h < |a.handles| && Reading(a, b, h, i, buff)
    ensures |b.handles| == |a.handles|
    ensures match GetcSpec(b, h).reply
            case Byte(x) => Reading(a, GetcSpec(b, h).fs, h, i + 1, buff + [x]) && a.handles[h].Open?
            case Eof => a.handles[h].Open? && a.handles[h].pos + i == |a.data[a.handles[h].file]| && GetcSpec(b, h).fs == b
            case SysErr => a.handles[h].Closed? && GetcSpec(b, h).fs == b
            case _ => false
  {
    if a.handles[h].Open? {
      var f, p := a.handles[h].file, a.handles[h].pos;
      assert b.handles[h := Open(f, p + i + 1)] == a.handles[h := Open(f, p + i + 1)];
    }
  }

  /** Read a buffer byte by byte, stopping early at the end of the file. */
  method Lflread(fs: LocalFs, h: nat, count: int) returns (r: Reply, buff: seq<byte>)
    requires fs.Valid() && h < |fs.tab|
    modifies fs, fs.disk
    ensures fs.Valid()
    ensures count < 0 ==> r == SysErr && fs.Fs() == old(fs.Fs())
    ensures count >= 0 ==> fs.Fs() == ReadSpec(old(fs.Fs()), h, count).0 && r == ReadSpec(old(fs.Fs()), h, count).1
    ensures count >= 0 && r.Count? ==> buff == ReadSpec(old(fs.Fs()), h, count).2
  {
    hide Inv, Core, Sound, AbsOf, GetcSpec;
    buff := [];
    if count < 0 {
      return SysErr, [];
    }
    ghost var a := fs.Fs();
    var numread := 0;
    assert Reading(a, a, h, 0, []) by {
      if a.handles[h].Open? {
        assert a.handles[h := a.handles[h]] == a.handles;
        SoundHandle(a, h);
      }
    }
    while numread < count
      invariant 0 <= numread <= count && fs.Valid() && |fs.tab| == |a.handles|
      invariant Reading(a, fs.Fs(), h, numread, buff) && |buff| == numread
    {
      ReadingStep(a, fs.Fs(), h, numread, buff);
      var nxtbyte := fs.Lflgetc(h);
      if nxtbyte == SysErr {
        return SysErr, [];
      } else if nxtbyte == Eof {
        r := if numread == 0 then Eof else Count(numread);
        return;
      } else {
        buff := buff + [nxtbyte.b];
      }
      numread := numread + 1;
    }
    r := Count(numread);
  }

  lemma SoundHandle(a: FileSys, h: nat)
    requires Sound(a) && h < |a.handles| && a.handles[h].Open?
    ensures a.handles[h].file < |a.data| && a.handles[h].pos <= |a.data[a.handles[h].file]|
  {
  }

  /** Round trip: what was written is what a seek back and a read return. */
  lemma WriteSeekRead(a: FileSys, h: nat, buf: seq<byte>)
    requires Sound(a) && h < |a.handles| && a.handles[h].Open? && buf != []
    ensures var w := Written(a, h, buf);
            && Sound(w)
            && (var s := SeekSpec(w, h, a.handles[h].pos);
                s.reply == Ok && Sound(s.fs) && ReadSpec(s.fs, h, |buf|) == (w, Count(|buf|), buf))
  {
    var f, p := a.handles[h].file, a.handles[h].pos;
    WrittenSound(a, h, buf);
    var w := Written(a, h, buf);
    var s := SeekSpec(w, h, p).fs;
    assert s.handles[h := Open(f, p + |buf|)] == w.handles;
  }

  /** A file closed and opened again by its name, under whatever device is answered, reads as it was. */
  lemma CloseOpenRead(a: FileSys, h: nat, name: string, mustExist: bool, count: nat)
    requires Sound(a) && h < |a.handles| && a.handles[h].Open? && a.names[a.handles[h].file] == name
    requires |name| < NAME_LEN && count >= |a.data[a.handles[h].file]| > 0
    ensures var c, d := CloseSpec(a, h), a.data[a.handles[h].file];
            && c.reply == Ok && Sound(c.fs) && OpenSpec(c.fs, name, mustExist, false).reply.Dev?
            && (var o := OpenSpec(c.fs, name, mustExist, false);
                && o.reply.h <= h && Sound(o.fs) && |o.fs.handles| == |a.handles|
                && ReadSpec(o.fs, o.reply.h, count).1 == Count(|d|) && ReadSpec(o.fs, o.reply.h, count).2 == d)
  {
    hide ReadSpec;
    var f := a.handles[h].file;
    var c := CloseSpec(a, h).fs;
    ClosedAgain(a, h, name, mustExist);
    StepMeans(c, OpOpen(name, mustExist, false), OpenSpec(c, name, mustExist, false).reply, OpenSpec(c, name, mustExist, false).fs);
    var o := OpenSpec(c, name, mustExist, false);
    OpenSound(c, name, mustExist, false);
    assert c.handles[h].Closed?;
    WholeRead(o.fs, o.reply.h, f, count);
  }

  lemma ClosedAgain(a: FileSys, h: nat, name: string, mustExist: bool)
    requires Sound(a) && h < |a.handles| && a.handles[h].Open? && a.names[a.handles[h].file] == name && |name| < NAME_LEN
    ensures var c := CloseSpec(a, h); c.reply == Ok && Sound(c.fs) && !OpenRefused(c.fs, name, mustExist, false)
  {
    assert CloseSpec(a, h).fs.handles[h].Closed?;
  }

  lemma WholeRead(a: FileSys, h: nat, f: nat, count: nat)
    requires Sound(a) && h < |a.handles| && a.handles[h] == Open(f, 0) && count >= |a.data[f]| > 0
    ensures ReadSpec(a, h, count).1 == Count(|a.data[f]|) && ReadSpec(a, h, count).2 == a.data[f]
  {
  }

  /** After a seek to any offset up to the size, the next byte read is the one there, at the size the
      end of the file is reported, and a byte put there is the only one that changes. */
  lemma SeekThen(a: FileSys, h: nat, offset: nat, b: byte)
    requires Sound(a) && h < |a.handles| && a.handles[h].Open?
    ensures var d, s := a.data[a.handles[h].file], SeekSpec(a, h, offset);
            && (s.reply == Ok <==> offset <= |d|) && Sound(s.fs) && |s.fs.handles| == |a.handles|
            && (offset < |d| ==> GetcSpec(s.fs, h).reply == Byte(d[offset]))
            && (offset == |d| ==> GetcSpec(s.fs, h).reply == Eof)
            && (offset <= |d| ==> PutcSpec(s.fs, h, b).fs.data == a.data[a.handles[h].file := if offset < |d| then d[offset := b] else d + [b]])
            && (offset > |d| ==> s.fs == a)
  {
    StepSound(a, OpSeek(h, offset));
  }
}
