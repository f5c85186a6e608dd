/** Demand paging: frame tables, page tables, physical memory, and what each
    process believes its memory to hold. */
module PagingModel {
  newtype byte = x: int | 0 <= x < 256

  /** A virtual page of a process. */
  datatype Key = Key(pid: int, vpn: nat)

  datatype Frame = Frame(isfree: bool, pid: int, vpn: nat, latency: nat)

  datatype Pte = Pte(pres: bool, dirty: bool, base: nat)

  type Page = p: seq<byte> | |p| == 4096 witness seq(4096, _ => 0)

  /** `vmem` (what each touched page holds for its process) and `slot` (the swap
      frame of a page that has one) are known only to the proof.  `mem` is the
      physical memory of the FFS area followed by that of the swap area. */
  datatype State = State(
    ptab: seq<Frame>, ftab: seq<Frame>, stab: seq<Frame>,
    pdir: map<int, map<int, int>>, tables: seq<seq<Pte>>,
    mem: seq<Page>, latency: nat,
    vmem: map<Key, Page>, slot: map<Key, nat>)

  const FREE_FRAME := Frame(true, 0, 0, 0)
  const ABSENT := Pte(false, false, 0)
  const PT_START: nat := 4096

  // A virtual page number is a directory index and a table index of ten bits.
  function Hi(vpn: nat): nat { vpn / 1024 }
  function Lo(vpn: nat): (i: nat) ensures i < 1024 { vpn % 1024 }

  lemma HiLo(a: nat, b: nat)
    ensures Hi(a) == Hi(b) && Lo(a) == Lo(b) <==> a == b
  {
  }

  function FfsStart(s: State): nat { PT_START + |s.ptab| }
  function SwapStart(s: State): nat { FfsStart(s) + |s.ftab| }

  /** Pages above the kernel's own and above the page-table area. */
  predicate User(s: State, k: Key) { k.pid > 0 && Hi(k.vpn) >= 4 }

  ghost predicate Mapped(s: State, k: Key) {
    k.pid in s.pdir && Hi(k.vpn) in s.pdir[k.pid]
  }

  ghost predicate Tables(s: State) {
    && |s.tables| == |s.ptab|
    && (forall i :: 0 <= i < |s.tables| ==> |s.tables[i]| == 1024)
    && (forall p :: p in s.pdir ==> p > 0)
    && (forall p, h :: p in s.pdir && h in s.pdir[p] ==>
          0 <= s.pdir[p][h] < |s.ptab| && !s.ptab[s.pdir[p][h]].isfree && s.ptab[s.pdir[p][h]].pid == p)
    && (forall p, h, h' :: p in s.pdir && h in s.pdir[p] && h' in s.pdir[p] && h != h' ==> s.pdir[p][h] != s.pdir[p][h'])
  }

  /** The page-table entry that the processor finds for a page. */
  ghost function Entry(s: State, k: Key): Pte
    requires Tables(s)
  {
    if Mapped(s, k) then s.tables[s.pdir[k.pid][Hi(k.vpn)]][Lo(k.vpn)] else ABSENT
  }

  predicate EntryExists(s: State, k: Key) {
    && k.pid in s.pdir && Hi(k.vpn) in s.pdir[k.pid]
    && 0 <= s.pdir[k.pid][Hi(k.vpn)] < |s.tables| && |s.tables[s.pdir[k.pid][Hi(k.vpn)]]| == 1024
  }

  function WithEntry(s: State, k: Key, e: Pte): State
    requires EntryExists(s, k)
  {
    var t := s.pdir[k.pid][Hi(k.vpn)];
    s.(tables := s.tables[t := s.tables[t][Lo(k.vpn) := e]])
  }

  /** Writing one entry changes that entry only: no two pages share one. */
  lemma EntryUpdate(s: State, k: Key, e: Pte)
    requires Tables(s) && Mapped(s, k)
    ensures Tables(WithEntry(s, k, e))
    ensures forall j :: Entry(WithEntry(s, k, e), j) == if j == k then e else Entry(s, j)
  {
    var w := WithEntry(s, k, e);
    forall j ensures Entry(w, j) == if j == k then e else Entry(s, j) {
      HiLo(j.vpn, k.vpn);
      if Mapped(s, j) && s.pdir[j.pid][Hi(j.vpn)] == s.pdir[k.pid][Hi(k.vpn)] {
        assert j.pid == k.pid;
      }
    }
  }

  function KeyOf(f: Frame): Key { Key(f.pid, f.vpn) }

  /** A page is present exactly if it has a frame, and that frame is its own. */
  ghost predicate Frames(s: State)
    requires Tables(s)
  {
    && |s.ftab| > 0
    && (forall o :: 0 <= o < |s.ftab| && !s.ftab[o].isfree ==>
          User(s, KeyOf(s.ftab[o])) && Entry(s, KeyOf(s.ftab[o])).pres
          && Entry(s, KeyOf(s.ftab[o])).base == FfsStart(s) + o)
    && (forall k :: User(s, k) && Entry(s, k).pres ==>
          FfsStart(s) <= Entry(s, k).base < SwapStart(s)
          && !s.ftab[Entry(s, k).base - FfsStart(s)].isfree && KeyOf(s.ftab[Entry(s, k).base - FfsStart(s)]) == k)
  }

  /** Every used swap frame is the one slot of its page. */
  ghost predicate Slots(s: State) {
    && (forall i :: 0 <= i < |s.stab| ==>
          if s.stab[i].isfree then s.stab[i].pid == 0
          else KeyOf(s.stab[i]) in s.slot && s.slot[KeyOf(s.stab[i])] == i)
    && (forall k :: k in s.slot ==>
          User(s, k) && k.pid in s.pdir && s.slot[k] < |s.stab| && !s.stab[s.slot[k]].isfree && KeyOf(s.stab[s.slot[k]]) == k)
  }

  /** Loading times differ, and none is later than the clock. */
  ghost predicate Aged(s: State) {
    && (forall o :: 0 <= o < |s.ftab| && !s.ftab[o].isfree ==> s.ftab[o].latency <= s.latency)
    && (forall o, p :: 0 <= o < p < |s.ftab| && !s.ftab[o].isfree && !s.ftab[p].isfree ==> s.ftab[o].latency != s.ftab[p].latency)
  }

  /** The clock has just ticked: it is later than every loading time. */
  ghost predicate Fresh(s: State) {
    forall o :: 0 <= o < |s.ftab| && !s.ftab[o].isfree ==> s.ftab[o].latency < s.latency
  }

  lemma Tick(s: State)
    requires Inv(s)
    ensures Inv(s.(latency := s.latency + 1)) && Fresh(s.(latency := s.latency + 1))
    ensures forall k :: Entry(s.(latency := s.latency + 1), k) == Entry(s, k)
  {
    hide Frames, Slots, Aged, Contents, Rooted;
    var w := s.(latency := s.latency + 1);
    assert Tables(w);
    assert forall k :: Entry(w, k) == Entry(s, k);
    TickRest(s, w);
  }

  lemma TickRest(s: State, w: State)
    requires Inv(s) && w == s.(latency := s.latency + 1) && Tables(w) && forall k :: Entry(w, k) == Entry(s, k)
    ensures Inv(w) && Fresh(w)
  {
    hide Tables, Entry, Holds;
    assert Contents(w) by {
      hide Frames, Slots, Aged, Rooted;
      forall j | j in w.vmem ensures Holds(w, j) {
        assert Holds(s, j);
        SameEntryHolds(s, w, j);
      }
    }
    hide Contents;
    assert Rooted(w) && Slots(w);
    hide Rooted, Slots;
    assert Aged(w);
    assert Frames(w);
  }

  lemma SameEntryHolds(s: State, w: State, j: Key)
    requires Tables(s) && Tables(w) && Entry(w, j) == Entry(s, j) && j in s.vmem && Holds(s, j)
    requires w.vmem == s.vmem && w.mem == s.mem && w.slot == s.slot && |w.ftab| == |s.ftab| && |w.ptab| == |s.ptab|
    ensures Holds(w, j)
  {
    hide Tables, Entry;
  }

  /** What a free frame's record says does not matter. */
  lemma FreeRecord(s: State, o: nat)
    requires Inv(s) && o < |s.ftab| && s.ftab[o].isfree
    ensures var w := s.(ftab := s.ftab[o := FREE_FRAME]); Inv(w) && forall k :: Entry(w, k) == Entry(s, k)
  {
    hide Frames, Slots, Aged, Contents, Rooted;
    var w := s.(ftab := s.ftab[o := FREE_FRAME]);
    assert Tables(w);
    assert forall k :: Entry(w, k) == Entry(s, k);
    FreeRecordRest(s, w, o);
  }

  lemma FreeRecordRest(s: State, w: State, o: nat)
    requires Inv(s) && o < |s.ftab| && s.ftab[o].isfree && w == s.(ftab := s.ftab[o := FREE_FRAME])
    requires Tables(w) && forall k :: Entry(w, k) == Entry(s, k)
    ensures Inv(w)
  {
    hide Tables, Entry, Holds;
    forall j | j in w.vmem ensures Holds(w, j) {
      assert Holds(s, j);
      SameEntryHolds(s, w, j);
    }
  }

  function FrameMem(s: State, e: Pte): int { e.base - FfsStart(s) }
  function SlotMem(s: State, k: Key): int
    requires k in s.slot
  {
    |s.ftab| + s.slot[k]
  }

  /** Where the truth is: in the frame of a present page, else in its swap slot;
      a clean resident page that has a slot is the same in both. */
  ghost predicate Holds(s: State, k: Key)
    requires Tables(s) && k in s.vmem
  {
    var e := Entry(s, k);
    if e.pres then
      && 0 <= FrameMem(s, e) < |s.mem| && s.mem[FrameMem(s, e)] == s.vmem[k]
      && (!e.dirty && k in s.slot ==> 0 <= SlotMem(s, k) < |s.mem| && s.mem[SlotMem(s, k)] == s.vmem[k])
    else
      k in s.slot && 0 <= SlotMem(s, k) < |s.mem| && s.mem[SlotMem(s, k)] == s.vmem[k]
  }

  ghost predicate Contents(s: State)
    requires Tables(s)
  {
    && |s.mem| == |s.ftab| + |s.stab|
    && (forall k :: k in s.vmem ==> User(s, k) && Holds(s, k))
    && (forall k :: User(s, k) && Entry(s, k).pres ==> k in s.vmem)
    && (forall k :: k in s.slot ==> k in s.vmem)
  }

  /** Touched pages have a page table. */
  ghost predicate Rooted(s: State) {
    forall k :: k in s.vmem ==> Mapped(s, k)
  }

  ghost predicate Inv(s: State) {
    Tables(s) && Frames(s) && Slots(s) && Aged(s) && Contents(s) && Rooted(s)
  }

  /** No page has two frames or two swap slots, and a resident page is present. */
  lemma OnePlace(s: State, o: nat, p: nat)
    requires Inv(s)
    ensures o < |s.ftab| && p < |s.ftab| && !s.ftab[o].isfree && !s.ftab[p].isfree && KeyOf(s.ftab[o]) == KeyOf(s.ftab[p]) ==> o == p
    ensures o < |s.stab| && p < |s.stab| && !s.stab[o].isfree && !s.stab[p].isfree && KeyOf(s.stab[o]) == KeyOf(s.stab[p]) ==> o == p
    ensures o < |s.ftab| && !s.ftab[o].isfree ==>
              Entry(s, KeyOf(s.ftab[o])).pres && Entry(s, KeyOf(s.ftab[o])).base == FfsStart(s) + o
  {
    hide Tables, Entry, Aged, Contents, Rooted;
  }

  // ---- eviction ------------------------------------------------------------------

  /** Frame o loses its page, which goes (if `copy`) to swap frame i. */
  function Evicted(s: State, o: nat, i: nat, copy: bool): State
    requires o < |s.ftab| && i < |s.stab| && |s.mem| == |s.ftab| + |s.stab|
    requires EntryExists(s, KeyOf(s.ftab[o]))
  {
    var k := KeyOf(s.ftab[o]);
    var e := s.tables[s.pdir[k.pid][Hi(k.vpn)]][Lo(k.vpn)];
    WithEntry(s, k, e.(pres := false, base := SwapStart(s) + i)).(
      ftab := s.ftab[o := FREE_FRAME],
      stab := s.stab[i := s.stab[i].(isfree := false, pid := k.pid, vpn := k.vpn)],
      slot := s.slot[k := i],
      mem := if copy then s.mem[|s.ftab| + i := s.mem[o]] else s.mem)
  }

  /** The outline of an eviction, without the page tables behind it. */
  ghost predicate Evicts(s: State, w: State, o: nat, i: nat, copy: bool)
    requires Tables(s) && Tables(w) && o < |s.ftab|
  {
    var k := KeyOf(s.ftab[o]);
    && w.ptab == s.ptab && w.pdir == s.pdir && w.latency == s.latency && w.vmem == s.vmem
    && w.ftab == s.ftab[o := FREE_FRAME]
    && i < |s.stab| && |w.stab| == |s.stab| && w.stab == s.stab[i := w.stab[i]]
    && !w.stab[i].isfree && KeyOf(w.stab[i]) == k
    && w.slot == s.slot[k := i]
    && |s.mem| == |s.ftab| + |s.stab| && w.mem == (if copy then s.mem[|s.ftab| + i := s.mem[o]] else s.mem)
    && Entry(w, k) == Entry(s, k).(pres := false, base := SwapStart(s) + i)
    && (forall j :: j != k ==> Entry(w, j) == Entry(s, j))
  }

  /** The swap frame chosen: the page's own slot, or a free one with a copy. */
  ghost predicate SlotChoice(s: State, k: Key, i: nat, copy: bool)
    requires Tables(s) && i < |s.stab|
  {
    if k in s.slot then i == s.slot[k] && (copy || !Entry(s, k).dirty) else s.stab[i].isfree && copy
  }

  lemma EvictSlots(s: State, w: State, o: nat, i: nat, copy: bool)
    requires Tables(s) && Slots(s) && Tables(w) && o < |s.ftab| && Evicts(s, w, o, i, copy)
    requires SlotChoice(s, KeyOf(s.ftab[o]), i, copy)
    requires User(s, KeyOf(s.ftab[o])) && KeyOf(s.ftab[o]).pid in s.pdir
    ensures Slots(w)
  {
    hide Tables, Entry;
    var k := KeyOf(s.ftab[o]);
    forall p | 0 <= p < |w.stab| && p != i && !w.stab[p].isfree
      ensures KeyOf(w.stab[p]) in w.slot && w.slot[KeyOf(w.stab[p])] == p
    {
      assert KeyOf(s.stab[p]) in s.slot && s.slot[KeyOf(s.stab[p])] == p;
    }
    forall j | j in w.slot && j != k ensures w.slot[j] != i && KeyOf(w.stab[w.slot[j]]) == j {
      assert j in s.slot && KeyOf(s.stab[s.slot[j]]) == j;
    }
  }

  lemma EvictAged(s: State, w: State, o: nat)
    requires Aged(s) && o < |s.ftab| && w.ftab == s.ftab[o := FREE_FRAME] && w.latency == s.latency
    ensures Aged(w)
  {
  }

  lemma EvictFrames(s: State, w: State, o: nat, i: nat, copy: bool)
    requires Inv(s) && Tables(w) && o < |s.ftab| && !s.ftab[o].isfree && Evicts(s, w, o, i, copy)
    ensures Frames(w)
  {
    hide Tables, Entry, Contents, Slots, Aged;
    forall p | 0 <= p < |w.ftab| && !w.ftab[p].isfree ensures KeyOf(w.ftab[p]) != KeyOf(s.ftab[o]) {
      assert Entry(s, KeyOf(s.ftab[p])).base == FfsStart(s) + p;
    }
  }

  lemma EvictContents(s: State, w: State, o: nat, i: nat, copy: bool)
    requires Inv(s) && Tables(w) && o < |s.ftab| && !s.ftab[o].isfree && Evicts(s, w, o, i, copy)
    requires SlotChoice(s, KeyOf(s.ftab[o]), i, copy)
    ensures Contents(w)
  {
    hide Tables, Entry, Aged, Holds, Slots;
    var k := KeyOf(s.ftab[o]);
    forall j | j in w.vmem ensures Holds(w, j) {
      assert Holds(s, j);
      SlotsApart(s, j, k);
      EvictHolds(s, w, o, i, copy, j);
    }
  }

  lemma SlotsApart(s: State, j: Key, k: Key)
    requires Slots(s)
    ensures j in s.slot && j != k ==> s.slot[j] < |s.stab| && !s.stab[s.slot[j]].isfree && (k in s.slot ==> s.slot[j] != s.slot[k])
  {
  }

  lemma EvictHolds(s: State, w: State, o: nat, i: nat, copy: bool, j: Key)
    requires Tables(s) && Frames(s) && Tables(w) && o < |s.ftab| && !s.ftab[o].isfree && Evicts(s, w, o, i, copy)
    requires SlotChoice(s, KeyOf(s.ftab[o]), i, copy)
    requires j in s.vmem && User(s, j) && Holds(s, j)
    requires var k := KeyOf(s.ftab[o]);
             j in s.slot && j != k ==> s.slot[j] < |s.stab| && !s.stab[s.slot[j]].isfree && (k in s.slot ==> s.slot[j] != s.slot[k])
    ensures Holds(w, j)
  {
    hide Tables, Entry;
    assert j != KeyOf(s.ftab[o]) ==> Entry(w, j) == Entry(s, j);
  }

  /** Eviction is invisible to every process. */
  lemma EvictStep(s: State, o: nat, i: nat, copy: bool)
    requires Inv(s) && o < |s.ftab| && !s.ftab[o].isfree && i < |s.stab|
    requires SlotChoice(s, KeyOf(s.ftab[o]), i, copy)
    ensures EntryExists(s, KeyOf(s.ftab[o])) && Inv(Evicted(s, o, i, copy)) && Tables(Evicted(s, o, i, copy))
    ensures Evicts(s, Evicted(s, o, i, copy), o, i, copy)
  {
    hide Slots, Aged, Holds, Evicts;
    var w := Evicted(s, o, i, copy);
    EvictOutline(s, o, i, copy);
    EvictSlots(s, w, o, i, copy);
    EvictAged(s, w, o);
    EvictFrames(s, w, o, i, copy);
    EvictContents(s, w, o, i, copy);
  }

  lemma EvictOutline(s: State, o: nat, i: nat, copy: bool)
    requires Inv(s) && o < |s.ftab| && !s.ftab[o].isfree && i < |s.stab|
    ensures EntryExists(s, KeyOf(s.ftab[o])) && Tables(Evicted(s, o, i, copy))
    ensures Evicts(s, Evicted(s, o, i, copy), o, i, copy)
  {
    hide Slots, Aged, Holds;
    var k, w := KeyOf(s.ftab[o]), Evicted(s, o, i, copy);
    assert Mapped(s, k);
    var e := Entry(s, k).(pres := false, base := SwapStart(s) + i);
    EntryUpdate(s, k, e);
    forall j ensures Entry(w, j) == Entry(WithEntry(s, k, e), j) {
    }
  }

  // ---- installing a page -----------------------------------------------------------

  /** Page k gets the free frame o: its swap copy if it has one, otherwise
      whatever the frame happens to hold. */
  function Installed(s: State, k: Key, o: nat): State
    requires EntryExists(s, k) && o < |s.ftab| <= |s.mem|
    requires k in s.slot ==> |s.ftab| + s.slot[k] < |s.mem|
  {
    var page := if k in s.slot then s.mem[|s.ftab| + s.slot[k]] else s.mem[o];
    WithEntry(s, k, Pte(true, false, FfsStart(s) + o)).(
      ftab := s.ftab[o := Frame(false, k.pid, k.vpn, s.latency)],
      mem := s.mem[o := page],
      vmem := if k in s.vmem then s.vmem else s.vmem[k := page])
  }

  ghost predicate Installs(s: State, w: State, k: Key, o: nat)
    requires Tables(s) && Tables(w)
  {
    && o < |s.ftab| && |s.mem| == |s.ftab| + |s.stab| && w.ptab == s.ptab && w.pdir == s.pdir
    && w.stab == s.stab && w.slot == s.slot && w.latency == s.latency
    && w.ftab == s.ftab[o := Frame(false, k.pid, k.vpn, s.latency)]
    && (k in s.slot ==> |s.ftab| + s.slot[k] < |s.mem|)
    && w.mem == s.mem[o := if k in s.slot then s.mem[|s.ftab| + s.slot[k]] else s.mem[o]]
    && w.vmem == (if k in s.vmem then s.vmem else s.vmem[k := w.mem[o]])
    && Entry(w, k) == Pte(true, false, FfsStart(s) + o)
    && (forall j :: j != k ==> Entry(w, j) == Entry(s, j))
  }

  lemma InstallFrames(s: State, w: State, k: Key, o: nat)
    requires Tables(s) && Frames(s) && Tables(w) && Installs(s, w, k, o) && User(s, k) && s.ftab[o].isfree && !Entry(s, k).pres
    ensures Frames(w)
  {
    hide Tables, Entry;
    forall p | 0 <= p < |w.ftab| && p != o && !w.ftab[p].isfree ensures KeyOf(w.ftab[p]) != k {
      assert Entry(s, KeyOf(s.ftab[p])).pres;
    }
    forall j | User(w, j) && j != k && Entry(w, j).pres ensures Entry(w, j).base != FfsStart(s) + o {
      assert Entry(s, j).pres;
    }
  }

  lemma InstallAged(s: State, w: State, k: Key, o: nat)
    requires Aged(s) && Fresh(s) && o < |s.ftab| && w.ftab == s.ftab[o := Frame(false, k.pid, k.vpn, s.latency)]
    requires w.latency == s.latency
    ensures Aged(w)
  {
  }

  lemma InstallContents(s: State, w: State, k: Key, o: nat)
    requires Inv(s) && Tables(w) && Installs(s, w, k, o) && User(s, k) && s.ftab[o].isfree && !Entry(s, k).pres
    ensures Contents(w)
  {
    hide Tables, Entry, Aged, Slots, Holds;
    assert k in s.vmem ==> Holds(s, k);
    InstalledHolds(s, w, k, o);
    forall j | j in s.vmem && j != k ensures Holds(w, j) {
      assert Holds(s, j);
      OtherHolds(s, w, k, o, j);
    }
  }

  lemma InstalledHolds(s: State, w: State, k: Key, o: nat)
    requires Tables(s) && Tables(w) && Installs(s, w, k, o) && !Entry(s, k).pres
    requires k in s.vmem ==> Holds(s, k)
    requires k in s.slot ==> k in s.vmem
    ensures k in w.vmem && Holds(w, k)
  {
    hide Tables, Entry;
  }

  lemma OtherHolds(s: State, w: State, k: Key, o: nat, j: Key)
    requires Tables(s) && Frames(s) && Tables(w) && Installs(s, w, k, o) && s.ftab[o].isfree
    requires j in s.vmem && j != k && User(s, j) && Holds(s, j)
    ensures Holds(w, j)
  {
    hide Tables, Entry;
    assert Entry(w, j) == Entry(s, j);
  }

  lemma InstallStep(s: State, k: Key, o: nat)
    requires Inv(s) && Fresh(s) && User(s, k) && Mapped(s, k) && o < |s.ftab| && s.ftab[o].isfree && !Entry(s, k).pres
    ensures EntryExists(s, k) && |s.mem| == |s.ftab| + |s.stab| && (k in s.slot ==> s.slot[k] < |s.stab|)
    ensures Tables(s) && Inv(Installed(s, k, o)) && Tables(Installed(s, k, o)) && Installs(s, Installed(s, k, o), k, o)
    ensures k in s.vmem <==> k in s.slot
  {
    hide Frames, Slots, Aged, Contents, Installs, Entry, Mapped, Installed;
    InstallOutline(s, k, o);
    var w := Installed(s, k, o);
    InstallFrames(s, w, k, o);
    InstallClock(s, w, k, o);
    InstallAged(s, w, k, o);
    InstallContents(s, w, k, o);
    PlaceOf(s, k);
  }

  lemma InstallClock(s: State, w: State, k: Key, o: nat)
    requires Tables(s) && Tables(w) && Installs(s, w, k, o) && Slots(s) && Rooted(s) && Mapped(s, k)
    ensures o < |s.ftab| && w.ftab == s.ftab[o := Frame(false, k.pid, k.vpn, s.latency)] && w.latency == s.latency
    ensures Slots(w) && Rooted(w)
  {
    hide Tables, Entry;
  }

  /** A touched page is somewhere, and only touched pages have a slot. */
  lemma PlaceOf(s: State, k: Key)
    requires Inv(s)
    ensures k in s.vmem ==> Entry(s, k).pres || k in s.slot
    ensures k in s.slot ==> k in s.vmem
    ensures User(s, k) && Entry(s, k).pres ==> k in s.vmem && Holds(s, k)
  {
    hide Entry, Tables, Frames, Slots, Aged;
    if k in s.vmem {
      assert Holds(s, k);
    }
  }

  lemma InstallOutline(s: State, k: Key, o: nat)
    requires Inv(s) && Mapped(s, k) && o < |s.ftab|
    ensures EntryExists(s, k) && |s.mem| == |s.ftab| + |s.stab| && (k in s.slot ==> s.slot[k] < |s.stab|)
    ensures Tables(Installed(s, k, o)) && Installs(s, Installed(s, k, o), k, o)
  {
    hide Aged, Holds, Frames;
    var w, e := Installed(s, k, o), Pte(true, false, FfsStart(s) + o);
    EntryUpdate(s, k, e);
    forall j ensures Entry(w, j) == Entry(WithEntry(s, k, e), j) {
    }
  }

  // ---- writing -----------------------------------------------------------------------

  /** The processor stores a page's new contents and marks the entry dirty. */
  function Stored(s: State, k: Key, page: Page): State
    requires EntryExists(s, k)
    requires var e := s.tables[s.pdir[k.pid][Hi(k.vpn)]][Lo(k.vpn)]; FfsStart(s) <= e.base < FfsStart(s) + |s.mem|
  {
    var e := s.tables[s.pdir[k.pid][Hi(k.vpn)]][Lo(k.vpn)];
    WithEntry(s, k, e.(dirty := true)).(mem := s.mem[e.base - FfsStart(s) := page], vmem := s.vmem[k := page])
  }

  ghost predicate Stores(s: State, w: State, k: Key, page: Page)
    requires Tables(s) && Tables(w)
  {
    && w.ptab == s.ptab && w.pdir == s.pdir && w.ftab == s.ftab && w.stab == s.stab && w.slot == s.slot && w.latency == s.latency
    && 0 <= FrameMem(s, Entry(s, k)) < |s.mem| && w.mem == s.mem[FrameMem(s, Entry(s, k)) := page]
    && w.vmem == s.vmem[k := page]
    && Entry(w, k) == Entry(s, k).(dirty := true)
    && (forall j :: j != k ==> Entry(w, j) == Entry(s, j))
  }

  lemma StoreHolds(s: State, w: State, k: Key, page: Page, j: Key)
    requires Tables(s) && Frames(s) && Tables(w) && Stores(s, w, k, page) && User(s, k) && Entry(s, k).pres
    requires j == k || (j in s.vmem && User(s, j) && Holds(s, j) && |s.mem| == |s.ftab| + |s.stab|)
    ensures j in w.vmem && Holds(w, j)
  {
    hide Tables, Entry;
    if j != k {
      assert Entry(w, j) == Entry(s, j);
    }
  }

  lemma StoreStep(s: State, k: Key, page: Page)
    requires Inv(s) && User(s, k) && Mapped(s, k) && Entry(s, k).pres
    ensures EntryExists(s, k) && FfsStart(s) <= Entry(s, k).base < FfsStart(s) + |s.ftab| <= FfsStart(s) + |s.mem|
    ensures k in s.vmem && s.mem[Entry(s, k).base - FfsStart(s)] == s.vmem[k]
    ensures Inv(Stored(s, k, page)) && Stored(s, k, page).vmem == s.vmem[k := page]
    ensures Entry(Stored(s, k, page), k) == Entry(s, k).(dirty := true)
  {
    hide Aged, Slots, Contents, Frames, Stored;
    PresentFacts(s, k);
    StoreOutline(s, k, page);
    StoreRest(s, Stored(s, k, page), k, page);
  }

  lemma PresentFacts(s: State, k: Key)
    requires Inv(s) && User(s, k) && Entry(s, k).pres
    ensures FfsStart(s) <= Entry(s, k).base < FfsStart(s) + |s.ftab| <= FfsStart(s) + |s.mem|
    ensures k in s.vmem && s.mem[Entry(s, k).base - FfsStart(s)] == s.vmem[k]
  {
    hide Tables, Entry, Slots, Aged;
    assert Holds(s, k);
  }

  lemma StoreRest(s: State, w: State, k: Key, page: Page)
    requires Inv(s) && Tables(w) && Stores(s, w, k, page) && User(s, k) && Entry(s, k).pres
    ensures Inv(w)
  {
    hide Tables, Entry, Holds, Frames, Contents, Slots, Aged, Rooted;
    StoreContents(s, w, k, page);
    StoreFrames(s, w, k, page);
    StoreTables(s, w, k, page);
  }

  /** Frames are still the ones the entries name. */
  lemma StoreFrames(s: State, w: State, k: Key, page: Page)
    requires Tables(s) && Tables(w) && Frames(s) && Stores(s, w, k, page)
    ensures Frames(w)
  {
    hide Tables, Entry;
    assert forall j :: Entry(w, j).pres == Entry(s, j).pres && Entry(w, j).base == Entry(s, j).base;
  }

  lemma StoreTables(s: State, w: State, k: Key, page: Page)
    requires Inv(s) && Tables(w) && Stores(s, w, k, page) && User(s, k) && Entry(s, k).pres
    ensures Slots(w) && Aged(w) && Rooted(w)
  {
    hide Tables, Entry, Holds, Frames;
    assert k in s.vmem;
  }

  lemma StoreContents(s: State, w: State, k: Key, page: Page)
    requires Inv(s) && Tables(w) && Stores(s, w, k, page) && User(s, k) && Entry(s, k).pres
    ensures Contents(w)
  {
    hide Tables, Entry, Holds, Frames, Slots, Aged, Rooted;
    forall j | j in w.vmem ensures Holds(w, j) {
      if j != k {
        assert Holds(s, j);
      }
      StoreHolds(s, w, k, page, j);
    }
  }

  lemma StoreOutline(s: State, k: Key, page: Page)
    requires Inv(s) && User(s, k) && Mapped(s, k) && Entry(s, k).pres
    ensures EntryExists(s, k) && FfsStart(s) <= Entry(s, k).base < FfsStart(s) + |s.mem|
    ensures Tables(Stored(s, k, page)) && Stores(s, Stored(s, k, page), k, page)
  {
    hide Aged, Slots, Holds;
    var w, e := Stored(s, k, page), Entry(s, k).(dirty := true);
    EntryUpdate(s, k, e);
    forall j ensures Entry(w, j) == Entry(WithEntry(s, k, e), j) {
    }
  }

  // ---- processes -----------------------------------------------------------------------

  /** Frames of a dead process are free again. */
  ghost predicate Released(before: seq<Frame>, after: seq<Frame>, pid: int) {
    && |after| == |before|
    && forall i :: 0 <= i < |before| ==>
         if before[i].pid == pid then after[i].isfree && after[i].pid == 0 else after[i] == before[i]
  }

  ghost predicate Killed(s: State, w: State, pid: int) {
    && Released(s.ptab, w.ptab, pid) && Released(s.ftab, w.ftab, pid) && Released(s.stab, w.stab, pid)
    && w.pdir == s.pdir - {pid} && w.tables == s.tables && w.mem == s.mem && w.latency == s.latency
    && w.vmem == (map k | k in s.vmem && k.pid != pid :: s.vmem[k])
    && w.slot == (map k | k in s.slot && k.pid != pid :: s.slot[k])
  }

  lemma KillTables(s: State, w: State, pid: int)
    requires Tables(s) && Killed(s, w, pid) && pid > 0
    ensures Tables(w) && forall j :: Entry(w, j) == if j.pid == pid then ABSENT else Entry(s, j)
  {
  }

  lemma KillFrames(s: State, w: State, pid: int)
    requires Tables(s) && Frames(s) && Slots(s) && Aged(s) && Killed(s, w, pid) && pid > 0 && Tables(w)
    requires forall j :: Entry(w, j) == if j.pid == pid then ABSENT else Entry(s, j)
    ensures Frames(w)
  {
    hide Tables, Entry, Slots, Aged;
    forall k | User(w, k) && Entry(w, k).pres
      ensures FfsStart(w) <= Entry(w, k).base < SwapStart(w)
              && !w.ftab[Entry(w, k).base - FfsStart(w)].isfree && KeyOf(w.ftab[Entry(w, k).base - FfsStart(w)]) == k
    {
      assert Entry(s, k).pres && Entry(w, k) == Entry(s, k) && k.pid != pid;
    }
  }

  lemma KillSlots(s: State, w: State, pid: int)
    requires Slots(s) && Aged(s) && Rooted(s) && Killed(s, w, pid) && pid > 0
    ensures Slots(w) && Aged(w) && Rooted(w)
  {
  }

  lemma KillContents(s: State, w: State, pid: int)
    requires Inv(s) && Killed(s, w, pid) && pid > 0 && Tables(w)
    requires forall j :: Entry(w, j) == if j.pid == pid then ABSENT else Entry(s, j)
    ensures Contents(w)
  {
    hide Tables, Entry, Frames, Slots, Aged, Holds;
    forall j | j in w.vmem ensures Holds(w, j) {
      KilledHolds(s, w, pid, j);
    }
  }

  lemma KilledHolds(s: State, w: State, pid: int, j: Key)
    requires Tables(s) && Tables(w) && Killed(s, w, pid) && Entry(w, j) == Entry(s, j)
    requires j in s.vmem && j.pid != pid && Holds(s, j)
    ensures j in w.vmem && Holds(w, j)
  {
    hide Tables, Entry;
  }

  /** Killing a process leaves every other process's memory as it was. */
  lemma KillStep(s: State, w: State, pid: int)
    requires Inv(s) && Killed(s, w, pid) && pid > 0
    ensures Inv(w)
  {
    hide Frames, Slots, Aged, Contents, Entry, Killed;
    KillTables(s, w, pid);
    KillFrames(s, w, pid);
    KillSlots(s, w, pid);
    KillContents(s, w, pid);
  }

  /** Frame t becomes a page table of the process, for directory index h. */
  function TableAdded(s: State, pid: int, h: nat, t: nat, table: seq<Pte>): State
    requires t < |s.ptab| && t < |s.tables| && pid in s.pdir
  {
    s.(ptab := s.ptab[t := s.ptab[t].(isfree := false, pid := pid)],
       tables := s.tables[t := table],
       pdir := s.pdir[pid := s.pdir[pid][h := t]])
  }

  lemma TableOutline(s: State, pid: int, h: nat, t: nat, table: seq<Pte>)
    requires Tables(s) && pid in s.pdir && h !in s.pdir[pid] && t < |s.ptab| && s.ptab[t].isfree && |table| == 1024
    requires h >= 4 ==> forall i :: 0 <= i < 1024 ==> table[i] == ABSENT
    ensures Tables(TableAdded(s, pid, h, t, table))
    ensures forall k :: User(s, k) ==> Entry(TableAdded(s, pid, h, t, table), k) == Entry(s, k)
  {
    var w := TableAdded(s, pid, h, t, table);
    TableAddedTables(s, pid, h, t, table);
    forall k | User(s, k) ensures Entry(w, k) == Entry(s, k) {
      TableAddedEntry(s, pid, h, t, table, k);
    }
  }

  lemma TableAddedTables(s: State, pid: int, h: nat, t: nat, table: seq<Pte>)
    requires Tables(s) && pid in s.pdir && h !in s.pdir[pid] && t < |s.ptab| && s.ptab[t].isfree && |table| == 1024
    ensures Tables(TableAdded(s, pid, h, t, table))
  {
    var w := TableAdded(s, pid, h, t, table);
    forall p, g | p in s.pdir && g in s.pdir[p] ensures s.pdir[p][g] != t && p in w.pdir && g in w.pdir[p] && w.pdir[p][g] == s.pdir[p][g] {
    }
  }

  lemma TableAddedEntry(s: State, pid: int, h: nat, t: nat, table: seq<Pte>, k: Key)
    requires Tables(s) && pid in s.pdir && h !in s.pdir[pid] && t < |s.ptab| && s.ptab[t].isfree && |table| == 1024
    requires h >= 4 ==> forall i :: 0 <= i < 1024 ==> table[i] == ABSENT
    requires Tables(TableAdded(s, pid, h, t, table)) && User(s, k)
    ensures Entry(TableAdded(s, pid, h, t, table), k) == Entry(s, k)
  {
    if !(k.pid == pid && Hi(k.vpn) == h) && Mapped(s, k) {
      assert s.pdir[k.pid][Hi(k.vpn)] != t;
    }
  }

  /** Only the entries of user pages matter to the rest of the invariant. */
  lemma SameUserEntries(s: State, w: State)
    requires Inv(s) && Tables(w) && |w.ptab| == |s.ptab|
    requires w == s.(ptab := w.ptab, tables := w.tables, pdir := w.pdir)
    requires forall p, h :: p in s.pdir && h in s.pdir[p] ==> p in w.pdir && h in w.pdir[p]
    requires forall p :: p in s.pdir ==> p in w.pdir
    requires forall k :: User(s, k) ==> Entry(w, k) == Entry(s, k)
    ensures Inv(w)
  {
    hide Tables, Entry, Aged, Holds;
    assert Slots(w);
    assert Frames(w);
    assert Aged(w) by {
      SameAge(s, w);
    }
    forall j | j in w.vmem ensures Holds(w, j) {
      assert Holds(s, j);
      SameHolds(s, w, j);
    }
  }

  lemma SameAge(s: State, w: State)
    requires Aged(s) && w.ftab == s.ftab && w.latency == s.latency
    ensures Aged(w)
  {
  }

  lemma SameHolds(s: State, w: State, j: Key)
    requires Tables(s) && Tables(w) && |w.ptab| == |s.ptab| && w == s.(ptab := w.ptab, tables := w.tables, pdir := w.pdir)
    requires Entry(w, j) == Entry(s, j) && j in s.vmem && Holds(s, j)
    ensures Holds(w, j)
  {
    hide Tables, Entry;
  }

  lemma TableStep(s: State, pid: int, h: nat, t: nat, table: seq<Pte>)
    requires Inv(s) && pid in s.pdir && h !in s.pdir[pid] && t < |s.ptab| && s.ptab[t].isfree && |table| == 1024
    requires h >= 4 ==> forall i :: 0 <= i < 1024 ==> table[i] == ABSENT
    ensures |s.tables| == |s.ptab| && Inv(TableAdded(s, pid, h, t, table))
    ensures forall k :: User(s, k) ==> Entry(TableAdded(s, pid, h, t, table), k) == Entry(s, k)
  {
    hide Frames, Slots, Aged, Contents, Entry;
    TableOutline(s, pid, h, t, table);
    SameUserEntries(s, TableAdded(s, pid, h, t, table));
  }

  /** Frame t becomes the page directory of a new process. */
  function DirectoryAdded(s: State, pid: int, t: nat): State
    requires t < |s.ptab|
  {
    s.(ptab := s.ptab[t := s.ptab[t].(isfree := false, pid := pid)], pdir := s.pdir[pid := map[]])
  }

  lemma DirectoryStep(s: State, pid: int, t: nat)
    requires Inv(s) && pid > 0 && pid !in s.pdir && t < |s.ptab| && s.ptab[t].isfree
    ensures Inv(DirectoryAdded(s, pid, t))
  {
    hide Frames, Slots, Aged, Contents;
    var w := DirectoryAdded(s, pid, t);
    assert Tables(w);
    SameUserEntries(s, w);
  }

  // ---- eviction soundness --------------------------------------------------------------------

  /** The one frame loaded longest ago. */
  ghost predicate Oldest(ftab: seq<Frame>, o: nat) {
    && o < |ftab|
    && forall p :: 0 <= p < |ftab| && p != o ==> ftab[o].latency < ftab[p].latency
  }

  lemma OldestUnique(ftab: seq<Frame>, o: nat, p: nat)
    requires Oldest(ftab, o) && Oldest(ftab, p)
    ensures o == p
  {
    var a, b := ftab[o].latency, ftab[p].latency;
    assert o == p || (a < b && b < a);
  }

  /** If swap is full and a resident page has no slot, then more pages have been
      touched than swap can hold. */
  lemma SwapFull(s: State, k: Key)
    requires Inv(s) && k in s.vmem && k !in s.slot
    requires forall i :: 0 <= i < |s.stab| ==> !s.stab[i].isfree
    ensures |s.vmem| > |s.stab|
  {
    hide Tables, Entry, Frames, Aged, Holds;
    SlotCount(s, |s.stab|);
    UsedTouched(s, |s.stab|);
    assert SlotKeys(s, |s.stab|) <= s.vmem.Keys - {k};
    SubsetSize(SlotKeys(s, |s.stab|), s.vmem.Keys - {k});
    assert |s.vmem.Keys - {k}| == |s.vmem| - 1;
  }

  function SlotKeys(s: State, n: nat): set<Key>
    requires n <= |s.stab|
  {
    if n == 0 then {} else SlotKeys(s, n - 1) + {KeyOf(s.stab[n - 1])}
  }

  lemma {:induction false} UsedTouched(s: State, n: nat)
    requires Inv(s) && n <= |s.stab| && forall i :: 0 <= i < |s.stab| ==> !s.stab[i].isfree
    ensures forall k :: k in SlotKeys(s, n) ==> k in s.slot && k in s.vmem && s.slot[k] < n
  {
    hide Tables, Entry, Frames, Aged, Holds;
    if n > 0 {
      UsedTouched(s, n - 1);
    }
  }

  lemma {:induction false} SlotCount(s: State, n: nat)
    requires Inv(s) && n <= |s.stab| && forall i :: 0 <= i < |s.stab| ==> !s.stab[i].isfree
    ensures |SlotKeys(s, n)| == n
  {
    hide Tables, Entry, Frames, Aged, Contents;
    if n > 0 {
      SlotCount(s, n - 1);
      UsedTouched(s, n - 1);
      assert KeyOf(s.stab[n - 1]) !in SlotKeys(s, n - 1);
    }
  }

  lemma {:induction false} SubsetSize(a: set<Key>, b: set<Key>)
    requires a <= b
    ensures |a| <= |b|
  {
    if x :| x in a {
      SubsetSize(a - {x}, b - {x});
    }
  }
}
