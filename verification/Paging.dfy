/** The page-fault path as the kernel runs it: frame allocation, eviction of the
    oldest frame, swap-out, swap-in, and release of a dead process's frames. */
module Paging {
  import opened PagingModel

  datatype Status = Done | Dead | Exhausted

  const WORD: nat := 0x1_0000_0000

  class Pager {
    var ptab: seq<Frame>
    var ftab: seq<Frame>
    var stab: seq<Frame>
    var pdir: map<int, map<int, int>>
    var tables: seq<seq<Pte>>
    var mem: seq<Page>
    var latency: nat
    var availableHeap: nat
    var availableSwap: nat
    ghost var vmem: map<Key, Page>
    ghost var slot: map<Key, nat>

    ghost function Snap(): State
      reads this
    {
      State(ptab, ftab, stab, pdir, tables, mem, latency, vmem, slot)
    }

    ghost predicate Valid()
      reads this
    {
      Inv(Snap())
    }

    /** Physical memory has run out: no page-table frame is free, or more pages
        are in use than swap has frames. */
    ghost predicate Full()
      reads this
    {
      (forall i :: 0 <= i < |ptab| ==> !ptab[i].isfree) || |vmem| > |stab|
    }

    ghost function Now(): Machine
      reads this
    {
      Machine(Snap(), availableHeap, availableSwap)
    }

    /** All frames free, no user process yet. */
    constructor (nptab: nat, nffs: nat, nswap: nat, mem: seq<Page>)
      requires nffs > 0 && |mem| == nffs + nswap
      ensures Valid() && pdir == map[] && |ptab| == nptab && |ftab| == nffs && |stab| == nswap && vmem == map[]
    {
      ptab, ftab, stab := seq(nptab, _ => FREE_FRAME), seq(nffs, _ => FREE_FRAME), seq(nswap, _ => FREE_FRAME);
      pdir, tables := map[], seq(nptab, _ => seq(1024, _ => ABSENT));
      this.mem, latency := mem, 0;
      availableHeap, availableSwap := nffs, nswap;
      vmem, slot := map[], map[];
    }

    /** Take the first free page-table frame. */
    method GetPtFrame(pid: int) returns (found: bool, t: nat)
      modifies this`ptab
      ensures !found ==> forall i :: 0 <= i < |ptab| ==> !ptab[i].isfree
      ensures found ==> t < |old(ptab)| && old(ptab)[t].isfree && forall i :: 0 <= i < t ==> !old(ptab)[i].isfree
      ensures ptab == if found then old(ptab)[t := old(ptab)[t].(isfree := false, pid := pid)] else old(ptab)
    {
      t := 0;
      while t < |ptab| && !ptab[t].isfree
        invariant t <= |ptab| && forall i :: 0 <= i < t ==> !ptab[i].isfree
      {
        t := t + 1;
      }
      found := t < |ptab|;
      if found {
        ptab := ptab[t := ptab[t].(isfree := false, pid := pid)];
      }
    }

    /** Take the first free swap frame for a page. */
    method GetSwapFrame(pid: int, vpn: nat) returns (found: bool, i: nat)
      modifies this`stab
      ensures !found ==> forall j :: 0 <= j < |stab| ==> !stab[j].isfree
      ensures found ==> i < |old(stab)| && old(stab)[i].isfree && forall j :: 0 <= j < i ==> !old(stab)[j].isfree
      ensures stab == if found then old(stab)[i := old(stab)[i].(isfree := false, pid := pid, vpn := vpn)] else old(stab)
    {
      i := 0;
      while i < |stab| && !stab[i].isfree
        invariant i <= |stab| && forall j :: 0 <= j < i ==> !stab[j].isfree
      {
        i := i + 1;
      }
      found := i < |stab|;
      if found {
        stab := stab[i := stab[i].(isfree := false, pid := pid, vpn := vpn)];
      }
    }

    /** Search the swap table for a page: |stab| if it has no slot. */
    method FindSlot(pid: int, vpn: nat) returns (i: nat)
      requires Valid() && User(Snap(), Key(pid, vpn))
      ensures if Key(pid, vpn) in slot then i < |stab| && slot[Key(pid, vpn)] == i else i == |stab|
      ensures i < |stab| ==> !stab[i].isfree && KeyOf(stab[i]) == Key(pid, vpn)
    {
      hide Tables, Frames, Aged, Contents;
      i := 0;
      while i < |stab| && !(stab[i].pid == pid && stab[i].vpn == vpn)
        invariant i <= |stab|
        invariant forall j :: 0 <= j < i ==> !(stab[j].pid == pid && stab[j].vpn == vpn)
      {
        i := i + 1;
      }
      if i < |stab| {
        assert KeyOf(stab[i]) == Key(pid, vpn);
      }
    }

    /** The frame loaded longest ago, found by comparing loading times.  Every
        frame is in use, so one is older than the clock. */
    method FindVictim() returns (o: nat)
      requires Valid() && Fresh(Snap()) && forall p :: 0 <= p < |ftab| ==> !ftab[p].isfree
      ensures o < |ftab| && Oldest(ftab, o)
    {
      hide Tables, Slots, Contents;
      var latest := latency;
      var found := false;
      o := 0;
      var offset := 0;
      while offset < |ftab|
        invariant 0 <= offset <= |ftab|
        invariant found <==> offset > 0
        invariant found ==> o < offset && latest == ftab[o].latency && forall p :: 0 <= p < offset ==> latest <= ftab[p].latency
        invariant !found ==> latest == latency
      {
        if ftab[offset].latency < latest {
          latest, o, found := ftab[offset].latency, offset, true;
        }
        offset := offset + 1;
      }
    }

    /** The swap frame for the page in frame o: its own, or the first free one. */
    method ChooseSlot(o: nat, e: Pte) returns (ok: bool, i: nat, copy: bool)
      requires Valid() && o < |ftab| && !ftab[o].isfree && e == Entry(Snap(), KeyOf(ftab[o]))
      modifies this`stab
      ensures ok <==> KeyOf(ftab[o]) in slot || exists j :: 0 <= j < |old(stab)| && old(stab)[j].isfree
      ensures ok ==> i < |old(stab)| && SlotChoice(old(Snap()), KeyOf(ftab[o]), i, copy)
      ensures ok ==> stab == old(stab)[i := old(stab)[i].(isfree := false, pid := ftab[o].pid, vpn := ftab[o].vpn)]
      ensures !ok ==> |vmem| > |stab| && stab == old(stab)
    {
      hide Inv, Entry;
      VictimFacts(Snap(), o);
      i := FindSlot(ftab[o].pid, ftab[o].vpn);
      ok, copy := true, true;
      if i == |stab| {
        ok, i := GetSwapFrame(ftab[o].pid, ftab[o].vpn);
        if !ok {
          SwapFull(Snap(), KeyOf(ftab[o]));
        }
      } else {
        copy := e.dirty;
      }
    }

    /** Push the page in frame o out to swap; false if swap is full. */
    method Evict(o: nat) returns (ok: bool)
      requires Valid() && o < |ftab| && !ftab[o].isfree
      modifies this`stab, this`tables, this`mem, this`slot
      ensures ok ==> var w := Snap().(ftab := ftab[o := FREE_FRAME]);
                Inv(w) && !Entry(w, KeyOf(ftab[o])).pres && KeyOf(ftab[o]) in slot && slot == old(slot)[KeyOf(ftab[o]) := slot[KeyOf(ftab[o])]]
                && (forall j :: j != KeyOf(ftab[o]) ==> Entry(w, j) == Entry(old(Snap()), j))
      ensures ok <==> KeyOf(ftab[o]) in old(slot) || exists i :: 0 <= i < |old(stab)| && old(stab)[i].isfree
      ensures !ok ==> |vmem| > |stab|
      ensures |stab| == |old(stab)|
    {
      hide Inv, Evicts, Entry, SlotChoice;
      ghost var s := Snap();
      var victim := ftab[o];
      var k := KeyOf(victim);
      VictimFacts(s, o);
      var t := pdir[victim.pid][Hi(victim.vpn)];
      var e := tables[t][Lo(victim.vpn)];
      var i, copy;
      ok, i, copy := ChooseSlot(o, e);
      if !ok {
        return;
      }
      EvictStep(s, o, i, copy);
      if copy {
        mem := mem[|ftab| + i := mem[o]];
      }
      tables := tables[t := tables[t][Lo(victim.vpn) := e.(pres := false, base := PT_START + |ptab| + |ftab| + i)]];
      slot := slot[k := i];
      EvictsFacts(s, Evicted(s, o, i, copy), o, i, copy);
      assert Snap().(ftab := ftab[o := FREE_FRAME]) == Evicted(s, o, i, copy);
    }

    /** Get a frame for page k: a free one, or the oldest after evicting its page.
        The frame is then reserved for k, but k is not mapped yet. */
    method GetFfsFrame(k: Key) returns (ok: bool, o: nat)
      requires Valid() && User(Snap(), k) && !Entry(Snap(), k).pres
      modifies this`ftab, this`stab, this`tables, this`mem, this`slot, this`latency
      ensures ok ==> o < |ftab| && ftab[o] == Frame(false, k.pid, k.vpn, latency)
      ensures ok ==> var w := Snap().(ftab := ftab[o := FREE_FRAME]);
                Inv(w) && Fresh(w) && !Entry(w, k).pres
                && (k in slot <==> k in old(slot)) && (k in slot ==> slot[k] == old(slot)[k])
      ensures |stab| == |old(stab)| && |ftab| == |old(ftab)|
      ensures if exists p :: 0 <= p < |ftab| && old(ftab)[p].isfree
              then ok && o < |ftab| && old(ftab)[o].isfree && forall p :: 0 <= p < o ==> !old(ftab)[p].isfree
              else ok ==> Oldest(old(ftab), o)
      ensures !ok ==> |vmem| > |stab|
    {
      hide Inv, Entry, Fresh, User;
      Tick(Snap());
      latency := latency + 1;
      ghost var s := Snap();
      o := 0;
      while o < |ftab| && !ftab[o].isfree
        invariant o <= |ftab| && forall p :: 0 <= p < o ==> !ftab[p].isfree
      {
        o := o + 1;
      }
      ok := true;
      if o == |ftab| {
        o := FindVictim();
        PresentDiffers(s, k, o);
        ok := Evict(o);
      } else {
        FreeRecord(s, o);
      }
      if ok {
        StillFresh(s, Snap(), o);
        ghost var w := Snap().(ftab := ftab[o := FREE_FRAME]);
        ftab := ftab[o := Frame(false, k.pid, k.vpn, latency)];
        assert Snap().(ftab := ftab[o := FREE_FRAME]) == w;
      }
    }

    /** Search the whole swap table for a page, keeping the last match. */
    method LastSlot(pid: int, vpn: nat) returns (i: nat)
      requires Valid() && User(Snap(), Key(pid, vpn))
      ensures if Key(pid, vpn) in slot then i < |stab| && slot[Key(pid, vpn)] == i else i == |stab|
    {
      hide Tables, Frames, Aged, Contents;
      i := |stab|;
      var j := 0;
      while j < |stab|
        invariant 0 <= j <= |stab|
        invariant i == |stab| || i < j
        invariant i < |stab| ==> stab[i].pid == pid && stab[i].vpn == vpn
        invariant i == |stab| ==> forall p :: 0 <= p < j ==> !(stab[p].pid == pid && stab[p].vpn == vpn)
      {
        if stab[j].pid == pid && stab[j].vpn == vpn {
          i := j;
        }
        j := j + 1;
      }
      if i < |stab| {
        assert KeyOf(stab[i]) == Key(pid, vpn);
      }
    }

    /** Give page k a frame, with its swap copy (slot i) if it has one, and map it. */
    method Load(k: Key, i: nat) returns (ok: bool)
      requires Valid() && User(Snap(), k) && Mapped(Snap(), k) && !Entry(Snap(), k).pres
      requires if k in slot then i == slot[k] && i < |stab| else i == |stab|
      modifies this`ftab, this`stab, this`tables, this`mem, this`slot, this`latency, this`vmem
      ensures ok ==> Valid() && Entry(Snap(), k).pres && k in vmem
      ensures ok ==> vmem == if k in old(vmem) then old(vmem) else old(vmem)[k := vmem[k]]
      ensures !ok ==> vmem == old(vmem) && Full()
      ensures |stab| == |old(stab)|
    {
      hide Inv, Entry, Fresh, Oldest;
      var o;
      ok, o := GetFfsFrame(k);
      if ok {
        ghost var s := Snap().(ftab := ftab[o := FREE_FRAME]);
        InstallStep(s, k, o);
        InstallsFacts(s, Installed(s, k, o), k, o);
        var t := pdir[k.pid][Hi(k.vpn)];
        if i < |stab| {
          mem := mem[o := mem[|ftab| + i]];
        } else {
          assert mem[o := mem[o]] == mem;
        }
        tables := tables[t := tables[t][Lo(k.vpn) := Pte(true, false, PT_START + |ptab| + o)]];
        if k !in vmem {
          vmem := vmem[k := mem[o]];
        }
        assert ftab == s.ftab[o := Frame(false, k.pid, k.vpn, latency)];
        assert Snap() == Installed(s, k, o);
      }
    }

    /** Charge one page to the counter of free heap or, if that is used up, swap. */
    method Charge()
      modifies this`availableHeap, this`availableSwap
      ensures (availableHeap, availableSwap) == Charged(old(availableHeap), old(availableSwap))
    {
      if availableHeap == 0 {
        availableSwap := (availableSwap + WORD - 1) % WORD;
      } else {
        availableHeap := availableHeap - 1;
      }
    }

    /** Make a page table for the part of memory that page k lies in. */
    method NewTable(k: Key) returns (found: bool)
      requires Valid() && User(Snap(), k) && k.pid in pdir && Hi(k.vpn) !in pdir[k.pid]
      modifies this`ptab, this`tables, this`pdir
      ensures found ==> Valid() && Mapped(Snap(), k) && !Entry(Snap(), k).pres
      ensures pdir.Keys == old(pdir).Keys
      ensures found <==> exists i :: 0 <= i < |old(ptab)| && old(ptab)[i].isfree
      ensures !found ==> Full()
    {
      hide Inv, Entry;
      ghost var s := Snap();
      var t;
      found, t := GetPtFrame(k.pid);
      if found {
        var table := seq(1024, _ => ABSENT);
        TableStep(s, k.pid, Hi(k.vpn), t, table);
        Unmapped(s, k);
        tables := tables[t := table];
        pdir := pdir[k.pid := pdir[k.pid][Hi(k.vpn) := t]];
        assert Snap() == TableAdded(s, k.pid, Hi(k.vpn), t, table);
      }
    }

    /** The page-fault handler, for a fault on a valid page that is not present. */
    method PageFault(k: Key) returns (st: Status)
      requires Valid() && User(Snap(), k) && k.pid in pdir && !Entry(Snap(), k).pres
      modifies this
      ensures st == Done ==> Valid() && Entry(Snap(), k).pres && k in vmem && k.pid in pdir
      ensures st == Done ==> Touched(old(Now()), Now(), k) && (k in old(vmem) ==> vmem[k] == old(vmem)[k])
      ensures st == Dead ==> Valid() && Gone(old(Now()), Now(), k.pid)
      ensures st == Dead <==> Starved(old(Now()), k)
      ensures st == Exhausted ==> Full()
      ensures st != Dead ==> pdir.Keys == old(pdir).Keys
      ensures |stab| == |old(stab)|
    {
      hide Inv, Entry, Full, Charged;
      st := Done;
      var i := |stab|;
      if Hi(k.vpn) !in pdir[k.pid] {
        if availableHeap == 0 && availableSwap == 0 {
          Kill(k.pid);
          return Dead;
        }
        Unmapped(Snap(), k);
        var found := NewTable(k);
        if !found {
          return Exhausted;
        }
      } else {
        i := LastSlot(k.pid, k.vpn);
        PlaceOf(Snap(), k);
      }
      var ok := Load(k, i);
      if !ok {
        return Exhausted;
      }
      if i == |stab| {
        Charge();
      }
    }

    /** Free every frame of a process. */
    method ReleaseFrames(pid: int)
      modifies this`ptab, this`ftab, this`stab, this`availableHeap
      ensures Released(old(ptab), ptab, pid) && Released(old(ftab), ftab, pid) && Released(old(stab), stab, pid)
      ensures availableHeap == (old(availableHeap) + Owned(old(ftab), pid)) % WORD
    {
      hide Released, Owned;
      var n;
      ptab, n := ReleaseAll(ptab, pid);
      ftab, n := ReleaseAll(ftab, pid);
      availableHeap := (availableHeap + n) % WORD;
      stab, n := ReleaseAll(stab, pid);
    }

    /** Free every frame of a process and forget its page directory. */
    method Kill(pid: int)
      requires Valid() && pid > 0
      modifies this
      ensures Valid() && Gone(old(Now()), Now(), pid)
    {
      hide Inv, Owned, Released;
      ghost var s := Snap();
      ReleaseFrames(pid);
      pdir := pdir - {pid};
      vmem := map k | k in vmem && k.pid != pid :: vmem[k];
      slot := map k | k in slot && k.pid != pid :: slot[k];
      KillStep(s, Snap(), pid);
    }

    /** Directory entry h of a process maps 1024 pages to the frames of the same number. */
    ghost predicate Identity(pid: int, h: nat)
      reads this
    {
      && pid in pdir && h in pdir[pid] && 0 <= pdir[pid][h] < |tables|
      && tables[pdir[pid][h]] == seq(1024, j requires 0 <= j < 1024 => Pte(true, false, 1024 * h + j))
    }

    /** Make the identity page table for directory entry h. */
    method AddIdentity(pid: int, h: nat) returns (found: bool)
      requires Valid() && pid in pdir && h < 4 && h !in pdir[pid]
      modifies this`ptab, this`tables, this`pdir
      ensures found ==> Valid() && Identity(pid, h) && pdir[pid].Keys == old(pdir)[pid].Keys + {h}
      ensures found ==> forall g: nat :: g != h && old(Identity(pid, g)) ==> Identity(pid, g)
      ensures pdir.Keys == old(pdir).Keys && (!found ==> Full())
    {
      hide Inv, Entry;
      ghost var s := Snap();
      var t;
      found, t := GetPtFrame(pid);
      if found {
        var table := seq(1024, j requires 0 <= j < 1024 => Pte(true, false, 1024 * h + j));
        TablesApart(s, pid, t);
        TableStep(s, pid, h, t, table);
        tables := tables[t := table];
        pdir := pdir[pid := pdir[pid][h := t]];
        assert Snap() == TableAdded(s, pid, h, t, table);
      }
    }

    /** Create a process: a page directory, and identity page tables for the
        kernel's own pages. */
    method Vcreate(pid: int) returns (st: Status)
      requires Valid() && pid > 0 && pid !in pdir
      modifies this`ptab, this`tables, this`pdir
      ensures st == Done || st == Exhausted
      ensures st == Done ==> Valid() && pdir.Keys == old(pdir).Keys + {pid}
      ensures st == Done ==> (forall h :: h in pdir[pid] <==> 0 <= h < 4) && forall h: nat :: h < 4 ==> Identity(pid, h)
      ensures st == Exhausted ==> Full()
    {
      hide Inv, Entry, Identity;
      ghost var s := Snap();
      var found, t := GetPtFrame(pid);
      if !found {
        return Exhausted;
      }
      DirectoryStep(s, pid, t);
      pdir := pdir[pid := map[]];
      assert Snap() == DirectoryAdded(s, pid, t);
      var h := 0;
      while h < 4
        invariant 0 <= h <= 4 && Valid() && pdir.Keys == old(pdir).Keys + {pid}
        invariant forall g :: g in pdir[pid] <==> 0 <= g < h
        invariant forall g: nat :: g < h ==> Identity(pid, g)
      {
        found := AddIdentity(pid, h);
        if !found {
          return Exhausted;
        }
        h := h + 1;
      }
      st := Done;
    }

    /** Make page k present, faulting it in if need be. */
    method Touch(k: Key) returns (st: Status)
      requires Valid() && User(Snap(), k) && k.pid in pdir
      modifies this
      ensures st == Done ==> Valid() && Entry(Snap(), k).pres && k in vmem && k.pid in pdir
      ensures st == Done ==> Touched(old(Now()), Now(), k) && (k in old(vmem) ==> vmem[k] == old(vmem)[k])
      ensures st == Dead ==> Valid() && Gone(old(Now()), Now(), k.pid)
      ensures st == Dead <==> Starved(old(Now()), k)
      ensures st == Exhausted ==> Full()
    {
      hide Inv, Gone, Full, Charged;
      Resolve(Snap(), k);
      st := Done;
      if !(Hi(k.vpn) in pdir[k.pid] && tables[pdir[k.pid][Hi(k.vpn)]][Lo(k.vpn)].pres) {
        st := PageFault(k);
      }
    }

    /** A process reads one byte of its memory. */
    method Read(k: Key, off: nat) returns (st: Status, b: byte)
      requires Valid() && User(Snap(), k) && k.pid in pdir && off < 4096
      modifies this
      ensures st == Done ==> Valid() && k in vmem && b == vmem[k][off] && k.pid in pdir
      ensures st == Done ==> Touched(old(Now()), Now(), k) && (k in old(vmem) ==> vmem[k] == old(vmem)[k])
      ensures st == Dead ==> Valid() && Gone(old(Now()), Now(), k.pid)
      ensures st == Dead <==> Starved(old(Now()), k)
      ensures st == Exhausted ==> Full()
    {
      hide Inv, Gone, Full, Charged;
      st := Touch(k);
      b := 0;
      if st == Done {
        Resolve(Snap(), k);
        PresentFacts(Snap(), k);
        var e := tables[pdir[k.pid][Hi(k.vpn)]][Lo(k.vpn)];
        b := mem[e.base - PT_START - |ptab|][off];
      }
    }

    /** A process writes one byte; the processor sets the dirty flag. */
    method Write(k: Key, off: nat, b: byte) returns (st: Status)
      requires Valid() && User(Snap(), k) && k.pid in pdir && off < 4096
      modifies this
      ensures st == Done ==> Valid() && k in vmem && vmem[k][off] == b && k.pid in pdir
      ensures st == Done ==> Touched(old(Now()), Now(), k)
      ensures st == Done && k in old(vmem) ==> vmem[k] == old(vmem)[k][off := b]
      ensures st == Dead ==> Valid() && Gone(old(Now()), Now(), k.pid)
      ensures st == Dead <==> Starved(old(Now()), k)
      ensures st == Exhausted ==> Full()
    {
      hide Inv, Gone, Full, Charged;
      st := Touch(k);
      if st == Done {
        ghost var s := Snap();
        Resolve(s, k);
        PresentFacts(s, k);
        var t := pdir[k.pid][Hi(k.vpn)];
        var e := tables[t][Lo(k.vpn)];
        var f := e.base - PT_START - |ptab|;
        var page: Page := mem[f][off := b];
        StoreStep(s, k, page);
        tables := tables[t := tables[t][Lo(k.vpn) := e.(dirty := true)]];
        mem := mem[f := page];
        vmem := vmem[k := page];
        assert Snap() == Stored(s, k, page);
      }
    }
  }

  /** The counters of free heap and free swap after one page is charged to them. */
  function Charged(heap: nat, swap: nat): (nat, nat) {
    if heap == 0 then (0, (swap + WORD - 1) % WORD) else (heap - 1, swap)
  }

  /** The machine between operations: its tables and the two counters. */
  datatype Machine = Machine(s: State, heap: nat, swap: nat)

  /** Since a, process p was killed: its frames of all three kinds are free, its
      memory is forgotten, and its resident pages count as free heap again. */
  ghost predicate Gone(a: Machine, b: Machine, p: int) {
    && b.s.pdir == a.s.pdir - {p} && b.s.vmem == (map k | k in a.s.vmem && k.pid != p :: a.s.vmem[k])
    && Released(a.s.ptab, b.s.ptab, p) && Released(a.s.ftab, b.s.ftab, p) && Released(a.s.stab, b.s.stab, p)
    && b.heap == (a.heap + Owned(a.s.ftab, p)) % WORD && b.swap == a.swap
  }

  /** An access to page k kills its process: there is no page table for it and
      nothing left to charge one to. */
  predicate Starved(a: Machine, k: Key)
    requires k.pid in a.s.pdir
  {
    Hi(k.vpn) !in a.s.pdir[k.pid] && a.heap == 0 == a.swap
  }

  /** From a to b page k was touched: a first touch is charged for, and every
      other page of every process is as it was. */
  ghost predicate Touched(a: Machine, b: Machine, k: Key) {
    && k in b.s.vmem && b.s.vmem == a.s.vmem[k := b.s.vmem[k]] && b.s.pdir.Keys == a.s.pdir.Keys
    && (b.heap, b.swap) == if k in a.s.vmem then (a.heap, a.swap) else Charged(a.heap, a.swap)
  }

  /** The counters and the pages ever touched add up to the same before and after a touch, as long as
      there is anything left to charge; heap goes first, and with nothing left swap wraps. */
  lemma TouchConserves(a: Machine, b: Machine, k: Key)
    requires Touched(a, b, k) && a.swap < WORD
    ensures a.heap + a.swap > 0 || k in a.s.vmem ==> b.heap + b.swap + |b.s.vmem| == a.heap + a.swap + |a.s.vmem|
    ensures b.swap != a.swap <==> k !in a.s.vmem && a.heap == 0
    ensures a.heap == a.swap == 0 && k !in a.s.vmem ==> b.heap == 0 && b.swap == WORD - 1
  {
    PagesGrow(a.s.vmem, k, b.s.vmem[k]);
  }

  lemma PagesGrow(m: map<Key, Page>, k: Key, page: Page)
    ensures |m[k := page]| == |m| + if k in m then 0 else 1
  {
    assert m[k := page].Keys == m.Keys + {k};
  }

  /** How many entries of a frame table belong to a process. */
  function Owned(tab: seq<Frame>, pid: int): nat {
    if tab == [] then 0 else Owned(tab[..|tab| - 1], pid) + if tab[|tab| - 1].pid == pid then 1 else 0
  }

  lemma {:induction false} OwnedCounts(tab: seq<Frame>, pid: int)
    ensures Owned(tab, pid) == |set i | 0 <= i < |tab| && tab[i].pid == pid|
  {
    if tab != [] {
      var n := |tab| - 1;
      OwnedCounts(tab[..n], pid);
      var s, u := set i | 0 <= i < n && tab[..n][i].pid == pid, set i | 0 <= i < |tab| && tab[i].pid == pid;
      assert u == if tab[n].pid == pid then s + {n} else s;
    }
  }

  /** Clear every entry of a frame table that belongs to a process; count them. */
  method ReleaseAll(tab: seq<Frame>, pid: int) returns (r: seq<Frame>, n: nat)
    ensures Released(tab, r, pid) && n == Owned(tab, pid)
  {
    r, n := tab, 0;
    var i := 0;
    while i < |tab|
      invariant 0 <= i <= |tab| == |r| && n == Owned(tab[..i], pid)
      invariant forall j :: i <= j < |tab| ==> r[j] == tab[j]
      invariant forall j :: 0 <= j < i ==> if tab[j].pid == pid then r[j].isfree && r[j].pid == 0 else r[j] == tab[j]
    {
      if r[i].pid == pid {
        r := r[i := r[i].(isfree := true, pid := 0, vpn := 0)];
        n := n + 1;
      }
      assert tab[..i + 1][..i] == tab[..i];
      i := i + 1;
    }
    assert tab[..|tab|] == tab;
  }

  /** What the processor finds when it looks page k up. */
  lemma Resolve(s: State, k: Key)
    requires Inv(s) && User(s, k) && k.pid in s.pdir
    ensures Tables(s)
    ensures Hi(k.vpn) in s.pdir[k.pid] ==> EntryExists(s, k) && Mapped(s, k)
    ensures Hi(k.vpn) in s.pdir[k.pid] ==> Entry(s, k) == s.tables[s.pdir[k.pid][Hi(k.vpn)]][Lo(k.vpn)]
    ensures Hi(k.vpn) !in s.pdir[k.pid] ==> !Entry(s, k).pres
    ensures Entry(s, k).pres ==> k in s.vmem && Mapped(s, k)
  {
    hide Frames, Slots, Aged, Holds;
  }

  lemma TablesApart(s: State, pid: int, t: nat)
    requires Inv(s) && t < |s.ptab| && s.ptab[t].isfree && pid in s.pdir
    ensures forall h :: h in s.pdir[pid] ==> s.pdir[pid][h] != t
  {
    hide Frames, Slots, Aged, Contents, Rooted;
  }

  lemma Unmapped(s: State, k: Key)
    requires Inv(s) && k.pid in s.pdir && Hi(k.vpn) !in s.pdir[k.pid]
    ensures k !in s.vmem && k !in s.slot && Tables(s) && !Entry(s, k).pres
  {
    hide Frames, Slots, Aged, Holds;
  }

  lemma EvictsFacts(s: State, w: State, o: nat, i: nat, copy: bool)
    requires Tables(s) && Tables(w) && o < |s.ftab| && Evicts(s, w, o, i, copy)
    ensures !Entry(w, KeyOf(s.ftab[o])).pres
    ensures forall j :: j != KeyOf(s.ftab[o]) ==> Entry(w, j) == Entry(s, j)
  {
    hide Entry, Tables;
  }

  lemma PresentDiffers(s: State, k: Key, o: nat)
    requires Inv(s) && o < |s.ftab|
    ensures Tables(s) && (!s.ftab[o].isfree && !Entry(s, k).pres ==> KeyOf(s.ftab[o]) != k)
  {
    hide Entry, Tables, Slots, Aged, Contents;
  }

  lemma StillFresh(s: State, w: State, o: nat)
    requires Fresh(s) && w.ftab == s.ftab && w.latency == s.latency && o < |s.ftab|
    ensures Fresh(w.(ftab := w.ftab[o := FREE_FRAME]))
  {
  }

  lemma InstallsFacts(s: State, w: State, k: Key, o: nat)
    requires Tables(s) && Tables(w) && Installs(s, w, k, o)
    ensures Entry(w, k).pres && k in w.vmem
  {
    hide Entry, Tables;
  }

  lemma VictimFacts(s: State, o: nat)
    requires Inv(s) && o < |s.ftab| && !s.ftab[o].isfree
    ensures var k := KeyOf(s.ftab[o]);
            && Tables(s) && EntryExists(s, k) && User(s, k) && k in s.vmem
            && Entry(s, k) == s.tables[s.pdir[k.pid][Hi(k.vpn)]][Lo(k.vpn)] && Entry(s, k).pres
            && |s.mem| == |s.ftab| + |s.stab|
            && (k in s.slot ==> s.slot[k] < |s.stab|)
  {
    hide Aged, Holds;
    assert Mapped(s, KeyOf(s.ftab[o]));
  }
}
