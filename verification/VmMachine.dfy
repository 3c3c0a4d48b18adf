/**
 The paging code in its own form: one object whose arrays and cursors are updated in place.
 Every method does to the state what the corresponding function of module Paging,
 PagingKernel or PagingRuns says.
 */
module VmMachine {
  import opened Prelude
  import opened Segments
  import opened Coremap
  import opened Paging
  import opened PagingAlloc
  import opened PagingInvariant
  import opened PagingFault
  import opened PagingKernel
  import opened PagingRuns
  import opened PageTables

  /** Indices of the statistics counters. */
  const TLB_FAULT: nat := 0
  const TLB_FREE: nat := 1
  const TLB_REPLACE: nat := 2
  const TLB_INVALIDATE: nat := 3
  const TLB_RELOAD: nat := 4
  const FAULT_ZERO: nat := 5
  const FAULT_DISK: nat := 6
  const ELF_READ: nat := 7
  const SWAP_READ: nat := 8
  const SWAP_WRITE: nat := 9
  const N_STATS: nat := 10

  function StatsOf(c: seq<nat>): Stats
    requires |c| == N_STATS
  {
    Stats(c[0], c[1], c[2], c[3], c[4], c[5], c[6], c[7], c[8], c[9])
  }

  function InitialTlb(i: nat): TlbEntry { TlbInvalid(i) }

  lemma BootedBy(s: State, frames: nat)
    requires |s.coremap| == |s.ram| == frames > 2 && |s.swapList| == |s.swapFile| == NUM_PAGES
    requires 1 <= s.firstFree <= frames && s.victim == s.tlbVictim == 0 && s.pt == map[] && s.tlb == InvalidTlb()
    requires forall f :: 0 <= f < frames ==> s.coremap[f] == Entry(Clean, 0, 0) && s.ram[f] == ZeroPage()
    requires forall k :: 0 <= k < NUM_PAGES ==> s.swapList[k] == SwapPage(true, 0) && s.swapFile[k] == ZeroPage()
    requires s.stats == Stats(0, 0, 0, 0, 0, 0, 0, 0, 0, 0)
    ensures Booted(Machine(s, map[]))
  {
  }

  lemma SegmentFacts(as_: AddrSpace, va: nat, seg: Segment)
    requires AddrSpaceOk(as_) && va != USERSPACETOP && GetSegment(as_, va) == Some(seg)
    ensures Fits(seg) && seg.vaddr <= va && (seg.perm == PF_S || Clamped(seg, va) == seg)
  {
    FaultSegment(as_, va);
    hide GetSegment, AddrSpaceOk;
    NotClamped(seg, va);
  }

  predicate Uniform<T(==)>(a: array<T>, x: T)
    reads a
  {
    forall i :: 0 <= i < a.Length ==> a[i] == x
  }

  method NewArray<T(==)>(n: nat, x: T) returns (a: array<T>)
    ensures fresh(a) && a.Length == n && Uniform(a, x)
  {
    a := new T[n](_ => x);
  }

  predicate Cold(tlb: array<TlbEntry>)
    reads tlb
  {
    forall i :: 0 <= i < tlb.Length ==> tlb[i] == TlbInvalid(i)
  }

  method NewTlb() returns (tlb: array<TlbEntry>)
    ensures fresh(tlb) && tlb.Length == NUM_TLB && Cold(tlb)
  {
    tlb := new TlbEntry[NUM_TLB](InitialTlb);
  }

  class Vm {
    const as_: AddrSpace
    const coremap: array<Entry>
    const ram: array<Page>
    const swapList: array<SwapPage>
    const swapFile: array<Page>
    const tlb: array<TlbEntry>
    const counters: array<nat>
    const pt: PageTable
    var firstFree: nat
    var cmVictim: nat
    var tlbVictim: nat

    /** coremap_init, init_statistics, pt_create, swapfile_init and as_activate. */
    constructor (as_: AddrSpace, frames: nat, firstFree: nat)
      requires frames > 2 && 1 <= firstFree <= frames
      ensures Valid() && this.as_ == as_ && fresh(Footprint())
      ensures coremap.Length == frames && this.firstFree == firstFree && Blank()
    {
      hide ZeroPage, PageTable.Valid, Uniform, Cold;
      this.as_ := as_;
      this.firstFree, cmVictim, tlbVictim := firstFree, 0, 0;
      var entries := NewArray(frames, Entry(Clean, 0, 0));
      var frameData := NewArray(frames, ZeroPage());
      var slots := NewArray(NUM_PAGES, SwapPage(true, 0));
      var slotData := NewArray(NUM_PAGES, ZeroPage());
      var entryHi := NewTlb();
      var zeroes := NewArray<nat>(N_STATS, 0);
      coremap, ram, swapList, swapFile, tlb, counters := entries, frameData, slots, slotData, entryHi, zeroes;
      pt := new PageTable();
    }

    ghost predicate Blank()
      reads this, coremap, ram, swapList, swapFile, tlb, counters, pt
    {
      && cmVictim == 0 && tlbVictim == 0 && pt.entries == map[]
      && Uniform(coremap, Entry(Clean, 0, 0)) && Uniform(ram, ZeroPage())
      && Uniform(swapList, SwapPage(true, 0)) && Uniform(swapFile, ZeroPage())
      && Cold(tlb) && Uniform(counters, 0)
    }

    /** A new machine is a booted one: the theorems about runs start here. */
    lemma NewIsBooted()
      requires Valid() && Blank() && 1 <= firstFree <= coremap.Length
      ensures Booted(Machine(View(), map[]))
    {
      hide Booted, ZeroPage;
      assert tlb[..] == InvalidTlb();
      BootedBy(View(), coremap.Length);
    }

    ghost function Footprint(): set<object>
      reads this, pt
    {
      {this, coremap, ram, swapList, swapFile, tlb, counters} + pt.Repr
    }

    ghost predicate Valid()
      reads this, pt, pt.Repr
    {
      && pt.Valid() && this !in pt.Repr && coremap !in pt.Repr && ram !in pt.Repr && swapList !in pt.Repr
      && swapFile !in pt.Repr && tlb !in pt.Repr && counters !in pt.Repr
      && ram != swapFile
      && coremap.Length == ram.Length > 2 && swapList.Length == swapFile.Length == NUM_PAGES
      && tlb.Length == NUM_TLB && counters.Length == N_STATS
      && cmVictim < coremap.Length && tlbVictim < NUM_TLB
    }

    ghost function View(): State
      reads this, coremap, ram, swapList, swapFile, tlb, counters, pt
      requires counters.Length == N_STATS
    {
      State(coremap[..], firstFree, cmVictim, ram[..], pt.entries, swapList[..], swapFile[..],
                  tlb[..], tlbVictim, StatsOf(counters[..]))
    }

    /** increment_statistics. */
    method Increment(stat: nat)
      requires stat < N_STATS == counters.Length
      modifies counters
      ensures counters[..] == old(counters[..])[stat := old(counters[stat]) + 1]
    {
      counters[stat] := counters[stat] + 1;
    }

    /** tlb_get_rr_victim. */
    method GetTlbVictim() returns (victim: nat)
      requires Valid()
      modifies this`tlbVictim
      ensures victim == old(tlbVictim) && tlbVictim == (victim + 1) % NUM_TLB && Valid()
    {
      victim := tlbVictim;
      tlbVictim := (tlbVictim + 1) % NUM_TLB;
    }

    /** tlb_remove_by_va: probe, and invalidate the slot found. */
    method TlbRemoveByVa(p: nat)
      requires Valid()
      modifies tlb
      ensures tlb[..] == TlbRemove(old(tlb[..]), p)
    {
      var i := 0;
      while i < tlb.Length && tlb[i].vpn != p
        invariant 0 <= i <= tlb.Length
        invariant TlbProbe(tlb[..], p, 0) == TlbProbe(tlb[..], p, i)
        decreases tlb.Length - i
      {
        i := i + 1;
      }
      if i < tlb.Length {
        tlb[i] := TlbInvalid(i);
      }
    }

    /** swap_out: None when no slot is free (the kernel panics). */
    method SwapOut(f: nat, q: nat) returns (slot: Option<nat>)
      requires Valid() && f < ram.Length
      modifies swapList, swapFile, counters
      ensures slot == FreeSlot(old(swapList[..]), 0)
      ensures slot.Some? ==>
                && swapFile[..] == old(swapFile[..])[slot.value := old(ram[f])]
                && swapList[..] == old(swapList[..])[slot.value := SwapPage(false, q)]
                && counters[..] == old(counters[..])[SWAP_WRITE := old(counters[SWAP_WRITE]) + 1]
    {
      var i := 0;
      while i < swapList.Length && !swapList[i].free
        invariant 0 <= i <= swapList.Length
        invariant FreeSlot(swapList[..], 0) == FreeSlot(swapList[..], i)
        decreases swapList.Length - i
      {
        i := i + 1;
      }
      if i == swapList.Length {
        return None;
      }
      swapFile[i] := ram[f];
      swapList[i] := SwapPage(false, q);
      Increment(SWAP_WRITE);
      slot := Some(i);
    }

    /** swap_in: the slot is released, then read. */
    method SwapInPage(f: nat, k: nat)
      requires Valid() && f < ram.Length && k < NUM_PAGES
      modifies swapList, ram, counters
      ensures View() == SwapIn(old(View()), f, k)
    {
      swapList[k] := SwapPage(true, 0);
      ram[f] := swapFile[k];
      Increment(FAULT_DISK);
      Increment(SWAP_READ);
    }

    /** The eviction sequence of getppage_user and getppages. */
    method EvictFrame(f: nat) returns (ok: bool)
      requires Valid() && f < coremap.Length && coremap[f].vpn < KERNEL_VPN
      modifies swapList, swapFile, counters, tlb, pt.Repr
      ensures Valid() && fresh(pt.Repr - old(pt.Repr))
      ensures ok <==> Evict(old(View()), f).Some?
      ensures ok ==> View() == Evict(old(View()), f).value
    {
      hide PageTable.Valid;
      var q := coremap[f].vpn;
      var slot := SwapOut(f, q);
      if slot.None? {
        return false;
      }
      pt.SetOffset(q * PAGE_SIZE, slot.value);
      pt.SetPa(q * PAGE_SIZE, 0);
      TlbRemoveByVa(q);
      ok := true;
    }

    /** getppage_user, for page p; None when the swap file is full (panic) or the victim search never ends. */
    method GetPageUser(p: nat) returns (frame: Option<nat>)
      requires Valid() && FramesReady()
      modifies this`firstFree, this`cmVictim, coremap, swapList, swapFile, counters, tlb, pt.Repr
      ensures Valid() && fresh(pt.Repr - old(pt.Repr))
      ensures frame.None? <==> AllocUser(old(View()), p).None?
      ensures frame.Some? ==> AllocUser(old(View()), p) == Some((View(), frame.value))
    {
      hide Evict, PageTable.Valid;
      var found := FindFreeFrame(coremap);
      var pos := 0;
      if found.Some? {
        pos := found.value;
        FirstFreeIs(coremap[..], 1, pos);
      } else {
        assert !HasFreeRun(coremap[..], 1);
        if firstFree + 1 <= coremap.Length {
          pos := firstFree;
          firstFree := firstFree + 1;
        } else {
          ghost var before := View();
          var victim, cursor := GetVictim(coremap, cmVictim, 1);
          cmVictim := cursor;
          if victim.None? {
            return None;
          }
          VictimUnique(coremap[..], before.victim, 1, victim.value, VictimOf(before, 1));
          pos := victim.value;
          var ok := EvictFrame(pos);
          if !ok {
            return None;
          }
        }
      }
      coremap[pos] := Entry(Dirty, p, 1);
      frame := Some(pos);
    }

    /** page_alloc: None exactly when no frame can be had, else the right frame. */
    method PageAlloc(p: nat) returns (frame: Option<nat>)
      requires Valid() && FramesReady()
      modifies this`firstFree, this`cmVictim, coremap, swapList, swapFile, counters, tlb, pt.Repr
      ensures Valid() && fresh(pt.Repr - old(pt.Repr))
      ensures frame.None? <==> AllocUser(old(View()), p).None?
      ensures frame.None? <==> NoFrame(old(View()))
      ensures frame.Some? ==> Took(old(View()), View(), frame.value, p) && AllocUser(old(View()), p) == Some((View(), frame.value))
    {
      AllocUserExactly(View(), p);
      hide AllocUser, NoFrame, Took, PageTable.Valid;
      frame := GetPageUser(p);
    }

    /** The tail of vm_fault: replace the TLB slot the round robin points at. */
    method LoadTlb(p: nat, f: nat, writable: bool)
      requires Valid()
      modifies tlb, counters, this`tlbVictim
      ensures Valid() && View() == FillTlb(old(View()), p, f, writable)
    {
      Increment(TLB_FAULT);
      var victim := GetTlbVictim();
      if tlb[victim].valid {
        Increment(TLB_REPLACE);
      } else {
        Increment(TLB_FREE);
      }
      tlb[victim] := TlbEntry(p, f, writable, true);
      assert View().stats == FillTlb(old(View()), p, f, writable).stats;
    }

    /** vm_fault's branch for a page that was never touched, once it has frame f. */
    method FillNewPage(p: nat, f: nat, va: nat, seg: Segment) returns (r: FaultResult)
      requires Valid() && f < ram.Length && va < VA_LIMIT && p == va / PAGE_SIZE
      requires Fits(seg) && seg.vaddr <= va && (seg.perm == PF_S || Clamped(seg, va) == seg)
      modifies pt.Repr, ram, counters, tlb, this`tlbVictim
      ensures Valid() && fresh(pt.Repr - old(pt.Repr))
      ensures var s := old(View()); var (s', r') := NewPage(SetPt(s, PtSetFrame(s.pt, p, f)), p, f, va, seg);
              r == r' && (r != Halt ==> View() == s')
    {
      hide PageTable.Valid, FillTlb, ElfFill, FileCovers, LoadSafe, Clamped, Fits;
      pt.SetPa(va, f);
      if seg.perm == PF_S {
        ram[f] := ZeroPage();
        Increment(FAULT_ZERO);
        LoadTlb(p, f, Writable(seg));
        return Ok;
      }
      r := LoadElf(f, va, seg);
      if r == Ok {
        LoadTlb(p, f, Writable(seg));
      }
    }

    /** The call of seg_load_page with its counters. */
    method LoadElf(f: nat, va: nat, seg: Segment) returns (r: FaultResult)
      requires Valid() && f < ram.Length && Fits(seg) && seg.vaddr <= va && Clamped(seg, va) == seg
      modifies ram, counters
      ensures r == Halt <==> seg.vnode.NoVnode? || PageIndex(seg, va) >= NPages(seg, va) || !LoadSafe(seg, va)
      ensures r != Halt ==> View() == ElfFill(old(View()), f, seg, PageIndex(seg, va))
      ensures r != Halt ==> r == if FileCovers(seg, PageIndex(seg, va)) then Ok else EFAULT
    {
      var seg', outcome, readLen, page := SegLoadPage(seg, va);
      if outcome.AssertFailed? || outcome.FrameOverrun? {
        return Halt;
      }
      ram[f] := page;
      assert page == PageImage(seg, PageIndex(seg, va));
      hide Fits, LoadSafe, FileCovers, PageImage;
      if readLen == 0 {
        Increment(FAULT_ZERO);
      } else {
        Increment(ELF_READ);
        Increment(FAULT_DISK);
      }
      r := if outcome.ShortRead? then EFAULT else Ok;
    }

    /** The address space is well formed and the paging invariant holds. */
    ghost predicate Ready()
      reads this, coremap, ram, swapList, swapFile, tlb, counters, pt, pt.Repr
    {
      Valid() && AddrSpaceOk(as_) && Inv(LayoutOf(as_), View()) && exists errors :: Accounting(View().stats, errors)
    }

    /** vm_fault. */
    method VmFault(kind: FaultKind, va: nat) returns (r: FaultResult)
      requires Ready() && va < VA_LIMIT && va != USERSPACETOP
      requires kind == ReadFault || kind == WriteFault ==> !TlbMaps(View(), va / PAGE_SIZE)
      modifies Footprint()
      ensures Valid() && fresh(pt.Repr - old(pt.Repr))
      ensures var (s', r') := Fault(as_, old(View()), kind, va); r == r' && (r != Halt ==> View() == s')
    {
      if kind == ReadOnlyFault {
        return EACCES;
      } else if kind == OtherFault {
        return EINVAL;
      }
      var found := GetSegment(as_, va);
      if found.None? {
        return EFAULT;
      }
      var seg := found.value;
      r := FaultIn(va, seg);
    }

    /** The facts about the coremap that an allocation relies on. */
    ghost predicate FramesReady()
      reads this, coremap
    {
      && 1 <= firstFree <= coremap.Length && 0 < coremap.Length && !Eligible(coremap[0])
      && forall f :: 0 <= f < coremap.Length ==> coremap[f].vpn < KERNEL_VPN
    }

    lemma ReadyFacts()
      requires Ready()
      ensures FramesReady() && LayoutOk(LayoutOf(as_))
    {
      LayoutOfOk(as_);
      var s := View();
      assert forall f :: 0 <= f < coremap.Length ==> s.coremap[f] == coremap[f];
    }

    /** What vm_fault's branches rely on. */
    lemma FaultFacts(va: nat, seg: Segment)
      requires Ready() && va != USERSPACETOP && GetSegment(as_, va) == Some(seg)
      ensures Valid() && FramesReady() && Fits(seg) && seg.vaddr <= va && (seg.perm == PF_S || Clamped(seg, va) == seg)
      ensures var p := va / PAGE_SIZE;
              && PtSlot(pt.entries, p) < NUM_PAGES
              && (PtSlot(pt.entries, p) >= 0 || PtFrame(pt.entries, p) == 0 ==> !Resident(View(), p, {}))
              && (PtSlot(pt.entries, p) >= 0 ==> PtFrame(pt.entries, p) == 0)
    {
      hide PageTable.Valid, AddrSpaceOk;
      SegmentFacts(as_, va, seg);
      hide Fits, Clamped, GetSegment, LayoutOf;
      ReadyFacts();
      PageTrichotomy(LayoutOf(as_), View(), va / PAGE_SIZE);
    }

    method FaultIn(va: nat, seg: Segment) returns (r: FaultResult)
      requires Ready() && va < VA_LIMIT && va != USERSPACETOP && GetSegment(as_, va) == Some(seg)
      modifies Footprint()
      ensures Valid() && fresh(pt.Repr - old(pt.Repr))
      ensures var (s', r') := SegmentFault(old(View()), va, seg); r == r' && (r != Halt ==> View() == s')
    {
      hide AllocUser, FillTlb, PageTable.Valid, NewPageFault, SwapInFault, Ready;
      var p := va / PAGE_SIZE;
      FaultFacts(va, seg);
      var frame := pt.GetPa(va);
      var slot := pt.GetOffset(va);
      if frame > 0 {
        Increment(TLB_RELOAD);
      }
      if frame == 0 && slot == -1 {
        r := FaultNew(p, va, seg);
      } else if slot >= 0 {
        r := FaultSwapped(p, va, slot, seg);
      } else {
        LoadTlb(p, frame, Writable(seg));
        r := Ok;
      }
    }

    method FaultNew(p: nat, va: nat, seg: Segment) returns (r: FaultResult)
      requires Valid() && FramesReady() && va < VA_LIMIT && p == va / PAGE_SIZE
      requires Fits(seg) && seg.vaddr <= va && (seg.perm == PF_S || Clamped(seg, va) == seg)
      modifies Footprint()
      ensures Valid() && fresh(pt.Repr - old(pt.Repr))
      ensures var (s', r') := NewPageFault(old(View()), p, va, seg); r == r' && (r != Halt ==> View() == s')
    {
      hide AllocUser, NewPage, PageTable.Valid, NoFrame, Took;
      var f := PageAlloc(p);
      if f.None? {
        return Halt;
      }
      r := FillNewPage(p, f.value, va, seg);
    }

    method FaultSwapped(p: nat, va: nat, slot: nat, seg: Segment) returns (r: FaultResult)
      requires Valid() && FramesReady() && va < VA_LIMIT && p == va / PAGE_SIZE
      requires slot == PtSlot(pt.entries, p) && slot < NUM_PAGES
      modifies Footprint()
      ensures Valid() && fresh(pt.Repr - old(pt.Repr))
      ensures var (s', r') := SwapInFault(old(View()), p, seg); r == r' && (r != Halt ==> View() == s')
    {
      hide AllocUser, FillTlb, PageTable.Valid, NoFrame, Took;
      var f := PageAlloc(p);
      if f.None? {
        return Halt;
      }
      MapSwappedIn(p, f.value, va, slot);
      LoadTlb(p, f.value, Writable(seg));
      r := Ok;
    }

    /** swap_in and the two page-table updates behind it. */
    method MapSwappedIn(p: nat, f: nat, va: nat, slot: nat)
      requires Valid() && f < ram.Length && slot < NUM_PAGES && va < VA_LIMIT && p == va / PAGE_SIZE
      modifies swapList, ram, counters, pt.Repr
      ensures Valid() && fresh(pt.Repr - old(pt.Repr))
      ensures View() == MapSwapped(old(View()), p, f, slot)
    {
      hide PageTable.Valid;
      SwapInPage(f, slot);
      pt.SetOffset(va, -1);
      pt.SetPa(va, f);
    }

    // -------------------------------------------------------------- user accesses

    /** The TLB lookup of the processor. */
    method Lookup(p: nat) returns (hit: Option<TlbEntry>)
      requires Valid()
      ensures hit == TlbHit(tlb[..], p)
    {
      var i := 0;
      while i < tlb.Length && tlb[i].vpn != p
        invariant 0 <= i <= tlb.Length
        invariant TlbProbe(tlb[..], p, 0) == TlbProbe(tlb[..], p, i)
        decreases tlb.Length - i
      {
        i := i + 1;
      }
      hit := if i < tlb.Length && tlb[i].valid then Some(tlb[i]) else None;
    }

    /** After an access the machine is ready again, unless the kernel halted. */
    lemma ReadyAfter(s: State, kind: FaultKind, va: nat)
      requires AddrSpaceOk(as_) && Inv(LayoutOf(as_), s) && (exists errors :: Accounting(s.stats, errors))
      requires (kind == ReadFault || kind == WriteFault) && !TlbMaps(s, va / PAGE_SIZE) && va < USERSPACETOP
      requires Valid() && View() == Fault(as_, s, kind, va).0 && Fault(as_, s, kind, va).1 != Halt
      ensures Ready() && (Fault(as_, s, kind, va).1 == Ok ==> TlbMaps(View(), va / PAGE_SIZE))
    {
      hide Inv, Fault, PageTable.Valid;
      var errors :| Accounting(s.stats, errors);
      AccessFault(as_, LayoutOf(as_), s, kind, va, errors);
    }

    /** A user-level load. */
    method UserLoad(va: nat) returns (r: Access)
      requires Ready() && va < USERSPACETOP
      modifies Footprint()
      ensures Valid() && fresh(pt.Repr - old(pt.Repr))
      ensures var (s', r') := Load(as_, old(View()), va); r == r' && (r != Refused(Halt) ==> View() == s' && Ready())
    {
      hide Fault, PageTable.Valid, Inv, AddrSpaceOk, ReadHit;
      LayoutOfOk(as_);
      HitOk(LayoutOf(as_), View(), va / PAGE_SIZE);
      var hit := Lookup(va / PAGE_SIZE);
      if hit.None? {
        ghost var s := View();
        var why := VmFault(ReadFault, va);
        if why == Halt {
          return Refused(Halt);
        }
        ReadyAfter(s, ReadFault, va);
        if why != Ok {
          return Refused(why);
        }
        HitOk(LayoutOf(as_), View(), va / PAGE_SIZE);
        hit := Lookup(va / PAGE_SIZE);
      }
      r := LoadThrough(hit.value, va);
    }

    /** The access itself, once the TLB has the page. */
    method LoadThrough(hit: TlbEntry, va: nat) returns (r: Access)
      requires Ready() && TlbMaps(View(), va / PAGE_SIZE) && TlbHit(tlb[..], va / PAGE_SIZE) == Some(hit)
      ensures r == ReadHit(View(), va)
    {
      hide PageTable.Valid, Inv, AddrSpaceOk;
      LayoutOfOk(as_);
      ReadHitOk(LayoutOf(as_), View(), va);
      InvSizes(LayoutOf(as_), View());
      r := Value(ram[hit.frame][va % PAGE_SIZE]);
    }

    /** A user-level store. */
    method UserStore(va: nat, b: byte) returns (r: Access)
      requires Ready() && va < USERSPACETOP
      modifies Footprint()
      ensures Valid() && fresh(pt.Repr - old(pt.Repr))
      ensures var (s', r') := Store(as_, old(View()), va, b); r == r' && (r != Refused(Halt) ==> View() == s' && Ready())
    {
      hide Fault, PageTable.Valid, Inv, AddrSpaceOk, WriteHit;
      LayoutOfOk(as_);
      HitOk(LayoutOf(as_), View(), va / PAGE_SIZE);
      var hit := Lookup(va / PAGE_SIZE);
      if hit.None? {
        ghost var s := View();
        var why := VmFault(WriteFault, va);
        if why == Halt {
          return Refused(Halt);
        }
        ReadyAfter(s, WriteFault, va);
        if why != Ok {
          return Refused(why);
        }
        HitOk(LayoutOf(as_), View(), va / PAGE_SIZE);
        hit := Lookup(va / PAGE_SIZE);
      }
      r := StoreThrough(hit.value, va, b);
    }

    method StoreThrough(hit: TlbEntry, va: nat, b: byte) returns (r: Access)
      requires Ready() && TlbMaps(View(), va / PAGE_SIZE) && TlbHit(tlb[..], va / PAGE_SIZE) == Some(hit)
      modifies ram
      ensures Ready() && (View(), r) == WriteHit(old(View()), va, b)
    {
      hide PageTable.Valid, Inv, AddrSpaceOk;
      ghost var s, im := View(), LayoutOf(as_);
      LayoutOfOk(as_);
      ReadHitOk(im, s, va);
      WriteHitOk(im, s, va, b);
      InvSizes(im, s);
      if !hit.writable {
        return Refused(EACCES);
      }
      ram[hit.frame] := ram[hit.frame][va % PAGE_SIZE := b];
      assert View() == WriteHit(s, va, b).0;
      r := Stored;
    }

    /** as_activate: the loop over the TLB slots. */
    method ActivateTlb()
      requires Valid()
      modifies tlb, counters
      ensures Valid() && View() == Activate(old(View()))
    {
      for i := 0 to NUM_TLB
        invariant forall j :: 0 <= j < i ==> tlb[j] == TlbInvalid(j)
        invariant counters[..] == old(counters[..])
      {
        tlb[i] := TlbInvalid(i);
      }
      Increment(TLB_INVALIDATE);
      assert tlb[..] == InvalidTlb();
    }

    // -------------------------------------------------------------- kernel frames

    /** The loop that marks a run as the kernel's. */
    method MarkRun(first: nat, n: nat)
      requires Valid() && n >= 1 && first + n <= coremap.Length
      modifies coremap
      ensures Valid() && coremap[..] == MarkFixed(old(coremap[..]), first, n)
    {
      coremap[first] := Entry(Fixed, coremap[first].vpn, n);
      for i := 1 to n
        invariant forall j :: 0 <= j < coremap.Length ==>
          coremap[j] == if first <= j < first + i
                        then Entry(Fixed, old(coremap[j].vpn), if j == first then n else old(coremap[j].allocSize))
                        else old(coremap[j])
      {
        coremap[first + i] := coremap[first + i].(status := Fixed);
      }
    }

    /** getppages. None: no address space to evict from, or (when it halts) out of swap space. */
    method GetPPages(n: nat, hasAs: bool) returns (r: KernelResult)
      requires Valid() && FramesReady() && n >= 1
      modifies Footprint()
      ensures Valid() && fresh(pt.Repr - old(pt.Repr))
      ensures var (s', r') := KernelAlloc(old(View()), n, hasAs); r == r' && (r != KernelHalt ==> View() == s')
    {
      hide Evict, PageTable.Valid;
      var found := FindFreeRun(coremap, n);
      if found.Some? {
        FirstFreeIs(coremap[..], n, found.value);
        MarkRun(found.value, n);
        return Got(found.value);
      }
      assert !HasFreeRun(coremap[..], n);
      if firstFree + n <= coremap.Length {
        var first := firstFree;
        firstFree := firstFree + n;
        MarkRun(first, n);
        return Got(first);
      }
      r := EvictForKernel(n, hasAs);
    }

    /** The frames of a run are swapped out one after the other. */
    method EvictFrames(first: nat, n: nat) returns (ok: bool)
      requires Valid() && FramesReady() && first + n <= coremap.Length
      modifies swapList, swapFile, counters, tlb, pt.Repr
      ensures Valid() && fresh(pt.Repr - old(pt.Repr))
      ensures ok <==> EvictRun(old(View()), first, n).Some?
      ensures ok ==> View() == EvictRun(old(View()), first, n).value
    {
      hide Evict, PageTable.Valid;
      ghost var s := View();
      var i := 0;
      while i < n
        invariant 0 <= i <= n && Valid() && fresh(pt.Repr - old(pt.Repr))
        invariant EvictRun(s, first, n) == EvictRun(View(), first + i, n - i)
        decreases n - i
      {
        ok := EvictFrame(first + i);
        if !ok {
          return;
        }
        i := i + 1;
      }
      ok := true;
    }

    method EvictForKernel(n: nat, hasAs: bool) returns (r: KernelResult)
      requires Valid() && FramesReady() && n >= 1 && MustEvict(View(), n)
      modifies Footprint()
      ensures Valid() && fresh(pt.Repr - old(pt.Repr))
      ensures var (s', r') := KernelAlloc(old(View()), n, hasAs); r == r' && (r != KernelHalt ==> View() == s')
    {
      hide Evict, EvictRun, PageTable.Valid;
      ghost var s := View();
      var found, cursor := GetVictim(coremap, cmVictim, n);
      cmVictim := cursor;
      if found.None? {
        return KernelHalt;
      }
      if !hasAs {
        return NoMemory;
      }
      if found.value < 1 {
        return KernelHalt;
      }
      VictimUnique(coremap[..], s.victim, n, found.value, VictimOf(s, n));
      var ok := EvictFrames(found.value, n);
      if !ok {
        return KernelHalt;
      }
      MarkRun(found.value, n);
      r := Got(found.value);
    }

    /** free_kpages. */
    method FreeKPages(first: nat)
      requires Valid() && first < coremap.Length && first + coremap[first].allocSize <= coremap.Length
      modifies coremap
      ensures Valid() && View() == KernelFree(old(View()), first)
    {
      var n := coremap[first].allocSize;
      for i := first to first + n
        invariant forall j :: 0 <= j < coremap.Length ==>
          coremap[j] == if first <= j < i then Entry(Free, old(coremap[j].vpn), 0) else old(coremap[j])
      {
        coremap[i] := Entry(Free, coremap[i].vpn, 0);
      }
    }
  }

  lemma FirstFreeIs(cm: seq<Entry>, n: nat, i: nat)
    requires IsFirstFreeRun(cm, n, i)
    ensures HasFreeRun(cm, n) && FirstFree(cm, n) == i
  {
    assert FreeRun(cm, i, n) && FreeRun(cm, FirstFree(cm, n), n);
  }
}
