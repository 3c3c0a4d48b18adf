/**
 The counters of kern/vm/vmstats.c, fault by fault, and the round robin over the TLB slots: what each fault adds to each
 counter is told from the state before it, and after any run the cursor tells how many faults were served.
 */
module PagingCounters {
  import opened Prelude
  import opened Segments
  import opened Coremap
  import opened Paging
  import opened PagingAlloc
  import opened PagingInvariant
  import opened PagingFault
  import opened PagingKernel
  import opened PagingRuns
  import opened PagingOutcomes

  // ---------------------------------------------------------------- one fault

  function B(b: bool): nat { if b then 1 else 0 }

  /** Some byte of the page comes from the file. */
  ghost predicate TakesFileBytes(seg: Segment, p: nat) { exists x :: seg.vaddr <= x < seg.vaddr + seg.filesz && x / PAGE_SIZE == p }

  /** The fault has to move another page out. */
  ghost predicate Evicts(s: State, p: nat) { !Resident(s, p, {}) && !AnyFree(s) && s.firstFree >= |s.coremap| }

  /** TLB slot i held a page that the fault for p moved out, to the frame that p has now. */
  ghost predicate Vacated(s: State, s': State, p: nat, i: nat) {
    && Evicts(s, p) && i < |s.tlb| && p in s'.pt && s'.pt[p].frame < |s.coremap|
    && s.tlb[i].vpn == s.coremap[s'.pt[p].frame].vpn
  }

  /** The counters before and after a fault on page p of seg. served: it did not end in a short read. */
  ghost predicate Counted(s: State, s': State, p: nat, seg: Segment, served: bool) {
    var st, st' := s.stats, s'.stats;
    var fromFile := p !in s.pt && TakesFileBytes(seg, p);
    && st'.tlbReload == st.tlbReload + B(Resident(s, p, {}))
    && st'.swapRead == st.swapRead + B(Swapped(s, p))
    && st'.elfRead == st.elfRead + B(fromFile)
    && st'.disk == st.disk + B(Swapped(s, p)) + B(fromFile)
    && st'.zero == st.zero + B(p !in s.pt && !fromFile)
    && st'.swapWrite == st.swapWrite + B(Evicts(s, p))
    && st'.tlbFault == st.tlbFault + B(served)
    && st'.tlbInvalidate == st.tlbInvalidate
  }

  /** A served fault writes the slot at the cursor, free or not, and moves the cursor on; one that is not leaves it. */
  ghost predicate SlotsTaken(s: State, s': State, p: nat, seg: Segment, served: bool)
    requires Sizes(s)
  {
    var v := s.tlbVictim; var st, st' := s.stats, s'.stats; var free := !s.tlb[v].valid || Vacated(s, s', p, v);
    && |s'.tlb| == NUM_TLB && p in s'.pt
    && s'.tlbVictim == (v + B(served)) % NUM_TLB
    && (served ==> s'.tlb[v] == TlbEntry(p, s'.pt[p].frame, Writable(seg), true))
    && (forall i :: 0 <= i < NUM_TLB && !(served && i == v) ==>
          if Vacated(s, s', p, i) then !s'.tlb[i].valid else s'.tlb[i] == s.tlb[i])
    && st'.tlbFree == st.tlbFree + B(served && free)
    && st'.tlbReplace == st.tlbReplace + B(served && !free)
  }

  lemma FileBytes(seg: Segment, i: nat)
    ensures TakesFileBytes(seg, seg.vaddr / PAGE_SIZE + i) <==> !(seg.filesz == 0 || seg.filesz + seg.vaddr % PAGE_SIZE <= i * PAGE_SIZE)
  {
    var p := seg.vaddr / PAGE_SIZE + i;
    if !(seg.filesz == 0 || seg.filesz + seg.vaddr % PAGE_SIZE <= i * PAGE_SIZE) {
      var x := if i == 0 then seg.vaddr else p * PAGE_SIZE;
      assert x / PAGE_SIZE == p;
    }
  }

  /** What an allocation does to TLB and counters: at most the page it moves out loses its slot. */
  ghost predicate Made(s: State, s2: State, f: nat, p: nat)
    requires Sizes(s)
  {
    && Sizes(s2) && |s2.coremap| == |s.coremap| && f < |s.coremap| && s2.tlbVictim == s.tlbVictim
    && s2.stats == s.stats.(swapWrite := s.stats.swapWrite + B(Evicts(s, p)))
    && forall i :: 0 <= i < NUM_TLB ==>
         if Evicts(s, p) && s.tlb[i].vpn == s.coremap[f].vpn then !s2.tlb[i].valid else s2.tlb[i] == s.tlb[i]
  }

  lemma AllocMade(im: Layout, s: State, p: nat)
    requires LayoutOk(im) && Inv(im, s) && !Resident(s, p, {}) && AllocUser(s, p).Some?
    ensures Made(s, AllocUser(s, p).value.0, AllocUser(s, p).value.1, p)
  {
    AllocUserExactly(s, p);
    var (s2, f) := AllocUser(s, p).value;
    if Evicts(s, p) {
      DirtyFrame(im, s, f);
      TlbRemoveOk(im, s, s.coremap[f].vpn);
      RemovedIsInvalid(s.tlb, s.coremap[f].vpn);
    }
    hide AllocUser, FramesOk, PagesOk, SlotsOk, TlbOk, IsVictim, TlbRemove;
  }

  lemma RemovedIsInvalid(tlb: seq<TlbEntry>, q: nat)
    requires q < KERNEL_VPN && forall i, j :: 0 <= i < j < |tlb| ==> tlb[i].vpn != tlb[j].vpn
    ensures forall i :: 0 <= i < |tlb| && tlb[i].vpn == q ==> !TlbRemove(tlb, q)[i].valid
  {
  }

  lemma FaultCounts(as_: AddrSpace, im: Layout, s: State, va: nat, seg: Segment)
    requires AddrSpaceOk(as_) && im == LayoutOf(as_) && LayoutOk(im) && Inv(im, s) && va != USERSPACETOP
    requires GetSegment(as_, va) == Some(seg) && SegmentFault(s, va, seg).1 != Halt
    ensures var (s', r) := SegmentFault(s, va, seg); var p := va / PAGE_SIZE;
            Counted(s, s', p, seg, r == Ok) && SlotsTaken(s, s', p, seg, r == Ok)
  {
    var p := va / PAGE_SIZE;
    SegmentFaultCases(im, s, va, seg);
    PageTrichotomy(im, s, p);
    hide Inv, AddrSpaceOk, SegmentFault, NewPageFault, SwapInFault, Counted, SlotsTaken;
    if Resident(s, p, {}) {
      ReloadCounts(im, s, p, seg);
    } else if Swapped(s, p) {
      SwapInCounts(im, s, p, seg);
    } else {
      NewPageCounts(as_, im, s, va, seg);
    }
  }

  lemma ReloadCounts(im: Layout, s: State, p: nat, seg: Segment)
    requires Inv(im, s) && Resident(s, p, {})
    ensures var s' := FillTlb(CountReload(s), p, PtFrame(s.pt, p), Writable(seg));
            Counted(s, s', p, seg, true) && SlotsTaken(s, s', p, seg, true)
  {
    hide FramesOk, SlotsOk, TlbOk;
  }

  lemma SwapInCounts(im: Layout, s: State, p: nat, seg: Segment)
    requires LayoutOk(im) && Inv(im, s) && Swapped(s, p) && SwapInFault(s, p, seg).1 != Halt
    ensures var s' := SwapInFault(s, p, seg).0; Counted(s, s', p, seg, true) && SlotsTaken(s, s', p, seg, true)
    ensures SwapInFault(s, p, seg).1 == Ok
  {
    AllocMade(im, s, p);
    var (s2, f) := AllocUser(s, p).value;
    hide AllocUser, Inv, TakesFileBytes, SlotsTaken;
    FillCounts(s, s2, MapSwapped(s2, p, f, PtSlot(s.pt, p)), f, p, seg);
  }

  /** The TLB slot written at the end of a fault for which frame f was allocated. */
  lemma FillCounts(s: State, s2: State, s4: State, f: nat, p: nat, seg: Segment)
    requires Sizes(s) && Made(s, s2, f, p) && !Resident(s, p, {})
    requires s4.tlb == s2.tlb && s4.tlbVictim == s2.tlbVictim && p in s4.pt && s4.pt[p].frame == f
    requires s4.stats.tlbFree == s2.stats.tlbFree && s4.stats.tlbReplace == s2.stats.tlbReplace
    ensures SlotsTaken(s, FillTlb(s4, p, f, Writable(seg)), p, seg, true) && SlotsTaken(s, s4, p, seg, false)
  {
    hide AnyFree;
  }

  lemma NewPageCounts(as_: AddrSpace, im: Layout, s: State, va: nat, seg: Segment)
    requires AddrSpaceOk(as_) && im == LayoutOf(as_) && LayoutOk(im) && Inv(im, s) && va != USERSPACETOP
    requires GetSegment(as_, va) == Some(seg) && va / PAGE_SIZE !in s.pt && NewPageFault(s, va / PAGE_SIZE, va, seg).1 != Halt
    ensures var p := va / PAGE_SIZE; var (s', r) := NewPageFault(s, p, va, seg);
            Counted(s, s', p, seg, r == Ok) && SlotsTaken(s, s', p, seg, r == Ok)
  {
    var p := va / PAGE_SIZE;
    if !UserPage(as_, p) {
      AlignedTop(as_, va, seg);
      AlignedTopHalts(as_, s, va, seg);
    }
    AllocMade(im, s, p);
    var (s2, f) := AllocUser(s, p).value;
    hide AllocUser, Inv;
    FilledCounts(as_, s, s2, f, va, seg);
  }

  lemma FilledCounts(as_: AddrSpace, s: State, s2: State, f: nat, va: nat, seg: Segment)
    requires AddrSpaceOk(as_) && Sizes(s) && va != USERSPACETOP && GetSegment(as_, va) == Some(seg)
    requires var p := va / PAGE_SIZE; UserPage(as_, p) && p !in s.pt && Made(s, s2, f, p)
    requires var p := va / PAGE_SIZE; NewPage(SetPt(s2, PtSetFrame(s2.pt, p, f)), p, f, va, seg).1 != Halt
    ensures var p := va / PAGE_SIZE; var (s', r) := NewPage(SetPt(s2, PtSetFrame(s2.pt, p, f)), p, f, va, seg);
            Counted(s, s', p, seg, r == Ok) && SlotsTaken(s, s', p, seg, r == Ok)
  {
    var p := va / PAGE_SIZE;
    var s3 := SetPt(s2, PtSetFrame(s2.pt, p, f));
    NewPageCases(as_, s3, f, va, seg);
    StackTakesNothing(as_, va, seg);
    var i := PageIndex(seg, va);
    FileBytes(seg, i);
    hide AddrSpaceOk, GetSegment, NewPage, TakesFileBytes, SlotsTaken, Counted, FileCovers, Made, UserPage, FillTlb, CountZero, CountElf;
    var s4 := WriteFrame(s3, f, Image(as_, p));
    ZeroCounts(s, s2, s4, f, p, seg);
    ElfCounts(s, s2, s4, f, p, seg, i);
  }

  lemma ZeroCounts(s: State, s2: State, s4: State, f: nat, p: nat, seg: Segment)
    requires Sizes(s) && Made(s, s2, f, p) && p !in s.pt && s4.stats == s2.stats
    requires s4.tlb == s2.tlb && s4.tlbVictim == s2.tlbVictim && p in s4.pt && s4.pt[p].frame == f
    ensures var s' := FillTlb(CountZero(s4), p, f, Writable(seg));
            (!TakesFileBytes(seg, p) ==> Counted(s, s', p, seg, true)) && SlotsTaken(s, s', p, seg, true)
  {
    FillCounts(s, s2, CountZero(s4), f, p, seg);
    hide TakesFileBytes, SlotsTaken;
  }

  lemma ElfCounts(s: State, s2: State, s4: State, f: nat, p: nat, seg: Segment, i: nat)
    requires Sizes(s) && Made(s, s2, f, p) && p !in s.pt && s4.stats == s2.stats && p == seg.vaddr / PAGE_SIZE + i
    requires s4.tlb == s2.tlb && s4.tlbVictim == s2.tlbVictim && p in s4.pt && s4.pt[p].frame == f
    ensures var s5 := CountElf(s4, seg, i); var s' := FillTlb(s5, p, f, Writable(seg));
            && Counted(s, s', p, seg, true) && SlotsTaken(s, s', p, seg, true)
            && Counted(s, s5, p, seg, false) && SlotsTaken(s, s5, p, seg, false)
  {
    FileBytes(seg, i);
    FillCounts(s, s2, CountElf(s4, seg, i), f, p, seg);
    hide TakesFileBytes, SlotsTaken;
  }

  lemma StackTakesNothing(as_: AddrSpace, va: nat, seg: Segment)
    requires AddrSpaceOk(as_) && va != USERSPACETOP && GetSegment(as_, va) == Some(seg)
    ensures seg.perm == PF_S ==> seg.filesz == 0
  {
  }

  // ---------------------------------------------------------------- the cursor of the TLB over whole runs

  /** As many TLB slots as there were served faults lie between the two cursors, going round. */
  predicate Turned(s: State, s': State) {
    s.stats.tlbFault <= s'.stats.tlbFault && s'.tlbVictim == (s.tlbVictim + (s'.stats.tlbFault - s.stats.tlbFault)) % NUM_TLB
  }

  lemma TurnedTrans(a: State, b: State, c: State)
    requires Turned(a, b) && Turned(b, c)
    ensures Turned(a, c)
  {
  }

  lemma SameCursor(s: State, s': State)
    requires s.tlbVictim < NUM_TLB && s'.tlbVictim == s.tlbVictim && s'.stats.tlbFault == s.stats.tlbFault
    ensures Turned(s, s')
  {
  }

  lemma CountedTurns(s: State, s': State, p: nat, seg: Segment, served: bool)
    requires Sizes(s) && Counted(s, s', p, seg, served) && SlotsTaken(s, s', p, seg, served)
    ensures Turned(s, s')
  {
    hide TakesFileBytes, Evicts, Vacated;
  }

  lemma FaultTurns(as_: AddrSpace, im: Layout, s: State, kind: FaultKind, va: nat)
    requires AddrSpaceOk(as_) && im == LayoutOf(as_) && Inv(im, s) && va < USERSPACETOP
    ensures Sizes(s) && (Fault(as_, s, kind, va).1 != Halt ==> Turned(s, Fault(as_, s, kind, va).0))
  {
    InvSizes(im, s);
    LayoutOfOk(as_);
    SameCursor(s, s);
    hide Inv, AddrSpaceOk, SegmentFault, Counted, SlotsTaken, GetSegment, Turned, Sizes;
    if Fault(as_, s, kind, va).1 != Halt && (kind == ReadFault || kind == WriteFault) && GetSegment(as_, va).Some? {
      var seg := GetSegment(as_, va).value;
      FaultCounts(as_, im, s, va, seg);
      CountedTurns(s, SegmentFault(s, va, seg).0, va / PAGE_SIZE, seg, SegmentFault(s, va, seg).1 == Ok);
    }
  }

  lemma LoadTurns(as_: AddrSpace, im: Layout, s: State, va: nat)
    requires AddrSpaceOk(as_) && im == LayoutOf(as_) && Inv(im, s) && va < USERSPACETOP && Load(as_, s, va).1 != Refused(Halt)
    ensures Turned(s, Load(as_, s, va).0)
  {
    InvSizes(im, s);
    SameCursor(s, s);
    hide Inv, AddrSpaceOk, Fault, ReadHit, TlbHit, Turned;
    FaultTurns(as_, im, s, ReadFault, va);
  }

  lemma StoreTurns(as_: AddrSpace, im: Layout, s: State, va: nat, b: byte)
    requires AddrSpaceOk(as_) && im == LayoutOf(as_) && Inv(im, s) && va < USERSPACETOP && Store(as_, s, va, b).1 != Refused(Halt)
    ensures Turned(s, Store(as_, s, va, b).0)
  {
    InvSizes(im, s);
    hide Inv, AddrSpaceOk, Fault, WriteHit, Turned;
    WriteKeepsCursor(s, va, b);
    if TlbHit(s.tlb, va / PAGE_SIZE).None? {
      FaultTurns(as_, im, s, WriteFault, va);
      var s1 := Fault(as_, s, WriteFault, va).0;
      if Fault(as_, s, WriteFault, va).1 == Ok {
        FaultSizes(as_, s, WriteFault, va);
        WriteKeepsCursor(s1, va, b);
        TurnedTrans(s, s1, WriteHit(s1, va, b).0);
      }
    }
  }

  lemma WriteKeepsCursor(s: State, va: nat, b: byte)
    requires Sizes(s)
    ensures Turned(s, WriteHit(s, va, b).0)
  {
    hide Turned, TlbHit;
    SameCursor(s, WriteHit(s, va, b).0);
  }

  lemma StepTurns(as_: AddrSpace, im: Layout, m: Machine, op: Op)
    requires AddrSpaceOk(as_) && im == LayoutOf(as_) && Inv(im, m.s) && Enabled(m, op) && Step(as_, m, op).1 != HaltEv
    ensures Turned(m.s, Step(as_, m, op).0.s)
  {
    hide Inv, AddrSpaceOk, Load, Store, KernelAlloc, KernelFails, KernelGivesUp, EvictsOnlyDirty, MemoryFull, Marked, FreeSlots, Turned;
    match op {
      case LoadOp(va) => LoadTurns(as_, im, m.s, va);
      case StoreOp(va, b) => StoreTurns(as_, im, m.s, va, b);
      case KernelAllocOp(n, hasAs) =>
        KernelAllocExactly(m.s, n, hasAs);
        SameCursor(m.s, Step(as_, m, op).0.s);
      case _ => SameCursor(m.s, Step(as_, m, op).0.s);
    }
  }

  lemma {:induction false} RunTurns(as_: AddrSpace, im: Layout, m: Machine, ops: seq<Op>, past: seq<Event>)
    requires AddrSpaceOk(as_) && im == LayoutOf(as_) && RunInv(as_, im, m, past) && Legal(as_, m, ops)
    requires HaltEv !in Run(as_, m, ops)
    ensures Turned(m.s, Final(as_, m, ops).s)
    decreases |ops|
  {
    if ops != [] {
      var (m', e) := Step(as_, m, ops[0]);
      assert Run(as_, m, ops)[0] == e;
      hide Enabled, Step, AddrSpaceOk, Inv, Agrees, LiveOk, Accounting, Faithful, FreshBlock, Turned;
      StepOk(as_, im, m, ops[0], past);
      StepTurns(as_, im, m, ops[0]);
      RunTurns(as_, im, m', ops[1..], past + [e]);
      TurnedTrans(m.s, m'.s, Final(as_, m', ops[1..]).s);
    }
  }

  /** In every run from boot, the i-th served fault writes TLB slot number i, counted from where the cursor stood at boot. */
  lemma RoundRobin(as_: AddrSpace, m: Machine, ops: seq<Op>)
    requires AddrSpaceOk(as_) && Booted(m) && Legal(as_, m, ops) && HaltEv !in Run(as_, m, ops)
    ensures Turned(m.s, Final(as_, m, ops).s)
  {
    hide AddrSpaceOk, Booted, Legal, Run, Final, RunInv, Turned, LayoutOf;
    LayoutOfOk(as_);
    BootRunInv(as_, LayoutOf(as_), m);
    RunTurns(as_, LayoutOf(as_), m, ops, []);
  }
}
