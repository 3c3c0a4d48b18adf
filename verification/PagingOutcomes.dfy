/**
 What each operation of a run answers, told from the state it starts in: when the kernel halts, when an access is
 refused, and which frames an allocation for the kernel gets.
 */
module PagingOutcomes {
  import opened Prelude
  import opened Segments
  import opened Coremap
  import opened Paging
  import opened PagingAlloc
  import opened PagingInvariant
  import opened PagingFault
  import opened PagingKernel
  import opened PagingShortRead
  import opened PagingRuns

  // ---------------------------------------------------------------- allocations for the kernel

  function FreeSlots(list: seq<SwapPage>): set<int> { set k | 0 <= k < |list| && list[k].free }

  /** A run of n evictions succeeds exactly if n slots are free, and it uses them up. */
  lemma {:induction false} EvictRunExactly(s: State, first: nat, n: nat)
    requires Sizes(s) && first + n <= |s.coremap|
    ensures EvictRun(s, first, n).Some? <==> n <= |FreeSlots(s.swapList)|
    ensures EvictRun(s, first, n).Some? ==> UsedUp(s, EvictRun(s, first, n).value, n)
    decreases n
  {
    if n > 0 {
      OneSlotLess(s, first);
      if Evict(s, first).Some? {
        hide Evict;
        EvictRunExactly(Evict(s, first).value, first + 1, n - 1);
      }
    }
  }

  /** n more slots are busy; frames, cursors and the other counters are as before. */
  predicate UsedUp(s: State, s': State, n: nat) {
    && |FreeSlots(s'.swapList)| == |FreeSlots(s.swapList)| - n
    && s'.stats == s.stats.(swapWrite := s.stats.swapWrite + n)
    && s'.ram == s.ram && s'.victim == s.victim && s'.tlbVictim == s.tlbVictim
  }

  lemma OneSlotLess(s: State, f: nat)
    requires Sizes(s) && f < |s.coremap|
    ensures Evict(s, f).Some? <==> FreeSlots(s.swapList) != {}
    ensures Evict(s, f).Some? ==> Sizes(Evict(s, f).value) && Evict(s, f).value.coremap == s.coremap && UsedUp(s, Evict(s, f).value, 1)
  {
    if Evict(s, f).Some? {
      var k: int, s1 := FreeSlot(s.swapList, 0).value, Evict(s, f).value;
      assert k in FreeSlots(s.swapList) && FreeSlots(s1.swapList) == FreeSlots(s.swapList) - {k};
    }
  }

  /** No free run, and the frames never used do not suffice. */
  ghost predicate MemoryFull(s: State, n: nat) { !HasFreeRun(s.coremap, n) && s.firstFree + n > |s.coremap| }

  /** getppages panics or never ends: too few free slots for the victims, or no victims. */
  ghost predicate KernelFails(s: State, n: nat, hasAs: bool) {
    && MemoryFull(s, n)
    && if Findable(s.coremap, s.victim, n) then hasAs && n > |FreeSlots(s.swapList)| else hasAs || !Overlong(s.coremap, n)
  }

  /** getppages returns no frames: it would have to evict, but there is no address space. */
  ghost predicate KernelGivesUp(s: State, n: nat, hasAs: bool) {
    MemoryFull(s, n) && !hasAs && (Findable(s.coremap, s.victim, n) || Overlong(s.coremap, n))
  }

  /** The n frames from `first` on are the kernel's now, and no other entry differs. */
  predicate Marked(s: State, s': State, first: nat, n: nat) {
    && first + n <= |s.coremap| == |s'.coremap|
    && forall f :: 0 <= f < |s.coremap| ==>
         s'.coremap[f] == if first <= f < first + n then Entry(Fixed, s.coremap[f].vpn, if f == first then n else s.coremap[f].allocSize)
                          else s.coremap[f]
  }

  /** Which n frames: the lowest free run, else the first never used, else the victims. */
  ghost predicate KernelTook(s: State, s': State, first: nat, n: nat) {
    && Marked(s, s', first, n)
    && (HasFreeRun(s.coremap, n) ==> IsFirstFreeRun(s.coremap, n, first) && s' == s.(coremap := s'.coremap))
    && (!HasFreeRun(s.coremap, n) && !MemoryFull(s, n) ==>
          first == s.firstFree && s' == s.(coremap := s'.coremap, firstFree := first + n))
    && (MemoryFull(s, n) ==>
          && IsVictim(s.coremap, s.victim, n, first) && s'.victim == first + n && s'.firstFree == s.firstFree
          && UsedUp(s.(victim := first + n), s', n))
  }

  lemma MarkedByFix(s: State, first: nat, n: nat)
    requires first + n <= |s.coremap|
    ensures Marked(s, Fix(s, first, n), first, n)
  {
  }

  /** Every allocation for the kernel, from any state. */
  lemma KernelAllocExactly(s: State, n: nat, hasAs: bool)
    requires Sizes(s) && n >= 1
    ensures var (s', r) := KernelAlloc(s, n, hasAs);
            && (r == KernelHalt <==> KernelFails(s, n, hasAs))
            && (r == NoMemory <==> KernelGivesUp(s, n, hasAs))
            && (r == NoMemory ==> s' == s.(victim := s'.victim))
            && (r.Got? ==> KernelTook(s, s', r.first, n))
  {
    hide EvictRun, Fix, Marked, UsedUp, Overlong, HasFreeRun, IsFirstFreeRun, IsVictim;
    if HasFreeRun(s.coremap, n) {
      FromFreeRun(s, n);
    } else if s.firstFree + n <= |s.coremap| {
      FromUnusedFrames(s, n);
    } else if HasVictim(s, n) {
      FromVictims(s, n);
    }
  }

  lemma FromFreeRun(s: State, n: nat)
    requires Sizes(s) && n >= 1 && HasFreeRun(s.coremap, n)
    ensures var f := FirstFree(s.coremap, n); f + n <= |s.coremap| && KernelTook(s, Fix(s, f, n), f, n)
  {
    MarkedByFix(s, FirstFree(s.coremap, n), n);
    hide MarkFixed, Marked, HasFreeRun, FirstFreeFrom;
  }

  lemma FromUnusedFrames(s: State, n: nat)
    requires Sizes(s) && n >= 1 && !HasFreeRun(s.coremap, n) && s.firstFree + n <= |s.coremap|
    ensures KernelTook(s, Fix(s.(firstFree := s.firstFree + n), s.firstFree, n), s.firstFree, n)
  {
    MarkedByFix(s.(firstFree := s.firstFree + n), s.firstFree, n);
    hide MarkFixed, HasFreeRun;
  }

  lemma FromVictims(s: State, n: nat)
    requires Sizes(s) && n >= 1 && MemoryFull(s, n) && HasVictim(s, n)
    ensures var v := VictimOf(s, n); var s1 := s.(victim := v + n);
            && v + n < |s.coremap| && Sizes(s1)
            && (EvictRun(s1, v, n).Some? <==> n <= |FreeSlots(s.swapList)|)
            && (EvictRun(s1, v, n).Some? ==> KernelTook(s, Fix(EvictRun(s1, v, n).value, v, n), v, n))
  {
    var v := VictimOf(s, n);
    var s1 := s.(victim := v + n);
    EvictRunExactly(s1, v, n);
    if EvictRun(s1, v, n).Some? {
      MarkedByFix(EvictRun(s1, v, n).value, v, n);
    }
    hide MarkFixed, HasFreeRun, FreeSlots, EvictRun, FirstRun;
  }

  // ---------------------------------------------------------------- user accesses

  /**
   A TLB miss on a page that is not in memory, for which no frame can be had, or that the segment does not have
   (the aligned top), or that has to come from a segment without a file.
   */
  ghost predicate AccessHalts(as_: AddrSpace, s: State, va: nat) {
    var p := va / PAGE_SIZE; var found := GetSegment(as_, va);
    && !TlbMaps(s, p) && found.Some? && !Resident(s, p, {})
    && (NoFrame(s) || !UserPage(as_, p) || (p !in s.pt && found.value.perm != PF_S && found.value.vnode.NoVnode?))
  }

  /** A TLB miss on an address of no segment, or on a page whose file is too short. */
  ghost predicate AccessFaults(as_: AddrSpace, s: State, va: nat)
    requires Sizes(s)
  {
    !TlbMaps(s, va / PAGE_SIZE) && match GetSegment(as_, va) case None => true case Some(seg) => FileTooShort(as_, s, va, seg)
  }

  ghost predicate WritablePage(as_: AddrSpace, p: nat) { UserPage(as_, p) && Writable(SegmentOf(as_, p)) }

  lemma FaultExactly(as_: AddrSpace, im: Layout, s: State, kind: FaultKind, va: nat, errors: nat)
    requires AddrSpaceOk(as_) && im == LayoutOf(as_) && Inv(im, s) && va < USERSPACETOP && Accounting(s.stats, errors)
    requires (kind == ReadFault || kind == WriteFault) && !TlbMaps(s, va / PAGE_SIZE)
    ensures Sizes(s) && var r := Fault(as_, s, kind, va).1;
            && (r == Halt <==> AccessHalts(as_, s, va))
            && (r == EFAULT <==> AccessFaults(as_, s, va))
            && (r == Ok || r == Halt || r == EFAULT)
  {
    InvSizes(im, s);
    LayoutOfOk(as_);
    hide Inv, AddrSpaceOk, SegmentFault, FaultKeeps, FileTooShort, Accounting, NoFrame;
    FaultAnswers(as_, s, kind, va);
    if GetSegment(as_, va).Some? {
      var seg := GetSegment(as_, va).value;
      ShortReadExactly(as_, im, s, va, seg);
      SegmentFaultOk(as_, im, s, va, seg, errors);
    }
  }

  /** Every load, from every state of a run: halted, refused with EFAULT, or answered. */
  lemma LoadExactly(as_: AddrSpace, im: Layout, s: State, va: nat, errors: nat)
    requires AddrSpaceOk(as_) && im == LayoutOf(as_) && Inv(im, s) && va < USERSPACETOP && Accounting(s.stats, errors)
    ensures Sizes(s) && var r := Load(as_, s, va).1;
            && (r == Refused(Halt) <==> AccessHalts(as_, s, va))
            && (r == Refused(EFAULT) <==> AccessFaults(as_, s, va))
            && (r.Value? <==> !AccessHalts(as_, s, va) && !AccessFaults(as_, s, va))
  {
    hide Inv, AddrSpaceOk, Fault, FileTooShort, Accounting, NoFrame, ReadHit;
    InvSizes(im, s);
    HitOk(im, s, va / PAGE_SIZE);
    if TlbMaps(s, va / PAGE_SIZE) {
      LoadThrough(as_, im, s, va);
    } else {
      FaultExactly(as_, im, s, ReadFault, va, errors);
      AccessFault(as_, im, s, ReadFault, va, errors);
      var (s1, r) := Fault(as_, s, ReadFault, va);
      if r == Ok {
        LoadThrough(as_, im, s1, va);
      }
    }
  }

  /** Every store: halted, refused with EFAULT, refused with EACCES since the page is read-only, or done. */
  lemma StoreExactly(as_: AddrSpace, im: Layout, s: State, va: nat, b: byte, errors: nat)
    requires AddrSpaceOk(as_) && im == LayoutOf(as_) && Inv(im, s) && va < USERSPACETOP && Accounting(s.stats, errors)
    ensures Sizes(s) && var r := Store(as_, s, va, b).1;
            var served := !AccessHalts(as_, s, va) && !AccessFaults(as_, s, va);
            && (r == Refused(Halt) <==> AccessHalts(as_, s, va))
            && (r == Refused(EFAULT) <==> AccessFaults(as_, s, va))
            && (r == Refused(EACCES) <==> served && !WritablePage(as_, va / PAGE_SIZE))
            && (r == Stored <==> served && WritablePage(as_, va / PAGE_SIZE))
  {
    hide Inv, AddrSpaceOk, Fault, FileTooShort, Accounting, NoFrame, WriteHit, Stores;
    InvSizes(im, s);
    HitOk(im, s, va / PAGE_SIZE);
    StoreOk(as_, im, s, va, b, errors);
    if TlbMaps(s, va / PAGE_SIZE) {
      StoreThrough(as_, im, s, va, b);
    } else {
      FaultExactly(as_, im, s, WriteFault, va, errors);
      AccessFault(as_, im, s, WriteFault, va, errors);
      var (s1, r) := Fault(as_, s, WriteFault, va);
      if r == Ok {
        StoreThrough(as_, im, s1, va, b);
      }
    }
  }

  lemma LoadThrough(as_: AddrSpace, im: Layout, s: State, va: nat)
    requires AddrSpaceOk(as_) && im == LayoutOf(as_) && Inv(im, s) && TlbMaps(s, va / PAGE_SIZE)
    ensures ReadHit(s, va).Value?
  {
    hide Inv, AddrSpaceOk, ReadHit;
    LayoutOfOk(as_);
    ReadHitOk(im, s, va);
  }

  lemma StoreThrough(as_: AddrSpace, im: Layout, s: State, va: nat, b: byte)
    requires AddrSpaceOk(as_) && im == LayoutOf(as_) && Inv(im, s) && TlbMaps(s, va / PAGE_SIZE)
    ensures WriteHit(s, va, b).1 == if WritablePage(as_, va / PAGE_SIZE) then Stored else Refused(EACCES)
  {
    hide Inv, AddrSpaceOk;
    LayoutOfOk(as_);
    WriteHitOk(im, s, va, b);
  }

  // ---------------------------------------------------------------- every operation of every run

  /** Event e of operation op, told from the machine before it. */
  ghost predicate RightEvent(as_: AddrSpace, m: Machine, op: Op, e: Event)
    requires Enabled(m, op)
  {
    match op
    case LoadOp(va) =>
      && (e == HaltEv <==> AccessHalts(as_, m.s, va))
      && (e == RefusedEv(va, EFAULT) <==> AccessFaults(as_, m.s, va))
      && (e == HaltEv || e == RefusedEv(va, EFAULT) || (e.LoadEv? && e.va == va))
    case StoreOp(va, b) =>
      && (e == HaltEv <==> AccessHalts(as_, m.s, va))
      && (e == RefusedEv(va, EFAULT) <==> AccessFaults(as_, m.s, va))
      && (e != HaltEv && e != RefusedEv(va, EFAULT) ==>
            e == if WritablePage(as_, va / PAGE_SIZE) then StoreEv(va, b) else RefusedEv(va, EACCES))
    case KernelAllocOp(n, hasAs) =>
      && (e == HaltEv <==> KernelFails(m.s, n, hasAs))
      && (e == OtherEv <==> KernelGivesUp(m.s, n, hasAs))
      && (e == HaltEv || e == OtherEv || (e.AllocEv? && e.n == n))
    case _ => e == OtherEv
  }

  lemma StepExactly(as_: AddrSpace, im: Layout, m: Machine, op: Op, errors: nat)
    requires AddrSpaceOk(as_) && im == LayoutOf(as_) && Inv(im, m.s) && Accounting(m.s.stats, errors) && Enabled(m, op)
    ensures RightEvent(as_, m, op, Step(as_, m, op).1)
  {
    hide Inv, AddrSpaceOk, Accounting, AccessHalts, AccessFaults, KernelFails, KernelGivesUp, Load, Store, KernelAlloc,
         EvictsOnlyDirty, WritablePage, KernelTook;
    match op {
      case LoadOp(va) => LoadExactly(as_, im, m.s, va, errors);
        LoadOk(as_, im, m.s, va, errors);
      case StoreOp(va, b) => StoreExactly(as_, im, m.s, va, b, errors);
      case KernelAllocOp(n, hasAs) => KernelAllocExactly(m.s, n, hasAs);
      case _ =>
    }
  }

  /** A run goes on, by one event, as long as the kernel has not halted. */
  lemma {:induction false} OneMoreStep(as_: AddrSpace, m: Machine, ops: seq<Op>, op: Op)
    requires Legal(as_, m, ops) && HaltEv !in Run(as_, m, ops) && Enabled(Final(as_, m, ops), op)
    ensures Legal(as_, m, ops + [op])
    ensures var (m', e) := Step(as_, Final(as_, m, ops), op);
            Run(as_, m, ops + [op]) == Run(as_, m, ops) + [e] && Final(as_, m, ops + [op]) == m'
    decreases |ops|
  {
    hide Enabled, Step;
    var all := ops + [op];
    if ops == [] {
      assert all[0] == op && all[1..] == [];
    } else {
      var (m1, e1) := Step(as_, m, ops[0]);
      assert all[0] == ops[0] && all[1..] == ops[1..] + [op];
      assert Run(as_, m, ops)[0] == e1;
      assert Run(as_, m, ops)[1..] == Run(as_, m1, ops[1..]);
      OneMoreStep(as_, m1, ops[1..], op);
    }
  }

  /** After every run from boot, whatever comes next: the run grows by the event that RightEvent gives it. */
  lemma NextEventExactly(as_: AddrSpace, m: Machine, ops: seq<Op>, op: Op)
    requires AddrSpaceOk(as_) && Booted(m) && Legal(as_, m, ops) && HaltEv !in Run(as_, m, ops)
    requires Enabled(Final(as_, m, ops), op)
    ensures Legal(as_, m, ops + [op])
    ensures exists e :: Run(as_, m, ops + [op]) == Run(as_, m, ops) + [e] && RightEvent(as_, Final(as_, m, ops), op, e)
  {
    hide AddrSpaceOk, Booted, Inv, LiveOk, Accounting, Legal, Run, Final, Enabled, Step, RightEvent, LayoutOf, FlatEvent;
    PagingIsTransparent(as_, m, ops);
    var end := Final(as_, m, ops);
    OneMoreStep(as_, m, ops, op);
    StepExactly(as_, LayoutOf(as_), end, op, ShortReads(as_, Run(as_, m, ops)));
  }
}
