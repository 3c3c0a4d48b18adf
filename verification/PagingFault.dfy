/** vm_fault keeps the paging invariant and every page's content, and counts what it did. */
module PagingFault {
  import opened Prelude
  import opened Segments
  import opened Coremap
  import opened Paging
  import opened PagingAlloc
  import opened PagingInvariant

  /** The three identities checked by print_all_statistics; `errors` counts faults ended by a short read. */
  predicate Accounting(st: Stats, errors: nat) {
    && st.tlbFault == st.tlbFree + st.tlbReplace
    && st.tlbFault + errors == st.tlbReload + st.zero + st.disk
    && st.disk == st.elfRead + st.swapRead
  }

  lemma InsideReaches(seg: Segment, p: nat)
    ensures InSegment(seg, p) ==> Reaches(seg, p)
  {
  }

  /** A fault address belongs to the segment of its page, unless it is an aligned segment top. */
  lemma FaultSegment(as_: AddrSpace, va: nat)
    requires AddrSpaceOk(as_) && va != USERSPACETOP && GetSegment(as_, va).Some?
    ensures var seg := GetSegment(as_, va).value; var p := va / PAGE_SIZE;
            && seg.vaddr <= va
            && (UserPage(as_, p) ==> SegmentOf(as_, p) == seg && InSegment(seg, p))
            && (!UserPage(as_, p) ==> seg.perm != PF_S && PageIndex(seg, va) >= NPages(seg, va))
  {
    var seg := GetSegment(as_, va).value;
    var p := va / PAGE_SIZE;
    if as_.code.vaddr <= va <= as_.code.vaddr + as_.code.memsz {
      assert Reaches(as_.code, p);
    } else if as_.data.vaddr <= va <= as_.data.vaddr + as_.data.memsz {
      assert Reaches(as_.data, p);
      InsideReaches(as_.code, p);
    } else {
      assert InSegment(as_.stack, p);
    }
  }

  /** Inside its segment every page can be loaded, whichever byte of it faulted. */
  lemma PageLoads(seg: Segment, va: nat)
    requires SegmentOk(seg) && seg.vaddr <= va && InSegment(seg, va / PAGE_SIZE)
    ensures PageIndex(seg, va) < NPages(seg, va) && LoadSafe(seg, va) && Clamped(seg, va) == seg
  {
  }

  lemma StackImageIsZero(as_: AddrSpace, p: nat)
    requires AddrSpaceOk(as_) && InSegment(as_.stack, p)
    ensures Image(as_, p) == ZeroPage()
  {
    InsideReaches(as_.code, p);
    InsideReaches(as_.data, p);
    var seg := as_.stack;
    var i := p - seg.vaddr / PAGE_SIZE;
    assert Image(as_, p) == PageImage(seg, i) && seg.vnode.NoVnode?;
    forall o | 0 <= o < PAGE_SIZE ensures PageImage(seg, i)[o] == 0 {
      assert PageImage(seg, i)[o] == ImageByte(seg, i * PAGE_SIZE + o - seg.vaddr % PAGE_SIZE);
    }
  }

  /** What the later theorems need to know about one fault. */
  ghost predicate FaultKeeps(im: Layout, s: State, s': State)
    requires Sizes(s)
  {
    Inv(im, s') && SameContents(im, s, s')
  }

  lemma NewPageOk(as_: AddrSpace, im: Layout, s: State, va: nat, seg: Segment, errors: nat)
    requires AddrSpaceOk(as_) && im == LayoutOf(as_) && LayoutOk(im) && Inv(im, s)
    requires va != USERSPACETOP && GetSegment(as_, va) == Some(seg)
    requires var p := va / PAGE_SIZE; p in im && p !in s.pt && !TlbMaps(s, p)
    requires Accounting(s.stats, errors)
    ensures var p := va / PAGE_SIZE; var (s', r) := NewPageFault(s, p, va, seg);
            && (r == Halt <==> NoFrame(s) || (seg.perm != PF_S && seg.vnode.NoVnode?))
            && (r != Halt ==> FaultKeeps(im, s, s'))
            && (r == Ok ==> TlbMaps(s', p) && Accounting(s'.stats, errors))
            && (r != Halt && r != Ok ==> r == EFAULT && Accounting(s'.stats, errors + 1))
  {
    hide AllocUser, FaultKeeps;
    var p := va / PAGE_SIZE;
    AllocUserOk(im, s, p);
    if !NoFrame(s) {
      var (s2, f) := AllocUser(s, p).value;
      NotInTlb(im, s, s2, p);
      FillNewOk(as_, im, s, s2, f, va, seg, errors);
    }
  }

  /** Whatever the segment, the frame of a new page is filled with the page's image. */
  lemma NewPageCases(as_: AddrSpace, s: State, f: nat, va: nat, seg: Segment)
    requires AddrSpaceOk(as_) && Sizes(s) && f < |s.ram|
    requires va != USERSPACETOP && GetSegment(as_, va) == Some(seg) && UserPage(as_, va / PAGE_SIZE)
    ensures var p := va / PAGE_SIZE; var i := PageIndex(seg, va); var w := Writable(seg);
            var s4 := WriteFrame(s, f, Image(as_, p));
            && seg.vaddr <= va && SegmentOf(as_, p) == seg
            && NewPage(s, p, f, va, seg) ==
               if seg.perm == PF_S then (FillTlb(CountZero(s4), p, f, w), Ok)
               else if seg.vnode.NoVnode? then (s, Halt)
               else if FileCovers(seg, i) then (FillTlb(CountElf(s4, seg, i), p, f, w), Ok)
               else (CountElf(s4, seg, i), EFAULT)
  {
    var p := va / PAGE_SIZE;
    FaultSegment(as_, va);
    if seg.perm == PF_S {
      StackImageIsZero(as_, p);
    } else {
      PageLoads(seg, va);
      assert Image(as_, p) == PageImage(seg, PageIndex(seg, va));
    }
  }

  lemma FillNewOk(as_: AddrSpace, im: Layout, s: State, s2: State, f: nat, va: nat, seg: Segment, errors: nat)
    requires AddrSpaceOk(as_) && im == LayoutOf(as_) && LayoutOk(im) && Sizes(s)
    requires va != USERSPACETOP && GetSegment(as_, va) == Some(seg) && va / PAGE_SIZE in im
    requires AllocatedFor(im, s, s2, va / PAGE_SIZE, f) && va / PAGE_SIZE !in s2.pt
    requires s2.stats == s.stats.(swapWrite := s2.stats.swapWrite) && Accounting(s.stats, errors)
    ensures var p := va / PAGE_SIZE; var (s', r) := NewPage(SetPt(s2, PtSetFrame(s2.pt, p, f)), p, f, va, seg);
            && (r == Halt <==> seg.perm != PF_S && seg.vnode.NoVnode?)
            && (r != Halt ==> FaultKeeps(im, s, s'))
            && (r == Ok ==> TlbMaps(s', p) && Accounting(s'.stats, errors))
            && (r != Halt && r != Ok ==> r == EFAULT && Accounting(s'.stats, errors + 1))
  {
    var p := va / PAGE_SIZE;
    var s3 := SetPt(s2, PtSetFrame(s2.pt, p, f));
    NewPageCases(as_, s3, f, va, seg);
    FaultWritable(as_, im, va, seg);
    FillZeroOk(im, s, s2, p, f, errors);
    FillElfOk(im, s, s2, p, f, seg, PageIndex(seg, va), errors);
  }

  lemma FillZeroOk(im: Layout, s: State, s2: State, p: nat, f: nat, errors: nat)
    requires LayoutOk(im) && Sizes(s) && p in im && AllocatedFor(im, s, s2, p, f) && p !in s2.pt
    requires s2.stats == s.stats.(swapWrite := s2.stats.swapWrite) && Accounting(s.stats, errors)
    ensures var s4 := CountZero(WriteFrame(SetPt(s2, PtSetFrame(s2.pt, p, f)), f, im[p].image));
            var s' := FillTlb(s4, p, f, im[p].writable);
            FaultKeeps(im, s, s') && TlbMaps(s', p) && Accounting(s'.stats, errors)
  {
    MappedNew(im, s, s2, p, f);
    var s4 := WriteFrame(SetPt(s2, PtSetFrame(s2.pt, p, f)), f, im[p].image);
    CountAndFill(im, s, s4, CountZero(s4).stats, p, f);
  }

  lemma FillElfOk(im: Layout, s: State, s2: State, p: nat, f: nat, seg: Segment, i: nat, errors: nat)
    requires LayoutOk(im) && Sizes(s) && p in im && AllocatedFor(im, s, s2, p, f) && p !in s2.pt
    requires s2.stats == s.stats.(swapWrite := s2.stats.swapWrite) && Accounting(s.stats, errors)
    ensures var s4 := CountElf(WriteFrame(SetPt(s2, PtSetFrame(s2.pt, p, f)), f, im[p].image), seg, i);
            var s' := FillTlb(s4, p, f, im[p].writable);
            && FaultKeeps(im, s, s4) && Accounting(s4.stats, errors + 1)
            && FaultKeeps(im, s, s') && TlbMaps(s', p) && Accounting(s'.stats, errors)
  {
    MappedNew(im, s, s2, p, f);
    var s4 := WriteFrame(SetPt(s2, PtSetFrame(s2.pt, p, f)), f, im[p].image);
    CountAndFill(im, s, s4, ElfStats(s4.stats, seg, i), p, f);
  }

  lemma MappedNew(im: Layout, s: State, s2: State, p: nat, f: nat)
    requires LayoutOk(im) && Sizes(s) && p in im && AllocatedFor(im, s, s2, p, f) && p !in s2.pt
    ensures var s4 := WriteFrame(SetPt(s2, PtSetFrame(s2.pt, p, f)), f, im[p].image);
            && Inv(im, s4) && SameContents(im, s, s4) && Resident(s4, p, {}) && s4.pt[p].frame == f
            && s4.tlb == s2.tlb && s4.stats == s2.stats
  {
    MapNewOk(im, s2, p, f);
    SameContentsTrans(im, s, s2, WriteFrame(SetPt(s2, PtSetFrame(s2.pt, p, f)), f, im[p].image));
  }

  /** s2 is s after a frame f was allocated for page p, which the TLB does not map. */
  ghost predicate AllocatedFor(im: Layout, s: State, s2: State, p: nat, f: nat)
    requires Sizes(s)
  {
    && InvX(im, s2, {f}) && SameContents(im, s, s2) && 0 < f < |s2.coremap| && s2.coremap[f] == Entry(Dirty, p, 1)
    && forall i :: 0 <= i < |s2.tlb| ==> s2.tlb[i].vpn != p
  }

  lemma SwapInOk(im: Layout, s: State, p: nat, seg: Segment, errors: nat)
    requires LayoutOk(im) && Inv(im, s) && p in im && im[p].writable == Writable(seg)
    requires Swapped(s, p) && !TlbMaps(s, p) && Accounting(s.stats, errors)
    ensures var (s', r) := SwapInFault(s, p, seg);
            && (r == Halt <==> NoFrame(s))
            && (r != Halt ==> r == Ok && FaultKeeps(im, s, s') && TlbMaps(s', p) && Accounting(s'.stats, errors))
  {
    hide AllocUser, FaultKeeps;
    AllocUserOk(im, s, p);
    if !NoFrame(s) {
      var (s2, f) := AllocUser(s, p).value;
      NotInTlb(im, s, s2, p);
      assert Swapped(s2, p) by { assert Resident(s2, p, {f}) || Swapped(s2, p); }
      FillSwappedOk(im, s, s2, p, f, errors);
    }
  }

  lemma FillSwappedOk(im: Layout, s: State, s2: State, p: nat, f: nat, errors: nat)
    requires LayoutOk(im) && Sizes(s) && p in im && AllocatedFor(im, s, s2, p, f) && Swapped(s2, p)
    requires s2.stats == s.stats.(swapWrite := s2.stats.swapWrite) && Accounting(s.stats, errors)
    ensures var s' := FillTlb(MapSwapped(s2, p, f, s2.pt[p].slot), p, f, im[p].writable);
            FaultKeeps(im, s, s') && TlbMaps(s', p) && Accounting(s'.stats, errors)
  {
    MapSwappedOk(im, s2, p, f);
    var s4 := MapSwapped(s2, p, f, s2.pt[p].slot);
    SameContentsTrans(im, s, s2, s4);
    CountAndFill(im, s, s4, s4.stats, p, f);
    assert s4.(stats := s4.stats) == s4;
  }

  /** Changing the counters and then loading the TLB, the common tail of every served fault. */
  lemma CountAndFill(im: Layout, s: State, s4: State, st: Stats, p: nat, f: nat)
    requires LayoutOk(im) && Sizes(s) && Inv(im, s4) && SameContents(im, s, s4)
    requires Resident(s4, p, {}) && s4.pt[p].frame == f
    requires forall i :: 0 <= i < |s4.tlb| ==> s4.tlb[i].vpn != p
    ensures var s5 := s4.(stats := st); var s' := FillTlb(s5, p, f, im[p].writable);
            && FaultKeeps(im, s, s5) && FaultKeeps(im, s, s') && TlbMaps(s', p)
            && Resident(s5, p, {}) && Resident(s', p, {})
  {
    var s5 := s4.(stats := st);
    StatsIrrelevant(im, s4, st);
    FillTlbOk(im, s5, p, f, im[p].writable);
    SameContentsTrans(im, s, s4, s5);
    SameContentsTrans(im, s, s5, FillTlb(s5, p, f, im[p].writable));
  }

  lemma SameContentsTrans(im: Layout, a: State, b: State, c: State)
    requires Sizes(a) && Sizes(b) && Sizes(c) && SameContents(im, a, b) && SameContents(im, b, c)
    ensures SameContents(im, a, c)
  {
  }

  lemma StatsIrrelevant(im: Layout, s: State, st: Stats)
    requires Inv(im, s)
    ensures Inv(im, s.(stats := st)) && SameContents(im, s, s.(stats := st))
  {
    var s' := s.(stats := st);
    forall q | q in s'.pt ensures q in im && (Resident(s', q, {}) || Swapped(s', q)) {
      assert Resident(s, q, {}) || Swapped(s, q);
    }
  }

  /** A page the TLB did not map is not mapped after an allocation either. */
  lemma NotInTlb(im: Layout, s: State, s2: State, p: nat)
    requires LayoutOk(im) && Sizes(s) && Sizes(s2) && TlbOk(im, s) && TlbOk(im, s2) && p < KERNEL_VPN && !TlbMaps(s, p)
    requires forall i :: 0 <= i < NUM_TLB && s2.tlb[i].vpn != s.tlb[i].vpn ==> !s2.tlb[i].valid
    ensures forall i :: 0 <= i < |s2.tlb| ==> s2.tlb[i].vpn != p
  {
    forall i | 0 <= i < |s2.tlb| ensures s2.tlb[i].vpn != p {
      assert s.tlb[i].valid || s.tlb[i].vpn == KERNEL_VPN + i;
    }
  }

  /** A TLB miss on a resident page only reloads the TLB. */
  lemma ReloadOk(im: Layout, s: State, p: nat, w: bool, errors: nat)
    requires LayoutOk(im) && Inv(im, s) && p in im && im[p].writable == w
    requires Resident(s, p, {}) && !TlbMaps(s, p) && Accounting(s.stats, errors)
    ensures var s' := FillTlb(CountReload(s), p, PtFrame(s.pt, p), w);
            FaultKeeps(im, s, s') && TlbMaps(s', p) && Accounting(s'.stats, errors)
  {
    NotInTlb(im, s, s, p);
    CountAndFill(im, s, s, CountReload(s).stats, p, s.pt[p].frame);
  }

  /** Which of its branches vm_fault takes. */
  lemma SegmentFaultCases(im: Layout, s: State, va: nat, seg: Segment)
    requires Inv(im, s)
    ensures var p := va / PAGE_SIZE;
            SegmentFault(s, va, seg) ==
              if Resident(s, p, {}) then (FillTlb(CountReload(s), p, PtFrame(s.pt, p), Writable(seg)), Ok)
              else if Swapped(s, p) then SwapInFault(s, p, seg)
              else NewPageFault(s, p, va, seg)
  {
    PageTrichotomy(im, s, va / PAGE_SIZE);
  }

  /** vm_fault in a known segment; progress is the first clause. */
  lemma SegmentFaultOk(as_: AddrSpace, im: Layout, s: State, va: nat, seg: Segment, errors: nat)
    requires AddrSpaceOk(as_) && im == LayoutOf(as_) && LayoutOk(im) && Inv(im, s) && Accounting(s.stats, errors)
    requires va != USERSPACETOP && GetSegment(as_, va) == Some(seg) && !TlbMaps(s, va / PAGE_SIZE)
    ensures var p := va / PAGE_SIZE; var (s', r) := SegmentFault(s, va, seg);
            && (r == Halt <==> !Resident(s, p, {}) && (NoFrame(s) || p !in im
                                                       || (p !in s.pt && seg.perm != PF_S && seg.vnode.NoVnode?)))
            && (r != Halt ==> FaultKeeps(im, s, s') && p in im)
            && (r == Ok ==> TlbMaps(s', p) && Accounting(s'.stats, errors))
            && (r != Halt && r != Ok ==> r == EFAULT && Accounting(s'.stats, errors + 1))
  {
    var p := va / PAGE_SIZE;
    SegmentFaultCases(im, s, va, seg);
    PageTrichotomy(im, s, p);
    FaultWritable(as_, im, va, seg);
    if Resident(s, p, {}) {
      ReloadOk(im, s, p, Writable(seg), errors);
    } else if Swapped(s, p) {
      SwapInOk(im, s, p, seg, errors);
    } else if p in im {
      NewPageOk(as_, im, s, va, seg, errors);
    } else {
      AlignedTop(as_, va, seg);
      AlignedTopHalts(as_, s, va, seg);
    }
  }

  lemma FaultWritable(as_: AddrSpace, im: Layout, va: nat, seg: Segment)
    requires AddrSpaceOk(as_) && im == LayoutOf(as_) && va != USERSPACETOP && GetSegment(as_, va) == Some(seg)
    ensures va / PAGE_SIZE in im ==> im[va / PAGE_SIZE].writable == Writable(seg)
  {
    FaultSegment(as_, va);
  }

  /** A fault address is in no user page exactly when it is the page-aligned top of its segment. */
  lemma AlignedTop(as_: AddrSpace, va: nat, seg: Segment)
    requires AddrSpaceOk(as_) && va != USERSPACETOP && GetSegment(as_, va) == Some(seg)
    ensures !UserPage(as_, va / PAGE_SIZE) <==> va == seg.vaddr + seg.memsz && va % PAGE_SIZE == 0
  {
    FaultSegment(as_, va);
    var p := va / PAGE_SIZE;
    if as_.code.vaddr <= va <= as_.code.vaddr + as_.code.memsz {
      assert Reaches(as_.code, p);
    } else if as_.data.vaddr <= va <= as_.data.vaddr + as_.data.memsz {
      assert Reaches(as_.data, p);
    }
  }

  /** A fault exactly at the page-aligned top of a segment fails the assertion on the page index. */
  lemma AlignedTopHalts(as_: AddrSpace, s: State, va: nat, seg: Segment)
    requires AddrSpaceOk(as_) && va != USERSPACETOP && GetSegment(as_, va) == Some(seg) && Sizes(s)
    requires va == seg.vaddr + seg.memsz && va % PAGE_SIZE == 0
    ensures NewPageFault(s, va / PAGE_SIZE, va, seg).1 == Halt && !UserPage(as_, va / PAGE_SIZE)
  {
    AlignedTop(as_, va, seg);
    FaultSegment(as_, va);
  }

  /** The whole of vm_fault, for a fault raised on a TLB miss. */
  lemma FaultOk(as_: AddrSpace, im: Layout, s: State, kind: FaultKind, va: nat, errors: nat)
    requires AddrSpaceOk(as_) && im == LayoutOf(as_) && Inv(im, s) && va != USERSPACETOP
    requires kind == ReadFault || kind == WriteFault ==> !TlbMaps(s, va / PAGE_SIZE)
    requires Accounting(s.stats, errors)
    ensures var p := va / PAGE_SIZE; var (s', r) := Fault(as_, s, kind, va);
            && (r != Halt ==> FaultKeeps(im, s, s'))
            && (r == Ok ==> p in im && TlbMaps(s', p) && Accounting(s'.stats, errors))
            && (r == EFAULT && GetSegment(as_, va).Some? ==> Accounting(s'.stats, errors + 1))
            && ((r == EFAULT && GetSegment(as_, va).None?) || r == EINVAL || r == EACCES ==> s' == s)
  {
    LayoutOfOk(as_);
    if (kind == ReadFault || kind == WriteFault) && GetSegment(as_, va).Some? {
      SegmentFaultOk(as_, im, s, va, GetSegment(as_, va).value, errors);
    }
  }
}
