/**
 A fault that ends in a short read of the executable: exactly when it happens, and what it leaves behind.
 vm_fault returns after it has entered the page in the page table and filled the frame as far as the file goes.
 */
module PagingShortRead {
  import opened Prelude
  import opened Segments
  import opened Paging
  import opened PagingAlloc
  import opened PagingInvariant
  import opened PagingFault
  import opened PagingRuns

  /** An untouched file page gets a frame, and the file lacks one of the bytes the page takes from it. */
  ghost predicate FileTooShort(as_: AddrSpace, s: State, va: nat, seg: Segment)
    requires Sizes(s)
  {
    var p := va / PAGE_SIZE;
    && UserPage(as_, p) && p !in s.pt && !NoFrame(s)
    && seg.perm != PF_S && seg.vnode.File? && seg.vaddr <= va && !FileCovers(seg, PageIndex(seg, va))
  }

  /** The page is resident with its initial image, but not in the TLB. */
  predicate LeftMapped(as_: AddrSpace, s: State, p: nat) {
    && Sizes(s) && UserPage(as_, p) && Resident(s, p, {}) && s.pt[p].frame < |s.ram|
    && s.ram[s.pt[p].frame] == Image(as_, p) && forall i :: 0 <= i < |s.tlb| ==> s.tlb[i].vpn != p
  }

  /** vm_fault answers EFAULT for an address of a segment exactly when the file is too short, and then the page stays mapped. */
  lemma ShortReadExactly(as_: AddrSpace, im: Layout, s: State, va: nat, seg: Segment)
    requires AddrSpaceOk(as_) && im == LayoutOf(as_) && LayoutOk(im) && Inv(im, s)
    requires va != USERSPACETOP && GetSegment(as_, va) == Some(seg) && !TlbMaps(s, va / PAGE_SIZE)
    ensures var (s', r) := SegmentFault(s, va, seg);
            && (r == EFAULT <==> FileTooShort(as_, s, va, seg))
            && (r == EFAULT ==> LeftMapped(as_, s', va / PAGE_SIZE))
  {
    hide AllocUser, NewPage;
    var p := va / PAGE_SIZE;
    SegmentFaultCases(im, s, va, seg);
    PageTrichotomy(im, s, p);
    FaultSegment(as_, va);
    if p !in s.pt {
      if p in im {
        NewPageShort(as_, im, s, va, seg);
      } else {
        AlignedTop(as_, va, seg);
        AlignedTopHalts(as_, s, va, seg);
      }
    }
  }

  lemma NewPageShort(as_: AddrSpace, im: Layout, s: State, va: nat, seg: Segment)
    requires AddrSpaceOk(as_) && im == LayoutOf(as_) && LayoutOk(im) && Inv(im, s)
    requires va != USERSPACETOP && GetSegment(as_, va) == Some(seg) && !TlbMaps(s, va / PAGE_SIZE)
    requires va / PAGE_SIZE in im && va / PAGE_SIZE !in s.pt
    ensures var (s', r) := NewPageFault(s, va / PAGE_SIZE, va, seg);
            && (r == EFAULT <==> FileTooShort(as_, s, va, seg))
            && (r == EFAULT ==> LeftMapped(as_, s', va / PAGE_SIZE))
  {
    hide AllocUser, NewPage, FillTlb, AddrSpaceOk;
    var p := va / PAGE_SIZE;
    AllocUserOk(im, s, p);
    if !NoFrame(s) {
      var (s2, f) := AllocUser(s, p).value;
      NotInTlb(im, s, s2, p);
      FilledShort(as_, im, s, s2, f, va, seg);
    }
  }

  lemma FilledShort(as_: AddrSpace, im: Layout, s: State, s2: State, f: nat, va: nat, seg: Segment)
    requires AddrSpaceOk(as_) && im == LayoutOf(as_) && LayoutOk(im) && Sizes(s)
    requires va != USERSPACETOP && GetSegment(as_, va) == Some(seg) && va / PAGE_SIZE in im
    requires AllocatedFor(im, s, s2, va / PAGE_SIZE, f) && va / PAGE_SIZE !in s2.pt
    ensures var p := va / PAGE_SIZE; var (s', r) := NewPage(SetPt(s2, PtSetFrame(s2.pt, p, f)), p, f, va, seg);
            && seg.vaddr <= va && (r == EFAULT <==> seg.perm != PF_S && seg.vnode.File? && !FileCovers(seg, PageIndex(seg, va)))
            && (r == EFAULT ==> LeftMapped(as_, s', p))
  {
    hide NewPage, FillTlb, FileCovers;
    var p := va / PAGE_SIZE;
    MappedNew(im, s, s2, p, f);
    NewPageCases(as_, SetPt(s2, PtSetFrame(s2.pt, p, f)), f, va, seg);
    hide AddrSpaceOk, GetSegment;
  }

  /** The bytes the file lacks are zero in the image. */
  lemma MissingBytesAreZero(seg: Segment, i: nat, o: nat)
    requires seg.vnode.File? && o < PAGE_SIZE && !FileHas(seg, i, o)
    ensures PageImage(seg, i)[o] == 0
  {
    assert PageImage(seg, i)[o] == ImageByte(seg, i * PAGE_SIZE + o - seg.vaddr % PAGE_SIZE);
  }

  /** The next fault on a page left mapped is served, and from memory: the refusal is not repeated. */
  lemma NextFaultServed(as_: AddrSpace, im: Layout, s: State, va: nat, seg: Segment)
    requires AddrSpaceOk(as_) && im == LayoutOf(as_) && LayoutOk(im) && Inv(im, s)
    requires va != USERSPACETOP && GetSegment(as_, va) == Some(seg) && LeftMapped(as_, s, va / PAGE_SIZE)
    ensures SegmentFault(s, va, seg).1 == Ok && !FileTooShort(as_, s, va, seg)
  {
    SegmentFaultCases(im, s, va, seg);
  }

  /**
   A program whose one-page code segment was cut off in the file: the first load of a missing byte is refused,
   the second returns zero.
   */
  lemma TruncatedFileExample(file: seq<byte>, m: Machine)
    requires |file| < 0x1000 && Booted(m) && m.s.firstFree < |m.s.coremap|
    ensures var code := Segment(0, 0x40_0000, 0x1000, 0x1000, 0x5, File(file));
            var as_ := AddrSpace(code, Segment(0, 0x50_0000, 0, 0, PF_RW, NoVnode), STACK_SEGMENT);
            && AddrSpaceOk(as_) && Sizes(m.s)
            && var (s1, first) := Load(as_, m.s, 0x40_0fff);
               first == Refused(EFAULT) && Sizes(s1) && Load(as_, s1, 0x40_0fff).1 == Value(0)
  {
    var code := Segment(0, 0x40_0000, 0x1000, 0x1000, 0x5, File(file));
    var as_ := AddrSpace(code, Segment(0, 0x50_0000, 0, 0, PF_RW, NoVnode), STACK_SEGMENT);
    ExampleSpace(as_);
    hide AddrSpaceOk, Booted, Load;
    assert GetSegment(as_, 0x40_0fff) == Some(code) && !FileHas(code, 0, 0xfff);
    MissingBytesAreZero(code, 0, 0xfff);
    TwoLoads(as_, m, 0x40_0fff, code);
  }

  /** Any byte of an untouched page whose file is too short: refused once, then read from memory. */
  lemma TwoLoads(as_: AddrSpace, m: Machine, va: nat, seg: Segment)
    requires AddrSpaceOk(as_) && Booted(m) && m.s.firstFree < |m.s.coremap| && va < USERSPACETOP
    requires GetSegment(as_, va) == Some(seg) && seg.perm != PF_S && seg.vnode.File? && InSegment(seg, va / PAGE_SIZE)
    requires seg.vaddr <= va && !FileCovers(seg, PageIndex(seg, va))
    ensures Sizes(m.s) && UserPage(as_, va / PAGE_SIZE) && SegmentOf(as_, va / PAGE_SIZE) == seg
    ensures var (s1, first) := Load(as_, m.s, va);
            && first == Refused(EFAULT) && Sizes(s1)
            && Load(as_, s1, va).1 == Value(Image(as_, va / PAGE_SIZE)[va % PAGE_SIZE])
  {
    hide AllocUser, FileCovers, Load;
    var im, p := LayoutOf(as_), va / PAGE_SIZE;
    LayoutOfOk(as_);
    BootOk(im, m);
    NothingTouched(m, p);
    FaultSegment(as_, va);
    hide Booted, Inv, AddrSpaceOk;
    InvSizes(im, m.s);
    FirstLoad(as_, im, m.s, va, seg, 0);
    SecondLoad(as_, im, Load(as_, m.s, va).0, va, seg, 1);
  }

  lemma FirstLoad(as_: AddrSpace, im: Layout, s: State, va: nat, seg: Segment, errors: nat)
    requires AddrSpaceOk(as_) && im == LayoutOf(as_) && LayoutOk(im) && Inv(im, s) && va < USERSPACETOP && Accounting(s.stats, errors)
    requires GetSegment(as_, va) == Some(seg) && FileTooShort(as_, s, va, seg) && !TlbMaps(s, va / PAGE_SIZE)
    ensures var (s1, r) := Load(as_, s, va);
            r == Refused(EFAULT) && Inv(im, s1) && LeftMapped(as_, s1, va / PAGE_SIZE) && Accounting(s1.stats, errors + 1)
  {
    hide SegmentFault, ReadHit, FileTooShort, LeftMapped, Inv, AddrSpaceOk;
    InvSizes(im, s);
    HitOk(im, s, va / PAGE_SIZE);
    LoadOk(as_, im, s, va, errors);
    ShortReadExactly(as_, im, s, va, seg);
  }

  lemma ExampleSpace(as_: AddrSpace)
    requires as_.code.vaddr == 0x40_0000 && as_.code.memsz == as_.code.filesz == 0x1000 && as_.code.perm == 0x5
    requires as_.data == Segment(0, 0x50_0000, 0, 0, PF_RW, NoVnode) && as_.stack == STACK_SEGMENT
    ensures AddrSpaceOk(as_)
  {
  }

  lemma NothingTouched(m: Machine, p: nat)
    requires Booted(m) && m.s.firstFree < |m.s.coremap| && p < KERNEL_VPN
    ensures p !in m.s.pt && !TlbMaps(m.s, p) && !NoFrame(m.s)
  {
    forall i | 0 <= i < NUM_TLB ensures !m.s.tlb[i].valid {
      assert m.s.tlb[i] == TlbInvalid(i);
    }
  }

  lemma SecondLoad(as_: AddrSpace, im: Layout, s: State, va: nat, seg: Segment, errors: nat)
    requires AddrSpaceOk(as_) && im == LayoutOf(as_) && LayoutOk(im) && Inv(im, s) && va < USERSPACETOP
    requires GetSegment(as_, va) == Some(seg) && LeftMapped(as_, s, va / PAGE_SIZE) && Accounting(s.stats, errors)
    ensures Load(as_, s, va).1 == Value(Image(as_, va / PAGE_SIZE)[va % PAGE_SIZE])
  {
    hide SegmentFault;
    NextFaultServed(as_, im, s, va, seg);
    LoadOk(as_, im, s, va, errors);
    MissesTlb(s, va / PAGE_SIZE);
  }

  lemma MissesTlb(s: State, p: nat)
    requires forall i :: 0 <= i < |s.tlb| ==> s.tlb[i].vpn != p
    ensures TlbHit(s.tlb, p) == None
  {
  }
}
