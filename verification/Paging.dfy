/**
 Demand paging for one address space (kern/vm/vmc1.c, coremap.c, swapfile.c, vm_tlb.c), as
 functions from the state of the five structures (RAM, coremap, page table, swap slots, TLB)
 to their next state. Class VmMachine.Vm performs the same steps in place.
 Page-aligned addresses are kept as page numbers, physical addresses as frame numbers
 (0 is PFN_NOT_USED) and swap offsets as slot numbers (-1 is "not swapped").
 */
module Paging {
  import opened Prelude
  import opened Segments
  import opened Coremap

  const NUM_TLB: nat := 64
  /** FILE_SIZE / PAGE_SIZE: slots of the 9 MB swap file. */
  const NUM_PAGES: nat := 2304

  datatype Pte = Pte(frame: nat, slot: int)
  datatype SwapPage = SwapPage(free: bool, vpn: nat)
  datatype TlbEntry = TlbEntry(vpn: nat, frame: nat, writable: bool, valid: bool)

  datatype Stats = Stats(tlbFault: nat, tlbFree: nat, tlbReplace: nat, tlbInvalidate: nat, tlbReload: nat,
                         zero: nat, disk: nat, elfRead: nat, swapRead: nat, swapWrite: nat)

  datatype State = State(coremap: seq<Entry>, firstFree: nat, victim: nat, ram: seq<Page>,
                         pt: map<nat, Pte>, swapList: seq<SwapPage>, swapFile: seq<Page>,
                         tlb: seq<TlbEntry>, tlbVictim: nat, stats: Stats)

  // ---------------------------------------------------------------- the address space

  datatype AddrSpace = AddrSpace(code: Segment, data: Segment, stack: Segment)

  /** as_get_segment: both ends of a segment are included, and the first match wins. */
  function GetSegment(as_: AddrSpace, va: nat): Option<Segment> {
    if as_.code.vaddr <= va <= as_.code.vaddr + as_.code.memsz then Some(as_.code)
    else if as_.data.vaddr <= va <= as_.data.vaddr + as_.data.memsz then Some(as_.data)
    else if as_.stack.vaddr <= va <= USERSPACETOP then Some(as_.stack)
    else None
  }

  predicate InSegment(seg: Segment, p: nat) {
    seg.vaddr / PAGE_SIZE <= p && p * PAGE_SIZE < seg.vaddr + seg.memsz
  }

  predicate UserPage(as_: AddrSpace, p: nat) {
    InSegment(as_.code, p) || InSegment(as_.data, p) || InSegment(as_.stack, p)
  }

  function SegmentOf(as_: AddrSpace, p: nat): Segment
    requires UserPage(as_, p)
  {
    if InSegment(as_.code, p) then as_.code else if InSegment(as_.data, p) then as_.data else as_.stack
  }

  predicate Writable(seg: Segment) { seg.perm == PF_RW || seg.perm == PF_S || seg.perm == PF_W }

  predicate SegmentOk(seg: Segment) {
    Fits(seg) && seg.filesz <= seg.memsz && Compact(seg)
  }

  /** The pages of the addresses that as_get_segment attributes to seg: one more when the top is aligned. */
  predicate Reaches(seg: Segment, p: nat) {
    seg.vaddr / PAGE_SIZE <= p && p * PAGE_SIZE <= seg.vaddr + seg.memsz
  }

  /** The last address that as_get_segment attributes to the data segment is attributed to the code segment before. */
  predicate TopInCode(as_: AddrSpace) {
    as_.code.vaddr <= as_.data.vaddr + as_.data.memsz <= as_.code.vaddr + as_.code.memsz
  }

  /**
   No address that as_get_segment attributes to one segment lies in a page of another
   (SegmentLookup.OneSegmentPerPage: exactly when all addresses of a page get one segment).
   */
  ghost predicate PagesApart(as_: AddrSpace) {
    && (forall p :: Reaches(as_.code, p) ==> !InSegment(as_.data, p) && !InSegment(as_.stack, p))
    && (forall p :: Reaches(as_.data, p) ==> !InSegment(as_.stack, p) && (InSegment(as_.code, p) ==> TopInCode(as_)))
  }

  /** Page 0 is not mapped, only the stack has permission PF_S, and the pages of the segments are apart. */
  ghost predicate AddrSpaceOk(as_: AddrSpace) {
    && SegmentOk(as_.code) && SegmentOk(as_.data) && as_.stack == STACK_SEGMENT
    && as_.code.perm != PF_S && as_.data.perm != PF_S
    && !UserPage(as_, 0) && PagesApart(as_)
  }

  /** What user page p contains before anything is stored into it. */
  function Image(as_: AddrSpace, p: nat): Page
    requires UserPage(as_, p)
  {
    PageOf(SegmentOf(as_, p), p)
  }

  function PageOf(seg: Segment, p: nat): Page
    requires InSegment(seg, p)
  {
    PageImage(seg, p - seg.vaddr / PAGE_SIZE)
  }

  // ---------------------------------------------------------------- page table

  function PtFrame(pt: map<nat, Pte>, p: nat): nat { if p in pt then pt[p].frame else 0 }
  function PtSlot(pt: map<nat, Pte>, p: nat): int { if p in pt then pt[p].slot else -1 }
  function PtSetFrame(pt: map<nat, Pte>, p: nat, f: nat): map<nat, Pte> { pt[p := Pte(f, PtSlot(pt, p))] }
  function PtSetSlot(pt: map<nat, Pte>, p: nat, k: int): map<nat, Pte> { pt[p := Pte(PtFrame(pt, p), k)] }

  // ---------------------------------------------------------------- swap file

  /** The lowest free slot at or after k. */
  function FreeSlot(list: seq<SwapPage>, k: nat): (r: Option<nat>)
    requires k <= |list|
    ensures r.Some? ==> k <= r.value < |list| && list[r.value].free
    ensures r.Some? ==> forall i :: k <= i < r.value ==> !list[i].free
    ensures r.None? ==> forall i :: k <= i < |list| ==> !list[i].free
    decreases |list| - k
  {
    if k == |list| then None else if list[k].free then Some(k) else FreeSlot(list, k + 1)
  }

  // ---------------------------------------------------------------- TLB

  function TlbInvalid(i: nat): TlbEntry { TlbEntry(KERNEL_VPN + i, 0, false, false) }

  /** tlb_probe matches on the page number alone, valid or not. */
  function TlbProbe(tlb: seq<TlbEntry>, p: nat, i: nat): (r: Option<nat>)
    requires i <= |tlb|
    ensures r.Some? ==> i <= r.value < |tlb| && tlb[r.value].vpn == p
    ensures r.None? ==> forall j :: i <= j < |tlb| ==> tlb[j].vpn != p
    decreases |tlb| - i
  {
    if i == |tlb| then None else if tlb[i].vpn == p then Some(i) else TlbProbe(tlb, p, i + 1)
  }

  function TlbRemove(tlb: seq<TlbEntry>, p: nat): seq<TlbEntry> {
    match TlbProbe(tlb, p, 0)
    case None => tlb
    case Some(i) => tlb[i := TlbInvalid(i)]
  }

  // ---------------------------------------------------------------- eviction and allocation

  /** swap_out, the two page-table updates and tlb_remove_by_va. None: out of swap space (panic). */
  function Evict(s: State, f: nat): Option<State>
    requires f < |s.coremap| && f < |s.ram| && |s.swapList| == |s.swapFile|
  {
    match FreeSlot(s.swapList, 0)
    case None => None
    case Some(k) =>
      var q := s.coremap[f].vpn;
      Some(s.(swapFile := s.swapFile[k := s.ram[f]],
              swapList := s.swapList[k := SwapPage(false, q)],
              pt := PtSetFrame(PtSetSlot(s.pt, q, k), q, 0),
              tlb := TlbRemove(s.tlb, q),
              stats := s.stats.(swapWrite := s.stats.swapWrite + 1)))
  }

  ghost predicate HasVictim(s: State, size: nat) {
    Findable(s.coremap, s.victim, size)
  }

  /** The frame chosen by the victim search; used only when HasVictim. */
  ghost function VictimOf(s: State, size: nat): (v: nat)
    requires HasVictim(s, size)
    ensures IsVictim(s.coremap, s.victim, size, v)
  {
    var from := if SomeRun(s.coremap, s.victim, size) then s.victim else 1;
    FirstRun(s.coremap, from, size)
  }

  ghost function FirstRun(cm: seq<Entry>, from: nat, size: nat): (v: nat)
    requires SomeRun(cm, from, size)
    ensures IsFirstRun(cm, from, size, v)
    decreases |cm| - from
  {
    if VictimRun(cm, from, size) then from else FirstRun(cm, from + 1, size)
  }

  ghost predicate HasFreeRun(cm: seq<Entry>, n: nat) { exists i :: 0 <= i && FreeRun(cm, i, n) }

  ghost function FirstFree(cm: seq<Entry>, n: nat): (i: nat)
    requires HasFreeRun(cm, n)
    ensures IsFirstFreeRun(cm, n, i)
  {
    FirstFreeFrom(cm, n, 0)
  }

  ghost function FirstFreeFrom(cm: seq<Entry>, n: nat, from: nat): (i: nat)
    requires HasFreeRun(cm, n) && NoFreeRunBelow(cm, n, from)
    ensures IsFirstFreeRun(cm, n, i)
    decreases |cm| - from
  {
    if FreeRun(cm, from, n) then from else FirstFreeFrom(cm, n, from + 1)
  }

  ghost predicate NoFreeRunBelow(cm: seq<Entry>, n: nat, from: nat) {
    forall j :: j < from ==> !FreeRun(cm, j, n)
  }

  /** The state parts have the sizes the functions below index with. */
  predicate Sizes(s: State) {
    && |s.coremap| == |s.ram| > 2
    && |s.swapList| == |s.swapFile| == NUM_PAGES
    && |s.tlb| == NUM_TLB && s.tlbVictim < NUM_TLB && s.victim < |s.coremap|
  }

  /**
   getppage_user: a free frame, else a frame never used, else a victim's frame.
   None: no victim exists (the search never ends) or the swap file is full (panic).
   */
  ghost function AllocUser(s: State, p: nat): (r: Option<(State, nat)>)
    requires Sizes(s)
    ensures r.Some? ==> Sizes(r.value.0) && r.value.1 < |r.value.0.ram|
  {
    if HasFreeRun(s.coremap, 1) then
      var f := FirstFree(s.coremap, 1);
      Some((Assign(s, f, p), f))
    else if s.firstFree + 1 <= |s.coremap| then
      var f := s.firstFree;
      Some((Assign(s.(firstFree := s.firstFree + 1), f, p), f))
    else if !HasVictim(s, 1) then None
    else
      var f := VictimOf(s, 1);
      match Evict(s.(victim := f + 1), f)
      case None => None
      case Some(s') => Some((Assign(s', f, p), f))
  }

  function Assign(s: State, f: nat, p: nat): State
    requires f < |s.coremap|
  {
    s.(coremap := s.coremap[f := Entry(Dirty, p, 1)])
  }

  // ---------------------------------------------------------------- vm_fault

  datatype FaultKind = ReadFault | WriteFault | ReadOnlyFault | OtherFault

  /** Halt: the kernel panics (failed assertion, swap full) or the victim search never ends. */
  datatype FaultResult = Ok | EFAULT | EINVAL | EACCES | Halt

  function FillTlb(s: State, p: nat, f: nat, writable: bool): State
    requires s.tlbVictim < |s.tlb|
  {
    var v := s.tlbVictim;
    var st := s.stats.(tlbFault := s.stats.tlbFault + 1);
    s.(tlb := s.tlb[v := TlbEntry(p, f, writable, true)],
       tlbVictim := (v + 1) % NUM_TLB,
       stats := if s.tlb[v].valid then st.(tlbReplace := st.tlbReplace + 1) else st.(tlbFree := st.tlbFree + 1))
  }

  /** swap_in: the slot is given back before the page is read from it. */
  function SwapIn(s: State, f: nat, k: nat): State
    requires f < |s.ram| && k < |s.swapList| == |s.swapFile|
  {
    s.(swapList := s.swapList[k := SwapPage(true, 0)],
       ram := s.ram[f := s.swapFile[k]],
       stats := s.stats.(disk := s.stats.disk + 1, swapRead := s.stats.swapRead + 1))
  }

  function WriteFrame(s: State, f: nat, page: Page): State
    requires f < |s.ram|
  {
    s.(ram := s.ram[f := page])
  }

  /** The counters of a page built by seg_load_page: zeroed if no file byte belongs to it, else read from disk. */
  function ElfStats(st: Stats, seg: Segment, i: nat): Stats {
    if seg.filesz == 0 || seg.filesz + seg.vaddr % PAGE_SIZE <= i * PAGE_SIZE then st.(zero := st.zero + 1)
    else st.(disk := st.disk + 1, elfRead := st.elfRead + 1)
  }

  ghost function Fault(as_: AddrSpace, s: State, kind: FaultKind, va: nat): (State, FaultResult)
    requires Sizes(s)
  {
    match kind
    case ReadOnlyFault => (s, EACCES)
    case OtherFault => (s, EINVAL)
    case _ =>
      match GetSegment(as_, va)
      case None => (s, EFAULT)
      case Some(seg) =>
        SegmentFault(s, va, seg)
  }

  /** vm_fault once the segment is known. */
  ghost function SegmentFault(s: State, va: nat, seg: Segment): (State, FaultResult)
    requires Sizes(s)
  {
    var p := va / PAGE_SIZE;
    var s1 := if PtFrame(s.pt, p) > 0 then CountReload(s) else s;
    if PtFrame(s.pt, p) == 0 && PtSlot(s.pt, p) == -1 then NewPageFault(s1, p, va, seg)
    else if PtSlot(s.pt, p) >= 0 then SwapInFault(s1, p, seg)
    else (FillTlb(s1, p, PtFrame(s.pt, p), Writable(seg)), Ok)
  }

  function CountReload(s: State): State { s.(stats := s.stats.(tlbReload := s.stats.tlbReload + 1)) }

  ghost function SwapInFault(s: State, p: nat, seg: Segment): (State, FaultResult)
    requires Sizes(s) && PtSlot(s.pt, p) >= 0
  {
    match AllocUser(s, p)
    case None => (s, Halt)
    case Some((s2, f)) =>
      if PtSlot(s.pt, p) >= NUM_PAGES then (s2, Halt)
      else (FillTlb(MapSwapped(s2, p, f, PtSlot(s.pt, p)), p, f, Writable(seg)), Ok)
  }

  function MapSwapped(s: State, p: nat, f: nat, k: nat): State
    requires f < |s.ram| && k < |s.swapList| == |s.swapFile|
  {
    SetPt(SwapIn(s, f, k), PtSetFrame(PtSetSlot(s.pt, p, -1), p, f))
  }

  function SetPt(s: State, pt: map<nat, Pte>): State { s.(pt := pt) }

  ghost function NewPageFault(s: State, p: nat, va: nat, seg: Segment): (State, FaultResult)
    requires Sizes(s)
  {
    match AllocUser(s, p)
    case None => (s, Halt)
    case Some((s2, f)) => NewPage(SetPt(s2, PtSetFrame(s2.pt, p, f)), p, f, va, seg)
  }

  ghost function NewPage(s: State, p: nat, f: nat, va: nat, seg: Segment): (State, FaultResult)
    requires Sizes(s) && f < |s.ram|
  {
    if seg.perm == PF_S then (FillTlb(CountZero(WriteFrame(s, f, ZeroPage())), p, f, Writable(seg)), Ok)
    else if seg.vnode.NoVnode? || seg.vaddr > va || PageIndex(seg, va) >= NPages(seg, va) || !LoadSafe(seg, va) then (s, Halt)
    else ElfFault(s, p, f, seg, PageIndex(seg, va))
  }

  /** A short read leaves the page mapped but answers EFAULT before the TLB is written. */
  ghost function ElfFault(s: State, p: nat, f: nat, seg: Segment, i: nat): (State, FaultResult)
    requires Sizes(s) && f < |s.ram|
  {
    if !FileCovers(seg, i) then (ElfFill(s, f, seg, i), EFAULT)
    else (FillTlb(ElfFill(s, f, seg, i), p, f, Writable(seg)), Ok)
  }

  ghost function ElfFill(s: State, f: nat, seg: Segment, i: nat): State
    requires f < |s.ram|
  {
    CountElf(WriteFrame(s, f, PageImage(seg, i)), seg, i)
  }

  function CountElf(s: State, seg: Segment, i: nat): State { s.(stats := ElfStats(s.stats, seg, i)) }

  function CountZero(s: State): State { s.(stats := s.stats.(zero := s.stats.zero + 1)) }
}
