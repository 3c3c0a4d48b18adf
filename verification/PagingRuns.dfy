/**
 Whole runs: user loads and stores that fault and evict, kernel allocations, releases and
 writes, and TLB flushes, in any order. Every load returns what a flat memory would.
 */
module PagingRuns {
  import opened Prelude
  import opened Segments
  import opened Coremap
  import opened Paging
  import opened PagingInvariant
  import opened PagingFault
  import opened PagingKernel

  // ---------------------------------------------------------------- user accesses

  datatype Access = Value(b: byte) | Stored | Refused(why: FaultResult)

  /** The valid TLB entry for page p. */
  function TlbHit(tlb: seq<TlbEntry>, p: nat): Option<TlbEntry> {
    match TlbProbe(tlb, p, 0)
    case None => None
    case Some(i) => if tlb[i].valid then Some(tlb[i]) else None
  }

  /** A load: on a TLB hit the byte is read from the frame; on a miss vm_fault runs and the load is retried. */
  ghost function Load(as_: AddrSpace, s: State, va: nat): (State, Access)
    requires Sizes(s)
  {
    var p := va / PAGE_SIZE;
    if TlbHit(s.tlb, p).Some? then (s, ReadHit(s, va))
    else
      var (s1, r) := Fault(as_, s, ReadFault, va);
      if r != Ok then (s1, Refused(r)) else (s1, ReadHit(s1, va))
  }

  function ReadHit(s: State, va: nat): Access {
    match TlbHit(s.tlb, va / PAGE_SIZE)
    case None => Refused(Ok)
    case Some(e) =>
      if e.frame < |s.ram| && va % PAGE_SIZE < |s.ram[e.frame]| then Value(s.ram[e.frame][va % PAGE_SIZE]) else Refused(Ok)
  }

  /** A store: as a load, but an entry without the write bit raises a read-only fault. */
  ghost function Store(as_: AddrSpace, s: State, va: nat, b: byte): (State, Access)
    requires Sizes(s)
  {
    var p := va / PAGE_SIZE;
    if TlbHit(s.tlb, p).Some? then WriteHit(s, va, b)
    else
      var (s1, r) := Fault(as_, s, WriteFault, va);
      if r != Ok then (s1, Refused(r)) else WriteHit(s1, va, b)
  }

  function WriteHit(s: State, va: nat, b: byte): (State, Access) {
    match TlbHit(s.tlb, va / PAGE_SIZE)
    case None => (s, Refused(Ok))
    case Some(e) =>
      if !e.writable then (s, Refused(EACCES))
      else if e.frame < |s.ram| && va % PAGE_SIZE < |s.ram[e.frame]|
      then (WriteFrame(s, e.frame, s.ram[e.frame][va % PAGE_SIZE := b]), Stored)
      else (s, Refused(Ok))
  }

  lemma HitOk(im: Layout, s: State, p: nat)
    requires Inv(im, s)
    ensures TlbHit(s.tlb, p).Some? <==> TlbMaps(s, p)
    ensures TlbHit(s.tlb, p).Some? ==>
              var e := TlbHit(s.tlb, p).value;
              p in im && Resident(s, p, {}) && e.frame == s.pt[p].frame && e.writable == im[p].writable
  {
    if TlbProbe(s.tlb, p, 0).Some? {
      var i := TlbProbe(s.tlb, p, 0).value;
      assert s.tlb[i].valid ==> TlbMaps(s, p);
    }
  }

  lemma ReadHitOk(im: Layout, s: State, va: nat)
    requires LayoutOk(im) && Inv(im, s) && TlbMaps(s, va / PAGE_SIZE)
    ensures va / PAGE_SIZE in im && |Content(im, s, va / PAGE_SIZE)| == PAGE_SIZE
    ensures ReadHit(s, va) == Value(Content(im, s, va / PAGE_SIZE)[va % PAGE_SIZE])
  {
    HitOk(im, s, va / PAGE_SIZE);
  }

  /** Content after a store of b at va. */
  ghost predicate Stores(im: Layout, s: State, s': State, va: nat, b: byte)
    requires Sizes(s) && Sizes(s')
  {
    var p := va / PAGE_SIZE;
    && p in im && im[p].writable && |Content(im, s, p)| == PAGE_SIZE
    && Content(im, s', p) == Content(im, s, p)[va % PAGE_SIZE := b]
    && forall q :: q in im && q != p ==> Content(im, s', q) == Content(im, s, q)
  }

  lemma WriteHitOk(im: Layout, s: State, va: nat, b: byte)
    requires LayoutOk(im) && Inv(im, s) && TlbMaps(s, va / PAGE_SIZE)
    ensures var (s', r) := WriteHit(s, va, b);
            && va / PAGE_SIZE in im && Inv(im, s') && s'.stats == s.stats
            && (if im[va / PAGE_SIZE].writable then r == Stored && Stores(im, s, s', va, b) else s' == s && r == Refused(EACCES))
  {
    var p := va / PAGE_SIZE;
    HitOk(im, s, p);
    if im[p].writable {
      var s' := WriteHit(s, va, b).0;
      forall q | q in s.pt ensures q in im && (Resident(s', q, {}) || Swapped(s', q)) {
        assert Resident(s, q, {}) || Swapped(s, q);
      }
      forall q | q in im && q != p ensures Content(im, s', q) == Content(im, s, q) {
        if q in s.pt {
          assert Resident(s, q, {}) || Swapped(s, q);
        }
      }
    }
  }

  /** A load that returns a value returns the byte of the flat memory. */
  lemma LoadOk(as_: AddrSpace, im: Layout, s: State, va: nat, errors: nat)
    requires AddrSpaceOk(as_) && im == LayoutOf(as_) && Inv(im, s) && va < USERSPACETOP && Accounting(s.stats, errors)
    ensures var (s', r) := Load(as_, s, va); var p := va / PAGE_SIZE;
            && Sizes(s') && (r != Refused(Halt) ==> Inv(im, s') && SameContents(im, s, s'))
            && (r.Value? ==> p in im && |Content(im, s, p)| == PAGE_SIZE && r.b == Content(im, s, p)[va % PAGE_SIZE])
            && r != Stored && r != Refused(Ok)
            && (r.Value? || (r == Refused(EFAULT) && GetSegment(as_, va).None?) ==> Accounting(s'.stats, errors))
            && (r == Refused(EFAULT) && GetSegment(as_, va).Some? ==> Accounting(s'.stats, errors + 1))
            && (r.Refused? ==> r.why == Halt || r.why == EFAULT)
  {
    hide Inv, SameContents, Fault, Content, Accounting;
    LayoutOfOk(as_);
    InvSizes(im, s);
    HitOk(im, s, va / PAGE_SIZE);
    if TlbMaps(s, va / PAGE_SIZE) {
      ReadHitOk(im, s, va);
      SameContentsRefl(im, s);
    } else {
      AccessFault(as_, im, s, ReadFault, va, errors);
      var (s1, r) := Fault(as_, s, ReadFault, va);
      if r == Ok {
        ReadHitOk(im, s1, va);
        ContentKept(im, s, s1, va / PAGE_SIZE);
        HitOk(im, s1, va / PAGE_SIZE);
      }
    }
  }

  /** FaultOk for the two kinds of fault a user access can raise. */
  lemma AccessFault(as_: AddrSpace, im: Layout, s: State, kind: FaultKind, va: nat, errors: nat)
    requires AddrSpaceOk(as_) && im == LayoutOf(as_) && Inv(im, s) && va < USERSPACETOP && Accounting(s.stats, errors)
    requires (kind == ReadFault || kind == WriteFault) && !TlbMaps(s, va / PAGE_SIZE)
    ensures var (s', r) := Fault(as_, s, kind, va);
            && Sizes(s') && (r == Ok || r == EFAULT || r == Halt)
            && (r != Halt ==> Inv(im, s') && SameContents(im, s, s'))
            && (r == Ok ==> va / PAGE_SIZE in im && TlbMaps(s', va / PAGE_SIZE) && Accounting(s'.stats, errors))
            && (r == EFAULT && GetSegment(as_, va).Some? ==> Accounting(s'.stats, errors + 1))
            && (r == EFAULT && GetSegment(as_, va).None? ==> s' == s)
  {
    InvSizes(im, s);
    hide Inv, SameContents, Accounting, Fault;
    FaultOk(as_, im, s, kind, va, errors);
    FaultSizes(as_, s, kind, va);
    FaultAnswers(as_, s, kind, va);
  }

  /** EACCES is the answer to a write to a read-only page and to nothing else, EINVAL to a fault of unknown kind. */
  lemma FaultAnswers(as_: AddrSpace, s: State, kind: FaultKind, va: nat)
    requires Sizes(s)
    ensures Fault(as_, s, kind, va).1 == EACCES <==> kind == ReadOnlyFault
    ensures Fault(as_, s, kind, va).1 == EINVAL <==> kind == OtherFault
  {
    hide AllocUser, FillTlb, ElfFill, FileCovers, LoadSafe;
  }

  lemma FaultSizes(as_: AddrSpace, s: State, kind: FaultKind, va: nat)
    requires Sizes(s)
    ensures Sizes(Fault(as_, s, kind, va).0)
  {
    hide SegmentFault, Sizes;
    if GetSegment(as_, va).Some? {
      SegmentFaultSizes(s, va, GetSegment(as_, va).value);
    }
  }

  lemma SegmentFaultSizes(s: State, va: nat, seg: Segment)
    requires Sizes(s)
    ensures Sizes(SegmentFault(s, va, seg).0)
  {
    hide AllocUser, NewPage;
    var p := va / PAGE_SIZE;
    var s1 := if PtFrame(s.pt, p) > 0 then CountReload(s) else s;
    if AllocUser(s1, p).Some? {
      var (s2, f) := AllocUser(s1, p).value;
      NewPageSizes(SetPt(s2, PtSetFrame(s2.pt, p, f)), p, f, va, seg);
    }
  }

  lemma NewPageSizes(s: State, p: nat, f: nat, va: nat, seg: Segment)
    requires Sizes(s) && f < |s.ram|
    ensures Sizes(NewPage(s, p, f, va, seg).0)
  {
    hide Fits, LoadSafe;
  }

  lemma ContentKept(im: Layout, s: State, s': State, p: nat)
    requires Sizes(s) && Sizes(s') && SameContents(im, s, s') && p in im
    ensures Content(im, s', p) == Content(im, s, p)
  {
  }

  /** A store that succeeds changes one byte of a writable page and nothing else; one that fails, nothing. */
  lemma StoreOk(as_: AddrSpace, im: Layout, s: State, va: nat, b: byte, errors: nat)
    requires AddrSpaceOk(as_) && im == LayoutOf(as_) && Inv(im, s) && va < USERSPACETOP && Accounting(s.stats, errors)
    ensures var (s', r) := Store(as_, s, va, b);
            && Sizes(s') && !r.Value?
            && (r != Refused(Halt) ==> Inv(im, s'))
            && (r == Stored ==> Stores(im, s, s', va, b))
            && (r.Refused? && r.why != Halt ==> SameContents(im, s, s'))
            && (r != Refused(EFAULT) && r != Refused(Halt) ==> Accounting(s'.stats, errors))
            && (r == Refused(EFAULT) && GetSegment(as_, va).None? ==> Accounting(s'.stats, errors))
            && (r == Refused(EFAULT) && GetSegment(as_, va).Some? ==> Accounting(s'.stats, errors + 1))
            && (r.Refused? ==> r.why == Halt || r.why == EFAULT || (r.why == EACCES && va / PAGE_SIZE in im && !im[va / PAGE_SIZE].writable))
  {
    hide Inv, SameContents, Fault, Content, Accounting, Stores, WriteHit;
    LayoutOfOk(as_);
    InvSizes(im, s);
    HitOk(im, s, va / PAGE_SIZE);
    if TlbMaps(s, va / PAGE_SIZE) {
      WriteHitOk(im, s, va, b);
      InvSizes(im, WriteHit(s, va, b).0);
      SameContentsRefl(im, s);
    } else {
      AccessFault(as_, im, s, WriteFault, va, errors);
      var (s1, r) := Fault(as_, s, WriteFault, va);
      if r == Ok {
        WriteHitOk(im, s1, va, b);
        InvSizes(im, WriteHit(s1, va, b).0);
        if im[va / PAGE_SIZE].writable {
          StoresAfter(im, s, s1, WriteHit(s1, va, b).0, va, b);
        }
      }
    }
  }

  lemma InvSizes(im: Layout, s: State)
    requires Inv(im, s)
    ensures Sizes(s)
  {
  }

  lemma StoresAfter(im: Layout, s: State, s1: State, s2: State, va: nat, b: byte)
    requires Sizes(s) && Sizes(s1) && Sizes(s2) && SameContents(im, s, s1) && Stores(im, s1, s2, va, b)
    ensures Stores(im, s, s2, va, b)
  {
  }

  // ---------------------------------------------------------------- TLB flush

  /** as_activate: every TLB slot is invalidated. */
  function Activate(s: State): State
  {
    s.(tlb := InvalidTlb(), stats := s.stats.(tlbInvalidate := s.stats.tlbInvalidate + 1))
  }

  function InvalidTlb(): seq<TlbEntry> { seq(NUM_TLB, (i: nat) => TlbInvalid(i)) }

  lemma ActivateOk(im: Layout, s: State)
    requires Inv(im, s)
    ensures Sizes(Activate(s)) && Inv(im, Activate(s)) && SameContents(im, s, Activate(s))
    ensures forall p :: !TlbMaps(Activate(s), p)
  {
    var s' := Activate(s);
    forall q | q in s.pt ensures q in im && (Resident(s', q, {}) || Swapped(s', q)) {
      assert Resident(s, q, {}) || Swapped(s, q);
    }
    assert forall i :: 0 <= i < NUM_TLB ==> s'.tlb[i] == TlbInvalid(i);
  }

  // ---------------------------------------------------------------- runs

  datatype Op =
    | LoadOp(va: nat)
    | StoreOp(va: nat, b: byte)
    | KernelAllocOp(n: nat, hasAs: bool)
    | KernelFreeOp(first: nat)
    | KernelStoreOp(frame: nat, page: Page)
    | ActivateOp

  /** What the run shows: the values loaded and stored, refusals, and kernel blocks. */
  datatype Event =
    | LoadEv(va: nat, b: byte)
    | StoreEv(va: nat, b: byte)
    | RefusedEv(va: nat, why: FaultResult)
    | AllocEv(first: nat, n: nat)
    | HaltEv
    | OtherEv

  /** The machine together with the kernel blocks that are live. */
  datatype Machine = Machine(s: State, live: map<nat, nat>)

  /** What the callers of each operation owe: user addresses, live blocks, and evictions of user pages only. */
  ghost predicate Enabled(m: Machine, op: Op) {
    Sizes(m.s) &&
    match op
    case LoadOp(va) => va < USERSPACETOP
    case StoreOp(va, _) => va < USERSPACETOP
    case KernelAllocOp(n, _) => 1 <= n && EvictsOnlyDirty(m.s, n)
    case KernelFreeOp(first) => first in m.live && first < |m.s.coremap|
    case KernelStoreOp(f, page) => f < |m.s.coremap| && m.s.coremap[f].status == Fixed && |page| == PAGE_SIZE
    case ActivateOp => true
  }

  function AccessEvent(va: nat, b: byte, r: Access): Event {
    match r
    case Value(v) => LoadEv(va, v)
    case Stored => StoreEv(va, b)
    case Refused(why) => if why == Halt then HaltEv else RefusedEv(va, why)
  }

  ghost function Step(as_: AddrSpace, m: Machine, op: Op): (Machine, Event)
    requires Enabled(m, op)
  {
    match op
    case LoadOp(va) => var (s', r) := Load(as_, m.s, va); (Machine(s', m.live), AccessEvent(va, 0, r))
    case StoreOp(va, b) => var (s', r) := Store(as_, m.s, va, b); (Machine(s', m.live), AccessEvent(va, b, r))
    case KernelAllocOp(n, hasAs) =>
      var (s', r) := KernelAlloc(m.s, n, hasAs);
      if r.Got? then (Machine(s', m.live[r.first := n]), AllocEv(r.first, n))
      else (Machine(s', m.live), if r.KernelHalt? then HaltEv else OtherEv)
    case KernelFreeOp(first) => (Machine(KernelFree(m.s, first), m.live - {first}), OtherEv)
    case KernelStoreOp(f, page) => (Machine(WriteFrame(m.s, f, page), m.live), OtherEv)
    case ActivateOp => (Machine(Activate(m.s), m.live), OtherEv)
  }

  /** Every operation is enabled when its turn comes. */
  ghost predicate Legal(as_: AddrSpace, m: Machine, ops: seq<Op>)
    decreases |ops|
  {
    ops == [] || (Enabled(m, ops[0]) &&
                  var (m', ev) := Step(as_, m, ops[0]);
                  ev == HaltEv || Legal(as_, m', ops[1..]))
  }

  /** The events of a run; it ends when the kernel halts. */
  ghost function Run(as_: AddrSpace, m: Machine, ops: seq<Op>): seq<Event>
    requires Legal(as_, m, ops)
    decreases |ops|
  {
    if ops == [] then []
    else
      var (m', ev) := Step(as_, m, ops[0]);
      if ev == HaltEv then [ev] else [ev] + Run(as_, m', ops[1..])
  }

  ghost function Final(as_: AddrSpace, m: Machine, ops: seq<Op>): Machine
    requires Legal(as_, m, ops)
    decreases |ops|
  {
    if ops == [] then m
    else
      var (m', ev) := Step(as_, m, ops[0]);
      if ev == HaltEv then m' else Final(as_, m', ops[1..])
  }

  /** The value a flat memory holds at va after these events: the last one stored, or the initial one. */
  function LastStored(evs: seq<Event>, va: nat, initial: byte): byte {
    if evs == [] then initial
    else
      var e := evs[|evs| - 1];
      if e.StoreEv? && e.va == va then e.b else LastStored(evs[..|evs| - 1], va, initial)
  }

  /** Faults that ended in a short read of the executable. */
  function ShortReads(as_: AddrSpace, evs: seq<Event>): nat {
    if evs == [] then 0
    else
      var e := evs[|evs| - 1];
      ShortReads(as_, evs[..|evs| - 1]) + if e.RefusedEv? && e.why == EFAULT && GetSegment(as_, e.va).Some? then 1 else 0
  }

  /** After coremap_init, as_create and as_activate. */
  ghost predicate Booted(m: Machine) {
    && Sizes(m.s) && 1 <= m.s.firstFree <= |m.s.coremap| && m.live == map[] && m.s.pt == map[]
    && (forall f :: 0 <= f < |m.s.coremap| ==> m.s.coremap[f] == Entry(Clean, 0, 0) && |m.s.ram[f]| == PAGE_SIZE)
    && (forall k :: 0 <= k < NUM_PAGES ==> m.s.swapList[k].free && |m.s.swapFile[k]| == PAGE_SIZE)
    && m.s.tlb == InvalidTlb() && Accounting(m.s.stats, 0)
  }

  lemma BootOk(im: Layout, m: Machine)
    requires LayoutOk(im) && Booted(m)
    ensures Inv(im, m.s) && LiveOk(m.s, m.live) && forall p :: p in im ==> Content(im, m.s, p) == im[p].image
  {
    assert forall i :: 0 <= i < NUM_TLB ==> m.s.tlb[i] == TlbInvalid(i);
  }

  /** The invariant of a run whose events so far are `past`. */
  ghost predicate RunInv(as_: AddrSpace, im: Layout, m: Machine, past: seq<Event>) {
    Sizes(m.s) && Inv(im, m.s) && LiveOk(m.s, m.live) && Accounting(m.s.stats, ShortReads(as_, past)) && Agrees(im, m.s, past)
  }

  /** The machine's contents are those of a flat memory. */
  ghost predicate Agrees(im: Layout, s: State, past: seq<Event>)
    requires Sizes(s)
  {
    forall p: nat, o: nat :: p in im && o < PAGE_SIZE ==> AgreesByte(im, s, past, p, o)
  }

  predicate AgreesByte(im: Layout, s: State, past: seq<Event>, p: nat, o: nat)
    requires Sizes(s) && p in im && o < PAGE_SIZE
  {
    |Content(im, s, p)| == PAGE_SIZE && Content(im, s, p)[o] == FlatByte(im, past, p, o)
  }

  function FlatByte(im: Layout, past: seq<Event>, p: nat, o: nat): byte
    requires p in im
  {
    LastStored(past, p * PAGE_SIZE + o, if o < |im[p].image| then im[p].image[o] else 0)
  }

  /** Event e is what a flat memory with history `past` allows. */
  ghost predicate Faithful(im: Layout, past: seq<Event>, e: Event) {
    && (e.LoadEv? ==> e.va / PAGE_SIZE in im && e.b == FlatByte(im, past, e.va / PAGE_SIZE, e.va % PAGE_SIZE))
    && (e.StoreEv? ==> e.va / PAGE_SIZE in im && im[e.va / PAGE_SIZE].writable)
  }

  // ---------------------------------------------------------------- one step of a run

  lemma AgreesSame(im: Layout, s: State, s': State, past: seq<Event>, e: Event)
    requires Sizes(s) && Sizes(s') && Agrees(im, s, past) && SameContents(im, s, s') && !e.StoreEv?
    ensures Agrees(im, s', past + [e])
  {
    hide Content;
    assert (past + [e])[..|past|] == past;
    forall p: nat, o: nat | p in im && o < PAGE_SIZE ensures AgreesByte(im, s', past + [e], p, o) {
      assert AgreesByte(im, s, past, p, o) && Content(im, s', p) == Content(im, s, p);
    }
  }

  lemma AgreesStore(im: Layout, s: State, s': State, past: seq<Event>, va: nat, b: byte)
    requires Sizes(s) && Sizes(s') && Agrees(im, s, past) && Stores(im, s, s', va, b)
    ensures Agrees(im, s', past + [StoreEv(va, b)])
  {
    hide Content;
    var evs := past + [StoreEv(va, b)];
    assert evs[..|past|] == past;
    forall p: nat, o: nat | p in im && o < PAGE_SIZE ensures AgreesByte(im, s', evs, p, o) {
      assert AgreesByte(im, s, past, p, o);
      assert p * PAGE_SIZE + o == va <==> p == va / PAGE_SIZE && o == va % PAGE_SIZE;
    }
  }

  lemma ShortReadsStep(as_: AddrSpace, past: seq<Event>, e: Event)
    ensures ShortReads(as_, past + [e]) ==
            ShortReads(as_, past) + if e.RefusedEv? && e.why == EFAULT && GetSegment(as_, e.va).Some? then 1 else 0
  {
    assert (past + [e])[..|past|] == past;
  }

  lemma LoadKeepsKernel(as_: AddrSpace, im: Layout, s: State, va: nat)
    requires Inv(im, s)
    ensures KernelKept(s, Load(as_, s, va).0)
  {
    hide Fault;
    FaultKeepsKernel(as_, im, s, ReadFault, va);
  }

  lemma StoreKeepsKernel(as_: AddrSpace, im: Layout, s: State, va: nat, b: byte, errors: nat)
    requires AddrSpaceOk(as_) && im == LayoutOf(as_) && Inv(im, s) && va < USERSPACETOP && Accounting(s.stats, errors)
    ensures Store(as_, s, va, b).1 != Refused(Halt) ==> KernelKept(s, Store(as_, s, va, b).0)
  {
    hide Fault;
    LayoutOfOk(as_);
    HitOk(im, s, va / PAGE_SIZE);
    if TlbMaps(s, va / PAGE_SIZE) {
      WriteHitKeepsKernel(im, s, va, b);
    } else {
      FaultKeepsKernel(as_, im, s, WriteFault, va);
      AccessFault(as_, im, s, WriteFault, va, errors);
      var (s1, r) := Fault(as_, s, WriteFault, va);
      if r == Ok {
        WriteHitKeepsKernel(im, s1, va, b);
      }
    }
  }

  lemma WriteHitKeepsKernel(im: Layout, s: State, va: nat, b: byte)
    requires Inv(im, s)
    ensures KernelKept(s, WriteHit(s, va, b).0)
  {
    HitOk(im, s, va / PAGE_SIZE);
  }

  /** The event of a kernel allocation names a block disjoint from every live one. */
  ghost predicate FreshBlock(live: map<nat, nat>, e: Event) {
    e.AllocEv? ==> forall b :: b in live ==> b + live[b] <= e.first || e.first + e.n <= b
  }

  ghost predicate StepKeeps(as_: AddrSpace, im: Layout, m: Machine, op: Op, past: seq<Event>)
    requires Enabled(m, op)
  {
    var (m', e) := Step(as_, m, op);
    (e == HaltEv || RunInv(as_, im, m', past + [e])) && Faithful(im, past, e) && FreshBlock(m.live, e)
  }

  lemma LoadStep(as_: AddrSpace, im: Layout, m: Machine, op: Op, past: seq<Event>)
    requires AddrSpaceOk(as_) && im == LayoutOf(as_) && RunInv(as_, im, m, past) && Enabled(m, op) && op.LoadOp?
    ensures StepKeeps(as_, im, m, op, past)
  {
    hide Inv, SameContents, Content, Load, Agrees, Accounting, LiveOk, KernelKept;
    var (m', e) := Step(as_, m, op);
    LoadOk(as_, im, m.s, op.va, ShortReads(as_, past));
    LoadKeepsKernel(as_, im, m.s, op.va);
    LiveKept(m.s, m'.s, m.live);
    ShortReadsStep(as_, past, e);
    if e != HaltEv {
      AgreesSame(im, m.s, m'.s, past, e);
    }
    if e.LoadEv? {
      AgreesAt(im, m.s, past, op.va);
    }
  }

  lemma AgreesAt(im: Layout, s: State, past: seq<Event>, va: nat)
    requires Sizes(s) && Agrees(im, s, past) && va / PAGE_SIZE in im
    ensures |Content(im, s, va / PAGE_SIZE)| == PAGE_SIZE
    ensures Content(im, s, va / PAGE_SIZE)[va % PAGE_SIZE] == FlatByte(im, past, va / PAGE_SIZE, va % PAGE_SIZE)
  {
    assert AgreesByte(im, s, past, va / PAGE_SIZE, va % PAGE_SIZE);
  }

  lemma StoreStep(as_: AddrSpace, im: Layout, m: Machine, op: Op, past: seq<Event>)
    requires AddrSpaceOk(as_) && im == LayoutOf(as_) && RunInv(as_, im, m, past) && Enabled(m, op) && op.StoreOp?
    ensures StepKeeps(as_, im, m, op, past)
  {
    hide Inv, SameContents, Content, Store, Agrees, Accounting, LiveOk, KernelKept, Stores, FlatByte;
    var (m', e) := Step(as_, m, op);
    StoreOk(as_, im, m.s, op.va, op.b, ShortReads(as_, past));
    StoreKeepsKernel(as_, im, m.s, op.va, op.b, ShortReads(as_, past));
    ShortReadsStep(as_, past, e);
    if e != HaltEv {
      LiveKept(m.s, m'.s, m.live);
    }
    if e.StoreEv? {
      StoresWritable(im, m.s, m'.s, op.va, op.b);
      AgreesStore(im, m.s, m'.s, past, op.va, op.b);
    } else if e != HaltEv {
      AgreesSame(im, m.s, m'.s, past, e);
    }
  }

  lemma StoresWritable(im: Layout, s: State, s': State, va: nat, b: byte)
    requires Sizes(s) && Sizes(s') && Stores(im, s, s', va, b)
    ensures va / PAGE_SIZE in im && im[va / PAGE_SIZE].writable
  {
  }

  lemma KernelAllocStep(as_: AddrSpace, im: Layout, m: Machine, op: Op, past: seq<Event>)
    requires LayoutOk(im) && RunInv(as_, im, m, past) && Enabled(m, op) && op.KernelAllocOp?
    ensures StepKeeps(as_, im, m, op, past)
  {
    hide Inv, SameContents, Content, KernelAlloc, Agrees, LiveOk, Allocated;
    var (m', e) := Step(as_, m, op);
    var (s', r) := KernelAlloc(m.s, op.n, op.hasAs);
    KernelAllocOk(im, m.s, op.n, op.hasAs);
    KernelAllocStats(m.s, op.n, op.hasAs);
    ShortReadsStep(as_, past, e);
    if r.Got? {
      KernelAllocLive(m.s, s', r.first, op.n, m.live);
    } else if r == NoMemory {
      CursorLive(m.s, s'.victim, m.live);
    }
    if e != HaltEv {
      InvSizes(im, s');
      AgreesSame(im, m.s, s', past, e);
    }
  }

  lemma CursorLive(s: State, c: nat, live: map<nat, nat>)
    requires LiveOk(s, live)
    ensures LiveOk(s.(victim := c), live)
  {
  }

  lemma KernelAllocStats(s: State, n: nat, hasAs: bool)
    requires Sizes(s) && n >= 1
    ensures KernelAlloc(s, n, hasAs).0.stats == s.stats.(swapWrite := KernelAlloc(s, n, hasAs).0.stats.swapWrite)
  {
    if MustEvict(s, n) && HasVictim(s, n) {
      EligibleRunBounds(s, VictimOf(s, n), n);
      EvictRunStats(s.(victim := VictimOf(s, n) + n), VictimOf(s, n), n);
    }
  }

  lemma {:induction false} EvictRunStats(s: State, first: nat, n: nat)
    requires Sizes(s) && first + n <= |s.coremap|
    ensures EvictRun(s, first, n).Some? ==>
              EvictRun(s, first, n).value.stats == s.stats.(swapWrite := EvictRun(s, first, n).value.stats.swapWrite)
    decreases n
  {
    if n > 0 && Evict(s, first).Some? {
      EvictRunStats(Evict(s, first).value, first + 1, n - 1);
    }
  }

  lemma OtherStep(as_: AddrSpace, im: Layout, m: Machine, op: Op, past: seq<Event>)
    requires LayoutOk(im) && RunInv(as_, im, m, past) && Enabled(m, op)
    requires op.KernelFreeOp? || op.KernelStoreOp? || op.ActivateOp?
    ensures StepKeeps(as_, im, m, op, past)
  {
    hide Inv, SameContents, Content, Agrees, LiveOk;
    var (m', e) := Step(as_, m, op);
    ShortReadsStep(as_, past, e);
    match op {
      case KernelFreeOp(first) => KernelFreeOk(im, m.s, first, m.live);
      case KernelStoreOp(f, page) =>
        KernelStoreOk(im, m.s, f, page);
        LiveIgnores(m.s, m'.s, m.live);
      case ActivateOp =>
        ActivateOk(im, m.s);
        LiveIgnores(m.s, m'.s, m.live);
    }
    InvSizes(im, m'.s);
    AgreesSame(im, m.s, m'.s, past, e);
  }

  lemma LiveIgnores(s: State, s': State, live: map<nat, nat>)
    requires LiveOk(s, live) && s'.coremap == s.coremap && s'.firstFree == s.firstFree
    ensures LiveOk(s', live)
  {
  }

  lemma StepOk(as_: AddrSpace, im: Layout, m: Machine, op: Op, past: seq<Event>)
    requires AddrSpaceOk(as_) && im == LayoutOf(as_) && RunInv(as_, im, m, past) && Enabled(m, op)
    ensures StepKeeps(as_, im, m, op, past)
  {
    hide RunInv, StepKeeps, Enabled;
    LayoutOfOk(as_);
    match op {
      case LoadOp(_) => LoadStep(as_, im, m, op, past);
      case StoreOp(_, _) => StoreStep(as_, im, m, op, past);
      case KernelAllocOp(_, _) => KernelAllocStep(as_, im, m, op, past);
      case _ => OtherStep(as_, im, m, op, past);
    }
  }

  // ---------------------------------------------------------------- the theorems

  lemma {:induction false} RunOk(as_: AddrSpace, im: Layout, m: Machine, ops: seq<Op>, past: seq<Event>)
    requires AddrSpaceOk(as_) && im == LayoutOf(as_) && RunInv(as_, im, m, past) && Legal(as_, m, ops)
    ensures var evs := Run(as_, m, ops);
            && (forall i :: 0 <= i < |evs| ==> Faithful(im, past + evs[..i], evs[i]))
            && (HaltEv in evs || RunInv(as_, im, Final(as_, m, ops), past + evs))
    decreases |ops|
  {
    hide RunInv, Enabled, Step, Faithful;
    var evs := Run(as_, m, ops);
    if ops == [] {
      assert past + evs == past;
    } else {
      StepOk(as_, im, m, ops[0], past);
      var (m', e) := Step(as_, m, ops[0]);
      assert evs[0] == e && past + evs[..0] == past;
      if e != HaltEv {
        RunOk(as_, im, m', ops[1..], past + [e]);
        var rest := Run(as_, m', ops[1..]);
        assert evs == [e] + rest;
        forall i | 0 < i < |evs| ensures Faithful(im, past + evs[..i], evs[i]) {
          assert past + evs[..i] == past + [e] + rest[..i - 1];
          assert evs[i] == rest[i - 1];
        }
        assert past + evs == past + [e] + rest;
        assert HaltEv in rest ==> HaltEv in evs;
      }
    }
  }

  /** Event e in terms of the address space: a load of the last byte stored, a store to a writable page, or neither. */
  predicate FlatEvent(as_: AddrSpace, past: seq<Event>, e: Event) {
    && (e.LoadEv? ==> UserPage(as_, e.va / PAGE_SIZE)
                      && e.b == LastStored(past, e.va, Image(as_, e.va / PAGE_SIZE)[e.va % PAGE_SIZE]))
    && (e.StoreEv? ==> UserPage(as_, e.va / PAGE_SIZE) && Writable(SegmentOf(as_, e.va / PAGE_SIZE)))
  }

  lemma FaithfulMeans(as_: AddrSpace, past: seq<Event>, e: Event)
    requires AddrSpaceOk(as_) && Faithful(LayoutOf(as_), past, e)
    ensures FlatEvent(as_, past, e)
  {
    hide AddrSpaceOk, LastStored;
    if e.LoadEv? {
      assert LayoutOf(as_)[e.va / PAGE_SIZE].image == Image(as_, e.va / PAGE_SIZE);
      assert e.va / PAGE_SIZE * PAGE_SIZE + e.va % PAGE_SIZE == e.va;
    }
  }

  /**
   Paging is transparent: in every run from boot, each load returns the last value stored at
   its address, or the address's initial byte, however pages were evicted and read back;
   stores only reach writable pages; and the fault counters stay consistent.
   */
  lemma PagingIsTransparent(as_: AddrSpace, m: Machine, ops: seq<Op>)
    requires AddrSpaceOk(as_) && Booted(m) && Legal(as_, m, ops)
    ensures var evs := Run(as_, m, ops);
            && (forall i :: 0 <= i < |evs| ==> FlatEvent(as_, evs[..i], evs[i]))
            && (HaltEv !in evs ==>
                  Inv(LayoutOf(as_), Final(as_, m, ops).s) && LiveOk(Final(as_, m, ops).s, Final(as_, m, ops).live)
                  && Accounting(Final(as_, m, ops).s.stats, ShortReads(as_, evs)))
  {
    hide Inv, LiveOk, Accounting, Run, Final, Legal, Agrees, Booted, Faithful, LayoutOf, AddrSpaceOk, FlatEvent;
    var im := LayoutOf(as_);
    LayoutOfOk(as_);
    BootRunInv(as_, im, m);
    RunOk(as_, im, m, ops, []);
    var evs := Run(as_, m, ops);
    assert [] + evs == evs;
    forall i | 0 <= i < |evs| ensures FlatEvent(as_, evs[..i], evs[i]) {
      assert [] + evs[..i] == evs[..i];
      FaithfulMeans(as_, evs[..i], evs[i]);
    }
  }

  lemma BootRunInv(as_: AddrSpace, im: Layout, m: Machine)
    requires LayoutOk(im) && Booted(m)
    ensures RunInv(as_, im, m, [])
  {
    BootOk(im, m);
  }

  /**
   In every state that a run from boot reaches, each page is untouched, in one frame or in one slot, and each dirty
   frame and each busy slot holds exactly the page it names.
   */
  lemma AlwaysOneToOne(as_: AddrSpace, m: Machine, ops: seq<Op>)
    requires AddrSpaceOk(as_) && Booted(m) && Legal(as_, m, ops) && HaltEv !in Run(as_, m, ops)
    ensures var s := Final(as_, m, ops).s;
            && Sizes(s) && OneToOne(s)
            && (forall p :: p in s.pt <==> Resident(s, p, {}) || Swapped(s, p))
            && (forall p :: !(Resident(s, p, {}) && Swapped(s, p)))
  {
    hide Inv, LiveOk, Booted, Legal, Run, Final, OneToOne, Resident, Swapped;
    PagingIsTransparent(as_, m, ops);
    var im, s := LayoutOf(as_), Final(as_, m, ops).s;
    InvSizes(im, s);
    Bijection(im, s);
    forall p: nat | true ensures (p in s.pt <==> Resident(s, p, {}) || Swapped(s, p)) && !(Resident(s, p, {}) && Swapped(s, p)) {
      PageTrichotomy(im, s, p);
    }
  }

  /** The warnings of print_all_statistics are unreachable in a run without short reads. */
  lemma StatisticsConsistent(as_: AddrSpace, m: Machine, ops: seq<Op>)
    requires AddrSpaceOk(as_) && Booted(m) && Legal(as_, m, ops)
    requires HaltEv !in Run(as_, m, ops) && ShortReads(as_, Run(as_, m, ops)) == 0
    ensures var st := Final(as_, m, ops).s.stats;
            && st.tlbFault == st.tlbFree + st.tlbReplace
            && st.tlbFault == st.tlbReload + st.zero + st.disk
            && st.disk == st.elfRead + st.swapRead
  {
    PagingIsTransparent(as_, m, ops);
  }
}
