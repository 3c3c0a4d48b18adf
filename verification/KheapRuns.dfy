/**
 Runs of the kernel heap: the critical sections of any number of kmalloc and kfree calls,
 interleaved in any order, with any pages from alloc_kpages and any failures to get one.
 */
module KheapRuns {
  import opened Prelude
  import opened Kheap
  import opened KheapInvariant
  import opened KheapCalls

  /** Where a block handed out lives: block i of the page of pageref r, or pages of its own. */
  datatype Owner = Sub(r: nat, i: nat) | Whole

  datatype Loan = Loan(owner: Owner, size: nat)

  /**
   reserved: pagerefs marked in the bitmap but not on a page (yet, or for ever when no pageref page came);
   pages: single pages obtained from alloc_kpages, not yet put to use; live: the blocks clients hold.
   */
  datatype State = State(h: Heap, reserved: set<nat>, pages: set<nat>, live: map<nat, Loan>)

  /** The steps; each is one critical section of the heap lock or one call to the page allocator. */
  datatype Op =
    | GetPage(va: nat)
    | DropPage(va: nat)
    | Reserve(r: nat)
    | Install(w: nat, va: nat)
    | TakeFrom(size: nat)
    | LinkNew(r: nat, va: nat, size: nat)
    | BigAlloc(va: nat, size: nat)
    | Free(a: nat)

  function BlockType(sz: nat): (b: nat)
    requires sz <= LARGEST_SUBPAGE
    ensures IsBlockType(sz, b)
  {
    if sz <= 16 then 0 else if sz <= 32 then 1 else if sz <= 64 then 2 else if sz <= 128 then 3
    else if sz <= 256 then 4 else if sz <= 512 then 5 else if sz <= 1024 then 6 else 7
  }

  function PagesFor(size: nat): nat { (size + PAGE_SIZE - 1) / PAGE_SIZE }

  function Booted(): State {
    State(Heap(map[], seq(NSIZES, _ => []), [], seq(NUM_ROOTS, _ => Root(0, seq(REFS_PER_PAGE, _ => false), 0)), map[]),
          {}, {}, map[])
  }

  predicate Shaped(h: Heap) { RootsOk(h) && |h.bySize| == NSIZES }

  /** kfree: a block on a heap page goes back to its page, anything else must be pages of their own. */
  ghost predicate Freed(h: Heap, a: nat, h': Heap)
    requires Shaped(h)
  {
    match FindPage(h, h.all, a)
    case Some(r) =>
      && r in h.recs && r < TOTAL_REFS && h.recs[r].blk < NSIZES && h.recs[r].addr <= a
      && (a - h.recs[r].addr) % SizeOf(h.recs[r].blk) == 0
      && h' == FreeBlock(h, r, (a - h.recs[r].addr) / SizeOf(h.recs[r].blk))
    case None => a % PAGE_SIZE == 0 && a in h.big && h' == h.(big := h.big - {a})
  }

  /** What the callers and the page allocator owe: fresh pages, and only live blocks freed. */
  ghost predicate Allowed(s: State, op: Op) {
    match op
    case GetPage(va) => FreshRange(s.h, va, 1) && va !in s.pages
    case BigAlloc(va, size) =>
      && size >= LARGEST_SUBPAGE && FreshRange(s.h, va, PagesFor(size))
      && forall p :: p in s.pages ==> Apart(va, PagesFor(size) * PAGE_SIZE, p, PAGE_SIZE)
    case Free(a) => a in s.live
    case DropPage(va) => va in s.pages
    case Install(w, va) => va in s.pages && w < NUM_ROOTS
    case TakeFrom(size) => size < LARGEST_SUBPAGE
    case LinkNew(r, va, size) => va in s.pages && r in s.reserved && size < LARGEST_SUBPAGE
    case Reserve(_) => true
  }

  ghost predicate Step(s: State, op: Op, s': State)
    requires Shaped(s.h)
  {
    match op
    case GetPage(va) => s' == s.(pages := s.pages + {va})
    case DropPage(va) => s' == s.(pages := s.pages - {va})
    case Reserve(r) => IsNextRef(s.h, r) && s' == s.(h := SetBit(s.h, r, true), reserved := s.reserved + {r})
    case Install(w, va) =>
      w < NUM_ROOTS && s' == if s.h.roots[w].page != 0 then s else s.(h := InstallRoot(s.h, w, va), pages := s.pages - {va})
    case TakeFrom(size) =>
      size < LARGEST_SUBPAGE && Taken(s, FirstWithFree(s.h.recs, s.h.bySize[BlockType(size)]), size, s')
    case LinkNew(r, va, size) =>
      && size < LARGEST_SUBPAGE && r < TOTAL_REFS && s.h.roots[r / REFS_PER_PAGE].page != 0
      && var b := BlockType(size);
         s' == State(TakeBlock(LinkPage(s.h, r, va, b), r), s.reserved - {r}, s.pages - {va},
                     s.live[LinkedAt(va, b) := Loan(Sub(r, NBlocks(b) - 1), size)])
    case BigAlloc(va, size) =>
      s' == s.(h := s.h.(big := s.h.big[va := PagesFor(size)]), live := s.live[va := Loan(Whole, size)])
    case Free(a) => Freed(s.h, a, s'.h) && s' == s.(h := s'.h, live := s.live - {a})
  }

  function LinkedAt(va: nat, b: nat): nat
    requires b < NSIZES
  {
    va + (NBlocks(b) - 1) * SizeOf(b)
  }

  ghost predicate Taken(s: State, found: Option<nat>, size: nat, s': State) {
    match found
    case None => s' == s
    case Some(r) =>
      && r in s.h.recs && |s.h.recs[r].free| > 0 && s.h.recs[r].blk < NSIZES
      && var i := s.h.recs[r].free[0];
         s' == s.(h := TakeBlock(s.h, r), live := s.live[BlockAddr(s.h.recs[r], i) := Loan(Sub(r, i), size)])
  }

  /** The address an allocation step hands to its caller. */
  ghost function Granted(s: State, op: Op): Option<nat>
    requires Shaped(s.h)
  {
    match op
    case TakeFrom(size) =>
      if size >= LARGEST_SUBPAGE then None else
      (match FirstWithFree(s.h.recs, s.h.bySize[BlockType(size)])
       case None => None
       case Some(r) =>
         if r in s.h.recs && |s.h.recs[r].free| > 0 && s.h.recs[r].blk < NSIZES
         then Some(BlockAddr(s.h.recs[r], s.h.recs[r].free[0])) else None)
    case LinkNew(r, va, size) => if size < LARGEST_SUBPAGE then Some(LinkedAt(va, BlockType(size))) else None
    case BigAlloc(va, size) => Some(va)
    case _ => None
  }

  // ---------------------------------------------------------------- loans

  ghost predicate LoanOk(h: Heap, a: nat, loan: Loan) {
    match loan.owner
    case Sub(r, i) => LiveSub(h, r, i) && a == BlockAddr(h.recs[r], i) && loan.size <= SizeOf(h.recs[r].blk)
    case Whole => a in h.big && loan.size <= h.big[a] * PAGE_SIZE
  }

  /** The block's whole extent. */
  function Extent(h: Heap, a: nat, loan: Loan): nat
    requires loan.owner.Sub? ==> loan.owner.r in h.recs && h.recs[loan.owner.r].blk < NSIZES
  {
    match loan.owner
    case Sub(r, i) => SizeOf(h.recs[r].blk)
    case Whole => if a in h.big then h.big[a] * PAGE_SIZE else 0
  }

  /** The loan of block i of page r. */
  ghost predicate OnLoan(h: Heap, live: map<nat, Loan>, r: nat, i: nat) {
    LiveSub(h, r, i) ==> var a := BlockAddr(h.recs[r], i); a in live && live[a].owner == Sub(r, i)
  }

  /** The blocks not on free lists are exactly the blocks clients hold. */
  ghost predicate LiveOk(h: Heap, live: map<nat, Loan>) {
    && (forall a :: a in live ==> LoanOk(h, a, live[a]))
    && (forall r, i :: OnLoan(h, live, r, i))
    && (forall a :: a in h.big ==> a in live && live[a].owner == Whole)
  }

  ghost predicate PendingOk(h: Heap, pages: set<nat>) {
    forall p :: p in pages ==> FreshRange(h, p, 1)
  }

  ghost predicate StateOk(s: State) {
    HeapOk(s.h, s.reserved) && LiveOk(s.h, s.live) && PendingOk(s.h, s.pages)
  }

  lemma ShapedOk(h: Heap, reserved: set<nat>)
    requires HeapOk(h, reserved)
    ensures Shaped(h)
  {
  }

  /** Blocks held at the same time never overlap, and each is at least as large as was asked for. */
  lemma LoansApart(s: State, a: nat, b: nat)
    requires StateOk(s) && a in s.live && b in s.live && a != b
    ensures LoanOk(s.h, a, s.live[a]) && LoanOk(s.h, b, s.live[b])
    ensures s.live[a].size <= Extent(s.h, a, s.live[a])
    ensures Apart(a, Extent(s.h, a, s.live[a]), b, Extent(s.h, b, s.live[b]))
  {
    ShapedOk(s.h, s.reserved);
    hide SpaceOk, ListsOk, BitsOk, RootsOk, PagesOk, PendingOk, BlockAddr;
    assert LoanOk(s.h, a, s.live[a]) && LoanOk(s.h, b, s.live[b]);
    hide LiveOk;
    match (s.live[a].owner, s.live[b].owner)
    case (Sub(r, i), Sub(q, j)) => BlocksApart(s.h, s.reserved, r, i, q, j);
    case (Sub(r, i), Whole) => BlockApartFromPages(s.h, s.reserved, r, i, b, 0);
    case (Whole, Sub(q, j)) => BlockApartFromPages(s.h, s.reserved, q, j, a, 0);
    case (Whole, Whole) => BigApart(s.h, a, b);
  }

  lemma BigApart(h: Heap, a: nat, b: nat)
    requires SpaceOk(h) && a in h.big && b in h.big && a != b
    ensures Apart(a, h.big[a] * PAGE_SIZE, b, h.big[b] * PAGE_SIZE)
  {
  }

  // ---------------------------------------------------------------- loans across a step

  predicate SameAddrs(h: Heap, h': Heap) {
    && h'.big == h.big
    && forall r :: r in h.recs && r in h'.recs ==> h'.recs[r].addr == h.recs[r].addr && h'.recs[r].blk == h.recs[r].blk
  }

  lemma LoansKept(h: Heap, h': Heap, live: map<nat, Loan>)
    requires LiveOk(h, live) && SameAddrs(h, h')
    requires forall r, i :: LiveSub(h', r, i) <==> LiveSub(h, r, i)
    ensures LiveOk(h', live)
  {
    forall a | a in live ensures LoanOk(h', a, live[a]) {
      assert LoanOk(h, a, live[a]);
    }
    forall r, i | true ensures OnLoan(h', live, r, i) {
      assert OnLoan(h, live, r, i);
    }
  }

  lemma LoanAdded(h: Heap, h': Heap, reserved: set<nat>, live: map<nat, Loan>, r: nat, i: nat, size: nat)
    requires LiveOk(h, live) && SameAddrs(h, h') && HeapOk(h', reserved)
    requires !LiveSub(h, r, i) && LiveSub(h', r, i) && size <= SizeOf(h'.recs[r].blk)
    requires forall q, j :: (q != r || j != i) ==> (LiveSub(h', q, j) <==> LiveSub(h, q, j))
    ensures var a := BlockAddr(h'.recs[r], i); a !in live && LiveOk(h', live[a := Loan(Sub(r, i), size)])
  {
    hide SpaceOk, ListsOk, BitsOk, RootsOk, PagesOk;
    var a := BlockAddr(h'.recs[r], i);
    var live' := live[a := Loan(Sub(r, i), size)];
    if a in live {
      assert LoanOk(h, a, live[a]);
      NewAddress(h', reserved, r, i, a, live[a]);
      assert false;
    }
    forall b | b in live' ensures LoanOk(h', b, live'[b]) {
      assert b != a ==> LoanOk(h, b, live[b]);
    }
    forall q, j | true ensures OnLoan(h', live', q, j) {
      assert OnLoan(h, live, q, j);
    }
  }

  /** Two loans at one address would be the same loan. */
  lemma NewAddress(h: Heap, reserved: set<nat>, r: nat, i: nat, a: nat, loan: Loan)
    requires HeapOk(h, reserved) && LiveSub(h, r, i) && a == BlockAddr(h.recs[r], i)
    requires loan.owner.Sub? ==> LiveSub(h, loan.owner.r, loan.owner.i) && a == BlockAddr(h.recs[loan.owner.r], loan.owner.i)
    requires loan.owner.Whole? ==> a in h.big
    ensures loan.owner == Sub(r, i)
  {
    ShapedOk(h, reserved);
    hide BlockAddr, SpaceOk, ListsOk, BitsOk, RootsOk, PagesOk;
    match loan.owner
    case Sub(q, j) => if q != r || j != i { BlocksApart(h, reserved, r, i, q, j); assert false; }
    case Whole =>
      BlockApartFromPages(h, reserved, r, i, a, 0);
      BigSpaceAt(h, a);
      assert false;
  }

  lemma LoanReturned(h: Heap, h': Heap, live: map<nat, Loan>, r: nat, i: nat)
    requires LiveOk(h, live) && SameAddrs(h, h') && LiveSub(h, r, i)
    requires forall q, j :: LiveSub(h', q, j) <==> LiveSub(h, q, j) && (q != r || j != i)
    ensures LiveOk(h', live - {BlockAddr(h.recs[r], i)})
  {
    var a := BlockAddr(h.recs[r], i);
    var live' := live - {a};
    assert OnLoan(h, live, r, i);
    forall b | b in live' ensures LoanOk(h', b, live'[b]) {
      assert LoanOk(h, b, live[b]);
    }
    forall q, j | true ensures OnLoan(h', live', q, j) {
      assert OnLoan(h, live, q, j);
    }
  }

  // ---------------------------------------------------------------- pages on their way into the heap

  /** Whatever h' occupies beyond h is the page va. */
  predicate GrowsBy(h: Heap, h': Heap, va: nat) {
    && (forall r :: r in h'.recs ==> h'.recs[r].addr == va || (r in h.recs && h'.recs[r].addr == h.recs[r].addr))
    && (forall a :: a in h'.big ==> a in h.big && h'.big[a] == h.big[a])
    && |h'.roots| == |h.roots|
    && (forall w :: 0 <= w < |h.roots| ==> h'.roots[w].page == va || h'.roots[w].page == h.roots[w].page)
  }

  lemma PendingKept(h: Heap, h': Heap, pages: set<nat>, va: nat)
    requires PendingOk(h, pages) && GrowsBy(h, h', va) && va !in pages && va % PAGE_SIZE == 0
    ensures PendingOk(h', pages)
  {
    forall p | p in pages ensures FreshRange(h', p, 1) {
      FreshKept(h, h', p, va);
    }
  }

  lemma FreshKept(h: Heap, h': Heap, p: nat, va: nat)
    requires FreshRange(h, p, 1) && GrowsBy(h, h', va) && p != va && va % PAGE_SIZE == 0
    ensures FreshRange(h', p, 1)
  {
    assert Apart(p, 1 * PAGE_SIZE, va, PAGE_SIZE);
  }

  // ---------------------------------------------------------------- multi-page blocks

  lemma BigAllocOk(s: State, va: nat, size: nat, s': State)
    requires StateOk(s) && Shaped(s.h) && Allowed(s, BigAlloc(va, size)) && Step(s, BigAlloc(va, size), s')
    ensures StateOk(s') && va !in s.live && size <= PagesFor(size) * PAGE_SIZE
  {
    hide LiveOk, PagesOk, ListsOk, BitsOk, RootsOk, SpaceOk;
    BigSpace(s.h, s'.h, va, PagesFor(size));
    BigParts(s.h, s'.h, s.reserved);
    BigLoan(s.h, s'.h, s.reserved, s.live, va, size);
    forall p | p in s.pages ensures FreshRange(s'.h, p, 1) {
    }
  }

  lemma BigParts(h: Heap, h': Heap, reserved: set<nat>)
    requires RootsOk(h) && h' == h.(big := h'.big)
    ensures RootsOk(h')
    ensures (ListsOk(h) ==> ListsOk(h')) && (PagesOk(h) ==> PagesOk(h')) && (BitsOk(h, reserved) ==> BitsOk(h', reserved))
  {
    assert forall r :: 0 <= r < TOTAL_REFS ==> Bit(h', r) == Bit(h, r);
    SameRecsOk(h, h');
  }

  lemma BigSpace(h: Heap, h': Heap, va: nat, n: nat)
    requires SpaceOk(h) && FreshRange(h, va, n) && h' == h.(big := h.big[va := n])
    ensures SpaceOk(h')
  {
    forall a, b | a in h'.big && b in h'.big && a != b ensures Apart(a, h'.big[a] * PAGE_SIZE, b, h'.big[b] * PAGE_SIZE) {
      BigPair(h, va, n, a, b);
    }
    forall r, a | r in h'.recs && a in h'.big ensures Apart(h'.recs[r].addr, PAGE_SIZE, a, h'.big[a] * PAGE_SIZE) {
      assert a == va ==> Apart(va, n * PAGE_SIZE, h.recs[r].addr, PAGE_SIZE);
    }
    forall w, a | 0 <= w < |h'.roots| && h'.roots[w].page != 0 && a in h'.big
      ensures Apart(h'.roots[w].page, PAGE_SIZE, a, h'.big[a] * PAGE_SIZE)
    {
      assert a == va ==> Apart(va, n * PAGE_SIZE, h.roots[w].page, PAGE_SIZE);
    }
  }

  lemma BigPair(h: Heap, va: nat, n: nat, a: nat, b: nat)
    requires SpaceOk(h) && FreshRange(h, va, n) && a != b && (a == va || a in h.big) && (b == va || b in h.big)
    ensures var big := h.big[va := n]; Apart(a, big[a] * PAGE_SIZE, b, big[b] * PAGE_SIZE)
  {
  }

  lemma BigLoan(h: Heap, h': Heap, reserved: set<nat>, live: map<nat, Loan>, va: nat, size: nat)
    requires LiveOk(h, live) && FreshRange(h, va, PagesFor(size)) && PagesOk(h) && SpaceOk(h)
    requires h' == h.(big := h.big[va := PagesFor(size)])
    ensures va !in live && LiveOk(h', live[va := Loan(Whole, size)])
  {
    hide SpaceOk;
    var live' := live[va := Loan(Whole, size)];
    if va in live {
      assert LoanOk(h, va, live[va]);
      FreshNotHeld(h, va, PagesFor(size), live[va]);
      assert false;
    }
    forall b | b in live' ensures LoanOk(h', b, live'[b]) {
      assert b != va ==> LoanOk(h, b, live[b]);
    }
    forall q, j | true ensures OnLoan(h', live', q, j) {
      assert OnLoan(h, live, q, j);
      assert LiveSub(h, q, j) <==> LiveSub(h', q, j);
    }
  }

  lemma BigSpaceAt(h: Heap, a: nat)
    requires SpaceOk(h)
    ensures a in h.big ==> h.big[a] >= 1
  {
  }

  lemma FreshNotHeld(h: Heap, va: nat, n: nat, loan: Loan)
    requires FreshRange(h, va, n) && PagesOk(h) && SpaceOk(h)
    ensures !LoanOk(h, va, loan)
  {
    BigSpaceAt(h, va);
    hide SpaceOk;
    if LoanOk(h, va, loan) && loan.owner.Sub? {
      var r, i := loan.owner.r, loan.owner.i;
      assert PageOk(h.recs[r]) && Apart(va, n * PAGE_SIZE, h.recs[r].addr, PAGE_SIZE);
      assert n * PAGE_SIZE >= PAGE_SIZE;
      BlockInPage(h.recs[r], i);
      assert false;
    }
  }

  lemma BigFreeOk(s: State, a: nat, s': State)
    requires StateOk(s) && a in s.h.big && a in s.live
    requires s' == s.(h := s.h.(big := s.h.big - {a}), live := s.live - {a})
    ensures StateOk(s')
  {
    hide PagesOk, ListsOk, BitsOk, RootsOk, SpaceOk;
    BigParts(s.h, s'.h, s.reserved);
    BigFreeSpace(s.h, s'.h, a);
    PendingKept(s.h, s'.h, s.pages - {0}, 0);
    hide FreshRange;
    BigReturned(s.h, s'.h, s.live, a);
    assert 0 !in s.pages by { NoPageZero(s.h, s.pages); }
  }

  lemma NoPageZero(h: Heap, pages: set<nat>)
    requires PendingOk(h, pages)
    ensures 0 !in pages && pages - {0} == pages
  {
    assert forall p :: p in pages ==> FreshRange(h, p, 1);
  }

  lemma BigFreeSpace(h: Heap, h': Heap, a: nat)
    requires SpaceOk(h) && h' == h.(big := h.big - {a})
    ensures SpaceOk(h')
  {
  }

  lemma BigReturned(h: Heap, h': Heap, live: map<nat, Loan>, a: nat)
    requires LiveOk(h, live) && a in h.big && h' == h.(big := h.big - {a})
    ensures LiveOk(h', live - {a})
  {
    var live' := live - {a};
    assert a in live && live[a].owner == Whole;
    forall b | b in live' ensures LoanOk(h', b, live'[b]) {
      assert LoanOk(h, b, live[b]);
    }
    forall q, j | true ensures OnLoan(h', live', q, j) {
      assert OnLoan(h, live, q, j);
      assert LiveSub(h, q, j) <==> LiveSub(h', q, j);
    }
  }

  // ---------------------------------------------------------------- one step

  lemma TakeOk(s: State, size: nat, s': State)
    requires StateOk(s) && Shaped(s.h) && size < LARGEST_SUBPAGE && Step(s, TakeFrom(size), s')
    ensures StateOk(s') && (Granted(s, TakeFrom(size)).Some? ==> Granted(s, TakeFrom(size)).value !in s.live)
  {
    hide SpaceOk, BitsOk, RootsOk, PagesOk, LiveOk, PendingOk, BlockAddr;
    var b := BlockType(size);
    var list := s.h.bySize[b];
    FirstWithFreeOk(s.h.recs, list);
    var found := FirstWithFree(s.h.recs, list);
    if found.Some? {
      ListedSize(s.h, b, found.value);
      TakePageOk(s, found.value, size, s');
    }
  }

  lemma ListedSize(h: Heap, b: nat, r: nat)
    requires ListsOk(h) && b < NSIZES && r in h.bySize[b]
    ensures r in h.recs && h.recs[r].blk == b
  {
  }

  lemma TakePageOk(s: State, r: nat, size: nat, s': State)
    requires StateOk(s) && r in s.h.recs && |s.h.recs[r].free| > 0
    requires IsBlockType(size, s.h.recs[r].blk) && Taken(s, Some(r), size, s')
    ensures StateOk(s') && BlockAddr(s.h.recs[r], s.h.recs[r].free[0]) !in s.live
  {
    hide LiveOk, SpaceOk, ListsOk, BitsOk, RootsOk, PendingOk, IsBlockType, BlockAddr;
    assert PageOk(s.h.recs[r]);
    HeapOkWeaken(s.h, s.reserved, r);
    TakeBlockOk(s.h, s.reserved, r, size);
    hide PagesOk;
    var i := s.h.recs[r].free[0];
    LoanAdded(s.h, s'.h, s.reserved, s.live, r, i, size);
    NoPageZero(s.h, s.pages);
    PendingKept(s.h, s'.h, s.pages, 0);
    SameBlockAddr(s.h.recs[r], s'.h.recs[r], i);
  }

  lemma SameBlockAddr(p: PageRec, p': PageRec, i: nat)
    requires p.blk < NSIZES && p'.blk == p.blk && p'.addr == p.addr
    ensures BlockAddr(p', i) == BlockAddr(p, i)
  {
  }

  lemma LinkNewOk(s: State, r: nat, va: nat, size: nat, s': State)
    requires StateOk(s) && Shaped(s.h) && Allowed(s, LinkNew(r, va, size)) && Step(s, LinkNew(r, va, size), s')
    ensures StateOk(s') && (Granted(s, LinkNew(r, va, size)).Some? ==> Granted(s, LinkNew(r, va, size)).value !in s.live)
  {
    hide LiveOk, SpaceOk, ListsOk, PagesOk, FreshRange, BlockAddr, IsBlockType, HeapOkBut;
    var b := BlockType(size);
    assert r !in s.h.recs && FreshRange(s.h, va, 1);
    hide BitsOk, RootsOk, PendingOk;
    LinkPageOk(s.h, s.reserved, r, va, b, size);
    TypeFits(size, b);
    LinkLoan(s, r, va, b, size, s'.h);
    FreshAligned(s.h, va);
    LinkShape(s.h, r, va, b);
    PendingFewer(s.h, s.pages, va);
    PendingKept(s.h, s'.h, s.pages - {va}, va);
  }

  lemma PendingFewer(h: Heap, pages: set<nat>, va: nat)
    requires PendingOk(h, pages)
    ensures PendingOk(h, pages - {va})
  {
  }

  lemma LinkShape(h: Heap, r: nat, va: nat, b: nat)
    requires |h.bySize| == NSIZES && b < NSIZES && r !in h.recs
    ensures GrowsBy(h, TakeBlock(LinkPage(h, r, va, b), r), va) && SameAddrs(h, TakeBlock(LinkPage(h, r, va, b), r))
  {
  }

  lemma LinkLoan(s: State, r: nat, va: nat, b: nat, size: nat, h': Heap)
    requires LiveOk(s.h, s.live) && |s.h.bySize| == NSIZES && b < NSIZES && r !in s.h.recs && size <= SizeOf(b)
    requires h' == TakeBlock(LinkPage(s.h, r, va, b), r) && HeapOk(h', s.reserved - {r})
    requires LiveSub(h', r, NBlocks(b) - 1)
    requires forall q, j :: (q != r || j != NBlocks(b) - 1) ==> (LiveSub(h', q, j) <==> LiveSub(s.h, q, j))
    ensures LinkedAt(va, b) !in s.live
    ensures LiveOk(h', s.live[LinkedAt(va, b) := Loan(Sub(r, NBlocks(b) - 1), size)])
  {
    hide LiveOk, HeapOk, BlockAddr, LinkedAt;
    LinkShape(s.h, r, va, b);
    LoanAdded(s.h, h', s.reserved - {r}, s.live, r, NBlocks(b) - 1, size);
    LinkedBlock(h'.recs[r], va, b);
  }

  lemma LinkedBlock(p: PageRec, va: nat, b: nat)
    requires b < NSIZES && p.addr == va && p.blk == b
    ensures BlockAddr(p, NBlocks(b) - 1) == LinkedAt(va, b)
  {
  }

  lemma FreshAligned(h: Heap, va: nat)
    requires FreshRange(h, va, 1)
    ensures va > 0 && va % PAGE_SIZE == 0
  {
  }

  lemma ReserveStepOk(s: State, r: nat, s': State)
    requires StateOk(s) && Shaped(s.h) && Step(s, Reserve(r), s')
    ensures StateOk(s')
  {
    ReserveOk(s.h, s.reserved, r);
    NoPageZero(s.h, s.pages);
    SetBitOk(s.h, r, true);
    hide LiveOk, SpaceOk, ListsOk, PagesOk, FreshRange, BitsOk, PendingOk, IsNextRef;
    PendingKept(s.h, s'.h, s.pages, 0);
    LoansKept(s.h, s'.h, s.live);
  }

  lemma InstallOk(s: State, w: nat, va: nat, s': State)
    requires StateOk(s) && Shaped(s.h) && Allowed(s, Install(w, va)) && Step(s, Install(w, va), s')
    ensures StateOk(s') && s'.h.roots[w].page != 0
  {
    hide LiveOk, SpaceOk, ListsOk, PagesOk, FreshRange, BitsOk;
    assert FreshRange(s.h, va, 1);
    InstallRootOk(s.h, s.reserved, w, va);
    if s.h.roots[w].page == 0 {
      FreshAligned(s.h, va);
      PendingKept(s.h, s'.h, s.pages - {va}, va);
      LoansKept(s.h, s'.h, s.live);
    }
  }

  /** kfree of a block a client holds: its page is found, the address is a block boundary, and the loan ends. */
  lemma FreeOk(s: State, a: nat, s': State)
    requires StateOk(s) && Shaped(s.h) && a in s.live && Step(s, Free(a), s')
    ensures StateOk(s')
  {
    hide HeapOk, PendingOk, LiveOk;
    FreeTarget(s, a);
    match s.live[a].owner
    case Sub(r, i) => FreeSubOk(s, a, r, i, s');
    case Whole => BigFreeOk(s, a, s');
  }

  /** What subpage_kfree's search and its alignment test find for a held block: never the panic. */
  lemma FreeTarget(s: State, a: nat)
    requires StateOk(s) && a in s.live
    ensures match s.live[a].owner
            case Sub(r, i) =>
              && FindPage(s.h, s.h.all, a) == Some(r) && LiveSub(s.h, r, i) && s.h.recs[r].addr <= a
              && a == BlockAddr(s.h.recs[r], i)
              && (a - s.h.recs[r].addr) % SizeOf(s.h.recs[r].blk) == 0
              && (a - s.h.recs[r].addr) / SizeOf(s.h.recs[r].blk) == i
            case Whole => FindPage(s.h, s.h.all, a) == None && a in s.h.big && a % PAGE_SIZE == 0
  {
    hide RootsOk, BitsOk, ListsOk, FindPage, PendingOk;
    assert LoanOk(s.h, a, s.live[a]);
    match s.live[a].owner
    case Sub(r, i) =>
      FindBlock(s.h, s.reserved, r, i);
      BlockIndex(s.h.recs[r], i);
    case Whole => FindNone(s.h, s.reserved, a);
  }

  lemma BlockIndex(p: PageRec, i: nat)
    requires p.blk < NSIZES && i < NBlocks(p.blk)
    ensures BlockAddr(p, i) >= p.addr
    ensures (BlockAddr(p, i) - p.addr) % SizeOf(p.blk) == 0 && (BlockAddr(p, i) - p.addr) / SizeOf(p.blk) == i
  {
    Quotient(i, SizeOf(p.blk));
  }

  lemma Quotient(i: nat, n: nat)
    requires n > 0
    ensures i * n % n == 0 && i * n / n == i
  {
    var x := i * n;
    var d, m := x / n, x % n;
    assert x == n * d + m;
    Distribute(n, i, d);
    MulBound(n, i - d);
  }

  lemma FreeSubOk(s: State, a: nat, r: nat, i: nat, s': State)
    requires StateOk(s) && Shaped(s.h) && LiveSub(s.h, r, i) && a == BlockAddr(s.h.recs[r], i) && r < TOTAL_REFS
    requires s' == s.(h := FreeBlock(s.h, r, i), live := s.live - {a})
    ensures StateOk(s')
  {
    FreeBlockOk(s.h, s.reserved, r, i);
    FreeShape(s.h, r, i);
    hide LiveOk, SpaceOk, ListsOk, PagesOk, BitsOk, RootsOk, PendingOk, FreeBlock, BlockAddr, LiveSub, SizeOf, NBlocks;
    LoanReturned(s.h, s'.h, s.live, r, i);
    NoPageZero(s.h, s.pages);
    PendingKept(s.h, s'.h, s.pages, 0);
  }

  lemma FreeShape(h: Heap, r: nat, i: nat)
    requires Shaped(h) && LiveSub(h, r, i) && r < TOTAL_REFS
    ensures SameAddrs(h, FreeBlock(h, r, i)) && GrowsBy(h, FreeBlock(h, r, i), 0)
  {
    var h1 := PutBlock(h, r, i);
    if |h1.recs[r].free| == NBlocks(h.recs[r].blk) {
      SetBitOk(h1, r, false);
    }
  }

  lemma StepOk(s: State, op: Op, s': State)
    requires StateOk(s) && Shaped(s.h) && Allowed(s, op) && Step(s, op, s')
    ensures StateOk(s') && Shaped(s'.h)
    ensures Granted(s, op).Some? ==> Granted(s, op).value !in s.live
  {
    hide HeapOk, LiveOk;
    match op {
      case GetPage(va) =>
      case DropPage(va) =>
      case Reserve(r) => ReserveStepOk(s, r, s');
      case Install(w, va) => InstallOk(s, w, va, s');
      case TakeFrom(size) => TakeOk(s, size, s');
      case LinkNew(r, va, size) => LinkNewOk(s, r, va, size, s');
      case BigAlloc(va, size) => BigAllocOk(s, va, size, s');
      case Free(a) => FreeOk(s, a, s');
    }
    ShapedOk(s'.h, s'.reserved);
  }

  // ---------------------------------------------------------------- runs

  ghost predicate Run(states: seq<State>, ops: seq<Op>) {
    && |states| == |ops| + 1
    && forall k :: 0 <= k < |ops| ==> Shaped(states[k].h) && Allowed(states[k], ops[k]) && Step(states[k], ops[k], states[k + 1])
  }

  lemma BootedOk()
    ensures StateOk(Booted())
  {
    var s := Booted();
    NoneSet(REFS_PER_PAGE, s.h.roots[0].inuse);
    assert forall w :: 0 <= w < NUM_ROOTS ==> s.h.roots[w] == s.h.roots[0];
    assert forall r :: 0 <= r < TOTAL_REFS ==> !Bit(s.h, r);
  }

  lemma {:induction false} NoneSet(n: nat, s: seq<bool>)
    requires |s| == n && forall i :: 0 <= i < n ==> !s[i]
    ensures CountTrue(s) == 0
  {
    if n > 0 {
      NoneSet(n - 1, s[..n - 1]);
    }
  }

  lemma {:induction false} RunOk(states: seq<State>, ops: seq<Op>, n: nat)
    requires Run(states, ops) && states[0] == Booted() && n <= |ops|
    ensures StateOk(states[n]) && Shaped(states[n].h)
  {
    hide StateOk, Step, Allowed, Shaped;
    if n == 0 {
      BootedOk();
      ShapedOk(Booted().h, {});
    } else {
      RunOk(states, ops, n - 1);
      assert Step(states[n - 1], ops[n - 1], states[n - 1 + 1]);
      StepOk(states[n - 1], ops[n - 1], states[n]);
    }
  }

  /**
   In every reachable state of every interleaving: each block a client holds is at least as large as
   requested, and no two blocks held overlap, whichever pages and sizes they came from.
   */
  lemma HeldBlocksNeverOverlap(states: seq<State>, ops: seq<Op>, n: nat, a: nat, b: nat)
    requires Run(states, ops) && states[0] == Booted() && n <= |ops|
    requires a in states[n].live && b in states[n].live && a != b
    ensures LoanOk(states[n].h, a, states[n].live[a]) && LoanOk(states[n].h, b, states[n].live[b])
    ensures states[n].live[a].size <= Extent(states[n].h, a, states[n].live[a])
    ensures Apart(a, Extent(states[n].h, a, states[n].live[a]), b, Extent(states[n].h, b, states[n].live[b]))
  {
    RunOk(states, ops, n);
    LoansApart(states[n], a, b);
  }

  /** An address handed out is never one a client still holds. */
  lemma GrantedIsNew(states: seq<State>, ops: seq<Op>, n: nat)
    requires Run(states, ops) && states[0] == Booted() && n < |ops|
    ensures Shaped(states[n].h) && (Granted(states[n], ops[n]).Some? ==> Granted(states[n], ops[n]).value !in states[n].live)
  {
    RunOk(states, ops, n);
    StepOk(states[n], ops[n], states[n + 1]);
  }
}
