/**
 Every critical section of kmalloc and kfree keeps the heap invariant, in any interleaving;
 blocks never overlap; and freeing the block just allocated restores the heap exactly.
 */
module KheapInvariant {
  import opened Prelude
  import opened Kheap

  // ---------------------------------------------------------------- live blocks

  /** Block i of page r is in use by a client. */
  predicate LiveSub(h: Heap, r: nat, i: nat) {
    r in h.recs && h.recs[r].blk < NSIZES && i < NBlocks(h.recs[r].blk) && i !in h.recs[r].free
  }

  lemma BlockInPage(p: PageRec, i: nat)
    requires PageOk(p) && i < NBlocks(p.blk)
    ensures p.addr <= BlockAddr(p, i) && BlockAddr(p, i) + SizeOf(p.blk) <= p.addr + PAGE_SIZE
  {
    match p.blk
    case 0 => case 1 => case 2 => case 3 => case 4 => case 5 => case 6 => case 7 =>
  }

  lemma BlockAligned(p: PageRec, i: nat)
    requires PageOk(p) && i < NBlocks(p.blk)
    ensures BlockAddr(p, i) % SizeOf(p.blk) == 0
  {
    var q := p.addr / PAGE_SIZE;
    match p.blk
    case 0 => Multiple(16, 256 * q + i);
    case 1 => Multiple(32, 128 * q + i);
    case 2 => Multiple(64, 64 * q + i);
    case 3 => Multiple(128, 32 * q + i);
    case 4 => Multiple(256, 16 * q + i);
    case 5 => Multiple(512, 8 * q + i);
    case 6 => Multiple(1024, 4 * q + i);
    case 7 => Multiple(2048, 2 * q + i);
  }

  lemma Multiple(n: nat, x: nat)
    requires n > 0
    ensures n * x % n == 0
  {
    var p := n * x;
    var d, m := p / n, p % n;
    assert p == n * d + m;
    MulBound(n, x - d);
    Distribute(n, x, d);
  }

  lemma Distribute(n: int, x: int, d: int)
    ensures n * (x - d) == n * x - n * d
  {
  }

  lemma {:induction false} MulBound(n: nat, k: int)
    requires n > 0
    ensures k >= 1 ==> n * k >= n
    ensures k <= -1 ==> n * k + n <= 0
    decreases if k < 0 then -k else k
  {
    if k > 1 {
      MulBound(n, k - 1);
      Distribute(n, k, 1);
    } else if k < -1 {
      MulBound(n, k + 1);
      Distribute(n, k, -1);
    }
  }

  lemma SamePageApart(p: PageRec, i: nat, j: nat)
    requires PageOk(p) && i < NBlocks(p.blk) && j < NBlocks(p.blk) && i != j
    ensures Apart(BlockAddr(p, i), SizeOf(p.blk), BlockAddr(p, j), SizeOf(p.blk))
  {
    match p.blk
    case 0 => case 1 => case 2 => case 3 => case 4 => case 5 => case 6 => case 7 =>
  }

  lemma PagesApart(h: Heap, r: nat, q: nat)
    requires SpaceOk(h) && PagesOk(h) && r in h.recs && q in h.recs && r != q
    ensures Apart(h.recs[r].addr, PAGE_SIZE, h.recs[q].addr, PAGE_SIZE)
  {
    assert PageOk(h.recs[r]) && PageOk(h.recs[q]);
  }

  /** Two different blocks of the heap, free or in use, of any sizes, never overlap. */
  lemma BlocksApart(h: Heap, reserved: set<nat>, r: nat, i: nat, q: nat, j: nat)
    requires HeapOk(h, reserved) && r in h.recs && q in h.recs
    requires i < NBlocks(h.recs[r].blk) && j < NBlocks(h.recs[q].blk) && (r != q || i != j)
    ensures Apart(BlockAddr(h.recs[r], i), SizeOf(h.recs[r].blk), BlockAddr(h.recs[q], j), SizeOf(h.recs[q].blk))
  {
    hide ListsOk, BitsOk, RootsOk, SpaceOk, BlockAddr;
    assert PageOk(h.recs[r]) && PageOk(h.recs[q]);
    hide PagesOk, PageOk;
    if r == q {
      SamePageApart(h.recs[r], i, j);
    } else {
      BlockInPage(h.recs[r], i);
      BlockInPage(h.recs[q], j);
      PagesApart(h, r, q);
    }
  }

  /** A subpage block never overlaps a multi-page block or a page of pagerefs. */
  lemma BlockApartFromPages(h: Heap, reserved: set<nat>, r: nat, i: nat, a: nat, w: nat)
    requires HeapOk(h, reserved) && r in h.recs && i < NBlocks(h.recs[r].blk) && w < |h.roots|
    ensures a in h.big ==> Apart(BlockAddr(h.recs[r], i), SizeOf(h.recs[r].blk), a, h.big[a] * PAGE_SIZE)
    ensures h.roots[w].page != 0 ==>
              Apart(BlockAddr(h.recs[r], i), SizeOf(h.recs[r].blk), h.roots[w].page, PAGE_SIZE)
  {
    hide ListsOk, BitsOk, RootsOk, SpaceOk, BlockAddr;
    assert PageOk(h.recs[r]);
    PageApartFromPages(h, r, a, w);
    hide PagesOk;
    BlockInPage(h.recs[r], i);
  }

  lemma PageApartFromPages(h: Heap, r: nat, a: nat, w: nat)
    requires SpaceOk(h) && r in h.recs && w < |h.roots| && h.recs[r].addr % PAGE_SIZE == 0
    ensures Apart(h.recs[r].addr, PAGE_SIZE, h.roots[w].page, PAGE_SIZE)
    ensures a in h.big ==> Apart(h.recs[r].addr, PAGE_SIZE, a, h.big[a] * PAGE_SIZE)
  {
    assert h.roots[w].page != h.recs[r].addr;
  }

  // ---------------------------------------------------------------- what a section leaves alone

  /** Only free lists differ. */
  predicate SamePages(h: Heap, h': Heap) {
    && h'.all == h.all && h'.bySize == h.bySize && h'.roots == h.roots && h'.big == h.big
    && h'.recs.Keys == h.recs.Keys
    && forall r :: r in h.recs ==> h'.recs[r].addr == h.recs[r].addr && h'.recs[r].blk == h.recs[r].blk
  }

  lemma SamePagesOk(h: Heap, h': Heap, reserved: set<nat>)
    requires SamePages(h, h') && RootsOk(h)
    ensures RootsOk(h')
    ensures ListsOk(h) ==> ListsOk(h')
    ensures SpaceOk(h) ==> SpaceOk(h')
    ensures BitsOk(h, reserved) ==> BitsOk(h', reserved)
  {
    assert forall r :: r in h'.recs <==> r in h.recs;
    SamePagesLists(h, h');
    SamePagesSpace(h, h');
    assert forall r :: 0 <= r < TOTAL_REFS ==> Bit(h', r) == Bit(h, r);
  }

  lemma SamePagesLists(h: Heap, h': Heap)
    requires SamePages(h, h')
    ensures ListsOk(h) ==> ListsOk(h')
  {
    assert forall r :: r in h'.recs <==> r in h.recs;
  }

  lemma SamePagesSpace(h: Heap, h': Heap)
    requires SamePages(h, h')
    ensures SpaceOk(h) ==> SpaceOk(h')
  {
    assert forall r :: r in h'.recs <==> r in h.recs;
  }

  /** Only the bitmaps differ. */
  predicate SameButBits(h: Heap, h': Heap) {
    && h'.all == h.all && h'.bySize == h.bySize && h'.recs == h.recs && h'.big == h.big
    && |h'.roots| == |h.roots| && forall w :: 0 <= w < |h.roots| ==> h'.roots[w].page == h.roots[w].page
  }

  lemma SameButBitsOk(h: Heap, h': Heap)
    requires SameButBits(h, h')
    ensures ListsOk(h) ==> ListsOk(h')
    ensures SpaceOk(h) ==> SpaceOk(h')
    ensures PagesOk(h) ==> PagesOk(h')
  {
    SameButBitsSpace(h, h');
  }

  lemma SameButBitsSpace(h: Heap, h': Heap)
    requires SameButBits(h, h')
    ensures SpaceOk(h) ==> SpaceOk(h')
  {
  }

  // ---------------------------------------------------------------- allocating from an existing page

  /** The invariant, except that page r may be completely free. */
  ghost predicate HeapOkBut(h: Heap, reserved: set<nat>, r: nat) {
    && RootsOk(h) && ListsOk(h) && BitsOk(h, reserved) && SpaceOk(h)
    && forall q :: q in h.recs ==>
         PageOk(h.recs[q]) && |h.recs[q].free| <= NBlocks(h.recs[q].blk) && (q != r ==> |h.recs[q].free| < NBlocks(h.recs[q].blk))
  }

  lemma HeapOkWeaken(h: Heap, reserved: set<nat>, r: nat)
    requires HeapOk(h, reserved)
    ensures HeapOkBut(h, reserved, r)
  {
  }

  /** The block handed out is big enough, aligned, was free before and is in use after; no other block changes. */
  lemma TakeBlockOk(h: Heap, reserved: set<nat>, r: nat, sz: nat)
    requires HeapOkBut(h, reserved, r) && r in h.recs && h.recs[r].free != [] && IsBlockType(sz, h.recs[r].blk)
    ensures var h' := TakeBlock(h, r); var i := h.recs[r].free[0]; var a := BlockAddr(h.recs[r], i);
            && HeapOk(h', reserved)
            && sz <= SizeOf(h.recs[r].blk) && a % SizeOf(h.recs[r].blk) == 0
            && !LiveSub(h, r, i) && LiveSub(h', r, i)
            && (forall q, j :: (q != r || j != i) ==> (LiveSub(h', q, j) <==> LiveSub(h, q, j)))
  {
    hide ListsOk, SpaceOk, BitsOk, RootsOk, IsBlockType, BlockAddr;
    var h', f := TakeBlock(h, r), h.recs[r].free;
    assert PageOk(h.recs[r]) && f[0] < NBlocks(h.recs[r].blk);
    SamePagesOk(h, h', reserved);
    BlockAligned(h.recs[r], f[0]);
    TypeFits(sz, h.recs[r].blk);
    Tail(f);
    TakeLive(h, r);
    hide LiveSub;
  }

  lemma Tail(f: seq<nat>)
    requires NoDup(f) && f != []
    ensures NoDup(f[1..]) && forall x :: x in f <==> x == f[0] || x in f[1..]
    ensures f[0] !in f[1..]
  {
    assert f == [f[0]] + f[1..];
  }

  lemma TakeLive(h: Heap, r: nat)
    requires r in h.recs && PageOk(h.recs[r]) && h.recs[r].free != []
    ensures var h' := TakeBlock(h, r); var i := h.recs[r].free[0];
            && !LiveSub(h, r, i) && LiveSub(h', r, i)
            && (forall q, j :: (q != r || j != i) ==> (LiveSub(h', q, j) <==> LiveSub(h, q, j)))
  {
    Tail(h.recs[r].free);
  }

  lemma TypeFits(sz: nat, b: nat)
    requires IsBlockType(sz, b)
    ensures b < NSIZES && sz <= SizeOf(b)
  {
  }

  // ---------------------------------------------------------------- pagerefs

  /** allocpageref marks a clear bit; the pageref is then reserved. */
  lemma ReserveOk(h: Heap, reserved: set<nat>, r: nat)
    requires HeapOk(h, reserved) && IsNextRef(h, r)
    ensures HeapOk(SetBit(h, r, true), reserved + {r}) && r !in reserved && r !in h.recs
  {
    hide ListsOk, SpaceOk, PagesOk;
    var h' := SetBit(h, r, true);
    SetBitOk(h, r, true);
    SameButBitsOk(h, h');
  }

  /** allocpagerefpage: the root gets its page, unless another thread was faster. */
  function InstallRoot(h: Heap, w: nat, va: nat): Heap
    requires w < |h.roots|
  {
    if h.roots[w].page != 0 then h else h.(roots := h.roots[w := h.roots[w].(page := va)])
  }

  lemma InstallRootOk(h: Heap, reserved: set<nat>, w: nat, va: nat)
    requires HeapOk(h, reserved) && w < NUM_ROOTS && FreshRange(h, va, 1)
    ensures HeapOk(InstallRoot(h, w, va), reserved) && InstallRoot(h, w, va).roots[w].page != 0
  {
    hide ListsOk, SpaceOk, PagesOk, FreshRange;
    var h' := InstallRoot(h, w, va);
    assert forall r :: 0 <= r < TOTAL_REFS ==> Bit(h', r) == Bit(h, r);
    if h.roots[w].page == 0 {
      InstallRootSpace(h, w, va);
      SameRecsOk(h, h');
    }
  }

  lemma SameRecsOk(h: Heap, h': Heap)
    requires h'.recs == h.recs && h'.all == h.all && h'.bySize == h.bySize
    ensures (ListsOk(h) ==> ListsOk(h')) && (PagesOk(h) ==> PagesOk(h'))
  {
  }

  lemma InstallRootSpace(h: Heap, w: nat, va: nat)
    requires SpaceOk(h) && w < |h.roots| && h.roots[w].page == 0 && FreshRange(h, va, 1)
    ensures va != 0 && SpaceOk(InstallRoot(h, w, va))
  {
    assert 1 * PAGE_SIZE == PAGE_SIZE;
    assert forall r :: r in h.recs ==> h.recs[r].addr != va by {
      assert forall r :: r in h.recs ==> Apart(va, 1 * PAGE_SIZE, h.recs[r].addr, PAGE_SIZE);
    }
    assert forall v :: 0 <= v < |h.roots| && h.roots[v].page != 0 ==> h.roots[v].page != va by {
      assert forall v :: 0 <= v < |h.roots| && h.roots[v].page != 0 ==> Apart(va, 1 * PAGE_SIZE, h.roots[v].page, PAGE_SIZE);
    }
  }

  // ---------------------------------------------------------------- a new page

  /** Linking a new page and taking its first block, in one critical section. */
  lemma LinkPageOk(h: Heap, reserved: set<nat>, r: nat, va: nat, b: nat, sz: nat)
    requires HeapOk(h, reserved) && |h.bySize| == NSIZES && r in reserved && h.roots[r / REFS_PER_PAGE].page != 0
    requires FreshRange(h, va, 1) && IsBlockType(sz, b)
    ensures var h1 := LinkPage(h, r, va, b); var h' := TakeBlock(h1, r);
            && HeapOkBut(h1, reserved - {r}, r) && HeapOk(h', reserved - {r})
            && h1.recs[r].free[0] == NBlocks(b) - 1 && LiveSub(h', r, NBlocks(b) - 1)
            && (forall q, j :: (q != r || j != NBlocks(b) - 1) ==> (LiveSub(h', q, j) <==> LiveSub(h, q, j)))
  {
    hide ListsOk, SpaceOk, FreshRange, IsBlockType, BlockAddr;
    TypeFits(sz, b);
    var h1 := LinkPage(h, r, va, b);
    FreshPageOk(h, va, b);
    LinkPageBits(h, reserved, r, va, b);
    LinkPageLists(h, r, va, b);
    LinkPageSpace(h, r, va, b);
    LinkPagePages(h, r, va, b);
    hide RootsOk, BitsOk, PagesOk;
    TakeBlockOk(h1, reserved - {r}, r, sz);
    LinkPageLive(h, r, va, b);
  }

  lemma LinkPageBits(h: Heap, reserved: set<nat>, r: nat, va: nat, b: nat)
    requires RootsOk(h) && BitsOk(h, reserved) && |h.bySize| == NSIZES && b < NSIZES
    requires r in reserved && r / REFS_PER_PAGE < NUM_ROOTS && h.roots[r / REFS_PER_PAGE].page != 0
    ensures r !in h.recs && RootsOk(LinkPage(h, r, va, b)) && BitsOk(LinkPage(h, r, va, b), reserved - {r})
  {
    var h1 := LinkPage(h, r, va, b);
    assert r < TOTAL_REFS && r !in h.recs;
    assert forall q :: 0 <= q < TOTAL_REFS ==> Bit(h1, q) == Bit(h, q);
  }

  lemma LinkPagePages(h: Heap, r: nat, va: nat, b: nat)
    requires PagesOk(h) && |h.bySize| == NSIZES && FreshRange(h, va, 1) && b < NSIZES
    ensures var h1 := LinkPage(h, r, va, b);
            forall q :: q in h1.recs ==> PageOk(h1.recs[q]) && (q != r ==> |h1.recs[q].free| < NBlocks(h1.recs[q].blk))
  {
    hide FreshRange;
    FreshPageOk(h, va, b);
  }

  lemma LinkPageLive(h: Heap, r: nat, va: nat, b: nat)
    requires |h.bySize| == NSIZES && b < NSIZES && r !in h.recs
    ensures var h1 := LinkPage(h, r, va, b); forall q, j :: LiveSub(h1, q, j) <==> LiveSub(h, q, j)
  {
    var h1 := LinkPage(h, r, va, b);
    FreshFreeFull(b);
    assert forall q, j :: q != r ==> (LiveSub(h1, q, j) <==> LiveSub(h, q, j));
    assert forall j :: !LiveSub(h1, r, j) && !LiveSub(h, r, j);
  }

  lemma FreshPageOk(h: Heap, va: nat, b: nat)
    requires FreshRange(h, va, 1) && b < NSIZES
    ensures PageOk(PageRec(va, b, FreshFree(b)))
  {
    FreshFreeFull(b);
  }

  lemma FreshFreeFull(b: nat)
    requires b < NSIZES
    ensures NoDup(FreshFree(b)) && forall j :: 0 <= j < NBlocks(b) ==> j in FreshFree(b)
  {
    forall j | 0 <= j < NBlocks(b) ensures j in FreshFree(b) {
      assert FreshFree(b)[NBlocks(b) - 1 - j] == j;
    }
  }

  lemma LinkPageLists(h: Heap, r: nat, va: nat, b: nat)
    requires ListsOk(h) && r !in h.recs && b < NSIZES
    ensures ListsOk(LinkPage(h, r, va, b))
  {
    var h1 := LinkPage(h, r, va, b);
    assert forall x :: x in h1.all <==> x == r || x in h.all;
    assert forall x :: x in h1.bySize[b] <==> x == r || x in h.bySize[b];
    assert forall c :: 0 <= c < NSIZES && c != b ==> h1.bySize[c] == h.bySize[c];
  }

  lemma LinkPageSpace(h: Heap, r: nat, va: nat, b: nat)
    requires SpaceOk(h) && r !in h.recs && b < NSIZES && |h.bySize| == NSIZES && FreshRange(h, va, 1)
    ensures SpaceOk(LinkPage(h, r, va, b))
  {
    assert 1 * PAGE_SIZE == PAGE_SIZE;
    forall q | q in h.recs ensures h.recs[q].addr != va {
      assert Apart(va, 1 * PAGE_SIZE, h.recs[q].addr, PAGE_SIZE);
    }
    forall w | 0 <= w < |h.roots| ensures h.roots[w].page != va {
      assert h.roots[w].page != 0 ==> Apart(va, 1 * PAGE_SIZE, h.roots[w].page, PAGE_SIZE);
    }
  }

  // ---------------------------------------------------------------- kfree of a subpage block

  /** The block goes to the head of the free list; a page that becomes completely free leaves the heap. */
  function FreeBlock(h: Heap, r: nat, i: nat): Heap
    requires RootsOk(h) && |h.bySize| == NSIZES && r in h.recs && r < TOTAL_REFS && h.recs[r].blk < NSIZES
  {
    var h1 := PutBlock(h, r, i);
    if |h1.recs[r].free| == NBlocks(h.recs[r].blk) then UnlinkPage(h1, r) else h1
  }

  lemma FreeBlockOk(h: Heap, reserved: set<nat>, r: nat, i: nat)
    requires HeapOk(h, reserved) && LiveSub(h, r, i)
    ensures r < TOTAL_REFS && |h.bySize| == NSIZES && HeapOk(FreeBlock(h, r, i), reserved)
    ensures forall q, j :: LiveSub(FreeBlock(h, r, i), q, j) <==> LiveSub(h, q, j) && (q != r || j != i)
  {
    hide ListsOk, SpaceOk, UnlinkPage, SizeOf;
    var h1 := PutBlock(h, r, i);
    SamePagesOk(h, h1, reserved);
    PutBlockOk(h, r, i);
    ListsSize(h);
    assert r < TOTAL_REFS;
    assert forall q :: q in h1.recs && q != r ==> |h1.recs[q].free| < NBlocks(h1.recs[q].blk);
    hide RootsOk, BitsOk, LiveSub, PageOk, SamePages;
    if |h1.recs[r].free| == NBlocks(h.recs[r].blk) {
      hide PagesOk, HeapOk;
      UnlinkPageOk(h1, reserved, r);
      FullPageIdle(h1, UnlinkPage(h1, r), r);
    }
  }

  /** A completely free page has no block in use, so nothing in use is lost when it goes. */
  lemma FullPageIdle(h: Heap, h': Heap, r: nat)
    requires r in h.recs && PageOk(h.recs[r]) && |h.recs[r].free| == NBlocks(h.recs[r].blk) && h'.recs == h.recs - {r}
    ensures forall q, j :: LiveSub(h', q, j) <==> LiveSub(h, q, j)
  {
    hide SizeOf;
    FullFreeList(h.recs[r].free, NBlocks(h.recs[r].blk));
    assert forall j :: !LiveSub(h, r, j);
  }

  lemma PutBlockOk(h: Heap, r: nat, i: nat)
    requires PagesOk(h) && LiveSub(h, r, i)
    ensures var h1 := PutBlock(h, r, i);
            && (forall q :: q in h1.recs ==> PageOk(h1.recs[q]))
            && |h1.recs[r].free| <= NBlocks(h.recs[r].blk)
            && (forall q, j :: LiveSub(h1, q, j) <==> LiveSub(h, q, j) && (q != r || j != i))
  {
    var h1 := PutBlock(h, r, i);
    var f := h1.recs[r].free;
    assert f == [i] + h.recs[r].free && forall x :: x in f <==> x == i || x in h.recs[r].free;
    assert NoDup(f);
  }

  /** A duplicate-free list of n indices below n has them all. */
  lemma FullFreeList(f: seq<nat>, n: nat)
    requires NoDup(f) && |f| == n && forall k :: 0 <= k < n ==> f[k] < n
    ensures forall j :: 0 <= j < n ==> j in f
  {
    forall j | 0 <= j < n ensures j in f {
      PigeonHole(f, n, j);
    }
  }

  /** Without one of the values below n there is no room for n different ones. */
  lemma {:induction false} PigeonHole(f: seq<nat>, n: nat, j: nat)
    requires NoDup(f) && j < n && (forall k :: 0 <= k < |f| ==> f[k] < n)
    ensures |f| <= n && (j !in f ==> |f| < n)
    decreases n
  {
    var m := n - 1;
    assert |f| > 0 ==> f[0] < n;
    if m in f {
      var k :| 0 <= k < |f| && f[k] == m;
      var g := f[..k] + f[k + 1..];
      assert forall x :: 0 <= x < |g| ==> g[x] == if x < k then f[x] else f[x + 1];
      assert |g| > 0 ==> g[0] < n;
      if m > 0 {
        PigeonHole(g, m, if j < m then j else 0);
        assert j < m && j in g ==> j in f;
      }
    } else if m > 0 {
      PigeonHole(f, m, 0);
    }
  }

  lemma UnlinkPageOk(h: Heap, reserved: set<nat>, r: nat)
    requires RootsOk(h) && ListsOk(h) && BitsOk(h, reserved) && SpaceOk(h) && r in h.recs && r < TOTAL_REFS
    requires |h.bySize| == NSIZES && h.recs[r].blk < NSIZES
    requires forall q :: q in h.recs ==> PageOk(h.recs[q]) && (q != r ==> |h.recs[q].free| < NBlocks(h.recs[q].blk))
    ensures HeapOk(UnlinkPage(h, r), reserved)
    ensures UnlinkPage(h, r).recs == h.recs - {r}
  {
    hide ListsOk, SpaceOk, SizeOf;
    var h', h1 := UnlinkPage(h, r), SetBit(h, r, false);
    UnlinkBits(h, reserved, r);
    SetBitOk(h, r, false);
    SameButBitsOk(h, h1);
    UnlinkSpace(h1, h', r);
    UnlinkLists(h, r);
  }

  lemma UnlinkBits(h: Heap, reserved: set<nat>, r: nat)
    requires RootsOk(h) && BitsOk(h, reserved) && |h.bySize| == NSIZES && r in h.recs && r < TOTAL_REFS
    requires h.recs[r].blk < NSIZES
    ensures RootsOk(UnlinkPage(h, r)) && BitsOk(UnlinkPage(h, r), reserved)
  {
    var h', h1 := UnlinkPage(h, r), SetBit(h, r, false);
    SetBitOk(h, r, false);
    SameRootsOk(h1, h');
  }

  lemma SameRootsOk(h: Heap, h': Heap)
    requires RootsOk(h) && h'.roots == h.roots
    ensures RootsOk(h') && forall q :: 0 <= q < TOTAL_REFS ==> Bit(h', q) == Bit(h, q)
  {
  }

  lemma ListsSize(h: Heap)
    requires ListsOk(h)
    ensures |h.bySize| == NSIZES
  {
  }

  lemma UnlinkSpace(h: Heap, h': Heap, r: nat)
    requires SpaceOk(h) && h'.recs == h.recs - {r} && h'.roots == h.roots && h'.big == h.big
    ensures SpaceOk(h')
  {
  }

  lemma UnlinkLists(h: Heap, r: nat)
    requires RootsOk(h) && ListsOk(h) && r in h.recs && r < TOTAL_REFS && h.recs[r].blk < NSIZES
    ensures ListsOk(UnlinkPage(h, r))
  {
    var h', b := UnlinkPage(h, r), h.recs[r].blk;
    WithoutOk(h.all, r);
    WithoutOk(h.bySize[b], r);
    assert forall c :: 0 <= c < NSIZES && c != b ==> h'.bySize[c] == h.bySize[c];
  }
}
