/**
 The kernel heap (kern/vm/kmalloc.c) as a value: pages of equal blocks with their free lists,
 the per-size and global lists of pages, the pool of pagerefs with its bitmaps, and the
 multi-page blocks. Class Kmalloc.Allocator keeps the same heap in linked records.
 A pageref is named by its number, root * 256 + index; a block by its page and its index in it.
 */
module Kheap {
  import opened Prelude

  const NSIZES: nat := 8
  const REFS_PER_PAGE: nat := 256
  const NUM_ROOTS: nat := 16
  const TOTAL_REFS: nat := 4096
  const LARGEST_SUBPAGE: nat := 2048

  /** The size classes 16, 32, ..., 2048. */
  function SizeOf(b: nat): (r: nat)
    requires b < NSIZES
    ensures 16 <= r <= LARGEST_SUBPAGE && PAGE_SIZE % r == 0
  {
    [16, 32, 64, 128, 256, 512, 1024, 2048][b]
  }

  function NBlocks(b: nat): (r: nat)
    requires b < NSIZES
    ensures r * SizeOf(b) == PAGE_SIZE && 2 <= r <= 256
  {
    [256, 128, 64, 32, 16, 8, 4, 2][b]
  }

  /** free: the indices of the free blocks, in free-list order. */
  datatype PageRec = PageRec(addr: nat, blk: nat, free: seq<nat>)

  datatype Root = Root(page: nat, inuse: seq<bool>, count: nat)

  /** big: multi-page blocks by address. bySize and all are the two page lists, head first. */
  datatype Heap = Heap(recs: map<nat, PageRec>, bySize: seq<seq<nat>>, all: seq<nat>,
                       roots: seq<Root>, big: map<nat, nat>)

  function BlockAddr(p: PageRec, i: nat): nat
    requires p.blk < NSIZES
  {
    p.addr + i * SizeOf(p.blk)
  }

  /** blocktype: the first size class that fits. */
  predicate IsBlockType(sz: nat, b: nat) {
    b < NSIZES && sz <= SizeOf(b) && forall c :: 0 <= c < b ==> SizeOf(c) < sz
  }

  function CountTrue(s: seq<bool>): nat {
    if s == [] then 0 else CountTrue(s[..|s| - 1]) + if s[|s| - 1] then 1 else 0
  }

  function Bit(h: Heap, r: nat): bool
    requires |h.roots| == NUM_ROOTS && r < TOTAL_REFS
    requires |h.roots[r / REFS_PER_PAGE].inuse| == REFS_PER_PAGE
  {
    h.roots[r / REFS_PER_PAGE].inuse[r % REFS_PER_PAGE]
  }

  // ---------------------------------------------------------------- the invariant

  predicate PageOk(p: PageRec) {
    && p.addr > 0 && p.addr % PAGE_SIZE == 0 && p.blk < NSIZES
    && NoDup(p.free) && (forall k :: 0 <= k < |p.free| ==> p.free[k] < NBlocks(p.blk))
  }

  predicate RootsOk(h: Heap) {
    |h.roots| == NUM_ROOTS && forall w :: 0 <= w < NUM_ROOTS ==>
      |h.roots[w].inuse| == REFS_PER_PAGE && h.roots[w].count == CountTrue(h.roots[w].inuse)
  }

  /** Every page is on the global list once and on the list of its size once, and on no other list. */
  ghost predicate ListsOk(h: Heap) {
    && |h.bySize| == NSIZES && NoDup(h.all) && (forall r :: r in h.all <==> r in h.recs)
    && (forall b :: 0 <= b < NSIZES ==> NoDup(h.bySize[b]))
    && (forall b, r :: 0 <= b < NSIZES ==> (r in h.bySize[b] <==> r in h.recs && h.recs[r].blk == b))
  }

  /** The bitmap marks the pagerefs of the pages and those reserved by allocations under way. */
  ghost predicate BitsOk(h: Heap, reserved: set<nat>)
    requires RootsOk(h)
  {
    && (forall r :: r in h.recs ==> r < TOTAL_REFS && h.roots[r / REFS_PER_PAGE].page != 0 && r !in reserved)
    && (forall r :: r in reserved ==> r < TOTAL_REFS)
    && (forall r :: 0 <= r < TOTAL_REFS ==> (Bit(h, r) <==> r in h.recs || r in reserved))
  }

  predicate Apart(a: nat, n: nat, b: nat, m: nat) { a + n <= b || b + m <= a }

  /** Heap pages, pageref pages and multi-page blocks occupy disjoint memory. */
  ghost predicate SpaceOk(h: Heap) {
    && (forall r, q :: r in h.recs && q in h.recs && r != q ==> h.recs[r].addr != h.recs[q].addr)
    && (forall a :: a in h.big ==> a > 0 && a % PAGE_SIZE == 0 && h.big[a] >= 1)
    && (forall a, b :: a in h.big && b in h.big && a != b ==> Apart(a, h.big[a] * PAGE_SIZE, b, h.big[b] * PAGE_SIZE))
    && (forall r, a :: r in h.recs && a in h.big ==> Apart(h.recs[r].addr, PAGE_SIZE, a, h.big[a] * PAGE_SIZE))
    && (forall w :: 0 <= w < |h.roots| ==> h.roots[w].page % PAGE_SIZE == 0)
    && (forall w, r :: 0 <= w < |h.roots| && r in h.recs ==> h.roots[w].page != h.recs[r].addr)
    && (forall w, a :: 0 <= w < |h.roots| && h.roots[w].page != 0 && a in h.big ==>
          Apart(h.roots[w].page, PAGE_SIZE, a, h.big[a] * PAGE_SIZE))
    && (forall v, w :: 0 <= v < w < |h.roots| && h.roots[v].page != 0 ==> h.roots[v].page != h.roots[w].page)
  }

  /** Between operations no page is completely free. */
  ghost predicate PagesOk(h: Heap) {
    forall r :: r in h.recs ==> PageOk(h.recs[r]) && |h.recs[r].free| < NBlocks(h.recs[r].blk)
  }

  ghost predicate HeapOk(h: Heap, reserved: set<nat>) {
    RootsOk(h) && PagesOk(h) && ListsOk(h) && BitsOk(h, reserved) && SpaceOk(h)
  }

  /** n pages from va as alloc_kpages hands them out: unused by anybody else. */
  ghost predicate FreshRange(h: Heap, va: nat, n: nat) {
    && va > 0 && va % PAGE_SIZE == 0 && n >= 1
    && (forall r :: r in h.recs ==> Apart(va, n * PAGE_SIZE, h.recs[r].addr, PAGE_SIZE))
    && (forall a :: a in h.big ==> Apart(va, n * PAGE_SIZE, a, h.big[a] * PAGE_SIZE))
    && (forall w :: 0 <= w < |h.roots| && h.roots[w].page != 0 ==> Apart(va, n * PAGE_SIZE, h.roots[w].page, PAGE_SIZE))
  }

  // ---------------------------------------------------------------- the critical sections

  /** The first page of the list with a free block. */
  function FirstWithFree(recs: map<nat, PageRec>, list: seq<nat>): Option<nat> {
    if list == [] then None
    else if list[0] in recs && |recs[list[0]].free| > 0 then Some(list[0])
    else FirstWithFree(recs, list[1..])
  }

  /** subpage_kmalloc at doalloc: the head of the free list is handed out. */
  function TakeBlock(h: Heap, r: nat): Heap
    requires r in h.recs && |h.recs[r].free| > 0
  {
    h.(recs := h.recs[r := h.recs[r].(free := h.recs[r].free[1..])])
  }

  /** subpage_kfree: the block becomes the head of the free list. */
  function PutBlock(h: Heap, r: nat, i: nat): Heap
    requires r in h.recs
  {
    h.(recs := h.recs[r := h.recs[r].(free := [i] + h.recs[r].free)])
  }

  /** The free list of a new page: built from block 0 upwards, so the last block is its head. */
  function FreshFree(b: nat): (f: seq<nat>)
    requires b < NSIZES
    ensures |f| == NBlocks(b) && forall k :: 0 <= k < |f| ==> f[k] == NBlocks(b) - 1 - k
  {
    seq(NBlocks(b), (k: nat) requires k < NBlocks(b) => NBlocks(b) - 1 - k)
  }

  /** A new page at the head of both lists. */
  function LinkPage(h: Heap, r: nat, va: nat, b: nat): Heap
    requires b < NSIZES && |h.bySize| == NSIZES
  {
    Heap(h.recs[r := PageRec(va, b, FreshFree(b))], h.bySize[b := [r] + h.bySize[b]], [r] + h.all, h.roots, h.big)
  }

  function Without(list: seq<nat>, r: nat): seq<nat> {
    if list == [] then [] else if list[0] == r then list[1..] else [list[0]] + Without(list[1..], r)
  }

  /** remove_lists and freepageref for a page that became completely free. */
  function UnlinkPage(h: Heap, r: nat): Heap
    requires RootsOk(h) && |h.bySize| == NSIZES && r in h.recs && r < TOTAL_REFS && h.recs[r].blk < NSIZES
  {
    var b := h.recs[r].blk;
    SetBit(h, r, false).(recs := h.recs - {r}, bySize := h.bySize[b := Without(h.bySize[b], r)], all := Without(h.all, r))
  }

  function SetBit(h: Heap, r: nat, v: bool): Heap
    requires |h.roots| == NUM_ROOTS && r < TOTAL_REFS && |h.roots[r / REFS_PER_PAGE].inuse| == REFS_PER_PAGE
  {
    var root := h.roots[r / REFS_PER_PAGE];
    h.(roots := h.roots[r / REFS_PER_PAGE := SetRootBit(root, r % REFS_PER_PAGE, v)])
  }

  function SetRootBit(root: Root, i: nat, v: bool): Root
    requires i < |root.inuse|
  {
    Root(root.page, root.inuse[i := v],
         if v == root.inuse[i] then root.count else if v then root.count + 1 else if root.count > 0 then root.count - 1 else 0)
  }

  /** The pageref allocpageref picks: the lowest clear bit of the first root that is not full. */
  ghost predicate IsNextRef(h: Heap, r: nat)
    requires RootsOk(h)
  {
    r < TOTAL_REFS && !Bit(h, r) && forall q :: 0 <= q < r ==> Bit(h, q)
  }

  // ---------------------------------------------------------------- counting bits

  lemma {:induction false} CountUpdate(s: seq<bool>, i: nat, v: bool)
    requires i < |s|
    ensures CountTrue(s[i := v]) == CountTrue(s) + (if v then 1 else 0) - (if s[i] then 1 else 0)
  {
    var t, n := s[i := v], |s| - 1;
    if i == n {
      assert t[..n] == s[..n];
    } else {
      CountUpdate(s[..n], i, v);
      assert t[..n] == s[..n][i := v];
    }
  }

  lemma {:induction false} CountBounds(s: seq<bool>)
    ensures CountTrue(s) <= |s|
    ensures CountTrue(s) == |s| <==> forall i :: 0 <= i < |s| ==> s[i]
  {
    if s != [] {
      CountBounds(s[..|s| - 1]);
      assert forall i :: 0 <= i < |s| - 1 ==> s[..|s| - 1][i] == s[i];
    }
  }

  lemma RefSplit(r: nat, q: nat)
    ensures r / REFS_PER_PAGE == q / REFS_PER_PAGE && r % REFS_PER_PAGE == q % REFS_PER_PAGE ==> r == q
    ensures r < TOTAL_REFS ==> r / REFS_PER_PAGE < NUM_ROOTS
  {
  }

  lemma SetBitOk(h: Heap, r: nat, v: bool)
    requires RootsOk(h) && r < TOTAL_REFS
    ensures RootsOk(SetBit(h, r, v))
    ensures forall q :: 0 <= q < TOTAL_REFS ==> Bit(SetBit(h, r, v), q) == if q == r then v else Bit(h, q)
    ensures forall w :: 0 <= w < NUM_ROOTS ==> SetBit(h, r, v).roots[w].page == h.roots[w].page
  {
    var w, i := r / REFS_PER_PAGE, r % REFS_PER_PAGE;
    CountUpdate(h.roots[w].inuse, i, v);
    CountBounds(h.roots[w].inuse);
    forall q | 0 <= q < TOTAL_REFS ensures Bit(SetBit(h, r, v), q) == if q == r then v else Bit(h, q) {
      RefSplit(q, r);
    }
  }

  // ---------------------------------------------------------------- lists

  lemma {:induction false} WithoutAt(list: seq<nat>, r: nat, k: nat)
    requires NoDup(list) && k < |list| && list[k] == r
    ensures Without(list, r) == list[..k] + list[k + 1..]
  {
    if k > 0 {
      assert list[0] != list[k];
      WithoutAt(list[1..], r, k - 1);
      assert list[1..][..k - 1] == list[1..k] && list[1..][k..] == list[k + 1..];
      assert list[..k] == [list[0]] + list[1..k];
    }
  }

  lemma {:induction false} WithoutAbsent(list: seq<nat>, r: nat)
    requires r !in list
    ensures Without(list, r) == list
  {
    if list != [] {
      WithoutAbsent(list[1..], r);
    }
  }

  lemma WithoutOk(list: seq<nat>, r: nat)
    requires NoDup(list)
    ensures NoDup(Without(list, r)) && |Without(list, r)| == |list| - if r in list then 1 else 0
    ensures forall x :: x in Without(list, r) <==> x in list && x != r
  {
    if r in list {
      var k :| 0 <= k < |list| && list[k] == r;
      WithoutAt(list, r, k);
      RemovedOnce(list, k);
    } else {
      WithoutAbsent(list, r);
    }
  }

  lemma {:induction false} FirstWithFreeOk(recs: map<nat, PageRec>, list: seq<nat>)
    ensures FirstWithFree(recs, list).Some? ==>
              var r := FirstWithFree(recs, list).value; r in list && r in recs && |recs[r].free| > 0
    ensures FirstWithFree(recs, list).None? ==> forall r :: r in list && r in recs ==> recs[r].free == []
  {
    if list != [] {
      FirstWithFreeOk(recs, list[1..]);
      assert forall x :: x in list <==> x == list[0] || x in list[1..];
    }
  }
}
