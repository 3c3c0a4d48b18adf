/**
 The allocator of kern/vm/kmalloc.c on its own data: arrays of pageref records and roots, list heads,
 and a memory of words in which the free lists are threaded. Every critical section is proved against
 the abstract heap, and every KASSERT of the normal build is an assert here.
 */
module Kmalloc {
  import opened Prelude
  import opened Kheap
  import opened KheapInvariant
  import opened KheapCalls
  import opened KheapRefs
  import opened KheapRuns
  import opened KmallocLinks

  /** PageFreed asks the caller to give the page back; the last two are panics. */
  datatype FreeResult = NotOurs | Done | PageFreed(page: nat) | BadAddress | RefPanic

  /** blocktype. */
  method BlockTypeFor(size: nat) returns (b: nat)
    requires size <= LARGEST_SUBPAGE
    ensures IsBlockType(size, b) && b == BlockType(size)
  {
    b := 0;
    while b < NSIZES
      invariant b < NSIZES && forall c :: 0 <= c < b ==> SizeOf(c) < size
    {
      if size <= SizeOf(b) {
        return;
      }
      b := b + 1;
    }
    assert false;
  }

  /** The address is a block that is on a free list already. */
  ghost predicate AlreadyFree(h: Heap, ptr: nat) {
    match FindPage(h, h.all, ptr)
    case None => false
    case Some(r) =>
      && r in h.recs && h.recs[r].blk < NSIZES && h.recs[r].addr <= ptr
      && (ptr - h.recs[r].addr) % SizeOf(h.recs[r].blk) == 0
      && (ptr - h.recs[r].addr) / SizeOf(h.recs[r].blk) in h.recs[r].free
  }

  /** What subpage_kfree does with an address on page r: the two panics, and whether the page goes too. */
  ghost predicate FreeOutcome(h: Heap, r: nat, ptr: nat, res: FreeResult)
    requires r in h.recs && h.recs[r].blk < NSIZES && h.recs[r].addr <= ptr
  {
    var p := h.recs[r];
    if (ptr - p.addr) % SizeOf(p.blk) != 0 then res == BadAddress
    else if |p.free| + 1 < NBlocks(p.blk) then res == Done
    else res == if PassesEmptyRoots(h.roots, r) then PageFreed(p.addr) else RefPanic
  }

  ghost predicate Outcome(h: Heap, ptr: nat, res: FreeResult, h': Heap)
    requires Shaped(h)
  {
    match FindPage(h, h.all, ptr)
    case None => res == NotOurs && h' == h
    case Some(r) =>
      && r in h.recs && r < TOTAL_REFS && h.recs[r].blk < NSIZES && h.recs[r].addr <= ptr
      && FreeOutcome(h, r, ptr, res)
      && ((res.Done? || res.PageFreed?) ==> h' == FreeBlock(h, r, (ptr - h.recs[r].addr) / SizeOf(h.recs[r].blk)))
  }

  // ---------------------------------------------------------------- what kmalloc answers

  /** Page r is the first one on the list of size class b that has a free block. */
  ghost predicate FirstWithBlock(h: Heap, b: nat, r: nat)
    requires b < |h.bySize|
  {
    exists k :: 0 <= k < |h.bySize[b]| && h.bySize[b][k] == r && HasBlock(h, r)
                && forall j :: 0 <= j < k ==> !HasBlock(h, h.bySize[b][j])
  }

  predicate HasBlock(h: Heap, r: nat) { r in h.recs && h.recs[r].free != [] }

  ghost predicate AnyWithBlock(h: Heap, b: nat)
    requires b < |h.bySize|
  {
    exists r :: r in h.bySize[b] && HasBlock(h, r)
  }

  lemma {:induction false} FirstFoundIsFirst(h: Heap, b: nat, list: seq<nat>, n: nat)
    requires b < |h.bySize| && n <= |h.bySize[b]| && list == h.bySize[b][n..]
    requires forall j :: 0 <= j < n ==> !HasBlock(h, h.bySize[b][j])
    ensures FirstWithFree(h.recs, list).Some? ==> FirstWithBlock(h, b, FirstWithFree(h.recs, list).value)
    ensures FirstWithFree(h.recs, list).Some? <==> AnyWithBlock(h, b)
    decreases |list|
  {
    if n < |h.bySize[b]| {
      assert list[0] == h.bySize[b][n] && h.bySize[b][n] in h.bySize[b];
      if !HasBlock(h, list[0]) {
        FirstFoundIsFirst(h, b, list[1..], n + 1);
      }
    }
  }

  /** The block is the head of the free list of the first page that has one, and nothing else has changed. */
  ghost predicate FromListed(h: Heap, b: nat, ptr: nat, owner: Owner, h': Heap)
    requires b < |h.bySize|
  {
    owner.Sub? && var r := owner.r;
    && FirstWithBlock(h, b, r) && r in h.recs && h.recs[r].blk == b < NSIZES && h.recs[r].free != []
    && owner == Sub(r, h.recs[r].free[0]) && ptr == BlockAddr(h.recs[r], h.recs[r].free[0]) && h' == TakeBlock(h, r)
  }

  ghost predicate AllRefsTaken(h: Heap)
    requires RootsOk(h)
  {
    forall q :: 0 <= q < TOTAL_REFS ==> Bit(h, q)
  }

  /** The pageref that is next has no page to lie in. */
  ghost predicate RootMissing(h: Heap)
    requires RootsOk(h)
  {
    exists r: nat :: IsNextRef(h, r) && h.roots[r / REFS_PER_PAGE].page == 0
  }

  /** No block can be had from a new page. */
  ghost predicate NoNewBlock(h: Heap, page: nat, refpage: nat)
    requires RootsOk(h)
  {
    page == 0 || AllRefsTaken(h) || (RootMissing(h) && refpage == 0)
  }

  /** Pageref r is reserved, and refpage, if it was needed and there is one, holds the pagerefs of its root. */
  function WithRef(h: Heap, r: nat, refpage: nat): Heap
    requires RootsOk(h) && r < TOTAL_REFS
  {
    if refpage == 0 then SetBit(h, r, true) else InstallRoot(SetBit(h, r, true), r / REFS_PER_PAGE, refpage)
  }

  /** The pages of alloc_kpages that are put to use. */
  ghost function PagesUsed(h: Heap, page: nat, refpage: nat): set<nat>
    requires RootsOk(h)
  {
    if NoNewBlock(h, page, refpage) then {} else if RootMissing(h) then {page, refpage} else {page}
  }

  /** The pageref is the next one; the page, on both lists, has all but its last block free, which is the client's. */
  ghost predicate FromNewPage(h: Heap, b: nat, page: nat, refpage: nat, ptr: nat, owner: Owner, h': Heap)
    requires Shaped(h) && b < NSIZES
  {
    owner.Sub? && var r := owner.r;
    && IsNextRef(h, r) && owner == Sub(r, NBlocks(b) - 1) && ptr == LinkedAt(page, b)
    && h' == TakeBlock(LinkPage(WithRef(h, r, refpage), r, page, b), r)
  }

  /** Without a new block the heap is as before, but for the pageref that stays reserved when its root gets no page. */
  ghost predicate NothingGot(h: Heap, page: nat, h': Heap)
    requires RootsOk(h)
  {
    if page == 0 || AllRefsTaken(h) then h' == h else exists r: nat :: IsNextRef(h, r) && h' == SetBit(h, r, true)
  }

  ghost predicate NewPageAnswer(h: Heap, b: nat, page: nat, refpage: nat, ptr: nat, owner: Owner, h': Heap)
    requires Shaped(h) && b < NSIZES
  {
    && (ptr == 0 <==> NoNewBlock(h, page, refpage))
    && if ptr == 0 then NothingGot(h, page, h') else FromNewPage(h, b, page, refpage, ptr, owner, h')
  }

  /** The answer to a request for less than a page, whichever way it is met. */
  ghost predicate SmallAnswer(h: Heap, b: nat, page: nat, refpage: nat, ptr: nat, owner: Owner, h': Heap)
    requires Shaped(h) && b < NSIZES
  {
    if AnyWithBlock(h, b) then ptr != 0 && FromListed(h, b, ptr, owner, h') else NewPageAnswer(h, b, page, refpage, ptr, owner, h')
  }

  /** What kfree answers for a held block: another allocator's, gone with its whole page, or back on its page. */
  ghost predicate FreeAnswer(s: State, ptr: nat, res: FreeResult)
    requires ptr in s.live && Shaped(s.h)
  {
    match s.live[ptr].owner
    case Whole => res == NotOurs
    case Sub(r, i) =>
      && r in s.h.recs && s.h.recs[r].blk < NSIZES
      && res == if |s.h.recs[r].free| + 1 < NBlocks(s.h.recs[r].blk) then Done
                else if PassesEmptyRoots(s.h.roots, r) then PageFreed(s.h.recs[r].addr) else RefPanic
  }

  class Allocator {
    const refs: array<Pageref>
    const bases: array<int>
    const roots: array<Root>
    var allbase: int
    var mem: map<nat, nat>
    ghost var heap: Heap
    ghost var reserved: set<nat>

    ghost predicate Valid()
      reads this, refs, bases, roots
    {
      && refs.Length == TOTAL_REFS && bases.Length == NSIZES && roots.Length == NUM_ROOTS
      && HeapOk(heap, reserved) && roots[..] == heap.roots
      && PagesStored(refs[..], mem, heap) && ListsStored(refs[..], bases[..], allbase, heap)
    }

    /** Between linking a new page and taking its first block, page r is completely free. */
    ghost predicate Open(r: nat)
      reads this, refs, bases, roots
    {
      && refs.Length == TOTAL_REFS && bases.Length == NSIZES && roots.Length == NUM_ROOTS
      && HeapOkBut(heap, reserved, r) && roots[..] == heap.roots
      && PagesStored(refs[..], mem, heap) && ListsStored(refs[..], bases[..], allbase, heap)
    }

    constructor ()
      ensures Valid() && heap == Booted().h && reserved == {}
      ensures fresh(refs) && fresh(bases) && fresh(roots)
    {
      refs := new Pageref[TOTAL_REFS](_ => Pageref(NULL, NULL, 0, 0, 0));
      bases := new int[NSIZES](_ => NULL);
      roots := new Root[NUM_ROOTS](_ => Root(0, seq(REFS_PER_PAGE, _ => false), 0));
      allbase := NULL;
      mem := map[];
      reserved := {};
      heap := Booted().h;
      new;
      BootedOk();
    }

    /** subpage_kmalloc at doalloc: the head of the page's free list. */
    method Take(r: nat) returns (ptr: nat)
      requires Open(r) && r in heap.recs && |heap.recs[r].free| > 0
      modifies this, refs
      ensures Valid() && reserved == old(reserved)
      ensures heap == TakeBlock(old(heap), r)
      ensures ptr == BlockAddr(old(heap).recs[r], old(heap).recs[r].free[0])
    {
      hide RootsOk, ListsOk, BitsOk, SpaceOk, ListsStored;
      ghost var p := heap.recs[r];
      assert PageStored(refs[..], mem, heap, r) && PageOk(p);
      BlockInPage(p, p.free[0]);
      var pr := refs[r];
      assert pr.offset < PAGE_SIZE;
      var prpage := PageAddr(pr);
      ptr := prpage + pr.offset;
      var fl := mem[ptr];
      assert fl == NextFree(p, 0);
      if fl != 0 {
        assert pr.nfree - 1 > 0;
        NextInPage(p);
        assert 0 <= fl - prpage < PAGE_SIZE;
        pr := pr.(nfree := pr.nfree - 1, offset := fl - prpage);
      } else {
        NextInPage(p);
        assert pr.nfree - 1 == 0;
        pr := pr.(nfree := pr.nfree - 1, offset := INVALID_OFFSET);
      }
      TakeStored(refs[..], mem, heap, r, pr);
      ListsKept(refs[..], refs[..][r := pr], bases[..], allbase, heap, TakeBlock(heap, r));
      TakeHeapOk(heap, reserved, r);
      refs[r] := pr;
      heap := TakeBlock(heap, r);
    }

    /** The first part of subpage_kmalloc: the first page of the size list with a free block; 0 when there is none. */
    method TakeFrom(size: nat) returns (ptr: nat)
      requires Valid() && size < LARGEST_SUBPAGE
      modifies this, refs
      ensures Valid() && reserved == old(reserved) && |old(heap).bySize| == NSIZES
      ensures match FirstWithFree(old(heap).recs, old(heap).bySize[BlockType(size)])
              case None => ptr == 0 && heap == old(heap)
              case Some(r) =>
                && r in old(heap).recs && old(heap).recs[r].blk == BlockType(size) && old(heap).recs[r].free != []
                && heap == TakeBlock(old(heap), r)
                && ptr == BlockAddr(old(heap).recs[r], old(heap).recs[r].free[0]) && ptr > 0
    {
      hide RootsOk, BitsOk, SpaceOk, PagesOk, IsBlockType;
      var b := BlockTypeFor(size);
      ghost var list := heap.bySize[b];
      assert SameChain(refs[..], bases[b], list);
      var pr := bases[b];
      ghost var k := 0;
      while pr != NULL
        invariant k <= |list| && pr == (if k < |list| then list[k] else NULL)
        invariant FirstWithFree(heap.recs, list[k..]) == FirstWithFree(heap.recs, list)
        decreases |list| - k
      {
        assert list[k] in list && pr in heap.recs && PageStored(refs[..], mem, heap, pr);
        assert BlkType(refs[pr]) == b;
        assert list[k..][0] == pr && list[k..][1..] == list[k + 1..];
        if refs[pr].nfree > 0 {
          assert FirstWithFree(heap.recs, list) == Some(pr);
          PagePositive(heap, pr);
          HeapOkWeaken(heap, reserved, pr);
          ptr := Take(pr);
          return;
        }
        pr := refs[pr].nextSame;
        k := k + 1;
      }
      ptr := 0;
    }

    /** The second part of subpage_kmalloc: a new page is threaded, put at the head of both lists, and used. */
    method LinkNew(r: nat, va: nat, size: nat) returns (ptr: nat)
      requires Valid() && r in reserved && size < LARGEST_SUBPAGE && FreshRange(heap, va, 1)
      requires r / REFS_PER_PAGE < roots.Length && roots[r / REFS_PER_PAGE].page != 0
      modifies this, refs, bases
      ensures Valid() && reserved == old(reserved) - {r} && |old(heap).bySize| == NSIZES
      ensures var b := BlockType(size);
              heap == TakeBlock(LinkPage(old(heap), r, va, b), r) && ptr == LinkedAt(va, b) && ptr > 0
    {
      hide RootsOk, BitsOk, SpaceOk, PagesOk, ListsOk, FreshRange, IsBlockType, PagesStored, ListsStored, HeapOkBut, BlockAddr, Built;
      var b := BlockTypeFor(size);
      ghost var h := heap;
      ListsSize(h);
      assert r < TOTAL_REFS && r !in h.recs by { ReservedUnused(h, reserved, r); }
      LinkPageOk(h, reserved, r, va, b, size);
      FreshAligned(h, va);
      SizesDivide(b);
      var nfree := PAGE_SIZE / SizeOf(b);
      var fl := Thread(va, b, nfree);
      AtBounds(va, b, nfree - 1);
      assert fl - va == (nfree - 1) * SizeOf(b);
      ghost var p := PageRec(va, b, FreshFree(b));
      assert p.free[0] == nfree - 1;
      var pr := Pageref(bases[b], allbase, Pack(va, b), fl - va, nfree);
      assert Describes(pr, p);
      NewPageStored(refs[..], old(mem), mem, h, r, va, b, pr);
      NotListed(h, r);
      LinkStored(refs[..], bases[..], allbase, h, r, va, b, pr);
      refs[r] := pr;
      bases[b] := r;
      allbase := r;
      heap := LinkPage(h, r, va, b);
      reserved := reserved - {r};
      ptr := Take(r);
      assert ptr == At(va, b, nfree - 1) by { SameBlockAddr(p, PageRec(va, b, []), nfree - 1); }
    }

    /** The loop that threads a free list through a new page, from block 0 upwards. */
    method Thread(va: nat, b: nat, nfree: nat) returns (fl: nat)
      requires va > 0 && va % PAGE_SIZE == 0 && b < NSIZES && nfree == NBlocks(b)
      modifies this`mem
      ensures fl == At(va, b, nfree - 1) && Built(mem, va, b, nfree) && OnlyPage(old(mem), mem, va)
    {
      hide BlockAddr, At;
      AtBounds(va, b, 0);
      fl := va;
      mem := mem[fl := 0];
      var i := 1;
      while i < nfree
        invariant 1 <= i <= nfree && fl == At(va, b, i - 1)
        invariant Built(mem, va, b, i) && OnlyPage(old(mem), mem, va)
      {
        AtBounds(va, b, i);
        AtBounds(va, b, i - 1);
        AtApart(va, b, i, i - 1);
        forall j | 0 <= j < i ensures At(va, b, j) != At(va, b, i) {
          AtApart(va, b, i, j);
        }
        fl := va + i * SizeOf(b);
        mem := mem[fl := va + (i - 1) * SizeOf(b)];
        assert fl != mem[fl];
        i := i + 1;
      }
    }

    /** remove_lists, first half: the page leaves the list of its size. */
    method RemoveSame(r: nat, b: nat, ghost k: nat)
      requires ListsStored(refs[..], bases[..], allbase, heap) && ListsOk(heap) && bases.Length == NSIZES
      requires r < refs.Length && b < NSIZES && k < |heap.bySize[b]| && heap.bySize[b][k] == r
      modifies refs, bases
      ensures SameButNexts(old(refs[..]), refs[..])
      ensures ListsStored(refs[..], bases[..], allbase, heap.(bySize := heap.bySize[b := Without(heap.bySize[b], r)]))
    {
      SizeChain(refs[..], bases[..], allbase, heap, b);
      ghost var was, wasBases := refs[..], bases[..];
      hide ListsStored, ListsOk, SameButNexts, SameChain;
      var prev := PrevSame(r, b, k);
      var next := refs[r].nextSame;
      if prev == NULL {
        bases[b] := next;
      } else {
        refs[prev] := refs[prev].(nextSame := next);
      }
      SameRemoved(heap, was, refs[..], wasBases, bases[..], allbase, r, b, k, prev);
    }

    /** The record whose pointer leads to r; NULL for the list head. */
    method PrevSame(r: nat, b: nat, ghost k: nat) returns (prev: int)
      requires bases.Length == NSIZES && |heap.bySize| == NSIZES && b < NSIZES && r < refs.Length
      requires SameChain(refs[..], bases[b], heap.bySize[b]) && NoDup(heap.bySize[b])
      requires k < |heap.bySize[b]| && heap.bySize[b][k] == r
      ensures prev == if k == 0 then NULL else heap.bySize[b][k - 1]
    {
      ghost var list := heap.bySize[b];
      SameWalk(refs[..], bases[b], list, k);
      hide SameChain, NoDup;
      var cur := bases[b];
      prev := NULL;
      ghost var i := 0;
      while cur != r
        invariant i <= k && cur == list[i] && prev == (if i == 0 then NULL else list[i - 1])
        decreases k - i
      {
        prev, cur := cur, refs[cur].nextSame;
        i := i + 1;
      }
    }

    /** remove_lists, second half: the page leaves the list of all pages. */
    method RemoveAll(r: nat, ghost k: nat)
      requires ListsStored(refs[..], bases[..], allbase, heap) && NoDup(heap.all)
      requires r < refs.Length && k < |heap.all| && heap.all[k] == r
      modifies this`allbase, refs
      ensures SameButNexts(old(refs[..]), refs[..])
      ensures ListsStored(refs[..], bases[..], allbase, heap.(all := Without(heap.all, r)))
    {
      ghost var list, was := heap.all, refs[..];
      WithoutAt(list, r, k);
      var prev, cur := NULL, allbase;
      ghost var i := 0;
      while cur != r
        invariant i <= k && cur == list[i] && prev == (if i == 0 then NULL else list[i - 1])
        decreases k - i
      {
        assert list[i] != list[k];
        prev, cur := cur, refs[cur].nextAll;
        i := i + 1;
      }
      assert list[i] == list[k];
      var next := refs[r].nextAll;
      if prev == NULL {
        allbase := next;
      } else {
        refs[prev] := refs[prev].(nextAll := next);
      }
      AllUnlinked(was, refs[..], old(allbase), list, k);
      SameNextSame(was, refs[..], bases[..], heap);
    }

    /** freepageref: false is the failed assertion on a root that is passed. */
    method FreePageref(r: nat) returns (ok: bool)
      requires roots.Length == NUM_ROOTS && r < TOTAL_REFS && RootsOk(heap) && roots[..] == heap.roots
      requires Bit(heap, r) && roots[r / REFS_PER_PAGE].page != 0
      modifies roots
      ensures ok == PassesEmptyRoots(old(roots[..]), r)
      ensures ok ==> roots[..] == SetBit(heap, r, false).roots
    {
      var w := 0;
      while w < NUM_ROOTS
        invariant w <= r / REFS_PER_PAGE && roots[..] == old(roots[..])
        invariant forall v :: 0 <= v < w && roots[v].page == 0 ==> roots[v].count == 0
      {
        if roots[w].page == 0 {
          if roots[w].count != 0 {
            return false;
          }
        } else if w == r / REFS_PER_PAGE {
          var j := r - w * REFS_PER_PAGE;
          assert j == r % REFS_PER_PAGE && roots[w].inuse[j];
          BitCounts(roots[w].inuse, j);
          assert roots[w].count > 0;
          roots[w] := Root(roots[w].page, roots[w].inuse[j := false], roots[w].count - 1);
          return true;
        }
        w := w + 1;
      }
      assert false;
    }

    /** allocpageref, up to its choice of a pageref: the lowest free one, or NULL when all are taken. */
    method AllocPageref() returns (r: int)
      requires Valid()
      modifies this, roots
      ensures Valid() && RootsOk(old(heap))
      ensures r == NULL ==> heap == old(heap) && reserved == old(reserved) && forall q :: 0 <= q < TOTAL_REFS ==> Bit(heap, q)
      ensures r != NULL ==> 0 <= r && IsNextRef(old(heap), r) && heap == SetBit(old(heap), r, true) && reserved == old(reserved) + {r}
    {
      hide SpaceOk, ListsOk, PagesOk, ListsStored, PagesStored, BitsOk;
      ghost var h0, r0 := heap, reserved;
      var w := 0;
      while w < NUM_ROOTS
        invariant 0 <= w <= NUM_ROOTS
        invariant Valid() && heap == h0 && reserved == r0
        invariant forall q :: 0 <= q < w * REFS_PER_PAGE ==> Bit(heap, q)
      {
        CountBounds(heap.roots[w].inuse);
        if roots[w].count < REFS_PER_PAGE {
          var j := 0;
          while j < REFS_PER_PAGE
            invariant 0 <= j <= REFS_PER_PAGE
            invariant Valid() && heap == h0 && reserved == r0
            invariant forall i :: 0 <= i < j ==> roots[w].inuse[i]
          {
            if !roots[w].inuse[j] {
              r := w * REFS_PER_PAGE + j;
              FirstClear(heap, w, j);
              ReserveOk(heap, reserved, r);
              BitStored(refs[..], bases[..], allbase, mem, heap, r);
              roots[w] := Root(roots[w].page, roots[w].inuse[j := true], roots[w].count + 1);
              heap := SetBit(heap, r, true);
              reserved := reserved + {r};
              return;
            }
            j := j + 1;
          }
          assert false;
        }
        FullRoot(heap, w);
        w := w + 1;
      }
      r := NULL;
    }

    /** The end of allocpagerefpage: the root takes the page unless another thread gave it one; then it is surplus. */
    method InstallPage(w: nat, va: nat) returns (surplus: bool)
      requires Valid() && w < NUM_ROOTS && FreshRange(heap, va, 1)
      modifies this, roots
      ensures Valid() && reserved == old(reserved) && |old(heap).roots| == NUM_ROOTS
      ensures heap == InstallRoot(old(heap), w, va) && surplus == (old(heap).roots[w].page != 0)
    {
      hide SpaceOk, ListsOk, PagesOk, BitsOk, FreshRange;
      InstallRootOk(heap, reserved, w, va);
      surplus := roots[w].page != 0;
      if !surplus {
        InstallStored(refs[..], bases[..], allbase, mem, heap, w, va);
        roots[w] := Root(va, roots[w].inuse, roots[w].count);
        heap := InstallRoot(heap, w, va);
      }
    }

    /** The middle of subpage_kfree: the block becomes the head of its page's free list. */
    method Push(r: nat, offset: nat, ghost i: nat)
      requires Valid() && LiveSub(heap, r, i) && offset == i * SizeOf(heap.recs[r].blk)
      modifies this`mem, this`heap, refs
      ensures Open(r) && heap == PutBlock(old(heap), r, i)
    {
      hide RootsOk, ListsOk, BitsOk, SpaceOk, ListsStored, LiveSub, PageOk, HeapOkBut, Threaded, PagesStored, BlockAddr, OffsetOf;
      LiveSubPage(heap, r, i);
      ghost var h, p := heap, heap.recs[r];
      BlockAddrIs(p, i);
      assert PageStored(refs[..], mem, heap, r) by { StoredAt(refs[..], mem, heap, r); }
      hide PagesOk, HeapOk;
      var pr := refs[r];
      var prpage := PageAddr(pr);
      var fl := prpage + offset;
      assert fl == BlockAddr(p, i);
      OffsetTells(p);
      if pr.offset == INVALID_OFFSET {
        mem := mem[fl := 0];
      } else {
        HeadNotHeld(h, reserved, r, i);
        assert fl != prpage + pr.offset;
        mem := mem[fl := prpage + pr.offset];
      }
      PutOffset(p, i);
      pr := pr.(offset := offset, nfree := pr.nfree + 1);
      PutStored(refs[..], old(mem), h, reserved, r, i, pr, mem);
      ListsKept(refs[..], refs[..][r := pr], bases[..], allbase, h, PutBlock(h, r, i));
      PutHeapOk(h, reserved, r, i);
      refs[r] := pr;
      heap := PutBlock(h, r, i);
    }

    /** The end of subpage_kfree: a completely free page leaves the heap, unless freepageref panics. */
    method Unlink(r: nat) returns (ok: bool)
      requires Open(r) && r in heap.recs && r < TOTAL_REFS && |heap.bySize| == NSIZES && heap.recs[r].blk < NSIZES
      modifies this`allbase, this`heap, refs, bases, roots
      ensures RootsOk(old(heap)) && ok == PassesEmptyRoots(old(heap).roots, r)
      ensures ok ==> Valid() && heap == UnlinkPage(old(heap), r)
    {
      hide SpaceOk, PagesStored, ListsStored, HeapOkBut, HeapOk, RootsOk, BitsOk, UnlinkPage;
      ghost var h := heap;
      assert RootsOk(h) && Bit(h, r) && h.roots[r / REFS_PER_PAGE].page != 0 by { UsedRef(h, reserved, r); }
      assert ListsOk(h) by { UsedRef(h, reserved, r); }
      var b := BlkType(refs[r]);
      assert b == h.recs[r].blk by { StoredType(refs[..], mem, h, r); }
      assert r in h.bySize[b] && r in h.all;
      ghost var k :| 0 <= k < |h.bySize[b]| && h.bySize[b][k] == r;
      ghost var l :| 0 <= l < |h.all| && h.all[l] == r;
      assert NoDup(h.all);
      RemoveSame(r, b, k);
      ghost var h1 := h.(bySize := h.bySize[b := Without(h.bySize[b], r)]);
      heap := h1;
      RemoveAll(r, l);
      heap := h;
      ok := FreePageref(r);
      if ok {
        UnlinkHeapOk(h, reserved, r);
        heap := UnlinkPage(h, r);
        UnlinkStored(h, old(refs[..]), refs[..], mem, bases[..], allbase, r);
      }
    }

    /** kfree of an address on a heap page; NotOurs for any other address. */
    method SubpageKfree(ptr: nat) returns (res: FreeResult)
      requires Valid() && !AlreadyFree(heap, ptr)
      modifies this`allbase, this`heap, this`mem, refs, bases, roots
      ensures reserved == old(reserved) && Shaped(old(heap)) && Outcome(old(heap), ptr, res, heap)
      ensures !res.BadAddress? && !res.RefPanic? ==> Valid()
    {
      hide RootsOk, BitsOk, SpaceOk, PagesOk, ListsOk, ListsStored, HeapOkBut, LiveSub, FindPage, PagesStored, BlockAddr, UnlinkPage,
           PassesEmptyRoots, PageOk;
      ghost var h := heap;
      ShapedOk(h, reserved);
      var pr := Search(ptr);
      if pr == NULL {
        return NotOurs;
      }
      HeapOkWeaken(h, reserved, pr);
      UsedRef(h, reserved, pr);
      StoredAt(refs[..], mem, heap, pr);
      var prpage := PageAddr(refs[pr]);
      var offset, size := ptr - prpage, SizeOf(BlkType(refs[pr]));
      if offset % size != 0 {
        return BadAddress;
      }
      ghost var i := offset / size;
      HeldBlock(h, reserved, pr, ptr);
      FreeRoom(h, reserved, pr, i);
      hide HeapOk;
      Push(pr, offset, i);
      StoredAt(refs[..], mem, heap, pr);
      SizesDivide(BlkType(refs[pr]));
      assert refs[pr].nfree <= PAGE_SIZE / size;
      if refs[pr].nfree == PAGE_SIZE / size {
        var ok := Unlink(pr);
        res := if ok then PageFreed(prpage) else RefPanic;
      } else {
        PutDone(heap, reserved, pr);
        res := Done;
      }
    }

    /** subpage_kfree's search of the list of all pages. */
    method Search(ptr: nat) returns (pr: int)
      requires Valid()
      ensures pr == NULL ==> FindPage(heap, heap.all, ptr) == None
      ensures pr != NULL ==> 0 <= pr < TOTAL_REFS && FindPage(heap, heap.all, ptr) == Some(pr) && pr in heap.recs
      ensures pr != NULL ==> heap.recs[pr].addr <= ptr < heap.recs[pr].addr + PAGE_SIZE
    {
      hide RootsOk, BitsOk, SpaceOk, PagesOk, ListsOk, ListsStored;
      assert AllChain(refs[..], allbase, heap.all) by { ChainOfAll(refs[..], bases[..], allbase, heap); }
      pr := allbase;
      ghost var k := 0;
      while pr != NULL
        invariant k <= |heap.all| && pr == (if k < |heap.all| then heap.all[k] else NULL)
        invariant FindPage(heap, heap.all[k..], ptr) == FindPage(heap, heap.all, ptr)
        decreases |heap.all| - k
      {
        Listed(heap, k);
        StoredAt(refs[..], mem, heap, pr);
        assert BlkType(refs[pr]) < NSIZES;
        assert heap.all[k..][0] == pr && heap.all[k..][1..] == heap.all[k + 1..];
        var prpage := PageAddr(refs[pr]);
        if prpage <= ptr < prpage + PAGE_SIZE {
          return;
        }
        pr := refs[pr].nextAll;
        k := k + 1;
      }
    }

    /**
     kmalloc with no other thread in between: each section is one step of the heap machine, and page and
     refpage are what alloc_kpages returned (0 for none). The block is new to the clients; when there is
     none, no client block has changed.
     */
    method Kmalloc(size: nat, page: nat, refpage: nat, ghost s: State) returns (ptr: nat, ghost owner: Owner, ghost s': State)
      requires Valid() && StateOk(s) && s.h == heap && s.reserved == reserved
      requires size < LARGEST_SUBPAGE ==> s.pages == {page, refpage} - {0} && (page != refpage || page == 0)
      requires size >= LARGEST_SUBPAGE && page != 0 ==> Allowed(s, BigAlloc(page, size))
      modifies this, refs, bases, roots
      ensures Valid() && StateOk(s') && s'.h == heap && s'.reserved == reserved
      ensures ptr == 0 ==> s'.live == s.live
      ensures ptr != 0 ==> ptr !in s.live && s'.live == s.live[ptr := Loan(owner, size)]
      ensures Shaped(old(heap))
      ensures size < LARGEST_SUBPAGE ==> SmallAnswer(old(heap), BlockType(size), page, refpage, ptr, owner, heap)
      ensures size < LARGEST_SUBPAGE ==>
                s'.pages == if AnyWithBlock(old(heap), BlockType(size)) then s.pages else s.pages - PagesUsed(old(heap), page, refpage)
      ensures size >= LARGEST_SUBPAGE ==>
                && ptr == page && owner == Whole && s'.pages == s.pages
                && heap == if page == 0 then old(heap) else old(heap).(big := old(heap).big[page := PagesFor(size)])
    {
      hide HeapOk, LiveOk, PagesStored, ListsStored, PendingOk, FreshRange, Bit;
      hide AnyWithBlock, FirstWithBlock, NoNewBlock, NothingGot, FromNewPage, PagesUsed, FirstWithFree;
      owner, s' := Whole, s;
      ShapedOk(heap, reserved);
      if size >= LARGEST_SUBPAGE {
        if page == 0 {
          return 0, Whole, s;
        }
        s' := s.(h := s.h.(big := s.h.big[page := PagesFor(size)]), live := s.live[page := Loan(Whole, size)]);
        StepOk(s, BigAlloc(page, size), s');
        SameStored(refs[..], bases[..], allbase, mem, heap, s'.h);
        heap := s'.h;
        return page, Whole, s';
      }
      FirstFoundIsFirst(heap, BlockType(size), heap.bySize[BlockType(size)], 0);
      ptr := TakeFrom(size);
      if ptr != 0 {
        ghost var r := FirstWithFree(s.h.recs, s.h.bySize[BlockType(size)]).value;
        owner := Sub(r, s.h.recs[r].free[0]);
        s' := s.(h := heap, live := s.live[ptr := Loan(owner, size)]);
        StepOk(s, Op.TakeFrom(size), s');
        return;
      }
      if page != 0 {
        ptr, owner, s' := NewPage(size, page, refpage, s);
      } else {
        NoPageNothing(s.h, BlockType(size), refpage, owner);
      }
    }

    /** subpage_kmalloc after alloc_kpages returned the page: get a pageref, with a page for its root if need be. */
    method NewPage(size: nat, page: nat, refpage: nat, ghost s: State) returns (ptr: nat, ghost owner: Owner, ghost s': State)
      requires Valid() && StateOk(s) && s.h == heap && s.reserved == reserved
      requires size < LARGEST_SUBPAGE && page != 0 && s.pages == {page, refpage} - {0} && page != refpage
      modifies this, refs, bases, roots
      ensures Valid() && StateOk(s') && s'.h == heap && s'.reserved == reserved
      ensures ptr == 0 ==> s'.live == s.live
      ensures ptr != 0 ==> ptr !in s.live && s'.live == s.live[ptr := Loan(owner, size)]
      ensures Shaped(old(heap)) && NewPageAnswer(old(heap), BlockType(size), page, refpage, ptr, owner, heap)
      ensures s'.pages == s.pages - PagesUsed(old(heap), page, refpage)
    {
      hide HeapOk, LiveOk, PagesStored, ListsStored, PendingOk, FreshRange, Bit;
      hide NewPageAnswer, PagesUsed, SetBit, WithRef, LinkPage, TakeBlock;
      ptr, owner, s' := 0, Whole, s;
      ShapedOk(heap, reserved);
      ghost var b := BlockType(size);
      var r := AllocPageref();
      if r == NULL {
        NoRefNothing(s.h, b, page, refpage, owner);
        return;
      }
      RefReady(s.h, r, refpage);
      assert roots[r / REFS_PER_PAGE].page == s.h.roots[r / REFS_PER_PAGE].page by { SetBitOk(s.h, r, true); }
      ghost var s1 := s.(h := heap, reserved := reserved);
      StepOk(s, Reserve(r), s1);
      s' := s1;
      var w := r / REFS_PER_PAGE;
      if roots[w].page == 0 && refpage != 0 {
        PendingAt(s1, refpage);
        var surplus := InstallPage(w, refpage);
        s' := s1.(h := heap, pages := s1.pages - {refpage});
        StepOk(s1, Install(w, refpage), s');
      }
      if roots[w].page == 0 {
        NoRootNothing(s.h, b, page, r, owner);
        return;
      }
      NewPageGot(s.h, b, page, refpage, r);
      ptr, owner, s' := UsePage(r, page, size, s');
    }

    /** The last part of subpage_kmalloc: the new page goes on the lists, and its last block to the caller. */
    method UsePage(r: nat, page: nat, size: nat, ghost s: State) returns (ptr: nat, ghost owner: Owner, ghost s': State)
      requires Valid() && StateOk(s) && s.h == heap && s.reserved == reserved && size < LARGEST_SUBPAGE
      requires r in reserved && r < TOTAL_REFS && page in s.pages && roots[r / REFS_PER_PAGE].page != 0
      modifies this, refs, bases
      ensures Valid() && StateOk(s') && s'.h == heap && s'.reserved == reserved
      ensures ptr != 0 && ptr !in s.live && s'.live == s.live[ptr := Loan(owner, size)]
      ensures Shaped(old(heap)) && var b := BlockType(size);
              && heap == TakeBlock(LinkPage(old(heap), r, page, b), r) && ptr == LinkedAt(page, b)
              && owner == Sub(r, NBlocks(b) - 1) && s'.pages == s.pages - {page}
    {
      hide HeapOk, LiveOk, PagesStored, ListsStored, PendingOk, FreshRange, Bit;
      ShapedOk(heap, reserved);
      PendingAt(s, page);
      ptr := LinkNew(r, page, size);
      ghost var b := BlockType(size);
      owner := Sub(r, NBlocks(b) - 1);
      s' := State(heap, reserved, s.pages - {page}, s.live[ptr := Loan(owner, size)]);
      StepOk(s, Op.LinkNew(r, page, size), s');
    }

    /**
     kfree of a block that a client holds (or of the null pointer): never reported as a bad address, it
     gives back exactly that block, and freepageref cannot panic while the roots have their pages in order.
     */
    method Kfree(ptr: nat, ghost s: State) returns (res: FreeResult, ghost s': State)
      requires Valid() && StateOk(s) && s.h == heap && s.reserved == reserved
      requires ptr != 0 ==> ptr in s.live
      modifies this`allbase, this`heap, this`mem, refs, bases, roots
      ensures ptr == 0 ==> res == Done && s' == s && Valid() && heap == old(heap)
      ensures ptr != 0 && !res.RefPanic? ==>
                Valid() && StateOk(s') && s'.h == heap && s'.reserved == reserved && Shaped(s.h) && Step(s, Free(ptr), s')
      ensures !res.BadAddress? && (RootsInOrder(old(heap)) ==> !res.RefPanic?)
      ensures ptr != 0 ==> Shaped(s.h) && FreeAnswer(s, ptr, res)
    {
      hide HeapOk, LiveOk, PagesStored, ListsStored, PendingOk, LiveSub, FindPage, PassesEmptyRoots, RootsInOrder;
      s' := s;
      if ptr == 0 {
        return Done, s;
      }
      ShapedOk(heap, reserved);
      FreeTarget(s, ptr);
      assert !AlreadyFree(heap, ptr) by { HeldNotFree(s, ptr); }
      InOrderPasses(s, ptr);
      res := SubpageKfree(ptr);
      if res.NotOurs? {
        assert ptr % PAGE_SIZE == 0;
        SameStored(refs[..], bases[..], allbase, mem, heap, heap.(big := heap.big - {ptr}));
        heap := heap.(big := heap.big - {ptr});
      }
      if !res.RefPanic? {
        s' := s.(h := heap, live := s.live - {ptr});
        StepOk(s, Free(ptr), s');
      }
    }

    /** checksubpage: each test of the debug build, on any page of the heap, succeeds. */
    method CheckSubpage(r: nat) returns (ok: bool)
      requires Valid() && r in heap.recs
      ensures ok
    {
      hide RootsOk, BitsOk, SpaceOk, ListsOk, ListsStored;
      ghost var p := heap.recs[r];
      assert PageStored(refs[..], mem, heap, r) && PageOk(p);
      OffsetTells(p);
      hide BlockAddr, PagesStored, PagesOk;
      var pr := refs[r];
      if pr.offset == INVALID_OFFSET {
        return pr.nfree == 0;
      }
      var prpage, b := PageAddr(pr), BlkType(pr);
      if b >= NSIZES {
        return false;
      }
      if pr.offset >= PAGE_SIZE || pr.offset % SizeOf(b) != 0 {
        return false;
      }
      var fl, nfree := prpage + pr.offset, 0;
      while fl != 0
        invariant nfree <= |p.free| && fl == if nfree < |p.free| then BlockAddr(p, p.free[nfree]) else 0
        decreases |p.free| - nfree
      {
        FreeEntry(mem, p, nfree);
        if !(prpage <= fl < prpage + PAGE_SIZE) || (fl - prpage) % SizeOf(b) != 0 || mem[fl] == fl {
          return false;
        }
        fl := mem[fl];
        nfree := nfree + 1;
      }
      FreeEnd(p, nfree);
      ok := nfree == pr.nfree;
    }

    /** One size list of checksubpages, with the counter sc. */
    method CheckSizeList(b: nat, sc0: nat) returns (ok: bool, sc: nat)
      requires Valid() && b < NSIZES && |heap.bySize| == NSIZES && sc0 + |heap.bySize[b]| <= TOTAL_REFS
      ensures ok && sc == sc0 + |heap.bySize[b]|
    {
      hide RootsOk, BitsOk, SpaceOk, PagesOk, PagesStored;
      ghost var list := heap.bySize[b];
      assert SameChain(refs[..], bases[b], list);
      ListedPages(heap, b);
      hide ListsOk, ListsStored;
      sc := sc0;
      var pr := bases[b];
      ghost var k := 0;
      while pr != NULL
        invariant k <= |list| && pr == (if k < |list| then list[k] else NULL)
        invariant sc == sc0 + k
        decreases |list| - k
      {
        var good := CheckSubpage(pr);
        if !good || sc >= TOTAL_REFS {
          return false, sc;
        }
        sc := sc + 1;
        pr := refs[pr].nextSame;
        k := k + 1;
      }
      ok := true;
    }

    /** The list of all pages in checksubpages. */
    method CheckAllList() returns (ok: bool, ac: nat)
      requires Valid() && |heap.all| <= TOTAL_REFS
      ensures ok && ac == |heap.all|
    {
      hide RootsOk, BitsOk, SpaceOk, PagesOk, PagesStored;
      assert AllChain(refs[..], allbase, heap.all);
      assert forall k :: 0 <= k < |heap.all| ==> heap.all[k] in heap.all && heap.all[k] in heap.recs;
      hide ListsOk, ListsStored;
      ac := 0;
      var pr := allbase;
      while pr != NULL
        invariant ac <= |heap.all| && pr == (if ac < |heap.all| then heap.all[ac] else NULL)
        decreases |heap.all| - ac
      {
        var good := CheckSubpage(pr);
        if !good || ac >= TOTAL_REFS {
          return false, ac;
        }
        pr := refs[pr].nextAll;
        ac := ac + 1;
      }
      ok := true;
    }

    /** checksubpages: every page on either kind of list passes, and the two kinds have equally many. */
    method CheckSubpages() returns (ok: bool)
      requires Valid()
      ensures ok
    {
      hide RootsOk, BitsOk, SpaceOk, PagesOk, PagesStored, ListsStored;
      RefsBelowOk(heap, reserved);
      ListsSize(heap);
      hide ListsOk, HeapOk;
      PagesCounted(heap);
      var sc, b := 0, 0;
      while b < NSIZES
        invariant b <= NSIZES && sc == SumLengths(heap.bySize[..b])
      {
        SumStep(heap, b);
        var good, n := CheckSizeList(b, sc);
        if !good {
          return false;
        }
        sc := n;
        b := b + 1;
      }
      assert heap.bySize[..NSIZES] == heap.bySize;
      var good, ac := CheckAllList();
      ok := good && sc == ac;
    }
  }

  // ---------------------------------------------------------------- lemmas for the methods

  lemma NoPageNothing(h: Heap, b: nat, refpage: nat, owner: Owner)
    requires Shaped(h) && b < NSIZES
    ensures NewPageAnswer(h, b, 0, refpage, 0, owner, h) && PagesUsed(h, 0, refpage) == {}
  {
    hide AllRefsTaken, RootMissing, RootsOk, FromNewPage;
  }

  lemma NoRefNothing(h: Heap, b: nat, page: nat, refpage: nat, owner: Owner)
    requires Shaped(h) && b < NSIZES && AllRefsTaken(h)
    ensures NewPageAnswer(h, b, page, refpage, 0, owner, h) && PagesUsed(h, page, refpage) == {}
  {
    hide AllRefsTaken, RootMissing, RootsOk, FromNewPage;
  }

  lemma NextRefIs(h: Heap, r: nat)
    requires RootsOk(h) && IsNextRef(h, r)
    ensures !AllRefsTaken(h) && (RootMissing(h) <==> h.roots[r / REFS_PER_PAGE].page == 0)
  {
    if RootMissing(h) {
      var q: nat :| IsNextRef(h, q) && h.roots[q / REFS_PER_PAGE].page == 0;
      assert q == r;
    }
  }

  lemma NoRootNothing(h: Heap, b: nat, page: nat, r: nat, owner: Owner)
    requires Shaped(h) && b < NSIZES && page != 0 && IsNextRef(h, r) && h.roots[r / REFS_PER_PAGE].page == 0
    ensures NewPageAnswer(h, b, page, 0, 0, owner, SetBit(h, r, true)) && PagesUsed(h, page, 0) == {}
  {
    NextRefIs(h, r);
    hide AllRefsTaken, RootMissing, RootsOk, FromNewPage, SetBit, IsNextRef;
  }

  lemma NewPageGot(h: Heap, b: nat, page: nat, refpage: nat, r: nat)
    requires Shaped(h) && b < NSIZES && page != 0 && IsNextRef(h, r) && (h.roots[r / REFS_PER_PAGE].page != 0 || refpage != 0)
    ensures NewPageAnswer(h, b, page, refpage, LinkedAt(page, b), Sub(r, NBlocks(b) - 1),
                          TakeBlock(LinkPage(WithRef(h, r, refpage), r, page, b), r))
    ensures PagesUsed(h, page, refpage) == if h.roots[r / REFS_PER_PAGE].page == 0 then {page, refpage} else {page}
  {
    NextRefIs(h, r);
    hide AllRefsTaken, RootMissing, RootsOk, NothingGot, WithRef, TakeBlock, IsNextRef;
  }

  /** The heap in which the new page is linked. */
  lemma RefReady(h: Heap, r: nat, refpage: nat)
    requires Shaped(h) && r < TOTAL_REFS
    ensures WithRef(h, r, refpage) == if h.roots[r / REFS_PER_PAGE].page == 0 && refpage != 0
                                      then InstallRoot(SetBit(h, r, true), r / REFS_PER_PAGE, refpage) else SetBit(h, r, true)
  {
  }

  lemma NextInPage(p: PageRec)
    requires PageOk(p) && |p.free| > 0
    ensures |p.free| > 1 ==> NextFree(p, 0) != 0 && NextFree(p, 0) == p.addr + p.free[1] * SizeOf(p.blk)
    ensures |p.free| > 1 ==> NextFree(p, 0) < p.addr + PAGE_SIZE && p.addr <= NextFree(p, 0)
    ensures |p.free| == 1 ==> NextFree(p, 0) == 0
  {
    if |p.free| > 1 {
      BlockInPage(p, p.free[1]);
    }
  }

  lemma TakeHeapOk(h: Heap, reserved: set<nat>, r: nat)
    requires HeapOkBut(h, reserved, r) && r in h.recs && |h.recs[r].free| > 0
    ensures HeapOk(TakeBlock(h, r), reserved)
  {
    hide ListsOk, SpaceOk, BitsOk, RootsOk, IsBlockType, BlockAddr;
    assert PageOk(h.recs[r]);
    SelfType(h.recs[r].blk);
    TakeBlockOk(h, reserved, r, SizeOf(h.recs[r].blk));
  }

  lemma SelfType(b: nat)
    requires b < NSIZES
    ensures IsBlockType(SizeOf(b), b)
  {
  }

  lemma PagePositive(h: Heap, r: nat)
    requires PagesOk(h) && r in h.recs
    ensures PageOk(h.recs[r]) && h.recs[r].addr > 0
  {
  }

  lemma FullRoot(h: Heap, w: nat)
    requires RootsOk(h) && w < NUM_ROOTS && h.roots[w].count >= REFS_PER_PAGE
    ensures forall q :: w * REFS_PER_PAGE <= q < (w + 1) * REFS_PER_PAGE ==> q < TOTAL_REFS && Bit(h, q)
  {
    CountBounds(h.roots[w].inuse);
    forall q | w * REFS_PER_PAGE <= q < (w + 1) * REFS_PER_PAGE ensures q < TOTAL_REFS && Bit(h, q) {
      assert q / REFS_PER_PAGE == w;
    }
  }

  lemma FirstClear(h: Heap, w: nat, j: nat)
    requires RootsOk(h) && w < NUM_ROOTS && j < REFS_PER_PAGE && !h.roots[w].inuse[j]
    requires forall q :: 0 <= q < w * REFS_PER_PAGE ==> Bit(h, q)
    requires forall i :: 0 <= i < j ==> h.roots[w].inuse[i]
    ensures IsNextRef(h, w * REFS_PER_PAGE + j)
    ensures SetBit(h, w * REFS_PER_PAGE + j, true).roots
         == h.roots[w := Root(h.roots[w].page, h.roots[w].inuse[j := true], h.roots[w].count + 1)]
  {
    var r := w * REFS_PER_PAGE + j;
    assert r / REFS_PER_PAGE == w && r % REFS_PER_PAGE == j;
    forall q | 0 <= q < r ensures Bit(h, q) {
      assert q >= w * REFS_PER_PAGE ==> q / REFS_PER_PAGE == w && q % REFS_PER_PAGE < j;
    }
  }

  lemma BitStored(refs: seq<Pageref>, bases: seq<int>, allbase: int, mem: map<nat, nat>, h: Heap, r: nat)
    requires RootsOk(h) && r < TOTAL_REFS && PagesStored(refs, mem, h) && ListsStored(refs, bases, allbase, h)
    ensures PagesStored(refs, mem, SetBit(h, r, true)) && ListsStored(refs, bases, allbase, SetBit(h, r, true))
  {
    SameStored(refs, bases, allbase, mem, h, SetBit(h, r, true));
  }

  lemma InstallStored(refs: seq<Pageref>, bases: seq<int>, allbase: int, mem: map<nat, nat>, h: Heap, w: nat, va: nat)
    requires w < |h.roots| && PagesStored(refs, mem, h) && ListsStored(refs, bases, allbase, h)
    ensures PagesStored(refs, mem, InstallRoot(h, w, va)) && ListsStored(refs, bases, allbase, InstallRoot(h, w, va))
  {
    SameStored(refs, bases, allbase, mem, h, InstallRoot(h, w, va));
  }

  lemma SameStored(refs: seq<Pageref>, bases: seq<int>, allbase: int, mem: map<nat, nat>, h: Heap, h': Heap)
    requires h'.recs == h.recs && h'.all == h.all && h'.bySize == h.bySize
    ensures PagesStored(refs, mem, h) ==> PagesStored(refs, mem, h')
    ensures ListsStored(refs, bases, allbase, h) ==> ListsStored(refs, bases, allbase, h')
  {
    hide Describes, Threaded;
    if PagesStored(refs, mem, h) {
      forall r | r in h'.recs ensures PageStored(refs, mem, h', r) {
        assert PageStored(refs, mem, h, r);
      }
    }
  }

  lemma ReservedUnused(h: Heap, reserved: set<nat>, r: nat)
    requires RootsOk(h) && BitsOk(h, reserved) && r in reserved
    ensures r < TOTAL_REFS && r !in h.recs
  {
  }

  lemma NotListed(h: Heap, r: nat)
    requires ListsOk(h) && r !in h.recs
    ensures r !in h.all && |h.bySize| == NSIZES && forall c :: 0 <= c < NSIZES ==> r !in h.bySize[c]
  {
  }

  /** Unhooking a page of size b leaves the other lists alone: none of them contains the record that changed. */
  lemma OtherChains(h: Heap, refs: seq<Pageref>, refs': seq<Pageref>, bases: seq<int>, bases': seq<int>, b: nat, prev: int)
    requires ListsOk(h) && b < NSIZES && |bases| == NSIZES == |bases'| && |refs'| == |refs|
    requires forall c :: 0 <= c < NSIZES ==> SameChain(refs, bases[c], h.bySize[c])
    requires forall c :: 0 <= c < NSIZES && c != b ==> bases'[c] == bases[c]
    requires prev >= 0 ==> prev as nat in h.bySize[b]
    requires forall q :: 0 <= q < |refs| && q != prev ==> refs'[q] == refs[q]
    ensures forall c :: 0 <= c < NSIZES && c != b ==> SameChain(refs', bases'[c], h.bySize[c])
  {
    forall c | 0 <= c < NSIZES && c != b ensures SameChain(refs', bases'[c], h.bySize[c]) {
      if prev >= 0 {
        SizesApart(h, b, c, prev);
      }
      ChainKept(refs, refs', bases[c], h.bySize[c], prev);
    }
  }

  lemma SizesApart(h: Heap, b: nat, c: nat, r: nat)
    requires ListsOk(h) && b < NSIZES && c < NSIZES && c != b && r in h.bySize[b]
    ensures r !in h.bySize[c]
  {
    assert h.recs[r].blk == b;
    assert r in h.bySize[c] <==> r in h.recs && h.recs[r].blk == c;
  }

  lemma ChainKept(refs: seq<Pageref>, refs': seq<Pageref>, base: int, list: seq<nat>, prev: int)
    requires SameChain(refs, base, list) && |refs'| == |refs| && (prev >= 0 ==> prev as nat !in list)
    requires forall q :: 0 <= q < |refs| && q != prev ==> refs'[q] == refs[q]
    ensures SameChain(refs', base, list)
  {
    forall k | 0 <= k < |list| ensures refs'[list[k]] == refs[list[k]] {
      assert list[k] in list;
    }
  }

  lemma SameNextSame(refs: seq<Pageref>, refs': seq<Pageref>, bases: seq<int>, h: Heap)
    requires |bases| == NSIZES == |h.bySize| && |refs'| == |refs|
    requires forall c :: 0 <= c < NSIZES ==> SameChain(refs, bases[c], h.bySize[c])
    requires forall q :: 0 <= q < |refs| ==> refs'[q].nextSame == refs[q].nextSame
    ensures forall c :: 0 <= c < NSIZES ==> SameChain(refs', bases[c], h.bySize[c])
  {
    forall c | 0 <= c < NSIZES ensures SameChain(refs', bases[c], h.bySize[c]) {
      assert SameChain(refs, bases[c], h.bySize[c]);
    }
  }

  lemma LiveSubPage(h: Heap, r: nat, i: nat)
    requires PagesOk(h) && LiveSub(h, r, i)
    ensures r in h.recs && PageOk(h.recs[r])
  {
  }

  lemma BlockAddrIs(p: PageRec, i: nat)
    requires PageOk(p)
    ensures p.blk < NSIZES && BlockAddr(p, i) == p.addr + i * SizeOf(p.blk)
  {
  }

  lemma PutOffset(p: PageRec, i: nat)
    requires p.blk < NSIZES
    ensures OffsetOf(p.(free := [i] + p.free)) == i * SizeOf(p.blk)
  {
  }

  lemma OffsetTells(p: PageRec)
    requires PageOk(p)
    ensures p.blk < NSIZES && (OffsetOf(p) == INVALID_OFFSET <==> p.free == [])
    ensures p.free != [] ==> OffsetOf(p) < PAGE_SIZE && OffsetOf(p) % SizeOf(p.blk) == 0
    ensures p.free != [] ==> p.addr + OffsetOf(p) == BlockAddr(p, p.free[0])
  {
    if p.free != [] {
      BlockInPage(p, p.free[0]);
      BlockIndex(p, p.free[0]);
    }
  }

  lemma StoredAt(refs: seq<Pageref>, mem: map<nat, nat>, h: Heap, r: nat)
    requires PagesStored(refs, mem, h) && r in h.recs
    ensures PageStored(refs, mem, h, r)
  {
  }

  lemma HeadNotHeld(h: Heap, reserved: set<nat>, r: nat, i: nat)
    requires HeapOk(h, reserved) && LiveSub(h, r, i) && h.recs[r].free != []
    ensures BlockAddr(h.recs[r], i) != BlockAddr(h.recs[r], h.recs[r].free[0])
  {
    var p := h.recs[r];
    assert PageOk(p) && p.free[0] in p.free;
    SamePageApart(p, i, p.free[0]);
  }

  lemma PutHeapOk(h: Heap, reserved: set<nat>, r: nat, i: nat)
    requires HeapOk(h, reserved) && LiveSub(h, r, i)
    ensures HeapOkBut(PutBlock(h, r, i), reserved, r)
  {
    hide ListsOk, SpaceOk, BitsOk, RootsOk;
    SamePagesOk(h, PutBlock(h, r, i), reserved);
    PutBlockOk(h, r, i);
  }

  lemma FreeRoom(h: Heap, reserved: set<nat>, r: nat, i: nat)
    requires HeapOk(h, reserved) && LiveSub(h, r, i)
    ensures |h.recs[r].free| + 1 <= NBlocks(h.recs[r].blk)
  {
  }

  lemma PutDone(h: Heap, reserved: set<nat>, r: nat)
    requires HeapOkBut(h, reserved, r) && r in h.recs && |h.recs[r].free| < NBlocks(h.recs[r].blk)
    ensures HeapOk(h, reserved)
  {
  }

  lemma UsedRef(h: Heap, reserved: set<nat>, r: nat)
    requires HeapOkBut(h, reserved, r) && r in h.recs
    ensures RootsOk(h) && ListsOk(h) && r < TOTAL_REFS && Bit(h, r) && h.roots[r / REFS_PER_PAGE].page != 0
  {
  }

  lemma StoredType(refs: seq<Pageref>, mem: map<nat, nat>, h: Heap, r: nat)
    requires PagesStored(refs, mem, h) && r in h.recs
    ensures r < |refs| && BlkType(refs[r]) == h.recs[r].blk
  {
    assert PageStored(refs, mem, h, r);
  }

  lemma UnlinkHeapOk(h: Heap, reserved: set<nat>, r: nat)
    requires HeapOkBut(h, reserved, r) && r in h.recs && r < TOTAL_REFS && |h.bySize| == NSIZES && h.recs[r].blk < NSIZES
    ensures RootsOk(h) && HeapOk(UnlinkPage(h, r), reserved) && UnlinkPage(h, r).recs == h.recs - {r}
  {
    hide ListsOk, SpaceOk, BitsOk, RootsOk, UnlinkPage, HeapOk;
    UnlinkPageOk(h, reserved, r);
  }

  lemma UnlinkStored(h: Heap, refs: seq<Pageref>, refs': seq<Pageref>, mem: map<nat, nat>, bases: seq<int>, allbase: int, r: nat)
    requires RootsOk(h) && |h.bySize| == NSIZES && r in h.recs && r < TOTAL_REFS && h.recs[r].blk < NSIZES
    requires PagesStored(refs, mem, h) && SameButNexts(refs, refs')
    requires var b := h.recs[r].blk;
             ListsStored(refs', bases, allbase,
               h.(bySize := h.bySize[b := Without(h.bySize[b], r)], all := Without(h.all, r)))
    ensures PagesStored(refs', mem, UnlinkPage(h, r)) && ListsStored(refs', bases, allbase, UnlinkPage(h, r))
    ensures UnlinkPage(h, r).roots == SetBit(h, r, false).roots
  {
    StoredBut(refs, refs', mem, h, UnlinkPage(h, r));
  }

  lemma ChainOfAll(refs: seq<Pageref>, bases: seq<int>, allbase: int, h: Heap)
    requires ListsStored(refs, bases, allbase, h)
    ensures AllChain(refs, allbase, h.all)
  {
  }

  lemma Listed(h: Heap, k: nat)
    requires ListsOk(h) && k < |h.all|
    ensures h.all[k] in h.recs
  {
    assert h.all[k] in h.all;
  }

  /** An aligned address on a heap page that is not on the free list is a block in use. */
  lemma HeldBlock(h: Heap, reserved: set<nat>, r: nat, ptr: nat)
    requires HeapOk(h, reserved) && r in h.recs && h.recs[r].blk < NSIZES
    requires h.recs[r].addr <= ptr < h.recs[r].addr + PAGE_SIZE && (ptr - h.recs[r].addr) % SizeOf(h.recs[r].blk) == 0
    requires (ptr - h.recs[r].addr) / SizeOf(h.recs[r].blk) !in h.recs[r].free
    ensures var i := (ptr - h.recs[r].addr) / SizeOf(h.recs[r].blk);
            LiveSub(h, r, i) && ptr - h.recs[r].addr == i * SizeOf(h.recs[r].blk)
  {
    OffsetBlock(ptr - h.recs[r].addr, h.recs[r].blk);
  }

  lemma OffsetBlock(off: nat, b: nat)
    requires off < PAGE_SIZE && b < NSIZES && off % SizeOf(b) == 0
    ensures off / SizeOf(b) < NBlocks(b) && off == off / SizeOf(b) * SizeOf(b)
  {
    match b
    case 0 => case 1 => case 2 => case 3 => case 4 => case 5 => case 6 => case 7 =>
  }

  lemma FreeEntry(mem: map<nat, nat>, p: PageRec, k: nat)
    requires PageOk(p) && Threaded(mem, p) && k <= |p.free|
    requires k == |p.free| || BlockAddr(p, p.free[k]) != 0
    ensures k < |p.free| ==>
              var fl := BlockAddr(p, p.free[k]);
              && fl in mem && p.addr <= fl < p.addr + PAGE_SIZE && (fl - p.addr) % SizeOf(p.blk) == 0
              && mem[fl] != fl && mem[fl] == if k + 1 < |p.free| then BlockAddr(p, p.free[k + 1]) else 0
  {
    hide BlockAddr;
    if k < |p.free| {
      BlockInPage(p, p.free[k]);
      BlockIndex(p, p.free[k]);
      if k + 1 < |p.free| {
        SamePageApart(p, p.free[k], p.free[k + 1]);
      }
    }
  }

  lemma FreeEnd(p: PageRec, k: nat)
    requires PageOk(p) && k <= |p.free| && (k < |p.free| ==> BlockAddr(p, p.free[k]) == 0)
    ensures k == |p.free|
  {
    if k < |p.free| {
      BlockInPage(p, p.free[k]);
    }
  }

  lemma ListedPages(h: Heap, b: nat)
    requires ListsOk(h) && b < NSIZES
    ensures |h.bySize| == NSIZES && forall k :: 0 <= k < |h.bySize[b]| ==> h.bySize[b][k] in h.recs
  {
    forall k | 0 <= k < |h.bySize[b]| ensures h.bySize[b][k] in h.recs {
      assert h.bySize[b][k] in h.bySize[b];
    }
  }

  predicate RefsBelow(h: Heap) {
    forall r :: r in h.recs ==> r < TOTAL_REFS && h.recs[r].blk < NSIZES
  }

  lemma RefsBelowOk(h: Heap, reserved: set<nat>)
    requires HeapOk(h, reserved)
    ensures ListsOk(h) && RefsBelow(h)
  {
    hide ListsOk, SpaceOk;
    forall r | r in h.recs ensures r < TOTAL_REFS && h.recs[r].blk < NSIZES {
      assert PageOk(h.recs[r]);
    }
  }

  lemma PagesCounted(h: Heap)
    requires ListsOk(h) && RefsBelow(h)
    ensures SumLengths(h.bySize) == |h.all| <= TOTAL_REFS
  {
    ListsAgree(h);
    forall k | 0 <= k < |h.all| ensures h.all[k] < TOTAL_REFS {
      assert h.all[k] in h.all;
    }
    PigeonHole(h.all, TOTAL_REFS, 0);
  }

  lemma SumStep(h: Heap, b: nat)
    requires |h.bySize| == NSIZES && b < NSIZES
    ensures SumLengths(h.bySize[..b + 1]) == SumLengths(h.bySize[..b]) + |h.bySize[b]|
    ensures SumLengths(h.bySize[..b + 1]) <= SumLengths(h.bySize)
  {
    assert h.bySize[..b + 1][..b] == h.bySize[..b];
    SumMonotone(h.bySize, b + 1);
  }

  lemma {:induction false} SumMonotone(lists: seq<seq<nat>>, n: nat)
    requires n <= |lists|
    ensures SumLengths(lists[..n]) <= SumLengths(lists)
  {
    if n == |lists| {
      assert lists[..n] == lists;
    } else {
      assert lists[..|lists| - 1][..n] == lists[..n];
      SumMonotone(lists[..|lists| - 1], n);
    }
  }

  lemma PendingAt(s: State, p: nat)
    requires StateOk(s) && p in s.pages
    ensures FreshRange(s.h, p, 1) && p != 0
  {
  }

  lemma HeldNotFree(s: State, ptr: nat)
    requires StateOk(s) && ptr in s.live
    ensures !AlreadyFree(s.h, ptr)
  {
    hide HeapOk, LiveOk, PendingOk, FindPage;
    FreeTarget(s, ptr);
  }

  lemma InOrderPasses(s: State, ptr: nat)
    requires StateOk(s) && ptr in s.live
    ensures match FindPage(s.h, s.h.all, ptr)
            case None => true
            case Some(r) => RootsInOrder(s.h) ==> PassesEmptyRoots(s.h.roots, r)
  {
    hide LiveOk, PendingOk, FindPage, HeapOk, PassesEmptyRoots, RootsInOrder;
    FreeTarget(s, ptr);
    if s.live[ptr].owner.Sub? && RootsInOrder(s.h) {
      FreePagerefSafe(s.h, s.reserved, s.live[ptr].owner.r);
    }
  }

  lemma SizeChain(refs: seq<Pageref>, bases: seq<int>, allbase: int, h: Heap, b: nat)
    requires ListsStored(refs, bases, allbase, h) && ListsOk(h) && b < NSIZES
    ensures |bases| == NSIZES == |h.bySize| && SameChain(refs, bases[b], h.bySize[b]) && NoDup(h.bySize[b])
    ensures forall k :: 0 <= k < |h.bySize[b]| ==> h.bySize[b][k] < |refs|
  {
    assert SameChain(refs, bases[b], h.bySize[b]);
  }

  lemma SameRemoved(h: Heap, refs: seq<Pageref>, refs': seq<Pageref>, bases: seq<int>, bases': seq<int>, allbase: int,
                    r: nat, b: nat, k: nat, prev: int)
    requires ListsStored(refs, bases, allbase, h) && ListsOk(h) && b < NSIZES && r < |refs|
    requires k < |h.bySize[b]| && h.bySize[b][k] == r && prev == (if k == 0 then NULL else h.bySize[b][k - 1])
    requires prev < |refs|
    requires bases' == if prev == NULL then bases[b := refs[r].nextSame] else bases
    requires refs' == if prev == NULL then refs else refs[prev := refs[prev].(nextSame := refs[r].nextSame)]
    ensures SameButNexts(refs, refs')
    ensures ListsStored(refs', bases', allbase, h.(bySize := h.bySize[b := Without(h.bySize[b], r)]))
  {
    var list := h.bySize[b];
    SizeChain(refs, bases, allbase, h, b);
    WithoutAt(list, r, k);
    OtherChains(h, refs, refs', bases, bases', b, prev);
    hide ListsOk, Without, NoDup;
    Redirected(refs, refs', list, k, prev);
    SameUnlinked(refs, refs', bases[b], list, k);
    hide SameChain;
    SameAllChain(refs, refs', allbase, h.all);
  }

  lemma Redirected(refs: seq<Pageref>, refs': seq<Pageref>, list: seq<nat>, k: nat, prev: int)
    requires k < |list| && list[k] < |refs| && prev == (if k == 0 then NULL else list[k - 1]) && prev < |refs|
    requires refs' == if prev == NULL then refs else refs[prev := refs[prev].(nextSame := refs[list[k]].nextSame)]
    ensures SameButNexts(refs, refs')
    ensures forall q :: 0 <= q < |refs| ==>
              && refs'[q].nextSame == (if k > 0 && q == list[k - 1] then refs[list[k]].nextSame else refs[q].nextSame)
              && refs'[q].nextAll == refs[q].nextAll
  {
  }

  lemma SameAllChain(refs: seq<Pageref>, refs': seq<Pageref>, base: int, list: seq<nat>)
    requires AllChain(refs, base, list) && |refs'| == |refs| && forall q :: 0 <= q < |refs| ==> refs'[q].nextAll == refs[q].nextAll
    ensures AllChain(refs', base, list)
  {
  }
}
