/**
 How kmalloc.c stores the heap: pageref records linked by two pointers each, and free lists threaded
 through the free blocks. Each relation says that the links spell a sequence of the abstract heap.
 */
module KmallocLinks {
  import opened Prelude
  import opened Kheap
  import opened KheapInvariant

  /** The null pointer among pageref numbers. */
  const NULL: int := -1
  const INVALID_OFFSET: nat := 0xffff

  /** pab packs the page address and the block type into one word. */
  datatype Pageref = Pageref(nextSame: int, nextAll: int, pab: nat, offset: nat, nfree: nat)

  function PageAddr(pr: Pageref): nat { pr.pab / PAGE_SIZE * PAGE_SIZE }

  function BlkType(pr: Pageref): nat { pr.pab % PAGE_SIZE }

  function Pack(va: nat, b: nat): (pab: nat)
    requires va % PAGE_SIZE == 0 && b < PAGE_SIZE
    ensures pab / PAGE_SIZE * PAGE_SIZE == va && pab % PAGE_SIZE == b
  {
    va + b
  }

  function Head(list: seq<nat>): int { if list == [] then NULL else list[0] }

  function After(list: seq<nat>, k: int): int { if 0 <= k && k + 1 < |list| then list[k + 1] else NULL }

  predicate AllChain(refs: seq<Pageref>, base: int, list: seq<nat>) {
    base == Head(list) && forall k :: 0 <= k < |list| ==> list[k] < |refs| && refs[list[k]].nextAll == After(list, k)
  }

  predicate SameChain(refs: seq<Pageref>, base: int, list: seq<nat>) {
    base == Head(list) && forall k :: 0 <= k < |list| ==> list[k] < |refs| && refs[list[k]].nextSame == After(list, k)
  }

  /** Walking a size list from its base meets the elements in order, and its k-th element not before step k. */
  lemma SameWalk(refs: seq<Pageref>, base: int, list: seq<nat>, k: nat)
    requires SameChain(refs, base, list) && NoDup(list) && k < |list|
    ensures base == list[0] && forall i :: 0 <= i < k ==> list[i] != list[k]
    ensures forall i :: 0 <= i < |list| ==> list[i] < |refs|
    ensures forall i :: 0 <= i < k ==> refs[list[i]].nextSame == list[i + 1]
  {
    assert forall i :: 0 <= i < k ==> After(list, i) == list[i + 1];
  }

  function NextFree(p: PageRec, k: nat): nat
    requires p.blk < NSIZES && k < |p.free|
  {
    if k + 1 < |p.free| then BlockAddr(p, p.free[k + 1]) else 0
  }

  function OffsetOf(p: PageRec): nat
    requires p.blk < NSIZES
  {
    if p.free == [] then INVALID_OFFSET else p.free[0] * SizeOf(p.blk)
  }

  /** The words threaded through the free blocks of one page. */
  predicate Threaded(mem: map<nat, nat>, p: PageRec)
    requires p.blk < NSIZES
  {
    forall k :: 0 <= k < |p.free| ==> BlockAddr(p, p.free[k]) in mem && mem[BlockAddr(p, p.free[k])] == NextFree(p, k)
  }

  predicate Describes(pr: Pageref, p: PageRec)
    requires p.blk < NSIZES
  {
    PageAddr(pr) == p.addr && BlkType(pr) == p.blk && pr.nfree == |p.free| && pr.offset == OffsetOf(p)
  }

  predicate PageStored(refs: seq<Pageref>, mem: map<nat, nat>, h: Heap, r: nat)
    requires r in h.recs
  {
    r < |refs| && h.recs[r].blk < NSIZES && Describes(refs[r], h.recs[r]) && Threaded(mem, h.recs[r])
  }

  predicate PagesStored(refs: seq<Pageref>, mem: map<nat, nat>, h: Heap) {
    forall r :: r in h.recs ==> PageStored(refs, mem, h, r)
  }

  predicate ListsStored(refs: seq<Pageref>, bases: seq<int>, allbase: int, h: Heap) {
    && AllChain(refs, allbase, h.all) && |bases| == NSIZES && |h.bySize| == NSIZES
    && forall b :: 0 <= b < NSIZES ==> SameChain(refs, bases[b], h.bySize[b])
  }

  // ---------------------------------------------------------------- what leaves the links alone

  predicate SameNexts(refs: seq<Pageref>, refs': seq<Pageref>) {
    |refs'| == |refs| && forall r :: 0 <= r < |refs| ==> refs'[r].nextAll == refs[r].nextAll && refs'[r].nextSame == refs[r].nextSame
  }

  lemma ListsKept(refs: seq<Pageref>, refs': seq<Pageref>, bases: seq<int>, allbase: int, h: Heap, h': Heap)
    requires ListsStored(refs, bases, allbase, h) && SameNexts(refs, refs') && h'.all == h.all && h'.bySize == h.bySize
    ensures ListsStored(refs', bases, allbase, h')
  {
    forall b | 0 <= b < NSIZES ensures SameChain(refs', bases[b], h'.bySize[b]) {
      assert SameChain(refs, bases[b], h.bySize[b]);
    }
  }

  // ---------------------------------------------------------------- taking and putting a block

  /** The head of the free list is unhooked: the next word gives the new head. */
  lemma TakeStored(refs: seq<Pageref>, mem: map<nat, nat>, h: Heap, r: nat, pr: Pageref)
    requires PagesStored(refs, mem, h) && r in h.recs && |h.recs[r].free| > 0 && h.recs[r].blk < NSIZES && r < |refs|
    requires pr == refs[r].(nfree := refs[r].nfree - 1, offset := OffsetOf(TakeBlock(h, r).recs[r]))
    ensures PagesStored(refs[r := pr], mem, TakeBlock(h, r))
  {
    hide BlockAddr;
    var h', refs' := TakeBlock(h, r), refs[r := pr];
    forall q | q in h'.recs ensures PageStored(refs', mem, h', q) {
      assert PageStored(refs, mem, h, q);
      if q == r {
        TakeThreaded(mem, h.recs[r]);
      }
    }
  }

  lemma TakeThreaded(mem: map<nat, nat>, p: PageRec)
    requires p.blk < NSIZES && Threaded(mem, p) && |p.free| > 0
    ensures Threaded(mem, p.(free := p.free[1..]))
  {
    var p' := p.(free := p.free[1..]);
    forall k | 0 <= k < |p'.free|
      ensures BlockAddr(p', p'.free[k]) in mem && mem[BlockAddr(p', p'.free[k])] == NextFree(p', k)
    {
      assert p'.free[k] == p.free[k + 1];
    }
  }

  /** The block is pushed: its word points at the old head. No other free list is touched. */
  lemma PutStored(refs: seq<Pageref>, mem: map<nat, nat>, h: Heap, reserved: set<nat>, r: nat, i: nat, pr: Pageref, mem': map<nat, nat>)
    requires PagesStored(refs, mem, h) && HeapOk(h, reserved) && LiveSub(h, r, i)
    requires r < |refs| && pr == refs[r].(nfree := refs[r].nfree + 1, offset := OffsetOf(PutBlock(h, r, i).recs[r]))
    requires mem' == mem[BlockAddr(h.recs[r], i) := if h.recs[r].free == [] then 0 else BlockAddr(h.recs[r], h.recs[r].free[0])]
    ensures PagesStored(refs[r := pr], mem', PutBlock(h, r, i))
  {
    hide HeapOk, BlockAddr;
    var h', refs' := PutBlock(h, r, i), refs[r := pr];
    forall q | q in h'.recs ensures PageStored(refs', mem', h', q) {
      assert PageStored(refs, mem, h, q);
      PutOthers(mem, h, reserved, r, i, mem', q);
      if q == r {
        PutThreaded(mem', h.recs[r], i);
      }
    }
  }

  lemma PutOthers(mem: map<nat, nat>, h: Heap, reserved: set<nat>, r: nat, i: nat, mem': map<nat, nat>, q: nat)
    requires HeapOk(h, reserved) && LiveSub(h, r, i) && q in h.recs && h.recs[q].blk < NSIZES && Threaded(mem, h.recs[q])
    requires mem' == mem[BlockAddr(h.recs[r], i) := if BlockAddr(h.recs[r], i) in mem' then mem'[BlockAddr(h.recs[r], i)] else 0]
    ensures Threaded(mem', h.recs[q])
  {
    hide RootsOk, ListsOk, BitsOk, SpaceOk, BlockAddr, Threaded;
    var p := h.recs[q];
    assert PageOk(p) && PageOk(h.recs[r]);
    hide PagesOk;
    forall k | 0 <= k < |p.free| ensures BlockAddr(p, p.free[k]) != BlockAddr(h.recs[r], i) {
      BlocksApart(h, reserved, q, p.free[k], r, i);
    }
    ThreadedKept(mem, mem', p);
  }

  /** A free list is kept when no free block's word changes. */
  lemma ThreadedKept(mem: map<nat, nat>, mem': map<nat, nat>, p: PageRec)
    requires p.blk < NSIZES && Threaded(mem, p)
    requires forall k :: 0 <= k < |p.free| ==>
               (BlockAddr(p, p.free[k]) in mem ==> BlockAddr(p, p.free[k]) in mem' && mem'[BlockAddr(p, p.free[k])] == mem[BlockAddr(p, p.free[k])])
    ensures Threaded(mem', p)
  {
  }

  lemma PutThreaded(mem: map<nat, nat>, p: PageRec, i: nat)
    requires p.blk < NSIZES && Threaded(mem, p)
    requires BlockAddr(p, i) in mem && mem[BlockAddr(p, i)] == if p.free == [] then 0 else BlockAddr(p, p.free[0])
    ensures Threaded(mem, p.(free := [i] + p.free))
  {
    var p' := p.(free := [i] + p.free);
    forall k | 0 <= k < |p'.free|
      ensures BlockAddr(p', p'.free[k]) in mem && mem[BlockAddr(p', p'.free[k])] == NextFree(p', k)
    {
      assert k > 0 ==> p'.free[k] == p.free[k - 1];
    }
  }

  // ---------------------------------------------------------------- linking and unlinking a page

  lemma LinkStored(refs: seq<Pageref>, bases: seq<int>, allbase: int, h: Heap, r: nat, va: nat, b: nat, pr: Pageref)
    requires ListsStored(refs, bases, allbase, h) && r < |refs| && b < NSIZES && r !in h.all
    requires forall c :: 0 <= c < NSIZES ==> r !in h.bySize[c]
    requires pr.nextAll == allbase && pr.nextSame == bases[b]
    ensures ListsStored(refs[r := pr], bases[b := r], r, LinkPage(h, r, va, b))
  {
    var refs', h' := refs[r := pr], LinkPage(h, r, va, b);
    assert AllChain(refs', r, [r] + h.all);
    forall c | 0 <= c < NSIZES ensures SameChain(refs', bases[b := r][c], h'.bySize[c]) {
      assert SameChain(refs, bases[c], h.bySize[c]);
    }
  }

  /** Where an element of the shortened list was, and what follows it now. */
  lemma UnlinkedAfter(list: seq<nat>, k: nat, j: nat)
    requires NoDup(list) && k < |list| && j < |list| - 1
    ensures var t := list[..k] + list[k + 1..]; var x := if j < k then j else j + 1;
            && t[j] == list[x] && After(t, j) == (if j + 1 == k then After(list, k) else After(list, x))
            && (k > 0 ==> (list[x] == list[k - 1] <==> j + 1 == k))
  {
  }

  /** One list with the element at k unhooked: the pointer that led to it leads to its successor. */
  lemma SameUnlinked(refs: seq<Pageref>, refs': seq<Pageref>, base: int, list: seq<nat>, k: nat)
    requires SameChain(refs, base, list) && NoDup(list) && k < |list| && |refs'| == |refs|
    requires forall q :: 0 <= q < |refs| ==>
               refs'[q].nextSame == if k > 0 && q == list[k - 1] then refs[list[k]].nextSame else refs[q].nextSame
    ensures SameChain(refs', if k == 0 then refs[list[0]].nextSame else base, list[..k] + list[k + 1..])
  {
    var t := list[..k] + list[k + 1..];
    forall j | 0 <= j < |t| ensures t[j] < |refs'| && refs'[t[j]].nextSame == After(t, j) {
      var x := if j < k then j else j + 1;
      UnlinkedAfter(list, k, j);
      assert refs[list[x]].nextSame == After(list, x) && refs[list[k]].nextSame == After(list, k);
    }
  }

  lemma AllUnlinked(refs: seq<Pageref>, refs': seq<Pageref>, base: int, list: seq<nat>, k: nat)
    requires AllChain(refs, base, list) && NoDup(list) && k < |list| && |refs'| == |refs|
    requires forall q :: 0 <= q < |refs| ==>
               refs'[q].nextAll == if k > 0 && q == list[k - 1] then refs[list[k]].nextAll else refs[q].nextAll
    ensures AllChain(refs', if k == 0 then refs[list[0]].nextAll else base, list[..k] + list[k + 1..])
  {
    var t := list[..k] + list[k + 1..];
    forall j | 0 <= j < |t| ensures t[j] < |refs'| && refs'[t[j]].nextAll == After(t, j) {
      var x := if j < k then j else j + 1;
      UnlinkedAfter(list, k, j);
      assert refs[list[x]].nextAll == After(list, x) && refs[list[k]].nextAll == After(list, k);
    }
  }

  // ---------------------------------------------------------------- the free list of a new page

  /** Block i of a page at va. */
  function At(va: nat, b: nat, i: nat): nat
    requires b < NSIZES
  {
    BlockAddr(PageRec(va, b, []), i)
  }

  lemma AtBounds(va: nat, b: nat, i: nat)
    requires va > 0 && va % PAGE_SIZE == 0 && b < NSIZES && i < NBlocks(b)
    ensures va <= At(va, b, i) < va + PAGE_SIZE
    ensures At(va, b, i) == va + i * SizeOf(b)
    ensures At(va, b, 0) == va
  {
    BlockInPage(PageRec(va, b, []), i);
  }

  lemma AtApart(va: nat, b: nat, i: nat, j: nat)
    requires va > 0 && va % PAGE_SIZE == 0 && b < NSIZES && i < NBlocks(b) && j < NBlocks(b) && i != j
    ensures At(va, b, i) != At(va, b, j)
  {
    SamePageApart(PageRec(va, b, []), i, j);
  }

  lemma SizesDivide(b: nat)
    requires b < NSIZES
    ensures PAGE_SIZE / SizeOf(b) == NBlocks(b)
  {
  }

  /** The loop of subpage_kmalloc after n rounds: every block points at the one below it. */
  predicate Built(mem: map<nat, nat>, va: nat, b: nat, n: nat)
    requires b < NSIZES
  {
    forall j :: 0 <= j < n ==>
      At(va, b, j) in mem && (j == 0 ==> mem[At(va, b, j)] == 0) && (j > 0 ==> mem[At(va, b, j)] == At(va, b, j - 1))
  }

  lemma BuiltThreaded(mem: map<nat, nat>, va: nat, b: nat)
    requires b < NSIZES && Built(mem, va, b, NBlocks(b))
    ensures Threaded(mem, PageRec(va, b, FreshFree(b)))
  {
    hide Built, At, BlockAddr;
    var p := PageRec(va, b, FreshFree(b));
    forall k | 0 <= k < |p.free|
      ensures BlockAddr(p, p.free[k]) in mem && mem[BlockAddr(p, p.free[k])] == NextFree(p, k)
    {
      var j := NBlocks(b) - 1 - k;
      BuiltAt(mem, va, b, j);
      AtBlock(p, j);
      if k + 1 < |p.free| {
        AtBlock(p, j - 1);
      }
    }
  }

  lemma BuiltAt(mem: map<nat, nat>, va: nat, b: nat, j: nat)
    requires b < NSIZES && Built(mem, va, b, NBlocks(b)) && j < NBlocks(b)
    ensures At(va, b, j) in mem
    ensures j == 0 ==> mem[At(va, b, j)] == 0
    ensures j > 0 ==> mem[At(va, b, j)] == At(va, b, j - 1)
  {
    hide At;
  }

  lemma AtBlock(p: PageRec, j: nat)
    requires p.blk < NSIZES
    ensures BlockAddr(p, j) == At(p.addr, p.blk, j)
  {
  }

  /** Words outside [va, va + PAGE_SIZE) are unchanged. */
  predicate OnlyPage(mem: map<nat, nat>, mem': map<nat, nat>, va: nat) {
    forall x :: x in mem && (x < va || x >= va + PAGE_SIZE) ==> x in mem' && mem'[x] == mem[x]
  }

  lemma NewPageStored(refs: seq<Pageref>, mem: map<nat, nat>, mem': map<nat, nat>, h: Heap, r: nat, va: nat, b: nat, pr: Pageref)
    requires PagesStored(refs, mem, h) && PagesOk(h) && FreshRange(h, va, 1) && |h.bySize| == NSIZES && r !in h.recs
    requires b < NSIZES && r < |refs| && Built(mem', va, b, NBlocks(b)) && OnlyPage(mem, mem', va)
    requires Describes(pr, PageRec(va, b, FreshFree(b)))
    ensures PagesStored(refs[r := pr], mem', LinkPage(h, r, va, b))
  {
    hide FreshRange, PagesOk, Threaded, Built, OnlyPage, Describes;
    var h', refs' := LinkPage(h, r, va, b), refs[r := pr];
    BuiltThreaded(mem', va, b);
    forall q | q in h'.recs ensures PageStored(refs', mem', h', q) {
      if q != r {
        assert PageStored(refs, mem, h, q);
        OldThreaded(mem, mem', h, va, q);
      }
    }
  }

  lemma OldThreaded(mem: map<nat, nat>, mem': map<nat, nat>, h: Heap, va: nat, q: nat)
    requires PagesOk(h) && FreshRange(h, va, 1) && q in h.recs && h.recs[q].blk < NSIZES
    requires OnlyPage(mem, mem', va) && Threaded(mem, h.recs[q])
    ensures Threaded(mem', h.recs[q])
  {
    var p := h.recs[q];
    assert PageOk(p) && Apart(va, 1 * PAGE_SIZE, p.addr, PAGE_SIZE);
    hide PagesOk, FreshRange, BlockAddr;
    forall k | 0 <= k < |p.free| ensures BlockAddr(p, p.free[k]) < va || BlockAddr(p, p.free[k]) >= va + PAGE_SIZE {
      BlockInPage(p, p.free[k]);
    }
    ThreadedKept(mem, mem', p);
  }

  // ---------------------------------------------------------------- a page leaving its two lists

  /** Everything but the links. */
  predicate SameButNexts(refs: seq<Pageref>, refs': seq<Pageref>) {
    |refs'| == |refs| && forall q :: 0 <= q < |refs| ==> SameDescription(refs[q], refs'[q])
  }

  predicate SameDescription(pr: Pageref, pr': Pageref) {
    pr'.pab == pr.pab && pr'.offset == pr.offset && pr'.nfree == pr.nfree
  }

  lemma StoredBut(refs: seq<Pageref>, refs': seq<Pageref>, mem: map<nat, nat>, h: Heap, h': Heap)
    requires PagesStored(refs, mem, h) && SameButNexts(refs, refs')
    requires forall r :: r in h'.recs ==> r in h.recs && h'.recs[r] == h.recs[r]
    ensures PagesStored(refs', mem, h')
  {
    hide Threaded, OffsetOf;
    forall r | r in h'.recs ensures PageStored(refs', mem, h', r) {
      assert PageStored(refs, mem, h, r) && SameDescription(refs[r], refs'[r]);
    }
  }
}
