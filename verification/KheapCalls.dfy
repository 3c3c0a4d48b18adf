/**
 What kfree finds for an address, that freeing the block just allocated undoes the allocation,
 and that the two kinds of page lists agree.
 */
module KheapCalls {
  import opened Prelude
  import opened Kheap
  import opened KheapInvariant

  // ---------------------------------------------------------------- finding a block by its address

  /** subpage_kfree's search: the first page, in list order, that contains the address. */
  function FindPage(h: Heap, list: seq<nat>, a: nat): Option<nat> {
    if list == [] then None
    else if list[0] in h.recs && h.recs[list[0]].addr <= a < h.recs[list[0]].addr + PAGE_SIZE then Some(list[0])
    else FindPage(h, list[1..], a)
  }

  lemma {:induction false} FindPageOk(h: Heap, list: seq<nat>, a: nat)
    ensures FindPage(h, list, a).Some? ==>
              var r := FindPage(h, list, a).value; r in list && r in h.recs && h.recs[r].addr <= a < h.recs[r].addr + PAGE_SIZE
    ensures FindPage(h, list, a).None? ==>
              forall r :: r in list && r in h.recs ==> !(h.recs[r].addr <= a < h.recs[r].addr + PAGE_SIZE)
  {
    if list != [] {
      FindPageOk(h, list[1..], a);
      assert forall x :: x in list <==> x == list[0] || x in list[1..];
    }
  }

  /** The address of a block leads back to its page, whatever the order of the list. */
  lemma FindBlock(h: Heap, reserved: set<nat>, r: nat, i: nat)
    requires HeapOk(h, reserved) && r in h.recs && i < NBlocks(h.recs[r].blk)
    ensures FindPage(h, h.all, BlockAddr(h.recs[r], i)) == Some(r)
  {
    hide BitsOk, RootsOk, SpaceOk, BlockAddr;
    var a := BlockAddr(h.recs[r], i);
    FindPageOk(h, h.all, a);
    assert r in h.all && PageOk(h.recs[r]);
    hide PagesOk, ListsOk, PageOk;
    BlockInPage(h.recs[r], i);
    assert FindPage(h, h.all, a).Some?;
    var q := FindPage(h, h.all, a).value;
    if q != r {
      PagesApart(h, r, q);
    }
  }

  /** An address outside every heap page is not a subpage block. */
  lemma FindNone(h: Heap, reserved: set<nat>, a: nat)
    requires HeapOk(h, reserved) && a in h.big
    ensures FindPage(h, h.all, a) == None
  {
    FindPageOk(h, h.all, a);
    assert forall r :: r in h.recs ==> !(h.recs[r].addr <= a < h.recs[r].addr + PAGE_SIZE) by {
      assert forall r :: r in h.recs ==> Apart(h.recs[r].addr, PAGE_SIZE, a, h.big[a] * PAGE_SIZE);
    }
  }

  // ---------------------------------------------------------------- freeing the block just allocated

  /** From an existing page: the free list, the lists and the bitmap are exactly as before. */
  lemma FreeUndoesTake(h: Heap, reserved: set<nat>, r: nat)
    requires HeapOk(h, reserved) && r in h.recs && h.recs[r].free != [] && r < TOTAL_REFS
    requires |h.bySize| == NSIZES && h.recs[r].blk < NSIZES
    ensures RootsOk(TakeBlock(h, r)) && FreeBlock(TakeBlock(h, r), r, h.recs[r].free[0]) == h
  {
    hide SpaceOk, BitsOk, ListsOk;
    var f := h.recs[r].free;
    assert [f[0]] + f[1..] == f;
    assert h.recs[r := h.recs[r].(free := f[1..])][r := h.recs[r]] == h.recs;
  }

  /** From a new page: the page leaves both lists again and its pageref is free again. */
  lemma FreeUndoesLink(h: Heap, reserved: set<nat>, r: nat, va: nat, b: nat)
    requires HeapOk(h, reserved) && |h.bySize| == NSIZES && b < NSIZES && r < TOTAL_REFS && r !in h.recs && !Bit(h, r)
    ensures var h1 := LinkPage(SetBit(h, r, true), r, va, b); var h2 := TakeBlock(h1, r);
            RootsOk(h2) && FreeBlock(h2, r, NBlocks(b) - 1) == h
  {
    hide SpaceOk, ListsOk, PagesOk, BitsOk;
    SetBitOk(h, r, true);
    var h0 := SetBit(h, r, true);
    var h1 := LinkPage(h0, r, va, b);
    var h2 := TakeBlock(h1, r);
    var f := FreshFree(b);
    assert RootsOk(h2) by { SameRootsOk(h0, h2); }
    assert [NBlocks(b) - 1] + f[1..] == f;
    var h3 := PutBlock(h2, r, NBlocks(b) - 1);
    assert h3.recs[r].free == f;
    assert h3.recs - {r} == h.recs;
    assert Without([r] + h.all, r) == h.all;
    assert Without([r] + h.bySize[b], r) == h.bySize[b];
    assert h1.bySize[b := h.bySize[b]] == h.bySize;
    UndoBit(h, r);
    assert UnlinkPage(h3, r) == h;
  }

  lemma UndoBit(h: Heap, r: nat)
    requires RootsOk(h) && r < TOTAL_REFS && !Bit(h, r)
    ensures RootsOk(SetBit(h, r, true)) && SetBit(SetBit(h, r, true), r, false) == h
  {
    SetBitOk(h, r, true);
    var w, i := r / REFS_PER_PAGE, r % REFS_PER_PAGE;
    var root := h.roots[w];
    assert root.inuse[i := true][i := false] == root.inuse;
    assert h.roots[w := SetRootBit(root, i, true)][w := root] == h.roots;
  }

  // ---------------------------------------------------------------- the debug check of the two kinds of lists

  function SumLengths(lists: seq<seq<nat>>): nat {
    if lists == [] then 0 else SumLengths(lists[..|lists| - 1]) + |lists[|lists| - 1]|
  }

  function Elems(s: seq<nat>): set<nat> { set r | r in s }

  function PagesBelow(h: Heap, n: nat): set<nat> { set r | r in h.recs && h.recs[r].blk < n }

  /** checksubpages: the size lists have as many pages together as the global list. */
  lemma ListsAgree(h: Heap)
    requires ListsOk(h) && forall r :: r in h.recs ==> h.recs[r].blk < NSIZES
    ensures SumLengths(h.bySize) == |h.all|
  {
    SumIsCount(h, NSIZES);
    assert h.bySize[..NSIZES] == h.bySize;
    SeqSize(h.all);
    assert PagesBelow(h, NSIZES) == Elems(h.all);
  }

  lemma {:induction false} SumIsCount(h: Heap, n: nat)
    requires ListsOk(h) && n <= NSIZES
    ensures SumLengths(h.bySize[..n]) == |PagesBelow(h, n)|
  {
    if n > 0 {
      SumIsCount(h, n - 1);
      assert h.bySize[..n][..n - 1] == h.bySize[..n - 1];
      SeqSize(h.bySize[n - 1]);
      var lower, last := PagesBelow(h, n - 1), Elems(h.bySize[n - 1]);
      assert PagesBelow(h, n) == lower + last;
      assert lower !! last;
    }
  }

  lemma {:induction false} SeqSize(s: seq<nat>)
    requires NoDup(s)
    ensures |Elems(s)| == |s|
  {
    if s != [] {
      var t, x := s[..|s| - 1], s[|s| - 1];
      SeqSize(t);
      assert s == t + [x];
      assert Elems(s) == Elems(t) + {x};
      assert x !in Elems(t);
    }
  }
}
