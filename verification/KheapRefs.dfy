/**
 freepageref's assertions. It walks the roots in order and insists that every root it passes that has no
 page has no bit set either; a run in which fewer than 256 pagerefs are ever reserved at once never fails it.
 */
module KheapRefs {
  import opened Prelude
  import opened Kheap
  import opened KheapInvariant
  import opened KheapCalls
  import opened KheapRuns

  /** A root is only used after every earlier root has its page. */
  predicate RootsInOrder(h: Heap) {
    forall v, w :: 0 <= v < w < |h.roots| && h.roots[w].count > 0 ==> h.roots[v].page != 0
  }

  /** The assertion on the roots before the one that holds r. */
  predicate PassesEmptyRoots(roots: seq<Root>, r: nat) {
    forall v :: 0 <= v < r / REFS_PER_PAGE && v < |roots| && roots[v].page == 0 ==> roots[v].count == 0
  }

  lemma {:induction false} BitCounts(s: seq<bool>, i: nat)
    requires i < |s| && s[i]
    ensures CountTrue(s) > 0
  {
    if i < |s| - 1 {
      BitCounts(s[..|s| - 1], i);
    }
  }

  /** freepageref on a page of the heap: its root has a page, its bit is set, and the empty roots passed are unused. */
  lemma FreePagerefSafe(h: Heap, reserved: set<nat>, r: nat)
    requires HeapOk(h, reserved) && RootsInOrder(h) && r in h.recs
    ensures r < TOTAL_REFS && Bit(h, r)
    ensures h.roots[r / REFS_PER_PAGE].page != 0 && h.roots[r / REFS_PER_PAGE].count > 0
    ensures PassesEmptyRoots(h.roots, r)
  {
    hide PagesOk, ListsOk, SpaceOk;
    assert r < TOTAL_REFS && Bit(h, r);
    BitCounts(h.roots[r / REFS_PER_PAGE].inuse, r % REFS_PER_PAGE);
  }

  // ---------------------------------------------------------------- counting reserved pagerefs

  function Span(lo: nat, n: nat): (s: set<nat>)
    ensures |s| == n && forall x :: x in s <==> lo <= x < lo + n
  {
    if n == 0 then {} else Span(lo, n - 1) + {lo + n - 1}
  }

  /** A full root without a page has all its 256 pagerefs reserved. */
  lemma FullRootReserved(h: Heap, reserved: set<nat>, v: nat)
    requires RootsOk(h) && BitsOk(h, reserved) && v < NUM_ROOTS && h.roots[v].page == 0
    requires forall q :: v * REFS_PER_PAGE <= q < (v + 1) * REFS_PER_PAGE ==> q < TOTAL_REFS && Bit(h, q)
    ensures |reserved| >= REFS_PER_PAGE
  {
    var s := Span(v * REFS_PER_PAGE, REFS_PER_PAGE);
    forall q | q in s ensures q in reserved {
      assert q / REFS_PER_PAGE == v && Bit(h, q);
    }
    SubsetSize(s, reserved);
  }

  lemma ReserveInOrder(h: Heap, reserved: set<nat>, r: nat)
    requires RootsOk(h) && BitsOk(h, reserved) && RootsInOrder(h) && IsNextRef(h, r) && |reserved + {r}| <= REFS_PER_PAGE
    ensures RootsInOrder(SetBit(h, r, true))
  {
    var w := r / REFS_PER_PAGE;
    assert r !in reserved;
    forall v | 0 <= v < w ensures h.roots[v].page != 0 {
      if h.roots[v].page == 0 {
        assert (v + 1) * REFS_PER_PAGE <= r;
        FullRootReserved(h, reserved, v);
        assert false;
      }
    }
  }

  lemma FreeInOrder(h: Heap, r: nat, i: nat)
    requires Shaped(h) && RootsInOrder(h) && r in h.recs && r < TOTAL_REFS && h.recs[r].blk < NSIZES
    ensures RootsInOrder(FreeBlock(h, r, i))
  {
  }

  lemma StepInOrder(s: State, op: Op, s': State)
    requires StateOk(s) && Shaped(s.h) && Allowed(s, op) && Step(s, op, s')
    requires RootsInOrder(s.h) && |s'.reserved| <= REFS_PER_PAGE
    ensures RootsInOrder(s'.h)
  {
    hide LiveOk, PendingOk, PagesOk, ListsOk, SpaceOk, FreshRange, FreeBlock;
    match op
    case Reserve(r) => ReserveInOrder(s.h, s.reserved, r);
    case Free(a) =>
      if FindPage(s.h, s.h.all, a).Some? {
        var r := FindPage(s.h, s.h.all, a).value;
        FreeInOrder(s.h, r, (a - s.h.recs[r].addr) / SizeOf(s.h.recs[r].blk));
      }
    case _ =>
  }

  lemma {:induction false} RunInOrder(states: seq<State>, ops: seq<Op>, n: nat)
    requires Run(states, ops) && states[0] == Booted() && n <= |ops|
    requires forall k :: 0 <= k <= n ==> |states[k].reserved| <= REFS_PER_PAGE
    ensures RootsInOrder(states[n].h)
  {
    hide StateOk, Step, Allowed, Shaped, RootsInOrder;
    if n == 0 {
      BootedInOrder();
    } else {
      RunInOrder(states, ops, n - 1);
      RunOk(states, ops, n - 1);
      assert Step(states[n - 1], ops[n - 1], states[n - 1 + 1]);
      StepInOrder(states[n - 1], ops[n - 1], states[n]);
    }
  }

  lemma BootedInOrder()
    ensures RootsInOrder(Booted().h)
  {
  }

  /** In every run with at most 256 pagerefs reserved at any time, no freepageref assertion can fail. */
  lemma FreePagerefNeverPanics(states: seq<State>, ops: seq<Op>, n: nat, r: nat)
    requires Run(states, ops) && states[0] == Booted() && n <= |ops|
    requires forall k :: 0 <= k <= n ==> |states[k].reserved| <= REFS_PER_PAGE
    requires r in states[n].h.recs
    ensures var h := states[n].h;
            && RootsOk(h) && r < TOTAL_REFS && Bit(h, r) && h.roots[r / REFS_PER_PAGE].page != 0
            && h.roots[r / REFS_PER_PAGE].count > 0 && PassesEmptyRoots(h.roots, r)
  {
    RunOk(states, ops, n);
    RunInOrder(states, ops, n);
    FreePagerefSafe(states[n].h, states[n].reserved, r);
  }
}
