/**
 A run that fails freepageref's assertion: 256 threads have reserved a pageref each and wait for the page of
 root 0; the 257th gets its page, for root 1, first, and its heap page is then freed past the empty root 0.
 */
module KheapRefsExample {
  import opened Prelude
  import opened Kheap
  import opened KheapInvariant
  import opened KheapRuns
  import opened KheapRefs

  const REF_PAGE: nat := 0x1000
  const HEAP_PAGE: nat := 0x2000

  /** Nothing but the bits of the first k pagerefs is set. */
  ghost predicate OnlyMarked(h: Heap, k: nat) {
    && RootsOk(h) && h.recs == map[] && h.big == map[] && h.all == [] && h.bySize == Booted().h.bySize
    && (forall q :: 0 <= q < TOTAL_REFS ==> (Bit(h, q) <==> q < k))
    && (forall w :: 0 <= w < NUM_ROOTS ==> h.roots[w].page == 0)
  }

  lemma MarkedNone()
    ensures OnlyMarked(Booted().h, 0)
  {
    BootedOk();
    hide CountTrue;
  }

  lemma MarkOne(h: Heap, k: nat)
    requires OnlyMarked(h, k) && k < TOTAL_REFS
    ensures |h.roots| == NUM_ROOTS && |h.roots[k / REFS_PER_PAGE].inuse| == REFS_PER_PAGE
    ensures OnlyMarked(SetBit(h, k, true), k + 1)
  {
    SetBitOk(h, k, true);
  }

  /** The heap with the first k pagerefs marked. */
  function Marked(k: nat): (h: Heap)
    requires k <= TOTAL_REFS
    ensures OnlyMarked(h, k)
  {
    hide OnlyMarked, SetBit, Booted;
    if k == 0 then MarkedNone(); Booted().h
    else var h := Marked(k - 1); MarkOne(h, k - 1); SetBit(h, k - 1, true)
  }

  /** 257 pagerefs are reserved, then the last one's root and heap page arrive. */
  function After(k: nat): State
    requires k <= 261
  {
    hide Marked, Span;
    if k <= 257 then State(Marked(k), Span(0, k), {}, map[])
    else if k == 258 then State(Marked(257), Span(0, 257), {REF_PAGE}, map[])
    else if k == 259 then State(InstallRoot(Marked(257), 1, REF_PAGE), Span(0, 257), {}, map[])
    else if k == 260 then State(InstallRoot(Marked(257), 1, REF_PAGE), Span(0, 257), {HEAP_PAGE}, map[])
    else Linked(Marked(257))
  }

  function Linked(marked: Heap): State
    requires OnlyMarked(marked, 257)
  {
    var h := InstallRoot(marked, 1, REF_PAGE);
    State(TakeBlock(LinkPage(h, 256, HEAP_PAGE, 0), 256), Span(0, 257) - {256}, {},
          map[LinkedAt(HEAP_PAGE, 0) := Loan(Sub(256, NBlocks(0) - 1), 16)])
  }

  function OpAt(k: nat): Op {
    if k < 257 then Reserve(k)
    else if k == 257 then GetPage(REF_PAGE)
    else if k == 258 then Install(1, REF_PAGE)
    else if k == 259 then GetPage(HEAP_PAGE)
    else LinkNew(256, HEAP_PAGE, 16)
  }

  function States(): (s: seq<State>)
    ensures |s| == 262 && forall k :: 0 <= k < 262 ==> s[k] == After(k)
  {
    hide After, Marked, Span;
    seq(262, (k: nat) requires k < 262 => After(k))
  }

  function Ops(): (s: seq<Op>)
    ensures |s| == 261 && forall k :: 0 <= k < 261 ==> s[k] == OpAt(k)
  {
    hide OpAt;
    seq(261, (k: nat) => OpAt(k))
  }

  lemma MarkedNext(k: nat)
    requires k < TOTAL_REFS
    ensures Marked(k + 1) == SetBit(Marked(k), k, true)
  {
    hide SetBit;
  }

  /** Nothing but root 1's page is in use yet. */
  lemma FreshPage(h: Heap, va: nat)
    requires h.recs == map[] && h.big == map[] && va > 0 && va % PAGE_SIZE == 0
    requires forall w :: 0 <= w < |h.roots| ==> h.roots[w].page == 0 || Apart(va, 1 * PAGE_SIZE, h.roots[w].page, PAGE_SIZE)
    ensures FreshRange(h, va, 1)
  {
  }

  lemma ReserveStep(k: nat)
    requires k < 257
    ensures Shaped(Marked(k)) && Step(After(k), Reserve(k), After(k + 1))
  {
    hide SetBit, Marked, Span;
    MarkedNext(k);
    assert Span(0, k + 1) == Span(0, k) + {k};
  }

  lemma PageStep(k: nat)
    requires k == 257 || k == 259
    ensures Shaped(After(k).h) && Allowed(After(k), OpAt(k)) && Step(After(k), OpAt(k), After(k + 1))
  {
    hide SetBit, Marked, Span;
    FreshPage(After(k).h, if k == 257 then REF_PAGE else HEAP_PAGE);
    hide FreshRange;
    assert {} + {REF_PAGE} == {REF_PAGE} && {} + {HEAP_PAGE} == {HEAP_PAGE};
  }

  lemma InstallStep()
    ensures Shaped(After(258).h) && Allowed(After(258), OpAt(258)) && Step(After(258), OpAt(258), After(259))
  {
    hide SetBit, Marked, Span;
    assert {REF_PAGE} - {REF_PAGE} == {};
  }

  lemma LinkStep()
    ensures Shaped(After(260).h) && Allowed(After(260), OpAt(260)) && Step(After(260), OpAt(260), After(261))
  {
    hide SetBit, Marked, Span;
    assert {HEAP_PAGE} - {HEAP_PAGE} == {};
    assert 256 in Span(0, 257);
  }

  lemma RunLegal()
    ensures Run(States(), Ops())
  {
    hide Step, Allowed, Shaped, After, OpAt, States, Ops;
    forall k | 0 <= k < 261
      ensures Shaped(States()[k].h) && Allowed(States()[k], Ops()[k]) && Step(States()[k], Ops()[k], States()[k + 1])
    {
      StepAt(k);
    }
  }

  lemma StepAt(k: nat)
    requires k < 261
    ensures Shaped(After(k).h) && Allowed(After(k), OpAt(k)) && Step(After(k), OpAt(k), After(k + 1))
  {
    hide Step, Shaped, Linked, Marked, Span;
    if k < 257 {
      ReserveStep(k);
    } else if k == 258 {
      InstallStep();
    } else if k == 260 {
      LinkStep();
    } else {
      PageStep(k);
    }
  }

  /** Never more than 257 pagerefs are reserved, and the assertion fails for the page linked last. */
  lemma FreePagerefCanPanic()
    ensures var states, ops, n := States(), Ops(), 261;
            && Run(states, ops) && states[0] == Booted() && n == |ops|
            && (forall k :: 0 <= k <= n ==> |states[k].reserved| <= REFS_PER_PAGE + 1)
            && 256 in states[n].h.recs && !PassesEmptyRoots(states[n].h.roots, 256)
  {
    RunLegal();
    hide Run, Marked, Span, States, Ops;
    MarkedCount();
    forall k | 0 <= k <= 261 ensures |States()[k].reserved| <= REFS_PER_PAGE + 1 {
      ReservedAt(k);
    }
    var roots := States()[261].h.roots;
    assert roots[0].page == 0 && roots[0].count > 0;
    FirstState();
  }

  lemma ReservedAt(k: nat)
    requires k <= 261
    ensures |After(k).reserved| <= REFS_PER_PAGE + 1
  {
    hide Marked, Span;
    if k == 261 {
      SubsetSize(Span(0, 257) - {256}, Span(0, 257));
    }
  }

  lemma FirstState()
    ensures After(0) == Booted()
  {
    var k: nat := 0;
    assert Marked(k) == Booted().h && Span(0, k) == {};
  }

  lemma MarkedCount()
    ensures Marked(257).roots[0].count > 0
  {
    hide Marked;
    assert Bit(Marked(257), 0);
    BitCounts(Marked(257).roots[0].inuse, 0);
  }
}
