/**
 What a kernel allocation that evicts does to the user's pages when the run holds free frames: which contents
 it loses, exactly, and a machine that loses one; and a machine in which the victim search never ends.
 */
module PagingEviction {
  import opened Prelude
  import opened Coremap
  import opened Paging
  import opened PagingInvariant
  import opened PagingKernel

  /** The last frame of the run that carries page number q. */
  function LastFrame(cm: seq<Entry>, first: nat, n: nat, q: nat): (f: Option<nat>)
    requires first + n <= |cm|
    ensures f.Some? ==> first <= f.value < first + n && cm[f.value].vpn == q
    ensures f.Some? ==> forall g :: f.value < g < first + n ==> cm[g].vpn != q
    ensures f.None? ==> forall g :: first <= g < first + n ==> cm[g].vpn != q
    decreases n
  {
    if n == 0 then None
    else if cm[first + n - 1].vpn == q then Some(first + n - 1)
    else LastFrame(cm, first, n - 1, q)
  }

  lemma LastOfRest(cm: seq<Entry>, first: nat, n: nat, q: nat)
    requires n > 0 && first + n <= |cm|
    ensures LastFrame(cm, first, n, q) ==
            if LastFrame(cm, first + 1, n - 1, q).Some? then LastFrame(cm, first + 1, n - 1, q)
            else if cm[first].vpn == q then Some(first) else None
  {
  }

  /** Where the run of evictions leaves page q: untouched, or in the slot that took its last frame. */
  predicate RunLeaves(s: State, s': State, found: Option<nat>, q: nat)
    requires Sizes(s) && Sizes(s') && (found.Some? ==> found.value < |s.ram|)
  {
    match found
    case None => (q in s'.pt <==> q in s.pt) && (q in s.pt ==> s'.pt[q] == s.pt[q])
    case Some(f) =>
      && q in s'.pt && s'.pt[q].frame == 0 && 0 <= s'.pt[q].slot < NUM_PAGES
      && s'.swapList[s'.pt[q].slot] == SwapPage(false, q) && s'.swapFile[s'.pt[q].slot] == s.ram[f]
  }

  lemma {:induction false} EvictRunLeaves(s: State, first: nat, n: nat, q: nat)
    requires Sizes(s) && first + n <= |s.coremap| && EvictRun(s, first, n).Some?
    ensures var s' := EvictRun(s, first, n).value;
            && s'.coremap == s.coremap && s'.ram == s.ram
            && (forall k :: 0 <= k < NUM_PAGES && !s.swapList[k].free ==>
                  s'.swapList[k] == s.swapList[k] && s'.swapFile[k] == s.swapFile[k])
            && RunLeaves(s, s', LastFrame(s.coremap, first, n, q), q)
    decreases n
  {
    if n > 0 {
      EvictIs(s, first);
      hide Evict, LastFrame;
      EvictRunLeaves(Evict(s, first).value, first + 1, n - 1, q);
      LastOfRest(s.coremap, first, n, q);
    }
  }

  /** The bytes page q is left with. */
  function After(im: Layout, s: State, found: Option<nat>, q: nat): Page
    requires Sizes(s) && q in im && (found.Some? ==> found.value < |s.ram|)
  {
    match found
    case None => Content(im, s, q)
    case Some(f) => s.ram[f]
  }

  /** After the allocation a page holds what it held, unless a frame of the run carries its number: then what that frame held. */
  lemma ContentAfterEviction(im: Layout, s: State, n: nat, q: nat)
    requires LayoutOk(im) && Inv(im, s) && n >= 1 && MustEvict(s, n) && KernelAlloc(s, n, true).1.Got? && q in im
    ensures var v := VictimOf(s, n); var s' := KernelAlloc(s, n, true).0;
            && Sizes(s') && v + n <= |s.coremap|
            && Content(im, s', q) == After(im, s, LastFrame(s.coremap, v, n, q), q)
  {
    hide EvictRun, TlbOk;
    var v, s' := VictimOf(s, n), KernelAlloc(s, n, true).0;
    var s1 := s.(victim := v + n);
    EligibleRunBounds(s, v, n);
    EvictRunLeaves(s1, v, n, q);
    PageTrichotomy(im, s, q);
    assert forall g :: 0 <= g < |s.coremap| && !(v <= g < v + n) ==> s'.coremap[g] == s.coremap[g];
  }

  /** The bytes of this frame replace those of the page whose number it carries. */
  predicate Overwrites(im: Layout, s: State, first: nat, n: nat, f: nat)
    requires Sizes(s) && first <= f < first + n <= |s.coremap|
  {
    var q := s.coremap[f].vpn;
    && s.coremap[f].status == Free && q in im && LastFrame(s.coremap, first, n, q) == Some(f) && s.ram[f] != Content(im, s, q)
  }

  /**
   The allocation keeps every page's content if and only if no free frame of the run, the last with its number,
   carries the number of a user page and other bytes than that page. A number of 0 is no user page's: nothing is lost.
   */
  lemma EvictionLosesExactly(im: Layout, s: State, n: nat)
    requires LayoutOk(im) && Inv(im, s) && n >= 1 && MustEvict(s, n) && KernelAlloc(s, n, true).1.Got?
    ensures var v := VictimOf(s, n); var s' := KernelAlloc(s, n, true).0;
            && Sizes(s') && v + n <= |s.coremap|
            && (SameContents(im, s, s') <==> forall f :: v <= f < v + n ==> !Overwrites(im, s, v, n, f))
  {
    GotVictim(s, n);
    hide KernelAlloc, Content, Evict, EvictRun, MustEvict, HasVictim, RunLeaves;
    var v, s' := VictimOf(s, n), KernelAlloc(s, n, true).0;
    forall q | q in im
      ensures Sizes(s') && Content(im, s', q) == After(im, s, LastFrame(s.coremap, v, n, q), q)
    {
      ContentAfterEviction(im, s, n, q);
    }
    RunSizes(s, n);
    forall f | v <= f < v + n && s.coremap[f].status == Dirty
      ensures s.coremap[f].vpn in im && Content(im, s, s.coremap[f].vpn) == s.ram[f]
    {
      DirtyHolds(im, s, f);
    }
    hide Inv, LastFrame;
    Losses(im, s, s', v, n);
  }

  lemma Losses(im: Layout, s: State, s': State, v: nat, n: nat)
    requires Sizes(s) && Sizes(s') && v + n <= |s.coremap|
    requires forall q :: q in im ==> Content(im, s', q) == After(im, s, LastFrame(s.coremap, v, n, q), q)
    requires forall f :: v <= f < v + n ==> Eligible(s.coremap[f])
    requires forall f :: v <= f < v + n && s.coremap[f].status == Dirty ==>
               s.coremap[f].vpn in im && Content(im, s, s.coremap[f].vpn) == s.ram[f]
    ensures SameContents(im, s, s') <==> forall f :: v <= f < v + n ==> !Overwrites(im, s, v, n, f)
  {
    hide Content;
    if f :| v <= f < v + n && Overwrites(im, s, v, n, f) {
      assert s.coremap[f].vpn in im;
    } else {
      forall q | q in im ensures Content(im, s', q) == Content(im, s, q) {
        var found := LastFrame(s.coremap, v, n, q);
        if found.Some? {
          assert !Overwrites(im, s, v, n, found.value);
        }
      }
    }
  }

  lemma GotVictim(s: State, n: nat)
    requires Sizes(s) && n >= 1 && MustEvict(s, n) && KernelAlloc(s, n, true).1.Got?
    ensures HasVictim(s, n) && VictimOf(s, n) + n < |s.coremap|
    ensures forall f :: VictimOf(s, n) <= f < VictimOf(s, n) + n ==> Eligible(s.coremap[f])
  {
    EligibleRunBounds(s, VictimOf(s, n), n);
  }

  lemma RunSizes(s: State, n: nat)
    requires Sizes(s) && n >= 1
    ensures KernelAlloc(s, n, true).1.Got? ==> Sizes(KernelAlloc(s, n, true).0)
  {
  }

  lemma DirtyHolds(im: Layout, s: State, f: nat)
    requires Inv(im, s) && f < |s.coremap| && s.coremap[f].status == Dirty
    ensures s.coremap[f].vpn in im && Content(im, s, s.coremap[f].vpn) == s.ram[f]
  {
  }

  // ---------------------------------------------------------------- machines that fail

  function FullOf(b: byte): Page { seq(PAGE_SIZE, _ => b) }

  /** One user page, number 1, in frame f; nothing was swapped out and no frame is unused. */
  ghost predicate Small(s: State, f: nat) {
    && Sizes(s) && s.firstFree == |s.coremap| && s.victim == 1 && s.pt == map[1 := Pte(f, -1)]
    && (forall k :: 0 <= k < NUM_PAGES ==> s.swapList[k].free && |s.swapFile[k]| == PAGE_SIZE)
    && (forall i :: 0 <= i < NUM_TLB ==> s.tlb[i] == TlbInvalid(i))
    && 0 < f < |s.coremap| && s.coremap[0] == Entry(Clean, 0, 0) && s.coremap[f] == Entry(Dirty, 1, 1)
    && (forall g :: 0 < g < |s.coremap| && g != f ==> s.coremap[g] == Entry(Fixed, 0, 1) || s.coremap[g] == Entry(Free, 1, 0))
    && (forall g :: 0 <= g < |s.ram| ==> |s.ram[g]| == PAGE_SIZE)
  }

  lemma SmallOk(im: Layout, s: State, f: nat)
    requires Small(s, f) && im.Keys == {1} && LayoutOk(im)
    ensures Inv(im, s)
  {
  }

  lemma MakeSmall(cm: seq<Entry>, ram: seq<Page>, f: nat) returns (s: State)
    requires |cm| == |ram| > 2 && 0 < f < |cm| && cm[0] == Entry(Clean, 0, 0) && cm[f] == Entry(Dirty, 1, 1)
    requires forall g :: 0 < g < |cm| && g != f ==> cm[g] == Entry(Fixed, 0, 1) || cm[g] == Entry(Free, 1, 0)
    requires forall g :: 0 <= g < |ram| ==> |ram[g]| == PAGE_SIZE
    ensures Small(s, f) && s.coremap == cm && s.ram == ram
  {
    s := State(cm, |cm|, 1, ram, map[1 := Pte(f, -1)], seq(NUM_PAGES, _ => SwapPage(true, 0)),
               seq(NUM_PAGES, _ => ZeroPage()), seq(NUM_TLB, (i: nat) => TlbInvalid(i)), 0,
               Stats(0, 0, 0, 0, 0, 0, 0, 0, 0, 0));
  }

  /**
   Two frames for the kernel, one of them free with the number of a page it held before: page 1, all of whose
   bytes are 7, is lost.
   */
  lemma StaleFrameExample() returns (im: Layout, s: State)
    ensures LayoutOk(im) && Inv(im, s) && 1 in im && MustEvict(s, 2) && KernelAlloc(s, 2, true).1 == Got(1)
    ensures Content(im, s, 1) == FullOf(7)
    ensures var s' := KernelAlloc(s, 2, true).0; Sizes(s') && !Inv(im, s') && Content(im, s', 1) == ZeroPage() != FullOf(7)
  {
    im := map[1 := PageSpec(ZeroPage(), true)];
    assert ZeroPage()[0] != FullOf(7)[0];
    s := MakeSmall([Entry(Clean, 0, 0), Entry(Dirty, 1, 1), Entry(Free, 1, 0), Entry(Fixed, 0, 1), Entry(Fixed, 0, 1)],
                   [ZeroPage(), FullOf(7), ZeroPage(), ZeroPage(), ZeroPage()], 1);
    SmallOk(im, s, 1);
    StaleRun(s);
    hide Small, Inv, KernelAlloc, MustEvict, HasVictim, Content, FullOf, ZeroPage;
    StaleOutcome(im, s);
  }

  lemma StaleOutcome(im: Layout, s: State)
    requires LayoutOk(im) && Inv(im, s) && 1 in im && Sizes(s) && |s.coremap| == 5
    requires MustEvict(s, 2) && HasVictim(s, 2) && VictimOf(s, 2) == 1 && KernelAlloc(s, 2, true).1.Got?
    requires s.coremap[1] == Entry(Dirty, 1, 1) && s.coremap[2] == Entry(Free, 1, 0)
    ensures var s' := KernelAlloc(s, 2, true).0;
            Sizes(s') && !Inv(im, s') && Content(im, s, 1) == s.ram[1] && Content(im, s', 1) == s.ram[2]
  {
    hide Inv, KernelAlloc, MustEvict, HasVictim, Content;
    EvictingExactly(im, s, 2);
    ContentAfterEviction(im, s, 2, 1);
    DirtyHolds(im, s, 1);
  }

  lemma StaleRun(s: State)
    requires Small(s, 1) && |s.coremap| == 5 && s.coremap[2] == Entry(Free, 1, 0)
    requires s.coremap[3].status == Fixed && s.coremap[4].status == Fixed
    ensures MustEvict(s, 2) && HasVictim(s, 2) && VictimOf(s, 2) == 1 && KernelAlloc(s, 2, true).1 == Got(1)
  {
    assert VictimRun(s.coremap, 1, 2);
    NoPair(s.coremap);
    var s1 := s.(victim := 1 + 2);
    EvictIs(s1, 1);
    assert Evict(s1, 1).value.swapList[1].free;
    assert EvictRun(s1, 1, 2).Some?;
  }

  lemma NoPair(cm: seq<Entry>)
    requires |cm| == 5 && cm[1].status != Free && cm[3].status != Free && cm[4].status != Free
    ensures forall i :: !FreeRun(cm, i, 2)
  {
  }

  /** The only frame that could be evicted is the last: the search for it never ends, so a fault on another page hangs. */
  lemma LastFrameExample(p: nat, n: nat) returns (im: Layout, s: State)
    ensures LayoutOk(im) && Inv(im, s) && s.coremap[|s.coremap| - 1].status == Dirty
    ensures AllocUser(s, p).None? && !HasVictim(s, 1) && SearchLen(s.coremap, 1, s.victim, 0, n) < 1
  {
    im := map[1 := PageSpec(ZeroPage(), true)];
    s := MakeSmall([Entry(Clean, 0, 0), Entry(Fixed, 0, 1), Entry(Dirty, 1, 1)], [ZeroPage(), ZeroPage(), ZeroPage()], 2);
    SmallOk(im, s, 2);
    NothingToFind(s.coremap);
    SearchDiverges(s.coremap, 1, s.victim, n);
  }

  lemma NothingToFind(cm: seq<Entry>)
    requires |cm| == 3 && cm[1].status == Fixed && cm[2].status == Dirty
    ensures !HasFreeRun(cm, 1) && !Findable(cm, 1, 1) && !Overlong(cm, 1)
  {
    assert !FreeRun(cm, 1, 1) && !FreeRun(cm, 2, 1);
    assert !VictimRun(cm, 1, 1);
  }
}
