/**
 Frames for the kernel: getppages, getfreeppages and freeppages (kern/vm/coremap.c), on the
 same state as the user pages. Live kernel blocks stay disjoint and fixed, no fault ever
 touches them, and an allocation that has to evict keeps the paging invariant exactly when
 the frames it evicts are all dirty.
 */
module PagingKernel {
  import opened Prelude
  import opened Segments
  import opened Coremap
  import opened Paging
  import opened PagingInvariant
  import opened PagingFault

  /** KernelHalt: the swap file is full, the victim search never ends, or it names a run below frame 1. */
  datatype KernelResult = Got(first: nat) | NoMemory | KernelHalt

  function MarkFixed(cm: seq<Entry>, first: nat, n: nat): (r: seq<Entry>)
    requires first + n <= |cm|
    ensures |r| == |cm|
  {
    seq(|cm|, (i: nat) requires i < |cm| =>
      if first <= i < first + n
      then Entry(Fixed, cm[i].vpn, if i == first then n else cm[i].allocSize)
      else cm[i])
  }

  function Fix(s: State, first: nat, n: nat): State
    requires first + n <= |s.coremap|
  {
    s.(coremap := MarkFixed(s.coremap, first, n))
  }

  /** The frames of the run are evicted one after the other, in order. */
  function EvictRun(s: State, first: nat, n: nat): (r: Option<State>)
    requires Sizes(s) && first + n <= |s.coremap|
    ensures r.Some? ==> Sizes(r.value) && r.value.coremap == s.coremap && r.value.firstFree == s.firstFree
    decreases n
  {
    if n == 0 then Some(s)
    else match Evict(s, first)
      case None => None
      case Some(s1) => EvictRun(s1, first + 1, n - 1)
  }

  ghost predicate MustEvict(s: State, n: nat)
  {
    !HasFreeRun(s.coremap, n) && s.firstFree + n > |s.coremap|
  }

  /** The search found no run. It has ended all the same if the request is overlong, with a run that begins below frame 1. */
  function NoVictim(s: State, n: nat, hasAs: bool): (State, KernelResult)
    requires Sizes(s)
  {
    if Overlong(s.coremap, n) && !hasAs then (s.(victim := |s.coremap| - 1), NoMemory) else (s, KernelHalt)
  }

  /** getppages. hasAs: the calling thread has an address space (the code gives up otherwise). */
  ghost function KernelAlloc(s: State, n: nat, hasAs: bool): (State, KernelResult)
    requires Sizes(s) && n >= 1
  {
    if HasFreeRun(s.coremap, n) then (Fix(s, FirstFree(s.coremap, n), n), Got(FirstFree(s.coremap, n)))
    else if s.firstFree + n <= |s.coremap| then
      (Fix(s.(firstFree := s.firstFree + n), s.firstFree, n), Got(s.firstFree))
    else if !HasVictim(s, n) then NoVictim(s, n, hasAs)
    else
      var v := VictimOf(s, n);
      var s1 := s.(victim := v + n);
      if !hasAs then (s1, NoMemory)
      else match EvictRun(s1, v, n)
        case None => (s, KernelHalt)
        case Some(s2) => (Fix(s2, v, n), Got(v))
  }

  /** freeppages: the virtual address of the frame is left behind. */
  function ReleaseFrames(cm: seq<Entry>, first: nat, n: nat): (r: seq<Entry>)
    ensures |r| == |cm|
  {
    seq(|cm|, (i: nat) requires i < |cm| => if first <= i < first + n then Entry(Free, cm[i].vpn, 0) else cm[i])
  }

  /** free_kpages. */
  function KernelFree(s: State, first: nat): State
    requires first < |s.coremap|
  {
    s.(coremap := ReleaseFrames(s.coremap, first, s.coremap[first].allocSize))
  }

  // ---------------------------------------------------------------- live kernel blocks

  /** Blocks handed out and not yet freed, by their first frame. */
  ghost predicate LiveOk(s: State, live: map<nat, nat>) {
    && (forall b :: b in live ==> 1 <= b && 1 <= live[b] && b + live[b] <= s.firstFree && b + live[b] <= |s.coremap|
                                  && s.coremap[b].allocSize == live[b])
    && (forall b, f :: b in live && b <= f < b + live[b] && f < |s.coremap| ==> s.coremap[f].status == Fixed)
    && (forall a, b :: a in live && b in live && a < b ==> a + live[a] <= b)
  }

  /** Frames of the kernel keep their coremap entry and their bytes. */
  predicate KernelKept(s: State, s': State) {
    && |s'.coremap| == |s.coremap| && |s'.ram| == |s.ram| == |s.coremap| && s.firstFree <= s'.firstFree
    && forall f :: 0 <= f < |s.coremap| && s.coremap[f].status == Fixed ==>
         s'.coremap[f] == s.coremap[f] && s'.ram[f] == s.ram[f]
  }

  lemma LiveKept(s: State, s': State, live: map<nat, nat>)
    requires LiveOk(s, live) && KernelKept(s, s')
    ensures LiveOk(s', live)
  {
    forall b | b in live ensures s'.coremap[b].allocSize == live[b] {
      assert s.coremap[b].status == Fixed;
    }
  }

  lemma AllocUserKeepsKernel(s: State, p: nat)
    requires Shape(s) && AllocUser(s, p).Some?
    ensures var (s', f) := AllocUser(s, p).value;
            && KernelKept(s, s') && s.coremap[f].status != Fixed && s'.ram == s.ram
            && s'.coremap == s.coremap[f := Entry(Dirty, p, 1)]
  {
    if !HasFreeRun(s.coremap, 1) && s.firstFree + 1 > |s.coremap| {
      VictimIsDirty(s, VictimOf(s, 1));
    }
  }

  /** Fixed frames are never evicted, never given to a user page and never written by a fault. */
  lemma FaultKeepsKernel(as_: AddrSpace, im: Layout, s: State, kind: FaultKind, va: nat)
    requires Inv(im, s)
    ensures KernelKept(s, Fault(as_, s, kind, va).0)
  {
    if (kind == ReadFault || kind == WriteFault) && GetSegment(as_, va).Some? {
      var p, seg := va / PAGE_SIZE, GetSegment(as_, va).value;
      SegmentFaultCases(im, s, va, seg);
      if !Resident(s, p, {}) && AllocUser(s, p).Some? {
        AllocUserKeepsKernel(s, p);
        var (s2, f) := AllocUser(s, p).value;
        if Swapped(s, p) {
          SwapInFaultFrames(s, p, seg);
        }
        NewPageFaultFrames(s, p, va, seg);
      }
    }
  }

  lemma SwapInFaultFrames(s: State, p: nat, seg: Segment)
    requires Sizes(s) && AllocUser(s, p).Some? && PtSlot(s.pt, p) >= 0
    ensures var (s2, f) := AllocUser(s, p).value; var s' := SwapInFault(s, p, seg).0;
            s'.coremap == s2.coremap && s'.firstFree == s2.firstFree && |s'.ram| == |s2.ram|
            && forall g :: 0 <= g < |s2.ram| && g != f ==> s'.ram[g] == s2.ram[g]
  {
  }

  lemma NewPageFaultFrames(s: State, p: nat, va: nat, seg: Segment)
    requires Sizes(s) && AllocUser(s, p).Some?
    ensures var (s2, f) := AllocUser(s, p).value; var s' := NewPageFault(s, p, va, seg).0;
            s'.coremap == s2.coremap && s'.firstFree == s2.firstFree && |s'.ram| == |s2.ram|
            && forall g :: 0 <= g < |s2.ram| && g != f ==> s'.ram[g] == s2.ram[g]
  {
  }

  // ---------------------------------------------------------------- evicting a run

  function Frames(first: nat, n: nat): (r: set<nat>)
    ensures forall f :: f in r <==> first <= f < first + n
    decreases n
  {
    if n == 0 then {} else {first} + Frames(first + 1, n - 1)
  }

  lemma {:induction false} EvictRunOk(im: Layout, s: State, first: nat, n: nat, X: set<nat>)
    requires LayoutOk(im) && Sizes(s) && InvX(im, s, X) && first + n <= |s.coremap| && EvictRun(s, first, n).Some?
    requires forall f :: first <= f < first + n ==> s.coremap[f].status == Dirty && f !in X
    ensures var s' := EvictRun(s, first, n).value;
            InvX(im, s', X + Frames(first, n)) && SameContents(im, s, s') && s'.ram == s.ram && s'.pt.Keys == s.pt.Keys
    decreases n
  {
    hide InvX, SameContents, Evict;
    if n == 0 {
      assert X + Frames(first, n) == X;
      SameContentsRefl(im, s);
    } else {
      var s1, s' := Evict(s, first).value, EvictRun(s, first, n).value;
      EvictStep(im, s, s1, first, X);
      EvictRunOk(im, s1, first + 1, n - 1, X + {first});
      assert X + {first} + Frames(first + 1, n - 1) == X + Frames(first, n);
      SameContentsTrans(im, s, s1, s');
    }
  }

  lemma SameContentsRefl(im: Layout, s: State)
    requires Sizes(s)
    ensures SameContents(im, s, s)
  {
  }

  lemma EvictStep(im: Layout, s: State, s1: State, f: nat, X: set<nat>)
    requires LayoutOk(im) && InvX(im, s, X) && f < |s.coremap| && f !in X && s.coremap[f].status == Dirty
    requires Evict(s, f) == Some(s1)
    ensures Sizes(s1) && InvX(im, s1, X + {f}) && SameContents(im, s, s1)
    ensures s1.coremap == s.coremap && s1.ram == s.ram && s1.pt.Keys == s.pt.Keys
  {
    EvictOk(im, s, f, X);
    EvictIs(s, f);
  }

  /** Frames exempted from the invariant become kernel frames. */
  lemma FixOk(im: Layout, s: State, first: nat, n: nat, X: set<nat>)
    requires InvX(im, s, X) && 1 <= first && first + n <= s.firstFree && X <= Frames(first, n)
    requires forall f :: first <= f < first + n && f !in X ==> s.coremap[f].status != Dirty
    requires forall f :: f in X ==> s.coremap[f].vpn == 0 || s.coremap[f].vpn in s.pt
    ensures Inv(im, Fix(s, first, n)) && SameContents(im, s, Fix(s, first, n))
  {
    hide SameContents;
    var s' := Fix(s, first, n);
    forall p | p in s.pt ensures p in im && (Resident(s', p, {}) || Swapped(s', p)) {
      assert Resident(s, p, X) || Swapped(s, p);
    }
    FixContents(im, s, first, n, X);
  }

  lemma FixContents(im: Layout, s: State, first: nat, n: nat, X: set<nat>)
    requires InvX(im, s, X) && first + n <= |s.coremap| && X <= Frames(first, n)
    requires forall f :: first <= f < first + n && f !in X ==> s.coremap[f].status != Dirty
    ensures Sizes(Fix(s, first, n)) && SameContents(im, s, Fix(s, first, n))
  {
    var s' := Fix(s, first, n);
    forall p | p in im ensures Content(im, s', p) == Content(im, s, p) {
      if p in s.pt {
        assert Resident(s, p, X) || Swapped(s, p);
      }
    }
  }

  // ---------------------------------------------------------------- allocation and release

  /** The eviction branch meets only user pages (always so for one page). */
  ghost predicate EvictsOnlyDirty(s: State, n: nat) {
    MustEvict(s, n) && HasVictim(s, n) ==>
      forall f :: VictimOf(s, n) <= f < VictimOf(s, n) + n ==> s.coremap[f].status == Dirty
  }

  lemma OnePageEvictsDirty(s: State)
    requires Shape(s)
    ensures EvictsOnlyDirty(s, 1)
  {
    if MustEvict(s, 1) && HasVictim(s, 1) {
      VictimIsDirty(s, VictimOf(s, 1));
    }
  }

  /** What an allocation of n frames at `first` gives its caller. */
  ghost predicate Allocated(s: State, s': State, first: nat, n: nat) {
    && 1 <= first && first + n <= |s'.coremap| == |s.coremap|
    && s'.coremap == MarkFixed(s.coremap, first, n)
    && (forall f :: first <= f < first + n ==> s.coremap[f].status != Fixed)
    && s.firstFree <= s'.firstFree && first + n <= s'.firstFree && s'.ram == s.ram
  }

  lemma KernelAllocOk(im: Layout, s: State, n: nat, hasAs: bool)
    requires LayoutOk(im) && Sizes(s) && Inv(im, s) && n >= 1 && EvictsOnlyDirty(s, n)
    ensures var (s', r) := KernelAlloc(s, n, hasAs);
            && (r != KernelHalt ==> Inv(im, s') && SameContents(im, s, s'))
            && (r.Got? ==> Allocated(s, s', r.first, n))
            && (r == NoMemory ==> s' == s.(victim := s'.victim) && !hasAs)
  {
    hide Inv, SameContents, EvictRun, Allocated, EvictsOnlyDirty;
    if HasFreeRun(s.coremap, n) {
      FreeRunOk(im, s, n);
    } else if s.firstFree + n <= |s.coremap| {
      StealOk(im, s, n);
    } else if HasVictim(s, n) {
      EvictAllocOk(im, s, n);
    } else {
      CursorIrrelevant(im, s, |s.coremap| - 1);
    }
  }

  lemma FreeRunOk(im: Layout, s: State, n: nat)
    requires LayoutOk(im) && Inv(im, s) && n >= 1 && HasFreeRun(s.coremap, n)
    ensures var first := FirstFree(s.coremap, n); var s' := Fix(s, first, n);
            Inv(im, s') && SameContents(im, s, s') && Allocated(s, s', first, n)
  {
    hide SlotsOk, TlbOk, SameContents;
    var first := FirstFree(s.coremap, n);
    assert s.coremap[first + n - 1].status == Free;
    assert {} <= Frames(first, n);
    FixOk(im, s, first, n, {});
  }

  lemma StealOk(im: Layout, s: State, n: nat)
    requires LayoutOk(im) && Inv(im, s) && n >= 1 && s.firstFree + n <= |s.coremap|
    ensures var s' := Fix(s.(firstFree := s.firstFree + n), s.firstFree, n);
            Inv(im, s') && SameContents(im, s, s') && Allocated(s, s', s.firstFree, n)
  {
    var s1 := s.(firstFree := s.firstFree + n);
    assert InvX(im, s1, {}) && SameContents(im, s, s1) by {
      forall p | p in s.pt ensures p in im && (Resident(s1, p, {}) || Swapped(s1, p)) {
        assert Resident(s, p, {}) || Swapped(s, p);
      }
    }
    assert {} <= Frames(s.firstFree, n);
    FixOk(im, s1, s.firstFree, n, {});
    SameContentsTrans(im, s, s1, Fix(s1, s.firstFree, n));
  }

  lemma EvictAllocOk(im: Layout, s: State, n: nat)
    requires LayoutOk(im) && Inv(im, s) && n >= 1 && MustEvict(s, n) && HasVictim(s, n) && EvictsOnlyDirty(s, n)
    ensures var v := VictimOf(s, n); var s1 := s.(victim := v + n);
            && Inv(im, s1) && SameContents(im, s, s1)
            && (EvictRun(s1, v, n).Some? ==>
                  var s' := Fix(EvictRun(s1, v, n).value, v, n);
                  Inv(im, s') && SameContents(im, s, s') && Allocated(s, s', v, n))
  {
    hide SameContents, TlbOk, SlotsOk, EvictRun;
    var v := VictimOf(s, n);
    var s1 := s.(victim := v + n);
    CursorIrrelevant(im, s, v + n);
    if EvictRun(s1, v, n).Some? {
      var s2 := EvictRun(s1, v, n).value;
      EvictRunOk(im, s1, v, n, {});
      assert {} + Frames(v, n) == Frames(v, n);
      assert s.coremap[v].status == Dirty && s.coremap[v + n - 1].status == Dirty;
      FixOk(im, s2, v, n, Frames(v, n));
      SameContentsTrans(im, s, s1, s2);
      SameContentsTrans(im, s, s2, Fix(s2, v, n));
    }
  }

  /** The new block is disjoint from every live one, and the others stay as they were. */
  lemma KernelAllocLive(s: State, s': State, first: nat, n: nat, live: map<nat, nat>)
    requires LiveOk(s, live) && Allocated(s, s', first, n) && n >= 1
    ensures LiveOk(s', live[first := n]) && first !in live
    ensures forall b :: b in live ==> b + live[b] <= first || first + n <= b
  {
    assert forall b :: b in live ==> s.coremap[b].status == Fixed;
    assert forall b :: b in live && b <= first < b + live[b] ==> s.coremap[first].status == Fixed;
    forall b | b in live ensures s'.coremap[b].allocSize == live[b] {
      assert s.coremap[b].status == Fixed;
    }
  }

  /** free_kpages gives back exactly the block's frames; user pages and other blocks keep theirs. */
  lemma KernelFreeOk(im: Layout, s: State, first: nat, live: map<nat, nat>)
    requires LayoutOk(im) && Inv(im, s) && LiveOk(s, live) && first in live
    ensures var s' := KernelFree(s, first);
            && Inv(im, s') && SameContents(im, s, s') && LiveOk(s', live - {first})
            && (forall f :: 0 <= f < |s.coremap| ==>
                  s'.coremap[f] == if first <= f < first + live[first] then Entry(Free, s.coremap[f].vpn, 0) else s.coremap[f])
  {
    KernelFreeInv(im, s, first, live[first]);
    KernelFreeLive(s, first, live);
  }

  lemma KernelFreeInv(im: Layout, s: State, first: nat, n: nat)
    requires LayoutOk(im) && Inv(im, s) && 1 <= first < |s.coremap| && first + n <= s.firstFree && n == s.coremap[first].allocSize
    requires forall f :: first <= f < first + n ==> s.coremap[f].status == Fixed
    ensures Inv(im, KernelFree(s, first)) && SameContents(im, s, KernelFree(s, first))
  {
    hide SlotsOk, TlbOk;
    var s' := KernelFree(s, first);
    forall p | p in s.pt ensures p in im && (Resident(s', p, {}) || Swapped(s', p)) {
      assert Resident(s, p, {}) || Swapped(s, p);
    }
    assert TlbOk(im, s') && SlotsOk(s') by { FrameStatusIrrelevant(im, s, s'.coremap); }
    forall p | p in im ensures Content(im, s', p) == Content(im, s, p) {
      if p in s.pt {
        assert Resident(s, p, {}) || Swapped(s, p);
      }
    }
  }

  lemma FrameStatusIrrelevant(im: Layout, s: State, cm: seq<Entry>)
    ensures TlbOk(im, s) ==> TlbOk(im, s.(coremap := cm))
    ensures SlotsOk(s) ==> SlotsOk(s.(coremap := cm))
  {
  }

  lemma KernelFreeLive(s: State, first: nat, live: map<nat, nat>)
    requires LiveOk(s, live) && first in live && first < |s.coremap|
    ensures LiveOk(KernelFree(s, first), live - {first})
  {
  }

  /** The kernel writes into one of its own frames. */
  lemma KernelStoreOk(im: Layout, s: State, f: nat, page: Page)
    requires LayoutOk(im) && Inv(im, s) && f < |s.coremap| && s.coremap[f].status == Fixed && |page| == PAGE_SIZE
    ensures var s' := WriteFrame(s, f, page); Inv(im, s') && SameContents(im, s, s')
  {
    var s' := WriteFrame(s, f, page);
    forall p | p in s.pt ensures p in im && (Resident(s', p, {}) || Swapped(s', p)) {
      assert Resident(s, p, {}) || Swapped(s, p);
    }
    forall p | p in im ensures Content(im, s', p) == Content(im, s, p) {
      if p in s.pt {
        assert Resident(s, p, {}) || Swapped(s, p);
      }
    }
  }

  // ---------------------------------------------------------------- exactly when a run may be evicted

  /** The slots an eviction run takes, one per frame. */
  function RunSlots(s: State, first: nat, n: nat): (r: seq<nat>)
    requires Sizes(s) && first + n <= |s.coremap| && EvictRun(s, first, n).Some?
    ensures |r| == n
    decreases n
  {
    if n == 0 then [] else [FreeSlot(s.swapList, 0).value] + RunSlots(Evict(s, first).value, first + 1, n - 1)
  }

  lemma {:induction false} RunSlotsOk(s: State, first: nat, n: nat)
    requires Sizes(s) && first + n <= |s.coremap| && EvictRun(s, first, n).Some?
    ensures var s' := EvictRun(s, first, n).value; var ks := RunSlots(s, first, n);
            && (forall i :: 0 <= i < n ==> ks[i] < NUM_PAGES && s.swapList[ks[i]].free
                                           && s'.swapList[ks[i]] == SwapPage(false, s.coremap[first + i].vpn))
            && NoDup(ks)
            && (forall k :: 0 <= k < NUM_PAGES && !s.swapList[k].free ==> s'.swapList[k] == s.swapList[k])
    decreases n
  {
    if n > 0 {
      EvictIs(s, first);
      hide Evict;
      var s1 := Evict(s, first).value;
      RunSlotsOk(s1, first + 1, n - 1);
      var ks, ks1 := RunSlots(s, first, n), RunSlots(s1, first + 1, n - 1);
      assert forall i :: 0 < i < n ==> ks[i] == ks1[i - 1];
      assert forall i {:trigger ks[i]} :: 0 < i < n ==> s.coremap[first + i] == s1.coremap[first + 1 + (i - 1)];
    }
  }

  /**
   A kernel allocation that evicts keeps the paging invariant if and only if the run it evicts
   holds no free frame: a free frame would be swapped out under the stale page number it kept.
   */
  lemma EvictingExactly(im: Layout, s: State, n: nat)
    requires LayoutOk(im) && Inv(im, s) && n >= 1 && MustEvict(s, n) && KernelAlloc(s, n, true).1.Got?
    ensures Inv(im, KernelAlloc(s, n, true).0) <==>
            forall f :: VictimOf(s, n) <= f < VictimOf(s, n) + n ==> s.coremap[f].status != Free
  {
    hide Inv, EvictRun, SameContents, Allocated, FramesOk;
    var v := VictimOf(s, n);
    assert EligibleFrom(s.coremap, v, n);
    if forall f :: v <= f < v + n ==> s.coremap[f].status != Free {
      EvictAllocOk(im, s, n);
    } else {
      var f :| v <= f < v + n && s.coremap[f].status == Free;
      FreeVictimBreaks(im, s, n, f);
    }
  }

  lemma FreeVictimBreaks(im: Layout, s: State, n: nat, f: nat)
    requires LayoutOk(im) && Inv(im, s) && n >= 1 && MustEvict(s, n) && KernelAlloc(s, n, true).1.Got?
    requires VictimOf(s, n) <= f < VictimOf(s, n) + n && s.coremap[f].status == Free
    ensures !Inv(im, KernelAlloc(s, n, true).0)
  {
    hide EvictRun, TlbOk;
    var v := VictimOf(s, n);
    var s1 := s.(victim := v + n);
    var s' := KernelAlloc(s, n, true).0;
    var ks := RunSlots(s1, v, n);
    RunSlotsOk(s1, v, n);
    EligibleRunBounds(s, v, n);
    StaleSlotClash(im, s, s', v, n, f, ks);
  }

  /** The slot taken for the free frame carries the number of a page that lives elsewhere. */
  lemma StaleSlotClash(im: Layout, s: State, s': State, v: nat, n: nat, f: nat, ks: seq<nat>)
    requires LayoutOk(im) && Sizes(s) && FramesOk(s, {}) && PagesOk(im, s, {})
    requires Sizes(s') && v + n <= |s.coremap| == |s'.coremap| && v <= f < v + n && s.coremap[f].status == Free
    requires forall g :: 0 <= g < |s.coremap| && !(v <= g < v + n) ==> s'.coremap[g] == s.coremap[g]
    requires |ks| == n && NoDup(ks)
    requires forall i :: 0 <= i < n ==> ks[i] < NUM_PAGES && s.swapList[ks[i]].free
                                        && s'.swapList[ks[i]] == SwapPage(false, s.coremap[v + i].vpn)
    requires forall k :: 0 <= k < NUM_PAGES && !s.swapList[k].free ==> s'.swapList[k] == s.swapList[k]
    ensures !(FramesOk(s', {}) && PagesOk(im, s', {}) && SlotsOk(s'))
  {
    var p, k, g := s.coremap[f].vpn, ks[f - v], PtFrame(s.pt, s.coremap[f].vpn);
    assert s'.swapList[k] == SwapPage(false, s.coremap[v + (f - v)].vpn);
    assert p in s.pt ==> Resident(s, p, {}) || Swapped(s, p);
    assert v <= g < v + n ==> s'.swapList[ks[g - v]] == SwapPage(false, s.coremap[v + (g - v)].vpn);
  }

  lemma EligibleRunBounds(s: State, v: nat, n: nat)
    requires HasVictim(s, n) && v == VictimOf(s, n)
    ensures v + n < |s.coremap| && forall f :: v <= f < v + n ==> Eligible(s.coremap[f])
  {
  }
}
