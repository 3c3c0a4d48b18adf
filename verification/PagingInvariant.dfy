/**
 The invariant of demand paging: frames, pages and swap slots are in bijection, every valid
 TLB entry agrees with the page table, and the five structures together hold one page of
 content for every user page. Each step of module Paging keeps the invariant and the content.
 */
module PagingInvariant {
  import opened Prelude
  import opened Coremap
  import opened Paging
  import opened PagingAlloc

  // ---------------------------------------------------------------- the user pages

  /** What the address space promises about each of its pages. */
  datatype PageSpec = PageSpec(image: Page, writable: bool)

  type Layout = map<nat, PageSpec>

  ghost function LayoutOf(as_: AddrSpace): Layout {
    map p: nat | p < KERNEL_VPN && UserPage(as_, p) :: PageSpec(Image(as_, p), Writable(SegmentOf(as_, p)))
  }

  /** User pages lie in kuseg and page 0 is not one of them. */
  ghost predicate LayoutOk(im: Layout) { forall p :: p in im ==> 0 < p < KERNEL_VPN && |im[p].image| == PAGE_SIZE }

  lemma LayoutOfOk(as_: AddrSpace)
    requires AddrSpaceOk(as_)
    ensures LayoutOk(LayoutOf(as_))
    ensures forall p :: UserPage(as_, p) <==> p in LayoutOf(as_)
  {
  }

  // ---------------------------------------------------------------- the invariant

  ghost predicate Shape(s: State) {
    && Sizes(s) && 1 <= s.firstFree <= |s.coremap|
    && s.coremap[0].status == Clean
    && (forall f :: s.firstFree <= f < |s.coremap| ==> s.coremap[f].status == Clean)
    && (forall f :: 0 <= f < |s.ram| ==> |s.ram[f]| == PAGE_SIZE)
    && (forall k :: 0 <= k < NUM_PAGES ==> |s.swapFile[k]| == PAGE_SIZE)
  }

  predicate Resident(s: State, p: nat, X: set<nat>) {
    p in s.pt && var e := s.pt[p];
    && e.slot == -1 && 0 < e.frame < |s.coremap| && e.frame !in X
    && s.coremap[e.frame].status == Dirty && s.coremap[e.frame].vpn == p
  }

  predicate Swapped(s: State, p: nat) {
    p in s.pt && var e := s.pt[p];
    e.frame == 0 && 0 <= e.slot < |s.swapList| && s.swapList[e.slot] == SwapPage(false, p)
  }

  /** Frames in X are being handed over: no page maps to them yet. */
  ghost predicate FramesOk(s: State, X: set<nat>) {
    && (forall f :: 0 <= f < |s.coremap| && f !in X && s.coremap[f].status == Dirty ==>
          f > 0 && s.coremap[f].vpn in s.pt && s.pt[s.coremap[f].vpn] == Pte(f, -1))
    && (forall f :: 0 <= f < |s.coremap| && s.coremap[f].status == Free ==> s.coremap[f].allocSize == 0)
    && (forall f :: 0 <= f < |s.coremap| && f !in X ==> s.coremap[f].vpn == 0 || s.coremap[f].vpn in s.pt)
  }

  ghost predicate PagesOk(im: Layout, s: State, X: set<nat>) {
    forall p :: p in s.pt ==> p in im && (Resident(s, p, X) || Swapped(s, p))
  }

  ghost predicate SlotsOk(s: State) {
    forall k :: 0 <= k < |s.swapList| && !s.swapList[k].free ==>
      s.swapList[k].vpn in s.pt && s.pt[s.swapList[k].vpn] == Pte(0, k)
  }

  ghost predicate TlbOk(im: Layout, s: State) {
    && (forall i :: 0 <= i < |s.tlb| && !s.tlb[i].valid ==> s.tlb[i].vpn == KERNEL_VPN + i)
    && (forall i :: 0 <= i < |s.tlb| && s.tlb[i].valid ==>
          var e := s.tlb[i];
          && e.vpn in s.pt && e.frame > 0 && s.pt[e.vpn].frame == e.frame
          && e.vpn in im && e.writable == im[e.vpn].writable)
    && (forall i, j :: 0 <= i < j < |s.tlb| ==> s.tlb[i].vpn != s.tlb[j].vpn)
  }

  ghost predicate InvX(im: Layout, s: State, X: set<nat>) {
    Shape(s) && FramesOk(s, X) && PagesOk(im, s, X) && SlotsOk(s) && TlbOk(im, s)
  }

  ghost predicate Inv(im: Layout, s: State) { InvX(im, s, {}) }

  /** The content of a user page, wherever it currently is. */
  function Content(im: Layout, s: State, p: nat): Page
    requires p in im && |s.coremap| == |s.ram| && |s.swapList| == |s.swapFile|
  {
    if Resident(s, p, {}) then s.ram[s.pt[p].frame]
    else if Swapped(s, p) then s.swapFile[s.pt[p].slot]
    else im[p].image
  }

  ghost predicate SameContents(im: Layout, s: State, s': State)
    requires Sizes(s) && Sizes(s')
  {
    forall p :: p in im ==> Content(im, s', p) == Content(im, s, p)
  }

  // ---------------------------------------------------------------- consequences: the bijections

  /** Each virtual page is untouched, resident or swapped, exactly one of the three. */
  lemma PageTrichotomy(im: Layout, s: State, p: nat)
    requires Inv(im, s)
    ensures p in s.pt <==> Resident(s, p, {}) || Swapped(s, p)
    ensures !(Resident(s, p, {}) && Swapped(s, p))
  {
  }

  /** Resident pages <-> dirty frames, and swapped pages <-> busy slots, one to one both ways. */
  ghost predicate OneToOne(s: State)
    requires Sizes(s)
  {
    && (forall f :: 0 <= f < |s.coremap| && s.coremap[f].status == Dirty ==>
          Resident(s, s.coremap[f].vpn, {}) && s.pt[s.coremap[f].vpn].frame == f)
    && (forall p :: Resident(s, p, {}) ==> s.coremap[s.pt[p].frame].status == Dirty && s.coremap[s.pt[p].frame].vpn == p)
    && (forall p, q :: Resident(s, p, {}) && Resident(s, q, {}) && p != q ==> s.pt[p].frame != s.pt[q].frame)
    && (forall k :: 0 <= k < NUM_PAGES && !s.swapList[k].free ==>
          Swapped(s, s.swapList[k].vpn) && s.pt[s.swapList[k].vpn].slot == k)
    && (forall p, q :: Swapped(s, p) && Swapped(s, q) && p != q ==> s.pt[p].slot != s.pt[q].slot)
  }

  lemma Bijection(im: Layout, s: State)
    requires Inv(im, s)
    ensures OneToOne(s)
  {
  }

  // ---------------------------------------------------------------- TLB

  lemma TlbRemoveOk(im: Layout, s: State, q: nat)
    requires LayoutOk(im) && Sizes(s) && TlbOk(im, s) && q < KERNEL_VPN
    ensures TlbOk(im, s.(tlb := TlbRemove(s.tlb, q)))
    ensures |TlbRemove(s.tlb, q)| == |s.tlb|
    ensures forall i :: 0 <= i < |s.tlb| ==> TlbRemove(s.tlb, q)[i].vpn != q
    ensures forall i :: 0 <= i < |s.tlb| && s.tlb[i].vpn != q ==> TlbRemove(s.tlb, q)[i] == s.tlb[i]
    ensures forall i :: 0 <= i < |s.tlb| && TlbRemove(s.tlb, q)[i].valid ==> TlbRemove(s.tlb, q)[i] == s.tlb[i]
  {
    match TlbProbe(s.tlb, q, 0)
    case None =>
    case Some(i) =>
      assert forall j :: 0 <= j < |s.tlb| && j != i ==> s.tlb[j].vpn != q;
      assert forall j :: 0 <= j < |s.tlb| && j != i ==> s.tlb[j].vpn != KERNEL_VPN + i;
  }

  // ---------------------------------------------------------------- eviction

  /** What Evict does when q is the page of frame f and k the slot it takes. */
  predicate Evicted(s: State, s': State, f: nat, q: nat, k: nat) {
    && Sizes(s) && Sizes(s')
    && f < |s.coremap| && s.coremap[f].vpn == q
    && k < NUM_PAGES && s.swapList[k].free
    && s'.coremap == s.coremap && s'.ram == s.ram && s'.firstFree == s.firstFree
    && s'.pt == s.pt[q := Pte(0, k)]
    && s'.swapList == s.swapList[k := SwapPage(false, q)]
    && s'.swapFile == s.swapFile[k := s.ram[f]]
  }

  lemma EvictIs(s: State, f: nat)
    requires Sizes(s) && f < |s.coremap| && Evict(s, f).Some?
    ensures Evicted(s, Evict(s, f).value, f, s.coremap[f].vpn, FreeSlot(s.swapList, 0).value)
    ensures Evict(s, f).value.tlb == TlbRemove(s.tlb, s.coremap[f].vpn)
  {
  }

  lemma EvictedMaps(im: Layout, s: State, s': State, f: nat, q: nat, k: nat, X: set<nat>)
    requires Evicted(s, s', f, q, k) && f !in X && q in s.pt && s.pt[q] == Pte(f, -1) && f > 0
    requires FramesOk(s, X) && PagesOk(im, s, X) && SlotsOk(s)
    ensures FramesOk(s', X + {f}) && PagesOk(im, s', X + {f}) && SlotsOk(s') && Swapped(s', q)
  {
    forall p | p in s'.pt && p != q ensures p in im && (Resident(s', p, X + {f}) || Swapped(s', p)) {
      assert Resident(s, p, X) || Swapped(s, p);
    }
  }

  lemma EvictedContents(im: Layout, s: State, s': State, f: nat, q: nat, k: nat, X: set<nat>)
    requires Evicted(s, s', f, q, k) && f !in X && f > 0 && s.coremap[f].status == Dirty
    requires q in s.pt && s.pt[q] == Pte(f, -1) && PagesOk(im, s, X)
    ensures SameContents(im, s, s')
  {
    forall p | p in im ensures Content(im, s', p) == Content(im, s, p) {
      if p in s.pt && p != q {
        assert Resident(s, p, X) || Swapped(s, p);
      }
    }
  }

  /** Evicting a dirty frame moves its page to a free slot; the frame then belongs to nobody. */
  lemma EvictOk(im: Layout, s: State, f: nat, X: set<nat>)
    requires LayoutOk(im) && InvX(im, s, X) && f < |s.coremap| && f !in X && s.coremap[f].status == Dirty
    requires Evict(s, f).Some?
    ensures var s' := Evict(s, f).value;
            && InvX(im, s', X + {f}) && SameContents(im, s, s')
            && s'.pt.Keys == s.pt.Keys && Swapped(s', s.coremap[f].vpn)
            && (forall p :: p in s.pt && p != s.coremap[f].vpn ==> s'.pt[p] == s.pt[p])
  {
    var s', q, k := Evict(s, f).value, s.coremap[f].vpn, FreeSlot(s.swapList, 0).value;
    EvictIs(s, f);
    assert q in s.pt && s.pt[q] == Pte(f, -1);
    EvictedMaps(im, s, s', f, q, k, X);
    EvictedContents(im, s, s', f, q, k, X);
    TlbRemoveOk(im, s, q);
    assert TlbOk(im, s');
  }

  // ---------------------------------------------------------------- allocating a frame for a user page

  /** Frame f is taken out of the free or never-used frames: nothing else changes. */
  lemma TakeFrameOk(im: Layout, s: State, f: nat, p: nat)
    requires InvX(im, s, {}) && 0 < f < |s.coremap|
    requires s.coremap[f].status == Free || f == s.firstFree
    ensures var s' := Assign(s.(firstFree := if f == s.firstFree then f + 1 else s.firstFree), f, p);
            InvX(im, s', {f}) && SameContents(im, s, s')
  {
    var s' := Assign(s.(firstFree := if f == s.firstFree then f + 1 else s.firstFree), f, p);
    forall q | q in s.pt ensures q in im && (Resident(s', q, {f}) || Swapped(s', q)) {
      assert Resident(s, q, {}) || Swapped(s, q);
    }
    forall q | q in im ensures Content(im, s', q) == Content(im, s, q) {
      if q in s.pt {
        assert Resident(s, q, {}) || Swapped(s, q);
      }
    }
  }

  lemma AssignOk(im: Layout, s: State, f: nat, p: nat)
    requires InvX(im, s, {f}) && 0 < f < s.firstFree
    ensures InvX(im, Assign(s, f, p), {f}) && SameContents(im, s, Assign(s, f, p))
  {
    var s' := Assign(s, f, p);
    forall q | q in s.pt ensures q in im && (Resident(s', q, {f}) || Swapped(s', q)) {
      assert Resident(s, q, {f}) || Swapped(s, q);
    }
    forall q | q in im ensures Content(im, s', q) == Content(im, s, q) {
      if q in s.pt {
        assert Resident(s, q, {f}) || Swapped(s, q);
      }
    }
  }

  /** s' is s after frame f was given to page p: f is exempt, and every other page is where it was or swapped out. */
  ghost predicate Granted(im: Layout, s: State, s': State, f: nat, p: nat)
    requires Sizes(s)
  {
    && InvX(im, s', {f}) && SameContents(im, s, s')
    && 0 < f < |s'.coremap| && s'.coremap[f] == Entry(Dirty, p, 1)
    && s'.pt.Keys == s.pt.Keys && (p in s.pt ==> s'.pt[p] == s.pt[p])
    && s'.stats == s.stats.(swapWrite := s'.stats.swapWrite) && s'.tlbVictim == s.tlbVictim
    && (forall i :: 0 <= i < NUM_TLB && s'.tlb[i].vpn != s.tlb[i].vpn ==> !s'.tlb[i].valid)
  }

  /** A user allocation fails only if no frame can be had, and it leaves every other page where it is or moves one out. */
  lemma AllocUserOk(im: Layout, s: State, p: nat)
    requires LayoutOk(im) && Inv(im, s) && p < KERNEL_VPN && !Resident(s, p, {})
    ensures AllocUser(s, p).None? <==> NoFrame(s)
    ensures !NoFrame(s) ==> Granted(im, s, AllocUser(s, p).value.0, AllocUser(s, p).value.1, p)
  {
    AllocatesExactly(im, s, p);
    if AllocUser(s, p).Some? {
      AllocGrants(im, s, p);
    }
    hide Granted, Inv, AllocUser, NoFrame;
  }

  lemma AllocatesExactly(im: Layout, s: State, p: nat)
    requires Inv(im, s)
    ensures AllocUser(s, p).None? <==> NoFrame(s)
  {
    AllocUserExactly(s, p);
  }

  lemma AllocGrants(im: Layout, s: State, p: nat)
    requires LayoutOk(im) && Inv(im, s) && p < KERNEL_VPN && !Resident(s, p, {}) && AllocUser(s, p).Some?
    ensures Granted(im, s, AllocUser(s, p).value.0, AllocUser(s, p).value.1, p)
  {
    hide Granted, Inv, AllocUser, HasFreeRun;
    FromFree(im, s, p);
    FromUnused(im, s, p);
    FromVictim(im, s, p);
  }

  lemma FromFree(im: Layout, s: State, p: nat)
    requires LayoutOk(im) && Inv(im, s) && AllocUser(s, p).Some?
    ensures HasFreeRun(s.coremap, 1) ==> Granted(im, s, AllocUser(s, p).value.0, AllocUser(s, p).value.1, p)
  {
    hide Granted;
    if HasFreeRun(s.coremap, 1) {
      FreeForUserOk(im, s, FirstFree(s.coremap, 1), p);
    }
  }

  lemma FromUnused(im: Layout, s: State, p: nat)
    requires LayoutOk(im) && Inv(im, s) && AllocUser(s, p).Some?
    ensures !HasFreeRun(s.coremap, 1) && s.firstFree < |s.coremap| ==>
              Granted(im, s, AllocUser(s, p).value.0, AllocUser(s, p).value.1, p)
  {
    hide Granted;
    if s.firstFree < |s.coremap| {
      UnusedForUserOk(im, s, p);
    }
  }

  lemma FromVictim(im: Layout, s: State, p: nat)
    requires LayoutOk(im) && Inv(im, s) && AllocUser(s, p).Some? && !Resident(s, p, {})
    ensures !HasFreeRun(s.coremap, 1) && s.firstFree >= |s.coremap| ==>
              Granted(im, s, AllocUser(s, p).value.0, AllocUser(s, p).value.1, p)
  {
    hide Granted;
    if !HasFreeRun(s.coremap, 1) && s.firstFree >= |s.coremap| {
      VictimForUserOk(im, s, p);
    }
  }

  lemma VictimForUserOk(im: Layout, s: State, p: nat)
    requires LayoutOk(im) && Inv(im, s) && !Resident(s, p, {}) && !HasFreeRun(s.coremap, 1) && HasVictim(s, 1)
    requires Evict(s.(victim := VictimOf(s, 1) + 1), VictimOf(s, 1)).Some?
    ensures var f := VictimOf(s, 1); Granted(im, s, Assign(Evict(s.(victim := f + 1), f).value, f, p), f, p)
  {
    VictimIsDirty(s, VictimOf(s, 1));
    hide Granted;
    EvictForUserOk(im, s, VictimOf(s, 1), p);
  }

  lemma FreeForUserOk(im: Layout, s: State, f: nat, p: nat)
    requires LayoutOk(im) && Inv(im, s) && FreeRun(s.coremap, f, 1)
    ensures Granted(im, s, Assign(s, f, p), f, p)
  {
    TakeFrameOk(im, s, f, p);
    assert f < s.firstFree && s.(firstFree := s.firstFree) == s;
  }

  lemma UnusedForUserOk(im: Layout, s: State, p: nat)
    requires LayoutOk(im) && Inv(im, s) && s.firstFree < |s.coremap|
    ensures Granted(im, s, Assign(s.(firstFree := s.firstFree + 1), s.firstFree, p), s.firstFree, p)
  {
    TakeFrameOk(im, s, s.firstFree, p);
  }

  lemma EvictForUserOk(im: Layout, s: State, f: nat, p: nat)
    requires LayoutOk(im) && Inv(im, s) && !Resident(s, p, {})
    requires 0 < f && f + 1 < |s.coremap| && s.coremap[f].status == Dirty
    requires Evict(s.(victim := f + 1), f).Some?
    ensures Granted(im, s, Assign(Evict(s.(victim := f + 1), f).value, f, p), f, p)
  {
    var s1 := s.(victim := f + 1);
    CursorIrrelevant(im, s, f + 1);
    DirtyFrame(im, s, f);
    TlbRemoveOk(im, s1, s.coremap[f].vpn);
    EvictIs(s1, f);
    EvictStats(s1, f);
    EvictOk(im, s1, f, {});
    assert {} + {f} == {f};
    hide FramesOk, PagesOk, SlotsOk, TlbOk, SameContents, Granted, Evict;
    AssignGrants(im, s, s1, Evict(s1, f).value, f, p);
  }

  lemma AssignGrants(im: Layout, s: State, s1: State, s2: State, f: nat, p: nat)
    requires Sizes(s) && Sizes(s1) && SameContents(im, s, s1) && InvX(im, s2, {f}) && SameContents(im, s1, s2)
    requires 0 < f < s2.firstFree && (p in s.pt ==> p in s2.pt && s2.pt[p] == s.pt[p]) && s2.pt.Keys == s.pt.Keys
    requires s2.stats == s.stats.(swapWrite := s2.stats.swapWrite) && s2.tlbVictim == s.tlbVictim && |s.tlb| == NUM_TLB
    requires forall i :: 0 <= i < NUM_TLB && s2.tlb[i].vpn != s.tlb[i].vpn ==> !s2.tlb[i].valid
    ensures Granted(im, s, Assign(s2, f, p), f, p)
  {
    AssignOk(im, s2, f, p);
    hide FramesOk, PagesOk, SlotsOk, TlbOk, Content;
  }

  lemma EvictStats(s: State, f: nat)
    requires Sizes(s) && f < |s.coremap| && Evict(s, f).Some?
    ensures var s' := Evict(s, f).value;
            s'.stats == s.stats.(swapWrite := s'.stats.swapWrite) && s'.tlbVictim == s.tlbVictim
  {
  }

  lemma DirtyFrame(im: Layout, s: State, f: nat)
    requires LayoutOk(im) && Inv(im, s) && f < |s.coremap| && s.coremap[f].status == Dirty
    ensures Resident(s, s.coremap[f].vpn, {}) && s.coremap[f].vpn < KERNEL_VPN && f < s.firstFree
  {
  }

  lemma CursorIrrelevant(im: Layout, s: State, c: nat)
    requires Inv(im, s) && c < |s.coremap|
    ensures Inv(im, s.(victim := c)) && SameContents(im, s, s.(victim := c))
  {
    var s' := s.(victim := c);
    forall q | q in s'.pt ensures q in im && (Resident(s', q, {}) || Swapped(s', q)) {
      assert Resident(s, q, {}) || Swapped(s, q);
    }
  }

  lemma VictimIsDirty(s: State, f: nat)
    requires Shape(s) && !HasFreeRun(s.coremap, 1) && HasVictim(s, 1) && f == VictimOf(s, 1)
    ensures 0 < f && f + 1 < |s.coremap| && s.coremap[f].status == Dirty
  {
    assert Eligible(s.coremap[f]);
    assert !FreeRun(s.coremap, f, 1);
  }

  // ---------------------------------------------------------------- giving the frame to the page

  /** A page faulted in for the first time: the frame is filled with the page's initial image. */
  lemma MapNewOk(im: Layout, s: State, p: nat, f: nat)
    requires LayoutOk(im) && InvX(im, s, {f}) && p in im && p !in s.pt
    requires 0 < f < |s.coremap| && s.coremap[f] == Entry(Dirty, p, 1)
    ensures var s' := s.(pt := PtSetFrame(s.pt, p, f), ram := s.ram[f := im[p].image]);
            Inv(im, s') && SameContents(im, s, s') && Resident(s', p, {})
  {
    var s' := s.(pt := PtSetFrame(s.pt, p, f), ram := s.ram[f := im[p].image]);
    assert s'.pt == s.pt[p := Pte(f, -1)];
    forall q | q in s'.pt ensures q in im && (Resident(s', q, {}) || Swapped(s', q)) {
      if q != p {
        assert Resident(s, q, {f}) || Swapped(s, q);
      }
    }
    forall q | q in im ensures Content(im, s', q) == Content(im, s, q) {
      if q in s.pt {
        assert Resident(s, q, {f}) || Swapped(s, q);
      }
    }
  }

  /** A swapped page read back: its slot is free again and the frame holds the slot's bytes. */
  lemma MapSwappedOk(im: Layout, s: State, p: nat, f: nat)
    requires LayoutOk(im) && InvX(im, s, {f}) && Swapped(s, p)
    requires 0 < f < |s.coremap| && s.coremap[f] == Entry(Dirty, p, 1)
    ensures var s3 := SwapIn(s, f, s.pt[p].slot);
            var s' := s3.(pt := PtSetFrame(PtSetSlot(s3.pt, p, -1), p, f));
            Inv(im, s') && SameContents(im, s, s') && Resident(s', p, {})
  {
    var s3 := SwapIn(s, f, s.pt[p].slot);
    var s' := s3.(pt := PtSetFrame(PtSetSlot(s3.pt, p, -1), p, f));
    SwapInMaps(im, s, s', p, f);
    forall q | q in im ensures Content(im, s', q) == Content(im, s, q) {
      if q in s.pt {
        assert Resident(s, q, {f}) || Swapped(s, q);
      }
    }
  }

  lemma SwapInMaps(im: Layout, s: State, s': State, p: nat, f: nat)
    requires InvX(im, s, {f}) && Swapped(s, p)
    requires 0 < f < |s.coremap| && s.coremap[f] == Entry(Dirty, p, 1)
    requires var s3 := SwapIn(s, f, s.pt[p].slot);
             s' == s3.(pt := PtSetFrame(PtSetSlot(s3.pt, p, -1), p, f))
    ensures Inv(im, s') && Resident(s', p, {})
  {
    assert s'.pt == s.pt[p := Pte(f, -1)];
    forall q | q in s'.pt ensures q in im && (Resident(s', q, {}) || Swapped(s', q)) {
      if q != p {
        assert Resident(s, q, {f}) || Swapped(s, q);
      }
    }
  }

  // ---------------------------------------------------------------- loading the TLB

  predicate TlbMaps(s: State, p: nat) { exists i :: 0 <= i < |s.tlb| && s.tlb[i].valid && s.tlb[i].vpn == p }

  lemma FillTlbOk(im: Layout, s: State, p: nat, f: nat, w: bool)
    requires LayoutOk(im) && Inv(im, s) && Resident(s, p, {}) && s.pt[p].frame == f && w == im[p].writable
    requires forall i :: 0 <= i < |s.tlb| ==> s.tlb[i].vpn != p
    ensures var s' := FillTlb(s, p, f, w); Inv(im, s') && SameContents(im, s, s') && TlbMaps(s', p)
  {
    var s' := FillTlb(s, p, f, w);
    assert s'.tlb[s.tlbVictim].vpn == p;
    assert forall i :: 0 <= i < |s.tlb| && i != s.tlbVictim ==> s'.tlb[i] == s.tlb[i];
    forall q | q in s'.pt ensures q in im && (Resident(s', q, {}) || Swapped(s', q)) {
      assert Resident(s, q, {}) || Swapped(s, q);
    }
  }
}
