/**
 When a user page gets a frame, and which one (getppage_user in kern/vm/coremap.c), in terms of the coremap and
 the swap slots alone.
 */
module PagingAlloc {
  import opened Coremap
  import opened Paging

  predicate AnyFree(s: State) { exists f :: 1 <= f < |s.coremap| && s.coremap[f].status == Free }

  predicate AnySlot(s: State) { exists k :: 0 <= k < |s.swapList| && s.swapList[k].free }

  /** A frame that the victim search looks at belongs to a user page. */
  predicate AnyVictim(s: State) { exists f :: 1 <= f < |s.coremap| - 1 && s.coremap[f].status == Dirty }

  /** No frame is free or was never used, and none can be evicted. */
  predicate NoFrame(s: State) {
    !AnyFree(s) && s.firstFree >= |s.coremap| && !(AnyVictim(s) && AnySlot(s))
  }

  predicate LowestFree(s: State, f: nat) {
    1 <= f < |s.coremap| && s.coremap[f].status == Free && forall g :: 1 <= g < f ==> s.coremap[g].status != Free
  }

  predicate LowestSlot(s: State, k: nat) {
    k < |s.swapList| && s.swapList[k].free && forall j :: 0 <= j < k ==> !s.swapList[j].free
  }

  /** The page of frame f is written to the lowest free slot, and neither page table nor TLB has the frame any more. */
  predicate MovedOut(s: State, s': State, f: nat)
    requires Sizes(s) && f < |s.coremap|
  {
    var q := s.coremap[f].vpn;
    && q in s'.pt && s'.pt[q].frame == 0 && s'.pt[q].slot >= 0 && LowestSlot(s, s'.pt[q].slot)
    && s'.pt == s.pt[q := Pte(0, s'.pt[q].slot)]
    && s'.swapList == s.swapList[s'.pt[q].slot := SwapPage(false, q)]
    && s'.swapFile == s.swapFile[s'.pt[q].slot := s.ram[f]]
    && s'.tlb == TlbRemove(s.tlb, q)
    && s'.stats == s.stats.(swapWrite := s.stats.swapWrite + 1)
  }

  /** Nothing but the coremap, the bump pointer and the cursor differs. */
  predicate NothingMoved(s: State, s': State) {
    s' == s.(coremap := s'.coremap, firstFree := s'.firstFree, victim := s'.victim)
  }

  /** Frame f, for page p: the lowest free one, else the first never used, else the victim, whose page moves out. */
  ghost predicate Took(s: State, s': State, f: nat, p: nat)
    requires Sizes(s)
  {
    && 1 <= f < |s.coremap| && s'.coremap == s.coremap[f := Entry(Dirty, p, 1)] && s'.ram == s.ram && s'.tlbVictim == s.tlbVictim
    && (AnyFree(s) ==> LowestFree(s, f) && s'.firstFree == s.firstFree && s'.victim == s.victim && NothingMoved(s, s'))
    && (!AnyFree(s) && s.firstFree < |s.coremap| ==>
          f == s.firstFree && s'.firstFree == f + 1 && s'.victim == s.victim && NothingMoved(s, s'))
    && (!AnyFree(s) && s.firstFree >= |s.coremap| ==>
          && s.coremap[f].status == Dirty && IsVictim(s.coremap, s.victim, 1, f) && s'.victim == f + 1 < |s.coremap|
          && s'.firstFree == s.firstFree && MovedOut(s, s', f))
  }

  lemma FreeRunIsFree(s: State)
    ensures HasFreeRun(s.coremap, 1) <==> AnyFree(s)
    ensures HasFreeRun(s.coremap, 1) ==> LowestFree(s, FirstFree(s.coremap, 1))
  {
    hide FreeRun, FirstFree, FirstFreeFrom;
    forall f: int {:trigger s.coremap[f]} {:trigger FreeRun(s.coremap, f, 1)} | true
      ensures FreeRun(s.coremap, f, 1) <==> 1 <= f < |s.coremap| && s.coremap[f].status == Free
    {
      SingleFree(s.coremap, f);
    }
  }

  lemma SingleFree(cm: seq<Entry>, f: int)
    ensures FreeRun(cm, f, 1) <==> 1 <= f < |cm| && cm[f].status == Free
  {
  }

  /** Without free frames, the search of one frame has something to find exactly when some frame but the last is dirty. */
  lemma VictimIsAny(s: State)
    requires Sizes(s) && !Eligible(s.coremap[0]) && !AnyFree(s)
    ensures HasVictim(s, 1) <==> AnyVictim(s)
    ensures forall f: nat :: HasVictim(s, 1) && IsVictim(s.coremap, s.victim, 1, f) ==>
                          1 <= f && f + 1 < |s.coremap| && s.coremap[f].status == Dirty
  {
    if AnyVictim(s) {
      var f :| 1 <= f < |s.coremap| - 1 && s.coremap[f].status == Dirty;
      assert VictimRun(s.coremap, f, 1);
    }
    if HasVictim(s, 1) {
      var f := VictimOf(s, 1);
      assert VictimRun(s.coremap, f, 1) && Eligible(s.coremap[f]);
    }
  }

  lemma EvictMovesOut(s: State, f: nat)
    requires Sizes(s) && f < |s.coremap|
    ensures Evict(s, f).Some? <==> AnySlot(s)
    ensures Evict(s, f).Some? ==> MovedOut(s, Evict(s, f).value, f)
  {
  }

  /** Every allocation, from any state in which frame 0 is not for users: there is no frame exactly if NoFrame, else it is the right one. */
  lemma AllocUserExactly(s: State, p: nat)
    requires Sizes(s) && 1 <= s.firstFree && !Eligible(s.coremap[0])
    ensures AllocUser(s, p).None? <==> NoFrame(s)
    ensures AllocUser(s, p).Some? ==> Took(s, AllocUser(s, p).value.0, AllocUser(s, p).value.1, p)
  {
    FreeRunIsFree(s);
    if !AnyFree(s) && s.firstFree >= |s.coremap| {
      VictimIsAny(s);
      if HasVictim(s, 1) {
        var f := VictimOf(s, 1);
        EvictMovesOut(s.(victim := f + 1), f);
      }
    }
  }
}
