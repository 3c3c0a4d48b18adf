/**
 Which segment as_get_segment (kern/vm/addrspace.c) gives an address: exactly when it is the segment the
 address lies in, and exactly when all addresses of a page get the same one.
 */
module SegmentLookup {
  import opened Prelude
  import opened Segments
  import opened Paging

  /** The address is one of the segment's bytes. */
  predicate Has(seg: Segment, va: nat) { seg.vaddr <= va < seg.vaddr + seg.memsz }

  function Top(seg: Segment): nat { seg.vaddr + seg.memsz }

  ghost predicate Disjoint(a: Segment, b: Segment) { forall va :: !(Has(a, va) && Has(b, va)) }

  /** The three segments share no byte, and the stack is the one seg_define_stack defines. */
  ghost predicate Separate(as_: AddrSpace) {
    && as_.stack == STACK_SEGMENT && Fits(as_.code) && Fits(as_.data)
    && Disjoint(as_.code, as_.data) && Disjoint(as_.code, as_.stack) && Disjoint(as_.data, as_.stack)
  }

  /** Every byte of every segment is found to be in that segment. */
  predicate LooksUp(as_: AddrSpace, va: nat) {
    && (Has(as_.code, va) ==> GetSegment(as_, va) == Some(as_.code))
    && (Has(as_.data, va) ==> GetSegment(as_, va) == Some(as_.data))
    && (Has(as_.stack, va) ==> GetSegment(as_, va) == Some(as_.stack))
  }

  /** No segment starts at, or contains, the top of one that is tested before it. */
  predicate TopsClear(as_: AddrSpace) {
    !Has(as_.data, Top(as_.code)) && !Has(as_.stack, Top(as_.code)) && !Has(as_.stack, Top(as_.data))
  }

  /** The lookup is right for every byte if and only if no top, included by mistake, belongs to a later segment. */
  lemma LookupExactly(as_: AddrSpace)
    requires Separate(as_)
    ensures (forall va :: LooksUp(as_, va)) <==> TopsClear(as_)
  {
    if forall va :: LooksUp(as_, va) {
      assert LooksUp(as_, Top(as_.code)) && LooksUp(as_, Top(as_.data));
      TopDiffers(as_);
    } else {
      var va :| !LooksUp(as_, va);
      assert !(Has(as_.code, va) && Has(as_.data, va)) && !(Has(as_.code, va) && Has(as_.stack, va));
      assert !(Has(as_.data, va) && Has(as_.stack, va));
    }
  }

  /** Equal segments that share no byte are empty, so a segment that has a byte is not found under another's name. */
  lemma TopDiffers(as_: AddrSpace)
    requires Separate(as_)
    ensures Has(as_.data, Top(as_.code)) ==> as_.data != as_.code
    ensures Has(as_.stack, Top(as_.code)) ==> as_.stack != as_.code
    ensures Has(as_.stack, Top(as_.data)) ==> as_.stack != as_.data
  {
    assert Has(as_.data, as_.data.vaddr) ==> !Has(as_.code, as_.data.vaddr);
    assert Has(as_.stack, as_.stack.vaddr) && !Has(as_.code, as_.stack.vaddr) && !Has(as_.data, as_.stack.vaddr);
  }

  // ---------------------------------------------------------------- whole pages

  predicate IsSegment(as_: AddrSpace, seg: Segment) { seg == as_.code || seg == as_.data || seg == as_.stack }

  /** Whatever address of the page of va is looked up, the answer, if any, is the segment va lies in. */
  predicate PageAgrees(as_: AddrSpace, seg: Segment, va: nat, vb: nat) {
    Has(seg, va) && va / PAGE_SIZE == vb / PAGE_SIZE ==>
      GetSegment(as_, va) == Some(seg) && (GetSegment(as_, vb).Some? ==> GetSegment(as_, vb) == Some(seg))
  }

  ghost predicate PagesAgree(as_: AddrSpace) {
    forall seg, va, vb :: IsSegment(as_, seg) ==> PageAgrees(as_, seg, va, vb)
  }

  /** Segments as the loader defines them; an empty one starts on a page boundary. */
  predicate Distinct(as_: AddrSpace) {
    && as_.stack == STACK_SEGMENT && Fits(as_.code) && Fits(as_.data) && Compact(as_.code) && Compact(as_.data)
    && as_.code != as_.data && as_.code != as_.stack && as_.data != as_.stack
  }

  /**
   A page is loaded from one segment, whichever of its bytes faults, if and only if the pages of the segments
   are apart. Sharing no byte is not enough: see SharedPageExample.
   */
  lemma OneSegmentPerPage(as_: AddrSpace)
    requires Distinct(as_)
    ensures PagesAgree(as_) <==> PagesApart(as_)
  {
    if PagesApart(as_) {
      forall seg, va: nat, vb: nat | IsSegment(as_, seg) && Has(seg, va) && va / PAGE_SIZE == vb / PAGE_SIZE
        ensures PageAgrees(as_, seg, va, vb)
      {
        ApartAnswer(as_, seg, va, va);
        ApartAnswer(as_, seg, va, vb);
      }
    } else {
      NotApart(as_);
    }
  }

  lemma HasPage(seg: Segment, va: nat)
    requires Has(seg, va)
    ensures InSegment(seg, va / PAGE_SIZE) && Reaches(seg, va / PAGE_SIZE)
  {
  }

  lemma ClosedPage(seg: Segment, va: nat)
    requires seg.vaddr <= va <= Top(seg)
    ensures Reaches(seg, va / PAGE_SIZE) && (va < Top(seg) ==> InSegment(seg, va / PAGE_SIZE))
  {
  }

  lemma ApartAnswer(as_: AddrSpace, seg: Segment, va: nat, vb: nat)
    requires Distinct(as_) && PagesApart(as_) && IsSegment(as_, seg) && Has(seg, va) && va / PAGE_SIZE == vb / PAGE_SIZE
    ensures GetSegment(as_, vb).Some? ==> GetSegment(as_, vb) == Some(seg)
    ensures GetSegment(as_, va).Some?
  {
    HasPage(seg, va);
    if GetSegment(as_, vb) == Some(as_.code) {
      ClosedPage(as_.code, vb);
    } else if GetSegment(as_, vb) == Some(as_.data) {
      ClosedPage(as_.data, vb);
    } else if GetSegment(as_, vb) == Some(as_.stack) {
      assert vb / PAGE_SIZE < KERNEL_VPN;
      assert InSegment(as_.stack, vb / PAGE_SIZE);
    }
  }

  /** An address of page p in the closed range of the segment. */
  function ClosedIn(seg: Segment, p: nat): (va: nat)
    requires Reaches(seg, p)
    ensures seg.vaddr <= va <= Top(seg) && va / PAGE_SIZE == p
  {
    if seg.vaddr <= p * PAGE_SIZE then p * PAGE_SIZE else seg.vaddr
  }

  /** A byte of a compact segment in page p. */
  function ByteIn(seg: Segment, p: nat): (va: nat)
    requires InSegment(seg, p) && Compact(seg)
    ensures Has(seg, va) && va / PAGE_SIZE == p
  {
    if seg.vaddr <= p * PAGE_SIZE then p * PAGE_SIZE else seg.vaddr
  }

  lemma NotApart(as_: AddrSpace)
    requires Distinct(as_) && !PagesApart(as_)
    ensures !PagesAgree(as_)
  {
    hide PagesAgree, Distinct, Reaches, InSegment, TopInCode;
    if p :| Reaches(as_.code, p) && InSegment(as_.data, p) {
      CodeReaches(as_, as_.data, p);
    } else if p :| Reaches(as_.code, p) && InSegment(as_.stack, p) {
      CodeReaches(as_, as_.stack, p);
    } else if p :| Reaches(as_.data, p) && InSegment(as_.stack, p) {
      DataReachesStack(as_, p);
    } else {
      var p :| Reaches(as_.data, p) && InSegment(as_.code, p) && !TopInCode(as_);
      DataReachesCode(as_, p);
    }
  }

  lemma CodeReaches(as_: AddrSpace, seg: Segment, p: nat)
    requires Distinct(as_) && Reaches(as_.code, p) && InSegment(seg, p) && (seg == as_.data || seg == as_.stack)
    ensures !PagesAgree(as_)
  {
    assert !PageAgrees(as_, seg, ByteIn(seg, p), ClosedIn(as_.code, p));
  }

  lemma DataReachesStack(as_: AddrSpace, p: nat)
    requires Distinct(as_) && Reaches(as_.data, p) && InSegment(as_.stack, p)
    requires forall q :: Reaches(as_.code, q) ==> !InSegment(as_.data, q)
    requires forall q :: Reaches(as_.code, q) ==> !InSegment(as_.stack, q)
    ensures !PagesAgree(as_)
  {
    assert !PageAgrees(as_, as_.stack, ByteIn(as_.stack, p), ClosedIn(as_.data, p));
  }

  lemma DataReachesCode(as_: AddrSpace, p: nat)
    requires Distinct(as_) && Reaches(as_.data, p) && InSegment(as_.code, p) && !TopInCode(as_)
    requires forall q :: Reaches(as_.code, q) ==> !InSegment(as_.data, q)
    ensures !PagesAgree(as_)
  {
    TopElsewhere(as_, p);
    assert !PageAgrees(as_, as_.code, ByteIn(as_.code, p), Top(as_.data));
  }

  /** The data segment reaches a page of the code only with its top, which the code segment does not claim. */
  lemma TopElsewhere(as_: AddrSpace, p: nat)
    requires Distinct(as_) && Reaches(as_.data, p) && InSegment(as_.code, p) && !TopInCode(as_)
    requires forall q :: Reaches(as_.code, q) ==> !InSegment(as_.data, q)
    ensures Top(as_.data) / PAGE_SIZE == p && GetSegment(as_, Top(as_.data)) == Some(as_.data)
  {
    assert Reaches(as_.code, p);
    assert !InSegment(as_.data, p);
  }

  // ---------------------------------------------------------------- inputs that fail

  /** Adjacent segments: the first byte of the data segment is attributed to the code segment. */
  lemma AdjacentSegmentsExample(text: Vnode)
    ensures var code := Segment(0, 0x40_0000, 0, 0x1000, 0x5, text);
            var data := Segment(0, 0x40_1000, 0, 0x1000, PF_RW, text);
            var as_ := AddrSpace(code, data, STACK_SEGMENT);
            Separate(as_) && !TopsClear(as_) && Has(data, 0x40_1000) && GetSegment(as_, 0x40_1000) == Some(code)
  {
  }

  /**
   Segments that share a page but no byte, each looked up correctly: a fault on the code part loads the page
   from the code segment, and the first byte of the data, 7 in the file, is then 0 in memory.
   */
  lemma SharedPageExample(file: seq<byte>)
    requires |file| == 0xa00 && file[0x900] == 7
    ensures var code := Segment(0, 0x40_0000, 0x800, 0x800, 0x5, File(file));
            var data := Segment(0x900, 0x40_0900, 0x100, 0x100, PF_RW, File(file));
            var as_ := AddrSpace(code, data, STACK_SEGMENT);
            && Separate(as_) && TopsClear(as_) && Compact(code) && Compact(data) && !PagesApart(as_)
            && GetSegment(as_, 0x40_0000) == Some(code) && GetSegment(as_, 0x40_0900) == Some(data)
            && ImageByte(data, 0) == 7 && PageIndex(code, 0x40_0000) == 0 && PageImage(code, 0)[0x900] == 0
  {
    var code := Segment(0, 0x40_0000, 0x800, 0x800, 0x5, File(file));
    var data := Segment(0x900, 0x40_0900, 0x100, 0x100, PF_RW, File(file));
    assert Reaches(code, 0x400) && InSegment(data, 0x400);
    assert PageImage(code, 0)[0x900] == ImageByte(code, 0 * PAGE_SIZE + 0x900 - code.vaddr % PAGE_SIZE);
  }
}
