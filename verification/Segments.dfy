/**
 Loading one page of an ELF segment (kern/vm/segments.c).
 The page number inside the segment, the number of pages and the three copy cases are
 those of the code; PageImage says, byte by byte, what the page has to contain.
 */
module Segments {
  import opened Prelude

  const PF_W: nat := 0x2
  const PF_RW: nat := 0x6
  const PF_S: nat := 0x8

  datatype Vnode = NoVnode | File(data: seq<byte>)

  datatype Segment = Segment(offset: nat, vaddr: nat, filesz: nat, memsz: nat, perm: nat, vnode: Vnode)

  datatype LoadOutcome = Loaded | ShortRead | AssertFailed | FrameOverrun

  /** The 32-bit sums of the loader do not wrap. */
  predicate Fits(seg: Segment) {
    seg.vaddr + seg.memsz <= USERSPACETOP && seg.filesz < 0x1_0000_0000
  }

  function RoundUp(x: nat): nat { (x + PAGE_SIZE - 1) / PAGE_SIZE * PAGE_SIZE }

  /** Number of pages the loader computes: it adds the offset of the FAULT address. */
  function NPages(seg: Segment, va: nat): nat {
    RoundUp(seg.memsz + va % PAGE_SIZE) / PAGE_SIZE
  }

  function PageIndex(seg: Segment, va: nat): nat
    requires seg.vaddr <= va
  {
    va / PAGE_SIZE - seg.vaddr / PAGE_SIZE
  }

  function Clamped(seg: Segment, va: nat): Segment {
    if seg.filesz > NPages(seg, va) * PAGE_SIZE then seg.(filesz := NPages(seg, va) * PAGE_SIZE) else seg
  }

  /** Byte x of the segment: a file byte while there is one, zero after that. */
  function ImageByte(seg: Segment, x: int): byte {
    if seg.vnode.File? && 0 <= x < seg.filesz && seg.offset + x < |seg.vnode.data|
    then seg.vnode.data[seg.offset + x] else 0
  }

  /** The page number `i` of the segment, counted from the page of p_vaddr. */
  function PageImage(seg: Segment, i: nat): Page {
    seq(PAGE_SIZE, (o: nat) => ImageByte(seg, i * PAGE_SIZE + o - seg.vaddr % PAGE_SIZE))
  }

  /** The file holds every byte that page `i` takes from it. */
  predicate FileCovers(seg: Segment, i: nat) {
    seg.vnode.File? && forall o :: 0 <= o < PAGE_SIZE ==> FileHas(seg, i, o)
  }

  predicate FileHas(seg: Segment, i: nat, o: nat)
    requires seg.vnode.File?
  {
    var x := i * PAGE_SIZE + o - seg.vaddr % PAGE_SIZE;
    0 <= x < seg.filesz ==> seg.offset + x < |seg.vnode.data|
  }

  /** What the copy of page PageIndex needs in order to stay inside the frame. */
  predicate LoadSafe(seg: Segment, va: nat)
    requires seg.vaddr <= va
  {
    var i := PageIndex(seg, va);
    i == 0 || i + 1 != NPages(seg, va) || seg.filesz + seg.vaddr % PAGE_SIZE <= (i + 1) * PAGE_SIZE
  }

  /** The segment does not spill into one more page than its rounded size. */
  predicate Compact(seg: Segment) {
    seg.vaddr % PAGE_SIZE + seg.memsz <= RoundUp(seg.memsz)
  }

  /** Copies as many of the `len` bytes at `off` as the file has (a short read stops early). */
  function ReadInto(frame: Page, data: seq<byte>, dest: nat, off: nat, len: nat): (r: Page)
    requires dest + len <= |frame|
    ensures |r| == |frame|
  {
    seq(|frame|, (o: nat) requires o < |frame| =>
      if dest <= o < dest + len && off + (o - dest) < |data| then data[off + (o - dest)] else frame[o])
  }

  /** seg_load_page. The clamp of p_filesz is in place in the code: seg' is the updated segment. */
  method SegLoadPage(seg: Segment, va: nat) returns (seg': Segment, outcome: LoadOutcome, readLen: nat, frame: Page)
    requires Fits(seg) && seg.vaddr <= va
    ensures outcome.AssertFailed? <==> seg.vnode.NoVnode? || PageIndex(seg, va) >= NPages(seg, va)
    ensures !outcome.AssertFailed? ==> seg' == Clamped(seg, va)
    ensures outcome.FrameOverrun? <==> !outcome.AssertFailed? && !LoadSafe(Clamped(seg, va), va)
    ensures outcome.Loaded? || outcome.ShortRead? ==>
              var i := PageIndex(seg, va);
              && frame == PageImage(seg', i)
              && (outcome.Loaded? <==> FileCovers(seg', i))
              && (readLen == 0 <==> seg'.filesz == 0 || seg'.filesz + seg.vaddr % PAGE_SIZE <= i * PAGE_SIZE)
  {
    hide FileCovers, PageImage, ReadInto;
    seg', frame, readLen := seg, ZeroPage(), 0;
    if seg.vnode.NoVnode? {
      outcome := AssertFailed;
      return;
    }
    var npages := seg.memsz + va % PAGE_SIZE;
    npages := (npages + PAGE_SIZE - 1) / PAGE_SIZE * PAGE_SIZE;
    npages := npages / PAGE_SIZE;
    if seg'.filesz > npages * PAGE_SIZE {
      seg' := seg'.(filesz := npages * PAGE_SIZE);
    }
    var pageIndex := (va - (seg.vaddr - seg.vaddr % PAGE_SIZE)) / PAGE_SIZE;
    assert pageIndex == PageIndex(seg, va);
    if pageIndex >= npages {
      outcome := AssertFailed;
      return;
    }
    var base := seg.vaddr % PAGE_SIZE;
    var dest, fileOffset := 0, 0;
    if pageIndex == 0 {
      dest := base;
      readLen := if PAGE_SIZE - base > seg'.filesz then seg'.filesz else PAGE_SIZE - base;
      fileOffset := seg'.offset;
    } else if pageIndex == npages - 1 {
      var voffset := (npages - 1) * PAGE_SIZE - base;
      fileOffset := seg'.offset + voffset;
      if seg'.filesz > voffset {
        readLen := seg'.filesz - voffset;
      } else {
        readLen := 0;
        fileOffset := seg'.filesz;
      }
    } else {
      fileOffset := seg'.offset + pageIndex * PAGE_SIZE - base;
      if seg'.filesz > (pageIndex + 1) * PAGE_SIZE - base {
        readLen := PAGE_SIZE;
      } else if seg'.filesz < pageIndex * PAGE_SIZE - base {
        readLen := 0;
        fileOffset := seg'.filesz;
      } else {
        readLen := seg'.filesz - (pageIndex * PAGE_SIZE - base);
      }
    }

    if dest + readLen > PAGE_SIZE {
      outcome := FrameOverrun;
      return;
    }
    frame := ReadInto(ZeroPage(), seg.vnode.data, dest, fileOffset, readLen);
    outcome := if readLen == 0 || fileOffset + readLen <= |seg.vnode.data| then Loaded else ShortRead;
    PlanFillsImage(seg', pageIndex, dest, fileOffset, readLen);
  }

  /** The copy takes the file bytes of page `i` to their place, all of them, and nothing else. */
  predicate PlanOk(seg: Segment, i: nat, dest: nat, off: nat, len: nat) {
    var base := seg.vaddr % PAGE_SIZE;
    var start := i * PAGE_SIZE - base;      // may be negative in the first page
    && dest + len <= PAGE_SIZE
    && dest == (if i == 0 then base else 0)
    && (len == 0 ==> seg.filesz <= start + dest)
    && (len > 0 ==> off == seg.offset + start + dest
                    && start + dest + len == if seg.filesz <= start + PAGE_SIZE then seg.filesz else start + PAGE_SIZE)
  }

  lemma PlanFillsImage(seg: Segment, i: nat, dest: nat, off: nat, len: nat)
    requires seg.vnode.File? && PlanOk(seg, i, dest, off, len)
    ensures ReadInto(ZeroPage(), seg.vnode.data, dest, off, len) == PageImage(seg, i)
    ensures len == 0 || off + len <= |seg.vnode.data| <==> FileCovers(seg, i)
  {
    var r := ReadInto(ZeroPage(), seg.vnode.data, dest, off, len);
    forall o | 0 <= o < PAGE_SIZE ensures r[o] == PageImage(seg, i)[o] {
      assert PageImage(seg, i)[o] == ImageByte(seg, i * PAGE_SIZE + o - seg.vaddr % PAGE_SIZE);
    }
    if len > 0 {
      assert FileHas(seg, i, dest + len - 1) ==> off + len <= |seg.vnode.data|;
    }
  }

  /**
   A whole segment can be loaded page by page, whichever byte faults first, exactly when
   p_vaddr's offset plus p_memsz fits in p_memsz rounded up (so always for an aligned p_vaddr).
   */
  lemma SegmentLoadableIff(seg: Segment)
    requires Fits(seg) && seg.filesz <= seg.memsz && seg.memsz > 0
    ensures Compact(seg) <==>
            forall va :: seg.vaddr <= va < seg.vaddr + seg.memsz ==>
              PageIndex(seg, va) < NPages(seg, va) && LoadSafe(seg, va)
    ensures Compact(seg) ==> forall va :: Clamped(seg, va) == seg
    ensures seg.vaddr % PAGE_SIZE == 0 ==> Compact(seg)
  {
    if Compact(seg) {
      forall va | seg.vaddr <= va < seg.vaddr + seg.memsz ensures PageIndex(seg, va) < NPages(seg, va) && LoadSafe(seg, va) {
        CompactLoads(seg, va);
      }
      forall va: nat | true ensures Clamped(seg, va) == seg {
        NotClamped(seg, va);
      }
    } else {
      var va := SpillPage(seg);
    }
  }

  /** In a compact segment no page index is too large and no copy leaves its frame. */
  lemma CompactLoads(seg: Segment, va: nat)
    requires Compact(seg) && seg.filesz <= seg.memsz && seg.vaddr <= va < seg.vaddr + seg.memsz
    ensures PageIndex(seg, va) < NPages(seg, va) && LoadSafe(seg, va)
  {
  }

  lemma NotClamped(seg: Segment, va: nat)
    requires seg.filesz <= seg.memsz
    ensures Clamped(seg, va) == seg
  {
  }

  /** A segment that is not compact has bytes in a page whose index is too large. */
  lemma SpillPage(seg: Segment) returns (va: nat)
    requires !Compact(seg) && seg.memsz > 0
    ensures seg.vaddr <= va < seg.vaddr + seg.memsz && PageIndex(seg, va) >= NPages(seg, va)
  {
    va := seg.vaddr - seg.vaddr % PAGE_SIZE + RoundUp(seg.memsz);
    assert va % PAGE_SIZE == 0;
    assert PageIndex(seg, va) == NPages(seg, va);
  }

  /** An unaligned segment for which the copy of its second page would run beyond the frame. */
  lemma UnalignedOverrunExample(data: seq<byte>)
    ensures var seg := Segment(0, 0x1800, 0x2000, 0x2000, PF_RW, File(data));
            Fits(seg) && !Compact(seg) && PageIndex(seg, 0x2000) < NPages(seg, 0x2000) && !LoadSafe(seg, 0x2000)
  {
  }

  /** seg_define_stack: twelve pages below USERSTACK, no file. */
  const STACK_PAGES: nat := 12

  const STACK_SEGMENT: Segment :=
    Segment(0, USERSPACETOP - STACK_PAGES * PAGE_SIZE, 0, STACK_PAGES * PAGE_SIZE, PF_S, NoVnode)
}
