/** The two-level page table (kern/vm/pt.c), as the map from page numbers to entries it represents. */
module PageTables {
  import opened Prelude
  import opened Paging

  const SIZE_PT: nat := 1024

  /** One past the last 32-bit virtual address. */
  const VA_LIMIT: nat := 0x1_0000_0000

  datatype InnerEntry = InnerEntry(valid: bool, frame: nat, slot: int)

  const EMPTY_ENTRY: InnerEntry := InnerEntry(false, 0, -1)

  /** The masks keep bits 31..22, 21..12 and 11..0; the shifts bring them down. */
  function OuterIndex(va: nat): nat { (va - va % 0x40_0000) / 0x40_0000 }
  function InnerIndex(va: nat): nat { va % 0x40_0000 / 0x1000 }
  function PageOffset(va: nat): nat { va % 0x1000 }

  /** The three fields are in range and determine the address; the first two determine the page. */
  lemma AddressSplit(va: nat)
    requires va < VA_LIMIT
    ensures OuterIndex(va) < SIZE_PT && InnerIndex(va) < SIZE_PT && PageOffset(va) < PAGE_SIZE
    ensures va == (OuterIndex(va) * SIZE_PT + InnerIndex(va)) * PAGE_SIZE + PageOffset(va)
    ensures va / PAGE_SIZE == OuterIndex(va) * SIZE_PT + InnerIndex(va)
    ensures va / PAGE_SIZE / SIZE_PT == OuterIndex(va) && va / PAGE_SIZE % SIZE_PT == InnerIndex(va)
  {
  }

  class PageTable {
    const outer: array<array?<InnerEntry>>
    /** What the table represents: the valid entries by page number. */
    ghost var entries: map<nat, Pte>
    ghost var Repr: set<object>

    ghost predicate Valid()
      reads this, Repr
    {
      && this in Repr && outer in Repr && outer.Length == SIZE_PT
      && (forall i :: 0 <= i < SIZE_PT && outer[i] != null ==> outer[i] in Repr && outer[i].Length == SIZE_PT)
      && (forall i, j :: 0 <= i < j < SIZE_PT && outer[i] != null ==> outer[i] != outer[j])
      && (forall p :: p in entries ==> p < SIZE_PT * SIZE_PT)
      && (forall i, j :: 0 <= i < SIZE_PT && 0 <= j < SIZE_PT ==> Represents(i, j))
    }

    /** The entry at (i, j) of the tables and the map agree on page i * 1024 + j. */
    ghost predicate Represents(i: nat, j: nat)
      requires outer.Length == SIZE_PT && i < SIZE_PT && j < SIZE_PT
      requires outer[i] != null ==> outer[i].Length == SIZE_PT
      reads this, outer, outer[i]
    {
      var p := i * SIZE_PT + j;
      if outer[i] == null then p !in entries
      else
        var e := outer[i][j];
        if e.valid then p in entries && entries[p] == Pte(e.frame, e.slot)
        else p !in entries && e == EMPTY_ENTRY
    }

    /** pt_create. */
    constructor ()
      ensures Valid() && fresh(Repr) && entries == map[]
    {
      outer := new array?<InnerEntry>[SIZE_PT](_ => null);
      entries := map[];
      new;
      Repr := {this, outer};
    }

    /** pt_define_inner. */
    method DefineInner(va: nat)
      requires Valid() && va < VA_LIMIT && outer[OuterIndex(va)] == null
      modifies outer, this`Repr
      ensures Valid() && entries == old(entries) && outer[OuterIndex(va)] != null
      ensures fresh(Repr - old(Repr)) && old(Repr) <= Repr
    {
      AddressSplit(va);
      var i := OuterIndex(va);
      var inner := new InnerEntry[SIZE_PT](_ => EMPTY_ENTRY);
      outer[i] := inner;
      Repr := Repr + {inner};
      forall a, b | 0 <= a < SIZE_PT && 0 <= b < SIZE_PT ensures Represents(a, b) {
        assert old(Represents(a, b));
      }
    }

    /** pt_get_pa. */
    method GetPa(va: nat) returns (frame: nat)
      requires Valid() && va < VA_LIMIT
      ensures frame == PtFrame(entries, va / PAGE_SIZE)
    {
      AddressSplit(va);
      var i, j := OuterIndex(va), InnerIndex(va);
      assert Represents(i, j);
      if outer[i] != null && outer[i][j].valid {
        return outer[i][j].frame;
      }
      frame := 0;
    }

    /** pt_get_offset. */
    method GetOffset(va: nat) returns (slot: int)
      requires Valid() && va < VA_LIMIT
      ensures slot == PtSlot(entries, va / PAGE_SIZE)
    {
      AddressSplit(va);
      var i, j := OuterIndex(va), InnerIndex(va);
      assert Represents(i, j);
      if outer[i] != null && outer[i][j].valid {
        return outer[i][j].slot;
      }
      slot := -1;
    }

    /** pt_set_pa: the swap offset of the entry is kept. */
    method SetPa(va: nat, frame: nat)
      requires Valid() && va < VA_LIMIT
      modifies Repr
      ensures Valid() && fresh(Repr - old(Repr)) && old(Repr) <= Repr
      ensures entries == PtSetFrame(old(entries), va / PAGE_SIZE, frame)
    {
      AddressSplit(va);
      var i, j := OuterIndex(va), InnerIndex(va);
      if outer[i] == null {
        DefineInner(va);
      }
      assert Represents(i, j);
      SetEntry(i, j, InnerEntry(true, frame, outer[i][j].slot));
    }

    /** pt_set_offset: the frame of the entry is kept. */
    method SetOffset(va: nat, slot: int)
      requires Valid() && va < VA_LIMIT
      modifies Repr
      ensures Valid() && fresh(Repr - old(Repr)) && old(Repr) <= Repr
      ensures entries == PtSetSlot(old(entries), va / PAGE_SIZE, slot)
    {
      AddressSplit(va);
      var i, j := OuterIndex(va), InnerIndex(va);
      if outer[i] == null {
        DefineInner(va);
      }
      assert Represents(i, j);
      SetEntry(i, j, InnerEntry(true, outer[i][j].frame, slot));
    }

    /** The assignment to one entry of an existing inner table. */
    method SetEntry(i: nat, j: nat, e: InnerEntry)
      requires Valid() && i < SIZE_PT && j < SIZE_PT && outer[i] != null && e.valid
      modifies outer[i], this`entries
      ensures Valid() && Repr == old(Repr)
      ensures entries == old(entries)[i * SIZE_PT + j := Pte(e.frame, e.slot)]
    {
      outer[i][j] := e;
      entries := entries[i * SIZE_PT + j := Pte(e.frame, e.slot)];
      forall a, b | 0 <= a < SIZE_PT && 0 <= b < SIZE_PT ensures Represents(a, b) {
        assert old(Represents(a, b));
        assert a * SIZE_PT + b == i * SIZE_PT + j ==> a == i && b == j;
      }
    }
  }
}
