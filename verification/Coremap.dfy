/**
 The searches of kern/vm/coremap.c over the array of physical frames: the round-robin
 victim search, the first-fit search for a run of free frames, and the search for one free frame.
 */
module Coremap {
  import opened Prelude

  /** fixed: kernel; free: given back; dirty: user page; clean: never handed out by ram_stealmem. */
  datatype Status = Fixed | Free | Dirty | Clean

  /** The virtual address of a frame is kept as a page number. */
  datatype Entry = Entry(status: Status, vpn: nat, allocSize: nat)

  predicate Eligible(e: Entry) { e.status != Fixed && e.status != Clean }

  predicate EligibleFrom(cm: seq<Entry>, start: int, len: nat) {
    0 <= start && start + len <= |cm| && forall k :: start <= k < start + len ==> Eligible(cm[k])
  }

  /** A run the victim search may return: it never looks at the last frame. */
  predicate VictimRun(cm: seq<Entry>, start: int, size: nat) {
    start + size < |cm| && EligibleFrom(cm, start, size)
  }

  /** The lowest run at or after `from`, if there is one. */
  ghost predicate IsFirstRun(cm: seq<Entry>, from: nat, size: nat, start: nat) {
    from <= start && VictimRun(cm, start, size) && forall s :: from <= s < start ==> !VictimRun(cm, s, size)
  }

  ghost predicate SomeRun(cm: seq<Entry>, from: nat, size: nat) {
    exists s :: from <= s && VictimRun(cm, s, size)
  }

  /** Round robin: the first run from the cursor on, else the first run from frame 1 on. */
  ghost predicate IsVictim(cm: seq<Entry>, cursor: nat, size: nat, start: nat) {
    if SomeRun(cm, cursor, size) then IsFirstRun(cm, cursor, size, start) else IsFirstRun(cm, 1, size, start)
  }

  lemma VictimUnique(cm: seq<Entry>, cursor: nat, size: nat, a: nat, b: nat)
    requires IsVictim(cm, cursor, size, a) && IsVictim(cm, cursor, size, b)
    ensures a == b
  {
    assert VictimRun(cm, a, size) && VictimRun(cm, b, size);
  }

  /** The cursor's successor, modulo the number of entries. */
  function Next(c: nat, n: nat): (r: nat)
    requires c < n
    ensures r == if c + 1 == n then 0 else c + 1
  {
    (c + 1) % n
  }

  /** The search has something to find: a run on the first lap, or on the next. */
  ghost predicate Findable(cm: seq<Entry>, cursor: nat, size: nat) {
    SomeRun(cm, cursor, size) || SomeRun(cm, 1, size)
  }

  /** A request for all frames but one, or more, while every frame but the first and the last is eligible. */
  predicate Overlong(cm: seq<Entry>, size: nat) {
    2 < |cm| <= 1 + size && EligibleFrom(cm, 1, |cm| - 2)
  }

  /**
   get_victim_coremap: within two laps it finds the run, if there is one. An overlong request is answered with
   a run that begins at frame 0 or below it. Otherwise, when nothing was found on a full second lap, the loop of
   the source goes round forever (SearchDiverges) and the method stops with None.
   */
  method GetVictim(cm: array<Entry>, cursor: nat, size: nat) returns (victim: Option<int>, cursor': nat)
    requires size != 0 && cm.Length > 2 && cursor < cm.Length
    ensures cursor' < cm.Length
    ensures Findable(cm[..], cursor, size) ==>
              && victim.Some? && victim.value >= 0 && IsVictim(cm[..], cursor, size, victim.value)
              && cursor' == victim.value + size
    ensures !Findable(cm[..], cursor, size) && Overlong(cm[..], size) ==>
              victim == Some(cm.Length - 1 - size) && cursor' == cm.Length - 1
    ensures !Findable(cm[..], cursor, size) && !Overlong(cm[..], size) ==> victim == None
  {
    ghost var m := cm[..];
    var len: nat, lap: nat := 0, 0;
    cursor' := cursor;
    var last := cursor;
    ghost var recount := false;
    while len < size
      invariant len <= size && cursor' < cm.Length && lap <= 1
      invariant !recount ==> InRun(m, cursor, size, lap, cursor', len) && (len > 0 ==> last == cursor' - 1)
      invariant !recount && lap == 1 ==> !Overlong(m, size)
      invariant recount ==> InRecount(m, cursor, size, cursor', len) && lap == 1 && last == cursor' - 1
      decreases 1 - lap, if recount then cm.Length + size - len else cm.Length - cursor'
    {
      if cursor' + (size - len) >= cm.Length {
        if lap == 1 && len == 0 {
          return None, cursor';
        }
        if lap == 0 {
          assert !SomeRun(m, cursor, size);
          recount := cm.Length <= 1 + size;
        }
        lap := 1;
        cursor' := 1;
      }
      last := cursor';
      cursor' := Next(cursor', cm.Length);
      if cm[last].status != Fixed && cm[last].status != Clean {
        len := len + 1;
      } else {
        len := 0;
        recount := false;
      }
    }
    assert recount || VictimRun(m, cursor' - len, size);
    victim := Some(last - (len - 1));
  }

  /** Inside one lap: the last len frames before c are eligible, they fit, and no run was missed. */
  ghost predicate InRun(cm: seq<Entry>, cursor: nat, size: nat, lap: nat, c: nat, len: nat) {
    && len <= c < |cm| && EligibleFrom(cm, c - len, len) && (len > 0 ==> c - len + size < |cm|)
    && NoRunYet(cm, cursor, size, lap, c - len)
  }

  /** An overlong request counts frame 1 until the rest would fit behind it. */
  ghost predicate InRecount(cm: seq<Entry>, cursor: nat, size: nat, c: nat, len: nat) {
    && !Findable(cm, cursor, size) && 2 < |cm| <= 1 + size && 0 < len <= size
    && c == (if len <= size + 3 - |cm| then 2 else len + |cm| - 1 - size) && EligibleFrom(cm, 1, c - 1)
  }

  /** No run starts in the part of the current lap that lies below `start`. */
  ghost predicate NoRunYet(cm: seq<Entry>, cursor: nat, size: nat, lap: nat, start: int) {
    if lap == 0 then cursor <= start && forall s :: cursor <= s < start ==> !VictimRun(cm, s, size)
    else 1 <= start && !SomeRun(cm, cursor, size) && forall s :: 1 <= s < start ==> !VictimRun(cm, s, size)
  }

  /** One iteration of that loop, as a function of (cursor, len). */
  function SearchStep(cm: seq<Entry>, size: nat, c: nat, len: nat): (r: (nat, nat))
    requires |cm| > 1 && c < |cm| && len < size
    ensures r.0 < |cm|
  {
    var v := if c + (size - len) >= |cm| then 1 else c;
    (Next(v, |cm|), if Eligible(cm[v]) then len + 1 else 0)
  }

  /** The length of the run found so far after n iterations (the loop stops once it is `size`). */
  function SearchLen(cm: seq<Entry>, size: nat, c: nat, len: nat, n: nat): nat
    requires |cm| > 1 && c < |cm| && len <= size
    decreases n
  {
    if n == 0 || len == size then len
    else var r := SearchStep(cm, size, c, len); SearchLen(cm, size, r.0, r.1, n - 1)
  }

  /** When there is no run and the request is not overlong, the loop never ends, however many iterations it makes. */
  lemma {:induction false} SearchDiverges(cm: seq<Entry>, size: nat, cursor: nat, n: nat)
    requires size != 0 && |cm| > 2 && cursor < |cm| && !Findable(cm, cursor, size) && !Overlong(cm, size)
    ensures SearchLen(cm, size, cursor, 0, n) < size
  {
    RunDiverges(cm, size, cursor, cursor, 0, n);
  }

  /** Where the loop can be: in a run that cannot become long enough, or counting frame 1 over and over. */
  lemma {:induction false} RunDiverges(cm: seq<Entry>, size: nat, cursor: nat, c: nat, len: nat, n: nat)
    requires size != 0 && |cm| > 2 && !Findable(cm, cursor, size) && !Overlong(cm, size) && c < |cm| && len < size
    requires || InRecount(cm, cursor, size, c, len)
             || (len <= c && EligibleFrom(cm, c - len, len) && (len > 0 ==> c - len + size < |cm|)
                 && (cursor <= c - len || 1 <= c - len))
    ensures SearchLen(cm, size, c, len, n) < size
    decreases n
  {
    if n > 0 {
      var v := if c + (size - len) >= |cm| then 1 else c;
      var (c', len') := SearchStep(cm, size, c, len);
      if InRecount(cm, cursor, size, c, len) {
        assert len' > 0 ==> EligibleFrom(cm, 1, v);
      } else if 1 + size < |cm| || c + (size - len) < |cm| {
        assert len' > 0 ==> EligibleFrom(cm, v - len, len') && v - len + size < |cm|;
        assert len' == size ==> VictimRun(cm, v - len, size);
      } else {
        assert len' > 0 ==> EligibleFrom(cm, 1, 1);
      }
      RunDiverges(cm, size, cursor, c', len', n - 1);
    }
  }

  /**
   Every request for all frames but one, or more, while frame 0 is not eligible: no run is long enough, and the
   search ends exactly when all frames it looks at are eligible, by counting frame 1 more than once.
   */
  lemma OverlongExactly(cm: seq<Entry>, size: nat, cursor: nat)
    requires 2 < |cm| <= 1 + size && cursor < |cm| && !Eligible(cm[0])
    ensures !Findable(cm, cursor, size)
    ensures (exists n: nat :: SearchLen(cm, size, cursor, 0, n) == size) <==> EligibleFrom(cm, 1, |cm| - 2)
  {
    assert !VictimRun(cm, 0, size);
    if EligibleFrom(cm, 1, |cm| - 2) {
      OverlongEnds(cm, size, cursor);
    } else if n: nat :| SearchLen(cm, size, cursor, 0, n) == size {
      SearchDiverges(cm, size, cursor, n);
    }
  }

  lemma OverlongEnds(cm: seq<Entry>, size: nat, cursor: nat)
    requires Overlong(cm, size) && cursor < |cm| && !Eligible(cm[0])
    ensures exists n: nat :: SearchLen(cm, size, cursor, 0, n) == size
  {
    Recounts(cm, size, 2, 1);
    var r := SearchStep(cm, size, cursor, 0);
    if r == (2, 1) {
      assert SearchLen(cm, size, cursor, 0, size) == size;
    } else {
      assert r == (1, 0) && SearchStep(cm, size, 1, 0) == (2, 1);
      assert SearchLen(cm, size, 1, 0, size) == size;
      assert SearchLen(cm, size, cursor, 0, size + 1) == size;
    }
  }

  lemma {:induction false} Recounts(cm: seq<Entry>, size: nat, c: nat, len: nat)
    requires Overlong(cm, size) && 0 < len <= size && c == if len <= size + 3 - |cm| then 2 else len + |cm| - 1 - size
    ensures SearchLen(cm, size, c, len, size - len) == size
    decreases size - len
  {
    if len < size {
      var v := if c + (size - len) >= |cm| then 1 else c;
      assert 1 <= v < |cm| - 1 && Eligible(cm[v]);
      Recounts(cm, size, v + 1, len + 1);
    }
  }

  /** A run of `len` free frames; frame 0 is never considered. */
  predicate FreeRun(cm: seq<Entry>, start: int, len: nat) {
    1 <= start && start + len <= |cm| && forall k :: start <= k < start + len ==> cm[k].status == Free
  }

  ghost predicate IsFirstFreeRun(cm: seq<Entry>, len: nat, start: nat) {
    FreeRun(cm, start, len) && forall s :: s < start ==> !FreeRun(cm, s, len)
  }

  /** The search of getfreeppages: finds the lowest run iff there is one (frame 0 is not free). */
  method FindFreeRun(cm: array<Entry>, npages: nat) returns (found: Option<nat>)
    requires npages >= 1 && cm.Length > 0 && cm[0].status != Free
    ensures found.Some? ==> IsFirstFreeRun(cm[..], npages, found.value)
    ensures found.None? ==> forall s :: !FreeRun(cm[..], s, npages)
  {
    ghost var m := cm[..];
    var first: int := -1;
    var i := 1;
    while i < cm.Length
      invariant 1 <= i <= cm.Length
      invariant cm[i - 1].status == Free ==>
                  && 1 <= first < i && i - first < npages
                  && m[first - 1].status != Free && FreeRun(m, first, i - first)
      invariant forall s {:trigger FreeRun(m, s, npages)} :: s + npages <= i ==> !FreeRun(m, s, npages)
    {
      if cm[i].status == Free {
        if i == 0 || cm[i - 1].status != Free {
          first := i;
        }
        assert m[first - 1].status != Free;
        if i - first + 1 >= npages {
          return Some(first);
        }
      } else {
        assert m[i].status != Free;
      }
      i := i + 1;
    }
    found := None;
  }

  /** The search of getppage_user for one free frame. */
  method FindFreeFrame(cm: array<Entry>) returns (found: Option<nat>)
    requires cm.Length > 0
    ensures found.Some? ==> IsFirstFreeRun(cm[..], 1, found.value)
    ensures found.None? ==> forall s :: !FreeRun(cm[..], s, 1)
  {
    for i := 1 to cm.Length
      invariant forall s {:trigger FreeRun(cm[..], s, 1)} :: s < i ==> !FreeRun(cm[..], s, 1)
    {
      if cm[i].status == Free {
        assert FreeRun(cm[..], i, 1);
        return Some(i);
      }
      assert cm[..][i].status != Free;
    }
    found := None;
  }
}
