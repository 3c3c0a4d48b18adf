/**
 The deadlock detector judged by the calls made to it: who waits and who holds is read off the list of calls,
 and the answers of kern/thread/hangman.c are compared with that.
 */
module WaitsHistory {
  import opened Prelude
  import opened WaitsFor

  // ---------------------------------------------------------------- what the calls say

  predicate Moves<A(==), L(==)>(c: Call<A, L>, l: L) { !c.Wait? && c.l == l }

  predicate Turns<A(==), L(==)>(c: Call<A, L>, a: A) { !c.Release? && c.a == a }

  /** Call i is the last that acquired or released l, and it acquired it. */
  ghost predicate HolderAt<A, L>(calls: seq<Call<A, L>>, i: int, l: L) {
    0 <= i < |calls| && calls[i].Acquire? && calls[i].l == l && forall j :: i < j < |calls| ==> !Moves(calls[j], l)
  }

  /** Call i is the last wait or acquire of a, and it is a wait. */
  ghost predicate WaitAt<A, L>(calls: seq<Call<A, L>>, i: int, a: A) {
    0 <= i < |calls| && calls[i].Wait? && calls[i].a == a && forall j :: i < j < |calls| ==> !Turns(calls[j], a)
  }

  ghost predicate Holds<A, L>(calls: seq<Call<A, L>>, l: L, a: A) { exists i :: HolderAt(calls, i, l) && calls[i].a == a }

  ghost predicate Waits<A, L>(calls: seq<Call<A, L>>, a: A, l: L) { exists i :: WaitAt(calls, i, a) && calls[i].l == l }

  ghost predicate Held<A, L>(calls: seq<Call<A, L>>, l: L) { exists i :: HolderAt(calls, i, l) }

  ghost predicate Waiting<A, L>(calls: seq<Call<A, L>>, a: A) { exists i :: WaitAt(calls, i, a) }

  /** a waits for something held by an actor that waits for ..., and the n-th actor on this way is b. */
  ghost predicate Leads<A, L>(calls: seq<Call<A, L>>, a: A, b: A, n: nat)
    decreases n
  {
    if n == 0 then a == b
    else exists i, j :: WaitAt(calls, i, a) && HolderAt(calls, j, calls[i].l) && Leads(calls, calls[j].a, b, n - 1)
  }

  /** Some actors wait for one another in a circle. */
  ghost predicate Cycle<A, L>(calls: seq<Call<A, L>>) {
    exists i, n: nat :: 0 <= i < |calls| && n > 0 && Leads(calls, calls[i].a, calls[i].a, n)
  }

  // ---------------------------------------------------------------- the records are what the calls say

  lemma HolderStep<A, L>(calls: seq<Call<A, L>>, c: Call<A, L>, i: int, l: L)
    ensures HolderAt(calls + [c], i, l) <==>
            if i == |calls| then c.Acquire? && c.l == l else HolderAt(calls, i, l) && !Moves(c, l)
  {
    var more, n := calls + [c], |calls|;
    assert more[n] == c && forall j :: 0 <= j < n ==> more[j] == calls[j];
  }

  lemma WaitStep<A, L>(calls: seq<Call<A, L>>, c: Call<A, L>, i: int, a: A)
    ensures WaitAt(calls + [c], i, a) <==>
            if i == |calls| then c.Wait? && c.a == a else WaitAt(calls, i, a) && !Turns(c, a)
  {
    var more, n := calls + [c], |calls|;
    assert more[n] == c && forall j :: 0 <= j < n ==> more[j] == calls[j];
  }

  /** After any list of calls, whatever they answered. */
  lemma {:induction false} HolderIs<A, L>(calls: seq<Call<A, L>>, l: L)
    ensures l in AfterRun(calls).holding <==> Held(calls, l)
    ensures forall i :: HolderAt(calls, i, l) ==> l in AfterRun(calls).holding && AfterRun(calls).holding[l] == calls[i].a
  {
    if calls != [] {
      var n := |calls| - 1;
      assert calls == calls[..n] + [calls[n]];
      HolderIs(calls[..n], l);
      HolderStep(calls[..n], calls[n], n, l);
      forall i | true ensures HolderAt(calls, i, l) <==> if i == n then calls[n].Acquire? && calls[n].l == l
                                                         else HolderAt(calls[..n], i, l) && !Moves(calls[n], l)
      {
        HolderStep(calls[..n], calls[n], i, l);
      }
    }
  }

  lemma {:induction false} WaitIs<A, L>(calls: seq<Call<A, L>>, a: A)
    ensures a in AfterRun(calls).waiting <==> Waiting(calls, a)
    ensures forall i :: WaitAt(calls, i, a) ==> a in AfterRun(calls).waiting && AfterRun(calls).waiting[a] == calls[i].l
  {
    if calls != [] {
      var n := |calls| - 1;
      assert calls == calls[..n] + [calls[n]];
      WaitIs(calls[..n], a);
      WaitStep(calls[..n], calls[n], n, a);
      forall i | true ensures WaitAt(calls, i, a) <==> if i == n then calls[n].Wait? && calls[n].a == a
                                                       else WaitAt(calls[..n], i, a) && !Turns(calls[n], a)
      {
        WaitStep(calls[..n], calls[n], i, a);
      }
    }
  }

  // ---------------------------------------------------------------- cycles

  lemma FirstStep<A, L>(calls: seq<Call<A, L>>, a: A, b: A, n: nat)
    requires n > 0
    ensures Leads(calls, a, b, n) <==>
            Next(AfterRun(calls), a).Some? && Leads(calls, Next(AfterRun(calls), a).value, b, n - 1)
  {
    var g := AfterRun(calls);
    WaitIs(calls, a);
    if Leads(calls, a, b, n) {
      var i, j :| WaitAt(calls, i, a) && HolderAt(calls, j, calls[i].l) && Leads(calls, calls[j].a, b, n - 1);
      HolderIs(calls, calls[i].l);
    }
    if Next(g, a).Some? && Leads(calls, Next(g, a).value, b, n - 1) {
      HolderIs(calls, g.waiting[a]);
      var i :| WaitAt(calls, i, a);
      var j :| HolderAt(calls, j, calls[i].l);
    }
  }

  lemma {:induction false} LeadsIsChain<A, L>(calls: seq<Call<A, L>>, a: A, b: A, n: nat)
    ensures Leads(calls, a, b, n) <==> Chain(AfterRun(calls), a, n) == Some(b)
    decreases n
  {
    hide Leads, Chain, Next, AfterRun;
    if n == 0 {
      NoStep(calls, a, b);
    } else {
      FirstStep(calls, a, b, n);
      ChainFirst(AfterRun(calls), a, n);
      if Next(AfterRun(calls), a).Some? {
        LeadsIsChain(calls, Next(AfterRun(calls), a).value, b, n - 1);
      }
    }
  }

  lemma NoStep<A, L>(calls: seq<Call<A, L>>, a: A, b: A)
    ensures Leads(calls, a, b, 0) <==> Chain(AfterRun(calls), a, 0) == Some(b)
  {
  }

  lemma ChainFirst<A, L>(g: Graph<A, L>, a: A, n: nat)
    requires n > 0
    ensures Chain(g, a, n) == if Next(g, a).Some? then Chain(g, Next(g, a).value, n - 1) else None
  {
    assert Chain(g, a, 0) == Some(a) && Chain(g, a, 1) == Next(g, a);
    if Next(g, a).Some? {
      ChainCompose(g, a, 1, Next(g, a).value, n - 1);
    } else {
      ChainOver(g, a, 1, n);
    }
  }

  lemma CycleIsCycle<A, L>(calls: seq<Call<A, L>>)
    ensures Cycle(calls) <==> !Acyclic(AfterRun(calls))
  {
    var g := AfterRun(calls);
    if Cycle(calls) {
      var i, n: nat :| 0 <= i < |calls| && n > 0 && Leads(calls, calls[i].a, calls[i].a, n);
      LeadsIsChain(calls, calls[i].a, calls[i].a, n);
      FirstStep(calls, calls[i].a, calls[i].a, n);
    }
    if !Acyclic(g) {
      var a, n: nat :| a in g.waiting && n > 0 && Chain(g, a, n) == Some(a);
      LeadsIsChain(calls, a, a, n);
      WaitIs(calls, a);
      var i :| WaitAt(calls, i, a);
      assert Leads(calls, calls[i].a, calls[i].a, n);
    }
  }

  // ---------------------------------------------------------------- the answers

  /** What each entry point must answer, by the calls made before. */
  ghost predicate Answered<A, L>(calls: seq<Call<A, L>>, c: Call<A, L>, r: Outcome) {
    match c
    case Wait(a, l) =>
      if Waiting(calls, a) then r == AlreadyWaiting else r == if Cycle(calls + [c]) then Deadlock else Done
    case Acquire(a, l) =>
      if !Waits(calls, a, l) then r == NotWaitingForIt else r == if Held(calls, l) then StillHeld else Done
    case Release(a, l) =>
      if Waiting(calls, a) then r == AlreadyWaiting else r == if Holds(calls, l, a) then Done else NotHolder
  }

  /** Sound and complete over every run: while every call has returned there is no cycle, and the next answer is right. */
  lemma AnsweredByHistory<A, L>(calls: seq<Call<A, L>>, c: Call<A, L>)
    requires AllDone(calls)
    ensures !Cycle(calls) && Answered(calls, c, Answer(AfterRun(calls), c))
  {
    RunAcyclic(calls);
    CycleIsCycle(calls);
    WaitIs(calls, c.a);
    HolderIs(calls, c.l);
    if c.Wait? && c.a !in AfterRun(calls).waiting {
      assert (calls + [c])[..|calls|] == calls;
      WaitClosesCycle(AfterRun(calls), c.a, c.l);
      CycleIsCycle(calls + [c]);
    }
  }

  lemma OneMore<A, L>(calls: seq<Call<A, L>>, c: Call<A, L>)
    requires AllDone(calls) && Answer(AfterRun(calls), c) == Done
    ensures var more := calls + [c];
            AllDone(more) && AfterRun(more) == Apply(AfterRun(calls), c) && Acyclic(AfterRun(more))
  {
    assert (calls + [c])[..|calls|] == calls;
    RunAcyclic(calls + [c]);
  }

  /** Two actors that take two locks in opposite orders: the second wait is reported. */
  lemma CrossedLocks<A, L>(a: A, b: A, x: L, y: L)
    requires a != b && x != y
    ensures var calls := [Wait(a, x), Acquire(a, x), Wait(b, y), Acquire(b, y), Wait(a, y)];
            AllDone(calls) && Answer(AfterRun(calls), Wait(b, x)) == Deadlock
  {
    var c0: seq<Call<A, L>> := [];
    assert AllDone(c0) && AfterRun(c0) == Graph(map[], map[]);
    hide AllDone, AfterRun;
    OneMore(c0, Wait(a, x));
    OneMore([Wait(a, x)], Acquire(a, x));
    var c2 := [Wait(a, x), Acquire(a, x)];
    assert c0 + [Wait(a, x)] == [Wait(a, x)] && [Wait(a, x)] + [Acquire(a, x)] == c2;
    assert AfterRun(c2) == Graph(map[], map[x := a]);
    OneMore(c2, Wait(b, y));
    OneMore(c2 + [Wait(b, y)], Acquire(b, y));
    var c4 := [Wait(a, x), Acquire(a, x), Wait(b, y), Acquire(b, y)];
    assert c2 + [Wait(b, y)] + [Acquire(b, y)] == c4;
    assert AfterRun(c4) == Graph(map[], map[x := a, y := b]);
    NoWayBack(AfterRun(c4), b, a);
    OneMore(c4, Wait(a, y));
    assert c4 + [Wait(a, y)] == [Wait(a, x), Acquire(a, x), Wait(b, y), Acquire(b, y), Wait(a, y)];
    var g := Graph(map[a := y], map[x := a, y := b]);
    assert AfterRun(c4 + [Wait(a, y)]) == g;
    assert Chain(g, a, 0) == Some(a) && Chain(g, a, 1) == Some(b);
  }

  /** An actor that waits for nothing reaches only itself. */
  lemma NoWayBack<A, L>(g: Graph<A, L>, b: A, a: A)
    requires b !in g.waiting && a != b
    ensures !Reaches(g, b, a)
  {
    if n: nat :| Chain(g, b, n) == Some(a) {
      assert Chain(g, b, 0) == Some(b) && Chain(g, b, 1) == None;
      ChainOver(g, b, 1, n);
    }
  }
}
