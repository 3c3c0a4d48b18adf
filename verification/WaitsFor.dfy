/**
 The waits-for graph of the deadlock detector (kern/thread/hangman.c) as a value: which lockable each
 actor waits for, and which actor holds each lockable. An actor waits for at most one thing and a
 lockable has at most one holder, so from every actor there is at most one way on.
 */
module WaitsFor {
  import opened Prelude

  datatype Graph<!A, !L> = Graph(waiting: map<A, L>, holding: map<L, A>)

  /** The actor that a waits for. */
  function Next<A, L>(g: Graph<A, L>, a: A): Option<A> {
    if a in g.waiting && g.waiting[a] in g.holding then Some(g.holding[g.waiting[a]]) else None
  }

  /** The n-th actor on the way from a. */
  function Chain<A, L>(g: Graph<A, L>, a: A, n: nat): Option<A> {
    if n == 0 then Some(a) else match Chain(g, a, n - 1) case None => None case Some(b) => Next(g, b)
  }

  ghost predicate Reaches<A, L>(g: Graph<A, L>, a: A, b: A) {
    exists n: nat :: Chain(g, a, n) == Some(b)
  }

  /** No actor waits, directly or indirectly, for itself. */
  ghost predicate Acyclic<A, L>(g: Graph<A, L>) {
    forall a, n: nat :: a in g.waiting && n > 0 ==> Chain(g, a, n) != Some(a)
  }

  function AddWait<A, L>(g: Graph<A, L>, a: A, l: L): Graph<A, L> { g.(waiting := g.waiting[a := l]) }

  function Acquired<A, L>(g: Graph<A, L>, a: A, l: L): Graph<A, L> {
    Graph(g.waiting - {a}, g.holding[l := a])
  }

  function Released<A, L>(g: Graph<A, L>, l: L): Graph<A, L> { g.(holding := g.holding - {l}) }

  // ---------------------------------------------------------------- chains

  lemma {:induction false} ChainCompose<A, L>(g: Graph<A, L>, a: A, k: nat, b: A, m: nat)
    requires Chain(g, a, k) == Some(b)
    ensures Chain(g, b, m) == Chain(g, a, k + m)
  {
    if m > 0 {
      ChainCompose(g, a, k, b, m - 1);
    }
  }

  lemma {:induction false} ChainPrefix<A, L>(g: Graph<A, L>, a: A, k: nat, n: nat)
    requires k <= n && Chain(g, a, n).Some?
    ensures Chain(g, a, k).Some?
  {
    if k < n {
      ChainPrefix(g, a, k, n - 1);
    }
  }

  /** Chains agree while every actor on the way has the same next actor in both graphs. */
  lemma {:induction false} ChainSame<A, L>(g: Graph<A, L>, g': Graph<A, L>, a: A, n: nat)
    requires forall k: nat, b :: k < n && Chain(g, a, k) == Some(b) ==> Next(g', b) == Next(g, b)
    ensures Chain(g', a, n) == Chain(g, a, n)
  {
    if n > 0 {
      ChainSame(g, g', a, n - 1);
    }
  }

  // ---------------------------------------------------------------- waiting

  /**
   The detector's question, answered both ways: the new wait closes a cycle exactly when the
   lockable's holder already waits, however indirectly, for the actor.
   */
  lemma WaitClosesCycle<A, L>(g: Graph<A, L>, a: A, l: L)
    requires Acyclic(g) && a !in g.waiting
    ensures Acyclic(AddWait(g, a, l)) <==> !(l in g.holding && Reaches(g, g.holding[l], a))
  {
    if l in g.holding && Reaches(g, g.holding[l], a) {
      var h := g.holding[l];
      var n: nat :| Chain(g, h, n) == Some(a);
      WaitMakesCycle(g, a, l, h, n);
    } else {
      WaitKeepsAcyclic(g, a, l);
    }
  }

  lemma WaitMakesCycle<A, L>(g: Graph<A, L>, a: A, l: L, h: A, n: nat)
    requires a !in g.waiting && l in g.holding && g.holding[l] == h && Chain(g, h, n) == Some(a)
    ensures !Acyclic(AddWait(g, a, l))
  {
    var g' := AddWait(g, a, l);
    var m := FirstAt(g, h, a, n);
    ChainSame(g, g', h, m);
    assert Chain(g', a, 0) == Some(a) && Chain(g', a, 1) == Some(h);
    ChainCompose(g', a, 1, h, m);
    assert Chain(g', a, 1 + m) == Some(a);
  }

  /** The first time the chain reaches a. */
  lemma {:induction false} FirstAt<A, L>(g: Graph<A, L>, h: A, a: A, n: nat) returns (m: nat)
    requires Chain(g, h, n) == Some(a)
    ensures m <= n && Chain(g, h, m) == Some(a) && forall k: nat :: k < m ==> Chain(g, h, k) != Some(a)
  {
    if k: nat :| k < n && Chain(g, h, k) == Some(a) {
      m := FirstAt(g, h, a, k);
    } else {
      m := n;
    }
  }

  lemma WaitKeepsAcyclic<A, L>(g: Graph<A, L>, a: A, l: L)
    requires Acyclic(g) && a !in g.waiting && !(l in g.holding && Reaches(g, g.holding[l], a))
    ensures Acyclic(AddWait(g, a, l))
  {
    var g' := AddWait(g, a, l);
    forall x, n: nat | x in g'.waiting && n > 0 && Chain(g', x, n) == Some(x) ensures false {
      assert Chain(g', x, 0) == Some(x);
      if k: nat :| k < n && Chain(g', x, k) == Some(a) {
        NewCycle(g, a, l, x, n, k);
      } else {
        ChainSame(g', g, x, n);
      }
    }
  }

  /** A cycle through the new edge leads from the holder back to a without it. */
  lemma NewCycle<A, L>(g: Graph<A, L>, a: A, l: L, x: A, n: nat, k: nat)
    requires a !in g.waiting && k < n
    requires Chain(AddWait(g, a, l), x, n) == Some(x) && Chain(AddWait(g, a, l), x, k) == Some(a)
    ensures l in g.holding && Reaches(g, g.holding[l], a)
  {
    var g' := AddWait(g, a, l);
    ChainPrefix(g', x, k + 1, n);
    var h := g.holding[l];
    assert Chain(g', x, k + 1) == Some(h);
    ChainCompose(g', x, k + 1, h, n - (k + 1));
    ChainCompose(g', h, n - (k + 1), x, k);
    var m := FirstAt(g', h, a, n - (k + 1) + k);
    ChainSame(g', g, h, m);
  }

  // ---------------------------------------------------------------- acquiring and releasing

  lemma AcquireKeepsAcyclic<A, L>(g: Graph<A, L>, a: A, l: L)
    requires Acyclic(g) && a in g.waiting && g.waiting[a] == l && l !in g.holding
    ensures Acyclic(Acquired(g, a, l))
  {
    var g' := Acquired(g, a, l);
    forall x, n: nat | x in g'.waiting && n > 0 && Chain(g', x, n) == Some(x) ensures false {
      OnCycle(g', x, n, a);
      forall k: nat, b | k < n && Chain(g', x, k) == Some(b) ensures Next(g, b) == Next(g', b) {
        ChainPrefix(g', x, k + 1, n);
        NextOnCycle(g', x, n, k, a);
      }
      ChainSame(g', g, x, n);
    }
  }

  /** An actor that waits for nobody is on no cycle. */
  lemma OnCycle<A, L>(g: Graph<A, L>, x: A, n: nat, a: A)
    requires n > 0 && Chain(g, x, n) == Some(x) && Next(g, a) == None
    ensures forall k: nat :: k < n ==> Chain(g, x, k) != Some(a)
  {
    forall k: nat | k < n ensures Chain(g, x, k) != Some(a) {
      ChainPrefix(g, x, k + 1, n);
    }
  }

  lemma NextOnCycle<A, L>(g: Graph<A, L>, x: A, n: nat, k: nat, a: A)
    requires n > 0 && Chain(g, x, n) == Some(x) && k < n && Next(g, a) == None
    ensures Chain(g, x, k + 1) != Some(a)
  {
    OnCycle(g, x, n, a);
    assert Chain(g, x, 0) == Some(x);
  }

  lemma ReleaseKeepsAcyclic<A, L>(g: Graph<A, L>, l: L)
    requires Acyclic(g)
    ensures Acyclic(Released(g, l))
  {
    var g' := Released(g, l);
    forall x, n: nat | x in g'.waiting && n > 0 && Chain(g', x, n) == Some(x) ensures false {
      forall k: nat, b | k < n && Chain(g', x, k) == Some(b) ensures Next(g, b) == Next(g', b) {
        ChainPrefix(g', x, k + 1, n);
      }
      ChainSame(g', g, x, n);
    }
  }

  // ---------------------------------------------------------------- somebody can always go on

  /** On an acyclic graph the actors on a chain are all different. */
  lemma ChainNoRepeat<A, L>(g: Graph<A, L>, a: A, j: nat, k: nat, b: A)
    requires Acyclic(g) && j < k && Chain(g, a, j) == Some(b)
    ensures Chain(g, a, k) != Some(b)
  {
    ChainCompose(g, a, j, b, k - j);
    if Chain(g, a, k) == Some(b) {
      assert Chain(g, b, 0) == Some(b);
      ChainPrefix(g, b, 1, k - j);
    }
  }

  ghost predicate Passed<A, L>(g: Graph<A, L>, a: A, k: nat, x: A) {
    exists j: nat :: j < k && Chain(g, a, j) == Some(x)
  }

  /** Every actor passed so far waits, and they are all different, so there are no more than wait. */
  lemma ChainBound<A, L>(g: Graph<A, L>, a: A, n: nat)
    requires Acyclic(g) && Chain(g, a, n).Some?
    ensures n <= |g.waiting|
  {
    var seen: set<A>, k := {}, 0;
    while k < n
      invariant k <= n && |seen| == k && seen <= g.waiting.Keys
      invariant forall x :: x in seen ==> Passed(g, a, k, x)
    {
      ChainPrefix(g, a, k + 1, n);
      var b := Chain(g, a, k).value;
      if b in seen {
        var j: nat :| j < k && Chain(g, a, j) == Some(b);
        ChainNoRepeat(g, a, j, k, b);
        assert false;
      }
      forall x | x in seen + {b} ensures Passed(g, a, k + 1, x) {
        if x in seen {
          var j: nat :| j < k && Chain(g, a, j) == Some(x);
        }
      }
      seen, k := seen + {b}, k + 1;
    }
    SubsetSize(seen, g.waiting.Keys);
  }

  /** After the chain has ended it stays ended. */
  lemma {:induction false} ChainOver<A, L>(g: Graph<A, L>, a: A, n: nat, m: nat)
    requires n <= m && Chain(g, a, n) == None
    ensures Chain(g, a, m) == None
  {
    if n < m {
      ChainOver(g, a, n, m - 1);
    }
  }

  /** From every actor the chain ends, at one that runs or waits for a lockable nobody holds: no deadlock. */
  lemma {:induction false} ChainEnds<A, L>(g: Graph<A, L>, a: A, n: nat) returns (m: nat, b: A)
    requires Acyclic(g) && Chain(g, a, n).Some?
    ensures n <= m <= |g.waiting| && Chain(g, a, m) == Some(b) && Next(g, b) == None
    decreases |g.waiting| - n
  {
    ChainBound(g, a, n);
    m, b := n, Chain(g, a, n).value;
    if Next(g, b).Some? {
      ChainBound(g, a, n + 1);
      m, b := ChainEnds(g, a, n + 1);
    }
  }

  // ---------------------------------------------------------------- runs

  datatype Call<A, L> = Wait(a: A, l: L) | Acquire(a: A, l: L) | Release(a: A, l: L)

  datatype Outcome = Done | AlreadyWaiting | Deadlock | NotWaitingForIt | StillHeld | NotHolder

  /** What each entry point answers, and the graph it leaves. */
  ghost function Answer<A, L>(g: Graph<A, L>, c: Call<A, L>): Outcome {
    match c
    case Wait(a, l) =>
      if a in g.waiting then AlreadyWaiting
      else if l in g.holding && Reaches(g, g.holding[l], a) then Deadlock
      else Done
    case Acquire(a, l) =>
      if a !in g.waiting || g.waiting[a] != l then NotWaitingForIt
      else if l in g.holding then StillHeld
      else Done
    case Release(a, l) =>
      if a in g.waiting then AlreadyWaiting
      else if l !in g.holding || g.holding[l] != a then NotHolder
      else Done
  }

  function Apply<A, L>(g: Graph<A, L>, c: Call<A, L>): Graph<A, L> {
    match c
    case Wait(a, l) => AddWait(g, a, l)
    case Acquire(a, l) => Acquired(g, a, l)
    case Release(a, l) => Released(g, l)
  }

  lemma CallKeepsAcyclic<A, L>(g: Graph<A, L>, c: Call<A, L>)
    requires Acyclic(g) && Answer(g, c) == Done
    ensures Acyclic(Apply(g, c))
  {
    match c
    case Wait(a, l) => WaitKeepsAcyclic(g, a, l);
    case Acquire(a, l) => AcquireKeepsAcyclic(g, a, l);
    case Release(a, l) => ReleaseKeepsAcyclic(g, l);
  }

  ghost function AfterRun<A, L>(calls: seq<Call<A, L>>): Graph<A, L> {
    if calls == [] then Graph(map[], map[]) else Apply(AfterRun(calls[..|calls| - 1]), calls[|calls| - 1])
  }

  /** Every call so far returned. */
  ghost predicate AllDone<A, L>(calls: seq<Call<A, L>>) {
    calls == [] ||
    (AllDone(calls[..|calls| - 1]) && Answer(AfterRun(calls[..|calls| - 1]), calls[|calls| - 1]) == Done)
  }

  lemma {:induction false} RunAcyclic<A, L>(calls: seq<Call<A, L>>)
    requires AllDone(calls)
    ensures Acyclic(AfterRun(calls))
  {
    if calls == [] {
      var g: Graph<A, L> := AfterRun(calls);
      forall a, n: nat | n > 0 ensures Chain(g, a, n) != Some(a) {
        EmptyChain(g, a, n);
      }
    } else {
      RunAcyclic(calls[..|calls| - 1]);
      CallKeepsAcyclic(AfterRun(calls[..|calls| - 1]), calls[|calls| - 1]);
    }
  }

  lemma {:induction false} EmptyChain<A, L>(g: Graph<A, L>, a: A, n: nat)
    requires g == Graph(map[], map[]) && n > 0
    ensures Chain(g, a, n) == None
  {
    if n > 1 {
      EmptyChain(g, a, n - 1);
    } else {
      assert Chain(g, a, 0) == Some(a);
    }
  }

  /**
   Sound and complete over every run: while no call has panicked no set of actors is deadlocked, and
   the next wait is reported as a deadlock exactly when it would make one.
   */
  lemma DeadlockReportedExactly<A, L>(calls: seq<Call<A, L>>, a: A, l: L)
    requires AllDone(calls) && a !in AfterRun(calls).waiting
    ensures Acyclic(AfterRun(calls))
    ensures Answer(AfterRun(calls), Wait(a, l)) == Deadlock <==> !Acyclic(AddWait(AfterRun(calls), a, l))
  {
    RunAcyclic(calls);
    WaitClosesCycle(AfterRun(calls), a, l);
  }
}
