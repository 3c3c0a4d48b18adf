/** The deadlock detector on its own records: actors, lockables, and the search along the holders. */
module Hangman {
  import opened Prelude
  import opened WaitsFor

  class Actor {
    var waiting: Lockable?

    constructor ()
      ensures waiting == null
    {
      waiting := null;
    }
  }

  class Lockable {
    var holding: Actor?

    constructor ()
      ensures holding == null
    {
      holding := null;
    }
  }

  /** All actors and lockables known to the detector. */
  class Detector {
    ghost var actors: set<Actor>
    ghost var locks: set<Lockable>

    ghost predicate Closed()
      reads this, actors, locks
    {
      && (forall a :: a in actors && a.waiting != null ==> a.waiting in locks)
      && (forall l :: l in locks && l.holding != null ==> l.holding in actors)
    }

    ghost function View(): Graph<Actor, Lockable>
      reads this, actors, locks
    {
      Graph(map a | a in actors && a.waiting != null :: a.waiting, map l | l in locks && l.holding != null :: l.holding)
    }

    ghost predicate Valid()
      reads this, actors, locks
    {
      Closed() && Acyclic(View())
    }

    constructor ()
      ensures Valid() && View() == Graph(map[], map[])
    {
      actors, locks := {}, {};
      new;
      RunAcyclic<Actor, Lockable>([]);
    }

    /** HANGMAN_ACTORINIT: a new actor waits for nothing. */
    method AddActor(a: Actor)
      requires Valid() && a !in actors && a.waiting == null
      modifies this
      ensures Valid() && actors == old(actors) + {a} && locks == old(locks) && View() == old(View())
    {
      ghost var g := View();
      actors := actors + {a};
      assert View() == g;
    }

    /** HANGMAN_LOCKABLEINIT: a new lockable is held by nobody. */
    method AddLockable(l: Lockable)
      requires Valid() && l !in locks && l.holding == null
      modifies this
      ensures Valid() && locks == old(locks) + {l} && actors == old(actors) && View() == old(View())
    {
      ghost var g := View();
      locks := locks + {l};
      assert View() == g;
    }

    /** hangman_check: terminates, and finds the path exactly when there is one. */
    method Check(start: Lockable, target: Actor) returns (found: bool)
      requires Valid() && start in locks && target in actors
      ensures found <==> start.holding != null && Reaches(View(), start.holding, target)
    {
      ghost var g := View();
      var cur := start.holding;
      if cur == null {
        return false;
      }
      ghost var h: Actor := cur;
      ghost var n: nat := 0;
      while cur != null
        invariant cur != null ==> cur in actors && Chain(g, h, n) == Some(cur)
        invariant cur == null ==> Chain(g, h, n) == None
        invariant forall k: nat :: k < n ==> Chain(g, h, k) != Some(target)
        decreases cur != null, |g.waiting| + 1 - n
      {
        if cur == target {
          return true;
        }
        ChainBound(g, h, n);
        n := n + 1;
        if cur.waiting == null {
          break;
        }
        cur := cur.waiting.holding;
      }
      forall m: nat | true ensures Chain(g, h, m) != Some(target) {
        if m >= n {
          ChainOver(g, h, n, m);
        }
      }
      found := false;
    }

    /** hangman_wait. */
    method Wait(a: Actor, l: Lockable) returns (r: Outcome)
      requires Valid() && a in actors && l in locks
      modifies a
      ensures r == Answer(old(View()), Call.Wait(a, l))
      ensures r == Done ==> Valid() && View() == AddWait(old(View()), a, l)
      ensures r != Done ==> Valid() && View() == old(View())
    {
      ghost var g := View();
      if a.waiting != null {
        return AlreadyWaiting;
      }
      var found := Check(l, a);
      if found {
        return Deadlock;
      }
      WaitKeepsAcyclic(g, a, l);
      a.waiting := l;
      assert View() == AddWait(g, a, l);
      r := Done;
    }

    /** hangman_acquire. */
    method Acquire(a: Actor, l: Lockable) returns (r: Outcome)
      requires Valid() && a in actors && l in locks
      modifies a, l
      ensures r == Answer(old(View()), Call.Acquire(a, l))
      ensures r == Done ==> Valid() && View() == Acquired(old(View()), a, l)
      ensures r != Done ==> Valid() && View() == old(View())
    {
      ghost var g := View();
      if a.waiting != l {
        return NotWaitingForIt;
      }
      if l.holding != null {
        return StillHeld;
      }
      AcquireKeepsAcyclic(g, a, l);
      l.holding := a;
      a.waiting := null;
      assert View() == Acquired(g, a, l);
      r := Done;
    }

    /** hangman_release. */
    method Release(a: Actor, l: Lockable) returns (r: Outcome)
      requires Valid() && a in actors && l in locks
      modifies l
      ensures r == Answer(old(View()), Call.Release(a, l))
      ensures r == Done ==> Valid() && View() == Released(old(View()), l)
      ensures r != Done ==> Valid() && View() == old(View())
    {
      ghost var g := View();
      if a.waiting != null {
        return AlreadyWaiting;
      }
      if l.holding != a {
        return NotHolder;
      }
      ReleaseKeepsAcyclic(g, l);
      l.holding := null;
      assert View() == Released(g, l);
      r := Done;
    }
  }
}
