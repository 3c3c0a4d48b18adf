/**
 The scheduler over whole runs: where a thread is and which thread a CPU runs, told from the steps made so far; which
 queues keep the order in which threads joined them; and that an idle CPU with work gets to run it.
 */
module SchedHistory {
  import opened Prelude
  import opened Sched
  import opened SchedInvariant

  /** A run from boot: states[k + 1] is what step k leaves. */
  ghost predicate IsRun(states: seq<State>, ops: seq<Op>) {
    |states| == |ops| + 1 && Initial(states[0]) && forall k :: 0 <= k < |ops| ==> IsStep(states, ops, k)
  }

  predicate IsStep(states: seq<State>, ops: seq<Op>, k: nat)
    requires k < |ops| && k + 1 < |states|
  {
    Enabled(states[k], ops[k]) && states[k + 1] == Apply(states[k], ops[k])
  }

  lemma {:induction false} RunInv(states: seq<State>, ops: seq<Op>, k: nat)
    requires IsRun(states, ops) && k <= |ops|
    ensures Inv(states[k])
  {
    hide Inv, Enabled, Apply, Initial;
    if k == 0 {
      InitialOk(states[0]);
    } else {
      RunInv(states, ops, k - 1);
      assert IsStep(states, ops, k - 1);
      StepOk(states[k - 1], ops[k - 1]);
    }
  }

  // ---------------------------------------------------------------- where a thread is

  /** A thread leaves one list for another; none before thread_fork, while it runs, and after exorcise. */
  datatype Move = Move(t: nat, from: Option<Place>, to: Option<Place>)

  function First(s: State, p: Place): nat { if Listed(s, p) != [] then Listed(s, p)[0] else 0 }

  function Last(s: State, p: Place): nat { if Listed(s, p) != [] then Listed(s, p)[|Listed(s, p)| - 1] else 0 }

  function Current(s: State, c: nat): nat { if c < |s.cpus| then s.cpus[c].cur else 0 }

  function CpuOf(s: State, t: nat): nat { if t in s.threads then s.threads[t].cpu else 0 }

  /** The thread that goes from the head of one list to another. */
  function HeadMove(s: State, from: Place, to: Place): Option<Move> { Some(Move(First(s, from), Some(from), Some(to))) }

  /** Which thread a step moves, from where and to where. */
  function MoveOf(s: State, op: Op): Option<Move> {
    match op
    case Yield(c) => Some(Move(Current(s, c), None, Some(Runq(c))))
    case SleepOn(c, w) => Some(Move(Current(s, c), None, Some(Chan(w))))
    case Exit(c) => Some(Move(Current(s, c), None, Some(Zombies(c))))
    case Pick(c) => Some(Move(First(s, Runq(c)), Some(Runq(c)), None))
    case Bury(c) => Some(Move(First(s, Zombies(c)), Some(Zombies(c)), None))
    case Fork(c, t) => Some(Move(t, None, Some(Newborn(Current(s, c)))))
    case Launch(c) => HeadMove(s, Newborn(Current(s, c)), Runq(CpuOf(s, First(s, Newborn(Current(s, c))))))
    case Grab(c, w) => HeadMove(s, Chan(w), Woken(c))
    case Wake(c) => HeadMove(s, Woken(c), Runq(CpuOf(s, First(s, Woken(c)))))
    case MigTake(c) => Some(Move(Last(s, Runq(c)), Some(Runq(c)), Some(Victims(c))))
    case MigSend(c, d) => HeadMove(s, Victims(c), Runq(d))
    case MigReturn(c) => HeadMove(s, Victims(c), Runq(c))
    case _ => None
  }

  predicate Movers(s: State, op: Op, t: nat) { MoveOf(s, op).Some? && MoveOf(s, op).value.t == t }

  /** The list a thread is on, by the last step that moved it. */
  function PlaceOf(states: seq<State>, ops: seq<Op>, t: nat, k: nat): Option<Place>
    requires k <= |ops| < |states|
  {
    if k == 0 then None
    else if Movers(states[k - 1], ops[k - 1], t) then MoveOf(states[k - 1], ops[k - 1]).value.to
    else PlaceOf(states, ops, t, k - 1)
  }

  function PlaceIn(s: State, t: nat): Option<Place> { if t in s.place then Some(s.place[t]) else None }

  /** A step moves its thread from where it is to where it goes, and no other. */
  lemma PlaceStep(s: State, op: Op, t: nat)
    requires Inv(s) && Enabled(s, op)
    ensures Movers(s, op, t) ==> PlaceIn(s, t) == MoveOf(s, op).value.from && PlaceIn(Apply(s, op), t) == MoveOf(s, op).value.to
    ensures !Movers(s, op, t) ==> PlaceIn(Apply(s, op), t) == PlaceIn(s, t)
  {
    if op.Yield? || op.SleepOn? || op.Exit? || op.Fork? {
      PlaceLeaving(s, op, t);
    } else if op.MigTake? {
      PlaceTaken(s, op, t);
    } else if op.Pick? || op.Bury? {
      PlaceEnded(s, op, t);
    } else if op.Launch? || op.Wake? {
      PlaceWoken(s, op, t);
    } else if !Quiet(op) {
      PlaceSent(s, op, t);
    } else {
      PlaceQuiet(s, op, t);
    }
    hide Inv, Apply, Enabled, MoveOf;
  }

  lemma PlaceQuiet(s: State, op: Op, t: nat)
    requires Enabled(s, op) && Quiet(op)
    ensures !Movers(s, op, t) && PlaceIn(Apply(s, op), t) == PlaceIn(s, t)
  {
  }

  lemma PlaceLeaving(s: State, op: Op, t: nat)
    requires Inv(s) && Enabled(s, op) && (op.Yield? || op.SleepOn? || op.Exit? || op.Fork?)
    ensures Movers(s, op, t) ==> PlaceIn(s, t) == MoveOf(s, op).value.from && PlaceIn(Apply(s, op), t) == MoveOf(s, op).value.to
    ensures !Movers(s, op, t) ==> PlaceIn(Apply(s, op), t) == PlaceIn(s, t)
  {
    CpuIs(s, op.c);
    assert ThreadOk(s, s.cpus[op.c].cur);
    hide ListsAgree;
  }

  lemma PlaceTaken(s: State, op: Op, t: nat)
    requires Inv(s) && Enabled(s, op) && op.MigTake?
    ensures Movers(s, op, t) ==> PlaceIn(s, t) == MoveOf(s, op).value.from && PlaceIn(Apply(s, op), t) == MoveOf(s, op).value.to
    ensures !Movers(s, op, t) ==> PlaceIn(Apply(s, op), t) == PlaceIn(s, t)
  {
    QueueLasts(s, op.c);
    RemTailAgree(s, Runq(op.c));
    hide Inv, ListsAgree;
  }

  lemma PlaceEnded(s: State, op: Op, t: nat)
    requires Inv(s) && Enabled(s, op) && (op.Pick? || op.Bury?)
    ensures Movers(s, op, t) ==> PlaceIn(s, t) == MoveOf(s, op).value.from && PlaceIn(Apply(s, op), t) == MoveOf(s, op).value.to
    ensures !Movers(s, op, t) ==> PlaceIn(Apply(s, op), t) == PlaceIn(s, t)
  {
    RemHeadAgree(s, if op.Pick? then Runq(op.c) else Zombies(op.c));
    hide Inv, ListsAgree;
  }

  /** The list from whose head an operation takes a thread for another list. */
  function TakenFrom(s: State, op: Op): Place {
    match op
    case Launch(c) => Newborn(Current(s, c))
    case Grab(_, w) => Chan(w)
    case Wake(c) => Woken(c)
    case _ => Victims(op.c)
  }

  lemma PlaceWoken(s: State, op: Op, t: nat)
    requires Inv(s) && Enabled(s, op)
    requires op.Launch? || op.Wake?
    ensures Movers(s, op, t) ==> PlaceIn(s, t) == MoveOf(s, op).value.from && PlaceIn(Apply(s, op), t) == MoveOf(s, op).value.to
    ensures !Movers(s, op, t) ==> PlaceIn(Apply(s, op), t) == PlaceIn(s, t)
  {
    RemHeadAgree(s, TakenFrom(s, op));
    hide Inv, ListsAgree;
  }

  lemma PlaceSent(s: State, op: Op, t: nat)
    requires Inv(s) && Enabled(s, op)
    requires op.Grab? || op.MigSend? || op.MigSkip? || op.MigReturn?
    ensures Movers(s, op, t) ==> PlaceIn(s, t) == MoveOf(s, op).value.from && PlaceIn(Apply(s, op), t) == MoveOf(s, op).value.to
    ensures !Movers(s, op, t) ==> PlaceIn(Apply(s, op), t) == PlaceIn(s, t)
  {
    RemHeadAgree(s, TakenFrom(s, op));
    hide Inv, ListsAgree;
  }

  /** In every reachable state a thread is on the list that the last step moving it put it on, and on no other. */
  lemma {:induction false} WhereIs(states: seq<State>, ops: seq<Op>, t: nat, k: nat, p: Place)
    requires IsRun(states, ops) && k <= |ops|
    ensures t in Listed(states[k], p) <==> PlaceOf(states, ops, t, k) == Some(p)
  {
    RunInv(states, ops, k);
    PlaceIs(states, ops, t, k);
  }

  lemma {:induction false} PlaceIs(states: seq<State>, ops: seq<Op>, t: nat, k: nat)
    requires IsRun(states, ops) && k <= |ops|
    ensures PlaceIn(states[k], t) == PlaceOf(states, ops, t, k)
  {
    hide Inv, Enabled, Apply, MoveOf;
    if k > 0 {
      PlaceIs(states, ops, t, k - 1);
      RunInv(states, ops, k - 1);
      assert IsStep(states, ops, k - 1);
      PlaceStep(states[k - 1], ops[k - 1], t);
    }
  }

  // ---------------------------------------------------------------- asleep until woken, dead until buried

  /** Step j takes t off p. */
  predicate TakesOff(states: seq<State>, ops: seq<Op>, j: nat, t: nat, p: Place)
    requires j < |ops| && j < |states|
  {
    Movers(states[j], ops[j], t) && MoveOf(states[j], ops[j]).value.from == Some(p)
  }

  /** A thread leaves the list it is on only by a step that takes it off that list. */
  lemma {:induction false} StaysUntilTaken(states: seq<State>, ops: seq<Op>, t: nat, p: Place, i: nat, k: nat)
    requires IsRun(states, ops) && i <= k <= |ops| && t in Listed(states[i], p)
    ensures t in Listed(states[k], p) || exists j :: i <= j < k && TakesOff(states, ops, j, t, p)
    decreases k
  {
    hide Inv, MoveOf, Enabled, Apply, Initial;
    if i < k {
      StaysUntilTaken(states, ops, t, p, i, k - 1);
      WhereIs(states, ops, t, k, p);
      WhereIs(states, ops, t, k - 1, p);
      if t in Listed(states[k - 1], p) && t !in Listed(states[k], p) {
        assert IsStep(states, ops, k - 1) && Inv(states[k - 1]) by { StepFacts(states, ops, k - 1); }
        PlaceIs(states, ops, t, k - 1);
        PlaceStep(states[k - 1], ops[k - 1], t);
        assert TakesOff(states, ops, k - 1, t, p);
      }
    }
  }

  lemma StepFacts(states: seq<State>, ops: seq<Op>, k: nat)
    requires IsRun(states, ops) && k < |ops|
    ensures Inv(states[k]) && Inv(states[k + 1]) && IsStep(states, ops, k)
  {
    RunInv(states, ops, k);
    RunInv(states, ops, k + 1);
    hide Inv, Enabled, Apply;
  }

  /** Step i: CPU c runs t, which is at the head of its queue. */
  predicate Runs(states: seq<State>, ops: seq<Op>, i: nat, c: nat, t: nat)
    requires i < |ops| && i < |states|
  {
    ops[i] == Pick(c) && Listed(states[i], Runq(c)) != [] && Listed(states[i], Runq(c))[0] == t
  }

  /** A thread that is on list p before step i and runs in step k was taken off p in between. */
  lemma TakenBeforeRunning(states: seq<State>, ops: seq<Op>, t: nat, p: Place, i: nat, k: nat, c: nat) returns (j: nat)
    requires IsRun(states, ops) && i <= k < |ops| && t in Listed(states[i], p) && !p.Runq? && Runs(states, ops, k, c, t)
    ensures i <= j < k && TakesOff(states, ops, j, t, p)
  {
    WhereIs(states, ops, t, k, p);
    WhereIs(states, ops, t, k, Runq(c));
    StaysUntilTaken(states, ops, t, p, i, k);
    hide IsRun;
    assert t in Listed(states[k], Runq(c)) && p != Runq(c);
    j :| i <= j < k && TakesOff(states, ops, j, t, p);
  }

  /**
   A thread that goes to sleep on channel w does not run again before some waker has taken it off the head of w, and
   then off the head of its own list to the run queue.
   */
  lemma AsleepUntilWoken(states: seq<State>, ops: seq<Op>, t: nat, w: nat, c: nat, i: nat, k: nat, d: nat) returns (g: nat, m: nat)
    requires IsRun(states, ops) && i < k < |ops|
    requires ops[i] == SleepOn(c, w) && Current(states[i], c) == t && Runs(states, ops, k, d, t)
    ensures i < g < m < k && ops[g].Grab? && ops[g].w == w && First(states[g], Chan(w)) == t
    ensures ops[m] == Wake(ops[g].c) && First(states[m], Woken(ops[m].c)) == t
  {
    assert PlaceOf(states, ops, t, i + 1) == Some(Chan(w));
    WhereIs(states, ops, t, i + 1, Chan(w));
    hide IsRun, PlaceOf;
    g := TakenBeforeRunning(states, ops, t, Chan(w), i + 1, k, d);
    Grabbed(states, ops, t, w, g);
    m := TakenBeforeRunning(states, ops, t, Woken(ops[g].c), g + 1, k, d);
    hide IsStep, Runs;
  }

  lemma Grabbed(states: seq<State>, ops: seq<Op>, t: nat, w: nat, g: nat)
    requires IsRun(states, ops) && g < |ops| && TakesOff(states, ops, g, t, Chan(w))
    ensures ops[g].Grab? && ops[g].w == w && First(states[g], Chan(w)) == t && t in Listed(states[g + 1], Woken(ops[g].c))
  {
    assert PlaceOf(states, ops, t, g + 1) == Some(Woken(ops[g].c));
    WhereIs(states, ops, t, g + 1, Woken(ops[g].c));
  }

  /** A thread that has exited does not run again before its CPU has destroyed it. */
  lemma DeadUntilBuried(states: seq<State>, ops: seq<Op>, t: nat, c: nat, i: nat, k: nat, d: nat) returns (j: nat)
    requires IsRun(states, ops) && i < k < |ops|
    requires ops[i] == Exit(c) && Current(states[i], c) == t && Runs(states, ops, k, d, t)
    ensures i < j < k && ops[j] == Bury(c) && First(states[j], Zombies(c)) == t && t !in states[j + 1].threads
  {
    assert PlaceOf(states, ops, t, i + 1) == Some(Zombies(c));
    WhereIs(states, ops, t, i + 1, Zombies(c));
    hide PlaceOf;
    j := TakenBeforeRunning(states, ops, t, Zombies(c), i + 1, k, d);
    assert IsStep(states, ops, j);
  }

  // ---------------------------------------------------------------- queues keep their order

  /** The last step that moved t. */
  function MovedAt(states: seq<State>, ops: seq<Op>, t: nat, k: nat): (at: int)
    requires k <= |ops| < |states|
    ensures -1 <= at < k
  {
    if k == 0 then -1 else if Movers(states[k - 1], ops[k - 1], t) then k - 1 else MovedAt(states, ops, t, k - 1)
  }

  predicate InOrder(states: seq<State>, ops: seq<Op>, k: nat, l: seq<nat>)
    requires k <= |ops| < |states|
  {
    forall i, j :: 0 <= i < j < |l| ==> MovedAt(states, ops, l[i], k) < MovedAt(states, ops, l[j], k)
  }

  /** What a step does to a list other than a private list of victims: its thread joins at the tail or leaves at an end. */
  predicate EndsOnly(s: State, op: Op, p: Place)
    requires Enabled(s, op)
  {
    var l, l' := Listed(s, p), Listed(Apply(s, op), p);
    match MoveOf(s, op)
    case None => l' == l
    case Some(m) =>
      if m.from == Some(p) then l != [] && (if op.MigTake? then l' == l[..|l| - 1] && m.t == l[|l| - 1] else l' == l[1..] && m.t == l[0])
      else if m.to == Some(p) then l' == l + [m.t]
      else l' == l
  }

  lemma ListStep(s: State, op: Op, p: Place)
    requires Inv(s) && Enabled(s, op) && !p.Victims?
    ensures EndsOnly(s, op, p)
  {
    hide Inv, Apply, Enabled, EndsOnly, MoveOf;
    if op.MigTake? {
      EndTaken(s, op, p);
    } else if op.Launch? || op.Grab? || op.Wake? {
      HeadWoken(s, op, p);
    } else if op.MigSend? || op.MigSkip? || op.MigReturn? {
      VictimSent(s, op, p);
    } else if Quiet(op) {
      NothingMoves(s, op, p);
    } else {
      CurrentMoves(s, op, p);
    }
  }

  lemma EndTaken(s: State, op: Op, p: Place)
    requires Inv(s) && Enabled(s, op) && !p.Victims? && op.MigTake?
    ensures EndsOnly(s, op, p)
  {
    QueueLasts(s, op.c);
    TakeLists(s, op, p);
    hide Inv, Apply;
  }

  lemma HeadWoken(s: State, op: Op, p: Place)
    requires Enabled(s, op) && !p.Victims? && (op.Launch? || op.Grab? || op.Wake?)
    ensures EndsOnly(s, op, p)
  {
    hide QueueUnlocked;
    if op.Grab? {
      GrabLists(s, op, p);
      hide Apply;
    }
  }

  lemma VictimSent(s: State, op: Op, p: Place)
    requires Enabled(s, op) && !p.Victims? && (op.MigSend? || op.MigSkip? || op.MigReturn?)
    ensures EndsOnly(s, op, p)
  {
    SendLists(s, op, p);
    hide Apply;
  }

  lemma NothingMoves(s: State, op: Op, p: Place)
    requires Enabled(s, op) && Quiet(op)
    ensures EndsOnly(s, op, p)
  {
    QuietLists(s, op, p);
    hide Apply;
  }

  lemma CurrentMoves(s: State, op: Op, p: Place)
    requires Enabled(s, op) && (op.Yield? || op.SleepOn? || op.Exit? || op.Pick? || op.Bury? || op.Fork?)
    ensures EndsOnly(s, op, p)
  {
    if op.Pick? {
      PickLists(s, op, p);
    } else if op.Bury? {
      BuryLists(s, op, p);
    } else if op.Fork? {
      ForkLists(s, op, p);
    } else {
      LeavingLists(s, op, p);
    }
    hide Apply;
  }

  /** The thread that a step moves is not on a list that the step only takes it from, or does not touch. */
  lemma MoverGone(s: State, op: Op, p: Place)
    requires Inv(s) && Enabled(s, op) && !p.Victims? && MoveOf(s, op).Some?
    ensures var m := MoveOf(s, op).value;
            && (m.to != Some(p) ==> m.t !in Listed(Apply(s, op), p))
            && (m.to == Some(p) ==> m.t !in Listed(s, p))
  {
    var t := MoveOf(s, op).value.t;
    PlaceStep(s, op, t);
    StepOk(s, op);
    ListedMeans(s, t, p);
    ListedMeans(Apply(s, op), t, p);
    FromIsNotTo(s, op, p);
    hide Inv, Apply, Enabled, MoveOf, PlaceIn, Listed;
  }

  lemma ListedMeans(s: State, t: nat, p: Place)
    requires Inv(s)
    ensures t in Listed(s, p) <==> PlaceIn(s, t) == Some(p)
  {
  }

  lemma FromIsNotTo(s: State, op: Op, p: Place)
    requires MoveOf(s, op).Some? && !p.Victims?
    ensures MoveOf(s, op).value.to == Some(p) ==> MoveOf(s, op).value.from != Some(p)
  {
  }

  /** The threads that remain were not moved, and are in the same order. */
  lemma OrderRemains(states: seq<State>, ops: seq<Op>, k: nat, l: seq<nat>, l': seq<nat>, n: nat)
    requires k < |ops| < |states| && InOrder(states, ops, k, l) && n + |l'| <= |l| && l' == l[n..n + |l'|]
    requires forall x :: x in l' ==> !Movers(states[k], ops[k], x)
    ensures InOrder(states, ops, k + 1, l')
  {
    hide Movers;
    assert forall i :: 0 <= i < |l'| ==> l'[i] == l[n + i] && MovedAt(states, ops, l'[i], k + 1) == MovedAt(states, ops, l[n + i], k);
  }

  lemma OrderAppended(states: seq<State>, ops: seq<Op>, k: nat, l: seq<nat>, t: nat)
    requires k < |ops| < |states| && InOrder(states, ops, k, l)
    requires Movers(states[k], ops[k], t) && forall x :: x in l ==> !Movers(states[k], ops[k], x)
    ensures InOrder(states, ops, k + 1, l + [t])
  {
    hide Movers;
    assert forall i :: 0 <= i < |l| ==> (l + [t])[i] == l[i] && MovedAt(states, ops, l[i], k + 1) == MovedAt(states, ops, l[i], k);
  }

  lemma OrderStep(states: seq<State>, ops: seq<Op>, k: nat, p: Place)
    requires k < |ops| < |states| && IsStep(states, ops, k) && Inv(states[k]) && !p.Victims?
    requires InOrder(states, ops, k, Listed(states[k], p))
    ensures InOrder(states, ops, k + 1, Listed(states[k + 1], p))
  {
    var s, op := states[k], ops[k];
    ListStep(s, op, p);
    var l, l', m := Listed(s, p), Listed(states[k + 1], p), MoveOf(s, op);
    if m.Some? {
      MoverGone(s, op, p);
    }
    hide Inv, Apply, Enabled, IsStep, Listed, MoveOf, InOrder;
    if m.Some? && m.value.to == Some(p) && m.value.from != Some(p) {
      OrderAppended(states, ops, k, l, m.value.t);
    } else {
      var n := if m.Some? && m.value.from == Some(p) && !op.MigTake? then 1 else 0;
      OrderRemains(states, ops, k, l, l', n);
    }
  }

  /** In every reachable state each queue but a migration's private list is in the order in which its threads joined it. */
  lemma {:induction false} KeepsOrder(states: seq<State>, ops: seq<Op>, k: nat, p: Place)
    requires IsRun(states, ops) && k <= |ops| && !p.Victims?
    ensures InOrder(states, ops, k, Listed(states[k], p))
  {
    hide Inv, Enabled, Apply, Initial, InOrder;
    if k == 0 {
      EmptyAtFirst(states, ops, p);
    } else {
      KeepsOrder(states, ops, k - 1, p);
      StepFacts(states, ops, k - 1);
      OrderStep(states, ops, k - 1, p);
    }
  }

  lemma EmptyAtFirst(states: seq<State>, ops: seq<Op>, p: Place)
    requires |ops| < |states| && Initial(states[0])
    ensures InOrder(states, ops, 0, Listed(states[0], p))
  {
  }

  /** A CPU runs the thread that has been on its queue longest, and a waker wakes the one that has slept longest. */
  lemma LongestFirst(states: seq<State>, ops: seq<Op>, k: nat, p: Place, t: nat)
    requires IsRun(states, ops) && k < |ops| && t in Listed(states[k], p)
    requires (ops[k].Pick? && p == Runq(ops[k].c)) || (ops[k].Grab? && p == Chan(ops[k].w))
    ensures Movers(states[k], ops[k], t) <==> t == Listed(states[k], p)[0]
    ensures t != Listed(states[k], p)[0] ==> MovedAt(states, ops, Listed(states[k], p)[0], k) < MovedAt(states, ops, t, k)
  {
    KeepsOrder(states, ops, k, p);
    hide IsRun, MovedAt;
    var i :| 0 <= i < |Listed(states[k], p)| && Listed(states[k], p)[i] == t;
  }

  // ---------------------------------------------------------------- what a CPU does, by its own steps

  /** Where a CPU is in thread_switch and in a migration, and whether cpu_idle has been interrupted. */
  datatype Course = Course(phase: Phase, mig: Migration, awake: bool)

  function OneLess(mig: Migration): Migration {
    if mig.Taking? && mig.left == 1 then Sending else if mig.Taking? && mig.left > 0 then Taking(mig.left - 1) else mig
  }

  function NextCourse(op: Op, k: Course): Course {
    match op
    case Yield(_) => k.(phase := Picking)
    case SleepOn(_, _) => k.(phase := Picking)
    case Exit(_) => k.(phase := Picking)
    case GoIdle(_) => k.(phase := Idling, awake := false)
    case Interrupt(_, _) => k.(awake := k.awake || k.phase.Idling?)
    case Unidle(_) => k.(phase := Picking)
    case Pick(_) => k.(phase := Resuming)
    case Resume(_) => k.(phase := Burying)
    case BuryDone(_) => k.(phase := Running)
    case MigStart(_, n) => k.(mig := Taking(n))
    case MigTake(_) => k.(mig := OneLess(k.mig))
    case MigEnd(_) => k.(mig := NotMigrating)
    case _ => k
  }

  /** The course of CPU c, from the operations it made among the first k. */
  function CourseOf(ops: seq<Op>, c: nat, k: nat): Course
    requires k <= |ops|
  {
    if k == 0 then Course(Running, NotMigrating, false)
    else if ops[k - 1].c == c then NextCourse(ops[k - 1], CourseOf(ops, c, k - 1))
    else CourseOf(ops, c, k - 1)
  }

  function CourseIn(s: State, c: nat): Course
    requires c < |s.cpus|
  {
    Course(s.cpus[c].phase, s.cpus[c].mig, s.cpus[c].awake)
  }

  /** The thread that CPU c runs: the last one it took from the head of its queue, or the one it booted with. */
  function Runner(states: seq<State>, ops: seq<Op>, c: nat, k: nat): nat
    requires k <= |ops| < |states|
  {
    if k == 0 then Current(states[0], c)
    else if ops[k - 1] == Pick(c) then First(states[k - 1], Runq(c))
    else Runner(states, ops, c, k - 1)
  }

  /** Another CPU has put a thread on the queue of c while c was looking for one or idle. */
  predicate Kicks(s: State, op: Op, c: nat) {
    && op.c != c && c < |s.cpus| && s.cpus[c].isidle && MoveOf(s, op).Some? && MoveOf(s, op).value.to == Some(Runq(c))
  }

  /** An interrupt is pending: such a step since the last interrupt that was one. */
  function Pending(states: seq<State>, ops: seq<Op>, c: nat, k: nat): bool
    requires k <= |ops| < |states|
  {
    if k == 0 then false
    else if ops[k - 1] == Interrupt(c, true) then false
    else Kicks(states[k - 1], ops[k - 1], c) || Pending(states, ops, c, k - 1)
  }

  /** What one step does to one CPU. */
  predicate CpuMoves(s: State, op: Op, c: nat)
    requires Enabled(s, op) && c < |s.cpus|
  {
    var s' := Apply(s, op);
    && |s'.cpus| == |s.cpus|
    && CourseIn(s', c) == (if op.c == c then NextCourse(op, CourseIn(s, c)) else CourseIn(s, c))
    && s'.cpus[c].cur == (if op == Pick(c) then First(s, Runq(c)) else s.cpus[c].cur)
    && s'.cpus[c].ipi == (op != Interrupt(c, true) && (Kicks(s, op, c) || s.cpus[c].ipi))
  }

  lemma CpuStep(s: State, op: Op, c: nat)
    requires Inv(s) && Enabled(s, op) && c < |s.cpus|
    ensures CpuMoves(s, op, c)
  {
    hide Inv, Apply, Enabled, CpuMoves;
    if op.MigTake? {
      TakerMoves(s, op, c);
    } else if op.Launch? || op.Grab? || op.Wake? {
      WakerMoves(s, op, c);
    } else if op.MigSend? || op.MigSkip? || op.MigReturn? {
      SenderMoves(s, op, c);
    } else if Quiet(op) {
      QuietMoves(s, op, c);
    } else {
      SwitcherMoves(s, op, c);
    }
  }

  lemma TakerMoves(s: State, op: Op, c: nat)
    requires Inv(s) && Enabled(s, op) && c < |s.cpus| && op.MigTake?
    ensures CpuMoves(s, op, c)
  {
    QueueLasts(s, op.c);
    hide Inv;
  }

  lemma WakerMoves(s: State, op: Op, c: nat)
    requires Enabled(s, op) && c < |s.cpus| && (op.Launch? || op.Grab? || op.Wake?)
    ensures CpuMoves(s, op, c)
  {
    hide QueueUnlocked;
    if op.Grab? {
      hide MakeRunnable;
    }
  }

  lemma SenderMoves(s: State, op: Op, c: nat)
    requires Enabled(s, op) && c < |s.cpus| && (op.MigSend? || op.MigSkip? || op.MigReturn?)
    ensures CpuMoves(s, op, c)
  {
    hide QueueUnlocked;
  }

  lemma QuietMoves(s: State, op: Op, c: nat)
    requires Enabled(s, op) && c < |s.cpus| && Quiet(op)
    ensures CpuMoves(s, op, c)
  {
  }

  lemma SwitcherMoves(s: State, op: Op, c: nat)
    requires Enabled(s, op) && c < |s.cpus| && (op.Yield? || op.SleepOn? || op.Exit? || op.Pick? || op.Bury? || op.Fork?)
    ensures CpuMoves(s, op, c)
  {
  }

  /** Every CPU is where its own steps have led it, runs the thread it picked last, and is interrupted exactly when others gave it work. */
  lemma {:induction false} CpuIsWhere(states: seq<State>, ops: seq<Op>, c: nat, k: nat)
    requires IsRun(states, ops) && k <= |ops| && c < |states[0].cpus|
    ensures |states[k].cpus| == |states[0].cpus|
    ensures CourseIn(states[k], c) == CourseOf(ops, c, k)
    ensures states[k].cpus[c].cur == Runner(states, ops, c, k)
    ensures states[k].cpus[c].ipi == Pending(states, ops, c, k)
  {
    hide Inv, Enabled, Apply, MoveOf, NextCourse;
    if k == 0 {
      assert BootCpu(states[0], c);
    } else {
      CpuIsWhere(states, ops, c, k - 1);
      StepFacts(states, ops, k - 1);
      CpuStep(states[k - 1], ops[k - 1], c);
    }
  }

  // ---------------------------------------------------------------- nobody waits for ever

  lemma LegalOne(s: State, a: Op)
    requires Enabled(s, a)
    ensures Legal(s, [a]) && Final(s, [a]) == Apply(s, a)
  {
    hide Apply, Enabled;
    assert [a][1..] == [];
  }

  /** Steps that CPU c can make one after the other, whatever they find. */
  lemma LegalTwo(s: State, a: Op, b: Op)
    requires Enabled(s, a) && Enabled(Apply(s, a), b)
    ensures Legal(s, [a, b]) && Final(s, [a, b]) == Apply(Apply(s, a), b)
  {
    hide Apply, Enabled;
    assert [a, b][1..] == [b];
    LegalOne(Apply(s, a), b);
  }

  /** A CPU that looks for a thread while one is queued makes the first of them its current thread, and runs it. */
  lemma PickerRuns(s: State, c: nat)
    requires Inv(s) && c < |s.cpus| && s.cpus[c].phase.Picking? && Listed(s, Runq(c)) != []
    ensures Legal(s, [Pick(c), Resume(c)])
    ensures var s' := Final(s, [Pick(c), Resume(c)]); var t := Listed(s, Runq(c))[0];
            c < |s'.cpus| && s'.cpus[c].cur == t && s'.cpus[c].phase.Burying? && t in s'.threads && s'.threads[t] == Thread(c, Run)
  {
    HeadAlive(s, Runq(c));
    hide Inv, ListsAgree;
    LegalTwo(s, Pick(c), Resume(c));
  }

  /** An idle CPU with work is woken by any interrupt, and then runs the first thread of its queue. */
  lemma IdleCpuRuns(s: State, c: nat, unidle: bool)
    requires Inv(s) && c < |s.cpus| && s.cpus[c].phase.Idling? && Listed(s, Runq(c)) != []
    requires s.cpus[c].mig == NotMigrating && Listed(s, Woken(c)) == []
    ensures Legal(s, [Interrupt(c, unidle), Unidle(c)])
    ensures var s1 := Final(s, [Interrupt(c, unidle), Unidle(c)]); var t := Listed(s, Runq(c))[0];
            && Legal(s1, [Pick(c), Resume(c)])
            && var s' := Final(s1, [Pick(c), Resume(c)]);
               c < |s'.cpus| && s'.cpus[c].cur == t && s'.cpus[c].phase.Burying? && t in s'.threads && s'.threads[t] == Thread(c, Run)
  {
    IdleCpuWakes(s, c, unidle);
    hide Inv, Apply, Enabled, Legal, Final;
    var s1 := Apply(Apply(s, Interrupt(c, unidle)), Unidle(c));
    PickerRuns(s1, c);
  }

  lemma IdleCpuWakes(s: State, c: nat, unidle: bool)
    requires Inv(s) && c < |s.cpus| && s.cpus[c].phase.Idling? && s.cpus[c].mig == NotMigrating && Listed(s, Woken(c)) == []
    ensures Legal(s, [Interrupt(c, unidle), Unidle(c)])
    ensures var s1 := Apply(Apply(s, Interrupt(c, unidle)), Unidle(c));
            && Final(s, [Interrupt(c, unidle), Unidle(c)]) == s1
            && Inv(s1) && c < |s1.cpus| && s1.cpus[c].phase.Picking? && Listed(s1, Runq(c)) == Listed(s, Runq(c))
  {
    StepOk(s, Interrupt(c, unidle));
    StepOk(Apply(s, Interrupt(c, unidle)), Unidle(c));
    hide Inv;
    LegalTwo(s, Interrupt(c, unidle), Unidle(c));
  }

  /** exorcise comes to an end, with all zombies of the CPU destroyed, and the thread goes on. */
  function Burials(c: nat, n: nat): (r: seq<Op>)
    ensures |r| == n + 1
  {
    if n == 0 then [BuryDone(c)] else [Bury(c)] + Burials(c, n - 1)
  }

  lemma {:induction false} BurialsEnd(s: State, c: nat)
    requires c < |s.cpus| && s.cpus[c].phase.Burying?
    ensures var all := Burials(c, |Listed(s, Zombies(c))|);
            && Legal(s, all)
            && var s' := Final(s, all);
               && c < |s'.cpus| && s'.cpus[c] == s.cpus[c].(phase := Running) && Listed(s', Zombies(c)) == []
               && s'.threads == s.threads - (set z | z in Listed(s, Zombies(c)))
    decreases |Listed(s, Zombies(c))|
  {
    var l := Listed(s, Zombies(c));
    if l == [] {
      assert Burials(c, 0)[1..] == [];
      assert s.threads - (set z | z in l) == s.threads;
    } else {
      var s1 := Apply(s, Bury(c));
      assert Listed(s1, Zombies(c)) == l[1..] && s1.threads == s.threads - {l[0]};
      BurialsEnd(s1, c);
      assert Burials(c, |l|)[1..] == Burials(c, |l| - 1);
      assert s.threads - (set z | z in l) == s1.threads - (set z | z in l[1..]);
    }
  }

  lemma ResumerUnlocks(s: State, d: nat)
    requires Inv(s) && d < |s.cpus| && s.cpus[d].phase.Resuming?
    ensures Legal(s, [Resume(d)]) && QueueUnlocked(Final(s, [Resume(d)]), d)
  {
    CpuIs(s, d);
    hide Inv, ListsAgree;
    LegalOne(s, Resume(d));
  }

  lemma IdlerUnlocks(s: State, d: nat)
    requires d < |s.cpus| && s.cpus[d].phase.Picking? && Listed(s, Runq(d)) == []
    ensures Legal(s, [GoIdle(d)]) && QueueUnlocked(Final(s, [GoIdle(d)]), d)
  {
    LegalOne(s, GoIdle(d));
  }

  /** Whoever holds the lock of a run queue releases it by steps of its own, which nothing can prevent. */
  lemma QueueGetsUnlocked(s: State, d: nat) returns (ops: seq<Op>)
    requires Inv(s) && d < |s.cpus|
    ensures |ops| <= 2 && (forall op :: op in ops ==> op.c == d) && Legal(s, ops) && QueueUnlocked(Final(s, ops), d)
  {
    hide Inv, Enabled, Apply;
    if s.cpus[d].phase.Resuming? {
      ResumerUnlocks(s, d);
      ops := [Resume(d)];
    } else if s.cpus[d].phase.Picking? && Listed(s, Runq(d)) == [] {
      IdlerUnlocks(s, d);
      ops := [GoIdle(d)];
    } else if s.cpus[d].phase.Picking? {
      PickerRuns(s, d);
      ops := [Pick(d), Resume(d)];
    } else {
      ops := [];
    }
  }

  /** What thread_fork has created, wchan_wake has taken off a channel and a migration has put aside can go to a queue as soon as that queue's lock is free. */
  lemma OnTheWay(s: State, c: nat, p: Place)
    requires Inv(s) && c < |s.cpus| && Listed(s, p) != []
    ensures var t := Listed(s, p)[0];
            && t in s.threads
            && (p == Woken(c) && QueueUnlocked(s, s.threads[t].cpu) ==> Enabled(s, Wake(c)))
            && (p == Newborn(s.cpus[c].cur) && Free(s, c) && s.cpus[c].phase.Running? && QueueUnlocked(s, s.threads[t].cpu) ==>
                  Enabled(s, Launch(c)))
            && (p == Victims(c) && s.cpus[c].mig.Sending? ==>
                  && Enabled(s, MigReturn(c))
                  && (if t == s.cpus[c].cur then Enabled(s, MigSkip(c)) else forall d :: d != c && QueueUnlocked(s, d) ==> Enabled(s, MigSend(c, d))))
  {
    HeadAlive(s, p);
    hide Inv, ListsAgree;
  }

  /** A CPU outside thread_switch, with no wakeup or migration under way, may do whatever the thread it runs wants to do. */
  lemma RunningCpuMay(s: State, c: nat, w: nat, t: nat, k: nat)
    requires Inv(s) && c < |s.cpus| && s.cpus[c].phase.Running? && s.cpus[c].mig == NotMigrating && Listed(s, Woken(c)) == []
    ensures Enabled(s, SleepOn(c, w)) && (Enabled(s, Yield(c)) <==> Listed(s, Runq(c)) != [])
    ensures Enabled(s, Grab(c, w)) <==> Listed(s, Chan(w)) != []
    ensures Listed(s, Newborn(s.cpus[c].cur)) == [] ==> Enabled(s, Exit(c)) && (t !in s.threads ==> Enabled(s, Fork(c, t)))
    ensures k <= |Listed(s, Runq(c))| ==> Enabled(s, MigStart(c, k))
  {
    CpuIs(s, c);
    hide Inv, ListsAgree;
  }

  /** A migration takes as many threads as it set out to, sends or returns them all, and ends. */
  lemma MigrationGoesOn(s: State, c: nat)
    requires Inv(s) && c < |s.cpus| && !s.cpus[c].mig.NotMigrating?
    ensures s.cpus[c].mig.Taking? && s.cpus[c].mig.left > 0 ==> Enabled(s, MigTake(c)) && Listed(s, Runq(c)) != []
    ensures s.cpus[c].mig.Sending? && Listed(s, Victims(c)) != [] ==> Enabled(s, MigReturn(c))
    ensures s.cpus[c].mig == Taking(0) || (s.cpus[c].mig.Sending? && Listed(s, Victims(c)) == []) ==> Enabled(s, MigEnd(c))
  {
    if s.cpus[c].mig.Taking? && s.cpus[c].mig.left > 0 {
      QueueLasts(s, c);
    }
    hide Inv;
  }
}
