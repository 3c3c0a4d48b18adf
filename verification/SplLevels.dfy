/**
 What a thread finds again after a context switch, over whole runs: the interrupt level it left with, on whatever
 CPU it arrives; and who holds a spinlock, by the calls made.
 */
module SplLevels {
  import opened Prelude
  import opened Spl
  import opened SplSwitch

  /** A run from boot: states[k + 1] is what step k leaves. */
  ghost predicate IsRun(states: seq<State>, ops: seq<Op>) {
    |states| == |ops| + 1 && Initial(states[0]) && forall k :: 0 <= k < |ops| ==> IsStep(states, ops, k)
  }

  predicate IsStep(states: seq<State>, ops: seq<Op>, k: nat)
    requires k < |ops| && k + 1 < |states|
  {
    Enabled(states[k], ops[k]) && states[k + 1] == Apply(states[k], ops[k])
  }

  lemma {:induction false} RunInv(states: seq<State>, ops: seq<Op>, k: nat)
    requires IsRun(states, ops) && k <= |ops|
    ensures Inv(states[k])
  {
    hide Inv, Enabled, Apply, Initial;
    if k == 0 {
      InitialOk(states[0]);
    } else {
      RunInv(states, ops, k - 1);
      assert IsStep(states, ops, k - 1);
      StepOk(states[k - 1], ops[k - 1]);
    }
  }

  // ---------------------------------------------------------------- the level by history

  /** t is current on c, outside thread_switch. */
  predicate Runs(s: State, c: nat, t: nat) { c < |s.cpus| && s.cpus[c].cur == t && s.cpus[c].mode.Base? }

  predicate RunsSomewhere(s: State, t: nat) { exists c :: 0 <= c < |s.cpus| && Runs(s, c, t) }

  /** The level after one more operation: only the thread's own calls and its interrupts set it, and a new thread starts at IPL_NONE. */
  function NextLevel(s: State, op: Op, t: nat, level: int): int {
    match op
    case Splx(c, spl) => if Runs(s, c, t) then spl else level
    case IntEnter(c) => if Runs(s, c, t) then IPL_HIGH else level
    case IntExit(c) => if Runs(s, c, t) then IPL_NONE else level
    case Fork(_, u) => if u == t then IPL_NONE else level
    case _ => level
  }

  /** The level of t after the first k operations; every CPU boots at IPL_HIGH. */
  function Level(states: seq<State>, ops: seq<Op>, t: nat, k: nat): int
    requires k <= |ops| < |states|
  {
    if k == 0 then IPL_HIGH else NextLevel(states[k - 1], ops[k - 1], t, Level(states, ops, t, k - 1))
  }

  /** A running thread is at that level, and any other will be when it arrives. */
  predicate AtLevel(s: State, t: nat, level: int)
    requires t in s.threads
  {
    if RunsSomewhere(s, t) then s.threads[t].spl == level else s.threads[t].saved == level
  }

  /** The thread whose record a step writes. */
  predicate Concerns(s: State, op: Op, t: nat) {
    match op
    case Fork(_, u) => u == t
    case SwitchTo(_, _) => false
    case _ => op.c < |s.cpus| && s.cpus[op.c].cur == t
  }

  lemma OthersKept(s: State, op: Op, t: nat)
    requires Enabled(s, op) && t in s.threads && !Concerns(s, op, t)
    ensures var s' := Apply(s, op);
            && t in s'.threads && s'.threads[t] == s.threads[t] && |s'.cpus| == |s.cpus|
            && (forall c :: 0 <= c < |s.cpus| ==> (Runs(s', c, t) <==> Runs(s, c, t)))
  {
    hide HeldBy, HeldCount;
    var s' := Apply(s, op);
    assert forall d :: 0 <= d < |s.cpus| && d != op.c ==> s'.cpus[d] == s.cpus[d];
  }

  lemma OtherLevel(s: State, op: Op, t: nat, level: int)
    requires Enabled(s, op) && t in s.threads && !Concerns(s, op, t) && AtLevel(s, t, level)
    ensures t in Apply(s, op).threads && AtLevel(Apply(s, op), t, NextLevel(s, op, t, level))
  {
    OthersKept(s, op, t);
    hide Enabled, Apply;
    assert RunsSomewhere(Apply(s, op), t) <==> RunsSomewhere(s, t);
  }

  /** Only op.c can run its current thread. */
  lemma OnlyHere(s: State, c: nat, t: nat)
    requires Inv(s) && c < |s.cpus| && s.cpus[c].cur == t
    ensures RunsSomewhere(s, t) <==> s.cpus[c].mode.Base?
  {
    assert s.cpus[c].mode.Base? ==> Runs(s, c, t);
  }

  /** The level a thread runs at, or will be given when it arrives. */
  function Shown(s: State, c: nat): int
    requires Here(s, c)
  {
    var th := s.threads[s.cpus[c].cur];
    if s.cpus[c].mode.Base? then th.spl else th.saved
  }

  lemma OwnRecord(s: State, op: Op)
    requires Enabled(s, op) && Here(s, op.c) && !op.Fork? && !op.SwitchTo?
    ensures var s', t := Apply(s, op), s.cpus[op.c].cur;
            Here(s', op.c) && s'.cpus[op.c].cur == t && Shown(s', op.c) == NextLevel(s, op, t, Shown(s, op.c))
  {
    hide HeldBy, HeldCount;
  }

  /** An operation by the CPU whose current thread t is, before and after. */
  lemma OwnLevel(s: State, op: Op, t: nat, level: int)
    requires Inv(s) && Enabled(s, op) && op.c < |s.cpus| && s.cpus[op.c].cur == t && !op.Fork? && !op.SwitchTo?
    requires t in s.threads && AtLevel(s, t, level)
    ensures t in Apply(s, op).threads && AtLevel(Apply(s, op), t, NextLevel(s, op, t, level))
  {
    StepOk(s, op);
    OnlyHere(s, op.c, t);
    OwnRecord(s, op);
    hide Inv, Apply, Enabled, RunsSomewhere;
    OnlyHere(Apply(s, op), op.c, t);
  }

  lemma NewLevel(s: State, op: Op, t: nat)
    requires Inv(s) && Enabled(s, op) && op.Fork? && op.t == t
    ensures t in Apply(s, op).threads && AtLevel(Apply(s, op), t, IPL_NONE)
  {
    forall d | 0 <= d < |s.cpus| ensures s.cpus[d].cur != t {
      At(s, d);
    }
    hide Inv;
    NewRecord(s, op);
    hide Apply, Enabled;
  }

  lemma NewRecord(s: State, op: Op)
    requires Enabled(s, op) && op.Fork?
    ensures op.t in Apply(s, op).threads && Apply(s, op).threads[op.t].saved == IPL_NONE && Apply(s, op).cpus == s.cpus
  {
  }

  lemma LevelStep(s: State, op: Op, t: nat, level: int)
    requires Inv(s) && Enabled(s, op) && t in Apply(s, op).threads && (t in s.threads ==> AtLevel(s, t, level))
    ensures AtLevel(Apply(s, op), t, NextLevel(s, op, t, level))
  {
    if op.Fork? && op.t == t {
      NewLevel(s, op, t);
    } else if Concerns(s, op, t) {
      At(s, op.c);
      OwnLevel(s, op, t, level);
    } else {
      NoneAdded(s, op, t);
      OtherLevel(s, op, t, level);
    }
    hide Inv, Apply, Enabled;
  }

  lemma NoneAdded(s: State, op: Op, t: nat)
    requires Enabled(s, op) && t in Apply(s, op).threads && !Concerns(s, op, t)
    ensures t in s.threads
  {
    hide HeldBy, HeldCount;
  }

  /** The theorem about levels: in every state of every run from boot. */
  lemma {:induction false} LevelKept(states: seq<State>, ops: seq<Op>, t: nat, k: nat)
    requires IsRun(states, ops) && k <= |ops| && t in states[k].threads
    ensures AtLevel(states[k], t, Level(states, ops, t, k))
  {
    hide Inv, Enabled, Apply, Initial, AtLevel, NextLevel;
    if k == 0 {
      BootLevel(states[0], t);
    } else {
      assert IsStep(states, ops, k - 1);
      RunInv(states, ops, k - 1);
      if t in states[k - 1].threads {
        LevelKept(states, ops, t, k - 1);
      }
      LevelStep(states[k - 1], ops[k - 1], t, Level(states, ops, t, k - 1));
    }
  }

  lemma BootLevel(s: State, t: nat)
    requires Initial(s) && t in s.threads
    ensures AtLevel(s, t, IPL_HIGH)
  {
    var c :| 0 <= c < |s.cpus| && s.cpus[c].cur == t;
    assert BootCpu(s, c) && Runs(s, c, t);
  }

  // ---------------------------------------------------------------- what it means for one thread

  /** Step k starts or ends an absence of t from its CPU. */
  predicate Leaves(states: seq<State>, ops: seq<Op>, k: nat, t: nat)
    requires k < |ops| < |states|
  {
    ops[k].Leave? && ops[k].c < |states[k].cpus| && states[k].cpus[ops[k].c].cur == t
  }

  predicate Arrives(states: seq<State>, ops: seq<Op>, k: nat, t: nat)
    requires k < |ops| < |states|
  {
    ops[k].Arrive? && ops[k].c < |states[k].cpus| && states[k].cpus[ops[k].c].cur == t
  }

  /** A running thread runs on until it leaves. */
  lemma RunsOn(s: State, op: Op, t: nat)
    requires Inv(s) && Enabled(s, op) && t in s.threads && RunsSomewhere(s, t)
    requires op.Leave? && op.c < |s.cpus| ==> s.cpus[op.c].cur != t
    ensures RunsSomewhere(Apply(s, op), t)
  {
    if Concerns(s, op, t) {
      OwnRunsOn(s, op, t);
    } else {
      OtherRunsOn(s, op, t);
    }
    hide Inv, Apply, Enabled, Concerns, RunsSomewhere;
  }

  lemma OtherRunsOn(s: State, op: Op, t: nat)
    requires Enabled(s, op) && t in s.threads && RunsSomewhere(s, t) && !Concerns(s, op, t)
    ensures RunsSomewhere(Apply(s, op), t)
  {
    hide Apply, Enabled, Concerns, Runs;
    OthersKept(s, op, t);
    var c :| 0 <= c < |s.cpus| && Runs(s, c, t);
    assert Runs(Apply(s, op), c, t);
  }

  lemma OwnRunsOn(s: State, op: Op, t: nat)
    requires Inv(s) && Enabled(s, op) && t in s.threads && RunsSomewhere(s, t) && Concerns(s, op, t) && !op.Leave?
    ensures RunsSomewhere(Apply(s, op), t)
  {
    OwnCpu(s, op, t);
    OnlyHere(s, op.c, t);
    hide Inv, Enabled;
    OwnMode(s, op);
    hide Apply;
    assert Runs(Apply(s, op), op.c, t);
  }

  lemma OwnCpu(s: State, op: Op, t: nat)
    requires Enabled(s, op) && t in s.threads && Concerns(s, op, t)
    ensures op.c < |s.cpus| && s.cpus[op.c].cur == t
  {
  }

  lemma OwnMode(s: State, op: Op)
    requires Enabled(s, op) && op.c < |s.cpus| && s.cpus[op.c].mode.Base? && !op.Leave?
    ensures op.c < |Apply(s, op).cpus| && Apply(s, op).cpus[op.c].mode.Base? && Apply(s, op).cpus[op.c].cur == s.cpus[op.c].cur
  {
    hide HeldBy, HeldCount;
  }

  /** Between leaving and arriving, and between its creation and its first arrival, a thread does not run. */
  lemma {:induction false} Away(states: seq<State>, ops: seq<Op>, i: nat, j: nat, t: nat)
    requires IsRun(states, ops) && i <= j < |ops| && t in states[i].threads && Arrives(states, ops, j, t)
    requires forall m :: i <= m < j ==> !Leaves(states, ops, m, t)
    ensures forall m :: i <= m <= j ==> t in states[m].threads && !RunsSomewhere(states[m], t)
    decreases j - i
  {
    hide Inv, Apply;
    RunInv(states, ops, i);
    assert IsStep(states, ops, i);
    if i == j {
      OnlyHere(states[j], ops[j].c, t);
    } else {
      assert !Leaves(states, ops, i, t);
      Lives(states[i], ops[i], t);
      Away(states, ops, i + 1, j, t);
      hide RunsSomewhere;
      if RunsSomewhere(states[i], t) {
        RunsOn(states[i], ops[i], t);
        assert false;
      }
    }
  }

  lemma Lives(s: State, op: Op, t: nat)
    requires Enabled(s, op) && t in s.threads
    ensures t in Apply(s, op).threads
  {
    hide HeldBy, HeldCount;
  }

  /** While a thread does not run its level stays. */
  lemma {:induction false} LevelStays(states: seq<State>, ops: seq<Op>, i: nat, j: nat, t: nat)
    requires IsRun(states, ops) && i <= j <= |ops|
    requires forall m :: i <= m < j ==> t in states[m].threads && !RunsSomewhere(states[m], t)
    ensures Level(states, ops, t, j) == Level(states, ops, t, i)
    decreases j - i
  {
    if i < j {
      LevelStays(states, ops, i, j - 1, t);
      assert IsStep(states, ops, j - 1);
      NoChange(states[j - 1], ops[j - 1], t, Level(states, ops, t, i));
    }
  }

  lemma NoChange(s: State, op: Op, t: nat, level: int)
    requires Enabled(s, op) && t in s.threads && !RunsSomewhere(s, t)
    ensures NextLevel(s, op, t, level) == level
  {
  }

  /** thread_switch: on arrival, on whatever CPU, the thread is at the level it had when it left. */
  lemma RestoredOnArrival(states: seq<State>, ops: seq<Op>, i: nat, j: nat, t: nat)
    requires IsRun(states, ops) && i < j < |ops| && Leaves(states, ops, i, t) && Arrives(states, ops, j, t)
    requires forall m :: i < m < j ==> !Leaves(states, ops, m, t)
    ensures t in states[i].threads && t in states[j + 1].threads && states[j + 1].threads[t].spl == states[i].threads[t].spl
  {
    hide Inv, Apply, Initial;
    assert IsStep(states, ops, i);
    Lives(states[i], ops[i], t);
    Away(states, ops, i + 1, j, t);
    ArrivesAt(states, ops, i + 1, j, t);
    LevelKept(states, ops, t, i);
    LevelKept(states, ops, t, j + 1);
    assert Runs(states[i], ops[i].c, t);
  }

  /** A new thread first runs at IPL_NONE, with interrupts on. */
  lemma NewThreadLevel(states: seq<State>, ops: seq<Op>, i: nat, j: nat, t: nat)
    requires IsRun(states, ops) && i < j < |ops| && ops[i].Fork? && ops[i].t == t && Arrives(states, ops, j, t)
    requires forall m :: i < m < j ==> !Leaves(states, ops, m, t)
    ensures t in states[j + 1].threads && states[j + 1].threads[t].spl == IPL_NONE
  {
    hide Inv, Initial;
    assert IsStep(states, ops, i);
    Away(states, ops, i + 1, j, t);
    ArrivesAt(states, ops, i + 1, j, t);
    LevelKept(states, ops, t, j + 1);
    hide Apply, Enabled;
  }

  /** After the arrival the thread runs, at the level it had all the time it was away. */
  lemma ArrivesAt(states: seq<State>, ops: seq<Op>, i: nat, j: nat, t: nat)
    requires IsRun(states, ops) && i <= j < |ops| && Arrives(states, ops, j, t)
    requires forall m :: i <= m <= j ==> t in states[m].threads && !RunsSomewhere(states[m], t)
    ensures t in states[j + 1].threads && RunsSomewhere(states[j + 1], t)
    ensures Level(states, ops, t, j + 1) == Level(states, ops, t, i)
  {
    hide Inv, Initial;
    LevelStays(states, ops, i, j + 1, t);
    assert IsStep(states, ops, j);
    ArriveRuns(states[j], ops[j], t);
    hide Apply, Enabled;
  }

  lemma ArriveRuns(s: State, op: Op, t: nat)
    requires Enabled(s, op) && op.Arrive? && s.cpus[op.c].cur == t
    ensures t in Apply(s, op).threads && RunsSomewhere(Apply(s, op), t)
  {
    hide HeldBy, HeldCount;
    assert Runs(Apply(s, op), op.c, t);
  }

  /** An interrupt is invisible to the thread it came in: level, count and interrupts are as before, even if the thread moved. */
  lemma InterruptRestores(states: seq<State>, ops: seq<Op>, i: nat, j: nat, t: nat)
    requires IsRun(states, ops) && i < j < |ops| && ops[i].IntEnter? && ops[j].IntExit?
    requires Runs(states[i], ops[i].c, t) && Runs(states[j], ops[j].c, t)
    ensures t in states[i].threads && t in states[j + 1].threads && ops[j].c < |states[j + 1].cpus|
    ensures var before, after := states[i].threads[t], states[j + 1].threads[t];
            && after.spl == before.spl == IPL_NONE && after.count == before.count == 0
            && states[i].cpus[ops[i].c].irq && states[j + 1].cpus[ops[j].c].irq
  {
    hide Inv, Initial;
    RunInv(states, ops, i);
    assert IsStep(states, ops, i) && IsStep(states, ops, j);
    IntEnterOk(states[i], ops[i].c);
    RunInv(states, ops, j);
    IntExitOk(states[j], ops[j].c);
    ExitRecord(states[j], ops[j]);
  }

  lemma ExitRecord(s: State, op: Op)
    requires Enabled(s, op) && op.IntExit?
    ensures var s', t := Apply(s, op), s.cpus[op.c].cur;
            && t in s'.threads && s'.threads[t].spl == IPL_NONE && s'.threads[t].count == s.threads[t].count - 1
            && |s'.cpus| == |s.cpus| && s'.cpus[op.c].irq
  {
  }

  // ---------------------------------------------------------------- who holds a spinlock, by history

  /** The CPU that has a lock after one more operation; thread_switch takes the run queue lock and drops the other. */
  function NextOwner(s: State, op: Op, l: Lock, owner: Option<nat>): Option<nat> {
    match op
    case Got(c) => if c < |s.cpus| && s.cpus[c].want == Some(l) then Some(c) else owner
    case Unlock(_, k) => if k == l then None else owner
    case Leave(c, lk) => if lk == Some(l) then None else if l == Rq(c) then Some(c) else owner
    case Unidle(c) => if l == Rq(c) then Some(c) else owner
    case GoIdle(c) => if l == Rq(c) then None else owner
    case Arrive(c) => if l == Rq(c) then None else owner
    case _ => owner
  }

  function Owner(states: seq<State>, ops: seq<Op>, l: Lock, k: nat): Option<nat>
    requires k <= |ops| < |states|
  {
    if k == 0 then None else NextOwner(states[k - 1], ops[k - 1], l, Owner(states, ops, l, k - 1))
  }

  function HolderOf(s: State, l: Lock): Option<nat> { if l in s.holder then Some(s.holder[l]) else None }

  lemma {:induction false} OwnerIsHolder(states: seq<State>, ops: seq<Op>, l: Lock, k: nat)
    requires IsRun(states, ops) && k <= |ops|
    ensures HolderOf(states[k], l) == Owner(states, ops, l, k)
  {
    hide Enabled, Apply, NextOwner;
    if k > 0 {
      OwnerIsHolder(states, ops, l, k - 1);
      assert IsStep(states, ops, k - 1);
      HolderStep(states[k - 1], ops[k - 1], l);
    }
  }

  lemma HolderStep(s: State, op: Op, l: Lock)
    requires Enabled(s, op)
    ensures HolderOf(Apply(s, op), l) == NextOwner(s, op, l, HolderOf(s, l))
  {
    hide HeldBy, HeldCount, Balanced;
  }

  // ---------------------------------------------------------------- where a CPU is, by history, and how it goes on

  /** The position in thread_switch, the thread the CPU executes, and the lock it spins for. */
  datatype Course = Course(mode: Mode, cur: nat, want: Option<Lock>)

  function NextCourse(op: Op, k: Course): Course {
    match op
    case Want(_, l) => k.(want := Some(l))
    case Got(_) => k.(want := None)
    case Leave(_, _) => k.(mode := Switching)
    case GoIdle(_) => k.(mode := Idle)
    case IdleInt(_) => k.(mode := Woke)
    case Unidle(_) => k.(mode := Switching)
    case SwitchTo(_, t) => k.(mode := Resuming, cur := t)
    case Arrive(_) => k.(mode := Base)
    case _ => k
  }

  /** From the thread it booted with and the operations it made among the first k. */
  function CourseOf(ops: seq<Op>, boot: nat, c: nat, k: nat): Course
    requires k <= |ops|
  {
    if k == 0 then Course(Base, boot, None)
    else if ops[k - 1].c == c then NextCourse(ops[k - 1], CourseOf(ops, boot, c, k - 1))
    else CourseOf(ops, boot, c, k - 1)
  }

  function CourseIn(s: State, c: nat): Course
    requires c < |s.cpus|
  {
    Course(s.cpus[c].mode, s.cpus[c].cur, s.cpus[c].want)
  }

  lemma CourseStep(s: State, op: Op, c: nat)
    requires Enabled(s, op) && c < |s.cpus|
    ensures |Apply(s, op).cpus| == |s.cpus|
    ensures CourseIn(Apply(s, op), c) == if op.c == c then NextCourse(op, CourseIn(s, c)) else CourseIn(s, c)
  {
    hide HeldBy, HeldCount, Balanced;
  }

  /** In every reachable state each CPU is where its own steps have led it. */
  lemma {:induction false} CpuIsWhere(states: seq<State>, ops: seq<Op>, c: nat, k: nat)
    requires IsRun(states, ops) && k <= |ops| && c < |states[0].cpus|
    ensures |states[k].cpus| == |states[0].cpus| && CourseIn(states[k], c) == CourseOf(ops, states[0].cpus[c].cur, c, k)
  {
    hide Enabled, Apply, NextCourse;
    if k == 0 {
      assert BootCpu(states[0], c);
    } else {
      CpuIsWhere(states, ops, c, k - 1);
      assert IsStep(states, ops, k - 1);
      CourseStep(states[k - 1], ops[k - 1], c);
    }
  }

  /** The only thing a CPU can have to wait for is a lock that another CPU has. */
  ghost predicate WaitsForOther(s: State, c: nat, l: Lock) { l in s.holder && s.holder[l] != c }

  /** A step of its own by which CPU c goes on from where it is. */
  ghost predicate GoesOn(s: State, c: nat)
    requires Here(s, c)
  {
    match s.cpus[c].mode
    case Resuming => Enabled(s, Arrive(c))
    case Switching => Enabled(s, GoIdle(c)) && Enabled(s, SwitchTo(c, s.cpus[c].cur))
    case Idle => Enabled(s, IdleInt(c))
    case Base =>
      if s.cpus[c].want.Some? then Enabled(s, Got(c)) || WaitsForOther(s, c, s.cpus[c].want.value)
      else s.cpus[c].spinlocks == 0 ==> Enabled(s, Leave(c, None)) || WaitsForOther(s, c, Rq(c))
    case Woke =>
      if s.cpus[c].want.Some? then Enabled(s, Got(c)) || WaitsForOther(s, c, s.cpus[c].want.value)
      else s.cpus[c].spinlocks == 0 ==> Enabled(s, Unidle(c)) || WaitsForOther(s, c, Rq(c))
  }

  /** In every reachable state: nobody spins for a lock it holds itself, and the run queue lock is free for whoever holds no spinlock. */
  lemma NeverStuck(states: seq<State>, ops: seq<Op>, k: nat, c: nat)
    requires IsRun(states, ops) && k <= |ops| && c < |states[k].cpus|
    ensures Here(states[k], c) && GoesOn(states[k], c)
  {
    RunInv(states, ops, k);
    var s := states[k];
    assert CpuOk(s, c);
    if Rq(c) in s.holder && s.holder[Rq(c)] == c {
      HeldCounts(s.holder, Rq(c), c);
    }
    hide HeldBy, HeldCount, Initial;
  }
}
