/**
 Interrupt-level accounting across context switches, on any number of CPUs: the run queue lock taken by
 the thread that leaves is dropped by the thread that arrives, and still every count balances.
 */
module SplSwitch {
  import opened Prelude
  import opened Spl

  datatype Lock = Rq(c: nat) | Other(n: nat)

  /** Woke: an interrupt handler runs while the CPU idles. */
  datatype Mode = Base | Switching | Idle | Woke | Resuming

  datatype CpuState = CpuState(cur: nat, spinlocks: int, irq: bool, mode: Mode, want: Option<Lock>)

  /** saved: the level thread_switch (or thread_startup) will restore; handling: inside an interrupt handler. */
  datatype ThreadState = ThreadState(count: int, spl: int, saved: int, handling: bool)

  datatype State = State(cpus: seq<CpuState>, threads: map<nat, ThreadState>, holder: map<Lock, nat>)

  datatype Op =
    | Splx(c: nat, spl: int)
    | Want(c: nat, l: Lock)
    | Got(c: nat)
    | Unlock(c: nat, l: Lock)
    | IntEnter(c: nat)
    | IntExit(c: nat)
    | Leave(c: nat, lk: Option<Lock>)
    | GoIdle(c: nat)
    | IdleInt(c: nat)
    | Unidle(c: nat)
    | SwitchTo(c: nat, t: nat)
    | Arrive(c: nat)
    | Fork(c: nat, t: nat)

  predicate Here(s: State, c: nat) { c < |s.cpus| && s.cpus[c].cur in s.threads }

  function Get(s: State, c: nat): Ipl
    requires Here(s, c)
  {
    var t := s.threads[s.cpus[c].cur];
    Ipl(t.count, t.spl, s.cpus[c].spinlocks, s.cpus[c].irq)
  }

  function Put(s: State, c: nat, i: Ipl): State
    requires Here(s, c)
  {
    var t := s.cpus[c].cur;
    s.(cpus := s.cpus[c := s.cpus[c].(spinlocks := i.spinlocks, irq := i.irq)],
       threads := s.threads[t := s.threads[t].(count := i.count, spl := i.spl)])
  }

  function SetMode(s: State, c: nat, m: Mode): State
    requires c < |s.cpus|
  {
    s.(cpus := s.cpus[c := s.cpus[c].(mode := m)])
  }

  /** The whole of spinlock_acquire when the lock is free. */
  function Take(s: State, c: nat, l: Lock): State
    requires Here(s, c)
  {
    Put(s, c, LockTaken(Get(s, c))).(holder := s.holder[l := c])
  }

  function Drop(s: State, c: nat, l: Lock): State
    requires Here(s, c)
  {
    Put(s, c, LockDropped(Get(s, c))).(holder := s.holder - {l})
  }

  predicate Holds(s: State, c: nat, l: Lock) { l in s.holder && s.holder[l] == c }

  predicate IsCurrent(s: State, t: nat) { exists c :: 0 <= c < |s.cpus| && s.cpus[c].cur == t }

  /** Ordinary code or a handler, not spinning. */
  predicate Executing(s: State, c: nat) {
    Here(s, c) && (s.cpus[c].mode.Base? || s.cpus[c].mode.Woke?) && s.cpus[c].want == None
  }

  predicate InHandler(s: State, c: nat)
    requires Here(s, c)
  {
    s.cpus[c].mode.Woke? || s.threads[s.cpus[c].cur].handling
  }

  /**
   The demands are those of the code: a lock is released by its holder; a handler does not lower the level;
   thread_switch is entered with no spinlock but the one that goes with the channel slept on.
   */
  predicate Enabled(s: State, op: Op) {
    match op
    case Splx(c, spl) => Executing(s, c) && (spl == IPL_HIGH || (spl == IPL_NONE && !InHandler(s, c)))
    case Want(c, l) => Executing(s, c) && !Holds(s, c, l)
    case Got(c) => Here(s, c) && s.cpus[c].want.Some? && s.cpus[c].want.value !in s.holder
    case Unlock(c, l) => Executing(s, c) && Holds(s, c, l)
    case IntEnter(c) => Executing(s, c) && s.cpus[c].mode.Base? && s.cpus[c].irq
    case IntExit(c) => Executing(s, c) && s.threads[s.cpus[c].cur].handling && s.cpus[c].mode.Base? && s.cpus[c].spinlocks == 0
    case Leave(c, lk) =>
      && Executing(s, c) && s.cpus[c].mode.Base? && Rq(c) !in s.holder
      && (lk.Some? ==> Holds(s, c, lk.value) && s.cpus[c].spinlocks == 1)
      && (lk.None? ==> s.cpus[c].spinlocks == 0)
    case GoIdle(c) => Here(s, c) && s.cpus[c].mode.Switching?
    case IdleInt(c) => Here(s, c) && s.cpus[c].mode.Idle?
    case Unidle(c) => Here(s, c) && s.cpus[c].mode.Woke? && s.cpus[c].spinlocks == 0 && s.cpus[c].want == None && Rq(c) !in s.holder
    case SwitchTo(c, t) => Here(s, c) && s.cpus[c].mode.Switching? && t in s.threads && (t == s.cpus[c].cur || !IsCurrent(s, t))
    case Arrive(c) => Here(s, c) && s.cpus[c].mode.Resuming?
    case Fork(c, t) => Executing(s, c) && s.cpus[c].mode.Base? && t !in s.threads
  }

  /** thread_switch up to the choice of the next thread. */
  function LeaveCpu(s: State, c: nat, lk: Option<Lock>): State
    requires Here(s, c)
  {
    var t := s.cpus[c].cur;
    var s1 := s.(threads := s.threads[t := s.threads[t].(saved := s.threads[t].spl)]);
    var s2 := Take(Put(s1, c, SetSpl(Get(s1, c), IPL_HIGH)), c, Rq(c));
    SetMode(if lk.Some? then Drop(s2, c, lk.value) else s2, c, Switching)
  }

  function Apply(s: State, op: Op): State
    requires Enabled(s, op)
  {
    match op
    case Splx(c, spl) => Put(s, c, SetSpl(Get(s, c), spl))
    case Want(c, l) =>
      var s1 := Put(s, c, LockTaken(Get(s, c)));
      s1.(cpus := s1.cpus[c := s1.cpus[c].(want := Some(l))])
    case Got(c) => s.(cpus := s.cpus[c := s.cpus[c].(want := None)], holder := s.holder[s.cpus[c].want.value := c])
    case Unlock(c, l) => Drop(s, c, l)
    case IntEnter(c) =>
      var t := s.cpus[c].cur;
      var th := s.threads[t];
      s.(cpus := s.cpus[c := s.cpus[c].(irq := false)],
         threads := s.threads[t := th.(count := th.count + 1, spl := IPL_HIGH, handling := true)])
    case IntExit(c) =>
      var t := s.cpus[c].cur;
      var th := s.threads[t];
      s.(cpus := s.cpus[c := s.cpus[c].(irq := true)],
         threads := s.threads[t := th.(count := th.count - 1, spl := IPL_NONE, handling := false)])
    case Leave(c, lk) => LeaveCpu(s, c, lk)
    case GoIdle(c) =>
      var s1 := SetMode(Drop(s, c, Rq(c)), c, Idle);
      s1.(cpus := s1.cpus[c := s1.cpus[c].(irq := true)])
    case IdleInt(c) =>
      var s1 := SetMode(s, c, Woke);
      s1.(cpus := s1.cpus[c := s1.cpus[c].(irq := false)])
    case Unidle(c) => SetMode(Take(s, c, Rq(c)), c, Switching)
    case SwitchTo(c, t) => s.(cpus := s.cpus[c := s.cpus[c].(cur := t, mode := Resuming)])
    case Arrive(c) =>
      var saved := s.threads[s.cpus[c].cur].saved;
      var s1 := Drop(s, c, Rq(c));
      SetMode(Put(s1, c, SetSpl(Get(s1, c), saved)), c, Base)
    case Fork(c, t) => s.(threads := s.threads[t := ThreadState(1 + 1, IPL_HIGH, IPL_NONE, false)])
  }

  // ---------------------------------------------------------------- the invariant

  function HeldBy(holder: map<Lock, nat>, c: nat): set<Lock> { set l | l in holder && holder[l] == c }

  function HeldCount(holder: map<Lock, nat>, c: nat): nat { |HeldBy(holder, c)| }

  function Wanted(want: Option<Lock>): int { if want.Some? then 1 else 0 }

  /** The balance; while the CPU idles interrupts are on although the level is high. */
  predicate LevelOk(mode: Mode, i: Ipl) {
    if mode.Idle? then i.count == 1 && i.spl == IPL_HIGH && i.spinlocks == 0 && i.irq else Balanced(i)
  }

  predicate ModeOk(mode: Mode, th: ThreadState, rqHeld: bool) {
    && (mode.Woke? || th.handling ==> th.spl == IPL_HIGH)
    && (mode.Switching? || mode.Resuming? ==> th.count == 2 && th.spl == IPL_HIGH && rqHeld)
    && (!mode.Base? ==> SavedOk(th))
  }

  predicate CpuOk(s: State, c: nat)
    requires Here(s, c)
  {
    && LevelOk(s.cpus[c].mode, Get(s, c))
    && ModeOk(s.cpus[c].mode, s.threads[s.cpus[c].cur], Holds(s, c, Rq(c)))
    && s.cpus[c].spinlocks == HeldCount(s.holder, c) + Wanted(s.cpus[c].want)
    && WantOk(s, c)
  }

  /** A CPU spins only outside thread_switch, and never for a lock it holds. */
  predicate WantOk(s: State, c: nat)
    requires c < |s.cpus|
  {
    s.cpus[c].want.Some? ==> (s.cpus[c].mode.Base? || s.cpus[c].mode.Woke?) && !Holds(s, c, s.cpus[c].want.value)
  }

  /** What thread_switch will restore: a handler that was switched away from comes back at high level. */
  predicate SavedOk(th: ThreadState) {
    (th.saved == IPL_NONE || th.saved == IPL_HIGH) && (th.handling ==> th.saved == IPL_HIGH)
  }

  /** A thread that is not current waits with exactly two reasons: its level, and the lock dropped on its arrival. */
  predicate FrozenOk(th: ThreadState) {
    th.count == 2 && th.spl == IPL_HIGH && SavedOk(th)
  }

  ghost predicate Inv(s: State) {
    && (forall c :: 0 <= c < |s.cpus| ==> Here(s, c) && CpuOk(s, c))
    && (forall c, d :: 0 <= c < |s.cpus| && 0 <= d < |s.cpus| && c != d ==> s.cpus[c].cur != s.cpus[d].cur)
    && (forall t :: t in s.threads && !IsCurrent(s, t) ==> FrozenOk(s.threads[t]))
  }

  // ---------------------------------------------------------------- locks held

  lemma HeldTake(holder: map<Lock, nat>, l: Lock, c: nat)
    requires l !in holder
    ensures HeldCount(holder[l := c], c) == HeldCount(holder, c) + 1
    ensures forall d :: d != c ==> HeldBy(holder[l := c], d) == HeldBy(holder, d)
  {
    assert HeldBy(holder[l := c], c) == HeldBy(holder, c) + {l};
  }

  lemma HeldDrop(holder: map<Lock, nat>, l: Lock, c: nat)
    requires l in holder && holder[l] == c
    ensures HeldCount(holder - {l}, c) == HeldCount(holder, c) - 1
    ensures forall d :: d != c ==> HeldBy(holder - {l}, d) == HeldBy(holder, d)
  {
    assert HeldBy(holder, c) == HeldBy(holder - {l}, c) + {l};
  }

  /** A lock held is counted, so the assertion in spinlock_release holds. */
  lemma HeldCounts(holder: map<Lock, nat>, l: Lock, c: nat)
    requires l in holder && holder[l] == c
    ensures HeldCount(holder, c) > 0
  {
    assert l in HeldBy(holder, c);
  }

  // ---------------------------------------------------------------- steps on one CPU

  /** Nothing but CPU c, its current thread and locks of c changed, and c is fine. */
  lemma LocalStep(s: State, s': State, c: nat)
    requires Inv(s) && c < |s.cpus| && |s'.cpus| == |s.cpus| && Here(s', c) && CpuOk(s', c)
    requires s'.cpus[c].cur == s.cpus[c].cur && s'.threads.Keys == s.threads.Keys
    requires forall d :: 0 <= d < |s.cpus| && d != c ==> s'.cpus[d] == s.cpus[d] && HeldBy(s'.holder, d) == HeldBy(s.holder, d)
    requires forall t :: t in s.threads && t != s.cpus[c].cur ==> s'.threads[t] == s.threads[t]
    ensures Inv(s')
  {
    forall d | 0 <= d < |s'.cpus| ensures Here(s', d) && CpuOk(s', d) {
      if d != c {
        assert CpuOk(s, d) && Here(s, d);
        assert forall l :: Holds(s', d, l) <==> l in HeldBy(s'.holder, d);
        assert forall l :: Holds(s, d, l) <==> l in HeldBy(s.holder, d);
      }
    }
    assert forall d :: 0 <= d < |s.cpus| ==> s'.cpus[d].cur == s.cpus[d].cur;
    forall t | t in s'.threads && !IsCurrent(s', t) ensures FrozenOk(s'.threads[t]) {
      assert !IsCurrent(s, t);
    }
  }

  lemma TakeOk(s: State, c: nat, l: Lock)
    requires Here(s, c) && l !in s.holder && Balanced(Get(s, c))
    requires s.cpus[c].spinlocks == HeldCount(s.holder, c) + Wanted(s.cpus[c].want)
    ensures var s' := Take(s, c, l);
            && Here(s', c) && Balanced(Get(s', c)) && Get(s', c) == LockTaken(Get(s, c)) && Holds(s', c, l)
            && s'.cpus[c].spinlocks == HeldCount(s'.holder, c) + Wanted(s'.cpus[c].want)
            && forall d :: d != c ==> HeldBy(s'.holder, d) == HeldBy(s.holder, d)
  {
    HeldTake(s.holder, l, c);
  }

  lemma DropOk(s: State, c: nat, l: Lock)
    requires Here(s, c) && Holds(s, c, l) && Balanced(Get(s, c))
    requires s.cpus[c].spinlocks == HeldCount(s.holder, c) + Wanted(s.cpus[c].want)
    ensures var s' := Drop(s, c, l);
            && Here(s', c) && Balanced(Get(s', c)) && Get(s', c) == LockDropped(Get(s, c))
            && s'.cpus[c].spinlocks == HeldCount(s'.holder, c) + Wanted(s'.cpus[c].want)
            && forall d :: d != c ==> HeldBy(s'.holder, d) == HeldBy(s.holder, d)
  {
    HeldDrop(s.holder, l, c);
    HeldCounts(s.holder, l, c);
  }

  lemma LeaveOk(s: State, c: nat, lk: Option<Lock>)
    requires Inv(s) && Enabled(s, Leave(c, lk))
    ensures Inv(Apply(s, Leave(c, lk)))
  {
    hide HeldBy, HeldCount, Inv;
    At(s, c);
    var t := s.cpus[c].cur;
    var s1 := s.(threads := s.threads[t := s.threads[t].(saved := s.threads[t].spl)]);
    var s2 := Put(s1, c, SetSpl(Get(s1, c), IPL_HIGH));
    TakeOk(s2, c, Rq(c));
    var s3 := Take(s2, c, Rq(c));
    if lk.Some? {
      DropOk(s3, c, lk.value);
    }
    LocalStep(s, Apply(s, Leave(c, lk)), c);
  }

  lemma At(s: State, c: nat)
    requires Inv(s) && c < |s.cpus|
    ensures Here(s, c) && CpuOk(s, c)
  {
  }

  lemma SwitchToOk(s: State, c: nat, t: nat)
    requires Inv(s) && Enabled(s, SwitchTo(c, t))
    ensures Inv(Apply(s, SwitchTo(c, t)))
  {
    hide HeldBy, HeldCount;
    var s' := Apply(s, SwitchTo(c, t));
    assert Here(s, c) && CpuOk(s, c);
    assert s.cpus[c].cur != t ==> FrozenOk(s.threads[t]);
    forall d | 0 <= d < |s'.cpus| ensures Here(s', d) && CpuOk(s', d) {
      assert Here(s, d) && CpuOk(s, d);
    }
    assert t != s.cpus[c].cur ==> forall d :: 0 <= d < |s.cpus| ==> s.cpus[d].cur != t;
    forall x | x in s'.threads && !IsCurrent(s', x) ensures FrozenOk(s'.threads[x]) {
      if x != s.cpus[c].cur {
        forall d | 0 <= d < |s.cpus| ensures s.cpus[d].cur != x {
          assert d != c ==> s'.cpus[d].cur == s.cpus[d].cur;
        }
        assert !IsCurrent(s, x);
      }
    }
  }

  lemma ForkOk(s: State, c: nat, t: nat)
    requires Inv(s) && Enabled(s, Fork(c, t))
    ensures Inv(Apply(s, Fork(c, t)))
  {
    hide HeldBy, HeldCount;
    var s' := Apply(s, Fork(c, t));
    forall d | 0 <= d < |s'.cpus| ensures Here(s', d) && CpuOk(s', d) {
      assert Here(s, d) && CpuOk(s, d);
    }
    forall x | x in s'.threads && !IsCurrent(s', x) ensures FrozenOk(s'.threads[x]) {
      assert !IsCurrent(s, x);
    }
  }

  lemma ArriveOk(s: State, c: nat)
    requires Inv(s) && Enabled(s, Arrive(c))
    ensures Inv(Apply(s, Arrive(c)))
  {
    hide HeldBy, HeldCount, Inv;
    At(s, c);
    DropOk(s, c, Rq(c));
    LocalStep(s, Apply(s, Arrive(c)), c);
  }

  lemma GoIdleOk(s: State, c: nat)
    requires Inv(s) && Enabled(s, GoIdle(c))
    ensures Inv(Apply(s, GoIdle(c)))
  {
    hide HeldBy, HeldCount, Inv;
    At(s, c);
    DropOk(s, c, Rq(c));
    LocalStep(s, Apply(s, GoIdle(c)), c);
  }

  /** CPU c and its current thread are replaced; no lock changes hands. */
  function Changed(s: State, c: nat, cpu: CpuState, th: ThreadState): State
    requires c < |s.cpus|
  {
    State(s.cpus[c := cpu], s.threads[s.cpus[c].cur := th], s.holder)
  }

  lemma ChangedOk(s: State, c: nat, cpu: CpuState, th: ThreadState)
    requires Inv(s) && c < |s.cpus| && cpu.cur == s.cpus[c].cur && cpu.want == s.cpus[c].want == None
    requires cpu.spinlocks == s.cpus[c].spinlocks
    requires LevelOk(cpu.mode, Ipl(th.count, th.spl, cpu.spinlocks, cpu.irq)) && ModeOk(cpu.mode, th, Holds(s, c, Rq(c)))
    ensures Inv(Changed(s, c, cpu, th))
  {
    At(s, c);
    ChangedCpu(s, c, cpu, th);
    hide Inv, CpuOk, LevelOk, ModeOk, HeldBy, Holds;
    LocalStep(s, Changed(s, c, cpu, th), c);
  }

  lemma ChangedCpu(s: State, c: nat, cpu: CpuState, th: ThreadState)
    requires Here(s, c) && cpu.cur == s.cpus[c].cur && cpu.want == s.cpus[c].want == None
    requires s.cpus[c].spinlocks == HeldCount(s.holder, c) + Wanted(s.cpus[c].want) && cpu.spinlocks == s.cpus[c].spinlocks
    requires LevelOk(cpu.mode, Ipl(th.count, th.spl, cpu.spinlocks, cpu.irq)) && ModeOk(cpu.mode, th, Holds(s, c, Rq(c)))
    ensures Here(Changed(s, c, cpu, th), c) && CpuOk(Changed(s, c, cpu, th), c)
  {
    hide HeldCount, LevelOk, ModeOk;
    var s' := Changed(s, c, cpu, th);
    assert s'.cpus[c] == cpu && s'.threads[cpu.cur] == th;
  }

  lemma IdleIntOk(s: State, c: nat)
    requires Inv(s) && Enabled(s, IdleInt(c))
    ensures Inv(Apply(s, IdleInt(c)))
  {
    hide HeldBy, HeldCount, Inv, Balanced, WantOk, Holds;
    At(s, c);
    var th := s.threads[s.cpus[c].cur];
    var cpu := s.cpus[c].(irq := false, mode := Woke);
    IdleLevels(s.cpus[c].spinlocks, th, Holds(s, c, Rq(c)));
    NotWanted(s, c);
    IdleIntIs(s, c, cpu, th);
    hide CpuOk, LevelOk, ModeOk, Apply;
    ChangedOk(s, c, cpu, th);
  }

  lemma IdleLevels(spinlocks: int, th: ThreadState, held: bool)
    requires LevelOk(Idle, Ipl(th.count, th.spl, spinlocks, true)) && ModeOk(Idle, th, held)
    ensures LevelOk(Woke, Ipl(th.count, th.spl, spinlocks, false)) && ModeOk(Woke, th, held)
  {
  }

  lemma NotWanted(s: State, c: nat)
    requires Here(s, c) && WantOk(s, c) && !s.cpus[c].mode.Base? && !s.cpus[c].mode.Woke?
    ensures s.cpus[c].want == None
  {
  }

  lemma IdleIntIs(s: State, c: nat, cpu: CpuState, th: ThreadState)
    requires Enabled(s, IdleInt(c)) && cpu == s.cpus[c].(irq := false, mode := Woke) && th == s.threads[s.cpus[c].cur]
    ensures Apply(s, IdleInt(c)) == Changed(s, c, cpu, th)
  {
    assert s.threads[s.cpus[c].cur := th] == s.threads;
  }

  /** The asserts around an interrupt hold: the level is off when it comes. */
  lemma IntEnterOk(s: State, c: nat)
    requires Inv(s) && Enabled(s, IntEnter(c))
    ensures Inv(Apply(s, IntEnter(c)))
    ensures Here(s, c) && s.threads[s.cpus[c].cur].spl == IPL_NONE && s.threads[s.cpus[c].cur].count == 0
  {
    hide HeldBy, HeldCount, Inv, WantOk, Balanced, ModeOk;
    At(s, c);
    assert LevelOk(Base, Get(s, c));
    hide CpuOk;
    var th := s.threads[s.cpus[c].cur];
    var th' := th.(count := th.count + 1, spl := IPL_HIGH, handling := true);
    EnterLevels(s.cpus[c].spinlocks, th, th', Holds(s, c, Rq(c)));
    hide LevelOk, Holds;
    ChangedOk(s, c, s.cpus[c].(irq := false), th');
  }

  lemma EnterLevels(spinlocks: int, th: ThreadState, th': ThreadState, held: bool)
    requires LevelOk(Base, Ipl(th.count, th.spl, spinlocks, true))
    requires th' == ThreadState(th.count + 1, IPL_HIGH, th.saved, true)
    ensures th.count == 0 && th.spl == IPL_NONE
    ensures LevelOk(Base, Ipl(th'.count, th'.spl, spinlocks, false)) && ModeOk(Base, th', held)
  {
  }

  /** And nothing has leaked when it ends. */
  lemma IntExitOk(s: State, c: nat)
    requires Inv(s) && Enabled(s, IntExit(c))
    ensures Inv(Apply(s, IntExit(c)))
    ensures Here(s, c) && s.threads[s.cpus[c].cur].spl == IPL_HIGH && s.threads[s.cpus[c].cur].count == 1
  {
    hide HeldBy, HeldCount, Inv, WantOk, Balanced, ModeOk;
    At(s, c);
    var th := s.threads[s.cpus[c].cur];
    assert LevelOk(Base, Get(s, c)) && ModeOk(Base, th, Holds(s, c, Rq(c)));
    hide CpuOk;
    var th' := th.(count := th.count - 1, spl := IPL_NONE, handling := false);
    ExitLevels(s.cpus[c].irq, th, th', Holds(s, c, Rq(c)));
    ExitMode(th', Holds(s, c, Rq(c)));
    hide LevelOk, Holds;
    ChangedOk(s, c, s.cpus[c].(irq := true), th');
  }

  lemma ExitLevels(irq: bool, th: ThreadState, th': ThreadState, held: bool)
    requires Balanced(Ipl(th.count, th.spl, 0, irq)) && ModeOk(Base, th, held) && th.handling
    requires th' == ThreadState(th.count - 1, IPL_NONE, th.saved, false)
    ensures th.count == 1 && th.spl == IPL_HIGH
    ensures Balanced(Ipl(th'.count, th'.spl, 0, true))
  {
  }

  lemma ExitMode(th': ThreadState, held: bool)
    requires !th'.handling
    ensures ModeOk(Base, th', held)
  {
  }

  lemma UnidleOk(s: State, c: nat)
    requires Inv(s) && Enabled(s, Unidle(c))
    ensures Inv(Apply(s, Unidle(c)))
  {
    hide HeldBy, HeldCount, Inv;
    At(s, c);
    TakeOk(s, c, Rq(c));
    LocalStep(s, Apply(s, Unidle(c)), c);
  }

  lemma LockOk(s: State, op: Op)
    requires Inv(s) && Enabled(s, op) && (op.Want? || op.Got? || op.Unlock? || op.Splx?)
    ensures Inv(Apply(s, op))
  {
    hide HeldBy, HeldCount, Inv;
    At(s, op.c);
    match op
    case Splx(c, spl) => LocalStep(s, Apply(s, op), c);
    case Want(c, l) => LocalStep(s, Apply(s, op), c);
    case Got(c) =>
      HeldTake(s.holder, s.cpus[c].want.value, c);
      LocalStep(s, Apply(s, op), c);
    case Unlock(c, l) =>
      DropOk(s, c, l);
      LocalStep(s, Apply(s, op), c);
  }

  lemma StepOk(s: State, op: Op)
    requires Inv(s) && Enabled(s, op)
    ensures Inv(Apply(s, op))
  {
    hide Inv, HeldCount, Apply, Enabled;
    match op {
      case Leave(c, lk) => LeaveOk(s, c, lk);
      case SwitchTo(c, t) => SwitchToOk(s, c, t);
      case Arrive(c) => ArriveOk(s, c);
      case Fork(c, t) => ForkOk(s, c, t);
      case GoIdle(c) => GoIdleOk(s, c);
      case IdleInt(c) => IdleIntOk(s, c);
      case Unidle(c) => UnidleOk(s, c);
      case IntEnter(c) => IntEnterOk(s, c);
      case IntExit(c) => IntExitOk(s, c);
      case _ => LockOk(s, op);
    }
  }

  // ---------------------------------------------------------------- runs

  /** Every CPU boots in its own thread, interrupts off. */
  ghost predicate Initial(s: State) {
    && s.holder == map[]
    && (forall c :: 0 <= c < |s.cpus| ==> BootCpu(s, c))
    && (forall c, d :: 0 <= c < |s.cpus| && 0 <= d < |s.cpus| && c != d ==> s.cpus[c].cur != s.cpus[d].cur)
    && (forall t :: t in s.threads ==> IsCurrent(s, t))
  }

  predicate BootCpu(s: State, c: nat)
    requires c < |s.cpus|
  {
    s.cpus[c] == CpuState(s.cpus[c].cur, 0, false, Base, None)
    && s.cpus[c].cur in s.threads && s.threads[s.cpus[c].cur] == ThreadState(1, IPL_HIGH, IPL_NONE, false)
  }

  predicate Legal(s: State, ops: seq<Op>)
    decreases |ops|
  {
    ops == [] || (Enabled(s, ops[0]) && Legal(Apply(s, ops[0]), ops[1..]))
  }

  function Final(s: State, ops: seq<Op>): State
    requires Legal(s, ops)
    decreases |ops|
  {
    if ops == [] then s else Final(Apply(s, ops[0]), ops[1..])
  }

  lemma InitialOk(s: State)
    requires Initial(s)
    ensures Inv(s)
  {
    hide CpuOk, BootCpu;
    forall c | 0 <= c < |s.cpus| ensures Here(s, c) && CpuOk(s, c) {
      BootOk(s, c);
    }
  }

  lemma BootOk(s: State, c: nat)
    requires c < |s.cpus| && BootCpu(s, c) && s.holder == map[]
    ensures Here(s, c) && CpuOk(s, c)
  {
    NoneHeld(s.holder, c);
    hide HeldBy, HeldCount;
  }

  lemma NoneHeld(holder: map<Lock, nat>, c: nat)
    requires holder == map[]
    ensures HeldCount(holder, c) == 0
  {
    assert HeldBy(holder, c) == {};
  }

  lemma {:induction false} RunOk(s: State, ops: seq<Op>)
    requires Inv(s) && Legal(s, ops)
    ensures Inv(Final(s, ops))
    decreases |ops|
  {
    hide Inv, Enabled, Apply;
    if ops != [] {
      StepOk(s, ops[0]);
      RunOk(Apply(s, ops[0]), ops[1..]);
    }
  }

  /** On every CPU, in every reachable state, outside cpu_idle: the count balances and decides whether interrupts are on. */
  lemma CountsBalance(s: State, ops: seq<Op>, c: nat)
    requires Initial(s) && Legal(s, ops) && c < |Final(s, ops).cpus| && !Final(s, ops).cpus[c].mode.Idle?
    ensures var f := Final(s, ops); var cpu := f.cpus[c];
            && cpu.cur in f.threads
            && f.threads[cpu.cur].count == f.threads[cpu.cur].spl + cpu.spinlocks
            && (cpu.irq <==> f.threads[cpu.cur].count == 0)
            && cpu.spinlocks == HeldCount(f.holder, c) + Wanted(cpu.want)
  {
    InitialOk(s);
    RunOk(s, ops);
    At(Final(s, ops), c);
  }

  /** Every thread that is switched out or newly forked is frozen at a count of two. */
  lemma FrozenAtTwo(s: State, ops: seq<Op>, t: nat)
    requires Initial(s) && Legal(s, ops) && t in Final(s, ops).threads && !IsCurrent(Final(s, ops), t)
    ensures Final(s, ops).threads[t].count == 2 && Final(s, ops).threads[t].spl == IPL_HIGH
  {
    InitialOk(s);
    RunOk(s, ops);
  }

  /** The hand-off: whichever thread arrives, its CPU holds its own run queue lock and nothing else, so the release balances. */
  lemma HandOff(s: State, ops: seq<Op>, c: nat)
    requires Initial(s) && Legal(s, ops) && Enabled(Final(s, ops), Arrive(c))
    ensures var f := Final(s, ops);
            && Holds(f, c, Rq(c)) && f.cpus[c].spinlocks == 1 && HeldBy(f.holder, c) == {Rq(c)}
            && f.threads[f.cpus[c].cur].count == 2
            && var g := Apply(f, Arrive(c));
               g.threads[g.cpus[c].cur].count == g.threads[g.cpus[c].cur].spl == f.threads[f.cpus[c].cur].saved
  {
    InitialOk(s);
    RunOk(s, ops);
    var f := Final(s, ops);
    At(f, c);
    var held := HeldBy(f.holder, c);
    assert Rq(c) in held && |held| == 1;
    forall l | l in held ensures l == Rq(c) {
      assert |held - {Rq(c)}| == 0;
      assert l != Rq(c) ==> l in held - {Rq(c)};
    }
  }
}
