/**
 Threads and CPUs (kern/thread/thread.c) as a state machine. Each step is one critical section of a run
 queue or wait channel lock, or one iteration of a loop inside one; steps of all CPUs interleave freely.
 */
module Sched {
  import opened Prelude

  datatype ThreadState = Run | Ready | Sleep | Zombie

  /**
   Every thread list of the system: per CPU, per wait channel, and the private lists of loops under way.
   Newborn holds the thread that its parent, inside thread_fork, has created and not yet made runnable.
   */
  datatype Place =
    | Runq(c: nat)
    | Zombies(c: nat)
    | Chan(w: nat)
    | Woken(c: nat)
    | Victims(c: nat)
    | Newborn(parent: nat)

  /**
   Where a CPU is in thread_switch. Picking: the run queue lock is held and a thread is looked for; Idling:
   in cpu_idle; Resuming: the next thread is current and still holds the lock its predecessor took;
   Burying: in exorcise.
   */
  datatype Phase = Running | Picking | Idling | Resuming | Burying

  /** thread_consider_migration: Taking(k) has k threads still to take off the own run queue. */
  datatype Migration = NotMigrating | Taking(left: nat) | Sending

  /** ipi: an unidle interrupt is pending; awake: an interrupt has ended this cpu_idle, which will return. */
  datatype Cpu = Cpu(cur: nat, isidle: bool, phase: Phase, mig: Migration, ipi: bool, awake: bool)

  datatype Thread = Thread(cpu: nat, state: ThreadState)

  /** place records on which list a thread is; the invariant ties it to the lists. */
  datatype State = State(cpus: seq<Cpu>, threads: map<nat, Thread>, lists: map<Place, seq<nat>>, place: map<nat, Place>)

  function Listed(s: State, p: Place): seq<nat> { if p in s.lists then s.lists[p] else [] }

  datatype Op =
    | Yield(c: nat)
    | SleepOn(c: nat, w: nat)
    | Exit(c: nat)
    | GoIdle(c: nat)
    | Interrupt(c: nat, unidle: bool)
    | Unidle(c: nat)
    | Pick(c: nat)
    | Resume(c: nat)
    | Bury(c: nat)
    | BuryDone(c: nat)
    | Fork(c: nat, t: nat)
    | Launch(c: nat)
    | Grab(c: nat, w: nat)
    | Wake(c: nat)
    | MigStart(c: nat, k: nat)
    | MigTake(c: nat)
    | MigSend(c: nat, d: nat)
    | MigSkip(c: nat)
    | MigReturn(c: nat)
    | MigEnd(c: nat)

  // ---------------------------------------------------------------- list operations

  /** threadlist_addtail. */
  function AddTail(s: State, t: nat, p: Place): State {
    s.(lists := s.lists[p := Listed(s, p) + [t]], place := s.place[t := p])
  }

  /** threadlist_addhead. */
  function AddHead(s: State, t: nat, p: Place): State {
    s.(lists := s.lists[p := [t] + Listed(s, p)], place := s.place[t := p])
  }

  /** threadlist_remhead of a list that is not empty. */
  function RemHead(s: State, p: Place): State
    requires Listed(s, p) != []
  {
    var l := Listed(s, p);
    s.(lists := s.lists[p := l[1..]], place := s.place - {l[0]})
  }

  function RemTail(s: State, p: Place): State
    requires Listed(s, p) != []
  {
    var l := Listed(s, p);
    s.(lists := s.lists[p := l[..|l| - 1]], place := s.place - {l[|l| - 1]})
  }

  function SetCpu(s: State, c: nat, cpu: Cpu): State
    requires c < |s.cpus|
  {
    s.(cpus := s.cpus[c := cpu])
  }

  function SetThread(s: State, t: nat, th: Thread): State {
    s.(threads := s.threads[t := th])
  }

  // ---------------------------------------------------------------- the steps

  /** The lock of c's run queue is free: c itself is not between taking it and handing it over. */
  predicate QueueUnlocked(s: State, c: nat) {
    c < |s.cpus| && !s.cpus[c].phase.Picking? && !s.cpus[c].phase.Resuming?
  }

  /** c executes code outside thread_switch, perhaps an interrupt handler while it idles. */
  predicate Executing(s: State, c: nat) {
    c < |s.cpus| && (s.cpus[c].phase.Running? || (s.cpus[c].phase.Idling? && s.cpus[c].awake))
  }

  /** It is not in the middle of a migration or a wakeup either. */
  predicate Free(s: State, c: nat) {
    Executing(s, c) && s.cpus[c].mig == NotMigrating && Listed(s, Woken(c)) == []
  }

  /** thread_switch gets past its idle test and can put the current thread somewhere. */
  predicate CanSwitch(s: State, c: nat) {
    Free(s, c) && !s.cpus[c].isidle && s.cpus[c].cur in s.threads
  }

  predicate Enabled(s: State, op: Op) {
    match op
    case Yield(c) => CanSwitch(s, c) && Listed(s, Runq(c)) != []
    case SleepOn(c, w) => CanSwitch(s, c)
    case Exit(c) => CanSwitch(s, c) && Listed(s, Newborn(s.cpus[c].cur)) == []
    case GoIdle(c) => c < |s.cpus| && s.cpus[c].phase.Picking? && Listed(s, Runq(c)) == []
    case Interrupt(c, unidle) => c < |s.cpus| && (s.cpus[c].phase.Running? || s.cpus[c].phase.Idling?)
    case Unidle(c) => Free(s, c) && s.cpus[c].phase.Idling?
    case Pick(c) => c < |s.cpus| && s.cpus[c].phase.Picking? && Listed(s, Runq(c)) != []
    case Resume(c) => c < |s.cpus| && s.cpus[c].phase.Resuming? && s.cpus[c].cur in s.threads
    case Bury(c) => c < |s.cpus| && s.cpus[c].phase.Burying? && Listed(s, Zombies(c)) != []
    case BuryDone(c) => c < |s.cpus| && s.cpus[c].phase.Burying? && Listed(s, Zombies(c)) == []
    case Fork(c, t) =>
      Free(s, c) && s.cpus[c].phase.Running? && t !in s.threads && Listed(s, Newborn(s.cpus[c].cur)) == []
    case Launch(c) =>
      && Free(s, c) && s.cpus[c].phase.Running?
      && Listed(s, Newborn(s.cpus[c].cur)) != [] && Listed(s, Newborn(s.cpus[c].cur))[0] in s.threads
      && QueueUnlocked(s, s.threads[Listed(s, Newborn(s.cpus[c].cur))[0]].cpu)
    case Grab(c, w) =>
      Executing(s, c) && s.cpus[c].mig == NotMigrating && Listed(s, Chan(w)) != []
    case Wake(c) =>
      && c < |s.cpus| && Listed(s, Woken(c)) != [] && Listed(s, Woken(c))[0] in s.threads
      && QueueUnlocked(s, s.threads[Listed(s, Woken(c))[0]].cpu)
    case MigStart(c, k) => Free(s, c) && k <= |Listed(s, Runq(c))|
    case MigTake(c) => c < |s.cpus| && s.cpus[c].mig.Taking? && s.cpus[c].mig.left > 0
    case MigSend(c, d) =>
      && c < |s.cpus| && d != c && s.cpus[c].mig.Sending? && Listed(s, Victims(c)) != []
      && Listed(s, Victims(c))[0] != s.cpus[c].cur && Listed(s, Victims(c))[0] in s.threads && QueueUnlocked(s, d)
    case MigSkip(c) =>
      c < |s.cpus| && s.cpus[c].mig.Sending? && Listed(s, Victims(c)) != [] && Listed(s, Victims(c))[0] == s.cpus[c].cur
    case MigReturn(c) => c < |s.cpus| && s.cpus[c].mig.Sending? && Listed(s, Victims(c)) != []
    case MigEnd(c) =>
      c < |s.cpus| && (s.cpus[c].mig == Taking(0) || (s.cpus[c].mig.Sending? && Listed(s, Victims(c)) == []))
  }

  /** The current thread is put on p in state st, and c starts to look for another. */
  function SwitchOut(s: State, c: nat, st: ThreadState, p: Place): State
    requires CanSwitch(s, c)
  {
    var t := s.cpus[c].cur;
    SetCpu(SetThread(AddTail(s, t, p), t, s.threads[t].(state := st)), c, s.cpus[c].(isidle := true, phase := Picking))
  }

  /** ipi_send, when another CPU puts a thread on the run queue of an idle one. */
  function Kick(s: State, c: nat, d: nat): State {
    if d < |s.cpus| && s.cpus[d].isidle && d != c then SetCpu(s, d, s.cpus[d].(ipi := true)) else s
  }

  /** thread_make_runnable, by c, of the head of a private list: it goes to the run queue of the thread's own CPU. */
  function MakeRunnable(s: State, c: nat, p: Place): State
    requires Listed(s, p) != [] && Listed(s, p)[0] in s.threads
  {
    var t := Listed(s, p)[0];
    var d := s.threads[t].cpu;
    AddTail(SetThread(RemHead(Kick(s, c, d), p), t, s.threads[t].(state := Ready)), t, Runq(d))
  }

  /** remtail would return NULL. */
  predicate NothingToTake(s: State, c: nat) { Listed(s, Runq(c)) == [] }

  function Apply(s: State, op: Op): State
    requires Enabled(s, op)
  {
    match op
    case Yield(c) => SwitchOut(s, c, Ready, Runq(c))
    case SleepOn(c, w) => SwitchOut(s, c, Sleep, Chan(w))
    case Exit(c) => SwitchOut(s, c, Zombie, Zombies(c))
    case GoIdle(c) => SetCpu(s, c, s.cpus[c].(phase := Idling, awake := false))
    case Interrupt(c, unidle) =>
      SetCpu(s, c, s.cpus[c].(awake := s.cpus[c].awake || s.cpus[c].phase.Idling?, ipi := s.cpus[c].ipi && !unidle))
    case Unidle(c) => SetCpu(s, c, s.cpus[c].(phase := Picking))
    case Pick(c) =>
      SetCpu(RemHead(s, Runq(c)), c, s.cpus[c].(cur := Listed(s, Runq(c))[0], isidle := false, phase := Resuming))
    case Resume(c) =>
      var t := s.cpus[c].cur;
      SetCpu(SetThread(s, t, s.threads[t].(state := Run)), c, s.cpus[c].(phase := Burying))
    case Bury(c) =>
      var z := Listed(s, Zombies(c))[0];
      var s1 := RemHead(s, Zombies(c));
      s1.(threads := s1.threads - {z})
    case BuryDone(c) => SetCpu(s, c, s.cpus[c].(phase := Running))
    case Fork(c, t) => AddTail(SetThread(s, t, Thread(c, Ready)), t, Newborn(s.cpus[c].cur))
    case Launch(c) => MakeRunnable(s, c, Newborn(s.cpus[c].cur))
    case Grab(c, w) => AddTail(RemHead(s, Chan(w)), Listed(s, Chan(w))[0], Woken(c))
    case Wake(c) => MakeRunnable(s, c, Woken(c))
    case MigStart(c, k) => SetCpu(s, c, s.cpus[c].(mig := Taking(k)))
    case MigTake(c) =>
      if NothingToTake(s, c) then s
      else
        var l := Listed(s, Runq(c));
        var left := s.cpus[c].mig.left - 1;
        SetCpu(AddHead(RemTail(s, Runq(c)), l[|l| - 1], Victims(c)), c,
               s.cpus[c].(mig := if left == 0 then Sending else Taking(left)))
    case MigSend(c, d) =>
      var t := Listed(s, Victims(c))[0];
      AddTail(SetThread(RemHead(Kick(s, c, d), Victims(c)), t, s.threads[t].(cpu := d)), t, Runq(d))
    case MigSkip(c) => AddTail(RemHead(s, Victims(c)), Listed(s, Victims(c))[0], Victims(c))
    case MigReturn(c) => AddTail(RemHead(s, Victims(c)), Listed(s, Victims(c))[0], Runq(c))
    case MigEnd(c) => SetCpu(s, c, s.cpus[c].(mig := NotMigrating))
  }

  // ---------------------------------------------------------------- the invariant

  /** The lists and the record of places agree, so a thread is on at most one list, and there once. */
  ghost predicate ListsAgree(s: State) {
    && (forall p :: NoDup(Listed(s, p)))
    && (forall p, t :: t in Listed(s, p) <==> t in s.place && s.place[t] == p)
  }

  /** What being on a list says about a thread. */
  predicate PlacedOk(th: Thread, p: Place) {
    match p
    case Runq(c) => th.cpu == c && th.state == Ready
    case Zombies(c) => th.cpu == c && th.state == Zombie
    case Chan(w) => th.state == Sleep
    case Woken(c) => th.state == Sleep
    case Victims(c) => th.cpu == c && th.state == Ready
    case Newborn(_) => th.state == Ready
  }

  predicate IsCurrent(s: State, t: nat)
    requires t in s.threads && s.threads[t].cpu < |s.cpus|
  {
    s.cpus[s.threads[t].cpu].cur == t
  }

  /** On a list, or running; both only while its own CPU is idle. */
  predicate ThreadOk(s: State, t: nat)
    requires t in s.threads
  {
    && s.threads[t].cpu < |s.cpus|
    && (t in s.place ==> PlacedOk(s.threads[t], s.place[t]) && (IsCurrent(s, t) ==> s.cpus[s.threads[t].cpu].isidle))
    && (t !in s.place ==> IsCurrent(s, t) && !s.cpus[s.threads[t].cpu].isidle)
  }

  predicate CpuOk(s: State, c: nat)
    requires c < |s.cpus|
  {
    var cpu := s.cpus[c];
    && cpu.cur in s.threads && s.threads[cpu.cur].cpu == c
    && (cpu.isidle <==> cpu.phase.Picking? || cpu.phase.Idling?)
    && (cpu.phase.Running? || cpu.phase.Burying? ==> s.threads[cpu.cur].state == Run)
    && (cpu.phase.Resuming? ==> s.threads[cpu.cur].state == Ready)
    && (!cpu.mig.NotMigrating? || Listed(s, Woken(c)) != [] ==> Executing(s, c))
    && (cpu.phase.Idling? && Listed(s, Runq(c)) != [] ==> cpu.awake || cpu.ipi)
    && (cpu.mig.Taking? ==> cpu.mig.left <= |Listed(s, Runq(c))|)
    && (cpu.mig.NotMigrating? || cpu.mig == Taking(0) ==> Listed(s, Victims(c)) == [])
  }

  ghost predicate Inv(s: State) {
    && ListsAgree(s)
    && (forall t :: t in s.threads ==> ThreadOk(s, t))
    && (forall t :: t in s.place ==> t in s.threads)
    && (forall c :: 0 <= c < |s.cpus| ==> CpuOk(s, c))
  }
}
