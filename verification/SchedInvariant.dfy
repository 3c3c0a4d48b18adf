/** Every step of the scheduler keeps the placement invariant, and what it means in every reachable state. */
module SchedInvariant {
  import opened Prelude
  import opened Sched

  // ---------------------------------------------------------------- lists

  lemma SameLists(s: State, s': State)
    requires ListsAgree(s) && s'.lists == s.lists && s'.place == s.place
    ensures ListsAgree(s')
  {
    assert forall p :: Listed(s', p) == Listed(s, p);
  }

  lemma AddTailAgree(s: State, t: nat, p: Place)
    requires ListsAgree(s) && t !in s.place
    ensures ListsAgree(AddTail(s, t, p))
  {
    var s' := AddTail(s, t, p);
    assert t !in Listed(s, p);
    forall q | true ensures NoDup(Listed(s', q)) {
      assert q != p ==> Listed(s', q) == Listed(s, q);
    }
    forall q, x | true ensures x in Listed(s', q) <==> x in s'.place && s'.place[x] == q {
      assert q != p ==> Listed(s', q) == Listed(s, q);
      assert x in Listed(s', p) <==> x in Listed(s, p) || x == t;
      assert x in Listed(s, q) <==> x in s.place && s.place[x] == q;
    }
  }

  lemma AddHeadAgree(s: State, t: nat, p: Place)
    requires ListsAgree(s) && t !in s.place
    ensures ListsAgree(AddHead(s, t, p))
  {
    var s' := AddHead(s, t, p);
    assert t !in Listed(s, p);
    forall q | true ensures NoDup(Listed(s', q)) {
      assert q != p ==> Listed(s', q) == Listed(s, q);
    }
    forall q, x | true ensures x in Listed(s', q) <==> x in s'.place && s'.place[x] == q {
      assert q != p ==> Listed(s', q) == Listed(s, q);
      assert x in Listed(s', p) <==> x in Listed(s, p) || x == t;
      assert x in Listed(s, q) <==> x in s.place && s.place[x] == q;
    }
  }

  lemma RemHeadAgree(s: State, p: Place)
    requires ListsAgree(s) && Listed(s, p) != []
    ensures ListsAgree(RemHead(s, p)) && Listed(s, p)[0] in s.place && s.place[Listed(s, p)[0]] == p
    ensures Listed(s, p)[0] !in RemHead(s, p).place
  {
    var l := Listed(s, p);
    assert l[..0] + l[1..] == l[1..];
    RemovedAgree(s, RemHead(s, p), p, 0);
  }

  lemma RemTailAgree(s: State, p: Place)
    requires ListsAgree(s) && Listed(s, p) != []
    ensures var x := Listed(s, p)[|Listed(s, p)| - 1];
            ListsAgree(RemTail(s, p)) && x in s.place && s.place[x] == p && x !in RemTail(s, p).place
  {
    var l, n := Listed(s, p), |Listed(s, p)| - 1;
    assert l[..n] + l[n + 1..] == l[..n];
    RemovedAgree(s, RemTail(s, p), p, n);
  }

  lemma RemovedAgree(s: State, s': State, p: Place, k: nat)
    requires ListsAgree(s) && k < |Listed(s, p)|
    requires var l := Listed(s, p);
             s'.lists == s.lists[p := l[..k] + l[k + 1..]] && s'.place == s.place - {l[k]}
    ensures ListsAgree(s') && Listed(s, p)[k] in s.place && s.place[Listed(s, p)[k]] == p
  {
    var l := Listed(s, p);
    assert NoDup(l) && l[k] in l;
    RemovedOnce(l, k);
    hide NoDup;
    forall q | true ensures NoDup(Listed(s', q)) {
      assert NoDup(Listed(s, q));
    }
    forall q, x | true ensures x in Listed(s', q) <==> x in s'.place && s'.place[x] == q {
      RemovedMember(s, s', p, k, q, x);
    }
  }

  lemma RemovedMember(s: State, s': State, p: Place, k: nat, q: Place, x: nat)
    requires k < |Listed(s, p)| && (x in Listed(s, q) <==> x in s.place && s.place[x] == q)
    requires Listed(s, p)[k] in s.place && s.place[Listed(s, p)[k]] == p
    requires var l := Listed(s, p);
             && s'.lists == s.lists[p := l[..k] + l[k + 1..]] && s'.place == s.place - {l[k]}
             && (x in l[..k] + l[k + 1..] <==> x in l && x != l[k])
    ensures x in Listed(s', q) <==> x in s'.place && s'.place[x] == q
  {
  }

  // ---------------------------------------------------------------- leaving a CPU

  lemma SwitchOutOk(s: State, c: nat, st: ThreadState, p: Place)
    requires Inv(s) && CanSwitch(s, c) && PlacedOk(Thread(c, st), p) && (p.Runq? || p.Chan? || p.Zombies?)
    ensures Inv(SwitchOut(s, c, st, p))
  {
    hide ListsAgree;
    var t, s' := s.cpus[c].cur, SwitchOut(s, c, st, p);
    assert ThreadOk(s, t) && CpuOk(s, c);
    assert ListsAgree(s') by {
      AddTailAgree(s, t, p);
      SameLists(AddTail(s, t, p), s');
    }
    forall d | 0 <= d < |s'.cpus| ensures CpuOk(s', d) {
      assert CpuOk(s, d);
    }
    forall x | x in s'.threads ensures ThreadOk(s', x) {
      assert ThreadOk(s, x);
    }
  }

  // ---------------------------------------------------------------- the other steps

  lemma PhaseOk(s: State, c: nat, cpu: Cpu)
    requires Inv(s) && c < |s.cpus| && cpu.cur == s.cpus[c].cur && cpu.isidle == s.cpus[c].isidle
    requires CpuOk(SetCpu(s, c, cpu), c)
    ensures Inv(SetCpu(s, c, cpu))
  {
    hide ListsAgree;
    var s' := SetCpu(s, c, cpu);
    assert ListsAgree(s') by { SameLists(s, s'); }
    forall d | 0 <= d < |s'.cpus| ensures CpuOk(s', d) {
      assert CpuOk(s, d);
    }
    forall x | x in s'.threads ensures ThreadOk(s', x) {
      assert ThreadOk(s, x);
    }
  }

  lemma PickOk(s: State, c: nat)
    requires Inv(s) && Enabled(s, Pick(c))
    ensures Inv(Apply(s, Pick(c)))
  {
    hide ListsAgree;
    var t, s' := Listed(s, Runq(c))[0], Apply(s, Pick(c));
    RemHeadAgree(s, Runq(c));
    assert ThreadOk(s, t) && CpuOk(s, c);
    assert ThreadOk(s, s.cpus[c].cur);
    assert ListsAgree(s') by { SameLists(RemHead(s, Runq(c)), s'); }
    forall d | 0 <= d < |s'.cpus| ensures CpuOk(s', d) {
      assert CpuOk(s, d);
    }
    CurListed(s, c);
    forall x | x in s'.threads ensures ThreadOk(s', x) {
      assert ThreadOk(s, x);
    }
  }

  /** The thread an idle CPU still calls current is on some list. */
  lemma CurListed(s: State, c: nat)
    requires Inv(s) && c < |s.cpus| && s.cpus[c].isidle
    ensures s.cpus[c].cur in s.place
  {
    assert CpuOk(s, c) && ThreadOk(s, s.cpus[c].cur);
  }

  lemma ResumeOk(s: State, c: nat)
    requires Inv(s) && Enabled(s, Resume(c))
    ensures Inv(Apply(s, Resume(c)))
  {
    hide ListsAgree;
    var t, s' := s.cpus[c].cur, Apply(s, Resume(c));
    assert ThreadOk(s, t) && CpuOk(s, c);
    assert ListsAgree(s') by { SameLists(s, s'); }
    forall d | 0 <= d < |s'.cpus| ensures CpuOk(s', d) {
      assert CpuOk(s, d);
    }
    forall x | x in s'.threads ensures ThreadOk(s', x) {
      assert ThreadOk(s, x);
    }
  }

  lemma BuryOk(s: State, c: nat)
    requires Inv(s) && Enabled(s, Bury(c))
    ensures Inv(Apply(s, Bury(c)))
  {
    hide ListsAgree;
    var z, s' := Listed(s, Zombies(c))[0], Apply(s, Bury(c));
    RemHeadAgree(s, Zombies(c));
    assert ThreadOk(s, z) && CpuOk(s, c);
    assert ListsAgree(s') by { SameLists(RemHead(s, Zombies(c)), s'); }
    forall d | 0 <= d < |s'.cpus| ensures CpuOk(s', d) {
      assert CpuOk(s, d);
    }
    forall x | x in s'.threads ensures ThreadOk(s', x) {
      assert ThreadOk(s, x);
    }
  }

  lemma ForkOk(s: State, c: nat, t: nat)
    requires Inv(s) && Enabled(s, Fork(c, t))
    ensures Inv(Apply(s, Fork(c, t)))
  {
    hide ListsAgree;
    var s1, s' := SetThread(s, t, Thread(c, Ready)), Apply(s, Fork(c, t));
    assert t !in s.place;
    assert ListsAgree(s') by {
      SameLists(s, s1);
      AddTailAgree(s1, t, Newborn(s.cpus[c].cur));
    }
    forall d | 0 <= d < |s'.cpus| ensures CpuOk(s', d) {
      assert CpuOk(s, d);
    }
    forall x | x in s'.threads ensures ThreadOk(s', x) {
      assert x != t ==> ThreadOk(s, x);
      assert CpuOk(s, c);
    }
  }

  lemma MoveLists(s: State, p: Place, q: Place, th: Thread, s': State)
    requires ListsAgree(s) && Listed(s, p) != []
    requires var t := Listed(s, p)[0]; s' == AddTail(SetThread(RemHead(s, p), t, th), t, q)
    ensures ListsAgree(s')
  {
    hide ListsAgree;
    var t := Listed(s, p)[0];
    RemHeadAgree(s, p);
    var s1 := RemHead(s, p);
    var s2 := SetThread(s1, t, th);
    SameLists(s1, s2);
    AddTailAgree(s2, t, q);
  }

  /** A thread goes from the head of one list to the tail of another; it may change its CPU if it is nobody's current thread. */
  lemma MoveOk(s: State, p: Place, q: Place, th: Thread, s': State)
    requires Inv(s) && Listed(s, p) != [] && Moves(s, p, q, th, s')
    ensures Inv(s')
  {
    hide ListsAgree, ThreadOk, CpuOk, PlacedOk, Moves;
    var t := Listed(s, p)[0];
    RemHeadAgree(s, p);
    MovedShape(s, p, q, th, s');
    MoveLists(s, p, q, th, s');
    forall d | 0 <= d < |s'.cpus| ensures CpuOk(s', d) {
      MovedCpu(s, p, q, th, s', d);
    }
    forall x | x in s'.threads ensures ThreadOk(s', x) {
      MovedThread(s, p, q, th, s', x);
    }
  }

  predicate Moves(s: State, p: Place, q: Place, th: Thread, s': State)
    requires Listed(s, p) != []
  {
    var t := Listed(s, p)[0];
    && t in s.threads && th.cpu < |s.cpus| && PlacedOk(th, q)
    && s' == AddTail(SetThread(RemHead(s, p), t, th), t, q)
    && !p.Runq? && (q.Victims? ==> p == q) && (q.Woken? ==> Executing(s, q.c))
    && (q.Runq? && q.c < |s.cpus| && s.cpus[q.c].phase.Idling? ==> s.cpus[q.c].awake || s.cpus[q.c].ipi)
    && (th.cpu == s.threads[t].cpu || (s.threads[t].cpu < |s.cpus| && !IsCurrent(s, t)))
  }

  lemma MovedShape(s: State, p: Place, q: Place, th: Thread, s': State)
    requires Listed(s, p) != [] && Moves(s, p, q, th, s')
    ensures var t := Listed(s, p)[0];
            && t in s.threads && s'.threads == s.threads[t := th] && s'.cpus == s.cpus
            && s'.place == (s.place - {t})[t := q] && s' == AddTail(SetThread(RemHead(s, p), t, th), t, q)
  {
  }

  lemma MovedThread(s: State, p: Place, q: Place, th: Thread, s': State, x: nat)
    requires Inv(s) && Listed(s, p) != [] && Moves(s, p, q, th, s') && x in s'.threads
    ensures ThreadOk(s', x)
  {
    hide ListsAgree, CpuOk;
    var t := Listed(s, p)[0];
    RemHeadAgree(s, p);
    MovedShape(s, p, q, th, s');
    assert ThreadOk(s, t) && ThreadOk(s, x);
    if x == t {
      CurrentElsewhere(s, t, th.cpu);
    }
  }

  /** A thread is current on no CPU but its own. */
  lemma CurrentElsewhere(s: State, t: nat, d: nat)
    requires Inv(s) && t in s.threads && d < |s.cpus|
    ensures d != s.threads[t].cpu ==> s.cpus[d].cur != t
  {
    assert CpuOk(s, d);
  }

  lemma MovedCpu(s: State, p: Place, q: Place, th: Thread, s': State, d: nat)
    requires Inv(s) && Listed(s, p) != [] && Moves(s, p, q, th, s') && d < |s'.cpus|
    ensures CpuOk(s', d)
  {
    hide ListsAgree;
    var t := Listed(s, p)[0];
    RemHeadAgree(s, p);
    MovedShape(s, p, q, th, s');
    assert CpuOk(s, d) && ThreadOk(s, t);
    hide ThreadOk;
    assert Listed(s', Runq(d)) == if q == Runq(d) then Listed(s, Runq(d)) + [t] else Listed(s, Runq(d));
    assert Listed(s', Victims(d)) != [] ==> Listed(s, Victims(d)) != [];
    assert Listed(s', Woken(d)) != [] ==> Executing(s, d);
  }

  lemma MigTakeOk(s: State, c: nat)
    requires Inv(s) && Enabled(s, MigTake(c))
    ensures Inv(Apply(s, MigTake(c))) && !NothingToTake(s, c)
  {
    hide ListsAgree, CpuOk, ThreadOk;
    QueueLasts(s, c);
    var l := Listed(s, Runq(c));
    var t, s' := l[|l| - 1], Apply(s, MigTake(c));
    RemTailAgree(s, Runq(c));
    assert ListsAgree(s') by {
      var s1 := RemTail(s, Runq(c));
      AddHeadAgree(s1, t, Victims(c));
      SameLists(AddHead(s1, t, Victims(c)), s');
    }
    forall d | 0 <= d < |s'.cpus| ensures CpuOk(s', d) {
      TakenCpu(s, c, d);
    }
    forall x | x in s'.threads ensures ThreadOk(s', x) {
      TakenThread(s, c, x);
    }
  }

  lemma TakenCpu(s: State, c: nat, d: nat)
    requires Inv(s) && Enabled(s, MigTake(c)) && !NothingToTake(s, c) && d < |s.cpus|
    ensures CpuOk(Apply(s, MigTake(c)), d)
  {
    assert CpuOk(s, d);
    hide Inv;
  }

  lemma TakenThread(s: State, c: nat, x: nat)
    requires Inv(s) && Enabled(s, MigTake(c)) && !NothingToTake(s, c) && x in s.threads
    ensures ThreadOk(Apply(s, MigTake(c)), x)
  {
    var l := Listed(s, Runq(c));
    RemTailAgree(s, Runq(c));
    assert ThreadOk(s, x) && ThreadOk(s, l[|l| - 1]);
    hide Inv;
  }

  lemma MigSendOk(s0: State, c: nat, d: nat)
    requires Inv(s0) && Enabled(s0, MigSend(c, d))
    ensures Inv(Apply(s0, MigSend(c, d)))
  {
    hide Inv;
    KickOk(s0, c, d);
    CpuIs(s0, d);
    SendOk(Kick(s0, c, d), c, d, Apply(s0, MigSend(c, d)));
  }

  lemma SendOk(s: State, c: nat, d: nat, s': State)
    requires Inv(s) && c < |s.cpus| && d < |s.cpus| && d != c && s.cpus[c].mig.Sending? && Listed(s, Victims(c)) != []
    requires s.cpus[d].phase.Idling? ==> s.cpus[d].awake || s.cpus[d].ipi
    requires var t := Listed(s, Victims(c))[0];
             && t != s.cpus[c].cur && t in s.threads
             && s' == AddTail(SetThread(RemHead(s, Victims(c)), t, s.threads[t].(cpu := d)), t, Runq(d))
    ensures Inv(s')
  {
    hide Inv;
    HeadAlive(s, Victims(c));
    var t := Listed(s, Victims(c))[0];
    MoveOk(s, Victims(c), Runq(d), s.threads[t].(cpu := d), s');
  }

  /** The head of a list is a live thread. */
  lemma HeadAlive(s: State, p: Place)
    requires Inv(s) && Listed(s, p) != []
    ensures Listed(s, p)[0] in s.threads && ThreadOk(s, Listed(s, p)[0])
    ensures Listed(s, p)[0] in s.place && s.place[Listed(s, p)[0]] == p
  {
    RemHeadAgree(s, p);
  }

  lemma StepOk(s: State, op: Op)
    requires Inv(s) && Enabled(s, op)
    ensures Inv(Apply(s, op))
  {
    hide Inv, ListsAgree;
    match op {
      case Yield(c) => SwitchOutOk(s, c, Ready, Runq(c));
      case SleepOn(c, w) => SwitchOutOk(s, c, Sleep, Chan(w));
      case Exit(c) => SwitchOutOk(s, c, Zombie, Zombies(c));
      case Pick(c) => PickOk(s, c);
      case Resume(c) => ResumeOk(s, c);
      case Bury(c) => BuryOk(s, c);
      case Fork(c, t) => ForkOk(s, c, t);
      case Launch(c) => CpuIs(s, c); RunnableOk(s, c, Newborn(s.cpus[c].cur));
      case Grab(c, w) => GrabOk(s, c, w);
      case Wake(c) => CpuIs(s, c); RunnableOk(s, c, Woken(c));
      case MigTake(c) => MigTakeOk(s, c);
      case MigSend(c, d) => MigSendOk(s, c, d);
      case MigSkip(c) => SkipOk(s, c, Victims(c));
      case MigReturn(c) => SkipOk(s, c, Runq(c));
      case _ => LocalOk(s, op);
    }
  }

  lemma LocalOk(s: State, op: Op)
    requires Inv(s) && Enabled(s, op) && Quiet(op) && !op.Resume?
    ensures Inv(Apply(s, op))
  {
    hide Inv;
    CpuIs(s, op.c);
    match op {
      case GoIdle(c) => PhaseOk(s, c, s.cpus[c].(phase := Idling, awake := false));
      case Interrupt(c, unidle) => InterruptOk(s, c, unidle);
      case Unidle(c) => PhaseOk(s, c, s.cpus[c].(phase := Picking));
      case BuryDone(c) => PhaseOk(s, c, s.cpus[c].(phase := Running));
      case MigStart(c, k) => PhaseOk(s, c, s.cpus[c].(mig := Taking(k)));
      case MigEnd(c) => PhaseOk(s, c, s.cpus[c].(mig := NotMigrating));
    }
  }

  lemma InterruptOk(s: State, c: nat, unidle: bool)
    requires Inv(s) && Enabled(s, Interrupt(c, unidle))
    ensures Inv(Apply(s, Interrupt(c, unidle)))
  {
    hide Inv;
    CpuIs(s, c);
    PhaseOk(s, c, s.cpus[c].(awake := s.cpus[c].awake || s.cpus[c].phase.Idling?, ipi := s.cpus[c].ipi && !unidle));
  }

  lemma KickOk(s: State, c: nat, d: nat)
    requires Inv(s) && d < |s.cpus|
    ensures Inv(Kick(s, c, d)) && (d != c && s.cpus[d].isidle ==> Kick(s, c, d).cpus[d].ipi)
    ensures d == c || !s.cpus[d].isidle ==> Kick(s, c, d) == s
  {
    hide Inv;
    if s.cpus[d].isidle && d != c {
      CpuIs(s, d);
      PhaseOk(s, d, s.cpus[d].(ipi := true));
    }
  }

  lemma CpuIs(s: State, c: nat)
    requires Inv(s) && c < |s.cpus|
    ensures CpuOk(s, c)
  {
  }

  lemma SameThread(s: State, t: nat)
    requires t in s.threads
    ensures SetThread(s, t, s.threads[t]) == s
  {
    assert s.threads[t := s.threads[t]] == s.threads;
  }

  lemma GrabOk(s: State, c: nat, w: nat)
    requires Inv(s) && Enabled(s, Grab(c, w))
    ensures Inv(Apply(s, Grab(c, w)))
  {
    hide Inv, ListsAgree;
    HeadAlive(s, Chan(w));
    var t := Listed(s, Chan(w))[0];
    SameThread(RemHead(s, Chan(w)), t);
    MoveOk(s, Chan(w), Woken(c), s.threads[t], Apply(s, Grab(c, w)));
  }

  lemma RunnableOk(s: State, c: nat, p: Place)
    requires Inv(s) && Executing(s, c) && (p.Woken? || p.Newborn?) && Listed(s, p) != []
    ensures Listed(s, p)[0] in s.threads && Inv(MakeRunnable(s, c, p))
  {
    hide Inv, ListsAgree;
    HeadAlive(s, p);
    var t := Listed(s, p)[0];
    var d := s.threads[t].cpu;
    CpuIs(s, c);
    CpuIs(s, d);
    KickOk(s, c, d);
    MoveOk(Kick(s, c, d), p, Runq(d), s.threads[t].(state := Ready), MakeRunnable(s, c, p));
  }

  lemma SkipOk(s: State, c: nat, q: Place)
    requires Inv(s) && c < |s.cpus| && s.cpus[c].mig.Sending? && Listed(s, Victims(c)) != []
    requires q == Victims(c) || q == Runq(c)
    ensures Inv(AddTail(RemHead(s, Victims(c)), Listed(s, Victims(c))[0], q))
  {
    hide Inv, ListsAgree;
    HeadAlive(s, Victims(c));
    CpuIs(s, c);
    var t := Listed(s, Victims(c))[0];
    SameThread(RemHead(s, Victims(c)), t);
    MoveOk(s, Victims(c), q, s.threads[t], AddTail(RemHead(s, Victims(c)), t, q));
  }

  // ---------------------------------------------------------------- runs

  /** Each CPU starts with its own boot thread, running; nothing is queued. */
  predicate Initial(s: State) {
    && s.lists == map[] && s.place == map[]
    && (forall t :: t in s.threads ==> s.threads[t].cpu < |s.cpus| && s.cpus[s.threads[t].cpu].cur == t)
    && (forall c :: 0 <= c < |s.cpus| ==> BootCpu(s, c))
  }

  predicate BootCpu(s: State, c: nat)
    requires c < |s.cpus|
  {
    var cpu := s.cpus[c];
    cpu == Cpu(cpu.cur, false, Running, NotMigrating, false, false) && cpu.cur in s.threads && s.threads[cpu.cur] == Thread(c, Run)
  }

  predicate Legal(s: State, ops: seq<Op>)
    decreases |ops|
  {
    ops == [] || (Enabled(s, ops[0]) && Legal(Apply(s, ops[0]), ops[1..]))
  }

  function Final(s: State, ops: seq<Op>): State
    requires Legal(s, ops)
    decreases |ops|
  {
    if ops == [] then s else Final(Apply(s, ops[0]), ops[1..])
  }

  lemma InitialOk(s: State)
    requires Initial(s)
    ensures Inv(s)
  {
    forall c | 0 <= c < |s.cpus| ensures CpuOk(s, c) {
      assert BootCpu(s, c);
    }
    forall t | t in s.threads ensures ThreadOk(s, t) {
      assert BootCpu(s, s.threads[t].cpu);
    }
  }

  lemma {:induction false} RunOk(s: State, ops: seq<Op>)
    requires Inv(s) && Legal(s, ops)
    ensures Inv(Final(s, ops))
    decreases |ops|
  {
    hide Inv, Enabled, Apply;
    if ops != [] {
      StepOk(s, ops[0]);
      RunOk(Apply(s, ops[0]), ops[1..]);
    }
  }

  // ---------------------------------------------------------------- what it means

  /** In every reachable state a thread is current on at most one CPU. */
  lemma CurrentOnce(s: State, ops: seq<Op>, c: nat, d: nat)
    requires Initial(s) && Legal(s, ops) && c < |Final(s, ops).cpus| && d < |Final(s, ops).cpus|
    requires Final(s, ops).cpus[c].cur == Final(s, ops).cpus[d].cur
    ensures c == d
  {
    InitialOk(s);
    RunOk(s, ops);
    assert CpuOk(Final(s, ops), c) && CpuOk(Final(s, ops), d);
  }

  /** In every reachable state a thread is on at most one list, and there once. */
  lemma OnOneList(s: State, ops: seq<Op>, t: nat, p: Place, i: nat, q: Place, j: nat)
    requires Initial(s) && Legal(s, ops)
    requires i < |Listed(Final(s, ops), p)| && Listed(Final(s, ops), p)[i] == t
    requires j < |Listed(Final(s, ops), q)| && Listed(Final(s, ops), q)[j] == t
    ensures p == q && i == j
  {
    InitialOk(s);
    RunOk(s, ops);
    var f := Final(s, ops);
    assert t in Listed(f, p) && t in Listed(f, q);
    assert f.place[t] == p && f.place[t] == q;
    assert NoDup(Listed(f, p));
  }

  /** A thread on a run queue is ready and belongs to that CPU; it is current there only while the CPU is idle, and nowhere else. */
  lemma QueuedOwner(s: State, ops: seq<Op>, t: nat, c: nat, d: nat)
    requires Initial(s) && Legal(s, ops) && t in Listed(Final(s, ops), Runq(c))
    ensures var f := Final(s, ops);
            && t in f.threads && f.threads[t] == Thread(c, Ready) && c < |f.cpus|
            && (d < |f.cpus| && f.cpus[d].cur == t ==> d == c && f.cpus[d].isidle)
  {
    InitialOk(s);
    RunOk(s, ops);
    var f := Final(s, ops);
    assert t in f.place && f.place[t] == Runq(c) && ThreadOk(f, t);
    assert d < |f.cpus| ==> CpuOk(f, d);
  }

  lemma Accounted(f: State, t: nat)
    requires Inv(f) && t in f.threads
    ensures (exists p :: t in Listed(f, p)) <==>
            !(f.threads[t].cpu < |f.cpus| && f.cpus[f.threads[t].cpu].cur == t && !f.cpus[f.threads[t].cpu].isidle)
  {
    assert ThreadOk(f, t);
    assert t in f.place ==> t in Listed(f, f.place[t]);
  }

  /** No thread is lost: each is on a list, or is the current thread of its own CPU, which is not idle. */
  lemma NobodyLost(s: State, ops: seq<Op>, t: nat)
    requires Initial(s) && Legal(s, ops) && t in Final(s, ops).threads
    ensures var f := Final(s, ops);
            (exists p :: t in Listed(f, p)) <==>
            !(f.threads[t].cpu < |f.cpus| && f.cpus[f.threads[t].cpu].cur == t && !f.cpus[f.threads[t].cpu].isidle)
  {
    InitialOk(s);
    RunOk(s, ops);
    Accounted(Final(s, ops), t);
  }

  /** exorcise's assertions and thread_destroy's: the buried thread is a zombie and nobody's current thread. */
  lemma BurySafe(s: State, ops: seq<Op>, c: nat, d: nat)
    requires Initial(s) && Legal(s, ops) && Enabled(Final(s, ops), Bury(c)) && d < |Final(s, ops).cpus|
    ensures var f := Final(s, ops); var z := Listed(f, Zombies(c))[0];
            z in f.threads && f.threads[z].state == Zombie && f.cpus[d].cur != z
  {
    InitialOk(s);
    RunOk(s, ops);
    var f := Final(s, ops);
    HeadAlive(f, Zombies(c));
    assert CpuOk(f, c) && CpuOk(f, d);
  }

  /** Migration: the own queue never runs out while victims are taken, and the current thread is never sent away. */
  lemma MigrationSafe(s: State, ops: seq<Op>, c: nat, d: nat)
    requires Initial(s) && Legal(s, ops)
    ensures var f := Final(s, ops);
            && (Enabled(f, MigTake(c)) ==> Listed(f, Runq(c)) != [])
            && (Enabled(f, MigSend(c, d)) ==>
                  var t := Listed(f, Victims(c))[0]; forall e :: 0 <= e < |f.cpus| ==> f.cpus[e].cur != t)
  {
    InitialOk(s);
    RunOk(s, ops);
    var f := Final(s, ops);
    if Enabled(f, MigTake(c)) {
      QueueLasts(f, c);
    }
    if Enabled(f, MigSend(c, d)) {
      forall e | 0 <= e < |f.cpus| ensures f.cpus[e].cur != Listed(f, Victims(c))[0] {
        VictimNotCurrent(f, c, d, e);
      }
    }
  }

  lemma VictimNotCurrent(f: State, c: nat, d: nat, e: nat)
    requires Inv(f) && Enabled(f, MigSend(c, d)) && e < |f.cpus|
    ensures f.cpus[e].cur != Listed(f, Victims(c))[0]
  {
    HeadAlive(f, Victims(c));
    CurrentElsewhere(f, Listed(f, Victims(c))[0], e);
    hide Inv, ListsAgree;
  }

  /** No CPU sleeps beside work: an idle CPU with a queued thread has been interrupted or has the interrupt pending. */
  lemma NoIdleWithWork(s: State, ops: seq<Op>, c: nat)
    requires Initial(s) && Legal(s, ops) && c < |Final(s, ops).cpus|
    requires Final(s, ops).cpus[c].phase.Idling? && Listed(Final(s, ops), Runq(c)) != []
    ensures Final(s, ops).cpus[c].awake || Final(s, ops).cpus[c].ipi
  {
    InitialOk(s);
    RunOk(s, ops);
    assert CpuOk(Final(s, ops), c);
  }

  // ---------------------------------------------------------------- who changes which list, and where

  /** The operations that touch no list. */
  predicate Quiet(op: Op) {
    op.GoIdle? || op.Interrupt? || op.Unidle? || op.Resume? || op.BuryDone? || op.MigStart? || op.MigEnd?
  }

  lemma QuietLists(s: State, op: Op, p: Place)
    requires Enabled(s, op) && Quiet(op)
    ensures Listed(Apply(s, op), p) == Listed(s, p)
  {
  }

  /** The list on which the current thread leaves its CPU. */
  function Left(op: Op): Place
    requires op.Yield? || op.SleepOn? || op.Exit?
  {
    match op
    case Yield(c) => Runq(c)
    case SleepOn(_, w) => Chan(w)
    case Exit(c) => Zombies(c)
  }

  lemma LeavingLists(s: State, op: Op, p: Place)
    requires Enabled(s, op) && (op.Yield? || op.SleepOn? || op.Exit?)
    ensures Listed(Apply(s, op), p) == if p == Left(op) then Listed(s, p) + [s.cpus[op.c].cur] else Listed(s, p)
  {
  }

  lemma PickLists(s: State, op: Op, p: Place)
    requires Enabled(s, op) && op.Pick?
    ensures Listed(Apply(s, op), p) == if p == Runq(op.c) then Listed(s, p)[1..] else Listed(s, p)
    ensures Apply(s, op).cpus[op.c].cur == Listed(s, Runq(op.c))[0]
  {
  }

  lemma BuryLists(s: State, op: Op, p: Place)
    requires Enabled(s, op) && op.Bury?
    ensures Listed(Apply(s, op), p) == if p == Zombies(op.c) then Listed(s, p)[1..] else Listed(s, p)
  {
  }

  lemma ForkLists(s: State, op: Op, p: Place)
    requires Enabled(s, op) && op.Fork?
    ensures Listed(Apply(s, op), p) == if p == Newborn(s.cpus[op.c].cur) then Listed(s, p) + [op.t] else Listed(s, p)
  {
  }

  /** A move from the head of one list to the tail of another, as seen from list p. */
  predicate HeadMoved(s: State, s': State, from: Place, to: Place, p: Place) {
    && Listed(s, from) != []
    && Listed(s', p) == if p == to && to == from then Listed(s, p)[1..] + [Listed(s, from)[0]]
                        else if p == to then Listed(s, p) + [Listed(s, from)[0]]
                        else if p == from then Listed(s, p)[1..]
                        else Listed(s, p)
  }

  lemma RunnableLists(s: State, op: Op, p: Place)
    requires Enabled(s, op) && (op.Launch? || op.Wake?)
    ensures var from := if op.Launch? then Newborn(s.cpus[op.c].cur) else Woken(op.c);
            exists d: nat :: HeadMoved(s, Apply(s, op), from, Runq(d), p)
  {
    var from := if op.Launch? then Newborn(s.cpus[op.c].cur) else Woken(op.c);
    assert HeadMoved(s, Apply(s, op), from, Runq(s.threads[Listed(s, from)[0]].cpu), p);
  }

  lemma GrabLists(s: State, op: Op, p: Place)
    requires Enabled(s, op) && op.Grab?
    ensures HeadMoved(s, Apply(s, op), Chan(op.w), Woken(op.c), p)
  {
  }

  lemma SendLists(s: State, op: Op, p: Place)
    requires Enabled(s, op) && (op.MigSend? || op.MigSkip? || op.MigReturn?)
    ensures HeadMoved(s, Apply(s, op), Victims(op.c),
                      if op.MigSend? then Runq(op.d) else if op.MigSkip? then Victims(op.c) else Runq(op.c), p)
  {
  }

  lemma TakeLists(s: State, op: Op, p: Place)
    requires Enabled(s, op) && op.MigTake? && !NothingToTake(s, op.c)
    ensures var q := Listed(s, Runq(op.c));
            Listed(Apply(s, op), p) == if p == Runq(op.c) then q[..|q| - 1]
                                       else if p == Victims(op.c) then [q[|q| - 1]] + Listed(s, p)
                                       else Listed(s, p)
  {
  }

  /** Other CPUs only append to a run queue. */
  lemma OthersAppend(s: State, op: Op, c: nat)
    requires Enabled(s, op) && op.c != c
    ensures var q, q' := Listed(s, Runq(c)), Listed(Apply(s, op), Runq(c)); q <= q' && |q'| <= |q| + 1
  {
    if op.MigTake? {
      OthersTake(s, op, c);
    } else {
      OneList(s, op, Runq(c));
      hide Apply, Enabled;
    }
  }

  lemma OthersTake(s: State, op: Op, c: nat)
    requires Enabled(s, op) && op.MigTake? && op.c != c
    ensures Listed(Apply(s, op), Runq(c)) == Listed(s, Runq(c))
  {
    if !NothingToTake(s, op.c) {
      TakeLists(s, op, Runq(c));
    }
  }

  /** Every other operation, by the group it belongs to. */
  lemma OneList(s: State, op: Op, p: Place)
    requires Enabled(s, op) && !op.MigTake?
    ensures var l, l' := Listed(s, p), Listed(Apply(s, op), p);
            || l' == l
            || ((op.Yield? || op.SleepOn? || op.Exit?) && p == Left(op) && l' == l + [s.cpus[op.c].cur])
            || (op.Pick? && p == Runq(op.c) && l != [] && l' == l[1..] && Apply(s, op).cpus[op.c].cur == l[0])
            || (op.Bury? && p == Zombies(op.c) && l' == l[1..])
            || (op.Fork? && p.Newborn? && l' == l + [op.t])
            || (op.Launch? && p.Newborn? && l' == l[1..])
            || (op.Wake? && p == Woken(op.c) && l' == l[1..])
            || (op.Grab? && p == Chan(op.w) && l' == l[1..])
            || ((op.MigSend? || op.MigReturn?) && p == Victims(op.c) && l' == l[1..])
            || (op.MigSkip? && p == Victims(op.c))
            || ((op.Launch? || op.Wake? || op.MigSend? || op.MigReturn?) && p.Runq? && |l'| == |l| + 1 && l <= l')
            || (op.Grab? && p == Woken(op.c) && |l'| == |l| + 1 && l <= l')
  {
    if Quiet(op) {
      QuietLists(s, op, p);
    } else if op.Yield? || op.SleepOn? || op.Exit? {
      LeavingLists(s, op, p);
    } else if op.Pick? {
      PickLists(s, op, p);
    } else if op.Bury? {
      BuryLists(s, op, p);
    } else if op.Fork? {
      ForkLists(s, op, p);
    } else if op.Launch? || op.Wake? {
      RunnableLists(s, op, p);
    } else if op.Grab? {
      GrabLists(s, op, p);
    } else {
      SendLists(s, op, p);
    }
    hide Apply, Enabled;
  }

  /** What the owner of a run queue does to it: Pick runs the head, MigTake takes the tail, a yield appends, all else only appends. */
  lemma OwnerTakesEnds(s: State, op: Op)
    requires Inv(s) && Enabled(s, op)
    ensures var c := op.c; var s' := Apply(s, op); var q, q' := Listed(s, Runq(c)), Listed(s', Runq(c));
            && (op.Pick? ==> q != [] && c < |s'.cpus| && s'.cpus[c].cur == q[0] && q' == q[1..])
            && (op.MigTake? ==> q != [] && q' == q[..|q| - 1] && Listed(s', Victims(c)) == [q[|q| - 1]] + Listed(s, Victims(c)))
            && (op.Yield? ==> c < |s.cpus| && q' == q + [s.cpus[c].cur])
            && (!op.Pick? && !op.MigTake? ==> q <= q' && |q'| <= |q| + 1)
  {
    var c := op.c;
    if op.MigTake? {
      QueueLasts(s, c);
      TakeLists(s, op, Runq(c));
      TakeLists(s, op, Victims(c));
    } else {
      OneList(s, op, Runq(c));
    }
    if op.Yield? {
      LeavingLists(s, op, Runq(c));
    }
    if op.Pick? {
      PickLists(s, op, Runq(c));
    }
    hide Inv, Apply;
  }

  /** remtail never returns NULL. */
  lemma QueueLasts(s: State, c: nat)
    requires Inv(s) && Enabled(s, MigTake(c))
    ensures Listed(s, Runq(c)) != []
  {
    assert CpuOk(s, c);
  }

  /** A wait channel is served first come, first woken: sleepers join at the tail, wakers take the head, nobody else touches it. */
  lemma ChannelIsFifo(s: State, op: Op, w: nat)
    requires Inv(s) && Enabled(s, op)
    ensures var s' := Apply(s, op); var q, q' := Listed(s, Chan(w)), Listed(s', Chan(w));
            if op.SleepOn? && op.w == w then op.c < |s.cpus| && q' == q + [s.cpus[op.c].cur]
            else if op.Grab? && op.w == w then q != [] && q' == q[1..] && Listed(s', Woken(op.c)) == Listed(s, Woken(op.c)) + [q[0]]
            else q' == q
  {
    if op.MigTake? {
      QueueLasts(s, op.c);
      TakeLists(s, op, Chan(w));
    } else if op.Grab? {
      GrabLists(s, op, Woken(op.c));
      GrabLists(s, op, Chan(w));
    } else if op.SleepOn? {
      LeavingLists(s, op, Chan(w));
    } else {
      OneList(s, op, Chan(w));
    }
    hide Inv, Apply;
  }
}
