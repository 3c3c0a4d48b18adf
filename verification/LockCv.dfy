/**
 Sleep locks and condition variables (kern/thread/synch.c, wait channel variant) as a state machine: one
 mutex, one condition variable used with it, any number of threads, every interleaving of their steps.
 */
module LockCv {
  import opened Prelude

  /**
   Where a thread is. Acq*: in lock_acquire; Rel*: in lock_release, for cv_wait when waiting is set;
   Wait*: in cv_wait; Sig*: in cv_signal or cv_broadcast. LockAsleep and CvAsleep are on a wait channel,
   LockWoken and CvWoken were taken off it and have not run again.
   */
  datatype Pc =
    | Idle
    | Holding
    | AcqWant
    | AcqTest(woken: bool)
    | AcqSet
    | LockAsleep
    | LockWoken
    | RelWant(waiting: bool)
    | RelHold(waiting: bool)
    | RelCleared(waiting: bool)
    | RelDone(waiting: bool)
    | WaitWant
    | WaitReleased
    | CvAsleep
    | CvWoken
    | CvBack
    | SigWant(all: bool)
    | SigHold(all: bool)
    | SigDone

  datatype State = State(owner: Option<nat>, lkLock: Option<nat>, cvLock: Option<nat>,
                         lkChan: seq<nat>, cvChan: seq<nat>, pc: map<nat, Pc>)

  datatype Op =
    | CallAcquire(t: nat)
    | LockSpin(t: nat)
    | AcquireTest(t: nat)
    | AcquireEnd(t: nat)
    | CallRelease(t: nat)
    | Clear(t: nat)
    | WakeLock(t: nat)
    | ReleaseEnd(t: nat)
    | CallWait(t: nat)
    | CvSpin(t: nat)
    | CvSleep(t: nat)
    | CvUnlock(t: nat)
    | CallSignal(t: nat, all: bool)
    | Pick(t: nat)
    | SignalEnd(t: nat)

  /** The mutex calls demand what the code asserts: the caller holds the mutex, or does not. */
  predicate Enabled(s: State, op: Op) {
    op.t in s.pc &&
    var p := s.pc[op.t];
    match op
    case CallAcquire(t) => p.Idle? && s.owner != Some(t)
    case LockSpin(t) => (p.AcqWant? || p.LockWoken? || p.RelWant?) && s.lkLock == None
    case AcquireTest(t) => p.AcqTest?
    case AcquireEnd(t) => p.AcqSet?
    case CallRelease(t) => p.Holding? && s.owner == Some(t)
    case Clear(t) => p.RelHold?
    case WakeLock(t) => p.RelCleared? && (s.lkChan == [] || s.lkChan[0] in s.pc)
    case ReleaseEnd(t) => p.RelDone?
    case CallWait(t) => p.Holding? && s.owner == Some(t)
    case CvSpin(t) => (p.WaitWant? || p.CvWoken? || p.SigWant?) && s.cvLock == None
    case CvSleep(t) => p.WaitReleased?
    case CvUnlock(t) => p.CvBack?
    case CallSignal(t, all) => p.Holding? && s.owner == Some(t)
    case Pick(t) => p.SigHold? && forall x :: x in s.cvChan ==> x in s.pc
    case SignalEnd(t) => p.SigDone?
  }

  function Go(s: State, t: nat, pc: Pc): State { s.(pc := s.pc[t := pc]) }

  /** All of q are woken. */
  function WakeAll(pc: map<nat, Pc>, q: seq<nat>): map<nat, Pc> {
    if q == [] then pc else WakeAll(pc, q[..|q| - 1])[q[|q| - 1] := CvWoken]
  }

  function Apply(s: State, op: Op): State
    requires Enabled(s, op)
  {
    match op
    case CallAcquire(t) => Go(s, t, AcqWant)
    case LockSpin(t) =>
      Go(s, t, if s.pc[t].RelWant? then RelHold(s.pc[t].waiting) else AcqTest(s.pc[t].LockWoken?)).(lkLock := Some(t))
    case AcquireTest(t) =>
      if s.owner != None then Go(s, t, LockAsleep).(lkChan := s.lkChan + [t], lkLock := None)
      else Go(s, t, AcqSet).(owner := Some(t))
    case AcquireEnd(t) => Go(s, t, Holding).(lkLock := None)
    case CallRelease(t) => Go(s, t, RelWant(false))
    case Clear(t) => Go(s, t, RelCleared(s.pc[t].waiting)).(owner := None)
    case WakeLock(t) =>
      if s.lkChan == [] then Go(s, t, RelDone(s.pc[t].waiting))
      else Go(Go(s, s.lkChan[0], LockWoken), t, RelDone(s.pc[t].waiting)).(lkChan := s.lkChan[1..])
    case ReleaseEnd(t) => Go(s, t, if s.pc[t].waiting then WaitReleased else Idle).(lkLock := None)
    case CallWait(t) => Go(s, t, WaitWant)
    case CvSpin(t) =>
      Go(s, t, if s.pc[t].WaitWant? then RelWant(true) else if s.pc[t].CvWoken? then CvBack else SigHold(s.pc[t].all)).(cvLock := Some(t))
    case CvSleep(t) => Go(s, t, CvAsleep).(cvChan := s.cvChan + [t], cvLock := None)
    case CvUnlock(t) => Go(s, t, AcqWant).(cvLock := None)
    case CallSignal(t, all) => Go(s, t, SigWant(all))
    case Pick(t) =>
      if s.cvChan == [] then Go(s, t, SigDone)
      else if s.pc[t].all then Go(s.(pc := WakeAll(s.pc, s.cvChan)), t, SigDone).(cvChan := [])
      else Go(Go(s, s.cvChan[0], CvWoken), t, SigDone).(cvChan := s.cvChan[1..])
    case SignalEnd(t) => Go(s, t, Holding).(cvLock := None)
  }

  // ---------------------------------------------------------------- the invariant

  /** Between setting lk_owner and clearing it. */
  predicate Owns(p: Pc) {
    p.Holding? || p.AcqSet? || p.RelWant? || p.RelHold? || p.WaitWant? || p.SigWant? || p.SigHold? || p.SigDone?
  }

  predicate HasLkLock(p: Pc) { p.AcqTest? || p.AcqSet? || p.RelHold? || p.RelCleared? || p.RelDone? }

  predicate HasCvLock(p: Pc) {
    || (p.RelWant? && p.waiting) || (p.RelHold? && p.waiting) || (p.RelCleared? && p.waiting) || (p.RelDone? && p.waiting)
    || p.WaitReleased? || p.CvBack? || p.SigHold? || p.SigDone?
  }

  /** Released the mutex in cv_wait and not yet on the channel. */
  predicate InWindow(p: Pc) {
    (p.RelCleared? && p.waiting) || (p.RelDone? && p.waiting) || p.WaitReleased?
  }

  /** On its way to test lk_owner after a wakeup. */
  predicate Retries(p: Pc) { p == LockWoken || p == AcqTest(true) }

  predicate LocksOk(s: State) {
    forall t :: t in s.pc ==> ThreadOk(s, t)
  }

  predicate ThreadOk(s: State, t: nat)
    requires t in s.pc
  {
    && (Owns(s.pc[t]) <==> s.owner == Some(t))
    && (HasLkLock(s.pc[t]) <==> s.lkLock == Some(t))
    && (HasCvLock(s.pc[t]) <==> s.cvLock == Some(t))
    && (s.pc[t].LockAsleep? <==> t in s.lkChan) && (s.pc[t].CvAsleep? <==> t in s.cvChan)
  }

  predicate ChannelsOk(s: State) {
    && NoDup(s.lkChan) && NoDup(s.cvChan)
    && (forall t :: t in s.lkChan ==> t in s.pc) && (forall t :: t in s.cvChan ==> t in s.pc)
  }

  predicate OwnersLive(s: State) {
    && (s.owner.Some? ==> s.owner.value in s.pc) && (s.lkLock.Some? ==> s.lkLock.value in s.pc)
    && (s.cvLock.Some? ==> s.cvLock.value in s.pc)
  }

  /** A free mutex with sleepers has somebody coming: a woken thread, or the releaser about to wake one. */
  ghost predicate SomebodyComes(s: State) {
    s.owner == None && s.lkChan != [] ==> exists t :: t in s.pc && (Retries(s.pc[t]) || s.pc[t].RelCleared?)
  }

  ghost predicate Inv(s: State) {
    LocksOk(s) && ChannelsOk(s) && OwnersLive(s) && SomebodyComes(s)
  }

  lemma {:induction false} WakeAllAt(pc: map<nat, Pc>, q: seq<nat>)
    ensures forall t :: t in WakeAll(pc, q) <==> t in pc || t in q
    ensures forall t :: t in WakeAll(pc, q) ==> WakeAll(pc, q)[t] == if t in q then CvWoken else pc[t]
  {
    if q != [] {
      WakeAllAt(pc, q[..|q| - 1]);
      assert q == q[..|q| - 1] + [q[|q| - 1]];
    }
  }

  // ---------------------------------------------------------------- steps

  /** Steps on one thread only: no other thread's position changes. */
  predicate Alone(op: Op) { !op.WakeLock? && !op.Pick? }

  predicate InAcquire(op: Op) { op.AcquireEnd? || op.CallAcquire? }

  predicate InRelease(op: Op) { op.CallRelease? || op.Clear? || op.ReleaseEnd? }

  predicate InWait(op: Op) { op.CallWait? || op.CvUnlock? || op.CallSignal? || op.SignalEnd? }

  lemma AloneOk(s: State, op: Op)
    requires Inv(s) && Enabled(s, op) && Alone(op)
    ensures Inv(Apply(s, op))
  {
    hide Apply, NoDup, SomebodyComes;
    assert ThreadOk(s, op.t);
    AloneComes(s, op);
    if InAcquire(op) {
      AcquireOk(s, op);
    } else if InRelease(op) {
      ReleaseOk(s, op);
    } else if InWait(op) {
      WaitOk(s, op);
    } else if op.LockSpin? || op.CvSpin? {
      SpinOk(s, op);
    } else {
      SleepOk(s, op);
    }
  }

  lemma AcquireOk(s: State, op: Op)
    requires LocksOk(s) && ChannelsOk(s) && OwnersLive(s) && Enabled(s, op) && InAcquire(op)
    ensures LocksOk(Apply(s, op)) && ChannelsOk(Apply(s, op)) && OwnersLive(Apply(s, op))
  {
    hide NoDup;
    var s' := Apply(s, op);
    assert ThreadOk(s, op.t);
    forall x | x in s'.pc ensures ThreadOk(s', x) {
      assert ThreadOk(s, x);
    }
  }

  lemma ReleaseOk(s: State, op: Op)
    requires LocksOk(s) && ChannelsOk(s) && OwnersLive(s) && Enabled(s, op) && InRelease(op)
    ensures LocksOk(Apply(s, op)) && ChannelsOk(Apply(s, op)) && OwnersLive(Apply(s, op))
  {
    hide NoDup;
    var s' := Apply(s, op);
    assert ThreadOk(s, op.t);
    forall x | x in s'.pc ensures ThreadOk(s', x) {
      assert ThreadOk(s, x);
    }
  }

  lemma WaitOk(s: State, op: Op)
    requires LocksOk(s) && ChannelsOk(s) && OwnersLive(s) && Enabled(s, op) && InWait(op)
    ensures LocksOk(Apply(s, op)) && ChannelsOk(Apply(s, op)) && OwnersLive(Apply(s, op))
  {
    hide NoDup;
    var s' := Apply(s, op);
    assert ThreadOk(s, op.t);
    forall x | x in s'.pc ensures ThreadOk(s', x) {
      assert ThreadOk(s, x);
    }
  }

  lemma SpinOk(s: State, op: Op)
    requires LocksOk(s) && ChannelsOk(s) && OwnersLive(s) && Enabled(s, op) && (op.LockSpin? || op.CvSpin?)
    ensures LocksOk(Apply(s, op)) && ChannelsOk(Apply(s, op)) && OwnersLive(Apply(s, op))
  {
    hide NoDup;
    var s' := Apply(s, op);
    assert ThreadOk(s, op.t);
    forall x | x in s'.pc ensures ThreadOk(s', x) {
      assert ThreadOk(s, x);
    }
  }

  lemma SleepOk(s: State, op: Op)
    requires LocksOk(s) && ChannelsOk(s) && OwnersLive(s) && Enabled(s, op) && (op.AcquireTest? || op.CvSleep?)
    ensures LocksOk(Apply(s, op)) && ChannelsOk(Apply(s, op)) && OwnersLive(Apply(s, op))
  {
    hide NoDup;
    var t, s' := op.t, Apply(s, op);
    assert ThreadOk(s, t);
    if op.CvSleep? {
      Queued(s.cvChan, t);
    } else if s.owner != None {
      Queued(s.lkChan, t);
    }
    forall x | x in s'.pc ensures ThreadOk(s', x) {
      assert ThreadOk(s, x);
    }
  }

  lemma AloneComes(s: State, op: Op)
    requires SomebodyComes(s) && Enabled(s, op) && Alone(op) && ThreadOk(s, op.t)
    ensures SomebodyComes(Apply(s, op))
  {
    var t, s' := op.t, Apply(s, op);
    if s'.owner == None && s'.lkChan != [] {
      if op.Clear? {
        assert s'.pc[t].RelCleared?;
      } else {
        assert s.owner == None && s.lkChan != [];
        var w :| w in s.pc && (Retries(s.pc[w]) || s.pc[w].RelCleared?);
        assert w in s'.pc && (Retries(s'.pc[w]) || s'.pc[w].RelCleared?);
      }
    }
  }

  lemma WakeLockOk(s: State, t: nat)
    requires Inv(s) && Enabled(s, WakeLock(t))
    ensures Inv(Apply(s, WakeLock(t)))
  {
    hide NoDup, SomebodyComes, LocksOk, ChannelsOk, OwnersLive;
    var s' := Apply(s, WakeLock(t));
    WakeLockLocks(s, t);
    if s.lkChan != [] {
      SleeperIs(s, s.lkChan[0], t);
      WokenComes(s', s.lkChan[0]);
    } else {
      NobodyAsleep(s');
    }
  }

  lemma SleeperIs(s: State, x: nat, t: nat)
    requires LocksOk(s) && ChannelsOk(s) && x in s.lkChan && t in s.pc && s.pc[t].RelCleared?
    ensures x in s.pc && x != t
  {
    assert ThreadOk(s, t);
  }

  lemma WakeLockLocks(s: State, t: nat)
    requires LocksOk(s) && ChannelsOk(s) && OwnersLive(s) && Enabled(s, WakeLock(t))
    ensures LocksOk(Apply(s, WakeLock(t))) && ChannelsOk(Apply(s, WakeLock(t))) && OwnersLive(Apply(s, WakeLock(t)))
  {
    var s' := Apply(s, WakeLock(t));
    forall x | x in s.pc ensures ThreadOk(s', x) {
      WakeLockThread(s, t, x);
    }
    hide NoDup, ThreadOk;
    if s.lkChan != [] {
      Dequeued(s.lkChan);
    }
  }

  lemma WakeLockThread(s: State, t: nat, x: nat)
    requires LocksOk(s) && ChannelsOk(s) && Enabled(s, WakeLock(t)) && x in s.pc
    ensures ThreadOk(Apply(s, WakeLock(t)), x)
  {
    assert ThreadOk(s, t) && ThreadOk(s, x);
    if s.lkChan != [] {
      Dequeued(s.lkChan);
      assert ThreadOk(s, s.lkChan[0]);
    }
    hide LocksOk, ChannelsOk, NoDup;
  }

  lemma WokenComes(s: State, w: nat)
    requires w in s.pc && s.pc[w] == LockWoken
    ensures SomebodyComes(s)
  {
    assert Retries(s.pc[w]);
  }

  lemma NobodyAsleep(s: State)
    requires s.lkChan == []
    ensures SomebodyComes(s)
  {
  }

  lemma PickOk(s: State, t: nat)
    requires Inv(s) && Enabled(s, Pick(t))
    ensures Inv(Apply(s, Pick(t)))
  {
    hide NoDup, SomebodyComes;
    assert ThreadOk(s, t);
    OwnedComes(Apply(s, Pick(t)));
    if s.cvChan == [] {
      PickNone(s, t);
    } else if s.pc[t].all {
      PickAll(s, t);
    } else {
      PickFirst(s, t);
    }
  }

  lemma PickNone(s: State, t: nat)
    requires LocksOk(s) && ChannelsOk(s) && OwnersLive(s) && Enabled(s, Pick(t)) && s.cvChan == []
    ensures LocksOk(Apply(s, Pick(t))) && ChannelsOk(Apply(s, Pick(t))) && OwnersLive(Apply(s, Pick(t)))
  {
    hide NoDup;
    var s' := Apply(s, Pick(t));
    forall x | x in s'.pc ensures ThreadOk(s', x) {
      assert ThreadOk(s, x);
    }
  }

  lemma PickFirst(s: State, t: nat)
    requires LocksOk(s) && ChannelsOk(s) && OwnersLive(s) && Enabled(s, Pick(t)) && s.cvChan != [] && !s.pc[t].all
    ensures LocksOk(Apply(s, Pick(t))) && ChannelsOk(Apply(s, Pick(t))) && OwnersLive(Apply(s, Pick(t)))
  {
    hide NoDup;
    var s' := Apply(s, Pick(t));
    Dequeued(s.cvChan);
    assert ThreadOk(s, t) && ThreadOk(s, s.cvChan[0]);
    forall x | x in s'.pc ensures ThreadOk(s', x) {
      assert ThreadOk(s, x);
    }
  }

  lemma PickAll(s: State, t: nat)
    requires LocksOk(s) && ChannelsOk(s) && OwnersLive(s) && Enabled(s, Pick(t)) && s.cvChan != [] && s.pc[t].all
    ensures LocksOk(Apply(s, Pick(t))) && ChannelsOk(Apply(s, Pick(t))) && OwnersLive(Apply(s, Pick(t)))
  {
    hide NoDup, WakeAll;
    var s' := Apply(s, Pick(t));
    WakeAllAt(s.pc, s.cvChan);
    NoneTwice();
    assert ThreadOk(s, t);
    forall x | x in s'.pc ensures ThreadOk(s', x) {
      assert x in s.pc && ThreadOk(s, x);
    }
  }

  lemma NoneTwice()
    ensures NoDup<nat>([])
  {
  }

  lemma OwnedComes(s: State)
    requires s.owner.Some?
    ensures SomebodyComes(s)
  {
  }

  lemma StepOk(s: State, op: Op)
    requires Inv(s) && Enabled(s, op)
    ensures Inv(Apply(s, op))
  {
    hide Inv, Apply;
    match op
    case WakeLock(t) => WakeLockOk(s, t);
    case Pick(t) => PickOk(s, t);
    case _ => AloneOk(s, op);
  }

  // ---------------------------------------------------------------- runs

  /** lock_create and cv_create. */
  predicate Created(s: State) {
    && s.owner == None && s.lkLock == None && s.cvLock == None && s.lkChan == [] && s.cvChan == []
    && forall t :: t in s.pc ==> s.pc[t] == Idle
  }

  predicate Legal(s: State, ops: seq<Op>)
    decreases |ops|
  {
    ops == [] || (Enabled(s, ops[0]) && Legal(Apply(s, ops[0]), ops[1..]))
  }

  function Final(s: State, ops: seq<Op>): State
    requires Legal(s, ops)
    decreases |ops|
  {
    if ops == [] then s else Final(Apply(s, ops[0]), ops[1..])
  }

  lemma {:induction false} RunOk(s: State, ops: seq<Op>)
    requires Inv(s) && Legal(s, ops)
    ensures Inv(Final(s, ops))
    decreases |ops|
  {
    hide Inv, Enabled, Apply;
    if ops != [] {
      StepOk(s, ops[0]);
      RunOk(Apply(s, ops[0]), ops[1..]);
    }
  }

  /** At most one thread is between acquiring and releasing the mutex. */
  lemma MutualExclusion(s: State, ops: seq<Op>, t: nat, u: nat)
    requires Created(s) && Legal(s, ops) && t in Final(s, ops).pc && u in Final(s, ops).pc
    requires Owns(Final(s, ops).pc[t]) && Owns(Final(s, ops).pc[u])
    ensures t == u && Final(s, ops).owner == Some(t)
  {
    RunOk(s, ops);
    assert ThreadOk(Final(s, ops), t) && ThreadOk(Final(s, ops), u);
  }

  /** When the mutex and its spinlock are free and threads sleep, one of the woken threads is about to try again. */
  lemma NoLostLock(s: State, ops: seq<Op>, t: nat) returns (w: nat)
    requires Created(s) && Legal(s, ops)
    requires var f := Final(s, ops); f.owner == None && f.lkLock == None && t in f.pc && f.pc[t].LockAsleep?
    ensures w in Final(s, ops).pc && Final(s, ops).pc[w] == LockWoken
  {
    RunOk(s, ops);
    var f := Final(s, ops);
    assert ThreadOk(f, t);
    w :| w in f.pc && (Retries(f.pc[w]) || f.pc[w].RelCleared?);
    assert ThreadOk(f, w);
  }

  /**
   cv_wait is atomic for signallers: while one picks a waiter, no thread has released the mutex without
   being on the channel, so whoever waits is either picked or still asleep there.
   */
  lemma NoMissedSignal(s: State, ops: seq<Op>, signaller: nat, t: nat)
    requires Created(s) && Legal(s, ops) && Enabled(Final(s, ops), Pick(signaller)) && t in Final(s, ops).pc
    ensures var f := Final(s, ops);
            && !InWindow(f.pc[t]) && f.owner == Some(signaller)
            && (f.pc[t].CvAsleep? ==>
                  var g := Apply(f, Pick(signaller));
                  && t in f.cvChan && t in g.pc
                  && (g.pc[t] == CvWoken <==> f.pc[signaller].all || t == f.cvChan[0])
                  && (g.pc[t] != CvWoken ==> t in g.cvChan))
  {
    RunOk(s, ops);
    PickSeesAll(Final(s, ops), signaller, t);
    PickWakes(Final(s, ops), signaller, t);
  }

  lemma PickSeesAll(f: State, signaller: nat, t: nat)
    requires Inv(f) && Enabled(f, Pick(signaller)) && t in f.pc
    ensures !InWindow(f.pc[t]) && f.owner == Some(signaller) && (f.pc[t].CvAsleep? ==> t in f.cvChan && t != signaller)
  {
    assert ThreadOk(f, signaller) && ThreadOk(f, t);
    hide Inv;
  }

  lemma PickWakes(f: State, signaller: nat, t: nat)
    requires NoDup(f.cvChan) && Enabled(f, Pick(signaller)) && t in f.pc
    ensures f.pc[t].CvAsleep? && t in f.cvChan ==>
              var g := Apply(f, Pick(signaller));
              && t in g.pc && (g.pc[t] == CvWoken <==> f.pc[signaller].all || t == f.cvChan[0])
              && (g.pc[t] != CvWoken ==> t in g.cvChan)
  {
    WakeAllAt(f.pc, f.cvChan);
    if f.cvChan != [] {
      Dequeued(f.cvChan);
    }
  }

  /** wchan_sleep's assertion: a thread goes to sleep holding the channel's spinlock and not the other one. */
  lemma SleepsWithOneSpinlock(s: State, ops: seq<Op>, t: nat)
    requires Created(s) && Legal(s, ops) && t in Final(s, ops).pc
    ensures var f := Final(s, ops);
            && (f.pc[t].AcqTest? ==> f.lkLock == Some(t) && f.cvLock != Some(t))
            && (f.pc[t].WaitReleased? ==> f.cvLock == Some(t) && f.lkLock != Some(t) && f.owner != Some(t))
  {
    RunOk(s, ops);
    assert ThreadOk(Final(s, ops), t);
  }
}
