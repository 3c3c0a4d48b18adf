/**
 What the calls of sleep locks and condition variables promise their callers (kern/thread/synch.c), over every
 run: judged by which call a thread made last, and by who put it on and took it off the wait channel since.
 */
module LockHistory {
  import opened Prelude
  import opened LockCv

  /** A run from creation: states[k + 1] is what step k leaves. */
  ghost predicate IsRun(states: seq<State>, ops: seq<Op>) {
    |states| == |ops| + 1 && Created(states[0]) && forall k :: 0 <= k < |ops| ==> IsStep(states, ops, k)
  }

  predicate IsStep(states: seq<State>, ops: seq<Op>, k: nat)
    requires k < |ops| && k + 1 < |states|
  {
    Enabled(states[k], ops[k]) && states[k + 1] == Apply(states[k], ops[k])
  }

  lemma {:induction false} RunInv(states: seq<State>, ops: seq<Op>, k: nat)
    requires IsRun(states, ops) && k <= |ops|
    ensures Inv(states[k])
  {
    hide Inv, Enabled, Apply;
    if k == 0 {
      CreatedOk(states[0]);
    } else {
      RunInv(states, ops, k - 1);
      assert IsStep(states, ops, k - 1);
      StepOk(states[k - 1], ops[k - 1]);
    }
  }

  lemma CreatedOk(s: State)
    requires Created(s)
    ensures Inv(s)
  {
  }

  // ---------------------------------------------------------------- the call a thread is in, by history

  datatype Call = NoCall | Acquiring | Releasing | Waiting | Signalling(all: bool)

  /** The last call of a thread, and whether it has gone to sleep on the channel and was taken off it since. */
  datatype Past = Past(call: Call, slept: bool, picked: bool)

  /** The signaller that executes Pick takes t off the channel. */
  predicate Picks(s: State, u: nat, t: nat) {
    u in s.pc && s.pc[u].SigHold? && t in s.cvChan && (s.pc[u].all || t == s.cvChan[0])
  }

  function NextPast(s: State, op: Op, t: nat, past: Past): Past {
    match op
    case CallAcquire(u) => if u == t then Past(Acquiring, false, false) else past
    case CallRelease(u) => if u == t then Past(Releasing, false, false) else past
    case CallWait(u) => if u == t then Past(Waiting, false, false) else past
    case CallSignal(u, all) => if u == t then Past(Signalling(all), false, false) else past
    case CvSleep(u) => if u == t then past.(slept := true) else past
    case Pick(u) => if Picks(s, u, t) then past.(picked := true) else past
    case _ => past
  }

  function PastOf(states: seq<State>, ops: seq<Op>, t: nat, k: nat): Past
    requires k <= |ops| < |states|
  {
    if k == 0 then Past(NoCall, false, false) else NextPast(states[k - 1], ops[k - 1], t, PastOf(states, ops, t, k - 1))
  }

  /** In cv_wait, and woken by a signal: the mutex is being taken again, or was. */
  predicate WokenWait(past: Past) { past == Past(Waiting, true, true) }

  /** Where a thread can be in the call it made last. */
  predicate Fits(p: Pc, past: Past) {
    match p
    case Idle => past.call == NoCall || past.call == Releasing
    case Holding => past.call == Acquiring || past.call.Signalling? || WokenWait(past)
    case AcqWant => past.call == Acquiring || WokenWait(past)
    case AcqTest(_) => past.call == Acquiring || WokenWait(past)
    case AcqSet => past.call == Acquiring || WokenWait(past)
    case LockAsleep => past.call == Acquiring || WokenWait(past)
    case LockWoken => past.call == Acquiring || WokenWait(past)
    case RelWant(waiting) => if waiting then past == Past(Waiting, false, false) else past.call == Releasing
    case RelHold(waiting) => if waiting then past == Past(Waiting, false, false) else past.call == Releasing
    case RelCleared(waiting) => if waiting then past == Past(Waiting, false, false) else past.call == Releasing
    case RelDone(waiting) => if waiting then past == Past(Waiting, false, false) else past.call == Releasing
    case WaitWant => past == Past(Waiting, false, false)
    case WaitReleased => past == Past(Waiting, false, false)
    case CvAsleep => past == Past(Waiting, true, false)
    case CvWoken => WokenWait(past)
    case CvBack => WokenWait(past)
    case SigWant(all) => past.call == Signalling(all)
    case SigHold(all) => past.call == Signalling(all)
    case SigDone => past.call.Signalling?
  }

  // ---------------------------------------------------------------- one step

  /** A step moves its own thread, and whoever it wakes. */
  lemma OthersStay(s: State, op: Op, t: nat)
    requires Inv(s) && Enabled(s, op) && t in s.pc && t != op.t
    ensures var s' := Apply(s, op);
            && t in s'.pc
            && s'.pc[t] == if op.WakeLock? && s.lkChan != [] && t == s.lkChan[0] then LockWoken
                           else if op.Pick? && Picks(s, op.t, t) then CvWoken
                           else s.pc[t]
  {
    if op.Pick? {
      WakeAllAt(s.pc, s.cvChan);
    }
    hide Inv;
  }

  lemma FitsOther(s: State, op: Op, t: nat, past: Past)
    requires Inv(s) && Enabled(s, op) && t in s.pc && t != op.t && Fits(s.pc[t], past)
    ensures t in Apply(s, op).pc && Fits(Apply(s, op).pc[t], NextPast(s, op, t, past))
  {
    OthersStay(s, op, t);
    assert ThreadOk(s, t);
    hide Inv, Apply, Enabled;
  }

  lemma FitsOwn(s: State, op: Op, t: nat, past: Past)
    requires Inv(s) && Enabled(s, op) && t == op.t && Fits(s.pc[t], past)
    ensures t in Apply(s, op).pc && Fits(Apply(s, op).pc[t], NextPast(s, op, t, past))
  {
    assert ThreadOk(s, t);
    hide Inv, Apply, Fits, NextPast;
    if OnMutex(op) {
      FitsMutex(s, op, past);
    } else if op.Pick? {
      FitsPick(s, op, past);
    } else {
      FitsCv(s, op, past);
    }
  }

  predicate OnMutex(op: Op) {
    || op.CallAcquire? || op.LockSpin? || op.AcquireTest? || op.AcquireEnd? || op.CallRelease? || op.Clear? || op.WakeLock?
    || op.ReleaseEnd?
  }

  lemma FitsMutex(s: State, op: Op, past: Past)
    requires Enabled(s, op) && OnMutex(op) && Fits(s.pc[op.t], past) && (op.WakeLock? && s.lkChan != [] ==> s.lkChan[0] != op.t)
    ensures op.t in Apply(s, op).pc && Fits(Apply(s, op).pc[op.t], NextPast(s, op, op.t, past))
  {
  }

  lemma FitsPick(s: State, op: Op, past: Past)
    requires Enabled(s, op) && op.Pick? && Fits(s.pc[op.t], past) && op.t !in s.cvChan
    ensures op.t in Apply(s, op).pc && Fits(Apply(s, op).pc[op.t], NextPast(s, op, op.t, past))
  {
  }

  lemma FitsCv(s: State, op: Op, past: Past)
    requires Enabled(s, op) && !OnMutex(op) && !op.Pick? && Fits(s.pc[op.t], past)
    ensures op.t in Apply(s, op).pc && Fits(Apply(s, op).pc[op.t], NextPast(s, op, op.t, past))
  {
  }

  lemma {:induction false} PastFits(states: seq<State>, ops: seq<Op>, t: nat, k: nat)
    requires IsRun(states, ops) && k <= |ops| && t in states[0].pc
    ensures t in states[k].pc && Fits(states[k].pc[t], PastOf(states, ops, t, k))
  {
    hide Inv, Enabled, Apply, Fits, NextPast;
    if k == 0 {
      IdleFits(states[0], t);
    } else {
      PastFits(states, ops, t, k - 1);
      RunInv(states, ops, k - 1);
      assert IsStep(states, ops, k - 1);
      if t == ops[k - 1].t {
        FitsOwn(states[k - 1], ops[k - 1], t, PastOf(states, ops, t, k - 1));
      } else {
        FitsOther(states[k - 1], ops[k - 1], t, PastOf(states, ops, t, k - 1));
      }
    }
  }

  lemma IdleFits(s: State, t: nat)
    requires Created(s) && t in s.pc
    ensures Fits(s.pc[t], Past(NoCall, false, false))
  {
  }

  // ---------------------------------------------------------------- what the calls promise

  /** Between two calls: where the functions of synch.c return to. */
  predicate Outside(p: Pc) { p.Idle? || p.Holding? }

  /**
   The return law. In every state of every run a thread that is outside all calls owns the mutex if its last call
   was an acquire, a wait or a signal, and does not own it if it was a release or there was none; and it returned
   from a wait only after it went to sleep on the channel and a signaller took it off.
   */
  lemma ReturnLaw(states: seq<State>, ops: seq<Op>, t: nat, k: nat)
    requires IsRun(states, ops) && k <= |ops| && t in states[0].pc && t in states[k].pc && Outside(states[k].pc[t])
    ensures var past := PastOf(states, ops, t, k); var owns := states[k].owner == Some(t);
            match past.call
            case Acquiring => states[k].pc[t].Holding? && owns
            case Signalling(_) => states[k].pc[t].Holding? && owns
            case Waiting => states[k].pc[t].Holding? && owns && past.slept && past.picked
            case Releasing => states[k].pc[t].Idle? && !owns
            case NoCall => states[k].pc[t].Idle? && !owns
  {
    PastFits(states, ops, t, k);
    RunInv(states, ops, k);
    assert ThreadOk(states[k], t);
    hide Inv;
  }

  // ---------------------------------------------------------------- first come, first woken

  /** The last step at which t went to sleep on the condition variable; -1 if there was none. */
  function CvSleptAt(ops: seq<Op>, t: nat, k: nat): (at: int)
    requires k <= |ops|
    ensures -1 <= at < k
  {
    if k == 0 then -1 else if ops[k - 1] == CvSleep(t) then k - 1 else CvSleptAt(ops, t, k - 1)
  }

  /** The last step at which t tested the owner, and then slept if the mutex was taken. */
  function TestedAt(ops: seq<Op>, t: nat, k: nat): (at: int)
    requires k <= |ops|
    ensures -1 <= at < k
  {
    if k == 0 then -1 else if ops[k - 1] == AcquireTest(t) then k - 1 else TestedAt(ops, t, k - 1)
  }

  predicate CvOrdered(s: State, ops: seq<Op>, k: nat)
    requires k <= |ops|
  {
    forall i, j :: 0 <= i < j < |s.cvChan| ==> CvSleptAt(ops, s.cvChan[i], k) < CvSleptAt(ops, s.cvChan[j], k)
  }

  predicate LockOrdered(s: State, ops: seq<Op>, k: nat)
    requires k <= |ops|
  {
    forall i, j :: 0 <= i < j < |s.lkChan| ==> TestedAt(ops, s.lkChan[i], k) < TestedAt(ops, s.lkChan[j], k)
  }

  /** In every reachable state both channels are in the order in which their threads went to sleep. */
  lemma {:induction false} SleepersInOrder(states: seq<State>, ops: seq<Op>, k: nat)
    requires IsRun(states, ops) && k <= |ops|
    ensures CvOrdered(states[k], ops, k) && LockOrdered(states[k], ops, k)
  {
    hide Inv, Enabled, Apply;
    if k > 0 {
      SleepersInOrder(states, ops, k - 1);
      RunInv(states, ops, k - 1);
      assert IsStep(states, ops, k - 1);
      QueueStep(states[k - 1], ops[k - 1]);
      hide CvSleptAt, TestedAt;
      forall t | t != ops[k - 1].t ensures CvSleptAt(ops, t, k) == CvSleptAt(ops, t, k - 1) && TestedAt(ops, t, k) == TestedAt(ops, t, k - 1) {
        NotLast(ops, t, k);
      }
      LastOfAll(ops, k);
    }
  }

  lemma NotLast(ops: seq<Op>, t: nat, k: nat)
    requires 0 < k <= |ops|
    ensures ops[k - 1] != CvSleep(t) ==> CvSleptAt(ops, t, k) == CvSleptAt(ops, t, k - 1)
    ensures ops[k - 1] != AcquireTest(t) ==> TestedAt(ops, t, k) == TestedAt(ops, t, k - 1)
  {
  }

  lemma LastOfAll(ops: seq<Op>, k: nat)
    requires 0 < k <= |ops|
    ensures ops[k - 1].CvSleep? ==> CvSleptAt(ops, ops[k - 1].t, k) == k - 1
    ensures ops[k - 1].AcquireTest? ==> TestedAt(ops, ops[k - 1].t, k) == k - 1
  {
  }

  /** What a step does to the two channels: one thread joins at the tail, or the head, or all of them, leave. */
  lemma QueueStep(s: State, op: Op)
    requires Inv(s) && Enabled(s, op)
    ensures var s' := Apply(s, op);
            && s'.cvChan == (if op.CvSleep? then s.cvChan + [op.t]
                             else if op.Pick? && s.cvChan != [] then (if s.pc[op.t].all then [] else s.cvChan[1..])
                             else s.cvChan)
            && s'.lkChan == (if op.AcquireTest? && s.owner != None then s.lkChan + [op.t]
                             else if op.WakeLock? && s.lkChan != [] then s.lkChan[1..]
                             else s.lkChan)
            && (op.CvSleep? ==> op.t !in s.cvChan) && (op.AcquireTest? ==> op.t !in s.lkChan)
  {
    assert ThreadOk(s, op.t);
    hide Inv;
  }

  /** lock_release wakes the thread that has slept longest, and no other. */
  lemma ReleaseWakesFirst(states: seq<State>, ops: seq<Op>, k: nat, t: nat)
    requires IsRun(states, ops) && k < |ops| && ops[k].WakeLock? && t in states[k].lkChan
    ensures t in states[k + 1].pc
    ensures states[k + 1].pc[t] == if t == states[k].lkChan[0] then LockWoken else LockAsleep
    ensures t != states[k].lkChan[0] ==> TestedAt(ops, states[k].lkChan[0], k) < TestedAt(ops, t, k)
  {
    hide Apply, Enabled, TestedAt, CvSleptAt;
    RunInv(states, ops, k);
    assert IsStep(states, ops, k);
    WakerAwake(states[k], ops[k]);
    assert ThreadOk(states[k], t) && ThreadOk(states[k], ops[k].t);
    OthersStay(states[k], ops[k], t);
    SleepersInOrder(states, ops, k);
    hide Inv;
  }

  lemma WakerAwake(s: State, op: Op)
    requires Enabled(s, op) && op.WakeLock?
    ensures op.t in s.pc && s.pc[op.t].RelCleared?
  {
  }

  // ---------------------------------------------------------------- nobody is stuck

  predicate Asleep(p: Pc) { p.LockAsleep? || p.CvAsleep? }

  predicate IsCall(op: Op) { op.CallAcquire? || op.CallRelease? || op.CallWait? || op.CallSignal? }

  /** While a thread that is not asleep is inside a call, some thread can go on with the call it is in. */
  lemma NeverStuck(s: State, t: nat) returns (op: Op)
    requires Inv(s) && t in s.pc && !Outside(s.pc[t]) && !Asleep(s.pc[t])
    ensures Enabled(s, op) && !IsCall(op)
  {
    if SpinsForLk(s.pc[t]) && s.lkLock.Some? {
      assert ThreadOk(s, s.lkLock.value);
      op := Going(s, s.lkLock.value);
    } else if SpinsForCv(s.pc[t]) && s.cvLock.Some? {
      var u := s.cvLock.value;
      assert ThreadOk(s, u);
      if SpinsForLk(s.pc[u]) && s.lkLock.Some? {
        assert ThreadOk(s, s.lkLock.value);
        op := Going(s, s.lkLock.value);
      } else {
        op := Going(s, u);
      }
    } else {
      op := Going(s, t);
    }
  }

  predicate SpinsForLk(p: Pc) { p.AcqWant? || p.LockWoken? || p.RelWant? }

  predicate SpinsForCv(p: Pc) { p.WaitWant? || p.CvWoken? || p.SigWant? }

  /** The next operation of a thread in a call. */
  function Doing(p: Pc, t: nat): Op {
    match p
    case AcqTest(_) => AcquireTest(t)
    case AcqSet => AcquireEnd(t)
    case RelHold(_) => Clear(t)
    case RelCleared(_) => WakeLock(t)
    case RelDone(_) => ReleaseEnd(t)
    case WaitReleased => CvSleep(t)
    case CvBack => CvUnlock(t)
    case SigHold(_) => Op.Pick(t)
    case SigDone => SignalEnd(t)
    case _ => if SpinsForLk(p) then LockSpin(t) else CvSpin(t)
  }

  lemma Going(s: State, t: nat) returns (op: Op)
    requires Inv(s) && t in s.pc && !Outside(s.pc[t]) && !Asleep(s.pc[t])
    requires (SpinsForLk(s.pc[t]) ==> s.lkLock == None) && (SpinsForCv(s.pc[t]) ==> s.cvLock == None)
    ensures Enabled(s, op) && !IsCall(op)
  {
    op := Doing(s.pc[t], t);
  }
}
