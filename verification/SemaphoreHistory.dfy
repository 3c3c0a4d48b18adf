/**
 Semaphores judged by the calls made (kern/thread/synch.c), over every run: what the calls that have returned took
 and gave, who is woken, and that nobody is stuck.
 */
module SemaphoreHistory {
  import opened Prelude
  import opened Semaphore

  /** A run from sem_create: states[k + 1] is what step k leaves. */
  ghost predicate IsRun(states: seq<State>, ops: seq<Op>, init: nat) {
    |states| == |ops| + 1 && Created(states[0], init) && forall k :: 0 <= k < |ops| ==> IsStep(states, ops, k)
  }

  predicate IsStep(states: seq<State>, ops: seq<Op>, k: nat)
    requires k < |ops| && k + 1 < |states|
  {
    Enabled(states[k], ops[k]) && states[k + 1] == Apply(states[k], ops[k])
  }

  lemma {:induction false} RunInv(states: seq<State>, ops: seq<Op>, init: nat, k: nat)
    requires IsRun(states, ops, init) && k <= |ops|
    ensures Inv(states[k], init)
  {
    hide Inv, Enabled, Apply;
    if k == 0 {
      CreatedOk(states[0], init);
    } else {
      RunInv(states, ops, init, k - 1);
      assert IsStep(states, ops, k - 1);
      StepOk(states[k - 1], ops[k - 1], init);
    }
  }

  lemma CreatedOk(s: State, init: nat)
    requires Created(s, init)
    ensures Inv(s, init)
  {
  }

  // ---------------------------------------------------------------- calls and returns

  datatype Call = NoCall | InP | InV

  /** The last call of t among the first k operations. */
  function LastCall(ops: seq<Op>, t: nat, k: nat): Call
    requires k <= |ops|
  {
    if k == 0 then NoCall
    else if ops[k - 1] == CallP(t) then InP
    else if ops[k - 1] == CallV(t) then InV
    else LastCall(ops, t, k - 1)
  }

  function CallsOfP(ops: seq<Op>, k: nat): nat
    requires k <= |ops|
  {
    if k == 0 then 0 else CallsOfP(ops, k - 1) + One(ops[k - 1].CallP?)
  }

  function CallsOfV(ops: seq<Op>, k: nat): nat
    requires k <= |ops|
  {
    if k == 0 then 0 else CallsOfV(ops, k - 1) + One(ops[k - 1].CallV?)
  }

  predicate DoingP(p: Pc) { p.PWant? || p.PTest? || p.PDone? || p.Asleep? || p.Woken? }

  predicate DoingV(p: Pc) { p.VWant? || p.VHold? || p.VCounted? || p.VDone? }

  /** The threads that have called P, or V, and have not returned. */
  function Inside(s: State, ops: seq<Op>, k: nat, call: Call): set<nat>
    requires k <= |ops|
  {
    set t | t in s.pc && !s.pc[t].Idle? && LastCall(ops, t, k) == call
  }

  predicate Fits(p: Pc, call: Call) { (DoingP(p) ==> call == InP) && (DoingV(p) ==> call == InV) }

  function NextCall(op: Op, t: nat, call: Call): Call {
    if op == CallP(t) then InP else if op == CallV(t) then InV else call
  }

  lemma FitsStep(s: State, op: Op, t: nat, call: Call, init: nat)
    requires Inv(s, init) && Enabled(s, op) && t in s.pc && Fits(s.pc[t], call)
    ensures t in Apply(s, op).pc && Fits(Apply(s, op).pc[t], NextCall(op, t, call))
  {
    hide Retesting;
  }

  lemma {:induction false} CallFits(states: seq<State>, ops: seq<Op>, init: nat, t: nat, k: nat)
    requires IsRun(states, ops, init) && k <= |ops| && t in states[k].pc
    ensures Fits(states[k].pc[t], LastCall(ops, t, k))
  {
    hide Inv, Enabled, Apply;
    if k > 0 {
      RunInv(states, ops, init, k - 1);
      assert IsStep(states, ops, k - 1);
      SameThreads(states[k - 1], ops[k - 1]);
      CallFits(states, ops, init, t, k - 1);
      FitsStep(states[k - 1], ops[k - 1], t, LastCall(ops, t, k - 1), init);
    }
  }

  lemma SameThreads(s: State, op: Op)
    requires Enabled(s, op)
    ensures Apply(s, op).pc.Keys == s.pc.Keys
  {
  }

  function Doers(pc: map<nat, Pc>, inP: bool): set<nat> { set t | t in pc && (if inP then DoingP(pc[t]) else DoingV(pc[t])) }

  /** Every thread that is not idle is in the call it made last. */
  lemma InsideIs(states: seq<State>, ops: seq<Op>, init: nat, k: nat)
    requires IsRun(states, ops, init) && k <= |ops|
    ensures Inside(states[k], ops, k, InP) == Doers(states[k].pc, true)
    ensures Inside(states[k], ops, k, InV) == Doers(states[k].pc, false)
  {
    forall t | t in states[k].pc ensures Fits(states[k].pc[t], LastCall(ops, t, k)) {
      CallFits(states, ops, init, t, k);
    }
  }

  lemma DoersUpdate(pc: map<nat, Pc>, t: nat, p: Pc, inP: bool)
    requires t in pc
    ensures var before, after := Doers(pc, inP), Doers(pc[t := p], inP);
            |after| + One(t in before) == |before| + One(t in after)
  {
    var r, r' := Doers(pc, inP), Doers(pc[t := p], inP);
    assert r' - {t} == r - {t};
    assert t in r ==> r == (r - {t}) + {t};
    assert t in r' ==> r' == (r' - {t}) + {t};
  }

  /** A step changes who is inside by its own thread's call or return. */
  lemma DoersStep(s: State, op: Op, init: nat, inP: bool)
    requires Inv(s, init) && Enabled(s, op)
    ensures var before, after := Doers(s.pc, inP), Doers(Apply(s, op).pc, inP);
            |after| + One(if inP then op.UnlockP? else op.UnlockV?) == |before| + One(if inP then op.CallP? else op.CallV?)
  {
    hide Retesting;
    DoersUpdate(s.pc, op.t, Apply(s, op).pc[op.t], inP);
    if op.WakeOne? && s.wchan != [] {
      DoersUpdate(s.pc, s.wchan[0], Woken, inP);
      DoersUpdate(s.pc[s.wchan[0] := Woken], op.t, VDone, inP);
    }
  }

  /** completedP and completedV are the calls that have returned. */
  lemma {:induction false} CompletedIs(states: seq<State>, ops: seq<Op>, init: nat, k: nat)
    requires IsRun(states, ops, init) && k <= |ops|
    ensures states[k].completedP + |Doers(states[k].pc, true)| == CallsOfP(ops, k)
    ensures states[k].completedV + |Doers(states[k].pc, false)| == CallsOfV(ops, k)
  {
    hide Inv, Enabled, Apply, Doers;
    if k == 0 {
      NobodyInside(states[0], init);
    } else {
      CompletedIs(states, ops, init, k - 1);
      RunInv(states, ops, init, k - 1);
      assert IsStep(states, ops, k - 1);
      DoersStep(states[k - 1], ops[k - 1], init, true);
      DoersStep(states[k - 1], ops[k - 1], init, false);
      CompletedStep(states[k - 1], ops[k - 1]);
    }
  }

  lemma NobodyInside(s: State, init: nat)
    requires Created(s, init)
    ensures Doers(s.pc, true) == {} && Doers(s.pc, false) == {}
  {
  }

  lemma CompletedStep(s: State, op: Op)
    requires Enabled(s, op)
    ensures Apply(s, op).completedP == s.completedP + One(op.UnlockP?)
    ensures Apply(s, op).completedV == s.completedV + One(op.UnlockV?)
  {
  }

  /**
   Conservation, by the calls alone: whenever sem_lock is free, the count and the P calls that have returned
   balance the initial count and the V calls that have returned.
   */
  lemma ReturnedCallsBalance(states: seq<State>, ops: seq<Op>, init: nat, k: nat)
    requires IsRun(states, ops, init) && k <= |ops| && states[k].lock == None
    ensures var returnedP := CallsOfP(ops, k) - |Inside(states[k], ops, k, InP)|;
            var returnedV := CallsOfV(ops, k) - |Inside(states[k], ops, k, InV)|;
            returnedP >= 0 && returnedV >= 0 && states[k].count + returnedP == init + returnedV
  {
    InsideIs(states, ops, init, k);
    CompletedIs(states, ops, init, k);
    RunInv(states, ops, init, k);
    hide Inside, Doers, CallsOfP, CallsOfV, Retesting, LockOk, ChannelOk;
  }

  // ---------------------------------------------------------------- first come, first woken

  /** The last step at which t tested the count, and then slept if it was zero. */
  function TestedAt(ops: seq<Op>, t: nat, k: nat): (at: int)
    requires k <= |ops|
    ensures -1 <= at < k
  {
    if k == 0 then -1 else if ops[k - 1] == Test(t) then k - 1 else TestedAt(ops, t, k - 1)
  }

  predicate Ordered(s: State, ops: seq<Op>, k: nat)
    requires k <= |ops|
  {
    forall i, j :: 0 <= i < j < |s.wchan| ==> TestedAt(ops, s.wchan[i], k) < TestedAt(ops, s.wchan[j], k)
  }

  /** In every reachable state the wait channel is in the order in which its threads went to sleep. */
  lemma {:induction false} SleepersInOrder(states: seq<State>, ops: seq<Op>, init: nat, k: nat)
    requires IsRun(states, ops, init) && k <= |ops|
    ensures Ordered(states[k], ops, k)
  {
    hide Inv, Enabled, Apply;
    if k > 0 {
      SleepersInOrder(states, ops, init, k - 1);
      RunInv(states, ops, init, k - 1);
      assert IsStep(states, ops, k - 1);
      QueueStep(states[k - 1], ops[k - 1], init);
    }
  }

  /** What a step does to the channel: one thread joins at the tail, or the first leaves. */
  lemma QueueStep(s: State, op: Op, init: nat)
    requires Inv(s, init) && Enabled(s, op)
    ensures Apply(s, op).wchan == (if op.Test? && s.count == 0 then s.wchan + [op.t]
                                   else if op.WakeOne? && s.wchan != [] then s.wchan[1..]
                                   else s.wchan)
    ensures op.Test? ==> op.t !in s.wchan
  {
    hide Retesting;
  }

  /** V wakes the thread that has slept longest, and no other. */
  lemma WakesFirst(states: seq<State>, ops: seq<Op>, init: nat, k: nat, t: nat)
    requires IsRun(states, ops, init) && k < |ops| && ops[k].WakeOne? && t in states[k].wchan
    ensures t in states[k + 1].pc && states[k + 1].pc[t] == if t == states[k].wchan[0] then Woken else Asleep
    ensures t != states[k].wchan[0] ==> TestedAt(ops, states[k].wchan[0], k) < TestedAt(ops, t, k)
  {
    hide TestedAt;
    RunInv(states, ops, init, k);
    assert IsStep(states, ops, k);
    SleepersInOrder(states, ops, init, k);
    WakeStep(states[k], ops[k], init, t);
    hide Inv, Apply, Enabled;
  }

  lemma WakeStep(s: State, op: Op, init: nat, t: nat)
    requires Inv(s, init) && Enabled(s, op) && op.WakeOne? && t in s.wchan
    ensures var s' := Apply(s, op); t in s'.pc && s'.pc[t] == if t == s.wchan[0] then Woken else Asleep
  {
    hide Retesting;
  }

  // ---------------------------------------------------------------- nobody is stuck

  predicate IsCall(op: Op) { op.CallP? || op.CallV? }

  /** The next operation of a thread in a call. */
  function Doing(p: Pc, t: nat): Op {
    match p
    case PTest(_) => Test(t)
    case PDone => UnlockP(t)
    case VHold => Count(t)
    case VCounted => WakeOne(t)
    case VDone => UnlockV(t)
    case VWant => LockV(t)
    case _ => LockP(t)
  }

  /** While a thread that is not asleep is inside P or V, some thread can go on, short of the assertion on a count that wraps. */
  lemma NeverStuck(s: State, init: nat, t: nat) returns (op: Op)
    requires Inv(s, init) && t in s.pc && !s.pc[t].Idle? && !s.pc[t].Asleep? && s.count < UINT_MAX
    ensures Enabled(s, op) && !IsCall(op)
  {
    hide Retesting;
    if s.lock.Some? {
      op := Doing(s.pc[s.lock.value], s.lock.value);
    } else {
      op := Doing(s.pc[t], t);
    }
  }
}
