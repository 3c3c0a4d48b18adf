/**
 Semaphores (kern/thread/synch.c) as a state machine: any number of threads in the middle of P or V, one
 step per change of the shared state, every interleaving. sem_lock also protects the wait channel.
 */
module Semaphore {
  import opened Prelude

  const UINT_MAX: nat := 0xffff_ffff

  /** woken: the test is a re-test after wchan_sleep returned. */
  datatype Pc =
    | Idle
    | PWant
    | PTest(woken: bool)
    | PDone
    | Asleep
    | Woken
    | VWant
    | VHold
    | VCounted
    | VDone

  /** completedP and completedV count the calls that have returned. */
  datatype State = State(count: nat, lock: Option<nat>, wchan: seq<nat>, pc: map<nat, Pc>, completedP: nat, completedV: nat)

  datatype Op =
    | CallP(t: nat)
    | LockP(t: nat)
    | Test(t: nat)
    | UnlockP(t: nat)
    | CallV(t: nat)
    | LockV(t: nat)
    | Count(t: nat)
    | WakeOne(t: nat)
    | UnlockV(t: nat)

  predicate Enabled(s: State, op: Op) {
    op.t in s.pc &&
    match op
    case CallP(t) => s.pc[t].Idle?
    case LockP(t) => (s.pc[t].PWant? || s.pc[t].Woken?) && s.lock == None
    case Test(t) => s.pc[t].PTest?
    case UnlockP(t) => s.pc[t].PDone?
    case CallV(t) => s.pc[t].Idle?
    case LockV(t) => s.pc[t].VWant? && s.lock == None
    case Count(t) => s.pc[t].VHold? && (s.count + 1) % (UINT_MAX + 1) > 0
    case WakeOne(t) => s.pc[t].VCounted? && (s.wchan == [] || s.wchan[0] in s.pc)
    case UnlockV(t) => s.pc[t].VDone?
  }

  function Go(s: State, t: nat, pc: Pc): State { s.(pc := s.pc[t := pc]) }

  function Apply(s: State, op: Op): State
    requires Enabled(s, op)
  {
    match op
    case CallP(t) => Go(s, t, PWant)
    case LockP(t) => Go(s, t, PTest(s.pc[t].Woken?)).(lock := Some(t))
    case Test(t) =>
      if s.count == 0 then Go(s, t, Asleep).(wchan := s.wchan + [t], lock := None)
      else Go(s, t, PDone).(count := s.count - 1)
    case UnlockP(t) => Go(s, t, Idle).(lock := None, completedP := s.completedP + 1)
    case CallV(t) => Go(s, t, VWant)
    case LockV(t) => Go(s, t, VHold).(lock := Some(t))
    case Count(t) => Go(s, t, VCounted).(count := s.count + 1)
    case WakeOne(t) =>
      if s.wchan == [] then Go(s, t, VDone)
      else Go(Go(s, s.wchan[0], Woken), t, VDone).(wchan := s.wchan[1..])
    case UnlockV(t) => Go(s, t, Idle).(lock := None, completedV := s.completedV + 1)
  }

  // ---------------------------------------------------------------- the invariant

  predicate Holds(pc: Pc) { pc.PTest? || pc.PDone? || pc.VHold? || pc.VCounted? || pc.VDone? }

  /** Woken threads that have not tested the count again. */
  function Retesting(pc: map<nat, Pc>): set<nat> { set t | t in pc && (pc[t] == Woken || pc[t] == PTest(true)) }

  function HolderPc(s: State): Pc {
    if s.lock.Some? && s.lock.value in s.pc then s.pc[s.lock.value] else Idle
  }

  /** A P that has taken its unit and a V that has added one, but have not returned. */
  function Taking(s: State): nat { if HolderPc(s).PDone? then 1 else 0 }

  function Adding(s: State): nat { if HolderPc(s).VCounted? || HolderPc(s).VDone? then 1 else 0 }

  predicate LockOk(s: State) {
    forall t :: t in s.pc ==> (Holds(s.pc[t]) <==> s.lock == Some(t))
  }

  predicate ChannelOk(s: State) {
    NoDup(s.wchan) && (forall t :: t in s.wchan ==> t in s.pc) && forall t :: t in s.pc ==> (t in s.wchan <==> s.pc[t].Asleep?)
  }

  ghost predicate Inv(s: State, init: nat) {
    && LockOk(s) && ChannelOk(s) && (s.lock.Some? ==> s.lock.value in s.pc)
    && s.count <= UINT_MAX
    && s.count + s.completedP + Taking(s) == init + s.completedV + Adding(s)
    && (s.wchan != [] ==> s.count <= |Retesting(s.pc)| + if HolderPc(s).VCounted? then 1 else 0)
  }

  // ---------------------------------------------------------------- counting woken threads

  predicate Retests(pc: Pc) { pc == Woken || pc == PTest(true) }

  function One(b: bool): nat { if b then 1 else 0 }

  lemma RetestingUpdate(pc: map<nat, Pc>, t: nat, p: Pc)
    requires t in pc
    ensures |Retesting(pc[t := p])| + One(Retests(pc[t])) == |Retesting(pc)| + One(Retests(p))
  {
    var r, r' := Retesting(pc), Retesting(pc[t := p]);
    assert r' - {t} == r - {t};
    assert t in r ==> r == (r - {t}) + {t};
    assert t in r' ==> r' == (r' - {t}) + {t};
  }

  lemma StepOk(s: State, op: Op, init: nat)
    requires Inv(s, init) && Enabled(s, op)
    ensures Inv(Apply(s, op), init)
  {
    LocksOk(s, op);
    ChannelKept(s, op);
    CountsOk(s, op, init);
    WakeupsOk(s, op, init);
    hide Apply, Enabled, LockOk, ChannelOk, Retesting, HolderPc;
  }

  /** The holder of sem_lock is the one thread between taking and releasing it. */
  lemma LocksOk(s: State, op: Op)
    requires LockOk(s) && ChannelOk(s) && (s.lock.Some? ==> s.lock.value in s.pc) && Enabled(s, op)
    ensures LockOk(Apply(s, op)) && (Apply(s, op).lock.Some? ==> Apply(s, op).lock.value in Apply(s, op).pc)
  {
    hide NoDup;
  }

  lemma ChannelKept(s: State, op: Op)
    requires LockOk(s) && ChannelOk(s) && Enabled(s, op)
    ensures ChannelOk(Apply(s, op))
  {
    hide NoDup;
    if op.Test? && s.count == 0 {
      Queued(s.wchan, op.t);
    }
    if op.WakeOne? && s.wchan != [] {
      Dequeued(s.wchan);
    }
  }

  lemma CountsOk(s: State, op: Op, init: nat)
    requires Inv(s, init) && Enabled(s, op)
    ensures var s' := Apply(s, op);
            s'.count <= UINT_MAX && s'.count + s'.completedP + Taking(s') == init + s'.completedV + Adding(s')
  {
    hide Retesting, NoDup, ChannelOk;
  }

  lemma WakeupsOk(s: State, op: Op, init: nat)
    requires Inv(s, init) && Enabled(s, op)
    ensures var s' := Apply(s, op);
            s'.wchan != [] ==> s'.count <= |Retesting(s'.pc)| + if HolderPc(s').VCounted? then 1 else 0
  {
    hide Retesting, NoDup;
    var t := op.t;
    RetestingUpdate(s.pc, t, Apply(s, op).pc[t]);
    if op.WakeOne? && s.wchan != [] {
      RetestingUpdate(s.pc, s.wchan[0], Woken);
      RetestingUpdate(s.pc[s.wchan[0] := Woken], t, VDone);
    }
  }

  // ---------------------------------------------------------------- runs

  /** sem_create. */
  predicate Created(s: State, init: nat) {
    && s.count == init && init <= UINT_MAX && s.lock == None && s.wchan == [] && s.completedP == 0 && s.completedV == 0
    && forall t :: t in s.pc ==> s.pc[t] == Idle
  }

  predicate Legal(s: State, ops: seq<Op>)
    decreases |ops|
  {
    ops == [] || (Enabled(s, ops[0]) && Legal(Apply(s, ops[0]), ops[1..]))
  }

  function Final(s: State, ops: seq<Op>): State
    requires Legal(s, ops)
    decreases |ops|
  {
    if ops == [] then s else Final(Apply(s, ops[0]), ops[1..])
  }

  lemma {:induction false} RunOk(s: State, ops: seq<Op>, init: nat)
    requires Inv(s, init) && Legal(s, ops)
    ensures Inv(Final(s, ops), init)
    decreases |ops|
  {
    hide Inv, Enabled, Apply;
    if ops != [] {
      StepOk(s, ops[0], init);
      RunOk(Apply(s, ops[0]), ops[1..], init);
    }
  }

  /** Whenever the lock is free, every completed P and V is accounted for. */
  lemma Conservation(s: State, ops: seq<Op>, init: nat)
    requires Created(s, init) && Legal(s, ops) && Final(s, ops).lock == None
    ensures var f := Final(s, ops); f.count + f.completedP == init + f.completedV
  {
    RunOk(s, ops, init);
  }

  /** No lost wakeup: units that sleepers could use are covered by woken threads about to re-test. */
  lemma NoLostWakeup(s: State, ops: seq<Op>, init: nat, t: nat)
    requires Created(s, init) && Legal(s, ops)
    requires var f := Final(s, ops); f.lock == None && t in f.pc && f.pc[t].Asleep?
    ensures Final(s, ops).count <= |Retesting(Final(s, ops).pc)|
  {
    RunOk(s, ops, init);
  }

  /** So with a unit to take and a thread asleep, somebody is on its way to take it. */
  lemma SomebodyRetests(s: State, ops: seq<Op>, init: nat, t: nat) returns (w: nat)
    requires Created(s, init) && Legal(s, ops)
    requires var f := Final(s, ops); f.lock == None && t in f.pc && f.pc[t].Asleep? && f.count > 0
    ensures w in Final(s, ops).pc && Final(s, ops).pc[w] == Woken
  {
    NoLostWakeup(s, ops, init, t);
    RunOk(s, ops, init);
    var f := Final(s, ops);
    w :| w in Retesting(f.pc);
  }
}
