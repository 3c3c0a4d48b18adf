/**
 Interrupt levels and spinlocks of one CPU (kern/thread/spl.c, kern/thread/spinlock.c): the count of
 reasons to keep interrupts off, split between the spl of the current thread and the spinlocks held.
 */
module Spl {

  const IPL_NONE: int := 0
  const IPL_HIGH: int := 1

  /** t_iplhigh_count and t_curspl of the current thread, c_spinlocks, and whether interrupts are on. */
  datatype Ipl = Ipl(count: int, spl: int, spinlocks: int, irq: bool)

  function Raise(i: Ipl): Ipl { i.(count := i.count + 1, irq := i.irq && i.count != 0) }

  function Lower(i: Ipl): Ipl { i.(count := i.count - 1, irq := i.irq || i.count == 1) }

  function SetSpl(i: Ipl, spl: int): Ipl {
    if i.spl < spl then Raise(i).(spl := spl) else if i.spl > spl then Lower(i.(spl := spl)) else i
  }

  function LockTaken(i: Ipl): Ipl { var r := Raise(i); r.(spinlocks := r.spinlocks + 1) }

  function LockDropped(i: Ipl): Ipl { Lower(i.(spinlocks := i.spinlocks - 1)) }

  /** Each reason is counted once, and interrupts are on exactly when there is none. */
  predicate Balanced(i: Ipl) {
    && (i.spl == IPL_NONE || i.spl == IPL_HIGH) && i.spinlocks >= 0
    && i.count == i.spl + i.spinlocks && (i.irq <==> i.count == 0)
  }

  /** Any nesting of spl calls and spinlocks keeps the balance, however they overlap. */
  lemma BalanceKept(i: Ipl, spl: int)
    requires Balanced(i)
    ensures spl == IPL_NONE || spl == IPL_HIGH ==> Balanced(SetSpl(i, spl)) && SetSpl(i, spl).spl == spl
    ensures Balanced(LockTaken(i)) && !LockTaken(i).irq
    ensures i.spinlocks > 0 ==> Balanced(LockDropped(i))
    ensures LockDropped(LockTaken(i)) == i
  {
  }

  datatype Nest = Take | Drop | High | Restore(spl: int)

  predicate NestOk(i: Ipl, ops: seq<Nest>)
    decreases |ops|
  {
    ops == [] ||
    ((ops[0].Drop? ==> i.spinlocks > 0) && (ops[0].Restore? ==> ops[0].spl == IPL_NONE || ops[0].spl == IPL_HIGH)
     && NestOk(NestStep(i, ops[0]), ops[1..]))
  }

  function NestStep(i: Ipl, op: Nest): Ipl {
    match op
    case Take => LockTaken(i)
    case Drop => LockDropped(i)
    case High => SetSpl(i, IPL_HIGH)
    case Restore(spl) => SetSpl(i, spl)
  }

  function NestRun(i: Ipl, ops: seq<Nest>): Ipl
    decreases |ops|
  {
    if ops == [] then i else NestRun(NestStep(i, ops[0]), ops[1..])
  }

  /** Interrupts come on again only when the last lock is dropped and the spl is back to zero. */
  lemma {:induction false} NestingBalanced(i: Ipl, ops: seq<Nest>)
    requires Balanced(i) && NestOk(i, ops)
    ensures Balanced(NestRun(i, ops))
    ensures NestRun(i, ops).irq <==> NestRun(i, ops).spl == IPL_NONE && NestRun(i, ops).spinlocks == 0
    decreases |ops|
  {
    if ops != [] {
      BalanceKept(i, if ops[0].Restore? then ops[0].spl else IPL_HIGH);
      NestingBalanced(NestStep(i, ops[0]), ops[1..]);
    }
  }

  // ---------------------------------------------------------------- the records

  class Thread {
    var iplhighCount: int
    var curspl: int

    /** thread_create: a new thread starts with interrupts off. */
    constructor ()
      ensures iplhighCount == 1 && curspl == IPL_HIGH
    {
      iplhighCount, curspl := 1, IPL_HIGH;
    }
  }

  class Spinlock {
    var word: bool
    var holder: Cpu?

    constructor ()
      ensures !word && holder == null
    {
      word, holder := false, null;
    }

    /** The word is set before the holder is recorded, and cleared after. */
    ghost predicate Valid()
      reads this
    {
      holder != null ==> word
    }

    /** The test-and-set that succeeds, and the note of who holds the lock. */
    method Set(cpu: Cpu)
      modifies this
      ensures word && holder == cpu
    {
      word := true;
      holder := cpu;
    }
  }

  datatype Attempt = Taken | Spinning | Panicked

  class Cpu {
    var curthread: Thread
    var spinlocks: int
    var irq: bool

    constructor (t: Thread)
      ensures curthread == t && spinlocks == 0 && !irq
    {
      curthread, spinlocks, irq := t, 0, false;
    }

    ghost function View(): Ipl
      reads this, curthread
    {
      Ipl(curthread.iplhighCount, curthread.curspl, spinlocks, irq)
    }

    method Splraise(oldspl: int, newspl: int)
      requires oldspl == IPL_NONE && newspl == IPL_HIGH
      modifies `irq, curthread`iplhighCount
      ensures View() == Raise(old(View()))
    {
      if curthread.iplhighCount == 0 {
        irq := false;
      }
      curthread.iplhighCount := curthread.iplhighCount + 1;
    }

    method Spllower(oldspl: int, newspl: int)
      requires oldspl == IPL_HIGH && newspl == IPL_NONE
      modifies `irq, curthread`iplhighCount
      ensures View() == Lower(old(View()))
    {
      curthread.iplhighCount := curthread.iplhighCount - 1;
      if curthread.iplhighCount == 0 {
        irq := true;
      }
    }

    /** Returns the old level; splraise and spllower get the only arguments they accept. */
    method Splx(spl: int) returns (ret: int)
      requires Balanced(View()) && (spl == IPL_NONE || spl == IPL_HIGH)
      modifies `irq, curthread
      ensures View() == SetSpl(old(View()), spl) && ret == old(View()).spl && Balanced(View())
    {
      ret := curthread.curspl;
      if curthread.curspl < spl {
        Splraise(curthread.curspl, spl);
        curthread.curspl := spl;
      } else if curthread.curspl > spl {
        curthread.curspl := spl;
        Spllower(ret, spl);
      }
    }

    /**
     spinlock_acquire, up to the first reading of the lock word. Spinning: the word is taken, and the loop goes on
     reading it, with the lock already counted and interrupts off.
     */
    method Acquire(splk: Spinlock) returns (r: Attempt)
      requires Balanced(View()) && splk.Valid()
      modifies `irq, `spinlocks, curthread`iplhighCount, splk
      ensures r == Panicked <==> old(splk.holder) == this
      ensures r == Panicked ==> View() == Raise(old(View())) && unchanged(splk)
      ensures r == Taken <==> !old(splk.word)
      ensures r == Taken ==> splk.word && splk.holder == this
      ensures r == Spinning ==> unchanged(splk)
      ensures r != Panicked ==> View() == LockTaken(old(View())) && Balanced(View()) && !irq
      ensures splk.Valid()
    {
      Splraise(IPL_NONE, IPL_HIGH);
      if splk.holder == this {
        return Panicked;
      }
      spinlocks := spinlocks + 1;
      if splk.word {
        return Spinning;
      }
      splk.Set(this);
      r := Taken;
    }

    /** spinlock_release of a lock this CPU holds. */
    method Release(splk: Spinlock)
      requires Balanced(View()) && splk.Valid() && splk.holder == this && spinlocks > 0
      modifies `irq, `spinlocks, curthread`iplhighCount, splk
      ensures View() == LockDropped(old(View())) && Balanced(View()) && splk.holder == null && splk.Valid()
    {
      spinlocks := spinlocks - 1;
      splk.holder := null;
      splk.word := false;
      Spllower(IPL_HIGH, IPL_NONE);
    }
  }
}
