/** Whole runs on the machine's arrays: they are the runs of module PagingRuns, event by event. */
module VmRuns {
  import opened Paging
  import opened PagingInvariant
  import opened PagingKernel
  import opened PagingRuns
  import opened PageTables
  import opened VmMachine

  /** The machine after a run whose events so far are `past`. */
  ghost predicate Sound(vm: Vm, live: map<nat, nat>, past: seq<Event>)
    reads vm, vm.coremap, vm.ram, vm.swapList, vm.swapFile, vm.tlb, vm.counters, vm.pt, vm.pt.Repr
  {
    vm.Valid() && AddrSpaceOk(vm.as_) && RunInv(vm.as_, LayoutOf(vm.as_), Machine(vm.View(), live), past)
  }

  lemma SoundFacts(vm: Vm, live: map<nat, nat>, past: seq<Event>)
    requires Sound(vm, live, past)
    ensures vm.Ready() && vm.FramesReady()
    ensures forall b :: b in live ==> b < vm.coremap.Length && b + vm.coremap[b].allocSize <= vm.coremap.Length
  {
    hide Inv, AddrSpaceOk, Agrees;
    assert vm.Ready();
    vm.ReadyFacts();
  }

  lemma SoundIsValid(vm: Vm, live: map<nat, nat>, past: seq<Event>)
    requires Sound(vm, live, past)
    ensures vm.Valid()
  {
  }

  lemma StaysSound(vm: Vm, m: Machine, op: Op, past: seq<Event>)
    requires vm.Valid() && AddrSpaceOk(vm.as_) && Enabled(m, op) && RunInv(vm.as_, LayoutOf(vm.as_), m, past)
    requires var (m', ev) := Step(vm.as_, m, op); ev != HaltEv && vm.View() == m'.s
    ensures var (m', ev) := Step(vm.as_, m, op); Sound(vm, m'.live, past + [ev])
  {
    hide RunInv, Step, AddrSpaceOk;
    StepOk(vm.as_, LayoutOf(vm.as_), m, op, past);
  }

  /** One operation. */
  method Perform(vm: Vm, op: Op, ghost live: map<nat, nat>, ghost past: seq<Event>) returns (ev: Event, ghost live': map<nat, nat>)
    requires Sound(vm, live, past) && Enabled(Machine(vm.View(), live), op)
    modifies vm.Footprint()
    ensures vm.Valid() && fresh(vm.pt.Repr - old(vm.pt.Repr))
    ensures ev == Step(vm.as_, Machine(old(vm.View()), live), op).1
    ensures ev != HaltEv ==> Sound(vm, live', past + [ev]) && Machine(vm.View(), live') == Step(vm.as_, Machine(old(vm.View()), live), op).0
  {
    hide RunInv, AddrSpaceOk, Load, Store, KernelAlloc, Activate, KernelFree;
    ghost var m := Machine(vm.View(), live);
    SoundFacts(vm, live, past);
    live' := live;
    ev := OtherEv;
    match op {
      case LoadOp(va) =>
        var r := vm.UserLoad(va);
        ev := AccessEvent(va, 0, r);
      case StoreOp(va, b) =>
        var r := vm.UserStore(va, b);
        ev := AccessEvent(va, b, r);
      case KernelAllocOp(n, hasAs) =>
        var r := vm.GetPPages(n, hasAs);
        if r.Got? {
          live' := live[r.first := n];
          ev := AllocEv(r.first, n);
        } else if r.KernelHalt? {
          ev := HaltEv;
        }
      case KernelFreeOp(first) =>
        vm.FreeKPages(first);
        live' := live - {first};
      case KernelStoreOp(frame, page) => vm.ram[frame] := page;
      case ActivateOp => vm.ActivateTlb();
    }
    if ev != HaltEv {
      StaysSound(vm, m, op, past);
    }
  }

  lemma Unfold(as_: AddrSpace, m: Machine, ops: seq<Op>)
    requires Legal(as_, m, ops)
    ensures ops == [] ==> Run(as_, m, ops) == [] && Final(as_, m, ops) == m
    ensures ops != [] ==>
              && Enabled(m, ops[0])
              && var m', ev := Step(as_, m, ops[0]).0, Step(as_, m, ops[0]).1;
                 if ev == HaltEv then Run(as_, m, ops) == [ev]
                 else Legal(as_, m', ops[1..]) && Run(as_, m, ops) == [ev] + Run(as_, m', ops[1..])
                      && Final(as_, m, ops) == Final(as_, m', ops[1..])
  {
  }

  /** A whole run: the events on the arrays are those of the functional run, and so is the machine it leaves. */
  method Execute(vm: Vm, ops: seq<Op>, ghost live: map<nat, nat>, ghost past: seq<Event>)
    returns (evs: seq<Event>, ghost live': map<nat, nat>)
    requires Sound(vm, live, past) && Legal(vm.as_, Machine(vm.View(), live), ops)
    modifies vm.Footprint()
    ensures vm.Valid() && fresh(vm.pt.Repr - old(vm.pt.Repr))
    ensures evs == Run(vm.as_, Machine(old(vm.View()), live), ops)
    ensures HaltEv !in evs ==> Machine(vm.View(), live') == Final(vm.as_, Machine(old(vm.View()), live), ops)
    decreases |ops|
  {
    SoundIsValid(vm, live, past);
    ghost var m := Machine(vm.View(), live);
    Unfold(vm.as_, m, ops);
    hide Sound, Enabled, Step, Legal, Run, Final, AddrSpaceOk, Vm.Ready, Vm.View, PageTable.Valid;
    if ops == [] {
      return [], live;
    }
    var ev, live1 := Perform(vm, ops[0], live, past);
    if ev == HaltEv {
      return [ev], live1;
    }
    var rest;
    rest, live' := Execute(vm, ops[1..], live1, past + [ev]);
    evs := [ev] + rest;
  }

  /** From boot on, every load on the arrays returns what a flat memory would. */
  method RunFromBoot(vm: Vm, ops: seq<Op>) returns (evs: seq<Event>)
    requires vm.Valid() && vm.Blank() && 1 <= vm.firstFree <= vm.coremap.Length && AddrSpaceOk(vm.as_)
    requires Legal(vm.as_, Machine(vm.View(), map[]), ops)
    modifies vm.Footprint()
    ensures evs == Run(vm.as_, Machine(old(vm.View()), map[]), ops)
    ensures forall i :: 0 <= i < |evs| ==> FlatEvent(vm.as_, evs[..i], evs[i])
  {
    hide AddrSpaceOk, Booted, Legal, Run, Final, FlatEvent;
    ghost var m := Machine(vm.View(), map[]);
    vm.NewIsBooted();
    LayoutOfOk(vm.as_);
    BootRunInv(vm.as_, LayoutOf(vm.as_), m);
    PagingIsTransparent(vm.as_, m, ops);
    ghost var live';
    evs, live' := Execute(vm, ops, map[], []);
  }
}
