/** The memory interface, and the cycle that drives the core and both interfaces. */
module Simulator {
  import opened Words
  import opened Isa
  import opened Cycles
  import opened Core

  const MEMIF_DELAY := 1
  const PHYSMEM_NUMWORDS := 65535

  class MemIf {
    const physmem: array<word>
    const memlen: nat
    var delay: nat
    var quiescent: bool

    constructor (physmem: array<word>, memlen: nat)
      ensures this.physmem == physmem && this.memlen == memlen && delay == 0 && quiescent
    {
      this.physmem := physmem;
      this.memlen := memlen;
      delay := 0;
      quiescent := true;
    }

    /** A request is answered when the delay it met on arrival has run out. */
    ghost predicate Due(output: MemOut)
      reads this
    {
      output.request && !quiescent && delay == 0
    }

    method Access(input: MemIn, output: MemOut) returns (r: MemIn)
      requires Due(output) && output.addr <= memlen ==> output.addr < physmem.Length
      modifies this, physmem
      ensures !output.request ==>
                r == MemIn(input.value, false, false) && delay == old(delay) && quiescent == old(quiescent)
      ensures output.request && !old(Due(output)) ==>
                r == MemIn(input.value, false, false) && !quiescent
                && delay == (if old(quiescent) then MEMIF_DELAY else old(delay)) - 1
      ensures old(Due(output)) ==> quiescent && delay == 0 && r.fault == (output.addr > memlen) && r.valid == !r.fault
      ensures old(Due(output)) && r.valid && output.read ==> r.value == physmem[output.addr]
      ensures physmem[..] == if old(Due(output)) && output.addr <= memlen && !output.read
                             then old(physmem[..])[output.addr := output.value] else old(physmem[..])
    {
      r := MemIn(input.value, false, false);
      if output.request {
        if quiescent {
          delay := MEMIF_DELAY;
          quiescent := false;
        }
        if delay != 0 {
          delay := delay - 1;
          return;
        }
      } else {
        return;
      }
      if output.addr > memlen {
        r := r.(valid := false, fault := true);
      } else if output.read {
        r := MemIn(physmem[output.addr], true, false);
      } else {
        physmem[output.addr] := output.value;
        r := r.(valid := true, fault := false);
      }
      quiescent := true;
    }
  }

  class Sim {
    const core: Core
    const imem: MemIf
    const dmem: MemIf
    const physmem: array<word>
    var input: CoreIn

    /** Fixed shape: one memory behind both interfaces, with a word for every address. */
    ghost predicate Wired() {
      && core.Shape() && physmem.Length == 0x1_0000 && imem != dmem
      && imem.physmem == physmem && dmem.physmem == physmem
      && imem.memlen == PHYSMEM_NUMWORDS && dmem.memlen == PHYSMEM_NUMWORDS
      && physmem != core.gprSuper && physmem != core.ctl
    }

    ghost function Now(): State
      requires Wired()
      reads this, core, core.gprSuper, core.ctl, physmem
    {
      core.View(physmem[..], input.exint)
    }

    /** What the core is waiting for memory to do. */
    ghost function Awaited(): Effect
      reads core
    {
      var n := if core.regnum < 8 then core.regnum else 0;
      if core.kind == LOAD || core.kind == LOADLNK then ReadMem(n, core.data.addr, core.kind == LOADLNK)
      else WriteMem(core.data.addr, core.data.value, if core.kind == SCOND then Some(n) else None)
    }

    ghost function Phase(): Phase
      requires Wired()
      reads this, core, core.gprSuper, core.ctl, physmem
    {
      if core.sleeping then Sleeping(Now())
      else if core.dataStall then Accessing(Now(), Awaited())
      else if core.instrStall then Fetching(Now())
      else Starting(Now())
    }

    /** The request, delay and stall signals of each phase. */
    ghost predicate Valid()
      reads this, core, core.gprSuper, core.ctl, physmem, imem, dmem
    {
      && Wired() && imem.delay == 0 && dmem.delay == 0 && core.coproc.op == COPROC_OP_NONE && core.instr.read
      && match Phase()
         case Starting(_) =>
           && imem.quiescent && dmem.quiescent && core.instr.request && core.instr.addr == core.pc && !core.data.request
         case Fetching(_) =>
           && !imem.quiescent && dmem.quiescent && core.instr.request && core.instr.addr == core.pc
              && !core.data.request
         case Accessing(s, eff) =>
           && imem.quiescent && !dmem.quiescent && !core.instr.request && core.data.request && !core.instrStall
           && core.Encodes(eff, s)
         case Sleeping(_) =>
           && imem.quiescent && dmem.quiescent && !core.instr.request && !core.data.request
           && !core.instrStall && !core.dataStall && core.kind == SLEEP
    }

    /** Power-on reset over a given memory, then `goto`. */
    constructor (memory: array<word>, startaddr: word)
      requires memory.Length == 0x1_0000
      ensures Valid() && physmem == memory && fresh(core) && fresh(core.gprSuper) && fresh(core.ctl)
      ensures fresh(imem) && fresh(dmem)
      ensures Phase() == Starting(PowerOn(startaddr, memory[..]))
    {
      physmem := memory;
      core := new Core();
      imem := new MemIf(memory, PHYSMEM_NUMWORDS);
      dmem := new MemIf(memory, PHYSMEM_NUMWORDS);
      input := CoreIn(MemIn(0, false, false), MemIn(0, false, false), 0,
                      [false, false, false, false, false, false, false, false]);
      new;
      hide Arch, PowerOn;
      core.instr := core.instr.(request := true, read := true, addr := startaddr);
      core.pc := startaddr;
      assert Valid();
      Booted(startaddr);
    }

    lemma Booted(startaddr: word)
      requires Wired() && core.pc == startaddr && !core.sleeping && core.newstat == 0
      requires !core.dataStall && !core.instrStall
      requires core.gprSuper[..] == seq(8, i => 0) && core.ctl[..] == seq(32, i => 0)
      requires input.exint == [false, false, false, false, false, false, false, false]
      ensures Phase() == Starting(PowerOn(startaddr, physmem[..]))
    {
      PowerOnView(startaddr, physmem[..], core.gprSuper[..], core.ctl[..]);
    }

    /** Between exec and update, in a cycle that began in phase p. */
    ghost predicate Executed(p: Phase, wide: word)
      requires Wired()
      reads this, core, core.gprSuper, core.ctl, physmem, imem, dmem
    {
      && imem.delay == 0 && dmem.delay == 0 && core.instr.read
      && !input.instr.fault && core.sleeping == p.s.asleep == p.Sleeping?
      && Now() == p.s.(latched := Clean(Unpack(core.newstat)))
      && core.dataStall == p.Accessing? && dmem.quiescent == !p.Accessing?
      && imem.quiescent == !p.Starting? && core.instrStall == p.Starting?
      && match p
         case Starting(s) => Now() == s && !core.data.request && AsksFor(s)
         case Fetching(s) =>
           && core.Encodes(Chosen(s, wide), s) && core.data.request == TouchesMemory(Chosen(s, wide)) && AsksFor(s)
         case Accessing(s, eff) => core.data.request && core.Encodes(eff, s) && !core.instr.request
         case Sleeping(s) =>
           && !core.data.request && !core.instr.request
           && match Pending(s, 0)
              case None => core.kind == SLEEP && Now() == s
              case Some(i) => core.Encodes(Interrupt(s, i), s)
    }

    ghost predicate AsksFor(s: State)
      reads core
    {
      core.instr.request && core.instr.addr == s.pc
    }

    ghost predicate Carries(r: Request)
      reads core
    {
      OnBus(core.coproc, r)
    }

    method FetchAndExec(wide: word)
      requires Valid()
      modifies this`input, core, imem, physmem
      ensures Wired() && Executed(old(Phase()), wide) && Carries(Bus(old(Phase())))
      ensures physmem[..] == old(physmem[..]) && input.exint == old(input.exint)
    {
      hide Unpack, Pack, Chosen, Command, Current;
      ghost var p := Phase();
      var instrIn := imem.Access(input.instr, core.instr);
      input := input.(instr := instrIn);
      core.Exec(input, wide, p.s);
    }

    /** What exec has left to do in this cycle. */
    ghost function Task(p: Phase, wide: word): Effect {
      match p
      case Starting(_) => Halt
      case Fetching(s) => Chosen(s, wide)
      case Accessing(_, eff) => eff
      case Sleeping(s) => match Pending(s, 0) case None => Halt case Some(i) => Interrupt(s, i)
    }

    /** Before update, in a cycle that began in phase p over memory m0. */
    ghost predicate Accessed(p: Phase, e: Env)
      requires Wired()
      reads this, core, core.gprSuper, core.ctl, physmem, imem, dmem
    {
      var eff := Task(p, e.wide);
      && imem.delay == 0 && dmem.delay == 0 && core.instr.read && imem.quiescent == !p.Starting?
      && !input.instr.fault && !input.data.fault && input.exint == e.lines
      && core.View(physmem[..], p.s.lines) == p.s.(mem := physmem[..], latched := Clean(Unpack(core.newstat)))
      && core.sleeping == p.s.asleep == p.Sleeping? && core.dataStall == p.Accessing? && core.instrStall == p.Starting?
      && (core.data.request <==> !p.Starting? && TouchesMemory(eff))
      && (if core.data.request && !p.Accessing? then !dmem.quiescent && !input.data.valid else dmem.quiescent)
      && (core.data.request && p.Accessing? ==>
            input.data.valid && core.Answers(p.s, eff, input.data.value, physmem[..]))
      && (!core.data.request || !p.Accessing? ==> physmem[..] == p.s.mem)
      && (if p.Starting? || p.Fetching? then AsksFor(p.s) else !core.instr.request)
      && (if p.Starting? || (p.Sleeping? && Pending(p.s, 0).None?)
          then p.s.latched == Clean(Unpack(core.newstat)) && (p.Sleeping? ==> core.kind == SLEEP)
          else core.Encodes(eff, p.s))
      && (eff.ReadCp? ==> input.coproc == e.cp) && (p.Accessing? ==> TouchesMemory(eff))
      && (core.coproc.op != COPROC_OP_NONE ==> p.Fetching?)
    }

    method DataAccess(e: Env, ghost p: Phase)
      requires Wired() && Executed(p, e.wide) && Carries(Bus(p))
      requires p.Accessing? ==> TouchesMemory(p.eff)
      modifies this`input, dmem, physmem
      ensures Wired() && Accessed(p, e)
    {
      hide Unpack, Pack, Chosen, Command, Current;
      if p.Fetching? {
        CpReadIsCarried(p, e.wide);
      }
      input := input.(exint := e.lines);
      var dataIn := dmem.Access(input.data, core.data);
      input := input.(data := dataIn);
      if core.coproc.op == COPROC_OP_READ {
        input := input.(coproc := e.cp);
      }
    }

    method UpdateCore(e: Env, ghost p: Phase) returns (status: int)
      requires Wired() && Accessed(p, e)
      modifies core, core.gprSuper, core.ctl
      ensures Valid() && Phase() == Cycles.Cycle(p, e) && status == Report(p, e)
    {
      hide Unpack, Pack, Chosen, Apply, Sample, Elapse;
      ghost var eff := Task(p, e.wide);
      SettleFacts(p.s, eff, e, input.coproc);
      StallFacts(p.s, eff, e);
      status := core.Update(input, p.s, eff, physmem[..]);
      if !p.Starting? && TouchesMemory(eff) && !p.Accessing? {
        EncodesLater(eff, p.s, Stall(Cycles.Early(p.s, eff), e));
      }
    }

    lemma EncodesLater(eff: Effect, s: State, t: State)
      requires Wired() && core.Encodes(eff, s) && TouchesMemory(eff)
      requires t.pc == s.pc && t.flags == Cycles.Early(s, eff).flags
      ensures core.Encodes(eff, t) && Awaited() == eff
    {
      hide Unpack;
    }

    /** One clock cycle. The coprocessor hooks that run in it are the environment: they see the
        command on the bus, and leave the interrupt lines and a coprocessor value. */
    method Cycle(e: Env) returns (status: int, bus: CpOut)
      requires Valid()
      modifies this, core, core.gprSuper, core.ctl, imem, dmem, physmem
      ensures Valid() && Phase() == Cycles.Cycle(old(Phase()), e)
      ensures status == Report(old(Phase()), e)
      ensures OnBus(bus, Bus(old(Phase())))
    {
      hide Unpack, Pack, Chosen, Command, Current, Cycles.Cycle, Report;
      ghost var p := Phase();
      FetchAndExec(e.wide);
      bus := core.coproc;
      DataAccess(e, p);
      status := UpdateCore(e, p);
    }

    /** The `step` command: run until the count is used up or a cycle reports a sleep without end. */
    method Steps(numsteps: nat, es: seq<Env>) returns (taken: nat, status: int)
      requires Valid() && |es| == numsteps
      modifies this, core, core.gprSuper, core.ctl, imem, dmem, physmem
      ensures Valid() && taken <= numsteps && Phase() == Run(old(Phase()), es[..taken])
      ensures forall k :: 0 <= k < taken - 1 ==> Report(Run(old(Phase()), es[..k]), es[k]) == 0
      ensures if taken == 0 then status == 0 && numsteps == 0
              else status == Report(Run(old(Phase()), es[..taken - 1]), es[taken - 1])
                   && (status == 0 ==> taken == numsteps)
    {
      hide Report, Cycles.Cycle;
      status, taken := 0, 0;
      while taken < numsteps && status == 0
        invariant Valid() && taken <= numsteps && Phase() == Run(old(Phase()), es[..taken])
        invariant forall k :: 0 <= k < taken - 1 ==> Report(Run(old(Phase()), es[..k]), es[k]) == 0
        invariant if taken == 0 then status == 0
                  else status == Report(Run(old(Phase()), es[..taken - 1]), es[taken - 1])
        decreases numsteps - taken
      {
        RunAppend(old(Phase()), es[..taken], [es[taken]]);
        assert es[..taken + 1] == es[..taken] + [es[taken]];
        assert Run(Phase(), [es[taken]]) == Cycles.Cycle(Phase(), es[taken]) by {
          assert [es[taken]][1..] == [];
        }
        ghost var before := Phase();
        var bus;
        status, bus := Cycle(es[taken]);
        taken := taken + 1;
      }
    }
  }

  ghost predicate OnBus(out: CpOut, r: Request) {
    match r
    case NoCommand => out.op == COPROC_OP_NONE
    case ReadRegister(cp, x) => out.op == COPROC_OP_READ && out.select == cp && out.addr == x
    case WriteRegister(cp, x, v) => out == CpOut(cp, COPROC_OP_WRITE, x, v)
    case Operate(cp, v) => out.op == COPROC_OP_EXEC && out.select == cp && out.value == v
  }

  function PowerOn(startaddr: word, m: Mem): State {
    var zero := Unpack(0);
    State(startaddr, seq(8, i => 0), seq(8, i => 0), 0, 0, zero, seq(17, i => 0), 0, (0, 0), m, false, zero,
          [false, false, false, false, false, false, false, false])
  }

  lemma PowerOnView(startaddr: word, m: Mem, g: Regs, c: CtlArray)
    requires (forall k :: 0 <= k < 8 ==> g[k] == 0) && (forall k :: 0 <= k < 32 ==> c[k] == 0)
    ensures Arch(startaddr, g, c, false, 0, m, [false, false, false, false, false, false, false, false]) ==
            PowerOn(startaddr, m)
  {
    var p := PowerOn(startaddr, m);
    assert g == p.sup && c[..8] == p.usr && c[11..28] == p.vectors;
  }

  /** The one address that passes the test and is outside the program's array. */
  lemma OutsideIff(a: word)
    ensures !(a > PHYSMEM_NUMWORDS) && a >= PHYSMEM_NUMWORDS <==> a == 0xFFFF
  {
  }

  /** A coprocessor value is taken only while the bus asks for it. */
  lemma CpReadIsCarried(p: Phase, wide: word)
    requires p.Fetching?
    ensures Chosen(p.s, wide).ReadCp? <==> Bus(p).ReadRegister?
  {
    hide Compute, Decode;
  }

  lemma SettleFacts(s: State, eff: Effect, e: Env, cp: word)
    requires eff.ReadCp? ==> cp == e.cp
    ensures var t := Elapse(Apply(Sample(s, e.lines), eff, e.cp), 1);
            && t.asleep == (eff.Halt? || (s.asleep && !eff.Trap?)) && t.lines == e.lines
            && Apply(Sample(s, e.lines), eff, e.cp) == Apply(Sample(s, e.lines), eff, cp)
  {
    hide Unpack, LinesValue;
  }

  lemma StallFacts(s: State, eff: Effect, e: Env)
    ensures Elapse(Cycles.Early(Sample(s, e.lines), eff), 1) == Stall(Cycles.Early(s, eff), e)
    ensures var t := Stall(Cycles.Early(s, eff), e);
            t.asleep == s.asleep && t.lines == e.lines && t.pc == s.pc && t.flags == Cycles.Early(s, eff).flags
    ensures Stall(s, e).asleep == s.asleep && Stall(s, e).lines == e.lines && Stall(s, e).pc == s.pc
    ensures Sample(s, e.lines).asleep == s.asleep && Sample(s, e.lines).lines == e.lines
  {
    hide LinesValue;
  }
}
