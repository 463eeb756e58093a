/** The simulator, from power-on, against the instruction set. */
module Program {
  import opened Words
  import opened Isa
  import opened Cycles
  import opened Pipeline
  import opened Simulator
  import opened Manual

  /** Reset over a memory, `goto` and `step`: the simulator has run a program of the instruction set from
      there, and is in the middle of its next step at most. It has spent two cycles on each instruction or
      interrupt, one more on each access to data memory, and one on each wake-up. */
  method ResetGotoStep(memory: array<word>, startaddr: word, numsteps: nat, es: seq<Env>)
    returns (sim: Sim, taken: nat, status: int)
    requires memory.Length == 0x1_0000 && |es| == numsteps
    modifies memory
    ensures fresh(sim) && sim.Valid() && taken <= numsteps && (status == 0 ==> taken == numsteps)
    ensures var r := Abstract(PowerOn(startaddr, old(memory[..])), es[..taken]);
            && sim.Phase() == Run(At(Steps(PowerOn(startaddr, old(memory[..])), r.xs)), r.rest)
            && SameButClock(sim.Phase().s, Steps(PowerOn(startaddr, old(memory[..])), r.xs))
            && taken == 2 * r.tally.awake + r.tally.memory + r.tally.woken + r.tally.slept + |r.rest|
  {
    hide Abstract, Steps, Run, SameButClock, Report, Sim.Valid, Sim.Phase;
    ghost var s := PowerOn(startaddr, memory[..]);
    sim := new Sim(memory, startaddr);
    AwakeAtFirst(startaddr, memory[..]);
    hide PowerOn;
    taken, status := sim.Steps(numsteps, es);
    CyclesRefineIsa(s, es[..taken]);
    StallsKeep(Abstract(s, es[..taken]).s, Abstract(s, es[..taken]).rest);
  }

  lemma AwakeAtFirst(startaddr: word, m: Mem)
    ensures At(PowerOn(startaddr, m)) == Starting(PowerOn(startaddr, m))
  {
  }

  /** From power-on every register is zero, and the first step is the word at the start address, whatever
      the lines. */
  lemma FirstStep(startaddr: word, m: Mem, x: Inputs)
    ensures var s := PowerOn(startaddr, m);
            && (forall q: ctlreg :: ReadCtl(s, q) == 0) && (forall n: reg :: R(s, n) == 0)
            && s.pc == startaddr && s.mem == m && Executes(s, x, m[startaddr])
  {
    hide Pow2;
    var s := PowerOn(startaddr, m);
    StatusDigits(s.flags);
    HighPowers();
    assert Pack(s.flags) == 0;
    forall i | 0 <= i < 8 && x.before[i] ensures Bit(ReadCtl(s, 10), 14) == 0 {}
  }
}
