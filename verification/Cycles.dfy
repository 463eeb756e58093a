/** The machine one clock cycle at a time: where in the two-phase pipeline it is, and
    what one cycle does. */
module Cycles {
  import opened Words
  import opened Isa

  /** What the outside supplies in one cycle: the interrupt lines it leaves, the value a
      coprocessor would answer, and the result of an over-wide shift. */
  datatype Env = Env(lines: Lines, cp: word, wide: word)

  /** A fetch is about to start, a fetched word is due, a data access is due, or the core sleeps. */
  datatype Phase =
    | Starting(s: State)
    | Fetching(s: State)
    | Accessing(s: State, eff: Effect)
    | Sleeping(s: State)

  function Stall(s: State, e: Env): State { Elapse(Sample(s, e.lines), 1) }

  /** The first cycle of a memory access changes no more than the status. */
  function Early(s: State, eff: Effect): State {
    s.(flags := if eff.ReadMem? && eff.link then s.flags.(ll := true) else s.flags, latched := Clean(s.flags))
  }

  function Settle(s: State, eff: Effect, e: Env): Phase {
    var t := Elapse(Apply(Sample(s, e.lines), eff, e.cp), 1);
    if eff.Halt? then Sleeping(t) else Starting(t)
  }

  function Cycle(p: Phase, e: Env): Phase {
    match p
    case Starting(s) => Fetching(Stall(s, e))
    case Fetching(s) =>
      var eff := Chosen(s, e.wide);
      if TouchesMemory(eff) then Accessing(Stall(Early(s, eff), e), eff) else Settle(s, eff, e)
    case Accessing(s, eff) => Settle(s, eff, e)
    case Sleeping(s) =>
      match Pending(s, 0)
      case None => Sleeping(Sample(s, e.lines))
      case Some(i) => Settle(s, Interrupt(s, i), e)
  }

  /** The coprocessor command that the bus carries during a cycle. */
  function Bus(p: Phase): Request {
    if p.Fetching? && Pending(p.s, 0).None? then Command(p.s, Current(p.s)) else NoCommand
  }

  /** The simulator reports a sleep it takes for one without end. */
  function Report(p: Phase, e: Env): int {
    if p.Fetching? && Chosen(p.s, e.wide).Halt? && !(p.s.flags.gie && p.s.vectors[IENABLE] != 0) then -1 else 0
  }

  function Run(p: Phase, es: seq<Env>): Phase
    decreases |es|
  {
    if es == [] then p else Run(Cycle(p, es[0]), es[1..])
  }

  lemma {:induction false} RunAppend(p: Phase, es: seq<Env>, fs: seq<Env>)
    ensures Run(p, es + fs) == Run(Run(p, es), fs)
    decreases |es|
  {
    if es == [] {
      assert es + fs == fs;
    } else {
      assert (es + fs)[1..] == es[1..] + fs;
      RunAppend(Cycle(p, es[0]), es[1..], fs);
    }
  }
}
