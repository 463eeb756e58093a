/** An interrupted user program computes what it would have computed undisturbed. */
module Transparency {
  import opened Words
  import opened Isa
  import opened Pipeline
  import opened Protection

  predicate Interrupted(s: State, x: Inputs) { !s.asleep && Pending(Fetched(s, x), 0).Some? }

  /** What a handler may run: no store, no trap of its own, no sleep or return, and no write to
      the user registers, the trap registers or the status. */
  predicate HandlerInstr(i: Instr) {
    !i.Store? && !i.Int? && !i.Sleep? && !i.Rfi? && !(i.CtlPut? && i.q <= 10)
  }

  ghost predicate HandlerRun(s: State, xs: seq<Inputs>)
    decreases |xs|
  {
    xs == [] || (HandlerInstr(Current(s)) && HandlerRun(Step(s, xs[0]), xs[1..]))
  }

  /** In the handler of an interrupt that was taken in state s. */
  ghost predicate Inside(t: State, s: State) {
    && !t.asleep && Fresh(t) && t.usr == s.usr && t.mem == s.mem
    && t.epc == s.pc && t.epcSaved == s.epc
    && !t.flags.um && !t.flags.gie && t.flags.rumode == s.flags.um && t.flags.umsave == s.flags.rumode
    && t.flags.arg == s.flags.arg
  }

  lemma Enter(s: State, x: Inputs)
    requires Fresh(s) && Interrupted(s, x)
    ensures Inside(Step(s, x), s)
  {
    hide LinesValue, Unpack, Pack, Wanted;
  }

  /** With interrupts masked the instruction at pc is what runs. */
  lemma Masked(s: State, x: Inputs)
    requires !s.flags.gie && !s.asleep
    ensures Deed(s, x) == Meaning(Fetched(s, x), Current(s), x.wide)
  {
    hide Meaning, LinesValue;
  }

  lemma HandlerStep(t: State, s: State, x: Inputs)
    requires Inside(t, s) && HandlerInstr(Current(t))
    ensures Inside(Step(t, x), s)
  {
    hide LinesValue, Unpack, Pack, Apply, Chosen, Current;
    Masked(t, x);
    HandlerApply(Sample(Fetched(t, x), x.after), Deed(t, x), x.cp);
    HandlerEffect(Fetched(t, x), Current(t), x.wide);
  }

  predicate Confined(eff: Effect) {
    !eff.WriteMem? && !eff.Trap? && !eff.Return? && !eff.Halt? && !(eff.WriteCtl? && eff.q <= 10)
  }

  lemma HandlerEffect(t: State, i: Instr, wide: word)
    requires !t.flags.um && HandlerInstr(i)
    ensures Confined(Meaning(t, i, wide))
  {
    hide Compute, OnLowByte, OnHighByte, ReadCtl, Reg;
  }

  lemma HandlerApply(t: State, eff: Effect, cp: word)
    ensures !t.flags.um && Confined(eff) ==>
              var u := Apply(t, eff, cp);
              && u.usr == t.usr && u.mem == t.mem && u.epc == t.epc && u.epcSaved == t.epcSaved
              && Clean(u.flags) == Clean(t.flags) && u.latched == Clean(t.flags) && u.asleep == t.asleep
  {
  }

  lemma {:induction false} HandlerKeeps(t: State, s: State, xs: seq<Inputs>)
    requires Inside(t, s) && HandlerRun(t, xs)
    ensures Inside(Steps(t, xs), s)
    decreases |xs|
  {
    hide Step, Inside, HandlerInstr, Current;
    if xs != [] {
      HandlerStep(t, s, xs[0]);
      HandlerKeeps(Step(t, xs[0]), s, xs[1..]);
    }
  }

  lemma Leave(t: State, s: State, x: Inputs)
    requires Inside(t, s) && Current(t) == Rfi
    ensures Deed(t, x).Return? && BackIn(Step(t, x), s)
  {
    hide LinesValue, Unpack, Pack, Decode, Pending;
    Masked(t, x);
  }

  /** The interrupted state again, but for the link flag, the saved frame under the restored one,
      supervisor registers, vectors and clock. */
  ghost predicate BackIn(t: State, s: State) {
    && t.pc == s.pc && t.usr == s.usr && t.mem == s.mem && t.epc == s.epc && Fresh(t) && !t.asleep
    && Clean(t.flags) == Clean(s.flags).(gie := true, umsave := s.flags.rumode)
  }

  /** An interrupt, any run of a confined handler, and its `rfi`. */
  lemma InterruptTransparent(s: State, x: Inputs, xs: seq<Inputs>, y: Inputs)
    requires Fresh(s) && Interrupted(s, x)
    requires HandlerRun(Step(s, x), xs) && Current(Steps(Step(s, x), xs)) == Rfi
    ensures BackIn(Step(Steps(Step(s, x), xs), y), s)
  {
    hide Step, Inside, BackIn, HandlerInstr, Current;
    Enter(s, x);
    HandlerKeeps(Step(s, x), s, xs);
    Leave(Steps(Step(s, x), xs), s, y);
  }

  // ----- a stale latch -----

  /** What an interrupt saves of the flags f, when it is g that they are. */
  predicate SavedRight(g: Flags, f: Flags) { g.um == f.um && g.rumode == f.rumode && g.arg == f.arg }

  /** The state an interrupt takes itself to have been taken in. */
  function Seen(s: State): State { s.(flags := s.latched) }

  lemma EnterSeen(s: State, x: Inputs)
    requires Interrupted(s, x)
    ensures Inside(Step(s, x), Seen(s))
    ensures Inside(Step(s, x), s) <==> SavedRight(s.flags, s.latched)
  {
    hide LinesValue, Unpack, Pack, Wanted;
  }

  lemma BackInSeen(t: State, s: State)
    requires BackIn(t, Seen(s))
    ensures BackIn(t, s) <==> SavedRight(s.flags, s.latched)
  {
  }

  /** From any state, and after any confined handler, an interrupt is transparent exactly when the
      latched status was right about mode, return mode and argument. */
  lemma InterruptTransparentIff(s: State, x: Inputs, xs: seq<Inputs>, y: Inputs)
    requires Interrupted(s, x)
    requires HandlerRun(Step(s, x), xs) && Current(Steps(Step(s, x), xs)) == Rfi
    ensures BackIn(Step(Steps(Step(s, x), xs), y), Seen(s))
    ensures BackIn(Step(Steps(Step(s, x), xs), y), s) <==> SavedRight(s.flags, s.latched)
  {
    hide Step, Inside, BackIn, HandlerInstr, Current, SavedRight, Seen;
    EnterSeen(s, x);
    HandlerKeeps(Step(s, x), Seen(s), xs);
    Leave(Steps(Step(s, x), xs), Seen(s), y);
    BackInSeen(Step(Steps(Step(s, x), xs), y), s);
  }

  /** The value v written to q10 leaves what an interrupt saves as it was. */
  predicate WriteKeeps(f: Flags, v: word) {
    !Unpack(v).um && Unpack(v).rumode == f.rumode && Unpack(v).arg == f.arg
  }

  /** Directly after `mtctl rX, q10` the interrupt saves the status from before the write: it is the
      right one exactly when the write kept supervisor mode, return mode and argument. */
  lemma StaleInterrupt(s: State, x: Inputs, v: word, y: Inputs)
    requires Act(s, x) == Some(WriteCtl(10, v)) && Interrupted(Step(s, x), y)
    ensures Inside(Step(Step(s, x), y), Step(s, x)) <==> WriteKeeps(s.flags, v)
  {
    hide Step, Act, Inside, Interrupted;
    StaleLatch(s, x, v);
    EnterSeen(Step(s, x), y);
  }

  lemma StaleLatch(s: State, x: Inputs, v: word)
    requires Act(s, x) == Some(WriteCtl(10, v))
    ensures Step(s, x).flags == Unpack(v) && Step(s, x).latched == Clean(s.flags) && !s.flags.um
  {
    hide LinesValue, Unpack, Pack, Compute, Decode, Wanted;
    WriterIsSupervisor(s, x);
  }

  /** And so through any confined handler and its `rfi`: the program is back just then. */
  lemma StaleInterruptReturns(s: State, x: Inputs, v: word, y: Inputs, xs: seq<Inputs>, z: Inputs)
    requires Act(s, x) == Some(WriteCtl(10, v)) && Interrupted(Step(s, x), y)
    requires var u := Step(Step(s, x), y); HandlerRun(u, xs) && Current(Steps(u, xs)) == Rfi
    ensures BackIn(Step(Steps(Step(Step(s, x), y), xs), z), Step(s, x)) <==> WriteKeeps(s.flags, v)
  {
    hide Step, Act, BackIn, Interrupted, HandlerInstr, Current;
    StaleLatch(s, x, v);
    InterruptTransparentIff(Step(s, x), y, xs, z);
  }

  lemma WriterIsSupervisor(s: State, x: Inputs)
    requires Act(s, x).Some? && Act(s, x).value.WriteCtl?
    ensures !s.flags.um && !s.asleep
  {
    hide LinesValue, Compute, Decode, Wanted, OnLowByte, OnHighByte, Unpack, Pack;
  }

  // ----- whole programs under any interrupt schedule -----

  /** One instruction of the program, or an interrupt with its handler and return. */
  datatype Happening = Own(x: Inputs) | Episode(x: Inputs, handler: seq<Inputs>, y: Inputs)

  /** User code whose results cannot depend on being interrupted: it stays in user mode and does
      not test the link flag. */
  predicate PlainInstr(i: Instr) {
    !Privileged(i) && !i.Int? && !(i.Store? && i.conditional)
  }

  function After(s: State, h: Happening): State {
    match h
    case Own(x) => Step(s, x)
    case Episode(x, handler, y) => Step(Steps(Step(s, x), handler), y)
  }

  ghost predicate Allowed(s: State, h: Happening) {
    match h
    case Own(x) => !Interrupted(s, x) && PlainInstr(Current(s))
    case Episode(x, handler, y) =>
      Interrupted(s, x) && HandlerRun(Step(s, x), handler) && Current(Steps(Step(s, x), handler)) == Rfi
  }

  function Live(s: State, hs: seq<Happening>): State
    decreases |hs|
  {
    if hs == [] then s else Live(After(s, hs[0]), hs[1..])
  }

  ghost predicate Schedule(s: State, hs: seq<Happening>)
    decreases |hs|
  {
    hs == [] || (Allowed(s, hs[0]) && Schedule(After(s, hs[0]), hs[1..]))
  }

  const QUIET: Lines := [false, false, false, false, false, false, false, false]

  /** The program's own steps, with the interrupt lines silent throughout. */
  function Undisturbed(hs: seq<Happening>): seq<Inputs> {
    if hs == [] then []
    else if hs[0].Own? then [hs[0].x.(before := QUIET, after := QUIET)] + Undisturbed(hs[1..])
    else Undisturbed(hs[1..])
  }

  /** All a user program can see of the machine, but for the link flag. */
  ghost predicate SameProgram(s: State, t: State) {
    && s.pc == t.pc && s.usr == t.usr && s.mem == t.mem && s.flags.um && t.flags.um && !s.asleep && !t.asleep
    && Fresh(s)
  }

  lemma Silent(t: State, x: Inputs)
    requires !t.asleep && x.before == QUIET
    ensures !Interrupted(t, x)
  {
    hide LinesValue;
  }

  lemma SameStep(s: State, t: State, x: Inputs)
    requires SameProgram(s, t) && !Interrupted(s, x) && PlainInstr(Current(s))
    ensures SameProgram(Step(s, x), Step(t, x.(before := QUIET, after := QUIET)))
  {
    hide LinesValue, Unpack, Pack, Apply, Meaning, Pending, Current, PlainInstr;
    var q := x.(before := QUIET, after := QUIET);
    Silent(t, q);
    var d, e := Fetched(s, x), Fetched(t, q);
    assert Current(d) == Current(s) && Current(e) == Current(s) by { CurrentOf(d, s); CurrentOf(e, s); }
    SameMeaning(d, e, Current(s), x.wide);
    SameApply(Sample(d, x.after), Sample(e, q.after), Deed(s, x), x.cp);
  }

  lemma CurrentOf(d: State, s: State)
    requires d.pc == s.pc && d.mem == s.mem
    ensures Current(d) == Current(s)
  {
    hide Decode;
  }

  predicate Ordinary(eff: Effect) { !eff.Trap? && !eff.Return? && !eff.Halt? && !eff.WriteCtl? }

  lemma SameMeaning(d: State, e: State, i: Instr, wide: word)
    requires d.pc == e.pc && d.usr == e.usr && d.flags.um && e.flags.um && PlainInstr(i)
    ensures Meaning(d, i, wide) == Meaning(e, i, wide) && Ordinary(Meaning(d, i, wide))
  {
    hide Compute, OnLowByte, OnHighByte, ReadCtl;
  }

  lemma SameApply(d: State, e: State, eff: Effect, cp: word)
    requires d.pc == e.pc && d.usr == e.usr && d.mem == e.mem && d.flags.um && e.flags.um && !d.asleep && !e.asleep
    requires Ordinary(eff)
    ensures var s, t := Apply(d, eff, cp), Apply(e, eff, cp);
            && s.pc == t.pc && s.usr == t.usr && s.mem == t.mem && s.flags.um && t.flags.um && !s.asleep && !t.asleep
            && s.latched == Clean(s.flags)
  {
  }

  /** A user program reaches the same pc, registers and memory under every interrupt schedule. */
  lemma {:induction false} ScheduleIndependent(s: State, t: State, hs: seq<Happening>)
    requires SameProgram(s, t) && Schedule(s, hs)
    ensures SameProgram(Live(s, hs), Steps(t, Undisturbed(hs)))
    decreases |hs|
  {
    hide Step, SameProgram, PlainInstr, Current, Interrupted;
    if hs != [] {
      match hs[0] {
        case Own(x) =>
          var q := x.(before := QUIET, after := QUIET);
          SameStep(s, t, x);
          assert Undisturbed(hs)[1..] == Undisturbed(hs[1..]);
          ScheduleIndependent(Step(s, x), Step(t, q), hs[1..]);
        case Episode(x, handler, y) =>
          EpisodeKeeps(s, t, hs[0]);
          ScheduleIndependent(After(s, hs[0]), t, hs[1..]);
      }
    }
  }

  lemma EpisodeKeeps(s: State, t: State, h: Happening)
    requires SameProgram(s, t) && h.Episode? && Allowed(s, h)
    ensures SameProgram(After(s, h), t)
  {
    hide Step, Current, Interrupted;
    InterruptTransparent(s, h.x, h.handler, h.y);
  }
}
