/** Concrete inputs on which the code falls short, one for each exact condition proved elsewhere. */
module Examples {
  import opened Words
  import opened Isa
  import opened Cycles
  import opened Pipeline
  import opened Protection
  import TrapStack
  import Transparency
  import SleepWake
  import Nvram
  import Assembler
  import Labels
  import LastWord
  import Reader
  import Tokens
  import TwoPasses
  import Undeclared

  const STILL := Inputs(Transparency.QUIET, Transparency.QUIET, 0, 0)

  // Instruction words.
  const SLEEP: word := 0x7000
  const INT: word := 0xE000
  const RFI: word := 0xE800
  const MTCTL_R0_Q10: word := 0xF80A

  lemma Decoded()
    ensures Decode(SLEEP) == Sleep && Decode(INT) == Int(0) && Decode(RFI) == Rfi
    ensures Decode(MTCTL_R0_Q10) == CtlPut(0, 10)
  {
  }

  const SUPERVISOR := Flags(false, false, false, false, false, 0)

  /** Both handlers start at address 1. */
  function Entry(i: int, ienable: word): word {
    if i == IENABLE then ienable else if i == SWIHDL || i == EXIHDL then 1 else 0
  }

  /** A supervisor at address 0 that does `first` there and `others` everywhere else. */
  function Machine(first: word, others: word, f: Flags, r0: word, epc: word, epcSaved: word, ienable: word): State {
    State(0, seq(8, i => 0), seq(8, i => if i == 0 then r0 else 0), epc, epcSaved, f,
          seq(17, i => Entry(i, ienable)), 0, (0, 0),
          seq(0x1_0000, i => if i == 0 then first else others), false, Clean(f), Transparency.QUIET)
  }

  /** Nothing is pending while the lines are silent. */
  lemma Idle(s: State, x: Inputs)
    requires x.before == Transparency.QUIET
    ensures Pending(Fetched(s, x), 0).None?
  {
    hide LinesValue;
  }

  /** An interrupt right after `mtctl r0, q10` that enters user mode saves supervisor mode. */
  lemma StaleInterruptHappens() returns (s: State, x: Inputs, y: Inputs)
    ensures Fresh(s) && Transparency.Interrupted(Step(s, x), y)
    ensures Step(s, x).flags.um && !Step(Step(s, x), y).flags.rumode
    ensures !Transparency.Inside(Step(Step(s, x), y), Step(s, x))
  {
    hide Machine, Act, Step, Transparency.Interrupted, Transparency.Inside, Unpack;
    s := Machine(MTCTL_R0_Q10, 0, SUPERVISOR, 0xC000, 0, 0, 1);
    x := STILL;
    y := STILL.(before := Transparency.QUIET[0 := true]);
    WrittenFlags();
    WritingStep(s, 0, 0xC000);
    LineZero(Step(s, x), y);
    Transparency.StaleInterrupt(s, x, 0xC000, y);
    Transparency.EnterSeen(Step(s, x), y);
    SeenMode(Step(Step(s, x), y), Step(s, x));
  }

  lemma SeenMode(u: State, t: State)
    requires Transparency.Inside(u, Transparency.Seen(t))
    ensures u.flags.rumode == t.latched.um && u.flags.umsave == t.latched.rumode && !u.flags.um
    ensures u.epc == t.pc && !u.asleep && u.mem == t.mem
  {
  }

  lemma WrittenFlags()
    ensures Unpack(0xC000) == Flags(true, true, false, false, false, 0)
    ensures Unpack(0x6000) == Flags(false, true, true, false, false, 0)
  {
  }

  lemma WritingStep(s: State, others: word, v: word)
    requires s == Machine(MTCTL_R0_Q10, others, SUPERVISOR, v, 0, 0, 1)
    ensures Act(s, STILL) == Some(WriteCtl(10, v)) && Fresh(s) && s.flags == SUPERVISOR
    ensures var t := Step(s, STILL);
            && t.flags == Unpack(v) && t.latched == Clean(s.flags) && !t.asleep && t.vectors == Vector(t, 1)
            && t.pc == 1 && t.mem == s.mem
  {
    hide LinesValue, Decode, Unpack;
    Decoded();
    Idle(s, STILL);
  }

  /** The vectors of Machine, whatever the lines have left in IPEND. */
  function Vector(t: State, ienable: word): Vectors {
    seq(17, i requires 0 <= i < 17 => if i == IPEND then t.vectors[IPEND] else Entry(i, ienable))
  }

  lemma LineZero(t: State, y: Inputs)
    requires !t.asleep && t.flags.gie && t.vectors[IENABLE] == 1 && y.before[0]
    ensures Transparency.Interrupted(t, y) && Step(t, y).pc == t.vectors[EXIHDL]
  {
    hide LinesValue;
    assert Wanted(Fetched(t, y), 0);
  }

  lemma ReturnStep(s: State)
    requires !s.asleep && !s.flags.um && s.mem[s.pc] == RFI
    ensures TrapStack.Returns(s, STILL) && Current(s) == Rfi
    ensures var t := Step(s, STILL);
            && t.pc == s.epc && !t.asleep && t.mem == s.mem
            && t.flags.um == s.flags.rumode && t.flags.rumode == s.flags.umsave
  {
    hide LinesValue, Decode;
    Decoded();
    Idle(s, STILL);
  }

  /** A supervisor writes 0x6000 to q10, to go to user mode with the `rfi` behind it, and is interrupted
      in between by a handler that only returns: the `rfi` then stays in supervisor mode. */
  lemma StaleReturnModeHappens() returns (s: State, x: Inputs, y: Inputs)
    ensures var t := Step(s, x);
            var w := Step(Step(t, y), STILL);
            && Fresh(s) && Act(s, x) == Some(WriteCtl(10, 0x6000)) && Transparency.Interrupted(t, y)
            && Current(Step(t, y)) == Rfi && Current(t) == Rfi && Current(w) == Rfi && w.pc == t.pc
            && !Transparency.BackIn(w, t)
            && Step(t, STILL).flags.um && !Step(w, STILL).flags.um
  {
    hide Machine, Act, Step, Transparency.Interrupted, Transparency.Inside, Transparency.BackIn, Unpack;
    hide Transparency.Seen, Current, TrapStack.Returns;
    s := Machine(MTCTL_R0_Q10, RFI, SUPERVISOR, 0x6000, 0, 0, 1);
    x := STILL;
    y := STILL.(before := Transparency.QUIET[0 := true]);
    WrittenFlags();
    WritingStep(s, RFI, 0x6000);
    var t := Step(s, x);
    ReturnAtOne(s);
    LineZero(t, y);
    Transparency.EnterSeen(t, y);
    var u := Step(t, y);
    SeenMode(u, t);
    ReturnStep(u);
    ReturnStep(t);
    ReturnStep(Step(u, STILL));
    Transparency.StaleInterruptReturns(s, x, 0x6000, y, [], STILL);
  }

  lemma ReturnAtOne(s: State)
    requires s == Machine(MTCTL_R0_Q10, RFI, SUPERVISOR, 0x6000, 0, 0, 1)
    ensures s.mem[1] == RFI
  {
  }

  /** `int` two levels deep and three `rfi`: the last one does not return to the first frame. */
  lemma ThirdTrapHappens() returns (s: State, stk: seq<TrapStack.Frame>, t3: State, t2: State, t1: State)
    ensures |stk| == 2 && TrapStack.Shadows(s, stk) && Fresh(s) && TrapStack.Traps(s, STILL)
    ensures TrapStack.ReturnsTo(Step(s, STILL), [], STILL, t3)
    ensures TrapStack.ReturnsTo(t3, [], STILL, t2) && TrapStack.ReturnsTo(t2, [], STILL, t1)
    ensures !TrapStack.Resumes(t1, stk[0])
  {
    hide LinesValue, Decode, Step, Act;
    s := Machine(INT, RFI, SUPERVISOR, 0, 1, 5, 0);
    stk := [TrapStack.Frame(5, false), TrapStack.Frame(1, false)];
    IntStep(s);
    var h := Step(s, STILL);
    ReturnStep(h);
    t3 := Step(h, STILL);
    TrapStack.ReturnAfter(h, [], STILL, t3);
    ReturnStep(t3);
    t2 := Step(t3, STILL);
    TrapStack.ReturnAfter(t3, [], STILL, t2);
    ReturnStep(t2);
    t1 := Step(t2, STILL);
    TrapStack.ThirdTrapLosesTheFirst(s, stk, STILL, t3, t2, t1, [], STILL, [], STILL, [], STILL);
  }

  lemma IntStep(s: State)
    requires s == Machine(INT, RFI, SUPERVISOR, 0, 1, 5, 0)
    ensures TrapStack.Traps(s, STILL)
    ensures var h := Step(s, STILL);
            h.pc == 1 && h.epc == 1 && h.epcSaved == 1 && !h.asleep && Fresh(h) && h.mem == s.mem
            && !h.flags.um && !h.flags.rumode && !h.flags.umsave
  {
    hide LinesValue, Decode;
    Decoded();
    Idle(s, STILL);
  }

  /** With only enable 8 set, `sleep` never ends and is not reported. */
  lemma UnreportedSleepHappens() returns (p: Phase, e: Env)
    ensures p.Fetching? && Report(p, e) == 0
    ensures forall es :: Run(Cycle(p, e), es).Sleeping?
  {
    hide LinesValue, Decode, Unpack;
    var s := Machine(SLEEP, SLEEP, SUPERVISOR.(gie := true), 0, 0, 0, 256);
    p := Fetching(s);
    e := Env(Transparency.QUIET, 0, 0);
    Decoded();
    assert Pending(s, 0).None?;
    assert Chosen(s, 0).Halt?;
    var t := Cycle(p, e).s;
    assert !SleepWake.Wakeable(t);
    forall es ensures Run(Cycle(p, e), es).Sleeping? { SleepWake.SleepsForever(t, es); }
  }

  /** In an array of 40000 words a read at address 0x10000 is accepted, and returns cell 0. */
  lemma WrongCellHappens(cells: seq<word>) returns (s: Nvram.Nv, u: Nvram.Nv)
    requires |cells| == 40000
    ensures Nvram.Accepts(s, Nvram.INSTR_READ) && Nvram.Address(s) == 0x1_0000 && s.cells == cells
    ensures u == Nvram.Run(Nvram.Told(s, Nvram.INSTR_READ), [Nvram.Tick, Nvram.Tick, Nvram.Tick])
    ensures u.regs[Nvram.REG_STATUS] == Nvram.STATUS_READ_OK && u.regs[Nvram.REG_VAL] == cells[0]
  {
    s := Nvram.Nv(seq(32, i => if i == Nvram.REG_ADDR_HI then 1 else 0), cells, None, false);
    var es := [Nvram.Tick, Nvram.Tick];
    assert es + [Nvram.Tick] == [Nvram.Tick, Nvram.Tick, Nvram.Tick];
    assert Nvram.TicksIn(es) == 2 by {
      assert es[1..] == [Nvram.Tick] && es[1..][1..] == [];
    }
    u := Nvram.Run(Nvram.Told(s, Nvram.INSTR_READ), es + [Nvram.Tick]);
    Nvram.AcceptedTakesEffect(s, Nvram.INSTR_READ, es);
  }

  /** A line that names a label no line declares is accepted, and loads 255. */
  lemma UndeclaredLabelHappens(buf: Assembler.Image) returns (lines: seq<string>)
    ensures lines == ["li r0, @nowhere"] && Labels.Declarations(Tokens.Statements(lines), 0) == []
    ensures TwoPasses.Assembled(Tokens.Statements(lines), buf) == Some(Undeclared.OneWord(buf, 0x20FF))
    ensures Decode(0x20FF) == LoadImm(0, 255)
  {
    hide Tokens.Statements, TwoPasses.Assembled;
    lines := [Undeclared.LINE];
    Undeclared.LineTokens();
    Undeclared.UnknownLabelAssembles(lines, buf);
  }

  /** A comment of 300 characters takes the `rfi` behind it out of the program. */
  lemma LongLineHappens(buf: Assembler.Image) returns (l: string)
    ensures Reader.IsLine(l) && |l| == 301 && Reader.IsLine("rfi\n")
    ensures TwoPasses.Assembled(Tokens.Statements(Reader.Lines(l + "rfi\n")), buf) == Some(Assembler.Emit(0, 0, buf))
  {
    hide Reader.Lines;
    l := seq(300, i => ';') + "\n";
    Reader.LongLineEndsAll(l, "rfi\n");
    var cut := l[..Reader.ROOM];
    CommentOnly(cut);
    assert [cut][1..] == [];
    assert Tokens.Statements([cut]) == [];
  }

  lemma CommentOnly(s: string)
    requires s != "" && s[0] == ';'
    ensures Tokens.Split(s) == Tokens.Statement(None, None, [])
  {
    assert Tokens.First(s, ';') == 0;
    assert s[..0] == "";
    Tokens.NoSymbol("");
  }

  const BA_BACK: word := 0x7FFF

  lemma BackDecodes()
    ensures Decode(BA_BACK) == Branch(-1, false)
  {
  }

  /** `ba #-1` at address 0 goes to 0xFFFF, and what the machine does then depends on the word there. */
  lemma OutsideHappens() returns (s: State, t: State)
    ensures LastWord.SameBelow(s, t) && Step(s, STILL).pc == 0xFFFF && LastWord.GoesThere(Step(s, STILL), STILL)
    ensures !LastWord.SameBelow(Steps(s, [STILL, STILL]), Steps(t, [STILL, STILL]))
  {
    hide Machine, Step, Decode;
    s := Machine(BA_BACK, RFI, SUPERVISOR, 0, 0, 0, 0);
    t := s.(mem := s.mem[0xFFFF := SLEEP]);
    Decoded();
    BackDecodes();
    Words0(BA_BACK, RFI, SUPERVISOR, 0, 0, 0, 0);
    BackStep(s);
    BackStep(t);
    ReturnStep(Step(s, STILL));
    SleepStep(Step(t, STILL));
    TwoSteps(s, STILL);
    TwoSteps(t, STILL);
  }

  lemma Words0(first: word, others: word, f: Flags, r0: word, epc: word, epcSaved: word, ienable: word)
    ensures var s := Machine(first, others, f, r0, epc, epcSaved, ienable);
            s.mem[0] == first && s.mem[0xFFFF] == others && s.pc == 0 && !s.asleep && s.flags == f
  {
  }

  lemma BackStep(s: State)
    requires !s.asleep && s.pc == 0 && s.mem[0] == BA_BACK
    ensures var t := Step(s, STILL); t.pc == 0xFFFF && !t.asleep && t.mem == s.mem && t.flags == s.flags
  {
    hide LinesValue, Decode;
    BackDecodes();
    Idle(s, STILL);
  }

  lemma SleepStep(s: State)
    requires !s.asleep && !s.flags.um && s.mem[s.pc] == SLEEP
    ensures Step(s, STILL).asleep
  {
    hide LinesValue, Decode;
    Decoded();
    Idle(s, STILL);
  }

  lemma TwoSteps(s: State, x: Inputs)
    ensures Steps(s, [x, x]) == Step(Step(s, x), x)
  {
    hide Step;
    StepsSnoc(s, [x], x);
    StepsSnoc(s, [], x);
    assert [] + [x] == [x] && [x] + [x] == [x, x];
  }
}
