/** The instruction set by number, concluded: words about control registers, traps, and the way from a
    handler's address in a control register to the trap that goes there. */
module Handlers {
  import opened Words
  import opened Isa
  import opened Pipeline
  import opened Protection
  import opened Manual
  import opened Cycles
  import opened Accesses
  import SleepWake

  // ----- opcodes 0x0E and 0x1C to 0x1F -----

  /** The supervisor's words. */
  predicate Reserved(w: word) { w / 2048 in {0x0E, 0x1D, 0x1E, 0x1F} }

  /** A trap to `to` that returns to `back`: q8 holds that, q9 what q8 held, and q10 is in supervisor
      mode with interrupts off, the old digit 15 in place 13, the old 13 in place 11 and arg below. */
  ghost predicate Enters(t: State, s: State, to: word, back: word, arg: nat) {
    && t.pc == to && ReadCtl(t, 8) == back && ReadCtl(t, 9) == ReadCtl(s, 8)
    && ReadCtl(t, 10) == (if UserMode(s) then 0x2000 else 0) + 0x800 * Bit(ReadCtl(s, 10), 13) + arg
    && SameElsewhere(t, s)
  }

  /** Memory, both register banks and the control registers from 11 on, IPEND and the counter aside. */
  ghost predicate SameElsewhere(t: State, s: State) {
    && t.usr == s.usr && t.sup == s.sup && t.mem == s.mem && !t.asleep
    && (forall q: ctlreg :: Steady(q) && q >= 11 ==> ReadCtl(t, q) == ReadCtl(s, q))
  }

  lemma TrappedDigits(f: Flags)
    ensures Pack(Trapped(f)) == (if f.um then 0x2000 else 0) + 0x800 * Bit(Pack(f), 13) + Pack(f) % 0x800
  {
    hide Pow2;
    StatusDigits(f);
  }

  lemma ReturnedDigits(f: Flags)
    ensures var st := Pack(f);
            Pack(Returned(f)) == 0x8000 * Bit(st, 13) + 0x4000 + 0x2800 * Bit(st, 11) + st % 0x800
  {
    hide Pow2;
    StatusDigits(f);
  }

  lemma TrapStep(s: State, x: Inputs, w: word, to: word, back: word, f: Flags)
    requires Executes(s, x, w) && Meant(s, x) == Trap(to, back, f)
    ensures var t := Step(s, x);
            && t.pc == to && ReadCtl(t, 8) == back && ReadCtl(t, 9) == ReadCtl(s, 8) && ReadCtl(t, 10) == Pack(f)
            && SameElsewhere(t, s)
  {
    hide LinesValue, Pack, Meant, Calm, Pending, Deed;
    StepIs(s, x, w);
  }

  lemma MeantInt(s: State, x: Inputs, w: word)
    requires s.mem[s.pc] == w && w / 2048 == 0x1C
    ensures Meant(s, x) == Trap(ReadCtl(s, 13), Wrap(s.pc + 1), Trapped(s.flags.(arg := w % 2048)))
  {
    hide LinesValue, Pack, Trapped;
    FetchedSame(s, x, 0);
  }

  lemma ArgDigits(f: Flags, a: swiarg)
    ensures Pack(Trapped(f.(arg := a))) == (if f.um then 0x2000 else 0) + 0x800 * Bit(Pack(f), 13) + a
  {
    hide Pow2, Trapped, Bit;
    TrappedDigits(f.(arg := a));
    ArgAlone(f, a);
    StatusDigits(f);
    StatusDigits(f.(arg := a));
  }

  lemma ArgAlone(f: Flags, a: swiarg)
    ensures Pack(f.(arg := a)) - a == Pack(f) - f.arg
  {
  }

  /** int: to the address in q13, back behind the instruction, the low digits of the word in q10. */
  lemma SoftwareTraps(s: State, x: Inputs, w: word)
    requires Executes(s, x, w) && w / 2048 == 0x1C
    ensures Enters(Step(s, x), s, ReadCtl(s, 13), (s.pc + 1) % 0x1_0000, w % 2048)
  {
    hide Step, Meant, Executes, Pack, Bit, Trapped, SameElsewhere;
    AtPc(s, x, w);
    MeantInt(s, x, w);
    RIsReg(s, 0);
    ArgDigits(s.flags, w % 2048);
    TrapStep(s, x, w, ReadCtl(s, 13), Wrap(s.pc + 1), Trapped(s.flags.(arg := w % 2048)));
  }

  lemma MeantReserved(s: State, x: Inputs, w: word)
    requires s.mem[s.pc] == w && Reserved(w) && UserMode(s)
    ensures Meant(s, x) == Trap(ReadCtl(s, 15), s.pc, Trapped(s.flags))
  {
    hide LinesValue, Trapped, Pack;
    RIsReg(s, 0);
    FetchedSame(s, x, 0);
  }

  /** In user mode sleep, rfi, mfctl and mtctl all go to the address in q15, to come back to themselves. */
  lemma ReservedTraps(s: State, x: Inputs, w: word)
    requires Executes(s, x, w) && Reserved(w) && UserMode(s)
    ensures Enters(Step(s, x), s, ReadCtl(s, 15), s.pc, ReadCtl(s, 10) % 0x800)
  {
    hide Step, Meant, Executes, Pack, Bit, Trapped, SameElsewhere;
    AtPc(s, x, w);
    MeantReserved(s, x, w);
    RIsReg(s, 0);
    TrappedDigits(s.flags);
    TrapStep(s, x, w, ReadCtl(s, 15), s.pc, Trapped(s.flags));
  }

  lemma MeantRfi(s: State, x: Inputs, w: word)
    requires s.mem[s.pc] == w && w / 2048 == 0x1D && !UserMode(s)
    ensures Meant(s, x) == Return(ReadCtl(s, 8), Returned(s.flags))
  {
    hide LinesValue, Returned, Pack;
    RIsReg(s, 0);
    FetchedSame(s, x, 0);
  }

  lemma ReturnStep(s: State, x: Inputs, w: word, to: word, f: Flags)
    requires Executes(s, x, w) && Meant(s, x) == Return(to, f)
    ensures var t := Step(s, x);
            && t.pc == to && ReadCtl(t, 8) == ReadCtl(t, 9) == ReadCtl(s, 9) && ReadCtl(t, 10) == Pack(f)
            && SameElsewhere(t, s)
  {
    hide LinesValue, Pack, Meant, Calm, Pending, Deed;
    StepIs(s, x, w);
  }

  /** rfi in supervisor mode: to q8, which becomes q9; digit 13 of q10 goes to 15, 11 to 13, 14 is set. */
  lemma ReturnWord(s: State, x: Inputs, w: word)
    requires Executes(s, x, w) && w / 2048 == 0x1D && !UserMode(s)
    ensures var t, st := Step(s, x), ReadCtl(s, 10);
            && t.pc == ReadCtl(s, 8) && ReadCtl(t, 8) == ReadCtl(t, 9) == ReadCtl(s, 9) && SameElsewhere(t, s)
            && ReadCtl(t, 10) == 0x8000 * Bit(st, 13) + 0x4000 + 0x2800 * Bit(st, 11) + st % 0x800
  {
    hide Step, Meant, Executes, Pack, Bit, Returned, SameElsewhere;
    AtPc(s, x, w);
    MeantRfi(s, x, w);
    ReturnedDigits(s.flags);
    ReturnStep(s, x, w, ReadCtl(s, 8), Returned(s.flags));
  }

  lemma MeantSleep(s: State, x: Inputs, w: word)
    requires s.mem[s.pc] == w && w / 2048 == 0x0E && !UserMode(s)
    ensures Meant(s, x) == Halt
  {
    hide LinesValue, Pack;
    RIsReg(s, 0);
  }

  /** sleep in supervisor mode. */
  lemma SleepWord(s: State, x: Inputs, w: word)
    requires Executes(s, x, w) && w / 2048 == 0x0E && !UserMode(s)
    ensures var t := Step(s, x);
            && t.asleep && t.pc == (s.pc + 1) % 0x1_0000 && t.mem == s.mem && t.usr == s.usr && t.sup == s.sup
            && forall q: ctlreg :: Steady(q) ==> ReadCtl(t, q) == ReadCtl(s, q)
  {
    hide LinesValue, Pack, Meant, Calm, Pending, Deed, Decode;
    MeantSleep(s, x, w);
    StepIs(s, x, w);
    CtlSame(s, Step(s, x));
  }

  // ----- moving control registers -----

  /** Registers 28 and 29 as one number. */
  function Clock(s: State): int { ReadCtl(s, 28) + 0x1_0000 * ReadCtl(s, 29) }

  lemma ClockIsCounter(s: State)
    ensures Clock(s) == s.counter
  {
  }

  /** What mfctl reads: the counter has counted the fetch, and the low byte of q25 shows the lines. */
  ghost predicate Shows(s: State, l: Lines, q: ctlreg, v: word) {
    && (q != 25 && q != 28 && q != 29 ==> v == ReadCtl(s, q))
    && (q == 28 ==> v == (Clock(s) + 1) % 0x1_0000_0000 % 0x1_0000)
    && (q == 29 ==> v == (Clock(s) + 1) % 0x1_0000_0000 / 0x1_0000)
    && (q == 25 ==> v / 256 == ReadCtl(s, 25) / 256 % 64 && ShowLines(v, l))
  }

  ghost predicate ShowLines(v: word, l: Lines) { forall i :: 0 <= i < 8 ==> (Bit(v, i) == 1 <==> l[i]) }

  /** Lines from i on, as the digits below h. */
  function Upper(h: nat, l: Lines, i: nat): nat
    requires i <= 8
    decreases 8 - i
  {
    if i == 8 then h else 2 * Upper(h, l, i + 1) + Weigh(l[i], 1)
  }

  lemma WeighDouble(b: bool, w: nat)
    ensures Weigh(b, 2 * w) == 2 * Weigh(b, w)
  {
  }

  lemma UpperStep(h: nat, l: Lines, i: nat)
    requires i < 8
    ensures Upper(h, l, i) == 2 * Upper(h, l, i + 1) + Weigh(l[i], 1)
    ensures Upper(h, l, i) / 2 == Upper(h, l, i + 1) && Upper(h, l, i) % 2 == Weigh(l[i], 1)
  {
  }

  lemma UpperFour(h: nat, l: Lines, i: nat)
    requires i <= 4
    ensures Upper(h, l, i) ==
            16 * Upper(h, l, i + 4) + Weigh(l[i + 3], 8) + Weigh(l[i + 2], 4) + Weigh(l[i + 1], 2) + Weigh(l[i], 1)
  {
    hide Upper, Weigh;
    UpperStep(h, l, i);
    UpperStep(h, l, i + 1);
    UpperStep(h, l, i + 2);
    UpperStep(h, l, i + 3);
    WeighDouble(l[i + 1], 1);
    WeighDouble(l[i + 2], 1);
    WeighDouble(l[i + 2], 2);
    WeighDouble(l[i + 3], 1);
    WeighDouble(l[i + 3], 2);
    WeighDouble(l[i + 3], 4);
  }

  lemma WeighSixteen(b: bool, w: nat)
    ensures Weigh(b, 16 * w) == 16 * Weigh(b, w)
  {
  }

  lemma UpperTop(h: nat, l: Lines)
    ensures Upper(h, l, 8) == h
  {
  }

  lemma UpperAll(h: nat, l: Lines)
    ensures Upper(h, l, 0) == h * 256 + LinesValue(l)
  {
    hide Weigh, Upper;
    UpperTop(h, l);
    UpperFour(h, l, 4);
    WeighSixteen(l[4], 1);
    WeighSixteen(l[5], 2);
    WeighSixteen(l[6], 4);
    WeighSixteen(l[7], 8);
    var u := Upper(h, l, 4);
    assert 16 * u == h * 256 + Weigh(l[7], 128) + Weigh(l[6], 64) + Weigh(l[5], 32) + Weigh(l[4], 16);
    UpperFour(h, l, 0);
  }

  lemma {:induction false} UpperIs(h: nat, l: Lines, i: nat)
    requires i <= 8
    ensures Upper(h, l, 0) / Pow2(i) == Upper(h, l, i)
  {
    hide Upper, Shr, Words.Low, Shl;
    if i > 0 {
      var v := Upper(h, l, 0);
      UpperIs(h, l, i - 1);
      UpperStep(h, l, i - 1);
      hide Pow2;
      ShrIsDiv(v, i - 1);
      ShrIsDiv(v, i);
      ShrHalf(v, i - 1);
    }
  }

  lemma LineDigit(h: nat, l: Lines, i: nat)
    requires i < 8
    ensures Bit(h * 256 + LinesValue(l), i) == 1 <==> l[i]
  {
    hide Pow2, LinesValue, Upper;
    UpperAll(h, l);
    UpperIs(h, l, i);
    UpperStep(h, l, i);
  }

  lemma PendingShows(s: State, l: Lines)
    ensures var v := ReadCtl(Sample(s, l), 25); v / 256 == ReadCtl(s, 25) / 256 % 64 && ShowLines(v, l)
  {
    hide LinesValue, Bit, Pack;
    var h := s.vectors[IPEND] / 256 % 64;
    DivModUnique(h * 256 + LinesValue(l), 256, h, LinesValue(l));
    forall i | 0 <= i < 8 ensures Bit(h * 256 + LinesValue(l), i) == 1 <==> l[i] { LineDigit(h, l, i); }
  }

  lemma ShownFetched(s: State, x: Inputs, q: ctlreg)
    ensures Shows(s, x.before, q, ReadCtl(Fetched(s, x), q))
  {
    hide LinesValue, Pack, ShowLines;
    PendingShows(s, x.before);
    ClockIsCounter(s);
  }

  lemma MeantCtl(s: State, x: Inputs, w: word)
    requires s.mem[s.pc] == w && w / 2048 in {0x1E, 0x1F} && !UserMode(s)
    ensures Meant(s, x) ==
            if w / 2048 == 0x1E then WriteReg(w / 256 % 8, ReadCtl(Fetched(s, x), w % 32), Wrap(s.pc + 1))
            else WriteCtl(w % 32, R(s, w / 256 % 8))
  {
    hide LinesValue, Pack, ReadCtl, R, Reg;
    RIsReg(s, 0);
    FetchedSame(s, x, w / 256 % 8);
  }

  /** mfctl: rD becomes the control register that the low five digits name. */
  lemma ControlRead(s: State, x: Inputs, w: word)
    requires Executes(s, x, w) && w / 2048 == 0x1E && !UserMode(s)
    ensures var t, d := Step(s, x), w / 256 % 8;
            Sets(t, s, d, R(t, d), (s.pc + 1) % 0x1_0000) && Shows(s, x.before, w % 32, R(t, d))
  {
    hide Step, Meant, Executes, Sets, Shows, R, ReadCtl, Fetched;
    AtPc(s, x, w);
    MeantCtl(s, x, w);
    var d, v := w / 256 % 8, ReadCtl(Fetched(s, x), w % 32);
    SetsRegister(s, x, w, d, v, Wrap(s.pc + 1));
    SetsIts(Step(s, x), s, d, v, Wrap(s.pc + 1));
    ShownFetched(s, x, w % 32);
  }

  /** Control register q holds v and the other ones what they held, the general ones of user mode among
      them. */
  ghost predicate Takes(t: State, s: State, q: ctlreg, v: word) {
    && t.pc == (s.pc + 1) % 0x1_0000 && !t.asleep && t.mem == s.mem && t.sup == s.sup
    && (forall p: ctlreg :: p != q && (p < 8 || Steady(p)) ==> ReadCtl(t, p) == ReadCtl(s, p))
    && (q != 28 && q != 29 ==> ReadCtl(t, q) == v)
  }

  /** Writing half of the clock, which has counted the fetch and counts once more. */
  predicate ClockTakes(t: State, s: State, q: ctlreg, v: word) {
    var c := (Clock(s) + 1) % 0x1_0000_0000;
    && (q == 28 ==> Clock(t) == (c / 0x1_0000 * 0x1_0000 + v + 1) % 0x1_0000_0000)
    && (q == 29 ==> Clock(t) == (v * 0x1_0000 + c % 0x1_0000 + 1) % 0x1_0000_0000)
  }

  lemma PutCtlReads(s: State, q: ctlreg, v: word, p: ctlreg)
    requires q != 28 && q != 29 && p != 28 && p != 29
    ensures ReadCtl(PutCtl(s, q, v), p) == if p == q then v else ReadCtl(s, p)
  {
    hide Pack, Unpack;
    PackUnpack(v);
  }

  lemma PutClockReads(s: State, q: ctlreg, v: word, p: ctlreg)
    requires (q == 28 || q == 29) && p != 28 && p != 29
    ensures ReadCtl(PutCtl(s, q, v), p) == ReadCtl(s, p)
    ensures q == 28 ==> PutCtl(s, q, v).counter == s.counter / 0x1_0000 * 0x1_0000 + v
    ensures q == 29 ==> PutCtl(s, q, v).counter == v * 0x1_0000 + s.counter % 0x1_0000
  {
    hide Pack, Unpack;
  }

  /** The state in which the effect of an executed word meets the registers. */
  function Ready(s: State, x: Inputs): State {
    var f := Sample(Fetched(s, x), x.after);
    f.(pc := Wrap(s.pc + 1), latched := Clean(s.flags))
  }

  lemma SampledFetched(s: State, x: Inputs)
    ensures var f := Sample(Fetched(s, x), x.after); f.pc == s.pc && f.flags == s.flags
  {
    hide LinesValue;
  }

  lemma ReadyReads(s: State, x: Inputs, p: ctlreg)
    requires p < 8 || Steady(p)
    ensures ReadCtl(Ready(s, x), p) == ReadCtl(s, p)
  {
    hide Pack, LinesValue;
  }

  lemma PutStep(s: State, x: Inputs, w: word, q: ctlreg, v: word)
    requires Executes(s, x, w) && Meant(s, x) == WriteCtl(q, v)
    ensures Step(s, x) == Elapse(PutCtl(Ready(s, x), q, v), 1)
  {
    hide LinesValue, Pack, Unpack, Meant, Calm, Pending, Deed, PutCtl, Elapse;
    StepIs(s, x, w);
    SampledFetched(s, x);
  }

  lemma ElapseReads(s: State, n: nat, p: ctlreg)
    requires p != 28 && p != 29
    ensures ReadCtl(Elapse(s, n), p) == ReadCtl(s, p)
    ensures Clock(Elapse(s, n)) == (Clock(s) + n) % 0x1_0000_0000
  {
    hide Pack;
    ClockIsCounter(s);
    ClockIsCounter(Elapse(s, n));
  }

  lemma PutElsewhere(s: State, q: ctlreg, v: word)
    ensures var t := Elapse(PutCtl(s, q, v), 1);
            t.pc == s.pc && t.asleep == s.asleep && t.mem == s.mem && t.sup == s.sup
  {
    hide Unpack;
  }

  lemma ReadyElsewhere(s: State, x: Inputs)
    ensures var t := Ready(s, x);
            && t.pc == (s.pc + 1) % 0x1_0000 && t.asleep == s.asleep && t.mem == s.mem && t.sup == s.sup
            && t.counter == (s.counter + 1) % 0x1_0000_0000
  {
    hide LinesValue;
  }

  lemma TakesBy(s: State, x: Inputs, w: word, q: ctlreg, v: word)
    requires Executes(s, x, w) && Meant(s, x) == WriteCtl(q, v)
    ensures Takes(Step(s, x), s, q, v) && ClockTakes(Step(s, x), s, q, v)
  {
    hide Meant, Calm, Pack, Ready, PutCtl, Elapse, ReadCtl, Step, Clock;
    var r, t := Ready(s, x), Step(s, x);
    PutStep(s, x, w, q, v);
    ReadyElsewhere(s, x);
    PutElsewhere(r, q, v);
    forall p: ctlreg | p != q && (p < 8 || Steady(p)) ensures ReadCtl(t, p) == ReadCtl(s, p) {
      OnePut(s, x, q, v, p);
    }
    if q != 28 && q != 29 {
      PutCtlReads(r, q, v, q);
      ElapseReads(PutCtl(r, q, v), 1, q);
    } else {
      PutClockReads(r, q, v, 10);
      ClockIsCounter(s);
      ClockIsCounter(PutCtl(r, q, v));
      ElapseReads(PutCtl(r, q, v), 1, 10);
    }
  }

  lemma OnePut(s: State, x: Inputs, q: ctlreg, v: word, p: ctlreg)
    requires p != q && (p < 8 || Steady(p))
    ensures ReadCtl(Elapse(PutCtl(Ready(s, x), q, v), 1), p) == ReadCtl(s, p)
  {
    hide Pack, Ready, PutCtl, Elapse, ReadCtl;
    ReadyReads(s, x, p);
    if q == 28 || q == 29 { PutClockReads(Ready(s, x), q, v, p); } else { PutCtlReads(Ready(s, x), q, v, p); }
    ElapseReads(PutCtl(Ready(s, x), q, v), 1, p);
  }

  /** mtctl: the control register that the low five digits name becomes rD, and no other changes. */
  lemma ControlWritten(s: State, x: Inputs, w: word)
    requires Executes(s, x, w) && w / 2048 == 0x1F && !UserMode(s)
    ensures var t, q, v := Step(s, x), w % 32, R(s, w / 256 % 8); Takes(t, s, q, v) && ClockTakes(t, s, q, v)
  {
    hide Step, Meant, Executes, Takes, ClockTakes, R;
    AtPc(s, x, w);
    MeantCtl(s, x, w);
    TakesBy(s, x, w, w % 32, R(s, w / 256 % 8));
  }

  // ----- external interrupts -----

  /** Line i is the first that is up, enabled in q24 and let through by digit 14 of q10. */
  ghost predicate First(s: State, l: Lines, i: nat) {
    && i < 8 && l[i] && Bit(ReadCtl(s, 24), i) == 1 && Bit(ReadCtl(s, 10), 14) == 1
    && forall j :: 0 <= j < i && l[j] ==> Bit(ReadCtl(s, 24), j) == 0
  }

  lemma WantedByNumber(s: State, i: nat)
    requires i < 8
    ensures Wanted(s, i) <==> s.lines[i] && Bit(ReadCtl(s, 24), i) == 1 && Bit(ReadCtl(s, 10), 14) == 1
  {
    hide Pack, Pow2;
    StatusDigits(s.flags);
  }

  lemma PendingByNumber(s: State, i: nat)
    requires First(s, s.lines, i)
    ensures Pending(s, 0) == Some(i)
  {
    hide Wanted, Bit, ReadCtl;
    WantedByNumber(s, i);
    forall j | 0 <= j < i ensures !Wanted(s, j) {
      assert s.lines[j] ==> Bit(ReadCtl(s, 24), j) == 0;
      WantedByNumber(s, j);
    }
  }

  /** An awake core looks at the lines of the fetch, a sleeping one at those of the cycle before. */
  function Seen(s: State, x: Inputs): Lines { if s.asleep then s.lines else x.before }

  lemma InterruptStep(s: State, x: Inputs, i: nat)
    requires i < 8 && Act(s, x) == Some(Interrupt(if s.asleep then s else Fetched(s, x), i))
    ensures var t := Step(s, x);
            && t.pc == ReadCtl(s, 16 + i) && ReadCtl(t, 8) == s.pc && ReadCtl(t, 9) == ReadCtl(s, 8)
            && ReadCtl(t, 10) == Pack(Trapped(s.latched)) && SameElsewhere(t, s)
  {
    hide LinesValue, Pack, Pending, Chosen, Trapped;
  }

  lemma FirstFetched(s: State, x: Inputs, i: nat)
    requires First(s, x.before, i)
    ensures First(Fetched(s, x), Fetched(s, x).lines, i)
  {
    hide LinesValue, Pack, Bit;
  }

  /** An interrupt goes to the address in q16 and up, to come back to the instruction it came before. */
  lemma InterruptTraps(s: State, x: Inputs, i: nat)
    requires First(s, Seen(s, x), i)
    ensures var t := Step(s, x);
            t.pc == ReadCtl(s, 16 + i) && ReadCtl(t, 8) == s.pc && ReadCtl(t, 9) == ReadCtl(s, 8) && SameElsewhere(t, s)
    ensures Fresh(s) ==> Enters(Step(s, x), s, ReadCtl(s, 16 + i), s.pc, ReadCtl(s, 10) % 0x800)
  {
    hide LinesValue, Pack, Bit, First, Step, SameElsewhere, Trapped, Pending;
    if s.asleep {
      PendingByNumber(s, i);
    } else {
      FirstFetched(s, x, i);
      PendingByNumber(Fetched(s, x), i);
    }
    InterruptStep(s, x, i);
    RIsReg(s, 0);
    TrappedDigits(s.flags);
    assert Fresh(s) ==> Trapped(s.latched) == Trapped(s.flags) by { TrappedClean(s.flags); }
  }

  lemma TrappedClean(f: Flags)
    ensures Trapped(Clean(f)) == Trapped(f)
  {
  }

  // ----- handlers stay where the program puts them -----

  /** The next step executes an mtctl to q. */
  ghost predicate Writes(s: State, x: Inputs, q: ctlreg) {
    var w := s.mem[s.pc];
    Executes(s, x, w) && !UserMode(s) && w / 2048 == 0x1F && w % 32 == q
  }

  ghost predicate Leaves(s: State, xs: seq<Inputs>, q: ctlreg)
    decreases |xs|
  {
    xs == [] || (!Writes(s, xs[0], q) && Leaves(Step(s, xs[0]), xs[1..], q))
  }

  lemma ApplyKeeps(s: State, eff: Effect, cp: word, q: ctlreg)
    requires Steady(q) && q >= 11 && !(eff.WriteCtl? && eff.q == q)
    ensures ReadCtl(Apply(s, eff, cp), q) == ReadCtl(s, q)
  {
    hide Pack, Unpack;
  }

  lemma NonePendingIsCalm(s: State, x: Inputs)
    requires Pending(Fetched(s, x), 0).None?
    ensures Calm(s, x.before)
  {
    hide LinesValue, Pack, Bit;
    var f := Fetched(s, x);
    forall i | 0 <= i < 8 && x.before[i] ensures Bit(ReadCtl(s, 24), i) == 0 || Bit(ReadCtl(s, 10), 14) == 0 {
      assert !Wanted(f, i);
      WantedByNumber(f, i);
      BitSmall(ReadCtl(s, 24), i);
      BitSmall(ReadCtl(s, 10), 14);
    }
  }

  lemma MeantWrites(s: State, i: Instr, wide: word)
    requires Meaning(s, i, wide).WriteCtl?
    ensures i.CtlPut? && !s.flags.um && Meaning(s, i, wide).q == i.q
  {
    hide Compute;
  }

  lemma DecodesPut(w: word)
    requires Decode(w).CtlPut?
    ensures w / 2048 == 0x1F && Decode(w).q == w % 32
  {
  }

  lemma OnlyByWriting(s: State, x: Inputs)
    requires !s.asleep && Deed(s, x).WriteCtl?
    ensures Writes(s, x, Deed(s, x).q)
  {
    hide LinesValue, Pack, Decode, Meaning, Calm, Pending;
    NonePendingIsCalm(s, x);
    var f, w := Fetched(s, x), s.mem[s.pc];
    SampledFetched(s, x);
    MeantWrites(f, Decode(w), x.wide);
    DecodesPut(w);
    RIsReg(s, 0);
  }

  lemma SampleReads(s: State, l: Lines, q: ctlreg)
    requires Steady(q)
    ensures ReadCtl(Sample(s, l), q) == ReadCtl(s, q)
  {
    hide LinesValue, Pack;
  }

  /** Control registers change by mtctl alone. */
  lemma StepKeeps(s: State, x: Inputs, q: ctlreg)
    requires Steady(q) && q >= 11 && !Writes(s, x, q)
    ensures ReadCtl(Step(s, x), q) == ReadCtl(s, q)
  {
    hide LinesValue, Pack, Chosen, Calm, Pending, Apply, ReadCtl, Elapse, Sample, Writes;
    if s.asleep {
      SampleReads(s, x.after, q);
      if Pending(s, 0).Some? {
        var eff := Interrupt(s, Pending(s, 0).value);
        ApplyKeeps(Sample(s, x.after), eff, x.cp, q);
        ElapseReads(Apply(Sample(s, x.after), eff, x.cp), 1, q);
      }
    } else {
      if Deed(s, x).WriteCtl? { OnlyByWriting(s, x); }
      var a := Sample(s, x.before);
      var b := Sample(Elapse(a, 1), x.after);
      SampleReads(s, x.before, q);
      ElapseReads(a, 1, q);
      SampleReads(Elapse(a, 1), x.after, q);
      ApplyKeeps(b, Deed(s, x), x.cp, q);
      ElapseReads(Apply(b, Deed(s, x), x.cp), if TouchesMemory(Deed(s, x)) then 2 else 1, q);
    }
  }

  lemma {:induction false} StepsKeep(s: State, xs: seq<Inputs>, q: ctlreg)
    requires Steady(q) && q >= 11 && Leaves(s, xs, q)
    ensures ReadCtl(Steps(s, xs), q) == ReadCtl(s, q)
    decreases |xs|
  {
    hide Step, ReadCtl, Writes;
    if xs != [] {
      StepKeeps(s, xs[0], q);
      StepsKeep(Step(s, xs[0]), xs[1..], q);
    }
  }

  /** The step from s puts v into control register q, and the run behind it leaves q alone. */
  ghost predicate Installs(s: State, x: Inputs, w: word, xs: seq<Inputs>, q: ctlreg) {
    Executes(s, x, w) && !UserMode(s) && w / 2048 == 0x1F && w % 32 == q && Leaves(Step(s, x), xs, q)
  }

  lemma InstalledStays(s: State, x: Inputs, w: word, xs: seq<Inputs>, q: ctlreg)
    requires Installs(s, x, w, xs, q) && Steady(q) && q >= 11
    ensures ReadCtl(Steps(Step(s, x), xs), q) == R(s, w / 256 % 8)
  {
    hide Step, ReadCtl, Executes, R, ClockTakes;
    ControlWritten(s, x, w);
    StepsKeep(Step(s, x), xs, q);
  }

  /** After `mtctl rA, q13` and any run that does not write q13, `int` arrives at the value rA had. */
  lemma SoftwareHandler(s: State, x: Inputs, w: word, xs: seq<Inputs>, y: Inputs, v: word)
    requires Installs(s, x, w, xs, 13)
    requires var u := Steps(Step(s, x), xs); Executes(u, y, v) && v / 2048 == 0x1C
    ensures var u := Steps(Step(s, x), xs);
            Enters(Step(u, y), u, R(s, w / 256 % 8), (u.pc + 1) % 0x1_0000, v % 2048)
  {
    hide Step, Steps, ReadCtl, Executes, R, Enters, Installs;
    InstalledStays(s, x, w, xs, 13);
    SoftwareTraps(Steps(Step(s, x), xs), y, v);
  }

  /** The same for q15 and a privileged instruction in user mode. */
  lemma PrivilegeHandler(s: State, x: Inputs, w: word, xs: seq<Inputs>, y: Inputs, v: word)
    requires Installs(s, x, w, xs, 15)
    requires var u := Steps(Step(s, x), xs); Executes(u, y, v) && Reserved(v) && UserMode(u)
    ensures var u := Steps(Step(s, x), xs);
            Enters(Step(u, y), u, R(s, w / 256 % 8), u.pc, ReadCtl(u, 10) % 0x800)
  {
    hide Step, Steps, ReadCtl, Executes, R, Enters, Installs, Reserved, UserMode;
    InstalledStays(s, x, w, xs, 15);
    ReservedTraps(Steps(Step(s, x), xs), y, v);
  }

  /** And for q16 to q23 and the interrupts, of an awake core or a sleeping one. */
  lemma InterruptHandler(s: State, x: Inputs, w: word, xs: seq<Inputs>, y: Inputs, i: nat)
    requires i < 8 && Installs(s, x, w, xs, 16 + i)
    requires var u := Steps(Step(s, x), xs); First(u, Seen(u, y), i)
    ensures var u := Steps(Step(s, x), xs);
            Step(u, y).pc == R(s, w / 256 % 8) && ReadCtl(Step(u, y), 8) == u.pc && SameElsewhere(Step(u, y), u)
  {
    hide Step, Steps, ReadCtl, Executes, R, Enters, Installs, First, SameElsewhere;
    InstalledStays(s, x, w, xs, 16 + i);
    InterruptTraps(Steps(Step(s, x), xs), y, i);
  }

  // ----- the clock and sleep, by number -----

  lemma {:induction false} NeverWritten(s: State, xs: seq<Inputs>)
    requires Leaves(s, xs, 28) && Leaves(s, xs, 29)
    ensures Never(s, xs, WritesCounter)
    decreases |xs|
  {
    hide Step, Writes, Deed, Pending;
    if xs != [] {
      if !s.asleep && Deed(s, xs[0]).WriteCtl? { OnlyByWriting(s, xs[0]); }
      NeverWritten(Step(s, xs[0]), xs[1..]);
    }
  }

  /** q28 and q29 count the cycles not slept through, over any run that writes neither. */
  lemma ClockCounts(s: State, es: seq<Env>)
    requires Leaves(s, Abstract(s, es).xs, 28) && Leaves(s, Abstract(s, es).xs, 29)
    ensures var r := Abstract(s, es);
            Clock(r.s) == (Clock(s) + (|es| - |r.rest| - r.tally.slept)) % 0x1_0000_0000
  {
    hide Abstract, Leaves, Clock;
    var r := Abstract(s, es);
    NeverWritten(s, r.xs);
    CounterCountsCycles(s, es);
    ClockIsCounter(s);
    ClockIsCounter(r.s);
  }

  /** Some run of lines ends a sleep exactly when digit 14 of q10 is set and q24 has one below the eighth. */
  lemma SleepEnds(s: State)
    requires s.asleep
    ensures (exists es :: !Run(Sleeping(s), es).Sleeping?) <==>
            (Bit(ReadCtl(s, 10), 14) == 1 && ReadCtl(s, 24) % 256 != 0)
  {
    hide Run, Pack, Bit;
    StatusDigits(s.flags);
    SleepWake.WakeableIff(s);
  }

  /** A sleep is reported exactly when digit 14 is clear or q24 is zero. */
  lemma SleepReported(p: Phase, e: Env)
    requires Due(p, p.s.mem[p.s.pc]) && p.s.mem[p.s.pc] / 2048 == 0x0E && !UserMode(p.s)
    ensures Report(p, e) == -1 <==> Bit(ReadCtl(p.s, 10), 14) == 0 || ReadCtl(p.s, 24) == 0
    ensures Cycle(p, e).Sleeping?
  {
    hide LinesValue, Pack, Bit, Pending, Calm;
    CalmHere(p.s);
    RIsReg(p.s, 0);
    StatusDigits(p.s.flags);
  }
}
