/** The instruction set by number, continued: words that go to memory and to coprocessors. */
module Accesses {
  import opened Words
  import opened Isa
  import opened Cycles
  import opened Manual
  import CpBus

  // ----- opcodes 0x15 to 0x18: memory -----

  /** pc has gone on by one, digit 12 of q10 is ll, and the other control registers are as they were. */
  ghost predicate GoesOn(t: State, s: State, ll: bool) {
    && t.pc == (s.pc + 1) % 0x1_0000 && !t.asleep
    && ReadCtl(t, 10) == ReadCtl(s, 10) - 0x1000 * Bit(ReadCtl(s, 10), 12) + (if ll then 0x1000 else 0)
    && (forall q: ctlreg :: Steady(q) && q != 10 ==> ReadCtl(t, q) == ReadCtl(s, q))
  }

  /** Of the general registers only d has changed, to v. */
  ghost predicate Puts(t: State, s: State, d: reg, v: word) {
    && R(t, d) == v && (forall n: reg :: n != d ==> R(t, n) == R(s, n))
    && (if UserMode(s) then t.sup == s.sup else t.usr == s.usr)
  }

  lemma LinkDigit(f: Flags, ll: bool)
    ensures Pack(f.(ll := ll)) == Pack(f) - 0x1000 * Bit(Pack(f), 12) + (if ll then 0x1000 else 0)
  {
    hide Pow2;
    StatusDigits(f);
  }

  lemma GoesOnBy(t: State, s: State, ll: bool)
    requires t.pc == Wrap(s.pc + 1) && !t.asleep && t.flags == s.flags.(ll := ll)
    requires t.epc == s.epc && t.epcSaved == s.epcSaved && t.spare == s.spare
    requires forall i :: 0 <= i < 17 && i != IPEND ==> t.vectors[i] == s.vectors[i]
    ensures GoesOn(t, s, ll)
  {
    hide Pack, Bit;
    LinkDigit(s.flags, ll);
  }

  lemma PutsBy(t: State, s: State, d: reg, v: word)
    requires t.flags.um == s.flags.um && t.usr == SetReg(s, d, v).usr && t.sup == SetReg(s, d, v).sup
    ensures Puts(t, s, d, v)
  {
    hide Pack;
    StatusDigits(s.flags);
    StatusDigits(t.flags);
  }

  lemma LoadStep(s: State, x: Inputs, w: word, d: reg, a: word, link: bool)
    requires Executes(s, x, w) && Meant(s, x) == ReadMem(d, a, link)
    ensures var t := Step(s, x); Puts(t, s, d, s.mem[a]) && GoesOn(t, s, link) && t.mem == s.mem
  {
    hide LinesValue, Pack, Meant, Calm, Pending, Deed, GoesOn, Puts;
    StepIs(s, x, w);
    var t := Step(s, x);
    GoesOnBy(t, s, link);
    PutsBy(t, s, d, s.mem[a]);
  }

  lemma MeantLoad(s: State, x: Inputs, w: word)
    requires s.mem[s.pc] == w && w / 2048 in {0x15, 0x16}
    ensures Meant(s, x) == ReadMem(w / 256 % 8, Wrap(R(s, w / 32 % 8) + Tail(w, 16)), w / 2048 == 0x15)
  {
    hide LinesValue, Pack, R, Reg, Sext, Tail;
    LowSext(w);
    FetchedSame(s, x, w / 32 % 8);
  }

  /** ll and ldw: rD becomes the word of memory at rB and the signed low digits; ll sets digit 12 of
      q10 and ldw clears it. */
  lemma Loads(s: State, x: Inputs, w: word)
    requires Executes(s, x, w) && w / 2048 in {0x15, 0x16}
    ensures var t := Step(s, x);
            && Puts(t, s, w / 256 % 8, s.mem[(R(s, w / 32 % 8) + Tail(w, 16)) % 0x1_0000])
            && GoesOn(t, s, w / 2048 == 0x15) && t.mem == s.mem
  {
    hide Step, Meant, R, Puts, GoesOn, Executes, Tail;
    AtPc(s, x, w);
    MeantLoad(s, x, w);
    LoadStep(s, x, w, w / 256 % 8, Wrap(R(s, w / 32 % 8) + Tail(w, 16)), w / 2048 == 0x15);
  }

  lemma StoreStep(s: State, x: Inputs, w: word, a: word, v: word, ack: Option<reg>)
    requires Executes(s, x, w) && Meant(s, x) == WriteMem(a, v, ack)
    ensures var t := Step(s, x);
            && t.mem == s.mem[a := v] && GoesOn(t, s, false)
            && (if ack.Some? then Puts(t, s, ack.value, 1) else t.usr == s.usr && t.sup == s.sup)
  {
    hide LinesValue, Pack, Meant, Calm, Pending, Deed, GoesOn, Puts;
    StepIs(s, x, w);
    var t := Step(s, x);
    GoesOnBy(t, s, false);
    if ack.Some? { PutsBy(t, s, ack.value, 1); }
  }

  lemma MeantStore(s: State, x: Inputs, w: word)
    requires s.mem[s.pc] == w && w / 2048 in {0x17, 0x18}
    ensures var d, a := w / 256 % 8, Wrap(R(s, w / 32 % 8) + Tail(w, 16));
            Meant(s, x) ==
            if w / 2048 == 0x18 && Bit(ReadCtl(s, 10), 12) == 0 then WriteReg(d, 0, Wrap(s.pc + 1))
            else WriteMem(a, R(s, d), if w / 2048 == 0x18 then Some(d) else None)
  {
    hide LinesValue, Pack, R, Reg, Sext, Tail, Bit;
    LowSext(w);
    StatusDigits(s.flags);
    FetchedSame(s, x, w / 32 % 8);
    FetchedSame(s, x, w / 256 % 8);
  }

  /** stw, and sc while digit 12 of q10 is set: that one word of memory becomes rD, and sc then leaves 1
      in rD. Without the digit sc leaves 0 there and memory alone. */
  lemma Stores(s: State, x: Inputs, w: word)
    requires Executes(s, x, w) && w / 2048 in {0x17, 0x18}
    ensures var t, d, a := Step(s, x), w / 256 % 8, (R(s, w / 32 % 8) + Tail(w, 16)) % 0x1_0000;
            if w / 2048 == 0x18 && Bit(ReadCtl(s, 10), 12) == 0 then Sets(t, s, d, 0, (s.pc + 1) % 0x1_0000)
            else
              && t.mem == s.mem[a := R(s, d)] && GoesOn(t, s, false)
              && (if w / 2048 == 0x18 then Puts(t, s, d, 1) else t.usr == s.usr && t.sup == s.sup)
  {
    hide Step, Meant, R, Puts, GoesOn, Executes, Tail, Sets, Bit, Pack;
    AtPc(s, x, w);
    MeantStore(s, x, w);
    var d, a := w / 256 % 8, Wrap(R(s, w / 32 % 8) + Tail(w, 16));
    if w / 2048 == 0x18 && Bit(ReadCtl(s, 10), 12) == 0 {
      SetsRegister(s, x, w, d, 0, Wrap(s.pc + 1));
    } else {
      StoreStep(s, x, w, a, R(s, d), if w / 2048 == 0x18 then Some(d) else None);
    }
  }

  // ----- opcodes 0x19 to 0x1B: coprocessors -----

  lemma MeantCoproc(s: State, x: Inputs, w: word)
    requires s.mem[s.pc] == w && 0x19 <= w / 2048 <= 0x1B
    ensures Meant(s, x) == if w / 2048 == 0x19 then ReadCp(w / 256 % 8) else Goto(Wrap(s.pc + 1))
  {
    hide LinesValue, Pack, Reg;
  }

  lemma AnswerStep(s: State, x: Inputs, w: word, d: reg)
    requires Executes(s, x, w) && Meant(s, x) == ReadCp(d)
    ensures Sets(Step(s, x), s, d, x.cp, Wrap(s.pc + 1))
  {
    hide LinesValue, Pack, Meant, Calm, Pending, Deed;
    StepIs(s, x, w);
    StatusDigits(s.flags);
    CtlSame(s, Step(s, x));
  }

  /** mfcp leaves the answer of the coprocessor in rD; mtcp and cpop change nothing in the core. */
  lemma CoprocessorWords(s: State, x: Inputs, w: word)
    requires Executes(s, x, w) && 0x19 <= w / 2048 <= 0x1B
    ensures var t, next := Step(s, x), (s.pc + 1) % 0x1_0000;
            if w / 2048 == 0x19 then Sets(t, s, w / 256 % 8, x.cp, next) else Moves(t, s, next)
  {
    hide Step, Meant, Executes, Sets, Moves;
    AtPc(s, x, w);
    MeantCoproc(s, x, w);
    if w / 2048 == 0x19 { AnswerStep(s, x, w, w / 256 % 8); } else { MovesTo(s, x, w, Wrap(s.pc + 1)); }
  }

  /** The word w has been fetched and executes in this cycle. */
  ghost predicate Due(p: Phase, w: word) { p.Fetching? && p.s.mem[p.s.pc] == w && Calm(p.s, p.s.lines) }

  lemma CalmHere(s: State)
    requires Calm(s, s.lines)
    ensures Pending(s, 0).None?
  {
    hide Pack, Bit, Pow2;
    StatusDigits(s.flags);
    forall i | 0 <= i < 8 ensures !Wanted(s, i) { NotWantedHere(s, i); }
  }

  lemma NotWantedHere(s: State, i: nat)
    requires i < 8 && (s.lines[i] ==> Bit(ReadCtl(s, 24), i) == 0 || Bit(ReadCtl(s, 10), 14) == 0)
    ensures !Wanted(s, i)
  {
    hide Pack, Pow2;
    StatusDigits(s.flags);
  }

  /** What the bus carries: the two register numbers of the word, and rD for a write or an operation. */
  lemma BusByNumber(p: Phase, w: word)
    requires Due(p, w)
    ensures var cp, x, v := w / 32 % 8, w % 32, R(p.s, w / 256 % 8);
            Bus(p) == if w / 2048 == 0x19 then ReadRegister(cp, x)
                      else if w / 2048 == 0x1A then WriteRegister(cp, x, v)
                      else if w / 2048 == 0x1B then Operate(cp, v)
                      else NoCommand
  {
    hide Pending, Pack, R, Reg, Calm;
    CalmHere(p.s);
    RIsReg(p.s, w / 256 % 8);
  }

  /** mtcp puts rD into the register it names and into no other. */
  lemma WritesFile(y: CpBus.Board, a: CpBus.Around, w: word)
    requires Due(y.p, w) && w / 2048 == 0x1A && w / 32 % 8 < |y.files|
    ensures CpBus.Beat(y, a).files ==
            y.files[w / 32 % 8 := y.files[w / 32 % 8][w % 32 := R(y.p.s, w / 256 % 8)]]
  {
    hide Due, Bus, Cycle, R;
    BusByNumber(y.p, w);
  }

  /** After mtcp and any run that writes the register no more, mfcp of the same two numbers brings
      the value. */
  lemma WrittenThenRead(y: CpBus.Board, a: CpBus.Around, turns: seq<CpBus.Around>, b: CpBus.Around, w: word, v: word)
    requires var cp, x := w / 32 % 8, w % 32;
             Due(y.p, w) && w / 2048 == 0x1A && cp < |y.files| && CpBus.Spares(CpBus.Beat(y, a), turns, cp, x)
    requires Due(CpBus.Beats(CpBus.Beat(y, a), turns).p, v)
    requires v / 2048 == 0x19 && v / 32 % 8 == w / 32 % 8 && v % 32 == w % 32
    ensures var u := CpBus.Beat(CpBus.Beats(CpBus.Beat(y, a), turns), b).p;
            u.Starting? && R(u.s, v / 256 % 8) == R(y.p.s, w / 256 % 8)
  {
    hide Due, Bus, Cycle, R, CpBus.Spares;
    WritesFile(y, a, w);
    var z := CpBus.Beats(CpBus.Beat(y, a), turns);
    CpBus.KeptUntil(CpBus.Beat(y, a), turns, w / 32 % 8, w % 32);
    ReadsFile(z, b, v);
  }

  lemma ReadsFile(z: CpBus.Board, b: CpBus.Around, v: word)
    requires Due(z.p, v) && v / 2048 == 0x19 && v / 32 % 8 < |z.files|
    ensures var u := CpBus.Beat(z, b).p; u.Starting? && R(u.s, v / 256 % 8) == z.files[v / 32 % 8][v % 32]
  {
    hide Pending, Pack, R, Calm, LinesValue, Compute, Decode;
    CalmHere(z.p.s);
    DecodesGet(v);
    CpBus.GetBrings(z, b, v / 256 % 8, v / 32 % 8, v % 32);
    RIsReg(CpBus.Beat(z, b).p.s, v / 256 % 8);
  }

  lemma DecodesGet(v: word)
    requires v / 2048 == 0x19
    ensures Decode(v) == CpGet(v / 256 % 8, v / 32 % 8, v % 32)
  {
  }
}
