/** The CN1601 instruction set, one instruction or trap at a time, in integer
    arithmetic. */
module Isa {
  import opened Words

  type Regs = s: seq<word> | |s| == 8 witness [0, 0, 0, 0, 0, 0, 0, 0]
  type Vectors = s: seq<word> | |s| == 17 witness seq(17, i => 0)
  type Mem = s: seq<word> | |s| == 0x1_0000 witness seq(0x1_0000, i => 0)
  type Lines = s: seq<bool> | |s| == 8 witness seq(8, i => false)
  type reg = x: int | 0 <= x < 8
  type ctlreg = x: int | 0 <= x < 32
  type counter = x: int | 0 <= x < 0x1_0000_0000

  // ----- the status word -----

  type swiarg = x: int | 0 <= x < 0x800

  datatype Flags = Flags(um: bool, gie: bool, rumode: bool, ll: bool, umsave: bool, arg: swiarg)

  function Unpack(st: word): Flags {
    var q := st / 0x800;
    Flags(q >= 16, q % 16 >= 8, q % 8 >= 4, q % 4 >= 2, q % 2 == 1, st % 0x800)
  }

  function Weigh(b: bool, w: nat): nat { if b then w else 0 }

  function Pack(f: Flags): (st: word)
    ensures Unpack(st) == f
  {
    var q := Weigh(f.um, 16) + Weigh(f.gie, 8) + Weigh(f.rumode, 4) + Weigh(f.ll, 2) + Weigh(f.umsave, 1);
    DivModUnique(q * 0x800 + f.arg, 0x800, q, f.arg);
    FiveDigits(f.um, f.gie, f.rumode, f.ll, f.umsave);
    q * 0x800 + f.arg
  }

  lemma FiveDigits(a: bool, b: bool, c: bool, d: bool, e: bool)
    ensures var q := Weigh(a, 16) + Weigh(b, 8) + Weigh(c, 4) + Weigh(d, 2) + Weigh(e, 1);
            q < 32 && (q >= 16 <==> a) && (q % 16 >= 8 <==> b) && (q % 8 >= 4 <==> c)
            && (q % 4 >= 2 <==> d) && (q % 2 == 1 <==> e)
  {
    var q := Weigh(a, 16) + Weigh(b, 8) + Weigh(c, 4) + Weigh(d, 2) + Weigh(e, 1);
    DivModUnique(q, 16, Weigh(a, 1), Weigh(b, 8) + Weigh(c, 4) + Weigh(d, 2) + Weigh(e, 1));
    DivModUnique(q, 8, Weigh(a, 2) + Weigh(b, 1), Weigh(c, 4) + Weigh(d, 2) + Weigh(e, 1));
    DivModUnique(q, 4, Weigh(a, 4) + Weigh(b, 2) + Weigh(c, 1), Weigh(d, 2) + Weigh(e, 1));
    DivModUnique(q, 2, Weigh(a, 8) + Weigh(b, 4) + Weigh(c, 2) + Weigh(d, 1), Weigh(e, 1));
  }

  lemma PackUnpack(st: word)
    ensures Pack(Unpack(st)) == st
  {
  }

  function Clean(f: Flags): Flags { f.(ll := false) }

  /** A trap saves the mode two deep, enters supervisor mode and masks interrupts. */
  function Trapped(f: Flags): Flags {
    f.(ll := false, umsave := f.rumode, rumode := f.um, um := false, gie := false)
  }

  function Returned(f: Flags): Flags {
    f.(ll := false, um := f.rumode, rumode := f.umsave, gie := true)
  }

  // ----- instructions -----

  datatype BinOp = Or | Nand | And | Xor | Add | Sub | AddC | SubC | ShiftL | ShiftR | ShiftRA | Rotate

  datatype Instr =
    | Alu(op: BinOp, d: reg, a: reg, b: reg)
    | AluBy(op: BinOp, d: reg, k: word)
    | LoadImm(d: reg, v: word)
    | ShiftIn(d: reg, v: word)
    | AddImm(d: reg, n: int)
    | LowByte(g: Gate, d: reg, v: word)
    | HighByte(g: Gate, d: reg, v: word)
    | Sleep
    | Branch(off: int, link: bool)
    | BranchIf(zero: bool, r: reg, off: int)
    | Jump(r: reg, off: int, link: bool)
    | Load(d: reg, base: reg, off: int, link: bool)
    | Store(r: reg, base: reg, off: int, conditional: bool)
    | CpGet(d: reg, cp: reg, x: nat)
    | CpPut(r: reg, cp: reg, x: nat)
    | CpOp(r: reg, cp: reg)
    | Int(arg: swiarg)
    | Rfi
    | CtlGet(d: reg, q: ctlreg)
    | CtlPut(r: reg, q: ctlreg)

  const BIN_OPS := [Or, Nand, And, Xor, Add, Sub, AddC, SubC, ShiftL, ShiftR, ShiftRA, Rotate]

  function Decode(w: word): Instr {
    var op, d, a := w / 2048, w / 256 % 8, w / 32 % 8;
    if op <= 2 then Alu(BIN_OPS[4 * op + w % 4], d, a, w / 4 % 8)
    else if op == 3 then AluBy(BIN_OPS[8 + w % 4], d, w / 4 % 16)
    else if op == 4 then LoadImm(d, w % 256)
    else if op == 5 then ShiftIn(d, w % 256)
    else if op <= 7 then AddImm(d, if op == 6 then w % 256 else -(w % 256))
    else if op <= 10 then LowByte([OR, AND, XOR][op - 8], d, w % 256)
    else if op <= 13 then HighByte([OR, AND, XOR][op - 11], d, w % 256)
    else if op == 14 then Sleep
    else if op <= 16 then Branch(Sext(w, 2048), op == 16)
    else if op <= 18 then BranchIf(op == 17, d, Sext(w, 256))
    else if op <= 20 then Jump(d, Sext(w, 256), op == 20)
    else if op <= 22 then Load(d, a, Sext(w, 32), op == 21)
    else if op <= 24 then Store(d, a, Sext(w, 32), op == 24)
    else if op == 25 then CpGet(d, a, w % 32)
    else if op == 26 then CpPut(d, a, w % 32)
    else if op == 27 then CpOp(d, a)
    else if op == 28 then Int(w % 2048)
    else if op == 29 then Rfi
    else if op == 30 then CtlGet(d, w % 32)
    else CtlPut(d, w % 32)
  }

  // ----- arithmetic -----

  function Bitwise(g: Gate, x: word, y: word): word {
    hide Bits, Pow2;
    Pow2Values();
    BitsBound(g, x, y, 16);
    Bits(g, x, y)
  }

  function OnLowByte(g: Gate, x: word, v: word): word {
    hide Bits, Pow2;
    Pow2Values();
    BitsBound(g, x % 256, v % 256, 8);
    x / 256 * 256 + Bits(g, x % 256, v % 256)
  }

  function OnHighByte(g: Gate, x: word, v: word): word {
    hide Bits, Pow2;
    Pow2Values();
    BitsBound(g, x / 256, v % 256, 8);
    Bits(g, x / 256, v % 256) * 256 + x % 256
  }

  function RotateOnce(x: word): word { x % 0x8000 * 2 + x / 0x8000 }

  /** k rotations to the left by one digit. */
  function RotateLeft(x: word, k: nat): word
    decreases k
  {
    if k == 0 then x else RotateLeft(RotateOnce(x), k - 1)
  }

  /** `wide` is what the host computes for a shift by 32 or more, which C leaves undefined. */
  function Compute(op: BinOp, x: word, y: word, wide: word): word {
    match op
    case Or => Bitwise(OR, x, y)
    case Nand => 0xFFFF - Bitwise(AND, x, y)
    case And => Bitwise(AND, x, y)
    case Xor => Bitwise(XOR, x, y)
    case Add => Wrap(x + y)
    case Sub => Wrap(x - y)
    case AddC => if x + y >= 0x1_0000 then 1 else 0
    case SubC => if x < y then 1 else 0
    case ShiftL => if y >= 32 then wide else Wrap(x * Pow2(y))
    case ShiftR => if y >= 32 then wide else Wrap(x / Pow2(y))
    case ShiftRA => if y >= 32 then wide else Wrap(Sext(x, 0x1_0000) / Pow2(y))
    case Rotate => RotateLeft(x, y % 16)
  }

  // ----- machine state -----

  /** `vectors` are control registers 11 to 27 and `spare` 30 and 31; `latched` is the status
      word, LL aside, that an external interrupt will save. */
  datatype State = State(
    pc: word, usr: Regs, sup: Regs, epc: word, epcSaved: word, flags: Flags,
    vectors: Vectors, counter: counter, spare: (word, word), mem: Mem,
    asleep: bool, latched: Flags, lines: Lines)

  // Places in `vectors`.
  const SWIHDL := 2
  const PRIVOPHDL := 4
  const EXIHDL := 5
  const IENABLE := 13
  const IPEND := 14

  function ReadCtl(s: State, q: ctlreg): word {
    if q < 8 then s.usr[q]
    else if q == 8 then s.epc
    else if q == 9 then s.epcSaved
    else if q == 10 then Pack(s.flags)
    else if q < 28 then s.vectors[q - 11]
    else if q == 28 then s.counter % 0x1_0000
    else if q == 29 then s.counter / 0x1_0000
    else if q == 30 then s.spare.0
    else s.spare.1
  }

  function PutCtl(s: State, q: ctlreg, v: word): State {
    if q < 8 then s.(usr := s.usr[q := v])
    else if q == 8 then s.(epc := v)
    else if q == 9 then s.(epcSaved := v)
    else if q == 10 then s.(flags := Unpack(v))
    else if q < 28 then s.(vectors := s.vectors[q - 11 := v])
    else if q == 28 then s.(counter := s.counter / 0x1_0000 * 0x1_0000 + v)
    else if q == 29 then s.(counter := v * 0x1_0000 + s.counter % 0x1_0000)
    else if q == 30 then s.(spare := (v, s.spare.1))
    else s.(spare := (s.spare.0, v))
  }

  function Reg(s: State, n: reg): word {
    if s.flags.um then s.usr[n] else s.sup[n]
  }

  function SetReg(s: State, n: reg, v: word): State {
    if s.flags.um then s.(usr := s.usr[n := v]) else s.(sup := s.sup[n := v])
  }

  function Elapse(s: State, n: nat): State {
    s.(counter := (s.counter + n) % 0x1_0000_0000)
  }

  function LinesValue(l: Lines): (v: nat)
    ensures v < 256
  {
    Weigh(l[0], 1) + Weigh(l[1], 2) + Weigh(l[2], 4) + Weigh(l[3], 8)
    + Weigh(l[4], 16) + Weigh(l[5], 32) + Weigh(l[6], 64) + Weigh(l[7], 128)
  }

  /** The interrupt lines show in the low byte of IPEND; its two top digits show no fault. */
  function Sample(s: State, l: Lines): State {
    s.(lines := l, vectors := s.vectors[IPEND := s.vectors[IPEND] / 256 % 64 * 256 + LinesValue(l)])
  }

  predicate Wanted(s: State, i: nat)
    requires i < 8
  {
    s.lines[i] && s.vectors[IENABLE] / Pow2(i) % 2 == 1 && s.flags.gie
  }

  /** The lowest-numbered external interrupt, from i on, that the core would take. */
  function Pending(s: State, i: nat): (r: Option<nat>)
    requires i <= 8
    ensures r.Some? ==> i <= r.value < 8 && Wanted(s, r.value)
    ensures forall j :: i <= j < (if r.Some? then r.value else 8) ==> !Wanted(s, j)
    decreases 8 - i
  {
    if i == 8 then None else if Wanted(s, i) then Some(i) else Pending(s, i + 1)
  }

  // ----- what one instruction or trap does -----

  datatype Effect =
    | WriteReg(n: reg, v: word, next: word)
    | Goto(next: word)
    | ReadMem(n: reg, addr: word, link: bool)
    | WriteMem(addr: word, v: word, ack: Option<reg>)
    | WriteCtl(q: ctlreg, v: word)
    | ReadCp(n: reg)
    | Trap(next: word, epc: word, flags: Flags)
    | Return(next: word, flags: Flags)
    | Halt

  predicate Privileged(i: Instr) { i.Sleep? || i.Rfi? || i.CtlGet? || i.CtlPut? }

  function Meaning(s: State, i: Instr, wide: word): Effect {
    var next := Wrap(s.pc + 1);
    if s.flags.um && Privileged(i) then Trap(s.vectors[PRIVOPHDL], s.pc, Trapped(s.flags))
    else
      match i
      case Alu(op, d, a, b) => WriteReg(d, Compute(op, Reg(s, a), Reg(s, b), wide), next)
      case AluBy(op, d, k) => WriteReg(d, Compute(op, Reg(s, d), k, wide), next)
      case LoadImm(d, v) => WriteReg(d, v, next)
      case ShiftIn(d, v) => WriteReg(d, Wrap(Reg(s, d) * 256 + v), next)
      case AddImm(d, n) => WriteReg(d, Wrap(Reg(s, d) + n), next)
      case LowByte(g, d, v) => WriteReg(d, OnLowByte(g, Reg(s, d), v), next)
      case HighByte(g, d, v) => WriteReg(d, OnHighByte(g, Reg(s, d), v), next)
      case Sleep => Halt
      case Branch(off, link) =>
        if link then WriteReg(7, next, Wrap(s.pc + off)) else Goto(Wrap(s.pc + off))
      case BranchIf(zero, r, off) => Goto(if (Reg(s, r) == 0) == zero then Wrap(s.pc + off) else next)
      case Jump(r, off, link) =>
        if link then WriteReg(7, next, Wrap(Reg(s, r) + off)) else Goto(Wrap(Reg(s, r) + off))
      case Load(d, base, off, link) => ReadMem(d, Wrap(Reg(s, base) + off), link)
      case Store(r, base, off, conditional) =>
        if conditional && !s.flags.ll then WriteReg(r, 0, next)
        else WriteMem(Wrap(Reg(s, base) + off), Reg(s, r), if conditional then Some(r) else None)
      case CpGet(d, _, _) => ReadCp(d)
      case CpPut(_, _, _) => Goto(next)
      case CpOp(_, _) => Goto(next)
      case Int(arg) => Trap(s.vectors[SWIHDL], next, Trapped(s.flags.(arg := arg)))
      case Rfi => Return(s.epc, Returned(s.flags))
      case CtlGet(d, q) => WriteReg(d, ReadCtl(s, q), next)
      case CtlPut(r, q) => WriteCtl(q, Reg(s, r))
  }

  /** What an instruction asks of the coprocessor bus. */
  datatype Request =
    | NoCommand
    | ReadRegister(cp: reg, x: nat)
    | WriteRegister(cp: reg, x: nat, v: word)
    | Operate(cp: reg, v: word)

  function Command(s: State, i: Instr): Request {
    match i
    case CpGet(_, cp, x) => ReadRegister(cp, x)
    case CpPut(r, cp, x) => WriteRegister(cp, x, Reg(s, r))
    case CpOp(r, cp) => Operate(cp, Reg(s, r))
    case _ => NoCommand
  }

  /** Interrupts save the latched status and come before the instruction at pc. */
  function Interrupt(s: State, i: nat): Effect
    requires i < 8
  {
    Trap(s.vectors[EXIHDL + i], s.pc, Trapped(s.latched))
  }

  function Current(s: State): Instr { Decode(s.mem[s.pc]) }

  function Chosen(s: State, wide: word): Effect {
    match Pending(s, 0)
    case Some(i) => Interrupt(s, i)
    case None => Meaning(s, Current(s), wide)
  }

  function Apply(s: State, eff: Effect, cp: word): State {
    var kept := s.(pc := Wrap(s.pc + 1), latched := Clean(s.flags));
    match eff
    case WriteReg(n, v, to) => SetReg(kept, n, v).(pc := to)
    case Goto(to) => kept.(pc := to)
    case ReadMem(n, addr, link) => SetReg(kept, n, s.mem[addr]).(flags := s.flags.(ll := link))
    case WriteMem(addr, v, ack) =>
      var t := kept.(mem := s.mem[addr := v], flags := Clean(s.flags));
      if ack.Some? then SetReg(t, ack.value, 1) else t
    case WriteCtl(q, v) => PutCtl(kept, q, v)
    case ReadCp(n) => SetReg(kept, n, cp)
    case Trap(to, epc, f) =>
      s.(pc := to, epcSaved := s.epc, epc := epc, flags := f, latched := Clean(f), asleep := false)
    case Return(to, f) => s.(pc := to, epc := s.epcSaved, flags := f, latched := Clean(f))
    case Halt => kept.(asleep := true)
  }

  predicate TouchesMemory(eff: Effect) { eff.ReadMem? || eff.WriteMem? }

  // ----- one step -----

  /** What the outside supplies to one step: the interrupt lines while the instruction is
      fetched, the lines when it completes, a coprocessor value, an over-wide shift result. */
  datatype Inputs = Inputs(before: Lines, after: Lines, cp: word, wide: word)

  function Fetched(s: State, x: Inputs): State { Elapse(Sample(s, x.before), 1) }

  function Deed(s: State, x: Inputs): Effect { Chosen(Fetched(s, x), x.wide) }

  /** One instruction, trap or interrupt of an awake core, or one cycle of sleep. */
  function Step(s: State, x: Inputs): State {
    if !s.asleep then
      var eff := Deed(s, x);
      Elapse(Apply(Sample(Fetched(s, x), x.after), eff, x.cp), if TouchesMemory(eff) then 2 else 1)
    else
      match Pending(s, 0)
      case None => Sample(s, x.after)
      case Some(i) => Elapse(Apply(Sample(s, x.after), Interrupt(s, i), x.cp), 1)
  }
}
