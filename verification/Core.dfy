/** The core of the simulator: its state, the exec stage and the update stage. */
module Core {
  import opened Words
  import opened Isa
  import opened Alu
  import opened StatusBits
  import opened Decoder
  import opened Cycles

  datatype MemIn = MemIn(value: word, valid: bool, fault: bool)
  datatype MemOut = MemOut(value: word, addr: word, read: bool, request: bool)
  datatype CpOp = COPROC_OP_NONE | COPROC_OP_READ | COPROC_OP_WRITE | COPROC_OP_EXEC
  datatype CpOut = CpOut(select: nat, op: CpOp, addr: nat, value: word)
  datatype CoreIn = CoreIn(data: MemIn, instr: MemIn, coproc: word, exint: Lines)

  datatype Kind =
    | GPRUP | BRANCH | BRLINK | LOAD | LOADLNK | STORE | SCOND | CTLUP | CPREAD | TRAP | RFI | SLEEP

  /** The 32-digit number in two registers. */
  function Join(hi: int, lo: int): counter
    requires 0 <= hi < 0x1_0000 && 0 <= lo < 0x1_0000
  {
    hi * 0x1_0000 + lo
  }

  type CtlArray = s: seq<word> | |s| == 32 witness seq(32, i => 0)

  /** The control registers are one array; the user registers are its first eight. */
  function Arch(pc: word, gpr: Regs, c: CtlArray, sleeping: bool, newstat: word, m: Mem, l: Lines): State {
    State(pc, c[..8], gpr, c[8], c[9], Unpack(c[10]), c[11..28], Join(c[29], c[28]), (c[30], c[31]), m,
          sleeping, Clean(Unpack(newstat)), l)
  }

  lemma ArchRead(pc: word, gpr: Regs, c: CtlArray, sleeping: bool, newstat: word, m: Mem, l: Lines, q: ctlreg)
    ensures ReadCtl(Arch(pc, gpr, c, sleeping, newstat, m, l), q) == c[q]
  {
    hide Unpack, Pack;
    PackUnpack(c[10]);
  }

  lemma ArchPut(pc: word, gpr: Regs, c: CtlArray, sleeping: bool, newstat: word, m: Mem, l: Lines, q: ctlreg, v: word)
    ensures Arch(pc, gpr, c[q := v], sleeping, newstat, m, l) ==
            PutCtl(Arch(pc, gpr, c, sleeping, newstat, m, l), q, v)
  {
    hide Unpack;
    var d := c[q := v];
    assert d[..8] == if q < 8 then c[..8][q := v] else c[..8];
    assert d[11..28] == if 11 <= q < 28 then c[11..28][q - 11 := v] else c[11..28];
  }

  /** The control registers after a tick of the counter. */
  function Counted(c: CtlArray): CtlArray {
    var low: int := c[28];
    var high: int := c[29];
    var d := c[28 := Wrap(low + 1)];
    if Wrap(low + 1) == 0 then d[29 := Wrap(high + 1)] else d
  }

  lemma ArchCount(pc: word, gpr: Regs, c: CtlArray, sleeping: bool, newstat: word, m: Mem, l: Lines)
    ensures Arch(pc, gpr, Counted(c), sleeping, newstat, m, l) == Elapse(Arch(pc, gpr, c, sleeping, newstat, m, l), 1)
  {
    hide Unpack, Join;
    var d := Counted(c);
    assert d[..8] == c[..8] && d[11..28] == c[11..28];
    JoinNext(c[29], c[28]);
  }

  lemma JoinNext(hi: word, lo: word)
    ensures (Join(hi, lo) + 1) % 0x1_0000_0000 == if lo == 0xFFFF then Join(Wrap(hi + 1), 0) else Join(hi, lo + 1)
    ensures Wrap(lo + 1) == if lo == 0xFFFF then 0 else lo + 1
  {
  }

  // ----- what each family of instructions means, in the fields of the simulator's decoder -----

  ghost predicate Decodes(s: State, d: Decoded, lo: nat, hi: nat) {
    d == Fields(s.mem[s.pc]) && lo <= d.opcode <= hi
  }

  lemma AluMeans(s: State, d: Decoded, wide: word)
    requires Decodes(s, d, 0, 3)
    ensures 0 <= d.f0 < 8 && d.subcode < 4 && (if d.opcode == 3 then 0 <= d.f1 < 16 else 0 <= d.f1 < 8 && 0 <= d.f2 < 8)
    ensures Meaning(s, Current(s), wide) ==
            var op := BIN_OPS[if d.opcode == 3 then 8 + d.subcode else 4 * d.opcode + d.subcode];
            WriteReg(d.f0,
                     if d.opcode == 3 then Compute(op, Reg(s, d.f0), d.f1, wide)
                     else Compute(op, Reg(s, d.f1), Reg(s, d.f2), wide),
                     Wrap(s.pc + 1))
  {
    hide Compute, Reg;
  }

  lemma BranchMeans(s: State, d: Decoded)
    requires Decodes(s, d, 0x0F, 0x10)
    ensures Meaning(s, Current(s), 0) ==
            if d.opcode == 0x10 then WriteReg(7, Wrap(s.pc + 1), Wrap(s.pc + d.f0)) else Goto(Wrap(s.pc + d.f0))
  {
  }

  lemma BranchIfMeans(s: State, d: Decoded)
    requires Decodes(s, d, 0x11, 0x12)
    ensures 0 <= d.f0 < 8
    ensures Meaning(s, Current(s), 0) ==
            Goto(Wrap(s.pc + if (Reg(s, d.f0) == 0) == (d.opcode == 0x11) then d.f1 else 1))
  {
    hide Reg;
  }

  lemma JumpMeans(s: State, d: Decoded)
    requires Decodes(s, d, 0x13, 0x14)
    ensures 0 <= d.f0 < 8
    ensures var to := Wrap(Reg(s, d.f0) + d.f1);
            Meaning(s, Current(s), 0) == if d.opcode == 0x14 then WriteReg(7, Wrap(s.pc + 1), to) else Goto(to)
  {
    hide Reg;
  }

  lemma LoadMeans(s: State, d: Decoded)
    requires Decodes(s, d, 0x15, 0x16)
    ensures 0 <= d.f0 < 8 && 0 <= d.f1 < 8
    ensures Meaning(s, Current(s), 0) == ReadMem(d.f0, Wrap(Reg(s, d.f1) + d.f2), d.opcode == 0x15)
  {
    hide Reg;
  }

  lemma StoreMeans(s: State, d: Decoded)
    requires Decodes(s, d, 0x17, 0x18)
    ensures 0 <= d.f0 < 8 && 0 <= d.f1 < 8
    ensures Meaning(s, Current(s), 0) ==
            if d.opcode == 0x18 && !s.flags.ll then WriteReg(d.f0, 0, Wrap(s.pc + 1))
            else WriteMem(Wrap(Reg(s, d.f1) + d.f2), Reg(s, d.f0), if d.opcode == 0x18 then Some(d.f0) else None)
  {
    hide Reg;
  }

  lemma SystemMeans(s: State, d: Decoded)
    requires Decodes(s, d, 0x0E, 0x0E) || Decodes(s, d, 0x1C, 0x1D)
    ensures d.opcode == 0x1C ==> 0 <= d.f0 < 0x800
    ensures Meaning(s, Current(s), 0) ==
            if d.opcode == 0x1C then Trap(s.vectors[SWIHDL], Wrap(s.pc + 1), Trapped(s.flags.(arg := d.f0)))
            else if s.flags.um then Trap(s.vectors[PRIVOPHDL], s.pc, Trapped(s.flags))
            else if d.opcode == 0x0E then Halt
            else Return(s.epc, Returned(s.flags))
  {
  }

  lemma ControlMeans(s: State, d: Decoded)
    requires Decodes(s, d, 0x1E, 0x1F)
    ensures 0 <= d.f0 < 8 && 0 <= d.f1 < 32
    ensures Meaning(s, Current(s), 0) ==
            if s.flags.um then Trap(s.vectors[PRIVOPHDL], s.pc, Trapped(s.flags))
            else if d.opcode == 0x1E then WriteReg(d.f0, ReadCtl(s, d.f1), Wrap(s.pc + 1))
            else WriteCtl(d.f1, Reg(s, d.f0))
  {
    hide Reg, ReadCtl;
  }

  class Core {
    // sim_core_state_t
    var pc: word
    const gprSuper: array<word>
    const ctl: array<word>
    var sleeping: bool

    // what exec leaves for update
    var regnum: nat
    var regval: word
    var newstat: word
    var nextpc: word
    var instrStall: bool
    var dataStall: bool
    var kind: Kind

    // sim_core_output_t
    var data: MemOut
    var instr: MemOut
    var coproc: CpOut
    var userMode: bool

    /** Everything is zero after power-on. */
    constructor ()
      ensures Shape() && fresh(gprSuper) && fresh(ctl)
      ensures pc == 0 && !sleeping && newstat == 0 && !instrStall && !dataStall && kind == GPRUP
      ensures gprSuper[..] == seq(8, i => 0) && ctl[..] == seq(32, i => 0)
      ensures data == MemOut(0, 0, false, false) && instr == data && coproc == CpOut(0, COPROC_OP_NONE, 0, 0)
    {
      pc, sleeping, userMode := 0, false, false;
      gprSuper := new word[8](i => 0);
      ctl := new word[32](i => 0);
      regnum, regval, newstat, nextpc := 0, 0, 0, 0;
      instrStall, dataStall, kind := false, false, GPRUP;
      data := MemOut(0, 0, false, false);
      instr := MemOut(0, 0, false, false);
      coproc := CpOut(0, COPROC_OP_NONE, 0, 0);
    }

    ghost predicate Shape() {
      gprSuper.Length == 8 && ctl.Length == 32 && gprSuper != ctl
    }

    ghost function View(m: Mem, l: Lines): State
      requires Shape()
      reads this`pc, this`sleeping, this`newstat, gprSuper, ctl
    {
      Arch(pc, gprSuper[..], ctl[..], sleeping, newstat, m, l)
    }

    /** What exec has left for update amounts to eff, begun in state s. */
    ghost predicate Encodes(eff: Effect, s: State)
      reads this`kind, this`regnum, this`regval, this`newstat, this`nextpc, this`data
    {
      var next := Wrap(s.pc + 1);
      var stat := Unpack(newstat);
      match eff
      case WriteReg(n, v, to) =>
        ((kind == GPRUP && regnum == n) || (kind == BRLINK && n == 7)) && regval == v && nextpc == to && stat == s.flags
      case Goto(to) => kind == BRANCH && nextpc == to && stat == s.flags
      case ReadMem(n, addr, link) =>
        && kind == (if link then LOADLNK else LOAD) && regnum == n && nextpc == next
        && data.request && data.read && data.addr == addr
        && stat == if link then s.flags.(ll := true) else s.flags
      case WriteMem(addr, v, ack) =>
        && (if ack.Some? then kind == SCOND && regnum == ack.value else kind == STORE) && nextpc == next
        && data.request && !data.read && data.addr == addr && data.value == v && stat == s.flags
      case WriteCtl(q, v) => kind == CTLUP && regnum == q && regval == v && nextpc == next && stat == s.flags
      case ReadCp(n) => kind == CPREAD && regnum == n && nextpc == next && stat == s.flags
      case Trap(to, epc, f) => kind == TRAP && regval == epc && nextpc == to && stat == f
      case Return(to, f) => kind == RFI && nextpc == to && stat == f
      case Halt => kind == SLEEP && nextpc == next && stat == s.flags
    }

    function GprRead(n: reg): word
      requires Shape()
      reads gprSuper, ctl
    {
      if GetBit(ctl[10], UM_BIT) == 1 then ctl[n] else gprSuper[n]
    }

    lemma GprReadIsReg(n: reg, s: State)
      requires Shape() && View(s.mem, s.lines) == s.(latched := Clean(Unpack(newstat)))
      ensures GprRead(n) == Reg(s, n) && (GetBit(ctl[10], UM_BIT) == 1 <==> s.flags.um)
      ensures GetBit(ctl[10], LL_BIT) == 1 <==> s.flags.ll
    {
      hide GetBit, SetBit, Unpack, Pack;
      Um(ctl[10], true);
      Ll(ctl[10], true);
    }

    // ----- exec -----

    /** What exec's cases rely on: the state is s with a fresh status and successor. */
    ghost predicate Ready(s: State)
      reads this, gprSuper, ctl
    {
      && Shape() && View(s.mem, s.lines) == s.(latched := Clean(s.flags)) && pc == s.pc
      && Unpack(newstat) == s.flags && nextpc == Wrap(pc + 1)
    }

    /** The arithmetic unit applied to two operands of s. */
    method Compute2(aluOp: AluOp, ghost op: BinOp, d: reg, arg0: word, arg1: word, wide: word, ghost s: State)
      requires Ready(s) && aluOp == OpOf(op)
      modifies this`regnum, this`regval, this`kind
      ensures Encodes(WriteReg(d, Compute(op, arg0, arg1, wide), Wrap(s.pc + 1)), s)
    {
      hide AluExec, Compute, Unpack;
      AluIsCompute(op, arg0, arg1, wide);
      regnum := d;
      regval := AluExec(aluOp, arg0, arg1, wide);
      kind := GPRUP;
    }

    method ExecAlu(d: Decoded, wide: word, ghost s: State)
      requires Ready(s) && Decodes(s, d, 0, 3)
      modifies this`regnum, this`regval, this`kind
      ensures Encodes(Meaning(s, Current(s), wide), s)
    {
      hide GetBit, Unpack, Compute, Encodes, View, GprRead, Reg, Meaning, Decode, Fields;
      AluMeans(s, d, wide);
      var aluOp, op := SelectOp(d.opcode, d.subcode);
      if d.opcode == 3 {
        GprReadIsReg(d.f0, s);
        Compute2(aluOp, op, d.f0, GprRead(d.f0), d.f1, wide, s);
      } else {
        GprReadIsReg(d.f1, s);
        GprReadIsReg(d.f2, s);
        Compute2(aluOp, op, d.f0, GprRead(d.f1), GprRead(d.f2), wide, s);
      }
    }

    /** Register d of s gets v and control goes on. */
    method Produce(d: reg, v: word, ghost s: State)
      requires Ready(s)
      modifies this`regnum, this`regval, this`kind
      ensures Encodes(WriteReg(d, v, Wrap(s.pc + 1)), s)
    {
      hide Unpack;
      regnum := d;
      regval := v;
      kind := GPRUP;
    }

    method ExecImmediate(d: Decoded, ghost s: State)
      requires Ready(s) && d == Fields(s.mem[s.pc]) && 4 <= d.opcode <= 7
      modifies this`regnum, this`regval, this`kind
      ensures Encodes(Meaning(s, Current(s), 0), s)
    {
      hide GetBit, Unpack, Bits, Encodes, View, GprRead, Reg, AluExec;
      GprReadIsReg(d.f0, s);
      var arg0 := GprRead(d.f0);
      if d.opcode == 0x04 {
        Produce(d.f0, d.f1, s);
      } else if d.opcode == 0x05 {
        ShiftInImmediate(arg0, d.f1);
        Produce(d.f0, AluExec(ALU_OP_SHL8OR, arg0, d.f1, 0), s);
      } else if d.opcode == 0x06 {
        AluIsCompute(Add, arg0, d.f1, 0);
        Produce(d.f0, AluExec(ALU_OP_ADD, arg0, d.f1, 0), s);
      } else {
        AluIsCompute(Sub, arg0, d.f1, 0);
        Produce(d.f0, AluExec(ALU_OP_SUB, arg0, d.f1, 0), s);
      }
    }

    method ExecByte(d: Decoded, ghost s: State)
      requires Ready(s) && d == Fields(s.mem[s.pc]) && 8 <= d.opcode <= 0x0D
      modifies this`regnum, this`regval, this`kind
      ensures Encodes(Meaning(s, Current(s), 0), s)
    {
      hide GetBit, Unpack, Bits, Encodes, View, GprRead, Reg;
      GprReadIsReg(d.f0, s);
      var arg0 := GprRead(d.f0);
      var v := ByteOp(d.opcode, arg0, d.f1);
      Produce(d.f0, v, s);
    }

    method ExecBranch(d: Decoded, ghost s: State)
      requires Ready(s) && Decodes(s, d, 0x0F, 0x10)
      modifies this`regnum, this`regval, this`kind, this`nextpc
      ensures Encodes(Meaning(s, Current(s), 0), s)
    {
      hide Unpack, View, Meaning, Decode, Fields;
      BranchMeans(s, d);
      nextpc := AluExec(ALU_OP_ADD, pc, Wrap(d.f0), 0);
      if d.opcode == 0x0F {
        kind := BRANCH;
      } else {
        regnum := 7;
        regval := Wrap(pc + 1);
        kind := GPRUP;
      }
    }

    method ExecBranchIf(d: Decoded, ghost s: State)
      requires Ready(s) && Decodes(s, d, 0x11, 0x12)
      modifies this`kind, this`nextpc
      ensures Encodes(Meaning(s, Current(s), 0), s)
    {
      hide GetBit, Unpack, View, GprRead, Reg, Meaning, Decode, Fields;
      BranchIfMeans(s, d);
      GprReadIsReg(d.f0, s);
      if d.opcode == 0x11 {
        if GprRead(d.f0) == 0 {
          nextpc := AluExec(ALU_OP_ADD, Wrap(d.f1), pc, 0);
        }
      } else {
        if GprRead(d.f0) != 0 {
          nextpc := AluExec(ALU_OP_ADD, Wrap(d.f1), pc, 0);
        }
      }
      kind := BRANCH;
    }

    method ExecJump(d: Decoded, ghost s: State)
      requires Ready(s) && Decodes(s, d, 0x13, 0x14)
      modifies this`regnum, this`regval, this`kind, this`nextpc
      ensures Encodes(Meaning(s, Current(s), 0), s)
    {
      hide GetBit, Unpack, View, GprRead, Reg, Meaning, Decode, Fields;
      JumpMeans(s, d);
      GprReadIsReg(d.f0, s);
      nextpc := AluExec(ALU_OP_ADD, GprRead(d.f0), Wrap(d.f1), 0);
      if d.opcode == 0x13 {
        kind := BRANCH;
      } else {
        regval := Wrap(pc + 1);
        regnum := 7;
        kind := BRLINK;
      }
    }

    method ExecLoad(d: Decoded, ghost s: State)
      requires Ready(s) && Decodes(s, d, 0x15, 0x16)
      modifies this`regnum, this`kind, this`newstat, this`data
      ensures Encodes(Meaning(s, Current(s), 0), s) && data.request
    {
      hide GetBit, SetBit, Unpack, View, GprRead, Reg, Meaning, Decode, Fields;
      LoadMeans(s, d);
      GprReadIsReg(d.f1, s);
      data := data.(addr := AluExec(ALU_OP_ADD, GprRead(d.f1), Wrap(d.f2), 0), read := true, request := true);
      regnum := d.f0;
      if d.opcode == 0x15 {
        Ll(newstat, true);
        newstat := SetBit(newstat, LL_BIT, true);
        kind := LOADLNK;
      } else {
        kind := LOAD;
      }
    }

    method ExecStore(d: Decoded, ghost s: State)
      requires Ready(s) && Decodes(s, d, 0x17, 0x18) && !data.request
      modifies this`regnum, this`regval, this`kind, this`data
      ensures Encodes(Meaning(s, Current(s), 0), s)
      ensures data.request == TouchesMemory(Meaning(s, Current(s), 0))
    {
      hide GetBit, Unpack, View, GprRead, Reg, Meaning, Decode, Fields;
      StoreMeans(s, d);
      GprReadIsReg(d.f0, s);
      GprReadIsReg(d.f1, s);
      if d.opcode == 0x17 {
        data := MemOut(GprRead(d.f0), AluExec(ALU_OP_ADD, GprRead(d.f1), Wrap(d.f2), 0), false, true);
        kind := STORE;
      } else if GetBit(ctl[10], LL_BIT) == 1 {
        data := MemOut(GprRead(d.f0), AluExec(ALU_OP_ADD, GprRead(d.f1), Wrap(d.f2), 0), false, true);
        regnum := d.f0;
        regval := 1;
        kind := SCOND;
      } else {
        regnum := d.f0;
        regval := 0;
        kind := GPRUP;
      }
    }

    // ----- traps, returns, control registers and coprocessors -----

    method StatusTrap()
      modifies this`newstat
      ensures Unpack(newstat) == Trapped(old(Unpack(newstat)))
    {
      hide GetBit, SetBit, Unpack;
      Ll(newstat, false);
      newstat := SetBit(newstat, LL_BIT, false);
      Rumode(newstat, true);
      Umsave(newstat, GetBit(newstat, RUMODE_BIT) == 1);
      newstat := SetBit(newstat, UMSAVE_BIT, GetBit(newstat, RUMODE_BIT) == 1);
      Um(newstat, false);
      Rumode(newstat, GetBit(newstat, UM_BIT) == 1);
      newstat := SetBit(newstat, RUMODE_BIT, GetBit(newstat, UM_BIT) == 1);
      Um(newstat, false);
      newstat := SetBit(newstat, UM_BIT, false);
      Gie(newstat, false);
      newstat := SetBit(newstat, GIE_BIT, false);
    }

    method StatusRfi()
      modifies this`newstat
      ensures Unpack(newstat) == Returned(old(Unpack(newstat)))
    {
      hide GetBit, SetBit, Unpack;
      Ll(newstat, false);
      newstat := SetBit(newstat, LL_BIT, false);
      Rumode(newstat, true);
      Um(newstat, GetBit(newstat, RUMODE_BIT) == 1);
      newstat := SetBit(newstat, UM_BIT, GetBit(newstat, RUMODE_BIT) == 1);
      Umsave(newstat, true);
      Rumode(newstat, GetBit(newstat, UMSAVE_BIT) == 1);
      newstat := SetBit(newstat, RUMODE_BIT, GetBit(newstat, UMSAVE_BIT) == 1);
      Gie(newstat, true);
      newstat := SetBit(newstat, GIE_BIT, true);
    }

    /** The label `trap`: save the address of the current instruction. */
    method TakeTrap()
      modifies this`newstat, this`regval, this`kind
      ensures Unpack(newstat) == Trapped(old(Unpack(newstat))) && regval == pc && kind == TRAP
    {
      hide *;
      StatusTrap();
      regval := pc;
      kind := TRAP;
    }

    /** An external interrupt through its own handler. */
    method TakeInterrupt(i: nat, ghost s: State)
      requires Shape() && View(s.mem, s.lines) == s && i < 8
      modifies this`newstat, this`regval, this`kind, this`nextpc
      ensures Encodes(Interrupt(s, i), s)
    {
      hide Unpack, Pack;
      assert ctl[11..28][EXIHDL + i] == ctl[16 + i];
      nextpc := ctl[16 + i];
      TakeTrap();
    }

    method ExecSystem(d: Decoded, ghost s: State)
      requires Ready(s) && (Decodes(s, d, 0x0E, 0x0E) || Decodes(s, d, 0x1C, 0x1D))
      modifies this`regval, this`kind, this`nextpc, this`newstat
      ensures Encodes(Meaning(s, Current(s), 0), s)
    {
      hide GetBit, Unpack, GprRead, Reg, SetSwiarg, Meaning, Decode, Fields;
      SystemMeans(s, d);
      GprReadIsReg(0, s);
      if d.opcode == 0x1C {
        regval := Wrap(pc + 1);
        SetArg(newstat, d.f0);
        newstat := SetSwiarg(newstat, d.f0);
        StatusTrap();
        nextpc := ctl[13];
        kind := TRAP;
      } else if GetBit(ctl[10], UM_BIT) == 1 {
        nextpc := ctl[15];
        TakeTrap();
      } else if d.opcode == 0x0E {
        kind := SLEEP;
      } else {
        StatusRfi();
        nextpc := ctl[8];
        kind := RFI;
      }
    }

    method ExecControl(d: Decoded, ghost s: State)
      requires Ready(s) && Decodes(s, d, 0x1E, 0x1F)
      modifies this`regnum, this`regval, this`kind, this`nextpc, this`newstat
      ensures Encodes(Meaning(s, Current(s), 0), s)
    {
      hide GetBit, Unpack, Pack, GprRead, Reg, Meaning, Decode, Fields;
      ControlMeans(s, d);
      GprReadIsReg(d.f0, s);
      ArchRead(pc, gprSuper[..], ctl[..], sleeping, newstat, s.mem, s.lines, d.f1);
      if GetBit(ctl[10], UM_BIT) == 1 {
        nextpc := ctl[15];
        TakeTrap();
      } else if d.opcode == 0x1E {
        regnum := d.f0;
        regval := ctl[d.f1];
        kind := GPRUP;
      } else {
        regnum := d.f1;
        regval := GprRead(d.f0);
        kind := CTLUP;
      }
    }

    method ExecCoproc(d: Decoded, ghost s: State)
      requires Ready(s) && d == Fields(s.mem[s.pc]) && 0x19 <= d.opcode <= 0x1B
      modifies this`regnum, this`regval, this`kind, this`nextpc, this`newstat, this`coproc
      ensures Encodes(Meaning(s, Current(s), 0), s)
      ensures Drives(s, Current(s))
    {
      hide GetBit, Unpack, GprRead, Reg, View;
      GprReadIsReg(d.f0, s);
      if GetBit(ctl[10], UM_BIT) == 1 {
        if CoprocDenied(d.f1, ctl[27]) {
          CoprocNeverDenied(d.f1, ctl[27]);
          assert false;
        }
      }
      if d.opcode == 0x19 {
        coproc := coproc.(select := d.f1, op := COPROC_OP_READ, addr := d.f2);
        kind := CPREAD;
        regnum := d.f0;
      } else if d.opcode == 0x1A {
        coproc := CpOut(d.f1, COPROC_OP_WRITE, d.f2, GprRead(d.f0));
        kind := BRANCH;
      } else {
        coproc := coproc.(select := d.f1, op := COPROC_OP_EXEC, value := GprRead(d.f0));
        kind := BRANCH;
      }
    }

    /** The coprocessor bus carries the command of instruction i. */
    ghost predicate Drives(s: State, i: Instr)
      reads this
    {
      match Command(s, i)
      case NoCommand => coproc.op == COPROC_OP_NONE
      case ReadRegister(cp, x) => coproc.op == COPROC_OP_READ && coproc.select == cp && coproc.addr == x
      case WriteRegister(cp, x, v) =>
        coproc.op == COPROC_OP_WRITE && coproc.select == cp && coproc.addr == x && coproc.value == v
      case Operate(cp, v) => coproc.op == COPROC_OP_EXEC && coproc.select == cp && coproc.value == v
    }

    method CheckPendingInterrupt(exint: Lines, ghost s: State) returns (r: int)
      requires Shape() && View(s.mem, s.lines) == s && s.lines == exint
      ensures r == match Pending(s, 0) case Some(i) => i case None => -1
    {
      hide Bits, GetBit, Unpack, Pack, Pow2, Shl, Shr;
      Gie(ctl[10], true);
      var i := 0;
      while i < 8
        invariant 0 <= i <= 8
        invariant Pending(s, 0) == Pending(s, i)
      {
        assert Bits(AND, ctl[24], Shl(1, i)) != 0 <==> s.vectors[IENABLE] / Pow2(i) % 2 == 1 by {
          TestDigit(ctl[24], i);
          ShrIsDiv(ctl[24], i);
        }
        if exint[i] && Bits(AND, ctl[24], Shl(1, i)) != 0 && GetBit(ctl[10], GIE_BIT) == 1 {
          return i;
        }
        i := i + 1;
      }
      r := -1;
    }

    method Exec(inp: CoreIn, wide: word, ghost s: State)
      requires Shape() && View(s.mem, s.lines) == s && s.lines == inp.exint
      requires coproc.op == COPROC_OP_NONE
      requires !dataStall ==> !data.request
      requires inp.instr.valid ==> inp.instr.value == s.mem[s.pc]
      modifies this
      ensures pc == old(pc) && sleeping == old(sleeping) && dataStall == old(dataStall)
      ensures instr == old(instr) && userMode == old(userMode)
      ensures dataStall ==>
                data == old(data) && kind == old(kind) && regnum == old(regnum) && nextpc == old(nextpc)
                && newstat == old(newstat) && instrStall == old(instrStall) && coproc == old(coproc)
      ensures !dataStall && sleeping ==> data == old(data) && instrStall == old(instrStall) && coproc == old(coproc)
      ensures !dataStall && sleeping && Pending(s, 0).Some? ==> Encodes(Interrupt(s, Pending(s, 0).value), s)
      ensures !dataStall && sleeping && Pending(s, 0).None? ==> kind == old(kind) && newstat == old(newstat)
      ensures !dataStall && !sleeping && !inp.instr.valid && !inp.instr.fault ==>
                instrStall && data == old(data) && kind == old(kind) && newstat == old(newstat) && coproc == old(coproc)
      ensures !dataStall && !sleeping && !inp.instr.valid && inp.instr.fault ==>
                && Encodes(Trap(s.vectors[0], s.pc, Trapped(s.latched)), s)
                && instrStall == old(instrStall) && data == old(data) && coproc == old(coproc)
      ensures !dataStall && !sleeping && inp.instr.valid ==>
                && !instrStall && Encodes(Chosen(s, wide), s) && data.request == TouchesMemory(Chosen(s, wide))
                && (if Pending(s, 0).Some? then coproc == old(coproc) else Drives(s, Current(s)))
    {
      hide GetBit, Unpack, Pack, Meaning, Decode, Fields, Chosen, Drives, Interrupt;
      if dataStall {
        return;
      }
      if sleeping {
        var i := CheckPendingInterrupt(inp.exint, s);
        if i >= 0 {
          TakeInterrupt(i, s);
        }
        return;
      }
      if !inp.instr.valid {
        if !inp.instr.fault {
          instrStall := true;
        } else {
          assert ctl[11..28][0] == ctl[11];
          nextpc := ctl[11];
          TakeTrap();
        }
        return;
      }
      instrStall := false;
      ExecFetched(inp, wide, s);
    }

    /** Exec on an instruction that has arrived: an interrupt if one is wanted, else the instruction. */
    method ExecFetched(inp: CoreIn, wide: word, ghost s: State)
      requires Shape() && View(s.mem, s.lines) == s && s.lines == inp.exint
      requires coproc.op == COPROC_OP_NONE && !data.request && inp.instr.value == s.mem[s.pc]
      modifies this`regnum, this`regval, this`kind, this`nextpc, this`newstat, this`data, this`coproc
      ensures Encodes(Chosen(s, wide), s) && data.request == TouchesMemory(Chosen(s, wide))
      ensures if Pending(s, 0).Some? then coproc == old(coproc) else Drives(s, Current(s))
    {
      hide GetBit, Unpack, Pack, Meaning, Decode, Fields, Drives, Interrupt;
      var i := CheckPendingInterrupt(inp.exint, s);
      if i >= 0 {
        TakeInterrupt(i, s);
        return;
      }
      var status, d := DecodeInstruction(inp.instr.value);
      newstat := ctl[10];
      nextpc := Wrap(pc + 1);
      Dispatch(d, wide, s);
    }

    /** The switch on the opcode. */
    method Dispatch(d: Decoded, wide: word, ghost s: State)
      requires Ready(s) && d == Fields(s.mem[s.pc]) && !data.request && coproc.op == COPROC_OP_NONE
      modifies this`regnum, this`regval, this`kind, this`nextpc, this`newstat, this`data, this`coproc
      ensures Encodes(Meaning(s, Current(s), wide), s)
      ensures data.request == TouchesMemory(Meaning(s, Current(s), wide))
      ensures Drives(s, Current(s))
    {
      hide GetBit, Unpack, Pack;
      if d.opcode <= 3 {
        ExecAlu(d, wide, s);
      } else if d.opcode <= 7 {
        ExecImmediate(d, s);
      } else if d.opcode <= 0x0D {
        ExecByte(d, s);
      } else if d.opcode == 0x0E {
        ExecSystem(d, s);
      } else if d.opcode <= 0x10 {
        ExecBranch(d, s);
      } else if d.opcode <= 0x12 {
        ExecBranchIf(d, s);
      } else if d.opcode <= 0x14 {
        ExecJump(d, s);
      } else if d.opcode <= 0x16 {
        ExecLoad(d, s);
      } else if d.opcode <= 0x18 {
        ExecStore(d, s);
      } else if d.opcode <= 0x1B {
        ExecCoproc(d, s);
      } else if d.opcode <= 0x1D {
        ExecSystem(d, s);
      } else {
        ExecControl(d, s);
      }
    }

    // ----- update -----

    method PropagateSignals(inp: CoreIn, ghost m: Mem, ghost l: Lines)
      requires Shape()
      modifies this`userMode, ctl
      ensures ctl[25] == old(ctl[25]) / 256 % 64 * 256 + LinesValue(inp.exint)
                         + Weigh(inp.instr.fault, 0x4000) + Weigh(inp.data.fault, 0x8000)
      ensures forall j: ctlreg :: j != 25 ==> ctl[j] == old(ctl[j])
      ensures !inp.instr.fault && !inp.data.fault ==> View(m, inp.exint) == Sample(old(View(m, l)), inp.exint)
    {
      hide GetBit, SetBit, Unpack, Pack, Pow2, Shr, Low, LinesValue;
      userMode := GetBit(ctl[10], UM_BIT) == 1;
      NoDigits(ctl[25]);
      var i := 0;
      while i < 8
        invariant 0 <= i <= 8
        invariant Shr(ctl[25], i) == Shr(old(ctl[25]), i)
        invariant Low(ctl[25], i) == PartialLines(inp.exint, i)
        invariant forall j: ctlreg :: j != 25 ==> ctl[j] == old(ctl[j])
      {
        SetLine(ctl[25], i, inp.exint[i]);
        ShrHalf(ctl[25], i);
        ShrHalf(old(ctl[25]), i);
        ctl[25] := SetBit(ctl[25], i, inp.exint[i]);
        i := i + 1;
      }
      IpendValue(old(ctl[25]), ctl[25], inp.exint);
      FaultDigits(ctl[25], inp.instr.fault, inp.data.fault);
      ctl[25] := SetBit(ctl[25], 14, inp.instr.fault);
      ctl[25] := SetBit(ctl[25], 15, inp.data.fault);
    }

    method GprWrite(n: reg, v: word, ghost m: Mem, ghost l: Lines)
      requires Shape()
      modifies gprSuper, ctl
      ensures View(m, l) == SetReg(old(View(m, l)), n, v)
    {
      hide GetBit, SetBit, Unpack, Pack;
      Um(ctl[10], true);
      if GetBit(ctl[10], UM_BIT) == 1 {
        ArchPut(pc, gprSuper[..], ctl[..], sleeping, newstat, m, l, n, v);
        ctl[n] := v;
        assert ctl[..] == old(ctl[..])[n := v];
      } else {
        gprSuper[n] := v;
      }
    }

    method CtlWrite(q: ctlreg, v: word, ghost m: Mem, ghost l: Lines)
      requires Shape()
      modifies ctl
      ensures View(m, l) == PutCtl(old(View(m, l)), q, v) && ctl[q] == v
    {
      hide Unpack, PutCtl;
      ArchPut(pc, gprSuper[..], ctl[..], sleeping, newstat, m, l, q, v);
      ctl[q] := v;
      assert ctl[..] == old(ctl[..])[q := v];
    }

    /** The label `counter`. */
    method Count(ghost m: Mem, ghost l: Lines)
      requires Shape()
      modifies ctl, this`coproc
      ensures View(m, l) == Elapse(old(View(m, l)), 1) && coproc.op == COPROC_OP_NONE
    {
      hide Arch, Elapse;
      ghost var c := ctl[..];
      coproc := coproc.(op := COPROC_OP_NONE);
      var low: int := ctl[28];
      var high: int := ctl[29];
      ctl[28] := Wrap(low + 1);
      if ctl[28] == 0 {
        ctl[29] := Wrap(high + 1);
      }
      ArchCount(pc, gprSuper[..], c, sleeping, newstat, m, l);
      assert ctl[..] == Counted(c);
    }

    /** The registers of a trap, or of a return from one. */
    method CommitTrap(ghost s: State, ghost eff: Effect, ghost cp: word)
      requires Shape() && Encodes(eff, s) && (eff.Trap? || eff.Return?)
      requires View(s.mem, s.lines) == s.(flags := Unpack(newstat), latched := Clean(Unpack(newstat)))
      modifies this`sleeping, ctl
      ensures View(s.mem, s.lines) == Apply(s, eff, cp).(pc := s.pc)
    {
      hide Unpack, Pack;
      if kind == TRAP {
        CtlWrite(9, ctl[8], s.mem, s.lines);
        CtlWrite(8, regval, s.mem, s.lines);
        sleeping := false;
      } else {
        CtlWrite(8, ctl[9], s.mem, s.lines);
      }
    }

    /** The register of any other effect. */
    method CommitRegister(ghost s: State, ghost eff: Effect, cp: word)
      requires Shape() && Encodes(eff, s) && (eff.WriteReg? || eff.Goto? || eff.WriteCtl? || eff.ReadCp?)
      requires View(s.mem, s.lines) == s.(flags := Unpack(newstat), latched := Clean(Unpack(newstat)))
      modifies gprSuper, ctl
      ensures View(s.mem, s.lines) == Apply(s, eff, cp).(pc := s.pc)
    {
      hide Unpack, Pack;
      if kind == GPRUP {
        GprWrite(regnum, regval, s.mem, s.lines);
      } else if kind == BRLINK {
        GprWrite(7, regval, s.mem, s.lines);
      } else if kind == CTLUP {
        CtlWrite(regnum, regval, s.mem, s.lines);
      } else if kind == CPREAD {
        GprWrite(regnum, cp, s.mem, s.lines);
      }
    }

    method CommitSleep(ghost s: State, ghost cp: word) returns (status: int)
      requires Shape() && Encodes(Halt, s)
      requires View(s.mem, s.lines) == s.(flags := Unpack(newstat), latched := Clean(Unpack(newstat)))
      modifies this`sleeping, this`pc, this`instr
      ensures View(s.mem, s.lines) == Apply(s, Halt, cp) && instr == old(instr).(request := false)
      ensures status == if s.flags.gie && s.vectors[IENABLE] != 0 then 0 else -1
    {
      hide GetBit, Unpack, Pack;
      status := 0;
      sleeping := true;
      pc := nextpc;
      instr := instr.(request := false);
      Gie(ctl[10], true);
      if GetBit(ctl[10], GIE_BIT) != 1 || ctl[24] == 0 {
        status := -1;
      }
    }

    /** Retiring an effect that needs no memory. */
    method Commit(inp: CoreIn, ghost s: State, ghost eff: Effect) returns (status: int)
      requires Shape() && Encodes(eff, s) && !TouchesMemory(eff)
      requires View(s.mem, s.lines) == s.(flags := Unpack(newstat), latched := Clean(Unpack(newstat)))
      modifies this`sleeping, this`pc, this`instr, gprSuper, ctl
      ensures View(s.mem, s.lines) == Apply(s, eff, inp.coproc)
      ensures if eff.Halt? then instr == old(instr).(request := false)
              else instr == MemOut(old(instr.value), pc, old(instr.read), true)
      ensures status == if eff.Halt? && !(s.flags.gie && s.vectors[IENABLE] != 0) then -1 else 0
    {
      hide GetBit, Unpack, Pack;
      if kind == SLEEP {
        status := CommitSleep(s, inp.coproc);
        return;
      }
      if kind == TRAP || kind == RFI {
        CommitTrap(s, eff, inp.coproc);
      } else {
        CommitRegister(s, eff, inp.coproc);
      }
      Target(eff, s, inp.coproc);
      status := 0;
      pc := nextpc;
      instr := instr.(addr := pc, request := true);
    }

    lemma KindTells(eff: Effect, s: State)
      requires Encodes(eff, s)
      ensures TouchesMemory(eff) <==> kind == LOAD || kind == LOADLNK || kind == STORE || kind == SCOND
      ensures TouchesMemory(eff) ==> Unpack(newstat) == Early(s, eff).flags
    {
      hide Unpack;
    }

    lemma Target(eff: Effect, s: State, cp: word)
      requires Encodes(eff, s)
      ensures Apply(s, eff, cp).pc == nextpc
    {
      hide Unpack;
    }

    /** The link flag, and the register of a load or store-conditional. */
    method CommitAccess(value: word, ghost s: State, ghost eff: Effect, ghost cp: word, ghost m: Mem)
      requires Shape() && Encodes(eff, s) && TouchesMemory(eff) && Answers(s, eff, value, m)
      requires View(m, s.lines) == s.(mem := m, flags := Unpack(newstat), latched := Clean(Unpack(newstat)))
      modifies gprSuper, ctl
      ensures View(m, s.lines) == Apply(s, eff, cp).(pc := s.pc)
    {
      hide GetBit, SetBit, Unpack, Pack;
      Ll(ctl[10], kind == LOADLNK);
      CtlWrite(10, SetBit(ctl[10], LL_BIT, kind == LOADLNK), m, s.lines);
      match kind {
        case LOAD => GprWrite(regnum, value, m, s.lines);
        case LOADLNK => GprWrite(regnum, value, m, s.lines);
        case STORE =>
        case SCOND => GprWrite(regnum, 1, m, s.lines);
        case _ => assert false;
      }
    }

    /** Retiring a load or store once memory has answered; m is memory after the access. */
    method CommitMemory(inp: CoreIn, ghost s: State, ghost eff: Effect, ghost m: Mem) returns (stalled: bool)
      requires Shape() && Encodes(eff, s) && TouchesMemory(eff)
      requires View(m, s.lines) == s.(mem := m, flags := Unpack(newstat), latched := Clean(Unpack(newstat)))
      requires inp.data.valid ==> Answers(s, eff, inp.data.value, m)
      modifies this`pc, this`instr, this`data, this`dataStall, this`newstat, this`nextpc, gprSuper, ctl
      ensures stalled == (!inp.data.valid && !inp.data.fault)
      ensures stalled ==>
                && dataStall && View(m, s.lines) == old(View(m, s.lines)) && Encodes(eff, s)
                && instr == old(instr).(request := false) && data == old(data) && pc == old(pc)
      ensures inp.data.valid && !inp.data.fault ==>
                && !dataStall && View(m, s.lines) == Apply(s, eff, inp.coproc) && !data.request
                && instr == MemOut(old(instr.value), pc, old(instr.read), true)
      ensures inp.data.fault ==>
                && !dataStall && gprSuper[..] == old(gprSuper[..]) && ctl[..] == old(ctl[..]) && data == old(data)
                && pc == ctl[12] && Unpack(newstat) == Trapped(old(Unpack(newstat)))
                && instr == MemOut(old(instr.value), pc, old(instr.read), true)
    {
      hide GetBit, SetBit, Unpack, Pack, Apply, Answers;
      if !inp.data.valid && !inp.data.fault {
        dataStall := true;
        instr := instr.(request := false);
        return true;
      }
      stalled := false;
      if inp.data.fault {
        StatusTrap();
        nextpc := ctl[12];
      } else {
        CommitAccess(inp.data.value, s, eff, inp.coproc, m);
        Target(eff, s, inp.coproc);
        data := data.(request := false);
      }
      dataStall := false;
      pc := nextpc;
      instr := instr.(addr := pc, request := true);
    }

    /** What memory returns for eff, and leaves in m. */
    ghost predicate Answers(s: State, eff: Effect, value: word, m: Mem) {
      (eff.ReadMem? ==> m == s.mem && value == s.mem[eff.addr]) && (eff.WriteMem? ==> m == s.mem[eff.addr := eff.v])
    }

    /** The effect has been carried out and the next instruction is asked for. */
    ghost predicate Retired(eff: Effect, oldInstr: MemOut, m: Mem, s: State)
      reads this`pc, this`sleeping, this`newstat, this`instr, this`data, this`dataStall, gprSuper, ctl
    {
      && Shape() && View(m, s.lines) == s
      && (if eff.Halt? then instr == oldInstr.(request := false)
          else instr == MemOut(oldInstr.value, pc, oldInstr.read, true))
      && (TouchesMemory(eff) ==> !data.request && !dataStall)
    }

    /** Update after exec has done its work, the signals being sampled into s. */
    method Retire(inp: CoreIn, ghost s: State, ghost eff: Effect, ghost m: Mem) returns (status: int)
      requires Shape() && !inp.data.fault && Encodes(eff, s)
      requires View(m, s.lines) == s.(mem := m, latched := Clean(Unpack(newstat)))
      requires TouchesMemory(eff) && inp.data.valid ==> Answers(s, eff, inp.data.value, m)
      requires !TouchesMemory(eff) || !inp.data.valid ==> m == s.mem
      modifies this`pc, this`sleeping, this`instr, this`data, this`dataStall, this`newstat, this`nextpc, gprSuper, ctl
      ensures if TouchesMemory(eff) && !inp.data.valid then
                && View(m, s.lines) == Early(s, eff) && Encodes(eff, s) && dataStall && status == 0
                && instr == old(instr).(request := false) && data == old(data)
              else
                && Retired(eff, old(instr), m, Apply(s, eff, inp.coproc))
                && status == (if eff.Halt? && !(s.flags.gie && s.vectors[IENABLE] != 0) then -1 else 0)
                && (!TouchesMemory(eff) ==> data == old(data) && dataStall == old(dataStall))
    {
      hide GetBit, SetBit, Unpack, Pack, Apply, Encodes, Answers;
      status := 0;
      KindTells(eff, s);
      CtlWrite(10, newstat, m, s.lines);
      if kind == LOAD || kind == LOADLNK || kind == STORE || kind == SCOND {
        var stalled := CommitMemory(inp, s, eff, m);
      } else {
        status := Commit(inp, s, eff);
      }
    }

    method RetireAndCount(inp: CoreIn, ghost s: State, ghost eff: Effect, ghost m: Mem) returns (status: int)
      requires Shape() && !inp.data.fault && Encodes(eff, s)
      requires View(m, s.lines) == s.(mem := m, latched := Clean(Unpack(newstat)))
      requires TouchesMemory(eff) && inp.data.valid ==> Answers(s, eff, inp.data.value, m)
      requires !TouchesMemory(eff) || !inp.data.valid ==> m == s.mem
      modifies this`pc, this`sleeping, this`instr, this`data, this`dataStall, this`newstat, this`nextpc
      modifies this`coproc, gprSuper, ctl
      ensures coproc.op == COPROC_OP_NONE
      ensures if TouchesMemory(eff) && !inp.data.valid then
                && View(m, s.lines) == Elapse(Early(s, eff), 1) && Encodes(eff, s) && dataStall && status == 0
                && instr == old(instr).(request := false) && data == old(data)
              else
                && Retired(eff, old(instr), m, Elapse(Apply(s, eff, inp.coproc), 1))
                && status == (if eff.Halt? && !(s.flags.gie && s.vectors[IENABLE] != 0) then -1 else 0)
                && (!TouchesMemory(eff) ==> data == old(data) && dataStall == old(dataStall))
    {
      hide Unpack, Pack, Apply, Encodes, Answers;
      ApplyKeepsLines(s, eff, inp.coproc);
      status := Retire(inp, s, eff, m);
      Count(m, s.lines);
    }

    /** s is the state when exec was entered, m memory after this cycle's data access. */
    method Update(inp: CoreIn, ghost s: State, ghost eff: Effect, ghost m: Mem) returns (status: int)
      requires Shape() && !inp.instr.fault && !inp.data.fault
      requires View(m, s.lines) == s.(mem := m, latched := Clean(Unpack(newstat)))
      requires instrStall || (sleeping && kind != TRAP) ==> m == s.mem && s.latched == Clean(Unpack(newstat))
      requires !instrStall && (sleeping ==> kind == TRAP) ==> Encodes(eff, s)
      requires TouchesMemory(eff) && inp.data.valid ==> Answers(s, eff, inp.data.value, m)
      requires !TouchesMemory(eff) || !inp.data.valid ==> m == s.mem
      modifies this, gprSuper, ctl
      ensures instrStall == old(instrStall) && kind == old(kind)
      ensures coproc.op == (if old(Dozes()) then old(coproc.op) else COPROC_OP_NONE)
      ensures instrStall || old(Dozes()) ==>
                && View(m, inp.exint) == (if instrStall then Elapse(Sample(s, inp.exint), 1) else Sample(s, inp.exint))
                && status == 0 && instr == old(instr) && data == old(data) && dataStall == old(dataStall)
      ensures !instrStall && !old(Dozes()) ==>
                if TouchesMemory(eff) && !inp.data.valid then
                  && View(m, inp.exint) == Elapse(Early(Sample(s, inp.exint), eff), 1)
                  && Encodes(eff, s) && dataStall && status == 0
                  && instr == old(instr).(request := false) && data == old(data)
                else
                  && Retired(eff, old(instr), m, Elapse(Apply(Sample(s, inp.exint), eff, inp.coproc), 1))
                  && status == (if eff.Halt? && !(s.flags.gie && s.vectors[IENABLE] != 0) then -1 else 0)
                  && (!TouchesMemory(eff) ==> data == old(data) && dataStall == old(dataStall))
    {
      hide GetBit, SetBit, Unpack, Pack, Apply, Encodes, LinesValue, Answers, Retired, Elapse, Early;
      EncodesSampled(eff, s, inp.exint);
      status := 0;
      PropagateSignals(inp, m, s.lines);
      if instrStall {
        Count(m, inp.exint);
        return;
      }
      if sleeping && kind != TRAP {
        return;
      }
      status := RetireAndCount(inp, Sample(s, inp.exint), eff, m);
      EncodesSampled(eff, s, inp.exint);
    }

    lemma EncodesSampled(eff: Effect, s: State, l: Lines)
      ensures Encodes(eff, s) <==> Encodes(eff, Sample(s, l))
      ensures forall v, m :: Answers(s, eff, v, m) <==> Answers(Sample(s, l), eff, v, m)
    {
      hide Unpack, LinesValue;
    }

    ghost predicate Dozes()
      reads this
    {
      !instrStall && sleeping && kind != TRAP
    }
  }

  lemma ApplyKeepsLines(s: State, eff: Effect, cp: word)
    ensures Apply(s, eff, cp).lines == s.lines
  {
    hide Unpack;
  }

  method SelectOp(opcode: nat, subcode: nat) returns (aluOp: AluOp, ghost op: BinOp)
    requires opcode <= 3 && subcode <= 3
    ensures op == BIN_OPS[if opcode == 3 then 8 + subcode else 4 * opcode + subcode] && aluOp == OpOf(op)
  {
    op := BIN_OPS[if opcode == 3 then 8 + subcode else 4 * opcode + subcode];
    if opcode == 0 {
      match subcode {
        case 0 => aluOp := ALU_OP_OR;
        case 1 => aluOp := ALU_OP_NAND;
        case 2 => aluOp := ALU_OP_AND;
        case _ => aluOp := ALU_OP_XOR;
      }
    } else if opcode == 1 {
      match subcode {
        case 0 => aluOp := ALU_OP_ADD;
        case 1 => aluOp := ALU_OP_SUB;
        case 2 => aluOp := ALU_OP_ADDC;
        case _ => aluOp := ALU_OP_SUBC;
      }
    } else {
      match subcode {
        case 0 => aluOp := ALU_OP_SHL;
        case 1 => aluOp := ALU_OP_SHR;
        case 2 => aluOp := ALU_OP_SHRA;
        case _ => aluOp := ALU_OP_ROT;
      }
    }
  }

  method ByteOp(opcode: nat, arg0: word, imm: word) returns (r: word)
    requires 8 <= opcode <= 0x0D && imm < 256
    ensures opcode <= 0x0A ==> r == OnLowByte([OR, AND, XOR][opcode - 8], arg0, imm)
    ensures opcode > 0x0A ==> r == OnHighByte([OR, AND, XOR][opcode - 0x0B], arg0, imm)
  {
    hide Bits, Shl, OnLowByte, OnHighByte;
    Operands(imm);
    match opcode {
      case 0x08 =>
        LowImmediate(OR, arg0, imm);
        r := AluExec(ALU_OP_OR, arg0, imm, 0);
      case 0x09 =>
        LowMask(arg0, imm);
        r := AluExec(ALU_OP_AND, arg0, Bits(OR, imm, 0xFF00), 0);
      case 0x0A =>
        LowImmediate(XOR, arg0, imm);
        r := AluExec(ALU_OP_XOR, arg0, imm, 0);
      case 0x0B =>
        HighImmediate(OR, arg0, imm);
        r := AluExec(ALU_OP_OR, arg0, Shl(imm, 8), 0);
      case 0x0C =>
        HighMask(arg0, imm);
        r := AluExec(ALU_OP_AND, arg0, Bits(OR, Shl(imm, 8), 0xFF), 0);
      case _ =>
        HighImmediate(XOR, arg0, imm);
        r := AluExec(ALU_OP_XOR, arg0, Shl(imm, 8), 0);
    }
  }

  /** The user-mode test `! cpmask & umcpen`: the negation comes before the mask. */
  predicate CoprocDenied(cp: reg, umcpen: word) {
    var cpmask := Shl(1, cp) % 256;
    Bits(AND, if cpmask == 0 then 1 else 0, umcpen) != 0
  }

  /** So user mode reaches every coprocessor, whatever umcpen holds. */
  lemma CoprocNeverDenied(cp: reg, umcpen: word)
    ensures !CoprocDenied(cp, umcpen)
  {
    ShlIsMul(1, cp);
    PowersOf16(cp);
    BitsZero(umcpen);
    SmallPower(cp);
  }

  lemma SmallPower(k: reg)
    ensures 0 < Pow2(k) < 256
  {
    Pow2Add(k, 7 - k);
    assert Pow2(7) == 128;
    MulMono(1, Pow2(7 - k), Pow2(k));
  }

  lemma SetBound(x: nat, k: nat, v: nat)
    requires k < 16 && x < 0x1_0000 && v <= 1
    ensures (2 * Shr(x, k + 1) + v) * Pow2(k) + Low(x, k) < 0x1_0000 && Low(x, k) < Pow2(k)
  {
    hide Shr, Low, Pow2;
    var q := 2 * Shr(x, k + 1) + v;
    Pow2Values();
    ShrBound(x, k + 1, 16);
    assert 2 * Pow2(15 - k) == Pow2(16 - k) by { Pow2Double(15 - k); }
    ShrLow(x, k);
    PowersOf16(k);
    MulMono(q, Pow2(16 - k) - 1, Pow2(k));
    assert (Pow2(16 - k) - 1) * Pow2(k) == 0x1_0000 - Pow2(k);
  }

  lemma NoDigits(x: nat)
    ensures Shr(x, 0) == x && Low(x, 0) == 0
  {
  }

  lemma Pow2Double(k: nat)
    ensures Pow2(k + 1) == 2 * Pow2(k)
  {
  }

  lemma SetLine(x: word, k: nat, b: bool)
    requires k < 16
    ensures Shr(SetBit(x, k, b), k + 1) == Shr(x, k + 1)
    ensures Low(SetBit(x, k, b), k + 1) == Low(x, k) + Weigh(b, Pow2(k))
  {
    hide Bits, Shl, Shr, Low, Pow2, OnesBut;
    var v := Weigh(b, 1);
    var q := 2 * Shr(x, k + 1) + v;
    Pow2Values();
    SetBound(x, k, v);
    SetDigit(x, k, 16, v);
    ShlIsMul(q, k);
    DigitsOf(q * Pow2(k) + Low(x, k), k, q, Low(x, k));
    ShlShr(q, k, Low(x, k));
    ShrHalf(SetBit(x, k, b), k);
    ShlIsMul(v, k);
  }

  lemma FaultDigits(x: word, a: bool, b: bool)
    ensures SetBit(SetBit(x, 14, a), 15, b) == x % 0x4000 + Weigh(a, 0x4000) + Weigh(b, 0x8000)
  {
    hide Bits, GetBit, SetBit, Pow2;
    Weights();
    var l := x % 0x4000;
    BitValues(x, 14, a, 0x4000, x / 0x8000, x / 0x4000 % 2, l);
    BitValues(x / 0x8000 * 0x8000 + Weigh(a, 0x4000) + l, 15, b, 0x8000, 0, x / 0x8000, Weigh(a, 0x4000) + l);
  }

  lemma IpendValue(before: word, x: word, l: Lines)
    requires Shr(x, 8) == Shr(before, 8) && Low(x, 8) == PartialLines(l, 8)
    ensures x % 0x4000 == before / 256 % 64 * 256 + LinesValue(l)
  {
    hide Shr, Low;
    Pow2Values();
    ShrIsDiv(x, 8);
    ShrIsDiv(before, 8);
    AllLines(l);
    assert x == x / 256 * 256 + LinesValue(l);
  }

  lemma AllLines(l: Lines)
    ensures PartialLines(l, 8) == LinesValue(l)
  {
    assert PartialLines(l, 1) == Weigh(l[0], 1);
    assert PartialLines(l, 2) == PartialLines(l, 1) + Weigh(l[1], 2);
    assert PartialLines(l, 3) == PartialLines(l, 2) + Weigh(l[2], 4);
    assert PartialLines(l, 4) == PartialLines(l, 3) + Weigh(l[3], 8);
    assert PartialLines(l, 5) == PartialLines(l, 4) + Weigh(l[4], 16);
    assert PartialLines(l, 6) == PartialLines(l, 5) + Weigh(l[5], 32);
    assert PartialLines(l, 7) == PartialLines(l, 6) + Weigh(l[6], 64);
  }

  /** The value of the first i interrupt lines. */
  ghost function PartialLines(l: Lines, i: nat): nat
    requires i <= 8
  {
    if i == 0 then 0 else PartialLines(l, i - 1) + if l[i - 1] then Pow2(i - 1) else 0
  }
}
