/** The instruction set by number: what the step on each word leaves in the registers, as arithmetic on
    the digits of the word. Control registers go by their numbers too. */
module Manual {
  import opened Words
  import opened Isa
  import Alu

  // ----- reading the machine -----

  /** General register n of the current mode: the top digit of q10 chooses q0-q7 or the supervisor's. */
  function R(s: State, n: reg): word { if ReadCtl(s, 10) >= 0x8000 then ReadCtl(s, n) else s.sup[n] }

  /** Digit i of v. */
  function Bit(v: nat, i: nat): nat { v / Pow2(i) % 2 }

  predicate UserMode(s: State) { ReadCtl(s, 10) >= 0x8000 }

  /** No asserted line is enabled in q24 while digit 14 of q10 lets interrupts through. */
  ghost predicate Calm(s: State, l: Lines) {
    forall i :: 0 <= i < 8 && l[i] ==> Bit(ReadCtl(s, 24), i) == 0 || Bit(ReadCtl(s, 10), 14) == 0
  }

  /** The next step executes the word w. */
  ghost predicate Executes(s: State, x: Inputs, w: word) { !s.asleep && s.mem[s.pc] == w && Calm(s, x.before) }

  // ----- the same in terms of the state -----

  lemma StatusDigits(f: Flags)
    ensures var st := Pack(f);
            && (st >= 0x8000 <==> f.um) && Bit(st, 14) == Weigh(f.gie, 1) && Bit(st, 13) == Weigh(f.rumode, 1)
            && Bit(st, 12) == Weigh(f.ll, 1) && Bit(st, 11) == Weigh(f.umsave, 1) && st % 0x800 == f.arg
  {
    hide Pow2;
    var st := Pack(f);
    HighPowers();
    FiveDigits(f.um, f.gie, f.rumode, f.ll, f.umsave);
    var g, r, l, u := Weigh(f.gie, 1), Weigh(f.rumode, 1), Weigh(f.ll, 1), Weigh(f.umsave, 1);
    var m := Weigh(f.um, 1);
    DivModUnique(st, 0x4000, 2 * m + g, r * 0x2000 + l * 0x1000 + u * 0x800 + f.arg);
    DivModUnique(st, 0x2000, 4 * m + 2 * g + r, l * 0x1000 + u * 0x800 + f.arg);
    DivModUnique(st, 0x1000, 8 * m + 4 * g + 2 * r + l, u * 0x800 + f.arg);
    DivModUnique(st, 0x800, 16 * m + 8 * g + 4 * r + 2 * l + u, f.arg);
  }

  lemma HighPowers()
    ensures Pow2(11) == 0x800 && Pow2(12) == 0x1000 && Pow2(13) == 0x2000 && Pow2(14) == 0x4000
  {
    Pow2Values();
    assert Pow2(12) == 2 * Pow2(11) && Pow2(13) == 2 * Pow2(12) && Pow2(14) == 2 * Pow2(13);
  }

  lemma RIsReg(s: State, n: reg)
    ensures R(s, n) == Reg(s, n) && (UserMode(s) <==> s.flags.um)
  {
    hide Pack;
    StatusDigits(s.flags);
  }

  lemma CalmIsNoPending(s: State, x: Inputs)
    requires Calm(s, x.before)
    ensures Pending(Fetched(s, x), 0).None?
  {
    hide LinesValue, Pack, Bit, Pow2;
    StatusDigits(s.flags);
    forall i | 0 <= i < 8 ensures !Wanted(Fetched(s, x), i) { NotWanted(s, x, i); }
  }

  lemma NotWanted(s: State, x: Inputs, i: nat)
    requires i < 8 && (x.before[i] ==> Bit(ReadCtl(s, 24), i) == 0 || Bit(ReadCtl(s, 10), 14) == 0)
    ensures !Wanted(Fetched(s, x), i)
  {
    hide LinesValue, Pack, Pow2;
    StatusDigits(s.flags);
  }

  /** Control registers but IPEND and the counter. */
  predicate Steady(q: ctlreg) { 8 <= q && q != 25 && q != 28 && q != 29 }

  lemma CtlSame(s: State, t: State)
    requires t.epc == s.epc && t.epcSaved == s.epcSaved && t.flags == s.flags && t.spare == s.spare
    requires forall i :: 0 <= i < 17 && i != IPEND ==> t.vectors[i] == s.vectors[i]
    ensures forall q: ctlreg :: Steady(q) ==> ReadCtl(t, q) == ReadCtl(s, q)
  {
    hide Pack;
  }

  // ----- instructions that leave a register -----

  /** t is s with v in register d of the current mode and pc at next. */
  ghost predicate Sets(t: State, s: State, d: reg, v: word, next: word) {
    && R(t, d) == v && t.pc == next && t.mem == s.mem && !t.asleep
    && (forall n: reg :: n != d ==> R(t, n) == R(s, n))
    && (if UserMode(s) then t.sup == s.sup else t.usr == s.usr)
    && (forall q: ctlreg :: Steady(q) ==> ReadCtl(t, q) == ReadCtl(s, q))
  }

  function Meant(s: State, x: Inputs): Effect { Meaning(Fetched(s, x), Decode(s.mem[s.pc]), x.wide) }

  lemma StepIs(s: State, x: Inputs, w: word)
    requires Executes(s, x, w)
    ensures Deed(s, x) == Meant(s, x)
  {
    hide LinesValue, Meaning, Decode, Calm;
    CalmIsNoPending(s, x);
  }

  lemma FetchedSame(s: State, x: Inputs, n: reg)
    ensures var f := Fetched(s, x);
            f.pc == s.pc && f.flags == s.flags && f.mem == s.mem && Reg(f, n) == R(s, n)
  {
    hide LinesValue, Pack;
    RIsReg(s, n);
  }

  lemma SetsRegister(s: State, x: Inputs, w: word, d: reg, v: word, next: word)
    requires Executes(s, x, w) && Meant(s, x) == WriteReg(d, v, next)
    ensures Sets(Step(s, x), s, d, v, next)
  {
    hide LinesValue, Pack, Decode, Meaning, Calm, Pending, Chosen, Deed;
    StepIs(s, x, w);
    var t := Step(s, x);
    StatusDigits(s.flags);
    CtlSame(s, t);
  }

  // ----- what each operation computes -----

  function Signed(v: word): int { if v < 0x8000 then v else v - 0x1_0000 }

  ghost predicate Ors(p: word, q: word, v: word) {
    forall i :: 0 <= i < 16 ==> (Bit(v, i) == 1 <==> Bit(p, i) == 1 || Bit(q, i) == 1)
  }

  ghost predicate Ands(p: word, q: word, v: word) {
    forall i :: 0 <= i < 16 ==> (Bit(v, i) == 1 <==> Bit(p, i) == 1 && Bit(q, i) == 1)
  }

  ghost predicate Nands(p: word, q: word, v: word) {
    forall i :: 0 <= i < 16 ==> (Bit(v, i) == 1 <==> !(Bit(p, i) == 1 && Bit(q, i) == 1))
  }

  ghost predicate Xors(p: word, q: word, v: word) {
    forall i :: 0 <= i < 16 ==> (Bit(v, i) == 1 <==> Bit(p, i) != Bit(q, i))
  }

  predicate Adds(p: word, q: word, v: word) { v == (p + q) % 0x1_0000 }

  predicate Subtracts(p: word, q: word, v: word) { v == (p - q) % 0x1_0000 }

  /** The carry makes the sum whole. */
  predicate Carries(p: word, q: word, v: word) { v <= 1 && p + q == (p + q) % 0x1_0000 + 0x1_0000 * v }

  predicate Borrows(p: word, q: word, v: word) { v <= 1 && p - q == (p - q) % 0x1_0000 - 0x1_0000 * v }

  /** Shifts by 32 or more are undefined. */
  predicate ShiftsLeft(p: word, k: word, v: word) { k < 32 ==> v == p * Pow2(k) % 0x1_0000 }

  predicate ShiftsRight(p: word, k: word, v: word) { k < 32 ==> v == p / Pow2(k) }

  predicate ShiftsSigned(p: word, k: word, v: word) { k < 32 ==> Signed(v) == Signed(p) / Pow2(k) }

  /** What a left shift pushes out comes in at the bottom. */
  predicate Rotates(p: word, k: word, v: word) {
    v == p * Pow2(k % 16) % 0x1_0000 + p * Pow2(k % 16) / 0x1_0000
  }

  lemma BitZero(x: nat)
    ensures Bit(x, 0) == x % 2
  {
  }

  lemma LastDigit(g: Gate, x: nat, y: nat)
    ensures Bits(g, x, y) / 2 == Bits(g, x / 2, y / 2) && Bits(g, x, y) % 2 == Digit(g, x % 2, y % 2)
  {
    hide Bits;
    BitsStep(g, x, y);
  }

  lemma {:induction false} BitsDigit(g: Gate, x: nat, y: nat, i: nat)
    ensures Bit(Bits(g, x, y), i) == Digit(g, Bit(x, i), Bit(y, i))
    decreases i
  {
    hide Bits, Digit, Bit, Pow2;
    LastDigit(g, x, y);
    if i > 0 {
      HalfDigit(Bits(g, x, y), i);
      HalfDigit(x, i);
      HalfDigit(y, i);
      BitsDigit(g, x / 2, y / 2, i - 1);
    } else {
      BitZero(Bits(g, x, y));
      BitZero(x);
      BitZero(y);
    }
  }

  lemma HalfDigit(x: nat, i: nat)
    requires i > 0
    ensures Bit(x, i) == Bit(x / 2, i - 1)
  {
    HalfDiv(x, Pow2(i - 1));
  }

  lemma GateDigits(p: word, q: word)
    ensures Ors(p, q, Bitwise(OR, p, q)) && Ands(p, q, Bitwise(AND, p, q)) && Xors(p, q, Bitwise(XOR, p, q))
    ensures Nands(p, q, 0xFFFF - Bitwise(AND, p, q))
  {
    hide Bits, Bit, Pow2;
    forall i | 0 <= i < 16
      ensures Bit(Bitwise(OR, p, q), i) == Digit(OR, Bit(p, i), Bit(q, i))
      ensures Bit(Bitwise(AND, p, q), i) == Digit(AND, Bit(p, i), Bit(q, i))
      ensures Bit(Bitwise(XOR, p, q), i) == Digit(XOR, Bit(p, i), Bit(q, i))
      ensures Bit(0xFFFF - Bitwise(AND, p, q), i) == 1 - Digit(AND, Bit(p, i), Bit(q, i))
      ensures Bit(p, i) <= 1 && Bit(q, i) <= 1
    {
      BitsDigit(OR, p, q, i);
      BitsDigit(AND, p, q, i);
      BitsDigit(XOR, p, q, i);
      Pow2Values();
      Complement(Bitwise(AND, p, q), i, 16);
      BitSmall(p, i);
      BitSmall(q, i);
    }
  }

  lemma BitSmall(x: nat, i: nat)
    ensures Bit(x, i) <= 1
  {
  }

  lemma ComplementHalf(x: nat, m: nat)
    requires x < 2 * m
    ensures var y := 2 * m - 1 - x; x / 2 < m && y / 2 == m - 1 - x / 2 && y % 2 == 1 - x % 2
  {
  }

  lemma {:induction false} Complement(x: nat, i: nat, n: nat)
    requires x < Pow2(n) && i < n
    ensures Bit(Pow2(n) - 1 - x, i) == 1 - Bit(x, i)
    decreases i
  {
    var y := Pow2(n) - 1 - x;
    assert Pow2(n) == 2 * Pow2(n - 1);
    hide Bit, Pow2;
    ComplementHalf(x, Pow2(n - 1));
    if i > 0 {
      HalfDigit(x, i);
      HalfDigit(y, i);
      Complement(x / 2, i - 1, n - 1);
    } else {
      BitZero(x);
      BitZero(y);
    }
  }

  // ----- opcodes 0x00 to 0x03: register arithmetic -----

  ghost predicate ByNumber(op: nat, sub: nat, p: word, q: word, v: word) {
    && (op == 0x00 && sub == 0 ==> Ors(p, q, v))
    && (op == 0x00 && sub == 1 ==> Nands(p, q, v))
    && (op == 0x00 && sub == 2 ==> Ands(p, q, v))
    && (op == 0x00 && sub == 3 ==> Xors(p, q, v))
    && (op == 0x01 && sub == 0 ==> Adds(p, q, v))
    && (op == 0x01 && sub == 1 ==> Subtracts(p, q, v))
    && (op == 0x01 && sub == 2 ==> Carries(p, q, v))
    && (op == 0x01 && sub == 3 ==> Borrows(p, q, v))
    && ((op == 0x02 || op == 0x03) && sub == 0 ==> ShiftsLeft(p, q, v))
    && ((op == 0x02 || op == 0x03) && sub == 1 ==> ShiftsRight(p, q, v))
    && ((op == 0x02 || op == 0x03) && sub == 2 ==> ShiftsSigned(p, q, v))
    && ((op == 0x02 || op == 0x03) && sub == 3 ==> Rotates(p, q, v))
  }

  lemma SignedWrap(z: int)
    requires -0x8000 <= z < 0x8000
    ensures Signed(Wrap(z)) == z
  {
    if z < 0 { DivModUnique(z, 0x1_0000, -1, z + 0x1_0000); } else { DivModUnique(z, 0x1_0000, 0, z); }
  }

  lemma QuotientRange(z: int, p: nat)
    requires p > 0 && -0x8000 <= z < 0x8000
    ensures -0x8000 <= z / p < 0x8000 && (z >= 0 ==> 0 <= z / p <= z)
  {
    var q := z / p;
    assert z == q * p + z % p;
    if q >= 0x8000 { MulMono(0x8000, q, p); }
    if q < -0x8000 { MulMono(q, -0x8001, p); }
    if z >= 0 {
      if q < 0 { MulMono(q, -1, p); }
      if q > z { MulMono(z + 1, q, p); MulMono(1, p, z + 1); }
    }
  }

  lemma WordQuotient(x: word, p: nat)
    requires p > 0
    ensures 0 <= x / p <= x
  {
    var q := x / p;
    assert x == q * p + x % p;
    if q < 0 { MulMono(q, -1, p); }
    if q > x { MulMono(x + 1, q, p); MulMono(1, p, x + 1); }
  }

  lemma ShiftsCompute(p: word, k: word, wide: word)
    ensures ShiftsLeft(p, k, Compute(ShiftL, p, k, wide)) && ShiftsRight(p, k, Compute(ShiftR, p, k, wide))
    ensures ShiftsSigned(p, k, Compute(ShiftRA, p, k, wide)) && Rotates(p, k, Compute(Rotate, p, k, wide))
  {
    hide RotateLeft, Pow2, Bits;
    WordQuotient(p, Pow2(k));
    QuotientRange(Signed(p), Pow2(k));
    SextSigned(p);
    SignedWrap(Signed(p) / Pow2(k));
    Alu.RotateIsFold(p, k % 16);
  }

  lemma SextSigned(p: word)
    ensures Sext(p, 0x1_0000) == Signed(p)
  {
  }

  lemma SumsCompute(p: word, q: word, wide: word)
    ensures Adds(p, q, Compute(Add, p, q, wide)) && Subtracts(p, q, Compute(Sub, p, q, wide))
    ensures Carries(p, q, Compute(AddC, p, q, wide)) && Borrows(p, q, Compute(SubC, p, q, wide))
  {
    hide Pow2, Bits, RotateLeft;
    var c, b := if p + q >= 0x1_0000 then 1 else 0, if p < q then 1 else 0;
    DivModUnique(p + q, 0x1_0000, c, p + q - 0x1_0000 * c);
    DivModUnique(p - q, 0x1_0000, -b, p - q + 0x1_0000 * b);
  }

  lemma ComputesByNumber(op: nat, sub: nat, p: word, q: word, wide: word)
    requires op <= 3 && sub < 4
    ensures ByNumber(op, sub, p, q, Compute(BIN_OPS[if op == 3 then 8 + sub else 4 * op + sub], p, q, wide))
  {
    hide Bitwise, RotateLeft, Pow2, Ors, Nands, Ands, Xors, Adds, Subtracts, Carries, Borrows, ShiftsLeft, ShiftsRight,
         ShiftsSigned, Rotates;
    GateDigits(p, q);
    SumsCompute(p, q, wide);
    ShiftsCompute(p, q, wide);
  }

  lemma MeantAlu(s: State, x: Inputs, w: word)
    requires s.mem[s.pc] == w && w / 2048 <= 3
    ensures var op, sub, d := w / 2048, w % 4, w / 256 % 8;
            var p := if op == 3 then R(s, d) else R(s, w / 32 % 8);
            var q := if op == 3 then w / 4 % 16 else R(s, w / 4 % 8);
            Meant(s, x) ==
            WriteReg(d, Compute(BIN_OPS[if op == 3 then 8 + sub else 4 * op + sub], p, q, x.wide), Wrap(s.pc + 1))
  {
    hide Compute, LinesValue, Pack, R, Reg;
    FetchedSame(s, x, w / 256 % 8);
    FetchedSame(s, x, w / 32 % 8);
    FetchedSame(s, x, w / 4 % 8);
  }

  /** The words of the first four opcodes: rD becomes the operation on rA and rB, or on rD and the four
      digits above the subcode, and nothing else changes. */
  lemma Arithmetic(s: State, x: Inputs, w: word)
    requires Executes(s, x, w) && w / 2048 <= 3
    ensures var op, d, t := w / 2048, w / 256 % 8, Step(s, x);
            var p := if op == 3 then R(s, d) else R(s, w / 32 % 8);
            var q := if op == 3 then w / 4 % 16 else R(s, w / 4 % 8);
            Sets(t, s, d, R(t, d), (s.pc + 1) % 0x1_0000) && ByNumber(op, w % 4, p, q, R(t, d))
  {
    hide Step, Meant, R, Sets, ByNumber, Compute, Executes;
    var op, sub, d := w / 2048, w % 4, w / 256 % 8;
    var p := if op == 3 then R(s, d) else R(s, w / 32 % 8);
    var q := if op == 3 then w / 4 % 16 else R(s, w / 4 % 8);
    var v := Compute(BIN_OPS[if op == 3 then 8 + sub else 4 * op + sub], p, q, x.wide);
    AtPc(s, x, w);
    MeantAlu(s, x, w);
    SetsRegister(s, x, w, d, v, Wrap(s.pc + 1));
    SetsIts(Step(s, x), s, d, v, Wrap(s.pc + 1));
    ComputesByNumber(op, sub, p, q, x.wide);
  }

  lemma AtPc(s: State, x: Inputs, w: word)
    requires Executes(s, x, w)
    ensures s.mem[s.pc] == w
  {
  }

  lemma SetsIts(t: State, s: State, d: reg, v: word, next: word)
    requires Sets(t, s, d, v, next)
    ensures R(t, d) == v
  {
  }

  // ----- opcodes 0x04 to 0x0D: a register and a byte -----

  /** v is p with an operation of the byte k on its low digits, or on its high ones. */
  ghost predicate ByteByNumber(op: nat, p: word, k: nat, v: word) {
    && (op == 0x04 ==> v == k)
    && (op == 0x05 ==> v == (p * 256 + k) % 0x1_0000)
    && (op == 0x06 ==> v == (p + k) % 0x1_0000)
    && (op == 0x07 ==> v == (p - k) % 0x1_0000)
    && (op == 0x08 ==> v / 256 == p / 256 && k < 256 && Ors(p % 256, k, v % 256))
    && (op == 0x09 ==> v / 256 == p / 256 && k < 256 && Ands(p % 256, k, v % 256))
    && (op == 0x0A ==> v / 256 == p / 256 && k < 256 && Xors(p % 256, k, v % 256))
    && (op == 0x0B ==> v % 256 == p % 256 && k < 256 && Ors(p / 256, k, v / 256))
    && (op == 0x0C ==> v % 256 == p % 256 && k < 256 && Ands(p / 256, k, v / 256))
    && (op == 0x0D ==> v % 256 == p % 256 && k < 256 && Xors(p / 256, k, v / 256))
  }

  lemma ByteFits(g: Gate, x: nat, k: nat)
    requires x < 256 && k < 256
    ensures Bits(g, x, k) < 256
  {
    hide Bits, Pow2;
    Pow2Values();
    BitsBound(g, x, k, 8);
  }

  lemma LowGate(g: Gate, p: word, k: nat)
    requires k < 256
    ensures var v := OnLowByte(g, p, k); v / 256 == p / 256 && v % 256 == Bitwise(g, p % 256, k)
  {
    hide Bits, Pow2;
    ByteFits(g, p % 256, k);
    assert k % 256 == k;
    DivModUnique(p / 256 * 256 + Bits(g, p % 256, k), 256, p / 256, Bits(g, p % 256, k));
  }

  lemma HighGate(g: Gate, p: word, k: nat)
    requires k < 256
    ensures var v := OnHighByte(g, p, k); v % 256 == p % 256 && v / 256 == Bitwise(g, p / 256, k)
  {
    hide Bits, Pow2;
    ByteFits(g, p / 256, k);
    assert k % 256 == k;
    DivModUnique(Bits(g, p / 256, k) * 256 + p % 256, 256, Bits(g, p / 256, k), p % 256);
  }

  lemma LowBytes(p: word, k: word)
    requires k < 256
    ensures ByteByNumber(0x08, p, k, OnLowByte(OR, p, k)) && ByteByNumber(0x09, p, k, OnLowByte(AND, p, k))
    ensures ByteByNumber(0x0A, p, k, OnLowByte(XOR, p, k))
  {
    hide OnLowByte, OnHighByte, Bits, Bitwise, Ors, Ands, Xors, Nands;
    LowGate(OR, p, k);
    LowGate(AND, p, k);
    LowGate(XOR, p, k);
    GateDigits(p % 256, k);
  }

  lemma HighBytes(p: word, k: word)
    requires k < 256
    ensures ByteByNumber(0x0B, p, k, OnHighByte(OR, p, k)) && ByteByNumber(0x0C, p, k, OnHighByte(AND, p, k))
    ensures ByteByNumber(0x0D, p, k, OnHighByte(XOR, p, k))
  {
    hide OnLowByte, OnHighByte, Bits, Bitwise, Ors, Ands, Xors, Nands;
    HighGate(OR, p, k);
    HighGate(AND, p, k);
    HighGate(XOR, p, k);
    GateDigits(p / 256, k);
  }

  function ByteValue(op: nat, p: word, k: word): word {
    if op == 4 then k
    else if op == 5 then Wrap(p * 256 + k)
    else if op <= 7 then Wrap(p + if op == 6 then k else -(k as int))
    else if op <= 10 then OnLowByte(if op == 8 then OR else if op == 9 then AND else XOR, p, k)
    else OnHighByte(if op == 11 then OR else if op == 12 then AND else XOR, p, k)
  }

  lemma MeantByte(s: State, x: Inputs, w: word)
    requires s.mem[s.pc] == w && 4 <= w / 2048 <= 13
    ensures var op, d := w / 2048, w / 256 % 8;
            Meant(s, x) == WriteReg(d, ByteValue(op, R(s, d), w % 256), Wrap(s.pc + 1))
  {
    hide OnLowByte, OnHighByte, LinesValue, Pack, R, Reg;
    FetchedSame(s, x, w / 256 % 8);
  }

  lemma PlainBytes(op: nat, p: word, k: word)
    requires 4 <= op <= 7
    ensures ByteByNumber(op, p, k, ByteValue(op, p, k))
  {
  }

  lemma ByteValueByNumber(op: nat, p: word, k: word)
    requires 4 <= op <= 13 && k < 256
    ensures ByteByNumber(op, p, k, ByteValue(op, p, k))
  {
    hide OnLowByte, OnHighByte, Ors, Ands, Xors, ByteByNumber;
    LowBytes(p, k);
    HighBytes(p, k);
    if op <= 7 { PlainBytes(op, p, k); }
  }

  lemma Immediates(s: State, x: Inputs, w: word)
    requires Executes(s, x, w) && 4 <= w / 2048 <= 13
    ensures var d, t := w / 256 % 8, Step(s, x);
            && Sets(t, s, d, R(t, d), (s.pc + 1) % 0x1_0000)
            && ByteByNumber(w / 2048, R(s, d), w % 256, R(t, d))
  {
    hide Step, Meant, R, Sets, ByteByNumber, ByteValue, Executes;
    var d := w / 256 % 8;
    var v := ByteValue(w / 2048, R(s, d), w % 256);
    AtPc(s, x, w);
    MeantByte(s, x, w);
    SetsRegister(s, x, w, d, v, Wrap(s.pc + 1));
    SetsIts(Step(s, x), s, d, v, Wrap(s.pc + 1));
    ByteValueByNumber(w / 2048, R(s, d), w % 256);
  }

  // ----- opcodes 0x0F to 0x14: going elsewhere -----

  /** The number that the low digits of w are, with the top one of weight -h. */
  function Tail(w: word, h: nat): int
    requires h > 0
  {
    if w % (2 * h) < h then w % (2 * h) else w % (2 * h) - 2 * h
  }

  lemma LowSext(w: word)
    ensures Sext(w, 2048) == Tail(w, 1024) && Sext(w, 256) == Tail(w, 128) && Sext(w, 32) == Tail(w, 16)
  {
  }

  /** Nothing but pc has moved. */
  ghost predicate Moves(t: State, s: State, next: word) {
    && t.pc == next && t.mem == s.mem && !t.asleep && t.sup == s.sup && t.usr == s.usr
    && (forall q: ctlreg :: Steady(q) ==> ReadCtl(t, q) == ReadCtl(s, q))
  }

  lemma MovesTo(s: State, x: Inputs, w: word, next: word)
    requires Executes(s, x, w) && Meant(s, x) == Goto(next)
    ensures Moves(Step(s, x), s, next)
  {
    hide LinesValue, Pack, Decode, Meaning, Calm, Pending, Chosen, Deed;
    StepIs(s, x, w);
    CtlSame(s, Step(s, x));
  }

  lemma MeantGo(s: State, x: Inputs, w: word)
    requires s.mem[s.pc] == w && 0x0F <= w / 2048 <= 0x14
    ensures var op, r, next := w / 2048, R(s, w / 256 % 8), Wrap(s.pc + 1);
            var rel, near, far := Wrap(s.pc + Tail(w, 1024)), Wrap(s.pc + Tail(w, 128)), Wrap(r + Tail(w, 128));
            Meant(s, x) ==
            if op == 0x0F then Goto(rel)
            else if op == 0x10 then WriteReg(7, next, rel)
            else if op == 0x11 then Goto(if r == 0 then near else next)
            else if op == 0x12 then Goto(if r == 0 then next else near)
            else if op == 0x13 then Goto(far)
            else WriteReg(7, next, far)
  {
    hide LinesValue, Pack, R, Reg, Sext, Tail;
    LowSext(w);
    FetchedSame(s, x, w / 256 % 8);
  }

  lemma Branches(s: State, x: Inputs, w: word)
    requires Executes(s, x, w) && 0x0F <= w / 2048 <= 0x14
    ensures var op, r, t, next := w / 2048, R(s, w / 256 % 8), Step(s, x), (s.pc + 1) % 0x1_0000;
            var rel, near := (s.pc + Tail(w, 1024)) % 0x1_0000, (s.pc + Tail(w, 128)) % 0x1_0000;
            var far := (r + Tail(w, 128)) % 0x1_0000;
            && (op == 0x0F ==> Moves(t, s, rel))
            && (op == 0x10 ==> Sets(t, s, 7, next, rel))
            && (op == 0x11 ==> Moves(t, s, if r == 0 then near else next))
            && (op == 0x12 ==> Moves(t, s, if r != 0 then near else next))
            && (op == 0x13 ==> Moves(t, s, far))
            && (op == 0x14 ==> Sets(t, s, 7, next, far))
  {
    hide Step, Meant, R, Sets, Moves, Executes, Tail;
    AtPc(s, x, w);
    MeantGo(s, x, w);
    match Meant(s, x) {
      case Goto(next) => MovesTo(s, x, w, next);
      case WriteReg(d, v, next) => SetsRegister(s, x, w, d, v, next);
    }
  }
}
