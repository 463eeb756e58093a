/** The simulator's arithmetic unit and its bit-field macros, with what each amounts to. */
module Alu {
  import opened Words
  import opened Isa

  datatype AluOp =
    | ALU_OP_OR
    | ALU_OP_NAND
    | ALU_OP_AND
    | ALU_OP_XOR
    | ALU_OP_ADD
    | ALU_OP_SUB
    | ALU_OP_ADDC
    | ALU_OP_SUBC
    | ALU_OP_SHL
    | ALU_OP_SHR
    | ALU_OP_SHRA
    | ALU_OP_ROT
    | ALU_OP_SHL8OR

  function Uint32(x: int): nat { x % 0x1_0000_0000 }

  /** `wide` stands for a shift by 32 or more, which C leaves undefined. */
  function AluExec(op: AluOp, arg0: word, arg1: word, wide: word): word {
    match op
    case ALU_OP_OR => Wrap(Bits(OR, arg0, arg1))
    case ALU_OP_NAND => Wrap(-1 - Bits(AND, arg0, arg1))
    case ALU_OP_AND => Wrap(Bits(AND, arg0, arg1))
    case ALU_OP_XOR => Wrap(Bits(XOR, arg0, arg1))
    case ALU_OP_ADD => Wrap(arg0 + arg1)
    case ALU_OP_SUB => Wrap(arg0 - arg1)
    case ALU_OP_ADDC => if Uint32(arg0 + arg1) > 0xFFFF then 1 else 0
    case ALU_OP_SUBC => if Uint32(arg0 - arg1) > 0xFFFF then 1 else 0
    case ALU_OP_SHL => if arg1 >= 32 then wide else Wrap(Shl(arg0, arg1))
    case ALU_OP_SHR => if arg1 >= 32 then wide else Wrap(Shr(arg0, arg1))
    case ALU_OP_SHRA => if arg1 >= 32 then wide else Wrap(Sar(Sext(arg0, 0x1_0000), arg1))
    case ALU_OP_ROT => RotExec(arg0, arg1)
    case ALU_OP_SHL8OR =>
      Wrap(Bits(OR, Shl(Bits(AND, arg0, 0xFF), 8), Bits(AND, arg1, 0xFF)))
  }

  function RotExec(arg0: word, arg1: word): word {
    var k := Bits(AND, arg1, 0xF);
    if k > 16 then 0 else Wrap(Bits(OR, Shl(arg0, k), Shr(arg0, 16 - k)))
  }

  function OpOf(b: BinOp): AluOp {
    match b
    case Or => ALU_OP_OR case Nand => ALU_OP_NAND case And => ALU_OP_AND case Xor => ALU_OP_XOR
    case Add => ALU_OP_ADD case Sub => ALU_OP_SUB case AddC => ALU_OP_ADDC case SubC => ALU_OP_SUBC
    case ShiftL => ALU_OP_SHL case ShiftR => ALU_OP_SHR case ShiftRA => ALU_OP_SHRA
    case Rotate => ALU_OP_ROT
  }

  lemma AluIsCompute(b: BinOp, x: word, y: word, wide: word)
    ensures AluExec(OpOf(b), x, y, wide) == Compute(b, x, y, wide)
  {
    hide Bits, Shl, Shr, Sar, RotExec, RotateLeft, Pow2;
    match b {
      case Or => BoundWord(OR, x, y);
      case Nand => BoundWord(AND, x, y);
      case And => BoundWord(AND, x, y);
      case Xor => BoundWord(XOR, x, y);
      case ShiftL => ShlIsMul(x, y);
      case ShiftR => ShrIsDiv(x, y);
      case ShiftRA => SarIsDiv(Sext(x, 0x1_0000), y);
      case Rotate => RotIsRotate(x, y);
      case _ =>
    }
  }

  lemma BoundWord(g: Gate, x: word, y: word)
    ensures Bits(g, x, y) <= 0xFFFF
  {
    Pow2Values();
    BitsBound(g, x, y, 16);
  }

  // ----- rotation -----

  lemma RotIsRotate(x: word, y: word)
    ensures RotExec(x, y) == RotateLeft(x, y % 16)
  {
    hide Bits, Shl, Shr, Low, RotateLeft, Pow2;
    var k := y % 16;
    LowNibble(y);
    RotBits(x, k);
    PowersOf16(k);
    ScaleSplit(x, Pow2(k), Pow2(16 - k));
    RotateIsFold(x, k);
    FoldSum(x * Pow2(k), x / Pow2(16 - k));
  }

  lemma LowNibble(y: word)
    ensures Bits(AND, y, 0xF) == y % 16
  {
    Pow2Values();
    Slice(y, 0, 4, 1, 16);
  }

  lemma RotBits(x: word, k: nat)
    requires k <= 16
    ensures Bits(OR, Shl(x, k), Shr(x, 16 - k)) == x * Pow2(k) + x / Pow2(16 - k)
  {
    hide Bits, Shl, Shr, Low, Pow2;
    Pow2Values();
    ShrBound(x, 16 - k, 16);
    OrIsSum(x, Shr(x, 16 - k), k);
    ShlIsMul(x, k);
    ShrIsDiv(x, 16 - k);
  }

  /** The digits a left shift pushes out of a word come back in at the bottom. */
  function Fold(s: nat): nat { s % 0x1_0000 + s / 0x1_0000 }

  lemma FoldSum(s: nat, q: nat)
    requires s / 0x1_0000 == q && Fold(s) < 0x1_0000
    ensures Wrap(s + q) == Fold(s)
  {
  }

  lemma PowersOf16(k: nat)
    requires k <= 16
    ensures Pow2(k) * Pow2(16 - k) == 0x1_0000
  {
    Pow2Add(k, 16 - k);
    Pow2Values();
  }

  lemma ScaleSplit(l: nat, p: nat, q: nat)
    requires p * q == 0x1_0000
    ensures q > 0 && p > 0
    ensures l * p == l / q * 0x1_0000 + l % q * p && l % q * p <= 0x1_0000 - p
    ensures l * p / 0x1_0000 == l / q && l * p % 0x1_0000 == l % q * p
  {
    assert q > 0 && p > 0;
    var a, b := l / q, l % q;
    assert l * p == (a * q + b) * p == a * (p * q) + b * p;
    MulMono(b, q - 1, p);
    assert (q - 1) * p == p * q - p;
    DivModUnique(l * p, 0x1_0000, a, b * p);
  }

  lemma {:induction false} RotateIsFold(x: word, k: nat)
    requires k <= 16
    ensures RotateLeft(x, k) == Fold(x * Pow2(k))
    decreases k
  {
    if k > 0 {
      hide Fold, RotateOnce, Pow2;
      RotateIsFold(RotateOnce(x), k - 1);
      RotateStep(x, k);
    }
  }

  lemma RotateStep(x: word, k: nat)
    requires 0 < k <= 16
    ensures Fold(RotateOnce(x) * Pow2(k - 1)) == Fold(x * Pow2(k))
  {
    hide Fold;
    var h, l := x / 0x8000, x % 0x8000;
    PowersOf16(k);
    FoldTopDigit(h, l, Pow2(k - 1), Pow2(16 - k));
  }

  /** Shifting after a rotation by one folds like shifting one further. */
  lemma FoldTopDigit(h: nat, l: nat, p: nat, q: nat)
    requires h <= 1 && (2 * p) * q == 0x1_0000
    ensures Fold((h * 0x8000 + l) * (2 * p)) == Fold((2 * l + h) * p)
  {
    ScaleSplit(l, 2 * p, q);
    var a, b := l / q, l % q * (2 * p);
    assert h * p <= p by { MulMono(h, 1, p); }
    assert (h * 0x8000 + l) * (2 * p) == (h * p + a) * 0x1_0000 + b;
    DivModUnique((h * 0x8000 + l) * (2 * p), 0x1_0000, h * p + a, b);
    assert (2 * l + h) * p == a * 0x1_0000 + (b + h * p);
    DivModUnique((2 * l + h) * p, 0x1_0000, a, b + h * p);
  }

  // ----- operands of the immediate instructions -----

  lemma BitsByte(g: Gate, x: nat, y: nat)
    ensures Bits(g, x, y) == Bits(g, x / 256, y / 256) * 256 + Bits(g, x % 256, y % 256)
  {
    Pow2Values();
    BitsSplit(g, x, y, 8);
    ShrIsDiv(x, 8);
    ShrIsDiv(y, 8);
    ShlIsMul(Bits(g, x / 256, y / 256), 8);
  }

  lemma AndByte(x: nat)
    requires x < 256
    ensures Bits(AND, x, 0xFF) == x && Bits(AND, 0xFF, x) == x
  {
    Pow2Values();
    OnesPow2(8);
    MaskAll(x, 8);
    BitsSym(AND, x, 0xFF);
  }

  lemma {:induction false} BitsSym(g: Gate, x: nat, y: nat)
    ensures Bits(g, x, y) == Bits(g, y, x)
    decreases x + y
  {
    if x > 0 || y > 0 { BitsSym(g, x / 2, y / 2); }
  }

  lemma LowImmediate(g: Gate, x: word, v: word)
    requires v < 256 && g != AND
    ensures Bits(g, x, v) == OnLowByte(g, x, v)
  {
    BitsByte(g, x, v);
    BitsZero(x / 256);
  }

  lemma LowMask(x: word, v: word)
    requires v < 256
    ensures Bits(AND, x, v + 0xFF00) == OnLowByte(AND, x, v)
  {
    DivModUnique(v + 0xFF00, 256, 0xFF, v);
    BitsByte(AND, x, v + 0xFF00);
    AndByte(x / 256);
  }

  lemma HighImmediate(g: Gate, x: word, v: word)
    requires v < 256 && g != AND
    ensures Bits(g, x, v * 256) == OnHighByte(g, x, v)
  {
    DivModUnique(v * 256, 256, v, 0);
    BitsByte(g, x, v * 256);
    BitsZero(x % 256);
  }

  lemma HighMask(x: word, v: word)
    requires v < 256
    ensures Bits(AND, x, v * 256 + 0xFF) == OnHighByte(AND, x, v)
  {
    hide Bits;
    DivModUnique(v * 256 + 0xFF, 256, v, 0xFF);
    BitsByte(AND, x, v * 256 + 0xFF);
    AndByte(x % 256);
  }

  /** The operands as the simulator builds them, with ors. */
  lemma Operands(v: word)
    requires v < 256
    ensures Bits(OR, v, 0xFF00) == v + 0xFF00 && Shl(v, 8) == v * 256
    ensures Bits(OR, v * 256, 0xFF) == v * 256 + 0xFF
  {
    Pow2Values();
    ShlIsMul(v, 8);
    ShlIsMul(0xFF, 8);
    OrIsSum(v, 0xFF, 8);
    OrIsSum(0xFF, v, 8);
    BitsSym(OR, v, 0xFF00);
  }

  lemma ShiftInImmediate(x: word, v: word)
    requires v < 256
    ensures AluExec(ALU_OP_SHL8OR, x, v, 0) == Wrap(x * 256 + v)
  {
    hide Bits, Shl, Pow2;
    Pow2Values();
    MaskLow(x, 8);
    ShrIsDiv(x, 8);
    OnesPow2(8);
    AndByte(v);
    ShiftOr(x % 256, v, 8);
  }

  lemma ShiftOr(x: nat, y: nat, k: nat)
    requires y < Pow2(k)
    ensures Bits(OR, Shl(x, k), y) == x * Pow2(k) + y
  {
    OrIsSum(x, y, k);
    ShlIsMul(x, k);
  }

  // ----- the status macros -----

  function GetBit(stat: word, k: nat): nat { Bits(AND, Shr(stat, k), 1) }

  /** ((stat & mask) | ((val & 1) << k)) with the mask that clears digit k. */
  function SetBit(stat: word, k: nat, val: bool): word
    requires k < 16
  {
    Wrap(Bits(OR, Bits(AND, stat, OnesBut(k, 16)), Shl(if val then 1 else 0, k)))
  }

  lemma GetBitValue(stat: word, k: nat, p: nat, h: nat, b: nat, l: nat)
    requires p == Pow2(k)
    requires stat == (2 * h + b) * p + l && b <= 1 && l < p
    ensures GetBit(stat, k) == b
  {
    hide Bits, Shl, Shr, Pow2;
    TestDigit(stat, k);
    ShrIsDiv(stat, k);
    DivModUnique(stat, p, 2 * h + b, l);
  }

  /** Around digit b of weight p, the digits above and below stay. */
  lemma SetBitValue(stat: word, k: nat, val: bool, p: nat, h: nat, b: nat, l: nat)
    requires k < 16 && p == Pow2(k)
    requires stat == (2 * h + b) * p + l && b <= 1 && l < p
    ensures SetBit(stat, k, val) == Wrap((2 * h + Weigh(val, 1)) * p + l)
  {
    hide SetBit, Pow2;
    SetBitAt(stat, k, val, p, h, 2 * h + b, l);
  }

  lemma SetBitAt(stat: word, k: nat, val: bool, p: nat, h: nat, q: nat, l: nat)
    requires k < 16 && p == Pow2(k) && q / 2 == h && stat == q * p + l && l < p
    ensures SetBit(stat, k, val) == Wrap((2 * h + Weigh(val, 1)) * p + l)
  {
    hide Bits, Shl, Shr, Low, OnesBut, Pow2;
    var v := if val then 1 else 0;
    Pow2Values();
    DigitsOf(stat, k, q, l);
    SetDigit(stat, k, 16, v);
    ShlIsMul(2 * h + v, k);
  }

  lemma BitValues(stat: word, k: nat, val: bool, p: nat, h: nat, b: nat, l: nat)
    requires k < 16 && p == Pow2(k)
    requires stat == (2 * h + b) * p + l && b <= 1 && l < p && (2 * h + 1) * p + l < 0x1_0000
    ensures GetBit(stat, k) == b
    ensures SetBit(stat, k, val) == (2 * h + Weigh(val, 1)) * p + l
  {
    hide Bits, Shl, Shr, GetBit, SetBit, Pow2;
    MulMono(2 * h + Weigh(val, 1), 2 * h + 1, p);
    GetBitValue(stat, k, p, h, b, l);
    SetBitValue(stat, k, val, p, h, b, l);
  }

  lemma DigitsOf(x: nat, k: nat, q: nat, l: nat)
    requires x == q * Pow2(k) + l && l < Pow2(k)
    ensures Shr(x, k + 1) == q / 2 && Low(x, k) == l
  {
    hide Shl, Shr, Low, Pow2;
    ShlIsMul(q, k);
    ShlShr(q, k, l);
    ShrHalf(x, k);
  }
}
