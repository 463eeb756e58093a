/** Assembling and decoding an instruction undo each other, and what the machine
    executes depends on no other digits. */
module Codec {
  import opened Words
  import opened InstrTable
  import opened Decoder
  import opened Encoder
  import Isa

  /** What is left of the operands in their fields. */
  function Cut(op: nat, f: seq<int>): seq<int>
    requires |f| == 3
  {
    match ShapeOf(op)
    case RRR => [f[0] % 8, f[1] % 8, f[2] % 8]
    case RU4 => [f[0] % 8, f[1] % 16, 0]
    case RU8 => [f[0] % 8, f[1] % 256, 0]
    case NONE => [0, 0, 0]
    case S11 => [Sext(f[0], 2048), 0, 0]
    case RS8 => [f[0] % 8, Sext(f[1], 256), 0]
    case RRS5 => [f[0] % 8, f[1] % 8, Sext(f[2], 32)]
    case RCX => [f[0] % 8, f[1] % 8, f[2] % 32]
    case RC => [f[0] % 8, f[1] % 8, 0]
    case U11 => [f[0] % 2048, 0, 0]
    case RQ => [f[0] % 8, f[1] % 32, 0]
  }

  function Word3(op: nat, a: nat, b: nat, c: nat): nat { op * 2048 + a * 256 + b * 32 + c }

  lemma Pieces(op: nat, a: nat, b: nat, c: nat)
    requires op < 32 && a < 8 && b < 8 && c < 32
    ensures var w := Word3(op, a, b, c);
            w < 0x1_0000 && w / 2048 == op && w / 256 % 8 == a && w / 32 % 8 == b && w % 32 == c
            && w % 256 == b * 32 + c && w % 2048 == a * 256 + b * 32 + c
  {
    var w, u, v := Word3(op, a, b, c), op * 8 + a, op * 64 + a * 8 + b;
    DivModUnique(w, 2048, op, a * 256 + b * 32 + c);
    DivModUnique(w, 256, u, b * 32 + c);
    DivModUnique(u, 8, op, a);
    DivModUnique(w, 32, v, c);
    DivModUnique(v, 8, u, b);
  }

  lemma LowPieces(op: nat, a: nat, b: nat, d: nat, sub: nat)
    requires d < 8 && sub < 4
    ensures var w := Word3(op, a, b, d * 4 + sub);
            w / 4 % 8 == d && w / 4 % 16 == b % 2 * 8 + d && w % 4 == sub
  {
    var w, t := Word3(op, a, b, d * 4 + sub), op * 512 + a * 64 + b * 8 + d;
    DivModUnique(w, 4, t, sub);
    DivModUnique(t, 8, op * 64 + a * 8 + b, d);
    DivModUnique(t, 16, op * 32 + a * 4 + b / 2, b % 2 * 8 + d);
  }

  lemma SplitByte(y: nat)
    requires y < 256
    ensures y / 32 < 8 && y == y / 32 * 32 + y % 32
  {
  }

  lemma SextSame(x: int, y: int, m: nat)
    requires m > 0 && x % m == y % m
    ensures Sext(x, m) == Sext(y, m)
  {
  }

  /** The digits of a word, and its low parts as signed numbers. */
  datatype Digits = Digits(op: nat, d: nat, a: nat, n3: nat, n4: nat, sub: nat, low5: nat, low8: nat, low11: nat,
                           s5: int, s8: int, s11: int)

  function DigitsOf(w: word): Digits {
    Digits(w / 2048, w / 256 % 8, w / 32 % 8, w / 4 % 8, w / 4 % 16, w % 4, w % 32, w % 256, w % 2048,
           Sext(w, 32), Sext(w, 256), Sext(w, 2048))
  }

  function ByShape(g: Digits): Decoded {
    match ShapeOf(g.op)
    case RRR => Decoded(g.op, g.sub, g.d, g.a, g.n3)
    case RU4 => Decoded(g.op, g.sub, g.d, g.n4, 0)
    case RU8 => Decoded(g.op, 0, g.d, g.low8, 0)
    case NONE => Decoded(g.op, 0, 0, 0, 0)
    case S11 => Decoded(g.op, 0, g.s11, 0, 0)
    case RS8 => Decoded(g.op, 0, g.d, g.s8, 0)
    case RRS5 => Decoded(g.op, 0, g.d, g.a, g.s5)
    case RCX => Decoded(g.op, 0, g.d, g.a, g.low5)
    case RC => Decoded(g.op, 0, g.d, g.a, 0)
    case U11 => Decoded(g.op, 0, g.low11, 0, 0)
    case RQ => Decoded(g.op, 0, g.d, g.low5, 0)
  }

  lemma FieldsByShape(w: word)
    ensures Fields(w) == ByShape(DigitsOf(w))
  {
    hide Sext;
  }

  lemma JoinFields(op: nat, sub: nat, f: seq<int>)
    requires op < 32 && sub < 4 && |f| == 3 && (op > 3 ==> sub == 0)
    ensures var w, c := Join(op, sub, f[0], f[1], f[2]), Cut(op, f);
            w < 0x1_0000 && Fields(w) == Decoded(op, sub, c[0], c[1], c[2])
  {
    hide Fields, ShapeOf, Sext, Word3;
    var x, y, z := f[0], f[1], f[2];
    var w := Join(op, sub, x, y, z);
    ShapeOfSub(op);
    match ShapeOf(op) {
      case RRR => JoinRRR(op, sub, x % 8, y % 8, z % 8, w);
      case RU4 => JoinRU4(op, sub, x % 8, y % 16, w);
      case RU8 => JoinByte(op, x % 8, y % 256, w);
      case NONE => Join3(op, 0, 0, 0, w);
      case S11 => Eleven11(op, x % 2048); SextSame(w, x, 2048);
      case RS8 => JoinByte(op, x % 8, y % 256, w); SextSame(w, y, 256);
      case RRS5 => Join3(op, x % 8, y % 8, z % 32, w); SextSame(w, z, 32);
      case RCX => Join3(op, x % 8, y % 8, z % 32, w);
      case RC => Join3(op, x % 8, y % 8, 0, w);
      case U11 => Eleven11(op, x % 2048);
      case RQ => Join3(op, x % 8, 0, y % 32, w);
    }
    FieldsByShape(w);
  }

  lemma ShapeOfSub(op: nat)
    ensures op > 3 <==> ShapeOf(op) != RRR && ShapeOf(op) != RU4
  {
  }

  lemma Join3(op: nat, a: nat, b: nat, c: nat, w: nat)
    requires op < 32 && a < 8 && b < 8 && c < 32 && w == op * 2048 + a * 256 + b * 32 + c
    ensures w < 0x1_0000 && w / 2048 == op && w / 256 % 8 == a && w / 32 % 8 == b && w % 32 == c
  {
    Pieces(op, a, b, c);
  }

  lemma JoinByte(op: nat, a: nat, y: nat, w: nat)
    requires op < 32 && a < 8 && y < 256 && w == op * 2048 + a * 256 + y
    ensures w < 0x1_0000 && w / 2048 == op && w / 256 % 8 == a && w % 256 == y
  {
    SplitByte(y);
    Pieces(op, a, y / 32, y % 32);
  }

  lemma JoinRRR(op: nat, sub: nat, a: nat, b: nat, d: nat, w: nat)
    requires op < 32 && sub < 4 && a < 8 && b < 8 && d < 8
    requires w == op * 2048 + a * 256 + b * 32 + d * 4 + sub
    ensures w < 0x1_0000 && w / 2048 == op && w % 4 == sub
    ensures w / 256 % 8 == a && w / 32 % 8 == b && w / 4 % 8 == d
  {
    Pieces(op, a, b, d * 4 + sub);
    LowPieces(op, a, b, d, sub);
  }

  lemma JoinRU4(op: nat, sub: nat, a: nat, y: nat, w: nat)
    requires op < 32 && sub < 4 && a < 8 && y < 16 && w == op * 2048 + a * 256 + y * 4 + sub
    ensures w < 0x1_0000 && w / 2048 == op && w % 4 == sub && w / 256 % 8 == a && w / 4 % 16 == y
  {
    var b, d := y / 8, y % 8;
    assert y == b * 8 + d && b < 2;
    Pieces(op, a, b, d * 4 + sub);
    LowPieces(op, a, b, d, sub);
  }

  lemma Eleven11(op: nat, v: nat)
    requires op < 32 && v < 2048
    ensures var w := op * 2048 + v; w < 0x1_0000 && w / 2048 == op && w % 2048 == v
  {
    DivModUnique(op * 2048 + v, 2048, op, v);
  }

  /** Decoding an assembled instruction gives it back, each operand cut to its field. */
  lemma DecodeAssembled(i: nat, f: seq<int>)
    requires i < LEN && |f| == 3
    ensures var c := Cut(Entry(i).opcode, f);
            Fields(Encode(i, f)) == Decoded(Entry(i).opcode, Entry(i).subcode, c[0], c[1], c[2])
  {
    hide Entry, Fields, Join, Cut, Encode, Format, Syntax, ShapeOf;
    RegularAll(i);
    EncodeIsJoin(i, f);
    JoinFields(Entry(i).opcode, Entry(i).subcode, f);
  }

  lemma Peel(w: nat, m: nat, k: nat, mk: nat)
    requires m > 0 && k > 0 && mk == m * k
    ensures w % mk == w / m % k * m + w % m
  {
    var q := w / m;
    MulMono(q % k, k - 1, m);
    assert (k - 1) * m == mk - m;
    assert q / k * mk == q / k * k * m;
    assert q * m == (q / k * k + q % k) * m == q / k * k * m + q % k * m;
    DivModUnique(w, mk, q / k, q % k * m + w % m);
  }

  predicate Sound(g: Digits) {
    && g.d < 8 && g.a < 8 && g.n3 < 8 && g.n4 < 16 && g.sub < 4
    && g.low11 == g.d * 256 + g.low8 && g.low8 == g.a * 32 + g.low5 && g.low5 == g.n3 * 4 + g.sub
    && g.s5 % 32 == g.low5 && g.s8 % 256 == g.low8 && g.s11 % 2048 == g.low11
    && g.s5 == Sext(g.s5, 32) && g.s8 == Sext(g.s8, 256) && g.s11 == Sext(g.s11, 2048)
  }

  lemma SoundDigits(w: word)
    ensures Sound(DigitsOf(w))
  {
    hide Sext;
    Peel(w, 256, 8, 2048);
    Peel(w, 32, 8, 256);
    Peel(w, 4, 8, 32);
    SextMods(w, 2048);
    SextMods(w, 256);
    SextMods(w, 32);
    SextSame(Sext(w, 2048), w, 2048);
    SextSame(Sext(w, 256), w, 256);
    SextSame(Sext(w, 32), w, 32);
  }

  function CanonOf(g: Digits): int {
    g.op * 2048 +
    match ShapeOf(g.op)
    case RU4 => g.d * 256 + g.n4 * 4 + g.sub
    case NONE => 0
    case RC => g.d * 256 + g.a * 32
    case RQ => g.d * 256 + g.low5
    case _ => g.low11
  }

  lemma CanonByShape(w: word)
    ensures Canon(w) == CanonOf(DigitsOf(w))
  {
    hide Sext;
    Peel(w, 256, 8, 2048);
    Peel(w, 32, 8, 256);
    Peel(w, 64, 4, 256);
    Peel(w, 4, 16, 64);
    CanonCases(w, w / 2048, w % 2048, w / 256 % 8, w % 256, w / 32 % 8, w % 32, w / 64 % 4, w % 64, DigitsOf(w));
  }

  lemma CanonCases(w: word, op: nat, l11: nat, d: nat, l8: nat, a: nat, l5: nat, u: nat, l6: nat, g: Digits)
    requires op == w / 2048 && w == op * 2048 + l11 && l11 == d * 256 + l8 && l8 == a * 32 + l5
    requires u == w / 64 % 4 && a == w / 32 % 8 && l5 == w % 32 && l8 == u * 64 + l6 && l6 == g.n4 * 4 + g.sub
    requires g.op == op && g.d == d && g.a == a && g.low5 == l5 && g.low11 == l11
    ensures Canon(w) == CanonOf(g)
  {
  }

  lemma SextMods(x: int, m: nat)
    requires m > 0
    ensures Sext(x, m) % m == x % m
  {
    var r := x % m;
    if r < m / 2 {
      DivModUnique(r, m, 0, r);
    } else {
      DivModUnique(r - m, m, -1, r);
    }
  }

  function RowOf(w: word): nat { Row(Fields(w).opcode, Fields(w).subcode) }

  lemma RowInTable(w: word)
    ensures var d := Fields(w);
            d.opcode < 32 && d.subcode < 4 && (d.opcode > 3 ==> d.subcode == 0) && RowOf(w) < LEN
  {
    hide Sext;
  }

  predicate Reduced(g: Digits) {
    && g.d % 8 == g.d && g.a % 8 == g.a && g.n3 % 8 == g.n3 && g.n4 % 16 == g.n4
    && g.low5 % 32 == g.low5 && g.low8 % 256 == g.low8 && g.low11 % 2048 == g.low11
    && g.s5 % 32 == g.low5 && g.s8 % 256 == g.low8 && g.s11 % 2048 == g.low11
    && g.low11 == g.d * 256 + g.low8 && g.low8 == g.a * 32 + g.low5 && g.low5 == g.n3 * 4 + g.sub
    && g.s5 == Sext(g.s5, 32) && g.s8 == Sext(g.s8, 256) && g.s11 == Sext(g.s11, 2048)
  }

  lemma SoundReduced(g: Digits)
    requires Sound(g)
    ensures Reduced(g)
  {
    hide Sext;
    assert g.low5 < 32;
    assert g.low8 < 256;
    assert g.low11 < 2048;
  }

  lemma JoinDigits0(g: Digits)
    requires Reduced(g) && ShapeOf(g.op) in {RRR, RU4, RU8, NONE, S11}
    ensures var d := ByShape(g); Join(d.opcode, d.subcode, d.f0, d.f1, d.f2) == CanonOf(g)
    ensures var d := ByShape(g); Cut(d.opcode, Operands(d)) == Operands(d)
  {
    hide ShapeOf, Sext;
  }

  lemma JoinDigits1(g: Digits)
    requires Reduced(g) && ShapeOf(g.op) !in {RRR, RU4, RU8, NONE, S11}
    ensures var d := ByShape(g); Join(d.opcode, d.subcode, d.f0, d.f1, d.f2) == CanonOf(g)
    ensures var d := ByShape(g); Cut(d.opcode, Operands(d)) == Operands(d)
  {
    hide ShapeOf, Sext;
  }

  lemma JoinDigits(g: Digits)
    requires Sound(g)
    ensures var d := ByShape(g); Join(d.opcode, d.subcode, d.f0, d.f1, d.f2) == CanonOf(g)
    ensures var d := ByShape(g); Cut(d.opcode, Operands(d)) == Operands(d)
  {
    hide ShapeOf, ByShape, Join, CanonOf, Cut, Sound, Reduced, Operands;
    SoundReduced(g);
    if ShapeOf(g.op) in {RRR, RU4, RU8, NONE, S11} { JoinDigits0(g); } else { JoinDigits1(g); }
  }

  lemma JoinOfFields(w: word)
    ensures var d := Fields(w); Join(d.opcode, d.subcode, d.f0, d.f1, d.f2) == Canon(w)
    ensures var d := Fields(w); Cut(d.opcode, Operands(d)) == Operands(d)
  {
    hide *;
    FieldsByShape(w);
    SoundDigits(w);
    CanonByShape(w);
    JoinDigits(DigitsOf(w));
  }

  /** Assembling what a word decodes to gives the word, its blank digits zeroed. */
  lemma AssembleDecoded(w: word)
    ensures RowOf(w) < LEN && Encode(RowOf(w), Operands(Fields(w))) == Canon(w)
  {
    hide Entry, Fields, Join, Canon, Encode, Format, Syntax, ShapeOf;
    RowInTable(w);
    RegularAll(RowOf(w));
    EncodeIsJoin(RowOf(w), Operands(Fields(w)));
    JoinOfFields(w);
  }

  lemma FieldsDecide0(v: word, w: word)
    requires Fields(v) == Fields(w) && w / 2048 <= 3
    ensures Isa.Decode(v) == Isa.Decode(w)
  {
    hide Sext;
  }

  lemma FieldsDecide1(v: word, w: word)
    requires Fields(v) == Fields(w) && 4 <= w / 2048 <= 13
    ensures Isa.Decode(v) == Isa.Decode(w)
  {
    hide Sext;
  }

  lemma FieldsDecide2(v: word, w: word)
    requires Fields(v) == Fields(w) && 14 <= w / 2048 <= 22
    ensures Isa.Decode(v) == Isa.Decode(w)
  {
    hide Sext;
  }

  lemma FieldsDecide3(v: word, w: word)
    requires Fields(v) == Fields(w) && 23 <= w / 2048
    ensures Isa.Decode(v) == Isa.Decode(w)
  {
    hide Sext;
  }

  /** The machine looks at nothing but the fields. */
  lemma FieldsDecide(v: word, w: word)
    requires Fields(v) == Fields(w)
    ensures Isa.Decode(v) == Isa.Decode(w)
  {
    hide Fields, Isa.Decode;
    var op := w / 2048;
    if op <= 3 { FieldsDecide0(v, w); }
    else if op <= 13 { FieldsDecide1(v, w); }
    else if op <= 22 { FieldsDecide2(v, w); }
    else { FieldsDecide3(v, w); }
  }

  /** The blank digits mean nothing: a word and its canonical form are one instruction. */
  lemma BlanksMeanNothing(w: word)
    ensures Isa.Decode(Canon(w)) == Isa.Decode(w) && Canon(Canon(w)) == Canon(w)
  {
    hide Entry, Fields, Canon, Encode, Cut, Format, Syntax, ShapeOf, Isa.Decode, Join;
    RowInTable(w);
    var d := Fields(w);
    JoinOfFields(w);
    JoinFields(d.opcode, d.subcode, Operands(d));
    FieldsDecide(Canon(w), w);
    JoinOfFields(Canon(w));
  }

  lemma ModTwice(x: int, m: nat)
    requires m > 0
    ensures x % m % m == x % m
  {
    DivModUnique(x % m, m, 0, x % m);
  }

  /** What is cut off an operand never was in the word. */
  lemma CutJoins(op: nat, sub: nat, f: seq<int>)
    requires |f| == 3
    ensures var c := Cut(op, f); Join(op, sub, c[0], c[1], c[2]) == Join(op, sub, f[0], f[1], f[2])
  {
    hide ShapeOf, Sext;
    var x, y, z := f[0], f[1], f[2];
    SextMods(x, 2048);
    SextMods(y, 256);
    SextMods(z, 32);
    ModTwice(x, 8);
    ModTwice(y, 8);
    ModTwice(z, 8);
    ModTwice(y, 16);
    ModTwice(y, 256);
    ModTwice(z, 32);
    ModTwice(x, 2048);
    ModTwice(y, 32);
  }

  /** The assembler only makes canonical words. */
  lemma AssembledIsCanonical(i: nat, f: seq<int>)
    requires i < LEN && |f| == 3
    ensures Canon(Encode(i, f)) == Encode(i, f)
  {
    hide Entry, Fields, Join, Cut, Encode, Canon, Format, Syntax, ShapeOf, Operands;
    var e := Entry(i);
    DecodeAssembled(i, f);
    JoinOfFields(Encode(i, f));
    CutJoins(e.opcode, e.subcode, f);
    EncodeIsJoin(i, f);
  }
}
