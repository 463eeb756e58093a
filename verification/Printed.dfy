/** What the disassembler prints, by the digits of the word. */
module Printed {
  import opened Words
  import opened Tokens
  import opened InstrTable
  import opened Decoder
  import opened Manual
  import opened Mnemonics
  import Codec
  import Encoder
  import Numbers
  import Printer
  import Text

  function Shown(letter: string, n: nat): string { letter + Numbers.Numeral(n, 10, false) }

  function ShownSigned(n: int): string {
    if n < 0 then "#-" + Numbers.Numeral(-n, 10, false) else "#" + Numbers.Numeral(n, 10, false)
  }

  lemma ShownBy(letter: char, bits: nat, n: nat)
    requires letter != 's' && n < 0x1_0000_0000
    ensures Printer.Shown(Printer.Kind(letter, bits), n) == Shown(if letter == 'u' then "#" else [letter], n)
  {
    hide Text.PrintU, Numbers.Numeral;
    Numbers.PrintedIsNumeral(n);
  }

  lemma ShownSignedBy(bits: nat, n: int)
    ensures Printer.Shown(Printer.Kind('s', bits), n) == ShownSigned(n)
  {
    hide Text.PrintU, Numbers.Numeral;
    Numbers.PrintedIsNumeral(if n < 0 then -n else n);
  }

  lemma TextsOne(a: Printer.Kind, f: seq<int>)
    requires |f| >= 1
    ensures Joined(Printer.Texts([a], f)) == Printer.Shown(a, f[0])
  {
    hide Printer.Shown;
    assert [a][1..] == [];
  }

  lemma TextsTwo(a: Printer.Kind, b: Printer.Kind, f: seq<int>)
    requires |f| >= 2
    ensures Joined(Printer.Texts([a, b], f)) == Printer.Shown(a, f[0]) + ", " + Printer.Shown(b, f[1])
  {
    hide Printer.Shown, Joined;
    Printer.TextsStep([a, b], f);
    assert [a, b][1..] == [b];
    TextsOne(b, f[1..]);
  }

  lemma TextsThree(a: Printer.Kind, b: Printer.Kind, c: Printer.Kind, f: seq<int>)
    requires |f| >= 3
    ensures Joined(Printer.Texts([a, b, c], f)) ==
            Printer.Shown(a, f[0]) + ", " + Printer.Shown(b, f[1]) + ", " + Printer.Shown(c, f[2])
  {
    hide Printer.Shown, Joined;
    Printer.TextsStep([a, b, c], f);
    assert [a, b, c][1..] == [b, c];
    TextsTwo(b, c, f[1..]);
    var s := Printer.Shown(b, f[1]) + ", " + Printer.Shown(c, f[2]);
    assert Printer.Shown(a, f[0]) + ", " + s ==
        Printer.Shown(a, f[0]) + ", " + Printer.Shown(b, f[1]) + ", " + Printer.Shown(c, f[2]);
  }

  /** The operands that the disassembler prints, by the digits of the word. */
  function PrintedOperands(w: word): string {
    var op, d, a := w / 2048, Shown("r", w / 256 % 8), w / 32 % 8;
    if op <= 2 then d + ", " + Shown("r", a) + ", " + Shown("r", w / 4 % 8)
    else if op == 3 then d + ", " + Shown("#", w / 4 % 16)
    else if op <= 13 then d + ", " + Shown("#", w % 256)
    else if op == 14 || op == 29 then ""
    else if op <= 16 then ShownSigned(Tail(w, 1024))
    else if op <= 20 then d + ", " + ShownSigned(Tail(w, 128))
    else if op <= 24 then d + ", " + Shown("r", a) + ", " + ShownSigned(Tail(w, 16))
    else if op <= 26 then d + ", " + Shown("c", a) + ", " + Shown("x", w % 32)
    else if op == 27 then d + ", " + Shown("c", a)
    else if op == 28 then Shown("#", w % 2048)
    else d + ", " + Shown("q", w % 32)
  }

  lemma PrintedText(w: word)
    ensures Joined(Printer.Arguments(w)) == PrintedOperands(w)
  {
    hide Joined, Fields, Printer.Shown, Printer.Texts, Shown, ShownSigned, Tail;
    var f := Encoder.Operands(Fields(w));
    FieldDigits(w);
    match ShapeOf(w / 2048)
    case RRR =>
      TextsThree(Printer.Kind('r', 0), Printer.Kind('r', 0), Printer.Kind('r', 0), f);
      ShownBy('r', 0, f[0]);
      ShownBy('r', 0, f[1]);
      ShownBy('r', 0, f[2]);
    case RU4 =>
      TextsTwo(Printer.Kind('r', 0), Printer.Kind('u', 4), f);
      ShownBy('r', 0, f[0]);
      ShownBy('u', 4, f[1]);
    case RU8 =>
      TextsTwo(Printer.Kind('r', 0), Printer.Kind('u', 8), f);
      ShownBy('r', 0, f[0]);
      ShownBy('u', 8, f[1]);
    case NONE => NoTexts(f);
    case S11 =>
      TextsOne(Printer.Kind('s', 11), f);
      ShownSignedBy(11, f[0]);
    case RS8 =>
      TextsTwo(Printer.Kind('r', 0), Printer.Kind('s', 8), f);
      ShownBy('r', 0, f[0]);
      ShownSignedBy(8, f[1]);
    case RRS5 =>
      TextsThree(Printer.Kind('r', 0), Printer.Kind('r', 0), Printer.Kind('s', 5), f);
      ShownBy('r', 0, f[0]);
      ShownBy('r', 0, f[1]);
      ShownSignedBy(5, f[2]);
    case RCX =>
      TextsThree(Printer.Kind('r', 0), Printer.Kind('c', 0), Printer.Kind('x', 0), f);
      ShownBy('r', 0, f[0]);
      ShownBy('c', 0, f[1]);
      ShownBy('x', 0, f[2]);
    case RC =>
      TextsTwo(Printer.Kind('r', 0), Printer.Kind('c', 0), f);
      ShownBy('r', 0, f[0]);
      ShownBy('c', 0, f[1]);
    case U11 =>
      TextsOne(Printer.Kind('u', 11), f);
      ShownBy('u', 11, f[0]);
    case RQ =>
      TextsTwo(Printer.Kind('r', 0), Printer.Kind('q', 0), f);
      ShownBy('r', 0, f[0]);
      ShownBy('q', 0, f[1]);
  }

  lemma NoTexts(f: seq<int>)
    ensures Joined(Printer.Texts([], f)) == ""
  {
  }

  /** The name that goes with a code, and with a subcode among the first four. */
  function NameOf(op: nat, sub: nat): string {
    if op == 0 then
      if sub == 0 then "or" else if sub == 1 then "nand" else if sub == 2 then "and" else "xor"
    else if op == 1 then
      if sub == 0 then "add" else if sub == 1 then "sub" else if sub == 2 then "addc" else "subc"
    else if op == 2 then
      if sub == 0 then "shl" else if sub == 1 then "shr" else if sub == 2 then "shra" else "rot"
    else if op == 3 then
      if sub == 0 then "shli" else if sub == 1 then "shri" else if sub == 2 then "shrai" else "roti"
    else match op
      case 4 => "li" case 5 => "shlli" case 6 => "inci" case 7 => "deci"
      case 8 => "ori" case 9 => "andi" case 10 => "xori" case 11 => "orih"
      case 12 => "andih" case 13 => "xorih" case 14 => "sleep" case 15 => "ba"
      case 16 => "bal" case 17 => "bz" case 18 => "bnz" case 19 => "jr"
      case 20 => "jlr" case 21 => "ll" case 22 => "ldw" case 23 => "stw"
      case 24 => "sc" case 25 => "mfcp" case 26 => "mtcp" case 27 => "cpop"
      case 28 => "int" case 29 => "rfi" case 30 => "mfctl" case 31 => "mtctl"
      case _ => ""
  }

  lemma RowByNumber(w: word)
    ensures Printer.Row(w) == if w / 2048 <= 3 then 4 * (w / 2048) + w % 4 else w / 2048 + 12
  {
    hide Fields;
    FieldDigits(w);
    Codec.RowInTable(w);
  }

  lemma NamedByNumber(k: nat)
    requires k < LEN
    ensures Entry(k).nmemonic == if k < 16 then NameOf(k / 4, k % 4) else NameOf(k - 12, 0)
  {
    hide Entry;
    if k < 4 { LogicRows(); } else if k < 8 { SumRows(); } else if k < 12 { ShiftRows(); }
    else if k < 16 { ShiftByRows(); } else if k < 20 { ByteRows(); } else if k < 23 { LowRows(); }
    else if k < 26 { HighRows(); } else if k < 33 { JumpRows(); } else if k < 37 { MemoryRows(); }
    else if k < 40 { CoprocessorRows(); } else { SystemRows(); }
  }

  /** What the disassembler prints: the name that goes with the number, and the operands by the digits. */
  lemma PrintedLine(w: word)
    ensures Printer.Line(w) == NameOf(w / 2048, w % 4) + " " + PrintedOperands(w)
  {
    hide Entry, PrintedOperands, Printer.Row, Joined, Printer.Arguments;
    RowByNumber(w);
    NamedByNumber(Printer.Row(w));
    PrintedText(w);
  }
}
