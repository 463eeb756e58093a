/** Every name of the assembler, executed: an accepted line with that name, in memory and at pc, does what
    the name says. */
module Mnemonics {
  import opened Words
  import opened Tokens
  import opened Labels
  import opened Assembler
  import opened InstrTable
  import opened Decoder
  import opened TwoPasses
  import opened Landing
  import opened Manual
  import opened Accesses
  import opened Handlers
  import Cycles
  import Codec
  import Isa
  import Printer
  import RoundTrip
  import Text

  // ----- names in any case -----

  /** The same letter, small or large. */
  predicate SameLetter(c: char, small: char) {
    c == small || ('a' <= small <= 'z' && c as int == small as int - 32)
  }

  lemma LowerBy(c: char, small: char)
    requires 'a' <= small <= 'z'
    ensures Lower(c) == Lower(small) <==> SameLetter(c, small)
  {
  }

  /** A text passes for a name of small letters exactly when it is that name, letter by letter, in small or
      large letters. */
  lemma AnyCase(op: string, name: string)
    requires forall j :: 0 <= j < |name| ==> 'a' <= name[j] <= 'z'
    ensures SameName(op, name) <==> |op| == |name| && forall j :: 0 <= j < |op| ==> SameLetter(op[j], name[j])
  {
    hide Lower, SameLetter;
    var a, b := LowerAll(op), LowerAll(name);
    forall j | 0 <= j < |op| && |op| == |name| ensures a[j] == b[j] <==> SameLetter(op[j], name[j]) {
      LowerBy(op[j], name[j]);
    }
    if SameName(op, name) {
      forall j | 0 <= j < |op| ensures SameLetter(op[j], name[j]) {
        assert a[j] == b[j];
      }
    }
  }

  // ----- from a line to the digits of its word -----

  lemma NotDirective(op: string, k: nat)
    requires k < LEN && SameName(op, Entry(k).nmemonic)
    ensures op != ".data"
  {
    hide Entry;
    Spelled(k);
    var n := Entry(k).nmemonic;
    assert LowerAll(n)[0] == Lower(n[0]) == n[0];
    assert LowerAll(".data")[0] == Lower(".data"[0]) == '.';
  }

  /** The line executes, and its word holds the code of the name and the values of the operands. */
  lemma LineRuns(ss: seq<Statement>, buf: Image, i: nat, s: Isa.State, x: Isa.Inputs, k: nat)
    requires AtLine(ss, buf, i, s, x) && k < LEN && SameName(ss[i].op.value, Entry(k).nmemonic)
    ensures var r := Values(Printer.KindsOf(ShapeOf(Entry(k).opcode)), ss[i].args, s.pc, Declarations(ss, 0));
            Executes(s, x, s.mem[s.pc]) && r.Some? && |r.value| <= 3 && Holds(s.mem[s.pc], k, r.value)
  {
    hide Entry, SameName, Values, Printer.Kinds, Printer.KindsOf, ShapeOf, Declarations, Instruction, Holds;
    hide Assembled, LastThere, Isa.Pending, Isa.Fetched, Calm, Loaded;
    LineAtPc(ss, buf, i, s, x);
    NotDirective(ss[i].op.value, k);
    NonePendingIsCalm(s, x);
    LineFields(ss[i].op.value, k, ss[i].args, s.pc, Declarations(ss, 0), s.mem[s.pc]);
    AtMostThree(k);
  }

  lemma ThreeValues(a: Printer.Kind, b: Printer.Kind, c: Printer.Kind, args: seq<string>, offset: int,
                    labels: seq<LabelDec>)
    requires Values([a, b, c], args, offset, labels).Some?
    ensures |args| >= 3 && Value(a, args[0], offset, labels).Some? && Value(b, args[1], offset, labels).Some?
    ensures Value(c, args[2], offset, labels).Some?
    ensures Values([a, b, c], args, offset, labels) ==
            Some([Value(a, args[0], offset, labels).value, Value(b, args[1], offset, labels).value,
                  Value(c, args[2], offset, labels).value])
  {
    hide Value;
    assert [a, b, c][1..] == [b, c];
    TwoValues(b, c, args[1..], offset, labels);
    var v, u, t := Value(a, args[0], offset, labels).value, Value(b, args[1], offset, labels).value,
      Value(c, args[2], offset, labels).value;
    assert [v] + [u, t] == [v, u, t];
  }

  /** The operand has the value n at this line: a number, or a label by the rules of the letter. */
  predicate Gives(letter: char, bits: nat, arg: string, ss: seq<Statement>, s: Isa.State, n: int) {
    Value(Printer.Kind(letter, bits), arg, s.pc, Declarations(ss, 0)) == Some(n)
  }

  /** A coprocessor, one of its registers or a control register, whatever its number is written like. */
  predicate Called(letter: char, arg: string, ss: seq<Statement>, s: Isa.State, n: nat)
    requires letter in {'c', 'x', 'q'}
  {
    var v := Value(Printer.Kind(letter, 0), arg, s.pc, Declarations(ss, 0));
    v.Some? && v.value % (if letter == 'c' then 8 else 32) == n
  }

  lemma NamesHere(arg: string, ss: seq<Statement>, s: Isa.State, n: nat)
    requires Names(arg, n)
    ensures var v := Value(Printer.Kind('r', 0), arg, s.pc, Declarations(ss, 0)); v.Some? && v.value % 8 == n
  {
    hide Value;
    NamesAnywhere(arg, s.pc, Declarations(ss, 0));
  }

  lemma SignedRange(bits: nat, arg: string, offset: int, labels: seq<LabelDec>)
    requires bits in {5, 8, 11} && Value(Printer.Kind('s', bits), arg, offset, labels).Some?
    ensures var v := Value(Printer.Kind('s', bits), arg, offset, labels).value;
            && (bits == 5 ==> Sext(v, 32) == v) && (bits == 8 ==> Sext(v, 256) == v)
            && (bits == 11 ==> Sext(v, 2048) == v)
  {
    hide Sext, Text.ReadInt, Distance, Offset, Pow2;
    var v := Value(Printer.Kind('s', bits), arg, offset, labels).value;
    RoundTrip.RegisterLetters();
    assert Pow2(4) == 16 && Pow2(7) == 128 && Pow2(10) == 1024 by { SmallPowers(); }
    if bits == 5 { SextFits(v, 32); } else if bits == 8 { SextFits(v, 256); } else { SextFits(v, 2048); }
  }

  lemma SmallPowers()
    ensures Pow2(4) == 16 && Pow2(7) == 128 && Pow2(10) == 1024
  {
    Pow2Values();
    assert Pow2(8) == 2 * Pow2(7) && Pow2(11) == 2 * Pow2(10);
  }

  // ----- the digits, shape by shape -----

  lemma FieldDigits(w: word)
    ensures var d, op := Fields(w), w / 2048;
            && d.opcode == op
            && (op <= 3 ==> d.subcode == w % 4 && d.f0 == w / 256 % 8)
            && (op <= 2 ==> d.f1 == w / 32 % 8 && d.f2 == w / 4 % 8)
            && (op == 3 ==> d.f1 == w / 4 % 16)
            && (4 <= op <= 13 ==> d.f0 == w / 256 % 8 && d.f1 == w % 256)
            && (15 <= op <= 16 ==> d.f0 == Tail(w, 1024))
            && (17 <= op <= 20 ==> d.f0 == w / 256 % 8 && d.f1 == Tail(w, 128))
            && (21 <= op <= 27 ==> d.f0 == w / 256 % 8 && d.f1 == w / 32 % 8)
            && (21 <= op <= 24 ==> d.f2 == Tail(w, 16)) && (25 <= op <= 26 ==> d.f2 == w % 32)
            && (op == 28 ==> d.f0 == w % 2048) && (op >= 30 ==> d.f0 == w / 256 % 8 && d.f1 == w % 32)
  {
    hide Sext, Tail;
    LowSext(w);
  }

  lemma CodeHeld(w: word, k: nat, vs: seq<int>)
    requires k < LEN && |vs| <= 3 && Holds(w, k, vs)
    ensures w / 2048 == (if k < 16 then k / 4 else k - 12) && (k < 16 ==> w % 4 == k % 4)
  {
    hide Entry, Fields, Codec.Cut, Format, Syntax, ShapeOf;
    RegularAll(k);
    FieldDigits(w);
  }

  lemma ShapeAt(k: nat)
    requires k < LEN
    ensures ShapeOf(Entry(k).opcode) ==
            if k < 12 then RRR else if k < 16 then RU4 else if k < 26 then RU8
            else if k == 26 || k == 41 then NONE
            else if k < 29 then S11 else if k < 33 then RS8 else if k < 37 then RRS5
            else if k < 39 then RCX else if k == 39 then RC else if k == 40 then U11 else RQ
  {
    hide Entry, Format, Syntax;
    RegularAll(k);
  }

  /** The word at pc is about to execute, and its code is that of entry k. */
  predicate Coded(s: Isa.State, k: nat) {
    var w := s.mem[s.pc];
    w / 2048 == (if k < 16 then k / 4 else k - 12) && (k < 16 ==> w % 4 == k % 4)
  }

  lemma Within(ss: seq<Statement>, buf: Image, i: nat, s: Isa.State, x: Isa.Inputs)
    requires AtLine(ss, buf, i, s, x)
    ensures i < |ss| && ss[i].op.Some?
  {
    hide Assembled, LastThere, Isa.Pending, Isa.Fetched, Loaded;
  }

  lemma LineCoded(ss: seq<Statement>, buf: Image, i: nat, s: Isa.State, x: Isa.Inputs, k: nat) returns (vs: seq<int>)
    requires AtLine(ss, buf, i, s, x) && k < LEN && SameName(ss[i].op.value, Entry(k).nmemonic)
    ensures Executes(s, x, s.mem[s.pc]) && Coded(s, k)
    ensures Values(Printer.KindsOf(ShapeOf(Entry(k).opcode)), ss[i].args, s.pc, Declarations(ss, 0)) == Some(vs)
    ensures |vs| <= 3 && Holds(s.mem[s.pc], k, vs)
  {
    hide Entry, SameName, Values, Printer.KindsOf, ShapeOf, Holds, AtLine, Executes, Declarations;
    Within(ss, buf, i, s, x);
    LineRuns(ss, buf, i, s, x, k);
    vs := Values(Printer.KindsOf(ShapeOf(Entry(k).opcode)), ss[i].args, s.pc, Declarations(ss, 0)).value;
    CodeHeld(s.mem[s.pc], k, vs);
  }

  lemma HeldThree(w: word, k: nat, vs: seq<int>)
    requires k < 12 && |vs| == 3 && Holds(w, k, vs)
    ensures w / 256 % 8 == vs[0] % 8 && w / 32 % 8 == vs[1] % 8 && w / 4 % 8 == vs[2] % 8
  {
    hide Entry, Fields;
    ShapeAt(k);
    CodeHeld(w, k, vs);
    FieldDigits(w);
  }

  lemma HeldTwo(w: word, k: nat, vs: seq<int>)
    requires 12 <= k < LEN && |vs| == 2 && Holds(w, k, vs) && ShapeOf(Entry(k).opcode) in {RU4, RU8, RS8, RC, RQ}
    ensures w / 256 % 8 == vs[0] % 8
    ensures k < 16 ==> w / 4 % 16 == vs[1] % 16
    ensures 16 <= k < 26 ==> w % 256 == vs[1] % 256
    ensures 29 <= k < 33 ==> Tail(w, 128) == Sext(vs[1], 256)
    ensures k == 39 ==> w / 32 % 8 == vs[1] % 8
    ensures k >= 42 ==> w % 32 == vs[1] % 32
  {
    hide Entry, Fields, Sext, Tail;
    ShapeAt(k);
    CodeHeld(w, k, vs);
    FieldDigits(w);
  }

  lemma HeldOne(w: word, k: nat, vs: seq<int>)
    requires k in {27, 28, 40} && |vs| == 1 && Holds(w, k, vs)
    ensures k < 40 ==> Tail(w, 1024) == Sext(vs[0], 2048)
    ensures k == 40 ==> w % 2048 == vs[0] % 2048
  {
    hide Entry, Fields, Sext, Tail;
    ShapeAt(k);
    CodeHeld(w, k, vs);
    FieldDigits(w);
  }

  lemma HeldPlace(w: word, k: nat, vs: seq<int>)
    requires 33 <= k < 39 && |vs| == 3 && Holds(w, k, vs)
    ensures w / 256 % 8 == vs[0] % 8 && w / 32 % 8 == vs[1] % 8
    ensures k < 37 ==> Tail(w, 16) == Sext(vs[2], 32)
    ensures k >= 37 ==> w % 32 == vs[2] % 32
  {
    hide Entry, Fields, Sext, Tail;
    ShapeAt(k);
    CodeHeld(w, k, vs);
    FieldDigits(w);
  }

  // ----- the word of a line, shape by shape -----

  lemma WordRRR(ss: seq<Statement>, buf: Image, i: nat, s: Isa.State, x: Isa.Inputs, k: nat, d: nat, a: nat, b: nat)
    requires AtLine(ss, buf, i, s, x) && k < 12 && SameName(ss[i].op.value, Entry(k).nmemonic)
    requires |ss[i].args| >= 3 && Names(ss[i].args[0], d) && Names(ss[i].args[1], a) && Names(ss[i].args[2], b)
    ensures var w := s.mem[s.pc];
            Executes(s, x, w) && Coded(s, k) && w / 256 % 8 == d && w / 32 % 8 == a && w / 4 % 8 == b
  {
    hide Entry, SameName, Value, Values, Holds, AtLine, Executes, Declarations, Names, Coded, ShapeOf;
    Within(ss, buf, i, s, x);
    var vs := LineCoded(ss, buf, i, s, x, k);
    ShapeAt(k);
    ThreeValues(Printer.Kind('r', 0), Printer.Kind('r', 0), Printer.Kind('r', 0), ss[i].args, s.pc,
                Declarations(ss, 0));
    NamesHere(ss[i].args[0], ss, s, d);
    NamesHere(ss[i].args[1], ss, s, a);
    NamesHere(ss[i].args[2], ss, s, b);
    HeldThree(s.mem[s.pc], k, vs);
  }

  /** A register and a number. */
  lemma WordRN(ss: seq<Statement>, buf: Image, i: nat, s: Isa.State, x: Isa.Inputs, k: nat, d: nat, n: int)
    requires AtLine(ss, buf, i, s, x) && 12 <= k < 33 && SameName(ss[i].op.value, Entry(k).nmemonic)
    requires k < 26 || k >= 29
    requires |ss[i].args| >= 2 && Names(ss[i].args[0], d)
    requires Gives(if k < 26 then 'u' else 's', if k < 16 then 4 else 8, ss[i].args[1], ss, s, n)
    ensures var w := s.mem[s.pc]; Executes(s, x, w) && Coded(s, k) && w / 256 % 8 == d
    ensures k < 16 ==> s.mem[s.pc] / 4 % 16 == n % 16
    ensures 16 <= k < 26 ==> s.mem[s.pc] % 256 == n % 256
    ensures k >= 29 ==> Tail(s.mem[s.pc], 128) == n
  {
    hide Entry, SameName, Value, Values, Holds, AtLine, Executes, Declarations, Names, Coded, ShapeOf, Sext, Tail;
    Within(ss, buf, i, s, x);
    var vs := LineCoded(ss, buf, i, s, x, k);
    ShapeAt(k);
    var kind := Printer.Kind(if k < 26 then 'u' else 's', if k < 16 then 4 else 8);
    TwoValues(Printer.Kind('r', 0), kind, ss[i].args, s.pc, Declarations(ss, 0));
    NamesHere(ss[i].args[0], ss, s, d);
    HeldTwo(s.mem[s.pc], k, vs);
    if k >= 29 { SignedRange(8, ss[i].args[1], s.pc, Declarations(ss, 0)); }
  }

  lemma WordN(ss: seq<Statement>, buf: Image, i: nat, s: Isa.State, x: Isa.Inputs, k: nat, n: int)
    requires AtLine(ss, buf, i, s, x) && k in {27, 28, 40} && SameName(ss[i].op.value, Entry(k).nmemonic)
    requires |ss[i].args| >= 1 && Gives(if k < 40 then 's' else 'u', 11, ss[i].args[0], ss, s, n)
    ensures Executes(s, x, s.mem[s.pc]) && Coded(s, k)
    ensures k < 40 ==> Tail(s.mem[s.pc], 1024) == n
    ensures k == 40 ==> s.mem[s.pc] % 2048 == n % 2048
  {
    hide Entry, SameName, Value, Values, Holds, AtLine, Executes, Declarations, Coded, ShapeOf, Sext, Tail;
    Within(ss, buf, i, s, x);
    var vs := LineCoded(ss, buf, i, s, x, k);
    ShapeAt(k);
    OneValue(Printer.Kind(if k < 40 then 's' else 'u', 11), ss[i].args, s.pc, Declarations(ss, 0));
    HeldOne(s.mem[s.pc], k, vs);
    if k < 40 { SignedRange(11, ss[i].args[0], s.pc, Declarations(ss, 0)); }
  }

  lemma WordPlace(ss: seq<Statement>, buf: Image, i: nat, s: Isa.State, x: Isa.Inputs, k: nat, d: nat, a: nat, n: int)
    requires AtLine(ss, buf, i, s, x) && 33 <= k < 37 && SameName(ss[i].op.value, Entry(k).nmemonic)
    requires |ss[i].args| >= 3 && Names(ss[i].args[0], d) && Names(ss[i].args[1], a)
    requires Gives('s', 5, ss[i].args[2], ss, s, n)
    ensures var w := s.mem[s.pc];
            Executes(s, x, w) && Coded(s, k) && w / 256 % 8 == d && w / 32 % 8 == a && Tail(w, 16) == n
  {
    hide Entry, SameName, Value, Values, Holds, AtLine, Executes, Declarations, Names, Coded, ShapeOf, Sext, Tail;
    Within(ss, buf, i, s, x);
    var vs := LineCoded(ss, buf, i, s, x, k);
    ShapeAt(k);
    ThreeValues(Printer.Kind('r', 0), Printer.Kind('r', 0), Printer.Kind('s', 5), ss[i].args, s.pc,
                Declarations(ss, 0));
    NamesHere(ss[i].args[0], ss, s, d);
    NamesHere(ss[i].args[1], ss, s, a);
    SignedRange(5, ss[i].args[2], s.pc, Declarations(ss, 0));
    HeldPlace(s.mem[s.pc], k, vs);
  }

  lemma WordCX(ss: seq<Statement>, buf: Image, i: nat, s: Isa.State, x: Isa.Inputs, k: nat, d: nat, c: nat, r: nat)
    requires AtLine(ss, buf, i, s, x) && 37 <= k < 39 && SameName(ss[i].op.value, Entry(k).nmemonic)
    requires |ss[i].args| >= 3 && Names(ss[i].args[0], d)
    requires Called('c', ss[i].args[1], ss, s, c) && Called('x', ss[i].args[2], ss, s, r)
    ensures var w := s.mem[s.pc];
            Executes(s, x, w) && Coded(s, k) && w / 256 % 8 == d && w / 32 % 8 == c && w % 32 == r
  {
    hide Entry, SameName, Value, Values, Holds, AtLine, Executes, Declarations, Names, Coded, ShapeOf, Sext, Tail;
    Within(ss, buf, i, s, x);
    var vs := LineCoded(ss, buf, i, s, x, k);
    ShapeAt(k);
    ThreeValues(Printer.Kind('r', 0), Printer.Kind('c', 0), Printer.Kind('x', 0), ss[i].args, s.pc,
                Declarations(ss, 0));
    NamesHere(ss[i].args[0], ss, s, d);
    HeldPlace(s.mem[s.pc], k, vs);
  }

  /** A register, and a coprocessor or a control register. */
  lemma WordRQ(ss: seq<Statement>, buf: Image, i: nat, s: Isa.State, x: Isa.Inputs, k: nat, d: nat, q: nat)
    requires AtLine(ss, buf, i, s, x) && k in {39, 42, 43} && SameName(ss[i].op.value, Entry(k).nmemonic)
    requires |ss[i].args| >= 2 && Names(ss[i].args[0], d)
    requires Called(if k == 39 then 'c' else 'q', ss[i].args[1], ss, s, q)
    ensures var w := s.mem[s.pc]; Executes(s, x, w) && Coded(s, k) && w / 256 % 8 == d
    ensures if k == 39 then s.mem[s.pc] / 32 % 8 == q else s.mem[s.pc] % 32 == q
  {
    hide Entry, SameName, Value, Values, Holds, AtLine, Executes, Declarations, Names, Coded, ShapeOf, Sext, Tail;
    Within(ss, buf, i, s, x);
    var vs := LineCoded(ss, buf, i, s, x, k);
    ShapeAt(k);
    TwoValues(Printer.Kind('r', 0), Printer.Kind(if k == 39 then 'c' else 'q', 0), ss[i].args, s.pc,
              Declarations(ss, 0));
    NamesHere(ss[i].args[0], ss, s, d);
    HeldTwo(s.mem[s.pc], k, vs);
  }

  lemma WordAlone(ss: seq<Statement>, buf: Image, i: nat, s: Isa.State, x: Isa.Inputs, k: nat)
    requires AtLine(ss, buf, i, s, x) && k in {26, 41} && SameName(ss[i].op.value, Entry(k).nmemonic)
    ensures Executes(s, x, s.mem[s.pc]) && Coded(s, k)
  {
    hide Entry, SameName, Values, Holds, AtLine, Executes, Coded, ShapeOf;
    var vs := LineCoded(ss, buf, i, s, x, k);
  }

  // ----- the names -----

  lemma LogicRows()
    ensures Entry(0).nmemonic == "or" && Entry(1).nmemonic == "nand"
    ensures Entry(2).nmemonic == "and" && Entry(3).nmemonic == "xor"
  {
    hide Entry;
    LogicRows0();
    LogicRows1();
  }

  lemma LogicRows0()
    ensures Entry(0).nmemonic == "or" && Entry(1).nmemonic == "nand"
  {
    assert Entry(0) == INSTR_TABLE[0] && Entry(1) == INSTR_TABLE[1];
  }

  lemma LogicRows1()
    ensures Entry(2).nmemonic == "and" && Entry(3).nmemonic == "xor"
  {
    assert Entry(2) == INSTR_TABLE[2] && Entry(3) == INSTR_TABLE[3];
  }

  lemma SumRows()
    ensures Entry(4).nmemonic == "add" && Entry(5).nmemonic == "sub"
    ensures Entry(6).nmemonic == "addc" && Entry(7).nmemonic == "subc"
  {
    hide Entry;
    SumRows0();
    SumRows1();
  }

  lemma SumRows0()
    ensures Entry(4).nmemonic == "add" && Entry(5).nmemonic == "sub"
  {
    assert Entry(4) == INSTR_TABLE[4] && Entry(5) == INSTR_TABLE[5];
  }

  lemma SumRows1()
    ensures Entry(6).nmemonic == "addc" && Entry(7).nmemonic == "subc"
  {
    assert Entry(6) == INSTR_TABLE[6] && Entry(7) == INSTR_TABLE[7];
  }

  lemma ShiftRows()
    ensures Entry(8).nmemonic == "shl" && Entry(9).nmemonic == "shr"
    ensures Entry(10).nmemonic == "shra" && Entry(11).nmemonic == "rot"
  {
    hide Entry;
    ShiftRows0();
    ShiftRows1();
  }

  lemma ShiftRows0()
    ensures Entry(8).nmemonic == "shl" && Entry(9).nmemonic == "shr"
  {
    assert Entry(8) == INSTR_TABLE[8] && Entry(9) == INSTR_TABLE[9];
  }

  lemma ShiftRows1()
    ensures Entry(10).nmemonic == "shra" && Entry(11).nmemonic == "rot"
  {
    assert Entry(10) == INSTR_TABLE[10] && Entry(11) == INSTR_TABLE[11];
  }

  lemma ShiftByRows()
    ensures Entry(12).nmemonic == "shli" && Entry(13).nmemonic == "shri"
    ensures Entry(14).nmemonic == "shrai" && Entry(15).nmemonic == "roti"
  {
    hide Entry;
    ShiftByRows0();
    ShiftByRows1();
  }

  lemma ShiftByRows0()
    ensures Entry(12).nmemonic == "shli" && Entry(13).nmemonic == "shri"
  {
    assert Entry(12) == INSTR_TABLE[12] && Entry(13) == INSTR_TABLE[13];
  }

  lemma ShiftByRows1()
    ensures Entry(14).nmemonic == "shrai" && Entry(15).nmemonic == "roti"
  {
    assert Entry(14) == INSTR_TABLE[14] && Entry(15) == INSTR_TABLE[15];
  }

  lemma ByteRows()
    ensures Entry(16).nmemonic == "li" && Entry(17).nmemonic == "shlli" && Entry(18).nmemonic == "inci"
            && Entry(19).nmemonic == "deci"
  {
  }

  lemma LowRows()
    ensures Entry(20).nmemonic == "ori" && Entry(21).nmemonic == "andi" && Entry(22).nmemonic == "xori"
  {
  }

  lemma HighRows()
    ensures Entry(23).nmemonic == "orih" && Entry(24).nmemonic == "andih" && Entry(25).nmemonic == "xorih"
  {
  }

  lemma JumpRows()
    ensures Entry(26).nmemonic == "sleep" && Entry(27).nmemonic == "ba" && Entry(28).nmemonic == "bal"
            && Entry(29).nmemonic == "bz" && Entry(30).nmemonic == "bnz" && Entry(31).nmemonic == "jr"
            && Entry(32).nmemonic == "jlr"
  {
  }

  lemma MemoryRows()
    ensures Entry(33).nmemonic == "ll" && Entry(34).nmemonic == "ldw" && Entry(35).nmemonic == "stw"
            && Entry(36).nmemonic == "sc"
  {
  }

  lemma CoprocessorRows()
    ensures Entry(37).nmemonic == "mfcp" && Entry(38).nmemonic == "mtcp" && Entry(39).nmemonic == "cpop"
  {
  }

  lemma SystemRows()
    ensures Entry(40).nmemonic == "int" && Entry(41).nmemonic == "rfi" && Entry(42).nmemonic == "mfctl"
            && Entry(43).nmemonic == "mtctl"
  {
  }

  // ----- arithmetic on registers -----

  lemma DoesRRR(ss: seq<Statement>, buf: Image, i: nat, s: Isa.State, x: Isa.Inputs, k: nat, d: nat, a: nat, b: nat)
    requires AtLine(ss, buf, i, s, x) && k < 12 && SameName(ss[i].op.value, Entry(k).nmemonic)
    requires |ss[i].args| >= 3 && Names(ss[i].args[0], d) && Names(ss[i].args[1], a) && Names(ss[i].args[2], b)
    ensures d < 8 && a < 8 && b < 8
    ensures var t := Isa.Step(s, x);
            Sets(t, s, d, R(t, d), (s.pc + 1) % 0x1_0000) && ByNumber(k / 4, k % 4, R(s, a), R(s, b), R(t, d))
  {
    hide Entry, SameName, AtLine, Executes, Names, Isa.Step, Sets, ByNumber, R;
    WordRRR(ss, buf, i, s, x, k, d, a, b);
    Arithmetic(s, x, s.mem[s.pc]);
  }

  /** or, nand, and, xor. */
  lemma Logic(ss: seq<Statement>, buf: Image, i: nat, s: Isa.State, x: Isa.Inputs, name: string,
              d: nat, a: nat, b: nat)
    requires AtLine(ss, buf, i, s, x) && SameName(ss[i].op.value, name)
    requires name in ["or", "nand", "and", "xor"]
    requires |ss[i].args| >= 3 && Names(ss[i].args[0], d) && Names(ss[i].args[1], a) && Names(ss[i].args[2], b)
    ensures d < 8 && a < 8 && b < 8
    ensures var t, p, q := Isa.Step(s, x), R(s, a), R(s, b);
            && Sets(t, s, d, R(t, d), (s.pc + 1) % 0x1_0000)
            && (name == "or" ==> Ors(p, q, R(t, d)))
            && (name == "nand" ==> Nands(p, q, R(t, d)))
            && (name == "and" ==> Ands(p, q, R(t, d)))
            && (name == "xor" ==> Xors(p, q, R(t, d)))
  {
    hide Entry, SameName, AtLine, Names, Isa.Step, Sets, R, Ors, Nands, Ands, Xors;
    LogicRows();
    var k := if name == "or" then 0 else if name == "nand" then 1 else if name == "and" then 2 else 3;
    DoesRRR(ss, buf, i, s, x, k, d, a, b);
  }

  /** add and sub modulo 2^16, addc and subc their carry and borrow. */
  lemma Sums(ss: seq<Statement>, buf: Image, i: nat, s: Isa.State, x: Isa.Inputs, name: string,
             d: nat, a: nat, b: nat)
    requires AtLine(ss, buf, i, s, x) && SameName(ss[i].op.value, name)
    requires name in ["add", "sub", "addc", "subc"]
    requires |ss[i].args| >= 3 && Names(ss[i].args[0], d) && Names(ss[i].args[1], a) && Names(ss[i].args[2], b)
    ensures d < 8 && a < 8 && b < 8
    ensures var t, p, q := Isa.Step(s, x), R(s, a), R(s, b);
            && Sets(t, s, d, R(t, d), (s.pc + 1) % 0x1_0000)
            && (name == "add" ==> Adds(p, q, R(t, d)))
            && (name == "sub" ==> Subtracts(p, q, R(t, d)))
            && (name == "addc" ==> Carries(p, q, R(t, d)))
            && (name == "subc" ==> Borrows(p, q, R(t, d)))
  {
    hide Entry, SameName, AtLine, Names, Isa.Step, Sets, R, Adds, Subtracts, Carries, Borrows;
    SumRows();
    var k := if name == "add" then 4 else if name == "sub" then 5 else if name == "addc" then 6 else 7;
    DoesRRR(ss, buf, i, s, x, k, d, a, b);
  }

  /** shl, shr, shra, rot by a register. */
  lemma Shifts(ss: seq<Statement>, buf: Image, i: nat, s: Isa.State, x: Isa.Inputs, name: string,
               d: nat, a: nat, b: nat)
    requires AtLine(ss, buf, i, s, x) && SameName(ss[i].op.value, name)
    requires name in ["shl", "shr", "shra", "rot"]
    requires |ss[i].args| >= 3 && Names(ss[i].args[0], d) && Names(ss[i].args[1], a) && Names(ss[i].args[2], b)
    ensures d < 8 && a < 8 && b < 8
    ensures var t, p, q := Isa.Step(s, x), R(s, a), R(s, b);
            && Sets(t, s, d, R(t, d), (s.pc + 1) % 0x1_0000)
            && (name == "shl" ==> ShiftsLeft(p, q, R(t, d)))
            && (name == "shr" ==> ShiftsRight(p, q, R(t, d)))
            && (name == "shra" ==> ShiftsSigned(p, q, R(t, d)))
            && (name == "rot" ==> Rotates(p, q, R(t, d)))
  {
    hide Entry, SameName, AtLine, Names, Isa.Step, Sets, R, ShiftsLeft, ShiftsRight, ShiftsSigned, Rotates;
    ShiftRows();
    var k := if name == "shl" then 8 else if name == "shr" then 9 else if name == "shra" then 10 else 11;
    DoesRRR(ss, buf, i, s, x, k, d, a, b);
  }

  /** The same by a number of four digits. */
  lemma ShiftsBy(ss: seq<Statement>, buf: Image, i: nat, s: Isa.State, x: Isa.Inputs, name: string,
                 d: nat, n: int)
    requires AtLine(ss, buf, i, s, x) && SameName(ss[i].op.value, name)
    requires name in ["shli", "shri", "shrai", "roti"]
    requires |ss[i].args| >= 2 && Names(ss[i].args[0], d) && Gives('u', 4, ss[i].args[1], ss, s, n)
    ensures d < 8
    ensures var t, p, q := Isa.Step(s, x), R(s, d), n % 16;
            && Sets(t, s, d, R(t, d), (s.pc + 1) % 0x1_0000)
            && (name == "shli" ==> ShiftsLeft(p, q, R(t, d)))
            && (name == "shri" ==> ShiftsRight(p, q, R(t, d)))
            && (name == "shrai" ==> ShiftsSigned(p, q, R(t, d)))
            && (name == "roti" ==> Rotates(p, q, R(t, d)))
  {
    hide Entry, SameName, AtLine, Names, Isa.Step, Sets, R, ShiftsLeft, ShiftsRight, ShiftsSigned, Rotates, Executes,
         Gives;
    ShiftByRows();
    var k := if name == "shli" then 12 else if name == "shri" then 13 else if name == "shrai" then 14 else 15;
    WordRN(ss, buf, i, s, x, k, d, n);
    Arithmetic(s, x, s.mem[s.pc]);
  }

  // ----- a register and a byte -----

  lemma DoesRU(ss: seq<Statement>, buf: Image, i: nat, s: Isa.State, x: Isa.Inputs, k: nat, d: nat, n: int)
    requires AtLine(ss, buf, i, s, x) && 16 <= k < 26 && SameName(ss[i].op.value, Entry(k).nmemonic)
    requires |ss[i].args| >= 2 && Names(ss[i].args[0], d) && Gives('u', 8, ss[i].args[1], ss, s, n)
    ensures d < 8
    ensures var t := Isa.Step(s, x);
            Sets(t, s, d, R(t, d), (s.pc + 1) % 0x1_0000) && ByteByNumber(k - 12, R(s, d), n % 256, R(t, d))
  {
    hide Entry, SameName, AtLine, Executes, Names, Isa.Step, Sets, ByteByNumber, R, Gives;
    WordRN(ss, buf, i, s, x, k, d, n);
    Manual.Immediates(s, x, s.mem[s.pc]);
  }

  /** li, shlli, inci, deci. */
  lemma Loading(ss: seq<Statement>, buf: Image, i: nat, s: Isa.State, x: Isa.Inputs, name: string,
                d: nat, n: int)
    requires AtLine(ss, buf, i, s, x) && SameName(ss[i].op.value, name)
    requires name in ["li", "shlli", "inci", "deci"]
    requires |ss[i].args| >= 2 && Names(ss[i].args[0], d) && Gives('u', 8, ss[i].args[1], ss, s, n)
    ensures d < 8
    ensures var t, p, v := Isa.Step(s, x), R(s, d), R(Isa.Step(s, x), d);
            && Sets(t, s, d, v, (s.pc + 1) % 0x1_0000)
            && (name == "li" ==> v == n % 256)
            && (name == "shlli" ==> v == (p * 256 + n % 256) % 0x1_0000)
            && (name == "inci" ==> v == (p + n % 256) % 0x1_0000)
            && (name == "deci" ==> v == (p - n % 256) % 0x1_0000)
  {
    hide Entry, SameName, AtLine, Names, Isa.Step, Sets, R, Gives;
    ByteRows();
    var k := if name == "li" then 16 else if name == "shlli" then 17 else if name == "inci" then 18 else 19;
    DoesRU(ss, buf, i, s, x, k, d, n);
  }

  /** ori, andi, xori work on the low byte. */
  lemma LowLogic(ss: seq<Statement>, buf: Image, i: nat, s: Isa.State, x: Isa.Inputs, name: string,
                 d: nat, n: int)
    requires AtLine(ss, buf, i, s, x) && SameName(ss[i].op.value, name)
    requires name in ["ori", "andi", "xori"]
    requires |ss[i].args| >= 2 && Names(ss[i].args[0], d) && Gives('u', 8, ss[i].args[1], ss, s, n)
    ensures d < 8
    ensures var t, p, v := Isa.Step(s, x), R(s, d), R(Isa.Step(s, x), d);
            && Sets(t, s, d, v, (s.pc + 1) % 0x1_0000)
            && (name == "ori" ==> v / 256 == p / 256 && Ors(p % 256, n % 256, v % 256))
            && (name == "andi" ==> v / 256 == p / 256 && Ands(p % 256, n % 256, v % 256))
            && (name == "xori" ==> v / 256 == p / 256 && Xors(p % 256, n % 256, v % 256))
  {
    hide Entry, SameName, AtLine, Names, Isa.Step, Sets, R, Gives, Ors, Ands, Xors;
    LowRows();
    var k := if name == "ori" then 20 else if name == "andi" then 21 else 22;
    DoesRU(ss, buf, i, s, x, k, d, n);
  }

  /** orih, andih, xorih on the high one. */
  lemma HighLogic(ss: seq<Statement>, buf: Image, i: nat, s: Isa.State, x: Isa.Inputs, name: string,
                  d: nat, n: int)
    requires AtLine(ss, buf, i, s, x) && SameName(ss[i].op.value, name)
    requires name in ["orih", "andih", "xorih"]
    requires |ss[i].args| >= 2 && Names(ss[i].args[0], d) && Gives('u', 8, ss[i].args[1], ss, s, n)
    ensures d < 8
    ensures var t, p, v := Isa.Step(s, x), R(s, d), R(Isa.Step(s, x), d);
            && Sets(t, s, d, v, (s.pc + 1) % 0x1_0000)
            && (name == "orih" ==> v % 256 == p % 256 && Ors(p / 256, n % 256, v / 256))
            && (name == "andih" ==> v % 256 == p % 256 && Ands(p / 256, n % 256, v / 256))
            && (name == "xorih" ==> v % 256 == p % 256 && Xors(p / 256, n % 256, v / 256))
  {
    hide Entry, SameName, AtLine, Names, Isa.Step, Sets, R, Gives, Ors, Ands, Xors;
    HighRows();
    var k := if name == "orih" then 23 else if name == "andih" then 24 else 25;
    DoesRU(ss, buf, i, s, x, k, d, n);
  }

  // ----- going elsewhere -----

  /** ba and bal go n words on, and bal leaves the place behind itself in r7. */
  lemma Going(ss: seq<Statement>, buf: Image, i: nat, s: Isa.State, x: Isa.Inputs, name: string, n: int)
    requires AtLine(ss, buf, i, s, x) && SameName(ss[i].op.value, name)
    requires name in ["ba", "bal"] && |ss[i].args| >= 1 && Gives('s', 11, ss[i].args[0], ss, s, n)
    ensures var t := Isa.Step(s, x);
            && (name == "ba" ==> Moves(t, s, (s.pc + n) % 0x1_0000))
            && (name == "bal" ==> Sets(t, s, 7, (s.pc + 1) % 0x1_0000, (s.pc + n) % 0x1_0000))
  {
    hide Entry, SameName, AtLine, Isa.Step, Sets, Moves, Gives, Executes, R, Tail;
    JumpRows();
    var k := if name == "ba" then 27 else 28;
    WordN(ss, buf, i, s, x, k, n);
    Manual.Branches(s, x, s.mem[s.pc]);
  }

  /** bz and bnz go n words on if the register is zero, or is not; jr and jlr go n words behind where the
      register points, and jlr leaves the place behind itself in r7. */
  lemma GoingBy(ss: seq<Statement>, buf: Image, i: nat, s: Isa.State, x: Isa.Inputs, name: string,
                d: nat, n: int)
    requires AtLine(ss, buf, i, s, x) && SameName(ss[i].op.value, name)
    requires name in ["bz", "bnz", "jr", "jlr"]
    requires |ss[i].args| >= 2 && Names(ss[i].args[0], d) && Gives('s', 8, ss[i].args[1], ss, s, n)
    ensures d < 8
    ensures var t, p, next := Isa.Step(s, x), R(s, d), (s.pc + 1) % 0x1_0000;
            && (name == "bz" ==> Moves(t, s, if p == 0 then (s.pc + n) % 0x1_0000 else next))
            && (name == "bnz" ==> Moves(t, s, if p != 0 then (s.pc + n) % 0x1_0000 else next))
            && (name == "jr" ==> Moves(t, s, (p + n) % 0x1_0000))
            && (name == "jlr" ==> Sets(t, s, 7, next, (p + n) % 0x1_0000))
  {
    hide Entry, SameName, AtLine, Names, Isa.Step, Sets, Moves, Gives, Executes, R, Tail;
    JumpRows();
    var k := if name == "bz" then 29 else if name == "bnz" then 30 else if name == "jr" then 31 else 32;
    WordRN(ss, buf, i, s, x, k, d, n);
    Manual.Branches(s, x, s.mem[s.pc]);
  }

  // ----- memory -----

  /** ll and ldw bring the word of memory at register and number; ll links and ldw does not. */
  lemma Fetching(ss: seq<Statement>, buf: Image, i: nat, s: Isa.State, x: Isa.Inputs, name: string,
                 d: nat, a: nat, n: int)
    requires AtLine(ss, buf, i, s, x) && SameName(ss[i].op.value, name)
    requires name in ["ll", "ldw"]
    requires |ss[i].args| >= 3 && Names(ss[i].args[0], d) && Names(ss[i].args[1], a)
    requires Gives('s', 5, ss[i].args[2], ss, s, n)
    ensures d < 8 && a < 8
    ensures var t := Isa.Step(s, x);
            && Puts(t, s, d, s.mem[(R(s, a) + n) % 0x1_0000]) && GoesOn(t, s, name == "ll") && t.mem == s.mem
  {
    hide Entry, SameName, AtLine, Names, Isa.Step, Puts, GoesOn, Gives, Executes, R, Tail;
    MemoryRows();
    var k := if name == "ll" then 33 else 34;
    WordPlace(ss, buf, i, s, x, k, d, a, n);
    Accesses.Loads(s, x, s.mem[s.pc]);
  }

  /** stw makes that word of memory the register's, and no other; so does sc while the link holds, and then
      the register is 1, else 0 and memory is as it was. */
  lemma Storing(ss: seq<Statement>, buf: Image, i: nat, s: Isa.State, x: Isa.Inputs, name: string,
                d: nat, a: nat, n: int)
    requires AtLine(ss, buf, i, s, x) && SameName(ss[i].op.value, name)
    requires name in ["stw", "sc"]
    requires |ss[i].args| >= 3 && Names(ss[i].args[0], d) && Names(ss[i].args[1], a)
    requires Gives('s', 5, ss[i].args[2], ss, s, n)
    ensures d < 8 && a < 8
    ensures var t := Isa.Step(s, x);
            if name == "sc" && Bit(Isa.ReadCtl(s, 10), 12) == 0 then Sets(t, s, d, 0, (s.pc + 1) % 0x1_0000)
            else
              && t.mem == s.mem[(R(s, a) + n) % 0x1_0000 := R(s, d)] && GoesOn(t, s, false)
              && (if name == "sc" then Puts(t, s, d, 1) else t.usr == s.usr && t.sup == s.sup)
  {
    hide Entry, SameName, AtLine, Names, Isa.Step, Puts, GoesOn, Gives, Executes, R, Tail, Sets, Bit, Isa.ReadCtl;
    MemoryRows();
    var k := if name == "stw" then 35 else 36;
    WordPlace(ss, buf, i, s, x, k, d, a, n);
    Accesses.Stores(s, x, s.mem[s.pc]);
  }

  // ----- coprocessors and control registers -----

  /** What the bus carries while the line executes. */
  function Asked(s: Isa.State, x: Isa.Inputs): Isa.Request { Cycles.Bus(Cycles.Fetching(Isa.Fetched(s, x))) }

  lemma FetchedDue(s: Isa.State, x: Isa.Inputs, n: Isa.reg)
    requires Executes(s, x, s.mem[s.pc])
    ensures var f := Isa.Fetched(s, x);
            Due(Cycles.Fetching(f), s.mem[s.pc]) && f.mem[f.pc] == s.mem[s.pc] && R(f, n) == R(s, n)
  {
    hide Isa.LinesValue, Isa.Pack, Bit;
  }

  /** mfcp asks for the register and takes the answer; mtcp writes the register and cpop gives a command. */
  lemma Coprocessing(ss: seq<Statement>, buf: Image, i: nat, s: Isa.State, x: Isa.Inputs, name: string,
                     d: nat, c: nat, r: nat)
    requires AtLine(ss, buf, i, s, x) && SameName(ss[i].op.value, name)
    requires name in ["mfcp", "mtcp"]
    requires |ss[i].args| >= 3 && Names(ss[i].args[0], d)
    requires Called('c', ss[i].args[1], ss, s, c) && Called('x', ss[i].args[2], ss, s, r)
    ensures d < 8 && c < 8 && r < 32
    ensures var t, next := Isa.Step(s, x), (s.pc + 1) % 0x1_0000;
            && (name == "mfcp" ==> Asked(s, x) == Isa.ReadRegister(c, r) && Sets(t, s, d, x.cp, next))
            && (name == "mtcp" ==> Asked(s, x) == Isa.WriteRegister(c, r, R(s, d)) && Moves(t, s, next))
  {
    hide Entry, SameName, AtLine, Names, Isa.Step, Sets, Moves, Executes, R, Due, Cycles.Bus, Isa.Fetched, Called;
    CoprocessorRows();
    var k := if name == "mfcp" then 37 else 38;
    WordCX(ss, buf, i, s, x, k, d, c, r);
    FetchedDue(s, x, d);
    BusByNumber(Cycles.Fetching(Isa.Fetched(s, x)), s.mem[s.pc]);
    CoprocessorWords(s, x, s.mem[s.pc]);
  }

  lemma Commanding(ss: seq<Statement>, buf: Image, i: nat, s: Isa.State, x: Isa.Inputs, d: nat, c: nat)
    requires AtLine(ss, buf, i, s, x) && SameName(ss[i].op.value, "cpop")
    requires |ss[i].args| >= 2 && Names(ss[i].args[0], d) && Called('c', ss[i].args[1], ss, s, c)
    ensures d < 8 && c < 8
    ensures Asked(s, x) == Isa.Operate(c, R(s, d)) && Moves(Isa.Step(s, x), s, (s.pc + 1) % 0x1_0000)
  {
    hide Entry, SameName, AtLine, Names, Isa.Step, Sets, Moves, Executes, R, Due, Cycles.Bus, Isa.Fetched, Called;
    CoprocessorRows();
    WordRQ(ss, buf, i, s, x, 39, d, c);
    FetchedDue(s, x, d);
    BusByNumber(Cycles.Fetching(Isa.Fetched(s, x)), s.mem[s.pc]);
    CoprocessorWords(s, x, s.mem[s.pc]);
  }

  /** mfctl and mtctl in supervisor mode. */
  lemma Controlling(ss: seq<Statement>, buf: Image, i: nat, s: Isa.State, x: Isa.Inputs, name: string,
                    d: nat, q: nat)
    requires AtLine(ss, buf, i, s, x) && SameName(ss[i].op.value, name)
    requires name in ["mfctl", "mtctl"] && !UserMode(s)
    requires |ss[i].args| >= 2 && Names(ss[i].args[0], d) && Called('q', ss[i].args[1], ss, s, q)
    ensures d < 8 && q < 32
    ensures var t := Isa.Step(s, x);
            && (name == "mfctl" ==>
                  Sets(t, s, d, R(t, d), (s.pc + 1) % 0x1_0000) && Handlers.Shows(s, x.before, q, R(t, d)))
            && (name == "mtctl" ==> Takes(t, s, q, R(s, d)) && ClockTakes(t, s, q, R(s, d)))
  {
    hide Entry, SameName, AtLine, Names, Isa.Step, Sets, Takes, ClockTakes, Executes, R, Called, UserMode,
         Handlers.Shows;
    SystemRows();
    var k := if name == "mfctl" then 42 else 43;
    WordRQ(ss, buf, i, s, x, k, d, q);
    if name == "mfctl" { ControlRead(s, x, s.mem[s.pc]); } else { ControlWritten(s, x, s.mem[s.pc]); }
  }

  // ----- traps -----

  /** int goes to the address in q13 with its number in q10. */
  lemma Trapping(ss: seq<Statement>, buf: Image, i: nat, s: Isa.State, x: Isa.Inputs, n: int)
    requires AtLine(ss, buf, i, s, x) && SameName(ss[i].op.value, "int")
    requires |ss[i].args| >= 1 && Gives('u', 11, ss[i].args[0], ss, s, n)
    ensures Enters(Isa.Step(s, x), s, Isa.ReadCtl(s, 13), (s.pc + 1) % 0x1_0000, n % 2048)
  {
    hide Entry, SameName, AtLine, Isa.Step, Enters, Executes, Gives, Isa.ReadCtl;
    SystemRows();
    WordN(ss, buf, i, s, x, 40, n);
    SoftwareTraps(s, x, s.mem[s.pc]);
  }

  /** rfi goes back to q8, and sleep sleeps, in supervisor mode. */
  lemma Returning(ss: seq<Statement>, buf: Image, i: nat, s: Isa.State, x: Isa.Inputs, name: string)
    requires AtLine(ss, buf, i, s, x) && SameName(ss[i].op.value, name)
    requires name in ["rfi", "sleep"] && !UserMode(s)
    ensures var t, st := Isa.Step(s, x), Isa.ReadCtl(s, 10);
            && (name == "rfi" ==>
                  && t.pc == Isa.ReadCtl(s, 8) && Isa.ReadCtl(t, 8) == Isa.ReadCtl(t, 9) == Isa.ReadCtl(s, 9)
                  && SameElsewhere(t, s)
                  && Isa.ReadCtl(t, 10) == 0x8000 * Bit(st, 13) + 0x4000 + 0x2800 * Bit(st, 11) + st % 0x800)
            && (name == "sleep" ==> t.asleep && t.pc == (s.pc + 1) % 0x1_0000 && t.mem == s.mem)
  {
    hide Entry, SameName, AtLine, Isa.Step, SameElsewhere, Executes, Isa.ReadCtl, UserMode, Bit;
    SystemRows();
    JumpRows();
    var k := if name == "rfi" then 41 else 26;
    WordAlone(ss, buf, i, s, x, k);
    if name == "rfi" { ReturnWord(s, x, s.mem[s.pc]); } else { SleepWord(s, x, s.mem[s.pc]); }
  }

  lemma CodedReserved(s: Isa.State, k: nat)
    requires k in [26, 41, 42, 43] && Coded(s, k)
    ensures Reserved(s.mem[s.pc])
  {
  }

  /** In user mode these four go to the address in q15. */
  lemma Refusing(ss: seq<Statement>, buf: Image, i: nat, s: Isa.State, x: Isa.Inputs, name: string,
                 d: nat, q: nat)
    requires AtLine(ss, buf, i, s, x) && SameName(ss[i].op.value, name)
    requires name in ["sleep", "rfi", "mfctl", "mtctl"] && UserMode(s)
    requires name == "mfctl" || name == "mtctl" ==>
               |ss[i].args| >= 2 && Names(ss[i].args[0], d) && Called('q', ss[i].args[1], ss, s, q)
    ensures Enters(Isa.Step(s, x), s, Isa.ReadCtl(s, 15), s.pc, Isa.ReadCtl(s, 10) % 0x800)
  {
    hide Entry, SameName, AtLine, Names, Isa.Step, Enters, Executes, Called, Isa.ReadCtl, UserMode, Reserved, Coded;
    SystemRows();
    JumpRows();
    var k := if name == "sleep" then 26 else if name == "rfi" then 41 else if name == "mfctl" then 42 else 43;
    if k == 26 || k == 41 { WordAlone(ss, buf, i, s, x, k); } else { WordRQ(ss, buf, i, s, x, k, d, q); }
    CodedReserved(s, k);
    ReservedTraps(s, x, s.mem[s.pc]);
  }
}
