/** Assembled code, executed. */
module Landing {
  import opened Words
  import opened Tokens
  import opened Labels
  import opened Assembler
  import opened InstrTable
  import opened Decoder
  import opened TwoPasses
  import Codec
  import Encoder
  import Isa
  import Printer
  import RoundTrip
  import Text

  // ----- from the text of a line to the instruction -----

  /** w holds entry i's code and the operands vs, each cut to its field. */
  predicate Holds(w: word, i: nat, vs: seq<int>)
    requires i < LEN && |vs| <= 3
  {
    var c := Codec.Cut(Entry(i).opcode, Padded(vs));
    Fields(w) == Decoded(Entry(i).opcode, Entry(i).subcode, c[0], c[1], c[2])
  }

  /** The word that a line with entry i's name gives. */
  lemma LineFields(op: string, i: nat, args: seq<string>, offset: int, labels: seq<LabelDec>, w: word)
    requires i < LEN && SameName(op, Entry(i).nmemonic)
    requires Instruction(op, args, offset, labels) == Some(w)
    ensures var r := Values(Printer.Kinds(Entry(i).syntax), args, offset, labels);
            r.Some? && |r.value| <= 3 && Holds(w, i, r.value)
  {
    hide Entry, SameName, Values, Printer.Kinds, Printer.KindsOf, ShapeOf, Encoder.Encode, Fields, Codec.Cut, Padded;
    FindsLike(op, i);
    AtMostThree(i);
    var vs := Values(Printer.Kinds(Entry(i).syntax), args, offset, labels).value;
    Codec.DecodeAssembled(i, Padded(vs));
  }

  lemma DecodeByFields(w: word)
    ensures var d, r := Fields(w), w / 256 % 8;
            && (d.opcode == 4 ==> Isa.Decode(w) == Isa.LoadImm(r, w % 256) && d.f0 == r && d.f1 == w % 256)
            && (d.opcode == 5 ==> Isa.Decode(w) == Isa.ShiftIn(r, w % 256) && d.f0 == r && d.f1 == w % 256)
            && (d.opcode in {15, 16} ==> Isa.Decode(w) == Isa.Branch(d.f0, d.opcode == 16))
            && (d.opcode in {17, 18} ==> Isa.Decode(w) == Isa.BranchIf(d.opcode == 17, r, d.f1) && d.f0 == r)
  {
    hide Sext;
  }

  // ----- operands that name labels -----

  lemma NoDot(name: string)
    requires '.' !in name
    ensures Last(name, '.') == |name|
  {
  }

  lemma DotLast(name: string, suffix: string)
    requires '.' !in suffix
    ensures Last(name + ['.'] + suffix, '.') == |name|
  {
    hide Last;
    var s := name + ['.'] + suffix;
    var n := |name|;
    assert s[n] == '.';
  }

  lemma SextFits(v: int, m: nat)
    requires m > 0 && m % 2 == 0 && 0 - m / 2 <= v < m / 2
    ensures Sext(v, m) == v
  {
    if v < 0 { DivModUnique(v, m, -1, v + m); } else { DivModUnique(v, m, 0, v); }
  }

  /** An accepted %label operand is the distance to it, and survives its field. */
  lemma Relative(bits: nat, arg: string, offset: int, labels: seq<LabelDec>)
    requires 0 < bits <= 11 && arg != "" && arg[0] == '%' && '.' !in arg[1..]
    requires Value(Printer.Kind('s', bits), arg, offset, labels).Some?
    ensures var v := Value(Printer.Kind('s', bits), arg, offset, labels).value;
            v == Declared(arg[1..], labels) - offset && Sext(v, Pow2(bits)) == v
  {
    hide Pow2, Sext, Last, Declared, Text.ReadInt;
    NoDot(arg[1..]);
    RoundTrip.RegisterLetters();
    RoundTrip.Pow2Small(bits - 1);
    PowHalf(bits);
    SextFits(Value(Printer.Kind('s', bits), arg, offset, labels).value, Pow2(bits));
  }

  lemma PowHalf(bits: nat)
    requires bits > 0
    ensures Pow2(bits) == 2 * Pow2(bits - 1)
  {
  }

  // ----- branches -----

  predicate Branches(op: string) { SameName(op, "ba") || SameName(op, "bal") }

  lemma BranchRows()
    ensures Entry(27) == Spec("ba", 15, false, 0, "s11", "s11") && Entry(28) == Spec("bal", 16, false, 0, "s11", "s11")
  {
  }

  lemma BranchIfRows()
    ensures Entry(29) == Spec("bz", 17, false, 0, "u3s8", "rs8")
            && Entry(30) == Spec("bnz", 18, false, 0, "u3s8", "rs8")
  {
  }

  lemma LoadRows()
    ensures Entry(16) == Spec("li", 4, false, 0, "u3u8", "ru8")
            && Entry(17) == Spec("shlli", 5, false, 0, "u3u8", "ru8")
  {
  }

  lemma OneValue(k: Printer.Kind, args: seq<string>, offset: int, labels: seq<LabelDec>)
    requires Values([k], args, offset, labels).Some?
    ensures args != [] && Value(k, args[0], offset, labels).Some?
    ensures Values([k], args, offset, labels) == Some([Value(k, args[0], offset, labels).value])
  {
    hide Value;
    assert [k][1..] == [];
    if args != [] && Value(k, args[0], offset, labels).Some? {
      var v := Value(k, args[0], offset, labels).value;
      assert [v] + [] == [v];
    }
  }

  lemma TwoValues(a: Printer.Kind, b: Printer.Kind, args: seq<string>, offset: int, labels: seq<LabelDec>)
    requires Values([a, b], args, offset, labels).Some?
    ensures |args| >= 2 && Value(a, args[0], offset, labels).Some? && Value(b, args[1], offset, labels).Some?
    ensures Values([a, b], args, offset, labels) ==
            Some([Value(a, args[0], offset, labels).value, Value(b, args[1], offset, labels).value])
  {
    hide Value;
    assert [a, b][1..] == [b];
    OneValue(b, args[1..], offset, labels);
    if |args| >= 2 && Value(a, args[0], offset, labels).Some? && Value(b, args[1], offset, labels).Some? {
      var v, u := Value(a, args[0], offset, labels).value, Value(b, args[1], offset, labels).value;
      assert [v] + [u] == [v, u];
    }
  }

  lemma BranchOperand(args: seq<string>, offset: int, labels: seq<LabelDec>, name: string)
    requires Values([Printer.Kind('s', 11)], args, offset, labels).Some?
    requires '.' !in name && args != [] && args[0] == "%" + name
    ensures var d := Declared(name, labels) - offset;
            Values([Printer.Kind('s', 11)], args, offset, labels) == Some([d]) && Sext(d, 2048) == d
  {
    hide Sext, Value, Values, Declared, Last;
    OneValue(Printer.Kind('s', 11), args, offset, labels);
    Pow2Values();
    assert args[0][1..] == name;
    Relative(11, args[0], offset, labels);
  }

  lemma HeldBranch(w: word, i: nat, d: int, link: bool)
    requires i == (if link then 28 else 27) && Holds(w, i, [d]) && Sext(d, 2048) == d
    ensures Isa.Decode(w) == Isa.Branch(d, link)
  {
    hide Entry, Fields, Sext, Isa.Decode;
    BranchRows();
    DecodeByFields(w);
  }

  /** `ba %L` and `bal %L` are a branch by the distance to L. */
  lemma BranchDecodes(op: string, args: seq<string>, offset: int, labels: seq<LabelDec>, w: word, name: string)
    requires Branches(op) && Emitted(op, args, offset, labels) == Some(w)
    requires '.' !in name && args != [] && args[0] == "%" + name
    ensures Isa.Decode(w) == Isa.Branch(Declared(name, labels) - offset, SameName(op, "bal"))
  {
    hide Entry, Fields, Isa.Decode, Sext, Value, Values, Declared, Instruction, Printer.Kinds, Find, SameName,
         Last, Holds;
    var link := SameName(op, "bal");
    var i := if link then 28 else 27;
    BranchRows();
    NoDirective(op);
    BothSpellings(op);
    LineFields(op, i, args, offset, labels, w);
    Printer.KindsAll(S11);
    BranchOperand(args, offset, labels, name);
    HeldBranch(w, i, Declared(name, labels) - offset, link);
  }

  lemma NoDirective(op: string)
    requires Branches(op) || SameName(op, "bz") || SameName(op, "bnz") || SameName(op, "li") || SameName(op, "shlli")
    ensures op != ".data" && op != ".org"
  {
    assert ".data"[0] == '.' && ".org"[0] == '.';
    assert Lower('.') == '.';
    if op == ".data" || op == ".org" { assert LowerAll(op)[0] == '.'; }
    assert LowerAll("ba")[0] == 'b' && LowerAll("bal")[0] == 'b' && LowerAll("bz")[0] == 'b'
        && LowerAll("bnz")[0] == 'b';
    assert LowerAll("li")[0] == 'l' && LowerAll("shlli")[0] == 's';
  }

  lemma BothSpellings(op: string)
    ensures !(SameName(op, "ba") && SameName(op, "bal"))
    ensures !(SameName(op, "bz") && SameName(op, "bnz"))
  {
    assert |LowerAll("ba")| == 2 && |LowerAll("bal")| == 3 && |LowerAll("bz")| == 2 && |LowerAll("bnz")| == 3;
  }

  predicate BranchesIf(op: string) { SameName(op, "bz") || SameName(op, "bnz") }

  function RegisterText(n: nat): string { "r" + Text.PrintU(n) }

  lemma RegisterReads(n: nat, offset: int, labels: seq<LabelDec>)
    requires n < 8
    ensures Value(Printer.Kind('r', 0), RegisterText(n), offset, labels) == Some(n)
  {
    hide Value, Text.PrintU;
    RoundTrip.RegisterLetters();
    RoundTrip.ShownReads(Printer.Kind('r', 0), n, offset, labels);
  }

  /** The operand is register n, however it is written: r07 is r7, and so is r-1. */
  predicate Names(arg: string, n: nat) {
    var v := Value(Printer.Kind('r', 0), arg, 0, []);
    v.Some? && v.value % 8 == n
  }

  lemma NamesAnywhere(arg: string, offset: int, labels: seq<LabelDec>)
    ensures Value(Printer.Kind('r', 0), arg, offset, labels) == Value(Printer.Kind('r', 0), arg, 0, [])
  {
    hide Text.ReadInt, Pow2, Offset, Distance;
    RoundTrip.RegisterLetters();
  }

  lemma BranchIfDecodes(op: string, args: seq<string>, offset: int, labels: seq<LabelDec>, w: word, n: nat,
      name: string)
    requires BranchesIf(op) && Emitted(op, args, offset, labels) == Some(w)
    requires n < 8 && '.' !in name && |args| >= 2 && Names(args[0], n) && args[1] == "%" + name
    ensures Isa.Decode(w) == Isa.BranchIf(SameName(op, "bz"), n, Declared(name, labels) - offset)
  {
    hide Entry, Fields, Isa.Decode, Sext, Value, Values, Declared, Instruction, Printer.Kinds, Find,
         SameName, Last;
    var zero := SameName(op, "bz");
    var i := if zero then 29 else 30;
    BranchIfRows();
    NoDirective(op);
    BothSpellings(op);
    LineFields(op, i, args, offset, labels, w);
    Printer.KindsAll(RS8);
    TwoValues(Printer.Kind('r', 0), Printer.Kind('s', 8), args, offset, labels);
    NamesAnywhere(args[0], offset, labels);
    Pow2Values();
    assert args[1][1..] == name;
    Relative(8, args[1], offset, labels);
    DecodeByFields(w);
  }

  // ----- executing what was assembled -----

  predicate Loaded(s: Isa.State, e: Emit) {
    forall k :: 0 <= k < MAX_WORDS && k < e.top ==> s.mem[k] == e.image[k]
  }

  /** The image is in memory, an awake machine with nothing pending is about to execute line i, and
      no later line has overwritten it. */
  predicate AtLine(ss: seq<Statement>, buf: Image, i: nat, s: Isa.State, x: Isa.Inputs) {
    && Assembled(ss, buf).Some? && i < |ss| && Emits(ss[i])
    && LastThere(ss, Declarations(ss, 0), Begin(buf), i)
    && s.pc == Address(ss, buf, i)
    && Loaded(s, Assembled(ss, buf).value)
    && !s.asleep && Isa.Pending(Isa.Fetched(s, x), 0).None?
  }

  lemma LineAtPc(ss: seq<Statement>, buf: Image, i: nat, s: Isa.State, x: Isa.Inputs)
    requires AtLine(ss, buf, i, s, x)
    ensures Emitted(ss[i].op.value, ss[i].args, s.pc, Declarations(ss, 0)) == Some(s.mem[s.pc])
  {
    hide Assembled, Emitted, Declarations, LastThere, Isa.Pending, Isa.Fetched;
    ImageOfFile(ss, buf, i);
  }

  lemma BranchSteps(s: Isa.State, x: Isa.Inputs, off: int, link: bool)
    requires !s.asleep && Isa.Pending(Isa.Fetched(s, x), 0).None?
    requires Isa.Decode(s.mem[s.pc]) == Isa.Branch(off, link)
    ensures Isa.Step(s, x).pc == Wrap(s.pc + off)
    ensures link ==> Isa.Reg(Isa.Step(s, x), 7) == Wrap(s.pc + 1)
    ensures Isa.Step(s, x).mem == s.mem
  {
    hide Isa.Pending, Isa.Decode;
  }

  lemma BranchIfSteps(s: Isa.State, x: Isa.Inputs, zero: bool, n: Isa.reg, off: int)
    requires !s.asleep && Isa.Pending(Isa.Fetched(s, x), 0).None?
    requires Isa.Decode(s.mem[s.pc]) == Isa.BranchIf(zero, n, off)
    ensures Isa.Step(s, x).pc == if (Isa.Reg(s, n) == 0) == zero then Wrap(s.pc + off) else Wrap(s.pc + 1)
  {
    hide Isa.Pending, Isa.Decode;
  }

  /** A branch to a label, assembled and executed, arrives where the label's line is, and `bal` leaves
      the place behind itself in r7. */
  lemma BranchLands(ss: seq<Statement>, buf: Image, i: nat, j: nat, s: Isa.State, x: Isa.Inputs)
    requires AtLine(ss, buf, i, s, x) && FirstDeclares(ss, j) && '.' !in ss[j].name.value
    requires Branches(ss[i].op.value) && ss[i].args != [] && ss[i].args[0] == "%" + ss[j].name.value
    ensures Isa.Step(s, x).pc == Wrap(Address(ss, buf, j))
    ensures SameName(ss[i].op.value, "bal") ==> Isa.Reg(Isa.Step(s, x), 7) == Wrap(s.pc + 1)
  {
    hide Emitted, Declared, Declarations, Address, Branches, LastThere, Isa.Pending, Isa.Fetched, Isa.Step;
    LineAtPc(ss, buf, i, s, x);
    TwoPassAgreement(ss, buf, j);
    BranchDecodes(ss[i].op.value, ss[i].args, s.pc, Declarations(ss, 0), s.mem[s.pc], ss[j].name.value);
    BranchSteps(s, x, Address(ss, buf, j) - s.pc, SameName(ss[i].op.value, "bal"));
  }

  /** A conditional branch arrives there just when it is taken. */
  lemma BranchIfLands(ss: seq<Statement>, buf: Image, i: nat, j: nat, n: Isa.reg, s: Isa.State, x: Isa.Inputs)
    requires AtLine(ss, buf, i, s, x) && FirstDeclares(ss, j) && '.' !in ss[j].name.value
    requires BranchesIf(ss[i].op.value) && |ss[i].args| >= 2
    requires Names(ss[i].args[0], n) && ss[i].args[1] == "%" + ss[j].name.value
    ensures Isa.Step(s, x).pc ==
            Wrap(if (Isa.Reg(s, n) == 0) == SameName(ss[i].op.value, "bz") then Address(ss, buf, j) else s.pc + 1)
  {
    hide Emitted, Declared, Declarations, Address, BranchesIf, LastThere, Isa.Pending, Isa.Fetched, Isa.Step,
         Names;
    LineAtPc(ss, buf, i, s, x);
    TwoPassAgreement(ss, buf, j);
    BranchIfDecodes(ss[i].op.value, ss[i].args, s.pc, Declarations(ss, 0), s.mem[s.pc], n, ss[j].name.value);
    BranchIfSteps(s, x, SameName(ss[i].op.value, "bz"), n, Address(ss, buf, j) - s.pc);
  }

  // ----- loading the address of a label -----

  /** `li r, @L.h...` and `shlli r, @L.l...` carry the high and the low byte. */
  lemma ByteDecodes(op: string, high: bool, args: seq<string>, offset: int, labels: seq<LabelDec>, w: word, n: nat,
                    name: string, suffix: string)
    requires SameName(op, if high then "li" else "shlli") && Emitted(op, args, offset, labels) == Some(w)
    requires n < 8 && |args| >= 2 && Names(args[0], n) && args[1] == "@" + (name + ['.'] + suffix)
    requires '.' !in suffix && suffix != "" && suffix[0] == (if high then 'h' else 'l')
    ensures var b := Declared(name, labels);
            Isa.Decode(w) == if high then Isa.LoadImm(n, b / 256 % 256) else Isa.ShiftIn(n, b % 256)
  {
    hide Entry, Fields, Isa.Decode, Sext, Value, Values, Declared, Instruction;
    hide Printer.Kinds, Find, Offset, Pow2, SameName;
    var i := if high then 16 else 17;
    LoadRows();
    NoDirectiveHere(op, high);
    LineFields(op, i, args, offset, labels, w);
    Printer.KindsAll(RU8);
    TwoValues(Printer.Kind('r', 0), Printer.Kind('u', 8), args, offset, labels);
    NamesAnywhere(args[0], offset, labels);
    ByteOf(args[1], high, offset, labels, name, suffix);
    DecodeByFields(w);
  }

  lemma NoDirectiveHere(op: string, high: bool)
    requires SameName(op, if high then "li" else "shlli")
    ensures op != ".data"
  {
    hide LowerAll;
    NoDirective(op);
  }

  lemma ByteOf(arg: string, high: bool, offset: int, labels: seq<LabelDec>, name: string, suffix: string)
    requires arg == "@" + (name + ['.'] + suffix)
    requires '.' !in suffix && suffix != "" && suffix[0] == (if high then 'h' else 'l')
    requires Value(Printer.Kind('u', 8), arg, offset, labels).Some?
    ensures var b := Declared(name, labels);
            Value(Printer.Kind('u', 8), arg, offset, labels).value % 256 == (if high then b / 256 else b) % 256
  {
    hide Declared, Pow2, Last, Text.ReadInt;
    RoundTrip.RegisterLetters();
    var t := name + ['.'] + suffix;
    assert arg[1..] == t;
    DotLast(name, suffix);
    assert t[..|name|] == name && t[|name| + 1] == suffix[0];
    ModTwice(Declared(name, labels));
  }

  lemma ModTwice(b: int)
    ensures b % 256 % 256 == b % 256
  {
  }

  lemma LoadSteps(s: Isa.State, x: Isa.Inputs, n: Isa.reg, v: word)
    requires !s.asleep && Isa.Pending(Isa.Fetched(s, x), 0).None?
    requires Isa.Decode(s.mem[s.pc]) == Isa.LoadImm(n, v)
    ensures var t := Isa.Step(s, x);
            Isa.Reg(t, n) == v && t.pc == Wrap(s.pc + 1) && t.mem == s.mem && !t.asleep
  {
    hide Isa.Pending, Isa.Decode;
  }

  lemma ShiftSteps(s: Isa.State, x: Isa.Inputs, n: Isa.reg, v: word)
    requires !s.asleep && Isa.Pending(Isa.Fetched(s, x), 0).None?
    requires Isa.Decode(s.mem[s.pc]) == Isa.ShiftIn(n, v)
    ensures Isa.Reg(Isa.Step(s, x), n) == Wrap(Isa.Reg(s, n) * 256 + v)
  {
    hide Isa.Pending, Isa.Decode;
  }

  lemma BytesJoin(b: int)
    ensures Wrap(b / 256 % 256 * 256 + b % 256) == Wrap(b)
  {
    var h := b / 256;
    assert b == h / 256 * 0x1_0000 + (h % 256 * 256 + b % 256);
    DivModUnique(b, 0x1_0000, h / 256, h % 256 * 256 + b % 256);
  }

  /** `li r, @L.hi` at line i, assembled and executed, and `shlli r, @L.lo` after it at line k, leave
      the address of L's line in r. */
  lemma AddressLoads(ss: seq<Statement>, buf: Image, i: nat, k: nat, j: nat, n: Isa.reg,
                     s: Isa.State, x: Isa.Inputs, y: Isa.Inputs)
    requires AtLine(ss, buf, i, s, x) && AtLine(ss, buf, k, Isa.Step(s, x), y)
    requires FirstDeclares(ss, j)
    requires SameName(ss[i].op.value, "li") && SameName(ss[k].op.value, "shlli")
    requires |ss[i].args| >= 2 && Names(ss[i].args[0], n)
            && ss[i].args[1] == "@" + (ss[j].name.value + ['.'] + "hi")
    requires |ss[k].args| >= 2 && Names(ss[k].args[0], n)
            && ss[k].args[1] == "@" + (ss[j].name.value + ['.'] + "lo")
    ensures Isa.Reg(Isa.Step(Isa.Step(s, x), y), n) == Wrap(Address(ss, buf, j))
  {
    hide Emitted, Declared, Declarations, Address, SameName, LastThere, Isa.Pending, Isa.Fetched, Isa.Step,
         Isa.Reg, Names;
    var ls, b, t := Declarations(ss, 0), Address(ss, buf, j), Isa.Step(s, x);
    TwoPassAgreement(ss, buf, j);
    LineAtPc(ss, buf, i, s, x);
    ByteDecodes(ss[i].op.value, true, ss[i].args, s.pc, ls, s.mem[s.pc], n, ss[j].name.value, "hi");
    LoadSteps(s, x, n, b / 256 % 256);
    LineAtPc(ss, buf, k, t, y);
    ByteDecodes(ss[k].op.value, false, ss[k].args, t.pc, ls, t.mem[t.pc], n, ss[j].name.value, "lo");
    ShiftSteps(t, y, n, b % 256);
    BytesJoin(b);
  }

  /** `.data @L` leaves L's address in memory. */
  lemma AddressStored(ss: seq<Statement>, buf: Image, i: nat, j: nat)
    requires Assembled(ss, buf).Some? && i < |ss| && ss[i].op == Some(".data")
    requires LastThere(ss, Declarations(ss, 0), Begin(buf), i)
    requires FirstDeclares(ss, j) && '.' !in ss[j].name.value
    requires ss[i].args != [] && ss[i].args[0] == "@" + ss[j].name.value
    ensures var a, r := Address(ss, buf, i), Assembled(ss, buf).value;
            0 <= a < r.top < 0x1_0000 && r.image[a] == Address(ss, buf, j) % 0x1_0000
  {
    hide Declared, Declarations, LastThere, Assembled, Address, Last;
    NotOrg();
    ImageOfFile(ss, buf, i);
    TwoPassAgreement(ss, buf, j);
    NoDot(ss[j].name.value);
    assert ("@" + ss[j].name.value)[1..] == ss[j].name.value;
  }

  lemma NotOrg()
    ensures ".data" != ".org"
  {
    assert |".data"| == 5 && |".org"| == 4;
  }
}
