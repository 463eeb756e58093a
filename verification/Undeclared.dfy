/** What becomes of an operand that names a label no line declares. */
module Undeclared {
  import opened Words
  import opened Tokens
  import opened Labels
  import opened Assembler
  import opened InstrTable
  import opened TwoPasses
  import Encoder
  import Landing
  import Printer
  import RoundTrip
  import Text

  /** The label that an operand names behind its sigil: what stands before the last dot. */
  function Base(text: string): string { text[..Last(text, '.')] }

  /** It asks for the low byte. */
  predicate Low(text: string) {
    var d := Last(text, '.');
    d + 1 < |text| && text[d + 1] == 'l'
  }

  predicate Unknown(name: string, labels: seq<LabelDec>) { forall l :: l in labels ==> l.name != name }

  lemma {:induction false} Misses(name: string, labels: seq<LabelDec>)
    requires Unknown(name, labels)
    ensures Declared(name, labels) == -1
  {
    if labels != [] {
      assert labels[0] in labels;
      Misses(name, labels[1..]);
    }
  }

  /** An unknown label has the value -1, and so has its high byte; its low byte is 255. */
  lemma UnknownOffset(text: string, labels: seq<LabelDec>)
    requires Unknown(Base(text), labels)
    ensures Offset(text, labels) == if Low(text) then 255 else -1
  {
    hide Last, Declared;
    Misses(Base(text), labels);
    assert Last(text, '.') == |text| ==> Base(text) == text;
  }

  lemma {:induction false} Pow2Mono(a: nat, b: nat)
    requires a <= b
    ensures Pow2(a) <= Pow2(b)
    decreases b
  {
    if a < b { Pow2Mono(a, b - 1); }
  }

  lemma ByteFits(bits: nat)
    ensures 255 < Pow2(bits) <==> bits >= 8
  {
    Pow2Values();
    if bits >= 8 { Pow2Mono(8, bits); } else { Pow2Mono(bits, 7); }
  }

  /** Exactly when a numeric operand that names an unknown label is accepted: as @L, unless it is a low
      byte in less than eight digits; as %L only for a low byte, which then is measured as if it were
      an address. */
  lemma UnknownAcceptedIff(k: Printer.Kind, arg: string, offset: int, labels: seq<LabelDec>)
    requires k.letter == 'u' || (k.letter == 's' && 0 < k.bits <= 16)
    requires arg != "" && arg[0] in "@%" && Unknown(Base(arg[1..]), labels)
    ensures var r, low := Value(k, arg, offset, labels), Low(arg[1..]);
            if k.letter == 'u' then
              && (r.Some? <==> arg[0] == '@' && (low ==> k.bits >= 8))
              && (r.Some? ==> r.value == if low then 255 else -1)
            else
              && (r.Some? <==> arg[0] == '%' && low && 0 - Pow2(k.bits - 1) <= 255 - offset < Pow2(k.bits - 1))
              && (r.Some? ==> r.value == 255 - offset)
  {
    hide Pow2, Offset, Low, Base, Text.ReadInt;
    UnknownOffset(arg[1..], labels);
    RoundTrip.RegisterLetters();
    ByteFits(k.bits);
    Sigils();
    if k.letter == 's' { RoundTrip.Pow2Small(k.bits - 1); }
  }

  lemma Sigils()
    ensures '@' in "@#" && '@' !in "%#" && '%' in "%#" && '%' !in "@#"
    ensures forall c :: c in "@%" ==> c == '@' || c == '%'
  {
    assert "@#"[0] == '@' && "%#"[0] == '%';
  }

  lemma NoLow(text: string)
    requires '.' !in text
    ensures Base(text) == text && !Low(text)
  {
    hide Last;
    Landing.NoDot(text);
  }

  /** Without a dot: as @L it is accepted with the value -1, as %L it is refused, wherever it stands. */
  lemma UnknownPlainIff(k: Printer.Kind, arg: string, offset: int, labels: seq<LabelDec>)
    requires k.letter == 'u' || (k.letter == 's' && 0 < k.bits <= 16)
    requires arg != "" && arg[0] in "@%" && '.' !in arg[1..] && Unknown(arg[1..], labels)
    ensures Value(k, arg, offset, labels) == if k.letter == 'u' && arg[0] == '@' then Some(-1) else None
  {
    hide Value, Base, Low, Pow2;
    NoLow(arg[1..]);
    UnknownAcceptedIff(k, arg, offset, labels);
  }

  /** A .data line takes every label. */
  lemma UnknownData(text: string, args: seq<string>, labels: seq<LabelDec>)
    requires args != [] && args[0] == "@" + text && Unknown(Base(text), labels)
    ensures Data(args, labels) == Some(if Low(text) then 0x00FF else 0xFFFF)
  {
    hide Offset, Low, Base;
    assert args[0][1..] == text;
    UnknownOffset(text, labels);
  }

  /** A file with a branch to an unknown label is refused. */
  lemma UnknownBranchRefused(ss: seq<Statement>, buf: Image, i: nat, name: string)
    requires i < |ss| && ss[i].op.Some? && '.' !in name && Unknown(name, Declarations(ss, 0))
    requires Landing.Branches(ss[i].op.value) || Landing.BranchesIf(ss[i].op.value)
    requires var at := if Landing.Branches(ss[i].op.value) then 0 else 1;
             |ss[i].args| > at && ss[i].args[at] == "%" + name
    ensures Assembled(ss, buf).None?
  {
    hide Pass2, Reach, Landing.Branches, Landing.BranchesIf, Unknown, Declarations, Emitted;
    var ls := Declarations(ss, 0);
    BranchOps(ss[i].op.value);
    if Assembled(ss, buf).Some? {
      ReachBehind(ss, ls, Begin(buf), i, 0);
      var e := Reach(ss, ls, Begin(buf), i).value;
      BranchNeedsLabel(ss[i].op.value, ss[i].args, e.offset, ls, name);
      assert false;
    }
  }

  lemma BranchOps(op: string)
    requires Landing.Branches(op) || Landing.BranchesIf(op)
    ensures op != ".org" && op != ".data"
  {
    hide SameName;
    Landing.NoDirective(op);
  }

  lemma BranchNeedsLabel(op: string, args: seq<string>, offset: int, labels: seq<LabelDec>, name: string)
    requires Landing.Branches(op) || Landing.BranchesIf(op)
    requires var at := if Landing.Branches(op) then 0 else 1; |args| > at && args[at] == "%" + name
    requires '.' !in name && Unknown(name, labels)
    ensures Emitted(op, args, offset, labels).None?
  {
    hide Value, Values, Unknown, Instruction, SameName, Entry, Printer.Kinds, Landing.Holds;
    BranchOps(op);
    if Instruction(op, args, offset, labels).Some? {
      var w := Instruction(op, args, offset, labels).value;
      Landing.BranchRows();
      Landing.BranchIfRows();
      if Landing.Branches(op) {
        Landing.LineFields(op, if SameName(op, "ba") then 27 else 28, args, offset, labels, w);
        Printer.KindsAll(S11);
        Landing.OneValue(Printer.Kind('s', 11), args, offset, labels);
        PercentRefused(11, args[0], offset, labels, name);
      } else {
        Landing.LineFields(op, if SameName(op, "bz") then 29 else 30, args, offset, labels, w);
        Printer.KindsAll(RS8);
        Landing.TwoValues(Printer.Kind('r', 0), Printer.Kind('s', 8), args, offset, labels);
        PercentRefused(8, args[1], offset, labels, name);
      }
    }
  }

  lemma PercentRefused(bits: nat, arg: string, offset: int, labels: seq<LabelDec>, name: string)
    requires 0 < bits <= 16 && arg == "%" + name && '.' !in name && Unknown(name, labels)
    ensures Value(Printer.Kind('s', bits), arg, offset, labels) == None
  {
    hide Value, Unknown;
    assert arg[1..] == name;
    assert "@%"[1] == '%';
    UnknownPlainIff(Printer.Kind('s', bits), arg, offset, labels);
  }

  // ----- one line -----

  const LINE := "li r0, @nowhere"

  lemma LineTokens()
    ensures Statements([LINE]) == [Statement(None, Some("li"), ["r0", "@nowhere"])]
  {
    hide Split, Symbol, First;
    RoundTrip.SymbolLetters('r');
    assert "_.#@%-+"[3] == '@';
    assert LINE == "li" + " " + Joined(["r0", "@nowhere"]) + "" by {
      assert Joined(["r0", "@nowhere"]) == "r0" + ", " + Joined(["@nowhere"]);
    }
    EmptyTrailer();
    SplitWritten("li", ["r0", "@nowhere"], "");
    assert [LINE][1..] == [];
  }

  lemma EmptyTrailer()
    ensures Trailer("")
  {
  }

  lemma LineValues()
    ensures Values(Printer.KindsOf(RU8), ["r0", "@nowhere"], 0, []) == Some([0, -1])
  {
    hide Value;
    assert Text.PrintU(0) == "0";
    Landing.RegisterReads(0, 0, []);
    assert "@nowhere"[1..] == "nowhere" && "@%"[0] == '@';
    UnknownPlainIff(Printer.Kind('u', 8), "@nowhere", 0, []);
    var a, b := Printer.Kind('r', 0), Printer.Kind('u', 8);
    assert Landing.RegisterText(0) == "r0";
    assert ["r0", "@nowhere"][1..] == ["@nowhere"] && [a, b][1..] == [b];
    assert Values([b], ["@nowhere"], 0, []) == Some([-1]) by {
      assert [b][1..] == [] && [-1] + [] == [-1];
    }
    assert [0] + [-1] == [0, -1];
  }

  lemma LineWord()
    ensures Emitted("li", ["r0", "@nowhere"], 0, []) == Some(0x20FF)
  {
    hide Entry, Values, Printer.Kinds, Encoder.Encode, SameName, Find, ShapeOf;
    Landing.LoadRows();
    FindsOwn(16);
    AtMostThree(16);
    LineValues();
    ShapeOfLi();
    assert Padded([0, -1]) == [0, -1, 0];
    Encoder.EncodeIsJoin(16, [0, -1, 0]);
    assert "li"[0] != '.' && ".data"[0] == '.';
  }

  lemma ShapeOfLi()
    ensures ShapeOf(4) == RU8
  {
  }

  function OneWord(buf: Image, w: word): Emit { Emit(1, 1, buf[0 := w]) }

  /** A file of that one line is accepted, and loads 255. */
  lemma UnknownLabelAssembles(lines: seq<string>, buf: Image)
    requires lines == [LINE]
    ensures Assembled(Statements(lines), buf) == Some(OneWord(buf, 0x20FF))
  {
    hide Statements, Emitted;
    LineTokens();
    LineWord();
    var s := Statement(None, Some("li"), ["r0", "@nowhere"]);
    assert Declarations([s], 0) == [];
    assert Pass2([s][1..], [], OneWord(buf, 0x20FF)) == Some(OneWord(buf, 0x20FF));
  }
}
