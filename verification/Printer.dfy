/** Operand syntax, and printing one instruction word as a line of assembly. */
module Printer {
  import opened Words
  import opened InstrTable
  import opened Decoder
  import Encoder
  import Codec
  import Text
  import opened Tokens

  // ----- operand syntax -----

  /** A register letter, or s or u for a number with so many bits. */
  datatype Kind = Kind(letter: char, bits: nat)

  predicate Numeric(c: char) { c == 's' || c == 'u' }

  function Kinds(syntax: string): seq<Kind> {
    if syntax == "" then []
    else if Numeric(syntax[0]) then
      var rest := syntax[1..];
      [Kind(syntax[0], Text.Digits(rest, 10, 0))] + Kinds(rest[Text.Run(rest)..])
    else [Kind(syntax[0], 0)] + Kinds(syntax[1..])
  }

  function KindsOf(h: Shape): seq<Kind> {
    match h
    case RRR => [Kind('r', 0), Kind('r', 0), Kind('r', 0)]
    case RU4 => [Kind('r', 0), Kind('u', 4)]
    case RU8 => [Kind('r', 0), Kind('u', 8)]
    case NONE => []
    case S11 => [Kind('s', 11)]
    case RS8 => [Kind('r', 0), Kind('s', 8)]
    case RRS5 => [Kind('r', 0), Kind('r', 0), Kind('s', 5)]
    case RCX => [Kind('r', 0), Kind('c', 0), Kind('x', 0)]
    case RC => [Kind('r', 0), Kind('c', 0)]
    case U11 => [Kind('u', 11)]
    case RQ => [Kind('r', 0), Kind('q', 0)]
  }

  lemma KindsNone()
    ensures Kinds("") == []
  {
  }

  lemma KindsReg(c: char, rest: string)
    requires !Numeric(c)
    ensures Kinds([c] + rest) == [Kind(c, 0)] + Kinds(rest)
  {
    assert ([c] + rest)[1..] == rest;
  }

  lemma KindsDigit(c: char, d: char)
    requires Numeric(c) && '0' <= d <= '9'
    ensures Kinds([c, d]) == [Kind(c, d as int - '0' as int)]
  {
    var t := [c, d][1..];
    assert t[0] == d && t[1..] == "";
    assert Text.Run(t) == 1 && Text.Digits(t, 10, 0) == Text.Digits("", 10, d as int - '0' as int);
    KindsNone();
  }

  lemma KindsEleven(c: char)
    requires Numeric(c)
    ensures Kinds([c, '1', '1']) == [Kind(c, 11)]
  {
    var t := [c, '1', '1'][1..];
    assert t[1..] == ['1'] && t[1..][1..] == "";
    assert Text.Digits(t, 10, 0) == Text.Digits(['1'], 10, 1) == 11;
    assert Text.Run(t) == 2;
    KindsNone();
  }

  lemma KindsAll(h: Shape)
    ensures Kinds(Syntax(h)) == KindsOf(h)
  {
    hide Kinds, Text.Digits, Text.Run;
    KindsNone();
    match h
    case RRR => KindsRegs3('r', 'r', 'r');
    case RU4 => KindsRegNumber('r', 'u', '4');
    case RU8 => KindsRegNumber('r', 'u', '8');
    case NONE =>
    case S11 => KindsEleven('s');
    case RS8 => KindsRegNumber('r', 's', '8');
    case RRS5 =>
      assert "rrs5" == ['r'] + ['r', 's', '5'];
      KindsReg('r', ['r', 's', '5']);
      KindsRegNumber('r', 's', '5');
    case RCX => KindsRegs3('r', 'c', 'x');
    case RC => KindsRegs2('r', 'c');
    case U11 => KindsEleven('u');
    case RQ => KindsRegs2('r', 'q');
  }

  lemma KindsRegs2(a: char, b: char)
    requires !Numeric(a) && !Numeric(b)
    ensures Kinds([a, b]) == [Kind(a, 0), Kind(b, 0)]
  {
    hide Kinds;
    KindsReg(a, [b]);
    KindsReg(b, "");
    KindsNone();
    assert [a, b] == [a] + [b] && [b] == [b] + "";
  }

  lemma KindsRegs3(a: char, b: char, c: char)
    requires !Numeric(a) && !Numeric(b) && !Numeric(c)
    ensures Kinds([a, b, c]) == [Kind(a, 0), Kind(b, 0), Kind(c, 0)]
  {
    hide Kinds;
    KindsReg(a, [b, c]);
    KindsRegs2(b, c);
    assert [a, b, c] == [a] + [b, c];
  }

  lemma KindsRegNumber(r: char, c: char, d: char)
    requires !Numeric(r) && Numeric(c) && '0' <= d <= '9'
    ensures Kinds([r, c, d]) == [Kind(r, 0), Kind(c, d as int - '0' as int)]
  {
    hide Kinds;
    KindsReg(r, [c, d]);
    KindsDigit(c, d);
    assert [r, c, d] == [r] + [c, d];
  }

  // ----- one line -----

  /** An operand in the text: a register, or # and a number. */
  function Shown(k: Kind, v: int): string {
    if k.letter == 's' then "#" + Text.PrintD(v)
    else if k.letter == 'u' then "#" + Text.PrintU(v % 0x1_0000_0000)
    else [k.letter] + Text.PrintU(v % 0x1_0000_0000)
  }

  function Texts(kinds: seq<Kind>, fields: seq<int>): seq<string>
    requires |kinds| <= |fields|
  {
    if kinds == [] then [] else [Shown(kinds[0], fields[0])] + Texts(kinds[1..], fields[1..])
  }

  function Row(w: word): nat
    ensures Row(w) < LEN
  {
    Codec.RowInTable(w);
    Codec.RowOf(w)
  }

  function Arguments(w: word): seq<string> {
    Texts(KindsOf(ShapeOf(w / 2048)), Encoder.Operands(Fields(w)))
  }

  function Line(w: word): string { Entry(Row(w)).nmemonic + " " + Joined(Arguments(w)) }

  lemma TextsStep(kinds: seq<Kind>, fields: seq<int>)
    requires 0 < |kinds| <= |fields|
    ensures Joined(Texts(kinds, fields)) ==
            Shown(kinds[0], fields[0]) + (if |kinds| > 1 then ", " else "") + Joined(Texts(kinds[1..], fields[1..]))
  {
    var t := Texts(kinds, fields);
    assert t[1..] == Texts(kinds[1..], fields[1..]);
    if |kinds| > 1 { assert |Texts(kinds[1..], fields[1..])| >= 1; }
  }

  /** What is still to be printed at place i of the syntax with k operands printed. */
  function Rest(syntax: string, i: nat, fields: seq<int>, k: nat): string
    requires i <= |syntax| && k <= |fields| && |Kinds(syntax[i..])| <= |fields| - k
  {
    Joined(Texts(Kinds(syntax[i..]), fields[k..]))
  }

  /** Where the operand at place i ends, and how wide it is. */
  function KindEnd(syntax: string, i: nat): (j: nat)
    requires i < |syntax|
    ensures i < j <= |syntax|
  {
    if Numeric(syntax[i]) then i + 1 + Text.Run(syntax[i + 1..]) else i + 1
  }

  function KindBits(syntax: string, i: nat): nat
    requires i < |syntax|
  {
    if Numeric(syntax[i]) then Text.Digits(syntax[i + 1..], 10, 0) else 0
  }

  lemma KindsAt(syntax: string, i: nat)
    requires i < |syntax|
    ensures Kinds(syntax[i..]) == [Kind(syntax[i], KindBits(syntax, i))] + Kinds(syntax[KindEnd(syntax, i)..])
    ensures KindEnd(syntax, i) < |syntax| <==> |Kinds(syntax[i..])| > 1
  {
    hide Text.Digits, Text.Run;
    var t := syntax[i + 1..];
    assert syntax[i..][1..] == t;
    assert t[Text.Run(t)..] == syntax[i + 1 + Text.Run(t)..];
  }

  lemma OneOperand(syntax: string, i: nat, fields: seq<int>, k: nat)
    requires i < |syntax| && k <= |fields| && |Kinds(syntax[i..])| <= |fields| - k
    ensures k < |fields| && |Kinds(syntax[KindEnd(syntax, i)..])| <= |fields| - k - 1
    ensures var j := KindEnd(syntax, i);
            Rest(syntax, i, fields, k) ==
            Shown(Kind(syntax[i], 0), fields[k]) + (if j < |syntax| then ", " else "") + Rest(syntax, j, fields, k + 1)
  {
    hide Kinds, KindEnd, KindBits, Shown, Joined, Texts;
    var ks := Kinds(syntax[i..]);
    KindsAt(syntax, i);
    assert ks[1..] == Kinds(syntax[KindEnd(syntax, i)..]);
    assert fields[k..][1..] == fields[k + 1..];
    TextsStep(ks, fields[k..]);
    ShownLetter(ks[0], fields[k]);
  }

  lemma ShownLetter(k: Kind, v: int)
    ensures Shown(k, v) == Shown(Kind(k.letter, 0), v)
  {
  }

  predicate Known(kinds: seq<Kind>) { forall j :: 0 <= j < |kinds| ==> kinds[j].letter in "cqrsux" }

  method PrintOperands(head: string, syntax: string, fields: seq<int>) returns (status: int, outstr: string)
    requires |Kinds(syntax[0..])| <= |fields| && Known(Kinds(syntax[0..]))
    ensures status == 0 && outstr == head + Rest(syntax, 0, fields, 0)
  {
    hide Kinds, Rest, Shown, KindEnd, Known;
    outstr := head;
    var argnum := 0;
    var i := 0;
    while i < |syntax|
      invariant i <= |syntax| && argnum <= |fields| && |Kinds(syntax[i..])| <= |fields| - argnum
      invariant Known(Kinds(syntax[i..]))
      invariant head + Rest(syntax, 0, fields, 0) == outstr + Rest(syntax, i, fields, argnum)
    {
      OneOperand(syntax, i, fields, argnum);
      KnownStep(syntax, i);
      var c := syntax[i];
      if c !in "cqrsux" {
        return -1, outstr;
      }
      outstr := outstr + Shown(Kind(c, 0), fields[argnum]);
      argnum := argnum + 1;
      i := KindEnd(syntax, i);
      if i < |syntax| {
        outstr := outstr + ", ";
      }
    }
    NothingLeft(syntax, fields, argnum);
    status := 0;
  }

  lemma KnownStep(syntax: string, i: nat)
    requires i < |syntax| && Known(Kinds(syntax[i..]))
    ensures syntax[i] in "cqrsux" && Known(Kinds(syntax[KindEnd(syntax, i)..]))
  {
    hide Kinds, KindEnd, KindBits;
    KindsAt(syntax, i);
    var ks := Kinds(syntax[i..]);
    assert ks[0].letter == syntax[i];
    assert ks[1..] == Kinds(syntax[KindEnd(syntax, i)..]);
  }

  method Disassemble(instr: word) returns (status: int, outstr: string)
    ensures status == 0 && outstr == Line(instr)
  {
    hide Line, Entry, Kinds, Rest, Fields, Known;
    var _, d := DecodeInstruction(instr);
    Codec.RowInTable(instr);
    var _, nmemonic := Encoder.ResolveNmemonic(d.opcode, d.subcode);
    var found, syntax := Encoder.NmemonicSyntax(nmemonic);
    SyntaxFound(instr, nmemonic, syntax);
    status, outstr := PrintOperands(nmemonic + " ", syntax, Encoder.Operands(d));
  }

  lemma NothingLeft(syntax: string, fields: seq<int>, k: nat)
    requires k <= |fields| && |Kinds(syntax[|syntax|..])| <= |fields| - k
    ensures Rest(syntax, |syntax|, fields, k) == ""
  {
    assert syntax[|syntax|..] == "";
  }

  lemma SyntaxFound(w: word, nmemonic: string, syntax: string)
    requires nmemonic == Entry(Row(w)).nmemonic
    requires Find(nmemonic, 0) < LEN ==> syntax == Entry(Find(nmemonic, 0)).syntax
    ensures |Kinds(syntax[0..])| <= 3 && Known(Kinds(syntax[0..]))
    ensures Line(w) == nmemonic + " " + Rest(syntax, 0, Encoder.Operands(Fields(w)), 0)
  {
    hide Entry, Syntax, ShapeOf, Kinds, Fields, Format, Texts, Joined, Known;
    AllKnown(ShapeOf(w / 2048));
    FindsOwn(Row(w));
    RegularAll(Row(w));
    KindsAll(ShapeOf(w / 2048));
    Codec.RowInTable(w);
    OpcodeOf(w);
    assert syntax[0..] == syntax;
    var f := Encoder.Operands(Fields(w));
    assert f[0..] == f;
  }

  lemma AllKnown(h: Shape)
    ensures Known(KindsOf(h))
  {
    var l := "cqrsux";
    assert l[0] == 'c' && l[1] == 'q' && l[2] == 'r' && l[3] == 's' && l[4] == 'u' && l[5] == 'x';
  }

  lemma OpcodeOf(w: word)
    ensures Fields(w).opcode == w / 2048 && Entry(Row(w)).opcode == w / 2048
  {
    hide Entry, Sext, Format, Syntax, ShapeOf;
    Codec.RowInTable(w);
    RegularAll(Row(w));
  }
}
