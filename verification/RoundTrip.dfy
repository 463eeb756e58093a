/** Disassembling words and assembling the text again. */
module RoundTrip {
  import opened Words
  import opened Tokens
  import opened Labels
  import opened Assembler
  import opened InstrTable
  import opened Decoder
  import Encoder
  import Codec
  import Printer
  import Reader
  import Text
  import TwoPasses

  // ----- one operand -----

  predicate InRange(k: Printer.Kind, v: int) {
    if k.letter in "cqrx" then 0 <= v <= Limit(k.letter)
    else if k.letter == 's' then 0 < k.bits <= 16 && 0 - Pow2(k.bits - 1) <= v < Pow2(k.bits - 1)
    else k.letter == 'u' && k.bits <= 16 && 0 <= v < Pow2(k.bits)
  }

  lemma {:induction false} Pow2Small(k: nat)
    requires k <= 16
    ensures Pow2(k) <= 0x1_0000
  {
    hide Pow2;
    Pow2Values();
    Pow2Add(k, 16 - k);
    MulMono(1, Pow2(16 - k), Pow2(k));
  }

  lemma SmallRange(k: Printer.Kind, v: int)
    requires InRange(k, v)
    ensures -0x1_0000 <= v < 0x1_0000 && (k.letter != 's' ==> v >= 0)
  {
    hide Pow2;
    if k.letter == 's' { Pow2Small(k.bits - 1); } else if k.letter == 'u' { Pow2Small(k.bits); }
  }

  /** Reading an operand undoes printing it. */
  lemma ShownReads(k: Printer.Kind, v: int, offset: int, labels: seq<LabelDec>)
    requires InRange(k, v)
    ensures Value(k, Printer.Shown(k, v), offset, labels) == Some(v)
  {
    hide Pow2, Text.ReadInt, Text.PrintU, Offset, Distance;
    SmallRange(k, v);
    var t := Printer.Shown(k, v);
    ShownTail(k, v);
    assert "%#"[1] == '#' && "@#"[1] == '#';
    if k.letter in "cqrx" {
      Text.ReadsBack(v, 10);
    } else {
      Text.ReadsBack(v, 0);
    }
  }

  lemma ShownTail(k: Printer.Kind, v: int)
    requires InRange(k, v) && -0x1_0000 <= v < 0x1_0000 && (k.letter != 's' ==> v >= 0)
    ensures var t := Printer.Shown(k, v);
            t != "" && t[0] == (if k.letter in "cqrx" then k.letter else '#') && t[1..] == Text.PrintD(v)
  {
    hide Text.PrintU, Pow2;
    Letters6();
  }

  lemma Letters6()
    ensures 's' !in "cqrx" && 'u' !in "cqrx"
  {
  }

  lemma {:induction false} DigitsWord(n: nat)
    ensures Word(Text.PrintU(n))
  {
    if n >= 10 { DigitsWord(n / 10); }
  }

  lemma SymbolLetters(c: char)
    requires c in "cqrsux"
    ensures IsSym(c) && IsSym('#') && IsSym('-')
  {
    assert "_.#@%-+"[2] == '#' && "_.#@%-+"[5] == '-';
  }

  lemma ShownWord(k: Printer.Kind, v: int)
    requires k.letter in "cqrsux"
    ensures Word(Printer.Shown(k, v))
  {
    hide Text.PrintU, IsSym;
    SymbolLetters(k.letter);
    DigitsWord(v % 0x1_0000_0000);
    DigitsWord(if v < 0 then -v else v);
  }

  lemma {:induction false} TextsRead(kinds: seq<Printer.Kind>, fields: seq<int>, offset: int, labels: seq<LabelDec>)
    requires |kinds| <= |fields| && forall j :: 0 <= j < |kinds| ==> InRange(kinds[j], fields[j])
    ensures Values(kinds, Printer.Texts(kinds, fields), offset, labels) == Some(fields[..|kinds|])
  {
    hide Value, Printer.Shown, InRange;
    if kinds != [] {
      ShownReads(kinds[0], fields[0], offset, labels);
      TextsRead(kinds[1..], fields[1..], offset, labels);
      var t := Printer.Texts(kinds, fields);
      assert t[1..] == Printer.Texts(kinds[1..], fields[1..]);
      assert [fields[0]] + fields[1..][..|kinds| - 1] == fields[..|kinds|];
    }
  }

  lemma {:induction false} TextsWords(kinds: seq<Printer.Kind>, fields: seq<int>)
    requires |kinds| <= |fields| && Printer.Known(kinds)
    ensures var t := Printer.Texts(kinds, fields);
            |t| == |kinds| && forall x :: x in t ==> Word(x)
  {
    hide Printer.Shown, Word;
    if kinds != [] {
      assert Printer.Known(kinds[1..]);
      ShownWord(kinds[0], fields[0]);
      TextsWords(kinds[1..], fields[1..]);
    }
  }

  // ----- one word -----

  predicate Filled(h: Shape, f: seq<int>)
    requires |f| == 3
  {
    var ks := Printer.KindsOf(h);
    forall j :: 0 <= j < 3 ==> if j < |ks| then InRange(ks[j], f[j]) else f[j] == 0
  }

  lemma Bounds(x: int)
    ensures -1024 <= Sext(x, 2048) < 1024 && -128 <= Sext(x, 256) < 128 && -16 <= Sext(x, 32) < 16
  {
  }

  lemma SmallPowers()
    ensures Pow2(4) == 16 && Pow2(7) == 128 && Pow2(8) == 256 && Pow2(10) == 1024 && Pow2(11) == 2048
  {
    Pow2Values();
    assert Pow2(8) == 2 * Pow2(7);
    assert Pow2(11) == 2 * Pow2(10);
  }

  lemma RegisterLetters()
    ensures 'c' in "cqrx" && 'q' in "cqrx" && 'r' in "cqrx" && 'x' in "cqrx" && 's' !in "cqrx" && 'u' !in "cqrx"
  {
    var l := "cqrx";
    assert l[0] == 'c' && l[1] == 'q' && l[2] == 'r' && l[3] == 'x';
  }

  lemma FieldsFilled(w: word)
    ensures Filled(ShapeOf(w / 2048), Encoder.Operands(Fields(w)))
  {
    hide Fields, ShapeOf, Sext, Pow2;
    Codec.FieldsByShape(w);
    Bounds(w);
    SmallPowers();
    RegisterLetters();
  }

  lemma Trimmed(h: Shape, f: seq<int>)
    requires |f| == 3 && Filled(h, f)
    ensures |Printer.KindsOf(h)| <= 3 && Padded(f[..|Printer.KindsOf(h)|]) == f
    ensures forall j :: 0 <= j < |Printer.KindsOf(h)| ==> InRange(Printer.KindsOf(h)[j], f[j])
  {
    hide InRange;
    ThreeKinds(h);
    var n := |Printer.KindsOf(h)|;
    hide Printer.KindsOf;
    var p := Padded(f[..n]);
    assert forall j :: 0 <= j < 3 ==> p[j] == f[j];
  }

  lemma ThreeKinds(h: Shape)
    ensures |Printer.KindsOf(h)| <= 3
  {
  }

  function Name(w: word): string { Entry(Printer.Row(w)).nmemonic }

  /** The text of a word, at any place and with any labels, gives its canonical form. */
  lemma WordAssembles(w: word, offset: int, labels: seq<LabelDec>)
    ensures Instruction(Name(w), Printer.Arguments(w), offset, labels) == Some(Encoder.Canon(w))
  {
    hide Entry, Fields, ShapeOf, Encoder.Canon, Values, Encoder.Encode, Printer.Kinds, Printer.KindsOf,
         Printer.Texts, Filled;
    var i, h, f := Printer.Row(w), ShapeOf(w / 2048), Encoder.Operands(Fields(w));
    FindsOwn(i);
    Printer.OpcodeOf(w);
    AtMostThree(i);
    FieldsFilled(w);
    Trimmed(h, f);
    TextsRead(Printer.KindsOf(h), f, offset, labels);
    Codec.AssembleDecoded(w);
  }

  lemma Spelling(i: nat)
    requires i < LEN
    ensures Word(Entry(i).nmemonic) && Entry(i).nmemonic != ".data" && Entry(i).nmemonic != ".org"
  {
    hide Entry;
    Spelled(i);
    assert ".data"[0] == '.' && ".org"[0] == '.';
  }

  /** The disassembler's line, whatever comment is put behind it, splits into name and operands. */
  lemma LineSplits(w: word, tail: string)
    requires Trailer(tail)
    ensures Split(Printer.Line(w) + tail) == Statement(None, Some(Name(w)), Printer.Arguments(w))
    ensures Name(w) != ".data" && Name(w) != ".org"
  {
    hide Entry, Fields, ShapeOf, Split, Word, Trailer, Printer.KindsOf, Printer.Texts, Printer.Known;
    var h := ShapeOf(w / 2048);
    Spelling(Printer.Row(w));
    ThreeKinds(h);
    Printer.AllKnown(h);
    TextsWords(Printer.KindsOf(h), Encoder.Operands(Fields(w)));
    SplitWritten(Name(w), Printer.Arguments(w), tail);
  }

  // ----- whole files -----

  /** One line for each word, with blanks or a comment behind. */
  predicate Listing(lines: seq<string>, ws: seq<word>, tails: seq<string>) {
    && |lines| == |ws| == |tails|
    && forall j :: 0 <= j < |ws| ==> Trailer(tails[j]) && lines[j] == Printer.Line(ws[j]) + tails[j]
  }

  function Canonical(ws: seq<word>): (r: seq<word>)
    ensures |r| == |ws|
  {
    seq(|ws|, i requires 0 <= i < |ws| => Encoder.Canon(ws[i]))
  }

  predicate AreLines(ss: seq<Statement>, ws: seq<word>) {
    |ss| == |ws| && forall j :: 0 <= j < |ss| ==> ss[j] == Statement(None, Some(Name(ws[j])), Printer.Arguments(ws[j]))
  }

  lemma {:induction false} ListingSplits(lines: seq<string>, ws: seq<word>, tails: seq<string>)
    requires Listing(lines, ws, tails)
    ensures AreLines(Statements(lines), ws)
  {
    hide Split, Name, Printer.Line, Printer.Arguments, Trailer;
    if lines != [] {
      LineSplits(ws[0], tails[0]);
      ListingSplits(lines[1..], ws[1..], tails[1..]);
      assert Statements(lines) == [Split(lines[0])] + Statements(lines[1..]);
    }
  }

  /** r is e with ws put behind what there is, if they leave room in the buffer. */
  predicate Extends(r: Option<Emit>, e: Emit, ws: seq<word>) {
    && (r.Some? <==> e.top + |ws| < MAX_WORDS)
    && (r.Some? ==>
          && 0 <= e.top && r.value.top == e.top + |ws|
          && r.value.image == e.image[..e.top] + Canonical(ws) + e.image[e.top + |ws|..])
  }

  function Next(e: Emit, w: word): Emit
    requires 0 <= e.offset == e.top < MAX_WORDS
  {
    Emit(e.offset + 1, e.top + 1, e.image[e.offset := Encoder.Canon(w)])
  }

  /** Straight code fills the image from where it starts, unless it runs up to the buffer's end. */
  lemma {:induction false} Straight(ss: seq<Statement>, ws: seq<word>, labels: seq<LabelDec>, e: Emit)
    requires AreLines(ss, ws) && 0 <= e.offset == e.top < MAX_WORDS
    ensures Extends(Pass2(ss, labels, e), e, ws)
  {
    hide Name, Printer.Arguments, Encoder.Canon, Extends, Advance;
    if ss == [] {
      NothingAdded(e);
    } else {
      OneLine(ss[0], ws[0], labels, e);
      if e.top + 1 < MAX_WORDS {
        var n := Next(e, ws[0]);
        Straight(ss[1..], ws[1..], labels, n);
        Appended(Pass2(ss[1..], labels, n), e, ws);
      } else {
        NoRoom(e, ws);
      }
    }
  }

  lemma NothingAdded(e: Emit)
    requires 0 <= e.top < MAX_WORDS
    ensures Extends(Some(e), e, [])
  {
    assert e.image == e.image[..e.top] + [] + e.image[e.top..];
  }

  lemma NoRoom(e: Emit, ws: seq<word>)
    requires ws != [] && e.top + 1 >= MAX_WORDS
    ensures Extends(None, e, ws)
  {
  }

  lemma OneLine(s: Statement, w: word, labels: seq<LabelDec>, e: Emit)
    requires 0 <= e.offset == e.top < MAX_WORDS
    requires s == Statement(None, Some(Name(w)), Printer.Arguments(w))
    ensures Advance(s, labels, e) == if e.top + 1 < MAX_WORDS then Some(Next(e, w)) else None
  {
    hide Name, Printer.Arguments, Instruction, Encoder.Canon, Split, IsSym;
    WordAssembles(w, e.offset, labels);
    NamesNoDirective(w);
  }

  lemma NamesNoDirective(w: word)
    ensures Name(w) != ".data" && Name(w) != ".org"
  {
    hide Entry, IsSym;
    Spelling(Printer.Row(w));
  }

  lemma Appended(r: Option<Emit>, e: Emit, ws: seq<word>)
    requires ws != [] && 0 <= e.offset == e.top && e.top + 1 < MAX_WORDS
    requires Extends(r, Next(e, ws[0]), ws[1..])
    ensures Extends(r, e, ws)
  {
    hide Encoder.Canon;
    assert Canonical(ws) == [Encoder.Canon(ws[0])] + Canonical(ws[1..]);
    assert Next(e, ws[0]).image[..e.top + 1] == e.image[..e.top] + [Encoder.Canon(ws[0])];
    if r.Some? {
      assert Next(e, ws[0]).image[e.top + |ws|..] == e.image[e.top + |ws|..];
    }
  }

  /** Disassemble words, put any comments behind, and assemble: the image is the words with their
      blank digits zeroed. It is refused just when it would fill the whole buffer. */
  lemma TextRoundTrip(ws: seq<word>, lines: seq<string>, tails: seq<string>, buf: Image)
    requires Listing(lines, ws, tails)
    ensures var ss := Statements(lines);
            var r := Pass2(ss, Declarations(ss, 0), Emit(0, 0, buf));
            && (r.Some? <==> |ws| < 0x1_0000)
            && (r.Some? ==> r.value.top == |ws| && r.value.image == Canonical(ws) + buf[|ws|..])
  {
    hide Pass2, Declarations, Canonical, AreLines, Listing;
    var ss := Statements(lines);
    ListingSplits(lines, ws, tails);
    Straight(ss, ws, Declarations(ss, 0), Emit(0, 0, buf));
    assert buf[..0] == [];
    if |ws| < MAX_WORDS { assert [] + Canonical(ws) == Canonical(ws); }
  }

  /** Disassembling what came out and assembling again changes nothing more. */
  lemma CanonicalIsStable(ws: seq<word>)
    ensures Canonical(Canonical(ws)) == Canonical(ws)
  {
    hide Encoder.Canon;
    forall j | 0 <= j < |ws|
      ensures Encoder.Canon(Encoder.Canon(ws[j])) == Encoder.Canon(ws[j])
    {
      Codec.BlanksMeanNothing(ws[j]);
    }
  }

  // ----- neither the comments nor the line buffers get in the way -----

  /** What the disassembler puts behind a line, with comments and without. */
  lemma DisassemblerTrailers(t: string)
    ensures Trailer("\n") && Trailer(" ; " + t)
  {
    var s := " ; " + t;
    assert s[0] == ' ' && s[1] == ';';
    assert First(s, ';') == 1;
    assert s[..1] == " ";
    Separators();
    assert First("\n", ';') == 1;
    assert "\n"[..1] == "\n";
  }

  lemma {:induction false} ShortNumber(n: nat, k: nat, p: nat)
    requires k > 0 && n < p && p == Pow10(k)
    ensures |Text.PrintU(n)| <= k
  {
    if n >= 10 { ShortNumber(n / 10, k - 1, p / 10); }
  }

  function Pow10(k: nat): nat { if k == 0 then 1 else 10 * Pow10(k - 1) }

  lemma ShortOperand(k: Printer.Kind, v: int)
    requires InRange(k, v)
    ensures |Printer.Shown(k, v)| <= 7
  {
    hide Text.PrintU, InRange;
    SmallRange(k, v);
    assert Pow10(5) == 100000;
    ShortNumber(if v < 0 then -v else v, 5, 100000);
  }

  lemma {:induction false} ShortTexts(kinds: seq<Printer.Kind>, fields: seq<int>)
    requires |kinds| <= |fields| && forall j :: 0 <= j < |kinds| ==> InRange(kinds[j], fields[j])
    ensures |Joined(Printer.Texts(kinds, fields))| <= 9 * |kinds|
  {
    hide Printer.Shown, InRange;
    if kinds != [] {
      ShortOperand(kinds[0], fields[0]);
      ShortTexts(kinds[1..], fields[1..]);
      Printer.TextsStep(kinds, fields);
    }
  }

  /** A line is far shorter than the 256 characters that either program has room for. */
  lemma LineFits(w: word)
    ensures |Printer.Line(w)| <= 33
  {
    hide Entry, Fields, ShapeOf, Joined, Printer.KindsOf, Printer.Texts, Filled;
    var h, f := ShapeOf(w / 2048), Encoder.Operands(Fields(w));
    Spelled(Printer.Row(w));
    FieldsFilled(w);
    Trimmed(h, f);
    ShortTexts(Printer.KindsOf(h), f);
  }

  // ----- one text -----

  predicate Unbroken(s: string) { forall j :: 0 <= j < |s| ==> !Reader.Sentinel(s[j]) }

  lemma UnbrokenWord(t: string)
    requires Word(t)
    ensures Unbroken(t)
  {
    assert !IsSym('\n') && !IsSym('\0');
  }

  lemma {:induction false} UnbrokenJoined(texts: seq<string>)
    requires forall t :: t in texts ==> Word(t)
    ensures Unbroken(Joined(texts))
  {
    hide Word;
    if texts != [] {
      UnbrokenWord(texts[0]);
      UnbrokenJoined(texts[1..]);
    }
  }

  lemma LineUnbroken(w: word)
    ensures Unbroken(Printer.Line(w))
  {
    hide Entry, Fields, ShapeOf, Word, Printer.KindsOf, Printer.Texts, Printer.Known, Joined;
    var h := ShapeOf(w / 2048);
    Spelling(Printer.Row(w));
    ThreeKinds(h);
    Printer.AllKnown(h);
    TextsWords(Printer.KindsOf(h), Encoder.Operands(Fields(w)));
    UnbrokenWord(Name(w));
    UnbrokenJoined(Printer.Arguments(w));
  }

  /** A printed line is a line of the text when its trailer ends one, and the trailer may fill the buffer
      from the thirty-third character on. */
  lemma WrittenLine(w: word, tail: string)
    requires Reader.IsLine(tail)
    ensures Reader.IsLine(Printer.Line(w) + tail)
    ensures |tail| <= Reader.ROOM - 33 ==> |Printer.Line(w) + tail| <= Reader.ROOM
  {
    hide Printer.Line;
    LineUnbroken(w);
    LineFits(w);
  }

  /** The disassembler's output as one text: it is read back line by line exactly when each line, comment
      and all, fits the buffer, and then assembles to the canonical words. */
  lemma FileRoundTrip(ws: seq<word>, lines: seq<string>, tails: seq<string>, buf: Image)
    requires Listing(lines, ws, tails) && Reader.AllLines(lines)
    ensures Reader.Lines(Reader.Concat(lines)) == lines <==> Reader.AllFit(lines)
    ensures Reader.AllFit(lines) ==>
              var r := TwoPasses.Assembled(Statements(Reader.Lines(Reader.Concat(lines))), buf);
              && (r.Some? <==> |ws| < 0x1_0000)
              && (r.Some? ==> r.value.top == |ws| && r.value.image == Canonical(ws) + buf[|ws|..])
  {
    hide Printer.Line, Reader.IsLine, Reader.Lines, Statements, Pass2, Declarations, Canonical;
    Reader.LinesBackIff(lines);
    TextRoundTrip(ws, lines, tails, buf);
  }

  // ----- and from text to words and back -----

  /** An accepted instruction line, printed from its word, is accepted again and gives the same word. */
  lemma AcceptedPrintsBack(op: string, args: seq<string>, offset: int, labels: seq<LabelDec>, w: word,
                           offset': int, labels': seq<LabelDec>)
    requires Instruction(op, args, offset, labels) == Some(w)
    ensures Instruction(Name(w), Printer.Arguments(w), offset', labels') == Some(w)
  {
    hide Entry, Printer.Kinds, Values, Encoder.Encode, Name, Printer.Arguments, Encoder.Canon, Find;
    var i := Find(op, 0);
    var vs := Values(Printer.Kinds(Entry(i).syntax), args, offset, labels).value;
    AtMostThree(i);
    Codec.AssembledIsCanonical(i, Padded(vs));
    WordAssembles(w, offset', labels');
  }
}
