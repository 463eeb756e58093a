/** What the two passes agree on, and where the second one writes. */
module TwoPasses {
  import opened Words
  import opened Tokens
  import opened Labels
  import opened Assembler
  import Decoder
  import Reader
  import Text

  predicate Fine(e: Emit) {
    -0x8000_0000 <= e.offset <= e.top < MAX_WORDS && 0 <= e.top
  }

  /** The state of the second pass on reaching line i. */
  function Reach(ss: seq<Statement>, labels: seq<LabelDec>, e: Emit, i: nat): Option<Emit>
    requires i <= |ss|
  {
    Pass2(ss[..i], labels, e)
  }

  predicate Emits(s: Statement) { s.op.Some? && !IsOrg(s) }

  lemma Int32Range(x: int)
    ensures -0x8000_0000 <= Decoder.Int32(x) < 0x8000_0000
  {
  }

  lemma TargetRange(s: Statement)
    ensures -0x8000_0000 <= Target(s) < 0x8000_0000
  {
    hide Text.Strtol, Decoder.Int32;
    if s.args != [] { Int32Range(Text.Strtol(s.args[0], 0)); }
  }

  lemma Wrapped(x: int)
    requires -0x8000_0000 <= x < 0x8000_0000
    ensures Decoder.Int32(U32(x)) == x
  {
  }

  lemma U32Next(x: int)
    ensures U32(U32(x) + 1) == U32(x + 1)
  {
  }

  /** One line, in both passes. */
  lemma AdvanceAgrees(s: Statement, labels: seq<LabelDec>, e: Emit, off: nat)
    requires Fine(e) && off == U32(e.offset) && Advance(s, labels, e).Some?
    ensures var n := Advance(s, labels, e).value;
            Fine(n) && After(s, off) == U32(n.offset) && e.top <= n.top
            && forall k :: n.top <= k < MAX_WORDS ==> n.image[k] == e.image[k]
  {
    hide Target, U32, Emitted;
    TargetRange(s);
    U32Next(e.offset);
  }

  lemma PrefixStep(ss: seq<Statement>, labels: seq<LabelDec>, e: Emit, i: nat)
    requires 0 < i <= |ss|
    ensures Reach(ss, labels, e, i) ==
            match Advance(ss[0], labels, e)
            case None => None
            case Some(n) => Reach(ss[1..], labels, n, i - 1)
  {
    hide Advance;
    assert ss[..i][1..] == ss[1..][..i - 1];
  }

  /** An accepted file: the offset the first pass recorded for a label, read back as a signed
      integer, is the offset of the second pass on reaching its line. The first declaration of a
      name counts. */
  lemma {:induction false} LabelsAgree(ss: seq<Statement>, labels: seq<LabelDec>, e: Emit, off: nat, i: nat)
    requires Fine(e) && off == U32(e.offset) && Pass2(ss, labels, e).Some?
    requires i < |ss| && Records(ss[i])
    requires forall j :: 0 <= j < i && Records(ss[j]) ==> ss[j].name != ss[i].name
    ensures Reach(ss, labels, e, i).Some?
    ensures Declared(ss[i].name.value, Declarations(ss, off)) == Reach(ss, labels, e, i).value.offset
  {
    hide Advance, U32, After, Decoder.Int32;
    if i == 0 {
      Wrapped(e.offset);
    } else {
      var n := Advance(ss[0], labels, e).value;
      AdvanceAgrees(ss[0], labels, e, off);
      PrefixStep(ss, labels, e, i);
      LabelsAgree(ss[1..], labels, n, After(ss[0], off), i - 1);
      SkipOther(ss, off, ss[i].name.value);
    }
  }

  lemma SkipOther(ss: seq<Statement>, off: nat, name: string)
    requires ss != [] && (Records(ss[0]) ==> ss[0].name.value != name)
    ensures Declared(name, Declarations(ss, off)) == Declared(name, Declarations(ss[1..], After(ss[0], off)))
  {
    hide After, Decoder.Int32;
    var more := Declarations(ss[1..], After(ss[0], off));
    if Records(ss[0]) {
      assert Declarations(ss, off)[1..] == more;
    } else {
      assert [] + more == more;
    }
  }

  /** The image covers every word written, and nothing above it is touched. */
  lemma {:induction false} ImageCovers(ss: seq<Statement>, labels: seq<LabelDec>, e: Emit)
    requires Fine(e) && Pass2(ss, labels, e).Some?
    ensures var r := Pass2(ss, labels, e).value;
            Fine(r) && e.top <= r.top
            && forall k :: r.top <= k < MAX_WORDS ==> r.image[k] == e.image[k]
  {
    hide Advance, U32, After;
    if ss != [] {
      AdvanceAgrees(ss[0], labels, e, U32(e.offset));
      ImageCovers(ss[1..], labels, Advance(ss[0], labels, e).value);
    }
  }

  /** The second pass stops nowhere before the end. */
  lemma {:induction false} Reached(ss: seq<Statement>, labels: seq<LabelDec>, e: Emit, i: nat)
    requires Fine(e) && Pass2(ss, labels, e).Some? && i <= |ss|
    ensures Reach(ss, labels, e, i).Some? && Fine(Reach(ss, labels, e, i).value)
    ensures Pass2(ss, labels, e) == Pass2(ss[i..], labels, Reach(ss, labels, e, i).value)
  {
    hide Advance, U32, After;
    if i == 0 {
      assert ss[..0] == [] && ss[0..] == ss;
    } else {
      AdvanceAgrees(ss[0], labels, e, U32(e.offset));
      PrefixStep(ss, labels, e, i);
      Reached(ss[1..], labels, Advance(ss[0], labels, e).value, i - 1);
      assert ss[1..][i - 1..] == ss[i..];
    }
  }

  /** No line from i on puts a word at a. */
  predicate Avoids(ss: seq<Statement>, labels: seq<LabelDec>, e: Emit, i: nat, a: int) {
    forall j :: i <= j < |ss| && Reach(ss, labels, e, j).Some? && Emits(ss[j])
                ==> Reach(ss, labels, e, j).value.offset != a
  }

  /** No line behind i puts a word where line i does. */
  predicate LastThere(ss: seq<Statement>, labels: seq<LabelDec>, e: Emit, i: nat)
    requires i < |ss|
  {
    Reach(ss, labels, e, i).Some? ==> Avoids(ss, labels, e, i + 1, Reach(ss, labels, e, i).value.offset)
  }

  /** Words are at the offsets of their lines, inside the image. */
  lemma WordInImage(ss: seq<Statement>, labels: seq<LabelDec>, e: Emit, i: nat)
    requires Fine(e) && Pass2(ss, labels, e).Some?
    requires i < |ss| && Emits(ss[i]) && LastThere(ss, labels, e, i)
    ensures Reach(ss, labels, e, i).Some?
    ensures var a, r := Reach(ss, labels, e, i).value.offset, Pass2(ss, labels, e).value;
            0 <= a < r.top < MAX_WORDS && Emitted(ss[i].op.value, ss[i].args, a, labels) == Some(r.image[a])
  {
    hide Emitted, U32, After;
    Reached(ss, labels, e, i);
    var m := Reach(ss, labels, e, i).value;
    var n := Advance(ss[i], labels, m).value;
    AdvanceAgrees(ss[i], labels, m, U32(m.offset));
    var more := ss[i + 1..];
    forall j | 0 <= j < |more| && Reach(more, labels, n, j).Some? && Emits(more[j])
      ensures Reach(more, labels, n, j).value.offset != m.offset
    {
      ReachBehind(ss, labels, e, i, j);
      assert Reach(ss, labels, e, i + 1 + j) == Reach(more, labels, n, j);
    }
    assert ss[i..][1..] == more;
    Undisturbed(more, labels, n, m.offset);
    ImageCovers(more, labels, n);
  }

  lemma ReachBehind(ss: seq<Statement>, labels: seq<LabelDec>, e: Emit, i: nat, j: nat)
    requires Fine(e) && Pass2(ss, labels, e).Some?
    requires i < |ss| && j <= |ss| - i - 1
    ensures Reach(ss, labels, e, i).Some? && Advance(ss[i], labels, Reach(ss, labels, e, i).value).Some?
    ensures Reach(ss, labels, e, i + 1 + j) ==
            Reach(ss[i + 1..], labels, Advance(ss[i], labels, Reach(ss, labels, e, i).value).value, j)
  {
    hide Advance;
    Reached(ss, labels, e, i);
    Reached(ss, labels, e, i + 1 + j);
    var p := ss[..i + 1 + j];
    Reached(p, labels, e, i);
    assert p[..i] == ss[..i] && p[i..][0] == ss[i] && p[i..][1..] == ss[i + 1..][..j];
    assert ss[i..][0] == ss[i];
  }

  lemma {:induction false} Undisturbed(ss: seq<Statement>, labels: seq<LabelDec>, e: Emit, a: int)
    requires Fine(e) && Pass2(ss, labels, e).Some? && 0 <= a < MAX_WORDS && Avoids(ss, labels, e, 0, a)
    ensures Pass2(ss, labels, e).value.image[a] == e.image[a]
  {
    hide Emitted, U32, After;
    if ss != [] {
      AdvanceAgrees(ss[0], labels, e, U32(e.offset));
      var n := Advance(ss[0], labels, e).value;
      assert Reach(ss, labels, e, 0) == Some(e);
      forall j | 0 <= j < |ss[1..]| && Reach(ss[1..], labels, n, j).Some? && Emits(ss[1..][j])
        ensures Reach(ss[1..], labels, n, j).value.offset != a
      {
        PrefixStep(ss, labels, e, j + 1);
      }
      Undisturbed(ss[1..], labels, n, a);
    }
  }

  /** Line i is the first to record its label. */
  predicate FirstDeclares(ss: seq<Statement>, i: nat) {
    && i < |ss| && Records(ss[i])
    && forall j :: 0 <= j < i && Records(ss[j]) ==> ss[j].name != ss[i].name
  }

  function Begin(buf: Image): Emit { Emit(0, 0, buf) }

  /** The whole assembler behind the tokenizer. */
  function Assembled(ss: seq<Statement>, buf: Image): Option<Emit> {
    Pass2(ss, Declarations(ss, 0), Begin(buf))
  }

  /** Where line i of an accepted file starts, in the second pass. */
  function Address(ss: seq<Statement>, buf: Image, i: nat): int
    requires i <= |ss| && Assembled(ss, buf).Some?
  {
    Reached(ss, Declarations(ss, 0), Begin(buf), i);
    Reach(ss, Declarations(ss, 0), Begin(buf), i).value.offset
  }

  /** What the first pass has recorded for a label is where the second pass puts its line. */
  lemma TwoPassAgreement(ss: seq<Statement>, buf: Image, i: nat)
    requires Assembled(ss, buf).Some? && FirstDeclares(ss, i)
    ensures Declared(ss[i].name.value, Declarations(ss, 0)) == Address(ss, buf, i) < MAX_WORDS
  {
    hide Pass2, Declarations, Declared;
    Reached(ss, Declarations(ss, 0), Begin(buf), i);
    LabelsAgree(ss, Declarations(ss, 0), Begin(buf), 0, i);
  }

  /** The image of an accepted file: below the length every line's word stands at its address unless
      a later line overwrites it, and the buffer is as it was from the length on. */
  lemma ImageOfFile(ss: seq<Statement>, buf: Image, i: nat)
    requires Assembled(ss, buf).Some? && i < |ss| && Emits(ss[i])
    requires LastThere(ss, Declarations(ss, 0), Begin(buf), i)
    ensures var a, r := Address(ss, buf, i), Assembled(ss, buf).value;
            && 0 <= a < r.top < MAX_WORDS
            && Emitted(ss[i].op.value, ss[i].args, a, Declarations(ss, 0)) == Some(r.image[a])
            && forall k :: r.top <= k < MAX_WORDS ==> r.image[k] == buf[k]
  {
    hide Pass2, Declarations, Emitted, LastThere;
    WordInImage(ss, Declarations(ss, 0), Begin(buf), i);
    ImageCovers(ss, Declarations(ss, 0), Begin(buf));
  }

  /** A word that no line puts anywhere is as it was in the buffer, below the length too. */
  lemma UnwrittenIsKept(ss: seq<Statement>, buf: Image, a: int)
    requires Assembled(ss, buf).Some? && 0 <= a < 0x1_0000
    requires forall j :: 0 <= j < |ss| && Emits(ss[j]) ==> Address(ss, buf, j) != a
    ensures Assembled(ss, buf).value.image[a] == buf[a]
  {
    hide Pass2, Declarations;
    Undisturbed(ss, Declarations(ss, 0), Begin(buf), a);
  }

  /** The first line is at 0; a line with an operation takes one word, and one with a label alone none. */
  lemma AddressSteps(ss: seq<Statement>, buf: Image, i: nat)
    requires Assembled(ss, buf).Some? && i < |ss| && ss[i].op != Some(".org")
    ensures Address(ss, buf, 0) == 0
    ensures Address(ss, buf, i + 1) == Address(ss, buf, i) + if ss[i].op.Some? then 1 else 0
  {
    hide Declarations, Emitted;
    assert ss[..0] == [];
    ReachBehind(ss, Declarations(ss, 0), Begin(buf), i, 0);
    assert ss[i + 1..][..0] == [];
  }

  // ----- the program -----

  lemma {:induction false} StatementsKept(lines: seq<string>)
    ensures Kept(Statements(lines))
  {
    hide Split;
    if lines != [] { StatementsKept(lines[1..]); }
  }

  /** The length of the image put into the buffer, or -1. */
  method Assemble(input: string, outbuf: array<word>) returns (maxlen: int)
    requires outbuf.Length == MAX_WORDS
    modifies outbuf
    ensures match Assembled(Statements(Reader.Lines(input)), old(outbuf[..]))
            case None => maxlen == -1
            case Some(e) => maxlen == e.top && outbuf[..] == e.image
  {
    hide Statements, Pass2, Declarations, Kept, Reader.Lines;
    var list := Tokenize(input);
    StatementsKept(Reader.Lines(input));
    var labels := GenerateLabels(list);
    maxlen := GenerateOpcodes(list, labels, outbuf);
  }
}
