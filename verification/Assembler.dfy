/** The second pass: turning statements into an image. */
module Assembler {
  import opened Words
  import opened Tokens
  import opened Labels
  import opened InstrTable
  import Encoder
  import Printer
  import Text

  // ----- operands -----

  function Limit(letter: char): int { if letter == 'c' || letter == 'r' then 7 else 31 }

  function Checked(v: int, ok: bool): Option<int> { if ok then Some(v) else None }

  /** The value of one operand; None for one that the assembler reports. */
  function Value(k: Printer.Kind, arg: string, offset: int, labels: seq<LabelDec>): Option<int> {
    if arg == "" then None
    else if k.letter in "cqrx" then
      var v := Text.ReadInt(arg[1..], 10);
      Checked(v, arg[0] == k.letter && v <= Limit(k.letter))
    else if k.letter == 's' && k.bits > 0 then
      var v := if arg[0] == '%' then Distance(offset, arg[1..], labels) else Text.ReadInt(arg[1..], 0);
      Checked(v, arg[0] in "%#" && 0 - Pow2(k.bits - 1) <= v < Pow2(k.bits - 1))
    else if k.letter == 'u' then
      var v := if arg[0] == '@' then Offset(arg[1..], labels) else Text.ReadInt(arg[1..], 0);
      Checked(v, arg[0] in "@#" && v < Pow2(k.bits))
    else None
  }

  /** Operands in order. Where one is missing C reads a null pointer. */
  function Values(kinds: seq<Printer.Kind>, args: seq<string>, offset: int,
      labels: seq<LabelDec>): (r: Option<seq<int>>)
    ensures r.Some? ==> |r.value| == |kinds|
  {
    if kinds == [] then Some([])
    else if args == [] then None
    else
      match Value(kinds[0], args[0], offset, labels)
      case None => None
      case Some(v) =>
        match Values(kinds[1..], args[1..], offset, labels)
        case None => None
        case Some(vs) => Some([v] + vs)
  }

  function Padded(vs: seq<int>): (r: seq<int>)
    requires |vs| <= 3
    ensures |r| == 3
  {
    vs + [0, 0, 0][|vs|..]
  }

  lemma AtMostThree(i: nat)
    requires i < LEN
    ensures |Printer.Kinds(Entry(i).syntax)| <= 3
    ensures Printer.Kinds(Entry(i).syntax) == Printer.KindsOf(ShapeOf(Entry(i).opcode))
  {
    hide Entry, Printer.Kinds, Syntax, ShapeOf, Format;
    RegularAll(i);
    Printer.KindsAll(ShapeOf(Entry(i).opcode));
  }

  /** The word of an instruction line. An unknown name is reported, in C after it has matched the
      operands against the syntax of the line before. */
  function Instruction(op: string, args: seq<string>, offset: int, labels: seq<LabelDec>): Option<word> {
    var i := Find(op, 0);
    if i == LEN then None
    else
      match Values(Printer.Kinds(Entry(i).syntax), args, offset, labels)
      case None => None
      case Some(vs) => AtMostThree(i); Some(Encoder.Encode(i, Padded(vs)))
  }

  /** The word of a .data line: # and a number, or @ and a label. */
  function Data(args: seq<string>, labels: seq<LabelDec>): Option<word> {
    if args == [] || args[0] == "" then None
    else if args[0][0] == '#' then Some(Wrap(Text.Strtol(args[0][1..], 0)))
    else if args[0][0] == '@' then Some(Wrap(Offset(args[0][1..], labels)))
    else None
  }

  function Emitted(op: string, args: seq<string>, offset: int, labels: seq<LabelDec>): Option<word> {
    if op == ".data" then Data(args, labels) else Instruction(op, args, offset, labels)
  }

  // ----- lines -----

  type Image = s: seq<word> | |s| == MAX_WORDS witness seq(MAX_WORDS, i => 0)

  /** `top` is the length of the image so far. */
  datatype Emit = Emit(offset: int, top: int, image: Image)

  /** The image grows to the offset; it may not fill the buffer. */
  function Grown(e: Emit): Option<Emit> {
    if e.offset <= e.top then Some(e)
    else if e.offset >= MAX_WORDS then None
    else Some(e.(top := e.offset))
  }

  /** A word below the buffer is undefined in C; here there is no image then. */
  function Put(e: Emit, w: word): Option<Emit> {
    if 0 <= e.offset < MAX_WORDS then Grown(Emit(e.offset + 1, e.top, e.image[e.offset := w])) else None
  }

  function Advance(s: Statement, labels: seq<LabelDec>, e: Emit): Option<Emit> {
    if s.op.None? then Some(e)
    else if IsOrg(s) then (if s.args == [] then None else Grown(e.(offset := Target(s))))
    else
      match Emitted(s.op.value, s.args, e.offset, labels)
      case None => None
      case Some(w) => Put(e, w)
  }

  function Pass2(ss: seq<Statement>, labels: seq<LabelDec>, e: Emit): Option<Emit> {
    if ss == [] then Some(e)
    else
      match Advance(ss[0], labels, e)
      case None => None
      case Some(n) => Pass2(ss[1..], labels, n)
  }

  // ----- the same, in place -----

  method ReadOperand(c: char, numbits: nat, arg: string, offset: int, labels: seq<LabelDec>) returns (ok: bool, v: int)
    ensures match Value(Printer.Kind(c, numbits), arg, offset, labels)
            case None => !ok
            case Some(x) => ok && v == x
  {
    hide Text.ReadInt, Offset, Pow2;
    if arg == "" {
      return false, 0;
    }
    if c in "cqrx" {
      if arg[0] != c {
        return false, 0;
      }
      v := Text.ReadInt(arg[1..], 10);
      return v <= Limit(c), v;
    }
    if c == 's' && numbits > 0 {
      if arg[0] == '%' {
        v := FindReloff(offset, arg[1..], labels);
      } else if arg[0] == '#' {
        v := Text.ReadInt(arg[1..], 0);
      } else {
        return false, 0;
      }
      return !(v > Pow2(numbits - 1) - 1 || v < 0 - Pow2(numbits - 1)), v;
    }
    if c == 'u' {
      if arg[0] == '@' {
        v := FindOffset(arg[1..], labels);
      } else if arg[0] == '#' {
        v := Text.ReadInt(arg[1..], 0);
      } else {
        return false, 0;
      }
      return v < Pow2(numbits), v;
    }
    return false, 0;
  }

  function Glue(done: seq<int>, more: Option<seq<int>>): Option<seq<int>> {
    match more
    case None => None
    case Some(vs) => Some(done + vs)
  }

  /** What the rest of the operands amounts to, at place i of the syntax with k arguments used. */
  function Rest(syntax: string, i: nat, args: seq<string>, k: nat, offset: int, labels: seq<LabelDec>): Option<seq<int>>
    requires i <= |syntax| && k <= |args|
  {
    Values(Printer.Kinds(syntax[i..]), args[k..], offset, labels)
  }

  lemma RestStep(syntax: string, i: nat, args: seq<string>, k: nat, offset: int, labels: seq<LabelDec>)
    requires i < |syntax| && k < |args|
    ensures Rest(syntax, i, args, k, offset, labels) ==
            match Value(Printer.Kind(syntax[i], Printer.KindBits(syntax, i)), args[k], offset, labels)
            case None => None
            case Some(v) => Glue([v], Rest(syntax, Printer.KindEnd(syntax, i), args, k + 1, offset, labels))
  {
    hide Value, Printer.Kinds, Printer.KindEnd, Printer.KindBits;
    Printer.KindsAt(syntax, i);
    assert args[k..][1..] == args[k + 1..];
  }

  lemma RestMissing(syntax: string, i: nat, args: seq<string>, offset: int, labels: seq<LabelDec>)
    requires i < |syntax|
    ensures Rest(syntax, i, args, |args|, offset, labels) == None
  {
    hide Value, Printer.Kinds, Printer.KindEnd, Printer.KindBits;
    Printer.KindsAt(syntax, i);
  }

  lemma RestEnd(syntax: string, args: seq<string>, k: nat, offset: int, labels: seq<LabelDec>)
    requires k <= |args|
    ensures Rest(syntax, |syntax|, args, k, offset, labels) == Some([])
  {
    assert syntax[|syntax|..] == "";
  }

  lemma GlueGlue(a: seq<int>, b: seq<int>, r: Option<seq<int>>)
    ensures Glue(a, Glue(b, r)) == Glue(a + b, r)
  {
    if r.Some? { assert a + (b + r.value) == a + b + r.value; }
  }

  /** `args` keeps what it held in the places no operand goes to. */
  method ParseOperands(syntax: string, lineargs: seq<string>, offset: int, labels: seq<LabelDec>, held: seq<int>)
    returns (ok: bool, args: seq<int>)
    requires |held| == 3 && |Printer.Kinds(syntax[0..])| <= 3
    ensures |args| == 3
    ensures match Values(Printer.Kinds(syntax[0..]), lineargs, offset, labels)
            case None => !ok
            case Some(vs) => ok && args == vs + held[|vs|..]
  {
    hide Value, Values, Rest, Printer.Kinds, Printer.KindEnd, Printer.KindBits;
    args := held;
    var argidx := 0;
    var i := 0;
    RestIsAll(syntax, lineargs, offset, labels);
    GlueNothing(Rest(syntax, 0, lineargs, 0, offset, labels));
    while i < |syntax|
      invariant i <= |syntax| && argidx <= |lineargs| && argidx + |Printer.Kinds(syntax[i..])| <= 3
      invariant |args| == 3 && args[argidx..] == held[argidx..]
      invariant Rest(syntax, 0, lineargs, 0, offset, labels) ==
                Glue(args[..argidx], Rest(syntax, i, lineargs, argidx, offset, labels))
    {
      Printer.KindsAt(syntax, i);
      if argidx == |lineargs| {
        RestMissing(syntax, i, lineargs, offset, labels);
        return false, args;
      }
      RestStep(syntax, i, lineargs, argidx, offset, labels);
      var good, v := ReadOperand(syntax[i], Printer.KindBits(syntax, i), lineargs[argidx], offset, labels);
      if !good {
        return false, args;
      }
      GlueGlue(args[..argidx], [v], Rest(syntax, Printer.KindEnd(syntax, i), lineargs, argidx + 1, offset, labels));
      assert args[..argidx] + [v] == args[argidx := v][..argidx + 1];
      args := args[argidx := v];
      argidx := argidx + 1;
      i := Printer.KindEnd(syntax, i);
    }
    RestEnd(syntax, lineargs, argidx, offset, labels);
    ok := true;
    assert args == args[..argidx] + held[argidx..];
  }

  lemma GlueNothing(r: Option<seq<int>>)
    ensures Glue([], r) == r
  {
    if r.Some? { assert [] + r.value == r.value; }
  }

  lemma RestIsAll(syntax: string, args: seq<string>, offset: int, labels: seq<LabelDec>)
    ensures Rest(syntax, 0, args, 0, offset, labels) == Values(Printer.Kinds(syntax[0..]), args, offset, labels)
  {
    assert args[0..] == args;
  }

  // ----- what an array slot without an operand holds makes no difference -----

  lemma ShapeUses(h: Shape, op: nat, sub: nat, f: seq<int>, g: seq<int>)
    requires ShapeOf(op) == h && |f| == 3 && |g| == 3
    requires forall j :: 0 <= j < |Printer.KindsOf(h)| ==> f[j] == g[j]
    ensures Encoder.Join(op, sub, f[0], f[1], f[2]) == Encoder.Join(op, sub, g[0], g[1], g[2])
  {
    hide ShapeOf;
    var n := |Printer.KindsOf(h)|;
    assert (n > 0 ==> f[0] == g[0]) && (n > 1 ==> f[1] == g[1]) && (n > 2 ==> f[2] == g[2]);
  }

  lemma Unused(i: nat, vs: seq<int>, held: seq<int>)
    requires i < LEN && |held| == 3 && |vs| == |Printer.Kinds(Entry(i).syntax)| <= 3
    ensures Encoder.Encode(i, vs + held[|vs|..]) == Encoder.Encode(i, Padded(vs))
  {
    hide Entry, Printer.Kinds, Printer.KindsOf, ShapeOf, Encoder.Encode, Encoder.Join, Syntax, Format;
    AtMostThree(i);
    var e := Entry(i);
    Encoder.EncodeIsJoin(i, vs + held[|vs|..]);
    Encoder.EncodeIsJoin(i, Padded(vs));
    ShapeUses(ShapeOf(e.opcode), e.opcode, e.subcode, vs + held[|vs|..], Padded(vs));
  }

  method AssembleLine(op: string, lineargs: seq<string>, offset: int, labels: seq<LabelDec>, held: seq<int>)
    returns (ok: bool, w: word, args: seq<int>)
    requires |held| == 3
    ensures |args| == 3
    ensures match Instruction(op, lineargs, offset, labels)
            case None => !ok
            case Some(x) => ok && w == x
  {
    hide Entry, Printer.Kinds, Values, Encoder.Encode, Find, Padded;
    w := 0;
    args := held;
    var status, syntax := Encoder.NmemonicSyntax(op);
    if status == -1 {
      return false, w, args;
    }
    var i := Find(op, 0);
    AtMostThree(i);
    assert syntax[0..] == syntax;
    ok, args := ParseOperands(syntax, lineargs, offset, labels, held);
    if !ok {
      return;
    }
    Unused(i, Values(Printer.Kinds(syntax), lineargs, offset, labels).value, held);
    status, w := Encoder.AssembleInstruction(op, args);
    ok := status == 0;
  }

  method GenerateData(args: seq<string>, labels: seq<LabelDec>) returns (ok: bool, w: word)
    ensures match Data(args, labels)
            case None => !ok
            case Some(x) => ok && w == x
  {
    hide Text.Strtol, Offset;
    if args == [] || args[0] == "" || (args[0][0] != '@' && args[0][0] != '#') {
      return false, 0;
    }
    if args[0][0] == '#' {
      return true, Wrap(Text.Strtol(args[0][1..], 0));
    }
    var v := FindOffset(args[0][1..], labels);
    return true, Wrap(v);
  }

  /** The length of the image, or -1. */
  method GenerateOpcodes(lines: seq<Statement>, labels: seq<LabelDec>, outbuf: array<word>) returns (status: int)
    requires outbuf.Length == MAX_WORDS
    modifies outbuf
    ensures match Pass2(lines, labels, Emit(0, 0, old(outbuf[..])))
            case None => status == -1
            case Some(e) => status == e.top && outbuf[..] == e.image
  {
    hide Pass2, Emitted, Target;
    ghost var start := Emit(0, 0, outbuf[..]);
    var offset, top := 0, 0;
    var held := [0, 0, 0];
    var i := 0;
    assert lines[0..] == lines;
    while i < |lines|
      invariant i <= |lines| && |held| == 3
      invariant Pass2(lines, labels, start) == Pass2(lines[i..], labels, Emit(offset, top, outbuf[..]))
    {
      var s := lines[i];
      ghost var before := Emit(offset, top, outbuf[..]);
      Pass2Step(lines, i, labels, before);
      i := i + 1;
      if s.op.None? {
        continue;
      }
      if s.op.value == ".org" {
        if s.args == [] {
          return -1;
        }
        offset := Target(s);
      } else {
        var ok, w;
        ok, w, held := LineWord(s.op.value, s.args, offset, labels, held);
        if !ok || !(0 <= offset < MAX_WORDS) {
          return -1;
        }
        outbuf[offset] := w;
        offset := offset + 1;
      }
      if offset > top {
        top := offset;
        if top >= MAX_WORDS {
          return -1;
        }
      }
    }
    Pass2End(lines, labels, Emit(offset, top, outbuf[..]));
    return top;
  }

  method LineWord(op: string, args: seq<string>, offset: int, labels: seq<LabelDec>, held: seq<int>)
    returns (ok: bool, w: word, used: seq<int>)
    requires |held| == 3
    ensures |used| == 3
    ensures match Emitted(op, args, offset, labels)
            case None => !ok
            case Some(x) => ok && w == x
  {
    hide Instruction, Data;
    used := held;
    if op == ".data" {
      ok, w := GenerateData(args, labels);
    } else {
      ok, w, used := AssembleLine(op, args, offset, labels, held);
    }
  }

  lemma Pass2Step(lines: seq<Statement>, i: nat, labels: seq<LabelDec>, e: Emit)
    requires i < |lines|
    ensures Pass2(lines[i..], labels, e) ==
            match Advance(lines[i], labels, e)
            case None => None
            case Some(n) => Pass2(lines[i + 1..], labels, n)
  {
    hide Advance;
    assert lines[i..][1..] == lines[i + 1..];
  }

  lemma Pass2End(lines: seq<Statement>, labels: seq<LabelDec>, e: Emit)
    ensures Pass2(lines[|lines|..], labels, e) == Some(e)
  {
  }
}
