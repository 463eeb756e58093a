/** Lines as a programmer lays them out, character by character, and what they split into. */
module SourceLines {
  import opened Words
  import opened Tokens

  /** Letters, digits and seven signs make up labels, operations and arguments. */
  predicate Sign(c: char) {
    || 'a' <= c <= 'z' || 'A' <= c <= 'Z' || '0' <= c <= '9'
    || c == '_' || c == '.' || c == '#' || c == '@' || c == '%' || c == '-' || c == '+'
  }

  predicate Token(t: string) { t != "" && forall j :: 0 <= j < |t| ==> Sign(t[j]) }

  /** Blanks, commas and whatever else is no sign; a colon and a semicolon have a meaning. */
  predicate Gap(s: string) { forall j :: 0 <= j < |s| ==> !Sign(s[j]) && s[j] != ':' && s[j] != ';' }

  /** A comment, or nothing. */
  predicate Comment(s: string) { s == "" || s[0] == ';' }

  predicate Gaps(gaps: seq<string>) { forall j :: 0 <= j < |gaps| ==> gaps[j] != "" && Gap(gaps[j]) }

  predicate AllTokens(ts: seq<string>) { forall j :: 0 <= j < |ts| ==> Token(ts[j]) }

  /** Arguments, each behind its gap. */
  function Row(gaps: seq<string>, args: seq<string>): string
    requires |gaps| == |args|
  {
    if args == [] then "" else gaps[0] + args[0] + Row(gaps[1..], args[1..])
  }

  function UpTo(args: seq<string>, n: nat): seq<string> { if |args| <= n then args else args[..n] }

  lemma TokenIsWord(t: string)
    requires Token(t)
    ensures Word(t)
  {
    var l := "_.#@%-+";
    assert l[0] == '_' && l[1] == '.' && l[2] == '#' && l[3] == '@' && l[4] == '%' && l[5] == '-' && l[6] == '+';
  }

  lemma GapIsBlank(s: string)
    requires Gap(s)
    ensures Blank(s)
  {
  }

  lemma AfterToken(gaps: seq<string>, args: seq<string>, pad: string)
    requires |gaps| == |args| && Gaps(gaps) && Gap(pad)
    ensures var s := Row(gaps, args) + pad; s != "" ==> !IsSym(s[0])
  {
    if args != [] {
      GapIsBlank(gaps[0]);
      assert (Row(gaps, args) + pad)[0] == gaps[0][0];
      assert Blank(gaps[0]);
    } else {
      GapIsBlank(pad);
      assert Row(gaps, args) + pad == pad;
    }
  }

  lemma RowStep(gaps: seq<string>, args: seq<string>, pad: string)
    requires |gaps| == |args| && args != []
    ensures Row(gaps, args) + pad == gaps[0] + args[0] + (Row(gaps[1..], args[1..]) + pad)
  {
    var r := Row(gaps[1..], args[1..]);
    assert gaps[0] + args[0] + r + pad == gaps[0] + args[0] + (r + pad);
  }

  lemma UpToStep(args: seq<string>, n: nat)
    requires args != [] && n > 0
    ensures [args[0]] + UpTo(args[1..], n - 1) == UpTo(args, n)
  {
  }

  lemma TailsToo(gaps: seq<string>, args: seq<string>)
    requires |gaps| == |args| && args != [] && Gaps(gaps) && AllTokens(args)
    ensures Gap(gaps[0]) && Token(args[0]) && Gaps(gaps[1..]) && AllTokens(args[1..])
  {
    hide Gap, Token;
  }

  lemma {:induction false} ArgsOfRow(gaps: seq<string>, args: seq<string>, pad: string, n: nat)
    requires |gaps| == |args| && Gaps(gaps) && AllTokens(args) && Gap(pad)
    ensures Args(Row(gaps, args) + pad, n) == UpTo(args, n)
    decreases n
  {
    hide Word, Symbol, Blank, Token, Gap, IsSym, Gaps, AllTokens, Row, UpTo;
    if args == [] {
      GapIsBlank(pad);
      NoSymbol(pad);
      EmptyRow(gaps, pad, n);
    } else if n > 0 {
      var rest := Row(gaps[1..], args[1..]) + pad;
      TailsToo(gaps, args);
      RowStep(gaps, args, pad);
      TokenIsWord(args[0]);
      GapIsBlank(gaps[0]);
      AfterToken(gaps[1..], args[1..], pad);
      SymbolBehind(gaps[0], args[0], rest);
      ArgsOfRow(gaps[1..], args[1..], pad, n - 1);
      UpToStep(args, n);
    } else {
      UpToNothing(args);
    }
  }

  lemma EmptyRow(gaps: seq<string>, pad: string, n: nat)
    requires gaps == []
    ensures Row(gaps, []) + pad == pad && UpTo([], n) == []
  {
  }

  lemma UpToNothing(args: seq<string>)
    ensures UpTo(args, 0) == []
  {
  }

  lemma OperationOf(name: Option<string>, gap: string, op: string, gaps: seq<string>, args: seq<string>, pad: string)
    requires Gap(gap) && Token(op) && |gaps| == |args| && Gaps(gaps) && AllTokens(args) && Gap(pad)
    ensures Operation(name, gap + op + (Row(gaps, args) + pad)) == Statement(name, Some(op), UpTo(args, 3))
  {
    hide Word, Symbol, Blank, Token, Gap, IsSym, Args, UpTo;
    TokenIsWord(op);
    GapIsBlank(gap);
    AfterToken(gaps, args, pad);
    SymbolBehind(gap, op, Row(gaps, args) + pad);
    ArgsOfRow(gaps, args, pad, 3);
  }

  // ----- no stray colon or semicolon -----

  predicate Without(s: string) { ':' !in s && ';' !in s }

  lemma GapWithout(s: string)
    requires Gap(s)
    ensures Without(s)
  {
  }

  lemma TokenWithout(t: string)
    requires Token(t)
    ensures Without(t)
  {
    assert !Sign(':') && !Sign(';');
  }

  lemma {:induction false} RowWithout(gaps: seq<string>, args: seq<string>)
    requires |gaps| == |args| && Gaps(gaps) && AllTokens(args)
    ensures Without(Row(gaps, args))
  {
    hide Token, Gap;
    if args != [] {
      GapWithout(gaps[0]);
      TokenWithout(args[0]);
      assert Gaps(gaps[1..]) && AllTokens(args[1..]);
      RowWithout(gaps[1..], args[1..]);
    }
  }

  lemma WithoutSum(a: string, b: string)
    requires Without(a) && Without(b)
    ensures Without(a + b)
  {
  }

  lemma BeforeComment(body: string, tail: string)
    requires ';' !in body && Comment(tail)
    ensures (body + tail)[..First(body + tail, ';')] == body
  {
    FirstBehind(body, tail, ';');
    assert (body + tail)[..|body|] == body;
  }

  lemma NoColon(s: string)
    requires ':' !in s
    ensures First(s, ':') == |s|
  {
  }

  lemma ColonAt(a: string, b: string)
    requires ':' !in a
    ensures var s := a + ":" + b; First(s, ':') == |a| && s[|a| + 1..] == b && |a| < |s|
  {
    assert a + ":" + b == a + (":" + b);
    FirstBehind(a, ":" + b, ':');
  }

  // ----- whole lines -----

  /** A line without a label: the operation and the first three arguments, whatever the gaps. */
  lemma PlainLine(gap: string, op: string, gaps: seq<string>, args: seq<string>, pad: string, tail: string)
    requires Gap(gap) && Token(op) && |gaps| == |args| && Gaps(gaps) && AllTokens(args) && Gap(pad) && Comment(tail)
    ensures Split(gap + op + (Row(gaps, args) + pad) + tail) == Statement(None, Some(op), UpTo(args, 3))
  {
    hide Symbol, Token, Gap, IsSym, Args, UpTo, First, Row, Operation, Comment;
    var body := gap + op + (Row(gaps, args) + pad);
    BodyWithout(gap, op, gaps, args, pad);
    BeforeComment(body, tail);
    NoColon(body);
    OperationOf(None, gap, op, gaps, args, pad);
  }

  lemma BodyWithout(gap: string, op: string, gaps: seq<string>, args: seq<string>, pad: string)
    requires Gap(gap) && Token(op) && |gaps| == |args| && Gaps(gaps) && AllTokens(args) && Gap(pad)
    ensures Without(gap + op + (Row(gaps, args) + pad))
  {
    hide Token, Gap, Row, Without;
    GapWithout(gap);
    TokenWithout(op);
    RowWithout(gaps, args);
    GapWithout(pad);
    WithoutSum(Row(gaps, args), pad);
    WithoutSum(gap, op);
    WithoutSum(gap + op, Row(gaps, args) + pad);
  }

  lemma LabelRead(indent: string, name: string, mid: string, rest: string)
    requires Gap(indent) && Token(name) && Gap(mid)
    ensures Symbol(indent + name + mid + ":" + rest).Some?
    ensures Symbol(indent + name + mid + ":" + rest).value.0 == name
  {
    hide Token, Gap, Word, Blank, Symbol;
    var behind := mid + ":" + rest;
    assert indent + name + mid + ":" + rest == indent + name + behind;
    TokenIsWord(name);
    GapIsBlank(indent);
    GapFirst(mid, rest);
    SymbolBehind(indent, name, behind);
  }

  lemma GapFirst(mid: string, rest: string)
    requires Gap(mid)
    ensures !IsSym((mid + ":" + rest)[0])
  {
    GapIsBlank(mid);
    assert !IsSym(':');
  }

  lemma SplitLabel(indent: string, name: string, mid: string, rest: string, tail: string)
    requires Gap(indent) && Token(name) && Gap(mid) && ';' !in rest && Comment(tail)
    ensures Split(indent + name + mid + ":" + rest + tail) == Operation(Some(name), rest)
  {
    hide Token, Gap, Symbol, First, Operation, Comment;
    var a := indent + name + mid;
    GapWithout(indent);
    TokenWithout(name);
    GapWithout(mid);
    BeforeComment(a + ":" + rest, tail);
    ColonAt(a, rest);
    LabelRead(indent, name, mid, rest);
  }

  /** A line with a label: the name in front of the colon, and the rest as without it. */
  lemma LabelledLine(indent: string, name: string, mid: string, gap: string, op: string, gaps: seq<string>,
                     args: seq<string>, pad: string, tail: string)
    requires Gap(indent) && Token(name) && Gap(mid) && Comment(tail)
    requires Gap(gap) && Token(op) && |gaps| == |args| && Gaps(gaps) && AllTokens(args) && Gap(pad)
    ensures Split(indent + name + mid + ":" + (gap + op + (Row(gaps, args) + pad)) + tail) ==
            Statement(Some(name), Some(op), UpTo(args, 3))
  {
    hide Token, Gap, UpTo, Row, Operation, Comment, Split;
    BodyWithout(gap, op, gaps, args, pad);
    SplitLabel(indent, name, mid, gap + op + (Row(gaps, args) + pad), tail);
    OperationOf(Some(name), gap, op, gaps, args, pad);
  }

  /** A label alone, and a line with nothing on it. */
  lemma BareLine(indent: string, name: string, mid: string, gap: string, tail: string)
    requires Gap(indent) && Token(name) && Gap(mid) && Gap(gap) && Comment(tail)
    ensures Split(indent + name + mid + ":" + gap + tail) == Statement(Some(name), None, [])
    ensures Split(gap + tail) == Statement(None, None, [])
  {
    hide Token, Gap, Symbol, Comment, First;
    GapWithout(gap);
    SplitLabel(indent, name, mid, gap, tail);
    GapIsBlank(gap);
    NoSymbol(gap);
    BeforeComment(gap, tail);
    NoColon(gap);
  }
}
