/** Splitting a line of assembly into label, operation and arguments. */
module Tokens {
  import opened Words
  import Reader

  /** A line with `op` None only declares a label. */
  datatype Statement = Statement(name: Option<string>, op: Option<string>, args: seq<string>)

  predicate IsSym(c: char) {
    '0' <= c <= '9' || 'a' <= c <= 'z' || 'A' <= c <= 'Z' || c in "_.#@%-+"
  }

  // ----- symbols -----

  /** The first place from i on that holds a symbol character, or the end. */
  function Start(s: string, i: nat): (r: nat)
    requires i <= |s|
    ensures i <= r <= |s| && (r < |s| ==> IsSym(s[r])) && forall j :: i <= j < r ==> !IsSym(s[j])
    decreases |s| - i
  {
    if i == |s| || IsSym(s[i]) then i else Start(s, i + 1)
  }

  /** The first place from i on that holds no symbol character, or the end. */
  function Stop(s: string, i: nat): (r: nat)
    requires i <= |s|
    ensures i <= r <= |s| && (r < |s| ==> !IsSym(s[r])) && forall j :: i <= j < r ==> IsSym(s[j])
    decreases |s| - i
  {
    if i == |s| || !IsSym(s[i]) then i else Stop(s, i + 1)
  }

  /** The first symbol of s, and what follows it. */
  function Symbol(s: string): Option<(string, string)> {
    var a := Start(s, 0);
    if a == |s| then None else Some((s[a..Stop(s, a)], s[Stop(s, a)..]))
  }

  method NextSym(line: string) returns (status: int, sym: string)
    ensures match Symbol(line)
            case None => status == -1
            case Some((t, rest)) => 0 < status <= |line| && sym == t && line[status..] == rest
  {
    var symstart := 0;
    while symstart < |line| && !IsSym(line[symstart])
      invariant symstart <= |line| && Start(line, 0) == Start(line, symstart)
    {
      symstart := symstart + 1;
    }
    if symstart == |line| {
      return -1, "";
    }
    var symend := symstart;
    while symend < |line| && IsSym(line[symend])
      invariant symstart <= symend <= |line| && Stop(line, symstart) == Stop(line, symend)
    {
      symend := symend + 1;
    }
    return symend, line[symstart..symend];
  }

  // ----- lines -----

  /** strchr */
  function First(s: string, c: char): (r: nat)
    ensures r <= |s| && (r < |s| ==> s[r] == c) && forall j :: 0 <= j < r ==> s[j] != c
  {
    if s == "" || s[0] == c then 0 else
      var r := First(s[1..], c);
      assert forall j :: 0 < j < r + 1 ==> s[j] == s[1..][j - 1];
      1 + r
  }

  function Args(s: string, n: nat): seq<string>
    decreases n
  {
    if n == 0 then []
    else match Symbol(s)
      case None => []
      case Some((t, rest)) => [t] + Args(rest, n - 1)
  }

  function Operation(name: Option<string>, s: string): Statement {
    match Symbol(s)
    case None => Statement(name, None, [])
    case Some((t, rest)) => Statement(name, Some(t), Args(rest, 3))
  }

  /** A comment starts at ';'. A label is the first symbol of a line with ':'; the operation and up
      to three arguments are the first symbols behind the ':', or of the line. */
  function Split(text: string): Statement {
    var s := text[..First(text, ';')];
    var c := First(s, ':');
    if c == |s| then Operation(None, s)
    else Operation(match Symbol(s) case None => None case Some((t, _)) => Some(t), s[c + 1..])
  }

  method SplitLine(text: string) returns (split: Statement)
    ensures split == Split(text)
  {
    hide Symbol, First;
    var line := text[..First(text, ';')];
    var name: Option<string> := None;
    var cursor := First(line, ':');
    if cursor < |line| {
      var status, sym := NextSym(line);
      if status != -1 {
        name := Some(sym);
      }
      line := line[cursor + 1..];
    }
    split := SplitOperation(name, line);
  }

  method SplitOperation(name: Option<string>, text: string) returns (split: Statement)
    ensures split == Operation(name, text)
  {
    hide Symbol;
    var line := text;
    var status, op := NextSym(line);
    if status == -1 {
      return Statement(name, None, []);
    }
    line := line[status..];
    var args := [];
    var sym;
    status, sym := NextSym(line);
    if status <= 0 {
      return Statement(name, Some(op), args);
    }
    args := args + [sym];
    line := line[status..];
    status, sym := NextSym(line);
    if status <= 0 {
      return Statement(name, Some(op), args);
    }
    args := args + [sym];
    line := line[status..];
    status, sym := NextSym(line);
    if status > 0 {
      args := args + [sym];
    }
    return Statement(name, Some(op), args);
  }

  // ----- whole files -----

  /** Lines with neither a label nor an operation are dropped. */
  function Statements(lines: seq<string>): seq<Statement> {
    if lines == [] then []
    else
      var s := Split(lines[0]);
      (if s.op.None? && s.name.None? then [] else [s]) + Statements(lines[1..])
  }

  method Tokenize(input: string) returns (list: seq<Statement>)
    ensures list == Statements(Reader.Lines(input))
  {
    hide Split, Reader.First;
    list := [];
    var rest := input;
    while true
      invariant Statements(Reader.Lines(input)) == list + Statements(Reader.Lines(rest))
      decreases |rest|
    {
      ghost var before := rest;
      var line;
      line, rest := Reader.ReadLine(rest);
      Reader.Progress(before);
      if line == "" {
        break;
      }
      assert Reader.Lines(before)[1..] == Reader.Lines(rest);
      var s := SplitLine(line);
      if !(s.op.None? && s.name.None?) {
        list := list + [s];
      }
    }
  }

  // ----- splitting undoes writing -----

  predicate Word(t: string) { t != "" && forall j :: 0 <= j < |t| ==> IsSym(t[j]) }

  predicate Blank(s: string) { forall j :: 0 <= j < |s| ==> !IsSym(s[j]) }

  predicate Plain(s: string) { forall j :: 0 <= j < |s| ==> s[j] != ';' && s[j] != ':' }

  /** Nothing but blanks, up to a comment. */
  predicate Trailer(s: string) {
    Blank(s[..First(s, ';')]) && Plain(s[..First(s, ';')])
  }

  function Joined(texts: seq<string>): string {
    if texts == [] then ""
    else if |texts| == 1 then texts[0]
    else texts[0] + ", " + Joined(texts[1..])
  }

  lemma SymbolBehind(sep: string, t: string, rest: string)
    requires Blank(sep) && Word(t) && (rest != "" ==> !IsSym(rest[0]))
    ensures Symbol(sep + t + rest) == Some((t, rest))
  {
    var s := sep + t + rest;
    assert s[|sep|] == t[0];
    assert forall j :: 0 <= j < |sep| ==> s[j] == sep[j];
    assert Start(s, 0) == |sep|;
    assert forall j :: |sep| <= j < |sep| + |t| ==> s[j] == t[j - |sep|];
    assert rest != "" ==> s[|sep| + |t|] == rest[0];
    assert Stop(s, |sep|) == |sep| + |t|;
    assert s[|sep|..|sep| + |t|] == t;
    assert s[|sep| + |t|..] == rest;
  }

  lemma NoSymbol(s: string)
    requires Blank(s)
    ensures Symbol(s) == None
  {
  }

  lemma {:induction false} ArgsWritten(sep: string, texts: seq<string>, pad: string, n: nat)
    requires Blank(sep) && Blank(pad) && |texts| <= n && forall t :: t in texts ==> Word(t)
    ensures Args(sep + Joined(texts) + pad, n) == texts
    decreases n
  {
    hide Word, Symbol;
    if texts == [] {
      assert sep + Joined(texts) + pad == sep + pad;
      BlankSum(sep, pad);
      NoSymbol(sep + pad);
    } else {
      var more := texts[1..];
      var sep2 := if |texts| == 1 then "" else ", ";
      assert sep + Joined(texts) + pad == sep + texts[0] + (sep2 + Joined(more) + pad);
      BlankStart(sep2, more, pad);
      SymbolBehind(sep, texts[0], sep2 + Joined(more) + pad);
      ArgsWritten(sep2, more, pad, n - 1);
    }
  }

  lemma BlankSum(a: string, b: string)
    requires Blank(a) && Blank(b)
    ensures Blank(a + b)
  {
  }

  lemma BlankStart(sep: string, more: seq<string>, pad: string)
    requires Blank(pad) && (if more == [] then sep == "" else sep == ", ")
    ensures Blank(sep)
    ensures var s := sep + Joined(more) + pad; s != "" ==> !IsSym(s[0])
  {
    Separators();
    if more == [] { assert sep + Joined(more) + pad == pad; }
  }

  lemma BlankNothing()
    ensures Blank("")
  {
  }

  lemma Separators()
    ensures !IsSym(' ') && !IsSym(',') && Blank(" ") && Blank(", ")
  {
  }

  lemma {:induction false} PlainJoined(texts: seq<string>)
    requires forall t :: t in texts ==> Word(t)
    ensures Plain(Joined(texts))
  {
    if texts != [] {
      PlainWord(texts[0]);
      PlainJoined(texts[1..]);
    }
  }

  lemma PlainWord(t: string)
    requires Word(t)
    ensures Plain(t)
  {
    assert !IsSym(';') && !IsSym(':');
  }

  lemma FirstBehind(body: string, tail: string, c: char)
    requires c !in body
    ensures First(body + tail, c) == |body| + First(tail, c)
  {
    var s := body + tail;
    var r := First(tail, c);
    assert forall j :: |body| <= j < |s| ==> s[j] == tail[j - |body|];
    assert forall j :: 0 <= j < |body| ==> s[j] == body[j];
    assert r < |tail| ==> s[|body| + r] == c;
  }

  lemma Stripped(body: string, tail: string)
    requires Plain(body) && Trailer(tail)
    ensures var s := (body + tail)[..First(body + tail, ';')];
            s == body + tail[..First(tail, ';')] && First(s, ':') == |s|
  {
    hide First, IsSym;
    FirstBehind(body, tail, ';');
    var s := body + tail[..First(tail, ';')];
    assert (body + tail)[..First(body + tail, ';')] == s;
    assert Plain(s);
  }

  lemma PlainBody(op: string, texts: seq<string>)
    requires Word(op) && forall t :: t in texts ==> Word(t)
    ensures Plain(op + " " + Joined(texts))
  {
    hide Word, Joined;
    PlainWord(op);
    PlainJoined(texts);
  }

  lemma OperationWritten(op: string, texts: seq<string>, pad: string)
    requires Word(op) && |texts| <= 3 && (forall t :: t in texts ==> Word(t)) && Blank(pad)
    ensures Operation(None, op + " " + Joined(texts) + pad) == Statement(None, Some(op), texts)
  {
    hide Word, Blank, Symbol, First, Args, IsSym, Joined;
    var rest := " " + Joined(texts) + pad;
    assert op + " " + Joined(texts) + pad == "" + op + rest;
    Separators();
    BlankNothing();
    SymbolBehind("", op, rest);
    ArgsWritten(" ", texts, pad, 3);
  }

  /** A line written as an operation and arguments, with blanks or a comment behind, splits into
      just those. */
  lemma SplitWritten(op: string, texts: seq<string>, tail: string)
    requires Word(op) && |texts| <= 3 && (forall t :: t in texts ==> Word(t)) && Trailer(tail)
    ensures Split(op + " " + Joined(texts) + tail) == Statement(None, Some(op), texts)
  {
    hide Word, Blank, Symbol, First, Args, IsSym, Joined, Plain, Operation;
    PlainBody(op, texts);
    Stripped(op + " " + Joined(texts), tail);
    OperationWritten(op, texts, tail[..First(tail, ';')]);
  }
}
