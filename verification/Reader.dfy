/** Reading the source text line by line into a buffer of fixed size. */
module Reader {
  /** Room in the buffer, its final zero apart. */
  const ROOM := 255

  /** strchr finds the string's own final zero too. */
  predicate Sentinel(c: char) { c == '\n' || c == '\0' }

  /** Behind the first sentinel, or the length. */
  function End(s: string): (n: nat)
    ensures n <= |s| && (s != "" ==> n > 0)
    ensures forall j :: 0 <= j < n - 1 ==> !Sentinel(s[j])
    ensures n < |s| ==> n > 0 && Sentinel(s[n - 1])
  {
    if s == "" then 0
    else if Sentinel(s[0]) then 1
    else
      var n := End(s[1..]);
      assert forall j :: 0 < j < n ==> s[j] == s[1..][j - 1];
      1 + n
  }

  /** A line and what remains. A line that fills the buffer takes the rest of the input with it. */
  function First(s: string): (string, string) {
    var n := End(s);
    if n <= ROOM then (s[..n], s[n..]) else (s[..ROOM], "")
  }

  /** Nothing is read exactly at the end of the input. */
  lemma Progress(s: string)
    ensures First(s).0 == "" <==> s == ""
    ensures s != "" ==> |First(s).1| < |s|
  {
  }

  method ReadLine(input: string) returns (buf: string, rest: string)
    ensures (buf, rest) == First(input)
  {
    buf := "";
    var i := 0;
    while i < |input|
      invariant i <= |input| && |buf| <= ROOM
      invariant |buf| == if i < ROOM then i else ROOM
      invariant buf == input[..|buf|]
      invariant forall j :: 0 <= j < |buf| ==> !Sentinel(input[j])
    {
      var c := input[i];
      i := i + 1;
      if |buf| == ROOM {
        continue;
      }
      buf := buf + [c];
      assert buf == input[..i];
      if Sentinel(c) {
        EndAt(input, i);
        return buf, input[i..];
      }
    }
    NoEnd(input, |buf|);
    rest := "";
    assert input[|input|..] == "";
    assert |buf| < ROOM ==> |buf| == |input|;
    assert |input| <= ROOM ==> |buf| == |input|;
  }

  lemma {:induction false} EndAt(s: string, n: nat)
    requires 0 < n <= |s| && Sentinel(s[n - 1]) && forall j :: 0 <= j < n - 1 ==> !Sentinel(s[j])
    ensures End(s) == n
  {
    if n > 1 { EndAt(s[1..], n - 1); }
  }

  /** Without a sentinel in the first n characters the line is longer, or the whole input. */
  lemma NoEnd(s: string, n: nat)
    requires n <= |s| && forall j :: 0 <= j < n ==> !Sentinel(s[j])
    ensures End(s) > n || End(s) == |s|
  {
  }

  /** The lines that come out of a text. */
  function Lines(s: string): seq<string>
    decreases |s|
  {
    if s == "" then [] else [First(s).0] + Lines(First(s).1)
  }

  // ----- lines that were written as lines -----

  predicate IsLine(l: string) { l != "" && l[|l| - 1] == '\n' && forall j :: 0 <= j < |l| - 1 ==> !Sentinel(l[j]) }

  function Concat(ls: seq<string>): string { if ls == [] then "" else ls[0] + Concat(ls[1..]) }

  lemma FirstOf(l: string, t: string)
    requires IsLine(l)
    ensures First(l + t) == if |l| <= ROOM then (l, t) else (l[..ROOM], "")
  {
    var s := l + t;
    assert forall j :: 0 <= j < |l| ==> s[j] == l[j];
    EndAt(s, |l|);
    assert s[..|l|] == l && s[|l|..] == t;
    if |l| > ROOM { assert s[..ROOM] == l[..ROOM]; }
  }

  predicate AllLines(ls: seq<string>) { forall j :: 0 <= j < |ls| ==> IsLine(ls[j]) }

  predicate AllFit(ls: seq<string>) { forall j :: 0 <= j < |ls| ==> |ls[j]| <= 255 }

  /** A text comes back as the lines it was written as exactly when each fits the buffer. */
  lemma {:induction false} LinesBackIff(ls: seq<string>)
    requires AllLines(ls)
    ensures Lines(Concat(ls)) == ls <==> AllFit(ls)
  {
    hide First, IsLine;
    if ls != [] {
      assert IsLine(ls[0]) && AllLines(ls[1..]);
      NotEmpty(ls[0]);
      FirstOf(ls[0], Concat(ls[1..]));
      LinesBackIff(ls[1..]);
      if |ls[0]| <= ROOM {
        assert Lines(Concat(ls)) == [ls[0]] + Lines(Concat(ls[1..]));
        assert Lines(Concat(ls)) == ls <==> Lines(Concat(ls[1..])) == ls[1..];
        assert AllFit(ls) <==> AllFit(ls[1..]);
      } else {
        assert Lines(Concat(ls))[0] == ls[0][..ROOM];
      }
    }
  }

  lemma NotEmpty(l: string)
    requires IsLine(l)
    ensures l != ""
  {
  }

  /** The first line that does not fit is cut, and all behind it is lost. */
  lemma LongLineEndsAll(l: string, t: string)
    requires IsLine(l) && |l| > 255
    ensures Lines(l + t) == [l[..255]]
  {
    hide First;
    FirstOf(l, t);
  }

  /** Behind the lines of a text there may be one that nothing ends. */
  lemma {:induction false} LastLine(ls: seq<string>, l: string)
    requires AllLines(ls) && AllFit(ls) && 0 < |l| <= 255 && forall j :: 0 <= j < |l| ==> l[j] !in "\n\0"
    ensures Lines(Concat(ls) + l) == ls + [l]
  {
    hide First, IsLine;
    if ls == [] {
      assert Concat(ls) + l == l;
      OnlyLine(l);
      assert Lines("") == [];
    } else {
      assert IsLine(ls[0]) && AllLines(ls[1..]);
      NotEmpty(ls[0]);
      assert Concat(ls) + l == ls[0] + (Concat(ls[1..]) + l);
      FirstOf(ls[0], Concat(ls[1..]) + l);
      LastLine(ls[1..], l);
    }
  }

  lemma OnlyLine(l: string)
    requires 0 < |l| <= 255 && forall j :: 0 <= j < |l| ==> l[j] !in "\n\0"
    ensures First(l) == (l, "")
  {
    var b := "\n\0";
    assert b[0] == '\n' && b[1] == '\0';
    NoEnd(l, |l|);
    assert l[..|l|] == l && l[|l|..] == "";
  }
}
