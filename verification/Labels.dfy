/** The first pass: where each label is; and looking a label up. */
module Labels {
  import opened Words
  import opened Tokens
  import opened Decoder
  import Text

  datatype LabelDec = LabelDec(name: string, offset: nat)

  /** unsigned int */
  function U32(x: int): nat { x % 0x1_0000_0000 }

  predicate IsOrg(s: Statement) { s.op == Some(".org") }

  /** Where a .org line moves to. Without an argument C passes a null pointer to strtol. */
  function Target(s: Statement): int {
    if s.args == [] then 0 else Text.ReadInt(s.args[0], 0)
  }

  predicate Records(s: Statement) { !IsOrg(s) && s.name.Some? }

  function After(s: Statement, offset: nat): nat {
    if IsOrg(s) then U32(Target(s)) else if s.op.Some? then U32(offset + 1) else offset
  }

  function Declarations(ss: seq<Statement>, offset: nat): seq<LabelDec> {
    if ss == [] then []
    else (if Records(ss[0]) then [LabelDec(ss[0].name.value, offset)] else [])
         + Declarations(ss[1..], After(ss[0], offset))
  }

  predicate Kept(ss: seq<Statement>) {
    forall j :: 0 <= j < |ss| ==> ss[j].op.Some? || ss[j].name.Some?
  }

  method GenerateLabels(lines: seq<Statement>) returns (labels: seq<LabelDec>)
    requires Kept(lines)
    ensures labels == Declarations(lines, 0)
  {
    hide Target, U32, Declarations;
    labels := [];
    var offset := 0;
    assert lines[0..] == lines;
    var i := 0;
    while i < |lines|
      invariant i <= |lines|
      invariant Declarations(lines, 0) == labels + Declarations(lines[i..], offset)
    {
      var s := lines[i];
      DeclarationsStep(lines, i, offset);
      i := i + 1;
      if s.op == Some(".org") {
        offset := U32(Target(s));
        continue;
      }
      if s.name.None? && s.op.Some? {
        offset := U32(offset + 1);
        continue;
      }
      labels := labels + [LabelDec(s.name.value, offset)];
      if s.op.Some? {
        offset := U32(offset + 1);
      }
    }
    DeclarationsEnd(lines, offset);
  }

  lemma DeclarationsStep(lines: seq<Statement>, i: nat, offset: nat)
    requires i < |lines|
    ensures Declarations(lines[i..], offset) ==
            (if Records(lines[i]) then [LabelDec(lines[i].name.value, offset)] else [])
            + Declarations(lines[i + 1..], After(lines[i], offset))
  {
    hide After;
    assert lines[i..][1..] == lines[i + 1..];
  }

  lemma DeclarationsEnd(lines: seq<Statement>, offset: nat)
    ensures Declarations(lines[|lines|..], offset) == []
  {
  }

  // ----- looking up -----

  /** The offset of the first declaration of a name, or -1. */
  function Declared(name: string, labels: seq<LabelDec>): int {
    if labels == [] then -1
    else if labels[0].name == name then Int32(labels[0].offset)
    else Declared(name, labels[1..])
  }

  /** The last place of c, or the length. */
  function Last(s: string, c: char): (r: nat)
    ensures r <= |s| && (r < |s| ==> s[r] == c) && (forall j :: r < j < |s| ==> s[j] != c)
    ensures r == |s| ==> c !in s
  {
    if s == "" then 0
    else if s[|s| - 1] == c then |s| - 1
    else
      var r := Last(s[..|s| - 1], c);
      if r == |s| - 1 then |s| else r
  }

  /** L, or the high or low byte of L as L.h and L.l. */
  function Offset(find: string, labels: seq<LabelDec>): int {
    var d := Last(find, '.');
    if d == |find| then Declared(find, labels)
    else
      var v := Declared(find[..d], labels);
      if d + 1 < |find| && find[d + 1] == 'h' then v / 256
      else if d + 1 < |find| && find[d + 1] == 'l' then v % 256
      else v
  }

  method FindOffset(find: string, labels: seq<LabelDec>) returns (ret: int)
    ensures ret == Offset(find, labels)
  {
    hide Last, Int32;
    var dot := Last(find, '.');
    var name := find[..dot];
    assert dot == |find| ==> name == find;
    ret := LookUp(name, labels);
    if dot + 1 < |find| {
      if find[dot + 1] == 'h' {
        HighByte(ret);
        ret := Sar(ret, 8);
      } else if find[dot + 1] == 'l' {
        LowByte(ret);
        ret := Bits(AND, U32(ret), 0xFF);
      }
    }
  }

  method LookUp(name: string, labels: seq<LabelDec>) returns (ret: int)
    ensures ret == Declared(name, labels)
  {
    hide Int32;
    ret := -1;
    var i := 0;
    while i < |labels|
      invariant i <= |labels| && ret == -1
      invariant Declared(name, labels) == Declared(name, labels[i..])
    {
      if name == labels[i].name {
        ret := Int32(labels[i].offset);
        break;
      }
      assert labels[i..][1..] == labels[i + 1..];
      i := i + 1;
    }
  }

  lemma HighByte(v: int)
    ensures Sar(v, 8) == v / 256
  {
    hide Sar;
    Pow2Values();
    SarIsDiv(v, 8);
  }

  lemma LowByte(v: int)
    ensures Bits(AND, U32(v), 0xFF) == v % 256
  {
    hide Bits, Low, Ones;
    Pow2Values();
    OnesPow2(8);
    MaskLow(U32(v), 8);
    ShrIsDiv(U32(v), 8);
    Encoded(v);
  }

  lemma Encoded(v: int)
    ensures U32(v) % 256 == v % 256
  {
    var k := v / 0x1_0000_0000;
    var y := U32(v);
    DivModUnique(v, 256, k * 0x100_0000 + y / 256, y % 256);
  }

  const MAX_WORDS := 65536

  /** The way from cur to a label. */
  function Distance(cur: int, find: string, labels: seq<LabelDec>): int {
    var found := Offset(find, labels);
    if found == -1 then MAX_WORDS + 1 else found - cur
  }

  method FindReloff(cur: int, find: string, labels: seq<LabelDec>) returns (r: int)
    ensures if Offset(find, labels) == -1 then r == MAX_WORDS + 1 else cur + r == Offset(find, labels)
  {
    var found := FindOffset(find, labels);
    if found == -1 {
      return MAX_WORDS + 1;
    }
    return found - cur;
  }
}
