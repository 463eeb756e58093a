/** The instruction table, and its searches by name and by code. */
module InstrTable {
  /** `format` lists the fields of the word behind the opcode, `syntax` the operands in the text. */
  datatype Spec = Spec(nmemonic: string, opcode: nat, hasSubcode: bool, subcode: nat, format: string, syntax: string)

  const INSTR_TABLE: seq<Spec> := [
    Spec("or", 0x00, true, 0, "u3u3u3", "rrr"),
    Spec("nand", 0x00, true, 1, "u3u3u3", "rrr"),
    Spec("and", 0x00, true, 2, "u3u3u3", "rrr"),
    Spec("xor", 0x00, true, 3, "u3u3u3", "rrr"),
    Spec("add", 0x01, true, 0, "u3u3u3", "rrr"),
    Spec("sub", 0x01, true, 1, "u3u3u3", "rrr"),
    Spec("addc", 0x01, true, 2, "u3u3u3", "rrr"),
    Spec("subc", 0x01, true, 3, "u3u3u3", "rrr"),
    Spec("shl", 0x02, true, 0, "u3u3u3", "rrr"),
    Spec("shr", 0x02, true, 1, "u3u3u3", "rrr"),
    Spec("shra", 0x02, true, 2, "u3u3u3", "rrr"),
    Spec("rot", 0x02, true, 3, "u3u3u3", "rrr"),
    Spec("shli", 0x03, true, 0, "u3_2u4", "ru4"),
    Spec("shri", 0x03, true, 1, "u3_2u4", "ru4"),
    Spec("shrai", 0x03, true, 2, "u3_2u4", "ru4"),
    Spec("roti", 0x03, true, 3, "u3_2u4", "ru4"),
    Spec("li", 0x04, false, 0, "u3u8", "ru8"),
    Spec("shlli", 0x05, false, 0, "u3u8", "ru8"),
    Spec("inci", 0x06, false, 0, "u3u8", "ru8"),
    Spec("deci", 0x07, false, 0, "u3u8", "ru8"),
    Spec("ori", 0x08, false, 0, "u3u8", "ru8"),
    Spec("andi", 0x09, false, 0, "u3u8", "ru8"),
    Spec("xori", 0x0A, false, 0, "u3u8", "ru8"),
    Spec("orih", 0x0B, false, 0, "u3u8", "ru8"),
    Spec("andih", 0x0C, false, 0, "u3u8", "ru8"),
    Spec("xorih", 0x0D, false, 0, "u3u8", "ru8"),
    Spec("sleep", 0x0E, false, 0, "_11", ""),
    Spec("ba", 0x0F, false, 0, "s11", "s11"),
    Spec("bal", 0x10, false, 0, "s11", "s11"),
    Spec("bz", 0x11, false, 0, "u3s8", "rs8"),
    Spec("bnz", 0x12, false, 0, "u3s8", "rs8"),
    Spec("jr", 0x13, false, 0, "u3s8", "rs8"),
    Spec("jlr", 0x14, false, 0, "u3s8", "rs8"),
    Spec("ll", 0x15, false, 0, "u3u3s5", "rrs5"),
    Spec("ldw", 0x16, false, 0, "u3u3s5", "rrs5"),
    Spec("stw", 0x17, false, 0, "u3u3s5", "rrs5"),
    Spec("sc", 0x18, false, 0, "u3u3s5", "rrs5"),
    Spec("mfcp", 0x19, false, 0, "u3u3u5", "rcx"),
    Spec("mtcp", 0x1A, false, 0, "u3u3u5", "rcx"),
    Spec("cpop", 0x1B, false, 0, "u3u3_5", "rc"),
    Spec("int", 0x1C, false, 0, "u11", "u11"),
    Spec("rfi", 0x1D, false, 0, "_11", ""),
    Spec("mfctl", 0x1E, false, 0, "u3_3u5", "rq"),
    Spec("mtctl", 0x1F, false, 0, "u3_3u5", "rq")
  ]

  const LEN := 44

  function Entry(i: nat): Spec
    requires i < LEN
  {
    INSTR_TABLE[i]
  }

  // ----- names -----

  function Lower(c: char): char {
    if 'A' <= c <= 'Z' then (c as int + 32) as char else c
  }

  function LowerAll(s: string): string {
    seq(|s|, i requires 0 <= i < |s| => Lower(s[i]))
  }

  /** strcasecmp */
  predicate SameName(a: string, b: string) { LowerAll(a) == LowerAll(b) }

  /** The first entry from i on with the given name, or LEN. */
  function Find(name: string, i: nat): (r: nat)
    requires i <= LEN
    ensures i <= r <= LEN && (r < LEN ==> SameName(name, Entry(r).nmemonic))
    ensures forall j :: i <= j < r ==> !SameName(name, Entry(j).nmemonic)
    decreases LEN - i
  {
    if i == LEN || SameName(name, Entry(i).nmemonic) then i else Find(name, i + 1)
  }

  // ----- no two names are the same: a number tells them apart -----

  function Code(s: string, i: nat): nat { if i < |s| then s[i] as int else 0 }

  function Hash(s: string): nat {
    Code(s, 0) + 2 * Code(s, 1) + Code(s, 2) + 2 * Code(s, 3) + 2 * Code(s, 4)
  }

  /** The entry whose name has hash h, found by halving. */
  function IndexOf(h: nat): nat {
    if h < 595 then
      if h < 427 then
        if h < 339 then
          if h < 318 then
            if h < 313 then 27 else 36
          else
            if h < 324 then 16 else if h < 334 then 33 else 31
        else
          if h < 400 then
            if h < 342 then 0 else if h < 397 then 29 else 4
          else
            if h < 417 then 28 else if h < 423 then 2 else 41
      else
        if h < 441 then
          if h < 436 then
            if h < 431 then 34 else 8
          else
            if h < 437 then 32 else if h < 440 then 9 else 30
        else
          if h < 452 then
            if h < 444 then 40 else if h < 447 then 20 else 5
          else
            if h < 456 then 11 else if h < 466 then 3 else 35
    else
      if h < 658 then
        if h < 634 then
          if h < 614 then
            if h < 611 then 6 else 19
          else
            if h < 627 then 1 else if h < 631 then 21 else 10
        else
          if h < 645 then
            if h < 636 then 18 else if h < 641 then 37 else 12
          else
            if h < 647 then 7 else if h < 652 then 13 else 23
      else
        if h < 841 then
          if h < 664 then
            if h < 662 then 39 else 15
          else
            if h < 666 then 38 else if h < 835 then 22 else 24
        else
          if h < 860 then
            if h < 857 then 14 else if h < 858 then 17 else 26
          else
            if h < 874 then 42 else if h < 888 then 25 else 43
  }

  lemma Named0(i: nat)
    requires 0 <= i < 8
    ensures IndexOf(Hash(LowerAll(INSTR_TABLE[i].nmemonic))) == i
  {
  }

  lemma Named1(i: nat)
    requires 8 <= i < 12
    ensures IndexOf(Hash(LowerAll(Entry(i).nmemonic))) == i
  {
  }

  lemma Named2(i: nat)
    requires 12 <= i < 15
    ensures IndexOf(Hash(LowerAll(Entry(i).nmemonic))) == i
  {
  }

  lemma Named3(i: nat)
    requires 15 <= i < 19
    ensures IndexOf(Hash(LowerAll(Entry(i).nmemonic))) == i
  {
  }

  lemma Named4(i: nat)
    requires 19 <= i < 22
    ensures IndexOf(Hash(LowerAll(Entry(i).nmemonic))) == i
  {
  }

  lemma Named5(i: nat)
    requires 22 <= i < 26
    ensures IndexOf(Hash(LowerAll(Entry(i).nmemonic))) == i
  {
  }

  lemma Named6(i: nat)
    requires 26 <= i < 29
    ensures IndexOf(Hash(LowerAll(Entry(i).nmemonic))) == i
  {
  }

  lemma Named7(i: nat)
    requires 29 <= i < 36
    ensures IndexOf(Hash(LowerAll(Entry(i).nmemonic))) == i
  {
  }

  lemma Named8(i: nat)
    requires 36 <= i < 44
    ensures IndexOf(Hash(LowerAll(Entry(i).nmemonic))) == i
  {
  }

  lemma OnlyName(i: nat, j: nat)
    requires i < LEN && j < LEN && SameName(Entry(i).nmemonic, Entry(j).nmemonic)
    ensures i == j
  {
    hide IndexOf, Hash, LowerAll, Entry;
    NamedAll(i);
    NamedAll(j);
  }

  lemma NamedAll(i: nat)
    requires i < LEN
    ensures IndexOf(Hash(LowerAll(Entry(i).nmemonic))) == i
  {
    hide IndexOf, Hash, LowerAll;
    if i < 8 { Named0(i); }
    else if i < 12 { Named1(i); }
    else if i < 15 { Named2(i); }
    else if i < 19 { Named3(i); }
    else if i < 22 { Named4(i); }
    else if i < 26 { Named5(i); }
    else if i < 29 { Named6(i); }
    else if i < 36 { Named7(i); }
    else { Named8(i); }
  }

  /** A name from the table is found where it stands. */
  lemma FindsOwn(i: nat)
    requires i < LEN
    ensures Find(Entry(i).nmemonic, 0) == i
  {
    hide SameName, Entry;
    var r := Find(Entry(i).nmemonic, 0);
    assert SameName(Entry(i).nmemonic, Entry(i).nmemonic) by { Reflexive(Entry(i).nmemonic); }
    if r < LEN { OnlyName(i, r); }
  }

  /** However it is spelled. */
  lemma FindsLike(name: string, i: nat)
    requires i < LEN && SameName(name, Entry(i).nmemonic)
    ensures Find(name, 0) == i
  {
    hide LowerAll, Entry;
    var r := Find(name, 0);
    if r < LEN { OnlyName(i, r); }
  }

  lemma Reflexive(s: string)
    ensures SameName(s, s)
  {
  }

  // ----- the other columns -----

  /** The operands an instruction has; one per format of the table. */
  datatype Shape = RRR | RU4 | RU8 | NONE | S11 | RS8 | RRS5 | RCX | RC | U11 | RQ

  function ShapeOf(op: nat): Shape {
    if op <= 2 then RRR else if op == 3 then RU4 else if op <= 13 then RU8
    else if op == 14 || op == 29 then NONE
    else if op <= 16 then S11 else if op <= 20 then RS8 else if op <= 24 then RRS5
    else if op <= 26 then RCX else if op == 27 then RC else if op == 28 then U11 else RQ
  }

  function Format(h: Shape): string {
    match h
    case RRR => "u3u3u3" case RU4 => "u3_2u4" case RU8 => "u3u8" case NONE => "_11"
    case S11 => "s11" case RS8 => "u3s8" case RRS5 => "u3u3s5" case RCX => "u3u3u5"
    case RC => "u3u3_5" case U11 => "u11" case RQ => "u3_3u5"
  }

  function Syntax(h: Shape): string {
    match h
    case RRR => "rrr" case RU4 => "ru4" case RU8 => "ru8" case NONE => ""
    case S11 => "s11" case RS8 => "rs8" case RRS5 => "rrs5" case RCX => "rcx"
    case RC => "rc" case U11 => "u11" case RQ => "rq"
  }

  /** The first four opcodes have four subcodes each. */
  function Row(op: nat, sub: nat): nat { if op <= 3 then 4 * op + sub else op + 12 }

  predicate Regular(i: nat, e: Spec) {
    && e.opcode == (if i < 16 then i / 4 else i - 12)
    && e.hasSubcode == (i < 16)
    && e.subcode == (if i < 16 then i % 4 else 0)
    && e.format == Format(ShapeOf(e.opcode)) && e.syntax == Syntax(ShapeOf(e.opcode))
  }

  lemma Regular0(i: nat)
    requires i < 12
    ensures Regular(i, Entry(i))
  {
    assert Entry(i) == INSTR_TABLE[i];
  }

  lemma Regular1(i: nat)
    requires 12 <= i < 28
    ensures Regular(i, Entry(i))
  {
  }

  lemma Regular2(i: nat)
    requires 28 <= i < LEN
    ensures Regular(i, Entry(i))
  {
  }

  lemma RegularAll(i: nat)
    requires i < LEN
    ensures Regular(i, Entry(i))
  {
    hide Regular, Entry;
    if i < 12 { Regular0(i); } else if i < 28 { Regular1(i); } else { Regular2(i); }
  }

  predicate Letters(s: string) { 0 < |s| <= 5 && forall k :: 0 <= k < |s| ==> 'a' <= s[k] <= 'z' }

  lemma Spelled0(i: nat)
    requires i < 15
    ensures Letters(Entry(i).nmemonic)
  {
    assert Entry(i) == INSTR_TABLE[i];
  }

  lemma Spelled1(i: nat)
    requires 15 <= i < 30
    ensures Letters(Entry(i).nmemonic)
  {
  }

  lemma Spelled2(i: nat)
    requires 30 <= i < LEN
    ensures Letters(Entry(i).nmemonic)
  {
  }

  lemma Spelled(i: nat)
    requires i < LEN
    ensures Letters(Entry(i).nmemonic)
  {
    hide Letters, Entry;
    if i < 15 { Spelled0(i); } else if i < 30 { Spelled1(i); } else { Spelled2(i); }
  }
}
