/** Looking instructions up, and packing fields into an instruction word. */
module Encoder {
  import opened Words
  import opened InstrTable
  import opened Decoder
  import Text

  // ----- formats -----

  datatype Slot = Slot(blank: bool, bits: nat)

  /** A format is a row of letters with a width; '_' stands for digits left zero. */
  function Slots(format: string): seq<Slot> {
    if format == "" then []
    else
      var rest := format[1..];
      [Slot(format[0] == '_', Text.Digits(rest, 10, 0))] + Slots(rest[Text.Run(rest)..])
  }

  function Needs(slots: seq<Slot>): nat {
    if slots == [] then 0 else (if slots[0].blank then 0 else 1) + Needs(slots[1..])
  }

  function Layout(h: Shape): seq<Slot> {
    match h
    case RRR => [Slot(false, 3), Slot(false, 3), Slot(false, 3)]
    case RU4 => [Slot(false, 3), Slot(true, 2), Slot(false, 4)]
    case RU8 | RS8 => [Slot(false, 3), Slot(false, 8)]
    case NONE => [Slot(true, 11)]
    case S11 | U11 => [Slot(false, 11)]
    case RRS5 | RCX => [Slot(false, 3), Slot(false, 3), Slot(false, 5)]
    case RC => [Slot(false, 3), Slot(false, 3), Slot(true, 5)]
    case RQ => [Slot(false, 3), Slot(true, 3), Slot(false, 5)]
  }

  lemma OneDigit(c: char, d: char, rest: string)
    requires '0' <= d <= '9' && (rest != "" ==> Text.DigitValue(rest[0]) >= 10)
    ensures Slots([c, d] + rest) == [Slot(c == '_', d as int - '0' as int)] + Slots(rest)
  {
    var f, v := [c, d] + rest, d as int - '0' as int;
    var t := f[1..];
    assert t[0] == d && t[1..] == rest;
    assert Text.Run(t) == 1 + Text.Run(rest) == 1;
    assert Text.Digits(t, 10, 0) == Text.Digits(rest, 10, v) == v;
    assert Slots(f) == [Slot(c == '_', v)] + Slots(t[1..]);
  }

  lemma Eleven(c: char)
    ensures Slots([c, '1', '1']) == [Slot(c == '_', 11)]
  {
    var t := [c, '1', '1'][1..];
    assert t[1..] == ['1'] && t[1..][1..] == "";
    assert Text.Digits(t, 10, 0) == Text.Digits(['1'], 10, 1) == 11;
    assert Text.Run(t) == 2;
  }

  function SlotOf(c: char, d: char): Slot
    requires '0' <= d <= '9'
  {
    Slot(c == '_', d as int - '0' as int)
  }

  predicate Letter(c: char) { Text.DigitValue(c) >= 10 }

  lemma Two(a: char, x: char, b: char, y: char)
    requires '0' <= x <= '9' && '0' <= y <= '9' && Letter(b)
    ensures Slots([a, x, b, y]) == [SlotOf(a, x), SlotOf(b, y)]
  {
    hide Text.Digits, Text.Run, Slots;
    OneDigit(a, x, [b, y]);
    OneDigit(b, y, "");
    Nothing();
    assert [a, x, b, y] == [a, x] + [b, y] && [b, y] == [b, y] + "";
  }

  lemma Nothing()
    ensures Slots("") == []
  {
  }

  lemma Three(a: char, x: char, b: char, y: char, c: char, z: char)
    requires '0' <= x <= '9' && '0' <= y <= '9' && '0' <= z <= '9' && Letter(b) && Letter(c)
    ensures Slots([a, x, b, y, c, z]) == [SlotOf(a, x), SlotOf(b, y), SlotOf(c, z)]
  {
    hide Text.Digits, Text.Run, Slots;
    OneDigit(a, x, [b, y, c, z]);
    Two(b, y, c, z);
    assert [a, x, b, y, c, z] == [a, x] + [b, y, c, z];
  }

  lemma Layouts(h: Shape)
    ensures Slots(Format(h)) == Layout(h)
  {
    hide Slots, Text.Digits, Text.Run;
    match h
    case RRR => Three('u', '3', 'u', '3', 'u', '3');
    case RU4 => Three('u', '3', '_', '2', 'u', '4');
    case RU8 => Two('u', '3', 'u', '8');
    case NONE => Eleven('_');
    case S11 => Eleven('s');
    case RS8 => Two('u', '3', 's', '8');
    case RRS5 => Three('u', '3', 'u', '3', 's', '5');
    case RCX => Three('u', '3', 'u', '3', 'u', '5');
    case RC => Three('u', '3', 'u', '3', '_', '5');
    case U11 => Eleven('u');
    case RQ => Three('u', '3', '_', '3', 'u', '5');
  }

  // ----- packing -----

  /** The word built so far moves up and the field goes in below it, cut to its width. */
  function Append(acc: word, n: nat, val: int): word { Wrap(acc * Pow2(n) + val % Pow2(n)) }

  function Pack(acc: word, slots: seq<Slot>, fields: seq<int>): word
    requires Needs(slots) <= |fields|
    decreases |slots|
  {
    hide Append;
    if slots == [] then acc
    else if slots[0].blank then Pack(Append(acc, slots[0].bits, 0), slots[1..], fields)
    else Pack(Append(acc, slots[0].bits, fields[0]), slots[1..], fields[1..])
  }

  /** Shifting up and or-ing in the masked field, in a uint16_t. */
  lemma AppendBits(acc: word, n: nat, val: int)
    requires n <= 16
    ensures Bits(OR, Wrap(Shl(acc, n)), Bits(AND, val % 0x1_0000_0000, Ones(n))) == Append(acc, n, val)
  {
    hide Bits, Shl, Ones, Low, Pow2;
    Pow2Values();
    Pow2Add(n, 16 - n);
    Pow2Int32();
    Pow2Add(n, 32 - n);
    var p, q := Pow2(n), Pow2(16 - n);
    DropHigh(acc, p, q);
    ShlIsMul(acc, n);
    ShlIsMul(acc % q, n);
    ModMod(val, p, Pow2(32 - n));
    MaskLow(val % 0x1_0000_0000, n);
    ShrIsDiv(val % 0x1_0000_0000, n);
    OrIsSum(acc % q, val % p, n);
    SumFits(acc, p, q, val % p);
  }

  lemma DropHigh(x: nat, p: nat, q: nat)
    requires p > 0 && q > 0 && p * q == 0x1_0000
    ensures x * p % 0x1_0000 == x % q * p
  {
    MulMono(x % q, q - 1, p);
    assert x * p == x / q * (p * q) + x % q * p by {
      assert x == x / q * q + x % q;
      assert (x / q * q + x % q) * p == x / q * (p * q) + x % q * p;
    }
    assert (q - 1) * p == p * q - p;
    DivModUnique(x * p, 0x1_0000, x / q, x % q * p);
  }

  lemma SumFits(x: nat, p: nat, q: nat, v: nat)
    requires p > 0 && q > 0 && p * q == 0x1_0000 && v < p
    ensures Wrap(x * p + v) == x % q * p + v
  {
    DropHigh(x, p, q);
    MulMono(x % q, q - 1, p);
    assert (q - 1) * p == p * q - p;
  }

  lemma ModMod(x: int, p: nat, k: nat)
    requires p > 0 && k > 0
    ensures x % (k * p) % p == x % p && x % (p * k) % p == x % p
  {
    var m := k * p;
    var y := x % m;
    assert x == x / m * m + y;
    assert x / m * (k * p) == x / m * k * p;
    assert x == (x / m * k + y / p) * p + y % p by {
      assert y == y / p * p + y % p;
      assert (x / m * k + y / p) * p == x / m * k * p + y / p * p;
    }
    DivModUnique(x, p, x / m * k + y / p, y % p);
  }

  lemma Fits(i: nat)
    requires i < LEN
    ensures Entry(i).opcode < 32 && Needs(Slots(Entry(i).format)) <= 3
  {
    hide Slots, Format, Entry;
    RegularAll(i);
    Layouts(ShapeOf(Entry(i).opcode));
    NeedsThree(ShapeOf(Entry(i).opcode));
  }

  lemma NeedsThree(h: Shape)
    ensures Needs(Layout(h)) <= 3
  {
    var l := Layout(h);
    assert |l| <= 3;
    Counted(l);
  }

  lemma {:induction false} Counted(l: seq<Slot>)
    ensures Needs(l) <= |l|
  {
    if l != [] { Counted(l[1..]); }
  }

  /** What the table entry i makes of the operands. */
  function Encode(i: nat, fields: seq<int>): word
    requires i < LEN && |fields| == 3
  {
    Fits(i);
    hide Append, Slots, Pack, Entry;
    var w := Pack(Entry(i).opcode, Slots(Entry(i).format), fields);
    if Entry(i).hasSubcode then Append(w, 2, Entry(i).subcode) else w
  }

  method NmemonicSyntax(nmemonic: string) returns (status: int, syntax: string)
    ensures var i := Find(nmemonic, 0);
            if i < LEN then status == 0 && syntax == Entry(i).syntax else status == -1
  {
    hide SameName, Entry;
    var i := 0;
    while i < LEN
      invariant i <= LEN && Find(nmemonic, 0) == Find(nmemonic, i)
    {
      if SameName(nmemonic, Entry(i).nmemonic) {
        return 0, Entry(i).syntax;
      }
      i := i + 1;
    }
    return -1, "";
  }

  predicate Narrow(slots: seq<Slot>) { forall j :: 0 <= j < |slots| ==> slots[j].bits <= 16 }

  lemma NarrowFormat(i: nat)
    requires i < LEN
    ensures Narrow(Slots(Entry(i).format))
  {
    hide Slots, Format, Entry;
    RegularAll(i);
    Layouts(ShapeOf(Entry(i).opcode));
  }

  /** What remains to be packed at place i of the format with k operands used up. */
  function Rest(acc: word, format: string, i: nat, fields: seq<int>, k: nat): word
    requires i <= |format| && k <= |fields| && Needs(Slots(format[i..])) <= |fields| - k
  {
    Pack(acc, Slots(format[i..]), fields[k..])
  }

  /** Where the slot at place i ends, and how wide it is. */
  function SlotEnd(format: string, i: nat): (j: nat)
    requires i < |format|
    ensures i < j <= |format|
  {
    i + 1 + Text.Run(format[i + 1..])
  }

  function SlotBits(format: string, i: nat): nat
    requires i < |format|
  {
    Text.Digits(format[i + 1..], 10, 0)
  }

  lemma SlotsAt(format: string, i: nat)
    requires i < |format|
    ensures Slots(format[i..]) == [Slot(format[i] == '_', SlotBits(format, i))] + Slots(format[SlotEnd(format, i)..])
  {
    hide Text.Digits, Text.Run;
    var t := format[i + 1..];
    assert format[i..][1..] == t;
    assert t[Text.Run(t)..] == format[SlotEnd(format, i)..];
  }

  lemma NarrowAt(format: string, i: nat)
    requires i < |format| && Narrow(Slots(format[i..]))
    ensures SlotBits(format, i) <= 16 && Narrow(Slots(format[SlotEnd(format, i)..]))
  {
    hide Slots, SlotEnd, SlotBits;
    SlotsAt(format, i);
    var s := Slots(format[i..]);
    assert s[0].bits <= 16;
    assert s[1..] == Slots(format[SlotEnd(format, i)..]);
  }

  lemma BlankSlot(acc: word, format: string, i: nat, fields: seq<int>, k: nat)
    requires i < |format| && format[i] == '_'
    requires k <= |fields| && Needs(Slots(format[i..])) <= |fields| - k
    ensures Needs(Slots(format[SlotEnd(format, i)..])) <= |fields| - k
    ensures Rest(acc, format, i, fields, k) ==
            Rest(Append(acc, SlotBits(format, i), 0), format, SlotEnd(format, i), fields, k)
  {
    hide Append, Slots, SlotEnd, SlotBits;
    SlotsAt(format, i);
    var s := Slots(format[i..]);
    assert s[1..] == Slots(format[SlotEnd(format, i)..]);
  }

  lemma FieldSlot(acc: word, format: string, i: nat, fields: seq<int>, k: nat)
    requires i < |format| && format[i] != '_'
    requires k <= |fields| && Needs(Slots(format[i..])) <= |fields| - k
    ensures k < |fields| && Needs(Slots(format[SlotEnd(format, i)..])) <= |fields| - k - 1
    ensures Rest(acc, format, i, fields, k) ==
            Rest(Append(acc, SlotBits(format, i), fields[k]), format, SlotEnd(format, i), fields, k + 1)
  {
    hide Append, Slots, SlotEnd, SlotBits;
    SlotsAt(format, i);
    var s := Slots(format[i..]);
    assert s[1..] == Slots(format[SlotEnd(format, i)..]);
    assert fields[k..][1..] == fields[k + 1..];
  }

  method AssembleInstruction(nmemonic: string, fields: seq<int>) returns (status: int, instr: word)
    requires |fields| == 3
    ensures var i := Find(nmemonic, 0);
            if i < LEN then status == 0 && instr == Encode(i, fields) else status == -1
  {
    hide SameName, Entry, Slots, Pack, Needs, Append;
    var row := 0;
    while row < LEN && !SameName(nmemonic, Entry(row).nmemonic)
      invariant row <= LEN && Find(nmemonic, 0) == Find(nmemonic, row)
    {
      row := row + 1;
    }
    if row == LEN {
      return -1, 0;
    }
    instr := PackFields(row, fields);
    if Entry(row).hasSubcode {
      instr := AddBits(instr, 2, Entry(row).subcode);
    }
    status := 0;
  }

  method AddBits(acc: word, numbits: nat, val: int) returns (r: word)
    requires numbits <= 16
    ensures r == Append(acc, numbits, val)
  {
    hide Bits, Shl, Ones, Append;
    AppendBits(acc, numbits, val);
    r := Wrap(Shl(acc, numbits));
    r := Bits(OR, r, Bits(AND, val % 0x1_0000_0000, Ones(numbits)));
  }

  method PackFields(row: nat, fields: seq<int>) returns (instr: word)
    requires row < LEN && |fields| == 3
    ensures Entry(row).opcode < 0x1_0000 && Needs(Slots(Entry(row).format)) <= 3
    ensures instr == Pack(Entry(row).opcode, Slots(Entry(row).format), fields)
  {
    hide Entry, Slots, Pack, Needs, Append, Narrow, Rest, SlotBits, SlotEnd;
    Fits(row);
    NarrowFormat(row);
    var format := Entry(row).format;
    assert format[0..] == format && fields[0..] == fields;
    instr := Entry(row).opcode;
    var i, k := 0, 0;
    while i < |format|
      invariant i <= |format| && k <= 3
      invariant Needs(Slots(format[i..])) <= 3 - k && Narrow(Slots(format[i..]))
      invariant Rest(instr, format, i, fields, k) == Rest(Entry(row).opcode, format, 0, fields, 0)
    {
      NarrowAt(format, i);
      var val := 0;
      if format[i] == '_' {
        BlankSlot(instr, format, i, fields, k);
      } else {
        FieldSlot(instr, format, i, fields, k);
        val := fields[k];
        k := k + 1;
      }
      instr := AddBits(instr, SlotBits(format, i), val);
      i := SlotEnd(format, i);
    }
    Spent(instr, format, fields, k);
    Whole(row, fields);
  }

  lemma Whole(row: nat, fields: seq<int>)
    requires row < LEN && |fields| == 3
    ensures Entry(row).opcode < 0x1_0000 && Needs(Slots(Entry(row).format)) <= 3
            && Needs(Slots(Entry(row).format[0..])) <= 3
    ensures Rest(Entry(row).opcode, Entry(row).format, 0, fields, 0) ==
            Pack(Entry(row).opcode, Slots(Entry(row).format), fields)
  {
    hide Entry, Slots, Pack, Needs;
    Fits(row);
    assert Entry(row).format[0..] == Entry(row).format && fields[0..] == fields;
  }

  lemma Spent(acc: word, format: string, fields: seq<int>, k: nat)
    requires k <= |fields| && Needs(Slots(format[|format|..])) <= |fields| - k
    ensures Rest(acc, format, |format|, fields, k) == acc
  {
    assert format[|format|..] == "";
  }

  method ResolveNmemonic(opcode: nat, subcode: nat) returns (status: int, nmemonic: string)
    requires opcode < 32 && subcode < 4
    ensures status == 0 && nmemonic == Entry(Row(opcode, subcode)).nmemonic
  {
    hide Entry, Format, Syntax, ShapeOf;
    var i := 0;
    RegularAll(i);
    while i < LEN && Entry(i).opcode != opcode
      invariant i <= Row(opcode, 0) && Regular(i, Entry(i))
    {
      i := i + 1;
      RegularAll(i);
    }
    if Entry(i).hasSubcode {
      while i < LEN && Entry(i).subcode != subcode
        invariant i <= Row(opcode, subcode) && Regular(i, Entry(i))
        invariant Entry(i).opcode == opcode <= 3
      {
        i := i + 1;
        RegularAll(i);
      }
    }
    nmemonic := Entry(i).nmemonic;
    status := 0;
  }

  // ----- encoding and decoding -----

  /** The digits that decide what an instruction is; the others are zero. */
  function Canon(w: word): word {
    var op := w / 2048;
    if op == 3 then w - w / 64 % 4 * 64
    else if op == 14 || op == 29 then op * 2048
    else if op == 27 then w - w % 32
    else if op >= 30 then w - w / 32 % 8 * 32
    else w
  }

  function Operands(d: Decoded): seq<int> { [d.f0, d.f1, d.f2] }

  /** Every field at its place. */
  function Join(op: nat, sub: nat, x: int, y: int, z: int): nat {
    op * 2048 +
    match ShapeOf(op)
    case RRR => x % 8 * 256 + y % 8 * 32 + z % 8 * 4 + sub
    case RU4 => x % 8 * 256 + y % 16 * 4 + sub
    case RU8 | RS8 => x % 8 * 256 + y % 256
    case NONE => 0
    case S11 | U11 => x % 2048
    case RRS5 | RCX => x % 8 * 256 + y % 8 * 32 + z % 32
    case RC => x % 8 * 256 + y % 8 * 32
    case RQ => x % 8 * 256 + y % 32
  }

  lemma Pack3(acc: word, a: Slot, b: Slot, c: Slot, f: seq<int>)
    requires !a.blank && |f| == 3
    ensures Needs([a, b, c]) <= 3
    ensures Pack(acc, [a, b, c], f) ==
            Append(Append(Append(acc, a.bits, f[0]), b.bits, if b.blank then 0 else f[1]),
                   c.bits, if c.blank then 0 else if b.blank then f[1] else f[2])
  {
    hide Append;
    assert [a, b, c][1..] == [b, c] && [b, c][1..] == [c];
    var g := if b.blank then f[1..] else f[1..][1..];
    Pack1(Append(Append(acc, a.bits, f[0]), b.bits, if b.blank then 0 else f[1]), c, g);
  }

  lemma Pack1(acc: word, a: Slot, f: seq<int>)
    requires !a.blank ==> f != []
    ensures Needs([a]) <= |f|
    ensures Pack(acc, [a], f) == Append(acc, a.bits, if a.blank then 0 else f[0])
  {
    hide Append;
    assert [a][1..] == [];
  }

  lemma Pack2(acc: word, a: Slot, b: Slot, f: seq<int>)
    requires !a.blank && (if b.blank then |f| >= 1 else |f| >= 2)
    ensures Needs([a, b]) <= |f|
    ensures Pack(acc, [a, b], f) == Append(Append(acc, a.bits, f[0]), b.bits, if b.blank then 0 else f[1])
  {
    hide Append;
    assert [a, b][1..] == [b];
    Pack1(Append(acc, a.bits, f[0]), b, f[1..]);
  }

  lemma Appended(acc: word, n: nat, v: int, p: nat)
    requires p == Pow2(n) && acc * p + p <= 0x1_0000
    ensures Append(acc, n, v) == acc * p + v % p
  {
    hide Pow2;
  }

  lemma EncodeIsJoin(i: nat, f: seq<int>)
    requires i < LEN && |f| == 3
    ensures Encode(i, f) == Join(Entry(i).opcode, Entry(i).subcode, f[0], f[1], f[2])
  {
    hide Entry, Append, Slots, Format, Syntax, ShapeOf, Pack, Needs, Join;
    RegularAll(i);
    Fits(i);
    var e := Entry(i);
    Layouts(ShapeOf(e.opcode));
    PackShape(e.opcode, f);
    Joined(e.opcode, e.subcode, f);
  }

  /** The packed word, before the subcode goes below it. */
  function Upper(op: nat, x: int, y: int, z: int): nat {
    match ShapeOf(op)
    case RRR => op * 512 + x % 8 * 64 + y % 8 * 8 + z % 8
    case RU4 => op * 512 + x % 8 * 64 + y % 16
    case _ => Join(op, 0, x, y, z)
  }

  lemma PackShape(op: nat, f: seq<int>)
    requires op < 32 && |f| == 3
    ensures Needs(Layout(ShapeOf(op))) <= 3
    ensures Pack(op, Layout(ShapeOf(op)), f) == Upper(op, f[0], f[1], f[2])
  {
    hide Append, Pack, Needs, Pow2, ShapeOf;
    Pow2Values();
    var x, y, z := f[0], f[1], f[2];
    var n3 := Slot(false, 3);
    match ShapeOf(op) {
      case RRR => Pack3(op, n3, n3, n3, f); Chain3(op, 3, 8, x, 3, 8, y, 3, 8, z);
      case RU4 => Pack3(op, n3, Slot(true, 2), Slot(false, 4), f); Chain3(op, 3, 8, x, 2, 4, 0, 4, 16, y);
      case RU8 | RS8 => Pack2(op, n3, Slot(false, 8), f); Chain2(op, 3, 8, x, 8, 256, y);
      case NONE => Pack1(op, Slot(true, 11), f); Appended(op, 11, 0, 2048);
      case S11 | U11 => Pack1(op, Slot(false, 11), f); Appended(op, 11, x, 2048);
      case RRS5 | RCX => Pack3(op, n3, n3, Slot(false, 5), f); Chain3(op, 3, 8, x, 3, 8, y, 5, 32, z);
      case RC => Pack3(op, n3, n3, Slot(true, 5), f); Chain3(op, 3, 8, x, 3, 8, y, 5, 32, 0);
      case RQ => Pack3(op, n3, Slot(true, 3), Slot(false, 5), f); Chain3(op, 3, 8, x, 3, 8, 0, 5, 32, y);
    }
  }

  lemma Chain2(op: nat, a: nat, p: nat, x: int, b: nat, q: nat, y: int)
    requires op < 32 && p == Pow2(a) == 8 && q == Pow2(b) && 0 < q <= 256
    ensures Append(Append(op, a, x), b, y) == (op * 8 + x % 8) * q + y % q
  {
    hide Append, Pow2;
    Appended(op, a, x, p);
    MulMono(op * 8 + x % 8 + 1, 256, q);
    assert (op * 8 + x % 8 + 1) * q == (op * 8 + x % 8) * q + q;
    Appended(op * 8 + x % 8, b, y, q);
  }

  lemma Chain3(op: nat, a: nat, p: nat, x: int, b: nat, q: nat, y: int, c: nat, r: nat, z: int)
    requires op < 32 && p == Pow2(a) == 8 && q == Pow2(b) && 0 < q && r == Pow2(c) && 0 < r && q * r <= 256
    ensures Append(Append(Append(op, a, x), b, y), c, z) == ((op * 8 + x % 8) * q + y % q) * r + z % r
  {
    hide Append, Pow2;
    var h := op * 8 + x % 8;
    MulMono(1, r, q);
    Chain2(op, a, p, x, b, q, y);
    var m := h * q + y % q;
    Under(h, q, y % q, r);
    assert (m + 1) * r == m * r + r;
    MulMono(m + 1, 256 * q, r);
    Appended(m, c, z, r);
  }

  lemma Under(h: nat, q: nat, y: nat, r: nat)
    requires h < 256 && y < q && q * r <= 256
    ensures h * q + y + 1 <= 256 * q && 256 * q * r <= 0x1_0000
  {
    MulMono(h, 255, q);
    assert 256 * q * r == 256 * (q * r);
  }

  lemma Joined(op: nat, sub: nat, f: seq<int>)
    requires op < 32 && sub < 4 && |f| == 3 && (op > 3 ==> sub == 0)
    ensures var w := Upper(op, f[0], f[1], f[2]);
            w < 0x1_0000 && Join(op, sub, f[0], f[1], f[2]) == if op <= 3 then Append(w, 2, sub) else w
  {
    hide Append, Pow2;
    Pow2Values();
    var w := Upper(op, f[0], f[1], f[2]);
    if op <= 3 { Appended(w, 2, sub, 4); }
  }
}
