/** Numbers as a programmer writes them, in every base, and what the assembler makes of them. */
module Numbers {
  import opened Words
  import opened Labels
  import opened Assembler
  import opened Decoder
  import opened Text
  import Printer
  import RoundTrip
  import Tokens
  import TwoPasses

  // ----- writing -----

  const SMALL := "0123456789abcdef"
  const LARGE := "0123456789ABCDEF"

  function Numeral(n: nat, base: nat, caps: bool): (s: string)
    requires 2 <= base <= 16
    ensures s != ""
  {
    var d := (if caps then LARGE else SMALL)[n % base];
    if n < base then [d] else Numeral(n / base, base, caps) + [d]
  }

  function Zeros(k: nat): (s: string)
    ensures |s| == k
  {
    if k == 0 then "" else "0" + Zeros(k - 1)
  }

  /** Decimal; hexadecimal with a small or large x and small or large digits; octal. */
  datatype Style = Dec | Hex(caps: bool, big: bool) | Oct

  function Base(y: Style): nat { match y case Dec => 10 case Hex(_, _) => 16 case Oct => 8 }

  function Prefix(y: Style): string {
    match y case Dec => "" case Hex(_, big) => (if big then "0X" else "0x") case Oct => "0"
  }

  function Unsigned(n: nat, y: Style, zeros: nat): string {
    Prefix(y) + Zeros(zeros) + Numeral(n, Base(y), y.Hex? && y.caps)
  }

  /** n with its sign; a positive number may carry one. */
  function Written(n: int, y: Style, zeros: nat, plus: bool): string {
    (if n < 0 then "-" else if plus then "+" else "") + Unsigned(if n < 0 then -n else n, y, zeros)
  }

  /** A leading zero would make a decimal number octal. */
  predicate Readable(y: Style, zeros: nat) { y.Dec? ==> zeros == 0 }

  /** c is no digit of the base. */
  predicate Foreign(c: char, base: nat)
    requires base <= 16
  {
    c !in SMALL[..base] && c !in LARGE[..base]
  }

  /** What follows a number ends it, and makes no 0x of a zero. */
  predicate Stops(t: string, base: nat)
    requires base <= 16
  {
    t != "" ==> Foreign(t[0], base) && t[0] != 'x' && t[0] != 'X'
  }

  // ----- reading it back -----

  lemma DigitReads(d: nat)
    requires d < 16
    ensures DigitValue(SMALL[d]) == d && DigitValue(LARGE[d]) == d
  {
    if d < 10 {
      assert SMALL[d] == LARGE[d] == ('0' as int + d) as char;
    } else {
      assert SMALL[d] == ('a' as int + (d - 10)) as char && LARGE[d] == ('A' as int + (d - 10)) as char;
    }
  }

  lemma OwnDigit(c: char, base: nat)
    requires base <= 16 && DigitValue(c) < base
    ensures !Foreign(c, base)
  {
    var d := DigitValue(c);
    if d < 10 || 'a' <= c { assert SMALL[..base][d] == c; } else { assert LARGE[..base][d] == c; }
  }

  lemma ForeignIsNoDigit(c: char, base: nat)
    requires base <= 16 && Foreign(c, base)
    ensures DigitValue(c) >= base
  {
    hide Foreign, DigitValue;
    if DigitValue(c) < base { OwnDigit(c, base); }
  }

  lemma DigitsPush(c: char, t: string, base: nat, acc: nat)
    requires DigitValue(c) < base
    ensures Digits([c] + t, base, acc) == Digits(t, base, acc * base + DigitValue(c))
  {
    assert ([c] + t)[1..] == t;
  }

  lemma DivModBack(n: nat, base: nat)
    requires base > 0
    ensures n / base * base + n % base == n && n % base < base && (n < base ==> n / base == 0 && n % base == n)
  {
  }

  lemma {:induction false} DigitsOfNumeral(n: nat, base: nat, caps: bool, t: string)
    requires 2 <= base <= 16
    ensures Digits(Numeral(n, base, caps) + t, base, 0) == Digits(t, base, n)
  {
    hide DigitValue, Digits;
    var d := (if caps then LARGE else SMALL)[n % base];
    DigitReads(n % base);
    DivModBack(n, base);
    DigitsPush(d, t, base, n / base);
    if n < base {
      assert Numeral(n, base, caps) + t == [d] + t;
    } else {
      DigitsOfNumeral(n / base, base, caps, [d] + t);
      assert Numeral(n, base, caps) + t == Numeral(n / base, base, caps) + ([d] + t);
    }
  }

  lemma DigitsStop(t: string, base: nat, n: nat)
    requires base <= 16 && Stops(t, base)
    ensures Digits(t, base, n) == n
  {
    if t != "" { ForeignIsNoDigit(t[0], base); }
  }

  lemma {:induction false} DigitsOfZeros(k: nat, t: string, base: nat)
    requires base >= 2
    ensures Digits(Zeros(k) + t, base, 0) == Digits(t, base, 0)
  {
    if k == 0 {
      assert Zeros(0) + t == t;
    } else {
      assert (Zeros(k) + t)[0] == '0' && (Zeros(k) + t)[1..] == Zeros(k - 1) + t;
      DigitsOfZeros(k - 1, t, base);
    }
  }

  lemma Padded(n: nat, base: nat, caps: bool, zeros: nat, t: string)
    requires 2 <= base <= 16 && Stops(t, base)
    ensures Digits(Zeros(zeros) + Numeral(n, base, caps) + t, base, 0) == n
  {
    hide Digits, Numeral;
    assert Zeros(zeros) + Numeral(n, base, caps) + t == Zeros(zeros) + (Numeral(n, base, caps) + t);
    DigitsOfZeros(zeros, Numeral(n, base, caps) + t, base);
    DigitsOfNumeral(n, base, caps, t);
    DigitsStop(t, base, n);
  }

  lemma {:induction false} LeadingDigit(n: nat, base: nat, caps: bool)
    requires 2 <= base <= 16
    ensures DigitValue(Numeral(n, base, caps)[0]) < base
    ensures n > 0 ==> Numeral(n, base, caps)[0] != '0'
    ensures n == 0 ==> Numeral(n, base, caps) == "0"
  {
    hide DigitValue;
    DigitReads(n % base);
    DivModBack(n, base);
    if n >= base {
      Quotient(n, base);
      LeadingDigit(n / base, base, caps);
    } else {
      ZeroIsZero();
    }
  }

  lemma Quotient(n: nat, base: nat)
    requires 2 <= base <= n
    ensures 0 < n / base
  {
  }

  lemma ZeroIsZero()
    ensures SMALL[0] == '0' && LARGE[0] == '0'
    ensures forall d :: 0 < d < 16 ==> SMALL[d] != '0' && LARGE[d] != '0'
  {
  }

  lemma HexMagnitude(r: string, big: bool)
    requires r != "" && DigitValue(r[0]) < 16
    ensures Magnitude((if big then "0X" else "0x") + r, 0) == Digits(r, 16, 0)
  {
    hide Digits, DigitValue;
    var s := (if big then "0X" else "0x") + r;
    assert s[2..] == r && s[2] == r[0];
  }

  lemma OctMagnitude(r: string)
    requires r != "" && DigitValue(r[0]) < 8
    ensures Magnitude("0" + r, 0) == Digits(r, 8, 0)
  {
    hide Digits;
    OctalZero(r);
  }

  lemma DecMagnitude(r: string)
    requires r != "" && r[0] != '0'
    ensures Magnitude(r, 0) == Digits(r, 10, 0)
  {
    hide Digits, DigitValue;
  }

  lemma ZeroMagnitude(t: string)
    requires Stops(t, 10)
    ensures Magnitude("0" + t, 0) == 0
  {
    hide Digits, DigitValue;
    var s := "0" + t;
    LoneZero(t);
    assert t != "" ==> s[1] == t[0];
  }

  lemma PaddedStarts(n: nat, base: nat, caps: bool, zeros: nat, t: string)
    requires 2 <= base <= 16
    ensures var r := Zeros(zeros) + Numeral(n, base, caps) + t; r != "" && DigitValue(r[0]) < base
    ensures zeros == 0 ==> (Zeros(zeros) + Numeral(n, base, caps) + t)[0] == Numeral(n, base, caps)[0]
  {
    hide Numeral, DigitValue;
    LeadingDigit(n, base, caps);
    ZeroDigit();
  }

  lemma UnsignedReads(n: nat, y: Style, zeros: nat, t: string)
    requires Readable(y, zeros) && Stops(t, Base(y))
    ensures Magnitude(Unsigned(n, y, zeros) + t, 0) == n
  {
    hide Digits, Numeral, DigitValue, Magnitude, Stops;
    var caps := y.Hex? && y.caps;
    var r := Zeros(zeros) + Numeral(n, Base(y), caps) + t;
    assert Unsigned(n, y, zeros) + t == Prefix(y) + r;
    Padded(n, Base(y), caps, zeros, t);
    PaddedStarts(n, Base(y), caps, zeros, t);
    LeadingDigit(n, Base(y), caps);
    match y {
      case Hex(_, big) => HexMagnitude(r, big);
      case Oct => OctMagnitude(r);
      case Dec =>
        assert "" + r == r;
        if n == 0 {
          assert r == "0" + t;
          ZeroMagnitude(t);
        } else {
          DecMagnitude(r);
        }
    }
  }

  lemma ZeroDigit()
    ensures DigitValue('0') == 0
  {
  }

  lemma OctalZero(r: string)
    ensures Digits("0" + r, 8, 0) == Digits(r, 8, 0)
    ensures r != "" && DigitValue(r[0]) < 10 ==> r[0] !in "xX"
  {
    assert ("0" + r)[1..] == r;
  }

  lemma LoneZero(t: string)
    requires Stops(t, 10)
    ensures Digits("0" + t, 8, 0) == 0
  {
    OctalZero(t);
    if t != "" { ForeignIsNoDigit(t[0], 10); }
  }

  predicate Long(n: int) { -0x8000_0000_0000_0000 <= n <= 0x7FFF_FFFF_FFFF_FFFF }

  predicate Short(n: int) { -0x8000_0000 <= n < 0x8000_0000 }

  /** The nearest number of 64 digits. */
  function Nearest(n: int): int {
    if Long(n) then n else if n < 0 then -0x8000_0000_0000_0000 else 0x7FFF_FFFF_FFFF_FFFF
  }

  function Abs(n: int): nat { if n < 0 then -n else n }

  lemma NoSign(n: nat, y: Style, zeros: nat)
    ensures var s := Unsigned(n, y, zeros); s != "" && s[0] != '-' && s[0] != '+'
  {
    var caps := y.Hex? && y.caps;
    LeadingDigit(n, Base(y), caps);
    assert DigitValue('-') == 36 && DigitValue('+') == 36;
    var s := Unsigned(n, y, zeros);
    if y.Dec? && zeros == 0 {
      assert s[0] == Numeral(n, 10, caps)[0];
    } else {
      assert s[0] == '0';
    }
  }

  lemma SignRead(n: int, u: string, base: nat, plus: bool, t: string)
    requires Magnitude(u + t, base) == Abs(n) && u != "" && u[0] != '-' && u[0] != '+'
    ensures Strtol((if n < 0 then "-" else if plus then "+" else "") + u + t, base) == Nearest(n)
  {
    hide Magnitude;
    var s := (if n < 0 then "-" else if plus then "+" else "") + u + t;
    if n < 0 || plus { assert s[1..] == u + t; } else { assert s == u + t; }
  }

  /** A number is read in base 0 however it is written, up to where it stops; one too long for 64 digits
      as the nearest that is not. */
  lemma WrittenReads(n: int, y: Style, zeros: nat, plus: bool, t: string)
    requires Readable(y, zeros) && Stops(t, Base(y))
    ensures Strtol(Written(n, y, zeros, plus) + t, 0) == Nearest(n)
  {
    hide Magnitude, Unsigned, Strtol, Stops;
    UnsignedReads(Abs(n), y, zeros, t);
    NoSign(Abs(n), y, zeros);
    SignRead(n, Unsigned(Abs(n), y, zeros), 0, plus, t);
  }

  /** In base 10 leading zeros mean nothing. */
  lemma DecimalReads(n: int, zeros: nat, plus: bool, t: string)
    requires Stops(t, 10)
    ensures Strtol(Written(n, Dec, zeros, plus) + t, 10) == Nearest(n)
  {
    hide Strtol, Stops, Numeral, Digits;
    var u := Unsigned(Abs(n), Dec, zeros);
    assert u + t == Zeros(zeros) + Numeral(Abs(n), 10, false) + t;
    Padded(Abs(n), 10, false, zeros, t);
    NoSign(Abs(n), Dec, zeros);
    SignRead(n, u, 10, plus, t);
  }

  /** A 0x without a digit behind it is a zero. */
  lemma BarePrefix(big: bool, t: string)
    requires t != "" ==> Foreign(t[0], 16)
    ensures Strtol((if big then "0X" else "0x") + t, 0) == 0
  {
    var s := (if big then "0X" else "0x") + t;
    if t != "" {
      assert s[2] == t[0];
      ForeignIsNoDigit(t[0], 16);
    }
    assert s[0] == '0' && s[1] in "xX";
    assert DigitValue(s[1]) >= 8;
    assert s[1..][0] == s[1];
    assert Digits(s, 8, 0) == Digits(s[1..], 8, 0) == 0;
  }

  /** Text that starts with neither a sign nor a digit is a zero. */
  lemma NoNumber(t: string)
    requires t != "" ==> Foreign(t[0], 10) && t[0] != '-' && t[0] != '+'
    ensures Strtol(t, 0) == 0 && Strtol(t, 10) == 0
  {
    if t != "" { ForeignIsNoDigit(t[0], 10); }
  }

  /** What the disassembler prints is decimal without leading zeros. */
  lemma {:induction false} PrintedIsNumeral(n: nat)
    ensures PrintU(n) == Numeral(n, 10, false)
  {
    DecimalDigit(n % 10);
    if n >= 10 { PrintedIsNumeral(n / 10); }
  }

  lemma DecimalDigit(d: nat)
    requires d < 10
    ensures SMALL[d] == ('0' as int + d) as char
  {
  }

  lemma ReadShort(n: int, s: string, base: nat)
    requires Strtol(s, base) == n
    ensures Short(n) ==> ReadInt(s, base) == n
    ensures Short(ReadInt(s, base)) && (ReadInt(s, base) - n) % 0x1_0000_0000 == 0
  {
    Int32Mod(n);
  }

  lemma Int32Mod(n: int)
    ensures Short(Int32(n)) && (Int32(n) - n) % 0x1_0000_0000 == 0 && (Short(n) ==> Int32(n) == n)
  {
    if Short(n) { Int32Of(n, n); }
  }

  /** An operand keeps the low 32 digits, read as a signed number. */
  lemma OperandReads(n: int, y: Style, zeros: nat, plus: bool)
    requires Readable(y, zeros)
    ensures var r := ReadInt(Written(n, y, zeros, plus), 0); Short(r) && (r - Nearest(n)) % 0x1_0000_0000 == 0
  {
    hide Strtol, Written, ReadInt, Nearest;
    var w := Written(n, y, zeros, plus);
    assert w + "" == w;
    WrittenReads(n, y, zeros, plus, "");
    ReadShort(Nearest(n), w, 0);
  }

  // ----- operands -----

  /** The numbers behind # that each field takes. */
  lemma NumbersTaken(n: int, y: Style, zeros: nat, plus: bool, offset: int, labels: seq<LabelDec>)
    requires Readable(y, zeros) && Short(n)
    ensures var a := "#" + Written(n, y, zeros, plus);
            && Value(Printer.Kind('s', 5), a, offset, labels) == (if -16 <= n < 16 then Some(n) else None)
            && Value(Printer.Kind('s', 8), a, offset, labels) == (if -128 <= n < 128 then Some(n) else None)
            && Value(Printer.Kind('s', 11), a, offset, labels) == (if -1024 <= n < 1024 then Some(n) else None)
            && Value(Printer.Kind('u', 4), a, offset, labels) == (if n < 16 then Some(n) else None)
            && Value(Printer.Kind('u', 8), a, offset, labels) == (if n < 256 then Some(n) else None)
            && Value(Printer.Kind('u', 11), a, offset, labels) == (if n < 2048 then Some(n) else None)
  {
    hide Strtol, Written, ReadInt, Pow2;
    var w := Written(n, y, zeros, plus);
    assert ("#" + w)[1..] == w && w + "" == w;
    WrittenReads(n, y, zeros, plus, "");
    ReadShort(n, w, 0);
    Powers();
  }

  lemma Powers()
    ensures Pow2(4) == 16 && Pow2(7) == 128 && Pow2(8) == 256 && Pow2(10) == 1024 && Pow2(11) == 2048
  {
    Pow2Values();
    assert Pow2(8) == 2 * Pow2(7) && Pow2(11) == 2 * Pow2(10);
  }

  /** The numbers behind a register letter that are taken, in base 10. */
  lemma RegistersTaken(n: int, zeros: nat, plus: bool, offset: int, labels: seq<LabelDec>)
    requires Short(n)
    ensures var w := Written(n, Dec, zeros, plus);
            && Value(Printer.Kind('r', 0), "r" + w, offset, labels) == (if n <= 7 then Some(n) else None)
            && Value(Printer.Kind('c', 0), "c" + w, offset, labels) == (if n <= 7 then Some(n) else None)
            && Value(Printer.Kind('q', 0), "q" + w, offset, labels) == (if n <= 31 then Some(n) else None)
            && Value(Printer.Kind('x', 0), "x" + w, offset, labels) == (if n <= 31 then Some(n) else None)
  {
    hide Strtol, Written, ReadInt, Pow2;
    var w := Written(n, Dec, zeros, plus);
    assert ("r" + w)[1..] == w && ("c" + w)[1..] == w && ("q" + w)[1..] == w && ("x" + w)[1..] == w && w + "" == w;
    DecimalReads(n, zeros, plus, "");
    ReadShort(n, w, 10);
    RoundTrip.RegisterLetters();
  }

  /** A .data line gives the low sixteen digits. */
  lemma DataTaken(n: int, y: Style, zeros: nat, plus: bool, more: seq<string>, offset: int, labels: seq<LabelDec>)
    requires Readable(y, zeros)
    ensures Emitted(".data", ["#" + Written(n, y, zeros, plus)] + more, offset, labels) ==
            Some(Nearest(n) % 0x1_0000)
  {
    hide Strtol, Written;
    var w := Written(n, y, zeros, plus);
    assert ("#" + w)[1..] == w && w + "" == w;
    WrittenReads(n, y, zeros, plus, "");
  }

  // ----- .org -----

  /** The line behind an accepted .org is at the number written. */
  lemma OrgMovesTo(ss: seq<Tokens.Statement>, buf: Image, i: nat, n: int, y: Style, zeros: nat, plus: bool)
    requires TwoPasses.Assembled(ss, buf).Some? && i < |ss| && Readable(y, zeros) && Short(n)
    requires ss[i].op == Some(".org") && ss[i].args != [] && ss[i].args[0] == Written(n, y, zeros, plus)
    ensures TwoPasses.Address(ss, buf, i + 1) == n
  {
    hide Strtol, Written, ReadInt, Pass2, Declarations;
    var w := Written(n, y, zeros, plus);
    assert w + "" == w;
    WrittenReads(n, y, zeros, plus, "");
    ReadShort(n, w, 0);
    OrgReached(ss, buf, i);
  }

  lemma OrgReached(ss: seq<Tokens.Statement>, buf: Image, i: nat)
    requires TwoPasses.Assembled(ss, buf).Some? && i < |ss| && ss[i].op == Some(".org") && ss[i].args != []
    ensures TwoPasses.Address(ss, buf, i + 1) == ReadInt(ss[i].args[0], 0)
  {
    hide Strtol, ReadInt, Declarations, Emitted;
    TwoPasses.ReachBehind(ss, Declarations(ss, 0), TwoPasses.Begin(buf), i, 0);
    assert ss[i + 1..][..0] == [];
  }
}
