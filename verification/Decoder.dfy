/** Splitting an instruction word into its fields. */
module Decoder {
  import opened Words

  /** `subcode` and the fields an instruction does not have are zero. */
  datatype Decoded = Decoded(opcode: nat, subcode: nat, f0: int, f1: int, f2: int)

  function Fields(w: word): Decoded {
    var op, d, a := w / 2048, w / 256 % 8, w / 32 % 8;
    if op <= 2 then Decoded(op, w % 4, d, a, w / 4 % 8)
    else if op == 3 then Decoded(op, w % 4, d, w / 4 % 16, 0)
    else if op <= 13 then Decoded(op, 0, d, w % 256, 0)
    else if op == 14 || op == 29 then Decoded(op, 0, 0, 0, 0)
    else if op <= 16 then Decoded(op, 0, Sext(w, 2048), 0, 0)
    else if op <= 20 then Decoded(op, 0, d, Sext(w, 256), 0)
    else if op <= 24 then Decoded(op, 0, d, a, Sext(w, 32))
    else if op <= 26 then Decoded(op, 0, d, a, w % 32)
    else if op == 27 then Decoded(op, 0, d, a, 0)
    else if op == 28 then Decoded(op, 0, w % 2048, 0, 0)
    else Decoded(op, 0, d, w % 32, 0)
  }

  datatype Fmt =
    | FMT_INVALID
    | FMT_u3u3u3u2
    | FMT_u3_2u4u2
    | FMT_u3u8
    | FMT__11
    | FMT_s11
    | FMT_u3s8
    | FMT_u3u3s5
    | FMT_u3u3u5
    | FMT_u3u3_5
    | FMT_u11
    | FMT_u3_3u5

  /** Shifting a field to the top of an int32_t and back. */
  function SgnExtend(v: nat, width: nat): int
    requires width <= 32
  {
    Sar(Int32(Shl(v, 32 - width)), 32 - width)
  }

  function Int32(x: int): int { Sext(x, 0x1_0000_0000) }

  lemma SgnExtendIsSext(v: nat, width: nat)
    requires 0 < width <= 32 && v < Pow2(width)
    ensures SgnExtend(v, width) == Sext(v, Pow2(width))
  {
    var k, h := 32 - width, Pow2(width - 1);
    var r := if v < h then v else v - 2 * h;
    SextOf(v, h);
    ShlIsMul(v, k);
    ScaleRange(v, width);
    Int32Of(v * Pow2(k), r * Pow2(k));
    SarIsDiv(r * Pow2(k), k);
    DivModUnique(r * Pow2(k), Pow2(k), r, 0);
  }

  lemma ScaleRange(v: nat, width: nat)
    requires 0 < width <= 32 && v < Pow2(width)
    ensures var p, h := Pow2(32 - width), Pow2(width - 1);
            if v < h then 0 <= v * p < 0x8000_0000
            else -0x8000_0000 <= (v - 2 * h) * p < 0 && (v - 2 * h) * p == v * p - 0x1_0000_0000
  {
    Pow2Int32();
    Pow2Add(width - 1, 32 - width);
    Scaled(v, Pow2(width - 1), Pow2(32 - width));
  }

  lemma Scaled(v: nat, h: nat, p: nat)
    requires h * p == 0x8000_0000 && 0 < p && v < 2 * h
    ensures if v < h then 0 <= v * p < 0x8000_0000
            else -0x8000_0000 <= (v - 2 * h) * p < 0 && (v - 2 * h) * p == v * p - 0x1_0000_0000
  {
    if v < h {
      MulMono(v, h - 1, p);
      assert (h - 1) * p == h * p - p;
    } else {
      MulMono(h, v, p);
      MulMono(v - 2 * h, -1, p);
      assert (v - 2 * h) * p == v * p - 2 * (h * p);
    }
  }

  lemma Int32Of(s: int, r: int)
    requires -0x8000_0000 <= r < 0x8000_0000
    requires r == s || r == s - 0x1_0000_0000
    ensures Int32(s) == r
  {
  }

  lemma SextOf(v: nat, h: nat)
    requires v < 2 * h
    ensures Sext(v, 2 * h) == if v < h then v else v - 2 * h
  {
    DivModUnique(v, 2 * h, 0, v);
  }

  lemma SextMod(x: nat, m: nat)
    requires m > 0
    ensures Sext(x % m, m) == Sext(x, m)
  {
    DivModUnique(x % m, m, 0, x % m);
  }

  /** (x >> start) & ((1 << width) - 1) */
  method Field(x: word, start: nat, width: nat, ghost p: nat, ghost m: nat) returns (r: nat)
    requires p == Pow2(start) && m == Pow2(width)
    ensures r == x / p % m
  {
    Slice(x, start, width, p, m);
    OnesPow2(width);
    r := Bits(AND, Shr(x, start), Ones(width));
  }

  method SignedField(x: word, width: nat, ghost m: nat) returns (r: int)
    requires 0 < width <= 32 && m == Pow2(width)
    ensures r == Sext(x, m)
  {
    var v := Field(x, 0, width, 1, m);
    SgnExtendIsSext(v, width);
    SextMod(x, m);
    r := SgnExtend(v, width);
  }

  method UpperFields(w: word) returns (opcode: nat, hi: nat, mid: nat, low3: nat, low4: nat, low2: nat)
    ensures opcode == w / 2048 && hi == w / 256 % 8 && mid == w / 32 % 8
    ensures low3 == w / 4 % 8 && low4 == w / 4 % 16 && low2 == w % 4
  {
    Pow2Values();
    opcode := Field(w, 11, 5, 2048, 32);
    hi := Field(w, 8, 3, 256, 8);
    mid := Field(w, 5, 3, 32, 8);
    low3 := Field(w, 2, 3, 4, 8);
    low4 := Field(w, 2, 4, 4, 16);
    low2 := Field(w, 0, 2, 1, 4);
  }

  method Immediates(w: word) returns (low5: nat, low8: nat, low11: nat, s5: int, s8: int, s11: int)
    ensures low5 == w % 32 && low8 == w % 256 && low11 == w % 2048
    ensures s5 == Sext(w, 32) && s8 == Sext(w, 256) && s11 == Sext(w, 2048)
  {
    Pow2Values();
    low5 := Field(w, 0, 5, 1, 32);
    low8 := Field(w, 0, 8, 1, 256);
    low11 := Field(w, 0, 11, 1, 2048);
    s5 := SignedField(w, 5, 32);
    s8 := SignedField(w, 8, 256);
    s11 := SignedField(w, 11, 2048);
  }

  method DecodeInstruction(instr: word) returns (status: int, out: Decoded)
    ensures status == 0 && out == Fields(instr)
  {
    var opcode, hi, mid, low3, low4, low2 := UpperFields(instr);
    var low5, low8, low11, s5, s8, s11 := Immediates(instr);
    var fmt := FMT_INVALID;
    if opcode <= 0x02 { fmt := FMT_u3u3u3u2; }
    else if opcode == 0x03 { fmt := FMT_u3_2u4u2; }
    else if opcode <= 0x0D { fmt := FMT_u3u8; }
    else if opcode == 0x0E { fmt := FMT__11; }
    else if opcode <= 0x10 { fmt := FMT_s11; }
    else if opcode <= 0x14 { fmt := FMT_u3s8; }
    else if opcode <= 0x18 { fmt := FMT_u3u3s5; }
    else if opcode <= 0x1A { fmt := FMT_u3u3u5; }
    else if opcode == 0x1B { fmt := FMT_u3u3_5; }
    else if opcode == 0x1C { fmt := FMT_u11; }
    else if opcode == 0x1D { fmt := FMT__11; }
    else if opcode <= 0x1F { fmt := FMT_u3_3u5; }

    match fmt {
      case FMT_u3u3u3u2 => out := Decoded(opcode, low2, hi, mid, low3);
      case FMT_u3_2u4u2 => out := Decoded(opcode, low2, hi, low4, 0);
      case FMT_u3u8 => out := Decoded(opcode, 0, hi, low8, 0);
      case FMT__11 => out := Decoded(opcode, 0, 0, 0, 0);
      case FMT_s11 => out := Decoded(opcode, 0, s11, 0, 0);
      case FMT_u3s8 => out := Decoded(opcode, 0, hi, s8, 0);
      case FMT_u3u3s5 => out := Decoded(opcode, 0, hi, mid, s5);
      case FMT_u3u3u5 => out := Decoded(opcode, 0, hi, mid, low5);
      case FMT_u3u3_5 => out := Decoded(opcode, 0, hi, mid, 0);
      case FMT_u11 => out := Decoded(opcode, 0, low11, 0, 0);
      case FMT_u3_3u5 => out := Decoded(opcode, 0, hi, low5, 0);
      case FMT_INVALID => assert false;
    }
    status := 0;
    assert out == Fields(instr);
  }
}
