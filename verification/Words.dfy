/** Unsigned 16-bit words as bounded integers, the C bit operators on them, and
    the arithmetic each operator amounts to. */
module Words {
  datatype Option<+T> = None | Some(value: T)

  type word = x: int | 0 <= x < 0x1_0000

  /** What an assignment to a uint16_t keeps of a C integer. */
  function Wrap(x: int): word {
    x % 0x1_0000
  }

  function Pow2(k: nat): (p: nat)
    ensures p >= 1
  {
    if k == 0 then 1 else 2 * Pow2(k - 1)
  }

  lemma Pow2Values()
    ensures Pow2(2) == 4 && Pow2(3) == 8 && Pow2(4) == 16 && Pow2(5) == 32
    ensures Pow2(8) == 256 && Pow2(11) == 0x800 && Pow2(16) == 0x1_0000
  {
    assert Pow2(4) == 16;
    assert Pow2(8) == 256;
    assert Pow2(12) == 0x1000;
  }

  lemma Pow2Int32()
    ensures Pow2(31) == 0x8000_0000 && Pow2(32) == 0x1_0000_0000
  {
    Pow2Values();
    assert Pow2(20) == 0x10_0000;
    assert Pow2(24) == 0x100_0000;
    assert Pow2(28) == 0x1000_0000;
  }

  // ----- C's operators on non-negative integers, digit by digit -----

  datatype Gate = AND | OR | XOR

  function Digit(g: Gate, a: nat, b: nat): (d: nat)
    ensures d <= 1
  {
    match g
    case AND => if a == 1 && b == 1 then 1 else 0
    case OR => if a == 1 || b == 1 then 1 else 0
    case XOR => if a != b then 1 else 0
  }

  function Bits(g: Gate, x: nat, y: nat): nat
    decreases x + y
  {
    if x == 0 && y == 0 then 0 else 2 * Bits(g, x / 2, y / 2) + Digit(g, x % 2, y % 2)
  }

  function Shl(x: nat, k: nat): nat {
    if k == 0 then x else 2 * Shl(x, k - 1)
  }

  function Shr(x: nat, k: nat): nat
    decreases k
  {
    if k == 0 then x else Shr(x / 2, k - 1)
  }

  /** >> on a signed operand: halving k times, rounding down. */
  function Sar(x: int, k: nat): int
    decreases k
  {
    if k == 0 then x else Sar(x / 2, k - 1)
  }

  /** The k low digits of x. */
  function Low(x: nat, k: nat): nat
    decreases k
  {
    if k == 0 then 0 else 2 * Low(x / 2, k - 1) + x % 2
  }

  /** The mask of k ones. */
  function Ones(k: nat): nat {
    if k == 0 then 0 else 2 * Ones(k - 1) + 1
  }

  /** x modulo m, moved into the symmetric range. */
  function Sext(x: int, m: nat): int
    requires m > 0
  {
    if x % m < m / 2 then x % m else x % m - m
  }

  // ----- what masks and disjoint ors compute -----

  lemma BitsStep(g: Gate, x: nat, y: nat)
    ensures Bits(g, x, y) == 2 * Bits(g, x / 2, y / 2) + Digit(g, x % 2, y % 2)
  {
  }

  lemma {:induction false} BitsZero(x: nat)
    ensures Bits(AND, x, 0) == 0 && Bits(OR, x, 0) == x && Bits(XOR, x, 0) == x
    ensures Bits(AND, 0, x) == 0 && Bits(OR, 0, x) == x && Bits(XOR, 0, x) == x
  {
    if x > 0 { BitsZero(x / 2); }
  }

  lemma {:induction false} BitsBound(g: Gate, x: nat, y: nat, k: nat)
    requires x < Pow2(k) && y < Pow2(k)
    ensures Bits(g, x, y) < Pow2(k)
  {
    if k > 0 { BitsBound(g, x / 2, y / 2, k - 1); }
  }

  lemma {:induction false} MaskLow(x: nat, k: nat)
    ensures Bits(AND, x, Ones(k)) == Low(x, k)
  {
    if k == 0 {
      BitsZero(x);
    } else {
      BitsStep(AND, x, Ones(k));
      MaskLow(x / 2, k - 1);
    }
  }

  /** The operators work on high and low digits separately. */
  lemma {:induction false} BitsSplit(g: Gate, x: nat, y: nat, k: nat)
    ensures Bits(g, x, y) ==
            Shl(Bits(g, Shr(x, k), Shr(y, k)), k) + Bits(g, Low(x, k), Low(y, k))
  {
    if k > 0 {
      hide Bits;
      BitsStep(g, x, y);
      BitsSplit(g, x / 2, y / 2, k - 1);
      BitsStep(g, Low(x, k), Low(y, k));
    } else {
      BitsZero(0);
    }
  }

  lemma {:induction false} ShlShr(x: nat, k: nat, y: nat)
    requires y < Pow2(k)
    ensures Shr(Shl(x, k) + y, k) == x && Low(Shl(x, k) + y, k) == y
    decreases k
  {
    if k > 0 { ShlShr(x, k - 1, y / 2); }
  }

  lemma {:induction false} ShrLow(x: nat, k: nat)
    ensures x == Shl(Shr(x, k), k) + Low(x, k) && Low(x, k) < Pow2(k)
    decreases k
  {
    if k > 0 { ShrLow(x / 2, k - 1); }
  }

  /** Ors of numbers with no common digit are sums. */
  lemma {:induction false} OrIsSum(x: nat, y: nat, k: nat)
    requires y < Pow2(k)
    ensures Bits(OR, Shl(x, k), y) == Shl(x, k) + y
  {
    if k == 0 {
      BitsZero(x);
    } else {
      BitsStep(OR, Shl(x, k), y);
      OrIsSum(x, y / 2, k - 1);
    }
  }

  lemma {:induction false} ShlZero(k: nat)
    ensures Shl(0, k) == 0
  {
    if k > 0 { ShlZero(k - 1); }
  }

  /** All ones but for digit k of n. */
  function OnesBut(k: nat, n: nat): nat
    requires k < n
  {
    Shl(2 * Ones(n - 1 - k), k) + Ones(k)
  }

  lemma {:induction false} OnesLow(k: nat)
    ensures Ones(k) < Pow2(k) && Low(Ones(k), k) == Ones(k)
  {
    if k > 0 { OnesLow(k - 1); }
  }

  lemma {:induction false} LowLow(x: nat, k: nat)
    ensures Low(Low(x, k), k) == Low(x, k)
    decreases k
  {
    if k > 0 { LowLow(x / 2, k - 1); }
  }

  lemma {:induction false} MaskOut(x: nat, k: nat, n: nat)
    requires k < n && x < Pow2(n)
    ensures Bits(AND, x, OnesBut(k, n)) == Shl(2 * Shr(x, k + 1), k) + Low(x, k)
    decreases k
  {
    BitsStep(AND, x, OnesBut(k, n));
    if k == 0 {
      MaskAll(x / 2, n - 1);
    } else {
      assert OnesBut(k, n) == 2 * OnesBut(k - 1, n - 1) + 1;
      MaskOut(x / 2, k - 1, n - 1);
    }
  }

  lemma {:induction false} OrDigit(h: nat, l: nat, k: nat, v: nat)
    requires l < Pow2(k) && v <= 1
    ensures Bits(OR, Shl(2 * h, k) + l, Shl(v, k)) == Shl(2 * h + v, k) + l
    decreases k
  {
    hide Bits;
    BitsStep(OR, Shl(2 * h, k) + l, Shl(v, k));
    if k == 0 {
      BitsZero(h);
    } else {
      Halves(Shl(2 * h, k - 1), l);
      Halves(Shl(v, k - 1), 0);
      OrDigit(h, l / 2, k - 1, v);
    }
  }

  lemma Halves(a: nat, l: nat)
    ensures (2 * a + l) / 2 == a + l / 2 && (2 * a + l) % 2 == l % 2
  {
  }

  /** Clearing digit k with a mask and or-ing in a new one replaces just that digit. */
  lemma SetDigit(x: nat, k: nat, n: nat, v: nat)
    requires k < n && x < Pow2(n) && v <= 1
    ensures Bits(OR, Bits(AND, x, OnesBut(k, n)), Shl(v, k)) == Shl(2 * Shr(x, k + 1) + v, k) + Low(x, k)
  {
    hide Bits, Shl, Shr, Low, Ones, Pow2;
    MaskOut(x, k, n);
    ShrLow(x, k);
    OrDigit(Shr(x, k + 1), Low(x, k), k, v);
  }

  lemma {:induction false} MaskAll(x: nat, k: nat)
    requires x < Pow2(k)
    ensures Bits(AND, x, Ones(k)) == x
  {
    if k == 0 {
      BitsZero(0);
    } else {
      BitsStep(AND, x, Ones(k));
      MaskAll(x / 2, k - 1);
    }
  }

  lemma {:induction false} ShrBound(x: nat, k: nat, n: nat)
    requires x < Pow2(n) && k <= n
    ensures Shr(x, k) < Pow2(n - k)
  {
    if k > 0 { ShrBound(x / 2, k - 1, n - 1); }
  }

  lemma {:induction false} ShrHalf(x: nat, k: nat)
    ensures Shr(x, k + 1) == Shr(x, k) / 2
    ensures Low(x, k + 1) == Low(x, k) + Shl(Shr(x, k) % 2, k)
    decreases k
  {
    if k > 0 { ShrHalf(x / 2, k - 1); }
  }

  /** Testing digit k with a mask. */
  lemma TestDigit(x: nat, k: nat)
    ensures Bits(AND, x, Shl(1, k)) != 0 <==> Shr(x, k) % 2 == 1
    ensures Bits(AND, Shr(x, k), 1) == Shr(x, k) % 2
  {
    hide Bits, Shl, Shr, Low, Pow2;
    ShlIsMul(1, k);
    BitsSplit(AND, x, Shl(1, k), k);
    ShlShr(1, k, 0);
    BitsZero(Low(x, k));
    BitsStep(AND, Shr(x, k), 1);
    BitsZero(Shr(x, k) / 2);
    ShlZero(k);
  }

  /** A field of x cut out with a shift and a mask. */
  lemma Slice(x: nat, start: nat, width: nat, p: nat, m: nat)
    requires p == Pow2(start) && m == Pow2(width)
    ensures Bits(AND, Shr(x, start), m - 1) == x / p % m
  {
    MaskLow(Shr(x, start), width);
    ShrIsDiv(x, start);
    ShrIsDiv(Shr(x, start), width);
    OnesPow2(width);
  }

  lemma {:induction false} OnesPow2(k: nat)
    ensures Ones(k) == Pow2(k) - 1
  {
    if k > 0 { OnesPow2(k - 1); }
  }

  lemma {:induction false} Pow2Add(a: nat, b: nat)
    ensures Pow2(a + b) == Pow2(a) * Pow2(b)
  {
    if a > 0 {
      Pow2Add(a - 1, b);
      assert Pow2(a) * Pow2(b) == 2 * (Pow2(a - 1) * Pow2(b));
    }
  }

  // ----- shifts as multiplication and floor division -----

  lemma {:induction false} ShlIsMul(x: nat, k: nat)
    ensures Shl(x, k) == x * Pow2(k)
    decreases k
  {
    if k > 0 {
      ShlIsMul(x, k - 1);
      assert x * Pow2(k) == 2 * (x * Pow2(k - 1));
    }
  }

  lemma ShrIsDiv(x: nat, k: nat)
    ensures Shr(x, k) == x / Pow2(k) && Low(x, k) == x % Pow2(k)
  {
    ShrLow(x, k);
    ShlIsMul(Shr(x, k), k);
    DivModUnique(x, Pow2(k), Shr(x, k), Low(x, k));
  }

  lemma {:induction false} SarIsDiv(x: int, k: nat)
    ensures Sar(x, k) == x / Pow2(k)
    decreases k
  {
    if k > 0 {
      SarIsDiv(x / 2, k - 1);
      HalfDiv(x, Pow2(k - 1));
    }
  }

  lemma HalfDiv(x: int, p: nat)
    requires p > 0
    ensures x / (2 * p) == x / 2 / p
  {
    var q, r := x / 2 / p, x / 2 % p;
    assert q * (2 * p) == 2 * (q * p);
    DivModUnique(x, 2 * p, q, 2 * r + x % 2);
  }

  lemma DivModUnique(x: int, d: nat, q: int, r: int)
    requires d > 0 && 0 <= r < d && x == q * d + r
    ensures x / d == q && x % d == r
  {
    var e := x / d - q;
    assert e * d == r - x % d;
    if e >= 1 {
      MulMono(1, e, d);
    } else if e <= -1 {
      MulMono(e, -1, d);
    }
  }

  lemma MulMono(a: int, b: int, d: nat)
    requires a <= b
    ensures a * d <= b * d
  {
    assert (b - a) * d >= 0;
  }
}
