/** The status macros of the simulator read and write the fields of the status word. */
module StatusBits {
  import opened Words
  import opened Isa
  import opened Alu

  const UMSAVE_BIT := 11
  const LL_BIT := 12
  const RUMODE_BIT := 13
  const GIE_BIT := 14
  const UM_BIT := 15

  lemma Weights()
    ensures Pow2(UMSAVE_BIT) == 0x800 && Pow2(LL_BIT) == 0x1000 && Pow2(RUMODE_BIT) == 0x2000
    ensures Pow2(GIE_BIT) == 0x4000 && Pow2(UM_BIT) == 0x8000
  {
    Pow2Values();
  }

  lemma UnpackPack(f: Flags) returns (st: word)
    ensures st == Pack(f) && Unpack(st) == f
  {
    st := Pack(f);
  }

  lemma Um(st: word, b: bool)
    ensures GetBit(st, UM_BIT) == Weigh(Unpack(st).um, 1)
    ensures Unpack(SetBit(st, UM_BIT, b)) == Unpack(st).(um := b)
  {
    hide Bits, GetBit, SetBit, Pow2, Unpack;
    var f := Unpack(st);
    PackUnpack(st);
    Weights();
    var h := 0;
    var l := Weigh(f.gie, 0x4000) + Weigh(f.rumode, 0x2000) + Weigh(f.ll, 0x1000) + Weigh(f.umsave, 0x800) + f.arg;
    BitValues(st, UM_BIT, b, 0x8000, h, Weigh(f.um, 1), l);
    var _ := UnpackPack(f.(um := b));
  }

  lemma Gie(st: word, b: bool)
    ensures GetBit(st, GIE_BIT) == Weigh(Unpack(st).gie, 1)
    ensures Unpack(SetBit(st, GIE_BIT, b)) == Unpack(st).(gie := b)
  {
    hide Bits, GetBit, SetBit, Pow2, Unpack;
    var f := Unpack(st);
    PackUnpack(st);
    Weights();
    var h := Weigh(f.um, 1);
    var l := Weigh(f.rumode, 0x2000) + Weigh(f.ll, 0x1000) + Weigh(f.umsave, 0x800) + f.arg;
    BitValues(st, GIE_BIT, b, 0x4000, h, Weigh(f.gie, 1), l);
    var _ := UnpackPack(f.(gie := b));
  }

  lemma Rumode(st: word, b: bool)
    ensures GetBit(st, RUMODE_BIT) == Weigh(Unpack(st).rumode, 1)
    ensures Unpack(SetBit(st, RUMODE_BIT, b)) == Unpack(st).(rumode := b)
  {
    hide Bits, GetBit, SetBit, Pow2, Unpack;
    var f := Unpack(st);
    PackUnpack(st);
    Weights();
    var h := Weigh(f.um, 2) + Weigh(f.gie, 1);
    var l := Weigh(f.ll, 0x1000) + Weigh(f.umsave, 0x800) + f.arg;
    BitValues(st, RUMODE_BIT, b, 0x2000, h, Weigh(f.rumode, 1), l);
    var _ := UnpackPack(f.(rumode := b));
  }

  lemma Ll(st: word, b: bool)
    ensures GetBit(st, LL_BIT) == Weigh(Unpack(st).ll, 1)
    ensures Unpack(SetBit(st, LL_BIT, b)) == Unpack(st).(ll := b)
  {
    hide Bits, GetBit, SetBit, Pow2, Unpack;
    var f := Unpack(st);
    PackUnpack(st);
    Weights();
    var h := Weigh(f.um, 4) + Weigh(f.gie, 2) + Weigh(f.rumode, 1);
    var l := Weigh(f.umsave, 0x800) + f.arg;
    BitValues(st, LL_BIT, b, 0x1000, h, Weigh(f.ll, 1), l);
    var _ := UnpackPack(f.(ll := b));
  }

  lemma Umsave(st: word, b: bool)
    ensures GetBit(st, UMSAVE_BIT) == Weigh(Unpack(st).umsave, 1)
    ensures Unpack(SetBit(st, UMSAVE_BIT, b)) == Unpack(st).(umsave := b)
  {
    hide Bits, GetBit, SetBit, Pow2, Unpack;
    var f := Unpack(st);
    PackUnpack(st);
    Weights();
    var h := Weigh(f.um, 8) + Weigh(f.gie, 4) + Weigh(f.rumode, 2) + Weigh(f.ll, 1);
    var l := f.arg;
    BitValues(st, UMSAVE_BIT, b, 0x800, h, Weigh(f.umsave, 1), l);
    var _ := UnpackPack(f.(umsave := b));
  }

  /** ((stat & 0xF800) | (val & 0x7FF)) */
  function SetSwiarg(stat: word, val: nat): word {
    Wrap(Bits(OR, Bits(AND, stat, 0xF800), Bits(AND, val, 0x7FF)))
  }

  lemma SetArg(st: word, val: swiarg)
    ensures Unpack(SetSwiarg(st, val)) == Unpack(st).(arg := val)
  {
    hide SetSwiarg;
    SetSwiargValue(st, val);
    DivModUnique(st / 0x800 * 0x800 + val, 0x800, st / 0x800, val);
  }

  lemma SetSwiargValue(st: word, val: swiarg)
    ensures SetSwiarg(st, val) == st / 0x800 * 0x800 + val
  {
    hide Bits, Shl, Shr, Low, Pow2, Ones;
    var q := st / 0x800;
    Pow2Values();
    OnesPow2(11);
    MaskAll(val, 11);
    AndHigh(st);
    ShiftOr(q, val, 11);
    ShlIsMul(q, 11);
  }

  lemma AndHigh(st: word)
    ensures Bits(AND, st, 0xF800) == st / 0x800 * 0x800
  {
    hide Bits, Shl, Shr, Low, Pow2, Ones;
    var q := st / 0x800;
    Pow2Values();
    OnesPow2(5);
    BitsSplit(AND, st, 0xF800, 11);
    ShrIsDiv(st, 11);
    ShrIsDiv(0xF800, 11);
    MaskAll(q, 5);
    BitsZero(st % 0x800);
    ShlIsMul(q, 11);
  }
}
