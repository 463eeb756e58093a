/** The timer coprocessor, and a sleeping core that it wakes. */
module Timer {
  import opened Words
  import opened Isa
  import opened Cycles
  import opened SleepWake

  const REG_CTL := 0
  const REG_CYCLE_LO := 1
  const REG_CYCLE_HI := 2
  const INSTR_IACK := 1

  /** The registers that matter, and the interrupt line. */
  datatype Timer = Timer(ctl: word, lo: word, hi: word, line: bool)

  predicate On(t: Timer) { t.ctl % 2 == 1 }

  /** The ticks left: the two registers as one number, in which a zero low half stands for a full one. */
  function Left(t: Timer): (n: nat)
    ensures 1 <= n <= 0x1_0000_0000
  {
    var hi: int := t.hi;
    hi * 0x1_0000 + if t.lo == 0 then 0x1_0000 else t.lo
  }

  /** One tick counts down; the last one raises the line and switches the timer off. */
  function Tick(t: Timer): (r: Timer)
    ensures On(t) && Left(t) > 1 ==> Left(r) == Left(t) - 1 && On(r) && r.line == t.line
    ensures On(t) && Left(t) == 1 ==> !On(r) && r.line
  {
    if !On(t) then t
    else
      var n := Left(t) - 1;
      if n == 0 then Timer(t.ctl - 1, 0, 0, true) else Timer(t.ctl, n % 0x1_0000, (n - 1) / 0x1_0000, t.line)
  }

  function Ticks(t: Timer, n: nat): Timer {
    if n == 0 then t else Tick(Ticks(t, n - 1))
  }

  /** Armed with (hi, lo), the timer fires at tick hi * 65536 + lo, or 65536 for lo = 0, and once. */
  lemma {:induction false} FiresExactlyOnce(t: Timer, n: nat)
    requires On(t) && !t.line
    ensures Ticks(t, n).line <==> n >= Left(t)
    ensures On(Ticks(t, n)) <==> n < Left(t)
    ensures n < Left(t) ==> Left(Ticks(t, n)) == Left(t) - n
  {
    hide Left;
    if n > 0 { FiresExactlyOnce(t, n - 1); }
  }

  // ----- the coprocessor in the simulator's form -----

  class TimerUnit {
    const regs: array<word>
    var exint: bool

    constructor ()
      ensures regs.Length == 32 && fresh(regs) && View() == Timer(0, 0, 0, false)
    {
      regs := new word[32](i => 0);
      exint := false;
    }

    ghost function View(): Timer
      requires regs.Length == 32
      reads this, regs
    {
      Timer(regs[REG_CTL], regs[REG_CYCLE_LO], regs[REG_CYCLE_HI], exint)
    }

    method Data()
      requires regs.Length == 32
      modifies this`exint, regs
      ensures View() == Tick(old(View()))
      ensures forall i :: 3 <= i < 32 ==> regs[i] == old(regs[i])
    {
      hide Bits, Shr;
      Enabled(regs[REG_CTL]);
      if Bits(AND, Shr(regs[REG_CTL], 0), 1) != 0 {
        var lo: int := regs[REG_CYCLE_LO];
        regs[REG_CYCLE_LO] := Wrap(lo - 1);
        if regs[REG_CYCLE_LO] == 0 {
          if regs[REG_CYCLE_HI] == 0 {
            ClearEnable(regs[REG_CTL]);
            regs[REG_CTL] := Wrap(Bits(AND, regs[REG_CTL], 0xFFFE));
            exint := true;
          } else {
            regs[REG_CYCLE_HI] := regs[REG_CYCLE_HI] - 1;
          }
        }
      }
    }

    method Exec(value: word)
      requires regs.Length == 32
      modifies this`exint
      ensures View() == Told(old(View()), value)
    {
      match value {
        case 1 => exint := false;
        case _ =>
      }
    }

    /** sim_cp_write */
    method Write(regnum: nat, val: word)
      requires regs.Length == 32 && regnum < 32
      modifies regs
      ensures View() == Written(old(View()), regnum, val) && regs[..] == old(regs[..])[regnum := val]
    {
      regs[regnum] := val;
    }
  }

  function Told(t: Timer, value: word): Timer { if value == INSTR_IACK then t.(line := false) else t }

  function Written(t: Timer, regnum: nat, val: word): Timer {
    if regnum == REG_CTL then t.(ctl := val)
    else if regnum == REG_CYCLE_LO then t.(lo := val)
    else if regnum == REG_CYCLE_HI then t.(hi := val)
    else t
  }

  lemma Enabled(x: word)
    ensures Bits(AND, Shr(x, 0), 1) == x % 2
  {
    TestDigit(x, 0);
  }

  lemma ClearEnable(x: word)
    ensures Bits(AND, x, 0xFFFE) == x - x % 2
  {
    BitsStep(AND, x, 0xFFFE);
    Pow2Values();
    OnesPow2(15);
    MaskAll(x / 2, 15);
    assert Pow2(15) == 0x8000;
  }

  // ----- core and timer together -----

  datatype System = System(p: Phase, t: Timer)

  /** One cycle: the core executes, the timer hears its command and ticks, the core updates, and a
      bus write lands last. The other coprocessors move the lines 1 to 7 freely. */
  function Clock(y: System, others: Lines, cp: word, wide: word): System {
    var bus := Bus(y.p);
    var told := if bus.Operate? && bus.cp == 0 then Told(y.t, bus.v) else y.t;
    var t := Tick(told);
    var p := Cycle(y.p, Env(others[0 := t.line], cp, wide));
    System(p, if bus.WriteRegister? && bus.cp == 0 then Written(t, bus.x, bus.v) else t)
  }

  datatype Outside = Outside(others: Lines, cp: word, wide: word)

  function Clocks(y: System, os: seq<Outside>): System
    decreases |os|
  {
    if os == [] then y else Clocks(Clock(y, os[0].others, os[0].cp, os[0].wide), os[1..])
  }

  /** Asleep with interrupts on and only source 0 enabled, its line low and the timer running. */
  ghost predicate Waiting(y: System) {
    && y.p.Sleeping? && y.p.s.asleep && y.p.s.flags.gie && y.p.s.vectors[IENABLE] % 256 == 1
    && !y.p.s.lines[0] && On(y.t) && !y.t.line
  }

  lemma OnlySourceZero(s: State, i: nat)
    requires s.vectors[IENABLE] % 256 == 1 && 0 < i < 8
    ensures !Wanted(s, i)
  {
    var x := s.vectors[IENABLE];
    assert x / 2 % 128 == 0;
    assert Pow2(7) == 128 by { assert Pow2(4) == 16; }
    DigitsExist(x / 2, 7);
    HalfDiv(x, Pow2(i - 1));
  }

  lemma SleepTick(y: System, o: Outside)
    requires Waiting(y)
    ensures var z := Clock(y, o.others, o.cp, o.wide);
            && z.p.Sleeping? && z.t == Tick(y.t) && z.p.s.lines[0] == z.t.line && Dozed(z.p.s, y.p.s)
            && (Left(y.t) > 1 ==> Waiting(z) && Left(z.t) == Left(y.t) - 1)
  {
    hide LinesValue, Left, Wanted, Tick, On;
    TickOn(y.t);
    forall i | 0 < i < 8 ensures !Wanted(y.p.s, i) { OnlySourceZero(y.p.s, i); }
    assert !Wanted(y.p.s, 0) by { LineNeeded(y.p.s, 0); }
    assert Pending(y.p.s, 0).None?;
  }

  lemma TickOn(t: Timer)
    requires On(t)
    ensures Left(t) > 1 ==> On(Tick(t)) && Tick(t).line == t.line && Left(Tick(t)) == Left(t) - 1
  {
  }

  lemma LineNeeded(s: State, i: nat)
    requires i < 8 && !s.lines[i]
    ensures !Wanted(s, i)
  {
  }

  /** Up to the programmed number of ticks the core sleeps on; the line rises with the last one. */
  lemma {:induction false} SleepsUntil(y: System, os: seq<Outside>)
    requires Waiting(y) && |os| <= Left(y.t)
    ensures var z := Clocks(y, os);
            && z.p.Sleeping? && Dozed(z.p.s, y.p.s) && z.p.s.lines[0] == z.t.line
            && (if |os| < Left(y.t) then Waiting(z) && Left(z.t) == Left(y.t) - |os| else z.t.line && !On(z.t))
    decreases |os|
  {
    hide Clock, Left, Tick, On;
    if os == [] {
      assert y.p.s.vectors[IPEND := y.p.s.vectors[IPEND]] == y.p.s.vectors;
    } else {
      var y1 := Clock(y, os[0].others, os[0].cp, os[0].wide);
      SleepTick(y, os[0]);
      if |os| == 1 {
        assert os[1..] == [];
        LastTick(y.t);
      } else {
        SleepsUntil(y1, os[1..]);
        DozedTwice(Clocks(y, os).p.s, y1.p.s, y.p.s);
      }
    }
  }

  lemma LastTick(t: Timer)
    requires On(t) && Left(t) >= 1
    ensures Left(t) == 1 ==> Tick(t).line && !On(Tick(t))
  {
  }

  lemma DozedTwice(u: State, t: State, s: State)
    requires Dozed(u, t) && Dozed(t, s)
    ensures Dozed(u, s)
  {
    var v := s.vectors;
    assert v[IPEND := t.vectors[IPEND]][IPEND := u.vectors[IPEND]] == v[IPEND := u.vectors[IPEND]];
  }

  /** The core sleeps through exactly the programmed number of ticks and traps in the next cycle,
      to the handler of source 0, to return behind the `sleep`. */
  lemma TimerWakesCore(y: System, os: seq<Outside>, o: Outside)
    requires Waiting(y) && |os| == Left(y.t)
    ensures var w := Clock(Clocks(y, os), o.others, o.cp, o.wide).p;
            && w.Starting? && w.s.pc == y.p.s.vectors[EXIHDL] && w.s.epc == y.p.s.pc
            && w.s.mem == y.p.s.mem && w.s.usr == y.p.s.usr && w.s.sup == y.p.s.sup
  {
    hide LinesValue, Left, Tick, On;
    SleepsUntil(y, os);
    var s := Clocks(y, os).p.s;
    assert Wanted(s, 0);
    assert Pending(s, 0) == Some(0);
  }
}
