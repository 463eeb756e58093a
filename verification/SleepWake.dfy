/** When a sleeping core can wake, and what the simulator's verdict on it is worth. */
module SleepWake {
  import opened Words
  import opened Isa
  import opened Cycles
  import opened Pipeline

  /** Some interrupt line could end the sleep. */
  predicate Wakeable(s: State) { s.flags.gie && s.vectors[IENABLE] % 256 != 0 }

  /** Sleeping on: the same but for the lines and IPEND. */
  ghost predicate Dozed(t: State, s: State) {
    t == s.(lines := t.lines, vectors := s.vectors[IPEND := t.vectors[IPEND]])
  }

  lemma {:induction false} DigitsExist(x: nat, k: nat)
    ensures x % Pow2(k) != 0 <==> exists i :: 0 <= i < k && x / Pow2(i) % 2 == 1
    decreases k
  {
    ShrIsDiv(x, k);
    if k > 0 {
      ShrIsDiv(x, k - 1);
      DigitsExist(x, k - 1);
      ShrHalf(x, k - 1);
      ShlIsMul(Shr(x, k - 1) % 2, k - 1);
      if x % Pow2(k) != 0 && x % Pow2(k - 1) == 0 {
        assert x / Pow2(k - 1) % 2 == 1;
      }
    }
  }

  lemma NeverWanted(s: State)
    requires !Wakeable(s)
    ensures Pending(s, 0).None?
  {
    Pow2Values();
    DigitsExist(s.vectors[IENABLE], 8);
  }

  /** Without a usable enable the core sleeps for ever, whatever the lines do. */
  lemma {:induction false} SleepsForever(s: State, es: seq<Env>)
    requires !Wakeable(s)
    ensures Run(Sleeping(s), es).Sleeping? && Dozed(Run(Sleeping(s), es).s, s)
    decreases |es|
  {
    hide LinesValue, Wakeable;
    if es != [] {
      NeverWanted(s);
      var t := Sample(s, es[0].lines);
      assert Wakeable(t) == Wakeable(s) by { SampleWakeable(s, es[0].lines); }
      SleepsForever(t, es[1..]);
    }
  }

  lemma SampleWakeable(s: State, l: Lines)
    ensures Wakeable(Sample(s, l)) == Wakeable(s)
  {
    hide LinesValue;
  }

  /** A wanted line wakes the core in one cycle, through the lowest-numbered wanted source. */
  lemma WakesInOne(s: State, i: nat, e: Env)
    requires s.asleep && i < 8 && Wanted(s, i) && forall j :: 0 <= j < i ==> !Wanted(s, j)
    ensures var p := Cycle(Sleeping(s), e);
            && p.Starting? && p.s.pc == s.vectors[EXIHDL + i] && p.s.epc == s.pc && !p.s.asleep
            && p.s.mem == s.mem && p.s.usr == s.usr && p.s.sup == s.sup
  {
    hide LinesValue, Wanted;
    assert Pending(s, 0) == Some(i);
  }

  /** A sleeping core can be woken if and only if an enable below bit 8 is set and interrupts are on. */
  lemma WakeableIff(s: State)
    requires s.asleep
    ensures (exists es :: !Run(Sleeping(s), es).Sleeping?) <==> Wakeable(s)
  {
    hide LinesValue;
    if Wakeable(s) {
      Pow2Values();
      DigitsExist(s.vectors[IENABLE], 8);
      var i :| 0 <= i < 8 && s.vectors[IENABLE] / Pow2(i) % 2 == 1;
      var all: Lines := [true, true, true, true, true, true, true, true];
      var e := Env(all, 0, 0);
      var p := Cycle(Sleeping(s), e);
      if p.Sleeping? {
        var t := Sample(s, all);
        assert Wanted(t, i);
        var j := Pending(t, 0).value;
        assert Cycle(p, e).Starting?;
        RunTwo(Sleeping(s), e, e);
        assert !Run(Sleeping(s), [e, e]).Sleeping?;
      } else {
        RunTwo(Sleeping(s), e, e);
        RunOne(Sleeping(s), e);
        assert !Run(Sleeping(s), [e]).Sleeping?;
      }
    } else {
      forall es ensures Run(Sleeping(s), es).Sleeping? {
        SleepsForever(s, es);
      }
    }
  }

  /** A reported sleep has no end: nothing the program can see ever changes again. */
  lemma ReportedSleepIsFinal(p: Phase, e: Env, es: seq<Env>)
    requires Report(p, e) == -1
    ensures Cycle(p, e).Sleeping?
    ensures var t, u := Cycle(p, e).s, Run(Cycle(p, e), es).s;
            Run(Cycle(p, e), es).Sleeping? && Dozed(u, t) && u.pc == t.pc && u.mem == t.mem && u.counter == t.counter
  {
    hide LinesValue, Chosen;
    var t := Cycle(p, e).s;
    assert !Wakeable(t);
    SleepsForever(t, es);
  }

  /** The converse fails exactly when the only enables are above bit 7: such a sleep goes unreported. */
  lemma UnreportedSleep(p: Phase, e: Env)
    requires p.Fetching? && Chosen(p.s, e.wide).Halt?
    ensures var t := Cycle(p, e).s;
            t.asleep && (Report(p, e) == -1 <==> !(t.flags.gie && t.vectors[IENABLE] != 0))
    ensures var t := Cycle(p, e).s;
            (Report(p, e) == 0 && !Wakeable(t)) <==> (t.flags.gie && t.vectors[IENABLE] >= 256
                && t.vectors[IENABLE] % 256 == 0)
  {
    hide LinesValue, Chosen;
  }
}
