/** The program's array has no word at 0xFFFF. A run that does not go there depends on none. */
module LastWord {
  import opened Words
  import opened Isa
  import opened Pipeline

  const TOP := 0xFFFF

  /** The same machine, but for the word at 0xFFFF. */
  ghost predicate SameBelow(s: State, t: State) {
    t == s.(mem := t.mem) && forall a :: 0 <= a < TOP ==> t.mem[a] == s.mem[a]
  }

  predicate Touches(eff: Effect) { (eff.ReadMem? || eff.WriteMem?) && eff.addr == TOP }

  /** The step fetches, loads or stores at 0xFFFF. */
  predicate GoesThere(s: State, x: Inputs) { !s.asleep && (s.pc == TOP || Touches(Deed(s, x))) }

  ghost predicate StaysBelow(s: State, xs: seq<Inputs>)
    decreases |xs|
  {
    xs == [] || (!GoesThere(s, xs[0]) && StaysBelow(Step(s, xs[0]), xs[1..]))
  }

  lemma SameDeed(s: State, t: State, x: Inputs)
    requires SameBelow(s, t) && s.pc != TOP
    ensures Deed(t, x) == Deed(s, x)
  {
    hide LinesValue, Meaning, Decode;
    var d, e := Fetched(s, x), Fetched(t, x);
    SamePending(d, e, 0);
    assert Current(d) == Current(e);
    SameMeaning(d, e, Current(d), x.wide);
  }

  lemma {:induction false} SamePending(d: State, e: State, i: nat)
    requires i <= 8 && d.(mem := e.mem) == e
    ensures Pending(d, i) == Pending(e, i)
    decreases 8 - i
  {
    if i < 8 { SamePending(d, e, i + 1); }
  }

  lemma SameMeaning(d: State, e: State, i: Instr, wide: word)
    requires d.(mem := e.mem) == e
    ensures Meaning(d, i, wide) == Meaning(e, i, wide)
  {
    hide Compute, OnLowByte, OnHighByte;
  }

  lemma SameApply(s: State, t: State, eff: Effect, cp: word)
    requires SameBelow(s, t) && !Touches(eff)
    ensures SameBelow(Apply(s, eff, cp), Apply(t, eff, cp))
  {
  }

  lemma SameStep(s: State, t: State, x: Inputs)
    requires SameBelow(s, t) && !GoesThere(s, x)
    ensures SameBelow(Step(s, x), Step(t, x)) && !GoesThere(t, x)
  {
    hide LinesValue, Apply, Deed, Pending, Interrupt;
    if s.asleep {
      SamePending(s, t, 0);
      if Pending(s, 0).Some? {
        var eff := Interrupt(s, Pending(s, 0).value);
        assert eff == Interrupt(t, Pending(s, 0).value)
            && !Touches(eff) by { InterruptTraps(s, t, Pending(s, 0).value); }
        SameApply(Sample(s, x.after), Sample(t, x.after), eff, x.cp);
      }
    } else {
      SameDeed(s, t, x);
      SameApply(Sample(Fetched(s, x), x.after), Sample(Fetched(t, x), x.after), Deed(s, x), x.cp);
    }
  }

  lemma InterruptTraps(s: State, t: State, i: nat)
    requires i < 8 && t == s.(mem := t.mem)
    ensures Interrupt(s, i) == Interrupt(t, i) && Interrupt(s, i).Trap?
  {
  }

  /** Two machines that differ there alone run alike, and neither goes there. */
  lemma {:induction false} LastWordIsUnseen(s: State, t: State, xs: seq<Inputs>)
    requires SameBelow(s, t) && StaysBelow(s, xs)
    ensures SameBelow(Steps(s, xs), Steps(t, xs)) && StaysBelow(t, xs)
    decreases |xs|
  {
    hide Step, GoesThere, SameBelow;
    if xs != [] {
      SameStep(s, t, xs[0]);
      LastWordIsUnseen(Step(s, xs[0]), Step(t, xs[0]), xs[1..]);
    }
  }
}
