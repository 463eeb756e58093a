/** Load-linked and store-conditional make one atomic read and write. */
module Atomicity {
  import opened Words
  import opened Isa
  import opened Pipeline
  import opened Protection

  /** A completed load, store, successful store-conditional, trap or return ends a link; another
      linking load renews it. */
  predicate Breaks(eff: Effect) {
    (eff.ReadMem? && !eff.link) || eff.WriteMem? || eff.Trap? || eff.Return?
  }

  predicate Links(eff: Effect) { eff.ReadMem? && eff.link }

  /** Whether the last linking load of a run is still in force. */
  ghost predicate Linked(s: State, xs: seq<Inputs>, before: bool)
    decreases |xs|
  {
    if xs == [] then before
    else
      var a := Act(s, xs[0]);
      Linked(Step(s, xs[0]), xs[1..], if a.None? then before else Links(a.value) || (before && !Breaks(a.value)))
  }

  /** A run in which a link was made and nothing has ended it since. */
  ghost predicate Unbroken(s: State, xs: seq<Inputs>)
    decreases |xs|
  {
    xs == [] || ((Act(s, xs[0]).Some? ==> !Breaks(Act(s, xs[0]).value)) && Unbroken(Step(s, xs[0]), xs[1..]))
  }

  lemma LinkStep(s: State, x: Inputs)
    requires Act(s, x).Some? ==> !WritesStatus(Act(s, x).value)
    requires Fresh(s)
    ensures var a, t := Act(s, x), Step(s, x);
            && Fresh(t)
            && t.flags.ll == (if a.None? then s.flags.ll else Links(a.value) || (s.flags.ll && !Breaks(a.value)))
            && (a.None? || !a.value.WriteMem? ==> t.mem == s.mem)
  {
    hide LinesValue, Unpack, Pack, Chosen, Pending, Apply;
    LatchedStatus(s, x);
    if s.asleep {
      if Pending(s, 0).Some? {
        LinkApply(Sample(s, x.after), Interrupt(s, Pending(s, 0).value), x.cp);
      }
    } else {
      EffectFlags(Fetched(s, x), x.wide);
      LinkApply(Sample(Fetched(s, x), x.after), Deed(s, x), x.cp);
    }
  }

  lemma EffectFlags(s: State, wide: word)
    ensures var eff := Chosen(s, wide); (eff.Trap? ==> !eff.flags.ll) && (eff.Return? ==> !eff.flags.ll)
  {
    hide Compute, Decode, Wanted, OnLowByte, OnHighByte;
  }

  lemma LinkApply(s: State, eff: Effect, cp: word)
    requires !WritesStatus(eff) && (eff.Trap? ==> !eff.flags.ll) && (eff.Return? ==> !eff.flags.ll)
    ensures var t := Apply(s, eff, cp);
            && t.flags.ll == (Links(eff) || (s.flags.ll && !Breaks(eff))) && (!eff.WriteMem? ==> t.mem == s.mem)
  {
  }

  /** The link flag is exactly the history of the run, whatever ran in between. */
  lemma {:induction false} FlagIsHistory(s: State, xs: seq<Inputs>)
    requires Fresh(s) && Never(s, xs, WritesStatus)
    ensures Fresh(Steps(s, xs)) && Steps(s, xs).flags.ll == Linked(s, xs, s.flags.ll)
    decreases |xs|
  {
    hide Step, Act;
    if xs != [] {
      LinkStep(s, xs[0]);
      FlagIsHistory(Step(s, xs[0]), xs[1..]);
    }
  }

  lemma {:induction false} UnbrokenKeeps(s: State, xs: seq<Inputs>)
    requires Fresh(s) && Never(s, xs, WritesStatus) && Unbroken(s, xs) && s.flags.ll
    ensures Steps(s, xs).flags.ll && Steps(s, xs).mem == s.mem
    decreases |xs|
  {
    hide Step, Act;
    if xs != [] {
      LinkStep(s, xs[0]);
      UnbrokenKeeps(Step(s, xs[0]), xs[1..]);
    }
  }

  /** No linking load follows in the run. */
  lemma {:induction false} BrokenStays(s: State, xs: seq<Inputs>)
    requires Fresh(s) && Never(s, xs, WritesStatus) && Never(s, xs, Links)
    requires !s.flags.ll || !Unbroken(s, xs)
    ensures !Steps(s, xs).flags.ll
    decreases |xs|
  {
    hide Step, Act;
    if xs != [] {
      LinkStep(s, xs[0]);
      BrokenStays(Step(s, xs[0]), xs[1..]);
    }
  }

  /** s is the state when the last linking load has completed; a store-conditional reached by a run
      that writes no status succeeds exactly when nothing has ended the link. Then memory is still
      what it was and gets the one word, and the register 1; otherwise memory stays and the
      register gets 0. */
  lemma StoreConditional(s: State, xs: seq<Inputs>, x: Inputs, r: reg, base: reg, off: int)
    requires Fresh(s) && s.flags.ll && Never(s, xs, WritesStatus) && Never(s, xs, Links)
    requires var t := Steps(s, xs);
             !t.asleep && Pending(Fetched(t, x), 0).None? && Current(t) == Store(r, base, off, true)
    ensures var t := Steps(s, xs); var u := Step(t, x);
            if Unbroken(s, xs)
            then t.mem == s.mem && u.mem == s.mem[Wrap(Reg(t, base) + off) := Reg(t, r)] && Reg(u, r) == 1
            else u.mem == t.mem && Reg(u, r) == 0
  {
    hide Step, Act, Current;
    if Unbroken(s, xs) {
      UnbrokenKeeps(s, xs);
    } else {
      BrokenStays(s, xs);
    }
    ConditionalStep(Steps(s, xs), x, r, base, off);
  }

  lemma ConditionalStep(t: State, x: Inputs, r: reg, base: reg, off: int)
    requires !t.asleep && Pending(Fetched(t, x), 0).None? && Current(t) == Store(r, base, off, true)
    ensures var u := Step(t, x);
            if t.flags.ll then u.mem == t.mem[Wrap(Reg(t, base) + off) := Reg(t, r)] && Reg(u, r) == 1
            else u.mem == t.mem && Reg(u, r) == 0
  {
    hide LinesValue, Decode, Pending;
  }
}
