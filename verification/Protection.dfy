/** What user mode cannot touch, and the two-level trap stack. */
module Protection {
  import opened Words
  import opened Isa
  import opened Cycles
  import opened Pipeline

  // ----- the latched status -----

  predicate WritesStatus(eff: Effect) { eff.WriteCtl? && eff.q == 10 }

  /** The status an external interrupt would save is the current one, the link flag aside. */
  predicate Fresh(s: State) { s.latched == Clean(s.flags) }

  /** Only `mtctl rX, q10` leaves the latched status behind; there it is the previous status. */
  lemma LatchedStatus(s: State, x: Inputs)
    requires Fresh(s) || !s.asleep
    ensures var act, t := Act(s, x), Step(s, x);
            if act.Some? && WritesStatus(act.value)
            then t.latched == Clean(s.flags) && (Fresh(t) <==> Clean(t.flags) == Clean(s.flags))
            else Fresh(t)
  {
    hide LinesValue, Unpack, Pack, Meaning, Pending, Apply;
    if !s.asleep {
      ApplyLatches(Sample(Fetched(s, x), x.after), Deed(s, x), x.cp);
    } else if Pending(s, 0).Some? {
      ApplyLatches(Sample(s, x.after), Interrupt(s, Pending(s, 0).value), x.cp);
    }
  }

  lemma ApplyLatches(s: State, eff: Effect, cp: word)
    ensures var t := Apply(s, eff, cp);
            if WritesStatus(eff) then t.latched == Clean(s.flags) else Fresh(t)
  {
    hide Unpack, Pack;
  }

  /** So over any run that starts fresh, and whatever it does, the latch is stale only directly
      after a step that wrote the status. */
  lemma {:induction false} LatchedOverRuns(s: State, xs: seq<Inputs>, x: Inputs)
    requires Fresh(s)
    ensures var t := Steps(s, xs);
            (Fresh(t) || !t.asleep) && (Act(t, x).None? || !WritesStatus(Act(t, x).value) ==> Fresh(Steps(s, xs + [x])))
    decreases |xs|
  {
    hide Step, Act;
    StepsSnoc(s, xs, x);
    if |xs| == 0 {
      LatchedStatus(s, x);
    } else {
      var ys, y := xs[..|xs| - 1], xs[|xs| - 1];
      assert xs == ys + [y];
      LatchedOverRuns(s, ys, y);
      StepsSnoc(s, ys, y);
      AwakeOrFresh(Steps(s, ys), y);
      LatchedStatus(Steps(s, xs), x);
    }
  }

  lemma AwakeOrFresh(s: State, x: Inputs)
    requires Fresh(s) || !s.asleep
    ensures Fresh(Step(s, x)) || !Step(s, x).asleep
  {
    hide LinesValue, Chosen, Pending, Apply;
    LatchedStatus(s, x);
    if !s.asleep {
      ApplyAsleep(Sample(Fetched(s, x), x.after), Deed(s, x), x.cp);
    }
  }

  // ----- user mode over whole runs of cycles -----

  /** Vectors, enables, spares and the supervisor registers; IPEND shows the outside. */
  ghost predicate SamePrivileged(t: State, s: State) {
    t.sup == s.sup && t.spare == s.spare && forall i :: 0 <= i < 17 && i != IPEND ==> t.vectors[i] == s.vectors[i]
  }

  ghost predicate SameTrapState(t: State, s: State) {
    t.epc == s.epc && t.epcSaved == s.epcSaved && t.flags.um == s.flags.um && t.flags.gie == s.flags.gie
    && t.flags.rumode == s.flags.rumode && t.flags.umsave == s.flags.umsave
  }

  predicate Handles(s: State, i: nat, pc: word)
    requires i < 8
  {
    pc == s.vectors[EXIHDL + i]
  }

  /** Control has left user code through a handler vector. */
  ghost predicate Left(t: State, s: State) {
    && !t.flags.um && !t.flags.gie && t.epcSaved == s.epc && (t.epc == s.pc || t.epc == Wrap(s.pc + 1))
    && (t.pc == s.vectors[SWIHDL] || t.pc == s.vectors[PRIVOPHDL] || exists i :: 0 <= i < 8 && Handles(s, i, t.pc))
  }

  lemma UserCycle(p: Phase, e: Env)
    requires Coherent(p) && p.s.flags.um
    ensures Coherent(Cycle(p, e)) && SamePrivileged(Cycle(p, e).s, p.s)
    ensures SameTrapState(Cycle(p, e).s, p.s) || Left(Cycle(p, e).s, p.s)
  {
    hide LinesValue, Unpack, Pack, Compute, Decode, Wanted;
    if p.Fetching? {
      UserEffect(p.s, e.wide);
      UserApply(Sample(p.s, e.lines), Chosen(p.s, e.wide), e.cp);
    } else if p.Accessing? {
      UserApply(Sample(p.s, e.lines), p.eff, e.cp);
    } else if p.Sleeping? && Pending(p.s, 0).Some? {
      var i := Pending(p.s, 0).value;
      assert Handles(p.s, i, Interrupt(p.s, i).next);
      UserApply(Sample(p.s, e.lines), Interrupt(p.s, i), e.cp);
    }
  }

  /** No instruction run in user mode writes a control register, returns or sleeps. */
  lemma UserEffect(s: State, wide: word)
    requires s.flags.um
    ensures var eff := Chosen(s, wide);
            && !eff.WriteCtl? && !eff.Return? && !eff.Halt?
            && (eff.Trap? ==>
                  && !eff.flags.um && !eff.flags.gie && (eff.epc == s.pc || eff.epc == Wrap(s.pc + 1))
                  && (eff.next == s.vectors[SWIHDL] || eff.next == s.vectors[PRIVOPHDL]
                      || exists i :: 0 <= i < 8 && Handles(s, i, eff.next)))
  {
    hide Compute, Decode, Wanted;
    if Pending(s, 0).Some? {
      var i := Pending(s, 0).value;
      assert Handles(s, i, Chosen(s, wide).next);
    }
  }

  lemma UserApply(s: State, eff: Effect, cp: word)
    requires s.flags.um && !eff.WriteCtl? && !eff.Return? && !eff.Halt?
    ensures var t := Apply(s, eff, cp);
            && t.sup == s.sup && t.spare == s.spare && t.vectors == s.vectors && t.lines == s.lines
            && (if eff.Trap? then t.epcSaved == s.epc && t.epc == eff.epc && t.pc == eff.next && t.flags == eff.flags
                else SameTrapState(t, s))
            && t.asleep == (s.asleep && !eff.Trap?)
            && (!eff.Trap? ==> t.latched == Clean(s.flags))
  {
  }

  /** A phase agrees with its state about sleep, and waits for nothing but memory, on every run. */
  lemma CoherentCycle(p: Phase, e: Env)
    requires Coherent(p)
    ensures Coherent(Cycle(p, e))
  {
    hide LinesValue, Chosen, Pending, Apply, Interrupt;
    match p {
      case Starting(_) =>
      case Fetching(s) => ApplyAsleep(Sample(s, e.lines), Chosen(s, e.wide), e.cp);
      case Accessing(s, eff) => ApplyAsleep(Sample(s, e.lines), eff, e.cp);
      case Sleeping(s) =>
        if Pending(s, 0).Some? {
          WakesByTrap(s);
          ApplyAsleep(Sample(s, e.lines), Interrupt(s, Pending(s, 0).value), e.cp);
        }
    }
  }

  lemma WakesByTrap(s: State)
    requires Pending(s, 0).Some?
    ensures Interrupt(s, Pending(s, 0).value).Trap?
  {
    hide Pending;
  }

  lemma {:induction false} CoherentRun(p: Phase, es: seq<Env>)
    requires Coherent(p)
    ensures Coherent(Run(p, es))
    decreases |es|
  {
    hide Cycle, Coherent;
    if es != [] {
      CoherentCycle(p, es[0]);
      CoherentRun(Cycle(p, es[0]), es[1..]);
    }
  }

  /** While the run stays in user mode. */
  ghost predicate UserThroughout(p: Phase, es: seq<Env>)
    decreases |es|
  {
    es == [] || (p.s.flags.um && UserThroughout(Cycle(p, es[0]), es[1..]))
  }

  /** No run of user-mode cycles changes privileged state, and its last cycle at most leaves
      through a handler vector. */
  lemma {:induction false} UserRun(p: Phase, es: seq<Env>)
    requires Coherent(p) && UserThroughout(p, es)
    ensures Coherent(Run(p, es)) && SamePrivileged(Run(p, es).s, p.s)
    ensures Run(p, es).s.flags.um ==> es == [] || SameTrapState(Run(p, es).s, p.s)
    ensures es != [] && !Run(p, es).s.flags.um ==>
              Left(Run(p, es).s, Run(p, es[..|es| - 1]).s) && SameTrapState(Run(p, es[..|es| - 1]).s, p.s)
    decreases |es|
  {
    hide Cycle, Coherent;
    if es != [] {
      var q := Cycle(p, es[0]);
      UserCycle(p, es[0]);
      UserRun(q, es[1..]);
      if |es| == 1 {
        assert es[..0] == [];
      } else {
        assert es[..|es| - 1][1..] == es[1..][..|es| - 2];
      }
    }
  }
}
