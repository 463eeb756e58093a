/** Runs of the cycle machine are runs of the instruction set, with exact timing. */
module Pipeline {
  import opened Words
  import opened Isa
  import opened Cycles

  /** Where the pipeline stands between steps. */
  function At(s: State): Phase { if s.asleep then Sleeping(s) else Starting(s) }

  /** Phases agree with the sleep flag, and only memory accesses wait for data. */
  ghost predicate Coherent(p: Phase) {
    && p.s.asleep == p.Sleeping?
    && (p.Accessing? ==> TouchesMemory(p.eff) && p.s.latched == Clean(p.s.flags))
  }

  /** The number of cycles the next step takes, or 0 when es does not complete it. */
  function Span(s: State, es: seq<Env>): (n: nat)
    ensures n <= |es|
  {
    if s.asleep then
      if |es| >= 1 then 1 else 0
    else if |es| < 2 then 0
    else if !TouchesMemory(Chosen(Stall(s, es[0]), es[1].wide)) then 2
    else if |es| >= 3 then 3 else 0
  }

  function Gather(s: State, es: seq<Env>): Inputs
    requires Span(s, es) > 0
  {
    var last := es[Span(s, es) - 1];
    Inputs(es[0].lines, last.lines, last.cp, es[if s.asleep then 0 else 1].wide)
  }

  // ----- the clock commutes with everything else -----

  lemma SampleTwice(s: State, l: Lines, k: Lines)
    ensures Sample(Sample(s, l), k) == Sample(s, k)
  {
    hide LinesValue;
    var v := s.vectors;
    var a := v[IPEND] / 256 % 64 * 256;
    assert (a + LinesValue(l)) / 256 % 64 == v[IPEND] / 256 % 64;
    assert v[IPEND := a + LinesValue(l)][IPEND := a + LinesValue(k)] == v[IPEND := a + LinesValue(k)];
  }

  lemma ElapseSample(s: State, n: nat, l: Lines)
    ensures Sample(Elapse(s, n), l) == Elapse(Sample(s, l), n)
    ensures Early(Sample(s, l), Halt) == Sample(Early(s, Halt), l)
  {
    hide LinesValue;
  }

  lemma ElapseTwice(s: State, n: nat, m: nat)
    ensures Elapse(Elapse(s, n), m) == Elapse(s, n + m)
  {
  }

  lemma ReadLate(s: State, eff: Effect, cp: word, n: nat)
    requires eff.ReadMem?
    ensures Apply(Elapse(Early(s, eff), n), eff, cp) == Elapse(Apply(s, eff, cp), n)
  {
    var k := (s.counter + n) % 0x1_0000_0000;
    assert Elapse(Early(s, eff), n) == Early(s, eff).(counter := k);
    hide Elapse;
    assert Elapse(Apply(s, eff, cp), n) == Apply(s, eff, cp).(counter := k) by { ElapseAs(Apply(s, eff, cp), n); }
  }

  lemma ElapseAs(s: State, n: nat)
    ensures Elapse(s, n) == s.(counter := (s.counter + n) % 0x1_0000_0000)
  {
  }

  lemma WriteLate(s: State, eff: Effect, cp: word, n: nat)
    requires eff.WriteMem?
    ensures Apply(Elapse(Early(s, eff), n), eff, cp) == Elapse(Apply(s, eff, cp), n)
  {
  }

  /** The early status of a first memory cycle is what the access itself will leave. */
  lemma ApplyLate(s: State, eff: Effect, cp: word, n: nat)
    requires TouchesMemory(eff)
    ensures Apply(Elapse(Early(s, eff), n), eff, cp) == Elapse(Apply(s, eff, cp), n)
  {
    hide Apply, Elapse, Early;
    if eff.ReadMem? { ReadLate(s, eff, cp, n); } else { WriteLate(s, eff, cp, n); }
  }

  lemma EarlySample(s: State, eff: Effect, l: Lines)
    ensures Sample(Early(s, eff), l) == Early(Sample(s, l), eff)
  {
    hide LinesValue;
  }

  /** A data access over two cycles is one access of two ticks. */
  lemma TwoCycleAccess(d: State, eff: Effect, e: Env, f: Env)
    requires TouchesMemory(eff)
    ensures Elapse(Apply(Sample(Stall(Early(d, eff), e), f.lines), eff, f.cp), 1) ==
            Elapse(Apply(Sample(d, f.lines), eff, f.cp), 2)
  {
    hide Sample, Elapse, Apply, Early;
    var a := Early(d, eff);
    var b := Sample(d, f.lines);
    ElapseSample(Sample(a, e.lines), 1, f.lines);
    SampleTwice(a, e.lines, f.lines);
    EarlySample(d, eff, f.lines);
    assert Sample(Stall(a, e), f.lines) == Elapse(Early(b, eff), 1);
    ApplyLate(b, eff, f.cp, 1);
    ElapseTwice(Apply(b, eff, f.cp), 1, 1);
  }

  // ----- one step -----

  lemma ApplyAsleep(s: State, eff: Effect, cp: word)
    ensures Apply(s, eff, cp).asleep == (eff.Halt? || (s.asleep && !eff.Trap?))
  {
  }

  lemma StepIsCycles(s: State, es: seq<Env>)
    requires Span(s, es) > 0
    ensures Run(At(s), es[..Span(s, es)]) == At(Step(s, Gather(s, es)))
  {
    hide Sample, Apply, Chosen, Pending;
    var n, x := Span(s, es), Gather(s, es);
    if s.asleep {
      RunOne(Sleeping(s), es[0]);
      assert es[..1] == [es[0]];
      if Pending(s, 0).Some? {
        ApplyAsleep(Sample(s, es[0].lines), Interrupt(s, Pending(s, 0).value), x.cp);
      }
      SampleKeepsAsleep(s, es[0].lines);
    } else {
      var d := Stall(s, es[0]);
      var eff := Chosen(d, es[1].wide);
      SampleKeepsAsleep(s, es[0].lines);
      SampleKeepsAsleep(d, x.after);
      ApplyAsleep(Sample(d, x.after), eff, x.cp);
      if n == 2 {
        RunTwo(Starting(s), es[0], es[1]);
        assert es[..2] == [es[0], es[1]];
      } else {
        TwoCycleAccess(d, eff, es[1], es[2]);
        RunThree(Starting(s), es[0], es[1], es[2]);
        assert es[..3] == [es[0], es[1], es[2]];
      }
    }
  }

  lemma SampleKeepsAsleep(s: State, l: Lines)
    ensures Sample(s, l).asleep == s.asleep
  {
  }

  lemma RunOne(p: Phase, e: Env)
    ensures Run(p, [e]) == Cycle(p, e)
  {
    hide Cycle;
    assert [e][1..] == [];
  }

  lemma RunTwo(p: Phase, e: Env, f: Env)
    ensures Run(p, [e, f]) == Cycle(Cycle(p, e), f)
  {
    hide Cycle;
    RunOne(Cycle(p, e), f);
    assert [e, f][1..] == [f];
  }

  lemma RunThree(p: Phase, e: Env, f: Env, g: Env)
    ensures Run(p, [e, f, g]) == Cycle(Cycle(Cycle(p, e), f), g)
  {
    hide Cycle;
    RunTwo(Cycle(p, e), f, g);
    assert [e, f, g][1..] == [f, g];
  }

  // ----- whole runs -----

  /** How many steps of each kind a run has taken: instructions and interrupts of an awake core,
      those of them that accessed data memory, wake-ups, and cycles slept through. */
  datatype Tally = Tally(awake: nat, memory: nat, woken: nat, slept: nat)

  /** A run of the instruction set: the state reached, the inputs of each step, and the cycles
      that belong to a step not yet complete. */
  datatype IsaRun = IsaRun(s: State, xs: seq<Inputs>, rest: seq<Env>, tally: Tally)

  function Bump(t: Tally, s: State, x: Inputs): Tally {
    if s.asleep then
      if Pending(s, 0).Some? then t.(woken := t.woken + 1) else t.(slept := t.slept + 1)
    else
      t.(awake := t.awake + 1, memory := t.memory + if TouchesMemory(Deed(s, x)) then 1 else 0)
  }

  /** The run of the instruction set that a run of cycles amounts to. */
  function Abstract(s: State, es: seq<Env>): IsaRun
    decreases |es|
  {
    var n := Span(s, es);
    if n == 0 then IsaRun(s, [], es, Tally(0, 0, 0, 0))
    else
      var x := Gather(s, es);
      var r := Abstract(Step(s, x), es[n..]);
      IsaRun(r.s, [x] + r.xs, r.rest, Bump(r.tally, s, x))
  }

  function Steps(s: State, xs: seq<Inputs>): State
    decreases |xs|
  {
    if xs == [] then s else Steps(Step(s, xs[0]), xs[1..])
  }

  lemma {:induction false} StepsSnoc(s: State, xs: seq<Inputs>, x: Inputs)
    ensures Steps(s, xs + [x]) == Step(Steps(s, xs), x)
    decreases |xs|
  {
    hide Step;
    if xs == [] {
      assert [x][1..] == [];
    } else {
      assert (xs + [x])[1..] == xs[1..] + [x];
      StepsSnoc(Step(s, xs[0]), xs[1..], x);
    }
  }

  /** Stuttering refinement with exact timing: the cycle machine reaches the last state of a run
      of the instruction set plus the few cycles of an incomplete step; each instruction or
      interrupt took two cycles, one more if it accessed data memory; waking took one. */
  lemma {:induction false} CyclesRefineIsa(s: State, es: seq<Env>)
    ensures var r := Abstract(s, es);
            && r.s == Steps(s, r.xs) && Run(At(s), es) == Run(At(r.s), r.rest) && Span(r.s, r.rest) == 0
            && |es| == 2 * r.tally.awake + r.tally.memory + r.tally.woken + r.tally.slept + |r.rest|
    decreases |es|
  {
    hide Step, Chosen, Run;
    var n := Span(s, es);
    if n > 0 {
      var x := Gather(s, es);
      var t := Step(s, x);
      StepIsCycles(s, es);
      RunAppend(At(s), es[..n], es[n..]);
      assert es[..n] + es[n..] == es;
      SpanIsCost(s, es, Abstract(t, es[n..]).tally);
      CyclesRefineIsa(t, es[n..]);
      assert ([x] + Abstract(t, es[n..]).xs)[1..] == Abstract(t, es[n..]).xs;
    }
  }

  lemma SpanOfMore(s: State, es: seq<Env>, fs: seq<Env>)
    requires Span(s, es) > 0
    ensures Span(s, es + fs) == Span(s, es) <= |es| && Gather(s, es + fs) == Gather(s, es)
  {
    hide Chosen;
    assert forall i :: 0 <= i < |es| ==> (es + fs)[i] == es[i];
  }

  /** More cycles only add steps behind: the ready states passed are those of one run. */
  lemma {:induction false} StepsAreOneRun(s: State, es: seq<Env>, fs: seq<Env>)
    ensures Abstract(s, es).xs <= Abstract(s, es + fs).xs
    decreases |es|
  {
    hide Step, Chosen, Span, Gather, Bump;
    var n := Span(s, es);
    if n > 0 {
      SpanOfMore(s, es, fs);
      assert (es + fs)[n..] == es[n..] + fs;
      StepsAreOneRun(Step(s, Gather(s, es)), es[n..], fs);
    }
  }

  function Cost(t: Tally): nat { 2 * t.awake + t.memory + t.woken + t.slept }

  lemma SpanIsCost(s: State, es: seq<Env>, t: Tally)
    requires Span(s, es) > 0
    ensures Cost(Bump(t, s, Gather(s, es))) == Cost(t) + Span(s, es)
  {
    hide Chosen;
  }

  /** All but the counter, the interrupt lines and their image in IPEND, and the link flag. */
  ghost predicate SameButClock(t: State, s: State) {
    && t.pc == s.pc && t.usr == s.usr && t.sup == s.sup && t.epc == s.epc && t.epcSaved == s.epcSaved
    && Clean(t.flags) == Clean(s.flags) && t.mem == s.mem && t.asleep == s.asleep && t.spare == s.spare
    && forall i :: 0 <= i < 17 && i != IPEND ==> t.vectors[i] == s.vectors[i]
  }

  lemma StallSame(s: State, e: Env)
    ensures SameButClock(Stall(s, e), s) && Stall(s, e).latched == s.latched && Stall(s, e).flags == s.flags
  {
    hide LinesValue;
  }

  lemma EarlySame(d: State, eff: Effect, e: Env)
    ensures SameButClock(Stall(Early(d, eff), e), d) && Stall(Early(d, eff), e).latched == Clean(d.flags)
  {
    hide LinesValue;
  }

  /** The cycles of an incomplete step are stalls: the program sees nothing of them, and the latched
      status is at most brought up to date. */
  lemma StallsKeep(s: State, rest: seq<Env>)
    requires Span(s, rest) == 0
    ensures |rest| <= 2 && SameButClock(Run(At(s), rest).s, s)
    ensures Run(At(s), rest).s.latched in {s.latched, Clean(s.flags)}
  {
    hide Apply, Chosen, Stall, Early;
    if |rest| == 1 {
      RunOne(Starting(s), rest[0]);
      assert rest == [rest[0]];
      StallSame(s, rest[0]);
    } else if |rest| == 2 {
      RunTwo(Starting(s), rest[0], rest[1]);
      assert rest == [rest[0], rest[1]];
      var d := Stall(s, rest[0]);
      StallSame(s, rest[0]);
      EarlySame(d, Chosen(d, rest[1].wide), rest[1]);
    }
  }

  // ----- the cycle counter -----

  ghost predicate WritesCounter(eff: Effect) { eff.WriteCtl? && (eff.q == 28 || eff.q == 29) }

  /** What a step does: the instruction or interrupt, or nothing while asleep. */
  function Act(s: State, x: Inputs): Option<Effect> {
    if !s.asleep then Some(Deed(s, x))
    else match Pending(s, 0) case None => None case Some(i) => Some(Interrupt(s, i))
  }

  /** No step of a run does anything bad. */
  ghost predicate Never(s: State, xs: seq<Inputs>, bad: Effect -> bool)
    decreases |xs|
  {
    xs == [] || ((Act(s, xs[0]).Some? ==> !bad(Act(s, xs[0]).value)) && Never(Step(s, xs[0]), xs[1..], bad))
  }

  /** The cycles of a step that the counter counts. */
  function Ticks(s: State, x: Inputs): nat {
    if s.asleep then if Pending(s, 0).Some? then 1 else 0
    else if TouchesMemory(Deed(s, x)) then 3 else 2
  }

  lemma ApplyCounter(s: State, eff: Effect, cp: word)
    requires !WritesCounter(eff)
    ensures Apply(s, eff, cp).counter == s.counter
  {
  }

  lemma StepCounts(s: State, x: Inputs)
    requires Act(s, x).Some? ==> !WritesCounter(Act(s, x).value)
    ensures Step(s, x).counter == (s.counter + Ticks(s, x)) % 0x1_0000_0000
  {
    hide Chosen, LinesValue, Apply, Interrupt, WritesCounter;
    if s.asleep {
      if Pending(s, 0).Some? {
        ApplyCounter(Sample(s, x.after), Interrupt(s, Pending(s, 0).value), x.cp);
      }
    } else {
      ApplyCounter(Sample(Fetched(s, x), x.after), Deed(s, x), x.cp);
    }
  }

  lemma TallyStep(s: State, es: seq<Env>, t: Tally)
    requires Span(s, es) > 0
    ensures Bump(t, s, Gather(s, es)).slept + Ticks(s, Gather(s, es)) == t.slept + Span(s, es)
  {
    hide Chosen;
  }

  lemma ModChain(c: nat, k: nat, n: nat)
    ensures ((c + k) % 0x1_0000_0000 + n) % 0x1_0000_0000 == (c + k + n) % 0x1_0000_0000
  {
  }

  /** The counter is the number of cycles not slept through, modulo its 32 digits. */
  lemma {:induction false} CounterCountsCycles(s: State, es: seq<Env>)
    requires Never(s, Abstract(s, es).xs, WritesCounter)
    ensures var r := Abstract(s, es);
            |es| >= |r.rest| + r.tally.slept && r.s.counter ==
                (s.counter + (|es| - |r.rest| - r.tally.slept)) % 0x1_0000_0000
    decreases |es|
  {
    hide Step, Act, Ticks, Bump, Gather, Span;
    var n := Span(s, es);
    if n > 0 {
      var x := Gather(s, es);
      var r := Abstract(Step(s, x), es[n..]);
      assert ([x] + r.xs)[1..] == r.xs;
      CounterCountsCycles(Step(s, x), es[n..]);
      StepCounts(s, x);
      TallyStep(s, es, r.tally);
      ModChain(s.counter, Ticks(s, x), |es| - n - |r.rest| - r.tally.slept);
    }
  }
}
