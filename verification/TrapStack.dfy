/** epc, epcSaved and the mode bits are a stack of return frames, two deep. */
module TrapStack {
  import opened Words
  import opened Isa
  import opened Pipeline
  import opened Protection

  datatype Frame = Frame(pc: word, user: bool)

  /** The frames of the traps taken and not yet returned from, latest last. */
  function Track(s: State, x: Inputs, stk: seq<Frame>): seq<Frame> {
    match Act(s, x)
    case Some(Trap(_, epc, _)) => stk + [Frame(epc, s.flags.um)]
    case Some(Return(_, _)) => if stk == [] then [] else stk[..|stk| - 1]
    case _ => stk
  }

  /** The registers hold the two latest frames. */
  ghost predicate Shadows(s: State, stk: seq<Frame>) {
    && (|stk| >= 1 ==> stk[|stk| - 1] == Frame(s.epc, s.flags.rumode))
    && (|stk| >= 2 ==> stk[|stk| - 2] == Frame(s.epcSaved, s.flags.umsave))
  }

  predicate Returns(s: State, x: Inputs) { Act(s, x).Some? && Act(s, x).value.Return? }

  predicate Traps(s: State, x: Inputs) { Act(s, x).Some? && Act(s, x).value.Trap? }

  predicate Resumes(s: State, f: Frame) { s.pc == f.pc && s.flags.um == f.user }

  /** Code that leaves the trap registers to the hardware. */
  predicate WritesTrapState(eff: Effect) { eff.WriteCtl? && 8 <= eff.q <= 10 }

  /** What an act does to the trap registers. */
  lemma TrapFlags(s: State, x: Inputs)
    requires Fresh(s)
    requires Act(s, x).Some? ==> !WritesTrapState(Act(s, x).value)
    ensures var t := Step(s, x);
            if Traps(s, x) then
              && t.epc == Act(s, x).value.epc && t.epcSaved == s.epc
              && t.flags.rumode == s.flags.um && t.flags.umsave == s.flags.rumode && !t.flags.um
            else if Returns(s, x) then
              && t.pc == s.epc && t.epc == s.epcSaved && t.epcSaved == s.epcSaved
              && t.flags.um == s.flags.rumode && t.flags.rumode == s.flags.umsave && t.flags.umsave == s.flags.umsave
            else
              && t.epc == s.epc && t.epcSaved == s.epcSaved
              && t.flags.rumode == s.flags.rumode && t.flags.umsave == s.flags.umsave && t.flags.um == s.flags.um
  {
    hide LinesValue, Unpack, Pack, Compute, Decode, Wanted, Apply, Pending;
    if s.asleep {
      if Pending(s, 0).Some? {
        ApplyFlags(Sample(s, x.after), Interrupt(s, Pending(s, 0).value), x.cp);
      }
    } else {
      ApplyFlags(Sample(Fetched(s, x), x.after), Deed(s, x), x.cp);
    }
  }

  lemma ApplyFlags(s: State, eff: Effect, cp: word)
    ensures var t := Apply(s, eff, cp);
            if eff.Trap? then t.epc == eff.epc && t.epcSaved == s.epc && t.flags == eff.flags
            else if eff.Return? then
              t.pc == eff.next && t.epc == s.epcSaved && t.epcSaved == s.epcSaved && t.flags == eff.flags
            else if WritesTrapState(eff) then true
            else t.epc == s.epc && t.epcSaved == s.epcSaved && Clean(t.flags) == Clean(s.flags)
  {
  }

  // ----- whole runs -----

  /** Every return in the run resumes the code its own trap interrupted, in that code's mode. */
  ghost predicate Matched(s: State, xs: seq<Inputs>, stk: seq<Frame>)
    decreases |xs|
  {
    xs == [] || (&& (Returns(s, xs[0]) && stk != [] ==> Resumes(Step(s, xs[0]), stk[|stk| - 1]))
                 && Matched(Step(s, xs[0]), xs[1..], Track(s, xs[0], stk)))
  }

  /** What two pairs of registers make of n open frames: the latest, and one frame for all below it. */
  function Registers(s: State, n: nat): (r: seq<Frame>)
    ensures |r| == n
  {
    if n == 0 then [] else seq(n - 1, i => Frame(s.epcSaved, s.flags.umsave)) + [Frame(s.epc, s.flags.rumode)]
  }

  /** The same by history alone: a trap pushes its frame, and puts the one before in the place of every
      frame below; a return pops. */
  function Carry(s: State, x: Inputs, act: seq<Frame>): seq<Frame> {
    match Act(s, x)
    case Some(Trap(_, epc, _)) =>
      (if act == [] then [] else seq(|act|, i => act[|act| - 1])) + [Frame(epc, s.flags.um)]
    case Some(Return(_, _)) => if act == [] then [] else act[..|act| - 1]
    case _ => act
  }

  /** At each return of the run the frame carried is the frame its trap pushed. */
  ghost predicate Agrees(s: State, xs: seq<Inputs>, stk: seq<Frame>, act: seq<Frame>)
    requires |act| == |stk|
    decreases |xs|
  {
    xs == [] || (&& (Returns(s, xs[0]) && stk != [] ==> act[|act| - 1] == stk[|stk| - 1])
                 && Agrees(Step(s, xs[0]), xs[1..], Track(s, xs[0], stk), Carry(s, xs[0], act)))
  }

  lemma CarryStep(s: State, x: Inputs, stk: seq<Frame>)
    requires Fresh(s)
    requires Act(s, x).Some? ==> !WritesTrapState(Act(s, x).value)
    ensures var n := |stk|;
            && Fresh(Step(s, x)) && |Carry(s, x, Registers(s, n))| == |Track(s, x, stk)|
            && Carry(s, x, Registers(s, n)) == Registers(Step(s, x), |Track(s, x, stk)|)
            && (Returns(s, x) && n > 0 ==>
                  (Resumes(Step(s, x), stk[n - 1]) <==> Registers(s, n)[n - 1] == stk[n - 1]))
  {
    hide Step, Act;
    LatchedStatus(s, x);
    TrapFlags(s, x);
  }

  /** In every run from every state, at every depth and in every interleaving of traps, returns and code
      that leaves the trap registers alone, each return resumes its own code exactly when the frame the
      history has carried there is the one its trap pushed. */
  lemma {:induction false} MatchedIff(s: State, xs: seq<Inputs>, stk: seq<Frame>)
    requires Fresh(s) && Never(s, xs, WritesTrapState)
    ensures Matched(s, xs, stk) <==> Agrees(s, xs, stk, Registers(s, |stk|))
    decreases |xs|
  {
    hide Act, Step, Registers, Resumes, Carry, Track, Returns;
    if xs != [] {
      CarryStep(s, xs[0], stk);
      MatchedIff(Step(s, xs[0]), xs[1..], Track(s, xs[0], stk));
    }
  }

  // ----- two levels are enough -----

  ghost predicate TwoDeep(s: State, xs: seq<Inputs>, stk: seq<Frame>)
    decreases |xs|
  {
    |stk| <= 2 && (xs == [] || TwoDeep(Step(s, xs[0]), xs[1..], Track(s, xs[0], stk)))
  }

  /** Two frames deep the history carries every frame as it was pushed. */
  lemma {:induction false} TwoDeepAgrees(s: State, xs: seq<Inputs>, stk: seq<Frame>)
    requires TwoDeep(s, xs, stk)
    ensures Agrees(s, xs, stk, stk)
    decreases |xs|
  {
    hide Act, Step;
    if xs != [] {
      assert TwoDeep(Step(s, xs[0]), xs[1..], Track(s, xs[0], stk));
      assert |Track(s, xs[0], stk)| <= 2;
      assert Carry(s, xs[0], stk) == Track(s, xs[0], stk);
      TwoDeepAgrees(Step(s, xs[0]), xs[1..], Track(s, xs[0], stk));
    }
  }

  lemma TrapsNest(s: State, xs: seq<Inputs>, stk: seq<Frame>)
    requires Shadows(s, stk) && Fresh(s) && TwoDeep(s, xs, stk) && Never(s, xs, WritesTrapState)
    ensures Matched(s, xs, stk)
  {
    hide Act, Step, Never;
    assert Registers(s, |stk|) == stk;
    TwoDeepAgrees(s, xs, stk);
    MatchedIff(s, xs, stk);
  }

  // ----- a third level is one too many -----

  predicate Disturbs(eff: Effect) { eff.Trap? || eff.Return? || WritesTrapState(eff) }

  lemma {:induction false} QuietRun(s: State, xs: seq<Inputs>)
    requires Fresh(s) && Never(s, xs, Disturbs)
    ensures var t := Steps(s, xs);
            && Fresh(t) && t.epc == s.epc && t.epcSaved == s.epcSaved
            && t.flags.rumode == s.flags.rumode && t.flags.umsave == s.flags.umsave
    decreases |xs|
  {
    hide Act, Step;
    if xs != [] {
      LatchedStatus(s, xs[0]);
      TrapFlags(s, xs[0]);
      QuietRun(Step(s, xs[0]), xs[1..]);
    }
  }

  /** t is reached from s by undisturbed code and one return. */
  ghost predicate ReturnsTo(s: State, xs: seq<Inputs>, x: Inputs, t: State) {
    Never(s, xs, Disturbs) && Returns(Steps(s, xs), x) && t == Step(Steps(s, xs), x)
  }

  lemma ReturnAfter(s: State, xs: seq<Inputs>, x: Inputs, t: State)
    requires Fresh(s) && ReturnsTo(s, xs, x, t)
    ensures Fresh(t) && Resumes(t, Frame(s.epc, s.flags.rumode))
    ensures t.epc == s.epcSaved && t.epcSaved == s.epcSaved
    ensures t.flags.rumode == s.flags.umsave && t.flags.umsave == s.flags.umsave
  {
    hide Act, Step;
    QuietRun(s, xs);
    LatchedStatus(Steps(s, xs), x);
    TrapFlags(Steps(s, xs), x);
  }

  /** A trap on top of two or more others, and three returns: the last one resumes the second frame
      of the three once more, so it is right exactly when that and the first are the same. */
  lemma ThirdTrapLosesTheFirst(s: State, stk: seq<Frame>, x: Inputs, t3: State, t2: State, t1: State,
                               a: seq<Inputs>, y: Inputs, b: seq<Inputs>, z: Inputs, c: seq<Inputs>, w: Inputs)
    requires |stk| >= 2 && Shadows(s, stk) && Fresh(s) && Traps(s, x)
    requires ReturnsTo(Step(s, x), a, y, t3) && ReturnsTo(t3, b, z, t2) && ReturnsTo(t2, c, w, t1)
    ensures var n := |stk|;
            && Resumes(t3, Track(s, x, stk)[n]) && Resumes(t2, stk[n - 1]) && Resumes(t1, stk[n - 1])
            && (Resumes(t1, stk[n - 2]) <==> stk[n - 2] == stk[n - 1])
  {
    hide Step, ReturnsTo;
    LatchedStatus(s, x);
    TrapFlags(s, x);
    ReturnAfter(Step(s, x), a, y, t3);
    ReturnAfter(t3, b, z, t2);
    ReturnAfter(t2, c, w, t1);
  }

  // ----- the same from the whole run -----

  lemma {:induction false} Segment(s: State, a: seq<Inputs>, y: Inputs, t: State, rest: seq<Inputs>,
                                   stk: seq<Frame>, act: seq<Frame>)
    requires |act| == |stk| > 0 && ReturnsTo(s, a, y, t)
    ensures var xs := a + [y] + rest; var n := |stk|;
            && (Agrees(s, xs, stk, act) <==> act[n - 1] == stk[n - 1] && Agrees(t, rest, stk[..n - 1], act[..n - 1]))
            && (Never(s, xs, WritesTrapState) <==> Never(t, rest, WritesTrapState))
    decreases |a|
  {
    hide Act, Step;
    var xs := a + [y] + rest;
    if a == [] {
      assert xs[1..] == rest;
    } else {
      assert xs[0] == a[0] && xs[1..] == a[1..] + [y] + rest;
      Segment(Step(s, a[0]), a[1..], y, t, rest, stk, act);
    }
  }

  lemma OneReturn(s: State, c: seq<Inputs>, w: Inputs, t: State, stk: seq<Frame>, act: seq<Frame>)
    requires |act| == |stk| > 0 && ReturnsTo(s, c, w, t)
    ensures Agrees(s, c + [w], stk, act) <==> act[|act| - 1] == stk[|stk| - 1]
    ensures Never(s, c + [w], WritesTrapState)
  {
    hide ReturnsTo;
    Segment(s, c, w, t, [], stk, act);
    assert c + [w] + [] == c + [w];
  }

  lemma TwoReturns(s: State, b: seq<Inputs>, z: Inputs, t: State, c: seq<Inputs>, w: Inputs, u: State,
                   stk: seq<Frame>, act: seq<Frame>)
    requires |act| == |stk| > 1 && ReturnsTo(s, b, z, t) && ReturnsTo(t, c, w, u)
    ensures var n := |stk|;
            Agrees(s, b + [z] + (c + [w]), stk, act) <==> act[n - 1] == stk[n - 1] && act[n - 2] == stk[n - 2]
    ensures Never(s, b + [z] + (c + [w]), WritesTrapState)
  {
    hide ReturnsTo, Agrees, Never;
    var n := |stk|;
    Segment(s, b, z, t, c + [w], stk, act);
    OneReturn(t, c, w, u, stk[..n - 1], act[..n - 1]);
  }

  lemma ThreeReturns(s: State, a: seq<Inputs>, y: Inputs, t: State, b: seq<Inputs>, z: Inputs, u: State,
                     c: seq<Inputs>, w: Inputs, v: State, stk: seq<Frame>, act: seq<Frame>)
    requires |act| == |stk| > 2 && ReturnsTo(s, a, y, t) && ReturnsTo(t, b, z, u) && ReturnsTo(u, c, w, v)
    ensures var n := |stk|;
            Agrees(s, a + [y] + (b + [z] + (c + [w])), stk, act) <==>
            act[n - 1] == stk[n - 1] && act[n - 2] == stk[n - 2] && act[n - 3] == stk[n - 3]
    ensures Never(s, a + [y] + (b + [z] + (c + [w])), WritesTrapState)
  {
    hide ReturnsTo, Agrees, Never;
    var n := |stk|;
    Segment(s, a, y, t, b + [z] + (c + [w]), stk, act);
    TwoReturns(t, b, z, u, c, w, v, stk[..n - 1], act[..n - 1]);
  }

  /** A trap on two or more frames, in terms of what is tracked and what is carried. */
  lemma TrapOnTwo(s: State, x: Inputs, stk: seq<Frame>)
    requires |stk| >= 2 && Shadows(s, stk) && Traps(s, x)
    ensures var n, act := |stk|, Carry(s, x, Registers(s, |stk|)); var ts := Track(s, x, stk);
            && |act| == |ts| == n + 1 && act[n] == ts[n] && act[n - 1] == ts[n - 1] && ts[n - 2] == stk[n - 2]
            && act[n - 2] == stk[n - 1]
  {
    hide Act;
  }

  lemma AfterTrap(s: State, x: Inputs, ys: seq<Inputs>, stk: seq<Frame>, act: seq<Frame>)
    requires Traps(s, x) && |act| == |stk|
    requires |Carry(s, x, act)| == |Track(s, x, stk)|
    ensures Agrees(s, [x] + ys, stk, act) <==> Agrees(Step(s, x), ys, Track(s, x, stk), Carry(s, x, act))
    ensures Never(s, [x] + ys, WritesTrapState) <==> Never(Step(s, x), ys, WritesTrapState)
  {
    hide Act, Step, Carry, Track;
    assert ([x] + ys)[1..] == ys;
  }

  /** So the run of that trap and the three returns is matched exactly when the two frames are equal. */
  lemma ThirdTrapMatchedIff(s: State, stk: seq<Frame>, x: Inputs, t3: State, t2: State, t1: State,
                            a: seq<Inputs>, y: Inputs, b: seq<Inputs>, z: Inputs, c: seq<Inputs>, w: Inputs)
    requires |stk| >= 2 && Shadows(s, stk) && Fresh(s) && Traps(s, x)
    requires ReturnsTo(Step(s, x), a, y, t3) && ReturnsTo(t3, b, z, t2) && ReturnsTo(t2, c, w, t1)
    ensures Matched(s, [x] + (a + [y] + (b + [z] + (c + [w]))), stk) <==> stk[|stk| - 2] == stk[|stk| - 1]
  {
    hide ReturnsTo, Act, Step, Agrees, Never, Matched, Shadows, Registers, Carry, Track, Traps;
    var ys := a + [y] + (b + [z] + (c + [w]));
    var act := Registers(s, |stk|);
    TrapOnTwo(s, x, stk);
    ThreeReturns(Step(s, x), a, y, t3, b, z, t2, c, w, t1, Track(s, x, stk), Carry(s, x, act));
    AfterTrap(s, x, ys, stk, act);
    MatchedIff(s, [x] + ys, stk);
  }
}
