/** The coprocessor bus: register files that `mtcp` writes and `mfcp` reads. */
module CpBus {
  import opened Words
  import opened Isa
  import opened Cycles
  import opened Core

  type File = s: seq<word> | |s| == 32 witness seq(32, i => 0)

  class Header {
    const regs: array<word>

    ghost predicate Valid() { regs.Length == 32 }

    ghost function Contents(): File
      requires Valid()
      reads regs
    {
      regs[..]
    }

    constructor ()
      ensures Valid() && fresh(regs)
    {
      regs := new word[32](i => 0);
    }

    method Reset()
      requires Valid()
      modifies regs
      ensures forall x :: 0 <= x < 32 ==> Contents()[x] == 0
    {
      var i := 0;
      while i < 32
        invariant 0 <= i <= 32 && forall x :: 0 <= x < i ==> regs[x] == 0
      {
        regs[i] := 0;
        i := i + 1;
      }
    }

    method Read(addr: nat) returns (val: word)
      requires Valid() && addr < 32
      ensures val == Contents()[addr]
    {
      val := regs[addr];
    }

    method Write(addr: nat, val: word)
      requires Valid() && addr < 32
      modifies regs
      ensures Contents() == old(Contents())[addr := val]
    {
      regs[addr] := val;
    }
  }

  predicate Present(heads: seq<Header>) {
    && (forall j :: 0 <= j < |heads| ==> heads[j].regs.Length == 32)
    && forall j, k :: 0 <= j < k < |heads| ==> heads[j].regs != heads[k].regs
  }

  /** Between the data stage and update: the addressed coprocessor answers a read and takes a write.
      A command to one that does not exist is dropped, and the core sees the value of before. */
  method Serve(out: CpOut, heads: seq<Header>, before: word) returns (val: word)
    requires Present(heads) && out.addr < 32
    modifies set h | h in heads :: h.regs
    ensures val == if out.op == COPROC_OP_READ
            && out.select < |heads| then old(heads[out.select].regs[out.addr]) else before
    ensures forall j :: 0 <= j < |heads| ==>
              heads[j].regs[..] ==
              if out.op == COPROC_OP_WRITE && j == out.select then old(heads[j].regs[..])[out.addr := out.value]
              else old(heads[j].regs[..])
  {
    val := before;
    if out.op == COPROC_OP_READ && out.select < |heads| {
      val := heads[out.select].Read(out.addr);
    }
    if out.op == COPROC_OP_WRITE && out.select < |heads| {
      heads[out.select].Write(out.addr, out.value);
    }
  }

  // ----- the core with passive register files -----

  datatype Board = Board(p: Phase, files: seq<File>)

  /** What else a cycle depends on; `stale` is what the core sees when nobody answers. */
  datatype Around = Around(lines: Lines, stale: word, wide: word)

  function Beat(y: Board, a: Around): Board {
    var bus := Bus(y.p);
    var val := if bus.ReadRegister? && bus.cp < |y.files| && bus.x < 32 then y.files[bus.cp][bus.x] else a.stale;
    Board(Cycle(y.p, Env(a.lines, val, a.wide)),
          if bus.WriteRegister? && bus.cp < |y.files| && bus.x < 32
          then y.files[bus.cp := y.files[bus.cp][bus.x := bus.v]] else y.files)
  }

  function Beats(y: Board, turns: seq<Around>): Board
    decreases |turns|
  {
    if turns == [] then y else Beats(Beat(y, turns[0]), turns[1..])
  }

  /** No cycle of the run writes register x of coprocessor cp. */
  predicate Spares(y: Board, turns: seq<Around>, cp: reg, x: nat)
    decreases |turns|
  {
    turns == [] ||
    (!(Bus(y.p).WriteRegister? && Bus(y.p).cp == cp && Bus(y.p).x == x) && Spares(Beat(y, turns[0]), turns[1..], cp, x))
  }

  lemma {:induction false} KeptUntil(y: Board, turns: seq<Around>, cp: reg, x: nat)
    requires cp < |y.files| && x < 32 && Spares(y, turns, cp, x)
    ensures var z := Beats(y, turns); |z.files| == |y.files| && z.files[cp][x] == y.files[cp][x]
    decreases |turns|
  {
    hide Bus, Cycle;
    if turns != [] { KeptUntil(Beat(y, turns[0]), turns[1..], cp, x); }
  }

  /** After `mtcp rA, cN, xM` and any run that does not write that register again, traps and
      interrupts included, `mfcp rB, cN, xM` brings the value of rA back. */
  lemma PutThenGet(y: Board, a: Around, turns: seq<Around>, b: Around, src: reg, dst: reg, cp: reg, x: nat)
    requires y.p.Fetching? && Pending(y.p.s, 0).None? && Current(y.p.s) == CpPut(src, cp, x)
    requires cp < |y.files| && x < 32 && Spares(Beat(y, a), turns, cp, x)
    requires var z := Beats(Beat(y, a), turns);
             z.p.Fetching? && Pending(z.p.s, 0).None? && Current(z.p.s) == CpGet(dst, cp, x)
    ensures var w := Beat(Beats(Beat(y, a), turns), b);
            w.p.Starting? && Reg(w.p.s, dst) == Reg(y.p.s, src)
  {
    hide Decode, Pending, LinesValue, Compute;
    KeptUntil(Beat(y, a), turns, cp, x);
    GetBrings(Beats(Beat(y, a), turns), b, dst, cp, x);
  }

  lemma GetBrings(z: Board, b: Around, dst: reg, cp: reg, x: nat)
    requires z.p.Fetching? && Pending(z.p.s, 0).None? && Current(z.p.s) == CpGet(dst, cp, x)
    requires cp < |z.files| && x < 32
    ensures var w := Beat(z, b); w.p.Starting? && Reg(w.p.s, dst) == z.files[cp][x]
  {
    hide Decode, Pending, LinesValue, Compute;
  }
}
