/** The NVRAM coprocessor refines an array of words. */
module Nvram {
  import opened Words
  import opened Isa

  const REG_CTL := 0
  const REG_STATUS := 1
  const REG_ADDR_LO := 2
  const REG_ADDR_HI := 3
  const REG_VAL := 4

  const STATUS_IDLE := 0
  const STATUS_READ_OK := 2
  const STATUS_READ_ERR := 3
  const STATUS_WRITE_OK := 5
  const STATUS_WRITE_ERR := 6

  const INSTR_NOOP := 0
  const INSTR_READ := 1
  const INSTR_WRITE := 2
  const INSTR_ACK := 3
  const INSTR_GETLEN_LO := 4
  const INSTR_GETLEN_HI := 5

  const DELAY_CYCLES := 3

  type CpRegs = s: seq<word> | |s| == 32 witness seq(32, i => 0)

  /** A request on its way to the array, `left` data steps from taking effect. */
  datatype Job = Job(write: bool, addr: word, v: word, left: nat)

  datatype Nv = Nv(regs: CpRegs, cells: seq<word>, job: Option<Job>, line: bool)

  /** Address register pair; the check against the length in bytes is all that guards a request. */
  function Address(s: Nv): nat {
    var hi: int := s.regs[REG_ADDR_HI];
    hi * 0x1_0000 + s.regs[REG_ADDR_LO]
  }

  /** A request is accepted when none is under way, the last has been acknowledged and the address
      is below the length in bytes. */
  predicate Accepts(s: Nv, op: word) {
    (op == INSTR_READ || op == INSTR_WRITE) && s.job.None? && s.regs[REG_STATUS] == STATUS_IDLE
    && Address(s) < 2 * |s.cells|
  }

  /** Only the low half of the address is kept. */
  function NewJob(s: Nv, op: word): Job {
    Job(op == INSTR_WRITE, s.regs[REG_ADDR_LO], if op == INSTR_WRITE then s.regs[REG_VAL] else 0, DELAY_CYCLES)
  }

  function Refused(s: Nv, op: word): Nv {
    if (op == INSTR_READ || op == INSTR_WRITE) && s.regs[REG_STATUS] == STATUS_IDLE then
      s.(regs := s.regs[REG_STATUS := if op == INSTR_READ then STATUS_READ_ERR else STATUS_WRITE_ERR])
    else if op == INSTR_ACK then s.(regs := s.regs[REG_STATUS := STATUS_IDLE], line := false)
    else if op == INSTR_GETLEN_LO then s.(regs := s.regs[REG_VAL := 2 * |s.cells| % 0x1_0000])
    else if op == INSTR_GETLEN_HI then s.(regs := s.regs[REG_VAL := 2 * |s.cells| / 0x1_0000 % 0x1_0000])
    else s
  }

  function Told(s: Nv, op: word): Nv {
    if s.job.Some? then s
    else if Accepts(s, op) then s.(job := Some(NewJob(s, op)))
    else Refused(s, op)
  }

  /** The job reaches the array. */
  function Effect(s: Nv, j: Job): Nv {
    var inside := j.addr < |s.cells|;
    var raise := s.regs[REG_CTL] / (if j.write then 2 else 1) % 2 == 1;
    var done := s.(job := None, line := s.line || raise);
    if j.write then
      done.(regs := s.regs[REG_STATUS := if inside then STATUS_WRITE_OK else STATUS_WRITE_ERR],
            cells := if inside then s.cells[j.addr := j.v] else s.cells)
    else if inside then
      done.(regs := s.regs[REG_VAL := s.cells[j.addr]][REG_STATUS := STATUS_READ_OK])
    else done.(regs := s.regs[REG_STATUS := STATUS_READ_ERR])
  }

  function Stepped(s: Nv): Nv {
    match s.job
    case None => s
    case Some(j) => if j.left > 1 then s.(job := Some(j.(left := j.left - 1))) else Effect(s, j)
  }

  // ----- the coprocessor in the simulator's form -----

  class NvramUnit {
    const regs: array<word>
    const data: array<word>
    var delay: nat
    var instPend: word
    var addrPend: word
    var valPend: word
    var exint: bool

    constructor (image: array<word>)
      requires image.Length < 0x8000_0000
      ensures data == image && fresh(regs) && Valid() && View() == Nv(seq(32, i => 0), image[..], None, false)
    {
      regs := new word[32](i => 0);
      data := image;
      delay, instPend, addrPend, valPend, exint := 0, INSTR_NOOP, 0, 0, false;
    }

    /** A delay is running exactly when a request is pending. */
    ghost predicate Valid()
      reads this
    {
      && regs.Length == 32 && regs != data && data.Length < 0x8000_0000
      && (delay > 0 <==> instPend == INSTR_READ || instPend == INSTR_WRITE) && (delay == 0 ==> instPend == INSTR_NOOP)
    }

    ghost function View(): Nv
      requires Valid()
      reads this, regs, data
    {
      var write := instPend == INSTR_WRITE;
      Nv(regs[..], data[..],
         if delay == 0 then None else Some(Job(write, addrPend, if write then valPend else 0, delay)), exint)
    }

    /** A power-on reset drops the pending request. */
    method Reset()
      requires Valid()
      modifies this`delay, this`instPend, this`addrPend, this`valPend
      ensures Valid() && View() == old(View()).(job := None)
    {
      delay := 0;
      instPend := INSTR_NOOP;
      addrPend := 0;
      valPend := 0;
    }

    method Data()
      requires Valid()
      modifies this`delay, this`instPend, this`exint, regs, data
      ensures Valid() && View() == Stepped(old(View()))
    {
      hide Bits;
      if delay == 0 {
        return;
      }
      delay := delay - 1;
      if delay != 0 {
        return;
      }
      Digit01(regs[REG_CTL]);
      if instPend == INSTR_READ {
        if addrPend < data.Length {
          regs[REG_VAL] := data[addrPend];
          regs[REG_STATUS] := STATUS_READ_OK;
        } else {
          regs[REG_STATUS] := STATUS_READ_ERR;
        }
        instPend := INSTR_NOOP;
        if Bits(AND, regs[REG_CTL], 0x1) != 0 {
          exint := true;
        }
      } else if instPend == INSTR_WRITE {
        if addrPend < data.Length {
          data[addrPend] := valPend;
          regs[REG_STATUS] := STATUS_WRITE_OK;
        } else {
          regs[REG_STATUS] := STATUS_WRITE_ERR;
        }
        instPend := INSTR_NOOP;
        if Bits(AND, regs[REG_CTL], 0x2) != 0 {
          exint := true;
        }
      }
    }

    method Exec(value: word)
      requires Valid()
      modifies this`delay, this`instPend, this`addrPend, this`valPend, this`exint, regs
      ensures Valid() && View() == Told(old(View()), value)
    {
      if delay != 0 {
        return;
      }
      var hi: int := regs[REG_ADDR_HI];
      var addr := hi * 0x1_0000 + regs[REG_ADDR_LO];
      var datalen := 2 * data.Length;
      match value {
        case 1 =>
          if regs[REG_STATUS] != STATUS_IDLE {
            return;
          }
          if addr < datalen {
            instPend := INSTR_READ;
            addrPend := Wrap(addr);
            delay := DELAY_CYCLES;
          } else {
            regs[REG_STATUS] := STATUS_READ_ERR;
          }
        case 2 =>
          if regs[REG_STATUS] != STATUS_IDLE {
            return;
          }
          if addr < datalen {
            instPend := INSTR_WRITE;
            addrPend := Wrap(addr);
            valPend := regs[REG_VAL];
            delay := DELAY_CYCLES;
          } else {
            regs[REG_STATUS] := STATUS_WRITE_ERR;
          }
        case 3 =>
          regs[REG_STATUS] := STATUS_IDLE;
          exint := false;
        case 4 => regs[REG_VAL] := Wrap(datalen);
        case 5 => regs[REG_VAL] := Wrap(datalen / 0x1_0000);
        case _ =>
      }
    }

    /** sim_cp_write */
    method Write(regnum: nat, val: word)
      requires Valid() && regnum < 32
      modifies regs
      ensures Valid() && View() == old(View()).(regs := old(regs[..])[regnum := val])
    {
      regs[regnum] := val;
    }
  }

  lemma Digit01(x: word)
    ensures Bits(AND, x, 1) != 0 <==> x % 2 == 1
    ensures Bits(AND, x, 2) != 0 <==> x / 2 % 2 == 1
  {
    TestDigit(x, 0);
    TestDigit(x, 1);
    assert Shl(1, 1) == 2 && Shr(x, 1) == x / 2;
  }

  // ----- runs -----

  datatype Event = Tick | Op(code: word) | Poke(r: ctlreg, v: word)

  function Next(s: Nv, e: Event): Nv {
    match e
    case Tick => Stepped(s)
    case Op(code) => Told(s, code)
    case Poke(r, v) => s.(regs := s.regs[r := v])
  }

  function Run(s: Nv, es: seq<Event>): Nv
    decreases |es|
  {
    if es == [] then s else Run(Next(s, es[0]), es[1..])
  }

  function TicksIn(es: seq<Event>): nat {
    if es == [] then 0 else (if es[0].Tick? then 1 else 0) + TicksIn(es[1..])
  }

  /** While a request is under way nothing but data steps moves it, and nothing reaches the array. */
  lemma {:induction false} PendingIsUndisturbed(s: Nv, es: seq<Event>)
    requires s.job.Some? && TicksIn(es) < s.job.value.left
    ensures var t := Run(s, es);
            t.cells == s.cells && t.job == Some(s.job.value.(left := s.job.value.left - TicksIn(es)))
    decreases |es|
  {
    if es != [] { PendingIsUndisturbed(Next(s, es[0]), es[1..]); }
  }

  lemma {:induction false} RunSnoc(s: Nv, es: seq<Event>, e: Event)
    ensures Run(s, es + [e]) == Next(Run(s, es), e)
    decreases |es|
  {
    hide Next;
    if es == [] {
      assert [e][1..] == [];
    } else {
      assert (es + [e])[1..] == es[1..] + [e];
      RunSnoc(Next(s, es[0]), es[1..], e);
    }
  }

  /** An accepted request takes effect with the third data step after it and not before, on the cell
      its low address half names, whatever is asked or written to the registers in the meantime. */
  lemma AcceptedTakesEffect(s: Nv, op: word, es: seq<Event>)
    requires Accepts(s, op) && TicksIn(es) == 2
    ensures var j := NewJob(s, op); var t := Run(Told(s, op), es); var u := Run(Told(s, op), es + [Tick]);
            && t.cells == s.cells && t.job.Some? && u.job.None?
            && u.cells == (if j.write && j.addr < |s.cells| then s.cells[j.addr := j.v] else s.cells)
            && (!j.write && j.addr < |s.cells| ==> u.regs[REG_VAL] == s.cells[j.addr])
            && u.regs[REG_STATUS] ==
               if j.addr < |s.cells| then (if j.write then STATUS_WRITE_OK else STATUS_READ_OK)
               else (if j.write then STATUS_WRITE_ERR else STATUS_READ_ERR)
  {
    var t := Told(s, op);
    PendingIsUndisturbed(t, es);
    RunSnoc(t, es, Tick);
  }

  /** A request meets the cell it asked for, without error, exactly when its address has 16 digits
      and is below the length in words. */
  lemma MeetsItsCellIff(s: Nv, op: word)
    requires Accepts(s, op)
    ensures NewJob(s, op).addr < |s.cells| && NewJob(s, op).addr == Address(s) <==>
            Address(s) < |s.cells| && Address(s) < 0x1_0000
  {
  }

  // ----- the array over whole runs -----

  /** The writes that reach a cell in a run, in order. */
  function Completed(s: Nv, es: seq<Event>): seq<(word, word)>
    decreases |es|
  {
    if es == [] then []
    else
      (if es[0].Tick? && s.job.Some? && s.job.value.left <= 1 then Landing(s.job, |s.cells|) else [])
      + Completed(Next(s, es[0]), es[1..])
  }

  /** The cell write a job will make, if it is one. */
  function Landing(j: Option<Job>, n: nat): seq<(word, word)> {
    if j.Some? && j.value.write && j.value.addr < n then [(j.value.addr, j.value.v)] else []
  }

  /** The writes accepted in a run that name a cell, in order. */
  function Accepted(s: Nv, es: seq<Event>): seq<(word, word)>
    decreases |es|
  {
    if es == [] then []
    else
      (if es[0].Op? && Accepts(s, es[0].code) then Landing(Some(NewJob(s, es[0].code)), |s.cells|) else [])
      + Accepted(Next(s, es[0]), es[1..])
  }

  function Store(cells: seq<word>, ws: seq<(word, word)>): seq<word>
    requires forall w :: w in ws ==> w.0 < |cells|
    decreases |ws|
  {
    if ws == [] then cells else Store(cells[ws[0].0 := ws[0].1], ws[1..])
  }

  lemma {:induction false} CompletedInside(s: Nv, es: seq<Event>)
    ensures |Run(s, es).cells| == |s.cells|
    ensures forall w :: w in Completed(s, es) ==> w.0 < |s.cells|
    decreases |es|
  {
    if es != [] { CompletedInside(Next(s, es[0]), es[1..]); }
  }

  /** Every accepted write reaches the array exactly once and in order; one may be under way. */
  lemma {:induction false} WritesConserved(s: Nv, es: seq<Event>)
    ensures Landing(s.job, |s.cells|) + Accepted(s, es) == Completed(s, es) + Landing(Run(s, es).job, |s.cells|)
    decreases |es|
  {
    hide Told, Effect;
    if es != [] {
      var t := Next(s, es[0]);
      WritesConserved(t, es[1..]);
      JobStep(s, es[0]);
      var a := if es[0].Op? && Accepts(s, es[0].code) then Landing(Some(NewJob(s, es[0].code)), |s.cells|) else [];
      var c := if es[0].Tick? && s.job.Some? && s.job.value.left <= 1 then Landing(s.job, |s.cells|) else [];
      var rest, last := Accepted(t, es[1..]), Landing(Run(s, es).job, |s.cells|);
      assert Landing(s.job, |s.cells|) + (a + rest) == (Landing(s.job, |s.cells|) + a) + rest;
      assert c + (Completed(t, es[1..]) + last) == (c + Completed(t, es[1..])) + last;
      assert c + (Landing(t.job, |s.cells|) + rest) == (c + Landing(t.job, |s.cells|)) + rest;
    }
  }

  lemma JobStep(s: Nv, e: Event)
    ensures var t := Next(s, e);
            && |t.cells| == |s.cells|
            && Landing(s.job, |s.cells|)
               + (if e.Op? && Accepts(s, e.code) then Landing(Some(NewJob(s, e.code)), |s.cells|) else [])
               == (if e.Tick? && s.job.Some? && s.job.value.left <= 1 then Landing(s.job, |s.cells|) else [])
                  + Landing(t.job, |s.cells|)
  {
  }

  /** The array is the completed writes applied to its first contents, so a read returns the last
      write completed to its address. */
  lemma {:induction false} ArrayIsItsWrites(s: Nv, es: seq<Event>)
    ensures (forall w :: w in Completed(s, es) ==> w.0 < |s.cells|) &&
            Run(s, es).cells == Store(s.cells, Completed(s, es))
    decreases |es|
  {
    CompletedInside(s, es);
    if es != [] {
      var t := Next(s, es[0]);
      CompletedInside(t, es[1..]);
      ArrayIsItsWrites(t, es[1..]);
      CellStep(s, es[0]);
      if es[0].Tick? && s.job.Some? && s.job.value.left <= 1 && Landing(s.job, |s.cells|) != [] {
        assert Completed(s, es)[1..] == Completed(t, es[1..]);
      } else {
        assert Completed(s, es) == Completed(t, es[1..]);
      }
    }
  }

  lemma CellStep(s: Nv, e: Event)
    ensures Next(s, e).cells ==
            if e.Tick? && s.job.Some? && s.job.value.left <= 1 && Landing(s.job, |s.cells|) != []
            then s.cells[s.job.value.addr := s.job.value.v] else s.cells
  {
  }

  /** The last value written to a cell, or what it held first. */
  function LastTo(ws: seq<(word, word)>, a: nat, first: word): word {
    if ws == [] then first
    else if ws[|ws| - 1].0 == a then ws[|ws| - 1].1 else LastTo(ws[..|ws| - 1], a, first)
  }

  lemma {:induction false} StoreSnoc(cells: seq<word>, ws: seq<(word, word)>, w: (word, word))
    requires w.0 < |cells| && forall v :: v in ws ==> v.0 < |cells|
    ensures |Store(cells, ws)| == |cells| && Store(cells, ws + [w]) == Store(cells, ws)[w.0 := w.1]
    decreases |ws|
  {
    if ws == [] {
      assert [w][1..] == [];
    } else {
      assert (ws + [w])[1..] == ws[1..] + [w];
      StoreSnoc(cells[ws[0].0 := ws[0].1], ws[1..], w);
    }
  }

  lemma {:induction false} StoreIsLast(cells: seq<word>, ws: seq<(word, word)>, a: nat)
    requires a < |cells| && forall v :: v in ws ==> v.0 < |cells|
    ensures |Store(cells, ws)| == |cells| && Store(cells, ws)[a] == LastTo(ws, a, cells[a])
    decreases |ws|
  {
    if ws != [] {
      var ys, w := ws[..|ws| - 1], ws[|ws| - 1];
      assert ws == ys + [w];
      StoreSnoc(cells, ys, w);
      StoreIsLast(cells, ys, a);
    }
  }

  /** A read that completes after a run returns the last write the run completed to its address. */
  lemma ReadReturnsLastWrite(s: Nv, es: seq<Event>)
    requires var t := Run(s, es);
             t.job.Some? && !t.job.value.write && t.job.value.left == 1 && t.job.value.addr < |s.cells|
    ensures var a := Run(s, es).job.value.addr; var u := Run(s, es + [Tick]);
            u.job.None? && u.regs[REG_VAL] == LastTo(Completed(s, es), a, s.cells[a])
  {
    hide Completed;
    ArrayIsItsWrites(s, es);
    StoreIsLast(s.cells, Completed(s, es), Run(s, es).job.value.addr);
    RunSnoc(s, es, Tick);
  }
}
