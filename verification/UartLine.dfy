/** The UART's status register and interrupt line, as one data step of a cycle sets them. */
module UartLine {
  import opened Words
  import Uart

  const REG_CTL := 0
  const REG_STATUS := 1

  const INSTR_RESET_TX := 5
  const INSTR_RESET_RX := 6
  const INSTR_INT_ACK := 10

  /** The latches that keep each source from raising the line again, and the line. */
  datatype Latch = Latch(rxRaised: bool, txRaised: bool, line: bool)

  predicate RxDue(l: Latch, ctl: word, inLen: nat) { inLen > 0 && !l.rxRaised && ctl / 2 % 2 == 1 }

  predicate TxDue(l: Latch, ctl: word, outLen: nat) { outLen < Uart.FIFO_LEN && !l.txRaised && ctl % 2 == 1 }

  function Updated(l: Latch, ctl: word, inLen: nat, outLen: nat): Latch {
    var rx, tx := RxDue(l, ctl, inLen), TxDue(l, ctl, outLen);
    Latch(l.rxRaised || rx, l.txRaised || tx, l.line || rx || tx)
  }

  class UartUnit {
    const regs: array<word>
    var rxRaised: bool
    var txRaised: bool
    var exint: bool

    constructor ()
      ensures regs.Length == 32 && fresh(regs) && View() == Latch(false, false, false)
    {
      regs := new word[32](i => 0);
      rxRaised, txRaised, exint := false, false, false;
    }

    ghost function View(): Latch
      reads this
    {
      Latch(rxRaised, txRaised, exint)
    }

    /** uart_state_data, with the two lengths it looks up. */
    method Data(inLen: nat, outLen: nat)
      requires regs.Length == 32
      modifies this`rxRaised, this`txRaised, this`exint, regs
      ensures View() == Updated(old(View()), regs[0], inLen, outLen)
      ensures regs[1] == old(regs[1]) / 4 * 4 + (if inLen > 0 then 2 else 0) + if outLen < 16 then 1 else 0
      ensures forall i :: 0 <= i < 32 && i != 1 ==> regs[i] == old(regs[i])
    {
      BothDigits(regs[REG_STATUS], inLen > 0);
      DataRx(inLen);
      DataTx(outLen);
    }

    method DataRx(inLen: nat)
      requires regs.Length == 32
      modifies this`rxRaised, this`exint, regs
      ensures var due := old(RxDue(View(), regs[REG_CTL], inLen));
              rxRaised == (old(rxRaised) || due) && exint == (old(exint) || due)
      ensures regs[REG_STATUS] == old(regs[REG_STATUS]) / 4 * 4 + (if inLen > 0 then 2 else 0)
                                  + old(regs[REG_STATUS]) % 2
      ensures forall i :: 0 <= i < 32 && i != REG_STATUS ==> regs[i] == old(regs[i])
    {
      hide Bits;
      TestTwo(regs[REG_CTL]);
      SecondDigit(regs[REG_STATUS]);
      if inLen != 0 {
        regs[REG_STATUS] := Wrap(Bits(OR, regs[REG_STATUS], 2));
        if !rxRaised && Bits(AND, regs[REG_CTL], 2) != 0 {
          exint := true;
          rxRaised := true;
        }
      } else {
        regs[REG_STATUS] := Wrap(Bits(AND, regs[REG_STATUS], 0xFFFD));
      }
    }

    /** The cases of uart_state_exec for them. */
    method Exec(code: word)
      modifies this`rxRaised, this`txRaised, this`exint
      ensures View() == Told(old(View()), code)
    {
      match code {
        case 5 => txRaised := false;
        case 6 => rxRaised := false;
        case 10 => exint := false;
        case _ =>
      }
    }

    method DataTx(outLen: nat)
      requires regs.Length == 32
      modifies this`txRaised, this`exint, regs
      ensures var due := old(TxDue(View(), regs[REG_CTL], outLen));
              txRaised == (old(txRaised) || due) && exint == (old(exint) || due)
      ensures regs[REG_STATUS] == old(regs[REG_STATUS]) / 2 * 2 + if outLen < Uart.FIFO_LEN then 1 else 0
      ensures forall i :: 0 <= i < 32 && i != REG_STATUS ==> regs[i] == old(regs[i])
    {
      hide Bits;
      TestTwo(regs[REG_CTL]);
      FirstDigit(regs[REG_STATUS]);
      if outLen < Uart.FIFO_LEN {
        regs[REG_STATUS] := Wrap(Bits(OR, regs[REG_STATUS], 1));
        if !txRaised && Bits(AND, regs[REG_CTL], 1) != 0 {
          exint := true;
          txRaised := true;
        }
      } else {
        regs[REG_STATUS] := Wrap(Bits(AND, regs[REG_STATUS], 0xFFFE));
      }
    }
  }

  /** The commands that are about the line. */
  function Told(l: Latch, code: word): Latch {
    if code == INSTR_RESET_TX then Next(l, ResetTx)
    else if code == INSTR_RESET_RX then Next(l, ResetRx)
    else if code == INSTR_INT_ACK then Next(l, Ack)
    else l
  }

  lemma BothDigits(x: word, on: bool)
    ensures var y := x / 4 * 4 + (if on then 2 else 0) + x % 2; y / 2 * 2 == x / 4 * 4 + if on then 2 else 0
  {
    var a := if on then 1 else 0;
    DivModUnique(x / 4 * 4 + 2 * a + x % 2, 2, x / 4 * 2 + a, x % 2);
  }

  /** Testing the two low digits. */
  lemma TestTwo(x: word)
    ensures Bits(AND, x, 1) == x % 2 && Bits(AND, x, 2) == x / 2 % 2 * 2
  {
    hide Bits;
    BitsZero(x / 2);
    BitsZero(x / 4);
    BitsStep(AND, x, 1);
    BitsStep(AND, x, 2);
    BitsStep(AND, x / 2, 1);
  }

  /** Setting and clearing the lowest digit. */
  lemma FirstDigit(x: word)
    ensures Bits(OR, x, 1) == x / 2 * 2 + 1 && Bits(AND, x, 0xFFFE) == x / 2 * 2
  {
    hide Bits;
    BitsZero(x / 2);
    BitsStep(OR, x, 1);
    BitsStep(AND, x, 0xFFFE);
    assert Pow2(15) == 0x8000;
    OnesPow2(15);
    MaskAll(x / 2, 15);
  }

  /** Setting and clearing the digit above it. */
  lemma SecondDigit(x: word)
    ensures Bits(OR, x, 2) == x / 4 * 4 + 2 + x % 2 && Bits(AND, x, 0xFFFD) == x / 4 * 4 + x % 2
  {
    hide Bits;
    var h := x / 2;
    BitsZero(h / 2);
    BitsStep(OR, x, 2);
    BitsStep(OR, h, 1);
    BitsStep(AND, x, 0xFFFD);
    BitsStep(AND, h, 0x7FFE);
    assert Pow2(14) == 0x4000;
    OnesPow2(14);
    MaskAll(h / 2, 14);
  }

  // ----- runs of data steps and commands -----

  datatype Step = Data(ctl: word, inLen: nat, outLen: nat) | ResetRx | ResetTx | Ack

  function Next(l: Latch, s: Step): Latch {
    match s
    case Data(ctl, inLen, outLen) => Updated(l, ctl, inLen, outLen)
    case ResetRx => l.(rxRaised := false)
    case ResetTx => l.(txRaised := false)
    case Ack => l.(line := false)
  }

  /** The times in a run that received data, or free space, raises the line; and the resets of each. */
  function Raises(l: Latch, ss: seq<Step>): nat
    decreases |ss|
  {
    if ss == [] then 0
    else (if ss[0].Data? && RxDue(l, ss[0].ctl, ss[0].inLen) then 1 else 0) + Raises(Next(l, ss[0]), ss[1..])
  }

  function TxRaises(l: Latch, ss: seq<Step>): nat
    decreases |ss|
  {
    if ss == [] then 0
    else (if ss[0].Data? && TxDue(l, ss[0].ctl, ss[0].outLen) then 1 else 0) + TxRaises(Next(l, ss[0]), ss[1..])
  }

  function Resets(ss: seq<Step>): nat {
    if ss == [] then 0 else (if ss[0].ResetRx? then 1 else 0) + Resets(ss[1..])
  }

  function TxResets(ss: seq<Step>): nat {
    if ss == [] then 0 else (if ss[0].ResetTx? then 1 else 0) + TxResets(ss[1..])
  }

  /** Either source raises the line at most once between two of its resets. */
  lemma {:induction false} OneRaisePerReset(l: Latch, ss: seq<Step>)
    ensures Raises(l, ss) <= Resets(ss) + if l.rxRaised then 0 else 1
    ensures TxRaises(l, ss) <= TxResets(ss) + if l.txRaised then 0 else 1
    decreases |ss|
  {
    if ss != [] { OneRaisePerReset(Next(l, ss[0]), ss[1..]); }
  }

  function Runs(l: Latch, ss: seq<Step>): Latch
    decreases |ss|
  {
    if ss == [] then l else Runs(Next(l, ss[0]), ss[1..])
  }

  /** Bytes wait, digit 1 of the control register is set and the source has not raised since its reset;
      or there is room for one of 16, digit 0 is set, and the same. */
  predicate Raising(l: Latch, s: Step) {
    s.Data? &&
    ((s.inLen > 0 && !l.rxRaised && s.ctl / 2 % 2 == 1) || (s.outLen < 16 && !l.txRaised && s.ctl % 2 == 1))
  }

  predicate Unacknowledged(ss: seq<Step>) { forall k :: 0 <= k < |ss| ==> !ss[k].Ack? }

  /** Step k of the run raises the line and nothing behind it acknowledges. */
  ghost predicate RaisedAt(l: Latch, ss: seq<Step>, k: int) {
    0 <= k < |ss| && Raising(Runs(l, ss[..k]), ss[k]) && Unacknowledged(ss[k + 1..])
  }

  /** The line is up exactly when some step of the run has raised it, or it was up before, and nobody has
      acknowledged it since. */
  lemma {:induction false} LineUpIff(l: Latch, ss: seq<Step>)
    ensures Runs(l, ss).line <==> (l.line && Unacknowledged(ss)) || exists k :: RaisedAt(l, ss, k)
    decreases |ss|
  {
    hide Next;
    if ss != [] {
      var m := Next(l, ss[0]);
      LineUpIff(m, ss[1..]);
      LineStep(l, ss[0]);
      RaisedFirst(l, ss);
      forall k | 0 < k ensures RaisedAt(l, ss, k) <==> RaisedAt(m, ss[1..], k - 1) { RaisedLater(l, ss, k); }
      assert Unacknowledged(ss) <==> !ss[0].Ack? && Unacknowledged(ss[1..]) by { AckFirst(ss); }
      if exists k :: RaisedAt(m, ss[1..], k) {
        var k :| RaisedAt(m, ss[1..], k);
        assert RaisedAt(l, ss, k + 1);
      }
      assert RaisedAt(l, ss, 0) ==> exists k :: RaisedAt(l, ss, k);
    }
  }

  lemma AckFirst(ss: seq<Step>)
    requires ss != []
    ensures Unacknowledged(ss) <==> !ss[0].Ack? && Unacknowledged(ss[1..])
  {
    assert forall k :: 0 <= k < |ss| - 1 ==> ss[1..][k] == ss[k + 1];
    if !ss[0].Ack? && Unacknowledged(ss[1..]) {
      forall k | 0 <= k < |ss| ensures !ss[k].Ack? {
        if k > 0 { assert ss[k] == ss[1..][k - 1]; }
      }
    }
  }

  lemma LineStep(l: Latch, s: Step)
    ensures Next(l, s).line <==> (l.line && !s.Ack?) || Raising(l, s)
  {
  }

  lemma RaisedFirst(l: Latch, ss: seq<Step>)
    requires ss != []
    ensures RaisedAt(l, ss, 0) <==> Raising(l, ss[0]) && Unacknowledged(ss[1..])
  {
    assert ss[..0] == [];
  }

  lemma RaisedLater(l: Latch, ss: seq<Step>, k: int)
    requires ss != [] && 0 < k
    ensures RaisedAt(l, ss, k) <==> RaisedAt(Next(l, ss[0]), ss[1..], k - 1)
  {
    hide Next, Raising;
    if k < |ss| { assert ss[..k][1..] == ss[1..][..k - 1] && ss[k + 1..] == ss[1..][k..]; }
  }
}
