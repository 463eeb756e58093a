/** The coprocessors by the numbers of their registers and commands. */
module Devices {
  import opened Words
  import opened Isa
  import opened Manual
  import opened Accesses
  import L = UartLine
  import N = Nvram
  import T = Timer
  import U = Uart

  // ----- timer -----

  /** One cycle whose word is mtcp or cpop to coprocessor 0: the timer ticks, and then a written register
      takes rD; operation 1 lowers the line before the tick. */
  lemma TimerWords(y: T.System, o: T.Outside, w: word)
    requires Due(y.p, w) && w / 2048 in {0x1A, 0x1B} && w / 32 % 8 == 0
    ensures var t, x, v := T.Clock(y, o.others, o.cp, o.wide).t, w % 32, R(y.p.s, w / 256 % 8);
            if w / 2048 == 0x1B then t == T.Tick(if v == 1 then y.t.(line := false) else y.t)
            else
              var u := T.Tick(y.t);
              && t.line == u.line && t.ctl == (if x == 0 then v else u.ctl)
              && t.lo == (if x == 1 then v else u.lo) && t.hi == (if x == 2 then v else u.hi)
  {
    hide Due, R, T.Tick;
    BusByNumber(y.p, w);
  }

  /** A timer switched on by digit 0 of register 0 fires at the number in registers 2 and 1, with 65536
      for a zero low half, and not before. */
  lemma TimerFires(t: T.Timer, v: word, n: nat)
    requires v % 2 == 1 && !t.line
    ensures T.Ticks(t.(ctl := v), n).line <==> n >= 0x1_0000 * t.hi + if t.lo == 0 then 0x1_0000 else t.lo
  {
    hide T.Ticks;
    T.FiresExactlyOnce(t.(ctl := v), n);
  }

  // ----- NVRAM -----

  /** Nothing is under way, register 1 is 0 and the number in registers 3 and 2 is below the length in bytes. */
  predicate Idle(s: N.Nv) {
    s.job.None? && s.regs[1] == 0 && 0x1_0000 * s.regs[3] + s.regs[2] < 2 * |s.cells|
  }

  lemma IdleAccepts(s: N.Nv, code: word)
    requires code in {1, 2}
    ensures Idle(s) <==> N.Accepts(s, code)
  {
  }

  lemma JobTicks(s: N.Nv, code: word, es: seq<N.Event>)
    requires code in {1, 2} && Idle(s) && N.TicksIn(es) == 2
    ensures var t := N.Run(s, [N.Op(code)] + es); var j := N.NewJob(s, code);
            t.cells == s.cells && t.job == Some(j.(left := 1))
            && N.Run(s, [N.Op(code)] + es + [N.Tick]) == N.Effect(t, j.(left := 1))
  {
    hide N.Effect, Idle;
    IdleAccepts(s, code);
    assert ([N.Op(code)] + es)[1..] == es;
    assert N.Run(s, [N.Op(code)] + es) == N.Run(N.Told(s, code), es);
    N.PendingIsUndisturbed(N.Told(s, code), es);
    N.RunSnoc(s, [N.Op(code)] + es, N.Tick);
  }

  /** Command 2: with the third tick the cell that register 2 named holds what register 4 held, register 1
      is 5, and the line is up if digit 1 of register 0 is set; 6 and no cell beyond the end. */
  lemma WriteTakesEffect(s: N.Nv, es: seq<N.Event>)
    requires Idle(s) && N.TicksIn(es) == 2
    ensures var t := N.Run(s, [N.Op(2)] + es); var u := N.Run(s, [N.Op(2)] + es + [N.Tick]); var a := s.regs[2];
            && t.cells == s.cells && u.cells == (if a < |s.cells| then s.cells[a := s.regs[4]] else s.cells)
            && u.regs == t.regs[1 := if a < |s.cells| then 5 else 6]
            && (u.line <==> t.line || t.regs[0] / 2 % 2 == 1)
  {
    hide Idle, N.Run;
    JobTicks(s, 2, es);
  }

  /** Command 1: register 4 becomes that cell and register 1 is 2, or 3 beyond the end; digit 0 raises the
      line. */
  lemma ReadTakesEffect(s: N.Nv, es: seq<N.Event>)
    requires Idle(s) && N.TicksIn(es) == 2
    ensures var t := N.Run(s, [N.Op(1)] + es); var u := N.Run(s, [N.Op(1)] + es + [N.Tick]); var a := s.regs[2];
            && t.cells == s.cells && u.cells == s.cells
            && u.regs == (if a < |s.cells| then t.regs[4 := s.cells[a]][1 := 2] else t.regs[1 := 3])
            && (u.line <==> t.line || t.regs[0] % 2 == 1)
  {
    hide Idle, N.Run;
    JobTicks(s, 1, es);
  }

  /** The other commands of a unit with nothing under way: 3 acknowledges, 4 and 5 give the length in bytes,
      and 1 and 2 are refused with 3 and 6 when register 1 is 0 and the number is too large. */
  lemma NvramCommands(s: N.Nv, code: word)
    requires s.job.None? && !(code in {1, 2} && Idle(s))
    ensures var t := N.Next(s, N.Op(code));
            && t.cells == s.cells && t.job.None? && (t.line <==> s.line && code != 3)
            && t.regs ==
               if code in {1, 2} && s.regs[1] == 0 then s.regs[1 := 3 * code]
               else if code == 3 then s.regs[1 := 0]
               else if code == 4 then s.regs[4 := 2 * |s.cells| % 0x1_0000]
               else if code == 5 then s.regs[4 := 2 * |s.cells| / 0x1_0000 % 0x1_0000]
               else s.regs
  {
  }

  lemma {:induction false} NoneToIt(ws: seq<(word, word)>, a: nat, first: word)
    requires forall w :: w in ws ==> w.0 != a
    ensures N.LastTo(ws, a, first) == first
  {
    if ws != [] { NoneToIt(ws[..|ws| - 1], a, first); }
  }

  /** A run in which no write reaches cell a leaves it. */
  lemma CellKept(s: N.Nv, es: seq<N.Event>, a: nat)
    requires a < |s.cells| && forall w :: w in N.Completed(s, es) ==> w.0 != a
    ensures var t := N.Run(s, es); |t.cells| == |s.cells| && t.cells[a] == s.cells[a]
  {
    hide N.Run, N.Completed;
    N.ArrayIsItsWrites(s, es);
    N.StoreIsLast(s.cells, N.Completed(s, es), a);
    NoneToIt(N.Completed(s, es), a, s.cells[a]);
  }

  /** What command 2 has written, command 1 reads back over any run between in which no write reaches the
      same cell. */
  lemma WrittenReadsBack(s: N.Nv, es: seq<N.Event>, between: seq<N.Event>, fs: seq<N.Event>)
    requires Idle(s) && N.TicksIn(es) == 2 && s.regs[2] < |s.cells| && N.TicksIn(fs) == 2
    requires var u := N.Run(s, [N.Op(2)] + es + [N.Tick]); var v := N.Run(u, between);
             && (forall w :: w in N.Completed(u, between) ==> w.0 != s.regs[2])
             && Idle(v) && v.regs[2] == s.regs[2]
    ensures var v := N.Run(N.Run(s, [N.Op(2)] + es + [N.Tick]), between);
            N.Run(v, [N.Op(1)] + fs + [N.Tick]).regs[4] == s.regs[4]
  {
    hide Idle, N.Run, N.Completed;
    var u := N.Run(s, [N.Op(2)] + es + [N.Tick]);
    WriteTakesEffect(s, es);
    CellKept(u, between, s.regs[2]);
    ReadTakesEffect(N.Run(u, between), fs);
  }

  // ----- UART line -----

  /** Commands 5 and 6 let the sources raise the line again, and 10 lowers it. */
  lemma UartLineCommands(l: L.Latch, ctl: word, inLen: nat, outLen: nat)
    ensures inLen > 0 && ctl / 2 % 2 == 1 ==> L.Next(L.Told(l, 6), L.Data(ctl, inLen, outLen)).line
    ensures outLen < 16 && ctl % 2 == 1 ==> L.Next(L.Told(l, 5), L.Data(ctl, inLen, outLen)).line
    ensures !L.Told(l, 10).line && !L.Told(l, 10).line && (forall c :: c != 10 ==> L.Told(l, c).line == l.line)
    ensures L.Told(l, 10) == l.(line := false) && L.Told(l, 5).rxRaised == l.rxRaised
            && L.Told(l, 6).txRaised == l.txRaised
  {
  }

  // ----- UART commands -----

  /** The step that a command starts, of those about the boxes and the value register. */
  function Begun(code: word): Option<U.Step> {
    match code
    case 1 => Some(U.CpuSend)
    case 2 => Some(U.CpuRecv)
    case 3 => Some(U.CpuTxUsed)
    case 4 => Some(U.CpuRxUsed)
    case 8 => Some(U.CpuFifos(true))
    case 9 => Some(U.CpuFifos(false))
    case _ => None
  }

  /** A command run to its end with nothing in between. */
  function Whole(u: U.Uart, code: word): U.Uart
    requires U.Bounded(u) && u.cpu == U.Ready
  {
    match Begun(code)
    case None => u
    case Some(s) =>
      U.BoundedStep(u, s);
      var v := U.Next(u, s);
      if v.cpu.SendChecked? then U.Next(v, U.CpuSendPost)
      else if v.cpu.RecvChecked? then
        U.BoundedStep(v, U.CpuRecvGet);
        U.Next(v, U.CpuRecvGet)
      else v
  }

  lemma WidenSigned(c: U.byte)
    ensures Sext(U.Widen(c), 0x1_0000) == Sext(c, 256)
  {
  }

  /** Command 1 sends the low byte of the value register if fewer than 16 bytes wait. */
  lemma SendCommand(u: U.Uart)
    requires U.Bounded(u) && u.cpu == U.Ready
    ensures var v := Whole(u, 1);
            if |u.outBox| < 16 then
              v == u.(outBox := u.outBox + [u.val % 256], accepted := u.accepted + [u.val % 256], tx := v.tx)
              && (if u.tx.Blocked? then v.tx == U.Blocked(true) else v.tx == u.tx)
            else v == u
  {
  }

  /** Command 2 takes the oldest byte that waits: the value register is the byte as a signed number. */
  lemma ReceiveCommand(u: U.Uart)
    requires U.Bounded(u) && u.cpu == U.Ready
    ensures var v := Whole(u, 2);
            if u.inBox == [] then v == u
            else
              && v == u.(inBox := u.inBox[1..], received := u.received + [u.inBox[0]], val := v.val)
              && Sext(v.val, 0x1_0000) == Sext(u.inBox[0], 256)
  {
    hide U.Widen;
    if u.inBox != [] { WidenSigned(u.inBox[0]); }
  }

  /** Commands 3 and 4 count the bytes that wait to be sent and to be received, 8 and 9 switch the queues
      on and off, and numbers from 11 on do nothing. */
  lemma CountCommands(u: U.Uart, code: word)
    requires U.Bounded(u) && u.cpu == U.Ready
    ensures Whole(u, 3) == u.(val := |u.outBox|) && Whole(u, 4) == u.(val := |u.inBox|)
    ensures Whole(u, 8) == u.(fifoEn := true) && Whole(u, 9) == u.(fifoEn := false)
    ensures code == 0 || code >= 11 ==> Whole(u, code) == u
  {
  }

  // ----- the same with the threads in between -----

  predicate SetsValue(s: U.Step) { s.CpuRecvGet? || s.CpuTxUsed? || s.CpuRxUsed? || s.CpuWrite? }

  predicate Undisturbed(ss: seq<U.Step>) { forall k :: 0 <= k < |ss| ==> !SetsValue(ss[k]) }

  /** Between the commands and bus writes that set it, nothing moves the value register, and while RECV
      has looked but not taken, nothing moves the byte it will take. */
  lemma {:induction false} ValueKept(u: U.Uart, ss: seq<U.Step>, t: U.Uart)
    requires U.Run(u, ss, t) && Undisturbed(ss)
    ensures t.val == u.val && t.received == u.received
    ensures u.inBox != [] ==> t.inBox != [] && t.inBox[0] == u.inBox[0]
    ensures u.cpu.RecvChecked? ==> t.cpu.RecvChecked?
    decreases |ss|
  {
    hide U.Next, U.Enabled, U.Safe;
    if ss != [] {
      OneKept(u, ss[0]);
      assert forall k :: 0 <= k < |ss| - 1 ==> ss[1..][k] == ss[k + 1];
      ValueKept(U.Next(u, ss[0]), ss[1..], t);
    }
  }

  lemma OneKept(u: U.Uart, s: U.Step)
    requires U.Enabled(u, s) && U.Safe(u, s) && !SetsValue(s)
    ensures var t := U.Next(u, s);
            && t.val == u.val && t.received == u.received
            && (u.inBox != [] ==> t.inBox != [] && t.inBox[0] == u.inBox[0])
            && (u.cpu.RecvChecked? ==> t.cpu.RecvChecked?)
  {
    hide U.Widen;
  }

  /** RECV on a nonempty box: whatever the threads do between its check and its get, and between its get
      and the moment the program looks, the value register is the byte that was first in the box, as a
      signed number, and that byte is the last one received. */
  lemma ReceivedIsRead(u: U.Uart, ss: seq<U.Step>, t: U.Uart, rs: seq<U.Step>, v: U.Uart)
    requires U.Enabled(u, U.CpuRecv) && u.inBox != []
    requires U.Run(U.Next(u, U.CpuRecv), ss, t) && Undisturbed(ss) && U.Safe(t, U.CpuRecvGet)
    requires t.cpu == U.RecvChecked && U.Run(U.Next(t, U.CpuRecvGet), rs, v) && Undisturbed(rs)
    ensures Sext(v.val, 0x1_0000) == Sext(u.inBox[0], 256) && v.received == u.received + [u.inBox[0]]
  {
    hide U.Run, U.Widen, Undisturbed;
    ValueKept(U.Next(u, U.CpuRecv), ss, t);
    ValueKept(U.Next(t, U.CpuRecvGet), rs, v);
    WidenSigned(u.inBox[0]);
  }

  /** SEND behind a bus write: what is accepted is the low byte of the word written. */
  lemma SentIsWritten(u: U.Uart, word: word, ss: seq<U.Step>, t: U.Uart)
    requires U.Enabled(u, U.CpuWrite(word)) && U.Run(U.Next(u, U.CpuWrite(word)), ss, t) && Undisturbed(ss)
    requires t.cpu == U.Ready
    ensures U.Next(t, U.CpuSend).accepted == if |t.outBox| < 16 then t.accepted + [word % 256] else t.accepted
  {
    hide U.Run, Undisturbed;
    ValueKept(U.Next(u, U.CpuWrite(word)), ss, t);
  }

  /** In every run the counts are exact: the first is the bytes accepted and not yet taken for writing. */
  lemma CountsAreExact(ss: seq<U.Step>, t: U.Uart)
    requires U.Run(U.START, ss, t) && t.cpu == U.Ready
    ensures U.Next(t, U.CpuTxUsed).val == |t.outBox| <= 16 && U.Next(t, U.CpuRxUsed).val == |t.inBox| <= 16
    ensures |t.outBox| == |t.accepted| - |t.transmitted| - if t.tx.Sending? then 1 else 0
  {
    hide U.Run, U.Subsequence;
    U.UartSafety(ss, t);
  }

  /** A byte from the line joins the queue exactly when fewer than 16 wait, or none without the queues. */
  lemma ArrivalQueued(u: U.Uart, c: U.byte)
    requires u.rx == U.Polling
    ensures var v := U.Next(U.Next(U.Next(u, U.RxRead(c)), U.RxMeasure), U.RxDecide);
            if |u.inBox| < (if u.fifoEn then 16 else 1)
            then v.rx == U.Posting && U.Next(v, U.RxPost).inBox == u.inBox + [c]
            else v.rx == U.Polling && v.inBox == u.inBox
  {
  }
}
