/** The UART coprocessor: a receive thread, a transmit thread and the processor over two
    mailboxes, interleaved between any two accesses to shared state. */
module Uart {
  import opened Words

  const FIFO_LEN := 16

  type byte = x: int | 0 <= x < 256

  /** Where the receive thread is: polling; a byte in hand; queue length looked up; about to post. */
  datatype Rx = Polling | Holding | Measured(used: nat) | Posting

  /** Where the transmit thread is: about to ask for a message; blocked in the timed wait, signalled
      or not; about to write a byte. */
  datatype Tx = Asking | Blocked(signalled: bool) | Sending(c: byte)

  /** Where the processor is: between commands; behind the length check of SEND or of RECV. */
  datatype Cpu = Ready | SendChecked(c: byte) | RecvChecked

  /** `hand` is the receive thread's character variable. The last four fields are histories: bytes
      the line delivered, bytes the thread took for read, SEND bytes accepted, bytes written out
      and bytes received by RECV. */
  datatype Uart = Uart(
    inBox: seq<byte>, outBox: seq<byte>, fifoEn: bool, val: word,
    rx: Rx, hand: byte, tx: Tx, cpu: Cpu,
    arrived: seq<byte>, seen: seq<byte>, accepted: seq<byte>, transmitted: seq<byte>, received: seq<byte>)

  datatype Step =
    | RxRead(c: byte)      // read returns a byte
    | RxInterrupted        // read fails with EINTR and the old byte is used again
    | RxMeasure
    | RxDecide
    | RxPost
    | TxAsk
    | TxWake               // the timed wait returns 0
    | TxTimeout
    | TxWrite
    | CpuSend
    | CpuSendPost
    | CpuRecv
    | CpuRecvGet
    | CpuTxUsed
    | CpuRxUsed
    | CpuFifos(on: bool)
    | CpuWrite(v: word)    // a bus write to the value register

  predicate Enabled(u: Uart, s: Step) {
    match s
    case RxRead(_) => u.rx == Polling
    case RxInterrupted => u.rx == Polling
    case RxMeasure => u.rx == Holding
    case RxDecide => u.rx.Measured?
    case RxPost => u.rx == Posting
    case TxAsk => u.tx == Asking
    case TxWake => u.tx == Blocked(true)
    case TxTimeout => u.tx.Blocked?
    case TxWrite => u.tx.Sending?
    case CpuSendPost => u.cpu.SendChecked?
    case CpuRecvGet => u.cpu.RecvChecked?
    case _ => u.cpu == Ready
  }

  /** A char in a register: C sign-extends it. */
  function Widen(c: byte): word { if c < 128 then c else 0xFF00 + c }

  /** A transmit thread takes the first queued message. The list would hand out its header if there
      were none, so this step is only defined on a nonempty box. */
  predicate Safe(u: Uart, s: Step) {
    (s.TxWake? ==> u.outBox != []) && (s.CpuRecvGet? ==> u.inBox != [])
  }

  function Next(u: Uart, s: Step): Uart
    requires Enabled(u, s) && Safe(u, s)
  {
    match s
    case RxRead(c) => u.(rx := Holding, hand := c, arrived := u.arrived + [c], seen := u.seen + [c])
    case RxInterrupted => u.(rx := Holding, seen := u.seen + [u.hand])
    case RxMeasure => u.(rx := Measured(|u.inBox|))
    case RxDecide =>
      u.(rx := if (u.fifoEn && u.rx.used < FIFO_LEN) || u.rx.used == 0 then Posting else Polling)
    case RxPost => u.(rx := Polling, inBox := u.inBox + [u.hand])
    case TxAsk =>
      if u.outBox == [] then u.(tx := Blocked(false))
      else u.(tx := Sending(u.outBox[0]), outBox := u.outBox[1..])
    case TxWake => u.(tx := Sending(u.outBox[0]), outBox := u.outBox[1..])
    case TxTimeout => u.(tx := Asking)
    case TxWrite => u.(tx := Asking, transmitted := u.transmitted + [u.tx.c])
    case CpuSend =>
      if |u.outBox| < FIFO_LEN then u.(cpu := SendChecked(u.val % 256), accepted := u.accepted + [u.val % 256])
      else u
    case CpuSendPost =>
      u.(cpu := Ready, outBox := u.outBox + [u.cpu.c], tx := if u.tx.Blocked? then Blocked(true) else u.tx)
    case CpuRecv => if u.inBox != [] then u.(cpu := RecvChecked) else u
    case CpuRecvGet =>
      u.(cpu := Ready, inBox := u.inBox[1..], val := Widen(u.inBox[0]), received := u.received + [u.inBox[0]])
    case CpuTxUsed => u.(val := Wrap(|u.outBox|))
    case CpuRxUsed => u.(val := Wrap(|u.inBox|))
    case CpuFifos(on) => u.(fifoEn := on)
    case CpuWrite(v) => u.(val := v)
  }

  const START := Uart([], [], false, 0, Polling, 0, Asking, Ready, [], [], [], [], [])

  // ----- what every interleaving keeps -----

  /** Bytes accepted and not yet written out, oldest first. */
  function InFlight(u: Uart): seq<byte> {
    (if u.tx.Sending? then [u.tx.c] else []) + u.outBox + (if u.cpu.SendChecked? then [u.cpu.c] else [])
  }

  /** Bytes posted for the processor and not yet received, oldest first. */
  function Waiting(u: Uart): seq<byte> { u.inBox + if u.rx == Posting then [u.hand] else [] }

  /** A length looked up stays an upper bound: only the thread that looked adds to its box. */
  ghost predicate Bounded(u: Uart) {
    && |u.inBox| <= FIFO_LEN && |u.outBox| <= FIFO_LEN
    && (u.rx.Measured? ==> |u.inBox| <= u.rx.used) && (u.rx == Posting ==> |u.inBox| < FIFO_LEN)
    && (u.cpu.SendChecked? ==> |u.outBox| < FIFO_LEN) && (u.cpu.RecvChecked? ==> u.inBox != [])
    && (u.tx.Blocked? ==> (u.tx.signalled <==> u.outBox != []))
  }

  ghost predicate Conserved(u: Uart) {
    u.accepted == u.transmitted + InFlight(u)
  }

  /** s is t with some elements left out, each kept element once and in order. */
  ghost predicate Subsequence(s: seq<byte>, t: seq<byte>) {
    if s == [] then true
    else
      && t != []
      && (|| (s[|s| - 1] == t[|t| - 1] && Subsequence(s[..|s| - 1], t[..|t| - 1]))
          || Subsequence(s, t[..|t| - 1]))
  }

  lemma SubsequenceGrow(s: seq<byte>, t: seq<byte>, c: byte)
    requires Subsequence(s, t)
    ensures Subsequence(s, t + [c]) && Subsequence(s + [c], t + [c])
  {
    assert (t + [c])[..|t|] == t && (s + [c])[..|s|] == s;
  }

  /** All but the byte in hand while it is undecided. */
  function Decided(u: Uart): seq<byte> {
    if u.rx == Polling || u.seen == [] then u.seen else u.seen[..|u.seen| - 1]
  }

  ghost predicate InOrder(u: Uart) {
    && (u.rx != Polling ==> u.seen != [] && u.seen[|u.seen| - 1] == u.hand)
    && Subsequence(u.received + u.inBox, Decided(u))
  }

  ghost predicate Sound(u: Uart) { Bounded(u) && Conserved(u) && InOrder(u) }

  lemma BoundedStep(u: Uart, s: Step)
    requires Bounded(u) && Enabled(u, s)
    ensures Safe(u, s) && Bounded(Next(u, s))
  {
  }

  lemma ConservedTransmit(u: Uart, s: Step)
    requires Conserved(u) && Enabled(u, s) && Safe(u, s) && (s.TxAsk? || s.TxWake? || s.TxWrite?)
    ensures Conserved(Next(u, s))
  {
    var v := Next(u, s);
    if s.TxWrite? {
      assert InFlight(u) == [u.tx.c] + InFlight(v);
    } else {
      assert InFlight(v) == InFlight(u);
    }
  }

  lemma ConservedSend(u: Uart, s: Step)
    requires Conserved(u) && Enabled(u, s) && Safe(u, s) && (s.CpuSend? || s.CpuSendPost?)
    ensures Conserved(Next(u, s))
  {
    var v := Next(u, s);
    if s.CpuSend? && v != u {
      assert InFlight(v) == InFlight(u) + [u.val % 256];
    } else {
      assert InFlight(v) == InFlight(u);
    }
  }

  lemma ConservedOther(u: Uart, s: Step)
    requires Conserved(u) && Enabled(u, s) && Safe(u, s)
    requires !(s.TxAsk? || s.TxWake? || s.TxWrite? || s.CpuSend? || s.CpuSendPost?)
    ensures Conserved(Next(u, s))
  {
    hide Widen;
    assert InFlight(Next(u, s)) == InFlight(u);
  }

  lemma ConservedStep(u: Uart, s: Step)
    requires Conserved(u) && Enabled(u, s) && Safe(u, s)
    ensures Conserved(Next(u, s))
  {
    hide Conserved, Next, Safe, Enabled;
    if s.TxAsk? || s.TxWake? || s.TxWrite? {
      ConservedTransmit(u, s);
    } else if s.CpuSend? || s.CpuSendPost? {
      ConservedSend(u, s);
    } else {
      ConservedOther(u, s);
    }
  }

  lemma InOrderReceive(u: Uart, s: Step)
    requires InOrder(u) && Enabled(u, s) && Safe(u, s)
    requires s.RxRead? || s.RxInterrupted? || s.RxMeasure? || s.RxDecide? || s.RxPost?
    ensures InOrder(Next(u, s))
  {
    hide Subsequence, Widen;
    var v := Next(u, s);
    match s {
      case RxRead(c) => assert v.seen[..|u.seen|] == u.seen;
      case RxInterrupted => assert v.seen[..|u.seen|] == u.seen;
      case RxDecide =>
        assert u.seen == Decided(u) + [u.hand];
        SubsequenceGrow(u.received + u.inBox, Decided(u), u.hand);
      case RxPost =>
        assert u.seen == Decided(u) + [u.hand];
        assert v.received + v.inBox == (u.received + u.inBox) + [u.hand];
        SubsequenceGrow(u.received + u.inBox, Decided(u), u.hand);
      case RxMeasure =>
    }
  }

  lemma InOrderOther(u: Uart, s: Step)
    requires InOrder(u) && Enabled(u, s) && Safe(u, s)
    requires !(s.RxRead? || s.RxInterrupted? || s.RxMeasure? || s.RxDecide? || s.RxPost?)
    ensures InOrder(Next(u, s))
  {
    hide Subsequence, Widen;
    var v := Next(u, s);
    assert v.received + v.inBox == u.received + u.inBox;
  }

  lemma InOrderStep(u: Uart, s: Step)
    requires InOrder(u) && Enabled(u, s) && Safe(u, s)
    ensures InOrder(Next(u, s))
  {
    hide InOrder, Next, Safe, Enabled;
    if s.RxRead? || s.RxInterrupted? || s.RxMeasure? || s.RxDecide? || s.RxPost? {
      InOrderReceive(u, s);
    } else {
      InOrderOther(u, s);
    }
  }

  // ----- runs -----

  ghost predicate Run(u: Uart, ss: seq<Step>, t: Uart)
    decreases |ss|
  {
    if ss == [] then t == u else Enabled(u, ss[0]) && Safe(u, ss[0]) && Run(Next(u, ss[0]), ss[1..], t)
  }

  lemma {:induction false} SoundRun(u: Uart, ss: seq<Step>, t: Uart)
    requires Sound(u) && Run(u, ss, t)
    ensures Sound(t)
    decreases |ss|
  {
    hide Bounded, Conserved, InOrder, Next;
    if ss != [] {
      BoundedStep(u, ss[0]);
      ConservedStep(u, ss[0]);
      InOrderStep(u, ss[0]);
      SoundRun(Next(u, ss[0]), ss[1..], t);
    }
  }

  /** In every interleaving both queues hold at most 16 bytes and no step takes from an empty one; a
      timed wait that returned 0 would find a byte exactly when it has been signalled;
      bytes written out, then bytes in flight, are the accepted SEND bytes in order; RECV yields
      bytes the receive thread saw, in order, each once. */
  lemma UartSafety(ss: seq<Step>, t: Uart)
    requires Run(START, ss, t)
    ensures |t.inBox| <= 16 && |t.outBox| <= 16
    ensures forall s :: Enabled(t, s) ==> Safe(t, s)
    ensures t.tx.Blocked? ==> (t.tx.signalled <==> t.outBox != [])
    ensures t.accepted == t.transmitted + InFlight(t)
    ensures Subsequence(t.received + t.inBox, t.seen)
  {
    SoundRun(START, ss, t);
    forall s | Enabled(t, s) ensures Safe(t, s) { BoundedStep(t, s); }
    if t.rx != Polling {
      assert t.seen == Decided(t) + [t.hand];
      SubsequenceGrow(t.received + t.inBox, Decided(t), t.hand);
    }
  }

  function Interruptions(ss: seq<Step>): nat {
    if ss == [] then 0 else (if ss[0].RxInterrupted? then 1 else 0) + Interruptions(ss[1..])
  }

  lemma {:induction false} SeenIsArrived(u: Uart, ss: seq<Step>, t: Uart)
    requires Run(u, ss, t)
    ensures |t.seen| - |t.arrived| == |u.seen| - |u.arrived| + Interruptions(ss)
    ensures Interruptions(ss) == 0 && u.seen == u.arrived ==> t.seen == t.arrived
    decreases |ss|
  {
    if ss != [] { SeenIsArrived(Next(u, ss[0]), ss[1..], t); }
  }

  /** What the thread saw is what arrived exactly when no read was interrupted. */
  lemma SeenIsArrivedIff(ss: seq<Step>, t: Uart)
    requires Run(START, ss, t)
    ensures t.seen == t.arrived <==> Interruptions(ss) == 0
  {
    SeenIsArrived(START, ss, t);
  }

  /** A byte in hand can travel straight into the value register. */
  lemma HandIsReceived(u: Uart) returns (ss: seq<Step>, t: Uart)
    requires u.rx == Holding && u.cpu == Ready && u.inBox == []
    ensures Run(u, ss, t) && t == u.(rx := Polling, val := Widen(u.hand), received := u.received + [u.hand])
  {
    hide Run, Widen;
    var u2 := Next(u, RxMeasure);
    var u3 := Next(u2, RxDecide);
    var u4 := Next(u3, RxPost);
    var u5 := Next(u4, CpuRecv);
    t := Next(u5, CpuRecvGet);
    ss := RunNothing(t);
    ss := RunPrepend(u5, CpuRecvGet, ss, t);
    ss := RunPrepend(u4, CpuRecv, ss, t);
    ss := RunPrepend(u3, RxPost, ss, t);
    ss := RunPrepend(u2, RxDecide, ss, t);
    ss := RunPrepend(u, RxMeasure, ss, t);
  }

  lemma RunNothing(t: Uart) returns (r: seq<Step>)
    ensures r == [] && Run(t, r, t)
  {
    r := [];
  }

  lemma RunPrepend(u: Uart, s: Step, ss: seq<Step>, t: Uart) returns (r: seq<Step>)
    requires Enabled(u, s) && Safe(u, s) && Run(Next(u, s), ss, t)
    ensures r == [s] + ss && Run(u, r, t)
  {
    r := [s] + ss;
    assert r[1..] == ss;
  }

  lemma {:induction false} RunAppend(u: Uart, ss: seq<Step>, t: Uart, rs: seq<Step>, v: Uart)
    requires Run(u, ss, t) && Run(t, rs, v)
    ensures Run(u, ss + rs, v)
    decreases |ss|
  {
    hide Next, Enabled, Safe;
    if ss == [] {
      assert ss + rs == rs;
    } else {
      assert (ss + rs)[1..] == ss[1..] + rs;
      RunAppend(Next(u, ss[0]), ss[1..], t, rs, v);
    }
  }

  /** An interrupted read is enough to receive a byte twice that arrived once. */
  lemma InterruptedReadDuplicates(c: byte) returns (ss: seq<Step>, t: Uart)
    ensures Run(START, ss, t) && t.arrived == [c] && t.received == [c, c]
  {
    hide Run, Widen;
    var u := Next(START, RxRead(c));
    var once, v := HandIsReceived(u);
    var w := Next(v, RxInterrupted);
    var twice, z := HandIsReceived(w);
    t := z;
    ss := RunPrepend(v, RxInterrupted, twice, t);
    RunAppend(u, once, v, ss, t);
    ss := RunPrepend(START, RxRead(c), once + ss, t);
  }
}
