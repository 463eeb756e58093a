/** The steps of the UART's threads on the mailboxes themselves. */
module UartBoxes {
  import opened Words
  import opened Dlist
  import opened Mbox
  import U = Uart

  /** The transmit thread is the one consumer that waits, and only on its own box. */
  function OutBox(u: U.Uart): Box { Box(u.outBox, if u.tx.Blocked? then 1 else 0) }

  function InBox(u: U.Uart): Box { Box(u.inBox, 0) }

  ghost predicate Shows(m: Mailbox, b: Box)
    reads m, m.messages, m.messages.Ring(), m.messages.nodes
  {
    m.Valid() && m.View() == b
  }

  /** Two mailboxes have no node in common, since a node has one owner: what a step does to one of them
      leaves the other alone. */
  lemma Apart(a: Mailbox, b: Mailbox)
    requires a.Valid() && b.Valid() && a.messages != b.messages
    ensures forall n :: n in a.messages.Ring() ==> n !in b.messages.Ring()
  {
  }

  // ----- steps on the box of received bytes -----

  method ReceiveMeasure(inBox: Mailbox, ghost u: U.Uart) returns (used: nat)
    requires Shows(inBox, InBox(u)) && U.Enabled(u, U.RxMeasure)
    ensures U.Next(u, U.RxMeasure) == u.(rx := U.Measured(used))
  {
    hide List.Valid;
    used := inBox.Len();
  }

  method ReceivePost(inBox: Mailbox, c: U.byte, ghost u: U.Uart)
    requires Shows(inBox, InBox(u)) && U.Enabled(u, U.RxPost) && c == u.hand
    modifies inBox`len, inBox.messages`nodes, inBox.messages.Ring()
    ensures Shows(inBox, InBox(U.Next(u, U.RxPost))) && OutBox(U.Next(u, U.RxPost)) == OutBox(u)
  {
    hide List.Valid;
    var m := new Node(c);
    var signal := inBox.Post(m);
  }

  method Receive(inBox: Mailbox, ghost u: U.Uart) returns (some: bool)
    requires Shows(inBox, InBox(u)) && U.Enabled(u, U.CpuRecv)
    ensures U.Next(u, U.CpuRecv) == if some then u.(cpu := U.RecvChecked) else u
  {
    hide List.Valid;
    var n := inBox.Len();
    some := n != 0;
  }

  method ReceiveGet(inBox: Mailbox, ghost u: U.Uart) returns (m: Node)
    requires Shows(inBox, InBox(u)) && U.Enabled(u, U.CpuRecvGet) && U.Safe(u, U.CpuRecvGet)
    modifies inBox`len, inBox.messages`nodes, inBox.messages.Ring()
    ensures Shows(inBox, InBox(U.Next(u, U.CpuRecvGet))) && OutBox(U.Next(u, U.CpuRecvGet)) == OutBox(u)
    ensures U.Next(u, U.CpuRecvGet).received == u.received + [m.c]
    ensures Sext(U.Next(u, U.CpuRecvGet).val, 0x1_0000) == Sext(m.c, 256)
  {
    hide List.Valid, U.Next;
    Got(u);
    m := inBox.Get();
  }

  lemma Got(u: U.Uart)
    requires U.Enabled(u, U.CpuRecvGet) && U.Safe(u, U.CpuRecvGet)
    ensures InBox(U.Next(u, U.CpuRecvGet)) == Taken(InBox(u)) && OutBox(U.Next(u, U.CpuRecvGet)) == OutBox(u)
    ensures U.Next(u, U.CpuRecvGet).received == u.received + [u.inBox[0]]
    ensures Sext(U.Next(u, U.CpuRecvGet).val, 0x1_0000) == Sext(u.inBox[0], 256)
  {
  }

  // ----- steps on the box of bytes to send -----

  method Send(outBox: Mailbox, ghost u: U.Uart) returns (room: bool)
    requires Shows(outBox, OutBox(u)) && U.Enabled(u, U.CpuSend)
    ensures U.Next(u, U.CpuSend).cpu == if room then U.SendChecked(u.val % 256) else U.Ready
  {
    hide List.Valid;
    var n := outBox.Len();
    room := n < U.FIFO_LEN;
  }

  /** The signal goes out exactly when the transmit thread is blocked. */
  method SendPost(outBox: Mailbox, c: U.byte, ghost u: U.Uart) returns (signal: bool)
    requires Shows(outBox, OutBox(u)) && U.Enabled(u, U.CpuSendPost) && c == u.cpu.c
    modifies outBox`len, outBox.messages`nodes, outBox.messages.Ring()
    ensures Shows(outBox, OutBox(U.Next(u, U.CpuSendPost))) && InBox(U.Next(u, U.CpuSendPost)) == InBox(u)
    ensures signal <==> u.tx.Blocked?
  {
    hide List.Valid;
    var m := new Node(c);
    signal := outBox.Post(m);
  }

  method TransmitAsk(outBox: Mailbox, ghost u: U.Uart) returns (m: Node?)
    requires Shows(outBox, OutBox(u)) && U.Enabled(u, U.TxAsk)
    modifies outBox`len, outBox`waiting, outBox.messages`nodes, outBox.messages.Ring()
    ensures Shows(outBox, OutBox(U.Next(u, U.TxAsk))) && InBox(U.Next(u, U.TxAsk)) == InBox(u)
    ensures m == null <==> U.Next(u, U.TxAsk).tx == U.Blocked(false)
    ensures m != null ==> U.Next(u, U.TxAsk).tx.Sending? && U.Next(u, U.TxAsk).tx.c == m.c
  {
    hide List.Valid;
    m := outBox.BeginWait();
  }

  method TransmitWake(outBox: Mailbox, ghost u: U.Uart) returns (m: Node?)
    requires Shows(outBox, OutBox(u)) && U.Enabled(u, U.TxWake) && U.Safe(u, U.TxWake)
    modifies outBox`len, outBox`waiting, outBox.messages`nodes, outBox.messages.Ring()
    ensures Shows(outBox, OutBox(U.Next(u, U.TxWake))) && InBox(U.Next(u, U.TxWake)) == InBox(u)
    ensures m != null && U.Next(u, U.TxWake).tx.Sending? && U.Next(u, U.TxWake).tx.c == m.c
  {
    hide List.Valid;
    m := outBox.EndTimedWait(0);
  }

  method TransmitTimeout(outBox: Mailbox, status: int, ghost u: U.Uart) returns (m: Node?)
    requires Shows(outBox, OutBox(u)) && U.Enabled(u, U.TxTimeout) && status != 0
    modifies outBox`len, outBox`waiting, outBox.messages`nodes, outBox.messages.Ring()
    ensures Shows(outBox, OutBox(U.Next(u, U.TxTimeout))) && InBox(U.Next(u, U.TxTimeout)) == InBox(u)
    ensures m == null
  {
    hide List.Valid;
    m := outBox.EndTimedWait(status);
  }
}
