/** The mailbox: a first-in first-out queue under one lock and one condition variable. */
module Mbox {
  import opened Dlist
  import opened Words

  /** What the lock protects. */
  datatype Box = Box(queue: seq<int>, waiting: nat)

  function Posted(b: Box, c: int): Box { b.(queue := b.queue + [c]) }

  function Taken(b: Box): Box
    requires b.queue != []
  {
    b.(queue := b.queue[1..])
  }

  /** size_t */
  const SIZE_MAX := 0xFFFF_FFFF_FFFF_FFFF

  class Mailbox {
    const messages: List
    var len: nat
    var waiting: nat

    ghost predicate Valid()
      reads this, messages, messages.Ring()
    {
      messages.Valid() && len == |messages.nodes|
    }

    ghost function View(): Box
      reads this, messages, messages.nodes
    {
      Box(Chars(messages.nodes), waiting)
    }

    /** mbox_init */
    constructor ()
      ensures Valid() && View() == Box([], 0) && fresh(messages) && fresh(messages.hdr)
    {
      messages := new List();
      len, waiting := 0, 0;
    }

    /** Posting appends, and signals when somebody waits. */
    method Post(msg: Node) returns (signal: bool)
      requires Valid() && msg !in messages.Ring()
      modifies this`len, messages`nodes, messages.Ring(), msg
      ensures Valid() && View() == Posted(old(View()), msg.c) && msg.c == old(msg.c)
      ensures messages.nodes == old(messages.nodes) + [msg]
      ensures signal <==> waiting > 0
    {
      messages.InsertLast(msg);
      len := len + 1;
      signal := waiting != 0;
    }

    /** The list never says it has no first node: a get on an empty box takes the header out of the ring,
        and wraps the length. */
    method Get() returns (msg: Node)
      requires Valid()
      modifies this`len, messages`nodes, messages.Ring()
      ensures msg in old(messages.nodes) <==> old(len) > 0
      ensures old(len) > 0 ==>
                && Valid() && View() == Taken(old(View())) && msg.c == old(View()).queue[0]
                && msg == old(messages.nodes)[0] && msg !in messages.Ring()
      ensures old(len) == 0 ==>
                msg == messages.hdr && msg.next == null && msg.prev == null && msg.owner == null && len == SIZE_MAX
    {
      hide List.Valid, Chars;
      ghost var q := View().queue;
      messages.Ends();
      HeaderAlone(messages);
      msg := messages.First();
      if len == 0 {
        Unlink(msg);
        len := SIZE_MAX;
      } else {
        RemoveFirst(msg);
        assert View().queue == q[1..];
        len := len - 1;
      }
    }

    method RemoveFirst(msg: Node)
      requires messages.Valid() && messages.nodes != [] && msg == messages.nodes[0]
      modifies messages`nodes, messages.Ring()
      ensures messages.Valid() && messages.nodes == old(messages.nodes)[1..] && msg !in messages.Ring()
      ensures forall m :: m in old(messages.Ring()) ==> m.c == old(m.c)
    {
      hide List.Valid, Drop;
      HeadOfRing(messages);
      Around(messages, 1);
      Remove(msg, messages, 1);
      DropFirst(messages.hdr, old(messages.nodes), messages.nodes);
    }

    /** An untimed wait up to its first block, or to its message. */
    method BeginWait() returns (msg: Node?)
      requires Valid()
      modifies this`len, this`waiting, messages`nodes, messages.Ring()
      ensures Valid() && View() == Begun(old(View())).0
      ensures (msg == null <==> old(len) == 0) && (msg != null ==> Some(msg.c) == Begun(old(View())).1)
    {
      if len == 0 {
        waiting := waiting + 1;
        msg := null;
      } else {
        msg := Get();
      }
    }

    /** A waiter that holds the lock again: it takes a message or blocks once more. */
    method Resume() returns (msg: Node?)
      requires Valid() && waiting > 0
      modifies this`len, this`waiting, messages`nodes, messages.Ring()
      ensures Valid() && View() == Resumed(old(View())).0
      ensures (msg == null <==> old(len) == 0) && (msg != null ==> Some(msg.c) == Resumed(old(View())).1)
    {
      waiting := waiting - 1;
      msg := BeginWait();
    }

    /** The end of a timed wait. With 0 the length is not looked at again, and an empty box is ruined. */
    method EndTimedWait(status: int) returns (msg: Node?)
      requires Valid() && waiting > 0
      modifies this`len, this`waiting, messages`nodes, messages.Ring()
      ensures msg == null <==> status != 0
      ensures status != 0 || old(len) > 0 ==>
                && Valid() && View() == TimedOut(old(View()), status).0
                && (msg != null ==> Some(msg.c) == TimedOut(old(View()), status).1)
      ensures status == 0 && old(len) == 0 ==>
                msg == messages.hdr && messages.hdr.next == null && messages.hdr.prev == null && len == SIZE_MAX
    {
      waiting := waiting - 1;
      msg := null;
      if status == 0 {
        msg := Get();
      }
    }

    method Len() returns (n: nat)
      requires Valid()
      ensures n == |View().queue|
    {
      n := len;
    }
  }

  ghost function Chars(nodes: seq<Node>): (s: seq<int>)
    reads nodes
    ensures |s| == |nodes| && forall i :: 0 <= i < |s| ==> s[i] == nodes[i].c
  {
    if nodes == [] then [] else [nodes[0].c] + Chars(nodes[1..])
  }

  lemma HeaderAlone(l: List)
    requires l.Valid()
    ensures l.hdr !in l.nodes && (l.nodes == [] ==> l.hdr.prev == l.hdr)
  {
    l.Ends();
    var r := l.Ring();
    assert forall i :: 0 <= i < |l.nodes| ==> l.nodes[i] == r[i + 1];
  }

  lemma HeadOfRing(l: List)
    requires l.nodes != []
    ensures l.Ring()[1] == l.nodes[0]
  {
  }

  lemma DropFirst(h: Node, before: seq<Node>, after: seq<Node>)
    requires before != [] && [h] + after == Drop([h] + before, 1)
    ensures after == before[1..]
  {
    assert Drop([h] + before, 1) == [h] + before[1..];
    assert ([h] + after)[1..] == after;
    assert ([h] + before[1..])[1..] == before[1..];
  }

  // ----- waiting and waking -----

  function Begun(b: Box): (Box, Option<int>) {
    if b.queue == [] then (b.(waiting := b.waiting + 1), None) else (Taken(b), Some(b.queue[0]))
  }

  function Resumed(b: Box): (Box, Option<int>)
    requires b.waiting > 0
  {
    Begun(b.(waiting := b.waiting - 1))
  }

  function TimedOut(b: Box, status: int): (Box, Option<int>)
    requires b.waiting > 0 && (status == 0 ==> b.queue != [])
  {
    var c := b.(waiting := b.waiting - 1);
    if status == 0 then (Taken(c), Some(c.queue[0])) else (c, None)
  }

  /** A mailbox and the consumers inside its wait: blocked on the condition, or woken and about to
      hold the lock again; with what was posted and delivered. */
  datatype Monitor = Monitor(box: Box, blocked: nat, woken: nat, posted: seq<int>, delivered: seq<int>)

  /** `wake` is how many blocked consumers a signal unblocks: one at least. */
  datatype Event = Post(c: int, wake: nat) | Get | Wait | Resume | Spurious

  predicate Enabled(m: Monitor, e: Event) {
    match e
    case Post(_, wake) => if m.box.waiting > 0 && m.blocked > 0 then 1 <= wake <= m.blocked else wake == 0
    case Get => m.box.queue != []
    case Wait => true
    case Resume => m.woken > 0 && m.box.waiting > 0
    case Spurious => m.blocked > 0
  }

  function Deliver(m: Monitor, c: Option<int>): Monitor {
    if c.Some? then m.(delivered := m.delivered + [c.value]) else m.(blocked := m.blocked + 1)
  }

  function Next(m: Monitor, e: Event): Monitor
    requires Enabled(m, e)
  {
    match e
    case Post(c, wake) =>
      m.(box := Posted(m.box, c), blocked := m.blocked - wake, woken := m.woken + wake, posted := m.posted + [c])
    case Get => m.(box := Taken(m.box), delivered := m.delivered + [m.box.queue[0]])
    case Wait => var (b, c) := Begun(m.box); Deliver(m.(box := b), c)
    case Resume => var (b, c) := Resumed(m.box); Deliver(m.(box := b, woken := m.woken - 1), c)
    case Spurious => m.(blocked := m.blocked - 1, woken := m.woken + 1)
  }

  ghost predicate Run(m: Monitor, es: seq<Event>, t: Monitor)
    decreases |es|
  {
    if es == [] then t == m else Enabled(m, es[0]) && Run(Next(m, es[0]), es[1..], t)
  }

  const EMPTY := Monitor(Box([], 0), 0, 0, [], [])

  /** While somebody is blocked, a woken consumer is on its way for every message in the box;
      everything posted is delivered or still queued, in order. */
  ghost predicate Sound(m: Monitor) {
    && m.box.waiting == m.blocked + m.woken
    && (m.blocked > 0 ==> m.woken >= |m.box.queue|)
    && m.posted == m.delivered + m.box.queue
  }

  lemma SoundStep(m: Monitor, e: Event)
    requires Sound(m) && Enabled(m, e)
    ensures Sound(Next(m, e))
  {
    var q := m.box.queue;
    if q != [] {
      assert (m.delivered + [q[0]]) + q[1..] == m.delivered + q;
    }
    if e.Post? {
      assert (m.delivered + q) + [e.c] == m.delivered + (q + [e.c]);
    }
  }

  lemma {:induction false} SoundRun(m: Monitor, es: seq<Event>, t: Monitor)
    requires Sound(m) && Run(m, es, t)
    ensures Sound(t)
    decreases |es|
  {
    if es != [] {
      SoundStep(m, es[0]);
      SoundRun(Next(m, es[0]), es[1..], t);
    }
  }

  /** No interleaving of posters, waiters, gets on a nonempty box and spurious wake-ups loses a
      wake-up: a message in the box and a blocked consumer imply a woken one. */
  lemma NoLostWakeUp(es: seq<Event>, t: Monitor)
    requires Run(EMPTY, es, t)
    ensures t.blocked > 0 ==> t.woken >= |t.box.queue|
    ensures t.posted == t.delivered + t.box.queue
  {
    assert Sound(EMPTY);
    SoundRun(EMPTY, es, t);
  }
}
