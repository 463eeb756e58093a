/** Circular doubly linked lists with a header node, as sequences. */
module Dlist {
  /** A list node; `c` is the character of the message it is embedded in. */
  class Node {
    var prev: Node?
    var next: Node?
    var owner: List?
    var c: int

    /** dlnode_init */
    constructor (c: int)
      ensures prev == null && next == null && owner == null && this.c == c
    {
      prev, next, owner := null, null, null;
      this.c := c;
    }
  }

  // ----- sequences of distinct nodes -----

  ghost predicate Distinct(r: seq<Node>) {
    forall i, j :: 0 <= i < j < |r| ==> r[i] != r[j]
  }

  ghost function Succ(i: nat, n: nat): (j: nat)
    requires i < n
    ensures j < n
  {
    if i + 1 == n then 0 else i + 1
  }

  /** r with x behind its i-th node. */
  ghost function Insert(r: seq<Node>, i: nat, x: Node): (t: seq<Node>)
    requires i < |r|
    ensures |t| == |r| + 1 && t[i + 1] == x
    ensures forall k :: 0 <= k <= i ==> t[k] == r[k]
    ensures forall k :: i + 1 < k < |t| ==> t[k] == r[k - 1]
  {
    r[..i + 1] + [x] + r[i + 1..]
  }

  /** r without its i-th node. */
  ghost function Drop(r: seq<Node>, i: nat): (t: seq<Node>)
    requires i < |r|
    ensures |t| == |r| - 1
    ensures forall k :: 0 <= k < i ==> t[k] == r[k]
    ensures forall k :: i <= k < |t| ==> t[k] == r[k + 1]
  {
    r[..i] + r[i + 1..]
  }

  lemma InsertDistinct(r: seq<Node>, i: nat, x: Node)
    requires i < |r| && Distinct(r) && x !in r
    ensures Distinct(Insert(r, i, x))
  {
  }

  lemma DropDistinct(r: seq<Node>, i: nat)
    requires i < |r| && Distinct(r)
    ensures Distinct(Drop(r, i)) && r[i] !in Drop(r, i)
  {
  }

  /** Consecutive nodes point at each other, and the last and the first do. */
  ghost predicate Linked(r: seq<Node>)
    reads r
  {
    forall i :: 0 <= i < |r| ==> r[i].next == r[Succ(i, |r|)] && r[Succ(i, |r|)].prev == r[i]
  }

  ghost predicate Owned(r: seq<Node>, l: List)
    reads r
  {
    forall i :: 0 <= i < |r| ==> r[i].owner == l
  }

  class List {
    const hdr: Node
    ghost var nodes: seq<Node>

    /** The header and the members, in order. */
    ghost function Ring(): (r: seq<Node>)
      reads this
      ensures |r| == |nodes| + 1
    {
      [hdr] + nodes
    }

    ghost predicate Valid()
      reads this, Ring()
    {
      Distinct(Ring()) && Owned(Ring(), this) && Linked(Ring())
    }

    /** dlist_init */
    constructor ()
      ensures Valid() && nodes == [] && fresh(hdr)
    {
      hdr := new Node(0);
      nodes := [];
      new;
      hdr.prev := hdr;
      hdr.next := hdr;
      hdr.owner := this;
    }

    /** The neighbours of the header. */
    lemma Ends()
      requires Valid()
      ensures hdr.next == (if nodes == [] then hdr else nodes[0])
      ensures hdr.prev == (if nodes == [] then hdr else nodes[|nodes| - 1])
      ensures hdr.next in Ring() && hdr.prev in Ring() && hdr in Ring()
      ensures nodes != [] ==> hdr.next != hdr && hdr.prev != hdr
    {
      var r := Ring();
      assert r[0] == hdr;
      assert r[0].next == r[Succ(0, |r|)];
      assert r[Succ(|r| - 1, |r|)].prev == r[|r| - 1];
    }

    method IsEmpty() returns (b: bool)
      requires Valid()
      ensures b <==> nodes == []
    {
      Ends();
      b := hdr.next == hdr;
    }

    /** The first member, or the header itself when there is none. */
    method First() returns (n: Node)
      requires Valid()
      ensures n == if nodes == [] then hdr else nodes[0]
    {
      Ends();
      n := hdr.next;
    }

    method Last() returns (n: Node)
      requires Valid()
      ensures n == if nodes == [] then hdr else nodes[|nodes| - 1]
    {
      Ends();
      n := hdr.prev;
    }

    method InsertFirst(n: Node)
      requires Valid() && n !in Ring()
      modifies this`nodes, Ring(), n
      ensures Valid() && nodes == [n] + old(nodes)
      ensures forall m :: m in old(Ring()) || m == n ==> m.c == old(m.c)
    {
      Ends();
      InsertNext(hdr, n, this, 0);
      assert nodes == Ring()[1..];
    }

    method InsertLast(n: Node)
      requires Valid() && n !in Ring()
      modifies this`nodes, Ring(), n
      ensures Valid() && nodes == old(nodes) + [n]
      ensures forall m :: m in old(Ring()) || m == n ==> m.c == old(m.c)
    {
      Ends();
      InsertPrev(hdr, n, this, |nodes|);
      assert nodes == Ring()[1..];
    }
  }

  // ----- splicing and cutting, with the links from before as sequences -----

  ghost predicate LinkedBy(r: seq<Node>, nx: seq<Node?>, pv: seq<Node?>) {
    && |nx| == |pv| == |r|
    && forall i :: 0 <= i < |r| ==> nx[i] == r[Succ(i, |r|)] && pv[Succ(i, |r|)] == r[i]
  }

  /** The ring with x behind r[i] is linked once the four links around x are written. */
  lemma SpliceLinked(r: seq<Node>, i: nat, x: Node, nx: seq<Node?>, pv: seq<Node?>)
    requires i < |r| && LinkedBy(r, nx, pv)
    requires x.prev == r[i] && x.next == r[Succ(i, |r|)] && r[i].next == x && r[Succ(i, |r|)].prev == x
    requires forall k :: 0 <= k < |r| && k != i ==> r[k].next == nx[k]
    requires forall k :: 0 <= k < |r| && k != Succ(i, |r|) ==> r[k].prev == pv[k]
    ensures Linked(Insert(r, i, x))
  {
    var t := Insert(r, i, x);
    forall k | 0 <= k < |t| ensures t[k].next == t[Succ(k, |t|)] && t[Succ(k, |t|)].prev == t[k] {
      if k < i {
        assert nx[k] == r[Succ(k, |r|)];
      } else if k > i + 1 {
        assert nx[k - 1] == r[Succ(k - 1, |r|)];
      }
    }
  }

  /** The ring without r[i] is linked once its neighbours point at each other. */
  lemma CutLinked(r: seq<Node>, i: nat, nx: seq<Node?>, pv: seq<Node?>)
    requires 0 < i < |r| && LinkedBy(r, nx, pv)
    requires r[i - 1].next == r[Succ(i, |r|)] && r[Succ(i, |r|)].prev == r[i - 1]
    requires forall k :: 0 <= k < |r| && k != i && k != i - 1 ==> r[k].next == nx[k]
    requires forall k :: 0 <= k < |r| && k != i && k != Succ(i, |r|) ==> r[k].prev == pv[k]
    ensures Linked(Drop(r, i))
  {
    var t := Drop(r, i);
    forall k | 0 <= k < |t| ensures t[k].next == t[Succ(k, |t|)] && t[Succ(k, |t|)].prev == t[k] {
      if k < i - 1 {
        assert nx[k] == r[Succ(k, |r|)];
      } else if k >= i {
        assert nx[k + 1] == r[Succ(k + 1, |r|)];
      }
    }
  }

  lemma SpliceOwned(r: seq<Node>, i: nat, x: Node, l: List)
    requires i < |r| && x.owner == l && forall k :: 0 <= k < |r| ==> r[k].owner == l
    ensures Owned(Insert(r, i, x), l)
  {
  }

  lemma CutOwned(r: seq<Node>, i: nat, l: List)
    requires i < |r| && forall k :: 0 <= k < |r| && k != i ==> r[k].owner == l
    ensures Owned(Drop(r, i), l)
  {
  }

  /** No other place in r holds the i-th node. */
  ghost predicate Alone(r: seq<Node>, i: nat)
    requires i < |r|
  {
    forall k :: 0 <= k < |r| && k != i ==> r[k] != r[i]
  }

  /** The links of a valid list around its i-th node. */
  lemma Links(l: List, i: nat) returns (nx: seq<Node?>, pv: seq<Node?>)
    requires l.Valid() && i < |l.Ring()|
    ensures var r := l.Ring();
            && LinkedBy(r, nx, pv)
            && (forall k :: 0 <= k < |r| ==> r[k].next == nx[k] && r[k].prev == pv[k] && r[k].owner == l)
            && r[i].next == r[Succ(i, |r|)] && r[Succ(i, |r|)].prev == r[i] && r[i] in r && r[Succ(i, |r|)] in r
            && Distinct(r) && Alone(r, i) && Alone(r, Succ(i, |r|))
  {
    var r := l.Ring();
    nx := seq(|r|, k requires 0 <= k < |r| reads r => r[k].next);
    pv := seq(|r|, k requires 0 <= k < |r| reads r => r[k].prev);
  }

  /** Links stay inside the ring. */
  lemma Around(l: List, i: nat)
    requires l.Valid() && 0 < i < |l.Ring()|
    ensures l.Ring()[i].next in l.Ring() && l.Ring()[i].prev in l.Ring()
  {
    var r := l.Ring();
    assert r[i].next == r[Succ(i, |r|)] && r[i].prev == r[i - 1] by {
      assert r[i - 1].next == r[Succ(i - 1, |r|)];
    }
  }

  /** dlnode_insertnext: x goes behind n, the i-th node of the ring. */
  method InsertNext(n: Node, x: Node, ghost l: List, ghost i: nat)
    requires l.Valid() && i < |l.Ring()| && n == l.Ring()[i] && x !in l.Ring()
    modifies l`nodes, n, n.next, x
    ensures l.Valid() && l.Ring() == Insert(old(l.Ring()), i, x)
    ensures forall m :: m in old(l.Ring()) || m == x ==> m.c == old(m.c)
  {
    hide Linked, LinkedBy, Insert, Succ, Distinct, Owned;
    ghost var r := l.Ring();
    ghost var nx, pv := Links(l, i);
    x.next := n.next;
    n.next.prev := x;
    n.next := x;
    x.prev := n;
    x.owner := n.owner;
    InsertDistinct(r, i, x);
    InsertHead(r, i, x);
    l.nodes := Insert(r, i, x)[1..];
    SpliceLinked(r, i, x, nx, pv);
    SpliceOwned(r, i, x, l);
  }

  lemma InsertHead(r: seq<Node>, i: nat, x: Node)
    requires i < |r|
    ensures Insert(r, i, x) == [r[0]] + Insert(r, i, x)[1..]
  {
  }

  lemma DropHead(r: seq<Node>, i: nat)
    requires 0 < i < |r|
    ensures Drop(r, i) == [r[0]] + Drop(r, i)[1..]
  {
  }

  /** dlnode_insertprev: x goes before n, which follows the i-th node of the ring. */
  method InsertPrev(n: Node, x: Node, ghost l: List, ghost i: nat)
    requires l.Valid() && i < |l.Ring()| && n == l.Ring()[Succ(i, |l.Ring()|)] && x !in l.Ring()
    modifies l`nodes, n, n.prev, x
    ensures l.Valid() && l.Ring() == Insert(old(l.Ring()), i, x)
    ensures forall m :: m in old(l.Ring()) || m == x ==> m.c == old(m.c)
  {
    hide Linked, LinkedBy, Insert, Succ, Distinct, Owned;
    ghost var r := l.Ring();
    ghost var nx, pv := Links(l, i);
    x.prev := n.prev;
    n.prev.next := x;
    n.prev := x;
    x.next := n;
    x.owner := n.owner;
    InsertDistinct(r, i, x);
    InsertHead(r, i, x);
    l.nodes := Insert(r, i, x)[1..];
    SpliceLinked(r, i, x, nx, pv);
    SpliceOwned(r, i, x, l);
  }

  /** dlnode_remove, as pointers. */
  method Unlink(n: Node)
    requires n.prev != null && n.next != null
    modifies n, n.prev, n.next
    ensures n.prev == null && n.next == null && n.owner == null && n.c == old(n.c)
    ensures var p, q := old(n.prev), old(n.next);
            && (p != n ==> p.next == q && p.owner == old(n.prev.owner) && p.c == old(n.prev.c))
            && (q != n ==> q.prev == p && q.owner == old(n.next.owner) && q.c == old(n.next.c))
            && (p != n && p != q ==> p.prev == old(n.prev.prev))
            && (q != n && p != q ==> q.next == old(n.next.next))
  {
    n.prev.next := n.next;
    n.next.prev := n.prev;
    n.next := null;
    n.prev := null;
    n.owner := null;
  }

  /** dlnode_remove: n is the i-th node of the ring, and not the header. */
  method Remove(n: Node, ghost l: List, ghost i: nat)
    requires l.Valid() && 0 < i < |l.Ring()| && n == l.Ring()[i]
    modifies l`nodes, n, n.prev, n.next
    ensures l.Valid() && l.Ring() == Drop(old(l.Ring()), i)
    ensures n.next == null && n.prev == null && n.owner == null && n !in l.Ring()
    ensures forall m :: m in old(l.Ring()) ==> m.c == old(m.c)
  {
    hide Linked, LinkedBy, Drop, Distinct, Owned;
    ghost var r := l.Ring();
    ghost var nx, pv := Links(l, i);
    ghost var _, _ := Links(l, i - 1);
    Unlink(n);
    DropDistinct(r, i);
    l.nodes := Drop(r, i)[1..];
    DropHead(r, i);
    CutLinked(r, i, nx, pv);
    CutOwned(r, i, l);
  }
}
