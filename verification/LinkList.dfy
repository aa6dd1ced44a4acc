/**
 * The doubly linked list under the link manager: a ring through a sentinel, as Go's container/list
 * keeps it (used by core/xray/app/mydispatcher/linkmanager.go).
 */
module LinkList {

  class Element<T> {
    var prev: Element?<T>
    var next: Element?<T>
    var list: List?<T>
    const value: T

    constructor (value: T)
      ensures this.value == value && list == null
    {
      this.value := value;
      prev, next, list := null, null, null;
    }
  }

  class List<T> {
    const root: Element<T>
    var len: int
    ghost var nodes: seq<Element<T>>
    ghost var cut: set<Element<T>>   // nodes that Init has cut off; they still name this list

    /** The ring position: the sentinel stands before the first and after the last node. */
    ghost function At(ns: seq<Element<T>>, i: int): Element<T> {
      if 0 <= i < |ns| then ns[i] else root
    }

    ghost predicate Valid()
      reads this, root, nodes, cut
    {
      len == |nodes| && Ring(nodes) && CutOff(nodes)
    }

    /** Cut-off nodes lie apart from the ring and point at each other or at the sentinel. */
    ghost predicate CutOff(ns: seq<Element<T>>)
      reads this, cut
    {
      root !in cut && (forall i :: 0 <= i < |ns| ==> ns[i] !in cut) && forall e :: e in cut ==> Adrift(e)
    }

    ghost predicate Adrift(e: Element<T>)
      reads this, e
    {
      && e.list == this && e.prev != null && e.next != null && e.prev != e && e.next != e
      && (e.prev == root || e.prev in cut) && (e.next == root || e.next in cut)
    }

    ghost predicate Ring(ns: seq<Element<T>>)
      reads root, ns
    {
      && root !in ns
      && (forall i, j :: 0 <= i < j < |ns| ==> ns[i] != ns[j])
      && root.next == At(ns, 0) && root.prev == At(ns, |ns| - 1)
      && (forall i :: 0 <= i < |ns| ==> Linked(ns, i))
    }

    ghost predicate Linked(ns: seq<Element<T>>, i: int)
      requires 0 <= i < |ns|
      reads ns
    {
      ns[i].list == this && ns[i].prev == At(ns, i - 1) && ns[i].next == At(ns, i + 1)
    }

    constructor (sentinel: T)
      ensures Valid() && nodes == [] && cut == {} && fresh(root)
    {
      var r := new Element(sentinel);
      root, len, nodes, cut := r, 0, [], {};
      new;
      root.next, root.prev := root, root;
    }

    /** Forgets all nodes; they keep their own pointers.  A list that has been spoilt is empty and right again. */
    method Init()
      modifies this, root
      ensures Valid() && nodes == [] && cut == if old(Valid()) then old(cut) + NodeSet(old(nodes)) else {}
    {
      if Valid() { CutNodes(); }
      cut := if Valid() then cut + NodeSet(nodes) else {};
      root.next, root.prev := root, root;
      len, nodes := 0, [];
    }

    /** The nodes of the ring can be cut off as they are. */
    lemma CutNodes()
      requires Valid()
      ensures root !in NodeSet(nodes) && forall e :: e in NodeSet(nodes) ==>
        && e.list == this && e.prev != null && e.next != null && e.prev != e && e.next != e
        && (e.prev == root || e.prev in NodeSet(nodes)) && (e.next == root || e.next in NodeSet(nodes))
    {
      forall i | 0 <= i < |nodes|
        ensures var e := nodes[i]; e.list == this && e.prev == At(nodes, i - 1) && e.next == At(nodes, i + 1)
      {
        assert Linked(nodes, i);
      }
    }

    /** The first node; what the sentinel points at when the list has been spoilt. */
    method Front() returns (e: Element?<T>)
      ensures e == if len == 0 then null else root.next
      ensures Valid() ==> e == if nodes == [] then null else nodes[0]
    {
      e := if len == 0 then null else root.next;
    }

    method Next(e: Element<T>, ghost i: nat) returns (n: Element?<T>)
      requires Valid() && i < |nodes| && nodes[i] == e
      ensures n == if i + 1 < |nodes| then nodes[i + 1] else null
    {
      assert Linked(nodes, i);
      n := if e.next != root then e.next else null;
    }

    /** `e` is linked in after the last node. */
    ghost predicate Followed(e: Element<T>)
      reads this, root, nodes, e
    {
      && root.prev == e && root.next == (if nodes == [] then e else nodes[0])
      && e.list == this && e.prev == At(nodes, |nodes| - 1) && e.next == root
      && forall i :: 0 <= i < |nodes| ==> LinkedBefore(e, i)
    }

    ghost predicate LinkedBefore(e: Element<T>, i: int)
      requires 0 <= i < |nodes|
      reads this, nodes
    {
      nodes[i].list == this && nodes[i].prev == At(nodes, i - 1) && nodes[i].next == if i + 1 < |nodes| then nodes[i + 1] else e
    }

    lemma FollowedRing(e: Element<T>)
      requires Followed(e) && e != root && e !in nodes && root !in nodes
      requires forall i, j :: 0 <= i < j < |nodes| ==> nodes[i] != nodes[j]
      ensures Ring(nodes + [e])
    {
      var ns := nodes + [e];
      forall j | 0 <= j < |ns| ensures Linked(ns, j) {
        assert j < |nodes| ==> LinkedBefore(e, j);
      }
    }

    method LinkLast(e: Element<T>)
      requires Valid() && e != root && e !in nodes && e !in cut
      modifies this`len, root, nodes, e
      ensures len == |nodes| + 1 && Followed(e) && CutOff(nodes)
    {
      var at := root.prev;
      ghost var n := |nodes|;
      assert at == At(nodes, n - 1);
      assert n > 0 ==> Linked(nodes, n - 1);
      e.prev := at;
      e.next := root;
      at.next := e;
      root.prev := e;
      e.list := this;
      len := len + 1;
      forall i | 0 <= i < n ensures LinkedBefore(e, i) { assert old(Linked(nodes, i)); }
      forall c | c in cut ensures Adrift(c) { assert old(Adrift(c)); }
    }

    method PushBack(value: T) returns (e: Element<T>)
      requires Valid()
      modifies this, root, nodes
      ensures Valid() && fresh(e) && e.value == value && nodes == old(nodes) + [e] && cut == old(cut)
    {
      e := new Element(value);
      LinkLast(e);
      FollowedRing(e);
      nodes := nodes + [e];
    }

    /** The pointer surgery, on any element with neighbours. */
    method Unlink(e: Element<T>)
      requires e.prev != null && e.next != null && e.prev != e && e.next != e
      modifies this`len, e, e.prev`next, e.next`prev
      ensures len == old(len) - 1 && e.list == null
      ensures old(e.prev).next == old(e.next) && old(e.next).prev == old(e.prev)
    {
      e.prev.next := e.next;
      e.next.prev := e.prev;
      e.next := null;
      e.prev := null;
      e.list := null;
      len := len - 1;
    }

    /** The node before or after position `j` once position `i` is skipped. */
    ghost function Past(i: int, j: int, step: int): Element<T>
      reads this
    {
      if j + step == i then At(nodes, i + step) else At(nodes, j + step)
    }

    /** Every node but the one at `i`, and the sentinel, points past it. */
    ghost predicate Bypassed(i: int)
      reads this, root, nodes
    {
      && root.next == Past(i, -1, 1) && root.prev == Past(i, |nodes|, -1)
      && forall j :: 0 <= j < |nodes| && j != i ==> PointsPast(i, j)
    }

    ghost predicate PointsPast(i: int, j: int)
      requires 0 <= j < |nodes|
      reads this, nodes
    {
      nodes[j].list == this && nodes[j].prev == Past(i, j, -1) && nodes[j].next == Past(i, j, 1)
    }

    ghost function Skipping(i: nat): (r: seq<Element<T>>)
      requires i < |nodes|
      reads this
      ensures |r| == |nodes| - 1 && forall j :: 0 <= j < |r| ==> r[j] == if j < i then nodes[j] else nodes[j + 1]
    {
      nodes[..i] + nodes[i + 1..]
    }

    lemma BypassedRing(i: nat)
      requires i < |nodes| && root !in nodes && Bypassed(i)
      requires forall i, j :: 0 <= i < j < |nodes| ==> nodes[i] != nodes[j]
      ensures Ring(Skipping(i))
    {
      var ns := Skipping(i);
      forall j | 0 <= j < |ns| ensures Linked(ns, j) {
        assert PointsPast(i, if j < i then j else j + 1);
      }
    }

    method UnlinkAt(e: Element<T>, ghost i: nat)
      requires Valid() && (if i < |nodes| then nodes[i] == e else e in cut)
      modifies this`len, root, nodes, cut
      ensures len == |nodes| - 1 && e.list == null
      ensures i < |nodes| ==> Bypassed(i) && CutOff(Skipping(i))
      ensures i >= |nodes| ==>
        && root.next == (if old(e.prev) == root then old(e.next) else old(root.next))
        && root.prev == (if old(e.next) == root then old(e.prev) else old(root.prev))
    {
      if i < |nodes| {
        assert Linked(nodes, i);
        assert i > 0 ==> Linked(nodes, i - 1);
        assert i + 1 < |nodes| ==> Linked(nodes, i + 1);
      } else {
        assert Adrift(e);
      }
      Unlink(e);
      if i < |nodes| {
        forall j | 0 <= j < |nodes| && j != i ensures PointsPast(i, j) {
          assert old(Linked(nodes, j));
        }
        forall c | c in cut ensures Adrift(c) { assert old(Adrift(c)); }
      }
    }

    /**
     * Takes out a node.  One of the ring, at position `i`, leaves the others in their order.  One that was
     * cut off spoils the list: its length is one short, and if it was the first of those cut off with it,
     * the sentinel points at the next of them and no longer at the ring.
     */
    method Remove(e: Element<T>, ghost i: nat)
      requires Valid() && (if i < |nodes| then nodes[i] == e else e in cut)
      modifies this, root, nodes, cut
      ensures e.list == null && cut == old(cut)
      ensures i < |old(nodes)| ==> Valid() && nodes == old(nodes)[..i] + old(nodes)[i + 1..]
      ensures i >= |old(nodes)| ==> nodes == old(nodes) && len == |nodes| - 1 && root.next == Spoilt(old(root.next), old(e.prev), old(e.next))
    {
      assert if i < |nodes| then Linked(nodes, i) else Adrift(e);
      if e.list == this {
        UnlinkAt(e, i);
      }
      if i < |nodes| {
        BypassedRing(i);
        nodes := Skipping(i);
      }
    }

    ghost function Spoilt(first: Element?<T>, prev: Element?<T>, next: Element?<T>): Element?<T> {
      if prev == root then next else first
    }
  }

  ghost function NodeSet<T>(ns: seq<Element<T>>): set<Element<T>> { set i | 0 <= i < |ns| :: ns[i] }

  method PushAll<T>(l: List<T>, values: seq<T>)
    requires l.Valid() && l.nodes == []
    modifies l, l.root
    ensures l.Valid() && |l.nodes| == |values| && l.cut == old(l.cut)
    ensures forall j :: 0 <= j < |l.nodes| ==> fresh(l.nodes[j])
  {
    for k := 0 to |values|
      invariant l.Valid() && |l.nodes| == k && l.cut == old(l.cut)
      invariant forall j :: 0 <= j < |l.nodes| ==> fresh(l.nodes[j])
    {
      var n := l.PushBack(values[k]);
    }
  }

  /**
   * A node is removed after Init has cut it off and other nodes have come: the length is one short for
   * any list.  A walk from the front then starts at the new nodes exactly when there are two or more and
   * the node was not the first; it starts nowhere exactly when there is one; otherwise it starts at the
   * node that followed the old one, or at the sentinel.
   */
  method DetachedRemoval<T>(l: List<T>, e: Element<T>, ghost i: nat, values: seq<T>) returns (first: Element?<T>)
    requires l.Valid() && i < |l.nodes| && l.nodes[i] == e
    modifies l, l.root, l.nodes, l.cut
    ensures |l.nodes| == |values| && l.len == |values| - 1
    ensures first == null <==> |values| == 1
    ensures first != null ==> first == if i == 0 then old(l.At(l.nodes, 1)) else l.At(l.nodes, 0)
    ensures first in l.nodes <==> i > 0 && |values| > 1
  {
    assert l.Linked(l.nodes, i);
    ghost var prev, next := e.prev, e.next;
    assert next == l.At(l.nodes, i + 1) && (next == l.root || next in l.nodes);
    l.Init();
    PushAll(l, values);
    assert l.Adrift(e);
    assert forall c :: c in l.cut ==> c in old(l.cut) || c in old(l.nodes);
    l.Remove(e, |values|);
    first := l.Front();
  }
}
