/** A user's open links: an insertion-ordered list with an index by writer (core/xray/app/mydispatcher/linkmanager.go). */
module LinkManagers {
  import opened Wrappers
  import opened LinkList

  class ManagedWriter {
    const writer: nat                           // the writer it wraps
    var element: Element?<Option<Entry>>        // its node, for removal without a search

    constructor (writer: nat)
      ensures this.writer == writer && element == null
    {
      this.writer, element := writer, null;
    }
  }

  datatype Entry = Entry(writer: ManagedWriter, reader: nat)

  /** What closing a link does to the outside. */
  datatype Action = CloseWriter(writer: nat) | InterruptReader(reader: nat)

  function Actions(open: seq<Entry>): seq<Action> {
    if open == [] then []
    else
      var last := open[|open| - 1];
      Actions(open[..|open| - 1]) + [CloseWriter(last.writer.writer), InterruptReader(last.reader)]
  }

  /** Each link's writer is closed and then its reader interrupted, link by link. */
  lemma {:induction false} ActionsAt(open: seq<Entry>, i: nat)
    ensures |Actions(open)| == 2 * |open|
    ensures i < |open| ==> Actions(open)[2 * i..2 * i + 2] == [CloseWriter(open[i].writer.writer), InterruptReader(open[i].reader)]
  {
    if open != [] {
      var p := open[..|open| - 1];
      ActionsAt(p, i);
      if i < |p| { assert Actions(open)[2 * i..2 * i + 2] == Actions(p)[2 * i..2 * i + 2]; }
    }
  }

  function Without(open: seq<Entry>, w: ManagedWriter): seq<Entry> {
    if open == [] then []
    else Without(open[..|open| - 1], w) + if open[|open| - 1].writer == w then [] else [open[|open| - 1]]
  }

  lemma {:induction false} WithoutAbsent(open: seq<Entry>, w: ManagedWriter)
    requires forall i :: 0 <= i < |open| ==> open[i].writer != w
    ensures Without(open, w) == open
  {
    if open != [] {
      WithoutAbsent(open[..|open| - 1], w);
    }
  }

  lemma {:induction false} WithoutOne(open: seq<Entry>, w: ManagedWriter, i: nat)
    requires i < |open| && open[i].writer == w
    requires forall j :: 0 <= j < |open| && j != i ==> open[j].writer != w
    ensures Without(open, w) == open[..i] + open[i + 1..]
  {
    var p := open[..|open| - 1];
    if i == |open| - 1 {
      WithoutAbsent(p, w);
    } else {
      WithoutOne(p, w, i);
    }
  }

  lemma AbsentWriter(open: seq<Entry>, w: ManagedWriter)
    requires w !in IndexOf(open)
    ensures Without(open, w) == open && forall i :: 0 <= i < |open| ==> open[i].writer != w
  {
    forall i | 0 <= i < |open| ensures open[i].writer != w { IndexOfHas(open, i); }
    WithoutAbsent(open, w);
  }

  /** `i` is where the writer's link is, or past the end, and `rest` what is left without it. */
  ghost predicate IsGap(open: seq<Entry>, w: ManagedWriter, i: nat, rest: seq<Entry>) {
    && i <= |open| && (i < |open| ==> open[i].writer == w)
    && (forall j :: 0 <= j < |open| && j != i ==> open[j].writer != w)
    && rest == if i < |open| then Skip(open, i) else open
  }

  lemma Gap(open: seq<Entry>, w: ManagedWriter) returns (i: nat, rest: seq<Entry>)
    requires DistinctWriters(open)
    ensures IsGap(open, w, i, rest) && rest == Without(open, w) && IndexOf(rest) == IndexOf(open) - {w}
    ensures i < |open| <==> w in IndexOf(open)
  {
    rest := Without(open, w);
    IndexOfWithout(open, w);
    if w in IndexOf(open) {
      i := IndexOfFinds(open, w);
      WithoutOne(open, w, i);
    } else {
      AbsentWriter(open, w);
      i := |open|;
    }
  }

  /** The index that belongs to a list of open links. */
  ghost function IndexOf(open: seq<Entry>): map<ManagedWriter, Entry> {
    if open == [] then map[]
    else IndexOf(open[..|open| - 1])[open[|open| - 1].writer := open[|open| - 1]]
  }

  ghost predicate DistinctWriters(open: seq<Entry>) {
    forall i, j :: 0 <= i < j < |open| ==> open[i].writer != open[j].writer
  }

  lemma {:induction false} IndexOfHas(open: seq<Entry>, i: nat)
    requires i < |open|
    ensures open[i].writer in IndexOf(open)
  {
    if i < |open| - 1 {
      IndexOfHas(open[..|open| - 1], i);
    }
  }

  lemma {:induction false} IndexOfFinds(open: seq<Entry>, w: ManagedWriter) returns (i: nat)
    requires w in IndexOf(open)
    ensures i < |open| && open[i].writer == w && IndexOf(open)[w] == open[i]
  {
    var n := |open| - 1;
    if open[n].writer == w {
      i := n;
    } else {
      i := IndexOfFinds(open[..n], w);
    }
  }

  lemma {:induction false} IndexOfWithout(open: seq<Entry>, w: ManagedWriter)
    ensures IndexOf(Without(open, w)) == IndexOf(open) - {w}
  {
    if open != [] {
      var p, e := open[..|open| - 1], open[|open| - 1];
      IndexOfWithout(p, w);
      if e.writer == w {
        assert Without(open, w) == Without(p, w);
      } else {
        var rest := Without(p, w);
        assert Without(open, w) == rest + [e] && (rest + [e])[..|rest|] == rest;
        assert (IndexOf(p) - {w})[e.writer := e] == IndexOf(p)[e.writer := e] - {w};
      }
    }
  }

  /** As many index entries as open links. */
  lemma {:induction false} IndexOfCount(open: seq<Entry>)
    requires DistinctWriters(open)
    ensures |IndexOf(open)| == |open|
  {
    if open != [] {
      var p, e := open[..|open| - 1], open[|open| - 1];
      IndexOfCount(p);
      if e.writer in IndexOf(p) {
        var i := IndexOfFinds(p, e.writer);
        assert false;
      }
      assert IndexOf(open).Keys == IndexOf(p).Keys + {e.writer};
    }
  }

  function Skip<T>(s: seq<T>, i: nat): (r: seq<T>)
    requires i < |s|
    ensures |r| == |s| - 1 && forall j :: 0 <= j < |r| ==> r[j] == s[if j < i then j else j + 1]
  {
    s[..i] + s[i + 1..]
  }

  lemma DistinctSkip(open: seq<Entry>, i: nat)
    requires DistinctWriters(open) && i < |open|
    ensures DistinctWriters(Skip(open, i))
  {
  }

  /** Every open link but the one at `i` is at its node. */
  ghost predicate AtNodes(open: seq<Entry>, ns: seq<Element<Option<Entry>>>, i: nat)
    requires |open| == |ns|
    reads set j | 0 <= j < |open| :: open[j].writer
  {
    forall j :: 0 <= j < |open| && j != i ==> ns[j].value == Some(open[j]) && open[j].writer.element == ns[j]
  }

  class LinkManager {
    const links: List<Option<Entry>>
    var index: map<ManagedWriter, Entry>
    ghost var open: seq<Entry>   // the open links, oldest first

    /** Nodes, index entries and open links are in bijection; each open writer points at its own node. */
    ghost predicate Valid()
      reads this, links, links.root, links.nodes, links.cut, set i | 0 <= i < |open| :: open[i].writer
    {
      links.Valid() && DistinctWriters(open) && index == IndexOf(open) && Placed()
    }

    ghost predicate Placed()
      reads this, links, set i | 0 <= i < |open| :: open[i].writer
    {
      && |links.nodes| == |open|
      && forall i :: 0 <= i < |open| ==> links.nodes[i].value == Some(open[i]) && open[i].writer.element == links.nodes[i]
    }

    /** The writer's node, if it has one, came from this manager: it is in the list, or CloseAll has cut it off. */
    ghost predicate Belongs(writer: ManagedWriter)
      reads this, links, writer
    {
      writer.element != null ==> writer in index || writer.element in links.cut
    }

    constructor ()
      ensures Valid() && open == [] && index == map[] && fresh(links) && fresh(links.root) && links.cut == {} && links.nodes == []
    {
      links := new List(None);
      index, open := map[], [];
    }

    method AddLink(writer: ManagedWriter, reader: nat)
      requires Valid() && writer !in index
      modifies this, links, links.root, links.nodes, writer
      ensures Valid() && open == old(open) + [Entry(writer, reader)] && index == old(index)[writer := Entry(writer, reader)]
      ensures links.cut == old(links.cut) && writer.element != null && fresh(writer.element)
      ensures links.nodes == old(links.nodes) + [writer.element]
    {
      var entry := Entry(writer, reader);
      ghost var was, ns := open, links.nodes;
      AbsentWriter(was, writer);
      var elem := links.PushBack(Some(entry));
      writer.element := elem;
      index := index[writer := entry];
      open := was + [entry];
      NewPlaced(was, ns, entry, elem);
    }

    /**
     * Takes out the writer's link; a writer already taken out stays so.  List, index and count stay right
     * exactly when the writer has no node or is in the index; a node that CloseAll has cut off leaves the
     * count one short.
     */
    method RemoveWriter(writer: ManagedWriter)
      requires Valid() && Belongs(writer)
      modifies this, links, links.root, links.nodes, links.cut, writer
      ensures Valid() <==> old(writer.element == null || writer in index)
      ensures open == Without(old(open), writer)
      ensures !Valid() ==> links.nodes == old(links.nodes) && links.len == |old(open)| - 1
      ensures writer.element == null && index == old(index) - {writer} && links.cut == old(links.cut)
      ensures forall e :: e in links.nodes ==> e in old(links.nodes)
    {
      ghost var ns := links.nodes;
      ghost var i, rest := Gap(open, writer);
      UnhookFrom(writer, i, ns, rest);
      ForgetWriter(writer, i, ns, rest);
    }

    /** The index follows the list. */
    method ForgetWriter(writer: ManagedWriter, ghost i: nat, ghost ns: seq<Element<Option<Entry>>>, ghost rest: seq<Entry>)
      requires DistinctWriters(open) && LeftWith(ns, i)
      requires IsGap(open, writer, i, rest) && IndexOf(rest) == index - {writer}
      modifies this`index, this`open
      ensures Valid() <==> old(links.Valid())
      ensures open == rest && index == old(index) - {writer}
    {
      ghost var was := open;
      index := index - {writer};
      open := rest;
      if links.Valid() {
        OthersPlaced(was, ns, i);
      }
    }

    /** The list is without the node at `i`, and all other open links are at their nodes. */
    ghost predicate LeftWith(ns: seq<Element<Option<Entry>>>, i: nat)
      reads this, links, set j | 0 <= j < |open| :: open[j].writer
    {
      i <= |open| == |ns| && links.nodes == (if i < |open| then Skip(ns, i) else ns) && AtNodes(open, ns, i)
    }

    /** The links that stay are where they were, but for the gap. */
    lemma OthersPlaced(was: seq<Entry>, ns: seq<Element<Option<Entry>>>, i: nat)
      requires links.Valid() && DistinctWriters(was) && index == IndexOf(open) && |ns| == |was| && i <= |was| && AtNodes(was, ns, i)
      requires open == if i < |was| then Skip(was, i) else was
      requires links.nodes == if i < |was| then Skip(ns, i) else ns
      ensures Valid()
    {
      if i < |was| { DistinctSkip(was, i); }
    }

    /** One link more, with its node. */
    lemma NewPlaced(was: seq<Entry>, ns: seq<Element<Option<Entry>>>, entry: Entry, e: Element<Option<Entry>>)
      requires links.Valid() && DistinctWriters(was) && |ns| == |was|
      requires forall j :: 0 <= j < |was| ==> ns[j].value == Some(was[j]) && was[j].writer.element == ns[j] && was[j].writer != entry.writer
      requires e.value == Some(entry) && entry.writer.element == e
      requires open == was + [entry] && index == IndexOf(was)[entry.writer := entry] && links.nodes == ns + [e]
      ensures Valid()
    {
      assert (was + [entry])[..|was|] == was;
    }

    /** The writer's node leaves the list, and every other open link stays with its own. */
    method UnhookFrom(writer: ManagedWriter, ghost i: nat, ghost ns: seq<Element<Option<Entry>>>, ghost rest: seq<Entry>)
      requires Valid() && Belongs(writer) && ns == links.nodes && (i < |open| <==> writer in index)
      requires IsGap(open, writer, i, rest)
      modifies links, links.root, links.nodes, links.cut, writer
      ensures links.Valid() <==> old(writer.element == null || writer in index)
      ensures !links.Valid() ==> links.nodes == ns && links.len == |open| - 1
      ensures writer.element == null && links.cut == old(links.cut) && LeftWith(ns, i)
      ensures forall e :: e in links.nodes ==> e in ns
    {
      Unhook(writer, i);
    }

    /** The writer's node leaves the list. */
    method Unhook(writer: ManagedWriter, ghost i: nat)
      requires links.Valid()
      requires if i < |links.nodes| then links.nodes[i] == writer.element else writer.element == null || writer.element in links.cut
      modifies links, links.root, links.nodes, links.cut, writer
      ensures writer.element == null && links.cut == old(links.cut)
      ensures i < |old(links.nodes)| ==> links.Valid() && links.nodes == Skip(old(links.nodes), i)
      ensures i >= |old(links.nodes)| ==> links.nodes == old(links.nodes)
      ensures i >= |old(links.nodes)| && old(writer.element) != null ==> links.len == |links.nodes| - 1
      ensures old(writer.element) == null ==> links.Valid()
    {
      if writer.element != null {
        links.Remove(writer.element, i);
        writer.element := null;
      }
    }

    /** Closes every open link once, oldest first, and forgets them all. */
    method CloseAll() returns (actions: seq<Action>)
      requires Valid()
      modifies this, links, links.root
      ensures Valid() && open == [] && index == map[] && links.nodes == []
      ensures links.cut == old(links.cut) + NodeSet(old(links.nodes))
      ensures actions == Actions(old(open))
    {
      actions := ListActions();
      links.Init();
      index, open := map[], [];
    }

    method ListActions() returns (actions: seq<Action>)
      requires Valid()
      ensures actions == Actions(open)
    {
      actions := [];
      ghost var i := 0;
      var elem := links.Front();
      while elem != null
        invariant i <= |open|
        invariant elem == if i < |open| then links.nodes[i] else null
        invariant actions == Actions(open[..i])
        decreases |open| - i
      {
        var entry := elem.value.value;
        assert open[..i + 1][..i] == open[..i];
        actions := actions + [CloseWriter(entry.writer.writer), InterruptReader(entry.reader)];
        elem := links.Next(elem, i);
        i := i + 1;
      }
      assert open[..i] == open;
    }

    method GetConnectionCount() returns (n: int)
      requires Valid()
      ensures n == |open| == |index|
    {
      IndexOfCount(open);
      n := links.len;
    }

    /** Closing a managed writer takes it out of its manager, then closes what it wraps. */
    method CloseManaged(w: ManagedWriter) returns (action: Action)
      requires Valid() && Belongs(w)
      modifies this, links, links.root, links.nodes, links.cut, w
      ensures Valid() <==> old(w.element == null || w in index)
      ensures open == Without(old(open), w)
      ensures !Valid() ==> links.len == |old(open)| - 1
      ensures action == CloseWriter(w.writer)
    {
      RemoveWriter(w);
      action := CloseWriter(w.writer);
    }
  }
}
