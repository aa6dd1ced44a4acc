/** What the open links are after a whole history of link-manager calls (core/xray/app/mydispatcher/linkmanager.go). */
module LinkRuns {
  import opened LinkList
  import opened LinkManagers

  datatype Op = Add(e: Entry) | Remove(w: ManagedWriter) | CloseAll

  /** The open links after each call has done to them what its contract says. */
  ghost function OpenAfter(ops: seq<Op>): seq<Entry> {
    if ops == [] then []
    else
      var open := OpenAfter(ops[..|ops| - 1]);
      match ops[|ops| - 1]
      case Add(e) => open + [e]
      case Remove(w) => Without(open, w)
      case CloseAll => []
  }

  /** The links closed by the CloseAll calls of a history, in order. */
  ghost function ClosedBy(ops: seq<Op>): seq<Entry> {
    if ops == [] then []
    else
      var p := ops[..|ops| - 1];
      ClosedBy(p) + if ops[|ops| - 1].CloseAll? then OpenAfter(p) else []
  }

  /** Nothing later in the history ends the writer's link. */
  ghost predicate Survives(w: ManagedWriter, later: seq<Op>) {
    CloseAll !in later && Remove(w) !in later
  }

  /** The links added and not ended since, in the order they were added. */
  ghost function Survivors(ops: seq<Op>): seq<Entry> {
    if ops == [] then []
    else (if ops[0].Add? && Survives(ops[0].e.writer, ops[1..]) then [ops[0].e] else []) + Survivors(ops[1..])
  }

  lemma {:induction false} WithoutCons(e: Entry, open: seq<Entry>, w: ManagedWriter)
    ensures Without([e] + open, w) == (if e.writer == w then [] else [e]) + Without(open, w)
  {
    var all := [e] + open;
    if open == [] {
      assert all == [e] && all[..0] == [];
    } else {
      var p := open[..|open| - 1];
      WithoutCons(e, p, w);
      assert all[..|all| - 1] == [e] + p;
    }
  }

  lemma SurvivesMore(w: ManagedWriter, later: seq<Op>, op: Op)
    ensures Survives(w, later + [op]) <==> Survives(w, later) && op != CloseAll && op != Remove(w)
  {
    assert forall x :: x in later + [op] <==> x in later || x == op;
  }

  lemma {:induction false} SurvivorsSnoc(ops: seq<Op>, op: Op)
    ensures Survivors(ops + [op]) ==
      match op
      case Add(e) => Survivors(ops) + [e]
      case Remove(w) => Without(Survivors(ops), w)
      case CloseAll => []
  {
    var all := ops + [op];
    if ops == [] {
      assert all == [op] && all[1..] == [];
    } else {
      assert all[1..] == ops[1..] + [op];
      SurvivorsSnoc(ops[1..], op);
      if ops[0].Add? {
        SurvivesMore(ops[0].e.writer, ops[1..], op);
        if op.Remove? && Survives(ops[0].e.writer, ops[1..]) {
          WithoutCons(ops[0].e, Survivors(ops[1..]), op.w);
        }
      }
      if op.Remove? {
        assert [] + Survivors(ops[1..]) == Survivors(ops[1..]);
      }
    }
  }

  /** Over every history the open links are exactly the survivors, oldest first. */
  lemma {:induction false} OpenAreSurvivors(ops: seq<Op>)
    ensures OpenAfter(ops) == Survivors(ops)
  {
    if ops != [] {
      var p, op := ops[..|ops| - 1], ops[|ops| - 1];
      OpenAreSurvivors(p);
      SurvivorsSnoc(p, op);
      assert p + [op] == ops;
    }
  }

  /** Each writer is added at most once. */
  ghost predicate FreshWriters(ops: seq<Op>) {
    forall i, j :: 0 <= i < j < |ops| && ops[i].Add? && ops[j].Add? ==> ops[i].e.writer != ops[j].e.writer
  }

  lemma {:induction false} WithoutKeeps(open: seq<Entry>, w: ManagedWriter)
    ensures forall e :: e in Without(open, w) <==> e in open && e.writer != w
  {
    if open != [] {
      var p, e := open[..|open| - 1], open[|open| - 1];
      WithoutKeeps(p, w);
      assert open == p + [e];
    }
  }

  lemma {:induction false} WithoutDistinct(open: seq<Entry>, w: ManagedWriter)
    requires DistinctWriters(open)
    ensures DistinctWriters(Without(open, w))
  {
    if open != [] {
      var p, e := open[..|open| - 1], open[|open| - 1];
      assert forall i :: 0 <= i < |p| ==> p[i] == open[i] && p[i].writer != e.writer;
      WithoutDistinct(p, w);
      WithoutKeeps(p, w);
      if e.writer != w {
        DistinctAppend(Without(p, w), e);
      }
    }
  }

  ghost predicate AddedIn(ops: seq<Op>, e: Entry) { Add(e) in ops }

  lemma {:induction false} OnlyAdded(ops: seq<Op>)
    ensures forall e :: e in OpenAfter(ops) || e in ClosedBy(ops) ==> AddedIn(ops, e)
  {
    if ops != [] {
      var p, op := ops[..|ops| - 1], ops[|ops| - 1];
      OnlyAdded(p);
      assert ops == p + [op];
      if op.Remove? { WithoutKeeps(OpenAfter(p), op.w); }
    }
  }

  lemma DistinctAppend(a: seq<Entry>, e: Entry)
    requires DistinctWriters(a) && forall x :: x in a ==> x.writer != e.writer
    ensures DistinctWriters(a + [e])
  {
  }

  /** No link is closed twice, and none that is still open has been closed. */
  lemma {:induction false} ClosedOnce(ops: seq<Op>)
    requires FreshWriters(ops)
    ensures DistinctWriters(ClosedBy(ops) + OpenAfter(ops))
  {
    if ops != [] {
      var p, op := ops[..|ops| - 1], ops[|ops| - 1];
      ClosedOnce(p);
      var closed, open := ClosedBy(p), OpenAfter(p);
      match op
      case Add(e) =>
        OnlyAdded(p);
        forall x | x in closed + open ensures x.writer != e.writer {
          assert AddedIn(p, x);
          var i :| 0 <= i < |p| && p[i] == Add(x);
          assert ops[i] == p[i];
        }
        DistinctAppend(closed + open, e);
        assert ClosedBy(ops) + OpenAfter(ops) == closed + open + [e];
      case Remove(w) =>
        RemoveKeepsDistinct(closed, open, w);
        assert ClosedBy(ops) == closed;
      case CloseAll =>
        assert ClosedBy(ops) + OpenAfter(ops) == closed + open;
    }
  }

  lemma {:induction false} WithoutIn(open: seq<Entry>, w: ManagedWriter, x: Entry)
    requires x in Without(open, w)
    ensures x in open
  {
    var p, e := open[..|open| - 1], open[|open| - 1];
    if x in Without(p, w) {
      WithoutIn(p, w, x);
    }
    assert open == p + [e];
  }

  lemma RemoveKeepsDistinct(closed: seq<Entry>, open: seq<Entry>, w: ManagedWriter)
    requires DistinctWriters(closed + open)
    ensures DistinctWriters(closed + Without(open, w))
  {
    var rest := Without(open, w);
    assert DistinctWriters(open) by {
      forall i, j | 0 <= i < j < |open| ensures open[i].writer != open[j].writer {
        assert (closed + open)[|closed| + i] == open[i] && (closed + open)[|closed| + j] == open[j];
      }
    }
    WithoutDistinct(open, w);
    forall i, j | 0 <= i < j < |closed + rest| ensures (closed + rest)[i].writer != (closed + rest)[j].writer {
      if j < |closed| {
        assert (closed + open)[i] == closed[i] && (closed + open)[j] == closed[j];
      } else if i < |closed| {
        var x := rest[j - |closed|];
        assert rest[j - |closed|] in rest;
        WithoutIn(open, w, x);
        var k :| 0 <= k < |open| && open[k] == x;
        assert (closed + open)[i] == closed[i] && (closed + open)[|closed| + k] == open[k];
      }
    }
  }

  ghost predicate Open(ops: seq<Op>, w: ManagedWriter) {
    exists e :: e in OpenAfter(ops) && e.writer == w
  }

  /** Adds less removals that found their link, counted since the last CloseAll. */
  ghost function Balance(ops: seq<Op>): int {
    if ops == [] then 0
    else
      var p := ops[..|ops| - 1];
      match ops[|ops| - 1]
      case Add(_) => Balance(p) + 1
      case Remove(w) => Balance(p) - if Open(p, w) then 1 else 0
      case CloseAll => 0
  }

  lemma {:induction false} WithoutCount(open: seq<Entry>, w: ManagedWriter)
    requires DistinctWriters(open)
    ensures |Without(open, w)| == |open| - if exists e :: e in open && e.writer == w then 1 else 0
  {
    if e :| e in open && e.writer == w {
      var i :| 0 <= i < |open| && open[i] == e;
      WithoutOne(open, w, i);
    } else {
      WithoutAbsent(open, w);
    }
  }

  /** The connection count is that balance. */
  lemma {:induction false} CountIsBalance(ops: seq<Op>)
    requires FreshWriters(ops)
    ensures |OpenAfter(ops)| == Balance(ops)
  {
    if ops != [] {
      var p, op := ops[..|ops| - 1], ops[|ops| - 1];
      CountIsBalance(p);
      if op.Remove? {
        ClosedOnce(p);
        var closed, open := ClosedBy(p), OpenAfter(p);
        forall i, j | 0 <= i < j < |open| ensures open[i].writer != open[j].writer {
          assert (closed + open)[|closed| + i] == open[i] && (closed + open)[|closed| + j] == open[j];
        }
        WithoutCount(open, op.w);
      }
    }
  }

  /* ---------- Histories on a real manager ---------- */

  /** A CloseAll of the history has ended the writer's link. */
  ghost predicate ClosedFor(ops: seq<Op>, w: ManagedWriter) {
    exists e :: e in ClosedBy(ops) && e.writer == w
  }

  /** No writer is removed after a CloseAll has ended its link. */
  ghost predicate Legal(ops: seq<Op>) {
    forall i :: 0 <= i < |ops| && ops[i].Remove? ==> !ClosedFor(ops[..i], ops[i].w)
  }

  lemma LegalMore(ops: seq<Op>, n: nat)
    requires n < |ops|
    ensures Legal(ops[..n + 1]) <==> Legal(ops[..n]) && (ops[n].Remove? ==> !ClosedFor(ops[..n], ops[n].w))
  {
    var p, q := ops[..n], ops[..n + 1];
    forall i | 0 <= i < n ensures p[i] == q[i] && p[..i] == q[..i] {}
    assert q[n] == ops[n] && q[..n] == p;
  }

  lemma LegalPrefix(ops: seq<Op>, n: nat)
    requires Legal(ops) && n <= |ops|
    ensures Legal(ops[..n])
  {
    forall i | 0 <= i < n ensures ops[..n][i] == ops[i] && ops[..n][..i] == ops[..i] {}
  }

  ghost function WriterOf(op: Op): set<ManagedWriter> {
    match op
    case Add(e) => {e.writer}
    case Remove(w) => {w}
    case CloseAll => {}
  }

  ghost function WritersOf(ops: seq<Op>): set<ManagedWriter> {
    if ops == [] then {} else WritersOf(ops[..|ops| - 1]) + WriterOf(ops[|ops| - 1])
  }

  lemma {:induction false} WriterIn(ops: seq<Op>, i: nat)
    requires i < |ops|
    ensures WriterOf(ops[i]) <= WritersOf(ops)
  {
    if i < |ops| - 1 { WriterIn(ops[..|ops| - 1], i); }
  }

  /** A writer has a node exactly when its link is open or has been ended by a CloseAll. */
  ghost predicate Tracks(m: LinkManager, p: seq<Op>, ws: set<ManagedWriter>)
    reads m, m.links, ws
  {
    forall w :: w in ws ==> m.Belongs(w) && (w.element != null <==> w in m.index || ClosedFor(p, w))
  }

  lemma HistoryMore(ops: seq<Op>, n: nat)
    requires n < |ops|
    ensures var p, q := ops[..n], ops[..n + 1];
      && OpenAfter(q) == (match ops[n] case Add(e) => OpenAfter(p) + [e] case Remove(w) => Without(OpenAfter(p), w) case CloseAll => [])
      && ClosedBy(q) == ClosedBy(p) + (if ops[n].CloseAll? then OpenAfter(p) else [])
  {
    assert ops[..n + 1][..n] == ops[..n];
  }

  /** A writer about to be added has no link yet and never had one. */
  lemma AddedIsNew(ops: seq<Op>, n: nat)
    requires FreshWriters(ops) && n < |ops| && ops[n].Add?
    ensures ops[n].e.writer !in IndexOf(OpenAfter(ops[..n])) && !ClosedFor(ops[..n], ops[n].e.writer)
  {
    var p, w := ops[..n], ops[n].e.writer;
    OnlyAdded(p);
    forall e | e in OpenAfter(p) || e in ClosedBy(p) ensures e.writer != w {
      assert AddedIn(p, e);
      var i :| 0 <= i < |p| && p[i] == Add(e);
      assert ops[i] == p[i];
    }
    if w in IndexOf(OpenAfter(p)) {
      var i := IndexOfFinds(OpenAfter(p), w);
      assert false;
    }
  }

  /** An open link has not been closed. */
  lemma OpenIsNotClosed(p: seq<Op>, w: ManagedWriter)
    requires FreshWriters(p) && w in IndexOf(OpenAfter(p))
    ensures !ClosedFor(p, w)
  {
    ClosedOnce(p);
    var closed, open := ClosedBy(p), OpenAfter(p);
    var i := IndexOfFinds(open, w);
    forall e | e in closed ensures e.writer != w {
      var j :| 0 <= j < |closed| && closed[j] == e;
      assert (closed + open)[j] == e && (closed + open)[|closed| + i] == open[i];
    }
  }

  lemma ClosedMore(p: seq<Op>, q: seq<Op>, w: ManagedWriter)
    requires ClosedBy(q) == ClosedBy(p) + OpenAfter(p)
    ensures ClosedFor(q, w) <==> ClosedFor(p, w) || w in IndexOf(OpenAfter(p))
  {
    var open := OpenAfter(p);
    if w in IndexOf(open) {
      var i := IndexOfFinds(open, w);
      assert open[i] in ClosedBy(q);
    }
    if e :| e in open && e.writer == w {
      var i :| 0 <= i < |open| && open[i] == e;
      IndexOfHas(open, i);
    }
  }

  lemma {:induction false} ActionsJoin(a: seq<Entry>, b: seq<Entry>)
    ensures Actions(a + b) == Actions(a) + Actions(b)
  {
    if b == [] {
      assert a + b == a;
    } else {
      ActionsJoin(a, b[..|b| - 1]);
      assert (a + b)[..|a + b| - 1] == a + b[..|b| - 1];
    }
  }

  /** The history `q` goes on from `p` with one call. */
  ghost predicate Follows(p: seq<Op>, op: Op, q: seq<Op>) {
    && OpenAfter(q) == (match op case Add(e) => OpenAfter(p) + [e] case Remove(w) => Without(OpenAfter(p), w) case CloseAll => [])
    && ClosedBy(q) == ClosedBy(p) + (if op.CloseAll? then OpenAfter(p) else [])
  }

  method PerformAdd(m: LinkManager, e: Entry, ghost p: seq<Op>, ghost q: seq<Op>, ghost ws: set<ManagedWriter>)
    requires Follows(p, Add(e), q) && e.writer !in IndexOf(OpenAfter(p)) && !ClosedFor(p, e.writer)
    requires m.Valid() && m.open == OpenAfter(p) && Tracks(m, p, ws)
    modifies m, m.links, m.links.root, m.links.nodes, e.writer
    ensures m.Valid() && m.open == OpenAfter(q) && Tracks(m, q, ws)
    ensures m.links.cut == old(m.links.cut) && forall n :: n in m.links.nodes ==> n in old(m.links.nodes) || fresh(n)
  {
    m.AddLink(e.writer, e.reader);
    assert ClosedBy(q) == ClosedBy(p);
  }

  method PerformRemove(m: LinkManager, w: ManagedWriter, ghost p: seq<Op>, ghost q: seq<Op>, ghost ws: set<ManagedWriter>)
    requires Follows(p, Remove(w), q) && w in ws && (w in m.index ==> !ClosedFor(p, w))
    requires m.Valid() && m.open == OpenAfter(p) && Tracks(m, p, ws)
    modifies m, m.links, m.links.root, m.links.nodes, m.links.cut, w
    ensures m.Valid() <==> !ClosedFor(p, w)
    ensures m.open == OpenAfter(q) && (m.Valid() ==> Tracks(m, q, ws)) && (!m.Valid() ==> m.links.len == |OpenAfter(p)| - 1)
    ensures m.links.cut == old(m.links.cut) && forall n :: n in m.links.nodes ==> n in old(m.links.nodes)
  {
    ghost var was := m.index;
    m.RemoveWriter(w);
    if !ClosedFor(p, w) {
      assert forall v :: v in ws && v != w ==> TracksOne(m, v, p, was);
      TracksRemoved(m, w, p, q, ws, was);
    }
  }

  ghost predicate TracksOne(m: LinkManager, v: ManagedWriter, p: seq<Op>, index: map<ManagedWriter, Entry>)
    reads m, m.links, v
  {
    && (v.element != null ==> v in index || v.element in m.links.cut)
    && (v.element != null <==> v in index || ClosedFor(p, v))
  }

  lemma TracksRemoved(m: LinkManager, w: ManagedWriter, p: seq<Op>, q: seq<Op>, ws: set<ManagedWriter>, was: map<ManagedWriter, Entry>)
    requires ClosedBy(q) == ClosedBy(p) + [] && !ClosedFor(p, w) && w.element == null && m.index == was - {w}
    requires forall v :: v in ws && v != w ==> TracksOne(m, v, p, was)
    ensures Tracks(m, q, ws)
  {
    SameClosed(p, q);
    forall v | v in ws ensures m.Belongs(v) && (v.element != null <==> v in m.index || ClosedFor(q, v)) {
      assert v != w ==> TracksOne(m, v, p, was);
    }
  }

  lemma SameClosed(p: seq<Op>, q: seq<Op>)
    requires ClosedBy(q) == ClosedBy(p) + []
    ensures forall w :: ClosedFor(q, w) <==> ClosedFor(p, w)
  {
  }

  method PerformCloseAll(m: LinkManager, ghost p: seq<Op>, ghost q: seq<Op>, ghost ws: set<ManagedWriter>) returns (actions: seq<Action>)
    requires Follows(p, CloseAll, q)
    requires m.Valid() && m.open == OpenAfter(p) && Tracks(m, p, ws)
    modifies m, m.links, m.links.root
    ensures m.Valid() && m.open == OpenAfter(q) && Tracks(m, q, ws) && m.links.nodes == []
    ensures actions == Actions(OpenAfter(p)) && m.links.cut == old(m.links.cut) + NodeSet(old(m.links.nodes))
  {
    forall w | w in m.index ensures w.element in NodeSet(m.links.nodes) {
      var i := IndexOfFinds(m.open, w);
      assert m.links.nodes[i] == w.element;
    }
    ghost var was := m.index;
    actions := m.CloseAll();
    forall w | w in ws ensures m.Belongs(w) && (w.element != null <==> w in m.index || ClosedFor(q, w)) {
      ClosedMore(p, q, w);
    }
  }

  /** The manager has carried out the history `p`. */
  ghost predicate Carried(m: LinkManager, p: seq<Op>, ws: set<ManagedWriter>)
    reads m, m.links, m.links.root, m.links.nodes, m.links.cut, ws, set i | 0 <= i < |m.open| :: m.open[i].writer
  {
    m.Valid() && m.open == OpenAfter(p) && Tracks(m, p, ws)
  }

  /** One call of a history on the manager; a removal after a CloseAll that has ended the link spoils it. */
  method Perform(m: LinkManager, op: Op, ghost p: seq<Op>, ghost q: seq<Op>, ghost ws: set<ManagedWriter>)
    returns (actions: seq<Action>, detached: bool)
    requires Follows(p, op, q) && FreshWriters(p) && WriterOf(op) <= ws && Carried(m, p, ws)
    requires op.Add? ==> op.e.writer !in IndexOf(OpenAfter(p)) && !ClosedFor(p, op.e.writer)
    modifies m, m.links, m.links.root, m.links.nodes, m.links.cut, WriterOf(op)
    ensures detached <==> op.Remove? && ClosedFor(p, op.w)
    ensures if detached then !m.Valid() && m.links.len == |OpenAfter(p)| - 1 else Carried(m, q, ws)
    ensures actions == if op.CloseAll? then Actions(OpenAfter(p)) else []
    ensures forall e :: e in m.links.nodes ==> e in old(m.links.nodes) || fresh(e)
    ensures forall e :: e in m.links.cut ==> e in old(m.links.cut) || e in old(m.links.nodes)
  {
    actions, detached := [], false;
    match op {
      case Add(e) => PerformAdd(m, e, p, q, ws);
      case Remove(w) =>
        if w in m.index { OpenIsNotClosed(p, w); }
        detached := w.element != null && w !in m.index;
        PerformRemove(m, w, p, q, ws);
      case CloseAll => actions := PerformCloseAll(m, p, q, ws);
    }
  }

  lemma FollowsAt(ops: seq<Op>, n: nat)
    requires FreshWriters(ops) && n < |ops|
    ensures Follows(ops[..n], ops[n], ops[..n + 1]) && FreshWriters(ops[..n]) && WriterOf(ops[n]) <= WritersOf(ops)
    ensures ops[n].Add? ==> ops[n].e.writer !in IndexOf(OpenAfter(ops[..n])) && !ClosedFor(ops[..n], ops[n].e.writer)
  {
    HistoryMore(ops, n);
    WriterIn(ops, n);
    if ops[n].Add? { AddedIsNew(ops, n); }
  }

  lemma ActionsMore(p: seq<Op>, op: Op, q: seq<Op>)
    requires Follows(p, op, q)
    ensures Actions(ClosedBy(q)) == Actions(ClosedBy(p)) + if op.CloseAll? then Actions(OpenAfter(p)) else []
  {
    if op.CloseAll? { ActionsJoin(ClosedBy(p), OpenAfter(p)); } else { assert ClosedBy(q) == ClosedBy(p); }
  }

  lemma NothingClosed(w: ManagedWriter)
    ensures !ClosedFor([], w) && OpenAfter([]) == [] && Actions(ClosedBy([])) == [] && Legal([])
  {
  }

  lemma NothingTracked(m: LinkManager, ws: set<ManagedWriter>)
    requires m.index == map[] && forall w :: w in ws ==> w.element == null
    ensures Tracks(m, [], ws)
  {
    forall w | w in ws ensures !ClosedFor([], w) { NothingClosed(w); }
  }

  /** What a history comes to when it has been carried out in full. */
  lemma HistoryEnds(ops: seq<Op>)
    requires FreshWriters(ops)
    ensures OpenAfter(ops) == Survivors(ops) && |OpenAfter(ops)| == Balance(ops)
  {
    OpenAreSurvivors(ops);
    CountIsBalance(ops);
  }

  /** The first `n` calls are legal and have closed this much. */
  ghost predicate Upto(ops: seq<Op>, n: nat, actions: seq<Action>)
    requires n <= |ops|
  {
    Legal(ops[..n]) && actions == Actions(ClosedBy(ops[..n]))
  }

  lemma UptoMore(ops: seq<Op>, n: nat, actions: seq<Action>)
    requires FreshWriters(ops) && n < |ops| && Upto(ops, n, actions)
    ensures var p, op := ops[..n], ops[n];
      if op.Remove? && ClosedFor(p, op.w) then !Legal(ops)
      else Upto(ops, n + 1, actions + if op.CloseAll? then Actions(OpenAfter(p)) else [])
  {
    FollowsAt(ops, n);
    ActionsMore(ops[..n], ops[n], ops[..n + 1]);
    LegalMore(ops, n);
    if Legal(ops) { LegalPrefix(ops, n + 1); }
  }

  /** The manager is made of these objects. */
  ghost predicate MadeOf(m: LinkManager, repr: set<object>)
    reads m, m.links
  {
    m in repr && m.links in repr && m.links.root in repr && NodeSet(m.links.nodes) <= repr && m.links.cut <= repr
  }

  /** The next call of the history. */
  method PerformNext(m: LinkManager, ops: seq<Op>, n: nat, ghost ws: set<ManagedWriter>, ghost repr: set<object>)
    returns (actions: seq<Action>, detached: bool, ghost repr': set<object>)
    requires FreshWriters(ops) && n < |ops| && WritersOf(ops) <= ws && Carried(m, ops[..n], ws) && MadeOf(m, repr)
    modifies repr, ws
    ensures detached <==> ops[n].Remove? && ClosedFor(ops[..n], ops[n].w)
    ensures if detached then !m.Valid() && m.links.len == |OpenAfter(ops[..n])| - 1 else Carried(m, ops[..n + 1], ws)
    ensures actions == if ops[n].CloseAll? then Actions(OpenAfter(ops[..n])) else []
    ensures MadeOf(m, repr') && repr <= repr' && fresh(repr' - repr)
  {
    FollowsAt(ops, n);
    assert forall i :: 0 <= i < |m.links.nodes| ==> m.links.nodes[i] in NodeSet(m.links.nodes);
    actions, detached := Perform(m, ops[n], ops[..n], ops[..n + 1], ws);
    repr' := repr + NodeSet(m.links.nodes);
    assert forall e :: e in old(m.links.nodes) ==> e in old(NodeSet(m.links.nodes));
  }

  method NewManager(ghost ops: seq<Op>, ghost ws: set<ManagedWriter>) returns (m: LinkManager, ghost repr: set<object>)
    requires forall w :: w in ws ==> w.element == null
    ensures fresh(repr) && MadeOf(m, repr) && Carried(m, ops[..0], ws) && Upto(ops, 0, [])
  {
    m := new LinkManager();
    repr := {m, m.links, m.links.root};
    NothingTracked(m, ws);
    assert ops[..0] == [];
  }

  /** The open links are those added and not ended since, and the count is their number. */
  ghost predicate FaithfulTo(m: LinkManager, ops: seq<Op>)
    reads m, m.links, m.links.root, m.links.nodes, m.links.cut, set i | 0 <= i < |m.open| :: m.open[i].writer
  {
    m.Valid() && m.open == Survivors(ops) && m.links.len == Balance(ops)
  }

  /** What is left of a history that has come to an illegal removal: a count that is one short. */
  ghost predicate SpoiltAt(m: LinkManager, ops: seq<Op>, n: nat)
    reads m, m.links, m.links.root, m.links.nodes, m.links.cut, set i | 0 <= i < |m.open| :: m.open[i].writer
  {
    && n < |ops| && Legal(ops[..n]) && ops[n].Remove? && ClosedFor(ops[..n], ops[n].w)
    && !m.Valid() && m.links.len == Balance(ops[..n]) - 1
  }

  /** The first `n` calls have been carried out. */
  ghost predicate Going(m: LinkManager, ops: seq<Op>, n: nat, actions: seq<Action>, ws: set<ManagedWriter>, repr: set<object>)
    reads m, m.links, m.links.root, m.links.nodes, m.links.cut, ws, set i | 0 <= i < |m.open| :: m.open[i].writer
  {
    n <= |ops| && MadeOf(m, repr) && Carried(m, ops[..n], ws) && Upto(ops, n, actions)
  }

  method GoOn(m: LinkManager, ops: seq<Op>, n: nat, before: seq<Action>, ghost ws: set<ManagedWriter>, ghost repr: set<object>)
    returns (actions: seq<Action>, detached: bool, ghost repr': set<object>)
    requires FreshWriters(ops) && WritersOf(ops) <= ws && n < |ops| && Going(m, ops, n, before, ws, repr)
    modifies repr, ws
    ensures repr <= repr' && fresh(repr' - repr)
    ensures if detached then !Legal(ops) && SpoiltAt(m, ops, n) else Going(m, ops, n + 1, actions, ws, repr')
  {
    UptoMore(ops, n, before);
    HistoryEnds(ops[..n]);
    var more;
    more, detached, repr' := PerformNext(m, ops, n, ws, repr);
    actions := before + more;
  }

  lemma GoneThrough(m: LinkManager, ops: seq<Op>, actions: seq<Action>, ws: set<ManagedWriter>, repr: set<object>)
    requires FreshWriters(ops) && Going(m, ops, |ops|, actions, ws, repr)
    ensures Legal(ops) && FaithfulTo(m, ops) && actions == Actions(ClosedBy(ops))
  {
    HistoryEnds(ops);
    assert ops[..|ops|] == ops;
  }

  /**
   * A history on a new manager, up to and including the first removal that is not legal.  Over every
   * legal history the manager's open links, its count and what it has closed are those of the history;
   * the first removal after a CloseAll that has ended the link leaves the count one short.
   */
  method Replay(ops: seq<Op>, ghost ws: set<ManagedWriter>) returns (m: LinkManager, n: nat, actions: seq<Action>)
    requires FreshWriters(ops) && WritersOf(ops) <= ws && forall w :: w in ws ==> w.element == null
    modifies ws
    ensures fresh(m) && (Legal(ops) <==> n == |ops|)
    ensures Legal(ops) ==> FaithfulTo(m, ops) && actions == Actions(ClosedBy(ops))
    ensures !Legal(ops) ==> SpoiltAt(m, ops, n)
  {
    n, actions := 0, [];
    ghost var repr;
    m, repr := NewManager(ops, ws);
    while n < |ops|
      invariant fresh(repr) && m in repr && Going(m, ops, n, actions, ws, repr)
    {
      var detached;
      actions, detached, repr := GoOn(m, ops, n, actions, ws, repr);
      if detached {
        return;
      }
      n := n + 1;
    }
    GoneThrough(m, ops, actions, ws, repr);
  }
}
