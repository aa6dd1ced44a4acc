/**
 * The inside of an online report (limiter/limiter.go): it walks the users, lists the addresses of each one
 * by one, and then deletes the user's map, while checks go on.
 */
module ReportRuns {
  import opened CheckRuns

  /** A walk of a concurrent map comes to every key that stays in it, and may come to any other it ever held. */
  datatype Walk =
    | Resting
    | Between(left: set<string>, closed: set<string>)
    | Visit(email: string, id: nat, owed: set<string>, ever: set<(string, int)>, seen: set<string>, left: set<string>, closed: set<string>)

  datatype Reporter = Reporter(node: Node, walk: Walk, listed: set<(string, string)>)

  datatype Act =
    | Check(e: Event)
    | Start
    | Open(email: string)
    | List(ip: string, uid: int)
    | Close
    | End

  function Pairs(m: map<string, int>): set<(string, int)> { set ip | ip in m :: (ip, m[ip]) }

  ghost predicate Can(s: Reporter, a: Act) {
    match a
    case Check(e) => !e.Report? && Enabled(s.node, e)
    case Start => s.walk.Resting?
    case Open(email) => s.walk.Between? && email in s.node.online && email !in s.walk.closed
    case List(ip, uid) => s.walk.Visit? && (ip, uid) in s.walk.ever && ip !in s.walk.seen
    case Close => s.walk.Visit? && s.walk.owed == {}
    case End => s.walk.Between? && s.walk.left == {}
  }

  /** The walk need not come to what a check has taken out. */
  function Follow(w: Walk, n: Node): Walk {
    match w
    case Resting => w
    case Between(left, closed) => Between(left * n.online.Keys, closed)
    case Visit(email, id, owed, ever, seen, left, closed) =>
      var m := MapAt(n, id);
      Visit(email, id, owed * m.Keys, ever + Pairs(m), seen, left * n.online.Keys, closed)
  }

  ghost function Do(s: Reporter, a: Act): Reporter
    requires Can(s, a)
  {
    var w := s.walk;
    match a
    case Check(e) => var n := Apply(s.node, e); s.(node := n, walk := Follow(w, n))
    case Start => Reporter(s.node.(previous := map[]), Between(s.node.online.Keys, {}), {})
    case Open(email) =>
      var id := s.node.online[email];
      var m := MapAt(s.node, id);
      s.(walk := Visit(email, id, m.Keys, Pairs(m), {}, w.left - {email}, w.closed))
    case List(ip, uid) =>
      Reporter(s.node.(previous := s.node.previous[ip := uid]), w.(owed := w.owed - {ip}, seen := w.seen + {ip}),
               s.listed + {(w.email, ip)})
    case Close => s.(node := s.node.(online := s.node.online - {w.email}), walk := Between(w.left, w.closed + {w.email}))
    case End => s.(walk := Resting)
  }

  ghost predicate DoneAt(states: seq<Reporter>, acts: seq<Act>, i: nat)
    requires i < |acts| < |states|
  {
    Can(states[i], acts[i]) && states[i + 1] == Do(states[i], acts[i])
  }

  ghost predicate Walks(states: seq<Reporter>, acts: seq<Act>) {
    |states| == |acts| + 1 && forall i :: 0 <= i < |acts| ==> DoneAt(states, acts, i)
  }

  /* ---------- Without checks the pieces are the one report ---------- */

  /** Visited so far: whole users, and part of the one being visited. */
  ghost predicate Passed(w: Walk, email: string, ip: string) {
    w.Resting? || email in w.closed || (w.Visit? && email == w.email && ip in w.seen)
  }

  /** The users are parted between those visited, the one being visited, and those to come. */
  ghost predicate Parted(n: Node, w: Walk) {
    match w
    case Resting => true
    case Between(left, closed) => left + closed == n.online.Keys && left !! closed
    case Visit(email, id, owed, ever, seen, left, closed) =>
      && left + closed + {email} == n.online.Keys && left !! closed && email !in left + closed
      && id == n.online[email] && ever == Pairs(MapAt(n, id)) && owed + seen == MapAt(n, id).Keys && owed !! seen
  }

  ghost predicate Recorded(n: Node, s: Reporter) {
    && (forall e, ip :: (e, ip) in s.listed <==> Present(n, e, ip) && Passed(s.walk, e, ip))
    && (forall e, ip :: (e, ip) in s.listed ==> ip in s.node.previous)
    && (forall ip :: ip in s.node.previous ==> exists e :: RecordedUnder(n, s, e, ip))
  }

  ghost predicate RecordedUnder(n: Node, s: Reporter, e: string, ip: string) {
    (e, ip) in s.listed && ip in s.node.previous && OnlineUnder(n, e, ip, s.node.previous[ip])
  }

  ghost predicate Reported(n: Node, s: Reporter) {
    && Parted(n, s.walk) && Recorded(n, s)
    && s.node == n.(online := if s.walk.Resting? then map[] else n.online - s.walk.closed, previous := s.node.previous)
  }

  lemma ReportedList(n: Node, s: Reporter, ip: string, uid: int)
    requires Reported(n, s) && Can(s, List(ip, uid))
    ensures Reported(n, Do(s, List(ip, uid)))
  {
    var s' := Do(s, List(ip, uid));
    var email := s.walk.email;
    assert OnlineUnder(n, email, ip, uid);
    assert RecordedUnder(n, s', email, ip);
    forall k | k in s'.node.previous && k != ip ensures exists e :: RecordedUnder(n, s', e, k) {
      var e :| RecordedUnder(n, s, e, k);
      assert RecordedUnder(n, s', e, k);
    }
    forall e, k ensures (e, k) in s'.listed <==> Present(n, e, k) && Passed(s'.walk, e, k) {
      assert (e, k) in s'.listed <==> (e, k) in s.listed || (e, k) == (email, ip);
    }
  }

  lemma ReportedOther(n: Node, s: Reporter, a: Act)
    requires Reported(n, s) && Can(s, a) && (a.Open? || a.Close? || a.End?)
    ensures Reported(n, Do(s, a))
  {
    var s' := Do(s, a);
    assert s'.listed == s.listed && s'.node.previous == s.node.previous;
    if a.Close? {
      assert n.online - s'.walk.closed == (n.online - s.walk.closed) - {s.walk.email};
    }
    if a.End? {
      assert n.online - s.walk.closed == map[];
    }
    forall e, ip | Present(n, e, ip) ensures Passed(s'.walk, e, ip) <==> Passed(s.walk, e, ip) {
    }
    forall ip | ip in s'.node.previous ensures exists e :: RecordedUnder(n, s', e, ip) {
      var e :| RecordedUnder(n, s, e, ip);
      assert RecordedUnder(n, s', e, ip);
    }
  }

  lemma {:induction false} ReportedSoFar(states: seq<Reporter>, acts: seq<Act>, i: nat)
    requires Walks(states, acts) && 0 < i <= |acts| && acts[0].Start?
    requires forall k :: 0 < k < |acts| ==> !acts[k].Check? && !acts[k].Start?
    ensures Reported(states[0].node, states[i])
  {
    assert DoneAt(states, acts, i - 1);
    if i > 1 {
      ReportedSoFar(states, acts, i - 1);
      if acts[i - 1].List? {
        ReportedList(states[0].node, states[i - 1], acts[i - 1].ip, acts[i - 1].uid);
      } else {
        ReportedOther(states[0].node, states[i - 1], acts[i - 1]);
      }
    }
  }

  /**
   * In whatever order it walks the users and their addresses, a report that no check disturbs lists exactly
   * the online devices and comes to a state that the report as one step comes to.
   */
  lemma UndisturbedIsReport(states: seq<Reporter>, acts: seq<Act>)
    requires Walks(states, acts) && 0 < |acts| && acts[0].Start? && states[|acts|].walk.Resting?
    requires forall k :: 0 < k < |acts| ==> !acts[k].Check? && !acts[k].Start?
    ensures var n, s := states[0].node, states[|acts|];
      && Enabled(n, Report(s.node.previous)) && s.node == Apply(n, Report(s.node.previous))
      && forall e, ip :: (e, ip) in s.listed <==> Present(n, e, ip)
  {
    ReportedSoFar(states, acts, |acts|);
    var n, s := states[0].node, states[|acts|];
    forall ip ensures ip in s.node.previous <==> ip in OnlineAddresses(n) {
      if ip in s.node.previous {
        var e :| RecordedUnder(n, s, e, ip);
      }
      if ip in OnlineAddresses(n) {
        var e :| e in n.online && ip in MapAt(n, n.online[e]);
        assert Present(n, e, ip);
        assert (e, ip) in s.listed;
      }
    }
    forall ip | ip in s.node.previous ensures exists e :: OnlineUnder(n, e, ip, s.node.previous[ip]) {
      var e :| RecordedUnder(n, s, e, ip);
    }
  }

  /* A report can always go through. */

  ghost predicate Reporting(states: seq<Reporter>, acts: seq<Act>, s0: Reporter, s: Reporter) {
    && Walks(states, acts) && 0 < |acts| && acts[0].Start? && states[0] == s0 && states[|acts|] == s
    && forall k :: 0 < k < |acts| ==> !acts[k].Check? && !acts[k].Start?
  }

  /** A report that no check disturbs has come to this state. */
  ghost predicate ComesTo(s0: Reporter, s: Reporter) {
    exists states, acts :: Reporting(states, acts, s0, s)
  }

  lemma ComesOn(s0: Reporter, s: Reporter, a: Act)
    requires ComesTo(s0, s) && Can(s, a) && !a.Check? && !a.Start?
    ensures ComesTo(s0, Do(s, a))
  {
    var states, acts :| Reporting(states, acts, s0, s);
    var states', acts' := states + [Do(s, a)], acts + [a];
    forall i | 0 <= i < |acts'| ensures DoneAt(states', acts', i) {
      assert i < |acts| ==> DoneAt(states, acts, i);
    }
    assert Reporting(states', acts', s0, Do(s, a));
  }

  lemma {:induction false} GoList(s0: Reporter, s: Reporter) returns (s': Reporter)
    requires ComesTo(s0, s) && s.walk.Visit? && s.walk.owed !! s.walk.seen
    requires forall ip :: ip in s.walk.owed ==> ip in MapAt(s.node, s.walk.id) && (ip, MapAt(s.node, s.walk.id)[ip]) in s.walk.ever
    ensures ComesTo(s0, s') && s'.walk.Visit? && s'.walk == s.walk.(owed := {}, seen := s'.walk.seen) && s'.node.online == s.node.online
    decreases |s.walk.owed|
  {
    if s.walk.owed == {} {
      s' := s;
    } else {
      var ip :| ip in s.walk.owed;
      var a := List(ip, MapAt(s.node, s.walk.id)[ip]);
      ComesOn(s0, s, a);
      s' := GoList(s0, Do(s, a));
    }
  }

  lemma {:induction false} GoUsers(s0: Reporter, s: Reporter) returns (s': Reporter)
    requires ComesTo(s0, s) && s.walk.Between? && s.walk.left <= s.node.online.Keys && s.walk.left !! s.walk.closed
    ensures ComesTo(s0, s') && s'.walk.Between? && s'.walk.left == {}
    decreases |s.walk.left|
  {
    if s.walk.left == {} {
      s' := s;
    } else {
      var email :| email in s.walk.left;
      ComesOn(s0, s, Open(email));
      var s1 := GoList(s0, Do(s, Open(email)));
      ComesOn(s0, s1, Close);
      s' := GoUsers(s0, Do(s1, Close));
    }
  }

  /** From every state without a report under way, a report can go through to its end. */
  lemma ReportGoesThrough(s: Reporter) returns (states: seq<Reporter>, acts: seq<Act>, s': Reporter)
    requires s.walk.Resting?
    ensures Reporting(states, acts, s, s') && s'.walk.Resting?
  {
    assert Walks([s, Do(s, Start)], [Start]) by { assert DoneAt([s, Do(s, Start)], [Start], 0); }
    assert Reporting([s, Do(s, Start)], [Start], s, Do(s, Start));
    var s1 := GoUsers(s, Do(s, Start));
    ComesOn(s, s1, End);
    s' := Do(s1, End);
    states, acts :| Reporting(states, acts, s, s');
  }

  /* ---------- What a visit misses ---------- */

  predicate StepsIn(s: Reporter, a: Act) { a.Check? && a.e.Step? && a.e.t in s.node.calls }

  /** A call enters the address in the map. */
  predicate Enters(s: Reporter, a: Act, id: nat, ip: string) {
    StepsIn(s, a) && s.node.calls[a.e.t].pc == Enter(id) && s.node.calls[a.e.t].ip == ip && ip !in MapAt(s.node, id)
  }

  /** A refused call takes its entry back. */
  predicate Withdraws(s: Reporter, a: Act, id: nat, ip: string) {
    StepsIn(s, a) && s.node.calls[a.e.t].pc == Retract(id, false) && s.node.calls[a.e.t].ip == ip
  }

  /** The user's map is taken out of the table: by a user update, or by the refusal of a call that made a map. */
  predicate Removes(s: Reporter, a: Act, email: string) {
    || a == Check(Drop(email))
    || (StepsIn(s, a) && s.node.calls[a.e.t].email == email && s.node.calls[a.e.t].pc.Retract? && s.node.calls[a.e.t].pc.made)
  }

  /** From the `i`-th state to the `n`-th, one user is visited. */
  ghost predicate Visiting(states: seq<Reporter>, acts: seq<Act>, i: nat, n: nat) {
    && Walks(states, acts) && 0 < i <= n <= |acts|
    && acts[i - 1].Open? && Owned(states[i - 1].node)
    && forall k :: i <= k < n ==> !acts[k].Close?
  }

  /** The address is entered after the visit has begun, stays, and the visit does not list it. */
  ghost predicate EnteredLate(states: seq<Reporter>, acts: seq<Act>, i: nat, n: nat, k: nat, id: nat, ip: string)
    requires n <= |acts| < |states|
  {
    && i <= k < n && Enters(states[k], acts[k], id, ip)
    && (forall j :: k < j < n ==> !Withdraws(states[j], acts[j], id, ip))
    && !ListedIn(acts, i, n, ip)
  }

  ghost predicate ListedIn(acts: seq<Act>, i: nat, n: nat, ip: string)
    requires n <= |acts|
  {
    exists j :: i <= j < n && acts[j].List? && acts[j].ip == ip
  }

  ghost predicate Late(states: seq<Reporter>, acts: seq<Act>, i: nat, n: nat, id: nat, ip: string)
    requires n <= |acts| < |states|
  {
    exists k: nat :: EnteredLate(states, acts, i, n, k, id, ip)
  }

  /** In the map, not listed, and not owed either. */
  predicate Missed(s: Reporter, ip: string) {
    s.walk.Visit? && ip in MapAt(s.node, s.walk.id) && ip !in s.walk.seen && ip !in s.walk.owed
  }

  /** One step of a check, as the visited map sees it. */
  lemma MapCall(s: Reporter, t: nat, name: nat, id: nat, ip: string)
    requires Can(s, Check(Step(t, name))) && id in s.node.owner
    ensures ip in MapAt(Apply(s.node, Step(t, name)), id) <==>
      Enters(s, Check(Step(t, name)), id, ip) || (ip in MapAt(s.node, id) && !Withdraws(s, Check(Step(t, name)), id, ip))
  {
    var c, n := s.node.calls[t], Apply(s.node, Step(t, name));
    match c.pc
    case LookUp =>
    case Enter(m) =>
    case Recall(m, made) => assert n.maps == s.node.maps;
    case Forget => assert n.maps == s.node.maps;
    case Retract(m, made) => assert made ==> n.maps == s.node.maps;
  }

  lemma MapStep(s: Reporter, a: Act, id: nat, ip: string)
    requires Can(s, a) && a.Check? && Owned(s.node) && id in s.node.owner
    ensures ip in MapAt(Apply(s.node, a.e), id) <==>
      Enters(s, a, id, ip) || (ip in MapAt(s.node, id) && !Withdraws(s, a, id, ip))
  {
    match a.e
    case Begin(t, email, _, uid, full) =>
    case Step(t, name) => MapCall(s, t, name, id, ip);
    case Drop(email) =>
  }

  ghost predicate InVisit(s: Reporter, w: Walk) {
    && Owned(s.node) && s.walk.Visit? && w.Visit? && s.walk.email == w.email && s.walk.id == w.id && w.id in s.node.owner
    && s.walk.owed <= MapAt(s.node, w.id).Keys
  }

  lemma VisitStep(s: Reporter, a: Act, w: Walk, ip: string)
    requires Can(s, a) && InVisit(s, w) && !a.Close?
    ensures InVisit(Do(s, a), w)
    ensures Missed(Do(s, a), ip) <==>
      (Enters(s, a, w.id, ip) && ip !in s.walk.seen) || (Missed(s, ip) && !Withdraws(s, a, w.id, ip) && !(a.List? && a.ip == ip))
    ensures Do(s, a).walk.seen == s.walk.seen + if a.List? then {a.ip} else {}
  {
    if a.Check? {
      MapStep(s, a, w.id, ip);
      OwnedStep(s.node, a.e);
    }
  }

  lemma LateMore(states: seq<Reporter>, acts: seq<Act>, i: nat, n: nat, id: nat, ip: string)
    requires i <= n < |acts| < |states|
    ensures var s, a := states[n], acts[n];
      Late(states, acts, i, n + 1, id, ip) <==>
        !(a.List? && a.ip == ip) &&
        ((Enters(s, a, id, ip) && !ListedIn(acts, i, n, ip)) || (Late(states, acts, i, n, id, ip) && !Withdraws(s, a, id, ip)))
  {
    var s, a, m := states[n], acts[n], n + 1;
    assert ListedIn(acts, i, m, ip) <==> ListedIn(acts, i, n, ip) || (a.List? && a.ip == ip);
    if k: nat :| EnteredLate(states, acts, i, m, k, id, ip) {
      if k < n { assert EnteredLate(states, acts, i, n, k, id, ip); }
    }
    if !(a.List? && a.ip == ip) && Enters(s, a, id, ip) && !ListedIn(acts, i, n, ip) {
      assert EnteredLate(states, acts, i, m, n, id, ip);
    }
    if k: nat :| EnteredLate(states, acts, i, n, k, id, ip) {
      if !(a.List? && a.ip == ip) && !Withdraws(s, a, id, ip) {
        assert EnteredLate(states, acts, i, m, k, id, ip);
      }
    }
  }

  /** All through a visit. */
  lemma {:induction false} MissedIff(states: seq<Reporter>, acts: seq<Act>, i: nat, n: nat, ip: string)
    requires Visiting(states, acts, i, n)
    ensures InVisit(states[n], states[i].walk)
    ensures ip in states[n].walk.seen <==> ListedIn(acts, i, n, ip)
    ensures Missed(states[n], ip) <==> Late(states, acts, i, n, states[i].walk.id, ip)
  {
    if n == i {
      assert DoneAt(states, acts, i - 1);
    } else {
      MissedIff(states, acts, i, n - 1, ip);
      assert DoneAt(states, acts, n - 1);
      VisitStep(states[n - 1], acts[n - 1], states[i].walk, ip);
      LateMore(states, acts, i, n - 1, states[i].walk.id, ip);
    }
  }

  /**
   * In every visit, whatever checks go on: an address of the map that the visit goes through, when it
   * deletes the user's entry, is missing from the report exactly if it was entered after the visit began
   * and neither taken back nor come to by the walk.
   */
  lemma UnlistedIff(states: seq<Reporter>, acts: seq<Act>, i: nat, n: nat, ip: string)
    requires Visiting(states, acts, i, n) && n < |acts| && acts[n].Close?
    ensures var s := states[n];
      s.walk.Visit? && (ip in MapAt(s.node, s.walk.id) && !ListedIn(acts, i, n, ip) <==> Late(states, acts, i, n, s.walk.id, ip))
  {
    MissedIff(states, acts, i, n, ip);
    assert DoneAt(states, acts, n);
  }

  ghost predicate RemovedIn(states: seq<Reporter>, acts: seq<Act>, i: nat, n: nat, email: string)
    requires n <= |acts| < |states|
  {
    exists k :: i <= k < n && Removes(states[k], acts[k], email)
  }

  predicate InTable(s: Reporter, email: string, id: nat) { email in s.node.online && s.node.online[email] == id }

  lemma TableCall(s: Reporter, t: nat, name: nat, email: string, id: nat)
    requires Can(s, Check(Step(t, name))) && id in s.node.owner
    ensures InTable(Do(s, Check(Step(t, name))), email, id) <==> InTable(s, email, id) && !Removes(s, Check(Step(t, name)), email)
  {
    var c, n := s.node.calls[t], Apply(s.node, Step(t, name));
    match c.pc
    case LookUp =>
    case Enter(m) => assert n.online == s.node.online;
    case Recall(m, made) => assert n.online == s.node.online;
    case Forget => assert n.online == s.node.online;
    case Retract(m, made) => assert n.online == if made then s.node.online - {c.email} else s.node.online;
  }

  lemma TableCheck(s: Reporter, a: Act, email: string, id: nat)
    requires Can(s, a) && a.Check? && id in s.node.owner
    ensures InTable(Do(s, a), email, id) <==> InTable(s, email, id) && !Removes(s, a, email)
  {
    match a.e
    case Begin(t, _, ip, uid, full) =>
    case Step(t, name) => TableCall(s, t, name, email, id);
    case Drop(other) =>
  }

  /** And the entry that it deletes is that of the map it has gone through exactly if nothing has taken the map out before. */
  lemma {:induction false} SameMapIff(states: seq<Reporter>, acts: seq<Act>, i: nat, n: nat)
    requires Visiting(states, acts, i, n)
    ensures var w := states[i].walk;
      w.Visit? && (InTable(states[n], w.email, w.id) <==> !RemovedIn(states, acts, i, n, w.email))
  {
    if n == i {
      assert DoneAt(states, acts, i - 1);
    } else {
      SameMapIff(states, acts, i, n - 1);
      MissedIff(states, acts, i, n - 1, "");
      assert DoneAt(states, acts, n - 1);
      if acts[n - 1].Check? {
        TableCheck(states[n - 1], acts[n - 1], states[i].walk.email, states[i].walk.id);
      }
    }
  }

  /** An address entered in the map while it is gone through may yet be listed. */
  lemma LateMayBeListed(s: Reporter, t: nat)
    requires s.walk.Visit? && t in s.node.calls && s.node.calls[t].pc == Enter(s.walk.id)
    requires s.node.calls[t].ip !in MapAt(s.node, s.walk.id) && s.node.calls[t].ip !in s.walk.seen
    ensures Can(s, Check(Step(t, 0))) && Can(Do(s, Check(Step(t, 0))), List(s.node.calls[t].ip, s.node.calls[t].uid))
  {
    var c, n := s.node.calls[t], Apply(s.node, Step(t, 0));
    assert c.ip in MapAt(n, s.walk.id) && MapAt(n, s.walk.id)[c.ip] == c.uid;
  }

  /** On the way to being listed, or listed. */
  ghost predicate Coming(s: Reporter, email: string, id: nat, ip: string) {
    (email, ip) in s.listed ||
    (InTable(s, email, id) && ip in MapAt(s.node, id) &&
      match s.walk
      case Resting => false
      case Between(left, _) => email in left
      case Visit(e, m, owed, _, _, left, _) => if e == email then m == id && ip in owed else email in left)
  }

  lemma ComingStep(s: Reporter, a: Act, email: string, id: nat, ip: string)
    requires Can(s, a) && Owned(s.node) && id in s.node.owner && !a.Start?
    requires Coming(s, email, id, ip) && !Removes(s, a, email) && !Withdraws(s, a, id, ip)
    ensures Coming(Do(s, a), email, id, ip)
  {
    if a.Check? {
      MapStep(s, a, id, ip);
      TableCheck(s, a, email, id);
    }
  }

  lemma OwnedWalk(s: Reporter, a: Act)
    requires Can(s, a) && Owned(s.node)
    ensures Owned(Do(s, a).node) && s.node.owner.Keys <= Do(s, a).node.owner.Keys
  {
    if a.Check? { OwnedStep(s.node, a.e); }
  }

  /** Nothing takes the user's map out, and no refused call the address out of it. */
  ghost predicate Stays(states: seq<Reporter>, acts: seq<Act>, n: nat, email: string, id: nat, ip: string)
    requires n <= |acts| < |states|
  {
    forall k :: 0 <= k < n ==> !Removes(states[k], acts[k], email) && !Withdraws(states[k], acts[k], id, ip)
  }

  lemma {:induction false} ComingAlong(states: seq<Reporter>, acts: seq<Act>, n: nat, email: string, id: nat, ip: string)
    requires Walks(states, acts) && 0 < n <= |acts| && acts[0].Start? && Owned(states[0].node)
    requires forall k :: 0 < k < n ==> !acts[k].Start?
    requires InTable(states[0], email, id) && ip in MapAt(states[0].node, id) && Stays(states, acts, n, email, id, ip)
    ensures Owned(states[n].node) && id in states[n].node.owner && Coming(states[n], email, id, ip)
  {
    assert DoneAt(states, acts, n - 1);
    if n > 1 {
      ComingAlong(states, acts, n - 1, email, id, ip);
      ComingStep(states[n - 1], acts[n - 1], email, id, ip);
    }
    OwnedWalk(states[n - 1], acts[n - 1]);
  }

  /** Whatever checks go on, a report lists every device that is online when it begins and that nothing takes out. */
  lemma StayersAreListed(states: seq<Reporter>, acts: seq<Act>, n: nat, email: string, ip: string)
    requires Walks(states, acts) && 0 < n <= |acts| && acts[0].Start? && acts[n - 1].End? && Owned(states[0].node)
    requires forall k :: 0 < k < n ==> !acts[k].Start?
    requires Present(states[0].node, email, ip) && Stays(states, acts, n, email, states[0].node.online[email], ip)
    ensures (email, ip) in states[n].listed
  {
    ComingAlong(states, acts, n, email, states[0].node.online[email], ip);
    assert DoneAt(states, acts, n - 1);
  }

  /**
   * From every state in which a visit has listed all it has to: a call that has looked the map up, for an
   * address not in it, can enter it now, and be accepted after the entry has been deleted, in no table and
   * in no report.
   */
  lemma LateHappens(s: Reporter, t: nat) returns (s': Reporter)
    requires s.walk.Visit? && s.walk.owed == {} && t in s.node.calls
    requires var c := s.node.calls[t];
      c.pc == Enter(s.walk.id) && c.email == s.walk.email && c.ip !in MapAt(s.node, s.walk.id) && !c.full && c.ip !in s.node.previous
    ensures Can(s, Check(Step(t, 0)))
    ensures var c, m := s.node.calls[t], Do(s, Check(Step(t, 0)));
      && Can(m, Close) && Can(Do(m, Close), Check(Step(t, 0))) && s' == Do(Do(m, Close), Check(Step(t, 0)))
      && t in s'.node.calls && s'.node.calls[t].pc == Done(true) && !Present(s'.node, c.email, c.ip) && s'.listed == s.listed
  {
    var m := Do(s, Check(Step(t, 0)));
    s' := Do(Do(m, Close), Check(Step(t, 0)));
  }
}
