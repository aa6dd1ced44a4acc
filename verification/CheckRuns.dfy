/**
 * The device step of CheckLimit as interleaved map operations (limiter/limiter.go): calls of many
 * connections run at once, and only a single load, store or delete is atomic.
 */
module CheckRuns {
  import opened LimiterTables

  datatype Pc =
    | LookUp                          // about to load the user's address map, or store a new one
    | Enter(id: nat)                  // has a map, about to load the address in it, or store it
    | Recall(id: nat, made: bool)     // has entered the address in that map, which it made or found
    | Forget                          // about to take the address out of the previous period
    | Retract(id: nat, made: bool)    // about to take its entry back
    | Done(accepted: bool)

  datatype Call = Call(email: string, ip: string, uid: int, full: bool, pc: Pc)

  datatype Node = Node(
    maps: map<nat, map<string, int>>,  // every address map ever made
    owner: map<nat, string>,           // the user it was made for
    online: map<string, nat>,          // by user key: its address map now
    previous: map<string, int>,
    calls: map<nat, Call>)

  /** `id` names the address map a step makes if it makes one. */
  datatype Event =
    | Begin(t: nat, email: string, ip: string, uid: int, full: bool)
    | Step(t: nat, id: nat)
    | Drop(email: string)
    | Report(previous: map<string, int>)

  function MapAt(s: Node, id: nat): map<string, int> { if id in s.maps then s.maps[id] else map[] }

  /** The online table as the limiter's other operations see it. */
  function View(s: Node): Online { map e | e in s.online :: MapAt(s, s.online[e]) }

  ghost function OnlineAddresses(s: Node): set<string> {
    set e, ip | e in s.online && ip in MapAt(s, s.online[e]) :: ip
  }

  ghost function Footprint(s: Node): set<string> {
    OnlineAddresses(s) + s.previous.Keys
  }

  /** A previous-period table a report can leave: each online address, with a uid it is online under. */
  ghost predicate Recalls(s: Node, previous: map<string, int>) {
    && previous.Keys == OnlineAddresses(s)
    && forall ip :: ip in previous ==> exists e :: OnlineUnder(s, e, ip, previous[ip])
  }

  ghost predicate OnlineUnder(s: Node, email: string, ip: string, uid: int) {
    Present(s, email, ip) && MapAt(s, s.online[email])[ip] == uid
  }

  predicate Present(s: Node, email: string, ip: string) {
    email in s.online && ip in MapAt(s, s.online[email])
  }

  ghost predicate Enabled(s: Node, e: Event) {
    match e
    case Begin(t, _, _, _, _) => t !in s.calls
    case Step(t, id) => t in s.calls && !s.calls[t].pc.Done? && (s.calls[t].pc.LookUp? ==> id !in s.owner)
    case Drop(_) => true
    case Report(previous) => Recalls(s, previous)
  }

  function Moved(s: Node, t: nat, pc: Pc): Node
    requires t in s.calls
  {
    s.(calls := s.calls[t := s.calls[t].(pc := pc)])
  }

  function DoLookUp(s: Node, t: nat, id: nat): Node
    requires t in s.calls
  {
    var c := s.calls[t];
    if c.email in s.online then Moved(s, t, Enter(s.online[c.email]))
    else
      Moved(s.(maps := s.maps[id := map[c.ip := c.uid]], owner := s.owner[id := c.email],
               online := s.online[c.email := id]), t, Recall(id, true))
  }

  function DoEnter(s: Node, t: nat, id: nat): Node
    requires t in s.calls
  {
    var c := s.calls[t];
    if c.ip in MapAt(s, id) then Moved(s, t, Done(true))
    else Moved(s.(maps := s.maps[id := MapAt(s, id)[c.ip := c.uid]]), t, Recall(id, false))
  }

  function DoRecall(s: Node, t: nat, id: nat, made: bool): Node
    requires t in s.calls
  {
    var c := s.calls[t];
    Moved(s, t,
      if c.ip in s.previous then if s.previous[c.ip] == c.uid then Forget else Done(true)
      else if c.full then Retract(id, made)
      else Done(true))
  }

  /** A call that made the user's map takes out whatever map the user has by now. */
  function DoRetract(s: Node, t: nat, id: nat, made: bool): Node
    requires t in s.calls
  {
    var c := s.calls[t];
    Moved(if made then s.(online := s.online - {c.email}) else s.(maps := s.maps[id := MapAt(s, id) - {c.ip}]),
          t, Done(false))
  }

  ghost function Apply(s: Node, e: Event): Node
    requires Enabled(s, e)
  {
    match e
    case Begin(t, email, ip, uid, full) => s.(calls := s.calls[t := Call(email, ip, uid, full, LookUp)])
    case Step(t, id) =>
      (match s.calls[t].pc
       case LookUp => DoLookUp(s, t, id)
       case Enter(m) => DoEnter(s, t, m)
       case Recall(m, made) => DoRecall(s, t, m, made)
       case Forget => Moved(s.(previous := s.previous - {s.calls[t].ip}), t, Done(true))
       case Retract(m, made) => DoRetract(s, t, m, made))
    case Drop(email) => s.(online := s.online - {email})
    case Report(previous) => s.(online := map[], previous := previous)
  }

  ghost predicate StepAt(states: seq<Node>, events: seq<Event>, i: nat)
    requires i < |events| < |states|
  {
    Enabled(states[i], events[i]) && states[i + 1] == Apply(states[i], events[i])
  }

  ghost predicate Run(states: seq<Node>, events: seq<Event>) {
    |states| == |events| + 1 && forall i :: 0 <= i < |events| ==> StepAt(states, events, i)
  }

  /* ---------- A call by itself is the atomic device step ---------- */

  /** Maps belong to one user each, and calls work on maps of their own user. */
  ghost predicate Owned(s: Node) {
    && s.maps.Keys == s.owner.Keys
    && (forall e :: e in s.online ==> s.online[e] in s.owner && s.owner[s.online[e]] == e)
    && (forall t :: t in s.calls ==> WorksOn(s, s.calls[t]))
  }

  ghost predicate WorksOn(s: Node, c: Call) {
    c.pc.Enter? || c.pc.Recall? || c.pc.Retract? ==> c.pc.id in s.owner && s.owner[c.pc.id] == c.email
  }

  function Rank(pc: Pc): nat {
    match pc
    case LookUp => 4
    case Enter(_) => 3
    case Recall(_, _) => 2
    case Forget => 1
    case Retract(_, _) => 1
    case Done(_) => 0
  }

  /** What the call does when no other step comes in between. */
  ghost function Finish(s: Node, t: nat, id: nat): Node
    requires t in s.calls && (s.calls[t].pc.LookUp? ==> id !in s.owner)
    decreases if t in s.calls then Rank(s.calls[t].pc) else 0
  {
    if s.calls[t].pc.Done? then s else Finish(Apply(s, Step(t, id)), t, id)
  }

  /** The tables as the atomic model has them. */
  function Seen(s: Node): Tables {
    Tables(0, map[], View(s), s.previous, map[], map[], map[])
  }

  /** From where the address has been entered: the previous period and the limit decide. */
  lemma FinishRecall(s: Node, t: nat, id: nat)
    requires t in s.calls && s.calls[t].pc.Recall?
    ensures var c, s' := s.calls[t], Finish(s, t, id);
      var refused := c.ip !in s.previous && c.full;
      && t in s'.calls && s'.calls[t].pc == Done(!refused)
      && s'.previous == (if c.ip in s.previous && s.previous[c.ip] == c.uid then s.previous - {c.ip} else s.previous)
      && (if refused then
            if c.pc.made then s'.online == s.online - {c.email} && s'.maps == s.maps
            else s'.online == s.online && s'.maps == s.maps[c.pc.id := MapAt(s, c.pc.id) - {c.ip}]
          else s'.online == s.online && s'.maps == s.maps)
  {
    var s1 := Apply(s, Step(t, id));
    if !s1.calls[t].pc.Done? {
      var s2 := Apply(s1, Step(t, id));
      assert Finish(s1, t, id) == Finish(s2, t, id) == s2;
    }
    assert Finish(s, t, id) == Finish(s1, t, id);
  }

  /** Storing a new user's map, and taking it out again. */
  lemma ViewStored(s: Node, s': Node, email: string, id: nat, m: map<string, int>)
    requires Owned(s) && email !in s.online && id !in s.owner
    requires s'.online == s.online[email := id] && s'.maps == s.maps[id := m]
    ensures View(s') == View(s)[email := m]
  {
    assert forall e :: e in s.online ==> s.online[e] != id;
  }

  lemma ViewWithdrawn(s: Node, s': Node, email: string, id: nat, m: map<string, int>)
    requires Owned(s) && email !in s.online && id !in s.owner
    requires s'.online == s.online[email := id] - {email} && s'.maps == s.maps[id := m]
    ensures View(s') == View(s)
  {
    assert s'.online == s.online;
    assert forall e :: e in s.online ==> s.online[e] != id;
  }

  /** A call for a user without an address map. */
  lemma AloneFresh(s: Node, t: nat, id: nat)
    requires Owned(s) && t in s.calls && s.calls[t].pc.LookUp? && id !in s.owner
    requires s.calls[t].email !in s.online
    ensures AloneEffect(s, t, id)
  {
    var c, s1 := s.calls[t], Apply(s, Step(t, id));
    var m := map[c.ip := c.uid];
    FinishRecall(s1, t, id);
    var s' := Finish(s, t, id);
    assert s' == Finish(s1, t, id);
    if c.ip !in s.previous && c.full {
      ViewWithdrawn(s, s', c.email, id, m);
    } else {
      ViewStored(s, s', c.email, id, m);
      assert WithDevice(View(s), c.email, c.ip, c.uid) == View(s)[c.email := m];
    }
  }

  /** Entering an address in the user's own map, and taking it out again. */
  lemma ViewEntered(s: Node, s': Node, email: string, m: map<string, int>)
    requires Owned(s) && email in s.online && s'.online == s.online && s'.maps == s.maps[s.online[email] := m]
    ensures View(s') == View(s)[email := m]
  {
    forall e | e in s.online && e != email ensures s.online[e] != s.online[email] {}
  }

  /** A call for a user that has one, from an address that is in it. */
  lemma AloneOnline(s: Node, t: nat, id: nat)
    requires Owned(s) && t in s.calls && s.calls[t].pc.LookUp? && id !in s.owner
    requires IsOnline(Seen(s), s.calls[t].email, s.calls[t].ip)
    ensures AloneEffect(s, t, id)
  {
    var s1 := Apply(s, Step(t, id));
    var s2 := Apply(s1, Step(t, id));
    assert Finish(s, t, id) == Finish(s1, t, id) == Finish(s2, t, id) == s2;
    assert View(s2) == View(s);
  }

  /** And from an address that is not. */
  lemma AloneEntered(s: Node, t: nat, id: nat)
    requires Owned(s) && t in s.calls && s.calls[t].pc.LookUp? && id !in s.owner
    requires s.calls[t].email in s.online && !IsOnline(Seen(s), s.calls[t].email, s.calls[t].ip)
    ensures AloneEffect(s, t, id)
  {
    var c, s1 := s.calls[t], Apply(s, Step(t, id));
    var id' := s.online[c.email];
    var m := MapAt(s, id');
    var s2 := Apply(s1, Step(t, id));
    assert Finish(s, t, id) == Finish(s1, t, id) == Finish(s2, t, id);
    var s' := Finish(s2, t, id);
    FinishRecall(s2, t, id);
    if c.ip !in s.previous && c.full {
      assert m[c.ip := c.uid] - {c.ip} == m;
      ViewEntered(s, s', c.email, m);
      assert View(s)[c.email := m] == View(s);
    } else {
      ViewEntered(s, s', c.email, m[c.ip := c.uid]);
    }
  }

  ghost predicate AloneEffect(s: Node, t: nat, id: nat)
    requires t in s.calls && s.calls[t].pc.LookUp? && id !in s.owner
  {
    var c, s' := s.calls[t], Finish(s, t, id);
    var refused := !IsOnline(Seen(s), c.email, c.ip) && c.ip !in s.previous && c.full;
    && t in s'.calls && s'.calls[t].pc == Done(!refused)
    && Seen(s') == if refused then Seen(s) else Tracked(Seen(s), c.email, c.ip, c.uid)
  }

  /** Undisturbed, the map operations amount to the atomic device step, refusal included. */
  lemma AloneIsAtomic(s: Node, t: nat, id: nat)
    requires Owned(s) && t in s.calls && s.calls[t].pc.LookUp? && id !in s.owner
    ensures AloneEffect(s, t, id)
  {
    if s.calls[t].email !in s.online {
      AloneFresh(s, t, id);
    } else if IsOnline(Seen(s), s.calls[t].email, s.calls[t].ip) {
      AloneOnline(s, t, id);
    } else {
      AloneEntered(s, t, id);
    }
  }

  /* ---------- Any interleaving ---------- */

  lemma MovedOwned(s: Node, t: nat, pc: Pc)
    requires Owned(s) && t in s.calls && WorksOn(s, s.calls[t].(pc := pc))
    ensures Owned(Moved(s, t, pc))
  {
    var s' := Moved(s, t, pc);
    forall u | u in s'.calls ensures WorksOn(s', s'.calls[u]) {
      assert u != t ==> s'.calls[u] == s.calls[u];
    }
  }

  /** A new map has a new name, so calls under way keep working on their own. */
  lemma StoredOwned(s: Node, email: string, id: nat, m: map<string, int>)
    requires Owned(s) && id !in s.owner
    ensures Owned(s.(maps := s.maps[id := m], owner := s.owner[id := email], online := s.online[email := id]))
  {
    var s' := s.(maps := s.maps[id := m], owner := s.owner[id := email], online := s.online[email := id]);
    forall u | u in s'.calls ensures WorksOn(s', s'.calls[u]) {
      assert WorksOn(s, s.calls[u]);
    }
  }

  lemma WrittenOwned(s: Node, id: nat, m: map<string, int>)
    requires Owned(s) && id in s.owner
    ensures Owned(s.(maps := s.maps[id := m]))
  {
    var s' := s.(maps := s.maps[id := m]);
    assert s'.maps.Keys == s.maps.Keys;
    forall u | u in s'.calls ensures WorksOn(s', s'.calls[u]) {
      assert WorksOn(s, s.calls[u]);
    }
  }

  lemma CallOwned(s: Node, t: nat, id: nat)
    requires Enabled(s, Step(t, id)) && Owned(s)
    ensures Owned(Apply(s, Step(t, id)))
  {
    var c := s.calls[t];
    match c.pc
    case LookUp =>
      if c.email in s.online {
        MovedOwned(s, t, Enter(s.online[c.email]));
      } else {
        StoredOwned(s, c.email, id, map[c.ip := c.uid]);
        MovedOwned(s.(maps := s.maps[id := map[c.ip := c.uid]], owner := s.owner[id := c.email],
                      online := s.online[c.email := id]), t, Recall(id, true));
      }
    case Enter(m) =>
      WrittenOwned(s, m, MapAt(s, m)[c.ip := c.uid]);
      MovedOwned(s, t, Done(true));
      MovedOwned(s.(maps := s.maps[m := MapAt(s, m)[c.ip := c.uid]]), t, Recall(m, false));
    case Recall(m, made) =>
      MovedOwned(s, t, DoRecall(s, t, m, made).calls[t].pc);
    case Forget =>
      MovedOwned(s.(previous := s.previous - {c.ip}), t, Done(true));
    case Retract(m, made) =>
      WrittenOwned(s, m, MapAt(s, m) - {c.ip});
      MovedOwned(if made then s.(online := s.online - {c.email}) else s.(maps := s.maps[m := MapAt(s, m) - {c.ip}]), t, Done(false));
  }

  lemma BeginOwned(s: Node, t: nat, c: Call)
    requires Owned(s) && c.pc.LookUp?
    ensures Owned(s.(calls := s.calls[t := c]))
  {
    var s' := s.(calls := s.calls[t := c]);
    forall u | u in s'.calls ensures WorksOn(s', s'.calls[u]) {
      assert u != t ==> s'.calls[u] == s.calls[u];
    }
  }

  lemma OwnedStep(s: Node, e: Event)
    requires Enabled(s, e) && Owned(s)
    ensures Owned(Apply(s, e))
  {
    match e
    case Begin(t, email, ip, uid, full) => BeginOwned(s, t, Call(email, ip, uid, full, LookUp));
    case Step(t, id) => CallOwned(s, t, id);
    case Drop(_) =>
    case Report(_) =>
  }

  /** A call that holds an entry for its address in this map and has not been decided. */
  predicate Holds(c: Call, email: string, ip: string, id: nat) {
    c.email == email && c.ip == ip && (c.pc.Recall? || c.pc.Retract?) && c.pc.id == id
  }

  ghost predicate Tentative(s: Node, email: string, ip: string, id: nat) {
    exists t :: t in s.calls && Holds(s.calls[t], email, ip, id)
  }

  /** Whatever is online or remembered is among `known`, or its call is still undecided. */
  ghost predicate Covered(s: Node, known: set<string>) {
    && s.previous.Keys <= known
    && forall e, ip :: e in s.online && ip in MapAt(s, s.online[e]) ==> ip in known || Tentative(s, e, ip, s.online[e])
  }

  ghost predicate AllFull(s: Node) {
    forall t :: t in s.calls ==> s.calls[t].full
  }

  /** No call is between entering its address and its verdict. */
  ghost predicate Settled(s: Node) {
    forall t :: t in s.calls ==> !s.calls[t].pc.Recall? && !s.calls[t].pc.Retract?
  }

  /** Calls other than `t` keep what they hold. */
  lemma OthersHold(s: Node, s': Node, t: nat, email: string, ip: string, id: nat)
    requires forall u :: u in s.calls && u != t ==> u in s'.calls && s'.calls[u] == s.calls[u]
    requires Tentative(s, email, ip, id) && (t in s.calls ==> !Holds(s.calls[t], email, ip, id))
    ensures Tentative(s', email, ip, id)
  {
    var u :| u in s.calls && Holds(s.calls[u], email, ip, id);
    assert u != t && Holds(s'.calls[u], email, ip, id);
  }

  lemma LookUpCovered(s: Node, t: nat, id: nat, known: set<string>)
    requires Enabled(s, Step(t, id)) && s.calls[t].pc.LookUp? && Owned(s) && Covered(s, known)
    ensures Covered(DoLookUp(s, t, id), known)
  {
    var c, s' := s.calls[t], DoLookUp(s, t, id);
    forall e, ip | e in s'.online && ip in MapAt(s', s'.online[e])
      ensures ip in known || Tentative(s', e, ip, s'.online[e])
    {
      if e == c.email && c.email !in s.online {
        assert Holds(s'.calls[t], e, ip, id);
      } else {
        assert s.online[e] != id || c.email in s.online;
        assert MapAt(s', s'.online[e]) == MapAt(s, s.online[e]);
        if ip !in known { OthersHold(s, s', t, e, ip, s.online[e]); }
      }
    }
  }

  lemma EnterCovered(s: Node, t: nat, id: nat, known: set<string>)
    requires Owned(s) && Covered(s, known) && t in s.calls && s.calls[t].pc == Enter(id)
    ensures Covered(DoEnter(s, t, id), known)
  {
    var c, s' := s.calls[t], DoEnter(s, t, id);
    forall e, ip | e in s'.online && ip in MapAt(s', s'.online[e])
      ensures ip in known || Tentative(s', e, ip, s'.online[e])
    {
      if ip in MapAt(s, s.online[e]) {
        if ip !in known { OthersHold(s, s', t, e, ip, s.online[e]); }
      } else {
        assert s.online[e] == id && ip == c.ip && e == c.email;
        assert Holds(s'.calls[t], e, ip, id);
      }
    }
  }

  lemma RecallCovered(s: Node, t: nat, id: nat, made: bool, known: set<string>)
    requires Covered(s, known) && t in s.calls && s.calls[t].pc == Recall(id, made) && s.calls[t].full
    ensures Covered(DoRecall(s, t, id, made), known)
  {
    var c, s' := s.calls[t], DoRecall(s, t, id, made);
    forall e, ip | e in s'.online && ip in MapAt(s', s'.online[e])
      ensures ip in known || Tentative(s', e, ip, s'.online[e])
    {
      assert MapAt(s', s'.online[e]) == MapAt(s, s.online[e]);
      if ip !in known {
        if Holds(c, e, ip, s.online[e]) {
          assert Holds(s'.calls[t], e, ip, s.online[e]);
        } else {
          OthersHold(s, s', t, e, ip, s.online[e]);
        }
      }
    }
  }

  lemma RetractCovered(s: Node, t: nat, id: nat, made: bool, known: set<string>)
    requires Owned(s) && Covered(s, known) && t in s.calls && s.calls[t].pc == Retract(id, made)
    ensures Covered(DoRetract(s, t, id, made), known)
  {
    var c, s' := s.calls[t], DoRetract(s, t, id, made);
    forall e, ip | e in s'.online && ip in MapAt(s', s'.online[e])
      ensures ip in known || Tentative(s', e, ip, s'.online[e])
    {
      assert ip in MapAt(s, s.online[e]);
      if ip !in known { OthersHold(s, s', t, e, ip, s.online[e]); }
    }
  }

  lemma OtherCovered(s: Node, e: Event, known: set<string>)
    requires Enabled(s, e) && Covered(s, known)
    requires e.Step? ==> s.calls[e.t].pc.Forget?
    requires e.Report? ==> Settled(s)
    ensures Covered(Apply(s, e), known)
  {
    var s' := Apply(s, e);
    if e.Report? {
      forall ip | ip in OnlineAddresses(s) ensures ip in known {
        var u :| u in s.online && ip in MapAt(s, s.online[u]);
        assert !Tentative(s, u, ip, s.online[u]);
      }
    } else {
      forall u, ip | u in s'.online && ip in MapAt(s', s'.online[u])
        ensures ip in known || Tentative(s', u, ip, s'.online[u])
      {
        if ip !in known {
          if e.Drop? {
            var w :| w in s.calls && Holds(s.calls[w], u, ip, s.online[u]);
            assert Holds(s'.calls[w], u, ip, s'.online[u]);
          } else {
            OthersHold(s, s', e.t, u, ip, s.online[u]);
          }
        }
      }
    }
  }

  lemma StepCovered(s: Node, e: Event, known: set<string>)
    requires Enabled(s, e) && Owned(s) && Covered(s, known) && AllFull(s) && (e.Report? ==> Settled(s))
    ensures Covered(Apply(s, e), known)
  {
    if e.Step? && !s.calls[e.t].pc.Forget? {
      match s.calls[e.t].pc
      case LookUp => LookUpCovered(s, e.t, e.id, known);
      case Enter(m) => EnterCovered(s, e.t, m, known);
      case Recall(m, made) => RecallCovered(s, e.t, m, made, known);
      case Retract(m, made) => RetractCovered(s, e.t, m, made, known);
    } else {
      OtherCovered(s, e, known);
    }
  }

  /** Nothing is under way. */
  ghost predicate Idle(s: Node) {
    Owned(s) && s.calls == map[]
  }

  /** Nothing is under way, and every map ever made holds only addresses that are online or remembered. */
  ghost predicate Quiet(s: Node) {
    Idle(s) && forall id :: id in s.maps ==> s.maps[id].Keys <= Footprint(s)
  }

  /** Every user checked is full, and reports fall between verdicts. */
  ghost predicate Regular(states: seq<Node>, events: seq<Event>, n: nat)
    requires Run(states, events) && n <= |events|
  {
    forall i :: 0 <= i < n ==>
      (events[i].Begin? ==> events[i].full) && (events[i].Report? ==> Settled(states[i]))
  }

  lemma StepFull(s: Node, e: Event)
    requires Enabled(s, e) && AllFull(s) && (e.Begin? ==> e.full)
    ensures AllFull(Apply(s, e))
  {
  }

  lemma QuietCovered(s: Node)
    requires Quiet(s)
    ensures Covered(s, Footprint(s))
  {
    forall e, ip | e in s.online && ip in MapAt(s, s.online[e]) ensures ip in Footprint(s) {
      assert ip in OnlineAddresses(s);
    }
  }

  lemma {:induction false} RunCovered(states: seq<Node>, events: seq<Event>, n: nat)
    requires Run(states, events) && n <= |events| && Quiet(states[0]) && Regular(states, events, n)
    ensures Owned(states[n]) && AllFull(states[n]) && Covered(states[n], Footprint(states[0]))
  {
    if n == 0 {
      QuietCovered(states[0]);
    } else {
      RunCovered(states, events, n - 1);
      assert StepAt(states, events, n - 1);
      var s, e := states[n - 1], events[n - 1];
      OwnedStep(s, e);
      StepFull(s, e);
      StepCovered(s, e, Footprint(states[0]));
    }
  }

  /**
   * However checks interleave, with every user full no address comes in: once the calls have their
   * verdicts, what is online or remembered was so at the start.
   */
  lemma InterleavedFootprint(states: seq<Node>, events: seq<Event>, n: nat)
    requires Run(states, events) && n <= |events| && Quiet(states[0]) && Regular(states, events, n)
    ensures Settled(states[n]) ==> Footprint(states[n]) <= Footprint(states[0])
  {
    RunCovered(states, events, n);
    var s := states[n];
    if Settled(s) {
      forall ip | ip in OnlineAddresses(s) ensures ip in Footprint(states[0]) {
        var e :| e in s.online && ip in MapAt(s, s.online[e]);
        assert !Tentative(s, e, ip, s.online[e]);
      }
    }
  }

  /* ---------- Who may be accepted ---------- */

  /** A call for this device that has got as far as writing or finding an entry. */
  ghost predicate Came(s: Node, email: string, ip: string) {
    exists u :: u in s.calls && SameDevice(s.calls[u], email, ip) && !s.calls[u].pc.LookUp? && !s.calls[u].pc.Enter?
  }

  predicate SameDevice(c: Call, email: string, ip: string) { c.email == email && c.ip == ip }

  ghost predicate Shared(s: Node, t: nat)
    requires t in s.calls
  {
    exists u :: u in s.calls && u != t && SameDevice(s.calls[u], s.calls[t].email, s.calls[t].ip)
  }

  ghost predicate Written(s: Node, known: set<string>) {
    forall id, ip :: id in s.maps && id in s.owner && ip in s.maps[id] ==> ip in known || Came(s, s.owner[id], ip)
  }

  /** An acceptance has its reason in the known addresses or in another call for the same device. */
  ghost predicate Reasoned(s: Node, known: set<string>) {
    forall t :: t in s.calls ==>
      && (s.calls[t].pc.Forget? ==> s.calls[t].ip in known)
      && (s.calls[t].pc == Done(true) ==> s.calls[t].ip in known || Shared(s, t))
  }

  lemma CameStays(s: Node, s': Node, t: nat, email: string, ip: string)
    requires t in s.calls && t in s'.calls && s'.calls.Keys == s.calls.Keys
    requires forall u :: u in s.calls && u != t ==> s'.calls[u] == s.calls[u]
    requires SameDevice(s'.calls[t], s.calls[t].email, s.calls[t].ip)
    requires !s'.calls[t].pc.LookUp? && (s'.calls[t].pc.Enter? ==> s.calls[t].pc.LookUp?)
    requires Came(s, email, ip)
    ensures Came(s', email, ip)
  {
    var u :| u in s.calls && SameDevice(s.calls[u], email, ip) && !s.calls[u].pc.LookUp? && !s.calls[u].pc.Enter?;
    assert SameDevice(s'.calls[u], email, ip);
  }

  /** A step of call `t` that writes no new address keeps every map's entries accounted for. */
  lemma MovedWritten(s: Node, s': Node, t: nat, known: set<string>)
    requires Written(s, known) && t in s.calls && s'.calls.Keys == s.calls.Keys && s'.owner == s.owner
    requires forall u :: u in s.calls && u != t ==> s'.calls[u] == s.calls[u]
    requires SameDevice(s'.calls[t], s.calls[t].email, s.calls[t].ip)
    requires !s'.calls[t].pc.LookUp? && (s'.calls[t].pc.Enter? ==> s.calls[t].pc.LookUp?)
    requires forall id, ip :: id in s'.maps && id in s.owner && ip in s'.maps[id] && !(id in s.maps && ip in s.maps[id]) ==>
      s.owner[id] == s.calls[t].email && ip == s.calls[t].ip && !s'.calls[t].pc.Enter?
    ensures Written(s', known)
  {
    forall id, ip | id in s'.maps && id in s'.owner && ip in s'.maps[id] ensures ip in known || Came(s', s'.owner[id], ip) {
      if id in s.maps && ip in s.maps[id] {
        if ip !in known { CameStays(s, s', t, s.owner[id], ip); }
      } else {
        assert SameDevice(s'.calls[t], s'.owner[id], ip);
      }
    }
  }

  lemma MovedReasoned(s: Node, s': Node, t: nat, known: set<string>)
    requires Reasoned(s, known) && t in s.calls && s'.calls.Keys == s.calls.Keys
    requires forall u :: u in s.calls && u != t ==> s'.calls[u] == s.calls[u]
    requires SameDevice(s'.calls[t], s.calls[t].email, s.calls[t].ip)
    requires s'.calls[t].pc.Forget? ==> s.calls[t].ip in known
    requires s'.calls[t].pc == Done(true) ==> s.calls[t].ip in known || Shared(s, t)
    ensures Reasoned(s', known)
  {
    forall u | u in s'.calls && s'.calls[u].pc == Done(true) ensures s'.calls[u].ip in known || Shared(s', u) {
      if s'.calls[u].ip !in known {
        var w :| w in s.calls && w != u && SameDevice(s.calls[w], s.calls[u].email, s.calls[u].ip);
        assert SameDevice(s'.calls[w], s'.calls[u].email, s'.calls[u].ip);
      }
    }
  }

  /** The call that finds an address it has not written itself shares its device with the call that has. */
  lemma FoundIsShared(s: Node, t: nat, id: nat, known: set<string>)
    requires Owned(s) && Written(s, known) && t in s.calls && s.calls[t].pc == Enter(id)
    requires s.calls[t].ip in MapAt(s, id)
    ensures s.calls[t].ip in known || Shared(s, t)
  {
    var c := s.calls[t];
    assert WorksOn(s, c);
    if c.ip !in known {
      assert Came(s, s.owner[id], c.ip);
      var u :| u in s.calls && SameDevice(s.calls[u], c.email, c.ip) && !s.calls[u].pc.LookUp? && !s.calls[u].pc.Enter?;
      assert u != t;
    }
  }

  lemma LookUpExplained(s: Node, t: nat, id: nat, known: set<string>)
    requires Enabled(s, Step(t, id)) && s.calls[t].pc.LookUp? && Owned(s)
    requires Written(s, known) && Reasoned(s, known)
    ensures Written(DoLookUp(s, t, id), known) && Reasoned(DoLookUp(s, t, id), known)
  {
    var c, s' := s.calls[t], DoLookUp(s, t, id);
    MovedReasoned(s, s', t, known);
    if c.email in s.online {
      MovedWritten(s, s', t, known);
    } else {
      forall m, ip | m in s'.maps && m in s'.owner && ip in s'.maps[m] ensures ip in known || Came(s', s'.owner[m], ip) {
        if m == id {
          assert SameDevice(s'.calls[t], c.email, ip);
        } else if ip !in known {
          CameStays(s, s', t, s.owner[m], ip);
        }
      }
    }
  }

  lemma EnterExplained(s: Node, t: nat, id: nat, known: set<string>)
    requires Owned(s) && t in s.calls && s.calls[t].pc == Enter(id)
    requires Written(s, known) && Reasoned(s, known)
    ensures Written(DoEnter(s, t, id), known) && Reasoned(DoEnter(s, t, id), known)
  {
    var s' := DoEnter(s, t, id);
    assert WorksOn(s, s.calls[t]);
    if s.calls[t].ip in MapAt(s, id) { FoundIsShared(s, t, id, known); }
    MovedReasoned(s, s', t, known);
    MovedWritten(s, s', t, known);
  }

  lemma RecallExplained(s: Node, t: nat, id: nat, made: bool, known: set<string>)
    requires t in s.calls && s.calls[t].pc == Recall(id, made) && s.calls[t].full && s.previous.Keys <= known
    requires Written(s, known) && Reasoned(s, known)
    ensures Written(DoRecall(s, t, id, made), known) && Reasoned(DoRecall(s, t, id, made), known)
  {
    var s' := DoRecall(s, t, id, made);
    MovedReasoned(s, s', t, known);
    MovedWritten(s, s', t, known);
  }

  lemma RetractExplained(s: Node, t: nat, id: nat, made: bool, known: set<string>)
    requires Owned(s) && t in s.calls && s.calls[t].pc == Retract(id, made)
    requires Written(s, known) && Reasoned(s, known)
    ensures Written(DoRetract(s, t, id, made), known) && Reasoned(DoRetract(s, t, id, made), known)
  {
    var s' := DoRetract(s, t, id, made);
    MovedReasoned(s, s', t, known);
    MovedWritten(s, s', t, known);
  }

  lemma BeginExplained(s: Node, t: nat, c: Call, known: set<string>)
    requires t !in s.calls && c.pc.LookUp? && Written(s, known) && Reasoned(s, known)
    ensures var s' := s.(calls := s.calls[t := c]); Written(s', known) && Reasoned(s', known)
  {
    var s' := s.(calls := s.calls[t := c]);
    forall id, ip | id in s'.maps && id in s'.owner && ip in s'.maps[id] ensures ip in known || Came(s', s'.owner[id], ip) {
      if ip !in known {
        var u :| u in s.calls && SameDevice(s.calls[u], s.owner[id], ip) && !s.calls[u].pc.LookUp? && !s.calls[u].pc.Enter?;
        assert SameDevice(s'.calls[u], s.owner[id], ip);
      }
    }
    forall u | u in s'.calls && s'.calls[u].pc == Done(true) ensures s'.calls[u].ip in known || Shared(s', u) {
      if s'.calls[u].ip !in known {
        var w :| w in s.calls && w != u && SameDevice(s.calls[w], s.calls[u].email, s.calls[u].ip);
        assert SameDevice(s'.calls[w], s'.calls[u].email, s'.calls[u].ip);
      }
    }
  }

  lemma SameCallsExplained(s: Node, s': Node, known: set<string>)
    requires s'.calls == s.calls && s'.maps == s.maps && s'.owner == s.owner && Written(s, known) && Reasoned(s, known)
    ensures Written(s', known) && Reasoned(s', known)
  {
    forall id, ip | id in s'.maps && id in s'.owner && ip in s'.maps[id] ensures ip in known || Came(s', s'.owner[id], ip) {
      assert Came(s, s.owner[id], ip) ==> Came(s', s'.owner[id], ip);
    }
    forall u | u in s'.calls && s'.calls[u].pc == Done(true) ensures s'.calls[u].ip in known || Shared(s', u) {
      assert Shared(s, u) ==> Shared(s', u);
    }
  }

  lemma CallExplained(s: Node, t: nat, id: nat, known: set<string>)
    requires Enabled(s, Step(t, id)) && Owned(s) && s.calls[t].full && s.previous.Keys <= known
    requires Written(s, known) && Reasoned(s, known)
    ensures Written(Apply(s, Step(t, id)), known) && Reasoned(Apply(s, Step(t, id)), known)
  {
    match s.calls[t].pc
    case LookUp => LookUpExplained(s, t, id, known);
    case Enter(m) => EnterExplained(s, t, m, known);
    case Recall(m, made) => RecallExplained(s, t, m, made, known);
    case Retract(m, made) => RetractExplained(s, t, m, made, known);
    case Forget =>
      var s' := Apply(s, Step(t, id));
      MovedReasoned(s, s', t, known);
      MovedWritten(s, s', t, known);
  }

  lemma {:induction false} RunExplained(states: seq<Node>, events: seq<Event>, n: nat)
    requires Run(states, events) && n <= |events| && Quiet(states[0]) && Regular(states, events, n)
    ensures Written(states[n], Footprint(states[0])) && Reasoned(states[n], Footprint(states[0]))
  {
    if n > 0 {
      RunExplained(states, events, n - 1);
      assert StepAt(states, events, n - 1);
      RunCovered(states, events, n - 1);
      var s, e, known := states[n - 1], events[n - 1], Footprint(states[0]);
      match e
      case Begin(t, email, ip, uid, full) => BeginExplained(s, t, Call(email, ip, uid, full, LookUp), known);
      case Step(t, id) => CallExplained(s, t, id, known);
      case Drop(_) => SameCallsExplained(s, Apply(s, e), known);
      case Report(_) => SameCallsExplained(s, Apply(s, e), known);
    }
  }

  /**
   * However checks interleave, with every user full a device is accepted only from an address online
   * or remembered at the start, or when another connection of the same device is checked as well.
   */
  lemma AcceptedIsKnownOrShared(states: seq<Node>, events: seq<Event>, n: nat, t: nat)
    requires Run(states, events) && n <= |events| && Quiet(states[0]) && Regular(states, events, n)
    requires t in states[n].calls && states[n].calls[t].pc == Done(true)
    ensures states[n].calls[t].ip in Footprint(states[0]) || Shared(states[n], t)
  {
    RunExplained(states, events, n);
  }
}
