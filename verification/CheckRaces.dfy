/**
 * What interleaved checks can do that atomic ones cannot (limiter/limiter.go): exactly when a call is
 * accepted from an address nobody knows, and exactly when a report keeps one that is refused.
 */
module CheckRaces {
  import opened LimiterTables
  import opened CheckRuns

  /* ---------- Interleavings of a given set of calls ---------- */

  /** The connections to be checked, each by its own thread. */
  ghost predicate Pending(cs: map<nat, Call>) {
    forall t :: t in cs ==> cs[t].pc.LookUp?
  }

  ghost predicate FullCalls(cs: map<nat, Call>) {
    forall t :: t in cs ==> cs[t].full
  }

  /**
   * When reports come: between verdicts only; anywhere; never, within one user's period; or only while
   * they do not list the device that call `u` is for, once that call has begun.
   */
  datatype Mode = Settling | Anywhere | Within(email: string) | Unlisted(email: string, ip: string, u: nat)

  /** Only the given calls begin. */
  ghost predicate Fits(s: Node, e: Event, cs: map<nat, Call>, mode: Mode) {
    match e
    case Begin(t, email, ip, uid, full) => t in cs && cs[t] == Call(email, ip, uid, full, LookUp)
    case Step(_, _) => true
    case Drop(email) => mode.Within? || mode.Unlisted? ==> email != mode.email
    case Report(_) => ReportFits(s, mode)
  }

  ghost predicate ReportFits(s: Node, mode: Mode) {
    match mode
    case Settling => Settled(s)
    case Anywhere => true
    case Within(_) => false
    case Unlisted(email, ip, u) => !(u in s.calls && Present(s, email, ip))
  }

  ghost predicate Journey(states: seq<Node>, events: seq<Event>, s0: Node, s: Node, cs: map<nat, Call>, mode: Mode) {
    && Run(states, events) && states[0] == s0 && states[|events|] == s
    && forall i :: 0 <= i < |events| ==> FitsAt(states, events, i, cs, mode)
  }

  ghost predicate FitsAt(states: seq<Node>, events: seq<Event>, i: nat, cs: map<nat, Call>, mode: Mode)
    requires i < |events| < |states|
  {
    Fits(states[i], events[i], cs, mode)
  }

  /** Some interleaving of the calls leads from one state to the other. */
  ghost predicate Goes(s0: Node, s: Node, cs: map<nat, Call>, mode: Mode) {
    exists states, events :: Journey(states, events, s0, s, cs, mode)
  }

  lemma GoesNowhere(s: Node, cs: map<nat, Call>, mode: Mode)
    ensures Goes(s, s, cs, mode)
  {
    assert Journey([s], [], s, s, cs, mode);
  }

  lemma RunMore(states: seq<Node>, events: seq<Event>, s: Node, e: Event, s': Node)
    requires Run(states, events) && states[|events|] == s && Enabled(s, e) && s' == Apply(s, e)
    ensures Run(states + [s'], events + [e])
  {
    var states', events' := states + [s'], events + [e];
    forall i | 0 <= i < |events'| ensures StepAt(states', events', i) {
      if i < |events| { assert StepAt(states, events, i); }
    }
  }

  lemma JourneyMore(states: seq<Node>, events: seq<Event>, s0: Node, s: Node, cs: map<nat, Call>, mode: Mode, e: Event, s': Node)
    requires Journey(states, events, s0, s, cs, mode) && Enabled(s, e) && s' == Apply(s, e) && Fits(s, e, cs, mode)
    ensures Journey(states + [s'], events + [e], s0, s', cs, mode)
  {
    RunMore(states, events, s, e, s');
    var states', events' := states + [s'], events + [e];
    forall i | 0 <= i < |events'| ensures FitsAt(states', events', i, cs, mode) {
      if i < |events| { assert FitsAt(states, events, i, cs, mode); }
    }
  }

  lemma GoesOn(s0: Node, s: Node, cs: map<nat, Call>, mode: Mode, e: Event)
    requires Goes(s0, s, cs, mode) && Enabled(s, e) && Fits(s, e, cs, mode)
    ensures Goes(s0, Apply(s, e), cs, mode)
  {
    var states, events :| Journey(states, events, s0, s, cs, mode);
    JourneyMore(states, events, s0, s, cs, mode, e, Apply(s, e));
  }

  /** A number that names no map yet. */
  lemma {:induction false} FreshName(used: set<nat>) returns (n: nat)
    ensures forall m :: m in used ==> m < n
  {
    if used == {} {
      n := 0;
    } else {
      var m :| m in used;
      var k := FreshName(used - {m});
      n := if m < k then k else m + 1;
      forall i | i in used ensures i < n { assert i == m || i in used - {m}; }
    }
  }

  /** The calls of a state are the given ones, each as far as it has got. */
  ghost predicate CallsOf(s: Node, cs: map<nat, Call>) {
    forall t :: t in s.calls ==> t in cs && s.calls[t] == cs[t].(pc := s.calls[t].pc)
  }

  lemma CallsOfStep(s: Node, e: Event, cs: map<nat, Call>, mode: Mode)
    requires CallsOf(s, cs) && Enabled(s, e) && Fits(s, e, cs, mode)
    ensures CallsOf(Apply(s, e), cs)
  {
    if e.Step? { StepMoves(s, e.t, e.id); }
  }

  /** A step moves its own call and nothing else about it. */
  ghost predicate Moves(s: Node, s': Node, t: nat)
    requires t in s.calls
  {
    t in s'.calls && s'.calls == s.calls[t := s.calls[t].(pc := s'.calls[t].pc)]
  }

  lemma LookUpMoves(s: Node, t: nat, id: nat)
    requires t in s.calls
    ensures Moves(s, DoLookUp(s, t, id), t)
  {
  }

  lemma EnterMoves(s: Node, t: nat, id: nat)
    requires t in s.calls
    ensures Moves(s, DoEnter(s, t, id), t)
  {
  }

  lemma RetractMoves(s: Node, t: nat, id: nat, made: bool)
    requires t in s.calls
    ensures Moves(s, DoRetract(s, t, id, made), t)
  {
  }

  lemma StepMoves(s: Node, t: nat, id: nat)
    requires Enabled(s, Step(t, id))
    ensures Moves(s, Apply(s, Step(t, id)), t)
  {
    match s.calls[t].pc
    case LookUp => LookUpMoves(s, t, id);
    case Enter(m) => EnterMoves(s, t, m);
    case Retract(m, made) => RetractMoves(s, t, m, made);
    case _ =>
  }

  lemma {:induction false} RunCallsOf(states: seq<Node>, events: seq<Event>, s0: Node, s: Node, cs: map<nat, Call>, mode: Mode, n: nat)
    requires Journey(states, events, s0, s, cs, mode) && n <= |events| && s0.calls == map[]
    ensures CallsOf(states[n], cs)
  {
    if n > 0 {
      RunCallsOf(states, events, s0, s, cs, mode, n - 1);
      assert StepAt(states, events, n - 1) && FitsAt(states, events, n - 1, cs, mode);
      CallsOfStep(states[n - 1], events[n - 1], cs, mode);
    }
  }

  lemma JourneyIsRegular(states: seq<Node>, events: seq<Event>, s0: Node, s: Node, cs: map<nat, Call>)
    requires Journey(states, events, s0, s, cs, Settling) && Pending(cs) && FullCalls(cs)
    ensures Regular(states, events, |events|)
  {
    forall i | 0 <= i < |events|
      ensures (events[i].Begin? ==> events[i].full) && (events[i].Report? ==> Settled(states[i]))
    {
      assert FitsAt(states, events, i, cs, Settling);
    }
  }

  /* ---------- Moves of one call ---------- */

  lemma GoBegin(s0: Node, s: Node, cs: map<nat, Call>, mode: Mode, t: nat) returns (s': Node)
    requires Goes(s0, s, cs, mode) && Pending(cs) && t in cs && t !in s.calls
    ensures Goes(s0, s', cs, mode) && s' == s.(calls := s.calls[t := cs[t]])
  {
    var c := cs[t];
    var e := Begin(t, c.email, c.ip, c.uid, c.full);
    assert c == Call(c.email, c.ip, c.uid, c.full, LookUp);
    s' := Apply(s, e);
    GoesOn(s0, s, cs, mode, e);
  }

  /** What a call that has entered a new address leaves behind. */
  ghost predicate Entered(s: Node, s': Node, t: nat, id: nat, made: bool)
    requires t in s.calls
  {
    && s'.calls == s.calls[t := s.calls[t].(pc := Recall(id, made))] && s'.previous == s.previous
    && Present(s', s.calls[t].email, s.calls[t].ip) && s'.online[s.calls[t].email] == id
    && (made <==> s.calls[t].email !in s.online)
    && (made ==> MapAt(s', id).Keys == {s.calls[t].ip} && s'.online == s.online[s.calls[t].email := id])
    && (!made ==> s'.online == s.online)
  }

  /** A call whose address is not online enters it, into a map it finds or makes. */
  lemma GoEnterNew(s0: Node, s: Node, cs: map<nat, Call>, mode: Mode, t: nat) returns (s': Node, id: nat, made: bool)
    requires Goes(s0, s, cs, mode) && t in s.calls && s.calls[t].pc.LookUp?
    requires !Present(s, s.calls[t].email, s.calls[t].ip)
    ensures Goes(s0, s', cs, mode) && Entered(s, s', t, id, made)
  {
    var c := s.calls[t];
    var name := FreshName(s.owner.Keys);
    GoesOn(s0, s, cs, mode, Step(t, name));
    s' := Apply(s, Step(t, name));
    made := c.email !in s.online;
    if made {
      id := name;
    } else {
      id := s.online[c.email];
      var s1 := s';
      s' := GoEnterFound(s0, s1, cs, mode, t, id);
      assert s'.calls == s.calls[t := c.(pc := Recall(id, made))];
    }
  }

  lemma GoEnterFound(s0: Node, s: Node, cs: map<nat, Call>, mode: Mode, t: nat, id: nat) returns (s': Node)
    requires Goes(s0, s, cs, mode) && t in s.calls && s.calls[t].pc == Enter(id)
    requires s.calls[t].email in s.online && s.online[s.calls[t].email] == id && s.calls[t].ip !in MapAt(s, id)
    ensures Goes(s0, s', cs, mode) && s'.online == s.online && s'.previous == s.previous
    ensures s'.calls == s.calls[t := s.calls[t].(pc := Recall(id, false))] && s.calls[t].ip in MapAt(s', id)
  {
    GoesOn(s0, s, cs, mode, Step(t, 0));
    s' := Apply(s, Step(t, 0));
  }

  /** A call that finds its address online is accepted. */
  lemma GoFind(s0: Node, s: Node, cs: map<nat, Call>, mode: Mode, t: nat) returns (s': Node)
    requires Goes(s0, s, cs, mode) && t in s.calls && s.calls[t].pc.LookUp?
    requires Present(s, s.calls[t].email, s.calls[t].ip)
    ensures Goes(s0, s', cs, mode) && s' == Moved(s, t, Done(true))
  {
    var c := s.calls[t];
    var name := FreshName(s.owner.Keys);
    GoesOn(s0, s, cs, mode, Step(t, name));
    var s1 := Apply(s, Step(t, name));
    assert s1 == Moved(s, t, Enter(s.online[c.email]));
    GoesOn(s0, s1, cs, mode, Step(t, name));
    s' := Apply(s1, Step(t, name));
    assert s'.calls == s.calls[t := c.(pc := Done(true))];
  }

  /** A call of a full user whose address is not remembered goes on to take its entry back. */
  lemma GoRefuse(s0: Node, s: Node, cs: map<nat, Call>, mode: Mode, t: nat) returns (s': Node)
    requires Goes(s0, s, cs, mode) && t in s.calls && s.calls[t].pc.Recall? && s.calls[t].full
    requires s.calls[t].ip !in s.previous
    ensures Goes(s0, s', cs, mode) && s' == Moved(s, t, Retract(s.calls[t].pc.id, s.calls[t].pc.made))
  {
    GoesOn(s0, s, cs, mode, Step(t, 0));
    s' := Apply(s, Step(t, 0));
  }

  lemma GoRetract(s0: Node, s: Node, cs: map<nat, Call>, mode: Mode, t: nat) returns (s': Node)
    requires Goes(s0, s, cs, mode) && t in s.calls && s.calls[t].pc.Retract?
    ensures Goes(s0, s', cs, mode) && s' == DoRetract(s, t, s.calls[t].pc.id, s.calls[t].pc.made)
  {
    GoesOn(s0, s, cs, mode, Step(t, 0));
    s' := Apply(s, Step(t, 0));
  }

  /** A call whose address is remembered for its uid uses the record up and is accepted. */
  lemma GoForget(s0: Node, s: Node, cs: map<nat, Call>, mode: Mode, t: nat) returns (s': Node)
    requires Goes(s0, s, cs, mode) && t in s.calls && s.calls[t].pc.Recall?
    requires s.calls[t].ip in s.previous && s.previous[s.calls[t].ip] == s.calls[t].uid
    ensures Goes(s0, s', cs, mode) && s' == Moved(s.(previous := s.previous - {s.calls[t].ip}), t, Done(true))
  {
    var c := s.calls[t];
    GoesOn(s0, s, cs, mode, Step(t, 0));
    var s1 := Apply(s, Step(t, 0));
    assert s1 == Moved(s, t, Forget);
    GoesOn(s0, s1, cs, mode, Step(t, 0));
    s' := Apply(s1, Step(t, 0));
    assert s'.calls == s.calls[t := c.(pc := Done(true))];
  }

  /** A call that needs no refusal is accepted where it stands. */
  lemma GoAccept(s0: Node, s: Node, cs: map<nat, Call>, mode: Mode, t: nat) returns (s': Node)
    requires Goes(s0, s, cs, mode) && t in s.calls && s.calls[t].pc.Recall?
    requires s.calls[t].ip in s.previous || !s.calls[t].full
    ensures Goes(s0, s', cs, mode) && s'.online == s.online && s'.maps == s.maps && s'.calls == s.calls[t := s.calls[t].(pc := Done(true))]
  {
    if s.calls[t].ip in s.previous && s.previous[s.calls[t].ip] == s.calls[t].uid {
      s' := GoForget(s0, s, cs, mode, t);
    } else {
      GoesOn(s0, s, cs, mode, Step(t, 0));
      s' := Apply(s, Step(t, 0));
    }
  }

  /* ---------- Who is accepted from an address nobody knows ---------- */

  /** Every interleaving accepts only addresses online or remembered at the start. */
  ghost predicate OnlyKnownAccepted(s0: Node, cs: map<nat, Call>, mode: Mode) {
    forall s, t :: Goes(s0, s, cs, mode) && t in s.calls && s.calls[t].pc == Done(true) ==> s.calls[t].ip in Footprint(s0)
  }

  /** Two of the calls are for one device, from an address that is neither online nor remembered. */
  ghost predicate UnknownTwins(s0: Node, cs: map<nat, Call>, t: nat, u: nat) {
    t in cs && u in cs && t != u && SameDevice(cs[u], cs[t].email, cs[t].ip) && cs[t].ip !in Footprint(s0)
  }

  /**
   * Two calls of one new device, from any quiet state: the second finds the first one's entry before it
   * is taken back, and is accepted.
   */
  lemma RaceAccepts(s0: Node, cs: map<nat, Call>, t: nat, u: nat) returns (s: Node)
    requires Quiet(s0) && Pending(cs) && UnknownTwins(s0, cs, t, u)
    ensures Goes(s0, s, cs, Settling) && u in s.calls && s.calls[u].pc == Done(true) && s.calls[u].ip !in Footprint(s0)
  {
    GoesNowhere(s0, cs, Settling);
    UnknownIsAbsent(s0, cs[t].email, cs[t].ip);
    s := GoBegin(s0, s0, cs, Settling, t);
    s := GoBegin(s0, s, cs, Settling, u);
    var id, made;
    s, id, made := GoEnterNew(s0, s, cs, Settling, t);
    s := GoFind(s0, s, cs, Settling, u);
  }

  lemma UnknownIsAbsent(s: Node, email: string, ip: string)
    requires ip !in Footprint(s)
    ensures !Present(s, email, ip) && ip !in s.previous
  {
    assert Present(s, email, ip) ==> ip in OnlineAddresses(s);
  }

  lemma AcceptedHasTwin(s0: Node, cs: map<nat, Call>, s: Node, t: nat) returns (u: nat)
    requires Quiet(s0) && Pending(cs) && FullCalls(cs) && Goes(s0, s, cs, Settling)
    requires t in s.calls && s.calls[t].pc == Done(true) && s.calls[t].ip !in Footprint(s0)
    ensures UnknownTwins(s0, cs, t, u)
  {
    var states, events :| Journey(states, events, s0, s, cs, Settling);
    JourneyIsRegular(states, events, s0, s, cs);
    AcceptedIsKnownOrShared(states, events, |events|, t);
    RunCallsOf(states, events, s0, s, cs, Settling, |events|);
    u :| u in s.calls && u != t && SameDevice(s.calls[u], s.calls[t].email, s.calls[t].ip);
  }

  /**
   * With reports between verdicts only, all interleavings accept only known addresses exactly when no two
   * of the calls are for the same unknown device.
   */
  lemma OnlyKnownAcceptedIff(s0: Node, cs: map<nat, Call>)
    requires Quiet(s0) && Pending(cs) && FullCalls(cs)
    ensures OnlyKnownAccepted(s0, cs, Settling) <==> forall t, u :: !UnknownTwins(s0, cs, t, u)
  {
    if t, u :| UnknownTwins(s0, cs, t, u) {
      var s := RaceAccepts(s0, cs, t, u);
    }
    if !OnlyKnownAccepted(s0, cs, Settling) {
      var s, t :| Goes(s0, s, cs, Settling) && t in s.calls && s.calls[t].pc == Done(true) && s.calls[t].ip !in Footprint(s0);
      var u := AcceptedHasTwin(s0, cs, s, t);
    }
  }

  /* ---------- Reports in the middle of a check ---------- */

  /** An undecided call's unknown address is in the map that is online for its user. */
  ghost predicate Exposed(s: Node, known: set<string>, t: nat) {
    && t in s.calls && (s.calls[t].pc.Recall? || s.calls[t].pc.Retract?)
    && s.calls[t].ip !in known
    && Present(s, s.calls[t].email, s.calls[t].ip) && s.online[s.calls[t].email] == s.calls[t].pc.id
  }

  /** A report brings an address in exactly when an undecided call's unknown address is online at it. */
  lemma ReportAdmitsIff(s: Node, known: set<string>, previous: map<string, int>)
    requires Covered(s, known) && Enabled(s, Report(previous))
    ensures !(Footprint(Apply(s, Report(previous))) <= known) <==> exists t :: Exposed(s, known, t)
  {
    var s' := Apply(s, Report(previous));
    assert Footprint(s') == OnlineAddresses(s);
    if t :| Exposed(s, known, t) {
      assert s.calls[t].ip in OnlineAddresses(s);
    }
    if !(Footprint(s') <= known) {
      var ip :| ip in OnlineAddresses(s) && ip !in known;
      var e :| e in s.online && ip in MapAt(s, s.online[e]);
      var t :| t in s.calls && Holds(s.calls[t], e, ip, s.online[e]);
      assert Exposed(s, known, t);
    }
  }

  ghost function UidAt(s: Node, ip: string): (uid: int)
    requires ip in OnlineAddresses(s)
    ensures exists e :: OnlineUnder(s, e, ip, uid)
  {
    var e :| e in s.online && ip in MapAt(s, s.online[e]);
    assert OnlineUnder(s, e, ip, MapAt(s, s.online[e])[ip]);
    MapAt(s, s.online[e])[ip]
  }

  lemma GoReport(s0: Node, s: Node, cs: map<nat, Call>, mode: Mode) returns (s': Node)
    requires Goes(s0, s, cs, mode) && ReportFits(s, mode)
    ensures Goes(s0, s', cs, mode) && s' == s.(online := map[], previous := s'.previous)
    ensures s'.previous.Keys == OnlineAddresses(s)
  {
    var previous := map ip | ip in OnlineAddresses(s) :: UidAt(s, ip);
    GoesOn(s0, s, cs, mode, Report(previous));
    s' := Apply(s, Report(previous));
  }

  /** A full call from an unknown address comes to the point of taking its entry back. */
  lemma GoExpose(s0: Node, cs: map<nat, Call>, t: nat) returns (s: Node)
    requires Quiet(s0) && Pending(cs) && FullCalls(cs) && t in cs && cs[t].ip !in Footprint(s0)
    ensures Goes(s0, s, cs, Anywhere) && s.calls.Keys == {t} && s.calls[t] == cs[t].(pc := s.calls[t].pc) && s.calls[t].pc.Retract?
    ensures cs[t].ip in OnlineAddresses(s)
  {
    GoesNowhere(s0, cs, Anywhere);
    UnknownIsAbsent(s0, cs[t].email, cs[t].ip);
    var s1 := GoBegin(s0, s0, cs, Anywhere, t);
    var s2, id, made := GoEnterNew(s0, s1, cs, Anywhere, t);
    s := GoRefuse(s0, s2, cs, Anywhere, t);
    assert Present(s, cs[t].email, cs[t].ip);
  }

  /** Every full call from an unknown address can be refused and remembered, from any quiet state. */
  lemma ReportRemembersRefused(s0: Node, cs: map<nat, Call>, t: nat) returns (s: Node)
    requires Quiet(s0) && Pending(cs) && FullCalls(cs) && t in cs && cs[t].ip !in Footprint(s0)
    ensures Goes(s0, s, cs, Anywhere) && s.calls.Keys == {t} && s.calls[t] == cs[t].(pc := Done(false)) && cs[t].ip in s.previous
  {
    var s1 := GoExpose(s0, cs, t);
    var s2 := GoReport(s0, s1, cs, Anywhere);
    s := GoRetract(s0, s2, cs, Anywhere, t);
  }

  /** And every full call from an unknown address can be accepted: on the record that a report has made of its own entry. */
  lemma ReportAccepts(s0: Node, cs: map<nat, Call>, t: nat) returns (s: Node)
    requires Quiet(s0) && Pending(cs) && t in cs && cs[t].ip !in Footprint(s0)
    ensures Goes(s0, s, cs, Anywhere) && t in s.calls && s.calls[t] == cs[t].(pc := Done(true)) && s.online == map[]
  {
    GoesNowhere(s0, cs, Anywhere);
    UnknownIsAbsent(s0, cs[t].email, cs[t].ip);
    var s1 := GoBegin(s0, s0, cs, Anywhere, t);
    var s2, id, made := GoEnterNew(s0, s1, cs, Anywhere, t);
    assert Present(s2, cs[t].email, cs[t].ip) && cs[t].ip in OnlineAddresses(s2);
    var s3 := GoReport(s0, s2, cs, Anywhere);
    s := GoAccept(s0, s3, cs, Anywhere, t);
  }

  /**
   * For every quiet start and every set of calls of full users: with reports anywhere, all interleavings
   * accept only known addresses exactly when every call is from a known address.
   */
  lemma AnyReportAcceptsIff(s0: Node, cs: map<nat, Call>)
    requires Quiet(s0) && Pending(cs) && FullCalls(cs)
    ensures OnlyKnownAccepted(s0, cs, Anywhere) <==> forall t :: t in cs ==> cs[t].ip in Footprint(s0)
  {
    if t :| t in cs && cs[t].ip !in Footprint(s0) {
      var s := ReportAccepts(s0, cs, t);
    } else {
      forall s, t | Goes(s0, s, cs, Anywhere) && t in s.calls ensures s.calls[t].ip in Footprint(s0) {
        var states, events :| Journey(states, events, s0, s, cs, Anywhere);
        RunCallsOf(states, events, s0, s, cs, Anywhere, |events|);
      }
    }
  }

  /** With reports anywhere, no interleaving that has come to its verdicts has let an address in. */
  ghost predicate ReportsHarmless(s0: Node, cs: map<nat, Call>) {
    forall s :: Goes(s0, s, cs, Anywhere) && Settled(s) ==> Footprint(s) <= Footprint(s0)
  }

  ghost predicate AddressesIn(s: Node, known: set<string>) {
    s.previous.Keys <= known && forall id :: id in s.maps ==> s.maps[id].Keys <= known
  }

  lemma AddressesInStep(s: Node, e: Event, known: set<string>)
    requires Enabled(s, e) && AddressesIn(s, known) && forall t :: t in s.calls ==> s.calls[t].ip in known
    ensures AddressesIn(Apply(s, e), known)
  {
    if e.Report? {
      forall ip | ip in OnlineAddresses(s) ensures ip in known {
        var u :| u in s.online && ip in MapAt(s, s.online[u]);
      }
    }
  }

  lemma {:induction false} RunAddressesIn(states: seq<Node>, events: seq<Event>, s0: Node, s: Node, cs: map<nat, Call>, n: nat, known: set<string>)
    requires Journey(states, events, s0, s, cs, Anywhere) && n <= |events| && s0.calls == map[]
    requires AddressesIn(s0, known) && forall t :: t in cs ==> cs[t].ip in known
    ensures AddressesIn(states[n], known)
  {
    if n > 0 {
      RunAddressesIn(states, events, s0, s, cs, n - 1, known);
      assert StepAt(states, events, n - 1) && FitsAt(states, events, n - 1, cs, Anywhere);
      RunCallsOf(states, events, s0, s, cs, Anywhere, n - 1);
      AddressesInStep(states[n - 1], events[n - 1], known);
    }
  }

  /** Reports may come anywhere exactly when every call is from a known address. */
  lemma ReportsHarmlessIff(s0: Node, cs: map<nat, Call>)
    requires Quiet(s0) && Pending(cs) && FullCalls(cs)
    ensures ReportsHarmless(s0, cs) <==> forall t :: t in cs ==> cs[t].ip in Footprint(s0)
  {
    if t :| t in cs && cs[t].ip !in Footprint(s0) {
      var s := ReportRemembersRefused(s0, cs, t);
      assert Settled(s);
    } else {
      forall s | Goes(s0, s, cs, Anywhere) ensures Footprint(s) <= Footprint(s0) {
        var states, events :| Journey(states, events, s0, s, cs, Anywhere);
        RunAddressesIn(states, events, s0, s, cs, |events|, Footprint(s0));
        forall ip | ip in OnlineAddresses(s) ensures ip in Footprint(s0) {
          var e :| e in s.online && ip in MapAt(s, s.online[e]);
        }
      }
    }
  }
}
