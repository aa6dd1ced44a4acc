/**
 * With reports at any moment (limiter/limiter.go): exactly which sets of checks can leave an accepted
 * device neither online nor in a report made since its call began.
 */
module CheckAccounts {
  import opened LimiterTables
  import opened CheckRuns
  import opened CheckRaces
  import opened CheckClaims
  import opened CheckLosses
  import opened CheckReports

  /* ---------- Runs up to a report ---------- */

  ghost predicate Quietly(events: seq<Event>, i: nat, n: nat)
    requires i <= n <= |events|
  {
    forall k :: i <= k < n ==> !events[k].Report?
  }

  /** The first report from `i` on, or the end. */
  lemma {:induction false} NextReport(events: seq<Event>, i: nat) returns (n: nat)
    requires i <= |events|
    ensures i <= n <= |events| && Quietly(events, i, n) && (n < |events| ==> events[n].Report?)
    decreases |events| - i
  {
    if i == |events| || events[i].Report? {
      n := i;
    } else {
      n := NextReport(events, i + 1);
    }
  }

  /** Up to its first report a run lies within a period. */
  lemma PeriodJourney(states: seq<Node>, events: seq<Event>, s0: Node, s: Node, cs: map<nat, Call>, email: string, ip: string, u: nat, n: nat)
    requires Journey(states, events, s0, s, cs, Unlisted(email, ip, u)) && n <= |events| && Quietly(events, 0, n)
    ensures Journey(states[..n + 1], events[..n], s0, states[n], cs, Within(email))
  {
    var ss, es := states[..n + 1], events[..n];
    forall i | 0 <= i < |es|
      ensures StepAt(ss, es, i) && FitsAt(ss, es, i, cs, Within(email))
    {
      assert ss[i] == states[i] && ss[i + 1] == states[i + 1] && es[i] == events[i];
      assert StepAt(states, events, i) && FitsAt(states, events, i, cs, Unlisted(email, ip, u));
    }
  }

  /* ---------- No other user has the address ---------- */

  lemma OtherNoHolder(s: Node, t: nat, id: nat, email: string, ip: string, other: string)
    requires Enabled(s, Step(t, id)) && Owned(s) && other != email && !Present(s, other, ip)
    requires s.calls[t].email != email ==> s.calls[t].ip != ip
    ensures !Present(Apply(s, Step(t, id)), other, ip)
  {
    if s.calls[t].email == other {
      OwnMaps(s, t, id, ip);
      OwnTarget(s, t, id);
    } else {
      OtherAside(s, t, id, other);
    }
  }

  lemma StepNoHolder(s: Node, e: Event, cs: map<nat, Call>, mode: Mode, email: string, ip: string)
    requires Enabled(s, e) && Fits(s, e, cs, mode) && Owned(s) && CallsOf(s, cs) && NoForeignCall(cs, email, ip) && NoForeignHolder(s, email, ip)
    ensures NoForeignHolder(Apply(s, e), email, ip)
  {
    forall other | other != email ensures !Present(Apply(s, e), other, ip) {
      assert !Present(s, other, ip);
      if e.Step? {
        assert !ForeignCall(cs, email, ip, e.t);
        OtherNoHolder(s, e.t, e.id, email, ip, other);
      }
    }
  }

  lemma {:induction false} RunNoHolder(states: seq<Node>, events: seq<Event>, s0: Node, s: Node, cs: map<nat, Call>, mode: Mode, email: string, ip: string, i: nat, n: nat)
    requires Journey(states, events, s0, s, cs, mode) && Idle(s0) && i <= n <= |events|
    requires NoForeignCall(cs, email, ip) && NoForeignHolder(states[i], email, ip)
    ensures NoForeignHolder(states[n], email, ip)
  {
    if i < n {
      RunNoHolder(states, events, s0, s, cs, mode, email, ip, i, n - 1);
      assert StepAt(states, events, n - 1) && FitsAt(states, events, n - 1, cs, mode);
      RunOwned(states, events, n - 1);
      RunCallsOf(states, events, s0, s, cs, mode, n - 1);
      StepNoHolder(states[n - 1], events[n - 1], cs, mode, email, ip);
    }
  }

  lemma LonelyAt(base: set<nat>, states: seq<Node>, events: seq<Event>, s0: Node, s: Node, cs: map<nat, Call>, mode: Mode, email: string, ip: string, u: nat, i: nat)
    requires Journey(states, events, s0, s, cs, mode) && Idle(s0) && i < |events|
    requires SoleCall(cs, email, ip, u) && Lonely(base, states[i], email, ip, u)
    ensures Lonely(base, states[i + 1], email, ip, u)
  {
    assert StepAt(states, events, i) && FitsAt(states, events, i, cs, mode);
    RunOwned(states, events, i);
    StepLonely(base, states[i], events[i], cs, mode, email, ip, u);
  }

  lemma {:induction false} RunLonely(base: set<nat>, states: seq<Node>, events: seq<Event>, s0: Node, s: Node, cs: map<nat, Call>, mode: Mode, email: string, ip: string, u: nat, i: nat, n: nat)
    requires Journey(states, events, s0, s, cs, mode) && Idle(s0) && i <= n <= |events|
    requires SoleCall(cs, email, ip, u) && Lonely(base, states[i], email, ip, u)
    ensures Lonely(base, states[n], email, ip, u)
  {
    if i < n {
      RunLonely(base, states, events, s0, s, cs, mode, email, ip, u, i, n - 1);
      LonelyAt(base, states, events, s0, s, cs, mode, email, ip, u, n - 1);
    }
  }

  /* ---------- Once a report has forgotten the device ---------- */

  /** The device is remembered nowhere, and its one call, of a full user, is not going to be accepted. */
  ghost predicate Forgotten(base: set<nat>, s: Node, email: string, ip: string, u: nat) {
    Lonely(base, s, email, ip, u) && Unmet(s, ip, u) && NoForeignHolder(s, email, ip)
  }

  /** A report that does not list the device of the call under way forgets it. */
  lemma ReportForgets(base: set<nat>, s: Node, previous: map<string, int>, cs: map<nat, Call>, email: string, ip: string, u: nat)
    requires Enabled(s, Report(previous)) && ReportFits(s, Unlisted(email, ip, u)) && Owned(s) && CallsOf(s, cs)
    requires SoleCall(cs, email, ip, u) && cs[u].full && Lonely(base, s, email, ip, u) && NoForeignHolder(s, email, ip)
    requires u in s.calls ==> !s.calls[u].pc.Forget? && s.calls[u].pc != Done(true)
    ensures Forgotten(base, Apply(s, Report(previous)), email, ip, u)
  {
    if ip in OnlineAddresses(s) {
      var e :| e in s.online && ip in MapAt(s, s.online[e]);
      assert Present(s, e, ip);
      assert false;
    }
  }

  lemma StepForgotten(base: set<nat>, s: Node, e: Event, cs: map<nat, Call>, email: string, ip: string, u: nat)
    requires Enabled(s, e) && Fits(s, e, cs, Unlisted(email, ip, u)) && Owned(s) && CallsOf(s, cs)
    requires SoleCall(cs, email, ip, u) && cs[u].full && NoForeignCall(cs, email, ip) && Forgotten(base, s, email, ip, u)
    ensures Forgotten(base, Apply(s, e), email, ip, u)
  {
    if e.Report? {
      ReportForgets(base, s, e.previous, cs, email, ip, u);
    } else {
      StepLonely(base, s, e, cs, Unlisted(email, ip, u), email, ip, u);
      StepUnmet(base, s, e, cs, Unlisted(email, ip, u), email, ip, u);
      StepNoHolder(s, e, cs, Unlisted(email, ip, u), email, ip);
    }
  }

  lemma ForgottenAt(base: set<nat>, states: seq<Node>, events: seq<Event>, s0: Node, s: Node, cs: map<nat, Call>, email: string, ip: string, u: nat, i: nat)
    requires Journey(states, events, s0, s, cs, Unlisted(email, ip, u)) && Idle(s0) && i < |events|
    requires SoleCall(cs, email, ip, u) && cs[u].full && NoForeignCall(cs, email, ip) && Forgotten(base, states[i], email, ip, u)
    ensures Forgotten(base, states[i + 1], email, ip, u)
  {
    assert StepAt(states, events, i) && FitsAt(states, events, i, cs, Unlisted(email, ip, u));
    RunOwned(states, events, i);
    RunCallsOf(states, events, s0, s, cs, Unlisted(email, ip, u), i);
    StepForgotten(base, states[i], events[i], cs, email, ip, u);
  }

  lemma {:induction false} RunForgotten(base: set<nat>, states: seq<Node>, events: seq<Event>, s0: Node, s: Node, cs: map<nat, Call>, email: string, ip: string, u: nat, i: nat, n: nat)
    requires Journey(states, events, s0, s, cs, Unlisted(email, ip, u)) && Idle(s0) && i <= n <= |events|
    requires SoleCall(cs, email, ip, u) && cs[u].full && NoForeignCall(cs, email, ip) && Forgotten(base, states[i], email, ip, u)
    ensures Forgotten(base, states[n], email, ip, u)
  {
    if i < n {
      RunForgotten(base, states, events, s0, s, cs, email, ip, u, i, n - 1);
      ForgottenAt(base, states, events, s0, s, cs, email, ip, u, n - 1);
    }
  }

  /** From a report that forgets the device on, its call is never accepted. */
  lemma NeverAfterReport(base: set<nat>, states: seq<Node>, events: seq<Event>, s0: Node, s: Node, cs: map<nat, Call>, email: string, ip: string, u: nat, i: nat)
    requires Journey(states, events, s0, s, cs, Unlisted(email, ip, u)) && Idle(s0) && i < |events| && events[i].Report?
    requires SoleCall(cs, email, ip, u) && cs[u].full && NoForeignCall(cs, email, ip)
    requires Lonely(base, states[i], email, ip, u) && NoForeignHolder(states[i], email, ip)
    requires u in states[i].calls ==> !states[i].calls[u].pc.Forget? && states[i].calls[u].pc != Done(true)
    ensures !Accepts(s, u, email, ip)
  {
    RunOwned(states, events, i);
    RunCallsOf(states, events, s0, s, cs, Unlisted(email, ip, u), i);
    assert StepAt(states, events, i) && FitsAt(states, events, i, cs, Unlisted(email, ip, u));
    ReportForgets(base, states[i], events[i].previous, cs, email, ip, u);
    RunForgotten(base, states, events, s0, s, cs, email, ip, u, i + 1, |events|);
  }

  /* ---------- The device is not online at the start ---------- */

  /** Within a period: a lone call of a full user that is accepted, or about to be, has its entry online. */
  lemma LoneIsPresent(states: seq<Node>, events: seq<Event>, s0: Node, s: Node, cs: map<nat, Call>, email: string, ip: string, u: nat)
    requires Journey(states, events, s0, s, cs, Within(email)) && Idle(s0) && Pending(cs)
    requires SoleCall(cs, email, ip, u) && cs[u].full && !Present(s0, email, ip) && NoForeignCall(cs, email, ip)
    requires forall t :: !RefusedMaker(s0, cs, email, ip, t, u)
    requires u in s.calls && (s.calls[u].pc.Forget? || s.calls[u].pc == Done(true))
    ensures Present(s, email, ip)
  {
    var n := |events|;
    RunCallsOf(states, events, s0, s, cs, Within(email), n);
    if ip !in s0.previous {
      RunAlone(states, events, s0, s, cs, email, ip, u, n);
      assert false;
    }
    assert Firm(s0, cs, email, ip) by {
      forall t | t in cs && cs[t].email != email ensures cs[t].ip != ip { assert !ForeignCall(cs, email, ip, t); }
    }
    if !MapKept(states, events, n, email) {
      var t := FirstRetract(states, events, s0, s, cs, email);
      assert OtherCall(cs, email, ip, t);
      assert RefusedMaker(s0, cs, email, ip, t, u);
      assert false;
    }
    RunSafe(states, events, s0, s, cs, email, ip, n);
    NoneBack(states, events, s0, s, cs, email, ip);
    RunInPlace(states, events, s0, s, cs, email, ip, n);
    assert InTable(s.calls[u].pc);
  }

  /** A kept device whose user's map stays is never taken back. */
  lemma NoneBack(states: seq<Node>, events: seq<Event>, s0: Node, s: Node, cs: map<nat, Call>, email: string, ip: string)
    requires Journey(states, events, s0, s, cs, Within(email)) && Idle(s0) && Kept(s0, cs, email, ip)
    requires MapKept(states, events, |events|, email)
    ensures NoneTakesBack(states, events, |events|, email, ip)
  {
    forall i | 0 <= i < |events| ensures !RetractsDevice(states[i], events[i], email, ip) {
      RunSafe(states, events, s0, s, cs, email, ip, i);
    }
  }

  lemma AbsentAccounted(states: seq<Node>, events: seq<Event>, s0: Node, s: Node, cs: map<nat, Call>, email: string, ip: string, u: nat)
    requires Journey(states, events, s0, s, cs, Unlisted(email, ip, u)) && Idle(s0) && Pending(cs) && Accepts(s, u, email, ip)
    requires SoleCall(cs, email, ip, u) && cs[u].full && !Present(s0, email, ip)
    requires NoForeignCall(cs, email, ip) && NoForeignHolder(s0, email, ip)
    requires forall t :: !RefusedMaker(s0, cs, email, ip, t, u)
    ensures Present(s, email, ip)
  {
    var i := NextReport(events, 0);
    var m := states[i];
    PeriodJourney(states, events, s0, s, cs, email, ip, u, i);
    if u in m.calls && (m.calls[u].pc.Forget? || m.calls[u].pc == Done(true)) {
      LoneIsPresent(states[..i + 1], events[..i], s0, m, cs, email, ip, u);
    }
    if i < |events| {
      assert FitsAt(states, events, i, cs, Unlisted(email, ip, u));
      StartsLonely(s0, email, ip, u);
      RunLonely(OldMaps(s0, email), states, events, s0, s, cs, Unlisted(email, ip, u), email, ip, u, 0, i);
      RunNoHolder(states, events, s0, s, cs, Unlisted(email, ip, u), email, ip, 0, i);
      NeverAfterReport(OldMaps(s0, email), states, events, s0, s, cs, email, ip, u, i);
      assert false;
    }
  }

  /* ---------- The device is online at the start ---------- */

  /** A map that is online stays so unless it is reported, dropped or taken out. */
  lemma MapStays(s: Node, e: Event, email: string)
    requires Enabled(s, e) && Owned(s) && email in s.online && !e.Report? && e != Drop(email) && !RetractsMap(s, e, email)
    ensures email in Apply(s, e).online && Apply(s, e).online[email] == s.online[email]
  {
    if e.Step? {
      if s.calls[e.t].email != email { OtherAside(s, e.t, e.id, email); }
    }
  }

  /** A device online at the start of a period: its calls find it and write nothing. */
  ghost predicate Held(s: Node, email: string, ip: string) {
    && Present(s, email, ip)
    && forall t :: t in s.calls && SameDevice(s.calls[t], email, ip) ==> Finds(s, s.calls[t].pc, email)
  }

  predicate Finds(s: Node, pc: Pc, email: string)
    requires email in s.online
  {
    pc.LookUp? || pc == Enter(s.online[email]) || pc == Done(true)
  }

  lemma OwnHeld(s: Node, t: nat, id: nat, email: string, ip: string)
    requires Enabled(s, Step(t, id)) && Held(s, email, ip) && SameDevice(s.calls[t], email, ip)
    ensures var s' := Apply(s, Step(t, id)); Present(s', email, ip) && s'.online == s.online && Finds(s, s'.calls[t].pc, email)
  {
  }

  lemma StepHeld(s: Node, e: Event, cs: map<nat, Call>, email: string, ip: string)
    requires Enabled(s, e) && Fits(s, e, cs, Within(email)) && Owned(s) && NoneMade(s, email) && Held(s, email, ip)
    ensures Held(Apply(s, e), email, ip)
  {
    var s' := Apply(s, e);
    StepNoneMade(s, e, cs, email);
    MapStays(s, e, email);
    LeavesIff(s, e, email, ip);
    if e.Step? {
      StepMoves(s, e.t, e.id);
      if SameDevice(s.calls[e.t], email, ip) { OwnHeld(s, e.t, e.id, email, ip); }
      assert forall t :: t in s.calls && t != e.t ==> s'.calls[t] == s.calls[t];
    }
  }

  lemma HeldAt(states: seq<Node>, events: seq<Event>, s0: Node, s: Node, cs: map<nat, Call>, email: string, ip: string, i: nat)
    requires Journey(states, events, s0, s, cs, Within(email)) && Idle(s0) && email in s0.online && i < |events|
    requires Held(states[i], email, ip)
    ensures Held(states[i + 1], email, ip)
  {
    assert StepAt(states, events, i) && FitsAt(states, events, i, cs, Within(email));
    RunOwned(states, events, i);
    RunNoneMade(states, events, s0, s, cs, email, i);
    StepHeld(states[i], events[i], cs, email, ip);
  }

  lemma StartsHeld(s: Node, email: string, ip: string)
    requires Idle(s) && Present(s, email, ip)
    ensures Held(s, email, ip)
  {
  }

  lemma {:induction false} RunHeld(states: seq<Node>, events: seq<Event>, s0: Node, s: Node, cs: map<nat, Call>, email: string, ip: string, n: nat)
    requires Journey(states, events, s0, s, cs, Within(email)) && Idle(s0) && Present(s0, email, ip) && n <= |events|
    ensures Held(states[n], email, ip)
  {
    if n == 0 {
      StartsHeld(s0, email, ip);
    } else {
      RunHeld(states, events, s0, s, cs, email, ip, n - 1);
      var i := n - 1;
      HeldAt(states, events, s0, s, cs, email, ip, i);
    }
  }

  /** The user makes no map as long as it has one. */
  ghost predicate NoNewMaps(s0: Node, s: Node, email: string) {
    forall id :: id in s.owner && s.owner[id] == email ==> id in s0.owner
  }

  lemma StepNoNewMaps(s0: Node, s: Node, e: Event, email: string)
    requires Enabled(s, e) && email in s.online && NoNewMaps(s0, s, email)
    ensures NoNewMaps(s0, Apply(s, e), email)
  {
  }

  lemma {:induction false} RunNoNewMaps(states: seq<Node>, events: seq<Event>, s0: Node, s: Node, cs: map<nat, Call>, email: string, n: nat)
    requires Journey(states, events, s0, s, cs, Within(email)) && Idle(s0) && email in s0.online && n <= |events|
    ensures NoNewMaps(s0, states[n], email) && s0.owner.Keys <= states[n].owner.Keys
  {
    if n > 0 {
      RunNoNewMaps(states, events, s0, s, cs, email, n - 1);
      assert StepAt(states, events, n - 1) && FitsAt(states, events, n - 1, cs, Within(email));
      RunNoneMade(states, events, s0, s, cs, email, n - 1);
      StepNoNewMaps(s0, states[n - 1], events[n - 1], email);
      if events[n - 1].Step? { SelfOwner(states[n - 1], events[n - 1].t, events[n - 1].id); }
    }
  }

  /** Every address for which the user has a full call is safe. */
  ghost predicate AllSafe(s: Node, cs: map<nat, Call>, email: string) {
    forall t :: t in cs && cs[t].email == email && cs[t].full ==> Safe(s, cs, email, cs[t].ip)
  }

  lemma AllSafeKeepsMap(s: Node, e: Event, cs: map<nat, Call>, email: string)
    requires Enabled(s, e) && CallsOf(s, cs) && RefusedAreFull(s) && AllSafe(s, cs, email)
    ensures !RetractsMap(s, e, email)
  {
    if e.Step? && s.calls[e.t].email == email && s.calls[e.t].full {
      assert Safe(s, cs, email, cs[e.t].ip);
    }
  }

  lemma StepAllSafe(s: Node, e: Event, cs: map<nat, Call>, email: string)
    requires Enabled(s, e) && Fits(s, e, cs, Within(email)) && Owned(s) && CallsOf(s, cs) && RefusedAreFull(s) && AllSafe(s, cs, email)
    ensures AllSafe(Apply(s, e), cs, email)
  {
    AllSafeKeepsMap(s, e, cs, email);
    forall t | t in cs && cs[t].email == email && cs[t].full ensures Safe(Apply(s, e), cs, email, cs[t].ip) {
      StepSafe(s, e, cs, email, cs[t].ip);
    }
  }

  /** The call works on the map that is online, and has its entry there once it has made one. */
  ghost predicate Placed(s: Node, email: string, ip: string, u: nat) {
    u in s.calls ==>
      && (s.calls[u].pc.Enter? ==> email in s.online && s.calls[u].pc.id == s.online[email])
      && (InTable(s.calls[u].pc) ==> Present(s, email, ip))
  }

  lemma OwnPlaced(s: Node, id: nat, email: string, ip: string, u: nat)
    requires Enabled(s, Step(u, id)) && Owned(s) && SameDevice(s.calls[u], email, ip) && Placed(s, email, ip, u)
    requires !s.calls[u].pc.Retract?
    ensures Placed(Apply(s, Step(u, id)), email, ip, u)
  {
  }

  lemma StepPlaced(s: Node, e: Event, cs: map<nat, Call>, email: string, ip: string, u: nat)
    requires Enabled(s, e) && Fits(s, e, cs, Within(email)) && Owned(s) && CallsOf(s, cs) && SoleCall(cs, email, ip, u)
    requires Placed(s, email, ip, u) && NoneRefused(s, email, ip) && !RetractsMap(s, e, email)
    ensures Placed(Apply(s, e), email, ip, u)
  {
    if e.Step? && e.t == u {
      OwnPlaced(s, e.id, email, ip, u);
    } else if u in s.calls {
      if email in s.online { MapStays(s, e, email); }
      if Present(s, email, ip) { LeavesIff(s, e, email, ip); }
      if e.Step? { StepMoves(s, e.t, e.id); }
    }
  }

  lemma {:induction false} RunPlaced(states: seq<Node>, events: seq<Event>, s0: Node, s: Node, cs: map<nat, Call>, email: string, ip: string, u: nat, i: nat, n: nat)
    requires Journey(states, events, s0, s, cs, Unlisted(email, ip, u)) && Idle(s0) && i <= n <= |events| && Quietly(events, i, n)
    requires SoleCall(cs, email, ip, u) && cs[u].full && AllSafe(states[i], cs, email) && Placed(states[i], email, ip, u)
    ensures AllSafe(states[n], cs, email) && Placed(states[n], email, ip, u)
  {
    if i < n {
      RunPlaced(states, events, s0, s, cs, email, ip, u, i, n - 1);
      assert StepAt(states, events, n - 1) && FitsAt(states, events, n - 1, cs, Unlisted(email, ip, u));
      RunOwned(states, events, n - 1);
      RunCallsOf(states, events, s0, s, cs, Unlisted(email, ip, u), n - 1);
      RunRefusedAreFull(states, events, n - 1);
      var m, e := states[n - 1], events[n - 1];
      assert Fits(m, e, cs, Within(email));
      AllSafeKeepsMap(m, e, cs, email);
      assert Safe(m, cs, email, ip);
      StepAllSafe(m, e, cs, email);
      StepPlaced(m, e, cs, email, ip, u);
    }
  }

  /** After the report that ends the first period, all addresses of full calls are remembered for good. */
  lemma ReportSecures(s: Node, previous: map<string, int>, cs: map<nat, Call>, email: string, ip: string)
    requires Enabled(s, Report(previous)) && Owned(s) && CallsOf(s, cs) && Held(s, email, ip) && NoForeignCall(cs, email, ip)
    ensures Safe(Apply(s, Report(previous)), cs, email, ip)
  {
    var s' := Apply(s, Report(previous));
    assert ip in OnlineAddresses(s);
    forall v | v in cs && cs[v].email != email ensures cs[v].ip != ip { assert !ForeignCall(cs, email, ip, v); }
  }

  /** What a run has come to when the first report is made. */
  ghost predicate Secured(s0: Node, s: Node, cs: map<nat, Call>, email: string, ip: string, u: nat) {
    && AllSafe(s, cs, email) && Placed(s, email, ip, u) && Lonely(s0.owner.Keys, s, email, ip, u) && NoForeignHolder(s, email, ip)
  }

  /** The call has not begun at a first report, since the report would list its device. */
  lemma FirstReportLonely(s0: Node, s: Node, previous: map<string, int>, cs: map<nat, Call>, email: string, ip: string, u: nat)
    requires Idle(s0) && Enabled(s, Report(previous)) && ReportFits(s, Unlisted(email, ip, u)) && CallsOf(s, cs) && SoleCall(cs, email, ip, u)
    requires Held(s, email, ip) && NoNewMaps(s0, s, email) && s0.owner.Keys <= s.owner.Keys
    ensures var s' := Apply(s, Report(previous));
      Placed(s', email, ip, u) && Lonely(s0.owner.Keys, s', email, ip, u) && NoForeignHolder(s', email, ip)
  {
  }

  lemma FirstReportSafe(states: seq<Node>, events: seq<Event>, s0: Node, m: Node, cs: map<nat, Call>, email: string, ip: string, u: nat, previous: map<string, int>)
    requires Journey(states, events, s0, m, cs, Within(email)) && Idle(s0)
    requires SoleCall(cs, email, ip, u) && Present(s0, email, ip) && NoForeignCall(cs, email, ip)
    requires forall t :: !RefusedMaker(s0, cs, email, ip, t, u)
    requires Enabled(m, Report(previous)) && Owned(m) && CallsOf(m, cs)
    ensures AllSafe(Apply(m, Report(previous)), cs, email)
  {
    forall t | t in cs && cs[t].email == email && cs[t].full ensures Safe(Apply(m, Report(previous)), cs, email, cs[t].ip) {
      assert t != u ==> OtherCall(cs, email, ip, t) && !RefusedMaker(s0, cs, email, ip, t, u);
      RunHeld(states, events, s0, m, cs, email, cs[t].ip, |events|);
      ReportSecures(m, previous, cs, email, cs[t].ip);
    }
  }

  lemma FirstReportSecures(states: seq<Node>, events: seq<Event>, s0: Node, s: Node, cs: map<nat, Call>, email: string, ip: string, u: nat, i: nat)
    requires Journey(states, events, s0, s, cs, Unlisted(email, ip, u)) && Idle(s0) && Pending(cs)
    requires SoleCall(cs, email, ip, u) && cs[u].full && Present(s0, email, ip) && NoForeignCall(cs, email, ip)
    requires forall t :: !RefusedMaker(s0, cs, email, ip, t, u)
    requires i < |events| && Quietly(events, 0, i) && events[i].Report?
    ensures Secured(s0, states[i + 1], cs, email, ip, u)
  {
    var m, ss, es := states[i], states[..i + 1], events[..i];
    PeriodJourney(states, events, s0, s, cs, email, ip, u, i);
    RunOwned(states, events, i);
    RunCallsOf(states, events, s0, s, cs, Unlisted(email, ip, u), i);
    assert StepAt(states, events, i) && FitsAt(states, events, i, cs, Unlisted(email, ip, u));
    RunHeld(ss, es, s0, m, cs, email, ip, i);
    RunNoNewMaps(ss, es, s0, m, cs, email, i);
    FirstReportLonely(s0, m, events[i].previous, cs, email, ip, u);
    FirstReportSafe(ss, es, s0, m, cs, email, ip, u, events[i].previous);
  }

  lemma PresentAccounted(states: seq<Node>, events: seq<Event>, s0: Node, s: Node, cs: map<nat, Call>, email: string, ip: string, u: nat)
    requires Journey(states, events, s0, s, cs, Unlisted(email, ip, u)) && Idle(s0) && Pending(cs) && Accepts(s, u, email, ip)
    requires SoleCall(cs, email, ip, u) && cs[u].full && Present(s0, email, ip) && NoForeignCall(cs, email, ip)
    requires forall t :: !RefusedMaker(s0, cs, email, ip, t, u)
    ensures Present(s, email, ip)
  {
    var i := NextReport(events, 0);
    PeriodJourney(states, events, s0, s, cs, email, ip, u, i);
    RunHeld(states[..i + 1], events[..i], s0, states[i], cs, email, ip, i);
    if i < |events| {
      FirstReportSecures(states, events, s0, s, cs, email, ip, u, i);
      SecuredAccounted(states, events, s0, s, cs, email, ip, u, i + 1);
    }
  }

  lemma SecuredAccounted(states: seq<Node>, events: seq<Event>, s0: Node, s: Node, cs: map<nat, Call>, email: string, ip: string, u: nat, i: nat)
    requires Journey(states, events, s0, s, cs, Unlisted(email, ip, u)) && Idle(s0) && Accepts(s, u, email, ip)
    requires SoleCall(cs, email, ip, u) && cs[u].full && NoForeignCall(cs, email, ip)
    requires i <= |events| && Secured(s0, states[i], cs, email, ip, u)
    ensures Present(s, email, ip)
  {
    var j := NextReport(events, i);
    RunPlaced(states, events, s0, s, cs, email, ip, u, i, j);
    if j < |events| {
      assert FitsAt(states, events, j, cs, Unlisted(email, ip, u));
      RunLonely(s0.owner.Keys, states, events, s0, s, cs, Unlisted(email, ip, u), email, ip, u, i, j);
      RunNoHolder(states, events, s0, s, cs, Unlisted(email, ip, u), email, ip, i, j);
      NeverAfterReport(s0.owner.Keys, states, events, s0, s, cs, email, ip, u, j);
      assert false;
    }
  }

  /* ---------- No map can lack the device ---------- */

  /** Every map online for the user has the device, and its call stays with the one it finds. */
  ghost predicate Shared(s: Node, email: string, ip: string, u: nat) {
    && (email in s.online ==> Present(s, email, ip))
    && (u in s.calls ==>
          && (s.calls[u].pc.Enter? ==> email in s.online && s.calls[u].pc.id == s.online[email])
          && (InTable(s.calls[u].pc) ==> Present(s, email, ip))
          && (Undecided(s.calls[u].pc) ==> s.calls[u].pc.made))
  }

  /** All calls of the user are for the device, and no other one than `u` can be refused. */
  ghost predicate Alike(cs: map<nat, Call>, email: string, ip: string, u: nat) {
    u in cs && SameDevice(cs[u], email, ip) && forall t :: t in cs && cs[t].email == email ==> cs[t].ip == ip && (t != u ==> !cs[t].full)
  }

  lemma OwnShared(s: Node, id: nat, email: string, ip: string, u: nat)
    requires Enabled(s, Step(u, id)) && Owned(s) && SameDevice(s.calls[u], email, ip) && Shared(s, email, ip, u)
    ensures Shared(Apply(s, Step(u, id)), email, ip, u)
  {
  }

  /** Another call for the device puts it into the map it makes or finds. */
  lemma TwinShared(s: Node, t: nat, id: nat, email: string, ip: string, u: nat)
    requires Enabled(s, Step(t, id)) && Owned(s) && SameDevice(s.calls[t], email, ip) && t != u && Shared(s, email, ip, u)
    requires !s.calls[t].pc.Retract?
    ensures Shared(Apply(s, Step(t, id)), email, ip, u)
  {
    StepMoves(s, t, id);
    if email in s.online {
      LeavesIff(s, Step(t, id), email, ip);
      MapStays(s, Step(t, id), email);
    } else {
      OwnTarget(s, t, id);
      NewMapHas(s, t, id);
    }
  }

  lemma NewMapHas(s: Node, t: nat, id: nat)
    requires Enabled(s, Step(t, id)) && s.calls[t].email !in s.online
    ensures var c, s' := s.calls[t], Apply(s, Step(t, id)); c.email in s'.online ==> Present(s', c.email, c.ip)
  {
  }

  lemma StepShared(s: Node, e: Event, cs: map<nat, Call>, email: string, ip: string, u: nat)
    requires Enabled(s, e) && Fits(s, e, cs, Unlisted(email, ip, u)) && Owned(s) && CallsOf(s, cs) && RefusedAreFull(s)
    requires Alike(cs, email, ip, u) && Shared(s, email, ip, u)
    ensures Shared(Apply(s, e), email, ip, u)
  {
    if e.Step? {
      if e.t == u {
        OwnShared(s, e.id, email, ip, u);
      } else if s.calls[e.t].email == email {
        TwinShared(s, e.t, e.id, email, ip, u);
      } else {
        OtherAside(s, e.t, e.id, email);
      }
    }
  }

  lemma {:induction false} RunShared(states: seq<Node>, events: seq<Event>, s0: Node, s: Node, cs: map<nat, Call>, email: string, ip: string, u: nat, n: nat)
    requires Journey(states, events, s0, s, cs, Unlisted(email, ip, u)) && Idle(s0) && n <= |events|
    requires Alike(cs, email, ip, u) && (email in s0.online ==> Present(s0, email, ip))
    ensures Shared(states[n], email, ip, u)
  {
    if n > 0 {
      RunShared(states, events, s0, s, cs, email, ip, u, n - 1);
      assert StepAt(states, events, n - 1) && FitsAt(states, events, n - 1, cs, Unlisted(email, ip, u));
      RunOwned(states, events, n - 1);
      RunCallsOf(states, events, s0, s, cs, Unlisted(email, ip, u), n - 1);
      RunRefusedAreFull(states, events, n - 1);
      StepShared(states[n - 1], events[n - 1], cs, email, ip, u);
    }
  }

  /* ---------- The exact condition ---------- */

  /** None of the three ways in which an accepted device can go unaccounted for is open. */
  ghost predicate NoWayOut(s0: Node, cs: map<nat, Call>, email: string, ip: string) {
    && (forall u :: !Straddles(s0, cs, email, ip, u))
    && (forall t, u :: !RefusedTwin(cs, email, ip, t, u))
    && (forall t, u :: !RefusedMaker(s0, cs, email, ip, t, u))
  }

  lemma NoWayOutAccounts(s0: Node, cs: map<nat, Call>, email: string, ip: string, s: Node, u: nat)
    requires Idle(s0) && Pending(cs) && NoWayOut(s0, cs, email, ip)
    requires Goes(s0, s, cs, Unlisted(email, ip, u)) && Accepts(s, u, email, ip)
    ensures Present(s, email, ip)
  {
    var states, events :| Journey(states, events, s0, s, cs, Unlisted(email, ip, u));
    RunCallsOf(states, events, s0, s, cs, Unlisted(email, ip, u), |events|);
    assert !Straddles(s0, cs, email, ip, u);
    if !Lacks(s0, cs, email, ip) {
      forall t | t in cs && cs[t].email == email ensures cs[t].ip == ip && (t != u ==> !cs[t].full) {
        assert !OtherCall(cs, email, ip, t) && !RefusedTwin(cs, email, ip, t, u);
      }
      RunShared(states, events, s0, s, cs, email, ip, u, |events|);
    } else {
      forall t | t in cs && SameDevice(cs[t], email, ip) ensures t == u { assert !RefusedTwin(cs, email, ip, u, t); }
      if Present(s0, email, ip) {
        PresentAccounted(states, events, s0, s, cs, email, ip, u);
      } else {
        AbsentAccounted(states, events, s0, s, cs, email, ip, u);
      }
    }
  }

  /**
   * For every idle start, every set of checks and every device: whenever, in any interleaving with reports
   * at any moment, a call for the device has been accepted, the device is online or has been listed by a
   * report since the call began, exactly when none of the three ways out is open.
   */
  lemma AccountedIff(s0: Node, cs: map<nat, Call>, email: string, ip: string)
    requires Idle(s0) && Pending(cs)
    ensures Accounted(s0, cs, email, ip) <==> NoWayOut(s0, cs, email, ip)
  {
    if u :| Straddles(s0, cs, email, ip, u) {
      var s := StraddleLost(s0, cs, email, ip, u);
    } else if t, u :| RefusedTwin(cs, email, ip, t, u) {
      var s := TwinUnaccounted(s0, cs, email, ip, t, u);
    } else if t, u :| RefusedMaker(s0, cs, email, ip, t, u) {
      var s := MakerUnaccounted(s0, cs, email, ip, t, u);
    } else {
      forall s, u | Goes(s0, s, cs, Unlisted(email, ip, u)) && Accepts(s, u, email, ip) ensures Present(s, email, ip) {
        NoWayOutAccounts(s0, cs, email, ip, s, u);
      }
    }
  }
}
