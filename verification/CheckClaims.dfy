/**
 * What interleaved checks do to devices that are online, remembered or accepted (limiter/limiter.go):
 * exactly how an entry leaves the online table, and exactly when a claim or an acceptance can be lost.
 */
module CheckClaims {
  import opened LimiterTables
  import opened CheckRuns
  import opened CheckRaces

  /* ---------- How an entry leaves the online table ---------- */

  /** A refused call that made its user's map takes out the whole map. */
  predicate RetractsMap(s: Node, e: Event, email: string) {
    && e.Step? && e.t in s.calls && s.calls[e.t].pc.Retract? && s.calls[e.t].pc.made && s.calls[e.t].email == email
  }

  /** A refused call that found its user's map takes its own address out of it. */
  predicate RetractsDevice(s: Node, e: Event, email: string, ip: string) {
    && e.Step? && e.t in s.calls && s.calls[e.t].pc.Retract? && !s.calls[e.t].pc.made
    && SameDevice(s.calls[e.t], email, ip) && email in s.online && s.calls[e.t].pc.id == s.online[email]
  }

  predicate Takes(s: Node, e: Event, email: string, ip: string) {
    e.Report? || e == Drop(email) || RetractsMap(s, e, email) || RetractsDevice(s, e, email, ip)
  }

  /** The user's map is the same before and after. */
  ghost predicate SameMap(s: Node, s': Node, email: string) {
    && (email in s'.online <==> email in s.online)
    && (email in s.online ==> s'.online[email] == s.online[email] && MapAt(s', s.online[email]) == MapAt(s, s.online[email]))
  }

  lemma LookUpAside(s: Node, t: nat, id: nat, email: string)
    requires Owned(s) && t in s.calls && id !in s.owner && s.calls[t].email != email
    ensures SameMap(s, DoLookUp(s, t, id), email)
  {
  }

  lemma EnterAside(s: Node, t: nat, id: nat, email: string)
    requires Owned(s) && t in s.calls && id in s.owner && s.owner[id] != email
    ensures SameMap(s, DoEnter(s, t, id), email)
  {
  }

  lemma RetractAside(s: Node, t: nat, id: nat, made: bool, email: string)
    requires Owned(s) && t in s.calls && id in s.owner && s.owner[id] != email && s.calls[t].email != email
    ensures SameMap(s, DoRetract(s, t, id, made), email)
  {
  }

  lemma StepForgets(s: Node, t: nat, id: nat)
    requires Enabled(s, Step(t, id))
    ensures Apply(s, Step(t, id)).previous == if s.calls[t].pc.Forget? then s.previous - {s.calls[t].ip} else s.previous
  {
  }

  /** Another user's call leaves the user's map alone, and what is remembered but for its own address. */
  lemma OtherAside(s: Node, t: nat, id: nat, email: string)
    requires Enabled(s, Step(t, id)) && Owned(s) && s.calls[t].email != email
    ensures var s' := Apply(s, Step(t, id));
      && SameMap(s, s', email) && Moves(s, s', t)
      && s'.previous == if s.calls[t].pc.Forget? then s.previous - {s.calls[t].ip} else s.previous
  {
    assert WorksOn(s, s.calls[t]);
    StepMoves(s, t, id);
    StepForgets(s, t, id);
    match s.calls[t].pc
    case LookUp => LookUpAside(s, t, id, email);
    case Enter(m) => EnterAside(s, t, m, email);
    case Retract(m, made) => RetractAside(s, t, m, made, email);
    case _ =>
  }

  lemma OwnRetract(s: Node, t: nat, id: nat, made: bool, ip: string)
    requires Owned(s) && t in s.calls && s.calls[t].pc == Retract(id, made) && Present(s, s.calls[t].email, ip)
    ensures var c := s.calls[t];
      Present(DoRetract(s, t, id, made), c.email, ip) <==> !made && !(c.ip == ip && id == s.online[c.email])
  {
  }

  lemma OwnKeeps(s: Node, t: nat, id: nat, ip: string)
    requires Enabled(s, Step(t, id)) && Owned(s) && !s.calls[t].pc.Retract? && Present(s, s.calls[t].email, ip)
    ensures Present(Apply(s, Step(t, id)), s.calls[t].email, ip)
  {
  }

  /**
   * At every step of every interleaving: a device that is online leaves the table exactly by a report, by
   * its user being dropped, by a refused call that made its user's map, or by its own refused call.
   */
  lemma LeavesIff(s: Node, e: Event, email: string, ip: string)
    requires Enabled(s, e) && Owned(s) && Present(s, email, ip)
    ensures !Present(Apply(s, e), email, ip) <==> Takes(s, e, email, ip)
  {
    if e.Step? {
      var c := s.calls[e.t];
      if c.email != email {
        OtherAside(s, e.t, e.id, email);
      } else if c.pc.Retract? {
        OwnRetract(s, e.t, c.pc.id, c.pc.made, ip);
      } else {
        OwnKeeps(s, e.t, e.id, ip);
      }
    }
  }

  lemma {:induction false} RunOwned(states: seq<Node>, events: seq<Event>, n: nat)
    requires Run(states, events) && Owned(states[0]) && n <= |events|
    ensures Owned(states[n])
  {
    if n > 0 {
      RunOwned(states, events, n - 1);
      assert StepAt(states, events, n - 1);
      OwnedStep(states[n - 1], events[n - 1]);
    }
  }

  ghost predicate StaysOnline(states: seq<Node>, i: nat, j: nat, email: string, ip: string)
    requires i <= j < |states|
  {
    forall k :: i <= k <= j ==> Present(states[k], email, ip)
  }

  ghost predicate NothingTakes(states: seq<Node>, events: seq<Event>, i: nat, j: nat, email: string, ip: string)
    requires i <= j <= |events| < |states|
  {
    forall k :: i <= k < j ==> !Takes(states[k], events[k], email, ip)
  }

  /** A device online at a step is still so after it exactly unless the step takes it. */
  lemma TakesAt(states: seq<Node>, events: seq<Event>, i: nat, email: string, ip: string)
    requires Run(states, events) && Owned(states[0]) && i < |events| && Present(states[i], email, ip)
    ensures Present(states[i + 1], email, ip) <==> !Takes(states[i], events[i], email, ip)
  {
    RunOwned(states, events, i);
    assert StepAt(states, events, i);
    LeavesIff(states[i], events[i], email, ip);
  }

  lemma StaysMore(states: seq<Node>, i: nat, j: nat, email: string, ip: string)
    requires i <= j < |states| - 1
    ensures StaysOnline(states, i, j + 1, email, ip) <==> StaysOnline(states, i, j, email, ip) && Present(states[j + 1], email, ip)
  {
  }

  /** Over a whole run: a device stays online exactly as long as none of these happens. */
  lemma {:induction false} StaysOnlineIff(states: seq<Node>, events: seq<Event>, i: nat, j: nat, email: string, ip: string)
    requires Run(states, events) && Owned(states[0]) && i <= j <= |events| && Present(states[i], email, ip)
    ensures StaysOnline(states, i, j, email, ip) <==> NothingTakes(states, events, i, j, email, ip)
  {
    if i < j {
      StaysOnlineIff(states, events, i, j - 1, email, ip);
      StaysMore(states, i, j - 1, email, ip);
      if StaysOnline(states, i, j - 1, email, ip) {
        assert Present(states[j - 1], email, ip);
        TakesAt(states, events, j - 1, email, ip);
      }
    }
  }

  /* ---------- Calls of a user whose map is not taken out ---------- */

  /** Calls of the user work on the map that is online. */
  ghost predicate Rooted(s: Node, email: string) {
    forall t :: t in s.calls && s.calls[t].email == email && OnMap(s.calls[t].pc) ==>
      email in s.online && s.calls[t].pc.id == s.online[email]
  }

  /** Calls for the device that have not entered it work on a map that has it, or on the one that is online. */
  ghost predicate Anchored(s: Node, email: string, ip: string) {
    forall t :: t in s.calls && SameDevice(s.calls[t], email, ip) && OnMap(s.calls[t].pc) ==>
      (s.calls[t].pc.Enter? && ip in MapAt(s, s.calls[t].pc.id)) || (email in s.online && s.calls[t].pc.id == s.online[email])
  }

  predicate OnMap(pc: Pc) { pc.Enter? || pc.Recall? || pc.Retract? }

  predicate Undecided(pc: Pc) { pc.Recall? || pc.Retract? }

  predicate Entering(c: Call, email: string, ip: string) {
    SameDevice(c, email, ip) && (Undecided(c.pc) || c.pc.Forget?)
  }

  predicate Refused(c: Call) { c.pc.Retract? || c.pc == Done(false) }

  /** The device is remembered, and no other user's call can use the record up. */
  ghost predicate Firm(s: Node, cs: map<nat, Call>, email: string, ip: string) {
    && ip in s.previous
    && forall t :: t in cs && cs[t].email != email && cs[t].ip == ip ==> cs[t].uid != s.previous[ip]
  }

  /** The device is online for good, or firmly remembered. */
  ghost predicate Kept(s: Node, cs: map<nat, Call>, email: string, ip: string) {
    || (Present(s, email, ip) && forall t :: t in s.calls && SameDevice(s.calls[t], email, ip) ==> !Undecided(s.calls[t].pc))
    || Firm(s, cs, email, ip)
  }

  ghost predicate Entries(s: Node, email: string, ip: string) {
    && (forall t :: t in s.calls && Entering(s.calls[t], email, ip) ==> Present(s, email, ip))
    && (forall t, u :: t in s.calls && u in s.calls && Entering(s.calls[t], email, ip) && Entering(s.calls[u], email, ip) ==> t == u)
  }

  ghost predicate NoneRefused(s: Node, email: string, ip: string) {
    forall t :: t in s.calls && SameDevice(s.calls[t], email, ip) ==> !Refused(s.calls[t])
  }

  ghost predicate NoneForgets(s: Node, email: string, ip: string) {
    forall t :: t in s.calls && s.calls[t].email != email && s.calls[t].ip == ip ==> !s.calls[t].pc.Forget?
  }

  ghost predicate Safe(s: Node, cs: map<nat, Call>, email: string, ip: string) {
    && Anchored(s, email, ip) && Entries(s, email, ip) && NoneRefused(s, email, ip) && Kept(s, cs, email, ip)
    && (Firm(s, cs, email, ip) ==> NoneForgets(s, email, ip))
  }

  /** The only map another call writes into is its own. */
  ghost predicate MapsOf(s: Node, s': Node, email: string) {
    && s.owner.Keys <= s'.owner.Keys
    && (forall m :: m in s'.owner && s'.owner[m] == email ==> m in s.owner && s.owner[m] == email && MapAt(s', m) == MapAt(s, m))
    && (forall m :: m in s.owner && s.owner[m] == email ==> s'.owner[m] == email)
  }

  lemma LookUpMaps(s: Node, t: nat, id: nat, email: string)
    requires t in s.calls && id !in s.owner && s.calls[t].email != email
    ensures MapsOf(s, DoLookUp(s, t, id), email)
  {
  }

  lemma EnterMaps(s: Node, t: nat, id: nat, email: string)
    requires t in s.calls && id in s.owner && s.owner[id] != email
    ensures MapsOf(s, DoEnter(s, t, id), email)
  {
  }

  lemma RetractMaps(s: Node, t: nat, id: nat, made: bool, email: string)
    requires t in s.calls && id in s.owner && s.owner[id] != email
    ensures MapsOf(s, DoRetract(s, t, id, made), email)
  {
  }

  lemma OtherMaps(s: Node, t: nat, id: nat, email: string)
    requires Enabled(s, Step(t, id)) && Owned(s) && s.calls[t].email != email
    ensures MapsOf(s, Apply(s, Step(t, id)), email)
  {
    assert WorksOn(s, s.calls[t]);
    match s.calls[t].pc
    case LookUp => LookUpMaps(s, t, id, email);
    case Enter(m) => EnterMaps(s, t, m, email);
    case Retract(m, made) => RetractMaps(s, t, m, made, email);
    case _ =>
  }

  /** Everything about the device but the step's own call is as it was. */
  ghost predicate Undisturbed(s: Node, s': Node, cs: map<nat, Call>, email: string, ip: string) {
    && (email in s.online ==> email in s'.online && s'.online[email] == s.online[email])
    && (Present(s', email, ip) <==> Present(s, email, ip)) && (Firm(s', cs, email, ip) <==> Firm(s, cs, email, ip))
    && forall t :: t in s.calls && SameDevice(s.calls[t], email, ip) && s.calls[t].pc.Enter? && ip in MapAt(s, s.calls[t].pc.id) ==>
         ip in MapAt(s', s.calls[t].pc.id)
  }

  /** A call that is not for the device moves on, or one that is does so without entering or leaving. */
  lemma SafeWith(s: Node, s': Node, t: nat, cs: map<nat, Call>, email: string, ip: string)
    requires Safe(s, cs, email, ip) && t in s.calls && Moves(s, s', t) && Undisturbed(s, s', cs, email, ip)
    requires SameDevice(s.calls[t], email, ip) ==> var pc := s'.calls[t].pc;
      && (OnMap(pc) ==> email in s.online && pc.id == s.online[email])
      && !Refused(s'.calls[t]) && (Entering(s'.calls[t], email, ip) ==> Entering(s.calls[t], email, ip))
      && (Undecided(pc) ==> Undecided(s.calls[t].pc))
    requires s.calls[t].email != email && s.calls[t].ip == ip && Firm(s, cs, email, ip) ==> !s'.calls[t].pc.Forget?
    ensures Safe(s', cs, email, ip)
  {
    assert forall u :: u in s.calls && u != t ==> s'.calls[u] == s.calls[u];
  }

  lemma MovedOther(s: Node, s': Node, t: nat, cs: map<nat, Call>, email: string, ip: string)
    requires Safe(s, cs, email, ip) && t in s.calls && Moves(s, s', t) && s.calls[t].email != email && SameMap(s, s', email)
    requires s'.previous == if s.calls[t].pc.Forget? then s.previous - {s.calls[t].ip} else s.previous
    requires Firm(s, cs, email, ip) && s.calls[t].ip == ip ==> !s'.calls[t].pc.Forget?
    requires Owned(s) && MapsOf(s, s', email)
    ensures Safe(s', cs, email, ip)
  {
    forall u | u in s.calls && SameDevice(s.calls[u], email, ip) && s.calls[u].pc.Enter?
      ensures MapAt(s', s.calls[u].pc.id) == MapAt(s, s.calls[u].pc.id)
    {
      assert WorksOn(s, s.calls[u]);
    }
    SafeWith(s, s', t, cs, email, ip);
  }

  lemma OtherSafe(s: Node, t: nat, id: nat, cs: map<nat, Call>, email: string, ip: string)
    requires Enabled(s, Step(t, id)) && Owned(s) && CallsOf(s, cs) && Safe(s, cs, email, ip) && s.calls[t].email != email
    ensures Safe(Apply(s, Step(t, id)), cs, email, ip)
  {
    OtherAside(s, t, id, email);
    OtherMaps(s, t, id, email);
    var s' := Apply(s, Step(t, id));
    assert s.calls[t].pc.Recall? && Firm(s, cs, email, ip) && s.calls[t].ip == ip ==> s.previous[ip] != s.calls[t].uid;
    MovedOther(s, s', t, cs, email, ip);
  }

  /** A call of the user moves on without touching the user's map or what is remembered. */
  lemma OwnMoved(s: Node, t: nat, pc: Pc, cs: map<nat, Call>, email: string, ip: string)
    requires Safe(s, cs, email, ip) && t in s.calls && s.calls[t].email == email
    requires s.calls[t].ip == ip && OnMap(pc) ==> email in s.online && pc.id == s.online[email]
    requires s.calls[t].ip == ip ==> !pc.Retract? && pc != Done(false) && (Undecided(pc) || pc.Forget? ==> Entering(s.calls[t], email, ip))
    requires s.calls[t].ip == ip && Undecided(pc) ==> Undecided(s.calls[t].pc)
    ensures Safe(Moved(s, t, pc), cs, email, ip)
  {
    SafeWith(s, Moved(s, t, pc), t, cs, email, ip);
  }

  /** The user's map is made with another address in it, or with the device. */
  lemma MadeElsewhere(s: Node, s': Node, t: nat, id: nat, cs: map<nat, Call>, email: string, ip: string)
    requires Owned(s) && Safe(s, cs, email, ip) && t in s.calls && s.calls[t].email == email && s.calls[t].ip != ip
    requires email !in s.online && id !in s.owner && s' == DoLookUp(s, t, id)
    ensures Safe(s', cs, email, ip)
  {
    forall u | u in s.calls && SameDevice(s.calls[u], email, ip) && s.calls[u].pc.Enter?
      ensures MapAt(s', s.calls[u].pc.id) == MapAt(s, s.calls[u].pc.id)
    {
      assert WorksOn(s, s.calls[u]);
    }
    SafeWith(s, s', t, cs, email, ip);
  }

  lemma MadeHere(s: Node, s': Node, t: nat, id: nat, cs: map<nat, Call>, email: string, ip: string)
    requires Owned(s) && Safe(s, cs, email, ip) && t in s.calls && SameDevice(s.calls[t], email, ip) && s.calls[t].pc.LookUp?
    requires email !in s.online && id !in s.owner && s' == DoLookUp(s, t, id)
    ensures Safe(s', cs, email, ip)
  {
    assert forall u :: u in s.calls && u != t ==> s'.calls[u] == s.calls[u];
    assert Present(s', email, ip) && Firm(s, cs, email, ip);
    forall u | u in s.calls && SameDevice(s.calls[u], email, ip) && s.calls[u].pc.Enter?
      ensures MapAt(s', s.calls[u].pc.id) == MapAt(s, s.calls[u].pc.id)
    {
      assert WorksOn(s, s.calls[u]);
    }
  }

  lemma OwnLookUpSafe(s: Node, t: nat, id: nat, cs: map<nat, Call>, email: string, ip: string)
    requires Enabled(s, Step(t, id)) && Owned(s) && Safe(s, cs, email, ip) && s.calls[t].email == email && s.calls[t].pc.LookUp?
    ensures Safe(DoLookUp(s, t, id), cs, email, ip)
  {
    if email in s.online {
      OwnMoved(s, t, Enter(s.online[email]), cs, email, ip);
    } else if s.calls[t].ip == ip {
      MadeHere(s, DoLookUp(s, t, id), t, id, cs, email, ip);
    } else {
      MadeElsewhere(s, DoLookUp(s, t, id), t, id, cs, email, ip);
    }
  }

  /** An address is entered in one of the user's maps. */
  lemma EntersElsewhere(s: Node, s': Node, t: nat, id: nat, cs: map<nat, Call>, email: string, ip: string)
    requires Safe(s, cs, email, ip) && t in s.calls && s.calls[t].email == email && s.calls[t].ip != ip
    requires s' == Moved(s.(maps := s.maps[id := MapAt(s, id)[s.calls[t].ip := s.calls[t].uid]]), t, Recall(id, false))
    ensures Safe(s', cs, email, ip)
  {
    assert forall m :: ip in MapAt(s', m) <==> ip in MapAt(s, m);
    SafeWith(s, s', t, cs, email, ip);
  }

  lemma EntersHere(s: Node, s': Node, t: nat, id: nat, cs: map<nat, Call>, email: string, ip: string)
    requires Safe(s, cs, email, ip) && t in s.calls && SameDevice(s.calls[t], email, ip) && s.calls[t].pc == Enter(id) && ip !in MapAt(s, id)
    requires s' == Moved(s.(maps := s.maps[id := MapAt(s, id)[ip := s.calls[t].uid]]), t, Recall(id, false))
    ensures Safe(s', cs, email, ip)
  {
    assert email in s.online && id == s.online[email] && !Present(s, email, ip) && Present(s', email, ip);
    assert forall u :: u in s.calls && u != t ==> s'.calls[u] == s.calls[u];
    assert forall m :: ip in MapAt(s, m) ==> ip in MapAt(s', m);
  }

  lemma OwnEnterSafe(s: Node, t: nat, id: nat, cs: map<nat, Call>, email: string, ip: string)
    requires Safe(s, cs, email, ip) && t in s.calls && s.calls[t].email == email && s.calls[t].pc == Enter(id)
    ensures Safe(DoEnter(s, t, id), cs, email, ip)
  {
    if s.calls[t].ip in MapAt(s, id) {
      OwnMoved(s, t, Done(true), cs, email, ip);
    } else if s.calls[t].ip == ip {
      EntersHere(s, DoEnter(s, t, id), t, id, cs, email, ip);
    } else {
      EntersElsewhere(s, DoEnter(s, t, id), t, id, cs, email, ip);
    }
  }

  /** The record of another address is used up. */
  lemma ForgetElsewhere(s: Node, s': Node, t: nat, cs: map<nat, Call>, email: string, ip: string)
    requires Safe(s, cs, email, ip) && t in s.calls && s.calls[t].email == email && s.calls[t].ip != ip
    requires s' == Moved(s.(previous := s.previous - {s.calls[t].ip}), t, Done(true))
    ensures Safe(s', cs, email, ip)
  {
    assert Firm(s', cs, email, ip) <==> Firm(s, cs, email, ip);
    SafeWith(s, s', t, cs, email, ip);
  }

  /** The record is used up once the entry is online for good. */
  lemma ForgetHere(s: Node, s': Node, t: nat, cs: map<nat, Call>, email: string, ip: string)
    requires Safe(s, cs, email, ip) && t in s.calls && SameDevice(s.calls[t], email, ip) && s.calls[t].pc.Forget?
    requires s' == Moved(s.(previous := s.previous - {ip}), t, Done(true))
    ensures Safe(s', cs, email, ip)
  {
    assert Entering(s.calls[t], email, ip) && Present(s', email, ip);
    assert forall u :: u in s.calls && u != t ==> s'.calls[u] == s.calls[u];
    assert forall u :: u in s'.calls ==> !Entering(s'.calls[u], email, ip);
    assert ip !in s'.previous;
  }

  lemma OwnForgetSafe(s: Node, t: nat, id: nat, cs: map<nat, Call>, email: string, ip: string)
    requires Enabled(s, Step(t, id)) && Safe(s, cs, email, ip) && s.calls[t].email == email && s.calls[t].pc.Forget?
    ensures Safe(Apply(s, Step(t, id)), cs, email, ip)
  {
    var s' := Apply(s, Step(t, id));
    if s.calls[t].ip == ip { ForgetHere(s, s', t, cs, email, ip); } else { ForgetElsewhere(s, s', t, cs, email, ip); }
  }

  lemma OwnRetractSafe(s: Node, t: nat, id: nat, cs: map<nat, Call>, email: string, ip: string)
    requires Safe(s, cs, email, ip) && t in s.calls && s.calls[t].email == email && s.calls[t].pc == Retract(id, false)
    ensures Safe(DoRetract(s, t, id, false), cs, email, ip)
  {
    var s' := DoRetract(s, t, id, false);
    assert s.calls[t].ip != ip;
    assert forall m :: ip in MapAt(s', m) <==> ip in MapAt(s, m);
    SafeWith(s, s', t, cs, email, ip);
  }

  lemma OwnSafe(s: Node, t: nat, id: nat, cs: map<nat, Call>, email: string, ip: string)
    requires Enabled(s, Step(t, id)) && Owned(s) && Safe(s, cs, email, ip) && s.calls[t].email == email
    requires !RetractsMap(s, Step(t, id), email)
    ensures Safe(Apply(s, Step(t, id)), cs, email, ip)
  {
    match s.calls[t].pc
    case LookUp => OwnLookUpSafe(s, t, id, cs, email, ip);
    case Enter(m) => OwnEnterSafe(s, t, m, cs, email, ip);
    case Recall(m, made) => OwnMoved(s, t, DoRecall(s, t, m, made).calls[t].pc, cs, email, ip);
    case Forget => OwnForgetSafe(s, t, id, cs, email, ip);
    case Retract(m, made) => OwnRetractSafe(s, t, m, cs, email, ip);
  }

  lemma BeginSafe(s: Node, t: nat, c: Call, cs: map<nat, Call>, email: string, ip: string)
    requires Safe(s, cs, email, ip) && t !in s.calls && c.pc.LookUp?
    ensures Safe(s.(calls := s.calls[t := c]), cs, email, ip)
  {
    var s' := s.(calls := s.calls[t := c]);
    assert forall u :: u in s.calls ==> s'.calls[u] == s.calls[u];
  }

  lemma DropSafe(s: Node, other: string, cs: map<nat, Call>, email: string, ip: string)
    requires Safe(s, cs, email, ip) && other != email
    ensures Safe(s.(online := s.online - {other}), cs, email, ip)
  {
  }

  /** A step within a period at which the user's map is not taken out. */
  lemma StepSafe(s: Node, e: Event, cs: map<nat, Call>, email: string, ip: string)
    requires Enabled(s, e) && Fits(s, e, cs, Within(email)) && Owned(s) && CallsOf(s, cs) && Safe(s, cs, email, ip)
    requires !RetractsMap(s, e, email)
    ensures Safe(Apply(s, e), cs, email, ip)
  {
    match e
    case Begin(t, who, from, uid, full) => BeginSafe(s, t, Call(who, from, uid, full, LookUp), cs, email, ip);
    case Step(t, id) =>
      if s.calls[t].email == email { OwnSafe(s, t, id, cs, email, ip); } else { OtherSafe(s, t, id, cs, email, ip); }
    case Drop(other) => DropSafe(s, other, cs, email, ip);
    case Report(_) =>
  }
}
