/**
 * Exactly which sets of checks can, in some interleaving, lose a user's claim to a device or an accepted
 * device (limiter/limiter.go).  Within a period the user is neither reported nor dropped.
 */
module CheckLosses {
  import opened LimiterTables
  import opened CheckRuns
  import opened CheckRaces
  import opened CheckClaims

  /* ---------- Runs within a period ---------- */

  ghost predicate MapKept(states: seq<Node>, events: seq<Event>, n: nat, email: string)
    requires n <= |events| < |states|
  {
    forall i :: 0 <= i < n ==> !RetractsMap(states[i], events[i], email)
  }

  lemma IdleSafe(s: Node, cs: map<nat, Call>, email: string, ip: string)
    requires Idle(s) && Kept(s, cs, email, ip)
    ensures Safe(s, cs, email, ip)
  {
  }

  lemma {:induction false} RunSafe(states: seq<Node>, events: seq<Event>, s0: Node, s: Node, cs: map<nat, Call>, email: string, ip: string, n: nat)
    requires Journey(states, events, s0, s, cs, Within(email)) && n <= |events|
    requires Idle(s0) && Kept(s0, cs, email, ip) && MapKept(states, events, n, email)
    ensures Safe(states[n], cs, email, ip)
  {
    if n == 0 {
      IdleSafe(s0, cs, email, ip);
    } else {
      RunSafe(states, events, s0, s, cs, email, ip, n - 1);
      assert StepAt(states, events, n - 1) && FitsAt(states, events, n - 1, cs, Within(email));
      RunOwned(states, events, n - 1);
      RunCallsOf(states, events, s0, s, cs, Within(email), n - 1);
      StepSafe(states[n - 1], events[n - 1], cs, email, ip);
    }
  }

  /** The user has a map, and no call under way has made it. */
  ghost predicate NoneMade(s: Node, email: string) {
    && email in s.online
    && forall t :: t in s.calls && s.calls[t].email == email && Undecided(s.calls[t].pc) ==> !s.calls[t].pc.made
  }

  lemma StepNoneMade(s: Node, e: Event, cs: map<nat, Call>, email: string)
    requires Enabled(s, e) && Fits(s, e, cs, Within(email)) && Owned(s) && NoneMade(s, email)
    ensures NoneMade(Apply(s, e), email) && !RetractsMap(s, e, email)
  {
    if e.Step? {
      StepMoves(s, e.t, e.id);
      if s.calls[e.t].email != email { OtherAside(s, e.t, e.id, email); }
    }
  }

  lemma {:induction false} RunNoneMade(states: seq<Node>, events: seq<Event>, s0: Node, s: Node, cs: map<nat, Call>, email: string, n: nat)
    requires Journey(states, events, s0, s, cs, Within(email)) && n <= |events| && Idle(s0) && email in s0.online
    ensures NoneMade(states[n], email) && MapKept(states, events, n, email)
  {
    if n > 0 {
      RunNoneMade(states, events, s0, s, cs, email, n - 1);
      assert StepAt(states, events, n - 1) && FitsAt(states, events, n - 1, cs, Within(email));
      RunOwned(states, events, n - 1);
      StepNoneMade(states[n - 1], events[n - 1], cs, email);
    }
  }

  /** Only calls of full users are refused. */
  ghost predicate RefusedAreFull(s: Node) {
    forall t :: t in s.calls && Refused(s.calls[t]) ==> s.calls[t].full
  }

  lemma StepRefusedAreFull(s: Node, e: Event)
    requires Enabled(s, e) && RefusedAreFull(s)
    ensures RefusedAreFull(Apply(s, e))
  {
    if e.Step? { StepMoves(s, e.t, e.id); }
  }

  lemma {:induction false} RunRefusedAreFull(states: seq<Node>, events: seq<Event>, n: nat)
    requires Run(states, events) && n <= |events| && states[0].calls == map[]
    ensures RefusedAreFull(states[n])
  {
    if n > 0 {
      RunRefusedAreFull(states, events, n - 1);
      assert StepAt(states, events, n - 1);
      StepRefusedAreFull(states[n - 1], events[n - 1]);
    }
  }

  lemma VerdictStep(s: Node, e: Event, t: nat)
    requires Enabled(s, e) && t in s.calls && s.calls[t].pc.Done?
    ensures t in Apply(s, e).calls && Apply(s, e).calls[t] == s.calls[t]
  {
    if e.Step? { StepMoves(s, e.t, e.id); }
  }

  ghost predicate HasCall(s: Node, t: nat, c: Call) { t in s.calls && s.calls[t] == c }

  lemma VerdictAt(states: seq<Node>, events: seq<Event>, i: nat, t: nat, c: Call)
    requires Run(states, events) && i < |events| && c.pc.Done? && HasCall(states[i], t, c)
    ensures HasCall(states[i + 1], t, c)
  {
    assert StepAt(states, events, i);
    VerdictStep(states[i], events[i], t);
  }

  /** A verdict is final. */
  lemma {:induction false} VerdictStays(states: seq<Node>, events: seq<Event>, i: nat, n: nat, t: nat, c: Call)
    requires Run(states, events) && i <= n <= |events| && c.pc.Done? && HasCall(states[i], t, c)
    ensures HasCall(states[n], t, c)
  {
    if i < n {
      VerdictStays(states, events, i, n - 1, t, c);
      VerdictAt(states, events, n - 1, t, c);
    }
  }

  /**
   * The first call that takes the user's map out: the user had no map at the start, the call is of a full
   * user, from an address that is not firmly remembered, and is refused.
   */
  lemma FirstRetract(states: seq<Node>, events: seq<Event>, s0: Node, s: Node, cs: map<nat, Call>, email: string) returns (t: nat)
    requires Journey(states, events, s0, s, cs, Within(email)) && Idle(s0) && !MapKept(states, events, |events|, email)
    ensures t in cs && cs[t].email == email && cs[t].full && !Firm(s0, cs, email, cs[t].ip) && email !in s0.online
    ensures t in s.calls && s.calls[t].pc == Done(false)
  {
    if email in s0.online { RunNoneMade(states, events, s0, s, cs, email, |events|); }
    var i := FirstOf(states, events, |events|, email);
    t := events[i].t;
    var m := states[i];
    RunCallsOf(states, events, s0, s, cs, Within(email), i);
    RunRefusedAreFull(states, events, i);
    if Firm(s0, cs, email, cs[t].ip) {
      RunSafe(states, events, s0, s, cs, email, cs[t].ip, i);
      assert false;
    }
    assert StepAt(states, events, i);
    VerdictStays(states, events, i + 1, |events|, t, states[i + 1].calls[t]);
  }

  lemma {:induction false} FirstOf(states: seq<Node>, events: seq<Event>, n: nat, email: string) returns (i: nat)
    requires n <= |events| < |states| && !MapKept(states, events, n, email)
    ensures i < n && RetractsMap(states[i], events[i], email) && MapKept(states, events, i, email)
  {
    if MapKept(states, events, n - 1, email) {
      i := n - 1;
    } else {
      i := FirstOf(states, events, n - 1, email);
    }
  }

  /* ---------- Further moves of one call ---------- */

  lemma GoDrop(s0: Node, s: Node, cs: map<nat, Call>, mode: Mode, other: string) returns (s': Node)
    requires Goes(s0, s, cs, mode) && (mode.Within? || mode.Unlisted? ==> other != mode.email)
    ensures Goes(s0, s', cs, mode) && s' == s.(online := s.online - {other})
  {
    GoesOn(s0, s, cs, mode, Drop(other));
    s' := Apply(s, Drop(other));
  }

  /** If a device is not firmly remembered, other users' calls can make it forgotten. */
  lemma GoForgotten(s0: Node, cs: map<nat, Call>, email: string, ip: string) returns (s: Node)
    requires Idle(s0) && Pending(cs) && !Firm(s0, cs, email, ip)
    ensures Goes(s0, s, cs, Within(email)) && ip !in s.previous && s.previous == s0.previous - {ip}
    ensures (email in s.online <==> email in s0.online) && forall t :: t in s.calls ==> t in cs && cs[t].email != email
    ensures forall from :: Present(s, email, from) <==> Present(s0, email, from)
  {
    GoesNowhere(s0, cs, Within(email));
    if ip !in s0.previous {
      s := s0;
      assert s0.previous - {ip} == s0.previous;
    } else {
      var v :| v in cs && cs[v].email != email && cs[v].ip == ip && cs[v].uid == s0.previous[ip];
      var s1 := GoDrop(s0, s0, cs, Within(email), cs[v].email);
      s := GoUsedUp(s0, s1, cs, Within(email), email, v);
    }
  }

  lemma GoUsedUp(s0: Node, s: Node, cs: map<nat, Call>, mode: Mode, email: string, v: nat) returns (s': Node)
    requires Goes(s0, s, cs, mode) && Owned(s) && s.calls == map[] && Pending(cs)
    requires v in cs && cs[v].email != email && cs[v].email !in s.online
    requires cs[v].ip in s.previous && s.previous[cs[v].ip] == cs[v].uid
    ensures Goes(s0, s', cs, mode) && s'.previous == s.previous - {cs[v].ip} && s'.calls.Keys == {v}
    ensures SameMap(s, s', email)
  {
    var s1 := GoBegin(s0, s, cs, mode, v);
    var s2 := GoMake(s0, s1, cs, mode, v);
    assert SameMap(s1, s2, email);
    s' := GoForget(s0, s2, cs, mode, v);
  }

  /** A call for a user without a map makes one; every other user's map stays. */
  lemma GoMake(s0: Node, s: Node, cs: map<nat, Call>, mode: Mode, t: nat) returns (s': Node)
    requires Goes(s0, s, cs, mode) && Owned(s) && t in s.calls && s.calls[t].pc.LookUp? && s.calls[t].email !in s.online
    ensures Goes(s0, s', cs, mode) && s'.previous == s.previous
    ensures t in s'.calls && s'.calls[t].pc.Recall? && s'.calls[t].pc.made && s'.calls == s.calls[t := s.calls[t].(pc := s'.calls[t].pc)]
    ensures forall ip :: Present(s', s.calls[t].email, ip) <==> ip == s.calls[t].ip
    ensures OnlineUnder(s', s.calls[t].email, s.calls[t].ip, s.calls[t].uid)
    ensures forall e :: e != s.calls[t].email ==> SameMap(s, s', e)
  {
    var name := FreshName(s.owner.Keys);
    GoesOn(s0, s, cs, mode, Step(t, name));
    s' := Apply(s, Step(t, name));
  }

  lemma GoesOwned(s0: Node, s: Node, cs: map<nat, Call>, mode: Mode)
    requires Goes(s0, s, cs, mode) && Owned(s0)
    ensures Owned(s)
  {
    var states, events :| Journey(states, events, s0, s, cs, mode);
    RunOwned(states, events, |events|);
  }

  /** A call of a full user without a map makes one and, its address forgotten, is about to take it out. */
  lemma GoToRetract(s0: Node, s: Node, cs: map<nat, Call>, mode: Mode, email: string, t: nat) returns (s': Node)
    requires Goes(s0, s, cs, mode) && Idle(s0) && Pending(cs) && t in cs && t !in s.calls
    requires cs[t].email == email && cs[t].full && email !in s.online && cs[t].ip !in s.previous
    ensures Goes(s0, s', cs, mode) && s'.previous == s.previous
    ensures t in s'.calls && s'.calls[t].pc.Retract? && s'.calls[t].pc.made && s'.calls == s.calls[t := cs[t].(pc := s'.calls[t].pc)]
    ensures forall ip :: Present(s', email, ip) <==> ip == cs[t].ip
  {
    var s1 := GoBegin(s0, s, cs, mode, t);
    GoesOwned(s0, s1, cs, mode);
    var s2 := GoMake(s0, s1, cs, mode, t);
    s' := GoRefuse(s0, s2, cs, mode, t);
    assert forall ip :: Present(s', email, ip) <==> Present(s2, email, ip);
  }

  /** Another call of the user enters its own address into that map. */
  lemma GoToRecall(s0: Node, s: Node, cs: map<nat, Call>, mode: Mode, email: string, u: nat) returns (s': Node)
    requires Goes(s0, s, cs, mode) && Pending(cs) && u in cs && u !in s.calls
    requires cs[u].email == email && email in s.online && !Present(s, email, cs[u].ip)
    ensures Goes(s0, s', cs, mode) && s'.previous == s.previous && Present(s', email, cs[u].ip)
    ensures u in s'.calls && s'.calls[u].pc.Recall? && s'.calls == s.calls[u := cs[u].(pc := s'.calls[u].pc)]
  {
    var s1 := GoBegin(s0, s, cs, mode, u);
    var id, made;
    s', id, made := GoEnterNew(s0, s1, cs, mode, u);
    CallsTwice(s.calls, u, cs[u], cs[u].(pc := Recall(id, made)));
  }

  lemma CallsTwice(calls: map<nat, Call>, t: nat, c: Call, d: Call)
    ensures calls[t := c][t := d] == calls[t := d]
  {
  }

  /** The refused call takes the map out, with everything in it. */
  lemma GoTakeMap(s0: Node, s: Node, cs: map<nat, Call>, mode: Mode, email: string, t: nat) returns (s': Node)
    requires Goes(s0, s, cs, mode) && t in s.calls && s.calls[t].email == email && s.calls[t].pc.Retract? && s.calls[t].pc.made
    ensures Goes(s0, s', cs, mode) && s'.previous == s.previous && email !in s'.online
    ensures s'.calls == s.calls[t := s.calls[t].(pc := Done(false))]
  {
    s' := GoRetract(s0, s, cs, mode, t);
  }

  /* ---------- When a claim can be lost ---------- */

  /** The device is online or remembered, and no check of it is refused. */
  ghost predicate Stays(s: Node, email: string, ip: string) {
    (Present(s, email, ip) || ip in s.previous) && NoneRefused(s, email, ip)
  }

  ghost predicate ClaimKept(s0: Node, cs: map<nat, Call>, email: string, ip: string) {
    forall s :: Goes(s0, s, cs, Within(email)) ==> Stays(s, email, ip)
  }

  /**
   * The user has no address map, and besides the remembered device a second address is checked that is
   * full and not firmly remembered.
   */
  ghost predicate Threat(s0: Node, cs: map<nat, Call>, email: string, ip: string, t: nat, u: nat) {
    && email !in s0.online && t in cs && u in cs && cs[t].email == email
    && cs[t].full && cs[t].ip != ip && !Firm(s0, cs, email, cs[t].ip)
    && SameDevice(cs[u], email, ip) && ip in s0.previous && cs[u].uid == s0.previous[ip]
  }

  /**
   * The remembered device enters the map the other address has made, uses up its record and is accepted;
   * then the other call is refused and takes the map out.
   */
  lemma ClaimLost(s0: Node, cs: map<nat, Call>, email: string, ip: string, t: nat, u: nat) returns (s: Node)
    requires Idle(s0) && Pending(cs) && Threat(s0, cs, email, ip, t, u)
    ensures Goes(s0, s, cs, Within(email)) && !Present(s, email, ip) && ip !in s.previous
    ensures u in s.calls && s.calls[u].pc == Done(true)
  {
    var s1 := GoForgotten(s0, cs, email, cs[t].ip);
    var s2 := GoToRetract(s0, s1, cs, Within(email), email, t);
    assert Present(s2, email, cs[t].ip);
    var s3 := GoToRecall(s0, s2, cs, Within(email), email, u);
    var s4 := GoForget(s0, s3, cs, Within(email), u);
    s := GoTakeMap(s0, s4, cs, Within(email), email, t);
  }

  /** A record that no call can use up stays, and so does the device. */
  ghost predicate Unused(s: Node, email: string, ip: string, uid: int) {
    && ip in s.previous && s.previous[ip] == uid
    && forall t :: t in s.calls && s.calls[t].ip == ip ==> !s.calls[t].pc.Forget? && (s.calls[t].email == email ==> !Refused(s.calls[t]))
  }

  lemma StepUnused(s: Node, e: Event, cs: map<nat, Call>, email: string, ip: string, uid: int)
    requires Enabled(s, e) && Fits(s, e, cs, Within(email)) && CallsOf(s, cs) && Unused(s, email, ip, uid)
    requires forall t :: t in cs && cs[t].ip == ip ==> cs[t].uid != uid
    ensures Unused(Apply(s, e), email, ip, uid)
  {
    if e.Step? {
      StepMoves(s, e.t, e.id);
      assert s.calls[e.t] == cs[e.t].(pc := s.calls[e.t].pc);
    }
  }

  lemma {:induction false} RunUnused(states: seq<Node>, events: seq<Event>, s0: Node, s: Node, cs: map<nat, Call>, email: string, ip: string, n: nat)
    requires Journey(states, events, s0, s, cs, Within(email)) && n <= |events| && Idle(s0) && ip in s0.previous
    requires forall t :: t in cs && cs[t].ip == ip ==> cs[t].uid != s0.previous[ip]
    ensures Unused(states[n], email, ip, s0.previous[ip])
  {
    if n > 0 {
      RunUnused(states, events, s0, s, cs, email, ip, n - 1);
      assert StepAt(states, events, n - 1) && FitsAt(states, events, n - 1, cs, Within(email));
      RunCallsOf(states, events, s0, s, cs, Within(email), n - 1);
      StepUnused(states[n - 1], events[n - 1], cs, email, ip, s0.previous[ip]);
    }
  }

  lemma UnthreatenedStays(s0: Node, cs: map<nat, Call>, email: string, ip: string, s: Node)
    requires Idle(s0) && Pending(cs) && Kept(s0, cs, email, ip) && Goes(s0, s, cs, Within(email))
    requires forall t, u :: !Threat(s0, cs, email, ip, t, u)
    ensures Stays(s, email, ip)
  {
    var states, events :| Journey(states, events, s0, s, cs, Within(email));
    if MapKept(states, events, |events|, email) {
      RunSafe(states, events, s0, s, cs, email, ip, |events|);
    } else {
      var t := FirstRetract(states, events, s0, s, cs, email);
      assert Firm(s0, cs, email, ip) && cs[t].ip != ip;
      forall u | u in cs && cs[u].ip == ip ensures cs[u].uid != s0.previous[ip] {
        assert !Threat(s0, cs, email, ip, t, u);
      }
      RunUnused(states, events, s0, s, cs, email, ip, |events|);
    }
  }

  /** A device that is neither online nor firmly remembered can be in no table at all. */
  lemma UnkeptIsLost(s0: Node, cs: map<nat, Call>, email: string, ip: string) returns (s: Node)
    requires Idle(s0) && Pending(cs) && !Kept(s0, cs, email, ip)
    ensures Goes(s0, s, cs, Within(email)) && !Stays(s, email, ip)
  {
    s := GoForgotten(s0, cs, email, ip);
    assert !Present(s0, email, ip);
  }

  /**
   * For every idle start, every set of checks and every device: in all interleavings of a period it stays
   * online or remembered and is never refused, exactly when it is online, or remembered beyond other
   * users' reach, at the start and there is no threat to it.
   */
  lemma ClaimKeptIff(s0: Node, cs: map<nat, Call>, email: string, ip: string)
    requires Idle(s0) && Pending(cs)
    ensures ClaimKept(s0, cs, email, ip) <==> Kept(s0, cs, email, ip) && forall t, u :: !Threat(s0, cs, email, ip, t, u)
  {
    if !Kept(s0, cs, email, ip) {
      var s := UnkeptIsLost(s0, cs, email, ip);
    } else if t, u :| Threat(s0, cs, email, ip, t, u) {
      var s := ClaimLost(s0, cs, email, ip, t, u);
      assert !Stays(s, email, ip);
    } else {
      forall s | Goes(s0, s, cs, Within(email)) ensures Stays(s, email, ip) {
        UnthreatenedStays(s0, cs, email, ip, s);
      }
    }
  }

  /* ---------- When an accepted device can miss the report ---------- */

  /** Every accepted device of this user and address is online, so that a report lists it. */
  ghost predicate AcceptedOnline(s0: Node, cs: map<nat, Call>, email: string, ip: string) {
    forall s, u :: Goes(s0, s, cs, Within(email)) && Accepts(s, u, email, ip) ==> Present(s, email, ip)
  }

  ghost predicate Accepts(s: Node, u: nat, email: string, ip: string) {
    u in s.calls && SameDevice(s.calls[u], email, ip) && s.calls[u].pc == Done(true)
  }

  /**
   * Beside the accepted call `u` a second call `t` of the user can be refused: either one of the same
   * device, not kept at the start, or one that makes the user's map while `u` needs no entry of another.
   */
  ghost predicate Risk(s0: Node, cs: map<nat, Call>, email: string, ip: string, t: nat, u: nat) {
    && t in cs && u in cs && t != u && cs[t].email == email && SameDevice(cs[u], email, ip)
    && cs[t].full && !Firm(s0, cs, email, cs[t].ip)
    && if cs[t].ip == ip then !Present(s0, email, ip)
       else email !in s0.online && (ip in s0.previous || !cs[u].full)
  }

  /** The same device twice: the second call is accepted on the first one's entry, which is then taken back. */
  lemma TwinLost(s0: Node, cs: map<nat, Call>, email: string, ip: string, t: nat, u: nat) returns (s: Node)
    requires Idle(s0) && Pending(cs) && Risk(s0, cs, email, ip, t, u) && cs[t].ip == ip
    ensures Goes(s0, s, cs, Within(email)) && Accepts(s, u, email, ip) && !Present(s, email, ip)
  {
    var s1 := GoForgotten(s0, cs, email, ip);
    var s2 := GoBegin(s0, s1, cs, Within(email), t);
    var s3, id, made := GoEnterNew(s0, s2, cs, Within(email), t);
    var s4 := GoBegin(s0, s3, cs, Within(email), u);
    assert Present(s4, email, ip);
    var s5 := GoFind(s0, s4, cs, Within(email), u);
    var s6 := GoRefuse(s0, s5, cs, Within(email), t);
    s := GoRetract(s0, s6, cs, Within(email), t);
  }

  /** Two devices: the second is accepted in the map the first has made and takes out. */
  lemma MapLost(s0: Node, cs: map<nat, Call>, email: string, ip: string, t: nat, u: nat) returns (s: Node)
    requires Idle(s0) && Pending(cs) && Risk(s0, cs, email, ip, t, u) && cs[t].ip != ip
    ensures Goes(s0, s, cs, Within(email)) && Accepts(s, u, email, ip) && !Present(s, email, ip)
  {
    var s1 := GoForgotten(s0, cs, email, cs[t].ip);
    var s2 := GoToRetract(s0, s1, cs, Within(email), email, t);
    assert Present(s2, email, cs[t].ip);
    var s3 := GoToRecall(s0, s2, cs, Within(email), email, u);
    var s4 := GoAccept(s0, s3, cs, Within(email), u);
    s := GoTakeMap(s0, s4, cs, Within(email), email, t);
  }

  predicate InTable(pc: Pc) { Undecided(pc) || pc.Forget? || pc == Done(true) }

  /** Calls that have entered or found their address, as long as none of them takes it back. */
  ghost predicate InPlace(s: Node, email: string, ip: string) {
    && Rooted(s, email)
    && forall t :: t in s.calls && SameDevice(s.calls[t], email, ip) && InTable(s.calls[t].pc) ==> Present(s, email, ip)
  }

  lemma StepInPlace(s: Node, e: Event, cs: map<nat, Call>, email: string, ip: string)
    requires Enabled(s, e) && Fits(s, e, cs, Within(email)) && Owned(s) && InPlace(s, email, ip)
    requires !RetractsMap(s, e, email) && !RetractsDevice(s, e, email, ip)
    ensures InPlace(Apply(s, e), email, ip)
  {
    if e.Step? {
      StepMoves(s, e.t, e.id);
      var s' := Apply(s, e);
      assert forall u :: u in s.calls && u != e.t ==> s'.calls[u] == s.calls[u];
      if s.calls[e.t].email == email { OwnInPlace(s, e.t, e.id, ip); } else { OtherAside(s, e.t, e.id, email); }
    }
  }

  lemma OwnRooted(s: Node, t: nat, id: nat)
    requires Enabled(s, Step(t, id)) && Owned(s) && Rooted(s, s.calls[t].email)
    requires !RetractsMap(s, Step(t, id), s.calls[t].email)
    ensures Rooted(Apply(s, Step(t, id)), s.calls[t].email)
  {
    var s' := Apply(s, Step(t, id));
    StepMoves(s, t, id);
    assert forall u :: u in s.calls && u != t ==> s'.calls[u] == s.calls[u];
  }

  /** A call that gets into the table has its entry there. */
  lemma OwnEnters(s: Node, t: nat, id: nat)
    requires Enabled(s, Step(t, id)) && Owned(s) && Rooted(s, s.calls[t].email)
    ensures (s.calls[t].pc.LookUp? || s.calls[t].pc.Enter?) && InTable(Apply(s, Step(t, id)).calls[t].pc) ==>
      Present(Apply(s, Step(t, id)), s.calls[t].email, s.calls[t].ip)
  {
  }

  lemma OwnInPlace(s: Node, t: nat, id: nat, ip: string)
    requires Enabled(s, Step(t, id)) && Owned(s) && InPlace(s, s.calls[t].email, ip)
    requires !RetractsMap(s, Step(t, id), s.calls[t].email) && !RetractsDevice(s, Step(t, id), s.calls[t].email, ip)
    ensures InPlace(Apply(s, Step(t, id)), s.calls[t].email, ip)
  {
    StepMoves(s, t, id);
    OwnRooted(s, t, id);
    OwnEnters(s, t, id);
    if Present(s, s.calls[t].email, ip) { LeavesIff(s, Step(t, id), s.calls[t].email, ip); }
    InPlaceWith(s, Apply(s, Step(t, id)), t, s.calls[t].email, ip);
  }

  lemma InPlaceWith(s: Node, s': Node, t: nat, email: string, ip: string)
    requires InPlace(s, email, ip) && t in s.calls && s.calls[t].email == email && Moves(s, s', t) && Rooted(s', email)
    requires Present(s, email, ip) ==> Present(s', email, ip)
    requires !InTable(s.calls[t].pc) && s.calls[t].ip == ip && InTable(s'.calls[t].pc) ==> Present(s', email, ip)
    ensures InPlace(s', email, ip)
  {
    assert forall u :: u in s.calls && u != t ==> s'.calls[u] == s.calls[u];
  }

  ghost predicate NoneTakesBack(states: seq<Node>, events: seq<Event>, n: nat, email: string, ip: string)
    requires n <= |events| < |states|
  {
    forall i :: 0 <= i < n ==> !RetractsDevice(states[i], events[i], email, ip)
  }

  lemma {:induction false} RunInPlace(states: seq<Node>, events: seq<Event>, s0: Node, s: Node, cs: map<nat, Call>, email: string, ip: string, n: nat)
    requires Journey(states, events, s0, s, cs, Within(email)) && n <= |events| && Idle(s0)
    requires MapKept(states, events, n, email) && NoneTakesBack(states, events, n, email, ip)
    ensures InPlace(states[n], email, ip)
  {
    if n > 0 {
      RunInPlace(states, events, s0, s, cs, email, ip, n - 1);
      assert StepAt(states, events, n - 1) && FitsAt(states, events, n - 1, cs, Within(email));
      RunOwned(states, events, n - 1);
      StepInPlace(states[n - 1], events[n - 1], cs, email, ip);
    }
  }

  /* A call that is alone with its device, full and not remembered, is never accepted. */

  /** Only `u` is for the device, and only `u` writes its address into a map that is not an old one. */
  ghost predicate Lonely(base: set<nat>, s: Node, email: string, ip: string, u: nat) {
    && base <= s.owner.Keys
    && (email in s.online ==> s.online[email] !in base)
    && (u in s.calls ==> SameDevice(s.calls[u], email, ip) && (OnMap(s.calls[u].pc) ==> s.calls[u].pc.id !in base))
    && (forall id :: id in s.owner && id !in base && s.owner[id] == email && ip in MapAt(s, id) ==>
          u in s.calls && !s.calls[u].pc.LookUp? && !s.calls[u].pc.Enter?)
    && (forall t :: t in s.calls && SameDevice(s.calls[t], email, ip) ==> t == u)
  }

  /** The address is not remembered, and the full call has not met anything to be accepted on. */
  ghost predicate Unmet(s: Node, ip: string, u: nat) {
    && ip !in s.previous
    && (u in s.calls ==> s.calls[u].full && !s.calls[u].pc.Forget? && s.calls[u].pc != Done(true))
  }

  /** A step of another call writes the device's address nowhere. */
  lemma MovedLonely(base: set<nat>, s: Node, s': Node, t: nat, email: string, ip: string, u: nat)
    requires Lonely(base, s, email, ip, u) && t in s.calls && t != u && Moves(s, s', t)
    requires s.owner.Keys <= s'.owner.Keys
    requires email in s'.online ==> s'.online[email] !in base
    requires forall m :: m in s'.owner && s'.owner[m] == email && ip in MapAt(s', m) ==>
      m in s.owner && s.owner[m] == email && ip in MapAt(s, m)
    ensures Lonely(base, s', email, ip, u)
  {
    assert forall v :: v in s.calls && v != t ==> s'.calls[v] == s.calls[v];
  }

  lemma OtherLonely(base: set<nat>, s: Node, t: nat, id: nat, email: string, ip: string, u: nat)
    requires Enabled(s, Step(t, id)) && Owned(s) && Lonely(base, s, email, ip, u) && s.calls[t].email != email
    ensures Lonely(base, Apply(s, Step(t, id)), email, ip, u)
  {
    OtherAside(s, t, id, email);
    OtherMaps(s, t, id, email);
    MovedLonely(base, s, Apply(s, Step(t, id)), t, email, ip, u);
  }

  /** A call writes no address but its own. */
  ghost predicate NotWritten(s: Node, s': Node, ip: string) {
    && s.owner.Keys <= s'.owner.Keys
    && forall m :: m in s'.owner && ip in MapAt(s', m) ==> m in s.owner && s.owner[m] == s'.owner[m] && ip in MapAt(s, m)
  }

  lemma LookUpWrites(s: Node, t: nat, id: nat, ip: string)
    requires Owned(s) && t in s.calls && id !in s.owner && s.calls[t].ip != ip
    ensures NotWritten(s, DoLookUp(s, t, id), ip)
  {
  }

  lemma EnterWrites(s: Node, t: nat, id: nat, ip: string)
    requires Owned(s) && t in s.calls && s.calls[t].ip != ip
    ensures NotWritten(s, DoEnter(s, t, id), ip)
  {
  }

  lemma RetractWrites(s: Node, t: nat, id: nat, made: bool, ip: string)
    requires t in s.calls
    ensures NotWritten(s, DoRetract(s, t, id, made), ip)
  {
  }

  lemma OwnMaps(s: Node, t: nat, id: nat, ip: string)
    requires Enabled(s, Step(t, id)) && Owned(s) && s.calls[t].ip != ip
    ensures NotWritten(s, Apply(s, Step(t, id)), ip)
  {
    match s.calls[t].pc
    case LookUp => LookUpWrites(s, t, id, ip);
    case Enter(m) => EnterWrites(s, t, m, ip);
    case Retract(m, made) => RetractWrites(s, t, m, made, ip);
    case _ =>
  }

  /** A call goes on with its own map, with the one online, or with a new one. */
  ghost predicate Targets(s: Node, s': Node, t: nat)
    requires t in s.calls && t in s'.calls
  {
    var c := s.calls[t];
    && (c.email in s'.online ==> s'.online[c.email] !in s.owner || (c.email in s.online && s'.online[c.email] == s.online[c.email]))
    && (OnMap(s'.calls[t].pc) ==>
          || s'.calls[t].pc.id !in s.owner
          || (OnMap(c.pc) && s'.calls[t].pc.id == c.pc.id)
          || (c.email in s.online && s'.calls[t].pc.id == s.online[c.email]))
    && s'.previous.Keys <= s.previous.Keys
  }

  lemma LookUpTarget(s: Node, t: nat, id: nat)
    requires t in s.calls && id !in s.owner
    ensures Targets(s, DoLookUp(s, t, id), t)
  {
  }

  lemma EnterTarget(s: Node, t: nat, id: nat)
    requires t in s.calls && s.calls[t].pc == Enter(id)
    ensures Targets(s, DoEnter(s, t, id), t)
  {
  }

  lemma RecallTarget(s: Node, t: nat, id: nat, made: bool)
    requires t in s.calls && s.calls[t].pc == Recall(id, made)
    ensures Targets(s, DoRecall(s, t, id, made), t)
  {
  }

  lemma OwnTarget(s: Node, t: nat, id: nat)
    requires Enabled(s, Step(t, id))
    ensures Targets(s, Apply(s, Step(t, id)), t)
  {
    match s.calls[t].pc
    case LookUp => LookUpTarget(s, t, id);
    case Enter(m) => EnterTarget(s, t, m);
    case Recall(m, made) => RecallTarget(s, t, m, made);
    case _ =>
  }

  lemma OwnLonely(base: set<nat>, s: Node, t: nat, id: nat, ip: string, u: nat)
    requires Enabled(s, Step(t, id)) && Owned(s) && Lonely(base, s, s.calls[t].email, ip, u) && s.calls[t].ip != ip
    ensures Lonely(base, Apply(s, Step(t, id)), s.calls[t].email, ip, u)
  {
    StepMoves(s, t, id);
    OwnMaps(s, t, id, ip);
    OwnTarget(s, t, id);
    MovedLonely(base, s, Apply(s, Step(t, id)), t, s.calls[t].email, ip, u);
  }

  lemma SelfOwner(s: Node, t: nat, id: nat)
    requires Enabled(s, Step(t, id))
    ensures OwnerGrows(s, Apply(s, Step(t, id)), t)
  {
    match s.calls[t].pc
    case LookUp => LookUpOwner(s, t, id);
    case Enter(m) => EnterOwner(s, t, m);
    case _ =>
  }

  ghost predicate OwnerGrows(s: Node, s': Node, t: nat)
    requires t in s'.calls
  {
    s.owner.Keys <= s'.owner.Keys && (s'.calls[t].pc.Enter? ==> s'.owner == s.owner)
  }

  lemma LookUpOwner(s: Node, t: nat, id: nat)
    requires t in s.calls
    ensures OwnerGrows(s, DoLookUp(s, t, id), t)
  {
  }

  lemma EnterOwner(s: Node, t: nat, id: nat)
    requires t in s.calls
    ensures OwnerGrows(s, DoEnter(s, t, id), t)
  {
  }

  /** The call itself goes from its look-up to an entry, and never back. */
  ghost predicate Forward(s: Node, s': Node, t: nat)
    requires t in s.calls && t in s'.calls
  {
    !s'.calls[t].pc.LookUp? && (s'.calls[t].pc.Enter? ==> s.calls[t].pc.LookUp? && s'.maps == s.maps)
  }

  lemma LookUpForward(s: Node, t: nat, id: nat)
    requires t in s.calls && s.calls[t].pc.LookUp?
    ensures Forward(s, DoLookUp(s, t, id), t)
  {
  }

  lemma EnterForward(s: Node, t: nat, id: nat)
    requires t in s.calls
    ensures Forward(s, DoEnter(s, t, id), t)
  {
  }

  lemma SelfForward(s: Node, t: nat, id: nat)
    requires Enabled(s, Step(t, id))
    ensures Forward(s, Apply(s, Step(t, id)), t)
  {
    match s.calls[t].pc
    case LookUp => LookUpForward(s, t, id);
    case Enter(m) => EnterForward(s, t, m);
    case _ =>
  }

  lemma SelfLonelyWith(base: set<nat>, s: Node, s': Node, email: string, ip: string, u: nat)
    requires Lonely(base, s, email, ip, u) && u in s.calls && Moves(s, s', u) && Targets(s, s', u) && OwnerGrows(s, s', u)
    requires Forward(s, s', u)
    ensures Lonely(base, s', email, ip, u)
  {
    assert forall v :: v in s.calls && v != u ==> s'.calls[v] == s.calls[v];
  }

  lemma SelfLonely(base: set<nat>, s: Node, id: nat, email: string, ip: string, u: nat)
    requires Enabled(s, Step(u, id)) && Owned(s) && Lonely(base, s, email, ip, u)
    ensures Lonely(base, Apply(s, Step(u, id)), email, ip, u)
  {
    StepMoves(s, u, id);
    SelfForward(s, u, id);
    OwnTarget(s, u, id);
    SelfOwner(s, u, id);
    SelfLonelyWith(base, s, Apply(s, Step(u, id)), email, ip, u);
  }

  /** The call that is alone with its device. */
  ghost predicate SoleCall(cs: map<nat, Call>, email: string, ip: string, u: nat) {
    u in cs && forall t :: t in cs && SameDevice(cs[t], email, ip) <==> t == u
  }

  lemma StepLonely(base: set<nat>, s: Node, e: Event, cs: map<nat, Call>, mode: Mode, email: string, ip: string, u: nat)
    requires Enabled(s, e) && Fits(s, e, cs, mode) && Owned(s) && Lonely(base, s, email, ip, u) && SoleCall(cs, email, ip, u)
    ensures Lonely(base, Apply(s, e), email, ip, u)
  {
    if e.Step? {
      if e.t == u {
        SelfLonely(base, s, e.id, email, ip, u);
      } else if s.calls[e.t].email != email {
        OtherLonely(base, s, e.t, e.id, email, ip, u);
      } else {
        OwnLonely(base, s, e.t, e.id, ip, u);
      }
    }
  }

  /** The call finds nothing to be accepted on. */
  lemma SelfUnmet(base: set<nat>, s: Node, id: nat, email: string, ip: string, u: nat)
    requires Enabled(s, Step(u, id)) && Owned(s) && Lonely(base, s, email, ip, u) && Unmet(s, ip, u)
    ensures Unmet(Apply(s, Step(u, id)), ip, u)
  {
    assert WorksOn(s, s.calls[u]);
  }

  lemma StepUnmet(base: set<nat>, s: Node, e: Event, cs: map<nat, Call>, mode: Mode, email: string, ip: string, u: nat)
    requires Enabled(s, e) && Fits(s, e, cs, mode) && Owned(s) && Lonely(base, s, email, ip, u) && Unmet(s, ip, u)
    requires SoleCall(cs, email, ip, u) && cs[u].full && !e.Report?
    ensures Unmet(Apply(s, e), ip, u)
  {
    if e.Step? {
      if e.t == u {
        SelfUnmet(base, s, e.id, email, ip, u);
      } else {
        StepMoves(s, e.t, e.id);
        OwnTarget(s, e.t, e.id);
      }
    }
  }

  /** The maps that have the device at the start: all but the one online, if that lacks it. */
  ghost function OldMaps(s0: Node, email: string): set<nat> {
    s0.owner.Keys - if email in s0.online then {s0.online[email]} else {}
  }

  lemma StartsLonely(s0: Node, email: string, ip: string, u: nat)
    requires Idle(s0) && !Present(s0, email, ip)
    ensures Lonely(OldMaps(s0, email), s0, email, ip, u)
  {
  }

  lemma {:induction false} RunAlone(states: seq<Node>, events: seq<Event>, s0: Node, s: Node, cs: map<nat, Call>, email: string, ip: string, u: nat, n: nat)
    requires Journey(states, events, s0, s, cs, Within(email)) && n <= |events| && Idle(s0)
    requires !Present(s0, email, ip) && ip !in s0.previous && SoleCall(cs, email, ip, u) && cs[u].full
    ensures Lonely(OldMaps(s0, email), states[n], email, ip, u) && Unmet(states[n], ip, u)
  {
    var base := OldMaps(s0, email);
    if n == 0 {
      StartsLonely(s0, email, ip, u);
    } else {
      RunAlone(states, events, s0, s, cs, email, ip, u, n - 1);
      assert StepAt(states, events, n - 1) && FitsAt(states, events, n - 1, cs, Within(email));
      RunOwned(states, events, n - 1);
      StepLonely(base, states[n - 1], events[n - 1], cs, Within(email), email, ip, u);
      StepUnmet(base, states[n - 1], events[n - 1], cs, Within(email), email, ip, u);
    }
  }

  /** An accepted call of a full user without a map, from a forgotten address, has a twin. */
  lemma AcceptedHasOther(states: seq<Node>, events: seq<Event>, s0: Node, s: Node, cs: map<nat, Call>, email: string, ip: string, u: nat) returns (w: nat)
    requires Journey(states, events, s0, s, cs, Within(email)) && Idle(s0) && Accepts(s, u, email, ip)
    requires email !in s0.online && ip !in s0.previous && u in cs && SameDevice(cs[u], email, ip) && cs[u].full
    ensures w in cs && w != u && SameDevice(cs[w], email, ip)
  {
    if forall t :: t in cs && SameDevice(cs[t], email, ip) ==> t == u {
      RunAlone(states, events, s0, s, cs, email, ip, u, |events|);
      assert false;
    }
    w :| w in cs && w != u && SameDevice(cs[w], email, ip);
  }

  /** If the user's map has been taken out, the call that did so, or a twin, was a risk. */
  lemma MapLossIsRisk(states: seq<Node>, events: seq<Event>, s0: Node, s: Node, cs: map<nat, Call>, email: string, ip: string, u: nat) returns (t: nat, v: nat)
    requires Journey(states, events, s0, s, cs, Within(email)) && Idle(s0) && Pending(cs) && Accepts(s, u, email, ip)
    requires !MapKept(states, events, |events|, email)
    ensures Risk(s0, cs, email, ip, t, v)
  {
    t := FirstRetract(states, events, s0, s, cs, email);
    RunCallsOf(states, events, s0, s, cs, Within(email), |events|);
    v := u;
    if cs[t].ip != ip && ip !in s0.previous && cs[u].full {
      var w := AcceptedHasOther(states, events, s0, s, cs, email, ip, u);
      if cs[w].full { t := w; } else { v := w; }
    }
  }

  lemma DeviceLossIsRisk(states: seq<Node>, events: seq<Event>, s0: Node, s: Node, cs: map<nat, Call>, email: string, ip: string, u: nat) returns (t: nat)
    requires Journey(states, events, s0, s, cs, Within(email)) && Idle(s0) && Pending(cs) && Accepts(s, u, email, ip)
    requires MapKept(states, events, |events|, email) && !NoneTakesBack(states, events, |events|, email, ip)
    ensures Risk(s0, cs, email, ip, t, u)
  {
    var i :| 0 <= i < |events| && RetractsDevice(states[i], events[i], email, ip);
    t := events[i].t;
    RunCallsOf(states, events, s0, s, cs, Within(email), i);
    RunCallsOf(states, events, s0, s, cs, Within(email), |events|);
    RunRefusedAreFull(states, events, i);
    if Kept(s0, cs, email, ip) {
      RunSafe(states, events, s0, s, cs, email, ip, i);
      assert false;
    }
    assert StepAt(states, events, i);
    VerdictStays(states, events, i + 1, |events|, t, states[i + 1].calls[t]);
  }

  lemma LossIsRisk(s0: Node, cs: map<nat, Call>, email: string, ip: string, s: Node, u: nat) returns (t: nat, v: nat)
    requires Idle(s0) && Pending(cs) && Goes(s0, s, cs, Within(email)) && Accepts(s, u, email, ip) && !Present(s, email, ip)
    ensures Risk(s0, cs, email, ip, t, v)
  {
    var states, events :| Journey(states, events, s0, s, cs, Within(email));
    if !MapKept(states, events, |events|, email) {
      t, v := MapLossIsRisk(states, events, s0, s, cs, email, ip, u);
    } else if !NoneTakesBack(states, events, |events|, email, ip) {
      v := u;
      t := DeviceLossIsRisk(states, events, s0, s, cs, email, ip, u);
    } else {
      RunInPlace(states, events, s0, s, cs, email, ip, |events|);
      assert InTable(s.calls[u].pc);
      assert false;
    }
  }

  /**
   * For every idle start and every set of checks: in all interleavings an accepted device is online, so
   * that a report lists it, exactly when no refused call beside it is a risk.
   */
  lemma AcceptedOnlineIff(s0: Node, cs: map<nat, Call>, email: string, ip: string)
    requires Idle(s0) && Pending(cs)
    ensures AcceptedOnline(s0, cs, email, ip) <==> forall t, u :: !Risk(s0, cs, email, ip, t, u)
  {
    if t, u :| Risk(s0, cs, email, ip, t, u) {
      var s;
      if cs[t].ip == ip { s := TwinLost(s0, cs, email, ip, t, u); } else { s := MapLost(s0, cs, email, ip, t, u); }
    } else if !AcceptedOnline(s0, cs, email, ip) {
      var s, u :| Goes(s0, s, cs, Within(email)) && Accepts(s, u, email, ip) && !Present(s, email, ip);
      var t, v := LossIsRisk(s0, cs, email, ip, s, u);
      assert false;
    }
  }

  /** Without such a risk, a report made at any moment lists every device accepted in the period. */
  lemma AcceptedAreReported(s0: Node, cs: map<nat, Call>, email: string, ip: string, s: Node, u: nat, previous: map<string, int>)
    requires Idle(s0) && Pending(cs) && forall t, v :: !Risk(s0, cs, email, ip, t, v)
    requires Goes(s0, s, cs, Within(email)) && Accepts(s, u, email, ip) && Enabled(s, Report(previous))
    ensures Present(s, email, ip) && ip in previous
  {
    AcceptedOnlineIff(s0, cs, email, ip);
    assert ip in OnlineAddresses(s);
  }
}
