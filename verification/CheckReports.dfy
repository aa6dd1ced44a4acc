/**
 * Interleaved checks with reports at any moment (limiter/limiter.go): how an accepted device can be in no
 * table and in no report since its call began.
 */
module CheckReports {
  import opened LimiterTables
  import opened CheckRuns
  import opened CheckRaces
  import opened CheckClaims
  import opened CheckLosses

  /** An entry shows in the online table exactly if its device was there or the map entered is the one online. */
  lemma EnterIff(s: Node, t: nat, id: nat)
    requires Enabled(s, Step(t, id)) && s.calls[t].pc.Enter?
    ensures var c := s.calls[t];
      Present(Apply(s, Step(t, id)), c.email, c.ip) <==>
        Present(s, c.email, c.ip) || (c.email in s.online && s.online[c.email] == c.pc.id)
  {
  }

  /* ---------- What can go wrong for an accepted device ---------- */

  /** Whenever a call for the device has been accepted and no report has listed the device since the call began, it is online. */
  ghost predicate Accounted(s0: Node, cs: map<nat, Call>, email: string, ip: string) {
    forall s, u :: Goes(s0, s, cs, Unlisted(email, ip, u)) && Accepts(s, u, email, ip) ==> Present(s, email, ip)
  }

  predicate OtherCall(cs: map<nat, Call>, email: string, ip: string, t: nat) {
    t in cs && cs[t].email == email && cs[t].ip != ip
  }

  predicate ForeignCall(cs: map<nat, Call>, email: string, ip: string, v: nat) {
    v in cs && cs[v].email != email && cs[v].ip == ip
  }

  ghost predicate NoForeignCall(cs: map<nat, Call>, email: string, ip: string) {
    forall v :: !ForeignCall(cs, email, ip, v)
  }

  ghost predicate NoForeignHolder(s: Node, email: string, ip: string) {
    forall other :: other != email ==> !Present(s, other, ip)
  }

  /** A call for the device can find a map of its user that lacks the device. */
  ghost predicate Lacks(s0: Node, cs: map<nat, Call>, email: string, ip: string) {
    (email in s0.online && !Present(s0, email, ip)) || exists t :: OtherCall(cs, email, ip, t)
  }

  /**
   * The call can look up a map, lose it to a report, enter its device in vain and still be accepted: it is
   * not full, or another user's device from the same address can be in that report.
   */
  ghost predicate Straddles(s0: Node, cs: map<nat, Call>, email: string, ip: string, u: nat) {
    && u in cs && SameDevice(cs[u], email, ip) && Lacks(s0, cs, email, ip)
    && (!cs[u].full || !NoForeignCall(cs, email, ip) || !(Present(s0, email, ip) || NoForeignHolder(s0, email, ip)))
  }

  /** A full call for the same device can be refused after another has been accepted on its entry. */
  predicate RefusedTwin(cs: map<nat, Call>, email: string, ip: string, t: nat, u: nat) {
    t in cs && u in cs && t != u && SameDevice(cs[t], email, ip) && SameDevice(cs[u], email, ip) && cs[t].full
  }

  /**
   * A full call for another device can make the user's map and be refused, while the device is remembered:
   * at the start, or, if it is online at the start, by a report that does not keep the other device too.
   */
  ghost predicate RefusedMaker(s0: Node, cs: map<nat, Call>, email: string, ip: string, t: nat, u: nat) {
    && u in cs && SameDevice(cs[u], email, ip) && OtherCall(cs, email, ip, t) && cs[t].full
    && if Present(s0, email, ip)
       then !Present(s0, email, cs[t].ip) || !NoForeignCall(cs, email, cs[t].ip)
       else email !in s0.online && ip in s0.previous && !Firm(s0, cs, email, cs[t].ip)
  }

  lemma WithinIsUnlisted(s0: Node, s: Node, cs: map<nat, Call>, email: string, ip: string, u: nat)
    requires Goes(s0, s, cs, Within(email))
    ensures Goes(s0, s, cs, Unlisted(email, ip, u))
  {
    var states, events :| Journey(states, events, s0, s, cs, Within(email));
    forall i | 0 <= i < |events| ensures FitsAt(states, events, i, cs, Unlisted(email, ip, u)) {
      assert FitsAt(states, events, i, cs, Within(email));
    }
    assert Journey(states, events, s0, s, cs, Unlisted(email, ip, u));
  }

  /* ---------- Straddling a report ---------- */

  /** A call finds its user's map and has yet to look into it. */
  lemma GoLook(s0: Node, s: Node, cs: map<nat, Call>, mode: Mode, u: nat) returns (s': Node)
    requires Goes(s0, s, cs, mode) && Pending(cs) && u in cs && u !in s.calls && cs[u].email in s.online
    ensures Goes(s0, s', cs, mode) && s' == s.(calls := s.calls[u := cs[u].(pc := Enter(s.online[cs[u].email]))])
  {
    var s1 := GoBegin(s0, s, cs, mode, u);
    var name := FreshName(s1.owner.Keys);
    GoesOn(s0, s1, cs, mode, Step(u, name));
    s' := Apply(s1, Step(u, name));
    CallsTwice(s.calls, u, cs[u], cs[u].(pc := Enter(s.online[cs[u].email])));
  }

  /** A report takes the map away, the call enters it all the same, and is accepted. */
  lemma GoStraddle(s0: Node, s: Node, cs: map<nat, Call>, mode: Mode, u: nat) returns (s': Node)
    requires Goes(s0, s, cs, mode) && u in s.calls && s.calls[u].pc.Enter? && ReportFits(s, mode)
    requires s.calls[u].ip !in MapAt(s, s.calls[u].pc.id) && (!s.calls[u].full || s.calls[u].ip in OnlineAddresses(s))
    ensures Goes(s0, s', cs, mode) && s'.online == map[] && u in s'.calls && s'.calls[u] == s.calls[u].(pc := Done(true))
  {
    var s1 := GoReport(s0, s, cs, mode);
    GoesOn(s0, s1, cs, mode, Step(u, 0));
    var s2 := Apply(s1, Step(u, 0));
    s' := GoAccept(s0, s2, cs, mode, u);
  }

  /** A state with a map of the user that lacks the device, before its call begins. */
  lemma GoLacking(s0: Node, cs: map<nat, Call>, email: string, ip: string, u: nat) returns (s: Node)
    requires Idle(s0) && Pending(cs) && u in cs && SameDevice(cs[u], email, ip) && Lacks(s0, cs, email, ip)
    ensures Goes(s0, s, cs, Unlisted(email, ip, u)) && Owned(s) && email in s.online && !Present(s, email, ip)
    ensures forall t :: t in s.calls ==> t in cs && cs[t].email == email && t != u
    ensures !Present(s0, email, ip) ==> forall other :: other != email ==> SameMap(s0, s, other)
  {
    var mode := Unlisted(email, ip, u);
    GoesNowhere(s0, cs, mode);
    if email in s0.online && !Present(s0, email, ip) {
      s := s0;
    } else {
      var t :| OtherCall(cs, email, ip, t);
      var s1 := s0;
      if email in s0.online { s1 := GoReport(s0, s0, cs, mode); }
      var s2 := GoBegin(s0, s1, cs, mode, t);
      GoesOwned(s0, s2, cs, mode);
      s := GoMake(s0, s2, cs, mode, t);
      GoesOwned(s0, s, cs, mode);
      assert !Present(s, email, ip);
      if !Present(s0, email, ip) {
        forall other | other != email ensures SameMap(s0, s, other) { assert SameMap(s2, s, other); }
      }
    }
  }

  /** Another user's call from the address puts it online. */
  lemma GoForeign(s0: Node, s: Node, cs: map<nat, Call>, mode: Mode, email: string, ip: string, v: nat) returns (s': Node)
    requires Goes(s0, s, cs, mode) && Owned(s) && Pending(cs) && ForeignCall(cs, email, ip, v) && v !in s.calls
    requires mode.Unlisted? || mode.Within? ==> mode.email == email
    ensures Goes(s0, s', cs, mode) && ip in OnlineAddresses(s') && SameMap(s, s', email) && s'.previous == s.previous
    ensures v in s'.calls && s'.calls[v].pc.Recall? && s'.calls == s.calls[v := cs[v].(pc := s'.calls[v].pc)]
    ensures OnlineUnder(s', cs[v].email, ip, cs[v].uid)
  {
    var other := cs[v].email;
    GoesOn(s0, s, cs, mode, Drop(other));
    var s1 := Apply(s, Drop(other));
    var s2 := GoBegin(s0, s1, cs, mode, v);
    s' := GoMake(s0, s2, cs, mode, v);
    assert SameMap(s2, s', email) && Present(s', other, ip);
    CallsTwice(s.calls, v, cs[v], cs[v].(pc := s'.calls[v].pc));
  }

  lemma StraddleLost(s0: Node, cs: map<nat, Call>, email: string, ip: string, u: nat) returns (s: Node)
    requires Idle(s0) && Pending(cs) && Straddles(s0, cs, email, ip, u)
    ensures Goes(s0, s, cs, Unlisted(email, ip, u)) && Accepts(s, u, email, ip) && !Present(s, email, ip)
  {
    var mode := Unlisted(email, ip, u);
    var s1 := GoLacking(s0, cs, email, ip, u);
    var s2 := GoLook(s0, s1, cs, mode, u);
    GoesOwned(s0, s2, cs, mode);
    assert SameMap(s1, s2, email) && !Present(s2, email, ip);
    var s3 := s2;
    if cs[u].full { s3 := GoHeld(s0, s1, s2, cs, email, ip, u); }
    assert !Present(s3, email, ip) && s3.calls[u] == s2.calls[u];
    s := GoStraddle(s0, s3, cs, mode, u);
  }

  /** The address is online under another user. */
  lemma GoHeld(s0: Node, s1: Node, s: Node, cs: map<nat, Call>, email: string, ip: string, u: nat) returns (s': Node)
    requires Idle(s0) && Pending(cs) && Straddles(s0, cs, email, ip, u) && cs[u].full
    requires Goes(s0, s, cs, Unlisted(email, ip, u)) && Owned(s) && u in s.calls && email in s.online
    requires s1.online == s.online && s1.maps == s.maps && forall t :: t in s.calls ==> t in cs && cs[t].email == email
    requires !Present(s0, email, ip) ==> forall other :: other != email ==> SameMap(s0, s1, other)
    ensures Goes(s0, s', cs, Unlisted(email, ip, u)) && ip in OnlineAddresses(s') && SameMap(s, s', email)
    ensures u in s'.calls && s'.calls[u] == s.calls[u]
  {
    if v :| ForeignCall(cs, email, ip, v) {
      s' := GoForeign(s0, s, cs, Unlisted(email, ip, u), email, ip, v);
    } else {
      var other :| other != email && Present(s0, other, ip);
      assert SameMap(s0, s1, other) && Present(s, other, ip);
      s' := s;
    }
  }

  /** With both tables cleared, a full call makes the map, another finds its entry, and the first takes it all out. */
  lemma TwinUnaccounted(s0: Node, cs: map<nat, Call>, email: string, ip: string, t: nat, u: nat) returns (s: Node)
    requires Idle(s0) && Pending(cs) && RefusedTwin(cs, email, ip, t, u)
    ensures Goes(s0, s, cs, Unlisted(email, ip, u)) && Accepts(s, u, email, ip) && !Present(s, email, ip)
  {
    var mode := Unlisted(email, ip, u);
    GoesNowhere(s0, cs, mode);
    var s1 := GoReport(s0, s0, cs, mode);
    var s2 := GoReport(s0, s1, cs, mode);
    assert OnlineAddresses(s1) == {};
    var s3 := GoToRetract(s0, s2, cs, mode, email, t);
    var s4 := GoBegin(s0, s3, cs, mode, u);
    assert Present(s3, email, ip) && Present(s4, email, ip);
    var s5 := GoFind(s0, s4, cs, mode, u);
    s := GoTakeMap(s0, s5, cs, mode, email, t);
  }

  /* ---------- A map taken out while the device is remembered ---------- */

  /** From a state without a map, in which the device is remembered and the other address is not. */
  lemma MakerLost(s0: Node, s: Node, cs: map<nat, Call>, mode: Mode, email: string, ip: string, t: nat, u: nat) returns (s': Node)
    requires Idle(s0) && Pending(cs) && Goes(s0, s, cs, mode) && OtherCall(cs, email, ip, t) && cs[t].full
    requires u in cs && SameDevice(cs[u], email, ip) && t !in s.calls && u !in s.calls
    requires email !in s.online && ip in s.previous && cs[t].ip !in s.previous
    ensures Goes(s0, s', cs, mode) && Accepts(s', u, email, ip) && !Present(s', email, ip)
  {
    var s1 := GoToRetract(s0, s, cs, mode, email, t);
    assert Present(s1, email, cs[t].ip) && !Present(s1, email, ip);
    var s2 := GoToRecall(s0, s1, cs, mode, email, u);
    var s3 := GoAccept(s0, s2, cs, mode, u);
    s' := GoTakeMap(s0, s3, cs, mode, email, t);
  }

  lemma {:induction false} GoDropOthers(s0: Node, s: Node, cs: map<nat, Call>, mode: Mode, email: string, others: set<string>) returns (s': Node)
    requires Goes(s0, s, cs, mode) && email !in others && (mode.Unlisted? || mode.Within? ==> mode.email == email)
    ensures Goes(s0, s', cs, mode) && s' == s.(online := s.online - others)
  {
    if others == {} {
      s' := s;
      assert s.online - others == s.online;
    } else {
      var other :| other in others;
      var s1 := GoDropOthers(s0, s, cs, mode, email, others - {other});
      s' := GoDrop(s0, s1, cs, mode, other);
      assert s'.online == s.online - others;
    }
  }

  /** A report that remembers the device and not the other address: it is not online, or its record is used up. */
  lemma GoKeptOne(s0: Node, cs: map<nat, Call>, email: string, ip: string, t: nat, u: nat) returns (s: Node)
    requires Idle(s0) && Pending(cs) && RefusedMaker(s0, cs, email, ip, t, u) && Present(s0, email, ip)
    ensures Goes(s0, s, cs, Unlisted(email, ip, u)) && s.online == map[] && ip in s.previous && cs[t].ip !in s.previous
    ensures forall v :: v in s.calls ==> v in cs && cs[v].email != email
  {
    var mode, from := Unlisted(email, ip, u), cs[t].ip;
    GoesNowhere(s0, cs, mode);
    if !Present(s0, email, from) {
      s := GoOnlyUser(s0, cs, mode, email, ip, from);
    } else {
      var v :| ForeignCall(cs, email, from, v);
      s := GoUsedByForeign(s0, cs, mode, email, ip, from, v);
    }
  }

  /** With all other users dropped a report remembers the addresses of one user. */
  lemma GoOnlyUser(s0: Node, cs: map<nat, Call>, mode: Mode, email: string, ip: string, from: string) returns (s: Node)
    requires Goes(s0, s0, cs, mode) && mode.Unlisted? && mode.email == email && s0.calls == map[]
    requires Present(s0, email, ip) && !Present(s0, email, from)
    ensures Goes(s0, s, cs, mode) && s.online == map[] && s.calls == map[] && ip in s.previous && from !in s.previous
  {
    var s1 := GoDropOthers(s0, s0, cs, mode, email, s0.online.Keys - {email});
    assert Present(s1, email, ip) && ip in OnlineAddresses(s1);
    assert forall other :: other in s1.online ==> other == email;
    s := GoReport(s0, s1, cs, mode);
  }

  /** Any uid an address is online under can be the one a report leaves it with. */
  lemma RecordAs(s: Node, email: string, ip: string, uid: int) returns (previous: map<string, int>)
    requires OnlineUnder(s, email, ip, uid)
    ensures Recalls(s, previous) && ip in previous && previous[ip] == uid
  {
    assert ip in OnlineAddresses(s);
    previous := map from | from in OnlineAddresses(s) :: if from == ip then uid else UidAt(s, from);
  }

  lemma GoReportAs(s0: Node, s: Node, cs: map<nat, Call>, mode: Mode, email: string, ip: string, uid: int) returns (s': Node)
    requires Goes(s0, s, cs, mode) && ReportFits(s, mode) && OnlineUnder(s, email, ip, uid)
    ensures Goes(s0, s', cs, mode) && s' == s.(online := map[], previous := s'.previous)
    ensures s'.previous.Keys == OnlineAddresses(s) && ip in s'.previous && s'.previous[ip] == uid
  {
    var previous := RecordAs(s, email, ip, uid);
    GoesOn(s0, s, cs, mode, Report(previous));
    s' := Apply(s, Report(previous));
  }

  /** A report remembers an address under the uid of an undecided call, which then uses the record up. */
  lemma GoReportUsed(s0: Node, s: Node, cs: map<nat, Call>, mode: Mode, ip: string, from: string, v: nat) returns (s': Node)
    requires Goes(s0, s, cs, mode) && ReportFits(s, mode) && v in s.calls && s.calls[v].pc.Recall? && s.calls[v].ip == from
    requires OnlineUnder(s, s.calls[v].email, from, s.calls[v].uid) && from != ip && ip in OnlineAddresses(s)
    ensures Goes(s0, s', cs, mode) && s'.online == map[] && s'.calls.Keys == s.calls.Keys && ip in s'.previous && from !in s'.previous
  {
    var s1 := GoReportAs(s0, s, cs, mode, s.calls[v].email, from, s.calls[v].uid);
    s' := GoForget(s0, s1, cs, mode, v);
  }

  lemma GoUsedByForeign(s0: Node, cs: map<nat, Call>, mode: Mode, email: string, ip: string, from: string, v: nat) returns (s: Node)
    requires Goes(s0, s0, cs, mode) && Owned(s0) && s0.calls == map[] && Pending(cs)
    requires ForeignCall(cs, email, from, v) && from != ip && Present(s0, email, ip)
    requires mode.Unlisted? && mode.email == email && (mode.u in cs ==> cs[mode.u].email == email)
    ensures Goes(s0, s, cs, mode) && s.online == map[] && ip in s.previous && from !in s.previous && s.calls.Keys == {v}
  {
    var s1 := GoForeign(s0, s0, cs, mode, email, from, v);
    PresentIsOnline(s0, s1, email, ip);
    assert s1.calls.Keys == {v} && v != mode.u;
    s := GoReportUsed(s0, s1, cs, mode, ip, from, v);
  }

  lemma PresentIsOnline(s: Node, s': Node, email: string, ip: string)
    requires Present(s, email, ip) && SameMap(s, s', email)
    ensures ip in OnlineAddresses(s')
  {
    assert Present(s', email, ip);
  }

  lemma MakerUnaccounted(s0: Node, cs: map<nat, Call>, email: string, ip: string, t: nat, u: nat) returns (s: Node)
    requires Idle(s0) && Pending(cs) && RefusedMaker(s0, cs, email, ip, t, u)
    ensures Goes(s0, s, cs, Unlisted(email, ip, u)) && Accepts(s, u, email, ip) && !Present(s, email, ip)
  {
    if Present(s0, email, ip) {
      var s1 := GoKeptOne(s0, cs, email, ip, t, u);
      s := MakerLost(s0, s1, cs, Unlisted(email, ip, u), email, ip, t, u);
    } else {
      s := MapLost(s0, cs, email, ip, t, u);
      WithinIsUnlisted(s0, s, cs, email, ip, u);
    }
  }
}
