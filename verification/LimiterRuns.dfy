/** Properties of a limiter over whole runs of its operations (limiter/limiter.go). */
module LimiterRuns {
  import opened Wrappers
  import opened Format
  import opened Speed
  import opened LimiterTables

  datatype Event =
    | Check(email: string, ip: string, track: bool, now: int)
    | Report(out: seq<OnlineUser>)
    | Update(tag: string, added: seq<UserInfo>, deleted: seq<UserInfo>)
    | Limits(tag: string, users: seq<UserInfo>)
    | Alive(alive: map<int, int>)
    | Dynamic(tag: string, uuid: string, limit: int, expire: int)

  ghost predicate Step(s: Tables, e: Event, s': Tables) {
    match e
    case Check(email, ip, track, now) => s' == CheckLimit(s, email, ip, track, now).tables
    case Report(out) => Reports(s, out, s')
    case Update(tag, added, deleted) => s' == UpdateUser(s, tag, added, deleted)
    case Limits(tag, users) => s' == UpdateUserLimits(s, tag, users)
    case Alive(alive) => s' == s.(alive := alive)
    case Dynamic(tag, uuid, limit, expire) => s' == UpdateDynamicSpeedLimit(s, tag, uuid, limit, expire)
  }

  ghost predicate Run(states: seq<Tables>, events: seq<Event>) {
    && |states| == |events| + 1
    && forall i :: 0 <= i < |events| ==> Step(states[i], events[i], states[i + 1])
  }

  /* ---------- What one operation does to the online table ---------- */

  ghost function Emails(tag: string, users: seq<UserInfo>): set<string> {
    set u | u in users :: UserTag(tag, u.uuid)
  }

  lemma EmailsSnoc(tag: string, users: seq<UserInfo>)
    requires users != []
    ensures Emails(tag, users) == Emails(tag, users[..|users| - 1]) + {UserTag(tag, users[|users| - 1].uuid)}
  {
    var p, u := users[..|users| - 1], users[|users| - 1];
    assert users == p + [u];
    assert forall x :: x in users <==> x in p || x == u;
  }

  lemma {:induction false} DeleteUsersEffect(s: Tables, tag: string, users: seq<UserInfo>)
    ensures var s' := DeleteUsers(s, tag, users);
      && s'.limits == s.limits - Emails(tag, users)
      && s'.online == s.online - Emails(tag, users)
      && s'.buckets == s.buckets - Emails(tag, users)
      && s'.uuidToUid == s.uuidToUid - (set u | u in users :: u.uuid)
      && s'.alive == s.alive - (set u | u in users :: u.id)
      && s'.previous == s.previous && s'.nodeSpeed == s.nodeSpeed
  {
    if users != [] {
      DeleteUsersEffect(s, tag, users[..|users| - 1]);
      EmailsSnoc(tag, users);
      IdsSnoc(users);
    }
  }

  lemma IdsSnoc(users: seq<UserInfo>)
    requires users != []
    ensures var p, u := users[..|users| - 1], users[|users| - 1];
      && (set x | x in users :: x.uuid) == (set x | x in p :: x.uuid) + {u.uuid}
      && (set x | x in users :: x.id) == (set x | x in p :: x.id) + {u.id}
  {
    var p, u := users[..|users| - 1], users[|users| - 1];
    assert users == p + [u];
    assert forall x :: x in users <==> x in p || x == u;
  }

  lemma {:induction false} AddUsersEffect(s: Tables, tag: string, users: seq<UserInfo>)
    ensures var s' := AddUsers(s, tag, users);
      && s' == s.(limits := s'.limits, uuidToUid := s'.uuidToUid)
      && s'.limits.Keys == s.limits.Keys + Emails(tag, users)
      && (forall e :: e in s.limits && e !in Emails(tag, users) ==> s'.limits[e] == s.limits[e])
      && (forall e :: e in Emails(tag, users) ==> exists u :: u in users && UserTag(tag, u.uuid) == e && s'.limits[e] == UserLimit(u.id, u.speedLimit, u.deviceLimit, 0, 0))
  {
    if users != [] {
      AddUsersEffect(s, tag, users[..|users| - 1]);
      EmailsSnoc(tag, users);
      assert users[|users| - 1] in users;
    }
  }

  /** The users whose device limit one UpdateUserLimits call makes stricter. */
  ghost function Tightened(s: Tables, tag: string, users: seq<UserInfo>): set<string> {
    if users == [] then {}
    else
      var p, u := users[..|users| - 1], users[|users| - 1];
      var before, e := UpdateUserLimits(s, tag, p), UserTag(tag, u.uuid);
      Tightened(s, tag, p) + if e in before.limits && Stricter(u, before.limits[e]) then {e} else {}
  }

  /** Only limits change, devices of the `tight` users go, and buckets go where the speed changes. */
  ghost predicate Relimited(s: Tables, s': Tables, tight: set<string>) {
    && s' == s.(limits := s'.limits, online := s'.online, buckets := s'.buckets)
    && s'.online == s.online - tight
    && s'.limits.Keys == s.limits.Keys
    && (forall e :: e in s.limits ==> SameUser(s.limits[e], s'.limits[e]))
    && (forall e :: e in s'.buckets ==>
          && e in s.buckets && s'.buckets[e] == s.buckets[e]
          && (e in s.limits ==> s'.limits[e].speedLimit == s.limits[e].speedLimit))
  }

  ghost predicate SameUser(u: UserLimit, v: UserLimit) {
    v == u.(speedLimit := v.speedLimit, deviceLimit := v.deviceLimit)
  }

  lemma RelimitEffect(s: Tables, tag: string, u: UserInfo)
    ensures var e := UserTag(tag, u.uuid);
      Relimited(s, Relimit(s, tag, u), if e in s.limits && Stricter(u, s.limits[e]) then {e} else {})
  {
  }

  lemma RelimitedTwice(a: Tables, b: Tables, c: Tables, t1: set<string>, t2: set<string>)
    requires Relimited(a, b, t1) && Relimited(b, c, t2)
    ensures Relimited(a, c, t1 + t2)
  {
    assert a.online - t1 - t2 == a.online - (t1 + t2);
  }

  lemma {:induction false} LimitsEffect(s: Tables, tag: string, users: seq<UserInfo>)
    ensures Relimited(s, UpdateUserLimits(s, tag, users), Tightened(s, tag, users))
  {
    if users == [] {
      assert s.online - {} == s.online;
    } else {
      var p, u := users[..|users| - 1], users[|users| - 1];
      LimitsEffect(s, tag, p);
      var m := UpdateUserLimits(s, tag, p);
      RelimitEffect(m, tag, u);
      var e := UserTag(tag, u.uuid);
      RelimitedTwice(s, m, UpdateUserLimits(s, tag, users), Tightened(s, tag, p),
                     if e in m.limits && Stricter(u, m.limits[e]) then {e} else {});
    }
  }

  ghost predicate Has(online: Online, email: string, ip: string) {
    email in online && ip in online[email]
  }

  lemma WithDeviceHas(online: Online, email: string, ip: string, uid: int)
    ensures forall e, i ::
      Has(WithDevice(online, email, ip, uid), e, i) <==> Has(online, e, i) || (e == email && i == ip)
  {
    var was, o := if email in online then online[email] else map[], WithDevice(online, email, ip, uid);
    forall e, i
      ensures Has(o, e, i) <==> Has(online, e, i) || (e == email && i == ip)
    {
      if e == email {
        assert o[e] == was[ip := uid];
      }
    }
  }

  lemma TrackedPairs(s: Tables, email: string, ip: string, uid: int)
    ensures Pairs(Tracked(s, email, ip, uid).online) == Pairs(s.online) + {(email, ip)}
  {
    if IsOnline(s, email, ip) {
      assert (email, ip) in Pairs(s.online);
    } else {
      WithDeviceHas(s.online, email, ip, uid);
      forall p: (string, string)
        ensures p in Pairs(WithDevice(s.online, email, ip, uid)) <==> p in Pairs(s.online) + {(email, ip)}
      {
        assert Has(WithDevice(s.online, email, ip, uid), p.0, p.1) <==> Has(s.online, p.0, p.1) || (p.0 == email && p.1 == ip);
      }
    }
  }

  /** The device step and the user row a check leaves behind. */
  lemma CheckShape(s: Tables, email: string, rawIp: string, track: bool, now: int)
    ensures var v := CheckLimit(s, email, rawIp, track, now);
      && (v.reject <==> Refuses(s, email, TrimMapped(rawIp), track))
      && (v.reject ==> v.bucket == None && v.tables == s.(limits := v.tables.limits))
      && (!v.reject ==>
            && email in s.limits && v.tables.limits == DropExpired(s.limits, email, now)
            && v.tables == (if track then Tracked(s, email, TrimMapped(rawIp), s.limits[email].uid) else s).
                             (limits := v.tables.limits, buckets := v.tables.buckets))
  {
    if email in s.limits && !Refuses(s, email, TrimMapped(rawIp), track) {
      var s1 := s.(limits := DropExpired(s.limits, email, now));
      var s2 := if track then Tracked(s1, email, TrimMapped(rawIp), s.limits[email].uid) else s1;
      BucketShape(s2, email, Rate(s.nodeSpeed, UserSpeed(s.limits[email], now)));
    }
  }

  lemma BucketShape(s: Tables, email: string, rate: int)
    ensures var v := TakeBucket(s, email, rate);
      !v.reject && v.tables == s.(buckets := v.tables.buckets)
  {
  }

  /** One check: when it refuses, what a refusal leaves alone, and what an acceptance records. */
  lemma CheckEffect(s: Tables, email: string, rawIp: string, track: bool, now: int)
    ensures var v, ip := CheckLimit(s, email, rawIp, track, now), TrimMapped(rawIp);
      && (v.reject <==> Refuses(s, email, ip, track))
      && (v.reject ==> v.bucket == None && v.tables == s.(limits := v.tables.limits))
      && (!v.reject ==> Pairs(v.tables.online) == Pairs(s.online) + if track then {(email, ip)} else {})
      && v.tables.previous.Keys <= s.previous.Keys
  {
    CheckShape(s, email, rawIp, track, now);
    if email in s.limits {
      TrackedPairs(s, email, TrimMapped(rawIp), s.limits[email].uid);
    }
  }

  /* ---------- Reports list exactly the admitted devices ---------- */

  ghost predicate Admits(s: Tables, e: Event) {
    e.Check? && e.track && !CheckLimit(s, e.email, e.ip, e.track, e.now).reject
  }

  /** The users whose devices an operation drops. */
  ghost function Dropped(s: Tables, e: Event): set<string> {
    match e
    case Update(tag, added, deleted) => Emails(tag, deleted)
    case Limits(tag, users) => Tightened(s, tag, users)
    case _ => {}
  }

  /**
   * The devices admitted over TCP since the last report and not dropped by a user update,
   * read off the first `n` events of a run.
   */
  ghost function Admitted(states: seq<Tables>, events: seq<Event>, n: nat): set<(string, string)>
    requires Run(states, events) && n <= |events|
  {
    if n == 0 then Pairs(states[0].online)
    else
      var before, s, e := Admitted(states, events, n - 1), states[n - 1], events[n - 1];
      if e.Report? then {}
      else if Admits(s, e) then before + {(e.email, TrimMapped(e.ip))}
      else set p | p in before && p.0 !in Dropped(s, e)
  }

  lemma {:induction false} OnlineIsAdmitted(states: seq<Tables>, events: seq<Event>, n: nat)
    requires Run(states, events) && n <= |events|
    ensures Pairs(states[n].online) == Admitted(states, events, n)
  {
    if n > 0 {
      OnlineIsAdmitted(states, events, n - 1);
      var s, e, s' := states[n - 1], events[n - 1], states[n];
      assert Step(s, e, s');
      match e
      case Check(email, ip, track, now) => CheckEffect(s, email, ip, track, now);
      case Update(tag, added, deleted) => UpdateShrinksPairs(s, tag, added, deleted);
      case Limits(tag, users) => LimitsShrinkPairs(s, tag, users);
      case _ =>
    }
  }

  lemma {:induction false} RecordedKeys(out: seq<OnlineUser>)
    ensures forall ip :: ip in Recorded(out) <==> exists i :: 0 <= i < |out| && out[i].ip == ip
  {
    if out != [] {
      var p := out[..|out| - 1];
      RecordedKeys(p);
      forall ip
        ensures ip in Recorded(out) <==> exists i :: 0 <= i < |out| && out[i].ip == ip
      {
        if ip in Recorded(p) {
          var i :| 0 <= i < |p| && p[i].ip == ip;
          assert out[i].ip == ip;
        }
        if i :| 0 <= i < |out| && out[i].ip == ip {
          assert i < |p| ==> p[i].ip == ip;
        }
        assert out[|out| - 1].ip == out[|out| - 1].ip;
      }
    }
  }

  /** `out` lists the pairs of `admitted` once each. */
  ghost predicate Lists(out: seq<OnlineUser>, admitted: set<(string, string)>) {
    exists keys: seq<(string, string)> :: ListedBy(out, admitted, keys)
  }

  ghost predicate ListedBy(out: seq<OnlineUser>, admitted: set<(string, string)>, keys: seq<(string, string)>) {
    && |keys| == |out|
    && (forall i, j :: 0 <= i < j < |keys| ==> keys[i] != keys[j])
    && (forall k :: k in keys <==> k in admitted)
    && (forall i :: 0 <= i < |keys| ==> out[i].ip == keys[i].1)
  }

  lemma ReportsList(s: Tables, out: seq<OnlineUser>, s': Tables)
    requires Reports(s, out, s')
    ensures Lists(out, Pairs(s.online))
  {
    var keys: seq<(string, string)> :| Covers(s.online, s.online.Keys, keys) && RowsOf(s.online, keys, out);
    assert forall k :: k in keys <==> k in Pairs(s.online);
    assert ListedBy(out, Pairs(s.online), keys);
  }

  lemma ListedAddresses(out: seq<OnlineUser>, admitted: set<(string, string)>)
    requires Lists(out, admitted)
    ensures Recorded(out).Keys == set p | p in admitted :: p.1
  {
    var keys :| ListedBy(out, admitted, keys);
    RecordedKeys(out);
    forall ip
      ensures ip in Recorded(out) <==> exists p :: p in admitted && p.1 == ip
    {
      if p :| p in admitted && p.1 == ip {
        var i :| 0 <= i < |keys| && keys[i] == p;
        assert out[i].ip == ip;
      }
      if ip in Recorded(out) {
        var i :| 0 <= i < |out| && out[i].ip == ip;
        assert keys[i] in admitted;
      }
    }
  }

  /** A report holds every admitted device exactly once, and the next period remembers exactly its addresses. */
  lemma ReportIsAdmitted(states: seq<Tables>, events: seq<Event>, n: nat)
    requires Run(states, events) && n < |events| && events[n].Report?
    ensures Lists(events[n].out, Admitted(states, events, n))
    ensures states[n + 1].online == map[]
    ensures states[n + 1].previous.Keys == set p | p in Admitted(states, events, n) :: p.1
  {
    assert Step(states[n], events[n], states[n + 1]);
    OnlineIsAdmitted(states, events, n);
    ReportsList(states[n], events[n].out, states[n + 1]);
    ListedAddresses(events[n].out, Admitted(states, events, n));
  }

  /* ---------- With every user full, no new address gets in ---------- */

  ghost function Addresses(online: Online): set<string> {
    set p | p in Pairs(online) :: p.1
  }

  /** The addresses online now or in the previous period. */
  ghost function Footprint(s: Tables): set<string> {
    Addresses(s.online) + s.previous.Keys
  }

  /** Exactly when a check lets a new address in. */
  lemma CheckGrowsFootprint(s: Tables, email: string, rawIp: string, track: bool, now: int)
    requires TrimMapped(rawIp) !in Footprint(s)
    ensures var s' := CheckLimit(s, email, rawIp, track, now).tables;
      TrimMapped(rawIp) in Footprint(s') <==> track && email in s.limits && !Full(s, s.limits[email])
  {
    var ip, s' := TrimMapped(rawIp), CheckLimit(s, email, rawIp, track, now).tables;
    CheckEffect(s, email, rawIp, track, now);
    assert IsOnline(s, email, ip) ==> (email, ip) in Pairs(s.online);
    if track && email in s.limits && !Full(s, s.limits[email]) {
      assert (email, ip) in Pairs(s'.online);
    }
  }

  /** Every user is full whenever one of its connections is checked. */
  ghost predicate ChecksFull(states: seq<Tables>, events: seq<Event>)
    requires Run(states, events)
  {
    forall i :: 0 <= i < |events| && events[i].Check? && events[i].email in states[i].limits
      ==> Full(states[i], states[i].limits[events[i].email])
  }

  lemma UpdateShrinksPairs(s: Tables, tag: string, added: seq<UserInfo>, deleted: seq<UserInfo>)
    ensures var s' := UpdateUser(s, tag, added, deleted);
      && Pairs(s'.online) == (set p | p in Pairs(s.online) && p.0 !in Emails(tag, deleted))
      && s'.online == s.online - Emails(tag, deleted)
      && s'.previous == s.previous
  {
    DeleteUsersEffect(s, tag, deleted);
    AddUsersEffect(DeleteUsers(s, tag, deleted), tag, added);
  }

  lemma LimitsShrinkPairs(s: Tables, tag: string, users: seq<UserInfo>)
    ensures var s' := UpdateUserLimits(s, tag, users);
      && Pairs(s'.online) == (set p | p in Pairs(s.online) && p.0 !in Tightened(s, tag, users))
      && s'.previous == s.previous
  {
    LimitsEffect(s, tag, users);
  }

  lemma StepKeepsFootprint(s: Tables, e: Event, s': Tables)
    requires Step(s, e, s')
    requires e.Check? && e.email in s.limits ==> Full(s, s.limits[e.email])
    ensures Footprint(s') <= Footprint(s)
  {
    match e
    case Check(email, ip, track, now) =>
      CheckEffect(s, email, ip, track, now);
      if TrimMapped(ip) !in Footprint(s) {
        CheckGrowsFootprint(s, email, ip, track, now);
        assert track && email in s.limits ==> Refuses(s, email, TrimMapped(ip), track) by {
          assert IsOnline(s, email, TrimMapped(ip)) ==> (email, TrimMapped(ip)) in Pairs(s.online);
        }
      }
    case Report(out) => ReportKeepsFootprint(s, out, s');
    case Update(tag, added, deleted) => UpdateShrinksPairs(s, tag, added, deleted);
    case Limits(tag, users) => LimitsShrinkPairs(s, tag, users);
    case Alive(_) =>
    case Dynamic(_, _, _, _) =>
  }

  lemma ReportKeepsFootprint(s: Tables, out: seq<OnlineUser>, s': Tables)
    requires Reports(s, out, s')
    ensures Footprint(s') == Addresses(s.online)
  {
    ReportsList(s, out, s');
    ListedAddresses(out, Pairs(s.online));
    assert Pairs(s'.online) == {};
  }

  lemma FootprintStep(states: seq<Tables>, events: seq<Event>, i: nat)
    requires Run(states, events) && ChecksFull(states, events) && i < |events|
    ensures Footprint(states[i + 1]) <= Footprint(states[i])
  {
    var s, e := states[i], events[i];
    assert Step(s, e, states[i + 1]) && (e.Check? && e.email in s.limits ==> Full(s, s.limits[e.email]));
    StepKeepsFootprint(s, e, states[i + 1]);
  }

  lemma {:induction false} ShrinksAlong(sets: seq<set<string>>, i: nat, j: nat)
    requires i <= j < |sets| && forall k :: 0 <= k < |sets| - 1 ==> sets[k + 1] <= sets[k]
    ensures sets[j] <= sets[i]
  {
    if i < j { ShrinksAlong(sets, i, j - 1); }
  }

  lemma FootprintNeverGrows(states: seq<Tables>, events: seq<Event>, i: nat, j: nat)
    requires Run(states, events) && ChecksFull(states, events) && i <= j <= |events|
    ensures Footprint(states[j]) <= Footprint(states[i])
  {
    var sets := seq(|states|, k requires 0 <= k < |states| => Footprint(states[k]));
    forall k | 0 <= k < |sets| - 1 ensures sets[k + 1] <= sets[k] { FootprintStep(states, events, k); }
    ShrinksAlong(sets, i, j);
  }

  /** From a report on, the node never has an address online that was not online at that report. */
  lemma PeriodsShrink(states: seq<Tables>, events: seq<Event>, i: nat, j: nat)
    requires Run(states, events) && ChecksFull(states, events) && i < j <= |events| && events[i].Report?
    ensures Addresses(states[j].online) <= Addresses(states[i].online)
  {
    assert Step(states[i], events[i], states[i + 1]);
    ReportKeepsFootprint(states[i], events[i].out, states[i + 1]);
    FootprintNeverGrows(states, events, i + 1, j);
  }

  ghost function AddressesOf(s: Tables, email: string): set<string> {
    if email in s.online then s.online[email].Keys else {}
  }

  lemma CheckWithinPeriod(s: Tables, e: string, rawIp: string, track: bool, now: int, email: string)
    requires e in s.limits ==> Full(s, s.limits[e])
    ensures var s' := CheckLimit(s, e, rawIp, track, now).tables;
      && AddressesOf(s', email) <= AddressesOf(s, email) + s.previous.Keys
      && s'.previous.Keys <= s.previous.Keys
  {
    CheckShape(s, e, rawIp, track, now);
  }

  lemma StepWithinPeriod(s: Tables, e: Event, s': Tables, email: string)
    requires Step(s, e, s') && !e.Report?
    requires e.Check? && e.email in s.limits ==> Full(s, s.limits[e.email])
    ensures AddressesOf(s', email) <= AddressesOf(s, email) + s.previous.Keys
    ensures s'.previous.Keys <= s.previous.Keys
  {
    match e
    case Check(_, ip, track, now) => CheckWithinPeriod(s, e.email, ip, track, now, email);
    case Update(tag, added, deleted) => UpdateShrinksPairs(s, tag, added, deleted);
    case Limits(tag, users) => LimitsEffect(s, tag, users);
    case Alive(_) =>
    case Dynamic(_, _, _, _) =>
  }

  /** Within a period a user's addresses come from its own at the start and from the previous period. */
  lemma {:induction false} WithinPeriod(states: seq<Tables>, events: seq<Event>, email: string, n: nat)
    requires Run(states, events) && ChecksFull(states, events) && n <= |events|
    requires forall i :: 0 <= i < n ==> !events[i].Report?
    ensures AddressesOf(states[n], email) <= AddressesOf(states[0], email) + states[0].previous.Keys
    ensures states[n].previous.Keys <= states[0].previous.Keys
  {
    if n > 0 {
      WithinPeriod(states, events, email, n - 1);
      StepWithinPeriod(states[n - 1], events[n - 1], states[n], email);
    }
  }

  /* ---------- Admission is sticky ---------- */

  /** The device is online, or is remembered for this user from the previous period. */
  ghost predicate Claims(s: Tables, email: string, ip: string) {
    && email in s.limits && s.limits[email].expireTime == 0
    && (IsOnline(s, email, ip) || (ip in s.previous && s.previous[ip] == s.limits[email].uid))
  }

  ghost predicate SoleUid(s: Tables, email: string) {
    email in s.limits ==> forall e :: e in s.limits && e != email ==> s.limits[e].uid != s.limits[email].uid
  }

  /** No user with another uid is online from the device's address. */
  ghost predicate SoleAddress(s: Tables, email: string, ip: string)
    requires IsOnline(s, email, ip)
  {
    forall e :: IsOnline(s, e, ip) ==> s.online[e][ip] == s.online[email][ip]
  }

  /** The operation does not end the claim on purpose; a report renews it for a device that is online and sole. */
  ghost predicate Spares(s: Tables, e: Event, email: string, ip: string) {
    match e
    case Check(_, _, _, _) => true
    case Report(_) => Tidy(s) && IsOnline(s, email, ip) && SoleAddress(s, email, ip)
    case Update(tag, added, deleted) => email !in Emails(tag, deleted) && email !in Emails(tag, added)
    case Limits(tag, users) => email !in Tightened(s, tag, users)
    case Alive(_) => true
    case Dynamic(tag, uuid, _, _) => UserTag(tag, uuid) != email
  }

  /** A remembered claim is lost to another user's check only when that user has the same uid. */
  lemma ClaimLostIff(s: Tables, email: string, ip: string, other: string, rawIp: string, track: bool, now: int)
    requires Claims(s, email, ip) && other != email
    ensures var s' := CheckLimit(s, other, rawIp, track, now).tables;
      !Claims(s', email, ip) <==>
        && !IsOnline(s, email, ip) && track && TrimMapped(rawIp) == ip
        && other in s.limits && s.limits[other].uid == s.limits[email].uid && !IsOnline(s, other, ip)
  {
    var s' := CheckLimit(s, other, rawIp, track, now).tables;
    CheckShape(s, other, rawIp, track, now);
    assert s'.limits[email] == s.limits[email];
    assert IsOnline(s', email, ip) <==> IsOnline(s, email, ip);
  }

  lemma ClaimKeptByUpdate(s: Tables, tag: string, added: seq<UserInfo>, deleted: seq<UserInfo>, email: string, ip: string)
    requires Claims(s, email, ip) && email !in Emails(tag, deleted) && email !in Emails(tag, added)
    ensures Claims(UpdateUser(s, tag, added, deleted), email, ip)
  {
    DeleteUsersEffect(s, tag, deleted);
    AddUsersEffect(DeleteUsers(s, tag, deleted), tag, added);
  }

  lemma ClaimKeptByLimits(s: Tables, tag: string, users: seq<UserInfo>, email: string, ip: string)
    requires Claims(s, email, ip) && email !in Tightened(s, tag, users)
    ensures Claims(UpdateUserLimits(s, tag, users), email, ip)
  {
    LimitsEffect(s, tag, users);
  }

  lemma ClaimKeptByOwnCheck(s: Tables, email: string, ip: string, rawIp: string, track: bool, now: int)
    requires Claims(s, email, ip)
    ensures Claims(CheckLimit(s, email, rawIp, track, now).tables, email, ip)
  {
    CheckShape(s, email, rawIp, track, now);
  }

  lemma ClaimStep(s: Tables, e: Event, s': Tables, email: string, ip: string)
    requires Step(s, e, s') && Claims(s, email, ip) && SoleUid(s, email) && Spares(s, e, email, ip)
    ensures Claims(s', email, ip)
  {
    match e
    case Check(_, rawIp, track, now) =>
      if e.email == email {
        ClaimKeptByOwnCheck(s, email, ip, rawIp, track, now);
      } else {
        ClaimLostIff(s, email, ip, e.email, rawIp, track, now);
      }
    case Report(out) => SoleAddressRenewed(s, out, s', email, ip);
    case Update(tag, added, deleted) => ClaimKeptByUpdate(s, tag, added, deleted, email, ip);
    case Limits(tag, users) => ClaimKeptByLimits(s, tag, users, email, ip);
    case Alive(_) =>
    case Dynamic(_, _, _, _) =>
  }

  lemma {:induction false} ClaimKept(states: seq<Tables>, events: seq<Event>, email: string, ip: string, n: nat)
    requires Run(states, events) && n <= |events| && Claims(states[0], email, ip)
    requires forall i :: 0 <= i < n ==> SoleUid(states[i], email) && Spares(states[i], events[i], email, ip)
    ensures Claims(states[n], email, ip)
  {
    if n > 0 {
      ClaimKept(states, events, email, ip, n - 1);
      ClaimStep(states[n - 1], events[n - 1], states[n], email, ip);
    }
  }

  /** Whatever other users do meanwhile, and over reports that renew the claim, a claimed device is accepted again. */
  lemma AdmissionIsSticky(states: seq<Tables>, events: seq<Event>, email: string, rawIp: string, track: bool, now: int, n: nat)
    requires Run(states, events) && n <= |events| && Claims(states[0], email, TrimMapped(rawIp))
    requires forall i :: 0 <= i < n ==>
      SoleUid(states[i], email) && Spares(states[i], events[i], email, TrimMapped(rawIp))
    ensures !CheckLimit(states[n], email, rawIp, track, now).reject
  {
    ClaimKept(states, events, email, TrimMapped(rawIp), n);
  }

  /** A tracked check accepts a device exactly when the device is claimed afterwards. */
  lemma AcceptanceClaims(s: Tables, email: string, rawIp: string, now: int)
    requires email in s.limits && s.limits[email].expireTime == 0
    ensures !CheckLimit(s, email, rawIp, true, now).reject
      <==> Claims(CheckLimit(s, email, rawIp, true, now).tables, email, TrimMapped(rawIp))
  {
    CheckEffect(s, email, rawIp, true, now);
  }

  /**
   * A stricter limit drops the user's devices so that they are checked afresh; the check then refuses
   * a device exactly when the new limit is reached and the previous period does not remember its address.
   */
  lemma TightenedRecheckIff(s: Tables, tag: string, u: UserInfo, rawIp: string, now: int)
    requires UserTag(tag, u.uuid) in s.limits && Stricter(u, s.limits[UserTag(tag, u.uuid)])
    ensures var e := UserTag(tag, u.uuid);
      CheckLimit(UpdateUserLimits(s, tag, [u]), e, rawIp, true, now).reject <==>
        TrimMapped(rawIp) !in s.previous && u.deviceLimit <= AliveCount(s, s.limits[e].uid)
  {
    var e, s' := UserTag(tag, u.uuid), UpdateUserLimits(s, tag, [u]);
    assert [u][..0] == [] && UpdateUserLimits(s, tag, []) == s;
    assert s' == Relimit(s, tag, u);
    CheckShape(s', e, rawIp, true, now);
  }

  /* ---------- Buckets always match the configured limits ---------- */

  ghost predicate LimitInRange(x: int) { 0 <= x <= MAX_LIMIT }

  /** No temporary limits; devices and buckets belong to known users and match their rows. */
  ghost predicate Tidy(s: Tables) {
    && LimitInRange(s.nodeSpeed)
    && (forall e :: e in s.limits ==>
          s.limits[e].expireTime == 0 && s.limits[e].dynamicSpeedLimit == 0 && LimitInRange(s.limits[e].speedLimit))
    && (forall e, ip :: e in s.online && ip in s.online[e] ==> e in s.limits && s.online[e][ip] == s.limits[e].uid)
    && (forall e :: e in s.buckets ==> e in s.limits && BucketMatches(s, e))
  }

  /** The cached rate is 125000 times the smaller non-zero one of the two limits. */
  ghost predicate BucketMatches(s: Tables, e: string)
    requires e in s.buckets && e in s.limits
  {
    var limit := DetermineSpeedLimit(s.nodeSpeed, s.limits[e].speedLimit);
    s.buckets[e] == 125000 * limit && limit > 0
  }

  ghost predicate InRange(users: seq<UserInfo>) {
    forall u :: u in users ==> LimitInRange(u.speedLimit)
  }

  /** User updates with limits in range that enter only users not in the table any more. */
  ghost predicate Regular(s: Tables, e: Event) {
    match e
    case Update(tag, added, deleted) =>
      InRange(added) && (Emails(tag, added) * s.limits.Keys <= Emails(tag, deleted))
    case Limits(_, users) => InRange(users)
    case Dynamic(_, _, _, _) => false
    case _ => true
  }

  ghost predicate RowsInRange(s: Tables) {
    forall e :: e in s.limits ==> LimitInRange(s.limits[e].speedLimit)
  }

  lemma {:induction false} LimitsInRange(s: Tables, tag: string, users: seq<UserInfo>)
    requires InRange(users) && RowsInRange(s)
    ensures RowsInRange(UpdateUserLimits(s, tag, users))
  {
    if users != [] {
      var p, u := users[..|users| - 1], users[|users| - 1];
      assert u in users && forall x :: x in p ==> x in users;
      LimitsInRange(s, tag, p);
      assert UpdateUserLimits(s, tag, users) == Relimit(UpdateUserLimits(s, tag, p), tag, u);
    }
  }

  lemma TidyAfterTracking(s: Tables, email: string, ip: string)
    requires Tidy(s) && email in s.limits
    ensures Tidy(Tracked(s, email, ip, s.limits[email].uid))
  {
    var uid := s.limits[email].uid;
    var o := WithDevice(s.online, email, ip, uid);
    WithDeviceHas(s.online, email, ip, uid);
    forall e, i | Has(o, e, i)
      ensures e in s.limits && o[e][i] == s.limits[e].uid
    {
      if e != email {
        assert Has(s.online, e, i) && o[e] == s.online[e];
      } else if i != ip {
        assert Has(s.online, e, i) && o[e][i] == s.online[e][i];
      }
    }
  }

  lemma TidyAfterBucket(s: Tables, email: string)
    requires Tidy(s) && email in s.limits
    ensures Tidy(TakeBucket(s, email, Rate(s.nodeSpeed, s.limits[email].speedLimit)).tables)
  {
    RateOfLimits(s.nodeSpeed, s.limits[email].speedLimit);
    var s' := TakeBucket(s, email, Rate(s.nodeSpeed, s.limits[email].speedLimit)).tables;
    assert forall e :: e in s'.buckets ==> BucketMatches(s', e);
  }

  lemma TidyAfterCheck(s: Tables, email: string, ip: string, track: bool, now: int)
    requires Tidy(s)
    ensures Tidy(CheckLimit(s, email, ip, track, now).tables)
  {
    if !Refuses(s, email, TrimMapped(ip), track) {
      TidyAfterTracking(s, email, TrimMapped(ip));
      TidyAfterBucket(if track then Tracked(s, email, TrimMapped(ip), s.limits[email].uid) else s, email);
    }
  }

  lemma TidyAfterUpdate(s: Tables, tag: string, added: seq<UserInfo>, deleted: seq<UserInfo>)
    requires Tidy(s) && InRange(added) && Emails(tag, added) * s.limits.Keys <= Emails(tag, deleted)
    ensures Tidy(UpdateUser(s, tag, added, deleted))
  {
    DeleteUsersEffect(s, tag, deleted);
    AddUsersEffect(DeleteUsers(s, tag, deleted), tag, added);
  }

  lemma TidyAfterRelimited(s: Tables, s': Tables, tight: set<string>)
    requires Tidy(s) && Relimited(s, s', tight) && RowsInRange(s')
    ensures Tidy(s')
  {
    forall e | e in s'.buckets ensures e in s'.limits && BucketMatches(s', e) {
      assert BucketMatches(s, e);
    }
  }

  lemma TidyAfterLimits(s: Tables, tag: string, users: seq<UserInfo>)
    requires Tidy(s) && InRange(users)
    ensures Tidy(UpdateUserLimits(s, tag, users))
  {
    LimitsEffect(s, tag, users);
    LimitsInRange(s, tag, users);
    TidyAfterRelimited(s, UpdateUserLimits(s, tag, users), Tightened(s, tag, users));
  }

  lemma TidyStep(s: Tables, e: Event, s': Tables)
    requires Tidy(s) && Step(s, e, s') && Regular(s, e)
    ensures Tidy(s')
  {
    match e
    case Check(email, ip, track, now) => TidyAfterCheck(s, email, ip, track, now);
    case Report(_) =>
    case Update(tag, added, deleted) => TidyAfterUpdate(s, tag, added, deleted);
    case Limits(tag, users) => TidyAfterLimits(s, tag, users);
    case Alive(_) =>
  }

  /** A new limiter is tidy. */
  lemma NewTablesTidy(nodeSpeed: int, tag: string, users: seq<UserInfo>, alive: map<int, int>)
    requires LimitInRange(nodeSpeed) && InRange(users)
    ensures Tidy(NewTables(nodeSpeed, tag, users, alive))
  {
    AddUsersEffect(EmptyTables(nodeSpeed, alive), tag, users);
  }

  lemma {:induction false} RunsStayTidy(states: seq<Tables>, events: seq<Event>, n: nat)
    requires Run(states, events) && n <= |events| && Tidy(states[0])
    requires forall i :: 0 <= i < n ==> Regular(states[i], events[i])
    ensures Tidy(states[n])
  {
    if n > 0 {
      RunsStayTidy(states, events, n - 1);
      TidyStep(states[n - 1], events[n - 1], states[n]);
    }
  }

  /** The cache is invisible: an accepted check hands out what computing afresh would give. */
  lemma CacheIsTransparent(states: seq<Tables>, events: seq<Event>, n: nat, email: string, ip: string, track: bool, now: int)
    requires Run(states, events) && n <= |events| && Tidy(states[0])
    requires forall i :: 0 <= i < n ==> Regular(states[i], events[i])
    requires !CheckLimit(states[n], email, ip, track, now).reject
    ensures email in states[n].limits
    ensures var limit := DetermineSpeedLimit(states[n].nodeSpeed, states[n].limits[email].speedLimit);
      CheckLimit(states[n], email, ip, track, now).bucket == if limit > 0 then Some(125000 * limit) else None
  {
    RunsStayTidy(states, events, n);
    var s := states[n];
    RateOfLimits(s.nodeSpeed, s.limits[email].speedLimit);
  }

  /**
   * A temporary limit does not drop the cached bucket: the next check follows the new limit exactly
   * when nothing was cached or the effective limit stayed the same.
   */
  lemma DynamicLimitFollowedIff(s: Tables, tag: string, uuid: string, limit: int, expire: int, ip: string, now: int)
    requires Tidy(s) && UserTag(tag, uuid) in s.limits && LimitInRange(limit) && now <= expire && limit != 0
    ensures var e := UserTag(tag, uuid);
      var wanted := DetermineSpeedLimit(s.nodeSpeed, DetermineSpeedLimit(s.limits[e].speedLimit, limit));
      var v := CheckLimit(UpdateDynamicSpeedLimit(s, tag, uuid, limit, expire), e, ip, false, now);
      var current := DetermineSpeedLimit(s.nodeSpeed, s.limits[e].speedLimit);
      v.bucket == Some(125000 * wanted) <==> e !in s.buckets || wanted == current
  {
    var e := UserTag(tag, uuid);
    RateOfLimits(s.nodeSpeed, s.limits[e].speedLimit);
    RateOfLimits(s.nodeSpeed, DetermineSpeedLimit(s.limits[e].speedLimit, limit));
  }

  /* ---------- Which claims outlive a report ---------- */

  lemma {:induction false} RecordedAt(out: seq<OnlineUser>, ip: string) returns (i: nat)
    requires ip in Recorded(out)
    ensures i < |out| && out[i] == OnlineUser(Recorded(out)[ip], ip)
  {
    var n := |out| - 1;
    if out[n].ip == ip {
      i := n;
    } else {
      i := RecordedAt(out[..n], ip);
    }
  }

  lemma {:induction false} Listing(pairs: set<(string, string)>) returns (keys: seq<(string, string)>)
    ensures (forall i, j :: 0 <= i < j < |keys| ==> keys[i] != keys[j]) && forall k :: k in keys <==> k in pairs
  {
    if pairs == {} {
      keys := [];
    } else {
      var p :| p in pairs;
      var rest := Listing(pairs - {p});
      keys := rest + [p];
    }
  }

  ghost function RowOf(online: Online, k: (string, string)): OnlineUser
    requires Has(online, k.0, k.1)
  {
    OnlineUser(online[k.0][k.1], k.1)
  }

  lemma {:induction false} RowsAlong(online: Online, keys: seq<(string, string)>) returns (out: seq<OnlineUser>)
    requires forall k :: k in keys ==> Has(online, k.0, k.1)
    ensures RowsOf(online, keys, out)
  {
    if keys == [] {
      out := [];
    } else {
      var n := |keys| - 1;
      assert forall k :: k in keys[..n] ==> k in keys;
      var before := RowsAlong(online, keys[..n]);
      out := before + [RowOf(online, keys[n])];
    }
  }

  /** Any online pair may come last in a report, and then its uid is the one remembered for its address. */
  lemma LastReported(s: Tables, email: string, ip: string) returns (out: seq<OnlineUser>)
    requires Has(s.online, email, ip)
    ensures ListsOnce(s.online, out) && ip in Recorded(out) && Recorded(out)[ip] == s.online[email][ip]
  {
    var last := (email, ip);
    var rest := Listing(Pairs(s.online) - {last});
    var keys := rest + [last];
    assert last in Pairs(s.online);
    assert forall k :: k in keys <==> k in rest || k == last;
    assert forall k :: k in keys <==> k in Pairs(s.online);
    out := RowsAlong(s.online, keys);
    assert out[|out| - 1] == OnlineUser(s.online[email][ip], ip) by { assert keys[|keys| - 1] == last; }
    assert Covers(s.online, s.online.Keys, keys) && RowsOf(s.online, keys, out);
  }

  /** An address no other uid has online is remembered for its user, in whatever order the tables are walked. */
  lemma SoleAddressRenewed(s: Tables, out: seq<OnlineUser>, s': Tables, email: string, ip: string)
    requires Tidy(s) && IsOnline(s, email, ip) && Reports(s, out, s')
    requires SoleAddress(s, email, ip)
    ensures Claims(s', email, ip)
  {
    var keys: seq<(string, string)> :| Covers(s.online, s.online.Keys, keys) && RowsOf(s.online, keys, out);
    assert (email, ip) in keys;
    var n :| 0 <= n < |keys| && keys[n] == (email, ip);
    RecordedKeys(out);
    assert out[n].ip == ip;
    var i := RecordedAt(out, ip);
    assert IsOnline(s, keys[i].0, ip);
  }

  /**
   * A device stays claimed over every possible report, whatever the order of its rows, exactly when no
   * user with another uid is online from the same address.
   */
  lemma ReportRenewsClaimIff(s: Tables, email: string, ip: string)
    requires Tidy(s) && IsOnline(s, email, ip)
    ensures (forall out, s' :: Reports(s, out, s') ==> Claims(s', email, ip)) <==> SoleAddress(s, email, ip)
  {
    if SoleAddress(s, email, ip) {
      forall out, s' | Reports(s, out, s') ensures Claims(s', email, ip) {
        SoleAddressRenewed(s, out, s', email, ip);
      }
    } else {
      var e :| IsOnline(s, e, ip) && s.online[e][ip] != s.online[email][ip];
      assert Has(s.online, e, ip);
      var out := LastReported(s, e, ip);
      var s' := s.(online := map[], previous := Recorded(out));
      assert Reports(s, out, s') && !Claims(s', email, ip);
    }
  }
}
