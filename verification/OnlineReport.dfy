/** The online-device part of the report task (node/user.go): filter by traffic, group by uid. */
module OnlineReport {
  import opened LimiterTables
  import opened LimiterRuns

  datatype UserTraffic = UserTraffic(uid: int, upload: int, download: int)

  /** The uids with a traffic row under the threshold. */
  function Idle(traffic: seq<UserTraffic>, threshold: int): set<int> {
    set t | t in traffic && t.upload + t.download < threshold :: t.uid
  }

  /** The addresses reported for a uid, in report order. */
  function AddressesFor(online: seq<OnlineUser>, uid: int): seq<string> {
    if online == [] then []
    else
      var rest := AddressesFor(online[..|online| - 1], uid);
      if online[|online| - 1].uid == uid then rest + [online[|online| - 1].ip] else rest
  }

  /** `data` groups the rows of the uids that are not idle. */
  ghost predicate Posts(data: map<int, seq<string>>, online: seq<OnlineUser>, idle: set<int>) {
    && (forall uid :: uid in data <==> uid !in idle && AddressesFor(online, uid) != [])
    && (forall uid :: uid in data ==> data[uid] == AddressesFor(online, uid))
  }

  method IdleUids(traffic: seq<UserTraffic>, threshold: int) returns (nocount: set<int>)
    ensures nocount == Idle(traffic, threshold)
  {
    nocount := {};
    for i := 0 to |traffic|
      invariant nocount == Idle(traffic[..i], threshold)
    {
      var p := traffic[..i + 1];
      assert p == traffic[..i] + [traffic[i]];
      assert forall t :: t in p <==> t in traffic[..i] || t == traffic[i];
      if traffic[i].upload + traffic[i].download < threshold {
        nocount := nocount + {traffic[i].uid};
      }
    }
    assert traffic[..|traffic|] == traffic;
  }

  /** `result` is `online` without the rows of the idle uids. */
  ghost predicate Kept(result: seq<OnlineUser>, online: seq<OnlineUser>, idle: set<int>) {
    forall uid :: AddressesFor(result, uid) == if uid in idle then [] else AddressesFor(online, uid)
  }

  lemma AddressesForMore(online: seq<OnlineUser>, row: OnlineUser, uid: int)
    ensures AddressesFor(online + [row], uid) == AddressesFor(online, uid) + if row.uid == uid then [row.ip] else []
  {
    assert (online + [row])[..|online|] == online;
  }

  lemma KeptMore(result: seq<OnlineUser>, online: seq<OnlineUser>, idle: set<int>, row: OnlineUser, more: seq<OnlineUser>)
    requires Kept(result, online, idle) && more == online + [row]
    ensures Kept(if row.uid in idle then result else result + [row], more, idle)
  {
    forall uid ensures var next := if row.uid in idle then result else result + [row];
      AddressesFor(next, uid) == if uid in idle then [] else AddressesFor(more, uid)
    {
      AddressesForMore(online, row, uid);
      AddressesForMore(result, row, uid);
    }
  }

  method CountedRows(online: seq<OnlineUser>, idle: set<int>) returns (result: seq<OnlineUser>)
    ensures Kept(result, online, idle)
  {
    result := [];
    for i := 0 to |online|
      invariant Kept(result, online[..i], idle)
    {
      KeptMore(result, online[..i], idle, online[i], online[..i + 1]);
      if online[i].uid !in idle {
        result := result + [online[i]];
      }
    }
    assert online[..|online|] == online;
  }

  lemma PostsMore(data: map<int, seq<string>>, online: seq<OnlineUser>, row: OnlineUser)
    requires Posts(data, online, {})
    ensures Posts(data[row.uid := (if row.uid in data then data[row.uid] else []) + [row.ip]], online + [row], {})
  {
    forall uid ensures AddressesFor(online + [row], uid) == AddressesFor(online, uid) + if row.uid == uid then [row.ip] else [] {
      AddressesForMore(online, row, uid);
    }
  }

  method GroupRows(result: seq<OnlineUser>) returns (data: map<int, seq<string>>)
    ensures Posts(data, result, {})
  {
    data := map[];
    for i := 0 to |result|
      invariant Posts(data, result[..i], {})
    {
      PostsMore(data, result[..i], result[i]);
      assert result[..i + 1] == result[..i] + [result[i]];
      var uid := result[i].uid;
      data := data[uid := (if uid in data then data[uid] else []) + [result[i].ip]];
    }
    assert result[..|result|] == result;
  }

  method GroupOnline(traffic: seq<UserTraffic>, online: seq<OnlineUser>, threshold: int) returns (data: map<int, seq<string>>)
    ensures Posts(data, online, Idle(traffic, threshold))
    ensures forall uid :: uid in data <==>
      && (exists row :: row in online && row.uid == uid)
      && !exists t :: t in traffic && t.uid == uid && t.upload + t.download < threshold
  {
    var nocount := IdleUids(traffic, threshold);
    var result := CountedRows(online, nocount);
    data := GroupRows(result);
    forall uid ensures AddressesFor(online, uid) != [] <==> exists row :: row in online && row.uid == uid {
      AddressesForSome(online, uid);
    }
  }

  lemma {:induction false} AddressesForSome(online: seq<OnlineUser>, uid: int)
    ensures AddressesFor(online, uid) != [] <==> exists row :: row in online && row.uid == uid
  {
    if online != [] {
      var p, last := online[..|online| - 1], online[|online| - 1];
      AddressesForSome(p, uid);
      assert online == p + [last];
      assert forall row :: row in online <==> row in p || row == last;
    }
  }

  /** Grouping loses and repeats nothing: an address occurs under a uid as often as the row in the report. */
  lemma {:induction false} AddressesForCounts(online: seq<OnlineUser>, uid: int, ip: string)
    ensures multiset(AddressesFor(online, uid))[ip] == multiset(online)[OnlineUser(uid, ip)]
  {
    if online != [] {
      var p, last := online[..|online| - 1], online[|online| - 1];
      AddressesForCounts(p, uid, ip);
      assert online == p + [last];
    }
  }

  lemma OnceInMultiset<T>(s: seq<T>, i: nat)
    requires i < |s| && forall j :: 0 <= j < |s| && j != i ==> s[j] != s[i]
    ensures multiset(s)[s[i]] == 1
  {
    assert s == s[..i] + [s[i]] + s[i + 1..];
    assert s[i] !in s[..i] && s[i] !in s[i + 1..];
  }

  ghost predicate UniqueUids(s: Tables) {
    forall e, f :: e in s.limits && f in s.limits && s.limits[e].uid == s.limits[f].uid ==> e == f
  }

  /** In a report each online device is one row, under its user's uid. */
  lemma RowsAreDevices(s: Tables, out: seq<OnlineUser>, s': Tables)
    requires Tidy(s) && UniqueUids(s) && Reports(s, out, s')
    ensures forall e, ip :: Has(s.online, e, ip) ==> e in s.limits && multiset(out)[OnlineUser(s.limits[e].uid, ip)] == 1
    ensures forall row :: row in out ==> exists e :: Has(s.online, e, row.ip) && e in s.limits && s.limits[e].uid == row.uid
  {
    var keys: seq<(string, string)> :| Covers(s.online, s.online.Keys, keys) && RowsOf(s.online, keys, out);
    forall e, ip | Has(s.online, e, ip)
      ensures e in s.limits && multiset(out)[OnlineUser(s.limits[e].uid, ip)] == 1
    {
      assert (e, ip) in keys;
      var i :| 0 <= i < |keys| && keys[i] == (e, ip);
      forall j | 0 <= j < |out| && j != i ensures out[j] != out[i] {
        assert keys[j] != keys[i];
      }
      OnceInMultiset(out, i);
    }
    forall row | row in out
      ensures exists e :: Has(s.online, e, row.ip) && e in s.limits && s.limits[e].uid == row.uid
    {
      var i :| 0 <= i < |out| && out[i] == row;
      assert Has(s.online, keys[i].0, row.ip);
    }
  }

  /**
   * What is posted at the end of a period is exactly what was admitted during it, device by device,
   * less the devices of users whose traffic row is under the threshold.
   */
  lemma PostedIsAdmitted(states: seq<Tables>, events: seq<Event>, n: nat, data: map<int, seq<string>>, idle: set<int>)
    requires Run(states, events) && n < |events| && events[n].Report?
    requires Tidy(states[n]) && UniqueUids(states[n]) && Posts(data, events[n].out, idle)
    ensures forall p :: p in Admitted(states, events, n) ==>
      && p.0 in states[n].limits
      && var uid := states[n].limits[p.0].uid;
         if uid in idle then uid !in data else uid in data && multiset(data[uid])[p.1] == 1
    ensures forall uid, ip :: uid in data && ip in data[uid] ==>
      uid !in idle && exists e :: (e, ip) in Admitted(states, events, n) && e in states[n].limits && states[n].limits[e].uid == uid
  {
    var s, out, admitted := states[n], events[n].out, Admitted(states, events, n);
    assert Step(s, events[n], states[n + 1]);
    OnlineIsAdmitted(states, events, n);
    RowsAreDevices(s, out, states[n + 1]);
    forall p | p in admitted
      ensures p.0 in s.limits &&
        var uid := s.limits[p.0].uid;
        if uid in idle then uid !in data else uid in data && multiset(data[uid])[p.1] == 1
    {
      assert Has(s.online, p.0, p.1);
      AddressesForCounts(out, s.limits[p.0].uid, p.1);
    }
    forall uid, ip | uid in data && ip in data[uid]
      ensures uid !in idle && exists e :: (e, ip) in admitted && e in s.limits && s.limits[e].uid == uid
    {
      AddressesForCounts(out, uid, ip);
      assert multiset(data[uid])[ip] > 0;
      var row := OnlineUser(uid, ip);
      assert row in out;
      var e :| Has(s.online, e, row.ip) && e in s.limits && s.limits[e].uid == row.uid;
      assert (e, ip) in Pairs(s.online);
    }
  }
}
