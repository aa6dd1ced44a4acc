/** The limiter and the registry of limiters, updated in place (limiter/limiter.go). */
module Limiters {
  import opened Wrappers
  import opened Format
  import opened Speed
  import opened LimiterTables

  class Limiter {
    const nodeSpeed: int
    var limits: map<string, UserLimit>
    var online: Online
    var previous: map<string, int>
    var buckets: map<string, int>
    var uuidToUid: map<string, int>
    var alive: map<int, int>

    ghost function View(): Tables
      reads this
    {
      Tables(nodeSpeed, limits, online, previous, buckets, uuidToUid, alive)
    }

    constructor (nodeSpeed: int, tag: string, users: seq<UserInfo>, alive: map<int, int>)
      ensures View() == NewTables(nodeSpeed, tag, users, alive)
    {
      this.nodeSpeed := nodeSpeed;
      this.limits, this.online, this.previous, this.buckets := map[], map[], map[], map[];
      this.uuidToUid, this.alive := map[], alive;
      new;
      var uuidmap := map[];
      for i := 0 to |users|
        invariant View().(uuidToUid := uuidmap) == NewTables(nodeSpeed, tag, users[..i], alive)
      {
        assert users[..i + 1][..i] == users[..i];
        uuidmap := uuidmap[users[i].uuid := users[i].id];
        limits := limits[UserTag(tag, users[i].uuid)
          := UserLimit(users[i].id, users[i].speedLimit, users[i].deviceLimit, 0, 0)];
      }
      assert users[..|users|] == users;
      uuidToUid := uuidmap;
    }

    method UpdateUser(tag: string, added: seq<UserInfo>, deleted: seq<UserInfo>)
      modifies this
      ensures View() == LimiterTables.UpdateUser(old(View()), tag, added, deleted)
    {
      for i := 0 to |deleted|
        invariant View() == DeleteUsers(old(View()), tag, deleted[..i])
      {
        assert deleted[..i + 1][..i] == deleted[..i];
        var e := UserTag(tag, deleted[i].uuid);
        limits := limits - {e};
        online := online - {e};
        buckets := buckets - {e};
        uuidToUid := uuidToUid - {deleted[i].uuid};
        alive := alive - {deleted[i].id};
      }
      assert deleted[..|deleted|] == deleted;
      for i := 0 to |added|
        invariant View() == AddUsers(DeleteUsers(old(View()), tag, deleted), tag, added[..i])
      {
        assert added[..i + 1][..i] == added[..i];
        limits := limits[UserTag(tag, added[i].uuid)
          := UserLimit(added[i].id, added[i].speedLimit, added[i].deviceLimit, 0, 0)];
        uuidToUid := uuidToUid[added[i].uuid := added[i].id];
      }
      assert added[..|added|] == added;
    }

    method UpdateUserLimits(tag: string, users: seq<UserInfo>)
      modifies this
      ensures View() == LimiterTables.UpdateUserLimits(old(View()), tag, users)
    {
      for i := 0 to |users|
        invariant View() == LimiterTables.UpdateUserLimits(old(View()), tag, users[..i])
      {
        assert users[..i + 1][..i] == users[..i];
        RelimitUser(tag, users[i]);
      }
      assert users[..|users|] == users;
    }

    /** A changed speed limit drops the cached bucket, a stricter device limit the user's devices. */
    method RelimitUser(tag: string, u: UserInfo)
      modifies this
      ensures View() == Relimit(old(View()), tag, u)
    {
      var e := UserTag(tag, u.uuid);
      if e in limits {
        if u.speedLimit != limits[e].speedLimit {
          limits := limits[e := limits[e].(speedLimit := u.speedLimit)];
          buckets := buckets - {e};
        }
        if u.deviceLimit != limits[e].deviceLimit {
          var oldLimit := limits[e].deviceLimit;
          limits := limits[e := limits[e].(deviceLimit := u.deviceLimit)];
          if u.deviceLimit > 0 && (oldLimit == 0 || u.deviceLimit < oldLimit) {
            online := online - {e};
          }
        }
      }
    }

    method UpdateDynamicSpeedLimit(tag: string, uuid: string, limit: int, expire: int) returns (found: bool)
      modifies this`limits
      ensures found <==> UserTag(tag, uuid) in old(limits)
      ensures View() == LimiterTables.UpdateDynamicSpeedLimit(old(View()), tag, uuid, limit, expire)
    {
      var e := UserTag(tag, uuid);
      found := e in limits;
      if found {
        limits := limits[e := limits[e].(dynamicSpeedLimit := limit, expireTime := expire)];
      }
    }

    /**
     * The device step of CheckLimit.  A new device is entered first and taken back on refusal, as
     * the source does.
     */
    method TrackDevice(email: string, ip: string, uid: int, deviceLimit: int) returns (reject: bool)
      modifies this`online, this`previous
      ensures reject <==>
        && !(email in old(online) && ip in old(online)[email]) && ip !in old(previous)
        && uid in alive && 0 < deviceLimit <= alive[uid]
      ensures View() == if reject then old(View()) else Tracked(old(View()), email, ip, uid)
    {
      var aliveIp := if uid in alive then alive[uid] else 0;
      if email in online {
        if ip !in online[email] {
          online := online[email := online[email][ip := uid]];
          if ip in previous {
            if previous[ip] == uid {
              previous := previous - {ip};
            }
          } else if deviceLimit > 0 {
            if deviceLimit <= aliveIp {
              online := online[email := online[email] - {ip}];
              assert online[email] == old(online[email]);
              assert online == old(online);
              return true;
            }
          }
        }
      } else {
        online := online[email := map[ip := uid]];
        if ip in previous {
          if previous[ip] == uid {
            previous := previous - {ip};
          }
        } else if deviceLimit > 0 {
          if deviceLimit <= aliveIp {
            online := online - {email};
            assert online == old(online);
            return true;
          }
        }
      }
      return false;
    }

    /** Admits or refuses one connection; `track` tells that the client connected over TCP. */
    method CheckLimit(email: string, rawIp: string, track: bool, now: int) returns (bucket: Option<int>, reject: bool)
      modifies this
      ensures Verdict(View(), bucket, reject) == LimiterTables.CheckLimit(old(View()), email, rawIp, track, now)
    {
      var ip := TrimMapped(rawIp);
      if email !in limits {
        return None, true;
      }
      var u := limits[email];
      var userLimit := 0;
      if u.expireTime < now && u.expireTime != 0 {
        if u.speedLimit != 0 {
          userLimit := u.speedLimit;
          limits := limits[email := u.(dynamicSpeedLimit := 0, expireTime := 0)];
        } else {
          limits := limits - {email};
        }
      } else {
        userLimit := DetermineSpeedLimit(u.speedLimit, u.dynamicSpeedLimit);
      }
      if track {
        reject := TrackDevice(email, ip, u.uid, u.deviceLimit);
        if reject {
          return None, true;
        }
      }
      var limit := BytesPerSecond(DetermineSpeedLimit(nodeSpeed, userLimit));
      if limit > 0 {
        if email in buckets {
          return Some(buckets[email]), false;
        }
        buckets := buckets[email := limit];
        return Some(limit), false;
      }
      return None, false;
    }

    /** Appends one user's rows to the report; the addresses are walked in any order. */
    method CollectUser(ipMap: map<string, int>, before: seq<OnlineUser>) returns (out: seq<OnlineUser>, ghost ks: seq<string>)
      requires previous == Recorded(before)
      modifies this`previous
      ensures previous == Recorded(out)
      ensures UserRows(ipMap, {}, before, ks, out)
    {
      out, ks := before, [];
      var ips := ipMap.Keys;
      while ips != {}
        invariant ips <= ipMap.Keys
        invariant previous == Recorded(out)
        invariant UserRows(ipMap, ips, before, ks, out)
        decreases ips
      {
        var ip :| ip in ips;
        RowAdded(ipMap, ips, before, ks, out, ip);
        previous := previous[ip := ipMap[ip]];
        out := out + [OnlineUser(ipMap[ip], ip)];
        ks := ks + [ip];
        ips := ips - {ip};
      }
    }

    /** Walks the online table in any order, emptying it and filling the report. */
    method DrainOnline() returns (out: seq<OnlineUser>)
      requires previous == map[]
      modifies this`online, this`previous
      ensures online == map[] && previous == Recorded(out)
      ensures ListsOnce(old(online), out)
    {
      out := [];
      ghost var keys, was := [], online;
      var users := online.Keys;
      while users != {}
        invariant users <= was.Keys
        invariant online.Keys == users && forall e :: e in users ==> online[e] == was[e]
        invariant previous == Recorded(out)
        invariant RowsOf(was, keys, out)
        invariant Covers(was, was.Keys - users, keys)
        decreases users
      {
        var e :| e in users;
        ghost var before, ks := out, [];
        out, ks := CollectUser(online[e], out);
        DrainStep(was, was.Keys - users, keys, before, e, ks, out);
        keys := keys + Keyed(e, ks);
        online := online - {e};
        assert was.Keys - (users - {e}) == was.Keys - users + {e};
        users := users - {e};
      }
      assert was.Keys - users == was.Keys;
    }

    /** Reports every online device and starts a new period. */
    method GetOnlineDevice() returns (out: seq<OnlineUser>)
      modifies this
      ensures Reports(old(View()), out, View())
    {
      previous := map[];
      out := DrainOnline();
    }
  }

  lemma RowAdded(ipMap: map<string, int>, left: set<string>, before: seq<OnlineUser>, ks: seq<string>, out: seq<OnlineUser>, ip: string)
    requires UserRows(ipMap, left, before, ks, out) && left <= ipMap.Keys && ip in left
    ensures var row := OnlineUser(ipMap[ip], ip);
      && UserRows(ipMap, left - {ip}, before, ks + [ip], out + [row])
      && Recorded(out + [row]) == Recorded(out)[ip := ipMap[ip]]
  {
    var row := OnlineUser(ipMap[ip], ip);
    assert (out + [row])[..|out|] == out;
    assert ip !in ks;
  }

  /** `out` is `before` followed by one row for each address not in `left`, listed once by `ks`. */
  ghost predicate UserRows(ipMap: map<string, int>, left: set<string>, before: seq<OnlineUser>, ks: seq<string>, out: seq<OnlineUser>) {
    && |out| == |before| + |ks| && before <= out
    && (forall i, j :: 0 <= i < j < |ks| ==> ks[i] != ks[j])
    && (forall k :: k in ks <==> k in ipMap && k !in left)
    && (forall i :: 0 <= i < |ks| ==> ks[i] in ipMap && out[|before| + i] == OnlineUser(ipMap[ks[i]], ks[i]))
  }

  ghost function Keyed(e: string, ks: seq<string>): (r: seq<(string, string)>)
    ensures |r| == |ks| && forall i :: 0 <= i < |ks| ==> r[i] == (e, ks[i])
  {
    if ks == [] then [] else [(e, ks[0])] + Keyed(e, ks[1..])
  }

  lemma DrainStep(online: Online, users: set<string>, keys: seq<(string, string)>, before: seq<OnlineUser>,
                  e: string, ks: seq<string>, out: seq<OnlineUser>)
    requires Covers(online, users, keys) && RowsOf(online, keys, before) && e in online && e !in users
    requires UserRows(online[e], {}, before, ks, out)
    ensures Covers(online, users + {e}, keys + Keyed(e, ks)) && RowsOf(online, keys + Keyed(e, ks), out)
  {
    CoversMore(online, users, keys, e, ks);
    RowsMore(online, keys, before, e, ks, Keyed(e, ks), out);
  }

  lemma RowsMore(online: Online, keys: seq<(string, string)>, before: seq<OnlineUser>, e: string, ks: seq<string>,
                 more: seq<(string, string)>, out: seq<OnlineUser>)
    requires RowsOf(online, keys, before) && e in online && UserRows(online[e], {}, before, ks, out)
    requires |more| == |ks| && forall i :: 0 <= i < |more| ==> more[i] == (e, ks[i])
    ensures RowsOf(online, keys + more, out)
  {
    var all := keys + more;
    forall i | 0 <= i < |all|
      ensures all[i].0 in online && all[i].1 in online[all[i].0]
      ensures out[i] == OnlineUser(online[all[i].0][all[i].1], all[i].1)
    {
      if i < |keys| {
        assert out[i] == before[i];
      } else {
        var n := i - |keys|;
        assert all[i] == more[n] && out[|before| + n] == out[i];
      }
    }
  }

  lemma CoversMore(online: Online, users: set<string>, keys: seq<(string, string)>, e: string, ks: seq<string>)
    requires Covers(online, users, keys) && e in online && e !in users
    requires forall i, j :: 0 <= i < j < |ks| ==> ks[i] != ks[j]
    requires forall k :: k in ks <==> k in online[e]
    ensures Covers(online, users + {e}, keys + Keyed(e, ks))
  {
    var more := Keyed(e, ks);
    var all := keys + more;
    forall k: (string, string)
      ensures k in all <==> k.0 in users + {e} && k.0 in online && k.1 in online[k.0]
    {
      if k.0 == e && k.1 in ks {
        var i :| 0 <= i < |ks| && ks[i] == k.1;
        assert more[i] == k && all[|keys| + i] == k;
      }
      if k in keys {
        var i :| 0 <= i < |keys| && keys[i] == k;
        assert all[i] == k;
      }
    }
    forall i, j | 0 <= i < j < |all|
      ensures all[i] != all[j]
    {
      if i < |keys| {
        assert all[i] in keys;
      }
    }
  }

  /** The process-wide map from node tag to limiter. */
  class Registry {
    var limiters: map<string, Limiter>

    constructor ()
      ensures limiters == map[]
    {
      limiters := map[];
    }

    method AddLimiter(nodeSpeed: int, tag: string, users: seq<UserInfo>, alive: map<int, int>) returns (l: Limiter)
      modifies this
      ensures fresh(l) && l.View() == NewTables(nodeSpeed, tag, users, alive)
      ensures limiters == old(limiters)[tag := l]
    {
      l := new Limiter(nodeSpeed, tag, users, alive);
      limiters := limiters[tag := l];
    }

    method GetLimiter(tag: string) returns (l: Option<Limiter>)
      ensures l == if tag in limiters then Some(limiters[tag]) else None
    {
      l := if tag in limiters then Some(limiters[tag]) else None;
    }

    method DeleteLimiter(tag: string)
      modifies this
      ensures limiters == old(limiters) - {tag}
    {
      limiters := limiters - {tag};
    }
  }
}
