/**
 * Each limiter operation in terms of the tables alone: what a check refuses, enters and hands out, what
 * ends a temporary limit, and what a new user list changes (limiter/limiter.go).
 */
module LimiterEffects {
  import opened Wrappers
  import opened Format
  import opened Speed
  import opened LimiterTables
  import opened LimiterRuns

  /** An IPv4 address in IPv6 form counts as the IPv4 address. */
  function Plain(ip: string): string {
    if |ip| >= 7 && ip[..7] == "::ffff:" then ip[7..] else ip
  }

  /**
   * A check refuses exactly an unknown user, and a tracked device that is neither online for its user nor
   * remembered, of a user whose positive device limit is reached by the count the panel sent for its uid.
   */
  lemma RefusesIff(s: Tables, email: string, rawIp: string, track: bool, now: int)
    ensures var ip := Plain(rawIp);
      CheckLimit(s, email, rawIp, track, now).reject <==>
        || email !in s.limits
        || (track && !(email in s.online && ip in s.online[email]) && ip !in s.previous
            && var u := s.limits[email]; u.uid in s.alive && 0 < u.deviceLimit <= s.alive[u.uid])
  {
    CheckShape(s, email, rawIp, track, now);
    assert Plain(rawIp) == TrimMapped(rawIp);
  }

  /** The device `(email, ip)` is online under the uid. */
  predicate OnlineAs(online: Online, email: string, ip: string, uid: int) {
    email in online && ip in online[email] && online[email][ip] == uid
  }

  /**
   * An accepted tracked check puts exactly its device online, under its user's uid if it was not, and
   * forgets its address exactly if the device is new and the address was remembered for that uid.
   */
  lemma AcceptedEntry(s: Tables, email: string, rawIp: string, now: int)
    requires !CheckLimit(s, email, rawIp, true, now).reject
    ensures email in s.limits
    ensures var s', ip, u := CheckLimit(s, email, rawIp, true, now).tables, Plain(rawIp), s.limits[email];
      var known := email in s.online && ip in s.online[email];
      && (forall e, i, uid :: OnlineAs(s'.online, e, i, uid) <==>
            if e == email && i == ip && !known then uid == u.uid else OnlineAs(s.online, e, i, uid))
      && s'.previous == if !known && ip in s.previous && s.previous[ip] == u.uid then s.previous - {ip} else s.previous
  {
    CheckShape(s, email, rawIp, true, now);
    var s', ip := CheckLimit(s, email, rawIp, true, now).tables, Plain(rawIp);
    assert ip == TrimMapped(rawIp);
    if !(email in s.online && ip in s.online[email]) {
      var was := if email in s.online then s.online[email] else map[];
      assert s'.online == s.online[email := was[ip := s.limits[email].uid]];
    }
  }

  /** A check that is not tracked enters nothing. */
  lemma UntrackedEntersNothing(s: Tables, email: string, rawIp: string, now: int)
    ensures var s' := CheckLimit(s, email, rawIp, false, now).tables;
      s'.online == s.online && s'.previous == s.previous
  {
    CheckShape(s, email, rawIp, false, now);
  }

  /**
   * What an accepted check hands out: the cached bucket, or a new one at 125000 times the smallest limit set
   * among the node's, the user's own and, while it lasts, the temporary one; none if there is no limit.  What
   * is handed out is cached, and no other user's bucket changes.
   */
  lemma BucketHandedOut(s: Tables, email: string, rawIp: string, track: bool, now: int)
    requires !CheckLimit(s, email, rawIp, track, now).reject
    requires email in s.limits && LimitInRange(s.nodeSpeed)
    requires LimitInRange(s.limits[email].speedLimit) && LimitInRange(s.limits[email].dynamicSpeedLimit)
    ensures var v, u := CheckLimit(s, email, rawIp, track, now), s.limits[email];
      var lasts := u.expireTime == 0 || now <= u.expireTime;
      var given := {s.nodeSpeed, u.speedLimit, if lasts then u.dynamicSpeedLimit else 0} - {0};
      && (given == {} ==> v.bucket == None)
      && (given != {} && email in s.buckets ==> v.bucket == Some(s.buckets[email]))
      && (given != {} && email !in s.buckets ==>
            exists least :: least in given && (forall x :: x in given ==> least <= x) && v.bucket == Some(125000 * least))
      && v.tables.buckets == if v.bucket.Some? then s.buckets[email := v.bucket.value] else s.buckets
  {
    var u := s.limits[email];
    var speed := UserSpeed(u, now);
    BucketAtRate(s, email, rawIp, track, now);
    RateOfLimits(s.nodeSpeed, speed);
    LeastGiven(s.nodeSpeed, u.speedLimit, if u.expireTime == 0 || now <= u.expireTime then u.dynamicSpeedLimit else 0);
    assert speed == if u.expireTime == 0 || now <= u.expireTime then DetermineSpeedLimit(u.speedLimit, u.dynamicSpeedLimit) else u.speedLimit;
  }

  lemma BucketAtRate(s: Tables, email: string, rawIp: string, track: bool, now: int)
    requires !CheckLimit(s, email, rawIp, track, now).reject && email in s.limits
    ensures var v, rate := CheckLimit(s, email, rawIp, track, now), Rate(s.nodeSpeed, UserSpeed(s.limits[email], now));
      && v.bucket == (if rate <= 0 then None else if email in s.buckets then Some(s.buckets[email]) else Some(rate))
      && v.tables.buckets == if v.bucket.Some? then s.buckets[email := v.bucket.value] else s.buckets
  {
  }

  /** Two steps find the least of three limits that are set. */
  lemma LeastGiven(a: int, b: int, c: int)
    ensures var given, least := {a, b, c} - {0}, DetermineSpeedLimit(a, DetermineSpeedLimit(b, c));
      (given == {} <==> least == 0) && (given != {} ==> least in given && forall x :: x in given ==> least <= x)
  {
    var given := {a, b, c} - {0};
    assert a != 0 ==> a in given;
    assert b != 0 ==> b in given;
    assert c != 0 ==> c in given;
  }

  /**
   * When a temporary limit has run out, the next check removes it.  A user with a limit of its own keeps its
   * row; one without loses it, and every later check of that user is refused.
   */
  lemma TemporaryLimitEnds(s: Tables, tag: string, uuid: string, limit: int, expire: int, rawIp: string, track: bool, now: int)
    requires tag + "|" + uuid in s.limits && expire != 0 && expire < now
    ensures var e := tag + "|" + uuid;
      var s' := CheckLimit(UpdateDynamicSpeedLimit(s, tag, uuid, limit, expire), e, rawIp, track, now).tables;
      && (s.limits[e].speedLimit != 0 ==> s'.limits == s.limits[e := s.limits[e].(dynamicSpeedLimit := 0, expireTime := 0)])
      && (s.limits[e].speedLimit == 0 ==> s'.limits == s.limits - {e})
      && forall ip, later :: s.limits[e].speedLimit == 0 ==> CheckLimit(s', e, ip, track, later).reject
  {
    var e := tag + "|" + uuid;
    assert e == UserTag(tag, uuid);
    var s1 := UpdateDynamicSpeedLimit(s, tag, uuid, limit, expire);
    CheckShape(s1, e, rawIp, track, now);
    assert s1.limits[e].expireTime == expire && s1.limits[e].speedLimit == s.limits[e].speedLimit;
    assert s1.limits - {e} == s.limits - {e};
    assert CheckLimit(s1, e, rawIp, track, now).tables.limits == DropExpired(s1.limits, e, now);
  }

  /** Until then it stays in force, and so does the row. */
  lemma TemporaryLimitLasts(s: Tables, tag: string, uuid: string, limit: int, expire: int, rawIp: string, track: bool, now: int)
    requires tag + "|" + uuid in s.limits && (expire == 0 || now <= expire)
    ensures var e := tag + "|" + uuid;
      CheckLimit(UpdateDynamicSpeedLimit(s, tag, uuid, limit, expire), e, rawIp, track, now).tables.limits
        == s.limits[e := s.limits[e].(dynamicSpeedLimit := limit, expireTime := expire)]
  {
    var e := tag + "|" + uuid;
    assert e == UserTag(tag, uuid);
    CheckShape(UpdateDynamicSpeedLimit(s, tag, uuid, limit, expire), e, rawIp, track, now);
  }

  /* ---------- New limits ---------- */

  predicate DistinctUsers(users: seq<UserInfo>) {
    forall i, j :: 0 <= i < j < |users| ==> users[i].uuid != users[j].uuid
  }

  /** A user that the list does not name keeps its row, its devices and its bucket. */
  lemma {:induction false} UnnamedKeeps(s: Tables, tag: string, users: seq<UserInfo>, e: string)
    requires forall u :: u in users ==> tag + "|" + u.uuid != e
    ensures var s' := UpdateUserLimits(s, tag, users);
      && (e in s'.limits <==> e in s.limits) && (e in s.limits ==> s'.limits[e] == s.limits[e])
      && (e in s'.online <==> e in s.online) && (e in s.online ==> s'.online[e] == s.online[e])
      && (e in s'.buckets <==> e in s.buckets) && (e in s.buckets ==> s'.buckets[e] == s.buckets[e])
  {
    if users != [] {
      var u := users[|users| - 1];
      UnnamedKeeps(s, tag, users[..|users| - 1], e);
      assert u in users && UserTag(tag, u.uuid) == tag + "|" + u.uuid;
    }
  }

  /**
   * A user that the list names once gets the new limits; it loses its bucket exactly if the speed limit
   * changes, and its devices exactly if the device limit becomes positive from none, or lower.
   */
  lemma {:induction false} NamedChanges(s: Tables, tag: string, users: seq<UserInfo>, i: nat)
    requires DistinctUsers(users) && i < |users| && tag + "|" + users[i].uuid in s.limits
    ensures var s', u, e := UpdateUserLimits(s, tag, users), users[i], tag + "|" + users[i].uuid;
      var was := s.limits[e];
      && e in s'.limits && s'.limits[e] == was.(speedLimit := u.speedLimit, deviceLimit := u.deviceLimit)
      && (e in s'.buckets <==> e in s.buckets && u.speedLimit == was.speedLimit)
      && (e in s'.online <==>
            e in s.online && !(u.deviceLimit > 0 && (was.deviceLimit == 0 || u.deviceLimit < was.deviceLimit)))
  {
    var p, last := users[..|users| - 1], users[|users| - 1];
    var e := tag + "|" + users[i].uuid;
    assert e == UserTag(tag, users[i].uuid);
    if i < |p| {
      NamedChanges(s, tag, p, i);
      if UserTag(tag, last.uuid) == e { UserTagInjective(tag, last.uuid, users[i].uuid); }
    } else {
      forall u | u in p ensures tag + "|" + u.uuid != e {
        if UserTag(tag, u.uuid) == e { UserTagInjective(tag, u.uuid, last.uuid); }
      }
      UnnamedKeeps(s, tag, p, e);
    }
  }
}
