/**
 * The limiter's tables as a value, and what each operation makes of them
 * (limiter/limiter.go, limiter/dynamic.go).  The class in Limiter.dfy updates the same tables in
 * place and is proved to follow these functions.
 */
module LimiterTables {
  import opened Wrappers
  import opened Format
  import opened Speed

  /** One user of the panel's list. */
  datatype UserInfo = UserInfo(id: int, uuid: string, speedLimit: int, deviceLimit: int)

  /** One row of the user table. */
  datatype UserLimit = UserLimit(uid: int, speedLimit: int, deviceLimit: int, dynamicSpeedLimit: int, expireTime: int)

  /** One (user, address) pair of an online report. */
  datatype OnlineUser = OnlineUser(uid: int, ip: string)

  type Online = map<string, map<string, int>>

  datatype Tables = Tables(
    nodeSpeed: int,
    limits: map<string, UserLimit>,   // by user key
    online: Online,                   // by user key, then by address: the uid
    previous: map<string, int>,       // by address: the uid of the previous period
    buckets: map<string, int>,        // by user key: the rate
    uuidToUid: map<string, int>,
    alive: map<int, int>)             // by uid: addresses alive on all nodes

  function TrimMapped(ip: string): string {
    if "::ffff:" <= ip then ip[7..] else ip
  }

  function AliveCount(s: Tables, uid: int): int {
    if uid in s.alive then s.alive[uid] else 0
  }

  /* ---------- CheckLimit ---------- */

  predicate IsOnline(s: Tables, email: string, ip: string) {
    email in s.online && ip in s.online[email]
  }

  /** The user has a device limit and its alive count has reached it. */
  predicate Full(s: Tables, u: UserLimit) {
    0 < u.deviceLimit <= AliveCount(s, u.uid)
  }

  predicate Expired(u: UserLimit, now: int) {
    u.expireTime != 0 && u.expireTime < now
  }

  /** Why a connection is refused: an unknown user, or a new device of a user that is full. */
  predicate Refuses(s: Tables, email: string, ip: string, track: bool) {
    email !in s.limits
    || (track && !IsOnline(s, email, ip) && ip !in s.previous && Full(s, s.limits[email]))
  }

  /** The user table after an expired temporary limit has been dropped. */
  function DropExpired(limits: map<string, UserLimit>, email: string, now: int): map<string, UserLimit>
    requires email in limits
  {
    var u := limits[email];
    if !Expired(u, now) then limits
    else if u.speedLimit != 0 then limits[email := u.(dynamicSpeedLimit := 0, expireTime := 0)]
    else limits - {email}
  }

  /** The user's own speed limit at this moment. */
  function UserSpeed(u: UserLimit, now: int): int {
    if Expired(u, now) then u.speedLimit else DetermineSpeedLimit(u.speedLimit, u.dynamicSpeedLimit)
  }

  function WithDevice(online: Online, email: string, ip: string, uid: int): Online {
    online[email := (if email in online then online[email] else map[])[ip := uid]]
  }

  /** The tables after the device step of an accepted connection. */
  function Tracked(s: Tables, email: string, ip: string, uid: int): Tables {
    if IsOnline(s, email, ip) then s
    else
      s.(online := WithDevice(s.online, email, ip, uid),
         previous := if ip in s.previous && s.previous[ip] == uid then s.previous - {ip} else s.previous)
  }

  datatype Verdict = Verdict(tables: Tables, bucket: Option<int>, reject: bool)

  /** Hands out the cached bucket, or caches a new one, when the node or the user has a speed limit. */
  function TakeBucket(s: Tables, email: string, rate: int): Verdict {
    if rate <= 0 then Verdict(s, None, false)
    else if email in s.buckets then Verdict(s, Some(s.buckets[email]), false)
    else Verdict(s.(buckets := s.buckets[email := rate]), Some(rate), false)
  }

  function CheckLimit(s: Tables, email: string, rawIp: string, track: bool, now: int): Verdict {
    var ip := TrimMapped(rawIp);
    if email !in s.limits then Verdict(s, None, true)
    else
      var u := s.limits[email];
      var s1 := s.(limits := DropExpired(s.limits, email, now));
      if Refuses(s, email, ip, track) then Verdict(s1, None, true)
      else
        var s2 := if track then Tracked(s1, email, ip, u.uid) else s1;
        TakeBucket(s2, email, Rate(s.nodeSpeed, UserSpeed(u, now)))
  }

  /* ---------- User list changes ---------- */

  function Fresh(u: UserInfo): UserLimit {
    UserLimit(u.id, u.speedLimit, u.deviceLimit, 0, 0)
  }

  function DeleteUser(s: Tables, tag: string, u: UserInfo): Tables {
    var e := UserTag(tag, u.uuid);
    s.(limits := s.limits - {e}, online := s.online - {e}, buckets := s.buckets - {e},
       uuidToUid := s.uuidToUid - {u.uuid}, alive := s.alive - {u.id})
  }

  function AddUser(s: Tables, tag: string, u: UserInfo): Tables {
    s.(limits := s.limits[UserTag(tag, u.uuid) := Fresh(u)], uuidToUid := s.uuidToUid[u.uuid := u.id])
  }

  function DeleteUsers(s: Tables, tag: string, users: seq<UserInfo>): Tables {
    if users == [] then s
    else DeleteUser(DeleteUsers(s, tag, users[..|users| - 1]), tag, users[|users| - 1])
  }

  function AddUsers(s: Tables, tag: string, users: seq<UserInfo>): Tables {
    if users == [] then s
    else AddUser(AddUsers(s, tag, users[..|users| - 1]), tag, users[|users| - 1])
  }

  function UpdateUser(s: Tables, tag: string, added: seq<UserInfo>, deleted: seq<UserInfo>): Tables {
    AddUsers(DeleteUsers(s, tag, deleted), tag, added)
  }

  /** A positive device limit below the old one, where an old limit of zero meant none. */
  predicate Stricter(u: UserInfo, was: UserLimit) {
    u.deviceLimit > 0 && (was.deviceLimit == 0 || u.deviceLimit < was.deviceLimit)
  }

  function Relimit(s: Tables, tag: string, u: UserInfo): Tables {
    var e := UserTag(tag, u.uuid);
    if e !in s.limits then s
    else
      var l := s.limits[e];
      s.(limits := s.limits[e := l.(speedLimit := u.speedLimit, deviceLimit := u.deviceLimit)],
         buckets := if u.speedLimit != l.speedLimit then s.buckets - {e} else s.buckets,
         online := if Stricter(u, l) then s.online - {e} else s.online)
  }

  function UpdateUserLimits(s: Tables, tag: string, users: seq<UserInfo>): Tables {
    if users == [] then s
    else Relimit(UpdateUserLimits(s, tag, users[..|users| - 1]), tag, users[|users| - 1])
  }

  /** The tables of a new limiter before its users are entered. */
  function EmptyTables(nodeSpeed: int, alive: map<int, int>): Tables {
    Tables(nodeSpeed, map[], map[], map[], map[], map[], alive)
  }

  function NewTables(nodeSpeed: int, tag: string, users: seq<UserInfo>, alive: map<int, int>): Tables {
    AddUsers(EmptyTables(nodeSpeed, alive), tag, users)
  }

  /* ---------- Temporary speed limits ---------- */

  function UpdateDynamicSpeedLimit(s: Tables, tag: string, uuid: string, limit: int, expire: int): Tables {
    var e := UserTag(tag, uuid);
    if e in s.limits
    then s.(limits := s.limits[e := s.limits[e].(dynamicSpeedLimit := limit, expireTime := expire)])
    else s
  }

  /* ---------- GetOnlineDevice ---------- */

  /** All (user key, address) pairs online. */
  ghost function Pairs(online: Online): set<(string, string)> {
    set e, ip | e in online && ip in online[e] :: (e, ip)
  }

  /** `keys` lists the online pairs of the given users, once each, in whatever order the maps were walked. */
  ghost predicate Covers(online: Online, users: set<string>, keys: seq<(string, string)>) {
    && (forall i, j :: 0 <= i < j < |keys| ==> keys[i] != keys[j])
    && (forall k :: k in keys <==> k.0 in users && k.0 in online && k.1 in online[k.0])
  }

  ghost predicate RowsOf(online: Online, keys: seq<(string, string)>, out: seq<OnlineUser>) {
    && |out| == |keys|
    && forall i :: 0 <= i < |keys| ==>
         && keys[i].0 in online && keys[i].1 in online[keys[i].0]
         && out[i] == OnlineUser(online[keys[i].0][keys[i].1], keys[i].1)
  }

  /** The previous-period table: the last row reported for an address wins. */
  function Recorded(out: seq<OnlineUser>): map<string, int> {
    if out == [] then map[]
    else Recorded(out[..|out| - 1])[out[|out| - 1].ip := out[|out| - 1].uid]
  }

  /** Each online pair has one row, in whatever order the maps were walked. */
  ghost predicate ListsOnce(online: Online, out: seq<OnlineUser>) {
    exists keys :: Covers(online, online.Keys, keys) && RowsOf(online, keys, out)
  }

  /** One report: each online pair appears once, then the period starts over. */
  ghost predicate Reports(s: Tables, out: seq<OnlineUser>, s': Tables) {
    && ListsOnce(s.online, out)
    && s' == s.(online := map[], previous := Recorded(out))
  }
}
