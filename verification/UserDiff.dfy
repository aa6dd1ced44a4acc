/**
 * The difference of two user lists (node/user.go) and what applying it to the user table gives,
 * compared with building the table afresh (limiter/limiter.go).
 */
module UserDiff {
  import opened Format
  import opened LimiterTables
  import opened LimiterRuns

  function Uuids(users: seq<UserInfo>): set<string> {
    set u | u in users :: u.uuid
  }

  /** The map from uuid to the last entry of the list with that uuid. */
  function Latest(users: seq<UserInfo>): map<string, UserInfo> {
    if users == [] then map[]
    else Latest(users[..|users| - 1])[users[|users| - 1].uuid := users[|users| - 1]]
  }

  predicate SameLimits(u: UserInfo, v: UserInfo) {
    u.speedLimit == v.speedLimit && u.deviceLimit == v.deviceLimit
  }

  /** The entries of `users` that are new, or repeat a uuid already seen in `users`. */
  function Added(known: map<string, UserInfo>, users: seq<UserInfo>): seq<UserInfo> {
    if users == [] then []
    else
      var p, u := users[..|users| - 1], users[|users| - 1];
      if u.uuid in known && u.uuid !in Uuids(p) then Added(known, p) else Added(known, p) + [u]
  }

  /** The first entries of known users whose limits differ. */
  function Updated(known: map<string, UserInfo>, users: seq<UserInfo>): seq<UserInfo> {
    if users == [] then []
    else
      var p, u := users[..|users| - 1], users[|users| - 1];
      if u.uuid in known && u.uuid !in Uuids(p) && !SameLimits(known[u.uuid], u)
      then Updated(known, p) + [u] else Updated(known, p)
  }

  /** `users` holds the values of `m`, each once, in any order. */
  ghost predicate ListsValues(users: seq<UserInfo>, m: map<string, UserInfo>) {
    && |users| == |m|
    && (forall i, j :: 0 <= i < j < |users| ==> users[i].uuid != users[j].uuid)
    && (forall u :: u in users ==> u.uuid in m && m[u.uuid] == u)
    && (forall k :: k in m ==> m[k] in users)
  }

  ghost predicate WellKeyed(m: map<string, UserInfo>) {
    forall k :: k in m ==> m[k].uuid == k
  }

  lemma UuidsSnoc(users: seq<UserInfo>)
    requires users != []
    ensures Uuids(users) == Uuids(users[..|users| - 1]) + {users[|users| - 1].uuid}
  {
    var p, u := users[..|users| - 1], users[|users| - 1];
    assert users == p + [u];
    assert forall x :: x in users <==> x in p || x == u;
  }

  lemma {:induction false} LatestKeys(users: seq<UserInfo>)
    ensures Latest(users).Keys == Uuids(users) && WellKeyed(Latest(users))
    ensures forall k :: k in Latest(users) ==> Latest(users)[k] in users
  {
    if users != [] {
      var p := users[..|users| - 1];
      LatestKeys(p);
      UuidsSnoc(users);
      assert forall x :: x in p ==> x in users;
      assert users[|users| - 1] in users;
    }
  }

  method CompareUserList(was: seq<UserInfo>, users: seq<UserInfo>)
    returns (deleted: seq<UserInfo>, added: seq<UserInfo>, updated: seq<UserInfo>)
    ensures ListsValues(deleted, Latest(was) - Uuids(users))
    ensures added == Added(Latest(was), users) && updated == Updated(Latest(was), users)
  {
    var oldMap := map[];
    for i := 0 to |was|
      invariant oldMap == Latest(was[..i])
    {
      assert was[..i + 1][..i] == was[..i];
      oldMap := oldMap[was[i].uuid := was[i]];
    }
    assert was[..|was|] == was;
    ghost var known := oldMap;
    added, updated := [], [];
    for i := 0 to |users|
      invariant oldMap == known - Uuids(users[..i])
      invariant added == Added(known, users[..i]) && updated == Updated(known, users[..i])
    {
      var u, p := users[i], users[..i + 1];
      assert p[..i] == users[..i];
      UuidsSnoc(p);
      if u.uuid in oldMap {
        if !SameLimits(oldMap[u.uuid], u) {
          updated := updated + [u];
        }
        oldMap := oldMap - {u.uuid};
      } else {
        added := added + [u];
      }
    }
    assert users[..|users|] == users;
    LatestKeys(was);
    deleted := ValuesOf(oldMap);
  }

  /** Walks a map in any order. */
  method ValuesOf(m: map<string, UserInfo>) returns (values: seq<UserInfo>)
    requires WellKeyed(m)
    ensures ListsValues(values, m)
  {
    values := [];
    var rest := m;
    while |rest| > 0
      invariant rest.Keys <= m.Keys && forall k :: k in rest ==> rest[k] == m[k]
      invariant |values| + |rest| == |m|
      invariant forall i, j :: 0 <= i < j < |values| ==> values[i].uuid != values[j].uuid
      invariant forall u :: u in values ==> u.uuid in m && u.uuid !in rest && m[u.uuid] == u
      invariant forall k :: k in m && k !in rest ==> m[k] in values
      decreases |rest|
    {
      var k :| k in rest;
      values := values + [rest[k]];
      assert rest.Keys == (rest - {k}).Keys + {k};
      rest := rest - {k};
    }
  }

  /* ---------- Applying the difference, user by user ---------- */

  predicate Repeats(users: seq<UserInfo>, k: string): (r: bool)
    ensures r ==> k in Uuids(users)
  {
    users != [] &&
    var p, u := users[..|users| - 1], users[|users| - 1];
    UuidsSnoc(users);
    Repeats(p, k) || (u.uuid == k && k in Uuids(p))
  }

  function First(users: seq<UserInfo>, k: string): (u: UserInfo)
    requires k in Uuids(users)
    ensures u.uuid == k
  {
    var p := users[..|users| - 1];
    UuidsSnoc(users);
    if k in Uuids(p) then First(p, k) else users[|users| - 1]
  }

  function ApplyLimits(m: map<string, UserInfo>, users: seq<UserInfo>): map<string, UserInfo> {
    if users == [] then m
    else
      var m', u := ApplyLimits(m, users[..|users| - 1]), users[|users| - 1];
      if u.uuid in m' then m'[u.uuid := m'[u.uuid].(speedLimit := u.speedLimit, deviceLimit := u.deviceLimit)] else m'
  }

  /** What the incremental update makes of the known users. */
  function Applied(known: map<string, UserInfo>, users: seq<UserInfo>): map<string, UserInfo> {
    var kept := known - (known.Keys - Uuids(users));
    ApplyLimits(kept + Latest(Added(known, users)), Updated(known, users))
  }

  lemma {:induction false} AddedAt(known: map<string, UserInfo>, users: seq<UserInfo>, k: string)
    ensures k in Latest(Added(known, users)) <==> k in Uuids(users) && (k !in known || Repeats(users, k))
    ensures k in Latest(Added(known, users)) ==> k in Latest(users) && Latest(Added(known, users))[k] == Latest(users)[k]
  {
    if users != [] {
      var p, u := users[..|users| - 1], users[|users| - 1];
      AddedAt(known, p, k);
      UuidsSnoc(users);
      LatestKeys(p);
      LatestSnoc(Added(known, p), u);
    }
  }

  lemma LatestSnoc(users: seq<UserInfo>, u: UserInfo)
    ensures Latest(users + [u]) == Latest(users)[u.uuid := u]
  {
    assert (users + [u])[..|users|] == users;
  }

  lemma {:induction false} UpdatedAt(m: map<string, UserInfo>, known: map<string, UserInfo>, users: seq<UserInfo>, k: string)
    ensures var m' := ApplyLimits(m, Updated(known, users));
      && m'.Keys == m.Keys
      && (k in m && k in known && k in Uuids(users) && !SameLimits(known[k], First(users, k)) ==>
            m'[k] == m[k].(speedLimit := First(users, k).speedLimit, deviceLimit := First(users, k).deviceLimit))
      && (k in m && !(k in known && k in Uuids(users) && !SameLimits(known[k], First(users, k))) ==> m'[k] == m[k])
  {
    if users != [] {
      var p, u := users[..|users| - 1], users[|users| - 1];
      UpdatedAt(m, known, p, k);
      UuidsSnoc(users);
      var a := Updated(known, p);
      assert (a + [u])[..|a|] == a;
    }
  }

  /**
   * The new list may change a known user only in its limits; if it names the user twice, the first
   * mention must leave the limits alone or agree with the last one.
   */
  predicate Faithful(known: map<string, UserInfo>, users: seq<UserInfo>) {
    forall k :: k in known && k in Latest(users) ==>
      if Repeats(users, k)
      then SameLimits(known[k], First(users, k)) || SameLimits(First(users, k), Latest(users)[k])
      else known[k].id == Latest(users)[k].id
  }

  lemma {:induction false} OnceIsLatest(users: seq<UserInfo>, k: string)
    requires k in Uuids(users) && !Repeats(users, k)
    ensures k in Latest(users) && First(users, k) == Latest(users)[k]
  {
    UuidsSnoc(users);
    var p := users[..|users| - 1];
    if k in Uuids(p) {
      OnceIsLatest(p, k);
    }
  }

  lemma AppliedAt(known: map<string, UserInfo>, users: seq<UserInfo>, k: string)
    requires WellKeyed(known)
    ensures k in Applied(known, users) <==> k in Latest(users)
    ensures k in Latest(users) ==>
      (Applied(known, users)[k] == Latest(users)[k] <==>
        (k in known ==>
          if Repeats(users, k)
          then SameLimits(known[k], First(users, k)) || SameLimits(First(users, k), Latest(users)[k])
          else known[k].id == Latest(users)[k].id))
    ensures k in Applied(known, users) ==> Applied(known, users)[k].uuid == k
  {
    LatestKeys(users);
    AddedAt(known, users, k);
    var kept := known - (known.Keys - Uuids(users));
    UpdatedAt(kept + Latest(Added(known, users)), known, users, k);
    if k in Latest(users) && k in known && !Repeats(users, k) {
      OnceIsLatest(users, k);
    }
  }

  /** The incremental update equals a rebuild exactly for faithful lists. */
  lemma AppliedIsLatestIff(known: map<string, UserInfo>, users: seq<UserInfo>)
    requires WellKeyed(known)
    ensures Applied(known, users) == Latest(users) <==> Faithful(known, users)
    ensures WellKeyed(Applied(known, users))
  {
    forall k
      ensures k in Applied(known, users) <==> k in Latest(users)
      ensures k in Applied(known, users) ==> Applied(known, users)[k].uuid == k
    {
      AppliedAt(known, users, k);
    }
    if Faithful(known, users) {
      forall k | k in Latest(users)
        ensures Applied(known, users)[k] == Latest(users)[k]
      {
        AppliedAt(known, users, k);
      }
      assert Applied(known, users) == Latest(users);
    } else {
      var k :| k in known && k in Latest(users) &&
        !(if Repeats(users, k)
          then SameLimits(known[k], First(users, k)) || SameLimits(First(users, k), Latest(users)[k])
          else known[k].id == Latest(users)[k].id);
      AppliedAt(known, users, k);
    }
  }

  predicate DistinctUuids(users: seq<UserInfo>) {
    forall i, j :: 0 <= i < j < |users| ==> users[i].uuid != users[j].uuid
  }

  predicate KeepsIds(known: map<string, UserInfo>, users: seq<UserInfo>) {
    forall u :: u in users && u.uuid in known ==> known[u.uuid].id == u.id
  }

  lemma {:induction false} DistinctNeverRepeats(users: seq<UserInfo>, k: string)
    requires DistinctUuids(users)
    ensures !Repeats(users, k)
  {
    if users != [] {
      DistinctNeverRepeats(users[..|users| - 1], k);
    }
  }

  /** Lists of distinct uuids that keep their ids are faithful, and then only new users are added. */
  lemma DistinctIsFaithful(known: map<string, UserInfo>, users: seq<UserInfo>)
    requires DistinctUuids(users) && KeepsIds(known, users)
    ensures Faithful(known, users)
    ensures forall u :: u in Added(known, users) ==> u.uuid !in known
  {
    LatestKeys(users);
    forall k ensures !Repeats(users, k) { DistinctNeverRepeats(users, k); }
    forall u | u in Added(known, users)
      ensures u.uuid !in known
    {
      AddedIn(known, users, u);
      AddedAt(known, users, u.uuid);
    }
  }

  lemma {:induction false} AddedIn(known: map<string, UserInfo>, users: seq<UserInfo>, u: UserInfo)
    requires u in Added(known, users)
    ensures u in users && u.uuid in Latest(Added(known, users))
  {
    LatestKeys(Added(known, users));
    var p, last := users[..|users| - 1], users[|users| - 1];
    if u != last {
      AddedIn(known, p, u);
    }
  }

  lemma {:induction false} UpdatedIn(known: map<string, UserInfo>, users: seq<UserInfo>, u: UserInfo)
    requires u in Updated(known, users)
    ensures u in users && u.uuid in known
  {
    var p, last := users[..|users| - 1], users[|users| - 1];
    if u != last || !(last.uuid in known) {
      UpdatedIn(known, p, u);
    }
  }

  /* ---------- The user table that stands for a map of users ---------- */

  ghost predicate Mirrors(limits: map<string, UserLimit>, tag: string, m: map<string, UserInfo>) {
    && (forall k :: k in m ==> UserTag(tag, k) in limits && limits[UserTag(tag, k)] == Fresh(m[k]))
    && (forall e :: e in limits ==> |tag| < |e| && UuidOf(tag, e) in m && e == UserTag(tag, UuidOf(tag, e)))
  }

  ghost predicate Stands(s: Tables, tag: string, m: map<string, UserInfo>) {
    && WellKeyed(m) && Mirrors(s.limits, tag, m)
    && s.uuidToUid.Keys == m.Keys && forall k :: k in m ==> s.uuidToUid[k] == m[k].id
  }

  /** One table stands for at most one map, and one map is stood for by one table. */
  lemma StandsUnique(s: Tables, t: Tables, tag: string, m: map<string, UserInfo>, n: map<string, UserInfo>)
    requires Stands(s, tag, m) && Stands(t, tag, n)
    ensures m == n <==> s.limits == t.limits && s.uuidToUid == t.uuidToUid
  {
    if s.limits == t.limits {
      forall k
        ensures k in m <==> k in n
        ensures k in m ==> m[k] == n[k]
      {
        UuidOfUserTag(tag, k);
      }
      assert m == n;
    }
    if m == n {
      assert forall e :: e in s.limits ==> e in t.limits && s.limits[e] == t.limits[e];
      assert s.limits == t.limits;
    }
  }

  lemma MirrorsPut(limits: map<string, UserLimit>, tag: string, m: map<string, UserInfo>, k: string, u: UserInfo)
    requires Mirrors(limits, tag, m)
    ensures Mirrors(limits[UserTag(tag, k) := Fresh(u)], tag, m[k := u])
  {
    UuidOfUserTag(tag, k);
    var l, n, e := limits[UserTag(tag, k) := Fresh(u)], m[k := u], UserTag(tag, k);
    forall j | j in n
      ensures UserTag(tag, j) in l && l[UserTag(tag, j)] == Fresh(n[j])
    {
      if UserTag(tag, j) == e { UserTagInjective(tag, j, k); }
    }
  }

  lemma MirrorsRemove(limits: map<string, UserLimit>, tag: string, m: map<string, UserInfo>, k: string)
    requires Mirrors(limits, tag, m)
    ensures Mirrors(limits - {UserTag(tag, k)}, tag, m - {k})
  {
    UuidOfUserTag(tag, k);
    var l, n, e := limits - {UserTag(tag, k)}, m - {k}, UserTag(tag, k);
    forall j | j in n
      ensures UserTag(tag, j) in l && l[UserTag(tag, j)] == Fresh(n[j])
    {
      if UserTag(tag, j) == e { UserTagInjective(tag, j, k); }
    }
  }

  lemma AddStands(s: Tables, tag: string, m: map<string, UserInfo>, u: UserInfo)
    requires Stands(s, tag, m)
    ensures Stands(AddUser(s, tag, u), tag, m[u.uuid := u])
  {
    MirrorsPut(s.limits, tag, m, u.uuid, u);
  }

  lemma LatestOver(m: map<string, UserInfo>, users: seq<UserInfo>)
    requires users != []
    ensures m + Latest(users) == (m + Latest(users[..|users| - 1]))[users[|users| - 1].uuid := users[|users| - 1]]
  {
  }

  lemma {:induction false} AddAllStands(s: Tables, tag: string, m: map<string, UserInfo>, users: seq<UserInfo>)
    requires Stands(s, tag, m)
    ensures Stands(AddUsers(s, tag, users), tag, m + Latest(users))
  {
    if users == [] {
      assert m + Latest(users) == m;
    } else {
      var p, u := users[..|users| - 1], users[|users| - 1];
      AddAllStands(s, tag, m, p);
      LatestOver(m, users);
      AddStands(AddUsers(s, tag, p), tag, m + Latest(p), u);
    }
  }

  lemma NewTablesStand(nodeSpeed: int, tag: string, users: seq<UserInfo>, alive: map<int, int>)
    ensures Stands(NewTables(nodeSpeed, tag, users, alive), tag, Latest(users))
  {
    AddAllStands(EmptyTables(nodeSpeed, alive), tag, map[], users);
    assert map[] + Latest(users) == Latest(users);
  }

  lemma {:induction false} DeleteAllStands(s: Tables, tag: string, m: map<string, UserInfo>, users: seq<UserInfo>)
    requires Stands(s, tag, m)
    ensures Stands(DeleteUsers(s, tag, users), tag, m - Uuids(users))
  {
    if users == [] {
      assert m - Uuids(users) == m;
    } else {
      var p, u := users[..|users| - 1], users[|users| - 1];
      DeleteAllStands(s, tag, m, p);
      UuidsSnoc(users);
      assert m - Uuids(users) == (m - Uuids(p)) - {u.uuid};
      DeleteStands(DeleteUsers(s, tag, p), tag, m - Uuids(p), u);
    }
  }

  lemma DeleteStands(s: Tables, tag: string, m: map<string, UserInfo>, u: UserInfo)
    requires Stands(s, tag, m)
    ensures Stands(DeleteUser(s, tag, u), tag, m - {u.uuid})
  {
    MirrorsRemove(s.limits, tag, m, u.uuid);
  }

  lemma RelimitStands(s: Tables, tag: string, m: map<string, UserInfo>, u: UserInfo)
    requires Stands(s, tag, m)
    ensures Stands(Relimit(s, tag, u), tag,
      if u.uuid in m then m[u.uuid := m[u.uuid].(speedLimit := u.speedLimit, deviceLimit := u.deviceLimit)] else m)
  {
    if u.uuid in m {
      MirrorsPut(s.limits, tag, m, u.uuid, m[u.uuid].(speedLimit := u.speedLimit, deviceLimit := u.deviceLimit));
    } else if UserTag(tag, u.uuid) in s.limits {
      UuidOfUserTag(tag, u.uuid);
      assert false;
    }
  }

  lemma {:induction false} LimitsStand(s: Tables, tag: string, m: map<string, UserInfo>, users: seq<UserInfo>)
    requires Stands(s, tag, m)
    ensures Stands(UpdateUserLimits(s, tag, users), tag, ApplyLimits(m, users))
  {
    if users != [] {
      var p, u := users[..|users| - 1], users[|users| - 1];
      LimitsStand(s, tag, m, p);
      RelimitStands(UpdateUserLimits(s, tag, p), tag, ApplyLimits(m, p), u);
    }
  }

  /** The limiter calls of one user-diff round turn the table for `known` into the table for `Applied`. */
  lemma DiffStands(s: Tables, tag: string, known: map<string, UserInfo>, users: seq<UserInfo>, deleted: seq<UserInfo>)
    requires Stands(s, tag, known) && ListsValues(deleted, known - Uuids(users))
    ensures Stands(UpdateUserLimits(UpdateUser(s, tag, Added(known, users), deleted), tag, Updated(known, users)),
                   tag, Applied(known, users))
  {
    assert Uuids(deleted) == known.Keys - Uuids(users) by {
      forall k | k in known.Keys - Uuids(users) ensures k in Uuids(deleted) {
        assert (known - Uuids(users))[k] in deleted;
      }
    }
    DeleteAllStands(s, tag, known, deleted);
    var kept := known - (known.Keys - Uuids(users));
    AddAllStands(DeleteUsers(s, tag, deleted), tag, kept, Added(known, users));
    LimitsStand(UpdateUser(s, tag, Added(known, users), deleted), tag, kept + Latest(Added(known, users)), Updated(known, users));
  }
}
