/**
 * When a monitor round takes effect, and what it then does to users, devices and limits, in terms of the
 * lists and tables alone (node/task.go, node/user.go).
 */
module RoundEffects {
  import opened Wrappers
  import opened Format
  import opened LimiterTables
  import opened LimiterRuns
  import opened LimiterEffects
  import opened UserDiff
  import opened Monitor

  predicate Names(users: seq<UserInfo>, uuid: string) {
    exists i :: 0 <= i < |users| && users[i].uuid == uuid
  }

  /** The new list leaves out a listed user. */
  predicate Leaves(was: seq<UserInfo>, users: seq<UserInfo>) {
    exists i :: 0 <= i < |was| && !Names(users, was[i].uuid)
  }

  /** The new list has an entry whose uuid was not listed, or comes earlier in the new list too. */
  predicate Brings(was: seq<UserInfo>, users: seq<UserInfo>) {
    exists i :: 0 <= i < |users| && BringsAt(was, users, i)
  }

  lemma NamesUuid(users: seq<UserInfo>, uuid: string)
    ensures Names(users, uuid) <==> uuid in Uuids(users)
    ensures Names(users, uuid) <==> uuid in Latest(users)
  {
    LatestKeys(users);
    if u :| u in users && u.uuid == uuid {
      var i :| 0 <= i < |users| && users[i] == u;
    }
  }

  lemma LeavesIff(was: seq<UserInfo>, users: seq<UserInfo>)
    ensures Leaves(was, users) <==> Latest(was) - Uuids(users) != map[]
  {
    var gone := Latest(was) - Uuids(users);
    if Leaves(was, users) {
      var i :| 0 <= i < |was| && !Names(users, was[i].uuid);
      NamesUuid(users, was[i].uuid);
      NamesUuid(was, was[i].uuid);
      assert was[i].uuid in gone;
    }
    if gone != map[] {
      var k :| k in gone;
      NamesUuid(was, k);
      NamesUuid(users, k);
      var i :| 0 <= i < |was| && was[i].uuid == k;
    }
  }

  /** The `i`-th entry is one that the list brings. */
  predicate BringsAt(was: seq<UserInfo>, users: seq<UserInfo>, i: nat)
    requires i < |users|
  {
    !Names(was, users[i].uuid) || Names(users[..i], users[i].uuid)
  }

  lemma BringsMore(was: seq<UserInfo>, users: seq<UserInfo>)
    requires users != []
    ensures Brings(was, users) <==> Brings(was, users[..|users| - 1]) || BringsAt(was, users, |users| - 1)
  {
    var n := |users| - 1;
    var p := users[..n];
    forall i: nat | i < n ensures BringsAt(was, p, i) <==> BringsAt(was, users, i) {
      assert p[..i] == users[..i];
    }
    if i :| 0 <= i < |p| && BringsAt(was, p, i) { assert BringsAt(was, users, i); }
    if i :| 0 <= i < |users| && BringsAt(was, users, i) { assert i < n ==> BringsAt(was, p, i); }
  }

  lemma {:induction false} BringsIff(was: seq<UserInfo>, users: seq<UserInfo>)
    ensures Brings(was, users) <==> Added(Latest(was), users) != []
  {
    if users != [] {
      var n := |users| - 1;
      BringsIff(was, users[..n]);
      BringsMore(was, users);
      NamesUuid(was, users[n].uuid);
      NamesUuid(users[..n], users[n].uuid);
    }
  }

  /**
   * A round without a reload accepts the panel's list exactly when there is one that is not empty and every
   * server call that the difference needs succeeds; otherwise it changes nothing but the alive counts.
   */
  lemma AcceptsIff(n: Node, r: Round, n': Node)
    requires RoundStep(n, r, n') && r.fetched && r.newTag.None?
    ensures var accepted := r.newUsers.Some? && |r.newUsers.value| > 0
        && (r.delUsersOk || !Leaves(n.users, r.newUsers.value)) && (r.addUsersOk || !Brings(n.users, r.newUsers.value));
      && n'.tag == n.tag && n'.users == (if accepted then r.newUsers.value else n.users)
      && (!accepted ==> n' == n.(limiter := n.limiter.(alive := if r.newAlive.Some? then r.newAlive.value else n.limiter.alive)))
  {
    if r.newUsers.Some? {
      LeavesIff(n.users, r.newUsers.value);
      BringsIff(n.users, r.newUsers.value);
    }
  }

  /** A round whose requests to the panel fail changes nothing. */
  lemma UnfetchedKeeps(n: Node, r: Round, n': Node)
    requires RoundStep(n, r, n') && !r.fetched
    ensures n' == n
  {
  }

  /** The round that accepts the list. */
  ghost predicate Accepts(n: Node, r: Round, n': Node) {
    && RoundStep(n, r, n') && r.fetched && r.newTag.None? && r.newUsers.Some? && |r.newUsers.value| > 0
    && (r.delUsersOk || !Leaves(n.users, r.newUsers.value)) && (r.addUsersOk || !Brings(n.users, r.newUsers.value))
  }

  lemma AcceptedDiff(n: Node, r: Round, n': Node) returns (deleted: seq<UserInfo>)
    requires Accepts(n, r, n')
    ensures var users := r.newUsers.value;
      && ListsValues(deleted, Latest(n.users) - Uuids(users))
      && n' == n.(users := users, limiter := DiffedTables(n, r, deleted))
  {
    var known, users := Latest(n.users), r.newUsers.value;
    LeavesIff(n.users, users);
    BringsIff(n.users, users);
    deleted :| ListsValues(deleted, known - Uuids(users)) && n' == n.(users := users, limiter := DiffedTables(n, r, deleted));
  }

  /** The table stands for a map with exactly the given users. */
  ghost predicate StandsFor(s: Tables, tag: string, m: map<string, UserInfo>, users: seq<UserInfo>) {
    Stands(s, tag, m) && forall k :: k in m <==> Names(users, k)
  }

  lemma AcceptedStands(n: Node, r: Round, n': Node) returns (m: map<string, UserInfo>)
    requires InSync(n) && Accepts(n, r, n')
    ensures StandsFor(n'.limiter, n.tag, m, r.newUsers.value)
  {
    var known, users := Latest(n.users), r.newUsers.value;
    var deleted := AcceptedDiff(n, r, n');
    SyncStands(n);
    DiffStands(WithAlive(n.limiter, r.newAlive), n.tag, known, users, deleted);
    LatestKeys(n.users);
    m := Applied(known, users);
    forall k ensures k in m <==> Names(users, k) {
      AppliedAt(known, users, k);
      NamesUuid(users, k);
    }
  }

  lemma StandsRows(s: Tables, tag: string, m: map<string, UserInfo>, users: seq<UserInfo>)
    requires StandsFor(s, tag, m, users)
    ensures forall uuid :: UserTag(tag, uuid) in s.limits <==> Names(users, uuid)
    ensures forall e :: e in s.limits ==> exists i :: 0 <= i < |users| && e == UserTag(tag, users[i].uuid)
  {
    forall uuid ensures UserTag(tag, uuid) in s.limits <==> Names(users, uuid) {
      UuidOfUserTag(tag, uuid);
    }
    forall e | e in s.limits ensures exists i :: 0 <= i < |users| && e == UserTag(tag, users[i].uuid) {
      assert Names(users, UuidOf(tag, e));
    }
  }

  /** After an accepted list, exactly its users may connect: each has a row, and nobody else has. */
  lemma AcceptedUsersHaveRows(n: Node, r: Round, n': Node)
    requires InSync(n) && Accepts(n, r, n')
    ensures forall uuid :: n.tag + "|" + uuid in n'.limiter.limits <==> Names(r.newUsers.value, uuid)
    ensures forall e :: e in n'.limiter.limits ==> exists i :: 0 <= i < |r.newUsers.value| && e == n.tag + "|" + r.newUsers.value[i].uuid
  {
    var m := AcceptedStands(n, r, n');
    StandsRows(n'.limiter, n.tag, m, r.newUsers.value);
  }

  /** What an accepted list leaves of a user's devices and bucket when it leaves the user out. */
  lemma LeftOutLoseAll(n: Node, r: Round, n': Node, i: nat)
    requires Accepts(n, r, n') && i < |n.users| && !Names(r.newUsers.value, n.users[i].uuid)
    ensures var e := n.tag + "|" + n.users[i].uuid; e !in n'.limiter.online && e !in n'.limiter.buckets
  {
    var known, users, k := Latest(n.users), r.newUsers.value, n.users[i].uuid;
    var deleted := AcceptedDiff(n, r, n');
    var e, s := n.tag + "|" + k, WithAlive(n.limiter, r.newAlive);
    assert e == UserTag(n.tag, k);
    NamesUuid(users, k);
    NamesUuid(n.users, k);
    assert (known - Uuids(users))[k] in deleted;
    LatestKeys(n.users);
    assert known[k].uuid == k;
    DeleteUsersEffect(s, n.tag, deleted);
    AddUsersEffect(DeleteUsers(s, n.tag, deleted), n.tag, Added(known, users));
    LimitsEffect(UpdateUser(s, n.tag, Added(known, users), deleted), n.tag, Updated(known, users));
  }

  lemma {:induction false} UpdatedDistinct(known: map<string, UserInfo>, users: seq<UserInfo>)
    requires DistinctUuids(users)
    ensures DistinctUsers(Updated(known, users))
  {
    if users != [] {
      var p, u := users[..|users| - 1], users[|users| - 1];
      UpdatedDistinct(known, p);
      forall v | v in Updated(known, p) ensures v.uuid != u.uuid {
        UpdatedIn(known, p, v);
      }
    }
  }

  lemma {:induction false} UpdatedHas(known: map<string, UserInfo>, users: seq<UserInfo>, i: nat)
    requires DistinctUuids(users) && i < |users| && users[i].uuid in known
    ensures users[i] in Updated(known, users) <==> !SameLimits(known[users[i].uuid], users[i])
    ensures SameLimits(known[users[i].uuid], users[i]) ==> forall u :: u in Updated(known, users) ==> u.uuid != users[i].uuid
  {
    var p, u := users[..|users| - 1], users[|users| - 1];
    forall v | v in Updated(known, p) ensures exists j :: 0 <= j < |p| && p[j] == v { UpdatedIn(known, p, v); }
    if i < |p| {
      UpdatedHas(known, p, i);
    } else {
      NamesUuid(p, u.uuid);
    }
  }

  /**
   * A user that was listed and still is keeps its devices exactly unless its device limit has become
   * positive from none, or lower, and its bucket exactly if its speed limit is the same.
   */
  lemma KeptUsersKeepDevicesIff(n: Node, r: Round, n': Node, i: nat)
    requires InSync(n) && Accepts(n, r, n') && DistinctUuids(r.newUsers.value)
    requires i < |r.newUsers.value| && Names(n.users, r.newUsers.value[i].uuid)
    ensures var u := r.newUsers.value[i];
      var e := n.tag + "|" + u.uuid;
      && e in n.limiter.limits
      && var was := n.limiter.limits[e];
      && (e in n'.limiter.online <==>
            e in n.limiter.online && !(u.deviceLimit > 0 && (was.deviceLimit == 0 || u.deviceLimit < was.deviceLimit)))
      && (e in n'.limiter.buckets <==> e in n.limiter.buckets && u.speedLimit == was.speedLimit)
  {
    var known, users := Latest(n.users), r.newUsers.value;
    var u := users[i];
    var e, s := UserTag(n.tag, u.uuid), WithAlive(n.limiter, r.newAlive);
    var deleted := AcceptedDiff(n, r, n');
    SyncStands(n);
    NamesUuid(n.users, u.uuid);
    assert n.limiter.limits[e] == Fresh(known[u.uuid]);
    KeptUntouched(n, users, deleted, s, u);
    var m := UpdateUser(s, n.tag, Added(known, users), deleted);
    UpdatedHas(known, users, i);
    if SameLimits(known[u.uuid], u) {
      forall v | v in Updated(known, users) ensures n.tag + "|" + v.uuid != e {
        if UserTag(n.tag, v.uuid) == e { UserTagInjective(n.tag, v.uuid, u.uuid); }
      }
      UnnamedKeeps(m, n.tag, Updated(known, users), e);
    } else {
      UpdatedDistinct(known, users);
      var j :| 0 <= j < |Updated(known, users)| && Updated(known, users)[j] == u;
      NamedChanges(m, n.tag, Updated(known, users), j);
    }
  }

  /** Deleting and adding leave a kept user's row, devices and bucket alone. */
  lemma KeptUntouched(n: Node, users: seq<UserInfo>, deleted: seq<UserInfo>, s: Tables, u: UserInfo)
    requires DistinctUuids(users) && ListsValues(deleted, Latest(n.users) - Uuids(users))
    requires u in users && u.uuid in Latest(n.users) && UserTag(n.tag, u.uuid) in s.limits
    ensures var e, m := UserTag(n.tag, u.uuid), UpdateUser(s, n.tag, Added(Latest(n.users), users), deleted);
      && e in m.limits && m.limits[e] == s.limits[e]
      && (e in m.online <==> e in s.online) && (e in m.buckets <==> e in s.buckets)
  {
    var known, e := Latest(n.users), UserTag(n.tag, u.uuid);
    DeleteUsersEffect(s, n.tag, deleted);
    AddUsersEffect(DeleteUsers(s, n.tag, deleted), n.tag, Added(known, users));
    forall v | v in deleted ensures UserTag(n.tag, v.uuid) != e {
      if UserTag(n.tag, v.uuid) == e { UserTagInjective(n.tag, v.uuid, u.uuid); }
    }
    forall v | v in Added(known, users) ensures UserTag(n.tag, v.uuid) != e {
      AddedIn(known, users, v);
      AddedAt(known, users, v.uuid);
      DistinctNeverRepeats(users, v.uuid);
      if UserTag(n.tag, v.uuid) == e { UserTagInjective(n.tag, v.uuid, u.uuid); }
    }
  }

  /* ---------- Reloads ---------- */

  /**
   * A reload takes over the panel's list whatever it is, even before the node is taken down.  It starts with
   * an empty limiter under the new tag, with one row for each listed user, exactly if the node's tag follows
   * its configuration and the node could be taken down; otherwise it leaves tag and limiter as they were,
   * but for the alive counts of a node that was taken down.
   */
  lemma ReloadEffect(n: Node, r: Round, n': Node)
    requires RoundStep(n, r, n') && r.fetched && r.newTag.Some?
    ensures n'.users == if r.newUsers.Some? then r.newUsers.value else n.users
    ensures n.autoTag && r.delNodeOk ==>
      && n'.tag == r.newTag.value
      && n'.limiter.online == map[] && n'.limiter.previous == map[] && n'.limiter.buckets == map[]
      && n'.limiter.alive == (if r.newAlive.Some? then r.newAlive.value else map[])
      && (forall uuid :: n'.tag + "|" + uuid in n'.limiter.limits <==> Names(n'.users, uuid))
    ensures !(n.autoTag && r.delNodeOk) ==>
      n'.tag == n.tag && n'.limiter == n.limiter.(alive := if r.delNodeOk && r.newAlive.Some? then r.newAlive.value else n.limiter.alive)
  {
    if n.autoTag && r.delNodeOk {
      var alive := if r.newAlive.Some? then r.newAlive.value else map[];
      AddUsersEffect(EmptyTables(n.limiter.nodeSpeed, alive), n'.tag, n'.users);
      NewTablesStand(n.limiter.nodeSpeed, n'.tag, n'.users, alive);
      forall uuid ensures n'.tag + "|" + uuid in n'.limiter.limits <==> Names(n'.users, uuid) {
        NamesUuid(n'.users, uuid);
        UuidOfUserTag(n'.tag, uuid);
        assert n'.tag + "|" + uuid == UserTag(n'.tag, uuid);
      }
    }
  }
}
