/** The periodic round that keeps a node's limiter in step with the panel (node/task.go). */
module Monitor {
  import opened Wrappers
  import opened Format
  import opened Limiters
  import opened LimiterTables
  import opened LimiterRuns
  import opened UserDiff

  /** A node controller: its tag, the user list it last accepted, and its limiter's tables. */
  datatype Node = Node(autoTag: bool, tag: string, users: seq<UserInfo>, limiter: Tables)

  /** What the panel and the proxy server answer during one round. */
  datatype Round = Round(
    fetched: bool,                    // all three panel requests succeeded
    newTag: Option<string>,           // the tag built for a changed node configuration
    newUsers: Option<seq<UserInfo>>,  // a changed user list
    newAlive: Option<map<int, int>>,  // the alive counts
    delNodeOk: bool, certOk: bool, addNodeOk: bool, delUsersOk: bool, addUsersOk: bool)

  function WithAlive(s: Tables, newAlive: Option<map<int, int>>): Tables {
    if newAlive.Some? then s.(alive := newAlive.value) else s
  }

  function Reloaded(n: Node, r: Round): Node
    requires r.newTag.Some?
  {
    var users := if r.newUsers.Some? then r.newUsers.value else n.users;
    if !r.delNodeOk then n.(users := users)
    else if n.autoTag then
      var alive := if r.newAlive.Some? then r.newAlive.value else map[];
      n.(users := users, tag := r.newTag.value,
         limiter := NewTables(n.limiter.nodeSpeed, r.newTag.value, users, alive))
    else
      n.(users := users, limiter := WithAlive(n.limiter, r.newAlive))
  }

  /** The user-diff branch applies a list; `deleted` is the order in which the leftovers were walked. */
  predicate Commits(n: Node, r: Round) {
    && r.fetched && r.newTag.None? && r.newUsers.Some? && r.newUsers.value != []
    && (r.delUsersOk || Latest(n.users) - Uuids(r.newUsers.value) == map[])
    && (r.addUsersOk || Added(Latest(n.users), r.newUsers.value) == [])
  }

  ghost predicate RoundStep(n: Node, r: Round, n': Node) {
    if !r.fetched then n' == n
    else if r.newTag.Some? then n' == Reloaded(n, r)
    else if !Commits(n, r) then n' == n.(limiter := WithAlive(n.limiter, r.newAlive))
    else
      var known, users := Latest(n.users), r.newUsers.value;
      exists deleted :: ListsValues(deleted, known - Uuids(users)) &&
        n' == n.(users := users, limiter := DiffedTables(n, r, deleted))
  }

  function DiffedTables(n: Node, r: Round, deleted: seq<UserInfo>): Tables
    requires r.newUsers.Some?
  {
    var known, users := Latest(n.users), r.newUsers.value;
    UpdateUserLimits(
      UpdateUser(WithAlive(n.limiter, r.newAlive), n.tag, Added(known, users), deleted),
      n.tag, Updated(known, users))
  }

  /* ---------- The controller object ---------- */

  class Controller {
    const autoTag: bool
    const registry: Registry
    var tag: string
    var userList: seq<UserInfo>
    var limiter: Limiter

    /** The registry holds this controller's limiter under its current tag. */
    ghost predicate Valid()
      reads this, registry
    {
      tag in registry.limiters && registry.limiters[tag] == limiter
    }

    ghost function View(): Node
      reads this, limiter
    {
      Node(autoTag, tag, userList, limiter.View())
    }

    /** The limiter part of starting a controller (node/controller.go). */
    constructor (registry: Registry, autoTag: bool, tag: string, nodeSpeed: int, users: seq<UserInfo>, alive: map<int, int>)
      modifies registry
      ensures Valid() && this.registry == registry && this.autoTag == autoTag
      ensures this.tag == tag && userList == users && fresh(limiter)
      ensures limiter.View() == NewTables(nodeSpeed, tag, users, alive)
      ensures registry.limiters == old(registry.limiters)[tag := limiter]
    {
      var l := registry.AddLimiter(nodeSpeed, tag, users, alive);
      this.registry, this.autoTag, this.tag := registry, autoTag, tag;
      this.userList, this.limiter := users, l;
    }

    /**
     * One round.  The registry keeps exactly this controller's limiter under the current tag, nothing
     * under a tag given up, and every other controller's entry.
     */
    method NodeInfoMonitor(r: Round)
      requires Valid()
      modifies this, limiter, registry
      ensures Valid() && (limiter == old(limiter) || fresh(limiter))
      ensures RoundStep(old(View()), r, View())
      ensures Moved(old(registry.limiters), registry.limiters, old(tag), tag)
    {
      if !r.fetched {
        return;
      }
      if r.newTag.Some? {
        Reload(r);
        return;
      }
      if r.newAlive.Some? {
        limiter.alive := r.newAlive.value;
      }
      assert View() == old(View()).(limiter := WithAlive(old(limiter.View()), r.newAlive));
      if r.newUsers.None? || |r.newUsers.value| == 0 {
        return;
      }
      SyncUsers(r, r.newUsers.value, old(View()));
    }

    /** The user-diff branch, after the alive counts have been replaced. */
    method SyncUsers(r: Round, newU: seq<UserInfo>, ghost n: Node)
      requires r.fetched && r.newTag.None? && r.newUsers == Some(newU) && newU != []
      requires View() == n.(limiter := WithAlive(n.limiter, r.newAlive))
      modifies this`userList, limiter
      ensures RoundStep(n, r, View())
    {
      var deleted, added, updated := CompareUserList(userList, newU);
      ListsNothing(deleted, Latest(userList) - Uuids(newU));
      if |deleted| > 0 && !r.delUsersOk {
        return;
      }
      if |added| > 0 && !r.addUsersOk {
        return;
      }
      assert Commits(n, r);
      ApplyDiff(added, deleted, updated);
      userList := newU;
      assert limiter.View() == DiffedTables(n, r, deleted);
    }

    /** The limiter calls of a diff; a call with nothing to do is left out. */
    method ApplyDiff(added: seq<UserInfo>, deleted: seq<UserInfo>, updated: seq<UserInfo>)
      modifies limiter
      ensures limiter.View() == UpdateUserLimits(UpdateUser(old(limiter.View()), tag, added, deleted), tag, updated)
    {
      ghost var was := limiter.View();
      if |added| > 0 || |deleted| > 0 {
        limiter.UpdateUser(tag, added, deleted);
      }
      assert limiter.View() == UpdateUser(was, tag, added, deleted);
      if |updated| > 0 {
        limiter.UpdateUserLimits(tag, updated);
      }
    }

    /** The branch for a changed node configuration; what fails after the limiter is ready is only logged. */
    method Reload(r: Round)
      requires Valid() && r.newTag.Some?
      modifies this, limiter, registry
      ensures Valid() && (limiter == old(limiter) || fresh(limiter))
      ensures View() == Reloaded(old(View()), r)
      ensures Moved(old(registry.limiters), registry.limiters, old(tag), tag)
    {
      if r.newUsers.Some? {
        userList := r.newUsers.value;
      }
      if !r.delNodeOk {
        return;
      }
      if autoTag {
        RebuildLimiter(r.newTag.value, if r.newAlive.Some? then r.newAlive.value else map[]);
      }
      if r.newAlive.Some? {
        limiter.alive := r.newAlive.value;
      }
      if !r.certOk || !r.addNodeOk || !r.addUsersOk {
        return;
      }
    }

    method RebuildLimiter(newTag: string, alive: map<int, int>)
      requires Valid()
      modifies this`tag, this`limiter, registry
      ensures Valid() && fresh(limiter) && tag == newTag
      ensures limiter.View() == NewTables(old(limiter).nodeSpeed, newTag, userList, alive)
      ensures limiter.View().alive == alive && limiter.nodeSpeed == old(limiter).nodeSpeed
      ensures Moved(old(registry.limiters), registry.limiters, old(tag), tag)
    {
      if newTag != tag {
        registry.DeleteLimiter(tag);
      }
      tag := newTag;
      NewTablesAlive(limiter.nodeSpeed, newTag, userList, alive);
      limiter := registry.AddLimiter(limiter.nodeSpeed, newTag, userList, alive);
    }
  }

  /**
   * A connection looks up its node's limiter after a round: under the node's tag it finds the one the
   * round has left the controller with, under a tag given up none, and under any other what was there before.
   */
  method LookUpAfterRound(c: Controller, r: Round, tag: string) returns (l: Option<Limiter>)
    requires c.Valid()
    modifies c, c.limiter, c.registry
    ensures RoundStep(old(c.View()), r, c.View())
    ensures tag == c.tag ==> l == Some(c.limiter)
    ensures tag == old(c.tag) != c.tag ==> l == None
    ensures tag != c.tag && tag != old(c.tag) ==>
      l == if tag in old(c.registry.limiters) then Some(old(c.registry.limiters)[tag]) else None
  {
    c.NodeInfoMonitor(r);
    l := c.registry.GetLimiter(tag);
  }

  /** A tag given up has no entry left, and no third tag's entry has changed. */
  ghost predicate Moved(before: map<string, Limiter>, after: map<string, Limiter>, oldTag: string, newTag: string) {
    && (newTag != oldTag ==> oldTag !in after)
    && forall t :: t != newTag && t != oldTag ==> (t in after <==> t in before) && (t in after ==> after[t] == before[t])
  }

  lemma ListsNothing(users: seq<UserInfo>, m: map<string, UserInfo>)
    requires ListsValues(users, m)
    ensures users == [] <==> m == map[]
  {
    assert |m| == 0 <==> m == map[];
  }

  lemma NewTablesAlive(nodeSpeed: int, tag: string, users: seq<UserInfo>, alive: map<int, int>)
    ensures NewTables(nodeSpeed, tag, users, alive).alive == alive
    ensures NewTables(nodeSpeed, tag, users, alive).nodeSpeed == nodeSpeed
  {
    AddUsersEffect(EmptyTables(nodeSpeed, alive), tag, users);
  }

  /* ---------- The limiter mirrors the user list ---------- */

  /** The user tables are what a limiter built afresh from the user list would have. */
  ghost predicate InSync(n: Node) {
    var rebuilt := NewTables(n.limiter.nodeSpeed, n.tag, n.users, n.limiter.alive);
    n.limiter.limits == rebuilt.limits && n.limiter.uuidToUid == rebuilt.uuidToUid
  }

  /** Checked before a round: what the panel sends and the server answers keeps the limiter in step. */
  predicate Harmless(n: Node, r: Round) {
    if r.fetched && r.newTag.Some? then
      (n.autoTag && r.delNodeOk) || r.newUsers.None? || Latest(r.newUsers.value) == Latest(n.users)
    else
      Commits(n, r) ==> Faithful(Latest(n.users), r.newUsers.value)
  }

  lemma InSyncIff(n: Node, known: map<string, UserInfo>)
    requires Stands(n.limiter, n.tag, known)
    ensures InSync(n) <==> known == Latest(n.users)
  {
    NewTablesStand(n.limiter.nodeSpeed, n.tag, n.users, n.limiter.alive);
    StandsUnique(n.limiter, NewTables(n.limiter.nodeSpeed, n.tag, n.users, n.limiter.alive), n.tag, known, Latest(n.users));
  }

  lemma SyncStands(n: Node)
    requires InSync(n)
    ensures Stands(n.limiter, n.tag, Latest(n.users))
  {
    NewTablesStand(n.limiter.nodeSpeed, n.tag, n.users, n.limiter.alive);
  }

  /** For every round whatsoever: the limiter stays in step exactly when the round is harmless. */
  lemma RoundSyncsIff(n: Node, r: Round, n': Node)
    requires InSync(n) && RoundStep(n, r, n')
    ensures InSync(n') <==> Harmless(n, r)
  {
    SyncStands(n);
    var known := Latest(n.users);
    if !r.fetched {
    } else if r.newTag.Some? {
      if n.autoTag && r.delNodeOk {
        NewTablesAlive(n.limiter.nodeSpeed, n'.tag, n'.users, if r.newAlive.Some? then r.newAlive.value else map[]);
      } else {
        assert Stands(n'.limiter, n'.tag, known);
        InSyncIff(n', known);
      }
    } else if !Commits(n, r) {
      assert Stands(n'.limiter, n'.tag, known);
      InSyncIff(n', known);
    } else {
      var users := r.newUsers.value;
      var deleted :| ListsValues(deleted, known - Uuids(users)) &&
        n' == n.(users := users, limiter := DiffedTables(n, r, deleted));
      DiffStands(WithAlive(n.limiter, r.newAlive), n.tag, known, users, deleted);
      InSyncIff(n', Applied(known, users));
      AppliedIsLatestIff(known, users);
    }
  }

  /* ---------- Whole runs: rounds with connections and reports in between ---------- */

  datatype NodeEvent = Monitor(round: Round) | Serve(event: Event)

  ghost predicate NodeStep(n: Node, e: NodeEvent, n': Node) {
    match e
    case Monitor(r) => RoundStep(n, r, n')
    case Serve(ev) => (ev.Check? || ev.Report?) && n' == n.(limiter := n'.limiter) && Step(n.limiter, ev, n'.limiter)
  }

  ghost predicate NodeRun(states: seq<Node>, events: seq<NodeEvent>) {
    && |states| == |events| + 1
    && forall i :: 0 <= i < |events| ==> NodeStep(states[i], events[i], states[i + 1])
  }

  /** In step, tidy, and with limits in range. */
  ghost predicate Healthy(n: Node) {
    InSync(n) && Tidy(n.limiter) && InRange(n.users)
  }

  /** A list of distinct users that keep their ids, with limits in range; the node can be taken down for a reload. */
  predicate Orderly(n: Node, r: Round) {
    && (r.fetched && r.newTag.Some? ==> n.autoTag && r.delNodeOk)
    && (r.newUsers.Some? ==>
          && DistinctUuids(r.newUsers.value) && KeepsIds(Latest(n.users), r.newUsers.value)
          && forall u :: u in r.newUsers.value ==> 0 <= u.speedLimit <= 9223372036854)
  }

  lemma AddedAreNew(n: Node, users: seq<UserInfo>)
    requires InSync(n) && DistinctUuids(users) && KeepsIds(Latest(n.users), users)
    ensures Emails(n.tag, Added(Latest(n.users), users)) * n.limiter.limits.Keys == {}
  {
    SyncStands(n);
    DistinctIsFaithful(Latest(n.users), users);
    forall u | u in Added(Latest(n.users), users)
      ensures UserTag(n.tag, u.uuid) !in n.limiter.limits
    {
      UuidOfUserTag(n.tag, u.uuid);
    }
  }

  lemma DiffStaysTidy(n: Node, r: Round, deleted: seq<UserInfo>)
    requires Healthy(n) && Orderly(n, r) && Commits(n, r)
    ensures Tidy(DiffedTables(n, r, deleted))
  {
    var known, users := Latest(n.users), r.newUsers.value;
    forall u | u in Added(known, users) ensures LimitInRange(u.speedLimit) { AddedIn(known, users, u); }
    forall u | u in Updated(known, users) ensures LimitInRange(u.speedLimit) { UpdatedIn(known, users, u); }
    AddedAreNew(n, users);
    var s := WithAlive(n.limiter, r.newAlive);
    TidyAfterUpdate(s, n.tag, Added(known, users), deleted);
    TidyAfterLimits(UpdateUser(s, n.tag, Added(known, users), deleted), n.tag, Updated(known, users));
  }

  lemma RoundKeepsHealthy(n: Node, r: Round, n': Node)
    requires Healthy(n) && Orderly(n, r) && RoundStep(n, r, n')
    ensures Healthy(n')
  {
    if Commits(n, r) {
      DistinctIsFaithful(Latest(n.users), r.newUsers.value);
      var known, users := Latest(n.users), r.newUsers.value;
      var deleted :| ListsValues(deleted, known - Uuids(users)) &&
        n' == n.(users := users, limiter := DiffedTables(n, r, deleted));
      DiffStaysTidy(n, r, deleted);
    } else if r.fetched && r.newTag.Some? {
      NewTablesTidy(n.limiter.nodeSpeed, n'.tag, n'.users, if r.newAlive.Some? then r.newAlive.value else map[]);
    }
    RoundSyncsIff(n, r, n');
  }

  lemma ServeKeepsHealthy(n: Node, e: Event, n': Node)
    requires Healthy(n) && NodeStep(n, Serve(e), n')
    ensures Healthy(n')
  {
    TidyStep(n.limiter, e, n'.limiter);
    if e.Check? {
      CheckShape(n.limiter, e.email, e.ip, e.track, e.now);
    }
    SyncStands(n);
    assert Stands(n'.limiter, n'.tag, Latest(n.users));
    InSyncIff(n', Latest(n.users));
  }

  /** Whatever connections arrive in between, every orderly run keeps the limiter in step with the list. */
  lemma {:induction false} RunsStayHealthy(states: seq<Node>, events: seq<NodeEvent>, i: nat)
    requires NodeRun(states, events) && i <= |events| && Healthy(states[0])
    requires forall j :: 0 <= j < i && events[j].Monitor? ==> Orderly(states[j], events[j].round)
    ensures Healthy(states[i])
  {
    if i > 0 {
      RunsStayHealthy(states, events, i - 1);
      assert NodeStep(states[i - 1], events[i - 1], states[i]);
      match events[i - 1]
      case Monitor(r) => RoundKeepsHealthy(states[i - 1], r, states[i]);
      case Serve(e) => ServeKeepsHealthy(states[i - 1], e, states[i]);
    }
  }

  /** A controller starts healthy. */
  lemma StartsHealthy(autoTag: bool, tag: string, nodeSpeed: int, users: seq<UserInfo>, alive: map<int, int>)
    requires LimitInRange(nodeSpeed) && InRange(users)
    ensures Healthy(Node(autoTag, tag, users, NewTables(nodeSpeed, tag, users, alive)))
  {
    NewTablesTidy(nodeSpeed, tag, users, alive);
    NewTablesAlive(nodeSpeed, tag, users, alive);
  }
}
