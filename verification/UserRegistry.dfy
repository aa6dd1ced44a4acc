/**
 * The uid table beside the proxy's user manager (core/xray/user.go, node/controller.go): the two
 * operations as loops, and a background import interleaved with monitor rounds.
 */
module UserRegistry {

  /* ---------- AddUsers and DelUsers, one call at a time ---------- */

  class Xray {
    var uidMap: map<string, int>
    var manager: set<string>   // users registered in the proxy's user manager
    var counters: set<string>  // users with a traffic counter
    var links: set<string>     // users with a link manager

    /** Whoever may connect has a uid to be billed under. */
    ghost predicate Valid()
      reads this
    {
      manager <= uidMap.Keys
    }

    method EnterUids(users: seq<(string, int)>)
      modifies this`uidMap
      ensures uidMap == Entered(old(uidMap), users)
    {
      for i := 0 to |users|
        invariant uidMap == Entered(old(uidMap), users[..i])
      {
        assert users[..i + 1][..i] == users[..i];
        uidMap := uidMap[users[i].0 := users[i].1];
      }
      assert users[..|users|] == users;
    }

    /** `failAt` is the first user the manager refuses; a list shorter than that goes through. */
    method AddUsers(users: seq<(string, int)>, failAt: nat) returns (added: nat, ok: bool)
      requires Valid()
      modifies this`uidMap, this`manager
      ensures Valid() && (ok <==> failAt >= |users|) && added == (if ok then |users| else 0)
      ensures uidMap == Entered(old(uidMap), users)
      ensures manager == old(manager) + Tags(users[..if ok then |users| else failAt])
    {
      EnterUids(users);
      EnteredKeys(old(uidMap), users);
      for i := 0 to |users|
        invariant i <= failAt && manager == old(manager) + Tags(users[..i]) && Valid()
        invariant uidMap == Entered(old(uidMap), users)
      {
        if i == failAt {
          return 0, false;
        }
        assert users[..i + 1] == users[..i] + [users[i]];
        assert users[i] in users;
        manager := manager + {users[i].0};
      }
      assert users[..|users|] == users;
      return |users|, true;
    }

    method DelUsers(tags: seq<string>, failAt: nat) returns (ok: bool)
      requires Valid()
      modifies this
      ensures Valid() && (ok <==> failAt >= |tags|)
      ensures var gone := set t | t in tags;
        if ok then
          && manager == old(manager) - gone && uidMap == old(uidMap) - gone
          && counters == old(counters) - gone && links == old(links) - gone
        else
          && manager == old(manager) - (set t | t in tags[..failAt])
          && uidMap == old(uidMap) && counters == old(counters) && links == old(links)
    {
      for i := 0 to |tags|
        invariant i <= failAt && manager == old(manager) - (set t | t in tags[..i])
        invariant uidMap == old(uidMap) && counters == old(counters) && links == old(links)
      {
        if i == failAt {
          return false;
        }
        assert tags[..i + 1] == tags[..i] + [tags[i]];
        manager := manager - {tags[i]};
      }
      assert tags[..|tags|] == tags;
      for i := 0 to |tags|
        invariant uidMap == old(uidMap) - (set t | t in tags[..i])
        invariant manager == old(manager) - (set t | t in tags) && counters == old(counters) && links == old(links)
      {
        assert tags[..i + 1] == tags[..i] + [tags[i]];
        uidMap := uidMap - {tags[i]};
      }
      for i := 0 to |tags|
        invariant uidMap == old(uidMap) - (set t | t in tags) && manager == old(manager) - (set t | t in tags)
        invariant counters == old(counters) - (set t | t in tags[..i]) && links == old(links) - (set t | t in tags[..i])
      {
        assert tags[..i + 1] == tags[..i] + [tags[i]];
        counters := counters - {tags[i]};
        links := links - {tags[i]};
      }
      return true;
    }
  }

  ghost function Tags(users: seq<(string, int)>): set<string> {
    set u | u in users :: u.0
  }

  function Entered(m: map<string, int>, users: seq<(string, int)>): map<string, int> {
    if users == [] then m
    else Entered(m, users[..|users| - 1])[users[|users| - 1].0 := users[|users| - 1].1]
  }

  lemma {:induction false} EnteredKeys(m: map<string, int>, users: seq<(string, int)>)
    ensures Entered(m, users).Keys == m.Keys + Tags(users)
  {
    if users != [] {
      var p, u := users[..|users| - 1], users[|users| - 1];
      EnteredKeys(m, p);
      assert users == p + [u];
    }
  }

  /** The entry of a user that the list names is that of its last mention; every other entry is as it was. */
  lemma {:induction false} EnteredAt(m: map<string, int>, users: seq<(string, int)>, k: string)
    ensures k !in Tags(users) ==> (k in Entered(m, users) <==> k in m) && (k in m ==> Entered(m, users)[k] == m[k])
    ensures k in Tags(users) ==> k in Entered(m, users) && exists i ::
      0 <= i < |users| && users[i] == (k, Entered(m, users)[k]) && forall j :: i < j < |users| ==> users[j].0 != k
  {
    if users != [] {
      var n := |users| - 1;
      var p, u := users[..n], users[n];
      EnteredAt(m, p, k);
      assert users == p + [u];
      if u.0 == k {
        assert users[n] == (k, Entered(m, users)[k]);
      } else if k in Tags(p) {
        var i :| 0 <= i < |p| && p[i] == (k, Entered(m, p)[k]) && forall j :: i < j < |p| ==> p[j].0 != k;
        assert users[i] == (k, Entered(m, users)[k]);
      }
    }
  }

  /* ---------- A background import against monitor rounds ---------- */

  /** Where the monitor's round stands; `next` is the list it will accept in the end. */
  datatype Pc =
    | Idle
    | Deleting(todo: seq<string>, done: set<string>, added: seq<string>, next: set<string>)
    | Entering(added: seq<string>, next: set<string>)
    | Adding(rest: seq<string>, next: set<string>)

  datatype Users = Users(
    strict: bool,           // the manager refuses to remove a user it does not have
    known: set<string>,     // users with an entry in the uid table
    manager: set<string>,
    list: set<string>,      // the user list last accepted
    entered: bool,          // the import has filled the uid table
    pending: seq<string>,   // users the import has still to register
    monitor: Pc)

  datatype Event =
    | ImportEnter
    | ImportAdd(ok: bool)
    | BeginRound(next: set<string>, deleted: seq<string>, added: seq<string>)
    | Remove(ok: bool)
    | Forget
    | Enter
    | Add(ok: bool)
    | EndRound

  function Init(strict: bool, users: seq<string>): Users {
    Users(strict, {}, {}, Elements(users), false, users, Idle)
  }

  function Elements(s: seq<string>): set<string> { set x | x in s }

  predicate Enabled(s: Users, e: Event) {
    match e
    case ImportEnter => !s.entered
    case ImportAdd(_) => s.entered && s.pending != []
    case BeginRound(next, deleted, added) =>
      s.monitor.Idle? && Elements(deleted) == s.list - next && Elements(added) == next - s.list
    case Remove(ok) =>
      s.monitor.Deleting? && s.monitor.todo != [] && (ok && s.strict ==> s.monitor.todo[0] in s.manager)
    case Forget => s.monitor.Deleting? && s.monitor.todo == []
    case Enter => s.monitor.Entering?
    case Add(_) => s.monitor.Adding? && s.monitor.rest != []
    case EndRound => s.monitor.Adding? && s.monitor.rest == []
  }

  /** A refusal ends the import, or the round with the old list kept. */
  function Apply(s: Users, e: Event): Users
    requires Enabled(s, e)
  {
    var m := s.monitor;
    match e
    case ImportEnter => s.(entered := true, known := s.known + Elements(s.pending))
    case ImportAdd(ok) =>
      if ok then s.(manager := s.manager + {s.pending[0]}, pending := s.pending[1..]) else s.(pending := [])
    case BeginRound(next, deleted, added) => s.(monitor := Deleting(deleted, {}, added, next))
    case Remove(ok) =>
      if ok then s.(manager := s.manager - {m.todo[0]}, monitor := m.(todo := m.todo[1..], done := m.done + {m.todo[0]}))
      else s.(monitor := Idle)
    case Forget => s.(known := s.known - m.done, monitor := Entering(m.added, m.next))
    case Enter => s.(known := s.known + Elements(m.added), monitor := Adding(m.added, m.next))
    case Add(ok) =>
      if ok then s.(manager := s.manager + {m.rest[0]}, monitor := m.(rest := m.rest[1..])) else s.(monitor := Idle)
    case EndRound => s.(list := m.next, monitor := Idle)
  }

  ghost predicate Run(states: seq<Users>, events: seq<Event>) {
    && |states| == |events| + 1
    && forall i :: 0 <= i < |events| ==> Enabled(states[i], events[i]) && states[i + 1] == Apply(states[i], events[i])
  }

  predicate Distinct(s: seq<string>) {
    forall i, j :: 0 <= i < j < |s| ==> s[i] != s[j]
  }

  /** What the import has still to register is listed, unregistered, and in the uid table once that is filled. */
  ghost predicate ImportOk(s: Users) {
    && Distinct(s.pending)
    && Elements(s.pending) <= s.list && Elements(s.pending) !! s.manager
    && (s.entered ==> Elements(s.pending) <= s.known)
  }

  ghost predicate MonitorOk(s: Users) {
    match s.monitor
    case Idle => true
    case Deleting(todo, done, added, next) =>
      && done !! s.manager && done !! Elements(s.pending) && (s.strict ==> done <= s.known)
      && done + Elements(todo) == s.list - next && Elements(added) == next - s.list
    case Entering(added, next) => Elements(s.pending) <= next && Elements(added) == next - s.list
    case Adding(rest, next) => Elements(s.pending) <= next && Elements(rest) <= s.known && Elements(rest) !! s.list
  }

  ghost predicate Invariant(s: Users) {
    (s.strict || s.pending == []) && s.manager <= s.known && ImportOk(s) && MonitorOk(s)
  }

  lemma Uncons(s: seq<string>)
    requires s != []
    ensures Elements(s) == {s[0]} + Elements(s[1..])
    ensures Distinct(s) ==> Distinct(s[1..]) && s[0] !in Elements(s[1..])
  {
    assert s == [s[0]] + s[1..];
  }

  lemma ImportStep(s: Users, e: Event)
    requires (e.ImportEnter? || e.ImportAdd?) && Enabled(s, e) && Invariant(s)
    ensures Invariant(Apply(s, e))
  {
    if e.ImportAdd? {
      Uncons(s.pending);
    }
  }

  lemma RemoveStep(s: Users, ok: bool)
    requires Enabled(s, Remove(ok)) && Invariant(s)
    ensures Invariant(Apply(s, Remove(ok)))
  {
    Uncons(s.monitor.todo);
  }

  lemma MonitorStep(s: Users, e: Event)
    requires !(e.ImportEnter? || e.ImportAdd? || e.Remove?) && Enabled(s, e) && Invariant(s)
    ensures Invariant(Apply(s, e))
  {
    match e
    case BeginRound(_, _, _) =>
    case Forget =>
    case Enter =>
    case Add(ok) => Uncons(s.monitor.rest);
    case EndRound =>
  }

  lemma {:induction false} RunInvariant(states: seq<Users>, events: seq<Event>, strict: bool, users: seq<string>, n: nat)
    requires Run(states, events) && states[0] == Init(strict, users) && n <= |events|
    requires users == [] || (strict && Distinct(users))
    ensures Invariant(states[n])
  {
    if n > 0 {
      RunInvariant(states, events, strict, users, n - 1);
      var s, e := states[n - 1], events[n - 1];
      match e
      case ImportEnter => ImportStep(s, e);
      case ImportAdd(_) => ImportStep(s, e);
      case Remove(ok) => RemoveStep(s, ok);
      case _ => MonitorStep(s, e);
    }
  }

  /* ---------- Exactly when every registered user is known ---------- */

  /** At every step of every interleaving of import and rounds, failures included, each registered user has a uid entry. */
  ghost predicate AlwaysKnown(strict: bool, users: seq<string>) {
    forall s :: Reachable(strict, users, s) ==> s.manager <= s.known
  }

  ghost predicate Reachable(strict: bool, users: seq<string>, s: Users) {
    exists states, events :: Run(states, events) && states[0] == Init(strict, users) && states[|events|] == s
  }

  lemma RunMore(states: seq<Users>, events: seq<Event>, s: Users, e: Event, s': Users)
    requires Run(states, events) && states[|events|] == s && Enabled(s, e) && s' == Apply(s, e)
    ensures Run(states + [s'], events + [e])
  {
  }

  lemma ReachStart(strict: bool, users: seq<string>)
    ensures Reachable(strict, users, Init(strict, users))
  {
    assert Run([Init(strict, users)], []);
  }

  lemma ReachStep(strict: bool, users: seq<string>, s: Users, e: Event)
    requires Reachable(strict, users, s) && Enabled(s, e)
    ensures Reachable(strict, users, Apply(s, e))
  {
    var states, events :| Run(states, events) && states[0] == Init(strict, users) && states[|events|] == s;
    var s' := Apply(s, e);
    RunMore(states, events, s, e, s');
    assert (states + [s'])[0] == states[0] && (states + [s'])[|events + [e]|] == s';
  }

  lemma RegisteredUsersAreKnown(strict: bool, users: seq<string>)
    requires users == [] || (strict && Distinct(users))
    ensures AlwaysKnown(strict, users)
  {
    forall s | Reachable(strict, users, s) ensures s.manager <= s.known {
      var states, events :| Run(states, events) && states[0] == Init(strict, users) && states[|events|] == s;
      RunInvariant(states, events, strict, users, |events|);
    }
  }

  /** The import has filled the uid table and registered the first `n` users; no round is under way. */
  ghost predicate Imported(s: Users, strict: bool, users: seq<string>, n: nat)
    requires n <= |users|
  {
    && s.strict == strict && s.entered && s.monitor == Idle
    && s.list == s.known == Elements(users) && s.pending == users[n..] && s.manager == Elements(users[..n])
  }

  lemma {:induction false} GoImport(strict: bool, users: seq<string>, n: nat) returns (s: Users)
    requires n <= |users|
    ensures Reachable(strict, users, s) && Imported(s, strict, users, n)
  {
    if n == 0 {
      ReachStart(strict, users);
      ReachStep(strict, users, Init(strict, users), ImportEnter);
      s := Apply(Init(strict, users), ImportEnter);
    } else {
      var s1 := GoImport(strict, users, n - 1);
      ReachStep(strict, users, s1, ImportAdd(true));
      s := Apply(s1, ImportAdd(true));
      assert users[..n] == users[..n - 1] + [users[n - 1]];
    }
  }

  /**
   * A round removes a listed user from manager and uid table while the import has that user next; then
   * the import registers a user without an entry.
   */
  lemma GoUnknown(strict: bool, users: seq<string>, n: nat) returns (s: Users)
    requires n < |users| && (strict ==> users[n] in users[..n])
    ensures Reachable(strict, users, s) && users[n] in s.manager && users[n] !in s.known
  {
    var u := users[n];
    var s1 := GoImport(strict, users, n);
    var begin := BeginRound(s1.list - {u}, [u], []);
    assert u in users && Elements([u]) == s1.list - (s1.list - {u}) && Elements([]) == s1.list - {u} - s1.list;
    ReachStep(strict, users, s1, begin);
    var s2 := Apply(s1, begin);
    var s3 := GoRemoved(strict, users, s2, u);
    ReachStep(strict, users, s3, ImportAdd(true));
    s := Apply(s3, ImportAdd(true));
  }

  lemma GoRemoved(strict: bool, users: seq<string>, s: Users, u: string) returns (s': Users)
    requires Reachable(strict, users, s) && s.monitor.Deleting? && s.monitor.todo == [u] && s.monitor.done == {}
    requires s.strict ==> u in s.manager
    ensures Reachable(strict, users, s') && s'.known == s.known - {u} && s'.pending == s.pending && s'.entered == s.entered
  {
    ReachStep(strict, users, s, Remove(true));
    var s1 := Apply(s, Remove(true));
    ReachStep(strict, users, s1, Forget);
    s' := Apply(s1, Forget);
  }

  /** With a manager that lets an absent user be removed, any import can register a user after its entry is gone. */
  lemma LenientManagerFails(users: seq<string>)
    requires users != []
    ensures !AlwaysKnown(false, users)
  {
    var s := GoUnknown(false, users, 0);
  }

  /** So can any import list that names a user twice, with any manager. */
  lemma RepeatedUserFails(strict: bool, users: seq<string>)
    requires !Distinct(users)
    ensures !AlwaysKnown(strict, users)
  {
    var i, j :| 0 <= i < j < |users| && users[i] == users[j];
    assert users[..j][i] == users[j];
    var s := GoUnknown(strict, users, j);
  }

  /**
   * For every manager and every import list: registered users are always known exactly when there is
   * nothing to import, or the list names no user twice and the manager refuses to remove an absent user.
   */
  lemma AlwaysKnownIff(strict: bool, users: seq<string>)
    ensures AlwaysKnown(strict, users) <==> users == [] || (strict && Distinct(users))
  {
    if users == [] || (strict && Distinct(users)) {
      RegisteredUsersAreKnown(strict, users);
    } else if !strict {
      LenientManagerFails(users);
    } else {
      RepeatedUserFails(strict, users);
    }
  }

  /* ---------- When nothing fails ---------- */

  predicate Fails(e: Event) {
    (e.ImportAdd? && !e.ok) || (e.Remove? && !e.ok) || (e.Add? && !e.ok)
  }

  /** The users registered or still to be imported, and those known or still to be entered, where `now` are to be there. */
  ghost predicate Holds(s: Users, now: set<string>, entered: set<string>) {
    && s.manager + Elements(s.pending) == now
    && s.known + (if s.entered then {} else Elements(s.pending)) == entered
  }

  /** How far the round has got, in both tables. */
  ghost predicate RoundInStep(s: Users) {
    match s.monitor
    case Idle => Holds(s, s.list, s.list)
    case Deleting(todo, done, added, next) => Holds(s, s.list - done, s.list)
    case Entering(added, next) => Holds(s, s.list * next, s.list * next)
    case Adding(rest, next) =>
      s.manager + Elements(s.pending) + Elements(rest) == next && Elements(rest) <= next
      && s.known + (if s.entered then {} else Elements(s.pending)) == next
  }

  lemma StepInStep(s: Users, e: Event)
    requires Enabled(s, e) && Invariant(s) && RoundInStep(s) && !Fails(e)
    ensures RoundInStep(Apply(s, e))
  {
    match e
    case ImportEnter =>
    case ImportAdd(_) => Uncons(s.pending);
    case BeginRound(_, _, _) =>
    case Remove(_) => RemoveInStep(s);
    case Forget => assert s.monitor.done == s.list - s.monitor.next;
    case Enter =>
    case Add(_) => Uncons(s.monitor.rest);
    case EndRound =>
  }

  lemma RemoveInStep(s: Users)
    requires Enabled(s, Remove(true)) && Invariant(s) && RoundInStep(s)
    ensures RoundInStep(Apply(s, Remove(true)))
  {
    Uncons(s.monitor.todo);
  }

  /**
   * As long as nothing fails, between rounds the manager holds exactly the listed users but those still to be
   * imported, and the uid table, once the import has filled it, exactly the listed users.
   */
  lemma {:induction false} InStepBetweenRounds(states: seq<Users>, events: seq<Event>, strict: bool, users: seq<string>, n: nat)
    requires Run(states, events) && states[0] == Init(strict, users) && n <= |events|
    requires users == [] || (strict && Distinct(users))
    requires forall i :: 0 <= i < n ==> !Fails(events[i])
    ensures RoundInStep(states[n])
    ensures states[n].monitor.Idle? ==>
      && states[n].manager == states[n].list - Elements(states[n].pending)
      && (states[n].entered ==> states[n].known == states[n].list)
  {
    RunInvariant(states, events, strict, users, n);
    if n > 0 {
      InStepBetweenRounds(states, events, strict, users, n - 1);
      RunInvariant(states, events, strict, users, n - 1);
      StepInStep(states[n - 1], events[n - 1]);
    }
  }

  /** A round whose calls all succeed can be carried through by itself, from every state between rounds, once the import is done. */
  lemma RoundGoesThrough(strict: bool, users: seq<string>, s: Users, next: set<string>, deleted: seq<string>, added: seq<string>)
      returns (s': Users)
    requires Reachable(strict, users, s) && s.strict == strict && s.monitor.Idle? && s.entered && s.pending == []
    requires s.manager == s.list == s.known
    requires Distinct(deleted) && Distinct(added) && Elements(deleted) == s.list - next && Elements(added) == next - s.list
    ensures Reachable(strict, users, s') && s'.monitor.Idle? && s'.manager == s'.list == s'.known == next
  {
    var e := BeginRound(next, deleted, added);
    ReachStep(strict, users, s, e);
    var s1 := GoDelete(strict, users, Apply(s, e), deleted);
    ReachStep(strict, users, s1, Forget);
    var s2 := Apply(s1, Forget);
    ReachStep(strict, users, s2, Enter);
    var s3 := GoAdd(strict, users, Apply(s2, Enter), added);
    ReachStep(strict, users, s3, EndRound);
    s' := Apply(s3, EndRound);
  }

  lemma {:induction false} GoDelete(strict: bool, users: seq<string>, s: Users, todo: seq<string>) returns (s': Users)
    requires Reachable(strict, users, s) && s.monitor.Deleting? && s.monitor.todo == todo && Distinct(todo) && Elements(todo) <= s.manager
    ensures Reachable(strict, users, s')
    ensures s' == s.(manager := s.manager - Elements(todo), monitor := s.monitor.(todo := [], done := s.monitor.done + Elements(todo)))
    decreases |todo|
  {
    if todo == [] {
      s' := s;
      assert s.manager - {} == s.manager && s.monitor.done + {} == s.monitor.done;
    } else {
      Uncons(todo);
      ReachStep(strict, users, s, Remove(true));
      s' := GoDelete(strict, users, Apply(s, Remove(true)), todo[1..]);
      assert s.manager - {todo[0]} - Elements(todo[1..]) == s.manager - Elements(todo);
      assert s.monitor.done + {todo[0]} + Elements(todo[1..]) == s.monitor.done + Elements(todo);
    }
  }

  lemma {:induction false} GoAdd(strict: bool, users: seq<string>, s: Users, rest: seq<string>) returns (s': Users)
    requires Reachable(strict, users, s) && s.monitor.Adding? && s.monitor.rest == rest && Distinct(rest)
    ensures Reachable(strict, users, s')
    ensures s' == s.(manager := s.manager + Elements(rest), monitor := s.monitor.(rest := []))
    decreases |rest|
  {
    if rest == [] {
      s' := s;
    } else {
      Uncons(rest);
      ReachStep(strict, users, s, Add(true));
      s' := GoAdd(strict, users, Apply(s, Add(true)), rest[1..]);
    }
  }

  /** A call that fails ends the round with the old list kept and the uid table as it was. */
  lemma FailureEndsRound(s: Users, e: Event)
    requires Enabled(s, e) && Fails(e) && !e.ImportAdd?
    ensures var s' := Apply(s, e);
      s'.monitor.Idle? && s'.list == s.list && s'.known == s.known && s'.manager == s.manager
  {
  }

  /** Once a registration of the import has failed, it registers nobody any more. */
  lemma {:induction false} ImportEndsAtFailure(states: seq<Users>, events: seq<Event>, i: nat, n: nat)
    requires Run(states, events) && i < n < |events| && events[i] == ImportAdd(false)
    ensures !events[n].ImportAdd?
  {
    NothingPending(states, events, i, n);
  }

  lemma {:induction false} NothingPending(states: seq<Users>, events: seq<Event>, i: nat, n: nat)
    requires Run(states, events) && i < n <= |events| && events[i] == ImportAdd(false)
    ensures states[n].pending == []
  {
    if n > i + 1 { NothingPending(states, events, i, n - 1); }
  }

  /* ---------- A deletion that fails in the middle ---------- */

  /** The user has left the manager but not the list, and neither the import nor a round will bring it back. */
  ghost predicate Stuck(s: Users, u: string) {
    && s.strict && u in s.list && u in s.known && u !in s.manager && u !in s.pending
    && match s.monitor
       case Idle => true
       case Deleting(todo, done, added, next) => u !in done && (if u in next then u !in added && u !in todo else u in todo)
       case Entering(added, next) => u in next && u !in added
       case Adding(rest, next) => u in next && u !in rest
  }

  lemma StuckStep(s: Users, e: Event, u: string)
    requires Enabled(s, e) && Stuck(s, u)
    ensures Stuck(Apply(s, e), u)
  {
    if e.ImportAdd? { Uncons(s.pending); }
    if e.Remove? { Uncons(s.monitor.todo); }
    if e.Add? { Uncons(s.monitor.rest); }
    if e.BeginRound? { assert u in Elements(e.deleted) <==> u !in e.next; }
  }

  /**
   * Whatever the panel lists in later rounds, the user stays on the list with its uid and is never
   * registered again: a round that lists it finds nothing new, one that does not cannot remove it.
   */
  lemma {:induction false} StuckForever(states: seq<Users>, events: seq<Event>, u: string, n: nat)
    requires Run(states, events) && n <= |events| && Stuck(states[0], u)
    ensures Stuck(states[n], u)
  {
    if n > 0 {
      StuckForever(states, events, u, n - 1);
      StuckStep(states[n - 1], events[n - 1], u);
    }
  }

  /** A round that leaves the user out is under way, if any is. */
  ghost predicate Blocked(s: Users, u: string) {
    Stuck(s, u) && (s.monitor.Idle? || (s.monitor.Deleting? && u !in s.monitor.next))
  }

  /** As long as the panel leaves the user out, every round fails and the list never changes. */
  lemma {:induction false} BlockedForever(states: seq<Users>, events: seq<Event>, u: string, n: nat)
    requires Run(states, events) && n <= |events| && Blocked(states[0], u)
    requires forall i :: 0 <= i < n && events[i].BeginRound? ==> u !in events[i].next
    ensures Blocked(states[n], u) && states[n].list == states[0].list
  {
    if n > 0 {
      BlockedForever(states, events, u, n - 1);
      StuckStep(states[n - 1], events[n - 1], u);
    }
  }

  /** Every deletion that fails after a user has been removed leaves that user stuck, and later deletions blocked. */
  lemma FailureSticks(s: Users, u: string)
    requires Invariant(s) && s.strict && s.monitor.Deleting? && u in s.monitor.done && Enabled(s, Remove(false))
    ensures Blocked(Apply(s, Remove(false)), u)
  {
  }
}
