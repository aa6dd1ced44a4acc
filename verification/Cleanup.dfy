/** The batched removal of idle users (core/xray/app/mydispatcher/default.go). */
module Cleanup {

  const BATCH: nat := 200
  const IDLE_TIMEOUT: int := 600000000000  // ten minutes in nanoseconds

  datatype ConnState = ConnState(tag: string, lastActive: int)

  /** A user's counter lives in the counter of the node the user was last seen on. */
  datatype State = State(
    links: map<string, int>,            // user key to number of open links
    conns: map<string, ConnState>,
    counters: map<string, set<string>>) // node tag to the users it counts

  predicate Eligible(s: State, email: string, now: int) {
    && email in s.links && s.links[email] <= 0
    && email in s.conns && s.conns[email].lastActive != 0
    && now - s.conns[email].lastActive > IDLE_TIMEOUT
  }

  ghost function EligibleSet(s: State, now: int): set<string> {
    set e | e in s.links && Eligible(s, e, now)
  }

  /** The state without the resources of the given users. */
  ghost function Without(s: State, gone: set<string>): State {
    State(s.links - gone, s.conns - gone,
          map tag | tag in s.counters :: StillCounted(s, gone, tag))
  }

  ghost function StillCounted(s: State, gone: set<string>, tag: string): set<string>
    requires tag in s.counters
  {
    set e | e in s.counters[tag] && !(e in gone && e in s.conns && s.conns[e].tag == tag)
  }

  ghost predicate TickStep(s: State, now: int, gone: set<string>, s': State) {
    && gone <= EligibleSet(s, now)
    && |gone| == (if |EligibleSet(s, now)| <= BATCH then |EligibleSet(s, now)| else BATCH)
    && s' == Without(s, gone)
  }

  class Dispatcher {
    var links: map<string, int>
    var conns: map<string, ConnState>
    var counters: map<string, set<string>>

    ghost function View(): State
      reads this
    {
      State(links, conns, counters)
    }

    constructor ()
      ensures View() == State(map[], map[], map[])
    {
      links, conns, counters := map[], map[], map[];
    }

    method MarkUserActive(email: string, tag: string, now: int)
      modifies this`conns
      ensures conns == old(conns)[email := ConnState(tag, now)]
    {
      var state := if email in conns then conns[email] else ConnState("", 0);
      state := state.(lastActive := now);
      state := state.(tag := tag);
      conns := conns[email := state];
    }

    method CleanupUserResources(email: string, tag: string)
      requires email in conns && conns[email].tag == tag
      modifies this
      ensures View() == Without(old(View()), {email})
    {
      ghost var was := View();
      if email in links {
        links := links - {email};
      }
      if tag in counters {
        counters := counters[tag := counters[tag] - {email}];
      }
      conns := conns - {email};
      assert links == was.links - {email};
      forall t | t in counters ensures counters[t] == StillCounted(was, {email}, t) {}
    }

    /** One link manager of a tick's walk. */
    method CleanIfIdle(email: string, now: int) returns (removed: bool)
      requires email in links
      modifies this
      ensures removed <==> Eligible(old(View()), email, now)
      ensures View() == if removed then Without(old(View()), {email}) else old(View())
    {
      removed := links[email] <= 0 && email in conns && conns[email].lastActive != 0 && now - conns[email].lastActive > IDLE_TIMEOUT;
      if removed {
        CleanupUserResources(email, conns[email].tag);
      }
    }

    /** One tick: the link managers are walked in any order until the batch is used up. */
    method Tick(now: int) returns (ghost gone: set<string>)
      modifies this
      ensures TickStep(old(View()), now, gone, View())
    {
      ghost var was := View();
      gone := {};
      WithoutNone(was);
      var remaining := BATCH;
      var todo := links.Keys;
      while todo != {} && remaining > 0
        invariant Walking(was, now, gone, todo) && View() == Without(was, gone)
        invariant 0 <= remaining == BATCH - |gone|
        decreases todo
      {
        var email :| email in todo;
        WalkOn(was, now, gone, todo, email);
        var removed := CleanIfIdle(email, now);
        if removed {
          gone := gone + {email};
          remaining := remaining - 1;
        }
        todo := todo - {email};
      }
      WalkEnds(was, now, gone, todo, remaining);
    }
  }

  /** A tick has removed `gone` and has `todo` left to look at. */
  ghost predicate Walking(was: State, now: int, gone: set<string>, todo: set<string>) {
    && todo <= was.links.Keys && gone !! todo
    && gone <= EligibleSet(was, now) <= gone + todo
  }

  lemma WalkOn(was: State, now: int, gone: set<string>, todo: set<string>, email: string)
    requires Walking(was, now, gone, todo) && email in todo
    ensures email in Without(was, gone).links
    ensures var s := Without(was, gone);
      if Eligible(s, email, now)
      then Walking(was, now, gone + {email}, todo - {email}) && Without(s, {email}) == Without(was, gone + {email})
      else Walking(was, now, gone, todo - {email})
  {
    var s := Without(was, gone);
    assert Eligible(s, email, now) <==> email in EligibleSet(was, now);
    if Eligible(s, email, now) {
      WithoutMore(was, gone, email);
    }
  }

  lemma WalkEnds(was: State, now: int, gone: set<string>, todo: set<string>, remaining: int)
    requires Walking(was, now, gone, todo) && remaining == BATCH - |gone| && 0 <= remaining
    requires todo == {} || remaining <= 0
    ensures |gone| == (if |EligibleSet(was, now)| <= BATCH then |EligibleSet(was, now)| else BATCH)
  {
    BatchSize(gone, EligibleSet(was, now));
    assert todo == {} ==> gone == EligibleSet(was, now);
  }

  lemma WithoutNone(s: State)
    ensures Without(s, {}) == s
  {
    assert s.links - {} == s.links && s.conns - {} == s.conns;
    forall tag | tag in s.counters ensures StillCounted(s, {}, tag) == s.counters[tag] {}
  }

  lemma WithoutMore(s: State, gone: set<string>, email: string)
    requires email in s.conns && email !in gone
    ensures Without(Without(s, gone), {email}) == Without(s, gone + {email})
  {
    assert s.links - gone - {email} == s.links - (gone + {email});
    assert s.conns - gone - {email} == s.conns - (gone + {email});
    var s1 := Without(s, gone);
    forall tag | tag in s.counters ensures StillCounted(s1, {email}, tag) == StillCounted(s, gone + {email}, tag) {}
  }

  lemma {:induction false} BatchSize(a: set<string>, b: set<string>)
    requires a <= b
    ensures |a| <= |b| && (|a| == |b| ==> a == b)
  {
    if a != {} {
      var x :| x in a;
      BatchSize(a - {x}, b - {x});
      assert a == (a - {x}) + {x} && b == (b - {x}) + {x};
    }
  }

  /* ---------- What a tick takes, and what it leaves alone ---------- */

  /**
   * A tick takes only users without an open link whose last activity is more than ten minutes ago, and all
   * of these unless it has taken 200; the links and the state of those taken are gone.
   */
  lemma TickTakes(s: State, now: int, gone: set<string>, s': State)
    requires TickStep(s, now, gone, s')
    ensures forall e :: e in gone ==>
      && e in s.links && s.links[e] <= 0 && e in s.conns && s.conns[e].lastActive != 0
      && now - s.conns[e].lastActive > 10 * 60 * 1_000_000_000
    ensures |gone| <= 200
    ensures |gone| == 200 || forall e ::
      (e in s.links && s.links[e] <= 0 && e in s.conns && s.conns[e].lastActive != 0
        && now - s.conns[e].lastActive > 10 * 60 * 1_000_000_000) ==> e in gone
    ensures s'.links == s.links - gone && s'.conns == s.conns - gone && s'.counters.Keys == s.counters.Keys
    ensures forall e, tag :: tag in s.counters && e in s.counters[tag] ==>
      (e in s'.counters[tag] <==> e !in gone || s.conns[e].tag != tag)
  {
    BatchSize(gone, EligibleSet(s, now));
    assert forall e :: e in s.links && Eligible(s, e, now) ==> e in EligibleSet(s, now);
  }

  /** Users that are not removed keep their links, their activity and their counters. */
  lemma OthersUntouched(s: State, now: int, gone: set<string>, s': State, email: string)
    requires TickStep(s, now, gone, s') && !Eligible(s, email, now)
    ensures email in s.links <==> email in s'.links
    ensures email in s.links ==> s'.links[email] == s.links[email]
    ensures email in s.conns <==> email in s'.conns
    ensures email in s.conns ==> s'.conns[email] == s.conns[email]
    ensures forall tag :: tag in s.counters ==> tag in s'.counters && (email in s'.counters[tag] <==> email in s.counters[tag])
  {
    assert email !in gone;
  }

  /* ---------- Progress over ticks ---------- */

  /** Ticks with no activity in between; the clock may move on. */
  ghost predicate Ticks(states: seq<State>, nows: seq<int>, gone: seq<set<string>>) {
    && |states| == |nows| + 1 && |gone| == |nows|
    && (forall i, j :: 0 <= i <= j < |nows| ==> nows[i] <= nows[j])
    && (forall i :: 0 <= i < |nows| ==> TickStep(states[i], nows[i], gone[i], states[i + 1]))
  }

  lemma EligibleAfter(s: State, gone: set<string>, now: int)
    ensures EligibleSet(Without(s, gone), now) == EligibleSet(s, now) - gone
  {
  }

  /** As long as a user waits, every tick removes a full batch of users that are idle by the end. */
  lemma {:induction false} FullBatches(states: seq<State>, nows: seq<int>, gone: seq<set<string>>, n: nat, email: string, now: int)
    requires Ticks(states, nows, gone) && n <= |nows| && (n > 0 ==> nows[n - 1] <= now)
    requires n > 0 ==> Eligible(states[0], email, nows[0])
    requires n > 0 ==> email in states[n].links
    ensures |EligibleSet(states[n], now)| == |EligibleSet(states[0], now)| - BATCH * n
    ensures n > 0 ==> Eligible(states[n], email, nows[0]) && |EligibleSet(states[n], now)| > 0
  {
    if n > 0 {
      var s, s', t, g := states[n - 1], states[n], nows[n - 1], gone[n - 1];
      assert TickStep(s, t, g, s');
      assert nows[0] <= t;
      if n > 1 { assert nows[n - 2] <= nows[n - 1]; }
      FullBatches(states, nows, gone, n - 1, email, now);
      assert email in EligibleSet(s, t) && email !in g;
      if |g| == |EligibleSet(s, t)| {
        BatchSize(g, EligibleSet(s, t));
        assert false;
      }
      EligibleAfter(s, g, now);
      assert g <= EligibleSet(s, now);
      RemovedCount(EligibleSet(s, now), g);
      assert email in EligibleSet(s', now);
    }
  }

  lemma RemovedCount(a: set<string>, g: set<string>)
    requires g <= a
    ensures |a - g| == |a| - |g|
  {
    assert a == (a - g) + g;
  }

  /**
   * Whatever order the map is walked in: a user idle at the first tick is gone after as many ticks as
   * it takes to remove, in batches of 200, all users idle by the last of them.
   */
  lemma IdleUsersGone(states: seq<State>, nows: seq<int>, gone: seq<set<string>>, n: nat, email: string)
    requires Ticks(states, nows, gone) && 0 < n <= |nows|
    requires Eligible(states[0], email, nows[0])
    requires BATCH * n >= |EligibleSet(states[0], nows[n - 1])|
    ensures email !in states[n].links
  {
    if email in states[n].links {
      FullBatches(states, nows, gone, n, email, nows[n - 1]);
      assert false;
    }
  }
}
