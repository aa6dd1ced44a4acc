/** The constant-time size of a traffic counter under concurrent calls (common/counter/traffic.go). */
module CounterSize {

  /** Where a call stands; a counter changes its map in one step and its size in another. */
  datatype Pc =
    | Missed(key: string)  // GetCounter found nothing and is about to load-or-store
    | Stored               // GetCounter stored a new entry and owes an increment
    | Removed              // Delete took an entry out and owes a decrement

  datatype Counter = Counter(keys: set<string>, count: int, calls: map<nat, Pc>)

  datatype Event =
    | Get(t: nat, key: string)
    | LoadOrStore(t: nat)
    | Increment(t: nat)
    | Delete(t: nat, key: string)
    | Decrement(t: nat)

  predicate Enabled(s: Counter, e: Event) {
    match e
    case Get(t, _) => t !in s.calls
    case LoadOrStore(t) => t in s.calls && s.calls[t].Missed?
    case Increment(t) => t in s.calls && s.calls[t].Stored?
    case Delete(t, _) => t !in s.calls
    case Decrement(t) => t in s.calls && s.calls[t].Removed?
  }

  function Apply(s: Counter, e: Event): Counter
    requires Enabled(s, e)
  {
    match e
    case Get(t, key) => if key in s.keys then s else s.(calls := s.calls[t := Missed(key)])
    case LoadOrStore(t) =>
      if s.calls[t].key in s.keys then s.(calls := s.calls - {t})
      else s.(keys := s.keys + {s.calls[t].key}, calls := s.calls[t := Stored])
    case Increment(t) => s.(count := s.count + 1, calls := s.calls - {t})
    case Delete(t, key) =>
      if key in s.keys then s.(keys := s.keys - {key}, calls := s.calls[t := Removed]) else s
    case Decrement(t) => s.(count := s.count - 1, calls := s.calls - {t})
  }

  ghost predicate Run(states: seq<Counter>, events: seq<Event>) {
    && |states| == |events| + 1
    && forall i :: 0 <= i < |events| ==> Enabled(states[i], events[i]) && states[i + 1] == Apply(states[i], events[i])
  }

  /** A GetCounter call that no other call disturbs: the key is there afterwards, and the size has followed. */
  lemma GetAlone(s: Counter, t: nat, key: string) returns (s': Counter)
    requires t !in s.calls
    ensures Enabled(s, Get(t, key))
    ensures s' == if key in s.keys then Apply(s, Get(t, key)) else Stepped(Apply(s, Get(t, key)), t)
    ensures s'.keys == s.keys + {key} && s'.calls == s.calls && s'.count == s.count + if key in s.keys then 0 else 1
  {
    s' := Apply(s, Get(t, key));
    if key !in s.keys {
      s' := Stepped(s', t);
      assert s'.calls == s.calls;
    } else {
      assert s.keys + {key} == s.keys;
    }
  }

  /** Load-or-store, and the increment. */
  ghost function Stepped(s: Counter, t: nat): Counter
    requires t in s.calls && s.calls[t].Missed? && s.calls[t].key !in s.keys
  {
    Apply(Apply(s, LoadOrStore(t)), Increment(t))
  }

  /** So does a Delete call: the key is gone afterwards, and the size has followed. */
  lemma DeleteAlone(s: Counter, t: nat, key: string) returns (s': Counter)
    requires t !in s.calls
    ensures Enabled(s, Delete(t, key))
    ensures s' == if key in s.keys then Apply(Apply(s, Delete(t, key)), Decrement(t)) else Apply(s, Delete(t, key))
    ensures s'.keys == s.keys - {key} && s'.calls == s.calls && s'.count == s.count - if key in s.keys then 1 else 0
  {
    s' := Apply(s, Delete(t, key));
    if key in s.keys {
      s' := Apply(s', Decrement(t));
      assert s'.calls == s.calls;
    } else {
      assert s.keys - {key} == s.keys;
    }
  }

  /** The calls that stand at `pc`. */
  ghost function Owing(calls: map<nat, Pc>, pc: Pc): set<nat> {
    set t | t in calls && calls[t] == pc
  }

  ghost predicate Agrees(s: Counter) {
    s.count == |s.keys| - |Owing(s.calls, Stored)| + |Owing(s.calls, Removed)|
  }

  lemma OwingPut(calls: map<nat, Pc>, t: nat, now: Pc, pc: Pc)
    ensures Owing(calls[t := now], pc) == if now == pc then Owing(calls, pc) + {t} else Owing(calls, pc) - {t}
  {
  }

  lemma OwingDropped(calls: map<nat, Pc>, t: nat, pc: Pc)
    ensures Owing(calls - {t}, pc) == Owing(calls, pc) - {t}
  {
  }

  lemma CallPut(s: Counter, t: nat, now: Pc)
    requires t in s.calls ==> s.calls[t].Missed?
    ensures |Owing(s.calls[t := now], Stored)| == |Owing(s.calls, Stored)| + if now.Stored? then 1 else 0
    ensures |Owing(s.calls[t := now], Removed)| == |Owing(s.calls, Removed)| + if now.Removed? then 1 else 0
  {
    OwingPut(s.calls, t, now, Stored);
    OwingPut(s.calls, t, now, Removed);
    assert Owing(s.calls, Stored) - {t} == Owing(s.calls, Stored);
    assert Owing(s.calls, Removed) - {t} == Owing(s.calls, Removed);
  }

  lemma CallDropped(s: Counter, t: nat)
    requires t in s.calls
    ensures |Owing(s.calls - {t}, Stored)| == |Owing(s.calls, Stored)| - if s.calls[t].Stored? then 1 else 0
    ensures |Owing(s.calls - {t}, Removed)| == |Owing(s.calls, Removed)| - if s.calls[t].Removed? then 1 else 0
  {
    OwingDropped(s.calls, t, Stored);
    OwingDropped(s.calls, t, Removed);
    assert t !in Owing(s.calls, Stored) ==> Owing(s.calls, Stored) - {t} == Owing(s.calls, Stored);
    assert t !in Owing(s.calls, Removed) ==> Owing(s.calls, Removed) - {t} == Owing(s.calls, Removed);
  }

  lemma StepAgrees(s: Counter, e: Event)
    requires Enabled(s, e) && Agrees(s)
    ensures Agrees(Apply(s, e))
  {
    match e
    case Get(t, key) => CallPut(s, t, Missed(key));
    case LoadOrStore(t) =>
      CallDropped(s, t);
      CallPut(s, t, Stored);
    case Increment(t) => CallDropped(s, t);
    case Delete(t, key) => CallPut(s, t, Removed);
    case Decrement(t) => CallDropped(s, t);
  }

  /** In every interleaving the size is off by exactly the calls that still owe their update. */
  lemma {:induction false} SizeAgrees(states: seq<Counter>, events: seq<Event>, n: nat)
    requires Run(states, events) && states[0] == Counter({}, 0, map[]) && n <= |events|
    ensures Agrees(states[n])
    ensures states[n].calls == map[] ==> states[n].count == |states[n].keys|
  {
    if n == 0 {
      assert Owing(states[0].calls, Stored) == {} && Owing(states[0].calls, Removed) == {};
    } else {
      SizeAgrees(states, events, n - 1);
      StepAgrees(states[n - 1], events[n - 1]);
    }
    if states[n].calls == map[] {
      assert Owing(states[n].calls, Stored) == {} && Owing(states[n].calls, Removed) == {};
    }
  }
}
