/**
 * The periodic task as interleaved steps (common/task/task.go).  A section the mutex protects is one
 * step, except around Execute, which holds the mutex from one step to a later one.
 */
module TaskRuns {
  import opened Wrappers

  datatype Pc =
    | Check(first: bool)   // about to look whether it is closed
    | Enter(first: bool)   // past that look, waiting for the mutex
    | Body                 // holds the mutex, inside Execute
    | Retire               // a Start whose Execute failed

  datatype Thread = Thread(pc: Pc, starter: bool)

  datatype Task = Task(
    running: bool,
    owner: Option<nat>,        // the thread holding the mutex across steps
    timer: Option<nat>,        // the timer it remembers
    armed: set<nat>,           // timers that will still fire
    nextTimer: nat,
    threads: map<nat, Thread>, // callbacks and Start calls in flight
    starts: nat,               // Start calls that found it closed
    execs: nat)                // times Execute was entered

  datatype Event =
    | Start(t: nat, first: bool)
    | Look(t: nat)
    | Lock(t: nat)
    | FinishOk(t: nat)
    | FinishErr(t: nat)
    | GiveUp(t: nat)
    | Fire(timer: nat, t: nat)
    | Close

  function Init(): Task {
    Task(false, None, None, {}, 0, map[], 0, 0)
  }

  /** Every section needs the mutex; a timer fires by itself. */
  predicate Enabled(s: Task, e: Event) {
    match e
    case Start(t, _) => s.owner.None? && t !in s.threads
    case Look(t) => s.owner.None? && t in s.threads && s.threads[t].pc.Check?
    case Lock(t) => s.owner.None? && t in s.threads && s.threads[t].pc.Enter?
    case FinishOk(t) => s.owner == Some(t) && t in s.threads && s.threads[t].pc.Body?
    case FinishErr(t) => s.owner == Some(t) && t in s.threads && s.threads[t].pc.Body?
    case GiveUp(t) => s.owner.None? && t in s.threads && s.threads[t].pc.Retire?
    case Fire(timer, t) => timer in s.armed && t !in s.threads
    case Close => s.owner.None?
  }

  /** The end of the protected section: a task still running is armed again. */
  function Rearm(s: Task, t: nat): Task {
    var s1 := s.(owner := None, threads := s.threads - {t});
    if !s.running then s1
    else s1.(timer := Some(s.nextTimer), armed := s.armed + {s.nextTimer}, nextTimer := s.nextTimer + 1)
  }

  function Apply(s: Task, e: Event): Task
    requires Enabled(s, e)
  {
    match e
    case Start(t, first) =>
      if s.running then s
      else s.(running := true, threads := s.threads[t := Thread(Check(first), true)], starts := s.starts + 1)
    case Look(t) =>
      if !s.running then s.(threads := s.threads - {t})
      else s.(threads := s.threads[t := s.threads[t].(pc := Enter(s.threads[t].pc.first))])
    case Lock(t) =>
      if s.threads[t].pc.first
      then s.(owner := Some(t), threads := s.threads[t := s.threads[t].(pc := Body)], execs := s.execs + 1)
      else Rearm(s, t)
    case FinishOk(t) => Rearm(s, t)
    case FinishErr(t) =>
      var s1 := s.(owner := None, running := false);
      if s.threads[t].starter then s1.(threads := s.threads[t := s.threads[t].(pc := Retire)])
      else s1.(threads := s.threads - {t})
    case GiveUp(t) => s.(running := false, threads := s.threads - {t})
    case Fire(timer, t) => s.(armed := s.armed - {timer}, threads := s.threads[t := Thread(Check(true), false)])
    case Close =>
      s.(running := false, timer := None, armed := if s.timer.Some? then s.armed - {s.timer.value} else s.armed)
  }

  ghost predicate Run(states: seq<Task>, events: seq<Event>) {
    && |states| == |events| + 1
    && forall i :: 0 <= i < |events| ==> Enabled(states[i], events[i]) && states[i + 1] == Apply(states[i], events[i])
  }

  /** The thread inside Execute is the one that holds the mutex. */
  ghost predicate Exclusive(s: Task) {
    && (s.owner.Some? ==> s.owner.value in s.threads && s.threads[s.owner.value].pc.Body?)
    && (forall t :: t in s.threads && s.threads[t].pc.Body? ==> s.owner == Some(t))
  }

  /** Live chains, armed timers and threads in flight, against the Start calls that took effect. */
  ghost predicate ChainsBounded(s: Task) {
    |s.armed| + |s.threads| <= s.starts
  }

  lemma PutSize<V>(m: map<nat, V>, t: nat, v: V)
    ensures |m[t := v]| == |m| + if t in m then 0 else 1
  {
    assert m[t := v].Keys == m.Keys + {t};
    if t in m { assert m[t := v].Keys == m.Keys; }
  }

  lemma RemoveSize<V>(m: map<nat, V>, t: nat)
    ensures |m - {t}| == |m| - if t in m then 1 else 0
  {
    assert (m - {t}).Keys == m.Keys - {t};
    if t !in m { assert m - {t} == m; }
  }

  lemma StepExclusive(s: Task, e: Event)
    requires Enabled(s, e) && Exclusive(s)
    ensures Exclusive(Apply(s, e))
  {
  }

  lemma StartBounded(s: Task, t: nat, first: bool)
    requires Enabled(s, Start(t, first)) && ChainsBounded(s)
    ensures ChainsBounded(Apply(s, Start(t, first)))
  {
    PutSize(s.threads, t, Thread(Check(first), true));
  }

  lemma FireBounded(s: Task, timer: nat, t: nat)
    requires Enabled(s, Fire(timer, t)) && ChainsBounded(s)
    ensures ChainsBounded(Apply(s, Fire(timer, t)))
  {
    PutSize(s.threads, t, Thread(Check(true), false));
  }

  /** A step of a thread in flight moves it on, or ends it and arms at most one timer. */
  lemma ThreadBounded(s: Task, e: Event)
    requires (e.Look? || e.Lock? || e.FinishOk? || e.FinishErr? || e.GiveUp?) && Enabled(s, e) && ChainsBounded(s)
    ensures ChainsBounded(Apply(s, e))
  {
    RemoveSize(s.threads, e.t);
    var s' := Apply(s, e);
    if e.t in s'.threads {
      PutSize(s.threads, e.t, s'.threads[e.t]);
    }
  }

  lemma StepInvariant(s: Task, e: Event)
    requires Enabled(s, e) && Exclusive(s) && ChainsBounded(s)
    ensures Exclusive(Apply(s, e)) && ChainsBounded(Apply(s, e))
  {
    StepExclusive(s, e);
    match e
    case Start(t, first) => StartBounded(s, t, first);
    case Fire(timer, t) => FireBounded(s, timer, t);
    case Close =>
    case _ => ThreadBounded(s, e);
  }

  lemma {:induction false} RunInvariant(states: seq<Task>, events: seq<Event>, n: nat)
    requires Run(states, events) && states[0] == Init() && n <= |events|
    ensures Exclusive(states[n]) && ChainsBounded(states[n])
  {
    if n > 0 {
      RunInvariant(states, events, n - 1);
      StepInvariant(states[n - 1], events[n - 1]);
    }
  }

  /** Execute never overlaps itself, and live chains never exceed the effective starts. */
  lemma ExecuteNeverOverlaps(states: seq<Task>, events: seq<Event>, n: nat, t: nat, u: nat)
    requires Run(states, events) && states[0] == Init() && n <= |events|
    requires t in states[n].threads && states[n].threads[t].pc.Body?
    requires u in states[n].threads && states[n].threads[u].pc.Body?
    ensures t == u
    ensures |states[n].armed| + |states[n].threads| <= states[n].starts
  {
    RunInvariant(states, events, n);
  }

  /** A thread stays inside Execute until it finishes itself. */
  lemma BodyStays(s: Task, e: Event, t: nat)
    requires Enabled(s, e) && Exclusive(s) && t in s.threads && s.threads[t].pc.Body?
    requires e.FinishOk? || e.FinishErr? ==> e.t != t
    ensures t in Apply(s, e).threads && Apply(s, e).threads[t].pc.Body?
  {
    assert s.owner == Some(t);
  }

  /* ---------- A running task goes on ---------- */

  /** While it runs, a timer is armed or a thread is on its way to Execute or to the end of it. */
  ghost predicate GoesOn(s: Task) {
    s.running ==> s.armed != {} || exists t :: t in s.threads && !s.threads[t].pc.Retire?
  }

  lemma StepGoesOn(s: Task, e: Event)
    requires Enabled(s, e) && GoesOn(s)
    ensures GoesOn(Apply(s, e))
  {
    var s' := Apply(s, e);
    if s'.running {
      match e
      case Start(t, first) =>
        if !s.running { assert t in s'.threads && !s'.threads[t].pc.Retire?; }
        else { assert s' == s; }
      case Look(t) => assert t in s'.threads && !s'.threads[t].pc.Retire?;
      case Lock(t) => assert t in s'.threads ==> !s'.threads[t].pc.Retire?; assert t in s'.threads || s.nextTimer in s'.armed;
      case FinishOk(t) => assert s.nextTimer in s'.armed;
      case Fire(_, t) => assert t in s'.threads && !s'.threads[t].pc.Retire?;
      case _ =>
    }
  }

  /** At no step of any interleaving is a task running with nothing left to run it. */
  lemma {:induction false} RunGoesOn(states: seq<Task>, events: seq<Event>, n: nat)
    requires Run(states, events) && states[0] == Init() && n <= |events|
    ensures GoesOn(states[n])
  {
    if n > 0 {
      RunGoesOn(states, events, n - 1);
      StepGoesOn(states[n - 1], events[n - 1]);
    }
  }

  /** Timers are numbered as they are made. */
  ghost predicate Numbered(s: Task) {
    forall x :: x in s.armed ==> x < s.nextTimer
  }

  /** Neither a Close nor a failing Execute. */
  predicate Undisturbed(e: Event) { !e.Close? && !e.FinishErr? }

  /** One chain for each Start that took effect, and the task runs once one has. */
  ghost predicate ChainsWhole(s: Task) {
    && Numbered(s) && |s.armed| + |s.threads| == s.starts && (s.running <==> s.starts > 0)
    && forall t :: t in s.threads ==> !s.threads[t].pc.Retire?
  }

  lemma StepChainsWhole(s: Task, e: Event)
    requires Enabled(s, e) && Undisturbed(e) && ChainsWhole(s)
    ensures ChainsWhole(Apply(s, e))
  {
    if e.Start? {
      PutSize(s.threads, e.t, Thread(Check(e.first), true));
    } else if e.Fire? {
      PutSize(s.threads, e.t, Thread(Check(true), false));
    } else {
      ThreadWhole(s, e);
    }
  }

  lemma ThreadWhole(s: Task, e: Event)
    requires (e.Look? || e.Lock? || e.FinishOk? || e.GiveUp?) && Enabled(s, e) && ChainsWhole(s)
    ensures ChainsWhole(Apply(s, e))
  {
    RemoveSize(s.threads, e.t);
    var s' := Apply(s, e);
    if e.t in s'.threads {
      PutSize(s.threads, e.t, s'.threads[e.t]);
    }
  }

  /**
   * While no Close comes and no Execute fails, a task that has been started keeps exactly one chain: one armed
   * timer or one thread in flight.
   */
  lemma {:induction false} OneChain(states: seq<Task>, events: seq<Event>, n: nat)
    requires Run(states, events) && states[0] == Init() && n <= |events|
    requires forall i :: 0 <= i < n ==> Undisturbed(events[i])
    ensures states[n].running <==> states[n].starts > 0
    ensures |states[n].armed| + |states[n].threads| == if states[n].running then 1 else 0
  {
    WholeAlong(states, events, n);
    StartsOnce(states, events, n);
  }

  lemma {:induction false} WholeAlong(states: seq<Task>, events: seq<Event>, n: nat)
    requires Run(states, events) && states[0] == Init() && n <= |events|
    requires forall i :: 0 <= i < n ==> Undisturbed(events[i])
    ensures ChainsWhole(states[n])
  {
    if n > 0 {
      WholeAlong(states, events, n - 1);
      StepChainsWhole(states[n - 1], events[n - 1]);
    }
  }

  lemma {:induction false} StartsOnce(states: seq<Task>, events: seq<Event>, n: nat)
    requires Run(states, events) && states[0] == Init() && n <= |events|
    requires forall i :: 0 <= i < n ==> Undisturbed(events[i])
    ensures states[n].starts <= 1
  {
    if n > 0 {
      StartsOnce(states, events, n - 1);
      WholeAlong(states, events, n - 1);
    }
  }

  /** The end of a round of a running task arms one new timer, the one it remembers; a Close stops that one. */
  lemma FinishRearms(s: Task, t: nat)
    requires Numbered(s) && s.running && (Enabled(s, FinishOk(t)) || (Enabled(s, Lock(t)) && !s.threads[t].pc.first))
    ensures var s' := Apply(s, if s.threads[t].pc.Body? then FinishOk(t) else Lock(t));
      && s'.timer.Some? && s'.timer.value !in s.armed && s'.armed == s.armed + {s'.timer.value}
      && t !in s'.threads && s'.owner == None && s'.running
      && Apply(s', Close) == s'.(running := false, timer := None, armed := s.armed)
  {
    assert s.nextTimer !in s.armed;
  }

  /* From every reachable state of a running task, Execute can be entered again. */

  lemma FreshThread(s: Task) returns (t: nat)
    ensures t !in s.threads
  {
    t := Above(s.threads.Keys);
  }

  lemma {:induction false} Above(a: set<nat>) returns (t: nat)
    ensures forall x :: x in a ==> x < t
  {
    if a == {} {
      t := 0;
    } else {
      var x :| x in a;
      var u := Above(a - {x});
      t := if x < u then u else x + 1;
      assert a == (a - {x}) + {x};
    }
  }

  /** A run without a Start, a Close or a failing Execute leads from one state to the other. */
  ghost predicate Proceeds(s: Task, s': Task) {
    exists states, events :: Proceeding(states, events, s, s')
  }

  ghost predicate Proceeding(states: seq<Task>, events: seq<Event>, s: Task, s': Task) {
    && Run(states, events) && states[0] == s && states[|events|] == s'
    && forall i :: 0 <= i < |events| ==> Undisturbed(events[i]) && !events[i].Start?
  }

  lemma ProceedsOn(s0: Task, s: Task, e: Event)
    requires Proceeds(s0, s) && Enabled(s, e) && Undisturbed(e) && !e.Start?
    ensures Proceeds(s0, Apply(s, e))
  {
    var states, events :| Proceeding(states, events, s0, s);
    var s' := Apply(s, e);
    RunMore(states, events, s, e, s');
    assert Proceeding(states + [s'], events + [e], s0, s');
  }

  /** A thread past or before the closed check gets to Execute, or arms a timer. */
  lemma GoFromThread(s0: Task, s: Task, t: nat) returns (s': Task)
    requires Proceeds(s0, s) && s.running && s.owner.None? && t in s.threads && (s.threads[t].pc.Check? || s.threads[t].pc.Enter?)
    ensures Proceeds(s0, s') && s'.running
    ensures s'.execs == s.execs + 1 || (s'.execs == s.execs && s'.owner.None? && s'.armed != {})
  {
    s' := s;
    if s.threads[t].pc.Check? {
      ProceedsOn(s0, s, Look(t));
      s' := Apply(s, Look(t));
    }
    ProceedsOn(s0, s', Lock(t));
    var s1 := Apply(s', Lock(t));
    assert s1.execs == s.execs ==> s'.nextTimer in s1.armed;
    s' := s1;
  }

  lemma GoFromTimer(s0: Task, s: Task) returns (s': Task)
    requires Proceeds(s0, s) && s.running && s.owner.None? && s.armed != {}
    ensures Proceeds(s0, s') && s'.execs == s.execs + 1
  {
    var timer :| timer in s.armed;
    var t := FreshThread(s);
    ProceedsOn(s0, s, Fire(timer, t));
    var s1 := Apply(s, Fire(timer, t));
    ProceedsOn(s0, s1, Look(t));
    var s2 := Apply(s1, Look(t));
    ProceedsOn(s0, s2, Lock(t));
    s' := Apply(s2, Lock(t));
  }

  /** From every state of every run in which the task is running, the task alone gets to the next Execute. */
  lemma NextExecute(states: seq<Task>, events: seq<Event>, n: nat) returns (s': Task)
    requires Run(states, events) && states[0] == Init() && n <= |events| && states[n].running
    ensures Proceeds(states[n], s') && s'.execs == states[n].execs + 1
  {
    var s := states[n];
    RunGoesOn(states, events, n);
    RunInvariant(states, events, n);
    assert Proceeding([s], [], s, s);
    s' := s;
    if s.owner.Some? {
      ProceedsOn(s, s, FinishOk(s.owner.value));
      s' := Apply(s, FinishOk(s.owner.value));
      assert s.nextTimer in s'.armed;
    } else if s.armed == {} {
      var t :| t in s.threads && !s.threads[t].pc.Retire?;
      s' := GoFromThread(s, s, t);
      if s'.execs > s.execs { return; }
    }
    s' := GoFromTimer(s, s');
  }

  /* ---------- Starting, failing and stopping ---------- */

  /** A Start on a closed task gets to Execute by itself, if it is to execute first. */
  lemma StartRuns(s: Task, t: nat) returns (s': Task)
    requires s.owner.None? && !s.running && t !in s.threads
    ensures Enabled(s, Start(t, true)) && Enabled(Apply(s, Start(t, true)), Look(t))
    ensures Enabled(Apply(Apply(s, Start(t, true)), Look(t)), Lock(t))
    ensures s' == Apply(Apply(Apply(s, Start(t, true)), Look(t)), Lock(t))
    ensures s'.running && s'.owner == Some(t) && s'.execs == s.execs + 1
  {
    s' := Apply(Apply(Apply(s, Start(t, true)), Look(t)), Lock(t));
  }

  /** Whoever is inside Execute can end it either way; a failure leaves the task closed with no new timer. */
  lemma FailureCloses(s: Task, t: nat)
    requires Exclusive(s) && t in s.threads && s.threads[t].pc.Body?
    ensures Enabled(s, FinishOk(t)) && Enabled(s, FinishErr(t))
    ensures var s' := Apply(s, FinishErr(t)); !s'.running && s'.owner.None? && s'.armed == s.armed
  {
  }

  /** A running task is stopped by a Close, a failing Execute, or the end of a Start that has failed, and by nothing else. */
  lemma StopsIff(s: Task, e: Event)
    requires Enabled(s, e) && s.running
    ensures !Apply(s, e).running <==> e.Close? || e.FinishErr? || e.GiveUp?
  {
  }

  /** Start was called by this thread. */
  ghost predicate Started(events: seq<Event>, n: nat, t: nat)
    requires n <= |events|
  {
    exists i :: 0 <= i < n && events[i].Start? && events[i].t == t
  }

  /** Only Start calls are starters, and only they give up. */
  ghost predicate StartersStarted(s: Task, events: seq<Event>, n: nat)
    requires n <= |events|
  {
    forall t :: t in s.threads ==>
      (s.threads[t].starter ==> Started(events, n, t)) && (s.threads[t].pc.Retire? ==> s.threads[t].starter)
  }

  lemma {:induction false} StartersAlong(states: seq<Task>, events: seq<Event>, n: nat)
    requires Run(states, events) && states[0] == Init() && n <= |events|
    ensures StartersStarted(states[n], events, n)
  {
    if n > 0 {
      StartersAlong(states, events, n - 1);
      var s, s' := states[n - 1], states[n];
      assert Enabled(s, events[n - 1]) && s' == Apply(s, events[n - 1]);
      forall t | t in s'.threads && s'.threads[t].starter ensures Started(events, n, t) {
        if t in s.threads && s.threads[t].starter {
          var i :| 0 <= i < n - 1 && events[i].Start? && events[i].t == t;
        } else {
          assert events[n - 1].Start? && events[n - 1].t == t;
        }
      }
    }
  }

  /** A timer callback that fails stops the task once; what may stop it again later is a Start, never a callback. */
  lemma GiveUpsAreStarts(states: seq<Task>, events: seq<Event>, n: nat)
    requires Run(states, events) && states[0] == Init() && n < |events| && events[n].GiveUp?
    ensures exists i :: 0 <= i < n && events[i].Start? && events[i].t == events[n].t
  {
    StartersAlong(states, events, n);
    assert Started(events, n, events[n].t);
  }

  /**
   * From every closed state: a Start whose Execute fails can stop the task that a second Start has opened in
   * between, without any Close.
   */
  lemma FailedStartStopsNext(s: Task, t: nat, u: nat) returns (states: seq<Task>, events: seq<Event>)
    requires s.owner.None? && !s.running && t !in s.threads && u !in s.threads && t != u
    ensures Run(states, events) && states[0] == s && Close !in events && |events| > 1
    ensures var s' := states[|events|];
      && events[|events| - 2] == Start(u, true) && states[|events| - 1].running && s'.starts == s.starts + 2
      && !s'.running && u in s'.threads && s'.threads[u].pc.Check? && t !in s'.threads
  {
    var s1 := Apply(s, Start(t, true));
    var s2 := Apply(s1, Look(t));
    var s3 := Apply(s2, Lock(t));
    var s4 := Apply(s3, FinishErr(t));
    var s5 := Apply(s4, Start(u, true));
    var s6 := Apply(s5, GiveUp(t));
    states, events := [s, s1, s2, s3, s4, s5, s6], [Start(t, true), Look(t), Lock(t), FinishErr(t), Start(u, true), GiveUp(t)];
  }

  /* ---------- After the last Close ---------- */

  /** Callbacks past the closed check that will still call Execute. */
  ghost function Committed(s: Task): set<nat> {
    set t | t in s.threads && s.threads[t].pc == Enter(true)
  }

  lemma ClosedStep(s: Task, e: Event)
    requires Enabled(s, e) && !s.running && !e.Start?
    ensures var s' := Apply(s, e);
      && !s'.running && s'.armed <= s.armed
      && s'.execs + |Committed(s')| <= s.execs + |Committed(s)|
      && s.execs <= s'.execs
  {
    var s' := Apply(s, e);
    if e.Lock? && s.threads[e.t].pc.first {
      assert Committed(s') == Committed(s) - {e.t};
    } else {
      assert Committed(s') <= Committed(s);
      SubsetSize(Committed(s'), Committed(s));
    }
  }

  lemma {:induction false} SubsetSize(a: set<nat>, b: set<nat>)
    requires a <= b
    ensures |a| <= |b|
  {
    if a != {} {
      var x :| x in a;
      SubsetSize(a - {x}, b - {x});
    }
  }

  lemma {:induction false} ClosedRun(states: seq<Task>, events: seq<Event>, n: nat)
    requires Run(states, events) && n <= |events| && !states[0].running
    requires forall i :: 0 <= i < n ==> !events[i].Start?
    ensures !states[n].running && states[n].armed <= states[0].armed
    ensures states[n].execs + |Committed(states[n])| <= states[0].execs + |Committed(states[0])|
  {
    if n > 0 {
      ClosedRun(states, events, n - 1);
      ClosedStep(states[n - 1], events[n - 1]);
    }
  }

  /**
   * After a Close at step `c` with no Start later, no timer is armed any more, and Execute is entered
   * at most once for each callback that was past the closed check at the Close.
   */
  lemma AfterLastClose(states: seq<Task>, events: seq<Event>, c: nat, n: nat)
    requires Run(states, events) && c < n <= |events| && events[c] == Close
    requires forall i :: c < i < n ==> !events[i].Start?
    ensures states[n].armed <= states[c + 1].armed <= states[c].armed
    ensures states[n].execs - states[c].execs <= |Committed(states[c])|
  {
    var ss, es := states[c + 1..], events[c + 1..];
    assert Run(ss, es);
    ClosedRun(ss, es, n - c - 1);
    assert states[c + 1] == Apply(states[c], Close);
    assert Committed(states[c + 1]) == Committed(states[c]);
  }

  /* That bound is met from every state in which a Close can come. */

  /** A run without a Start leads from one state to the other. */
  ghost predicate Leads(s: Task, s': Task) {
    exists states, events :: Unstarted(states, events, s, s')
  }

  ghost predicate Unstarted(states: seq<Task>, events: seq<Event>, s: Task, s': Task) {
    && Run(states, events) && states[0] == s && states[|events|] == s'
    && forall i :: 0 <= i < |events| ==> !events[i].Start?
  }

  lemma RunMore(states: seq<Task>, events: seq<Event>, s: Task, e: Event, s': Task)
    requires Run(states, events) && states[|events|] == s && Enabled(s, e) && s' == Apply(s, e)
    ensures Run(states + [s'], events + [e])
  {
  }

  lemma LeadsOn(s0: Task, s: Task, e: Event)
    requires Leads(s0, s) && Enabled(s, e) && !e.Start?
    ensures Leads(s0, Apply(s, e))
  {
    var states, events :| Unstarted(states, events, s0, s);
    var s' := Apply(s, e);
    RunMore(states, events, s, e, s');
    assert Unstarted(states + [s'], events + [e], s0, s');
  }

  /** One committed callback runs Execute and is gone. */
  lemma RunCommitted(s0: Task, s: Task, t: nat) returns (s': Task)
    requires Leads(s0, s) && !s.running && s.owner.None? && t in Committed(s)
    ensures Leads(s0, s') && !s'.running && s'.owner.None? && s'.execs == s.execs + 1 && Committed(s') == Committed(s) - {t}
  {
    LeadsOn(s0, s, Lock(t));
    var s1 := Apply(s, Lock(t));
    LeadsOn(s0, s1, FinishOk(t));
    s' := Apply(s1, FinishOk(t));
  }

  lemma {:induction false} RunAllCommitted(s0: Task, s: Task) returns (s': Task)
    requires Leads(s0, s) && !s.running && s.owner.None?
    ensures Leads(s0, s') && s'.execs == s.execs + |Committed(s)|
    decreases |Committed(s)|
  {
    if Committed(s) == {} {
      s' := s;
    } else {
      var t :| t in Committed(s);
      var s1 := RunCommitted(s0, s, t);
      s' := RunAllCommitted(s0, s1);
    }
  }

  /** Without a Start, every thread of a closed task can come to its end. */
  lemma {:induction false} WindsDown(s0: Task, s: Task) returns (s': Task)
    requires Leads(s0, s) && Exclusive(s) && !s.running && s.owner.None?
    ensures Leads(s0, s') && s'.threads == map[] && !s'.running && s'.armed == s.armed
    decreases |s.threads|
  {
    if s.threads == map[] {
      s' := s;
    } else {
      var t :| t in s.threads;
      var s1 := EndThread(s0, s, t);
      RemoveSize(s.threads, t);
      s' := WindsDown(s0, s1);
    }
  }

  lemma EndThread(s0: Task, s: Task, t: nat) returns (s': Task)
    requires Leads(s0, s) && Exclusive(s) && !s.running && s.owner.None? && t in s.threads
    ensures Leads(s0, s') && s'.threads == s.threads - {t} && s'.armed == s.armed
    ensures Exclusive(s') && !s'.running && s'.owner.None?
  {
    var e := match s.threads[t].pc case Check(_) => Look(t) case Enter(_) => Lock(t) case Body => FinishOk(t) case Retire => GiveUp(t);
    LeadsOn(s0, s, e);
    s' := Apply(s, e);
    if s.threads[t].pc == Enter(true) {
      LeadsOn(s0, s', FinishOk(t));
      s' := Apply(s', FinishOk(t));
    }
  }

  /** Without a Start, Execute can be entered so many times after a Close, and no more. */
  ghost predicate LateExecutions(s: Task, n: nat)
    requires Enabled(s, Close)
  {
    && (exists s' :: Leads(Apply(s, Close), s') && s'.execs == s.execs + n)
    && (forall s' :: Leads(Apply(s, Close), s') ==> s'.execs <= s.execs + n)
  }

  /**
   * From every state in which a Close comes: without a later Start, Execute can be entered as many times as
   * there are callbacks past the closed check, and no more; so not at all exactly when there is none.
   */
  lemma LateExecution(s: Task)
    requires Enabled(s, Close)
    ensures LateExecutions(s, |Committed(s)|)
    ensures (forall s' :: Leads(Apply(s, Close), s') ==> s'.execs <= s.execs) <==> Committed(s) == {}
  {
    var c := Apply(s, Close);
    assert Committed(c) == Committed(s);
    assert Unstarted([c], [], c, c);
    var last := RunAllCommitted(c, c);
    forall s' | Leads(c, s') ensures s'.execs <= s.execs + |Committed(s)| {
      var states, events :| Unstarted(states, events, c, s');
      ClosedRun(states, events, |events|);
    }
    if Committed(s) != {} { assert |Committed(s)| > 0; }
  }
}
