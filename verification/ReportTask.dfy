/**
 * The report task at work: the periodic task's threads are the ones that run traffic reports
 * (node/task.go, node/user.go).  That only one report runs at a time is proved, not assumed.
 */
module ReportTask {
  import Task = TaskRuns
  import Traffic = TrafficRuns

  datatype System = System(task: Task.Task, traffic: Traffic.Traffic)

  datatype Event = OfTask(t: Task.Event) | OfTraffic(r: Traffic.Event)

  /** Reports are made inside Execute, which returns only when its report is done. */
  predicate Enabled(s: System, e: Event) {
    match e
    case OfTask(t) =>
      Task.Enabled(s.task, t) && (t.FinishOk? || t.FinishErr? ==> t.t !in s.traffic.reports)
    case OfTraffic(r) =>
      Traffic.Enabled(s.traffic, r) && (r.Begin? ==> r.t in s.task.threads && s.task.threads[r.t].pc.Body?)
  }

  function Apply(s: System, e: Event): System
    requires Enabled(s, e)
  {
    match e
    case OfTask(t) => s.(task := Task.Apply(s.task, t))
    case OfTraffic(r) => s.(traffic := Traffic.Apply(s.traffic, r))
  }

  function Init(minBytes: int, uids: map<string, int>): System {
    System(Task.Init(), Traffic.Init(minBytes, uids))
  }

  ghost predicate Run(states: seq<System>, events: seq<Event>) {
    && |states| == |events| + 1
    && forall i :: 0 <= i < |events| ==> Enabled(states[i], events[i]) && states[i + 1] == Apply(states[i], events[i])
  }

  /** Every report belongs to the thread inside Execute. */
  ghost predicate ReportsInBody(s: System) {
    forall t :: t in s.traffic.reports ==> t in s.task.threads && s.task.threads[t].pc.Body?
  }

  ghost predicate Invariant(s: System) {
    Task.Exclusive(s.task) && Task.ChainsBounded(s.task) && ReportsInBody(s)
  }

  lemma TaskStepInvariant(s: System, e: Task.Event)
    requires Enabled(s, OfTask(e)) && Invariant(s)
    ensures Invariant(Apply(s, OfTask(e)))
  {
    Task.StepInvariant(s.task, e);
    forall t | t in s.traffic.reports
      ensures t in Task.Apply(s.task, e).threads && Task.Apply(s.task, e).threads[t].pc.Body?
    {
      Task.BodyStays(s.task, e, t);
    }
  }

  lemma InvariantStep(s: System, e: Event)
    requires Enabled(s, e) && Invariant(s)
    ensures Invariant(Apply(s, e))
  {
    match e
    case OfTask(t) => TaskStepInvariant(s, t);
    case OfTraffic(r) => Traffic.ReportsOnlyBegun(s.traffic, r);
  }

  ghost predicate Good(s: System, k: Traffic.Cell) {
    Invariant(s) && Traffic.Solo(s.traffic) && Traffic.ReportOk(s.traffic, Traffic.Current(s.traffic.reports), k)
  }

  lemma InvariantIsSolo(s: System)
    requires Invariant(s)
    ensures Traffic.Solo(s.traffic)
  {
  }

  lemma {:induction false} RunGood(states: seq<System>, events: seq<Event>, n: nat, k: Traffic.Cell, minBytes: int, uids: map<string, int>)
    requires Run(states, events) && states[0] == Init(minBytes, uids) && n <= |events|
    ensures Good(states[n], k)
  {
    if n > 0 {
      RunGood(states, events, n - 1, k, minBytes, uids);
      var s, e := states[n - 1], events[n - 1];
      InvariantStep(s, e);
      InvariantIsSolo(states[n]);
      if e.OfTraffic? {
        Traffic.StepBalances(s.traffic, e.r, k);
      }
    }
  }

  /**
   * In every interleaving of Start, Close, timer callbacks, writers, user changes and report steps:
   * one report at a time, and never more bytes reported than added.
   */
  lemma ReportsNeverExceedTraffic(states: seq<System>, events: seq<Event>, n: nat, k: Traffic.Cell, minBytes: int, uids: map<string, int>)
    requires Run(states, events) && states[0] == Init(minBytes, uids) && n <= |events|
    ensures Traffic.Solo(states[n].traffic)
    ensures Traffic.At(states[n].traffic.reported, k) + Traffic.At(states[n].traffic.held, k) <= Traffic.At(states[n].traffic.added, k)
  {
    RunGood(states, events, n, k, minBytes, uids);
  }

  /* ---------- Conservation in the whole system ---------- */

  /** The traffic steps of a run, and the states between them. */
  function TrafficEvents(events: seq<Event>): seq<Traffic.Event> {
    if events == [] then []
    else
      var p, e := events[..|events| - 1], events[|events| - 1];
      TrafficEvents(p) + if e.OfTraffic? then [e.r] else []
  }

  function TrafficStates(states: seq<System>, events: seq<Event>): (r: seq<Traffic.Traffic>)
    requires |states| == |events| + 1
    ensures |r| == |TrafficEvents(events)| + 1
  {
    if events == [] then [states[0].traffic]
    else
      var n := |events|;
      TrafficStates(states[..n], events[..n - 1]) + if events[n - 1].OfTraffic? then [states[n].traffic] else []
  }

  lemma SoloMore(ts: seq<Traffic.Traffic>, es: seq<Traffic.Event>, e: Traffic.Event, s': Traffic.Traffic)
    requires Traffic.Run(ts, es) && Traffic.OneReporter(ts, |es|)
    requires Traffic.Enabled(ts[|es|], e) && s' == Traffic.Apply(ts[|es|], e) && Traffic.Solo(s')
    ensures Traffic.Run(ts + [s'], es + [e]) && Traffic.OneReporter(ts + [s'], |es| + 1)
  {
  }

  /** Left to itself the traffic part of a run is a run with one reporter. */
  lemma {:induction false} TrafficOfRun(states: seq<System>, events: seq<Event>, minBytes: int, uids: map<string, int>)
    requires Run(states, events) && states[0] == Init(minBytes, uids)
    ensures var ts, es := TrafficStates(states, events), TrafficEvents(events);
      && Traffic.Run(ts, es) && Traffic.OneReporter(ts, |es|)
      && ts[0] == Traffic.Init(minBytes, uids) && ts[|es|] == states[|events|].traffic
  {
    if events != [] {
      var n := |events|;
      var states', events' := states[..n], events[..n - 1];
      assert Run(states', events');
      TrafficOfRun(states', events', minBytes, uids);
      var s, e := states[n - 1], events[n - 1];
      if e.OfTraffic? {
        RunGood(states, events, n, Traffic.Cell(0, true), minBytes, uids);
        SoloMore(TrafficStates(states', events'), TrafficEvents(events'), e.r, states[n].traffic);
      }
    }
  }

  /**
   * In every interleaving of Start, Close, timer callbacks, writers, user changes and report steps, no
   * byte is missing exactly when none has been added between a load and the store of zero after it.
   */
  lemma SystemConservesIff(states: seq<System>, events: seq<Event>, k: Traffic.Cell, minBytes: int, uids: map<string, int>)
    requires Run(states, events) && states[0] == Init(minBytes, uids)
    ensures var ts, es := TrafficStates(states, events), TrafficEvents(events);
      Traffic.Conserved(states[|events|].traffic, k) <==> Traffic.LateBytes(ts, es, |es|, k).late == 0
  {
    TrafficOfRun(states, events, minBytes, uids);
    var ts, es := TrafficStates(states, events), TrafficEvents(events);
    Traffic.TrafficConservedIff(ts, es, |es|, k, minBytes, uids);
  }
}
