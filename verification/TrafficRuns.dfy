/**
 * Traffic accounting as interleaved atomic steps: writers add to counters they hold, while a report
 * loads, zeroes and appends entry by entry (common/counter/traffic.go, core/xray/user.go).
 */
module TrafficRuns {

  /** One of the two counters of a storage object. */
  datatype Cell = Cell(storage: nat, up: bool)

  /** Where a report stands. */
  datatype Report =
    | Ranging(seen: set<string>)
    | LoadedUp(seen: set<string>, email: string, id: nat, upBytes: int)
    | Loaded(seen: set<string>, email: string, id: nat, upBytes: int, downBytes: int)
    | ZeroedUp(seen: set<string>, email: string, id: nat, upBytes: int, downBytes: int)
    | Zeroed(seen: set<string>, email: string, id: nat, upBytes: int, downBytes: int)

  datatype Traffic = Traffic(
    minBytes: int,
    uids: map<string, int>,
    entries: map<string, nat>,  // the counter map: user key to storage object
    home: map<nat, string>,     // every storage object ever made, with its user key
    held: map<Cell, int>,
    reports: map<nat, Report>,  // by thread
    // history
    added: map<Cell, int>,
    reported: map<Cell, int>,
    discarded: map<Cell, int>,  // zeroed for a user without a uid
    lost: map<Cell, int>)       // added between a load and the zeroing after it

  datatype Event =
    | Add(cell: Cell, n: nat)
    | Create(email: string, id: nat)
    | Remove(email: string)
    | SetUids(uids: map<string, int>)
    | Begin(t: nat)
    | LoadUp(t: nat, email: string, id: nat)
    | LoadDown(t: nat)
    | StoreUp(t: nat)
    | StoreDown(t: nat)
    | Emit(t: nat)
    | End(t: nat)

  function At(m: map<Cell, int>, k: Cell): int { if k in m then m[k] else 0 }

  function Plus(m: map<Cell, int>, k: Cell, n: int): map<Cell, int> { m[k := At(m, k) + n] }

  function Init(minBytes: int, uids: map<string, int>): Traffic {
    Traffic(minBytes, uids, map[], map[], map[], map[], map[], map[], map[], map[])
  }

  /** A writer may still hold a storage object that has left the map; a report may visit one as well. */
  predicate Enabled(s: Traffic, e: Event) {
    match e
    case Add(cell, n) => cell.storage in s.home
    case Create(email, id) => email !in s.entries && id !in s.home
    case Remove(email) => true
    case SetUids(_) => s.reports == map[]
    case Begin(t) => t !in s.reports
    case LoadUp(t, email, id) =>
      t in s.reports && s.reports[t].Ranging? && email !in s.reports[t].seen && id in s.home && s.home[id] == email
    case LoadDown(t) => t in s.reports && s.reports[t].LoadedUp?
    case StoreUp(t) => t in s.reports && s.reports[t].Loaded?
    case StoreDown(t) => t in s.reports && s.reports[t].ZeroedUp?
    case Emit(t) => t in s.reports && s.reports[t].Zeroed?
    case End(t) => t in s.reports && s.reports[t].Ranging?
  }

  function Apply(s: Traffic, e: Event): Traffic
    requires Enabled(s, e)
  {
    match e
    case Add(cell, n) => s.(held := Plus(s.held, cell, n), added := Plus(s.added, cell, n))
    case Create(email, id) => s.(entries := s.entries[email := id], home := s.home[id := email])
    case Remove(email) => s.(entries := s.entries - {email})
    case SetUids(uids) => s.(uids := uids)
    case Begin(t) => s.(reports := s.reports[t := Ranging({})])
    case LoadUp(t, email, id) =>
      s.(reports := s.reports[t := LoadedUp(s.reports[t].seen + {email}, email, id, At(s.held, Cell(id, true)))])
    case LoadDown(t) =>
      var r := s.reports[t];
      var down := At(s.held, Cell(r.id, false));
      s.(reports := s.reports[t :=
        if r.upBytes + down > s.minBytes then Loaded(r.seen, r.email, r.id, r.upBytes, down) else Ranging(r.seen)])
    case StoreUp(t) =>
      var r := s.reports[t];
      var k := Cell(r.id, true);
      s.(held := s.held[k := 0], lost := Plus(s.lost, k, At(s.held, k) - r.upBytes),
         reports := s.reports[t := ZeroedUp(r.seen, r.email, r.id, r.upBytes, r.downBytes)])
    case StoreDown(t) =>
      var r := s.reports[t];
      var k := Cell(r.id, false);
      s.(held := s.held[k := 0], lost := Plus(s.lost, k, At(s.held, k) - r.downBytes),
         reports := s.reports[t := Zeroed(r.seen, r.email, r.id, r.upBytes, r.downBytes)])
    case Emit(t) =>
      var r := s.reports[t];
      var s1 := s.(reports := s.reports[t := Ranging(r.seen)]);
      if r.email !in s.uids || s.uids[r.email] == 0
      then s1.(entries := s.entries - {r.email}, discarded := PlusBoth(s.discarded, r.id, r.upBytes, r.downBytes))
      else s1.(reported := PlusBoth(s.reported, r.id, r.upBytes, r.downBytes))
    case End(t) => s.(reports := s.reports - {t})
  }

  function PlusBoth(m: map<Cell, int>, id: nat, up: int, down: int): map<Cell, int> {
    Plus(Plus(m, Cell(id, true), up), Cell(id, false), down)
  }

  ghost predicate Run(states: seq<Traffic>, events: seq<Event>) {
    && |states| == |events| + 1
    && forall i :: 0 <= i < |events| ==> Enabled(states[i], events[i]) && states[i + 1] == Apply(states[i], events[i])
  }

  /* ---------- The books balance ---------- */

  /** Bytes a report has zeroed but not yet booked. */
  function InHand(r: Report, k: Cell): int {
    if (r.ZeroedUp? || r.Zeroed?) && k == Cell(r.id, true) then r.upBytes
    else if r.Zeroed? && k == Cell(r.id, false) then r.downBytes
    else 0
  }

  /** The report has loaded this counter and not zeroed it yet. */
  predicate InWindow(r: Report, k: Cell) {
    || ((r.LoadedUp? || r.Loaded?) && k == Cell(r.id, true))
    || ((r.Loaded? || r.ZeroedUp?) && k == Cell(r.id, false))
  }

  function LoadedBytes(r: Report, k: Cell): int
    requires InWindow(r, k)
  {
    if k.up then r.upBytes else r.downBytes
  }

  ghost predicate Balances(s: Traffic, k: Cell, hand: int) {
    && At(s.added, k) == At(s.held, k) + At(s.reported, k) + At(s.discarded, k) + At(s.lost, k) + hand
    && 0 <= At(s.held, k) && 0 <= At(s.lost, k) && 0 <= At(s.discarded, k) && 0 <= At(s.reported, k) && 0 <= hand
  }

  ghost predicate ReportOk(s: Traffic, r: Report, k: Cell) {
    && Balances(s, k, InHand(r, k))
    && (InWindow(r, k) ==> 0 <= LoadedBytes(r, k) <= At(s.held, k))
  }

  /** At most one report is under way. */
  ghost predicate Solo(s: Traffic) {
    forall t, u :: t in s.reports && u in s.reports ==> t == u
  }

  /** The report under way, or one that has nothing in hand. */
  ghost function Current(reports: map<nat, Report>): Report {
    if t :| t in reports then reports[t] else Ranging({})
  }

  lemma CurrentIs(s: Traffic, t: nat)
    requires Solo(s) && t in s.reports
    ensures Current(s.reports) == s.reports[t]
  {
  }

  /** The thread a report step belongs to. */
  predicate ReportStep(e: Event) {
    e.LoadUp? || e.LoadDown? || e.StoreUp? || e.StoreDown? || e.Emit?
  }

  lemma LoadBalances(s: Traffic, e: Event, k: Cell)
    requires (e.LoadUp? || e.LoadDown?) && Enabled(s, e) && ReportOk(s, s.reports[e.t], k)
    ensures ReportOk(Apply(s, e), Apply(s, e).reports[e.t], k)
  {
    assert k.up || k == Cell(k.storage, false);
  }

  lemma StoreUpBalances(s: Traffic, t: nat, k: Cell)
    requires Enabled(s, StoreUp(t)) && ReportOk(s, s.reports[t], k)
    ensures ReportOk(Apply(s, StoreUp(t)), Apply(s, StoreUp(t)).reports[t], k)
  {
  }

  lemma StoreDownBalances(s: Traffic, t: nat, k: Cell)
    requires Enabled(s, StoreDown(t)) && ReportOk(s, s.reports[t], k)
    ensures ReportOk(Apply(s, StoreDown(t)), Apply(s, StoreDown(t)).reports[t], k)
  {
  }

  lemma PlusBothAt(m: map<Cell, int>, id: nat, up: int, down: int, k: Cell)
    ensures At(PlusBoth(m, id, up, down), k) == At(m, k) + if k.storage != id then 0 else if k.up then up else down
  {
    assert k == Cell(k.storage, k.up);
  }

  lemma EmitShape(s: Traffic, t: nat)
    requires Enabled(s, Emit(t))
    ensures var r, s' := s.reports[t], Apply(s, Emit(t));
      && s'.added == s.added && s'.held == s.held && s'.lost == s.lost && s'.reports == s.reports[t := Ranging(r.seen)]
      && (|| (s'.discarded == PlusBoth(s.discarded, r.id, r.upBytes, r.downBytes) && s'.reported == s.reported)
          || (s'.reported == PlusBoth(s.reported, r.id, r.upBytes, r.downBytes) && s'.discarded == s.discarded))
  {
  }

  lemma HandOfZeroed(r: Report, k: Cell)
    requires r.Zeroed?
    ensures InHand(r, k) == if k.storage != r.id then 0 else if k.up then r.upBytes else r.downBytes
  {
    assert k == Cell(k.storage, k.up);
  }

  lemma EmitBalances(s: Traffic, t: nat, k: Cell)
    requires Enabled(s, Emit(t)) && ReportOk(s, s.reports[t], k)
    ensures ReportOk(Apply(s, Emit(t)), Apply(s, Emit(t)).reports[t], k)
  {
    var r, s' := s.reports[t], Apply(s, Emit(t));
    EmitShape(s, t);
    HandOfZeroed(r, k);
    PlusBothAt(s.reported, r.id, r.upBytes, r.downBytes, k);
    PlusBothAt(s.discarded, r.id, r.upBytes, r.downBytes, k);
    assert Balances(s', k, 0);
  }

  lemma OtherBalances(s: Traffic, e: Event, r: Report, k: Cell)
    requires !ReportStep(e) && Enabled(s, e) && ReportOk(s, r, k)
    ensures ReportOk(Apply(s, e), r, k)
  {
  }

  lemma ReportStepBalances(s: Traffic, e: Event, k: Cell)
    requires ReportStep(e) && Enabled(s, e) && ReportOk(s, s.reports[e.t], k)
    ensures ReportOk(Apply(s, e), Apply(s, e).reports[e.t], k)
  {
    match e
    case LoadUp(_, _, _) => LoadBalances(s, e, k);
    case LoadDown(_) => LoadBalances(s, e, k);
    case StoreUp(t) => StoreUpBalances(s, t, k);
    case StoreDown(t) => StoreDownBalances(s, t, k);
    case Emit(t) => EmitBalances(s, t, k);
  }

  lemma OtherStepBalances(s: Traffic, e: Event, k: Cell)
    requires !ReportStep(e) && Enabled(s, e) && Solo(s) && Solo(Apply(s, e)) && ReportOk(s, Current(s.reports), k)
    ensures ReportOk(Apply(s, e), Current(Apply(s, e).reports), k)
  {
    OtherBalances(s, e, Current(s.reports), k);
    ReportsAfter(s, e);
  }

  lemma StepBalances(s: Traffic, e: Event, k: Cell)
    requires Enabled(s, e) && Solo(s) && Solo(Apply(s, e)) && ReportOk(s, Current(s.reports), k)
    ensures ReportOk(Apply(s, e), Current(Apply(s, e).reports), k)
  {
    if ReportStep(e) {
      CurrentIs(s, e.t);
      CurrentIs(Apply(s, e), e.t);
      ReportStepBalances(s, e, k);
    } else {
      OtherStepBalances(s, e, k);
    }
  }

  /** A report step moves its own report on and no other. */
  lemma LoadReports(s: Traffic, e: Event)
    requires (e.LoadUp? || e.LoadDown?) && Enabled(s, e)
    ensures Apply(s, e).reports.Keys == s.reports.Keys
  {
  }

  lemma StoreReports(s: Traffic, e: Event)
    requires (e.StoreUp? || e.StoreDown?) && Enabled(s, e)
    ensures Apply(s, e).reports.Keys == s.reports.Keys
  {
  }

  lemma EmitReports(s: Traffic, t: nat)
    requires Enabled(s, Emit(t))
    ensures Apply(s, Emit(t)).reports.Keys == s.reports.Keys
  {
    EmitShape(s, t);
    KeysKept(s.reports, t, Ranging(s.reports[t].seen));
  }

  lemma KeysKept(reports: map<nat, Report>, t: nat, r: Report)
    requires t in reports
    ensures reports[t := r].Keys == reports.Keys
  {
  }

  /** Only Begin starts a report. */
  lemma ReportsOnlyBegun(s: Traffic, e: Event)
    requires Enabled(s, e)
    ensures Apply(s, e).reports.Keys <= s.reports.Keys + if e.Begin? then {e.t} else {}
  {
    if e.LoadUp? || e.LoadDown? {
      LoadReports(s, e);
    } else if e.Emit? {
      EmitReports(s, e.t);
    } else if ReportStep(e) {
      StoreReports(s, e);
    }
  }

  /** Beginning and ending a report happen with nothing in hand. */
  lemma ReportsAfter(s: Traffic, e: Event)
    requires !ReportStep(e) && Enabled(s, e) && Solo(s) && Solo(Apply(s, e))
    ensures Current(Apply(s, e).reports) == Current(s.reports)
         || (Current(Apply(s, e).reports).Ranging? && Current(s.reports).Ranging?)
  {
    var s' := Apply(s, e);
    if e.Begin? {
      CurrentIs(s', e.t);
      assert forall u :: u in s.reports ==> u in s'.reports;
      assert s.reports == map[];
    }
    if e.End? {
      CurrentIs(s, e.t);
      assert forall u :: u in s.reports ==> u == e.t;
      assert s'.reports == map[];
    }
  }

  ghost predicate OneReporter(states: seq<Traffic>, n: nat)
    requires n < |states|
  {
    forall i :: 0 <= i <= n ==> Solo(states[i])
  }

  /**
   * The books balance in every interleaving with one reporter: bytes added are held, reported,
   * discarded for want of a uid, lost in a load-to-zero window, or in the reporter's hand.
   */
  lemma {:induction false} RunBalances(states: seq<Traffic>, events: seq<Event>, n: nat, k: Cell, minBytes: int, uids: map<string, int>)
    requires Run(states, events) && states[0] == Init(minBytes, uids) && n <= |events| && OneReporter(states, n)
    ensures ReportOk(states[n], Current(states[n].reports), k)
  {
    if n > 0 {
      RunBalances(states, events, n - 1, k, minBytes, uids);
      assert Solo(states[n - 1]) && Solo(states[n]);
      StepBalances(states[n - 1], events[n - 1], k);
    }
  }

  /** Traffic is never over-reported. */
  lemma NeverOverReports(states: seq<Traffic>, events: seq<Event>, n: nat, k: Cell, minBytes: int, uids: map<string, int>)
    requires Run(states, events) && states[0] == Init(minBytes, uids) && n <= |events| && OneReporter(states, n)
    ensures At(states[n].reported, k) + At(states[n].held, k) <= At(states[n].added, k)
  {
    RunBalances(states, events, n, k, minBytes, uids);
  }

  /* ---------- What is lost is what lands between a load and its zeroing ---------- */

  /** Read off a run: bytes added in windows closed by a store of zero, and in the window open now. */
  datatype Tally = Tally(late: int, window: int)

  function AddedBytes(e: Event, k: Cell): nat {
    if e.Add? && e.cell == k then e.n else 0
  }

  /** The step zeroes this counter in the window open on it. */
  predicate Zeroes(e: Event, r: Report, k: Cell) {
    InWindow(r, k) && ((e.StoreUp? && k.up) || (e.StoreDown? && !k.up))
  }

  function NextTally(c: Tally, e: Event, r: Report, r': Report, k: Cell): Tally {
    Tally(c.late + (if Zeroes(e, r, k) then c.window else 0),
          if InWindow(r, k) && InWindow(r', k) then c.window + AddedBytes(e, k) else 0)
  }

  ghost function LateBytes(states: seq<Traffic>, events: seq<Event>, n: nat, k: Cell): Tally
    requires n <= |events| < |states|
  {
    if n == 0 then Tally(0, 0)
    else
      NextTally(LateBytes(states, events, n - 1, k), events[n - 1],
                Current(states[n - 1].reports), Current(states[n].reports), k)
  }

  /** The tally is what has been lost, and what the open window has not loaded. */
  ghost predicate Tallied(s: Traffic, r: Report, k: Cell, c: Tally) {
    At(s.lost, k) == c.late && (InWindow(r, k) ==> At(s.held, k) == LoadedBytes(r, k) + c.window)
  }

  lemma LoadTallied(s: Traffic, e: Event, k: Cell, c: Tally)
    requires (e.LoadUp? || e.LoadDown?) && Enabled(s, e) && Tallied(s, s.reports[e.t], k, c)
    ensures var r, s' := s.reports[e.t], Apply(s, e); Tallied(s', s'.reports[e.t], k, NextTally(c, e, r, s'.reports[e.t], k))
  {
    assert k.up || k == Cell(k.storage, false);
  }

  lemma StoreUpTallied(s: Traffic, t: nat, k: Cell, c: Tally)
    requires Enabled(s, StoreUp(t)) && Tallied(s, s.reports[t], k, c)
    ensures var r, s' := s.reports[t], Apply(s, StoreUp(t));
      Tallied(s', s'.reports[t], k, NextTally(c, StoreUp(t), r, s'.reports[t], k))
  {
    assert k == Cell(k.storage, k.up);
  }

  lemma StoreDownTallied(s: Traffic, t: nat, k: Cell, c: Tally)
    requires Enabled(s, StoreDown(t)) && Tallied(s, s.reports[t], k, c)
    ensures var r, s' := s.reports[t], Apply(s, StoreDown(t));
      Tallied(s', s'.reports[t], k, NextTally(c, StoreDown(t), r, s'.reports[t], k))
  {
    assert k == Cell(k.storage, k.up);
  }

  lemma ReportStepTallied(s: Traffic, e: Event, k: Cell, c: Tally)
    requires ReportStep(e) && Enabled(s, e) && Tallied(s, s.reports[e.t], k, c)
    ensures e.t in Apply(s, e).reports
    ensures var r, s' := s.reports[e.t], Apply(s, e); Tallied(s', s'.reports[e.t], k, NextTally(c, e, r, s'.reports[e.t], k))
  {
    match e
    case LoadUp(_, _, _) => LoadTallied(s, e, k, c);
    case LoadDown(_) => LoadTallied(s, e, k, c);
    case StoreUp(t) => StoreUpTallied(s, t, k, c);
    case StoreDown(t) => StoreDownTallied(s, t, k, c);
    case Emit(t) => EmitShape(s, t);
  }

  lemma OtherStepTallied(s: Traffic, e: Event, k: Cell, c: Tally)
    requires !ReportStep(e) && Enabled(s, e) && Solo(s) && Solo(Apply(s, e)) && Tallied(s, Current(s.reports), k, c)
    ensures var r, s' := Current(s.reports), Apply(s, e);
      Tallied(s', Current(s'.reports), k, NextTally(c, e, r, Current(s'.reports), k))
  {
    ReportsAfter(s, e);
  }

  lemma StepTallied(s: Traffic, e: Event, k: Cell, c: Tally)
    requires Enabled(s, e) && Solo(s) && Solo(Apply(s, e)) && Tallied(s, Current(s.reports), k, c)
    ensures var r, s' := Current(s.reports), Apply(s, e);
      Tallied(s', Current(s'.reports), k, NextTally(c, e, r, Current(s'.reports), k))
  {
    if ReportStep(e) {
      CurrentIs(s, e.t);
      ReportStepTallied(s, e, k, c);
      CurrentIs(Apply(s, e), e.t);
    } else {
      OtherStepTallied(s, e, k, c);
    }
  }

  /** In every interleaving with one reporter, exactly the bytes added between a load and the store of zero after it are lost. */
  lemma {:induction false} LostIsLate(states: seq<Traffic>, events: seq<Event>, n: nat, k: Cell, minBytes: int, uids: map<string, int>)
    requires Run(states, events) && states[0] == Init(minBytes, uids) && n <= |events| && OneReporter(states, n)
    ensures Tallied(states[n], Current(states[n].reports), k, LateBytes(states, events, n, k))
  {
    if n > 0 {
      LostIsLate(states, events, n - 1, k, minBytes, uids);
      assert Solo(states[n - 1]) && Solo(states[n]);
      StepTallied(states[n - 1], events[n - 1], k, LateBytes(states, events, n - 1, k));
    }
  }

  /** Every byte added is reported, still held, discarded for want of a uid, or in hand. */
  ghost predicate Conserved(s: Traffic, k: Cell) {
    At(s.added, k) == At(s.reported, k) + At(s.held, k) + At(s.discarded, k) + InHand(Current(s.reports), k)
  }

  /**
   * Conservation, for every run with one reporter: no byte is missing from a storage object, in the map
   * or out of it, exactly when no byte has been added between a load and the store of zero after it.
   */
  lemma TrafficConservedIff(states: seq<Traffic>, events: seq<Event>, n: nat, k: Cell, minBytes: int, uids: map<string, int>)
    requires Run(states, events) && states[0] == Init(minBytes, uids) && n <= |events| && OneReporter(states, n)
    ensures Conserved(states[n], k) <==> LateBytes(states, events, n, k).late == 0
  {
    RunBalances(states, events, n, k, minBytes, uids);
    LostIsLate(states, events, n, k, minBytes, uids);
  }

  lemma {:induction false} LateBytesGrow(states: seq<Traffic>, events: seq<Event>, i: nat, n: nat, k: Cell)
    requires i <= n <= |events| < |states|
    ensures 0 <= LateBytes(states, events, i, k).late <= LateBytes(states, events, n, k).late
    ensures 0 <= LateBytes(states, events, n, k).window
  {
    if i < n {
      LateBytesGrow(states, events, i, n - 1, k);
    } else if n > 0 {
      LateBytesGrow(states, events, n - 1, n - 1, k);
    }
  }

  ghost predicate WindowOpen(states: seq<Traffic>, i: nat, j: nat, k: Cell)
    requires i <= j < |states|
  {
    forall m :: i <= m <= j ==> InWindow(Current(states[m].reports), k)
  }

  lemma {:induction false} WindowGrows(states: seq<Traffic>, events: seq<Event>, i: nat, j: nat, k: Cell)
    requires i < j <= |events| < |states| && WindowOpen(states, i, j, k)
    ensures LateBytes(states, events, j, k).window >= AddedBytes(events[i], k)
  {
    LateBytesGrow(states, events, i, i, k);
    if i + 1 < j { WindowGrows(states, events, i, j - 1, k); }
  }

  /** Every add in a window that a store closes is lost, whatever comes before, between and after. */
  lemma LateAddIsLost(states: seq<Traffic>, events: seq<Event>, i: nat, j: nat, n: nat, k: Cell, minBytes: int, uids: map<string, int>)
    requires Run(states, events) && states[0] == Init(minBytes, uids) && n <= |events| && OneReporter(states, n)
    requires i < j < n && WindowOpen(states, i, j, k) && Zeroes(events[j], Current(states[j].reports), k)
    ensures At(states[n].lost, k) >= AddedBytes(events[i], k)
  {
    LostIsLate(states, events, n, k, minBytes, uids);
    ClosedIsLate(states, events, i, j, n, k);
  }

  lemma ClosedIsLate(states: seq<Traffic>, events: seq<Event>, i: nat, j: nat, n: nat, k: Cell)
    requires i < j < n <= |events| < |states| && WindowOpen(states, i, j, k) && Zeroes(events[j], Current(states[j].reports), k)
    ensures LateBytes(states, events, n, k).late >= AddedBytes(events[i], k)
  {
    LateBytesGrow(states, events, j + 1, n, k);
    WindowGrows(states, events, i, j, k);
    LateBytesGrow(states, events, j, j, k);
    var c := LateBytes(states, events, j, k);
    assert LateBytes(states, events, j + 1, k).late == c.late + c.window;
  }

  /** From load to decision, for one entry with no add in between: below the threshold nothing changes hands. */
  lemma SmallTrafficCarriedForward(s: Traffic, t: nat, email: string, id: nat)
    requires Enabled(s, LoadUp(t, email, id))
    ensures var s1 := Apply(s, LoadUp(t, email, id));
      var s2 := Apply(s1, LoadDown(t));
      var total := At(s.held, Cell(id, true)) + At(s.held, Cell(id, false));
      && s2 == s.(reports := s2.reports)
      && (s2.reports[t].Ranging? <==> total <= s.minBytes)
  {
  }

  /* ---------- One entry of a report that nothing disturbs ---------- */

  /** From the load of an entry's upload bytes to the next entry. */
  ghost function Visited(s: Traffic, t: nat, email: string, id: nat): Traffic
    requires Enabled(s, LoadUp(t, email, id))
  {
    var loaded := Apply(Apply(s, LoadUp(t, email, id)), LoadDown(t));
    if loaded.reports[t].Ranging? then loaded else Apply(Apply(Apply(loaded, StoreUp(t)), StoreDown(t)), Emit(t))
  }

  /** So many more bytes of the storage object than before, and of no other. */
  ghost predicate Grown(m': map<Cell, int>, m: map<Cell, int>, id: nat, up: int, down: int) {
    forall k :: At(m', k) == At(m, k) + if k.storage != id then 0 else if k.up then up else down
  }

  lemma VisitLoads(s: Traffic, t: nat, email: string, id: nat)
    requires Enabled(s, LoadUp(t, email, id))
    ensures var up, down := At(s.held, Cell(id, true)), At(s.held, Cell(id, false));
      var seen := s.reports[t].seen + {email};
      Apply(Apply(s, LoadUp(t, email, id)), LoadDown(t)) ==
        s.(reports := s.reports[t := if up + down > s.minBytes then Loaded(seen, email, id, up, down) else Ranging(seen)])
  {
    SmallTrafficCarriedForward(s, t, email, id);
    var s2 := Apply(Apply(s, LoadUp(t, email, id)), LoadDown(t));
    assert s2.reports == s.reports[t := s2.reports[t]];
  }

  lemma VisitStores(s: Traffic, t: nat)
    requires Enabled(s, StoreUp(t)) && var r := s.reports[t];
      r.upBytes == At(s.held, Cell(r.id, true)) && r.downBytes == At(s.held, Cell(r.id, false))
    ensures var r, s' := s.reports[t], Apply(Apply(s, StoreUp(t)), StoreDown(t));
      && s' == s.(held := s'.held, lost := s'.lost, reports := s.reports[t := Zeroed(r.seen, r.email, r.id, r.upBytes, r.downBytes)])
      && Grown(s'.held, s.held, r.id, -r.upBytes, -r.downBytes) && Grown(s'.lost, s.lost, r.id, 0, 0)
  {
    var r, s' := s.reports[t], Apply(Apply(s, StoreUp(t)), StoreDown(t));
    assert s'.reports == s.reports[t := s'.reports[t]];
    forall k ensures At(s'.held, k) == At(s.held, k) + if k.storage != r.id then 0 else if k.up then -r.upBytes else -r.downBytes {
      assert k == Cell(k.storage, k.up);
    }
    forall k ensures At(s'.lost, k) == At(s.lost, k) { assert k == Cell(k.storage, k.up); }
  }

  lemma PlusBothGrown(m: map<Cell, int>, id: nat, up: int, down: int)
    ensures Grown(PlusBoth(m, id, up, down), m, id, up, down)
  {
    forall k ensures At(PlusBoth(m, id, up, down), k) == At(m, k) + if k.storage != id then 0 else if k.up then up else down {
      PlusBothAt(m, id, up, down, k);
    }
  }

  /** Nothing but the books, the counters, the entries and the report itself has changed. */
  ghost predicate OnlyBooked(s: Traffic, s': Traffic, t: nat, seen: set<string>)
  {
    s' == s.(reports := s.reports[t := Ranging(seen)], entries := s'.entries, held := s'.held, lost := s'.lost,
             reported := s'.reported, discarded := s'.discarded)
  }

  predicate KnownUser(s: Traffic, email: string) { email in s.uids && s.uids[email] != 0 }

  lemma EmitKnown(s: Traffic, t: nat)
    requires Enabled(s, Emit(t)) && KnownUser(s, s.reports[t].email)
    ensures var r := s.reports[t];
      Apply(s, Emit(t)) ==
        s.(reports := s.reports[t := Ranging(r.seen)], reported := PlusBoth(s.reported, r.id, r.upBytes, r.downBytes))
  {
  }

  lemma EmitUnknown(s: Traffic, t: nat)
    requires Enabled(s, Emit(t)) && !KnownUser(s, s.reports[t].email)
    ensures var r := s.reports[t];
      Apply(s, Emit(t)) ==
        s.(reports := s.reports[t := Ranging(r.seen)], entries := s.entries - {r.email},
           discarded := PlusBoth(s.discarded, r.id, r.upBytes, r.downBytes))
  {
  }

  /** What an emit makes of the books and the entries, for the bytes it has in hand. */
  ghost predicate Emitted(s: Traffic, s': Traffic, email: string, id: nat, up: int, down: int) {
    if KnownUser(s, email)
    then s'.entries == s.entries && s'.discarded == s.discarded && Grown(s'.reported, s.reported, id, up, down)
    else s'.entries == s.entries - {email} && s'.reported == s.reported && Grown(s'.discarded, s.discarded, id, up, down)
  }

  lemma VisitEmits(s: Traffic, t: nat) returns (s': Traffic)
    requires Enabled(s, Emit(t))
    ensures s' == Apply(s, Emit(t)) && s'.held == s.held && s'.lost == s.lost
    ensures var r := s.reports[t]; OnlyBooked(s, s', t, r.seen) && Emitted(s, s', r.email, r.id, r.upBytes, r.downBytes)
  {
    var r := s.reports[t];
    if KnownUser(s, r.email) {
      EmitKnown(s, t);
      PlusBothGrown(s.reported, r.id, r.upBytes, r.downBytes);
    } else {
      EmitUnknown(s, t);
      PlusBothGrown(s.discarded, r.id, r.upBytes, r.downBytes);
    }
    s' := Apply(s, Emit(t));
  }

  /** The bytes loaded are all reported, or all discarded with the entry. */
  ghost predicate Booked(s: Traffic, s': Traffic, email: string, id: nat, up: int, down: int) {
    Grown(s'.held, s.held, id, -up, -down) && Grown(s'.lost, s.lost, id, 0, 0) && Emitted(s, s', email, id, up, down)
  }

  lemma VisitBooks(s: Traffic, t: nat)
    requires Enabled(s, StoreUp(t)) && var r := s.reports[t];
      r.upBytes == At(s.held, Cell(r.id, true)) && r.downBytes == At(s.held, Cell(r.id, false))
    ensures var r, s' := s.reports[t], Apply(Apply(Apply(s, StoreUp(t)), StoreDown(t)), Emit(t));
      OnlyBooked(s, s', t, r.seen) && Booked(s, s', r.email, r.id, r.upBytes, r.downBytes)
  {
    VisitStores(s, t);
    var s1 := Apply(Apply(s, StoreUp(t)), StoreDown(t));
    var s2 := VisitEmits(s1, t);
    assert s1.reports[t := Ranging(s.reports[t].seen)] == s.reports[t := Ranging(s.reports[t].seen)];
  }

  /**
   * A visit that nothing disturbs: an entry up to the threshold keeps its bytes; of one above it, a known user's
   * are all reported, and an unknown user's all discarded with the entry; the counters are zero then, and
   * nothing is lost.
   */
  lemma EntryAlone(s: Traffic, t: nat, email: string, id: nat)
    requires Enabled(s, LoadUp(t, email, id))
    ensures var s', up, down := Visited(s, t, email, id), At(s.held, Cell(id, true)), At(s.held, Cell(id, false));
      var seen := s.reports[t].seen + {email};
      if up + down <= s.minBytes then s' == s.(reports := s.reports[t := Ranging(seen)])
      else OnlyBooked(s, s', t, seen) && Booked(s, s', email, id, up, down)
  {
    VisitLoads(s, t, email, id);
    var loaded := Apply(Apply(s, LoadUp(t, email, id)), LoadDown(t));
    if loaded.reports[t].Loaded? {
      VisitBooks(loaded, t);
      BookedFrom(s, loaded, Visited(s, t, email, id), t);
    }
  }

  /** The books do not depend on where the report stood. */
  lemma BookedFrom(s: Traffic, loaded: Traffic, s': Traffic, t: nat)
    requires t in loaded.reports && loaded.reports[t].Loaded? && loaded == s.(reports := s.reports[t := loaded.reports[t]])
    requires var r := loaded.reports[t]; OnlyBooked(loaded, s', t, r.seen) && Booked(loaded, s', r.email, r.id, r.upBytes, r.downBytes)
    ensures var r := loaded.reports[t]; OnlyBooked(s, s', t, r.seen) && Booked(s, s', r.email, r.id, r.upBytes, r.downBytes)
  {
    var seen := loaded.reports[t].seen;
    assert loaded.reports[t := Ranging(seen)] == s.reports[t := Ranging(seen)];
  }

  /* ---------- Entries come and go ---------- */

  /** The entry of a user leaves the map: it is removed, or a report finds the user without a uid. */
  predicate Leaves(s: Traffic, e: Event, email: string) {
    || e == Remove(email)
    || (e.Emit? && e.t in s.reports && s.reports[e.t].Zeroed? && s.reports[e.t].email == email
        && (email !in s.uids || s.uids[email] == 0))
  }

  /** One step, as the user's entry sees it. */
  ghost predicate EntryFollows(s: Traffic, e: Event, s': Traffic, email: string) {
    && (email in s'.entries <==> (e.Create? && e.email == email) || (email in s.entries && !Leaves(s, e, email)))
    && (email in s.entries && email in s'.entries ==> s'.entries[email] == s.entries[email])
  }

  lemma EntryStep(s: Traffic, e: Event, email: string)
    requires Enabled(s, e)
    ensures EntryFollows(s, e, Apply(s, e), email)
  {
    if e.Emit? {
      EmitEntry(s, e.t, email);
    } else {
      assert e.Create? || e.Remove? || Apply(s, e).entries == s.entries;
    }
  }

  lemma EmitEntry(s: Traffic, t: nat, email: string)
    requires Enabled(s, Emit(t))
    ensures EntryFollows(s, Emit(t), Apply(s, Emit(t)), email)
  {
    if KnownUser(s, s.reports[t].email) { EmitKnown(s, t); } else { EmitUnknown(s, t); }
  }

  lemma {:induction false} EntryAlong(states: seq<Traffic>, events: seq<Event>, i: nat, n: nat, email: string)
    requires i <= n <= |events| < |states| && email in states[i].entries
    requires forall j :: i <= j < n ==> EntryFollows(states[j], events[j], states[j + 1], email) && !Leaves(states[j], events[j], email)
    ensures email in states[n].entries && states[n].entries[email] == states[i].entries[email]
  {
    if i < n {
      EntryAlong(states, events, i, n - 1, email);
      assert EntryFollows(states[n - 1], events[n - 1], states[n], email);
    }
  }

  /** A user has one storage object until its entry leaves the map. */
  lemma OneObjectUntilGone(states: seq<Traffic>, events: seq<Event>, i: nat, n: nat, email: string)
    requires Run(states, events) && i <= n <= |events| && email in states[i].entries
    requires forall j :: i <= j < n ==> !Leaves(states[j], events[j], email)
    ensures email in states[n].entries && states[n].entries[email] == states[i].entries[email]
  {
    forall j | i <= j < n ensures EntryFollows(states[j], events[j], states[j + 1], email) {
      EntryStep(states[j], events[j], email);
    }
    EntryAlong(states, events, i, n, email);
  }

  /** An entry can be removed at any time; the user then starts with a storage object of its own. */
  lemma RemovedReturnsFresh(s: Traffic, email: string, id: nat)
    requires id !in s.home
    ensures Enabled(s, Remove(email)) && Enabled(Apply(s, Remove(email)), Create(email, id))
    ensures Apply(Apply(s, Remove(email)), Create(email, id)) == s.(entries := s.entries[email := id], home := s.home[id := email])
  {
    assert (s.entries - {email})[email := id] == s.entries[email := id];
  }

  /** A report goes by the uids set last. */
  lemma NewUidsCount(s: Traffic, uids: map<string, int>, t: nat)
    requires s.reports == map[]
    ensures Enabled(s, SetUids(uids)) && Enabled(Apply(s, SetUids(uids)), Begin(t))
    ensures Apply(Apply(s, SetUids(uids)), Begin(t)) == s.(uids := uids, reports := map[t := Ranging({})])
    ensures Apply(Apply(Apply(s, SetUids(uids)), Begin(t)), End(t)) == s.(uids := uids)
  {
  }

  /* ---------- Why there must be one reporter ---------- */

  ghost predicate StepAt(states: seq<Traffic>, events: seq<Event>, i: nat)
    requires i < |events| && |states| == |events| + 1
  {
    Enabled(states[i], events[i]) && states[i + 1] == Apply(states[i], events[i])
  }

  /** Some run leads from one state to the other. */
  ghost predicate Reaches(s0: Traffic, s: Traffic) {
    exists states, events :: Path(states, events, s0, s)
  }

  ghost predicate Path(states: seq<Traffic>, events: seq<Event>, s0: Traffic, s: Traffic) {
    && |states| == |events| + 1 && states[0] == s0 && states[|events|] == s
    && forall i: nat {:trigger StepAt(states, events, i)} :: i < |events| ==> StepAt(states, events, i)
  }

  lemma PathIsRun(states: seq<Traffic>, events: seq<Event>, s0: Traffic, s: Traffic)
    ensures Path(states, events, s0, s) <==> Run(states, events) && states[0] == s0 && states[|events|] == s
  {
    if Path(states, events, s0, s) {
      forall i | 0 <= i < |events| ensures Enabled(states[i], events[i]) && states[i + 1] == Apply(states[i], events[i]) {
        assert StepAt(states, events, i);
      }
    }
  }

  lemma ReachStart(s: Traffic)
    ensures Reaches(s, s)
  {
    assert Path([s], [], s, s);
  }

  lemma ReachStep(s0: Traffic, s: Traffic, e: Event)
    requires Reaches(s0, s) && Enabled(s, e)
    ensures Reaches(s0, Apply(s, e))
  {
    var states, events :| Path(states, events, s0, s);
    PathMore(states, events, s0, s, e, Apply(s, e));
  }

  lemma PathMore(states: seq<Traffic>, events: seq<Event>, s0: Traffic, s: Traffic, e: Event, s': Traffic)
    requires Path(states, events, s0, s) && Enabled(s, e) && s' == Apply(s, e)
    ensures Path(states + [s'], events + [e], s0, s')
  {
    var states', events' := states + [s'], events + [e];
    forall i: nat | i < |events'| ensures StepAt(states', events', i) {
      if i < |events| { assert StepAt(states, events, i); }
    }
  }

  lemma DoAdd(s0: Traffic, s: Traffic, k: Cell, n: nat) returns (s': Traffic)
    requires Reaches(s0, s) && k.storage in s.home
    ensures Reaches(s0, s') && s' == s.(held := Plus(s.held, k, n), added := Plus(s.added, k, n))
  {
    s' := Apply(s, Add(k, n));
    ReachStep(s0, s, Add(k, n));
  }

  /* One report step each, with its effect spelled out. */

  lemma DoLoadUp(s0: Traffic, s: Traffic, t: nat, email: string, id: nat) returns (s': Traffic)
    requires Reaches(s0, s) && t in s.reports && s.reports[t] == Ranging({}) && id in s.home && s.home[id] == email
    ensures Reaches(s0, s') && s' == s.(reports := s.reports[t := LoadedUp({email}, email, id, At(s.held, Cell(id, true)))])
  {
    s' := Apply(s, LoadUp(t, email, id));
    assert {} + {email} == {email};
    ReachStep(s0, s, LoadUp(t, email, id));
  }

  lemma DoLoadDown(s0: Traffic, s: Traffic, t: nat) returns (s': Traffic)
    requires Reaches(s0, s) && t in s.reports && s.reports[t].LoadedUp?
    requires s.reports[t].upBytes + At(s.held, Cell(s.reports[t].id, false)) > s.minBytes
    ensures var r := s.reports[t];
      && Reaches(s0, s')
      && s' == s.(reports := s.reports[t := Loaded(r.seen, r.email, r.id, r.upBytes, At(s.held, Cell(r.id, false)))])
  {
    s' := Apply(s, LoadDown(t));
    ReachStep(s0, s, LoadDown(t));
  }

  lemma DoStoreUp(s0: Traffic, s: Traffic, t: nat) returns (s': Traffic)
    requires Reaches(s0, s) && t in s.reports && s.reports[t].Loaded?
    ensures var r := s.reports[t];
      && Reaches(s0, s') && At(s'.held, Cell(r.id, true)) == 0
      && At(s'.lost, Cell(r.id, true)) == At(s.lost, Cell(r.id, true)) + At(s.held, Cell(r.id, true)) - r.upBytes
      && s' == s.(held := s'.held, lost := s'.lost,
                  reports := s.reports[t := ZeroedUp(r.seen, r.email, r.id, r.upBytes, r.downBytes)])
  {
    s' := Apply(s, StoreUp(t));
    ReachStep(s0, s, StoreUp(t));
  }

  lemma DoStoreDown(s0: Traffic, s: Traffic, t: nat) returns (s': Traffic)
    requires Reaches(s0, s) && t in s.reports && s.reports[t].ZeroedUp?
    ensures var r := s.reports[t];
      && Reaches(s0, s') && At(s'.held, Cell(r.id, true)) == At(s.held, Cell(r.id, true))
      && s' == s.(held := s'.held, lost := s'.lost,
                  reports := s.reports[t := Zeroed(r.seen, r.email, r.id, r.upBytes, r.downBytes)])
  {
    s' := Apply(s, StoreDown(t));
    ReachStep(s0, s, StoreDown(t));
  }

  lemma DoStores(s0: Traffic, s: Traffic, t: nat) returns (s': Traffic)
    requires Reaches(s0, s) && t in s.reports && s.reports[t].Loaded?
    ensures var r := s.reports[t];
      && Reaches(s0, s') && At(s'.held, Cell(r.id, true)) == 0
      && s' == s.(held := s'.held, lost := s'.lost,
                  reports := s.reports[t := Zeroed(r.seen, r.email, r.id, r.upBytes, r.downBytes)])
  {
    s' := DoStoreUp(s0, s, t);
    s' := DoStoreDown(s0, s', t);
  }

  lemma DoEmit(s0: Traffic, s: Traffic, t: nat) returns (s': Traffic)
    requires Reaches(s0, s) && t in s.reports && s.reports[t].Zeroed?
    requires s.reports[t].email in s.uids && s.uids[s.reports[t].email] != 0
    ensures Reaches(s0, s') && s' == s.(reported := s'.reported, reports := s.reports[t := Ranging(s.reports[t].seen)])
    ensures At(s'.reported, Cell(s.reports[t].id, true)) == At(s.reported, Cell(s.reports[t].id, true)) + s.reports[t].upBytes
  {
    s' := Apply(s, Emit(t));
    PlusBothAt(s.reported, s.reports[t].id, s.reports[t].upBytes, s.reports[t].downBytes, Cell(s.reports[t].id, true));
    ReachStep(s0, s, Emit(t));
  }

  /** One user with a uid and some upload bytes, before any report. */
  lemma OneUser(bytes: nat) returns (s0: Traffic, s: Traffic)
    ensures s0 == Init(0, map["u" := 1]) && Reaches(s0, s) && s.reports == map[] && s.uids == s0.uids && s.minBytes == 0
    ensures s.home == map[0 := "u"] && s.held == s.added == map[Cell(0, true) := bytes] && s.reported == map[]
  {
    s0 := Init(0, map["u" := 1]);
    ReachStart(s0);
    ReachStep(s0, s0, Create("u", 0));
    var s1 := Apply(s0, Create("u", 0));
    s := DoAdd(s0, s1, Cell(0, true), bytes);
  }

  lemma DoBegin(s0: Traffic, s: Traffic, t: nat) returns (s': Traffic)
    requires Reaches(s0, s) && t !in s.reports
    ensures Reaches(s0, s') && s' == s.(reports := s.reports[t := Ranging({})])
  {
    s' := Apply(s, Begin(t));
    ReachStep(s0, s, Begin(t));
  }

  /** Two reports at once can report the same bytes twice. */
  lemma TwoReportersOverReport() returns (states: seq<Traffic>, events: seq<Event>)
    ensures Run(states, events) && states[0] == Init(0, map["u" := 1])
    ensures var s := states[|events|]; At(s.added, Cell(0, true)) == 5 && At(s.reported, Cell(0, true)) == 10
  {
    var s0, s := TwiceReported();
    states, events :| Path(states, events, s0, s);
    PathIsRun(states, events, s0, s);
  }

  lemma TwiceReported() returns (s0: Traffic, s: Traffic)
    ensures s0 == Init(0, map["u" := 1]) && Reaches(s0, s)
    ensures At(s.added, Cell(0, true)) == 5 && At(s.reported, Cell(0, true)) == 10
  {
    s0, s := OneUser(5);
    s := DoBegin(s0, s, 1);
    s := DoBegin(s0, s, 2);
    s := DoLoadUp(s0, s, 1, "u", 0);
    s := DoLoadUp(s0, s, 2, "u", 0);
    s := DoLoadDown(s0, s, 1);
    s := DoLoadDown(s0, s, 2);
    s := DoStores(s0, s, 1);
    s := DoStores(s0, s, 2);
    s := DoEmit(s0, s, 1);
    s := DoEmit(s0, s, 2);
  }

  /** From any state between reports, an entry above the threshold can lose any number of bytes in the next one. */
  lemma LateAddHappens(s0: Traffic, s: Traffic, email: string, id: nat, n: nat) returns (s': Traffic)
    requires Reaches(s0, s) && s.reports == map[] && id in s.home && s.home[id] == email
    requires At(s.held, Cell(id, true)) + At(s.held, Cell(id, false)) > s.minBytes
    ensures Reaches(s0, s') && s'.reports.Keys == {0} && At(s'.lost, Cell(id, true)) == At(s.lost, Cell(id, true)) + n
  {
    var s1 := DoLoads(s0, s, email, id);
    var s2 := DoAdd(s0, s1, Cell(id, true), n);
    s' := DoStoreUp(s0, s2, 0);
  }

  /** The first two steps of a report, up to the load of one counter. */
  lemma DoFirstLoad(s0: Traffic, s: Traffic, email: string, id: nat) returns (s': Traffic)
    requires Reaches(s0, s) && s.reports == map[] && id in s.home && s.home[id] == email
    ensures Reaches(s0, s') && s' == s.(reports := map[0 := LoadedUp({email}, email, id, At(s.held, Cell(id, true)))])
  {
    var s1 := DoBegin(s0, s, 0);
    s' := DoLoadUp(s0, s1, 0, email, id);
  }

  lemma DoLoads(s0: Traffic, s: Traffic, email: string, id: nat) returns (s': Traffic)
    requires Reaches(s0, s) && s.reports == map[] && id in s.home && s.home[id] == email
    requires At(s.held, Cell(id, true)) + At(s.held, Cell(id, false)) > s.minBytes
    ensures Reaches(s0, s')
    ensures s' == s.(reports := map[0 := Loaded({email}, email, id, At(s.held, Cell(id, true)), At(s.held, Cell(id, false)))])
  {
    var s1 := DoFirstLoad(s0, s, email, id);
    s' := DoLoadDown(s0, s1, 0);
  }
}
