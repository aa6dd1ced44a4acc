/**
 * One user's speed limit and cached bucket, one map operation at a time (limiter/limiter.go): checks read
 * the row before they load or store the bucket, and a changed limit is set before the bucket is dropped.
 */
module BucketRuns {
  import opened Wrappers

  /** Rates stand for limits; a user that is deleted has no row. */
  datatype Cache = Cache(
    row: Option<int>,
    bucket: Option<int>,
    owes: bool,                // a change or a deletion has still to drop the bucket
    holding: map<nat, int>)    // checks under way, with the rate they have read

  datatype Event =
    | Read(t: nat)
    | Store(t: nat)
    | Change(rate: int)
    | Delete
    | Drop

  predicate Enabled(s: Cache, e: Event) {
    match e
    case Read(t) => t !in s.holding && s.row.Some?
    case Store(t) => t in s.holding
    case Change(rate) => s.row.Some? && s.row.value != rate && !s.owes
    case Delete => s.row.Some? && !s.owes
    case Drop => s.owes
  }

  /** A store keeps a bucket that is there already. */
  function Apply(s: Cache, e: Event): Cache
    requires Enabled(s, e)
  {
    match e
    case Read(t) => s.(holding := s.holding[t := s.row.value])
    case Store(t) => s.(bucket := if s.bucket.Some? then s.bucket else Some(s.holding[t]), holding := s.holding - {t})
    case Change(rate) => s.(row := Some(rate), owes := true)
    case Delete => s.(row := None, owes := true)
    case Drop => s.(bucket := None, owes := false)
  }

  ghost predicate Run(states: seq<Cache>, events: seq<Event>) {
    && |states| == |events| + 1
    && forall i :: 0 <= i < |events| ==> Enabled(states[i], events[i]) && states[i + 1] == Apply(states[i], events[i])
  }

  /** A change that nothing disturbs, and then such a check: the new limit is in force. */
  lemma ChangeAloneFollowed(s: Cache, rate: int, t: nat) returns (s': Cache)
    requires s.row.Some? && s.row.value != rate && !s.owes && t !in s.holding
    ensures Enabled(s, Change(rate)) && Enabled(Apply(s, Change(rate)), Drop)
    ensures var m := Apply(Apply(s, Change(rate)), Drop);
      && m.row == Some(rate) && m.bucket == None && !m.owes && Enabled(m, Read(t)) && Enabled(Apply(m, Read(t)), Store(t))
      && s' == Apply(Apply(m, Read(t)), Store(t))
    ensures s' == s.(row := Some(rate), bucket := Some(rate))
  {
    var m := Apply(Apply(s, Change(rate)), Drop);
    s' := Apply(Apply(m, Read(t)), Store(t));
    assert s'.holding == s.holding;
  }

  /** A check that nothing disturbs hands out the bucket there is, or one for the row; a deletion leaves neither row nor bucket. */
  lemma CheckAndDeleteAlone(s: Cache, t: nat)
    requires s.row.Some? && !s.owes && t !in s.holding
    ensures Enabled(s, Read(t)) && Enabled(Apply(s, Read(t)), Store(t))
    ensures Apply(Apply(s, Read(t)), Store(t)) == s.(bucket := if s.bucket.Some? then s.bucket else s.row)
    ensures Enabled(s, Delete) && Enabled(Apply(s, Delete), Drop)
    ensures Apply(Apply(s, Delete), Drop) == s.(row := None, bucket := None)
    ensures forall u :: !Enabled(Apply(s, Delete), Read(u))
  {
    assert Apply(Apply(s, Read(t)), Store(t)).holding == s.holding;
  }

  /** The bucket, if there is one, has the rate of the row, if there is one. */
  predicate Coherent(s: Cache) {
    s.bucket.Some? ==> s.bucket == s.row
  }

  /** A check stores a bucket for a row that has changed since it was read. */
  predicate StoresStale(s: Cache, e: Event) {
    e.Store? && e.t in s.holding && s.bucket.None? && s.row != Some(s.holding[e.t])
  }

  /** Some stale bucket has been stored, and nothing has dropped it since. */
  ghost predicate StaleAt(states: seq<Cache>, events: seq<Event>, i: nat, n: nat)
    requires i < n <= |events| < |states|
  {
    StoresStale(states[i], events[i]) && forall k :: i < k < n ==> !events[k].Drop?
  }

  ghost predicate StaleStored(states: seq<Cache>, events: seq<Event>, n: nat)
    requires n <= |events| < |states|
  {
    exists i: nat :: i < n && StaleAt(states, events, i, n)
  }

  lemma StaleMore(states: seq<Cache>, events: seq<Event>, n: nat)
    requires n < |events| < |states|
    ensures StaleStored(states, events, n + 1) <==>
      StoresStale(states[n], events[n]) || (StaleStored(states, events, n) && !events[n].Drop?)
  {
    if StoresStale(states[n], events[n]) {
      assert StaleAt(states, events, n, n + 1);
    }
    if StaleStored(states, events, n) && !events[n].Drop? {
      var i: nat :| i < n && StaleAt(states, events, i, n);
      assert StaleAt(states, events, i, n + 1);
    }
    if StaleStored(states, events, n + 1) && !StoresStale(states[n], events[n]) {
      var i: nat :| i < n + 1 && StaleAt(states, events, i, n + 1);
      assert StaleAt(states, events, i, n);
    }
  }

  /** While no drop is owed the cache is coherent exactly if no stale bucket is in it. */
  ghost predicate Accounts(s: Cache, stale: bool) {
    (!s.owes ==> (Coherent(s) <==> !stale)) && (stale ==> s.bucket.Some?)
  }

  lemma StepAccounts(s: Cache, e: Event, stale: bool)
    requires Enabled(s, e) && Accounts(s, stale)
    ensures Accounts(Apply(s, e), StoresStale(s, e) || (stale && !e.Drop?))
  {
  }

  /**
   * In every interleaving of checks, limit changes and deletions, whenever no drop is owed: the bucket
   * matches the row exactly if no check has stored one for a row changed since it was read.
   */
  lemma {:induction false} CoherentIff(states: seq<Cache>, events: seq<Event>, n: nat)
    requires Run(states, events) && n <= |events| && Coherent(states[0]) && !states[0].owes
    ensures Accounts(states[n], StaleStored(states, events, n))
  {
    if n > 0 {
      CoherentIff(states, events, n - 1);
      StaleMore(states, events, n - 1);
      StepAccounts(states[n - 1], events[n - 1], StaleStored(states, events, n - 1));
    }
  }

  /** From every settled state with a check under way that has read the row: a change can be followed by its stale bucket. */
  lemma StaleHappens(s: Cache, t: nat, rate: int) returns (s': Cache)
    requires s.row.Some? && !s.owes && t in s.holding && s.holding[t] != rate && s.row.value != rate
    ensures Enabled(s, Change(rate)) && Enabled(Apply(s, Change(rate)), Drop)
    ensures var m := Apply(Apply(s, Change(rate)), Drop);
      Enabled(m, Store(t)) && s' == Apply(m, Store(t)) && s'.row == Some(rate) && s'.bucket == Some(s.holding[t]) && !Coherent(s')
  {
    s' := Apply(Apply(Apply(s, Change(rate)), Drop), Store(t));
  }
}
