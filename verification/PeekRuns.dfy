/**
 * The peeking reader with its reads and its locked sections as separate steps
 * (core/xray/app/mydispatcher/default.go): Cache reads underneath before it takes the lock to store what it
 * has, and a read finds the cache empty before it reads underneath.  Bytes are their stream positions.
 */
module PeekRuns {

  /** One goroutine peeks, one reads. */
  datatype Peek = Peek(
    consumed: nat,        // positions taken from the reader underneath
    hand: seq<nat>,       // read by Cache, not stored yet
    peeking: bool,
    cache: seq<nat>,
    fetching: bool,       // a read has found the cache empty
    returned: seq<nat>)

  datatype Event =
    | CacheRead(n: nat)
    | CacheStore
    | Take
    | Fetch(n: nat)

  function Init(): Peek { Peek(0, [], false, [], false, []) }

  function Span(from: nat, n: nat): (r: seq<nat>)
    ensures |r| == n && forall i :: 0 <= i < n ==> r[i] == from + i
  {
    if n == 0 then [] else Span(from, n - 1) + [from + n - 1]
  }

  predicate Enabled(s: Peek, e: Event) {
    match e
    case CacheRead(_) => !s.peeking
    case CacheStore => s.peeking
    case Take => !s.fetching
    case Fetch(_) => s.fetching
  }

  function Apply(s: Peek, e: Event): Peek
    requires Enabled(s, e)
  {
    match e
    case CacheRead(n) => s.(hand := Span(s.consumed, n), consumed := s.consumed + n, peeking := true)
    case CacheStore => s.(cache := s.cache + s.hand, hand := [], peeking := false)
    case Take => if s.cache != [] then s.(returned := s.returned + s.cache, cache := []) else s.(fetching := true)
    case Fetch(n) => s.(returned := s.returned + Span(s.consumed, n), consumed := s.consumed + n, fetching := false)
  }

  ghost predicate Run(states: seq<Peek>, events: seq<Event>) {
    && |states| == |events| + 1
    && forall i :: 0 <= i < |events| ==> Enabled(states[i], events[i]) && states[i + 1] == Apply(states[i], events[i])
  }

  /** A peek and a read that nothing disturbs: the read hands on all that was waiting and all that was peeked. */
  lemma PeekThenRead(s: Peek, n: nat) returns (s': Peek)
    requires !s.peeking && !s.fetching && s.hand == [] && (n > 0 || s.cache != [])
    ensures Enabled(s, CacheRead(n)) && Enabled(Apply(s, CacheRead(n)), CacheStore)
    ensures var m := Apply(Apply(s, CacheRead(n)), CacheStore);
      m == s.(cache := s.cache + Span(s.consumed, n), consumed := s.consumed + n) && Enabled(m, Take) && s' == Apply(m, Take)
    ensures s'.returned == s.returned + s.cache + Span(s.consumed, n) && s'.cache == []
    ensures s'.consumed == s.consumed + n && !s'.peeking && !s'.fetching
  {
    var m := Apply(Apply(s, CacheRead(n)), CacheStore);
    s' := Apply(m, Take);
  }

  /** A read of an empty cache hands on what it gets from underneath. */
  lemma ReadThrough(s: Peek, n: nat)
    requires !s.fetching && s.cache == []
    ensures Enabled(s, Take) && Enabled(Apply(s, Take), Fetch(n)) && !Enabled(Apply(s, Take), Take)
    ensures Apply(Apply(s, Take), Fetch(n)) == s.(returned := s.returned + Span(s.consumed, n), consumed := s.consumed + n)
  {
  }

  /** Everything consumed, in the order in which the reader will have handed it on. */
  function Stream(s: Peek): seq<nat> { s.returned + s.cache + s.hand }

  /** Nothing is lost, repeated or out of order. */
  ghost predicate InOrder(s: Peek) { Stream(s) == Span(0, s.consumed) }

  /** A read gets data from underneath while earlier data is in hand or in the cache. */
  predicate Overtakes(s: Peek, e: Event) {
    e.Fetch? && e.n > 0 && s.cache + s.hand != []
  }

  ghost predicate Below(a: seq<nat>, n: nat) { forall i :: 0 <= i < |a| ==> a[i] < n }

  ghost predicate Counted(s: Peek) {
    && |Stream(s)| == s.consumed && (!s.peeking ==> s.hand == [])
    && Below(s.returned, s.consumed) && Below(s.cache, s.consumed) && Below(s.hand, s.consumed)
  }

  lemma SpanJoins(n: nat, m: nat)
    ensures Span(0, n) + Span(n, m) == Span(0, n + m)
  {
  }

  /** New positions at the end of the stream leave it in order, or out of order, as it was. */
  lemma Appended(a: seq<nat>, n: nat, m: nat)
    requires |a| == n
    ensures a + Span(n, m) == Span(0, n + m) <==> a == Span(0, n)
  {
    SpanJoins(n, m);
    if a + Span(n, m) == Span(0, n + m) {
      assert a == (a + Span(n, m))[..n] && Span(0, n) == (Span(0, n) + Span(n, m))[..n];
    }
  }

  lemma CacheReadStep(s: Peek, n: nat)
    requires Enabled(s, CacheRead(n)) && Counted(s)
    ensures var s' := Apply(s, CacheRead(n)); Counted(s') && (InOrder(s') <==> InOrder(s))
  {
    var s' := Apply(s, CacheRead(n));
    assert Stream(s') == Stream(s) + Span(s.consumed, n);
    Appended(Stream(s), s.consumed, n);
  }

  lemma FetchStep(s: Peek, n: nat)
    requires Enabled(s, Fetch(n)) && Counted(s)
    ensures var s' := Apply(s, Fetch(n)); Counted(s') && (InOrder(s') <==> InOrder(s) && !Overtakes(s, Fetch(n)))
  {
    var s', waiting := Apply(s, Fetch(n)), s.cache + s.hand;
    Regroup(s.returned + Span(s.consumed, n), s.cache, s.hand);
    Regroup(s.returned, s.cache, s.hand);
    assert Counted(s');
    if waiting == [] {
      assert Stream(s') == s.returned + Span(s.consumed, n) && Stream(s) == s.returned;
      Appended(s.returned, s.consumed, n);
    } else {
      if n > 0 { OutOfOrder(s.returned, waiting, s.consumed, n); } else { assert Stream(s') == Stream(s); }
    }
  }

  lemma Regroup(a: seq<nat>, b: seq<nat>, c: seq<nat>)
    ensures a + b + c == a + (b + c)
  {
  }

  /** New positions in front of waiting ones leave the stream out of order. */
  lemma OutOfOrder(a: seq<nat>, waiting: seq<nat>, from: nat, n: nat)
    requires waiting != [] && n > 0 && Below(waiting, from) && |a + waiting| == from
    ensures a + Span(from, n) + waiting != Span(0, from + n)
  {
    var s, last := a + Span(from, n) + waiting, |waiting| - 1;
    assert s[|s| - 1] == waiting[last] < from;
    assert Span(0, from + n)[from + n - 1] == from + n - 1;
  }

  lemma StepInOrder(s: Peek, e: Event)
    requires Enabled(s, e) && Counted(s)
    ensures Counted(Apply(s, e)) && (InOrder(Apply(s, e)) <==> InOrder(s) && !Overtakes(s, e))
  {
    match e
    case CacheRead(n) => CacheReadStep(s, n);
    case CacheStore => assert Stream(Apply(s, e)) == Stream(s);
    case Take => assert Stream(Apply(s, e)) == Stream(s);
    case Fetch(n) => FetchStep(s, n);
  }

  /** In every interleaving of peeks and reads the stream is in order exactly as long as no read overtakes. */
  lemma {:induction false} OrderSurvivesIff(states: seq<Peek>, events: seq<Event>, n: nat)
    requires Run(states, events) && states[0] == Init() && n <= |events|
    ensures Counted(states[n])
    ensures InOrder(states[n]) <==> forall i :: 0 <= i < n ==> !Overtakes(states[i], events[i])
  {
    if n > 0 {
      OrderSurvivesIff(states, events, n - 1);
      StepInOrder(states[n - 1], events[n - 1]);
    }
  }

  /** As long as a peek and a read are never under way together, the order survives. */
  lemma AloneInOrder(states: seq<Peek>, events: seq<Event>, n: nat)
    requires Run(states, events) && states[0] == Init() && n <= |events|
    requires forall i :: 0 <= i < n ==> !(states[i].peeking && states[i].fetching)
    ensures InOrder(states[n])
  {
    OrderSurvivesIff(states, events, n);
    forall i | 0 <= i < n ensures !Overtakes(states[i], events[i]) { FetchFindsNothing(states, events, i); }
  }

  /** A read that peeks keep clear of finds nothing waiting. */
  lemma {:induction false} FetchFindsNothing(states: seq<Peek>, events: seq<Event>, n: nat)
    requires Run(states, events) && states[0] == Init() && n < |events|
    requires forall i :: 0 <= i <= n ==> !(states[i].peeking && states[i].fetching)
    ensures states[n].fetching ==> states[n].cache == [] && states[n].hand == []
  {
    OrderSurvivesIff(states, events, n);
    if n > 0 { FetchFindsNothing(states, events, n - 1); }
  }
}
