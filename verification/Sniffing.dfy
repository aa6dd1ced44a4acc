/** The peeking reader and the sniffing loop over it (core/xray/app/mydispatcher/default.go, sniffer.go). */
module Sniffing {
  import opened Wrappers

  type Bytes = seq<bv8>
  type MultiBuffer = seq<Bytes>

  function Flat(mb: MultiBuffer): Bytes {
    if mb == [] then [] else mb[0] + Flat(mb[1..])
  }

  predicate IsEmpty(mb: MultiBuffer) {
    forall i :: 0 <= i < |mb| ==> mb[i] == []
  }

  lemma {:induction false} FlatJoin(a: MultiBuffer, b: MultiBuffer)
    ensures Flat(a + b) == Flat(a) + Flat(b)
  {
    if a == [] {
      assert a + b == b;
    } else {
      FlatJoin(a[1..], b);
      assert (a + b)[1..] == a[1..] + b && (a + b)[0] == a[0];
      AppendedAtEnd(a[0], Flat(a[1..]), Flat(b));
    }
  }

  lemma {:induction false} FlatEmpty(mb: MultiBuffer)
    ensures IsEmpty(mb) <==> Flat(mb) == []
  {
    if mb != [] {
      FlatEmpty(mb[1..]);
      assert forall i :: 1 <= i < |mb| ==> mb[i] == mb[1..][i - 1];
    }
  }

  /* ---------- The peeking reader ---------- */

  /** What the reader underneath gives: some data, or an error and nothing. */
  datatype Read = Data(mb: MultiBuffer) | Failed

  class CachedReader {
    var cache: Option<MultiBuffer>
    ghost var consumed: Bytes   // everything taken from the reader underneath
    ghost var returned: Bytes   // everything handed on
    ghost var dropped: Bytes    // everything released by Interrupt
    ghost var gone: Bytes       // everything handed on or released, in order

    ghost function Unread(): Bytes
      reads this
    {
      if cache.Some? then Flat(cache.value) else []
    }

    /** What has left the reader and what is cached make up what was consumed, in order; only Interrupt drops. */
    ghost predicate Valid()
      reads this
    {
      && gone + Unread() == consumed
      && |gone| == |returned| + |dropped| && (dropped == [] ==> returned == gone)
    }

    constructor ()
      ensures Valid() && Unread() == consumed == returned == dropped == []
    {
      cache, consumed, returned, dropped, gone := None, [], [], [], [];
    }

    /** Reads ahead; the peek buffer of the given capacity gets the first unread bytes. */
    method Cache(input: Read, capacity: nat) returns (peek: Option<Bytes>)
      requires Valid()
      modifies this`cache, this`consumed
      ensures Valid() && (peek.None? <==> input.Failed?)
      ensures input.Failed? ==> cache == old(cache) && consumed == old(consumed)
      ensures input.Data? ==>
        && consumed == old(consumed) + Flat(input.mb)
        && Unread() == old(Unread()) + Flat(input.mb)
        && peek.value == Unread()[..if |Unread()| <= capacity then |Unread()| else capacity]
    {
      if input.Failed? {
        return None;
      }
      AppendedAtEnd(gone, Unread(), Flat(input.mb));
      Join(input.mb);
      consumed := consumed + Flat(input.mb);
      var bytes := if cache.Some? then Flat(cache.value) else [];
      peek := Some(bytes[..if |bytes| <= capacity then |bytes| else capacity]);
    }

    /** The cache takes up new data. */
    method Join(mb: MultiBuffer)
      modifies this`cache
      ensures Unread() == old(Unread()) + Flat(mb)
    {
      if !IsEmpty(mb) {
        var was := if cache.Some? then cache.value else [];
        FlatJoin(was, mb);
        cache := Some(was + mb);
      } else {
        FlatEmpty(mb);
      }
    }

    method ReadInternal() returns (mb: Option<MultiBuffer>)
      requires Valid()
      modifies this`cache, this`returned, this`gone
      ensures Valid()
      ensures if old(Unread()) != [] then mb.Some? && Flat(mb.value) == old(Unread()) && Unread() == []
                                   else mb.None? && Unread() == []
      ensures returned == old(returned) + old(Unread())
    {
      if cache.Some? {
        FlatEmpty(cache.value);
        if !IsEmpty(cache.value) {
          mb := cache;
          returned, gone := returned + Flat(cache.value), gone + Flat(cache.value);
          cache := None;
          return;
        }
      }
      mb := None;
    }

    /** Cached data comes first; only then is the reader underneath asked. */
    method ReadMultiBuffer(input: Read) returns (r: Read)
      requires Valid()
      modifies this
      ensures Valid() && Unread() == [] && dropped == old(dropped)
      ensures r.Failed? <==> old(Unread()) == [] && input.Failed?
      ensures r.Data? ==> returned == old(returned) + Flat(r.mb)
      ensures r.Data? ==> Flat(r.mb) == if old(Unread()) != [] then old(Unread()) else Flat(input.mb)
      ensures consumed == old(consumed) + if old(Unread()) == [] && input.Data? then Flat(input.mb) else []
    {
      var mb := ReadInternal();
      if mb.Some? {
        return Data(mb.value);
      }
      if input.Data? {
        consumed := consumed + Flat(input.mb);
        returned, gone := returned + Flat(input.mb), gone + Flat(input.mb);
      }
      r := input;
    }

    method Interrupt()
      requires Valid()
      modifies this`cache, this`dropped, this`gone
      ensures Valid() && Unread() == [] && dropped == old(dropped) + old(Unread())
    {
      if cache.Some? {
        dropped, gone := dropped + Flat(cache.value), gone + Flat(cache.value);
        cache := None;
      }
    }
  }

  lemma AppendedAtEnd(a: Bytes, b: Bytes, c: Bytes)
    ensures a + (b + c) == (a + b) + c
  {
  }

  /* ---------- Narrowing the pending sniffers ---------- */

  datatype Network = TCP | UDP

  /** What one sniffer says of a payload. */
  datatype Answer = Found(protocol: string) | NoClue | NeedMoreData | Rejected | Nothing

  datatype ProtocolSniffer = ProtocolSniffer(id: nat, metadata: bool, network: Network)

  datatype Outcome = Result(protocol: string) | ErrNoClue | ErrUnknownContent | ErrNeedMoreData | ErrRead | ErrDone | ErrTimeout

  type Answers = ProtocolSniffer -> Answer

  /** The content sniffers that answer "no clue", in their order. */
  function Clueless(sniffers: seq<ProtocolSniffer>, network: Network, say: Answers): seq<ProtocolSniffer> {
    if sniffers == [] then []
    else
      var p, s := sniffers[..|sniffers| - 1], sniffers[|sniffers| - 1];
      Clueless(p, network, say) + if !s.metadata && s.network == network && say(s) == NoClue then [s] else []
  }

  /** The content sniffers, and the metadata sniffers that answer "no clue", in their order. */
  function MetaClueless(sniffers: seq<ProtocolSniffer>, say: Answers): seq<ProtocolSniffer> {
    if sniffers == [] then []
    else
      var p, s := sniffers[..|sniffers| - 1], sniffers[|sniffers| - 1];
      MetaClueless(p, say) + if !s.metadata || say(s) == NoClue then [s] else []
  }

  ghost predicate Subsequence<T(!new)>(a: seq<T>, b: seq<T>) {
    if a == [] then true
    else b != [] && (Subsequence(a, b[..|b| - 1]) || (a[|a| - 1] == b[|b| - 1] && Subsequence(a[..|a| - 1], b[..|b| - 1])))
  }

  lemma {:induction false} SubsequenceSelf<T(!new)>(a: seq<T>)
    ensures Subsequence(a, a)
  {
    if a != [] {
      SubsequenceSelf(a[..|a| - 1]);
    }
  }

  lemma {:induction false} SubsequenceTransitive<T(!new)>(a: seq<T>, b: seq<T>, c: seq<T>)
    requires Subsequence(a, b) && Subsequence(b, c)
    ensures Subsequence(a, c)
    decreases |c|
  {
    if a != [] {
      var b', c' := b[..|b| - 1], c[..|c| - 1];
      if Subsequence(b, c') {
        SubsequenceTransitive(a, b, c');
      } else if Subsequence(a, b') {
        SubsequenceTransitive(a, b', c');
      } else {
        SubsequenceTransitive(a[..|a| - 1], b', c');
      }
    }
  }

  lemma {:induction false} SubsequenceIn<T(!new)>(a: seq<T>, b: seq<T>, x: T)
    requires Subsequence(a, b) && x in a
    ensures x in b
    decreases |b|
  {
    var b' := b[..|b| - 1];
    assert b == b' + [b[|b| - 1]] && a == a[..|a| - 1] + [a[|a| - 1]];
    if Subsequence(a, b') {
      SubsequenceIn(a, b', x);
    } else if x in a[..|a| - 1] {
      SubsequenceIn(a[..|a| - 1], b', x);
    }
  }

  lemma {:induction false} CluelessSubsequence(sniffers: seq<ProtocolSniffer>, network: Network, say: Answers)
    ensures Subsequence(Clueless(sniffers, network, say), sniffers)
    ensures forall s ::
      s in Clueless(sniffers, network, say) <==> s in sniffers && !s.metadata && s.network == network && say(s).NoClue?
  {
    if sniffers != [] {
      var p := sniffers[..|sniffers| - 1];
      CluelessSubsequence(p, network, say);
      var c, s := Clueless(p, network, say), sniffers[|sniffers| - 1];
      assert (c + [s])[..|c|] == c && c + [] == c && sniffers == p + [s];
    }
  }

  lemma {:induction false} MetaCluelessSubsequence(sniffers: seq<ProtocolSniffer>, say: Answers)
    ensures Subsequence(MetaClueless(sniffers, say), sniffers)
    ensures forall s :: s in MetaClueless(sniffers, say) <==> s in sniffers && (!s.metadata || say(s).NoClue?)
  {
    if sniffers != [] {
      var p := sniffers[..|sniffers| - 1];
      MetaCluelessSubsequence(p, say);
      var c, s := MetaClueless(p, say), sniffers[|sniffers| - 1];
      assert (c + [s])[..|c|] == c && c + [] == c && sniffers == p + [s];
    }
  }

  class Sniffer {
    var sniffer: seq<ProtocolSniffer>

    constructor (sniffers: seq<ProtocolSniffer>)
      ensures sniffer == sniffers
    {
      sniffer := sniffers;
    }

    /** Never asks for more data; narrows the list only to sniffers that had no clue. */
    method Sniff(network: Network, say: Answers) returns (o: Outcome)
      modifies this
      ensures o.Result? || o.ErrNoClue? || o.ErrUnknownContent?
      ensures Subsequence(sniffer, old(sniffer))
      ensures o.ErrNoClue? ==> sniffer == Clueless(old(sniffer), network, say) && sniffer != []
      ensures o.ErrNoClue? ==> forall s ::
        s in sniffer <==> s in old(sniffer) && !s.metadata && s.network == network && say(s).NoClue?
      ensures !o.ErrNoClue? ==> sniffer == old(sniffer)
      ensures o.Result? <==> exists i :: 0 <= i < |old(sniffer)| && Hits(old(sniffer)[i], network, say)
      ensures o.Result? ==> exists i: nat :: FirstHit(old(sniffer), network, say, i) && say(old(sniffer)[i]) == Found(o.protocol)
      ensures o.ErrUnknownContent? ==> Clueless(old(sniffer), network, say) == []
    {
      SubsequenceSelf(sniffer);
      var pending := [];
      for i := 0 to |sniffer|
        invariant sniffer == old(sniffer)
        invariant pending == Clueless(sniffer[..i], network, say)
        invariant forall j :: 0 <= j < i ==> !Hits(sniffer[j], network, say)
      {
        var si := sniffer[i];
        assert sniffer[..i + 1][..i] == sniffer[..i];
        if si.metadata || si.network != network {
          continue;
        }
        var result := say(si);
        if result.NoClue? {
          pending := pending + [si];
          continue;
        }
        if result.Found? {
          assert FirstHit(sniffer, network, say, i);
          return Result(result.protocol);
        }
      }
      assert sniffer[..|sniffer|] == sniffer;
      if |pending| > 0 {
        CluelessSubsequence(sniffer, network, say);
        sniffer := pending;
        return ErrNoClue;
      }
      return ErrUnknownContent;
    }

    method SniffMetadata(say: Answers) returns (o: Outcome)
      modifies this
      ensures o.Result? || o.ErrNoClue? || o.ErrUnknownContent?
      ensures Subsequence(sniffer, old(sniffer))
      ensures o.ErrNoClue? ==> sniffer == MetaClueless(old(sniffer), say) && sniffer != []
      ensures o.ErrNoClue? ==> forall s :: s in sniffer <==> s in old(sniffer) && (!s.metadata || say(s).NoClue?)
      ensures o.Result? <==> exists s :: s in old(sniffer) && s.metadata && say(s).Found?
      ensures !o.ErrNoClue? ==> sniffer == old(sniffer)
      ensures o.Result? <==> exists i :: 0 <= i < |old(sniffer)| && MetaHits(old(sniffer)[i], say)
      ensures o.Result? ==> exists i: nat :: FirstMetaHit(old(sniffer), say, i) && say(old(sniffer)[i]) == Found(o.protocol)
      ensures o.ErrUnknownContent? ==> MetaClueless(old(sniffer), say) == []
    {
      SubsequenceSelf(sniffer);
      var pending := [];
      for i := 0 to |sniffer|
        invariant sniffer == old(sniffer)
        invariant pending == MetaClueless(sniffer[..i], say)
        invariant forall j :: 0 <= j < i ==> !MetaHits(sniffer[j], say)
      {
        var si := sniffer[i];
        assert sniffer[..i + 1][..i] == sniffer[..i];
        if !si.metadata {
          pending := pending + [si];
          continue;
        }
        var result := say(si);
        if result.NoClue? {
          pending := pending + [si];
          continue;
        }
        if result.Found? {
          assert FirstMetaHit(sniffer, say, i);
          return Result(result.protocol);
        }
      }
      assert sniffer[..|sniffer|] == sniffer;
      if |pending| > 0 {
        MetaCluelessSubsequence(sniffer, say);
        sniffer := pending;
        return ErrNoClue;
      }
      return ErrUnknownContent;
    }
  }

  predicate Hits(s: ProtocolSniffer, network: Network, say: Answers) {
    !s.metadata && s.network == network && say(s).Found?
  }

  ghost predicate FirstHit(sniffers: seq<ProtocolSniffer>, network: Network, say: Answers, i: nat) {
    i < |sniffers| && Hits(sniffers[i], network, say) && forall j :: 0 <= j < i ==> !Hits(sniffers[j], network, say)
  }

  predicate MetaHits(s: ProtocolSniffer, say: Answers) {
    s.metadata && say(s).Found?
  }

  ghost predicate FirstMetaHit(sniffers: seq<ProtocolSniffer>, say: Answers, i: nat) {
    i < |sniffers| && MetaHits(sniffers[i], say) && forall j :: 0 <= j < i ==> !MetaHits(sniffers[j], say)
  }

  /* ---------- The attempt loop ---------- */

  /** One round as the environment decides it: cancelled or not, the read, the time it took, the answers. */
  datatype Round = Round(done: bool, input: Read, elapsed: int, say: Answers)

  /** A sniffer for the content of this network that has no clue yet. */
  predicate Undecided(s: ProtocolSniffer, network: Network, say: Answers) {
    !s.metadata && s.network == network && say(s).NoClue?
  }

  lemma {:induction false} CluelessIff(sniffers: seq<ProtocolSniffer>, network: Network, say: Answers)
    ensures Clueless(sniffers, network, say) != [] <==> AnyUndecided(sniffers, network, say)
  {
    if sniffers != [] {
      var p := sniffers[..|sniffers| - 1];
      CluelessIff(p, network, say);
      if i :| 0 <= i < |sniffers| && Undecided(sniffers[i], network, say) {
        assert i < |p| ==> Undecided(p[i], network, say);
      }
      if i :| 0 <= i < |p| && Undecided(p[i], network, say) {
        assert Undecided(sniffers[i], network, say);
      }
      assert Undecided(sniffers[|p|], network, say) ==> Clueless(sniffers, network, say) != [];
    }
  }

  ghost predicate AnyHits(sniffers: seq<ProtocolSniffer>, network: Network, say: Answers) {
    exists i :: 0 <= i < |sniffers| && Hits(sniffers[i], network, say)
  }

  ghost predicate HitsFirst(sniffers: seq<ProtocolSniffer>, network: Network, say: Answers, protocol: string) {
    exists i: nat :: FirstHit(sniffers, network, say, i) && say(sniffers[i]) == Found(protocol)
  }

  ghost predicate AnyUndecided(sniffers: seq<ProtocolSniffer>, network: Network, say: Answers) {
    exists i :: 0 <= i < |sniffers| && Undecided(sniffers[i], network, say)
  }

  /**
   * What one look at the unread bytes comes to: no clue if there are none; the protocol of the first sniffer
   * that finds one; failing that no clue if some sniffer has none yet, and otherwise unknown content.
   */
  ghost predicate LooksLike(sniffers: seq<ProtocolSniffer>, network: Network, say: Answers, unread: Bytes, o: Outcome) {
    if unread == [] then o == ErrNoClue
    else if AnyHits(sniffers, network, say) then o.Result? && HitsFirst(sniffers, network, say, o.protocol)
    else o == if AnyUndecided(sniffers, network, say) then ErrNoClue else ErrUnknownContent
  }

  /** The sniffers asked in the next round. */
  function StillAsked(sniffers: seq<ProtocolSniffer>, network: Network, say: Answers, unread: Bytes): seq<ProtocolSniffer> {
    if unread == [] then sniffers else Clueless(sniffers, network, say)
  }

  /** One look at what has been read ahead; `payload` is as much of the `unread` bytes as fits. */
  method SniffOnce(sniffer: Sniffer, network: Network, payload: Bytes, say: Answers, ghost unread: Bytes) returns (o: Outcome)
    requires payload == [] <==> unread == []
    modifies sniffer
    ensures LooksLike(old(sniffer.sniffer), network, say, unread, o)
    ensures sniffer.sniffer == if o == ErrNoClue then StillAsked(old(sniffer.sniffer), network, say, unread) else old(sniffer.sniffer)
    ensures Subsequence(sniffer.sniffer, old(sniffer.sniffer))
  {
    SubsequenceSelf(sniffer.sniffer);
    if payload == [] {
      return ErrNoClue;
    }
    CluelessIff(sniffer.sniffer, network, say);
    o := sniffer.Sniff(network, say);
  }

  /** The bytes to look at after another successful read. */
  function Seen(unread: Bytes, input: Read): Bytes {
    if input.Data? then unread + Flat(input.mb) else unread
  }

  /** What the first `n` rounds take from the reader underneath. */
  function Taken(consumed: Bytes, rounds: nat -> Round, n: nat): Bytes {
    if n == 0 then consumed else Seen(Taken(consumed, rounds, n - 1), rounds(n - 1).input)
  }

  /** What one round comes to for these sniffers and unread bytes. */
  ghost predicate RoundComes(sniffers: seq<ProtocolSniffer>, network: Network, unread: Bytes, round: Round, o: Outcome) {
    if round.done then o == ErrDone
    else if round.input.Failed? then o == ErrRead
    else LooksLike(sniffers, network, round.say, Seen(unread, round.input), o)
  }

  /** The start of a round: give up when cancelled, and read ahead. */
  method ReadAhead(reader: CachedReader, round: Round) returns (o: Outcome, payload: Bytes)
    requires reader.Valid()
    modifies reader
    ensures reader.Valid() && reader.returned == old(reader.returned) && reader.dropped == old(reader.dropped)
    ensures o == if round.done then ErrDone else if round.input.Failed? then ErrRead else ErrNoClue
    ensures reader.Unread() == if round.done then old(reader.Unread()) else Seen(old(reader.Unread()), round.input)
    ensures reader.consumed == if round.done then old(reader.consumed) else Seen(old(reader.consumed), round.input)
    ensures o == ErrNoClue ==> (payload == [] <==> reader.Unread() == [])
  {
    if round.done {
      return ErrDone, [];
    }
    var peek := reader.Cache(round.input, 32767);
    return if peek.None? then ErrRead else ErrNoClue, if peek.None? then [] else peek.value;
  }

  /**
   * Content sniffing on a cached reader, for all that the peer may send and the sniffers may say.  It reads
   * ahead at most twice, and the data it has looked at is still to be read.  A first round that decides ends
   * it; one without a clue ends it in a timeout if the 200 units of time are used up, and otherwise leaves one
   * more round to the sniffers that had no clue.
   */
  method SniffContent(reader: CachedReader, sniffer: Sniffer, network: Network, rounds: nat -> Round)
    returns (o: Outcome, cacheCalls: nat, ghost first: Outcome, ghost second: Outcome)
    requires reader.Valid()
    modifies reader, sniffer
    ensures reader.Valid() && reader.returned == old(reader.returned) && reader.dropped == old(reader.dropped)
    ensures Subsequence(sniffer.sniffer, old(sniffer.sniffer))
    ensures cacheCalls <= 2 && reader.consumed == Taken(old(reader.consumed), rounds, cacheCalls)
    ensures RoundComes(old(sniffer.sniffer), network, old(reader.Unread()), rounds(0), first)
    ensures first != ErrNoClue ==> o == first && cacheCalls == if rounds(0).done then 0 else 1
    ensures first == ErrNoClue && rounds(0).elapsed >= 200 ==> o == ErrTimeout && cacheCalls == 1
    ensures first == ErrNoClue && rounds(0).elapsed < 200 ==>
      var seen := Seen(old(reader.Unread()), rounds(0).input);
      && RoundComes(if seen == [] then old(sniffer.sniffer) else Clueless(old(sniffer.sniffer), network, rounds(0).say),
                    network, seen, rounds(1), second)
      && o == (if second == ErrNoClue then ErrTimeout else second) && cacheCalls == if rounds(1).done then 1 else 2
    ensures !rounds(0).done && rounds(0).input.Data? && old(reader.Unread()) + Flat(rounds(0).input.mb) != []
      && (exists s :: s in old(sniffer.sniffer) && !s.metadata && s.network == network && rounds(0).say(s).Found?)
      ==> o.Result? && cacheCalls == 1
  {
    var cacheDeadline, totalAttempt := 200, 0;
    cacheCalls, first, second := 0, ErrNoClue, ErrNoClue;
    ghost var all, unread := sniffer.sniffer, reader.Unread();
    SubsequenceSelf(all);
    while true
      invariant reader.Valid() && cacheCalls == totalAttempt <= 1
      invariant reader.returned == old(reader.returned) && reader.dropped == old(reader.dropped)
      invariant Subsequence(sniffer.sniffer, all) && reader.consumed == Taken(old(reader.consumed), rounds, cacheCalls)
      invariant cacheCalls == 0 ==>
        cacheDeadline == 200 && sniffer.sniffer == all && reader.Unread() == unread
      invariant cacheCalls == 1 ==> Waiting(all, network, unread, rounds(0), first) && cacheDeadline == 200 - rounds(0).elapsed > 0
      invariant cacheCalls == 1 ==> reader.Unread() == Seen(unread, rounds(0).input)
      invariant cacheCalls == 1 ==> sniffer.sniffer == StillAsked(all, network, rounds(0).say, Seen(unread, rounds(0).input))
      decreases 2 - totalAttempt
    {
      ghost var asked := sniffer.sniffer;
      var round := rounds(cacheCalls);
      var r, payload := ReadAhead(reader, round);
      if r == ErrNoClue {
        r := SniffOnce(sniffer, network, payload, round.say, reader.Unread());
        SubsequenceTransitive(sniffer.sniffer, asked, all);
      }
      if totalAttempt == 0 { first := r; } else { second := r; }
      if !round.done {
        cacheCalls := cacheCalls + 1;
        cacheDeadline := cacheDeadline - round.elapsed;
      }
      assert reader.consumed == Taken(old(reader.consumed), rounds, cacheCalls);
      match r {
        case ErrNoClue => totalAttempt := totalAttempt + 1;
        case ErrNeedMoreData =>
        case _ => return r, cacheCalls, first, second;
      }
      if totalAttempt >= 2 || cacheDeadline <= 0 {
        return ErrTimeout, cacheCalls, first, second;
      }
    }
  }

  /** The first round is over without a clue. */
  ghost predicate Waiting(sniffers: seq<ProtocolSniffer>, network: Network, unread: Bytes, round: Round, first: Outcome) {
    RoundComes(sniffers, network, unread, round, first) && first == ErrNoClue && !round.done && round.input.Data?
  }
}
