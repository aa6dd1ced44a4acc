/**
 * The in-place cleaner of JSON text with comments and trailing commas (common/json5/json5.go).
 * `Scan` is the cleaned text of a buffer; the method `Prep` is the source's loop nest.
 */
module Json5 {

  newtype byte = x: int | 0 <= x < 256

  const QUOTE: byte := 34
  const STAR: byte := 42
  const COMMA: byte := 44
  const SLASH: byte := 47
  const BACKSLASH: byte := 92
  const RBRACKET: byte := 93
  const RBRACE: byte := 125
  const SPACE: byte := 32

  predicate IsNL(c: byte) { c == 10 || c == 13 }

  predicate IsWS(c: byte) { c == 32 || c == 9 || IsNL(c) }

  predicate Closes(c: byte) { c == RBRACE || c == RBRACKET }

  function Spaces(n: nat): (r: seq<byte>)
    ensures |r| == n && forall i :: 0 <= i < n ==> r[i] == SPACE
  {
    if n == 0 then [] else Spaces(n - 1) + [SPACE]
  }

  /** Bytes up to and including the closing quote. */
  function StringLen(s: seq<byte>): (n: nat)
    ensures n <= |s|
  {
    if s == [] then 0
    else if s[0] == QUOTE then 1
    else if s[0] == BACKSLASH then if |s| == 1 then 1 else 2 + StringLen(s[2..])
    else 1 + StringLen(s[1..])
  }

  /** Bytes before the end of the line. */
  function LineLen(s: seq<byte>): (n: nat)
    ensures n <= |s|
  {
    if s == [] || IsNL(s[0]) then 0 else 1 + LineLen(s[1..])
  }

  /** What a block comment's body and terminator become; the byte after an inner star is stepped over. */
  function BlockOut(s: seq<byte>): (r: seq<byte>)
    ensures |r| <= |s|
  {
    if s == [] then []
    else if s[0] != STAR then [SPACE] + BlockOut(s[1..])
    else if |s| == 1 then [SPACE]
    else if s[1] == SLASH then [SPACE, SPACE]
    else [SPACE, s[1]] + BlockOut(s[2..])
  }

  predicate StartsComment(s: seq<byte>) {
    |s| >= 2 && s[0] == SLASH && (s[1] == SLASH || s[1] == STAR)
  }

  function CommentOut(s: seq<byte>): (r: seq<byte>)
    requires StartsComment(s)
    ensures 2 <= |r| <= |s|
  {
    if s[1] == SLASH then Spaces(2 + LineLen(s[2..])) else [SPACE, SPACE] + BlockOut(s[2..])
  }

  /** Whether the next significant byte after a comma closes an object or an array. */
  predicate Trailing(s: seq<byte>) {
    s != [] &&
    if StartsComment(s) then Trailing(s[|CommentOut(s)|..])
    else if s[0] == SLASH then |s| >= 2 && Trailing(s[2..])
    else if IsWS(s[0]) then Trailing(s[1..])
    else Closes(s[0])
  }

  /** The cleaned text. */
  function Scan(s: seq<byte>): (r: seq<byte>)
    ensures |r| == |s|
    decreases |s|, 0
  {
    if s == [] then []
    else if s[0] == QUOTE then
      var n := 1 + StringLen(s[1..]);
      s[..n] + Scan(s[n..])
    else if StartsComment(s) then
      CommentOut(s) + Scan(s[|CommentOut(s)|..])
    else if s[0] == COMMA then
      [if Trailing(s[1..]) then SPACE else COMMA] + Tail(s[1..])
    else
      [s[0]] + Scan(s[1..])
  }

  /** The cleaned text of what follows a comma; here a lone slash hides the byte after it. */
  function Tail(s: seq<byte>): (r: seq<byte>)
    ensures |r| == |s|
    decreases |s|, 1
  {
    if s == [] then []
    else if StartsComment(s) then CommentOut(s) + Tail(s[|CommentOut(s)|..])
    else if s[0] == SLASH then if |s| == 1 then s else s[..2] + Tail(s[2..])
    else if IsWS(s[0]) then [s[0]] + Tail(s[1..])
    else Scan(s)
  }

  /** For every buffer: each byte comes out unchanged or as a space. */
  lemma {:induction false} BlockOutSpacesOrSame(s: seq<byte>)
    ensures forall i :: 0 <= i < |BlockOut(s)| ==> BlockOut(s)[i] == s[i] || BlockOut(s)[i] == SPACE
  {
    if s != [] {
      if s[0] != STAR {
        BlockOutSpacesOrSame(s[1..]);
      } else if |s| > 1 && s[1] != SLASH {
        BlockOutSpacesOrSame(s[2..]);
      }
    }
  }

  ghost predicate SpacesOrSame(s: seq<byte>, r: seq<byte>) {
    |r| <= |s| && forall i :: 0 <= i < |r| ==> r[i] == s[i] || r[i] == SPACE
  }

  lemma JoinSpacesOrSame(s: seq<byte>, r1: seq<byte>, r2: seq<byte>)
    requires SpacesOrSame(s, r1) && SpacesOrSame(s[|r1|..], r2)
    ensures SpacesOrSame(s, r1 + r2)
  {
    var t := s[|r1|..];
    forall i | |r1| <= i < |r1 + r2| ensures (r1 + r2)[i] == s[i] || (r1 + r2)[i] == SPACE {
      assert t[i - |r1|] == s[i];
    }
  }

  lemma CommentOutSpacesOrSame(s: seq<byte>)
    requires StartsComment(s)
    ensures SpacesOrSame(s, CommentOut(s))
  {
    if s[1] != SLASH {
      BlockOutSpacesOrSame(s[2..]);
      JoinSpacesOrSame(s, [SPACE, SPACE], BlockOut(s[2..]));
    }
  }

  lemma {:induction false} ScanSpacesOrSame(s: seq<byte>)
    ensures SpacesOrSame(s, Scan(s))
    decreases |s|, 0
  {
    if s == [] {
    } else if s[0] == QUOTE {
      var n := 1 + StringLen(s[1..]);
      ScanSpacesOrSame(s[n..]);
      JoinSpacesOrSame(s, s[..n], Scan(s[n..]));
    } else if StartsComment(s) {
      var c := CommentOut(s);
      CommentOutSpacesOrSame(s);
      ScanSpacesOrSame(s[|c|..]);
      JoinSpacesOrSame(s, c, Scan(s[|c|..]));
    } else if s[0] == COMMA {
      TailSpacesOrSame(s[1..]);
      JoinSpacesOrSame(s, [if Trailing(s[1..]) then SPACE else COMMA], Tail(s[1..]));
    } else {
      ScanSpacesOrSame(s[1..]);
      JoinSpacesOrSame(s, [s[0]], Scan(s[1..]));
    }
  }

  lemma {:induction false} TailSpacesOrSame(s: seq<byte>)
    ensures SpacesOrSame(s, Tail(s))
    decreases |s|, 1
  {
    if s == [] {
    } else if StartsComment(s) {
      var c := CommentOut(s);
      CommentOutSpacesOrSame(s);
      TailSpacesOrSame(s[|c|..]);
      JoinSpacesOrSame(s, c, Tail(s[|c|..]));
    } else if s[0] == SLASH {
      if |s| > 1 {
        TailSpacesOrSame(s[2..]);
        JoinSpacesOrSame(s, s[..2], Tail(s[2..]));
      }
    } else if IsWS(s[0]) {
      TailSpacesOrSame(s[1..]);
      JoinSpacesOrSame(s, [s[0]], Tail(s[1..]));
    } else {
      ScanSpacesOrSame(s);
    }
  }

  /* ---------- The loops ---------- */

  function Min(i: nat, n: nat): nat { if i <= n then i else n }

  /** The string that starts at `start` ends where the one cut off at `k` ends. */
  ghost predicate InString(s: seq<byte>, start: nat, k: nat) {
    start <= k <= |s| && start + StringLen(s[start..]) == k + StringLen(s[k..])
  }

  lemma StringTurn(s: seq<byte>, start: nat, k: nat)
    requires InString(s, start, k) && k < |s|
    ensures s[k] == QUOTE ==> start + StringLen(s[start..]) == k + 1
    ensures s[k] == BACKSLASH ==> InString(s, start, Min(k + 2, |s|))
    ensures s[k] != QUOTE && s[k] != BACKSLASH ==> InString(s, start, k + 1)
  {
    var r := s[k..];
    assert r[1..] == s[k + 1..];
    assert |r| > 1 ==> r[2..] == s[k + 2..];
  }

  /** Moves past a string whose opening quote has been passed; a final escape steps over the end. */
  method SkipString(a: array<byte>, start: nat, ghost s: seq<byte>) returns (i: nat)
    requires start <= a.Length && s == a[..]
    ensures start <= i && Min(i, a.Length) == start + StringLen(s[start..])
  {
    i := start;
    while i < a.Length
      invariant start <= i && InString(s, start, Min(i, a.Length))
    {
      StringTurn(s, start, i);
      if a[i] == QUOTE {
        return i + 1;
      } else if a[i] == BACKSLASH {
        i := i + 1;
      }
      i := i + 1;
    }
  }

  /** `after` is `before` with `out` written at `p`. */
  ghost predicate Written(before: seq<byte>, after: seq<byte>, p: nat, out: seq<byte>) {
    && |after| == |before| && p + |out| <= |before|
    && after[..p] == before[..p]
    && after[p..p + |out|] == out
    && after[p + |out|..] == before[p + |out|..]
  }

  /** The line that starts at `start` has been blanked up to `k`. */
  ghost predicate LineBlanked(now: seq<byte>, was: seq<byte>, start: nat, k: nat) {
    && start <= k <= |was| == |now|
    && start + LineLen(was[start..]) == k + LineLen(was[k..])
    && (forall j :: 0 <= j < start || k <= j < |was| ==> now[j] == was[j])
    && (forall j :: start <= j < k ==> now[j] == SPACE)
  }

  lemma LineTurn(now: seq<byte>, was: seq<byte>, start: nat, k: nat)
    requires LineBlanked(now, was, start, k) && k < |was| && !IsNL(was[k])
    ensures LineBlanked(now[k := SPACE], was, start, k + 1)
  {
    assert was[k..][1..] == was[k + 1..];
  }

  lemma LineDone(now: seq<byte>, was: seq<byte>, start: nat, k: nat)
    requires LineBlanked(now, was, start, k) && (k == |was| || IsNL(was[k]))
    ensures k == start + LineLen(was[start..]) && Written(was, now, start, Spaces(k - start))
  {
  }

  method BlankLine(a: array<byte>, start: nat, ghost was: seq<byte>) returns (i: nat)
    requires start <= a.Length && was == a[..]
    modifies a
    ensures i == start + LineLen(was[start..]) && i <= a.Length
    ensures Written(was, a[..], start, Spaces(i - start))
    ensures i < a.Length ==> IsNL(a[i])
  {
    i := start;
    while i < a.Length && !IsNL(a[i])
      invariant LineBlanked(a[..], was, start, i)
    {
      LineTurn(a[..], was, start, i);
      a[i] := SPACE;
      i := i + 1;
    }
    LineDone(a[..], was, start, i);
  }

  /** One turn of the block-comment loop in terms of what is left. */
  lemma BlockOutTurn(rest: seq<byte>, whole: seq<byte>, d: nat)
    requires rest != [] && d <= |whole| && whole[d..] == BlockOut(rest)
    ensures d < |whole| && whole[d] == SPACE
    ensures rest[0] != STAR ==> whole[d + 1..] == BlockOut(rest[1..])
    ensures rest[0] == STAR && |rest| == 1 ==> |whole| == d + 1
    ensures rest[0] == STAR && |rest| > 1 && rest[1] == SLASH ==> |whole| == d + 2 && whole[d + 1] == SPACE
    ensures rest[0] == STAR && |rest| > 1 && rest[1] != SLASH ==>
      d + 2 <= |whole| && whole[d + 1] == rest[1] && whole[d + 2..] == BlockOut(rest[2..])
  {
    var w := whole[d..];
    assert whole[d + 1..] == w[1..];
    assert |w| >= 2 ==> whole[d + 2..] == w[2..];
    if rest[0] != STAR {
      assert w == [SPACE] + BlockOut(rest[1..]);
    } else if |rest| > 1 && rest[1] != SLASH {
      assert w == [SPACE, rest[1]] + BlockOut(rest[2..]);
    }
  }

  /** The block-comment loop has reached `k`: `whole` is written up to there, the rest is as it was. */
  ghost predicate Blanking(now: seq<byte>, was: seq<byte>, start: nat, k: nat, whole: seq<byte>) {
    && start <= k <= |was| == |now| && k - start <= |whole|
    && (forall j :: 0 <= j < start || k <= j < |was| ==> now[j] == was[j])
    && (forall j :: start <= j < k ==> now[j] == whole[j - start])
    && whole[k - start..] == BlockOut(was[k..])
  }

  lemma BlankingTurn(now: seq<byte>, was: seq<byte>, start: nat, k: nat, whole: seq<byte>)
    requires Blanking(now, was, start, k, whole) && k < |was|
    ensures var next := now[k := SPACE];
      if was[k] != STAR || k + 1 == |was| then Blanking(next, was, start, k + 1, whole)
      else if was[k + 1] == SLASH then Written(was, next[k + 1 := SPACE], start, whole) && |whole| == k + 2 - start
      else Blanking(next, was, start, k + 2, whole)
  {
    var rest := was[k..];
    assert rest[1..] == was[k + 1..] && (|rest| > 1 ==> rest[2..] == was[k + 2..]);
    BlockOutTurn(rest, whole, k - start);
    if was[k] == STAR && k + 1 < |was| && was[k + 1] == SLASH {
      var done := now[k := SPACE][k + 1 := SPACE];
      assert done[start..start + |whole|] == whole;
    }
  }

  lemma BlankingDone(now: seq<byte>, was: seq<byte>, start: nat, whole: seq<byte>)
    requires Blanking(now, was, start, |was|, whole)
    ensures Written(was, now, start, whole) && start + |whole| == |was|
  {
    assert |whole[|was| - start..]| == 0;
    assert now[start..start + |whole|] == whole;
  }

  /** One turn of the block-comment loop; `closed` means that the final slash has been blanked. */
  method BlankByte(a: array<byte>, start: nat, k: nat, ghost was: seq<byte>, ghost whole: seq<byte>) returns (i: nat, closed: bool)
    requires k < a.Length && Blanking(a[..], was, start, k, whole)
    modifies a
    ensures i >= k && (!closed ==> i > k && Blanking(a[..], was, start, Min(i, a.Length), whole))
    ensures closed ==> Written(was, a[..], start, whole) && start < i == start + |whole| - 1 < a.Length && a[i] == SPACE
  {
    BlankingTurn(a[..], was, start, k, whole);
    i, closed := k, false;
    if a[i] != STAR {
      a[i] := SPACE;
    } else {
      a[i] := SPACE;
      i := i + 1;
      if i < a.Length {
        if a[i] == SLASH {
          a[i] := SPACE;
          return i, true;
        }
      }
    }
    i := i + 1;
  }

  /** Blanks a block comment from its star on, stopping at the blanked final slash if there is one. */
  method BlankBlock(a: array<byte>, start: nat, ghost was: seq<byte>) returns (i: nat)
    requires start < a.Length && was == a[..][start := SPACE]
    modifies a
    ensures var out := BlockOut(was[start..]);
      && Written(was, a[..], start, out)
      && (if i < a.Length then start < i == start + |out| - 1 && a[i] == SPACE else start + |out| == a.Length)
  {
    a[start] := SPACE;
    i := start;
    ghost var whole := BlockOut(was[start..]);
    while i < a.Length
      invariant start <= i && Blanking(a[..], was, start, Min(i, a.Length), whole)
    {
      var closed;
      i, closed := BlankByte(a, start, i, was, whole);
      if closed {
        return;
      }
    }
    BlankingDone(a[..], was, start, whole);
  }

  /** Where scanning goes on after a comment: at its end, or at its blanked last byte. */
  ghost predicate CommentStop(s: seq<byte>, n: int, rest: seq<byte>)
    requires StartsComment(s)
  {
    var len := |CommentOut(s)|;
    || (n == len && (len < |s| ==> IsNL(s[len])))
    || (n == len - 1 && rest != [] && rest[0] == SPACE)
    || (n >= len == |s|)
  }

  /**
   * Called on the byte after a slash; blanks a comment and tells where to go on.  After a block
   * comment that is its last byte, blanked by then.
   */
  method ConsumeComment(a: array<byte>, start: nat) returns (i: nat)
    requires 1 <= start <= a.Length && a[start - 1] == SLASH
    modifies a
    ensures i >= start
    ensures var s := old(a[start - 1..]);
      if StartsComment(s) then
        && Written(old(a[..]), a[..], start - 1, CommentOut(s))
        && CommentStop(s, i - (start - 1), a[Min(i, a.Length)..])
      else i == start && a[..] == old(a[..])
  {
    i := start;
    ghost var s, was := a[start - 1..], a[..];
    if i < a.Length && a[i] == SLASH {
      i := LineComment(a, i);
    } else if i < a.Length && a[i] == STAR {
      i := BlockComment(a, i);
    }
  }

  /** A comment is written from its slash on when the slash is blanked and the rest written after it. */
  lemma WrittenFromSlash(before: seq<byte>, was: seq<byte>, after: seq<byte>, start: nat, out: seq<byte>)
    requires 1 <= start < |before| == |was| && was[start - 1] == SPACE && |out| >= 1
    requires forall i :: 0 <= i < |was| && i != start - 1 && i != start ==> was[i] == before[i]
    requires Written(was, after, start, out)
    ensures Written(before, after, start - 1, [SPACE] + out)
  {
    var e := start + |out|;
    forall i | 0 <= i < |after| && i < start ensures after[i] == was[i] {
      assert after[i] == after[..start][i] && was[i] == was[..start][i];
    }
    forall i | e <= i < |after| ensures after[i] == before[i] {
      assert after[i] == after[e..][i - e] && was[i] == was[e..][i - e];
    }
    forall i | start <= i < e ensures after[i] == out[i - start] {
      assert after[i] == after[start..e][i - start];
    }
  }

  method LineComment(a: array<byte>, start: nat) returns (i: nat)
    requires 1 <= start < a.Length && a[start - 1] == SLASH && a[start] == SLASH
    modifies a
    ensures i >= start
    ensures var s := old(a[start - 1..]);
      && Written(old(a[..]), a[..], start - 1, CommentOut(s))
      && CommentStop(s, i - (start - 1), a[Min(i, a.Length)..])
  {
    ghost var before := a[..];
    a[start - 1] := SPACE;
    ghost var was := a[..];
    LineOpens(before, was, start);
    i := BlankLine(a, start, was);
    WrittenFromSlash(before, was, a[..], start, Spaces(i - start));
  }

  lemma LineOpens(before: seq<byte>, was: seq<byte>, start: nat)
    requires 1 <= start < |before| && before[start - 1] == SLASH && before[start] == SLASH
    requires was == before[start - 1 := SPACE]
    ensures var s := before[start - 1..];
      StartsComment(s) && CommentOut(s) == [SPACE] + Spaces(LineLen(was[start..])) && |was[start..]| >= LineLen(was[start..]) >= 1
  {
    var rest := before[start + 1..];
    assert was[start..] == [SLASH] + rest;
    assert before[start - 1..] == [SLASH, SLASH] + rest;
    LineOpensWith(rest);
  }

  lemma LineOpensWith(rest: seq<byte>)
    ensures StartsComment([SLASH, SLASH] + rest)
    ensures LineLen([SLASH] + rest) == 1 + LineLen(rest)
    ensures CommentOut([SLASH, SLASH] + rest) == [SPACE] + Spaces(LineLen([SLASH] + rest))
  {
    assert ([SLASH] + rest)[1..] == rest;
    assert ([SLASH, SLASH] + rest)[2..] == rest;
    SpacesMore(1 + LineLen(rest));
  }

  lemma SpacesMore(n: nat)
    ensures [SPACE] + Spaces(n) == Spaces(n + 1)
  {
  }

  method BlockComment(a: array<byte>, start: nat) returns (i: nat)
    requires 1 <= start < a.Length && a[start - 1] == SLASH && a[start] == STAR
    modifies a
    ensures i >= start
    ensures var s := old(a[start - 1..]);
      && Written(old(a[..]), a[..], start - 1, CommentOut(s))
      && CommentStop(s, i - (start - 1), a[Min(i, a.Length)..])
  {
    ghost var before := a[..];
    a[start - 1] := SPACE;
    ghost var was := a[..][start := SPACE];
    BlockOpens(before, was, start);
    i := BlankBlock(a, start, was);
    WrittenFromSlash(before, was, a[..], start, BlockOut(was[start..]));
  }

  lemma BlockOpens(before: seq<byte>, was: seq<byte>, start: nat)
    requires 1 <= start < |before| && before[start - 1] == SLASH && before[start] == STAR
    requires was == before[start - 1 := SPACE][start := SPACE]
    ensures var s := before[start - 1..];
      StartsComment(s) && CommentOut(s) == [SPACE] + BlockOut(was[start..])
  {
    var rest := before[start + 1..];
    assert was[start..] == [SPACE] + rest;
    assert before[start - 1..] == [SLASH, STAR] + rest;
    BlockOpensWith(rest);
  }

  lemma BlockOpensWith(rest: seq<byte>)
    ensures StartsComment([SLASH, STAR] + rest)
    ensures CommentOut([SLASH, STAR] + rest) == [SPACE] + BlockOut([SPACE] + rest)
  {
    assert ([SPACE] + rest)[1..] == rest;
    assert ([SLASH, STAR] + rest)[2..] == rest;
    assert [SPACE, SPACE] + BlockOut(rest) == [SPACE] + ([SPACE] + BlockOut(rest));
  }

  /* ---------- The main loop ---------- */

  /** The buffer is clean up to `k`, and cleaning the rest gives the rest of `goal`. */
  ghost predicate Scanned(goal: seq<byte>, now: seq<byte>, k: nat) {
    k <= |now| == |goal| && now[..k] == goal[..k] && Scan(now[k..]) == goal[k..]
  }

  /** A comma at `j` is undecided, what follows it is clean up to `k`. */
  ghost predicate AfterComma(goal: seq<byte>, now: seq<byte>, j: nat, k: nat) {
    && j < k <= |now| == |goal|
    && now[..j] == goal[..j] && now[j] == COMMA && now[j + 1..k] == goal[j + 1..k]
    && goal[j] == (if Trailing(now[k..]) then SPACE else COMMA)
    && Tail(now[k..]) == goal[k..]
  }

  /** Writing `out` where the goal has `out` keeps a stretch of agreement going. */
  lemma Advance(goal: seq<byte>, now: seq<byte>, next: seq<byte>, p: nat, k: nat, out: seq<byte>, rest: seq<byte>)
    requires p <= k <= |now| == |goal| && now[p..k] == goal[p..k]
    requires Written(now, next, k, out) && goal[k..] == out + rest
    ensures next[p..k + |out|] == goal[p..k + |out|] && goal[k + |out|..] == rest && next[k + |out|..] == now[k + |out|..]
    ensures next[..p] == now[..p]
  {
    var e := k + |out|;
    forall i | k <= i < e ensures next[i] == goal[i] {
      assert next[i] == next[k..e][i - k] == out[i - k];
      assert goal[i] == goal[k..][i - k];
    }
    forall i | p <= i < k ensures next[i] == goal[i] {
      assert next[i] == next[..k][i] && now[i] == now[..k][i];
      assert now[i] == now[p..k][i - p] && goal[i] == goal[p..k][i - p];
    }
    assert goal[e..] == goal[k..][|out|..];
    assert next[..p] == next[..k][..p] && now[..p] == now[..k][..p];
  }

  lemma Unchanged(now: seq<byte>, k: nat, out: seq<byte>)
    requires k + |out| <= |now| && now[k..k + |out|] == out
    ensures Written(now, now, k, out)
  {
  }

  lemma Slices(s: seq<byte>, k: nat, n: nat)
    requires k + n <= |s|
    ensures s[k..][n..] == s[k + n..] && s[k..][..n] == s[k..k + n]
  {
  }

  /** One piece further, given how the scanner cleans what is left. */
  lemma ScanAdvance(goal: seq<byte>, now: seq<byte>, next: seq<byte>, k: nat, e: nat, out: seq<byte>)
    requires Scanned(goal, now, k) && Written(now, next, k, out) && e == k + |out|
    requires Scan(now[k..]) == out + Scan(now[e..])
    ensures Scanned(goal, next, e)
  {
    assert now[0..k] == now[..k] && goal[0..k] == goal[..k];
    Advance(goal, now, next, 0, k, out, Scan(now[e..]));
    assert next[0..e] == next[..e] && goal[0..e] == goal[..e];
  }

  lemma TailAdvance(goal: seq<byte>, now: seq<byte>, next: seq<byte>, j: nat, k: nat, e: nat, out: seq<byte>)
    requires AfterComma(goal, now, j, k) && Written(now, next, k, out) && e == k + |out|
    requires Tail(now[k..]) == out + Tail(now[e..])
    requires Trailing(now[k..]) == Trailing(now[e..])
    ensures AfterComma(goal, next, j, e)
  {
    Advance(goal, now, next, j + 1, k, out, Tail(now[e..]));
    assert next[..j] == next[..j + 1][..j] && now[..j] == now[..j + 1][..j];
    assert next[j] == next[..j + 1][j] && now[j] == now[..j + 1][j];
  }

  /** The same where the buffer already holds what the scanner would write. */
  lemma ScanKept(goal: seq<byte>, now: seq<byte>, k: nat, e: nat)
    requires Scanned(goal, now, k) && k <= e <= |now|
    requires Scan(now[k..]) == now[k..e] + Scan(now[e..])
    ensures Scanned(goal, now, e)
  {
    Unchanged(now, k, now[k..e]);
    ScanAdvance(goal, now, now, k, e, now[k..e]);
  }

  lemma TailKept(goal: seq<byte>, now: seq<byte>, j: nat, k: nat, e: nat)
    requires AfterComma(goal, now, j, k) && k <= e <= |now|
    requires Tail(now[k..]) == now[k..e] + Tail(now[e..])
    requires Trailing(now[k..]) == Trailing(now[e..])
    ensures AfterComma(goal, now, j, e)
  {
    Unchanged(now, k, now[k..e]);
    TailAdvance(goal, now, now, j, k, e, now[k..e]);
  }

  /* How the scanner's first move on the rest of a buffer reads in positions of the buffer. */

  lemma StringStep(s: seq<byte>, body: seq<byte>, head: seq<byte>, rest: seq<byte>)
    requires s != [] && s[0] == QUOTE && body == s[1..] && 1 + StringLen(body) == |head|
    requires s == head + rest
    ensures Scan(s) == head + Scan(rest)
  {
    assert s[..|head|] == head && s[|head|..] == rest;
  }

  lemma CommentStep(s: seq<byte>, out: seq<byte>, rest: seq<byte>)
    requires StartsComment(s) && out == CommentOut(s) && rest == s[|out|..]
    ensures Scan(s) == out + Scan(rest) && Tail(s) == out + Tail(rest) && Trailing(s) == Trailing(rest)
  {
  }

  lemma StringAt(now: seq<byte>, k: nat, e: nat)
    requires k < |now| && now[k] == QUOTE && e == k + 1 + StringLen(now[k + 1..])
    ensures e <= |now| && Scan(now[k..]) == now[k..e] + Scan(now[e..])
  {
    var s := now[k..];
    assert s[1..] == now[k + 1..];
    assert s == now[k..e] + now[e..];
    StringStep(s, s[1..], now[k..e], now[e..]);
  }

  lemma CommentAt(now: seq<byte>, s: seq<byte>, k: nat, e: nat)
    requires k <= |now| && s == now[k..] && StartsComment(s) && e == k + |CommentOut(s)|
    ensures e <= |now|
    ensures Scan(s) == CommentOut(s) + Scan(now[e..])
    ensures Tail(s) == CommentOut(s) + Tail(now[e..])
    ensures Trailing(s) == Trailing(now[e..])
  {
    Slices(now, k, e - k);
    CommentStep(s, CommentOut(s), now[e..]);
  }

  lemma OtherAt(now: seq<byte>, k: nat)
    requires k < |now| && now[k] != QUOTE && now[k] != COMMA && !StartsComment(now[k..])
    ensures Scan(now[k..]) == now[k..k + 1] + Scan(now[k + 1..])
  {
    Slices(now, k, 1);
    assert [now[k]] == now[k..k + 1];
  }

  lemma BlankAt(now: seq<byte>, k: nat)
    requires k < |now| && IsWS(now[k])
    ensures Tail(now[k..]) == now[k..k + 1] + Tail(now[k + 1..])
    ensures Trailing(now[k..]) == Trailing(now[k + 1..])
  {
    Slices(now, k, 1);
    assert [now[k]] == now[k..k + 1];
  }

  lemma SlashAt(now: seq<byte>, k: nat, e: nat)
    requires k < |now| && now[k] == SLASH && !StartsComment(now[k..]) && e == Min(k + 2, |now|)
    ensures Tail(now[k..]) == now[k..e] + Tail(now[e..])
    ensures Trailing(now[k..]) == Trailing(now[e..])
  {
    Slices(now, k, e - k);
  }

  lemma ScannedString(goal: seq<byte>, now: seq<byte>, k: nat, e: nat)
    requires Scanned(goal, now, k) && k < |now| && now[k] == QUOTE && e == k + 1 + StringLen(now[k + 1..])
    ensures e <= |now| && Scanned(goal, now, e)
  {
    StringAt(now, k, e);
    ScanKept(goal, now, k, e);
  }

  /** Stepping back onto a space the cleaner has written. */
  lemma ScannedBefore(goal: seq<byte>, now: seq<byte>, i: nat)
    requires i < |now| && Scanned(goal, now, i + 1) && now[i] == SPACE
    ensures Scanned(goal, now, i)
  {
    OtherAt(now, i);
    assert now[..i] == now[..i + 1][..i] && goal[..i] == goal[..i + 1][..i];
    assert goal[i] == goal[..i + 1][i] == now[..i + 1][i];
    assert goal[i..] == [SPACE] + goal[i + 1..] && now[i..i + 1] == [SPACE];
  }

  lemma StopAt(now: seq<byte>, next: seq<byte>, k: nat, e: nat, i: nat)
    requires k <= |now| == |next| && StartsComment(now[k..]) && i >= k && e == k + |CommentOut(now[k..])|
    requires CommentStop(now[k..], i - k, next[Min(i, |now|)..])
    ensures Min(i, |now|) == e || (i + 1 == e && i < |next| && next[i] == SPACE)
    ensures i == e < |now| ==> IsNL(now[e])
  {
    if i < |next| {
      assert next[i..] != [] ==> next[i..][0] == next[i];
    }
    assert e < |now| ==> now[k..][e - k] == now[e];
  }

  lemma ScannedComment(goal: seq<byte>, now: seq<byte>, next: seq<byte>, k: nat, i: nat)
    requires Scanned(goal, now, k) && StartsComment(now[k..]) && i >= k && Written(now, next, k, CommentOut(now[k..]))
    requires CommentStop(now[k..], i - k, next[Min(i, |now|)..])
    ensures Scanned(goal, next, Min(i, |now|))
  {
    var s := now[k..];
    var e := k + |CommentOut(s)|;
    CommentAt(now, s, k, e);
    StopAt(now, next, k, e, i);
    ScanAdvance(goal, now, next, k, e, CommentOut(s));
    ScannedBack(goal, next, e, i);
  }

  /** The scanner goes on at the end of a comment, or at its blanked last byte. */
  lemma ScannedBack(goal: seq<byte>, now: seq<byte>, e: nat, i: nat)
    requires Scanned(goal, now, e)
    requires Min(i, |now|) == e || (i + 1 == e && i < |now| && now[i] == SPACE)
    ensures Scanned(goal, now, Min(i, |now|))
  {
    if Min(i, |now|) != e {
      ScannedBefore(goal, now, i);
    }
  }

  lemma ScannedOther(goal: seq<byte>, now: seq<byte>, k: nat)
    requires Scanned(goal, now, k) && k < |now| && now[k] != QUOTE && now[k] != COMMA && !StartsComment(now[k..])
    ensures Scanned(goal, now, k + 1)
  {
    OtherAt(now, k);
    ScanKept(goal, now, k, k + 1);
  }

  lemma CommaMet(goal: seq<byte>, now: seq<byte>, k: nat)
    requires Scanned(goal, now, k) && k < |now| && now[k] == COMMA
    ensures AfterComma(goal, now, k, k + 1)
  {
    Slices(now, k, 1);
    assert goal[k..][0] == goal[k] && goal[k..][1..] == goal[k + 1..];
  }

  lemma CommaBlank(goal: seq<byte>, now: seq<byte>, j: nat, k: nat)
    requires AfterComma(goal, now, j, k) && k < |now| && IsWS(now[k])
    ensures AfterComma(goal, now, j, k + 1)
  {
    BlankAt(now, k);
    TailKept(goal, now, j, k, k + 1);
  }

  lemma CommaSlash(goal: seq<byte>, now: seq<byte>, j: nat, k: nat)
    requires AfterComma(goal, now, j, k) && k < |now| && now[k] == SLASH && !StartsComment(now[k..])
    ensures AfterComma(goal, now, j, Min(k + 2, |now|))
  {
    var e := Min(k + 2, |now|);
    SlashAt(now, k, e);
    TailKept(goal, now, j, k, e);
  }

  lemma CommaComment(goal: seq<byte>, now: seq<byte>, next: seq<byte>, j: nat, k: nat, i: nat)
    requires AfterComma(goal, now, j, k) && StartsComment(now[k..]) && i >= k && Written(now, next, k, CommentOut(now[k..]))
    requires CommentStop(now[k..], i - k, next[Min(i, |now|)..])
    ensures AfterComma(goal, next, j, Min(i + 1, |now|))
  {
    var s := now[k..];
    var e := k + |CommentOut(s)|;
    CommentAt(now, s, k, e);
    StopAt(now, next, k, e, i);
    TailAdvance(goal, now, next, j, k, e, CommentOut(s));
    StillAt(now, next, k, e, CommentOut(s));
    CommaPast(goal, next, j, e, i);
  }

  lemma StillAt(now: seq<byte>, next: seq<byte>, k: nat, e: nat, out: seq<byte>)
    requires Written(now, next, k, out) && e == k + |out|
    ensures e < |now| ==> next[e] == now[e]
  {
    assert e < |now| ==> next[e] == next[e..][0] && now[e] == now[e..][0];
  }

  /** The scanner of the trailing comma steps over the line break that ends a comment. */
  lemma CommaPast(goal: seq<byte>, now: seq<byte>, j: nat, e: nat, i: nat)
    requires AfterComma(goal, now, j, e)
    requires i + 1 == e || i == e || i >= e == |now|
    requires i == e < |now| ==> IsNL(now[e])
    ensures AfterComma(goal, now, j, Min(i + 1, |now|))
  {
    if i == e < |now| {
      CommaBlank(goal, now, j, e);
    }
  }

  lemma CommaDecided(goal: seq<byte>, now: seq<byte>, j: nat, k: nat)
    requires AfterComma(goal, now, j, k)
    requires k < |now| ==> now[k] != SLASH && !IsWS(now[k])
    ensures k < |now| && Closes(now[k]) ==> Scanned(goal, now[j := SPACE], k)
    ensures !(k < |now| && Closes(now[k])) ==> Scanned(goal, now, k)
  {
    var next := if k < |now| && Closes(now[k]) then now[j := SPACE] else now;
    assert next[..k] == next[..j] + [next[j]] + next[j + 1..k];
    assert goal[..k] == goal[..j] + [goal[j]] + goal[j + 1..k];
    assert next[j + 1..k] == now[j + 1..k] && next[..j] == now[..j] && next[k..] == now[k..];
  }

  method StringMet(a: array<byte>, k: nat, ghost goal: seq<byte>) returns (i: nat)
    requires k < a.Length && a[k] == QUOTE && Scanned(goal, a[..], k)
    ensures i > k && Scanned(goal, a[..], Min(i, a.Length))
  {
    ghost var now := a[..];
    i := SkipString(a, k + 1, now);
    ScannedString(goal, now, k, Min(i, |now|));
  }

  method SlashMet(a: array<byte>, k: nat, ghost goal: seq<byte>) returns (i: nat)
    requires k < a.Length && a[k] == SLASH && Scanned(goal, a[..], k)
    modifies a
    ensures i > k && Scanned(goal, a[..], Min(i, a.Length))
  {
    ghost var now := a[..];
    assert a[k..] == now[k..];
    i := ConsumeComment(a, k + 1);
    if StartsComment(now[k..]) {
      assert a[Min(i, a.Length)..] == a[..][Min(i, a.Length)..];
      ScannedComment(goal, now, a[..], k, i);
    } else {
      ScannedOther(goal, now, k);
    }
  }

  method SlashAfterComma(a: array<byte>, j: nat, k: nat, ghost goal: seq<byte>) returns (i: nat)
    requires k < a.Length && a[k] == SLASH && AfterComma(goal, a[..], j, k)
    modifies a
    ensures i > k && AfterComma(goal, a[..], j, Min(i + 1, a.Length))
  {
    ghost var now := a[..];
    assert a[k..] == now[k..];
    i := ConsumeComment(a, k + 1);
    if StartsComment(now[k..]) {
      assert a[Min(i, a.Length)..] == a[..][Min(i, a.Length)..];
      CommaComment(goal, now, a[..], j, k, i);
    } else {
      CommaSlash(goal, now, j, k);
    }
  }

  /** Looks at one byte after the comma at `j`; `decided` means that the comma's fate is known. */
  method LookPast(a: array<byte>, j: nat, k: nat, ghost goal: seq<byte>) returns (i: nat, decided: bool)
    requires AfterComma(goal, a[..], j, Min(k, a.Length))
    modifies a
    ensures i >= k
    ensures if decided then Scanned(goal, a[..], Min(i, a.Length)) else AfterComma(goal, a[..], j, Min(i + 1, a.Length))
    ensures !decided ==> k < a.Length
  {
    i := k;
    if i >= a.Length {
      CommaDecided(goal, a[..], j, a.Length);
      return i, true;
    } else if Closes(a[i]) {
      CommaDecided(goal, a[..], j, i);
      a[j] := SPACE;
      return i, true;
    } else if a[i] == SLASH {
      i := SlashAfterComma(a, j, i, goal);
    } else if !IsWS(a[i]) {
      CommaDecided(goal, a[..], j, i);
      return i, true;
    } else {
      CommaBlank(goal, a[..], j, i);
    }
    decided := false;
  }

  /** From a comma on, looks for what follows and blanks the comma if a bracket does. */
  method TrimComma(a: array<byte>, j: nat, ghost goal: seq<byte>) returns (i: nat)
    requires j < a.Length && a[j] == COMMA && Scanned(goal, a[..], j)
    modifies a
    ensures i > j && Scanned(goal, a[..], Min(i, a.Length))
  {
    i := j;
    CommaMet(goal, a[..], j);
    while true
      invariant i >= j && AfterComma(goal, a[..], j, Min(i + 1, a.Length))
      decreases a.Length - i
    {
      var decided;
      i, decided := LookPast(a, j, i + 1, goal);
      if decided {
        break;
      }
    }
  }

  /** The cleaner: terminates on every buffer and leaves its cleaned text. */
  method Prep(a: array<byte>)
    modifies a
    ensures a[..] == Scan(old(a[..]))
    ensures SpacesOrSame(old(a[..]), a[..])
  {
    ghost var goal := Scan(a[..]);
    ScanSpacesOrSame(a[..]);
    var i: nat := 0;
    assert a[..][0..] == a[..];
    while i < a.Length
      invariant Scanned(goal, a[..], Min(i, a.Length))
      decreases a.Length - i
    {
      if a[i] == QUOTE {
        i := StringMet(a, i, goal);
      } else if a[i] == SLASH {
        i := SlashMet(a, i, goal);
      } else if a[i] == COMMA {
        i := TrimComma(a, i, goal);
      } else {
        ScannedOther(goal, a[..], i);
        i := i + 1;
      }
    }
    assert a[..a.Length] == a[..] && goal[..a.Length] == goal;
  }
}
