/**
 * A text has at most one reading as tokens, so the cleaned bytes have one meaning
 * (common/json5/json5.go; strings and whitespace as in sections 7 and 2 of RFC 8259).
 */
module Json5Reading {
  import opened Json5
  import opened Json5Grammar

  lemma {:induction false} UnitsUnique(us: seq<Unit>, vs: seq<Unit>, r1: seq<byte>, r2: seq<byte>)
    requires ValidToken(Str(us)) && ValidToken(Str(vs))
    requires RenderUnits(us) + [QUOTE] + r1 == RenderUnits(vs) + [QUOTE] + r2
    ensures us == vs && r1 == r2
  {
    var s1, s2 := RenderUnits(us) + [QUOTE] + r1, RenderUnits(vs) + [QUOTE] + r2;
    FirstOfUnits(us, r1);
    FirstOfUnits(vs, r2);
    if us == [] || vs == [] {
      assert s1[0] == s2[0];
      assert us == vs && s1[1..] == r1 && s2[1..] == r2;
    } else {
      UnitSplits(us, r1);
      UnitSplits(vs, r2);
      var n := if us[0].Plain? then 1 else 2;
      assert s1[0] == s2[0] && s1[..n] == s2[..n];
      assert s1[..n][n - 1] == us[0].c && s2[..n][n - 1] == vs[0].c;
      assert s1[n..] == s2[n..];
      UnitsUnique(us[1..], vs[1..], r1, r2);
      assert us == [us[0]] + us[1..] && vs == [vs[0]] + vs[1..];
    }
  }

  /** The first byte tells a quote, an escape and a plain character apart. */
  lemma FirstOfUnits(us: seq<Unit>, rest: seq<byte>)
    requires ValidToken(Str(us))
    ensures var s := RenderUnits(us) + [QUOTE] + rest;
      && s != []
      && (us == [] <==> s[0] == QUOTE)
      && (us != [] ==> (us[0].Escape? <==> s[0] == BACKSLASH))
  {
  }

  lemma HeadOff(head: seq<byte>, tail: seq<byte>, rest: seq<byte>)
    ensures var s := (head + tail) + [QUOTE] + rest;
      |s| > |head| && s[|head|..] == tail + [QUOTE] + rest && s[..|head|] == head
  {
  }

  lemma UnitSplits(us: seq<Unit>, rest: seq<byte>)
    requires us != []
    ensures var s := RenderUnits(us) + [QUOTE] + rest;
      var n := if us[0].Plain? then 1 else 2;
      && |s| > n && s[n..] == RenderUnits(us[1..]) + [QUOTE] + rest
      && s[..n] == if us[0].Plain? then [us[0].c] else [BACKSLASH, us[0].c]
  {
    HeadOff(if us[0].Plain? then [us[0].c] else [BACKSLASH, us[0].c], RenderUnits(us[1..]), rest);
  }

  lemma LineUnique(b1: seq<byte>, b2: seq<byte>, r1: seq<byte>, r2: seq<byte>)
    requires ValidToken(Line(b1)) && ValidToken(Line(b2)) && b1 + r1 == b2 + r2
    requires (r1 == [] || IsNL(r1[0])) && (r2 == [] || IsNL(r2[0]))
    ensures b1 == b2 && r1 == r2
  {
    LineLenOf(b1, r1);
    LineLenOf(b2, r2);
    assert (b1 + r1)[..|b1|] == b1 && (b2 + r2)[..|b2|] == b2;
    assert (b1 + r1)[|b1|..] == r1 && (b2 + r2)[|b2|..] == r2;
  }

  /** A comment does not end before its terminator. */
  lemma NoEarlierEnd(body: seq<byte>, rest: seq<byte>, n: nat)
    requires ValidToken(Block(body)) && n < |body|
    ensures var s := Ended(body, rest); |s| > n + 1 && !(s[n] == STAR && s[n + 1] == SLASH)
  {
    var s := Ended(body, rest);
    assert s[n] == body[n] && s[n + 1] == if n + 1 < |body| then body[n + 1] else STAR;
    assert n + 1 < |body| ==> !(body[n + 1 - 1] == STAR && body[n + 1] == SLASH);
  }

  lemma BlockNotShorter(b1: seq<byte>, b2: seq<byte>, r1: seq<byte>, r2: seq<byte>)
    requires ValidToken(Block(b2)) && Ended(b1, r1) == Ended(b2, r2)
    ensures |b1| >= |b2|
  {
    var s := Ended(b1, r1);
    assert s[|b1|] == STAR && s[|b1| + 1] == SLASH;
    if |b1| < |b2| { NoEarlierEnd(b2, r2, |b1|); }
  }

  lemma BlockUnique(b1: seq<byte>, b2: seq<byte>, r1: seq<byte>, r2: seq<byte>)
    requires ValidToken(Block(b1)) && ValidToken(Block(b2)) && Ended(b1, r1) == Ended(b2, r2)
    ensures b1 == b2 && r1 == r2
  {
    BlockNotShorter(b1, b2, r1, r2);
    BlockNotShorter(b2, b1, r2, r1);
    assert Ended(b1, r1)[..|b1|] == b1 && Ended(b2, r2)[..|b1|] == b2;
    assert Ended(b1, r1)[|b1| + 2..] == r1 && Ended(b2, r2)[|b1| + 2..] == r2;
  }

  /** The first bytes of a text tell which kind of token it starts with. */
  lemma FirstOfToken(t: Token, rest: seq<byte>)
    requires ValidToken(t)
    ensures var s := RenderToken(t) + rest;
      && s != []
      && (t.Str? <==> s[0] == QUOTE)
      && (t.Line? || t.Block? <==> s[0] == SLASH)
      && (t.Line? || t.Block? ==> |s| > 1 && (t.Line? <==> s[1] == SLASH))
      && (t.Blank? <==> IsWS(s[0]))
      && (t.Punct? || t.Blank? ==> s[0] == t.c && s[1..] == rest)
  {
  }

  lemma TokenTail(t: Token, rest: seq<byte>)
    requires t.Str? || t.Line? || t.Block?
    ensures var s := RenderToken(t) + rest;
      match t
      case Str(units) => s[1..] == RenderUnits(units) + [QUOTE] + rest
      case Line(body) => s[2..] == body + rest
      case Block(body) => s[2..] == Ended(body, rest)
  {
    if t.Block? { BlockBytes(t.body, rest); }
  }

  /** Two texts that agree start with the same token. */
  lemma TokenUnique(t: Token, u: Token, r1: seq<byte>, r2: seq<byte>)
    requires ValidToken(t) && ValidToken(u) && RenderToken(t) + r1 == RenderToken(u) + r2
    requires (t.Line? ==> r1 == [] || IsNL(r1[0])) && (u.Line? ==> r2 == [] || IsNL(r2[0]))
    ensures t == u && r1 == r2
  {
    FirstOfToken(t, r1);
    FirstOfToken(u, r2);
    match t
    case Str(us) =>
      TokenTail(t, r1);
      TokenTail(u, r2);
      UnitsUnique(us, u.units, r1, r2);
    case Line(body) =>
      TokenTail(t, r1);
      TokenTail(u, r2);
      LineUnique(body, u.body, r1, r2);
    case Block(body) =>
      TokenTail(t, r1);
      TokenTail(u, r2);
      BlockUnique(body, u.body, r1, r2);
    case Punct(_) =>
    case Blank(_) =>
  }

  /** Different documents have different texts. */
  lemma {:induction false} ReadingIsUnique(a: Doc, b: Doc)
    requires Valid(a) && Valid(b) && Render(a) == Render(b)
    ensures a == b
  {
    if a == [] || b == [] {
      if a != [] { FirstOfToken(a[0], Render(a[1..])); }
      if b != [] { FirstOfToken(b[0], Render(b[1..])); }
    } else {
      if a[0].Line? { LineBreakNext(a[0], a[1..]); }
      if b[0].Line? { LineBreakNext(b[0], b[1..]); }
      TokenUnique(a[0], b[0], Render(a[1..]), Render(b[1..]));
      ReadingIsUnique(a[1..], b[1..]);
      assert a == [a[0]] + a[1..] && b == [b[0]] + b[1..];
    }
  }

  /**
   * Whatever tokens the cleaned text of a document is read as, they are those of the cleaned document: the
   * significant ones are the original's less the trailing commas, and no comment is left.
   */
  lemma CleanedHasOneMeaning(doc: Doc, read: Doc)
    requires Valid(doc) && AllStarSafe(doc) && Valid(read) && Render(read) == Scan(Render(doc))
    ensures Meaning(read) == DropTrailing(Meaning(doc)) && NoComments(read)
  {
    ScanIsClean(doc);
    CleanIsValid(doc);
    ReadingIsUnique(read, Clean(doc));
    CleanMeaning(doc);
  }
}
