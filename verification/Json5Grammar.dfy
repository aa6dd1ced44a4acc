/**
 * What cleaning means for a text made of tokens: strings with escapes, punctuation, whitespace,
 * and the two kinds of comment (common/json5/json5.go; strings and whitespace as in sections 7
 * and 2 of RFC 8259).
 */
module Json5Grammar {
  import opened Json5

  datatype Unit = Plain(c: byte) | Escape(c: byte)

  datatype Token =
    | Str(units: seq<Unit>)
    | Punct(c: byte)          // any other byte outside strings: brackets, commas, digits, letters
    | Blank(c: byte)
    | Line(body: seq<byte>)
    | Block(body: seq<byte>)

  type Doc = seq<Token>

  function RenderUnits(units: seq<Unit>): seq<byte> {
    if units == [] then []
    else (match units[0] case Plain(c) => [c] case Escape(c) => [BACKSLASH, c]) + RenderUnits(units[1..])
  }

  function RenderToken(t: Token): seq<byte> {
    match t
    case Str(units) => [QUOTE] + RenderUnits(units) + [QUOTE]
    case Punct(c) => [c]
    case Blank(c) => [c]
    case Line(body) => [SLASH, SLASH] + body
    case Block(body) => [SLASH, STAR] + body + [STAR, SLASH]
  }

  function Render(doc: Doc): seq<byte> {
    if doc == [] then [] else RenderToken(doc[0]) + Render(doc[1..])
  }

  predicate ValidToken(t: Token) {
    match t
    case Str(units) => forall i :: 0 <= i < |units| && units[i].Plain? ==> units[i].c != QUOTE && units[i].c != BACKSLASH
    case Punct(c) => !IsWS(c) && c != QUOTE && c != SLASH
    case Blank(c) => IsWS(c)
    case Line(body) => forall i :: 0 <= i < |body| ==> !IsNL(body[i])
    case Block(body) => forall i :: 0 < i < |body| ==> !(body[i - 1] == STAR && body[i] == SLASH)
  }

  /** A line comment runs to a line break or to the end of the text. */
  predicate LineEnds(t: Token, rest: Doc) {
    t.Line? && rest != [] ==> rest[0].Blank? && IsNL(rest[0].c)
  }

  predicate Valid(doc: Doc) {
    doc == [] || (ValidToken(doc[0]) && LineEnds(doc[0], doc[1..]) && Valid(doc[1..]))
  }

  /** Every star inside a block comment is followed, inside it, by whitespace. */
  predicate StarSafe(body: seq<byte>) {
    forall i :: 0 <= i < |body| && body[i] == STAR ==> i + 1 < |body| && IsWS(body[i + 1])
  }

  predicate AllStarSafe(doc: Doc) {
    forall i :: 0 <= i < |doc| && doc[i].Block? ==> StarSafe(doc[i].body)
  }

  predicate Significant(t: Token) { t.Str? || t.Punct? }

  /** The significant tokens, which are what a JSON decoder sees. */
  function Meaning(doc: Doc): Doc {
    if doc == [] then []
    else if Significant(doc[0]) then [doc[0]] + Meaning(doc[1..])
    else Meaning(doc[1..])
  }

  predicate ClosesNext(ts: Doc) { ts != [] && ts[0].Punct? && Closes(ts[0].c) }

  /** A token list without the commas that directly precede a closing bracket. */
  function DropTrailing(ts: Doc): Doc {
    if ts == [] then []
    else if ts[0] == Punct(COMMA) && ClosesNext(ts[1..]) then DropTrailing(ts[1..])
    else [ts[0]] + DropTrailing(ts[1..])
  }

  /* ---------- The cleaned document ---------- */

  /** The whitespace a block comment's body becomes. */
  function BlankBody(body: seq<byte>): (r: seq<byte>)
    ensures |r| == |body| && forall i :: 0 <= i < |r| ==> IsWS(r[i])
  {
    if body == [] then []
    else if |body| > 1 && body[0] == STAR && IsWS(body[1]) then [SPACE, body[1]] + BlankBody(body[2..])
    else [SPACE] + BlankBody(body[1..])
  }

  function Blanked(t: Token): (r: seq<byte>)
    requires t.Line? || t.Block?
    ensures |r| == |RenderToken(t)| && forall i :: 0 <= i < |r| ==> IsWS(r[i])
  {
    if t.Line? then Spaces(2 + |t.body|) else [SPACE, SPACE] + BlankBody(t.body) + [SPACE, SPACE]
  }

  function Blanks(bytes: seq<byte>): (r: Doc)
    ensures |r| == |bytes| && forall i :: 0 <= i < |r| ==> r[i] == Blank(bytes[i])
  {
    if bytes == [] then [] else [Blank(bytes[0])] + Blanks(bytes[1..])
  }

  /** Each comment and each comma whose next significant token closes a bracket becomes whitespace. */
  function Clean(doc: Doc): Doc {
    if doc == [] then []
    else if doc[0].Line? || doc[0].Block? then Blanks(Blanked(doc[0])) + Clean(doc[1..])
    else if doc[0] == Punct(COMMA) && ClosesNext(Meaning(doc[1..])) then [Blank(SPACE)] + Clean(doc[1..])
    else [doc[0]] + Clean(doc[1..])
  }

  /** The cleaned document has the meaning of the original without its trailing commas. */
  lemma {:induction false} CleanMeaning(doc: Doc)
    ensures Meaning(Clean(doc)) == DropTrailing(Meaning(doc))
  {
    if doc != [] {
      CleanMeaning(doc[1..]);
      if doc[0].Line? || doc[0].Block? {
        BlanksMeanNothing(Blanks(Blanked(doc[0])), Clean(doc[1..]));
      } else if Significant(doc[0]) {
        assert Meaning(doc)[1..] == Meaning(doc[1..]);
      }
    }
  }

  lemma {:induction false} BlanksMeanNothing(blanks: Doc, doc: Doc)
    requires forall i :: 0 <= i < |blanks| ==> blanks[i].Blank?
    ensures Meaning(blanks + doc) == Meaning(doc)
  {
    if blanks == [] {
      assert blanks + doc == doc;
    } else {
      BlanksMeanNothing(blanks[1..], doc);
      assert (blanks + doc)[1..] == blanks[1..] + doc;
    }
  }

  lemma RenderCons(t: Token, doc: Doc)
    ensures Render([t] + doc) == RenderToken(t) + Render(doc)
  {
    assert ([t] + doc)[1..] == doc;
  }

  lemma {:induction false} RenderBlanks(bytes: seq<byte>, doc: Doc)
    ensures Render(Blanks(bytes) + doc) == bytes + Render(doc)
  {
    if bytes == [] {
      assert Blanks(bytes) + doc == doc;
    } else {
      var b, rest := bytes[0], bytes[1..];
      RenderBlanks(rest, doc);
      BlanksCons(b, rest, doc);
      RenderCons(Blank(b), Blanks(rest) + doc);
      SplitFirst(bytes, b, rest, Render(doc));
    }
  }

  lemma SplitFirst(bytes: seq<byte>, b: byte, rest: seq<byte>, more: seq<byte>)
    requires bytes != [] && b == bytes[0] && rest == bytes[1..]
    ensures bytes == [b] + rest && bytes + more == [b] + (rest + more)
  {
  }

  lemma BlanksCons(b: byte, rest: seq<byte>, doc: Doc)
    ensures Blanks([b] + rest) + doc == [Blank(b)] + (Blanks(rest) + doc)
  {
    assert ([b] + rest)[1..] == rest;
  }

  /* ---------- How the scanner treats one token ---------- */

  lemma {:induction false} StringLenOf(units: seq<Unit>, rest: seq<byte>)
    requires ValidToken(Str(units))
    ensures StringLen(RenderUnits(units) + [QUOTE] + rest) == |RenderUnits(units)| + 1
  {
    var s := RenderUnits(units) + [QUOTE] + rest;
    if units != [] {
      StringLenOf(units[1..], rest);
      var tail := RenderUnits(units[1..]) + [QUOTE] + rest;
      match units[0]
      case Plain(c) => assert s[1..] == tail;
      case Escape(c) => assert s[2..] == tail;
    }
  }

  lemma {:induction false} LineLenOf(body: seq<byte>, rest: seq<byte>)
    requires ValidToken(Line(body)) && (rest == [] || IsNL(rest[0]))
    ensures LineLen(body + rest) == |body|
  {
    if body == [] {
      assert body + rest == rest;
    } else {
      LineLenOf(body[1..], rest);
      assert (body + rest)[1..] == body[1..] + rest;
    }
  }

  lemma BlockPlain(c: byte, rest: seq<byte>)
    requires c != STAR
    ensures BlockOut([c] + rest) == [SPACE] + BlockOut(rest)
  {
    assert ([c] + rest)[1..] == rest;
  }

  lemma BlockStar(c: byte, rest: seq<byte>)
    requires c != SLASH
    ensures BlockOut([STAR, c] + rest) == [SPACE, c] + BlockOut(rest)
  {
    assert ([STAR, c] + rest)[2..] == rest;
  }

  /** What comes after a comment's body has been started on. */
  function Ended(body: seq<byte>, rest: seq<byte>): seq<byte> { body + [STAR, SLASH] + rest }

  lemma EndedSplits(head: seq<byte>, body: seq<byte>, rest: seq<byte>)
    ensures Ended(head + body, rest) == head + Ended(body, rest)
  {
  }

  lemma SafeTail(body: seq<byte>, n: nat)
    requires ValidToken(Block(body)) && n <= |body|
    ensures ValidToken(Block(body[n..])) && (StarSafe(body) ==> StarSafe(body[n..]))
  {
    forall i | 0 <= i < |body[n..]| ensures body[n..][i] == body[i + n] {}
  }

  lemma {:induction false} BlockOutOf(body: seq<byte>, rest: seq<byte>)
    requires ValidToken(Block(body)) && StarSafe(body)
    ensures BlockOut(Ended(body, rest)) == BlankBody(body) + [SPACE, SPACE]
  {
    if body == [] {
      assert Ended(body, rest)[..2] == [STAR, SLASH];
    } else {
      var n := if body[0] == STAR then 2 else 1;
      var tail := body[n..];
      SafeTail(body, n);
      BlockOutOf(tail, rest);
      if n == 1 { BlockOutOfByte(body, rest); } else { BlockOutOfStar(body, rest); }
    }
  }

  lemma BlankBodyStar(c: byte, tail: seq<byte>)
    requires IsWS(c)
    ensures BlankBody([STAR, c] + tail) == [SPACE, c] + BlankBody(tail)
  {
    assert ([STAR, c] + tail)[2..] == tail;
  }

  lemma BlankBodyByte(c: byte, tail: seq<byte>)
    requires c != STAR
    ensures BlankBody([c] + tail) == [SPACE] + BlankBody(tail)
  {
    assert ([c] + tail)[1..] == tail;
  }

  lemma BlockOutOfByte(body: seq<byte>, rest: seq<byte>)
    requires body != [] && body[0] != STAR
    requires BlockOut(Ended(body[1..], rest)) == BlankBody(body[1..]) + [SPACE, SPACE]
    ensures BlockOut(Ended(body, rest)) == BlankBody(body) + [SPACE, SPACE]
  {
    var c, tail := body[0], body[1..];
    EndedSplits([c], tail, rest);
    assert body == [c] + tail;
    BlankBodyByte(c, tail);
    BlockPlain(c, Ended(tail, rest));
    Associates([SPACE], BlankBody(tail), [SPACE, SPACE]);
  }

  lemma BlockOutOfStar(body: seq<byte>, rest: seq<byte>)
    requires |body| > 1 && body[0] == STAR && IsWS(body[1])
    requires BlockOut(Ended(body[2..], rest)) == BlankBody(body[2..]) + [SPACE, SPACE]
    ensures BlockOut(Ended(body, rest)) == BlankBody(body) + [SPACE, SPACE]
  {
    var c, tail := body[1], body[2..];
    EndedSplits([STAR, c], tail, rest);
    assert body == [STAR, c] + tail;
    BlankBodyStar(c, tail);
    BlockStar(c, Ended(tail, rest));
    Associates([SPACE, c], BlankBody(tail), [SPACE, SPACE]);
  }

  lemma Associates(a: seq<byte>, b: seq<byte>, c: seq<byte>)
    ensures a + (b + c) == (a + b) + c
  {
  }

  /** A star that is not followed, inside the comment, by whitespace. */
  predicate Loose(body: seq<byte>, i: int) {
    0 <= i < |body| && body[i] == STAR && !(i + 1 < |body| && IsWS(body[i + 1]))
  }

  ghost predicate SurvivesAt(out: seq<byte>, p: nat) {
    p < |out| && !IsWS(out[p])
  }

  lemma SurvivesAfter(head: seq<byte>, out: seq<byte>, p: nat)
    requires SurvivesAt(out, p)
    ensures SurvivesAt(head + out, |head| + p)
  {
  }

  /** In an unsafe comment a byte that is not whitespace survives. */
  lemma {:induction false} BlockLeaks(body: seq<byte>, rest: seq<byte>, i: nat) returns (p: nat)
    requires ValidToken(Block(body)) && Loose(body, i)
    ensures p <= |body| && SurvivesAt(BlockOut(Ended(body, rest)), p)
  {
    if body[0] == STAR && (|body| == 1 || !IsWS(body[1])) {
      p := 1;
      LeaksHere(body, rest);
    } else {
      var n := if body[0] == STAR then 2 else 1;
      SafeTail(body, n);
      assert Loose(body[n..], i - n);
      p := BlockLeaks(body[n..], rest, i - n);
      if n == 2 { LeaksPastStar(body, rest, p); } else { LeaksPastByte(body, rest, p); }
      p := p + n;
    }
  }

  lemma LeaksPastStar(body: seq<byte>, rest: seq<byte>, p: nat)
    requires |body| > 1 && body[0] == STAR && body[1] != SLASH
    requires SurvivesAt(BlockOut(Ended(body[2..], rest)), p)
    ensures SurvivesAt(BlockOut(Ended(body, rest)), p + 2)
  {
    var c, out := body[1], Ended(body[2..], rest);
    EndedSplits([STAR, c], body[2..], rest);
    assert body == [STAR, c] + body[2..];
    BlockStar(c, out);
    SurvivesAfter([SPACE, c], BlockOut(out), p);
  }

  lemma LeaksPastByte(body: seq<byte>, rest: seq<byte>, p: nat)
    requires body != [] && body[0] != STAR
    requires SurvivesAt(BlockOut(Ended(body[1..], rest)), p)
    ensures SurvivesAt(BlockOut(Ended(body, rest)), p + 1)
  {
    var c, out := body[0], Ended(body[1..], rest);
    EndedSplits([c], body[1..], rest);
    assert body == [c] + body[1..];
    BlockPlain(c, out);
    SurvivesAfter([SPACE], BlockOut(out), p);
  }

  lemma LeaksHere(body: seq<byte>, rest: seq<byte>)
    requires ValidToken(Block(body)) && Loose(body, 0)
    ensures SurvivesAt(BlockOut(Ended(body, rest)), 1)
  {
    var s := Ended(body, rest);
    assert s == [STAR, s[1]] + s[2..];
    BlockStar(s[1], s[2..]);
  }

  lemma LineOutOf(t: Token, rest: seq<byte>)
    requires t.Line? && ValidToken(t) && (rest == [] || IsNL(rest[0]))
    ensures var s := RenderToken(t) + rest; StartsComment(s) && CommentOut(s) == Blanked(t)
  {
    LineLenOf(t.body, rest);
    assert (RenderToken(t) + rest)[2..] == t.body + rest;
  }

  lemma BlockOutOfToken(t: Token, rest: seq<byte>)
    requires t.Block? && ValidToken(t) && StarSafe(t.body)
    ensures var s := RenderToken(t) + rest; StartsComment(s) && CommentOut(s) == Blanked(t)
  {
    BlockOutOf(t.body, rest);
    BlockBytes(t.body, rest);
    assert [SPACE, SPACE] + (BlankBody(t.body) + [SPACE, SPACE]) == Blanked(t);
  }

  lemma BlockBytes(body: seq<byte>, rest: seq<byte>)
    ensures var s := RenderToken(Block(body)) + rest;
      |s| > 2 && s[0] == SLASH && s[1] == STAR && s[2..] == Ended(body, rest)
  {
  }

  lemma CommentOutOf(t: Token, rest: seq<byte>)
    requires ValidToken(t) && (t.Line? || (t.Block? && StarSafe(t.body)))
    requires t.Line? ==> rest == [] || IsNL(rest[0])
    ensures var s := RenderToken(t) + rest;
      StartsComment(s) && CommentOut(s) == Blanked(t) && s[|Blanked(t)|..] == rest
  {
    if t.Line? { LineOutOf(t, rest); } else { BlockOutOfToken(t, rest); }
  }

  /** A comment is blanked and otherwise passed over. */
  lemma ScanComment(t: Token, rest: seq<byte>)
    requires ValidToken(t) && (t.Line? || (t.Block? && StarSafe(t.body)))
    requires t.Line? ==> rest == [] || IsNL(rest[0])
    ensures Scan(RenderToken(t) + rest) == Blanked(t) + Scan(rest)
    ensures Tail(RenderToken(t) + rest) == Blanked(t) + Tail(rest)
    ensures Trailing(RenderToken(t) + rest) == Trailing(rest)
  {
    CommentOutOf(t, rest);
    CommentStep(RenderToken(t) + rest, Blanked(t), rest);
  }

  lemma LineBreakNext(t: Token, rest: Doc)
    requires t.Line? && LineEnds(t, rest)
    ensures Render(rest) == [] || IsNL(Render(rest)[0])
  {
  }

  lemma ScanStringToken(t: Token, rest: seq<byte>)
    requires t.Str? && ValidToken(t)
    ensures Scan(RenderToken(t) + rest) == RenderToken(t) + Scan(rest)
    ensures Tail(RenderToken(t) + rest) == Scan(RenderToken(t) + rest)
    ensures !Trailing(RenderToken(t) + rest)
  {
    var s := RenderToken(t) + rest;
    StringLenOf(t.units, rest);
    assert s[1..] == RenderUnits(t.units) + [QUOTE] + rest;
    assert s[..|RenderToken(t)|] == RenderToken(t) && s[|RenderToken(t)|..] == rest;
  }

  lemma ScanByteToken(c: byte, rest: seq<byte>)
    requires c != QUOTE && c != SLASH
    ensures var s := [c] + rest;
      && Scan(s) == (if c != COMMA then [c] + Scan(rest) else [if Trailing(rest) then SPACE else COMMA] + Tail(rest))
      && Tail(s) == (if IsWS(c) then [c] + Tail(rest) else Scan(s))
      && Trailing(s) == (if IsWS(c) then Trailing(rest) else Closes(c))
  {
    assert ([c] + rest)[1..] == rest;
  }

  /* ---------- Cleaning the text is cleaning the document ---------- */

  lemma {:induction false} TrailingIsMeant(doc: Doc)
    requires Valid(doc) && AllStarSafe(doc)
    ensures Trailing(Render(doc)) == ClosesNext(Meaning(doc))
  {
    if doc != [] {
      var t, rest := doc[0], doc[1..];
      TrailingIsMeant(rest);
      match t
      case Str(_) => ScanStringToken(t, Render(rest));
      case Punct(c) => ScanByteToken(c, Render(rest));
      case Blank(c) => ScanByteToken(c, Render(rest));
      case Line(_) => LineBreakNext(t, rest); ScanComment(t, Render(rest));
      case Block(_) => ScanComment(t, Render(rest));
    }
  }

  ghost predicate ScansClean(doc: Doc) {
    Scan(Render(doc)) == Render(Clean(doc)) == Tail(Render(doc))
  }

  /** The text of a document comes out as the text of the cleaned document, right after a comma as elsewhere. */
  lemma {:induction false} ScanIsClean(doc: Doc)
    requires Valid(doc) && AllStarSafe(doc)
    ensures Scan(Render(doc)) == Render(Clean(doc))
    ensures Tail(Render(doc)) == Render(Clean(doc))
  {
    if doc != [] {
      var t, rest := doc[0], doc[1..];
      assert doc == [t] + rest;
      ScanIsClean(rest);
      match t
      case Str(_) => CleanString(t, rest);
      case Punct(c) => CleanPunct(t, rest);
      case Blank(c) => CleanBlank(t, rest);
      case Line(_) => LineBreakNext(t, rest); CleanComment(t, rest);
      case Block(_) => CleanComment(t, rest);
    }
  }

  /** The cleaned text of a document is that of its first token, as long as the token, then that of the rest. */
  lemma CleanSplits(t: Token, rest: Doc) returns (head: seq<byte>)
    ensures |head| == |RenderToken(t)| && Render(Clean([t] + rest)) == head + Render(Clean(rest))
    ensures t.Line? || t.Block? ==> head == Blanked(t)
    ensures t.Str? || t.Blank? ==> head == RenderToken(t)
    ensures t.Punct? ==> head == (if t.c == COMMA && ClosesNext(Meaning(rest)) then [SPACE] else [t.c])
  {
    var doc := [t] + rest;
    assert doc[1..] == rest;
    if t.Line? || t.Block? {
      RenderBlanks(Blanked(t), Clean(rest));
      head := Blanked(t);
    } else {
      var first := if t == Punct(COMMA) && ClosesNext(Meaning(rest)) then Blank(SPACE) else t;
      assert Clean(doc) == [first] + Clean(rest);
      RenderCons(first, Clean(rest));
      head := RenderToken(first);
    }
  }

  lemma CleanString(t: Token, rest: Doc)
    requires t.Str? && ValidToken(t) && ScansClean(rest)
    ensures ScansClean([t] + rest)
  {
    var head := CleanSplits(t, rest);
    RenderCons(t, rest);
    ScanStringToken(t, Render(rest));
  }

  lemma CleanPunct(t: Token, rest: Doc)
    requires t.Punct? && ValidToken(t) && Valid(rest) && AllStarSafe(rest) && ScansClean(rest)
    ensures ScansClean([t] + rest)
  {
    var head := CleanSplits(t, rest);
    RenderCons(t, rest);
    TrailingIsMeant(rest);
    ScanByteToken(t.c, Render(rest));
  }

  lemma CleanBlank(t: Token, rest: Doc)
    requires t.Blank? && ValidToken(t) && ScansClean(rest)
    ensures ScansClean([t] + rest)
  {
    var head := CleanSplits(t, rest);
    RenderCons(t, rest);
    ScanByteToken(t.c, Render(rest));
  }

  lemma CleanComment(t: Token, rest: Doc)
    requires ValidToken(t) && (t.Line? || (t.Block? && StarSafe(t.body)))
    requires t.Line? ==> Render(rest) == [] || IsNL(Render(rest)[0])
    requires ScansClean(rest)
    ensures ScansClean([t] + rest)
  {
    var head := CleanSplits(t, rest);
    RenderCons(t, rest);
    ScanComment(t, Render(rest));
  }

  /** A byte left over by an unsafe comment, where the cleaned document has whitespace. */
  ghost predicate LeaksAt(out: seq<byte>, clean: seq<byte>, p: nat) {
    p < |out| == |clean| && !IsWS(out[p]) && IsWS(clean[p])
  }

  lemma LeakAfter(head: seq<byte>, out: seq<byte>, cleanHead: seq<byte>, clean: seq<byte>, p: nat)
    requires LeaksAt(out, clean, p) && |head| == |cleanHead|
    ensures LeaksAt(head + out, cleanHead + clean, p + |head|)
  {
  }

  lemma {:induction false} CleanLength(doc: Doc)
    ensures |Render(Clean(doc))| == |Render(doc)|
  {
    if doc != [] {
      CleanLength(doc[1..]);
      assert doc == [doc[0]] + doc[1..];
      var head := CleanSplits(doc[0], doc[1..]);
    }
  }

  /** One place leaks in normal scanning, one in the search for what follows a comma. */
  ghost predicate Leaks(doc: Doc, p: nat, q: nat) {
    && LeaksAt(Scan(Render(doc)), Render(Clean(doc)), p)
    && LeaksAt(Tail(Render(doc)), Render(Clean(doc)), q)
  }

  lemma UnsafeLeaks(t: Token, rest: Doc) returns (p: nat)
    requires t.Block? && ValidToken(t) && !StarSafe(t.body)
    ensures Leaks([t] + rest, p, p)
  {
    var i :| 0 <= i < |t.body| && t.body[i] == STAR && !(i + 1 < |t.body| && IsWS(t.body[i + 1]));
    assert Loose(t.body, i);
    p := BlockLeaks(t.body, Render(rest), i);
    LeakHere(t.body, Render(rest), p);
    p := p + 2;
    var s := RenderToken(t) + Render(rest);
    LeakShows(t, rest, Scan(s), p);
    LeakShows(t, rest, Tail(s), p);
    RenderCons(t, rest);
  }

  /** Inside the comment the cleaned document has whitespace. */
  lemma LeakShows(t: Token, rest: Doc, out: seq<byte>, p: nat)
    requires t.Block? && p < |Blanked(t)| && SurvivesAt(out, p) && |out| == |RenderToken(t) + Render(rest)|
    ensures LeaksAt(out, Render(Clean([t] + rest)), p)
  {
    var head := CleanSplits(t, rest);
    CleanLength(rest);
  }

  lemma LeakHere(body: seq<byte>, rest: seq<byte>, p: nat)
    requires p <= |body| && SurvivesAt(BlockOut(Ended(body, rest)), p)
    ensures var s := RenderToken(Block(body)) + rest;
      SurvivesAt(Scan(s), p + 2) && SurvivesAt(Tail(s), p + 2) && p + 2 < |Blanked(Block(body))|
  {
    var s := RenderToken(Block(body)) + rest;
    BlockBytes(body, rest);
    var out := BlockOut(s[2..]);
    SurvivesAfter([SPACE, SPACE], out, p);
    CommentStep(s, [SPACE, SPACE] + out, s[2 + |out|..]);
  }

  /** The leak of an unsafe comment shows in the whole text, in either scanning mode. */
  lemma {:induction false} UnsafeShows(doc: Doc) returns (p: nat, q: nat)
    requires Valid(doc) && !AllStarSafe(doc)
    ensures Leaks(doc, p, q)
  {
    var t, rest := doc[0], doc[1..];
    assert doc == [t] + rest;
    if t.Block? && !StarSafe(t.body) {
      p := UnsafeLeaks(t, rest);
      q := p;
    } else {
      assert !AllStarSafe(rest) by {
        var i :| 0 <= i < |doc| && doc[i].Block? && !StarSafe(doc[i].body);
        assert rest[i - 1] == doc[i];
      }
      p, q := UnsafeShows(rest);
      if t.Line? || t.Block? {
        p, q := ShiftOverComment(t, rest, p, q);
      } else if t.Str? {
        p, q := ShiftOverString(t, rest, p, q);
      } else {
        p, q := ShiftOverByte(t, rest, p, q);
      }
    }
  }

  /** The cleaner turns the first token into `x` and goes on with `out`. */
  lemma LeakShifts(t: Token, rest: Doc, x: seq<byte>, out: seq<byte>, p: nat) returns (p': nat)
    requires |x| == |RenderToken(t)| && LeaksAt(out, Render(Clean(rest)), p)
    ensures p' == p + |x| && LeaksAt(x + out, Render(Clean([t] + rest)), p')
  {
    var head := CleanSplits(t, rest);
    LeakAfter(x, out, head, Render(Clean(rest)), p);
    p' := p + |x|;
  }

  lemma ShiftOverString(t: Token, rest: Doc, p: nat, q: nat) returns (p': nat, q': nat)
    requires t.Str? && ValidToken(t) && Leaks(rest, p, q)
    ensures Leaks([t] + rest, p', q')
  {
    p' := LeakShifts(t, rest, RenderToken(t), Scan(Render(rest)), p);
    q' := p';
    RenderCons(t, rest);
    ScanStringToken(t, Render(rest));
  }

  lemma ShiftOverByte(t: Token, rest: Doc, p: nat, q: nat) returns (p': nat, q': nat)
    requires (t.Punct? || t.Blank?) && ValidToken(t) && Leaks(rest, p, q)
    ensures Leaks([t] + rest, p', q')
  {
    var c := t.c;
    RenderCons(t, rest);
    ScanByteToken(c, Render(rest));
    if c == COMMA {
      p' := LeakShifts(t, rest, [if Trailing(Render(rest)) then SPACE else c], Tail(Render(rest)), q);
      q' := p';
    } else {
      p' := LeakShifts(t, rest, [c], Scan(Render(rest)), p);
      q' := p';
      if t.Blank? {
        q' := LeakShifts(t, rest, [c], Tail(Render(rest)), q);
      }
    }
  }

  lemma ShiftOverComment(t: Token, rest: Doc, p: nat, q: nat) returns (p': nat, q': nat)
    requires (t.Line? || (t.Block? && StarSafe(t.body))) && ValidToken(t) && LineEnds(t, rest) && Leaks(rest, p, q)
    ensures Leaks([t] + rest, p', q')
  {
    p' := LeakShifts(t, rest, Blanked(t), Scan(Render(rest)), p);
    q' := LeakShifts(t, rest, Blanked(t), Tail(Render(rest)), q);
    RenderCons(t, rest);
    if t.Line? { LineBreakNext(t, rest); }
    ScanComment(t, Render(rest));
  }

  /** For every document: the text is cleaned as the document is exactly when no comment has an unsafe star. */
  lemma ScanIsCleanIff(doc: Doc)
    requires Valid(doc)
    ensures Scan(Render(doc)) == Render(Clean(doc)) <==> AllStarSafe(doc)
  {
    if AllStarSafe(doc) {
      ScanIsClean(doc);
    } else {
      var p, q := UnsafeShows(doc);
    }
  }

  /** A string literal comes through byte for byte, at its place. */
  lemma {:induction false} StringsSurvive(before: Doc, t: Token, after: Doc)
    requires t.Str? && Valid(before + [t] + after) && AllStarSafe(before + [t] + after)
    ensures Holds(Scan(Render(before + [t] + after)), |Render(before)|, RenderToken(t))
  {
    var doc := before + [t] + after;
    ScanIsClean(doc);
    StringKept(before, t, after);
  }

  ghost predicate Holds(out: seq<byte>, n: nat, piece: seq<byte>) {
    n + |piece| <= |out| && out[n..n + |piece|] == piece
  }

  lemma HoldsAfter(head: seq<byte>, out: seq<byte>, n: nat, piece: seq<byte>)
    requires Holds(out, n, piece)
    ensures Holds(head + out, |head| + n, piece)
  {
    assert (head + out)[|head| + n..|head| + n + |piece|] == out[n..n + |piece|];
  }

  lemma {:induction false} StringKept(before: Doc, t: Token, after: Doc)
    requires t.Str?
    ensures Holds(Render(Clean(before + [t] + after)), |Render(before)|, RenderToken(t))
  {
    if before == [] {
      assert before + [t] + after == [t] + after;
      var head := CleanSplits(t, after);
    } else {
      var rest := before[1..] + [t] + after;
      assert before + [t] + after == [before[0]] + rest;
      StringKept(before[1..], t, after);
      var head := CleanSplits(before[0], rest);
      HoldsAfter(head, Render(Clean(rest)), |Render(before[1..])|, RenderToken(t));
    }
  }

  /* ---------- Cleaning twice ---------- */

  /** The next significant token is a comma that is itself trailing. */
  predicate TrailingCommaNext(ts: Doc) {
    ts != [] && ts[0] == Punct(COMMA) && ClosesNext(ts[1..])
  }

  /** Somewhere a comma is directly followed, blanks and comments aside, by a trailing comma. */
  predicate StackedComma(doc: Doc) {
    doc != [] && ((doc[0] == Punct(COMMA) && TrailingCommaNext(Meaning(doc[1..]))) || StackedComma(doc[1..]))
  }

  predicate NoComments(doc: Doc) {
    forall i :: 0 <= i < |doc| ==> !doc[i].Line? && !doc[i].Block?
  }

  predicate HasTrailing(doc: Doc) {
    doc != [] && ((doc[0] == Punct(COMMA) && ClosesNext(Meaning(doc[1..]))) || HasTrailing(doc[1..]))
  }

  lemma {:induction false} BlanksThen(blanks: seq<byte>, doc: Doc)
    requires forall i :: 0 <= i < |blanks| ==> IsWS(blanks[i])
    ensures Valid(Blanks(blanks) + doc) == Valid(doc) && HasTrailing(Blanks(blanks) + doc) == HasTrailing(doc)
  {
    if blanks == [] {
      assert Blanks(blanks) + doc == doc;
    } else {
      BlanksThen(blanks[1..], doc);
      assert (Blanks(blanks) + doc)[1..] == Blanks(blanks[1..]) + doc;
    }
  }

  lemma {:induction false} CleanIsValid(doc: Doc)
    requires Valid(doc)
    ensures Valid(Clean(doc)) && NoComments(Clean(doc)) && AllStarSafe(Clean(doc))
  {
    if doc != [] {
      CleanIsValid(doc[1..]);
      if doc[0].Line? || doc[0].Block? {
        BlanksThen(Blanked(doc[0]), Clean(doc[1..]));
      } else {
        assert Clean(doc)[1..] == Clean(doc[1..]);
      }
    }
  }

  lemma {:induction false} TrailingLeft(doc: Doc)
    ensures HasTrailing(Clean(doc)) == StackedComma(doc)
  {
    if doc != [] {
      TrailingLeft(doc[1..]);
      CleanMeaning(doc[1..]);
      if doc[0].Line? || doc[0].Block? {
        BlanksThen(Blanked(doc[0]), Clean(doc[1..]));
      } else {
        assert Clean(doc)[1..] == Clean(doc[1..]);
      }
      assert Meaning(doc[1..]) != [] && Meaning(doc[1..])[0] == Punct(COMMA) ==>
        DropTrailing(Meaning(doc[1..])) == (if ClosesNext(Meaning(doc[1..])[1..]) then [] else [Punct(COMMA)]) + DropTrailing(Meaning(doc[1..])[1..]);
    }
  }

  lemma {:induction false} CleanChangesIff(doc: Doc)
    requires NoComments(doc)
    ensures Render(Clean(doc)) == Render(doc) <==> !HasTrailing(doc)
  {
    if doc != [] {
      CleanChangesIff(doc[1..]);
      CleanLength(doc[1..]);
      assert NoComments(doc[1..]);
      assert Clean(doc)[1..] == Clean(doc[1..]);
      var out := Render(Clean(doc));
      assert out[|out| - |Render(doc[1..])|..] == Render(Clean(doc[1..]));
      assert Render(doc)[|out| - |Render(doc[1..])|..] == Render(doc[1..]);
    }
  }

  /** Cleaning twice is cleaning once exactly when no comma stands directly before a trailing comma. */
  lemma IdempotentIff(doc: Doc)
    requires Valid(doc) && AllStarSafe(doc)
    ensures Scan(Scan(Render(doc))) == Scan(Render(doc)) <==> !StackedComma(doc)
  {
    ScanIsClean(doc);
    CleanIsValid(doc);
    ScanIsClean(Clean(doc));
    CleanChangesIff(Clean(doc));
    TrailingLeft(doc);
  }
}
