/**
 * The cleaner in plain bytes: what the tokens of a text are, and what becomes of each of them
 * (common/json5/json5.go; sections 2 and 7 of RFC 8259).
 */
module Json5Bytes {
  import opened Json5
  import opened Json5Grammar
  import opened Json5Reading

  predicate White(c: byte) { c == 9 || c == 10 || c == 13 || c == 32 }

  /** Which bytes make up a token: tab, line breaks and space are blank; quote, escape and comments as in the standard. */
  lemma TokensInBytes(t: Token)
    ensures ValidToken(t) <==>
      match t
      case Str(units) => forall i :: 0 <= i < |units| && units[i].Plain? ==> units[i].c != 34 && units[i].c != 92
      case Punct(c) => !White(c) && c != 34 && c != 47
      case Blank(c) => White(c)
      case Line(body) => 10 !in body && 13 !in body
      case Block(body) => forall i :: 0 < i < |body| ==> !(body[i - 1] == 42 && body[i] == 47)
    ensures var text := RenderToken(t);
      match t
      case Str(units) => |text| >= 2 && text[0] == 34 && text[|text| - 1] == 34 && text[1..|text| - 1] == RenderUnits(units)
      case Punct(c) => text == [c]
      case Blank(c) => text == [c]
      case Line(body) => text == [47, 47] + body
      case Block(body) => text == [47, 42] + body + [42, 47]
  {
  }

  lemma UnitsInBytes(u: Unit, more: seq<Unit>)
    ensures RenderUnits([u] + more) == (if u.Plain? then [u.c] else [92, u.c]) + RenderUnits(more)
  {
    assert ([u] + more)[1..] == more;
  }

  /** A closing bracket or brace comes first. */
  predicate BracketFirst(ts: Doc) { ts != [] && (ts[0] == Punct(93) || ts[0] == Punct(125)) }

  /** The bytes that a token comes out as, where `next` are the significant tokens after it. */
  ghost predicate ComesOut(t: Token, next: Doc, out: seq<byte>) {
    && |out| == |RenderToken(t)|
    && (t.Str? || t.Blank? ==> out == RenderToken(t))
    && (t.Line? || t.Block? ==> forall k :: 0 <= k < |out| ==> White(out[k]))
    && (t.Punct? ==> out == [if t.c == 44 && BracketFirst(next) then 32 else t.c])
  }

  lemma FirstFate(t: Token, after: Doc) returns (out: seq<byte>)
    ensures ComesOut(t, Meaning(after), out) && Render(Clean([t] + after)) == out + Render(Clean(after))
  {
    out := CleanSplits(t, after);
  }

  lemma HoldsFirst(out: seq<byte>, more: seq<byte>)
    ensures Holds(out + more, 0, out)
  {
  }

  /** The cleaned text of a document starts with as many bytes as its first token has. */
  lemma CleanHead(doc: Doc) returns (head: seq<byte>)
    requires doc != []
    ensures |head| == |RenderToken(doc[0])| && Render(Clean(doc)) == head + Render(Clean(doc[1..]))
  {
    assert doc == [doc[0]] + doc[1..];
    head := CleanSplits(doc[0], doc[1..]);
  }

  lemma HoldsFurther(text: seq<byte>, head: seq<byte>, tail: seq<byte>, n: nat, m: nat, out: seq<byte>)
    requires text == head + tail && m == |head| + n && Holds(tail, n, out)
    ensures Holds(text, m, out)
  {
    HoldsAfter(head, tail, n, out);
  }

  lemma BehindFirst(doc: Doc, k: nat)
    requires 0 < k < |doc|
    ensures doc[1..][k - 1] == doc[k] && doc[1..][k..] == doc[k + 1..]
    ensures |Render(doc[..k])| == |RenderToken(doc[0])| + |Render(doc[1..][..k - 1])|
  {
    assert doc[..k][1..] == doc[1..][..k - 1];
  }

  /** The token comes out so, at its place in the cleaned document. */
  ghost predicate Fate(doc: Doc, k: nat, out: seq<byte>)
    requires k < |doc|
  {
    ComesOut(doc[k], Meaning(doc[k + 1..]), out) && Holds(Render(Clean(doc)), |Render(doc[..k])|, out)
  }

  lemma FateOfFirst(doc: Doc) returns (out: seq<byte>)
    requires doc != []
    ensures Fate(doc, 0, out)
  {
    assert doc == [doc[0]] + doc[1..] && doc[..0] == [];
    out := FirstFate(doc[0], doc[1..]);
    HoldsFirst(out, Render(Clean(doc[1..])));
  }

  lemma FateBehind(doc: Doc, k: nat, out: seq<byte>)
    requires 0 < k < |doc| && Fate(doc[1..], k - 1, out)
    ensures Fate(doc, k, out)
  {
    var head := CleanHead(doc);
    BehindFirst(doc, k);
    HoldsFurther(Render(Clean(doc)), head, Render(Clean(doc[1..])), |Render(doc[1..][..k - 1])|, |Render(doc[..k])|, out);
  }

  lemma {:induction false} CleanFate(doc: Doc, k: nat) returns (out: seq<byte>)
    requires k < |doc|
    ensures Fate(doc, k, out)
  {
    if k == 0 {
      out := FateOfFirst(doc);
    } else {
      out := CleanFate(doc[1..], k - 1);
      FateBehind(doc, k, out);
    }
  }

  /**
   * Every token of every document, at its place in the cleaned text: strings and blanks are as they were,
   * comments are white, a comma is a space exactly if the next significant byte is a closing bracket or
   * brace, and every other byte is as it was.
   */
  lemma TokenFate(doc: Doc, k: nat) returns (out: seq<byte>)
    requires Valid(doc) && AllStarSafe(doc) && k < |doc|
    ensures ComesOut(doc[k], Meaning(doc[k + 1..]), out) && Holds(Scan(Render(doc)), |Render(doc[..k])|, out)
  {
    ScanIsClean(doc);
    out := CleanFate(doc, k);
  }

  /* ---------- Texts that are no documents ---------- */

  /** A string that is never closed runs to the end of the text. */
  lemma {:induction false} OpenString(body: seq<byte>)
    requires 34 !in body
    ensures StringLen(body) == |body| && Scan([34] + body) == [34] + body
  {
    StringToEnd(body);
    assert ([34] + body)[1..] == body;
  }

  lemma {:induction false} StringToEnd(body: seq<byte>)
    requires 34 !in body
    ensures StringLen(body) == |body|
  {
    if body != [] && body[0] == 92 && |body| > 1 {
      StringToEnd(body[2..]);
    } else if body != [] && body[0] != 92 {
      StringToEnd(body[1..]);
    }
  }

  /** A block comment that is never closed is blanked to the end of the text. */
  lemma OpenBlock(body: seq<byte>)
    requires 42 !in body
    ensures var out := Scan([47, 42] + body); |out| == 2 + |body| && forall k :: 0 <= k < |out| ==> out[k] == 32
  {
    BlockToEnd(body);
    assert ([47, 42] + body)[2..] == body && ([47, 42] + body)[2 + |body|..] == [];
  }

  lemma {:induction false} BlockToEnd(body: seq<byte>)
    requires 42 !in body
    ensures BlockOut(body) == Spaces(|body|)
  {
    if body != [] {
      BlockToEnd(body[1..]);
      assert Spaces(|body|) == [SPACE] + Spaces(|body| - 1);
    }
  }

  lemma SlashStep(c: byte, rest: seq<byte>)
    requires c != 42 && c != 47
    ensures var s := [47, c] + rest;
      Scan(s) == [47] + Scan([c] + rest) && Tail(s) == [47, c] + Tail(rest) && Trailing(s) == Trailing(rest)
  {
    var s := [47, c] + rest;
    assert !StartsComment(s) && s[1..] == [c] + rest && s[2..] == rest && s[..2] == [47, c];
  }

  /**
   * A slash that starts no comment stays with the byte after it; after a comma it hides that byte, so that a
   * bracket there does not make the comma a trailing one.
   */
  lemma LoneSlash(c: byte, rest: seq<byte>)
    requires c != 42 && c != 47
    ensures Scan([47, c] + rest) == [47] + Scan([c] + rest)
    ensures Scan([44] + ([47, c] + rest)) == [if Trailing(rest) then 32 else 44] + ([47, c] + Tail(rest))
  {
    SlashStep(c, rest);
    ScanByteToken(44, [47, c] + rest);
  }

  /* ---------- Which significant tokens are left ---------- */

  predicate Stays(ts: Doc, i: nat)
    requires i < |ts|
  {
    !(ts[i] == Punct(44) && BracketFirst(ts[i + 1..]))
  }

  /** How many of the first `n` tokens stay. */
  function Staying(ts: Doc, n: nat): nat
    requires n <= |ts|
  {
    if n == 0 then 0 else Staying(ts, n - 1) + if Stays(ts, n - 1) then 1 else 0
  }

  lemma {:induction false} StayingTail(ts: Doc, n: nat)
    requires n < |ts|
    ensures Staying(ts, n + 1) == (if Stays(ts, 0) then 1 else 0) + Staying(ts[1..], n)
  {
    if n > 0 {
      StayingTail(ts, n - 1);
      assert ts[n + 1..] == ts[1..][n..];
    }
  }

  /** The `i`-th token stays, and comes after those before it that stay. */
  predicate KeptAt(ts: Doc, out: Doc, i: nat)
    requires i < |ts|
  {
    Stays(ts, i) ==> Staying(ts, i) < |out| && out[Staying(ts, i)] == ts[i]
  }

  lemma StaysShift(ts: Doc, i: nat)
    requires 0 < i < |ts|
    ensures Stays(ts, i) == Stays(ts[1..], i - 1)
  {
    assert ts[i + 1..] == ts[1..][i..];
  }

  lemma DropHead(ts: Doc) returns (head: Doc)
    requires ts != []
    ensures DropTrailing(ts) == head + DropTrailing(ts[1..]) && head == if Stays(ts, 0) then [ts[0]] else []
  {
    head := if Stays(ts, 0) then [ts[0]] else [];
    assert Stays(ts, 0) <==> !(ts[0] == Punct(COMMA) && ClosesNext(ts[1..]));
  }

  lemma After(head: Doc, tail: Doc, n: nat)
    requires n < |tail|
    ensures |head| + n < |head + tail| && (head + tail)[|head| + n] == tail[n]
  {
  }

  lemma KeptShifts(ts: Doc, head: Doc, tail: Doc, i: nat)
    requires 0 < i < |ts| && KeptAt(ts[1..], tail, i - 1) && |head| == if Stays(ts, 0) then 1 else 0
    ensures KeptAt(ts, head + tail, i)
  {
    StaysShift(ts, i);
    if Stays(ts, i) {
      var n := Staying(ts[1..], i - 1);
      StayingTail(ts, i - 1);
      assert Staying(ts, i) == |head| + n;
      After(head, tail, n);
    }
  }

  /** Exactly the commas in front of a closing bracket or brace go; all other tokens stay, in their order. */
  lemma {:induction false} DropsExactly(ts: Doc)
    ensures |DropTrailing(ts)| == Staying(ts, |ts|)
    ensures forall i: nat :: i < |ts| ==> KeptAt(ts, DropTrailing(ts), i)
  {
    if ts != [] {
      DropsExactly(ts[1..]);
      StayingTail(ts, |ts| - 1);
      var head := DropHead(ts);
      forall i: nat | i < |ts| ensures KeptAt(ts, DropTrailing(ts), i) {
        if i > 0 { KeptShifts(ts, head, DropTrailing(ts[1..]), i); }
      }
    }
  }

  /** A comma directly before a closing bracket or brace. */
  predicate CommaAt(ts: Doc, i: nat) {
    i < |ts| && ts[i] == Punct(44) && BracketFirst(ts[i + 1..])
  }

  /** Two commas directly before one. */
  predicate CommasAt(ts: Doc, i: nat) {
    i < |ts| && ts[i] == Punct(44) && CommaAt(ts, i + 1)
  }

  ghost predicate HasComma(ts: Doc) { exists i: nat :: CommaAt(ts, i) }

  ghost predicate HasCommas(ts: Doc) { exists i: nat :: CommasAt(ts, i) }

  lemma CommaTail(ts: Doc)
    requires ts != []
    ensures HasComma(ts) <==> CommaAt(ts, 0) || HasComma(ts[1..])
    ensures HasCommas(ts) <==> CommasAt(ts, 0) || HasCommas(ts[1..])
  {
    var rest := ts[1..];
    forall i: nat ensures CommaAt(ts, i + 1) <==> CommaAt(rest, i) {
      if i < |rest| { assert ts[i + 2..] == rest[i + 1..]; }
    }
    if i: nat :| CommaAt(rest, i) { assert CommaAt(ts, i + 1); }
    if i: nat :| CommasAt(rest, i) { assert CommasAt(ts, i + 1); }
    if i: nat :| CommaAt(ts, i) && i > 0 { assert CommaAt(rest, i - 1); }
    if i: nat :| CommasAt(ts, i) && i > 0 { assert CommasAt(rest, i - 1); }
  }

  lemma BracketAfterDrop(ts: Doc)
    ensures BracketFirst(DropTrailing(ts)) <==> BracketFirst(ts) || CommaAt(ts, 0)
  {
  }

  /** Dropping leaves a comma in front of a closing bracket exactly where there were two. */
  lemma {:induction false} DropLeavesCommaIff(ts: Doc)
    ensures HasComma(DropTrailing(ts)) <==> HasCommas(ts)
  {
    if ts != [] {
      var rest, out := ts[1..], DropTrailing(ts);
      DropLeavesCommaIff(rest);
      CommaTail(ts);
      BracketAfterDrop(rest);
      if Stays(ts, 0) {
        CommaTail(out);
        assert out[1..] == DropTrailing(rest);
      }
    }
  }

  /**
   * However the cleaned text is read: it has a comma directly before a closing bracket or brace exactly if
   * the document had two in a row there, and its significant tokens are the document's that stay.
   */
  lemma CleanedCommasIff(doc: Doc, read: Doc)
    requires Valid(doc) && AllStarSafe(doc) && Valid(read) && Render(read) == Scan(Render(doc))
    ensures HasComma(Meaning(read)) <==> HasCommas(Meaning(doc))
    ensures |Meaning(read)| == Staying(Meaning(doc), |Meaning(doc)|)
    ensures forall i: nat :: i < |Meaning(doc)| ==> KeptAt(Meaning(doc), Meaning(read), i)
  {
    CleanedHasOneMeaning(doc, read);
    DropLeavesCommaIff(Meaning(doc));
    DropsExactly(Meaning(doc));
  }
}
