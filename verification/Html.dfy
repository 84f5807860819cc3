/** util.encode and Token.stringify, and reading the text back out of the HTML. */
module Html {
  import opened Pieces
  import Strings
  import opened Grammars
  import opened TokenizerMeaning
  import opened TokenizerSpec
  import opened TokenizerProps

  const NBSP := '\U{00A0}'

  function ReplaceAll(s: string, c: char, sub: string): string {
    if s == "" then "" else (if s[0] == c then sub else [s[0]]) + ReplaceAll(s[1..], c, sub)
  }

  /** The three replacements of util.encode on a string. */
  function Escape(s: string): string {
    ReplaceAll(ReplaceAll(ReplaceAll(s, '&', "&amp;"), '<', "&lt;"), NBSP, " ")
  }

  /** util.encode: a Token is rebuilt without its matched string, so its length is 0. */
  function Encode(p: Piece): Piece
    decreases p, 1
  {
    match p
    case Text(s) => Text(Escape(s))
    case Token(kind, Plain(s), alias, _) => Token(kind, Plain(Escape(s)), alias, 0)
    case Token(kind, Nested(parts), alias, _) => Token(kind, Nested(EncodeAll(parts)), alias, 0)
  }

  function EncodeAll(ps: seq<Piece>): seq<Piece>
    decreases ps, 0
  {
    if ps == [] then [] else [Encode(ps[0])] + EncodeAll(ps[1..])
  }

  /** What stands in a Token's opening tag. */
  function Opening(kind: string, alias: seq<string>): string {
    "span class=\"" + Strings.Join(["token", kind] + alias, ' ') + "\""
  }

  function OpenTag(kind: string, alias: seq<string>): string {
    "<" + Opening(kind, alias) + ">"
  }

  const CLOSE_TAG := "</span>"

  function Stringify(p: Piece): string
    decreases p, 1
  {
    match p
    case Text(s) => s
    case Token(kind, Plain(s), alias, _) => OpenTag(kind, alias) + s + CLOSE_TAG
    case Token(kind, Nested(parts), alias, _) => OpenTag(kind, alias) + StringifyAll(parts) + CLOSE_TAG
  }

  function StringifyAll(ps: seq<Piece>): string
    decreases ps, 0
  {
    if ps == [] then "" else Stringify(ps[0]) + StringifyAll(ps[1..])
  }

  /** The accumulator loop of stringify over an array. */
  method RenderAll(ps: seq<Piece>) returns (r: string)
    ensures r == StringifyAll(ps)
    decreases ps, 0
  {
    r := "";
    for i := 0 to |ps|
      invariant StringifyAll(ps) == r + StringifyAll(ps[i..])
    {
      var piece := Render(ps[i]);
      assert ps[i..][1..] == ps[i + 1..];
      r := r + piece;
    }
  }

  method Render(p: Piece) returns (r: string)
    ensures r == Stringify(p)
    decreases p, 1
  {
    match p
    case Text(s) => r := s;
    case Token(kind, Plain(s), alias, _) => r := OpenTag(kind, alias) + s + CLOSE_TAG;
    case Token(kind, Nested(parts), alias, _) =>
      var inner := RenderAll(parts);
      r := OpenTag(kind, alias) + inner + CLOSE_TAG;
  }

  // Reading the text back: drop everything between '<' and '>', undo the escapes.

  function StripTags(s: string, inTag: bool): string {
    if s == "" then ""
    else if inTag then StripTags(s[1..], s[0] != '>')
    else if s[0] == '<' then StripTags(s[1..], true)
    else [s[0]] + StripTags(s[1..], false)
  }

  predicate EndsInTag(s: string, inTag: bool) {
    if s == "" then inTag
    else EndsInTag(s[1..], if inTag then s[0] != '>' else s[0] == '<')
  }

  function Unescape(s: string): string {
    if s == "" then ""
    else if "&amp;" <= s then "&" + Unescape(s[5..])
    else if "&lt;" <= s then "<" + Unescape(s[4..])
    else [s[0]] + Unescape(s[1..])
  }

  function SpaceForNbsp(s: string): string {
    ReplaceAll(s, NBSP, " ")
  }

  ghost predicate PlainName(s: string) { '>' !in s }

  /** No type or alias name in the grammar holds a '>'. */
  ghost predicate PlainNames(g: Grammar)
    decreases g
  {
    forall k :: 0 <= k < |g.patterns| ==>
      && PlainName(g.patterns[k].key)
      && (forall a :: a in g.patterns[k].alias ==> PlainName(a))
      && (g.patterns[k].inside.Some? ==> PlainNames(g.patterns[k].inside.value))
  }

  ghost predicate Named(p: Piece)
    decreases p, 1
  {
    match p
    case Text(_) => true
    case Token(kind, c, alias, _) =>
      && PlainName(kind) && (forall a :: a in alias ==> PlainName(a))
      && match c { case Plain(_) => true case Nested(parts) => AllNamed(parts) }
  }

  ghost predicate AllNamed(ps: seq<Piece>)
    decreases ps, 0
  {
    forall i :: 0 <= i < |ps| ==> Named(ps[i])
  }

  lemma {:induction false} ReplaceAppend(a: string, b: string, c: char, sub: string)
    ensures ReplaceAll(a + b, c, sub) == ReplaceAll(a, c, sub) + ReplaceAll(b, c, sub)
  {
    if a == "" {
      assert a + b == b;
    } else {
      ReplaceAppend(a[1..], b, c, sub);
      assert (a + b)[1..] == a[1..] + b;
    }
  }

  lemma EscapeAppend(a: string, b: string)
    ensures Escape(a + b) == Escape(a) + Escape(b)
  {
    ReplaceAppend(a, b, '&', "&amp;");
    var a1, b1 := ReplaceAll(a, '&', "&amp;"), ReplaceAll(b, '&', "&amp;");
    ReplaceAppend(a1, b1, '<', "&lt;");
    ReplaceAppend(ReplaceAll(a1, '<', "&lt;"), ReplaceAll(b1, '<', "&lt;"), NBSP, " ");
  }

  function EscapeChar(c: char): string {
    if c == '&' then "&amp;" else if c == '<' then "&lt;" else if c == NBSP then " " else [c]
  }

  lemma ReplaceOne(c: char, d: char, sub: string)
    ensures ReplaceAll([c], d, sub) == if c == d then sub else [c]
  {
    assert [c][1..] == "";
  }

  lemma {:induction false} ReplaceAbsent(s: string, c: char, sub: string)
    requires c !in s
    ensures ReplaceAll(s, c, sub) == s
  {
    if s != "" { ReplaceAbsent(s[1..], c, sub); }
  }

  lemma EscapeOne(c: char)
    ensures Escape([c]) == EscapeChar(c)
  {
    ReplaceOne(c, '&', "&amp;");
    ReplaceOne(c, '<', "&lt;");
    ReplaceOne(c, NBSP, " ");
    ReplaceAbsent("&amp;", '<', "&lt;");
    ReplaceAbsent("&amp;", NBSP, " ");
    ReplaceAbsent("&lt;", NBSP, " ");
  }

  lemma EscapeCons(s: string)
    requires s != ""
    ensures Escape(s) == EscapeChar(s[0]) + Escape(s[1..])
  {
    assert s == [s[0]] + s[1..];
    EscapeAppend([s[0]], s[1..]);
    EscapeOne(s[0]);
  }

  /** Undoing the escapes gives the text back, up to no-break spaces. */
  lemma {:induction false} UnescapeEscape(s: string)
    ensures Unescape(Escape(s)) == SpaceForNbsp(s)
  {
    if s != "" {
      var rest := Escape(s[1..]);
      EscapeCons(s);
      UnescapeEscape(s[1..]);
      if s[0] == '&' {
        assert ("&amp;" + rest)[5..] == rest;
      } else if s[0] == '<' {
        assert ("&lt;" + rest)[1] == 'l' && ("&lt;" + rest)[4..] == rest;
      } else {
        var c := EscapeChar(s[0])[0];
        assert ([c] + rest)[0] == c && ([c] + rest)[1..] == rest;
      }
    }
  }

  lemma {:induction false} NoTagInEscape(s: string)
    ensures '<' !in Escape(s)
  {
    if s != "" {
      EscapeCons(s);
      NoTagInEscape(s[1..]);
    }
  }

  lemma {:induction false} StripAppend(a: string, b: string, inTag: bool)
    ensures StripTags(a + b, inTag) == StripTags(a, inTag) + StripTags(b, EndsInTag(a, inTag))
    ensures EndsInTag(a + b, inTag) == EndsInTag(b, EndsInTag(a, inTag))
  {
    if a == "" {
      assert a + b == b;
    } else {
      StripAppend(a[1..], b, if inTag then a[0] != '>' else a[0] == '<');
      assert (a + b)[1..] == a[1..] + b;
    }
  }

  lemma {:induction false} StripPlain(s: string)
    requires '<' !in s
    ensures StripTags(s, false) == s && !EndsInTag(s, false)
  {
    if s != "" { StripPlain(s[1..]); }
  }

  lemma {:induction false} StripInside(s: string)
    requires '>' !in s
    ensures StripTags(s, true) == "" && EndsInTag(s, true)
  {
    if s != "" { StripInside(s[1..]); }
  }

  /** A tag: '<', anything but '>', '>'. */
  lemma StripTag(body: string)
    requires '>' !in body
    ensures StripTags("<" + body + ">", false) == "" && !EndsInTag("<" + body + ">", false)
  {
    var s := "<" + body + ">";
    assert s[1..] == body + ">";
    StripAppend(body, ">", true);
    StripInside(body);
    assert ">"[1..] == "";
  }

  lemma {:induction false} JoinPlain(names: seq<string>)
    requires |names| > 0 && forall n :: n in names ==> PlainName(n)
    ensures PlainName(Strings.Join(names, ' '))
  {
    assert names[0] in names;
    if |names| > 1 {
      assert forall n :: n in names[1..] ==> n in names;
      JoinPlain(names[1..]);
    }
  }

  /** Wrapping HTML in a Token's span adds nothing but tags. */
  lemma StripSpan(kind: string, alias: seq<string>, inner: string)
    requires PlainName(kind) && forall a :: a in alias ==> PlainName(a)
    requires !EndsInTag(inner, false)
    ensures StripTags(OpenTag(kind, alias) + inner + CLOSE_TAG, false) == StripTags(inner, false)
    ensures !EndsInTag(OpenTag(kind, alias) + inner + CLOSE_TAG, false)
  {
    JoinPlain(["token", kind] + alias);
    StripTag(Opening(kind, alias));
    assert CLOSE_TAG == "<" + "/span" + ">";
    StripTag("/span");
    StripAppend(OpenTag(kind, alias), inner, false);
    StripAppend(OpenTag(kind, alias) + inner, CLOSE_TAG, false);
  }

  lemma StripEscaped(s: string)
    ensures StripTags(Escape(s), false) == Escape(s) && !EndsInTag(Escape(s), false)
  {
    NoTagInEscape(s);
    StripPlain(Escape(s));
  }

  lemma {:induction false} StripPiece(p: Piece)
    requires Named(p)
    ensures StripTags(Stringify(Encode(p)), false) == Escape(Source(p))
    ensures !EndsInTag(Stringify(Encode(p)), false)
    decreases p, 1
  {
    match p
    case Text(s) => StripEscaped(s);
    case Token(kind, Plain(s), alias, _) =>
      StripEscaped(s);
      StripSpan(kind, alias, Escape(s));
    case Token(kind, Nested(parts), alias, _) =>
      StripPieces(parts);
      StripSpan(kind, alias, StringifyAll(EncodeAll(parts)));
  }

  /** Without its tags, the HTML is the escaped source text. */
  lemma {:induction false} StripPieces(ps: seq<Piece>)
    requires AllNamed(ps)
    ensures StripTags(StringifyAll(EncodeAll(ps)), false) == Escape(SourceAll(ps))
    ensures !EndsInTag(StringifyAll(EncodeAll(ps)), false)
    decreases ps, 0
  {
    if ps != [] {
      StripPiece(ps[0]);
      StripPieces(ps[1..]);
      assert EncodeAll(ps)[1..] == EncodeAll(ps[1..]);
      StripAppend(Stringify(Encode(ps[0])), StringifyAll(EncodeAll(ps[1..])), false);
      EscapeAppend(Source(ps[0]), SourceAll(ps[1..]));
    }
  }

  lemma {:induction false} NamesFromPattern(p: Pattern, matched: string, tok: Piece, g: Grammar)
    requires LegalGrammar(g) && PlainNames(g) && p in g.patterns
    requires Usable(p) && Wraps(p, matched, tok)
    ensures Named(tok)
    decreases p
  {
    if p.inside.Some? { NamesFromGrammar(matched, p.inside.value, tok.content.parts); }
  }

  /** Names in a tokenization come from the grammar. */
  lemma {:induction false} NamesFromGrammar(text: string, g: Grammar, ps: seq<Piece>)
    requires LegalGrammar(g) && PlainNames(g) && AllJustified(text, g, ps)
    ensures AllNamed(ps)
    decreases g
  {
    forall i | 0 <= i < |ps| ensures Named(ps[i]) {
      if ps[i].Token? {
        assert Justified(text, g, ps[i], |SourceAll(ps[..i])|);
        var k: nat, start: nat, a: nat, b: nat :| MadeBy(text, g, ps[i], |SourceAll(ps[..i])|, k, start, a, b);
        NamesFromPattern(g.patterns[k], MatchPattern(g.patterns[k], start, text[a..b]).value.matched, ps[i], g);
      }
    }
  }

  /** Main result: highlighting keeps the text. Dropping the tags and undoing the
      escapes in the HTML gives the text back, with spaces for no-break spaces. */
  lemma HighlightKeepsText(text: string, g: Grammar)
    requires LegalGrammar(g) && PlainNames(g)
    ensures Unescape(StripTags(StringifyAll(EncodeAll(TokenizeSpec(text, g))), false)) == SpaceForNbsp(text)
  {
    TokensJustified(text, g);
    NamesFromGrammar(text, g, TokenizeSpec(text, g));
    StripPieces(TokenizeSpec(text, g));
    UnescapeEscape(text);
  }
}
