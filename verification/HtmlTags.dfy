/** The tags of the highlighted HTML: one span per Token, properly nested. */
module HtmlTags {
  import opened Grammars
  import opened Html
  import opened Lists
  import opened Pieces
  import opened TokenizerProps
  import opened TokenizerSpec

  /** What stands between each '<' and the '>' that closes it, in order. */
  function Tags(s: string): seq<string>
    decreases |s|
  {
    if s == "" then []
    else if s[0] != '<' then Tags(s[1..])
    else
      var k := Strings.Index(s[1..], '>');
      if k == |s| - 1 then [] else [s[1..k + 1]] + Tags(s[k + 2..])
  }

  /** A span with the Token's classes around the tags of its content. */
  function SpanTags(p: Piece): seq<string>
    decreases p, 1
  {
    match p
    case Text(_) => []
    case Token(kind, Plain(_), alias, _) => [Opening(kind, alias)] + ["/span"]
    case Token(kind, Nested(parts), alias, _) => [Opening(kind, alias)] + SpanTagsAll(parts) + ["/span"]
  }

  function SpanTagsAll(ps: seq<Piece>): seq<string>
    decreases ps, 0
  {
    if ps == [] then [] else SpanTags(ps[0]) + SpanTagsAll(ps[1..])
  }

  /** A tag as a browser reads it: the classes of an opening span, or a closing one. */
  datatype Mark = Open(classes: seq<string>) | Close | Other

  const OPEN_SPAN := "span class=\""

  function MarkOf(tag: string): Mark {
    if tag == "/span" then Close
    else if OPEN_SPAN <= tag && |tag| > |OPEN_SPAN| && tag[|tag| - 1] == '\"' then
      Open(Strings.Split(tag[|OPEN_SPAN|..|tag| - 1], ' '))
    else Other
  }

  function Marks(tags: seq<string>): seq<Mark> {
    seq(|tags|, i requires 0 <= i < |tags| => MarkOf(tags[i]))
  }

  /** One span per Token, with the class "token", its type and its aliases. */
  function Spans(p: Piece): seq<Mark>
    decreases p, 1
  {
    match p
    case Text(_) => []
    case Token(kind, Plain(_), alias, _) => [Open(["token", kind] + alias)] + [Close]
    case Token(kind, Nested(parts), alias, _) => [Open(["token", kind] + alias)] + SpansAll(parts) + [Close]
  }

  function SpansAll(ps: seq<Piece>): seq<Mark>
    decreases ps, 0
  {
    if ps == [] then [] else Spans(ps[0]) + SpansAll(ps[1..])
  }

  lemma {:induction false} TagsPlain(s: string, t: string)
    requires '<' !in s
    ensures Tags(s + t) == Tags(t)
  {
    if s == "" {
      assert s + t == t;
    } else {
      assert s[0] in s;
      TagsPlain(s[1..], t);
      assert (s + t)[1..] == s[1..] + t;
    }
  }

  lemma TagsTag(body: string, t: string)
    requires '>' !in body
    ensures Tags("<" + body + ">" + t) == [body] + Tags(t)
  {
    var s := "<" + body + ">" + t;
    assert s[1..] == body + ['>'] + t;
    Strings.IndexOfAppend(body, '>', t);
    assert s[1..|body| + 1] == body && s[|body| + 2..] == t;
  }

  lemma OpeningIsPlain(kind: string, alias: seq<string>)
    requires PlainName(kind) && forall a :: a in alias ==> PlainName(a)
    ensures '>' !in Opening(kind, alias)
  {
    JoinPlain(["token", kind] + alias);
  }

  lemma Concat(a: string, b: string, c: string, d: string)
    ensures a + b + c + d == a + (b + (c + d))
  {}

  /** A span around `inner`, when what follows the opening is known. */
  lemma TagsSpan(kind: string, alias: seq<string>, inner: string, tags: seq<string>, t: string)
    requires PlainName(kind) && forall a :: a in alias ==> PlainName(a)
    requires Tags(inner + (CLOSE_TAG + t)) == tags + Tags(CLOSE_TAG + t)
    ensures Tags(OpenTag(kind, alias) + inner + CLOSE_TAG + t) == [Opening(kind, alias)] + tags + ["/span"] + Tags(t)
  {
    OpeningIsPlain(kind, alias);
    TagsTag(Opening(kind, alias), inner + (CLOSE_TAG + t));
    Concat(OpenTag(kind, alias), inner, CLOSE_TAG, t);
    TagsClosing(t);
    Bracket(Opening(kind, alias), tags, "/span", Tags(t));
  }

  lemma TagsClosing(t: string)
    ensures Tags(CLOSE_TAG + t) == ["/span"] + Tags(t)
  {
    TagsTag("/span", t);
    assert CLOSE_TAG == "<" + "/span" + ">";
  }

  lemma Bracket(a: string, tags: seq<string>, b: string, rest: seq<string>)
    ensures [a] + (tags + ([b] + rest)) == [a] + tags + [b] + rest
  {}

  lemma {:induction false} TagsPiece(p: Piece, t: string)
    requires Named(p)
    ensures Tags(Stringify(Encode(p)) + t) == SpanTags(p) + Tags(t)
    decreases p, 1
  {
    match p
    case Text(s) =>
      NoTagInEscape(s);
      TagsPlain(Escape(s), t);
    case Token(kind, Plain(s), alias, _) =>
      NoTagInEscape(s);
      TagsPlain(Escape(s), CLOSE_TAG + t);
      TagsSpan(kind, alias, Escape(s), [], t);
    case Token(kind, Nested(parts), alias, _) =>
      TagsPieces(parts, CLOSE_TAG + t);
      TagsSpan(kind, alias, StringifyAll(EncodeAll(parts)), SpanTagsAll(parts), t);
  }

  lemma {:induction false} TagsPieces(ps: seq<Piece>, t: string)
    requires AllNamed(ps)
    ensures Tags(StringifyAll(EncodeAll(ps)) + t) == SpanTagsAll(ps) + Tags(t)
    decreases ps, 0
  {
    if ps == [] {
      assert StringifyAll(EncodeAll(ps)) + t == t;
    } else {
      var rest := StringifyAll(EncodeAll(ps[1..]));
      TagsPiece(ps[0], rest + t);
      TagsPieces(ps[1..], t);
      FirstOfAll(ps);
      Regroup(Stringify(Encode(ps[0])), rest, t);
      Regroup(SpanTags(ps[0]), SpanTagsAll(ps[1..]), Tags(t));
    }
  }

  lemma FirstOfAll(ps: seq<Piece>)
    requires ps != []
    ensures StringifyAll(EncodeAll(ps)) == Stringify(Encode(ps[0])) + StringifyAll(EncodeAll(ps[1..]))
  {
    assert EncodeAll(ps)[1..] == EncodeAll(ps[1..]);
  }

  /** Main result: the tags of the HTML are one span for each Token, with the class
      "token", its type and its aliases, around exactly the spans of its content. */
  lemma HighlightTags(text: string, g: Grammar)
    requires LegalGrammar(g) && PlainNames(g)
    ensures var ps := TokenizeSpec(text, g); Tags(StringifyAll(EncodeAll(ps))) == SpanTagsAll(ps)
  {
    var ps := TokenizeSpec(text, g);
    TokensJustified(text, g);
    NamesFromGrammar(text, g, ps);
    TagsPieces(ps, "");
    assert StringifyAll(EncodeAll(ps)) + "" == StringifyAll(EncodeAll(ps));
  }

  // What a browser reads.

  /** No type or alias of the piece holds a space. */
  ghost predicate OneWord(p: Piece)
    decreases p, 1
  {
    match p
    case Text(_) => true
    case Token(kind, c, alias, _) =>
      && Strings.Without(["token", kind] + alias, ' ')
      && match c { case Plain(_) => true case Nested(parts) => AllOneWord(parts) }
  }

  ghost predicate AllOneWord(ps: seq<Piece>)
    decreases ps, 0
  {
    forall i :: 0 <= i < |ps| ==> OneWord(ps[i])
  }

  lemma OpeningReads(kind: string, alias: seq<string>)
    requires Strings.Without(["token", kind] + alias, ' ')
    ensures MarkOf(Opening(kind, alias)) == Open(["token", kind] + alias)
  {
    var names := ["token", kind] + alias;
    var joined := Strings.Join(names, ' ');
    Strings.SplitJoin(names, ' ');
    assert Opening(kind, alias) == OPEN_SPAN + joined + "\"";
    assert (OPEN_SPAN + joined + "\"")[|OPEN_SPAN|..|OPEN_SPAN| + |joined|] == joined;
  }

  lemma MarksAppend(a: seq<string>, b: seq<string>)
    ensures Marks(a + b) == Marks(a) + Marks(b)
  {}

  lemma {:induction false} PieceReads(p: Piece)
    requires OneWord(p)
    ensures Marks(SpanTags(p)) == Spans(p)
    decreases p, 1
  {
    match p
    case Text(_) =>
    case Token(kind, Plain(_), alias, _) =>
      SpanReads(kind, alias, []);
      assert [Opening(kind, alias)] + [] == [Opening(kind, alias)];
      assert [Open(["token", kind] + alias)] + [] == [Open(["token", kind] + alias)];
    case Token(kind, Nested(parts), alias, _) =>
      PiecesRead(parts);
      SpanReads(kind, alias, SpanTagsAll(parts));
  }

  lemma SpanReads(kind: string, alias: seq<string>, tags: seq<string>)
    requires Strings.Without(["token", kind] + alias, ' ')
    ensures Marks([Opening(kind, alias)] + tags + ["/span"]) == [Open(["token", kind] + alias)] + Marks(tags) + [Close]
  {
    OpeningReads(kind, alias);
    MarksAppend([Opening(kind, alias)] + tags, ["/span"]);
    MarksAppend([Opening(kind, alias)], tags);
  }

  lemma {:induction false} PiecesRead(ps: seq<Piece>)
    requires AllOneWord(ps)
    ensures Marks(SpanTagsAll(ps)) == SpansAll(ps)
    decreases ps, 0
  {
    if ps != [] {
      PieceReads(ps[0]);
      PiecesRead(ps[1..]);
      MarksAppend(SpanTags(ps[0]), SpanTagsAll(ps[1..]));
    }
  }

  /** Main result: a browser that splits class attributes at spaces reads, when no name
      holds one, one span per Token with exactly the classes "token", its type, and its
      aliases. */
  lemma HighlightClasses(text: string, g: Grammar)
    requires LegalGrammar(g) && PlainNames(g) && AllOneWord(TokenizeSpec(text, g))
    ensures var ps := TokenizeSpec(text, g); Marks(Tags(StringifyAll(EncodeAll(ps)))) == SpansAll(ps)
  {
    HighlightTags(text, g);
    PiecesRead(TokenizeSpec(text, g));
  }
}
