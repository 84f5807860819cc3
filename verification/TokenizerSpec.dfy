/** matchGrammar on values: what one run of the tokenizer does to a token list,
    without nodes and links. Tokenizer.dfy proves the linked-list code equal to it. */
module TokenizerSpec {
  import opened Wrappers
  import opened Pieces
  import opened Grammars

  /** The token list, the re-match reach, and whether the whole run bailed out. */
  datatype Outcome = Outcome(ps: seq<Piece>, reach: Option<nat>, bailed: bool)

  /** What one look at a text node decides: end this pattern, move on past piece
      `i`, or replace `n` pieces from `i` (which start at `pos` and cover `span`
      characters) around `matched`, found `at` characters into them. */
  datatype Look =
    | Stop
    | Pass(i: nat, pos: nat)
    | Hit(i: nat, pos: nat, n: nat, span: nat, at: nat, matched: string)

  /** The greedy skip loop: the piece that contains position `target`. */
  function SkipTo(ps: seq<Piece>, i: nat, pos: nat, target: nat): (r: (nat, nat))
    requires i < |ps| && At(ps, i, pos) && AllExact(ps)
    requires pos <= target < |SourceAll(ps)|
    ensures i <= r.0 < |ps| && At(ps, r.0, r.1)
    ensures pos <= r.1 <= target < r.1 + Length(ps[r.0])
    decreases |ps| - i
  {
    AtNext(ps, i, pos);
    if target >= pos + Length(ps[i]) then SkipTo(ps, i + 1, pos + Length(ps[i]), target) else (i, pos)
  }

  /** The covering loop: the first piece from `k` on that starts at or after `to`
      and is not a string, and its position. */
  function CoverEnd(ps: seq<Piece>, k: nat, p: nat, to: nat): (r: (nat, nat))
    requires At(ps, k, p) && AllExact(ps)
    requires to <= |SourceAll(ps)|
    ensures k <= r.0 <= |ps| && At(ps, r.0, r.1)
    ensures p <= r.1 && to <= r.1
    ensures r.0 < |ps| ==> ps[r.0].Token?
    ensures p < to && k < |ps| ==> k < r.0
    ensures k < |ps| && ps[k].Text? ==> k < r.0
    ensures p >= to && (k < |ps| ==> ps[k].Token?) ==> r == (k, p)
    decreases |ps| - k
  {
    if k == |ps| then
      assert ps[..k] == ps;
      (k, p)
    else if p < to || ps[k].Text? then
      AtNext(ps, k, p);
      CoverEnd(ps, k + 1, p + Length(ps[k]), to)
    else (k, p)
  }

  /** What a Hit promises about the list it was found in. */
  ghost predicate GoodHit(text: string, ps: seq<Piece>, h: Look)
    requires h.Hit?
  {
    && h.n >= 1 && h.i + h.n <= |ps|
    && At(ps, h.i, h.pos) && At(ps, h.i + h.n, h.pos + h.span)
    && h.pos + h.span <= |text|
    && ps[h.i].Text?
    && (h.i + h.n < |ps| ==> ps[h.i + h.n].Token?)
    && h.at + |h.matched| <= h.span
    && text[h.pos + h.at..h.pos + h.at + |h.matched|] == h.matched
    && h.at <= |ps[h.i].s|
    && (h.n > 1 ==> |h.matched| > 0)
  }

  /** A greedy pattern searches the whole text from `pos`. */
  function LookGreedy(p: Pattern, text: string, ps: seq<Piece>, i: nat, pos: nat): (r: Look)
    requires Legal(p) && Inv(text, ps) && text != ""
    requires i < |ps| && At(ps, i, pos) && pos <= |text|
    ensures r.Pass? ==> i <= r.i < |ps| && At(ps, r.i, r.pos) && pos <= r.pos && ps[r.i].Token?
    ensures r.Hit? ==> i <= r.i && pos <= r.pos && GoodHit(text, ps, r)
    ensures r.Hit? && ps[i].Token? ==> i < r.i
  {
    var found := MatchPattern(p, pos, text);
    if found == None || found.value.index >= |text| then Stop
    else GreedyFrom(text, ps, i, pos, found.value)
  }

  /** Skip to the piece that holds the start of the match; a Token there is passed
      over, a string there is replaced together with all the match reaches. */
  function GreedyFrom(text: string, ps: seq<Piece>, i: nat, pos: nat, m: Match): (r: Look)
    requires Inv(text, ps) && i < |ps| && At(ps, i, pos)
    requires pos <= m.index < |text| && m.index + |m.matched| <= |text|
    requires text[m.index..m.index + |m.matched|] == m.matched
    ensures r.Pass? ==> i <= r.i < |ps| && At(ps, r.i, r.pos) && pos <= r.pos && ps[r.i].Token?
    ensures r.Hit? ==> i <= r.i && pos <= r.pos && GoodHit(text, ps, r)
    ensures r.Hit? && ps[i].Token? ==> i < r.i
    ensures !r.Stop?
  {
    var (j, start) := SkipTo(ps, i, pos, m.index);
    if ps[j].Token? then Pass(j, start) else
      AtNext(ps, j, start);
      var (e, end) := CoverEnd(ps, j, start, m.index + |m.matched|);
      CoverUnfold(ps, j, start, m.index + |m.matched|);
      Covered(ps, j, start, e, end);
      Hit(j, start, e - j, end - start, m.index - start, m.matched)
  }

  /** A covering run from a string node takes more than that node only when the
      match does not fit in it. */
  lemma CoverUnfold(ps: seq<Piece>, j: nat, start: nat, to: nat)
    requires j < |ps| && At(ps, j, start) && AllExact(ps) && ps[j].Text?
    requires to <= |SourceAll(ps)| && NoAdjacentText(ps)
    ensures CoverEnd(ps, j, start, to).0 > j + 1 ==> start + Length(ps[j]) < to
  {
    AtNext(ps, j, start);
  }

  function LookInside(p: Pattern, text: string, ps: seq<Piece>, i: nat, pos: nat): (r: Look)
    requires Legal(p) && Inv(text, ps)
    requires i < |ps| && At(ps, i, pos) && ps[i].Text?
    ensures !r.Stop?
    ensures r.Pass? ==> r == Pass(i, pos)
    ensures r.Hit? ==> r.i == i && r.pos == pos && GoodHit(text, ps, r)
  {
    match MatchPattern(p, 0, ps[i].s)
    case None => Pass(i, pos)
    case Some(m) =>
      AtNext(ps, i, pos);
      TextAt(text, ps, i, pos, m.index, m.index + |m.matched|);
      Hit(i, pos, 1, |ps[i].s|, m.index, m.matched)
  }

  /** Inside a string node, the text can be read at its position in the source. */
  lemma TextAt(text: string, ps: seq<Piece>, i: nat, pos: nat, a: nat, b: nat)
    requires SourceAll(ps) == text && i < |ps| && At(ps, i, pos) && ps[i].Text? && a <= b <= |ps[i].s|
    ensures pos + |ps[i].s| <= |text| && text[pos..pos + |ps[i].s|] == ps[i].s
    ensures text[pos + a..pos + b] == ps[i].s[a..b]
  {
    var s := ps[i].s;
    AtNext(ps, i, pos);
    Covered(ps, i, pos, i + 1, pos + |s|);
    assert ps[i..i + 1] == [ps[i]];
    SourceOne(ps[i]);
    SliceOfSlice(text, pos, pos + |s|, a, b);
  }

  lemma SliceOfSlice<T>(s: seq<T>, i: nat, j: nat, a: nat, b: nat)
    requires i <= j <= |s| && a <= b <= j - i
    ensures s[i..j][a..b] == s[i + a..i + b]
  {
    forall k | 0 <= k < b - a ensures s[i..j][a..b][k] == s[i + a..i + b][k] {
      assert s[i..j][a + k] == s[i + a + k];
    }
  }

  /** A one-piece list, or none for the empty string: `before && addAfter(...)`. */
  function Maybe(s: string): seq<Piece> {
    if s == "" then [] else [Text(s)]
  }

  /** The covered text before the match, and the covered text after it. */
  function Before(text: string, h: Look): string
    requires h.Hit? && h.pos + h.at <= |text|
  {
    text[h.pos..h.pos + h.at]
  }

  function After(text: string, h: Look): string
    requires h.Hit? && h.at + |h.matched| <= h.span && h.pos + h.span <= |text|
  {
    text[h.pos + h.at + |h.matched|..h.pos + h.span]
  }

  /** The new pieces of a splice. */
  function Patch(before: string, tok: Piece, after: string): seq<Piece> {
    Maybe(before) + [tok] + Maybe(after)
  }

  /** The list after a hit: the covered pieces give way to the text before the
      match, the new Token and the text after it. */
  function Splice(text: string, ps: seq<Piece>, h: Look, tok: Piece): seq<Piece>
    requires h.Hit? && GoodHit(text, ps, h)
  {
    ps[..h.i] + Patch(Before(text, h), tok, After(text, h)) + ps[h.i + h.n..]
  }

  /** Where the new Token lands. */
  function TokenIndex(h: Look): nat
    requires h.Hit?
  {
    if h.at == 0 then h.i else h.i + 1
  }

  /** Piece lists that may stand next to each other in a token list. */
  ghost predicate Fits(a: seq<Piece>, b: seq<Piece>) {
    a == [] || b == [] || a[|a| - 1].Token? || b[0].Token?
  }

  ghost predicate Clean(ps: seq<Piece>) {
    AllExact(ps) && NoAdjacentText(ps) && NoEmptyText(ps)
  }

  lemma CleanJoin(a: seq<Piece>, b: seq<Piece>)
    requires Clean(a) && Clean(b) && Fits(a, b)
    ensures Clean(a + b)
  {}

  lemma CleanPatch(before: string, tok: Piece, after: string)
    requires tok.Token? && Exact(tok)
    ensures Clean(Patch(before, tok, after))
  {}

  lemma PatchSource(before: string, tok: Piece, after: string)
    ensures SourceAll(Patch(before, tok, after)) == before + Source(tok) + after
  {
    MaybeSource(before);
    MaybeSource(after);
    SourceOne(tok);
    SourceAppend(Maybe(before), [tok]);
    SourceAppend(Maybe(before) + [tok], Maybe(after));
  }

  lemma TwoParts<T>(s: seq<T>, a: nat, b: nat, c: nat)
    requires a <= b <= c <= |s|
    ensures s[a..b] + s[b..c] == s[a..c]
    ensures a == 0 ==> s[..b] + s[b..c] == s[..c] && s[..c] + s[c..] == s
  {}

  lemma FourParts<T>(s: seq<T>, a: nat, b: nat, c: nat, d: nat)
    requires a <= b <= c <= d <= |s|
    ensures s == s[..a] + (s[a..b] + s[b..c] + s[c..d]) + s[d..]
  {
    TwoParts(s, a, b, c);
    TwoParts(s, a, c, d);
    TwoParts(s, 0, a, d);
  }

  lemma CutText(text: string, h: Look)
    requires h.Hit? && h.at + |h.matched| <= h.span && h.pos + h.span <= |text|
    requires text[h.pos + h.at..h.pos + h.at + |h.matched|] == h.matched
    ensures text == text[..h.pos] + (Before(text, h) + h.matched + After(text, h)) + text[h.pos + h.span..]
    ensures text[..h.pos + h.at] == text[..h.pos] + Before(text, h)
  {
    FourParts(text, h.pos, h.pos + h.at, h.pos + h.at + |h.matched|, h.pos + h.span);
    TwoParts(text, 0, h.pos, h.pos + h.at);
  }

  /** The source on either side of a hit. */
  lemma HitSource(text: string, ps: seq<Piece>, h: Look)
    requires h.Hit? && SourceAll(ps) == text && GoodHit(text, ps, h)
    ensures SourceAll(ps[..h.i]) == text[..h.pos]
    ensures SourceAll(ps[h.i + h.n..]) == text[h.pos + h.span..]
  {
    SourceSplit(ps, h.i);
    SourceSplit(ps, h.i + h.n);
    Halves(text, SourceAll(ps[..h.i]), SourceAll(ps[h.i..]));
    Halves(text, SourceAll(ps[..h.i + h.n]), SourceAll(ps[h.i + h.n..]));
  }

  lemma Halves<T>(s: seq<T>, a: seq<T>, b: seq<T>)
    requires s == a + b
    ensures a == s[..|a|] && b == s[|a|..]
  {}

  lemma SpliceSource(text: string, ps: seq<Piece>, h: Look, tok: Piece)
    requires h.Hit? && SourceAll(ps) == text && GoodHit(text, ps, h) && Source(tok) == h.matched
    ensures SourceAll(Splice(text, ps, h, tok)) == text
  {
    var patch := Patch(Before(text, h), tok, After(text, h));
    HitSource(text, ps, h);
    PatchSource(Before(text, h), tok, After(text, h));
    SourceAppend(ps[..h.i], patch);
    SourceAppend(ps[..h.i] + patch, ps[h.i + h.n..]);
    CutText(text, h);
  }

  lemma SpliceAt(text: string, ps: seq<Piece>, h: Look, tok: Piece)
    requires h.Hit? && SourceAll(ps) == text && GoodHit(text, ps, h)
    ensures At(Splice(text, ps, h, tok), TokenIndex(h), h.pos + h.at)
    ensures Splice(text, ps, h, tok)[..h.i] == ps[..h.i]
    ensures Splice(text, ps, h, tok)[TokenIndex(h)] == tok
  {
    var before := Before(text, h);
    var front := ps[..h.i] + Maybe(before);
    MaybeSource(before);
    SourceAppend(ps[..h.i], Maybe(before));
    SpliceFront(text, ps, h, tok);
  }

  lemma MaybeSource(s: string)
    ensures SourceAll(Maybe(s)) == s
  {
    if s != "" { SourceOne(Text(s)); }
  }

  lemma SpliceFront(text: string, ps: seq<Piece>, h: Look, tok: Piece)
    requires h.Hit? && GoodHit(text, ps, h)
    ensures var r := Splice(text, ps, h, tok);
      && TokenIndex(h) < |r|
      && r[..h.i] == ps[..h.i]
      && r[..TokenIndex(h)] == ps[..h.i] + Maybe(Before(text, h))
      && r[TokenIndex(h)] == tok
  {
    var front := ps[..h.i] + Maybe(Before(text, h));
    var back := Maybe(After(text, h)) + ps[h.i + h.n..];
    assert Splice(text, ps, h, tok) == front + ([tok] + back);
  }

  lemma SpliceClean(text: string, ps: seq<Piece>, h: Look, tok: Piece)
    requires h.Hit? && Clean(ps) && GoodHit(text, ps, h)
    requires tok.Token? && Exact(tok)
    ensures Clean(Splice(text, ps, h, tok))
  {
    var patch := Patch(Before(text, h), tok, After(text, h));
    CleanPatch(Before(text, h), tok, After(text, h));
    assert Clean(ps[..h.i]);
    assert Clean(ps[h.i + h.n..]);
    CleanJoin(ps[..h.i], patch);
    CleanJoin(ps[..h.i] + patch, ps[h.i + h.n..]);
  }

  /** A splice keeps the invariant, moves nothing before the hit, leaves the new
      Token at the position of the match, and with an empty match at the front of
      one string grows the list. */
  lemma SpliceKeeps(text: string, ps: seq<Piece>, h: Look, tok: Piece)
    requires h.Hit? && Inv(text, ps) && text != "" && GoodHit(text, ps, h)
    requires tok.Token? && Exact(tok) && Source(tok) == h.matched
    ensures var ps' := Splice(text, ps, h, tok);
      && Inv(text, ps')
      && ps'[..h.i] == ps[..h.i]
      && TokenIndex(h) < |ps'| && ps'[TokenIndex(h)] == tok
      && At(ps', TokenIndex(h), h.pos + h.at)
      && (h.at + |h.matched| == 0 ==> |ps'| == |ps| + 1)
  {
    SpliceSource(text, ps, h, tok);
    SpliceAt(text, ps, h, tok);
    SpliceClean(text, ps, h, tok);
    AtNext(ps, h.i, h.pos);
    Covered(ps, h.i + 1, h.pos + Length(ps[h.i]), h.i + h.n, h.pos + h.span);
  }

  /** `r` starts with the pieces of `ps` before `i`, and with piece `i` too when
      that is a Token. */
  ghost predicate KeepsPrefix(ps: seq<Piece>, i: nat, r: seq<Piece>)
    requires i <= |ps|
  {
    && i <= |r| && r[..i] == ps[..i]
    && (i < |ps| && ps[i].Token? ==> i < |r| && r[i] == ps[i])
  }

  function Max(a: nat, b: nat): nat { if a > b then a else b }

  function Extend(reach: Option<nat>, to: nat): Option<nat> {
    match reach case None => None case Some(r) => Some(Max(r, to))
  }

  /** A reach stays or goes further. */
  predicate Grows(a: Option<nat>, b: Option<nat>) {
    a.Some? == b.Some? && (a.Some? ==> a.value <= b.value)
  }

  /** The content of a new Token: the matched string, or its own tokenization. */
  function ContentFor(p: Pattern, matched: string): (c: Content)
    requires p.inside.Some? ==> LegalGrammar(p.inside.value)
    ensures ContentSource(c) == matched
    ensures c.Nested? ==> AllExact(c.parts)
    decreases p, 0, 0, 0, 0, 0
  {
    match p.inside
    case None => Plain(matched)
    case Some(g) => Nested(TokenizeSpec(matched, g))
  }

  function NewToken(p: Pattern, matched: string): (tok: Piece)
    requires p.inside.Some? ==> LegalGrammar(p.inside.value)
    ensures tok.Token? && Exact(tok) && Source(tok) == matched
    decreases p, 1, 0, 0, 0, 0
  {
    Token(p.key, ContentFor(p, matched), p.alias, |matched|)
  }

  /** What the node loop decides at piece `i`. */
  function LookAt(p: Pattern, text: string, ps: seq<Piece>, i: nat, pos: nat): (r: Look)
    requires Legal(p) && Inv(text, ps) && text != ""
    requires i < |ps| && At(ps, i, pos)
    ensures r.Pass? ==> i <= r.i < |ps| && At(ps, r.i, r.pos) && pos <= r.pos
    ensures r.Pass? && ps[i].Token? ==> r.i == i
    ensures r.Hit? ==> i <= r.i && pos <= r.pos && GoodHit(text, ps, r) && ps[i].Text?
  {
    AtNext(ps, i, pos);
    if ps[i].Token? then Pass(i, pos)
    else if p.greedy then LookGreedy(p, text, ps, i, pos)
    else LookInside(p, text, ps, i, pos)
  }

  lemma PrefixShorter(ps: seq<Piece>, i: nat, j: nat, r: seq<Piece>)
    requires i <= j <= |ps| && j <= |r| && r[..j] == ps[..j]
    requires i < |ps| && ps[i].Token? ==> i < j
    ensures KeepsPrefix(ps, i, r)
  {
    assert r[..i] == r[..j][..i] && ps[..i] == ps[..j][..i];
    if i < j { assert r[i] == r[..j][i] && ps[i] == ps[..j][i]; }
  }

  /** Where the node loop stands: the list, the next piece and its position, and
      how far a re-match has to reach. */
  datatype Cursor = Cursor(ps: seq<Piece>, i: nat, pos: nat, reach: Option<nat>)

  /** One turn of the node loop: over, or on from a new cursor. */
  datatype Turn = Over(o: Outcome) | On(c: Cursor)

  ghost predicate GoodCursor(text: string, c: Cursor) {
    Inv(text, c.ps) && At(c.ps, c.i, c.pos)
  }

  /** A turn goes forward in the text, or grows the list, or goes forward in it. */
  ghost predicate Forward(c: Cursor, d: Cursor) {
    || c.pos < d.pos
    || (c.pos == d.pos && |c.ps| < |d.ps|)
    || (c.pos == d.pos && |c.ps| == |d.ps| && c.i < d.i)
  }

  ghost predicate Follows(text: string, c: Cursor, d: Cursor)
    requires c.i <= |c.ps|
  {
    && GoodCursor(text, d)
    && KeepsPrefix(c.ps, c.i, d.ps) && c.i < d.i
    && Grows(c.reach, d.reach)
    && Forward(c, d)
  }

  function AfterPass(text: string, c: Cursor, j: nat, start: nat): (d: Cursor)
    requires GoodCursor(text, c) && c.i <= j < |c.ps| && At(c.ps, j, start) && c.pos <= start
    ensures Follows(text, c, d)
  {
    AtNext(c.ps, j, start);
    Cursor(c.ps, j + 1, start + Length(c.ps[j]), c.reach)
  }

  function AfterHit(text: string, g: Grammar, k: nat, c: Cursor, h: Look): (d: Cursor)
    requires LegalGrammar(g) && k < |g.patterns| && text != ""
    requires GoodCursor(text, c) && c.i < |c.ps| && c.ps[c.i].Text?
    requires h.Hit? && GoodHit(text, c.ps, h) && c.i <= h.i && c.pos <= h.pos
    ensures Follows(text, c, d)
    decreases g, k, 1, 0, 0, 0
  {
    var o := SpliceAndRematch(text, g, k, c.ps, h, c.reach);
    PrefixShorter(c.ps, c.i, h.i, o.ps);
    Cursor(o.ps, TokenIndex(h) + 1, h.pos + h.at + |h.matched|, o.reach)
  }

  /** One turn of the node loop. */
  function Step(text: string, g: Grammar, k: nat, c: Cursor): (t: Turn)
    requires LegalGrammar(g) && k < |g.patterns|
    requires GoodCursor(text, c)
    ensures t.Over? ==> t.o.ps == c.ps && t.o.reach == c.reach
    ensures t.On? ==> Follows(text, c, t.c) && |c.ps| <= |text| && c.i < |c.ps|
    decreases g, k, 2, 0, 0, 0
  {
    if c.i == |c.ps| || (c.reach.Some? && c.pos >= c.reach.value) then Over(Outcome(c.ps, c.reach, false))
    else if |c.ps| > |text| then Over(Outcome(c.ps, c.reach, true))
    else
      var look := LookAt(g.patterns[k], text, c.ps, c.i, c.pos);
      match look
      case Stop => Over(Outcome(c.ps, c.reach, false))
      case Pass(j, start) => On(AfterPass(text, c, j, start))
      case Hit(_, _, _, _, _, _) => On(AfterHit(text, g, k, c, look))
  }

  /** What a turn that goes on did to the list. */
  lemma TurnList(text: string, g: Grammar, k: nat, c: Cursor)
    requires LegalGrammar(g) && k < |g.patterns| && GoodCursor(text, c) && Step(text, g, k, c).On?
    ensures text != "" && c.i < |c.ps|
    ensures var h := LookAt(g.patterns[k], text, c.ps, c.i, c.pos);
      if h.Hit? then c.ps[c.i].Text? && Step(text, g, k, c).c.ps == SpliceAndRematch(text, g, k, c.ps, h, c.reach).ps
      else Step(text, g, k, c).c.ps == c.ps
  {}

  /** One pattern over the list: the node loop. */
  function RunNodes(text: string, g: Grammar, k: nat, c: Cursor): (r: Outcome)
    requires LegalGrammar(g) && k < |g.patterns|
    requires GoodCursor(text, c)
    ensures Inv(text, r.ps) && KeepsPrefix(c.ps, c.i, r.ps)
    ensures Grows(c.reach, r.reach)
    decreases g, k, 3, |text| - c.pos, |text| + 2 - |c.ps|, |c.ps| - c.i
  {
    match Step(text, g, k, c)
    case Over(o) => o
    case On(d) =>
      InText(text, d);
      var r := RunNodes(text, g, k, d);
      PrefixTrans(c.ps, c.i, d.ps, d.i, r.ps);
      r
  }

  lemma InText(text: string, c: Cursor)
    requires GoodCursor(text, c)
    ensures c.pos <= |text|
  {
    SourceSplit(c.ps, c.i);
  }

  lemma PrefixTrans(a: seq<Piece>, i: nat, b: seq<Piece>, j: nat, r: seq<Piece>)
    requires i < j && i <= |a| && j <= |b|
    requires KeepsPrefix(a, i, b) && KeepsPrefix(b, j, r)
    ensures KeepsPrefix(a, i, r)
  {
    assert r[..i] == r[..j][..i] && b[..i] == b[..j][..i];
    assert r[i] == r[..j][i] && b[i] == b[..j][i];
  }

  /** The splice, and the nested re-match when several nodes were covered. */
  function SpliceAndRematch(text: string, g: Grammar, k: nat, ps: seq<Piece>, h: Look, reach: Option<nat>): (r: Outcome)
    requires LegalGrammar(g) && k < |g.patterns|
    requires Inv(text, ps) && text != "" && h.Hit? && GoodHit(text, ps, h)
    ensures Inv(text, r.ps) && h.i <= |r.ps| && r.ps[..h.i] == ps[..h.i]
    ensures TokenIndex(h) < |r.ps| && At(r.ps, TokenIndex(h) + 1, h.pos + h.at + |h.matched|)
    ensures Length(r.ps[TokenIndex(h)]) == |h.matched|
    ensures h.pos + h.at + |h.matched| <= |text|
    ensures h.at + |h.matched| == 0 ==> |r.ps| == |ps| + 1
    ensures Grows(Extend(reach, h.pos + h.span), r.reach)
    decreases g, k, 0, k + 2, 0, 0
  {
    var tok := NewToken(g.patterns[k], h.matched);
    SpliceKeeps(text, ps, h, tok);
    var ps' := Splice(text, ps, h, tok);
    var t, at := TokenIndex(h), h.pos + h.at;
    var r := Rematch(text, g, k, ps', t, at, h.n, h.pos + h.span, Extend(reach, h.pos + h.span));
    NextKept(ps', t, at, r.ps);
    PrefixPart(ps', t, h.i, r.ps);
    r
  }

  /** When a Token took the place of several pieces, run the earlier patterns again
      from that Token as far as `end`; its own reach may go further. */
  function Rematch(text: string, g: Grammar, k: nat, ps: seq<Piece>, t: nat, at: nat, n: nat, end: nat,
                   reach: Option<nat>): (r: Outcome)
    requires LegalGrammar(g) && k < |g.patterns|
    requires Inv(text, ps) && At(ps, t, at)
    ensures Inv(text, r.ps) && KeepsPrefix(ps, t, r.ps)
    ensures Grows(reach, r.reach)
    ensures n <= 1 ==> r.ps == ps
    decreases g, k, 0, k + 1, 0, 0
  {
    if n > 1 then
      var nested := RunPatterns(text, g, k, 0, ps, t, at, Some(end));
      Outcome(nested.ps, Extend(reach, nested.reach.value), false)
    else Outcome(ps, reach, false)
  }

  lemma RematchUnfold(text: string, g: Grammar, k: nat, ps: seq<Piece>, h: Look, reach: Option<nat>, ps': seq<Piece>)
    requires LegalGrammar(g) && k < |g.patterns|
    requires Inv(text, ps) && text != "" && h.Hit? && GoodHit(text, ps, h)
    requires ps' == Splice(text, ps, h, NewToken(g.patterns[k], h.matched))
    ensures Inv(text, ps') && At(ps', TokenIndex(h), h.pos + h.at)
    ensures SpliceAndRematch(text, g, k, ps, h, reach)
         == Rematch(text, g, k, ps', TokenIndex(h), h.pos + h.at, h.n, h.pos + h.span, Extend(reach, h.pos + h.span))
  {
    SpliceKeeps(text, ps, h, NewToken(g.patterns[k], h.matched));
  }

  lemma PrefixPart(ps: seq<Piece>, i: nat, j: nat, r: seq<Piece>)
    requires j <= i <= |ps| && KeepsPrefix(ps, i, r)
    ensures j <= |r| && r[..j] == ps[..j]
  {
    assert r[..j] == r[..i][..j] && ps[..j] == ps[..i][..j];
  }

  /** A list that keeps the Token at `i` keeps the position after it. */
  lemma NextKept(ps: seq<Piece>, i: nat, pos: nat, r: seq<Piece>)
    requires i < |ps| && At(ps, i, pos) && ps[i].Token? && Exact(ps[i]) && KeepsPrefix(ps, i, r)
    ensures i < |r| && r[i] == ps[i] && At(r, i + 1, pos + Length(ps[i]))
  {
    AtNext(ps, i, pos);
    assert r[..i + 1] == r[..i] + [r[i]] && ps[..i + 1] == ps[..i] + [ps[i]];
  }

  /** matchGrammar: patterns `k..limit` in turn, each from piece `i` at `pos`. */
  function RunPatterns(text: string, g: Grammar, limit: nat, k: nat, ps: seq<Piece>, i: nat, pos: nat,
                       reach: Option<nat>): (r: Outcome)
    requires LegalGrammar(g) && k <= limit <= |g.patterns|
    requires Inv(text, ps) && At(ps, i, pos)
    ensures Inv(text, r.ps) && KeepsPrefix(ps, i, r.ps)
    ensures Grows(reach, r.reach)
    decreases g, limit, 0, limit - k, 0, 0
  {
    if k == limit then Outcome(ps, reach, false)
    else
      var r := RunNodes(text, g, k, Cursor(ps, i, pos, reach));
      if r.bailed then r else RunPatterns(text, g, limit, k + 1, r.ps, i, pos, r.reach)
  }

  /** tokenize: the whole text in one node, then every pattern over it. */
  function TokenizeSpec(text: string, g: Grammar): (ps: seq<Piece>)
    requires LegalGrammar(g)
    ensures Inv(text, ps)
    decreases g, |g.patterns| + 1, 0, 0, 0, 0
  {
    SourceOne(Text(text));
    RunPatterns(text, g, |g.patterns|, 0, [Text(text)], 0, 0, None).ps
  }
}
