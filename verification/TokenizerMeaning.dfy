/** What it means for a token list to be right, without mentioning how it is computed:
    where its Tokens come from and what its strings can no longer hold. */
module TokenizerMeaning {
  import opened Wrappers
  import opened Pieces
  import opened Grammars

  /** `tok` stands for `matched` as the pattern says: its key and alias, the length of the
      match, and the match itself or a tokenization of it by the inner grammar. */
  ghost predicate Wraps(p: Pattern, matched: string, tok: Piece)
    requires p.inside.Some? ==> LegalGrammar(p.inside.value)
    decreases p, 0
  {
    && tok.Token? && tok.kind == p.key && tok.alias == p.alias && tok.length == |matched|
    && if p.inside.None? then tok.content == Plain(matched)
       else tok.content.Nested? && Tokenizes(matched, p.inside.value, tok.content.parts)
  }

  /** A tokenization of `text`: its pieces are the text, its Tokens are justified, and
      nothing is left for the last pattern. */
  ghost predicate Tokenizes(text: string, g: Grammar, ps: seq<Piece>)
    requires LegalGrammar(g)
    decreases g, 3
  {
    && Inv(text, ps) && AllJustified(text, g, ps)
    && (g.patterns != [] && Productive(g) ==> Spent(text, g.patterns[|g.patterns| - 1], ps, 0, None))
  }

  /** Pattern `k` matched exactly the token at `pos`: a greedy pattern in the whole
      text, any other in the string text[a..b] it was given. */
  ghost predicate MadeBy(text: string, g: Grammar, tok: Piece, pos: nat, k: nat, start: nat, a: nat, b: nat)
    requires LegalGrammar(g)
    decreases g, 0
  {
    && k < |g.patterns| && a <= b <= |text| && start <= b - a
    && (if g.patterns[k].greedy then a == 0 && b == |text| else start == 0)
    && var m := MatchPattern(g.patterns[k], start, text[a..b]);
    && m.Some? && a + m.value.index == pos && Wraps(g.patterns[k], m.value.matched, tok)
  }

  ghost predicate Justified(text: string, g: Grammar, tok: Piece, pos: nat)
    requires LegalGrammar(g)
    decreases g, 1
  {
    exists k: nat, start: nat, a: nat, b: nat :: MadeBy(text, g, tok, pos, k, start, a, b)
  }

  /** Every Token of the list was made by a pattern matching at its position. */
  ghost predicate AllJustified(text: string, g: Grammar, ps: seq<Piece>)
    requires LegalGrammar(g)
    decreases g, 2
  {
    forall i {:trigger ps[i]} :: 0 <= i < |ps| && ps[i].Token? ==> Justified(text, g, ps[i], |SourceAll(ps[..i])|)
  }

  /** No pattern of the grammar ever matches the empty string. */
  ghost predicate Productive(g: Grammar)
    requires LegalGrammar(g)
  {
    forall k, text, start {:trigger MatchPattern(g.patterns[k], start, text)} ::
      0 <= k < |g.patterns| && 0 <= start <= |text| && MatchPattern(g.patterns[k], start, text).Some?
      ==> MatchPattern(g.patterns[k], start, text).value.matched != ""
  }

  /** A pattern and the grammar inside it are in order. */
  ghost predicate Usable(p: Pattern) {
    Legal(p) && (p.inside.Some? ==> LegalGrammar(p.inside.value))
  }

  // What a pattern that is not greedy can no longer find.

  /** `tok` wraps the first match in a string that starts with `before`. */
  ghost predicate FirstMatch(p: Pattern, str: string, before: string, tok: Piece)
    requires Usable(p)
    decreases p, 1
  {
    var m := MatchPattern(p, 0, str);
    m.Some? && before == str[..m.value.index] && Wraps(p, m.value.matched, tok)
  }

  /** `before`, which stands at `pos`, ends where the first match begins in a stretch of
      the text from there to `b`, and `tok` wraps that match. */
  ghost predicate StopsAt(text: string, p: Pattern, pos: nat, before: string, tok: Piece)
    requires Usable(p)
    decreases p, 2
  {
    exists b :: pos + |before| + Length(tok) <= b <= |text| && FirstMatch(p, text[pos..b], before, tok)
  }

  /** String `j` has no match, or is the text in front of the match that follows it. */
  ghost predicate Exhausted(text: string, p: Pattern, ps: seq<Piece>, j: nat)
    requires Usable(p) && j < |ps| && ps[j].Text?
    decreases p, 3
  {
    || MatchPattern(p, 0, ps[j].s) == None
    || (j + 1 < |ps| && StopsAt(text, p, |SourceAll(ps[..j])|, ps[j].s, ps[j + 1]))
  }

  // What a greedy one can no longer find.

  /** The pattern was asked from `from` on and its match, if any, does not begin before `end`. */
  ghost predicate NoneBefore(text: string, p: Pattern, from: nat, end: nat)
    requires Legal(p)
  {
    from <= |text| && (MatchPattern(p, from, text).Some? ==> end <= MatchPattern(p, from, text).value.index)
  }

  ghost predicate SearchedFrom(text: string, p: Pattern, ps: seq<Piece>, j: nat, y: nat)
    requires Legal(p) && y <= j < |ps|
  {
    ps[y].Text? && NoneBefore(text, p, |SourceAll(ps[..y])|, |SourceAll(ps[..j])| + Length(ps[j]))
  }

  /** String `j` of the list was searched: from its own start, or from that of an
      earlier string from `t` on, the next match begins only behind it. */
  ghost predicate Searched(text: string, p: Pattern, ps: seq<Piece>, t: nat, j: nat)
    requires Legal(p) && j < |ps|
  {
    exists y :: t <= y <= j && SearchedFrom(text, p, ps, j, y)
  }

  // For both.

  /** Pattern `p`, run from piece `t`, is done with piece `j`. */
  ghost predicate DoneWith(text: string, p: Pattern, ps: seq<Piece>, t: nat, j: nat)
    requires Usable(p) && j < |ps|
    decreases p, 4
  {
    ps[j].Text? ==> if p.greedy then Searched(text, p, ps, t, j) else Exhausted(text, p, ps, j)
  }

  /** It is done with everything from there to piece `i`. */
  ghost predicate DoneUpTo(text: string, p: Pattern, ps: seq<Piece>, t: nat, i: nat)
    requires Usable(p)
    decreases p, 5
  {
    i <= |ps| && forall j :: t <= j < i ==> DoneWith(text, p, ps, t, j)
  }

  predicate Within(reach: Option<nat>, pos: nat) {
    reach.Some? ==> pos < reach.value
  }

  /** It is done with everything from there that starts within its reach. */
  ghost predicate Spent(text: string, p: Pattern, ps: seq<Piece>, t: nat, reach: Option<nat>)
    requires Usable(p)
    decreases p, 5
  {
    forall j :: t <= j < |ps| && Within(reach, |SourceAll(ps[..j])|) ==> DoneWith(text, p, ps, t, j)
  }
}
