/** What tokenizing promises about its result, whatever the grammar and the
    regular-expression engine do. */
module TokenizerProps {
  import opened Wrappers
  import opened Pieces
  import opened Grammars
  import opened TokenizerGreedy
  import opened TokenizerMeaning
  import opened TokenizerSpec

  /** A list of non-empty pieces is no longer than its text. */
  lemma {:induction false} FewPieces(ps: seq<Piece>)
    requires forall i :: 0 <= i < |ps| ==> Source(ps[i]) != ""
    ensures |ps| <= |SourceAll(ps)|
  {
    if ps != [] { FewPieces(ps[1..]); }
  }

  lemma MadeIsNonEmpty(text: string, g: Grammar, tok: Piece, pos: nat)
    requires LegalGrammar(g) && Productive(g) && Exact(tok) && Justified(text, g, tok, pos)
    ensures Source(tok) != ""
  {
    var k: nat, start: nat, a: nat, b: nat :| MadeBy(text, g, tok, pos, k, start, a, b);
    var matched := MatchPattern(g.patterns[k], start, text[a..b]).value.matched;
    assert matched != "" && Wraps(g.patterns[k], matched, tok);
    assert tok.length == |matched| && tok.length == |Source(tok)|;
  }

  lemma NoBailOut(text: string, g: Grammar, ps: seq<Piece>)
    requires LegalGrammar(g) && Productive(g) && text != ""
    requires Inv(text, ps) && AllJustified(text, g, ps)
    ensures |ps| <= |text|
  {
    forall i | 0 <= i < |ps| ensures Source(ps[i]) != "" {
      if ps[i].Token? { MadeIsNonEmpty(text, g, ps[i], |SourceAll(ps[..i])|); }
    }
    FewPieces(ps);
  }

  /** A new Token wraps its match. */
  lemma {:induction false} NewTokenWraps(p: Pattern, matched: string)
    requires Usable(p)
    ensures Wraps(p, matched, NewToken(p, matched))
    decreases p, 1, 0, 0, 0, 0
  {
    if p.inside.Some? { TokenizeMeans(matched, p.inside.value); }
  }

  /** What a look hits is what a pattern matched. */
  lemma HitMadeBy(text: string, g: Grammar, k: nat, ps: seq<Piece>, i: nat, pos: nat)
    requires LegalGrammar(g) && k < |g.patterns| && Inv(text, ps) && text != ""
    requires i < |ps| && At(ps, i, pos)
    requires LookAt(g.patterns[k], text, ps, i, pos).Hit?
    ensures var h := LookAt(g.patterns[k], text, ps, i, pos);
      Justified(text, g, NewToken(g.patterns[k], h.matched), h.pos + h.at)
    decreases g, k, 0, 0, 0, 0
  {
    var p, h := g.patterns[k], LookAt(g.patterns[k], text, ps, i, pos);
    var tok := NewToken(p, h.matched);
    NewTokenWraps(p, h.matched);
    AtNext(ps, i, pos);
    if p.greedy {
      assert text[0..|text|] == text;
      assert MadeBy(text, g, tok, h.pos + h.at, k, pos, 0, |text|);
    } else {
      TextAt(text, ps, i, pos, 0, 0);
      assert MadeBy(text, g, tok, h.pos + h.at, k, 0, pos, pos + |ps[i].s|);
    }
  }

  /** A piece behind a splice keeps its position. */
  lemma SameSuffix(text: string, a: seq<Piece>, i: nat, b: seq<Piece>, j: nat)
    requires SourceAll(a) == text == SourceAll(b)
    requires i <= |a| && j <= |b| && a[i..] == b[j..]
    ensures |SourceAll(a[..i])| == |SourceAll(b[..j])|
  {
    SourceSplit(a, i);
    SourceSplit(b, j);
  }

  lemma SpliceJustified(text: string, g: Grammar, ps: seq<Piece>, h: Look, tok: Piece)
    requires LegalGrammar(g) && Inv(text, ps) && text != "" && AllJustified(text, g, ps)
    requires h.Hit? && GoodHit(text, ps, h)
    requires tok.Token? && Exact(tok) && Source(tok) == h.matched
    requires Justified(text, g, tok, h.pos + h.at)
    ensures AllJustified(text, g, Splice(text, ps, h, tok))
  {
    var r := Splice(text, ps, h, tok);
    var t := TokenIndex(h);
    SpliceKeeps(text, ps, h, tok);
    SpliceFront(text, ps, h, tok);
    forall i {:trigger r[i]} | 0 <= i < |r| && r[i].Token? ensures Justified(text, g, r[i], |SourceAll(r[..i])|) {
      if i < h.i {
        assert r[..i] == r[..h.i][..i] && ps[..i] == ps[..h.i][..i];
        assert r[i] == ps[i];
      } else if i == t {
      } else {
        var j := SuffixIndex(text, ps, h, tok, i);
        SameSuffix(text, ps, j, r, i);
      }
    }
  }

  /** Behind the new Token only the string after the match and old pieces follow. */
  lemma SuffixIndex(text: string, ps: seq<Piece>, h: Look, tok: Piece, i: nat) returns (j: nat)
    requires h.Hit? && GoodHit(text, ps, h)
    requires h.i <= i < |Splice(text, ps, h, tok)| && i != TokenIndex(h) && Splice(text, ps, h, tok)[i].Token?
    ensures j < |ps| && ps[j] == Splice(text, ps, h, tok)[i] && ps[j..] == Splice(text, ps, h, tok)[i..]
  {
    var r := Splice(text, ps, h, tok);
    var patch := Patch(Before(text, h), tok, After(text, h));
    j := i - (h.i + |patch|) + (h.i + h.n);
    assert r == ps[..h.i] + patch + ps[h.i + h.n..];
    assert r[h.i + |patch|..] == ps[h.i + h.n..];
    assert r[i..] == r[h.i + |patch|..][i - h.i - |patch|..];
  }

  lemma StepJustified(text: string, g: Grammar, k: nat, c: Cursor)
    requires LegalGrammar(g) && k < |g.patterns| && GoodCursor(text, c) && AllJustified(text, g, c.ps)
    ensures Step(text, g, k, c).On? ==> AllJustified(text, g, Step(text, g, k, c).c.ps)
    ensures Step(text, g, k, c).Over? && Productive(g) && text != "" ==> !Step(text, g, k, c).o.bailed
    decreases g, k, 2, 0, 0, 0
  {
    var t := Step(text, g, k, c);
    if Productive(g) && text != "" { NoBailOut(text, g, c.ps); }
    if t.On? { TurnJustified(text, g, k, c); }
  }

  lemma TurnJustified(text: string, g: Grammar, k: nat, c: Cursor)
    requires LegalGrammar(g) && k < |g.patterns| && GoodCursor(text, c) && AllJustified(text, g, c.ps)
    requires Step(text, g, k, c).On?
    ensures AllJustified(text, g, Step(text, g, k, c).c.ps)
    decreases g, k, 1, 0, 0, 0
  {
    TurnList(text, g, k, c);
    if LookAt(g.patterns[k], text, c.ps, c.i, c.pos).Hit? { HitJustified(text, g, k, c.ps, c.i, c.pos, c.reach); }
  }

  lemma HitJustified(text: string, g: Grammar, k: nat, ps: seq<Piece>, i: nat, pos: nat, reach: Option<nat>)
    requires LegalGrammar(g) && k < |g.patterns| && Inv(text, ps) && text != "" && AllJustified(text, g, ps)
    requires i < |ps| && At(ps, i, pos) && LookAt(g.patterns[k], text, ps, i, pos).Hit?
    ensures AllJustified(text, g, SpliceAndRematch(text, g, k, ps, LookAt(g.patterns[k], text, ps, i, pos), reach).ps)
    decreases g, k, 0, k + 2, 0, 0
  {
    HitMadeBy(text, g, k, ps, i, pos);
    RematchJustified(text, g, k, ps, LookAt(g.patterns[k], text, ps, i, pos), reach);
  }

  lemma RematchJustified(text: string, g: Grammar, k: nat, ps: seq<Piece>, h: Look, reach: Option<nat>)
    requires LegalGrammar(g) && k < |g.patterns| && Inv(text, ps) && text != "" && AllJustified(text, g, ps)
    requires h.Hit? && GoodHit(text, ps, h) && Justified(text, g, NewToken(g.patterns[k], h.matched), h.pos + h.at)
    ensures AllJustified(text, g, SpliceAndRematch(text, g, k, ps, h, reach).ps)
    decreases g, k, 0, k + 1, 0, 0
  {
    var tok := NewToken(g.patterns[k], h.matched);
    var ps' := Splice(text, ps, h, tok);
    RematchUnfold(text, g, k, ps, h, reach, ps');
    SpliceJustified(text, g, ps, h, tok);
    if h.n > 1 {
      PatternsJustified(text, g, k, 0, ps', TokenIndex(h), h.pos + h.at, Some(h.pos + h.span));
    }
  }

  lemma NodesJustified(text: string, g: Grammar, k: nat, c: Cursor)
    requires LegalGrammar(g) && k < |g.patterns| && GoodCursor(text, c) && AllJustified(text, g, c.ps)
    ensures AllJustified(text, g, RunNodes(text, g, k, c).ps)
    ensures Productive(g) && text != "" ==> !RunNodes(text, g, k, c).bailed
    decreases g, k, 3, |text| - c.pos, |text| + 2 - |c.ps|, |c.ps| - c.i
  {
    StepJustified(text, g, k, c);
    var t := Step(text, g, k, c);
    if t.On? {
      InText(text, t.c);
      InText(text, c);
      NodesJustified(text, g, k, t.c);
    }
  }

  lemma PatternsJustified(text: string, g: Grammar, limit: nat, k: nat, ps: seq<Piece>, i: nat, pos: nat,
                          reach: Option<nat>)
    requires LegalGrammar(g) && k <= limit <= |g.patterns|
    requires Inv(text, ps) && At(ps, i, pos) && AllJustified(text, g, ps)
    ensures AllJustified(text, g, RunPatterns(text, g, limit, k, ps, i, pos, reach).ps)
    ensures Productive(g) && text != "" ==> !RunPatterns(text, g, limit, k, ps, i, pos, reach).bailed
    decreases g, limit, 0, limit - k, 0, 0
  {
    if k < limit {
      NodesJustified(text, g, k, Cursor(ps, i, pos, reach));
      var r := RunNodes(text, g, k, Cursor(ps, i, pos, reach));
      if !r.bailed { PatternsJustified(text, g, limit, k + 1, r.ps, i, pos, r.reach); }
    }
  }

  /** Main result: tokens are where, what and only what the patterns matched, with the
      key and alias of the pattern, and nested content tokenizes the matched string. */
  lemma TokensJustified(text: string, g: Grammar)
    requires LegalGrammar(g)
    ensures AllJustified(text, g, TokenizeSpec(text, g))
    decreases g, |g.patterns| + 1, 0, 0, 0, 0
  {
    SourceOne(Text(text));
    PatternsJustified(text, g, |g.patterns|, 0, [Text(text)], 0, 0, None);
  }

  /** Main result: the `length > text.length` bail-out never fires when matches
      are not empty, and it fires on the empty text as soon as there is a pattern. */
  lemma BailOutOnlyWhenEmpty(text: string, g: Grammar)
    requires LegalGrammar(g) && Productive(g)
    ensures RunPatterns(text, g, |g.patterns|, 0, [Text(text)], 0, 0, None).bailed <==> text == "" && g.patterns != []
    decreases g, |g.patterns| + 1, 0, 0, 0, 0
  {
    SourceOne(Text(text));
    PatternsJustified(text, g, |g.patterns|, 0, [Text(text)], 0, 0, None);
    if text == "" && g.patterns != [] {
      assert Step(text, g, 0, Cursor([Text(text)], 0, 0, None)).o.bailed;
    }
  }

  // What a pass leaves over.

  /** What is in front of a string stays exhausted when that string changes. */
  lemma StillExhausted(text: string, p: Pattern, ps: seq<Piece>, r: seq<Piece>, t: nat, i: nat, j: nat)
    requires Usable(p) && !p.greedy
    requires j < i < |ps| && i < |r| && r[..i] == ps[..i] && ps[i].Text? && NoAdjacentText(ps)
    requires DoneWith(text, p, ps, t, j)
    ensures DoneWith(text, p, r, t, j)
  {
    SameBefore(ps, r, i, j);
    if j + 1 < i { SameBefore(ps, r, i, j + 1); }
  }

  lemma HitStops(text: string, g: Grammar, k: nat, c: Cursor, h: Look)
    requires LegalGrammar(g) && k < |g.patterns| && !g.patterns[k].greedy
    requires GoodCursor(text, c) && text != "" && c.i < |c.ps|
    requires h.Hit? && h == LookAt(g.patterns[k], text, c.ps, c.i, c.pos)
    ensures StopsAt(text, g.patterns[k], h.pos, Before(text, h), NewToken(g.patterns[k], h.matched))
    decreases g, k, 0, 0, 0, 0
  {
    var b := h.pos + h.span;
    NewTokenWraps(g.patterns[k], h.matched);
    TextAt(text, c.ps, h.i, h.pos, 0, h.at);
    assert text[h.pos..b] == c.ps[h.i].s;
    assert FirstMatch(g.patterns[k], text[h.pos..b], Before(text, h), NewToken(g.patterns[k], h.matched));
  }

  /** A hit of a pattern that is not greedy leaves everything in front of its Token done with. */
  lemma HitStopsDone(text: string, g: Grammar, k: nat, c: Cursor, t: nat)
    requires LegalGrammar(g) && k < |g.patterns| && !g.patterns[k].greedy
    requires GoodCursor(text, c) && t <= c.i && DoneUpTo(text, g.patterns[k], c.ps, t, c.i) && text != ""
    requires c.i < |c.ps| && LookAt(g.patterns[k], text, c.ps, c.i, c.pos).Hit?
    ensures var d := AfterHit(text, g, k, c, LookAt(g.patterns[k], text, c.ps, c.i, c.pos));
      DoneUpTo(text, g.patterns[k], d.ps, t, d.i)
    decreases g, k, 1, 0, 0, 0
  {
    var p := g.patterns[k];
    var h := LookAt(p, text, c.ps, c.i, c.pos);
    var tok := NewToken(p, h.matched);
    var r := Splice(text, c.ps, h, tok);
    RematchUnfold(text, g, k, c.ps, h, c.reach, r);
    SpliceFront(text, c.ps, h, tok);
    HitStops(text, g, k, c, h);
    FrontOfSplice(text, c.ps, r, h, tok);
    FrontDone(text, p, c.ps, r, h, tok, t);
  }

  lemma FrontDone(text: string, p: Pattern, ps: seq<Piece>, r: seq<Piece>, h: Look, tok: Piece, t: nat)
    requires Usable(p) && !p.greedy && h.Hit? && GoodHit(text, ps, h) && NoAdjacentText(ps) && t <= h.i
    requires DoneUpTo(text, p, ps, t, h.i)
    requires TokenIndex(h) < |r| && r[..h.i] == ps[..h.i] && r[TokenIndex(h)] == tok && tok.Token?
    requires h.at > 0 ==> r[h.i] == Text(Before(text, h)) && StopsAt(text, p, h.pos, Before(text, h), tok)
    ensures DoneUpTo(text, p, r, t, TokenIndex(h) + 1)
  {
    forall j | t <= j < TokenIndex(h) + 1 ensures DoneWith(text, p, r, t, j) {
      if j < h.i { StillExhausted(text, p, ps, r, t, h.i, j); }
    }
  }

  lemma EndIsSpent(text: string, p: Pattern, c: Cursor, t: nat)
    requires Usable(p) && GoodCursor(text, c) && DoneUpTo(text, p, c.ps, t, c.i)
    requires c.i == |c.ps| || !Within(c.reach, c.pos)
    ensures Spent(text, p, c.ps, t, c.reach)
  {
    forall j | t <= j < |c.ps| && Within(c.reach, |SourceAll(c.ps[..j])|)
      ensures DoneWith(text, p, c.ps, t, j)
    {
      if j >= c.i { Onwards(c.ps, c.i, j); }
    }
  }

  /** One turn that does not bail out leaves everything behind it done with. */
  lemma TurnIsDone(text: string, g: Grammar, k: nat, c: Cursor, t: nat)
    requires LegalGrammar(g) && k < |g.patterns| && GoodCursor(text, c) && t <= c.i
    requires DoneUpTo(text, g.patterns[k], c.ps, t, c.i)
    ensures var turn := Step(text, g, k, c);
      && (turn.Over? && !turn.o.bailed ==> Spent(text, g.patterns[k], turn.o.ps, t, turn.o.reach))
      && (turn.On? ==> DoneUpTo(text, g.patterns[k], turn.c.ps, t, turn.c.i))
    decreases g, k, 2, 0, 0, 0
  {
    var p := g.patterns[k];
    if c.i == |c.ps| || !Within(c.reach, c.pos) {
      EndIsSpent(text, p, c, t);
    } else if |c.ps| <= |text| {
      LookIsDone(text, g, k, c, t);
    }
  }

  lemma LookIsDone(text: string, g: Grammar, k: nat, c: Cursor, t: nat)
    requires LegalGrammar(g) && k < |g.patterns| && GoodCursor(text, c) && t <= c.i < |c.ps| <= |text|
    requires DoneUpTo(text, g.patterns[k], c.ps, t, c.i)
    ensures var p := g.patterns[k]; var look := LookAt(p, text, c.ps, c.i, c.pos);
      && (look.Stop? ==> DoneUpTo(text, p, c.ps, t, |c.ps|))
      && (look.Pass? ==> DoneUpTo(text, p, c.ps, t, look.i + 1))
      && (look.Hit? ==> DoneUpTo(text, p, AfterHit(text, g, k, c, look).ps, t, AfterHit(text, g, k, c, look).i))
    decreases g, k, 1, 1, 0, 0
  {
    var p := g.patterns[k];
    var look := LookAt(p, text, c.ps, c.i, c.pos);
    match look
    case Stop => StopIsDone(text, p, c, t);
    case Pass(j, start) => if p.greedy { PassIsDone(text, p, c, j, start, t); }
    case Hit(_, _, _, _, _, _) =>
      if p.greedy { HitIsDone(text, g, k, c, look, t); } else { HitStopsDone(text, g, k, c, t); }
  }

  lemma NodesDone(text: string, g: Grammar, k: nat, c: Cursor, t: nat)
    requires LegalGrammar(g) && k < |g.patterns| && GoodCursor(text, c) && t <= c.i
    requires DoneUpTo(text, g.patterns[k], c.ps, t, c.i)
    ensures var r := RunNodes(text, g, k, c); !r.bailed ==> Spent(text, g.patterns[k], r.ps, t, r.reach)
    decreases g, k, 3, |text| - c.pos, |text| + 2 - |c.ps|, |c.ps| - c.i
  {
    TurnIsDone(text, g, k, c, t);
    var turn := Step(text, g, k, c);
    if turn.On? {
      InText(text, c);
      InText(text, turn.c);
      NodesDone(text, g, k, turn.c, t);
    }
  }

  /** Main result: a pass misses nothing, from whatever piece it starts and however far
      it is to reach. When it ends, each string from there on that starts within its
      final reach is done with: for a greedy pattern, searched; for any other, without
      a match or ending where a match begins. */
  lemma PassIsComplete(text: string, g: Grammar, k: nat, ps: seq<Piece>, t: nat, pos: nat, reach: Option<nat>)
    requires LegalGrammar(g) && k < |g.patterns| && Inv(text, ps) && At(ps, t, pos)
    ensures var r := RunNodes(text, g, k, Cursor(ps, t, pos, reach));
      && KeepsPrefix(ps, t, r.ps) && Grows(reach, r.reach)
      && (!r.bailed ==> Spent(text, g.patterns[k], r.ps, t, r.reach))
    decreases g, k, 4, 0, 0, 0
  {
    NodesDone(text, g, k, Cursor(ps, t, pos, reach), t);
  }

  // Passes in turn.

  /** `b` is what the pass of pattern `k` from piece `t` makes of `a`. */
  ghost predicate PassOf(text: string, g: Grammar, k: nat, t: nat, pos: nat, a: Outcome, b: Outcome)
    requires LegalGrammar(g)
  {
    && k < |g.patterns| && Inv(text, a.ps) && At(a.ps, t, pos) && !a.bailed
    && b == RunNodes(text, g, k, Cursor(a.ps, t, pos, a.reach))
  }

  /** One pass of each pattern in turn, from `first` on. */
  ghost predicate InTurn(text: string, g: Grammar, first: nat, t: nat, pos: nat, os: seq<Outcome>)
    requires LegalGrammar(g)
  {
    forall k :: 0 < k < |os| ==> PassOf(text, g, first + k - 1, t, pos, os[k - 1], os[k])
  }

  lemma OneMore(text: string, g: Grammar, k: nat, t: nat, pos: nat, o: Outcome, rest: seq<Outcome>)
    requires LegalGrammar(g) && rest != []
    requires InTurn(text, g, k + 1, t, pos, rest) && PassOf(text, g, k, t, pos, o, rest[0])
    ensures InTurn(text, g, k, t, pos, [o] + rest)
  {
    var os := [o] + rest;
    forall j | 0 < j < |os| ensures PassOf(text, g, k + j - 1, t, pos, os[j - 1], os[j]) {
      assert os[j] == rest[j - 1];
      if j > 1 { assert PassOf(text, g, k + 1 + (j - 1) - 1, t, pos, rest[j - 2], rest[j - 1]); }
    }
  }

  /** Running patterns `k..limit` is one pass of each in turn, up to the first that bails out. */
  lemma {:induction false} PatternsInTurn(text: string, g: Grammar, limit: nat, k: nat, ps: seq<Piece>, t: nat,
                                          pos: nat, reach: Option<nat>)
    returns (os: seq<Outcome>)
    requires LegalGrammar(g) && k <= limit <= |g.patterns| && Inv(text, ps) && At(ps, t, pos)
    ensures 0 < |os| <= limit - k + 1 && os[0] == Outcome(ps, reach, false) && InTurn(text, g, k, t, pos, os)
    ensures os[|os| - 1] == RunPatterns(text, g, limit, k, ps, t, pos, reach)
    ensures !os[|os| - 1].bailed ==> |os| == limit - k + 1
    decreases limit - k
  {
    os := [Outcome(ps, reach, false)];
    if k < limit {
      var r := RunNodes(text, g, k, Cursor(ps, t, pos, reach));
      if r.bailed {
        os := os + [r];
      } else {
        var rest := PatternsInTurn(text, g, limit, k + 1, r.ps, t, pos, r.reach);
        OneMore(text, g, k, t, pos, os[0], rest);
        os := os + rest;
      }
    }
  }

  /** Main result: a hit that covered several pieces is followed by one pass of each
      earlier pattern in turn, from the new Token on and at least to the end of what
      was covered; its own reach is handed out. Unless those bailed out, every string
      behind the Token that starts within that reach is done with for the last of them;
      if they did, the outer pass goes on. */
  lemma EarlierPatternsRunAgain(text: string, g: Grammar, k: nat, ps: seq<Piece>, h: Look, reach: Option<nat>)
    returns (os: seq<Outcome>)
    requires LegalGrammar(g) && k < |g.patterns| && Inv(text, ps) && text != ""
    requires h.Hit? && GoodHit(text, ps, h) && h.n > 1
    ensures 0 < |os| && InTurn(text, g, 0, TokenIndex(h), h.pos + h.at, os)
    ensures os[0] == Outcome(Splice(text, ps, h, NewToken(g.patterns[k], h.matched)), Some(h.pos + h.span), false)
    ensures var last := os[|os| - 1]; var r := SpliceAndRematch(text, g, k, ps, h, reach);
      && !r.bailed && r.ps == last.ps && Grows(Some(h.pos + h.span), last.reach)
      && r.reach == (if reach.Some? then Some(Max(reach.value, last.reach.value)) else None)
      && (!last.bailed ==> |os| == k + 1)
      && (!last.bailed && k > 0 ==> Spent(text, g.patterns[k - 1], r.ps, TokenIndex(h), last.reach))
  {
    var ps' := Splice(text, ps, h, NewToken(g.patterns[k], h.matched));
    RematchUnfold(text, g, k, ps, h, reach, ps');
    os := PatternsInTurn(text, g, k, 0, ps', TokenIndex(h), h.pos + h.at, Some(h.pos + h.span));
    if !os[|os| - 1].bailed && k > 0 { LastOfTurn(text, g, k, TokenIndex(h), h.pos + h.at, os); }
  }

  lemma LastOfTurn(text: string, g: Grammar, limit: nat, t: nat, pos: nat, os: seq<Outcome>)
    requires LegalGrammar(g) && 0 < limit <= |g.patterns| && |os| == limit + 1 && InTurn(text, g, 0, t, pos, os)
    requires !os[limit].bailed
    ensures Spent(text, g.patterns[limit - 1], os[limit].ps, t, os[limit].reach)
    decreases g, |g.patterns| + 1, 0, 0, 0, 0
  {
    assert PassOf(text, g, limit - 1, t, pos, os[limit - 1], os[limit]);
    PassIsComplete(text, g, limit - 1, os[limit - 1].ps, t, pos, os[limit - 1].reach);
  }

  // The result.

  /** Main result: nothing of the last pattern is left over in the result. */
  lemma NothingLeftOver(text: string, g: Grammar)
    requires LegalGrammar(g) && Productive(g) && g.patterns != []
    ensures Spent(text, g.patterns[|g.patterns| - 1], TokenizeSpec(text, g), 0, None)
    decreases g, |g.patterns| + 2, 0, 0, 0, 0
  {
    SourceOne(Text(text));
    BailOutOnlyWhenEmpty(text, g);
    if text != "" {
      var os := PatternsInTurn(text, g, |g.patterns|, 0, [Text(text)], 0, 0, None);
      LastOfTurn(text, g, |g.patterns|, 0, 0, os);
    } else {
      EmptyStays(g);
      NothingInEmpty(g.patterns[|g.patterns| - 1], g);
    }
  }

  lemma NothingInEmpty(p: Pattern, g: Grammar)
    requires LegalGrammar(g) && Productive(g) && p in g.patterns
    ensures Spent("", p, [Text("")], 0, None)
  {
    var k :| 0 <= k < |g.patterns| && g.patterns[k] == p;
    assert MatchPattern(g.patterns[k], 0, "") == None;
    assert SearchedFrom("", p, [Text("")], 0, 0);
  }

  /** Main result: tokenizing yields a tokenization. */
  lemma TokenizeMeans(text: string, g: Grammar)
    requires LegalGrammar(g)
    ensures Tokenizes(text, g, TokenizeSpec(text, g))
    decreases g, |g.patterns| + 3, 0, 0, 0, 0
  {
    TokensJustified(text, g);
    if g.patterns != [] && Productive(g) { NothingLeftOver(text, g); }
  }

  /** Each piece of the result stands for the text at its own position. */
  lemma PieceCovers(text: string, g: Grammar, i: nat)
    requires LegalGrammar(g) && i < |TokenizeSpec(text, g)|
    ensures var ps := TokenizeSpec(text, g); var pos := |SourceAll(ps[..i])|;
      pos + Length(ps[i]) <= |text| && text[pos..pos + Length(ps[i])] == Source(ps[i])
  {
    var ps := TokenizeSpec(text, g);
    var pos := |SourceAll(ps[..i])|;
    AtNext(ps, i, pos);
    Covered(ps, i, pos, i + 1, pos + Length(ps[i]));
    assert ps[i..i + 1] == [ps[i]];
    SourceOne(ps[i]);
  }

  /** The empty text stays one empty string: the length guard fires at once. */
  lemma EmptyStays(g: Grammar)
    requires LegalGrammar(g)
    ensures TokenizeSpec("", g) == [Text("")]
  {
    var c := Cursor([Text("")], 0, 0, None);
    SourceOne(Text(""));
    if g.patterns != [] {
      assert Step("", g, 0, c) == Over(Outcome(c.ps, None, true));
      assert RunNodes("", g, 0, c) == Outcome(c.ps, None, true);
    }
  }
}
