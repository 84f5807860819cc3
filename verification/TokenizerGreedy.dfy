/** What a greedy pattern leaves over: the strings its search was seen to jump across.
    With an engine that finds leftmost matches those are free of matches, but for
    strings hidden in a lookbehind group. */
module TokenizerGreedy {
  import opened Wrappers
  import opened Pieces
  import opened Grammars
  import opened TokenizerMeaning
  import opened TokenizerSpec

  lemma Onwards(ps: seq<Piece>, i: nat, j: nat)
    requires i <= j <= |ps|
    ensures |SourceAll(ps[..i])| <= |SourceAll(ps[..j])|
  {
    SourceSplit(ps[..j], i);
    assert ps[..j][..i] == ps[..i];
  }

  /** The skip walk from string `i` passes only what the match it heads for does not begin in. */
  lemma WalkIsDone(text: string, p: Pattern, ps: seq<Piece>, t: nat, i: nat, pos: nat, j: nat, start: nat)
    requires Usable(p) && p.greedy && Inv(text, ps) && At(ps, i, pos) && At(ps, j, start) && t <= i <= j
    requires i < |ps| && ps[i].Text? && NoneBefore(text, p, pos, start) && DoneUpTo(text, p, ps, t, i)
    ensures DoneUpTo(text, p, ps, t, j)
  {
    forall x | t <= x < j ensures DoneWith(text, p, ps, t, x) {
      if x >= i {
        AtNext(ps, x, |SourceAll(ps[..x])|);
        Onwards(ps, x + 1, j);
        assert SearchedFrom(text, p, ps, x, i);
      }
    }
  }

  lemma SamePlace(text: string, p: Pattern, a: seq<Piece>, b: seq<Piece>, t: nat, i: nat)
    requires Usable(p) && p.greedy && DoneUpTo(text, p, a, t, i) && i <= |b| && b[..i] == a[..i]
    ensures DoneUpTo(text, p, b, t, i)
  {
    forall j | t <= j < i ensures DoneWith(text, p, b, t, j) {
      assert DoneWith(text, p, a, t, j);
      SameBefore(a, b, i, j);
      if b[j].Text? {
        var y :| t <= y <= j && SearchedFrom(text, p, a, j, y);
        SameBefore(a, b, i, y);
        assert SearchedFrom(text, p, b, j, y);
      }
    }
  }

  lemma SameBefore(a: seq<Piece>, b: seq<Piece>, i: nat, j: nat)
    requires j < i <= |a| && i <= |b| && b[..i] == a[..i]
    ensures b[j] == a[j] && b[..j] == a[..j]
  {
    assert b[j] == b[..i][j] && a[j] == a[..i][j];
    assert b[..j] == b[..i][..j] && a[..j] == a[..i][..j];
  }

  /** The text in front of a hit ends where the match begins. */
  lemma BeforeIsDone(text: string, p: Pattern, ps: seq<Piece>, r: seq<Piece>, h: Look, t: nat, i: nat, pos: nat)
    requires Usable(p) && p.greedy && h.Hit? && GoodHit(text, ps, h) && At(ps, i, pos) && t <= i <= h.i && ps[i].Text?
    requires NoneBefore(text, p, pos, h.pos + h.at) && DoneUpTo(text, p, ps, t, h.i)
    requires TokenIndex(h) < |r| && r[TokenIndex(h)].Token?
    requires r[..h.i] == ps[..h.i] && (h.at > 0 ==> r[h.i] == Text(Before(text, h)))
    ensures DoneUpTo(text, p, r, t, TokenIndex(h) + 1)
  {
    SamePlace(text, p, ps, r, t, h.i);
    if h.at > 0 { StringBefore(text, p, ps, r, h, t, i, pos); }
  }

  lemma StringBefore(text: string, p: Pattern, ps: seq<Piece>, r: seq<Piece>, h: Look, t: nat, i: nat, pos: nat)
    requires Usable(p) && p.greedy && h.Hit? && GoodHit(text, ps, h) && At(ps, i, pos) && t <= i <= h.i && ps[i].Text?
    requires NoneBefore(text, p, pos, h.pos + h.at)
    requires h.i < |r| && r[..h.i] == ps[..h.i] && r[h.i] == Text(Before(text, h))
    ensures DoneWith(text, p, r, t, h.i)
  {
    if i < h.i { SameBefore(ps, r, h.i, i); }
    assert SearchedFrom(text, p, r, h.i, i);
  }

  lemma FrontOfSplice(text: string, ps: seq<Piece>, r: seq<Piece>, h: Look, tok: Piece)
    requires h.Hit? && GoodHit(text, ps, h)
    requires TokenIndex(h) < |r| && TokenIndex(h) < |Splice(text, ps, h, tok)|
    requires r[..TokenIndex(h)] == Splice(text, ps, h, tok)[..TokenIndex(h)]
    ensures r[..h.i] == ps[..h.i]
    ensures h.at > 0 ==> r[h.i] == Text(Before(text, h))
  {
    var t := TokenIndex(h);
    SpliceFront(text, ps, h, tok);
    assert r[..h.i] == r[..t][..h.i] == ps[..h.i];
    if h.at > 0 { assert r[h.i] == r[..t][h.i]; }
  }

  /** A greedy look, put in terms of the match it made. */
  lemma LookMeans(text: string, p: Pattern, ps: seq<Piece>, i: nat, pos: nat)
    requires Legal(p) && p.greedy && Inv(text, ps) && text != "" && i < |ps| && At(ps, i, pos) && ps[i].Text?
    ensures pos <= |text|
    ensures var look := LookAt(p, text, ps, i, pos);
      && (look.Stop? ==> NoneBefore(text, p, pos, |text|))
      && (look.Pass? ==> NoneBefore(text, p, pos, look.pos))
      && (look.Hit? ==> NoneBefore(text, p, pos, look.pos + look.at))
  {
    AtNext(ps, i, pos);
  }

  lemma HitIsDone(text: string, g: Grammar, k: nat, c: Cursor, h: Look, t: nat)
    requires LegalGrammar(g) && k < |g.patterns| && g.patterns[k].greedy && t <= c.i && text != ""
    requires GoodCursor(text, c) && DoneUpTo(text, g.patterns[k], c.ps, t, c.i) && c.i < |c.ps| && c.ps[c.i].Text?
    requires h.Hit? && h == LookAt(g.patterns[k], text, c.ps, c.i, c.pos)
    ensures var d := AfterHit(text, g, k, c, h); DoneUpTo(text, g.patterns[k], d.ps, t, d.i)
  {
    var p, tok := g.patterns[k], NewToken(g.patterns[k], h.matched);
    var ps' := Splice(text, c.ps, h, tok);
    LookMeans(text, p, c.ps, c.i, c.pos);
    WalkIsDone(text, p, c.ps, t, c.i, c.pos, h.i, h.pos);
    RematchUnfold(text, g, k, c.ps, h, c.reach, ps');
    SpliceFront(text, c.ps, h, tok);
    FrontOfSplice(text, c.ps, AfterHit(text, g, k, c, h).ps, h, tok);
    BeforeIsDone(text, p, c.ps, AfterHit(text, g, k, c, h).ps, h, t, c.i, c.pos);
  }

  lemma PassIsDone(text: string, p: Pattern, c: Cursor, j: nat, start: nat, t: nat)
    requires Usable(p) && p.greedy && GoodCursor(text, c) && t <= c.i && DoneUpTo(text, p, c.ps, t, c.i)
    requires text != "" && c.i < |c.ps| && LookAt(p, text, c.ps, c.i, c.pos) == Pass(j, start)
    ensures DoneUpTo(text, p, c.ps, t, j + 1)
  {
    if c.ps[c.i].Text? {
      LookMeans(text, p, c.ps, c.i, c.pos);
      WalkIsDone(text, p, c.ps, t, c.i, c.pos, j, start);
    }
  }

  lemma StopIsDone(text: string, p: Pattern, c: Cursor, t: nat)
    requires Usable(p) && p.greedy && GoodCursor(text, c) && t <= c.i && DoneUpTo(text, p, c.ps, t, c.i)
    requires text != "" && c.i < |c.ps| && LookAt(p, text, c.ps, c.i, c.pos).Stop?
    ensures DoneUpTo(text, p, c.ps, t, |c.ps|)
  {
    LookMeans(text, p, c.ps, c.i, c.pos);
    assert c.ps[..|c.ps|] == c.ps;
    WalkIsDone(text, p, c.ps, t, c.i, c.pos, |c.ps|, |text|);
  }

  // With an engine that finds leftmost matches.

  /** A search that starts later, but not past the match, finds the same match; none
      when there is none. So searches `RegExp.exec`. */
  ghost predicate LeftmostExec(p: Pattern) {
    forall text: string, start: nat, later: nat {:trigger p.exec(text, start), p.exec(text, later)} ::
      start <= later <= |text| ==>
        && (p.exec(text, start) == None ==> p.exec(text, later) == None)
        && (p.exec(text, start).Some? && later <= p.exec(text, start).value.index ==>
              p.exec(text, later) == p.exec(text, start))
  }

  /** What was found from `from` begins before `pos`, and its lookbehind group, cut off,
      covers everything up to `end`. */
  ghost predicate HiddenByGroup(text: string, p: Pattern, from: nat, pos: nat, end: nat) {
    && p.lookbehind && p.exec(text, from).Some?
    && p.exec(text, from).value.index < pos
    && end <= p.exec(text, from).value.index + |p.exec(text, from).value.group1|
  }

  /** Main result: when a match searched from the start of string `j` does begin inside
      it after all, that string lies in a lookbehind group. Without lookbehind
      there is no such string. */
  lemma OnlyGroupsHide(text: string, p: Pattern, ps: seq<Piece>, t: nat, j: nat)
    requires Legal(p) && LeftmostExec(p) && Inv(text, ps) && j < |ps| && ps[j].Text? && Searched(text, p, ps, t, j)
    ensures var pos := |SourceAll(ps[..j])|; var end := pos + |ps[j].s|;
      NoneBefore(text, p, pos, end) || exists from: nat :: from < pos && HiddenByGroup(text, p, from, pos, end)
  {
    var y :| t <= y <= j && SearchedFrom(text, p, ps, j, y);
    var from, pos := |SourceAll(ps[..y])|, |SourceAll(ps[..j])|;
    Onwards(ps, y, j);
    AtNext(ps, j, pos);
    if !NoneBefore(text, p, pos, pos + |ps[j].s|) {
      FoundEarlier(text, p, from, pos, pos + |ps[j].s|);
    }
  }

  lemma FoundEarlier(text: string, p: Pattern, from: nat, pos: nat, end: nat)
    requires Legal(p) && LeftmostExec(p) && from <= pos <= end <= |text|
    requires NoneBefore(text, p, from, end) && !NoneBefore(text, p, pos, end)
    ensures from < pos && HiddenByGroup(text, p, from, pos, end)
  {
    assert p.exec(text, pos).Some?;
    assert LegalExec(text, from, p.exec(text, from));
  }
}
