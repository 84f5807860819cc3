/** How far a re-match goes: a pattern that is not greedy leaves alone whatever starts at
    or behind its reach. */
module TokenizerReach {
  import opened Wrappers
  import opened Pieces
  import opened Grammars
  import opened TokenizerGreedy
  import opened TokenizerProps
  import opened TokenizerSpec

  /** From position `x` on, where piece `i` of `a` and piece `j` of `b` start, the lists are the same. */
  ghost predicate SameFrom(a: seq<Piece>, i: nat, b: seq<Piece>, j: nat, x: nat) {
    At(a, i, x) && At(b, j, x) && a[i..] == b[j..]
  }

  /** What `a` holds from piece `i` at position `x` on, `b` holds at the same position. */
  ghost predicate KeepsBack(a: seq<Piece>, i: nat, b: seq<Piece>, x: nat) {
    exists j :: SameFrom(a, i, b, j, x)
  }

  lemma BackOfJoin<T>(front: seq<T>, back: seq<T>, n: nat)
    requires n <= |back|
    ensures (front + back)[|front| + n..] == back[n..]
  {}

  lemma SpliceKeepsBack(text: string, ps: seq<Piece>, h: Look, tok: Piece, i: nat, x: nat) returns (j: nat)
    requires h.Hit? && Inv(text, ps) && text != "" && GoodHit(text, ps, h)
    requires tok.Token? && Exact(tok) && Source(tok) == h.matched
    requires h.i + h.n <= i && At(ps, i, x)
    ensures TokenIndex(h) < j && SameFrom(ps, i, Splice(text, ps, h, tok), j, x)
  {
    var r, patch := Splice(text, ps, h, tok), Patch(Before(text, h), tok, After(text, h));
    SpliceKeeps(text, ps, h, tok);
    j := h.i + |patch| + (i - h.i - h.n);
    BackOfJoin(ps[..h.i] + patch, ps[h.i + h.n..], i - h.i - h.n);
    assert ps[i..] == ps[h.i + h.n..][i - h.i - h.n..];
    SameSuffix(text, ps, i, r, j);
  }

  /** The cursor is in front of what starts behind the reach. */
  lemma InFront(ps: seq<Piece>, i: nat, pos: nat, j: nat, x: nat)
    requires At(ps, i, pos) && At(ps, j, x) && i <= j && pos < x && AllExact(ps)
    ensures i < j && pos + Length(ps[i]) <= x
  {
    AtNext(ps, i, pos);
    Onwards(ps, i + 1, j);
  }

  lemma TurnStaysInside(text: string, g: Grammar, k: nat, c: Cursor, i: nat, x: nat) returns (j: nat)
    requires LegalGrammar(g) && k < |g.patterns| && !g.patterns[k].greedy && GoodCursor(text, c)
    requires c.reach.Some? && c.reach.value <= x && c.i <= i && At(c.ps, i, x)
    requires Step(text, g, k, c).On?
    ensures var d := Step(text, g, k, c).c; d.i <= j && SameFrom(c.ps, i, d.ps, j, x) && d.reach.value <= x
  {
    InFront(c.ps, c.i, c.pos, i, x);
    var look := LookAt(g.patterns[k], text, c.ps, c.i, c.pos);
    j := i;
    if look.Hit? {
      var tok := NewToken(g.patterns[k], look.matched);
      RematchUnfold(text, g, k, c.ps, look, c.reach, Splice(text, c.ps, look, tok));
      j := SpliceKeepsBack(text, c.ps, look, tok, i, x);
    }
  }

  lemma {:induction false} NodesStayInside(text: string, g: Grammar, k: nat, c: Cursor, i: nat, x: nat)
    returns (j: nat)
    requires LegalGrammar(g) && k < |g.patterns| && !g.patterns[k].greedy && GoodCursor(text, c)
    requires c.reach.Some? && c.reach.value <= x && c.i <= i && At(c.ps, i, x)
    ensures var r := RunNodes(text, g, k, c); c.i <= j && SameFrom(c.ps, i, r.ps, j, x) && r.reach.value <= x
    decreases |text| - c.pos, |text| + 2 - |c.ps|, |c.ps| - c.i
  {
    j := i;
    var turn := Step(text, g, k, c);
    if turn.On? {
      InText(text, c);
      InText(text, turn.c);
      j := TurnStaysInside(text, g, k, c, i, x);
      j := NodesStayInside(text, g, k, turn.c, j, x);
    }
  }

  /** Main result: a pass of a pattern that is not greedy changes nothing that starts at or
      behind its reach. */
  lemma PassStaysInside(text: string, g: Grammar, k: nat, ps: seq<Piece>, t: nat, pos: nat, reach: nat, i: nat, x: nat)
    requires LegalGrammar(g) && k < |g.patterns| && !g.patterns[k].greedy && Inv(text, ps) && At(ps, t, pos)
    requires t <= i && At(ps, i, x) && reach <= x
    ensures var r := RunNodes(text, g, k, Cursor(ps, t, pos, Some(reach)));
      r.reach.value <= x && KeepsBack(ps, i, r.ps, x)
  {
    var j := NodesStayInside(text, g, k, Cursor(ps, t, pos, Some(reach)), i, x);
  }

  ghost predicate NoneGreedy(g: Grammar, limit: nat)
    requires limit <= |g.patterns|
  {
    forall m :: 0 <= m < limit ==> !g.patterns[m].greedy
  }

  lemma {:induction false} TurnsStayInside(text: string, g: Grammar, limit: nat, k: nat, ps: seq<Piece>, t: nat,
                                           pos: nat, reach: nat, i: nat, x: nat)
    returns (j: nat)
    requires LegalGrammar(g) && k <= limit <= |g.patterns| && Inv(text, ps) && At(ps, t, pos)
    requires NoneGreedy(g, limit)
    requires t <= i && At(ps, i, x) && reach <= x
    ensures var r := RunPatterns(text, g, limit, k, ps, t, pos, Some(reach));
      SameFrom(ps, i, r.ps, j, x) && r.reach.value <= x
    decreases limit - k
  {
    j := i;
    if k < limit {
      var r := RunNodes(text, g, k, Cursor(ps, t, pos, Some(reach)));
      j := NodesStayInside(text, g, k, Cursor(ps, t, pos, Some(reach)), i, x);
      if !r.bailed { j := TurnsStayInside(text, g, limit, k + 1, r.ps, t, pos, r.reach.value, j, x); }
    }
  }

  /** Main result: patterns in turn, none of them greedy, change nothing that starts at or
      behind their common reach, and hand out no further reach. */
  lemma PatternsStayInside(text: string, g: Grammar, limit: nat, ps: seq<Piece>, t: nat, pos: nat, reach: nat,
                           i: nat, x: nat)
    requires LegalGrammar(g) && limit <= |g.patterns| && NoneGreedy(g, limit) && Inv(text, ps) && At(ps, t, pos)
    requires t <= i && At(ps, i, x) && reach <= x
    ensures var r := RunPatterns(text, g, limit, 0, ps, t, pos, Some(reach));
      KeepsBack(ps, i, r.ps, x) && r.reach.value <= x
  {
    var j := TurnsStayInside(text, g, limit, 0, ps, t, pos, reach, i, x);
  }
}
