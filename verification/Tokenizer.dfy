/** Prism's tokenize and matchGrammar over the linked list, proved equal to the
    functions of TokenizerSpec. */
module Tokenizer {
  import opened Wrappers
  import opened Pieces
  import opened Grammars
  import opened TokenLists
  import opened TokenizerSpec

  /** The `rematch` object: which pattern asked for it and how far it must go. */
  class Rematch {
    const cause: Cause
    var reach: nat

    constructor (cause: Cause, reach: nat)
      ensures this.cause == cause && this.reach == reach
    {
      this.cause, this.reach := cause, reach;
    }
  }

  ghost function ReachOf(rematch: Rematch?): Option<nat>
    reads rematch
  {
    if rematch == null then None else Some(rematch.reach)
  }

  /** What one look at a text node found, in nodes. */
  datatype Found =
    | Ended
    | Moved(node: Node, pos: nat)
    | Caught(node: Node, pos: nat, n: nat, str: string, at: nat, matched: string)

  /** `f` is `look`, with node `look.i` of the list for the index. */
  ghost predicate Agrees(text: string, list: TokenList, look: Look, f: Found)
    requires look.Hit? ==> look.pos + look.span <= |text|
    reads list, list.chain
  {
    match look
    case Stop => f == Ended
    case Pass(i, pos) => i + 1 < |list.chain| && f == Moved(list.chain[i + 1], pos)
    case Hit(i, pos, n, span, at, matched) =>
      i + 1 < |list.chain| && f == Caught(list.chain[i + 1], pos, n, text[pos..pos + span], at, matched)
  }

  /** The skip walk from piece `i` at `pos` gets to piece `j` at `start`. */
  ghost predicate Walks(ps: seq<Piece>, i: nat, pos: nat, target: nat, j: nat, start: nat)
    requires j <= |ps|
    decreases |ps| - i
  {
    if i >= j then i == j && pos == start
    else pos + Length(ps[i]) <= target && Walks(ps, i + 1, pos + Length(ps[i]), target, j, start)
  }

  /** The greedy skip loop; it never steps onto the tail. */
  method SkipNodes(list: TokenList, node: Node, ghost i: nat, pos: nat, target: nat)
    returns (current: Node, start: nat)
    requires list.Valid() && i < |list.pieces| && list.chain[i + 1] == node
    requires AllExact(list.pieces) && At(list.pieces, i, pos)
    requires pos <= target < |SourceAll(list.pieces)|
    ensures var r := SkipTo(list.pieces, i, pos, target); current == list.chain[r.0 + 1] && start == r.1
  {
    ghost var ps, j := list.pieces, i;
    current, start := node, pos;
    list.NodeOf(i);
    var p := pos + Length(node.value.value);
    while target >= p
      invariant j < |ps| && Walks(ps, i, pos, target, j, start)
      invariant list.chain[j + 1] == current && p == start + Length(ps[j])
      decreases |ps| - j
    {
      list.NodeOf(j);
      WalkStep(ps, i, pos, target, j, start);
      current, j, start := current.next, j + 1, p;
      list.NodeOf(j);
      p := p + Length(current.value.value);
    }
    WalkEnds(ps, i, pos, target, j, start);
  }

  lemma {:induction false} WalkStep(ps: seq<Piece>, i: nat, pos: nat, target: nat, j: nat, start: nat)
    requires i <= j < |ps| && At(ps, i, pos) && AllExact(ps) && pos <= target < |SourceAll(ps)|
    requires Walks(ps, i, pos, target, j, start) && start + Length(ps[j]) <= target
    ensures j + 1 < |ps| && Walks(ps, i, pos, target, j + 1, start + Length(ps[j]))
    decreases |ps| - i
  {
    AtNext(ps, i, pos);
    if i < j { WalkStep(ps, i + 1, pos + Length(ps[i]), target, j, start); }
  }

  lemma {:induction false} WalkEnds(ps: seq<Piece>, i: nat, pos: nat, target: nat, j: nat, start: nat)
    requires i <= j < |ps| && At(ps, i, pos) && AllExact(ps) && pos <= target < |SourceAll(ps)|
    requires Walks(ps, i, pos, target, j, start) && target < start + Length(ps[j])
    ensures SkipTo(ps, i, pos, target) == (j, start)
    decreases |ps| - i
  {
    AtNext(ps, i, pos);
    if i < j { WalkEnds(ps, i + 1, pos + Length(ps[i]), target, j, start); }
  }

  /** The covering walk from piece `j` at `start` gets to piece `e` at `end`. */
  ghost predicate Covers(ps: seq<Piece>, j: nat, start: nat, to: nat, e: nat, end: nat)
    requires e <= |ps|
    decreases |ps| - j
  {
    if j >= e then j == e && start == end
    else (start < to || ps[j].Text?) && Covers(ps, j + 1, start + Length(ps[j]), to, e, end)
  }

  /** The covering loop: how many nodes a match reaches over, and where they end. */
  method CoverNodes(list: TokenList, node: Node, ghost j: nat, start: nat, to: nat)
    returns (count: nat, end: nat)
    requires list.Valid() && j < |list.pieces| && list.chain[j + 1] == node
    requires AllExact(list.pieces) && At(list.pieces, j, start) && list.pieces[j].Text?
    requires to <= |SourceAll(list.pieces)|
    ensures (j + count, end) == CoverEnd(list.pieces, j, start, to)
  {
    ghost var ps, e := list.pieces, j;
    count, end := 0, start;
    var k := node;
    list.NodeOf(j);
    while k != list.tail && (end < to || k.value.value.Text?)
      invariant e == j + count <= |ps| && Covers(ps, j, start, to, e, end)
      invariant list.chain[e + 1] == k && (e < |ps| ==> k != list.tail && k.value == Some(ps[e]))
      decreases |ps| - e
    {
      list.NodeOf(e);
      CoverStep(ps, j, start, to, e, end);
      end := end + Length(k.value.value);
      count, k, e := count + 1, k.next, e + 1;
      if e < |ps| { list.NodeOf(e); }
    }
    CoverStops(ps, j, start, to, e, end);
  }

  lemma {:induction false} CoverStep(ps: seq<Piece>, j: nat, start: nat, to: nat, e: nat, end: nat)
    requires j <= e < |ps| && Covers(ps, j, start, to, e, end) && (end < to || ps[e].Text?)
    ensures Covers(ps, j, start, to, e + 1, end + Length(ps[e]))
    decreases |ps| - j
  {
    if j < e { CoverStep(ps, j + 1, start + Length(ps[j]), to, e, end); }
  }

  lemma {:induction false} CoverStops(ps: seq<Piece>, j: nat, start: nat, to: nat, e: nat, end: nat)
    requires j <= e <= |ps| && At(ps, j, start) && AllExact(ps) && to <= |SourceAll(ps)|
    requires Covers(ps, j, start, to, e, end) && (e == |ps| || (end >= to && ps[e].Token?))
    ensures CoverEnd(ps, j, start, to) == (e, end)
    decreases |ps| - j
  {
    if j < e {
      AtNext(ps, j, start);
      CoverStops(ps, j + 1, start + Length(ps[j]), to, e, end);
    }
  }

  method FindGreedy(p: Pattern, text: string, list: TokenList, node: Node, ghost i: nat, pos: nat) returns (f: Found)
    requires list.Valid() && i < |list.pieces| && list.chain[i + 1] == node
    requires Legal(p) && Inv(text, list.pieces) && text != "" && At(list.pieces, i, pos) && pos <= |text|
    ensures Agrees(text, list, LookGreedy(p, text, list.pieces, i, pos), f)
  {
    var found := MatchPattern(p, pos, text);
    if found == None || found.value.index >= |text| {
      return Ended;
    }
    f := ReachMatch(text, list, node, i, pos, found.value);
  }

  method ReachMatch(text: string, list: TokenList, node: Node, ghost i: nat, pos: nat, m: Match) returns (f: Found)
    requires list.Valid() && i < |list.pieces| && list.chain[i + 1] == node
    requires Inv(text, list.pieces) && At(list.pieces, i, pos)
    requires pos <= m.index < |text| && m.index + |m.matched| <= |text|
    requires text[m.index..m.index + |m.matched|] == m.matched
    ensures Agrees(text, list, GreedyFrom(text, list.pieces, i, pos, m), f)
  {
    ghost var ps := list.pieces;
    ghost var j := SkipTo(ps, i, pos, m.index).0;
    var current, start := SkipNodes(list, node, i, pos, m.index);
    list.NodeOf(j);
    if current.value.value.Token? {
      MovedFrom(text, ps, i, pos, m, j, start);
      return Moved(current, start);
    }
    f := CatchAt(text, list, current, i, pos, m, j, start);
  }

  /** Walk over what the match covers, from the string node that holds its start. */
  method CatchAt(text: string, list: TokenList, current: Node, ghost i: nat, ghost pos: nat, m: Match, ghost j: nat,
                 start: nat)
    returns (f: Found)
    requires list.Valid() && Inv(text, list.pieces) && i < |list.pieces| && At(list.pieces, i, pos)
    requires pos <= m.index < |text| && m.index + |m.matched| <= |text|
    requires text[m.index..m.index + |m.matched|] == m.matched
    requires (j, start) == SkipTo(list.pieces, i, pos, m.index) && list.pieces[j].Text? && current == list.chain[j + 1]
    ensures Agrees(text, list, GreedyFrom(text, list.pieces, i, pos, m), f)
  {
    var count, end := CoverNodes(list, current, j, start, m.index + |m.matched|);
    CaughtFrom(text, list.pieces, i, pos, m, j, start, count, end);
    f := Caught(current, start, count, text[start..end], m.index - start, m.matched);
  }

  lemma MovedFrom(text: string, ps: seq<Piece>, i: nat, pos: nat, m: Match, j: nat, start: nat)
    requires Inv(text, ps) && i < |ps| && At(ps, i, pos)
    requires pos <= m.index < |text| && m.index + |m.matched| <= |text|
    requires text[m.index..m.index + |m.matched|] == m.matched
    requires (j, start) == SkipTo(ps, i, pos, m.index) && ps[j].Token?
    ensures GreedyFrom(text, ps, i, pos, m) == Pass(j, start)
  {}

  /** What the two walks found is the hit of the specification. */
  lemma CaughtFrom(text: string, ps: seq<Piece>, i: nat, pos: nat, m: Match, j: nat, start: nat, count: nat, end: nat)
    requires Inv(text, ps) && i < |ps| && At(ps, i, pos)
    requires pos <= m.index < |text| && m.index + |m.matched| <= |text|
    requires text[m.index..m.index + |m.matched|] == m.matched
    requires (j, start) == SkipTo(ps, i, pos, m.index) && ps[j].Text?
    requires (j + count, end) == CoverEnd(ps, j, start, m.index + |m.matched|)
    ensures start <= end <= |text|
    ensures GreedyFrom(text, ps, i, pos, m) == Hit(j, start, count, end - start, m.index - start, m.matched)
  {
    Covered(ps, j, start, j + count, end);
  }

  /** Two adjacent splices are one. */
  lemma SplicedTwice<T>(s: seq<T>, i: nat, n: nat, a: seq<T>, m: nat, b: seq<T>)
    requires i + n + m <= |s|
    ensures i + |a| + m <= |Spliced(s, i, n, a)|
    ensures Spliced(Spliced(s, i, n, a), i + |a|, m, b) == Spliced(s, i, n + m, a + b)
  {}

  /** `before && addAfter(...)`: the string before the match, in front of the node at `i`. */
  method AddBefore(list: TokenList, node: Node, ghost i: nat, before: string) returns (from: Node)
    requires list.Valid() && i < |list.pieces| && list.chain[i + 1] == node
    modifies list, list.Nodes()
    ensures list.Valid() && list.pieces == Spliced(old(list.pieces), i, 0, Maybe(before))
    ensures from == list.chain[i + |Maybe(before)|]
    ensures SameUpTo(list.chain, old(list.chain), i + 1)
    ensures forall x :: x in list.chain ==> x in old(list.chain) || fresh(x)
  {
    from := node.prev;
    if before != "" {
      ghost var c := list.chain;
      from := list.AddAfter(from, i, Text(before));
      Inserted(c, i + 1, from);
    } else {
      assert list.pieces == Spliced(list.pieces, i, 0, []);
    }
  }

  /** The same, then drop the `n` covered nodes. */
  method ClearNodes(list: TokenList, node: Node, ghost i: nat, n: nat, before: string) returns (from: Node)
    requires list.Valid() && n >= 1 && i + n <= |list.pieces| && list.chain[i + 1] == node
    modifies list, list.Nodes()
    ensures list.Valid() && list.pieces == Spliced(old(list.pieces), i, n, Maybe(before))
    ensures i + |Maybe(before)| <= |list.pieces| && from == list.chain[i + |Maybe(before)|]
    ensures SameUpTo(list.chain, old(list.chain), i + 1)
    ensures forall x :: x in list.chain ==> x in old(list.chain) || fresh(x)
  {
    ghost var m := Maybe(before);
    SplicedTwice(list.pieces, i, 0, m, n, []);
    assert m + [] == m;
    from := AddBefore(list, node, i, before);
    ghost var c := list.chain;
    list.RemoveRange(from, i + |m|, n);
    Removed(c, i + |m| + 1, n);
    SameShorter(list.chain, c, i + |m| + 1, i + 1);
  }

  lemma SameShorter<T>(a: seq<T>, b: seq<T>, i: nat, j: nat)
    requires j <= i && SameUpTo(a, b, i)
    ensures SameUpTo(a, b, j)
    ensures i > 0 ==> a[i - 1] == b[i - 1]
  {
    assert a[..j] == a[..i][..j] && b[..j] == b[..i][..j];
    if i > 0 { assert a[i - 1] == a[..i][i - 1] && b[i - 1] == b[..i][i - 1]; }
  }

  /** `after && addAfter(...)`: the string after the match, behind the node at `i`. */
  method AddBehind(list: TokenList, node: Node, ghost i: nat, after: string)
    requires list.Valid() && i <= |list.pieces| && list.chain[i] == node
    modifies list, list.Nodes()
    ensures list.Valid() && list.pieces == Spliced(old(list.pieces), i, 0, Maybe(after))
    ensures SameUpTo(list.chain, old(list.chain), i + 1)
    ensures forall x :: x in list.chain ==> x in old(list.chain) || fresh(x)
  {
    if after != "" {
      ghost var c := list.chain;
      var added := list.AddAfter(node, i, Text(after));
      Inserted(c, i + 1, added);
    } else {
      assert list.pieces == Spliced(list.pieces, i, 0, []);
    }
  }

  /** Add the new Token after `from`, then the string after the match. */
  method WrapNode(list: TokenList, from: Node, ghost i: nat, tok: Piece, after: string) returns (wrapped: Node)
    requires list.Valid() && i <= |list.pieces| && list.chain[i] == from
    modifies list, list.Nodes()
    ensures list.Valid() && list.pieces == Spliced(old(list.pieces), i, 0, [tok] + Maybe(after))
    ensures i < |list.pieces| && wrapped == list.chain[i + 1]
    ensures SameUpTo(list.chain, old(list.chain), i + 1)
    ensures forall x :: x in list.chain ==> x in old(list.chain) || fresh(x)
  {
    SplicedTwice(list.pieces, i, 0, [tok], 0, Maybe(after));
    wrapped := list.AddAfter(from, i, tok);
    Inserted(old(list.chain), i + 1, wrapped);
    ghost var c := list.chain;
    AddBehind(list, wrapped, i + 1, after);
    SameShorter(list.chain, c, i + 2, i + 1);
  }

  /** The splice: text before, the new Token, text after, in place of `n` nodes. */
  method SpliceNodes(list: TokenList, node: Node, ghost i: nat, n: nat, before: string, tok: Piece, after: string)
    returns (wrapped: Node)
    requires list.Valid() && n >= 1 && i + n <= |list.pieces| && list.chain[i + 1] == node
    modifies list, list.Nodes()
    ensures list.Valid()
    ensures list.pieces == TwoSplices(old(list.pieces), i, n, before, tok, after)
    ensures i + |Maybe(before)| < |list.pieces| && wrapped == list.chain[i + |Maybe(before)| + 1]
    ensures SameUpTo(list.chain, old(list.chain), i + 1)
    ensures forall x :: x in list.chain ==> x in old(list.chain) || fresh(x)
  {
    ghost var chain0, m := list.chain, Maybe(before);
    var from := ClearNodes(list, node, i, n, before);
    ghost var chain1 := list.chain;
    wrapped := WrapNode(list, from, i + |m|, tok, after);
    SameTwice(list.chain, chain1, chain0, i + |m| + 1, i + 1);
  }

  function TwoSplices(ps: seq<Piece>, i: nat, n: nat, before: string, tok: Piece, after: string): seq<Piece>
    requires i + n <= |ps|
  {
    Spliced(Spliced(ps, i, n, Maybe(before)), i + |Maybe(before)|, 0, [tok] + Maybe(after))
  }

  lemma SpliceIsTwo(text: string, ps: seq<Piece>, h: Look, tok: Piece, before: string, after: string)
    requires h.Hit? && GoodHit(text, ps, h)
    requires before == text[h.pos..h.pos + h.span][..h.at]
    requires after == text[h.pos..h.pos + h.span][h.at + |h.matched|..]
    ensures h.i + |Maybe(before)| == TokenIndex(h)
    ensures Splice(text, ps, h, tok) == TwoSplices(ps, h.i, h.n, before, tok, after)
  {
    assert before == Before(text, h) && after == After(text, h);
    SplicedTwice(ps, h.i, h.n, Maybe(before), 0, [tok] + Maybe(after));
    assert Maybe(before) + ([tok] + Maybe(after)) == Patch(before, tok, after);
  }

  /** What the two splices make of a good list. */
  lemma SplicePlan(text: string, ps: seq<Piece>, h: Look, tok: Piece, before: string, after: string)
    requires h.Hit? && GoodHit(text, ps, h) && Inv(text, ps) && text != ""
    requires tok.Token? && Exact(tok) && Source(tok) == h.matched
    requires before == text[h.pos..h.pos + h.span][..h.at]
    requires after == text[h.pos..h.pos + h.span][h.at + |h.matched|..]
    ensures h.i + |Maybe(before)| == TokenIndex(h) && |before| == h.at
    ensures var r := TwoSplices(ps, h.i, h.n, before, tok, after);
      && r == Splice(text, ps, h, tok) && Inv(text, r)
      && At(r, TokenIndex(h), h.pos + h.at) && TokenIndex(h) < |r| && r[TokenIndex(h)] == tok
  {
    SpliceIsTwo(text, ps, h, tok, before, after);
    SpliceKeeps(text, ps, h, tok);
  }

  /** How many nodes from the head stay as they are while patterns run from piece `i`. */
  ghost function Kept(ps: seq<Piece>, i: nat): nat {
    if i < |ps| && ps[i].Token? then i + 2 else i + 1
  }

  /** Node and position are those of cursor `c`. */
  ghost predicate Stands(list: TokenList, rematch: Rematch?, c: Cursor, node: Node, pos: nat)
    reads list, list.chain, rematch
  {
    && list.Valid() && c.ps == list.pieces && c.i <= |c.ps| && node == list.chain[c.i + 1]
    && c.pos == pos && c.reach == ReachOf(rematch)
  }

  /** `pos + length, next` of the node loop. */
  method Advance(list: TokenList, rematch: Rematch?, ghost c: Cursor, node: Node, pos: nat)
    returns (next: Node, npos: nat)
    requires Stands(list, rematch, c, node, pos) && c.i < |c.ps|
    ensures Stands(list, rematch, Cursor(c.ps, c.i + 1, npos, c.reach), next, npos)
    ensures npos == pos + Length(c.ps[c.i])
  {
    list.NodeOf(c.i);
    next, npos := node.next, pos + Length(node.value.value);
  }

  /** The content of a new Token, tokenizing inside it where the pattern says so. */
  method MakeToken(p: Pattern, matched: string) returns (tok: Piece)
    requires p.inside.Some? ==> LegalGrammar(p.inside.value)
    ensures tok == NewToken(p, matched)
    decreases p, 1, 0, 0, 0, 0
  {
    var content := Plain(matched);
    if p.inside.Some? {
      var parts := Tokenize(matched, p.inside.value);
      content := Nested(parts);
    }
    tok := Token(p.key, content, p.alias, |matched|);
  }

  /** The nested re-match from the new Token, and its reach handed on. */
  method RematchNodes(text: string, list: TokenList, g: Grammar, k: nat, wrapped: Node, ghost c: Cursor,
                      ghost h: Look, pos: nat, n: nat, reach: nat, rematch: Rematch?)
    requires list.Valid() && LegalGrammar(g) && k < |g.patterns|
    requires Inv(text, c.ps) && text != "" && h.Hit? && GoodHit(text, c.ps, h)
    requires list.pieces == Splice(text, c.ps, h, NewToken(g.patterns[k], h.matched))
    requires ReachOf(rematch) == Extend(c.reach, h.pos + h.span)
    requires pos == h.pos + h.at && n == h.n && reach == h.pos + h.span
    requires TokenIndex(h) < |list.pieces| && list.pieces[TokenIndex(h)].Token? &&
      wrapped == list.chain[TokenIndex(h) + 1]
    modifies list, list.Nodes(), rematch
    ensures list.Valid()
    ensures list.pieces == SpliceAndRematch(text, g, k, c.ps, h, c.reach).ps
    ensures ReachOf(rematch) == SpliceAndRematch(text, g, k, c.ps, h, c.reach).reach
    ensures SameUpTo(list.chain, old(list.chain), TokenIndex(h) + 2)
    ensures forall x :: x in list.chain ==> x in old(list.chain) || fresh(x)
    decreases g, k, 0, k + 2, 0, 0
  {
    RematchUnfold(text, g, k, c.ps, h, c.reach, list.pieces);
    RunRematch(text, list, g, k, wrapped, TokenIndex(h), pos, n, reach, rematch, list.pieces, ReachOf(rematch));
  }

  /** `rematch && to > rematch.reach && (rematch.reach = to)`. */
  method ExtendReach(rematch: Rematch?, to: nat)
    modifies rematch
    ensures ReachOf(rematch) == Extend(old(ReachOf(rematch)), to)
  {
    if rematch != null && to > rematch.reach {
      rematch.reach := to;
    }
  }

  /** `removeCount > 1`: match again from the new Token, up to this pattern. */
  method RunRematch(text: string, list: TokenList, g: Grammar, k: nat, wrapped: Node, ghost t: nat, pos: nat,
                    n: nat, reach: nat, rematch: Rematch?, ghost ps: seq<Piece>, ghost outer: Option<nat>)
    requires list.Valid() && LegalGrammar(g) && k < |g.patterns|
    requires ps == list.pieces && outer == ReachOf(rematch)
    requires Inv(text, ps) && At(ps, t, pos)
    requires t < |ps| && ps[t].Token? && wrapped == list.chain[t + 1]
    modifies list, list.Nodes(), rematch
    ensures list.Valid()
    ensures list.pieces == TokenizerSpec.Rematch(text, g, k, ps, t, pos, n, reach, outer).ps
    ensures ReachOf(rematch) == TokenizerSpec.Rematch(text, g, k, ps, t, pos, n, reach, outer).reach
    ensures SameUpTo(list.chain, old(list.chain), t + 2)
    ensures forall x :: x in list.chain ==> x in old(list.chain) || fresh(x)
    decreases g, k, 0, k + 1, 0, 0
  {
    if n > 1 {
      var nested := new Rematch(CauseOf(g.patterns[k]), reach);
      var _ := MatchPatterns(text, list, g, k, wrapped.prev, t, pos, nested);
      ExtendReach(rematch, nested.reach);
    }
  }

  /** matchGrammar: every pattern up to the one that asked for this re-match. */
  method MatchPatterns(text: string, list: TokenList, g: Grammar, ghost limit: nat, start: Node,
                       ghost i: nat, pos: nat, rematch: Rematch?) returns (bailed: bool)
    requires list.Valid() && LegalGrammar(g) && limit <= |g.patterns|
    requires Inv(text, list.pieces) && At(list.pieces, i, pos) && start == list.chain[i]
    requires if rematch == null then limit == |g.patterns|
      else limit < |g.patterns| && rematch.cause == CauseOf(g.patterns[limit])
    modifies list, list.Nodes(), rematch
    ensures list.Valid()
    ensures Outcome(list.pieces, ReachOf(rematch), bailed) ==
      old(RunPatterns(text, g, limit, 0, list.pieces, i, pos, ReachOf(rematch)))
    ensures SameUpTo(list.chain, old(list.chain), old(Kept(list.pieces, i)))
    ensures forall x :: x in list.chain ==> x in old(list.chain) || fresh(x)
    decreases g, limit, 0, limit, 0, 0
  {
    bailed := false;
    var k := 0;
    ghost var ps0, reach0, c0 := list.pieces, ReachOf(rematch), list.chain;
    while k < |g.patterns|
      invariant k <= limit && !bailed
      invariant list.Valid() && Inv(text, list.pieces) && At(list.pieces, i, pos)
      invariant RunPatterns(text, g, limit, k, list.pieces, i, pos, ReachOf(rematch)) ==
        RunPatterns(text, g, limit, 0, ps0, i, pos, reach0)
      invariant SameUpTo(list.chain, c0, Kept(ps0, i)) && KeepsPrefix(ps0, i, list.pieces)
      invariant forall x :: x in list.chain ==> x in c0 || fresh(x)
    {
      if rematch != null && rematch.cause == CauseOf(g.patterns[k]) {
        return;
      }
      ghost var ps1, reach1, c1 := list.pieces, ReachOf(rematch), list.chain;
      bailed := MatchNodes(text, list, g, k, start, i, pos, rematch);
      NextPattern(text, g, limit, k, ps1, i, pos, reach1);
      KeptAgain(ps0, ps1, list.pieces, i);
      SameTwice(list.chain, c1, c0, Kept(ps1, i), Kept(ps0, i));
      if bailed {
        return;
      }
      k := k + 1;
    }
  }

  /** The pattern loop goes on from what the node loop left. */
  lemma NextPattern(text: string, g: Grammar, limit: nat, k: nat, ps: seq<Piece>, i: nat, pos: nat, reach: Option<nat>)
    requires LegalGrammar(g) && k < limit <= |g.patterns| && Inv(text, ps) && At(ps, i, pos)
    ensures var r := RunNodes(text, g, k, Cursor(ps, i, pos, reach));
      && Inv(text, r.ps) && At(r.ps, i, pos) && KeepsPrefix(ps, i, r.ps)
      && RunPatterns(text, g, limit, k, ps, i, pos, reach)
        == if r.bailed then r else RunPatterns(text, g, limit, k + 1, r.ps, i, pos, r.reach)
  {}

  lemma KeptAgain(a: seq<Piece>, b: seq<Piece>, c: seq<Piece>, i: nat)
    requires i <= |a| && i <= |b| && KeepsPrefix(a, i, b) && KeepsPrefix(b, i, c)
    ensures KeepsPrefix(a, i, c) && Kept(a, i) <= Kept(b, i)
  {}

  /** The node loop of one pattern. */
  method MatchNodes(text: string, list: TokenList, g: Grammar, k: nat, start: Node, ghost i: nat, pos: nat,
                    rematch: Rematch?) returns (bailed: bool)
    requires list.Valid() && LegalGrammar(g) && k < |g.patterns|
    requires Inv(text, list.pieces) && At(list.pieces, i, pos) && start == list.chain[i]
    modifies list, list.Nodes(), rematch
    ensures list.Valid()
    ensures Outcome(list.pieces, ReachOf(rematch), bailed) ==
      old(RunNodes(text, g, k, Cursor(list.pieces, i, pos, ReachOf(rematch))))
    ensures SameUpTo(list.chain, old(list.chain), old(Kept(list.pieces, i)))
    ensures forall x :: x in list.chain ==> x in old(list.chain) || fresh(x)
    decreases g, k, 3, 0, 0, 0
  {
    ghost var c, kept := Cursor(list.pieces, i, pos, ReachOf(rematch)), Kept(list.pieces, i);
    bailed := NodeLoop(text, list, g, k, c, start.next, pos, rematch, kept);
  }

  /** The loop itself, from the node after `start`; it leaves the first `kept` nodes. */
  method NodeLoop(text: string, list: TokenList, g: Grammar, k: nat, ghost c0: Cursor, first: Node, pos: nat,
                  rematch: Rematch?, ghost kept: nat) returns (bailed: bool)
    requires LegalGrammar(g) && k < |g.patterns| && kept <= |list.chain|
    requires Stands(list, rematch, c0, first, pos) && GoodCursor(text, c0) && kept <= Kept(c0.ps, c0.i)
    modifies list, list.Nodes(), rematch
    ensures list.Valid() && SameUpTo(list.chain, old(list.chain), kept)
    ensures Outcome(list.pieces, ReachOf(rematch), bailed) == RunNodes(text, g, k, c0)
    ensures forall x :: x in list.chain ==> x in old(list.chain) || fresh(x)
    decreases g, k, 2, 2, 0, 0
  {
    bailed := false;
    var node: Node, p: nat := first, pos;
    ghost var c, r, chain0 := c0, RunNodes(text, g, k, c0), list.chain;
    while node != list.tail && !(rematch != null && p >= rematch.reach)
      invariant !bailed && Stands(list, rematch, c, node, p) && GoodCursor(text, c)
      invariant RunNodes(text, g, k, c) == r
      invariant kept <= Kept(c.ps, c.i) && SameUpTo(list.chain, chain0, kept)
      invariant forall x :: x in list.chain ==> x in chain0 || fresh(x)
      decreases |text| - c.pos, |text| + 2 - |c.ps|, |c.ps| - c.i
    {
      InText(text, c);
      ghost var d;
      var over;
      over, bailed, node, p, d := NodeTurn(text, list, g, k, c, node, p, rematch, r, chain0, kept);
      if over {
        return;
      }
      c := d;
    }
    if c.i < |c.ps| { list.NodeOf(c.i); }
    LoopEnds(text, g, k, c);
  }

  lemma LoopEnds(text: string, g: Grammar, k: nat, c: Cursor)
    requires LegalGrammar(g) && k < |g.patterns| && GoodCursor(text, c)
    requires c.i == |c.ps| || (c.reach.Some? && c.pos >= c.reach.value)
    ensures RunNodes(text, g, k, c) == Outcome(c.ps, c.reach, false)
  {}

  /** A turn that goes on goes forward, and keeps more of the list than it had to. */
  lemma TurnFollows(text: string, g: Grammar, k: nat, c: Cursor, d: Cursor)
    requires LegalGrammar(g) && k < |g.patterns| && GoodCursor(text, c) && Step(text, g, k, c) == On(d)
    ensures Follows(text, c, d) && d.pos <= |text| && |c.ps| <= |text|
    ensures Kept(c.ps, c.i) <= Kept(d.ps, d.i)
  {
    InText(text, d);
  }

  lemma SameTwice<T>(a: seq<T>, b: seq<T>, c: seq<T>, i: nat, j: nat)
    requires j <= i && SameUpTo(a, b, i) && SameUpTo(b, c, j)
    ensures SameUpTo(a, c, j)
  {
    assert a[..j] == a[..i][..j] && b[..j] == b[..i][..j];
  }

  /** A turn as the loop sees it: `r` is what the loop comes to, and the first `kept`
      nodes are those of `chain0`. */
  method NodeTurn(text: string, list: TokenList, g: Grammar, k: nat, ghost c: Cursor, node: Node, pos: nat,
                  rematch: Rematch?, ghost r: Outcome, ghost chain0: seq<Node>, ghost kept: nat)
    returns (over: bool, bailed: bool, next: Node, npos: nat, ghost d: Cursor)
    requires LegalGrammar(g) && k < |g.patterns|
    requires Stands(list, rematch, c, node, pos) && GoodCursor(text, c)
    requires c.i < |c.ps| && !(c.reach.Some? && c.pos >= c.reach.value)
    requires RunNodes(text, g, k, c) == r && kept <= Kept(c.ps, c.i) && SameUpTo(list.chain, chain0, kept)
    modifies list, list.Nodes(), rematch
    ensures list.Valid() && SameUpTo(list.chain, chain0, kept)
    ensures over ==> r == Outcome(list.pieces, ReachOf(rematch), bailed)
    ensures !over ==>
      !bailed && Stands(list, rematch, d, next, npos) && Follows(text, c, d) && d.pos <= |text| && |c.ps| <= |text|
    ensures !over ==> RunNodes(text, g, k, d) == r && kept <= Kept(d.ps, d.i)
    ensures forall x :: x in list.chain ==> x in old(list.chain) || fresh(x)
    decreases g, k, 2, 1, 0, 0
  {
    over, bailed, next, npos, d := TakeTurn(text, list, g, k, c, node, pos, rematch);
    SameTwice(list.chain, old(list.chain), chain0, Kept(c.ps, c.i), kept);
    if !over { TurnFollows(text, g, k, c, d); }
  }

  /** One turn of the node loop. */
  method TakeTurn(text: string, list: TokenList, g: Grammar, k: nat, ghost c: Cursor, node: Node, pos: nat,
                  rematch: Rematch?)
    returns (over: bool, bailed: bool, next: Node, npos: nat, ghost d: Cursor)
    requires LegalGrammar(g) && k < |g.patterns|
    requires Stands(list, rematch, c, node, pos) && GoodCursor(text, c)
    requires c.i < |c.ps| && !(c.reach.Some? && c.pos >= c.reach.value)
    modifies list, list.Nodes(), rematch
    ensures list.Valid()
    ensures over ==> Step(text, g, k, c) == Over(Outcome(list.pieces, ReachOf(rematch), bailed))
    ensures !over ==> !bailed && Step(text, g, k, c) == On(d) && Stands(list, rematch, d, next, npos)
    ensures SameUpTo(list.chain, old(list.chain), Kept(c.ps, c.i))
    ensures forall x :: x in list.chain ==> x in old(list.chain) || fresh(x)
    decreases g, k, 2, 0, 0, 0
  {
    if list.length > |text| {
      return true, true, node, pos, c;
    }
    ghost var look := LookAt(g.patterns[k], text, c.ps, c.i, pos);
    var f := FindAt(g.patterns[k], text, list, node, c.i, pos);
    match f
    case Ended => return true, false, node, pos, c;
    case Moved(_, _) =>
      d := AfterPass(text, c, look.i, look.pos);
      over, bailed := false, false;
      next, npos := TurnOnPass(text, list, c, look, f, rematch);
    case Caught(_, _, _, _, _, _) =>
      d := AfterHit(text, g, k, c, look);
      next, npos := TurnOnHit(text, list, g, k, c, look, f, rematch);
      over, bailed := false, false;
  }

  /** The turn that passes on: nothing changes. */
  method TurnOnPass(text: string, list: TokenList, ghost c: Cursor, ghost look: Look, f: Found, rematch: Rematch?)
    returns (next: Node, npos: nat)
    requires list.Valid() && GoodCursor(text, c) && c.ps == list.pieces && c.reach == ReachOf(rematch)
    requires look.Pass? && c.i <= look.i < |c.ps| && At(c.ps, look.i, look.pos) && c.pos <= look.pos &&
      Agrees(text, list, look, f)
    ensures Stands(list, rematch, AfterPass(text, c, look.i, look.pos), next, npos)
    ensures SameUpTo(list.chain, list.chain, Kept(c.ps, c.i))
  {
    next, npos := Advance(list, rematch, Cursor(c.ps, look.i, f.pos, c.reach), f.node, f.pos);
    KeptShorter(list.chain, c.ps, c.i);
  }

  lemma KeptShorter<T>(chain: seq<T>, ps: seq<Piece>, i: nat)
    requires i <= |ps| && |chain| == |ps| + 2
    ensures SameUpTo(chain, chain, Kept(ps, i))
  {}

  method FindAt(p: Pattern, text: string, list: TokenList, node: Node, ghost i: nat, pos: nat) returns (f: Found)
    requires list.Valid() && i < |list.pieces| && list.chain[i + 1] == node
    requires Legal(p) && Inv(text, list.pieces) && text != "" && At(list.pieces, i, pos)
    ensures Agrees(text, list, LookAt(p, text, list.pieces, i, pos), f)
  {
    list.NodeOf(i);
    AtNext(list.pieces, i, pos);
    if node.value.value.Token? {
      f := Moved(node, pos);
    } else if p.greedy {
      f := FindGreedy(p, text, list, node, i, pos);
    } else {
      f := FindInside(p, text, list, node, i, pos);
    }
  }

  method FindInside(p: Pattern, text: string, list: TokenList, node: Node, ghost i: nat, pos: nat) returns (f: Found)
    requires list.Valid() && i < |list.pieces| && list.chain[i + 1] == node
    requires Legal(p) && Inv(text, list.pieces) && At(list.pieces, i, pos) && list.pieces[i].Text?
    ensures Agrees(text, list, LookInside(p, text, list.pieces, i, pos), f)
  {
    list.NodeOf(i);
    var str := node.value.value.s;
    var found := MatchPattern(p, 0, str);
    if found == None {
      return Moved(node, pos);
    }
    TextAt(text, list.pieces, i, pos, 0, 0);
    f := Caught(node, pos, 1, str, found.value.index, found.value.matched);
  }

  /** The turn that hits, as seen from its own cursor. */
  method TurnOnHit(text: string, list: TokenList, g: Grammar, k: nat, ghost c: Cursor, ghost h: Look, f: Found,
                   rematch: Rematch?)
    returns (next: Node, npos: nat)
    requires LegalGrammar(g) && k < |g.patterns| && text != "" && list.Valid()
    requires GoodCursor(text, c) && c.ps == list.pieces && c.reach == ReachOf(rematch) && c.i < |c.ps| &&
      c.ps[c.i].Text?
    requires h.Hit? && GoodHit(text, c.ps, h) && c.i <= h.i && c.pos <= h.pos && Agrees(text, list, h, f)
    modifies list, list.Nodes(), rematch
    ensures Stands(list, rematch, AfterHit(text, g, k, c, h), next, npos)
    ensures SameUpTo(list.chain, old(list.chain), c.i + 1)
    ensures forall x :: x in list.chain ==> x in old(list.chain) || fresh(x)
    decreases g, k, 1, 1, 0, 0
  {
    next, npos := HitNodes(text, list, g, k, c, h, f, rematch);
    SameShorter(list.chain, old(list.chain), h.i + 1, c.i + 1);
  }

  /** A hit on the list: extend the reach, splice, and re-match when several nodes went. */
  method HitNodes(text: string, list: TokenList, g: Grammar, k: nat, ghost c: Cursor, ghost h: Look, f: Found,
                  rematch: Rematch?)
    returns (next: Node, npos: nat)
    requires LegalGrammar(g) && k < |g.patterns| && text != "" && list.Valid()
    requires GoodCursor(text, c) && c.ps == list.pieces && c.reach == ReachOf(rematch) && c.i < |c.ps| &&
      c.ps[c.i].Text?
    requires h.Hit? && GoodHit(text, c.ps, h) && c.i <= h.i && c.pos <= h.pos && Agrees(text, list, h, f)
    modifies list, list.Nodes(), rematch
    ensures Stands(list, rematch, AfterHit(text, g, k, c, h), next, npos)
    ensures SameUpTo(list.chain, old(list.chain), h.i + 1)
    ensures forall x :: x in list.chain ==> x in old(list.chain) || fresh(x)
    decreases g, k, 1, 0, 0, 0
  {
    var wrapped, pos := ReachAndWrap(text, list, g, k, c, h, f, rematch);
    next, npos := PassToken(text, list, g, k, c, h, wrapped, pos, rematch);
  }

  /** On from the new Token to the node behind it. */
  method PassToken(text: string, list: TokenList, g: Grammar, k: nat, ghost c: Cursor, ghost h: Look, wrapped: Node,
                   pos: nat, rematch: Rematch?)
    returns (next: Node, npos: nat)
    requires LegalGrammar(g) && k < |g.patterns| && text != "" && list.Valid()
    requires GoodCursor(text, c) && c.i < |c.ps| && c.ps[c.i].Text?
    requires h.Hit? && GoodHit(text, c.ps, h) && c.i <= h.i && c.pos <= h.pos
    requires list.pieces == SpliceAndRematch(text, g, k, c.ps, h, c.reach).ps
    requires ReachOf(rematch) == SpliceAndRematch(text, g, k, c.ps, h, c.reach).reach
    requires pos == h.pos + h.at && TokenIndex(h) < |list.pieces| && wrapped == list.chain[TokenIndex(h) + 1]
    ensures Stands(list, rematch, AfterHit(text, g, k, c, h), next, npos)
  {
    next, npos := Advance(list, rematch, Cursor(list.pieces, TokenIndex(h), pos, ReachOf(rematch)), wrapped, pos);
  }

  /** `to > rematch.reach` first, then the splice and the re-match. */
  method ReachAndWrap(text: string, list: TokenList, g: Grammar, k: nat, ghost c: Cursor, ghost h: Look, f: Found,
                      rematch: Rematch?)
    returns (wrapped: Node, pos: nat)
    requires LegalGrammar(g) && k < |g.patterns| && text != ""
    requires list.Valid() && Inv(text, c.ps) && c.ps == list.pieces && c.reach == ReachOf(rematch)
    requires h.Hit? && GoodHit(text, c.ps, h) && Agrees(text, list, h, f)
    modifies list, list.Nodes(), rematch
    ensures list.Valid()
    ensures list.pieces == SpliceAndRematch(text, g, k, c.ps, h, c.reach).ps
    ensures ReachOf(rematch) == SpliceAndRematch(text, g, k, c.ps, h, c.reach).reach
    ensures pos == h.pos + h.at
    ensures TokenIndex(h) < |list.pieces| && wrapped == list.chain[TokenIndex(h) + 1]
    ensures SameUpTo(list.chain, old(list.chain), h.i + 1)
    ensures forall x :: x in list.chain ==> x in old(list.chain) || fresh(x)
    decreases g, k, 0, k + 4, 0, 0
  {
    var reach := f.pos + |f.str|;
    ExtendReach(rematch, reach);
    wrapped, pos := WrapMatch(text, list, g, k, c, h, f, reach, rematch);
  }

  /** The splice and the nested re-match of a hit. */
  method WrapMatch(text: string, list: TokenList, g: Grammar, k: nat, ghost c: Cursor, ghost h: Look,
                   f: Found, reach: nat, rematch: Rematch?)
    returns (wrapped: Node, pos: nat)
    requires LegalGrammar(g) && k < |g.patterns| && text != ""
    requires list.Valid() && Inv(text, c.ps) && c.ps == list.pieces
    requires h.Hit? && GoodHit(text, c.ps, h) && Agrees(text, list, h, f)
    requires reach == h.pos + h.span && ReachOf(rematch) == Extend(c.reach, reach)
    modifies list, list.Nodes(), rematch
    ensures list.Valid()
    ensures list.pieces == SpliceAndRematch(text, g, k, c.ps, h, c.reach).ps
    ensures ReachOf(rematch) == SpliceAndRematch(text, g, k, c.ps, h, c.reach).reach
    ensures pos == h.pos + h.at
    ensures TokenIndex(h) < |list.pieces| && wrapped == list.chain[TokenIndex(h) + 1]
    ensures SameUpTo(list.chain, old(list.chain), h.i + 1)
    ensures forall x :: x in list.chain ==> x in old(list.chain) || fresh(x)
    decreases g, k, 0, k + 3, 0, 0
  {
    var n := f.n;
    ghost var chain0 := list.chain;
    wrapped, pos := SpliceMatch(text, list, g, k, c.ps, h, f);
    ghost var chain1 := list.chain;
    RematchNodes(text, list, g, k, wrapped, c, h, pos, n, reach, rematch);
    FrontKept(list.chain, chain1, chain0, h);
  }

  /** The front and the new Token's node survive the re-match. */
  lemma FrontKept<T>(a: seq<T>, b: seq<T>, c: seq<T>, h: Look)
    requires h.Hit? && SameUpTo(a, b, TokenIndex(h) + 2) && SameUpTo(b, c, h.i + 1)
    ensures SameUpTo(a, c, h.i + 1) && a[TokenIndex(h) + 1] == b[TokenIndex(h) + 1]
  {
    SameShorter(a, b, TokenIndex(h) + 2, h.i + 1);
    SameTwice(a, b, c, TokenIndex(h) + 2, h.i + 1);
  }

  /** Make the new Token and splice it in. */
  method SpliceMatch(text: string, list: TokenList, g: Grammar, k: nat, ghost ps: seq<Piece>, ghost h: Look, f: Found)
    returns (wrapped: Node, pos: nat)
    requires LegalGrammar(g) && k < |g.patterns| && text != ""
    requires list.Valid() && Inv(text, ps) && ps == list.pieces
    requires h.Hit? && GoodHit(text, ps, h) && Agrees(text, list, h, f)
    modifies list, list.Nodes()
    ensures list.Valid() && list.pieces == Splice(text, ps, h, NewToken(g.patterns[k], h.matched))
    ensures Inv(text, list.pieces) && At(list.pieces, TokenIndex(h), pos) && pos == h.pos + h.at
    ensures TokenIndex(h) < |list.pieces| && list.pieces[TokenIndex(h)] == NewToken(g.patterns[k], h.matched)
    ensures wrapped == list.chain[TokenIndex(h) + 1]
    ensures SameUpTo(list.chain, old(list.chain), h.i + 1)
    ensures forall x :: x in list.chain ==> x in old(list.chain) || fresh(x)
    decreases g, k, 0, 0, 0, 0
  {
    var tok := MakeToken(g.patterns[k], f.matched);
    var before, after := f.str[..f.at], f.str[f.at + |f.matched|..];
    SplicePlan(text, ps, h, tok, before, after);
    wrapped := SpliceNodes(list, f.node, h.i, f.n, before, tok, after);
    pos := f.pos + |before|;
  }

  method Tokenize(text: string, g: Grammar) returns (ps: seq<Piece>)
    requires LegalGrammar(g)
    ensures ps == TokenizeSpec(text, g)
    decreases g, |g.patterns| + 1, 0, 0, 0, 0
  {
    var list := new TokenList();
    SourceOne(Text(text));
    var _ := list.AddAfter(list.head, 0, Text(text));
    assert list.pieces == [Text(text)];
    var _ := MatchPatterns(text, list, g, |g.patterns|, list.head, 0, 0, null);
    ps := Collect(list);
  }

  /** The values from head to tail. */
  method Collect(list: TokenList) returns (ps: seq<Piece>)
    requires list.Valid()
    ensures ps == list.pieces
  {
    ps := [];
    var t := list.head.next;
    while t != list.tail
      invariant |ps| <= |list.pieces| && ps == list.pieces[..|ps|] && t == list.chain[|ps| + 1]
      decreases |list.pieces| - |ps|
    {
      list.NodeOf(|ps|);
      ps, t := ps + [t.value.value], t.next;
    }
  }
}
