/** The values a token list holds: plain strings and Tokens, the source text
    they stand for, and the invariant every token list keeps. */
module Pieces {
  import opened Lists

  /** A node value: a string, or a Token(type, content, alias, matched length). */
  datatype Piece =
    | Text(s: string)
    | Token(kind: string, content: Content, alias: seq<string>, length: nat)

  datatype Content = Plain(s: string) | Nested(parts: seq<Piece>)

  /** JavaScript's `value.length`: of a string, or the field of a Token. */
  function Length(p: Piece): nat {
    match p
    case Text(s) => |s|
    case Token(_, _, _, n) => n
  }

  /** The source text a piece stands for. */
  function Source(p: Piece): string
    decreases p, 1
  {
    match p
    case Text(s) => s
    case Token(_, c, _, _) => ContentSource(c)
  }

  function ContentSource(c: Content): string
    decreases c, 1
  {
    match c
    case Plain(s) => s
    case Nested(parts) => SourceAll(parts)
  }

  function SourceAll(ps: seq<Piece>): string
    decreases ps, 0
  {
    if ps == [] then "" else Source(ps[0]) + SourceAll(ps[1..])
  }

  /** A Token's length is that of its source, at every depth. */
  ghost predicate Exact(p: Piece)
    decreases p, 1
  {
    match p
    case Text(_) => true
    case Token(_, c, _, n) =>
      && n == |Source(p)|
      && match c { case Plain(_) => true case Nested(parts) => AllExact(parts) }
  }

  ghost predicate AllExact(ps: seq<Piece>)
    decreases ps, 0
  {
    forall i :: 0 <= i < |ps| ==> Exact(ps[i])
  }

  ghost predicate NoAdjacentText(ps: seq<Piece>) {
    forall i :: 0 < i < |ps| ==> ps[i - 1].Token? || ps[i].Token?
  }

  ghost predicate NoEmptyText(ps: seq<Piece>) {
    forall i :: 0 <= i < |ps| && ps[i].Text? ==> ps[i].s != ""
  }

  /** What every token list over `text` satisfies. */
  ghost predicate Inv(text: string, ps: seq<Piece>) {
    && SourceAll(ps) == text
    && AllExact(ps)
    && NoAdjacentText(ps)
    && (text != "" ==> NoEmptyText(ps))
  }

  /** `pos` is where the piece at index `i` starts in the source text. */
  ghost predicate At(ps: seq<Piece>, i: nat, pos: nat) {
    i <= |ps| && pos == |SourceAll(ps[..i])|
  }

  lemma {:induction false} SourceAppend(a: seq<Piece>, b: seq<Piece>)
    ensures SourceAll(a + b) == SourceAll(a) + SourceAll(b)
  {
    if a == [] {
      assert a + b == b;
    } else {
      SourceAppend(a[1..], b);
      HeadAndRest(a, b);
      Regroup(Source(a[0]), SourceAll(a[1..]), SourceAll(b));
    }
  }

  lemma SourceOne(p: Piece)
    ensures SourceAll([p]) == Source(p)
  {
    assert [p][1..] == [];
  }

  lemma SourceSplit(ps: seq<Piece>, i: nat)
    requires i <= |ps|
    ensures SourceAll(ps) == SourceAll(ps[..i]) + SourceAll(ps[i..])
  {
    Divided(ps, i);
    SourceAppend(ps[..i], ps[i..]);
  }

  /** Stepping over one piece moves the position by that piece's length. */
  lemma AtNext(ps: seq<Piece>, i: nat, pos: nat)
    requires i < |ps| && At(ps, i, pos) && Exact(ps[i])
    ensures At(ps, i + 1, pos + Length(ps[i]))
    ensures pos + Length(ps[i]) <= |SourceAll(ps)|
    ensures i + 1 == |ps| ==> pos + Length(ps[i]) == |SourceAll(ps)|
  {
    SourceAppend(ps[..i], [ps[i]]);
    SourceOne(ps[i]);
    assert ps[..i] + [ps[i]] == ps[..i + 1];
    SourceSplit(ps, i + 1);
    if i + 1 == |ps| { assert ps[..i + 1] == ps; }
  }

  /** The pieces i..j cover exactly the text between their positions. */
  lemma Covered(ps: seq<Piece>, i: nat, pos: nat, j: nat, end: nat)
    requires i <= j && At(ps, i, pos) && At(ps, j, end)
    ensures pos <= end <= |SourceAll(ps)|
    ensures SourceAll(ps)[pos..end] == SourceAll(ps[i..j])
  {
    SourceAppend(ps[..i], ps[i..j]);
    assert ps[..i] + ps[i..j] == ps[..j];
    SourceSplit(ps, j);
  }
}
