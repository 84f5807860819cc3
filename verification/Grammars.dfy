/** Prism grammars. A grammar is the list of its patterns in enumeration order;
    each pattern knows the object key it is listed under and its slot in that
    key's array. The regular-expression engine is an oracle held by the pattern. */
module Grammars {
  import opened Wrappers

  /** What `RegExp.exec` returns: `group1` is the first capture, "" when absent. */
  datatype Exec = Exec(index: nat, whole: string, group1: string)

  datatype Pattern = Pattern(
    key: string, slot: nat, exec: (string, nat) -> Option<Exec>,
    lookbehind: bool, greedy: bool, inside: Option<Grammar>, alias: seq<string>)

  datatype Grammar = Grammar(patterns: seq<Pattern>)

  /** The string "key,slot" that names a pattern in a re-match, as a pair. */
  datatype Cause = Cause(key: string, slot: nat)

  function CauseOf(p: Pattern): Cause { Cause(p.key, p.slot) }

  /** A match after the lookbehind group has been cut off its front. */
  datatype Match = Match(index: nat, matched: string)

  /** One answer of an oracle asked to search `text` from `start`. */
  ghost predicate LegalExec(text: string, start: nat, r: Option<Exec>) {
    r.Some? ==>
      && start <= r.value.index
      && r.value.index + |r.value.whole| <= |text|
      && text[r.value.index..r.value.index + |r.value.whole|] == r.value.whole
      && |r.value.group1| <= |r.value.whole|
  }

  ghost predicate Legal(p: Pattern) {
    forall text: string, start: nat {:trigger p.exec(text, start)} ::
      start <= |text| ==> LegalExec(text, start, p.exec(text, start))
  }

  /** Every oracle is legal and no two patterns share key and slot, at every depth. */
  ghost predicate LegalGrammar(g: Grammar)
    decreases g
  {
    && (forall i :: 0 <= i < |g.patterns| ==> Legal(g.patterns[i]))
    && (forall i, j :: 0 <= i < j < |g.patterns| ==> CauseOf(g.patterns[i]) != CauseOf(g.patterns[j]))
    && (forall i :: 0 <= i < |g.patterns| && g.patterns[i].inside.Some? ==> LegalGrammar(g.patterns[i].inside.value))
  }

  /** matchPattern: run the oracle, then drop the lookbehind group. */
  function MatchPattern(p: Pattern, start: nat, text: string): (r: Option<Match>)
    requires start <= |text| && Legal(p)
    ensures r.Some? ==>
      && start <= r.value.index
      && r.value.index + |r.value.matched| <= |text|
      && text[r.value.index..r.value.index + |r.value.matched|] == r.value.matched
  {
    match p.exec(text, start)
    case None => None
    case Some(e) =>
      assert LegalExec(text, start, p.exec(text, start));
      if p.lookbehind && e.group1 != "" then Some(Match(e.index + |e.group1|, e.whole[|e.group1|..]))
      else Some(Match(e.index, e.whole))
  }

  /** There is a match exactly when the engine finds one. It ends where that ends, and is
      shorter by the first group if the pattern has a lookbehind, and by nothing if not. */
  lemma MatchMeans(p: Pattern, start: nat, text: string)
    requires start <= |text| && Legal(p)
    ensures var m, e := MatchPattern(p, start, text), p.exec(text, start);
      && (m.Some? <==> e.Some?)
      && (m.Some? ==>
            && m.value.index + |m.value.matched| == e.value.index + |e.value.whole|
            && |e.value.whole| - |m.value.matched| == if p.lookbehind then |e.value.group1| else 0)
  {
    assert LegalExec(text, start, p.exec(text, start));
  }
}
