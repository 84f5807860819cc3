/** Trimming and splitting, with the inverse laws the text formats rest on. */
module Strings {

  /** unicode.IsSpace. */
  predicate Space(c: char) {
    || '\t' <= c <= '\r' || c == ' ' || c == '\U{0085}' || c == '\U{00A0}' || c == '\U{1680}'
    || '\U{2000}' <= c <= '\U{200A}' || c == '\U{2028}' || c == '\U{2029}' || c == '\U{202F}'
    || c == '\U{205F}' || c == '\U{3000}'
  }

  function TrimLeft(s: string, cut: char -> bool): string {
    if s != "" && cut(s[0]) then TrimLeft(s[1..], cut) else s
  }

  function TrimRight(s: string, cut: char -> bool): string {
    if s != "" && cut(s[|s| - 1]) then TrimRight(s[..|s| - 1], cut) else s
  }

  function Trim(s: string, cut: char -> bool): string {
    TrimRight(TrimLeft(s, cut), cut)
  }

  predicate All(s: string, f: char -> bool) {
    forall i :: 0 <= i < |s| ==> f(s[i])
  }

  /** Neither end is cut; the empty string has no ends. */
  predicate Bare(s: string, cut: char -> bool) {
    s == "" || (!cut(s[0]) && !cut(s[|s| - 1]))
  }

  lemma {:induction false} TrimLeftDrops(pre: string, s: string, cut: char -> bool)
    requires All(pre, cut) && (s == "" || !cut(s[0]))
    ensures TrimLeft(pre + s, cut) == s
  {
    if pre == "" {
      assert pre + s == s;
    } else {
      TrimLeftDrops(pre[1..], s, cut);
      assert (pre + s)[1..] == pre[1..] + s;
    }
  }

  lemma {:induction false} TrimRightDrops(s: string, post: string, cut: char -> bool)
    requires All(post, cut) && (s == "" || !cut(s[|s| - 1]))
    ensures TrimRight(s + post, cut) == s
  {
    if post == "" {
      assert s + post == s;
    } else {
      TrimRightDrops(s, post[..|post| - 1], cut);
      assert (s + post)[..|s + post| - 1] == s + post[..|post| - 1];
    }
  }

  /** Trimming takes off exactly what was put around a bare text. */
  lemma TrimDrops(pre: string, s: string, post: string, cut: char -> bool)
    requires All(pre, cut) && All(post, cut) && s != "" && Bare(s, cut)
    ensures Trim(pre + s + post, cut) == s
  {
    assert pre + s + post == pre + (s + post);
    TrimLeftDrops(pre, s + post, cut);
    TrimRightDrops(s, post, cut);
  }

  lemma TrimKeeps(s: string, cut: char -> bool)
    requires Bare(s, cut)
    ensures Trim(s, cut) == s
  {}

  /** What is left after a trim: a stretch of the text with bare ends. */
  lemma {:induction false} TrimLeftIsSuffix(s: string, cut: char -> bool) returns (k: nat)
    ensures k <= |s| && TrimLeft(s, cut) == s[k..] && (k < |s| ==> !cut(s[k])) && All(s[..k], cut)
  {
    if s != "" && cut(s[0]) {
      k := TrimLeftIsSuffix(s[1..], cut);
      k := k + 1;
    } else {
      k := 0;
    }
  }

  lemma {:induction false} TrimRightIsPrefix(s: string, cut: char -> bool) returns (k: nat)
    ensures k <= |s| && TrimRight(s, cut) == s[..k] && (k > 0 ==> !cut(s[k - 1])) && All(s[k..], cut)
  {
    if s != "" && cut(s[|s| - 1]) {
      k := TrimRightIsPrefix(s[..|s| - 1], cut);
      assert s[k..] == s[..|s| - 1][k..] + [s[|s| - 1]];
    } else {
      k := |s|;
    }
  }

  lemma TrimIsBare(s: string, cut: char -> bool) returns (lo: nat, hi: nat)
    ensures lo <= hi <= |s| && Trim(s, cut) == s[lo..hi] && Bare(Trim(s, cut), cut)
  {
    lo := TrimLeftIsSuffix(s, cut);
    var k := TrimRightIsPrefix(s[lo..], cut);
    hi := lo + k;
    assert s[lo..][..k] == s[lo..hi];
  }

  /** What a trim takes off on either side. */
  lemma TrimTakes(s: string, cut: char -> bool) returns (pre: string, post: string)
    ensures s == pre + Trim(s, cut) + post && All(pre, cut) && All(post, cut)
  {
    var lo := TrimLeftIsSuffix(s, cut);
    var k := TrimRightIsPrefix(s[lo..], cut);
    pre, post := s[..lo], s[lo..][k..];
    assert s == pre + s[lo..] && s[lo..] == s[lo..][..k] + post;
  }

  /** Trimming may eat no character that is not cut. */
  lemma TrimNonEmpty(s: string, i: nat, cut: char -> bool)
    requires i < |s| && !cut(s[i])
    ensures Trim(s, cut) != ""
  {
    TrimLeftKeeps(s, i, cut);
    var k := TrimLeftIsSuffix(s, cut);
    TrimRightKeeps(s[k..], i - k, cut);
  }

  lemma {:induction false} TrimLeftKeeps(s: string, i: nat, cut: char -> bool)
    requires i < |s| && !cut(s[i])
    ensures |TrimLeft(s, cut)| >= |s| - i
  {
    if cut(s[0]) { TrimLeftKeeps(s[1..], i - 1, cut); }
  }

  lemma {:induction false} TrimRightKeeps(s: string, i: nat, cut: char -> bool)
    requires i < |s| && !cut(s[i])
    ensures |TrimRight(s, cut)| > i
  {
    if cut(s[|s| - 1]) { TrimRightKeeps(s[..|s| - 1], i, cut); }
  }

  /** Where `c` first stands in `s`, or |s|. */
  function Index(s: string, c: char): (k: nat)
    ensures k <= |s| && c !in s[..k] && (k < |s| ==> s[k] == c)
  {
    if s == "" || s[0] == c then 0
    else
      assert c !in s[1..][..Index(s[1..], c)];
      assert s[..1 + Index(s[1..], c)] == [s[0]] + s[1..][..Index(s[1..], c)];
      1 + Index(s[1..], c)
  }

  function Split(s: string, c: char): (pieces: seq<string>)
    ensures |pieces| > 0
    decreases |s|
  {
    var k := Index(s, c);
    if k == |s| then [s] else [s[..k]] + Split(s[k + 1..], c)
  }

  predicate Without(pieces: seq<string>, c: char) {
    forall i :: 0 <= i < |pieces| ==> c !in pieces[i]
  }

  function Join(pieces: seq<string>, c: char): string
    requires |pieces| > 0
  {
    if |pieces| == 1 then pieces[0] else pieces[0] + [c] + Join(pieces[1..], c)
  }

  lemma {:induction false} IndexOfAppend(s: string, c: char, t: string)
    requires c !in s
    ensures Index(s + [c] + t, c) == |s|
  {
    if s == "" {
      assert s + [c] + t == [c] + t;
    } else {
      assert s[0] in s;
      IndexOfAppend(s[1..], c, t);
      assert (s + [c] + t)[1..] == s[1..] + [c] + t;
    }
  }

  lemma {:induction false} IndexAbsent(s: string, c: char)
    requires c !in s
    ensures Index(s, c) == |s|
  {
    if s != "" {
      assert s[0] in s;
      IndexAbsent(s[1..], c);
    }
  }

  lemma {:induction false} SplitJoin(pieces: seq<string>, c: char)
    requires |pieces| > 0 && Without(pieces, c)
    ensures Split(Join(pieces, c), c) == pieces
    decreases |pieces|
  {
    if |pieces| == 1 {
      IndexAbsent(pieces[0], c);
      assert pieces == [pieces[0]];
    } else {
      var rest := Join(pieces[1..], c);
      SplitHead(pieces[0], c, rest);
      SplitJoin(pieces[1..], c);
      assert pieces == [pieces[0]] + pieces[1..];
    }
  }

  lemma SplitHead(s: string, c: char, rest: string)
    requires c !in s
    ensures Split(s + [c] + rest, c) == [s] + Split(rest, c)
  {
    IndexOfAppend(s, c, rest);
    CutAt(s, c, rest);
  }

  lemma CutAt(s: string, c: char, rest: string)
    ensures (s + [c] + rest)[..|s|] == s && (s + [c] + rest)[|s| + 1..] == rest
  {}

  lemma {:induction false} JoinSplit(s: string, c: char)
    ensures Join(Split(s, c), c) == s && Without(Split(s, c), c)
    decreases |s|
  {
    var k := Index(s, c);
    if k < |s| {
      JoinSplit(s[k + 1..], c);
      assert s == s[..k] + [c] + s[k + 1..];
      assert Split(s, c)[1..] == Split(s[k + 1..], c);
    }
  }
}
