/** Sequences put together and taken apart, and the skipping loop, where each source
    gives no element or one. */
module Lists {

  lemma Regroup<T>(a: seq<T>, b: seq<T>, c: seq<T>)
    ensures a + (b + c) == a + b + c
  {}

  lemma Divided<T>(s: seq<T>, i: nat)
    requires i <= |s|
    ensures s[..i] + s[i..] == s
  {}

  lemma HeadAndRest<T>(a: seq<T>, b: seq<T>)
    requires a != []
    ensures (a + b)[0] == a[0] && (a + b)[1..] == a[1..] + b
  {}

  function FlatMap<A, B>(f: A -> seq<B>, xs: seq<A>): seq<B> {
    if xs == [] then [] else f(xs[0]) + FlatMap(f, xs[1..])
  }

  ghost predicate AtMostOne<A(!new), B>(f: A -> seq<B>) {
    forall x :: |f(x)| <= 1
  }

  /** `from` names the source of every kept element, in order; every other source
      gave nothing. */
  ghost predicate Picks<A, B>(f: A -> seq<B>, xs: seq<A>, ys: seq<B>, from: seq<nat>) {
    && |from| == |ys|
    && (forall i :: 0 <= i < |from| ==> from[i] < |xs| && f(xs[from[i]]) == [ys[i]])
    && (forall i, j :: 0 <= i < j < |from| ==> from[i] < from[j])
    && (forall k :: 0 <= k < |xs| && k !in from ==> f(xs[k]) == [])
  }

  lemma {:induction false} FlatMapAppend<A, B>(f: A -> seq<B>, a: seq<A>, b: seq<A>)
    ensures FlatMap(f, a + b) == FlatMap(f, a) + FlatMap(f, b)
  {
    if a == [] {
      assert a + b == b;
    } else {
      FlatMapAppend(f, a[1..], b);
      assert (a + b)[1..] == a[1..] + b;
    }
  }

  lemma PicksSkip<A, B>(f: A -> seq<B>, xs: seq<A>, x: A, ys: seq<B>, from: seq<nat>)
    requires Picks(f, xs, ys, from) && f(x) == []
    ensures Picks(f, xs + [x], ys, from)
  {
    forall k | 0 <= k < |xs + [x]| && k !in from ensures f((xs + [x])[k]) == [] { }
  }

  lemma PicksTake<A, B>(f: A -> seq<B>, xs: seq<A>, x: A, ys: seq<B>, y: B, from: seq<nat>)
    requires Picks(f, xs, ys, from) && f(x) == [y]
    ensures Picks(f, xs + [x], ys + [y], from + [|xs|])
  {
    var all, more := xs + [x], from + [|xs|];
    assert more[|from|] == |xs|;
    forall k | 0 <= k < |all| && k !in more ensures f(all[k]) == [] {
      assert k !in from by { assert from == more[..|from|]; }
    }
  }

  /** Nothing is reordered, and nothing dropped that gives an element. */
  lemma {:induction false} FlatMapPicks<A(!new), B>(f: A -> seq<B>, xs: seq<A>) returns (from: seq<nat>)
    requires AtMostOne(f)
    ensures Picks(f, xs, FlatMap(f, xs), from)
    decreases |xs|
  {
    if xs == [] {
      from := [];
    } else {
      var front, x := xs[..|xs| - 1], xs[|xs| - 1];
      from := FlatMapPicks(f, front);
      from := PicksOneMore(f, front, x, FlatMap(f, front), from);
      assert xs == front + [x];
      FlatMapAppend(f, front, [x]);
      FlatMapOne(f, x);
    }
  }

  lemma FlatMapOne<A, B>(f: A -> seq<B>, x: A)
    ensures FlatMap(f, [x]) == f(x)
  {}

  lemma PicksOneMore<A, B>(f: A -> seq<B>, xs: seq<A>, x: A, ys: seq<B>, from: seq<nat>) returns (more: seq<nat>)
    requires Picks(f, xs, ys, from) && |f(x)| <= 1
    ensures Picks(f, xs + [x], ys + f(x), more)
  {
    if f(x) == [] {
      PicksSkip(f, xs, x, ys, from);
      assert ys + f(x) == ys;
      more := from;
    } else {
      PicksTake(f, xs, x, ys, f(x)[0], from);
      assert f(x) == [f(x)[0]];
      more := from + [|xs|];
    }
  }

  lemma {:induction false} FlatMapLength<A(!new), B>(f: A -> seq<B>, xs: seq<A>)
    requires AtMostOne(f)
    ensures |FlatMap(f, xs)| <= |xs|
  {
    if xs != [] { FlatMapLength(f, xs[1..]); }
  }

  /** As many as there are sources means one from each. */
  lemma {:induction false} FlatMapFull<A(!new), B>(f: A -> seq<B>, xs: seq<A>, ys: seq<B>)
    requires AtMostOne(f) && |xs| == |ys|
    ensures FlatMap(f, xs) == ys <==> forall i :: 0 <= i < |xs| ==> f(xs[i]) == [ys[i]]
    decreases |xs|
  {
    if xs != [] {
      FlatMapLength(f, xs[1..]);
      FlatMapFull(f, xs[1..], ys[1..]);
      assert ys == [ys[0]] + ys[1..];
      assert forall i :: 1 <= i < |xs| ==> xs[i] == xs[1..][i - 1] && ys[i] == ys[1..][i - 1];
    }
  }
}
