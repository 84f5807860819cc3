/** What a fetch can do on Redis that comes in before its id is published: read a burn
    paste between the two transactions of its Save, without its flags and without
    burning it, so that it is shared. Publication is the exact condition. */
module RedisEarlyFetch {
  import opened RedisEarlyDelete
  import opened RedisMachine
  import opened RedisRuns
  import opened RedisSafety
  import opened Wrappers

  /** A fetch of `id` comes in. */
  function Reads(r: Tid, id: Id, known: bool): Label {
    Arrive(r, Fetch(id, known, Peeking))
  }

  /** Two calls of one fetch on a hash that holds content alone. */
  lemma ReadsContentAlone(protectedOn: bool, s: State, r: Tid, id: Id, known: bool, paste: Paste) returns (k: State)
    requires r in s.threads && s.threads[r] == Fetch(id, known, Peeking)
    requires id in s.hashes && s.hashes[id] == Hash(Some(paste.content), None, None)
    ensures Leads(protectedOn, s, [Run(r, false), Run(r, false)], k)
    ensures k == s.(threads := s.threads[r := Fetch(id, known, Fetched(Some(Paste(paste.content, NO_META))))])
  {
    var s1 := s.(threads := s.threads[r := Fetch(id, known, Getting(true))]);
    assert Next(protectedOn, s, Run(r, false)) == s1;
    k := Next(protectedOn, s1, Run(r, false));
    LeadsOne(protectedOn, s1, Run(r, false));
    LeadsFrom(protectedOn, s, Run(r, false), [Run(r, false)], k);
  }

  /** A fetch of a published live burn paste from its arrival. */
  lemma ReadsAndBurns(protectedOn: bool, s: State, v: Tid, id: Id, paste: Paste) returns (k: State)
    requires v !in s.threads && Published(s, id) && PasteOf(Live(s, id)) == Some(paste) &&
      Live(s, id).meta == Some(paste.meta)
    requires paste.meta.burn
    ensures Leads(protectedOn, s, [Reads(v, id, true), Run(v, false), Run(v, false)], k)
    ensures k.threads == s.threads[v := Fetch(id, true, Fetched(Some(paste)))] && k.ever == s.ever
  {
    var s1 := s.(threads := s.threads[v := Fetch(id, true, Peeking)]);
    var s2 := s.(threads := s.threads[v := Fetch(id, true, Taking)]);
    assert Next(protectedOn, s1, Run(v, false)) == s2;
    k := Next(protectedOn, s2, Run(v, false));
    LeadsOne(protectedOn, s2, Run(v, false));
    LeadsFrom(protectedOn, s1, Run(v, false), [Run(v, false)], k);
    LeadsFrom(protectedOn, s, Reads(v, id, true), [Run(v, false), Run(v, false)], k);
  }

  /** Two readers hold one burn paste: `r` its content without flags, `v`, who read what
      was published, all of it. */
  ghost predicate SharedWhole(k: State, id: Id, paste: Paste, r: Tid, v: Tid) {
    && r != v && Got(k, r, id, Paste(paste.content, NO_META))
    && Got(k, v, id, paste) && k.threads[v].known && Published(k, id)
    && id in k.ever && k.ever[id].paste == paste && paste.meta.burn
  }

  /** The gate, the early read, the second transaction, the published read. */
  function Sharing(id: Id, paste: Paste, ttl: int, u: Tid, r: Tid, v: Tid): seq<Label> {
    [Arrive(u, Save(id, paste, ttl, Gate)), Run(u, false)] + [Run(r, false), Run(r, false)]
    + ([Run(u, false)] + [Reads(v, id, true), Run(v, false), Run(v, false)])
  }

  /** The Save completes, and the next reader burns the paste. */
  lemma FillAndBurn(protectedOn: bool, s: State, id: Id, paste: Paste, ttl: int, u: Tid, v: Tid) returns (k: State)
    requires u in s.threads && s.threads[u] == Save(id, paste, ttl, Fill) && v !in s.threads && paste.meta.burn
    requires id in s.hashes && s.hashes[id] == Hash(Some(paste.content), None, None)
    ensures Leads(protectedOn, s, [Run(u, false)] + [Reads(v, id, true), Run(v, false), Run(v, false)], k)
    ensures k.threads == s.threads[u := Save(id, paste, ttl, Saved(201))][v := Fetch(id, true, Fetched(Some(paste)))]
    ensures k.ever == s.ever
  {
    var m := Next(protectedOn, s, Run(u, false));
    assert m.threads[u] == Save(id, paste, ttl, Saved(201)) &&
      m.threads == s.threads[u := Save(id, paste, ttl, Saved(201))];
    k := ReadsAndBurns(protectedOn, m, v, id, paste);
    LeadsFrom(protectedOn, s, Run(u, false), [Reads(v, id, true), Run(v, false), Run(v, false)], k);
  }

  /** Main result: from every reachable state, a fetch of an id nobody has saved can be
      followed by steps after which it shares any given burn paste with a reader of
      what was published. */
  lemma EarlyFetchSharesBurn(protectedOn: bool, now: int, before: seq<Label>, id: Id, paste: Paste, ttl: int,
                             r: Tid, u: Tid, v: Tid)
    requires Legal(protectedOn, Init(now), before) && paste.meta.burn && r != u && u != v && v != r
    requires var s := After(protectedOn, Init(now), before);
      id !in s.ever && r !in s.threads && u !in s.threads && v !in s.threads
    ensures exists run, k ::
      && Leads(protectedOn, After(protectedOn, Init(now), before), [Reads(r, id, false)] + run, k)
      && SharedWhole(k, id, paste, r, v)
  {
    var s := After(protectedOn, Init(now), before);
    RunRooted(protectedOn, Init(now), before);
    assert !Published(s, id);
    var s1 := Next(protectedOn, s, Reads(r, id, false));
    var k := SharesFrom(protectedOn, s1, id, paste, ttl, r, u, v);
    LeadsFrom(protectedOn, s, Reads(r, id, false), Sharing(id, paste, ttl, u, r, v), k);
  }

  lemma SharesFrom(protectedOn: bool, s: State, id: Id, paste: Paste, ttl: int, r: Tid, u: Tid, v: Tid)
    returns (k: State)
    requires Rooted(s) && id !in s.ever && paste.meta.burn && r != u && u != v && v != r
    requires r in s.threads && s.threads[r] == Fetch(id, false, Peeking) && u !in s.threads && v !in s.threads
    ensures Leads(protectedOn, s, Sharing(id, paste, ttl, u, r, v), k) && SharedWhole(k, id, paste, r, v)
  {
    var gate, read := [Arrive(u, Save(id, paste, ttl, Gate)), Run(u, false)], [Run(r, false), Run(r, false)];
    var burn := [Run(u, false)] + [Reads(v, id, true), Run(v, false), Run(v, false)];
    var g := GateOpens(protectedOn, s, id, paste, ttl, u);
    var m := ReadsContentAlone(protectedOn, g, r, id, false, paste);
    k := FillAndBurn(protectedOn, m, id, paste, ttl, u, v);
    LeadsOnward(protectedOn, s, gate, g, read, m);
    LeadsOnward(protectedOn, s, gate + read, m, burn, k);
    assert k.threads[u] == Save(id, paste, ttl, Saved(201)) && k.ever[id] == Origin(paste, ttl, u);
    assert k.threads[r] == m.threads[r];
  }

  // The exact condition.

  ghost predicate FetchesKnown(s: State, id: Id) {
    forall t :: t in s.threads && s.threads[t].Fetch? && s.threads[t].id == id ==> s.threads[t].known
  }

  /** Reader `r` and some other one hold the paste of `id`, and it is to be burned. */
  ghost predicate Shared(k: State, id: Id, r: Tid) {
    && id in k.ever && k.ever[id].paste.meta.burn
    && exists v, p, q :: v != r && Got(k, r, id, p) && Got(k, v, id, q)
  }

  /** A fetch of `id` that comes in as thread `r` can end up sharing a burn paste. */
  ghost predicate MayShare(protectedOn: bool, s: State, id: Id, r: Tid) {
    exists run, k :: Leads(protectedOn, s, [Reads(r, id, Published(s, id))] + run, k) && Shared(k, id, r)
  }

  /** The paste of an id never changes once its gate has been passed. */
  lemma {:induction false} EverStays(protectedOn: bool, s: State, run: seq<Label>, id: Id)
    requires Legal(protectedOn, s, run) && id in s.ever
    ensures var k := After(protectedOn, s, run); id in k.ever && k.ever[id] == s.ever[id]
    decreases |run|
  {
    if run != [] { EverStays(protectedOn, Next(protectedOn, s, run[0]), run[1..], id); }
  }

  lemma StepKnown(protectedOn: bool, s: State, l: Label, id: Id)
    requires Enabled(s, l) && Published(s, id) && DeletesKnown(s, id) && FetchesKnown(s, id)
    ensures var s' := Next(protectedOn, s, l); Published(s', id) && DeletesKnown(s', id) && FetchesKnown(s', id)
  {
    var s' := Next(protectedOn, s, l);
    StepPublished(protectedOn, s, l, id);
    forall t | t in s'.threads && s'.threads[t].Fetch? && s'.threads[t].id == id ensures s'.threads[t].known {
      if l.Run? && l.t == t { FetchKeepsKnown(protectedOn, s, s.threads[t], l.fault); }
    }
  }

  lemma FetchKeepsKnown(protectedOn: bool, s: State, thread: Thread, fault: bool)
    ensures var next := ThreadStep(protectedOn, s, thread, fault).0;
      next.id == thread.id && (next.Fetch? <==> thread.Fetch?) && (next.Fetch? ==> next.known == thread.known)
  {}

  lemma {:induction false} KnownAlong(protectedOn: bool, s: State, run: seq<Label>, id: Id)
    requires Legal(protectedOn, s, run) && Published(s, id) && DeletesKnown(s, id) && FetchesKnown(s, id)
    ensures var k := After(protectedOn, s, run); DeletesKnown(k, id) && FetchesKnown(k, id)
    decreases |run|
  {
    if run != [] {
      StepKnown(protectedOn, s, run[0], id);
      KnownAlong(protectedOn, Next(protectedOn, s, run[0]), run[1..], id);
    }
  }

  lemma KnownSharesNone(protectedOn: bool, now: int, before: seq<Label>, id: Id, r: Tid, run: seq<Label>, k: State)
    requires RunFor(protectedOn, now, before, id)
    requires var s := After(protectedOn, Init(now), before); Published(s, id) && FetchesKnown(s, id)
    requires Leads(protectedOn, After(protectedOn, Init(now), before), run, k)
    ensures !Shared(k, id, r)
  {
    var s := After(protectedOn, Init(now), before);
    KnownAlong(protectedOn, s, run, id);
    LeadsOnward(protectedOn, Init(now), before, s, run, k);
    forall v, p, q | v != r && Got(k, r, id, p) && Got(k, v, id, q) && id in k.ever && k.ever[id].paste.meta.burn
      ensures false
    {
      BurnAtMostOnce(protectedOn, now, before + run, id, r, p, v, q);
    }
  }

  /** Content alone, of a paste to be burned: two that guessed the id share it. */
  lemma UnpublishedShares(protectedOn: bool, s: State, id: Id, r: Tid, v: Tid)
    requires Inv(protectedOn, s, id) && id in s.ever && id !in s.filled && !Published(s, id) &&
      s.ever[id].paste.meta.burn
    requires r !in s.threads && v !in s.threads && r != v
    ensures MayShare(protectedOn, s, id, r)
  {
    var paste := s.ever[id].paste;
    var s1 := Next(protectedOn, s, Reads(r, id, false));
    var m := ReadsContentAlone(protectedOn, s1, r, id, false, paste);
    var m1 := Next(protectedOn, m, Reads(v, id, false));
    PublishedBefore(s, m, id, r);
    var k := ReadsContentAlone(protectedOn, m1, v, id, false, paste);
    var once, twice := [Run(r, false), Run(r, false)], [Run(v, false), Run(v, false)];
    LeadsFrom(protectedOn, m, Reads(v, id, false), twice, k);
    LeadsOnward(protectedOn, s1, once, m, [Reads(v, id, false)] + twice, k);
    LeadsFrom(protectedOn, s, Reads(r, id, false), once + ([Reads(v, id, false)] + twice), k);
    assert Got(k, r, id, Paste(paste.content, NO_META)) && Got(k, v, id, Paste(paste.content, NO_META));
    assert Shared(k, id, r);
  }

  /** A reader publishes nothing. */
  lemma PublishedBefore(s: State, m: State, id: Id, r: Tid)
    requires r in m.threads && m.threads[r].Fetch? && m.threads == s.threads[r := m.threads[r]]
    ensures Published(m, id) ==> Published(s, id)
  {
    if Published(m, id) {
      var t :| t in m.threads && m.threads[t].Save? && m.threads[t].id == id && m.threads[t].spc == Saved(201);
      assert t in s.threads && s.threads[t] == m.threads[t];
    }
  }

  const BURN_PASTE := Paste([7], Meta(true, false, false, false, "text"))

  /** Main result: for every id whose earlier fetches and DELETEs were known, a newly
      arriving fetch can end up sharing a burn paste if and only if the id is not
      published, and the paste that passed its gate, if any did, is to be burned. */
  lemma PublicationIsExact(protectedOn: bool, now: int, before: seq<Label>, id: Id, r: Tid, u: Tid, v: Tid)
    requires RunFor(protectedOn, now, before, id) && r != u && u != v && v != r
    requires var s := After(protectedOn, Init(now), before);
      FetchesKnown(s, id) && r !in s.threads && u !in s.threads && v !in s.threads
    ensures var s := After(protectedOn, Init(now), before);
      MayShare(protectedOn, s, id, r) <==> !Published(s, id) && (id in s.ever ==> s.ever[id].paste.meta.burn)
  {
    var s := After(protectedOn, Init(now), before);
    Reachable(protectedOn, now, before, id);
    AnnouncedAlong(protectedOn, Init(now), before);
    if Published(s, id) {
      PublishedSharesNone(protectedOn, now, before, id, r);
    } else if id !in s.ever {
      EarlyFetchShares(protectedOn, now, before, id, r, u, v);
    } else if s.ever[id].paste.meta.burn {
      UnpublishedShares(protectedOn, s, id, r, v);
    } else {
      PlainSharesNone(protectedOn, s, id, r);
    }
  }

  lemma EarlyFetchShares(protectedOn: bool, now: int, before: seq<Label>, id: Id, r: Tid, u: Tid, v: Tid)
    requires Legal(protectedOn, Init(now), before) && r != u && u != v && v != r
    requires var s := After(protectedOn, Init(now), before);
      id !in s.ever && !Published(s, id) && r !in s.threads && u !in s.threads && v !in s.threads
    ensures MayShare(protectedOn, After(protectedOn, Init(now), before), id, r)
  {
    var s := After(protectedOn, Init(now), before);
    EarlyFetchSharesBurn(protectedOn, now, before, id, BURN_PASTE, 0, r, u, v);
    var run, k :| Leads(protectedOn, s, [Reads(r, id, false)] + run, k) && SharedWhole(k, id, BURN_PASTE, r, v);
    assert Shared(k, id, r);
  }

  lemma PublishedSharesNone(protectedOn: bool, now: int, before: seq<Label>, id: Id, r: Tid)
    requires RunFor(protectedOn, now, before, id)
    requires var s := After(protectedOn, Init(now), before); Published(s, id) && FetchesKnown(s, id)
    ensures !MayShare(protectedOn, After(protectedOn, Init(now), before), id, r)
  {
    var s := After(protectedOn, Init(now), before);
    forall run, k | Leads(protectedOn, s, [Reads(r, id, true)] + run, k) ensures !Shared(k, id, r) {
      KnownSharesNone(protectedOn, now, before, id, r, [Reads(r, id, true)] + run, k);
    }
  }

  lemma PlainSharesNone(protectedOn: bool, s: State, id: Id, r: Tid)
    requires id in s.ever && !s.ever[id].paste.meta.burn
    ensures !MayShare(protectedOn, s, id, r)
  {
    var known := Published(s, id);
    forall run, k | Leads(protectedOn, s, [Reads(r, id, known)] + run, k) ensures !Shared(k, id, r) {
      EverStays(protectedOn, s, [Reads(r, id, known)] + run, id);
    }
  }
}
