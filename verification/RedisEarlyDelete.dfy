/** What a DELETE can do on Redis that comes in before its id is published: from every
    reachable state, for every paste. With RedisSafety this makes publication the
    exact condition. */
module RedisEarlyDelete {
  import opened RedisMachine
  import opened RedisRuns
  import opened RedisSafety
  import opened Wrappers

  // What holds of all runs, without any assumption on the requests.

  ghost predicate Rooted(s: State) {
    && s.hashes.Keys <= s.ever.Keys
    && forall t ::
         t in s.threads && s.threads[t].Save? && (s.threads[t].spc == Fill || s.threads[t].spc == Saved(201)) ==>
           s.threads[t].id in s.ever
  }

  lemma NextRooted(protectedOn: bool, s: State, l: Label)
    requires Rooted(s) && Enabled(s, l)
    ensures Rooted(Next(protectedOn, s, l))
  {
    if l.Run? {
      var step := ThreadStep(protectedOn, s, s.threads[l.t], l.fault);
      StepRooted(protectedOn, s, s.threads[l.t], l.fault);
      RootedAfter(s, l.t, step.1);
    }
  }

  /** A step brings in a hash only by opening the gate; a Save past it stays past it. */
  lemma StepRooted(protectedOn: bool, s: State, thread: Thread, fault: bool)
    ensures var (next, e) := ThreadStep(protectedOn, s, thread, fault);
      && next.id == thread.id && (next.Save? <==> thread.Save?)
      && (e.SetRest? ==> thread.Save? && thread.spc == Fill && e.id == thread.id)
      && (next.Save? && next.spc == Fill && thread.spc != Fill ==> e.SetContent? && e.id == thread.id)
      && (next.Save? && next.spc == Saved(201) ==> thread.spc == Fill || thread.spc == Saved(201))
  {}

  lemma RootedAfter(s: State, t: Tid, e: Effect)
    requires s.hashes.Keys <= s.ever.Keys && (e.SetRest? ==> e.id in s.ever)
    ensures var m := Apply(s, t, e);
      m.hashes.Keys <= m.ever.Keys && s.ever.Keys <= m.ever.Keys && (e.SetContent? ==> e.id in m.ever)
  {}

  lemma {:induction false} RunRooted(protectedOn: bool, s: State, run: seq<Label>)
    requires Rooted(s) && Legal(protectedOn, s, run)
    ensures Rooted(After(protectedOn, s, run))
    decreases |run|
  {
    if run != [] {
      NextRooted(protectedOn, s, run[0]);
      RunRooted(protectedOn, Next(protectedOn, s, run[0]), run[1..]);
    }
  }

  /** A DELETE of `id` comes in. */
  function Comes(d: Tid, id: Id, known: bool): Label {
    Arrive(d, Remove(id, known, Guarding))
  }

  /** A DELETE past its guard and a Save between its transactions, on one id. */
  ghost predicate Primed(s: State, id: Id, paste: Paste, ttl: int, d: Tid, u: Tid) {
    && d in s.threads && s.threads[d] == Remove(id, false, Erasing)
    && u in s.threads && s.threads[u] == Save(id, paste, ttl, Fill)
    && id in s.hashes && s.hashes[id] == Hash(Some(paste.content), None, None)
  }

  /** The DELETE first: the Save reports success for a hash without content. */
  ghost predicate ContentLost(s: State, id: Id) {
    Published(s, id) && Live(s, id).content == None && Live(s, id).meta.Some?
  }

  lemma DeleteThenFill(protectedOn: bool, s: State, id: Id, paste: Paste, ttl: int, d: Tid, u: Tid) returns (k: State)
    requires Primed(s, id, paste, ttl, d, u)
    ensures Leads(protectedOn, s, [Run(d, false), Run(u, false)], k) && ContentLost(k, id)
  {
    var s1 := Next(protectedOn, s, Run(d, false));
    k := Next(protectedOn, s1, Run(u, false));
    LeadsFrom(protectedOn, s1, Run(u, false), [], k);
    LeadsFrom(protectedOn, s, Run(d, false), [Run(u, false)], k);
    assert k.threads[u] == Save(id, paste, ttl, Saved(201));
  }

  /** The Save first: the whole paste is published and live, and the DELETE takes it. */
  lemma FillThenDelete(protectedOn: bool, s: State, id: Id, paste: Paste, ttl: int, d: Tid, u: Tid)
    returns (m: State, k: State)
    requires Primed(s, id, paste, ttl, d, u)
    ensures m == Next(protectedOn, s, Run(u, false)) && Published(m, id) && PasteOf(Live(m, id)) == Some(paste)
    ensures Leads(protectedOn, s, [Run(u, false), Run(d, false)], k)
    ensures k == Next(protectedOn, m, Run(d, false)) && id !in k.hashes && id in k.fate && k.fate[id] == Deleted(d)
  {
    m := Next(protectedOn, s, Run(u, false));
    k := Next(protectedOn, m, Run(d, false));
    assert m.threads[u] == Save(id, paste, ttl, Saved(201));
    LeadsFrom(protectedOn, m, Run(d, false), [], k);
    LeadsFrom(protectedOn, s, Run(u, false), [Run(d, false)], k);
  }

  /** A DELETE that comes in while a Save is between its transactions peeks past it. */
  lemma PrimedByArrival(protectedOn: bool, s: State, id: Id, paste: Paste, ttl: int, d: Tid, u: Tid) returns (k: State)
    requires d !in s.threads && !Published(s, id)
    requires u in s.threads && s.threads[u] == Save(id, paste, ttl, Fill)
    requires id in s.hashes && s.hashes[id] == Hash(Some(paste.content), None, None)
    ensures Leads(protectedOn, s, [Comes(d, id, false), Run(d, false)], k) && Primed(k, id, paste, ttl, d, u)
  {
    var arrive := Comes(d, id, false);
    var s1 := Next(protectedOn, s, arrive);
    k := Next(protectedOn, s1, Run(d, false));
    LeadsFrom(protectedOn, s1, Run(d, false), [], k);
    LeadsFrom(protectedOn, s, arrive, [Run(d, false)], k);
  }

  lemma GateOpens(protectedOn: bool, s: State, id: Id, paste: Paste, ttl: int, u: Tid) returns (k: State)
    requires Rooted(s) && id !in s.ever && u !in s.threads
    ensures Leads(protectedOn, s, [Arrive(u, Save(id, paste, ttl, Gate)), Run(u, false)], k)
    ensures k.threads == s.threads[u := Save(id, paste, ttl, Fill)]
    ensures id in k.hashes && k.hashes[id] == Hash(Some(paste.content), None, None) && k.now == s.now
    ensures k.ever == s.ever[id := Origin(paste, ttl, u)]
  {
    var arrive := Arrive(u, Save(id, paste, ttl, Gate));
    var s1 := Next(protectedOn, s, arrive);
    k := Next(protectedOn, s1, Run(u, false));
    LeadsFrom(protectedOn, s1, Run(u, false), [], k);
    LeadsFrom(protectedOn, s, arrive, [Run(u, false)], k);
    assert k.threads == s1.threads[u := Save(id, paste, ttl, Fill)];
  }

  /** The steps that follow the arrival of the DELETE. */
  function Priming(id: Id, paste: Paste, ttl: int, d: Tid, u: Tid): seq<Label> {
    [Arrive(u, Save(id, paste, ttl, Gate)), Run(u, false)] + [Run(d, false)]
  }

  lemma PrimedFromNothing(protectedOn: bool, s: State, id: Id, paste: Paste, ttl: int, d: Tid, u: Tid)
    returns (k: State)
    requires Rooted(s) && id !in s.ever && d !in s.threads && u !in s.threads && d != u
    ensures Leads(protectedOn, s, [Comes(d, id, false)] + Priming(id, paste, ttl, d, u), k)
    ensures Primed(k, id, paste, ttl, d, u)
  {
    var arrive := Comes(d, id, false);
    assert !Published(s, id);
    var s1 := Next(protectedOn, s, arrive);
    var m := GateOpens(protectedOn, s1, id, paste, ttl, u);
    k := Next(protectedOn, m, Run(d, false));
    LeadsFrom(protectedOn, m, Run(d, false), [], k);
    LeadsOnward(protectedOn, s1, [Arrive(u, Save(id, paste, ttl, Gate)), Run(u, false)], m, [Run(d, false)], k);
    LeadsFrom(protectedOn, s, arrive, Priming(id, paste, ttl, d, u), k);
  }

  /** Main result: from every reachable state, a DELETE of an id nobody has saved can be
      followed by steps that leave any given paste published without its content. */
  lemma EarlyDeleteLosesContent(protectedOn: bool, now: int, before: seq<Label>, id: Id, paste: Paste, ttl: int,
                                d: Tid, u: Tid)
    requires Legal(protectedOn, Init(now), before)
    requires var s := After(protectedOn, Init(now), before);
      id !in s.ever && d !in s.threads && u !in s.threads && d != u
    ensures exists run, k ::
      ContentLost(k, id) && Leads(protectedOn, After(protectedOn, Init(now), before), [Comes(d, id, false)] + run, k)
  {
    var s := After(protectedOn, Init(now), before);
    var arrive, priming := [Comes(d, id, false)], Priming(id, paste, ttl, d, u);
    RunRooted(protectedOn, Init(now), before);
    var m := PrimedFromNothing(protectedOn, s, id, paste, ttl, d, u);
    var k := DeleteThenFill(protectedOn, m, id, paste, ttl, d, u);
    LeadsOnward(protectedOn, s, arrive + priming, m, [Run(d, false), Run(u, false)], k);
    assert arrive + priming + [Run(d, false), Run(u, false)] == arrive + (priming + [Run(d, false), Run(u, false)]);
  }

  /** And so can one that comes in while a Save is between its transactions. */
  lemma DeleteBetweenLosesContent(protectedOn: bool, s: State, id: Id, paste: Paste, ttl: int, d: Tid, u: Tid)
    requires d !in s.threads && !Published(s, id)
    requires u in s.threads && s.threads[u] == Save(id, paste, ttl, Fill)
    requires id in s.hashes && s.hashes[id] == Hash(Some(paste.content), None, None)
    ensures exists run, k :: ContentLost(k, id) && Leads(protectedOn, s, [Comes(d, id, false)] + run, k)
  {
    var m := PrimedByArrival(protectedOn, s, id, paste, ttl, d, u);
    var k := DeleteThenFill(protectedOn, m, id, paste, ttl, d, u);
    LeadsOnward(protectedOn, s, [Comes(d, id, false), Run(d, false)], m, [Run(d, false), Run(u, false)], k);
    assert [Comes(d, id, false), Run(d, false)] + [Run(d, false), Run(u, false)]
      == [Comes(d, id, false)] + [Run(d, false), Run(d, false), Run(u, false)];
  }

  /** On the way at `m`, `paste` is published and live, and the next step of thread `d`,
      a DELETE, takes it. */
  ghost predicate Takes(protectedOn: bool, s: State, run: seq<Label>, m: State, id: Id, paste: Paste, d: Tid) {
    && Leads(protectedOn, s, run, m) && Published(m, id) && PasteOf(Live(m, id)) == Some(paste)
    && Enabled(m, Run(d, false)) && m.threads[d].Remove? && id !in Next(protectedOn, m, Run(d, false)).hashes
  }

  /** Main result: the same for a live paste, protected or not, feature on or off. */
  lemma EarlyDeleteTakesPaste(protectedOn: bool, now: int, before: seq<Label>, id: Id, paste: Paste, ttl: int, d: Tid,
                              u: Tid)
    requires Legal(protectedOn, Init(now), before)
    requires var s := After(protectedOn, Init(now), before);
      id !in s.ever && d !in s.threads && u !in s.threads && d != u
    ensures exists run, m ::
      Takes(protectedOn, After(protectedOn, Init(now), before), [Comes(d, id, false)] + run, m, id, paste, d)
  {
    var s := After(protectedOn, Init(now), before);
    var arrive, priming := [Comes(d, id, false)], Priming(id, paste, ttl, d, u);
    RunRooted(protectedOn, Init(now), before);
    var p := PrimedFromNothing(protectedOn, s, id, paste, ttl, d, u);
    var m, k := FillThenDelete(protectedOn, p, id, paste, ttl, d, u);
    LeadsFrom(protectedOn, p, Run(u, false), [], m);
    LeadsOnward(protectedOn, s, arrive + priming, p, [Run(u, false)], m);
    assert arrive + priming + [Run(u, false)] == arrive + (priming + [Run(u, false)]);
    assert Takes(protectedOn, s, arrive + (priming + [Run(u, false)]), m, id, paste, d);
  }

  // The other direction: a DELETE that came in known.

  lemma {:induction false} PublishedStays(protectedOn: bool, s: State, run: seq<Label>, id: Id, d: Tid)
    requires Legal(protectedOn, s, run) && Published(s, id) && DeletesKnown(s, id)
    requires d in s.threads && s.threads[d].Remove? && s.threads[d].id == id
    ensures var k := After(protectedOn, s, run);
      Published(k, id) && DeletesKnown(k, id) && d in k.threads && k.threads[d].Remove? && k.threads[d].id == id
    decreases |run|
  {
    if run != [] {
      StepPublished(protectedOn, s, run[0], id);
      if run[0].Run? { SameId(protectedOn, s, s.threads[run[0].t], run[0].fault); }
      PublishedStays(protectedOn, Next(protectedOn, s, run[0]), run[1..], id, d);
    }
  }

  lemma StepPublished(protectedOn: bool, s: State, l: Label, id: Id)
    requires Enabled(s, l) && Published(s, id) && DeletesKnown(s, id)
    ensures var s' := Next(protectedOn, s, l); Published(s', id) && DeletesKnown(s', id)
  {
    var s' := Next(protectedOn, s, l);
    PublishedOn(protectedOn, s, l, id);
    forall u | u in s'.threads && s'.threads[u].Remove? && s'.threads[u].id == id ensures s'.threads[u].known {
      if l.Run? && l.t == u { SameId(protectedOn, s, s.threads[u], l.fault); }
    }
  }

  lemma KnownTakesNone(now: int, before: seq<Label>, id: Id, d: Tid, run: seq<Label>, m: State, paste: Paste)
    requires RunFor(true, now, before, id) && paste.meta.prot
    requires var s := After(true, Init(now), before); Published(s, id) && d !in s.threads
    ensures !Takes(true, After(true, Init(now), before), [Comes(d, id, true)] + run, m, id, paste, d)
  {
    var s := After(true, Init(now), before);
    var l := Comes(d, id, true);
    if Takes(true, s, [l] + run, m, id, paste, d) {
      assert ([l] + run)[1..] == run;
      StepPublished(true, s, l, id);
      PublishedStays(true, Next(true, s, l), run, id, d);
      LeadsOnward(true, Init(now), before, s, [l] + run, m);
      KnownIsHarmless(now, before + ([l] + run), id, d);
    }
  }

  /** A DELETE about to remove a live paste finds it unprotected. */
  lemma KnownIsHarmless(now: int, run: seq<Label>, id: Id, d: Tid)
    requires RunFor(true, now, run, id)
    requires var m := After(true, Init(now), run);
      d in m.threads && m.threads[d].Remove? && m.threads[d].id == id && !Recycles(m, m.threads[d])
    ensures var m := After(true, Init(now), run);
      id in m.hashes && id !in Next(true, m, Run(d, false)).hashes && PasteOf(Live(m, id)).Some? ==>
        !PasteOf(Live(m, id)).value.meta.prot
  {
    var m := After(true, Init(now), run);
    if m.threads[d].rpc == Erasing {
      ProtectedStays(now, run, id, d);
      Reachable(true, now, run, id);
      LiveIs(m, id);
      assert ThreadOk(true, m, d, m.threads[d]);
    }
  }

  // An id whose Save has passed its gate and is not published.

  /** Some Save of `id` with a protected paste waits for its second transaction. */
  ghost predicate Pending(s: State, id: Id) {
    exists u :: u in s.threads && Fills(s.threads[u], id) && s.threads[u].paste.meta.prot
  }

  predicate Fills(thread: Thread, id: Id) {
    thread.Save? && thread.id == id && thread.spc == Fill
  }

  /** Nothing protected is stored under `id` or on its way there. */
  ghost predicate Barren(s: State, id: Id) {
    && id in s.ever && !Pending(s, id)
    && (id in s.hashes && s.hashes[id].meta.Some? ==> !s.hashes[id].meta.value.prot)
  }

  lemma StepBarren(protectedOn: bool, s: State, thread: Thread, fault: bool, id: Id)
    requires Barren(s, id) && !Recycles(s, thread) && (Fills(thread, id) ==> !thread.paste.meta.prot)
    ensures var (next, e) := ThreadStep(protectedOn, s, thread, fault);
      && (e.SetContent? ==> e.id != id)
      && (e.SetRest? && e.id == id ==> !e.meta.prot)
      && (Fills(next, id) ==> Fills(thread, id) && next.paste == thread.paste)
  {}

  lemma BarrenAfter(s: State, t: Tid, e: Effect, id: Id)
    requires id in s.ever && (id in s.hashes && s.hashes[id].meta.Some? ==> !s.hashes[id].meta.value.prot)
    requires (e.SetContent? ==> e.id != id) && (e.SetRest? && e.id == id ==> !e.meta.prot)
    ensures var m := Apply(s, t, e);
      id in m.ever && (id in m.hashes && m.hashes[id].meta.Some? ==> !m.hashes[id].meta.value.prot)
  {}

  lemma NextBarren(protectedOn: bool, s: State, l: Label, id: Id)
    requires Barren(s, id) && Enabled(s, l)
    ensures Barren(Next(protectedOn, s, l), id)
  {
    var s' := Next(protectedOn, s, l);
    if l.Run? {
      var step := ThreadStep(protectedOn, s, s.threads[l.t], l.fault);
      StepBarren(protectedOn, s, s.threads[l.t], l.fault, id);
      BarrenAfter(s, l.t, step.1, id);
      forall u | u in s'.threads && Fills(s'.threads[u], id) ensures !s'.threads[u].paste.meta.prot {
        if u == l.t { assert s'.threads[u] == step.0; } else { assert s'.threads[u] == s.threads[u]; }
      }
    }
  }

  lemma {:induction false} BarrenAlong(protectedOn: bool, s: State, run: seq<Label>, id: Id)
    requires Barren(s, id) && Legal(protectedOn, s, run)
    ensures Barren(After(protectedOn, s, run), id)
    decreases |run|
  {
    if run != [] {
      NextBarren(protectedOn, s, run[0], id);
      BarrenAlong(protectedOn, Next(protectedOn, s, run[0]), run[1..], id);
    }
  }

  /** What is filled is published, in every run. */
  ghost predicate Announced(s: State) {
    forall id :: id in s.filled ==> Published(s, id)
  }

  lemma NextAnnounced(protectedOn: bool, s: State, l: Label)
    requires Announced(s) && Enabled(s, l)
    ensures Announced(Next(protectedOn, s, l))
  {
    var s' := Next(protectedOn, s, l);
    forall id | id in s'.filled ensures Published(s', id) {
      if id in s.filled {
        PublishedOn(protectedOn, s, l, id);
      } else {
        assert s'.threads[l.t].Save? && s'.threads[l.t].id == id && s'.threads[l.t].spc == Saved(201);
      }
    }
  }

  lemma PublishedOn(protectedOn: bool, s: State, l: Label, id: Id)
    requires Enabled(s, l) && Published(s, id)
    ensures Published(Next(protectedOn, s, l), id)
  {
    var s' := Next(protectedOn, s, l);
    var t :| t in s.threads && s.threads[t].Save? && s.threads[t].id == id && s.threads[t].spc == Saved(201);
    assert t in s'.threads && s'.threads[t] == s.threads[t];
  }

  lemma {:induction false} AnnouncedAlong(protectedOn: bool, s: State, run: seq<Label>)
    requires Announced(s) && Legal(protectedOn, s, run)
    ensures Announced(After(protectedOn, s, run))
    decreases |run|
  {
    if run != [] {
      NextAnnounced(protectedOn, s, run[0]);
      AnnouncedAlong(protectedOn, Next(protectedOn, s, run[0]), run[1..]);
    }
  }

  /** A Save at its second transaction is the owner, and its hash holds content alone. */
  lemma PendingHash(protectedOn: bool, s: State, id: Id, u: Tid)
    requires Inv(protectedOn, s, id) && u in s.threads && Fills(s.threads[u], id)
    ensures id in s.ever && id in s.hashes && s.hashes[id] == Hash(Some(s.threads[u].paste.content), None, None)
  {
    assert ThreadOk(protectedOn, s, u, s.threads[u]);
  }

  lemma PendingTakes(now: int, before: seq<Label>, id: Id, d: Tid)
    requires RunFor(true, now, before, id)
    requires var s := After(true, Init(now), before); d !in s.threads && !Published(s, id) && Pending(s, id)
    ensures TakesProtected(After(true, Init(now), before), id, d)
  {
    var s := After(true, Init(now), before);
    Reachable(true, now, before, id);
    var u :| u in s.threads && Fills(s.threads[u], id) && s.threads[u].paste.meta.prot;
    var paste, ttl := s.threads[u].paste, s.threads[u].ttl;
    PendingHash(true, s, id, u);
    var p := PrimedByArrival(true, s, id, paste, ttl, d, u);
    var m, k := FillThenDelete(true, p, id, paste, ttl, d, u);
    LeadsOne(true, p, Run(u, false));
    LeadsOnward(true, s, [Comes(d, id, false), Run(d, false)], p, [Run(u, false)], m);
    assert [Comes(d, id, false), Run(d, false)] + [Run(u, false)] ==
      [Comes(d, id, false)] + [Run(d, false), Run(u, false)];
    assert Takes(true, s, [Comes(d, id, false)] + [Run(d, false), Run(u, false)], m, id, paste, d);
  }

  lemma BarrenTakesNone(now: int, before: seq<Label>, id: Id, d: Tid, run: seq<Label>, m: State, paste: Paste)
    requires RunFor(true, now, before, id) && paste.meta.prot
    requires var s := After(true, Init(now), before); id in s.ever && !Published(s, id) && !Pending(s, id)
    ensures !Takes(true, After(true, Init(now), before), [Comes(d, id, false)] + run, m, id, paste, d)
  {
    var s := After(true, Init(now), before);
    Reachable(true, now, before, id);
    AnnouncedAlong(true, Init(now), before);
    assert Barren(s, id);
    if Takes(true, s, [Comes(d, id, false)] + run, m, id, paste, d) {
      BarrenAlong(true, s, [Comes(d, id, false)] + run, id);
    }
  }

  /** A DELETE of `id` that comes in as thread `d` can be followed by steps in which it
      takes a live protected paste. */
  ghost predicate TakesProtected(s: State, id: Id, d: Tid) {
    exists run, m, paste: Paste ::
      paste.meta.prot && Takes(true, s, [Comes(d, id, Published(s, id))] + run, m, id, paste, d)
  }

  const PROTECTED_PASTE := Paste([7], Meta(false, false, false, true, "text"))

  /** Main result: for every id, a newly arriving DELETE can take a live protected paste
      if and only if the id is not published, and nobody has passed its gate yet or a
      protected paste waits there for its second transaction. */
  lemma PublicationIsExact(now: int, before: seq<Label>, id: Id, d: Tid, u: Tid)
    requires RunFor(true, now, before, id)
    requires var s := After(true, Init(now), before); d !in s.threads && u !in s.threads && d != u
    ensures var s := After(true, Init(now), before);
      TakesProtected(s, id, d) <==> !Published(s, id) && (id in s.ever ==> Pending(s, id))
  {
    var s := After(true, Init(now), before);
    if Published(s, id) {
      forall run, m, paste: Paste | paste.meta.prot
        ensures !Takes(true, s, [Comes(d, id, true)] + run, m, id, paste, d) {
        KnownTakesNone(now, before, id, d, run, m, paste);
      }
    } else if id !in s.ever {
      EarlyDeleteTakesPaste(true, now, before, id, PROTECTED_PASTE, 0, d, u);
    } else if Pending(s, id) {
      PendingTakes(now, before, id, d);
    } else {
      forall run, m, paste: Paste | paste.meta.prot
        ensures !Takes(true, s, [Comes(d, id, false)] + run, m, id, paste, d) {
        BarrenTakesNone(now, before, id, d, run, m, paste);
      }
    }
  }
}
