/** What the Redis backend guarantees for an id whose own DELETEs name it only once it
    is published, whatever all other requests do: the two transactions of a Save
    look like one insert, at the second. */
module RedisSafety {
  import opened Wrappers
  import opened Bytes
  import opened RedisMachine

  /** The assumption, on the requests that have come in so far. */
  ghost predicate DeletesKnown(s: State, id: Id) {
    forall t :: t in s.threads && s.threads[t].Remove? && s.threads[t].id == id ==> s.threads[t].known
  }

  /** The hash an id must have: complete once filled, content alone before, all of
      it from the one Save whose gate it passed. */
  function HashOf(s: State, id: Id): Hash
    requires id in s.ever
  {
    var o := s.ever[id];
    if id in s.filled then Hash(Some(o.paste.content), Some(o.paste.meta), Deadline(s.filled[id], o.ttl))
    else Hash(Some(o.paste.content), None, None)
  }

  ghost predicate HashOk(s: State, id: Id) {
    && (id in s.filled ==> id in s.ever)
    && (id in s.fate ==> id in s.filled)
    && (id in s.hashes <==> id in s.ever && id !in s.fate)
    && (id in s.hashes ==> s.hashes[id] == HashOf(s, id))
  }

  /** Published, and no longer to be seen: removed or expired. */
  ghost predicate Over(s: State, id: Id) {
    id in s.fate || Live(s, id) == EMPTY_HASH
  }

  /** A known reader is answered with the paste as saved; one that guessed the id may
      get the content before the flags are there. A burn flag comes with the burn. */
  ghost predicate AnswerOk(s: State, t: Tid, id: Id, known: bool, p: Paste) {
    && id in s.ever
    && (p == s.ever[id].paste || (!known && p == Paste(s.ever[id].paste.content, NO_META)))
    && (known ==> id in s.filled)
    && (p.meta.burn ==> id in s.fate && s.fate[id] == Burned(t))
  }

  ghost predicate SaveOk(s: State, t: Tid, id: Id, paste: Paste, ttl: int, spc: SavePc) {
    && (spc == Fill ==> id in s.ever && s.ever[id] == Origin(paste, ttl, t) && id !in s.filled)
    && (spc == Saved(201) ==> id in s.filled && id in s.ever && s.ever[id] == Origin(paste, ttl, t))
  }

  ghost predicate FetchOk(s: State, t: Tid, id: Id, known: bool, fpc: FetchPc) {
    && (known || fpc == Getting(false) || fpc == Taking ==> id in s.filled && id in s.ever)
    && (fpc == Getting(false) ==> !s.ever[id].paste.meta.burn)
    && (fpc == Taking ==> s.ever[id].paste.meta.burn)
    && (fpc.Fetched? && fpc.answer.Some? ==> AnswerOk(s, t, id, known, fpc.answer.value))
  }

  ghost predicate RemoveOk(protectedOn: bool, s: State, id: Id, known: bool, rpc: RemovePc) {
    known ==>
      && id in s.filled && id in s.ever
      && (rpc == Erasing && protectedOn && s.ever[id].paste.meta.prot ==> Over(s, id))
  }

  ghost predicate ThreadOk(protectedOn: bool, s: State, t: Tid, thread: Thread) {
    match thread
    case Save(id, paste, ttl, spc) => SaveOk(s, t, id, paste, ttl, spc)
    case Fetch(id, known, fpc) => FetchOk(s, t, id, known, fpc)
    case Remove(id, known, rpc) => RemoveOk(protectedOn, s, id, known, rpc)
  }

  ghost predicate ThreadsOk(protectedOn: bool, s: State, id: Id) {
    forall t :: t in s.threads && s.threads[t].id == id ==> ThreadOk(protectedOn, s, t, s.threads[t])
  }

  /** The Save that passed the gate of `id`, at whatever step it is. */
  ghost predicate OwnerOk(s: State, id: Id) {
    id in s.ever ==> var o := s.ever[id];
      o.owner in s.threads && s.threads[o.owner].Save? && s.threads[o.owner].id == id
      && s.threads[o.owner].paste == o.paste && s.threads[o.owner].ttl == o.ttl
  }

  ghost predicate Inv(protectedOn: bool, s: State, id: Id) {
    HashOk(s, id) && ThreadsOk(protectedOn, s, id) && OwnerOk(s, id)
  }

  ghost predicate Grows(s: State, s': State, id: Id) {
    && s.now <= s'.now
    && (id in s.ever ==> id in s'.ever && s'.ever[id] == s.ever[id])
    && (id in s.filled ==> id in s'.filled && s'.filled[id] == s.filled[id])
    && (id in s.fate ==> id in s'.fate && s'.fate[id] == s.fate[id])
  }

  lemma LiveIs(s: State, id: Id)
    requires HashOk(s, id)
    ensures id in s.hashes ==> Live(s, id) == HashOf(s, id) || Live(s, id) == EMPTY_HASH
    ensures id !in s.hashes ==> Live(s, id) == EMPTY_HASH
    ensures id in s.ever && id !in s.filled ==> id in s.hashes && Live(s, id) == HashOf(s, id)
  {}

  /** Once a filled paste cannot be seen it never is again. */
  lemma OverStays(s: State, s': State, id: Id)
    requires HashOk(s, id) && HashOk(s', id) && Grows(s, s', id) && id in s.filled && Over(s, id)
    ensures Over(s', id)
  {
    LiveIs(s', id);
    if id in s'.hashes { assert s'.hashes[id] == HashOf(s', id) && s.hashes[id] == HashOf(s, id); }
  }

  lemma ThreadStable(protectedOn: bool, s: State, s': State, t: Tid, thread: Thread)
    requires HashOk(s, thread.id) && HashOk(s', thread.id) && Grows(s, s', thread.id) &&
      ThreadOk(protectedOn, s, t, thread)
    requires thread.Save? && thread.spc == Fill ==> thread.id !in s'.filled
    ensures ThreadOk(protectedOn, s', t, thread)
  {
    if thread.Remove? && thread.known && Over(s, thread.id) { OverStays(s, s', thread.id); }
  }

  /** What a step of a request for `id` may do to its hash. */
  ghost predicate EffectOk(s: State, t: Tid, next: Thread, e: Effect, id: Id) {
    match e
    case Nothing => true
    case SetContent(i, paste, ttl) => i == id && id !in s.ever && next == Save(id, paste, ttl, Fill)
    case SetRest(i, meta, ttl) =>
      && i == id && id in s.ever && id !in s.filled && s.ever[id].owner == t
      && meta == s.ever[id].paste.meta && ttl == s.ever[id].ttl && next == Save(id, s.ever[id].paste, ttl, Saved(201))
    case Take(i) =>
      i == id && id in s.filled && id in s.ever && next.Fetch? && next.fpc == Fetched(PasteOf(Live(s, id)))
    case Del(i) => i == id && id in s.filled && next.Remove? && next.rpc == Removed(200)
  }

  lemma StepEffectOk(protectedOn: bool, s: State, t: Tid, thread: Thread, fault: bool)
    requires HashOk(s, thread.id) && ThreadOk(protectedOn, s, t, thread) && !Recycles(s, thread)
    requires thread.Remove? ==> thread.known
    ensures var step := ThreadStep(protectedOn, s, thread, fault);
      EffectOk(s, t, step.0, step.1, thread.id) && step.0.id == thread.id
  {
    LiveIs(s, thread.id);
  }

  lemma ApplyOk(s: State, t: Tid, next: Thread, e: Effect, id: Id)
    requires HashOk(s, id) && EffectOk(s, t, next, e, id)
    ensures HashOk(Apply(s, t, e), id) && Grows(s, Apply(s, t, e), id)
    ensures Apply(s, t, e).now == s.now
    ensures id in Apply(s, t, e).filled <==> id in s.filled || e.SetRest?
  {
    LiveIs(s, id);
  }

  lemma SelfOk(protectedOn: bool, s: State, t: Tid, thread: Thread, fault: bool)
    requires HashOk(s, thread.id) && ThreadOk(protectedOn, s, t, thread) && !Recycles(s, thread)
    requires thread.Remove? ==> thread.known
    ensures var step := ThreadStep(protectedOn, s, thread, fault);
      ThreadOk(protectedOn, Apply(s, t, step.1), t, step.0)
  {
    match thread
    case Save(id, paste, ttl, spc) => LiveIs(s, id);
    case Fetch(id, known, fpc) => FetchSelfOk(s, t, id, known, fpc, fault);
    case Remove(id, known, rpc) =>
      StepEffectOk(protectedOn, s, t, thread, fault);
      var step := ThreadStep(protectedOn, s, thread, fault);
      ApplyOk(s, t, step.0, step.1, id);
  }

  lemma FetchSelfOk(s: State, t: Tid, id: Id, known: bool, fpc: FetchPc, fault: bool)
    requires HashOk(s, id) && FetchOk(s, t, id, known, fpc)
    ensures var (next, e) := FetchStep(s, id, known, fpc, fault);
      FetchOk(Apply(s, t, e), t, id, known, next.fpc)
  {
    LiveIs(s, id);
  }

  /** Requests for other ids do not touch the hash or the history of `id`. */
  lemma OthersKeep(protectedOn: bool, s: State, t: Tid, fault: bool, id: Id)
    requires HashOk(s, id) && t in s.threads && s.threads[t].id != id
    ensures var m := Apply(s, t, ThreadStep(protectedOn, s, s.threads[t], fault).1);
      HashOk(m, id) && Grows(s, m, id) && (id in m.filled <==> id in s.filled)
  {
    var e := ThreadStep(protectedOn, s, s.threads[t], fault).1;
    EffectId(protectedOn, s, s.threads[t], fault);
    OtherEffect(s, t, e, id);
  }

  lemma EffectId(protectedOn: bool, s: State, thread: Thread, fault: bool)
    ensures var e := ThreadStep(protectedOn, s, thread, fault).1; e.Nothing? || e.id == thread.id
  {}

  lemma OtherEffect(s: State, t: Tid, e: Effect, id: Id)
    requires HashOk(s, id) && (e.Nothing? || e.id != id)
    ensures var m := Apply(s, t, e); HashOk(m, id) && Grows(s, m, id) && (id in m.filled <==> id in s.filled)
  {
    var m := Apply(s, t, e);
    assert id in m.hashes ==> m.hashes[id] == s.hashes[id];
  }

  lemma SameHash(m: State, s': State, id: Id)
    requires HashOk(m, id) && s' == m.(threads := s'.threads)
    ensures HashOk(s', id)
  {
    if id in m.ever { assert HashOf(m, id) == HashOf(s', id); }
  }

  lemma RunKeeps(protectedOn: bool, s: State, t: Tid, fault: bool, id: Id)
    requires Inv(protectedOn, s, id) && DeletesKnown(s, id) && t in s.threads && !Recycles(s, s.threads[t])
    ensures var s' := Next(protectedOn, s, Run(t, fault)); Inv(protectedOn, s', id) && Grows(s, s', id)
  {
    var step := ThreadStep(protectedOn, s, s.threads[t], fault);
    var m := Apply(s, t, step.1);
    var s' := Next(protectedOn, s, Run(t, fault));
    if s.threads[t].id == id {
      StepEffectOk(protectedOn, s, t, s.threads[t], fault);
      ApplyOk(s, t, step.0, step.1, id);
      SelfOk(protectedOn, s, t, s.threads[t], fault);
    } else {
      OthersKeep(protectedOn, s, t, fault, id);
    }
    SameHash(m, s', id);
    KeepsOwner(protectedOn, s, t, fault, id);
    KeepsThreads(protectedOn, s, t, fault, id, m, s');
  }

  lemma KeepsThreads(protectedOn: bool, s: State, t: Tid, fault: bool, id: Id, m: State, s': State)
    requires Inv(protectedOn, s, id) && DeletesKnown(s, id) && t in s.threads && !Recycles(s, s.threads[t])
    requires m == Apply(s, t, ThreadStep(protectedOn, s, s.threads[t], fault).1) &&
      s' == Next(protectedOn, s, Run(t, fault))
    requires HashOk(m, id) && HashOk(s', id) && Grows(s, m, id)
    requires s.threads[t].id == id ==> ThreadOk(protectedOn, m, t, s'.threads[t])
    ensures ThreadsOk(protectedOn, s', id)
  {
    forall u | u in s'.threads && s'.threads[u].id == id ensures ThreadOk(protectedOn, s', u, s'.threads[u]) {
      SameId(protectedOn, s, s.threads[t], fault);
      if u == t {
        ThreadStable(protectedOn, m, s', t, s'.threads[t]);
      } else {
        OneFiller(protectedOn, s, t, u, fault, id);
        ThreadStable(protectedOn, s, s', u, s.threads[u]);
      }
    }
  }

  lemma KeepsOwner(protectedOn: bool, s: State, t: Tid, fault: bool, id: Id)
    requires OwnerOk(s, id) && HashOk(s, id) && t in s.threads && !Recycles(s, s.threads[t])
    ensures OwnerOk(Next(protectedOn, s, Run(t, fault)), id)
  {
    SameId(protectedOn, s, s.threads[t], fault);
    LiveIs(s, id);
  }

  lemma SameId(protectedOn: bool, s: State, thread: Thread, fault: bool)
    ensures ThreadStep(protectedOn, s, thread, fault).0.id == thread.id
    ensures thread.Save? ==>
      var next := ThreadStep(protectedOn, s, thread, fault).0;
        next.Save? && next.paste == thread.paste && next.ttl == thread.ttl
    ensures thread.Remove? ==>
      var next := ThreadStep(protectedOn, s, thread, fault).0; next.Remove? && next.known == thread.known
    ensures var (next, e) := ThreadStep(protectedOn, s, thread, fault);
      e.SetRest? ==> e.id == thread.id && thread.Save? && thread.spc == Fill
  {}

  /** Nobody else waits to fill an id that is being filled. */
  lemma OneFiller(protectedOn: bool, s: State, t: Tid, u: Tid, fault: bool, id: Id)
    requires ThreadsOk(protectedOn, s, id) && t in s.threads && u in s.threads && u != t && s.threads[u].id == id
    ensures s.threads[u].Save? && s.threads[u].spc == Fill ==>
      id !in Apply(s, t, ThreadStep(protectedOn, s, s.threads[t], fault).1).filled
  {
    SameId(protectedOn, s, s.threads[t], fault);
    assert ThreadOk(protectedOn, s, u, s.threads[u]);
    if s.threads[t].id == id { assert ThreadOk(protectedOn, s, t, s.threads[t]); }
  }

  lemma PublishedIsFilled(protectedOn: bool, s: State, id: Id)
    requires Inv(protectedOn, s, id) && Published(s, id)
    ensures id in s.filled && id in s.ever
  {
    var t :| t in s.threads && s.threads[t].Save? && s.threads[t].id == id && s.threads[t].spc == Saved(201);
    assert ThreadOk(protectedOn, s, t, s.threads[t]);
  }

  lemma QuietKeeps(protectedOn: bool, s: State, s': State, id: Id)
    requires Inv(protectedOn, s, id) && s.now <= s'.now
    requires s'.hashes == s.hashes && s'.ever == s.ever && s'.filled == s.filled && s'.fate == s.fate
    requires forall t :: t in s.threads ==> t in s'.threads && s'.threads[t] == s.threads[t]
    requires forall t :: t in s'.threads && s'.threads[t].id == id ==>
      (t in s.threads && s'.threads[t] == s.threads[t]) || ThreadOk(protectedOn, s', t, s'.threads[t])
    ensures Inv(protectedOn, s', id)
  {
    if id in s.ever { assert HashOf(s, id) == HashOf(s', id); }
    forall u | u in s'.threads && s'.threads[u].id == id ensures ThreadOk(protectedOn, s', u, s'.threads[u]) {
      if u in s.threads && s'.threads[u] == s.threads[u] { ThreadStable(protectedOn, s, s', u, s.threads[u]); }
    }
  }

  lemma NextKeeps(protectedOn: bool, s: State, l: Label, id: Id)
    requires Inv(protectedOn, s, id) && DeletesKnown(s, id) && Enabled(s, l)
    ensures Inv(protectedOn, Next(protectedOn, s, l), id) && Grows(s, Next(protectedOn, s, l), id)
  {
    match l
    case Run(t, fault) => RunKeeps(protectedOn, s, t, fault, id);
    case Tick(to) => QuietKeeps(protectedOn, s, s.(now := to), id);
    case Arrive(t, thread) =>
      if Published(s, id) { PublishedIsFilled(protectedOn, s, id); }
      QuietKeeps(protectedOn, s, s.(threads := s.threads[t := thread]), id);
  }

  /** A DELETE that came in unknown stays in the state, so a state without one has
      none behind it. */
  lemma DeletesBefore(protectedOn: bool, s: State, l: Label, id: Id)
    requires Enabled(s, l) && DeletesKnown(Next(protectedOn, s, l), id)
    ensures DeletesKnown(s, id)
  {
    var s' := Next(protectedOn, s, l);
    forall t | t in s.threads && s.threads[t].Remove? && s.threads[t].id == id ensures s.threads[t].known {
      if l.Run? { SameId(protectedOn, s, s.threads[l.t], l.fault); }
      assert t in s'.threads && s'.threads[t].Remove? && s'.threads[t].id == id &&
        s'.threads[t].known == s.threads[t].known;
    }
  }

  lemma {:induction false} DeletesAllAlong(protectedOn: bool, s: State, run: seq<Label>, id: Id)
    requires Legal(protectedOn, s, run) && DeletesKnown(After(protectedOn, s, run), id)
    ensures DeletesKnown(s, id)
    decreases |run|
  {
    if run != [] {
      DeletesAllAlong(protectedOn, Next(protectedOn, s, run[0]), run[1..], id);
      DeletesBefore(protectedOn, s, run[0], id);
    }
  }

  lemma {:induction false} RunsKeep(protectedOn: bool, s: State, run: seq<Label>, id: Id)
    requires Inv(protectedOn, s, id) && Legal(protectedOn, s, run) && DeletesKnown(After(protectedOn, s, run), id)
    ensures Inv(protectedOn, After(protectedOn, s, run), id)
    decreases |run|
  {
    if run != [] {
      DeletesAllAlong(protectedOn, s, run, id);
      NextKeeps(protectedOn, s, run[0], id);
      RunsKeep(protectedOn, Next(protectedOn, s, run[0]), run[1..], id);
    }
  }

  /** A run in which every DELETE of `id` came in after a 201 had returned it. */
  ghost predicate RunFor(protectedOn: bool, now: int, run: seq<Label>, id: Id) {
    Legal(protectedOn, Init(now), run) && DeletesKnown(After(protectedOn, Init(now), run), id)
  }

  lemma Reachable(protectedOn: bool, now: int, run: seq<Label>, id: Id)
    requires RunFor(protectedOn, now, run, id)
    ensures Inv(protectedOn, After(protectedOn, Init(now), run), id)
  {
    RunsKeep(protectedOn, Init(now), run, id);
  }

  /** Main result: a hash is content alone, not yet published, or has content, flags
      and expiry all from the one Save that passed its gate, however many Saves race
      for the id. */
  lemma HashesComeFromOneSave(protectedOn: bool, now: int, run: seq<Label>, id: Id)
    requires RunFor(protectedOn, now, run, id) && id in After(protectedOn, Init(now), run).hashes
    ensures var s := After(protectedOn, Init(now), run);
      && id in s.ever && s.hashes[id].content == Some(s.ever[id].paste.content)
      && (s.hashes[id].meta == None ==> !Published(s, id) && s.hashes[id].expireAt == None)
      && (s.hashes[id].meta.Some? ==>
            && s.hashes[id].meta == Some(s.ever[id].paste.meta)
            && id in s.filled && s.hashes[id].expireAt == Deadline(s.filled[id], s.ever[id].ttl))
  {
    Reachable(protectedOn, now, run, id);
    var s := After(protectedOn, Init(now), run);
    if Published(s, id) { PublishedIsFilled(protectedOn, s, id); }
  }

  /** Main result: two Saves of one id never both succeed. */
  lemma OneSaveWins(protectedOn: bool, now: int, run: seq<Label>, id: Id, t: Tid, u: Tid)
    requires RunFor(protectedOn, now, run, id)
    requires var s := After(protectedOn, Init(now), run);
      t in s.threads && u in s.threads && s.threads[t].Save? && s.threads[u].Save? &&
      s.threads[t].id == s.threads[u].id == id
      && s.threads[t].spc == Saved(201) && s.threads[u].spc == Saved(201)
    ensures t == u
  {
    Reachable(protectedOn, now, run, id);
    var s := After(protectedOn, Init(now), run);
    assert ThreadOk(protectedOn, s, t, s.threads[t]) && ThreadOk(protectedOn, s, u, s.threads[u]);
  }

  /** What readers are meant to see: published pastes that are neither gone nor expired. */
  ghost function Shown(s: State, id: Id): Option<Paste> {
    if id in s.filled then PasteOf(Live(s, id)) else None
  }

  /** Main result: the command a known read or DELETE is about to run never finds a
      content-only hash; it sees the whole paste or nothing. */
  lemma ReadersSeeWholePastes(protectedOn: bool, now: int, run: seq<Label>, id: Id, t: Tid)
    requires RunFor(protectedOn, now, run, id)
    requires var s := After(protectedOn, Init(now), run);
      t in s.threads && !s.threads[t].Save? && s.threads[t].known && s.threads[t].id == id
    ensures var s := After(protectedOn, Init(now), run);
      || Live(s, id) == EMPTY_HASH
      || (id in s.ever && Live(s, id) == HashOf(s, id) && Shown(s, id) == Some(s.ever[id].paste))
  {
    Reachable(protectedOn, now, run, id);
    var s := After(protectedOn, Init(now), run);
    assert ThreadOk(protectedOn, s, t, s.threads[t]);
    LiveIs(s, id);
  }

  /** Main result: whatever request runs, known or not, what readers see of `id` changes
      as if Save were one insert, made by its second transaction. */
  lemma SaveIsOneInsert(protectedOn: bool, now: int, run: seq<Label>, t: Tid, fault: bool, id: Id)
    requires RunFor(protectedOn, now, run, id) && Enabled(After(protectedOn, Init(now), run), Run(t, fault))
    ensures var s := After(protectedOn, Init(now), run);
      Shown(Next(protectedOn, s, Run(t, fault)), id) ==
        match ThreadStep(protectedOn, s, s.threads[t], fault).1
        case SetRest(i, _, _) => if i == id then Some(s.threads[t].paste) else Shown(s, id)
        case Take(i) => if i == id then None else Shown(s, id)
        case Del(i) => if i == id then None else Shown(s, id)
        case _ => Shown(s, id)
  {
    Reachable(protectedOn, now, run, id);
    var s := After(protectedOn, Init(now), run);
    var step := ThreadStep(protectedOn, s, s.threads[t], fault);
    if s.threads[t].id == id {
      assert ThreadOk(protectedOn, s, t, s.threads[t]);
      StepEffectOk(protectedOn, s, t, s.threads[t], fault);
      ShownAfter(s, t, step, id);
    } else {
      ShownBeside(protectedOn, s, t, fault, id);
    }
  }

  lemma ShownAfter(s: State, t: Tid, step: (Thread, Effect), id: Id)
    requires HashOk(s, id) && EffectOk(s, t, step.0, step.1, id)
    ensures Shown(Apply(s, t, step.1), id) ==
      match step.1
      case SetRest(i, _, _) => Some(s.ever[id].paste)
      case Take(i) => None
      case Del(i) => None
      case _ => Shown(s, id)
  {
    LiveIs(s, id);
  }

  lemma ShownBeside(protectedOn: bool, s: State, t: Tid, fault: bool, id: Id)
    requires t in s.threads && s.threads[t].id != id
    ensures var e := ThreadStep(protectedOn, s, s.threads[t], fault).1;
      (e.Nothing? || e.id != id) && Shown(Apply(s, t, e), id) == Shown(s, id)
  {
    EffectId(protectedOn, s, s.threads[t], fault);
  }

  /** Thread `t` is a fetch of `id` that was answered with `p`. */
  ghost predicate Got(s: State, t: Tid, id: Id, p: Paste) {
    t in s.threads && s.threads[t].Fetch? && s.threads[t].id == id && s.threads[t].fpc == Fetched(Some(p))
  }

  /** Main result: no burn paste reaches two readers, known or not, with its flags, nor
      two known readers. One that came in before the 201 may have read the content
      alone beside them; RedisEarlyFetch says exactly when. */
  lemma BurnAtMostOnce(protectedOn: bool, now: int, run: seq<Label>, id: Id, t: Tid, p: Paste, u: Tid, q: Paste)
    requires RunFor(protectedOn, now, run, id)
    requires var s := After(protectedOn, Init(now), run); Got(s, t, id, p) && Got(s, u, id, q)
    requires var s := After(protectedOn, Init(now), run);
      && (p.meta.burn || (s.threads[t].known && id in s.ever && s.ever[id].paste.meta.burn))
      && (q.meta.burn || (s.threads[u].known && id in s.ever && s.ever[id].paste.meta.burn))
    ensures t == u && p == q && id in After(protectedOn, Init(now), run).ever
    ensures p == After(protectedOn, Init(now), run).ever[id].paste
  {
    Reachable(protectedOn, now, run, id);
    var s := After(protectedOn, Init(now), run);
    assert ThreadOk(protectedOn, s, t, s.threads[t]) && ThreadOk(protectedOn, s, u, s.threads[u]);
  }

  /** Main result: a known read that finds a paste answers with it as saved, content
      and flags, by the Save that won the id; one that guessed the id gets the same
      content, at worst without its flags. */
  lemma ReadsReturnWhatWasSaved(protectedOn: bool, now: int, run: seq<Label>, id: Id, t: Tid, p: Paste)
    requires RunFor(protectedOn, now, run, id) && Got(After(protectedOn, Init(now), run), t, id, p)
    ensures var s := After(protectedOn, Init(now), run);
      && id in s.ever && s.ever[id].owner in s.threads && s.threads[s.ever[id].owner].Save?
      && var saved := s.threads[s.ever[id].owner].paste;
      && p.content == saved.content && (p == saved || (!s.threads[t].known && p.meta == NO_META))
  {
    Reachable(protectedOn, now, run, id);
    var s := After(protectedOn, Init(now), run);
    assert ThreadOk(protectedOn, s, t, s.threads[t]);
  }

  /** Main result: so with server-side encryption a read decrypts to the body that the
      winning Save had sealed. */
  lemma ReadsOpenToTheBody(protectedOn: bool, now: int, run: seq<Label>, id: Id, t: Tid, p: Paste,
                           a: Aead, key: ByteString, nonce: ByteString, body: ByteString)
    requires RunFor(protectedOn, now, run, id) && Got(After(protectedOn, Init(now), run), t, id, p)
    requires Lawful(a) && |nonce| == NONCE_SIZE
    requires var s := After(protectedOn, Init(now), run);
      id in s.ever && s.ever[id].paste.content == Encrypt(a, key, nonce, body)
    ensures Decrypt(a, key, p.content) == Some(body)
  {
    Reachable(protectedOn, now, run, id);
    var s := After(protectedOn, Init(now), run);
    assert ThreadOk(protectedOn, s, t, s.threads[t]);
    DecryptEncrypt(a, key, nonce, body);
  }

  /** Main result: with the feature on, a known DELETE past its guard finds a protected
      paste only when it is already gone or expired. */
  lemma ProtectedStays(now: int, run: seq<Label>, id: Id, t: Tid)
    requires RunFor(true, now, run, id)
    requires var s := After(true, Init(now), run);
      t in s.threads && s.threads[t].Remove? && s.threads[t].id == id && s.threads[t].rpc == Erasing
    ensures var s := After(true, Init(now), run);
      id in s.ever && (s.ever[id].paste.meta.prot ==> Live(s, id) == EMPTY_HASH)
  {
    Reachable(true, now, run, id);
    var s := After(true, Init(now), run);
    assert ThreadOk(true, s, t, s.threads[t]);
    LiveIs(s, id);
  }
}
