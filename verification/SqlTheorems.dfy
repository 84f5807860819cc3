/** What the SQL machine guarantees over every run, from an empty table and under
    the environment assumptions of SqlMachine.Enabled. */
module SqlTheorems {
  import opened Wrappers
  import opened Bytes
  import opened Numbers
  import opened Ttl
  import opened SqlMachine
  import opened SqlInvariant
  import opened SqlSafety

  /** Thread `t` is a fetchPaste call that returned the burn paste `id`. */
  ghost predicate GotBurnPaste(s: State, t: Tid, id: Id) {
    t in s.threads && s.threads[t].Fetched? && s.threads[t].id == id
    && s.threads[t].answer.Some? && s.threads[t].answer.value.burn
  }

  /** Main result: no interleaving hands a burn paste to two readers. */
  lemma BurnAtMostOnce(cfg: Config, now: int, run: seq<Label>, id: Id, t: Tid, u: Tid)
    requires Lawful(cfg.aead) && Legal(cfg, Init(now), run)
    requires GotBurnPaste(After(cfg, Init(now), run), t, id) && GotBurnPaste(After(cfg, Init(now), run), u, id)
    ensures t == u
  {
    Reachable(cfg, now, run);
    var s := After(cfg, Init(now), run);
    assert ThreadOk(cfg, s, t, s.threads[t]) && ThreadOk(cfg, s, u, s.threads[u]);
  }

  ghost function BurnedIds(s: State): set<Id> { set id | id in s.fate && s.fate[id].Burned? }
  ghost function DeletedIds(s: State): set<Id> { set id | id in s.fate && s.fate[id].Deleted? }
  ghost function ReapedIds(s: State): set<Id> { set id | id in s.fate && s.fate[id].Reaped? }

  /** Main result: every inserted row is present, burned, deleted or reaped, and just
      one of these; present rows are as inserted; a burned row went, as inserted, to
      one reader and was a burn paste; a reaped row had expired. */
  lemma Conservation(cfg: Config, now: int, run: seq<Label>)
    requires Lawful(cfg.aead) && Legal(cfg, Init(now), run)
    ensures var s := After(cfg, Init(now), run);
      && s.ever.Keys == s.rows.Keys + BurnedIds(s) + DeletedIds(s) + ReapedIds(s)
      && s.rows.Keys !! BurnedIds(s) !! DeletedIds(s) !! ReapedIds(s)
      && (forall id :: id in s.rows ==> s.rows[id] == s.ever[id].row)
      && (forall id :: id in BurnedIds(s) ==>
            s.ever[id].row.burn && s.fate[id].reader in s.threads
            && s.threads[s.fate[id].reader].Fetched? && s.threads[s.fate[id].reader].answer == Some(s.ever[id].row))
      && (forall id :: id in ReapedIds(s) ==> Dead(cfg, s.ever[id].row, s.fate[id].at) && s.fate[id].at <= s.now)
  {
    Reachable(cfg, now, run);
    var s := After(cfg, Init(now), run);
    FatesDivide(s);
    forall id | id in s.fate ensures FateOk(cfg, s, id) {}
  }

  lemma FatesDivide(s: State)
    requires Ledger(s)
    ensures s.ever.Keys == s.rows.Keys + BurnedIds(s) + DeletedIds(s) + ReapedIds(s)
    ensures s.rows.Keys !! BurnedIds(s) !! DeletedIds(s) !! ReapedIds(s)
  {
    assert s.fate.Keys == BurnedIds(s) + DeletedIds(s) + ReapedIds(s);
  }

  /** Why a row may leave the table in one step. */
  ghost predicate Cause(cfg: Config, s: State, l: Label, id: Id)
    requires id in s.rows
  {
    || Dead(cfg, s.rows[id], s.now)
    || (l.Run? && l.t in s.threads && (BurnsFor(cfg, s, l.t, l.env, id) || ErasesFor(cfg, s, s.threads[l.t], id)))
  }

  ghost predicate BurnsFor(cfg: Config, s: State, t: Tid, env: Env, id: Id)
    requires id in s.rows && t in s.threads
  {
    var next := ThreadStep(cfg, s, s.threads[t], env).0;
    s.rows[id].burn && next.Fetched? && next.id == id && next.answer == Some(s.rows[id])
  }

  /** A DELETE past its guard; not of a protected row when it named a known id. */
  ghost predicate ErasesFor(cfg: Config, s: State, thread: Thread, id: Id)
    requires id in s.rows
  {
    && thread.Remove? && thread.id == id && thread.rpc == Erasing
    && !(cfg.protectedOn && thread.known && s.rows[id].prot)
  }

  /** Main result: a live row leaves the table only by burning for the reader that
      gets it, or by a DELETE; with the feature on, a DELETE of an id published
      before it came in never takes a protected one. A row never changes in place. */
  lemma RemovalCauses(cfg: Config, now: int, run: seq<Label>, l: Label, id: Id)
    requires Lawful(cfg.aead) && Legal(cfg, Init(now), run) && Enabled(cfg, After(cfg, Init(now), run), l)
    requires id in After(cfg, Init(now), run).rows
    ensures var s := After(cfg, Init(now), run); var s' := Next(cfg, s, l);
      if id in s'.rows then s'.rows[id] == s.rows[id] else Cause(cfg, s, l, id)
  {
    Reachable(cfg, now, run);
    var s := After(cfg, Init(now), run);
    match l
    case Sweep => SweepCause(cfg, s, id);
    case Run(t, env) => RunCause(cfg, s, t, env, id);
    case _ =>
  }

  lemma SweepCause(cfg: Config, s: State, id: Id)
    requires id in s.rows
    ensures var s' := SweepRows(cfg, s);
      if id in s'.rows then s'.rows[id] == s.rows[id] else Dead(cfg, s.rows[id], s.now)
  {
    if Sweepable(cfg.backend, s.rows[id].expireAt, s.now) { SweptIsExpired(cfg.backend, s.rows[id].expireAt, s.now); }
  }

  lemma RunCause(cfg: Config, s: State, t: Tid, env: Env, id: Id)
    requires Inv(cfg, s) && Lawful(cfg.aead) && Enabled(cfg, s, Run(t, env)) && id in s.rows
    ensures var s' := Next(cfg, s, Run(t, env));
      if id in s'.rows then s'.rows[id] == s.rows[id] else Cause(cfg, s, Run(t, env), id)
  {
    var thread := s.threads[t];
    var step := ThreadStep(cfg, s, thread, env);
    assert ThreadOk(cfg, s, t, thread);
    ThreadStepOk(cfg, s, t, thread, env);
    EffectRows(s, t, step.1, id);
    EraseOnlyAfterGuard(cfg, s, thread, env);
  }

  lemma EffectRows(s: State, t: Tid, e: Effect, id: Id)
    requires id in s.rows
    ensures var m := Apply(s, t, e);
      if id in m.rows then m.rows[id] == s.rows[id] || (e.Insert? && e.id == id)
      else e == Reap(id) || e == Burn(id) || e == Erase(id)
  {}

  lemma EraseOnlyAfterGuard(cfg: Config, s: State, thread: Thread, env: Env)
    ensures var e := ThreadStep(cfg, s, thread, env).1;
      e.Erase? ==> thread.Remove? && thread.rpc == Erasing && e.id == thread.id
    ensures var e := ThreadStep(cfg, s, thread, env).1;
      e.Insert? ==> e.id !in s.rows
  {}

  /** Main result: a POST that answered 201 inserted exactly the row it was asked for,
      under the id it returned; any other answered POST inserted none. Slots are
      counted exactly, never exceed the capacity, and nobody holds one after the
      reply; at most three INSERTs are tried. */
  lemma UploadsAccounted(cfg: Config, now: int, run: seq<Label>)
    requires Lawful(cfg.aead) && Legal(cfg, Init(now), run)
    ensures var s := After(cfg, Init(now), run);
      && s.sem == |Holders(s)| <= cfg.capacity
      && forall t {:trigger s.threads[t]} :: t in s.threads && s.threads[t].Create? && s.threads[t].cpc.Replied? ==>
           UploadDone(cfg, s, t)
  {
    Reachable(cfg, now, run);
    var s := After(cfg, Init(now), run);
    forall t {:trigger s.threads[t]} | t in s.threads && s.threads[t].Create? && s.threads[t].cpc.Replied?
      ensures UploadDone(cfg, s, t)
    {
      RepliedIsDone(cfg, s, t);
    }
  }

  /** An answered POST holds no slot, tried at most three INSERTs, and inserted exactly
      the row it was asked for, or none. */
  ghost predicate UploadDone(cfg: Config, s: State, t: Tid)
    requires t in s.threads && s.threads[t].Create? && s.threads[t].cpc.Replied?
  {
    && t !in Holders(s) && s.threads[t].saves <= MAX_SLUG_RETRIES
    && InsertedBy(s, t) == (if s.threads[t].cpc.status == 201 then {s.threads[t].cpc.id} else {})
    && forall id :: id in InsertedBy(s, t) ==>
         AskedFor(cfg, s.threads[t].post, s.ever[id].row) && TtlFor(cfg, s.threads[t].post, s.ever[id].ttl)
  }

  lemma RepliedIsDone(cfg: Config, s: State, t: Tid)
    requires Inv(cfg, s) && t in s.threads && s.threads[t].Create? && s.threads[t].cpc.Replied?
    ensures UploadDone(cfg, s, t)
  {
    assert ThreadOk(cfg, s, t, s.threads[t]);
    InsertedWhatItReturned(cfg, s, t);
  }

  lemma InsertedWhatItReturned(cfg: Config, s: State, t: Tid)
    requires OriginsOk(cfg, s) && t in s.threads && s.threads[t].Create? && s.threads[t].cpc.Replied?
    requires s.threads[t].cpc.status == 201 ==> s.threads[t].cpc.id in InsertedBy(s, t)
    ensures InsertedBy(s, t) == (if s.threads[t].cpc.status == 201 then {s.threads[t].cpc.id} else {})
    ensures forall id :: id in InsertedBy(s, t) ==>
      AskedFor(cfg, s.threads[t].post, s.ever[id].row) && TtlFor(cfg, s.threads[t].post, s.ever[id].ttl)
  {
    forall id | id in InsertedBy(s, t)
      ensures s.threads[t].cpc == Replied(201, id)
      ensures AskedFor(cfg, s.threads[t].post, s.ever[id].row) && TtlFor(cfg, s.threads[t].post, s.ever[id].ttl)
    {
      assert OriginOk(cfg, s, id);
    }
  }

  ghost function InsertedBy(s: State, t: Tid): set<Id> {
    set id | id in s.ever && s.ever[id].owner == t
  }

  /** Main result: a read that finds a paste yields, decrypted, the first
      maxPasteSize bytes of the body that was posted for its id. */
  lemma ReadsReturnWhatWasPosted(cfg: Config, now: int, run: seq<Label>, t: Tid)
    requires Lawful(cfg.aead) && Legal(cfg, Init(now), run)
    requires var s := After(cfg, Init(now), run); t in s.threads && s.threads[t].Fetched? && s.threads[t].answer.Some?
    ensures var s := After(cfg, Init(now), run); var id := s.threads[t].id;
      && id in s.ever && s.ever[id].owner in s.threads && Returned201(s.threads[s.ever[id].owner], id)
      && Open(cfg, s.threads[t].answer.value) == Some(Truncate(cfg, s.threads[s.ever[id].owner].post.body))
  {
    Reachable(cfg, now, run);
    var s := After(cfg, Init(now), run);
    assert ThreadOk(cfg, s, t, s.threads[t]);
    assert OriginOk(cfg, s, s.threads[t].id);
  }

  /** Main result: a paste with a TTL is never served on a clock reading at or after
      its deadline. */
  lemma NeverServedLate(cfg: Config, now: int, run: seq<Label>, t: Tid)
    requires Lawful(cfg.aead) && Legal(cfg, Init(now), run)
    requires var s := After(cfg, Init(now), run); t in s.threads && s.threads[t].Fetched? && s.threads[t].answer.Some?
    ensures var s := After(cfg, Init(now), run); var id := s.threads[t].id;
      id in s.ever && (s.ever[id].ttl > 0 ==> s.threads[t].at < s.ever[id].born + s.ever[id].ttl)
  {
    Reachable(cfg, now, run);
    var s := After(cfg, Init(now), run);
    assert ThreadOk(cfg, s, t, s.threads[t]);
    var o := s.ever[s.threads[t].id];
    assert OriginOk(cfg, s, s.threads[t].id);
    if o.ttl > 0 { LivePeriod(cfg.backend, o.born, o.ttl, s.threads[t].at); }
  }

  /** Main result: unless burned or deleted, a paste is there and live until one
      second before its deadline, and for good when its TTL is not positive. */
  lemma LiveUntilDeadline(cfg: Config, now: int, run: seq<Label>, id: Id)
    requires Lawful(cfg.aead) && Legal(cfg, Init(now), run)
    requires var s := After(cfg, Init(now), run);
      id in s.ever && id !in BurnedIds(s) + DeletedIds(s)
      && (s.ever[id].ttl > 0 ==> s.now <= s.ever[id].born + s.ever[id].ttl - SECOND)
    ensures var s := After(cfg, Init(now), run); View(cfg, s, id) == Some(s.ever[id].row)
  {
    Reachable(cfg, now, run);
    var s := After(cfg, Init(now), run);
    var o := s.ever[id];
    assert OriginOk(cfg, s, id);
    if o.ttl > 0 { LivePeriod(cfg.backend, o.born, o.ttl, s.now); }
    if id in s.fate {
      assert FateOk(cfg, s, id);
      DeadStays(cfg, o.row, s.fate[id].at, s.now);
    }
  }

  /** Main result: a stored TTL is the one that was asked for. Without a maximum it is that
      many seconds, or none; with one, that within the maximum, and the maximum
      for a request without a TTL, of zero, or of more; up to the int64 limit. */
  lemma StoredTtlIsAsked(cfg: Config, now: int, run: seq<Label>, id: Id)
    requires Lawful(cfg.aead) && Legal(cfg, Init(now), run) && cfg.maxTtl >= 0
    requires id in After(cfg, Init(now), run).ever
    ensures var s := After(cfg, Init(now), run); var o := s.ever[id];
      o.owner in s.threads && s.threads[o.owner].Create? && TtlAsAsked(cfg.maxTtl, s.threads[o.owner].post.ttl, o.ttl)
  {
    Reachable(cfg, now, run);
    var s := After(cfg, Init(now), run);
    assert OriginOk(cfg, s, id);
    TtlForMeans(cfg, s.threads[s.ever[id].owner].post, s.ever[id].ttl);
  }

  /** Main result: a cleanup leaves exactly the rows whose stamp is not strictly past. */
  lemma SweepLeaves(cfg: Config, s: State, id: Id)
    requires id in s.rows
    ensures var stamp := s.rows[id].expireAt;
      id in Next(cfg, s, Sweep).rows <==> stamp == None || stamp.value >= Stamp(cfg.backend, s.now)
  {}

  /** Main result: with a maximum configured, a stored paste has a TTL in (0, max]
      exactly when the requested seconds keep the int64 sign bit clear, and the TTL
      that was asked for when that is within the maximum. */
  lemma StoredTtlWithinMax(cfg: Config, now: int, run: seq<Label>, id: Id)
    requires Lawful(cfg.aead) && Legal(cfg, Init(now), run) && cfg.maxTtl > 0
    requires var s := After(cfg, Init(now), run);
      id in s.ever && s.ever[id].owner in s.threads && s.threads[s.ever[id].owner].Create?
      && (s.threads[s.ever[id].owner].post.ttl.Given? ==> s.threads[s.ever[id].owner].post.ttl.n < TWO63)
    ensures var s := After(cfg, Init(now), run); var p := s.threads[s.ever[id].owner].post.ttl;
      && (0 < s.ever[id].ttl <= cfg.maxTtl <==> p.Absent? || (p.Given? && (p.n * SECOND) % TWO64 < TWO63))
      && (p.Given? && p.n <= 9223372036 && 0 < p.n * SECOND <= cfg.maxTtl ==> s.ever[id].ttl == p.n * SECOND)
  {
    Reachable(cfg, now, run);
    var s := After(cfg, Init(now), run);
    assert OriginOk(cfg, s, id);
    var p := s.threads[s.ever[id].owner].post.ttl;
    if p.Given? { ResolvedWithinMax(cfg.maxTtl, p.n); }
  }

  // The TTL map: what lazy expiry is meant to be indistinguishable from.

  /** The view as a map: the rows that are not expired. */
  ghost function ViewMap(cfg: Config, s: State): map<Id, Row> {
    map id | id in s.rows && !Dead(cfg, s.rows[id], s.now) :: s.rows[id]
  }

  /** Main result: a storage call answers what the view held at its last step, or
      when its row was selected or its clock read. Nothing in between can tell
      expired rows that are still stored from absent ones. */
  lemma AnswersAreTheView(cfg: Config, now: int, run: seq<Label>, t: Tid)
    requires Lawful(cfg.aead) && Legal(cfg, Init(now), run)
    requires t in After(cfg, Init(now), run).threads
    ensures var s := After(cfg, Init(now), run);
      match s.threads[t]
      case Fetch(id, stage, pc) =>
        var call := if stage == Taking then TakeStep(cfg, s, id, pc).0 else ReadStep(cfg, s, id, pc).0;
        CallAgrees(cfg, s, id, pc, call)
      case Remove(id, _, Guarding(pc)) => CallAgrees(cfg, s, id, pc, ReadStep(cfg, s, id, pc).0)
      case _ => true
  {
    Reachable(cfg, now, run);
    var s := After(cfg, Init(now), run);
    assert ThreadOk(cfg, s, t, s.threads[t]);
    match s.threads[t]
    case Fetch(id, stage, pc) =>
      if stage == Taking { TakeAgrees(cfg, s, id, pc); } else { ReadAgrees(cfg, s, id, pc); }
    case Remove(id, _, Guarding(pc)) => ReadAgrees(cfg, s, id, pc);
    case _ =>
  }

  ghost predicate CallAgrees(cfg: Config, s: State, id: Id, pc: Pc, call: Call) {
    call.Done? ==>
      || call.answer == View(cfg, s, id)
      || (pc.Check? && call.answer == pc.seen)
      || (pc.Take? && call.answer == pc.seen)
  }

  lemma ReadAgrees(cfg: Config, s: State, id: Id, pc: Pc)
    requires Inv(cfg, s) && PeekOk(cfg, s, id, pc)
    ensures CallAgrees(cfg, s, id, pc, ReadStep(cfg, s, id, pc).0)
    ensures pc == Drop && id in s.rows ==> Dead(cfg, s.rows[id], s.now)
  {}

  lemma TakeAgrees(cfg: Config, s: State, id: Id, pc: Pc)
    requires Inv(cfg, s) && FetchOk(cfg, s, id, Taking, pc)
    ensures CallAgrees(cfg, s, id, pc, TakeStep(cfg, s, id, pc).0)
  {
    if pc.Take? && id in s.rows && Dead(cfg, s.rows[id], pc.at) { DeadStays(cfg, s.rows[id], pc.at, s.now); }
  }

  /** How a step changes the view when nothing but the step itself shows. */
  ghost function ViewAfter(cfg: Config, s: State, l: Label): map<Id, Row>
    requires Enabled(cfg, s, l)
  {
    var v := ViewMap(cfg, s);
    match l
    case Tick(to) => map id | id in v && !Dead(cfg, v[id], to) :: v[id]
    case Sweep => v
    case Arrive(_, _) => v
    case Run(t, env) =>
      match ThreadStep(cfg, s, s.threads[t], env).1
      case Burn(id) => v - {id}
      case Erase(id) => v - {id}
      case Insert(id, row, _, _) => if Dead(cfg, row, s.now) then v else v[id := row]
      case _ => v
  }

  /** Main result: the server is a TTL map. Cleanup ticks and lazy DELETEs do not
      show in the view; inserts, burns, DELETEs and time do just what they say. */
  lemma StepRefinesTtlMap(cfg: Config, now: int, run: seq<Label>, l: Label)
    requires Lawful(cfg.aead) && Legal(cfg, Init(now), run) && Enabled(cfg, After(cfg, Init(now), run), l)
    ensures var s := After(cfg, Init(now), run); ViewMap(cfg, Next(cfg, s, l)) == ViewAfter(cfg, s, l)
  {
    Reachable(cfg, now, run);
    var s := After(cfg, Init(now), run);
    match l
    case Tick(to) => TickView(cfg, s, to);
    case Sweep => SweepView(cfg, s);
    case Arrive(_, _) =>
    case Run(t, env) =>
      ThreadStepOk(cfg, s, t, s.threads[t], env);
      RunView(cfg, s, t, ThreadStep(cfg, s, s.threads[t], env));
  }

  lemma TickView(cfg: Config, s: State, to: int)
    requires s.now <= to
    ensures ViewMap(cfg, s.(now := to)) == ViewAfter(cfg, s, Tick(to))
  {
    forall id | id in s.rows && Dead(cfg, s.rows[id], s.now) ensures Dead(cfg, s.rows[id], to) {
      DeadStays(cfg, s.rows[id], s.now, to);
    }
  }

  lemma SweepView(cfg: Config, s: State)
    ensures ViewMap(cfg, SweepRows(cfg, s)) == ViewMap(cfg, s)
  {
    forall id | id in s.rows
      ensures Sweepable(cfg.backend, s.rows[id].expireAt, s.now) ==> Dead(cfg, s.rows[id], s.now) {
      if Sweepable(cfg.backend, s.rows[id].expireAt, s.now) { SweptIsExpired(cfg.backend, s.rows[id].expireAt, s.now); }
    }
  }

  lemma GoneView(cfg: Config, s: State, id: Id, f: Fate)
    ensures ViewMap(cfg, Gone(s, id, f)) == ViewMap(cfg, s) - {id}
    ensures id in s.rows && Dead(cfg, s.rows[id], s.now) ==> ViewMap(cfg, Gone(s, id, f)) == ViewMap(cfg, s)
    ensures id !in s.rows ==> ViewMap(cfg, Gone(s, id, f)) == ViewMap(cfg, s)
  {}

  lemma RunView(cfg: Config, s: State, t: Tid, step: (Thread, Effect))
    requires Ledger(s) && EffectOk(cfg, s, t, step.0, step.1)
    ensures ViewMap(cfg, Apply(s, t, step.1)) ==
      match step.1
      case Burn(id) => ViewMap(cfg, s) - {id}
      case Erase(id) => ViewMap(cfg, s) - {id}
      case Insert(id, row, _, _) => if Dead(cfg, row, s.now) then ViewMap(cfg, s) else ViewMap(cfg, s)[id := row]
      case _ => ViewMap(cfg, s)
  {
    match step.1
    case Reap(id) => GoneView(cfg, s, id, Reaped(s.now));
    case Burn(id) => GoneView(cfg, s, id, Burned(t));
    case Erase(id) => GoneView(cfg, s, id, Deleted(t, s.now));
    case _ =>
  }
}
