/** Every step of the SQL machine keeps the invariant, so every run does. */
module SqlSafety {
  import opened Wrappers
  import opened Bytes
  import opened Ttl
  import opened SqlMachine
  import opened SqlInvariant

  /** What a step may do to the shared state, given where its thread goes. */
  ghost predicate EffectOk(cfg: Config, s: State, t: Tid, next: Thread, e: Effect) {
    match e
    case Nothing => true
    case Reap(id) => Stale(cfg, s, id)
    case Burn(id) =>
      && id in s.rows && s.rows[id].burn
      && next.Fetched? && next.id == id && next.answer == Some(s.rows[id])
    case Erase(id) =>
      && next.Remove? && next.id == id && next.rpc == Removed(200)
      && (cfg.protectedOn && next.known ==> Harmless(cfg, s, id))
    case Insert(id, row, born, ttl) =>
      && id !in s.ever && born <= s.now && row.expireAt == ExpireAt(cfg.backend, born, ttl)
      && next.Create? && next.cpc == Leaving(201, id)
      && AskedFor(cfg, next.post, row) && TtlFor(cfg, next.post, ttl)
    case Acquire => s.sem < cfg.capacity
    case Release => true
  }

  /** A thread's answers once its effect has been applied. */
  ghost predicate StepOk(cfg: Config, s: State, t: Tid, step: (Thread, Effect)) {
    && EffectOk(cfg, s, t, step.0, step.1)
    && ThreadOk(cfg, Apply(s, t, step.1), t, step.0)
  }

  lemma ReadStepOk(cfg: Config, s: State, id: Id, pc: Pc)
    requires Ledger(s) && PeekOk(cfg, s, id, pc)
    ensures var (call, e) := ReadStep(cfg, s, id, pc);
      && (e == Nothing || (e == Reap(id) && Stale(cfg, s, id)))
      && (call.More? ==> e == Nothing && PeekOk(cfg, s, id, call.pc))
      && (call.Done? ==> call.at == s.now)
      && (call.Done? && call.answer.Some? ==>
            id in s.ever && call.answer.value == s.ever[id].row && !Dead(cfg, s.ever[id].row, s.now))
      && (call.Done? && call.answer == None && id in s.ever ==> id in s.fate || Dead(cfg, s.ever[id].row, s.now))
  {}

  lemma GoneGrows(s: State, id: Id, f: Fate)
    requires Ledger(s)
    ensures Grows(s, Gone(s, id, f)) && Ledger(Gone(s, id, f))
    ensures Gone(s, id, f).ever == s.ever
    ensures id in s.ever ==> id in Gone(s, id, f).fate
  {}

  lemma ApplyGrows(cfg: Config, s: State, t: Tid, next: Thread, e: Effect)
    requires Ledger(s) && EffectOk(cfg, s, t, next, e)
    ensures Grows(s, Apply(s, t, e)) && Ledger(Apply(s, t, e))
    ensures Apply(s, t, e).now == s.now && Apply(s, t, e).threads == s.threads
  {
    match e
    case Reap(id) => GoneGrows(s, id, Reaped(s.now));
    case Burn(id) => GoneGrows(s, id, Burned(t));
    case Erase(id) => GoneGrows(s, id, Deleted(t, s.now));
    case Insert(id, row, born, ttl) =>
    case _ =>
  }

  /** fetchPaste goes on with what it knows. */
  lemma FetchNextOk(cfg: Config, s: State, t: Tid, id: Id, stage: Stage, answer: Option<Row>, at: int)
    requires FetchOk(cfg, s, id, stage, if stage == Taking then Clock else Select) && stage != Taking
    requires at <= s.now
    requires answer.Some? ==> id in s.ever && answer.value == s.ever[id].row && !Dead(cfg, answer.value, at)
    ensures ThreadOk(cfg, s, t, FetchNext(id, stage, answer, at))
  {}

  lemma TakeStepOk(cfg: Config, s: State, t: Tid, id: Id, pc: Pc)
    requires Ledger(s) && FetchOk(cfg, s, id, Taking, pc)
    ensures var (call, e) := TakeStep(cfg, s, id, pc);
      StepOk(cfg, s, t, (match call case More(q) => Fetch(id, Taking, q) case Done(a, at) => Fetched(id, a, at), e))
  {}

  lemma FetchStepOk(cfg: Config, s: State, t: Tid, id: Id, stage: Stage, pc: Pc, env: Env)
    requires Ledger(s) && FetchOk(cfg, s, id, stage, pc)
    ensures StepOk(cfg, s, t, FetchStep(cfg, s, id, stage, pc, env))
  {
    if stage == Taking {
      TakeStepOk(cfg, s, t, id, pc);
    } else {
      ReadStepOk(cfg, s, id, pc);
      var (call, e) := ReadStep(cfg, s, id, pc);
      FetchNextOk(cfg, s, t, id, stage, None, s.now);
      if call.Done? { FetchNextOk(cfg, s, t, id, stage, call.answer, call.at); }
      ReadEffect(cfg, s, t, id, FetchStep(cfg, s, id, stage, pc, env));
    }
  }

  /** A reading step at most reaps an expired row. */
  lemma ReadEffect(cfg: Config, s: State, t: Tid, id: Id, step: (Thread, Effect))
    requires Ledger(s) && ThreadOk(cfg, s, t, step.0)
    requires step.1 == Nothing || (step.1 == Reap(id) && Stale(cfg, s, id))
    ensures StepOk(cfg, s, t, step)
  {
    ApplyGrows(cfg, s, t, step.0, step.1);
    ThreadStable(cfg, s, Apply(s, t, step.1), t, step.0);
  }

  lemma RemoveStepOk(cfg: Config, s: State, t: Tid, id: Id, known: bool, rpc: RemovePc, env: Env)
    requires Ledger(s) && RemoveOk(cfg, s, id, known, rpc)
    ensures StepOk(cfg, s, t, RemoveStep(cfg, s, id, known, rpc, env))
  {
    var step := RemoveStep(cfg, s, id, known, rpc, env);
    match rpc
    case Guarding(pc) =>
      ReadStepOk(cfg, s, id, pc);
      ReadEffect(cfg, s, t, id, step);
    case Erasing => ApplyGrows(cfg, s, t, step.0, step.1);
    case Removed(_) =>
  }

  lemma SealOpens(cfg: Config, post: Post, nonce: ByteString)
    requires Lawful(cfg.aead)
    ensures var body := Truncate(cfg, post.body);
      Seal(cfg, body, nonce).Some? ==> AskedFor(cfg, post, Asked(cfg, post, Seal(cfg, body, nonce).value))
  {
    if cfg.key.Some? && |nonce| == NONCE_SIZE {
      DecryptEncrypt(cfg.aead, cfg.key.value, nonce, Truncate(cfg, post.body));
    }
  }

  lemma CreateStepOk(cfg: Config, s: State, t: Tid, post: Post, saves: nat, cpc: CreatePc, env: Env)
    requires Ledger(s) && CreateOk(cfg, s, t, post, saves, cpc) && Lawful(cfg.aead)
    requires !Recycles(s, Create(post, saves, cpc))
    ensures StepOk(cfg, s, t, CreateStep(cfg, s, post, saves, cpc, env))
  {
    match cpc
    case Sealing => SealOpens(cfg, post, env.nonce);
    case Naming(row, ttl) => ExpiryAside(cfg, post, row, ExpireAt(cfg.backend, s.now, ttl));
    case Saving(id, row, ttl, born) => SaveStepOk(cfg, s, t, post, saves, id, row, ttl, born, env);
    case _ =>
  }

  /** What was asked for does not depend on the expiry column. */
  lemma ExpiryAside(cfg: Config, post: Post, row: Row, expireAt: Option<int>)
    ensures AskedFor(cfg, post, row.(expireAt := expireAt)) <==> AskedFor(cfg, post, row)
  {
    assert Open(cfg, row.(expireAt := expireAt)) == Open(cfg, row);
  }

  lemma SaveStepOk(cfg: Config, s: State, t: Tid, post: Post, saves: nat, id: Id, row: Row, ttl: int, born: int,
                   env: Env)
    requires Ledger(s) && CreateOk(cfg, s, t, post, saves, Saving(id, row, ttl, born))
    requires !Recycles(s, Create(post, saves, Saving(id, row, ttl, born)))
    ensures StepOk(cfg, s, t, CreateStep(cfg, s, post, saves, Saving(id, row, ttl, born), env))
  {
    ExpiryAside(cfg, post, row, None);
  }

  lemma ThreadStepOk(cfg: Config, s: State, t: Tid, thread: Thread, env: Env)
    requires Ledger(s) && ThreadOk(cfg, s, t, thread) && Lawful(cfg.aead) && !Recycles(s, thread)
    ensures StepOk(cfg, s, t, ThreadStep(cfg, s, thread, env))
  {
    match thread
    case Fetch(id, stage, pc) => FetchStepOk(cfg, s, t, id, stage, pc, env);
    case Fetched(_, _, _) =>
    case Remove(id, known, rpc) => RemoveStepOk(cfg, s, t, id, known, rpc, env);
    case Create(post, saves, cpc) => CreateStepOk(cfg, s, t, post, saves, cpc, env);
  }

  /** A finished request stays as it is. */
  predicate Finished(thread: Thread) {
    thread.Fetched? || (thread.Remove? && thread.rpc.Removed?)
  }

  /** A 201, and the id in it, are never taken back. */
  lemma ThreadStepKeeps(cfg: Config, s: State, thread: Thread, env: Env)
    ensures Finished(thread) ==> ThreadStep(cfg, s, thread, env).0 == thread
    ensures thread.Create? ==>
      var next := ThreadStep(cfg, s, thread, env).0;
      next.Create? && next.post == thread.post && forall id :: Returned201(thread, id) ==> Returned201(next, id)
  {}

  /** The shared part of a thread step: the effect, then the thread's new state. */
  ghost predicate Moves(cfg: Config, s: State, t: Tid, env: Env, m: State, s': State) {
    t in s.threads && var step := ThreadStep(cfg, s, s.threads[t], env);
    m == Apply(s, t, step.1) && s' == m.(threads := s.threads[t := step.0])
  }

  lemma MoveThreads(cfg: Config, s: State, t: Tid, env: Env, m: State, s': State)
    requires Inv(cfg, s) && Lawful(cfg.aead) && t in s.threads && !Recycles(s, s.threads[t])
    requires Moves(cfg, s, t, env, m, s')
    ensures Grows(s, s') && Ledger(s') && ThreadsOk(cfg, s')
  {
    var step := ThreadStep(cfg, s, s.threads[t], env);
    ThreadStepOk(cfg, s, t, s.threads[t], env);
    ApplyGrows(cfg, s, t, step.0, step.1);
    forall u | u in s'.threads ensures ThreadOk(cfg, s', u, s'.threads[u]) {
      if u == t {
        ThreadStable(cfg, m, s', t, step.0);
      } else {
        ThreadStable(cfg, s, s', u, s.threads[u]);
      }
    }
  }

  lemma OriginStable(cfg: Config, s: State, s': State, id: Id)
    requires Grows(s, s') && id in s.ever && OriginOk(cfg, s, id)
    requires var t := s.ever[id].owner;
      t in s'.threads && Returned201(s'.threads[t], id) && s'.threads[t].post == s.threads[t].post
    ensures OriginOk(cfg, s', id)
  {}

  lemma MoveOrigins(cfg: Config, s: State, t: Tid, env: Env, m: State, s': State)
    requires Inv(cfg, s) && Lawful(cfg.aead) && t in s.threads && !Recycles(s, s.threads[t])
    requires Moves(cfg, s, t, env, m, s') && Grows(s, s')
    ensures OriginsOk(cfg, s')
  {
    var step := ThreadStep(cfg, s, s.threads[t], env);
    ThreadStepOk(cfg, s, t, s.threads[t], env);
    forall id | id in s'.ever ensures OriginOk(cfg, s', id) {
      if id in s.ever {
        OldOrigin(cfg, s, t, env, s', id);
      } else {
        NewOrigin(cfg, s, t, step, m, s', id);
      }
    }
  }

  lemma OldOrigin(cfg: Config, s: State, t: Tid, env: Env, s': State, id: Id)
    requires t in s.threads && s'.threads == s.threads[t := ThreadStep(cfg, s, s.threads[t], env).0]
    requires Grows(s, s') && id in s.ever && OriginOk(cfg, s, id)
    ensures OriginOk(cfg, s', id)
  {
    ThreadStepKeeps(cfg, s, s.threads[t], env);
    OriginStable(cfg, s, s', id);
  }

  lemma NewOrigin(cfg: Config, s: State, t: Tid, step: (Thread, Effect), m: State, s': State, id: Id)
    requires t in s.threads && EffectOk(cfg, s, t, step.0, step.1)
    requires m == Apply(s, t, step.1) && s' == m.(threads := s.threads[t := step.0])
    requires id in s'.ever && id !in s.ever
    ensures OriginOk(cfg, s', id)
  {}

  lemma FateStable(cfg: Config, s: State, s': State, id: Id)
    requires Grows(s, s') && id in s.fate && id in s.ever && FateOk(cfg, s, id)
    requires forall t :: t in s.threads && Finished(s.threads[t]) ==> t in s'.threads && s'.threads[t] == s.threads[t]
    ensures FateOk(cfg, s', id)
  {}

  lemma MoveFates(cfg: Config, s: State, t: Tid, env: Env, m: State, s': State)
    requires Inv(cfg, s) && Lawful(cfg.aead) && t in s.threads && !Recycles(s, s.threads[t])
    requires Moves(cfg, s, t, env, m, s') && Grows(s, s')
    ensures FatesOk(cfg, s')
  {
    var step := ThreadStep(cfg, s, s.threads[t], env);
    ThreadStepOk(cfg, s, t, s.threads[t], env);
    ThreadStepKeeps(cfg, s, s.threads[t], env);
    forall id | id in s'.fate && id in s'.ever ensures FateOk(cfg, s', id) {
      if id in s.fate { FateStable(cfg, s, s', id); } else { NewFate(cfg, s, t, step, m, s', id); }
    }
  }

  lemma NewFate(cfg: Config, s: State, t: Tid, step: (Thread, Effect), m: State, s': State, id: Id)
    requires Inv(cfg, s) && t in s.threads && EffectOk(cfg, s, t, step.0, step.1)
    requires m == Apply(s, t, step.1) && s' == m.(threads := s.threads[t := step.0])
    requires id in s'.fate && id !in s.fate && id in s'.ever
    ensures FateOk(cfg, s', id)
  {}

  /** Slots: the count follows the set of requests in the section. */
  lemma MoveSlots(cfg: Config, s: State, t: Tid, env: Env, m: State, s': State)
    requires SlotsOk(cfg, s) && t in s.threads && Moves(cfg, s, t, env, m, s')
    ensures SlotsOk(cfg, s')
  {
    var step := ThreadStep(cfg, s, s.threads[t], env);
    SlotEffect(cfg, s, s.threads[t], env);
    HoldersMove(s, s', t, step.0);
    SemMove(s, t, step.1);
    var h := Holders(s);
    if Holds(step.0) {
      if t in h { assert h + {t} == h; } else { assert |h + {t}| == |h| + 1; }
    } else {
      if t in h { assert |h - {t}| == |h| - 1; } else { assert h - {t} == h; }
    }
  }

  lemma HoldersMove(s: State, s': State, t: Tid, next: Thread)
    requires s'.threads == s.threads[t := next]
    ensures Holders(s') == if Holds(next) then Holders(s) + {t} else Holders(s) - {t}
    ensures t in Holders(s) <==> t in s.threads && Holds(s.threads[t])
  {
    var after := if Holds(next) then Holders(s) + {t} else Holders(s) - {t};
    forall u ensures u in Holders(s') <==> u in after {
      if u != t && u in s.threads { assert s'.threads[u] == s.threads[u]; }
    }
    assert Holders(s') == after;
  }

  lemma SemMove(s: State, t: Tid, e: Effect)
    ensures Apply(s, t, e).sem ==
      match e { case Acquire => s.sem + 1 case Release => if s.sem == 0 then 0 else s.sem - 1 case _ => s.sem }
  {}

  /** A step takes or gives back a slot exactly when its thread enters or leaves. */
  lemma SlotEffect(cfg: Config, s: State, thread: Thread, env: Env)
    ensures var step := ThreadStep(cfg, s, thread, env);
      && (step.1 == Acquire <==> !Holds(thread) && Holds(step.0))
      && (step.1 == Release <==> Holds(thread) && !Holds(step.0))
      && (step.1 == Acquire ==> s.sem < cfg.capacity)
  {}

  lemma RunKeeps(cfg: Config, s: State, t: Tid, env: Env)
    requires Inv(cfg, s) && Lawful(cfg.aead) && Enabled(cfg, s, Run(t, env))
    ensures Inv(cfg, Next(cfg, s, Run(t, env))) && Grows(s, Next(cfg, s, Run(t, env)))
  {
    var step := ThreadStep(cfg, s, s.threads[t], env);
    var m := Apply(s, t, step.1);
    var s' := Next(cfg, s, Run(t, env));
    MoveThreads(cfg, s, t, env, m, s');
    MoveOrigins(cfg, s, t, env, m, s');
    MoveFates(cfg, s, t, env, m, s');
    MoveSlots(cfg, s, t, env, m, s');
  }

  lemma QuietKeeps(cfg: Config, s: State, s': State)
    requires Inv(cfg, s) && Grows(s, s') && Ledger(s') && s'.threads == s.threads && s'.ever == s.ever &&
      s'.sem == s.sem
    requires forall id :: id in s'.fate && id !in s.fate && id in s'.ever ==> FateOk(cfg, s', id)
    ensures Inv(cfg, s')
  {
    forall t | t in s'.threads ensures ThreadOk(cfg, s', t, s'.threads[t]) {
      ThreadStable(cfg, s, s', t, s.threads[t]);
    }
    forall id | id in s'.ever ensures OriginOk(cfg, s', id) {
      OriginStable(cfg, s, s', id);
    }
    forall id | id in s'.fate && id in s'.ever ensures FateOk(cfg, s', id) {
      if id in s.fate { FateStable(cfg, s, s', id); }
    }
    assert Holders(s') == Holders(s);
  }

  lemma SweepGrows(cfg: Config, s: State)
    requires Ledger(s)
    ensures var s' := SweepRows(cfg, s);
      && Ledger(s') && Grows(s, s') && s'.ever == s.ever && s'.threads == s.threads && s'.sem == s.sem
      && s'.now == s.now
      && forall id :: id in s'.fate && id !in s.fate ==>
           id in s.rows && s'.fate[id] == Reaped(s.now) && Sweepable(cfg.backend, s.rows[id].expireAt, s.now)
  {}

  lemma SweepKeeps(cfg: Config, s: State)
    requires Inv(cfg, s)
    ensures Inv(cfg, SweepRows(cfg, s)) && Grows(s, SweepRows(cfg, s))
  {
    var s' := SweepRows(cfg, s);
    SweepGrows(cfg, s);
    forall id | id in s'.fate && id !in s.fate && id in s'.ever ensures FateOk(cfg, s', id) {
      SweptIsExpired(cfg.backend, s.rows[id].expireAt, s.now);
    }
    QuietKeeps(cfg, s, s');
  }

  lemma PublishedWasInserted(cfg: Config, s: State, id: Id)
    requires ThreadsOk(cfg, s) && Published(s, id)
    ensures id in s.ever
  {
    var t :| t in s.threads && Returned201(s.threads[t], id);
    assert ThreadOk(cfg, s, t, s.threads[t]);
  }

  lemma ArriveThreads(cfg: Config, s: State, t: Tid, thread: Thread, s': State)
    requires ThreadsOk(cfg, s) && Enabled(cfg, s, Arrive(t, thread)) && s' == Next(cfg, s, Arrive(t, thread))
    ensures ThreadsOk(cfg, s')
  {
    if thread.Remove? && thread.known { PublishedWasInserted(cfg, s, thread.id); }
    forall u | u in s'.threads ensures ThreadOk(cfg, s', u, s'.threads[u]) {
      if u != t { ThreadStable(cfg, s, s', u, s.threads[u]); }
    }
  }

  lemma ArriveKeeps(cfg: Config, s: State, t: Tid, thread: Thread)
    requires Inv(cfg, s) && Enabled(cfg, s, Arrive(t, thread))
    ensures Inv(cfg, Next(cfg, s, Arrive(t, thread))) && Grows(s, Next(cfg, s, Arrive(t, thread)))
  {
    var s' := Next(cfg, s, Arrive(t, thread));
    ArriveThreads(cfg, s, t, thread, s');
    ArriveHistory(cfg, s, t, thread, s');
    HoldersMove(s, s', t, thread);
  }

  lemma ArriveHistory(cfg: Config, s: State, t: Tid, thread: Thread, s': State)
    requires OriginsOk(cfg, s) && FatesOk(cfg, s) && t !in s.threads && s' == s.(threads := s.threads[t := thread])
    ensures OriginsOk(cfg, s') && FatesOk(cfg, s')
  {
    forall id | id in s'.ever ensures OriginOk(cfg, s', id) { assert OriginOk(cfg, s, id); }
    forall id | id in s'.fate && id in s'.ever ensures FateOk(cfg, s', id) { assert FateOk(cfg, s, id); }
  }

  /** Every step keeps the invariant and the history. */
  lemma NextKeeps(cfg: Config, s: State, l: Label)
    requires Inv(cfg, s) && Lawful(cfg.aead) && Enabled(cfg, s, l)
    ensures Inv(cfg, Next(cfg, s, l)) && Grows(s, Next(cfg, s, l))
  {
    match l
    case Tick(to) => QuietKeeps(cfg, s, s.(now := to));
    case Sweep => SweepKeeps(cfg, s);
    case Arrive(t, thread) => ArriveKeeps(cfg, s, t, thread);
    case Run(t, env) => RunKeeps(cfg, s, t, env);
  }

  lemma InitInv(cfg: Config, now: int)
    ensures Inv(cfg, Init(now))
  {
    assert Holders(Init(now)) == {};
  }

  /** So does every run. */
  lemma {:induction false} RunsKeep(cfg: Config, s: State, run: seq<Label>)
    requires Inv(cfg, s) && Lawful(cfg.aead) && Legal(cfg, s, run)
    ensures Inv(cfg, After(cfg, s, run)) && Grows(s, After(cfg, s, run))
    decreases |run|
  {
    if run != [] {
      NextKeeps(cfg, s, run[0]);
      RunsKeep(cfg, Next(cfg, s, run[0]), run[1..]);
    }
  }

  lemma Reachable(cfg: Config, now: int, run: seq<Label>)
    requires Lawful(cfg.aead) && Legal(cfg, Init(now), run)
    ensures Inv(cfg, After(cfg, Init(now), run))
  {
    InitInv(cfg, now);
    RunsKeep(cfg, Init(now), run);
  }
}
